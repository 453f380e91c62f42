/**
 * What the gate reads from its inputs, field by field: the findings that a report makes, the exceptions that
 * an entry grants, and the condition for passing in these terms.
 */
module AuditInputs {
  import opened Tables
  import opened AuditGate
  import opened AuditLaws
  import opened AuditReports

  // ---------------------------------------------------------------- decoded JSON

  /** The empty values of JSON. */
  lemma {:induction false} FalsyAre(j: Json)
    ensures !Truthy(j) <==>
              j == JNull || j == JBool(false) || j == JNum(0.0) || j == JStr("") || j == JList([]) || j == JDict([])
  {
  }

  /** The first member with the key, or null without one. */
  lemma {:induction false} GetMeans(members: seq<Member>, key: string, other: Json)
    ensures forall i :: 0 <= i < |members| && members[i].key == key &&
                        (forall j :: 0 <= j < i ==> members[j].key != key) ==>
              GetOr(members, key, other) == members[i].value
    ensures (forall i :: 0 <= i < |members| ==> members[i].key != key) ==> GetOr(members, key, other) == other
  {
    if members != [] {
      var rest := members[1..];
      GetMeans(rest, key, other);
      assert forall i :: 0 < i < |members| ==> members[i] == rest[i - 1];
      assert forall i :: 0 <= i < |rest| ==> rest[i] == members[i + 1];
      forall i | 0 < i < |members| && members[i].key == key && (forall j :: 0 <= j < i ==> members[j].key != key)
        ensures GetOr(members, key, other) == members[i].value
      {
        assert members[0].key != key;
        assert rest[i - 1].key == key && forall j :: 0 <= j < i - 1 ==> rest[j].key != key;
      }
    }
  }

  ghost predicate PickedAt(candidates: seq<Json>, x: Json, k: int) {
    && 0 <= k < |candidates| && candidates[k] == x && (Truthy(x) || k == |candidates| - 1)
    && forall j :: 0 <= j < k ==> !Truthy(candidates[j])
  }

  /** The first of the candidates that is not empty, or the last one if all are. */
  ghost predicate Picks(candidates: seq<Json>, x: Json) {
    exists k :: PickedAt(candidates, x, k)
  }

  lemma {:induction false} PicksOr(a: Json, rest: seq<Json>, x: Json)
    requires rest != [] && Picks(rest, x)
    ensures Picks([a] + rest, Or(a, x))
  {
    var all := [a] + rest;
    var k :| PickedAt(rest, x, k);
    if Truthy(a) {
      assert PickedAt(all, Or(a, x), 0);
    } else {
      forall j | 0 <= j < k + 1
        ensures !Truthy(all[j])
      {
        assert all[j] == if j == 0 then a else rest[j - 1];
      }
      assert PickedAt(all, Or(a, x), k + 1);
    }
  }

  lemma {:induction false} PicksOnlyOne(candidates: seq<Json>, x: Json, y: Json)
    requires Picks(candidates, x) && Picks(candidates, y)
    ensures x == y
  {
    var k :| PickedAt(candidates, x, k);
    var l :| PickedAt(candidates, y, l);
    assert k == l;
  }

  lemma {:induction false} PicksLast(x: Json)
    ensures Picks([x], x)
  {
    assert PickedAt([x], x, 0);
  }

  lemma {:induction false} PicksOfTwo(a: Json, b: Json)
    ensures Picks([a, b], Or(a, b))
  {
    PicksLast(b);
    PicksOr(a, [b], b);
    assert [a] + [b] == [a, b];
  }

  lemma {:induction false} PicksOfFour(a: Json, b: Json, c: Json, d: Json)
    ensures Picks([a, b, c, d], Or(a, Or(b, Or(c, d))))
  {
    hide Or, Picks;
    PicksOfTwo(c, d);
    PicksOr(b, [c, d], Or(c, d));
    PicksOr(a, [b] + [c, d], Or(b, Or(c, d)));
    assert [a] + ([b] + [c, d]) == [a, b, c, d];
  }

  lemma {:induction false} PicksOfFive(a: Json, b: Json, c: Json, d: Json, e: Json)
    ensures Picks([a, b, c, d, e], Or(a, Or(b, Or(c, Or(d, e)))))
  {
    hide Or, Picks;
    PicksOfFour(b, c, d, e);
    PicksOr(a, [b, c, d, e], Or(b, Or(c, Or(d, e))));
    assert [a] + [b, c, d, e] == [a, b, c, d, e];
  }

  // ---------------------------------------------------------------- advisories

  /** What an advisory may be identified by, in order of preference; the id is printed, only the first CVE counts. */
  ghost function Identifiers(lib: Library, advisory: Json): seq<Json>
    requires advisory.JDict?
  {
    var cves, id := Get(advisory, "cves"), Get(advisory, "id");
    var cve :=
      if cves.JList? && cves.items != [] then cves.items[0]
      else if cves.JStr? && cves.s != "" then JStr([cves.s[0]])
      else JNull;
    var printed := if id.JStr? || id == JNull then id else JStr(lib.show(id));
    [Get(advisory, "github_advisory_id"), Get(advisory, "url"), cve, printed, Get(advisory, "title"),
     Get(advisory, "advisory"), Get(advisory, "overview")]
  }

  /** The finding that an advisory makes. */
  ghost predicate AdvisoryMakes(lib: Library, advisory: Json, x: Item) {
    && advisory.JDict?
    && Picks([Get(advisory, "module_name"), Get(advisory, "name")], x.name)
    && x.severity == Get(advisory, "severity")
    && Picks(Identifiers(lib, advisory), x.advisory)
  }

  lemma {:induction false} IdentifierPicked(lib: Library, advisory: Json)
    requires advisory.JDict? && PickAdvisoryID(lib, advisory).Some?
    ensures Picks(Identifiers(lib, advisory), PickAdvisoryID(lib, advisory).value)
  {
    var c := Identifiers(lib, advisory);
    var x := PickAdvisoryID(lib, advisory).value;
    assert x == Or(c[0], Or(c[1], Or(c[2], Or(c[3], Or(c[4], Or(c[5], c[6]))))));
    hide Or, Picks, Get, Identifiers, PickAdvisoryID;
    PicksOfFive(c[2], c[3], c[4], c[5], c[6]);
    var five := [c[2], c[3], c[4], c[5], c[6]];
    var y := Or(c[2], Or(c[3], Or(c[4], Or(c[5], c[6]))));
    PicksOr(c[1], five, y);
    PicksOr(c[0], [c[1]] + five, Or(c[1], y));
    assert |c| == 7;
    assert [c[0]] + ([c[1]] + five) == c;
  }

  /** An advisory that does not crash the gate makes one finding: its name, its severity, its first identifier. */
  lemma {:induction false} AdvisoryMeans(lib: Library, m: Member, x: Item)
    requires AdvisoryItems(lib, m).Some?
    ensures AdvisoryItems(lib, m) == Some([x]) <==> AdvisoryMakes(lib, m.value, x)
  {
    var advisory := m.value;
    IdentifierPicked(lib, advisory);
    PicksOfTwo(Get(advisory, "module_name"), Get(advisory, "name"));
    var y := AdvisoryItems(lib, m).value[0];
    assert AdvisoryMakes(lib, advisory, y) && AdvisoryItems(lib, m) == Some([y]);
    hide AdvisoryItems, Get, Identifiers, Picks;
    if AdvisoryMakes(lib, advisory, x) {
      PicksOnlyOne([Get(advisory, "module_name"), Get(advisory, "name")], x.name, y.name);
      PicksOnlyOne(Identifiers(lib, advisory), x.advisory, y.advisory);
    }
    if AdvisoryItems(lib, m) == Some([x]) {
      assert [x][0] == [y][0];
    }
  }

  // ---------------------------------------------------------------- vulnerabilities

  /** The elements of `via`: those of a list, or a string as the only one. */
  ghost predicate IsVia(v: Json, via: seq<Json>) {
    if v.JList? then via == v.items else if v.JStr? then via == [v] else via == []
  }

  /** The id that an element of `via` offers, if it is not empty. */
  ghost predicate Offers(via: Json, id: Json) {
    && Truthy(id)
    && (via.JStr? || via.JDict?)
    && (via.JStr? ==> id == via)
    && (via.JDict? ==> Picks([Get(via, "github_advisory_id"), Get(via, "url"), Get(via, "source"), Get(via, "title"),
                              Get(via, "name")], id))
  }

  /** The title of an object in `via` is the first of these that is not empty; the source comes last. */
  lemma {:induction false} TitleMeans(via: Json, title: Json)
    requires via.JDict?
    ensures TitleOf(via) == title <==>
            Picks([Get(via, "title"), Get(via, "url"), Get(via, "advisory"), Get(via, "source")], title)
  {
    var a, b, c, d := Get(via, "title"), Get(via, "url"), Get(via, "advisory"), Get(via, "source");
    PicksOfFour(a, b, c, d);
    hide Get, Or, Picks;
    if Picks([a, b, c, d], title) {
      PicksOnlyOne([a, b, c, d], title, TitleOf(via));
    }
  }

  lemma {:induction false} OffersIff(via: Json, id: Json)
    ensures Offers(via, id) <==> Truthy(id) && ViaID(via) == [id]
    ensures |ViaID(via)| <= 1
  {
    if via.JDict? {
      var a, b, c := Get(via, "github_advisory_id"), Get(via, "url"), Get(via, "source");
      var d, e := Get(via, "title"), Get(via, "name");
      PicksOfFive(a, b, c, d, e);
      var x := Or(a, Or(b, Or(c, Or(d, e))));
      assert ViaID(via) == [x];
      assert ViaID(via) == [id] <==> x == id by {
        if ViaID(via) == [id] { assert [x][0] == [id][0]; }
      }
      hide Get, Or, Picks, ViaID;
      if Offers(via, id) {
        PicksOnlyOne([a, b, c, d, e], x, id);
      }
    } else if via.JStr? {
      if ViaID(via) == [id] { assert [via][0] == [id][0]; }
    }
  }

  /** The ids are offered by the elements at the positions `at`, in order, and by no others. */
  ghost predicate OfferedAt(via: seq<Json>, at: seq<int>, ids: seq<Json>) {
    && |at| == |ids|
    && (forall k :: 0 <= k < |at| ==> 0 <= at[k] < |via| && Offers(via[at[k]], ids[k]))
    && (forall k, l :: 0 <= k < l < |at| ==> at[k] < at[l])
    && (forall i, id :: 0 <= i < |via| && Offers(via[i], id) ==> i in at)
  }

  /** The ids that the elements of `via` offer. */
  ghost function IDs(via: seq<Json>): seq<Json> {
    Filter(Truthy, Flat(ViaID, via))
  }

  lemma {:induction false} IDsSnoc(via: seq<Json>, last: Json)
    ensures IDs([]) == [] && IDs(via + [last]) == IDs(via) + Filter(Truthy, ViaID(last))
  {
    FlatSnoc(ViaID, via, last);
    FilterAppend(Truthy, Flat(ViaID, via), ViaID(last));
  }

  lemma {:induction false} IDsOffered(via: seq<Json>) returns (at: seq<int>)
    ensures OfferedAt(via, at, IDs(via))
  {
    IDsSnoc([], JNull);
    if via == [] {
      at := [];
    } else {
      var init, last := via[..|via| - 1], via[|via| - 1];
      assert init + [last] == via;
      var before := IDsOffered(init);
      IDsSnoc(init, last);
      var more := Filter(Truthy, ViaID(last));
      OfferOfOne(last, more);
      at := if more == [] then before else before + [|init|];
      hide Filter, ViaID, Offers, IDs, OfferedAt;
      OfferedSnoc(init, before, IDs(init), last, more);
    }
  }

  lemma {:induction false} OfferOfOne(via: Json, ids: seq<Json>)
    requires ids == Filter(Truthy, ViaID(via))
    ensures ids == [] ==> forall id :: !Offers(via, id)
    ensures ids != [] ==> |ids| == 1 && Offers(via, ids[0])
  {
    OffersIff(via, JNull);
    if ViaID(via) != [] {
      var x := ViaID(via)[0];
      assert ViaID(via) == [x];
      hide ViaID, Offers, Truthy;
      FilterOne(Truthy, x);
      forall id: Json
        ensures Offers(via, id) <==> Truthy(id) && id == x
      {
        OffersIff(via, id);
        if [x] == [id] { assert [x][0] == [id][0]; }
      }
    } else {
      hide ViaID, Offers, Truthy;
      forall id: Json
        ensures !Offers(via, id)
      {
        OffersIff(via, id);
      }
    }
  }

  lemma {:induction false} OfferedSnoc(via: seq<Json>, at: seq<int>, ids: seq<Json>, last: Json, more: seq<Json>)
    requires OfferedAt(via, at, ids)
    requires more == [] ==> forall id :: !Offers(last, id)
    requires more != [] ==> |more| == 1 && Offers(last, more[0])
    ensures OfferedAt(via + [last], if more == [] then at else at + [|via|], ids + more)
  {
    hide Offers;
    var n, all := |via|, via + [last];
    var at', ids' := if more == [] then at else at + [n], ids + more;
    forall k | 0 <= k < |at'|
      ensures 0 <= at'[k] < |all| && Offers(all[at'[k]], ids'[k])
    {
      if k < |at| {
        assert at'[k] == at[k] && ids'[k] == ids[k] && all[at[k]] == via[at[k]];
      } else {
        assert at'[k] == n && ids'[k] == more[0] && all[n] == last;
      }
    }
    forall i, id | 0 <= i < |all| && Offers(all[i], id)
      ensures i in at'
    {
      Covered(via, at, ids, last, more, i, id);
    }
  }

  lemma {:induction false} Covered(via: seq<Json>, at: seq<int>, ids: seq<Json>, last: Json, more: seq<Json>, i: nat,
                                   id: Json)
    requires OfferedAt(via, at, ids) && (more == [] ==> forall id :: !Offers(last, id))
    requires i <= |via| && Offers((via + [last])[i], id)
    ensures i in if more == [] then at else at + [|via|]
  {
    hide Offers;
    if i < |via| {
      assert (via + [last])[i] == via[i];
      assert i in at;
    } else {
      assert (via + [last])[i] == last;
      assert (at + [|via|])[|at|] == i;
    }
  }

  /** A vulnerability makes one finding for every element of its `via` that offers an id, in order, in its name. */
  lemma {:induction false} VulnerabilityMeans(m: Member) returns (via: seq<Json>, at: seq<int>)
    requires VulnerabilityItems(m).Some?
    ensures m.value.JDict? && IsVia(Get(m.value, "via"), via)
    ensures var items := VulnerabilityItems(m).value;
            && OfferedAt(via, at, seq(|items|, k requires 0 <= k < |items| => items[k].advisory))
            && forall k :: 0 <= k < |items| ==>
                 items[k].name == JStr(m.key) && items[k].severity == Get(m.value, "severity")
  {
    via := ViaOf(m);
    ViaDefaults(m.value.members);
    at := IDsOffered(via);
    var items, ids := VulnerabilityItems(m).value, IDs(via);
    assert |items| == |ids| && forall k :: 0 <= k < |ids| ==>
             items[k] == Item(JStr(m.key), Get(m.value, "severity"), ids[k]);
    assert seq(|items|, k requires 0 <= k < |items| => items[k].advisory) == ids;
  }

  lemma {:induction false} ViaDefaults(members: seq<Member>)
    ensures IsVia(GetOr(members, "via", JNull), ViaList(GetOr(members, "via", JList([]))))
  {
    if members != [] {
      ViaDefaults(members[1..]);
    }
  }

  // ---------------------------------------------------------------- what findings need and exceptions grant

  /** The severity of a finding as a text; nothing when it can not be read as one. */
  ghost function SeverityText(j: Json): Option<string> {
    if j.JStr? then Some(j.s) else if Truthy(j) then None else Some("")
  }

  /** A named finding of one of the two severities that block. */
  ghost predicate MustBeExcused(lib: Library, x: Item) {
    && Truthy(x.name) && SeverityText(x.severity).Some?
    && var severity := lib.lower(P.Strip(SeverityText(x.severity).value)); severity == "high" || severity == "critical"
  }

  ghost function Printed(lib: Library, j: Json): string {
    if j.JStr? then j.s else if j == JNull then "" else lib.show(j)
  }

  /** The key of a finding: its package as it is, and its advisory in lower case, both stripped. */
  ghost predicate HasKey(lib: Library, x: Item, key: Key) {
    && key.0 == (if x.name == JNull then "" else P.Strip(Printed(lib, x.name)))
    && key.1 == (if x.advisory == JNull then "" else lib.lower(P.Strip(Printed(lib, x.advisory))))
  }

  lemma {:induction false} FindingMeans(lib: Library, x: Item, key: Key)
    ensures Relevant(lib, x) <==> MustBeExcused(lib, x)
    ensures KeyOf(lib, x) == key <==> HasKey(lib, x, key)
    ensures Severity(lib, x.severity) == match SeverityText(x.severity)
                                         case None => None
                                         case Some(s) => Some(lib.lower(P.Strip(s)))
  {
    assert P.Strip("") == "";
  }

  /** All five required fields of the exception are there and not empty. */
  ghost predicate Filled(e: P.Entry) {
    forall name :: name in ["package", "advisory", "severity", "mitigation", "expires_on"] ==>
      name in e && e[name] != ""
  }

  lemma {:induction false} RequiredFields(e: P.Entry)
    ensures Filled(e) <==> !(exists name :: name in REQUIRED_FIELDS && Field(e, name) == "")
    ensures Filled(e) ==> "package" in e && "advisory" in e && "severity" in e && "mitigation" in e && "expires_on" in e
  {
    var names := ["package", "advisory", "severity", "mitigation", "expires_on"];
    forall name
      ensures name in names <==> name in REQUIRED_FIELDS
    {
      assert names[0] == "package" && names[1] == "advisory" && names[2] == "severity" && names[3] == "mitigation";
      assert names[4] == "expires_on";
    }
  }

  /** The exception excuses findings with the key up to a day, if the stated severity is theirs. */
  ghost predicate Grants(lib: Library, e: P.Entry, key: Key, severity: string, until: int) {
    && Filled(e)
    && "package" in e && "advisory" in e && "severity" in e && "expires_on" in e
    && key == (P.Strip(e["package"]), lib.lower(P.Strip(e["advisory"]))) && key.0 != "" && key.1 != ""
    && severity == lib.lower(P.Strip(e["severity"])) && lib.date(e["expires_on"]) == Some(until)
  }

  /** An exception is well-formed exactly if it grants something, and then it grants what is read from it. */
  lemma {:induction false} ExceptionMeans(lib: Library, e: P.Entry, key: Key, severity: string, until: int)
    ensures ReadException(lib, e) == Good(key, Exemption(severity, until)) <==> Grants(lib, e, key, severity, until)
  {
    RequiredFields(e);
    hide Filled;
  }

  /** Why an exception is refused: a required field is missing, else its date is none, else its key is blank. */
  lemma {:induction false} RefusalMeans(lib: Library, e: P.Entry)
    ensures ReadException(lib, e).MissingFields? <==> !Filled(e)
    ensures Filled(e) ==> "package" in e && "advisory" in e && "expires_on" in e
    ensures ReadException(lib, e).InvalidDate? <==> Filled(e) && lib.date(e["expires_on"]).None?
    ensures ReadException(lib, e).EmptyKey? <==>
              && Filled(e) && lib.date(e["expires_on"]).Some?
              && (P.Strip(e["package"]) == "" || lib.lower(P.Strip(e["advisory"])) == "")
  {
    RequiredFields(e);
    hide Filled;
  }

  // ---------------------------------------------------------------- passing, in these terms

  /** Some exception for the key has not expired. */
  ghost predicate Granted(lib: Library, exceptions: seq<P.Entry>, key: Key, today: int) {
    exists e, severity, until :: e in exceptions && Grants(lib, e, key, severity, until) && today <= until
  }

  lemma {:induction false} GrantedIff(lib: Library, exceptions: seq<P.Entry>, key: Key, today: int)
    ensures Excused(lib, exceptions, key, today) <==> Granted(lib, exceptions, key, today)
  {
    hide ReadException, Grants;
    if e :| e in exceptions && Matches(lib, e, key) && today <= ReadException(lib, e).exemption.expires {
      var x := ReadException(lib, e).exemption;
      ExceptionMeans(lib, e, key, x.severity, x.expires);
    }
    if e, severity, until :| e in exceptions && Grants(lib, e, key, severity, until) && today <= until {
      ExceptionMeans(lib, e, key, severity, until);
    }
  }

  /** A finding of the report, in either of its two tables. */
  ghost predicate Reported(lib: Library, data: Json, x: Item)
    requires data.JDict?
  {
    || (exists m :: InTable(data, "advisories", m) && AdvisoryMakes(lib, m.value, x))
    || (exists m :: InTable(data, "vulnerabilities", m) && VulnerabilityMakes(m, x))
  }

  /** One of the findings that a vulnerability makes. */
  ghost predicate VulnerabilityMakes(m: Member, x: Item) {
    && m.value.JDict? && x.name == JStr(m.key) && x.severity == Get(m.value, "severity")
    && exists via, i :: IsVia(Get(m.value, "via"), via) && 0 <= i < |via| && Offers(via[i], x.advisory)
  }

  lemma {:induction false} VulnerabilityMakesIff(m: Member, x: Item)
    requires VulnerabilityItems(m).Some?
    ensures x in VulnerabilityItems(m).value <==> VulnerabilityMakes(m, x)
  {
    var items := VulnerabilityItems(m).value;
    var via, at := VulnerabilityMeans(m);
    var ids := seq(|items|, k requires 0 <= k < |items| => items[k].advisory);
    hide VulnerabilityItems, Offers, Get;
    if x in items {
      var k :| 0 <= k < |items| && items[k] == x;
      assert Offers(via[at[k]], ids[k]);
    }
    if VulnerabilityMakes(m, x) {
      var via', i :| IsVia(Get(m.value, "via"), via') && 0 <= i < |via'| && Offers(via'[i], x.advisory);
      assert via' == via && i in at;
      var k :| 0 <= k < |at| && at[k] == i;
      OfferedIDsAreEqual(via[i], x.advisory, ids[k]);
      assert items[k] == x;
    }
  }

  lemma {:induction false} OfferedIDsAreEqual(via: Json, id: Json, other: Json)
    requires Offers(via, id) && Offers(via, other)
    ensures id == other
  {
    if via.JDict? {
      PicksOnlyOne([Get(via, "github_advisory_id"), Get(via, "url"), Get(via, "source"), Get(via, "title"),
                    Get(via, "name")], id, other);
    }
  }

  /** The findings that the gate looks at are those that the report makes. */
  lemma {:induction false} FindingsAreReported(lib: Library, data: Json, x: Item)
    requires Findings(lib, data).Some?
    ensures data.JDict? && (x in Findings(lib, data).value <==> Reported(lib, data, x))
  {
    FindingsHold(lib, data, x);
    FindingsCrashIff(lib, data);
    assert forall table, m :: InTable(data, table, m) <==> m in Members(Get(data, table));
    forall m | InTable(data, "advisories", m)
      ensures AdvisoryItems(lib, m).Some? && (x in AdvisoryItems(lib, m).value <==> AdvisoryMakes(lib, m.value, x))
    {
      AdvisoryCrashesIff(lib, m);
      AdvisoryMeans(lib, m, x);
      SeverityOfItems(lib, m, x);
      OnlyItem(AdvisoryItems(lib, m).value, x);
    }
    forall m | InTable(data, "vulnerabilities", m)
      ensures VulnerabilityItems(m).Some? && (x in VulnerabilityItems(m).value <==> VulnerabilityMakes(m, x))
    {
      VulnerabilityCrashesIff(m);
      VulnerabilityMakesIff(m, x);
    }
  }

  function Joined(lists: seq<seq<Item>>): seq<Item> {
    if lists == [] then [] else lists[0] + Joined(lists[1..])
  }

  lemma {:induction false} JoinedSnoc(lists: seq<seq<Item>>, last: seq<Item>)
    ensures Joined(lists + [last]) == Joined(lists) + last
  {
    if lists == [] {
      assert [last][1..] == [];
    } else {
      assert (lists + [last])[1..] == lists[1..] + [last];
      JoinedSnoc(lists[1..], last);
    }
  }

  lemma {:induction false} CollectsInOrder(f: Member -> Option<seq<Item>>, members: seq<Member>)
    returns (lists: seq<seq<Item>>)
    requires Collect(f, members).Some?
    ensures |lists| == |members| && forall i :: 0 <= i < |members| ==> f(members[i]) == Some(lists[i])
    ensures Collect(f, members).value == Joined(lists)
  {
    if members == [] {
      lists := [];
    } else {
      var last := |members| - 1;
      var before := CollectsInOrder(f, members[..last]);
      lists := before + [f(members[last]).value];
      JoinedSnoc(before, f(members[last]).value);
    }
  }

  /** The findings come in the order of the report: advisory by advisory, then vulnerability by vulnerability. */
  lemma {:induction false} FindingsInOrder(lib: Library, data: Json)
    returns (advisories: seq<seq<Item>>, vulnerabilities: seq<seq<Item>>)
    requires Findings(lib, data).Some?
    ensures data.JDict? && Findings(lib, data).value == Joined(advisories) + Joined(vulnerabilities)
    ensures var a := Get(data, "advisories");
            if a.JDict? then
              && |advisories| == |a.members|
              && forall i :: 0 <= i < |a.members| ==> AdvisoryItems(lib, a.members[i]) == Some(advisories[i])
            else advisories == []
    ensures var v := Get(data, "vulnerabilities");
            if v.JDict? then
              && |vulnerabilities| == |v.members|
              && forall i :: 0 <= i < |v.members| ==> VulnerabilityItems(v.members[i]) == Some(vulnerabilities[i])
            else vulnerabilities == []
  {
    hide Collect, AdvisoryItems, VulnerabilityItems, Get;
    advisories := CollectsInOrder(m => AdvisoryItems(lib, m), Members(Get(data, "advisories")));
    vulnerabilities := CollectsInOrder(VulnerabilityItems, Members(Get(data, "vulnerabilities")));
  }

  lemma {:induction false} OnlyItem(items: seq<Item>, x: Item)
    requires |items| == 1
    ensures x in items <==> items == [x]
  {
    assert items == [items[0]];
    if items == [x] { assert items[0] == [x][0]; }
  }

  /**
   * The gate blocks: a report with a named high or critical finding exits with 1 unless an exception for the
   * finding's key has not expired; without any exceptions it exits with 1 for every such finding.
   */
  lemma {:induction false} UnexcusedFindingBlocks(lib: Library, exceptions: seq<P.Entry>, data: Json, today: int,
                                                  x: Item)
    requires data.JDict? && Reported(lib, data, x) && MustBeExcused(lib, x)
    requires forall key :: HasKey(lib, x, key) ==> !Granted(lib, exceptions, key, today)
    ensures ExitCode(VerdictOf(Examine(lib, exceptions, data, today))) == 1
  {
    ExitCodeIsZeroIff(lib, exceptions, data, today);
    hide Findings, Reported, MustBeExcused, HasKey, Granted, Acceptable, Examine;
    if Findings(lib, data).Some? && Acceptable(lib, exceptions, Findings(lib, data).value, today) {
      FindingsAreReported(lib, data, x);
      FindingMeans(lib, x, KeyOf(lib, x));
      GrantedIff(lib, exceptions, KeyOf(lib, x), today);
      AcceptableExcuses(lib, exceptions, Findings(lib, data).value, today, x);
    }
  }

  lemma {:induction false} AcceptableExcuses(lib: Library, exceptions: seq<P.Entry>, items: seq<Item>, today: int,
                                             x: Item)
    requires Acceptable(lib, exceptions, items, today) && x in items && Relevant(lib, x)
    ensures Excused(lib, exceptions, KeyOf(lib, x), today)
  {
  }

  /** With no exceptions at all, every named high or critical finding makes the gate exit with 1. */
  lemma {:induction false} WithoutExceptionsItBlocks(lib: Library, data: Json, today: int, x: Item)
    requires data.JDict? && Reported(lib, data, x) && MustBeExcused(lib, x)
    ensures ExitCode(VerdictOf(Examine(lib, [], data, today))) == 1
  {
    hide Reported, MustBeExcused, Examine;
    UnexcusedFindingBlocks(lib, [], data, today, x);
  }

  /** Every exception grants something, and no two grant the same key. */
  ghost predicate WellKept(lib: Library, exceptions: seq<P.Entry>) {
    && (forall e :: e in exceptions ==> exists key, severity, until :: Grants(lib, e, key, severity, until))
    && (forall i, j, key, severity, until, severity', until' ::
          0 <= i < j < |exceptions| && Grants(lib, exceptions[i], key, severity, until) ==>
            !Grants(lib, exceptions[j], key, severity', until'))
  }

  lemma {:induction false} WellKeptIff(lib: Library, exceptions: seq<P.Entry>)
    ensures Clean(lib, exceptions) <==> WellKept(lib, exceptions)
  {
    hide ReadException, Grants;
    forall e: P.Entry, key, severity, until
      ensures Grants(lib, e, key, severity, until) <==> ReadException(lib, e) == Good(key, Exemption(severity, until))
    {
      ExceptionMeans(lib, e, key, severity, until);
    }
    forall e: P.Entry
      ensures ReadException(lib, e).Good? <==> exists key, severity, until :: Grants(lib, e, key, severity, until)
    {
      if ReadException(lib, e).Good? {
        var r := ReadException(lib, e);
        assert Grants(lib, e, r.key, r.exemption.severity, r.exemption.expires);
      }
    }
    if WellKept(lib, exceptions) {
      assert forall k :: 0 <= k < |exceptions| ==> exceptions[k] in exceptions;
      assert forall k :: 0 <= k < |exceptions| ==> ReadException(lib, exceptions[k]).Good?;
      forall i, j | 0 <= i < j < |exceptions|
        ensures ReadException(lib, exceptions[i]).key != ReadException(lib, exceptions[j]).key
      {
        var r, s := ReadException(lib, exceptions[i]), ReadException(lib, exceptions[j]);
        assert Grants(lib, exceptions[i], r.key, r.exemption.severity, r.exemption.expires);
        assert Grants(lib, exceptions[j], s.key, s.exemption.severity, s.exemption.expires);
      }
    }
  }

  lemma {:induction false} OneExceptionPerKey(lib: Library, exceptions: seq<P.Entry>, e: P.Entry, f: P.Entry, key: Key)
    requires Clean(lib, exceptions) && e in exceptions && f in exceptions && Matches(lib, e, key) &&
             Matches(lib, f, key)
    ensures e == f
  {
    hide ReadException;
    var i :| 0 <= i < |exceptions| && exceptions[i] == e;
    var j :| 0 <= j < |exceptions| && exceptions[j] == f;
    assert i == j;
  }

  /** Some exception for the finding's key has not expired, and states no severity or the one of the finding. */
  ghost predicate ExcusedAsRated(lib: Library, exceptions: seq<P.Entry>, x: Item, key: Key, today: int) {
    SeverityText(x.severity).Some? &&
    exists e, stated, until :: e in exceptions && Grants(lib, e, key, stated, until) && today <= until
                               && (stated == "" || stated == lib.lower(P.Strip(SeverityText(x.severity).value)))
  }

  lemma {:induction false} ExcusedAsRatedMeans(lib: Library, exceptions: seq<P.Entry>, x: Item, today: int)
    requires Clean(lib, exceptions) && ExcusedAsRated(lib, exceptions, x, KeyOf(lib, x), today)
    ensures Excused(lib, exceptions, KeyOf(lib, x), today)
    ensures forall e :: e in exceptions && Matches(lib, e, KeyOf(lib, x)) ==>
              var stated := ReadException(lib, e).exemption.severity;
              stated == "" || Some(stated) == Severity(lib, x.severity)
  {
    var key := KeyOf(lib, x);
    FindingMeans(lib, x, key);
    hide ReadException, Grants, Clean, KeyOf, Severity;
    var e, stated, until :| e in exceptions && Grants(lib, e, key, stated, until) && today <= until
                            && (stated == "" || stated == lib.lower(P.Strip(SeverityText(x.severity).value)));
    ExceptionMeans(lib, e, key, stated, until);
    assert Matches(lib, e, key);
    forall f | f in exceptions && Matches(lib, f, key)
      ensures f == e
    {
      OneExceptionPerKey(lib, exceptions, e, f, key);
    }
  }

  /**
   * The gate lets through: a report that can be read exits with 0 if the exceptions are well kept and every
   * named high or critical finding has an advisory and an exception that has not expired and states no other
   * severity than the finding's.
   */
  lemma {:induction false} ExcusedReportPasses(lib: Library, exceptions: seq<P.Entry>, data: Json, today: int)
    requires !BadReport(data) && WellKept(lib, exceptions)
    requires forall x :: Reported(lib, data, x) ==> SeverityText(x.severity).Some?
    requires forall x, key :: Reported(lib, data, x) && MustBeExcused(lib, x) && HasKey(lib, x, key) ==>
               key.1 != "" && ExcusedAsRated(lib, exceptions, x, key, today)
    ensures ExitCode(VerdictOf(Examine(lib, exceptions, data, today))) == 0
  {
    ExitCodeIsZeroIff(lib, exceptions, data, today);
    FindingsCrashIff(lib, data);
    WellKeptIff(lib, exceptions);
    hide Findings, Reported, MustBeExcused, HasKey, ExcusedAsRated, Examine, BadReport, WellKept, Clean, ReadException,
      Severity, KeyOf, Relevant, Excused;
    var items := Findings(lib, data).value;
    forall x | x in items
      ensures Severity(lib, x.severity).Some?
      ensures Relevant(lib, x) ==> KeyOf(lib, x).1 != "" && ExcusedAsRated(lib, exceptions, x, KeyOf(lib, x), today)
    {
      FindingsAreReported(lib, data, x);
      FindingMeans(lib, x, KeyOf(lib, x));
    }
    AllExcused(lib, exceptions, items, today);
  }

  lemma {:induction false} AllExcused(lib: Library, exceptions: seq<P.Entry>, items: seq<Item>, today: int)
    requires Clean(lib, exceptions)
    requires forall x :: x in items ==> Severity(lib, x.severity).Some?
    requires forall x :: x in items && Relevant(lib, x) ==>
               KeyOf(lib, x).1 != "" && ExcusedAsRated(lib, exceptions, x, KeyOf(lib, x), today)
    ensures Acceptable(lib, exceptions, items, today)
  {
    hide Clean, ReadException, Severity, Relevant, Excused, ExcusedAsRated, AdvisoryKey, PackageKey;
    forall x | x in items && Relevant(lib, x)
      ensures Excused(lib, exceptions, KeyOf(lib, x), today)
      ensures forall e :: e in exceptions && Matches(lib, e, KeyOf(lib, x)) ==>
                var stated := ReadException(lib, e).exemption.severity;
                stated == "" || Some(stated) == Severity(lib, x.severity)
    {
      ExcusedAsRatedMeans(lib, exceptions, x, today);
    }
    forall i | 0 <= i < |items|
      ensures SeverityAgrees(lib, exceptions, items, i)
    {
      assert items[i] in items;
    }
  }
}
