/**
 * Reports that crash the gate or stay silent, in terms of the decoded JSON, and the gate from the files
 * to the exit code.
 */
module AuditReports {
  import opened Tables
  import opened AuditGate
  import opened AuditLaws

  // ---------------------------------------------------------------- titles that crash

  lemma {:induction false} FlatHolds(f: Json -> seq<Json>, items: seq<Json>)
    ensures forall x :: x in Flat(f, items) <==> exists i :: 0 <= i < |items| && x in f(items[i])
  {
    if items != [] {
      var init := items[..|items| - 1];
      FlatHolds(f, init);
      assert forall i :: 0 <= i < |init| ==> init[i] == items[i];
    }
  }

  /** The title that an element of `via` would be shown with; the last resort is its source. */
  function TitleOf(via: Json): Json
    requires via.JDict?
  {
    Or(Get(via, "title"), Or(Get(via, "url"), Or(Get(via, "advisory"), Get(via, "source"))))
  }

  predicate BadTitle(via: Json) {
    via.JDict? && Truthy(TitleOf(via)) && !TitleOf(via).JStr?
  }

  /**
   * A vulnerability crashes the gate exactly if it is not an object, or if some object in its `via` has a
   * title that is neither empty nor a string. A numeric source, which advisory ids allow for, is such a
   * title whenever there is no title, URL or advisory text.
   */
  lemma {:induction false} VulnerabilityCrashesIff(m: Member)
    ensures VulnerabilityItems(m).None? <==>
            !m.value.JDict? ||
            exists via :: via in ViaList(GetOr(m.value.members, "via", JList([]))) && BadTitle(via)
  {
    if m.value.JDict? {
      var via := ViaList(GetOr(m.value.members, "via", JList([])));
      var titles := Flat(ViaTitle, via);
      FlatHolds(ViaTitle, via);
      hide Flat, GetOr, ViaList, Or, Truthy, ViaTitle, TitleOf;
      if !Joinable(titles) {
        var k :| 0 <= k < |titles| && Truthy(titles[k]) && !titles[k].JStr?;
        assert titles[k] in titles;
        var i :| 0 <= i < |via| && titles[k] in ViaTitle(via[i]);
        TitleContributed(via[i], titles[k]);
        assert via[i] in via && BadTitle(via[i]);
      }
      forall i | 0 <= i < |via| && BadTitle(via[i])
        ensures !Joinable(titles)
      {
        TitleContributed(via[i], TitleOf(via[i]));
        assert TitleOf(via[i]) in titles;
        var k :| 0 <= k < |titles| && titles[k] == TitleOf(via[i]);
      }
    }
  }

  lemma {:induction false} TitleContributed(via: Json, x: Json)
    ensures x in ViaTitle(via) <==> (via.JDict? && x == TitleOf(via)) || (via.JStr? && x == via)
  {
  }

  /** A numeric source alone identifies an advisory, but crashes the gate; next to a title it does not. */
  lemma {:induction false} NumericSource(name: string, n: real, title: string)
    requires n != 0.0 && title != ""
    ensures var source, titled := Member("source", JNum(n)), Member("title", JStr(title));
            && VulnerabilityItems(Member(name, JDict([Member("via", JList([JDict([source])]))]))) == None
            && VulnerabilityItems(Member(name, JDict([Member("via", JList([JDict([source, titled])]))]))) ==
               Some([Item(JStr(name), JNull, JNum(n))])
  {
    var source, titled := Member("source", JNum(n)), Member("title", JStr(title));
    var a, b := JDict([source]), JDict([source, titled]);
    NumericSourceFields(n, title);
    hide ViaID, ViaTitle, Flat, Filter, VulnerabilityItems;
    SingleViaLists(a, JNum(n), JNum(n));
    SingleViaLists(b, JNum(n), JStr(title));
    SingleViaFields(a);
    SingleViaFields(b);
    SingleVia(Member(name, JDict([Member("via", JList([a]))])), a, JNum(n), JNum(n));
    SingleVia(Member(name, JDict([Member("via", JList([b]))])), b, JNum(n), JStr(title));
  }

  lemma {:induction false} NumericSourceFields(n: real, title: string)
    requires n != 0.0 && title != ""
    ensures var source, titled := Member("source", JNum(n)), Member("title", JStr(title));
            var a, b := JDict([source]), JDict([source, titled]);
            && ViaID(a) == [JNum(n)] && ViaTitle(a) == [JNum(n)]
            && ViaID(b) == [JNum(n)] && ViaTitle(b) == [JStr(title)]
  {
    var source, titled := Member("source", JNum(n)), Member("title", JStr(title));
    forall key: string
      ensures GetOr([source], key, JNull) == if key == "source" then JNum(n) else JNull
      ensures GetOr([source, titled], key, JNull) ==
                if key == "source" then JNum(n) else if key == "title" then JStr(title) else JNull
    {
      GetFrom(source, [], key, JNull);
      GetFrom(source, [titled], key, JNull);
      GetFrom(titled, [], key, JNull);
      assert [source] + [] == [source] && [titled] + [] == [titled] && [source] + [titled] == [source, titled];
    }
    hide GetOr;
    assert |"source"| == 6 && |"title"| == 5 && |"github_advisory_id"| == 18 && |"url"| == 3 && |"advisory"| == 8;
  }

  lemma {:induction false} GetFrom(m: Member, rest: seq<Member>, key: string, other: Json)
    ensures GetOr([m] + rest, key, other) == if m.key == key then m.value else GetOr(rest, key, other)
    ensures GetOr([], key, other) == other
  {
    assert ([m] + rest)[1..] == rest;
  }

  lemma {:induction false} SingleVia(m: Member, via: Json, id: Json, title: Json)
    requires m.value.JDict? && GetOr(m.value.members, "via", JList([])) == JList([via])
    requires Get(m.value, "severity") == JNull && Filter(Truthy, Flat(ViaID, [via])) == [id]
    requires Flat(ViaTitle, [via]) == [title] && Truthy(title)
    ensures VulnerabilityItems(m) == if title.JStr? then Some([Item(JStr(m.key), JNull, id)]) else None
  {
    hide ViaID, ViaTitle, Truthy, Flat, Filter, GetOr, ItemsFor;
    SingleItem(m.key, JNull, id, title);
  }

  lemma {:induction false} SingleItem(name: string, severity: Json, id: Json, title: Json)
    requires Truthy(title)
    ensures ItemsFor(name, severity, [id], [title]) ==
              if title.JStr? then Some([Item(JStr(name), severity, id)]) else None
  {
    hide Truthy;
    var titles := [title];
    assert titles[0] == title;
    var r := ItemsFor(name, severity, [id], titles);
    assert r.Some? ==> r.value == [Item(JStr(name), severity, id)];
  }

  lemma {:induction false} SingleViaLists(via: Json, id: Json, title: Json)
    requires ViaID(via) == [id] && ViaTitle(via) == [title] && Truthy(id)
    ensures Filter(Truthy, Flat(ViaID, [via])) == [id] && Flat(ViaTitle, [via]) == [title]
  {
    assert Flat(ViaID, []) == [] && Flat(ViaTitle, []) == [];
    hide ViaID, ViaTitle, Truthy, Flat, Filter;
    FlatSnoc(ViaID, [], via);
    FlatSnoc(ViaTitle, [], via);
    FilterOne(Truthy, id);
    assert [] + [via] == [via];
  }

  lemma {:induction false} SingleViaFields(via: Json)
    ensures var d := JDict([Member("via", JList([via]))]);
            GetOr(d.members, "via", JList([])) == JList([via]) && Get(d, "severity") == JNull
  {
    var m := Member("via", JList([via]));
    GetFrom(m, [], "via", JList([]));
    GetFrom(m, [], "severity", JNull);
    assert [m] + [] == [m];
    assert |"via"| == 3 && |"severity"| == 8;
  }

  function ViaOf(m: Member): seq<Json>
    requires m.value.JDict?
  {
    ViaList(GetOr(m.value.members, "via", JList([])))
  }

  /** Nothing in this element of `via` can serve as an advisory id. */
  predicate NamesNothing(via: Json) {
    forall i :: 0 <= i < |ViaID(via)| ==> !Truthy(ViaID(via)[i])
  }

  predicate Silent(m: Member)
    requires m.value.JDict?
  {
    forall i :: 0 <= i < |ViaOf(m)| ==> NamesNothing(ViaOf(m)[i]) && !BadTitle(ViaOf(m)[i])
  }

  /**
   * Exactly when a vulnerability yields no finding and no crash, whatever its severity: every element of
   * its `via` names nothing, and none has a title that is not a string. An absent, null or numeric `via`
   * has no elements.
   */
  lemma {:induction false} VulnerabilityIsSilentIff(m: Member)
    ensures VulnerabilityItems(m) == Some([]) <==> m.value.JDict? && Silent(m)
  {
    VulnerabilityCrashesIff(m);
    if m.value.JDict? {
      var via := ViaOf(m);
      var ids := Flat(ViaID, via);
      FlatHolds(ViaID, via);
      FilterSound(Truthy, ids);
      ItemsAreForIDs(m);
      hide Flat, GetOr, ViaList, ViaID, Truthy, BadTitle, VulnerabilityItems, Filter;
      if forall v :: v in via ==> NamesNothing(v) {
        forall x | x in ids
          ensures !Truthy(x)
        {
          var i :| 0 <= i < |via| && x in ViaID(via[i]);
          assert via[i] in via && NamesNothing(via[i]);
        }
        EmptyIffNone(Filter(Truthy, ids));
      }
      if Filter(Truthy, ids) == [] {
        forall v | v in via
          ensures NamesNothing(v)
        {
          forall i | 0 <= i < |ViaID(v)|
            ensures !Truthy(ViaID(v)[i])
          {
            assert ViaID(v)[i] in ViaID(v);
            var k :| 0 <= k < |via| && via[k] == v;
            assert ViaID(v)[i] in ids;
          }
        }
      }
    }
  }

  lemma {:induction false} EmptyIffNone(xs: seq<Json>)
    ensures xs == [] <==> forall x :: x !in xs
  {
    if xs != [] {
      assert xs[0] in xs;
    }
  }

  lemma {:induction false} ItemsAreForIDs(m: Member)
    requires m.value.JDict?
    ensures VulnerabilityItems(m).Some? ==> |VulnerabilityItems(m).value| == |Filter(Truthy, Flat(ViaID, ViaOf(m)))|
  {
  }

  lemma {:induction false} CollectOne(f: Member -> Option<seq<Item>>, m: Member)
    ensures Collect(f, [m]) == f(m)
  {
    assert [m][..0] == [];
    assert Collect(f, []) == Some([]);
    assert f(m).Some? ==> [] + f(m).value == f(m).value;
  }

  /** A report of one critical vulnerability with an empty `via`. */
  function SilentReport(name: string): Json {
    var vulnerability := JDict([Member("severity", JStr("critical")), Member("via", JList([]))]);
    JDict([Member("vulnerabilities", JDict([Member(name, vulnerability)]))])
  }

  /** The gate lets that report pass although there is no exception at all. */
  lemma {:induction false} SilentReportPasses(lib: Library, name: string, today: int)
    ensures ExitCode(VerdictOf(Examine(lib, [], SilentReport(name), today))) == 0
  {
    var first, last := Member("severity", JStr("critical")), Member("via", JList([]));
    var m := Member(name, JDict([first, last]));
    GetFrom(first, [last], "via", JList([]));
    GetFrom(last, [], "via", JList([]));
    assert [first] + [last] == [first, last] && [last] + [] == [last];
    assert |"via"| == 3 && |"severity"| == 8;
    assert ViaOf(m) == [];
    VulnerabilityIsSilentIff(m);
    var report := Member("vulnerabilities", JDict([m]));
    GetFrom(report, [], "vulnerabilities", JNull);
    GetFrom(report, [], "advisories", JNull);
    assert [report] + [] == [report];
    assert |"vulnerabilities"| == 15 && |"advisories"| == 10;
    hide GetOr, VulnerabilityItems;
    CollectOne(VulnerabilityItems, m);
    assert Collect(m' => AdvisoryItems(lib, m'), []) == Some([]);
    assert Findings(lib, SilentReport(name)) == Some([]);
    PassesIffAcceptable(lib, [], [], today);
  }

  /**
   * An advisory crashes the gate exactly if it is not an object, or if it has neither a GitHub id nor a
   * URL and its `cves` is neither empty nor a list nor a string.
   */
  predicate BadAdvisory(advisory: Json) {
    !advisory.JDict? ||
    (!Truthy(Get(advisory, "github_advisory_id")) && !Truthy(Get(advisory, "url")) &&
     Truthy(Get(advisory, "cves")) && !Get(advisory, "cves").JList? && !Get(advisory, "cves").JStr?)
  }

  lemma {:induction false} AdvisoryCrashesIff(lib: Library, m: Member)
    ensures AdvisoryItems(lib, m).None? <==> BadAdvisory(m.value)
  {
    hide GetOr, Or;
  }

  predicate BadVulnerability(m: Member) {
    !m.value.JDict? || exists via :: via in ViaOf(m) && BadTitle(via)
  }

  /** A member of one of the tables of the report; a table that is no object has none. */
  ghost predicate InTable(data: Json, table: string, m: Member)
    requires data.JDict?
  {
    Get(data, table).JDict? && m in Get(data, table).members
  }

  /** The extraction crashes exactly if the report is no object or some member of its two tables is bad. */
  ghost predicate BadReport(data: Json) {
    !data.JDict?
    || (exists m :: InTable(data, "advisories", m) && BadAdvisory(m.value))
    || (exists m :: InTable(data, "vulnerabilities", m) && BadVulnerability(m))
  }

  lemma {:induction false} FindingsCrashIff(lib: Library, data: Json)
    ensures Findings(lib, data).None? <==> BadReport(data)
  {
    if data.JDict? {
      var advisories, vulnerabilities := Members(Get(data, "advisories")), Members(Get(data, "vulnerabilities"));
      var f := m => AdvisoryItems(lib, m);
      CollectFailsIff(f, advisories);
      CollectFailsIff(VulnerabilityItems, vulnerabilities);
      forall m: Member
        ensures AdvisoryItems(lib, m).None? <==> BadAdvisory(m.value)
        ensures VulnerabilityItems(m).None? <==> BadVulnerability(m)
      {
        AdvisoryCrashesIff(lib, m);
        VulnerabilityCrashesIff(m);
      }
      hide AdvisoryItems, VulnerabilityItems, Collect, Get, BadAdvisory, BadVulnerability;
      FailsOnMember(f, advisories);
      FailsOnMember(VulnerabilityItems, vulnerabilities);
    }
  }

  lemma {:induction false} FailsOnMember(f: Member -> Option<seq<Item>>, members: seq<Member>)
    ensures (exists n :: 0 <= n < |members| && f(members[n]).None?) <==> exists m :: m in members && f(m).None?
  {
    if m :| m in members && f(m).None? {
      var n :| 0 <= n < |members| && members[n] == m;
      assert f(members[n]).None?;
    }
  }

  /** A severity that is neither empty nor a string. */
  predicate BadSeverity(m: Member)
    requires m.value.JDict?
  {
    Truthy(Get(m.value, "severity")) && !Get(m.value, "severity").JStr?
  }

  lemma {:induction false} CollectHolds(f: Member -> Option<seq<Item>>, members: seq<Member>, x: Item)
    requires Collect(f, members).Some?
    ensures forall m :: m in members ==> f(m).Some?
    ensures x in Collect(f, members).value <==> exists m :: m in members && f(m).Some? && x in f(m).value
  {
    if members != [] {
      var init, last := members[..|members| - 1], members[|members| - 1];
      CollectHolds(f, init, x);
      assert members == init + [last];
      assert forall m :: m in members <==> m in init || m == last;
    }
  }

  lemma {:induction false} SeverityOfItems(lib: Library, m: Member, x: Item)
    requires m.value.JDict?
    ensures AdvisoryItems(lib, m).Some? && x in AdvisoryItems(lib, m).value ==> x.severity == Get(m.value, "severity")
    ensures VulnerabilityItems(m).Some? && x in VulnerabilityItems(m).value ==> x.severity == Get(m.value, "severity")
    ensures AdvisoryItems(lib, m).Some? ==> |AdvisoryItems(lib, m).value| == 1
  {
    hide GetOr, Or, PickAdvisoryID, Flat, Filter, ViaList;
  }

  /** Some finding of the report has a severity that is neither empty nor a string. */
  ghost predicate BadlyRated(data: Json)
    requires data.JDict?
  {
    || (exists m :: InTable(data, "advisories", m) && m.value.JDict? && BadSeverity(m))
    || (exists m :: InTable(data, "vulnerabilities", m) && m.value.JDict? && BadSeverity(m) && !Silent(m))
  }

  lemma {:induction false} ScanCrashesIff(lib: Library, index: map<Key, Exemption>, today: int, found: seq<GateError>,
                                          items: seq<Item>)
    ensures ScanAll(lib, index, today, found, items).Crash? <==>
            exists x :: x in items && Severity(lib, x.severity).None?
  {
    if x :| x in items && Severity(lib, x.severity).None? {
      var n :| 0 <= n < |items| && items[n] == x;
      CrashStays(lib, index, today, found, items, n);
    } else {
      ScanSees(lib, index, today, found, items);
    }
  }

  lemma {:induction false} FindingsHold(lib: Library, data: Json, x: Item)
    requires Findings(lib, data).Some?
    ensures x in Findings(lib, data).value <==>
            || (exists m ::
                 m in Members(Get(data, "advisories")) && AdvisoryItems(lib, m).Some? &&
                 x in AdvisoryItems(lib, m).value)
            || (exists m ::
                 m in Members(Get(data, "vulnerabilities")) && VulnerabilityItems(m).Some? &&
                 x in VulnerabilityItems(m).value)
  {
    var f := m => AdvisoryItems(lib, m);
    CollectHolds(f, Members(Get(data, "advisories")), x);
    CollectHolds(VulnerabilityItems, Members(Get(data, "vulnerabilities")), x);
    hide Collect, AdvisoryItems, VulnerabilityItems, Get;
  }

  lemma {:induction false} BadlyRatedItem(lib: Library, data: Json, x: Item)
    requires Findings(lib, data).Some? && x in Findings(lib, data).value && Severity(lib, x.severity).None?
    ensures BadlyRated(data)
  {
    FindingsHold(lib, data, x);
    FindingsCrashIff(lib, data);
    hide Findings, AdvisoryItems, VulnerabilityItems, Get, Silent, BadAdvisory, BadVulnerability;
    if m :| m in Members(Get(data, "advisories")) && AdvisoryItems(lib, m).Some? && x in AdvisoryItems(lib, m).value {
      AdvisoryIsObject(lib, m);
      SeverityOfItems(lib, m, x);
      assert BadSeverity(m);
    } else {
      var m :| m in Members(Get(data, "vulnerabilities")) && VulnerabilityItems(m).Some? &&
        x in VulnerabilityItems(m).value;
      AdvisoryIsObject(lib, m);
      SeverityOfItems(lib, m, x);
      VulnerabilityIsSilentIff(m);
      assert BadSeverity(m);
    }
  }

  lemma {:induction false} AdvisoryIsObject(lib: Library, m: Member)
    ensures AdvisoryItems(lib, m).Some? ==> m.value.JDict?
    ensures VulnerabilityItems(m).Some? ==> m.value.JDict?
  {
  }

  lemma {:induction false} BadlyRatedHasItem(lib: Library, data: Json) returns (x: Item)
    requires Findings(lib, data).Some? && BadlyRated(data)
    ensures x in Findings(lib, data).value && Severity(lib, x.severity).None?
  {
    FindingsCrashIff(lib, data);
    hide Findings, Get, Silent;
    if m :| InTable(data, "advisories", m) && m.value.JDict? && BadSeverity(m) {
      AdvisoryCrashesIff(lib, m);
      hide AdvisoryItems, VulnerabilityItems, BadAdvisory, BadVulnerability;
      SeverityOfItems(lib, m, Item(JNull, JNull, JNull));
      x := AdvisoryItems(lib, m).value[0];
      SeverityOfItems(lib, m, x);
      FindingsHold(lib, data, x);
    } else {
      var m :| InTable(data, "vulnerabilities", m) && m.value.JDict? && BadSeverity(m) && !Silent(m);
      VulnerabilityCrashesIff(m);
      VulnerabilityIsSilentIff(m);
      assert !BadVulnerability(m);
      hide AdvisoryItems, VulnerabilityItems, BadAdvisory, BadVulnerability;
      x := VulnerabilityItems(m).value[0];
      SeverityOfItems(lib, m, x);
      FindingsHold(lib, data, x);
    }
  }

  /**
   * The gate as a whole crashes exactly if the report cannot be extracted, or some finding in it has a
   * severity that is neither empty nor a string.
   */
  lemma {:induction false} GateCrashesIff(lib: Library, exceptions: seq<P.Entry>, data: Json, today: int)
    ensures VerdictOf(Examine(lib, exceptions, data, today)).Crashed? <==> BadReport(data) || BadlyRated(data)
  {
    FindingsCrashIff(lib, data);
    if Findings(lib, data).Some? {
      var indexed := IndexAll(lib, exceptions);
      ScanCrashesIff(lib, indexed.index, today, indexed.errors, Findings(lib, data).value);
      hide Findings, IndexAll, ScanAll, BadlyRated, Severity;
      if BadlyRated(data) {
        var x := BadlyRatedHasItem(lib, data);
      }
      if x :| x in Findings(lib, data).value && Severity(lib, x.severity).None? {
        BadlyRatedItem(lib, data, x);
      }
    }
  }

  // ---------------------------------------------------------------- from the file to the exit code

  /** The gate on the lines of the exception file; a line that cannot be read crashes it. */
  method RunGate(lib: Library, raws: seq<string>, audit: Json, today: int) returns (exit: int)
    ensures exit == 0 <==>
            && P.Malformed !in P.Classified(raws) && Findings(lib, audit).Some?
            && Acceptable(lib, P.Dicts(P.Blocks(P.Classified(raws))), Findings(lib, audit).value, today)
  {
    var exceptions := P.ParseExceptions(raws);
    if exceptions.None? {
      return ExitCode(Crashed);
    }
    var v := Gate(lib, exceptions.value, audit, today);
    ExitCodeIsZeroIff(lib, exceptions.value, audit, today);
    return ExitCode(v);
  }
}
