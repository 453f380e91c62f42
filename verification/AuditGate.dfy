/**
 * The audit gate: every high or critical finding needs an exception that has not expired.
 */
module AuditGate {
  import opened Tables
  import P = AuditParser

  // ---------------------------------------------------------------- decoded JSON

  datatype Json = JNull | JBool(b: bool) | JNum(n: real) | JStr(s: string) | JList(items: seq<Json>) |
      JDict(members: seq<Member>)

  datatype Member = Member(key: string, value: Json)

  predicate Truthy(j: Json) {
    match j
    case JNull => false
    case JBool(b) => b
    case JNum(n) => n != 0.0
    case JStr(s) => s != ""
    case JList(items) => items != []
    case JDict(members) => members != []
  }

  /** Python's `or`: the first operand if it is truthy, otherwise the second, whatever it is. */
  function Or(a: Json, b: Json): Json {
    if Truthy(a) then a else b
  }

  function GetOr(members: seq<Member>, key: string, other: Json): Json {
    if members == [] then other else if members[0].key == key then members[0].value else GetOr(members[1..], key, other)
  }

  function Get(d: Json, key: string): Json
    requires d.JDict?
  {
    GetOr(d.members, key, JNull)
  }

  /** Library functions: lower case, the printed form of other values than strings, ISO 8601 dates as day numbers. */
  datatype Library = Library(lower: string -> string, show: Json -> string, date: string -> Option<int>)

  function Str(lib: Library, j: Json): string {
    if j.JStr? then j.s else lib.show(j)
  }

  // ---------------------------------------------------------------- findings

  /** A finding as it is reported; its title is used in messages only. */
  datatype Item = Item(name: Json, severity: Json, advisory: Json)

  /** The first CVE of an advisory; indexing what is neither a list nor a string crashes. */
  function FirstCve(cves: Json): Option<Json> {
    if !Truthy(cves) then Some(JNull)
    else
      match cves
      case JList(items) => Some(items[0])
      case JStr(s) => Some(JStr([s[0]]))
      case _ => None
  }

  /** The most stable identifier that the advisory has; None is a crash. */
  function PickAdvisoryID(lib: Library, advisory: Json): Option<Json>
    requires advisory.JDict?
  {
    var id := Get(advisory, "id");
    var rest := Or(if id != JNull then JStr(Str(lib, id)) else JNull,
                   Or(Get(advisory, "title"), Or(Get(advisory, "advisory"), Get(advisory, "overview"))));
    if Truthy(Get(advisory, "github_advisory_id")) then Some(Get(advisory, "github_advisory_id"))
    else if Truthy(Get(advisory, "url")) then Some(Get(advisory, "url"))
    else
      var cve := FirstCve(Get(advisory, "cves"));
      if cve.None? then None else Some(Or(cve.value, rest))
  }

  function AdvisoryItems(lib: Library, m: Member): Option<seq<Item>> {
    var advisory := m.value;
    if !advisory.JDict? then None
    else
      var id := PickAdvisoryID(lib, advisory);
      if id.None? then None
      else Some([Item(Or(Get(advisory, "module_name"), Get(advisory, "name")), Get(advisory, "severity"), id.value)])
  }

  /** What one element of `via` contributes to the advisories and to the titles. */
  function ViaID(item: Json): seq<Json> {
    match item
    case JDict(_) => [Or(Get(item, "github_advisory_id"),
                         Or(Get(item, "url"), Or(Get(item, "source"), Or(Get(item, "title"), Get(item, "name")))))]
    case JStr(_) => [item]
    case _ => []
  }

  function ViaTitle(item: Json): seq<Json> {
    match item
    case JDict(_) => [Or(Get(item, "title"), Or(Get(item, "url"), Or(Get(item, "advisory"), Get(item, "source"))))]
    case JStr(_) => [item]
    case _ => []
  }

  function Flat(f: Json -> seq<Json>, items: seq<Json>): seq<Json> {
    if items == [] then [] else Flat(f, items[..|items| - 1]) + f(items[|items| - 1])
  }

  function ViaList(via: Json): seq<Json> {
    match via
    case JList(items) => items
    case JStr(_) => [via]
    case _ => []
  }

  lemma {:induction false} FlatSnoc(f: Json -> seq<Json>, items: seq<Json>, item: Json)
    ensures Flat(f, items + [item]) == Flat(f, items) + f(item)
  {
    assert (items + [item])[..|items|] == items;
  }

  /** Joining titles crashes on a title that is not a string. */
  predicate Joinable(titles: seq<Json>) {
    forall i :: 0 <= i < |titles| && Truthy(titles[i]) ==> titles[i].JStr?
  }

  /** One finding for every advisory id, if the titles can be joined. */
  function ItemsFor(name: string, severity: Json, ids: seq<Json>, titles: seq<Json>): Option<seq<Item>> {
    if !Joinable(titles) then None
    else Some(seq(|ids|, i requires 0 <= i < |ids| => Item(JStr(name), severity, ids[i])))
  }

  function VulnerabilityItems(m: Member): Option<seq<Item>> {
    if !m.value.JDict? then None
    else
      var via := ViaList(GetOr(m.value.members, "via", JList([])));
      ItemsFor(m.key, Get(m.value, "severity"), Filter(Truthy, Flat(ViaID, via)), Flat(ViaTitle, via))
  }

  function Collect(f: Member -> Option<seq<Item>>, members: seq<Member>): Option<seq<Item>> {
    if members == [] then Some([])
    else
      var before, last := Collect(f, members[..|members| - 1]), f(members[|members| - 1]);
      if before.None? || last.None? then None else Some(before.value + last.value)
  }

  function Members(j: Json): seq<Member> {
    if j.JDict? then j.members else []
  }

  /** All findings of a report, or None if extracting them crashes. */
  function Findings(lib: Library, data: Json): Option<seq<Item>> {
    if !data.JDict? then None
    else
      var advisories := Collect(m => AdvisoryItems(lib, m), Members(Get(data, "advisories")));
      var vulnerabilities := Collect(VulnerabilityItems, Members(Get(data, "vulnerabilities")));
      if advisories.None? || vulnerabilities.None? then None else Some(advisories.value + vulnerabilities.value)
  }

  lemma {:induction false} CollectStops(f: Member -> Option<seq<Item>>, members: seq<Member>, n: nat)
    requires n < |members| && f(members[n]).None?
    ensures Collect(f, members).None?
  {
    if n < |members| - 1 {
      CollectStops(f, members[..|members| - 1], n);
    }
  }

  /** Extraction crashes exactly if it crashes on some member. */
  lemma {:induction false} CollectFailsIff(f: Member -> Option<seq<Item>>, members: seq<Member>)
    ensures Collect(f, members).None? <==> exists n :: 0 <= n < |members| && f(members[n]).None?
  {
    if members != [] {
      var init := members[..|members| - 1];
      CollectFailsIff(f, init);
      assert forall n :: 0 <= n < |init| ==> init[n] == members[n];
    }
  }

  method IterVulnerability(m: Member) returns (r: Option<seq<Item>>)
    ensures r == VulnerabilityItems(m)
  {
    if !m.value.JDict? {
      return None;
    }
    var via := GetOr(m.value.members, "via", JList([]));
    var advisories, titles := [], [];
    if via.JList? {
      var list := via.items;
      for i := 0 to |list|
        invariant advisories == Flat(ViaID, list[..i]) && titles == Flat(ViaTitle, list[..i])
      {
        var item := list[i];
        FlatSnoc(ViaID, list[..i], item);
        FlatSnoc(ViaTitle, list[..i], item);
        assert list[..i + 1] == list[..i] + [item];
        if item.JDict? {
          advisories := advisories + [Or(Get(item, "github_advisory_id"),
                                         Or(Get(item, "url"), Or(Get(item, "source"),
                                                                 Or(Get(item, "title"), Get(item, "name")))))];
          titles := titles + [Or(Get(item, "title"),
                                 Or(Get(item, "url"), Or(Get(item, "advisory"), Get(item, "source"))))];
        } else if item.JStr? {
          advisories, titles := advisories + [item], titles + [item];
        }
      }
      assert list[..|list|] == list;
    } else if via.JStr? {
      advisories, titles := [via], [via];
      FlatSnoc(ViaID, [], via);
      FlatSnoc(ViaTitle, [], via);
      assert [] + [via] == [via];
    }
    if !Joinable(titles) {
      return None;
    }
    var ids := Filter(Truthy, advisories);
    return Some(seq(|ids|, i requires 0 <= i < |ids| => Item(JStr(m.key), Get(m.value, "severity"), ids[i])));
  }

  lemma {:induction false} CollectSnoc(f: Member -> Option<seq<Item>>, members: seq<Member>, i: nat)
    requires i < |members|
    ensures Collect(f, members[..i + 1]) ==
            var before, last := Collect(f, members[..i]), f(members[i]);
            if before.None? || last.None? then None else Some(before.value + last.value)
  {
    assert members[..i + 1][..i] == members[..i];
  }

  method IterAdvisories(lib: Library, advisories: seq<Member>) returns (r: Option<seq<Item>>)
    ensures r == Collect(m => AdvisoryItems(lib, m), advisories)
  {
    var items := [];
    ghost var f := m => AdvisoryItems(lib, m);
    for i := 0 to |advisories|
      invariant Collect(f, advisories[..i]) == Some(items)
    {
      CollectSnoc(f, advisories, i);
      hide Collect;
      var more := AdvisoryItems(lib, advisories[i]);
      if more.None? {
        CollectStops(f, advisories, i);
        return None;
      }
      items := items + more.value;
    }
    assert advisories[..|advisories|] == advisories;
    return Some(items);
  }

  method IterVulnerabilities(vulnerabilities: seq<Member>) returns (r: Option<seq<Item>>)
    ensures r == Collect(VulnerabilityItems, vulnerabilities)
  {
    var items := [];
    for i := 0 to |vulnerabilities|
      invariant Collect(VulnerabilityItems, vulnerabilities[..i]) == Some(items)
    {
      CollectSnoc(VulnerabilityItems, vulnerabilities, i);
      hide Collect;
      var more := IterVulnerability(vulnerabilities[i]);
      if more.None? {
        CollectStops(VulnerabilityItems, vulnerabilities, i);
        return None;
      }
      items := items + more.value;
    }
    assert vulnerabilities[..|vulnerabilities|] == vulnerabilities;
    return Some(items);
  }

  method IterVulns(lib: Library, data: Json) returns (r: Option<seq<Item>>)
    ensures r == Findings(lib, data)
  {
    if !data.JDict? {
      return None;
    }
    hide Collect;
    var advisories := IterAdvisories(lib, Members(Get(data, "advisories")));
    if advisories.None? {
      return None;
    }
    var vulnerabilities := IterVulnerabilities(Members(Get(data, "vulnerabilities")));
    if vulnerabilities.None? {
      return None;
    }
    return Some(advisories.value + vulnerabilities.value);
  }

  // ---------------------------------------------------------------- exceptions

  type Key = (string, string)

  datatype Exemption = Exemption(severity: string, expires: int)

  datatype Reading = MissingFields | InvalidDate | EmptyKey | Good(key: Key, exemption: Exemption)

  function Field(e: P.Entry, name: string): string {
    if name in e then e[name] else ""
  }

  const REQUIRED_FIELDS: set<string> := {"package", "advisory", "severity", "mitigation", "expires_on"}

  function Normalize(lib: Library, s: string): string {
    lib.lower(P.Strip(s))
  }

  /** What one parsed exception amounts to. */
  function ReadException(lib: Library, e: P.Entry): Reading {
    if exists name :: name in REQUIRED_FIELDS && Field(e, name) == "" then MissingFields
    else
      var day := lib.date(Field(e, "expires_on"));
      var key := (P.Strip(Field(e, "package")), Normalize(lib, Field(e, "advisory")));
      if day.None? then InvalidDate
      else if key.0 == "" || key.1 == "" then EmptyKey
      else Good(key, Exemption(Normalize(lib, Field(e, "severity")), day.value))
  }

  datatype GateError =
    | BadException(reading: Reading) | DuplicateException(key: Key)
    | NoAdvisory(name: string) | SeverityMismatch(key: Key) | MissingException(key: Key) | ExpiredException(key: Key)

  datatype Indexed = Indexed(index: map<Key, Exemption>, errors: seq<GateError>)

  function IndexAll(lib: Library, exceptions: seq<P.Entry>): Indexed {
    if exceptions == [] then Indexed(map[], [])
    else
      var before, r := IndexAll(lib, exceptions[..|exceptions| - 1]), ReadException(lib, exceptions[|exceptions| - 1]);
      if !r.Good? then before.(errors := before.errors + [BadException(r)])
      else if r.key in before.index then before.(errors := before.errors + [DuplicateException(r.key)])
      else before.(index := before.index[r.key := r.exemption])
  }

  method IndexExceptions(lib: Library, exceptions: seq<P.Entry>)
    returns (index: map<Key, Exemption>, errors: seq<GateError>)
    ensures IndexAll(lib, exceptions) == Indexed(index, errors)
  {
    index, errors := map[], [];
    for i := 0 to |exceptions|
      invariant IndexAll(lib, exceptions[..i]) == Indexed(index, errors)
    {
      assert exceptions[..i + 1][..i] == exceptions[..i];
      var e := exceptions[i];
      if exists name :: name in REQUIRED_FIELDS && Field(e, name) == "" {
        errors := errors + [BadException(MissingFields)];
        continue;
      }
      var severity, package, advisory := Normalize(lib, Field(e, "severity")), P.Strip(Field(e, "package")),
        Normalize(lib, Field(e, "advisory"));
      var day := lib.date(Field(e, "expires_on"));
      if day.None? {
        errors := errors + [BadException(InvalidDate)];
        continue;
      }
      if package == "" || advisory == "" {
        errors := errors + [BadException(EmptyKey)];
        continue;
      }
      var key := (package, advisory);
      if key in index {
        errors := errors + [DuplicateException(key)];
        continue;
      }
      index := index[key := Exemption(severity, day.value)];
    }
    assert exceptions[..|exceptions|] == exceptions;
  }

  // ---------------------------------------------------------------- the verdict

  /** Normalising a severity that is neither empty nor a string crashes. */
  function Severity(lib: Library, j: Json): Option<string> {
    if !Truthy(j) then Some(Normalize(lib, "")) else if j.JStr? then Some(Normalize(lib, j.s)) else None
  }

  const HIGH_SEVERITIES: set<string> := {"high", "critical"}

  function AdvisoryKey(lib: Library, j: Json): string {
    if j == JNull then "" else Normalize(lib, Str(lib, j))
  }

  function PackageKey(lib: Library, j: Json): string {
    if j == JNull then "" else P.Strip(Str(lib, j))
  }

  function KeyOf(lib: Library, item: Item): Key {
    (PackageKey(lib, item.name), AdvisoryKey(lib, item.advisory))
  }

  /** A finding that the gate looks at: it is high or critical, and it has a name. */
  predicate Relevant(lib: Library, item: Item) {
    var severity := Severity(lib, item.severity);
    severity.Some? && severity.value in HIGH_SEVERITIES && Truthy(item.name)
  }

  datatype Scan = Scan(seen: set<Key>, errors: seq<GateError>, missing: seq<Key>, expired: seq<Key>) | Crash

  function ScanItem(lib: Library, index: map<Key, Exemption>, today: int, s: Scan, item: Item): Scan {
    var severity := Severity(lib, item.severity);
    if s.Crash? || severity.None? then Crash
    else if !Relevant(lib, item) then s
    else if AdvisoryKey(lib, item.advisory) == "" then s.(errors := s.errors + [NoAdvisory(Str(lib, item.name))])
    else
      var key := KeyOf(lib, item);
      if key in s.seen then s
      else
        var t := s.(seen := s.seen + {key});
        if key !in index then t.(missing := t.missing + [key])
        else
          var x := index[key];
          var u := if x.severity != "" && x.severity != severity.value
            then t.(errors := t.errors + [SeverityMismatch(key)]) else t;
          if x.expires < today then u.(expired := u.expired + [key]) else u
  }

  function ScanAll(lib: Library, index: map<Key, Exemption>, today: int, errors: seq<GateError>,
                   items: seq<Item>): Scan {
    if items == [] then Scan({}, errors, [], [])
    else ScanItem(lib, index, today, ScanAll(lib, index, today, errors, items[..|items| - 1]), items[|items| - 1])
  }

  lemma {:induction false} CrashStays(lib: Library, index: map<Key, Exemption>, today: int, errors: seq<GateError>,
                                      items: seq<Item>, n: nat)
    requires n < |items| && Severity(lib, items[n].severity).None?
    ensures ScanAll(lib, index, today, errors, items).Crash?
  {
    if n < |items| - 1 {
      CrashStays(lib, index, today, errors, items[..|items| - 1], n);
    }
  }

  datatype Verdict = Pass | Fail(errors: seq<GateError>) | Crashed

  /** The gate: 0 is a pass, anything else blocks; an uncaught exception ends the process with 1 as well. */
  function ExitCode(v: Verdict): int {
    if v.Pass? then 0 else 1
  }

  /** Look at the findings in order; every key is looked up once. */
  method ScanFindings(lib: Library, index: map<Key, Exemption>, today: int, found: seq<GateError>, items: seq<Item>)
    returns (s: Scan)
    ensures s == ScanAll(lib, index, today, found, items)
  {
    var seen: set<Key>, errors, missing, expired := {}, found, [], [];
    for i := 0 to |items|
      invariant ScanAll(lib, index, today, found, items[..i]) == Scan(seen, errors, missing, expired)
    {
      assert items[..i + 1][..i] == items[..i];
      hide Normalize, AdvisoryKey, PackageKey;
      var item := items[i];
      var severity := Severity(lib, item.severity);
      if severity.None? {
        CrashStays(lib, index, today, found, items, i);
        return Crash;
      }
      if severity.value !in HIGH_SEVERITIES || !Truthy(item.name) {
        continue;
      }
      var advisory := AdvisoryKey(lib, item.advisory);
      if advisory == "" {
        errors := errors + [NoAdvisory(Str(lib, item.name))];
        continue;
      }
      var key := (PackageKey(lib, item.name), advisory);
      if key in seen {
        continue;
      }
      seen := seen + {key};
      if key !in index {
        missing := missing + [key];
        continue;
      }
      var x := index[key];
      if x.severity != "" && x.severity != severity.value {
        errors := errors + [SeverityMismatch(key)];
      }
      if x.expires < today {
        expired := expired + [key];
      }
    }
    assert items[..|items|] == items;
    return Scan(seen, errors, missing, expired);
  }

  /** What the gate finds out about a report, before it is turned into messages. */
  function Examine(lib: Library, exceptions: seq<P.Entry>, audit: Json, today: int): Scan {
    var items, indexed := Findings(lib, audit), IndexAll(lib, exceptions);
    if items.None? then Crash else ScanAll(lib, indexed.index, today, indexed.errors, items.value)
  }

  method Gate(lib: Library, exceptions: seq<P.Entry>, audit: Json, today: int) returns (v: Verdict)
    ensures v == VerdictOf(Examine(lib, exceptions, audit, today))
  {
    var index, errors := IndexExceptions(lib, exceptions);
    var found := IterVulns(lib, audit);
    hide IndexAll, Findings, ScanAll;
    if found.None? {
      return Crashed;
    }
    var s := ScanFindings(lib, index, today, errors, found.value);
    if s.Crash? {
      return Crashed;
    }
    errors := s.errors;
    for i := 0 to |s.missing|
      invariant errors == s.errors + Missing(s.missing[..i])
    {
      assert s.missing[..i + 1] == s.missing[..i] + [s.missing[i]];
      errors := errors + [MissingException(s.missing[i])];
    }
    assert s.missing[..|s.missing|] == s.missing;
    for i := 0 to |s.expired|
      invariant errors == s.errors + Missing(s.missing) + Expired(s.expired[..i])
    {
      assert s.expired[..i + 1] == s.expired[..i] + [s.expired[i]];
      errors := errors + [ExpiredException(s.expired[i])];
    }
    assert s.expired[..|s.expired|] == s.expired;
    v := if errors != [] then Fail(errors) else Pass;
  }

  function Missing(keys: seq<Key>): (r: seq<GateError>)
    ensures |r| == |keys|
  {
    seq(|keys|, i requires 0 <= i < |keys| => MissingException(keys[i]))
  }

  function Expired(keys: seq<Key>): (r: seq<GateError>)
    ensures |r| == |keys|
  {
    seq(|keys|, i requires 0 <= i < |keys| => ExpiredException(keys[i]))
  }

  function VerdictOf(s: Scan): Verdict {
    if s.Crash? then Crashed
    else
      var errors := s.errors + Missing(s.missing) + Expired(s.expired);
      if errors != [] then Fail(errors) else Pass
  }
}
