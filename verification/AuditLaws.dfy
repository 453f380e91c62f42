/**
 * What a passing gate means, and how its verdict depends on the date, the exceptions and the order of
 * the findings.
 */
module AuditLaws {
  import opened Tables
  import opened AuditGate

  // ---------------------------------------------------------------- what passing means

  /** A relevant finding that names its advisory. */
  predicate Keyed(lib: Library, item: Item) {
    Relevant(lib, item) && AdvisoryKey(lib, item.advisory) != ""
  }

  /** The keys that a report needs exceptions for. */
  function Keys(lib: Library, items: seq<Item>): set<Key> {
    set item | item in items && Keyed(lib, item) :: KeyOf(lib, item)
  }

  ghost predicate Clean(lib: Library, exceptions: seq<P.Entry>) {
    && (forall e :: e in exceptions ==> ReadException(lib, e).Good?)
    && forall i, j :: 0 <= i < j < |exceptions| ==>
         ReadException(lib, exceptions[i]).key != ReadException(lib, exceptions[j]).key
  }

  predicate Matches(lib: Library, e: P.Entry, key: Key) {
    var r := ReadException(lib, e);
    r.Good? && r.key == key
  }

  /** Some exception for the key has not expired. */
  ghost predicate Excused(lib: Library, exceptions: seq<P.Entry>, key: Key, today: int) {
    exists e :: e in exceptions && Matches(lib, e, key) && today <= ReadException(lib, e).exemption.expires
  }

  /** Finding `i` is the first for its key, and no exception for it states another severity. */
  ghost predicate SeverityAgrees(lib: Library, exceptions: seq<P.Entry>, items: seq<Item>, i: nat)
    requires i < |items|
  {
    Keyed(lib, items[i]) && KeyOf(lib, items[i]) !in Keys(lib, items[..i]) ==>
      forall e :: e in exceptions && Matches(lib, e, KeyOf(lib, items[i])) ==>
        var stated := ReadException(lib, e).exemption.severity;
        stated == "" || Some(stated) == Severity(lib, items[i].severity)
  }

  /** The condition on exceptions and findings that the gate stands for. */
  ghost predicate Acceptable(lib: Library, exceptions: seq<P.Entry>, items: seq<Item>, today: int) {
    && Clean(lib, exceptions)
    && (forall item :: item in items ==> Severity(lib, item.severity).Some?)
    && (forall item :: item in items && Relevant(lib, item) ==>
          AdvisoryKey(lib, item.advisory) != "" && Excused(lib, exceptions, KeyOf(lib, item), today))
    && forall i :: 0 <= i < |items| ==> SeverityAgrees(lib, exceptions, items, i)
  }

  function ScanWith(lib: Library, exceptions: seq<P.Entry>, items: seq<Item>, today: int): Scan {
    ScanAll(lib, IndexAll(lib, exceptions).index, today, IndexAll(lib, exceptions).errors, items)
  }

  predicate Passes(lib: Library, exceptions: seq<P.Entry>, items: seq<Item>, today: int) {
    VerdictOf(ScanWith(lib, exceptions, items, today)).Pass?
  }

  /** Every key of the index comes from an exception, and every good exception has its key in it. */
  lemma {:induction false} IndexHolds(lib: Library, exceptions: seq<P.Entry>, k: Key)
    ensures var index := IndexAll(lib, exceptions).index;
            && (k in index ==>
                 exists e :: e in exceptions && Matches(lib, e, k) && ReadException(lib, e).exemption == index[k])
            && ((exists e :: e in exceptions && Matches(lib, e, k)) ==> k in index)
  {
    hide ReadException;
    if exceptions != [] {
      var init, last := exceptions[..|exceptions| - 1], exceptions[|exceptions| - 1];
      IndexHolds(lib, init, k);
      assert exceptions == init + [last];
      assert forall e :: e in exceptions <==> e in init || e == last;
    }
  }

  /** The first exception with a key stays the one that is indexed. */
  lemma {:induction false} IndexKeepsFirst(lib: Library, exceptions: seq<P.Entry>, i: nat, k: Key)
    requires i < |exceptions| && Matches(lib, exceptions[i], k)
    requires forall j :: 0 <= j < i ==> !Matches(lib, exceptions[j], k)
    ensures var index := IndexAll(lib, exceptions).index;
            k in index && index[k] == ReadException(lib, exceptions[i]).exemption
  {
    hide ReadException;
    var last := |exceptions| - 1;
    var init := exceptions[..last];
    if i < last {
      assert forall j :: 0 <= j < last ==> init[j] == exceptions[j];
      IndexKeepsFirst(lib, init, i, k);
    } else {
      IndexHolds(lib, init, k);
      assert forall e :: e in init ==> !Matches(lib, e, k);
    }
  }

  /** What is wrong with exception `i`: it can not be read, or an earlier one has its key. */
  ghost function ErrorsOfException(lib: Library, exceptions: seq<P.Entry>, i: nat): seq<GateError>
    requires i < |exceptions|
  {
    var r := ReadException(lib, exceptions[i]);
    if !r.Good? then [BadException(r)]
    else if exists j :: 0 <= j < i && Matches(lib, exceptions[j], r.key) then [DuplicateException(r.key)]
    else []
  }

  ghost function ErrorsOfExceptions(lib: Library, exceptions: seq<P.Entry>, n: nat): seq<GateError>
    requires n <= |exceptions|
  {
    if n == 0 then [] else ErrorsOfExceptions(lib, exceptions, n - 1) + ErrorsOfException(lib, exceptions, n - 1)
  }

  /** The errors of the exceptions are listed exception by exception. */
  lemma {:induction false} IndexErrors(lib: Library, exceptions: seq<P.Entry>, n: nat)
    requires n <= |exceptions|
    ensures IndexAll(lib, exceptions[..n]).errors == ErrorsOfExceptions(lib, exceptions, n)
  {
    hide ReadException;
    if n > 0 {
      var init, last := exceptions[..n - 1], exceptions[n - 1];
      assert exceptions[..n][..n - 1] == init && exceptions[..n][n - 1] == last;
      IndexErrors(lib, exceptions, n - 1);
      assert forall j :: 0 <= j < n - 1 ==> init[j] == exceptions[j];
      if ReadException(lib, last).Good? {
        var k := ReadException(lib, last).key;
        IndexHolds(lib, init, k);
        assert (exists e :: e in init && Matches(lib, e, k)) <==>
               (exists j :: 0 <= j < n - 1 && Matches(lib, init[j], k));
      }
      hide Matches;
    }
  }

  lemma {:induction false} IndexMeans(lib: Library, exceptions: seq<P.Entry>)
    ensures IndexAll(lib, exceptions).errors == [] <==> Clean(lib, exceptions)
  {
    if exceptions != [] {
      var init, last := exceptions[..|exceptions| - 1], exceptions[|exceptions| - 1];
      IndexMeans(lib, init);
      CleanSnoc(lib, init, last);
      assert exceptions == init + [last];
      hide ReadException, Clean;
      if ReadException(lib, last).Good? {
        IndexHolds(lib, init, ReadException(lib, last).key);
      }
      hide Matches;
    }
  }

  lemma {:induction false} CleanSnoc(lib: Library, init: seq<P.Entry>, last: P.Entry)
    ensures Clean(lib, init + [last]) <==>
            && Clean(lib, init) && ReadException(lib, last).Good?
            && forall e :: e in init ==> !Matches(lib, e, ReadException(lib, last).key)
  {
    hide ReadException;
    var all := init + [last];
    assert forall e :: e in all <==> e in init || e == last;
    if Clean(lib, all) {
      forall i, j | 0 <= i < j < |init|
        ensures ReadException(lib, init[i]).key != ReadException(lib, init[j]).key
      {
        assert all[i] == init[i] && all[j] == init[j];
      }
      forall e | e in init
        ensures !Matches(lib, e, ReadException(lib, last).key)
      {
        var i :| 0 <= i < |init| && init[i] == e;
        assert all[i] == e && all[|init|] == last;
      }
    }
    if Clean(lib, init) && ReadException(lib, last).Good? &&
      forall e :: e in init ==> !Matches(lib, e, ReadException(lib, last).key) {
      forall i, j | 0 <= i < j < |all|
        ensures ReadException(lib, all[i]).key != ReadException(lib, all[j]).key
      {
        assert all[i] == init[i] && init[i] in init;
        assert j < |init| ==> all[j] == init[j];
      }
    }
  }

  /** In a clean list, what the index holds for a key is the one exception that matches it. */
  lemma {:induction false} IndexedIsTheMatch(lib: Library, exceptions: seq<P.Entry>, e: P.Entry, key: Key)
    requires Clean(lib, exceptions) && e in exceptions && Matches(lib, e, key)
    ensures var index := IndexAll(lib, exceptions).index; key in index && index[key] == ReadException(lib, e).exemption
  {
    hide ReadException;
    IndexHolds(lib, exceptions, key);
    var index := IndexAll(lib, exceptions).index;
    var d :| d in exceptions && Matches(lib, d, key) && ReadException(lib, d).exemption == index[key];
    var i :| 0 <= i < |exceptions| && exceptions[i] == d;
    var j :| 0 <= j < |exceptions| && exceptions[j] == e;
    assert i == j;
  }

  predicate Mismatch(lib: Library, index: map<Key, Exemption>, items: seq<Item>, i: nat)
    requires i < |items|
  {
    var key := KeyOf(lib, items[i]);
    Keyed(lib, items[i]) && key !in Keys(lib, items[..i]) && key in index && index[key].severity != "" &&
    Some(index[key].severity) != Severity(lib, items[i].severity)
  }

  lemma {:induction false} KeysSnoc(lib: Library, items: seq<Item>, item: Item)
    ensures Keys(lib, items + [item]) == Keys(lib, items) + if Keyed(lib, item) then {KeyOf(lib, item)} else {}
  {
    hide Keyed, KeyOf;
    assert forall x :: x in items + [item] <==> x in items || x == item;
  }

  lemma {:induction false} ScanSees(lib: Library, index: map<Key, Exemption>, today: int, found: seq<GateError>,
                                    items: seq<Item>)
    requires forall item :: item in items ==> Severity(lib, item.severity).Some?
    ensures var s := ScanAll(lib, index, today, found, items); s.Scan? && s.seen == Keys(lib, items)
  {
    if items != [] {
      var init, item := items[..|items| - 1], items[|items| - 1];
      assert items == init + [item];
      ScanSees(lib, index, today, found, init);
      KeysSnoc(lib, init, item);
      ScanSeesOne(lib, index, today, ScanAll(lib, index, today, found, init), item);
      hide Severity, Keys, Keyed, KeyOf, ScanItem;
    }
  }

  lemma {:induction false} ScanSeesOne(lib: Library, index: map<Key, Exemption>, today: int, s: Scan, item: Item)
    requires s.Scan? && Severity(lib, item.severity).Some?
    ensures var t := ScanItem(lib, index, today, s, item);
            t.Scan? && t.seen == s.seen + if Keyed(lib, item) then {KeyOf(lib, item)} else {}
  {
    hide Severity, AdvisoryKey, PackageKey;
  }

  /** The scan finds the needed keys without an exception, and those with an expired one. */
  lemma {:induction false} ScanFindsKeys(lib: Library, index: map<Key, Exemption>, today: int, found: seq<GateError>,
                                         items: seq<Item>, k: Key)
    requires forall item :: item in items ==> Severity(lib, item.severity).Some?
    ensures var s, keys := ScanAll(lib, index, today, found, items), Keys(lib, items);
            && s.Scan?
            && (k in s.missing <==> k in keys && k !in index)
            && (k in s.expired <==> k in keys && k in index && index[k].expires < today)
  {
    ScanSees(lib, index, today, found, items);
    if items != [] {
      var init, item := items[..|items| - 1], items[|items| - 1];
      assert items == init + [item];
      ScanSees(lib, index, today, found, init);
      ScanFindsKeys(lib, index, today, found, init, k);
      KeysSnoc(lib, init, item);
      ScanFindsOne(lib, index, today, ScanAll(lib, index, today, found, init), item, k);
      hide Severity, AdvisoryKey, PackageKey, Keys, Relevant, ScanItem, Keyed, KeyOf;
    }
  }

  lemma {:induction false} ScanFindsOne(lib: Library, index: map<Key, Exemption>, today: int, s: Scan, item: Item,
                                        k: Key)
    requires s.Scan? && Severity(lib, item.severity).Some?
    ensures var t := ScanItem(lib, index, today, s, item);
            var first := Keyed(lib, item) && k == KeyOf(lib, item) && k !in s.seen;
            && t.Scan?
            && (k in t.missing <==> k in s.missing || (first && k !in index))
            && (k in t.expired <==> k in s.expired || (first && k in index && index[k].expires < today))
  {
    hide Severity, AdvisoryKey, PackageKey;
  }

  /** The scan reports nothing exactly if every relevant finding names an advisory and no first one disagrees. */
  lemma {:induction false} ScanReports(lib: Library, index: map<Key, Exemption>, today: int, found: seq<GateError>,
                                       items: seq<Item>)
    requires forall item :: item in items ==> Severity(lib, item.severity).Some?
    ensures var s := ScanAll(lib, index, today, found, items);
            && s.Scan?
            && (s.errors == [] <==>
                  && found == [] && (forall item :: item in items && Relevant(lib, item) ==>
                                     AdvisoryKey(lib, item.advisory) != "")
                  && forall i :: 0 <= i < |items| ==> !Mismatch(lib, index, items, i))
  {
    if items != [] {
      var last := |items| - 1;
      var init, item := items[..last], items[last];
      assert items == init + [item];
      assert forall x :: x in items <==> x in init || x == item;
      ScanSees(lib, index, today, found, init);
      ScanReports(lib, index, today, found, init);
      forall i | 0 <= i < last
        ensures Mismatch(lib, index, init, i) == Mismatch(lib, index, items, i)
      {
        assert init[..i] == items[..i];
      }
      ScanReportsOne(lib, index, today, ScanAll(lib, index, today, found, init), items);
      hide Mismatch, ScanItem, Severity, AdvisoryKey, Relevant;
    }
  }

  lemma {:induction false} ScanReportsOne(lib: Library, index: map<Key, Exemption>, today: int, s: Scan,
                                          items: seq<Item>)
    requires items != [] && Severity(lib, items[|items| - 1].severity).Some?
    requires s.Scan? && s.seen == Keys(lib, items[..|items| - 1])
    ensures var item, t := items[|items| - 1], ScanItem(lib, index, today, s, items[|items| - 1]);
            && t.Scan?
            && (t.errors == [] <==>
                  && s.errors == [] && (Relevant(lib, item) ==> AdvisoryKey(lib, item.advisory) != "")
                  && !Mismatch(lib, index, items, |items| - 1))
  {
    hide Severity, AdvisoryKey, PackageKey, Keys;
  }

  /** Finding `i` is the first that needs an exception for its key. */
  predicate FirstNeed(lib: Library, items: seq<Item>, i: nat)
    requires i < |items|
  {
    Keyed(lib, items[i]) && KeyOf(lib, items[i]) !in Keys(lib, items[..i])
  }

  /** What the scan has to say after the first `n` findings: each speaks for itself, in order. */
  ghost function ScanOf(lib: Library, index: map<Key, Exemption>, today: int, found: seq<GateError>, items: seq<Item>,
                        n: nat): Scan
    requires n <= |items|
  {
    if n == 0 then Scan({}, found, [], [])
    else
      var s, i, key := ScanOf(lib, index, today, found, items, n - 1), n - 1, KeyOf(lib, items[n - 1]);
      var need := FirstNeed(lib, items, i);
      if s.Crash? then Crash
      else Scan(
          Keys(lib, items[..n]),
          s.errors + (if Relevant(lib, items[i]) && key.1 == "" then [NoAdvisory(Str(lib, items[i].name))]
                      else if Mismatch(lib, index, items, i) then [SeverityMismatch(key)] else []),
          s.missing + (if need && key !in index then [key] else []),
          s.expired + (if need && key in index && index[key].expires < today then [key] else []))
  }

  /** Errors, missing and expired keys are listed finding by finding, each key with the first finding that needs it. */
  lemma {:induction false} ScanLists(lib: Library, index: map<Key, Exemption>, today: int, found: seq<GateError>,
                                     items: seq<Item>, n: nat)
    requires n <= |items| && forall item :: item in items ==> Severity(lib, item.severity).Some?
    ensures ScanAll(lib, index, today, found, items[..n]) == ScanOf(lib, index, today, found, items, n)
  {
    if n == 0 {
      assert Keys(lib, items[..0]) == {};
    } else {
      var init, item := items[..n - 1], items[n - 1];
      assert items[..n] == init + [item];
      ScanLists(lib, index, today, found, items, n - 1);
      ScanSees(lib, index, today, found, init);
      KeysSnoc(lib, init, item);
      ScanListsOne(lib, index, today, ScanAll(lib, index, today, found, init), items, n - 1);
      hide ScanItem, Severity, Relevant, FirstNeed, Mismatch, Keys, Keyed, KeyOf;
    }
  }

  lemma {:induction false} ScanListsOne(lib: Library, index: map<Key, Exemption>, today: int, s: Scan,
                                        items: seq<Item>, i: nat)
    requires i < |items| && s.Scan? && s.seen == Keys(lib, items[..i]) && Severity(lib, items[i].severity).Some?
    ensures var t, key := ScanItem(lib, index, today, s, items[i]), KeyOf(lib, items[i]);
            var need := FirstNeed(lib, items, i);
            && t.Scan?
            && t.seen == s.seen + (if Keyed(lib, items[i]) then {key} else {})
            && t.errors == s.errors + (
                 if Relevant(lib, items[i]) && key.1 == "" then [NoAdvisory(Str(lib, items[i].name))]
                 else if Mismatch(lib, index, items, i) then [SeverityMismatch(key)] else [])
            && t.missing == s.missing + (if need && key !in index then [key] else [])
            && t.expired == s.expired + (if need && key in index && index[key].expires < today then [key] else [])
  {
    hide Severity, AdvisoryKey, PackageKey, Keys;
  }

  /** Soundness and completeness: the gate passes exactly the acceptable reports. */
  lemma {:induction false} PassesIffAcceptable(lib: Library, exceptions: seq<P.Entry>, items: seq<Item>, today: int)
    ensures Passes(lib, exceptions, items, today) <==> Acceptable(lib, exceptions, items, today)
  {
    hide ReadException, Severity, AdvisoryKey, PackageKey;
    var indexed := IndexAll(lib, exceptions);
    IndexMeans(lib, exceptions);
    if forall item :: item in items ==> Severity(lib, item.severity).Some? {
      ScanReports(lib, indexed.index, today, indexed.errors, items);
      var s := ScanWith(lib, exceptions, items, today);
      forall k: Key
        ensures k in s.missing <==> k in Keys(lib, items) && k !in indexed.index
        ensures k in s.expired <==> k in Keys(lib, items) && k in indexed.index && indexed.index[k].expires < today
      {
        ScanFindsKeys(lib, indexed.index, today, indexed.errors, items, k);
      }
      PassMeans(s);
      if Clean(lib, exceptions) {
        forall item | item in items && Keyed(lib, item)
          ensures Excused(lib, exceptions, KeyOf(lib, item), today) <==>
                  KeyOf(lib, item) !in s.missing && KeyOf(lib, item) !in s.expired
        {
          ExcusedIff(lib, exceptions, KeyOf(lib, item), today);
          assert KeyOf(lib, item) in Keys(lib, items);
        }
        forall i | 0 <= i < |items|
          ensures SeverityAgrees(lib, exceptions, items, i) <==> !Mismatch(lib, indexed.index, items, i)
        {
          AgreesIff(lib, exceptions, items, i);
        }
        EmptyIff(s.missing);
        EmptyIff(s.expired);
      }
    } else {
      var item :| item in items && Severity(lib, item.severity).None?;
      var n :| 0 <= n < |items| && items[n] == item;
      CrashStays(lib, indexed.index, today, indexed.errors, items, n);
    }
  }

  lemma {:induction false} PassMeans(s: Scan)
    requires s.Scan?
    ensures VerdictOf(s).Pass? <==> s.errors == [] && s.missing == [] && s.expired == []
  {
    assert |s.errors + Missing(s.missing) + Expired(s.expired)| == |s.errors| + |s.missing| + |s.expired|;
  }

  /** A verdict lists the errors first, then every missing and then every expired key, each in the order of the scan. */
  lemma {:induction false} VerdictLists(s: Scan)
    requires s.Scan?
    ensures var v, e, m := VerdictOf(s), |s.errors|, |s.missing|;
            if e == 0 && m == 0 && s.expired == [] then v == Pass
            else
              && v.Fail? && |v.errors| == e + m + |s.expired| && v.errors[..e] == s.errors
              && (forall i :: 0 <= i < m ==> v.errors[e + i] == MissingException(s.missing[i]))
              && forall i :: 0 <= i < |s.expired| ==> v.errors[e + m + i] == ExpiredException(s.expired[i])
  {
  }

  lemma {:induction false} EmptyIff(keys: seq<Key>)
    ensures keys == [] <==> forall k :: k !in keys
  {
    assert keys != [] ==> keys[0] in keys;
  }

  lemma {:induction false} ExcusedIff(lib: Library, exceptions: seq<P.Entry>, key: Key, today: int)
    requires Clean(lib, exceptions)
    ensures var index := IndexAll(lib, exceptions).index;
            Excused(lib, exceptions, key, today) <==> key in index && today <= index[key].expires
  {
    hide ReadException;
    IndexHolds(lib, exceptions, key);
    forall e | e in exceptions && Matches(lib, e, key)
      ensures IndexAll(lib, exceptions).index[key] == ReadException(lib, e).exemption
    {
      IndexedIsTheMatch(lib, exceptions, e, key);
    }
  }

  lemma {:induction false} AgreesIff(lib: Library, exceptions: seq<P.Entry>, items: seq<Item>, i: nat)
    requires Clean(lib, exceptions) && i < |items|
    ensures SeverityAgrees(lib, exceptions, items, i) <==> !Mismatch(lib, IndexAll(lib, exceptions).index, items, i)
  {
    hide ReadException, Severity, Keys, KeyOf, Keyed;
    var key := KeyOf(lib, items[i]);
    IndexHolds(lib, exceptions, key);
    forall e | e in exceptions && Matches(lib, e, key)
      ensures key in IndexAll(lib, exceptions).index &&
              IndexAll(lib, exceptions).index[key] == ReadException(lib, e).exemption
    {
      IndexedIsTheMatch(lib, exceptions, e, key);
    }
  }

  /** The whole gate, from the parsed exceptions and the decoded report to the exit code. */
  lemma {:induction false} ExitCodeIsZeroIff(lib: Library, exceptions: seq<P.Entry>, audit: Json, today: int)
    ensures ExitCode(VerdictOf(Examine(lib, exceptions, audit, today))) == 0 <==>
            Findings(lib, audit).Some? && Acceptable(lib, exceptions, Findings(lib, audit).value, today)
  {
    if Findings(lib, audit).Some? {
      PassesIffAcceptable(lib, exceptions, Findings(lib, audit).value, today);
    }
  }

  // ---------------------------------------------------------------- monotonicity

  /** What passes on a day passes on every earlier day. */
  lemma {:induction false} PassesEarlier(lib: Library, exceptions: seq<P.Entry>, items: seq<Item>, today: int,
                                         earlier: int)
    requires Passes(lib, exceptions, items, today) && earlier <= today
    ensures Passes(lib, exceptions, items, earlier)
  {
    PassesIffAcceptable(lib, exceptions, items, today);
    PassesIffAcceptable(lib, exceptions, items, earlier);
    hide Passes, Clean, SeverityAgrees;
    forall item | item in items && Relevant(lib, item)
      ensures Excused(lib, exceptions, KeyOf(lib, item), earlier)
    {
      assert Excused(lib, exceptions, KeyOf(lib, item), today);
    }
  }

  /** Exception `e` matches no finding that the gate looks at. */
  predicate Unused(lib: Library, e: P.Entry, items: seq<Item>) {
    forall i :: 0 <= i < |items| && Keyed(lib, items[i]) ==> !Matches(lib, e, KeyOf(lib, items[i]))
  }

  ghost predicate Fresh(lib: Library, e: P.Entry, exceptions: seq<P.Entry>) {
    ReadException(lib, e).Good? && forall d :: d in exceptions ==> !Matches(lib, d, ReadException(lib, e).key)
  }

  lemma {:induction false} CleanWithout(lib: Library, a: seq<P.Entry>, e: P.Entry, b: seq<P.Entry>)
    requires Clean(lib, a + [e] + b)
    ensures Clean(lib, a + b) && Fresh(lib, e, a + b)
  {
    hide ReadException;
    var with, without := a + [e] + b, a + b;
    assert with[|a|] == e;
    assert forall i :: 0 <= i < |without| ==> without[i] == with[if i < |a| then i else i + 1];
    forall i, j | 0 <= i < j < |without|
      ensures ReadException(lib, without[i]).key != ReadException(lib, without[j]).key
    {
      var i', j' := if i < |a| then i else i + 1, if j < |a| then j else j + 1;
      assert with[i'] == without[i] && with[j'] == without[j];
    }
    forall d | d in without
      ensures ReadException(lib, d).Good? && !Matches(lib, d, ReadException(lib, e).key)
    {
      var i :| 0 <= i < |without| && without[i] == d;
      assert with[if i < |a| then i else i + 1] == d;
    }
  }

  lemma {:induction false} CleanWith(lib: Library, a: seq<P.Entry>, e: P.Entry, b: seq<P.Entry>)
    requires Clean(lib, a + b) && Fresh(lib, e, a + b)
    ensures Clean(lib, a + [e] + b)
  {
    hide ReadException;
    var with, without := a + [e] + b, a + b;
    assert forall d :: d in with <==> d in without || d == e;
    assert forall i :: 0 <= i < |with| ==>
             with[i] == if i < |a| then without[i] else if i == |a| then e else without[i - 1];
    forall i, j | 0 <= i < j < |with|
      ensures ReadException(lib, with[i]).key != ReadException(lib, with[j]).key
    {
      var i', j' := if i < |a| then i else i - 1, if j < |a| then j else j - 1;
      assert i != |a| ==> with[i] == without[i'] && without[i'] in without;
      assert j != |a| ==> with[j] == without[j'] && without[j'] in without;
    }
  }

  /**
   * An exception that no finding uses makes no difference, except that it must itself be well-formed
   * and have a key of its own: with it the gate passes exactly if it passes without it and this holds.
   */
  lemma {:induction false} UnusedExceptionIff(lib: Library, a: seq<P.Entry>, e: P.Entry, b: seq<P.Entry>,
                                              items: seq<Item>, today: int)
    requires Unused(lib, e, items)
    ensures Passes(lib, a + [e] + b, items, today) <==> Passes(lib, a + b, items, today) && Fresh(lib, e, a + b)
  {
    PassesIffAcceptable(lib, a + [e] + b, items, today);
    PassesIffAcceptable(lib, a + b, items, today);
    if Clean(lib, a + [e] + b) {
      CleanWithout(lib, a, e, b);
    }
    if Clean(lib, a + b) && Fresh(lib, e, a + b) {
      CleanWith(lib, a, e, b);
    }
    hide Passes, Clean, Fresh, Severity, ReadException, AdvisoryKey, PackageKey;
    assert forall d :: d in a + [e] + b <==> d in a + b || d == e;
    forall item | item in items && Keyed(lib, item)
      ensures Excused(lib, a + [e] + b, KeyOf(lib, item), today) <==> Excused(lib, a + b, KeyOf(lib, item), today)
    {
      assert !Matches(lib, e, KeyOf(lib, item));
    }
    forall i | 0 <= i < |items|
      ensures SeverityAgrees(lib, a + [e] + b, items, i) <==> SeverityAgrees(lib, a + b, items, i)
    {
    }
  }

  /** Adding a well-formed exception with a fresh key anywhere never makes a passing gate fail. */
  lemma {:induction false} FreshExceptionIsHarmless(lib: Library, a: seq<P.Entry>, e: P.Entry, b: seq<P.Entry>,
                                                    items: seq<Item>, today: int)
    requires Passes(lib, a + b, items, today) && Fresh(lib, e, a + b)
    ensures Passes(lib, a + [e] + b, items, today)
  {
    PassesIffAcceptable(lib, a + b, items, today);
    hide Passes, Severity, ReadException, AdvisoryKey, PackageKey;
    forall i | 0 <= i < |items| && Keyed(lib, items[i])
      ensures !Matches(lib, e, KeyOf(lib, items[i]))
    {
      assert Excused(lib, a + b, KeyOf(lib, items[i]), today);
    }
    UnusedExceptionIff(lib, a, e, b, items, today);
  }

  // ---------------------------------------------------------------- the order of the findings

  ghost predicate SameItems(items: seq<Item>, others: seq<Item>) {
    forall item :: item in items <==> item in others
  }

  /** The sets of missing and of expired keys do not depend on the order or repetition of the findings. */
  lemma {:induction false} KeysIgnoreOrder(lib: Library, exceptions: seq<P.Entry>, items: seq<Item>, others: seq<Item>,
                                           today: int)
    requires SameItems(items, others)
    ensures var s, t := ScanWith(lib, exceptions, items, today), ScanWith(lib, exceptions, others, today);
            && s.Crash? == t.Crash?
            && (s.Scan? ==>
                 (forall k :: k in s.missing <==> k in t.missing) && forall k :: k in s.expired <==> k in t.expired)
  {
    var indexed := IndexAll(lib, exceptions);
    if forall item :: item in items ==> Severity(lib, item.severity).Some? {
      assert Keys(lib, items) == Keys(lib, others);
      ScanSees(lib, indexed.index, today, indexed.errors, items);
      ScanSees(lib, indexed.index, today, indexed.errors, others);
      var s, t := ScanWith(lib, exceptions, items, today), ScanWith(lib, exceptions, others, today);
      forall k: Key
        ensures (k in s.missing <==> k in t.missing) && (k in s.expired <==> k in t.expired)
      {
        ScanFindsKeys(lib, indexed.index, today, indexed.errors, items, k);
        ScanFindsKeys(lib, indexed.index, today, indexed.errors, others, k);
      }
    } else {
      hide Severity;
      var item :| item in items && Severity(lib, item.severity).None?;
      var m :| 0 <= m < |items| && items[m] == item;
      CrashStays(lib, indexed.index, today, indexed.errors, items, m);
      assert item in others;
      var n :| 0 <= n < |others| && others[n] == item;
      CrashStays(lib, indexed.index, today, indexed.errors, others, n);
    }
  }

  /** Findings with the same key have the same severity. */
  ghost predicate Consistent(lib: Library, items: seq<Item>) {
    forall x, y :: x in items && y in items && Keyed(lib, x) && Keyed(lib, y) && KeyOf(lib, x) == KeyOf(lib, y) ==>
      Severity(lib, x.severity) == Severity(lib, y.severity)
  }

  lemma {:induction false} FirstOccurrence(lib: Library, items: seq<Item>, key: Key) returns (i: nat)
    requires key in Keys(lib, items)
    ensures i < |items| && Keyed(lib, items[i]) && KeyOf(lib, items[i]) == key && key !in Keys(lib, items[..i])
  {
    hide Keyed, KeyOf;
    var init, item := items[..|items| - 1], items[|items| - 1];
    assert items == init + [item];
    KeysSnoc(lib, init, item);
    if key in Keys(lib, init) {
      i := FirstOccurrence(lib, init, key);
      assert init[..i] == items[..i];
    } else {
      i := |init|;
    }
  }

  lemma {:induction false} AcceptableTransfers(lib: Library, exceptions: seq<P.Entry>, items: seq<Item>,
                                               others: seq<Item>, today: int)
    requires SameItems(items, others) && Consistent(lib, items) && Acceptable(lib, exceptions, items, today)
    ensures Acceptable(lib, exceptions, others, today)
  {
    hide Clean, Excused, Matches, ReadException, Severity, KeyOf, Relevant, AdvisoryKey;
    forall j | 0 <= j < |others|
      ensures SeverityAgrees(lib, exceptions, others, j)
    {
      var y := others[j];
      assert y in items;
      if Keyed(lib, y) {
        assert KeyOf(lib, y) in Keys(lib, items);
        var i := FirstOccurrence(lib, items, KeyOf(lib, y));
        assert items[i] in items;
        assert SeverityAgrees(lib, exceptions, items, i);
      }
    }
  }

  /** If findings with the same key agree on the severity, the verdict does not depend on their order or repetition. */
  lemma {:induction false} VerdictIgnoresOrder(lib: Library, exceptions: seq<P.Entry>, items: seq<Item>,
                                               others: seq<Item>, today: int)
    requires SameItems(items, others) && Consistent(lib, items)
    ensures Passes(lib, exceptions, items, today) <==> Passes(lib, exceptions, others, today)
  {
    PassesIffAcceptable(lib, exceptions, items, today);
    PassesIffAcceptable(lib, exceptions, others, today);
    hide Passes, Acceptable, Keyed, KeyOf, Severity;
    if Acceptable(lib, exceptions, items, today) {
      AcceptableTransfers(lib, exceptions, items, others, today);
    }
    if Acceptable(lib, exceptions, others, today) {
      AcceptableTransfers(lib, exceptions, others, items, today);
    }
  }

  /** Without that agreement it does: only the first of two findings is compared with the exception. */
  lemma {:induction false} OrderMatters(lib: Library, a: Item, b: Item, e: P.Entry, today: int)
    requires Keyed(lib, a) && Keyed(lib, b) && KeyOf(lib, a) == KeyOf(lib, b)
    requires Severity(lib, a.severity) != Severity(lib, b.severity)
    requires Matches(lib, e, KeyOf(lib, a)) && today <= ReadException(lib, e).exemption.expires
    requires Some(ReadException(lib, e).exemption.severity) == Severity(lib, a.severity)
    ensures Passes(lib, [e], [a, b], today) && !Passes(lib, [e], [b, a], today)
  {
    PassesIffAcceptable(lib, [e], [a, b], today);
    PassesIffAcceptable(lib, [e], [b, a], today);
    hide Passes, ReadException, AdvisoryKey, PackageKey;
    assert ReadException(lib, e).exemption.severity != "";
    assert [a, b][..1] == [a] && [a, b][..0] == [] && [b, a][..0] == [];
    assert KeyOf(lib, b) in Keys(lib, [a]);
    assert Excused(lib, [e], KeyOf(lib, a), today);
    assert SeverityAgrees(lib, [e], [a, b], 0) && SeverityAgrees(lib, [e], [a, b], 1);
    assert !SeverityAgrees(lib, [e], [b, a], 0);
  }

  /** Some exception for the finding states another severity. */
  ghost predicate Disagrees(lib: Library, exceptions: seq<P.Entry>, item: Item) {
    Keyed(lib, item) &&
    exists e :: e in exceptions && Matches(lib, e, KeyOf(lib, item)) &&
      var stated := ReadException(lib, e).exemption.severity;
      stated != "" && Some(stated) != Severity(lib, item.severity)
  }

  /** What passing needs whatever the order of the findings. */
  ghost predicate Answered(lib: Library, exceptions: seq<P.Entry>, items: seq<Item>, today: int) {
    && Clean(lib, exceptions)
    && (forall item :: item in items ==> Severity(lib, item.severity).Some?)
    && forall item :: item in items && Relevant(lib, item) ==>
         AdvisoryKey(lib, item.advisory) != "" && Excused(lib, exceptions, KeyOf(lib, item), today)
  }

  /** Finding `i` is the first for its key. */
  predicate FirstForKey(lib: Library, items: seq<Item>, i: nat)
    requires i < |items|
  {
    Keyed(lib, items[i]) && KeyOf(lib, items[i]) !in Keys(lib, items[..i])
  }

  lemma {:induction false} PassesByFirsts(lib: Library, exceptions: seq<P.Entry>, items: seq<Item>, today: int)
    ensures Passes(lib, exceptions, items, today) <==>
            && Answered(lib, exceptions, items, today)
            && forall i :: 0 <= i < |items| && FirstForKey(lib, items, i) ==> !Disagrees(lib, exceptions, items[i])
  {
    PassesIffAcceptable(lib, exceptions, items, today);
    hide Passes, Clean, Excused, Severity, KeyOf, Keyed, Keys, Relevant, AdvisoryKey, Matches, ReadException;
    forall i | 0 <= i < |items|
      ensures SeverityAgrees(lib, exceptions, items, i) <==>
              (FirstForKey(lib, items, i) ==> !Disagrees(lib, exceptions, items[i]))
    {
    }
  }

  /** Some finding disagrees with its exception, and for every key some finding does not. */
  ghost predicate Contested(lib: Library, exceptions: seq<P.Entry>, items: seq<Item>) {
    && (exists item :: item in items && Disagrees(lib, exceptions, item))
    && forall item :: item in items && Keyed(lib, item) ==> Endorsed(lib, exceptions, items, KeyOf(lib, item))
  }

  ghost predicate Endorsed(lib: Library, exceptions: seq<P.Entry>, items: seq<Item>, key: Key) {
    exists item :: item in items && Keyed(lib, item) && KeyOf(lib, item) == key && !Disagrees(lib, exceptions, item)
  }

  ghost predicate Rearranged(items: seq<Item>, others: seq<Item>) {
    multiset(items) == multiset(others)
  }

  lemma {:induction false} AnsweredIgnoresOrder(lib: Library, exceptions: seq<P.Entry>, items: seq<Item>,
                                                others: seq<Item>, today: int)
    requires SameItems(items, others)
    ensures Answered(lib, exceptions, items, today) <==> Answered(lib, exceptions, others, today)
  {
    hide Clean, Excused, Severity, KeyOf, Relevant, AdvisoryKey;
  }

  /** If one order passes and another fails, the findings are contested. */
  lemma {:induction false} OrderDecidesOnlyIf(lib: Library, exceptions: seq<P.Entry>, items: seq<Item>, s: seq<Item>,
                                              t: seq<Item>, today: int)
    requires SameItems(items, s) && SameItems(items, t)
    requires Passes(lib, exceptions, s, today) && !Passes(lib, exceptions, t, today)
    ensures Answered(lib, exceptions, items, today) && Contested(lib, exceptions, items)
  {
    hide Passes, Answered, Disagrees, KeyOf, Keyed, Keys;
    PassesByFirsts(lib, exceptions, s, today);
    PassesByFirsts(lib, exceptions, t, today);
    AnsweredIgnoresOrder(lib, exceptions, items, s, today);
    AnsweredIgnoresOrder(lib, exceptions, items, t, today);
    var i :| 0 <= i < |t| && FirstForKey(lib, t, i) && Disagrees(lib, exceptions, t[i]);
    assert t[i] in items;
    forall item | item in items && Keyed(lib, item)
      ensures Endorsed(lib, exceptions, items, KeyOf(lib, item))
    {
      assert item in s;
      KeyIsIn(lib, s, item);
      var j := FirstOccurrence(lib, s, KeyOf(lib, item));
      assert s[j] in items;
    }
  }

  lemma {:induction false} KeyIsIn(lib: Library, items: seq<Item>, item: Item)
    requires item in items && Keyed(lib, item)
    ensures KeyOf(lib, item) in Keys(lib, items)
  {
  }

  lemma {:induction false} SplitIsRearranged(p: Item -> bool, items: seq<Item>)
    ensures Rearranged(items, Filter(p, items) + Filter(x => !p(x), items))
  {
    if items != [] {
      var init, last := items[..|items| - 1], items[|items| - 1];
      SplitIsRearranged(p, init);
      assert items == init + [last];
    }
  }

  lemma {:induction false} SameItemsWhenRearranged(items: seq<Item>, others: seq<Item>)
    requires Rearranged(items, others)
    ensures SameItems(items, others)
  {
    InMultiset(items, others);
  }

  /** Contested findings pass when those that agree with their exceptions come first. */
  lemma {:induction false} EndorsedFirstPasses(lib: Library, exceptions: seq<P.Entry>, items: seq<Item>, today: int)
    returns (s: seq<Item>)
    requires Answered(lib, exceptions, items, today) && Contested(lib, exceptions, items)
    ensures Rearranged(items, s) && Passes(lib, exceptions, s, today)
  {
    hide Passes, Answered, Disagrees, KeyOf, Keyed, Keys;
    ghost var agrees := (item: Item) => !Disagrees(lib, exceptions, item);
    var front, back := Filter(agrees, items), Filter(x => !agrees(x), items);
    s := front + back;
    SplitIsRearranged(agrees, items);
    SameItemsWhenRearranged(items, s);
    AnsweredIgnoresOrder(lib, exceptions, items, s, today);
    FilterSound(agrees, items);
    PassesByFirsts(lib, exceptions, s, today);
    hide Filter;
    forall i | 0 <= i < |s| && FirstForKey(lib, s, i)
      ensures !Disagrees(lib, exceptions, s[i])
    {
      if i < |front| {
        assert s[i] in front;
      } else {
        var key := KeyOf(lib, s[i]);
        assert s[i] in items;
        var x :| x in items && Keyed(lib, x) && KeyOf(lib, x) == key && !Disagrees(lib, exceptions, x);
        assert x in front;
        var k :| 0 <= k < |front| && front[k] == x;
        assert s[..i][k] == x;
        KeyIsIn(lib, s[..i], x);
      }
    }
  }

  /** They fail when one that disagrees comes first. */
  lemma {:induction false} DisagreeingFirstFails(lib: Library, exceptions: seq<P.Entry>, items: seq<Item>, today: int)
    returns (t: seq<Item>)
    requires Contested(lib, exceptions, items)
    ensures Rearranged(items, t) && !Passes(lib, exceptions, t, today)
  {
    hide Passes, Answered, Disagrees, KeyOf, Keyed;
    var item :| item in items && Disagrees(lib, exceptions, item);
    var n :| 0 <= n < |items| && items[n] == item;
    t := MovedToFront(items, n);
    PassesByFirsts(lib, exceptions, t, today);
    FirstIsFirst(lib, exceptions, t);
  }

  lemma {:induction false} MovedToFront(items: seq<Item>, n: nat) returns (t: seq<Item>)
    requires n < |items|
    ensures t != [] && t[0] == items[n] && Rearranged(items, t)
  {
    t := [items[n]] + items[..n] + items[n + 1..];
    assert items == items[..n] + [items[n]] + items[n + 1..];
  }

  lemma {:induction false} FirstIsFirst(lib: Library, exceptions: seq<P.Entry>, items: seq<Item>)
    requires items != [] && Disagrees(lib, exceptions, items[0])
    ensures FirstForKey(lib, items, 0)
  {
    hide KeyOf, Keyed, Matches, Severity;
    assert items[..0] == [] && Keys(lib, []) == {};
  }

  /**
   * Exactly when the order of the findings decides: everything else is in order, some finding disagrees
   * with the severity its exception states, and for every key some finding does not. It makes no
   * difference whether findings may be repeated or only rearranged.
   */
  lemma {:induction false} OrderDecidesIff(lib: Library, exceptions: seq<P.Entry>, items: seq<Item>, today: int)
    ensures (exists s, t ::
              Rearranged(items, s) && Rearranged(items, t) && Passes(lib, exceptions, s, today) &&
              !Passes(lib, exceptions, t, today)) <==>
            Answered(lib, exceptions, items, today) && Contested(lib, exceptions, items)
    ensures (exists s, t ::
              SameItems(items, s) && SameItems(items, t) && Passes(lib, exceptions, s, today) &&
              !Passes(lib, exceptions, t, today)) <==>
            Answered(lib, exceptions, items, today) && Contested(lib, exceptions, items)
  {
    hide Passes, Answered, Contested, SameItems;
    forall s, t | SameItems(items, s) && SameItems(items, t) && Passes(lib, exceptions, s, today) &&
      !Passes(lib, exceptions, t, today)
      ensures Answered(lib, exceptions, items, today) && Contested(lib, exceptions, items)
    {
      OrderDecidesOnlyIf(lib, exceptions, items, s, t, today);
    }
    forall s | Rearranged(items, s)
      ensures SameItems(items, s)
    {
      SameItemsWhenRearranged(items, s);
    }
    if Answered(lib, exceptions, items, today) && Contested(lib, exceptions, items) {
      var s := EndorsedFirstPasses(lib, exceptions, items, today);
      var t := DisagreeingFirstFails(lib, exceptions, items, today);
    }
  }
}
