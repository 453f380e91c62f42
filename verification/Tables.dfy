/**
 * Finite tables, and the part of a SELECT statement that the eager loaders rely on:
 * a conjunction of predicates, a stable ORDER BY, and a LIMIT/OFFSET window.
 */
module Tables {

  datatype Option<+T> = None | Some(value: T)

  /** The elements of `s` that satisfy `p`, in their order in `s`. */
  function Filter<T>(p: T -> bool, s: seq<T>): seq<T> {
    if s == [] then []
    else
      var rest, last := Filter(p, s[..|s| - 1]), s[|s| - 1];
      if p(last) then rest + [last] else rest
  }

  lemma {:induction false} FilterSound<T>(p: T -> bool, s: seq<T>)
    ensures |Filter(p, s)| <= |s|
    ensures forall x :: x in Filter(p, s) ==> x in s && p(x)
    ensures forall x :: x in s && p(x) ==> x in Filter(p, s)
  {
    if s != [] {
      var init, last := s[..|s| - 1], s[|s| - 1];
      FilterSound(p, init);
      assert s == init + [last];
    }
  }

  /** The last element of `s` that satisfies `p`: what is left in a field that every match overwrites. */
  function PickLast<T>(p: T -> bool, s: seq<T>): Option<T> {
    if s == [] then None
    else if p(s[|s| - 1]) then Some(s[|s| - 1])
    else PickLast(p, s[..|s| - 1])
  }

  lemma {:induction false} PickLastSound<T>(p: T -> bool, s: seq<T>)
    ensures PickLast(p, s).Some? ==> PickLast(p, s).value in s && p(PickLast(p, s).value)
    ensures PickLast(p, s).None? ==> forall x :: x in s ==> !p(x)
  {
    if s != [] && !p(s[|s| - 1]) {
      PickLastSound(p, s[..|s| - 1]);
      assert s == s[..|s| - 1] + [s[|s| - 1]];
    }
  }

  function First<T>(s: seq<T>): Option<T> {
    if s == [] then None else Some(s[0])
  }

  lemma {:induction false} FilterSnoc<T>(p: T -> bool, s: seq<T>, x: T)
    ensures Filter(p, s + [x]) == if p(x) then Filter(p, s) + [x] else Filter(p, s)
  {
    assert (s + [x])[..|s|] == s;
  }

  lemma {:induction false} PickLastSnoc<T>(p: T -> bool, s: seq<T>, x: T)
    ensures PickLast(p, s + [x]) == if p(x) then Some(x) else PickLast(p, s)
  {
    assert (s + [x])[..|s|] == s;
  }

  /** Only the values a predicate takes on the table matter. */
  lemma {:induction false} FilterExtensional<T>(p: T -> bool, q: T -> bool, s: seq<T>)
    requires forall x :: x in s ==> p(x) == q(x)
    ensures Filter(p, s) == Filter(q, s)
  {
    if s != [] {
      var init, last := s[..|s| - 1], s[|s| - 1];
      assert s == init + [last];
      FilterExtensional(p, q, init);
    }
  }

  lemma {:induction false} FilterTwice<T>(p: T -> bool, q: T -> bool, s: seq<T>)
    ensures Filter(p, Filter(q, s)) == Filter(x => p(x) && q(x), s)
  {
    if s != [] {
      var init, last := s[..|s| - 1], s[|s| - 1];
      FilterTwice(p, q, init);
      if q(last) {
        FilterSnoc(p, Filter(q, init), last);
      }
    }
  }

  lemma {:induction false} KeepsAll<T>(p: T -> bool, s: seq<T>)
    requires forall x :: x in s ==> p(x)
    ensures Filter(p, s) == s
  {
    if s != [] {
      KeepsAll(p, s[..|s| - 1]);
    }
  }

  lemma {:induction false} FilterOne<T>(p: T -> bool, x: T)
    ensures Filter(p, [x]) == if p(x) then [x] else []
  {
    assert [x][..0] == [];
  }

  lemma {:induction false} FilterAppend<T>(p: T -> bool, s: seq<T>, t: seq<T>)
    ensures Filter(p, s + t) == Filter(p, s) + Filter(p, t)
  {
    if t == [] {
      assert s + t == s;
    } else {
      var last := |t| - 1;
      FilterAppend(p, s, t[..last]);
      assert (s + t)[..|s + t| - 1] == s + t[..last];
    }
  }

  lemma {:induction false} DropsAll<T>(p: T -> bool, s: seq<T>)
    requires forall x :: x in s ==> !p(x)
    ensures Filter(p, s) == []
  {
    if s != [] {
      DropsAll(p, s[..|s| - 1]);
    }
  }

  /** When all matches are equal, the last one is the first one. */
  lemma {:induction false} PickUnique<T>(p: T -> bool, s: seq<T>)
    requires forall x, y :: x in s && y in s && p(x) && p(y) ==> x == y
    ensures PickLast(p, s) == First(Filter(p, s))
  {
    var f := Filter(p, s);
    PickLastSound(p, s);
    FilterSound(p, s);
    if f != [] {
      assert f[0] in f;
    }
  }

  /** `x` and `y` stand at one common position of the aligned sequences `s` and `t`. */
  ghost predicate Paired<A, B>(s: seq<A>, t: seq<B>, x: A, y: B) {
    exists j :: 0 <= j < |s| && j < |t| && s[j] == x && t[j] == y
  }

  lemma {:induction false} PairedSnoc<A, B>(s: seq<A>, t: seq<B>, x: A, y: B)
    requires 0 < |s| == |t|
    requires Paired(s[..|s| - 1], t[..|t| - 1], x, y)
    ensures Paired(s, t, x, y)
  {
    var n := |s| - 1;
    var j :| 0 <= j < n && s[..n][j] == x && t[..n][j] == y;
    assert s[j] == x && t[j] == y;
  }

  /** Filtering two aligned sequences by predicates that agree position by position keeps them aligned. */
  lemma {:induction false} FilterAligned<A, B>(p: A -> bool, q: B -> bool, s: seq<A>, t: seq<B>)
    requires |s| == |t|
    requires forall i :: 0 <= i < |s| ==> p(s[i]) == q(t[i])
    ensures |Filter(p, s)| == |Filter(q, t)|
    ensures forall k :: 0 <= k < |Filter(p, s)| ==> Paired(s, t, Filter(p, s)[k], Filter(q, t)[k])
  {
    if s != [] {
      var n := |s| - 1;
      var s', t' := s[..n], t[..n];
      FilterAligned(p, q, s', t');
      FilterSnoc(p, s', s[n]);
      FilterSnoc(q, t', t[n]);
      assert s == s' + [s[n]] && t == t' + [t[n]];
      var fs, ft := Filter(p, s'), Filter(q, t');
      forall k | 0 <= k < |fs|
        ensures Paired(s, t, fs[k], ft[k])
      {
        PairedSnoc(s, t, fs[k], ft[k]);
      }
      assert Paired(s, t, s[n], t[n]);
    }
  }

  lemma {:induction false} PickLastAligned<A, B>(p: A -> bool, q: B -> bool, s: seq<A>, t: seq<B>)
    requires |s| == |t|
    requires forall i :: 0 <= i < |s| ==> p(s[i]) == q(t[i])
    ensures PickLast(p, s).Some? <==> PickLast(q, t).Some?
    ensures PickLast(p, s).Some? ==> Paired(s, t, PickLast(p, s).value, PickLast(q, t).value)
  {
    if s != [] {
      var n := |s| - 1;
      if p(s[n]) {
        assert Paired(s, t, s[n], t[n]);
      } else {
        PickLastAligned(p, q, s[..n], t[..n]);
        if PickLast(p, s).Some? {
          PairedSnoc(s, t, PickLast(p, s).value, PickLast(q, t).value);
        }
      }
    }
  }

  // ---------------------------------------------------------------- ORDER BY

  /** `a` comes no later than `b` under the order terms `keys`, compared one after the other. */
  predicate NotAfter<T>(keys: seq<T -> int>, a: T, b: T)
  {
    keys == [] ||
    keys[0](a) < keys[0](b) ||
    (keys[0](a) == keys[0](b) && NotAfter(keys[1..], a, b))
  }

  lemma {:induction false} NotAfterTransitive<T>(keys: seq<T -> int>, a: T, b: T, c: T)
    requires NotAfter(keys, a, b) && NotAfter(keys, b, c)
    ensures NotAfter(keys, a, c)
  {
    if keys != [] && keys[0](a) == keys[0](b) == keys[0](c) {
      NotAfterTransitive(keys[1..], a, b, c);
    }
  }

  lemma {:induction false} NotAfterTotal<T>(keys: seq<T -> int>, a: T, b: T)
    ensures NotAfter(keys, a, b) || NotAfter(keys, b, a)
  {
    if keys != [] && keys[0](a) == keys[0](b) {
      NotAfterTotal(keys[1..], a, b);
    }
  }

  /** The first order term on which two rows differ decides, smaller values first; rows that agree on all are tied. */
  lemma {:induction false} FirstDifferenceDecides<T>(keys: seq<T -> int>, a: T, b: T)
    ensures NotAfter(keys, a, b) <==>
            || (forall i :: 0 <= i < |keys| ==> keys[i](a) == keys[i](b))
            || (exists j :: 0 <= j < |keys| && keys[j](a) < keys[j](b)
                            && forall i :: 0 <= i < j ==> keys[i](a) == keys[i](b))
  {
    if keys != [] {
      var rest := keys[1..];
      FirstDifferenceDecides(rest, a, b);
      assert forall i :: 0 < i < |keys| ==> keys[i] == rest[i - 1];
      if keys[0](a) == keys[0](b) {
        if j :| 0 <= j < |rest| && rest[j](a) < rest[j](b) && forall i :: 0 <= i < j ==> rest[i](a) == rest[i](b) {
          assert keys[j + 1](a) < keys[j + 1](b);
        }
        if j :| 0 <= j < |keys| && keys[j](a) < keys[j](b) && forall i :: 0 <= i < j ==> keys[i](a) == keys[i](b) {
          assert rest[j - 1](a) < rest[j - 1](b);
        }
        if forall i :: 0 <= i < |rest| ==> rest[i](a) == rest[i](b) {
          assert forall i :: 0 <= i < |keys| ==> keys[i](a) == keys[i](b);
        }
      }
    }
  }

  /** Put `x` after every element of the sorted `s` that is not after it. */
  function Insert<T>(keys: seq<T -> int>, x: T, s: seq<T>): (r: seq<T>)
    ensures multiset(r) == multiset(s) + multiset{x}
  {
    if s == [] then [x]
    else
      var init, last := s[..|s| - 1], s[|s| - 1];
      assert s == init + [last];
      if NotAfter(keys, last, x) then s + [x] else Insert(keys, x, init) + [last]
  }

  /** Rows in the order that ORDER BY asks for; ties keep the order of the table. */
  function SortBy<T>(keys: seq<T -> int>, s: seq<T>): (r: seq<T>)
    ensures multiset(r) == multiset(s)
  {
    if s == [] then []
    else
      assert s == s[..|s| - 1] + [s[|s| - 1]];
      Insert(keys, s[|s| - 1], SortBy(keys, s[..|s| - 1]))
  }

  ghost predicate Sorted<T>(keys: seq<T -> int>, s: seq<T>)
  {
    forall i, j :: 0 <= i < j < |s| ==> NotAfter(keys, s[i], s[j])
  }

  lemma {:induction false} EmptyTogether<T>(s: seq<T>, t: seq<T>)
    requires forall x :: x in s <==> x in t
    ensures s == [] <==> t == []
  {
    if s != [] { assert s[0] in s; }
    if t != [] { assert t[0] in t; }
  }

  lemma {:induction false} InMultiset<T>(s: seq<T>, t: seq<T>)
    requires multiset(s) == multiset(t)
    ensures forall x :: x in s ==> x in t
    ensures forall x :: x in t ==> x in s
    ensures |s| == |t|
  {
    forall x | x in s
      ensures x in t
    {
      assert x in multiset(s);
      assert x in multiset(t);
    }
    forall x | x in t
      ensures x in s
    {
      assert x in multiset(t);
      assert x in multiset(s);
    }
    assert |multiset(s)| == |s| && |multiset(t)| == |t|;
  }

  lemma {:induction false} InsertSorted<T>(keys: seq<T -> int>, x: T, s: seq<T>)
    requires Sorted(keys, s)
    ensures Sorted(keys, Insert(keys, x, s))
  {
    if s != [] {
      var init, last := s[..|s| - 1], s[|s| - 1];
      var r := Insert(keys, x, s);
      if NotAfter(keys, last, x) {
        forall i | 0 <= i < |s|
          ensures NotAfter(keys, s[i], x)
        {
          if i < |s| - 1 { NotAfterTransitive(keys, s[i], last, x); }
        }
      } else {
        InsertSorted(keys, x, init);
        NotAfterTotal(keys, last, x);
        var front := Insert(keys, x, init);
        forall i | 0 <= i < |front|
          ensures NotAfter(keys, front[i], last)
        {
          assert front[i] in multiset(front);
          assert front[i] == x || front[i] in multiset(init);
          if front[i] != x {
            assert front[i] in init;
          }
        }
        assert r == front + [last];
      }
    }
  }

  lemma {:induction false} SortSorted<T>(keys: seq<T -> int>, s: seq<T>)
    ensures Sorted(keys, SortBy(keys, s))
  {
    if s != [] {
      SortSorted(keys, s[..|s| - 1]);
      InsertSorted(keys, s[|s| - 1], SortBy(keys, s[..|s| - 1]));
    }
  }

  lemma {:induction false} NoneAfterLast<T>(keys: seq<T -> int>, x: T, s: seq<T>, y: T)
    requires Sorted(keys, s) && s != [] && NotAfter(keys, s[|s| - 1], x) && y in s
    ensures NotAfter(keys, y, x)
  {
    var i :| 0 <= i < |s| && s[i] == y;
    if i < |s| - 1 { NotAfterTransitive(keys, y, s[|s| - 1], x); }
  }

  lemma {:induction false} FilterInsert<T>(keys: seq<T -> int>, p: T -> bool, x: T, s: seq<T>)
    requires Sorted(keys, s)
    ensures Filter(p, Insert(keys, x, s)) ==
            if p(x) then Insert(keys, x, Filter(p, s)) else Filter(p, s)
  {
    if s != [] {
      var init, last := s[..|s| - 1], s[|s| - 1];
      assert s == init + [last];
      var f := Filter(p, s);
      if NotAfter(keys, last, x) {
        FilterSnoc(p, s, x);
        if p(x) && f != [] {
          FilterSound(p, s);
          hide Sorted, NotAfter, Filter;
          NoneAfterLast(keys, x, s, f[|f| - 1]);
        }
      } else {
        FilterInsert(keys, p, x, init);
        hide Sorted, NotAfter;
        FilterSnoc(p, Insert(keys, x, init), last);
        FilterSnoc(p, init, last);
        if p(last) && p(x) {
          assert f == Filter(p, init) + [last];
          assert f[..|f| - 1] == Filter(p, init);
        }
      }
    }
  }

  lemma {:induction false} FilterSorted<T>(keys: seq<T -> int>, p: T -> bool, s: seq<T>)
    requires Sorted(keys, s)
    ensures Sorted(keys, Filter(p, s))
  {
    if s != [] {
      var init, last := s[..|s| - 1], s[|s| - 1];
      FilterSorted(keys, p, init);
      FilterSound(p, init);
      var f := Filter(p, init);
      forall i | 0 <= i < |f|
        ensures NotAfter(keys, f[i], last)
      {
        assert f[i] in f;
        var j :| 0 <= j < |init| && init[j] == f[i];
        assert s[j] == init[j];
      }
    }
  }

  // ---------------------------------------------------------------- unique keys

  ghost predicate DistinctBy<T>(key: T -> int, s: seq<T>) {
    forall i, j :: 0 <= i < j < |s| ==> key(s[i]) != key(s[j])
  }

  lemma {:induction false} FilterDistinct<T>(key: T -> int, p: T -> bool, s: seq<T>)
    requires DistinctBy(key, s)
    ensures DistinctBy(key, Filter(p, s))
  {
    if s != [] {
      var init := s[..|s| - 1];
      FilterDistinct(key, p, init);
      FilterSound(p, init);
      forall x | x in Filter(p, init)
        ensures key(x) != key(s[|s| - 1])
      {
        assert x in init;
      }
    }
  }

  lemma {:induction false} InsertDistinct<T>(keys: seq<T -> int>, key: T -> int, x: T, s: seq<T>)
    requires DistinctBy(key, s) && forall y :: y in s ==> key(y) != key(x)
    ensures DistinctBy(key, Insert(keys, x, s))
  {
    if s != [] {
      var init, last := s[..|s| - 1], s[|s| - 1];
      InsertDistinct(keys, key, x, init);
      var front := Insert(keys, x, init);
      forall y | y in front
        ensures key(y) != key(last)
      {
        assert y in multiset(front);
        assert y == x || y in multiset(init);
        assert y == x || y in init;
      }
    }
  }

  lemma {:induction false} SortDistinct<T>(keys: seq<T -> int>, key: T -> int, s: seq<T>)
    requires DistinctBy(key, s)
    ensures DistinctBy(key, SortBy(keys, s))
  {
    if s != [] {
      var init := s[..|s| - 1];
      SortDistinct(keys, key, init);
      InMultiset(SortBy(keys, init), init);
      InsertDistinct(keys, key, s[|s| - 1], SortBy(keys, init));
    }
  }

  /** A stable sort commutes with a filter: filtering a sorted result is sorting the filtered table. */
  lemma {:induction false} FilterSort<T>(keys: seq<T -> int>, p: T -> bool, s: seq<T>)
    ensures Filter(p, SortBy(keys, s)) == SortBy(keys, Filter(p, s))
  {
    if s != [] {
      var init, last := s[..|s| - 1], s[|s| - 1];
      assert s == init + [last];
      FilterSort(keys, p, init);
      SortSorted(keys, init);
      FilterInsert(keys, p, last, SortBy(keys, init));
      if p(last) {
        var f := Filter(p, s);
        assert f[..|f| - 1] == Filter(p, init);
      }
    }
  }

  function TiedWith<T>(keys: seq<T -> int>, x: T): T -> bool {
    (y: T) => NotAfter(keys, x, y) && NotAfter(keys, y, x)
  }

  lemma {:induction false} SortTied<T>(keys: seq<T -> int>, s: seq<T>)
    requires forall x, y :: x in s && y in s ==> NotAfter(keys, x, y)
    ensures SortBy(keys, s) == s
  {
    if s != [] {
      SortTied(keys, s[..|s| - 1]);
      assert s == s[..|s| - 1] + [s[|s| - 1]];
    }
  }

  /** Rows that are tied keep the order of the table. */
  lemma {:induction false} SortKeepsTies<T>(keys: seq<T -> int>, s: seq<T>, x: T)
    ensures Filter(TiedWith(keys, x), SortBy(keys, s)) == Filter(TiedWith(keys, x), s)
  {
    var tied := Filter(TiedWith(keys, x), s);
    FilterSort(keys, TiedWith(keys, x), s);
    FilterSound(TiedWith(keys, x), s);
    forall y, z | y in tied && z in tied
      ensures NotAfter(keys, y, z)
    {
      NotAfterTransitive(keys, y, x, z);
    }
    SortTied(keys, tied);
  }

  /** Of sorted rows chosen by `batch`, those of one owner are the sorted rows chosen for that owner. */
  lemma {:induction false} OwnAmongMany<T>(keys: seq<T -> int>, own: T -> bool, batch: T -> bool, alone: T -> bool,
                                           s: seq<T>)
    requires forall x :: x in s ==> (own(x) && batch(x)) == alone(x)
    ensures Filter(own, SortBy(keys, Filter(batch, s))) == SortBy(keys, Filter(alone, s))
  {
    FilterSort(keys, own, Filter(batch, s));
    FilterTwice(own, batch, s);
    FilterExtensional(x => own(x) && batch(x), alone, s);
  }

  // ---------------------------------------------------------------- SELECT

  /**
   * The parts of a query specification that decide which rows come back and in which order.
   * A limit or an offset of 0 is the unset value of the specification's integer field.
   */
  datatype Selection<!T> = Selection(predicates: seq<T -> bool>, order: seq<T -> int>, limit: nat, offset: nat)
  {
    function Where(p: T -> bool): Selection<T> {
      this.(predicates := predicates + [p])
    }

    predicate Holds(x: T) {
      forall i :: 0 <= i < |predicates| ==> predicates[i](x)
    }

    /** The WHERE clause as one predicate. */
    function Condition(): T -> bool {
      (x: T) => Holds(x)
    }

    predicate Unwindowed() {
      limit == 0 && offset == 0
    }
  }

  function Unrestricted<T>(): Selection<T> {
    Selection([], [], 0, 0)
  }

  /** Drop `offset` rows, then keep `limit` of them; 0 means no bound. */
  function Window<T>(limit: nat, offset: nat, s: seq<T>): (r: seq<T>)
    ensures limit != 0 ==> |r| <= limit
    ensures forall x :: x in r ==> x in s
  {
    var rest := if offset <= |s| then s[offset..] else [];
    if limit == 0 || |rest| <= limit then rest else rest[..limit]
  }

  /** The rows a selection returns from a table. */
  function Rows<T>(sel: Selection<T>, table: seq<T>): seq<T> {
    Window(sel.limit, sel.offset, SortBy(sel.order, Filter(sel.Condition(), table)))
  }

  lemma {:induction false} RowsSound<T>(sel: Selection<T>, table: seq<T>)
    ensures forall x :: x in Rows(sel, table) ==> x in table && sel.Holds(x)
    ensures sel.Unwindowed() ==> forall x :: x in table && sel.Holds(x) ==> x in Rows(sel, table)
  {
    var f := Filter(sel.Condition(), table);
    FilterSound(sel.Condition(), table);
    InMultiset(SortBy(sel.order, f), f);
  }

  /** The rows that a selection would return without its limit and its offset. */
  function Open<T>(sel: Selection<T>): Selection<T> {
    sel.(limit := 0, offset := 0)
  }

  /** What limit and offset leave of a list of rows: the next ones after the offset, as many as the limit allows. */
  ghost predicate IsPage<T>(page: seq<T>, all: seq<T>, limit: nat, offset: nat) {
    var left := if offset <= |all| then |all| - offset else 0;
    && |page| == (if limit != 0 && limit < left then limit else left)
    && forall k :: 0 <= k < |page| ==> page[k] == all[offset + k]
  }

  /**
   * What a selection returns: without limit and offset, the rows of the table that satisfy it, sorted by its
   * order terms, rows that are tied in the order of the table; and of these, the page that limit and offset ask for.
   */
  lemma {:induction false} RowsMean<T>(sel: Selection<T>, table: seq<T>)
    ensures var all := Rows(Open(sel), table);
            && multiset(all) == multiset(Filter(sel.Condition(), table))
            && Sorted(sel.order, all)
            && (forall x :: Filter(TiedWith(sel.order, x), all) ==
                            Filter(TiedWith(sel.order, x), Filter(sel.Condition(), table)))
            && IsPage(Rows(sel, table), all, sel.limit, sel.offset)
  {
    var found := Filter(sel.Condition(), table);
    assert forall x :: x in table ==> Open(sel).Condition()(x) == sel.Condition()(x);
    FilterExtensional(Open(sel).Condition(), sel.Condition(), table);
    SortSorted(sel.order, found);
    var all := SortBy(sel.order, found);
    assert all[0..] == all;
    forall x: T {
      SortKeepsTies(sel.order, found, x);
    }
  }

  lemma {:induction false} WhereHolds<T>(sel: Selection<T>, p: T -> bool, x: T)
    ensures sel.Where(p).Holds(x) <==> sel.Holds(x) && p(x)
  {
    var ps := sel.Where(p).predicates;
    assert ps[|ps| - 1] == p;
    if sel.Where(p).Holds(x) {
      forall i | 0 <= i < |sel.predicates|
        ensures sel.predicates[i](x)
      {
        assert ps[i](x);
      }
    }
  }

  /**
   * The heart of batching: asking for the rows of many owners at once and keeping those of one owner
   * gives the rows one would get by asking for that owner alone, in the same order.
   */
  lemma {:induction false} BatchedSelect<T>(sel: Selection<T>, batch: T -> bool, own: T -> bool, table: seq<T>)
    requires sel.Unwindowed()
    requires forall x :: x in table && own(x) ==> batch(x)
    ensures Filter(own, Rows(sel.Where(batch), table)) == Rows(sel.Where(own), table)
  {
    var many, one := sel.Where(batch), sel.Where(own);
    forall x | x in table
      ensures (own(x) && many.Condition()(x)) == one.Condition()(x)
    {
      WhereHolds(sel, batch, x);
      WhereHolds(sel, own, x);
    }
    OwnAmongMany(sel.order, own, many.Condition(), one.Condition(), table);
  }

  /** Rows of a table with a unique key have a unique key. */
  lemma {:induction false} RowsDistinct<T>(sel: Selection<T>, key: T -> int, table: seq<T>)
    requires DistinctBy(key, table)
    ensures DistinctBy(key, Rows(sel, table))
  {
    FilterDistinct(key, sel.Condition(), table);
    SortDistinct(sel.order, key, Filter(sel.Condition(), table));
  }
}
