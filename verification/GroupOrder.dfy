/**
 * The order of an account's groups after many-to-many loading: it is that of the whole batch, and this
 * module says exactly when that is the order the account would get if it were loaded alone.
 */
module GroupOrder {
  import opened Tables
  import opened Queries
  import opened BatchedLoading

  function Own(accountID: int): JoinRow -> bool {
    (r: JoinRow) => r.accountID == accountID
  }

  /** The rows of one account. */
  function OwnRows(rows: seq<JoinRow>, accountID: int): seq<JoinRow> {
    Filter(Own(accountID), rows)
  }

  /** Some row names group `g` before any row names group `h`. */
  predicate NamedBefore(rows: seq<JoinRow>, g: int, h: int) {
    exists i :: 0 <= i < |rows| && rows[i].group.id == g && forall j :: 0 <= j <= i ==> rows[j].group.id != h
  }

  /** Of the groups of one account, `rows` names them in the order in which `others` does. */
  ghost predicate KeepsOrder(rows: seq<JoinRow>, others: seq<JoinRow>, accountID: int) {
    forall g, h {:trigger NamedBefore(rows, g, h)} ::
      (Linked(rows, accountID, g) && Linked(rows, accountID, h) && NamedBefore(others, g, h)) ==>
          NamedBefore(rows, g, h)
  }

  /** Rows with the same group id hold the same group, as they do when they come from a table of groups. */
  ghost predicate OneGroupPerID(rows: seq<JoinRow>) {
    forall r, s :: r in rows && s in rows && r.group.id == s.group.id ==> r.group == s.group
  }

  lemma {:induction false} NotBothBefore(rows: seq<JoinRow>, g: int, h: int)
    ensures !(NamedBefore(rows, g, h) && NamedBefore(rows, h, g))
  {
    if NamedBefore(rows, g, h) {
      var i :| 0 <= i < |rows| && rows[i].group.id == g && forall j :: 0 <= j <= i ==> rows[j].group.id != h;
      forall k | 0 <= k < |rows| && rows[k].group.id == h
        ensures !(forall j :: 0 <= j <= k ==> rows[j].group.id != g)
      {
        assert i < k;
      }
    }
  }

  ghost predicate InOrder(rows: seq<JoinRow>, gs: seq<Group>) {
    forall i, j :: 0 <= i < j < |gs| ==> NamedBefore(rows, gs[i].id, gs[j].id)
  }

  lemma {:induction false} NamedBeforeGrows(rows: seq<JoinRow>, r: JoinRow, g: int, h: int)
    requires NamedBefore(rows, g, h)
    ensures NamedBefore(rows + [r], g, h)
  {
    var i :| 0 <= i < |rows| && rows[i].group.id == g && forall j :: 0 <= j <= i ==> rows[j].group.id != h;
    assert (rows + [r])[i].group.id == g;
  }

  lemma {:induction false} NeighboursInOrder(rows: seq<JoinRow>)
    ensures InOrder(rows, Neighbours(rows))
  {
    if rows != [] {
      var n := |rows| - 1;
      var init, last := rows[..n], rows[n];
      var gs := Neighbours(init);
      assert rows == init + [last];
      NeighboursInOrder(init);
      NeighboursOfRows(init);
      forall i, j | 0 <= i < j < |gs|
        ensures NamedBefore(rows, gs[i].id, gs[j].id)
      {
        NamedBeforeGrows(init, last, gs[i].id, gs[j].id);
      }
      if !Known(gs, last.group.id) {
        forall i | 0 <= i < |gs|
          ensures NamedBefore(rows, gs[i].id, last.group.id)
        {
          assert gs[i] in gs;
          var k :| 0 <= k < |init| && init[k].group == gs[i];
          assert NamedBefore(init, gs[i].id, last.group.id);
          NamedBeforeGrows(init, last, gs[i].id, last.group.id);
        }
      }
    }
  }

  lemma {:induction false} SameOrderSameList(rows: seq<JoinRow>, s: seq<Group>, t: seq<Group>)
    requires DistinctGroups(s) && DistinctGroups(t) && InOrder(rows, s) && InOrder(rows, t)
    requires forall g :: g in s <==> g in t
    ensures s == t
  {
    hide NamedBefore;
    EmptyTogether(s, t);
    if s != [] {
      SameLastInOrder(rows, s, t);
      WithoutLast(s, t);
      SameOrderSameList(rows, s[..|s| - 1], t[..|t| - 1]);
      assert s == s[..|s| - 1] + [s[|s| - 1]] && t == t[..|t| - 1] + [t[|t| - 1]];
    }
  }

  lemma {:induction false} SameLastInOrder(rows: seq<JoinRow>, s: seq<Group>, t: seq<Group>)
    requires InOrder(rows, s) && InOrder(rows, t) && s != [] && t != []
    requires forall g :: g in s <==> g in t
    ensures s[|s| - 1] == t[|t| - 1]
  {
    var x, y := s[|s| - 1], t[|t| - 1];
    assert x in t && y in s;
    var i :| 0 <= i < |t| && t[i] == x;
    var j :| 0 <= j < |s| && s[j] == y;
    NotBothBefore(rows, x.id, y.id);
    hide NamedBefore;
    assert i < |t| - 1 ==> NamedBefore(rows, x.id, y.id);
    assert j < |s| - 1 ==> NamedBefore(rows, y.id, x.id);
  }

  lemma {:induction false} KnownGroup(rows: seq<JoinRow>, r: JoinRow)
    requires OneGroupPerID(rows) && r in rows
    ensures r.group in Neighbours(rows)
  {
    NeighboursOfRows(rows);
    var i :| 0 <= i < |rows| && rows[i] == r;
    var gs := Neighbours(rows);
    var k :| 0 <= k < |gs| && gs[k].id == r.group.id;
    assert gs[k] in gs;
    var m :| 0 <= m < |rows| && rows[m].group == gs[k];
    assert rows[m] in rows;
  }

  /** The groups of an account are those of its own rows, each once. */
  lemma {:induction false} GroupsOfMeans(rows: seq<JoinRow>, accountID: int)
    requires OneGroupPerID(rows)
    ensures var gs := GroupsOf(rows, accountID);
            DistinctGroups(gs) && forall g :: g in gs <==> JoinRow(accountID, g) in rows
  {
    NeighboursOfRows(rows);
    FilterSound(LinkedTo(rows, accountID), Neighbours(rows));
    FilterDistinct(GroupID(), LinkedTo(rows, accountID), Neighbours(rows));
    forall g | g in GroupsOf(rows, accountID)
      ensures JoinRow(accountID, g) in rows
    {
      var i :| 0 <= i < |rows| && rows[i].accountID == accountID && rows[i].group.id == g.id;
      var k :| 0 <= k < |rows| && rows[k].group == g;
      assert rows[i] in rows && rows[k] in rows;
    }
    forall g | JoinRow(accountID, g) in rows
      ensures g in GroupsOf(rows, accountID)
    {
      KnownGroup(rows, JoinRow(accountID, g));
      var k :| 0 <= k < |rows| && rows[k] == JoinRow(accountID, g);
      assert Linked(rows, accountID, g.id);
    }
  }

  lemma {:induction false} GroupsInOrder(rows: seq<JoinRow>, accountID: int)
    ensures InOrder(rows, GroupsOf(rows, accountID))
  {
    NeighboursInOrder(rows);
    FilterInOrder(rows, LinkedTo(rows, accountID), Neighbours(rows));
  }

  lemma {:induction false} FilterInOrder(rows: seq<JoinRow>, p: Group -> bool, gs: seq<Group>)
    requires InOrder(rows, gs)
    ensures InOrder(rows, Filter(p, gs))
  {
    if gs != [] {
      var init, last := gs[..|gs| - 1], gs[|gs| - 1];
      FilterInOrder(rows, p, init);
      FilterSound(p, init);
      var f := Filter(p, init);
      hide NamedBefore;
      forall i | 0 <= i < |f|
        ensures NamedBefore(rows, f[i].id, last.id)
      {
        assert f[i] in f;
        var j :| 0 <= j < |init| && init[j] == f[i];
        assert gs[j] == init[j];
      }
    }
  }

  lemma {:induction false} LinkedMeans(rows: seq<JoinRow>, accountID: int, g: int)
    ensures Linked(rows, accountID, g) <==> exists r :: r in rows && r.accountID == accountID && r.group.id == g
  {
    if r :| r in rows && r.accountID == accountID && r.group.id == g {
      var i :| 0 <= i < |rows| && rows[i] == r;
    }
    if Linked(rows, accountID, g) {
      var i :| 0 <= i < |rows| && rows[i].accountID == accountID && rows[i].group.id == g;
      assert rows[i] in rows;
    }
  }

  lemma {:induction false} LinkedGroup(rows: seq<JoinRow>, accountID: int, g: int)
    requires OneGroupPerID(rows)
    ensures Linked(rows, accountID, g) <==> Known(GroupsOf(rows, accountID), g)
  {
    GroupsOfMeans(rows, accountID);
    LinkedMeans(rows, accountID, g);
    hide GroupsOf, Linked;
    var gs := GroupsOf(rows, accountID);
    if r :| r in rows && r.accountID == accountID && r.group.id == g {
      assert r == JoinRow(accountID, r.group);
      var i :| 0 <= i < |gs| && gs[i] == r.group;
    }
    if Known(gs, g) {
      var i :| 0 <= i < |gs| && gs[i].id == g;
      assert gs[i] in gs;
    }
  }

  /** Two lists of rows give an account the same groups in the same order iff they link and order the same. */
  lemma {:induction false} SameGroupListIff(rows: seq<JoinRow>, others: seq<JoinRow>, accountID: int)
    requires OneGroupPerID(rows + others)
    ensures GroupsOf(rows, accountID) == GroupsOf(others, accountID) <==>
            (forall g :: Linked(rows, accountID, g) <==> Linked(others, accountID, g)) &&
              KeepsOrder(rows, others, accountID)
  {
    assert forall r :: r in rows + others <==> r in rows || r in others;
    var s, t := GroupsOf(rows, accountID), GroupsOf(others, accountID);
    GroupsOfMeans(rows, accountID);
    GroupsOfMeans(others, accountID);
    GroupsInOrder(rows, accountID);
    GroupsInOrder(others, accountID);
    forall g
      ensures Linked(rows, accountID, g) <==> Known(s, g)
      ensures Linked(others, accountID, g) <==> Known(t, g)
    {
      LinkedGroup(rows, accountID, g);
      LinkedGroup(others, accountID, g);
    }
    hide NamedBefore, GroupsOf, Linked;
    if s == t {
      forall g, h | Linked(rows, accountID, g) && Linked(rows, accountID, h) && NamedBefore(others, g, h)
        ensures NamedBefore(rows, g, h)
      {
        var i :| 0 <= i < |t| && t[i].id == g;
        var j :| 0 <= j < |t| && t[j].id == h;
        NotBothBefore(others, g, h);
        assert j < i ==> NamedBefore(others, h, g);
        assert i == j ==> g == h;
      }
    }
    if (forall g :: Linked(rows, accountID, g) <==> Linked(others, accountID, g)) &&
      KeepsOrder(rows, others, accountID) {
      SameMembers(rows, others, accountID);
      forall i, j | 0 <= i < j < |t|
        ensures NamedBefore(rows, t[i].id, t[j].id)
      {
        assert Known(t, t[i].id) && Known(t, t[j].id);
      }
      SameOrderSameList(rows, s, t);
    }
  }

  lemma {:induction false} SameMembers(rows: seq<JoinRow>, others: seq<JoinRow>, accountID: int)
    requires OneGroupPerID(rows + others)
    requires forall g :: Linked(rows, accountID, g) <==> Linked(others, accountID, g)
    ensures forall g :: g in GroupsOf(rows, accountID) <==> g in GroupsOf(others, accountID)
  {
    assert forall r :: r in rows + others <==> r in rows || r in others;
    GroupsOfMeans(rows, accountID);
    GroupsOfMeans(others, accountID);
    hide GroupsOf, Linked;
    forall g: Group
      ensures JoinRow(accountID, g) in rows <==> JoinRow(accountID, g) in others
    {
      LinkedMeans(rows, accountID, g.id);
      LinkedMeans(others, accountID, g.id);
    }
  }

  lemma {:induction false} OwnRowsSound(rows: seq<JoinRow>, accountID: int)
    requires OneGroupPerID(rows)
    ensures var own := OwnRows(rows, accountID);
            && OneGroupPerID(rows + own) && GroupsOf(own, accountID) == Neighbours(own)
            && forall g :: Linked(own, accountID, g) <==> Linked(rows, accountID, g)
  {
    var own := OwnRows(rows, accountID);
    FilterSound(Own(accountID), rows);
    assert forall r :: r in rows + own <==> r in rows || r in own;
    NeighboursOfRows(own);
    forall g
      ensures Linked(own, accountID, g) <==> Linked(rows, accountID, g)
    {
      LinkedMeans(own, accountID, g);
      LinkedMeans(rows, accountID, g);
    }
    forall g | g in Neighbours(own)
      ensures Linked(own, accountID, g.id)
    {
      var i :| 0 <= i < |own| && own[i].group == g;
      assert own[i] in own;
    }
    KeepsAll(LinkedTo(own, accountID), Neighbours(own));
  }

  /**
   * An account's groups come in the order of its own rows if and only if no row of another account names
   * one of its groups early enough to change their order.
   */
  lemma {:induction false} GroupsInRowOrderIff(rows: seq<JoinRow>, accountID: int)
    requires OneGroupPerID(rows)
    ensures GroupsOf(rows, accountID) == Neighbours(OwnRows(rows, accountID)) <==>
            KeepsOrder(rows, OwnRows(rows, accountID), accountID)
  {
    OwnRowsSound(rows, accountID);
    SameGroupListIff(rows, OwnRows(rows, accountID), accountID);
  }

  // ---------------------------------------------------------------- the same for a database

  /** The rows of one account in a batch are those of the query for this account alone. */
  lemma {:induction false} OwnRowsAlone(sel: Selection<Group>, owners: seq<int>, db: Database, accountID: int)
    requires sel.Unwindowed() && accountID in owners
    ensures OwnRows(JoinRows(sel, owners, db), accountID) == JoinRows(sel, [accountID], db)
  {
    hide Join, Filter, SortBy, LiftKeys;
    OwnAmongMany(LiftKeys(sel.order), Own(accountID), Joined(sel, owners), Joined(sel, [accountID]),
                 Join(db.accountGroups, db.groups));
  }

  lemma {:induction false} AloneIsOwn(sel: Selection<Group>, db: Database, accountID: int)
    requires sel.Unwindowed()
    ensures var rows := JoinRows(sel, [accountID], db); GroupsOf(rows, accountID) == Neighbours(rows)
  {
    var rows := JoinRows(sel, [accountID], db);
    NeighboursOfRows(rows);
    forall g | g in Neighbours(rows)
      ensures Linked(rows, accountID, g.id)
    {
      var i :| 0 <= i < |rows| && rows[i].group == g;
      JoinRowsMember(sel, [accountID], db, rows[i]);
    }
    KeepsAll(LinkedTo(rows, accountID), Neighbours(rows));
  }

  lemma {:induction false} JoinRowsConsistent(sel: Selection<Group>, owners: seq<int>, db: Database)
    requires db.Valid() && sel.Unwindowed()
    ensures OneGroupPerID(JoinRows(sel, owners, db))
  {
    var rows := JoinRows(sel, owners, db);
    forall r, s | r in rows && s in rows && r.group.id == s.group.id
      ensures r.group == s.group
    {
      JoinRowsMember(sel, owners, db, r);
      JoinRowsMember(sel, owners, db, s);
      SameID(db, r.group, s.group);
    }
  }

  /** Loading an account in a batch gives its groups in the order of loading it alone iff the batch keeps that order. */
  lemma {:induction false} BatchKeepsGroupOrderIff(sel: Selection<Group>, owners: seq<int>, db: Database,
                                                   accountID: int)
    requires db.Valid() && sel.Unwindowed() && accountID in owners
    ensures GroupsOf(JoinRows(sel, owners, db), accountID) == GroupsOf(JoinRows(sel, [accountID], db), accountID) <==>
            KeepsOrder(JoinRows(sel, owners, db), JoinRows(sel, [accountID], db), accountID)
  {
    JoinRowsConsistent(sel, owners, db);
    OwnRowsAlone(sel, owners, db, accountID);
    AloneIsOwn(sel, db, accountID);
    GroupsInRowOrderIff(JoinRows(sel, owners, db), accountID);
  }

  // ---------------------------------------------------------------- a database where it differs

  lemma {:induction false} SortByNothing<T>(s: seq<T>)
    ensures SortBy([], s) == s
  {
    if s != [] {
      SortByNothing(s[..|s| - 1]);
      assert s == s[..|s| - 1] + [s[|s| - 1]];
    }
  }

  lemma {:induction false} JoinSnoc(links: seq<AccountGroup>, link: AccountGroup, groups: seq<Group>, g: Group)
    requires Filter(HasGroupID(link.groupID), groups) == [g]
    ensures Join(links + [link], groups) == Join(links, groups) + [JoinRow(link.accountID, g)]
  {
    assert (links + [link])[..|links|] == links;
    assert JoinOne(link, groups) == [JoinRow(link.accountID, g)];
  }

  lemma {:induction false} FindsOne(g: Group, h: Group)
    requires g.id != h.id
    ensures Filter(HasGroupID(g.id), [g] + [h]) == [g] && Filter(HasGroupID(h.id), [g] + [h]) == [h]
  {
    FilterAppend(HasGroupID(g.id), [g], [h]);
    FilterAppend(HasGroupID(h.id), [g], [h]);
    FilterOne(HasGroupID(g.id), g);
    FilterOne(HasGroupID(g.id), h);
    FilterOne(HasGroupID(h.id), g);
    FilterOne(HasGroupID(h.id), h);
  }

  function TwoAccounts(a: int, b: int, g: Group, h: Group): Database {
    Database([AccountRow(a, None, None, map[]), AccountRow(b, None, None, map[])], [g] + [h], [], [],
             [AccountGroup(b, h.id, map[])] + [AccountGroup(a, g.id, map[])] + [AccountGroup(a, h.id, map[])])
  }

  /** Account `a` gets `h` first in a batch with `b`, whose join row names `h` earlier, and `g` first on its own. */
  lemma {:induction false} BatchChangesGroupOrder(a: int, b: int, g: Group, h: Group)
    requires a != b && g.id != h.id
    ensures var db := TwoAccounts(a, b, g, h);
            && db.Valid()
            && GroupsOf(JoinRows(Unrestricted(), [a, b], db), a) == [h] + [g]
            && GroupsOf(JoinRows(Unrestricted(), [a], db), a) == [g] + [h]
  {
    TwoAccountsRows(a, b, g, h);
    TwoAccountsValid(a, b, g, h);
    hide JoinRows, GroupsOf, TwoAccounts;
    GroupsInBatch(JoinRow(b, h), JoinRow(a, g), JoinRow(a, h));
    GroupsAlone(JoinRow(a, g), JoinRow(a, h));
  }

  lemma {:induction false} TwoAccountsValid(a: int, b: int, g: Group, h: Group)
    requires a != b && g.id != h.id
    ensures TwoAccounts(a, b, g, h).Valid()
  {
    var gs := [g] + [h];
    assert gs[0] == g && gs[1] == h;
  }

  lemma {:induction false} GroupsInBatch(bh: JoinRow, ag: JoinRow, ah: JoinRow)
    requires bh.group == ah.group && ag.group.id != ah.group.id && ag.accountID == ah.accountID
    ensures GroupsOf([bh] + [ag] + [ah], ag.accountID) == [ah.group] + [ag.group]
  {
    var all := [bh] + [ag] + [ah];
    assert all[1] == ag && all[2] == ah;
    NeighboursOfThree(bh, ag, ah);
    hide Neighbours, Linked, GroupsOf;
    LinkedAt(all, 1);
    LinkedAt(all, 2);
    GroupsOfTwo(all, ag.accountID, ah.group, ag.group);
  }

  lemma {:induction false} GroupsAlone(ag: JoinRow, ah: JoinRow)
    requires ag.group.id != ah.group.id && ag.accountID == ah.accountID
    ensures GroupsOf([ag] + [ah], ag.accountID) == [ag.group] + [ah.group]
  {
    var own := [ag] + [ah];
    assert own[0] == ag && own[1] == ah;
    NeighboursOfTwo(ag, ah);
    hide Neighbours, Linked, GroupsOf;
    LinkedAt(own, 0);
    LinkedAt(own, 1);
    GroupsOfTwo(own, ag.accountID, ag.group, ah.group);
  }

  lemma {:induction false} LinkedAt(rows: seq<JoinRow>, i: nat)
    requires i < |rows|
    ensures Linked(rows, rows[i].accountID, rows[i].group.id)
  {
  }

  lemma {:induction false} TwoAccountsJoined(a: int, b: int, g: Group, h: Group)
    requires g.id != h.id
    ensures var db := TwoAccounts(a, b, g, h);
            Join(db.accountGroups, db.groups) == [JoinRow(b, h)] + [JoinRow(a, g)] + [JoinRow(a, h)]
  {
    var gs := [g] + [h];
    var l1, l2, l3 := AccountGroup(b, h.id, map[]), AccountGroup(a, g.id, map[]), AccountGroup(a, h.id, map[]);
    FindsOne(g, h);
    assert Join([], gs) == [] && [] + [l1] == [l1] && [] + [JoinRow(b, h)] == [JoinRow(b, h)];
    hide Join, Filter;
    JoinSnoc([], l1, gs, h);
    JoinSnoc([l1], l2, gs, g);
    JoinSnoc([l1] + [l2], l3, gs, h);
  }

  lemma {:induction false} TwoAccountsRows(a: int, b: int, g: Group, h: Group)
    requires a != b && g.id != h.id
    ensures var db := TwoAccounts(a, b, g, h);
            && JoinRows(Unrestricted(), [a, b], db) == [JoinRow(b, h)] + [JoinRow(a, g)] + [JoinRow(a, h)]
            && JoinRows(Unrestricted(), [a], db) == [JoinRow(a, g)] + [JoinRow(a, h)]
  {
    TwoAccountsJoined(a, b, g, h);
    var all: seq<JoinRow> := [JoinRow(b, h)] + [JoinRow(a, g)] + [JoinRow(a, h)];
    hide Join, Filter, SortBy, TwoAccounts;
    KeepsAll(Joined(Unrestricted(), [a, b]), all);
    KeptOfThree(a, b, g, h);
    SortByNothing(all);
    SortByNothing([JoinRow(a, g)] + [JoinRow(a, h)]);
    hide Joined;
    assert all[0..] == all;
  }

  lemma {:induction false} KeptOfThree(a: int, b: int, g: Group, h: Group)
    requires a != b
    ensures Filter(Joined(Unrestricted(), [a]), [JoinRow(b, h)] + [JoinRow(a, g)] + [JoinRow(a, h)]) ==
              [JoinRow(a, g)] + [JoinRow(a, h)]
  {
    var p := Joined(Unrestricted(), [a]);
    var bh, ag, ah := JoinRow(b, h), JoinRow(a, g), JoinRow(a, h);
    assert !p(bh) && p(ag) && p(ah);
    hide Filter, Joined;
    FilterAppend(p, [bh] + [ag], [ah]);
    FilterAppend(p, [bh], [ag]);
    FilterOne(p, bh);
    FilterOne(p, ag);
    FilterOne(p, ah);
    assert [] + [ag] == [ag];
  }

  lemma {:induction false} NeighboursOfTwo(x: JoinRow, y: JoinRow)
    requires x.group.id != y.group.id
    ensures Neighbours([x] + [y]) == [x.group] + [y.group]
  {
    NeighboursSnoc([], x);
    NeighboursSnoc([x], y);
    assert [] + [x] == [x];
  }

  lemma {:induction false} NeighboursOfThree(x: JoinRow, y: JoinRow, z: JoinRow)
    requires x.group.id != y.group.id && z.group.id == x.group.id
    ensures Neighbours([x] + [y] + [z]) == [x.group] + [y.group]
  {
    hide Neighbours;
    NeighboursOfTwo(x, y);
    NeighboursSnoc([x] + [y], z);
    assert ([x.group] + [y.group])[0].id == z.group.id;
  }

  lemma {:induction false} GroupsOfTwo(rows: seq<JoinRow>, a: int, x: Group, y: Group)
    requires Neighbours(rows) == [x] + [y]
    requires Linked(rows, a, x.id) && Linked(rows, a, y.id)
    ensures GroupsOf(rows, a) == [x] + [y]
  {
    hide Neighbours, Linked;
    FilterSnoc(LinkedTo(rows, a), [], x);
    FilterSnoc(LinkedTo(rows, a), [x], y);
    assert [] + [x] == [x];
  }
}
