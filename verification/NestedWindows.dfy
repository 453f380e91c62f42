/**
 * A limit or an offset on a nested query applies to the batch for all nodes. For every edge whose rows
 * reach some node for sure, it is harmless exactly if it cuts nothing off that batch.
 */
module NestedWindows {
  import opened Tables
  import opened Queries
  import opened BatchedLoading
  import opened LoadingLaws
  import opened GroupOrder

  function Unbounded(sub: Query): Query {
    sub.(selection := sub.selection.(limit := 0, offset := 0))
  }

  /** The window leaves `total` rows as they are. */
  predicate CutsNothing<T>(sel: Selection<T>, total: nat) {
    (sel.offset == 0 || total == 0) && (sel.limit == 0 || total <= sel.limit)
  }

  lemma {:induction false} WindowCuts<T>(sel: Selection<T>, table: seq<T>)
    ensures var all := Rows(sel.(limit := 0, offset := 0), table);
            if CutsNothing(sel, |all|) then Rows(sel, table) == all else |Rows(sel, table)| < |all|
  {
    var open := sel.(limit := 0, offset := 0);
    assert forall x :: x in table ==> open.Condition()(x) == sel.Condition()(x);
    FilterExtensional(open.Condition(), sel.Condition(), table);
  }

  // ---------------------------------------------------------------- children

  /**
   * A nested children query with a limit or an offset still gives every node all its children exactly
   * if the window cuts nothing off the whole batch; each node having few children is not enough.
   */
  lemma {:induction false} NestedWindowExact(q: Query, db: Database)
    requires db.Valid() && q.children.Some?
    ensures var sub := q.children.value;
            var batch := ChildrenQuery(Unbounded(sub), IDs(SelectedRows(q, db)));
            var nodes, all := Load(q, db), Load(q.(children := Some(Unbounded(sub))), db);
            |nodes| == |all| &&
            ((forall i :: 0 <= i < |nodes| ==> nodes[i].children == all[i].children) <==>
             CutsNothing(sub.selection, |Rows(batch.selection, db.accounts)|))
  {
    var sub, owners := q.children.value, IDs(SelectedRows(q, db));
    var full := q.(children := Some(Unbounded(sub)));
    var cut, batch := ChildrenQuery(sub, owners), ChildrenQuery(Unbounded(sub), owners);
    assert SelectedRows(full, db) == SelectedRows(q, db);
    assert cut.selection.(limit := 0, offset := 0) == batch.selection;
    WindowCuts(cut.selection, db.accounts);
    ChildListsLoaded(q, db);
    ChildListsLoaded(full, db);
    if CutsNothing(sub.selection, |Rows(batch.selection, db.accounts)|) {
      SameLoad(batch, cut, db);
      assert ChildrenOfAll(Load(q, db)) == ChildrenOfAll(Load(full, db));
      forall i | 0 <= i < |Load(q, db)|
        ensures Load(q, db)[i].children == Load(full, db)[i].children
      {
        assert ChildrenOfAll(Load(q, db))[i] == ChildrenOfAll(Load(full, db))[i];
      }
    } else {
      ChildrenArePartitioned(q, db);
      ChildrenArePartitioned(full, db);
      if forall i :: 0 <= i < |Load(q, db)| ==> Load(q, db)[i].children == Load(full, db)[i].children {
        assert ChildrenOfAll(Load(q, db)) == ChildrenOfAll(Load(full, db));
        InMultiset(Load(cut, db), Load(batch, db));
        assert false;
      }
    }
  }

  // ---------------------------------------------------------------- a database where a limit harms

  /** Two accounts without a parent, and one child of each. */
  predicate Families(a: AccountRow, b: AccountRow, c: AccountRow, d: AccountRow) {
    && a.id != b.id && c.id != a.id && c.id != b.id && d.id != a.id && d.id != b.id && d.id != c.id
    && a.parent.None? && b.parent.None? && c.parent == Some(a.id) && d.parent == Some(b.id)
  }

  function FamilyTables(a: AccountRow, b: AccountRow, c: AccountRow, d: AccountRow): Database {
    Database([a] + [b] + ([c] + [d]), [], [], [], [])
  }

  function WithChildren(limit: nat): Query {
    EmptyQuery().(children := Some(EmptyQuery().(selection := Selection([], [], limit, 0))))
  }

  /** Scanned rows of a query without projection, order or offset. */
  lemma {:induction false} PlainRows(q: Query, db: Database, found: seq<AccountRow>)
    requires q.fields == [] && q.selection.order == [] && q.selection.offset == 0
    requires Filter(q.selection.Condition(), db.accounts) == found
    ensures SelectedRows(q, db) ==
            if q.selection.limit == 0 || |found| <= q.selection.limit then found else found[..q.selection.limit]
  {
    SortByNothing(found);
    assert found[0..] == found;
    var rows := Rows(q.selection, db.accounts);
    assert ProjectAll([], rows) == rows;
  }

  lemma {:induction false} FilterFour<T>(p: T -> bool, a: T, b: T, c: T, d: T)
    ensures Filter(p, [a] + [b] + ([c] + [d])) ==
            (if p(a) then [a] else []) + (if p(b) then [b] else []) +
            ((if p(c) then [c] else []) + (if p(d) then [d] else []))
  {
    hide Filter;
    FilterOne(p, a);
    FilterOne(p, b);
    FilterOne(p, c);
    FilterOne(p, d);
    FilterAppend(p, [a], [b]);
    FilterAppend(p, [c], [d]);
    FilterAppend(p, [a] + [b], [c] + [d]);
  }

  lemma {:induction false} ChildRows(q: Query, db: Database, i: nat)
    requires q.children.Some? && i < |Load(q, db)|
    ensures var ids := IDs(SelectedRows(q, db));
            RowsOf(Load(q, db)[i].children) ==
            Filter(RowHasParent(ids[i]), SelectedRows(ChildrenQuery(q.children.value, ids), db))
  {
    var ids := IDs(SelectedRows(q, db));
    var batch := ChildrenQuery(q.children.value, ids);
    LoadedAt(q, i, db);
    hide Load, SelectedRows;
    RowsOfLoaded(batch, db);
    RowsOfFiltered(HasParent(ids[i]), RowHasParent(ids[i]), Load(batch, db));
  }

  lemma {:induction false} FamilyRows(a: AccountRow, b: AccountRow, c: AccountRow, d: AccountRow, limit: nat)
    requires Families(a, b, c, d)
    ensures var db, q := FamilyTables(a, b, c, d), WithChildren(limit);
            && SelectedRows(q, db) == [a] + [b] + ([c] + [d])
            && SelectedRows(ChildrenQuery(q.children.value, IDs(SelectedRows(q, db))), db) ==
               if limit == 1 then [c] else [c] + [d]
  {
    var db, q, rows := FamilyTables(a, b, c, d), WithChildren(limit), [a] + [b] + ([c] + [d]);
    KeepsAll(q.selection.Condition(), rows);
    PlainRows(q, db, rows);
    var ids := IDs(rows);
    var batch := ChildrenQuery(q.children.value, ids);
    FamilyBatch(a, b, c, d, q.children.value.selection);
    PlainRows(batch, db, [c] + [d]);
    assert ([c] + [d])[..1] == [c];
  }

  lemma {:induction false} FamilyBatch(a: AccountRow, b: AccountRow, c: AccountRow, d: AccountRow,
                                       sub: Selection<AccountRow>)
    requires Families(a, b, c, d) && sub.predicates == []
    ensures var rows := [a] + [b] + ([c] + [d]);
            Filter(sub.Where(ParentIn(IDs(rows))).Condition(), rows) == [c] + [d]
  {
    var rows := [a] + [b] + ([c] + [d]);
    var ids := IDs(rows);
    assert ids[0] == a.id && ids[1] == b.id;
    var p := sub.Where(ParentIn(ids)).Condition();
    forall r
      ensures p(r) == ParentIn(ids)(r)
    {
      WhereHolds(sub, ParentIn(ids), r);
    }
    assert !p(a) && !p(b) && p(c) && p(d);
    hide Filter, Families;
    FilterFour(p, a, b, c, d);
  }

  lemma {:induction false} FamilyNodes(a: AccountRow, b: AccountRow, c: AccountRow, d: AccountRow, limit: nat)
    requires Families(a, b, c, d)
    ensures var nodes := Load(WithChildren(limit), FamilyTables(a, b, c, d));
            && |nodes| == 4 && nodes[0].row == a && nodes[1].row == b
            && RowsOf(nodes[0].children) == [c]
            && RowsOf(nodes[1].children) == if limit == 1 then [] else [d]
  {
    var db, q := FamilyTables(a, b, c, d), WithChildren(limit);
    FamilyRows(a, b, c, d, limit);
    var rows := SelectedRows(q, db);
    assert rows[0] == a && rows[1] == b && |rows| == 4;
    hide Load, SelectedRows, Filter, FamilyTables;
    ChildRows(q, db, 0);
    ChildRows(q, db, 1);
    FilterOne(RowHasParent(a.id), c);
    FilterOne(RowHasParent(b.id), c);
    FilterOne(RowHasParent(a.id), d);
    FilterOne(RowHasParent(b.id), d);
    FilterAppend(RowHasParent(a.id), [c], [d]);
    FilterAppend(RowHasParent(b.id), [c], [d]);
  }

  lemma {:induction false} FamiliesValid(a: AccountRow, b: AccountRow, c: AccountRow, d: AccountRow)
    requires Families(a, b, c, d)
    ensures FamilyTables(a, b, c, d).Valid()
  {
    var rows := FamilyTables(a, b, c, d).accounts;
    assert rows[0] == a && rows[1] == b && rows[2] == c && rows[3] == d;
  }

  /**
   * Of two accounts with one child each, a limit of 1 on the nested query leaves the second one without its
   * child, although neither has more children than the limit.
   */
  lemma {:induction false} LimitTakesAnothersChild(a: AccountRow, b: AccountRow, c: AccountRow, d: AccountRow)
    requires Families(a, b, c, d)
    ensures var db := FamilyTables(a, b, c, d);
            var cut, all := Load(WithChildren(1), db), Load(WithChildren(0), db);
            && db.Valid() && |cut| == |all| == 4 && cut[0].row == all[0].row == a && cut[1].row == all[1].row == b
            && RowsOf(cut[0].children) == RowsOf(all[0].children) == [c]
            && cut[1].children == [] && RowsOf(all[1].children) == [d]
  {
    FamilyNodes(a, b, c, d, 0);
    FamilyNodes(a, b, c, d, 1);
    FamiliesValid(a, b, c, d);
    hide Load, FamilyTables, WithChildren;
  }

  // ---------------------------------------------------------------- owned rows

  /** Every owner keeps its rows exactly if the window cuts nothing off the rows of all owners. */
  lemma {:induction false} OwnersKeepRowsIff<T(!new)>(sel: Selection<T>, own: int -> (T -> bool), owners: seq<int>,
                                                      table: seq<T>)
    requires OwnedByOne(own) && forall i, j :: 0 <= i < j < |owners| ==> owners[i] != owners[j]
    requires forall x :: sel.Holds(x) ==> exists id :: id in owners && own(id)(x)
    ensures var cut, all := Rows(sel, table), Rows(Open(sel), table);
            (forall i :: 0 <= i < |owners| ==> Filter(own(owners[i]), cut) == Filter(own(owners[i]), all)) <==>
            CutsNothing(sel, |all|)
  {
    var cut, all := Rows(sel, table), Rows(Open(sel), table);
    WindowCuts(sel, table);
    assert forall x :: Open(sel).Holds(x) ==> sel.Holds(x);
    OwnedArePartitioned(sel, own, owners, table);
    OwnedArePartitioned(Open(sel), own, owners, table);
    hide Rows, Filter, CutsNothing;
    if forall i :: 0 <= i < |owners| ==> Filter(own(owners[i]), cut) == Filter(own(owners[i]), all) {
      assert ListsOf(own, owners, cut) == ListsOf(own, owners, all);
      InMultiset(cut, all);
    }
  }

  /** The same for usage logs. */
  lemma {:induction false} UsageLogsWindowExact(q: Query, db: Database)
    requires db.Valid() && q.usageLogs.Some?
    ensures var sub, ids := q.usageLogs.value, IDs(SelectedRows(q, db));
            var nodes, all := Load(q, db), Load(q.(usageLogs := Some(Open(sub))), db);
            |nodes| == |all| &&
            ((forall i :: 0 <= i < |nodes| ==> nodes[i].usageLogs == all[i].usageLogs) <==>
             CutsNothing(sub, |Rows(Open(sub).Where(LogOwnerIn(ids)), db.usageLogs)|))
  {
    var sub, ids := q.usageLogs.value, IDs(SelectedRows(q, db));
    var full, own := q.(usageLogs := Some(Open(sub))), (id: int) => OwnsLog(id);
    assert SelectedRows(full, db) == SelectedRows(q, db);
    LoadIsStitch(q, db);
    LoadIsStitch(full, db);
    SelectedIDsDistinct(q, db);
    forall u | sub.Where(LogOwnerIn(ids)).Holds(u)
      ensures exists id :: id in ids && own(id)(u)
    {
      WhereHolds(sub, LogOwnerIn(ids), u);
      assert own(u.accountID)(u);
    }
    assert Open(sub.Where(LogOwnerIn(ids))) == Open(sub).Where(LogOwnerIn(ids));
    hide Rows, Load, SelectedRows, Filter;
    OwnersKeepRowsIff(sub.Where(LogOwnerIn(ids)), own, ids, db.usageLogs);
  }

  /** The same for join-table rows. */
  lemma {:induction false} AccountGroupsWindowExact(q: Query, db: Database)
    requires db.Valid() && q.accountGroups.Some?
    ensures var sub, ids := q.accountGroups.value, IDs(SelectedRows(q, db));
            var nodes, all := Load(q, db), Load(q.(accountGroups := Some(Open(sub))), db);
            |nodes| == |all| &&
            ((forall i :: 0 <= i < |nodes| ==> nodes[i].accountGroups == all[i].accountGroups) <==>
             CutsNothing(sub, |Rows(Open(sub).Where(LinkOwnerIn(ids)), db.accountGroups)|))
  {
    var sub, ids := q.accountGroups.value, IDs(SelectedRows(q, db));
    var full, own := q.(accountGroups := Some(Open(sub))), (id: int) => OwnsLink(id);
    assert SelectedRows(full, db) == SelectedRows(q, db);
    LoadIsStitch(q, db);
    LoadIsStitch(full, db);
    SelectedIDsDistinct(q, db);
    forall l | sub.Where(LinkOwnerIn(ids)).Holds(l)
      ensures exists id :: id in ids && own(id)(l)
    {
      WhereHolds(sub, LinkOwnerIn(ids), l);
      assert own(l.accountID)(l);
    }
    assert Open(sub.Where(LinkOwnerIn(ids))) == Open(sub).Where(LinkOwnerIn(ids));
    hide Rows, Load, SelectedRows, Filter;
    OwnersKeepRowsIff(sub.Where(LinkOwnerIn(ids)), own, ids, db.accountGroups);
  }

  // ---------------------------------------------------------------- rows found by key

  /** A window that cuts something off rows with distinct keys loses a row. */
  lemma {:induction false} WindowLosesRow<T>(sel: Selection<T>, key: T -> int, table: seq<T>) returns (lost: T)
    requires DistinctBy(key, table)
    requires !CutsNothing(sel, |Rows(Open(sel), table)|)
    ensures lost in Rows(Open(sel), table)
    ensures forall x :: x in Rows(sel, table) ==> key(x) != key(lost)
  {
    var all, cut := Rows(Open(sel), table), Rows(sel, table);
    assert forall x :: x in table ==> Open(sel).Condition()(x) == sel.Condition()(x);
    FilterExtensional(Open(sel).Condition(), sel.Condition(), table);
    RowsDistinct(Open(sel), key, table);
    assert all[0..] == all;
    assert cut == Window(sel.limit, sel.offset, all);
    hide Rows, Window;
    lost := MissedByWindow(sel, key, all);
  }

  lemma {:induction false} MissedByWindow<T>(sel: Selection<T>, key: T -> int, all: seq<T>) returns (lost: T)
    requires DistinctBy(key, all) && !CutsNothing(sel, |all|)
    ensures lost in all && forall x :: x in Window(sel.limit, sel.offset, all) ==> key(x) != key(lost)
  {
    var cut := Window(sel.limit, sel.offset, all);
    var n := if sel.offset != 0 then 0 else |all| - 1;
    lost := all[n];
    forall x | x in cut
      ensures key(x) != key(lost)
    {
      var k :| 0 <= k < |cut| && cut[k] == x;
      assert x == all[sel.offset + k] && sel.offset + k != n;
    }
  }

  lemma {:induction false} NodeProxies(q: Query, db: Database)
    requires q.proxy.Some?
    ensures var rows := SelectedRows(q, db);
            var fetched := Rows(q.proxy.value.Where(ProxyIDIn(DistinctKeys(ProxyKeys(rows)))), db.proxies);
            && |Load(q, db)| == |rows|
            && forall i :: 0 <= i < |rows| ==>
                 Load(q, db)[i].proxy ==
                 if rows[i].proxy.Some? then PickLast(ProxyHasID(rows[i].proxy.value), fetched) else None
  {
    var rows := SelectedRows(q, db);
    LoadIsStitch(q, db);
    DistinctKeysSound(ProxyKeys(rows));
    hide Load, SelectedRows, PickLast, Rows, DistinctKeys;
    forall i | 0 <= i < |rows| && rows[i].proxy.Some?
      ensures DistinctKeys(ProxyKeys(rows)) != []
    {
      assert ProxyKeys(rows)[i] == rows[i].proxy;
    }
  }

  /** The same for the proxy: every fetched proxy is some node's, so none may be cut off. */
  lemma {:induction false} ProxyWindowExact(q: Query, db: Database)
    requires db.Valid() && q.proxy.Some?
    ensures var sub, keys := q.proxy.value, DistinctKeys(ProxyKeys(SelectedRows(q, db)));
            var nodes, all := Load(q, db), Load(q.(proxy := Some(Open(sub))), db);
            |nodes| == |all| &&
            ((forall i :: 0 <= i < |nodes| ==> nodes[i].proxy == all[i].proxy) <==>
             CutsNothing(sub, |Rows(Open(sub).Where(ProxyIDIn(keys)), db.proxies)|))
  {
    var sub, rows := q.proxy.value, SelectedRows(q, db);
    var keys := DistinctKeys(ProxyKeys(rows));
    var full := q.(proxy := Some(Open(sub)));
    assert SelectedRows(full, db) == rows;
    NodeProxies(q, db);
    NodeProxies(full, db);
    var sel := sub.Where(ProxyIDIn(keys));
    assert Open(sel) == Open(sub).Where(ProxyIDIn(keys));
    WindowCuts(sel, db.proxies);
    DistinctKeysSound(ProxyKeys(rows));
    hide Load, SelectedRows, PickLast, Filter, Rows, DistinctKeys, CutsNothing;
    if !CutsNothing(sub, |Rows(Open(sel), db.proxies)|) {
      var lost := WindowLosesRow(sel, (p: Proxy) => p.id, db.proxies);
      RowsSound(Open(sel), db.proxies);
      WhereHolds(Open(sub), ProxyIDIn(keys), lost);
      assert Some(lost.id) in ProxyKeys(rows);
      var i :| 0 <= i < |rows| && ProxyKeys(rows)[i] == Some(lost.id);
      PickLastSound(ProxyHasID(lost.id), Rows(sel, db.proxies));
      PickLastSound(ProxyHasID(lost.id), Rows(Open(sel), db.proxies));
      assert Load(q, db)[i].proxy != Load(full, db)[i].proxy;
    }
  }

  /** The parent of every node, as picked from the batch. */
  lemma {:induction false} PickedParents(q: Query, db: Database)
    requires q.parent.Some?
    ensures var rows := SelectedRows(q, db);
            var fetched := Load(ParentQuery(q.parent.value, DistinctKeys(ParentKeys(rows))), db);
            forall i :: 0 <= i < |rows| ==>
              Load(q, db)[i].parent ==
              if rows[i].parent.Some? then PickLast(HasID(rows[i].parent.value), fetched) else None
  {
    var rows := SelectedRows(q, db);
    var fetched := Load(ParentQuery(q.parent.value, DistinctKeys(ParentKeys(rows))), db);
    forall i | 0 <= i < |rows|
      ensures Load(q, db)[i].parent ==
              if rows[i].parent.Some? then PickLast(HasID(rows[i].parent.value), fetched) else None
    {
      LoadedParent(q, i, db);
    }
  }

  /** A row that the window loses is the parent of some node, which is then left without it. */
  lemma {:induction false} LostParent(sub: Query, keys: seq<int>, db: Database) returns (id: int)
    requires db.Valid() && !CutsNothing(sub.selection, |Rows(Open(sub.selection).Where(IDIn(keys)), db.accounts)|)
    ensures id in keys
    ensures PickLast(HasID(id), Load(ParentQuery(sub, keys), db)).None?
    ensures PickLast(HasID(id), Load(ParentQuery(Unbounded(sub), keys), db)).Some?
  {
    var sel := sub.selection.Where(IDIn(keys));
    var cut, batch := ParentQuery(sub, keys), ParentQuery(Unbounded(sub), keys);
    assert Open(sel) == Open(sub.selection).Where(IDIn(keys)) == batch.selection && cut.selection == sel;
    var lost := WindowLosesRow(sel, (r: AccountRow) => r.id, db.accounts);
    id := lost.id;
    RowsSound(Open(sel), db.accounts);
    WhereHolds(Open(sub.selection), IDIn(keys), lost);
    hide Load, Rows, PickLast, CutsNothing;
    LoadedIDs(cut, db);
    LoadedIDs(batch, db);
    PickLastSound(HasID(id), Load(cut, db));
    PickLastSound(HasID(id), Load(batch, db));
  }

  /** The same for the parent. */
  lemma {:induction false} ParentWindowExact(q: Query, db: Database)
    requires db.Valid() && q.parent.Some?
    ensures var sub, keys := q.parent.value, DistinctKeys(ParentKeys(SelectedRows(q, db)));
            var nodes, all := Load(q, db), Load(q.(parent := Some(Unbounded(sub))), db);
            |nodes| == |all| &&
            ((forall i :: 0 <= i < |nodes| ==> nodes[i].parent == all[i].parent) <==>
             CutsNothing(sub.selection, |Rows(Open(sub.selection).Where(IDIn(keys)), db.accounts)|))
  {
    var sub, rows := q.parent.value, SelectedRows(q, db);
    var keys := DistinctKeys(ParentKeys(rows));
    var full := q.(parent := Some(Unbounded(sub)));
    assert SelectedRows(full, db) == rows;
    PickedParents(q, db);
    PickedParents(full, db);
    hide Load, SelectedRows, PickLast;
    if CutsNothing(sub.selection, |Rows(Open(sub.selection).Where(IDIn(keys)), db.accounts)|) {
      SameParentBatch(sub, keys, db);
    } else {
      var id := LostParent(sub, keys, db);
      DistinctKeysSound(ParentKeys(rows));
      var i :| 0 <= i < |rows| && ParentKeys(rows)[i] == Some(id);
      assert rows[i].parent == Some(id);
      assert Load(q, db)[i].parent != Load(full, db)[i].parent;
    }
  }

  lemma {:induction false} SameParentBatch(sub: Query, keys: seq<int>, db: Database)
    requires CutsNothing(sub.selection, |Rows(Open(sub.selection).Where(IDIn(keys)), db.accounts)|)
    ensures Load(ParentQuery(sub, keys), db) == Load(ParentQuery(Unbounded(sub), keys), db)
  {
    var sel := sub.selection.Where(IDIn(keys));
    var cut, batch := ParentQuery(sub, keys), ParentQuery(Unbounded(sub), keys);
    assert Open(sel) == Open(sub.selection).Where(IDIn(keys)) == batch.selection && cut.selection == sel;
    WindowCuts(sel, db.accounts);
    SameLoad(batch, cut, db);
  }

  /** The ids of the loaded nodes are those of the selected rows. */
  lemma {:induction false} LoadedIDs(q: Query, db: Database)
    ensures forall n :: n in Load(q, db) ==> exists r :: r in Rows(q.selection, db.accounts) && r.id == n.row.id
    ensures forall r :: r in Rows(q.selection, db.accounts) ==> exists n :: n in Load(q, db) && n.row.id == r.id
  {
    hide Load, Project, Columns, Rows;
    var nodes, rows := Load(q, db), Rows(q.selection, db.accounts);
    forall i | 0 <= i < |rows|
      ensures |nodes| == |rows| && nodes[i].row.id == rows[i].id
    {
      ProjectionKeepsKeys(q, rows[i]);
    }
    assert |nodes| == |rows|;
    forall n | n in nodes
      ensures exists r :: r in rows && r.id == n.row.id
    {
      var i :| 0 <= i < |nodes| && nodes[i] == n;
      assert rows[i] in rows;
    }
    forall r | r in rows
      ensures exists n :: n in nodes && n.row.id == r.id
    {
      var i :| 0 <= i < |rows| && rows[i] == r;
      assert nodes[i] in nodes;
    }
  }

  // ---------------------------------------------------------------- groups

  /** Every row of the batch links an account to a group that some row in the window links it to. */
  ghost predicate LinksKept(window: seq<JoinRow>, all: seq<JoinRow>) {
    forall r :: r in all ==> Linked(window, r.accountID, r.group.id)
  }

  lemma {:induction false} WindowOfRows(sel: Selection<Group>, owners: seq<int>, db: Database)
    requires db.Valid()
    ensures var window, all := JoinRows(sel, owners, db), JoinRows(Open(sel), owners, db);
            && (forall r :: r in window ==> r in all) && (forall r :: r in all ==> r.accountID in owners)
            && OneGroupPerID(window + all)
            && (sel.offset == 0 ==> window <= all)
  {
    var window, all := JoinRows(sel, owners, db), JoinRows(Open(sel), owners, db);
    JoinRowsConsistent(Open(sel), owners, db);
    forall r
      ensures r in all ==> r.accountID in owners
    {
      JoinRowsMember(Open(sel), owners, db, r);
    }
    var found := Join(db.accountGroups, db.groups);
    assert forall r :: Joined(sel, owners)(r) == Joined(Open(sel), owners)(r);
    FilterExtensional(Joined(sel, owners), Joined(Open(sel), owners), found);
    hide Join, Filter, SortBy, Joined, LiftKeys;
    assert all[0..] == all;
    assert window == Window(sel.limit, sel.offset, all);
    assert forall r :: r in window + all <==> r in window || r in all;
  }

  lemma {:induction false} PrefixKeepsOrder(window: seq<JoinRow>, all: seq<JoinRow>, accountID: int)
    requires window <= all
    ensures KeepsOrder(window, all, accountID)
  {
    forall g, h | Linked(window, accountID, g) && Linked(window, accountID, h) && NamedBefore(all, g, h)
      ensures NamedBefore(window, g, h)
    {
      var i :| 0 <= i < |all| && all[i].group.id == g && forall j :: 0 <= j <= i ==> all[j].group.id != h;
      var k :| 0 <= k < |window| && window[k].accountID == accountID && window[k].group.id == h;
      assert all[k] == window[k];
      assert i < k;
      assert window[i].group.id == g;
    }
  }

  /**
   * A window on the groups query leaves every node its groups, in their order, exactly if every row that is
   * cut off repeats a link that stays, and what stays names the groups of each account in the same order.
   * Without an offset the order always stays.
   */
  lemma {:induction false} GroupsWindowExact(q: Query, db: Database)
    requires db.Valid() && q.groups.Some?
    ensures var sub, ids := q.groups.value, IDs(SelectedRows(q, db));
            var window, rows := JoinRows(sub.selection, ids, db), JoinRows(Open(sub.selection), ids, db);
            var nodes, all := Load(q, db), Load(q.(groups := Some(sub.(selection := Open(sub.selection)))), db);
            && |nodes| == |all|
            && ((forall i :: 0 <= i < |nodes| ==> nodes[i].groups == all[i].groups) <==>
                LinksKept(window, rows) && forall id :: id in ids ==> KeepsOrder(window, rows, id))
            && (sub.selection.offset == 0 ==> forall id :: KeepsOrder(window, rows, id))
  {
    var sub, ids := q.groups.value, IDs(SelectedRows(q, db));
    var full := q.(groups := Some(sub.(selection := Open(sub.selection))));
    var window, rows := JoinRows(sub.selection, ids, db), JoinRows(Open(sub.selection), ids, db);
    assert SelectedRows(full, db) == SelectedRows(q, db);
    hide Load, SelectedRows, JoinRows, GroupsOf, KeepsOrder, LinksKept, OneGroupPerID;
    NodeGroups(q, db);
    NodeGroups(full, db);
    WindowOfRows(sub.selection, ids, db);
    SameGroupsForAllIff(window, rows, ids);
    if sub.selection.offset == 0 {
      forall id {
        PrefixKeepsOrder(window, rows, id);
      }
    }
  }

  lemma {:induction false} NodeGroups(q: Query, db: Database)
    requires q.groups.Some?
    ensures var ids := IDs(SelectedRows(q, db));
            && |Load(q, db)| == |ids|
            && forall i :: 0 <= i < |ids| ==>
                 Load(q, db)[i].groups == GroupsOf(JoinRows(q.groups.value.selection, ids, db), ids[i])
  {
    LoadIsStitch(q, db);
    hide Load, SelectedRows, JoinRows, GroupsOf;
  }

  lemma {:induction false} SameGroupsForAllIff(window: seq<JoinRow>, rows: seq<JoinRow>, ids: seq<int>)
    requires OneGroupPerID(window + rows)
    requires forall r :: r in window ==> r in rows
    requires forall r :: r in rows ==> r.accountID in ids
    ensures (forall i :: 0 <= i < |ids| ==> GroupsOf(window, ids[i]) == GroupsOf(rows, ids[i])) <==>
            LinksKept(window, rows) && forall id :: id in ids ==> KeepsOrder(window, rows, id)
  {
    hide GroupsOf, KeepsOrder, Linked, LinksKept, OneGroupPerID;
    forall id: int
      ensures GroupsOf(window, id) == GroupsOf(rows, id) <==>
              (forall g :: Linked(window, id, g) <==> Linked(rows, id, g)) && KeepsOrder(window, rows, id)
    {
      SameGroupListIff(window, rows, id);
    }
    SameLinksIff(window, rows, ids);
    if forall i :: 0 <= i < |ids| ==> GroupsOf(window, ids[i]) == GroupsOf(rows, ids[i]) {
      forall id | id in ids
        ensures GroupsOf(window, id) == GroupsOf(rows, id)
      {
        var i :| 0 <= i < |ids| && ids[i] == id;
      }
    }
  }

  lemma {:induction false} SameLinksIff(window: seq<JoinRow>, rows: seq<JoinRow>, ids: seq<int>)
    requires forall r :: r in window ==> r in rows
    requires forall r :: r in rows ==> r.accountID in ids
    ensures LinksKept(window, rows) <==> forall id, g :: id in ids ==> (Linked(window, id, g) <==> Linked(rows, id, g))
  {
    forall id, g
      ensures Linked(window, id, g) <==> exists r :: r in window && r.accountID == id && r.group.id == g
      ensures Linked(rows, id, g) <==> exists r :: r in rows && r.accountID == id && r.group.id == g
    {
      LinkedMeans(window, id, g);
      LinkedMeans(rows, id, g);
    }
    hide Linked;
    if forall id, g :: id in ids ==> (Linked(window, id, g) <==> Linked(rows, id, g)) {
      forall r | r in rows
        ensures Linked(window, r.accountID, r.group.id)
      {
        assert Linked(rows, r.accountID, r.group.id);
      }
    }
  }
}
