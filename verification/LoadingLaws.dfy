/**
 * Laws of eager loading that relate several runs, several edges or several queries.
 */
module LoadingLaws {
  import opened Tables
  import opened Queries
  import opened BatchedLoading

  // ---------------------------------------------------------------- running the same query again

  /** No groups edge anywhere: loading groups twice would join twice. */
  predicate NoGroups(q: Query)
    decreases Height(q)
  {
    && q.groups.None?
    && (q.parent.Some? ==> NoGroups(q.parent.value))
    && (q.children.Some? ==> NoGroups(q.children.value))
  }

  lemma {:induction false} RowsWhereAgain<T>(sel: Selection<T>, p: T -> bool, table: seq<T>)
    requires p in sel.predicates
    ensures Rows(sel.Where(p), table) == Rows(sel, table)
  {
    forall x | x in table
      ensures sel.Where(p).Condition()(x) == sel.Condition()(x)
    {
      WhereHolds(sel, p, x);
      if sel.Holds(x) {
        var i :| 0 <= i < |sel.predicates| && sel.predicates[i] == p;
        assert sel.predicates[i](x);
      }
    }
    FilterExtensional(sel.Where(p).Condition(), sel.Condition(), table);
  }

  lemma {:induction false} LoadWhereAgain(q: Query, p: AccountRow -> bool, db: Database)
    requires p in q.selection.predicates
    ensures Load(q.(selection := q.selection.Where(p)), db) == Load(q, db)
  {
    RowsWhereAgain(q.selection, p, db.accounts);
    var q' := q.(selection := q.selection.Where(p));
    SameLoad(q, q', db);
  }

  lemma {:induction false} LoadIsStitch(q: Query, db: Database)
    ensures forall i :: 0 <= i < |Load(q, db)| ==>
              Load(q, db)[i] == Stitch(q, SelectedRows(q, db)[i], Fetch(q, SelectedRows(q, db), db))
  {
  }

  lemma {:induction false} SameLoad(q: Query, q': Query, db: Database)
    requires SelectedRows(q', db) == SelectedRows(q, db) && Requested(q') == Requested(q)
    requires Fetch(q', SelectedRows(q, db), db) == Fetch(q, SelectedRows(q, db), db)
    ensures Load(q', db) == Load(q, db)
  {
    LoadIsStitch(q, db);
    LoadIsStitch(q', db);
    hide Load, Fetch, SelectedRows;
    var rows := SelectedRows(q, db);
    var batch := Fetch(q, rows, db);
    assert forall i :: 0 <= i < |rows| ==> Stitch(q', rows[i], batch) == Stitch(q, rows[i], batch);
  }

  lemma {:induction false} LastPredicate<T>(sel: Selection<T>, p: T -> bool)
    ensures p in sel.Where(p).predicates
  {
    assert sel.Where(p).predicates[|sel.predicates|] == p;
  }

  lemma {:induction false} ParentsFetchedAgain(sub: Query, rows: seq<AccountRow>, db: Database)
    requires DistinctKeys(ParentKeys(rows)) != []
    requires var pq := ParentQuery(sub, DistinctKeys(ParentKeys(rows))); Load(AfterLoad(pq, db), db) == Load(pq, db)
    ensures ParentsFetched(AfterParent(Some(sub), rows, db), rows, db) == ParentsFetched(Some(sub), rows, db)
  {
    var keys := DistinctKeys(ParentKeys(rows));
    var pq := ParentQuery(sub, keys);
    LastPredicate(sub.selection, IDIn(keys));
    LoadWhereAgain(AfterLoad(pq, db), IDIn(keys), db);
  }

  lemma {:induction false} ChildrenFetchedAgain(sub: Query, rows: seq<AccountRow>, db: Database)
    requires var cq := ChildrenQuery(sub, IDs(rows)); Load(AfterLoad(cq, db), db) == Load(cq, db)
    ensures ChildrenFetched(AfterChildren(Some(sub), rows, db), rows, db) == ChildrenFetched(Some(sub), rows, db)
  {
    var cq := ChildrenQuery(sub, IDs(rows));
    LastPredicate(sub.selection, ParentIn(IDs(rows)));
    LoadWhereAgain(AfterLoad(cq, db), ParentIn(IDs(rows)), db);
    assert WithForeignKey(AfterLoad(cq, db)) == AfterLoad(cq, db);
  }

  lemma {:induction false} LeavesFetchedAgain(q: Query, rows: seq<AccountRow>, db: Database)
    ensures ProxiesFetched(AfterProxy(q.proxy, rows), rows, db) == ProxiesFetched(q.proxy, rows, db)
    ensures UsageLogsFetched(AfterUsageLogs(q.usageLogs, rows), rows, db) == UsageLogsFetched(q.usageLogs, rows, db)
    ensures AccountGroupsFetched(AfterAccountGroups(q.accountGroups, rows), rows, db) ==
              AccountGroupsFetched(q.accountGroups, rows, db)
  {
    var keys := DistinctKeys(ProxyKeys(rows));
    if q.proxy.Some? {
      LastPredicate(q.proxy.value, ProxyIDIn(keys));
      RowsWhereAgain(q.proxy.value.Where(ProxyIDIn(keys)), ProxyIDIn(keys), db.proxies);
    }
    if q.usageLogs.Some? {
      LastPredicate(q.usageLogs.value, LogOwnerIn(IDs(rows)));
      RowsWhereAgain(q.usageLogs.value.Where(LogOwnerIn(IDs(rows))), LogOwnerIn(IDs(rows)), db.usageLogs);
    }
    if q.accountGroups.Some? {
      LastPredicate(q.accountGroups.value, LinkOwnerIn(IDs(rows)));
      RowsWhereAgain(q.accountGroups.value.Where(LinkOwnerIn(IDs(rows))), LinkOwnerIn(IDs(rows)), db.accountGroups);
    }
  }

  /** The first run's nested runs repeat themselves: the induction hypotheses of the theorem below. */
  ghost predicate NestedRunsRepeat(q: Query, rows: seq<AccountRow>, db: Database) {
    && (q.parent.Some? && DistinctKeys(ParentKeys(rows)) != [] ==>
          var pq := ParentQuery(q.parent.value, DistinctKeys(ParentKeys(rows)));
            Load(AfterLoad(pq, db), db) == Load(pq, db))
    && (q.children.Some? ==>
          var cq := ChildrenQuery(q.children.value, IDs(rows)); Load(AfterLoad(cq, db), db) == Load(cq, db))
  }

  lemma {:induction false} NestedFetchedAgain(q: Query, rows: seq<AccountRow>, db: Database)
    requires NestedRunsRepeat(q, rows, db)
    ensures ParentsFetched(AfterParent(q.parent, rows, db), rows, db) == ParentsFetched(q.parent, rows, db)
    ensures ChildrenFetched(AfterChildren(q.children, rows, db), rows, db) == ChildrenFetched(q.children, rows, db)
  {
    hide Load, AfterLoad;
    if q.parent.Some? && DistinctKeys(ParentKeys(rows)) != [] {
      ParentsFetchedAgain(q.parent.value, rows, db);
    }
    if q.children.Some? {
      ChildrenFetchedAgain(q.children.value, rows, db);
    }
  }

  lemma {:induction false} FetchedAgain(q: Query, db: Database)
    requires NoGroups(q) && NestedRunsRepeat(q, SelectedRows(q, db), db)
    ensures SelectedRows(AfterLoad(q, db), db) == SelectedRows(q, db)
    ensures Fetch(AfterLoad(q, db), SelectedRows(q, db), db) == Fetch(q, SelectedRows(q, db), db)
  {
    var rows := SelectedRows(q, db);
    assert SelectedRows(AfterLoad(q, db), db) == rows;
    hide SelectedRows, ParentsFetched, ChildrenFetched, AfterParent, AfterChildren;
    LeavesFetchedAgain(q, rows, db);
    NestedFetchedAgain(q, rows, db);
  }

  /**
   * Running a query again on the same snapshot returns the same nodes with the same edges, at every
   * depth, although every run leaves one more predicate on the nested queries.
   */
  lemma {:induction false} RerunIsStable(q: Query, db: Database)
    requires NoGroups(q)
    ensures Load(AfterLoad(q, db), db) == Load(q, db)
    decreases Height(q), 1
  {
    NestedRunsAreStable(q, SelectedRows(q, db), db);
    FetchedAgain(q, db);
    SameLoad(q, AfterLoad(q, db), db);
  }

  lemma {:induction false} NestedRunsAreStable(q: Query, rows: seq<AccountRow>, db: Database)
    requires NoGroups(q)
    ensures NestedRunsRepeat(q, rows, db)
    decreases Height(q), 0
  {
    hide Load, AfterLoad;
    if q.parent.Some? {
      RerunIsStable(ParentQuery(q.parent.value, DistinctKeys(ParentKeys(rows))), db);
    }
    if q.children.Some? {
      RerunIsStable(ChildrenQuery(q.children.value, IDs(rows)), db);
    }
  }

  /**
   * A groups query keeps the join of the run, with the ids of the accounts that the run returned; running it
   * again would join a second time.
   */
  lemma {:induction false} GroupsQueryKeepsTheJoin(q: Query, db: Database)
    requires q.groups.Some?
    ensures var left := AfterLoad(q, db).groups;
            && left.Some? && left.value.selection == q.groups.value.selection
            && if Load(q, db) == [] then left.value.joins == q.groups.value.joins
               else
                 && |left.value.joins| == |q.groups.value.joins| + 1
                 && left.value.joins[..|q.groups.value.joins|] == q.groups.value.joins
                 && |left.value.joins[|q.groups.value.joins|]| == |Load(q, db)|
                 && (forall i :: 0 <= i < |Load(q, db)| ==>
                       left.value.joins[|q.groups.value.joins|][i] == Load(q, db)[i].row.id)
                 && !Unjoined(AfterLoad(q, db))
  {
    var rows := SelectedRows(q, db);
    assert AfterLoad(q, db).groups == if rows == [] then q.groups else AfterGroups(q.groups, rows);
    hide Load, AfterLoad, SelectedRows;
  }

  // ---------------------------------------------------------------- running it on a changed snapshot

  function RowsOf(nodes: seq<Node>): (rows: seq<AccountRow>)
    ensures |rows| == |nodes|
  {
    seq(|nodes|, i requires 0 <= i < |nodes| => nodes[i].row)
  }

  function RowOf(node: Option<Node>): Option<AccountRow> {
    if node.None? then None else Some(node.value.row)
  }

  function LastOf<T>(s: seq<T>): Option<T> {
    if s == [] then None else Some(s[|s| - 1])
  }

  lemma {:induction false} LastMatch<T>(p: T -> bool, s: seq<T>)
    ensures PickLast(p, s) == LastOf(Filter(p, s))
  {
    if s != [] {
      LastMatch(p, s[..|s| - 1]);
    }
  }

  /** The rows of the nodes that satisfy `p` are the rows that satisfy `own`. */
  lemma {:induction false} RowsOfFiltered(p: Node -> bool, own: AccountRow -> bool, nodes: seq<Node>)
    requires forall n :: p(n) == own(n.row)
    ensures RowsOf(Filter(p, nodes)) == Filter(own, RowsOf(nodes))
    ensures RowOf(PickLast(p, nodes)) == LastOf(Filter(own, RowsOf(nodes)))
  {
    LastMatch(p, nodes);
    if nodes != [] {
      var n := |nodes| - 1;
      assert RowsOf(nodes)[..n] == RowsOf(nodes[..n]);
      RowsOfFiltered(p, own, nodes[..n]);
    }
  }

  lemma {:induction false} FilterProjected(columns: seq<Column>, own: AccountRow -> bool, rows: seq<AccountRow>)
    requires forall r :: own(Project(columns, r)) == own(r)
    ensures Filter(own, ProjectAll(columns, rows)) == ProjectAll(columns, Filter(own, rows))
  {
    if rows != [] {
      var n := |rows| - 1;
      assert ProjectAll(columns, rows)[..n] == ProjectAll(columns, rows[..n]);
      FilterProjected(columns, own, rows[..n]);
      var kept := Filter(own, rows[..n]);
      assert ProjectAll(columns, kept + [rows[n]]) == ProjectAll(columns, kept) + [Project(columns, rows[n])];
    }
  }

  /** What one owner gets from a batch, and from a batch on top of an older one. */
  lemma {:induction false} OwnedAgain<T>(sub: Selection<T>, batch: seq<int> -> (T -> bool), own: T -> bool,
                                         ids: seq<int>, older: seq<int>, id: int, table: seq<T>)
    requires sub.Unwindowed() && id in ids
    requires forall owners, x :: own(x) ==> batch(owners)(x) == (id in owners)
    ensures Filter(own, Rows(sub.Where(batch(older)).Where(batch(ids)), table)) ==
            if id in older then Filter(own, Rows(sub.Where(batch(ids)), table)) else []
  {
    var kept := sub.Where(batch(older));
    BatchedSelect(sub, batch(ids), own, table);
    BatchedSelect(kept, batch(ids), own, table);
    var narrow, wide := kept.Where(own), sub.Where(own);
    forall x | x in table
      ensures narrow.Condition()(x) == (wide.Condition()(x) && id in older)
    {
      WhereHolds(sub, batch(older), x);
      WhereHolds(kept, own, x);
      WhereHolds(sub, own, x);
    }
    if id in older {
      FilterExtensional(narrow.Condition(), wide.Condition(), table);
    } else {
      DropsAll(narrow.Condition(), table);
    }
  }

  /** The same for the accounts that two queries return which select by those batches and scan the same columns. */
  lemma {:induction false} AccountsAgain(kept: Query, anew: Query, sub: Selection<AccountRow>,
                                         batch: seq<int> -> (AccountRow -> bool), own: AccountRow -> bool,
                                         ids: seq<int>, older: seq<int>, id: int, db: Database)
    requires sub.Unwindowed() && id in ids
    requires forall owners, x :: own(x) ==> batch(owners)(x) == (id in owners)
    requires anew.selection == sub.Where(batch(ids)) && kept.selection == sub.Where(batch(older)).Where(batch(ids))
    requires Columns(kept) == Columns(anew) && forall r :: own(Project(Columns(anew), r)) == own(r)
    ensures Filter(own, SelectedRows(kept, db)) == if id in older then Filter(own, SelectedRows(anew, db)) else []
  {
    OwnedAgain(sub, batch, own, ids, older, id, db.accounts);
    FilterProjected(Columns(anew), own, Rows(kept.selection, db.accounts));
    FilterProjected(Columns(anew), own, Rows(anew.selection, db.accounts));
  }

  lemma {:induction false} RowsOfLoaded(q: Query, db: Database)
    ensures RowsOf(Load(q, db)) == SelectedRows(q, db)
  {
    LoadIsStitch(q, db);
  }

  /** A run changes neither which accounts a query selects nor the columns it scans. */
  lemma {:induction false} AfterLoadSelects(q: Query, db: Database)
    ensures var q' := AfterLoad(q, db);
           q'.selection == q.selection && q'.fields == q.fields && Columns(q') == Columns(q)
  {
  }

  lemma {:induction false} ParentAgain(sub: Query, before: Database, after: Database, ids: seq<int>, older: seq<int>,
                                       key: int)
    requires sub.selection.Unwindowed() && key in ids
    ensures var kept := ParentQuery(AfterLoad(ParentQuery(sub, older), before), ids);
            RowOf(PickLast(HasID(key), Load(kept, after))) ==
            if key in older then RowOf(PickLast(HasID(key), Load(ParentQuery(sub, ids), after))) else None
  {
    var kept, anew := ParentQuery(AfterLoad(ParentQuery(sub, older), before), ids), ParentQuery(sub, ids);
    AfterLoadSelects(ParentQuery(sub, older), before);
    forall r
      ensures RowHasID(key)(Project(Columns(anew), r)) == RowHasID(key)(r)
    {
      ProjectionKeepsKeys(anew, r);
    }
    assert Columns(kept) == Columns(anew);
    hide Load, AfterLoad, SelectedRows, Filter, PickLast, Rows, Columns, Project;
    AccountsAgain(kept, anew, sub.selection, (ids': seq<int>) => IDIn(ids'), RowHasID(key), ids, older, key, after);
    RowsOfLoaded(kept, after);
    RowsOfLoaded(anew, after);
    RowsOfFiltered(HasID(key), RowHasID(key), Load(kept, after));
    RowsOfFiltered(HasID(key), RowHasID(key), Load(anew, after));
  }

  lemma {:induction false} ChildrenAgain(sub: Query, before: Database, after: Database, ids: seq<int>, older: seq<int>,
                                         id: int)
    requires sub.selection.Unwindowed() && id in ids
    ensures var kept := ChildrenQuery(AfterLoad(ChildrenQuery(sub, older), before), ids);
            RowsOf(Filter(HasParent(id), Load(kept, after))) ==
            if id in older then RowsOf(Filter(HasParent(id), Load(ChildrenQuery(sub, ids), after))) else []
  {
    var kept, anew := ChildrenQuery(AfterLoad(ChildrenQuery(sub, older), before), ids), ChildrenQuery(sub, ids);
    AfterLoadSelects(ChildrenQuery(sub, older), before);
    forall r
      ensures RowHasParent(id)(Project(Columns(anew), r)) == RowHasParent(id)(r)
    {
      ProjectionKeepsKeys(sub.(selection := anew.selection), r);
    }
    assert Columns(kept) == Columns(anew);
    hide Load, AfterLoad, SelectedRows, Filter, PickLast, Rows, Columns, Project;
    AccountsAgain(kept, anew, sub.selection, (ids': seq<int>) => ParentIn(ids'), RowHasParent(id), ids, older,
                  id, after);
    RowsOfLoaded(kept, after);
    RowsOfLoaded(anew, after);
    RowsOfFiltered(HasParent(id), RowHasParent(id), Load(kept, after));
    RowsOfFiltered(HasParent(id), RowHasParent(id), Load(anew, after));
  }

  /** No direct edge of the query has a limit or an offset. */
  ghost predicate EdgesUnwindowed(q: Query) {
    && (q.proxy.Some? ==> q.proxy.value.Unwindowed())
    && (q.parent.Some? ==> q.parent.value.selection.Unwindowed())
    && (q.children.Some? ==> q.children.value.selection.Unwindowed())
    && (q.usageLogs.Some? ==> q.usageLogs.value.Unwindowed())
    && (q.accountGroups.Some? ==> q.accountGroups.value.Unwindowed())
  }

  /** The key was among those of an earlier run, or that run had none and so left no predicate. */
  predicate AskedFor(keys: seq<int>, key: Option<int>) {
    keys == [] || (key.Some? && key.value in keys)
  }

  lemma {:induction false} OwnedEdgesAgain(q: Query, before: Database, after: Database, i: nat)
    requires EdgesUnwindowed(q) && SelectedRows(q, before) != [] && i < |Load(q, after)|
    ensures var rerun, anew, rows := Load(AfterLoad(q, before), after)[i], Load(q, after)[i], SelectedRows(q, before);
            && rerun.row == anew.row
            && rerun.usageLogs == (if anew.row.id in IDs(rows) then anew.usageLogs else [])
            && rerun.accountGroups == (if anew.row.id in IDs(rows) then anew.accountGroups else [])
  {
    var rows, older := SelectedRows(q, after), SelectedRows(q, before);
    var q', id := AfterLoad(q, before), rows[i].id;
    assert SelectedRows(q', after) == rows;
    assert id == IDs(rows)[i];
    LoadIsStitch(q, after);
    LoadIsStitch(q', after);
    hide Rows, SelectedRows, Filter, Load;
    if q.usageLogs.Some? {
      OwnedAgain(q.usageLogs.value, (ids: seq<int>) => LogOwnerIn(ids), OwnsLog(id), IDs(rows), IDs(older), id,
                 after.usageLogs);
    }
    if q.accountGroups.Some? {
      OwnedAgain(q.accountGroups.value, (ids: seq<int>) => LinkOwnerIn(ids), OwnsLink(id), IDs(rows), IDs(older), id,
                 after.accountGroups);
    }
  }

  lemma {:induction false} ProxyEdgeAgain(q: Query, before: Database, after: Database, i: nat)
    requires EdgesUnwindowed(q) && SelectedRows(q, before) != [] && i < |Load(q, after)|
    ensures var rerun, anew, rows := Load(AfterLoad(q, before), after)[i], Load(q, after)[i], SelectedRows(q, before);
            rerun.proxy == if AskedFor(DistinctKeys(ProxyKeys(rows)), anew.row.proxy) then anew.proxy else None
  {
    var rows, older := SelectedRows(q, after), SelectedRows(q, before);
    var q', row, keys := AfterLoad(q, before), rows[i], DistinctKeys(ProxyKeys(rows));
    assert SelectedRows(q', after) == rows;
    assert row.proxy == ProxyKeys(rows)[i];
    DistinctKeysSound(ProxyKeys(rows));
    LoadIsStitch(q, after);
    LoadIsStitch(q', after);
    hide Rows, SelectedRows, Filter, PickLast, DistinctKeys, Load;
    if q.proxy.Some? && row.proxy.Some? {
      var key, asked := row.proxy.value, DistinctKeys(ProxyKeys(older));
      OwnedAgain(q.proxy.value, (ids: seq<int>) => ProxyIDIn(ids), ProxyHasID(key), keys, asked, key, after.proxies);
      LastMatch(ProxyHasID(key), ProxiesFetched(q.proxy, rows, after));
      LastMatch(ProxyHasID(key), ProxiesFetched(q'.proxy, rows, after));
    }
  }

  lemma {:induction false} ParentEdgeAgain(q: Query, before: Database, after: Database, i: nat)
    requires EdgesUnwindowed(q) && SelectedRows(q, before) != [] && i < |Load(q, after)|
    ensures var rerun, anew, rows := Load(AfterLoad(q, before), after)[i], Load(q, after)[i], SelectedRows(q, before);
            RowOf(rerun.parent) ==
            if AskedFor(DistinctKeys(ParentKeys(rows)), anew.row.parent) then RowOf(anew.parent) else None
  {
    var rows, older := SelectedRows(q, after), SelectedRows(q, before);
    var row, keys := rows[i], DistinctKeys(ParentKeys(rows));
    AfterLoadSelects(q, before);
    assert row.parent == ParentKeys(rows)[i];
    DistinctKeysSound(ParentKeys(rows));
    LoadedParent(q, i, after);
    LoadedParent(AfterLoad(q, before), i, after);
    hide Rows, SelectedRows, PickLast, DistinctKeys, Load;
    if q.parent.Some? && row.parent.Some? && DistinctKeys(ParentKeys(older)) != [] {
      ParentAgain(q.parent.value, before, after, keys, DistinctKeys(ParentKeys(older)), row.parent.value);
    }
  }

  lemma {:induction false} ChildrenEdgeAgain(q: Query, before: Database, after: Database, i: nat)
    requires EdgesUnwindowed(q) && SelectedRows(q, before) != [] && i < |Load(q, after)|
    ensures var rerun, anew, rows := Load(AfterLoad(q, before), after)[i], Load(q, after)[i], SelectedRows(q, before);
            RowsOf(rerun.children) == if anew.row.id in IDs(rows) then RowsOf(anew.children) else []
  {
    var rows, older := SelectedRows(q, after), SelectedRows(q, before);
    AfterLoadSelects(q, before);
    assert rows[i].id == IDs(rows)[i];
    LoadedAt(q, i, after);
    LoadedAt(AfterLoad(q, before), i, after);
    hide Rows, SelectedRows, Filter, Load;
    if q.children.Some? {
      ChildrenAgain(q.children.value, before, after, IDs(rows), IDs(older), rows[i].id);
    }
  }

  /**
   * The predicates left behind are those of the earlier snapshot: a query that is run again after the data
   * changed finds what an account owns, and its children, only if the earlier run already returned the
   * account, and its proxy or its parent only if an account of the earlier run had the same key.
   */
  lemma {:induction false} RerunKeepsOldOwners(q: Query, before: Database, after: Database, i: nat)
    requires q.groups.None? && EdgesUnwindowed(q) && i < |Load(q, after)|
    ensures |Load(AfterLoad(q, before), after)| == |Load(q, after)|
    ensures var rerun, anew, rows := Load(AfterLoad(q, before), after)[i], Load(q, after)[i], SelectedRows(q, before);
            var returned := AskedFor(IDs(rows), Some(anew.row.id));
            && rerun.row == anew.row
            && rerun.usageLogs == (if returned then anew.usageLogs else [])
            && rerun.accountGroups == (if returned then anew.accountGroups else [])
            && RowsOf(rerun.children) == (if returned then RowsOf(anew.children) else [])
            && rerun.proxy == (if AskedFor(DistinctKeys(ProxyKeys(rows)), anew.row.proxy) then anew.proxy else None)
            && RowOf(rerun.parent) ==
               if AskedFor(DistinctKeys(ParentKeys(rows)), anew.row.parent) then RowOf(anew.parent) else None
  {
    assert SelectedRows(AfterLoad(q, before), after) == SelectedRows(q, after);
    if SelectedRows(q, before) != [] {
      hide AfterLoad, SelectedRows, Load;
      OwnedEdgesAgain(q, before, after, i);
      ProxyEdgeAgain(q, before, after, i);
      ParentEdgeAgain(q, before, after, i);
      ChildrenEdgeAgain(q, before, after, i);
    }
  }

  // ---------------------------------------------------------------- parents and children

  /**
   * Parents and children are inverse relations over one snapshot: when the query returns the whole
   * table and the nested queries restrict nothing, a node is among another's children exactly if the
   * other is its loaded parent.
   */
  lemma {:induction false} ParentsAndChildrenAreInverse(q: Query, db: Database, a: nat, b: nat)
    requires db.Valid() && NestedUnwindowed(q)
    requires q.selection.predicates == [] && q.selection.Unwindowed()
    requires q.parent.Some? && q.parent.value.selection.predicates == []
    requires q.children.Some? && q.children.value.selection.predicates == []
    requires a < |Load(q, db)| && b < |Load(q, db)|
    ensures var m, n := Load(q, db)[a], Load(q, db)[b];
            (exists k :: 0 <= k < |m.children| && m.children[k].row.id == n.row.id) <==>
            (n.parent.Some? && n.parent.value.row.id == m.row.id)
  {
    var m, n := Load(q, db)[a], Load(q, db)[b];
    var rows := Rows(q.selection, db.accounts);
    LoadRefinesLookup(q, db);
    RowsSound(q.selection, db.accounts);
    assert rows[a] in rows && rows[b] in rows;
    RowKeys(q, a, db);
    RowKeys(q, b, db);
    ChildIDs(q, rows[a], m, db, rows[b]);
    ParentID(q, rows[b], n, db, rows[a]);
  }

  lemma {:induction false} ChildIDs(q: Query, row: AccountRow, m: Node, db: Database, child: AccountRow)
    requires db.Valid() && q.children.Some? && q.children.value.selection.predicates == [] &&
             q.children.value.selection.Unwindowed()
    requires Agrees(q, m, Lookup(q, row, db)) && child in db.accounts
    ensures (exists k :: 0 <= k < |m.children| && m.children[k].row.id == child.id) <==> child.parent == Some(row.id)
  {
    var sel := q.children.value.selection.Where(RowHasParent(row.id));
    var found := Rows(sel, db.accounts);
    RowsSound(sel, db.accounts);
    LookedUpChildren(q, row, db);
    forall k | 0 <= k < |m.children|
      ensures m.children[k].row.id == found[k].id
    {
      ProjectionKeepsKeys(WithForeignKey(q.children.value), found[k]);
    }
    forall r: AccountRow
      ensures sel.Holds(r) <==> r.parent == Some(row.id)
    {
      WhereHolds(q.children.value.selection, RowHasParent(row.id), r);
    }
    if child.parent == Some(row.id) {
      assert child in found;
      var k :| 0 <= k < |found| && found[k] == child;
      assert m.children[k].row.id == child.id;
    }
    if k :| 0 <= k < |m.children| && m.children[k].row.id == child.id {
      assert found[k] in found;
      SameRow(db, found[k], child);
    }
  }

  lemma {:induction false} ParentID(q: Query, row: AccountRow, n: Node, db: Database, parent: AccountRow)
    requires db.Valid() && q.parent.Some? && q.parent.value.selection.predicates == [] &&
             q.parent.value.selection.Unwindowed()
    requires Agrees(q, n, Lookup(q, row, db)) && parent in db.accounts
    ensures (n.parent.Some? && n.parent.value.row.id == parent.id) <==> row.parent == Some(parent.id)
  {
    LookedUpParent(q, row, db);
    if row.parent.Some? {
      var sel := q.parent.value.selection.Where(RowHasID(row.parent.value));
      var found := Rows(sel, db.accounts);
      RowsSound(sel, db.accounts);
      forall r: AccountRow
        ensures sel.Holds(r) <==> r.id == row.parent.value
      {
        WhereHolds(q.parent.value.selection, RowHasID(row.parent.value), r);
      }
      assert row.parent.value == parent.id ==> parent in found;
      if found != [] {
        assert found[0] in found;
        ProjectionKeepsKeys(q.parent.value, found[0]);
      }
    }
  }

  // ---------------------------------------------------------------- conservation

  /** All the lists one after the other. */
  function Flatten<T>(lists: seq<seq<T>>): seq<T> {
    if lists == [] then [] else Flatten(lists[..|lists| - 1]) + lists[|lists| - 1]
  }

  /** The rows of each owner, in the order of the owners. */
  function ListsOf<T>(own: int -> (T -> bool), owners: seq<int>, rows: seq<T>): (lists: seq<seq<T>>)
    ensures |lists| == |owners|
  {
    seq(|owners|, i requires 0 <= i < |owners| => Filter(own(owners[i]), rows))
  }

  ghost predicate OwnedByOne<T(!new)>(own: int -> (T -> bool)) {
    forall id, other, x :: own(id)(x) && own(other)(x) ==> id == other
  }

  ghost function OwnedByAny<T(!new)>(own: int -> (T -> bool), owners: seq<int>): T -> bool {
    (x: T) => exists id :: id in owners && own(id)(x)
  }

  lemma {:induction false} FilterSplit<T>(p: T -> bool, q: T -> bool, r: T -> bool, s: seq<T>)
    requires forall x :: x in s ==> (r(x) <==> p(x) || q(x)) && !(p(x) && q(x))
    ensures multiset(Filter(r, s)) == multiset(Filter(p, s)) + multiset(Filter(q, s))
  {
    if s != [] {
      assert s == s[..|s| - 1] + [s[|s| - 1]];
      FilterSplit(p, q, r, s[..|s| - 1]);
    }
  }

  lemma {:induction false} ListsAddUp<T(!new)>(own: int -> (T -> bool), owners: seq<int>, rows: seq<T>)
    requires OwnedByOne(own) && forall i, j :: 0 <= i < j < |owners| ==> owners[i] != owners[j]
    ensures multiset(Flatten(ListsOf(own, owners, rows))) == multiset(Filter(OwnedByAny(own, owners), rows))
  {
    if owners == [] {
      DropsAll(OwnedByAny(own, owners), rows);
    } else {
      var n := |owners| - 1;
      ListsAddUp(own, owners[..n], rows);
      assert ListsOf(own, owners, rows)[..n] == ListsOf(own, owners[..n], rows);
      assert owners == owners[..n] + [owners[n]];
      assert owners[n] !in owners[..n];
      FilterSplit(OwnedByAny(own, owners[..n]), own(owners[n]), OwnedByAny(own, owners), rows);
    }
  }

  /** If every row has one owner among distinct owners, their lists together are the rows. */
  lemma {:induction false} ListsPartition<T(!new)>(own: int -> (T -> bool), owners: seq<int>, rows: seq<T>)
    requires OwnedByOne(own) && forall i, j :: 0 <= i < j < |owners| ==> owners[i] != owners[j]
    requires forall x :: x in rows ==> exists id :: id in owners && own(id)(x)
    ensures multiset(Flatten(ListsOf(own, owners, rows))) == multiset(rows)
  {
    ListsAddUp(own, owners, rows);
    KeepsAll(OwnedByAny(own, owners), rows);
  }

  function ChildrenOfAll(nodes: seq<Node>): seq<seq<Node>> {
    seq(|nodes|, i requires 0 <= i < |nodes| => nodes[i].children)
  }

  lemma {:induction false} ChildListsLoaded(q: Query, db: Database)
    requires q.children.Some?
    ensures var owners := IDs(SelectedRows(q, db));
            ChildrenOfAll(Load(q, db)) ==
            ListsOf((id: int) => HasParent(id), owners, Load(ChildrenQuery(q.children.value, owners), db))
  {
    var rows := SelectedRows(q, db);
    forall i | 0 <= i < |rows|
      ensures Load(q, db)[i].children == Filter(HasParent(IDs(rows)[i]), ChildrenFetched(q.children, rows, db))
    {
      LoadedAt(q, i, db);
    }
  }

  /**
   * Every fetched child reaches exactly one node: nothing is lost, nothing is shared. A limit on the
   * nested query therefore bounds the children of all nodes together, not those of each node.
   */
  lemma {:induction false} ChildrenArePartitioned(q: Query, db: Database)
    requires db.Valid() && q.children.Some?
    ensures multiset(Flatten(ChildrenOfAll(Load(q, db)))) ==
            multiset(Load(ChildrenQuery(q.children.value, IDs(SelectedRows(q, db))), db))
    ensures q.children.value.selection.limit != 0 ==>
              |Flatten(ChildrenOfAll(Load(q, db)))| <= q.children.value.selection.limit
  {
    var owners := IDs(SelectedRows(q, db));
    var batch := ChildrenQuery(q.children.value, owners);
    var neighbours := Load(batch, db);
    SelectedIDsDistinct(q, db);
    ChildListsLoaded(q, db);
    ChildrenWereAsked(q.children.value, owners, db);
    RowsOfLoaded(batch, db);
    assert |SelectedRows(batch, db)| == |Rows(batch.selection, db.accounts)|;
    hide Load, SelectedRows, Filter, ChildrenOfAll, ListsOf;
    var own := (id: int) => HasParent(id);
    forall c | c in neighbours
      ensures exists id :: id in owners && own(id)(c)
    {
      var j :| 0 <= j < |neighbours| && neighbours[j] == c;
      assert own(c.row.parent.value)(c);
    }
    ListsPartition(own, owners, neighbours);
    InMultiset(Flatten(ChildrenOfAll(Load(q, db))), neighbours);
  }

  function UsageLogsOfAll(nodes: seq<Node>): seq<seq<UsageLog>> {
    seq(|nodes|, i requires 0 <= i < |nodes| => nodes[i].usageLogs)
  }

  function AccountGroupsOfAll(nodes: seq<Node>): seq<seq<AccountGroup>> {
    seq(|nodes|, i requires 0 <= i < |nodes| => nodes[i].accountGroups)
  }

  /** What distinct owners get of a batch, put together, is the batch; its limit bounds all of it. */
  lemma {:induction false} OwnedArePartitioned<T(!new)>(sel: Selection<T>, own: int -> (T -> bool), owners: seq<int>,
                                                        table: seq<T>)
    requires OwnedByOne(own) && forall i, j :: 0 <= i < j < |owners| ==> owners[i] != owners[j]
    requires forall x :: sel.Holds(x) ==> exists id :: id in owners && own(id)(x)
    ensures var lists := Flatten(ListsOf(own, owners, Rows(sel, table)));
            multiset(lists) == multiset(Rows(sel, table)) && (sel.limit != 0 ==> |lists| <= sel.limit)
  {
    var rows := Rows(sel, table);
    RowsSound(sel, table);
    assert sel.limit != 0 ==> |rows| <= sel.limit;
    hide Rows;
    ListsPartition(own, owners, rows);
    InMultiset(Flatten(ListsOf(own, owners, rows)), rows);
  }

  /** The same for usage logs. */
  lemma {:induction false} UsageLogsArePartitioned(q: Query, db: Database)
    requires db.Valid() && q.usageLogs.Some?
    ensures var lists := Flatten(UsageLogsOfAll(Load(q, db)));
            && multiset(lists) ==
               multiset(Rows(q.usageLogs.value.Where(LogOwnerIn(IDs(SelectedRows(q, db)))), db.usageLogs))
            && (q.usageLogs.value.limit != 0 ==> |lists| <= q.usageLogs.value.limit)
  {
    var owners, own := IDs(SelectedRows(q, db)), (id: int) => OwnsLog(id);
    var sel := q.usageLogs.value.Where(LogOwnerIn(owners));
    SelectedIDsDistinct(q, db);
    LoadIsStitch(q, db);
    hide Load, SelectedRows, Rows, Filter;
    assert UsageLogsOfAll(Load(q, db)) == ListsOf(own, owners, Rows(sel, db.usageLogs));
    forall u | sel.Holds(u)
      ensures exists id :: id in owners && own(id)(u)
    {
      WhereHolds(q.usageLogs.value, LogOwnerIn(owners), u);
      assert own(u.accountID)(u);
    }
    OwnedArePartitioned(sel, own, owners, db.usageLogs);
  }

  /** The same for join-table rows. */
  lemma {:induction false} AccountGroupsArePartitioned(q: Query, db: Database)
    requires db.Valid() && q.accountGroups.Some?
    ensures var lists := Flatten(AccountGroupsOfAll(Load(q, db)));
            && multiset(lists) ==
               multiset(Rows(q.accountGroups.value.Where(LinkOwnerIn(IDs(SelectedRows(q, db)))), db.accountGroups))
            && (q.accountGroups.value.limit != 0 ==> |lists| <= q.accountGroups.value.limit)
  {
    var owners, own := IDs(SelectedRows(q, db)), (id: int) => OwnsLink(id);
    var sel := q.accountGroups.value.Where(LinkOwnerIn(owners));
    SelectedIDsDistinct(q, db);
    LoadIsStitch(q, db);
    hide Load, SelectedRows, Rows, Filter;
    assert AccountGroupsOfAll(Load(q, db)) == ListsOf(own, owners, Rows(sel, db.accountGroups));
    forall l | sel.Holds(l)
      ensures exists id :: id in owners && own(id)(l)
    {
      WhereHolds(q.accountGroups.value, LinkOwnerIn(owners), l);
      assert own(l.accountID)(l);
    }
    OwnedArePartitioned(sel, own, owners, db.accountGroups);
  }

  // ---------------------------------------------------------------- projection

  lemma {:induction false} ProjectedKeys(q: Query, fields: seq<Column>, db: Database)
    ensures var q' := q.(fields := fields);
            |SelectedRows(q', db)| == |SelectedRows(q, db)| && IDs(SelectedRows(q', db)) == IDs(SelectedRows(q, db)) &&
            (q.proxy.Some? ==> ProxyKeys(SelectedRows(q', db)) == ProxyKeys(SelectedRows(q, db))) &&
            (q.parent.Some? ==> ParentKeys(SelectedRows(q', db)) == ParentKeys(SelectedRows(q, db)))
  {
    var q', rows := q.(fields := fields), Rows(q.selection, db.accounts);
    forall i | 0 <= i < |rows|
      ensures SelectedRows(q', db)[i].id == SelectedRows(q, db)[i].id
      ensures q.proxy.Some? ==> SelectedRows(q', db)[i].proxy == SelectedRows(q, db)[i].proxy
      ensures q.parent.Some? ==> SelectedRows(q', db)[i].parent == SelectedRows(q, db)[i].parent
    {
      ProjectionKeepsKeys(q, rows[i]);
      ProjectionKeepsKeys(q', rows[i]);
    }
  }

  /** A projection changes the scanned fields of the nodes and none of their edges. */
  lemma {:induction false} ProjectionKeepsEdges(q: Query, fields: seq<Column>, db: Database)
    ensures var nodes, projected := Load(q, db), Load(q.(fields := fields), db);
            |projected| == |nodes| &&
            forall i :: 0 <= i < |nodes| ==> projected[i] == nodes[i].(row := SelectedRows(q.(fields := fields), db)[i])
  {
    var q', rows, rows' := q.(fields := fields), SelectedRows(q, db), SelectedRows(q.(fields := fields), db);
    ProjectedKeys(q, fields, db);
    LoadIsStitch(q, db);
    LoadIsStitch(q', db);
    assert Fetch(q', rows', db) == Fetch(q, rows, db);
    var batch := Fetch(q, rows, db);
    forall i | 0 <= i < |rows|
      ensures Stitch(q', rows'[i], batch) == Stitch(q, rows[i], batch).(row := rows'[i])
    {
      assert rows'[i].id == IDs(rows')[i] && rows[i].id == IDs(rows)[i];
      SameFound(q, rows, rows', i, db);
    }
  }

  lemma {:induction false} SameFound(q: Query, rows: seq<AccountRow>, rows': seq<AccountRow>, i: nat, db: Database)
    requires i < |rows| == |rows'|
    requires q.proxy.Some? ==> ProxyKeys(rows') == ProxyKeys(rows)
    requires q.parent.Some? ==> ParentKeys(rows') == ParentKeys(rows)
    ensures FoundProxy(rows'[i], ProxiesFetched(q.proxy, rows, db)) ==
              FoundProxy(rows[i], ProxiesFetched(q.proxy, rows, db))
    ensures FoundParent(rows'[i], ParentsFetched(q.parent, rows, db)) ==
              FoundParent(rows[i], ParentsFetched(q.parent, rows, db))
  {
    if q.proxy.Some? {
      assert ProxyKeys(rows')[i] == rows'[i].proxy && ProxyKeys(rows)[i] == rows[i].proxy;
    }
    if q.parent.Some? {
      assert ParentKeys(rows')[i] == rows'[i].parent && ParentKeys(rows)[i] == rows[i].parent;
    }
  }
}
