/** What the edge accessors report about a loaded node. */
module EdgeAccess {
  import opened Tables
  import opened Queries
  import opened BatchedLoading
  import opened Stitching

  /** An edge that lists neighbours is reported as not loaded exactly if it was not requested. */
  lemma {:induction false} ListAccessors(q: Query, db: Database, i: nat, n: Account, R: set<Account>)
    requires i < |Load(q, db)| && Matches(n, Load(q, db)[i], R)
    ensures n.GroupsOrErr() == if q.groups.Some? then Loaded(Load(q, db)[i].groups) else NotLoaded
    ensures n.UsageLogsOrErr() == if q.usageLogs.Some? then Loaded(Load(q, db)[i].usageLogs) else NotLoaded
    ensures n.AccountGroupsOrErr() == if q.accountGroups.Some? then Loaded(Load(q, db)[i].accountGroups) else NotLoaded
    ensures q.children.None? ==> n.ChildrenOrErr() == NotLoaded
    ensures q.children.Some? ==>
              n.ChildrenOrErr().Loaded? && ChildrenMatch(n.ChildrenOrErr().value, Load(q, db)[i].children, R)
  {
  }

  /** The account that the parent key of `row` names, if the nested query lets it through. */
  ghost predicate ParentExists(q: Query, row: AccountRow, db: Database) {
    q.parent.Some? && row.parent.Some? &&
    exists r :: r in db.accounts && r.id == row.parent.value && q.parent.value.selection.Holds(r)
  }

  ghost predicate ProxyExists(q: Query, row: AccountRow, db: Database) {
    q.proxy.Some? && row.proxy.Some? &&
    exists p :: p in db.proxies && p.id == row.proxy.value && q.proxy.value.Holds(p)
  }

  lemma {:induction false} LookupFindsParent(q: Query, row: AccountRow, db: Database)
    ensures var found := Lookup(q, row, db).parent;
            q.parent.Some? && q.parent.value.selection.Unwindowed() ==>
              (found.Some? <==> ParentExists(q, row, db)) && (found.Some? ==> found.value.row.id == row.parent.value)
    ensures q.parent.None? ==> Lookup(q, row, db).parent.None?
  {
    LookedUpParent(q, row, db);
    if q.parent.Some? && row.parent.Some? {
      var sub := q.parent.value.selection;
      var found := Rows(sub.Where(RowHasID(row.parent.value)), db.accounts);
      RowsSound(sub.Where(RowHasID(row.parent.value)), db.accounts);
      forall r: AccountRow {
        WhereHolds(sub, RowHasID(row.parent.value), r);
      }
      if found != [] {
        assert found[0] in found;
        ProjectionKeepsKeys(q.parent.value, found[0]);
      }
    }
  }

  lemma {:induction false} LoadedTypesRequested(q: Query, db: Database, i: nat)
    requires i < |Load(q, db)|
    ensures Load(q, db)[i].loaded == Requested(q)
  {
  }

  lemma {:induction false} ParentKnown(q: Query, n: Account, v: Node, R: set<Account>, w: Node)
    requires Matches(n, v, R) && Agrees(q, v, w)
    ensures n.loadedTypes == v.loaded
    ensures n.parent != null <==> w.parent.Some?
    ensures n.parent != null ==> n.parent.row == w.parent.value.row
  {
    if n.parent != null {
      assert Matches(n.parent, v.parent.value, R) && Agrees(q.parent.value, v.parent.value, w.parent.value);
    }
  }

  /** The parent is loaded, not found, or not loaded, for exactly the reasons a lookup would give. */
  lemma {:induction false} ParentAccessor(q: Query, db: Database, i: nat, n: Account, R: set<Account>)
    requires db.Valid() && NestedUnwindowed(q)
    requires i < |Load(q, db)| && Matches(n, Load(q, db)[i], R)
    ensures var row := Rows(q.selection, db.accounts)[i];
            && (n.ParentOrErr().NotLoaded? <==> q.parent.None?)
            && (n.ParentOrErr().NotFound? <==> q.parent.Some? && !ParentExists(q, row, db))
            && (n.ParentOrErr().Loaded? ==> n.ParentOrErr().value.row.id == row.parent.value)
  {
    hide Load, Lookup, ParentExists, Matches, Agrees;
    var row := Rows(q.selection, db.accounts)[i];
    LoadRefinesLookup(q, db);
    LookupFindsParent(q, row, db);
    ParentKnown(q, n, Load(q, db)[i], R, Lookup(q, row, db));
    LoadedTypesRequested(q, db, i);
  }

  lemma {:induction false} LookupFindsProxy(q: Query, row: AccountRow, db: Database)
    ensures var found := Lookup(q, row, db).proxy;
            q.proxy.Some? && q.proxy.value.Unwindowed() ==>
              (found.Some? <==> ProxyExists(q, row, db)) &&
              (found.Some? ==> found.value in db.proxies && found.value.id == row.proxy.value)
    ensures q.proxy.None? ==> Lookup(q, row, db).proxy.None?
  {
    if q.proxy.Some? && row.proxy.Some? {
      var sub := q.proxy.value;
      var found := Rows(sub.Where(ProxyHasID(row.proxy.value)), db.proxies);
      RowsSound(sub.Where(ProxyHasID(row.proxy.value)), db.proxies);
      forall p: Proxy {
        WhereHolds(sub, ProxyHasID(row.proxy.value), p);
      }
      if found != [] {
        assert found[0] in found;
      }
    }
  }

  lemma {:induction false} ProxyAccessor(q: Query, db: Database, i: nat, n: Account, R: set<Account>)
    requires db.Valid() && NestedUnwindowed(q)
    requires i < |Load(q, db)| && Matches(n, Load(q, db)[i], R)
    ensures var row := Rows(q.selection, db.accounts)[i];
            && (n.ProxyOrErr().NotLoaded? <==> q.proxy.None?)
            && (n.ProxyOrErr().NotFound? <==> q.proxy.Some? && !ProxyExists(q, row, db))
            && (n.ProxyOrErr().Loaded? ==>
                 n.ProxyOrErr().value in db.proxies && n.ProxyOrErr().value.id == row.proxy.value)
  {
    hide Load, Lookup, ProxyExists;
    LoadRefinesLookup(q, db);
    LookupFindsProxy(q, Rows(q.selection, db.accounts)[i], db);
    LoadedTypesRequested(q, db, i);
  }
}
