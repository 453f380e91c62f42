/**
 * Batched eager loading refines the per-node lookup: the main theorem about account queries,
 * by induction on the nesting depth of the query tree.
 */
module BatchedLoading {
  import opened Tables
  import opened Queries

  // ---------------------------------------------------------------- many-to-many

  ghost predicate DistinctGroups(gs: seq<Group>) {
    forall i, j :: 0 <= i < j < |gs| ==> gs[i].id != gs[j].id
  }

  function GroupID(): Group -> int { (g: Group) => g.id }

  /** The neighbours are the groups of the rows, one per group id. */
  lemma {:induction false} NeighboursOfRows(rows: seq<JoinRow>)
    ensures DistinctGroups(Neighbours(rows))
    ensures forall g :: g in Neighbours(rows) ==> exists i :: 0 <= i < |rows| && rows[i].group == g
    ensures forall i :: 0 <= i < |rows| ==> Known(Neighbours(rows), rows[i].group.id)
  {
    if rows != [] {
      var n := |rows| - 1;
      NeighboursOfRows(rows[..n]);
      var gs, gs' := Neighbours(rows[..n]), Neighbours(rows);
      forall g | g in gs'
        ensures exists i :: 0 <= i < |rows| && rows[i].group == g
      {
        if g in gs {
          var i :| 0 <= i < n && rows[..n][i].group == g;
          assert rows[i].group == g;
        } else {
          assert rows[n].group == g;
        }
      }
      forall i | 0 <= i < |rows|
        ensures Known(gs', rows[i].group.id)
      {
        if i < n {
          assert rows[..n][i] == rows[i];
          var k :| 0 <= k < |gs| && gs[k].id == rows[i].group.id;
          assert gs'[k].id == rows[i].group.id;
        } else if !Known(gs, rows[n].group.id) {
          assert gs'[|gs|].id == rows[n].group.id;
        }
      }
    }
  }

  ghost predicate JoinedBy(links: seq<AccountGroup>, groups: seq<Group>, r: JoinRow) {
    r.group in groups &&
    exists k :: 0 <= k < |links| && links[k].accountID == r.accountID && links[k].groupID == r.group.id
  }

  lemma {:induction false} JoinOneMember(link: AccountGroup, groups: seq<Group>, r: JoinRow)
    ensures r in JoinOne(link, groups) <==>
              link.accountID == r.accountID && link.groupID == r.group.id && r.group in groups
  {
    var one, matches := JoinOne(link, groups), Filter(HasGroupID(link.groupID), groups);
    FilterSound(HasGroupID(link.groupID), groups);
    if r in one {
      var i :| 0 <= i < |one| && one[i] == r;
      assert matches[i] in matches;
    }
    if link.accountID == r.accountID && link.groupID == r.group.id && r.group in groups {
      assert r.group in matches;
      var i :| 0 <= i < |matches| && matches[i] == r.group;
      assert one[i] == r;
    }
  }

  lemma {:induction false} JoinMember(links: seq<AccountGroup>, groups: seq<Group>, r: JoinRow)
    ensures r in Join(links, groups) <==> JoinedBy(links, groups, r)
  {
    if links != [] {
      var n := |links| - 1;
      var init := links[..n];
      assert Join(links, groups) == Join(init, groups) + JoinOne(links[n], groups);
      hide Join, JoinOne;
      JoinMember(init, groups, r);
      JoinOneMember(links[n], groups, r);
      if JoinedBy(init, groups, r) {
        var k :| 0 <= k < n && init[k].accountID == r.accountID && init[k].groupID == r.group.id;
        assert links[k] == init[k];
      }
      if JoinedBy(links, groups, r) {
        var k :| 0 <= k < |links| && links[k].accountID == r.accountID && links[k].groupID == r.group.id;
        if k < n {
          assert init[k] == links[k];
        }
      }
    }
  }

  /** The joined rows of a groups query without a window: one account, one group, one link between them. */
  lemma {:induction false} JoinRowsMember(sel: Selection<Group>, owners: seq<int>, db: Database, r: JoinRow)
    requires sel.Unwindowed()
    ensures r in JoinRows(sel, owners, db) <==>
            r.accountID in owners && sel.Holds(r.group) && r.group in db.groups && HasLink(db, r.accountID, r.group.id)
  {
    var f := Filter(Joined(sel, owners), Join(db.accountGroups, db.groups));
    FilterSound(Joined(sel, owners), Join(db.accountGroups, db.groups));
    InMultiset(SortBy(LiftKeys(sel.order), f), f);
    JoinMember(db.accountGroups, db.groups, r);
    if HasLink(db, r.accountID, r.group.id) {
      var l :| l in db.accountGroups && l.accountID == r.accountID && l.groupID == r.group.id;
      var k :| 0 <= k < |db.accountGroups| && db.accountGroups[k] == l;
    }
  }

  /**
   * The joined rows of a groups query are sorted by its order terms on the group, and limit and offset take
   * their page of the rows of all accounts together.
   */
  lemma {:induction false} JoinRowsMean(sel: Selection<Group>, owners: seq<int>, db: Database)
    ensures var all := JoinRows(Open(sel), owners, db);
            && (forall i, j :: 0 <= i < j < |all| ==> NotAfter(sel.order, all[i].group, all[j].group))
            && IsPage(JoinRows(sel, owners, db), all, sel.limit, sel.offset)
  {
    var joined := Join(db.accountGroups, db.groups);
    assert forall r :: Joined(Open(sel), owners)(r) == Joined(sel, owners)(r);
    FilterExtensional(Joined(Open(sel), owners), Joined(sel, owners), joined);
    hide Join, Filter, SortBy, Joined, LiftKeys, NotAfter;
    var found := Filter(Joined(sel, owners), joined);
    var all := SortBy(LiftKeys(sel.order), found);
    SortSorted(LiftKeys(sel.order), found);
    assert all[0..] == all;
    forall i, j | 0 <= i < j < |all|
      ensures NotAfter(sel.order, all[i].group, all[j].group)
    {
      LiftedOrder(sel.order, all[i], all[j]);
    }
  }

  /** The same groups, each once, and both lists in the order asked for; ties may be broken differently. */
  ghost predicate SameGroups(order: seq<Group -> int>, a: seq<Group>, b: seq<Group>) {
    && DistinctGroups(a) && DistinctGroups(b) && (forall g :: g in a <==> g in b)
    && Sorted(order, a) && Sorted(order, b)
  }

  lemma {:induction false} SameID(db: Database, g: Group, h: Group)
    requires db.Valid() && g in db.groups && h in db.groups && g.id == h.id
    ensures g == h
  {
  }

  /** A group that one account gets from the batch is linked to it by the join table. */
  lemma {:induction false} GroupIsLinked(sel: Selection<Group>, owners: seq<int>, db: Database, accountID: int,
                                         g: Group)
    requires sel.Unwindowed() && g in GroupsOf(JoinRows(sel, owners, db), accountID)
    ensures g in db.groups && sel.Holds(g) && HasLink(db, accountID, g.id)
  {
    var rows := JoinRows(sel, owners, db);
    NeighboursOfRows(rows);
    FilterSound(LinkedTo(rows, accountID), Neighbours(rows));
    var i :| 0 <= i < |rows| && rows[i].group == g;
    JoinRowsMember(sel, owners, db, rows[i]);
    var j :| 0 <= j < |rows| && rows[j].accountID == accountID && rows[j].group.id == g.id;
    JoinRowsMember(sel, owners, db, rows[j]);
  }

  /** A group that the join table links to an account of the batch reaches that account. */
  lemma {:induction false} LinkedGroupArrives(sel: Selection<Group>, owners: seq<int>, db: Database, accountID: int,
                                              g: Group)
    requires db.Valid() && sel.Unwindowed() && accountID in owners
    requires g in db.groups && sel.Holds(g) && HasLink(db, accountID, g.id)
    ensures g in GroupsOf(JoinRows(sel, owners, db), accountID)
  {
    var rows, r := JoinRows(sel, owners, db), JoinRow(accountID, g);
    JoinRowsMember(sel, owners, db, r);
    NeighboursOfRows(rows);
    FilterSound(LinkedTo(rows, accountID), Neighbours(rows));
    var i :| 0 <= i < |rows| && rows[i] == r;
    assert Linked(rows, accountID, g.id);
    var k :| 0 <= k < |Neighbours(rows)| && Neighbours(rows)[k].id == g.id;
    assert Neighbours(rows)[k] in Neighbours(rows);
    var m :| 0 <= m < |rows| && rows[m].group == Neighbours(rows)[k];
    JoinRowsMember(sel, owners, db, rows[m]);
    SameID(db, g, Neighbours(rows)[k]);
  }

  lemma {:induction false} NeighboursSnoc(rows: seq<JoinRow>, r: JoinRow)
    ensures Neighbours(rows + [r]) ==
            if Known(Neighbours(rows), r.group.id) then Neighbours(rows) else Neighbours(rows) + [r.group]
  {
    assert (rows + [r])[..|rows|] == rows;
  }

  lemma {:induction false} LiftedOrder(keys: seq<Group -> int>, r: JoinRow, s: JoinRow)
    ensures NotAfter(LiftKeys(keys), r, s) <==> NotAfter(keys, r.group, s.group)
  {
    if keys != [] {
      var lifted := LiftKeys(keys);
      assert lifted[1..] == LiftKeys(keys[1..]);
      LiftedOrder(keys[1..], r, s);
    }
  }

  /** The neighbours keep the order of the rows. */
  lemma {:induction false} NeighboursSorted(keys: seq<Group -> int>, rows: seq<JoinRow>)
    requires Sorted(LiftKeys(keys), rows)
    ensures Sorted(keys, Neighbours(rows))
  {
    if rows != [] {
      var n := |rows| - 1;
      var gs := Neighbours(rows[..n]);
      NeighboursSorted(keys, rows[..n]);
      NeighboursOfRows(rows[..n]);
      forall k | 0 <= k < |gs|
        ensures NotAfter(keys, gs[k], rows[n].group)
      {
        assert gs[k] in gs;
        var i :| 0 <= i < n && rows[..n][i].group == gs[k];
        assert NotAfter(LiftKeys(keys), rows[i], rows[n]);
        LiftedOrder(keys, rows[i], rows[n]);
      }
    }
  }

  /** Every account gets its groups in the order that the groups query asks for. */
  lemma {:induction false} GroupsArriveSorted(sel: Selection<Group>, owners: seq<int>, db: Database, accountID: int)
    requires sel.Unwindowed()
    ensures Sorted(sel.order, GroupsOf(JoinRows(sel, owners, db), accountID))
  {
    var rows := JoinRows(sel, owners, db);
    SortSorted(LiftKeys(sel.order), Filter(Joined(sel, owners), Join(db.accountGroups, db.groups)));
    NeighboursSorted(sel.order, rows);
    FilterSorted(sel.order, LinkedTo(rows, accountID), Neighbours(rows));
  }

  lemma {:induction false} LookupGroupsMeans(sel: Selection<Group>, accountID: int, db: Database)
    requires db.Valid()
    ensures var b := LookupGroups(sel, accountID, db);
            && DistinctGroups(b) && Sorted(sel.order, b)
            && forall g :: g in b <==> g in db.groups && sel.Holds(g) && HasLink(db, accountID, g.id)
  {
    var found := Filter(LookupCondition(sel, accountID, db), db.groups);
    FilterDistinct(GroupID(), LookupCondition(sel, accountID, db), db.groups);
    FilterSound(LookupCondition(sel, accountID, db), db.groups);
    SortDistinct(sel.order, GroupID(), found);
    SortSorted(sel.order, found);
    InMultiset(SortBy(sel.order, found), found);
  }

  /**
   * Many-to-many loading gives an account exactly the groups that the join table links to it, each once
   * and in the order asked for.
   */
  lemma {:induction false} GroupsRefineJoin(sel: Selection<Group>, owners: seq<int>, db: Database, accountID: int)
    requires db.Valid() && sel.Unwindowed() && accountID in owners
    ensures SameGroups(sel.order, GroupsOf(JoinRows(sel, owners, db), accountID), LookupGroups(sel, accountID, db))
  {
    var rows := JoinRows(sel, owners, db);
    var a, b := GroupsOf(rows, accountID), LookupGroups(sel, accountID, db);
    NeighboursOfRows(rows);
    FilterDistinct(GroupID(), LinkedTo(rows, accountID), Neighbours(rows));
    GroupsArriveSorted(sel, owners, db, accountID);
    LookupGroupsMeans(sel, accountID, db);
    hide GroupsOf, JoinRows, LookupGroups, Sorted;
    forall g | g in a
      ensures g in b
    {
      GroupIsLinked(sel, owners, db, accountID, g);
    }
    forall g | g in b
      ensures g in a
    {
      LinkedGroupArrives(sel, owners, db, accountID, g);
    }
  }

  /** No two groups tie, as when the last order term is the id. */
  ghost predicate Separates(order: seq<Group -> int>) {
    forall g: Group, h: Group :: g.id != h.id ==> !(NotAfter(order, g, h) && NotAfter(order, h, g))
  }

  /** When no two groups tie, the two lists are equal. */
  lemma {:induction false} SeparatedGroupsAreEqual(order: seq<Group -> int>, a: seq<Group>, b: seq<Group>)
    requires Separates(order) && SameGroups(order, a, b)
    ensures a == b
  {
    EmptyTogether(a, b);
    if a != [] {
      var x, y := a[|a| - 1], b[|b| - 1];
      LastIsLast(order, a, b);
      WithoutLast(a, b);
      SeparatedGroupsAreEqual(order, a[..|a| - 1], b[..|b| - 1]);
      assert a == a[..|a| - 1] + [x] && b == b[..|b| - 1] + [y];
    }
  }

  lemma {:induction false} WithoutLast(a: seq<Group>, b: seq<Group>)
    requires DistinctGroups(a) && DistinctGroups(b) && forall g :: g in a <==> g in b
    requires a != [] && b != [] && a[|a| - 1] == b[|b| - 1]
    ensures var c, d := a[..|a| - 1], b[..|b| - 1];
            DistinctGroups(c) && DistinctGroups(d) && forall g :: g in c <==> g in d
  {
    var x, c, d := a[|a| - 1], a[..|a| - 1], b[..|b| - 1];
    assert a == c + [x] && b == d + [x];
    forall g
      ensures g in c <==> g in d
    {
      assert g in a <==> g in b;
      assert g in c ==> g.id != x.id;
      assert g in d ==> g.id != x.id;
    }
  }

  lemma {:induction false} LastIsLast(order: seq<Group -> int>, a: seq<Group>, b: seq<Group>)
    requires Separates(order) && SameGroups(order, a, b) && a != [] && b != []
    ensures a[|a| - 1] == b[|b| - 1]
  {
    var x, y := a[|a| - 1], b[|b| - 1];
    assert x in b && y in a;
    var i :| 0 <= i < |b| && b[i] == x;
    var j :| 0 <= j < |a| && a[j] == y;
    assert i < |b| - 1 ==> NotAfter(order, x, y);
    assert j < |a| - 1 ==> NotAfter(order, y, x);
  }

  // ---------------------------------------------------------------- the selected accounts

  /** Without a field selection all columns are asked for, with one the id, the fields, and the keys of the loaders. */
  lemma {:induction false} ColumnsMean(q: Query)
    ensures Columns(q) == [] <==> q.fields == []
    ensures q.fields != [] ==> forall c :: c in Columns(q) <==>
              || c == ID || c in q.fields
              || (c == ProxyID && q.proxy.Some?) || (c == ParentAccountID && q.parent.Some?)
  {
    if q.fields != [] {
      FilterSound(NotID(), q.fields);
      hide Filter;
      var base := [ID] + WithoutID(q.fields);
      assert forall c :: c in base <==> c == ID || c in q.fields;
    }
  }

  /** A scanned account holds the columns asked for as they are in the row, and nothing of the others. */
  lemma {:induction false} ScannedFields(q: Query, row: AccountRow)
    ensures var scanned := Project(Columns(q), row);
            && (q.fields == [] ==> scanned == row)
            && (q.fields != [] ==>
                 && scanned.id == row.id
                 && scanned.proxy == (if ProxyID in q.fields || q.proxy.Some? then row.proxy else None)
                 && scanned.parent == (if ParentAccountID in q.fields || q.parent.Some? then row.parent else None)
                 && (forall name :: name in scanned.plain <==> name in row.plain && Plain(name) in q.fields)
                 && forall name :: name in scanned.plain ==> scanned.plain[name] == row.plain[name])
  {
    ColumnsMean(q);
  }

  /**
   * A run returns one node for every account on the page that its limit and offset take of the selected
   * accounts, in their order, each with the scanned fields of that account.
   */
  lemma {:induction false} LoadedPage(q: Query, db: Database)
    ensures var all, page := Rows(Open(q.selection), db.accounts), Rows(q.selection, db.accounts);
            && IsPage(page, all, q.selection.limit, q.selection.offset)
            && |Load(q, db)| == |page|
            && forall k :: 0 <= k < |page| ==> Load(q, db)[k].row == Project(Columns(q), all[q.selection.offset + k])
  {
    RowsMean(q.selection, db.accounts);
    hide Rows, Fetch, Columns, Project;
  }

  // ---------------------------------------------------------------- the theorem

  /** No nested query, at any depth, has a limit or an offset. The query itself may have both. */
  ghost predicate NestedUnwindowed(q: Query)
    decreases Height(q)
  {
    && (q.groups.Some? ==> q.groups.value.selection.Unwindowed())
    && (q.proxy.Some? ==> q.proxy.value.Unwindowed())
    && (q.parent.Some? ==> q.parent.value.selection.Unwindowed() && NestedUnwindowed(q.parent.value))
    && (q.children.Some? ==> q.children.value.selection.Unwindowed() && NestedUnwindowed(q.children.value))
    && (q.usageLogs.Some? ==> q.usageLogs.value.Unwindowed())
    && (q.accountGroups.Some? ==> q.accountGroups.value.Unwindowed())
  }

  ghost predicate GroupsAgree(q: Query, a: seq<Group>, b: seq<Group>) {
    if q.groups.Some? then SameGroups(q.groups.value.selection.order, a, b) else a == b
  }

  /** Equal nodes of a query, up to ties in the order of the groups at every level. */
  ghost predicate Agrees(q: Query, a: Node, b: Node)
    decreases a
  {
    && a.row == b.row && a.loaded == b.loaded && a.proxy == b.proxy
    && a.usageLogs == b.usageLogs && a.accountGroups == b.accountGroups
    && GroupsAgree(q, a.groups, b.groups)
    && (a.parent.Some? <==> b.parent.Some?)
    && (a.parent.Some? ==> q.parent.Some? && Agrees(q.parent.value, a.parent.value, b.parent.value))
    && |a.children| == |b.children| && (a.children != [] ==> q.children.Some?)
    && forall i :: 0 <= i < |a.children| ==> Agrees(q.children.value, a.children[i], b.children[i])
  }

  /** Agreement does not depend on which accounts a query selects or which fields it scans. */
  lemma {:induction false} AgreesForBoth(q: Query, r: Query, a: Node, b: Node)
    requires q.groups == r.groups && q.parent == r.parent && q.children == r.children
    ensures Agrees(q, a, b) <==> Agrees(r, a, b)
  {
  }

  /** Every groups query in the tree orders the groups without ties. */
  ghost predicate GroupsSeparated(q: Query)
    decreases Height(q)
  {
    && (q.groups.Some? ==> Separates(q.groups.value.selection.order))
    && (q.parent.Some? ==> GroupsSeparated(q.parent.value))
    && (q.children.Some? ==> GroupsSeparated(q.children.value))
  }

  lemma {:induction false} AgreeingNodesAreEqual(q: Query, a: Node, b: Node)
    requires Agrees(q, a, b) && GroupsSeparated(q)
    ensures a == b
    decreases a
  {
    if q.groups.Some? {
      SeparatedGroupsAreEqual(q.groups.value.selection.order, a.groups, b.groups);
    }
    if a.parent.Some? {
      AgreeingNodesAreEqual(q.parent.value, a.parent.value, b.parent.value);
    }
    forall i | 0 <= i < |a.children|
      ensures a.children[i] == b.children[i]
    {
      AgreeingNodesAreEqual(q.children.value, a.children[i], b.children[i]);
    }
    assert a.children == b.children;
  }

  /** The lookup of an account does not depend on which accounts its query selects. */
  lemma {:induction false} LookupIgnoresSelection(q: Query, sel: Selection<AccountRow>, row: AccountRow, db: Database)
    ensures Lookup(q.(selection := sel), row, db) == Lookup(q, row, db)
  {
  }

  /** Projection safety: the id and the keys that the loaders read survive every projection. */
  lemma {:induction false} ProjectionKeepsKeys(q: Query, row: AccountRow)
    ensures Columns(q) != [] ==> Columns(q)[0] == ID && forall i :: 1 <= i < |Columns(q)| ==> Columns(q)[i] != ID
    ensures forall c :: c in q.fields ==> c in Columns(q)
    ensures Project(Columns(q), row).id == row.id
    ensures q.proxy.Some? || ProxyID in q.fields ==> Project(Columns(q), row).proxy == row.proxy
    ensures q.parent.Some? || ParentAccountID in q.fields ==> Project(Columns(q), row).parent == row.parent
    ensures Project(Columns(WithForeignKey(q)), row).parent == row.parent
  {
    KeysIn(q);
    KeysIn(WithForeignKey(q));
  }

  lemma {:induction false} KeysIn(q: Query)
    ensures Columns(q) != [] ==> Columns(q)[0] == ID && forall i :: 1 <= i < |Columns(q)| ==> Columns(q)[i] != ID
    ensures forall c :: c in q.fields ==> c in Columns(q)
    ensures q.fields != [] && q.proxy.Some? ==> ProxyID in Columns(q)
    ensures q.fields != [] && q.parent.Some? ==> ParentAccountID in Columns(q)
  {
    if q.fields != [] {
      var rest := WithoutID(q.fields);
      var base := [ID] + rest;
      FilterSound(NotID(), q.fields);
      forall i | 1 <= i < |base|
        ensures base[i] != ID
      {
        assert base[i] in rest;
      }
      forall c | c in q.fields
        ensures c in base
      {
        if c != ID { assert c in rest; }
      }
    }
  }

  lemma {:induction false} SameRow(db: Database, r: AccountRow, s: AccountRow)
    requires db.Valid() && r in db.accounts && s in db.accounts && r.id == s.id
    ensures r == s
  {
  }

  /** The proxy that the batch leaves in an account is the one a lookup by its key finds. */
  lemma {:induction false} ProxyRefinesLookup(sel: Selection<Proxy>, ids: seq<int>, key: int, db: Database)
    requires db.Valid() && sel.Unwindowed() && key in ids
    ensures PickLast(ProxyHasID(key), Rows(sel.Where(ProxyIDIn(ids)), db.proxies))
            == First(Rows(sel.Where(ProxyHasID(key)), db.proxies))
  {
    var rows := Rows(sel.Where(ProxyIDIn(ids)), db.proxies);
    RowsSound(sel.Where(ProxyIDIn(ids)), db.proxies);
    PickUnique(ProxyHasID(key), rows);
    BatchedSelect(sel, ProxyIDIn(ids), ProxyHasID(key), db.proxies);
  }

  /** The owned rows that the batch leaves in an account are those a lookup for it alone returns, in the same order. */
  lemma {:induction false} OwnedRefinesLookup(q: Query, rows: seq<AccountRow>, i: nat, db: Database)
    requires NestedUnwindowed(q) && i < |rows|
    ensures q.usageLogs.Some? ==>
              Filter(OwnsLog(rows[i].id), Rows(q.usageLogs.value.Where(LogOwnerIn(IDs(rows))), db.usageLogs))
              == Rows(q.usageLogs.value.Where(OwnsLog(rows[i].id)), db.usageLogs)
    ensures q.accountGroups.Some? ==>
              Filter(OwnsLink(rows[i].id), Rows(q.accountGroups.value.Where(LinkOwnerIn(IDs(rows))), db.accountGroups))
              == Rows(q.accountGroups.value.Where(OwnsLink(rows[i].id)), db.accountGroups)
  {
    assert rows[i].id == IDs(rows)[i];
    if q.usageLogs.Some? {
      BatchedSelect(q.usageLogs.value, LogOwnerIn(IDs(rows)), OwnsLog(rows[i].id), db.usageLogs);
    }
    if q.accountGroups.Some? {
      BatchedSelect(q.accountGroups.value, LinkOwnerIn(IDs(rows)), OwnsLink(rows[i].id), db.accountGroups);
    }
  }

  /** The loaded nodes and the looked-up accounts agree position by position. */
  ghost predicate LoadsLookup(q: Query, db: Database) {
    forall i :: 0 <= i < |Load(q, db)| ==> Agrees(q, Load(q, db)[i], Lookup(q, Rows(q.selection, db.accounts)[i], db))
  }

  lemma {:induction false} PickAligned(nodes: seq<Node>, rows: seq<AccountRow>, key: int)
    requires |nodes| == |rows|
    requires forall j :: 0 <= j < |nodes| ==> nodes[j].row.id == rows[j].id
    requires forall r, s :: r in rows && s in rows && r.id == s.id ==> r == s
    ensures var loaded, found := PickLast(HasID(key), nodes), First(Filter(RowHasID(key), rows));
            (loaded.Some? <==> found.Some?) && (loaded.Some? ==> Paired(nodes, rows, loaded.value, found.value))
  {
    PickLastAligned(HasID(key), RowHasID(key), nodes, rows);
    PickUnique(RowHasID(key), rows);
  }

  lemma {:induction false} ParentRefinesLookup(sub: Query, ids: seq<int>, key: int, db: Database)
    requires db.Valid() && sub.selection.Unwindowed() && key in ids
    requires LoadsLookup(ParentQuery(sub, ids), db)
    ensures var loaded := PickLast(HasID(key), Load(ParentQuery(sub, ids), db));
            var found := Rows(sub.selection.Where(RowHasID(key)), db.accounts);
            (loaded.Some? <==> found != []) && (loaded.Some? ==> Agrees(sub, loaded.value, Lookup(sub, found[0], db)))
  {
    hide Agrees, LoadsLookup, Lookup, Load;
    var pq := ParentQuery(sub, ids);
    var nodes, rows := Load(pq, db), Rows(pq.selection, db.accounts);
    RowsSound(pq.selection, db.accounts);
    forall j | 0 <= j < |nodes|
      ensures nodes[j].row.id == rows[j].id
    {
      ProjectionKeepsKeys(pq, rows[j]);
    }
    PickAligned(nodes, rows, key);
    BatchedSelect(sub.selection, IDIn(ids), RowHasID(key), db.accounts);
    var loaded, found := PickLast(HasID(key), nodes), Rows(sub.selection.Where(RowHasID(key)), db.accounts);
    if loaded.Some? {
      AgreesAt(pq, db, nodes, rows, loaded.value, found[0]);
      LookupIgnoresSelection(sub, pq.selection, found[0], db);
      AgreesForBoth(pq, sub, loaded.value, Lookup(sub, found[0], db));
    }
  }

  lemma {:induction false} AgreesAt(q: Query, db: Database, nodes: seq<Node>, rows: seq<AccountRow>, n: Node,
                                    r: AccountRow)
    requires nodes == Load(q, db) && rows == Rows(q.selection, db.accounts)
    requires LoadsLookup(q, db) && Paired(nodes, rows, n, r)
    ensures Agrees(q, n, Lookup(q, r, db))
  {
    var j :| 0 <= j < |nodes| && nodes[j] == n && rows[j] == r;
  }

  lemma {:induction false} ChildrenRefineLookup(sub: Query, owners: seq<int>, id: int, db: Database)
    requires sub.selection.Unwindowed() && id in owners
    requires LoadsLookup(ChildrenQuery(sub, owners), db)
    ensures var loaded := Filter(HasParent(id), Load(ChildrenQuery(sub, owners), db));
            var wanted := LookupAll(WithForeignKey(sub), Rows(sub.selection.Where(RowHasParent(id)), db.accounts), db);
            |loaded| == |wanted| && forall k :: 0 <= k < |loaded| ==> Agrees(sub, loaded[k], wanted[k])
  {
    hide Agrees, LoadsLookup, Lookup, Load;
    var cq := ChildrenQuery(sub, owners);
    var nodes, rows := Load(cq, db), Rows(cq.selection, db.accounts);
    forall j | 0 <= j < |nodes|
      ensures nodes[j].row.parent == rows[j].parent
    {
      ProjectionKeepsKeys(sub.(selection := cq.selection), rows[j]);
    }
    FilterAligned(HasParent(id), RowHasParent(id), nodes, rows);
    BatchedSelect(sub.selection, ParentIn(owners), RowHasParent(id), db.accounts);
    var loaded, found := Filter(HasParent(id), nodes), Rows(sub.selection.Where(RowHasParent(id)), db.accounts);
    forall k | 0 <= k < |loaded|
      ensures Agrees(sub, loaded[k], Lookup(WithForeignKey(sub), found[k], db))
    {
      AgreesAt(cq, db, nodes, rows, loaded[k], found[k]);
      LookupIgnoresSelection(WithForeignKey(sub), cq.selection, found[k], db);
      AgreesForBoth(cq, sub, loaded[k], Lookup(WithForeignKey(sub), found[k], db));
    }
  }

  lemma {:induction false} RowKeys(q: Query, i: nat, db: Database)
    requires i < |Load(q, db)|
    ensures var rows, row := SelectedRows(q, db), Rows(q.selection, db.accounts)[i];
            && |rows| == |Rows(q.selection, db.accounts)| && rows[i] == Project(Columns(q), row)
            && row.id == rows[i].id && row.id in IDs(rows)
            && (q.proxy.Some? ==>
                 rows[i].proxy == row.proxy && (row.proxy.Some? ==> row.proxy.value in DistinctKeys(ProxyKeys(rows))))
            && (q.parent.Some? ==>
                 rows[i].parent == row.parent &&
                 (row.parent.Some? ==> row.parent.value in DistinctKeys(ParentKeys(rows))))
  {
    DistinctKeysSound(ProxyKeys(SelectedRows(q, db)));
    DistinctKeysSound(ParentKeys(SelectedRows(q, db)));
    var rows, row := SelectedRows(q, db), Rows(q.selection, db.accounts)[i];
    ProjectionKeepsKeys(q, row);
    assert rows[i].id == IDs(rows)[i];
    assert rows[i].parent == ParentKeys(rows)[i] && rows[i].proxy == ProxyKeys(rows)[i];
  }

  lemma {:induction false} LeavesRefineLookup(q: Query, i: nat, db: Database)
    requires db.Valid() && NestedUnwindowed(q) && i < |Load(q, db)|
    ensures var a, b := Load(q, db)[i], Lookup(q, Rows(q.selection, db.accounts)[i], db);
            a.row == b.row && a.loaded == b.loaded && a.proxy == b.proxy && a.usageLogs == b.usageLogs &&
            a.accountGroups == b.accountGroups
  {
    var rows, row := SelectedRows(q, db), Rows(q.selection, db.accounts)[i];
    RowKeys(q, i, db);
    OwnedRefinesLookup(q, rows, i, db);
    if q.proxy.Some? && row.proxy.Some? {
      ProxyRefinesLookup(q.proxy.value, DistinctKeys(ProxyKeys(rows)), row.proxy.value, db);
    }
  }

  lemma {:induction false} GroupsEdgeRefinesLookup(q: Query, i: nat, db: Database)
    requires db.Valid() && NestedUnwindowed(q) && i < |Load(q, db)|
    ensures GroupsAgree(q, Load(q, db)[i].groups, Lookup(q, Rows(q.selection, db.accounts)[i], db).groups)
  {
    var rows, row := SelectedRows(q, db), Rows(q.selection, db.accounts)[i];
    RowKeys(q, i, db);
    if q.groups.Some? {
      GroupsRefineJoin(q.groups.value.selection, IDs(rows), db, row.id);
    }
  }

  lemma {:induction false} LoadedAt(q: Query, i: nat, db: Database)
    requires i < |Load(q, db)|
    ensures var rows := SelectedRows(q, db);
            Load(q, db)[i].parent == FoundParent(rows[i], ParentsFetched(q.parent, rows, db)) &&
            Load(q, db)[i].children == Filter(HasParent(rows[i].id), ChildrenFetched(q.children, rows, db))
  {
  }

  lemma {:induction false} LoadedParent(q: Query, i: nat, db: Database)
    requires i < |Load(q, db)|
    ensures var rows := SelectedRows(q, db);
            Load(q, db)[i].parent ==
            if q.parent.Some? && rows[i].parent.Some?
            then PickLast(HasID(rows[i].parent.value),
                          Load(ParentQuery(q.parent.value, DistinctKeys(ParentKeys(rows))), db))
            else None
  {
    var rows := SelectedRows(q, db);
    LoadedAt(q, i, db);
    if q.parent.Some? && rows[i].parent.Some? {
      assert rows[i].parent == ParentKeys(rows)[i];
      DistinctKeysSound(ParentKeys(rows));
      assert DistinctKeys(ParentKeys(rows)) != [];
    }
  }

  lemma {:induction false} LookedUpParent(q: Query, row: AccountRow, db: Database)
    ensures var b := Lookup(q, row, db).parent;
            if q.parent.Some? && row.parent.Some? then
              var found := Rows(q.parent.value.selection.Where(RowHasID(row.parent.value)), db.accounts);
              b == if found == [] then None else Some(Lookup(q.parent.value, found[0], db))
            else b == None
  {
  }

  lemma {:induction false} ParentEdgeRefinesLookup(q: Query, i: nat, db: Database)
    requires db.Valid() && NestedUnwindowed(q) && i < |Load(q, db)|
    requires q.parent.Some? ==>
               LoadsLookup(ParentQuery(q.parent.value, DistinctKeys(ParentKeys(SelectedRows(q, db)))), db)
    ensures var a, b := Load(q, db)[i].parent, Lookup(q, Rows(q.selection, db.accounts)[i], db).parent;
            (a.Some? <==> b.Some?) && (a.Some? ==> q.parent.Some? && Agrees(q.parent.value, a.value, b.value))
  {
    var rows, row := SelectedRows(q, db), Rows(q.selection, db.accounts)[i];
    RowKeys(q, i, db);
    LoadedParent(q, i, db);
    LookedUpParent(q, row, db);
    if q.parent.Some? && row.parent.Some? {
      ParentRefinesLookup(q.parent.value, DistinctKeys(ParentKeys(rows)), row.parent.value, db);
    }
  }

  lemma {:induction false} LookedUpChildren(q: Query, row: AccountRow, db: Database)
    ensures Lookup(q, row, db).children ==
            if q.children.Some?
            then LookupAll(WithForeignKey(q.children.value),
                           Rows(q.children.value.selection.Where(RowHasParent(row.id)), db.accounts), db)
            else []
  {
  }

  lemma {:induction false} ChildrenEdgeRefinesLookup(q: Query, i: nat, db: Database)
    requires db.Valid() && NestedUnwindowed(q) && i < |Load(q, db)|
    requires q.children.Some? ==> LoadsLookup(ChildrenQuery(q.children.value, IDs(SelectedRows(q, db))), db)
    ensures var a, b := Load(q, db)[i].children, Lookup(q, Rows(q.selection, db.accounts)[i], db).children;
            |a| == |b| && (a != [] ==> q.children.Some?) &&
              forall k :: 0 <= k < |a| ==> Agrees(q.children.value, a[k], b[k])
  {
    var rows, row := SelectedRows(q, db), Rows(q.selection, db.accounts)[i];
    RowKeys(q, i, db);
    LoadedAt(q, i, db);
    LookedUpChildren(q, row, db);
    if q.children.Some? {
      ChildrenRefineLookup(q.children.value, IDs(rows), row.id, db);
    }
  }

  /**
   * Batched loading is the per-node lookup, at every depth: for a database with unique primary keys
   * and nested queries without a window, every loaded node agrees with the account looked up alone.
   */
  lemma {:induction false} LoadRefinesLookup(q: Query, db: Database)
    requires db.Valid() && NestedUnwindowed(q)
    ensures |Load(q, db)| == |Rows(q.selection, db.accounts)|
    ensures forall i :: 0 <= i < |Load(q, db)| ==>
              Agrees(q, Load(q, db)[i], Lookup(q, Rows(q.selection, db.accounts)[i], db))
    decreases Height(q)
  {
    var rows := SelectedRows(q, db);
    if q.parent.Some? {
      LoadRefinesLookup(ParentQuery(q.parent.value, DistinctKeys(ParentKeys(rows))), db);
    }
    if q.children.Some? {
      LoadRefinesLookup(ChildrenQuery(q.children.value, IDs(rows)), db);
    }
    forall i | 0 <= i < |Load(q, db)|
      ensures Agrees(q, Load(q, db)[i], Lookup(q, Rows(q.selection, db.accounts)[i], db))
    {
      LeavesRefineLookup(q, i, db);
      GroupsEdgeRefinesLookup(q, i, db);
      ParentEdgeRefinesLookup(q, i, db);
      ChildrenEdgeRefinesLookup(q, i, db);
    }
  }

  // ---------------------------------------------------------------- what the loaders rely on

  /**
   * When every groups query in the tree orders the groups without ties, or none is requested, the loaded
   * nodes are the looked-up ones, order and all.
   */
  lemma {:induction false} LoadIsLookup(q: Query, db: Database)
    requires db.Valid() && NestedUnwindowed(q) && GroupsSeparated(q)
    ensures Load(q, db) == LookupAll(q, Rows(q.selection, db.accounts), db)
  {
    LoadRefinesLookup(q, db);
    var nodes, wanted := Load(q, db), LookupAll(q, Rows(q.selection, db.accounts), db);
    forall i | 0 <= i < |nodes|
      ensures nodes[i] == wanted[i]
    {
      AgreeingNodesAreEqual(q, nodes[i], wanted[i]);
    }
  }

  /** A database with unique keys returns every account once. */
  lemma {:induction false} SelectedIDsDistinct(q: Query, db: Database)
    requires db.Valid()
    ensures forall i, j :: 0 <= i < j < |SelectedRows(q, db)| ==> SelectedRows(q, db)[i].id != SelectedRows(q, db)[j].id
  {
    var key, rows := (r: AccountRow) => r.id, Rows(q.selection, db.accounts);
    RowsDistinct(q.selection, key, db.accounts);
    forall i | 0 <= i < |rows|
      ensures SelectedRows(q, db)[i].id == key(rows[i])
    {
      ProjectionKeepsKeys(q, rows[i]);
    }
  }

  /** The loaded parents carry ids that were asked for. */
  lemma {:induction false} ParentsWereAsked(sub: Query, ids: seq<int>, db: Database)
    ensures forall j :: 0 <= j < |Load(ParentQuery(sub, ids), db)| ==> Load(ParentQuery(sub, ids), db)[j].row.id in ids
  {
    var pq := ParentQuery(sub, ids);
    var rows := Rows(pq.selection, db.accounts);
    RowsSound(pq.selection, db.accounts);
    forall j | 0 <= j < |rows|
      ensures SelectedRows(pq, db)[j].id in ids
    {
      assert rows[j] in rows;
      WhereHolds(sub.selection, IDIn(ids), rows[j]);
      ProjectionKeepsKeys(pq, rows[j]);
    }
  }

  /** The loaded children carry a foreign key, and it was asked for. */
  lemma {:induction false} ChildrenWereAsked(sub: Query, ids: seq<int>, db: Database)
    ensures forall j :: 0 <= j < |Load(ChildrenQuery(sub, ids), db)| ==>
              var key := Load(ChildrenQuery(sub, ids), db)[j].row.parent;
              key.Some? && key.value in ids
  {
    var cq := ChildrenQuery(sub, ids);
    var rows := Rows(cq.selection, db.accounts);
    RowsSound(cq.selection, db.accounts);
    forall j | 0 <= j < |rows|
      ensures SelectedRows(cq, db)[j].parent.Some? && SelectedRows(cq, db)[j].parent.value in ids
    {
      assert rows[j] in rows;
      WhereHolds(sub.selection, ParentIn(ids), rows[j]);
      ProjectionKeepsKeys(sub.(selection := cq.selection), rows[j]);
    }
  }
}
