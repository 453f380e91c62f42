/**
 * The mutable query builder and its execution. A query owns its context and its nested queries;
 * running it stitches the batches into fresh nodes and leaves its predicates on the nested queries.
 */
module AccountQueries {
  import opened Tables
  import opened Queries
  import opened BatchedLoading
  import opened Stitching

  class QueryContext {
    var fields: seq<Column>
    var limit: Option<nat>
    var offset: Option<nat>
    var unique: Option<bool>

    constructor ()
      ensures fields == [] && limit == None && offset == None && unique == None
    {
      fields, limit, offset, unique := [], None, None, None;
    }

    method Apply(step: Step)
      requires OnContext(step)
      modifies this
      ensures limit == if step.Limit? then Some(step.limit) else old(limit)
      ensures offset == if step.Offset? then Some(step.offset) else old(offset)
      ensures unique == if step.Unique? then Some(step.unique) else old(unique)
      ensures fields == if step.Select? then old(fields) + step.fields else old(fields)
    {
      match step {
        case Limit(n) => limit := Some(n);
        case Offset(n) => offset := Some(n);
        case Unique(b) => unique := Some(b);
        case Select(more) => fields := fields + more;
      }
    }

    constructor CopyOf(c: QueryContext)
      ensures fields == c.fields && limit == c.limit && offset == c.offset && unique == c.unique
    {
      fields, limit, offset, unique := c.fields, c.limit, c.offset, c.unique;
    }
  }

  /** The calls that only change the context of the query. */
  predicate OnContext(step: Step) {
    step.Limit? || step.Offset? || step.Unique? || step.Select?
  }

  datatype OnlyResult = Single(node: Account) | NoNode | NotSingular

  /** The calls a caller may chain on a query, or make in the options of a nested one. */
  datatype Step =
    | Where(p: AccountRow -> bool)
    | Order(key: AccountRow -> int)
    | Limit(limit: nat)
    | Offset(offset: nat)
    | Unique(unique: bool)
    | Select(fields: seq<Column>)
    | LockRows(lock: Lock, postgres: bool)
    | WithGroups(groups: Selection<Group>)
    | WithProxy(proxy: Selection<Proxy>)
    | WithParent(opts: seq<Step>)
    | WithChildren(opts: seq<Step>)
    | WithUsageLogs(usageLogs: Selection<UsageLog>)
    | WithAccountGroups(accountGroups: Selection<AccountGroup>)

  predicate OnEdge(step: Step) {
    step.WithParent? || step.WithChildren? || step.WithGroups? || step.WithProxy? || step.WithUsageLogs? ||
      step.WithAccountGroups?
  }

  function BuildStep(q: Query, step: Step): Query
    decreases step
  {
    match step
    case Where(p) => q.(selection := q.selection.(predicates := q.selection.predicates + [p]))
    case Order(key) => q.(selection := q.selection.(order := q.selection.order + [key]))
    case Limit(n) => q.(selection := q.selection.(limit := n))
    case Offset(n) => q.(selection := q.selection.(offset := n))
    case Unique(b) => q.(unique := Some(b))
    case Select(fields) => q.(fields := q.fields + fields)
    case LockRows(lock, postgres) => q.(locks := q.locks + [lock], unique := if postgres then Some(false) else q.unique)
    case WithGroups(sub) => q.(groups := Some(GroupQueryModel(sub, [])))
    case WithProxy(sub) => q.(proxy := Some(sub))
    case WithParent(opts) => q.(parent := Some(Build(EmptyQuery(), opts)))
    case WithChildren(opts) => q.(children := Some(Build(EmptyQuery(), opts)))
    case WithUsageLogs(sub) => q.(usageLogs := Some(sub))
    case WithAccountGroups(sub) => q.(accountGroups := Some(sub))
  }

  function Build(q: Query, steps: seq<Step>): Query
    decreases steps
  {
    if steps == [] then q else BuildStep(Build(q, steps[..|steps| - 1]), steps[|steps| - 1])
  }

  lemma {:induction false} WindowLength<T>(limit: nat, sel: Selection<T>, table: seq<T>)
    requires limit != 0
    ensures var all := |Rows(sel.(limit := 0), table)|;
            |Rows(sel.(limit := limit), table)| == if all < limit then all else limit
  {
    var narrow, wide := sel.(limit := limit), sel.(limit := 0);
    assert forall x :: x in table ==> narrow.Condition()(x) == wide.Condition()(x);
    FilterExtensional(narrow.Condition(), wide.Condition(), table);
  }

  lemma {:induction false} LimitedLength(q: Query, n: nat, db: Database)
    requires n != 0
    ensures var all := |Rows(q.selection.(limit := 0), db.accounts)|;
            |Load(BuildStep(q, Limit(n)), db)| == if all < n then all else n
  {
    WindowLength(n, q.selection, db.accounts);
  }

  lemma {:induction false} LimitedPage(q: Query, n: nat, db: Database)
    ensures var nodes, all := Load(BuildStep(q, Limit(n)), db), Rows(Open(q.selection), db.accounts);
            forall k :: 0 <= k < |nodes| ==>
              q.selection.offset + k < |all| && nodes[k].row == Project(Columns(q), all[q.selection.offset + k])
  {
    var r := BuildStep(q, Limit(n));
    assert Open(r.selection) == Open(q.selection) && r.selection.offset == q.selection.offset;
    assert Columns(r) == Columns(q);
    hide BuildStep, Load, Rows, Columns, Project;
    LoadedPage(r, db);
  }

  function OrZero(n: Option<nat>): nat {
    if n.Some? then n.value else 0
  }

  class AccountQuery {
    var ctx: QueryContext
    var order: seq<AccountRow -> int>
    var predicates: seq<AccountRow -> bool>
    var modifiers: seq<Lock>
    var withGroups: Option<GroupQueryModel>
    var withProxy: Option<Selection<Proxy>>
    var withParent: AccountQuery?
    var withChildren: AccountQuery?
    var withUsageLogs: Option<Selection<UsageLog>>
    var withAccountGroups: Option<Selection<AccountGroup>>
    ghost var Repr: set<object>
    ghost var model: Query  // the query value that this object stands for

    /** The nested account queries form a finite tree of disjoint footprints. */
    ghost predicate Valid()
      reads this, Repr
    {
      && this in Repr && ctx in Repr
      && (withParent != null ==>
            withParent in Repr && withParent.Repr <= Repr && this !in withParent.Repr && ctx !in withParent.Repr &&
              withParent.Valid())
      && (withChildren != null ==>
            withChildren in Repr && withChildren.Repr <= Repr && this !in withChildren.Repr &&
              ctx !in withChildren.Repr && withChildren.Valid())
      && (withParent != null && withChildren != null ==> withParent.Repr !! withChildren.Repr)
      && model == Query(
        ctx.fields,
        Selection(predicates, order, OrZero(ctx.limit), OrZero(ctx.offset)),
        ctx.unique,
        modifiers,
        withGroups,
        withProxy,
        if withParent == null then None else Some(withParent.model),
        if withChildren == null then None else Some(withChildren.model),
        withUsageLogs,
        withAccountGroups)
    }

    constructor ()
      ensures Valid() && fresh(Repr) && model == EmptyQuery()
    {
      ctx := new QueryContext();
      order, predicates, modifiers := [], [], [];
      withGroups, withProxy, withParent, withChildren, withUsageLogs, withAccountGroups :=
        None, None, null, null, None, None;
      new;
      Repr := {this, ctx};
      model := EmptyQuery();
    }

    method Where(p: AccountRow -> bool)
      requires Valid()
      modifies this`predicates, this`model
      ensures Valid() && Repr == old(Repr)
      ensures model == old(model).(selection := old(model.selection).Where(p))
    {
      predicates := predicates + [p];
      model := model.(selection := model.selection.Where(p));
    }

    /** A projection must keep the foreign key of the children. */
    method SelectForeignKey()
      requires Valid()
      modifies ctx`fields, this`model
      ensures Valid() && Repr == old(Repr) && model == WithForeignKey(old(model))
    {
      if ctx.fields != [] {
        ctx.fields := AppendOnce(ctx.fields, ParentAccountID);
      }
      model := WithForeignKey(model);
    }

    /**
     * Run the query: scan the selected rows into fresh nodes, then load every requested edge.
     * The nodes are the loaded values, and the nested queries keep what the loaders left on them.
     */
    method SqlAll(db: Database) returns (nodes: seq<Account>, ghost R: set<Account>)
      requires Valid() && Unjoined(model) && db.Valid()
      modifies Repr
      ensures Valid() && Repr == old(Repr) && model == AfterLoad(old(model), db)
      ensures fresh(R) && NodesMatch(nodes, Load(old(model), db), R)
      decreases Repr, 4
    {
      nodes := Scan(db);
      if nodes == [] {
        return nodes, {};
      }
      R := LoadEdges(nodes, db);
    }

    /** Load every requested edge of the scanned nodes, the four plain edges first. */
    method LoadEdges(nodes: seq<Account>, db: Database) returns (ghost R: set<Account>)
      requires Valid() && db.Valid() && (model.groups.Some? ==> model.groups.value.joins == [])
      requires (model.parent.Some? ==> Unjoined(model.parent.value)) &&
               (model.children.Some? ==> Unjoined(model.children.value))
      requires nodes != [] && RowsOf(nodes) == SelectedRows(model, db) && DistinctIDs(nodes)
      requires forall n :: n in nodes ==> n !in Repr
      requires forall n {:trigger n in nodes} :: n in nodes ==> Blank(n) && n.loadedTypes == Requested(model)
      modifies Repr, nodes
      ensures Valid() && Repr == old(Repr) && model == AfterLoad(old(model), db)
      ensures R >= (set n | n in nodes) && fresh(R - (set n | n in nodes)) && NodesMatch(nodes, Load(old(model), db), R)
      decreases Repr, 3
    {
      hide Load, AfterLoad, SelectedRows, Height, RowsOf, Requested, IDs, NodesMatch, ParentMatches, ChildrenMatch;
      hide AfterGroups, AfterProxy, AfterUsageLogs, AfterAccountGroups, AfterParent, AfterChildren;
      hide GroupsFetched, ProxiesFetched, UsageLogsFetched, AccountGroupsFetched, ParentsFetched, ChildrenFetched;
      hide GroupsOf, FoundProxy, FoundParent, Filter, Unjoined, LeavesLoaded;
      ghost var q := model;
      AfterLoadParts(q, db);
      ghost var P, C;
      LoadLeafEdges(nodes, db);
      P, C := LoadNestedEdges(nodes, db);
      R := (set n | n in nodes) + P + C;
      AssembleNodes(nodes, q, db, P, C, R);
    }

    /** The edges to other accounts, loaded by the nested queries. */
    method LoadNestedEdges(nodes: seq<Account>, db: Database) returns (ghost P: set<Account>, ghost C: set<Account>)
      requires Valid() && db.Valid() && DistinctIDs(nodes)
      requires (model.parent.Some? ==> Unjoined(model.parent.value)) &&
               (model.children.Some? ==> Unjoined(model.children.value))
      requires forall n {:trigger n in nodes} :: n in nodes ==> n.parent == null && n.children == []
      requires forall n :: n in nodes ==> n !in Repr
      modifies Repr, nodes`parent, nodes`children
      ensures Valid() && Repr == old(Repr) && fresh(P) && fresh(C)
      ensures model == old(model).(parent := AfterParent(old(model).parent, RowsOf(nodes), db),
                                   children := AfterChildren(old(model).children, RowsOf(nodes), db))
      ensures forall n {:trigger n in nodes} :: n in nodes ==>
                ParentMatches(n.parent, FoundParent(n.row, ParentsFetched(old(model).parent, RowsOf(nodes), db)), P)
      ensures forall n :: n in nodes ==>
                ChildrenMatch(n.children,
                              Filter(HasParent(n.row.id), ChildrenFetched(old(model).children, RowsOf(nodes), db)), C)
      decreases Repr, 2
    {
      hide Load, AfterLoad, Height, RowsOf, IDs, AfterParent, AfterChildren, ParentsFetched, ChildrenFetched,
        FoundParent, Filter;
      hide ParentMatches, ChildrenMatch, Unjoined;
      var err;
      err, P := LoadParentEdge(nodes, db);
      err, C := LoadChildrenEdge(nodes, db);
    }

    /** One fresh account per selected row, with no edge loaded yet. */
    method Scan(db: Database) returns (nodes: seq<Account>)
      requires Valid() && db.Valid()
      ensures RowsOf(nodes) == SelectedRows(model, db) && DistinctIDs(nodes)
      ensures fresh(nodes)
      ensures forall n :: n in nodes ==> Blank(n) && n.loadedTypes == Requested(model)
    {
      hide Filter, SortBy, Insert, WithoutID, Project, Load, Height;
      var loadedTypes := LoadedTypes(withGroups.Some?, withProxy.Some?, withParent != null, withChildren != null,
                                     withUsageLogs.Some?, withAccountGroups.Some?);
      var rows := ProjectAll(
        ColumnsOf(ctx.fields, withProxy.Some?, withParent != null),
        Rows(Selection(predicates, order, OrZero(ctx.limit), OrZero(ctx.offset)), db.accounts));
      nodes := [];
      for i := 0 to |rows|
        invariant |nodes| == i && forall j :: 0 <= j < i ==> nodes[j].row == rows[j]
        invariant fresh(nodes)
        invariant forall n :: n in nodes ==> Blank(n) && n.loadedTypes == loadedTypes
      {
        var node := new Account(rows[i], loadedTypes);
        nodes := nodes + [node];
      }
      SelectedIDsDistinct(model, db);
    }

    /** The edges whose neighbours have no edges of their own. */
    method LoadLeafEdges(nodes: seq<Account>, db: Database)
      requires Valid() && (model.groups.Some? ==> model.groups.value.joins == []) && DistinctIDs(nodes)
      requires forall n :: n in nodes ==>
                 n.groups == [] && n.proxy == None && n.usageLogs == [] && n.accountGroups == []
      requires forall n :: n in nodes ==> n !in Repr
      modifies this, nodes
      ensures Repr == old(Repr)
      ensures forall n :: n in nodes ==> n.parent == old(n.parent) && n.children == old(n.children)
      ensures Valid() && model == AfterLeafEdges(old(model), RowsOf(nodes))
      ensures forall n :: n in nodes ==> LeavesLoaded(n, old(model), RowsOf(nodes), db)
    {
      var groups, proxy, usageLogs, accountGroups :=
        LoadLeaves(nodes, db, withGroups, withProxy, withUsageLogs, withAccountGroups);
      KeepLeaves(groups, proxy, usageLogs, accountGroups);
    }

    method KeepLeaves(groups: Option<GroupQueryModel>, proxy: Option<Selection<Proxy>>,
                      usageLogs: Option<Selection<UsageLog>>, accountGroups: Option<Selection<AccountGroup>>)
      requires Valid()
      modifies this`withGroups, this`withProxy, this`withUsageLogs, this`withAccountGroups, this`model
      ensures Valid() && model == old(model).(groups := groups, proxy := proxy, usageLogs := usageLogs,
                                              accountGroups := accountGroups)
    {
      withGroups, withProxy, withUsageLogs, withAccountGroups := groups, proxy, usageLogs, accountGroups;
      model := model.(groups := groups, proxy := proxy, usageLogs := usageLogs, accountGroups := accountGroups);
    }

    method LoadParentEdge(nodes: seq<Account>, db: Database) returns (err: Option<LoadError>, ghost R: set<Account>)
      requires Valid() && (model.parent.Some? ==> Unjoined(model.parent.value)) && db.Valid()
      requires forall n {:trigger n in nodes} :: n in nodes ==> n.parent == null
      requires forall n :: n in nodes ==> n !in Repr
      modifies Repr, nodes`parent
      ensures err == None && Valid() && Repr == old(Repr) && fresh(R)
      ensures model == old(model).(parent := AfterParent(old(model).parent, RowsOf(nodes), db))
      ensures forall n {:trigger n in nodes} :: n in nodes ==>
                ParentMatches(n.parent, FoundParent(n.row, ParentsFetched(old(model).parent, RowsOf(nodes), db)), R)
      decreases Repr, 1
    {
      hide Load, AfterLoad, Unjoined, Height, WithForeignKey, ParentsFetched, AfterParent, RowsOf, FoundParent;
      NoParentQuery(RowsOf(nodes), db);
      if withParent == null {
        return None, {};
      }
      hide ParentMatches;
      err, R := LoadParent(withParent, nodes, db);
      model := model.(parent := Some(withParent.model));
    }

    method LoadChildrenEdge(nodes: seq<Account>, db: Database) returns (err: Option<LoadError>, ghost R: set<Account>)
      requires Valid() && (model.children.Some? ==> Unjoined(model.children.value)) && db.Valid() && DistinctIDs(nodes)
      requires forall n :: n in nodes ==> n.children == [] && n !in Repr
      modifies Repr, nodes`children
      ensures err == None && Valid() && Repr == old(Repr) && fresh(R)
      ensures model == old(model).(children := AfterChildren(old(model).children, RowsOf(nodes), db))
      ensures forall n :: n in nodes ==>
                ChildrenMatch(n.children,
                              Filter(HasParent(n.row.id), ChildrenFetched(old(model).children, RowsOf(nodes), db)), R)
      decreases Repr, 1
    {
      hide Load, AfterLoad, Unjoined, Height, WithForeignKey;
      if withChildren == null {
        return None, {};
      }
      hide ChildrenFetched, AfterChildren, RowsOf, Filter, ChildrenMatch;
      err, R := LoadChildren(withChildren, nodes, db);
      model := model.(children := Some(withChildren.model));
    }

    /** The batched query for the accounts with one of the ids. */
    method ParentsOf(ids: seq<int>, db: Database) returns (neighbours: seq<Account>, ghost R: set<Account>)
      requires Valid() && Unjoined(model) && db.Valid()
      modifies Repr
      ensures Valid() && Repr == old(Repr) && model == AfterLoad(ParentQuery(old(model), ids), db)
      ensures fresh(R) && NodesMatch(neighbours, Load(ParentQuery(old(model), ids), db), R)
      decreases Repr, 5
    {
      Where(IDIn(ids));
      neighbours, R := SqlAll(db);
    }

    /** The batched query for the accounts whose parent is one of the owners. */
    method ChildrenOf(owners: seq<int>, db: Database) returns (neighbours: seq<Account>, ghost R: set<Account>)
      requires Valid() && Unjoined(model) && db.Valid()
      modifies Repr
      ensures Valid() && Repr == old(Repr) && model == AfterLoad(ChildrenQuery(old(model), owners), db)
      ensures fresh(R) && NodesMatch(neighbours, Load(ChildrenQuery(old(model), owners), db), R)
      decreases Repr, 5
    {
      SelectForeignKey();
      Where(ParentIn(owners));
      neighbours, R := SqlAll(db);
    }

    /** Configure the query by a sequence of builder calls; a nested query is always a new one. */
    method Apply(steps: seq<Step>)
      requires Valid()
      modifies this, ctx
      ensures Valid() && fresh(Repr - old(Repr)) && ctx == old(ctx)
      ensures model == Build(old(model), steps)
      decreases steps, 0
    {
      for i := 0 to |steps|
        invariant Valid() && fresh(Repr - old(Repr)) && ctx == old(ctx)
        invariant model == Build(old(model), steps[..i])
      {
        assert steps[..i + 1][..i] == steps[..i];
        ApplyStep(steps[i]);
      }
      assert steps[..|steps|] == steps;
    }

    method ApplyStep(step: Step)
      requires Valid()
      modifies this, ctx
      ensures Valid() && fresh(Repr - old(Repr)) && ctx == old(ctx)
      ensures model == BuildStep(old(model), step)
      decreases step
    {
      if step.WithParent? {
        var query := NewQuery(step.opts);
        AttachParent(query);
      } else if step.WithChildren? {
        var query := NewQuery(step.opts);
        AttachChildren(query);
      } else if OnEdge(step) {
        ApplyLeafStep(step);
      } else if OnContext(step) {
        ApplyContextStep(step);
      } else {
        ApplyPlainStep(step);
      }
    }

    /** The builder calls that concern the context only. */
    method ApplyContextStep(step: Step)
      requires Valid() && OnContext(step)
      modifies ctx, this`model
      ensures Valid() && Repr == old(Repr)
      ensures model == BuildStep(old(model), step)
    {
      hide Build, Height;
      ctx.Apply(step);
      model := BuildStep(model, step);
    }

    /** The builder calls that append to the query itself. */
    method ApplyPlainStep(step: Step)
      requires Valid() && (step.Where? || step.Order? || step.LockRows?)
      modifies this`predicates, this`order, this`modifiers, this`model, ctx`unique
      ensures Valid() && Repr == old(Repr)
      ensures model == BuildStep(old(model), step)
    {
      hide Build, Height;
      if step.Where? {
        predicates := predicates + [step.p];
      } else if step.Order? {
        order := order + [step.key];
      } else {
        if step.postgres { ctx.unique := Some(false); }
        modifiers := modifiers + [step.lock];
      }
      model := BuildStep(model, step);
    }

    /** The builder calls that request an edge without edges of its own. */
    method ApplyLeafStep(step: Step)
      requires Valid() && (step.WithGroups? || step.WithProxy? || step.WithUsageLogs? || step.WithAccountGroups?)
      modifies this`withGroups, this`withProxy, this`withUsageLogs, this`withAccountGroups, this`model
      ensures Valid() && model == BuildStep(old(model), step)
    {
      match step
      case WithGroups(sub) => KeepLeaves(Some(GroupQueryModel(sub, [])), withProxy, withUsageLogs, withAccountGroups);
      case WithProxy(sub) => KeepLeaves(withGroups, Some(sub), withUsageLogs, withAccountGroups);
      case WithUsageLogs(sub) => KeepLeaves(withGroups, withProxy, Some(sub), withAccountGroups);
      case WithAccountGroups(sub) => KeepLeaves(withGroups, withProxy, withUsageLogs, Some(sub));
    }

    method ApplyLimit(n: nat)
      requires Valid() && Unjoined(model)
      modifies ctx`limit, this`model
      ensures Valid() && Repr == old(Repr) && ctx == old(ctx)
      ensures model == BuildStep(old(model), Limit(n)) && Unjoined(model)
    {
      ctx.limit := Some(n);
      model := BuildStep(model, Limit(n));
    }

    /** The first account of the query. The limit stays on the query. */
    method First(db: Database) returns (node: Account?, ghost R: set<Account>)
      requires Valid() && Unjoined(model) && db.Valid()
      modifies Repr
      ensures Valid() && model == AfterLoad(BuildStep(old(model), Limit(1)), db)
      ensures node == null <==> Rows(old(model).selection.(limit := 0), db.accounts) == []
      ensures node != null ==> NodesMatch([node], Load(BuildStep(old(model), Limit(1)), db), R)
      ensures var all, offset := Rows(Open(old(model).selection), db.accounts), old(model).selection.offset;
              node != null ==> offset < |all| && node.row == Project(Columns(old(model)), all[offset])
    {
      ghost var q := model;
      hide BuildStep, Load, AfterLoad, Rows, Columns, Project, Unjoined, NodesMatch;
      ApplyLimit(1);
      var nodes: seq<Account>;
      nodes, R := SqlAll(db);
      FirstMatches(nodes, q, db, R);
      node := if |nodes| == 0 then null else nodes[0];
    }

    /** The account of the query if there is exactly one; the query's own limit does not count. */
    method Only(db: Database) returns (result: OnlyResult, ghost R: set<Account>)
      requires Valid() && Unjoined(model) && db.Valid()
      modifies Repr
      ensures Valid() && model == AfterLoad(BuildStep(old(model), Limit(2)), db)
      ensures var found := Rows(old(model).selection.(limit := 0), db.accounts);
              && (result.NoNode? <==> |found| == 0)
              && (result.Single? <==> |found| == 1)
              && (result.NotSingular? <==> |found| > 1)
      ensures result.Single? ==> NodesMatch([result.node], Load(BuildStep(old(model), Limit(2)), db), R)
    {
      hide BuildStep, Load, AfterLoad, Rows;
      LimitedLength(model, 2, db);
      ApplyLimit(2);
      var nodes: seq<Account>;
      nodes, R := SqlAll(db);
      result := if |nodes| == 1 then Single(nodes[0]) else if |nodes| == 0 then NoNode else NotSingular;
    }

    method AttachParent(query: AccountQuery)
      requires Valid() && query.Valid() && Repr !! query.Repr
      modifies this`withParent, this`Repr, this`model
      ensures Valid() && Repr == old(Repr) + query.Repr
      ensures model == old(model).(parent := Some(query.model))
    {
      withParent := query;
      model := model.(parent := Some(query.model));
      Repr := Repr + query.Repr;
    }

    method AttachChildren(query: AccountQuery)
      requires Valid() && query.Valid() && Repr !! query.Repr
      modifies this`withChildren, this`Repr, this`model
      ensures Valid() && Repr == old(Repr) + query.Repr
      ensures model == old(model).(children := Some(query.model))
    {
      withChildren := query;
      model := model.(children := Some(query.model));
      Repr := Repr + query.Repr;
    }

    /** Everything but the locks and the nested account queries. */
    constructor CopyOf(q: AccountQuery)
      requires q.Valid()
      ensures Valid() && fresh(Repr)
      ensures model == q.model.(locks := [], parent := None, children := None)
    {
      ctx := new QueryContext.CopyOf(q.ctx);
      order, predicates, modifiers := q.order, q.predicates, [];
      withGroups, withProxy, withUsageLogs, withAccountGroups :=
        q.withGroups, q.withProxy, q.withUsageLogs, q.withAccountGroups;
      withParent, withChildren := null, null;
      model := q.model.(locks := [], parent := None, children := None);
      new;
      Repr := {this, ctx};
    }
  }

  /** A fresh query, configured by its options. */
  method NewQuery(opts: seq<Step>) returns (query: AccountQuery)
    ensures query.Valid() && fresh(query.Repr) && query.model == Build(EmptyQuery(), opts)
    decreases opts, 1
  {
    query := new AccountQuery();
    query.Apply(opts);
  }

  // ---------------------------------------------------------------- running a query

  ghost predicate Blank(n: Account)
    reads n
  {
    n.groups == [] && n.proxy == None && n.parent == null && n.children == [] && n.usageLogs == [] &&
      n.accountGroups == []
  }

  /** The edges without edges of their own hold what the batches for `rows` fetched. */
  ghost predicate LeavesLoaded(n: Account, q: Query, rows: seq<AccountRow>, db: Database)
    reads n`groups, n`proxy, n`usageLogs, n`accountGroups
  {
    && n.groups == GroupsOf(GroupsFetched(q.groups, rows, db), n.row.id)
    && n.proxy == FoundProxy(n.row, ProxiesFetched(q.proxy, rows, db))
    && n.usageLogs == Filter(OwnsLog(n.row.id), UsageLogsFetched(q.usageLogs, rows, db))
    && n.accountGroups == Filter(OwnsLink(n.row.id), AccountGroupsFetched(q.accountGroups, rows, db))
  }

  ghost predicate LeafEdgesMatch(n: Account, v: Node)
    reads n
  {
    n.row == v.row && n.groups == v.groups && n.proxy == v.proxy && n.usageLogs == v.usageLogs &&
      n.accountGroups == v.accountGroups
  }

  ghost function AfterLeafEdges(q: Query, rows: seq<AccountRow>): Query {
    q.(groups := AfterGroups(q.groups, rows),
       proxy := AfterProxy(q.proxy, rows),
       usageLogs := AfterUsageLogs(q.usageLogs, rows),
       accountGroups := AfterAccountGroups(q.accountGroups, rows))
  }

  lemma {:induction false} AssembleNode(n: Account, v: Node, P: set<Account>, C: set<Account>, R: set<Account>)
    requires n in R && P <= R && C <= R
    requires LeafEdgesMatch(n, v) && n.loadedTypes == v.loaded
    requires ParentMatches(n.parent, v.parent, P) && ChildrenMatch(n.children, v.children, C)
    ensures Matches(n, v, R)
  {
    if n.parent != null {
      MatchesMonotone(n.parent, v.parent.value, P, R);
    }
    forall i | 0 <= i < |v.children|
      ensures Matches(n.children[i], v.children[i], R)
    {
      MatchesMonotone(n.children[i], v.children[i], C, R);
    }
  }

  lemma {:induction false} NoParentQuery(rows: seq<AccountRow>, db: Database)
    ensures AfterParent(None, rows, db) == None
    ensures forall row :: FoundParent(row, ParentsFetched(None, rows, db)) == None
  {
  }

  lemma {:induction false} AfterLoadParts(q: Query, db: Database)
    ensures var rows := SelectedRows(q, db);
            AfterLoad(q, db) == if rows == [] then q else
              AfterLeafEdges(q, rows).(parent := AfterParent(q.parent, rows, db),
                                       children := AfterChildren(q.children, rows, db))
  {
  }

  lemma {:induction false} AssembleNodes(nodes: seq<Account>, q: Query, db: Database, P: set<Account>, C: set<Account>,
                                         R: set<Account>)
    requires RowsOf(nodes) == SelectedRows(q, db)
    requires (set n | n in nodes) <= R && P <= R && C <= R
    requires forall n :: n in nodes ==> n.loadedTypes == Requested(q)
    requires forall n :: n in nodes ==> LeavesLoaded(n, q, RowsOf(nodes), db)
    requires forall n {:trigger n in nodes} :: n in nodes ==>
               ParentMatches(n.parent, FoundParent(n.row, ParentsFetched(q.parent, RowsOf(nodes), db)), P)
    requires forall n :: n in nodes ==>
               ChildrenMatch(n.children,
                             Filter(HasParent(n.row.id), ChildrenFetched(q.children, RowsOf(nodes), db)), C)
    ensures NodesMatch(nodes, Load(q, db), R)
  {
    forall i | 0 <= i < |nodes|
      ensures Matches(nodes[i], Load(q, db)[i], R)
    {
      assert nodes[i] in nodes;
      AssembleNode(nodes[i], Stitch(q, RowsOf(nodes)[i], Fetch(q, RowsOf(nodes), db)), P, C, R);
    }
  }

  lemma {:induction false} KeysOfRows(nodes: seq<Account>)
    ensures KeysOf(ProxyKey(), nodes) == ProxyKeys(RowsOf(nodes))
    ensures KeysOf(ParentKey(), nodes) == ParentKeys(RowsOf(nodes))
  {
  }

  lemma {:induction false} OwnedWereAsked(logs: Selection<UsageLog>, links: Selection<AccountGroup>, ids: seq<int>,
                                          db: Database)
    ensures forall u :: u in Rows(logs.Where(LogOwnerIn(ids)), db.usageLogs) ==> u.accountID in ids
    ensures forall l :: l in Rows(links.Where(LinkOwnerIn(ids)), db.accountGroups) ==> l.accountID in ids
  {
    RowsSound(logs.Where(LogOwnerIn(ids)), db.usageLogs);
    RowsSound(links.Where(LinkOwnerIn(ids)), db.accountGroups);
    forall u: UsageLog { WhereHolds(logs, LogOwnerIn(ids), u); }
    forall l: AccountGroup { WhereHolds(links, LinkOwnerIn(ids), l); }
  }

  lemma {:induction false} ProxiesWereAsked(sub: Selection<Proxy>, ids: seq<int>, db: Database)
    ensures forall p :: p in Rows(sub.Where(ProxyIDIn(ids)), db.proxies) ==> p.id in ids
  {
    RowsSound(sub.Where(ProxyIDIn(ids)), db.proxies);
    forall p: Proxy { WhereHolds(sub, ProxyIDIn(ids), p); }
  }

  lemma {:induction false} JoinedWereAsked(sel: Selection<Group>, ids: seq<int>, db: Database)
    ensures forall r :: r in JoinRows(sel, ids, db) ==> r.accountID in ids
  {
    var f := Filter(Joined(sel, ids), Join(db.accountGroups, db.groups));
    FilterSound(Joined(sel, ids), Join(db.accountGroups, db.groups));
    InMultiset(SortBy(LiftKeys(sel.order), f), f);
  }

  method LoadGroups(sub: Option<GroupQueryModel>, nodes: seq<Account>, db: Database)
    returns (sub': Option<GroupQueryModel>)
    requires sub.Some? ==> sub.value.joins == []
    requires DistinctIDs(nodes) && forall n :: n in nodes ==> n.groups == []
    modifies nodes`groups
    ensures sub' == AfterGroups(sub, RowsOf(nodes))
    ensures forall n :: n in nodes ==>
              n.groups == GroupsOf(GroupsFetched(sub, RowsOf(nodes), db), n.row.id)
  {
    if sub.None? {
      return None;
    }
    var edgeIDs, byID := IndexByID(nodes);
    sub' := Some(sub.value.(joins := sub.value.joins + [edgeIDs]));
    var rows := JoinRows(sub.value.selection, edgeIDs, db);
    JoinedWereAsked(sub.value.selection, edgeIDs, db);
    var nids, neighbours := CollectNeighbours(nodes, byID, rows);
    AssignGroups(nodes, rows, nids, neighbours);
  }

  method LoadProxy(sub: Option<Selection<Proxy>>, nodes: seq<Account>, db: Database)
    returns (sub': Option<Selection<Proxy>>, err: Option<LoadError>)
    requires forall n :: n in nodes ==> n.proxy == None
    modifies nodes`proxy
    ensures err == None
    ensures sub' == AfterProxy(sub, RowsOf(nodes))
    ensures forall n :: n in nodes ==>
              n.proxy == FoundProxy(n.row, ProxiesFetched(sub, RowsOf(nodes), db))
  {
    if sub.None? {
      return sub, None;
    }
    KeysOfRows(nodes);
    var ids, nodeids := BucketBy(ProxyKey(), nodes);
    if ids == [] {
      return sub, None;
    }
    sub' := Some(sub.value.Where(ProxyIDIn(ids)));
    var neighbours := Rows(sub'.value, db.proxies);
    ProxiesWereAsked(sub.value, ids, db);
    err := AssignProxies(nodes, nodeids, neighbours);
  }

  method LoadUsageLogs(sub: Option<Selection<UsageLog>>, nodes: seq<Account>, db: Database)
    returns (sub': Option<Selection<UsageLog>>, err: Option<LoadError>)
    requires DistinctIDs(nodes) && forall n :: n in nodes ==> n.usageLogs == []
    modifies nodes`usageLogs
    ensures err == None
    ensures sub' == AfterUsageLogs(sub, RowsOf(nodes))
    ensures forall n :: n in nodes ==>
              n.usageLogs == Filter(OwnsLog(n.row.id), UsageLogsFetched(sub, RowsOf(nodes), db))
  {
    if sub.None? {
      return sub, None;
    }
    var fks, nodeids := IndexByID(nodes);
    sub' := Some(sub.value.Where(LogOwnerIn(fks)));
    var neighbours := Rows(sub'.value, db.usageLogs);
    OwnedWereAsked(sub.value, Unrestricted(), fks, db);
    err := AssignUsageLogs(nodes, nodeids, neighbours);
  }

  method LoadAccountGroups(sub: Option<Selection<AccountGroup>>, nodes: seq<Account>, db: Database)
    returns (sub': Option<Selection<AccountGroup>>, err: Option<LoadError>)
    requires DistinctIDs(nodes) && forall n :: n in nodes ==> n.accountGroups == []
    modifies nodes`accountGroups
    ensures err == None
    ensures sub' == AfterAccountGroups(sub, RowsOf(nodes))
    ensures forall n :: n in nodes ==>
              n.accountGroups == Filter(OwnsLink(n.row.id), AccountGroupsFetched(sub, RowsOf(nodes), db))
  {
    if sub.None? {
      return sub, None;
    }
    var fks, nodeids := IndexByID(nodes);
    sub' := Some(sub.value.Where(LinkOwnerIn(fks)));
    var neighbours := Rows(sub'.value, db.accountGroups);
    OwnedWereAsked(Unrestricted(), sub.value, fks, db);
    err := AssignAccountGroups(nodes, nodeids, neighbours);
  }

  /** The four edges whose neighbours have no edges of their own. */
  method LoadLeaves(nodes: seq<Account>, db: Database,
                    groups: Option<GroupQueryModel>, proxy: Option<Selection<Proxy>>,
                    usageLogs: Option<Selection<UsageLog>>, accountGroups: Option<Selection<AccountGroup>>)
    returns (groups': Option<GroupQueryModel>, proxy': Option<Selection<Proxy>>,
             usageLogs': Option<Selection<UsageLog>>, accountGroups': Option<Selection<AccountGroup>>)
    requires groups.Some? ==> groups.value.joins == []
    requires DistinctIDs(nodes)
    requires forall n :: n in nodes ==> n.groups == [] && n.proxy == None && n.usageLogs == [] && n.accountGroups == []
    modifies nodes`groups, nodes`proxy, nodes`usageLogs, nodes`accountGroups
    ensures var rows := RowsOf(nodes);
            groups' == AfterGroups(groups, rows) && proxy' == AfterProxy(proxy, rows) &&
            usageLogs' == AfterUsageLogs(usageLogs, rows) && accountGroups' == AfterAccountGroups(accountGroups, rows)
    ensures forall n :: n in nodes ==>
              && n.groups == GroupsOf(GroupsFetched(groups, RowsOf(nodes), db), n.row.id)
              && n.proxy == FoundProxy(n.row, ProxiesFetched(proxy, RowsOf(nodes), db))
              && n.usageLogs == Filter(OwnsLog(n.row.id), UsageLogsFetched(usageLogs, RowsOf(nodes), db))
              && n.accountGroups == Filter(OwnsLink(n.row.id), AccountGroupsFetched(accountGroups, RowsOf(nodes), db))
  {
    hide AfterGroups, AfterProxy, AfterUsageLogs, AfterAccountGroups;
    hide GroupsFetched, ProxiesFetched, UsageLogsFetched, AccountGroupsFetched, GroupsOf, FoundProxy, Filter;
    var err;
    groups' := LoadGroups(groups, nodes, db);
    proxy', err := LoadProxy(proxy, nodes, db);
    usageLogs', err := LoadUsageLogs(usageLogs, nodes, db);
    accountGroups', err := LoadAccountGroups(accountGroups, nodes, db);
  }

  /** Hand the neighbours to the nodes that point at them. */
  method StitchParents(nodes: seq<Account>, nodeids: map<int, seq<Account>>, neighbours: seq<Account>,
                       ghost values: seq<Node>, ghost R: set<Account>)
    returns (err: Option<LoadError>)
    requires forall n {:trigger n in nodes} :: n in nodes ==> n.parent == null
    requires forall n :: n in nodes ==> n !in R
    requires Bucketed(ParentKey(), nodeids, nodes)
    requires NodesMatch(neighbours, values, R)
    requires forall j :: 0 <= j < |values| ==> values[j].row.id in nodeids
    modifies nodes`parent
    ensures err == None
    ensures forall n {:trigger n in nodes} :: n in nodes ==> ParentMatches(n.parent, FoundParent(n.row, values), R)
  {
    forall id | id in IDs(RowsOf(neighbours))
      ensures id in nodeids
    {
      var j :| 0 <= j < |neighbours| && IDs(RowsOf(neighbours))[j] == id;
      assert Matches(neighbours[j], values[j], R);
    }
    err := AssignParents(nodes, nodeids, neighbours);
    assert NodesMatch(neighbours, values, R);
    forall n | n in nodes
      ensures ParentMatches(n.parent, FoundParent(n.row, values), R)
    {
      LastParentMatches(n.row.parent, neighbours, values, R);
    }
  }

  method StitchChildren(nodes: seq<Account>, nodeids: map<int, Account>, neighbours: seq<Account>,
                        ghost values: seq<Node>, ghost R: set<Account>)
    returns (err: Option<LoadError>)
    requires forall n :: n in nodes ==> n.children == [] && n !in R
    requires forall n :: n in nodes ==> n.row.id in nodeids && nodeids[n.row.id] == n
    requires forall k :: k in nodeids ==> nodeids[k] in nodes && nodeids[k].row.id == k
    requires NodesMatch(neighbours, values, R)
    requires forall j :: 0 <= j < |values| ==> values[j].row.parent.Some? && values[j].row.parent.value in nodeids
    modifies nodes`children
    ensures err == None
    ensures forall n :: n in nodes ==> ChildrenMatch(n.children, Filter(HasParent(n.row.id), values), R)
  {
    forall c | c in neighbours
      ensures c.row.parent.Some? && c.row.parent.value in nodeids
    {
      var j :| 0 <= j < |neighbours| && neighbours[j] == c;
      assert Matches(neighbours[j], values[j], R);
    }
    err := AssignChildren(nodes, nodeids, neighbours);
    assert NodesMatch(neighbours, values, R);
    forall n | n in nodes
      ensures ChildrenMatch(n.children, Filter(HasParent(n.row.id), values), R)
    {
      ChildrenOfMatch(n.row.id, neighbours, values, R);
    }
  }

  method LoadParent(query: AccountQuery, nodes: seq<Account>, db: Database)
    returns (err: Option<LoadError>, ghost R: set<Account>)
    requires query.Valid() && Unjoined(query.model) && db.Valid()
    requires forall n {:trigger n in nodes} :: n in nodes ==> n.parent == null
    requires forall n :: n in nodes ==> n !in query.Repr
    modifies query.Repr, nodes`parent
    ensures err == None && query.Valid() && query.Repr == old(query.Repr) && fresh(R)
    ensures Some(query.model) == AfterParent(Some(old(query.model)), RowsOf(nodes), db)
    ensures forall n {:trigger n in nodes} :: n in nodes ==>
              ParentMatches(n.parent, FoundParent(n.row, ParentsFetched(Some(old(query.model)), RowsOf(nodes), db)), R)
    decreases query.Repr, 6
  {
    hide Load, AfterLoad, SelectedRows, Height, Filter, Unjoined;
    KeysOfRows(nodes);
    var ids, nodeids := BucketBy(ParentKey(), nodes);
    if ids == [] {
      return None, {};
    }
    ghost var values := Load(ParentQuery(query.model, ids), db);
    ParentsWereAsked(query.model, ids, db);
    var neighbours: seq<Account>;
    neighbours, R := query.ParentsOf(ids, db);
    err := StitchParents(nodes, nodeids, neighbours, values, R);
  }

  method LoadChildren(query: AccountQuery, nodes: seq<Account>, db: Database)
    returns (err: Option<LoadError>, ghost R: set<Account>)
    requires query.Valid() && Unjoined(query.model) && db.Valid() && DistinctIDs(nodes)
    requires forall n :: n in nodes ==> n.children == [] && n !in query.Repr
    modifies query.Repr, nodes`children
    ensures err == None && query.Valid() && query.Repr == old(query.Repr) && fresh(R)
    ensures Some(query.model) == AfterChildren(Some(old(query.model)), RowsOf(nodes), db)
    ensures forall n :: n in nodes ==>
              ChildrenMatch(n.children,
                            Filter(HasParent(n.row.id), ChildrenFetched(Some(old(query.model)), RowsOf(nodes), db)), R)
    decreases query.Repr, 6
  {
    hide Load, AfterLoad, SelectedRows, Height, WithForeignKey, Filter, Unjoined;
    var fks, nodeids := IndexByID(nodes);
    ghost var values := Load(ChildrenQuery(query.model, fks), db);
    ChildrenWereAsked(query.model, fks, db);
    var neighbours: seq<Account>;
    neighbours, R := query.ChildrenOf(fks, db);
    err := StitchChildren(nodes, nodeids, neighbours, values, R);
  }

  /** The accounts that a query limited to one returns: none, or the first one after its offset. */
  lemma {:induction false} FirstMatches(nodes: seq<Account>, q: Query, db: Database, R: set<Account>)
    requires NodesMatch(nodes, Load(BuildStep(q, Limit(1)), db), R)
    ensures nodes == [] <==> Rows(q.selection.(limit := 0), db.accounts) == []
    ensures var all, offset := Rows(Open(q.selection), db.accounts), q.selection.offset;
            nodes != [] ==>
              && NodesMatch([nodes[0]], Load(BuildStep(q, Limit(1)), db), R)
              && offset < |all| && nodes[0].row == Project(Columns(q), all[offset])
  {
    LimitedLength(q, 1, db);
    LimitedPage(q, 1, db);
    hide BuildStep, Load, Rows, Columns, Project;
    if nodes != [] {
      var loaded := Load(BuildStep(q, Limit(1)), db);
      assert Matches(nodes[0], loaded[0], R);
      assert nodes == [nodes[0]];
    }
  }

  // ---------------------------------------------------------------- cloning

  /** A clone copies every nested query, shares nothing, and drops the locks. */
  method Clone(q: AccountQuery) returns (c: AccountQuery)
    requires q.Valid()
    ensures c.Valid() && fresh(c.Repr)
    ensures c.model == WithoutLocks(q.model)
    decreases q.Repr, 1
  {
    c := new AccountQuery.CopyOf(q);
    CloneParent(q, c);
    CloneChildren(q, c);
  }

  method CloneParent(q: AccountQuery, c: AccountQuery)
    requires q.Valid() && c.Valid() && c.Repr !! q.Repr
    modifies c
    ensures c.Valid() && fresh(c.Repr - old(c.Repr))
    ensures c.model == old(c.model).(parent := if q.model.parent.None? then old(c.model).parent
                                     else Some(WithoutLocks(q.model.parent.value)))
    decreases q.Repr, 0
  {
    if q.withParent != null {
      var query := Clone(q.withParent);
      c.AttachParent(query);
    }
  }

  method CloneChildren(q: AccountQuery, c: AccountQuery)
    requires q.Valid() && c.Valid() && c.Repr !! q.Repr
    modifies c
    ensures c.Valid() && fresh(c.Repr - old(c.Repr))
    ensures c.model == old(c.model).(children := if q.model.children.None? then old(c.model).children
                                     else Some(WithoutLocks(q.model.children.value)))
    decreases q.Repr, 0
  {
    if q.withChildren != null {
      var query := Clone(q.withChildren);
      c.AttachChildren(query);
    }
  }

  /** What a caller does with a query, and with which of the two. */
  datatype Use = Call(step: Step) | Run(db: Database)
  datatype Tagged = Tagged(onClone: bool, use: Use)

  ghost function AfterUse(q: Query, use: Use): Query {
    match use
    case Call(step) => BuildStep(q, step)
    case Run(db) => AfterLoad(q, db)
  }

  ghost function AfterUses(q: Query, uses: seq<Use>): Query {
    if uses == [] then q else AfterUse(AfterUses(q, uses[..|uses| - 1]), uses[|uses| - 1])
  }

  /** Every run is of a query without joins left by an earlier one, on a valid database. */
  ghost predicate Runnable(q: Query, uses: seq<Use>) {
    uses == [] ||
    var init, last := uses[..|uses| - 1], uses[|uses| - 1];
    Runnable(q, init) && (last.Run? ==> last.db.Valid() && Unjoined(AfterUses(q, init)))
  }

  /** The uses of one of the two queries, in order. */
  ghost function UsesOf(uses: seq<Tagged>, clone: bool): seq<Use> {
    if uses == [] then []
    else UsesOf(uses[..|uses| - 1], clone) + if uses[|uses| - 1].onClone == clone then [uses[|uses| - 1].use] else []
  }

  lemma {:induction false} LastUse(q: Query, uses: seq<Tagged>, clone: bool)
    requires uses != [] && Runnable(q, UsesOf(uses, clone))
    ensures var init, last := uses[..|uses| - 1], uses[|uses| - 1];
            var before := AfterUses(q, UsesOf(init, clone));
            && Runnable(q, UsesOf(init, clone))
            && AfterUses(q, UsesOf(uses, clone)) ==
                (if last.onClone == clone then AfterUse(before, last.use) else before)
            && (last.onClone == clone && last.use.Run? ==> last.use.db.Valid() && Unjoined(before))
  {
    var init, last, all := uses[..|uses| - 1], uses[|uses| - 1], UsesOf(uses, clone);
    if last.onClone == clone {
      assert all[..|all| - 1] == UsesOf(init, clone) && all[|all| - 1] == last.use;
    } else {
      assert all == UsesOf(init, clone);
    }
  }

  method UseOne(q: AccountQuery, use: Use)
    requires q.Valid() && (use.Run? ==> use.db.Valid() && Unjoined(q.model))
    modifies q.Repr
    ensures q.Valid() && (forall o :: o in q.Repr ==> o in old(q.Repr) || fresh(o)) &&
            q.model == AfterUse(old(q.model), use)
  {
    hide BuildStep, Height, Load, AfterLoad, Unjoined;
    match use
    case Call(step) => q.ApplyStep(step);
    case Run(db) =>
      var nodes, R := q.SqlAll(db);
  }

  /** Two queries that share nothing: using one leaves the other as it is, and still apart. */
  method UseEither(q: AccountQuery, c: AccountQuery, t: Tagged)
    requires q.Valid() && c.Valid() && q.Repr !! c.Repr
    requires t.use.Run? ==> t.use.db.Valid() && Unjoined(if t.onClone then c.model else q.model)
    modifies q.Repr, c.Repr
    ensures q.Valid() && c.Valid() && q.Repr !! c.Repr
    ensures (forall o :: o in q.Repr ==> o in old(q.Repr) || fresh(o)) &&
            (forall o :: o in c.Repr ==> o in old(c.Repr) || fresh(o))
    ensures q.model == if t.onClone then old(q.model) else AfterUse(old(q.model), t.use)
    ensures c.model == if t.onClone then AfterUse(old(c.model), t.use) else old(c.model)
  {
    hide AfterUse, Unjoined, Height;
    if t.onClone {
      UseOne(c, t.use);
    } else {
      UseOne(q, t.use);
    }
  }

  method UseBoth(q: AccountQuery, c: AccountQuery, uses: seq<Tagged>)
    requires q.Valid() && c.Valid() && q.Repr !! c.Repr
    requires Runnable(q.model, UsesOf(uses, false)) && Runnable(c.model, UsesOf(uses, true))
    modifies q.Repr, c.Repr
    ensures q.Valid() && c.Valid() && q.Repr !! c.Repr
    ensures (forall o :: o in q.Repr ==> o in old(q.Repr) || fresh(o)) &&
            (forall o :: o in c.Repr ==> o in old(c.Repr) || fresh(o))
    ensures q.model == AfterUses(old(q.model), UsesOf(uses, false))
    ensures c.model == AfterUses(old(c.model), UsesOf(uses, true))
  {
    if uses == [] {
      return;
    }
    LastUse(q.model, uses, false);
    LastUse(c.model, uses, true);
    hide *;
    UseBoth(q, c, uses[..|uses| - 1]);
    UseEither(q, c, uses[|uses| - 1]);
  }

  /**
   * A clone and its original are independent: whatever builder calls and runs are made on the two, in any
   * order, each query is left as by its own calls and runs alone, at every depth.
   */
  method UseCloneAndOriginal(q: AccountQuery, uses: seq<Tagged>) returns (c: AccountQuery)
    requires q.Valid() && Runnable(q.model, UsesOf(uses, false)) && Runnable(WithoutLocks(q.model), UsesOf(uses, true))
    modifies q.Repr
    ensures q.Valid() && q.model == AfterUses(old(q.model), UsesOf(uses, false))
    ensures c.Valid() && c.model == AfterUses(WithoutLocks(old(q.model)), UsesOf(uses, true))
  {
    hide *;
    c := Clone(q);
    UseBoth(q, c, uses);
  }

  /** A clone does not copy the lock modifiers, at any depth. */
  function WithoutLocks(q: Query): Query {
    q.(locks := [],
       parent := if q.parent.None? then None else Some(WithoutLocks(q.parent.value)),
       children := if q.children.None? then None else Some(WithoutLocks(q.children.value)))
  }

  /** Equal queries but for the locks, at every depth. */
  ghost predicate SameButLocks(q: Query, c: Query) {
    && c.fields == q.fields && c.selection == q.selection && c.unique == q.unique
    && c.groups == q.groups && c.proxy == q.proxy && c.usageLogs == q.usageLogs && c.accountGroups == q.accountGroups
    && (c.parent.Some? <==> q.parent.Some?) && (c.children.Some? <==> q.children.Some?)
    && (q.parent.Some? ==> SameButLocks(q.parent.value, c.parent.value))
    && (q.children.Some? ==> SameButLocks(q.children.value, c.children.value))
  }

  /** A clone loses its locks, at every depth, and nothing else. */
  lemma {:induction false} CloneLosesOnlyLocks(q: Query)
    ensures SameButLocks(q, WithoutLocks(q)) && LockFree(WithoutLocks(q))
  {
    if q.parent.Some? { CloneLosesOnlyLocks(q.parent.value); }
    if q.children.Some? { CloneLosesOnlyLocks(q.children.value); }
  }

  /** Queries that differ in their locks only load the same nodes. */
  lemma {:induction false} LocksDoNotMatter(q: Query, c: Query, db: Database)
    requires SameButLocks(q, c)
    ensures Load(c, db) == Load(q, db)
    decreases Height(q)
  {
    var rows := SelectedRows(q, db);
    assert SelectedRows(c, db) == rows;
    if q.parent.Some? {
      var keys := DistinctKeys(ParentKeys(rows));
      LocksDoNotMatter(ParentQuery(q.parent.value, keys), ParentQuery(c.parent.value, keys), db);
    }
    if q.children.Some? {
      LocksDoNotMatter(ChildrenQuery(q.children.value, IDs(rows)), ChildrenQuery(c.children.value, IDs(rows)), db);
    }
    SameBatches(q, c, rows, db);
  }

  lemma {:induction false} SameBatches(q: Query, c: Query, rows: seq<AccountRow>, db: Database)
    requires SameButLocks(q, c) && SelectedRows(q, db) == SelectedRows(c, db) == rows
    requires ParentsFetched(c.parent, rows, db) == ParentsFetched(q.parent, rows, db)
    requires ChildrenFetched(c.children, rows, db) == ChildrenFetched(q.children, rows, db)
    ensures Load(c, db) == Load(q, db)
  {
    assert Requested(c) == Requested(q);
    hide SelectedRows, ParentsFetched, ChildrenFetched, SameButLocks, Requested;
    var batch := Fetch(q, rows, db);
    assert Fetch(c, rows, db) == batch;
    assert forall i :: 0 <= i < |rows| ==> Stitch(c, rows[i], batch) == Stitch(q, rows[i], batch);
  }

  ghost predicate LockFree(q: Query) {
    q.locks == [] && (q.parent.Some? ==> LockFree(q.parent.value)) && (q.children.Some? ==> LockFree(q.children.value))
  }

  /** A clone is the same query exactly if no query in the tree takes locks. */
  lemma {:induction false} CloneIsSameQuery(q: Query)
    ensures WithoutLocks(q) == q <==> LockFree(q)
  {
    if q.parent.Some? { CloneIsSameQuery(q.parent.value); }
    if q.children.Some? { CloneIsSameQuery(q.children.value); }
  }
}
