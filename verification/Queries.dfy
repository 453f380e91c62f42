/**
 * Account queries as values: what a query asks for, the nodes it loads, and the reference meaning
 * of every eager-loaded edge, namely the lookup that a single account would make on its own.
 */
module Queries {
  import opened Tables

  // ---------------------------------------------------------------- rows and tables

  datatype Column = ID | ProxyID | ParentAccountID | Plain(name: string)

  datatype AccountRow = AccountRow(id: int, proxy: Option<int>, parent: Option<int>, plain: map<string, string>)

  datatype Group = Group(id: int, plain: map<string, string>)
  datatype Proxy = Proxy(id: int, plain: map<string, string>)
  datatype UsageLog = UsageLog(id: int, accountID: int, plain: map<string, string>)

  /** A row of the account_groups join table. */
  datatype AccountGroup = AccountGroup(accountID: int, groupID: int, plain: map<string, string>)

  datatype Database = Database(
    accounts: seq<AccountRow>,
    groups: seq<Group>,
    proxies: seq<Proxy>,
    usageLogs: seq<UsageLog>,
    accountGroups: seq<AccountGroup>)
  {
    /** Primary keys are unique; the join table may hold any rows at all. */
    ghost predicate Valid() {
      && (forall i, j :: 0 <= i < j < |accounts| ==> accounts[i].id != accounts[j].id)
      && (forall i, j :: 0 <= i < j < |groups| ==> groups[i].id != groups[j].id)
      && (forall i, j :: 0 <= i < j < |proxies| ==> proxies[i].id != proxies[j].id)
    }
  }

  // ---------------------------------------------------------------- queries

  datatype Lock = ForUpdate | ForShare

  /**
   * The observable state of an AccountQuery. A nested query is owned by its parent, so a query is a
   * finite tree. `joins` holds the owners that the joins attached to the groups query ask for.
   */
  datatype Query = Query(
    fields: seq<Column>,
    selection: Selection<AccountRow>,
    unique: Option<bool>,
    locks: seq<Lock>,
    groups: Option<GroupQueryModel>,
    proxy: Option<Selection<Proxy>>,
    parent: Option<Query>,
    children: Option<Query>,
    usageLogs: Option<Selection<UsageLog>>,
    accountGroups: Option<Selection<AccountGroup>>)

  datatype GroupQueryModel = GroupQueryModel(selection: Selection<Group>, joins: seq<seq<int>>)

  function EmptyQuery(): Query {
    Query([], Unrestricted(), None, [], None, None, None, None, None, None)
  }

  function Max(a: nat, b: nat): nat {
    if a < b then b else a
  }

  /** The nesting depth of the query tree: the termination measure of eager loading. */
  function Height(q: Query): nat {
    1 + Max(if q.parent.Some? then Height(q.parent.value) else 0,
            if q.children.Some? then Height(q.children.value) else 0)
  }

  // ---------------------------------------------------------------- projection

  function AppendOnce(fields: seq<Column>, c: Column): seq<Column> {
    if c in fields then fields else fields + [c]
  }

  function NotID(): Column -> bool { (c: Column) => c != ID }

  function WithoutID(fields: seq<Column>): seq<Column> {
    Filter(NotID(), fields)
  }

  /** The columns that querySpec asks for; the empty list stands for all columns. */
  function ColumnsOf(fields: seq<Column>, withProxy: bool, withParent: bool): seq<Column> {
    if fields == [] then []
    else
      var base := [ID] + WithoutID(fields);
      var proxied := if withProxy then AppendOnce(base, ProxyID) else base;
      if withParent then AppendOnce(proxied, ParentAccountID) else proxied
  }

  function Columns(q: Query): seq<Column> {
    ColumnsOf(q.fields, q.proxy.Some?, q.parent.Some?)
  }

  /** An account as it is scanned from a row that holds only some columns: the others keep their zero value. */
  function Project(columns: seq<Column>, row: AccountRow): AccountRow {
    if columns == [] then row
    else AccountRow(
        if ID in columns then row.id else 0,
        if ProxyID in columns then row.proxy else None,
        if ParentAccountID in columns then row.parent else None,
        map name | name in row.plain && Plain(name) in columns :: row.plain[name])
  }

  function ProjectAll(columns: seq<Column>, rows: seq<AccountRow>): seq<AccountRow> {
    seq(|rows|, i requires 0 <= i < |rows| => Project(columns, rows[i]))
  }

  /** The accounts that the query itself returns, as scanned. */
  function SelectedRows(q: Query, db: Database): seq<AccountRow> {
    ProjectAll(Columns(q), Rows(q.selection, db.accounts))
  }

  // ---------------------------------------------------------------- nodes

  datatype LoadedTypes = LoadedTypes(groups: bool, proxy: bool, parent: bool, children: bool, usageLogs: bool,
                                     accountGroups: bool)

  function Requested(q: Query): LoadedTypes {
    LoadedTypes(q.groups.Some?, q.proxy.Some?, q.parent.Some?, q.children.Some?, q.usageLogs.Some?,
                q.accountGroups.Some?)
  }

  /** An account together with its edges. */
  datatype Node = Node(
    row: AccountRow,
    loaded: LoadedTypes,
    groups: seq<Group>,
    proxy: Option<Proxy>,
    parent: Option<Node>,
    children: seq<Node>,
    usageLogs: seq<UsageLog>,
    accountGroups: seq<AccountGroup>)

  // ---------------------------------------------------------------- predicates the loaders attach

  function IDIn(ids: seq<int>): AccountRow -> bool { (r: AccountRow) => r.id in ids }
  function ParentIn(ids: seq<int>): AccountRow -> bool { (r: AccountRow) => r.parent.Some? && r.parent.value in ids }
  function ProxyIDIn(ids: seq<int>): Proxy -> bool { (r: Proxy) => r.id in ids }
  function LogOwnerIn(ids: seq<int>): UsageLog -> bool { (r: UsageLog) => r.accountID in ids }
  function LinkOwnerIn(ids: seq<int>): AccountGroup -> bool { (r: AccountGroup) => r.accountID in ids }

  function ParentQuery(sub: Query, keys: seq<int>): (r: Query)
    ensures Height(r) == Height(sub)
  {
    sub.(selection := sub.selection.Where(IDIn(keys)))
  }

  /** The foreign key is added to a projection, so that the loader can read it back. */
  function WithForeignKey(sub: Query): (r: Query)
    ensures Height(r) == Height(sub)
  {
    sub.(fields := if sub.fields == [] then [] else AppendOnce(sub.fields, ParentAccountID))
  }

  function ChildrenQuery(sub: Query, owners: seq<int>): (r: Query)
    ensures Height(r) == Height(sub)
  {
    var keyed := WithForeignKey(sub);
    keyed.(selection := keyed.selection.Where(ParentIn(owners)))
  }

  // ---------------------------------------------------------------- keys collected from the nodes

  function IDs(rows: seq<AccountRow>): (ids: seq<int>)
    ensures |ids| == |rows|
    ensures forall i :: 0 <= i < |rows| ==> ids[i] == rows[i].id
  {
    seq(|rows|, i requires 0 <= i < |rows| => rows[i].id)
  }

  /** The distinct non-nil keys, in the order of their first appearance. */
  function DistinctKeys(keys: seq<Option<int>>): seq<int> {
    if keys == [] then []
    else
      var ids, last := DistinctKeys(keys[..|keys| - 1]), keys[|keys| - 1];
      if last.None? || last.value in ids then ids else ids + [last.value]
  }

  lemma {:induction false} DistinctKeysSound(keys: seq<Option<int>>)
    ensures forall k :: k in DistinctKeys(keys) <==> Some(k) in keys
    ensures forall i, j :: 0 <= i < j < |DistinctKeys(keys)| ==> DistinctKeys(keys)[i] != DistinctKeys(keys)[j]
  {
    if keys != [] {
      DistinctKeysSound(keys[..|keys| - 1]);
      assert keys == keys[..|keys| - 1] + [keys[|keys| - 1]];
    }
  }

  lemma {:induction false} DistinctKeysSnoc(keys: seq<Option<int>>, key: Option<int>)
    ensures DistinctKeys(keys + [key]) ==
            if key.None? || key.value in DistinctKeys(keys) then DistinctKeys(keys)
              else DistinctKeys(keys) + [key.value]
  {
    assert (keys + [key])[..|keys|] == keys;
  }

  function ParentKeys(rows: seq<AccountRow>): seq<Option<int>> {
    seq(|rows|, i requires 0 <= i < |rows| => rows[i].parent)
  }

  function ProxyKeys(rows: seq<AccountRow>): seq<Option<int>> {
    seq(|rows|, i requires 0 <= i < |rows| => rows[i].proxy)
  }

  // ---------------------------------------------------------------- the join of the many-to-many edge

  datatype JoinRow = JoinRow(accountID: int, group: Group)

  function HasGroupID(id: int): Group -> bool { (g: Group) => g.id == id }

  function JoinOne(link: AccountGroup, groups: seq<Group>): seq<JoinRow> {
    var matches := Filter(HasGroupID(link.groupID), groups);
    seq(|matches|, i requires 0 <= i < |matches| => JoinRow(link.accountID, matches[i]))
  }

  /** The join table against the groups, in the order of the join table. */
  function Join(links: seq<AccountGroup>, groups: seq<Group>): seq<JoinRow> {
    if links == [] then []
    else Join(links[..|links| - 1], groups) + JoinOne(links[|links| - 1], groups)
  }

  function LiftKeys(keys: seq<Group -> int>): seq<JoinRow -> int> {
    if keys == [] then []
    else
      var key := keys[0];
      [(r: JoinRow) => key(r.group)] + LiftKeys(keys[1..])
  }

  function Joined(sel: Selection<Group>, owners: seq<int>): JoinRow -> bool {
    (r: JoinRow) => r.accountID in owners && sel.Holds(r.group)
  }

  /** The rows of the groups query after loadGroups joined it with the accounts `owners`. */
  function JoinRows(sel: Selection<Group>, owners: seq<int>, db: Database): seq<JoinRow> {
    Window(sel.limit, sel.offset,
           SortBy(LiftKeys(sel.order), Filter(Joined(sel, owners), Join(db.accountGroups, db.groups))))
  }

  /** The distinct groups of the joined rows, each at its first appearance. */
  function Neighbours(rows: seq<JoinRow>): (gs: seq<Group>) {
    if rows == [] then []
    else
      var gs := Neighbours(rows[..|rows| - 1]);
      var last := rows[|rows| - 1].group;
      if Known(gs, last.id) then gs else gs + [last]
  }

  predicate Known(gs: seq<Group>, id: int) {
    exists i :: 0 <= i < |gs| && gs[i].id == id
  }

  predicate Linked(rows: seq<JoinRow>, accountID: int, groupID: int) {
    exists i :: 0 <= i < |rows| && rows[i].accountID == accountID && rows[i].group.id == groupID
  }

  function LinkedTo(rows: seq<JoinRow>, accountID: int): Group -> bool {
    (g: Group) => Linked(rows, accountID, g.id)
  }

  /** The groups one account gets from a batch of joined rows. */
  function GroupsOf(rows: seq<JoinRow>, accountID: int): seq<Group> {
    Filter(LinkedTo(rows, accountID), Neighbours(rows))
  }

  // ---------------------------------------------------------------- batched loading

  /** The neighbours that one eager-loading pass fetches, one batch per requested edge. */
  datatype Batch = Batch(
    groups: seq<JoinRow>,
    proxies: seq<Proxy>,
    parents: seq<Node>,
    children: seq<Node>,
    usageLogs: seq<UsageLog>,
    accountGroups: seq<AccountGroup>)

  function HasID(id: int): Node -> bool { (n: Node) => n.row.id == id }
  function HasParent(id: int): Node -> bool { (n: Node) => n.row.parent == Some(id) }
  function ProxyHasID(id: int): Proxy -> bool { (p: Proxy) => p.id == id }
  function OwnsLog(id: int): UsageLog -> bool { (u: UsageLog) => u.accountID == id }
  function OwnsLink(id: int): AccountGroup -> bool { (l: AccountGroup) => l.accountID == id }

  function FoundProxy(row: AccountRow, proxies: seq<Proxy>): Option<Proxy> {
    if row.proxy.Some? then PickLast(ProxyHasID(row.proxy.value), proxies) else None
  }

  function FoundParent(row: AccountRow, parents: seq<Node>): Option<Node> {
    if row.parent.Some? then PickLast(HasID(row.parent.value), parents) else None
  }

  /** What the stitching loops leave in one node. */
  function Stitch(q: Query, row: AccountRow, batch: Batch): Node {
    Node(row,
         Requested(q),
         GroupsOf(batch.groups, row.id),
         FoundProxy(row, batch.proxies),
         FoundParent(row, batch.parents),
         Filter(HasParent(row.id), batch.children),
         Filter(OwnsLog(row.id), batch.usageLogs),
         Filter(OwnsLink(row.id), batch.accountGroups))
  }

  // What each batched query returns; an edge that was not requested, or without keys, makes no query.

  function GroupsFetched(sub: Option<GroupQueryModel>, rows: seq<AccountRow>, db: Database): seq<JoinRow> {
    if sub.None? then [] else JoinRows(sub.value.selection, IDs(rows), db)
  }

  function ProxiesFetched(sub: Option<Selection<Proxy>>, rows: seq<AccountRow>, db: Database): seq<Proxy> {
    var keys := DistinctKeys(ProxyKeys(rows));
    if sub.None? || keys == [] then [] else Rows(sub.value.Where(ProxyIDIn(keys)), db.proxies)
  }

  function UsageLogsFetched(sub: Option<Selection<UsageLog>>, rows: seq<AccountRow>, db: Database): seq<UsageLog> {
    if sub.None? then [] else Rows(sub.value.Where(LogOwnerIn(IDs(rows))), db.usageLogs)
  }

  function AccountGroupsFetched(sub: Option<Selection<AccountGroup>>, rows: seq<AccountRow>,
                                db: Database): seq<AccountGroup> {
    if sub.None? then [] else Rows(sub.value.Where(LinkOwnerIn(IDs(rows))), db.accountGroups)
  }

  function ParentsFetched(sub: Option<Query>, rows: seq<AccountRow>, db: Database): seq<Node>
    decreases if sub.Some? then Height(sub.value) + 1 else 0, 0
  {
    var keys := DistinctKeys(ParentKeys(rows));
    if sub.None? || keys == [] then [] else Load(ParentQuery(sub.value, keys), db)
  }

  function ChildrenFetched(sub: Option<Query>, rows: seq<AccountRow>, db: Database): seq<Node>
    decreases if sub.Some? then Height(sub.value) + 1 else 0, 0
  {
    if sub.Some? then Load(ChildrenQuery(sub.value, IDs(rows)), db) else []
  }

  /** The batched queries of one pass over the scanned rows. */
  function Fetch(q: Query, rows: seq<AccountRow>, db: Database): Batch
    decreases Height(q), 1
  {
    Batch(GroupsFetched(q.groups, rows, db),
          ProxiesFetched(q.proxy, rows, db),
          ParentsFetched(q.parent, rows, db),
          ChildrenFetched(q.children, rows, db),
          UsageLogsFetched(q.usageLogs, rows, db),
          AccountGroupsFetched(q.accountGroups, rows, db))
  }

  /** The nodes that the batched loader returns. */
  function Load(q: Query, db: Database): (nodes: seq<Node>)
    ensures |nodes| == |SelectedRows(q, db)|
    ensures forall i :: 0 <= i < |nodes| ==> nodes[i].row == SelectedRows(q, db)[i]
    decreases Height(q), 2
  {
    var rows := SelectedRows(q, db);
    var batch := Fetch(q, rows, db);
    seq(|rows|, i requires 0 <= i < |rows| => Stitch(q, rows[i], batch))
  }

  // What each loader leaves on the stored nested query.

  function AfterGroups(sub: Option<GroupQueryModel>, rows: seq<AccountRow>): Option<GroupQueryModel> {
    if sub.None? then None else Some(sub.value.(joins := sub.value.joins + [IDs(rows)]))
  }

  function AfterProxy(sub: Option<Selection<Proxy>>, rows: seq<AccountRow>): Option<Selection<Proxy>> {
    var keys := DistinctKeys(ProxyKeys(rows));
    if sub.None? || keys == [] then sub else Some(sub.value.Where(ProxyIDIn(keys)))
  }

  function AfterUsageLogs(sub: Option<Selection<UsageLog>>, rows: seq<AccountRow>): Option<Selection<UsageLog>> {
    if sub.None? then None else Some(sub.value.Where(LogOwnerIn(IDs(rows))))
  }

  function AfterAccountGroups(sub: Option<Selection<AccountGroup>>,
                              rows: seq<AccountRow>): Option<Selection<AccountGroup>> {
    if sub.None? then None else Some(sub.value.Where(LinkOwnerIn(IDs(rows))))
  }

  function AfterParent(sub: Option<Query>, rows: seq<AccountRow>, db: Database): Option<Query>
    decreases if sub.Some? then Height(sub.value) + 1 else 0, 0
  {
    var keys := DistinctKeys(ParentKeys(rows));
    if sub.None? || keys == [] then sub else Some(AfterLoad(ParentQuery(sub.value, keys), db))
  }

  function AfterChildren(sub: Option<Query>, rows: seq<AccountRow>, db: Database): Option<Query>
    decreases if sub.Some? then Height(sub.value) + 1 else 0, 0
  {
    if sub.None? then None else Some(AfterLoad(ChildrenQuery(sub.value, IDs(rows)), db))
  }

  /**
   * The query after it was run: every eager-loading pass leaves its predicate on the stored nested
   * query, and the nested queries were run themselves. Without nodes nothing is touched.
   */
  function AfterLoad(q: Query, db: Database): Query
    decreases Height(q), 1
  {
    var rows := SelectedRows(q, db);
    if rows == [] then q
    else q.(groups := AfterGroups(q.groups, rows),
            proxy := AfterProxy(q.proxy, rows),
            parent := AfterParent(q.parent, rows, db),
            children := AfterChildren(q.children, rows, db),
            usageLogs := AfterUsageLogs(q.usageLogs, rows),
            accountGroups := AfterAccountGroups(q.accountGroups, rows))
  }

  /** No groups query in the tree carries a join yet. */
  predicate Unjoined(q: Query)
    decreases Height(q)
  {
    && (q.groups.Some? ==> q.groups.value.joins == [])
    && (q.parent.Some? ==> Unjoined(q.parent.value))
    && (q.children.Some? ==> Unjoined(q.children.value))
  }

  // ---------------------------------------------------------------- per-node lookup

  function RowHasID(id: int): AccountRow -> bool { (r: AccountRow) => r.id == id }
  function RowHasParent(id: int): AccountRow -> bool { (r: AccountRow) => r.parent == Some(id) }

  predicate HasLink(db: Database, accountID: int, groupID: int) {
    exists l :: l in db.accountGroups && l.accountID == accountID && l.groupID == groupID
  }

  function LookupCondition(sel: Selection<Group>, accountID: int, db: Database): Group -> bool {
    (g: Group) => HasLink(db, accountID, g.id) && sel.Holds(g)
  }

  /** The groups of one account: those its join rows name, in the order that the groups query asks for. */
  function LookupGroups(sel: Selection<Group>, accountID: int, db: Database): seq<Group> {
    SortBy(sel.order, Filter(LookupCondition(sel, accountID, db), db.groups))
  }

  /** The account that stands for `row`, with every edge looked up for this account alone. */
  function Lookup(q: Query, row: AccountRow, db: Database): Node
    decreases Height(q), 0
  {
    var parents :=
      if q.parent.Some? && row.parent.Some?
      then LookupAll(q.parent.value, Rows(q.parent.value.selection.Where(RowHasID(row.parent.value)), db.accounts), db)
      else [];
    var children :=
      if q.children.Some?
      then LookupAll(WithForeignKey(q.children.value),
                     Rows(q.children.value.selection.Where(RowHasParent(row.id)), db.accounts), db)
      else [];
    Node(
      Project(Columns(q), row),
      Requested(q),
      if q.groups.Some? then LookupGroups(q.groups.value.selection, row.id, db) else [],
      if q.proxy.Some? && row.proxy.Some?
        then First(Rows(q.proxy.value.Where(ProxyHasID(row.proxy.value)), db.proxies)) else None,
      First(parents),
      children,
      if q.usageLogs.Some? then Rows(q.usageLogs.value.Where(OwnsLog(row.id)), db.usageLogs) else [],
      if q.accountGroups.Some? then Rows(q.accountGroups.value.Where(OwnsLink(row.id)), db.accountGroups) else [])
  }

  function LookupAll(q: Query, rows: seq<AccountRow>, db: Database): (nodes: seq<Node>)
    ensures |nodes| == |rows|
    decreases Height(q), 1, |rows|
  {
    seq(|rows|, i requires 0 <= i < |rows| => Lookup(q, rows[i], db))
  }
}
