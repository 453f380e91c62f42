/**
 * The nodes on the heap and the loops that stitch a batch of neighbours into them, in place.
 */
module Stitching {
  import opened Tables
  import opened Queries
  import opened BatchedLoading

  // ---------------------------------------------------------------- nodes on the heap

  /** The result of an edge accessor: the value, or which of the two errors. */
  datatype EdgeResult<+T> = Loaded(value: T) | NotFound | NotLoaded

  class Account {
    const row: AccountRow
    const loadedTypes: LoadedTypes
    var groups: seq<Group>
    var proxy: Option<Proxy>
    var parent: Account?
    var children: seq<Account>
    var usageLogs: seq<UsageLog>
    var accountGroups: seq<AccountGroup>

    constructor (row: AccountRow, loadedTypes: LoadedTypes)
      ensures this.row == row && this.loadedTypes == loadedTypes
      ensures groups == [] && proxy == None && parent == null && children == [] && usageLogs == [] &&
              accountGroups == []
    {
      this.row := row;
      this.loadedTypes := loadedTypes;
      groups, proxy, parent, children, usageLogs, accountGroups := [], None, null, [], [], [];
    }

    function GroupsOrErr(): EdgeResult<seq<Group>>
      reads this
    {
      if loadedTypes.groups then Loaded(groups) else NotLoaded
    }

    function ProxyOrErr(): EdgeResult<Proxy>
      reads this
    {
      if proxy.Some? then Loaded(proxy.value) else if loadedTypes.proxy then NotFound else NotLoaded
    }

    function ParentOrErr(): EdgeResult<Account>
      reads this
    {
      if parent != null then Loaded(parent) else if loadedTypes.parent then NotFound else NotLoaded
    }

    function ChildrenOrErr(): EdgeResult<seq<Account>>
      reads this
    {
      if loadedTypes.children then Loaded(children) else NotLoaded
    }

    function UsageLogsOrErr(): EdgeResult<seq<UsageLog>>
      reads this
    {
      if loadedTypes.usageLogs then Loaded(usageLogs) else NotLoaded
    }

    function AccountGroupsOrErr(): EdgeResult<seq<AccountGroup>>
      reads this
    {
      if loadedTypes.accountGroups then Loaded(accountGroups) else NotLoaded
    }
  }

  /** The object `n`, with everything it leads to inside `R`, is the node `v`. */
  ghost predicate Matches(n: Account, v: Node, R: set<Account>)
    reads R
    decreases v
  {
    && n in R
    && n.row == v.row && n.loadedTypes == v.loaded
    && n.groups == v.groups && n.proxy == v.proxy && n.usageLogs == v.usageLogs && n.accountGroups == v.accountGroups
    && ParentMatches(n.parent, v.parent, R)
    && ChildrenMatch(n.children, v.children, R)
  }

  ghost predicate ParentMatches(p: Account?, v: Option<Node>, R: set<Account>)
    reads R
    decreases v
  {
    (p == null <==> v.None?) && (p != null ==> Matches(p, v.value, R))
  }

  ghost predicate ChildrenMatch(cs: seq<Account>, vs: seq<Node>, R: set<Account>)
    reads R
    decreases vs
  {
    |cs| == |vs| && forall i :: 0 <= i < |vs| ==> Matches(cs[i], vs[i], R)
  }

  lemma {:induction false} MatchesMonotone(n: Account, v: Node, R: set<Account>, R': set<Account>)
    requires Matches(n, v, R) && R <= R'
    ensures Matches(n, v, R')
    decreases v
  {
    if n.parent != null {
      MatchesMonotone(n.parent, v.parent.value, R, R');
    }
    forall i | 0 <= i < |v.children|
      ensures Matches(n.children[i], v.children[i], R')
    {
      MatchesMonotone(n.children[i], v.children[i], R, R');
    }
  }

  function RowsOf(nodes: seq<Account>): (rows: seq<AccountRow>)
    ensures |rows| == |nodes|
    ensures forall i :: 0 <= i < |nodes| ==> rows[i] == nodes[i].row
  {
    seq(|nodes|, i requires 0 <= i < |nodes| => nodes[i].row)
  }

  ghost predicate DistinctIDs(nodes: seq<Account>) {
    forall i, j :: 0 <= i < j < |nodes| ==> nodes[i].row.id != nodes[j].row.id
  }

  // ---------------------------------------------------------------- many-to-many

  /** The accounts behind each joined group, as seen in a prefix of the joined rows. */
  ghost predicate LinksRecorded(nids: map<int, set<Account>>, nodes: seq<Account>, rows: seq<JoinRow>) {
    && (forall g :: g in nids <==> Known(Neighbours(rows), g))
    && (forall g :: g in nids ==> nids[g] == set n | n in nodes && Linked(rows, n.row.id, g))
  }

  function RecordLink(nids: map<int, set<Account>>, g: int, n: Account): map<int, set<Account>> {
    nids[g := if g in nids then nids[g] + {n} else {n}]
  }

  lemma {:induction false} LinkedSnoc(rows: seq<JoinRow>, r: JoinRow, accountID: int, groupID: int)
    ensures Linked(rows + [r], accountID, groupID) <==>
            Linked(rows, accountID, groupID) || (r.accountID == accountID && r.group.id == groupID)
  {
    var all := rows + [r];
    if Linked(rows, accountID, groupID) {
      var i :| 0 <= i < |rows| && rows[i].accountID == accountID && rows[i].group.id == groupID;
      assert all[i] == rows[i];
    }
    if r.accountID == accountID && r.group.id == groupID {
      assert all[|rows|] == r;
    }
  }

  lemma {:induction false} KnownSnoc(rows: seq<JoinRow>, r: JoinRow, g: int)
    ensures Known(Neighbours(rows + [r]), g) <==> Known(Neighbours(rows), g) || g == r.group.id
  {
    NeighboursSnoc(rows, r);
    var gs := Neighbours(rows);
    if Known(gs, g) {
      var i :| 0 <= i < |gs| && gs[i].id == g;
      assert (gs + [r.group])[i].id == g;
    }
    assert (gs + [r.group])[|gs|] == r.group;
  }

  lemma {:induction false} RecordLinkStep(nids: map<int, set<Account>>, nodes: seq<Account>, rows: seq<JoinRow>,
                                          r: JoinRow, n: Account)
    requires LinksRecorded(nids, nodes, rows)
    requires DistinctIDs(nodes) && n in nodes && n.row.id == r.accountID
    ensures LinksRecorded(RecordLink(nids, r.group.id, n), nodes, rows + [r])
  {
    var nids' := RecordLink(nids, r.group.id, n);
    forall g
      ensures g in nids' <==> Known(Neighbours(rows + [r]), g)
    {
      KnownSnoc(rows, r, g);
    }
    forall g, m | g in nids'
      ensures m in nids'[g] <==> m in nodes && Linked(rows + [r], m.row.id, g)
    {
      LinkedSnoc(rows, r, m.row.id, g);
      if g !in nids && m in nodes && Linked(rows, m.row.id, g) {
        NeighboursOfRows(rows);
        assert false;
      }
    }
  }

  /** The accounts that the joined rows link to each group, and the groups in order of arrival. */
  method CollectNeighbours(nodes: seq<Account>, byID: map<int, Account>, rows: seq<JoinRow>)
    returns (nids: map<int, set<Account>>, neighbours: seq<Group>)
    requires DistinctIDs(nodes)
    requires forall r :: r in rows ==> r.accountID in byID
    requires forall k :: k in byID ==> byID[k] in nodes && byID[k].row.id == k
    ensures neighbours == Neighbours(rows)
    ensures LinksRecorded(nids, nodes, rows)
  {
    nids, neighbours := map[], [];
    for i := 0 to |rows|
      invariant neighbours == Neighbours(rows[..i])
      invariant LinksRecorded(nids, nodes, rows[..i])
    {
      var outValue, inValue := rows[i].accountID, rows[i].group.id;
      assert rows[i] in rows;
      NeighboursSnoc(rows[..i], rows[i]);
      RecordLinkStep(nids, nodes, rows[..i], rows[i], byID[outValue]);
      assert rows[..i + 1] == rows[..i] + [rows[i]];
      if inValue !in nids {
        nids := nids[inValue := {byID[outValue]}];
        neighbours := neighbours + [rows[i].group];
      } else {
        nids := nids[inValue := nids[inValue] + {byID[outValue]}];
      }
    }
    assert rows[..|rows|] == rows;
  }

  /** Append one group to its accounts, taken in any order. */
  method AppendGroup(accounts: set<Account>, g: Group)
    modifies accounts`groups
    ensures forall n :: n in accounts ==> n.groups == old(n.groups) + [g]
  {
    var todo := accounts;
    while todo != {}
      invariant todo <= accounts
      invariant forall n :: n in accounts ==> n.groups == if n in todo then old(n.groups) else old(n.groups) + [g]
    {
      var kn :| kn in todo;
      kn.groups := kn.groups + [g];
      todo := todo - {kn};
    }
  }

  /** Append every neighbour to the accounts linked to it. */
  method AssignGroups(nodes: seq<Account>, ghost rows: seq<JoinRow>, nids: map<int, set<Account>>,
                      neighbours: seq<Group>)
    requires LinksRecorded(nids, nodes, rows) && neighbours == Neighbours(rows)
    requires forall n :: n in nodes ==> n.groups == []
    modifies nodes`groups
    ensures forall n :: n in nodes ==> n.groups == GroupsOf(rows, n.row.id)
  {
    for i := 0 to |neighbours|
      invariant forall n :: n in nodes ==> n.groups == Filter(LinkedTo(rows, n.row.id), neighbours[..i])
    {
      var g := neighbours[i];
      assert neighbours[..i + 1] == neighbours[..i] + [g];
      assert Known(neighbours, g.id);
      forall n | n in nodes {
        FilterSnoc(LinkedTo(rows, n.row.id), neighbours[..i], g);
      }
      AppendGroup(nids[g.id], g);
    }
    assert neighbours[..|neighbours|] == neighbours;
  }

  // ---------------------------------------------------------------- many-to-one

  function AccountHasParent(id: int): Account -> bool { (n: Account) => n.row.parent == Some(id) }
  function ParentKey(): Account -> Option<int> { (n: Account) => n.row.parent }
  function ProxyKey(): Account -> Option<int> { (n: Account) => n.row.proxy }

  function KeysOf(key: Account -> Option<int>, nodes: seq<Account>): (keys: seq<Option<int>>)
    ensures |keys| == |nodes| && forall i :: 0 <= i < |nodes| ==> keys[i] == key(nodes[i])
  {
    seq(|nodes|, i requires 0 <= i < |nodes| => key(nodes[i]))
  }

  function HasKey(key: Account -> Option<int>, k: int): Account -> bool { (n: Account) => key(n) == Some(k) }

  /** A key that is not in the map reads as an empty bucket. */
  function BucketOf(nodeids: map<int, seq<Account>>, k: int): seq<Account> {
    if k in nodeids then nodeids[k] else []
  }

  /** Every node with a key stands in the bucket of its key, in node order, and nowhere else. */
  ghost predicate Bucketed(key: Account -> Option<int>, nodeids: map<int, seq<Account>>, nodes: seq<Account>) {
    forall k :: BucketOf(nodeids, k) == Filter(HasKey(key, k), nodes)
  }

  lemma {:induction false} BucketStep(key: Account -> Option<int>, nodeids: map<int, seq<Account>>, nodes: seq<Account>,
                                      n: Account)
    requires Bucketed(key, nodeids, nodes)
    ensures key(n).None? ==> Bucketed(key, nodeids, nodes + [n])
    ensures key(n).Some? ==> Bucketed(key, nodeids[key(n).value := BucketOf(nodeids, key(n).value) + [n]], nodes + [n])
  {
    forall k {
      FilterSnoc(HasKey(key, k), nodes, n);
    }
  }

  /** The ids and buckets for the first `i` nodes. */
  ghost predicate BucketsOf(key: Account -> Option<int>, nodes: seq<Account>, i: nat, ids: seq<int>,
                            nodeids: map<int, seq<Account>>)
    requires i <= |nodes|
  {
    && ids == DistinctKeys(KeysOf(key, nodes[..i]))
    && (forall k :: k in nodeids <==> k in ids)
    && Bucketed(key, nodeids, nodes[..i])
  }

  lemma {:induction false} BucketsStep(key: Account -> Option<int>, nodes: seq<Account>, i: nat, ids: seq<int>,
                                       nodeids: map<int, seq<Account>>)
    requires i < |nodes| && BucketsOf(key, nodes, i, ids, nodeids)
    ensures var k := key(nodes[i]);
            if k.None? then BucketsOf(key, nodes, i + 1, ids, nodeids)
            else BucketsOf(key, nodes, i + 1, if k.value in nodeids then ids else ids + [k.value],
                           nodeids[k.value := BucketOf(nodeids, k.value) + [nodes[i]]])
  {
    hide DistinctKeys, Bucketed, HasKey;
    assert nodes[..i + 1] == nodes[..i] + [nodes[i]];
    assert KeysOf(key, nodes[..i + 1]) == KeysOf(key, nodes[..i]) + [key(nodes[i])];
    DistinctKeysSnoc(KeysOf(key, nodes[..i]), key(nodes[i]));
    BucketStep(key, nodeids, nodes[..i], nodes[i]);
  }

  /** The distinct keys of the nodes in order of arrival, and the nodes behind each key; nil keys are skipped. */
  method BucketBy(key: Account -> Option<int>, nodes: seq<Account>)
    returns (ids: seq<int>, nodeids: map<int, seq<Account>>)
    ensures ids == DistinctKeys(KeysOf(key, nodes))
    ensures forall k :: k in nodeids <==> k in ids
    ensures Bucketed(key, nodeids, nodes)
  {
    ids, nodeids := [], map[];
    assert BucketsOf(key, nodes, 0, ids, nodeids);
    hide DistinctKeys, Bucketed, KeysOf;
    for i := 0 to |nodes|
      invariant BucketsOf(key, nodes, i, ids, nodeids)
    {
      BucketsStep(key, nodes, i, ids, nodeids);
      hide BucketsOf;
      var k := key(nodes[i]);
      if k.Some? {
        var fk := k.value;
        if fk !in nodeids {
          ids := ids + [fk];
        }
        nodeids := nodeids[fk := BucketOf(nodeids, fk) + [nodes[i]]];
      }
    }
    assert nodes[..|nodes|] == nodes;
  }

  datatype LoadError = UnexpectedNode(id: int) | NilForeignKey(id: int) | UnexpectedForeignKey(fk: int)

  function LastProxy(key: Option<int>, neighbours: seq<Proxy>): Option<Proxy> {
    if key.Some? then PickLast(ProxyHasID(key.value), neighbours) else None
  }

  function LastParent(key: Option<int>, neighbours: seq<Account>): Account? {
    if neighbours == [] then null
    else if key == Some(neighbours[|neighbours| - 1].row.id) then neighbours[|neighbours| - 1]
    else LastParent(key, neighbours[..|neighbours| - 1])
  }

  function ChildrenOf(id: int, neighbours: seq<Account>): seq<Account> {
    Filter(AccountHasParent(id), neighbours)
  }

  lemma {:induction false} LastProxySnoc(key: Option<int>, neighbours: seq<Proxy>, p: Proxy)
    ensures LastProxy(key, neighbours + [p]) == if key == Some(p.id) then Some(p) else LastProxy(key, neighbours)
  {
    if key.Some? { PickLastSnoc(ProxyHasID(key.value), neighbours, p); }
  }

  lemma {:induction false} LastParentSnoc(key: Option<int>, neighbours: seq<Account>, p: Account)
    ensures LastParent(key, neighbours + [p]) == if key == Some(p.row.id) then p else LastParent(key, neighbours)
  {
    assert (neighbours + [p])[..|neighbours|] == neighbours;
  }

  lemma {:induction false} BucketMembers(key: Account -> Option<int>, nodeids: map<int, seq<Account>>,
                                         nodes: seq<Account>, k: int)
    requires Bucketed(key, nodeids, nodes) && k in nodeids
    ensures forall n :: n in nodeids[k] ==> n in nodes && key(n) == Some(k)
    ensures forall n :: n in nodes && key(n) == Some(k) ==> n in nodeids[k]
  {
    assert nodeids[k] == Filter(HasKey(key, k), nodes);
    FilterSound(HasKey(key, k), nodes);
  }

  /** Let every node of the bucket point to the neighbour. */
  method AssignProxy(nodes: seq<Account>, nodeids: map<int, seq<Account>>, p: Proxy)
    requires Bucketed(ProxyKey(), nodeids, nodes) && p.id in nodeids
    modifies nodes`proxy
    ensures forall n :: n in nodes ==> n.proxy == if n.row.proxy == Some(p.id) then Some(p) else old(n.proxy)
  {
    var bucket := nodeids[p.id];
    BucketMembers(ProxyKey(), nodeids, nodes, p.id);
    for j := 0 to |bucket|
      invariant forall n :: n in nodes ==> n.proxy == if n in bucket[..j] then Some(p) else old(n.proxy)
    {
      assert bucket[j] in nodes by { assert bucket[j] in bucket; }
      bucket[j].proxy := Some(p);
    }
  }

  method AssignParent(nodes: seq<Account>, nodeids: map<int, seq<Account>>, p: Account)
    requires Bucketed(ParentKey(), nodeids, nodes) && p.row.id in nodeids
    modifies nodes`parent
    ensures forall n :: n in nodes ==> n.parent == if n.row.parent == Some(p.row.id) then p else old(n.parent)
  {
    var bucket := nodeids[p.row.id];
    BucketMembers(ParentKey(), nodeids, nodes, p.row.id);
    for j := 0 to |bucket|
      invariant forall n :: n in nodes ==> n.parent == if n in bucket[..j] then p else old(n.parent)
    {
      assert bucket[j] in nodes by { assert bucket[j] in bucket; }
      bucket[j].parent := p;
    }
  }

  method AssignProxies(nodes: seq<Account>, nodeids: map<int, seq<Account>>, neighbours: seq<Proxy>)
    returns (err: Option<LoadError>)
    requires forall n :: n in nodes ==> n.proxy == None
    requires Bucketed(ProxyKey(), nodeids, nodes)
    modifies nodes`proxy
    ensures err == None <==> forall p :: p in neighbours ==> p.id in nodeids
    ensures err == None ==> forall n :: n in nodes ==> n.proxy == LastProxy(n.row.proxy, neighbours)
  {
    for i := 0 to |neighbours|
      invariant forall p :: p in neighbours[..i] ==> p.id in nodeids
      invariant forall n :: n in nodes ==> n.proxy == LastProxy(n.row.proxy, neighbours[..i])
    {
      var p := neighbours[i];
      assert neighbours[..i + 1] == neighbours[..i] + [p];
      if p.id !in nodeids {
        return Some(UnexpectedNode(p.id));
      }
      forall n | n in nodes {
        LastProxySnoc(n.row.proxy, neighbours[..i], p);
      }
      AssignProxy(nodes, nodeids, p);
    }
    assert neighbours[..|neighbours|] == neighbours;
    err := None;
  }

  method AssignParents(nodes: seq<Account>, nodeids: map<int, seq<Account>>, neighbours: seq<Account>)
    returns (err: Option<LoadError>)
    requires forall n :: n in nodes ==> n.parent == null
    requires Bucketed(ParentKey(), nodeids, nodes)
    modifies nodes`parent
    ensures err == None <==> forall id :: id in IDs(RowsOf(neighbours)) ==> id in nodeids
    ensures err == None ==> forall n :: n in nodes ==> n.parent == LastParent(n.row.parent, neighbours)
  {
    ghost var ids := IDs(RowsOf(neighbours));
    for i := 0 to |neighbours|
      invariant forall id :: id in ids[..i] ==> id in nodeids
      invariant forall n :: n in nodes ==> n.parent == LastParent(n.row.parent, neighbours[..i])
    {
      var p := neighbours[i];
      assert ids[i] == p.row.id && ids[..i + 1] == ids[..i] + [ids[i]];
      if p.row.id !in nodeids {
        return Some(UnexpectedNode(p.row.id));
      }
      assert neighbours[..i + 1] == neighbours[..i] + [p];
      forall n | n in nodes {
        LastParentSnoc(n.row.parent, neighbours[..i], p);
      }
      AssignParent(nodes, nodeids, p);
    }
    assert neighbours[..|neighbours|] == neighbours && ids[..|ids|] == ids;
    err := None;
  }

  // ---------------------------------------------------------------- one-to-many

  /** The foreign keys to ask for, and the node behind each id. */
  method IndexByID(nodes: seq<Account>) returns (fks: seq<int>, nodeids: map<int, Account>)
    requires DistinctIDs(nodes)
    ensures fks == IDs(RowsOf(nodes))
    ensures forall k :: k in nodeids <==> k in fks
    ensures forall n :: n in nodes ==> n.row.id in nodeids && nodeids[n.row.id] == n
    ensures forall k :: k in nodeids ==> nodeids[k] in nodes && nodeids[k].row.id == k
  {
    fks, nodeids := [], map[];
    for i := 0 to |nodes|
      invariant fks == IDs(RowsOf(nodes))[..i]
      invariant forall k :: k in nodeids <==> k in fks
      invariant forall n :: n in nodes[..i] ==> n.row.id in nodeids && nodeids[n.row.id] == n
      invariant forall k :: k in nodeids ==> nodeids[k] in nodes[..i] && nodeids[k].row.id == k
    {
      fks := fks + [nodes[i].row.id];
      nodeids := nodeids[nodes[i].row.id := nodes[i]];
    }
    assert nodes[..|nodes|] == nodes;
  }

  lemma {:induction false} ChildrenOfSnoc(id: int, neighbours: seq<Account>, c: Account)
    ensures ChildrenOf(id, neighbours + [c]) ==
            if c.row.parent == Some(id) then ChildrenOf(id, neighbours) + [c] else ChildrenOf(id, neighbours)
  {
    FilterSnoc(AccountHasParent(id), neighbours, c);
  }

  method AssignChildren(nodes: seq<Account>, nodeids: map<int, Account>, neighbours: seq<Account>)
    returns (err: Option<LoadError>)
    requires forall n :: n in nodes ==> n.children == []
    requires forall n :: n in nodes ==> n.row.id in nodeids && nodeids[n.row.id] == n
    requires forall k :: k in nodeids ==> nodeids[k] in nodes && nodeids[k].row.id == k
    modifies nodes`children
    ensures err == None <==> forall c :: c in neighbours ==> c.row.parent.Some? && c.row.parent.value in nodeids
    ensures err == None ==> forall n :: n in nodes ==> n.children == ChildrenOf(n.row.id, neighbours)
  {
    for i := 0 to |neighbours|
      invariant forall c :: c in neighbours[..i] ==> c.row.parent.Some? && c.row.parent.value in nodeids
      invariant forall n :: n in nodes ==> n.children == ChildrenOf(n.row.id, neighbours[..i])
    {
      var c := neighbours[i];
      assert neighbours[..i + 1] == neighbours[..i] + [c];
      if c.row.parent.None? {
        return Some(NilForeignKey(c.row.id));
      }
      var fk := c.row.parent.value;
      if fk !in nodeids {
        return Some(UnexpectedForeignKey(fk));
      }
      forall n | n in nodes {
        ChildrenOfSnoc(n.row.id, neighbours[..i], c);
      }
      var node := nodeids[fk];
      node.children := node.children + [c];
    }
    assert neighbours[..|neighbours|] == neighbours;
    err := None;
  }

  method AssignUsageLogs(nodes: seq<Account>, nodeids: map<int, Account>, neighbours: seq<UsageLog>)
    returns (err: Option<LoadError>)
    requires forall n :: n in nodes ==> n.usageLogs == []
    requires forall n :: n in nodes ==> n.row.id in nodeids && nodeids[n.row.id] == n
    requires forall k :: k in nodeids ==> nodeids[k] in nodes && nodeids[k].row.id == k
    modifies nodes`usageLogs
    ensures err == None <==> forall u :: u in neighbours ==> u.accountID in nodeids
    ensures err == None ==> forall n :: n in nodes ==> n.usageLogs == Filter(OwnsLog(n.row.id), neighbours)
  {
    for i := 0 to |neighbours|
      invariant forall u :: u in neighbours[..i] ==> u.accountID in nodeids
      invariant forall n :: n in nodes ==> n.usageLogs == Filter(OwnsLog(n.row.id), neighbours[..i])
    {
      var u := neighbours[i];
      assert neighbours[..i + 1] == neighbours[..i] + [u];
      if u.accountID !in nodeids {
        return Some(UnexpectedForeignKey(u.accountID));
      }
      forall n | n in nodes {
        FilterSnoc(OwnsLog(n.row.id), neighbours[..i], u);
      }
      var node := nodeids[u.accountID];
      node.usageLogs := node.usageLogs + [u];
    }
    assert neighbours[..|neighbours|] == neighbours;
    err := None;
  }

  method AssignAccountGroups(nodes: seq<Account>, nodeids: map<int, Account>, neighbours: seq<AccountGroup>)
    returns (err: Option<LoadError>)
    requires forall n :: n in nodes ==> n.accountGroups == []
    requires forall n :: n in nodes ==> n.row.id in nodeids && nodeids[n.row.id] == n
    requires forall k :: k in nodeids ==> nodeids[k] in nodes && nodeids[k].row.id == k
    modifies nodes`accountGroups
    ensures err == None <==> forall l :: l in neighbours ==> l.accountID in nodeids
    ensures err == None ==> forall n :: n in nodes ==> n.accountGroups == Filter(OwnsLink(n.row.id), neighbours)
  {
    for i := 0 to |neighbours|
      invariant forall l :: l in neighbours[..i] ==> l.accountID in nodeids
      invariant forall n :: n in nodes ==> n.accountGroups == Filter(OwnsLink(n.row.id), neighbours[..i])
    {
      var l := neighbours[i];
      assert neighbours[..i + 1] == neighbours[..i] + [l];
      if l.accountID !in nodeids {
        return Some(UnexpectedForeignKey(l.accountID));
      }
      forall n | n in nodes {
        FilterSnoc(OwnsLink(n.row.id), neighbours[..i], l);
      }
      var node := nodeids[l.accountID];
      node.accountGroups := node.accountGroups + [l];
    }
    assert neighbours[..|neighbours|] == neighbours;
    err := None;
  }

  // ---------------------------------------------------------------- stitched nodes stand for stitched values

  /** The loaded objects stand for the loaded node values, position by position. */
  ghost predicate NodesMatch(nodes: seq<Account>, values: seq<Node>, R: set<Account>)
    reads R
  {
    |nodes| == |values| && forall i :: 0 <= i < |nodes| ==> Matches(nodes[i], values[i], R)
  }

  lemma {:induction false} LastParentMatches(key: Option<int>, neighbours: seq<Account>, values: seq<Node>,
                                             R: set<Account>)
    requires NodesMatch(neighbours, values, R)
    ensures ParentMatches(LastParent(key, neighbours),
                          if key.Some? then PickLast(HasID(key.value), values) else None, R)
  {
    if neighbours != [] {
      var n := |neighbours| - 1;
      assert Matches(neighbours[n], values[n], R);
      LastParentMatches(key, neighbours[..n], values[..n], R);
    }
  }

  lemma {:induction false} ChildrenOfMatch(id: int, neighbours: seq<Account>, values: seq<Node>, R: set<Account>)
    requires NodesMatch(neighbours, values, R)
    ensures ChildrenMatch(ChildrenOf(id, neighbours), Filter(HasParent(id), values), R)
  {
    FilterAligned(AccountHasParent(id), HasParent(id), neighbours, values);
    var cs, vs := ChildrenOf(id, neighbours), Filter(HasParent(id), values);
    forall k | 0 <= k < |vs|
      ensures Matches(cs[k], vs[k], R)
    {
      assert Paired(neighbours, values, cs[k], vs[k]);
    }
  }
}
