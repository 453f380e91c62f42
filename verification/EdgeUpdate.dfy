/**
 * Updating the edges of an account: the mutation collects what callers ask for, and the update turns
 * it into a list of edges to clear and a list of edges to add.
 */
module EdgeUpdate {
  import opened Tables

  datatype Edge = Groups | Proxy | Parent | Children | UsageLogs

  datatype Relation = M2M | M2O | O2M

  function RelationOf(edge: Edge): Relation {
    match edge
    case Groups => M2M
    case Proxy => M2O
    case Parent => M2O
    case Children => O2M
    case UsageLogs => O2M
  }

  function Elements(ids: seq<int>): set<int> {
    set id | id in ids
  }

  lemma {:induction false} ElementsSnoc(ids: seq<int>, id: int)
    ensures Elements(ids + [id]) == Elements(ids) + {id}
  {
    assert id == (ids + [id])[|ids|];
    forall k | k in ids
      ensures k in ids + [id]
    {
      var i :| 0 <= i < |ids| && ids[i] == k;
      assert (ids + [id])[i] == k;
    }
  }

  // ---------------------------------------------------------------- what callers ask for

  datatype ManyCall = AddIDs(ids: seq<int>) | RemoveIDs(ids: seq<int>) | ClearAll | ResetAll

  /** The state of a to-many edge in a mutation. */
  datatype ManyChange = ManyChange(added: set<int>, removed: set<int>, cleared: bool)

  const NO_MANY_CHANGE := ManyChange({}, {}, false)

  function AfterManyCall(c: ManyChange, call: ManyCall): ManyChange {
    match call
    case AddIDs(ids) => c.(added := c.added + Elements(ids))
    case RemoveIDs(ids) => c.(added := c.added - Elements(ids), removed := c.removed + Elements(ids))
    case ClearAll => c.(cleared := true)
    case ResetAll => NO_MANY_CHANGE
  }

  function AfterManyCalls(calls: seq<ManyCall>): ManyChange {
    if calls == [] then NO_MANY_CHANGE else AfterManyCall(AfterManyCalls(calls[..|calls| - 1]), calls[|calls| - 1])
  }

  /** The linked ids after the update. */
  function ManyResult(c: ManyChange, linked: set<int>): set<int> {
    (if c.cleared then {} else linked - c.removed) + c.added
  }

  /** The linked ids if every call took effect on the spot; a reset undoes the calls before it. */
  function OneByOne(linked: set<int>, calls: seq<ManyCall>): set<int> {
    if calls == [] then linked
    else
      var before := OneByOne(linked, calls[..|calls| - 1]);
      match calls[|calls| - 1]
      case AddIDs(ids) => before + Elements(ids)
      case RemoveIDs(ids) => before - Elements(ids)
      case ClearAll => {}
      case ResetAll => linked
  }

  /** Ids that were added before a clear and neither added nor removed since. */
  function Stale(calls: seq<ManyCall>): set<int> {
    if calls == [] then {}
    else
      var init := calls[..|calls| - 1];
      match calls[|calls| - 1]
      case AddIDs(ids) => Stale(init) - Elements(ids)
      case RemoveIDs(ids) => Stale(init) - Elements(ids)
      case ClearAll => AfterManyCalls(init).added
      case ResetAll => {}
  }

  /** An update links what the calls say one by one, and the stale ids on top. */
  lemma {:induction false} ManyCallsAccumulate(calls: seq<ManyCall>, linked: set<int>)
    ensures ManyResult(AfterManyCalls(calls), linked) == OneByOne(linked, calls) + Stale(calls)
    ensures OneByOne(linked, calls) !! Stale(calls)
    ensures Stale(calls) <= AfterManyCalls(calls).added
  {
    if calls != [] {
      ManyCallsAccumulate(calls[..|calls| - 1], linked);
    }
  }

  /**
   * The order of the calls matters in exactly one way: a clear does not withdraw ids added before it.
   * The update does what the calls say one by one if and only if no id is stale.
   */
  lemma {:induction false} ManyCallsTakeEffectIff(calls: seq<ManyCall>, linked: set<int>)
    ensures ManyResult(AfterManyCalls(calls), linked) == OneByOne(linked, calls) <==> Stale(calls) == {}
  {
    ManyCallsAccumulate(calls, linked);
  }

  /** Adding a group and clearing the groups afterwards leaves the account in that group. */
  lemma {:induction false} ClearKeepsWhatWasAdded(id: int, linked: set<int>)
    ensures ManyResult(AfterManyCalls([AddIDs([id]), ClearAll]), linked) == {id}
    ensures OneByOne(linked, [AddIDs([id]), ClearAll]) == {}
  {
    var calls := [AddIDs([id]), ClearAll];
    var first := [AddIDs([id])];
    assert calls[..1] == first && first[..0] == [];
    assert Elements([id]) == {id};
    assert AfterManyCalls(first) == ManyChange({id}, {}, false);
    assert AfterManyCalls(calls) == ManyChange({id}, {}, true);
  }

  datatype OneCall = SetID(id: int) | ClearID | ResetID | ClearEdge | ResetEdge

  /** The state of a to-one edge in a mutation; the foreign key has a cleared mark of its own. */
  datatype OneChange = OneChange(id: Option<int>, edgeCleared: bool, keyCleared: bool)

  const NO_ONE_CHANGE := OneChange(None, false, false)

  function AfterOneCall(c: OneChange, call: OneCall): OneChange {
    match call
    case SetID(id) => c.(id := Some(id))
    case ClearID => c.(id := None, keyCleared := true)
    case ResetID => c.(id := None, keyCleared := false)
    case ClearEdge => c.(edgeCleared := true, keyCleared := true)
    case ResetEdge => c.(id := None, edgeCleared := false)
  }

  function AfterOneCalls(calls: seq<OneCall>): OneChange {
    if calls == [] then NO_ONE_CHANGE else AfterOneCall(AfterOneCalls(calls[..|calls| - 1]), calls[|calls| - 1])
  }

  predicate Cleared(c: OneChange) {
    c.edgeCleared || c.keyCleared
  }

  /** The linked id, if any, after the update. */
  function OneResult(c: OneChange, linked: Option<int>): Option<int> {
    if c.id.Some? then c.id else if Cleared(c) then None else linked
  }

  /** What the last call asks for. */
  function LastCall(linked: Option<int>, calls: seq<OneCall>): Option<int> {
    if calls == [] then linked
    else
      match calls[|calls| - 1]
      case SetID(id) => Some(id)
      case ClearID => None
      case ClearEdge => None
      case ResetID => linked
      case ResetEdge => linked
  }

  /** The calls whose effect an earlier call survives, by the state of the mutation before the last one. */
  predicate LastCallOverridden(calls: seq<OneCall>) {
    calls != [] &&
    var before := AfterOneCalls(calls[..|calls| - 1]);
    match calls[|calls| - 1]
    case SetID(_) => false
    case ClearID => false
    case ClearEdge => before.id.Some?
    case ResetID => before.edgeCleared
    case ResetEdge => before.keyCleared
  }

  /**
   * A to-one edge ends up as the last call asks, for every row, if and only if the last call is not one
   * of these: clearing the edge while an id is set; resetting the key while the edge is marked cleared;
   * resetting the edge while the key is marked cleared.
   */
  lemma {:induction false} LastOneCallWinsIff(calls: seq<OneCall>)
    ensures (forall linked :: OneResult(AfterOneCalls(calls), linked) == LastCall(linked, calls)) <==>
            !LastCallOverridden(calls)
  {
    if LastCallOverridden(calls) {
      var after := AfterOneCalls(calls);
      if calls[|calls| - 1].ClearEdge? {
        assert OneResult(after, None) != LastCall(None, calls);
      } else {
        assert OneResult(after, Some(0)) != LastCall(Some(0), calls);
      }
    }
  }

  /** What an overridden last call leaves: the id that clearing the edge does not drop, or the earlier clear. */
  function Surviving(calls: seq<OneCall>): Option<int>
    requires LastCallOverridden(calls)
  {
    if calls[|calls| - 1].ClearEdge? then AfterOneCalls(calls[..|calls| - 1]).id else None
  }

  /** The link after any calls: what the last one asks for, or what it does not override. */
  function OneAfter(linked: Option<int>, calls: seq<OneCall>): Option<int> {
    if LastCallOverridden(calls) then Surviving(calls) else LastCall(linked, calls)
  }

  lemma {:induction false} OneCallsAmountTo(calls: seq<OneCall>, linked: Option<int>)
    ensures OneResult(AfterOneCalls(calls), linked) == OneAfter(linked, calls)
  {
    LastOneCallWinsIff(calls);
  }

  /** Setting a proxy and clearing the proxy edge afterwards leaves the proxy set; clearing its id does not. */
  lemma {:induction false} ClearEdgeKeepsTheID(id: int, linked: Option<int>)
    ensures OneResult(AfterOneCalls([SetID(id), ClearEdge]), linked) == Some(id)
    ensures OneResult(AfterOneCalls([SetID(id), ClearID]), linked) == None
  {
    assert [SetID(id), ClearEdge][..1] == [SetID(id)] && [SetID(id), ClearID][..1] == [SetID(id)] &&
           [SetID(id)][..0] == [];
  }

  // ---------------------------------------------------------------- the mutation object

  class ManyEdge {
    var added: set<int>
    var removed: set<int>
    var cleared: bool

    function Change(): ManyChange
      reads this
    {
      ManyChange(added, removed, cleared)
    }

    constructor ()
      ensures Change() == NO_MANY_CHANGE
    {
      added, removed, cleared := {}, {}, false;
    }

    method Add(ids: seq<int>)
      modifies this
      ensures Change() == AfterManyCall(old(Change()), AddIDs(ids))
    {
      for i := 0 to |ids|
        invariant Change() == AfterManyCall(old(Change()), AddIDs(ids[..i]))
      {
        added := added + {ids[i]};
        ElementsSnoc(ids[..i], ids[i]);
        assert ids[..i + 1] == ids[..i] + [ids[i]];
      }
      assert ids[..|ids|] == ids;
    }

    method Remove(ids: seq<int>)
      modifies this
      ensures Change() == AfterManyCall(old(Change()), RemoveIDs(ids))
    {
      for i := 0 to |ids|
        invariant Change() == AfterManyCall(old(Change()), RemoveIDs(ids[..i]))
      {
        added := added - {ids[i]};
        removed := removed + {ids[i]};
        ElementsSnoc(ids[..i], ids[i]);
        assert ids[..i + 1] == ids[..i] + [ids[i]];
      }
      assert ids[..|ids|] == ids;
    }

    method Clear()
      modifies this
      ensures Change() == AfterManyCall(old(Change()), ClearAll)
    {
      cleared := true;
    }

    method Reset()
      modifies this
      ensures Change() == AfterManyCall(old(Change()), ResetAll)
    {
      added, cleared, removed := {}, false, {};
    }

    /** Any calls in a row leave the edge in the state that `AfterManyCalls` gives. */
    method Perform(calls: seq<ManyCall>)
      requires Change() == NO_MANY_CHANGE
      modifies this
      ensures Change() == AfterManyCalls(calls)
    {
      for i := 0 to |calls|
        invariant Change() == AfterManyCalls(calls[..i])
      {
        match calls[i] {
          case AddIDs(ids) => Add(ids);
          case RemoveIDs(ids) => Remove(ids);
          case ClearAll => Clear();
          case ResetAll => Reset();
        }
        assert calls[..i + 1][..i] == calls[..i];
      }
      assert calls[..|calls|] == calls;
    }
  }

  class OneEdge {
    var id: Option<int>
    var edgeCleared: bool
    var keyCleared: bool

    function Change(): OneChange
      reads this
    {
      OneChange(id, edgeCleared, keyCleared)
    }

    constructor ()
      ensures Change() == NO_ONE_CHANGE
    {
      id, edgeCleared, keyCleared := None, false, false;
    }

    method SetID(newID: int)
      modifies this
      ensures Change() == AfterOneCall(old(Change()), OneCall.SetID(newID))
    {
      id := Some(newID);
    }

    method ClearID()
      modifies this
      ensures Change() == AfterOneCall(old(Change()), OneCall.ClearID)
    {
      id := None;
      keyCleared := true;
    }

    method ResetID()
      modifies this
      ensures Change() == AfterOneCall(old(Change()), OneCall.ResetID)
    {
      id := None;
      keyCleared := false;
    }

    method ClearEdge()
      modifies this
      ensures Change() == AfterOneCall(old(Change()), OneCall.ClearEdge)
    {
      edgeCleared := true;
      keyCleared := true;
    }

    method ResetEdge()
      modifies this
      ensures Change() == AfterOneCall(old(Change()), OneCall.ResetEdge)
    {
      id := None;
      edgeCleared := false;
    }

    /** Any calls in a row leave the state that `AfterOneCalls` gives, and link what the last one asks if it can. */
    method Perform(calls: seq<OneCall>)
      requires Change() == NO_ONE_CHANGE
      modifies this
      ensures Change() == AfterOneCalls(calls)
      ensures !LastCallOverridden(calls) ==> forall linked :: OneResult(Change(), linked) == LastCall(linked, calls)
    {
      for i := 0 to |calls|
        invariant Change() == AfterOneCalls(calls[..i])
      {
        match calls[i] {
          case SetID(newID) => SetID(newID);
          case ClearID => ClearID();
          case ResetID => ResetID();
          case ClearEdge => ClearEdge();
          case ResetEdge => ResetEdge();
        }
        assert calls[..i + 1][..i] == calls[..i];
      }
      assert calls[..|calls|] == calls;
      LastOneCallWinsIff(calls);
    }
  }

  datatype Changes = Changes(groups: ManyChange, proxy: OneChange, parent: OneChange, children: ManyChange,
                             usageLogs: ManyChange)

  class AccountMutation {
    const groups: ManyEdge
    const proxy: OneEdge
    const parent: OneEdge
    const children: ManyEdge
    const usageLogs: ManyEdge

    constructor ()
      ensures fresh(groups) && fresh(proxy) && fresh(parent) && fresh(children) && fresh(usageLogs)
      ensures Value() == Changes(NO_MANY_CHANGE, NO_ONE_CHANGE, NO_ONE_CHANGE, NO_MANY_CHANGE, NO_MANY_CHANGE)
    {
      groups := new ManyEdge();
      proxy := new OneEdge();
      parent := new OneEdge();
      children := new ManyEdge();
      usageLogs := new ManyEdge();
    }

    function Value(): Changes
      reads groups, proxy, parent, children, usageLogs
    {
      Changes(groups.Change(), proxy.Change(), parent.Change(), children.Change(), usageLogs.Change())
    }
  }

  // ---------------------------------------------------------------- the edge specs of an update

  datatype EdgeSpec = EdgeSpec(edge: Edge, rel: Relation, inverse: bool, targets: seq<int>)

  predicate Distinct(ids: seq<int>) {
    forall i, j :: 0 <= i < j < |ids| ==> ids[i] != ids[j]
  }

  /** A spec for `edge` that names each of `targets` once. */
  predicate Names(spec: EdgeSpec, edge: Edge, targets: set<int>) {
    spec.edge == edge && spec.rel == RelationOf(edge) && spec.inverse == edge.Parent? &&
    Distinct(spec.targets) && Elements(spec.targets) == targets
  }

  /** Some element, as the iteration over a map gives them. */
  method AnyOf<T(==)>(s: set<T>) returns (x: T)
    requires s != {}
    ensures x in s
  {
    x :| x in s;
  }

  /** The ids in the order of an iteration over the map that holds them, which is arbitrary. */
  method IDs(members: set<int>) returns (ids: seq<int>)
    ensures Distinct(ids) && Elements(ids) == members
  {
    ids := [];
    var left := members;
    while left != {}
      invariant left <= members && Distinct(ids) && Elements(ids) + left == members && Elements(ids) !! left
    {
      var id := AnyOf(left);
      left := left - {id};
      assert id !in Elements(ids);
      ElementsSnoc(ids, id);
      ids := ids + [id];
    }
  }

  /** What a list of specs amounts to: the edges and the target ids they name, in order. */
  datatype Target = Target(edge: Edge, ids: set<int>)

  ghost predicate Specify(specs: seq<EdgeSpec>, targets: seq<Target>) {
    |specs| == |targets| && forall k :: 0 <= k < |specs| ==> Names(specs[k], targets[k].edge, targets[k].ids)
  }

  function ManyCleared(edge: Edge, c: ManyChange): seq<Target> {
    if c.cleared then [Target(edge, {})] else if c.removed != {} then [Target(edge, c.removed)] else []
  }

  function ManyAdded(edge: Edge, c: ManyChange): seq<Target> {
    if c.added != {} then [Target(edge, c.added)] else []
  }

  function OneCleared(edge: Edge, c: OneChange): seq<Target> {
    if Cleared(c) then [Target(edge, {})] else []
  }

  function OneAdded(edge: Edge, c: OneChange): seq<Target> {
    if c.id.Some? then [Target(edge, {c.id.value})] else []
  }

  function ToClear(c: Changes): seq<Target> {
    ManyCleared(Groups, c.groups) + OneCleared(Proxy, c.proxy) + OneCleared(Parent, c.parent)
    + ManyCleared(Children, c.children) + ManyCleared(UsageLogs, c.usageLogs)
  }

  function ToAdd(c: Changes): seq<Target> {
    ManyAdded(Groups, c.groups) + OneAdded(Proxy, c.proxy) + OneAdded(Parent, c.parent)
    + ManyAdded(Children, c.children) + ManyAdded(UsageLogs, c.usageLogs)
  }

  lemma {:induction false} SpecifyAppend(s: seq<EdgeSpec>, t: seq<Target>, s': seq<EdgeSpec>, t': seq<Target>)
    requires Specify(s, t) && Specify(s', t')
    ensures Specify(s + s', t + t')
  {
  }

  /** The spec that names the ids in a set, in any order; no spec when there is no id. */
  method SpecFor(edge: Edge, members: set<int>) returns (specs: seq<EdgeSpec>)
    ensures Specify(specs, if members != {} then [Target(edge, members)] else [])
  {
    var nodes := IDs(members);
    assert nodes != [] ==> nodes[0] in Elements(nodes);
    specs := if |nodes| > 0 then [EdgeSpec(edge, RelationOf(edge), edge.Parent?, nodes)] else [];
  }

  class UpdateSpec {
    var clear: seq<EdgeSpec>
    var add: seq<EdgeSpec>

    constructor ()
      ensures clear == [] && add == []
    {
      clear, add := [], [];
    }

    method EmitMany(edge: Edge, c: ManyChange, ghost cleared: seq<Target>, ghost added: seq<Target>)
      requires Specify(clear, cleared) && Specify(add, added)
      modifies this
      ensures Specify(clear, cleared + ManyCleared(edge, c))
      ensures Specify(add, added + ManyAdded(edge, c))
    {
      if c.cleared {
        clear := clear + [EdgeSpec(edge, RelationOf(edge), edge.Parent?, [])];
      } else {
        var removed := SpecFor(edge, c.removed);
        clear := clear + removed;
      }
      var more := SpecFor(edge, c.added);
      add := add + more;
    }

    method EmitOne(edge: Edge, c: OneChange, ghost cleared: seq<Target>, ghost added: seq<Target>)
      requires Specify(clear, cleared) && Specify(add, added)
      modifies this
      ensures Specify(clear, cleared + OneCleared(edge, c))
      ensures Specify(add, added + OneAdded(edge, c))
    {
      if Cleared(c) {
        clear := clear + [EdgeSpec(edge, RelationOf(edge), edge.Parent?, [])];
      }
      var more := SpecFor(edge, if c.id.Some? then {c.id.value} else {});
      add := add + more;
    }

    /** The edge part of saving an update, the same for many accounts and for one. */
    method Emit(m: AccountMutation)
      requires clear == [] && add == []
      modifies this
      ensures Specify(clear, ToClear(m.Value())) && Specify(add, ToAdd(m.Value()))
    {
      var c := m.Value();
      assert Specify(clear, []) && Specify(add, []);
      hide Specify, ManyCleared, ManyAdded, OneCleared, OneAdded;
      EmitMany(Groups, c.groups, [], []);
      EmitOne(Proxy, c.proxy, [] + ManyCleared(Groups, c.groups), [] + ManyAdded(Groups, c.groups));
      ghost var cleared := [] + ManyCleared(Groups, c.groups) + OneCleared(Proxy, c.proxy);
      ghost var added := [] + ManyAdded(Groups, c.groups) + OneAdded(Proxy, c.proxy);
      EmitOne(Parent, c.parent, cleared, added);
      cleared, added := cleared + OneCleared(Parent, c.parent), added + OneAdded(Parent, c.parent);
      EmitMany(Children, c.children, cleared, added);
      cleared, added := cleared + ManyCleared(Children, c.children), added + ManyAdded(Children, c.children);
      EmitMany(UsageLogs, c.usageLogs, cleared, added);
      assert cleared + ManyCleared(UsageLogs, c.usageLogs) == ToClear(c);
      assert added + ManyAdded(UsageLogs, c.usageLogs) == ToAdd(c);
    }
  }

  // ---------------------------------------------------------------- what the specs mean

  /** The ids linked to one account; a to-one edge links at most one. */
  datatype Links = Links(groups: set<int>, proxy: set<int>, parent: set<int>, children: set<int>, usageLogs: set<int>)

  function Get(l: Links, edge: Edge): set<int> {
    match edge
    case Groups => l.groups
    case Proxy => l.proxy
    case Parent => l.parent
    case Children => l.children
    case UsageLogs => l.usageLogs
  }

  function With(l: Links, edge: Edge, ids: set<int>): Links {
    match edge
    case Groups => l.(groups := ids)
    case Proxy => l.(proxy := ids)
    case Parent => l.(parent := ids)
    case Children => l.(children := ids)
    case UsageLogs => l.(usageLogs := ids)
  }

  /** Unlink the named targets, or all of them when none is named. */
  function ClearSpec(l: Links, spec: EdgeSpec): Links {
    With(l, spec.edge, if spec.targets == [] then {} else Get(l, spec.edge) - Elements(spec.targets))
  }

  /** Link the named targets; the foreign key of a to-one edge holds only the new one. */
  function AddSpec(l: Links, spec: EdgeSpec): Links {
    With(l, spec.edge, (if spec.rel == M2O then {} else Get(l, spec.edge)) + Elements(spec.targets))
  }

  function ClearAllSpecs(l: Links, specs: seq<EdgeSpec>): Links {
    if specs == [] then l else ClearSpec(ClearAllSpecs(l, specs[..|specs| - 1]), specs[|specs| - 1])
  }

  function AddAllSpecs(l: Links, specs: seq<EdgeSpec>): Links {
    if specs == [] then l else AddSpec(AddAllSpecs(l, specs[..|specs| - 1]), specs[|specs| - 1])
  }

  /** The links after an update: first everything is cleared, then everything is added. */
  function Interpret(l: Links, clear: seq<EdgeSpec>, add: seq<EdgeSpec>): Links {
    AddAllSpecs(ClearAllSpecs(l, clear), add)
  }

  /** The link of a to-one edge after the update. */
  function OneLink(c: OneChange, linked: set<int>): set<int> {
    if c.id.Some? then {c.id.value} else if Cleared(c) then {} else linked
  }

  /** A to-one edge as a set of links. */
  function AtMostOne(id: Option<int>): set<int> {
    if id.Some? then {id.value} else {}
  }

  // ---------------------------------------------------------------- the specs mean what was asked for

  /** The same on lists of targets, where the order within one spec is forgotten. */
  function ClearTargets(l: Links, targets: seq<Target>): Links {
    if targets == [] then l
    else
      var before, t := ClearTargets(l, targets[..|targets| - 1]), targets[|targets| - 1];
      With(before, t.edge, if t.ids == {} then {} else Get(before, t.edge) - t.ids)
  }

  function AddTargets(l: Links, targets: seq<Target>): Links {
    if targets == [] then l
    else
      var before, t := AddTargets(l, targets[..|targets| - 1]), targets[|targets| - 1];
      With(before, t.edge, (if RelationOf(t.edge) == M2O then {} else Get(before, t.edge)) + t.ids)
  }

  lemma {:induction false} ClearsTargets(l: Links, specs: seq<EdgeSpec>, targets: seq<Target>)
    requires Specify(specs, targets)
    ensures ClearAllSpecs(l, specs) == ClearTargets(l, targets)
  {
    if specs != [] {
      var last := |specs| - 1;
      ClearsTargets(l, specs[..last], targets[..last]);
      var ids := specs[last].targets;
      assert ids != [] ==> ids[0] in Elements(ids);
    }
  }

  lemma {:induction false} AddsTargets(l: Links, specs: seq<EdgeSpec>, targets: seq<Target>)
    requires Specify(specs, targets)
    ensures AddAllSpecs(l, specs) == AddTargets(l, targets)
  {
    if specs != [] {
      AddsTargets(l, specs[..|specs| - 1], targets[..|specs| - 1]);
    }
  }

  lemma {:induction false} ClearMany(l: Links, targets: seq<Target>, edge: Edge, c: ManyChange)
    ensures var before := ClearTargets(l, targets);
            ClearTargets(l, targets + ManyCleared(edge, c)) ==
            With(before, edge, if c.cleared then {} else Get(before, edge) - c.removed)
  {
    var more := ManyCleared(edge, c);
    if more == [] {
      assert targets + more == targets;
    } else {
      assert (targets + more)[..|targets|] == targets;
    }
  }

  lemma {:induction false} ClearOne(l: Links, targets: seq<Target>, edge: Edge, c: OneChange)
    ensures var before := ClearTargets(l, targets);
            ClearTargets(l, targets + OneCleared(edge, c)) ==
                With(before, edge, if Cleared(c) then {} else Get(before, edge))
  {
    var more := OneCleared(edge, c);
    if more == [] {
      assert targets + more == targets;
    } else {
      assert (targets + more)[..|targets|] == targets;
    }
  }

  lemma {:induction false} AddMany(l: Links, targets: seq<Target>, edge: Edge, c: ManyChange)
    requires RelationOf(edge) != M2O
    ensures var before := AddTargets(l, targets);
            AddTargets(l, targets + ManyAdded(edge, c)) == With(before, edge, Get(before, edge) + c.added)
  {
    var more := ManyAdded(edge, c);
    if more == [] {
      assert targets + more == targets;
    } else {
      assert (targets + more)[..|targets|] == targets;
    }
  }

  lemma {:induction false} AddOne(l: Links, targets: seq<Target>, edge: Edge, c: OneChange)
    requires RelationOf(edge) == M2O
    ensures var before := AddTargets(l, targets);
            AddTargets(l, targets + OneAdded(edge, c)) ==
                With(before, edge, if c.id.Some? then {c.id.value} else Get(before, edge))
  {
    var more := OneAdded(edge, c);
    if more == [] {
      assert targets + more == targets;
    } else {
      assert (targets + more)[..|targets|] == targets;
    }
  }

  /** What is left of the links once everything asked for is cleared. */
  function Kept(c: Changes, l: Links): Links {
    Links(if c.groups.cleared then {} else l.groups - c.groups.removed,
          if Cleared(c.proxy) then {} else l.proxy,
          if Cleared(c.parent) then {} else l.parent,
          if c.children.cleared then {} else l.children - c.children.removed,
          if c.usageLogs.cleared then {} else l.usageLogs - c.usageLogs.removed)
  }

  lemma {:induction false} ClearsWhatWasAsked(c: Changes, l: Links)
    ensures ClearTargets(l, ToClear(c)) == Kept(c, l)
  {
    assert ClearTargets(l, []) == l;
    hide ClearTargets, ManyCleared, OneCleared;
    var t1 := [] + ManyCleared(Groups, c.groups);
    var t2 := t1 + OneCleared(Proxy, c.proxy);
    var t3 := t2 + OneCleared(Parent, c.parent);
    var t4 := t3 + ManyCleared(Children, c.children);
    ClearMany(l, [], Groups, c.groups);
    ClearOne(l, t1, Proxy, c.proxy);
    ClearOne(l, t2, Parent, c.parent);
    ClearMany(l, t3, Children, c.children);
    ClearMany(l, t4, UsageLogs, c.usageLogs);
    assert t1 == ManyCleared(Groups, c.groups);
  }

  lemma {:induction false} AddsWhatWasAsked(c: Changes, l: Links)
    ensures AddTargets(l, ToAdd(c)) ==
            Links(l.groups + c.groups.added, if c.proxy.id.Some? then {c.proxy.id.value} else l.proxy,
                  if c.parent.id.Some? then {c.parent.id.value} else l.parent,
                  l.children + c.children.added, l.usageLogs + c.usageLogs.added)
  {
    assert AddTargets(l, []) == l;
    hide AddTargets, ManyAdded, OneAdded;
    var t1 := [] + ManyAdded(Groups, c.groups);
    var t2 := t1 + OneAdded(Proxy, c.proxy);
    var t3 := t2 + OneAdded(Parent, c.parent);
    var t4 := t3 + ManyAdded(Children, c.children);
    AddMany(l, [], Groups, c.groups);
    AddOne(l, t1, Proxy, c.proxy);
    AddOne(l, t2, Parent, c.parent);
    AddMany(l, t3, Children, c.children);
    AddMany(l, t4, UsageLogs, c.usageLogs);
    assert t1 == ManyAdded(Groups, c.groups);
  }

  /**
   * Where the links of an edge are kept: groups in a table of their own, the proxy and the parent in a key of
   * the account, children and usage logs in a key of their own rows; the parent is the inverse of the children.
   */
  predicate KeptInPlace(spec: EdgeSpec) {
    match spec.edge
    case Groups => spec.rel == M2M && !spec.inverse
    case Proxy => spec.rel == M2O && !spec.inverse
    case Parent => spec.rel == M2O && spec.inverse
    case Children => spec.rel == O2M && !spec.inverse
    case UsageLogs => spec.rel == O2M && !spec.inverse
  }

  lemma {:induction false} EdgesAreKept(c: Changes, specs: seq<EdgeSpec>)
    requires Specify(specs, ToClear(c)) || Specify(specs, ToAdd(c))
    ensures forall k :: 0 <= k < |specs| ==> KeptInPlace(specs[k])
  {
    hide ToClear, ToAdd;
    forall k | 0 <= k < |specs|
      ensures specs[k].rel == RelationOf(specs[k].edge) && specs[k].inverse == specs[k].edge.Parent?
    {
      if Specify(specs, ToClear(c)) {
        assert Names(specs[k], ToClear(c)[k].edge, ToClear(c)[k].ids);
      } else {
        assert Names(specs[k], ToAdd(c)[k].edge, ToAdd(c)[k].ids);
      }
    }
  }

  function Position(edge: Edge): nat {
    match edge
    case Groups => 0 case Proxy => 1 case Parent => 2 case Children => 3 case UsageLogs => 4
  }

  ghost predicate Ordered(targets: seq<Target>, below: nat) {
    && (forall i, j :: 0 <= i < j < |targets| ==> Position(targets[i].edge) < Position(targets[j].edge))
    && forall i :: 0 <= i < |targets| ==> Position(targets[i].edge) < below
  }

  lemma {:induction false} OrderedAppend(targets: seq<Target>, edge: Edge, more: seq<Target>)
    requires Ordered(targets, Position(edge)) && |more| <= 1 && forall t :: t in more ==> t.edge == edge
    ensures Ordered(targets + more, Position(edge) + 1)
  {
    if more != [] {
      assert more[0] in more;
    }
  }

  lemma {:induction false} OneOfEach(edge: Edge, many: ManyChange, one: OneChange)
    ensures |ManyCleared(edge, many)| <= 1 && |ManyAdded(edge, many)| <= 1
    ensures |OneCleared(edge, one)| <= 1 && |OneAdded(edge, one)| <= 1
    ensures forall t :: t in ManyCleared(edge, many) || t in ManyAdded(edge, many) ==> t.edge == edge
    ensures forall t :: t in OneCleared(edge, one) || t in OneAdded(edge, one) ==> t.edge == edge
  {
  }

  lemma {:induction false} OrderedByEdge(g: seq<Target>, p: seq<Target>, q: seq<Target>, h: seq<Target>, u: seq<Target>)
    requires |g| <= 1 && |p| <= 1 && |q| <= 1 && |h| <= 1 && |u| <= 1
    requires (forall t :: t in g ==> t.edge == Groups) && (forall t :: t in p ==> t.edge == Proxy)
    requires (forall t :: t in q ==> t.edge == Parent) && (forall t :: t in h ==> t.edge == Children)
    requires forall t :: t in u ==> t.edge == UsageLogs
    ensures Ordered(g + p + q + h + u, 5)
  {
    OrderedAppend([], Groups, g);
    assert [] + g == g;
    hide Ordered;
    OrderedAppend(g, Proxy, p);
    OrderedAppend(g + p, Parent, q);
    OrderedAppend(g + p + q, Children, h);
    OrderedAppend(g + p + q + h, UsageLogs, u);
  }

  lemma {:induction false} TargetsInOrder(c: Changes)
    ensures Ordered(ToClear(c), 5) && Ordered(ToAdd(c), 5)
  {
    OneOfEach(Groups, c.groups, c.proxy);
    OneOfEach(Proxy, c.groups, c.proxy);
    OneOfEach(Parent, c.groups, c.parent);
    OneOfEach(Children, c.children, c.proxy);
    OneOfEach(UsageLogs, c.usageLogs, c.proxy);
    hide ManyCleared, ManyAdded, OneCleared, OneAdded, Ordered;
    OrderedByEdge(ManyCleared(Groups, c.groups), OneCleared(Proxy, c.proxy), OneCleared(Parent, c.parent),
                  ManyCleared(Children, c.children), ManyCleared(UsageLogs, c.usageLogs));
    OrderedByEdge(ManyAdded(Groups, c.groups), OneAdded(Proxy, c.proxy), OneAdded(Parent, c.parent),
                  ManyAdded(Children, c.children), ManyAdded(UsageLogs, c.usageLogs));
  }

  /** There is at most one spec per edge, in the order groups, proxy, parent, children, usage logs. */
  lemma {:induction false} SpecsInOrder(c: Changes, specs: seq<EdgeSpec>)
    requires Specify(specs, ToClear(c)) || Specify(specs, ToAdd(c))
    ensures forall i, j :: 0 <= i < j < |specs| ==> Position(specs[i].edge) < Position(specs[j].edge)
  {
    TargetsInOrder(c);
    hide ToClear, ToAdd, Position;
    var targets := if Specify(specs, ToClear(c)) then ToClear(c) else ToAdd(c);
    assert forall k :: 0 <= k < |specs| ==> Names(specs[k], targets[k].edge, targets[k].ids);
  }

  /**
   * However the ids are ordered, the emitted specs link exactly: for a to-many edge, nothing or the old
   * ids without the removed ones, and the added ones; for a to-one edge, the new id, nothing, or the old.
   */
  lemma {:induction false} SpecsMeanTheChanges(c: Changes, l: Links, clear: seq<EdgeSpec>, add: seq<EdgeSpec>)
    requires Specify(clear, ToClear(c)) && Specify(add, ToAdd(c))
    ensures Interpret(l, clear, add) ==
            Links(ManyResult(c.groups, l.groups), OneLink(c.proxy, l.proxy), OneLink(c.parent, l.parent),
                  ManyResult(c.children, l.children), ManyResult(c.usageLogs, l.usageLogs))
  {
    ClearsTargets(l, clear, ToClear(c));
    ClearsWhatWasAsked(c, l);
    AddsTargets(Kept(c, l), add, ToAdd(c));
    AddsWhatWasAsked(c, Kept(c, l));
  }

  /** Two saves of the same mutation mean the same, whatever order each of them happened to use. */
  lemma {:induction false} OrderOfIDsIsIrrelevant(c: Changes, l: Links, clear: seq<EdgeSpec>, add: seq<EdgeSpec>,
                                                  clear': seq<EdgeSpec>, add': seq<EdgeSpec>)
    requires Specify(clear, ToClear(c)) && Specify(add, ToAdd(c)) && Specify(clear', ToClear(c)) &&
             Specify(add', ToAdd(c))
    ensures Interpret(l, clear, add) == Interpret(l, clear', add')
    ensures |clear| == |clear'| && |add| == |add'|
    ensures forall k :: 0 <= k < |clear| ==>
              clear[k].edge == clear'[k].edge && multiset(clear[k].targets) == multiset(clear'[k].targets)
    ensures forall k :: 0 <= k < |add| ==>
              add[k].edge == add'[k].edge && multiset(add[k].targets) == multiset(add'[k].targets)
  {
    SpecsMeanTheChanges(c, l, clear, add);
    SpecsMeanTheChanges(c, l, clear', add');
    forall k | 0 <= k < |clear|
      ensures multiset(clear[k].targets) == multiset(clear'[k].targets)
    {
      SameMultiset(clear[k].targets, clear'[k].targets);
    }
    forall k | 0 <= k < |add|
      ensures multiset(add[k].targets) == multiset(add'[k].targets)
    {
      SameMultiset(add[k].targets, add'[k].targets);
    }
  }

  lemma {:induction false} CountsOnce(ids: seq<int>, id: int)
    requires Distinct(ids)
    ensures multiset(ids)[id] == if id in Elements(ids) then 1 else 0
  {
    if ids != [] {
      var last := |ids| - 1;
      CountsOnce(ids[..last], id);
      assert ids == ids[..last] + [ids[last]];
      ElementsSnoc(ids[..last], ids[last]);
    }
  }

  lemma {:induction false} SameMultiset(a: seq<int>, b: seq<int>)
    requires Distinct(a) && Distinct(b) && Elements(a) == Elements(b)
    ensures multiset(a) == multiset(b)
  {
    forall id: int
      ensures multiset(a)[id] == multiset(b)[id]
    {
      CountsOnce(a, id);
      CountsOnce(b, id);
    }
  }

  /** The mutation asks to unlink something on the edge. */
  predicate AsksToClear(c: Changes, edge: Edge) {
    match edge
    case Groups => c.groups.cleared || c.groups.removed != {}
    case Proxy => Cleared(c.proxy)
    case Parent => Cleared(c.parent)
    case Children => c.children.cleared || c.children.removed != {}
    case UsageLogs => c.usageLogs.cleared || c.usageLogs.removed != {}
  }

  /** The mutation asks to unlink everything on the edge. */
  predicate AsksToClearAll(c: Changes, edge: Edge) {
    match edge
    case Groups => c.groups.cleared
    case Proxy => Cleared(c.proxy)
    case Parent => Cleared(c.parent)
    case Children => c.children.cleared
    case UsageLogs => c.usageLogs.cleared
  }

  function ClearedOn(c: Changes, edge: Edge): seq<Target> {
    match edge
    case Groups => ManyCleared(Groups, c.groups)
    case Proxy => OneCleared(Proxy, c.proxy)
    case Parent => OneCleared(Parent, c.parent)
    case Children => ManyCleared(Children, c.children)
    case UsageLogs => ManyCleared(UsageLogs, c.usageLogs)
  }

  lemma {:induction false} InToClear(c: Changes, t: Target)
    ensures t in ToClear(c) <==> t in ClearedOn(c, t.edge)
  {
    var a, b := ManyCleared(Groups, c.groups), OneCleared(Proxy, c.proxy);
    var d, e := OneCleared(Parent, c.parent), ManyCleared(Children, c.children);
    InEither(a, b, t);
    InEither(a + b, d, t);
    InEither(a + b + d, e, t);
    InEither(a + b + d + e, ManyCleared(UsageLogs, c.usageLogs), t);
  }

  lemma {:induction false} InEither(s: seq<Target>, more: seq<Target>, t: Target)
    ensures t in s + more <==> t in s || t in more
  {
  }

  /**
   * An update asks to clear an edge exactly if the mutation cleared it or removed ids from it, and clears
   * it entirely exactly if the mutation did: an empty list of ids never stands for "no ids removed".
   */
  lemma {:induction false} NothingClearedByAccident(c: Changes, edge: Edge, specs: seq<EdgeSpec>)
    requires Specify(specs, ToClear(c))
    ensures (exists spec :: spec in specs && spec.edge == edge) <==> AsksToClear(c, edge)
    ensures (exists spec :: spec in specs && spec.edge == edge && spec.targets == []) <==> AsksToClearAll(c, edge)
  {
    var targets := ToClear(c);
    forall t
      ensures t in targets <==> t in ClearedOn(c, t.edge)
    {
      InToClear(c, t);
    }
    hide ToClear;
    var here := ClearedOn(c, edge);
    forall k | 0 <= k < |specs|
      ensures specs[k].edge == targets[k].edge && (specs[k].targets == [] <==> targets[k].ids == {})
    {
      var ids := specs[k].targets;
      assert ids != [] ==> ids[0] in Elements(ids);
    }
    if AsksToClear(c, edge) {
      assert here[0] in here && here[0] in targets;
      var k :| 0 <= k < |targets| && targets[k] == here[0];
      assert specs[k] in specs;
    }
    forall spec | spec in specs && spec.edge == edge
      ensures AsksToClear(c, edge) && (spec.targets == [] ==> AsksToClearAll(c, edge))
    {
      var k :| 0 <= k < |specs| && specs[k] == spec;
      assert targets[k] in targets;
    }
  }

  /** An update emits no clear spec at all exactly if the mutation neither clears nor removes anything. */
  lemma {:induction false} NoClearSpecsIff(c: Changes, specs: seq<EdgeSpec>)
    requires Specify(specs, ToClear(c))
    ensures specs == [] <==> forall edge :: !AsksToClear(c, edge)
  {
    forall edge: Edge
      ensures (exists spec :: spec in specs && spec.edge == edge) <==> AsksToClear(c, edge)
    {
      NothingClearedByAccident(c, edge, specs);
    }
    hide Specify, ToClear, AsksToClear;
    if specs != [] {
      assert specs[0] in specs && specs[0].edge == specs[0].edge;
      assert AsksToClear(c, specs[0].edge);
    }
  }

  /** The calls made on the edges of a mutation. */
  datatype Calls = Calls(groups: seq<ManyCall>, proxy: seq<OneCall>, parent: seq<OneCall>, children: seq<ManyCall>,
                         usageLogs: seq<ManyCall>)

  function AfterCalls(calls: Calls): Changes {
    Changes(AfterManyCalls(calls.groups), AfterOneCalls(calls.proxy), AfterOneCalls(calls.parent),
            AfterManyCalls(calls.children), AfterManyCalls(calls.usageLogs))
  }

  /**
   * From the calls on the mutation to the links after the update, on all five edges: a to-many edge links
   * what the calls say one by one and the stale ids, a to-one edge what the last call asks for, unless that
   * call is one of the three overridden ones.
   */
  lemma {:induction false} UpdateFollowsTheCalls(calls: Calls, l: Links, proxy: Option<int>, parent: Option<int>,
                                                 clear: seq<EdgeSpec>, add: seq<EdgeSpec>)
    requires l.proxy == AtMostOne(proxy) && l.parent == AtMostOne(parent)
    requires Specify(clear, ToClear(AfterCalls(calls))) && Specify(add, ToAdd(AfterCalls(calls)))
    ensures Interpret(l, clear, add) ==
            Links(OneByOne(l.groups, calls.groups) + Stale(calls.groups),
                  AtMostOne(OneAfter(proxy, calls.proxy)), AtMostOne(OneAfter(parent, calls.parent)),
                  OneByOne(l.children, calls.children) + Stale(calls.children),
                  OneByOne(l.usageLogs, calls.usageLogs) + Stale(calls.usageLogs))
  {
    SpecsMeanTheChanges(AfterCalls(calls), l, clear, add);
    ManyCallsAccumulate(calls.groups, l.groups);
    ManyCallsAccumulate(calls.children, l.children);
    ManyCallsAccumulate(calls.usageLogs, l.usageLogs);
    OneCallsAmountTo(calls.proxy, proxy);
    OneCallsAmountTo(calls.parent, parent);
  }
}
