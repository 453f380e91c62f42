/**
 * Bulk creation: every builder's mutator checks its mutation, records its spec, and calls the next
 * builder's mutator; the last one issues the batch insert. Hooks wrap each mutator, hook 0 outermost.
 */
module BulkCreate {
  import opened Tables

  datatype Error = ValidationError(name: string) | ConstraintError(wrapped: string) | DatabaseError(text: string) |
      HookError(text: string)

  /** Call the next mutator with the same mutation or with another one, or return without calling it. */
  datatype Decision<F> = Forward | HandOn(other: F) | Stop(err: Option<Error>)

  /**
   * A hook that calls its next mutator at most once. It may edit the mutation it is given, then either
   * returns on its own or calls next, and may replace what next returned.
   */
  datatype Hook<!F> = Hook(edit: F -> F, decide: F -> Decision<F>, after: Option<Error> -> Option<Error>)

  /** What a mutator is given: the mutation of its builder, or another one, while the builder keeps its own. */
  datatype Given<F> = Own(fields: F) | Other(fields: F, kept: F)

  /** The mutation of the builder, which the core checks before it takes over the one it is given. */
  function OwnOf<F>(g: Given<F>): F {
    if g.Own? then g.fields else g.kept
  }

  /** What the surroundings of the builders do: defaults, checks, and the outcome of the batch insert. */
  datatype Setting<!F> = Setting(defaults: F -> F, check: F -> Option<Error>, insert: seq<F> -> InsertResult)

  datatype InsertResult = Inserted(ids: seq<Option<int>>) | InsertFailed(text: string, constraint: bool)

  /** Constraint violations are wrapped; other database errors are passed on. */
  function InsertError(r: InsertResult): Option<Error> {
    match r
    case Inserted(_) => None
    case InsertFailed(text, constraint) => Some(if constraint then ConstraintError(text) else DatabaseError(text))
  }

  datatype BuilderValue<!F> = BuilderValue(fields: F, hooks: seq<Hook<F>>)

  datatype Event<F> = Enter(i: nat, h: nat) | Leave(i: nat, h: nat) | Rejected(i: nat) |
      Recorded(i: nat, given: Given<F>) | Insert(specs: seq<F>) | Done(i: nat)

  /** `ids` are the row ids that a successful insert reported, `done` the mutations that were marked done. */
  datatype Outcome<F> = Outcome(err: Option<Error>, trace: seq<Event<F>>, ids: Option<seq<Option<int>>>, done: set<nat>)

  // ---------------------------------------------------------------- the chain of mutators

  /**
   * What running hook `h` of builder `i`, or its core when no hook is left, does with what it is given.
   * The specs of the earlier builders are already recorded.
   */
  function Chain<F>(s: Setting<F>, bs: seq<BuilderValue<F>>, i: nat, h: nat, g: Given<F>, specs: seq<F>): Outcome<F>
    requires i < |bs| && h <= |bs[i].hooks|
    decreases |bs| - i, |bs[i].hooks| - h, 1
  {
    if h < |bs[i].hooks| then
      var hook := bs[i].hooks[h];
      var edited := g.(fields := hook.edit(g.fields));
      match hook.decide(edited.fields)
      case Stop(err) => Outcome(err, [Enter(i, h), Leave(i, h)], None, {})
      case Forward => Around(hook, i, h, Chain(s, bs, i, h + 1, edited, specs))
      case HandOn(other) => Around(hook, i, h, Chain(s, bs, i, h + 1, Other(other, OwnOf(edited)), specs))
    else if s.check(OwnOf(g)).Some? then Outcome(s.check(OwnOf(g)), [Rejected(i)], None, {})
    else
      var next := Rest(s, bs, i, specs + [g.fields]);
      Outcome(next.err, [Recorded(i, g)] + next.trace + (if next.err.None? then [Done(i)] else []), next.ids,
              next.done + (if next.err.None? then {i} else {}))
  }

  /** A hook around what it called. */
  function Around<F>(hook: Hook<F>, i: nat, h: nat, next: Outcome<F>): Outcome<F> {
    Outcome(hook.after(next.err), [Enter(i, h)] + next.trace + [Leave(i, h)], next.ids, next.done)
  }

  /** What the core of builder `i` calls: the next mutator, or the insert after the last builder. */
  function Rest<F>(s: Setting<F>, bs: seq<BuilderValue<F>>, i: nat, specs: seq<F>): Outcome<F>
    requires i < |bs|
    decreases |bs| - i, 0, 0
  {
    if i + 1 < |bs| then Chain(s, bs, i + 1, 0, Own(bs[i + 1].fields), specs)
    else
      var r := s.insert(specs);
      Outcome(InsertError(r), [Insert(specs)], if r.Inserted? then Some(r.ids) else None, {})
  }

  function Prepared<F>(s: Setting<F>, bs: seq<BuilderValue<F>>): (r: seq<BuilderValue<F>>)
    ensures |r| == |bs|
  {
    seq(|bs|, i requires 0 <= i < |bs| => BuilderValue(s.defaults(bs[i].fields), bs[i].hooks))
  }

  /** Bulk creation as a whole: defaults first, then the first mutator. */
  function SaveAll<F>(s: Setting<F>, bs: seq<BuilderValue<F>>): Outcome<F> {
    if bs == [] then Outcome(None, [], None, {})
    else Chain(s, Prepared(s, bs), 0, 0, Own(Prepared(s, bs)[0].fields), [])
  }

  lemma {:induction false} ChainAtCore<F>(s: Setting<F>, bs: seq<BuilderValue<F>>, i: nat, g: Given<F>, specs: seq<F>)
    requires i < |bs|
    ensures Chain(s, bs, i, |bs[i].hooks|, g, specs) ==
            if s.check(OwnOf(g)).Some? then Outcome(s.check(OwnOf(g)), [Rejected(i)], None, {})
            else
              var next := Rest(s, bs, i, specs + [g.fields]);
              Outcome(next.err, [Recorded(i, g)] + next.trace + (if next.err.None? then [Done(i)] else []), next.ids,
                      next.done + (if next.err.None? then {i} else {}))
  {
  }

  /** What a hook passes to its next mutator, if it calls it. */
  function Passed<F>(hook: Hook<F>, g: Given<F>): Option<Given<F>> {
    var edited := g.(fields := hook.edit(g.fields));
    match hook.decide(edited.fields)
    case Stop(_) => None
    case Forward => Some(edited)
    case HandOn(other) => Some(Other(other, OwnOf(edited)))
  }

  lemma {:induction false} ChainAtHook<F>(s: Setting<F>, bs: seq<BuilderValue<F>>, i: nat, h: nat, g: Given<F>,
                                          specs: seq<F>)
    requires i < |bs| && h < |bs[i].hooks|
    ensures var hook := bs[i].hooks[h];
            Chain(s, bs, i, h, g, specs) ==
            if Passed(hook, g).Some? then Around(hook, i, h, Chain(s, bs, i, h + 1, Passed(hook, g).value, specs))
            else Outcome(hook.decide(hook.edit(g.fields)).err, [Enter(i, h), Leave(i, h)], None, {})
  {
  }

  /** The marks of a run are the marks in its trace, and only builders from its own on are marked. */
  lemma {:induction false} MarksInTrace<F>(s: Setting<F>, bs: seq<BuilderValue<F>>, i: nat, h: nat, g: Given<F>,
                                           specs: seq<F>, j: nat)
    requires i < |bs| && h <= |bs[i].hooks|
    ensures var o := Chain(s, bs, i, h, g, specs);
            (j in o.done <==> Done(j) in o.trace) && (j in o.done ==> i <= j < |bs|)
    decreases |bs| - i, |bs[i].hooks| - h
  {
    if h < |bs[i].hooks| {
      ChainAtHook(s, bs, i, h, g, specs);
      var passed := Passed(bs[i].hooks[h], g);
      hide Chain, Passed;
      if passed.Some? {
        MarksInTrace(s, bs, i, h + 1, passed.value, specs, j);
      }
    } else if s.check(OwnOf(g)).None? && i + 1 < |bs| {
      MarksInTrace(s, bs, i + 1, 0, Own(bs[i + 1].fields), specs + [g.fields], j);
    }
  }

  // ---------------------------------------------------------------- mutation objects

  class Node<F> {
    const fields: F
    var ID: int

    constructor (fields: F)
      ensures this.fields == fields && ID == 0
    {
      this.fields, ID := fields, 0;
    }
  }

  class Mutation<F> {
    var fields: F
    var id: Node?<F>  // points to the node whose ID is the id of the mutation
    var done: bool

    constructor (fields: F)
      ensures this.fields == fields && id == null && !done
    {
      this.fields, id, done := fields, null, false;
    }
  }

  class Builder<F> {
    var mutation: Mutation<F>
    const hooks: seq<Hook<F>>

    constructor (mutation: Mutation<F>, hooks: seq<Hook<F>>)
      ensures this.mutation == mutation && this.hooks == hooks
    {
      this.mutation, this.hooks := mutation, hooks;
    }
  }

  ghost function BuildersFrom<F>(builders: seq<Builder<F>>, i: nat): set<Builder<F>> {
    set j | i <= j < |builders| :: builders[j]
  }

  ghost function MutationsFrom<F>(builders: seq<Builder<F>>, i: nat): set<Mutation<F>>
    reads BuildersFrom(builders, i)
  {
    set j | i <= j < |builders| :: builders[j].mutation
  }

  /** From `i` on, the builders and their mutations are distinct objects. */
  ghost predicate DistinctFrom<F>(builders: seq<Builder<F>>, i: nat)
    reads BuildersFrom(builders, i)
  {
    forall j, k :: i <= j < k < |builders| ==>
        builders[j] != builders[k] && builders[j].mutation != builders[k].mutation
  }

  /** The builders that have not run yet still hold the mutations of `bs`. */
  ghost predicate Pending<F>(builders: seq<Builder<F>>, bs: seq<BuilderValue<F>>, from: nat)
    reads BuildersFrom(builders, from), MutationsFrom(builders, from)
  {
    |bs| == |builders| &&
    forall j :: from <= j < |bs| ==> bs[j] == BuilderValue(builders[j].mutation.fields, builders[j].hooks)
  }

  /** `m` is what the mutator of `b` is given: its own mutation, or another object. */
  ghost predicate IsGiven<F>(b: Builder<F>, m: Mutation<F>, g: Given<F>)
    reads b, b.mutation, m
  {
    m.fields == g.fields && b.mutation.fields == OwnOf(g) && (g.Own? <==> m == b.mutation)
  }

  function IDOf(ids: seq<Option<int>>, j: nat): Option<int> {
    if j < |ids| then ids[j] else None
  }

  /** The arrays that the mutators share: one spec and one node per builder, and the id on each spec. */
  class Slots<F> {
    const specs: array<Option<F>>
    const specIDs: array<Option<int>>
    const nodes: array<Node?<F>>

    ghost predicate Sized(n: nat) {
      && specs.Length == specIDs.Length == nodes.Length == n
      && specs as object != specIDs as object && specs as object != nodes as object &&
        specIDs as object != nodes as object
    }

    constructor (n: nat)
      ensures fresh(specs) && fresh(specIDs) && fresh(nodes) && Sized(n)
      ensures forall j :: 0 <= j < n ==> specIDs[j] == None
    {
      specs := new Option<F>[n](_ => None);
      specIDs := new Option<int>[n](_ => None);
      nodes := new Node?<F>[n](_ => null);
    }
  }

  /** Issue the batch insert and put the reported ids on the specs. */
  method BatchCreate<F>(s: Setting<F>, slots: Slots<F>, ghost specs: seq<F>)
    returns (err: Option<Error>, ghost o: Outcome<F>)
    requires slots.Sized(|specs|)
    requires forall j :: 0 <= j < |specs| ==> slots.specs[j] == Some(specs[j])
    modifies slots.specIDs
    ensures match s.insert(specs)
            case Inserted(ids) =>
              && err == None && o == Outcome(None, [Insert(specs)], Some(ids), {})
              && forall j :: 0 <= j < |specs| ==> slots.specIDs[j] == if j < |ids| then ids[j] else None
            case InsertFailed(text, constraint) =>
              && err == Some(if constraint then ConstraintError(text) else DatabaseError(text))
              && o == Outcome(err, [Insert(specs)], None, {})
              && forall j :: 0 <= j < |specs| ==> slots.specIDs[j] == old(slots.specIDs[j])
  {
    var batch := seq(slots.specs.Length, j requires 0 <= j < slots.specs.Length &&
                     slots.specs[j].Some? reads slots.specs => slots.specs[j].value);
    assert batch == specs;
    var r := s.insert(batch);
    err := InsertError(r);
    o := Outcome(err, [Insert(specs)], if r.Inserted? then Some(r.ids) else None, {});
    if r.Inserted? {
      for j := 0 to slots.specIDs.Length
        invariant forall k :: 0 <= k < j ==> slots.specIDs[k] == IDOf(r.ids, k)
      {
        slots.specIDs[j] := IDOf(r.ids, j);
      }
    }
  }

  /** A builder that a run marked holds a mutation that points at its node, which carries the id of its row. */
  ghost predicate PointsAtNodes<F>(builders: seq<Builder<F>>, slots: Slots<F>, done: set<nat>)
    requires slots.Sized(|builders|)
    reads slots.specs, slots.specIDs, slots.nodes, BuildersFrom(builders, 0), MutationsFrom(builders, 0),
          set j | 0 <= j < slots.nodes.Length && slots.nodes[j] != null :: slots.nodes[j]
  {
    forall j :: j in done ==>
      && j < |builders|
      && slots.nodes[j] != null && builders[j].mutation.id == slots.nodes[j]
      && slots.specs[j] == Some(slots.nodes[j].fields)
      && slots.nodes[j].ID == if slots.specIDs[j].Some? then slots.specIDs[j].value else 0
  }

  /** What a run inserted are the specs in the slots. */
  ghost predicate Batched<F>(slots: Slots<F>, trace: seq<Event<F>>)
    reads slots.specs
  {
    forall e :: e in trace && e.Insert? ==>
      |e.specs| == slots.specs.Length && forall j :: 0 <= j < |e.specs| ==> slots.specs[j] == Some(e.specs[j])
  }

  /** `marked` are the mutations that were marked before, among those of the builders from `i` on. */
  ghost predicate MarkedBefore<F>(builders: seq<Builder<F>>, i: nat, marked: set<Mutation<F>>)
    reads BuildersFrom(builders, i), MutationsFrom(builders, i)
  {
    forall j {:trigger builders[j]} :: i <= j < |builders| ==>
        builders[j].mutation.done == (builders[j].mutation in marked)
  }

  /**
   * After a run of the mutators from `i` on, the mutation that a builder holds is marked if the run marked
   * the builder or it was marked before; a mutation that was replaced is marked only if it was before.
   */
  ghost predicate MarkedAsDone<F>(builders: seq<Builder<F>>, i: nat, before: seq<Mutation<F>>, marked: set<Mutation<F>>,
                                  done: set<nat>)
    requires |builders| == |before|
    reads BuildersFrom(builders, i), MutationsFrom(builders, i), before
  {
    forall j {:trigger builders[j]} :: i <= j < |builders| ==>
      && builders[j].mutation.done == (j in done || builders[j].mutation in marked)
      && (builders[j].mutation != before[j] ==> before[j].done == (before[j] in marked))
  }

  /** The mutations that the builders hold. */
  ghost function Held<F>(builders: seq<Builder<F>>): (ms: seq<Mutation<F>>)
    reads BuildersFrom(builders, 0)
    ensures |ms| == |builders| && forall j :: 0 <= j < |ms| ==> ms[j] == builders[j].mutation
  {
    seq(|builders|, j requires 0 <= j < |builders| reads if 0 <= j < |builders| then {builders[j]} else {} =>
        builders[j].mutation)
  }

  /** Those of them that are marked. */
  ghost function Marked<F>(builders: seq<Builder<F>>): set<Mutation<F>>
    reads BuildersFrom(builders, 0), MutationsFrom(builders, 0)
  {
    set j | 0 <= j < |builders| && builders[j].mutation.done :: builders[j].mutation
  }

  /**
   * Mutator `i` from its hook `h` on, down to the core and the mutators after it, on the mutation `m`.
   * `specs` are the specs that the earlier cores recorded, `o` is the specified outcome.
   */
  method Mutate<F>(s: Setting<F>, builders: seq<Builder<F>>, slots: Slots<F>, i: nat, h: nat, m: Mutation<F>,
                   ghost g: Given<F>, ghost bs: seq<BuilderValue<F>>, ghost specs: seq<F>,
                   ghost before: seq<Mutation<F>>, ghost marked: set<Mutation<F>>)
    returns (err: Option<Error>, ghost o: Outcome<F>)
    requires i < |builders| && h <= |builders[i].hooks| && slots.Sized(|builders|)
    requires DistinctFrom(builders, i) && m !in MutationsFrom(builders, i + 1) && IsGiven(builders[i], m, g)
    requires |bs| == |builders| && bs[i].hooks == builders[i].hooks && Pending(builders, bs, i + 1)
    requires |specs| == i && forall j :: 0 <= j < i ==> slots.specs[j] == Some(specs[j])
    requires |before| == |builders| && forall j :: i <= j < |builders| ==> before[j] == builders[j].mutation
    requires MarkedBefore(builders, i, marked) && m.done == (m in marked)
    modifies slots.specs, slots.specIDs, slots.nodes, m, MutationsFrom(builders, i), BuildersFrom(builders, i)`mutation
    ensures o == Chain(s, bs, i, h, g, specs) && err == o.err
    ensures forall j :: 0 <= j < i ==> slots.specs[j] == old(slots.specs[j]) && slots.nodes[j] == old(slots.nodes[j])
    ensures forall j :: 0 <= j < |builders| ==>
              slots.specIDs[j] == if o.ids.Some? then IDOf(o.ids.value, j) else old(slots.specIDs[j])
    ensures forall j :: j in o.done ==> i <= j < |builders| && fresh(slots.nodes[j])
    ensures PointsAtNodes(builders, slots, o.done) && Batched(slots, o.trace)
    ensures MarkedAsDone(builders, i, before, marked, o.done)
    ensures forall j {:trigger builders[j]} :: i < j < |builders| ==>
              builders[j].mutation == before[j] || fresh(builders[j].mutation)
    ensures builders[i].mutation == before[i] || builders[i].mutation == m || fresh(builders[i].mutation)
    decreases |builders| - i, |builders[i].hooks| - h, 3
  {
    if h < |builders[i].hooks| {
      err, o := RunHook(s, builders, slots, i, h, m, g, bs, specs, before, marked);
    } else {
      err, o := RunCore(s, builders, slots, i, m, g, bs, specs, before, marked);
    }
  }

  method RunHook<F>(s: Setting<F>, builders: seq<Builder<F>>, slots: Slots<F>, i: nat, h: nat, m: Mutation<F>,
                    ghost g: Given<F>, ghost bs: seq<BuilderValue<F>>, ghost specs: seq<F>,
                   ghost before: seq<Mutation<F>>, ghost marked: set<Mutation<F>>)
    returns (err: Option<Error>, ghost o: Outcome<F>)
    requires i < |builders| && h < |builders[i].hooks| && slots.Sized(|builders|)
    requires DistinctFrom(builders, i) && m !in MutationsFrom(builders, i + 1) && IsGiven(builders[i], m, g)
    requires |bs| == |builders| && bs[i].hooks == builders[i].hooks && Pending(builders, bs, i + 1)
    requires |specs| == i && forall j :: 0 <= j < i ==> slots.specs[j] == Some(specs[j])
    requires |before| == |builders| && forall j :: i <= j < |builders| ==> before[j] == builders[j].mutation
    requires MarkedBefore(builders, i, marked) && m.done == (m in marked)
    modifies slots.specs, slots.specIDs, slots.nodes, m, MutationsFrom(builders, i), BuildersFrom(builders, i)`mutation
    ensures o == Chain(s, bs, i, h, g, specs) && err == o.err
    ensures forall j :: 0 <= j < i ==> slots.specs[j] == old(slots.specs[j]) && slots.nodes[j] == old(slots.nodes[j])
    ensures forall j :: 0 <= j < |builders| ==>
              slots.specIDs[j] == if o.ids.Some? then IDOf(o.ids.value, j) else old(slots.specIDs[j])
    ensures forall j :: j in o.done ==> i <= j < |builders| && fresh(slots.nodes[j])
    ensures PointsAtNodes(builders, slots, o.done) && Batched(slots, o.trace)
    ensures MarkedAsDone(builders, i, before, marked, o.done)
    ensures forall j {:trigger builders[j]} :: i < j < |builders| ==>
              builders[j].mutation == before[j] || fresh(builders[j].mutation)
    ensures builders[i].mutation == before[i] || builders[i].mutation == m || fresh(builders[i].mutation)
    decreases |builders| - i, |builders[i].hooks| - h, 0
  {
    ChainAtHook(s, bs, i, h, g, specs);
    var hook := builders[i].hooks[h];
    var handed, stopped := EnterHook(hook, builders[i], m, g);
    hide Chain, PointsAtNodes, Batched, Passed, IsGiven;
    if handed == null {
      err := stopped;
      o := Outcome(err, [Enter(i, h), Leave(i, h)], None, {});
      NothingMarked(builders, slots, o.trace);
      return;
    }
    var inner;
    ghost var next;
    inner, next := Mutate(s, builders, slots, i, h + 1, handed, Passed(hook, g).value, bs, specs, before, marked);
    err := hook.after(inner);
    o := Around(hook, i, h, next);
    BatchedBetween(slots, Enter(i, h), next.trace, [Leave(i, h)]);
  }

  /** The part of a hook before it calls next: edit the mutation it is given, and choose the one to hand on. */
  method EnterHook<F>(hook: Hook<F>, b: Builder<F>, m: Mutation<F>, ghost g: Given<F>)
    returns (handed: Mutation?<F>, stopped: Option<Error>)
    requires IsGiven(b, m, g)
    modifies m`fields
    ensures handed != null <==> Passed(hook, g).Some?
    ensures handed == null ==> stopped == hook.decide(hook.edit(g.fields)).err
    ensures handed != null ==>
              IsGiven(b, handed, Passed(hook, g).value) && (handed == m || (fresh(handed) && !handed.done))
  {
    m.fields := hook.edit(m.fields);
    match hook.decide(m.fields)
    case Stop(err) => handed, stopped := null, err;
    case Forward => handed, stopped := m, None;
    case HandOn(other) =>
      stopped := None;
      handed := new Mutation(other);
  }

  /** The core: check the builder's own mutation, take over the one it is given, and record its spec. */
  method RunCore<F>(s: Setting<F>, builders: seq<Builder<F>>, slots: Slots<F>, i: nat, m: Mutation<F>,
                    ghost g: Given<F>, ghost bs: seq<BuilderValue<F>>, ghost specs: seq<F>,
                   ghost before: seq<Mutation<F>>, ghost marked: set<Mutation<F>>)
    returns (err: Option<Error>, ghost o: Outcome<F>)
    requires i < |builders| && slots.Sized(|builders|)
    requires DistinctFrom(builders, i) && m !in MutationsFrom(builders, i + 1) && IsGiven(builders[i], m, g)
    requires |bs| == |builders| && bs[i].hooks == builders[i].hooks && Pending(builders, bs, i + 1)
    requires |specs| == i && forall j :: 0 <= j < i ==> slots.specs[j] == Some(specs[j])
    requires |before| == |builders| && forall j :: i <= j < |builders| ==> before[j] == builders[j].mutation
    requires MarkedBefore(builders, i, marked) && m.done == (m in marked)
    modifies slots.specs, slots.specIDs, slots.nodes, m, MutationsFrom(builders, i), BuildersFrom(builders, i)`mutation
    ensures o == Chain(s, bs, i, |bs[i].hooks|, g, specs) && err == o.err
    ensures forall j :: 0 <= j < i ==> slots.specs[j] == old(slots.specs[j]) && slots.nodes[j] == old(slots.nodes[j])
    ensures forall j :: 0 <= j < |builders| ==>
              slots.specIDs[j] == if o.ids.Some? then IDOf(o.ids.value, j) else old(slots.specIDs[j])
    ensures forall j :: j in o.done ==> i <= j < |builders| && fresh(slots.nodes[j])
    ensures PointsAtNodes(builders, slots, o.done) && Batched(slots, o.trace)
    ensures MarkedAsDone(builders, i, before, marked, o.done)
    ensures forall j {:trigger builders[j]} :: i < j < |builders| ==>
              builders[j].mutation == before[j] || fresh(builders[j].mutation)
    ensures builders[i].mutation == before[i] || builders[i].mutation == m || fresh(builders[i].mutation)
    decreases |builders| - i, 0, 2
  {
    ChainAtCore(s, bs, i, g, specs);
    hide Chain, Rest, PointsAtNodes, Batched;
    err := s.check(builders[i].mutation.fields);
    if err.Some? {
      o := Outcome(err, [Rejected(i)], None, {});
      NothingMarked(builders, slots, o.trace);
      return;
    }
    builders[i].mutation := m;
    err, o := RunAccepted(s, builders, slots, i, g, bs, specs, before, marked);
  }

  /** The core once the check has passed and the builder holds the mutation it was given. */
  method RunAccepted<F>(s: Setting<F>, builders: seq<Builder<F>>, slots: Slots<F>, i: nat,
                        ghost g: Given<F>, ghost bs: seq<BuilderValue<F>>, ghost specs: seq<F>,
                        ghost before: seq<Mutation<F>>, ghost marked: set<Mutation<F>>)
    returns (err: Option<Error>, ghost o: Outcome<F>)
    requires i < |builders| && slots.Sized(|builders|)
    requires DistinctFrom(builders, i) && builders[i].mutation.fields == g.fields
    requires |bs| == |builders| && Pending(builders, bs, i + 1)
    requires |specs| == i && forall j :: 0 <= j < i ==> slots.specs[j] == Some(specs[j])
    requires |before| == |builders| && forall j :: i < j < |builders| ==> before[j] == builders[j].mutation
    requires MarkedBefore(builders, i, marked)
    requires before[i] !in MutationsFrom(builders, i + 1) && before[i].done == (before[i] in marked)
    modifies slots.specs, slots.specIDs, slots.nodes, MutationsFrom(builders, i), BuildersFrom(builders, i + 1)`mutation
    ensures var next := Rest(s, bs, i, specs + [g.fields]);
            o == Outcome(next.err, [Recorded(i, g)] + next.trace + (if next.err.None? then [Done(i)] else []), next.ids,
                         next.done + (if next.err.None? then {i} else {})) && err == o.err
    ensures forall j :: 0 <= j < i ==> slots.specs[j] == old(slots.specs[j]) && slots.nodes[j] == old(slots.nodes[j])
    ensures forall j :: 0 <= j < |builders| ==>
              slots.specIDs[j] == if o.ids.Some? then IDOf(o.ids.value, j) else old(slots.specIDs[j])
    ensures forall j :: j in o.done ==> i <= j < |builders| && fresh(slots.nodes[j])
    ensures PointsAtNodes(builders, slots, o.done) && Batched(slots, o.trace)
    ensures MarkedAsDone(builders, i, before, marked, o.done)
    ensures forall j {:trigger builders[j]} :: i < j < |builders| ==>
              builders[j].mutation == before[j] || fresh(builders[j].mutation)
    ensures builders[i].mutation == old(builders[i].mutation)
    decreases |builders| - i, 0, 1
  {
    hide Chain, Rest, PointsAtNodes, Batched;
    var node := RecordSpec(builders[i].mutation, slots, i);
    ghost var next;
    err, next := RunNext(s, builders, slots, i, bs, specs + [g.fields], before, marked);
    if err.Some? {
      o := Outcome(err, [Recorded(i, g)] + next.trace + [], next.ids, next.done + {});
      BatchedBetween(slots, Recorded(i, g), next.trace, []);
      assert next.done + {} == next.done;
      return;
    }
    FinishMutation(builders, slots, i, node, next.done, before, marked);
    o := Outcome(None, [Recorded(i, g)] + next.trace + [Done(i)], next.ids, next.done + {i});
    BatchedBetween(slots, Recorded(i, g), next.trace, [Done(i)]);
  }

  lemma {:induction false} NothingMarked<F>(builders: seq<Builder<F>>, slots: Slots<F>, trace: seq<Event<F>>)
    requires slots.Sized(|builders|) && forall e :: e in trace ==> !e.Insert?
    ensures PointsAtNodes(builders, slots, {}) && Batched(slots, trace)
  {
  }

  lemma {:induction false} BatchedBetween<F>(slots: Slots<F>, pre: Event<F>, trace: seq<Event<F>>, post: seq<Event<F>>)
    requires Batched(slots, trace) && !pre.Insert? && forall e :: e in post ==> !e.Insert?
    ensures Batched(slots, [pre] + trace + post)
  {
  }

  method RecordSpec<F>(m: Mutation<F>, slots: Slots<F>, i: nat) returns (node: Node<F>)
    requires i < slots.specs.Length && slots.Sized(slots.specs.Length)
    modifies slots.specs, slots.nodes
    ensures fresh(node) && node.fields == m.fields && node.ID == 0
    ensures slots.specs[..] == old(slots.specs[..])[i := Some(m.fields)] &&
            slots.nodes[..] == old(slots.nodes[..])[i := node]
  {
    node := new Node(m.fields);
    slots.nodes[i], slots.specs[i] := node, Some(m.fields);
  }

  /** Point the mutation at its node, give the node its id, and mark the mutation; the later ones stay as they are. */
  method FinishMutation<F>(builders: seq<Builder<F>>, slots: Slots<F>, i: nat, node: Node<F>, ghost done: set<nat>,
                           ghost before: seq<Mutation<F>>, ghost marked: set<Mutation<F>>)
    requires i < |builders| && slots.Sized(|builders|)
    requires slots.nodes[i] == node && slots.specs[i] == Some(node.fields) && node.ID == 0
    requires PointsAtNodes(builders, slots, done)
    requires forall j :: j in done ==> i < j && slots.nodes[j] != node
    requires builders[i].mutation !in MutationsFrom(builders, i + 1)
    requires |before| == |builders| && MarkedAsDone(builders, i + 1, before, marked, done)
    requires builders[i].mutation != before[i] ==> before[i].done == (before[i] in marked)
    requires forall j :: i < j < |before| ==> before[j] != builders[i].mutation
    modifies builders[i].mutation, node
    ensures PointsAtNodes(builders, slots, done + {i}) && MarkedAsDone(builders, i, before, marked, done + {i})
  {
    var m := builders[i].mutation;
    m.id := node;
    if slots.specIDs[i].Some? {
      node.ID := slots.specIDs[i].value;
    }
    m.done := true;
  }

  /** The next mutator, or the batch insert when there is none. */
  method RunNext<F>(s: Setting<F>, builders: seq<Builder<F>>, slots: Slots<F>, i: nat,
                    ghost bs: seq<BuilderValue<F>>, ghost specs: seq<F>,
                    ghost before: seq<Mutation<F>>, ghost marked: set<Mutation<F>>)
    returns (err: Option<Error>, ghost o: Outcome<F>)
    requires i < |builders| && slots.Sized(|builders|) && DistinctFrom(builders, i + 1)
    requires |bs| == |builders| && Pending(builders, bs, i + 1)
    requires |specs| == i + 1 && forall j :: 0 <= j <= i ==> slots.specs[j] == Some(specs[j])
    requires |before| == |builders| && forall j :: i < j < |builders| ==> before[j] == builders[j].mutation
    requires MarkedBefore(builders, i + 1, marked)
    modifies slots.specs, slots.specIDs, slots.nodes, MutationsFrom(builders, i + 1),
             BuildersFrom(builders, i + 1)`mutation
    ensures o == Rest(s, bs, i, specs) && err == o.err
    ensures forall j :: 0 <= j <= i ==> slots.specs[j] == old(slots.specs[j]) && slots.nodes[j] == old(slots.nodes[j])
    ensures forall j :: 0 <= j < |builders| ==>
              slots.specIDs[j] == if o.ids.Some? then IDOf(o.ids.value, j) else old(slots.specIDs[j])
    ensures forall j :: j in o.done ==> i < j < |builders| && fresh(slots.nodes[j])
    ensures PointsAtNodes(builders, slots, o.done) && Batched(slots, o.trace)
    ensures MarkedAsDone(builders, i + 1, before, marked, o.done)
    ensures forall j {:trigger builders[j]} :: i < j < |builders| ==>
              builders[j].mutation == before[j] || fresh(builders[j].mutation)
    decreases |builders| - i, 0, 0
  {
    if i + 1 < |builders| {
      err, o := Mutate(s, builders, slots, i + 1, 0, builders[i + 1].mutation, Own(builders[i + 1].mutation.fields), bs,
                       specs, before, marked);
    } else {
      err, o := BatchCreate(s, slots, specs);
    }
  }

  lemma {:induction false} MarkedAtStart<F>(builders: seq<Builder<F>>)
    ensures MarkedBefore(builders, 0, Marked(builders)) &&
            MarkedAsDone(builders, 0, Held(builders), Marked(builders), {})
  {
  }

  /** The nodes that a run returns: those of the marked builders hold what was inserted and the ids of their rows. */
  ghost predicate Returned<F>(builders: seq<Builder<F>>, nodes: seq<Node?<F>>, o: Outcome<F>)
    reads BuildersFrom(builders, 0), MutationsFrom(builders, 0), set n: Node?<F> | n in nodes && n != null
  {
    |nodes| == |builders| && forall j :: j in o.done ==>
      && j < |builders| && nodes[j] != null && builders[j].mutation.id == nodes[j]
      && nodes[j].ID == (if o.ids.Some? && j < |o.ids.value| && o.ids.value[j].Some? then o.ids.value[j].value else 0)
      && forall e :: e in o.trace && e.Insert? ==> j < |e.specs| && nodes[j].fields == e.specs[j]
  }

  lemma {:induction false} NodesReturned<F>(builders: seq<Builder<F>>, slots: Slots<F>, o: Outcome<F>)
    requires slots.Sized(|builders|) && PointsAtNodes(builders, slots, o.done) && Batched(slots, o.trace)
    requires forall j :: 0 <= j < |builders| ==> slots.specIDs[j] == if o.ids.Some? then IDOf(o.ids.value, j) else None
    ensures Returned(builders, slots.nodes[..], o)
  {
  }

  /**
   * Save the builders: apply the defaults to every mutation, whose error is not looked at, then run
   * the first mutator. On an error no nodes are returned.
   */
  method Save<F>(s: Setting<F>, failed: Option<Error>, builders: seq<Builder<F>>)
    returns (nodes: seq<Node?<F>>, err: Option<Error>, ghost o: Outcome<F>)
    requires DistinctFrom(builders, 0)
    modifies MutationsFrom(builders, 0), BuildersFrom(builders, 0)`mutation
    ensures o == (if failed.Some? then Outcome(failed, [], None, {}) else SaveAll(s, old(Values(builders)))) &&
            err == o.err
    ensures MarkedAsDone(builders, 0, old(Held(builders)), old(Marked(builders)), o.done)
    ensures if err == None then Returned(builders, nodes, o) else nodes == []
    ensures builders == [] ==> err == failed && nodes == []
  {
    hide Chain, Rest, Returned, PointsAtNodes, Batched, Marked;
    MarkedAtStart(builders);
    if failed.Some? {
      return [], failed, Outcome(failed, [], None, {});
    }
    var slots := new Slots<F>(|builders|);
    ghost var before, marked, bs := Held(builders), Marked(builders), Prepared(s, Values(builders));
    ApplyDefaults(s, builders, bs, marked);
    if |builders| == 0 {
      nodes, err, o := [], None, Outcome(None, [], None, {});
      NodesReturned(builders, slots, o) by { NothingMarked(builders, slots, o.trace); }
      return;
    }
    err, o := Mutate(s, builders, slots, 0, 0, builders[0].mutation, Own(builders[0].mutation.fields), bs, [], before,
                     marked);
    NodesReturned(builders, slots, o);
    nodes := if err.Some? then [] else slots.nodes[..];
  }

  method ApplyDefaults<F>(s: Setting<F>, builders: seq<Builder<F>>, ghost bs: seq<BuilderValue<F>>,
                          ghost marked: set<Mutation<F>>)
    requires DistinctFrom(builders, 0) && bs == Prepared(s, Values(builders)) && MarkedBefore(builders, 0, marked)
    modifies MutationsFrom(builders, 0)
    ensures Pending(builders, bs, 0) && MarkedBefore(builders, 0, marked)
  {
    for i := 0 to |builders|
      modifies MutationsFrom(builders, 0)
      invariant MarkedBefore(builders, 0, marked)
      invariant forall j {:trigger builders[j]} :: 0 <= j < |builders| ==>
                  builders[j].mutation.fields == if j < i then bs[j].fields else old(builders[j].mutation.fields)
    {
      var m := builders[i].mutation;
      m.fields := s.defaults(m.fields);
    }
  }

  /** The builders as the caller passes them. */
  ghost function Values<F>(builders: seq<Builder<F>>): (bs: seq<BuilderValue<F>>)
    reads BuildersFrom(builders, 0), MutationsFrom(builders, 0)
    ensures |bs| == |builders|
    ensures forall j :: 0 <= j < |bs| ==> bs[j] == BuilderValue(builders[j].mutation.fields, builders[j].hooks)
  {
    seq(|builders|, j requires 0 <= j < |builders| reads if 0 <= j < |builders|
        then {builders[j], builders[j].mutation} else {} =>
      BuilderValue(builders[j].mutation.fields, builders[j].hooks))
  }
}
