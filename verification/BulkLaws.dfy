/**
 * What a bulk creation guarantees, for hooks that call their next mutator at most once: how the hooks nest,
 * when the batch is inserted and with which specs, when it succeeds or fails as one, and the order of
 * everything it does when the hooks pass on what they are given.
 */
module BulkLaws {
  import opened Tables
  import opened BulkCreate

  // ---------------------------------------------------------------- nesting

  /** The hooks that surround hook `h` of builder `i`, outermost first. */
  ghost function Path<F>(bs: seq<BuilderValue<F>>, i: nat, h: nat): seq<(nat, nat)>
    requires i < |bs|
  {
    (if i == 0 then [] else Path(bs, i - 1, |bs[i - 1].hooks|)) + seq(h, k requires 0 <= k < h => (i, k))
  }

  /** The stack of open hooks after one event, or None when the event does not belong there. */
  ghost function Step<F>(bs: seq<BuilderValue<F>>, stack: seq<(nat, nat)>, e: Event<F>): Option<seq<(nat, nat)>> {
    match e
    case Enter(i, h) =>
      if i < |bs| && h < |bs[i].hooks| && stack == Path(bs, i, h) then Some(stack + [(i, h)]) else None
    case Leave(i, h) =>
      if stack != [] && stack[|stack| - 1] == (i, h) then Some(stack[..|stack| - 1]) else None
    case Rejected(i) => if i < |bs| && stack == Path(bs, i, |bs[i].hooks|) then Some(stack) else None
    case Recorded(i, _) => if i < |bs| && stack == Path(bs, i, |bs[i].hooks|) then Some(stack) else None
    case Done(i) => if i < |bs| && stack == Path(bs, i, |bs[i].hooks|) then Some(stack) else None
    case Insert(specs) =>
      if 0 < |bs| == |specs| && stack == Path(bs, |bs| - 1, |bs[|bs| - 1].hooks|) then Some(stack) else None
  }

  ghost function Replay<F>(bs: seq<BuilderValue<F>>, stack: seq<(nat, nat)>, trace: seq<Event<F>>)
    : Option<seq<(nat, nat)>>
    decreases |trace|
  {
    if trace == [] then Some(stack)
    else
      var next := Step(bs, stack, trace[0]);
      if next.None? then None else Replay(bs, next.value, trace[1..])
  }

  lemma {:induction false} ReplayAppend<F>(bs: seq<BuilderValue<F>>, stack: seq<(nat, nat)>, t: seq<Event<F>>,
                                           u: seq<Event<F>>)
    requires Replay(bs, stack, t).Some?
    ensures Replay(bs, stack, t + u) == Replay(bs, Replay(bs, stack, t).value, u)
    decreases |t|
  {
    if t == [] {
      assert t + u == u;
    } else {
      assert (t + u)[0] == t[0] && (t + u)[1..] == t[1..] + u;
      ReplayAppend(bs, Step(bs, stack, t[0]).value, t[1..], u);
    }
  }

  lemma {:induction false} ReplayOne<F>(bs: seq<BuilderValue<F>>, stack: seq<(nat, nat)>, e: Event<F>)
    ensures Replay(bs, stack, [e]) == Step(bs, stack, e)
  {
    assert [e][0] == e && [e][1..] == [];
  }

  /** `pre`, a part that restores the stack, and `post`, which together restore it. */
  lemma {:induction false} ReplayAround<F>(bs: seq<BuilderValue<F>>, stack: seq<(nat, nat)>, pre: Event<F>,
                                           t: seq<Event<F>>, post: seq<Event<F>>)
    requires Step(bs, stack, pre).Some?
    requires var open := Step(bs, stack, pre).value;
             Replay(bs, open, t) == Some(open) && Replay(bs, open, post) == Some(stack)
    ensures Replay(bs, stack, [pre] + t + post) == Some(stack)
  {
    ReplayOne(bs, stack, pre);
    ReplayAppend(bs, stack, [pre], t);
    ReplayAppend(bs, stack, [pre] + t, post);
  }

  lemma {:induction false} PathSnoc<F>(bs: seq<BuilderValue<F>>, i: nat, h: nat)
    requires i < |bs|
    ensures Path(bs, i, h + 1) == Path(bs, i, h) + [(i, h)]
    ensures i + 1 < |bs| ==> Path(bs, i + 1, 0) == Path(bs, i, |bs[i].hooks|)
  {
    assert seq(h + 1, k requires 0 <= k < h + 1 => (i, k)) == seq(h, k requires 0 <= k < h => (i, k)) + [(i, h)];
  }

  /** Every run leaves the stack as it found it, and each event happens inside exactly the hooks before it. */
  lemma {:induction false} ChainNests<F>(s: Setting<F>, bs: seq<BuilderValue<F>>, i: nat, h: nat, g: Given<F>,
                                         specs: seq<F>)
    requires i < |bs| && h <= |bs[i].hooks| && |specs| == i
    ensures Replay(bs, Path(bs, i, h), Chain(s, bs, i, h, g, specs).trace) == Some(Path(bs, i, h))
    decreases |bs| - i, |bs[i].hooks| - h, 1
  {
    var stack := Path(bs, i, h);
    PathSnoc(bs, i, h);
    if h < |bs[i].hooks| {
      ChainAtHook(s, bs, i, h, g, specs);
      ReplayOne(bs, Path(bs, i, h + 1), Leave(i, h));
      var passed := Passed(bs[i].hooks[h], g);
      hide Chain, Passed;
      if passed.None? {
        ReplayAround(bs, stack, Enter(i, h), [], [Leave(i, h)]);
        assert Chain(s, bs, i, h, g, specs).trace == [Enter(i, h)] + [] + [Leave(i, h)];
      } else {
        ChainNests(s, bs, i, h + 1, passed.value, specs);
        ReplayAround(bs, stack, Enter(i, h), Chain(s, bs, i, h + 1, passed.value, specs).trace, [Leave(i, h)]);
      }
    } else {
      ChainAtCore(s, bs, i, g, specs);
      ReplayOne(bs, stack, Rejected(i));
      ReplayOne(bs, stack, Done(i));
      if s.check(OwnOf(g)).None? {
        RestNests(s, bs, i, specs + [g.fields]);
        var next := Rest(s, bs, i, specs + [g.fields]);
        ReplayAround(bs, stack, Recorded(i, g), next.trace, if next.err.None? then [Done(i)] else []);
      }
    }
  }

  lemma {:induction false} RestNests<F>(s: Setting<F>, bs: seq<BuilderValue<F>>, i: nat, specs: seq<F>)
    requires i < |bs| && |specs| == i + 1
    ensures Replay(bs, Path(bs, i, |bs[i].hooks|), Rest(s, bs, i, specs).trace) == Some(Path(bs, i, |bs[i].hooks|))
    decreases |bs| - i, 0, 0
  {
    PathSnoc(bs, i, 0);
    if i + 1 < |bs| {
      ChainNests(s, bs, i + 1, 0, Own(bs[i + 1].fields), specs);
    } else {
      ReplayOne(bs, Path(bs, i, |bs[i].hooks|), Insert(specs));
    }
  }

  /**
   * Hooks that call next at most once open and close like brackets around everything inside them, hook 0
   * of builder 0 outermost.
   */
  lemma {:induction false} SaveNests<F>(s: Setting<F>, bs: seq<BuilderValue<F>>)
    ensures Replay(Prepared(s, bs), [], SaveAll(s, bs).trace) == Some([])
  {
    if bs != [] {
      ChainNests(s, Prepared(s, bs), 0, 0, Own(Prepared(s, bs)[0].fields), []);
    }
  }

  // ---------------------------------------------------------------- when a batch is inserted, and what is in it

  predicate IsInsert<F>(e: Event<F>) { e.Insert? }

  predicate IsRejection<F>(e: Event<F>) { e.Rejected? }

  function Inserts<F>(trace: seq<Event<F>>): seq<Event<F>> {
    Filter(IsInsert, trace)
  }

  function Rejections<F>(trace: seq<Event<F>>): seq<Event<F>> {
    Filter(IsRejection, trace)
  }

  /** What reaches the core of a builder through its hooks from `h` on, unless one of them stops. */
  function Arriving<F>(hooks: seq<Hook<F>>, h: nat, g: Given<F>): Option<Given<F>>
    requires h <= |hooks|
    decreases |hooks| - h
  {
    if h == |hooks| then Some(g)
    else if Passed(hooks[h], g).None? then None
    else Arriving(hooks, h + 1, Passed(hooks[h], g).value)
  }

  function Arrived<F>(b: BuilderValue<F>): Option<Given<F>> {
    Arriving(b.hooks, 0, Own(b.fields))
  }

  /** The hooks of the builder all call next, and its own mutation then passes the check. */
  predicate Accepted<F>(s: Setting<F>, b: BuilderValue<F>) {
    Arrived(b).Some? && s.check(OwnOf(Arrived(b).value)).None?
  }

  /** The specs of a batch: of every builder, the mutation that reached its core. */
  function Batch<F>(s: Setting<F>, bs: seq<BuilderValue<F>>): (specs: seq<F>)
    requires forall k :: 0 <= k < |bs| ==> Accepted(s, bs[k])
    ensures |specs| == |bs|
  {
    seq(|bs|, k requires 0 <= k < |bs| && Accepted(s, bs[k]) => Arrived(bs[k]).value.fields)
  }

  /** A run inserts nothing, or the given specs in one insert, with the row ids of that insert and no rejection. */
  ghost predicate Writes<F>(s: Setting<F>, batch: Option<seq<F>>, o: Outcome<F>) {
    match batch
    case None => Inserts(o.trace) == [] && o.ids.None?
    case Some(specs) =>
      && Inserts(o.trace) == [Insert(specs)] && Rejections(o.trace) == []
      && o.ids == if s.insert(specs).Inserted? then Some(s.insert(specs).ids) else None
  }

  lemma {:induction false} WritesAround<F>(s: Setting<F>, batch: Option<seq<F>>, o: Outcome<F>, p: Outcome<F>,
                                           pre: Event<F>, post: seq<Event<F>>)
    requires Writes(s, batch, o) && p.ids == o.ids && p.trace == [pre] + o.trace + post
    requires !pre.Insert? && !pre.Rejected? && forall e :: e in post ==> !e.Insert? && !e.Rejected?
    ensures Writes(s, batch, p)
  {
    FilterAround(o.trace, IsInsert, pre, post);
    FilterAround(o.trace, IsRejection, pre, post);
  }

  lemma {:induction false} FilterAround<F>(t: seq<Event<F>>, p: Event<F> -> bool, pre: Event<F>, post: seq<Event<F>>)
    requires !p(pre) && forall e :: e in post ==> !p(e)
    ensures Filter(p, [pre] + t + post) == Filter(p, t)
  {
    FilterAppend(p, [pre] + t, post);
    FilterAppend(p, [pre], t);
    DropsAll(p, post);
    assert Filter(p, [pre]) == [];
  }

  /** The batch that a run from hook `h` of builder `i` on inserts, if it does, after the earlier specs. */
  function BatchFrom<F>(s: Setting<F>, bs: seq<BuilderValue<F>>, i: nat, h: nat, g: Given<F>, specs: seq<F>)
    : Option<seq<F>>
    requires i < |bs| && h <= |bs[i].hooks|
    decreases |bs| - i
  {
    var arrived := Arriving(bs[i].hooks, h, g);
    if arrived.None? || s.check(OwnOf(arrived.value)).Some? then None
    else if i + 1 == |bs| then Some(specs + [arrived.value.fields])
    else BatchFrom(s, bs, i + 1, 0, Own(bs[i + 1].fields), specs + [arrived.value.fields])
  }

  lemma {:induction false} ChainWrites<F>(s: Setting<F>, bs: seq<BuilderValue<F>>, i: nat, h: nat, g: Given<F>,
                                          specs: seq<F>)
    requires i < |bs| && h <= |bs[i].hooks|
    ensures Writes(s, BatchFrom(s, bs, i, h, g, specs), Chain(s, bs, i, h, g, specs))
    decreases |bs| - i, |bs[i].hooks| - h, 1
  {
    var o := Chain(s, bs, i, h, g, specs);
    if h < |bs[i].hooks| {
      ChainAtHook(s, bs, i, h, g, specs);
      var passed := Passed(bs[i].hooks[h], g);
      hide Chain, Passed, Inserts, Rejections;
      if passed.None? {
        NothingWritten(s, o);
      } else {
        ChainWrites(s, bs, i, h + 1, passed.value, specs);
        var next := Chain(s, bs, i, h + 1, passed.value, specs);
        WritesAround(s, BatchFrom(s, bs, i, h + 1, passed.value, specs), next, o, Enter(i, h), [Leave(i, h)]);
      }
    } else {
      CoreWrites(s, bs, i, g, specs);
    }
  }

  lemma {:induction false} NothingWritten<F>(s: Setting<F>, o: Outcome<F>)
    requires o.ids.None? && forall e :: e in o.trace ==> !e.Insert?
    ensures Writes(s, None, o)
  {
    DropsAll(IsInsert, o.trace);
  }

  lemma {:induction false} CoreWrites<F>(s: Setting<F>, bs: seq<BuilderValue<F>>, i: nat, g: Given<F>, specs: seq<F>)
    requires i < |bs|
    ensures Writes(s, BatchFrom(s, bs, i, |bs[i].hooks|, g, specs), Chain(s, bs, i, |bs[i].hooks|, g, specs))
    decreases |bs| - i, 0, 0
  {
    ChainAtCore(s, bs, i, g, specs);
    var o, taken := Chain(s, bs, i, |bs[i].hooks|, g, specs), specs + [g.fields];
    var next := Rest(s, bs, i, taken);
    var marks: seq<Event<F>> := if next.err.None? then [Done(i)] else [];
    if s.check(OwnOf(g)).Some? {
      NothingWritten(s, o);
    } else if i + 1 < |bs| {
      ChainWrites(s, bs, i + 1, 0, Own(bs[i + 1].fields), taken);
      WritesAround(s, BatchFrom(s, bs, i + 1, 0, Own(bs[i + 1].fields), taken), next, o, Recorded(i, g), marks);
    } else {
      FilterOne(IsInsert, Insert(taken));
      FilterOne(IsRejection, Insert(taken));
      WritesAround(s, Some(taken), next, o, Recorded(i, g), marks);
    }
  }

  /** A whole batch is inserted exactly if every builder is accepted. */
  lemma {:induction false} BatchOfAll<F>(s: Setting<F>, bs: seq<BuilderValue<F>>, i: nat, specs: seq<F>)
    requires i < |bs| && |specs| == i
    requires forall k :: 0 <= k < i ==> Accepted(s, bs[k]) && specs[k] == Arrived(bs[k]).value.fields
    ensures BatchFrom(s, bs, i, 0, Own(bs[i].fields), specs) ==
            if forall k :: 0 <= k < |bs| ==> Accepted(s, bs[k]) then Some(Batch(s, bs)) else None
    decreases |bs| - i
  {
    if Accepted(s, bs[i]) {
      var taken := specs + [Arrived(bs[i]).value.fields];
      hide Arrived;
      if i + 1 < |bs| {
        BatchOfAll(s, bs, i + 1, taken);
      } else {
        assert taken == Batch(s, bs);
      }
    }
  }

  /**
   * With hooks that call next at most once, a bulk inserts exactly if the hooks of every builder all call
   * next and the builder's own mutation then passes the check; it inserts once, one spec per builder, each
   * that of the mutation which reached the core, with the row ids of that insert and without a rejection.
   */
  lemma {:induction false} SaveWritesOnce<F>(s: Setting<F>, bs: seq<BuilderValue<F>>)
    ensures var ps := Prepared(s, bs);
            var batch :=
              if bs != [] && (forall k :: 0 <= k < |ps| ==> Accepted(s, ps[k])) then Some(Batch(s, ps)) else None;
            Writes(s, batch, SaveAll(s, bs))
  {
    var ps := Prepared(s, bs);
    if bs != [] {
      ChainWrites(s, ps, 0, 0, Own(ps[0].fields), []);
      BatchOfAll(s, ps, 0, []);
    }
  }

  ghost predicate Checked<F>(s: Setting<F>, specs: seq<F>) {
    forall k :: 0 <= k < |specs| ==> s.check(specs[k]).None?
  }

  /** Another mutation than the builder's own reaches its core, and it does not pass the check. */
  predicate SmugglesIn<F>(s: Setting<F>, b: BuilderValue<F>) {
    Arrived(b).Some? && Arrived(b).value.Other? && s.check(Arrived(b).value.fields).Some?
  }

  /**
   * What a bulk inserts passes its check, all of it, exactly if every mutation does that reached a core in
   * place of the builder's own.
   */
  lemma {:induction false} InsertedPassIff<F>(s: Setting<F>, bs: seq<BuilderValue<F>>)
    requires Inserts(SaveAll(s, bs).trace) != []
    ensures var ps, insert := Prepared(s, bs), Inserts(SaveAll(s, bs).trace)[0];
            insert.Insert? && (Checked(s, insert.specs) <==> forall k :: 0 <= k < |ps| ==> !SmugglesIn(s, ps[k]))
  {
    SaveWritesOnce(s, bs);
    hide SaveAll, Inserts, Arrived;
    var ps := Prepared(s, bs);
    var specs := Batch(s, ps);
    forall k | 0 <= k < |ps|
      ensures s.check(specs[k]).Some? <==> SmugglesIn(s, ps[k])
    {
      assert Accepted(s, ps[k]) && specs[k] == Arrived(ps[k]).value.fields;
    }
  }

  /** A hook that only ever hands on the mutation it was given. */
  ghost predicate KeepsTheMutation<F(!new)>(hook: Hook<F>) {
    forall f: F :: !hook.decide(f).HandOn?
  }

  lemma {:induction false} ArrivesAsOwn<F(!new)>(hooks: seq<Hook<F>>, h: nat, g: Given<F>)
    requires h <= |hooks| && g.Own? && forall k :: 0 <= k < |hooks| ==> KeepsTheMutation(hooks[k])
    ensures Arriving(hooks, h, g).Some? ==> Arriving(hooks, h, g).value.Own?
    decreases |hooks| - h
  {
    if h < |hooks| {
      assert KeepsTheMutation(hooks[h]);
      if Passed(hooks[h], g).Some? {
        ArrivesAsOwn(hooks, h + 1, Passed(hooks[h], g).value);
      }
    }
  }

  /** If no hook hands on another mutation, every spec that is inserted has passed its check. */
  lemma {:induction false} KeptMutationsPass<F(!new)>(s: Setting<F>, bs: seq<BuilderValue<F>>)
    requires Inserts(SaveAll(s, bs).trace) != []
    requires forall j, k :: 0 <= j < |bs| && 0 <= k < |bs[j].hooks| ==> KeepsTheMutation(bs[j].hooks[k])
    ensures var insert := Inserts(SaveAll(s, bs).trace)[0]; insert.Insert? && Checked(s, insert.specs)
  {
    InsertedPassIff(s, bs);
    var ps := Prepared(s, bs);
    forall j | 0 <= j < |ps|
      ensures !SmugglesIn(s, ps[j])
    {
      assert ps[j].hooks == bs[j].hooks;
      ArrivesAsOwn(ps[j].hooks, 0, Own(ps[j].fields));
    }
  }

  /** Every hook that ever hands on another mutation than the one it has edited gets some spec inserted unchecked. */
  lemma {:induction false} HandingOnEscapesSomeCheck<F>(hook: Hook<F>, f: F) returns (s: Setting<F>, b: BuilderValue<F>)
    requires hook.decide(hook.edit(f)).HandOn? && hook.decide(hook.edit(f)).other != hook.edit(f)
    ensures var other := hook.decide(hook.edit(f)).other;
            b == BuilderValue(f, [hook]) && s.check(other).Some? &&
            Inserts(SaveAll(s, [b]).trace) == [Insert([other])]
  {
    b := BuilderValue(f, [hook]);
    var own := hook.edit(f);
    s := Setting(m => m, m => if m == own then None else Some(ValidationError("name")), _ => Inserted([]));
    assert Prepared(s, [b]) == [b];
    var arrived: Given<F> := Other(hook.decide(own).other, own);
    assert Passed(hook, Own(f)) == Some(arrived);
    assert Arriving([hook], 1, arrived) == Some(arrived);
    assert Arriving([hook], 0, Own(f)) == Arriving([hook], 1, arrived);
    assert Accepted(s, b);
    SaveWritesOnce(s, [b]);
    assert Batch(s, [b]) == [arrived.fields];
  }

  // ---------------------------------------------------------------- all or nothing

  /**
   * A hook that never hides what happened: it does not skip the creation silently, does not report an
   * error after a success, and does not turn an error into a success.
   */
  ghost predicate Honest<F(!new)>(hook: Hook<F>) {
    forall f: F :: HonestOn(hook, f)
  }

  ghost predicate HonestOn<F>(hook: Hook<F>, f: F) {
    var decision := hook.decide(hook.edit(f));
    if decision.Stop? then decision.err.Some? else hook.after(None).None? && forall e :: hook.after(Some(e)).Some?
  }

  /** Success means that all rows exist and all mutations are marked; failure means none are. */
  ghost predicate AllOrNothing<F>(n: nat, o: Outcome<F>) {
    && (o.err.None? <==> o.ids.Some?)
    && forall j: nat :: j in o.done <==> o.err.None? && j < n
  }

  lemma {:induction false} ChainAllOrNothing<F(!new)>(s: Setting<F>, bs: seq<BuilderValue<F>>, i: nat, h: nat,
                                                      g: Given<F>, specs: seq<F>)
    requires i < |bs| && h <= |bs[i].hooks|
    requires forall j, k :: 0 <= j < |bs| && 0 <= k < |bs[j].hooks| ==> Honest(bs[j].hooks[k])
    ensures var o := Chain(s, bs, i, h, g, specs);
            (o.err.None? <==> o.ids.Some?) && forall j: nat :: j in o.done <==> o.err.None? && i <= j < |bs|
    decreases |bs| - i, |bs[i].hooks| - h
  {
    if h < |bs[i].hooks| {
      var hook := bs[i].hooks[h];
      assert Honest(hook) && HonestOn(hook, g.fields);
      ChainAtHook(s, bs, i, h, g, specs);
      if Passed(hook, g).Some? {
        ChainAllOrNothing(s, bs, i, h + 1, Passed(hook, g).value, specs);
      }
    } else if s.check(OwnOf(g)).None? {
      if i + 1 < |bs| {
        ChainAllOrNothing(s, bs, i + 1, 0, Own(bs[i + 1].fields), specs + [g.fields]);
      }
    }
  }

  /** With honest hooks a bulk creation is all or nothing, however many builders and hooks there are. */
  lemma {:induction false} HonestIsAllOrNothing<F(!new)>(s: Setting<F>, bs: seq<BuilderValue<F>>)
    requires bs != []
    requires forall j, k :: 0 <= j < |bs| && 0 <= k < |bs[j].hooks| ==> Honest(bs[j].hooks[k])
    ensures AllOrNothing(|bs|, SaveAll(s, bs))
  {
    var ps := Prepared(s, bs);
    forall j, k | 0 <= j < |ps| && 0 <= k < |ps[j].hooks|
      ensures Honest(ps[j].hooks[k])
    {
      assert ps[j].hooks == bs[j].hooks;
    }
    ChainAllOrNothing(s, ps, 0, 0, Own(ps[0].fields), []);
  }

  /** Every hook that is not honest breaks some bulk of one builder: it marks, writes or reports inconsistently. */
  lemma {:induction false} DishonestBreaksSomeBulk<F(!new)>(hook: Hook<F>) returns (s: Setting<F>, b: BuilderValue<F>)
    requires !Honest(hook)
    ensures b.hooks == [hook] && !AllOrNothing(1, SaveAll(s, [b]))
  {
    var f: F :| !HonestOn(hook, f);
    b := BuilderValue(f, [hook]);
    var failure: Option<Error> := None;
    if !hook.decide(hook.edit(f)).Stop? && hook.after(None).None? {
      var e :| hook.after(Some(e)).None?;
      failure := Some(e);
    }
    s := Setting(m => m, _ => failure, _ => Inserted([]));
    assert Prepared(s, [b]) == [b];
    ChainAtHook(s, [b], 0, 0, Own(f), []);
    if Passed(hook, Own(f)).Some? {
      ChainAtCore(s, [b], 0, Passed(hook, Own(f)).value, []);
    }
  }

  // ---------------------------------------------------------------- hooks that pass everything on

  /** A hook that calls the next mutator once and returns what it got; it may edit the mutation before. */
  ghost predicate PassesOn<F(!new)>(hook: Hook<F>) {
    && (forall f: F :: hook.decide(f).Forward?)
    && forall e :: hook.after(e) == e
  }

  ghost predicate AllPassOn<F(!new)>(bs: seq<BuilderValue<F>>) {
    forall j, k :: 0 <= j < |bs| && 0 <= k < |bs[j].hooks| ==> PassesOn(bs[j].hooks[k])
  }

  /** The mutation after the edits of the hooks from `h` on. */
  function Edited<F>(hooks: seq<Hook<F>>, h: nat, f: F): F
    requires h <= |hooks|
    decreases |hooks| - h
  {
    if h == |hooks| then f else Edited(hooks, h + 1, hooks[h].edit(f))
  }

  function Spec<F>(b: BuilderValue<F>): F {
    Edited(b.hooks, 0, b.fields)
  }

  function Specs<F>(bs: seq<BuilderValue<F>>): (r: seq<F>)
    ensures |r| == |bs|
  {
    seq(|bs|, j requires 0 <= j < |bs| => Spec(bs[j]))
  }

  function Enters<F>(i: nat, h: nat, n: nat): seq<Event<F>>
    requires h <= n
  {
    seq(n - h, k requires 0 <= k < n - h => Enter(i, h + k))
  }

  function Leaves<F>(i: nat, h: nat, n: nat): seq<Event<F>>
    requires h <= n
  {
    seq(n - h, k requires 0 <= k < n - h => Leave(i, n - 1 - k))
  }

  /** Builders `i` to `j` on the way in: all hooks of each, then its spec. */
  function WayIn<F>(bs: seq<BuilderValue<F>>, i: nat, j: nat): seq<Event<F>>
    requires i <= j <= |bs|
    decreases j - i
  {
    if i == j then [] else Enters(i, 0, |bs[i].hooks|) + [Recorded(i, Own(Spec(bs[i])))] + WayIn(bs, i + 1, j)
  }

  /** The same builders on the way out, last first: on success the mark, then the hooks innermost first. */
  function WayOut<F>(bs: seq<BuilderValue<F>>, i: nat, j: nat, ok: bool): seq<Event<F>>
    requires i <= j <= |bs|
    decreases j - i
  {
    if i == j then [] else WayOut(bs, i + 1, j, ok) + (if ok then [Done(i)] else []) + Leaves(i, 0, |bs[i].hooks|)
  }

  /** The first builder from `i` on whose spec does not pass its check. */
  function FirstRejected<F>(s: Setting<F>, bs: seq<BuilderValue<F>>, i: nat): (j: nat)
    requires i <= |bs|
    ensures i <= j <= |bs|
    ensures forall k :: i <= k < j ==> s.check(Spec(bs[k])).None?
    ensures j < |bs| ==> s.check(Spec(bs[j])).Some?
    decreases |bs| - i
  {
    if i == |bs| || s.check(Spec(bs[i])).Some? then i else FirstRejected(s, bs, i + 1)
  }

  /** The turning point of a run from builder `i` on: the rejection, or the insert of all specs. */
  function Turn<F>(s: Setting<F>, bs: seq<BuilderValue<F>>, j: nat): seq<Event<F>>
    requires j <= |bs|
  {
    if j < |bs| then Enters(j, 0, |bs[j].hooks|) + [Rejected(j)] + Leaves(j, 0, |bs[j].hooks|) else [Insert(Specs(bs))]
  }

  function Failure<F>(s: Setting<F>, bs: seq<BuilderValue<F>>, j: nat): Option<Error>
    requires j <= |bs|
  {
    if j < |bs| then s.check(Spec(bs[j])) else InsertError(s.insert(Specs(bs)))
  }

  lemma {:induction false} HooksPassOn<F(!new)>(s: Setting<F>, bs: seq<BuilderValue<F>>, i: nat, h: nat, f: F,
                                                specs: seq<F>)
    requires AllPassOn(bs) && i < |bs| && h <= |bs[i].hooks|
    ensures var core := Chain(s, bs, i, |bs[i].hooks|, Own(Edited(bs[i].hooks, h, f)), specs);
            var o := Chain(s, bs, i, h, Own(f), specs);
            && o.err == core.err && o.ids == core.ids && o.done == core.done
            && o.trace == Enters(i, h, |bs[i].hooks|) + core.trace + Leaves(i, h, |bs[i].hooks|)
    decreases |bs[i].hooks| - h
  {
    var n := |bs[i].hooks|;
    var core := Chain(s, bs, i, n, Own(Edited(bs[i].hooks, h, f)), specs);
    if h < n {
      var hook := bs[i].hooks[h];
      assert PassesOn(hook);
      ChainAtHook(s, bs, i, h, Own(f), specs);
      assert Passed(hook, Own(f)) == Some(Own(hook.edit(f)));
      HooksPassOn(s, bs, i, h + 1, hook.edit(f), specs);
      assert Enters<F>(i, h, n) == [Enter(i, h)] + Enters(i, h + 1, n);
      assert Leaves<F>(i, h, n) == Leaves(i, h + 1, n) + [Leave(i, h)];
      assert Chain(s, bs, i, h, Own(f), specs).trace ==
        [Enter(i, h)] + (Enters(i, h + 1, n) + core.trace + Leaves(i, h + 1, n)) + [Leave(i, h)];
    } else {
      assert Enters<F>(i, h, n) == [] && Leaves<F>(i, h, n) == [];
      assert [] + core.trace + [] == core.trace;
    }
  }

  lemma {:induction false} Regroup<T>(e: seq<T>, r: seq<T>, a: seq<T>, t: seq<T>, b: seq<T>, m: seq<T>, l: seq<T>)
    ensures e + (r + (a + t + b) + m) + l == (e + r + a) + t + (b + m + l)
  {
  }

  lemma {:induction false} ChainTrace<F(!new)>(s: Setting<F>, bs: seq<BuilderValue<F>>, i: nat)
    requires AllPassOn(bs) && i < |bs|
    ensures var j := FirstRejected(s, bs, i);
            var o := Chain(s, bs, i, 0, Own(bs[i].fields), Specs(bs)[..i]);
            && o.err == Failure(s, bs, j)
            && o.trace == WayIn(bs, i, j) + Turn(s, bs, j) + WayOut(bs, i, j, o.err.None?)
    decreases |bs| - i, 1
  {
    var specs, f, n := Specs(bs), Spec(bs[i]), |bs[i].hooks|;
    HooksPassOn(s, bs, i, 0, bs[i].fields, specs[..i]);
    ChainAtCore(s, bs, i, Own(f), specs[..i]);
    assert specs[..i] + [f] == specs[..i + 1];
    if s.check(f).None? {
      RestTrace(s, bs, i);
      hide Chain, Rest, Turn, Failure;
      var j := FirstRejected(s, bs, i);
      var next := Rest(s, bs, i, specs[..i + 1]);
      var ok := next.err.None?;
      var mark: seq<Event<F>> := if ok then [Done(i)] else [];
      Regroup(Enters(i, 0, n), [Recorded(i, Own(Spec(bs[i])))], WayIn(bs, i + 1, j), Turn(s, bs, j),
              WayOut(bs, i + 1, j, ok), mark, Leaves(i, 0, n));
    } else {
      hide Chain, Rest;
      assert [] + Turn(s, bs, i) + [] == Turn(s, bs, i);
    }
  }

  lemma {:induction false} RestTrace<F(!new)>(s: Setting<F>, bs: seq<BuilderValue<F>>, i: nat)
    requires AllPassOn(bs) && i < |bs|
    ensures var j := FirstRejected(s, bs, i + 1);
            var o := Rest(s, bs, i, Specs(bs)[..i + 1]);
            && o.err == Failure(s, bs, j)
            && o.trace == WayIn(bs, i + 1, j) + Turn(s, bs, j) + WayOut(bs, i + 1, j, o.err.None?)
    decreases |bs| - i, 0
  {
    if i + 1 < |bs| {
      ChainTrace(s, bs, i + 1);
    } else {
      assert Specs(bs)[..i + 1] == Specs(bs);
      assert [] + Turn(s, bs, |bs|) + [] == Turn(s, bs, |bs|);
    }
  }

  /**
   * With hooks that pass everything on, the exact run: every builder on the way in, in order; at the
   * first failing check a rejection, otherwise one insert with the specs in order; then every builder
   * on the way out, last first, marked done exactly if the insert succeeded.
   */
  lemma {:induction false} SaveTrace<F(!new)>(s: Setting<F>, bs: seq<BuilderValue<F>>)
    requires AllPassOn(bs) && bs != []
    ensures var ps := Prepared(s, bs);
            var j := FirstRejected(s, ps, 0);
            var o := SaveAll(s, bs);
            && o.err == Failure(s, ps, j)
            && o.trace == WayIn(ps, 0, j) + Turn(s, ps, j) + WayOut(ps, 0, j, o.err.None?)
  {
    var ps := Prepared(s, bs);
    forall j, k | 0 <= j < |ps| && 0 <= k < |ps[j].hooks|
      ensures PassesOn(ps[j].hooks[k])
    {
      assert ps[j].hooks == bs[j].hooks;
    }
    ChainTrace(s, ps, 0);
    assert Specs(ps)[..0] == [];
  }

  lemma {:induction false} EditedByOne<F>(hooks: seq<Hook<F>>, h: nat, last: Hook<F>, f: F)
    requires h <= |hooks|
    ensures Edited(hooks + [last], h, f) == last.edit(Edited(hooks, h, f))
    decreases |hooks| - h
  {
    var all := hooks + [last];
    if h == |hooks| {
      assert all[h] == last;
      assert Edited(all, h + 1, last.edit(f)) == last.edit(f);
    } else {
      assert all[h] == hooks[h];
      EditedByOne(hooks, h + 1, last, hooks[h].edit(f));
    }
  }

  /** A builder's spec is its mutation with the defaults, edited by its hooks one after the other, hook 0 first. */
  lemma {:induction false} HooksEditInOrder<F>(s: Setting<F>, fields: F, hooks: seq<Hook<F>>, last: Hook<F>)
    ensures Spec(Prepared(s, [BuilderValue(fields, [])])[0]) == s.defaults(fields)
    ensures Spec(Prepared(s, [BuilderValue(fields, hooks + [last])])[0]) ==
            last.edit(Spec(Prepared(s, [BuilderValue(fields, hooks)])[0]))
  {
    EditedByOne(hooks, 0, last, s.defaults(fields));
  }

  /**
   * With hooks that pass everything on, which error a bulk returns and why: the first failing check's own; of
   * a failed insert, a constraint error if the database calls it a violation, and the database's otherwise.
   */
  lemma {:induction false} SaveErrors<F(!new)>(s: Setting<F>, bs: seq<BuilderValue<F>>)
    requires AllPassOn(bs) && bs != []
    ensures var ps, err := Prepared(s, bs), SaveAll(s, bs).err;
            var j, inserted := FirstRejected(s, ps, 0), s.insert(Specs(ps));
            && (err.None? <==> j == |ps| && inserted.Inserted?)
            && (j < |ps| ==> err == s.check(Spec(ps[j])))
            && forall text ::
                 && (err == Some(ConstraintError(text)) <==>
                       if j < |ps| then s.check(Spec(ps[j])) == Some(ConstraintError(text))
                       else inserted == InsertFailed(text, true))
                 && (err == Some(DatabaseError(text)) <==>
                       if j < |ps| then s.check(Spec(ps[j])) == Some(DatabaseError(text))
                       else inserted == InsertFailed(text, false))
  {
    SaveTrace(s, bs);
    hide SaveAll, Spec, Specs;
  }

  predicate IsMark<F>(e: Event<F>) { e.Done? }

  /** The marks of a run, in the order in which they were made. */
  function Marks<F>(trace: seq<Event<F>>): seq<Event<F>> {
    Filter(IsMark, trace)
  }

  lemma {:induction false} MarksOnTheWayIn<F>(bs: seq<BuilderValue<F>>, i: nat, j: nat)
    requires i <= j <= |bs|
    ensures Marks(WayIn(bs, i, j)) == []
    decreases j - i
  {
    if i < j {
      MarksOnTheWayIn(bs, i + 1, j);
      var here := Enters<F>(i, 0, |bs[i].hooks|) + [Recorded(i, Own(Spec(bs[i])))];
      DropsAll(IsMark, here);
      FilterAppend(IsMark, here, WayIn(bs, i + 1, j));
    }
  }

  lemma {:induction false} MarksOnTheWayOut<F>(bs: seq<BuilderValue<F>>, i: nat, j: nat, ok: bool)
    requires i <= j <= |bs|
    ensures Marks(WayOut(bs, i, j, ok)) == if ok then seq(j - i, k requires 0 <= k < j - i => Done(j - 1 - k)) else []
    decreases j - i
  {
    if i < j {
      MarksOnTheWayOut(bs, i + 1, j, ok);
      var mark: seq<Event<F>> := if ok then [Done(i)] else [];
      DropsAll(IsMark, Leaves<F>(i, 0, |bs[i].hooks|));
      FilterAppend(IsMark, WayOut(bs, i + 1, j, ok) + mark, Leaves(i, 0, |bs[i].hooks|));
      FilterAppend(IsMark, WayOut(bs, i + 1, j, ok), mark);
      assert Marks(mark) == mark;
    }
  }

  /** The mutations are marked from the last to the first, all of them, or none. */
  lemma {:induction false} MarkedLastToFirst<F(!new)>(s: Setting<F>, bs: seq<BuilderValue<F>>)
    requires AllPassOn(bs) && bs != []
    ensures var o := SaveAll(s, bs);
            Marks(o.trace) == if o.err.None? then seq(|bs|, k requires 0 <= k < |bs| => Done(|bs| - 1 - k)) else []
  {
    SaveTrace(s, bs);
    hide Chain, Rest, SaveAll, Failure, Filter;
    var ps := Prepared(s, bs);
    var j := FirstRejected(s, ps, 0);
    var ok := SaveAll(s, bs).err.None?;
    MarksOnTheWayIn(ps, 0, j);
    MarksOnTheWayOut(ps, 0, j, ok);
    DropsAll(IsMark, Turn(s, ps, j));
    FilterAppend(IsMark, WayIn(ps, 0, j), Turn(s, ps, j));
    FilterAppend(IsMark, WayIn(ps, 0, j) + Turn(s, ps, j), WayOut(ps, 0, j, ok));
    SucceedsOnlyAtTheEnd(s, ps);
  }

  lemma {:induction false} SucceedsOnlyAtTheEnd<F>(s: Setting<F>, bs: seq<BuilderValue<F>>)
    ensures var j := FirstRejected(s, bs, 0); Failure(s, bs, j).None? ==> j == |bs|
  {
  }
}
