/**
 * What a chain of builder calls amounts to, call by call of each kind, and what running it returns.
 */
module QueryScripts {
  import opened Tables
  import opened Queries
  import opened BatchedLoading
  import opened Stitching
  import opened AccountQueries

  /** What the calls of one kind carry, in their order. */
  function Gather<T>(part: Step -> seq<T>, steps: seq<Step>): seq<T> {
    if steps == [] then [] else part(steps[0]) + Gather(part, steps[1..])
  }

  lemma {:induction false} GatherSnoc<T>(part: Step -> seq<T>, steps: seq<Step>, step: Step)
    ensures Gather(part, steps + [step]) == Gather(part, steps) + part(step)
  {
    if steps == [] {
      assert [step][1..] == [];
    } else {
      assert (steps + [step])[1..] == steps[1..] + [step];
      GatherSnoc(part, steps[1..], step);
    }
  }

  function PredicatesOf(s: Step): seq<AccountRow -> bool> { if s.Where? then [s.p] else [] }

  function OrderOf(s: Step): seq<AccountRow -> int> { if s.Order? then [s.key] else [] }

  function FieldsOf(s: Step): seq<Column> { if s.Select? then s.fields else [] }

  function LocksOf(s: Step): seq<Lock> { if s.LockRows? then [s.lock] else [] }

  /** Call `i` is the last one that sets the part. */
  ghost predicate IsLast<T>(part: Step -> Option<T>, steps: seq<Step>, i: int) {
    0 <= i < |steps| && part(steps[i]).Some? && forall j :: i < j < |steps| ==> part(steps[j]).None?
  }

  /** No call sets the part. */
  ghost predicate Unset<T>(part: Step -> Option<T>, steps: seq<Step>) {
    forall i :: 0 <= i < |steps| ==> part(steps[i]).None?
  }

  /** A part with a single value ends as the last call that sets it says, and as it was before if no call does. */
  ghost predicate EndsAs<T>(part: Step -> Option<T>, steps: seq<Step>, before: T, after: T) {
    || (Unset(part, steps) && after == before)
    || (exists i :: IsLast(part, steps, i) && part(steps[i]) == Some(after))
  }

  lemma {:induction false} LastSnoc<T>(part: Step -> Option<T>, steps: seq<Step>, step: Step, i: int)
    ensures IsLast(part, steps + [step], i) <==> if part(step).Some? then i == |steps| else IsLast(part, steps, i)
    ensures Unset(part, steps + [step]) <==> Unset(part, steps) && part(step).None?
  {
    var all := steps + [step];
    assert all[|steps|] == step && forall j :: 0 <= j < |steps| ==> all[j] == steps[j];
  }

  lemma {:induction false} EndsAsSnoc<T>(part: Step -> Option<T>, steps: seq<Step>, step: Step, before: T, after: T)
    requires EndsAs(part, steps, before, after)
    ensures EndsAs(part, steps + [step], before, if part(step).Some? then part(step).value else after)
  {
    var all := steps + [step];
    LastSnoc(part, steps, step, |steps|);
    assert all[|steps|] == step;
    if part(step).None? && !Unset(part, steps) {
      var i :| IsLast(part, steps, i) && part(steps[i]) == Some(after);
      LastSnoc(part, steps, step, i);
      assert all[i] == steps[i];
    }
  }

  function LimitOf(s: Step): Option<nat> { if s.Limit? then Some(s.limit) else None }

  function OffsetOf(s: Step): Option<nat> { if s.Offset? then Some(s.offset) else None }

  /** A lock turns uniqueness off on Postgres. */
  function UniqueOf(s: Step): Option<Option<bool>> {
    if s.Unique? then Some(Some(s.unique)) else if s.LockRows? && s.postgres then Some(Some(false)) else None
  }

  function GroupsOn(s: Step): Option<Option<GroupQueryModel>> {
    if s.WithGroups? then Some(Some(GroupQueryModel(s.groups, []))) else None
  }

  function ProxyOn(s: Step): Option<Option<Selection<Proxy>>> { if s.WithProxy? then Some(Some(s.proxy)) else None }

  function UsageLogsOn(s: Step): Option<Option<Selection<UsageLog>>> {
    if s.WithUsageLogs? then Some(Some(s.usageLogs)) else None
  }

  function AccountGroupsOn(s: Step): Option<Option<Selection<AccountGroup>>> {
    if s.WithAccountGroups? then Some(Some(s.accountGroups)) else None
  }

  /** The options of the nested account query on one of the two edges between accounts. */
  function ParentOn(s: Step): Option<seq<Step>> { if s.WithParent? then Some(s.opts) else None }

  function ChildrenOn(s: Step): Option<seq<Step>> { if s.WithChildren? then Some(s.opts) else None }

  function NestedOn(parent: bool): Step -> Option<seq<Step>> { if parent then ParentOn else ChildrenOn }

  /** The parts that calls add to: what was there, and then what the calls say, in order. */
  ghost predicate AddsUp(q: Query, steps: seq<Step>, r: Query) {
    && r.selection.predicates == q.selection.predicates + Gather(PredicatesOf, steps)
    && r.selection.order == q.selection.order + Gather(OrderOf, steps)
    && r.fields == q.fields + Gather(FieldsOf, steps)
    && r.locks == q.locks + Gather(LocksOf, steps)
  }

  /** The parts with a single value: the last call wins. */
  ghost predicate LastWins(q: Query, steps: seq<Step>, r: Query) {
    && EndsAs(LimitOf, steps, q.selection.limit, r.selection.limit)
    && EndsAs(OffsetOf, steps, q.selection.offset, r.selection.offset)
    && EndsAs(UniqueOf, steps, q.unique, r.unique)
    && EndsAs(GroupsOn, steps, q.groups, r.groups)
    && EndsAs(ProxyOn, steps, q.proxy, r.proxy)
    && EndsAs(UsageLogsOn, steps, q.usageLogs, r.usageLogs)
    && EndsAs(AccountGroupsOn, steps, q.accountGroups, r.accountGroups)
  }

  /** The same for a nested account query, which a script of its own describes. */
  ghost predicate NestedEndsAs(parent: bool, steps: seq<Step>, before: Option<Query>, after: Option<Query>)
    decreases steps, 0
  {
    || (Unset(NestedOn(parent), steps) && after == before)
    || (exists i :: IsLast(NestedOn(parent), steps, i) && after.Some? &&
          Describes(steps[i].opts, EmptyQuery(), after.value))
  }

  /** What a script says about the query `r` that comes of calling it on `q`, at every depth. */
  ghost predicate Describes(steps: seq<Step>, q: Query, r: Query)
    decreases steps, 1
  {
    && AddsUp(q, steps, r)
    && LastWins(q, steps, r)
    && NestedEndsAs(true, steps, q.parent, r.parent)
    && NestedEndsAs(false, steps, q.children, r.children)
  }

  lemma {:induction false} AddsUpSnoc(q: Query, steps: seq<Step>, step: Step)
    requires AddsUp(q, steps, Build(q, steps))
    ensures AddsUp(q, steps + [step], BuildStep(Build(q, steps), step))
  {
    GatherSnoc(PredicatesOf, steps, step);
    GatherSnoc(OrderOf, steps, step);
    GatherSnoc(FieldsOf, steps, step);
    GatherSnoc(LocksOf, steps, step);
    hide Gather, Build;
  }

  lemma {:induction false} LastWinsSnoc(q: Query, steps: seq<Step>, step: Step)
    requires LastWins(q, steps, Build(q, steps))
    ensures LastWins(q, steps + [step], BuildStep(Build(q, steps), step))
  {
    hide Build, EndsAs;
    var r := Build(q, steps);
    EndsAsSnoc(LimitOf, steps, step, q.selection.limit, r.selection.limit);
    EndsAsSnoc(OffsetOf, steps, step, q.selection.offset, r.selection.offset);
    EndsAsSnoc(UniqueOf, steps, step, q.unique, r.unique);
    EndsAsSnoc(GroupsOn, steps, step, q.groups, r.groups);
    EndsAsSnoc(ProxyOn, steps, step, q.proxy, r.proxy);
    EndsAsSnoc(UsageLogsOn, steps, step, q.usageLogs, r.usageLogs);
    EndsAsSnoc(AccountGroupsOn, steps, step, q.accountGroups, r.accountGroups);
  }

  lemma {:induction false} NestedSnoc(parent: bool, steps: seq<Step>, step: Step, before: Option<Query>,
                                      after: Option<Query>)
    requires NestedEndsAs(parent, steps, before, after)
    ensures NestedOn(parent)(step).None? ==> NestedEndsAs(parent, steps + [step], before, after)
    ensures NestedOn(parent)(step).Some? ==>
              forall r :: Describes(step.opts, EmptyQuery(), r) ==>
                NestedEndsAs(parent, steps + [step], before, Some(r))
  {
    hide Describes;
    var all := steps + [step];
    LastSnoc(NestedOn(parent), steps, step, |steps|);
    assert all[|steps|] == step;
    if NestedOn(parent)(step).None? && !Unset(NestedOn(parent), steps) {
      var i :| IsLast(NestedOn(parent), steps, i) && after.Some? && Describes(steps[i].opts, EmptyQuery(), after.value);
      LastSnoc(NestedOn(parent), steps, step, i);
      assert all[i] == steps[i];
    }
  }

  lemma {:induction false} DescribesNothing(q: Query)
    ensures Describes([], q, q)
  {
  }

  lemma {:induction false} BuildStepNested(r: Query, step: Step)
    ensures BuildStep(r, step).parent == if step.WithParent? then Some(Build(EmptyQuery(), step.opts)) else r.parent
    ensures BuildStep(r, step).children ==
              if step.WithChildren? then Some(Build(EmptyQuery(), step.opts)) else r.children
    ensures NestedOn(true)(step).Some? == step.WithParent? && NestedOn(false)(step).Some? == step.WithChildren?
  {
  }

  lemma {:induction false} DescribesSnoc(q: Query, steps: seq<Step>, step: Step)
    requires Describes(steps, q, Build(q, steps))
    requires step.WithParent? || step.WithChildren? ==>
               Describes(step.opts, EmptyQuery(), Build(EmptyQuery(), step.opts))
    ensures Describes(steps + [step], q, BuildStep(Build(q, steps), step))
  {
    var r := Build(q, steps);
    AddsUpSnoc(q, steps, step);
    LastWinsSnoc(q, steps, step);
    NestedSnoc(true, steps, step, q.parent, r.parent);
    NestedSnoc(false, steps, step, q.children, r.children);
    BuildStepNested(r, step);
    hide AddsUp, LastWins, NestedEndsAs, NestedOn, BuildStep, Build, EmptyQuery;
  }

  /** The built query is what the script says. */
  lemma {:induction false} BuildMeans(q: Query, steps: seq<Step>)
    ensures Describes(steps, q, Build(q, steps))
    decreases steps
  {
    hide BuildStep;
    if steps == [] {
      DescribesNothing(q);
    } else {
      var init, step := steps[..|steps| - 1], steps[|steps| - 1];
      assert steps == init + [step];
      hide Describes;
      BuildMeans(q, init);
      if step.WithParent? || step.WithChildren? {
        BuildMeans(EmptyQuery(), step.opts);
      }
      DescribesSnoc(q, init, step);
    }
  }

  // ---------------------------------------------------------------- running a script

  /** A script leaves no joins on the queries it builds. */
  lemma {:induction false} BuildUnjoined(q: Query, steps: seq<Step>)
    requires Unjoined(q)
    ensures Unjoined(Build(q, steps))
    decreases steps
  {
    if steps != [] {
      var r, step := Build(q, steps[..|steps| - 1]), steps[|steps| - 1];
      BuildUnjoined(q, steps[..|steps| - 1]);
      if step.WithParent? || step.WithChildren? {
        BuildUnjoined(EmptyQuery(), step.opts);
      }
      BuildStepNested(r, step);
      assert BuildStep(r, step).groups == if step.WithGroups? then Some(GroupQueryModel(step.groups, [])) else r.groups;
      hide BuildStep;
    }
  }

  /** The account satisfies every predicate of the script. */
  ghost predicate Satisfies(steps: seq<Step>, row: AccountRow) {
    forall i :: 0 <= i < |steps| && steps[i].Where? ==> steps[i].p(row)
  }

  lemma {:induction false} SatisfiesIff(steps: seq<Step>, row: AccountRow)
    ensures Satisfies(steps, row) <==>
            forall k :: 0 <= k < |Gather(PredicatesOf, steps)| ==> Gather(PredicatesOf, steps)[k](row)
  {
    if steps != [] {
      var rest, ps := steps[1..], Gather(PredicatesOf, steps);
      SatisfiesIff(rest, row);
      assert forall i :: 0 < i < |steps| ==> steps[i] == rest[i - 1];
      assert forall i :: 0 <= i < |rest| ==> rest[i] == steps[i + 1];
      if steps[0].Where? {
        assert ps == [steps[0].p] + Gather(PredicatesOf, rest);
        assert ps[0] == steps[0].p;
        assert forall k :: 0 < k < |ps| ==> ps[k] == Gather(PredicatesOf, rest)[k - 1];
        assert forall k :: 0 <= k < |Gather(PredicatesOf, rest)| ==> Gather(PredicatesOf, rest)[k] == ps[k + 1];
      } else {
        assert ps == Gather(PredicatesOf, rest);
      }
    }
  }

  /** `BuildMeans` for a new query, without its nested queries. */
  lemma {:induction false} FreshBuild(steps: seq<Step>)
    ensures var q := Build(EmptyQuery(), steps);
            && q.selection.predicates == Gather(PredicatesOf, steps) && q.selection.order == Gather(OrderOf, steps)
            && q.fields == Gather(FieldsOf, steps)
            && EndsAs(LimitOf, steps, 0, q.selection.limit) && EndsAs(OffsetOf, steps, 0, q.selection.offset)
  {
    BuildMeans(EmptyQuery(), steps);
    hide Build, Gather, EndsAs;
    assert [] + Gather(PredicatesOf, steps) == Gather(PredicatesOf, steps);
    assert [] + Gather(OrderOf, steps) == Gather(OrderOf, steps);
    assert [] + Gather(FieldsOf, steps) == Gather(FieldsOf, steps);
  }

  /** Without its limit and offset, a script selects every account that satisfies it, once, in the order it asks for. */
  lemma {:induction false} ScriptSelects(steps: seq<Step>, db: Database)
    requires db.Valid()
    ensures var all := Rows(Open(Build(EmptyQuery(), steps).selection), db.accounts);
            && (forall row :: row in all <==> row in db.accounts && Satisfies(steps, row))
            && forall i, j :: 0 <= i < j < |all| ==>
                 all[i].id != all[j].id && NotAfter(Gather(OrderOf, steps), all[i], all[j])
  {
    var sel := Build(EmptyQuery(), steps).selection;
    FreshBuild(steps);
    RowsMean(sel, db.accounts);
    RowsSound(Open(sel), db.accounts);
    RowsDistinct(Open(sel), (r: AccountRow) => r.id, db.accounts);
    hide Build, Rows, Gather, Filter;
    forall row: AccountRow
      ensures Open(sel).Holds(row) <==> Satisfies(steps, row)
    {
      SatisfiesIff(steps, row);
    }
  }

  /**
   * The page is what the last limit and the last offset of the script take of the accounts `all`, which are
   * those that satisfy every predicate of the script, once, in the order of its order terms.
   */
  ghost predicate IsAnswer(steps: seq<Step>, db: Database, all: seq<AccountRow>, page: seq<AccountRow>, limit: nat,
                           offset: nat) {
    && (forall row :: row in all <==> row in db.accounts && Satisfies(steps, row))
    && (forall i, j :: 0 <= i < j < |all| ==>
          all[i].id != all[j].id && NotAfter(Gather(OrderOf, steps), all[i], all[j]))
    && EndsAs(LimitOf, steps, 0, limit) && EndsAs(OffsetOf, steps, 0, offset) && IsPage(page, all, limit, offset)
  }

  /** The row of a node shows a row of the table: its id, and every column if the script selects no fields. */
  predicate Shows(steps: seq<Step>, shown: AccountRow, row: AccountRow) {
    shown.id == row.id && (Gather(FieldsOf, steps) == [] ==> shown == row)
  }

  lemma {:induction false} RowsAnswer(steps: seq<Step>, db: Database)
    requires db.Valid()
    ensures var sel := Build(EmptyQuery(), steps).selection;
            IsAnswer(steps, db, Rows(Open(sel), db.accounts), Rows(sel, db.accounts), sel.limit, sel.offset)
  {
    var sel := Build(EmptyQuery(), steps).selection;
    FreshBuild(steps);
    ScriptSelects(steps, db);
    assert IsPage(Rows(sel, db.accounts), Rows(Open(sel), db.accounts), sel.limit, sel.offset) by {
      RowsMean(sel, db.accounts);
    }
    hide Build, Rows, Gather, EndsAs, IsPage, Satisfies, NotAfter;
  }

  lemma {:induction false} NodesShow(steps: seq<Step>, db: Database)
    ensures var q := Build(EmptyQuery(), steps);
            var nodes, page := Load(q, db), Rows(q.selection, db.accounts);
            |nodes| == |page| && forall k :: 0 <= k < |page| ==> Shows(steps, nodes[k].row, page[k])
  {
    var q := Build(EmptyQuery(), steps);
    FreshBuild(steps);
    LoadedPage(q, db);
    hide Build, Rows, Load, Project, Columns, Gather, EndsAs;
    var nodes, page := Load(q, db), Rows(q.selection, db.accounts);
    forall k | 0 <= k < |page|
      ensures Shows(steps, nodes[k].row, page[k])
    {
      ScannedFields(q, page[k]);
    }
  }

  /**
   * From the builder calls to the accounts: a new query configured by any script and run on any database
   * with unique keys returns the page that the script asks for.
   */
  method Search(steps: seq<Step>, db: Database) returns (nodes: seq<Account>)
    requires db.Valid()
    ensures exists all, page: seq<AccountRow>, limit, offset :: IsAnswer(steps, db, all, page, limit, offset) &&
              |nodes| == |page| && forall k :: 0 <= k < |nodes| ==> Shows(steps, nodes[k].row, page[k])
  {
    ghost var q := Build(EmptyQuery(), steps);
    BuildUnjoined(EmptyQuery(), steps);
    RowsAnswer(steps, db);
    NodesShow(steps, db);
    hide Build, Rows, Load, Unjoined, IsAnswer, Shows;
    ghost var page := Rows(q.selection, db.accounts);
    var query := NewQuery(steps);
    ghost var R;
    nodes, R := query.SqlAll(db);
    forall k | 0 <= k < |nodes|
      ensures Shows(steps, nodes[k].row, page[k])
    {
      assert Matches(nodes[k], Load(q, db)[k], R);
    }
    assert IsAnswer(steps, db, Rows(Open(q.selection), db.accounts), page, q.selection.limit, q.selection.offset);
  }
}
