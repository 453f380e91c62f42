/**
 * Preparing a creation: fill in the defaults, then check what is required and what is valid. A bulk
 * creation does not look at the error of the first step; the second one catches it.
 */
module AccountCreation {
  import opened Tables
  import opened AccountRows
  import B = BulkCreate
  import L = BulkLaws

  /** The configured defaults; those of four fields are functions, which may not be initialized. */
  datatype Defaults<!J> = Defaults(functions: Column -> Option<Value<J>>, constants: Column -> Value<J>)

  function DefaultFor<J>(d: Defaults<J>, c: Column): Option<Value<J>> {
    match c
    case CreatedAt | UpdatedAt | Credentials | Extra => d.functions(c)
    case _ => Some(d.constants(c))
  }

  function DefaultOrder(): seq<Column> {
    [CreatedAt, UpdatedAt, Credentials, Extra, Concurrency, Priority, RateMultiplier, Status, AutoPauseOnExpired,
     Schedulable, QuotaDimension]
  }

  datatype CheckError = Missing(column: Column) | Invalid(column: Column, reason: string)

  /** What a validator says about a value; None when the value is valid. */
  type Validators<!J> = (Column, Value<J>) -> Option<string>

  datatype Check = Required(column: Column) | Valid(column: Column)

  function CheckOrder(): seq<Check> {
    [Required(CreatedAt), Required(UpdatedAt), Required(Name), Valid(Name), Required(Platform), Valid(Platform),
     Required(Type), Valid(Type), Required(Credentials), Required(Extra), Required(Concurrency), Required(Priority),
     Required(RateMultiplier), Required(Status), Valid(Status), Required(AutoPauseOnExpired), Required(Schedulable),
     Valid(SessionWindowStatus), Required(QuotaDimension), Valid(QuotaDimension)]
  }

  function FailureOf<J>(v: Validators<J>, fields: Fields<J>, check: Check): Option<CheckError> {
    match check
    case Required(c) => if c in fields then None else Some(Missing(c))
    case Valid(c) =>
      if c !in fields then None
      else
        var reason := v(c, fields[c]);
        if reason.Some? then Some(Invalid(c, reason.value)) else None
  }

  function FirstFailure<J>(v: Validators<J>, fields: Fields<J>, checks: seq<Check>): Option<CheckError> {
    if checks == [] then None
    else
      var before := FirstFailure(v, fields, checks[..|checks| - 1]);
      if before.Some? then before else FailureOf(v, fields, checks[|checks| - 1])
  }

  datatype Filled<J> = Filled(fields: Fields<J>, uninitialized: Option<Column>)

  /** Fill in the unset fields of `columns` in order, up to the first default that is not initialized. */
  function FillIn<J>(d: Defaults<J>, fields: Fields<J>, columns: seq<Column>): Filled<J> {
    if columns == [] then Filled(fields, None)
    else
      var before, c := FillIn(d, fields, columns[..|columns| - 1]), columns[|columns| - 1];
      if before.uninitialized.Some? || c in before.fields then before
      else if DefaultFor(d, c).None? then before.(uninitialized := Some(c))
      else before.(fields := before.fields[c := DefaultFor(d, c).value])
  }

  lemma {:induction false} UninitializedStays<J>(d: Defaults<J>, fields: Fields<J>, columns: seq<Column>, n: nat)
    requires n <= |columns| && FillIn(d, fields, columns[..n]).uninitialized.Some?
    ensures FillIn(d, fields, columns) == FillIn(d, fields, columns[..n])
  {
    if n == |columns| {
      assert columns[..n] == columns;
    } else {
      assert columns[..|columns| - 1][..n] == columns[..n];
      UninitializedStays(d, fields, columns[..|columns| - 1], n);
    }
  }

  lemma {:induction false} FailureStays<J>(v: Validators<J>, fields: Fields<J>, checks: seq<Check>, n: nat)
    requires n <= |checks| && FirstFailure(v, fields, checks[..n]).Some?
    ensures FirstFailure(v, fields, checks) == FirstFailure(v, fields, checks[..n])
  {
    if n == |checks| {
      assert checks[..n] == checks;
    } else {
      assert checks[..|checks| - 1][..n] == checks[..n];
      FailureStays(v, fields, checks[..|checks| - 1], n);
    }
  }

  class AccountCreate<J> {
    var fields: Fields<J>

    constructor (fields: Fields<J>)
      ensures this.fields == fields
    {
      this.fields := fields;
    }

    /** Fill in the defaults; on an error the fields after the uninitialized one stay as they are. */
    method FillDefaults(d: Defaults<J>) returns (uninitialized: Option<Column>)
      modifies this
      ensures FillIn(d, old(fields), DefaultOrder()) == Filled(fields, uninitialized)
    {
      var order := DefaultOrder();
      hide DefaultOrder;
      for i := 0 to |order|
        invariant FillIn(d, old(fields), order[..i]) == Filled(fields, None)
      {
        var c := order[i];
        assert order[..i + 1][..i] == order[..i];
        if c !in fields {
          if DefaultFor(d, c).None? {
            UninitializedStays(d, old(fields), order, i + 1);
            return Some(c);
          }
          fields := fields[c := DefaultFor(d, c).value];
        }
      }
      assert order[..|order|] == order;
      return None;
    }

    /** Run the checks in order, up to the first that fails. */
    method RunChecks(v: Validators<J>) returns (err: Option<CheckError>)
      ensures err == FirstFailure(v, fields, CheckOrder())
    {
      var order := CheckOrder();
      hide CheckOrder;
      for i := 0 to |order|
        invariant FirstFailure(v, fields, order[..i]) == None
      {
        assert order[..i + 1][..i] == order[..i];
        err := FailureOf(v, fields, order[i]);
        if err.Some? {
          FailureStays(v, fields, order, i + 1);
          return;
        }
      }
      assert order[..|order|] == order;
      return None;
    }
  }

  // ---------------------------------------------------------------- what the checks guarantee

  predicate MustBeSet(c: Column) {
    NeverNil(c) || c == Credentials || c == Extra
  }

  predicate HasValidator(c: Column) {
    c == Name || c == Platform || c == Type || c == Status || c == SessionWindowStatus || c == QuotaDimension
  }

  const REQUIRED: set<Column> :=
    {CreatedAt, UpdatedAt, Name, Platform, Type, Credentials, Extra, Concurrency, Priority, RateMultiplier, Status,
     AutoPauseOnExpired, Schedulable, QuotaDimension}

  const VALIDATED: set<Column> := {Name, Platform, Type, Status, SessionWindowStatus, QuotaDimension}

  /** The required fields and those with a validator, one by one. */
  lemma {:induction false} CheckedFields(c: Column)
    ensures MustBeSet(c) <==> c in REQUIRED
    ensures HasValidator(c) <==> c in VALIDATED
  {
  }

  /** Nothing is missing that an account cannot be without, and nothing set is invalid. */
  ghost predicate Complete<J>(v: Validators<J>, fields: Fields<J>) {
    && (forall c :: MustBeSet(c) ==> c in fields)
    && forall c :: c in fields && HasValidator(c) ==> v(c, fields[c]).None?
  }

  lemma {:induction false} NoFailureIff<J>(v: Validators<J>, fields: Fields<J>, checks: seq<Check>)
    ensures FirstFailure(v, fields, checks).None? <==>
            forall check :: check in checks ==> FailureOf(v, fields, check).None?
    ensures FirstFailure(v, fields, checks).Some? ==>
              exists k :: 0 <= k < |checks| && FailureOf(v, fields, checks[k]) == FirstFailure(v, fields, checks)
                          && forall i :: 0 <= i < k ==> FailureOf(v, fields, checks[i]).None?
  {
    if checks != [] {
      var init, last := checks[..|checks| - 1], checks[|checks| - 1];
      NoFailureIff(v, fields, init);
      if FirstFailure(v, fields, init).Some? {
        var k :| 0 <= k < |init| && FailureOf(v, fields, init[k]) == FirstFailure(v, fields, init)
                 && forall i :: 0 <= i < k ==> FailureOf(v, fields, init[i]).None?;
        assert FailureOf(v, fields, checks[k]) == FirstFailure(v, fields, checks);
        assert checks[k] in checks;
      } else {
        forall i | 0 <= i < |init|
          ensures FailureOf(v, fields, checks[i]).None?
        {
          assert init[i] in init;
        }
        assert last in checks;
      }
    }
  }

  lemma {:induction false} RequiredAt(c: Column) returns (k: int)
    requires MustBeSet(c)
    ensures 0 <= k < |CheckOrder()| && CheckOrder()[k] == Required(c)
  {
    k := match c
      case CreatedAt => 0 case UpdatedAt => 1 case Name => 2 case Platform => 4 case Type => 6 case Credentials => 8
      case Extra => 9 case Concurrency => 10 case Priority => 11 case RateMultiplier => 12 case Status => 13
      case AutoPauseOnExpired => 15 case Schedulable => 16 case _ => 18;
  }

  lemma {:induction false} ValidAt(c: Column) returns (k: int)
    requires HasValidator(c)
    ensures 0 <= k < |CheckOrder()| && CheckOrder()[k] == Valid(c)
  {
    k := match c
      case Name => 3 case Platform => 5 case Type => 7 case Status => 14 case SessionWindowStatus => 17 case _ => 19;
  }

  lemma {:induction false} ChecksAreFor(k: nat)
    requires k < |CheckOrder()|
    ensures match CheckOrder()[k] case Required(c) => MustBeSet(c) case Valid(c) => HasValidator(c)
  {
  }

  /** The checks accept exactly the complete accounts. */
  lemma {:induction false} ChecksPassIffComplete<J>(v: Validators<J>, fields: Fields<J>)
    ensures FirstFailure(v, fields, CheckOrder()).None? <==> Complete(v, fields)
  {
    hide CheckOrder, FirstFailure, MustBeSet, HasValidator;
    var checks := CheckOrder();
    NoFailureIff(v, fields, checks);
    if FirstFailure(v, fields, checks).None? {
      forall c | MustBeSet(c)
        ensures c in fields
      {
        var k := RequiredAt(c);
        assert FailureOf(v, fields, checks[k]).None?;
      }
      forall c | c in fields && HasValidator(c)
        ensures v(c, fields[c]).None?
      {
        var k := ValidAt(c);
        assert FailureOf(v, fields, checks[k]).None?;
      }
    } else if Complete(v, fields) {
      forall check | check in checks
        ensures FailureOf(v, fields, check).None?
      {
        var k :| 0 <= k < |checks| && checks[k] == check;
        ChecksAreFor(k);
      }
    }
  }

  // ---------------------------------------------------------------- which check fails first

  const CHECKED_COLUMNS: seq<Column> :=
    [CreatedAt, UpdatedAt, Name, Platform, Type, Credentials, Extra, Concurrency, Priority, RateMultiplier, Status,
     AutoPauseOnExpired, Schedulable, SessionWindowStatus, QuotaDimension]

  const FIELD_NAMES: seq<string> :=
    ["created_at", "updated_at", "name", "platform", "type", "credentials", "extra", "concurrency", "priority",
     "rate_multiplier", "status", "auto_pause_on_expired", "schedulable", "session_window_status", "quota_dimension"]

  /** The column is set if it has to be, and its value is valid if it is set and has a validator. */
  ghost predicate Sound<J>(v: Validators<J>, fields: Fields<J>, c: Column) {
    (MustBeSet(c) ==> c in fields) && (c in fields && HasValidator(c) ==> v(c, fields[c]).None?)
  }

  function Rank(c: Column): nat {
    match c
    case CreatedAt => 0 case UpdatedAt => 1 case Name => 2 case Platform => 3 case Type => 4 case Credentials => 5
    case Extra => 6 case Concurrency => 7 case Priority => 8 case RateMultiplier => 9 case Status => 10
    case AutoPauseOnExpired => 11 case Schedulable => 12 case SessionWindowStatus => 13 case QuotaDimension => 14
    case _ => 15
  }

  lemma {:induction false} RanksOfColumns(k: int)
    requires 0 <= k < 15
    ensures |CHECKED_COLUMNS| == |FIELD_NAMES| == 15
    ensures var c := CHECKED_COLUMNS[k]; Rank(c) == k && (MustBeSet(c) || HasValidator(c)) && Label(c) == FIELD_NAMES[k]
  {
  }

  lemma {:induction false} ColumnOfRank(c: Column)
    requires MustBeSet(c) || HasValidator(c)
    ensures Rank(c) < 15 && CHECKED_COLUMNS[Rank(c)] == c
  {
  }

  const RANKS: seq<nat> := [0, 1, 2, 2, 3, 3, 4, 4, 5, 6, 7, 8, 9, 10, 10, 11, 12, 13, 14, 14]

  lemma {:induction false} RankOfCheck(k: int)
    requires 0 <= k < |CheckOrder()|
    ensures |RANKS| == |CheckOrder()| && Rank(CheckOrder()[k].column) == RANKS[k]
  {
  }

  /** The checks of a column come after those of the columns before it. */
  lemma {:induction false} ChecksInRank(k: int, j: int)
    requires 0 <= j < |CheckOrder()| && 0 <= k < |CheckOrder()| &&
             Rank(CheckOrder()[j].column) < Rank(CheckOrder()[k].column)
    ensures j < k
  {
    RankOfCheck(j);
    RankOfCheck(k);
    hide CheckOrder, Rank;
    assert forall i :: 0 < i < |RANKS| ==> RANKS[i - 1] <= RANKS[i];
    if k <= j {
      RanksRise(k, j);
    }
  }

  lemma {:induction false} RanksRise(k: int, j: int)
    requires 0 <= k <= j < |RANKS|
    ensures RANKS[k] <= RANKS[j]
    decreases j - k
  {
    if k < j {
      RanksRise(k, j - 1);
    }
  }

  /**
   * Which error the checks report: that of the first column, in this order, which is missing though required
   * or set to an invalid value; the bulk creation names the column's field.
   */
  lemma {:induction false} FirstUnsound<J>(v: Validators<J>, fields: Fields<J>) returns (k: int)
    requires !Complete(v, fields)
    ensures |CHECKED_COLUMNS| == |FIELD_NAMES| == 15 && 0 <= k < 15
    ensures forall i :: 0 <= i < k ==> Sound(v, fields, CHECKED_COLUMNS[i])
    ensures var c, err := CHECKED_COLUMNS[k], FirstFailure(v, fields, CheckOrder());
            && !Sound(v, fields, c)
            && ErrorOf(err) == Some(B.ValidationError(FIELD_NAMES[k]))
            && err == Some(if c in fields then Invalid(c, v(c, fields[c]).value) else Missing(c))
  {
    var checks := CheckOrder();
    ChecksPassIffComplete(v, fields);
    NoFailureIff(v, fields, checks);
    RanksOfColumns(0);
    hide FirstFailure, CheckOrder, Rank, MustBeSet, HasValidator, Label, Complete;
    var at :| 0 <= at < |checks| && FailureOf(v, fields, checks[at]) == FirstFailure(v, fields, checks)
              && forall i :: 0 <= i < at ==> FailureOf(v, fields, checks[i]).None?;
    ChecksAreFor(at);
    var c := checks[at].column;
    ColumnOfRank(c);
    k := Rank(c);
    RanksOfColumns(k);
    forall i | 0 <= i < k
      ensures Sound(v, fields, CHECKED_COLUMNS[i])
    {
      SoundBefore(v, fields, at, i);
    }
  }

  lemma {:induction false} SoundBefore<J>(v: Validators<J>, fields: Fields<J>, at: int, i: int)
    requires 0 <= at < |CheckOrder()| && 0 <= i < 15 && i < Rank(CheckOrder()[at].column) && |CHECKED_COLUMNS| == 15
    requires forall j :: 0 <= j < at ==> FailureOf(v, fields, CheckOrder()[j]).None?
    ensures Sound(v, fields, CHECKED_COLUMNS[i])
  {
    var d := CHECKED_COLUMNS[i];
    RanksOfColumns(i);
    hide CheckOrder, Rank, MustBeSet, HasValidator, Label, FirstFailure;
    if MustBeSet(d) {
      var j := RequiredAt(d);
      ChecksInRank(at, j);
    }
    if HasValidator(d) {
      var j := ValidAt(d);
      ChecksInRank(at, j);
    }
  }

  // ---------------------------------------------------------------- what the defaults guarantee

  /** Defaults never touch a set field, fill only their own columns, and stop only at an unset function. */
  lemma {:induction false} FillMeans<J>(d: Defaults<J>, fields: Fields<J>, columns: seq<Column>)
    ensures var r := FillIn(d, fields, columns);
            && (forall c :: c in fields ==> c in r.fields && r.fields[c] == fields[c])
            && (forall c :: c in r.fields && c !in fields ==> c in columns && DefaultFor(d, c) == Some(r.fields[c]))
            && (r.uninitialized.None? <==> forall c :: c in columns && c !in fields ==> DefaultFor(d, c).Some?)
            && (r.uninitialized.None? ==> forall c :: c in columns ==> c in r.fields)
            && (r.uninitialized.Some? ==> r.uninitialized.value in columns && r.uninitialized.value !in r.fields
                                          && DefaultFor(d, r.uninitialized.value).None?)
  {
    if columns != [] {
      var init, c := columns[..|columns| - 1], columns[|columns| - 1];
      assert columns == init + [c];
      FillMeans(d, fields, init);
    }
  }

  /** Which value each unset field gets: the configured constant, or what the configured function returns. */
  lemma {:induction false} DefaultsByColumn<J>(d: Defaults<J>, fields: Fields<J>, c: Column)
    requires c !in fields && FillIn(d, fields, DefaultOrder()).uninitialized.None?
    ensures var filled := FillIn(d, fields, DefaultOrder()).fields;
            if c == CreatedAt || c == UpdatedAt || c == Credentials || c == Extra then
              c in filled && d.functions(c) == Some(filled[c])
            else if c == Concurrency || c == Priority || c == RateMultiplier || c == Status || c == AutoPauseOnExpired
                    || c == Schedulable || c == QuotaDimension then
              c in filled && filled[c] == d.constants(c)
            else c !in filled
  {
    FillMeans(d, fields, DefaultOrder());
    hide FillIn;
  }

  const FUNCTION_COLUMNS: seq<Column> := [CreatedAt, UpdatedAt, Credentials, Extra]

  lemma {:induction false} FunctionsComeFirst<J>(d: Defaults<J>, c: Column)
    ensures |FUNCTION_COLUMNS| == 4 <= |DefaultOrder()| && FUNCTION_COLUMNS == DefaultOrder()[..4]
    ensures forall i, j :: 0 <= i < j < |DefaultOrder()| ==> DefaultOrder()[i] != DefaultOrder()[j]
    ensures if c in FUNCTION_COLUMNS then DefaultFor(d, c) == d.functions(c) else DefaultFor(d, c).Some?
  {
    assert FUNCTION_COLUMNS[0] == CreatedAt && FUNCTION_COLUMNS[1] == UpdatedAt;
    assert FUNCTION_COLUMNS[2] == Credentials && FUNCTION_COLUMNS[3] == Extra;
  }

  /** The defaults fail exactly if a function for an unset field is not initialized. */
  lemma {:induction false} DefaultsFailIff<J>(d: Defaults<J>, fields: Fields<J>)
    ensures FillIn(d, fields, DefaultOrder()).uninitialized.None? <==>
            forall c :: c in FUNCTION_COLUMNS && c !in fields ==> d.functions(c).Some?
  {
    FillMeans(d, fields, DefaultOrder());
    FunctionsComeFirst(d, ID);
    hide FillIn, DefaultOrder, DefaultFor;
    forall c: Column
      ensures if c in FUNCTION_COLUMNS then DefaultFor(d, c) == d.functions(c) else DefaultFor(d, c).Some?
      ensures c in FUNCTION_COLUMNS ==> c in DefaultOrder()
    {
      FunctionsComeFirst(d, c);
    }
  }

  /** They fail on the first such field. */
  lemma {:induction false} DefaultsFailOnTheFirst<J>(d: Defaults<J>, fields: Fields<J>, k: int)
    requires 0 <= k < |FUNCTION_COLUMNS|
    ensures var failed, c := FillIn(d, fields, DefaultOrder()).uninitialized, FUNCTION_COLUMNS[k];
            failed == Some(c) <==>
              && c !in fields && d.functions(c).None?
              && forall i :: 0 <= i < k ==> FUNCTION_COLUMNS[i] in fields || d.functions(FUNCTION_COLUMNS[i]).Some?
  {
    FunctionsComeFirst(d, ID);
    hide FillIn, DefaultOrder, DefaultFor;
    forall i | 0 <= i <= k
      ensures DefaultOrder()[i] == FUNCTION_COLUMNS[i]
      ensures DefaultFor(d, DefaultOrder()[i]) == d.functions(FUNCTION_COLUMNS[i])
    {
      FunctionsComeFirst(d, FUNCTION_COLUMNS[i]);
    }
    FailsAt(d, fields, DefaultOrder(), k);
  }

  /** Filling stops at a column exactly if it is unset without a default and filling up to it does not stop. */
  lemma {:induction false} FailsAt<J>(d: Defaults<J>, fields: Fields<J>, order: seq<Column>, k: nat)
    requires k < |order| && forall i, j :: 0 <= i < j < |order| ==> order[i] != order[j]
    ensures FillIn(d, fields, order).uninitialized == Some(order[k]) <==>
              && order[k] !in fields && DefaultFor(d, order[k]).None?
              && forall i :: 0 <= i < k ==> order[i] in fields || DefaultFor(d, order[i]).Some?
  {
    FillMeans(d, fields, order[..k]);
    FillMeans(d, fields, order[..k + 1]);
    assert order[..k + 1][..k] == order[..k];
    if FillIn(d, fields, order[..k + 1]).uninitialized.Some? {
      UninitializedStays(d, fields, order, k + 1);
    } else {
      NotFailedBefore(d, fields, order, k);
    }
  }

  lemma {:induction false} NotFailedBefore<J>(d: Defaults<J>, fields: Fields<J>, order: seq<Column>, k: nat)
    requires k < |order| && FillIn(d, fields, order[..k + 1]).uninitialized.None?
    ensures FillIn(d, fields, order).uninitialized != Some(order[k])
  {
    FillMeans(d, fields, order[..k + 1]);
    FillMeans(d, fields, order);
    assert order[k] == order[..k + 1][k];
  }

  /** An error of the defaults that nobody looks at cannot let an account through: its field is missing. */
  lemma {:induction false} IgnoredDefaultsErrorIsCaught<J>(d: Defaults<J>, v: Validators<J>, fields: Fields<J>)
    ensures var r := FillIn(d, fields, DefaultOrder());
            r.uninitialized.Some? ==> FirstFailure(v, r.fields, CheckOrder()).Some?
  {
    FillMeans(d, fields, DefaultOrder());
    var r := FillIn(d, fields, DefaultOrder());
    ChecksPassIffComplete(v, r.fields);
    hide FillIn, FirstFailure, CheckOrder, DefaultOrder;
    if r.uninitialized.Some? {
      assert MustBeSet(r.uninitialized.value);
    }
  }

  /** Filling in defaults twice is filling them in once, even if the defaults, such as the time, have changed. */
  lemma {:induction false} DefaultsAreStable<J>(d: Defaults<J>, d': Defaults<J>, fields: Fields<J>)
    requires FillIn(d, fields, DefaultOrder()).uninitialized.None?
    ensures var once := FillIn(d, fields, DefaultOrder()); FillIn(d', once.fields, DefaultOrder()) == once
  {
    var once := FillIn(d, fields, DefaultOrder());
    FillMeans(d, fields, DefaultOrder());
    FillMeans(d', once.fields, DefaultOrder());
    hide FillIn, DefaultOrder;
    assert FillIn(d', once.fields, DefaultOrder()).fields == once.fields;
  }

  /** After the defaults, a caller has to have set a name, a platform and a type, and nothing invalid. */
  lemma {:induction false} DefaultsThenChecks<J>(d: Defaults<J>, v: Validators<J>, fields: Fields<J>)
    requires FillIn(d, fields, DefaultOrder()).uninitialized.None?
    ensures var filled := FillIn(d, fields, DefaultOrder()).fields;
            FirstFailure(v, filled, CheckOrder()).None? <==>
            && Name in fields && Platform in fields && Type in fields
            && forall c :: c in filled && HasValidator(c) ==> v(c, filled[c]).None?
  {
    DefaultsCover();
    hide FillIn, FirstFailure, CheckOrder, DefaultOrder, MustBeSet, HasValidator;
    var filled := FillIn(d, fields, DefaultOrder()).fields;
    FillMeans(d, fields, DefaultOrder());
    ChecksPassIffComplete(v, filled);
  }

  lemma {:induction false} DefaultsCover()
    ensures forall c :: MustBeSet(c) <==> c in DefaultOrder() || c == Name || c == Platform || c == Type
    ensures Name !in DefaultOrder() && Platform !in DefaultOrder() && Type !in DefaultOrder()
  {
  }

  // ---------------------------------------------------------------- accounts in bulk

  function Label(c: Column): string {
    match c
    case CreatedAt => "created_at"
    case UpdatedAt => "updated_at"
    case Name => "name"
    case Platform => "platform"
    case Type => "type"
    case Credentials => "credentials"
    case Extra => "extra"
    case Concurrency => "concurrency"
    case Priority => "priority"
    case RateMultiplier => "rate_multiplier"
    case Status => "status"
    case AutoPauseOnExpired => "auto_pause_on_expired"
    case Schedulable => "schedulable"
    case SessionWindowStatus => "session_window_status"
    case QuotaDimension => "quota_dimension"
    case _ => ""
  }

  function ErrorOf(err: Option<CheckError>): Option<B.Error> {
    if err.Some? then Some(B.ValidationError(Label(err.value.column))) else None
  }

  /** The surroundings of a bulk creation of accounts: its defaults drop their error. */
  function AccountSetting<J>(d: Defaults<J>, v: Validators<J>,
                             insert: seq<Fields<J>> -> B.InsertResult): B.Setting<Fields<J>> {
    B.Setting((fields: Fields<J>) => FillIn(d, fields, DefaultOrder()).fields,
              (fields: Fields<J>) => ErrorOf(FirstFailure(v, fields, CheckOrder())),
              insert)
  }

  /** Another account than the builder's own reaches its core, and it is not complete. */
  ghost predicate HandsOnIncomplete<J>(v: Validators<J>, b: B.BuilderValue<Fields<J>>) {
    L.Arrived(b).Some? && L.Arrived(b).value.Other? && !Complete(v, L.Arrived(b).value.fields)
  }

  /**
   * With hooks that call next at most once, a bulk inserts all of its accounts or none; and what it inserts
   * are complete accounts exactly if every account is that reached a core in place of the builder's own.
   */
  lemma {:induction false} BulkInsertsCompleteIff<J>(d: Defaults<J>, v: Validators<J>,
                                                     insert: seq<Fields<J>> -> B.InsertResult,
                                                     bs: seq<B.BuilderValue<Fields<J>>>)
    ensures var s := AccountSetting(d, v, insert);
            var ps := B.Prepared(s, bs);
            forall e :: e in B.SaveAll(s, bs).trace && e.Insert? ==>
              && |e.specs| == |bs|
              && ((forall k :: 0 <= k < |bs| ==> Complete(v, e.specs[k])) <==>
                  (forall k :: 0 <= k < |bs| ==> !HandsOnIncomplete(v, ps[k])))
  {
    hide B.SaveAll, FirstFailure, CheckOrder, DefaultOrder, FillIn, Complete, L.Arrived;
    var s := AccountSetting(d, v, insert);
    var ps, trace := B.Prepared(s, bs), B.SaveAll(s, bs).trace;
    L.SaveWritesOnce(s, bs);
    FilterSound(L.IsInsert, trace);
    hide Filter;
    forall e | e in trace && e.Insert?
      ensures |e.specs| == |bs|
      ensures (forall k :: 0 <= k < |bs| ==> Complete(v, e.specs[k])) <==>
              (forall k :: 0 <= k < |bs| ==> !HandsOnIncomplete(v, ps[k]))
    {
      assert e in L.Inserts(trace);
      L.InsertedPassIff(s, bs);
      assert L.Inserts(trace) == [e];
      forall k | 0 <= k < |bs|
        ensures s.check(e.specs[k]).None? <==> Complete(v, e.specs[k])
        ensures L.SmugglesIn(s, ps[k]) <==> HandsOnIncomplete(v, ps[k])
      {
        ChecksPassIffComplete(v, e.specs[k]);
        if L.Arrived(ps[k]).Some? {
          ChecksPassIffComplete(v, L.Arrived(ps[k]).value.fields);
        }
      }
    }
  }

  /** If no hook hands on another account, a bulk inserts all of its accounts, each of them complete, or none. */
  lemma {:induction false} BulkInsertsCompleteAccounts<J(!new)>(d: Defaults<J>, v: Validators<J>,
                                                                insert: seq<Fields<J>> -> B.InsertResult,
                                                                bs: seq<B.BuilderValue<Fields<J>>>)
    requires forall j, k :: 0 <= j < |bs| && 0 <= k < |bs[j].hooks| ==> L.KeepsTheMutation(bs[j].hooks[k])
    ensures forall e :: e in B.SaveAll(AccountSetting(d, v, insert), bs).trace && e.Insert? ==>
              |e.specs| == |bs| && forall k :: 0 <= k < |bs| ==> Complete(v, e.specs[k])
  {
    hide B.SaveAll, FirstFailure, CheckOrder, DefaultOrder, FillIn, Complete, L.Arriving;
    BulkInsertsCompleteIff(d, v, insert, bs);
    var ps := B.Prepared(AccountSetting(d, v, insert), bs);
    forall k | 0 <= k < |bs|
      ensures !HandsOnIncomplete(v, ps[k])
    {
      assert ps[k].hooks == bs[k].hooks;
      L.ArrivesAsOwn(ps[k].hooks, 0, B.Own(ps[k].fields));
    }
  }

  /** An account that a hook hands on is inserted as it is, however incomplete, if the builder's own is complete. */
  lemma {:induction false} HandedOnAccountIsNotChecked<J>(d: Defaults<J>, v: Validators<J>,
                                                          insert: seq<Fields<J>> -> B.InsertResult,
                                                          own: Fields<J>, other: Fields<J>)
    returns (b: B.BuilderValue<Fields<J>>)
    requires Complete(v, FillIn(d, own, DefaultOrder()).fields)
    ensures b.fields == own && L.Inserts(B.SaveAll(AccountSetting(d, v, insert), [b]).trace) == [B.Insert([other])]
  {
    var hook := B.Hook((fields: Fields<J>) => fields, _ => B.HandOn(other), err => err);
    b := B.BuilderValue(own, [hook]);
    var s := AccountSetting(d, v, insert);
    var filled := FillIn(d, own, DefaultOrder()).fields;
    ChecksPassIffComplete(v, filled);
    hide FirstFailure, CheckOrder, DefaultOrder, FillIn, Complete;
    var p := B.BuilderValue(filled, [hook]);
    assert B.Prepared(s, [b]) == [p];
    var arrived: B.Given<Fields<J>> := B.Other(other, filled);
    assert L.Arriving([hook], 1, arrived) == Some(arrived);
    assert L.Arriving([hook], 0, B.Own(filled)) == L.Arriving([hook], 1, arrived);
    assert L.Accepted(s, p);
    L.SaveWritesOnce(s, [b]);
    assert L.Batch(s, [p]) == [other];
  }
}
