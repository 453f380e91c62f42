/**
 * An account on its way to the database and back: the fields and edges that a creation stores, and the
 * scanning of a row into an account, column by column.
 */
module AccountRows {
  import opened Tables
  import E = EdgeUpdate

  /** The columns of the accounts table; a query may select others. */
  datatype Column =
    | ID | CreatedAt | UpdatedAt | DeletedAt | Name | Notes | Platform | Type | Credentials | Extra | ProxyID
    | ProxyFallbackOriginID | Concurrency | LoadFactor | Priority | RateMultiplier | Status | ErrorMessage | LastUsedAt
    | ExpiresAt | AutoPauseOnExpired | Schedulable | RateLimitedAt | RateLimitResetAt | OverloadUntil
    | TempUnschedulableUntil | TempUnschedulableReason | SessionWindowStart | SessionWindowEnd | SessionWindowStatus
    | ParentAccountID | QuotaDimension
    | Other(name: string)

  datatype Kind = TimeKind | TextKind | JsonKind | IntKind | FloatKind | BoolKind

  /** Instants are counted from the zero time. Documents are JSON objects. */
  datatype Value<J> = Time(t: int) | Text(s: string) | Json(doc: J) | Int(n: int) | Float(x: real) | Bool(b: bool)

  function KindOf<J>(v: Value<J>): Kind {
    match v
    case Time(_) => TimeKind
    case Text(_) => TextKind
    case Json(_) => JsonKind
    case Int(_) => IntKind
    case Float(_) => FloatKind
    case Bool(_) => BoolKind
  }

  /** How documents are written to and read from a JSON column. */
  datatype Codec<!J> = Codec(encode: J -> string, decode: string -> Option<J>)

  ghost predicate Lossless<J(!new)>(codec: Codec<J>) {
    forall doc: J :: codec.encode(doc) != "" && codec.decode(codec.encode(doc)) == Some(doc)
  }

  // ---------------------------------------------------------------- accounts in memory

  /** The fields that are values rather than pointers or maps: they are never nil. */
  predicate NeverNil(c: Column) {
    match c
    case CreatedAt | UpdatedAt | Name | Platform | Type | Concurrency | Priority | RateMultiplier | Status => true
    case AutoPauseOnExpired | Schedulable | QuotaDimension => true
    case _ => false
  }

  /** An account: its id, the fields that are not nil, and what else was selected. */
  datatype Entity<J> = Entity(id: int, values: map<Column, Value<J>>, selected: map<string, Holder>)

  function Zero<J>(c: Column): Value<J>
    requires NeverNil(c)
  {
    match c
    case CreatedAt | UpdatedAt => Time(0)
    case Name | Platform | Type | Status | QuotaDimension => Text("")
    case Concurrency | Priority => Int(0)
    case RateMultiplier => Float(0.0)
    case AutoPauseOnExpired | Schedulable => Bool(false)
  }

  /** The fields that are never nil start out as the zero value of their type. */
  lemma {:induction false} ZeroMeans<J>(c: Column)
    requires NeverNil(c)
    ensures FieldType(c) == Some(KindOf(Zero<J>(c)))
    ensures Zero<J>(c) in {Time(0), Text(""), Int(0), Float(0.0), Bool(false)}
  {
  }

  function ValueColumns(): set<Column> {
    {CreatedAt, UpdatedAt, Name, Platform, Type, Concurrency, Priority, RateMultiplier, Status, AutoPauseOnExpired,
     Schedulable, QuotaDimension}
  }

  function Blank<J>(): Entity<J> {
    Entity(0, map c | c in ValueColumns() :: Zero(c), map[])
  }

  // ---------------------------------------------------------------- scanning

  /** What a database cell holds. */
  datatype Cell = Null | TimeCell(t: int) | TextCell(s: string) | JsonCell(s: string) | IntCell(n: int) |
      FloatCell(x: real) | BoolCell(b: bool)

  /** The destinations of a scan. */
  datatype Holder =
    | NullTime(instant: Option<int>) | NullString(text: Option<string>) | NullInt64(number: Option<int>)
    | NullFloat64(decimal: Option<real>) | NullBool(flag: Option<bool>) | Bytes(bytes: string) | Unknown(cell: Cell)

  function HolderFor(c: Column): Holder {
    match c
    case Credentials | Extra => Bytes("")
    case AutoPauseOnExpired | Schedulable => NullBool(None)
    case RateMultiplier => NullFloat64(None)
    case ID | ProxyID | ProxyFallbackOriginID | Concurrency | LoadFactor | Priority | ParentAccountID => NullInt64(None)
    case Name | Notes | Platform | Type | Status | ErrorMessage | TempUnschedulableReason | SessionWindowStatus |
      QuotaDimension =>
      NullString(None)
    case CreatedAt | UpdatedAt | DeletedAt | LastUsedAt | ExpiresAt | RateLimitedAt | RateLimitResetAt | OverloadUntil
       | TempUnschedulableUntil | SessionWindowStart | SessionWindowEnd => NullTime(None)
    case Other(_) => Unknown(Null)
  }

  /** One destination for every column, of the type that the column is read with. */
  method ScanValues(columns: seq<Column>) returns (values: seq<Holder>)
    ensures |values| == |columns| && forall i :: 0 <= i < |values| ==> values[i] == HolderFor(columns[i])
  {
    var holders := new Holder[|columns|](_ => Unknown(Null));
    for i := 0 to |columns|
      invariant forall k :: 0 <= k < i ==> holders[k] == HolderFor(columns[k])
    {
      holders[i] := HolderFor(columns[i]);
    }
    values := holders[..];
  }

  /** The driver puts a cell into a destination of its type; any destination takes a null. */
  function Fill(h: Holder, cell: Cell): Option<Holder> {
    match (h, cell)
    case (Unknown(_), _) => Some(Unknown(cell))
    case (NullTime(_), Null) => Some(NullTime(None))
    case (NullTime(_), TimeCell(t)) => Some(NullTime(Some(t)))
    case (NullString(_), Null) => Some(NullString(None))
    case (NullString(_), TextCell(s)) => Some(NullString(Some(s)))
    case (NullInt64(_), Null) => Some(NullInt64(None))
    case (NullInt64(_), IntCell(n)) => Some(NullInt64(Some(n)))
    case (NullFloat64(_), Null) => Some(NullFloat64(None))
    case (NullFloat64(_), FloatCell(x)) => Some(NullFloat64(Some(x)))
    case (NullBool(_), Null) => Some(NullBool(None))
    case (NullBool(_), BoolCell(b)) => Some(NullBool(Some(b)))
    case (Bytes(_), Null) => Some(Bytes(""))
    case (Bytes(_), JsonCell(s)) => Some(Bytes(s))
    case _ => None
  }

  datatype AssignError = Mismatch | UnexpectedType(column: Column) | BadJson(column: Column)

  datatype Assigned<J> = Assigned(entity: Entity<J>, err: Option<AssignError>)

  function SetIf<J>(e: Entity<J>, c: Column, v: Option<Value<J>>): Assigned<J> {
    Assigned(if v.Some? then e.(values := e.values[c := v.value]) else e, None)
  }

  /** One column of a row: the id is set in any case, every other field only if the cell is not null. */
  function AssignColumn<J>(codec: Codec<J>, e: Entity<J>, c: Column, h: Holder): Assigned<J> {
    var wrongType := Assigned(e, Some(UnexpectedType(c)));
    match c
    case ID =>
      if h.NullInt64? then Assigned(e.(id := if h.number.Some? then h.number.value else 0), None) else wrongType
    case CreatedAt | UpdatedAt | DeletedAt | LastUsedAt | ExpiresAt | RateLimitedAt | RateLimitResetAt | OverloadUntil
       | TempUnschedulableUntil | SessionWindowStart | SessionWindowEnd =>
      if h.NullTime? then SetIf(e, c, if h.instant.Some? then Some(Time(h.instant.value)) else None) else wrongType
    case Name | Notes | Platform | Type | Status | ErrorMessage | TempUnschedulableReason | SessionWindowStatus |
      QuotaDimension =>
      if h.NullString? then SetIf(e, c, if h.text.Some? then Some(Text(h.text.value)) else None) else wrongType
    case Credentials | Extra =>
      if !h.Bytes? then wrongType
      else if h.bytes == "" then Assigned(e, None)
      else
        var doc := codec.decode(h.bytes);
        if doc.None? then Assigned(e, Some(BadJson(c))) else SetIf(e, c, Some(Json(doc.value)))
    case ProxyID | ProxyFallbackOriginID | Concurrency | LoadFactor | Priority | ParentAccountID =>
      if h.NullInt64? then SetIf(e, c, if h.number.Some? then Some(Int(h.number.value)) else None) else wrongType
    case RateMultiplier =>
      if h.NullFloat64? then SetIf(e, c, if h.decimal.Some? then Some(Float(h.decimal.value)) else None) else wrongType
    case AutoPauseOnExpired | Schedulable =>
      if h.NullBool? then SetIf(e, c, if h.flag.Some? then Some(Bool(h.flag.value)) else None) else wrongType
    case Other(name) => Assigned(e.(selected := e.selected[name := h]), None)
  }

  /** The columns in order, up to the first error. */
  function AssignColumns<J>(codec: Codec<J>, e: Entity<J>, columns: seq<Column>, values: seq<Holder>): Assigned<J>
    requires |columns| <= |values|
  {
    if columns == [] then Assigned(e, None)
    else
      var last := |columns| - 1;
      var before := AssignColumns(codec, e, columns[..last], values);
      if before.err.Some? then before else AssignColumn(codec, before.entity, columns[last], values[last])
  }

  lemma {:induction false} ErrorsStay<J>(codec: Codec<J>, e: Entity<J>, columns: seq<Column>, values: seq<Holder>,
                                         n: nat)
    requires n <= |columns| <= |values|
    requires AssignColumns(codec, e, columns[..n], values).err.Some?
    ensures AssignColumns(codec, e, columns, values) == AssignColumns(codec, e, columns[..n], values)
  {
    if n == |columns| {
      assert columns[..n] == columns;
    } else {
      var init := columns[..|columns| - 1];
      assert init[..n] == columns[..n];
      ErrorsStay(codec, e, init, values, n);
    }
  }

  class AccountNode<J> {
    var id: int
    var values: map<Column, Value<J>>
    var selected: map<string, Holder>

    function Value(): Entity<J>
      reads this
    {
      Entity(id, values, selected)
    }

    constructor ()
      ensures Value() == Blank()
    {
      id, values, selected := 0, Blank<J>().values, map[];
    }

    /** Assign the scanned values of a row; columns before an error stay assigned. */
    method AssignValues(codec: Codec<J>, columns: seq<Column>, values: seq<Holder>) returns (err: Option<AssignError>)
      modifies this
      ensures if |values| < |columns| then err == Some(Mismatch) && Value() == old(Value())
              else AssignColumns(codec, old(Value()), columns, values) == Assigned(Value(), err)
    {
      if |values| < |columns| {
        return Some(Mismatch);
      }
      for i := 0 to |columns|
        invariant AssignColumns(codec, old(Value()), columns[..i], values) == Assigned(Value(), None)
      {
        var next := AssignColumn(codec, Value(), columns[i], values[i]);
        assert columns[..i + 1][..i] == columns[..i];
        id, this.values, selected := next.entity.id, next.entity.values, next.entity.selected;
        if next.err.Some? {
          ErrorsStay(codec, old(Value()), columns, values, i + 1);
          return next.err;
        }
      }
      assert columns[..|columns|] == columns;
      return None;
    }
  }

  // ---------------------------------------------------------------- creation

  /** The columns that a creation sets as fields, in order; the two foreign keys are set through edges. */
  function CreateOrder(): seq<Column> {
    [CreatedAt, UpdatedAt, DeletedAt, Name, Notes, Platform, Type, Credentials, Extra,
     ProxyFallbackOriginID, Concurrency, LoadFactor, Priority, RateMultiplier, Status, ErrorMessage, LastUsedAt,
     ExpiresAt, AutoPauseOnExpired, Schedulable, RateLimitedAt, RateLimitResetAt, OverloadUntil,
     TempUnschedulableUntil, TempUnschedulableReason, SessionWindowStart, SessionWindowEnd, SessionWindowStatus,
     QuotaDimension]
  }

  /** The type that a creation stores a field with. */
  function FieldType(c: Column): Option<Kind> {
    match c
    case CreatedAt | UpdatedAt | DeletedAt | LastUsedAt | ExpiresAt | RateLimitedAt | RateLimitResetAt | OverloadUntil
       | TempUnschedulableUntil | SessionWindowStart | SessionWindowEnd => Some(TimeKind)
    case Name | Notes | Platform | Type | Status | ErrorMessage | TempUnschedulableReason | SessionWindowStatus =>
      Some(TextKind)
    case QuotaDimension => Some(TextKind)
    case Credentials | Extra => Some(JsonKind)
    case ProxyFallbackOriginID | Concurrency | LoadFactor | Priority => Some(IntKind)
    case RateMultiplier => Some(FloatKind)
    case AutoPauseOnExpired | Schedulable => Some(BoolKind)
    case ID | ProxyID | ParentAccountID | Other(_) => None
  }

  /** Every column of the table but the id and the two keys is set as a field. */
  lemma {:induction false} AllOthersAreFields(c: Column)
    ensures FieldType(c).None? <==> c == ID || c == ProxyID || c == ParentAccountID || c.Other?
  {
  }

  type Fields<J> = map<Column, Value<J>>

  /** The set fields of a mutation, each of the type of its setter. */
  ghost predicate WellTyped<J>(fields: Fields<J>) {
    forall c :: c in fields ==> FieldType(c) == Some(KindOf(fields[c]))
  }

  datatype FieldSpec<J> = FieldSpec(column: Column, value: Value<J>)

  class CreateSpec<J> {
    var fields: seq<FieldSpec<J>>
    var edges: seq<E.EdgeSpec>

    constructor ()
      ensures fields == [] && edges == []
    {
      fields, edges := [], [];
    }
  }

  /** The fields among `columns` that are set, in the order of the columns. */
  function Chosen<J>(fields: Fields<J>, columns: seq<Column>): seq<FieldSpec<J>> {
    if columns == [] then []
    else
      var c := columns[|columns| - 1];
      Chosen(fields, columns[..|columns| - 1]) + if c in fields then [FieldSpec(c, fields[c])] else []
  }

  function Keys<J>(e: E.Changes): Fields<J> {
    var proxy: Fields<J> := if e.proxy.id.Some? then map[ProxyID := Int(e.proxy.id.value)] else map[];
    var parent: Fields<J> := if e.parent.id.Some? then map[ParentAccountID := Int(e.parent.id.value)] else map[];
    proxy + parent
  }

  /** The account that a creation returns, but for the id that the database chooses. */
  function Created<J>(fields: Fields<J>, e: E.Changes): Entity<J> {
    Entity(0, Blank<J>().values + fields + Keys(e), map[])
  }

  /** The fields among `columns`. */
  function Restrict<J>(fields: Fields<J>, columns: seq<Column>): Fields<J> {
    if columns == [] then map[]
    else
      var c := columns[|columns| - 1];
      var before := Restrict(fields, columns[..|columns| - 1]);
      if c in fields then before[c := fields[c]] else before
  }

  lemma {:induction false} RestrictSound<J>(fields: Fields<J>, columns: seq<Column>)
    ensures forall c :: c in Restrict(fields, columns) <==> c in fields && c in columns
    ensures forall c :: c in Restrict(fields, columns) ==> Restrict(fields, columns)[c] == fields[c]
  {
    if columns != [] {
      RestrictSound(fields, columns[..|columns| - 1]);
    }
  }

  lemma {:induction false} RestrictSnoc<J>(fields: Fields<J>, columns: seq<Column>, c: Column, values: Fields<J>)
    ensures values + Restrict(fields, columns + [c]) ==
            var before := values + Restrict(fields, columns); if c in fields then before[c := fields[c]] else before
  {
    assert (columns + [c])[..|columns|] == columns;
  }

  /** Set the fields among `order` that are set, each in the spec and in the account. */
  method SetFields<J>(fields: Fields<J>, order: seq<Column>, node: AccountNode<J>, spec: CreateSpec<J>)
    requires spec.fields == []
    modifies node`values, spec`fields
    ensures node.values == old(node.values) + Restrict(fields, order)
    ensures spec.fields == Chosen(fields, order)
  {
    ghost var blank := node.values;
    assert blank + Restrict(fields, order[..0]) == blank;
    for i := 0 to |order|
      invariant node.values == blank + Restrict(fields, order[..i])
      invariant spec.fields == Chosen(fields, order[..i])
    {
      var c := order[i];
      ChosenSnoc(fields, order[..i], c);
      RestrictSnoc(fields, order[..i], c, blank);
      hide Chosen, Restrict;
      assert order[..i + 1] == order[..i] + [c];
      if c in fields {
        spec.fields := spec.fields + [FieldSpec(c, fields[c])];
        node.values := node.values[c := fields[c]];
      }
    }
    assert order[..|order|] == order;
  }

  lemma {:induction false} ChosenSnoc<J>(fields: Fields<J>, columns: seq<Column>, c: Column)
    ensures Chosen(fields, columns + [c]) ==
            Chosen(fields, columns) + if c in fields then [FieldSpec(c, fields[c])] else []
  {
    assert (columns + [c])[..|columns|] == columns;
  }

  /** Build the account and the spec to insert from the fields and edges that are set. */
  method BuildSpec<J>(fields: Fields<J>, edges: E.AccountMutation) returns (node: AccountNode<J>, spec: CreateSpec<J>)
    requires WellTyped(fields)
    ensures fresh(node) && fresh(spec)
    ensures node.Value() == Created(fields, edges.Value())
    ensures spec.fields == Chosen(fields, CreateOrder())
    ensures E.Specify(spec.edges, E.ToAdd(edges.Value()))
  {
    node := new AccountNode();
    spec := new CreateSpec();
    AllColumnsOrdered(fields);
    hide WellTyped, Chosen, Restrict, CreateOrder, Blank, E.Specify;
    var e := edges.Value();
    SetFields(fields, CreateOrder(), node, spec);
    SetKeys(e, node);
    spec.edges := BuildEdges(e);
  }

  /** The ids of the proxy and the parent are fields of the account as well as edges. */
  method SetKeys<J>(e: E.Changes, node: AccountNode<J>)
    modifies node`values
    ensures node.values == old(node.values) + Keys(e)
  {
    if e.proxy.id.Some? {
      node.values := node.values[ProxyID := Int(e.proxy.id.value)];
    }
    if e.parent.id.Some? {
      node.values := node.values[ParentAccountID := Int(e.parent.id.value)];
    }
  }

  method BuildEdges(e: E.Changes) returns (specs: seq<E.EdgeSpec>)
    ensures E.Specify(specs, E.ToAdd(e))
  {
    var groups := E.SpecFor(E.Groups, e.groups.added);
    var proxy := E.SpecFor(E.Proxy, if e.proxy.id.Some? then {e.proxy.id.value} else {});
    var parent := E.SpecFor(E.Parent, if e.parent.id.Some? then {e.parent.id.value} else {});
    var children := E.SpecFor(E.Children, e.children.added);
    var usageLogs := E.SpecFor(E.UsageLogs, e.usageLogs.added);
    hide E.Specify;
    ghost var t1, t2 := E.ManyAdded(E.Groups, e.groups), E.OneAdded(E.Proxy, e.proxy);
    ghost var t3, t4 := E.OneAdded(E.Parent, e.parent), E.ManyAdded(E.Children, e.children);
    E.SpecifyAppend(groups, t1, proxy, t2);
    E.SpecifyAppend(groups + proxy, t1 + t2, parent, t3);
    E.SpecifyAppend(groups + proxy + parent, t1 + t2 + t3, children, t4);
    E.SpecifyAppend(groups + proxy + parent + children, t1 + t2 + t3 + t4, usageLogs,
                    E.ManyAdded(E.UsageLogs, e.usageLogs));
    specs := groups + proxy + parent + children + usageLogs;
  }

  lemma {:induction false} AllColumnsOrdered<J>(fields: Fields<J>)
    requires WellTyped(fields)
    ensures Restrict(fields, CreateOrder()) == fields
  {
    RestrictSound(fields, CreateOrder());
    forall c | c in fields
      ensures c in CreateOrder()
    {
    }
  }

  // ---------------------------------------------------------------- the stored row

  function CellOf<J>(codec: Codec<J>, v: Value<J>): Cell {
    match v
    case Time(t) => TimeCell(t)
    case Text(s) => TextCell(s)
    case Json(doc) => JsonCell(codec.encode(doc))
    case Int(n) => IntCell(n)
    case Float(x) => FloatCell(x)
    case Bool(b) => BoolCell(b)
  }

  type Row = map<Column, Cell>

  function CellAt(row: Row, c: Column): Cell {
    if c in row then row[c] else Null
  }

  function WithFields<J>(codec: Codec<J>, row: Row, fields: seq<FieldSpec<J>>): Row {
    if fields == [] then row
    else
      var last := fields[|fields| - 1];
      WithFields(codec, row, fields[..|fields| - 1])[last.column := CellOf(codec, last.value)]
  }

  /** A to-one edge is stored in a foreign key of the row, every other edge elsewhere. */
  function WithEdges(row: Row, edges: seq<E.EdgeSpec>): Row {
    if edges == [] then row
    else
      var before, last := WithEdges(row, edges[..|edges| - 1]), edges[|edges| - 1];
      if last.rel != E.M2O || last.targets == [] then before
      else before[if last.inverse then ParentAccountID else ProxyID := IntCell(last.targets[0])]
  }

  /** The row that an insert stores under an id; columns that it does not mention are null. */
  function Stored<J>(codec: Codec<J>, id: int, fields: seq<FieldSpec<J>>, edges: seq<E.EdgeSpec>): Row {
    WithEdges(WithFields(codec, map[ID := IntCell(id)], fields), edges)
  }

  lemma {:induction false} FieldsStored<J>(codec: Codec<J>, row: Row, fields: Fields<J>, columns: seq<Column>,
                                           c: Column)
    ensures var r := WithFields(codec, row, Chosen(fields, columns));
            && (c in r <==> c in row || (c in fields && c in columns))
            && CellAt(r, c) == if c in fields && c in columns then CellOf(codec, fields[c]) else CellAt(row, c)
    decreases |columns|
  {
    hide WithFields, Chosen, CellOf;
    if columns == [] {
      NoFieldStored(codec, row, fields);
    } else {
      var init, last := columns[..|columns| - 1], columns[|columns| - 1];
      FieldsStored(codec, row, fields, init, c);
      OneFieldStored(codec, row, fields, init, last);
      assert columns == init + [last];
      assert c in columns <==> c in init || c == last;
    }
  }

  lemma {:induction false} NoFieldStored<J>(codec: Codec<J>, row: Row, fields: Fields<J>)
    ensures WithFields(codec, row, Chosen(fields, [])) == row
  {
  }

  lemma {:induction false} OneFieldStored<J>(codec: Codec<J>, row: Row, fields: Fields<J>, init: seq<Column>,
                                             last: Column)
    ensures var before := WithFields(codec, row, Chosen(fields, init));
            WithFields(codec, row, Chosen(fields, init + [last])) ==
            if last in fields then before[last := CellOf(codec, fields[last])] else before
  {
    ChosenSnoc(fields, init, last);
    if last in fields {
      WithFieldsSnoc(codec, row, Chosen(fields, init), FieldSpec(last, fields[last]));
    } else {
      assert Chosen(fields, init) + [] == Chosen(fields, init);
    }
    hide WithFields, Chosen, CellOf;
  }

  lemma {:induction false} WithFieldsSnoc<J>(codec: Codec<J>, row: Row, fields: seq<FieldSpec<J>>, f: FieldSpec<J>)
    ensures WithFields(codec, row, fields + [f]) == WithFields(codec, row, fields)[f.column := CellOf(codec, f.value)]
  {
    assert (fields + [f])[..|fields|] == fields;
  }

  /** The value that a creation stores in a column, if any. */
  function StoredValue<J>(fields: Fields<J>, e: E.Changes, c: Column): Option<Value<J>> {
    if c == ProxyID then (if e.proxy.id.Some? then Some(Int(e.proxy.id.value)) else None)
    else if c == ParentAccountID then (if e.parent.id.Some? then Some(Int(e.parent.id.value)) else None)
    else if c in fields then Some(fields[c]) else None
  }

  /** The cells that a row stored for a creation holds, column by column. */
  function StoredCell<J>(codec: Codec<J>, id: int, fields: Fields<J>, e: E.Changes, c: Column): Cell {
    if c == ID then IntCell(id)
    else
      var v := StoredValue(fields, e, c);
      if v.Some? then CellOf(codec, v.value) else Null
  }

  /** The foreign keys of a row are those of the links that its edges add. */
  lemma {:induction false} EdgesStored(row: Row, edges: seq<E.EdgeSpec>)
    requires ProxyID !in row && ParentAccountID !in row
    requires forall k :: 0 <= k < |edges| ==>
               && edges[k].rel == E.RelationOf(edges[k].edge) && edges[k].inverse == edges[k].edge.Parent?
               && (edges[k].rel == E.M2O ==> |edges[k].targets| == 1)
    ensures var r, links := WithEdges(row, edges), E.AddAllSpecs(E.Links({}, {}, {}, {}, {}), edges);
            && (if ProxyID in r then r[ProxyID].IntCell? && links.proxy == {r[ProxyID].n} else links.proxy == {})
            && (if ParentAccountID in r then r[ParentAccountID].IntCell? && links.parent == {r[ParentAccountID].n}
                else links.parent == {})
            && forall c :: c != ProxyID && c != ParentAccountID ==> CellAt(r, c) == CellAt(row, c)
  {
    if edges != [] {
      var last := edges[|edges| - 1];
      EdgesStored(row, edges[..|edges| - 1]);
      if last.rel == E.M2O {
        assert last.targets == [last.targets[0]];
        assert E.Elements(last.targets) == {last.targets[0]};
      }
    }
  }

  lemma {:induction false} OneTarget(ids: seq<int>, id: int)
    requires E.Distinct(ids) && E.Elements(ids) == {id}
    ensures ids == [id]
  {
    assert ids != [] by { assert id in E.Elements(ids); }
    assert ids[0] in E.Elements(ids);
    if |ids| > 1 {
      TwoTargets(ids, id);
    }
  }

  lemma {:induction false} TwoTargets(ids: seq<int>, id: int)
    requires E.Distinct(ids) && |ids| > 1
    ensures E.Elements(ids) != {id}
  {
    assert ids[0] in E.Elements(ids) && ids[1] in E.Elements(ids);
    assert ids[0] != id || ids[1] != id;
  }

  lemma {:induction false} NoKeyFields<J>(fields: Fields<J>)
    requires WellTyped(fields)
    ensures ID !in fields && ProxyID !in fields && ParentAccountID !in fields
    ensures forall c :: c in fields ==> !c.Other?
  {
  }

  lemma {:induction false} KeysStored(row: Row, e: E.Changes, edges: seq<E.EdgeSpec>)
    requires ProxyID !in row && ParentAccountID !in row && E.Specify(edges, E.ToAdd(e))
    ensures var r := WithEdges(row, edges);
            && CellAt(r, ProxyID) == (if e.proxy.id.Some? then IntCell(e.proxy.id.value) else Null)
            && CellAt(r, ParentAccountID) == (if e.parent.id.Some? then IntCell(e.parent.id.value) else Null)
            && forall c :: c != ProxyID && c != ParentAccountID ==> CellAt(r, c) == CellAt(row, c)
  {
    var none := E.Links({}, {}, {}, {}, {});
    hide E.ToAdd, E.ClearTargets, E.AddTargets, WithEdges, E.AddAllSpecs;
    forall k | 0 <= k < |edges|
      ensures edges[k].rel == E.M2O ==> |edges[k].targets| == 1
    {
      var t := E.ToAdd(e)[k];
      if edges[k].rel == E.M2O {
        SingleKeys(e, t);
        OneTarget(edges[k].targets, if t.edge == E.Proxy then e.proxy.id.value else e.parent.id.value);
      }
    }
    EdgesStored(row, edges);
    E.AddsTargets(none, edges, E.ToAdd(e));
    E.AddsWhatWasAsked(e, none);
    hide E.Specify;
    var r := WithEdges(row, edges);
    if e.proxy.id.Some? { assert e.proxy.id.value in {r[ProxyID].n}; }
    if e.parent.id.Some? { assert e.parent.id.value in {r[ParentAccountID].n}; }
  }

  lemma {:induction false} StoredCells<J>(codec: Codec<J>, id: int, fields: Fields<J>, e: E.Changes,
                                          edges: seq<E.EdgeSpec>, c: Column)
    requires WellTyped(fields) && E.Specify(edges, E.ToAdd(e))
    ensures CellAt(Stored(codec, id, Chosen(fields, CreateOrder()), edges), c) == StoredCell(codec, id, fields, e, c)
  {
    hide WellTyped, WithFields, Chosen, Restrict, CreateOrder, E.ToAdd, WithEdges, E.Specify;
    var start := map[ID := IntCell(id)];
    var first := WithFields(codec, start, Chosen(fields, CreateOrder()));
    AllColumnsOrdered(fields);
    RestrictSound(fields, CreateOrder());
    NoKeyFields(fields);
    assert c in fields ==> c in Restrict(fields, CreateOrder());
    FieldsStored(codec, start, fields, CreateOrder(), c);
    FieldsStored(codec, start, fields, CreateOrder(), ProxyID);
    FieldsStored(codec, start, fields, CreateOrder(), ParentAccountID);
    KeysStored(first, e, edges);
  }

  lemma {:induction false} SingleKeys(e: E.Changes, t: E.Target)
    requires t in E.ToAdd(e)
    ensures t.edge == E.Proxy ==> e.proxy.id.Some? && t.ids == {e.proxy.id.value}
    ensures t.edge == E.Parent ==> e.parent.id.Some? && t.ids == {e.parent.id.value}
  {
  }

  // ---------------------------------------------------------------- reading it back

  ghost predicate Fillable(columns: seq<Column>, row: Row) {
    forall i :: 0 <= i < |columns| ==> Fill(HolderFor(columns[i]), CellAt(row, columns[i])).Some?
  }

  /** The destinations of `ScanValues` after the driver has filled them from a row. */
  function Scanned(columns: seq<Column>, row: Row): (values: seq<Holder>)
    requires Fillable(columns, row)
  {
    seq(|columns|, i requires 0 <= i < |columns| => Fill(HolderFor(columns[i]), CellAt(row, columns[i])).value)
  }

  predicate SameType(h: Holder, g: Holder) {
    h.NullTime? == g.NullTime? && h.NullString? == g.NullString? && h.NullInt64? == g.NullInt64? &&
      h.Bytes? == g.Bytes? &&
    h.NullFloat64? == g.NullFloat64? && h.NullBool? == g.NullBool?
  }

  lemma {:induction false} FillKeepsType(h: Holder, cell: Cell)
    ensures Fill(h, cell).Some? ==> SameType(Fill(h, cell).value, h)
  {
  }

  /** What assigning a destination of the right type does. */
  function AssignHeld<J>(codec: Codec<J>, e: Entity<J>, c: Column, h: Holder): Assigned<J> {
    if c == ID then Assigned(if h.NullInt64? then e.(id := if h.number.Some? then h.number.value else 0) else e, None)
    else
      match h
      case NullTime(v) => SetIf(e, c, if v.Some? then Some(Time(v.value)) else None)
      case NullString(v) => SetIf(e, c, if v.Some? then Some(Text(v.value)) else None)
      case NullInt64(v) => SetIf(e, c, if v.Some? then Some(Int(v.value)) else None)
      case NullFloat64(v) => SetIf(e, c, if v.Some? then Some(Float(v.value)) else None)
      case NullBool(v) => SetIf(e, c, if v.Some? then Some(Bool(v.value)) else None)
      case Bytes(data) =>
        if data == "" then Assigned(e, None)
        else
          var doc := codec.decode(data);
          if doc.None? then Assigned(e, Some(BadJson(c))) else SetIf(e, c, Some(Json(doc.value)))
      case Unknown(_) => Assigned(e.(selected := e.selected[if c.Other? then c.name else "" := h]), None)
  }

  /** Scanning and assigning agree on the type of every column. */
  lemma {:induction false} ScanFitsAssign<J>(codec: Codec<J>, e: Entity<J>, c: Column, h: Holder)
    requires SameType(h, HolderFor(c))
    ensures AssignColumn(codec, e, c, h) == AssignHeld(codec, e, c, h)
  {
  }

  /** No row, whatever it holds, makes the assignment of the selected columns stumble over a type. */
  lemma {:induction false} NeverUnexpected<J>(codec: Codec<J>, e: Entity<J>, columns: seq<Column>, row: Row)
    requires Fillable(columns, row)
    ensures var r := AssignColumns(codec, e, columns, Scanned(columns, row));
            r.err.Some? ==> r.err.value.BadJson?
  {
    var values := Scanned(columns, row);
    forall i | 0 <= i < |columns|
      ensures SameType(values[i], HolderFor(columns[i]))
    {
      FillKeepsType(HolderFor(columns[i]), CellAt(row, columns[i]));
    }
    AssignsNoUnexpected(codec, e, columns, values);
  }

  lemma {:induction false} AssignsNoUnexpected<J>(codec: Codec<J>, e: Entity<J>, columns: seq<Column>,
                                                  values: seq<Holder>)
    requires |columns| <= |values|
    requires forall i :: 0 <= i < |columns| ==> SameType(values[i], HolderFor(columns[i]))
    ensures var r := AssignColumns(codec, e, columns, values); r.err.Some? ==> r.err.value.BadJson?
    decreases |columns|
  {
    if columns != [] {
      var last := |columns| - 1;
      hide AssignColumn, HolderFor, SameType;
      AssignsNoUnexpected(codec, e, columns[..last], values);
      ScanFitsAssign(codec, AssignColumns(codec, e, columns[..last], values).entity, columns[last], values[last]);
    }
  }

  /** Why a destination can not be assigned to a column: it is of another type, or holds a document that is none. */
  function AssignErrorOf<J>(codec: Codec<J>, c: Column, h: Holder): Option<AssignError> {
    if !c.Other? && !SameType(h, HolderFor(c)) then Some(UnexpectedType(c))
    else if (c == Credentials || c == Extra) && h.Bytes? && h.bytes != "" && codec.decode(h.bytes).None?
      then Some(BadJson(c))
    else None
  }

  lemma {:induction false} ColumnErrors<J>(codec: Codec<J>, e: Entity<J>, c: Column, h: Holder)
    ensures AssignColumn(codec, e, c, h).err == AssignErrorOf(codec, c, h)
    ensures AssignErrorOf(codec, c, h).Some? ==> AssignColumn(codec, e, c, h).entity == e
  {
  }

  /**
   * Assigning a row fails exactly if some column has a destination of another type or a document that does
   * not decode; the error is that of the first such column, and the columns before it stay assigned.
   */
  lemma {:induction false} FirstErrorStops<J>(codec: Codec<J>, e: Entity<J>, columns: seq<Column>, values: seq<Holder>)
    requires |columns| <= |values|
    ensures var r := AssignColumns(codec, e, columns, values);
            && (r.err.None? <==> forall i :: 0 <= i < |columns| ==> AssignErrorOf(codec, columns[i], values[i]).None?)
            && forall k :: 0 <= k < |columns| && AssignErrorOf(codec, columns[k], values[k]).Some?
                           && (forall i :: 0 <= i < k ==> AssignErrorOf(codec, columns[i], values[i]).None?) ==>
                 && r.err == AssignErrorOf(codec, columns[k], values[k])
                 && r.entity == AssignColumns(codec, e, columns[..k], values).entity
    decreases |columns|
  {
    if columns != [] {
      var last := |columns| - 1;
      var init := columns[..last];
      FirstErrorStops(codec, e, init, values);
      ColumnErrors(codec, AssignColumns(codec, e, init, values).entity, columns[last], values[last]);
      hide AssignColumn, AssignErrorOf;
      assert forall i :: 0 <= i < last ==> init[i] == columns[i] && init[..i] == columns[..i];
    }
  }

  /** What was selected beyond the columns of the table. */
  function Selected(columns: seq<Column>, row: Row): map<string, Holder> {
    if columns == [] then map[]
    else
      var before, c := Selected(columns[..|columns| - 1], row), columns[|columns| - 1];
      if c.Other? then before[c.name := Unknown(CellAt(row, c))] else before
  }

  /** An account of which only some columns were read: the others are as in a blank account. */
  function Projected<J>(e: Entity<J>, columns: seq<Column>, row: Row): Entity<J> {
    Entity(if ID in columns then e.id else 0,
           map c | c in e.values && (c in columns || NeverNil(c)) :: if c in columns then e.values[c] else Zero(c),
           Selected(columns, row))
  }

  function HolderOf(k: Kind): Holder {
    match k
    case TimeKind => NullTime(None)
    case TextKind => NullString(None)
    case JsonKind => Bytes("")
    case IntKind => NullInt64(None)
    case FloatKind => NullFloat64(None)
    case BoolKind => NullBool(None)
  }

  /** Creation and scanning agree on the type of every stored field. */
  lemma {:induction false} CreateFitsScan<J>(fields: Fields<J>, e: E.Changes, c: Column)
    requires WellTyped(fields) && c != ID
    ensures var v := StoredValue(fields, e, c); v.Some? ==> HolderFor(c) == HolderOf(KindOf(v.value)) && !c.Other?
  {
    FieldsFitScan(c);
    hide HolderFor, FieldType;
  }

  lemma {:induction false} FieldsFitScan(c: Column)
    ensures FieldType(c).Some? ==> HolderFor(c) == HolderOf(FieldType(c).value) && c != ID && !c.Other?
    ensures HolderFor(ProxyID) == HolderFor(ParentAccountID) == HolderOf(IntKind)
  {
  }

  lemma {:induction false} ReadsValueBack<J(!new)>(codec: Codec<J>, e: Entity<J>, c: Column, v: Value<J>)
    requires Lossless(codec) && c != ID && HolderFor(c) == HolderOf(KindOf(v))
    ensures var h := Fill(HolderFor(c), CellOf(codec, v));
            h.Some? && AssignColumn(codec, e, c, h.value) == Assigned(e.(values := e.values[c := v]), None)
  {
    hide HolderFor, AssignColumn;
    var h := Fill(HolderFor(c), CellOf(codec, v));
    FillKeepsType(HolderFor(c), CellOf(codec, v));
    ScanFitsAssign(codec, e, c, h.value);
    if v.Json? {
      assert codec.decode(codec.encode(v.doc)) == Some(v.doc);
    }
  }

  lemma {:induction false} NullChangesNothing<J>(codec: Codec<J>, e: Entity<J>, c: Column)
    requires c != ID && !c.Other?
    ensures var h := Fill(HolderFor(c), Null); h.Some? && AssignColumn(codec, e, c, h.value) == Assigned(e, None)
  {
    assert !HolderFor(c).Unknown?;
    hide HolderFor, AssignColumn;
    FillKeepsType(HolderFor(c), Null);
    ScanFitsAssign(codec, e, c, Fill(HolderFor(c), Null).value);
  }

  lemma {:induction false} IDReadBack<J>(codec: Codec<J>, e: Entity<J>, id: int)
    ensures var h := Fill(HolderFor(ID), IntCell(id));
            h.Some? && AssignColumn(codec, e, ID, h.value) == Assigned(e.(id := id), None)
  {
  }

  lemma {:induction false} BlankHolds<J>(c: Column)
    ensures c in Blank<J>().values <==> NeverNil(c)
    ensures NeverNil(c) ==> Blank<J>().values[c] == Zero(c)
  {
  }

  /** A created account holds in each field what is stored, or the zero value if the field is never nil. */
  lemma {:induction false} CreatedHolds<J>(fields: Fields<J>, e: E.Changes, c: Column)
    requires WellTyped(fields)
    ensures var node, v := Created(fields, e), StoredValue(fields, e, c);
            && (c in node.values <==> v.Some? || NeverNil(c))
            && (c in node.values ==> node.values[c] == if v.Some? then v.value else Zero(c))
  {
    hide WellTyped, Blank, NeverNil, Zero;
    NoKeyFields(fields);
    BlankHolds<J>(c);
    BlankHolds<J>(ProxyID);
    BlankHolds<J>(ParentAccountID);
  }

  lemma {:induction false} ProjectedSnoc<J>(node: Entity<J>, init: seq<Column>, c: Column, row: Row)
    ensures var before, after := Projected(node, init, row), Projected(node, init + [c], row);
            && after.id == (if c == ID then node.id else before.id)
            && after.selected == (if c.Other? then before.selected[c.name := Unknown(CellAt(row, c))]
                                  else before.selected)
            && after.values == if c in node.values then before.values[c := node.values[c]] else before.values
  {
    hide NeverNil, Zero;
    assert (init + [c])[..|init|] == init;
    assert forall d :: d in init + [c] <==> d in init || d == c;
  }

  lemma {:induction false} ZeroStays<J>(node: Entity<J>, init: seq<Column>, c: Column, row: Row)
    requires NeverNil(c) && c in node.values && node.values[c] == Zero(c)
    ensures Projected(node, init, row).values[c := node.values[c]] == Projected(node, init, row).values
  {
    assert Projected(node, init, row).values[c] == node.values[c];
  }

  /** The row holds what a creation stored in the columns of the table, and anything in other columns. */
  ghost predicate Holds<J>(row: Row, codec: Codec<J>, id: int, fields: Fields<J>, e: E.Changes) {
    forall c: Column :: !c.Other? ==> CellAt(row, c) == StoredCell(codec, id, fields, e, c)
  }

  lemma {:induction false} AssignsOneBack<J(!new)>(codec: Codec<J>, id: int, fields: Fields<J>, e: E.Changes, row: Row,
                                                   init: seq<Column>, c: Column, h: Holder)
    requires Lossless(codec) && WellTyped(fields) && Holds(row, codec, id, fields, e)
    requires Fill(HolderFor(c), CellAt(row, c)) == Some(h)
    ensures var node := Created(fields, e).(id := id);
            AssignColumn(codec, Projected(node, init, row), c, h) == Assigned(Projected(node, init + [c], row), None)
  {
    assert !NeverNil(ID) && (c.Other? ==> !NeverNil(c));
    hide AssignColumn, Fill, HolderFor, Created, CellOf, CellAt, Lossless, Projected, NeverNil, Zero, WellTyped,
      StoredValue, ValueColumns;
    var node := Created(fields, e).(id := id);
    var v := StoredValue(fields, e, c);
    var before := Projected(node, init, row);
    CreatedHolds(fields, e, c);
    ProjectedSnoc(node, init, c, row);
    NotStored(fields, e, c);
    if c == ID {
      IDReadBack(codec, before, id);
    } else if c.Other? {
      OtherColumnKept(codec, before, c.name, CellAt(row, c));
    } else if v.Some? {
      CreateFitsScan(fields, e, c);
      ReadsValueBack(codec, before, c, v.value);
    } else {
      NullChangesNothing(codec, before, c);
      if c in node.values {
        ZeroStays(node, init, c, row);
      }
    }
  }

  lemma {:induction false} NotStored<J>(fields: Fields<J>, e: E.Changes, c: Column)
    requires WellTyped(fields)
    ensures c == ID || c.Other? ==> StoredValue(fields, e, c) == None
  {
    NoKeyFields(fields);
  }

  /** What a query selects beyond the table's columns is kept aside, and changes nothing else. */
  lemma {:induction false} OtherColumnKept<J>(codec: Codec<J>, e: Entity<J>, name: string, cell: Cell)
    ensures var filled := Fill(HolderFor(Other(name)), cell);
            filled.Some? && AssignColumn(codec, e, Other(name), filled.value) ==
                Assigned(e.(selected := e.selected[name := Unknown(cell)]), None)
  {
  }

  lemma {:induction false} ProjectedOnNothing<J>(fields: Fields<J>, e: E.Changes, id: int, row: Row)
    requires WellTyped(fields)
    ensures Projected(Created(fields, e).(id := id), [], row) == Blank()
  {
    var none := Projected(Created(fields, e).(id := id), [], row);
    forall c: Column
      ensures c in none.values <==> c in Blank<J>().values
      ensures c in none.values ==> none.values[c] == Blank<J>().values[c]
    {
      CreatedHolds(fields, e, c);
      BlankHolds<J>(c);
      hide Created, WellTyped, NeverNil, Zero, Blank;
    }
    assert none.values == Blank<J>().values;
  }

  lemma {:induction false} AssignsBack<J(!new)>(codec: Codec<J>, id: int, fields: Fields<J>, e: E.Changes, row: Row,
                                                columns: seq<Column>, values: seq<Holder>)
    requires Lossless(codec) && WellTyped(fields) && Holds(row, codec, id, fields, e) && |columns| <= |values|
    requires forall i :: 0 <= i < |columns| ==> Fill(HolderFor(columns[i]), CellAt(row, columns[i])) == Some(values[i])
    ensures AssignColumns(codec, Blank(), columns, values) ==
              Assigned(Projected(Created(fields, e).(id := id), columns, row), None)
    decreases |columns|
  {
    hide AssignColumn, Projected, Fill, HolderFor, CellAt, Holds, WellTyped, Created, Blank;
    var node := Created(fields, e).(id := id);
    if columns == [] {
      ProjectedOnNothing(fields, e, id, row);
    } else {
      var last := |columns| - 1;
      assert columns == columns[..last] + [columns[last]];
      AssignsBack(codec, id, fields, e, row, columns[..last], values);
      AssignsOneBack(codec, id, fields, e, row, columns[..last], columns[last], values[last]);
    }
  }

  lemma {:induction false} StoredFillable<J(!new)>(codec: Codec<J>, id: int, fields: Fields<J>, e: E.Changes, c: Column)
    requires Lossless(codec) && WellTyped(fields)
    ensures Fill(HolderFor(c), StoredCell(codec, id, fields, e, c)).Some?
  {
    var v := StoredValue(fields, e, c);
    if c != ID {
      CreateFitsScan(fields, e, c);
      hide WellTyped, HolderFor;
    }
  }

  /**
   * The round trip: store what a creation specifies under any id, read any columns of the row in any
   * order, repeated or not, known or not, and assign them to a blank account. There is no error, and the
   * result is the created account as far as the columns go; with all columns it is the created account,
   * and whatever else was selected is kept beside it.
   */
  lemma {:induction false} RoundTrip<J(!new)>(codec: Codec<J>, id: int, fields: Fields<J>, e: E.Changes,
                                              edges: seq<E.EdgeSpec>,
                                              row: Row, columns: seq<Column>)
    requires Lossless(codec) && WellTyped(fields) && E.Specify(edges, E.ToAdd(e))
    requires forall c: Column :: !c.Other? ==>
               CellAt(row, c) == CellAt(Stored(codec, id, Chosen(fields, CreateOrder()), edges), c)
    ensures var node := Created(fields, e).(id := id);
            && Fillable(columns, row)
            && AssignColumns(codec, Blank(), columns, Scanned(columns, row)) ==
                Assigned(Projected(node, columns, row), None)
            && ((forall c: Column :: !c.Other? ==> c in columns) ==>
                  Projected(node, columns, row) == node.(selected := Selected(columns, row)))
  {
    hide Stored, StoredCell, AssignColumns, HolderFor, Fill, WellTyped, Created, CellAt, Blank, CreateOrder, Chosen,
      E.Specify, E.ToAdd;
    forall c: Column | !c.Other?
      ensures CellAt(row, c) == StoredCell(codec, id, fields, e, c)
    {
      StoredCells(codec, id, fields, e, edges, c);
    }
    forall i | 0 <= i < |columns|
      ensures Fill(HolderFor(columns[i]), CellAt(row, columns[i])).Some?
    {
      var c := columns[i];
      if c.Other? {
        OtherColumnKept(codec, Blank<J>(), c.name, CellAt(row, c));
      } else {
        StoredFillable(codec, id, fields, e, c);
      }
    }
    AssignsBack(codec, id, fields, e, row, columns, Scanned(columns, row));
    if forall c: Column :: !c.Other? ==> c in columns {
      ProjectedOnAll(fields, e, id, columns, row);
    }
  }

  lemma {:induction false} ProjectedOnAll<J>(fields: Fields<J>, e: E.Changes, id: int, columns: seq<Column>, row: Row)
    requires WellTyped(fields) && forall c: Column :: !c.Other? ==> c in columns
    ensures var node := Created(fields, e).(id := id);
            Projected(node, columns, row) == node.(selected := Selected(columns, row))
  {
    var node := Created(fields, e).(id := id);
    NoKeyFields(fields);
    forall c | c in node.values
      ensures c in columns
    {
      CreatedHolds(fields, e, c);
      hide Created, WellTyped, Zero, Blank;
    }
    hide Created, WellTyped, Zero, Blank;
    assert Projected(node, columns, row).values == node.values;
  }
}
