/** Compiling a filter to a three-valued SQL predicate, with a counter shared by
    the whole tree, and what the compiled predicate selects. */
module FilterCompiler {
  import opened Outcomes
  import opened Keyset
  import opened TableValues
  import opened Filters

  datatype Row = Row(id: int, user: Option<int>, created: int, updated: int, data: map<string, Json>)

  datatype Field = Created | Updated | Data(name: string, kind: ColumnType)

  datatype Op = Eq | Neq | Gt | Gte | Lt | Lte

  datatype Pred =
    | Compare(field: Field, op: Op, value: Sql)
    | IsNull(field: Field)
    | IsNotNull(field: Field)
    | All(items: seq<Pred>)
    | Any(items: seq<Pred>)

  type Schema = map<string, ColumnType>

  function Stored(row: Row, name: string): Json {
    if name in row.data then row.data[name] else JNull
  }

  function Fetch(k: Codec, f: Field, row: Row): Nullable<Sql> {
    match f
    case Created => Value(SqlTime(row.created))
    case Updated => Value(SqlTime(row.updated))
    case Data(name, kind) => Extract(k, kind, Stored(row, name))
  }

  // ------------------------------------------------- three-valued evaluation

  predicate Satisfies(k: Codec, op: Op, x: Sql, y: Sql) {
    match op
    case Eq => x == y
    case Neq => x != y
    case Gt => Less(k, y, x)
    case Gte => x == y || Less(k, y, x)
    case Lt => Less(k, x, y)
    case Lte => x == y || Less(k, x, y)
  }

  function Eval(k: Codec, p: Pred, row: Row): Truth {
    match p
    case Compare(f, op, y) =>
      var x := Fetch(k, f, row);
      if x.Null? then Unknown else Known(Satisfies(k, op, x.v, y))
    case IsNull(f) => Known(Fetch(k, f, row).Null?)
    case IsNotNull(f) => Known(!Fetch(k, f, row).Null?)
    case All(items) => EvalAll(k, items, row)
    case Any(items) => EvalAny(k, items, row)
  }

  function EvalAll(k: Codec, items: seq<Pred>, row: Row): Truth {
    if items == [] then True else And3(Eval(k, items[0], row), EvalAll(k, items[1..], row))
  }

  function EvalAny(k: Codec, items: seq<Pred>, row: Row): Truth {
    if items == [] then False else Or3(Eval(k, items[0], row), EvalAny(k, items[1..], row))
  }

  // --------------------------------------------------------------- compiling

  datatype FilterError = TooDeep | TooMany | Malformed | NoOperator | UnknownField | BadValue | BadOperator

  /** A system name stands for the system field even when a column has it too. */
  function ResolveField(schema: Schema, name: string): Option<Field> {
    if name == "created_at" then Some(Created)
    else if name == "updated_at" then Some(Updated)
    else if name in schema then Some(Data(name, schema[name]))
    else None
  }

  function KindOf(f: Field): ColumnType {
    if f.Data? then f.kind else TimeColumn
  }

  function ParseOp(op: string): Option<Op> {
    if op == "eq" then Some(Eq)
    else if op == "neq" then Some(Neq)
    else if op == "gt" then Some(Gt)
    else if op == "gte" then Some(Gte)
    else if op == "lt" then Some(Lt)
    else if op == "lte" then Some(Lte)
    else None
  }

  function ApplyOp(f: Field, op: string, value: Nullable<Sql>): Result<Pred, FilterError> {
    if value.Null? then
      if op == "eq" then Ok(IsNull(f))
      else if op == "neq" then Ok(IsNotNull(f))
      else Err(BadOperator)
    else
      match ParseOp(op)
      case Some(o) => Ok(Compare(f, o, value.v))
      case None => Err(BadOperator)
  }

  function CompileCondition(k: Codec, schema: Schema, c: Condition): Result<Pred, FilterError> {
    if c.op.None? then Err(NoOperator)
    else
      var field := ResolveField(schema, c.field);
      if field.None? then Err(UnknownField)
      else
        var value := Bind(k, KindOf(field.value), c.value);
        if value.None? then Err(BadValue) else ApplyOp(field.value, c.op.value, value.value)
  }

  datatype Compiled<T> = Compiled(result: Result<T, FilterError>, clauses: nat)

  /** Compile below a node at `depth`, with `clauses` conditions met so far. */
  function Compile(k: Codec, schema: Schema, spec: Spec, depth: nat, clauses: nat): Compiled<Pred> {
    if depth > 8 then Compiled(Err(TooDeep), clauses)
    else if spec.NotAnObject? then Compiled(Err(Malformed), clauses)
    else if !spec.conj.Absent? then
      if spec.conj.NotAList? || spec.conj.items == [] then Compiled(Err(Malformed), clauses)
      else
        var c := CompileAll(k, schema, spec.conj.items, depth + 1, clauses);
        Compiled(if c.result.Ok? then Ok(All(c.result.value)) else Err(c.result.error), c.clauses)
    else if !spec.disj.Absent? then
      if spec.disj.NotAList? || spec.disj.items == [] then Compiled(Err(Malformed), clauses)
      else
        var c := CompileAll(k, schema, spec.disj.items, depth + 1, clauses);
        Compiled(if c.result.Ok? then Ok(Any(c.result.value)) else Err(c.result.error), c.clauses)
    else if spec.condition.Some? then
      Compiled(if clauses + 1 > 64 then Err(TooMany) else CompileCondition(k, schema, spec.condition.value), clauses + 1)
    else Compiled(Err(Malformed), clauses)
  }

  /** Compile siblings in turn; the first error ends the compilation. */
  function CompileAll(k: Codec, schema: Schema, items: seq<Spec>, depth: nat, clauses: nat): Compiled<seq<Pred>> {
    if items == [] then Compiled(Ok([]), clauses)
    else
      var first := Compile(k, schema, items[0], depth, clauses);
      if first.result.Err? then Compiled(Err(first.result.error), first.clauses)
      else
        var rest := CompileAll(k, schema, items[1..], depth, first.clauses);
        Compiled(if rest.result.Ok? then Ok([first.result.value] + rest.result.value) else rest.result, rest.clauses)
  }

  /** The counter shared by all levels of one compilation. */
  class Counter {
    var clauses: nat

    constructor ()
      ensures clauses == 0
    {
      clauses := 0;
    }
  }

  method CompileFilter(k: Codec, schema: Schema, spec: Spec, depth: nat, state: Counter) returns (r: Result<Pred, FilterError>)
    modifies state
    ensures Compiled(r, state.clauses) == Compile(k, schema, spec, depth, old(state.clauses))
    decreases spec, 1
  {
    if depth > 8 {
      return Err(TooDeep);
    }
    if spec.NotAnObject? {
      return Err(Malformed);
    }
    if !spec.conj.Absent? {
      if spec.conj.NotAList? || spec.conj.items == [] {
        return Err(Malformed);
      }
      var clauses := CompileChildren(k, schema, spec.conj.items, depth + 1, state);
      return if clauses.Ok? then Ok(All(clauses.value)) else Err(clauses.error);
    }
    if !spec.disj.Absent? {
      if spec.disj.NotAList? || spec.disj.items == [] {
        return Err(Malformed);
      }
      var clauses := CompileChildren(k, schema, spec.disj.items, depth + 1, state);
      return if clauses.Ok? then Ok(Any(clauses.value)) else Err(clauses.error);
    }
    if spec.condition.Some? {
      state.clauses := state.clauses + 1;
      if state.clauses > 64 {
        return Err(TooMany);
      }
      return CompileCondition(k, schema, spec.condition.value);
    }
    return Err(Malformed);
  }

  /** The part of a compilation of siblings that is still to come. */
  ghost predicate Continued(whole: Compiled<seq<Pred>>, done: seq<Pred>, rest: Compiled<seq<Pred>>) {
    && whole.clauses == rest.clauses
    && whole.result == if rest.result.Ok? then Ok(done + rest.result.value) else rest.result
  }

  lemma ContinuedFirst(whole: Compiled<seq<Pred>>)
    ensures Continued(whole, [], whole)
  {
    if whole.result.Ok? {
      assert [] + whole.result.value == whole.result.value;
    }
  }

  lemma ContinuedNext(whole: Compiled<seq<Pred>>, done: seq<Pred>, first: Pred, rest: Compiled<seq<Pred>>, rest': Compiled<seq<Pred>>)
    requires Continued(whole, done, rest) && rest.clauses == rest'.clauses
    requires rest.result == if rest'.result.Ok? then Ok([first] + rest'.result.value) else rest'.result
    ensures Continued(whole, done + [first], rest')
  {
    if rest'.result.Ok? {
      assert done + ([first] + rest'.result.value) == (done + [first]) + rest'.result.value;
    }
  }

  lemma ContinuedError(whole: Compiled<seq<Pred>>, done: seq<Pred>, rest: Compiled<seq<Pred>>)
    requires Continued(whole, done, rest) && rest.result.Err?
    ensures whole == rest
  {
  }

  lemma ContinuedLast(whole: Compiled<seq<Pred>>, done: seq<Pred>, rest: Compiled<seq<Pred>>)
    requires Continued(whole, done, rest) && rest.result == Ok([])
    ensures whole == Compiled(Ok(done), rest.clauses)
  {
    assert done + [] == done;
  }

  method CompileChildren(k: Codec, schema: Schema, items: seq<Spec>, depth: nat, state: Counter)
    returns (r: Result<seq<Pred>, FilterError>)
    modifies state
    ensures Compiled(r, state.clauses) == CompileAll(k, schema, items, depth, old(state.clauses))
    decreases items, 0
  {
    hide Compile, Continued;
    var done := [];
    ghost var whole := CompileAll(k, schema, items, depth, state.clauses);
    assert items[0..] == items;
    ContinuedFirst(whole);
    for i := 0 to |items|
      invariant Continued(whole, done, CompileAll(k, schema, items[i..], depth, state.clauses))
    {
      ghost var before := state.clauses;
      var first := CompileFilter(k, schema, items[i], depth, state);
      assert items[i..][1..] == items[i + 1..];
      if first.Err? {
        ContinuedError(whole, done, CompileAll(k, schema, items[i..], depth, before));
        return Err(first.error);
      }
      ContinuedNext(whole, done, first.value, CompileAll(k, schema, items[i..], depth, before),
                    CompileAll(k, schema, items[i + 1..], depth, state.clauses));
      done := done + [first.value];
    }
    ContinuedLast(whole, done, CompileAll(k, schema, items[|items|..], depth, state.clauses));
    return Ok(done);
  }

  // ----------------------------------------------------- when it compiles

  /** Every part of the filter is understood, sizes aside. */
  predicate Typed(k: Codec, schema: Schema, spec: Spec) {
    && spec.Node?
    && if !spec.conj.Absent? then spec.conj.Items? && spec.conj.items != [] && TypedAll(k, schema, spec.conj.items)
       else if !spec.disj.Absent? then spec.disj.Items? && spec.disj.items != [] && TypedAll(k, schema, spec.disj.items)
       else spec.condition.Some? && TypedCondition(k, schema, spec.condition.value)
  }

  predicate TypedAll(k: Codec, schema: Schema, items: seq<Spec>) {
    items == [] || (Typed(k, schema, items[0]) && TypedAll(k, schema, items[1..]))
  }

  /** A known field, a known operator, and a value of the field's type; only
      equality and its negation may be asked of null. */
  predicate TypedCondition(k: Codec, schema: Schema, c: Condition) {
    && c.op.Some? && ParseOp(c.op.value).Some?
    && var field := ResolveField(schema, c.field);
       field.Some?
       && var value := Bind(k, KindOf(field.value), c.value);
          value.Some? && (value.value.Null? ==> c.op.value in ["eq", "neq"])
  }

  /** No node has both groups: the rule kept by validation. */
  predicate OneGroup(spec: Spec) {
    spec.Node? ==>
      && (spec.conj.Absent? || spec.disj.Absent?)
      && (spec.conj.Items? ==> OneGroupAll(spec.conj.items))
      && (spec.disj.Items? ==> OneGroupAll(spec.disj.items))
  }

  predicate OneGroupAll(items: seq<Spec>) {
    items == [] || (OneGroup(items[0]) && OneGroupAll(items[1..]))
  }

  lemma ConditionCompiles(k: Codec, schema: Schema, c: Condition)
    ensures CompileCondition(k, schema, c).Ok? <==> TypedCondition(k, schema, c)
    ensures CompileCondition(k, schema, c) != Err(TooDeep) && CompileCondition(k, schema, c) != Err(TooMany)
  {
  }

  /** The outcome of compiling a tree that is `deep` levels and `leaves`
      conditions large, at `depth` with `clauses` met so far. */
  ghost predicate Exact<T>(c: Compiled<T>, typed: bool, deep: int, leaves: nat, depth: nat, clauses: nat) {
    && (c.result.Ok? <==> typed && depth + deep <= 8 && clauses + leaves <= 64)
    && (c.result.Ok? ==> c.clauses == clauses + leaves)
    && c.clauses <= clauses + leaves
    && (c.result == Err(TooDeep) ==> depth + deep > 8)
    && (c.result == Err(TooMany) ==> clauses + leaves > 64)
  }

  lemma {:induction false} CompileIsExact(k: Codec, schema: Schema, spec: Spec, depth: nat, clauses: nat)
    requires OneGroup(spec) && clauses <= 64
    ensures Exact(Compile(k, schema, spec, depth, clauses), Typed(k, schema, spec), Depth(spec), Leaves(spec), depth, clauses)
    decreases spec, 1
  {
    hide CompileCondition, TypedCondition, CompileAll, TypedAll, LeavesAll, DepthAll, OneGroupAll;
    if depth <= 8 && spec.Node? {
      if spec.conj.Items? && spec.conj.items != [] {
        CompileAllIsExact(k, schema, spec.conj.items, depth + 1, clauses);
      } else if spec.disj.Items? && spec.disj.items != [] {
        CompileAllIsExact(k, schema, spec.disj.items, depth + 1, clauses);
      } else if spec.condition.Some? {
        ConditionCompiles(k, schema, spec.condition.value);
      }
    }
  }

  lemma {:induction false} CompileAllIsExact(k: Codec, schema: Schema, items: seq<Spec>, depth: nat, clauses: nat)
    requires OneGroupAll(items) && clauses <= 64 && 1 <= depth
    ensures items != [] ==>
      Exact(CompileAll(k, schema, items, depth, clauses), TypedAll(k, schema, items), DepthAll(items) - 1,
            LeavesAll(items), depth, clauses)
    decreases items, 0
  {
    hide Compile, Typed, Leaves, Depth;
    if items != [] {
      CompileIsExact(k, schema, items[0], depth, clauses);
      var first := Compile(k, schema, items[0], depth, clauses);
      if first.result.Ok? {
        CompileAllIsExact(k, schema, items[1..], depth, first.clauses);
      }
    }
  }

  /** A filter that passed the size check draws no limit error from the compiler,
      and the compiler accepts exactly the understood filters within the limits. */
  lemma CompilesExactly(k: Codec, schema: Schema, spec: Spec)
    requires OneGroup(spec)
    ensures Compile(k, schema, spec, 0, 0).result.Ok? <==> Typed(k, schema, spec) && WithinLimits(spec)
    ensures WithinLimits(spec) ==>
      Compile(k, schema, spec, 0, 0).result != Err(TooDeep) && Compile(k, schema, spec, 0, 0).result != Err(TooMany)
  {
    hide Compile, Typed;
    CompileIsExact(k, schema, spec, 0, 0);
  }

  // --------------------------------------------------------- what it selects

  /** The two-valued reading of a condition: anything unknown is false. */
  predicate ConditionHolds(k: Codec, schema: Schema, c: Condition, row: Row) {
    var field := ResolveField(schema, c.field);
    && field.Some? && c.op.Some? && ParseOp(c.op.value).Some?
    && var x, y := Fetch(k, field.value, row), Bind(k, KindOf(field.value), c.value);
       y.Some?
       && if y.value.Null? then (c.op.value == "eq" && x.Null?) || (c.op.value == "neq" && !x.Null?)
          else !x.Null? && Satisfies(k, ParseOp(c.op.value).value, x.v, y.value.v)
  }

  /** The two-valued reading of a filter. */
  predicate Holds(k: Codec, schema: Schema, spec: Spec, row: Row) {
    && spec.Node?
    && if spec.conj.Items? then AllHold(k, schema, spec.conj.items, row)
       else if spec.disj.Items? then AnyHolds(k, schema, spec.disj.items, row)
       else spec.condition.Some? && ConditionHolds(k, schema, spec.condition.value, row)
  }

  predicate AllHold(k: Codec, schema: Schema, items: seq<Spec>, row: Row) {
    items == [] || (Holds(k, schema, items[0], row) && AllHold(k, schema, items[1..], row))
  }

  predicate AnyHolds(k: Codec, schema: Schema, items: seq<Spec>, row: Row) {
    items != [] && (Holds(k, schema, items[0], row) || AnyHolds(k, schema, items[1..], row))
  }

  lemma ConditionSelects(k: Codec, schema: Schema, c: Condition, row: Row)
    requires CompileCondition(k, schema, c).Ok?
    ensures Eval(k, CompileCondition(k, schema, c).value, row).True? <==> ConditionHolds(k, schema, c, row)
  {
    hide Bind, Fetch, Satisfies;
  }

  /** The compiled predicate is true of exactly the rows for which the filter
      holds when read with two truth values. */
  lemma {:induction false} CompiledSelects(k: Codec, schema: Schema, spec: Spec, depth: nat, clauses: nat, row: Row)
    requires Compile(k, schema, spec, depth, clauses).result.Ok?
    ensures Eval(k, Compile(k, schema, spec, depth, clauses).result.value, row).True? <==> Holds(k, schema, spec, row)
    decreases spec, 1
  {
    hide CompileCondition, ConditionHolds;
    if !spec.conj.Absent? {
      CompiledAllSelects(k, schema, spec.conj.items, depth + 1, clauses, row);
    } else if !spec.disj.Absent? {
      CompiledAllSelects(k, schema, spec.disj.items, depth + 1, clauses, row);
    } else {
      ConditionSelects(k, schema, spec.condition.value, row);
    }
  }

  lemma {:induction false} CompiledAllSelects(k: Codec, schema: Schema, items: seq<Spec>, depth: nat, clauses: nat, row: Row)
    requires CompileAll(k, schema, items, depth, clauses).result.Ok?
    ensures EvalAll(k, CompileAll(k, schema, items, depth, clauses).result.value, row).True? <==> AllHold(k, schema, items, row)
    ensures EvalAny(k, CompileAll(k, schema, items, depth, clauses).result.value, row).True? <==> AnyHolds(k, schema, items, row)
    decreases items, 0
  {
    hide Compile, Eval, Holds;
    if items != [] {
      var first := Compile(k, schema, items[0], depth, clauses);
      CompiledSelects(k, schema, items[0], depth, clauses, row);
      CompiledAllSelects(k, schema, items[1..], depth, first.clauses, row);
      var rest := CompileAll(k, schema, items[1..], depth, first.clauses).result.value;
      assert ([first.result.value] + rest)[1..] == rest;
    }
  }
}
