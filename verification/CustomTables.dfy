/** A custom table that is written to: columns added, renamed and dropped, rows
    inserted, updated and deleted, with stored payloads rewritten along. */
module CustomTables {
  import opened Outcomes
  import opened Keyset
  import opened TableValues
  import opened FilterCompiler
  import opened TableQueries

  datatype Column = Column(id: int, name: string, kind: ColumnType, required: bool, default_: Json, position: int)

  datatype State = State(columns: seq<Column>, rows: seq<Row>)

  /** What a call may change about a column; a position orders the columns for
      display. */
  datatype Edit = Edit(name: Option<string>, required: Option<bool>, default_: Option<Json>, position: Option<int>)

  datatype TableError = ColumnExists | NotFound | RowLimit | Validation | StorageLimit

  type Payload = map<string, Json>

  // ------------------------------------------------------------------ columns

  function SchemaOf(columns: seq<Column>): Schema {
    if columns == [] then map[] else SchemaOf(columns[1..])[columns[0].name := columns[0].kind]
  }

  function Names(columns: seq<Column>): set<string> {
    set c | c in columns :: c.name
  }

  ghost predicate DistinctColumns(columns: seq<Column>) {
    forall i, j :: 0 <= i < j < |columns| ==> columns[i].id != columns[j].id && columns[i].name != columns[j].name
  }

  lemma {:induction false} SchemaMeans(columns: seq<Column>)
    requires DistinctColumns(columns)
    ensures SchemaOf(columns).Keys == Names(columns)
    ensures forall c :: c in columns ==> SchemaOf(columns)[c.name] == c.kind
  {
    if columns != [] {
      var first, rest := columns[0], columns[1..];
      assert DistinctColumns(rest);
      SchemaMeans(rest);
      assert first.name !in Names(rest);
      assert Names(columns) == Names(rest) + {first.name};
    }
  }

  /** The place of a column, or how many columns there are. */
  function PlaceOf(columns: seq<Column>, p: Column -> bool): (i: nat)
    ensures i <= |columns|
    ensures i < |columns| ==> p(columns[i])
    ensures forall j :: 0 <= j < i ==> !p(columns[j])
  {
    if columns == [] || p(columns[0]) then 0 else 1 + PlaceOf(columns[1..], p)
  }

  function NamePlace(columns: seq<Column>, name: string): nat {
    PlaceOf(columns, (c: Column) => c.name == name)
  }

  // --------------------------------------------------------------- row payloads

  /** A written value coerced to its column's type; no result is an error. */
  function Coerce(k: Codec, kind: ColumnType, required: bool, value: Json): Option<Json> {
    if value.JNull? then (if required then None else Some(JNull))
    else
      match kind
      case TextColumn => if value.JStr? then Some(value) else None
      case IntColumn => if value.JInt? then Some(value) else None
      case FloatColumn =>
        if value.JInt? then Some(JFloat(value.i as real)) else if value.JFloat? then Some(value) else None
      case BoolColumn => if value.JBool? then Some(value) else None
      case TimeColumn => if value.JStr? && k.isoTime(value.s).Some? then Some(value) else None
      case JsonColumn => Some(value)
  }

  function CoerceNamed(k: Codec, columns: seq<Column>, name: string, value: Json): Option<Json> {
    var i := NamePlace(columns, name);
    if i < |columns| then Coerce(k, columns[i].kind, columns[i].required, value) else None
  }

  /** Every key names a column whose type takes the value. */
  ghost predicate Accepts(k: Codec, columns: seq<Column>, data: Payload) {
    forall name :: name in data ==> CoerceNamed(k, columns, name, data[name]).Some?
  }

  ghost function Coerced(k: Codec, columns: seq<Column>, data: Payload): Payload
    requires Accepts(k, columns, data)
  {
    map name | name in data :: CoerceNamed(k, columns, name, data[name]).value
  }

  /** No required column is missing without a default. */
  predicate Complete(columns: seq<Column>, data: Payload) {
    forall c :: c in columns ==> c.name in data || !c.default_.JNull? || !c.required
  }

  /** The defaults of the columns that are missing. */
  function Defaults(columns: seq<Column>, data: Payload): Payload {
    if columns == [] then map[]
    else
      var last := columns[|columns| - 1];
      var rest := Defaults(columns[..|columns| - 1], data);
      if last.name !in data && !last.default_.JNull? then rest[last.name := last.default_] else rest
  }

  /** A row without a required value, or with null there, is refused. */
  predicate RequiredPresent(columns: seq<Column>, data: Payload) {
    forall c :: c in columns && c.required ==> c.name in data && !data[c.name].JNull?
  }

  method ValidateRequiredFields(data: Payload, columns: seq<Column>) returns (ok: bool)
    ensures ok <==> RequiredPresent(columns, data)
  {
    for i := 0 to |columns|
      invariant forall c :: c in columns[..i] && c.required ==> c.name in data && !data[c.name].JNull?
    {
      if columns[i].required && (columns[i].name !in data || data[columns[i].name].JNull?) {
        return false;
      }
    }
    return true;
  }

  method FillDefaults(data: Payload, columns: seq<Column>) returns (r: Option<Payload>)
    ensures r.Some? <==> Complete(columns, data)
    ensures r.Some? ==> r.value == Defaults(columns, data)
  {
    var validated: Payload := map[];
    for i := 0 to |columns|
      invariant validated == Defaults(columns[..i], data)
      invariant Complete(columns[..i], data)
    {
      assert columns[..i + 1][..i] == columns[..i];
      assert columns[..i + 1] == columns[..i] + [columns[i]];
      if columns[i].name !in data {
        if !columns[i].default_.JNull? {
          validated := validated[columns[i].name := columns[i].default_];
        } else if columns[i].required {
          return None;
        }
      }
    }
    assert columns[..|columns|] == columns;
    return Some(validated);
  }

  /** `validated` holds `start` and the values of all sent keys but `keys`. */
  ghost predicate CoercedBut(k: Codec, columns: seq<Column>, data: Payload, start: Payload, keys: set<string>, validated: Payload) {
    && keys <= data.Keys
    && (forall name :: name in data && name !in keys ==> CoerceNamed(k, columns, name, data[name]).Some?)
    && validated.Keys == start.Keys + (data.Keys - keys)
    && forall name :: name in validated ==>
         validated[name] == if name in data && name !in keys then CoerceNamed(k, columns, name, data[name]).value else start[name]
  }

  lemma CoercedNext(k: Codec, columns: seq<Column>, data: Payload, start: Payload, keys: set<string>, validated: Payload, key: string)
    requires CoercedBut(k, columns, data, start, keys, validated) && key in keys
    requires CoerceNamed(k, columns, key, data[key]).Some?
    ensures CoercedBut(k, columns, data, start, keys - {key}, validated[key := CoerceNamed(k, columns, key, data[key]).value])
  {
    hide CoerceNamed;
  }

  lemma CoercedEvery(k: Codec, columns: seq<Column>, data: Payload, start: Payload, validated: Payload)
    requires CoercedBut(k, columns, data, start, {}, validated)
    ensures Accepts(k, columns, data) && validated == start + Coerced(k, columns, data)
  {
    hide CoerceNamed;
  }

  /** Validate each key and value that was sent, on top of `start`. */
  method CoerceAll(k: Codec, data: Payload, columns: seq<Column>, start: Payload) returns (r: Option<Payload>)
    ensures r.Some? <==> Accepts(k, columns, data)
    ensures r.Some? ==> r.value == start + Coerced(k, columns, data)
  {
    hide CoerceNamed, Coerced;
    var validated, keys := start, data.Keys;
    while keys != {}
      invariant CoercedBut(k, columns, data, start, keys, validated)
    {
      assert keys <= data.Keys;
      hide CoercedBut;
      var key :| key in keys;
      var value := CoerceNamed(k, columns, key, data[key]);
      if value.None? {
        return None;
      }
      CoercedNext(k, columns, data, start, keys, validated, key);
      validated, keys := validated[key := value.value], keys - {key};
    }
    CoercedEvery(k, columns, data, start, validated);
    return Some(validated);
  }

  ghost function Completed(k: Codec, columns: seq<Column>, data: Payload): Payload
    requires Accepts(k, columns, data)
  {
    Defaults(columns, data) + Coerced(k, columns, data)
  }

  method ValidateRowData(k: Codec, data: Payload, columns: seq<Column>) returns (r: Option<Payload>)
    ensures r.Some? <==> Complete(columns, data) && Accepts(k, columns, data)
    ensures r.Some? ==> r.value == Completed(k, columns, data)
  {
    hide Accepts, Coerced, Defaults, Complete;
    var start := FillDefaults(data, columns);
    if start.None? {
      return None;
    }
    r := CoerceAll(k, data, columns, start.value);
  }

  // ----------------------------------------------------------------- the steps

  /** What the application's tables take up, as measured, and its limit. */
  datatype Storage = Storage(used: int, limit: int)

  /** Bytes that shrink a row or leave its size are always admitted. */
  predicate Room(storage: Storage, additional: int) {
    additional <= 0 || storage.used + additional <= storage.limit
  }

  /** One call; `id`s of new columns and rows are drawn by the caller. */
  datatype Step =
    | Add(column: Column, position: Option<int>)
    | Change(columnId: int, edit: Edit)
    | Drop(columnId: int)
    | InsertStep(id: int, user: Option<int>, now: int, data: Payload, storage: Storage)
    | UpdateStep(id: int, asUser: Option<int>, now: int, data: Payload, storage: Storage)
    | DeleteStep(id: int, asUser: Option<int>)

  function ColumnPlace(columns: seq<Column>, id: int): nat {
    PlaceOf(columns, (c: Column) => c.id == id)
  }

  function RowPlace(rows: seq<Row>, id: int, user: Option<int>): (i: nat)
    ensures i <= |rows|
    ensures i < |rows| ==> rows[i].id == id
  {
    if rows == [] || (rows[0].id == id && (user.None? || rows[0].user == user)) then 0
    else 1 + RowPlace(rows[1..], id, user)
  }

  function Changed(c: Column, edit: Edit): Column {
    Column(c.id, if edit.name.Some? then edit.name.value else c.name, c.kind,
           if edit.required.Some? then edit.required.value else c.required,
           if edit.default_.Some? then edit.default_.value else c.default_,
           if edit.position.Some? then edit.position.value else c.position)
  }

  function Renaming(name: string): Edit { Edit(Some(name), None, None, None) }

  function MaxPosition(columns: seq<Column>): (m: int)
    requires columns != []
    ensures forall c :: c in columns ==> c.position <= m
    ensures exists c :: c in columns && c.position == m
  {
    if |columns| == 1 then columns[0].position
    else
      var rest := MaxPosition(columns[1..]);
      if columns[0].position > rest then columns[0].position else rest
  }

  /** Without a position a column comes after all others. */
  function PositionFor(columns: seq<Column>, position: Option<int>): (p: int)
    ensures position.None? ==> forall c :: c in columns ==> c.position < p
    ensures position.Some? ==> p == position.value
  {
    if position.Some? then position.value
    else if columns == [] then 1
    else MaxPosition(columns) + 1
  }

  function DropKey(row: Row, name: string): Row { row.(data := row.data - {name}) }

  function Without<T>(s: seq<T>, i: nat): seq<T>
    requires i < |s|
  {
    s[..i] + s[i + 1..]
  }

  ghost function AddTo(s: State, c: Column, position: Option<int>): Result<State, TableError> {
    if NamePlace(s.columns, c.name) < |s.columns| then Err(ColumnExists)
    else Ok(s.(columns := s.columns + [c.(position := PositionFor(s.columns, position))]))
  }

  ghost function ChangeIn(s: State, id: int, edit: Edit): Result<State, TableError> {
    var i := ColumnPlace(s.columns, id);
    if i == |s.columns| then Err(NotFound)
    else
      var c := s.columns[i];
      var c' := Changed(c, edit);
      var columns' := s.columns[i := c'];
      if c'.name == c.name then Ok(State(columns', s.rows))
      else if NamePlace(s.columns, c'.name) < |s.columns| then Err(ColumnExists)
      else Ok(State(columns', MapRows(r => RenameKey(r, c.name, c'.name), s.rows)))
  }

  ghost function DropFrom(s: State, id: int): Result<State, TableError> {
    var i := ColumnPlace(s.columns, id);
    if i == |s.columns| then Err(NotFound)
    else Ok(State(Without(s.columns, i), MapRows(r => DropKey(r, s.columns[i].name), s.rows)))
  }

  ghost function InsertInto(k: Codec, s: State, id: int, user: Option<int>, now: int, data: Payload, storage: Storage): Result<State, TableError> {
    if |s.rows| >= 10000 then Err(RowLimit)
    else if !(Complete(s.columns, data) && Accepts(k, s.columns, data)) then Err(Validation)
    else if !Room(storage, k.payloadSize(Completed(k, s.columns, data))) then Err(StorageLimit)
    else Ok(s.(rows := s.rows + [Row(id, user, now, now, Completed(k, s.columns, data))]))
  }

  ghost function UpdateIn(k: Codec, s: State, id: int, user: Option<int>, now: int, data: Payload, storage: Storage): Result<State, TableError> {
    var i := RowPlace(s.rows, id, user);
    if i == |s.rows| then Err(NotFound)
    else if !Accepts(k, s.columns, data) then Err(Validation)
    else
      var merged := s.rows[i].data + Coerced(k, s.columns, data);
      if !RequiredPresent(s.columns, merged) then Err(Validation)
      else if !Room(storage, k.payloadSize(merged) - k.payloadSize(s.rows[i].data)) then Err(StorageLimit)
      else Ok(s.(rows := s.rows[i := s.rows[i].(data := merged, updated := now)]))
  }

  ghost function DeleteFrom(s: State, id: int, user: Option<int>): Result<State, TableError> {
    var i := RowPlace(s.rows, id, user);
    if i == |s.rows| then Err(NotFound) else Ok(s.(rows := Without(s.rows, i)))
  }

  ghost function Apply(k: Codec, s: State, step: Step): Result<State, TableError> {
    match step
    case Add(c, position) => AddTo(s, c, position)
    case Change(id, edit) => ChangeIn(s, id, edit)
    case Drop(id) => DropFrom(s, id)
    case InsertStep(id, user, now, data, storage) => InsertInto(k, s, id, user, now, data, storage)
    case UpdateStep(id, user, now, data, storage) => UpdateIn(k, s, id, user, now, data, storage)
    case DeleteStep(id, user) => DeleteFrom(s, id, user)
  }

  ghost function After(k: Codec, s: State, step: Step): State {
    var r := Apply(k, s, step);
    if r.Ok? then r.value else s
  }

  ghost function Outcome(r: Result<State, TableError>): Result<(), TableError> {
    if r.Ok? then Ok(()) else Err(r.error)
  }

  // ----------------------------------------------------------------- the table

  class Table {
    var columns: seq<Column>
    var rows: seq<Row>

    constructor ()
      ensures Contents() == State([], [])
    {
      columns, rows := [], [];
    }

    ghost function Contents(): State
      reads this
    {
      State(columns, rows)
    }

    method AddColumn(column: Column, position: Option<int>) returns (r: Result<(), TableError>)
      modifies this
      ensures r == Outcome(AddTo(old(Contents()), column, position))
      ensures r.Ok? ==> Contents() == AddTo(old(Contents()), column, position).value
      ensures r.Err? ==> Contents() == old(Contents())
    {
      if NamePlace(columns, column.name) < |columns| {
        return Err(ColumnExists);
      }
      columns := columns + [column.(position := PositionFor(columns, position))];
      return Ok(());
    }

    method UpdateColumn(id: int, edit: Edit) returns (r: Result<(), TableError>)
      modifies this
      ensures r == Outcome(ChangeIn(old(Contents()), id, edit))
      ensures r.Ok? ==> Contents() == ChangeIn(old(Contents()), id, edit).value
      ensures r.Err? ==> Contents() == old(Contents())
    {
      var i := ColumnPlace(columns, id);
      if i == |columns| {
        return Err(NotFound);
      }
      var column, renamedFrom := columns[i], None;
      if edit.name.Some? && edit.name.value != column.name {
        if NamePlace(columns, edit.name.value) < |columns| {
          return Err(ColumnExists);
        }
        renamedFrom := Some(column.name);
        column := column.(name := edit.name.value);
      }
      if edit.required.Some? {
        column := column.(required := edit.required.value);
      }
      if edit.default_.Some? {
        column := column.(default_ := edit.default_.value);
      }
      if edit.position.Some? {
        column := column.(position := edit.position.value);
      }
      columns := columns[i := column];
      if renamedFrom.Some? {
        RenameRowKey(renamedFrom.value, column.name);
      }
      return Ok(());
    }

    method RenameRowKey(old_: string, new_: string)
      modifies this`rows
      ensures rows == MapRows(r => RenameKey(r, old_, new_), old(rows))
    {
      rows := MapRows(r => RenameKey(r, old_, new_), rows);
    }

    method DropRowKey(name: string)
      modifies this`rows
      ensures rows == MapRows(r => DropKey(r, name), old(rows))
    {
      rows := MapRows(r => DropKey(r, name), rows);
    }

    method DeleteColumn(id: int) returns (r: Result<(), TableError>)
      modifies this
      ensures r == Outcome(DropFrom(old(Contents()), id))
      ensures r.Ok? ==> Contents() == DropFrom(old(Contents()), id).value
      ensures r.Err? ==> Contents() == old(Contents())
    {
      var i := ColumnPlace(columns, id);
      if i == |columns| {
        return Err(NotFound);
      }
      var dropped := columns[i].name;
      columns := Without(columns, i);
      DropRowKey(dropped);
      return Ok(());
    }

    method InsertRow(k: Codec, id: int, user: Option<int>, now: int, data: Payload, storage: Storage) returns (r: Result<(), TableError>)
      modifies this
      ensures r == Outcome(InsertInto(k, old(Contents()), id, user, now, data, storage))
      ensures r.Ok? ==> Contents() == InsertInto(k, old(Contents()), id, user, now, data, storage).value
      ensures r.Err? ==> Contents() == old(Contents())
    {
      hide Complete, Accepts, Completed;
      if |rows| >= 10000 {
        return Err(RowLimit);
      }
      var validated := ValidateRowData(k, data, columns);
      if validated.None? {
        return Err(Validation);
      }
      if !Room(storage, k.payloadSize(validated.value)) {
        return Err(StorageLimit);
      }
      rows := rows + [Row(id, user, now, now, validated.value)];
      return Ok(());
    }

    method UpdateRow(k: Codec, id: int, user: Option<int>, now: int, data: Payload, storage: Storage) returns (r: Result<(), TableError>)
      modifies this
      ensures r == Outcome(UpdateIn(k, old(Contents()), id, user, now, data, storage))
      ensures r.Ok? ==> Contents() == UpdateIn(k, old(Contents()), id, user, now, data, storage).value
      ensures r.Err? ==> Contents() == old(Contents())
    {
      hide Accepts, Coerced, RequiredPresent;
      var i := RowPlace(rows, id, user);
      if i == |rows| {
        return Err(NotFound);
      }
      var partial := CoerceAll(k, data, columns, map[]);
      if partial.None? {
        return Err(Validation);
      }
      assert map[] + Coerced(k, columns, data) == Coerced(k, columns, data);
      var merged := rows[i].data + partial.value;
      var present := ValidateRequiredFields(merged, columns);
      if !present {
        return Err(Validation);
      }
      if !Room(storage, k.payloadSize(merged) - k.payloadSize(rows[i].data)) {
        return Err(StorageLimit);
      }
      rows := rows[i := rows[i].(data := merged, updated := now)];
      return Ok(());
    }

    method DeleteRow(id: int, user: Option<int>) returns (r: Result<(), TableError>)
      modifies this
      ensures r == Outcome(DeleteFrom(old(Contents()), id, user))
      ensures r.Ok? ==> Contents() == DeleteFrom(old(Contents()), id, user).value
      ensures r.Err? ==> Contents() == old(Contents())
    {
      var i := RowPlace(rows, id, user);
      if i == |rows| {
        return Err(NotFound);
      }
      rows := Without(rows, i);
      return Ok(());
    }

    /** One page: the filter is compiled first, then the sort field is looked up,
        then the cursor is bound. */
    method QueryTable(k: Codec, q: Query, cursor: Option<Cursor>) returns (r: Result<Page<Row, Cursor>, QueryError>)
      requires q.limit >= 1
      ensures r == QueryRows(k, SchemaOf(columns), rows, q, cursor)
    {
      hide Compile, FetchPage, ListingBy, Matching, Bind;
      var schema, filter := SchemaOf(columns), None;
      if q.filter.Some? {
        var state := new Counter();
        var compiled := CompileFilter(k, schema, q.filter.value, 0, state);
        if compiled.Err? {
          return Err(InvalidFilter(compiled.error));
        }
        filter := Some(compiled.value);
      }
      var f := ResolveSort(schema, q.sortField);
      if f.None? {
        return Err(InvalidSort);
      }
      if cursor.Some? && Bind(k, KindOf(f.value), cursor.value.v).None? {
        return Err(InvalidCursor);
      }
      return Ok(FetchPage(ListingBy(k, schema, q.sortField, f.value, q.desc), Matching(k, q.user, filter, rows), cursor, q.limit));
    }
  }

  // ----------------------------------------------------------------- every run

  /** Ids of new columns and rows are unused. */
  ghost predicate Fresh(s: State, step: Step) {
    match step
    case Add(c, _) => forall d :: d in s.columns ==> d.id != c.id
    case InsertStep(id, _, _, _, _) => forall r :: r in s.rows ==> r.id != id
    case _ => true
  }

  ghost predicate FreshRun(k: Codec, s: State, steps: seq<Step>)
    decreases steps
  {
    steps == [] || (Fresh(s, steps[0]) && FreshRun(k, After(k, s, steps[0]), steps[1..]))
  }

  ghost function Run(k: Codec, s: State, steps: seq<Step>): State
    decreases steps
  {
    if steps == [] then s else Run(k, After(k, s, steps[0]), steps[1..])
  }

  /** Distinct column names, distinct rows, and no stored key that is not the name
      of a column. */
  ghost predicate Declared(s: State) {
    && DistinctColumns(s.columns) && DistinctIds(s.rows) && |s.rows| <= 10000
    && forall r :: r in s.rows ==> r.data.Keys <= Names(s.columns)
  }

  lemma NamesAt(columns: seq<Column>, name: string)
    ensures name in Names(columns) <==> NamePlace(columns, name) < |columns|
  {
    if name in Names(columns) {
      var c :| c in columns && c.name == name;
    }
  }

  lemma CoercedKeys(k: Codec, columns: seq<Column>, data: Payload)
    requires Accepts(k, columns, data)
    ensures Coerced(k, columns, data).Keys <= Names(columns)
  {
    forall name | name in data
      ensures name in Names(columns)
    {
      NamesAt(columns, name);
    }
  }

  lemma {:induction false} DefaultsKeys(columns: seq<Column>, data: Payload)
    ensures Defaults(columns, data).Keys <= Names(columns)
  {
    if columns != [] {
      DefaultsKeys(columns[..|columns| - 1], data);
      assert Names(columns[..|columns| - 1]) <= Names(columns);
    }
  }

  lemma AddKeeps(s: State, c: Column, position: Option<int>)
    requires Declared(s) && AddTo(s, c, position).Ok? && forall d :: d in s.columns ==> d.id != c.id
    ensures Declared(AddTo(s, c, position).value)
  {
    NamesAt(s.columns, c.name);
    var added := c.(position := PositionFor(s.columns, position));
    var columns' := s.columns + [added];
    assert Names(columns') == Names(s.columns) + {c.name};
    forall i, j | 0 <= i < j < |columns'|
      ensures columns'[i].id != columns'[j].id && columns'[i].name != columns'[j].name
    {
      assert columns'[i] in s.columns;
    }
  }

  lemma NamesUpdated(columns: seq<Column>, i: nat, c: Column)
    requires DistinctColumns(columns) && i < |columns|
    ensures Names(columns[i := c]) == Names(columns) - {columns[i].name} + {c.name}
  {
    var columns' := columns[i := c];
    forall name
      ensures name in Names(columns') <==> name in Names(columns) - {columns[i].name} + {c.name}
    {
      if name in Names(columns') {
        var d :| d in columns' && d.name == name;
        var j :| 0 <= j < |columns'| && columns'[j] == d;
        assert j != i ==> columns[j] in columns;
      }
      if name in Names(columns) && name != columns[i].name {
        var d :| d in columns && d.name == name;
        var j :| 0 <= j < |columns| && columns[j] == d;
        assert columns'[j] == d;
      }
      if name == c.name {
        assert columns'[i] in columns';
      }
    }
  }

  lemma RowsMapped(f: Row -> Row, rows: seq<Row>)
    requires forall r :: f(r).id == r.id
    ensures DistinctIds(rows) ==> DistinctIds(MapRows(f, rows))
    ensures forall r' :: r' in MapRows(f, rows) ==> exists r :: r in rows && r' == f(r)
  {
    forall r' | r' in MapRows(f, rows)
      ensures exists r :: r in rows && r' == f(r)
    {
      var i :| 0 <= i < |rows| && MapRows(f, rows)[i] == r';
      assert rows[i] in rows;
    }
  }

  lemma ChangeKeeps(s: State, id: int, edit: Edit)
    requires Declared(s) && ChangeIn(s, id, edit).Ok?
    ensures Declared(ChangeIn(s, id, edit).value)
  {
    hide PlaceOf, MapRows, Names;
    var i := ColumnPlace(s.columns, id);
    var c := s.columns[i];
    var c' := Changed(c, edit);
    var columns' := s.columns[i := c'];
    NamesUpdated(s.columns, i, c');
    if c'.name != c.name {
      NamesAt(s.columns, c'.name);
      RowsMapped(r => RenameKey(r, c.name, c'.name), s.rows);
    }
    NamesOf(s.columns);
  }

  lemma NamesOf(columns: seq<Column>)
    ensures forall i :: 0 <= i < |columns| ==> columns[i].name in Names(columns)
  {
  }

  lemma NamesWithout(columns: seq<Column>, i: nat)
    requires DistinctColumns(columns) && i < |columns|
    ensures DistinctColumns(Without(columns, i))
    ensures Names(Without(columns, i)) == Names(columns) - {columns[i].name}
  {
    var columns' := Without(columns, i);
    assert forall j :: 0 <= j < |columns'| ==> columns'[j] == columns[if j < i then j else j + 1];
    forall c | c in columns && c.name != columns[i].name
      ensures c in columns'
    {
      var j :| 0 <= j < |columns| && columns[j] == c;
      assert columns'[if j < i then j else j - 1] == c;
    }
  }

  lemma DropKeeps(s: State, id: int)
    requires Declared(s) && DropFrom(s, id).Ok?
    ensures Declared(DropFrom(s, id).value)
  {
    hide PlaceOf, MapRows, Names;
    var i := ColumnPlace(s.columns, id);
    NamesWithout(s.columns, i);
    RowsMapped(r => DropKey(r, s.columns[i].name), s.rows);
  }

  lemma RowWrites(k: Codec, s: State, step: Step)
    requires Declared(s) && Fresh(s, step) && Apply(k, s, step).Ok?
    requires step.InsertStep? || step.UpdateStep? || step.DeleteStep?
    ensures Declared(Apply(k, s, step).value)
  {
    hide Accepts, Complete, Coerced, Defaults, RequiredPresent, RowPlace, Names;
    match step
    case InsertStep(id, user, now, data, storage) =>
      CoercedKeys(k, s.columns, data);
      DefaultsKeys(s.columns, data);
    case UpdateStep(id, user, now, data, storage) =>
      CoercedKeys(k, s.columns, data);
      assert s.rows[RowPlace(s.rows, id, user)] in s.rows;
    case DeleteStep(id, user) =>
  }

  lemma StepKeeps(k: Codec, s: State, step: Step)
    requires Declared(s) && Fresh(s, step)
    ensures Declared(After(k, s, step))
  {
    hide Declared, AddTo, ChangeIn, DropFrom, InsertInto, UpdateIn, DeleteFrom;
    if Apply(k, s, step).Ok? {
      match step
      case Add(c, position) => AddKeeps(s, c, position);
      case Change(id, edit) => ChangeKeeps(s, id, edit);
      case Drop(id) => DropKeeps(s, id);
      case InsertStep(_, _, _, _, _) => RowWrites(k, s, step);
      case UpdateStep(_, _, _, _, _) => RowWrites(k, s, step);
      case DeleteStep(_, _) => RowWrites(k, s, step);
    }
  }

  /** In every run the stored keys stay within the table's distinct column names. */
  lemma {:induction false} RunKeepsDeclared(k: Codec, s: State, steps: seq<Step>)
    requires Declared(s) && FreshRun(k, s, steps)
    ensures Declared(Run(k, s, steps))
    decreases steps
  {
    hide Declared, Fresh, Apply;
    if steps != [] {
      StepKeeps(k, s, steps[0]);
      RunKeepsDeclared(k, After(k, s, steps[0]), steps[1..]);
    }
  }

  // ------------------------------------------------- stored values keep their types

  /** A value of a column's type: one that the write path lets through as it is. */
  predicate OfType(k: Codec, kind: ColumnType, j: Json) { Coerce(k, kind, false, j) == Some(j) }

  ghost predicate TypedRow(k: Codec, columns: seq<Column>, data: Payload) {
    forall c :: c in columns && c.name in data ==> OfType(k, c.kind, data[c.name])
  }

  ghost predicate TypedColumn(k: Codec, c: Column) { c.name != "" && OfType(k, c.kind, c.default_) }

  /** Columns have names and defaults of their type. */
  ghost predicate TypedStep(k: Codec, s: State, step: Step) {
    match step
    case Add(c, _) => TypedColumn(k, c)
    case Change(id, edit) =>
      forall c :: c in s.columns && c.id == id ==> TypedColumn(k, Changed(c, edit))
    case _ => true
  }

  ghost predicate TypedRun(k: Codec, s: State, steps: seq<Step>)
    decreases steps
  {
    steps == [] || (TypedStep(k, s, steps[0]) && TypedRun(k, After(k, s, steps[0]), steps[1..]))
  }

  ghost predicate Typed(k: Codec, s: State) {
    && (forall c :: c in s.columns ==> TypedColumn(k, c))
    && (forall r :: r in s.rows ==> TypedRow(k, s.columns, r.data))
  }

  lemma CoerceTypes(k: Codec, kind: ColumnType, required: bool, value: Json)
    requires Coerce(k, kind, required, value).Some?
    ensures OfType(k, kind, Coerce(k, kind, required, value).value)
  {
  }

  lemma NameFound(columns: seq<Column>, i: nat)
    requires DistinctColumns(columns) && i < |columns|
    ensures NamePlace(columns, columns[i].name) == i
  {
  }

  lemma CoercedAt(k: Codec, columns: seq<Column>, data: Payload, i: nat)
    requires DistinctColumns(columns) && Accepts(k, columns, data)
    requires i < |columns| && columns[i].name in data
    ensures OfType(k, columns[i].kind, Coerced(k, columns, data)[columns[i].name])
  {
    hide Coerce, OfType, NamePlace, DistinctColumns;
    var c := columns[i];
    NameFound(columns, i);
    assert CoerceNamed(k, columns, c.name, data[c.name]).Some?;
    CoerceTypes(k, c.kind, c.required, data[c.name]);
  }

  lemma CoercedTyped(k: Codec, columns: seq<Column>, data: Payload)
    requires DistinctColumns(columns) && Accepts(k, columns, data)
    ensures TypedRow(k, columns, Coerced(k, columns, data))
  {
    hide OfType, Accepts, DistinctColumns;
    forall c | c in columns && c.name in Coerced(k, columns, data)
      ensures OfType(k, c.kind, Coerced(k, columns, data)[c.name])
    {
      var i :| 0 <= i < |columns| && columns[i] == c;
      CoercedAt(k, columns, data, i);
    }
  }

  lemma LastIsNew(columns: seq<Column>)
    requires DistinctColumns(columns) && columns != []
    ensures columns[|columns| - 1].name !in Names(columns[..|columns| - 1])
  {
  }

  lemma {:induction false} DefaultAt(columns: seq<Column>, data: Payload, i: nat)
    requires DistinctColumns(columns) && i < |columns| && columns[i].name in Defaults(columns, data)
    ensures Defaults(columns, data)[columns[i].name] == columns[i].default_
    decreases columns
  {
    var rest := columns[..|columns| - 1];
    DefaultsKeys(rest, data);
    LastIsNew(columns);
    hide Names;
    if i < |rest| {
      assert rest[i] == columns[i];
      DefaultAt(rest, data, i);
    }
  }

  lemma DefaultsTyped(k: Codec, columns: seq<Column>, data: Payload)
    requires DistinctColumns(columns) && forall c :: c in columns ==> TypedColumn(k, c)
    ensures TypedRow(k, columns, Defaults(columns, data))
  {
    hide OfType, Defaults, DistinctColumns;
    forall c | c in columns && c.name in Defaults(columns, data)
      ensures OfType(k, c.kind, Defaults(columns, data)[c.name])
    {
      var i :| 0 <= i < |columns| && columns[i] == c;
      DefaultAt(columns, data, i);
      assert TypedColumn(k, c);
    }
  }

  lemma MergedTyped(k: Codec, columns: seq<Column>, a: Payload, b: Payload)
    requires TypedRow(k, columns, a) && TypedRow(k, columns, b)
    ensures TypedRow(k, columns, a + b)
  {
    hide OfType;
  }

  lemma RenamedTyped(k: Codec, columns: seq<Column>, i: nat, c': Column, row: Row)
    requires DistinctColumns(columns) && i < |columns| && TypedRow(k, columns, row.data) && c'.kind == columns[i].kind
    requires c'.name != columns[i].name && c'.name !in Names(columns) && c'.name !in row.data
    ensures TypedRow(k, columns[i := c'], RenameKey(row, columns[i].name, c'.name).data)
  {
    hide OfType;
    var columns' := columns[i := c'];
    var data' := RenameKey(row, columns[i].name, c'.name).data;
    forall d | d in columns' && d.name in data'
      ensures OfType(k, d.kind, data'[d.name])
    {
      var j :| 0 <= j < |columns'| && columns'[j] == d;
      assert columns[j] in columns && columns[i] in columns;
    }
  }

  lemma ChangeTyped(k: Codec, s: State, id: int, edit: Edit)
    requires Declared(s) && Typed(k, s) && ChangeIn(s, id, edit).Ok?
    requires TypedStep(k, s, Change(id, edit))
    ensures Typed(k, ChangeIn(s, id, edit).value)
  {
    hide PlaceOf, MapRows, Names, OfType, TypedColumn, RenameKey;
    var i := ColumnPlace(s.columns, id);
    var c := s.columns[i];
    var c' := Changed(c, edit);
    assert c in s.columns;
    var columns' := s.columns[i := c'];
    if c'.name != c.name {
      NamesAt(s.columns, c'.name);
      var f := (r: Row) => RenameKey(r, c.name, c'.name);
      forall j | 0 <= j < |s.rows|
        ensures TypedRow(k, columns', f(s.rows[j]).data)
      {
        assert s.rows[j] in s.rows;
        RenamedTyped(k, s.columns, i, c', s.rows[j]);
      }
    } else {
      forall r | r in s.rows
        ensures TypedRow(k, columns', r.data)
      {
      }
    }
  }

  lemma DropTyped(k: Codec, s: State, id: int)
    requires Declared(s) && Typed(k, s) && DropFrom(s, id).Ok?
    ensures Typed(k, DropFrom(s, id).value)
  {
    hide PlaceOf, MapRows, Names, OfType, TypedColumn;
    var i := ColumnPlace(s.columns, id);
    assert forall c :: c in Without(s.columns, i) ==> c in s.columns;
    forall j | 0 <= j < |s.rows|
      ensures TypedRow(k, Without(s.columns, i), DropKey(s.rows[j], s.columns[i].name).data)
    {
      assert s.rows[j] in s.rows;
    }
  }

  lemma AddTyped(k: Codec, s: State, c: Column, position: Option<int>)
    requires Declared(s) && Typed(k, s) && AddTo(s, c, position).Ok? && TypedColumn(k, c)
    ensures Typed(k, AddTo(s, c, position).value)
  {
    hide PlaceOf, OfType, Names, PositionFor;
    NamesAt(s.columns, c.name);
  }

  lemma WriteTyped(k: Codec, s: State, step: Step)
    requires Declared(s) && Typed(k, s) && Apply(k, s, step).Ok?
    requires step.InsertStep? || step.UpdateStep? || step.DeleteStep?
    ensures Typed(k, Apply(k, s, step).value)
  {
    hide Accepts, Complete, Coerced, Defaults, RequiredPresent, RowPlace, Names, OfType, TypedColumn, TypedRow;
    match step
    case InsertStep(id, user, now, data, storage) =>
      CoercedTyped(k, s.columns, data);
      DefaultsTyped(k, s.columns, data);
      MergedTyped(k, s.columns, Defaults(s.columns, data), Coerced(k, s.columns, data));
    case UpdateStep(id, user, now, data, storage) =>
      CoercedTyped(k, s.columns, data);
      var row := s.rows[RowPlace(s.rows, id, user)];
      assert row in s.rows;
      MergedTyped(k, s.columns, row.data, Coerced(k, s.columns, data));
    case DeleteStep(id, user) =>
  }

  lemma StepTyped(k: Codec, s: State, step: Step)
    requires Declared(s) && Typed(k, s) && TypedStep(k, s, step)
    ensures Typed(k, After(k, s, step))
  {
    hide Declared, Typed, AddTo, ChangeIn, DropFrom, InsertInto, UpdateIn, DeleteFrom;
    if Apply(k, s, step).Ok? {
      match step
      case Add(c, position) => AddTyped(k, s, c, position);
      case Change(id, edit) => ChangeTyped(k, s, id, edit);
      case Drop(id) => DropTyped(k, s, id);
      case InsertStep(_, _, _, _, _) => WriteTyped(k, s, step);
      case UpdateStep(_, _, _, _, _) => WriteTyped(k, s, step);
      case DeleteStep(_, _) => WriteTyped(k, s, step);
    }
  }

  lemma {:induction false} RunTyped(k: Codec, s: State, steps: seq<Step>)
    requires Declared(s) && Typed(k, s) && FreshRun(k, s, steps) && TypedRun(k, s, steps)
    ensures Declared(Run(k, s, steps)) && Typed(k, Run(k, s, steps))
    decreases steps
  {
    hide Declared, Fresh, Apply, Typed, TypedStep;
    if steps != [] {
      StepKeeps(k, s, steps[0]);
      StepTyped(k, s, steps[0]);
      RunTyped(k, After(k, s, steps[0]), steps[1..]);
    }
  }

  /** Whatever was done to a table, following the cursors of a query on it lists
      every selected row once and in order, unless a column has taken the system
      name that the query sorts by, when the sort values of the selected rows read
      back. */
  lemma EveryTablePages(k: Codec, steps: seq<Step>, q: Query)
    requires Sound(k) && q.limit >= 1 && FreshRun(k, State([], []), steps)
    requires
      var s := Run(k, State([], []), steps);
      var schema := SchemaOf(s.columns);
      && "" !in schema && CompiledFilter(k, schema, q.filter).Ok?
      && ResolveSort(schema, q.sortField).Some? && !Shadowed(schema, q.sortField)
      && forall r :: r in Matching(k, q.user, CompiledFilter(k, schema, q.filter).value, s.rows) ==>
           Readable(k, ResolveSort(schema, q.sortField).value, r)
    ensures
      var s := Run(k, State([], []), steps);
      ListsAll(k, SchemaOf(s.columns), s.rows, q)
  {
    hide Run, Sound, ListsAll, CompiledFilter, ResolveSort, Shadowed, FreshRun, SchemaOf, Matching, Readable;
    RunKeepsDeclared(k, State([], []), steps);
    var s := Run(k, State([], []), steps);
    MatchingDistinct(k, q.user, CompiledFilter(k, SchemaOf(s.columns), q.filter).value, s.rows);
    QueryListsAll(k, SchemaOf(s.columns), s.rows, q);
  }

  lemma MatchingDistinct(k: Codec, user: Option<int>, filter: Option<Pred>, rows: seq<Row>)
    requires DistinctIds(rows)
    ensures DistinctIds(Matching(k, user, filter, rows))
  {
    WhereDistinct(r => Selected(k, user, filter, r), rows);
  }

  // ------------------------------------------------------ which columns page safely

  /** The query sorts by a column of a type. */
  ghost predicate SortsBy(k: Codec, s: State, q: Query, kind: ColumnType) {
    var f := ResolveSort(SchemaOf(s.columns), q.sortField);
    && CompiledFilter(k, SchemaOf(s.columns), q.filter).Ok?
    && f.Some? && f.value.Data? && f.value.kind == kind
  }

  /** Queries sorted by columns of a type list everything, in every table that any
      run with defaults of their types reaches. */
  ghost predicate TablesPage(k: Codec, kind: ColumnType) {
    forall steps: seq<Step>, q: Query ::
      && q.limit >= 1 && FreshRun(k, State([], []), steps) && TypedRun(k, State([], []), steps)
      && SortsBy(k, Run(k, State([], []), steps), q, kind) ==>
        var s := Run(k, State([], []), steps);
        ListsAll(k, SchemaOf(s.columns), s.rows, q)
  }

  /** They do exactly when every value that the write path lets through reads back
      from a cursor. */
  lemma TablesPageExactly(k: Codec, kind: ColumnType)
    requires Sound(k)
    ensures TablesPage(k, kind) <==> forall j: Json :: OfType(k, kind, j) ==> ReadsBack(k, kind, j)
  {
    hide OfType, ReadsBack, Run, FreshRun, TypedRun, SortsBy, ListsAll, SchemaOf;
    if forall j: Json :: OfType(k, kind, j) ==> ReadsBack(k, kind, j) {
      forall steps: seq<Step>, q: Query |
        && q.limit >= 1 && FreshRun(k, State([], []), steps) && TypedRun(k, State([], []), steps)
        && SortsBy(k, Run(k, State([], []), steps), q, kind)
        ensures
          var s := Run(k, State([], []), steps);
          ListsAll(k, SchemaOf(s.columns), s.rows, q)
      {
        NothingTyped(k);
        RunTyped(k, State([], []), steps);
        TypedTablePages(k, Run(k, State([], []), steps), q, kind);
      }
    } else {
      var j: Json :| OfType(k, kind, j) && !ReadsBack(k, kind, j);
      OneColumnRun(k, kind, j);
      OneColumnSorts(k, kind, j);
      UnreadTableFails(k, kind, j);
      assert !TablesPage(k, kind) by {
        assert !ListsAll(k, SchemaOf(Run(k, State([], []), OneColumn(k, kind, j)).columns),
                         Run(k, State([], []), OneColumn(k, kind, j)).rows, SortedByIt());
      }
    }
  }

  lemma NothingTyped(k: Codec)
    ensures Declared(State([], [])) && Typed(k, State([], []))
  {
  }

  lemma TypedTablePages(k: Codec, s: State, q: Query, kind: ColumnType)
    requires Sound(k) && Declared(s) && Typed(k, s) && q.limit >= 1 && SortsBy(k, s, q, kind)
    requires forall j: Json :: OfType(k, kind, j) ==> ReadsBack(k, kind, j)
    ensures ListsAll(k, SchemaOf(s.columns), s.rows, q)
  {
    hide Sound, ListsAll, CompiledFilter, Matching, OfType, ReadsBack, SchemaOf;
    var schema := SchemaOf(s.columns);
    var f := ResolveSort(schema, q.sortField).value;
    var filter := CompiledFilter(k, schema, q.filter).value;
    SchemaMeans(s.columns);
    forall r | r in Matching(k, q.user, filter, s.rows)
      ensures Readable(k, f, r)
    {
      assert r in s.rows by { MatchingWithin(k, q.user, filter, s.rows, r); }
      TypedReadable(k, s.columns, f.name, r);
    }
    MatchingDistinct(k, q.user, filter, s.rows);
    QueryListsAll(k, schema, s.rows, q);
  }

  lemma MatchingWithin(k: Codec, user: Option<int>, filter: Option<Pred>, rows: seq<Row>, row: Row)
    requires row in Matching(k, user, filter, rows)
    ensures row in rows
  {
  }

  lemma TypedReadable(k: Codec, columns: seq<Column>, name: string, row: Row)
    requires DistinctColumns(columns) && TypedRow(k, columns, row.data) && name in SchemaOf(columns)
    requires forall j: Json :: OfType(k, SchemaOf(columns)[name], j) ==> ReadsBack(k, SchemaOf(columns)[name], j)
    ensures ReadsBack(k, SchemaOf(columns)[name], Stored(row, name))
  {
    hide OfType, ReadsBack, SchemaOf, DistinctColumns;
    if name in row.data {
      var i := NameAt(columns, name);
      SchemaAt(columns, i);
    } else {
      NullReadsBack(k, SchemaOf(columns)[name]);
    }
  }

  /** A column is added and two rows with one value in it are inserted. */
  function OneColumn(k: Codec, kind: ColumnType, j: Json): seq<Step> {
    var data := map["c" := j];
    var storage := Storage(0, k.payloadSize(data));
    [Add(Column(1, "c", kind, false, JNull, 1), Some(1)),
     InsertStep(1, None, 1, data, storage), InsertStep(2, None, 2, data, storage)]
  }

  function SortedByIt(): Query { Query(None, None, Some("c"), false, 1) }

  lemma OneColumnRun(k: Codec, kind: ColumnType, j: Json)
    requires OfType(k, kind, j)
    ensures
      var s, steps := State([], []), OneColumn(k, kind, j);
      && FreshRun(k, s, steps) && TypedRun(k, s, steps)
      && Run(k, s, steps) == State([Column(1, "c", kind, false, JNull, 1)], TwoAlike("c", j))
  {
    var c := Column(1, "c", kind, false, JNull, 1);
    var data: Payload, steps := map["c" := j], OneColumn(k, kind, j);
    var s0, s1 := State([], []), State([c], []);
    var s2 := State([c], [Row(1, None, 1, 1, data)]);
    var s3 := State([c], TwoAlike("c", j));
    assert After(k, s0, steps[0]) == s1;
    InsertOne(k, c, [], 1, 1, j);
    InsertOne(k, c, s2.rows, 2, 2, j);
    assert After(k, s1, steps[1]) == s2 && After(k, s2, steps[2]) == s3;
    hide Apply, After, OfType;
    assert steps[1..][1..] == [steps[2]] && steps[2..][1..] == [];
    RunThree(k, s0, s1, s2, s3, steps);
    assert TypedColumn(k, c) by { NullOfType(k, kind); }
  }

  lemma NullOfType(k: Codec, kind: ColumnType)
    ensures OfType(k, kind, JNull)
  {
  }

  lemma RunThree(k: Codec, s0: State, s1: State, s2: State, s3: State, steps: seq<Step>)
    requires |steps| == 3 && After(k, s0, steps[0]) == s1 && After(k, s1, steps[1]) == s2 && After(k, s2, steps[2]) == s3
    ensures Run(k, s0, steps) == s3
    ensures Fresh(s0, steps[0]) && Fresh(s1, steps[1]) && Fresh(s2, steps[2]) ==> FreshRun(k, s0, steps)
    ensures TypedStep(k, s0, steps[0]) && TypedStep(k, s1, steps[1]) && TypedStep(k, s2, steps[2]) ==> TypedRun(k, s0, steps)
  {
    hide After, Fresh, TypedStep, Run, FreshRun, TypedRun;
    assert steps[1..][1..] == steps[2..] && steps[2..][1..] == [];
    RunUnfolds(k, s0, steps);
    RunUnfolds(k, s1, steps[1..]);
    RunUnfolds(k, s2, steps[2..]);
    RunUnfolds(k, s3, []);
  }

  lemma RunUnfolds(k: Codec, s: State, steps: seq<Step>)
    ensures Run(k, s, steps) == if steps == [] then s else Run(k, After(k, s, steps[0]), steps[1..])
    ensures FreshRun(k, s, steps) <==> steps == [] || (Fresh(s, steps[0]) && FreshRun(k, After(k, s, steps[0]), steps[1..]))
    ensures TypedRun(k, s, steps) <==> steps == [] || (TypedStep(k, s, steps[0]) && TypedRun(k, After(k, s, steps[0]), steps[1..]))
  {
    hide After, Fresh, TypedStep;
  }

  lemma InsertOne(k: Codec, c: Column, rows: seq<Row>, id: int, now: int, j: Json)
    requires c == Column(1, "c", c.kind, false, JNull, 1) && OfType(k, c.kind, j) && |rows| < 10000
    ensures
      var data: Payload := map["c" := j];
      InsertInto(k, State([c], rows), id, None, now, data, Storage(0, k.payloadSize(data)))
      == Ok(State([c], rows + [Row(id, None, now, now, data)]))
  {
    var data: Payload, columns := map["c" := j], [c];
    assert columns[0] == c && NamePlace(columns, "c") == 0;
    assert columns[..0] == [] && Defaults(columns, data) == map[];
    assert Accepts(k, columns, data) && Coerced(k, columns, data) == data;
    assert Completed(k, columns, data) == data;
  }

  lemma OneColumnSorts(k: Codec, kind: ColumnType, j: Json)
    ensures SortsBy(k, State([Column(1, "c", kind, false, JNull, 1)], TwoAlike("c", j)), SortedByIt(), kind)
  {
    var columns := [Column(1, "c", kind, false, JNull, 1)];
    assert SchemaOf(columns) == map["c" := kind] by { OneColumnSchema(columns[0]); }
  }

  lemma OneColumnSchema(c: Column)
    ensures SchemaOf([c]) == map[c.name := c.kind]
  {
    assert [c][1..] == [];
  }

  lemma UnreadTableFails(k: Codec, kind: ColumnType, j: Json)
    requires !ReadsBack(k, kind, j)
    ensures !ListsAll(k, SchemaOf([Column(1, "c", kind, false, JNull, 1)]), TwoAlike("c", j), SortedByIt())
  {
    hide ReadsBack, ListsAll;
    OneColumnSchema(Column(1, "c", kind, false, JNull, 1));
    UnreadListingFails(k, map["c" := kind], Some("c"), false, "c", j);
  }

  /** So columns of numbers, booleans and text always page; columns of timestamps
      when Python and the database read every timestamp alike, and columns of JSON
      when they write every value alike. */
  lemma WhichTablesPage(k: Codec)
    requires Sound(k)
    ensures TablesPage(k, IntColumn) && TablesPage(k, FloatColumn) && TablesPage(k, BoolColumn) && TablesPage(k, TextColumn)
    ensures TablesPage(k, TimeColumn) <==> forall s: string :: k.isoTime(s).Some? ==> k.storedTime(s) == k.isoTime(s)
    ensures TablesPage(k, JsonColumn) <==> forall j: Json :: !j.JNull? && !j.JStr? ==> k.dumps(j) == k.storedText(j)
  {
    hide TablesPage, Sound;
    PlainPage(k, IntColumn);
    PlainPage(k, FloatColumn);
    PlainPage(k, BoolColumn);
    PlainPage(k, TextColumn);
    TimesPage(k);
    DocumentsPage(k);
  }

  lemma PlainPage(k: Codec, kind: ColumnType)
    requires Sound(k) && !kind.TimeColumn? && !kind.JsonColumn?
    ensures TablesPage(k, kind)
  {
    hide TablesPage, Sound;
    TablesPageExactly(k, kind);
    forall j: Json | OfType(k, kind, j)
      ensures ReadsBack(k, kind, j)
    {
      BindMatchesExtract(k, kind, j);
    }
  }

  lemma DocumentsPage(k: Codec)
    requires Sound(k)
    ensures TablesPage(k, JsonColumn) <==> forall j: Json :: !j.JNull? && !j.JStr? ==> k.dumps(j) == k.storedText(j)
  {
    hide TablesPage, Sound;
    TablesPageExactly(k, JsonColumn);
    forall j: Json
      ensures OfType(k, JsonColumn, j)
      ensures ReadsBack(k, JsonColumn, j) <==> j.JNull? || j.JStr? || k.dumps(j) == k.storedText(j)
    {
      BindMatchesExtract(k, JsonColumn, j);
    }
    hide OfType, ReadsBack;
  }

  lemma TimesPage(k: Codec)
    requires Sound(k)
    ensures TablesPage(k, TimeColumn) <==> forall s: string :: k.isoTime(s).Some? ==> k.storedTime(s) == k.isoTime(s)
  {
    hide TablesPage, Sound;
    TablesPageExactly(k, TimeColumn);
    forall j: Json
      ensures OfType(k, TimeColumn, j) <==> j.JNull? || (j.JStr? && k.isoTime(j.s).Some?)
      ensures ReadsBack(k, TimeColumn, j) <==> j.JNull? || (j.JStr? && k.isoTime(j.s).Some? && k.storedTime(j.s) == k.isoTime(j.s))
    {
      BindMatchesExtract(k, TimeColumn, j);
    }
    hide OfType, ReadsBack;
    forall s: string
      ensures k.isoTime(s).Some? <==> OfType(k, TimeColumn, JStr(s))
      ensures ReadsBack(k, TimeColumn, JStr(s)) <==> k.isoTime(s).Some? && k.storedTime(s) == k.isoTime(s)
    {
    }
  }

  // ------------------------------------------------------------------- renaming

  lemma RenamedDistinct(columns: seq<Column>, i: nat, c': Column)
    requires DistinctColumns(columns) && i < |columns|
    requires c'.name !in Names(columns) && c'.id == columns[i].id
    ensures DistinctColumns(columns[i := c'])
  {
    var columns' := columns[i := c'];
    forall a, b | 0 <= a < b < |columns'|
      ensures columns'[a].id != columns'[b].id && columns'[a].name != columns'[b].name
    {
      assert columns[a] in columns && columns[b] in columns;
    }
  }

  lemma SchemaAt(columns: seq<Column>, i: nat)
    requires DistinctColumns(columns) && i < |columns|
    ensures columns[i].name in SchemaOf(columns) && SchemaOf(columns)[columns[i].name] == columns[i].kind
  {
    hide SchemaOf;
    SchemaMeans(columns);
    assert columns[i] in columns;
  }

  lemma NameAt(columns: seq<Column>, name: string) returns (i: nat)
    requires DistinctColumns(columns) && name in SchemaOf(columns)
    ensures i < |columns| && columns[i].name == name
  {
    hide SchemaOf;
    SchemaMeans(columns);
    var c :| c in columns && c.name == name;
    i :| 0 <= i < |columns| && columns[i] == c;
  }

  lemma SchemaRenamed(columns: seq<Column>, i: nat, c': Column)
    requires DistinctColumns(columns) && i < |columns| && c'.kind == columns[i].kind
    requires c'.name !in Names(columns) && c'.id == columns[i].id
    ensures columns[i].name in SchemaOf(columns)
    ensures SchemaOf(columns[i := c']) == RenameSchema(SchemaOf(columns), columns[i].name, c'.name)
  {
    var columns' := columns[i := c'];
    RenamedDistinct(columns, i, c');
    SchemaMeans(columns);
    SchemaMeans(columns');
    NamesUpdated(columns, i, c');
    SchemaAt(columns, i);
    SchemaAt(columns', i);
    hide SchemaOf, Names, DistinctColumns;
    forall name | name in SchemaOf(columns') && name != c'.name
      ensures name in SchemaOf(columns) && SchemaOf(columns')[name] == SchemaOf(columns)[name]
    {
      var j := NameAt(columns', name);
      SchemaAt(columns', j);
      SchemaAt(columns, j);
    }
  }

  /** After a column of any table is renamed, the renamed query returns the rows
      it returned before, in the same order, with the same cursor. */
  lemma RenamedTableAnswersAlike(k: Codec, s: State, id: int, name: string, q: Query, cursor: Option<Cursor>)
    requires Declared(s) && q.limit >= 1 && ChangeIn(s, id, Renaming(name)).Ok?
    requires
      var old_ := s.columns[ColumnPlace(s.columns, id)].name;
      old_ != name && old_ != "" && name != "" && !SystemName(old_) && !SystemName(name)
    requires QueryRows(k, SchemaOf(s.columns), s.rows, q, cursor).Ok?
    ensures
      var s' := ChangeIn(s, id, Renaming(name)).value;
      var old_ := s.columns[ColumnPlace(s.columns, id)].name;
      var page := QueryRows(k, SchemaOf(s.columns), s.rows, q, cursor).value;
      var page' := QueryRows(k, SchemaOf(s'.columns), s'.rows, RenameQuery(q, old_, name), cursor);
      && page'.Ok? && page'.value.next == page.next && |page'.value.rows| == |page.rows|
      && forall i :: 0 <= i < |page.rows| ==>
           page'.value.rows[i] == RenameKey(page.rows[i], old_, name) && page'.value.rows[i].id == page.rows[i].id
  {
    hide PlaceOf, MapRows, QueryRows, Names, SchemaOf, RenameSchema, SystemName;
    var i := ColumnPlace(s.columns, id);
    var c := s.columns[i];
    NamesAt(s.columns, name);
    SchemaRenamed(s.columns, i, Changed(c, Renaming(name)));
    SchemaMeans(s.columns);
    RenameCommutes(k, SchemaOf(s.columns), c.name, name, s.rows, q, cursor);
  }
}
