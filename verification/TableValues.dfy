/** Values of custom-table columns: JSON as stored and sent, and the SQL values
    they are compared as. */
module TableValues {
  import opened Outcomes
  import opened Keyset

  datatype Json =
    | JNull
    | JBool(b: bool)
    | JInt(i: int)
    | JFloat(r: real)
    | JStr(s: string)
    | JArray(items: seq<Json>)
    | JObject(fields: map<string, Json>)

  datatype ColumnType = TextColumn | IntColumn | FloatColumn | BoolColumn | TimeColumn | JsonColumn

  datatype Sql = SqlNumber(r: real) | SqlText(s: string) | SqlBool(b: bool) | SqlTime(t: int)

  /** The parsers and renderers of Python and of the database. */
  datatype Codec = Codec(
    isoTime: string -> Option<int>,
    isoText: int -> string,
    decimal: string -> Option<real>,
    floating: string -> Option<real>,
    boolean: string -> Option<bool>,
    dumps: Json -> string,
    storedTime: string -> Option<int>,
    storedDecimal: string -> Option<real>,
    storedFloat: string -> Option<real>,
    storedBoolean: string -> Option<bool>,
    storedText: Json -> string,
    payloadSize: map<string, Json> -> nat,
    collation: (string, string) -> bool)

  /** What pagination needs of them: the collation is a strict order, and a
      timestamp written into a cursor reads back as itself. */
  ghost predicate Sound(k: Codec) {
    StrictOrder(k.collation) && forall t: int :: k.isoTime(k.isoText(t)) == Some(t)
  }

  function Kind(v: Sql): nat {
    match v
    case SqlNumber(_) => 0
    case SqlText(_) => 1
    case SqlBool(_) => 2
    case SqlTime(_) => 3
  }

  /** The database's order; values of one column are all of one kind. */
  predicate Less(k: Codec, a: Sql, b: Sql) {
    match (a, b)
    case (SqlNumber(x), SqlNumber(y)) => x < y
    case (SqlText(x), SqlText(y)) => k.collation(x, y)
    case (SqlBool(x), SqlBool(y)) => !x && y
    case (SqlTime(x), SqlTime(y)) => x < y
    case _ => Kind(a) < Kind(b)
  }

  lemma LessIsStrictOrder(k: Codec)
    requires StrictOrder(k.collation)
    ensures StrictOrder((a: Sql, b: Sql) => Less(k, a, b))
  {
    var less := (a: Sql, b: Sql) => Less(k, a, b);
    forall a: Sql, b: Sql, c: Sql | Less(k, a, b) && Less(k, b, c)
      ensures Less(k, a, c)
    {
      LessTransitive(k, a, b, c);
    }
    forall a: Sql, b: Sql
      ensures a == b || less(a, b) || less(b, a)
    {
      LessTotal(k, a, b);
    }
  }

  lemma LessTransitive(k: Codec, a: Sql, b: Sql, c: Sql)
    requires StrictOrder(k.collation) && Less(k, a, b) && Less(k, b, c)
    ensures Less(k, a, c)
  {
  }

  lemma LessTotal(k: Codec, a: Sql, b: Sql)
    requires StrictOrder(k.collation)
    ensures a == b || Less(k, a, b) || Less(k, b, a)
  {
  }

  function Mapped<A, B>(o: Option<A>, f: A -> B): Option<B> {
    if o.None? then None else Some(f(o.value))
  }

  function Cast<A>(o: Option<A>, f: A -> Sql): Nullable<Sql> {
    if o.None? then Null else Value(f(o.value))
  }

  /** A stored value cast to its column's type. A value that its cast refuses
      stands as NULL here. */
  function Extract(k: Codec, t: ColumnType, j: Json): Nullable<Sql> {
    match (t, j)
    case (_, JNull) => Null
    case (IntColumn, JInt(i)) => Value(SqlNumber(i as real))
    case (IntColumn, JFloat(r)) => Value(SqlNumber(r))
    case (IntColumn, JStr(s)) => Cast(k.storedDecimal(s), r => SqlNumber(r))
    case (IntColumn, _) => Null
    case (FloatColumn, JInt(i)) => Value(SqlNumber(i as real))
    case (FloatColumn, JFloat(r)) => Value(SqlNumber(r))
    case (FloatColumn, JStr(s)) => Cast(k.storedFloat(s), r => SqlNumber(r))
    case (FloatColumn, _) => Null
    case (BoolColumn, JBool(b)) => Value(SqlBool(b))
    case (BoolColumn, JStr(s)) => Cast(k.storedBoolean(s), b => SqlBool(b))
    case (BoolColumn, _) => Null
    case (TimeColumn, JStr(s)) => Cast(k.storedTime(s), x => SqlTime(x))
    case (TimeColumn, _) => Null
    case (_, JStr(s)) => Value(SqlText(s))
    case (_, _) => Value(SqlText(k.storedText(j)))
  }

  /** A value from a client, converted to what its column is compared with; no
      result stands for the error. */
  function Bind(k: Codec, t: ColumnType, j: Json): Option<Nullable<Sql>> {
    match (t, j)
    case (_, JNull) => Some(Null)
    case (IntColumn, JInt(i)) => Some(Value(SqlNumber(i as real)))
    case (IntColumn, JFloat(r)) => if r == r.Floor as real then Some(Value(SqlNumber(r))) else None
    case (IntColumn, JStr(s)) => Mapped(k.decimal(s), r => Value(SqlNumber(r)))
    case (FloatColumn, JInt(i)) => Some(Value(SqlNumber(i as real)))
    case (FloatColumn, JFloat(r)) => Some(Value(SqlNumber(r)))
    case (FloatColumn, JStr(s)) => Mapped(k.floating(s), r => Value(SqlNumber(r)))
    case (BoolColumn, JBool(b)) => Some(Value(SqlBool(b)))
    case (BoolColumn, JStr(s)) => Mapped(k.boolean(s), b => Value(SqlBool(b)))
    case (TimeColumn, JStr(s)) => Mapped(k.isoTime(s), x => Value(SqlTime(x)))
    case (TextColumn, JStr(s)) => Some(Value(SqlText(s)))
    case (JsonColumn, JStr(s)) => Some(Value(SqlText(s)))
    case (JsonColumn, _) => Some(Value(SqlText(k.dumps(j))))
    case (_, _) => None
  }

  /** A cursor made from a stored value binds as the value that the listing is
      sorted by. */
  predicate ReadsBack(k: Codec, t: ColumnType, j: Json) { Bind(k, t, j) == Some(Extract(k, t, j)) }

  /** Python and the database read a text alike, as something. */
  predicate Alike<A(==)>(bound: Option<A>, stored: Option<A>) { bound.Some? && stored == bound }

  /** Numbers and booleans in a column of their type, and strings in a column of
      text or JSON, agree by themselves; elsewhere it is up to the two readers. */
  predicate Conforms(k: Codec, t: ColumnType, j: Json) {
    match (t, j)
    case (_, JNull) => true
    case (IntColumn, JInt(_)) => true
    case (IntColumn, JFloat(r)) => r == r.Floor as real
    case (IntColumn, JStr(s)) => Alike(k.decimal(s), k.storedDecimal(s))
    case (FloatColumn, JInt(_)) => true
    case (FloatColumn, JFloat(_)) => true
    case (FloatColumn, JStr(s)) => Alike(k.floating(s), k.storedFloat(s))
    case (BoolColumn, JBool(_)) => true
    case (BoolColumn, JStr(s)) => Alike(k.boolean(s), k.storedBoolean(s))
    case (TimeColumn, JStr(s)) => Alike(k.isoTime(s), k.storedTime(s))
    case (TextColumn, JStr(_)) => true
    case (JsonColumn, JStr(_)) => true
    case (JsonColumn, _) => k.dumps(j) == k.storedText(j)
    case (_, _) => false
  }

  /** Exactly these values read back. */
  lemma BindMatchesExtract(k: Codec, t: ColumnType, j: Json)
    ensures ReadsBack(k, t, j) <==> Conforms(k, t, j)
  {
  }
}
