/** Querying a custom table: filter, sort and keyset pages, and what following
    the cursors lists. */
module TableQueries {
  import opened Outcomes
  import opened Arith
  import opened Keyset
  import opened TableValues
  import opened Filters
  import opened FilterCompiler

  datatype Query = Query(user: Option<int>, filter: Option<Spec>, sortField: Option<string>, desc: bool, limit: nat)

  /** A decoded cursor. */
  datatype Cursor = Cursor(v: Json, id: int)

  datatype QueryError = InvalidFilter(error: FilterError) | InvalidSort | InvalidCursor

  predicate SystemName(name: string) { name == "created_at" || name == "updated_at" }

  /** The field a listing is ordered by. */
  function ResolveSort(schema: Schema, sortField: Option<string>): Option<Field> {
    if sortField.None? || sortField.value == "created_at" then Some(Created)
    else if sortField.value == "updated_at" then Some(Updated)
    else if sortField.value in schema then Some(Data(sortField.value, schema[sortField.value]))
    else None
  }

  /** The value a cursor carries. Unlike `ResolveSort` this looks for a column
      first. */
  function CursorValue(k: Codec, schema: Schema, sortField: Option<string>, row: Row): Json {
    if sortField.Some? && sortField.value != "" && sortField.value in schema then Stored(row, sortField.value)
    else if sortField == Some("updated_at") then JStr(k.isoText(row.updated))
    else JStr(k.isoText(row.created))
  }

  function KeyOf(k: Codec, f: Field, row: Row): Key<Sql> {
    Key(Fetch(k, f, row), row.id)
  }

  predicate ContinuesAfter(k: Codec, f: Field, desc: bool, c: Cursor, row: Row) {
    var bound := Bind(k, KindOf(f), c.v);
    bound.Some?
    && KeysetPredicate((a, b) => Less(k, a, b), desc, KeyOf(k, f, row), Key(bound.value, c.id)).True?
  }

  function ListingBy(k: Codec, schema: Schema, sortField: Option<string>, f: Field, desc: bool): Listing<Row, Cursor> {
    Listing(
      (a: Row, b: Row) => Before((x, y) => Less(k, x, y), desc, KeyOf(k, f, a), KeyOf(k, f, b)),
      (c: Cursor, r: Row) => ContinuesAfter(k, f, desc, c, r),
      (r: Row) => Cursor(CursorValue(k, schema, sortField, r), r.id))
  }

  function CompiledFilter(k: Codec, schema: Schema, filter: Option<Spec>): Result<Option<Pred>, FilterError> {
    if filter.None? then Ok(None)
    else
      var c := Compile(k, schema, filter.value, 0, 0).result;
      if c.Ok? then Ok(Some(c.value)) else Err(c.error)
  }

  predicate Selected(k: Codec, user: Option<int>, filter: Option<Pred>, row: Row) {
    (user.None? || row.user == user) && (filter.None? || Eval(k, filter.value, row).True?)
  }

  function Matching(k: Codec, user: Option<int>, filter: Option<Pred>, rows: seq<Row>): seq<Row> {
    Where(r => Selected(k, user, filter, r), rows)
  }

  function QueryRows(k: Codec, schema: Schema, rows: seq<Row>, q: Query, cursor: Option<Cursor>): Result<Page<Row, Cursor>, QueryError>
    requires q.limit >= 1
  {
    var filter := CompiledFilter(k, schema, q.filter);
    if filter.Err? then Err(InvalidFilter(filter.error))
    else
      var f := ResolveSort(schema, q.sortField);
      if f.None? then Err(InvalidSort)
      else if cursor.Some? && Bind(k, KindOf(f.value), cursor.value.v).None? then Err(InvalidCursor)
      else
        Ok(FetchPage(ListingBy(k, schema, q.sortField, f.value, q.desc), Matching(k, q.user, filter.value, rows), cursor, q.limit))
  }

  /** A reader who keeps asking for the next page. */
  function FollowQuery(k: Codec, schema: Schema, rows: seq<Row>, q: Query, pages: nat): Result<Progress<Row, Cursor>, QueryError>
    requires q.limit >= 1
  {
    if pages == 0 then Ok(Progress([], None, false))
    else
      var sofar := FollowQuery(k, schema, rows, q, pages - 1);
      if sofar.Err? || sofar.value.done then sofar
      else
        var page := QueryRows(k, schema, rows, q, sofar.value.cursor);
        if page.Ok? then Ok(Advance(sofar.value, page.value)) else Err(page.error)
  }

  // ----------------------------------------------------------- stored tables

  ghost predicate DistinctIds(rows: seq<Row>) {
    forall i, j :: 0 <= i < j < |rows| ==> rows[i].id != rows[j].id
  }

  /** The value that a row is sorted by reads back from a cursor. System fields
      always do. */
  predicate Readable(k: Codec, f: Field, row: Row) { f.Data? ==> ReadsBack(k, f.kind, Stored(row, f.name)) }

  /** Rows that a listing can be continued in. */
  ghost predicate Listable(k: Codec, f: Field, rows: seq<Row>) {
    DistinctIds(rows) && forall r :: r in rows ==> Readable(k, f, r)
  }

  /** A column takes the name of the system field the listing is sorted by. */
  predicate Shadowed(schema: Schema, sortField: Option<string>) {
    sortField.Some? && SystemName(sortField.value) && sortField.value in schema
  }

  // ---------------------------------------------------------- complete paging

  /** Unless it is shadowed, the cursor made from a row whose sort value reads back
      binds as that value. */
  lemma CursorBinds(k: Codec, schema: Schema, sortField: Option<string>, row: Row)
    requires Sound(k) && "" !in schema && ResolveSort(schema, sortField).Some? && !Shadowed(schema, sortField)
    requires Readable(k, ResolveSort(schema, sortField).value, row)
    ensures
      var f := ResolveSort(schema, sortField).value;
      Bind(k, KindOf(f), CursorValue(k, schema, sortField, row)) == Some(Fetch(k, f, row))
  {
    hide Extract;
    if ResolveSort(schema, sortField).value.Data? {
      hide Bind;
    }
  }

  lemma ListingPageable(k: Codec, schema: Schema, sortField: Option<string>, desc: bool, rows: seq<Row>)
    requires Sound(k) && "" !in schema && ResolveSort(schema, sortField).Some? && !Shadowed(schema, sortField)
    requires Listable(k, ResolveSort(schema, sortField).value, rows)
    ensures Pageable(ListingBy(k, schema, sortField, ResolveSort(schema, sortField).value, desc), rows)
  {
    hide Bind, Fetch, Less, Before, KeysetPredicate, Readable, CursorValue, ResolveSort, Shadowed;
    var f := ResolveSort(schema, sortField).value;
    var l := ListingBy(k, schema, sortField, f, desc);
    var less := (x, y) => Less(k, x, y);
    LessIsStrictOrder(k);
    BeforeIsStrictOrder<Sql>(less, desc);
    ListingOrders(k, schema, sortField, f, desc, rows);
    forall r, x | r in rows && x in rows
      ensures l.after(l.cursorOf(r), x) <==> l.before(r, x)
    {
      CursorBinds(k, schema, sortField, r);
      KeysetPredicateMeansAfter(less, desc, KeyOf(k, f, x), KeyOf(k, f, r));
    }
  }

  lemma ListingOrders(k: Codec, schema: Schema, sortField: Option<string>, f: Field, desc: bool, rows: seq<Row>)
    requires StrictOrder((x: Sql, y: Sql) => Less(k, x, y)) && DistinctIds(rows)
    ensures Transitive(ListingBy(k, schema, sortField, f, desc).before)
    ensures Comparable(ListingBy(k, schema, sortField, f, desc).before, rows)
  {
    hide Fetch, Less, Before;
    var less := (x: Sql, y: Sql) => Less(k, x, y);
    BeforeIsStrictOrder<Sql>(less, desc);
    var keyBefore := (a: Key<Sql>, b: Key<Sql>) => Before(less, desc, a, b);
    var l := ListingBy(k, schema, sortField, f, desc);
    forall a, b
      ensures l.before(a, b) <==> keyBefore(KeyOf(k, f, a), KeyOf(k, f, b))
    {
    }
  }

  lemma {:induction false} WhereDistinct(p: Row -> bool, rows: seq<Row>)
    requires DistinctIds(rows)
    ensures DistinctIds(Where(p, rows))
  {
    if rows != [] {
      WhereDistinct(p, rows[1..]);
      assert forall r :: r in Where(p, rows[1..]) ==> r.id != rows[0].id;
    }
  }

  /** Without a shadowed name, and when the sort values of the selected rows read
      back, no cursor is refused, so the reader's progress is that of the listing. */
  lemma {:induction false} FollowQueryFollows(k: Codec, schema: Schema, rows: seq<Row>, q: Query, pages: nat)
    requires Sound(k) && "" !in schema && q.limit >= 1 && CompiledFilter(k, schema, q.filter).Ok?
    requires ResolveSort(schema, q.sortField).Some? && !Shadowed(schema, q.sortField)
    requires Listable(k, ResolveSort(schema, q.sortField).value, Matching(k, q.user, CompiledFilter(k, schema, q.filter).value, rows))
    ensures
      var matching := Matching(k, q.user, CompiledFilter(k, schema, q.filter).value, rows);
      var l := ListingBy(k, schema, q.sortField, ResolveSort(schema, q.sortField).value, q.desc);
      FollowQuery(k, schema, rows, q, pages) == Ok(Follow(l, matching, q.limit, pages))
    decreases pages
  {
    hide Bind, Fetch, ListingBy, Shadowed, CompiledFilter, Listable, Sound, ResolveSort, Matching, FetchPage, Pageable, Sort;
    if pages > 0 {
      FollowQueryFollows(k, schema, rows, q, pages - 1);
      var f, filter := ResolveSort(schema, q.sortField).value, CompiledFilter(k, schema, q.filter).value;
      var matching := Matching(k, q.user, filter, rows);
      var l := ListingBy(k, schema, q.sortField, f, q.desc);
      var sofar := Follow(l, matching, q.limit, pages - 1);
      if !sofar.done && pages > 1 {
        ListingPageable(k, schema, q.sortField, q.desc, matching);
        FollowSees(l, matching, q.limit, pages - 1);
        MulMono(q.limit, 1, pages - 1);
        CursorOfMatching(k, schema, q, matching, sofar, Asked(q.limit, pages - 1));
      }
    }
  }

  lemma CursorOfMatching(k: Codec, schema: Schema, q: Query, rows: seq<Row>, sofar: Progress<Row, Cursor>, n: nat)
    requires Sound(k) && "" !in schema && n >= 1
    requires ResolveSort(schema, q.sortField).Some? && !Shadowed(schema, q.sortField)
    requires Listable(k, ResolveSort(schema, q.sortField).value, rows)
    requires HasSeen(ListingBy(k, schema, q.sortField, ResolveSort(schema, q.sortField).value, q.desc), rows, sofar, n)
    ensures !sofar.done ==>
      sofar.cursor.Some? && Bind(k, KindOf(ResolveSort(schema, q.sortField).value), sofar.cursor.value.v).Some?
  {
    hide Bind, Fetch, Sort, Readable, CursorValue, ResolveSort, Shadowed, Sound;
    if !sofar.done {
      var l := ListingBy(k, schema, q.sortField, ResolveSort(schema, q.sortField).value, q.desc);
      var row := Sort(l.before, rows)[n - 1];
      assert row in rows;
      CursorBinds(k, schema, q.sortField, row);
    }
  }

  /** What following the cursors should list: every selected row once, in order. */
  ghost predicate ListsAll(k: Codec, schema: Schema, rows: seq<Row>, q: Query)
    requires q.limit >= 1
  {
    && CompiledFilter(k, schema, q.filter).Ok? && ResolveSort(schema, q.sortField).Some?
    && var matching := Matching(k, q.user, CompiledFilter(k, schema, q.filter).value, rows);
       var l := ListingBy(k, schema, q.sortField, ResolveSort(schema, q.sortField).value, q.desc);
       var f := FollowQuery(k, schema, rows, q, |rows| + 1);
       && f.Ok? && f.value.done
       && Ordered(l.before, f.value.seen) && multiset(f.value.seen) == multiset(matching)
  }

  lemma QueryListsAll(k: Codec, schema: Schema, rows: seq<Row>, q: Query)
    requires Sound(k) && "" !in schema && q.limit >= 1 && CompiledFilter(k, schema, q.filter).Ok?
    requires ResolveSort(schema, q.sortField).Some? && !Shadowed(schema, q.sortField)
    requires Listable(k, ResolveSort(schema, q.sortField).value, Matching(k, q.user, CompiledFilter(k, schema, q.filter).value, rows))
    ensures ListsAll(k, schema, rows, q)
  {
    hide Sort, Follow, FollowQuery, Pageable, ListingBy, CompiledFilter, Listable, Sound, ResolveSort, Shadowed;
    var matching := Matching(k, q.user, CompiledFilter(k, schema, q.filter).value, rows);
    var l := ListingBy(k, schema, q.sortField, ResolveSort(schema, q.sortField).value, q.desc);
    FollowQueryFollows(k, schema, rows, q, |rows| + 1);
    ListingPageable(k, schema, q.sortField, q.desc, matching);
    FollowListsEverything(l, matching, q.limit, |rows| + 1);
  }

  /** The selected rows are those of the user for which the filter holds. */
  lemma MatchingHolds(k: Codec, schema: Schema, rows: seq<Row>, q: Query, row: Row)
    requires CompiledFilter(k, schema, q.filter).Ok?
    ensures row in Matching(k, q.user, CompiledFilter(k, schema, q.filter).value, rows)
       <==> row in rows && (q.user.None? || row.user == q.user)
            && (q.filter.None? || Holds(k, schema, q.filter.value, row))
  {
    hide Compile, Holds, Eval;
    if q.filter.Some? {
      CompiledSelects(k, schema, q.filter.value, 0, 0, row);
    }
  }

  // ------------------------------------------------------- a shadowed sort field

  /** The page after a cursor that carries null, when the listing is sorted by a
      system field: everything again, or nothing. */
  lemma NullCursorPage(k: Codec, schema: Schema, rows: seq<Row>, q: Query, id: int)
    requires q.limit >= 1 && CompiledFilter(k, schema, q.filter).Ok? && Shadowed(schema, q.sortField)
    ensures QueryRows(k, schema, rows, q, Some(Cursor(JNull, id)))
         == if q.desc then QueryRows(k, schema, rows, q, None) else Ok(Page([], None))
  {
    hide CompiledFilter, Matching, Where, Sort;
    var f, filter := ResolveSort(schema, q.sortField).value, CompiledFilter(k, schema, q.filter).value;
    var matching := Matching(k, q.user, filter, rows);
    var l := ListingBy(k, schema, q.sortField, f, q.desc);
    var c := Cursor(JNull, id);
    assert forall r: Row :: l.after(c, r) <==> q.desc;
    if q.desc {
      WhereAll(Beyond(l, c), matching);
    } else {
      WhereSuffix(Beyond(l, c), matching, |matching|);
      assert Sort(l.before, []) == [];
    }
  }

  function Repeat<T>(s: seq<T>, times: nat): (r: seq<T>)
    ensures s != [] && times >= 1 ==> r != []
  {
    if times == 0 then [] else Repeat(s, times - 1) + s
  }

  /** The cursor of the first page is made from the shadowing column, and so
      carries null. */
  lemma ShadowedFirst(k: Codec, schema: Schema, rows: seq<Row>, q: Query) returns (last: Row)
    requires q.limit >= 1 && CompiledFilter(k, schema, q.filter).Ok? && Shadowed(schema, q.sortField)
    requires
      var matching := Matching(k, q.user, CompiledFilter(k, schema, q.filter).value, rows);
      |matching| > q.limit && forall r :: r in matching ==> Stored(r, q.sortField.value) == JNull
    ensures
      var first := QueryRows(k, schema, rows, q, None);
      first.Ok? && |first.value.rows| == q.limit && first.value.next == Some(Cursor(JNull, last.id))
  {
    hide CompiledFilter, Matching, Sort, Where;
    var f, filter := ResolveSort(schema, q.sortField).value, CompiledFilter(k, schema, q.filter).value;
    var matching := Matching(k, q.user, filter, rows);
    var l := ListingBy(k, schema, q.sortField, f, q.desc);
    last := Sort(l.before, matching)[q.limit - 1];
    assert last in matching;
  }

  /** When no selected row has a value in the shadowing column, a descending
      listing repeats its first page for ever and an ascending one stops after
      it, whatever is left. */
  lemma ShadowedFollow(k: Codec, schema: Schema, rows: seq<Row>, q: Query, pages: nat)
    requires q.limit >= 1 && CompiledFilter(k, schema, q.filter).Ok? && Shadowed(schema, q.sortField) && pages >= 1
    requires
      var matching := Matching(k, q.user, CompiledFilter(k, schema, q.filter).value, rows);
      |matching| > q.limit && forall r :: r in matching ==> Stored(r, q.sortField.value) == JNull
    ensures
      var first := QueryRows(k, schema, rows, q, None);
      && first.Ok? && |first.value.rows| == q.limit
      && FollowQuery(k, schema, rows, q, pages)
         == if q.desc || pages == 1 then Ok(Progress(Repeat(first.value.rows, pages), first.value.next, false))
            else Ok(Progress(first.value.rows, None, true))
  {
    hide QueryRows, FollowQuery, CompiledFilter, Matching, ResolveSort;
    var last := ShadowedFirst(k, schema, rows, q);
    NullCursorPage(k, schema, rows, q, last.id);
    StuckFollow(k, schema, rows, q, Cursor(JNull, last.id), q.desc, pages);
  }

  /** When the cursor of the first page starts the listing again, or ends it, that
      is all that following sees. */
  lemma {:induction false} StuckFollow(k: Codec, schema: Schema, rows: seq<Row>, q: Query, c: Cursor, again: bool, pages: nat)
    requires q.limit >= 1 && pages >= 1
    requires QueryRows(k, schema, rows, q, None).Ok? && QueryRows(k, schema, rows, q, None).value.next == Some(c)
    requires QueryRows(k, schema, rows, q, Some(c)) == if again then QueryRows(k, schema, rows, q, None) else Ok(Page([], None))
    ensures
      var first := QueryRows(k, schema, rows, q, None).value;
      FollowQuery(k, schema, rows, q, pages)
      == if again || pages == 1 then Ok(Progress(Repeat(first.rows, pages), Some(c), false))
         else Ok(Progress(first.rows, None, true))
    decreases pages
  {
    hide QueryRows, FollowQuery;
    var first := QueryRows(k, schema, rows, q, None).value;
    if pages == 1 {
      FollowOne(k, schema, rows, q);
      assert [] + first.rows == first.rows;
    } else {
      StuckFollow(k, schema, rows, q, c, again, pages - 1);
      FollowMore(k, schema, rows, q, pages - 1);
      assert [] + first.rows == first.rows;
      assert first.rows + [] == first.rows;
    }
  }

  lemma FollowOne(k: Codec, schema: Schema, rows: seq<Row>, q: Query)
    requires q.limit >= 1 && QueryRows(k, schema, rows, q, None).Ok?
    ensures FollowQuery(k, schema, rows, q, 1)
         == Ok(Advance(Progress([], None, false), QueryRows(k, schema, rows, q, None).value))
  {
    hide QueryRows;
    assert FollowQuery(k, schema, rows, q, 0) == Ok(Progress([], None, false));
  }

  lemma FollowMore(k: Codec, schema: Schema, rows: seq<Row>, q: Query, pages: nat)
    requires q.limit >= 1 && FollowQuery(k, schema, rows, q, pages).Ok?
    ensures
      var sofar := FollowQuery(k, schema, rows, q, pages).value;
      FollowQuery(k, schema, rows, q, pages + 1)
      == if sofar.done then Ok(sofar)
         else
           var page := QueryRows(k, schema, rows, q, sofar.cursor);
           if page.Ok? then Ok(Advance(sofar, page.value)) else Err(page.error)
  {
    hide QueryRows;
  }

  // --------------------------------------------- sort values that do not read back

  /** Whether a cursor that reads back as `bound` instead of as the sort value of its
      row comes before that value: then the row follows itself. */
  predicate Repeats(k: Codec, desc: bool, bound: Nullable<Sql>, sorted: Nullable<Sql>) {
    Precedes((x: Sql, y: Sql) => Less(k, x, y), desc, bound, sorted)
  }

  /** The page after a cursor that reads back as another value than the one all
      selected rows are sorted by: everything again, or nothing. */
  lemma UnreadPage(k: Codec, schema: Schema, rows: seq<Row>, q: Query, name: string, j: Json, id: int)
    requires q.limit >= 1 && CompiledFilter(k, schema, q.filter).Ok? && name in schema
    requires ResolveSort(schema, q.sortField) == Some(Data(name, schema[name]))
    requires forall r :: r in Matching(k, q.user, CompiledFilter(k, schema, q.filter).value, rows) ==> Stored(r, name) == j
    requires Bind(k, schema[name], j).Some? && !ReadsBack(k, schema[name], j)
    ensures QueryRows(k, schema, rows, q, Some(Cursor(j, id)))
         == if Repeats(k, q.desc, Bind(k, schema[name], j).value, Extract(k, schema[name], j)) then QueryRows(k, schema, rows, q, None)
            else Ok(Page([], None))
  {
    hide CompiledFilter, Matching, Where, Sort, Bind, Extract, KeysetPredicate, Less, Precedes;
    var f, filter := Data(name, schema[name]), CompiledFilter(k, schema, q.filter).value;
    var matching := Matching(k, q.user, filter, rows);
    var l := ListingBy(k, schema, q.sortField, f, q.desc);
    var c := Cursor(j, id);
    var less := (x: Sql, y: Sql) => Less(k, x, y);
    var bound, again := Bind(k, schema[name], j).value, Repeats(k, q.desc, Bind(k, schema[name], j).value, Extract(k, schema[name], j));
    forall r | r in matching
      ensures l.after(c, r) <==> again
    {
      KeysetPredicateMeansAfter(less, q.desc, KeyOf(k, f, r), Key(bound, id));
    }
    if again {
      WhereAll(Beyond(l, c), matching);
    } else {
      WhereNone(Beyond(l, c), matching);
      assert Sort(l.before, []) == [];
    }
  }

  lemma WhereNone(p: Row -> bool, rows: seq<Row>)
    requires forall r :: r in rows ==> !p(r)
    ensures Where(p, rows) == []
  {
    if rows != [] {
      WhereNone(p, rows[1..]);
    }
  }

  /** The cursor of the first page carries the value. */
  lemma UnreadFirst(k: Codec, schema: Schema, rows: seq<Row>, q: Query, name: string, j: Json) returns (last: Row)
    requires q.limit >= 1 && CompiledFilter(k, schema, q.filter).Ok? && name in schema && name != ""
    requires ResolveSort(schema, q.sortField) == Some(Data(name, schema[name]))
    requires
      var matching := Matching(k, q.user, CompiledFilter(k, schema, q.filter).value, rows);
      |matching| > q.limit && forall r :: r in matching ==> Stored(r, name) == j
    ensures
      var first := QueryRows(k, schema, rows, q, None);
      first.Ok? && |first.value.rows| == q.limit && first.value.next == Some(Cursor(j, last.id))
  {
    hide CompiledFilter, Matching, Sort, Where;
    var filter := CompiledFilter(k, schema, q.filter).value;
    var matching := Matching(k, q.user, filter, rows);
    var l := ListingBy(k, schema, q.sortField, Data(name, schema[name]), q.desc);
    last := Sort(l.before, matching)[q.limit - 1];
    assert last in matching;
  }

  /** When all selected rows are sorted by one stored value that does not read back,
      the first page repeats for ever, or the listing ends after it, or the cursor
      is refused. */
  lemma UnreadFollow(k: Codec, schema: Schema, rows: seq<Row>, q: Query, name: string, j: Json, pages: nat)
    requires q.limit >= 1 && CompiledFilter(k, schema, q.filter).Ok? && name in schema && name != "" && pages >= 1
    requires ResolveSort(schema, q.sortField) == Some(Data(name, schema[name])) && !ReadsBack(k, schema[name], j)
    requires
      var matching := Matching(k, q.user, CompiledFilter(k, schema, q.filter).value, rows);
      |matching| > q.limit && forall r :: r in matching ==> Stored(r, name) == j
    ensures
      var first, bound := QueryRows(k, schema, rows, q, None), Bind(k, schema[name], j);
      && first.Ok? && |first.value.rows| == q.limit
      && FollowQuery(k, schema, rows, q, pages)
         == if pages == 1 || (bound.Some? && Repeats(k, q.desc, bound.value, Extract(k, schema[name], j))) then
              Ok(Progress(Repeat(first.value.rows, pages), first.value.next, false))
            else if bound.Some? then Ok(Progress(first.value.rows, None, true))
            else Err(InvalidCursor)
  {
    hide QueryRows, FollowQuery, CompiledFilter, Matching, Bind, Extract, Repeats;
    var last := UnreadFirst(k, schema, rows, q, name, j);
    var bound := Bind(k, schema[name], j);
    if bound.Some? {
      UnreadPage(k, schema, rows, q, name, j, last.id);
      StuckFollow(k, schema, rows, q, Cursor(j, last.id), Repeats(k, q.desc, bound.value, Extract(k, schema[name], j)), pages);
    } else {
      CursorRefused(k, schema, rows, q, name, Cursor(j, last.id));
      RefusedFollow(k, schema, rows, q, Cursor(j, last.id), pages);
    }
  }

  lemma CursorRefused(k: Codec, schema: Schema, rows: seq<Row>, q: Query, name: string, c: Cursor)
    requires q.limit >= 1 && CompiledFilter(k, schema, q.filter).Ok? && name in schema
    requires ResolveSort(schema, q.sortField) == Some(Data(name, schema[name])) && Bind(k, schema[name], c.v).None?
    ensures QueryRows(k, schema, rows, q, Some(c)) == Err(InvalidCursor)
  {
    hide CompiledFilter, Bind, FetchPage, ListingBy, Matching;
  }

  lemma {:induction false} RefusedFollow(k: Codec, schema: Schema, rows: seq<Row>, q: Query, c: Cursor, pages: nat)
    requires q.limit >= 1 && pages >= 1
    requires QueryRows(k, schema, rows, q, None).Ok? && QueryRows(k, schema, rows, q, None).value.next == Some(c)
    requires QueryRows(k, schema, rows, q, Some(c)) == Err(InvalidCursor)
    ensures
      var first := QueryRows(k, schema, rows, q, None).value;
      FollowQuery(k, schema, rows, q, pages)
      == if pages == 1 then Ok(Progress(Repeat(first.rows, 1), Some(c), false)) else Err(InvalidCursor)
    decreases pages
  {
    hide QueryRows, FollowQuery;
    var first := QueryRows(k, schema, rows, q, None).value;
    FollowOne(k, schema, rows, q);
    assert [] + first.rows == first.rows == Repeat(first.rows, 1);
    if pages == 2 {
      FollowMore(k, schema, rows, q, 1);
    } else if pages > 2 {
      RefusedFollow(k, schema, rows, q, c, pages - 1);
      FollowFails(k, schema, rows, q, pages - 1);
    }
  }

  lemma FollowFails(k: Codec, schema: Schema, rows: seq<Row>, q: Query, pages: nat)
    requires q.limit >= 1 && FollowQuery(k, schema, rows, q, pages).Err?
    ensures FollowQuery(k, schema, rows, q, pages + 1) == FollowQuery(k, schema, rows, q, pages)
  {
    hide QueryRows;
  }

  // ------------------------------------------------------- when paging is complete

  /** Which values a column of a name may hold. */
  type Values = (string, Json) -> bool

  ghost predicate Holding(v: Values, schema: Schema, row: Row) {
    forall name :: name in row.data ==> name in schema && v(name, row.data[name])
  }

  ghost predicate Content(v: Values, schema: Schema, rows: seq<Row>) {
    DistinctIds(rows) && forall r :: r in rows ==> Holding(v, schema, r)
  }

  /** Paging is complete for every content with such values and every page size. */
  ghost predicate PagesSafely(k: Codec, v: Values, schema: Schema, sortField: Option<string>, desc: bool) {
    forall rows: seq<Row>, limit: nat :: limit >= 1 && Content(v, schema, rows) ==>
      ListsAll(k, schema, rows, Query(None, None, sortField, desc, limit))
  }

  /** Every value that the sort field may hold reads back. */
  ghost predicate SortReadsBack(k: Codec, v: Values, f: Field) {
    f.Data? ==> forall j: Json :: v(f.name, j) ==> ReadsBack(k, f.kind, j)
  }

  /** Following cursors is complete exactly when the sort field is no system name
      that a column has taken, and every value it may hold reads back. */
  lemma PagesSafelyExactly(k: Codec, v: Values, schema: Schema, sortField: Option<string>, desc: bool)
    requires Sound(k) && "" !in schema && ResolveSort(schema, sortField).Some?
    ensures PagesSafely(k, v, schema, sortField, desc)
       <==> !Shadowed(schema, sortField) && SortReadsBack(k, v, ResolveSort(schema, sortField).value)
  {
    hide ListsAll, Sound, Content, ReadsBack;
    var f := ResolveSort(schema, sortField).value;
    if Shadowed(schema, sortField) {
      ShadowedListingFails(k, v, schema, sortField, desc);
    } else if !SortReadsBack(k, v, f) {
      var j: Json :| v(f.name, j) && !ReadsBack(k, f.kind, j);
      AlikeIsContent(v, schema, f.name, j);
      UnreadListingFails(k, schema, sortField, desc, f.name, j);
    } else {
      hide Shadowed, ResolveSort;
      forall rows: seq<Row>, limit: nat | limit >= 1 && Content(v, schema, rows)
        ensures ListsAll(k, schema, rows, Query(None, None, sortField, desc, limit))
      {
        ContentListable(k, v, schema, f, rows);
        MatchingEverything(k, rows);
        QueryListsAll(k, schema, rows, Query(None, None, sortField, desc, limit));
      }
    }
  }

  lemma ContentListable(k: Codec, v: Values, schema: Schema, f: Field, rows: seq<Row>)
    requires Content(v, schema, rows) && SortReadsBack(k, v, f)
    ensures Listable(k, f, rows)
  {
    hide ReadsBack;
    if f.Data? {
      NullReadsBack(k, f.kind);
    }
  }

  lemma NullReadsBack(k: Codec, t: ColumnType)
    ensures ReadsBack(k, t, JNull)
  {
  }

  /** Two rows with one value. */
  function TwoAlike(name: string, j: Json): seq<Row> {
    [Row(1, None, 1, 1, map[name := j]), Row(2, None, 2, 2, map[name := j])]
  }

  lemma AlikeIsContent(v: Values, schema: Schema, name: string, j: Json)
    requires name in schema && v(name, j)
    ensures Content(v, schema, TwoAlike(name, j))
  {
  }

  /** In either direction, and whatever stands first, a page of one row then goes
      wrong. */
  lemma UnreadListingFails(k: Codec, schema: Schema, sortField: Option<string>, desc: bool, name: string, j: Json)
    requires name in schema && name != "" && ResolveSort(schema, sortField) == Some(Data(name, schema[name]))
    requires !ReadsBack(k, schema[name], j)
    ensures !ListsAll(k, schema, TwoAlike(name, j), Query(None, None, sortField, desc, 1))
  {
    hide QueryRows, FollowQuery, Matching, ReadsBack, Repeats, Bind, Extract;
    var q, rows := Query(None, None, sortField, desc, 1), TwoAlike(name, j);
    MatchingEverything(k, rows);
    assert rows[0] in rows && rows[1] in rows;
    UnreadFollow(k, schema, rows, q, name, j, 3);
    var f := FollowQuery(k, schema, rows, q, 3);
    if f.Ok? && f.value.done {
      SameSize(f.value.seen, rows);
    }
  }

  /** A timestamp of seven fractional digits, which Python cuts to six and the
      database rounds: ascending its row comes back for ever, descending its equals
      are left out. */
  lemma RoundedTimestampFails(k: Codec, schema: Schema, name: string, desc: bool)
    requires name in schema && schema[name] == TimeColumn && name != "" && !SystemName(name)
    requires k.isoTime("2024-01-01T00:00:00.1234567+00:00") == Some(1704067200123456)
    requires k.storedTime("2024-01-01T00:00:00.1234567+00:00") == Some(1704067200123457)
    ensures
      var rows, q := TwoAlike(name, JStr("2024-01-01T00:00:00.1234567+00:00")), Query(None, None, Some(name), desc, 1);
      && !ListsAll(k, schema, rows, q)
      && QueryRows(k, schema, rows, q, None).Ok?
      && forall pages: nat :: pages >= 2 ==>
           FollowQuery(k, schema, rows, q, pages)
           == var first := QueryRows(k, schema, rows, q, None).value;
              Ok(if desc then Progress(first.rows, None, true) else Progress(Repeat(first.rows, pages), first.next, false))
  {
    var j := JStr("2024-01-01T00:00:00.1234567+00:00");
    assert Bind(k, TimeColumn, j) == Some(Value(SqlTime(1704067200123456)));
    assert Extract(k, TimeColumn, j) == Value(SqlTime(1704067200123457));
    assert Repeats(k, desc, Value(SqlTime(1704067200123456)), Value(SqlTime(1704067200123457))) <==> !desc;
    hide QueryRows, FollowQuery, Matching, Repeats, Bind, Extract, ListsAll;
    var q, rows := Query(None, None, Some(name), desc, 1), TwoAlike(name, j);
    UnreadListingFails(k, schema, Some(name), desc, name, j);
    MatchingEverything(k, rows);
    UnreadFollow(k, schema, rows, q, name, j, 1);
    forall pages: nat | pages >= 2
      ensures
        FollowQuery(k, schema, rows, q, pages)
        == var first := QueryRows(k, schema, rows, q, None).value;
           Ok(if desc then Progress(first.rows, None, true) else Progress(Repeat(first.rows, pages), first.next, false))
    {
      UnreadFollow(k, schema, rows, q, name, j, pages);
    }
  }

  /** Two rows, added before the column was. */
  function TwoRows(): seq<Row> {
    [Row(1, None, 1, 1, map[]), Row(2, None, 2, 2, map[])]
  }

  lemma ShadowedListingFails(k: Codec, v: Values, schema: Schema, sortField: Option<string>, desc: bool)
    requires Shadowed(schema, sortField)
    ensures Content(v, schema, TwoRows())
    ensures !ListsAll(k, schema, TwoRows(), Query(None, None, sortField, desc, 1))
  {
    hide QueryRows, FollowQuery, Matching;
    var q, rows := Query(None, None, sortField, desc, 1), TwoRows();
    MatchingEverything(k, rows);
    ShadowedFollow(k, schema, rows, q, 3);
    var f := FollowQuery(k, schema, rows, q, 3).value;
    if f.done {
      SameSize(f.seen, rows);
    }
  }

  lemma MatchingEverything(k: Codec, rows: seq<Row>)
    ensures Matching(k, None, None, rows) == rows
  {
    WhereAll(r => Selected(k, None, None, r), rows);
  }

  lemma SameSize<T>(a: seq<T>, b: seq<T>)
    requires |a| != |b|
    ensures multiset(a) != multiset(b)
  {
    assert |multiset(a)| == |a| && |multiset(b)| == |b|;
  }

  // ----------------------------------------------------------- renaming a column

  function RenameField(old_: string, new_: string, name: string): string {
    if name == old_ then new_ else name
  }

  /** A column's type under its new name. */
  function RenameSchema(schema: Schema, old_: string, new_: string): Schema
    requires old_ in schema
  {
    (schema - {old_})[new_ := schema[old_]]
  }

  /** The stored value moves with the name, where there is one. */
  function RenameKey(row: Row, old_: string, new_: string): Row {
    if old_ in row.data then row.(data := (row.data - {old_})[new_ := row.data[old_]]) else row
  }

  function RenameSpec(spec: Spec, old_: string, new_: string): Spec {
    match spec
    case NotAnObject => NotAnObject
    case Node(conj, disj, condition) =>
      Node(
        if conj.Items? then Items(RenameSpecs(conj.items, old_, new_)) else conj,
        if disj.Items? then Items(RenameSpecs(disj.items, old_, new_)) else disj,
        if condition.Some? then Some(condition.value.(field := RenameField(old_, new_, condition.value.field))) else None)
  }

  function RenameSpecs(items: seq<Spec>, old_: string, new_: string): (r: seq<Spec>)
    ensures |r| == |items|
  {
    if items == [] then [] else [RenameSpec(items[0], old_, new_)] + RenameSpecs(items[1..], old_, new_)
  }

  function RenameQuery(q: Query, old_: string, new_: string): Query {
    q.(filter := if q.filter.Some? then Some(RenameSpec(q.filter.value, old_, new_)) else None,
       sortField := if q.sortField.Some? then Some(RenameField(old_, new_, q.sortField.value)) else None)
  }

  /** What `update_column` demands of a rename, and that neither name is a system
      field's. */
  predicate Renames(schema: Schema, old_: string, new_: string) {
    && old_ in schema && new_ !in schema
    && !SystemName(old_) && !SystemName(new_) && old_ != "" && new_ != ""
  }

  lemma RenamedValue(schema: Schema, old_: string, new_: string, name: string, row: Row)
    requires Renames(schema, old_, new_) && name in schema && new_ !in row.data
    ensures
      var schema', name' := RenameSchema(schema, old_, new_), RenameField(old_, new_, name);
      name' in schema' && schema'[name'] == schema[name] && Stored(RenameKey(row, old_, new_), name') == Stored(row, name)
  {
  }

  /** A resolved field resolves after the rename, to a field with the same value
      in every row. */
  lemma RenamedField(k: Codec, schema: Schema, old_: string, new_: string, name: string, row: Row)
    requires Renames(schema, old_, new_) && new_ !in row.data && ResolveField(schema, name).Some?
    ensures
      var f, f' := ResolveField(schema, name).value,
                   ResolveField(RenameSchema(schema, old_, new_), RenameField(old_, new_, name));
      f'.Some? && KindOf(f'.value) == KindOf(f) && Fetch(k, f'.value, RenameKey(row, old_, new_)) == Fetch(k, f, row)
  {
    hide Extract;
    if !SystemName(name) {
      RenamedValue(schema, old_, new_, name, row);
    }
  }

  /** Both outcomes succeed alike, and then agree on the row. */
  ghost predicate SameOnRow(k: Codec, c: Compiled<Pred>, c': Compiled<Pred>, row: Row, row': Row) {
    c.result.Ok? ==>
      c'.result.Ok? && c'.clauses == c.clauses && Eval(k, c'.result.value, row') == Eval(k, c.result.value, row)
  }

  lemma RenamedCondition(k: Codec, schema: Schema, old_: string, new_: string, c: Condition, row: Row)
    requires Renames(schema, old_, new_) && new_ !in row.data && CompileCondition(k, schema, c).Ok?
    ensures
      var c' := CompileCondition(k, RenameSchema(schema, old_, new_), c.(field := RenameField(old_, new_, c.field)));
      && c'.Ok?
      && Eval(k, c'.value, RenameKey(row, old_, new_)) == Eval(k, CompileCondition(k, schema, c).value, row)
  {
    hide Bind, Fetch, Satisfies, ResolveField, RenameSchema, RenameKey, RenameField;
    RenamedField(k, schema, old_, new_, c.field, row);
  }

  lemma {:induction false} RenamedCompile(k: Codec, schema: Schema, old_: string, new_: string, spec: Spec,
                                          depth: nat, clauses: nat, row: Row)
    requires Renames(schema, old_, new_) && new_ !in row.data
    ensures SameOnRow(k, Compile(k, schema, spec, depth, clauses),
                      Compile(k, RenameSchema(schema, old_, new_), RenameSpec(spec, old_, new_), depth, clauses),
                      row, RenameKey(row, old_, new_))
    decreases spec, 1
  {
    hide CompileCondition, RenameSchema, RenameKey, RenameField, Renames, CompileAll, EvalAll, EvalAny;
    if depth <= 8 && spec.Node? {
      if spec.conj.Items? {
        RenamedCompileAll(k, schema, old_, new_, spec.conj.items, depth + 1, clauses, row);
      } else if spec.conj.Absent? && spec.disj.Items? {
        RenamedCompileAll(k, schema, old_, new_, spec.disj.items, depth + 1, clauses, row);
      } else if spec.condition.Some? && CompileCondition(k, schema, spec.condition.value).Ok? {
        RenamedCondition(k, schema, old_, new_, spec.condition.value, row);
      }
    }
  }

  lemma {:induction false} RenamedCompileAll(k: Codec, schema: Schema, old_: string, new_: string, items: seq<Spec>,
                                             depth: nat, clauses: nat, row: Row)
    requires Renames(schema, old_, new_) && new_ !in row.data
    ensures
      var c := CompileAll(k, schema, items, depth, clauses);
      var c' := CompileAll(k, RenameSchema(schema, old_, new_), RenameSpecs(items, old_, new_), depth, clauses);
      var row' := RenameKey(row, old_, new_);
      c.result.Ok? ==>
        && c'.result.Ok? && c'.clauses == c.clauses
        && EvalAll(k, c'.result.value, row') == EvalAll(k, c.result.value, row)
        && EvalAny(k, c'.result.value, row') == EvalAny(k, c.result.value, row)
    decreases items, 0
  {
    hide Compile, Eval, RenameSpec, RenameSchema, RenameKey;
    if items != [] {
      var items' := RenameSpecs(items, old_, new_);
      hide Renames;
      var first := Compile(k, schema, items[0], depth, clauses);
      RenamedCompile(k, schema, old_, new_, items[0], depth, clauses, row);
      assert items'[1..] == RenameSpecs(items[1..], old_, new_);
      if first.result.Ok? {
        RenamedCompileAll(k, schema, old_, new_, items[1..], depth, first.clauses, row);
      }
    }
  }

  function MapRows(f: Row -> Row, rows: seq<Row>): (r: seq<Row>)
    ensures |r| == |rows|
    ensures forall i :: 0 <= i < |rows| ==> r[i] == f(rows[i])
  {
    if rows == [] then [] else [f(rows[0])] + MapRows(f, rows[1..])
  }

  lemma {:induction false} MapWhere(f: Row -> Row, p: Row -> bool, p': Row -> bool, rows: seq<Row>)
    requires forall r :: r in rows ==> p'(f(r)) == p(r)
    ensures Where(p', MapRows(f, rows)) == MapRows(f, Where(p, rows))
  {
    if rows != [] {
      MapWhere(f, p, p', rows[1..]);
      assert MapRows(f, rows)[1..] == MapRows(f, rows[1..]);
      var kept := Where(p, rows[1..]);
      assert ([rows[0]] + kept)[1..] == kept;
    }
  }

  lemma {:induction false} MapInsert(f: Row -> Row, before: (Row, Row) -> bool, before': (Row, Row) -> bool, x: Row, rows: seq<Row>)
    requires forall r :: r in rows ==> before'(f(x), f(r)) == before(x, r)
    ensures Insert(before', f(x), MapRows(f, rows)) == MapRows(f, Insert(before, x, rows))
  {
    if rows != [] {
      assert MapRows(f, rows)[1..] == MapRows(f, rows[1..]);
      if before(x, rows[0]) {
        assert ([x] + rows)[1..] == rows;
      } else {
        MapInsert(f, before, before', x, rows[1..]);
        var rest := Insert(before, x, rows[1..]);
        assert ([rows[0]] + rest)[1..] == rest;
      }
    }
  }

  lemma {:induction false} MapSort(f: Row -> Row, before: (Row, Row) -> bool, before': (Row, Row) -> bool, rows: seq<Row>)
    requires forall r, x :: r in rows && x in rows ==> before'(f(x), f(r)) == before(x, r)
    ensures Sort(before', MapRows(f, rows)) == MapRows(f, Sort(before, rows))
  {
    if rows != [] {
      assert MapRows(f, rows)[1..] == MapRows(f, rows[1..]);
      MapSort(f, before, before', rows[1..]);
      MapInsert(f, before, before', rows[0], Sort(before, rows[1..]));
    }
  }

  /** Related listings of related rows give related pages with the same cursor. */
  lemma MapPage(f: Row -> Row, l: Listing<Row, Cursor>, l': Listing<Row, Cursor>, rows: seq<Row>, cursor: Option<Cursor>, limit: nat)
    requires limit >= 1
    requires forall r, x :: r in rows && x in rows ==> l'.before(f(x), f(r)) == l.before(x, r)
    requires forall r :: r in rows ==> l'.cursorOf(f(r)) == l.cursorOf(r)
    requires cursor.Some? ==> forall r :: r in rows ==> l'.after(cursor.value, f(r)) == l.after(cursor.value, r)
    ensures
      var page := FetchPage(l, rows, cursor, limit);
      FetchPage(l', MapRows(f, rows), cursor, limit) == Page(MapRows(f, page.rows), page.next)
  {
    hide Sort, Where, MapRows;
    var matching := if cursor.None? then rows else Where(Beyond(l, cursor.value), rows);
    if cursor.Some? {
      MapWhere(f, Beyond(l, cursor.value), Beyond(l', cursor.value), rows);
    }
    MapSort(f, l.before, l'.before, matching);
    hide CutPage;
    var matching' := if cursor.None? then MapRows(f, rows) else Where(Beyond(l', cursor.value), MapRows(f, rows));
    assert matching' == MapRows(f, matching);
    MapCut(f, l, l', Sort(l.before, matching), limit);
  }

  lemma MapCut(f: Row -> Row, l: Listing<Row, Cursor>, l': Listing<Row, Cursor>, sorted: seq<Row>, limit: nat)
    requires limit >= 1
    requires forall r :: r in sorted ==> l'.cursorOf(f(r)) == l.cursorOf(r)
    ensures
      var page := CutPage(l.cursorOf, sorted, limit);
      CutPage(l'.cursorOf, MapRows(f, sorted), limit) == Page(MapRows(f, page.rows), page.next)
  {
    hide MapRows;
    if |sorted| > limit {
      assert sorted[limit - 1] in sorted;
      assert sorted[..limit + 1][..limit] == sorted[..limit];
      assert MapRows(f, sorted)[..limit + 1][..limit] == MapRows(f, sorted[..limit]);
    }
  }

  lemma RenamedSort(k: Codec, schema: Schema, old_: string, new_: string, sortField: Option<string>, row: Row)
    requires Renames(schema, old_, new_) && new_ !in row.data && ResolveSort(schema, sortField).Some?
    ensures
      var schema' := RenameSchema(schema, old_, new_);
      var sortField' := if sortField.Some? then Some(RenameField(old_, new_, sortField.value)) else None;
      var f, f' := ResolveSort(schema, sortField).value, ResolveSort(schema', sortField');
      && f'.Some? && KindOf(f'.value) == KindOf(f)
      && Fetch(k, f'.value, RenameKey(row, old_, new_)) == Fetch(k, f, row)
      && CursorValue(k, schema', sortField', RenameKey(row, old_, new_)) == CursorValue(k, schema, sortField, row)
  {
    hide Extract;
    if sortField.Some? && sortField.value in schema {
      RenamedValue(schema, old_, new_, sortField.value, row);
    }
  }

  lemma RenamedMatching(k: Codec, schema: Schema, old_: string, new_: string, rows: seq<Row>, q: Query)
    requires Renames(schema, old_, new_) && forall r :: r in rows ==> new_ !in r.data
    requires CompiledFilter(k, schema, q.filter).Ok?
    ensures
      var filter' := CompiledFilter(k, RenameSchema(schema, old_, new_), RenameQuery(q, old_, new_).filter);
      var f := (r: Row) => RenameKey(r, old_, new_);
      && filter'.Ok?
      && Matching(k, q.user, filter'.value, MapRows(f, rows))
         == MapRows(f, Matching(k, q.user, CompiledFilter(k, schema, q.filter).value, rows))
  {
    hide Compile, Eval, RenameSchema, RenameSpec, MapRows, Where;
    var filter := CompiledFilter(k, schema, q.filter).value;
    var f := (r: Row) => RenameKey(r, old_, new_);
    if q.filter.Some? {
      RenamedCompile(k, schema, old_, new_, q.filter.value, 0, 0, Row(0, None, 0, 0, map[]));
    }
    var filter' := CompiledFilter(k, RenameSchema(schema, old_, new_), RenameQuery(q, old_, new_).filter).value;
    forall r | r in rows
      ensures Selected(k, q.user, filter', f(r)) == Selected(k, q.user, filter, r)
    {
      if q.filter.Some? {
        RenamedCompile(k, schema, old_, new_, q.filter.value, 0, 0, r);
      }
    }
    MapWhere(f, r => Selected(k, q.user, filter, r), r => Selected(k, q.user, filter', r), rows);
  }

  /** Renaming a column commutes with querying: the renamed query on the renamed
      rows returns the same rows, renamed, in the same order, and the same cursor. */
  lemma RenameCommutes(k: Codec, schema: Schema, old_: string, new_: string, rows: seq<Row>, q: Query, cursor: Option<Cursor>)
    requires Renames(schema, old_, new_) && q.limit >= 1
    requires forall r :: r in rows ==> new_ !in r.data
    requires QueryRows(k, schema, rows, q, cursor).Ok?
    ensures
      var page := QueryRows(k, schema, rows, q, cursor).value;
      var f := (r: Row) => RenameKey(r, old_, new_);
      && QueryRows(k, RenameSchema(schema, old_, new_), MapRows(f, rows), RenameQuery(q, old_, new_), cursor)
         == Ok(Page(MapRows(f, page.rows), page.next))
      && forall i :: 0 <= i < |page.rows| ==> MapRows(f, page.rows)[i].id == page.rows[i].id
  {
    hide CompiledFilter, RenameSchema, ResolveSort, CursorValue, Fetch, Bind, KeysetPredicate, Before, FetchPage, MapRows, Where, Eval, Selected;
    var f := (r: Row) => RenameKey(r, old_, new_);
    var schema', q' := RenameSchema(schema, old_, new_), RenameQuery(q, old_, new_);
    RenamedMatching(k, schema, old_, new_, rows, q);
    var matching := Matching(k, q.user, CompiledFilter(k, schema, q.filter).value, rows);
    RenamedSort(k, schema, old_, new_, q.sortField, Row(0, None, 0, 0, map[]));
    var s, s' := ResolveSort(schema, q.sortField).value, ResolveSort(schema', q'.sortField).value;
    RenamedListing(k, schema, old_, new_, q, matching, cursor);
    MapPage(f, ListingBy(k, schema, q.sortField, s, q.desc), ListingBy(k, schema', q'.sortField, s', q.desc), matching, cursor, q.limit);
  }

  lemma RenamedListing(k: Codec, schema: Schema, old_: string, new_: string, q: Query, rows: seq<Row>, cursor: Option<Cursor>)
    requires Renames(schema, old_, new_) && forall r :: r in rows ==> new_ !in r.data
    requires ResolveSort(schema, q.sortField).Some?
    ensures
      var schema', q' := RenameSchema(schema, old_, new_), RenameQuery(q, old_, new_);
      ResolveSort(schema', q'.sortField).Some?
      && var l := ListingBy(k, schema, q.sortField, ResolveSort(schema, q.sortField).value, q.desc);
         var l' := ListingBy(k, schema', q'.sortField, ResolveSort(schema', q'.sortField).value, q.desc);
         var f := (r: Row) => RenameKey(r, old_, new_);
         && (forall r, x :: r in rows && x in rows ==> l'.before(f(x), f(r)) == l.before(x, r))
         && (forall r :: r in rows ==> l'.cursorOf(f(r)) == l.cursorOf(r))
         && (cursor.Some? ==> forall r :: r in rows ==> l'.after(cursor.value, f(r)) == l.after(cursor.value, r))
  {
    hide RenameSchema, ResolveSort, CursorValue, Fetch, Bind, KeysetPredicate, Before, RenameField;
    RenamedSort(k, schema, old_, new_, q.sortField, Row(0, None, 0, 0, map[]));
    forall r | r in rows
      ensures
        var schema', q' := RenameSchema(schema, old_, new_), RenameQuery(q, old_, new_);
        var s, s' := ResolveSort(schema, q.sortField).value, ResolveSort(schema', q'.sortField).value;
        && KindOf(s') == KindOf(s)
        && KeyOf(k, s', RenameKey(r, old_, new_)) == KeyOf(k, s, r)
        && CursorValue(k, schema', q'.sortField, RenameKey(r, old_, new_)) == CursorValue(k, schema, q.sortField, r)
    {
      RenamedSort(k, schema, old_, new_, q.sortField, r);
    }
  }

  // ------------------------------------------------- when a rename is harmless

  /** What is answered to a query is answered to the renamed query, on the renamed
      rows. */
  ghost predicate RenamedAlike(k: Codec, schema: Schema, old_: string, new_: string, rows: seq<Row>, q: Query, cursor: Option<Cursor>)
    requires old_ in schema && q.limit >= 1
  {
    var page := QueryRows(k, schema, rows, q, cursor);
    var f := (r: Row) => RenameKey(r, old_, new_);
    page.Ok? ==>
      QueryRows(k, RenameSchema(schema, old_, new_), MapRows(f, rows), RenameQuery(q, old_, new_), cursor)
      == Ok(Page(MapRows(f, page.value.rows), page.value.next))
  }

  /** So for every content of the table, every query and every cursor. */
  ghost predicate RenameSafe(k: Codec, schema: Schema, old_: string, new_: string)
    requires old_ in schema
  {
    forall rows: seq<Row>, q: Query, cursor: Option<Cursor> ::
      q.limit >= 1 && (forall r :: r in rows ==> new_ !in r.data) ==> RenamedAlike(k, schema, old_, new_, rows, q, cursor)
  }

  /** Renaming a column leaves every answer alone exactly when neither name is a
      system field's, which stands for that field and not for the column. */
  lemma RenameSafeExactly(k: Codec, schema: Schema, old_: string, new_: string)
    requires old_ in schema && new_ !in schema && old_ != "" && new_ != ""
    ensures RenameSafe(k, schema, old_, new_) <==> !SystemName(old_) && !SystemName(new_)
  {
    hide QueryRows, MapRows;
    if !SystemName(old_) && !SystemName(new_) {
      forall rows: seq<Row>, q: Query, cursor: Option<Cursor> | q.limit >= 1 && (forall r :: r in rows ==> new_ !in r.data)
        ensures RenamedAlike(k, schema, old_, new_, rows, q, cursor)
      {
        if QueryRows(k, schema, rows, q, cursor).Ok? {
          RenameCommutes(k, schema, old_, new_, rows, q, cursor);
        }
      }
    } else if SystemName(old_) && SystemName(new_) {
      ExchangeFails(k, schema, old_, new_);
      assert !RenamedAlike(k, schema, old_, new_, Crossed(), SortedBy(old_), None);
    } else {
      SystemNameFails(k, schema, old_, new_);
      var op := if SystemName(old_) then "neq" else "eq";
      assert !RenamedAlike(k, schema, old_, new_, [BareRow()], AskedOfNull(old_, op), None);
    }
  }

  /** A row without values. */
  function BareRow(): Row { Row(1, None, 1, 1, map[]) }

  function AskedOfNull(name: string, op: string): Query {
    Query(None, Some(Node(Absent, Absent, Some(Condition(name, Some(op), JNull)))), None, false, 1)
  }

  /** A system field is never null, and a column without a value is. */
  lemma NullQuery(k: Codec, schema: Schema, name: string, op: string)
    requires (op == "eq" || op == "neq") && (SystemName(name) || name in schema)
    ensures CompiledFilter(k, schema, AskedOfNull(name, op).filter).Ok?
    ensures Selected(k, None, CompiledFilter(k, schema, AskedOfNull(name, op).filter).value, BareRow())
       <==> (SystemName(name) <==> op == "neq")
  {
    var c := Condition(name, Some(op), JNull);
    assert Compile(k, schema, Node(Absent, Absent, Some(c)), 0, 0).result == CompileCondition(k, schema, c);
  }

  lemma BareAnswer(k: Codec, schema: Schema, name: string, op: string)
    requires (op == "eq" || op == "neq") && (SystemName(name) || name in schema)
    ensures QueryRows(k, schema, [BareRow()], AskedOfNull(name, op), None)
         == Ok(Page(if SystemName(name) <==> op == "neq" then [BareRow()] else [], None))
  {
    NullQuery(k, schema, name, op);
    hide CompiledFilter, Selected, ListingBy;
    var filter := CompiledFilter(k, schema, AskedOfNull(name, op).filter).value;
    OneWhere(r => Selected(k, None, filter, r), BareRow());
  }

  lemma OneWhere(p: Row -> bool, row: Row)
    ensures Where(p, [row]) == if p(row) then [row] else []
  {
    assert [row][1..] == [];
  }

  /** One of the names is a system field's: the column is null and the field is
      not. */
  lemma SystemNameFails(k: Codec, schema: Schema, old_: string, new_: string)
    requires old_ in schema && new_ !in schema && (SystemName(old_) <==> !SystemName(new_))
    ensures !RenamedAlike(k, schema, old_, new_, [BareRow()], AskedOfNull(old_, if SystemName(old_) then "neq" else "eq"), None)
  {
    var op := if SystemName(old_) then "neq" else "eq";
    BareAnswer(k, schema, old_, op);
    BareAnswer(k, RenameSchema(schema, old_, new_), new_, op);
    hide QueryRows, RenameSchema;
    var f := (r: Row) => RenameKey(r, old_, new_);
    assert MapRows(f, [BareRow()]) == [BareRow()];
    assert RenameQuery(AskedOfNull(old_, op), old_, new_) == AskedOfNull(new_, op);
  }

  /** Two rows that one system field orders one way and the other the other way. */
  function Crossed(): seq<Row> {
    [Row(1, None, 1, 2, map[]), Row(2, None, 2, 1, map[])]
  }

  function SortedBy(name: string): Query { Query(None, None, Some(name), false, 2) }

  lemma CrossedOrder(k: Codec, schema: Schema, name: string)
    requires SystemName(name)
    ensures
      var f := ResolveSort(schema, Some(name));
      f.Some? && (ListingBy(k, schema, Some(name), f.value, false).before(Crossed()[0], Crossed()[1]) <==> name == "created_at")
  {
    assert "created_at"[0] != "updated_at"[0];
    var f := ResolveSort(schema, Some(name)).value;
    var a, b := Crossed()[0], Crossed()[1];
    assert KeyOf(k, f, a) == Key(Value(SqlTime(if f.Created? then 1 else 2)), 1);
    assert KeyOf(k, f, b) == Key(Value(SqlTime(if f.Created? then 2 else 1)), 2);
    var less := (x: Sql, y: Sql) => Less(k, x, y);
    assert less(SqlTime(1), SqlTime(2)) && !less(SqlTime(2), SqlTime(1));
    assert Before(less, false, KeyOf(k, f, a), KeyOf(k, f, b)) <==> f.Created?;
  }

  lemma CrossedAnswer(k: Codec, schema: Schema, name: string)
    requires SystemName(name)
    ensures
      var page := QueryRows(k, schema, Crossed(), SortedBy(name), None);
      page.Ok? && page.value.rows == if name == "created_at" then Crossed() else [Crossed()[1], Crossed()[0]]
  {
    MatchingEverything(k, Crossed());
    var f := ResolveSort(schema, Some(name)).value;
    var l := ListingBy(k, schema, Some(name), f, false);
    var a, b := Crossed()[0], Crossed()[1];
    CrossedOrder(k, schema, name);
    hide ListingBy, ResolveSort;
    TwoSorted(l.before, a, b);
    assert Crossed() == [a, b];
  }

  lemma TwoSorted(before: (Row, Row) -> bool, a: Row, b: Row)
    ensures Sort(before, [a, b]) == if before(a, b) then [a, b] else [b, a]
  {
    assert [a, b][1..] == [b] && [b][1..] == [];
    assert Sort(before, [b]) == [b];
    assert [b][1..] == [] && Insert(before, a, []) == [a];
    assert Insert(before, a, [b]) == if before(a, b) then [a, b] else [b, a];
  }

  /** Both are: the renamed query sorts by the other field. */
  lemma ExchangeFails(k: Codec, schema: Schema, old_: string, new_: string)
    requires old_ in schema && SystemName(old_) && SystemName(new_) && old_ != new_
    ensures !RenamedAlike(k, schema, old_, new_, Crossed(), SortedBy(old_), None)
  {
    CrossedAnswer(k, schema, old_);
    CrossedAnswer(k, RenameSchema(schema, old_, new_), new_);
    hide QueryRows, RenameSchema;
    var f := (r: Row) => RenameKey(r, old_, new_);
    var rows := QueryRows(k, schema, Crossed(), SortedBy(old_), None).value.rows;
    assert f(Crossed()[0]) == Crossed()[0] && f(Crossed()[1]) == Crossed()[1];
    assert MapRows(f, Crossed()) == Crossed();
    assert MapRows(f, rows) == rows;
    assert RenameQuery(SortedBy(old_), old_, new_) == SortedBy(new_);
  }
}
