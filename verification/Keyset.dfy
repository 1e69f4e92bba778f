/** Keyset pagination: a listing fetched page by page, where each page starts
    strictly after the last row of the one before. */
module Keyset {
  import opened Outcomes
  import opened Arith

  // -------------------------------------------------- SQL's three truth values

  datatype Truth = True | False | Unknown

  function Known(b: bool): Truth { if b then True else False }

  function And3(a: Truth, b: Truth): Truth {
    if a.False? || b.False? then False else if a.True? && b.True? then True else Unknown
  }

  function Or3(a: Truth, b: Truth): Truth {
    if a.True? || b.True? then True else if a.False? && b.False? then False else Unknown
  }

  datatype Nullable<V> = Null | Value(v: V)

  /** What a row is sorted by. */
  datatype Key<V> = Key(sort: Nullable<V>, id: int)

  ghost predicate StrictOrder<T(!new)>(less: (T, T) -> bool) {
    && (forall x :: !less(x, x))
    && (forall x, y, z :: less(x, y) && less(y, z) ==> less(x, z))
    && (forall x, y :: x == y || less(x, y) || less(y, x))
  }

  // --------------------------------------------- ORDER BY and the row predicate

  /** Ascending order puts NULL last, descending order puts it first. */
  predicate Precedes<V>(less: (V, V) -> bool, desc: bool, a: Nullable<V>, b: Nullable<V>) {
    match (a, b)
    case (Value(x), Value(y)) => if desc then less(y, x) else less(x, y)
    case (Value(_), Null) => !desc
    case (Null, Value(_)) => desc
    case (Null, Null) => false
  }

  /** The order of the listing: the sort value, then the row id, both in the
      same direction. */
  predicate Before<V(==)>(less: (V, V) -> bool, desc: bool, a: Key<V>, b: Key<V>) {
    || Precedes(less, desc, a.sort, b.sort)
    || (a.sort == b.sort && if desc then b.id < a.id else a.id < b.id)
  }

  function Less3<V>(less: (V, V) -> bool, x: Nullable<V>, y: V): Truth {
    if x.Null? then Unknown else Known(less(x.v, y))
  }

  function Greater3<V>(less: (V, V) -> bool, x: Nullable<V>, y: V): Truth {
    if x.Null? then Unknown else Known(less(y, x.v))
  }

  function Equal3<V(==)>(x: Nullable<V>, y: V): Truth {
    if x.Null? then Unknown else Known(x.v == y)
  }

  /** The condition put into the WHERE clause to continue after a cursor. */
  function KeysetPredicate<V(==)>(less: (V, V) -> bool, desc: bool, row: Key<V>, cursor: Key<V>): Truth {
    if desc then
      if cursor.sort.Null? then
        Or3(Known(!row.sort.Null?), And3(Known(row.sort.Null?), Known(row.id < cursor.id)))
      else
        Or3(Less3(less, row.sort, cursor.sort.v), And3(Equal3(row.sort, cursor.sort.v), Known(row.id < cursor.id)))
    else if cursor.sort.Null? then
      And3(Known(row.sort.Null?), Known(row.id > cursor.id))
    else
      Or3(Or3(Greater3(less, row.sort, cursor.sort.v),
              And3(Equal3(row.sort, cursor.sort.v), Known(row.id > cursor.id))),
          Known(row.sort.Null?))
  }

  /** In both directions, and with NULL on either side, the condition is true of
      exactly the rows listed after the cursor's. */
  lemma KeysetPredicateMeansAfter<V>(less: (V, V) -> bool, desc: bool, row: Key<V>, cursor: Key<V>)
    ensures KeysetPredicate(less, desc, row, cursor).True? <==> Before(less, desc, cursor, row)
  {
  }

  lemma BeforeIsStrictOrder<V(!new)>(less: (V, V) -> bool, desc: bool)
    requires StrictOrder(less)
    ensures StrictOrder((a: Key<V>, b: Key<V>) => Before(less, desc, a, b))
  {
    forall a: Key<V>, b: Key<V>, c: Key<V> | Before(less, desc, a, b) && Before(less, desc, b, c)
      ensures Before(less, desc, a, c)
    {
    }
  }

  // ------------------------------------------------------- sorting and filtering

  function Where<R(!new)>(p: R -> bool, rows: seq<R>): (out: seq<R>)
    ensures forall r :: r in out <==> r in rows && p(r)
    ensures |out| <= |rows|
  {
    if rows == [] then []
    else (if p(rows[0]) then [rows[0]] else []) + Where(p, rows[1..])
  }

  function Insert<R(!new)>(before: (R, R) -> bool, x: R, rows: seq<R>): (out: seq<R>)
    ensures forall r :: r in out <==> r == x || r in rows
    ensures |out| == |rows| + 1
  {
    if rows == [] then [x]
    else if before(x, rows[0]) then [x] + rows
    else [rows[0]] + Insert(before, x, rows[1..])
  }

  /** ORDER BY. */
  function Sort<R(!new)>(before: (R, R) -> bool, rows: seq<R>): (out: seq<R>)
    ensures forall r :: r in out <==> r in rows
    ensures |out| == |rows|
  {
    if rows == [] then []
    else Insert(before, rows[0], Sort(before, rows[1..]))
  }

  ghost predicate Ordered<R(!new)>(before: (R, R) -> bool, rows: seq<R>) {
    forall i, j :: 0 <= i < j < |rows| ==> before(rows[i], rows[j])
  }

  ghost predicate Transitive<R(!new)>(before: (R, R) -> bool) {
    && (forall x :: !before(x, x))
    && (forall x, y, z :: before(x, y) && before(y, z) ==> before(x, z))
  }

  /** No two rows share their place. */
  ghost predicate Comparable<R(!new)>(before: (R, R) -> bool, rows: seq<R>) {
    forall i, j :: 0 <= i < j < |rows| ==> before(rows[i], rows[j]) || before(rows[j], rows[i])
  }

  lemma ComparableTail<R(!new)>(before: (R, R) -> bool, rows: seq<R>)
    requires Comparable(before, rows) && rows != []
    ensures Comparable(before, rows[1..])
    ensures forall r :: r in rows[1..] ==> before(rows[0], r) || before(r, rows[0])
  {
  }

  lemma {:induction false} InsertOrdered<R(!new)>(before: (R, R) -> bool, x: R, rows: seq<R>)
    requires Transitive(before) && Ordered(before, rows)
    requires forall r :: r in rows ==> before(x, r) || before(r, x)
    ensures Ordered(before, Insert(before, x, rows))
  {
    if rows != [] && !before(x, rows[0]) {
      InsertOrdered(before, x, rows[1..]);
      var rest := Insert(before, x, rows[1..]);
      forall j | 0 <= j < |rest|
        ensures before(rows[0], rest[j])
      {
        assert rest[j] in rest;
      }
    }
  }

  lemma {:induction false} SortOrdered<R(!new)>(before: (R, R) -> bool, rows: seq<R>)
    requires Transitive(before) && Comparable(before, rows)
    ensures Ordered(before, Sort(before, rows))
  {
    if rows != [] {
      ComparableTail(before, rows);
      SortOrdered(before, rows[1..]);
      InsertOrdered(before, rows[0], Sort(before, rows[1..]));
    }
  }

  lemma {:induction false} InsertPermutes<R(!new)>(before: (R, R) -> bool, x: R, rows: seq<R>)
    ensures multiset(Insert(before, x, rows)) == multiset(rows) + multiset{x}
  {
    if rows != [] && !before(x, rows[0]) {
      InsertPermutes(before, x, rows[1..]);
      assert rows == [rows[0]] + rows[1..];
    }
  }

  lemma {:induction false} SortPermutes<R(!new)>(before: (R, R) -> bool, rows: seq<R>)
    ensures multiset(Sort(before, rows)) == multiset(rows)
  {
    if rows != [] {
      SortPermutes(before, rows[1..]);
      InsertPermutes(before, rows[0], Sort(before, rows[1..]));
      assert rows == [rows[0]] + rows[1..];
    }
  }

  lemma WhereCons<R(!new)>(p: R -> bool, x: R, rows: seq<R>)
    ensures Where(p, [x] + rows) == (if p(x) then [x] else []) + Where(p, rows)
  {
    assert ([x] + rows)[1..] == rows;
  }

  /** In an ordered listing, what comes before the first row comes before all. */
  lemma BeforeAll<R(!new)>(before: (R, R) -> bool, x: R, rows: seq<R>)
    requires Transitive(before) && Ordered(before, rows) && rows != [] && before(x, rows[0])
    ensures forall r :: r in rows ==> before(x, r)
  {
    forall i | 0 <= i < |rows|
      ensures before(x, rows[i])
    {
      if i > 0 {
        assert before(rows[0], rows[i]);
      }
    }
  }

  lemma InsertFirst<R(!new)>(before: (R, R) -> bool, x: R, rows: seq<R>)
    requires forall r :: r in rows ==> before(x, r)
    ensures Insert(before, x, rows) == [x] + rows
  {
  }

  lemma InsertLater<R(!new)>(before: (R, R) -> bool, x: R, first: R, rows: seq<R>)
    requires !before(x, first)
    ensures Insert(before, x, [first] + rows) == [first] + Insert(before, x, rows)
  {
    assert ([first] + rows)[1..] == rows;
  }

  lemma SortCons<R(!new)>(before: (R, R) -> bool, x: R, rows: seq<R>)
    ensures Sort(before, [x] + rows) == Insert(before, x, Sort(before, rows))
  {
    assert ([x] + rows)[1..] == rows;
  }

  lemma {:induction false} WhereInsert<R(!new)>(before: (R, R) -> bool, p: R -> bool, x: R, rows: seq<R>)
    requires Transitive(before) && Ordered(before, rows)
    requires forall r :: r in rows ==> before(x, r) || before(r, x)
    ensures Where(p, Insert(before, x, rows))
         == if p(x) then Insert(before, x, Where(p, rows)) else Where(p, rows)
    decreases |rows|, 1
  {
    hide Transitive, Where, Insert;
    if rows == [] {
      WhereCons(p, x, rows);
      InsertFirst(before, x, rows);
      InsertFirst(before, x, Where(p, rows));
    } else if before(x, rows[0]) {
      BeforeAll(before, x, rows);
      WhereCons(p, x, rows);
      InsertFirst(before, x, rows);
      InsertFirst(before, x, Where(p, rows));
    } else {
      var first, rest := rows[0], rows[1..];
      WhereInsertLater(before, p, x, first, rest);
      assert rows == [first] + rest;
    }
  }

  lemma {:induction false} WhereInsertLater<R(!new)>(before: (R, R) -> bool, p: R -> bool, x: R, first: R, rest: seq<R>)
    requires Transitive(before) && Ordered(before, [first] + rest) && !before(x, first)
    requires forall r :: r in rest ==> before(x, r) || before(r, x)
    ensures Where(p, Insert(before, x, [first] + rest))
         == if p(x) then Insert(before, x, Where(p, [first] + rest)) else Where(p, [first] + rest)
    decreases |rest| + 1, 0
  {
    hide Transitive, Where, Insert;
    assert ([first] + rest)[1..] == rest;
    WhereInsert(before, p, x, rest);
    InsertLater(before, x, first, rest);
    WhereCons(p, first, rest);
    WhereCons(p, first, Insert(before, x, rest));
    InsertLater(before, x, first, Where(p, rest));
    assert [] + Where(p, rest) == Where(p, rest);
    assert [] + Insert(before, x, Where(p, rest)) == Insert(before, x, Where(p, rest));
  }

  /** Sorting and filtering commute. */
  lemma {:induction false} SortWhere<R(!new)>(before: (R, R) -> bool, p: R -> bool, rows: seq<R>)
    requires Transitive(before) && Comparable(before, rows)
    ensures Sort(before, Where(p, rows)) == Where(p, Sort(before, rows))
  {
    hide Transitive, Insert, Comparable, Ordered, Where, Sort;
    if rows == [] {
      SortWhereNone(before, p);
    } else {
      var x, rest := rows[0], rows[1..];
      ComparableTail(before, rows);
      SortWhere(before, p, rest);
      SortOrdered(before, rest);
      WhereInsert(before, p, x, Sort(before, rest));
      assert rows == [x] + rest;
      WhereCons(p, x, rest);
      SortCons(before, x, rest);
      SortCons(before, x, Where(p, rest));
      assert [] + Where(p, rest) == Where(p, rest);
    }
  }

  lemma SortWhereNone<R(!new)>(before: (R, R) -> bool, p: R -> bool)
    ensures Sort(before, Where(p, [])) == Where(p, Sort(before, []))
  {
  }

  lemma {:induction false} WhereAll<R(!new)>(p: R -> bool, rows: seq<R>)
    requires forall r :: r in rows ==> p(r)
    ensures Where(p, rows) == rows
  {
    if rows != [] {
      WhereAll(p, rows[1..]);
    }
  }

  lemma {:induction false} WhereSuffix<R(!new)>(p: R -> bool, rows: seq<R>, k: nat)
    requires k <= |rows|
    requires forall i :: 0 <= i < k ==> !p(rows[i])
    requires forall i :: k <= i < |rows| ==> p(rows[i])
    ensures Where(p, rows) == rows[k..]
  {
    if k == 0 {
      WhereAll(p, rows);
    } else {
      WhereSuffix(p, rows[1..], k - 1);
    }
  }

  // ------------------------------------------------------------------- pages

  /** How a listing is ordered, how it continues after a cursor, and the cursor
      that a row is turned into. */
  datatype Listing<!R, !C> = Listing(before: (R, R) -> bool, after: (C, R) -> bool, cursorOf: R -> C)

  datatype Page<R, C> = Page(rows: seq<R>, next: Option<C>)

  /** Fetch one row more than asked for, to learn whether there is a next page. */
  function CutPage<R(!new), C>(cursorOf: R -> C, sorted: seq<R>, limit: nat): Page<R, C>
    requires limit >= 1
  {
    var fetched := if |sorted| > limit + 1 then sorted[..limit + 1] else sorted;
    if |fetched| > limit then Page(fetched[..limit], Some(cursorOf(fetched[limit - 1]))) else Page(fetched, None)
  }

  /** The rows a cursor continues with. */
  function Beyond<R(!new), C>(l: Listing<R, C>, c: C): R -> bool {
    r => l.after(c, r)
  }

  function FetchPage<R(!new), C>(l: Listing<R, C>, rows: seq<R>, cursor: Option<C>, limit: nat): Page<R, C>
    requires limit >= 1
  {
    var matching := if cursor.None? then rows else Where(Beyond(l, cursor.value), rows);
    CutPage(l.cursorOf, Sort(l.before, matching), limit)
  }

  /** A reader who follows the cursors: what it has seen, and where it is. */
  datatype Progress<R, C> = Progress(seen: seq<R>, cursor: Option<C>, done: bool)

  function Advance<R(!new), C>(progress: Progress<R, C>, page: Page<R, C>): Progress<R, C> {
    Progress(progress.seen + page.rows, page.next, page.next.None?)
  }

  function Follow<R(!new), C>(l: Listing<R, C>, rows: seq<R>, limit: nat, pages: nat): Progress<R, C>
    requires limit >= 1
  {
    if pages == 0 then Progress([], None, false)
    else
      var sofar := Follow(l, rows, limit, pages - 1);
      if sofar.done then sofar else Advance(sofar, FetchPage(l, rows, sofar.cursor, limit))
  }

  /** A cursor continues exactly after the row it was made from. */
  ghost predicate Continues<R(!new), C>(l: Listing<R, C>, rows: seq<R>) {
    forall r, x :: r in rows && x in rows ==> (l.after(l.cursorOf(r), x) <==> l.before(r, x))
  }

  ghost predicate Pageable<R(!new), C>(l: Listing<R, C>, rows: seq<R>) {
    Transitive(l.before) && Comparable(l.before, rows) && Continues(l, rows)
  }

  function Least(a: nat, b: nat): nat { if a <= b then a else b }

  /** What continuing after place `k` of the sorted listing selects. */
  lemma RestAfter<R(!new), C>(l: Listing<R, C>, rows: seq<R>, k: nat)
    requires Pageable(l, rows) && 1 <= k <= |rows|
    ensures
      var sorted := Sort(l.before, rows);
      Where(Beyond(l, l.cursorOf(sorted[k - 1])), sorted) == sorted[k..]
  {
    hide Sort, Where, Comparable;
    var sorted := Sort(l.before, rows);
    var p := Beyond(l, l.cursorOf(sorted[k - 1]));
    SortOrdered(l.before, rows);
    forall i | 0 <= i < |sorted|
      ensures p(sorted[i]) <==> k <= i
    {
      assert sorted[i] in rows && sorted[k - 1] in rows;
      if i < k - 1 {
        assert l.before(sorted[i], sorted[k - 1]);
      }
    }
    WhereSuffix(p, sorted, k);
  }

  lemma NextPage<R(!new), C>(l: Listing<R, C>, rows: seq<R>, k: nat, limit: nat)
    requires Pageable(l, rows) && limit >= 1 && 1 <= k <= |rows|
    ensures
      var sorted := Sort(l.before, rows);
      FetchPage(l, rows, Some(l.cursorOf(sorted[k - 1])), limit) == CutPage(l.cursorOf, sorted[k..], limit)
  {
    hide Sort, Where, Transitive, Comparable, Continues, CutPage;
    var sorted := Sort(l.before, rows);
    var c := l.cursorOf(sorted[k - 1]);
    RestAfter(l, rows, k);
    SortWhere(l.before, Beyond(l, c), rows);
  }

  /** The reader has seen the first `n` rows of the sorted listing and knows
      whether more are left. */
  ghost predicate HasSeen<R(!new), C>(l: Listing<R, C>, rows: seq<R>, f: Progress<R, C>, n: nat) {
    if n == 0 then f == Progress([], None, false)
    else
      var sorted := Sort(l.before, rows);
      && f.seen == sorted[..Least(n, |rows|)]
      && (f.done <==> n >= |rows|)
      && (!f.done ==> f.cursor == Some(l.cursorOf(sorted[n - 1])))
  }

  lemma SeesMore<R(!new), C>(l: Listing<R, C>, rows: seq<R>, f: Progress<R, C>, n: nat, limit: nat)
    requires Pageable(l, rows) && limit >= 1 && HasSeen(l, rows, f, n) && !f.done
    ensures HasSeen(l, rows, Advance(f, FetchPage(l, rows, f.cursor, limit)), n + limit)
  {
    hide Sort, Where, Transitive, Comparable, Continues, Pageable, CutPage;
    var sorted := Sort(l.before, rows);
    if n > 0 {
      NextPage(l, rows, n, limit);
    }
    assert sorted[0..] == sorted;
    assert FetchPage(l, rows, f.cursor, limit) == CutPage(l.cursorOf, sorted[n..], limit);
    CutMore(l.cursorOf, sorted, n, limit);
  }

  lemma CutMore<R(!new), C>(cursorOf: R -> C, sorted: seq<R>, n: nat, limit: nat)
    requires limit >= 1 && n <= |sorted|
    ensures
      var page := CutPage(cursorOf, sorted[n..], limit);
      && sorted[..n] + page.rows == sorted[..Least(n + limit, |sorted|)]
      && (page.next.None? <==> n + limit >= |sorted|)
      && (page.next.Some? ==> page.next == Some(cursorOf(sorted[n + limit - 1])))
  {
    var rest := sorted[n..];
    if |rest| > limit {
      assert rest[..limit + 1][..limit] == rest[..limit];
      assert sorted[..n] + rest[..limit] == sorted[..n + limit];
    } else {
      assert sorted[..n] + rest == sorted;
      assert sorted[..|sorted|] == sorted;
    }
  }

  function Asked(limit: nat, pages: nat): nat { limit * pages }

  /** After any number of pages the reader has seen exactly that many rows of the
      sorted listing. */
  lemma {:induction false} FollowSees<R(!new), C>(l: Listing<R, C>, rows: seq<R>, limit: nat, pages: nat)
    requires Pageable(l, rows) && limit >= 1
    ensures HasSeen(l, rows, Follow(l, rows, limit, pages), Asked(limit, pages))
    decreases pages
  {
    hide Pageable, Sort, FetchPage;
    if pages > 0 {
      FollowSees(l, rows, limit, pages - 1);
      MulDist(limit, pages - 1, 1);
      var sofar := Follow(l, rows, limit, pages - 1);
      if !sofar.done {
        hide HasSeen;
        SeesMore(l, rows, sofar, Asked(limit, pages - 1), limit);
      }
    }
  }

  /** Following the cursors ends, after as many pages as rows at the latest, and
      by then every row has been listed once, in order. */
  lemma FollowListsEverything<R(!new), C>(l: Listing<R, C>, rows: seq<R>, limit: nat, pages: nat)
    requires Pageable(l, rows) && limit >= 1 && pages > |rows|
    ensures
      var f := Follow(l, rows, limit, pages);
      f.done && f.seen == Sort(l.before, rows) && Ordered(l.before, f.seen) && multiset(f.seen) == multiset(rows)
  {
    hide Sort, Transitive, Comparable, Continues, Follow;
    FollowSees(l, rows, limit, pages);
    SortOrdered(l.before, rows);
    SortPermutes(l.before, rows);
    MulMono(pages, 1, limit);
    MulComm(pages, limit);
    assert Sort(l.before, rows)[..|rows|] == Sort(l.before, rows);
  }

  // ------------------------------------------------- the listing of a bucket

  datatype StoredName = StoredName(key: string, id: int)

  /** Objects are listed by key and then id, and a cursor is that pair. */
  predicate NameBefore(less: (string, string) -> bool, a: StoredName, b: StoredName) {
    less(a.key, b.key) || (a.key == b.key && a.id < b.id)
  }

  function ObjectListing<R(!new)>(less: (string, string) -> bool, name: R -> StoredName): Listing<R, StoredName> {
    Listing((a, b) => NameBefore(less, name(a), name(b)), (c, r) => NameBefore(less, c, name(r)), name)
  }

  lemma NameBeforeTransitive(less: (string, string) -> bool, a: StoredName, b: StoredName, c: StoredName)
    requires StrictOrder(less) && NameBefore(less, a, b) && NameBefore(less, b, c)
    ensures NameBefore(less, a, c)
  {
  }

  lemma ObjectListingPageable<R(!new)>(less: (string, string) -> bool, name: R -> StoredName, rows: seq<R>)
    requires StrictOrder(less)
    requires forall i, j :: 0 <= i < j < |rows| ==> name(rows[i]).id != name(rows[j]).id
    ensures Pageable(ObjectListing(less, name), rows)
  {
    var l := ObjectListing(less, name);
    forall x | true
      ensures !l.before(x, x)
    {
      assert !less(name(x).key, name(x).key);
    }
    forall x, y, z | l.before(x, y) && l.before(y, z)
      ensures l.before(x, z)
    {
      NameBeforeTransitive(less, name(x), name(y), name(z));
    }
    forall i, j | 0 <= i < j < |rows|
      ensures l.before(rows[i], rows[j]) || l.before(rows[j], rows[i])
    {
      var a, b := name(rows[i]), name(rows[j]);
      assert a.key == b.key || less(a.key, b.key) || less(b.key, a.key);
    }
  }

  lemma ObjectListingPages<R(!new)>(less: (string, string) -> bool, name: R -> StoredName, rows: seq<R>, limit: nat, pages: nat)
    requires StrictOrder(less) && limit >= 1 && pages > |rows|
    requires forall i, j :: 0 <= i < j < |rows| ==> name(rows[i]).id != name(rows[j]).id
    ensures
      var l := ObjectListing(less, name);
      var f := Follow(l, rows, limit, pages);
      f.done && Ordered(l.before, f.seen) && multiset(f.seen) == multiset(rows)
  {
    hide Pageable, Sort, Follow;
    ObjectListingPageable(less, name, rows);
    FollowListsEverything(ObjectListing(less, name), rows, limit, pages);
  }
}
