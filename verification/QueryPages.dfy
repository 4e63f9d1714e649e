/** A whole query: documents, a filter and an index range in, pages of documents out. */
module QueryPages {
  import opened ByteStrings
  import opened WireValues
  import opened OrderKeys
  import opened Projection
  import F = Filters
  import R = IndexRanges
  import P = Pagination

  /** A stored document: the row that its write left, its creation text and its canonical text. */
  datatype Stored = Stored(row: F.Row, doc: F.Doc, created: Bytes, json: Bytes)

  datatype Query = Query(table: F.Table, fields: seq<Bytes>, range: seq<R.Bound>, filter: Option<F.Expr>, descending: bool, size: nat)

  // ----- what a query asks for

  /** The document meets the index range and the filter. */
  predicate Matches(q: Query, x: Stored) {
    && (forall b | b in q.range :: F.FieldAgainst(q.table, x.doc, b.field, b.op, b.value))
    && (q.filter.Some? ==> F.Holds(q.table, q.filter.value, x.doc))
  }

  /** a comes before b: by the protocol values of the index fields, then by creation, then by id. */
  predicate DocumentBefore(q: Query, a: Stored, b: Stored) { BeforeFrom(q, 0, a, b) }

  predicate BeforeFrom(q: Query, i: nat, a: Stored, b: Stored)
    requires i <= |q.fields|
    decreases |q.fields| - i
  {
    if i == |q.fields| then Less(a.created, b.created) || (a.created == b.created && Less(a.row.id, b.row.id))
    else
      var m, n := q.table.FieldMeaning(a.doc, q.fields[i]), q.table.FieldMeaning(b.doc, q.fields[i]);
      Before(m, n) || (m == n && BeforeFrom(q, i + 1, a, b))
  }

  // ----- what the database sees

  function KeyAt(row: F.Row, field: Bytes): Bytes { if field in row.order then row.order[field] else [] }

  function Keys(q: Query, x: Stored): (r: seq<Bytes>)
    ensures |r| == |q.fields|
  {
    seq(|q.fields|, i requires 0 <= i < |q.fields| => KeyAt(x.row, q.fields[i]))
  }

  /** The order columns: the index keys, the creation text and the id. */
  function PositionOf(q: Query, x: Stored): (p: P.Position)
    ensures |p| == Columns(q)
  {
    Keys(q, x) + [x.created, x.row.id]
  }

  function Columns(q: Query): nat { |q.fields| + 2 }

  function AsRow(q: Query, x: Stored): P.Row { P.Row(PositionOf(q, x), x.json) }

  function AsRows(q: Query, xs: seq<Stored>): (r: seq<P.Row>)
    ensures |r| == |xs|
  {
    seq(|xs|, i requires 0 <= i < |xs| => AsRow(q, xs[i]))
  }

  /** The query is over a declared index, and the documents are stored under it with unique ids. Index keys may have
      any length. */
  ghost predicate Sound(q: Query, db: set<Stored>) {
    var ok :=
      && q.table.Valid() && q.size > 0 && R.DeclaredIndex(q.table, q.fields)
      && (forall x | x in db :: q.table.Stores(x.row, x.doc) && |x.row.id| == P.ID_BYTES && P.GoodKey(x.created))
      && forall a, b | a in db && b in db && a.row.id == b.row.id :: a == b;
    ok
  }

  ghost function Matching(q: Query, db: set<Stored>): set<P.Row> { set x | x in db && Matches(q, x) :: AsRow(q, x) }

  lemma PositionsIdentify(q: Query, db: set<Stored>, a: Stored, b: Stored)
    requires Sound(q, db) && a in db && b in db && PositionOf(q, a) == PositionOf(q, b)
    ensures a == b
  {
    assert PositionOf(q, a)[|q.fields| + 1] == a.row.id && PositionOf(q, b)[|q.fields| + 1] == b.row.id;
  }

  lemma MatchingIsSnapshot(q: Query, db: set<Stored>)
    requires Sound(q, db)
    ensures P.Snapshot(Matching(q, db), Columns(q))
  {
    forall a, b | a in Matching(q, db) && b in Matching(q, db) && a.position == b.position ensures a == b {
      var x :| x in db && Matches(q, x) && a == AsRow(q, x);
      var y :| y in db && Matches(q, y) && b == AsRow(q, y);
      PositionsIdentify(q, db, x, y);
    }
  }

  // ----- compiling

  /** The two compiled predicates; absent when the query has no such part. */
  datatype Plan = Plan(range: Option<(F.Sql, F.Params)>, filter: Option<(F.Sql, F.Params)>)

  predicate SqlSelects(plan: Plan, row: F.Row) {
    && (plan.range.Some? ==> F.Eval(plan.range.value.0, plan.range.value.1, row) == F.Yes)
    && (plan.filter.Some? ==> F.Eval(plan.filter.value.0, plan.filter.value.1, row) == F.Yes)
  }

  /** On every stored document the compiled query selects what the query asks for. */
  ghost predicate Compiled(q: Query, plan: Plan) {
    var ok :=
      forall x: Stored | q.table.Stores(x.row, x.doc) :: SqlSelects(plan, x.row) <==> Matches(q, x);
    ok
  }

  /** The query compiles exactly when its range and its filter fit the table. */
  method Compile(q: Query, range: R.IndexRange) returns (r: Option<Plan>)
    requires q.table.Valid() && range.Valid() && range.fields == q.fields && range.Bounds() == q.range && R.DeclaredIndex(q.table, q.fields)
    ensures r.Some? <==> (forall b | b in q.range :: F.LiteralFits(q.table, b.field, b.value)) && (q.filter.Some? ==> F.Compiles(q.table, q.filter.value))
    ensures r.Some? ==> Compiled(q, r.value)
  {
    var plan := Plan(None, None);
    if range.Bounds() != [] {
      var compiled := R.CompileRange(q.table, range);
      if compiled.None? { return None; }
      plan := plan.(range := compiled);
    }
    if q.filter.Some? {
      var compiled := F.SqlExpression(q.table, q.filter.value);
      if compiled.None? { return None; }
      plan := plan.(filter := compiled);
    }
    r := Some(plan);
  }

  // ----- one page

  datatype Resume = Resume(branches: seq<P.Branch>, params: map<nat, Bytes>)

  /** The row satisfies every predicate of the query that is sent. */
  predicate Chosen(q: Query, plan: Plan, resume: Option<Resume>, x: Stored) {
    SqlSelects(plan, x.row) && (resume.Some? ==> P.Selects(resume.value.branches, resume.value.params, q.descending, PositionOf(q, x)))
  }

  predicate OrderedRows(q: Query, rows: seq<Stored>) {
    forall i, j | 0 <= i < j < |rows| :: P.Beyond(q.descending, PositionOf(q, rows[i]), PositionOf(q, rows[j]))
  }

  /** The database's answer: the first rows that satisfy the predicates, in the order of the columns. */
  ghost predicate DatabaseAnswer(q: Query, plan: Plan, resume: Option<Resume>, db: set<Stored>, rows: seq<Stored>, limit: nat) {
    var ok :=
      && |rows| <= limit && OrderedRows(q, rows)
      && (forall x | x in rows :: x in db && Chosen(q, plan, resume, x))
      && forall x | x in db && Chosen(q, plan, resume, x) && x !in rows ::
           |rows| == limit && forall y | y in rows :: P.Beyond(q.descending, PositionOf(q, y), PositionOf(q, x));
    ok
  }

  /** The predicate sent for a cursor is the one that it compiles to. */
  ghost predicate ResumesAt(q: Query, cursor: Option<P.Cursor>, resume: Option<Resume>) {
    match cursor
    case None => resume.None?
    case Some(c) =>
      && resume.Some? && P.GoodCursor(Columns(q), c)
      && forall p: P.Position | |p| == Columns(q) ::
           P.Selects(resume.value.branches, resume.value.params, q.descending, p) <==> P.Beyond(q.descending, c.Position(), p)
  }

  method ResumeAt(q: Query, cursor: Option<P.Cursor>) returns (ok: bool, resume: Option<Resume>)
    ensures ok <==> cursor.None? || P.GoodCursor(Columns(q), cursor.value)
    ensures ok ==> ResumesAt(q, cursor, resume)
  {
    if cursor.None? { return true, None; }
    var compiled := P.KeysetExpression(Columns(q), q.descending, cursor.value);
    if compiled.None? { return false, None; }
    ok, resume := true, Some(Resume(compiled.value.0, compiled.value.1));
  }

  function From(cursor: Option<P.Cursor>): Option<P.Position> {
    match cursor
    case None => None
    case Some(c) => Some(c.Position())
  }

  /** The document matches and comes after the cursor. */
  predicate Wanted(q: Query, cursor: Option<P.Cursor>, x: Stored) {
    var ok := Matches(q, x) && P.After(q.descending, From(cursor), PositionOf(q, x));
    ok
  }

  /** The first wanted documents in order. */
  ghost predicate Answers(q: Query, cursor: Option<P.Cursor>, db: set<Stored>, rows: seq<Stored>, limit: nat) {
    var ok :=
      && |rows| <= limit && OrderedRows(q, rows)
      && (forall x | x in rows :: x in db && Wanted(q, cursor, x))
      && forall x | x in db && Wanted(q, cursor, x) && x !in rows ::
           |rows| == limit && forall y | y in rows :: P.Beyond(q.descending, PositionOf(q, y), PositionOf(q, x));
    ok
  }

  lemma DatabaseAnswers(q: Query, plan: Plan, cursor: Option<P.Cursor>, resume: Option<Resume>, db: set<Stored>, rows: seq<Stored>, limit: nat)
    requires Sound(q, db) && Compiled(q, plan) && ResumesAt(q, cursor, resume) && DatabaseAnswer(q, plan, resume, db, rows, limit)
    ensures Answers(q, cursor, db, rows, limit)
  {
    assert forall x | x in db :: Chosen(q, plan, resume, x) <==> Wanted(q, cursor, x);
  }

  lemma RowsOfDocuments(q: Query, rows: seq<Stored>, row: P.Row)
    ensures row in AsRows(q, rows) <==> exists x | x in rows :: AsRow(q, x) == row
  {
    var all := AsRows(q, rows);
    if row in all {
      var i :| 0 <= i < |all| && all[i] == row;
      assert rows[i] in rows;
    }
    if x :| x in rows && AsRow(q, x) == row {
      var i :| 0 <= i < |rows| && rows[i] == x;
      assert all[i] == row;
    }
  }

  /** What the database answers is the answer that pagination expects. */
  lemma AnswerIsAnswer(q: Query, cursor: Option<P.Cursor>, db: set<Stored>, rows: seq<Stored>, limit: nat)
    requires Answers(q, cursor, db, rows, limit)
    ensures P.Answer(AsRows(q, rows), Matching(q, db), q.descending, From(cursor), limit)
  {
    var all := AsRows(q, rows);
    forall row | row in all ensures row in Matching(q, db) && P.After(q.descending, From(cursor), row.position) {
      RowsOfDocuments(q, rows, row);
    }
    forall row | row in Matching(q, db) && P.After(q.descending, From(cursor), row.position) && row !in all
      ensures |all| == limit && forall other | other in all :: P.Beyond(q.descending, other.position, row.position)
    {
      var x :| x in db && Matches(q, x) && row == AsRow(q, x);
      RowsOfDocuments(q, rows, row);
      assert Wanted(q, cursor, x) && x !in rows;
      forall other | other in all ensures P.Beyond(q.descending, other.position, row.position) {
        RowsOfDocuments(q, rows, other);
      }
    }
  }

  /** A page of documents and the cursor after it. */
  datatype DocumentPage = DocumentPage(documents: seq<Stored>, next: Option<P.Cursor>)

  function AsPage(q: Query, page: DocumentPage): P.Page { P.Page(AsRows(q, page.documents), From(page.next)) }

  /** The cursor of a document: its order columns. */
  function CursorOf(q: Query, x: Stored): (c: P.Cursor)
    ensures c.Position() == PositionOf(q, x)
  {
    assert PositionOf(q, x) == Keys(q, x) + [x.created] + [x.row.id];
    P.Cursor(Keys(q, x) + [x.created], x.row.id)
  }

  /** All index keys are within the limit on a single key of a cursor. */
  predicate ShortKeys(q: Query, x: Stored) { forall f | f in q.fields :: |KeyAt(x.row, f)| <= P.MAX_KEY_BYTES }

  /** A page can be resumed after a stored document exactly when its keys are that short. */
  lemma StoredCursorsAreGood(q: Query, db: set<Stored>, x: Stored)
    requires Sound(q, db) && x in db
    ensures P.GoodCursor(Columns(q), CursorOf(q, x)) <==> ShortKeys(q, x)
  {
    forall k | k in CursorOf(q, x).tuple && ShortKeys(q, x) ensures P.GoodKey(k) {
      if k in Keys(q, x) {
        var i :| 0 <= i < |q.fields| && Keys(q, x)[i] == k;
        assert q.fields[i] in q.fields;
        KeyIsNotEmpty(q, x, q.fields[i]);
      }
    }
    if P.GoodCursor(Columns(q), CursorOf(q, x)) {
      forall f | f in q.fields ensures |KeyAt(x.row, f)| <= P.MAX_KEY_BYTES {
        var i :| 0 <= i < |q.fields| && q.fields[i] == f;
        assert CursorOf(q, x).tuple[i] == KeyAt(x.row, f) && CursorOf(q, x).tuple[i] in CursorOf(q, x).tuple;
      }
    }
  }

  lemma KeyIsNotEmpty(q: Query, x: Stored, f: Bytes)
    requires q.table.Valid() && q.table.Stores(x.row, x.doc) && R.DeclaredIndex(q.table, q.fields) && f in q.fields
    ensures KeyAt(x.row, f) == Encode(q.table.FieldMeaning(x.doc, f)) && KeyAt(x.row, f) != [] && WellFormed(q.table.FieldMeaning(x.doc, f))
  {
    F.StoredKey(q.table, x.row, x.doc, f);
  }

  /** The page that an answer makes: as many documents as asked for, and a cursor if there is one more. */
  function PageFrom(q: Query, rows: seq<Stored>): DocumentPage
    requires q.size > 0
  {
    DocumentPage(rows[..P.Min(|rows|, q.size)], if |rows| > q.size then Some(CursorOf(q, rows[q.size - 1])) else None)
  }

  lemma PageFromAgrees(q: Query, rows: seq<Stored>, page: P.Page)
    requires q.size > 0 && page.rows == AsRows(q, rows)[..P.Min(|rows|, q.size)] && (page.next.Some? <==> |rows| > q.size)
    requires page.next.Some? ==> |page.rows| == q.size && page.next.value == page.rows[q.size - 1].position
    ensures AsPage(q, PageFrom(q, rows)) == page
  {
    assert AsRows(q, PageFrom(q, rows).documents) == page.rows;
  }

  lemma PageFromIsWanted(q: Query, cursor: Option<P.Cursor>, db: set<Stored>, rows: seq<Stored>)
    requires Sound(q, db) && Answers(q, cursor, db, rows, q.size + 1)
    ensures forall x | x in PageFrom(q, rows).documents :: x in db && Matches(q, x)
    ensures |rows| > q.size ==> NextAfter(q, db, PageFrom(q, rows))
  {
    forall x | x in PageFrom(q, rows).documents ensures x in db && Matches(q, x) { assert x in rows && Wanted(q, cursor, x); }
    if |rows| > q.size { LastIsNext(q, cursor, db, rows); }
  }

  lemma LastIsNext(q: Query, cursor: Option<P.Cursor>, db: set<Stored>, rows: seq<Stored>)
    requires Sound(q, db) && Answers(q, cursor, db, rows, q.size + 1) && |rows| > q.size
    ensures NextAfter(q, db, PageFrom(q, rows))
  {
    var last := rows[q.size - 1];
    assert last in rows && LastOf(PageFrom(q, rows)) == last;
    StoredCursorsAreGood(q, db, last);
  }

  /** The next cursor is the last document's, and can be resumed after exactly when its keys are short. */
  predicate NextAfter(q: Query, db: set<Stored>, page: DocumentPage) {
    && page.documents != [] && LastOf(page) in db && page.next == Some(CursorOf(q, LastOf(page)))
    && (P.GoodCursor(Columns(q), CursorOf(q, LastOf(page))) <==> ShortKeys(q, LastOf(page)))
  }

  function LastOf(page: DocumentPage): Stored
    requires page.documents != []
  {
    page.documents[|page.documents| - 1]
  }

  /** The page holds what the query asks for after a position, as the documents stand. */
  ghost predicate PageShows(q: Query, db: set<Stored>, from: Option<P.Position>, page: DocumentPage) {
    var ok :=
      && P.PageOf(AsPage(q, page), Matching(q, db), q.descending, from, q.size)
      && forall x | x in page.documents :: x in db && Matches(q, x);
    ok
  }

  /** One page of the query, from the database's answer to one row more than the page shows. */
  method Page(q: Query, ghost plan: Plan, ghost cursor: Option<P.Cursor>, ghost resume: Option<Resume>, ghost db: set<Stored>, rows: seq<Stored>, maxBytes: int)
    returns (r: Option<DocumentPage>)
    requires Sound(q, db) && Compiled(q, plan) && ResumesAt(q, cursor, resume) && DatabaseAnswer(q, plan, resume, db, rows, q.size + 1)
    ensures r.Some? <==> P.Fits(AsRows(q, rows), P.Min(|rows|, q.size), maxBytes)
    ensures r.Some? ==> r.value == PageFrom(q, rows) && PageShows(q, db, From(cursor), r.value)
    ensures r.Some? && r.value.next.Some? ==> NextAfter(q, db, r.value)
  {
    DatabaseAnswers(q, plan, cursor, resume, db, rows, q.size + 1);
    r := AnsweredPage(q, cursor, db, rows, maxBytes);
  }

  method AnsweredPage(q: Query, ghost cursor: Option<P.Cursor>, ghost db: set<Stored>, rows: seq<Stored>, maxBytes: int)
    returns (r: Option<DocumentPage>)
    requires Sound(q, db) && Answers(q, cursor, db, rows, q.size + 1)
    ensures r.Some? <==> P.Fits(AsRows(q, rows), P.Min(|rows|, q.size), maxBytes)
    ensures r.Some? ==> r.value == PageFrom(q, rows) && PageShows(q, db, From(cursor), r.value)
    ensures r.Some? && r.value.next.Some? ==> NextAfter(q, db, r.value)
  {
    PageFromIsWanted(q, cursor, db, rows);
    r := PaginateDocuments(q, cursor, db, rows, maxBytes);
  }

  method PaginateDocuments(q: Query, ghost cursor: Option<P.Cursor>, ghost db: set<Stored>, rows: seq<Stored>, maxBytes: int)
    returns (r: Option<DocumentPage>)
    requires Sound(q, db) && Answers(q, cursor, db, rows, q.size + 1)
    ensures r.Some? <==> P.Fits(AsRows(q, rows), P.Min(|rows|, q.size), maxBytes)
    ensures r.Some? ==> r.value == PageFrom(q, rows)
    ensures r.Some? ==> P.PageOf(AsPage(q, r.value), Matching(q, db), q.descending, From(cursor), q.size)
  {
    AnswerIsAnswer(q, cursor, db, rows, q.size + 1);
    MatchingIsSnapshot(q, db);
    var page := P.Paginate(Matching(q, db), AsRows(q, rows), q.descending, From(cursor), q.size, maxBytes, Columns(q));
    if page.None? { return None; }
    PageFromAgrees(q, rows, page.value);
    r := Some(PageFrom(q, rows));
  }

  // ----- following cursors

  /** Page i of a walk: the database's answer as the documents stood at that moment, resumed after page i - 1. */
  ghost predicate PageAt(q: Query, dbs: seq<set<Stored>>, pages: seq<DocumentPage>, i: nat)
    requires i < |pages| == |dbs|
  {
    var ok :=
      && Sound(q, dbs[i])
      && PageShows(q, dbs[i], if i == 0 then None else From(pages[i - 1].next), pages[i])
      && (i + 1 < |pages| ==> pages[i].next.Some?);
    ok
  }

  ghost predicate Walk(q: Query, dbs: seq<set<Stored>>, pages: seq<DocumentPage>) {
    |pages| == |dbs| > 0 && forall i: nat | i < |pages| :: PageAt(q, dbs, pages, i)
  }

  ghost function Tables(q: Query, dbs: seq<set<Stored>>): (r: seq<set<P.Row>>)
    ensures |r| == |dbs|
  {
    seq(|dbs|, i requires 0 <= i < |dbs| => Matching(q, dbs[i]))
  }

  function AsPages(q: Query, pages: seq<DocumentPage>): (r: seq<P.Page>)
    ensures |r| == |pages|
  {
    seq(|pages|, i requires 0 <= i < |pages| => AsPage(q, pages[i]))
  }

  function Keyset(q: Query): P.Query { P.Query(Columns(q), q.descending, q.size) }

  lemma PageIsPage(q: Query, dbs: seq<set<Stored>>, pages: seq<DocumentPage>, i: nat)
    requires i < |pages| == |dbs| && PageAt(q, dbs, pages, i)
    ensures P.PageAt(AsPages(q, pages), Tables(q, dbs), Keyset(q), i)
  {
    MatchingIsSnapshot(q, dbs[i]);
    assert AsPages(q, pages)[i] == AsPage(q, pages[i]) && Tables(q, dbs)[i] == Matching(q, dbs[i]);
    if i > 0 { assert AsPages(q, pages)[i - 1] == AsPage(q, pages[i - 1]); }
  }

  lemma WalkIsWalk(q: Query, dbs: seq<set<Stored>>, pages: seq<DocumentPage>)
    requires Walk(q, dbs, pages)
    ensures P.Walk(AsPages(q, pages), Tables(q, dbs), Keyset(q))
  {
    forall i: nat | i < |pages| ensures P.PageAt(AsPages(q, pages), Tables(q, dbs), Keyset(q), i) { PageIsPage(q, dbs, pages, i); }
  }

  /** The document of this order position is stored at this moment and matches. */
  ghost predicate Holds(q: Query, db: set<Stored>, p: P.Position) {
    exists x | x in db :: Matches(q, x) && PositionOf(q, x) == p
  }

  predicate ShowsAt(q: Query, page: DocumentPage, p: P.Position) {
    exists x | x in page.documents :: PositionOf(q, x) == p
  }

  lemma ShowsIsShows(q: Query, page: DocumentPage, p: P.Position)
    ensures P.Shows(AsPage(q, page), p) <==> ShowsAt(q, page, p)
  {
    if x :| x in page.documents && PositionOf(q, x) == p {
      var i :| 0 <= i < |page.documents| && page.documents[i] == x;
      assert AsPage(q, page).rows[i] in AsPage(q, page).rows;
    }
    if row :| row in AsPage(q, page).rows && row.position == p {
      var i :| 0 <= i < |page.documents| && AsPage(q, page).rows[i] == row;
      assert page.documents[i] in page.documents;
    }
  }

  predicate OnlyOn(q: Query, pages: seq<DocumentPage>, i: nat, p: P.Position)
    requires i < |pages|
  {
    forall j: nat | j < |pages| :: ShowsAt(q, pages[j], p) <==> j == i
  }

  /** A document that keeps its index keys, its creation and its id, and matches all the while, is returned on
      exactly one page of a finished walk, in either direction, whatever happens to the others between pages. */
  lemma DocumentsExactlyOnce(q: Query, dbs: seq<set<Stored>>, pages: seq<DocumentPage>, p: P.Position)
    requires Walk(q, dbs, pages) && pages[|pages| - 1].next.None?
    requires forall i: nat | i < |dbs| :: Holds(q, dbs[i], p)
    ensures exists i: nat | i < |pages| :: OnlyOn(q, pages, i, p)
  {
    WalkIsWalk(q, dbs, pages);
    forall k | 0 <= k < |dbs| ensures P.Present(Tables(q, dbs)[k], p) {
      assert Holds(q, dbs[k], p);
      var x :| x in dbs[k] && Matches(q, x) && PositionOf(q, x) == p;
      assert AsRow(q, x) in Matching(q, dbs[k]);
    }
    P.ExactlyOnce(AsPages(q, pages), Tables(q, dbs), Keyset(q), p);
    var i :| 0 <= i < |pages| && P.OnlyOn(AsPages(q, pages), i, p);
    forall j: nat | j < |pages| ensures ShowsAt(q, pages[j], p) <==> j == i {
      ShowsIsShows(q, pages[j], p);
      assert AsPages(q, pages)[j] == AsPage(q, pages[j]);
    }
    assert OnlyOn(q, pages, i, p);
  }

  // ----- the order of documents

  lemma LastColumns(a: Bytes, b: Bytes, c: Bytes, d: Bytes)
    ensures P.TupleLess([a, b], [c, d]) <==> Less(a, c) || (a == c && Less(b, d))
  {
    var s: P.Position, t: P.Position := [a, b], [c, d];
    assert s[1..] == [b] && t[1..] == [d];
    assert P.TupleLess([b], [d]) <==> Less(b, d) by {
      var x: P.Position, y: P.Position := [b], [d];
      assert |x[1..]| == 0 && |y[1..]| == 0;
    }
  }

  /** Comparing positions from a column on. */
  lemma {:induction false} PositionsFollowValues(q: Query, db: set<Stored>, i: nat, a: Stored, b: Stored)
    requires Sound(q, db) && a in db && b in db && i <= |q.fields|
    ensures P.TupleLess(PositionOf(q, a)[i..], PositionOf(q, b)[i..]) <==> BeforeFrom(q, i, a, b)
    decreases |q.fields| - i
  {
    var s, t := PositionOf(q, a)[i..], PositionOf(q, b)[i..];
    if i == |q.fields| {
      assert s == [a.created, a.row.id] && t == [b.created, b.row.id];
      LastColumns(a.created, a.row.id, b.created, b.row.id);
    } else {
      ColumnFollowsValue(q, db, i, a, b);
      PositionsFollowValues(q, db, i + 1, a, b);
    }
  }

  /** One index column. */
  lemma ColumnFollowsValue(q: Query, db: set<Stored>, i: nat, a: Stored, b: Stored)
    requires Sound(q, db) && a in db && b in db && i < |q.fields|
    ensures var m, n := q.table.FieldMeaning(a.doc, q.fields[i]), q.table.FieldMeaning(b.doc, q.fields[i]);
      P.TupleLess(PositionOf(q, a)[i..], PositionOf(q, b)[i..])
      <==> Before(m, n) || (m == n && P.TupleLess(PositionOf(q, a)[i + 1..], PositionOf(q, b)[i + 1..]))
  {
    var s, t := PositionOf(q, a)[i..], PositionOf(q, b)[i..];
    var f := q.fields[i];
    assert f in q.fields && s[0] == KeyAt(a.row, f) && t[0] == KeyAt(b.row, f);
    assert s[1..] == PositionOf(q, a)[i + 1..] && t[1..] == PositionOf(q, b)[i + 1..];
    KeyIsNotEmpty(q, a, f);
    KeyIsNotEmpty(q, b, f);
    EncodeKeepsOrder(q.table.FieldMeaning(a.doc, f), q.table.FieldMeaning(b.doc, f));
  }

  /** The order of the columns is the protocol order of the documents. */
  lemma ColumnsFollowDocuments(q: Query, db: set<Stored>, a: Stored, b: Stored)
    requires Sound(q, db) && a in db && b in db
    ensures P.Beyond(q.descending, PositionOf(q, a), PositionOf(q, b)) <==> if q.descending then DocumentBefore(q, b, a) else DocumentBefore(q, a, b)
  {
    PositionsFollowValues(q, db, 0, a, b);
    PositionsFollowValues(q, db, 0, b, a);
    assert PositionOf(q, a)[0..] == PositionOf(q, a) && PositionOf(q, b)[0..] == PositionOf(q, b);
  }

  function AllDocuments(pages: seq<DocumentPage>): seq<Stored> {
    if pages == [] then [] else AllDocuments(pages[..|pages| - 1]) + pages[|pages| - 1].documents
  }

  lemma {:induction false} AllDocumentsAreAllRows(q: Query, pages: seq<DocumentPage>)
    ensures P.AllRows(AsPages(q, pages)) == AsRows(q, AllDocuments(pages))
    decreases |pages|
  {
    if pages != [] {
      var front, last := pages[..|pages| - 1], pages[|pages| - 1];
      AllDocumentsAreAllRows(q, front);
      assert AsPages(q, pages)[..|pages| - 1] == AsPages(q, front);
      assert AsRows(q, AllDocuments(front) + last.documents) == AsRows(q, AllDocuments(front)) + AsRows(q, last.documents);
    }
  }

  lemma {:induction false} ShownDocumentsMatch(q: Query, dbs: seq<set<Stored>>, db: set<Stored>, pages: seq<DocumentPage>, k: nat)
    requires Walk(q, dbs, pages) && k <= |pages| && forall i: nat | i < |dbs| :: dbs[i] == db
    ensures forall x | x in AllDocuments(pages[..k]) :: x in db && Matches(q, x)
    decreases k
  {
    if k > 0 {
      ShownDocumentsMatch(q, dbs, db, pages, k - 1);
      assert PageAt(q, dbs, pages, k - 1);
      assert pages[..k][..k - 1] == pages[..k - 1];
    }
  }

  /** On documents that do not change, the pages one after another are exactly the documents that the query asks
      for, each once, in the protocol order of the index. */
  lemma PagesAreTheQuery(q: Query, db: set<Stored>, pages: seq<DocumentPage>)
    requires Walk(q, seq(|pages|, _ => db), pages) && pages[|pages| - 1].next.None?
    ensures forall x :: x in AllDocuments(pages) <==> x in db && Matches(q, x)
    ensures forall i, j | 0 <= i < j < |AllDocuments(pages)| ::
      if q.descending then DocumentBefore(q, AllDocuments(pages)[j], AllDocuments(pages)[i])
      else DocumentBefore(q, AllDocuments(pages)[i], AllDocuments(pages)[j])
  {
    var dbs := seq(|pages|, _ => db);
    var all := AllDocuments(pages);
    WalkIsWalk(q, dbs, pages);
    assert Tables(q, dbs) == seq(|pages|, _ => Matching(q, db));
    P.PagesAreTheSortedResult(AsPages(q, pages), Matching(q, db), Keyset(q));
    AllDocumentsAreAllRows(q, pages);
    ShownDocumentsMatch(q, dbs, db, pages, |pages|);
    assert pages[..|pages|] == pages && PageAt(q, dbs, pages, 0);
    forall x ensures x in all <==> x in db && Matches(q, x) {
      if x in db && Matches(q, x) { MatchingIsShown(q, db, all, x); }
    }
    forall i, j | 0 <= i < j < |all|
      ensures if q.descending then DocumentBefore(q, all[j], all[i]) else DocumentBefore(q, all[i], all[j])
    {
      assert AsRows(q, all)[i] == AsRow(q, all[i]) && AsRows(q, all)[j] == AsRow(q, all[j]);
      ColumnsFollowDocuments(q, db, all[i], all[j]);
    }
  }

  lemma MatchingIsShown(q: Query, db: set<Stored>, all: seq<Stored>, x: Stored)
    requires Sound(q, db) && x in db && Matches(q, x) && (forall y | y in all :: y in db)
    requires forall row :: row in AsRows(q, all) <==> row in Matching(q, db)
    ensures x in all
  {
    assert AsRow(q, x) in Matching(q, db);
    var i :| 0 <= i < |all| && AsRows(q, all)[i] == AsRow(q, x);
    assert all[i] in all;
    PositionsIdentify(q, db, x, all[i]);
  }
}
