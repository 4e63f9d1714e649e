/** Keyset pagination: a page resumes after the position of the last row of the page before it. */
module Pagination {
  import opened ByteStrings

  const MAX_KEY_BYTES: nat := 4096
  const ID_BYTES: nat := 15

  const OPEN: byte := 91  // "["
  const COMMA: byte := 44  // ","
  const CLOSE: byte := 93  // "]"

  /** A position is the row's index keys, its creation text and its id, compared component by component. */
  type Position = seq<Bytes>

  /** A row that satisfies the query, with its document's canonical text. */
  datatype Row = Row(position: Position, json: Bytes)

  datatype Cursor = Cursor(tuple: seq<Bytes>, id: Bytes) {
    function Position(): Position { tuple + [id] }
  }

  predicate TupleLess(a: Position, b: Position) {
    a != [] && b != [] && (Less(a[0], b[0]) || (a[0] == b[0] && TupleLess(a[1..], b[1..])))
  }

  /** b comes after a in the query's direction. */
  predicate Beyond(descending: bool, a: Position, b: Position) {
    if descending then TupleLess(b, a) else TupleLess(a, b)
  }

  lemma {:induction false} TupleTotal(a: Position, b: Position)
    requires |a| == |b|
    ensures TupleLess(a, b) || a == b || TupleLess(b, a)
  {
    if a != [] {
      LessTotal(a[0], b[0]);
      if a[0] == b[0] {
        TupleTotal(a[1..], b[1..]);
        assert a == [a[0]] + a[1..] && b == [b[0]] + b[1..];
      }
    }
  }

  lemma {:induction false} TupleIrreflexive(a: Position)
    ensures !TupleLess(a, a)
  {
    if a != [] { LessIrreflexive(a[0]); TupleIrreflexive(a[1..]); }
  }

  lemma {:induction false} TupleTransitive(a: Position, b: Position, c: Position)
    requires TupleLess(a, b) && TupleLess(b, c)
    ensures TupleLess(a, c)
  {
    if Less(a[0], b[0]) && Less(b[0], c[0]) { LessTransitive(a[0], b[0], c[0]); }
    LessIrreflexive(b[0]);
    if a[0] == b[0] == c[0] { TupleTransitive(a[1..], b[1..], c[1..]); }
  }

  lemma BeyondOrder(descending: bool, a: Position, b: Position, c: Position)
    requires |a| == |b| == |c|
    ensures Beyond(descending, a, b) && Beyond(descending, b, c) ==> Beyond(descending, a, c)
    ensures !(Beyond(descending, a, b) && Beyond(descending, b, a)) && !Beyond(descending, a, a)
    ensures Beyond(descending, a, b) || a == b || Beyond(descending, b, a)
  {
    TupleTotal(a, b);
    TupleIrreflexive(a);
    if TupleLess(a, b) && TupleLess(b, c) { TupleTransitive(a, b, c); }
    if TupleLess(c, b) && TupleLess(b, a) { TupleTransitive(c, b, a); }
    if TupleLess(a, b) && TupleLess(b, a) { TupleTransitive(a, b, a); }
  }

  // ----- the resume predicate

  /** One comparison of a column with a bound value: equality, or past it in the query's direction. */
  datatype Condition = Equal(column: nat, slot: nat) | Past(column: nat, slot: nat)

  type Branch = seq<Condition>

  predicate Meets(c: Condition, params: map<nat, Bytes>, descending: bool, p: Position) {
    c.slot in params && c.column < |p| &&
    match c
    case Equal(col, slot) => p[col] == params[slot]
    case Past(col, slot) => if descending then Less(p[col], params[slot]) else Less(params[slot], p[col])
  }

  predicate MeetsAll(branch: Branch, params: map<nat, Bytes>, descending: bool, p: Position) {
    forall c | c in branch :: Meets(c, params, descending, p)
  }

  /** A disjunction of conjunctions. */
  predicate Selects(branches: seq<Branch>, params: map<nat, Bytes>, descending: bool, p: Position) {
    exists i | 0 <= i < |branches| :: MeetsAll(branches[i], params, descending, p)
  }

  predicate GoodKey(k: Bytes) { 0 < |k| <= MAX_KEY_BYTES }

  predicate GoodCursor(columns: nat, cursor: Cursor) {
    && |cursor.tuple| + 1 == columns && |cursor.id| == ID_BYTES
    && forall k | k in cursor.tuple :: GoodKey(k)
  }

  /** The i-th branch: equal on the first i columns, past the cursor on the next. */
  predicate BranchShape(branch: Branch, i: nat) {
    && |branch| == i + 1 && branch[i] == Past(i, i)
    && forall j | 0 <= j < i :: branch[j] == Equal(j, j)
  }

  /** p equals q on the first i components and is past it on the next. */
  predicate FirstPast(descending: bool, q: Position, p: Position, i: nat)
    requires i < |p| == |q|
  {
    p[..i] == q[..i] && if descending then Less(p[i], q[i]) else Less(q[i], p[i])
  }

  lemma {:induction false} BeyondAtSomeColumn(descending: bool, q: Position, p: Position)
    requires |p| == |q|
    ensures Beyond(descending, q, p) <==> exists i: nat | i < |p| :: FirstPast(descending, q, p, i)
  {
    if p != [] {
      BeyondAtSomeColumn(descending, q[1..], p[1..]);
      assert FirstPast(descending, q, p, 0) <==> if descending then Less(p[0], q[0]) else Less(q[0], p[0]);
      forall i: nat | i + 1 < |p|
        ensures FirstPast(descending, q, p, i + 1) <==> p[0] == q[0] && FirstPast(descending, q[1..], p[1..], i)
      {
        assert p[..i + 1] == [p[0]] + p[1..][..i] && q[..i + 1] == [q[0]] + q[1..][..i];
        assert p[..i + 1][0] == p[0] && q[..i + 1][0] == q[0];
        assert p[..i + 1][1..] == p[1..][..i] && q[..i + 1][1..] == q[1..][..i];
      }
      if i: nat :| i < |p| && FirstPast(descending, q, p, i) {
        if i > 0 { assert FirstPast(descending, q[1..], p[1..], i - 1); }
      }
      if p[0] == q[0] {
        if i: nat :| i < |p[1..]| && FirstPast(descending, q[1..], p[1..], i) {
          assert FirstPast(descending, q, p, i + 1);
        }
      }
    }
  }

  lemma BranchSelects(branch: Branch, i: nat, params: map<nat, Bytes>, descending: bool, q: Position, p: Position)
    requires BranchShape(branch, i) && i < |p| == |q|
    requires forall j: nat | j < |q| :: j in params && params[j] == q[j]
    ensures MeetsAll(branch, params, descending, p) <==> FirstPast(descending, q, p, i)
  {
    if MeetsAll(branch, params, descending, p) {
      forall j: nat | j < i ensures p[j] == q[j] { assert branch[j] in branch; }
      assert branch[i] in branch;
    }
    if FirstPast(descending, q, p, i) {
      forall c | c in branch ensures Meets(c, params, descending, p) {
        var j :| 0 <= j < |branch| && branch[j] == c;
        if j < i { assert p[..i][j] == q[..i][j]; }
      }
    }
  }

  /** Build the resume predicate. It is refused for a cursor of the wrong shape; otherwise a row satisfies
      it exactly when its position comes after the cursor's in the query's direction. */
  method KeysetExpression(columns: nat, descending: bool, cursor: Cursor)
    returns (r: Option<(seq<Branch>, map<nat, Bytes>)>)
    ensures r.Some? <==> GoodCursor(columns, cursor)
    ensures r.Some? ==> forall p: Position | |p| == columns ::
      Selects(r.value.0, r.value.1, descending, p) <==> Beyond(descending, cursor.Position(), p)
  {
    if |cursor.tuple| + 1 != columns || |cursor.id| != ID_BYTES { return None; }
    var position := cursor.Position();
    var params: map<nat, Bytes>, branches: seq<Branch> := map[], [];
    for i := 0 to columns
      invariant |branches| == i && forall j | 0 <= j < i :: BranchShape(branches[j], j)
      invariant forall j: nat | j < i :: j in params && params[j] == position[j]
      invariant forall j: nat | j + 1 < i :: GoodKey(cursor.tuple[j])
    {
      var terms: Branch := [];
      for j := 0 to i
        invariant |terms| == j && forall k | 0 <= k < j :: terms[k] == Equal(k, k)
        invariant forall k: nat | k < i :: k in params && params[k] == position[k]
        invariant forall k: nat | k < j :: GoodKey(cursor.tuple[k])
      {
        if !GoodKey(cursor.tuple[j]) { return None; }
        params := params[j := cursor.tuple[j]];
        terms := terms + [Equal(j, j)];
      }
      params := params[i := if i == columns - 1 then cursor.id else cursor.tuple[i]];
      branches := branches + [terms + [Past(i, i)]];
    }
    forall p: Position | |p| == columns
      ensures Selects(branches, params, descending, p) <==> Beyond(descending, position, p)
    {
      BeyondAtSomeColumn(descending, position, p);
      forall i: nat | i < columns
        ensures MeetsAll(branches[i], params, descending, p) <==> FirstPast(descending, position, p, i)
      {
        BranchSelects(branches[i], i, params, descending, position, p);
      }
    }
    r := Some((branches, params));
  }

  // ----- one page

  /** The texts of the first rows with commas between them. */
  function Joined(rows: seq<Row>, n: nat): Bytes
    requires n <= |rows|
  {
    if n == 0 then []
    else if n == 1 then rows[0].json
    else Joined(rows, n - 1) + [COMMA] + rows[n - 1].json
  }

  /** The JSON array of the first rows. */
  function PageText(rows: seq<Row>, n: nat): Bytes
    requires n <= |rows|
  {
    [OPEN] + Joined(rows, n) + [CLOSE]
  }

  /** No page of documents is longer than the limit as text; an empty page is not measured. */
  predicate Fits(rows: seq<Row>, n: nat, maxBytes: int)
    requires n <= |rows|
  {
    n == 0 || |PageText(rows, n)| <= maxBytes
  }

  lemma OneMore(rows: seq<Row>, n: nat)
    requires n < |rows|
    ensures |PageText(rows, n + 1)| == |PageText(rows, n)| + (if n == 0 then 0 else 1) + |rows[n].json|
  {
  }

  lemma {:induction false} MoreIsLarger(rows: seq<Row>, n: nat, more: nat)
    requires n <= more <= |rows|
    ensures |PageText(rows, n)| <= |PageText(rows, more)|
    decreases more
  {
    if n < more {
      MoreIsLarger(rows, n, more - 1);
      OneMore(rows, more - 1);
    }
  }

  lemma {:induction false} PrefixText(rows: seq<Row>, all: nat, n: nat)
    requires n <= all <= |rows|
    ensures Joined(rows[..all], n) == Joined(rows, n)
    decreases n
  {
    if n > 1 { PrefixText(rows, all, n - 1); }
  }

  /** The page as text. */
  function TextOf(page: seq<Row>): Bytes { PageText(page, |page|) }

  function Min(a: nat, b: nat): nat { if a < b then a else b }

  /** Consume the rows of a query one at a time, charging each document before it is kept. Rows past the
      document limit are seen but neither charged nor kept. */
  method BoundedDocuments(rows: seq<Row>, documentLimit: nat, maxBytes: int)
    returns (r: Option<(seq<Row>, bool)>)
    ensures r.Some? <==> Fits(rows, Min(|rows|, documentLimit), maxBytes)
    ensures r.Some? ==> r.value == (rows[..Min(|rows|, documentLimit)], |rows| > documentLimit)
    ensures r.Some? && r.value.0 != [] ==> |TextOf(r.value.0)| <= maxBytes
  {
    var used: int := 2;
    var docs: seq<Row> := [];
    var extra := false;
    for i := 0 to |rows|
      invariant docs == rows[..Min(i, documentLimit)]
      invariant used == |PageText(rows, |docs|)| && Fits(rows, |docs|, maxBytes)
      invariant extra == (i > documentLimit)
    {
      if |docs| >= documentLimit {
        extra := true;
      } else {
        var separator := if |docs| > 0 then 1 else 0;
        OneMore(rows, i);
        if |rows[i].json| + separator > maxBytes - used {
          MoreIsLarger(rows, i + 1, Min(|rows|, documentLimit));
          return None;
        }
        used := used + separator + |rows[i].json|;
        docs := docs + [rows[i]];
      }
    }
    PrefixText(rows, |docs|, |docs|);
    r := Some((docs, extra));
  }

  /** The rows at a moment that satisfy the query. No two share a position, since a position ends with the id. */
  ghost predicate Snapshot(table: set<Row>, columns: nat) {
    && (forall row | row in table :: |row.position| == columns)
    && forall a, b | a in table && b in table && a.position == b.position :: a == b
  }

  predicate After(descending: bool, from: Option<Position>, p: Position) {
    from.Some? ==> Beyond(descending, from.value, p)
  }

  predicate Ordered(descending: bool, rows: seq<Row>) {
    forall i, j | 0 <= i < j < |rows| :: Beyond(descending, rows[i].position, rows[j].position)
  }

  /** The database's answer to the ordered, limited query: the first rows after the start, in order. */
  ghost predicate Answer(rows: seq<Row>, table: set<Row>, descending: bool, from: Option<Position>, limit: nat) {
    && |rows| <= limit && Ordered(descending, rows)
    && (forall row | row in rows :: row in table && After(descending, from, row.position))
    && forall row | row in table && After(descending, from, row.position) && row !in rows ::
         |rows| == limit && forall other | other in rows :: Beyond(descending, other.position, row.position)
  }

  /** A page; next is None when it is the last. */
  datatype Page = Page(rows: seq<Row>, next: Option<Position>)

  /** The page of at most n rows after a position: nothing after the start and up to the page's end is
      missing, and the last page leaves nothing out. */
  ghost predicate PageOf(page: Page, table: set<Row>, descending: bool, from: Option<Position>, n: nat) {
    && Ordered(descending, page.rows)
    && (forall row | row in page.rows :: row in table && After(descending, from, row.position))
    && (page.next.Some? ==> |page.rows| == n > 0 && page.next.value == page.rows[n - 1].position)
    && forall row | row in table && After(descending, from, row.position) ::
         row in page.rows || (page.next.Some? && Beyond(descending, page.next.value, row.position))
  }

  /** One page asks for one row more than it shows, and continues after the last row shown. */
  method Paginate(ghost table: set<Row>, rows: seq<Row>, descending: bool, ghost from: Option<Position>,
                  n: nat, maxBytes: int, ghost columns: nat)
    returns (r: Option<Page>)
    requires n > 0 && Snapshot(table, columns) && Answer(rows, table, descending, from, n + 1)
    ensures r.Some? <==> Fits(rows, Min(|rows|, n), maxBytes)
    ensures r.Some? ==> PageOf(r.value, table, descending, from, n) && r.value.rows == rows[..Min(|rows|, n)]
    ensures r.Some? ==> (r.value.next.Some? <==> |rows| > n)
    ensures r.Some? && r.value.rows != [] ==> |TextOf(r.value.rows)| <= maxBytes
  {
    var bounded := BoundedDocuments(rows, n, maxBytes);
    if bounded.None? { return None; }
    var (page, extra) := bounded.value;
    var result := Page(page, if extra then Some(page[|page| - 1].position) else None);
    forall row | row in table && After(descending, from, row.position)
      ensures row in page || (extra && Beyond(descending, result.next.value, row.position))
    {
      if row in rows {
        var i :| 0 <= i < |rows| && rows[i] == row;
        if i < n && i < |rows| { assert page[i] == row; }
      } else {
        assert rows[n - 1] in rows;
      }
    }
    r := Some(result);
  }

  // ----- following cursors

  datatype Query = Query(columns: nat, descending: bool, size: nat)

  /** Where a page of a walk starts. */
  function Start(pages: seq<Page>, i: nat): Option<Position>
    requires i < |pages|
  {
    if i == 0 then None else pages[i - 1].next
  }

  /** Page i of a walk, read from the table as it was at that moment. */
  ghost predicate PageAt(pages: seq<Page>, tables: seq<set<Row>>, q: Query, i: nat)
    requires i < |pages| == |tables|
  {
    && Snapshot(tables[i], q.columns)
    && PageOf(pages[i], tables[i], q.descending, Start(pages, i), q.size)
    && (i + 1 < |pages| ==> pages[i].next.Some?)
  }

  ghost predicate Walk(pages: seq<Page>, tables: seq<set<Row>>, q: Query) {
    |pages| == |tables| > 0 && forall i | 0 <= i < |pages| :: PageAt(pages, tables, q, i)
  }

  predicate Shows(page: Page, p: Position) {
    exists row | row in page.rows :: row.position == p
  }

  lemma NextLength(pages: seq<Page>, tables: seq<set<Row>>, q: Query, i: nat)
    requires Walk(pages, tables, q) && i < |pages|
    ensures forall row | row in pages[i].rows :: |row.position| == q.columns
    ensures pages[i].next.Some? ==> |pages[i].next.value| == q.columns
  {
    assert PageAt(pages, tables, q, i);
    if pages[i].next.Some? { assert pages[i].rows[q.size - 1] in pages[i].rows; }
  }

  /** A page shows nothing past its end. */
  lemma NothingPastEnd(page: Page, table: set<Row>, q: Query, from: Option<Position>, p: Position)
    requires PageOf(page, table, q.descending, from, q.size)
    requires page.next.Some? && Shows(page, p)
    ensures p == page.next.value || Beyond(q.descending, p, page.next.value)
  {
    var row :| row in page.rows && row.position == p;
    var i :| 0 <= i < |page.rows| && page.rows[i] == row;
  }

  /** Whatever a page shows, every later page starts after it. */
  lemma {:induction false} LaterPagesStartAfter(pages: seq<Page>, tables: seq<set<Row>>, q: Query,
                                                i: nat, j: nat, p: Position)
    requires Walk(pages, tables, q) && i < j < |pages| && Shows(pages[i], p)
    ensures pages[j - 1].next.Some?
    ensures p == pages[j - 1].next.value || Beyond(q.descending, p, pages[j - 1].next.value)
  {
    NextLength(pages, tables, q, i);
    NextLength(pages, tables, q, j - 1);
    if j == i + 1 {
      assert PageAt(pages, tables, q, i);
      NothingPastEnd(pages[i], tables[i], q, Start(pages, i), p);
    } else {
      LaterPagesStartAfter(pages, tables, q, i, j - 1, p);
      NextLength(pages, tables, q, j - 2);
      var page, start := pages[j - 1], pages[j - 2].next.value;
      assert PageAt(pages, tables, q, j - 1);
      assert page.rows[q.size - 1] in page.rows;
      BeyondOrder(q.descending, p, start, page.next.value);
    }
  }

  /** No position is shown by two pages, whatever happens to the table between them. */
  lemma NeverTwice(pages: seq<Page>, tables: seq<set<Row>>, q: Query, i: nat, j: nat, p: Position)
    requires Walk(pages, tables, q) && i < j < |pages|
    ensures !(Shows(pages[i], p) && Shows(pages[j], p))
  {
    if Shows(pages[i], p) && Shows(pages[j], p) {
      LaterPagesStartAfter(pages, tables, q, i, j, p);
      NextLength(pages, tables, q, j - 1);
      NextLength(pages, tables, q, j);
      assert PageAt(pages, tables, q, j);
      var start := pages[j - 1].next.value;
      BeyondOrder(q.descending, p, start, p);
      BeyondOrder(q.descending, start, p, start);
    }
  }

  predicate Present(table: set<Row>, p: Position) {
    exists row | row in table :: row.position == p
  }

  /** A row that stays put is on some page up to i, or still ahead of page i's end. */
  lemma {:induction false} ShownOrAhead(pages: seq<Page>, tables: seq<set<Row>>, q: Query, i: nat, p: Position)
    requires Walk(pages, tables, q) && i < |pages|
    requires forall k | 0 <= k <= i :: Present(tables[k], p)
    ensures (exists k | 0 <= k <= i :: Shows(pages[k], p))
      || (pages[i].next.Some? && Beyond(q.descending, pages[i].next.value, p))
  {
    if i > 0 { ShownOrAhead(pages, tables, q, i - 1, p); }
    assert PageAt(pages, tables, q, i);
    assert Present(tables[i], p);
    var row :| row in tables[i] && row.position == p;
  }

  predicate OnlyOn(pages: seq<Page>, i: nat, p: Position)
    requires i < |pages|
  {
    forall j | 0 <= j < |pages| :: Shows(pages[j], p) <==> j == i
  }

  /** Following cursors to the end shows every row that stays put on exactly one page, in either
      direction, whatever is inserted, deleted or moved between the pages. */
  lemma ExactlyOnce(pages: seq<Page>, tables: seq<set<Row>>, q: Query, p: Position)
    requires Walk(pages, tables, q) && pages[|pages| - 1].next.None?
    requires forall k | 0 <= k < |tables| :: Present(tables[k], p)
    ensures exists i | 0 <= i < |pages| :: OnlyOn(pages, i, p)
  {
    ShownOrAhead(pages, tables, q, |pages| - 1, p);
    var i :| 0 <= i < |pages| && Shows(pages[i], p);
    forall j | 0 <= j < |pages| && j != i ensures !Shows(pages[j], p) {
      if j < i { NeverTwice(pages, tables, q, j, i, p); }
      else { NeverTwice(pages, tables, q, i, j, p); }
    }
    assert OnlyOn(pages, i, p);
  }

  function AllRows(pages: seq<Page>): seq<Row> {
    if pages == [] then [] else AllRows(pages[..|pages| - 1]) + pages[|pages| - 1].rows
  }

  lemma {:induction false} AllRowsShown(pages: seq<Page>, row: Row)
    ensures row in AllRows(pages) <==> exists i | 0 <= i < |pages| :: row in pages[i].rows
  {
    if pages != [] {
      var front := pages[..|pages| - 1];
      AllRowsShown(front, row);
      forall i | 0 <= i < |front| ensures pages[i] == front[i] {}
    }
  }

  lemma {:induction false} AllRowsOrdered(pages: seq<Page>, tables: seq<set<Row>>, q: Query)
    requires Walk(pages, tables, q)
    ensures Ordered(q.descending, AllRows(pages))
    decreases |pages|
  {
    var m := |pages| - 1;
    var front, last := pages[..m], pages[m];
    assert PageAt(pages, tables, q, m);
    if m == 0 {
      assert AllRows(front) == [] && AllRows(pages) == last.rows;
    } else {
      assert Walk(front, tables[..m], q) by {
        forall i | 0 <= i < m
          ensures PageAt(front, tables[..m], q, i)
        {
          assert PageAt(pages, tables, q, i);
        }
      }
      AllRowsOrdered(front, tables[..m], q);
      forall a, b | a in AllRows(front) && b in last.rows ensures Beyond(q.descending, a.position, b.position) {
        FrontBeforeLast(pages, tables, q, a, b);
      }
    }
  }

  lemma FrontBeforeLast(pages: seq<Page>, tables: seq<set<Row>>, q: Query, a: Row, b: Row)
    requires Walk(pages, tables, q) && |pages| > 1
    requires a in AllRows(pages[..|pages| - 1]) && b in pages[|pages| - 1].rows
    ensures Beyond(q.descending, a.position, b.position)
  {
    var m := |pages| - 1;
    AllRowsShown(pages[..m], a);
    var i :| 0 <= i < m && a in pages[..m][i].rows;
    assert pages[..m][i] == pages[i];
    LaterPagesStartAfter(pages, tables, q, i, m, a.position);
    NextLength(pages, tables, q, i);
    NextLength(pages, tables, q, m - 1);
    NextLength(pages, tables, q, m);
    assert PageAt(pages, tables, q, m);
    BeyondOrder(q.descending, a.position, pages[m - 1].next.value, b.position);
  }

  /** On data that does not change, the pages one after another are the whole result in order. */
  lemma PagesAreTheSortedResult(pages: seq<Page>, table: set<Row>, q: Query)
    requires var tables := seq(|pages|, _ => table);
      Walk(pages, tables, q) && pages[|pages| - 1].next.None?
    ensures Ordered(q.descending, AllRows(pages))
    ensures forall row :: row in AllRows(pages) <==> row in table
  {
    var tables := seq(|pages|, _ => table);
    AllRowsOrdered(pages, tables, q);
    forall row ensures row in AllRows(pages) <==> row in table {
      AllRowsShown(pages, row);
      if row in table {
        forall k | 0 <= k < |tables| ensures Present(tables[k], row.position) {}
        ExactlyOnce(pages, tables, q, row.position);
        var i :| 0 <= i < |pages| && OnlyOn(pages, i, row.position);
        var shown :| shown in pages[i].rows && shown.position == row.position;
        assert PageAt(pages, tables, q, i);
      }
      if row in AllRows(pages) {
        var i :| 0 <= i < |pages| && row in pages[i].rows;
        assert PageAt(pages, tables, q, i);
      }
    }
  }
}
