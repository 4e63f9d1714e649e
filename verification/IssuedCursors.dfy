/** The cursors that pages issue: when the next request accepts one. */
module IssuedCursors {
  import opened ByteStrings
  import opened WireValues
  import opened OrderKeys
  import opened Projection
  import opened QueryPages
  import opened CursorBinding
  import F = Filters
  import P = Pagination
  import R = IndexRanges

  /** What a token carries besides its position: the hash of its query, the number of the signing key and the
      signature's text. */
  datatype Seal = Seal(hash: Bytes, key: nat, mac: Bytes) {
    predicate Valid() { |hash| == HASH_TEXT_BYTES && |mac| == HASH_TEXT_BYTES && key >= 1 }
  }

  /** The token issued after a document. */
  function Issued(q: Query, x: Stored, seal: Seal): Payload {
    Payload(1, seal.key, seal.hash, CursorOf(q, x).tuple, x.row.id, seal.mac)
  }

  // ----- how long a token is

  function TotalBytes(keys: seq<Bytes>): nat {
    if keys == [] then 0 else TotalBytes(keys[..|keys| - 1]) + |keys[|keys| - 1]|
  }

  lemma {:induction false} TupleLength(tuple: seq<Bytes>)
    requires tuple != []
    ensures TupleBytes(tuple) == TotalBytes(tuple) + 3 * |tuple| - 1
    decreases |tuple|
  {
    if |tuple| == 1 {
      assert tuple[..0] == [];
    } else {
      TupleLength(tuple[..|tuple| - 1]);
    }
  }

  /** The length of the payload: fixed parts, the key's number, the creation text, and three bytes more than its key
      for each index field. */
  function IssuedBytes(q: Query, x: Stored, seal: Seal): nat {
    143 + |Itoa(seal.key)| + |x.created| + TotalBytes(Keys(q, x)) + 3 * |q.fields|
  }

  lemma IssuedLength(q: Query, x: Stored, seal: Seal)
    requires seal.Valid() && |x.row.id| == P.ID_BYTES
    ensures PayloadBytes(Issued(q, x, seal)) == IssuedBytes(q, x, seal)
  {
    var tuple := CursorOf(q, x).tuple;
    assert tuple == Keys(q, x) + [x.created];
    TupleLength(tuple);
    assert tuple[..|tuple| - 1] == Keys(q, x);
    assert |Itoa(1)| == 1;
  }

  // ----- when it is accepted

  /** The stored document's keys and the index are such that its cursor is accepted. */
  predicate Accepts(q: Query, x: Stored, seal: Seal) {
    && ShortKeys(q, x) && |q.fields| < MAX_TUPLE_ITEMS && IssuedBytes(q, x, seal) <= MAX_CURSOR_BYTES
  }

  /** A token issued after a stored document decodes exactly when every key is within the limit on keys, the index is
      narrower than the tuple's limit, and all keys together leave the payload within the token's. */
  lemma IssuedIsDecodable(q: Query, db: set<Stored>, x: Stored, seal: Seal)
    requires Sound(q, db) && x in db && seal.Valid()
    ensures Decodable(Issued(q, x, seal)) <==> Accepts(q, x, seal)
    ensures Accepts(q, x, seal) ==> P.GoodCursor(Columns(q), CursorOf(q, x))
  {
    IssuedLength(q, x, seal);
    StoredCursorsAreGood(q, db, x);
  }

  lemma {:induction false} TotalAtMost(keys: seq<Bytes>, most: nat)
    requires forall k | k in keys :: |k| <= most
    ensures TotalBytes(keys) <= |keys| * most
    decreases |keys|
  {
    if keys != [] { TotalAtMost(keys[..|keys| - 1], most); }
  }

  lemma {:induction false} TotalAtLeast(keys: seq<Bytes>, n: nat, least: nat)
    requires n <= |keys| && forall i | 0 <= i < n :: |keys[i]| >= least
    ensures TotalBytes(keys) >= n * least
    decreases |keys|
  {
    if n > 0 { TotalAtLeast(keys[..|keys| - 1], if n == |keys| then n - 1 else n, least); }
  }

  lemma {:induction false} ItoaShort(n: nat, digits: nat)
    requires digits >= 1 && n < Power10(digits)
    ensures |Itoa(n)| <= digits
    decreases digits
  {
    if n >= 10 { ItoaShort(n / 10, digits - 1); }
  }

  function Power10(n: nat): nat { if n == 0 then 1 else 10 * Power10(n - 1) }

  /** Up to three index fields, each key within its own limit, are always accepted: with creation texts of 24 bytes
      and key numbers of 64 bits. */
  lemma ThreeFieldsAreAccepted(q: Query, db: set<Stored>, x: Stored, seal: Seal)
    requires Sound(q, db) && x in db && seal.Valid()
    requires |q.fields| <= 3 && ShortKeys(q, x) && |x.created| <= 24 && seal.key < TWO63
    ensures Decodable(Issued(q, x, seal))
  {
    assert Power10(19) >= TWO63 by { TenTo19(); }
    ItoaShort(seal.key, 19);
    forall k | k in Keys(q, x) ensures |k| <= P.MAX_KEY_BYTES {
      var i :| 0 <= i < |q.fields| && Keys(q, x)[i] == k;
      assert q.fields[i] in q.fields;
    }
    TotalAtMost(Keys(q, x), P.MAX_KEY_BYTES);
    IssuedIsDecodable(q, db, x, seal);
  }

  lemma TenTo19()
    ensures Power10(19) == 10000000000000000000
  {
    assert Power10(4) == 10000;
    assert Power10(8) == 100000000;
    assert Power10(12) == 1000000000000;
    assert Power10(16) == 10000000000000000;
  }

  /** Four keys of the longest accepted length are never accepted, on an index of any width. */
  lemma FourLongKeysAreRefused(q: Query, db: set<Stored>, x: Stored, seal: Seal)
    requires Sound(q, db) && x in db && seal.Valid()
    requires |q.fields| >= 4 && forall i | 0 <= i < 4 :: |KeyAt(x.row, q.fields[i])| == P.MAX_KEY_BYTES
    ensures !Decodable(Issued(q, x, seal))
  {
    TotalAtLeast(Keys(q, x), 4, P.MAX_KEY_BYTES);
    IssuedIsDecodable(q, db, x, seal);
  }

  // ----- the next request

  /** The next request continues under the first page's hash exactly when the document that ended the page is
      accepted. */
  lemma IssuedContinues(plan: CursorBinding.Plan, first: Wire, path: Path, token: Bytes,
                        q: Query, db: set<Stored>, x: Stored, seal: Seal)
    requires plan.Valid() && ObjectAt(first, path).Some? && CursorAt(first, path) in {None, Some(WNull)}
    requires Sound(q, db) && x in db && seal.Valid() && seal.hash == plan.digest(plan.text(first))
    requires plan.payload(token) == Some(Issued(q, x, seal))
    ensures ContinuesUnder(plan, PutCursor(first, path, Some(WStr(token))), Some(path), token)
         == if Accepts(q, x, seal) then Some(seal.hash) else None
  {
    IssuedIsDecodable(q, db, x, seal);
    RedactionRestoresFirstPage(first, path, token);
    assert MayBind(PutCursor(first, path, Some(WStr(token))), Some(path), token, first);
  }

  /** One page and the token after it: it ends the walk when the last document on the page is not accepted. */
  method IssuePage(q: Query, ghost plan: QueryPages.Plan, ghost cursor: Option<P.Cursor>, ghost resume: Option<Resume>,
                   ghost db: set<Stored>, rows: seq<Stored>, maxBytes: int, seal: Seal)
    returns (r: Option<DocumentPage>, token: Option<Payload>)
    requires Sound(q, db) && Compiled(q, plan) && ResumesAt(q, cursor, resume)
    requires DatabaseAnswer(q, plan, resume, db, rows, q.size + 1) && seal.Valid()
    ensures r.Some? <==> P.Fits(AsRows(q, rows), P.Min(|rows|, q.size), maxBytes)
    ensures r.Some? ==> r.value == PageFrom(q, rows) && PageShows(q, db, From(cursor), r.value)
    ensures token.Some? <==> r.Some? && |rows| > q.size
    ensures token.Some? ==> NextAfter(q, db, r.value) && token.value == Issued(q, LastOf(r.value), seal)
                            && (Decodable(token.value) <==> Accepts(q, LastOf(r.value), seal))
  {
    token := None;
    r := Page(q, plan, cursor, resume, db, rows, maxBytes);
    if r.None? || r.value.next.None? { return; }
    token := Some(Payload(1, seal.key, seal.hash, r.value.next.value.tuple, r.value.next.value.id, seal.mac));
    IssuedIsDecodable(q, db, LastOf(r.value), seal);
  }

  // ----- a document whose cursor is refused

  const A: byte := 97
  const NAMES: seq<Bytes> := [[97], [98], [99], [100]]  // "a", "b", "c", "d"

  function LongText(): Bytes { seq(2047, _ => A) }

  function LongKey(): Bytes { STRING_TAG + Hex(LongText()) }

  lemma {:induction false} HexLength(s: Bytes)
    ensures |Hex(s)| == 2 * |s|
    decreases |s|
  {
    if s != [] { HexLength(s[1..]); }
  }

  function FourStrings(env: Env, table: Bytes): F.Table { F.Table(env, table, map n | n in NAMES :: VString) }

  function LongDocument(id: Bytes, created: int): F.Doc { F.Doc(id, created, WObj(map n | n in NAMES :: WStr(LongText()))) }

  function LongOrder(): map<Bytes, Bytes> {
    (map n | n in NAMES :: LongKey()) + (map n | n in NAMES :: EqualityEntry(n) := LongKey())
  }

  function FourFields(env: Env, table: Bytes): Query { Query(FourStrings(env, table), NAMES, [], None, false, 1) }

  lemma OneLetter(n: Bytes)
    requires |n| == 1 && n[0] != DOT
    ensures Split(n) == [n] && !HasEmptySegment(n)
  {
    assert n[1..] == [] && Split([]) == [[]];
    assert [n[0]] + [] == n;
  }

  /** The names are the only paths. */
  lemma PathsAreNames(env: Env, table: Bytes, path: Bytes)
    ensures FourStrings(env, table).ValidatorOf(path) == if path in NAMES then Some(VString) else None
  {
    if path in NAMES { OneLetter(path); }
    var parts := Split(path);
    JoinUndoesSplit(path);
    if parts[1..] == [] { assert parts[0] + Dotted([]) == parts[0]; }
  }

  lemma NameValue(id: Bytes, created: int, env: Env, table: Bytes, n: Bytes)
    requires n in NAMES
    ensures FourStrings(env, table).FieldValue(LongDocument(id, created), n) == Some(WStr(LongText()))
  {
    OneLetter(n);
    var doc := Some(LongDocument(id, created).fields);
    assert [n][1..] == [] && Projection.Child(doc, n) == Some(WStr(LongText()));
    assert Projection.Walk(doc, [n]) == Projection.Walk(Some(WStr(LongText())), []);
  }

  lemma LongIsStored(env: Env, table: Bytes, id: Bytes, created: int)
    ensures FourStrings(env, table).Stores(F.Row(id, created, LongOrder()), LongDocument(id, created))
  {
    var t := FourStrings(env, table);
    forall path | t.ValidatorOf(path).Some?
      ensures Entry(env, LongOrder(), path, t.ValidatorOf(path).value, t.FieldValue(LongDocument(id, created), path))
    {
      PathsAreNames(env, table, path);
      NameValue(id, created, env, table, path);
      assert path in LongOrder() && EqualityEntry(path) in LongOrder();
    }
  }

  lemma NamesAreDeclared(env: Env, table: Bytes)
    ensures R.DeclaredIndex(FourStrings(env, table), NAMES)
  {
    forall f | f in NAMES
      ensures f != F.ID_FIELD && f != F.CREATED_FIELD && FourStrings(env, table).ValidatorOf(f) == Some(VString)
    {
      PathsAreNames(env, table, f);
      assert |f| == 1 && |F.ID_FIELD| == 3 && |F.CREATED_FIELD| == 13;
    }
  }

  function LongRecord(id: Bytes, created: int, text: Bytes): Stored {
    Stored.Stored(F.Row(id, created, LongOrder()), LongDocument(id, created), text, [])
  }

  lemma LongKeyAt(id: Bytes, created: int, text: Bytes, n: Bytes)
    requires n in NAMES
    ensures KeyAt(LongRecord(id, created, text).row, n) == LongKey()
  {
  }

  lemma LongIsSound(env: Env, table: Bytes, id: Bytes, created: int, text: Bytes)
    requires env.Valid() && 0 !in table && table != [] && |id| == P.ID_BYTES && P.GoodKey(text)
    ensures Sound(FourFields(env, table), {LongRecord(id, created, text)})
  {
    LongIsStored(env, table, id, created);
    NamesAreDeclared(env, table);
  }

  /** In every table of four indexed string fields, a document that holds 2047 bytes in each of them is stored, its
      keys are within the limit on keys, and a cursor issued after it is refused. */
  lemma LongCursorsAreRefused(env: Env, table: Bytes, id: Bytes, created: int, text: Bytes, seal: Seal)
    requires env.Valid() && 0 !in table && table != [] && |id| == P.ID_BYTES && P.GoodKey(text) && seal.Valid()
    ensures var q, x := FourFields(env, table), LongRecord(id, created, text);
      && Sound(q, {x}) && ShortKeys(q, x) && P.GoodCursor(Columns(q), CursorOf(q, x)) && !Decodable(Issued(q, x, seal))
  {
    var q, x := FourFields(env, table), LongRecord(id, created, text);
    LongIsSound(env, table, id, created, text);
    HexLength(LongText());
    forall n | n in NAMES ensures |KeyAt(x.row, n)| == P.MAX_KEY_BYTES { LongKeyAt(id, created, text, n); }
    StoredCursorsAreGood(q, {x}, x);
    forall i | 0 <= i < 4 ensures |KeyAt(x.row, q.fields[i])| == P.MAX_KEY_BYTES { assert q.fields[i] in NAMES; }
    FourLongKeysAreRefused(q, {x}, x, seal);
  }
}
