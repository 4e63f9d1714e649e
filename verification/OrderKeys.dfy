/** Sortable keys of wire values: the byte order of two keys is the protocol order of the values. */
module OrderKeys {
  import opened ByteStrings
  import opened WireValues
  import Base64

  // Rank tags: two decimal characters each.
  const MISSING_TAG: Bytes := [48, 48]
  const NULL_TAG: Bytes := [48, 49]
  const FALSE_TAG: Bytes := [48, 50]
  const TRUE_TAG: Bytes := [48, 51]
  const NUMBER_TAG: Bytes := [48, 52]
  const STRING_TAG: Bytes := [48, 53]
  const ID_TAG: Bytes := [48, 54]
  const INT64_TAG: Bytes := [48, 55]
  const BLOB_TAG: Bytes := [48, 56]
  const COMPLEX_TAG: Bytes := [48, 57]

  /** What the keys need from elsewhere: the table and raw id an opaque id token names (None when the
      token is malformed), the authenticity check of a token for a table, and the canonical JSON text
      of a compound value. */
  datatype Env = Env(target: Bytes -> Option<(Bytes, Bytes)>, check: (Bytes, Bytes) -> bool, text: Wire -> Bytes) {

    /** Token payloads name an identifier as table; two values share a text only when they are the same. */
    ghost predicate Valid() {
      && (forall s :: target(s).Some? ==> target(s).value.0 != [] && 0 !in target(s).value.0)
      && (forall a, b :: text(a) == text(b) <==> Same(a, b))
    }

    /** The token is authentic for exactly this table. */
    predicate Authentic(s: Bytes, table: Bytes) {
      target(s).Some? && table != [] && target(s).value.0 == table && check(s, table)
    }
  }

  // ----- keys, as the source builds them

  /** Flip the sign bit of a non-negative pattern, every bit of a negative one. */
  function SortableNumber(d: Double): (u: nat)
    ensures u < TWO64
  {
    if d >= TWO63 then TWO64 - 1 - d else d + TWO63
  }

  /** Exclusive-or with the sign bit. */
  function FlipSign(u: nat): (r: nat)
    requires u < TWO64
    ensures r < TWO64
  {
    if u >= TWO63 then u - TWO63 else u + TWO63
  }

  function NumberKey(d: Double): Bytes {
    NUMBER_TAG + Hex(BigEndian(8, SortableNumber(PositiveZero(d))))
  }

  function Int64Key(w: Wire): Option<Bytes> {
    match Int64Bytes(w)
    case None => None
    case Some(b) =>
      Pow256Of8();
      Some(INT64_TAG + Hex(BigEndian(8, FlipSign(LittleEndian(b)))))
  }

  function BlobKey(w: Wire): Option<Bytes> {
    match BlobBytes(w)
    case None => None
    case Some(b) => Some(BLOB_TAG + Hex(b))
  }

  /** An id orders by its table and raw record id, not by its signed token. */
  function OpaqueIdKey(table: Bytes, raw: Bytes): Bytes {
    ID_TAG + Hex(table + [0] + raw)
  }

  function ComplexKey(env: Env, w: Wire): Bytes {
    COMPLEX_TAG + Hex(env.text(w))
  }

  /** The validator-independent key of a present value. */
  function GenericPresentKey(env: Env, w: Wire): Option<Bytes> {
    match w
    case WNull => Some(NULL_TAG)
    case WBool(b) => Some(if b then TRUE_TAG else FALSE_TAG)
    case WNum(d) => Some(NumberKey(d))
    case WStr(s) => Some(STRING_TAG + Hex(s))
    case WArr(_) => Some(ComplexKey(env, w))
    case WObj(fields) =>
      if INTEGER_TAG in fields then Int64Key(w)
      else if BYTES_TAG in fields then BlobKey(w)
      else Some(ComplexKey(env, w))
  }

  function GenericKey(env: Env, x: Option<Wire>): Option<Bytes> {
    match x
    case None => Some(MISSING_TAG)
    case Some(w) => GenericPresentKey(env, w)
  }

  predicate AllowsNull(v: Validator) {
    match v
    case VOptional(c) => AllowsNull(c)
    case VDefaulted(c, _) => AllowsNull(c)
    case VNull => true
    case VAny => true
    case VUnion(bs) => exists i | 0 <= i < |bs| :: AllowsNull(bs[i])
    case _ => false
  }

  /** The table of an id validator, possibly optional or defaulted. */
  function IdTable(v: Validator): Option<Bytes> {
    match v
    case VOptional(c) => IdTable(c)
    case VDefaulted(c, _) => IdTable(c)
    case VId(t) => Some(t)
    case _ => None
  }

  /** The order key of a field value under its validator; None is the source's error. */
  function OrderKey(env: Env, v: Validator, x: Option<Wire>): Option<Bytes> {
    match x
    case None => Some(MISSING_TAG)
    case Some(w) => PresentKey(env, v, w)
  }

  function PresentKey(env: Env, v: Validator, w: Wire): Option<Bytes>
    decreases v, 1
  {
    if v.VOptional? || v.VDefaulted? then PresentKey(env, v.inner, w)
    else if w == WNull then (if AllowsNull(v) then Some(NULL_TAG) else None)
    else match v
      case VUnion(bs) =>
        var preferred := if w.WStr? && env.target(w.text).Some? then IdBranchKey(env, bs, w.text) else None;
        if preferred.Some? then preferred else FirstBranchKey(env, bs, w)
      case VNull => None
      case VAny => GenericPresentKey(env, w)
      case VBoolean => if w.WBool? then GenericPresentKey(env, w) else None
      case VNumber => if w.WNum? then Some(NumberKey(w.number)) else None
      case VString => if w.WStr? then Some(STRING_TAG + Hex(w.text)) else None
      case VImage => if w.WStr? then Some(STRING_TAG + Hex(w.text)) else None
      case VId(table) => if w.WStr? then IdKey(env, table, w.text) else None
      case VInt64 => Int64Key(w)
      case VBytes => BlobKey(w)
      case VLiteral(value) => if Same(value, w) then GenericPresentKey(env, value) else None
      case _ => Some(ComplexKey(env, w))
  }

  function IdKey(env: Env, table: Bytes, s: Bytes): Option<Bytes> {
    if env.Authentic(s, table) then Some(OpaqueIdKey(table, env.target(s).value.1)) else None
  }

  /** The first union branch that is itself an id of the token's table and authenticates it. */
  function IdBranchKey(env: Env, bs: seq<Validator>, s: Bytes): Option<Bytes> {
    if bs == [] then None
    else match IdTable(bs[0])
      case Some(t) => if env.Authentic(s, t) then IdKey(env, t, s) else IdBranchKey(env, bs[1..], s)
      case None => IdBranchKey(env, bs[1..], s)
  }

  function FirstBranchKey(env: Env, bs: seq<Validator>, w: Wire): Option<Bytes>
    decreases bs, 0
  {
    if bs == [] then None
    else
      var k := PresentKey(env, bs[0], w);
      if k.Some? then k else FirstBranchKey(env, bs[1..], w)
  }

  /** Validators a declared index may use. */
  predicate Indexable(v: Validator) {
    match v
    case VOptional(c) => Indexable(c)
    case VDefaulted(c, _) => Indexable(c)
    case VLiteral(value) => ScalarLiteral(value)
    case VUnion(bs) => 0 < |bs| <= 64 && forall i | 0 <= i < |bs| :: Indexable(bs[i])
    case VString => true
    case VNumber => true
    case VBoolean => true
    case VNull => true
    case VId(_) => true
    case VImage => true
    case VInt64 => true
    case VBytes => true
    case _ => false
  }

  predicate ScalarLiteral(w: Wire) {
    match w
    case WArr(_) => false
    case WObj(_) => Int64Bytes(w).Some? || BlobBytes(w).Some?
    case _ => true
  }

  // ----- what the keys mean

  /** The protocol's view of a field value. Numbers carry a pattern other than negative zero. */
  datatype Meaning =
    | Missing | Null | False | True
    | Number(pattern: Double)
    | Text(s: Bytes)
    | Id(table: Bytes, raw: Bytes)
    | Int64(value: int)
    | Blob(b: Bytes)
    | Complex(canonical: Bytes)

  /** The value of an exponent field e and fraction f. */
  function Parts(e: nat, f: nat): (r: nat) {
    if e == 0 then f else (TWO52 + f) * Pow2(e - 1)
  }

  /** The magnitude of an exponent-and-fraction pattern, in units of the smallest subnormal (2^-1074). */
  function Magnitude(m: nat): (r: nat)
    requires m < TWO63
  {
    Parts(m / TWO52, m % TWO52)
  }

  /** The exact value of a double, in units of 2^-1074. */
  function Scaled(d: Double): int {
    if d >= TWO63 then 0 - Magnitude(d - TWO63) else Magnitude(d)
  }

  /** The two's complement integer that eight little-endian bytes spell. */
  function Signed(b: Bytes): int
    requires |b| == 8
  {
    LittleEndian(b) - (if b[7] >= 128 then TWO64 else 0)
  }

  function Rank(m: Meaning): nat {
    match m
    case Missing => 0 case Null => 1 case False => 2 case True => 3 case Number(_) => 4
    case Text(_) => 5 case Id(_, _) => 6 case Int64(_) => 7 case Blob(_) => 8 case Complex(_) => 9
  }

  /** missing < null < false < true < numbers by value < strings < ids by table and raw id
      < integers < bytes < compound values by canonical text. */
  predicate Before(a: Meaning, b: Meaning) {
    Rank(a) < Rank(b) ||
    match (a, b)
    case (Number(p), Number(q)) => Scaled(p) < Scaled(q)
    case (Text(s), Text(t)) => Less(s, t)
    case (Id(t, r), Id(u, s)) => Less(t, u) || (t == u && Less(r, s))
    case (Int64(i), Int64(j)) => i < j
    case (Blob(s), Blob(t)) => Less(s, t)
    case (Complex(s), Complex(t)) => Less(s, t)
    case _ => false
  }

  /** The meaning of a value nobody claims as an id. */
  function Plain(env: Env, x: Option<Wire>): Meaning {
    match x
    case None => Missing
    case Some(WNull) => Null
    case Some(WBool(b)) => if b then True else False
    case Some(WNum(d)) => Number(PositiveZero(d))
    case Some(WStr(s)) => Text(s)
    case Some(w) =>
      if Int64Bytes(w).Some? then Int64(Signed(Int64Bytes(w).value))
      else if BlobBytes(w).Some? then Blob(BlobBytes(w).value)
      else Complex(env.text(w))
  }

  /** Whether a validator reads this string as an id. */
  predicate ReadsId(env: Env, v: Validator, s: Bytes)
    decreases v
  {
    match v
    case VOptional(c) => ReadsId(env, c, s)
    case VDefaulted(c, _) => ReadsId(env, c, s)
    case VId(t) => env.Authentic(s, t)
    case VUnion(bs) =>
      || (exists i | 0 <= i < |bs| :: IdTable(bs[i]).Some? && env.Authentic(s, IdTable(bs[i]).value))
      || (exists i | 0 <= i < |bs| :: FirstAccepting(env, bs, WStr(s), i) && ReadsId(env, bs[i], s))
    case _ => false
  }

  predicate FirstAccepting(env: Env, bs: seq<Validator>, w: Wire, i: nat)
    requires i < |bs|
  {
    && PresentKey(env, bs[i], w).Some?
    && forall j | 0 <= j < i :: PresentKey(env, bs[j], w).None?
  }

  predicate CompoundValidator(v: Validator) {
    v.VBareObject? || v.VObject? || v.VArray? || v.VRecord? || v.VRecursive? || v.VRef?
  }

  /** Whether a validator takes this value as an opaque compound, compared by its text. */
  predicate ReadsCompound(env: Env, v: Validator, w: Wire)
    decreases v
  {
    match v
    case VOptional(c) => ReadsCompound(env, c, w)
    case VDefaulted(c, _) => ReadsCompound(env, c, w)
    case VUnion(bs) => exists i | 0 <= i < |bs| :: FirstAccepting(env, bs, w, i) && ReadsCompound(env, bs[i], w)
    case _ => CompoundValidator(v)
  }

  /** The protocol meaning of a field value under its validator. */
  function MeaningOf(env: Env, v: Validator, x: Option<Wire>): Meaning {
    match x
    case None => Missing
    case Some(w) =>
      if w == WNull then Null
      else if w.WStr? && ReadsId(env, v, w.text) && env.target(w.text).Some?
      then Id(env.target(w.text).value.0, env.target(w.text).value.1)
      else if ReadsCompound(env, v, w) then Complex(env.text(w))
      else Plain(env, x)
  }

  /** The key that a meaning must have. */
  function Encode(m: Meaning): Bytes {
    match m
    case Missing => MISSING_TAG
    case Null => NULL_TAG
    case False => FALSE_TAG
    case True => TRUE_TAG
    case Number(p) => NUMBER_TAG + Hex(BigEndian(8, SortableNumber(p)))
    case Text(s) => STRING_TAG + Hex(s)
    case Id(t, r) => OpaqueIdKey(t, r)
    case Int64(i) => INT64_TAG + Hex(BigEndian(8, if i < -TWO63 then 0 else i + TWO63))
    case Blob(b) => BLOB_TAG + Hex(b)
    case Complex(c) => COMPLEX_TAG + Hex(c)
  }

  predicate WellFormed(m: Meaning) {
    match m
    case Number(p) => p != NEGATIVE_ZERO
    case Id(t, _) => 0 !in t
    case Int64(i) => -TWO63 <= i < TWO63
    case _ => true
  }

  // ----- numbers

  lemma {:induction false} Pow2Monotone(a: nat, b: nat)
    requires a <= b
    ensures Pow2(a) <= Pow2(b)
  {
    if a < b { Pow2Monotone(a, b - 1); }
  }

  /** A larger exponent outweighs any fraction. */
  lemma LargerExponent(f: nat, g: nat, p: nat, q: nat)
    requires f < TWO52 && 0 < p && 2 * p <= q
    ensures (TWO52 + f) * p < (TWO52 + g) * q
  {
    calc {
      (TWO52 + f) * p;
    < { assert (TWO52 - f) * p > 0; }
      TWO52 * (2 * p);
    <=
      TWO52 * q;
    <= { assert g * q >= 0; }
      (TWO52 + g) * q;
    }
  }

  lemma PartsMonotone(e: nat, f: nat, g: nat, h: nat)
    requires f < TWO52 && h < TWO52
    requires e < g || (e == g && f < h)
    ensures Parts(e, f) < Parts(g, h)
  {
    if e == g {
      if e > 0 { assert (h - f) * Pow2(e - 1) > 0; }
    } else if e == 0 {
      Pow2Monotone(0, g - 1);
      assert (TWO52 + h) * (Pow2(g - 1) - 1) >= 0;
    } else {
      Pow2Monotone(e, g - 1);
      LargerExponent(f, h, Pow2(e - 1), Pow2(g - 1));
    }
  }

  lemma MagnitudeMonotone(m: nat, n: nat)
    requires m < n < TWO63
    ensures Magnitude(m) < Magnitude(n)
  {
    PartsMonotone(m / TWO52, m % TWO52, n / TWO52, n % TWO52);
  }

  /** Flipping patterns sorts all finite doubles, subnormals included, by their exact value. */
  lemma SortableNumberOrder(p: Double, q: Double)
    requires p != NEGATIVE_ZERO && q != NEGATIVE_ZERO
    ensures SortableNumber(p) < SortableNumber(q) <==> Scaled(p) < Scaled(q)
    ensures SortableNumber(p) == SortableNumber(q) <==> p == q
  {
    var m, n := if p >= TWO63 then p - TWO63 else p, if q >= TWO63 then q - TWO63 else q;
    if m < n { MagnitudeMonotone(m, n); }
    if n < m { MagnitudeMonotone(n, m); }
    if 0 < m { MagnitudeMonotone(0, m); }
    if 0 < n { MagnitudeMonotone(0, n); }
  }

  // ----- integers

  lemma MulMonotone(a: nat, b: nat, p: nat)
    ensures a <= b ==> a * p <= b * p
  {
    if a <= b { assert (b - a) * p >= 0; }
  }

  lemma ShiftedBounds(low: byte, rest: nat, top: nat, p: nat)
    requires top * p <= rest < (top + 1) * p
    ensures top * (256 * p) <= low + 256 * rest < (top + 1) * (256 * p)
  {
    assert top * (256 * p) == 256 * (top * p);
    assert (top + 1) * (256 * p) == 256 * ((top + 1) * p);
  }

  /** The last of n little-endian bytes holds the top digit. */
  lemma {:induction false} TopByte(b: Bytes)
    requires b != []
    ensures var top: int := b[|b| - 1];
      top * Pow256(|b| - 1) <= LittleEndian(b) < (top + 1) * Pow256(|b| - 1)
  {
    if |b| > 1 {
      TopByte(b[1..]);
      ShiftedBounds(b[0], LittleEndian(b[1..]), b[|b| - 1], Pow256(|b| - 2));
    } else {
      assert b[1..] == [];
    }
  }

  lemma SignedIsFlipped(b: Bytes)
    requires |b| == 8
    ensures LittleEndian(b) < TWO64
    ensures FlipSign(LittleEndian(b)) == Signed(b) + TWO63
    ensures -TWO63 <= Signed(b) < TWO63
  {
    Pow256Of8();
    TopByte(b);
    assert Pow256(7) == 0x100_0000_0000_0000;
    var top: int := b[7];
    MulMonotone(128, top, 0x100_0000_0000_0000);
    MulMonotone(top + 1, 128, 0x100_0000_0000_0000);
  }

  // ----- ids

  /** With table names free of zero bytes, the concatenation orders as the pair. */
  lemma {:induction false} PairOrder(t: Bytes, r: Bytes, u: Bytes, s: Bytes)
    requires 0 !in t && 0 !in u
    ensures Less(t + [0] + r, u + [0] + s) <==> Less(t, u) || (t == u && Less(r, s))
    ensures t + [0] + r == u + [0] + s <==> t == u && r == s
    decreases |t|
  {
    var a, b := t + [0] + r, u + [0] + s;
    if t != [] && u != [] {
      PairOrder(t[1..], r, u[1..], s);
      assert a[1..] == t[1..] + [0] + r && b[1..] == u[1..] + [0] + s;
      assert a == [t[0]] + a[1..] && b == [u[0]] + b[1..];
      assert t == [t[0]] + t[1..] && u == [u[0]] + u[1..];
    } else if t == [] && u == [] {
      assert a[1..] == r && b[1..] == s;
    } else if t == [] {
      assert u[0] != 0 && a[0] == 0 && b[0] == u[0];
    } else {
      assert t[0] != 0 && b[0] == 0 && a[0] == t[0];
    }
  }

  // ----- the order theorem

  /** Keys under one rank tag compare by the rest. */
  lemma TaggedOrder(tag: Bytes, a: Bytes, b: Bytes)
    ensures Less(tag + Hex(a), tag + Hex(b)) <==> Less(a, b)
    ensures tag + Hex(a) == tag + Hex(b) <==> a == b
  {
    LessCommonPrefix(tag, Hex(a), Hex(b));
    HexKeepsOrder(a, b);
    assert (tag + Hex(a))[|tag|..] == Hex(a) && (tag + Hex(b))[|tag|..] == Hex(b);
  }

  lemma RankOrder(a: Meaning, b: Meaning)
    requires Rank(a) < Rank(b)
    ensures Less(Encode(a), Encode(b)) && Encode(a) != Encode(b)
  {
    assert Encode(a)[1..][0] == 48 + Rank(a) && Encode(b)[1..][0] == 48 + Rank(b);
  }

  /** Equal ranks: the keys compare as the contents. */
  lemma ContentOrder(a: Meaning, b: Meaning)
    requires Rank(a) == Rank(b) && WellFormed(a) && WellFormed(b)
    ensures Less(Encode(a), Encode(b)) <==> Before(a, b)
    ensures Encode(a) == Encode(b) <==> a == b
  {
    Pow256Of8();
    match a
    case Number(p) =>
      SortableNumberOrder(p, b.pattern);
      BigEndianKeepsOrder(8, SortableNumber(p), SortableNumber(b.pattern));
      TaggedOrder(NUMBER_TAG, BigEndian(8, SortableNumber(p)), BigEndian(8, SortableNumber(b.pattern)));
    case Text(s) => TaggedOrder(STRING_TAG, s, b.s);
    case Id(t, r) =>
      PairOrder(t, r, b.table, b.raw);
      TaggedOrder(ID_TAG, t + [0] + r, b.table + [0] + b.raw);
    case Int64(i) =>
      BigEndianKeepsOrder(8, i + TWO63, b.value + TWO63);
      TaggedOrder(INT64_TAG, BigEndian(8, i + TWO63), BigEndian(8, b.value + TWO63));
    case Blob(s) => TaggedOrder(BLOB_TAG, s, b.b);
    case Complex(s) => TaggedOrder(COMPLEX_TAG, s, b.canonical);
    case _ => LessIrreflexive(Encode(a));
  }

  /** Encoding keeps the protocol order and never merges two meanings. */
  lemma EncodeKeepsOrder(a: Meaning, b: Meaning)
    requires WellFormed(a) && WellFormed(b)
    ensures Less(Encode(a), Encode(b)) <==> Before(a, b)
    ensures Encode(a) == Encode(b) <==> a == b
  {
    if Rank(a) < Rank(b) {
      RankOrder(a, b);
    } else if Rank(b) < Rank(a) {
      RankOrder(b, a);
      LessAsymmetric(Encode(b), Encode(a));
    } else {
      ContentOrder(a, b);
    }
  }

  lemma PlainWellFormed(env: Env, x: Option<Wire>)
    ensures WellFormed(Plain(env, x))
  {
    if x.Some? && Int64Bytes(x.value).Some? { SignedIsFlipped(Int64Bytes(x.value).value); }
  }

  lemma EncodeSigned(b: Bytes, u: nat)
    requires |b| == 8 && u < TWO64 && u == FlipSign(LittleEndian(b))
    ensures Encode(Int64(Signed(b))) == INT64_TAG + Hex(BigEndian(8, u))
  {
    SignedIsFlipped(b);
    assert Signed(b) + TWO63 == u;
  }

  lemma Int64KeyMeans(env: Env, w: Wire)
    requires Int64Key(w).Some?
    ensures Int64Key(w).value == Encode(Plain(env, Some(w)))
  {
    var b := Int64Bytes(w).value;
    Pow256Of8();
    EncodeSigned(b, FlipSign(LittleEndian(b)));
    assert w.WObj?;
    assert Plain(env, Some(w)) == Int64(Signed(b));
  }

  lemma TagsDiffer()
    ensures INTEGER_TAG != BYTES_TAG
  {
    assert INTEGER_TAG[1] != BYTES_TAG[1];
  }

  lemma OneTagOnly(w: Wire)
    requires BlobBytes(w).Some?
    ensures w.WObj? && INTEGER_TAG !in w.fields && Int64Bytes(w).None?
  {
    TagsDiffer();
    assert w.fields.Keys == {BYTES_TAG};
  }

  lemma BlobKeyMeans(env: Env, w: Wire)
    requires BlobKey(w).Some?
    ensures BlobKey(w).value == Encode(Plain(env, Some(w)))
  {
    OneTagOnly(w);
    assert Plain(env, Some(w)) == Blob(BlobBytes(w).value);
  }

  /** The validator-independent key is the key of the plain meaning. */
  lemma GenericKeyMeans(env: Env, x: Option<Wire>)
    requires GenericKey(env, x).Some?
    ensures GenericKey(env, x).value == Encode(Plain(env, x))
  {
    if x.Some? && x.value.WObj? {
      if INTEGER_TAG in x.value.fields {
        Int64KeyMeans(env, x.value);
      } else if BYTES_TAG in x.value.fields {
        BlobKeyMeans(env, x.value);
      } else {
        assert Int64Bytes(x.value).None? && BlobBytes(x.value).None?;
      }
    }
  }

  lemma {:induction false} IdBranch(env: Env, bs: seq<Validator>, s: Bytes)
    ensures IdBranchKey(env, bs, s).Some? <==>
      exists i | 0 <= i < |bs| :: IdTable(bs[i]).Some? && env.Authentic(s, IdTable(bs[i]).value)
    ensures IdBranchKey(env, bs, s).Some? ==>
      && env.target(s).Some?
      && IdBranchKey(env, bs, s).value == OpaqueIdKey(env.target(s).value.0, env.target(s).value.1)
  {
    if bs != [] {
      IdBranch(env, bs[1..], s);
      assert forall i | 1 <= i < |bs| :: bs[i] == bs[1..][i - 1];
    }
  }

  lemma {:induction false} FirstBranch(env: Env, bs: seq<Validator>, w: Wire) returns (i: nat)
    ensures FirstBranchKey(env, bs, w).Some? ==>
      i < |bs| && FirstAccepting(env, bs, w, i) && FirstBranchKey(env, bs, w) == PresentKey(env, bs[i], w)
  {
    if bs == [] || PresentKey(env, bs[0], w).Some? {
      i := 0;
    } else {
      var j := FirstBranch(env, bs[1..], w);
      i := j + 1;
      assert forall k | 1 <= k < |bs| :: bs[k] == bs[1..][k - 1];
    }
  }

  /** Only an authentic token is ever read as an id. */
  lemma {:induction false} ReadsOnlyTokens(env: Env, v: Validator, s: Bytes)
    requires ReadsId(env, v, s)
    ensures env.target(s).Some?
    decreases v
  {
    match v
    case VOptional(c) => ReadsOnlyTokens(env, c, s);
    case VDefaulted(c, _) => ReadsOnlyTokens(env, c, s);
    case VUnion(bs) =>
      if i :| 0 <= i < |bs| && FirstAccepting(env, bs, WStr(s), i) && ReadsId(env, bs[i], s) {
        ReadsOnlyTokens(env, bs[i], s);
      }
    case _ =>
  }

  /** A literal validator's key is the key of the value itself. */
  lemma SameGenericKey(env: Env, a: Wire, b: Wire)
    requires env.Valid() && Same(a, b) && a != WNull && b != WNull
    requires GenericPresentKey(env, a).Some?
    ensures GenericPresentKey(env, a) == GenericPresentKey(env, b)
  {
    match a
    case WObj(f) =>
      var g := b.fields;
      assert f.Keys == Canonical(a).fields.Keys == Canonical(b).fields.Keys == g.Keys;
      assert env.text(a) == env.text(b);
      if INTEGER_TAG in f {
        assert Canonical(a).fields[INTEGER_TAG] == Canonical(b).fields[INTEGER_TAG];
        assert Int64Bytes(a).Some?;
        assert f[INTEGER_TAG] == g[INTEGER_TAG];
      } else if BYTES_TAG in f {
        assert Canonical(a).fields[BYTES_TAG] == Canonical(b).fields[BYTES_TAG];
        assert f[BYTES_TAG] == g[BYTES_TAG];
      }
    case WArr(_) => assert env.text(a) == env.text(b);
    case _ =>
  }

  /** Every key is the encoding of the protocol meaning of its value. */
  lemma {:induction false} KeyMeans(env: Env, v: Validator, w: Wire)
    requires env.Valid() && PresentKey(env, v, w).Some?
    ensures PresentKey(env, v, w).value == Encode(MeaningOf(env, v, Some(w)))
    decreases v
  {
    if v.VOptional? || v.VDefaulted? {
      KeyMeans(env, v.inner, w);
    } else if w != WNull {
      if v.VUnion? {
        UnionKeyMeans(env, v, w);
      } else if v.VLiteral? || v.VAny? || v.VBoolean? {
        GenericReading(env, v, w);
      } else {
        OwnReading(env, v, w);
      }
    }
  }

  /** Validators whose key is the generic key of the value. */
  lemma GenericReading(env: Env, v: Validator, w: Wire)
    requires env.Valid() && w != WNull && (v.VLiteral? || v.VAny? || v.VBoolean?) && PresentKey(env, v, w).Some?
    ensures PresentKey(env, v, w).value == Encode(MeaningOf(env, v, Some(w)))
  {
    if v.VLiteral? { SameGenericKey(env, v.value, w); }
    GenericKeyMeans(env, Some(w));
  }

  /** A tagged object is read as what its tag says. */
  lemma TaggedReading(env: Env, v: Validator, w: Wire)
    requires (v.VInt64? || v.VBytes?) && w.WObj?
    ensures MeaningOf(env, v, Some(w)) == Plain(env, Some(w))
  {
    assert !ReadsCompound(env, v, w);
  }

  /** Validators that read a value in their own way. */
  lemma OwnReading(env: Env, v: Validator, w: Wire)
    requires env.Valid() && w != WNull && PresentKey(env, v, w).Some?
    requires !v.VOptional? && !v.VDefaulted? && !v.VUnion? && !v.VLiteral? && !v.VAny? && !v.VBoolean?
    ensures PresentKey(env, v, w).value == Encode(MeaningOf(env, v, Some(w)))
  {
    if v.VInt64? {
      TaggedReading(env, v, w);
      Int64KeyMeans(env, w);
    } else if v.VBytes? {
      TaggedReading(env, v, w);
      BlobKeyMeans(env, w);
    }
  }

  lemma {:induction false} UnionKeyMeans(env: Env, v: Validator, w: Wire)
    requires env.Valid() && v.VUnion? && w != WNull && PresentKey(env, v, w).Some?
    ensures PresentKey(env, v, w).value == Encode(MeaningOf(env, v, Some(w)))
    decreases v, 0
  {
    var bs := v.branches;
    if w.WStr? { IdBranch(env, bs, w.text); }
    if w.WStr? && IdBranchKey(env, bs, w.text).Some? {
    } else {
      var i := FirstBranch(env, bs, w);
      KeyMeans(env, bs[i], w);
      assert forall j | 0 <= j < |bs| && FirstAccepting(env, bs, w, j) :: j == i;
      assert ReadsCompound(env, v, w) <==> ReadsCompound(env, bs[i], w);
      if w.WStr? {
        if ReadsId(env, bs[i], w.text) { ReadsOnlyTokens(env, bs[i], w.text); }
        assert ReadsId(env, v, w.text) <==> ReadsId(env, bs[i], w.text);
      }
    }
  }

  lemma OrderKeyMeans(env: Env, v: Validator, x: Option<Wire>)
    requires env.Valid() && OrderKey(env, v, x).Some?
    ensures OrderKey(env, v, x).value == Encode(MeaningOf(env, v, x)) && WellFormed(MeaningOf(env, v, x))
  {
    if x.Some? { KeyMeans(env, v, x.value); }
    MeaningWellFormed(env, v, x);
  }

  lemma MeaningWellFormed(env: Env, v: Validator, x: Option<Wire>)
    requires env.Valid()
    ensures WellFormed(MeaningOf(env, v, x))
  {
    PlainWellFormed(env, x);
  }

  /** The byte order of two keys is the protocol order of the two field values, whichever validators
      produced them, and equal keys mean equal values. */
  lemma KeysFollowProtocolOrder(env: Env, v: Validator, x: Option<Wire>, u: Validator, y: Option<Wire>)
    requires env.Valid()
    requires OrderKey(env, v, x).Some? && OrderKey(env, u, y).Some?
    ensures var kx, ky := OrderKey(env, v, x).value, OrderKey(env, u, y).value;
      && (Less(kx, ky) <==> Before(MeaningOf(env, v, x), MeaningOf(env, u, y)))
      && (kx == ky <==> MeaningOf(env, v, x) == MeaningOf(env, u, y))
  {
    var m, n := MeaningOf(env, v, x), MeaningOf(env, u, y);
    OrderKeyMeans(env, v, x);
    OrderKeyMeans(env, u, y);
    EncodeKeepsOrder(m, n);
  }

  /** Under an indexable validator no value is compared as a compound. */
  lemma {:induction false} IndexableIsScalar(env: Env, v: Validator, w: Wire)
    requires Indexable(v)
    ensures !ReadsCompound(env, v, w)
  {
    match v
    case VOptional(c) => IndexableIsScalar(env, c, w);
    case VDefaulted(c, _) => IndexableIsScalar(env, c, w);
    case VUnion(bs) =>
      forall i | 0 <= i < |bs| ensures !ReadsCompound(env, bs[i], w) { IndexableIsScalar(env, bs[i], w); }
    case _ =>
  }

  /** Validator-independent keys are equal exactly for equal values. */
  lemma GenericKeysCompareValues(env: Env, x: Option<Wire>, y: Option<Wire>)
    requires env.Valid() && GenericKey(env, x).Some? && GenericKey(env, y).Some?
    ensures GenericKey(env, x) == GenericKey(env, y) <==> SameOption(x, y)
    ensures Less(GenericKey(env, x).value, GenericKey(env, y).value) <==> Before(Plain(env, x), Plain(env, y))
  {
    GenericKeyMeans(env, x);
    GenericKeyMeans(env, y);
    PlainWellFormed(env, x);
    PlainWellFormed(env, y);
    EncodeKeepsOrder(Plain(env, x), Plain(env, y));
    if x.Some? && y.Some? { PlainTellsApart(env, x.value, y.value); }
  }

  predicate SameOption(x: Option<Wire>, y: Option<Wire>) {
    x.Some? == y.Some? && (x.Some? ==> Same(x.value, y.value))
  }

  /** Tagged bytes determine the tagged object. */
  lemma TaggedDetermined(a: Wire, b: Wire, tag: Bytes)
    requires TaggedBytes(a, tag).Some? && TaggedBytes(a, tag) == TaggedBytes(b, tag)
    ensures a == b
  {
    assert a.fields.Keys == b.fields.Keys == {tag};
    assert a.fields[tag].text == Base64.Encode(TaggedBytes(a, tag).value) == b.fields[tag].text;
    assert a.fields[tag] == b.fields[tag];
    assert a.fields == b.fields;
  }

  lemma SignedDetermines(b: Bytes, c: Bytes)
    requires |b| == 8 && |c| == 8 && Signed(b) == Signed(c)
    ensures b == c
  {
    SignedIsFlipped(b);
    SignedIsFlipped(c);
    ToLittleEndianOf(b);
    ToLittleEndianOf(c);
  }

  lemma SameTagged(a: Wire, b: Wire, tag: Bytes)
    requires Same(a, b) && TaggedBytes(a, tag).Some?
    ensures TaggedBytes(b, tag) == TaggedBytes(a, tag)
  {
    assert a.fields.Keys == Canonical(a).fields.Keys == Canonical(b).fields.Keys == b.fields.Keys;
    assert tag in a.fields;
    assert Canonical(a).fields[tag] == Canonical(a.fields[tag]);
    assert Canonical(b).fields[tag] == Canonical(b.fields[tag]);
    assert a.fields[tag] == b.fields[tag];
  }

  /** Plain meanings are equal exactly when the values are the same on the wire. */
  lemma PlainTellsApart(env: Env, a: Wire, b: Wire)
    requires env.Valid()
    ensures Plain(env, Some(a)) == Plain(env, Some(b)) <==> Same(a, b)
  {
    if Same(a, b) {
      if Int64Bytes(a).Some? { SameTagged(a, b, INTEGER_TAG); }
      if Int64Bytes(b).Some? { SameTagged(b, a, INTEGER_TAG); }
      if BlobBytes(a).Some? { SameTagged(a, b, BYTES_TAG); }
      if BlobBytes(b).Some? { SameTagged(b, a, BYTES_TAG); }
      assert env.text(a) == env.text(b);
    } else if Plain(env, Some(a)) == Plain(env, Some(b)) {
      DifferentPlain(env, a, b);
    }
  }

  lemma DifferentPlain(env: Env, a: Wire, b: Wire)
    requires env.Valid() && Plain(env, Some(a)) == Plain(env, Some(b))
    ensures Same(a, b)
  {
    var m := Plain(env, Some(a));
    if m.Int64? {
      SignedDetermines(Int64Bytes(a).value, Int64Bytes(b).value);
      TaggedDetermined(a, b, INTEGER_TAG);
    } else if m.Blob? {
      TaggedDetermined(a, b, BYTES_TAG);
    } else if m.Complex? {
      assert env.text(a) == env.text(b);
    }
  }

  function Unwrapped(v: Validator): (r: Validator)
    ensures r == v || r < v
    ensures !r.VOptional? && !r.VDefaulted?
  {
    if v.VOptional? || v.VDefaulted? then Unwrapped(v.inner) else v
  }

  lemma {:induction false} UnwrappedReads(env: Env, v: Validator, s: Bytes)
    requires !Unwrapped(v).VUnion?
    ensures ReadsId(env, v, s) <==> IdTable(v).Some? && env.Authentic(s, IdTable(v).value)
  {
    if v.VOptional? || v.VDefaulted? { UnwrappedReads(env, v.inner, s); }
  }

  /** In a union without nested unions a string is an id exactly when some branch is an id of a table
      that authenticates it, wherever that branch stands. */
  lemma FlatUnionPrefersId(env: Env, bs: seq<Validator>, s: Bytes)
    requires env.Valid() && Indexable(VUnion(bs)) && forall i | 0 <= i < |bs| :: !Unwrapped(bs[i]).VUnion?
    requires PresentKey(env, VUnion(bs), WStr(s)).Some?
    ensures MeaningOf(env, VUnion(bs), Some(WStr(s))).Id? <==>
      exists i | 0 <= i < |bs| :: IdTable(bs[i]).Some? && env.Authentic(s, IdTable(bs[i]).value)
    ensures PresentKey(env, VUnion(bs), WStr(s)).value
         == Encode(MeaningOf(env, VUnion(bs), Some(WStr(s))))
  {
    KeyMeans(env, VUnion(bs), WStr(s));
    IndexableIsScalar(env, VUnion(bs), WStr(s));
    forall i | 0 <= i < |bs|
      ensures ReadsId(env, bs[i], s) <==> IdTable(bs[i]).Some? && env.Authentic(s, IdTable(bs[i]).value)
    {
      UnwrappedReads(env, bs[i], s);
    }
    if ReadsId(env, VUnion(bs), s) { ReadsOnlyTokens(env, VUnion(bs), s); }
  }

  /** Whether a validator takes this string at all, from its structure. */
  predicate TakesString(env: Env, v: Validator, s: Bytes)
    decreases v
  {
    match v
    case VOptional(c) => TakesString(env, c, s)
    case VDefaulted(c, _) => TakesString(env, c, s)
    case VUnion(bs) => exists i | 0 <= i < |bs| :: TakesString(env, bs[i], s)
    case VId(t) => env.Authentic(s, t)
    case VLiteral(value) => Same(value, WStr(s))
    case _ => v.VString? || v.VImage? || v.VAny? || CompoundValidator(v)
  }

  /** Whether it takes the string as an id: through an id among the direct branches of a union, or else through
      the first branch that takes the string. */
  predicate TakesAsId(env: Env, v: Validator, s: Bytes)
    decreases v
  {
    match v
    case VOptional(c) => TakesAsId(env, c, s)
    case VDefaulted(c, _) => TakesAsId(env, c, s)
    case VId(t) => env.Authentic(s, t)
    case VUnion(bs) =>
      || (exists i | 0 <= i < |bs| :: IdTable(bs[i]).Some? && env.Authentic(s, IdTable(bs[i]).value))
      || (exists i | 0 <= i < |bs| :: TakesAsId(env, bs[i], s) && NoneBeforeTakes(env, bs, s, i))
    case _ => false
  }

  predicate NoneBeforeTakes(env: Env, bs: seq<Validator>, s: Bytes, i: nat)
    requires i < |bs|
    decreases bs, 0
  {
    forall j | 0 <= j < i :: !TakesString(env, bs[j], s)
  }

  lemma {:induction false} IdTableTakes(env: Env, v: Validator, s: Bytes)
    requires IdTable(v).Some?
    ensures TakesString(env, v, s) <==> env.Authentic(s, IdTable(v).value)
    decreases v
  {
    if v.VOptional? || v.VDefaulted? { IdTableTakes(env, v.inner, s); }
  }

  lemma {:induction false} FirstTaken(env: Env, bs: seq<Validator>, s: Bytes)
    requires forall i | 0 <= i < |bs| :: PresentKey(env, bs[i], WStr(s)).Some? <==> TakesString(env, bs[i], s)
    ensures FirstBranchKey(env, bs, WStr(s)).Some? <==> exists i | 0 <= i < |bs| :: TakesString(env, bs[i], s)
    decreases |bs|
  {
    if bs != [] {
      assert forall i | 0 <= i < |bs[1..]| :: bs[1..][i] == bs[i + 1];
      FirstTaken(env, bs[1..], s);
      assert forall i | 1 <= i < |bs| :: bs[i] == bs[1..][i - 1];
    }
  }

  lemma LiteralTakes(env: Env, value: Wire, s: Bytes)
    ensures PresentKey(env, VLiteral(value), WStr(s)).Some? <==> Same(value, WStr(s))
  {
    if Same(value, WStr(s)) { assert Canonical(value) == WStr(s) && value.WStr?; }
  }

  /** A string has a key exactly when the validator takes it. */
  lemma {:induction false} StringsKeyedExactly(env: Env, v: Validator, s: Bytes)
    ensures PresentKey(env, v, WStr(s)).Some? <==> TakesString(env, v, s)
    decreases v
  {
    if v.VOptional? || v.VDefaulted? {
      StringsKeyedExactly(env, v.inner, s);
    } else if v.VUnion? {
      var bs := v.branches;
      forall i | 0 <= i < |bs| ensures PresentKey(env, bs[i], WStr(s)).Some? <==> TakesString(env, bs[i], s) {
        StringsKeyedExactly(env, bs[i], s);
      }
      FirstTaken(env, bs, s);
      IdBranch(env, bs, s);
      if i :| 0 <= i < |bs| && IdTable(bs[i]).Some? && env.Authentic(s, IdTable(bs[i]).value) { IdTableTakes(env, bs[i], s); }
    } else if v.VLiteral? {
      LiteralTakes(env, v.value, s);
    }
  }

  lemma {:induction false} TakenAsIdIsTaken(env: Env, v: Validator, s: Bytes)
    requires TakesAsId(env, v, s)
    ensures TakesString(env, v, s)
    decreases v
  {
    if v.VOptional? || v.VDefaulted? {
      TakenAsIdIsTaken(env, v.inner, s);
    } else if v.VUnion? {
      var bs := v.branches;
      if i :| 0 <= i < |bs| && IdTable(bs[i]).Some? && env.Authentic(s, IdTable(bs[i]).value) {
        IdTableTakes(env, bs[i], s);
      } else {
        var i :| 0 <= i < |bs| && TakesAsId(env, bs[i], s) && NoneBeforeTakes(env, bs, s, i);
        TakenAsIdIsTaken(env, bs[i], s);
      }
    }
  }

  lemma FirstAcceptingTakes(env: Env, bs: seq<Validator>, s: Bytes, i: nat)
    requires i < |bs|
    ensures FirstAccepting(env, bs, WStr(s), i) <==> TakesString(env, bs[i], s) && NoneBeforeTakes(env, bs, s, i)
  {
    forall j | 0 <= j < |bs| ensures PresentKey(env, bs[j], WStr(s)).Some? <==> TakesString(env, bs[j], s) {
      StringsKeyedExactly(env, bs[j], s);
    }
  }

  lemma {:induction false} ReadsIdIsTakesAsId(env: Env, v: Validator, s: Bytes)
    ensures ReadsId(env, v, s) <==> TakesAsId(env, v, s)
    decreases v
  {
    if v.VOptional? || v.VDefaulted? {
      ReadsIdIsTakesAsId(env, v.inner, s);
    } else if v.VUnion? {
      var bs := v.branches;
      forall i | 0 <= i < |bs|
        ensures FirstAccepting(env, bs, WStr(s), i) && ReadsId(env, bs[i], s) <==> TakesAsId(env, bs[i], s) && NoneBeforeTakes(env, bs, s, i)
      {
        ReadsIdIsTakesAsId(env, bs[i], s);
        FirstAcceptingTakes(env, bs, s, i);
        if TakesAsId(env, bs[i], s) { TakenAsIdIsTaken(env, bs[i], s); }
      }
    }
  }

  lemma TakenStringKey(env: Env, v: Validator, s: Bytes)
    requires env.Valid() && Indexable(v) && PresentKey(env, v, WStr(s)).Some?
    ensures PresentKey(env, v, WStr(s)).value ==
      if ReadsId(env, v, s) && env.target(s).Some? then OpaqueIdKey(env.target(s).value.0, env.target(s).value.1)
      else STRING_TAG + Hex(s)
  {
    KeyMeans(env, v, WStr(s));
    IndexableIsScalar(env, v, WStr(s));
  }

  /** The exact condition, for every indexable validator, nested unions included: a string has the key of an id
      exactly when it is taken as one, and otherwise, if it is taken at all, the key of a string. */
  lemma IdsKeyedExactly(env: Env, v: Validator, s: Bytes)
    requires env.Valid() && Indexable(v)
    ensures PresentKey(env, v, WStr(s)) ==
      if TakesAsId(env, v, s) && env.target(s).Some? then Some(OpaqueIdKey(env.target(s).value.0, env.target(s).value.1))
      else if TakesString(env, v, s) then Some(STRING_TAG + Hex(s))
      else None
    ensures TakesAsId(env, v, s) ==> env.target(s).Some?
  {
    StringsKeyedExactly(env, v, s);
    ReadsIdIsTakesAsId(env, v, s);
    if TakesAsId(env, v, s) {
      TakenAsIdIsTaken(env, v, s);
      ReadsOnlyTokens(env, v, s);
    }
    if TakesString(env, v, s) { TakenStringKey(env, v, s); }
  }

  /** The preference does not reach into a nested union: behind a string branch, an authentic id of
      the inner union keeps the rank of a string. */
  lemma NestedUnionHidesId(env: Env, table: Bytes, s: Bytes)
    requires env.Authentic(s, table)
    ensures var inner := VUnion([VId(table), VNull]);
      && Indexable(VUnion([VString, inner]))
      && PresentKey(env, inner, WStr(s)) == Some(OpaqueIdKey(table, env.target(s).value.1))
      && PresentKey(env, VUnion([VString, inner]), WStr(s)) == Some(STRING_TAG + Hex(s))
  {
    var inner := VUnion([VId(table), VNull]);
    IdBranch(env, inner.branches, s);
    assert IdTable(inner.branches[0]) == Some(table);
    var outer := [VString, inner];
    IdBranch(env, outer, s);
    assert forall i | 0 <= i < |outer| :: IdTable(outer[i]).None?;
    assert PresentKey(env, outer[0], WStr(s)) == Some(STRING_TAG + Hex(s));
    assert FirstBranchKey(env, outer, WStr(s)) == Some(STRING_TAG + Hex(s));
  }
}
