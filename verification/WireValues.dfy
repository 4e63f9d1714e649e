/** Wire values (the JSON the HTTP protocol carries) and the manifest validators over them. */
module WireValues {
  import opened ByteStrings
  import Base64

  const TWO52: int := 0x10_0000_0000_0000
  const TWO63: int := 0x8000_0000_0000_0000
  const TWO64: int := 0x1_0000_0000_0000_0000

  /** A finite IEEE 754 binary64 number, held as its 64-bit pattern (section 3.4 of IEEE 754-2019). */
  type Double = b: nat | b < TWO64 && b % TWO63 / TWO52 < 2047

  const NEGATIVE_ZERO: Double := TWO63

  /** Absent document fields are None of Option<Wire>; null is a value. */
  datatype Wire =
    | WNull
    | WBool(flag: bool)
    | WNum(number: Double)
    | WStr(text: Bytes)
    | WArr(items: seq<Wire>)
    | WObj(fields: map<Bytes, Wire>)

  const INTEGER_TAG: Bytes := [36, 105, 110, 116, 101, 103, 101, 114]  // "$integer"
  const BYTES_TAG: Bytes := [36, 98, 121, 116, 101, 115]  // "$bytes"

  /** The bytes of a one-field object {tag: canonical base64}. */
  function TaggedBytes(w: Wire, tag: Bytes): Option<Bytes> {
    if w.WObj? && w.fields.Keys == {tag} && w.fields[tag].WStr? && Base64.Canonical(w.fields[tag].text)
    then Base64.Decode(w.fields[tag].text) else None
  }

  function Int64Bytes(w: Wire): (r: Option<Bytes>)
    ensures r.Some? ==> |r.value| == 8
  {
    match TaggedBytes(w, INTEGER_TAG)
    case Some(b) => if |b| == 8 then Some(b) else None
    case None => None
  }

  function BlobBytes(w: Wire): Option<Bytes> {
    TaggedBytes(w, BYTES_TAG)
  }

  /** Tagged values are exactly the one-field objects that hold the standard encoding of their bytes. */
  lemma TaggedExactly(w: Wire, tag: Bytes, b: Bytes)
    ensures TaggedBytes(w, tag) == Some(b) <==> w == WObj(map[tag := WStr(Base64.Encode(b))])
  {
    Base64.DecodeUndoesEncode(b);
    if TaggedBytes(w, tag) == Some(b) {
      assert w.fields.Keys == {tag};
      assert w.fields == map[tag := w.fields[tag]];
    }
  }

  /** An integer has eight of them, a byte string any number. */
  lemma IntegersAndBlobs(w: Wire, b: Bytes)
    ensures Int64Bytes(w) == Some(b) <==> |b| == 8 && w == WObj(map[INTEGER_TAG := WStr(Base64.Encode(b))])
    ensures BlobBytes(w) == Some(b) <==> w == WObj(map[BYTES_TAG := WStr(Base64.Encode(b))])
  {
    TaggedExactly(w, INTEGER_TAG, b);
    TaggedExactly(w, BYTES_TAG, b);
  }

  /** Negative zero is spelled 0 on the wire. */
  function PositiveZero(d: Double): (r: Double)
    ensures r != NEGATIVE_ZERO
  {
    if d == NEGATIVE_ZERO then 0 else d
  }

  /** The value a canonical spelling keeps: numbers lose the sign of zero, nothing else changes. */
  function Canonical(w: Wire): Wire {
    match w
    case WNum(d) => WNum(PositiveZero(d))
    case WArr(items) => WArr(seq(|items|, i requires 0 <= i < |items| => Canonical(items[i])))
    case WObj(fields) => WObj(map k | k in fields :: Canonical(fields[k]))
    case _ => w
  }

  /** Equality of two values' canonical JSON texts. */
  predicate Same(a: Wire, b: Wire) {
    Canonical(a) == Canonical(b)
  }

  datatype Validator =
    | VString | VNumber | VBoolean | VNull | VAny | VInt64 | VBytes | VImage | VBareObject
    | VId(table: Bytes)
    | VLiteral(value: Wire)
    | VOptional(inner: Validator)
    | VDefaulted(inner: Validator, default: Wire)
    | VUnion(branches: seq<Validator>)
    | VObject(shape: map<Bytes, Validator>)
    | VArray(item: Validator)
    | VRecord(key: KeyValidator, element: Validator)
    | VRecursive(name: Bytes, body: Validator)
    | VRef(name: Bytes)

  /** Record keys are strings, string literals, or unions of them. */
  datatype KeyValidator = KString | KLiteral(name: Bytes) | KUnion(options: seq<KeyValidator>)

  const MAX_DEPTH: nat := 128

  const DOT: byte := 46
  const DOLLAR: byte := 36

  const PROTO: Bytes := [95, 95, 112, 114, 111, 116, 111, 95, 95]  // "__proto__"
  const CONSTRUCTOR: Bytes := [99, 111, 110, 115, 116, 114, 117, 99, 116, 111, 114]  // "constructor"
  const PROTOTYPE: Bytes := [112, 114, 111, 116, 111, 116, 121, 112, 101]  // "prototype"

  /** Field names a wire object may use. */
  predicate SafeWireKey(k: Bytes) {
    && 0 < |k| <= 1024 && k[0] != DOLLAR
    && k != PROTO && k != CONSTRUCTOR && k != PROTOTYPE
    && forall i | 0 <= i < |k| :: 0x20 <= k[i] <= 0x7e
  }

  predicate SafePathSegment(k: Bytes) {
    SafeWireKey(k) && DOT !in k
  }
}
