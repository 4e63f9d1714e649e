/** The conversion between JavaScript values and wire values at the runtime's boundary. */
module WireCodec {
  import opened ByteStrings
  import opened WireValues
  import opened OrderKeys
  import opened Costs
  import Base64

  const MAX_ENTRIES: nat := 1024

  /** JavaScript values without cycles. Sparse arrays and objects of other classes cannot be encoded. */
  datatype Js =
    | JUndefined
    | JNull
    | JBool(flag: bool)
    | JNum(number: Double)
    | JStr(text: Bytes)
    | JBigInt(value: int)
    | JBuffer(bytes: Bytes)
    | JArray(items: seq<Js>)
    | JObject(fields: map<Bytes, Js>)
    | JSparse(length: nat)
    | JOther

  // ----- 64-bit integers

  /** The eight little-endian bytes of an int64. */
  function Int64LE(v: int): (b: Bytes)
    requires -TWO63 <= v < TWO63
    ensures |b| == 8
  {
    ToLittleEndian(8, if v < 0 then v + TWO64 else v)
  }

  /** The unsigned integer that big-endian bytes spell. */
  function BigEndianValue(b: Bytes): nat {
    if b == [] then 0
    else
      var last: int := b[|b| - 1];
      256 * BigEndianValue(b[..|b| - 1]) + last
  }

  lemma {:induction false} ReversedIsBigEndian(b: Bytes)
    ensures BigEndianValue(Reversed(b)) == LittleEndian(b)
    decreases |b|
  {
    if b != [] {
      ReversedIsBigEndian(b[1..]);
      assert Reversed(b)[..|b| - 1] == Reversed(b[1..]);
      assert Reversed(b)[|b| - 1] == b[0];
    }
  }

  /** The integer that the decoder reads: big-endian of the reversed bytes, less 2^64 when the top bit is set. */
  function ReadInt64(b: Bytes): int
    requires |b| == 8
  {
    BigEndianValue(Reversed(b)) - (if b[7] >= 128 then TWO64 else 0)
  }

  lemma ReadIsSigned(b: Bytes)
    requires |b| == 8
    ensures ReadInt64(b) == Signed(b) && -TWO63 <= ReadInt64(b) < TWO63
  {
    ReversedIsBigEndian(b);
    SignedIsFlipped(b);
  }

  /** The eight-byte patterns and the int64 integers correspond one to one. */
  lemma Int64Bijection(v: int, b: Bytes)
    requires -TWO63 <= v < TWO63 && |b| == 8
    ensures ReadInt64(Int64LE(v)) == v
    ensures -TWO63 <= ReadInt64(b) < TWO63 && Int64LE(ReadInt64(b)) == b
  {
    var u := if v < 0 then v + TWO64 else v;
    Pow256Of8();
    LittleEndianOfTo(8, u);
    ReadIsSigned(Int64LE(v));
    SignedIsFlipped(Int64LE(v));
    ReadIsSigned(b);
    SignedIsFlipped(b);
    ToLittleEndianOf(b);
  }

  /** The loop that writes the bytes, least significant first, of the value modulo 2^64. */
  method WriteInt64(v: int) returns (out: array<byte>)
    requires -TWO63 <= v < TWO63
    ensures out[..] == Int64LE(v)
  {
    out := new byte[8];
    var u: nat := if v < 0 then v + TWO64 else v;
    ghost var start := u;
    for i := 0 to 8
      invariant out[..i] + ToLittleEndian(8 - i, u) == ToLittleEndian(8, start)
    {
      ghost var before := out[..i];
      out[i] := u % 256;
      assert out[..i + 1] == before + [u % 256];
      assert before + ([u % 256] + ToLittleEndian(8 - i - 1, u / 256)) == before + [u % 256] + ToLittleEndian(8 - i - 1, u / 256);
      u := u / 256;
    }
    assert out[..8] == out[..];
  }

  /** The swapping loop over a copy. */
  method ReverseCopy(b: Bytes) returns (out: array<byte>)
    ensures out[..] == Reversed(b)
  {
    out := new byte[|b|](i requires 0 <= i < |b| => b[i]);
    for i := 0 to out.Length / 2
      invariant forall k | 0 <= k < i || out.Length - i <= k < out.Length :: out[k] == b[|b| - 1 - k]
      invariant forall k | i <= k < out.Length - i :: out[k] == b[k]
    {
      out[i], out[out.Length - 1 - i] := out[out.Length - 1 - i], out[i];
    }
  }

  // ----- decoding

  function FromWire(w: Wire, depth: nat): Option<Js>
    decreases w, 0
  {
    if depth > MAX_DEPTH then None
    else match w
      case WNull => Some(JNull)
      case WBool(b) => Some(JBool(b))
      case WNum(d) => Some(JNum(d))
      case WStr(s) => Some(JStr(s))
      case WArr(items) =>
        if forall i | 0 <= i < |items| :: FromWire(items[i], depth + 1).Some?
        then Some(JArray(DecodedItems(items, depth + 1))) else None
      case WObj(fields) =>
        if |fields| == 1 && INTEGER_TAG in fields then DecodeInteger(fields[INTEGER_TAG])
        else if |fields| == 1 && BYTES_TAG in fields then DecodeBuffer(fields[BYTES_TAG])
        else if forall k | k in fields :: SafeWireKey(k) && FromWire(fields[k], depth + 1).Some?
        then Some(JObject(map k | k in fields :: DecodeOr(fields[k], depth + 1))) else None
  }

  function DecodedItems(items: seq<Wire>, depth: nat): (r: seq<Js>)
    decreases items, 0
  {
    seq(|items|, i requires 0 <= i < |items| => DecodeOr(items[i], depth))
  }

  function DecodedFields(fields: map<Bytes, Wire>, depth: nat): map<Bytes, Js> {
    map k | k in fields :: DecodeOr(fields[k], depth)
  }

  function DecodeOr(w: Wire, depth: nat): Js
    decreases w, 1
  {
    var r := FromWire(w, depth);
    if r.Some? then r.value else JNull
  }

  function DecodeInteger(raw: Wire): Option<Js> {
    if !raw.WStr? then None
    else
      var b := Base64.Decode(raw.text);
      if b.None? || |b.value| != 8 then None else Some(JBigInt(ReadInt64(b.value)))
  }

  function DecodeBuffer(raw: Wire): Option<Js> {
    if !raw.WStr? then None
    else
      var b := Base64.Decode(raw.text);
      if b.None? then None else Some(JBuffer(b.value))
  }

  // ----- encoding

  function Tagged(tag: Bytes, b: Bytes): Wire { WObj(map[tag := WStr(Base64.Encode(b))]) }

  /** Encoding apart from the node and byte budgets. An undefined value is null at the root, dropped from an
      object, and refused in an array. */
  function ToWire(j: Js, depth: nat, root: bool): Option<Wire>
    decreases j, 0
  {
    if depth > MAX_DEPTH then None
    else match j
      case JNull => Some(WNull)
      case JUndefined => if root then Some(WNull) else None
      case JBool(b) => Some(WBool(b))
      case JNum(d) => Some(WNum(d))
      case JStr(s) => Some(WStr(s))
      case JBigInt(v) => if -TWO63 <= v < TWO63 then Some(Tagged(INTEGER_TAG, Int64LE(v))) else None
      case JBuffer(b) => Some(Tagged(BYTES_TAG, b))
      case JArray(items) =>
        if |items| <= MAX_ENTRIES && forall i | 0 <= i < |items| :: ToWire(items[i], depth + 1, false).Some?
        then Some(WArr(EncodedItems(items, depth + 1))) else None
      case JObject(fields) =>
        if |fields| <= MAX_ENTRIES && forall k | k in fields :: FieldOK(k, fields[k], depth + 1)
        then Some(WObj(map k | k in fields && !fields[k].JUndefined? :: EncodeOr(fields[k], depth + 1))) else None
      case _ => None
  }

  function EncodedItems(items: seq<Js>, depth: nat): (r: seq<Wire>)
    decreases items, 0
  {
    seq(|items|, i requires 0 <= i < |items| => EncodeOr(items[i], depth))
  }

  function EncodedFields(fields: map<Bytes, Js>, depth: nat): map<Bytes, Wire> {
    map k | k in fields && !fields[k].JUndefined? :: EncodeOr(fields[k], depth)
  }

  predicate FieldOK(k: Bytes, j: Js, depth: nat)
    decreases j, 1
  {
    SafeWireKey(k) && (j.JUndefined? || ToWire(j, depth, false).Some?)
  }

  function EncodeOr(j: Js, depth: nat): Wire
    decreases j, 1
  {
    var r := ToWire(j, depth, false);
    if r.Some? then r.value else WNull
  }

  /** The value that survives the trip: undefined properties are gone. */
  function Settled(j: Js): Js {
    match j
    case JUndefined => JNull
    case JArray(items) => JArray(seq(|items|, i requires 0 <= i < |items| => Settled(items[i])))
    case JObject(fields) => JObject(map k | k in fields && !fields[k].JUndefined? :: Settled(fields[k]))
    case _ => j
  }

  /** The wire value with its tagged bytes in their canonical spelling. */
  function Respelled(w: Wire): Wire {
    match w
    case WArr(items) => WArr(seq(|items|, i requires 0 <= i < |items| => Respelled(items[i])))
    case WObj(fields) =>
      if |fields| == 1 && (INTEGER_TAG in fields || BYTES_TAG in fields) then
        var tag := if INTEGER_TAG in fields then INTEGER_TAG else BYTES_TAG;
        if fields[tag].WStr? && Base64.Decode(fields[tag].text).Some? then Tagged(tag, Base64.Decode(fields[tag].text).value) else w
      else WObj(map k | k in fields :: Respelled(fields[k]))
    case _ => w
  }

  predicate SmallWire(w: Wire) {
    match w
    case WArr(items) => |items| <= MAX_ENTRIES && forall i | 0 <= i < |items| :: SmallWire(items[i])
    case WObj(fields) => |fields| <= MAX_ENTRIES && forall k | k in fields :: SmallWire(fields[k])
    case _ => true
  }

  lemma TagsAreUnsafe()
    ensures !SafeWireKey(INTEGER_TAG) && !SafeWireKey(BYTES_TAG) && INTEGER_TAG != BYTES_TAG
  {
    TagsDiffer();
    assert INTEGER_TAG[0] == DOLLAR && BYTES_TAG[0] == DOLLAR;
  }

  lemma DecodeTagged(b: Bytes, v: int, depth: nat)
    requires depth <= MAX_DEPTH && -TWO63 <= v < TWO63
    ensures FromWire(Tagged(BYTES_TAG, b), depth) == Some(JBuffer(b))
    ensures FromWire(Tagged(INTEGER_TAG, Int64LE(v)), depth) == Some(JBigInt(v))
  {
    TagsAreUnsafe();
    Base64.DecodeUndoesEncode(b);
    Base64.DecodeUndoesEncode(Int64LE(v));
    Int64Bijection(v, Int64LE(v));
    OneField(BYTES_TAG, WStr(Base64.Encode(b)));
    OneField(INTEGER_TAG, WStr(Base64.Encode(Int64LE(v))));
  }

  lemma OneField(tag: Bytes, w: Wire)
    ensures |map[tag := w]| == 1
  {
    assert (map[tag := w]).Keys == {tag};
  }

  /** Decoding undoes encoding, up to undefined properties. */
  lemma {:induction false} DecodeUndoesEncode(j: Js, depth: nat, root: bool)
    requires ToWire(j, depth, root).Some?
    ensures FromWire(ToWire(j, depth, root).value, depth) == Some(Settled(j))
    decreases j
  {
    match j
    case JBigInt(v) => DecodeTagged([], v, depth);
    case JBuffer(b) => DecodeTagged(b, 0, depth);
    case JArray(items) =>
      forall i | 0 <= i < |items| ensures FromWire(EncodeOr(items[i], depth + 1), depth + 1) == Some(Settled(items[i])) {
        DecodeUndoesEncode(items[i], depth + 1, false);
      }
      ArrayDecodes(items, depth);
    case JObject(fields) =>
      forall k | k in fields && !fields[k].JUndefined?
        ensures SafeWireKey(k) && FromWire(EncodeOr(fields[k], depth + 1), depth + 1) == Some(Settled(fields[k]))
      {
        assert FieldOK(k, fields[k], depth + 1);
        DecodeUndoesEncode(fields[k], depth + 1, false);
      }
      assert ToWire(j, depth, root) == Some(WObj(EncodedFields(fields, depth + 1)));
      ObjectDecodes(fields, EncodedFields(fields, depth + 1), depth);
    case _ =>
  }

  lemma ArrayDecodes(items: seq<Js>, depth: nat)
    requires depth <= MAX_DEPTH
    requires forall i | 0 <= i < |items| :: FromWire(EncodeOr(items[i], depth + 1), depth + 1) == Some(Settled(items[i]))
    ensures FromWire(WArr(EncodedItems(items, depth + 1)), depth) == Some(Settled(JArray(items)))
  {
    var ws := EncodedItems(items, depth + 1);
    assert DecodedItems(ws, depth + 1) == Settled(JArray(items)).items;
  }

  lemma ObjectDecodes(fields: map<Bytes, Js>, out: map<Bytes, Wire>, depth: nat)
    requires depth <= MAX_DEPTH
    requires forall k :: k in out <==> k in fields && !fields[k].JUndefined?
    requires forall k | k in out :: SafeWireKey(k) && FromWire(out[k], depth + 1) == Some(Settled(fields[k]))
    ensures FromWire(WObj(out), depth) == Some(Settled(JObject(fields)))
  {
    TagsAreUnsafe();
    assert INTEGER_TAG !in out && BYTES_TAG !in out;
    assert DecodedFields(out, depth + 1) == Settled(JObject(fields)).fields;
  }

  /** Encoding undoes decoding, up to the spelling of tagged bytes. */
  lemma {:induction false} EncodeUndoesDecode(w: Wire, depth: nat)
    requires FromWire(w, depth).Some? && SmallWire(w)
    ensures !FromWire(w, depth).value.JUndefined?
    ensures ToWire(FromWire(w, depth).value, depth, false) == Some(Respelled(w))
    decreases w
  {
    match w
    case WArr(items) =>
      forall i | 0 <= i < |items| ensures ToWire(DecodeOr(items[i], depth + 1), depth + 1, false) == Some(Respelled(items[i])) {
        EncodeUndoesDecode(items[i], depth + 1);
      }
      ArrayEncodes(items, depth);
    case WObj(fields) =>
      if |fields| == 1 && INTEGER_TAG in fields {
        var b := Base64.Decode(fields[INTEGER_TAG].text).value;
        ReadIsSigned(b);
        Int64Bijection(ReadInt64(b), b);
      } else if |fields| == 1 && BYTES_TAG in fields {
        TagsAreUnsafe();
        OnlyKey(fields, BYTES_TAG, INTEGER_TAG);
      } else {
        forall k | k in fields
          ensures !DecodeOr(fields[k], depth + 1).JUndefined?
          ensures ToWire(DecodeOr(fields[k], depth + 1), depth + 1, false) == Some(Respelled(fields[k]))
        {
          EncodeUndoesDecode(fields[k], depth + 1);
        }
        assert FromWire(w, depth) == Some(JObject(DecodedFields(fields, depth + 1)));
        ObjectEncodes(fields, DecodedFields(fields, depth + 1), depth);
      }
    case _ =>
  }

  lemma OnlyKey(fields: map<Bytes, Wire>, k: Bytes, other: Bytes)
    requires |fields| == 1 && k in fields && other != k
    ensures other !in fields
  {
    assert |fields.Keys - {k}| == 0;
    assert other in fields ==> other in fields.Keys - {k};
  }

  lemma ArrayEncodes(items: seq<Wire>, depth: nat)
    requires depth <= MAX_DEPTH && |items| <= MAX_ENTRIES
    requires forall i | 0 <= i < |items| :: ToWire(DecodeOr(items[i], depth + 1), depth + 1, false) == Some(Respelled(items[i]))
    ensures ToWire(JArray(DecodedItems(items, depth + 1)), depth, false) == Some(Respelled(WArr(items)))
  {
    var js := DecodedItems(items, depth + 1);
    assert EncodedItems(js, depth + 1) == Respelled(WArr(items)).items;
  }

  lemma ObjectEncodes(fields: map<Bytes, Wire>, out: map<Bytes, Js>, depth: nat)
    requires depth <= MAX_DEPTH && |fields| <= MAX_ENTRIES && !(|fields| == 1 && (INTEGER_TAG in fields || BYTES_TAG in fields))
    requires out.Keys == fields.Keys && forall k | k in fields :: SafeWireKey(k) && !out[k].JUndefined?
    requires forall k | k in fields :: ToWire(out[k], depth + 1, false) == Some(Respelled(fields[k]))
    ensures ToWire(JObject(out), depth, false) == Some(Respelled(WObj(fields)))
  {
    assert |out| == |out.Keys| && |fields| == |fields.Keys|;
    forall k | k in out ensures FieldOK(k, out[k], depth + 1) {}
    assert EncodedFields(out, depth + 1) == Respelled(WObj(fields)).fields;
  }

  /** All tagged bytes are spelled canonically. */
  predicate CanonicalTags(w: Wire) {
    match w
    case WArr(items) => forall i | 0 <= i < |items| :: CanonicalTags(items[i])
    case WObj(fields) =>
      if |fields| == 1 && (INTEGER_TAG in fields || BYTES_TAG in fields) then
        var tag := if INTEGER_TAG in fields then INTEGER_TAG else BYTES_TAG;
        fields[tag].WStr? && Base64.Canonical(fields[tag].text)
      else forall k | k in fields :: CanonicalTags(fields[k])
    case _ => true
  }

  lemma {:induction false} RespelledIsSame(w: Wire, depth: nat)
    requires FromWire(w, depth).Some?
    ensures Respelled(w) == w <==> CanonicalTags(w)
    decreases w
  {
    match w
    case WArr(items) =>
      forall i | 0 <= i < |items| ensures Respelled(items[i]) == items[i] <==> CanonicalTags(items[i]) {
        RespelledIsSame(items[i], depth + 1);
      }
      SameItems(items);
    case WObj(fields) =>
      if |fields| == 1 && (INTEGER_TAG in fields || BYTES_TAG in fields) {
        var tag := if INTEGER_TAG in fields then INTEGER_TAG else BYTES_TAG;
        OneTag(fields, tag);
      } else {
        forall k | k in fields ensures Respelled(fields[k]) == fields[k] <==> CanonicalTags(fields[k]) {
          RespelledIsSame(fields[k], depth + 1);
        }
        SameFields(fields);
      }
    case _ =>
  }

  lemma SameItems(items: seq<Wire>)
    requires forall i | 0 <= i < |items| :: Respelled(items[i]) == items[i] <==> CanonicalTags(items[i])
    ensures Respelled(WArr(items)) == WArr(items) <==> CanonicalTags(WArr(items))
  {
    var all := Respelled(WArr(items)).items;
    if all == items {
      forall i | 0 <= i < |items| ensures CanonicalTags(items[i]) { assert all[i] == items[i]; }
    }
  }

  lemma SameFields(fields: map<Bytes, Wire>)
    requires !(|fields| == 1 && (INTEGER_TAG in fields || BYTES_TAG in fields))
    requires forall k | k in fields :: Respelled(fields[k]) == fields[k] <==> CanonicalTags(fields[k])
    ensures Respelled(WObj(fields)) == WObj(fields) <==> CanonicalTags(WObj(fields))
  {
    var all := Respelled(WObj(fields)).fields;
    if all == fields {
      forall k | k in fields ensures CanonicalTags(fields[k]) { assert all[k] == fields[k]; }
    }
  }

  lemma OneTag(fields: map<Bytes, Wire>, tag: Bytes)
    requires |fields| == 1 && tag in fields && fields[tag].WStr? && Base64.Decode(fields[tag].text).Some?
    ensures Tagged(tag, Base64.Decode(fields[tag].text).value) == WObj(fields) <==> Base64.Canonical(fields[tag].text)
  {
    forall k | k in fields ensures k == tag {
      if k != tag { OnlyKey(fields, tag, k); }
    }
    var again := map[tag := WStr(Base64.Encode(Base64.Decode(fields[tag].text).value))];
    assert again.Keys == fields.Keys;
  }

  /** A decoded wire value encodes back to itself exactly when its tagged bytes are canonical. */
  lemma CanonicalRoundTrip(w: Wire)
    requires FromWire(w, 0).Some? && SmallWire(w)
    ensures ToWire(FromWire(w, 0).value, 0, true) == Some(w) <==> CanonicalTags(w)
  {
    EncodeUndoesDecode(w, 0);
    RespelledIsSame(w, 0);
  }

  // ----- the encoder and its budgets

  /** A loop over an object's properties: those not in todo encode, and out holds what they gave. */
  ghost predicate FieldsDone(fields: map<Bytes, Js>, depth: nat, todo: set<Bytes>, out: map<Bytes, Wire>) {
    var ok :=
      && (forall k | k in fields && k !in todo :: FieldOK(k, fields[k], depth))
      && (forall k :: k in out <==> k in fields && k !in todo && !fields[k].JUndefined?)
      && (forall k | k in out :: out[k] == EncodeOr(fields[k], depth));
    ok
  }

  /** What encoding a value charges: a node a value, and the bytes of its texts and property names. */
  ghost function EncodeCost(j: Js): Spend
    decreases j, 2
  {
    match j
    case JStr(s) => Spend(1, |s|)
    case JBigInt(v) => Spend(1, if -TWO63 <= v < TWO63 then Base64.EncodedLen(8) else 0)
    case JBuffer(b) => Spend(1, Base64.EncodedLen(|b|))
    case JArray(items) => Spend(1, 0).Plus(ItemsCost(j, 0))
    case JObject(fields) => Spend(1, 0).Plus(FieldsCost(j, fields.Keys))
    case _ => Spend(1, 0)
  }

  /** The items from one on. */
  ghost function ItemsCost(j: Js, from: nat): Spend
    requires j.JArray? && from <= |j.items|
    decreases j, 1, |j.items| - from
  {
    if from == |j.items| then NOTHING else EncodeCost(j.items[from]).Plus(ItemsCost(j, from + 1))
  }

  /** The properties in todo, in whatever order. */
  ghost function FieldsCost(j: Js, todo: set<Bytes>): Spend
    requires j.JObject? && todo <= j.fields.Keys
    decreases j, 1, |todo|
  {
    if todo == {} then NOTHING
    else
      var k :| k in todo;
      PropertyCost(k, j.fields[k]).Plus(FieldsCost(j, todo - {k}))
  }

  ghost function PropertyCost(k: Bytes, j: Js): Spend
    decreases j, 3
  {
    Spend(0, |k|).Plus(if j.JUndefined? then NOTHING else EncodeCost(j))
  }

  /** Any property can be taken first. */
  lemma {:induction false} FieldsCostWithout(j: Js, todo: set<Bytes>, k: Bytes)
    requires j.JObject? && todo <= j.fields.Keys && k in todo
    ensures FieldsCost(j, todo) == PropertyCost(k, j.fields[k]).Plus(FieldsCost(j, todo - {k}))
    decreases |todo|
  {
    var first :| first in todo && FieldsCost(j, todo) == PropertyCost(first, j.fields[first]).Plus(FieldsCost(j, todo - {first}));
    if first == k {
    } else {
      FieldsCostWithout(j, todo - {first}, k);
      FieldsCostWithout(j, todo - {k}, first);
      assert todo - {first} - {k} == todo - {k} - {first};
      Exchange(PropertyCost(first, j.fields[first]), PropertyCost(k, j.fields[k]), FieldsCost(j, todo - {first} - {k}));
    }
  }

  lemma RootIsIrrelevant(j: Js, depth: nat, root: bool)
    requires j.JArray? || j.JObject?
    ensures ToWire(j, depth, root) == ToWire(j, depth, false)
  {
  }

  /** A loop over an array's items: the first i encode to out. */
  ghost predicate ItemsDone(items: seq<Js>, depth: nat, i: nat, out: seq<Wire>) {
    var ok := |out| == i <= |items| && forall n | 0 <= n < i :: ToWire(items[n], depth, false) == Some(out[n]);
    ok
  }

  /** The charges still to come. */
  ghost predicate ToCome(before: Spend, total: Spend, now: Spend, rest: Spend) {
    var ok := now.Plus(rest) == before.Plus(total) && now.Fits();
    ok
  }

  /** The result of encoding a value is ToWire's exactly when its cost fits the budget that is left. A limit
      is reported only when it does not fit, and without a limit reached there is no encoding. */
  ghost predicate Encoded(before: Spend, cost: Spend, after: Spend, wanted: Option<Wire>, r: Option<Wire>, limited: bool) {
    var ok :=
      && (r.Some? <==> wanted.Some? && before.Plus(cost).Fits())
      && (r.Some? ==> r == wanted && after == before.Plus(cost))
      && (limited ==> r.None? && !before.Plus(cost).Fits()) && (r.None? && !limited ==> wanted.None?);
    ok
  }

  /** One item of an array: it fails and so does the array, or the loop goes on. */
  lemma ItemStep(j: Js, depth: nat, i: nat, out: seq<Wire>, before: Spend, now: Spend, after: Spend, one: Option<Wire>, limited: bool)
    requires j.JArray? && i < |j.items| && ItemsDone(j.items, depth + 1, i, out)
    requires ToCome(before, ItemsCost(j, 0), now, ItemsCost(j, i))
    requires Encoded(now, EncodeCost(j.items[i]), after, ToWire(j.items[i], depth + 1, false), one, limited)
    ensures one.None? ==> Encoded(before, ItemsCost(j, 0), after, ToWire(j, depth, false), None, limited)
    ensures one.Some? ==> ItemsDone(j.items, depth + 1, i + 1, out + [one.value]) && !limited
                          && ToCome(before, ItemsCost(j, 0), after, ItemsCost(j, i + 1))
  {
    var cost, rest := EncodeCost(j.items[i]), ItemsCost(j, i + 1);
    if one.Some? {
    } else {
      var fails := ToWire(j.items[i], depth + 1, false).None?;
      if fails { ItemFails(j, depth, i); }
      Stops(before, ItemsCost(j, 0), now, cost, rest, after, ToWire(j, depth, false), fails, limited);
    }
  }

  lemma ItemFails(j: Js, depth: nat, i: nat)
    requires j.JArray? && i < |j.items| && ToWire(j.items[i], depth + 1, false).None?
    ensures ToWire(j, depth, false).None?
  {
  }

  lemma AllItemsDone(j: Js, depth: nat, out: seq<Wire>)
    requires j.JArray? && depth <= MAX_DEPTH && |j.items| <= MAX_ENTRIES && ItemsDone(j.items, depth + 1, |j.items|, out)
    ensures ToWire(j, depth, false) == Some(WArr(out))
  {
    forall n | 0 <= n < |out| ensures out[n] == EncodedItems(j.items, depth + 1)[n] {
      assert ToWire(j.items[n], depth + 1, false) == Some(out[n]);
    }
    assert out == EncodedItems(j.items, depth + 1);
  }

  /** One property: None is an error, and Some(None) a property that is dropped. */
  ghost predicate PropertyEncoded(before: Spend, k: Bytes, j: Js, depth: nat, after: Spend, r: Option<Option<Wire>>, limited: bool) {
    var ok :=
      && (r.Some? <==> FieldOK(k, j, depth) && before.Plus(PropertyCost(k, j)).Fits())
      && (r.Some? ==> r.value == (if j.JUndefined? then None else Some(EncodeOr(j, depth))) && after == before.Plus(PropertyCost(k, j)))
      && (limited ==> r.None? && !before.Plus(PropertyCost(k, j)).Fits()) && (r.None? && !limited ==> !FieldOK(k, j, depth));
    ok
  }

  /** A loop that stops at a failure. */
  lemma Stops(before: Spend, total: Spend, now: Spend, cost: Spend, rest: Spend, after: Spend, wanted: Option<Wire>, fails: bool, limited: bool)
    requires ToCome(before, total, now, cost.Plus(rest)) && (fails || !now.Plus(cost).Fits()) && (fails ==> wanted.None?)
    requires (limited ==> !now.Plus(cost).Fits()) && (!limited ==> fails)
    ensures Encoded(before, total, after, wanted, None, limited)
  {
  }

  lemma FieldStep(j: Js, depth: nat, todo: set<Bytes>, out: map<Bytes, Wire>, k: Bytes, before: Spend, now: Spend, after: Spend,
                  one: Option<Option<Wire>>, limited: bool)
    requires j.JObject? && todo <= j.fields.Keys && k in todo && FieldsDone(j.fields, depth + 1, todo, out)
    requires ToCome(before, FieldsCost(j, j.fields.Keys), now, FieldsCost(j, todo))
    requires PropertyEncoded(now, k, j.fields[k], depth + 1, after, one, limited)
    ensures one.None? ==> Encoded(before, FieldsCost(j, j.fields.Keys), after, ToWire(j, depth, false), None, limited)
    ensures one.Some? ==> FieldsDone(j.fields, depth + 1, todo - {k}, if one.value.Some? then out[k := one.value.value] else out) && !limited
                          && ToCome(before, FieldsCost(j, j.fields.Keys), after, FieldsCost(j, todo - {k}))
  {
    var total, cost := FieldsCost(j, j.fields.Keys), PropertyCost(k, j.fields[k]);
    FieldsCostWithout(j, todo, k);
    if one.Some? {
    } else {
      var fails := !FieldOK(k, j.fields[k], depth + 1);
      if fails { FieldFails(j.fields, depth, k); }
      Stops(before, total, now, cost, FieldsCost(j, todo - {k}), after, ToWire(j, depth, false), fails, limited);
    }
  }

  lemma FieldFails(fields: map<Bytes, Js>, depth: nat, k: Bytes)
    requires k in fields && !FieldOK(k, fields[k], depth + 1)
    ensures ToWire(JObject(fields), depth, false).None?
  {
    if |fields| <= MAX_ENTRIES && depth <= MAX_DEPTH { assert !forall n | n in fields :: FieldOK(n, fields[n], depth + 1); }
  }

  lemma AllFieldsDone(fields: map<Bytes, Js>, depth: nat, out: map<Bytes, Wire>)
    requires depth <= MAX_DEPTH && |fields| <= MAX_ENTRIES && FieldsDone(fields, depth + 1, {}, out)
    ensures ToWire(JObject(fields), depth, false) == Some(WObj(out))
  {
    assert out == EncodedFields(fields, depth + 1);
  }

  class Encoder {
    var nodes: nat
    var bytes: nat

    constructor ()
      ensures Spent() == NOTHING
    {
      nodes, bytes := 0, 0;
    }

    function Spent(): Spend
      reads this
    {
      Spend(nodes, bytes)
    }

    /** A charge past the limit is refused and not added. */
    method AddBytes(n: nat) returns (ok: bool)
      requires bytes <= MAX_BYTES
      modifies this`bytes
      ensures ok <==> n <= MAX_BYTES - old(bytes)
      ensures bytes == if ok then old(bytes) + n else old(bytes)
    {
      if n > MAX_BYTES - bytes { return false; }
      bytes := bytes + n;
      ok := true;
    }

    /** Encode a value: the result is ToWire's exactly when the value's cost fits what is left of the budgets,
        and then all of its cost is charged. */
    method EncodeAt(j: Js, depth: nat, root: bool) returns (r: Option<Wire>, limited: bool)
      requires bytes <= MAX_BYTES
      modifies this
      ensures bytes <= MAX_BYTES
      ensures Encoded(old(Spent()), EncodeCost(j), Spent(), ToWire(j, depth, root), r, limited)
      decreases j, 1
    {
      limited := false;
      if depth > MAX_DEPTH { return None, false; }
      nodes := nodes + 1;
      if nodes > MAX_NODES { return None, true; }
      match j {
        case JArray(items) =>
          RootIsIrrelevant(j, depth, root);
          r, limited := EncodeArray(j, depth);
        case JObject(fields) =>
          RootIsIrrelevant(j, depth, root);
          r, limited := EncodeObject(j, depth);
        case JStr(s) => r, limited := Text(|s|, WStr(s));
        case JBigInt(v) =>
          if !(-TWO63 <= v < TWO63) { return None, false; }
          var little := WriteInt64(v);
          var text := Base64.Encode(little[..]);
          Base64.EncodedLength(little[..]);
          r, limited := Text(|text|, WObj(map[INTEGER_TAG := WStr(text)]));
        case JBuffer(b) =>
          var text := Base64.Encode(b);
          Base64.EncodedLength(b);
          r, limited := Text(|text|, WObj(map[BYTES_TAG := WStr(text)]));
        case JNull => r := Some(WNull);
        case JUndefined => r := if root then Some(WNull) else None;
        case JBool(b) => r := Some(WBool(b));
        case JNum(d) => r := Some(WNum(d));
        case _ => r := None;
      }
    }

    /** A value that is charged for its text only. */
    method Text(size: nat, w: Wire) returns (r: Option<Wire>, limited: bool)
      requires nodes <= MAX_NODES && bytes <= MAX_BYTES
      modifies this`bytes
      ensures bytes <= MAX_BYTES
      ensures Encoded(old(Spent()), Spend(0, size), Spent(), Some(w), r, limited)
    {
      var ok := AddBytes(size);
      r, limited := if ok then Some(w) else None, !ok;
    }

    method EncodeArray(j: Js, depth: nat) returns (r: Option<Wire>, limited: bool)
      requires nodes <= MAX_NODES && bytes <= MAX_BYTES && j.JArray? && depth <= MAX_DEPTH
      modifies this
      ensures bytes <= MAX_BYTES
      ensures Encoded(old(Spent()), ItemsCost(j, 0), Spent(), ToWire(j, depth, false), r, limited)
      decreases j, 0
    {
      if |j.items| > MAX_ENTRIES { return None, false; }
      var out: seq<Wire> := [];
      for i := 0 to |j.items|
        invariant bytes <= MAX_BYTES && ItemsDone(j.items, depth + 1, i, out)
        invariant ToCome(old(Spent()), ItemsCost(j, 0), Spent(), ItemsCost(j, i))
      {
        ghost var now := Spent();
        var one;
        one, limited := EncodeAt(j.items[i], depth + 1, false);
        ItemStep(j, depth, i, out, old(Spent()), now, Spent(), one, limited);
        if one.None? { return None, limited; }
        out := out + [one.value];
      }
      AllItemsDone(j, depth, out);
      return Some(WArr(out)), false;
    }

    method EncodeObject(j: Js, depth: nat) returns (r: Option<Wire>, limited: bool)
      requires nodes <= MAX_NODES && bytes <= MAX_BYTES && j.JObject? && depth <= MAX_DEPTH
      modifies this
      ensures bytes <= MAX_BYTES
      ensures Encoded(old(Spent()), FieldsCost(j, j.fields.Keys), Spent(), ToWire(j, depth, false), r, limited)
      decreases j, 0
    {
      var fields := j.fields;
      if |fields| > MAX_ENTRIES { return None, false; }
      var out: map<Bytes, Wire> := map[];
      var todo := fields.Keys;
      while todo != {}
        invariant todo <= fields.Keys && bytes <= MAX_BYTES && FieldsDone(fields, depth + 1, todo, out)
        invariant ToCome(old(Spent()), FieldsCost(j, fields.Keys), Spent(), FieldsCost(j, todo))
        decreases |todo|
      {
        var k :| k in todo;
        ghost var now := Spent();
        var one;
        one, limited := EncodeProperty(k, fields[k], depth + 1);
        FieldStep(j, depth, todo, out, k, old(Spent()), now, Spent(), one, limited);
        if one.None? { return None, limited; }
        if one.value.Some? { out := out[k := one.value.value]; }
        todo := todo - {k};
      }
      AllFieldsDone(fields, depth, out);
      return Some(WObj(out)), false;
    }

    method EncodeProperty(k: Bytes, j: Js, depth: nat) returns (r: Option<Option<Wire>>, limited: bool)
      requires nodes <= MAX_NODES && bytes <= MAX_BYTES
      modifies this
      ensures bytes <= MAX_BYTES
      ensures PropertyEncoded(old(Spent()), k, j, depth, Spent(), r, limited)
      decreases j, 2
    {
      if !SafeWireKey(k) { return None, false; }
      var ok := AddBytes(|k|);
      if !ok { return None, true; }
      if j.JUndefined? { return Some(None), false; }
      var one;
      one, limited := EncodeAt(j, depth, false);
      r := if one.Some? then Some(one) else None;
    }
  }

  lemma EncodedAlone(cost: Spend, after: Spend, wanted: Option<Wire>, r: Option<Wire>, limited: bool)
    requires Encoded(NOTHING, cost, after, wanted, r, limited)
    ensures r == if cost.Fits() then wanted else None
    ensures limited ==> !cost.Fits()
  {
  }

  /** Encode a value on fresh budgets. */
  method EncodeWire(j: Js) returns (r: Option<Wire>, limited: bool)
    ensures r == if EncodeCost(j).Fits() then ToWire(j, 0, true) else None
    ensures limited ==> !EncodeCost(j).Fits()
  {
    var e := new Encoder();
    r, limited := e.EncodeAt(j, 0, true);
    EncodedAlone(EncodeCost(j), e.Spent(), ToWire(j, 0, true), r, limited);
  }
}
