/** Normalization of wire values: validation with defaults, unions and recursive types. */
module Normalize {
  import opened ByteStrings
  import opened WireValues
  import opened Costs

  const MAX_ITEMS: nat := 1024
  const MAX_BRANCHES: nat := 64

  /** Checks that live elsewhere: authentic ids of a table, storage ids, and identifiers. */
  datatype Checks = Checks(id: (Bytes, Bytes) -> bool, storageId: Bytes -> bool, identifier: Bytes -> bool)

  type Definitions = map<Bytes, Validator>

  /** Absent is success without a value. */
  datatype Outcome = Fail | Absent | Present(value: Wire)

  function Lookup(doc: map<Bytes, Wire>, key: Bytes): Option<Wire> {
    if key in doc then Some(doc[key]) else None
  }

  /** The keys a record may declare: strings, safe literals, and unions of them. */
  predicate KeyWellFormed(k: KeyValidator, depth: nat)
    decreases k
  {
    depth <= MAX_DEPTH &&
    match k
    case KString => true
    case KLiteral(name) => SafeWireKey(name)
    case KUnion(options) => 0 < |options| <= MAX_BRANCHES && forall i | 0 <= i < |options| :: KeyWellFormed(options[i], depth + 1)
  }

  predicate KeyAccepted(k: KeyValidator, key: Bytes, depth: nat)
    decreases k
  {
    depth <= MAX_DEPTH &&
    match k
    case KString => true
    case KLiteral(name) => key == name
    case KUnion(options) =>
      0 < |options| <= MAX_BRANCHES && exists i | 0 <= i < |options| :: KeyAccepted(options[i], key, depth + 1)
  }

  /** The wire-value subset, to the depth limit. */
  predicate WireOK(w: Wire, depth: nat)
    decreases w
  {
    depth <= MAX_DEPTH &&
    match w
    case WArr(items) => |items| <= MAX_ITEMS && forall i | 0 <= i < |items| :: WireOK(items[i], depth + 1)
    case WObj(fields) =>
      |fields| <= MAX_ITEMS &&
      (Int64Bytes(w).Some? || BlobBytes(w).Some? || forall k | k in fields :: SafeWireKey(k) && WireOK(fields[k], depth + 1))
    case _ => true
  }

  // ----- what looking at a value charges

  /** The size a value is charged for: its own text, its keys, and the lengths of what is directly below. */
  ghost function ValueSize(w: Wire): nat {
    match w
    case WStr(s) => |s|
    case WArr(items) => |items| + 1
    case WObj(fields) => 1 + SumEntries(EntrySizes(fields)).bytes
    case _ => 1
  }

  ghost function EntrySizes(fields: map<Bytes, Wire>): map<Bytes, Spend> {
    map k | k in fields :: Spend(0, EntrySize(k, fields[k]))
  }

  function EntrySize(k: Bytes, w: Wire): nat {
    |k| +
    match w
    case WStr(s) => |s|
    case WArr(items) => |items|
    case WObj(fields) => |fields|
    case _ => 1
  }

  ghost function WireCost(w: Wire): Spend
    decreases w, 1
  {
    Spend(1, ValueSize(w)).Plus(CostBelow(w))
  }

  /** What the values below one are charged; nothing is looked at below a tagged integer or byte string. */
  ghost function CostBelow(w: Wire): Spend
    decreases w, 0
  {
    match w
    case WArr(items) => SumItems(seq(|items|, i requires 0 <= i < |items| => WireCost(items[i])))
    case WObj(fields) =>
      if Int64Bytes(w).Some? || BlobBytes(w).Some? then NOTHING else SumEntries(map k | k in fields :: WireCost(fields[k]))
    case _ => NOTHING
  }

  /** The wire-value check on its own, which has a budget of its own. */
  ghost predicate CanonicalWire(w: Wire) {
    var ok := WireOK(w, 0) && WireCost(w).Fits();
    ok
  }

  // ----- evaluation

  /** A document's keys against a shape: safe, known, and not too many. */
  predicate KeysOK(shape: map<Bytes, Validator>, doc: map<Bytes, Wire>) {
    var ok :=
      && |doc| <= MAX_ITEMS && (forall k | k in doc :: SafeWireKey(k) && k in shape)
      && forall k | k in shape :: SafeWireKey(k);
    ok
  }

  /** The result of a value under a validator, apart from the budgets. Every call goes one level deeper, so
      evaluation ends although refs may lead back to the same validator. */
  ghost function Norm(c: Checks, defs: Definitions, v: Validator, x: Option<Wire>, depth: nat): Outcome
    decreases 2 * (MAX_DEPTH + 3 - depth) + 1, 0
  {
    if depth > MAX_DEPTH then Fail
    else match v
      case VOptional(inner) => if x.None? then Absent else Norm(c, defs, inner, x, depth + 1)
      case VDefaulted(inner, default) => Norm(c, defs, inner, if x.None? then Some(default) else x, depth + 1)
      case VUnion(branches) => if 0 < |branches| <= MAX_BRANCHES then NormUnion(c, defs, branches, x, depth + 1) else Fail
      case _ => if x.None? then Fail else NormValue(c, defs, v, x.value, depth)
  }

  /** The first branch that accepts decides. */
  ghost function NormUnion(c: Checks, defs: Definitions, branches: seq<Validator>, x: Option<Wire>, depth: nat): Outcome
    requires depth <= MAX_DEPTH + 1
    decreases 2 * (MAX_DEPTH + 3 - depth) + 1, |branches| + 1
  {
    if branches == [] then Fail
    else
      var first := Norm(c, defs, branches[0], x, depth);
      if first != Fail then first else NormUnion(c, defs, branches[1..], x, depth)
  }

  /** A present value under a validator that is not optional, defaulted or a union. */
  ghost function NormValue(c: Checks, defs: Definitions, v: Validator, w: Wire, depth: nat): Outcome
    requires depth <= MAX_DEPTH
    decreases 2 * (MAX_DEPTH + 3 - depth), 0
  {
    match v
    case VArray(item) =>
      if w.WArr? && |w.items| <= MAX_ITEMS then
        (match NormItems(c, defs, item, w.items, depth + 1)
         case Some(items) => Present(WArr(items))
         case None => Fail)
      else Fail
    case VObject(shape) =>
      if w.WObj? && depth + 1 <= MAX_DEPTH && KeysOK(shape, w.fields) && FieldsAccepted(c, defs, shape, w.fields, depth + 2)
      then Present(WObj(NormFields(c, defs, shape, w.fields, depth + 2))) else Fail
    case VRecord(key, element) =>
      if KeyWellFormed(key, 0) && w.WObj? && |w.fields| <= MAX_ITEMS && RecordAccepted(c, defs, key, element, w.fields, depth + 1)
      then Present(WObj(NormEntries(c, defs, element, w.fields, depth + 1))) else Fail
    case VRecursive(name, body) =>
      if c.identifier(name) then Norm(c, defs[name := body], body, Some(w), depth + 1) else Fail
    case VRef(name) => if name in defs then Norm(c, defs, defs[name], Some(w), depth + 1) else Fail
    case _ => if ScalarOK(c, v, w, depth) then Present(w) else Fail
  }

  /** Validators that look at a value and hand it back. */
  ghost predicate ScalarOK(c: Checks, v: Validator, w: Wire, depth: nat) {
    match v
    case VAny => WireOK(w, depth + 1)
    case VBareObject => w.WObj? && WireOK(w, depth + 1)
    case VString => w.WStr?
    case VNumber => w.WNum?
    case VBoolean => w.WBool?
    case VNull => w.WNull?
    case VInt64 => Int64Bytes(w).Some?
    case VBytes => BlobBytes(w).Some?
    case VLiteral(value) => CanonicalWire(value) && Same(value, w)
    case VId(table) => c.identifier(table) && w.WStr? && c.id(w.text, table)
    case VImage => w.WStr? && c.storageId(w.text)
    case _ => false
  }

  ghost function NormItems(c: Checks, defs: Definitions, item: Validator, items: seq<Wire>, depth: nat): Option<seq<Wire>>
    requires depth <= MAX_DEPTH + 1
    decreases 2 * (MAX_DEPTH + 3 - depth) + 1, |items| + 1
  {
    if items == [] then Some([])
    else match Norm(c, defs, item, Some(items[0]), depth)
      case Present(first) =>
        (match NormItems(c, defs, item, items[1..], depth)
         case Some(rest) => Some([first] + rest)
         case None => None)
      case _ => None
  }

  ghost predicate FieldsAccepted(c: Checks, defs: Definitions, shape: map<Bytes, Validator>, doc: map<Bytes, Wire>, depth: nat)
    requires depth <= MAX_DEPTH + 1
    decreases 2 * (MAX_DEPTH + 3 - depth) + 1, 1
  {
    forall k | k in shape :: Norm(c, defs, shape[k], Lookup(doc, k), depth) != Fail
  }

  ghost function NormFields(c: Checks, defs: Definitions, shape: map<Bytes, Validator>, doc: map<Bytes, Wire>, depth: nat): map<Bytes, Wire>
    requires depth <= MAX_DEPTH + 1
    decreases 2 * (MAX_DEPTH + 3 - depth) + 1, 1
  {
    map k | k in shape && Norm(c, defs, shape[k], Lookup(doc, k), depth).Present? :: Norm(c, defs, shape[k], Lookup(doc, k), depth).value
  }

  ghost predicate RecordAccepted(c: Checks, defs: Definitions, key: KeyValidator, element: Validator, doc: map<Bytes, Wire>, depth: nat)
    requires depth <= MAX_DEPTH + 1
    decreases 2 * (MAX_DEPTH + 3 - depth) + 1, 2
  {
    forall k | k in doc :: EntryAccepted(c, defs, key, element, k, doc[k], depth)
  }

  ghost predicate EntryAccepted(c: Checks, defs: Definitions, key: KeyValidator, element: Validator, k: Bytes, w: Wire, depth: nat)
    requires depth <= MAX_DEPTH + 1
    decreases 2 * (MAX_DEPTH + 3 - depth) + 1, 1
  {
    KeyAccepted(key, k, depth) && SafeWireKey(k) && Norm(c, defs, element, Some(w), depth).Present?
  }

  ghost function NormEntries(c: Checks, defs: Definitions, element: Validator, doc: map<Bytes, Wire>, depth: nat): map<Bytes, Wire>
    requires depth <= MAX_DEPTH + 1
    decreases 2 * (MAX_DEPTH + 3 - depth) + 1, 2
  {
    map k | k in doc :: NormPresent(c, defs, element, doc[k], depth)
  }

  ghost function NormPresent(c: Checks, defs: Definitions, v: Validator, w: Wire, depth: nat): Wire
    requires depth <= MAX_DEPTH + 1
    decreases 2 * (MAX_DEPTH + 3 - depth) + 1, 1
  {
    var r := Norm(c, defs, v, Some(w), depth);
    if r.Present? then r.value else w
  }

  // ----- stability

  /** Shapes have at most as many fields as a value may have keys; descriptors are validated to this. */
  predicate WellShaped(v: Validator) {
    match v
    case VOptional(inner) => WellShaped(inner)
    case VDefaulted(inner, _) => WellShaped(inner)
    case VUnion(branches) => forall i | 0 <= i < |branches| :: WellShaped(branches[i])
    case VObject(shape) => |shape| <= MAX_ITEMS && forall k | k in shape :: WellShaped(shape[k])
    case VArray(item) => WellShaped(item)
    case VRecord(_, element) => WellShaped(element)
    case VRecursive(_, body) => WellShaped(body)
    case _ => true
  }

  predicate UnionFree(v: Validator) {
    match v
    case VOptional(inner) => UnionFree(inner)
    case VDefaulted(inner, _) => UnionFree(inner)
    case VUnion(_) => false
    case VObject(shape) => forall k | k in shape :: UnionFree(shape[k])
    case VArray(item) => UnionFree(item)
    case VRecord(_, element) => UnionFree(element)
    case VRecursive(_, body) => UnionFree(body)
    case _ => true
  }

  predicate WellShapedAll(defs: Definitions) { forall n | n in defs :: WellShaped(defs[n]) }

  predicate UnionFreeAll(defs: Definitions) { forall n | n in defs :: UnionFree(defs[n]) }

  lemma LeafStaysPresent(c: Checks, defs: Definitions, v: Validator, w: Wire, depth: nat)
    requires depth <= MAX_DEPTH && !v.VOptional? && !v.VDefaulted? && !v.VUnion? && !v.VRecursive? && !v.VRef?
    ensures Norm(c, defs, v, Some(w), depth) != Absent
  {
  }

  /** A present value never becomes absent. */
  lemma {:induction false} PresentStaysPresent(c: Checks, defs: Definitions, v: Validator, w: Wire, depth: nat)
    ensures Norm(c, defs, v, Some(w), depth) != Absent
    decreases 2 * (MAX_DEPTH + 3 - depth) + 1, 0
  {
    if depth <= MAX_DEPTH {
      match v
      case VOptional(inner) => PresentStaysPresent(c, defs, inner, w, depth + 1);
      case VDefaulted(inner, _) => PresentStaysPresent(c, defs, inner, w, depth + 1);
      case VUnion(branches) => UnionStaysPresent(c, defs, branches, w, depth + 1);
      case VRecursive(name, body) => PresentStaysPresent(c, defs[name := body], body, w, depth + 1);
      case VRef(name) => if name in defs { PresentStaysPresent(c, defs, defs[name], w, depth + 1); }
      case _ => LeafStaysPresent(c, defs, v, w, depth);
    }
  }

  lemma {:induction false} UnionStaysPresent(c: Checks, defs: Definitions, branches: seq<Validator>, w: Wire, depth: nat)
    requires depth <= MAX_DEPTH + 1
    ensures NormUnion(c, defs, branches, Some(w), depth) != Absent
    decreases 2 * (MAX_DEPTH + 3 - depth) + 1, |branches| + 1
  {
    if branches != [] {
      PresentStaysPresent(c, defs, branches[0], w, depth);
      UnionStaysPresent(c, defs, branches[1..], w, depth);
    }
  }

  /** A second evaluation accepts, and gives the same value back when there are no unions. */
  ghost predicate AcceptsAgain(c: Checks, defs: Definitions, v: Validator, y: Wire, depth: nat) {
    var again := Norm(c, defs, v, Some(y), depth);
    var ok := again.Present? && (UnionFree(v) && UnionFreeAll(defs) ==> again == Present(y));
    ok
  }

  /** Every normalized result is accepted again by the same validator in the same scope of definitions, and
      without unions it is a fixed point. */
  lemma {:induction false} NormalizedIsAcceptedAgain(c: Checks, defs: Definitions, v: Validator, x: Option<Wire>, depth: nat)
    requires WellShaped(v) && WellShapedAll(defs) && Norm(c, defs, v, x, depth).Present?
    ensures AcceptsAgain(c, defs, v, Norm(c, defs, v, x, depth).value, depth)
    decreases 2 * (MAX_DEPTH + 3 - depth) + 1, 0
  {
    match v
    case VOptional(inner) => NormalizedIsAcceptedAgain(c, defs, inner, x, depth + 1);
    case VDefaulted(inner, default) =>
      NormalizedIsAcceptedAgain(c, defs, inner, if x.None? then Some(default) else x, depth + 1);
    case VUnion(branches) => UnionAgain(c, defs, branches, x, depth + 1);
    case VArray(item) => ItemsAgain(c, defs, item, x.value.items, depth + 1);
    case VObject(shape) => ObjectAgain(c, defs, shape, x.value.fields, depth);
    case VRecord(key, element) => RecordAgain(c, defs, key, element, x.value.fields, depth);
    case VRecursive(name, body) => NormalizedIsAcceptedAgain(c, defs[name := body], body, x, depth + 1);
    case VRef(name) => NormalizedIsAcceptedAgain(c, defs, defs[name], x, depth + 1);
    case _ =>
  }

  lemma {:induction false} UnionAgain(c: Checks, defs: Definitions, branches: seq<Validator>, x: Option<Wire>, depth: nat)
    requires depth <= MAX_DEPTH + 1 && WellShapedAll(defs) && forall i | 0 <= i < |branches| :: WellShaped(branches[i])
    requires NormUnion(c, defs, branches, x, depth).Present?
    ensures NormUnion(c, defs, branches, Some(NormUnion(c, defs, branches, x, depth).value), depth).Present?
    decreases 2 * (MAX_DEPTH + 3 - depth) + 1, |branches| + 1
  {
    var y := NormUnion(c, defs, branches, x, depth).value;
    if Norm(c, defs, branches[0], x, depth) != Fail {
      NormalizedIsAcceptedAgain(c, defs, branches[0], x, depth);
    } else {
      PresentStaysPresent(c, defs, branches[0], y, depth);
      UnionAgain(c, defs, branches[1..], x, depth);
    }
  }

  lemma {:induction false} ItemsAgain(c: Checks, defs: Definitions, item: Validator, items: seq<Wire>, depth: nat)
    requires depth <= MAX_DEPTH + 1 && WellShaped(item) && WellShapedAll(defs)
    requires NormItems(c, defs, item, items, depth).Some?
    ensures var ys := NormItems(c, defs, item, items, depth).value;
      && |ys| == |items| && NormItems(c, defs, item, ys, depth).Some?
      && (UnionFree(item) && UnionFreeAll(defs) ==> NormItems(c, defs, item, ys, depth) == Some(ys))
    decreases 2 * (MAX_DEPTH + 3 - depth) + 1, |items| + 1
  {
    if items != [] {
      var ys := NormItems(c, defs, item, items, depth).value;
      NormalizedIsAcceptedAgain(c, defs, item, Some(items[0]), depth);
      ItemsAgain(c, defs, item, items[1..], depth);
      assert ys[1..] == NormItems(c, defs, item, items[1..], depth).value;
      assert ys == [ys[0]] + ys[1..];
    }
  }

  lemma {:induction false} SubsetSize<T>(a: set<T>, b: set<T>)
    requires a <= b
    ensures |a| <= |b|
    decreases |a|
  {
    if a != {} {
      var x :| x in a;
      SubsetSize(a - {x}, b - {x});
    }
  }

  /** One field of a shape, the second time round. */
  lemma FieldAgain(c: Checks, defs: Definitions, shape: map<Bytes, Validator>, doc: map<Bytes, Wire>, depth: nat, k: Bytes)
    requires depth <= MAX_DEPTH + 1 && k in shape && WellShaped(shape[k]) && WellShapedAll(defs)
    requires FieldsAccepted(c, defs, shape, doc, depth)
    ensures var ys := NormFields(c, defs, shape, doc, depth);
      var again := Norm(c, defs, shape[k], Lookup(ys, k), depth);
      && again != Fail && (k in ys <==> again.Present?)
      && (k in ys && UnionFree(shape[k]) && UnionFreeAll(defs) ==> again == Present(ys[k]))
    decreases 2 * (MAX_DEPTH + 3 - depth) + 1, 1
  {
    var first := Norm(c, defs, shape[k], Lookup(doc, k), depth);
    if first.Present? {
      NormalizedIsAcceptedAgain(c, defs, shape[k], Lookup(doc, k), depth);
    } else if k in doc {
      PresentStaysPresent(c, defs, shape[k], doc[k], depth);
    }
  }

  /** Fields that are accepted, and a fixed point when there are no unions. */
  ghost predicate FieldsStable(c: Checks, defs: Definitions, shape: map<Bytes, Validator>, ys: map<Bytes, Wire>, depth: nat)
    requires depth <= MAX_DEPTH + 1
  {
    var ok :=
      && ys.Keys <= shape.Keys && FieldsAccepted(c, defs, shape, ys, depth)
      && (UnionFree(VObject(shape)) && UnionFreeAll(defs) ==> NormFields(c, defs, shape, ys, depth) == ys);
    ok
  }

  lemma FieldsAgain(c: Checks, defs: Definitions, shape: map<Bytes, Validator>, doc: map<Bytes, Wire>, depth: nat)
    requires depth <= MAX_DEPTH + 1 && WellShapedAll(defs) && WellShaped(VObject(shape))
    requires FieldsAccepted(c, defs, shape, doc, depth)
    ensures FieldsStable(c, defs, shape, NormFields(c, defs, shape, doc, depth), depth)
    decreases 2 * (MAX_DEPTH + 3 - depth) + 1, 2
  {
    var ys := NormFields(c, defs, shape, doc, depth);
    forall k | k in shape
      ensures var again := Norm(c, defs, shape[k], Lookup(ys, k), depth);
        && again != Fail && (k in ys <==> again.Present?)
        && (k in ys && UnionFree(shape[k]) && UnionFreeAll(defs) ==> again == Present(ys[k]))
    {
      FieldAgain(c, defs, shape, doc, depth, k);
    }
  }

  lemma KeysAgain(shape: map<Bytes, Validator>, doc: map<Bytes, Wire>, ys: map<Bytes, Wire>)
    requires KeysOK(shape, doc) && WellShaped(VObject(shape)) && ys.Keys <= shape.Keys
    ensures KeysOK(shape, ys)
  {
    SubsetSize(ys.Keys, shape.Keys);
    assert |ys| == |ys.Keys| && |shape| == |shape.Keys|;
  }

  lemma ObjectAgain(c: Checks, defs: Definitions, shape: map<Bytes, Validator>, doc: map<Bytes, Wire>, depth: nat)
    requires depth + 1 <= MAX_DEPTH && WellShaped(VObject(shape)) && WellShapedAll(defs)
    requires KeysOK(shape, doc) && FieldsAccepted(c, defs, shape, doc, depth + 2)
    ensures AcceptsAgain(c, defs, VObject(shape), WObj(NormFields(c, defs, shape, doc, depth + 2)), depth)
    decreases 2 * (MAX_DEPTH + 3 - depth), 0
  {
    FieldsAgain(c, defs, shape, doc, depth + 2);
    ObjectAccepts(c, defs, shape, doc, NormFields(c, defs, shape, doc, depth + 2), depth);
  }

  lemma ObjectAccepts(c: Checks, defs: Definitions, shape: map<Bytes, Validator>, doc: map<Bytes, Wire>, ys: map<Bytes, Wire>, depth: nat)
    requires depth + 1 <= MAX_DEPTH && WellShaped(VObject(shape)) && KeysOK(shape, doc) && FieldsStable(c, defs, shape, ys, depth + 2)
    ensures AcceptsAgain(c, defs, VObject(shape), WObj(ys), depth)
  {
    KeysAgain(shape, doc, ys);
  }

  ghost predicate EntryStable(c: Checks, defs: Definitions, key: KeyValidator, element: Validator, k: Bytes, y: Wire, depth: nat)
    requires depth <= MAX_DEPTH + 1
  {
    var ok :=
      && EntryAccepted(c, defs, key, element, k, y, depth)
      && (UnionFree(element) && UnionFreeAll(defs) ==> NormPresent(c, defs, element, y, depth) == y);
    ok
  }

  lemma EntryAgain(c: Checks, defs: Definitions, key: KeyValidator, element: Validator, k: Bytes, w: Wire, depth: nat)
    requires depth <= MAX_DEPTH + 1 && WellShaped(element) && WellShapedAll(defs)
    requires EntryAccepted(c, defs, key, element, k, w, depth)
    ensures EntryStable(c, defs, key, element, k, NormPresent(c, defs, element, w, depth), depth)
    decreases 2 * (MAX_DEPTH + 3 - depth) + 1, 1
  {
    NormalizedIsAcceptedAgain(c, defs, element, Some(w), depth);
  }

  ghost predicate EntriesStable(c: Checks, defs: Definitions, key: KeyValidator, element: Validator, ys: map<Bytes, Wire>, depth: nat)
    requires depth <= MAX_DEPTH + 1
  {
    var ok :=
      && RecordAccepted(c, defs, key, element, ys, depth)
      && (UnionFree(element) && UnionFreeAll(defs) ==> NormEntries(c, defs, element, ys, depth) == ys);
    ok
  }

  lemma AcceptedEntries(c: Checks, defs: Definitions, key: KeyValidator, element: Validator, ys: map<Bytes, Wire>, depth: nat)
    requires depth <= MAX_DEPTH + 1 && forall k | k in ys :: EntryStable(c, defs, key, element, k, ys[k], depth)
    ensures RecordAccepted(c, defs, key, element, ys, depth)
  {
    forall k | k in ys ensures EntryAccepted(c, defs, key, element, k, ys[k], depth) {
      assert EntryStable(c, defs, key, element, k, ys[k], depth);
    }
  }

  lemma StableEntries(c: Checks, defs: Definitions, key: KeyValidator, element: Validator, ys: map<Bytes, Wire>, depth: nat)
    requires depth <= MAX_DEPTH + 1 && forall k | k in ys :: EntryStable(c, defs, key, element, k, ys[k], depth)
    ensures EntriesStable(c, defs, key, element, ys, depth)
  {
    AcceptedEntries(c, defs, key, element, ys, depth);
    if UnionFree(element) && UnionFreeAll(defs) { UnchangedEntries(c, defs, key, element, ys, depth); }
  }

  lemma UnchangedEntries(c: Checks, defs: Definitions, key: KeyValidator, element: Validator, ys: map<Bytes, Wire>, depth: nat)
    requires depth <= MAX_DEPTH + 1 && forall k | k in ys :: EntryStable(c, defs, key, element, k, ys[k], depth)
    requires UnionFree(element) && UnionFreeAll(defs)
    ensures NormEntries(c, defs, element, ys, depth) == ys
  {
    forall k | k in ys ensures NormPresent(c, defs, element, ys[k], depth) == ys[k] {
      assert EntryStable(c, defs, key, element, k, ys[k], depth);
    }
  }

  lemma EntriesAgain(c: Checks, defs: Definitions, key: KeyValidator, element: Validator, doc: map<Bytes, Wire>, depth: nat)
    requires depth <= MAX_DEPTH + 1 && WellShaped(element) && WellShapedAll(defs)
    requires RecordAccepted(c, defs, key, element, doc, depth)
    ensures EntriesStable(c, defs, key, element, NormEntries(c, defs, element, doc, depth), depth)
    decreases 2 * (MAX_DEPTH + 3 - depth) + 1, 2
  {
    var ys := NormEntries(c, defs, element, doc, depth);
    forall k | k in doc ensures EntryStable(c, defs, key, element, k, ys[k], depth) {
      assert EntryAccepted(c, defs, key, element, k, doc[k], depth);
      EntryAgain(c, defs, key, element, k, doc[k], depth);
    }
    StableEntries(c, defs, key, element, ys, depth);
  }

  lemma RecordAgain(c: Checks, defs: Definitions, key: KeyValidator, element: Validator, doc: map<Bytes, Wire>, depth: nat)
    requires depth <= MAX_DEPTH && WellShaped(element) && WellShapedAll(defs)
    requires NormValue(c, defs, VRecord(key, element), WObj(doc), depth).Present?
    ensures AcceptsAgain(c, defs, VRecord(key, element), NormValue(c, defs, VRecord(key, element), WObj(doc), depth).value, depth)
    decreases 2 * (MAX_DEPTH + 3 - depth), 0
  {
    EntriesAgain(c, defs, key, element, doc, depth + 1);
    var ys := NormEntries(c, defs, element, doc, depth + 1);
    assert ys.Keys == doc.Keys && |ys| == |ys.Keys| && |doc| == |doc.Keys|;
    assert NormValue(c, defs, VRecord(key, element), WObj(ys), depth) == Present(WObj(NormEntries(c, defs, element, ys, depth + 1)));
  }
}
