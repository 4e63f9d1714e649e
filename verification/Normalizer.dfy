/** The evaluator itself: budgets and the scope of definitions are fields it changes and restores. */
module Normalizer {
  import opened ByteStrings
  import opened WireValues
  import opened Costs
  import opened Normalize
  import opened NormalizeCosts

  /** Validators that look at no more than the value itself. */
  predicate PlainOK(c: Checks, v: Validator, w: Wire) {
    match v
    case VString => w.WStr?
    case VNumber => w.WNum?
    case VBoolean => w.WBool?
    case VNull => w.WNull?
    case VInt64 => Int64Bytes(w).Some?
    case VBytes => BlobBytes(w).Some?
    case VId(table) => c.identifier(table) && w.WStr? && c.id(w.text, table)
    case VImage => w.WStr? && c.storageId(w.text)
    case _ => false
  }

  predicate Compound(v: Validator) {
    v.VOptional? || v.VDefaulted? || v.VUnion? || v.VArray? || v.VObject? || v.VRecord? || v.VRecursive? || v.VRef?
  }

  ghost predicate OptionsDone(key: KeyValidator, i: nat, k: Bytes, depth: nat, before: Spend, now: Spend) {
    var ok :=
      && key.KUnion? && i <= |key.options| && now.Fits()
      && now.Plus(OptionsCost(key, i, k, depth)) == before.Plus(OptionsCost(key, 0, k, depth))
      && forall j | 0 <= j < i :: !KeyAccepted(key.options[j], k, depth);
    ok
  }

  predicate AnyAccepts(options: seq<KeyValidator>, k: Bytes, depth: nat) {
    var ok := exists i | 0 <= i < |options| :: KeyAccepted(options[i], k, depth);
    ok
  }

  lemma OptionCharge(before: Spend, total: Spend, now: Spend, cost: Spend, next: Spend, used: Spend, wanted: bool, accepted: bool, within: bool)
    requires now.Plus(cost.Plus(if wanted then NOTHING else next)) == before.Plus(total) && (within <==> now.Plus(used).Fits())
    requires KeyChecked(NOTHING, cost, used, wanted, accepted)
    ensures now.Plus(used).AtMost(before.Plus(total))
    ensures within ==> accepted == wanted && now.Plus(used).Plus(if wanted then NOTHING else next) == before.Plus(total)
  {
  }

  lemma OptionStep(key: KeyValidator, i: nat, k: Bytes, depth: nat, before: Spend, now: Spend, used: Spend, accepted: bool, within: bool)
    requires key.KUnion? && i < |key.options| && OptionsDone(key, i, k, depth, before, now) && (within <==> now.Plus(used).Fits())
    requires KeyChecked(NOTHING, KeyCost(key.options[i], k, depth), used, KeyAccepted(key.options[i], k, depth), accepted)
    ensures within && !accepted ==> OptionsDone(key, i + 1, k, depth, before, now.Plus(used))
    ensures accepted || !within ==>
      KeyChecked(before, OptionsCost(key, 0, k, depth), now.Plus(used), AnyAccepts(key.options, k, depth), accepted && within)
  {
    OptionCharge(before, OptionsCost(key, 0, k, depth), now, KeyCost(key.options[i], k, depth), OptionsCost(key, i + 1, k, depth),
                 used, KeyAccepted(key.options[i], k, depth), accepted, within);
  }

  /** The loop over the directly contained values. */
  method SizeOf(w: Wire) returns (n: nat)
    ensures n == ValueSize(w)
  {
    match w {
      case WStr(s) => n := |s|;
      case WArr(items) => n := |items| + 1;
      case WObj(fields) =>
        n := 1;
        var todo := fields.Keys;
        ghost var rest := EntrySizes(fields);
        while todo != {}
          invariant rest.Keys == todo <= fields.Keys && forall k | k in rest :: rest[k] == Spend(0, EntrySize(k, fields[k]))
          invariant n + SumEntries(rest).bytes == ValueSize(w)
          decreases |todo|
        {
          var k :| k in todo;
          SumWithout(rest, k);
          n := n + |k|;
          match fields[k] {
            case WStr(s) => n := n + |s|;
            case WArr(items) => n := n + |items|;
            case WObj(inner) => n := n + |inner|;
            case _ => n := n + 1;
          }
          todo, rest := todo - {k}, rest - {k};
        }
      case _ => n := 1;
    }
  }

  /** A field name: printable, not too long, without a leading dollar, and none of three reserved names. */
  method CheckWireKey(k: Bytes) returns (ok: bool)
    ensures ok <==> SafeWireKey(k)
  {
    if k == [] || |k| > 1024 || k[0] == DOLLAR || k in {PROTO, CONSTRUCTOR, PROTOTYPE} { return false; }
    for i := 0 to |k|
      invariant forall j | 0 <= j < i :: 0x20 <= k[j] <= 0x7e
    {
      if k[i] < 0x20 || k[i] > 0x7e { return false; }
    }
    ok := true;
  }

  /** A record's key descriptor: strings, safe literals, and unions of them. */
  method CheckRecordKey(key: KeyValidator, depth: nat) returns (ok: bool)
    ensures ok <==> KeyWellFormed(key, depth)
    decreases key
  {
    if depth > MAX_DEPTH { return false; }
    match key {
      case KString => ok := true;
      case KLiteral(name) => ok := CheckWireKey(name);
      case KUnion(options) =>
        if options == [] || |options| > MAX_BRANCHES { return false; }
        for i := 0 to |options|
          invariant forall j | 0 <= j < i :: KeyWellFormed(options[j], depth + 1)
        {
          ok := CheckRecordKey(options[i], depth + 1);
          if !ok { return; }
        }
        ok := true;
    }
  }

  /** A document's keys are safe and known. */
  method CheckKnown(shape: map<Bytes, Validator>, doc: map<Bytes, Wire>) returns (ok: bool)
    ensures ok <==> DocKeysOK(shape, doc)
  {
    var todo := doc.Keys;
    while todo != {}
      invariant todo <= doc.Keys && forall k | k in doc && k !in todo :: SafeWireKey(k) && k in shape
      decreases |todo|
    {
      var k :| k in todo;
      ok := CheckWireKey(k);
      if !ok || k !in shape { return false; }
      todo := todo - {k};
    }
    ok := true;
  }

  class Evaluator {
    const c: Checks
    var nodes: nat
    var bytes: nat
    var definitions: Definitions

    constructor (c: Checks, definitions: Definitions)
      ensures this.c == c && Spent() == NOTHING && this.definitions == definitions
    {
      this.c, nodes, bytes, this.definitions := c, 0, 0, definitions;
    }

    function Spent(): Spend
      reads this`nodes, this`bytes
    {
      Spend(nodes, bytes)
    }

    /** A charge is added even when it goes past a limit. */
    method Budget(amount: nat) returns (ok: bool)
      modifies this`nodes, this`bytes
      ensures Spent() == old(Spent()).Plus(Spend(1, amount)) && (ok <==> Spent().Fits())
    {
      nodes := nodes + 1;
      bytes := bytes + amount;
      ok := nodes <= MAX_NODES && bytes <= MAX_BYTES;
    }

    /** Take over what a candidate evaluation used. */
    method Absorb(used: Spend) returns (ok: bool)
      modifies this`nodes, this`bytes
      ensures Spent() == old(Spent()).Plus(used) && (ok <==> Spent().Fits())
    {
      nodes := nodes + used.count;
      bytes := bytes + used.bytes;
      ok := nodes <= MAX_NODES && bytes <= MAX_BYTES;
    }

    /** The wire-value check of a value that is charged. */
    method CheckWire(w: Wire, depth: nat) returns (ok: bool)
      requires Spent().Fits()
      modifies this`nodes, this`bytes
      ensures Checked(old(Spent()), WireCost(w), Spent(), WireOK(w, depth), ok)
      decreases w, 1
    {
      if depth > MAX_DEPTH { return false; }
      var size := SizeOf(w);
      var paid := Budget(size);
      if paid { ok := CheckBelow(w, depth); } else { ok := false; }
      FirstCheck(old(Spent()), Spend(1, size), CostBelow(w), Spent(), WireOK(w, depth), ok);
    }

    /** The wire-value check of a value that has been charged already. */
    method CheckBelow(w: Wire, depth: nat) returns (ok: bool)
      requires Spent().Fits()
      modifies this`nodes, this`bytes
      ensures Checked(old(Spent()), CostBelow(w), Spent(), WireOK(w, depth), ok)
      decreases w, 0
    {
      if depth > MAX_DEPTH { return false; }
      match w {
        case WArr(items) => ok := CheckItems(w, depth);
        case WObj(fields) =>
          if |fields| > MAX_ITEMS { return false; }
          if Int64Bytes(w).Some? || BlobBytes(w).Some? { return true; }
          ok := CheckFields(w, depth);
        case _ => ok := true;
      }
    }

    method CheckItems(w: Wire, depth: nat) returns (ok: bool)
      requires w.WArr? && depth <= MAX_DEPTH && Spent().Fits()
      modifies this`nodes, this`bytes
      ensures Checked(old(Spent()), CostBelow(w), Spent(), WireOK(w, depth), ok)
      decreases w, 0, 0
    {
      if |w.items| > MAX_ITEMS { return false; }
      NoWireItems(w, depth + 1, Spent());
      for i := 0 to |w.items|
        invariant Spent().Fits() && WireItemsLoop(w, depth + 1, i, old(Spent()), Spent())
      {
        ghost var now := Spent();
        var good := CheckWire(w.items[i], depth + 1);
        WireItemStep(w, depth, i, old(Spent()), now, Spent(), good);
        if !good { return false; }
      }
      ok := true;
    }

    method CheckFields(w: Wire, depth: nat) returns (ok: bool)
      requires w.WObj? && depth <= MAX_DEPTH && |w.fields| <= MAX_ITEMS && !Int64Bytes(w).Some? && !BlobBytes(w).Some? && Spent().Fits()
      modifies this`nodes, this`bytes
      ensures Checked(old(Spent()), CostBelow(w), Spent(), WireOK(w, depth), ok)
      decreases w, 0, 0
    {
      var todo := w.fields.Keys;
      NoWireFields(w, depth + 1, Spent());
      while todo != {}
        invariant todo <= w.fields.Keys && Spent().Fits() && WireFieldsLoop(w, depth + 1, todo, old(Spent()), Spent())
        decreases |todo|
      {
        var k :| k in todo;
        ghost var now := Spent();
        var good := CheckWireKey(k);
        if good { good := CheckWire(w.fields[k], depth + 1); }
        WireFieldStep(w, depth, todo, k, old(Spent()), now, Spent(), good);
        if !good { return false; }
        todo := todo - {k};
      }
      AllWireFields(w, depth, old(Spent()), Spent());
      ok := true;
    }

    /** Evaluate a value. The scope of definitions comes back as it was; within the budgets the result is
        Norm's, and past them evaluation fails. It charges at most the cost, and all of it when it succeeds
        without unions. */
    method Normalize(v: Validator, x: Option<Wire>, depth: nat) returns (r: Outcome)
      requires Spent().Fits()
      modifies this
      ensures definitions == old(definitions)
      ensures Normalized(c, definitions, v, x, depth, old(Spent()), Spent(), r)
      decreases 2 * (MAX_DEPTH + 3 - depth) + 1, 0
    {
      if depth > MAX_DEPTH {
        TooDeep(c, definitions, v, x, depth, Spent());
        return Fail;
      }
      match v {
        case VOptional(inner) =>
          if x.None? { r := Absent; } else { r := Normalize(inner, x, depth + 1); }
          Unwraps(c, definitions, v, x, depth, old(Spent()), Spent(), r);
        case VDefaulted(inner, default) =>
          r := Normalize(inner, if x.None? then Some(default) else x, depth + 1);
          Unwraps(c, definitions, v, x, depth, old(Spent()), Spent(), r);
        case VUnion(branches) => r := AnyBranch(v, x, depth);
        case _ => r := Required(v, x, depth);
      }
    }

    method AnyBranch(v: Validator, x: Option<Wire>, depth: nat) returns (r: Outcome)
      requires Spent().Fits() && depth <= MAX_DEPTH && v.VUnion?
      modifies this
      ensures definitions == old(definitions)
      ensures Normalized(c, definitions, v, x, depth, old(Spent()), Spent(), r)
      decreases 2 * (MAX_DEPTH + 3 - depth), 3
    {
      if !(0 < |v.branches| <= MAX_BRANCHES) { return Fail; }
      r := Union(v.branches, x, depth + 1);
    }

    /** Any other validator needs a value. */
    method Required(v: Validator, x: Option<Wire>, depth: nat) returns (r: Outcome)
      requires Spent().Fits() && depth <= MAX_DEPTH && !v.VOptional? && !v.VDefaulted? && !v.VUnion?
      modifies this
      ensures definitions == old(definitions)
      ensures Normalized(c, definitions, v, x, depth, old(Spent()), Spent(), r)
      decreases 2 * (MAX_DEPTH + 3 - depth), 3
    {
      if x.None? { return Fail; }
      r := Charged(v, x.value, depth);
    }

    /** A present value is charged before it is looked at. */
    method Charged(v: Validator, w: Wire, depth: nat) returns (r: Outcome)
      requires Spent().Fits() && depth <= MAX_DEPTH && !v.VOptional? && !v.VDefaulted? && !v.VUnion?
      modifies this
      ensures definitions == old(definitions)
      ensures Evaluated(old(Spent()), Spend(1, ValueSize(w)).Plus(ValueCost(c, definitions, v, w, depth)), Spent(),
                        NormValue(c, definitions, v, w, depth), r, UnionFreeIn(v, definitions))
      decreases 2 * (MAX_DEPTH + 3 - depth), 2
    {
      var size := SizeOf(w);
      var paid := Budget(size);
      if paid { r := Value(v, w, depth); } else { r := Fail; }
      FirstCharge(old(Spent()), Spend(1, size), ValueCost(c, definitions, v, w, depth), Spent(),
                  NormValue(c, definitions, v, w, depth), r, UnionFreeIn(v, definitions));
    }

    /** Each branch runs on its own budgets, which are then added up. */
    method Union(branches: seq<Validator>, x: Option<Wire>, depth: nat) returns (r: Outcome)
      requires Spent().Fits() && depth <= MAX_DEPTH + 1
      modifies this
      ensures definitions == old(definitions)
      ensures Evaluated(old(Spent()), UnionCost(c, definitions, branches, x, depth), Spent(),
                        NormUnion(c, definitions, branches, x, depth), r, false)
      decreases 2 * (MAX_DEPTH + 3 - depth) + 1, 1
    {
      ghost var all, total := NormUnion(c, definitions, branches, x, depth), UnionCost(c, definitions, branches, x, depth);
      assert branches[0..] == branches;
      for i := 0 to |branches|
        invariant definitions == old(definitions) && all == NormUnion(c, definitions, branches[i..], x, depth)
        invariant Progress(old(Spent()), total, Spent(), UnionCost(c, definitions, branches[i..], x, depth), false)
      {
        var candidate := new Evaluator(c, definitions);
        r := candidate.Normalize(branches[i], x, depth);
        UnionUnfolds(c, definitions, branches, x, depth, i);
        var ok := Absorb(candidate.Spent());
        if !ok { return Fail; }
        if r != Fail { return; }
      }
      r := Fail;
    }

    method Value(v: Validator, w: Wire, depth: nat) returns (r: Outcome)
      requires Spent().Fits() && depth <= MAX_DEPTH && !v.VOptional? && !v.VDefaulted? && !v.VUnion?
      modifies this
      ensures definitions == old(definitions)
      ensures Evaluated(old(Spent()), ValueCost(c, definitions, v, w, depth), Spent(), NormValue(c, definitions, v, w, depth), r,
                        UnionFreeIn(v, definitions))
      decreases 2 * (MAX_DEPTH + 3 - depth), 1
    {
      if v.VArray? {
        r := Array(v, w, depth);
      } else if v.VObject? {
        r := Shaped(v, w, depth);
      } else if v.VRecord? {
        r := Keyed(v, w, depth);
      } else if v.VRecursive? {
        r := Recursive(v, w, depth);
      } else if v.VRef? {
        r := Reference(v, w, depth);
      } else {
        r := Scalar(v, w, depth);
      }
    }

    method Array(v: Validator, w: Wire, depth: nat) returns (r: Outcome)
      requires Spent().Fits() && depth <= MAX_DEPTH && v.VArray?
      modifies this
      ensures definitions == old(definitions)
      ensures Evaluated(old(Spent()), ValueCost(c, definitions, v, w, depth), Spent(), NormValue(c, definitions, v, w, depth), r,
                        UnionFreeIn(v, definitions))
      decreases 2 * (MAX_DEPTH + 3 - depth), 0
    {
      if !w.WArr? || |w.items| > MAX_ITEMS { return Fail; }
      r := Items(v.item, w.items, depth + 1);
    }

    method Shaped(v: Validator, w: Wire, depth: nat) returns (r: Outcome)
      requires Spent().Fits() && depth <= MAX_DEPTH && v.VObject?
      modifies this
      ensures definitions == old(definitions)
      ensures Evaluated(old(Spent()), ValueCost(c, definitions, v, w, depth), Spent(), NormValue(c, definitions, v, w, depth), r,
                        UnionFreeIn(v, definitions))
      decreases 2 * (MAX_DEPTH + 3 - depth), 0
    {
      if !w.WObj? { return Fail; }
      r := Object(v.shape, w.fields, depth + 1);
    }

    method Keyed(v: Validator, w: Wire, depth: nat) returns (r: Outcome)
      requires Spent().Fits() && depth <= MAX_DEPTH && v.VRecord?
      modifies this
      ensures definitions == old(definitions)
      ensures Evaluated(old(Spent()), ValueCost(c, definitions, v, w, depth), Spent(), NormValue(c, definitions, v, w, depth), r,
                        UnionFreeIn(v, definitions))
      decreases 2 * (MAX_DEPTH + 3 - depth), 0
    {
      var described := CheckRecordKey(v.key, 0);
      if !described || !w.WObj? || |w.fields| > MAX_ITEMS { return Fail; }
      r := Record(v.key, v.element, w.fields, depth + 1);
    }

    method Reference(v: Validator, w: Wire, depth: nat) returns (r: Outcome)
      requires Spent().Fits() && depth <= MAX_DEPTH && v.VRef?
      modifies this
      ensures definitions == old(definitions)
      ensures Evaluated(old(Spent()), ValueCost(c, definitions, v, w, depth), Spent(), NormValue(c, definitions, v, w, depth), r,
                        UnionFreeIn(v, definitions))
      decreases 2 * (MAX_DEPTH + 3 - depth), 0
    {
      if v.name !in definitions { return Fail; }
      r := Normalize(definitions[v.name], Some(w), depth + 1);
    }

    /** Declare the name for the body, and take the declaration back. */
    method Recursive(v: Validator, w: Wire, depth: nat) returns (r: Outcome)
      requires Spent().Fits() && depth <= MAX_DEPTH && v.VRecursive?
      modifies this
      ensures definitions == old(definitions)
      ensures Evaluated(old(Spent()), ValueCost(c, definitions, v, w, depth), Spent(), NormValue(c, definitions, v, w, depth), r,
                        UnionFreeIn(v, definitions))
      decreases 2 * (MAX_DEPTH + 3 - depth), 0
    {
      var name := v.name;
      if !c.identifier(name) { return Fail; }
      var saved := definitions;
      definitions := definitions[name := v.body];
      r := Normalize(v.body, Some(w), depth + 1);
      definitions := if name in saved then definitions[name := saved[name]] else definitions - {name};
      assert definitions == saved;
    }

    method Scalar(v: Validator, w: Wire, depth: nat) returns (r: Outcome)
      requires Spent().Fits() && depth <= MAX_DEPTH && !Compound(v)
      modifies this`nodes, this`bytes
      ensures Evaluated(old(Spent()), ValueCost(c, definitions, v, w, depth), Spent(),
                        if ScalarOK(c, v, w, depth) then Present(w) else Fail, r, true)
    {
      var ok;
      if v.VAny? {
        ok := CheckBelow(w, depth + 1);
      } else if v.VBareObject? {
        if !w.WObj? { return Fail; }
        ok := CheckBelow(w, depth + 1);
      } else if v.VLiteral? {
        var canonical := IsCanonical(c, v.value);
        ok := canonical && Same(v.value, w);
      } else {
        ok := PlainOK(c, v, w);
      }
      r := if ok then Present(w) else Fail;
    }

    method Items(item: Validator, items: seq<Wire>, depth: nat) returns (r: Outcome)
      requires Spent().Fits() && depth <= MAX_DEPTH + 1
      modifies this
      ensures definitions == old(definitions)
      ensures Evaluated(old(Spent()), SumItems(ItemCosts(c, definitions, item, items, depth)), Spent(),
                        ItemsOutcome(c, definitions, item, items, depth), r, UnionFreeIn(item, definitions))
      decreases 2 * (MAX_DEPTH + 3 - depth) + 1, 1
    {
      var out: seq<Wire> := [];
      ghost var exact, costs := UnionFreeIn(item, definitions), ItemCosts(c, definitions, item, items, depth);
      NoItemsDone(c, definitions, item, items, depth, Spent(), exact);
      for i := 0 to |items|
        invariant definitions == old(definitions) && ItemsDone(c, definitions, item, items, depth, i, out)
        invariant Progress(old(Spent()), SumItems(costs), Spent(), SumItems(costs[i..]), exact)
      {
        ghost var now := Spent();
        var one := Normalize(item, Some(items[i]), depth);
        ItemStep(c, definitions, item, items, depth, i, out, old(Spent()), now, Spent(), one, exact);
        if !one.Present? { return Fail; }
        out := out + [one.value];
      }
      AllItemsDone(c, definitions, item, items, depth, out, old(Spent()), Spent(), exact);
      r := Present(WArr(out));
    }

    method Object(shape: map<Bytes, Validator>, doc: map<Bytes, Wire>, depth: nat) returns (r: Outcome)
      requires Spent().Fits() && depth <= MAX_DEPTH + 1
      modifies this
      ensures definitions == old(definitions)
      ensures ObjectEvaluated(c, definitions, shape, doc, depth, old(Spent()), Spent(), r)
      decreases 2 * (MAX_DEPTH + 3 - depth) + 1, 2
    {
      if depth > MAX_DEPTH || |doc| > MAX_ITEMS {
        ObjectRefused(c, definitions, shape, doc, depth, Spent());
        return Fail;
      }
      var size := SizeOf(WObj(doc));
      var paid := Budget(size);
      if paid { r := Known(shape, doc, depth + 1); } else { r := Fail; }
      ObjectCharged(c, definitions, shape, doc, depth, old(Spent()), Spent(), r);
    }

    /** No field is unknown. */
    method Known(shape: map<Bytes, Validator>, doc: map<Bytes, Wire>, depth: nat) returns (r: Outcome)
      requires Spent().Fits() && depth <= MAX_DEPTH + 1
      modifies this
      ensures definitions == old(definitions)
      ensures Evaluated(old(Spent()), KnownCost(c, definitions, shape, doc, depth), Spent(),
                        if DocKeysOK(shape, doc) then FieldsOutcome(c, definitions, shape, doc, depth) else Fail, r,
                        UnionFreeIn(VObject(shape), definitions))
      decreases 2 * (MAX_DEPTH + 3 - depth) + 1, 2
    {
      var known := CheckKnown(shape, doc);
      if !known { return Fail; }
      r := Fields(shape, doc, depth);
    }

    method Fields(shape: map<Bytes, Validator>, doc: map<Bytes, Wire>, depth: nat) returns (r: Outcome)
      requires Spent().Fits() && depth <= MAX_DEPTH + 1
      modifies this
      ensures definitions == old(definitions)
      ensures FieldsEvaluated(c, definitions, shape, doc, depth, old(Spent()), Spent(), r, UnionFreeIn(VObject(shape), definitions))
      decreases 2 * (MAX_DEPTH + 3 - depth) + 1, 1
    {
      var out: map<Bytes, Wire> := map[];
      var todo := shape.Keys;
      ghost var defs, exact := definitions, UnionFreeIn(VObject(shape), definitions);
      NoFieldsDone(c, defs, shape, doc, depth, Spent(), exact);
      while todo != {}
        invariant todo <= shape.Keys && definitions == defs && Spent().Fits()
        invariant FieldsLoop(c, defs, shape, doc, depth, todo, out, old(Spent()), Spent(), exact)
        decreases |todo|
      {
        var k :| k in todo;
        ghost var now := Spent();
        var one := Field(k, shape[k], Lookup(doc, k), depth);
        FieldStep(c, defs, shape, doc, depth, todo, out, k, old(Spent()), now, Spent(), one, exact);
        if one == Fail { return Fail; }
        if one.Present? { out := out[k := one.value]; }
        todo := todo - {k};
      }
      AllFieldsDone(c, defs, shape, doc, depth, out, old(Spent()), Spent(), exact);
      r := Present(WObj(out));
    }

    method Field(k: Bytes, v: Validator, x: Option<Wire>, depth: nat) returns (r: Outcome)
      requires Spent().Fits() && depth <= MAX_DEPTH + 1
      modifies this
      ensures definitions == old(definitions)
      ensures Evaluated(old(Spent()), Cost(c, definitions, v, x, depth), Spent(), FieldOutcome(c, definitions, k, v, x, depth), r,
                        UnionFreeIn(v, definitions))
      decreases 2 * (MAX_DEPTH + 3 - depth) + 1, 1, 0
    {
      var safe := CheckWireKey(k);
      if !safe { return Fail; }
      r := Normalize(v, x, depth);
    }

    method KeyOf(key: KeyValidator, k: Bytes, depth: nat) returns (ok: bool)
      requires Spent().Fits()
      modifies this`nodes, this`bytes
      ensures KeyChecked(old(Spent()), KeyCost(key, k, depth), Spent(), KeyAccepted(key, k, depth), ok)
      decreases key, 1
    {
      if depth > MAX_DEPTH { return false; }
      if key.KUnion? {
        if !(0 < |key.options| <= MAX_BRANCHES) { return false; }
        ok := Options(key, k, depth + 1);
      } else {
        ok := Budget(|k|);
        ok := ok && (key.KString? || key.name == k);
      }
    }

    method Options(key: KeyValidator, k: Bytes, depth: nat) returns (ok: bool)
      requires Spent().Fits() && key.KUnion?
      modifies this`nodes, this`bytes
      ensures KeyChecked(old(Spent()), OptionsCost(key, 0, k, depth), Spent(), AnyAccepts(key.options, k, depth), ok)
      decreases key, 0
    {
      for i := 0 to |key.options|
        invariant OptionsDone(key, i, k, depth, old(Spent()), Spent())
      {
        ghost var now := Spent();
        var accepted, used := Option(key.options[i], k, depth);
        var within := Absorb(used);
        OptionStep(key, i, k, depth, old(Spent()), now, used, accepted, within);
        ok := accepted && within;
        if ok || !within { return; }
      }
      ok := false;
    }

    /** An option runs on budgets of its own. */
    method Option(key: KeyValidator, k: Bytes, depth: nat) returns (ok: bool, used: Spend)
      ensures KeyChecked(NOTHING, KeyCost(key, k, depth), used, KeyAccepted(key, k, depth), ok)
      decreases key, 2
    {
      var candidate := new Evaluator(c, definitions);
      ok := candidate.KeyOf(key, k, depth);
      used := candidate.Spent();
    }

    method Record(key: KeyValidator, element: Validator, doc: map<Bytes, Wire>, depth: nat) returns (r: Outcome)
      requires Spent().Fits() && depth <= MAX_DEPTH + 1
      modifies this
      ensures definitions == old(definitions)
      ensures RecordEvaluated(c, definitions, key, element, doc, depth, old(Spent()), Spent(), r, UnionFreeIn(element, definitions))
      decreases 2 * (MAX_DEPTH + 3 - depth) + 1, 2
    {
      var out: map<Bytes, Wire> := map[];
      var todo := doc.Keys;
      ghost var defs, exact := definitions, UnionFreeIn(element, definitions);
      NoEntriesDone(c, defs, key, element, doc, depth, Spent(), exact);
      while todo != {}
        invariant todo <= doc.Keys && definitions == defs && Spent().Fits()
        invariant EntriesLoop(c, defs, key, element, doc, depth, todo, out, old(Spent()), Spent(), exact)
        decreases |todo|
      {
        var k :| k in todo;
        ghost var now := Spent();
        var one := Entry(key, element, k, doc[k], depth);
        EntryStep(c, defs, key, element, doc, depth, todo, out, k, old(Spent()), now, Spent(), one, exact);
        if !one.Present? { return Fail; }
        out := out[k := one.value];
        todo := todo - {k};
      }
      AllEntriesDone(c, defs, key, element, doc, depth, out, old(Spent()), Spent(), exact);
      r := Present(WObj(out));
    }

    method Entry(key: KeyValidator, element: Validator, k: Bytes, w: Wire, depth: nat) returns (r: Outcome)
      requires Spent().Fits() && depth <= MAX_DEPTH + 1
      modifies this
      ensures definitions == old(definitions)
      ensures Evaluated(old(Spent()), KeyCost(key, k, depth).Plus(Cost(c, definitions, element, Some(w), depth)), Spent(),
                        EntryOutcome(c, definitions, key, element, k, w, depth), r, UnionFreeIn(element, definitions))
      decreases 2 * (MAX_DEPTH + 3 - depth) + 1, 1
    {
      var good := KeyOf(key, k, depth);
      ghost var mid := Spent();
      var one := Fail;
      var safe := CheckWireKey(k);
      if good && safe { one := Normalize(element, Some(w), depth); }
      KeyThenValue(old(Spent()), KeyCost(key, k, depth), mid, Cost(c, definitions, element, Some(w), depth), Spent(),
                   KeyAccepted(key, k, depth), good, SafeWireKey(k), Norm(c, definitions, element, Some(w), depth), one,
                   UnionFreeIn(element, definitions));
      EntryMeans(c, definitions, key, element, k, w, depth);
      r := if one.Present? then one else Fail;
    }
  }

  /** The wire-value check on its own. */
  method IsCanonical(c: Checks, w: Wire) returns (ok: bool)
    ensures ok <==> CanonicalWire(w)
  {
    var n := new Evaluator(c, map[]);
    ok := n.CheckWire(w, 0);
    CanonicalChecked(w, n.Spent(), ok);
  }

  /** One value against a validator, on fresh budgets. */
  method NormalizeValue(c: Checks, v: Validator, w: Wire) returns (r: Option<Wire>)
    ensures Verdict(c, v, w, r)
  {
    var n := new Evaluator(c, map[]);
    var out := n.Normalize(v, Some(w), 0);
    Decided(c, v, w, n.Spent(), out);
    r := if out.Present? then Some(out.value) else None;
  }
}
