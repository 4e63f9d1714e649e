/** What evaluation charges, and how the evaluator's loops add it up. */
module NormalizeCosts {
  import opened ByteStrings
  import opened WireValues
  import opened Costs
  import opened Normalize

  // ----- the most that an evaluation charges

  /** The charge for a value under a validator: a node and the value's size each time a value is looked at. A
      validator that fails may be left earlier, at an item or a field that fails. */
  ghost function Cost(c: Checks, defs: Definitions, v: Validator, x: Option<Wire>, depth: nat): Spend
    decreases 2 * (MAX_DEPTH + 3 - depth) + 1, 0
  {
    if depth > MAX_DEPTH then NOTHING
    else match v
      case VOptional(inner) => if x.None? then NOTHING else Cost(c, defs, inner, x, depth + 1)
      case VDefaulted(inner, default) => Cost(c, defs, inner, if x.None? then Some(default) else x, depth + 1)
      case VUnion(branches) => if 0 < |branches| <= MAX_BRANCHES then UnionCost(c, defs, branches, x, depth + 1) else NOTHING
      case _ => if x.None? then NOTHING else Spend(1, ValueSize(x.value)).Plus(ValueCost(c, defs, v, x.value, depth))
  }

  /** Branches are charged up to the first that accepts. */
  ghost function UnionCost(c: Checks, defs: Definitions, branches: seq<Validator>, x: Option<Wire>, depth: nat): Spend
    requires depth <= MAX_DEPTH + 1
    decreases 2 * (MAX_DEPTH + 3 - depth) + 1, |branches| + 1
  {
    if branches == [] then NOTHING
    else
      Cost(c, defs, branches[0], x, depth).Plus(
        if Norm(c, defs, branches[0], x, depth) != Fail then NOTHING else UnionCost(c, defs, branches[1..], x, depth))
  }

  ghost function ValueCost(c: Checks, defs: Definitions, v: Validator, w: Wire, depth: nat): Spend
    requires depth <= MAX_DEPTH
    decreases 2 * (MAX_DEPTH + 3 - depth), 0
  {
    match v
    case VArray(item) => if w.WArr? && |w.items| <= MAX_ITEMS then SumItems(ItemCosts(c, defs, item, w.items, depth + 1)) else NOTHING
    case VObject(shape) => if w.WObj? then ObjectCost(c, defs, shape, w.fields, depth + 1) else NOTHING
    case VRecord(key, element) =>
      if KeyWellFormed(key, 0) && w.WObj? && |w.fields| <= MAX_ITEMS
      then SumEntries(EntryCosts(c, defs, key, element, w.fields, depth + 1, w.fields.Keys)) else NOTHING
    case VRecursive(name, body) => if c.identifier(name) then Cost(c, defs[name := body], body, Some(w), depth + 1) else NOTHING
    case VRef(name) => if name in defs then Cost(c, defs, defs[name], Some(w), depth + 1) else NOTHING
    case VAny => CostBelow(w)
    case VBareObject => if w.WObj? then CostBelow(w) else NOTHING
    case _ => NOTHING
  }

  ghost function ItemCosts(c: Checks, defs: Definitions, item: Validator, items: seq<Wire>, depth: nat): seq<Spend>
    requires depth <= MAX_DEPTH + 1
    decreases 2 * (MAX_DEPTH + 3 - depth) + 1, 1
  {
    seq(|items|, i requires 0 <= i < |items| => Cost(c, defs, item, Some(items[i]), depth))
  }

  predicate DocKeysOK(shape: map<Bytes, Validator>, doc: map<Bytes, Wire>) {
    forall k | k in doc :: SafeWireKey(k) && k in shape
  }

  ghost function ObjectCost(c: Checks, defs: Definitions, shape: map<Bytes, Validator>, doc: map<Bytes, Wire>, depth: nat): Spend
    requires depth <= MAX_DEPTH + 1
    decreases 2 * (MAX_DEPTH + 3 - depth) + 1, 1
  {
    if depth > MAX_DEPTH || |doc| > MAX_ITEMS then NOTHING
    else Spend(1, ValueSize(WObj(doc))).Plus(KnownCost(c, defs, shape, doc, depth + 1))
  }

  ghost function KnownCost(c: Checks, defs: Definitions, shape: map<Bytes, Validator>, doc: map<Bytes, Wire>, depth: nat): Spend
    requires depth <= MAX_DEPTH + 1
    decreases 2 * (MAX_DEPTH + 3 - depth) + 1, 2
  {
    if DocKeysOK(shape, doc) then SumEntries(FieldCosts(c, defs, shape, doc, depth, shape.Keys)) else NOTHING
  }

  /** What the fields in todo are charged. */
  ghost function FieldCosts(c: Checks, defs: Definitions, shape: map<Bytes, Validator>, doc: map<Bytes, Wire>, depth: nat,
                            todo: set<Bytes>): map<Bytes, Spend>
    requires depth <= MAX_DEPTH + 1
    decreases 2 * (MAX_DEPTH + 3 - depth) + 1, 1
  {
    map k | k in shape && k in todo :: Cost(c, defs, shape[k], Lookup(doc, k), depth)
  }

  /** What the entries in todo are charged. */
  ghost function EntryCosts(c: Checks, defs: Definitions, key: KeyValidator, element: Validator, doc: map<Bytes, Wire>, depth: nat,
                            todo: set<Bytes>): map<Bytes, Spend>
    requires depth <= MAX_DEPTH + 1
    decreases 2 * (MAX_DEPTH + 3 - depth) + 1, 1
  {
    map k | k in doc && k in todo :: KeyCost(key, k, depth).Plus(Cost(c, defs, element, Some(doc[k]), depth))
  }

  /** A key is charged under each option up to the one that accepts it. */
  ghost function KeyCost(key: KeyValidator, k: Bytes, depth: nat): Spend
    decreases key, if key.KUnion? then |key.options| + 1 else 0
  {
    if depth > MAX_DEPTH then NOTHING
    else match key
      case KUnion(options) => if 0 < |options| <= MAX_BRANCHES then OptionsCost(key, 0, k, depth + 1) else NOTHING
      case _ => Spend(1, |k|)
  }

  ghost function OptionsCost(key: KeyValidator, from: nat, k: Bytes, depth: nat): Spend
    requires key.KUnion? && from <= |key.options|
    decreases key, |key.options| - from
  {
    if from == |key.options| then NOTHING
    else
      KeyCost(key.options[from], k, depth).Plus(
        if KeyAccepted(key.options[from], k, depth) then NOTHING else OptionsCost(key, from + 1, k, depth))
  }

  // ----- outcomes and charges

  /** An evaluation within its budgets gives the wanted outcome, and fails past them. It charges its cost at
      most, and all of it when it succeeds and no union has left a branch early. */
  ghost predicate Evaluated(before: Spend, cost: Spend, after: Spend, wanted: Outcome, r: Outcome, exact: bool) {
    var ok :=
      && after.AtMost(before.Plus(cost)) && (if after.Fits() then r == wanted else r == Fail)
      && (exact && r != Fail ==> after == before.Plus(cost));
    ok
  }

  /** A check charges its cost at most, all of it when it succeeds, and succeeds exactly within the budgets. */
  ghost predicate Checked(before: Spend, cost: Spend, after: Spend, wanted: bool, ok: bool) {
    var good := after.AtMost(before.Plus(cost)) && (ok <==> wanted && after.Fits()) && (ok ==> after == before.Plus(cost));
    good
  }

  /** A loop has charged some of its total so far, and has no more than the rest to come. */
  ghost predicate Progress(before: Spend, total: Spend, now: Spend, rest: Spend, exact: bool) {
    var ok := now.Fits() && now.Plus(rest).AtMost(before.Plus(total)) && (exact ==> now.Plus(rest) == before.Plus(total));
    ok
  }

  /** A loop that stops at a failure. */
  lemma Stops(before: Spend, total: Spend, now: Spend, cost: Spend, rest: Spend, after: Spend, wanted: Outcome, exact: bool)
    requires Progress(before, total, now, cost.Plus(rest), exact) && after.AtMost(now.Plus(cost)) && (after.Fits() ==> wanted == Fail)
    ensures Evaluated(before, total, after, wanted, Fail, exact)
  {
  }

  /** A charge before the rest. */
  lemma FirstCharge(before: Spend, first: Spend, rest: Spend, after: Spend, wanted: Outcome, r: Outcome, exact: bool)
    ensures Evaluated(before.Plus(first), rest, after, wanted, r, exact) ==> Evaluated(before, first.Plus(rest), after, wanted, r, exact)
    ensures !before.Plus(first).Fits() ==> Evaluated(before, first.Plus(rest), before.Plus(first), wanted, Fail, exact)
  {
  }

  lemma FirstCheck(before: Spend, first: Spend, rest: Spend, after: Spend, wanted: bool, ok: bool)
    ensures Checked(before.Plus(first), rest, after, wanted, ok) ==> Checked(before, first.Plus(rest), after, wanted, ok)
    ensures !before.Plus(first).Fits() ==> Checked(before, first.Plus(rest), before.Plus(first), wanted, false)
  {
  }

  lemma CanonicalChecked(w: Wire, after: Spend, ok: bool)
    requires Checked(NOTHING, WireCost(w), after, WireOK(w, 0), ok)
    ensures ok <==> CanonicalWire(w)
  {
  }

  ghost predicate UnionFreeIn(v: Validator, defs: Definitions) { UnionFree(v) && UnionFreeAll(defs) }

  /** A validator's evaluation. */
  ghost predicate Normalized(c: Checks, defs: Definitions, v: Validator, x: Option<Wire>, depth: nat, before: Spend, after: Spend, r: Outcome) {
    var ok := Evaluated(before, Cost(c, defs, v, x, depth), after, Norm(c, defs, v, x, depth), r, UnionFreeIn(v, defs));
    ok
  }

  lemma TooDeep(c: Checks, defs: Definitions, v: Validator, x: Option<Wire>, depth: nat, before: Spend)
    requires depth > MAX_DEPTH && before.Fits()
    ensures Normalized(c, defs, v, x, depth, before, before, Fail)
  {
  }

  /** Optional and defaulted validators add nothing. */
  lemma Unwraps(c: Checks, defs: Definitions, v: Validator, x: Option<Wire>, depth: nat, before: Spend, after: Spend, r: Outcome)
    requires depth <= MAX_DEPTH && (v.VOptional? || v.VDefaulted?)
    ensures v.VOptional? && x.None? && before.Fits() ==> Normalized(c, defs, v, x, depth, before, before, Absent)
    ensures v.VOptional? && x.Some? && Normalized(c, defs, v.inner, x, depth + 1, before, after, r) ==>
      Normalized(c, defs, v, x, depth, before, after, r)
    ensures v.VDefaulted? && Normalized(c, defs, v.inner, if x.None? then Some(v.default) else x, depth + 1, before, after, r) ==>
      Normalized(c, defs, v, x, depth, before, after, r)
  {
  }

  // ----- the items of an array

  function After(done: seq<Wire>, rest: Option<seq<Wire>>): Option<seq<Wire>> {
    match rest
    case Some(items) => Some(done + items)
    case None => None
  }

  lemma AfterOne(done: seq<Wire>, one: Wire, rest: Option<seq<Wire>>)
    ensures After(done, After([one], rest)) == After(done + [one], rest)
  {
    if rest.Some? { assert done + ([one] + rest.value) == done + [one] + rest.value; }
  }

  ghost function ItemsOutcome(c: Checks, defs: Definitions, item: Validator, items: seq<Wire>, depth: nat): Outcome
    requires depth <= MAX_DEPTH + 1
  {
    match NormItems(c, defs, item, items, depth)
    case Some(ys) => Present(WArr(ys))
    case None => Fail
  }

  /** The first i items gave out. */
  ghost predicate ItemsDone(c: Checks, defs: Definitions, item: Validator, items: seq<Wire>, depth: nat, i: nat, out: seq<Wire>)
    requires depth <= MAX_DEPTH + 1
  {
    var ok := i <= |items| && NormItems(c, defs, item, items, depth) == After(out, NormItems(c, defs, item, items[i..], depth));
    ok
  }

  lemma NoItemsDone(c: Checks, defs: Definitions, item: Validator, items: seq<Wire>, depth: nat, before: Spend, exact: bool)
    requires depth <= MAX_DEPTH + 1 && before.Fits()
    ensures var costs := ItemCosts(c, defs, item, items, depth);
      ItemsDone(c, defs, item, items, depth, 0, []) && Progress(before, SumItems(costs), before, SumItems(costs[0..]), exact)
  {
    assert items[0..] == items && ItemCosts(c, defs, item, items, depth)[0..] == ItemCosts(c, defs, item, items, depth);
    var all := NormItems(c, defs, item, items, depth);
    if all.Some? { assert [] + all.value == all.value; }
  }

  lemma ItemStep(c: Checks, defs: Definitions, item: Validator, items: seq<Wire>, depth: nat, i: nat, out: seq<Wire>,
                 before: Spend, now: Spend, after: Spend, one: Outcome, exact: bool)
    requires depth <= MAX_DEPTH + 1 && i < |items| && ItemsDone(c, defs, item, items, depth, i, out)
    requires Progress(before, SumItems(ItemCosts(c, defs, item, items, depth)), now, SumItems(ItemCosts(c, defs, item, items, depth)[i..]), exact)
    requires Evaluated(now, Cost(c, defs, item, Some(items[i]), depth), after, Norm(c, defs, item, Some(items[i]), depth), one, exact)
    ensures !one.Present? ==> Evaluated(before, SumItems(ItemCosts(c, defs, item, items, depth)), after,
                                        ItemsOutcome(c, defs, item, items, depth), Fail, exact)
    ensures one.Present? ==> ItemsDone(c, defs, item, items, depth, i + 1, out + [one.value])
                             && Progress(before, SumItems(ItemCosts(c, defs, item, items, depth)), after,
                                         SumItems(ItemCosts(c, defs, item, items, depth)[i + 1..]), exact)
  {
    var costs := ItemCosts(c, defs, item, items, depth);
    assert costs[i..][0] == Cost(c, defs, item, Some(items[i]), depth) && costs[i..][1..] == costs[i + 1..];
    assert items[i..][0] == items[i] && items[i..][1..] == items[i + 1..];
    if one.Present? { AfterOne(out, one.value, NormItems(c, defs, item, items[i + 1..], depth)); }
  }

  lemma AllItemsDone(c: Checks, defs: Definitions, item: Validator, items: seq<Wire>, depth: nat, out: seq<Wire>,
                     before: Spend, after: Spend, exact: bool)
    requires depth <= MAX_DEPTH + 1 && ItemsDone(c, defs, item, items, depth, |items|, out)
    requires Progress(before, SumItems(ItemCosts(c, defs, item, items, depth)), after,
                      SumItems(ItemCosts(c, defs, item, items, depth)[|items|..]), exact)
    ensures Evaluated(before, SumItems(ItemCosts(c, defs, item, items, depth)), after, ItemsOutcome(c, defs, item, items, depth),
                      Present(WArr(out)), exact)
  {
    assert out + [] == out;
  }

  // ----- the branches of a union

  lemma UnionUnfolds(c: Checks, defs: Definitions, branches: seq<Validator>, x: Option<Wire>, depth: nat, i: nat)
    requires depth <= MAX_DEPTH + 1 && i < |branches|
    ensures var first := Norm(c, defs, branches[i], x, depth);
      && NormUnion(c, defs, branches[i..], x, depth) == (if first != Fail then first else NormUnion(c, defs, branches[i + 1..], x, depth))
      && UnionCost(c, defs, branches[i..], x, depth) == Cost(c, defs, branches[i], x, depth).Plus(
           if first != Fail then NOTHING else UnionCost(c, defs, branches[i + 1..], x, depth))
  {
    assert branches[i..][0] == branches[i] && branches[i..][1..] == branches[i + 1..];
  }

  // ----- the fields of an object

  ghost predicate FieldsOK(c: Checks, defs: Definitions, shape: map<Bytes, Validator>, doc: map<Bytes, Wire>, depth: nat)
    requires depth <= MAX_DEPTH + 1
  {
    (forall k | k in shape :: SafeWireKey(k)) && FieldsAccepted(c, defs, shape, doc, depth)
  }

  ghost function FieldsOutcome(c: Checks, defs: Definitions, shape: map<Bytes, Validator>, doc: map<Bytes, Wire>, depth: nat): Outcome
    requires depth <= MAX_DEPTH + 1
  {
    if FieldsOK(c, defs, shape, doc, depth) then Present(WObj(NormFields(c, defs, shape, doc, depth))) else Fail
  }

  ghost function ObjectOutcome(c: Checks, defs: Definitions, shape: map<Bytes, Validator>, doc: map<Bytes, Wire>, depth: nat): Outcome
    requires depth <= MAX_DEPTH + 1
  {
    if depth <= MAX_DEPTH && KeysOK(shape, doc) && FieldsAccepted(c, defs, shape, doc, depth + 1)
    then Present(WObj(NormFields(c, defs, shape, doc, depth + 1))) else Fail
  }

  /** An object's evaluation. */
  ghost predicate ObjectEvaluated(c: Checks, defs: Definitions, shape: map<Bytes, Validator>, doc: map<Bytes, Wire>, depth: nat,
                                  before: Spend, after: Spend, r: Outcome)
    requires depth <= MAX_DEPTH + 1
  {
    var ok := Evaluated(before, ObjectCost(c, defs, shape, doc, depth), after, ObjectOutcome(c, defs, shape, doc, depth), r,
                        UnionFreeIn(VObject(shape), defs));
    ok
  }

  /** Too deep or too large, it fails without a charge. */
  lemma ObjectRefused(c: Checks, defs: Definitions, shape: map<Bytes, Validator>, doc: map<Bytes, Wire>, depth: nat, now: Spend)
    requires depth <= MAX_DEPTH + 1 && (depth > MAX_DEPTH || |doc| > MAX_ITEMS) && now.Fits()
    ensures ObjectEvaluated(c, defs, shape, doc, depth, now, now, Fail)
  {
  }

  /** Otherwise it is charged for itself first, and its fields are evaluated if that fits. */
  lemma ObjectCharged(c: Checks, defs: Definitions, shape: map<Bytes, Validator>, doc: map<Bytes, Wire>, depth: nat,
                      before: Spend, after: Spend, r: Outcome)
    requires depth <= MAX_DEPTH && |doc| <= MAX_ITEMS
    requires var paid := before.Plus(Spend(1, ValueSize(WObj(doc))));
      if paid.Fits()
      then Evaluated(paid, KnownCost(c, defs, shape, doc, depth + 1), after,
                     if DocKeysOK(shape, doc) then FieldsOutcome(c, defs, shape, doc, depth + 1) else Fail, r,
                     UnionFreeIn(VObject(shape), defs))
      else after == paid && r == Fail
    ensures ObjectEvaluated(c, defs, shape, doc, depth, before, after, r)
  {
    FirstCharge(before, Spend(1, ValueSize(WObj(doc))), KnownCost(c, defs, shape, doc, depth + 1), after,
                ObjectOutcome(c, defs, shape, doc, depth), r, UnionFreeIn(VObject(shape), defs));
  }

  ghost function FieldOutcome(c: Checks, defs: Definitions, k: Bytes, v: Validator, x: Option<Wire>, depth: nat): Outcome {
    if SafeWireKey(k) then Norm(c, defs, v, x, depth) else Fail
  }

  /** Those not in todo are accepted, and out holds what they gave. */
  ghost predicate FieldsDone(c: Checks, defs: Definitions, shape: map<Bytes, Validator>, doc: map<Bytes, Wire>, depth: nat,
                             todo: set<Bytes>, out: map<Bytes, Wire>)
    requires depth <= MAX_DEPTH + 1
  {
    var ok :=
      && (forall k | k in shape && k !in todo :: FieldOutcome(c, defs, k, shape[k], Lookup(doc, k), depth) != Fail)
      && (forall k | k in out :: k in shape && k !in todo && Norm(c, defs, shape[k], Lookup(doc, k), depth) == Present(out[k]))
      && (forall k | k in shape && k !in todo && k !in out :: !Norm(c, defs, shape[k], Lookup(doc, k), depth).Present?);
    ok
  }

  lemma FieldFails(c: Checks, defs: Definitions, shape: map<Bytes, Validator>, doc: map<Bytes, Wire>, depth: nat, k: Bytes)
    requires depth <= MAX_DEPTH + 1 && k in shape && FieldOutcome(c, defs, k, shape[k], Lookup(doc, k), depth) == Fail
    ensures FieldsOutcome(c, defs, shape, doc, depth) == Fail
  {
  }

  lemma FieldDone(c: Checks, defs: Definitions, shape: map<Bytes, Validator>, doc: map<Bytes, Wire>, depth: nat,
                  todo: set<Bytes>, out: map<Bytes, Wire>, k: Bytes)
    requires depth <= MAX_DEPTH + 1 && k in shape && k in todo && FieldsDone(c, defs, shape, doc, depth, todo, out)
    requires FieldOutcome(c, defs, k, shape[k], Lookup(doc, k), depth) != Fail
    ensures var one := Norm(c, defs, shape[k], Lookup(doc, k), depth);
      FieldsDone(c, defs, shape, doc, depth, todo - {k}, if one.Present? then out[k := one.value] else out)
  {
  }

  lemma FieldCharge(c: Checks, defs: Definitions, shape: map<Bytes, Validator>, doc: map<Bytes, Wire>, depth: nat, todo: set<Bytes>, k: Bytes)
    requires depth <= MAX_DEPTH + 1 && k in shape && k in todo
    ensures SumEntries(FieldCosts(c, defs, shape, doc, depth, todo))
         == Cost(c, defs, shape[k], Lookup(doc, k), depth).Plus(SumEntries(FieldCosts(c, defs, shape, doc, depth, todo - {k})))
  {
    var costs, rest := FieldCosts(c, defs, shape, doc, depth, todo), FieldCosts(c, defs, shape, doc, depth, todo - {k});
    SumOneLess(costs, rest, k);
  }

  /** The loop over a shape's fields, with what it has given and charged so far. */
  ghost predicate FieldsLoop(c: Checks, defs: Definitions, shape: map<Bytes, Validator>, doc: map<Bytes, Wire>, depth: nat,
                             todo: set<Bytes>, out: map<Bytes, Wire>, before: Spend, now: Spend, exact: bool)
    requires depth <= MAX_DEPTH + 1
  {
    var ok :=
      && FieldsDone(c, defs, shape, doc, depth, todo, out)
      && Progress(before, SumEntries(FieldCosts(c, defs, shape, doc, depth, shape.Keys)), now,
                  SumEntries(FieldCosts(c, defs, shape, doc, depth, todo)), exact);
    ok
  }

  ghost predicate FieldsEvaluated(c: Checks, defs: Definitions, shape: map<Bytes, Validator>, doc: map<Bytes, Wire>, depth: nat,
                                  before: Spend, after: Spend, r: Outcome, exact: bool)
    requires depth <= MAX_DEPTH + 1
  {
    var ok := Evaluated(before, SumEntries(FieldCosts(c, defs, shape, doc, depth, shape.Keys)), after,
                        FieldsOutcome(c, defs, shape, doc, depth), r, exact);
    ok
  }

  lemma NoFieldsDone(c: Checks, defs: Definitions, shape: map<Bytes, Validator>, doc: map<Bytes, Wire>, depth: nat, before: Spend, exact: bool)
    requires depth <= MAX_DEPTH + 1 && before.Fits()
    ensures FieldsLoop(c, defs, shape, doc, depth, shape.Keys, map[], before, before, exact)
  {
  }

  lemma FieldStep(c: Checks, defs: Definitions, shape: map<Bytes, Validator>, doc: map<Bytes, Wire>, depth: nat,
                  todo: set<Bytes>, out: map<Bytes, Wire>, k: Bytes, before: Spend, now: Spend, after: Spend, one: Outcome, exact: bool)
    requires depth <= MAX_DEPTH + 1 && k in shape && k in todo && FieldsLoop(c, defs, shape, doc, depth, todo, out, before, now, exact)
    requires Evaluated(now, Cost(c, defs, shape[k], Lookup(doc, k), depth), after,
                       FieldOutcome(c, defs, k, shape[k], Lookup(doc, k), depth), one, exact)
    ensures one == Fail ==> FieldsEvaluated(c, defs, shape, doc, depth, before, after, Fail, exact)
    ensures one != Fail ==>
      FieldsLoop(c, defs, shape, doc, depth, todo - {k}, if one.Present? then out[k := one.value] else out, before, after, exact)
  {
    FieldCharge(c, defs, shape, doc, depth, todo, k);
    var total := SumEntries(FieldCosts(c, defs, shape, doc, depth, shape.Keys));
    var cost := Cost(c, defs, shape[k], Lookup(doc, k), depth);
    var rest := SumEntries(FieldCosts(c, defs, shape, doc, depth, todo - {k}));
    if one != Fail {
      FieldDone(c, defs, shape, doc, depth, todo, out, k);
    } else {
      if after.Fits() { FieldFails(c, defs, shape, doc, depth, k); }
      Stops(before, total, now, cost, rest, after, FieldsOutcome(c, defs, shape, doc, depth), exact);
    }
  }

  lemma AllFieldsAccepted(c: Checks, defs: Definitions, shape: map<Bytes, Validator>, doc: map<Bytes, Wire>, depth: nat, out: map<Bytes, Wire>)
    requires depth <= MAX_DEPTH + 1 && FieldsDone(c, defs, shape, doc, depth, {}, out)
    ensures FieldsOutcome(c, defs, shape, doc, depth) == Present(WObj(out))
  {
    forall k | k in shape ensures SafeWireKey(k) { assert FieldOutcome(c, defs, k, shape[k], Lookup(doc, k), depth) != Fail; }
    assert out == NormFields(c, defs, shape, doc, depth);
  }

  lemma AllFieldsDone(c: Checks, defs: Definitions, shape: map<Bytes, Validator>, doc: map<Bytes, Wire>, depth: nat,
                      out: map<Bytes, Wire>, before: Spend, after: Spend, exact: bool)
    requires depth <= MAX_DEPTH + 1 && FieldsLoop(c, defs, shape, doc, depth, {}, out, before, after, exact)
    ensures FieldsEvaluated(c, defs, shape, doc, depth, before, after, Present(WObj(out)), exact)
  {
    AllFieldsAccepted(c, defs, shape, doc, depth, out);
    assert FieldCosts(c, defs, shape, doc, depth, {}) == map[];
    assert SumEntries<Bytes>(map[]) == NOTHING;
  }

  // ----- the entries of a record

  ghost function EntryOutcome(c: Checks, defs: Definitions, key: KeyValidator, element: Validator, k: Bytes, w: Wire, depth: nat): Outcome
    requires depth <= MAX_DEPTH + 1
  {
    if EntryAccepted(c, defs, key, element, k, w, depth) then Present(NormPresent(c, defs, element, w, depth)) else Fail
  }

  ghost function RecordOutcome(c: Checks, defs: Definitions, key: KeyValidator, element: Validator, doc: map<Bytes, Wire>, depth: nat): Outcome
    requires depth <= MAX_DEPTH + 1
  {
    if RecordAccepted(c, defs, key, element, doc, depth) then Present(WObj(NormEntries(c, defs, element, doc, depth))) else Fail
  }

  ghost predicate EntriesDone(c: Checks, defs: Definitions, key: KeyValidator, element: Validator, doc: map<Bytes, Wire>, depth: nat,
                              todo: set<Bytes>, out: map<Bytes, Wire>)
    requires depth <= MAX_DEPTH + 1
  {
    var ok :=
      && (forall k | k in doc && k !in todo :: EntryAccepted(c, defs, key, element, k, doc[k], depth))
      && out.Keys == doc.Keys - todo && forall k | k in out :: out[k] == NormPresent(c, defs, element, doc[k], depth);
    ok
  }

  lemma EntryFails(c: Checks, defs: Definitions, key: KeyValidator, element: Validator, doc: map<Bytes, Wire>, depth: nat, k: Bytes)
    requires depth <= MAX_DEPTH + 1 && k in doc && !EntryAccepted(c, defs, key, element, k, doc[k], depth)
    ensures RecordOutcome(c, defs, key, element, doc, depth) == Fail
  {
  }

  lemma EntryDone(c: Checks, defs: Definitions, key: KeyValidator, element: Validator, doc: map<Bytes, Wire>, depth: nat,
                  todo: set<Bytes>, out: map<Bytes, Wire>, k: Bytes)
    requires depth <= MAX_DEPTH + 1 && k in doc && k in todo && EntriesDone(c, defs, key, element, doc, depth, todo, out)
    requires EntryAccepted(c, defs, key, element, k, doc[k], depth)
    ensures EntriesDone(c, defs, key, element, doc, depth, todo - {k}, out[k := NormPresent(c, defs, element, doc[k], depth)])
  {
  }

  lemma EntryCharge(c: Checks, defs: Definitions, key: KeyValidator, element: Validator, doc: map<Bytes, Wire>, depth: nat,
                    todo: set<Bytes>, k: Bytes)
    requires depth <= MAX_DEPTH + 1 && k in doc && k in todo
    ensures SumEntries(EntryCosts(c, defs, key, element, doc, depth, todo))
         == KeyCost(key, k, depth).Plus(Cost(c, defs, element, Some(doc[k]), depth))
            .Plus(SumEntries(EntryCosts(c, defs, key, element, doc, depth, todo - {k})))
  {
    var costs, rest := EntryCosts(c, defs, key, element, doc, depth, todo), EntryCosts(c, defs, key, element, doc, depth, todo - {k});
    SumOneLess(costs, rest, k);
  }

  /** The loop over a record's entries. */
  ghost predicate EntriesLoop(c: Checks, defs: Definitions, key: KeyValidator, element: Validator, doc: map<Bytes, Wire>, depth: nat,
                              todo: set<Bytes>, out: map<Bytes, Wire>, before: Spend, now: Spend, exact: bool)
    requires depth <= MAX_DEPTH + 1
  {
    var ok :=
      && EntriesDone(c, defs, key, element, doc, depth, todo, out)
      && Progress(before, SumEntries(EntryCosts(c, defs, key, element, doc, depth, doc.Keys)), now,
                  SumEntries(EntryCosts(c, defs, key, element, doc, depth, todo)), exact);
    ok
  }

  ghost predicate RecordEvaluated(c: Checks, defs: Definitions, key: KeyValidator, element: Validator, doc: map<Bytes, Wire>, depth: nat,
                                  before: Spend, after: Spend, r: Outcome, exact: bool)
    requires depth <= MAX_DEPTH + 1
  {
    var ok := Evaluated(before, SumEntries(EntryCosts(c, defs, key, element, doc, depth, doc.Keys)), after,
                        RecordOutcome(c, defs, key, element, doc, depth), r, exact);
    ok
  }

  lemma NoEntriesDone(c: Checks, defs: Definitions, key: KeyValidator, element: Validator, doc: map<Bytes, Wire>, depth: nat,
                      before: Spend, exact: bool)
    requires depth <= MAX_DEPTH + 1 && before.Fits()
    ensures EntriesLoop(c, defs, key, element, doc, depth, doc.Keys, map[], before, before, exact)
  {
  }

  lemma EntryStep(c: Checks, defs: Definitions, key: KeyValidator, element: Validator, doc: map<Bytes, Wire>, depth: nat,
                  todo: set<Bytes>, out: map<Bytes, Wire>, k: Bytes, before: Spend, now: Spend, after: Spend, one: Outcome, exact: bool)
    requires depth <= MAX_DEPTH + 1 && k in doc && k in todo && EntriesLoop(c, defs, key, element, doc, depth, todo, out, before, now, exact)
    requires Evaluated(now, KeyCost(key, k, depth).Plus(Cost(c, defs, element, Some(doc[k]), depth)), after,
                       EntryOutcome(c, defs, key, element, k, doc[k], depth), one, exact)
    ensures !one.Present? ==> RecordEvaluated(c, defs, key, element, doc, depth, before, after, Fail, exact)
    ensures one.Present? ==> EntriesLoop(c, defs, key, element, doc, depth, todo - {k}, out[k := one.value], before, after, exact)
  {
    EntryCharge(c, defs, key, element, doc, depth, todo, k);
    var total := SumEntries(EntryCosts(c, defs, key, element, doc, depth, doc.Keys));
    var cost := KeyCost(key, k, depth).Plus(Cost(c, defs, element, Some(doc[k]), depth));
    var rest := SumEntries(EntryCosts(c, defs, key, element, doc, depth, todo - {k}));
    if one.Present? {
      EntryDone(c, defs, key, element, doc, depth, todo, out, k);
    } else {
      if after.Fits() { EntryFails(c, defs, key, element, doc, depth, k); }
      Stops(before, total, now, cost, rest, after, RecordOutcome(c, defs, key, element, doc, depth), exact);
    }
  }

  /** A key under a key validator: all of the cost is charged unless the budgets end first. */
  ghost predicate KeyChecked(before: Spend, cost: Spend, after: Spend, wanted: bool, ok: bool) {
    var good :=
      && after.AtMost(before.Plus(cost))
      && if after.Fits() then ok == wanted && after == before.Plus(cost) else !ok;
    good
  }

  /** The key, and then the value unless the key fails. */
  lemma KeyThenValue(before: Spend, keyCost: Spend, mid: Spend, cost: Spend, after: Spend, keyOK: bool, good: bool, safe: bool,
                     norm: Outcome, one: Outcome, exact: bool)
    requires KeyChecked(before, keyCost, mid, keyOK, good)
    requires if good && safe then Evaluated(mid, cost, after, norm, one, exact) else after == mid && one == Fail
    ensures Evaluated(before, keyCost.Plus(cost), after, if keyOK && safe && norm.Present? then norm else Fail,
                      if one.Present? then one else Fail, exact)
  {
  }

  lemma EntryMeans(c: Checks, defs: Definitions, key: KeyValidator, element: Validator, k: Bytes, w: Wire, depth: nat)
    requires depth <= MAX_DEPTH + 1
    ensures var norm := Norm(c, defs, element, Some(w), depth);
      EntryOutcome(c, defs, key, element, k, w, depth) == if KeyAccepted(key, k, depth) && SafeWireKey(k) && norm.Present? then norm else Fail
  {
  }

  lemma AllEntriesAccepted(c: Checks, defs: Definitions, key: KeyValidator, element: Validator, doc: map<Bytes, Wire>, depth: nat, out: map<Bytes, Wire>)
    requires depth <= MAX_DEPTH + 1 && EntriesDone(c, defs, key, element, doc, depth, {}, out)
    ensures RecordAccepted(c, defs, key, element, doc, depth)
  {
  }

  lemma AllEntriesGiven(c: Checks, defs: Definitions, key: KeyValidator, element: Validator, doc: map<Bytes, Wire>, depth: nat, out: map<Bytes, Wire>)
    requires depth <= MAX_DEPTH + 1 && EntriesDone(c, defs, key, element, doc, depth, {}, out)
    ensures out == NormEntries(c, defs, element, doc, depth)
  {
  }

  lemma AllEntriesDone(c: Checks, defs: Definitions, key: KeyValidator, element: Validator, doc: map<Bytes, Wire>, depth: nat,
                       out: map<Bytes, Wire>, before: Spend, after: Spend, exact: bool)
    requires depth <= MAX_DEPTH + 1 && EntriesLoop(c, defs, key, element, doc, depth, {}, out, before, after, exact)
    ensures RecordEvaluated(c, defs, key, element, doc, depth, before, after, Present(WObj(out)), exact)
  {
    AllEntriesAccepted(c, defs, key, element, doc, depth, out);
    AllEntriesGiven(c, defs, key, element, doc, depth, out);
    assert EntryCosts(c, defs, key, element, doc, depth, {}) == map[];
    assert SumEntries<Bytes>(map[]) == NOTHING;
  }

  // ----- the items and fields of a value that is only checked

  ghost function WireCosts(items: seq<Wire>): seq<Spend> { seq(|items|, i requires 0 <= i < |items| => WireCost(items[i])) }

  ghost function WireFieldCosts(fields: map<Bytes, Wire>, todo: set<Bytes>): map<Bytes, Spend> {
    map k | k in fields && k in todo :: WireCost(fields[k])
  }

  ghost predicate ItemsChecked(items: seq<Wire>, depth: nat, i: nat) {
    var ok := i <= |items| && forall j | 0 <= j < i :: WireOK(items[j], depth);
    ok
  }

  ghost predicate WireItemsLoop(w: Wire, depth: nat, i: nat, before: Spend, now: Spend)
    requires w.WArr?
  {
    var ok := ItemsChecked(w.items, depth, i) && Progress(before, CostBelow(w), now, SumItems(WireCosts(w.items)[i..]), true);
    ok
  }

  lemma NoWireItems(w: Wire, depth: nat, before: Spend)
    requires w.WArr? && before.Fits()
    ensures WireItemsLoop(w, depth, 0, before, before)
  {
    assert WireCosts(w.items)[0..] == WireCosts(w.items);
  }

  lemma WireItemStep(w: Wire, depth: nat, i: nat, before: Spend, now: Spend, after: Spend, good: bool)
    requires w.WArr? && depth <= MAX_DEPTH && i < |w.items| <= MAX_ITEMS && WireItemsLoop(w, depth + 1, i, before, now)
    requires Checked(now, WireCost(w.items[i]), after, WireOK(w.items[i], depth + 1), good)
    ensures !good ==> Checked(before, CostBelow(w), after, WireOK(w, depth), false)
    ensures good ==> WireItemsLoop(w, depth + 1, i + 1, before, after)
  {
    var costs := WireCosts(w.items);
    assert costs[i..][0] == WireCost(w.items[i]) && costs[i..][1..] == costs[i + 1..];
  }

  ghost predicate FieldsChecked(fields: map<Bytes, Wire>, depth: nat, todo: set<Bytes>) {
    var ok := forall k | k in fields && k !in todo :: SafeWireKey(k) && WireOK(fields[k], depth);
    ok
  }

  ghost predicate WireFieldsLoop(w: Wire, depth: nat, todo: set<Bytes>, before: Spend, now: Spend)
    requires w.WObj?
  {
    var ok := FieldsChecked(w.fields, depth, todo) && Progress(before, CostBelow(w), now, SumEntries(WireFieldCosts(w.fields, todo)), true);
    ok
  }

  lemma NoWireFields(w: Wire, depth: nat, before: Spend)
    requires w.WObj? && !Int64Bytes(w).Some? && !BlobBytes(w).Some? && before.Fits()
    ensures WireFieldsLoop(w, depth, w.fields.Keys, before, before)
  {
    assert WireFieldCosts(w.fields, w.fields.Keys) == map k | k in w.fields :: WireCost(w.fields[k]);
  }

  lemma WireFieldStep(w: Wire, depth: nat, todo: set<Bytes>, k: Bytes, before: Spend, now: Spend, after: Spend, good: bool)
    requires w.WObj? && depth <= MAX_DEPTH && |w.fields| <= MAX_ITEMS && !Int64Bytes(w).Some? && !BlobBytes(w).Some?
    requires k in w.fields && k in todo && WireFieldsLoop(w, depth + 1, todo, before, now)
    requires Checked(now, WireCost(w.fields[k]), after, SafeWireKey(k) && WireOK(w.fields[k], depth + 1), good)
    ensures !good ==> Checked(before, CostBelow(w), after, WireOK(w, depth), false)
    ensures good ==> WireFieldsLoop(w, depth + 1, todo - {k}, before, after)
  {
    SumOneLess(WireFieldCosts(w.fields, todo), WireFieldCosts(w.fields, todo - {k}), k);
    if !good && after.Fits() { assert !(SafeWireKey(k) && WireOK(w.fields[k], depth + 1)); }
  }

  lemma AllWireFields(w: Wire, depth: nat, before: Spend, after: Spend)
    requires w.WObj? && depth <= MAX_DEPTH && |w.fields| <= MAX_ITEMS && !Int64Bytes(w).Some? && !BlobBytes(w).Some?
    requires WireFieldsLoop(w, depth + 1, {}, before, after)
    ensures Checked(before, CostBelow(w), after, WireOK(w, depth), true)
  {
    assert WireFieldCosts(w.fields, {}) == map[];
    assert SumEntries<Bytes>(map[]) == NOTHING;
  }

  // ----- one value

  /** What one value against a validator gives is always Norm's; it is given whenever the cost fits the
      budgets, and for a validator without unions only then. */
  ghost predicate Verdict(c: Checks, v: Validator, w: Wire, r: Option<Wire>) {
    var norm, fits := Norm(c, map[], v, Some(w), 0), Cost(c, map[], v, Some(w), 0).Fits();
    var ok := (r.Some? ==> norm == Present(r.value)) && (norm.Present? && fits ==> r.Some?) && (UnionFree(v) && r.Some? ==> fits);
    ok
  }

  lemma Decided(c: Checks, v: Validator, w: Wire, after: Spend, out: Outcome)
    requires Evaluated(NOTHING, Cost(c, map[], v, Some(w), 0), after, Norm(c, map[], v, Some(w), 0), out, UnionFreeIn(v, map[]))
    ensures Verdict(c, v, w, if out.Present? then Some(out.value) else None)
  {
    PresentStaysPresent(c, map[], v, w, 0);
    var cost := Cost(c, map[], v, Some(w), 0);
    assert NOTHING.Plus(cost) == cost;
  }
}
