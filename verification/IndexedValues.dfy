/** What validation accepts, projection can key. */
module IndexedValues {
  import opened ByteStrings
  import opened WireValues
  import opened OrderKeys
  import opened Normalize
  import opened Projection

  /** Validation and projection ask the same question about ids. */
  ghost predicate SameIds(c: Checks, env: Env) {
    forall s, t :: c.identifier(t) && c.id(s, t) ==> env.Authentic(s, t)
  }

  /** A value that an indexable validator accepts comes out unchanged, and has an order key unless it is
      null. A null has one exactly when the validator admits null other than by a literal. */
  lemma {:induction false} AcceptedValuesHaveKeys(c: Checks, env: Env, defs: Definitions, v: Validator, w: Wire, depth: nat)
    requires Indexable(v) && SameIds(c, env) && Norm(c, defs, v, Some(w), depth).Present?
    ensures Norm(c, defs, v, Some(w), depth).value == w
    ensures w != WNull ==> PresentKey(env, v, w).Some?
    ensures w == WNull ==> (PresentKey(env, v, w).Some? <==> AllowsNull(v))
    decreases v
  {
    if v.VOptional? || v.VDefaulted? {
      AcceptedValuesHaveKeys(c, env, defs, v.inner, w, depth + 1);
    } else if v.VUnion? {
      var i := AcceptingBranch(c, defs, v.branches, Some(w), depth + 1);
      AcceptedValuesHaveKeys(c, env, defs, v.branches[i], w, depth + 1);
      if w != WNull { BranchKey(env, v.branches, w, i); }
    } else if v.VLiteral? && w != WNull {
      LiteralKey(env, v.value, w);
    }
  }

  lemma {:induction false} AcceptingBranch(c: Checks, defs: Definitions, branches: seq<Validator>, x: Option<Wire>, depth: nat) returns (i: nat)
    requires depth <= MAX_DEPTH + 1 && NormUnion(c, defs, branches, x, depth).Present?
    ensures i < |branches| && NormUnion(c, defs, branches, x, depth) == Norm(c, defs, branches[i], x, depth)
    decreases |branches|
  {
    if Norm(c, defs, branches[0], x, depth) != Fail {
      i := 0;
    } else {
      i := AcceptingBranch(c, defs, branches[1..], x, depth);
      i := i + 1;
    }
  }

  lemma {:induction false} FirstKey(env: Env, branches: seq<Validator>, w: Wire, i: nat)
    requires i < |branches| && PresentKey(env, branches[i], w).Some?
    ensures FirstBranchKey(env, branches, w).Some?
    decreases |branches|
  {
    if i > 0 { FirstKey(env, branches[1..], w, i - 1); }
  }

  lemma BranchKey(env: Env, branches: seq<Validator>, w: Wire, i: nat)
    requires i < |branches| && w != WNull && PresentKey(env, branches[i], w).Some?
    ensures PresentKey(env, VUnion(branches), w).Some?
  {
    FirstKey(env, branches, w, i);
  }

  lemma LiteralKey(env: Env, literal: Wire, w: Wire)
    requires ScalarLiteral(literal) && Same(literal, w) && w != WNull
    ensures PresentKey(env, VLiteral(literal), w).Some?
  {
    if literal.WObj? { TaggedLiteralKey(env, literal); }
  }

  lemma TaggedLiteralKey(env: Env, literal: Wire)
    requires literal.WObj? && ScalarLiteral(literal)
    ensures GenericPresentKey(env, literal).Some?
  {
    if Int64Bytes(literal).Some? {
      assert INTEGER_TAG in literal.fields;
    } else {
      OneTagOnly(literal);
      assert BYTES_TAG in literal.fields;
    }
  }

  /** A literal null is accepted. */
  lemma NullLiteralIsAccepted(c: Checks)
    ensures Norm(c, map[], VLiteral(WNull), Some(WNull), 0) == Present(WNull)
  {
    assert WireOK(WNull, 0);
  }

  /** It may be indexed, but projecting it fails. */
  lemma NullLiteralHasNoKey(env: Env)
    ensures Indexable(VLiteral(WNull)) && OrderKey(env, VLiteral(WNull), Some(WNull)).None?
  {
  }

  // ----- what the three questions about a validator mean

  /** Nested within the limit, with unions of an allowed size, and without the validators that admit null by other
      means than their type: a null literal, a recursive type, a reference. */
  predicate NamesItsNulls(v: Validator, depth: nat) {
    depth < MAX_DEPTH &&
    match v
    case VOptional(inner) => NamesItsNulls(inner, depth + 1)
    case VDefaulted(inner, _) => NamesItsNulls(inner, depth + 1)
    case VUnion(branches) => 0 < |branches| <= MAX_BRANCHES && forall i | 0 <= i < |branches| :: NamesItsNulls(branches[i], depth + 1)
    case VLiteral(value) => value != WNull
    case VRecursive(_, _) => false
    case VRef(_) => false
    case _ => true
  }

  /** Such a validator allows null exactly when it accepts null. */
  lemma {:induction false} NullIsAllowedExactly(c: Checks, defs: Definitions, v: Validator, depth: nat)
    requires NamesItsNulls(v, depth)
    ensures Norm(c, defs, v, Some(WNull), depth) == if AllowsNull(v) then Present(WNull) else Fail
    decreases v, 0
  {
    match v
    case VOptional(inner) => NullIsAllowedExactly(c, defs, inner, depth + 1);
    case VDefaulted(inner, _) => NullIsAllowedExactly(c, defs, inner, depth + 1);
    case VUnion(branches) => NullInUnion(c, defs, v, 0, depth + 1);
    case VLiteral(value) => NotSameAsNull(value);
    case _ =>
  }

  lemma NotSameAsNull(w: Wire)
    requires w != WNull
    ensures !Same(w, WNull)
  {
  }

  lemma {:induction false} NullInUnion(c: Checks, defs: Definitions, v: Validator, from: nat, depth: nat)
    requires v.VUnion? && from <= |v.branches| && forall i | from <= i < |v.branches| :: NamesItsNulls(v.branches[i], depth)
    requires depth <= MAX_DEPTH + 1
    ensures NormUnion(c, defs, v.branches[from..], Some(WNull), depth)
         == if exists i | from <= i < |v.branches| :: AllowsNull(v.branches[i]) then Present(WNull) else Fail
    decreases v, 0, |v.branches| - from
  {
    if from < |v.branches| {
      NullIsAllowedExactly(c, defs, v.branches[from], depth);
      NullInUnion(c, defs, v, from + 1, depth);
      assert v.branches[from..][0] == v.branches[from] && v.branches[from..][1..] == v.branches[from + 1..];
    }
  }

  /** Unions of an allowed size, and literals of the wire subset. */
  predicate Describable(v: Validator) {
    match v
    case VOptional(inner) => Describable(inner)
    case VDefaulted(inner, _) => Describable(inner)
    case VUnion(branches) => 0 < |branches| <= 64 && forall i | 0 <= i < |branches| :: Describable(branches[i])
    case VLiteral(value) => WireOK(value, 0)
    case _ => true
  }

  /** An array, or an object that is not a tagged value. */
  predicate Compound(env: Env, w: Wire) { (w.WArr? || w.WObj?) && Plain(env, Some(w)).Complex? }

  /** A validator that may not be indexed takes some compound value. */
  lemma {:induction false} NotIndexableTakesCompound(env: Env, v: Validator) returns (w: Wire)
    requires Describable(v) && !Indexable(v)
    ensures Compound(env, w) && PresentKey(env, v, w).Some?
    decreases v
  {
    if v.VOptional? || v.VDefaulted? {
      w := NotIndexableTakesCompound(env, v.inner);
    } else if v.VUnion? {
      var i :| 0 <= i < |v.branches| && !Indexable(v.branches[i]);
      w := NotIndexableTakesCompound(env, v.branches[i]);
      BranchKey(env, v.branches, w, i);
    } else if v.VLiteral? {
      w := v.value;
      WireValuesHaveKeys(env, w, 0);
    } else {
      w := WArr([]);
    }
  }

  lemma {:induction false} IndexableTakesNoCompound(env: Env, v: Validator, w: Wire)
    requires env.Valid() && Indexable(v) && Compound(env, w)
    ensures PresentKey(env, v, w).None?
    decreases v, 0
  {
    if v.VOptional? || v.VDefaulted? {
      IndexableTakesNoCompound(env, v.inner, w);
    } else if v.VUnion? {
      NoBranchTakesCompound(env, v, 0, w);
      assert v.branches[0..] == v.branches;
    } else if v.VLiteral? {
      PlainTellsApart(env, v.value, w);
    } else if v.VInt64? || v.VBytes? {
      TaggedIsPlain(env, w);
    }
  }

  lemma TaggedIsPlain(env: Env, w: Wire)
    requires Compound(env, w)
    ensures Int64Key(w).None? && BlobKey(w).None?
  {
  }

  lemma {:induction false} NoBranchTakesCompound(env: Env, v: Validator, from: nat, w: Wire)
    requires env.Valid() && v.VUnion? && Indexable(v) && from <= |v.branches| && Compound(env, w)
    ensures FirstBranchKey(env, v.branches[from..], w).None?
    decreases v, 0, |v.branches| - from
  {
    if from < |v.branches| {
      IndexableTakesNoCompound(env, v.branches[from], w);
      NoBranchTakesCompound(env, v, from + 1, w);
      assert v.branches[from..][0] == v.branches[from] && v.branches[from..][1..] == v.branches[from + 1..];
    }
  }

  /** So a validator may be indexed exactly when it keys no compound value. */
  lemma IndexableExactly(env: Env, v: Validator)
    requires env.Valid() && Describable(v)
    ensures Indexable(v) <==> forall w | Compound(env, w) :: PresentKey(env, v, w).None?
  {
    if Indexable(v) {
      forall w | Compound(env, w) ensures PresentKey(env, v, w).None? { IndexableTakesNoCompound(env, v, w); }
    } else {
      var w := NotIndexableTakesCompound(env, v);
    }
  }

  /** An id validator keys exactly the tokens that name its table and are authentic for it, by table and raw id. */
  lemma IdsKeyedByTheirTable(env: Env, table: Bytes, s: Bytes)
    requires env.Valid()
    ensures PresentKey(env, VId(table), WStr(s)) ==
      if env.target(s).Some? && env.target(s).value.0 == table && env.check(s, table)
      then Some(OpaqueIdKey(table, env.target(s).value.1)) else None
  {
  }

  // ----- any validator

  /** Every value of the wire subset has a validator-independent key: arrays, objects and tagged values too. */
  lemma WireValuesHaveKeys(env: Env, w: Wire, depth: nat)
    requires WireOK(w, depth)
    ensures GenericPresentKey(env, w).Some?
  {
    TagsDiffer();
    if w.WObj? && Int64Bytes(w).None? && BlobBytes(w).None? { UntaggedHasKey(env, w); }
  }

  lemma UntaggedHasKey(env: Env, w: Wire)
    requires w.WObj? && forall k | k in w.fields :: SafeWireKey(k)
    ensures GenericPresentKey(env, w).Some?
  {
    assert INTEGER_TAG !in w.fields by { assert INTEGER_TAG[0] == DOLLAR; }
    assert BYTES_TAG !in w.fields by { assert BYTES_TAG[0] == DOLLAR; }
  }

  /** So does everything that a validator accepts, compounds included. */
  lemma {:induction false} AcceptedHasGenericKey(c: Checks, env: Env, defs: Definitions, v: Validator, x: Option<Wire>, depth: nat)
    requires env.Valid() && Norm(c, defs, v, x, depth).Present?
    ensures GenericPresentKey(env, Norm(c, defs, v, x, depth).value).Some?
    decreases 2 * (MAX_DEPTH + 3 - depth) + 1, 0
  {
    if v.VOptional? {
      AcceptedHasGenericKey(c, env, defs, v.inner, x, depth + 1);
    } else if v.VDefaulted? {
      AcceptedHasGenericKey(c, env, defs, v.inner, if x.None? then Some(v.default) else x, depth + 1);
    } else if v.VUnion? {
      UnionHasGenericKey(c, env, defs, v.branches, x, depth + 1);
    } else {
      ValueHasGenericKey(c, env, defs, v, x.value, depth);
    }
  }

  lemma {:induction false} UnionHasGenericKey(c: Checks, env: Env, defs: Definitions, branches: seq<Validator>, x: Option<Wire>, depth: nat)
    requires env.Valid() && depth <= MAX_DEPTH + 1 && NormUnion(c, defs, branches, x, depth).Present?
    ensures GenericPresentKey(env, NormUnion(c, defs, branches, x, depth).value).Some?
    decreases 2 * (MAX_DEPTH + 3 - depth) + 1, |branches| + 1
  {
    if Norm(c, defs, branches[0], x, depth) != Fail {
      AcceptedHasGenericKey(c, env, defs, branches[0], x, depth);
    } else {
      UnionHasGenericKey(c, env, defs, branches[1..], x, depth);
    }
  }

  lemma {:induction false} ValueHasGenericKey(c: Checks, env: Env, defs: Definitions, v: Validator, w: Wire, depth: nat)
    requires env.Valid() && depth <= MAX_DEPTH && NormValue(c, defs, v, w, depth).Present?
    ensures GenericPresentKey(env, NormValue(c, defs, v, w, depth).value).Some?
    decreases 2 * (MAX_DEPTH + 3 - depth), 0
  {
    match v
    case VRecursive(name, body) => AcceptedHasGenericKey(c, env, defs[name := body], body, Some(w), depth + 1);
    case VRef(name) => AcceptedHasGenericKey(c, env, defs, defs[name], Some(w), depth + 1);
    case VArray(_) =>
    case VObject(shape) => ShapedIsUntagged(c, env, defs, shape, w, depth);
    case VRecord(key, element) => RecordIsUntagged(c, env, defs, key, element, w, depth);
    case _ => ScalarHasKey(c, env, v, w, depth);
  }

  lemma ShapedIsUntagged(c: Checks, env: Env, defs: Definitions, shape: map<Bytes, Validator>, w: Wire, depth: nat)
    requires depth <= MAX_DEPTH && NormValue(c, defs, VObject(shape), w, depth).Present?
    ensures GenericPresentKey(env, NormValue(c, defs, VObject(shape), w, depth).value).Some?
  {
    assert forall k | k in NormFields(c, defs, shape, w.fields, depth + 2) :: k in shape;
    UntaggedHasKey(env, WObj(NormFields(c, defs, shape, w.fields, depth + 2)));
  }

  lemma RecordIsUntagged(c: Checks, env: Env, defs: Definitions, key: KeyValidator, element: Validator, w: Wire, depth: nat)
    requires depth <= MAX_DEPTH && NormValue(c, defs, VRecord(key, element), w, depth).Present?
    ensures GenericPresentKey(env, NormValue(c, defs, VRecord(key, element), w, depth).value).Some?
  {
    assert forall k | k in NormEntries(c, defs, element, w.fields, depth + 1) :: EntryAccepted(c, defs, key, element, k, w.fields[k], depth + 1);
    UntaggedHasKey(env, WObj(NormEntries(c, defs, element, w.fields, depth + 1)));
  }

  lemma ScalarHasKey(c: Checks, env: Env, v: Validator, w: Wire, depth: nat)
    requires env.Valid() && ScalarOK(c, v, w, depth)
    ensures GenericPresentKey(env, w).Some?
  {
    match v
    case VAny => WireValuesHaveKeys(env, w, depth + 1);
    case VBareObject => WireValuesHaveKeys(env, w, depth + 1);
    case VBytes => OneTagOnly(w);
    case VLiteral(value) =>
      WireValuesHaveKeys(env, value, 0);
      if value != WNull && w != WNull { SameGenericKey(env, value, w); }
    case _ =>
  }

  /** A value that is there, or a null that the type names. */
  predicate Keyable(v: Validator, y: Wire) { y == WNull ==> AllowsNull(v) }

  lemma LeafHasOrderKey(c: Checks, env: Env, v: Validator, w: Wire, depth: nat)
    requires env.Valid() && SameIds(c, env) && ScalarOK(c, v, w, depth)
    ensures PresentKey(env, v, w).Some? <==> Keyable(v, w)
  {
    if v.VLiteral? { WireValuesHaveKeys(env, v.value, 0); }
    if v.VAny? { WireValuesHaveKeys(env, w, depth + 1); }
  }

  /** What any validator accepts has an order key under it, except a null that its type does not name: one that a
      literal admits, or a recursive type or a reference to one. */
  lemma {:induction false} AcceptedHasOrderKey(c: Checks, env: Env, defs: Definitions, v: Validator, x: Option<Wire>, depth: nat)
    requires env.Valid() && SameIds(c, env) && Norm(c, defs, v, x, depth).Present?
    ensures PresentKey(env, v, Norm(c, defs, v, x, depth).value).Some? <==> Keyable(v, Norm(c, defs, v, x, depth).value)
    decreases v
  {
    if v.VOptional? {
      AcceptedHasOrderKey(c, env, defs, v.inner, x, depth + 1);
    } else if v.VDefaulted? {
      AcceptedHasOrderKey(c, env, defs, v.inner, if x.None? then Some(v.default) else x, depth + 1);
    } else if v.VUnion? {
      var i := AcceptingBranch(c, defs, v.branches, x, depth + 1);
      AcceptedHasOrderKey(c, env, defs, v.branches[i], x, depth + 1);
      var y := Norm(c, defs, v, x, depth).value;
      if y != WNull { BranchKey(env, v.branches, y, i); }
    } else if !CompoundValidator(v) {
      LeafHasOrderKey(c, env, v, x.value, depth);
    }
  }

  lemma AcceptedHasKeys(c: Checks, env: Env, defs: Definitions, v: Validator, x: Option<Wire>, depth: nat)
    requires env.Valid() && SameIds(c, env) && Norm(c, defs, v, x, depth).Present?
    ensures HasKeys(env, v, Some(Norm(c, defs, v, x, depth).value)) <==> Keyable(v, Norm(c, defs, v, x, depth).value)
  {
    AcceptedHasGenericKey(c, env, defs, v, x, depth);
    AcceptedHasOrderKey(c, env, defs, v, x, depth);
  }

  // ----- a whole document

  /** Objects are nested within the limit, whether they are present or not. */
  predicate Shallow(v: Validator, depth: nat)
    decreases v
  {
    depth <= MAX_DEPTH && (Unwrapped(v).VObject? ==> forall n | n in Unwrapped(v).shape :: Shallow(Unwrapped(v).shape[n], depth + 1))
  }

  /** No addressable value is a null that its validator's type does not name. */
  predicate NullsNamed(v: Validator, x: Option<Wire>)
    decreases v
  {
    && (x == Some(WNull) ==> AllowsNull(v))
    && (Unwrapped(v).VObject? ==> forall n | n in Unwrapped(v).shape :: NullsNamed(Unwrapped(v).shape[n], Child(x, n)))
  }

  /** The value projects, with everything below it, exactly when its objects are nested within the limit and its nulls
      are named. */
  predicate ProjectsExactly(env: Env, v: Validator, x: Option<Wire>, depth: nat) {
    var ok := HasKeys(env, v, x) && Projectable(env, v, x, depth) <==> NullsNamed(v, x) && Shallow(v, depth);
    ok
  }

  lemma {:induction false} UnwrappedSmaller(v: Validator)
    ensures Unwrapped(v) == v || Unwrapped(v) < v
  {
    if v.VOptional? || v.VDefaulted? { UnwrappedSmaller(v.inner); }
  }

  ghost predicate FieldsProjectExactly(env: Env, v: Validator, x: Option<Wire>, depth: nat)
    requires Unwrapped(v).VObject?
  {
    forall n | n in Unwrapped(v).shape :: ProjectsExactly(env, Unwrapped(v).shape[n], Child(x, n), depth)
  }

  lemma ObjectDecides(env: Env, v: Validator, x: Option<Wire>, depth: nat)
    requires Unwrapped(v).VObject? && FieldsProjectExactly(env, v, x, depth + 1) && (x.Some? ==> x.value.WObj?) && depth <= MAX_DEPTH
    ensures Projectable(env, v, x, depth) ==> NullsNamed(v, x) && Shallow(v, depth)
    ensures NullsNamed(v, x) && Shallow(v, depth) ==> Projectable(env, v, x, depth)
  {
    var o := Unwrapped(v);
    if Projectable(env, v, x, depth) {
      forall n | n in o.shape ensures NullsNamed(o.shape[n], Child(x, n)) && Shallow(o.shape[n], depth + 1) {
        assert ProjectsExactly(env, o.shape[n], Child(x, n), depth + 1);
      }
    }
    if NullsNamed(v, x) && Shallow(v, depth) {
      forall n | n in o.shape ensures HasKeys(env, o.shape[n], Child(x, n)) && Projectable(env, o.shape[n], Child(x, n), depth + 1) {
        assert ProjectsExactly(env, o.shape[n], Child(x, n), depth + 1);
      }
    }
  }

  /** An object projects exactly when its fields do. */
  lemma FieldsDecide(env: Env, v: Validator, x: Option<Wire>, depth: nat)
    requires HasKeys(env, v, x) <==> (x.Some? ==> Keyable(v, x.value))
    requires Unwrapped(v).VObject? ==> (x.Some? ==> x.value.WObj?) && FieldsProjectExactly(env, v, x, depth + 1)
    ensures ProjectsExactly(env, v, x, depth)
  {
    if Unwrapped(v).VObject? && depth <= MAX_DEPTH { ObjectDecides(env, v, x, depth); }
  }

  /** An absent value is projected as missing. */
  lemma {:induction false} AbsentProjects(env: Env, v: Validator, depth: nat)
    ensures ProjectsExactly(env, v, None, depth)
    decreases v
  {
    if Unwrapped(v).VObject? {
      UnwrappedSmaller(v);
      forall n | n in Unwrapped(v).shape ensures ProjectsExactly(env, Unwrapped(v).shape[n], Child(None, n), depth + 1) {
        AbsentProjects(env, Unwrapped(v).shape[n], depth + 1);
      }
    }
    FieldsDecide(env, v, None, depth);
  }

  lemma {:induction false} NormalizedProjects(c: Checks, env: Env, defs: Definitions, v: Validator, x: Option<Wire>, depth: nat, level: nat)
    requires env.Valid() && SameIds(c, env) && Norm(c, defs, v, x, depth) != Fail
    ensures ProjectsExactly(env, v, ValueOf(Norm(c, defs, v, x, depth)), level)
    decreases v, 2
  {
    if Norm(c, defs, v, x, depth).Absent? {
      AbsentProjects(env, v, level);
    } else {
      AcceptedHasKeys(c, env, defs, v, x, depth);
      if Unwrapped(v).VObject? { NormalizedFieldsProject(c, env, defs, v, x, depth, level + 1); }
      FieldsDecide(env, v, ValueOf(Norm(c, defs, v, x, depth)), level);
    }
  }

  lemma {:induction false} NormalizedFieldsProject(c: Checks, env: Env, defs: Definitions, v: Validator, x: Option<Wire>, depth: nat, level: nat)
    requires env.Valid() && SameIds(c, env) && Norm(c, defs, v, x, depth).Present? && Unwrapped(v).VObject?
    ensures Norm(c, defs, v, x, depth).value.WObj?
    ensures FieldsProjectExactly(env, v, Some(Norm(c, defs, v, x, depth).value), level)
    decreases v, 1
  {
    var w, at := UnwrapsTo(c, defs, v, x, depth);
    UnwrappedSmaller(v);
    forall n | n in Unwrapped(v).shape
      ensures ProjectsExactly(env, Unwrapped(v).shape[n], Child(Some(Norm(c, defs, v, x, depth).value), n), level)
    {
      FieldProjects(c, env, defs, Unwrapped(v), w, at, n, level);
    }
  }

  lemma {:induction false} FieldProjects(c: Checks, env: Env, defs: Definitions, o: Validator, w: Wire, at: nat, n: Bytes, level: nat)
    requires env.Valid() && SameIds(c, env) && o.VObject? && n in o.shape && w.WObj? && at <= MAX_DEPTH
    requires NormValue(c, defs, o, w, at).Present?
    ensures ProjectsExactly(env, o.shape[n], Child(Some(NormValue(c, defs, o, w, at).value), n), level)
    decreases o, 0
  {
    FieldOfObject(c, defs, o.shape, w, at, n);
    NormalizedProjects(c, env, defs, o.shape[n], Normalize.Lookup(w.fields, n), at + 2, level);
  }

  function ValueOf(r: Outcome): Option<Wire> { if r.Present? then Some(r.value) else None }

  /** What a normalized object holds at a declared name. */
  lemma FieldOfObject(c: Checks, defs: Definitions, shape: map<Bytes, Validator>, w: Wire, depth: nat, n: Bytes)
    requires depth <= MAX_DEPTH && w.WObj? && n in shape && NormValue(c, defs, VObject(shape), w, depth).Present?
    ensures Norm(c, defs, shape[n], Normalize.Lookup(w.fields, n), depth + 2) != Fail
    ensures Child(Some(NormValue(c, defs, VObject(shape), w, depth).value), n)
         == ValueOf(Norm(c, defs, shape[n], Normalize.Lookup(w.fields, n), depth + 2))
  {
  }

  /** Under its wrappers an object is normalized from some object value. */
  lemma {:induction false} UnwrapsTo(c: Checks, defs: Definitions, v: Validator, x: Option<Wire>, depth: nat) returns (w: Wire, at: nat)
    requires Unwrapped(v).VObject? && Norm(c, defs, v, x, depth).Present?
    ensures w.WObj? && at <= MAX_DEPTH && Norm(c, defs, v, x, depth) == NormValue(c, defs, Unwrapped(v), w, at)
    decreases v
  {
    if v.VOptional? {
      w, at := UnwrapsTo(c, defs, v.inner, x, depth + 1);
    } else if v.VDefaulted? {
      w, at := UnwrapsTo(c, defs, v.inner, if x.None? then Some(v.default) else x, depth + 1);
    } else {
      w, at := x.value, depth;
    }
  }

  /** So a normalized document projects exactly when its declared objects are nested within the limit and it holds no
      null, at a declared path, that the path's type does not name. */
  lemma NormalizedDocumentsProject(c: Checks, env: Env, fields: map<Bytes, Validator>, doc: Wire)
    requires env.Valid() && SameIds(c, env) && Norm(c, map[], VObject(fields), Some(doc), 0).Present?
    ensures var y := Some(Norm(c, map[], VObject(fields), Some(doc), 0).value);
      (forall n | n in fields :: HasKeys(env, fields[n], Child(y, n)) && Projectable(env, fields[n], Child(y, n), 0))
      <==> forall n | n in fields :: NullsNamed(fields[n], Child(y, n)) && Shallow(fields[n], 0)
  {
    var y := Some(Norm(c, map[], VObject(fields), Some(doc), 0).value);
    forall n | n in fields ensures ProjectsExactly(env, fields[n], Child(y, n), 0) {
      FieldOfObject(c, map[], fields, doc, 0, n);
      NormalizedProjects(c, env, map[], fields[n], Normalize.Lookup(doc.fields, n), 2, 0);
    }
  }

  /** A recursive type that admits null, as the end of a list does, accepts a null and has no key for it. */
  lemma RecursiveNullHasNoKey(c: Checks, env: Env, name: Bytes, rest: Validator)
    requires c.identifier(name)
    ensures var list := VRecursive(name, VUnion([VNull, rest]));
      Norm(c, map[], list, Some(WNull), 0) == Present(WNull) && OrderKey(env, list, Some(WNull)).None?
  {
    var body := VUnion([VNull, rest]);
    assert Norm(c, map[name := body], VNull, Some(WNull), 2) == Present(WNull);
    assert body.branches[0] == VNull;
    assert NormUnion(c, map[name := body], body.branches, Some(WNull), 2) == Present(WNull);
  }
}
