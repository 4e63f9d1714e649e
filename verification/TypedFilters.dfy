/** Which filters compile, in terms of what the fields' validators accept. */
module TypedFilters {
  import opened ByteStrings
  import opened WireValues
  import opened OrderKeys
  import opened Normalize
  import opened Filters
  import opened IndexedValues

  /** The literal is in the wire subset, and the field takes it as it is: a system id of the table, a number for the
      creation time, or what the field's validator accepts, except a null that its type does not name. */
  ghost predicate Comparable(c: Checks, t: Table, path: Bytes, value: Wire) {
    if path == ID_FIELD then value.WStr? && t.env.Authentic(value.text, t.name)
    else if path == CREATED_FIELD then value.WNum?
    else
      && t.ValidatorOf(path).Some? && Norm(c, map[], t.ValidatorOf(path).value, Some(value), 0) == Present(value)
      && Keyable(t.ValidatorOf(path).value, value)
  }

  /** The field is declared. */
  predicate Declared(t: Table, path: Bytes) { t.ValidatorOf(path).Some? && path != ID_FIELD && path != CREATED_FIELD }

  /** The field is declared and some token of the table is taken as an id there. */
  ghost predicate TakesOwnIds(t: Table, path: Bytes) {
    Declared(t, path) && exists s :: ReadsId(t.env, t.ValidatorOf(path).value, s) && t.env.target(s).Some? && t.env.target(s).value.0 == t.name
  }

  ghost predicate WellTyped(c: Checks, t: Table, e: Expr) {
    match e
    case Comparison(_, Literal(a), Literal(b)) => WireOK(a, 0) && WireOK(b, 0)
    case Comparison(_, Field(p), Literal(b)) => Comparable(c, t, p, b)
    case Comparison(_, Literal(a), Field(p)) => Comparable(c, t, p, a)
    case Comparison(_, Field(p), Field(q)) =>
      || (p == q && (p == ID_FIELD || p == CREATED_FIELD))
      || (Declared(t, p) && Declared(t, q))
      || (p == ID_FIELD && TakesOwnIds(t, q)) || (q == ID_FIELD && TakesOwnIds(t, p))
    case And(args) => |args| >= 2 && forall i | 0 <= i < |args| :: WellTyped(c, t, args[i])
    case Or(args) => |args| >= 2 && forall i | 0 <= i < |args| :: WellTyped(c, t, args[i])
    case Not(arg) => WellTyped(c, t, arg)
  }

  /** A token that a validator reads as an id is of a table that it targets. */
  lemma {:induction false} IdsReadAreTargets(env: Env, v: Validator, s: Bytes)
    requires ReadsId(env, v, s) && env.target(s).Some?
    ensures env.target(s).value.0 in IdTargets(v)
    decreases v
  {
    match v
    case VOptional(inner) => IdsReadAreTargets(env, inner, s);
    case VDefaulted(inner, _) => IdsReadAreTargets(env, inner, s);
    case VUnion(branches) =>
      if i :| 0 <= i < |branches| && IdTable(branches[i]).Some? && env.Authentic(s, IdTable(branches[i]).value) {
        IdTableIsTarget(branches[i]);
      } else {
        var i :| 0 <= i < |branches| && FirstAccepting(env, branches, WStr(s), i) && ReadsId(env, branches[i], s);
        IdsReadAreTargets(env, branches[i], s);
      }
    case _ =>
  }

  lemma {:induction false} IdTableIsTarget(v: Validator)
    requires IdTable(v).Some?
    ensures IdTable(v).value in IdTargets(v)
    decreases v
  {
    if v.VOptional? || v.VDefaulted? { IdTableIsTarget(v.inner); }
  }

  /** And every authentic token of a table that it targets has a key there. */
  lemma {:induction false} TargetsTakeTheirIds(env: Env, v: Validator, table: Bytes, s: Bytes)
    requires table in IdTargets(v) && env.Authentic(s, table)
    ensures PresentKey(env, v, WStr(s)).Some?
    decreases v
  {
    match v
    case VOptional(inner) => TargetsTakeTheirIds(env, inner, table, s);
    case VDefaulted(inner, _) => TargetsTakeTheirIds(env, inner, table, s);
    case VUnion(branches) =>
      var i :| 0 <= i < |branches| && table in IdTargets(branches[i]);
      TargetsTakeTheirIds(env, branches[i], table, s);
      BranchKey(env, branches, WStr(s), i);
    case _ =>
  }

  lemma ComparableFits(c: Checks, t: Table, path: Bytes, value: Wire)
    requires t.Valid() && SameIds(c, t.env) && Comparable(c, t, path, value)
    ensures LiteralFits(t, path, value)
  {
    if path != ID_FIELD && path != CREATED_FIELD {
      AcceptedHasOrderKey(c, t.env, map[], t.ValidatorOf(path).value, Some(value), 0);
    }
  }

  lemma OwnIdsFit(t: Table, path: Bytes)
    requires TakesOwnIds(t, path)
    ensures AdmitsOwnId(t, path)
  {
    var s :| ReadsId(t.env, t.ValidatorOf(path).value, s) && t.env.target(s).Some? && t.env.target(s).value.0 == t.name;
    IdsReadAreTargets(t.env, t.ValidatorOf(path).value, s);
  }

  lemma SidesFit(c: Checks, t: Table, op: Op, left: Side, right: Side)
    requires t.Valid() && SameIds(c, t.env) && WellTyped(c, t, Comparison(op, left, right))
    ensures Compiles(t, Comparison(op, left, right))
  {
    match (left, right)
    case (Literal(a), Literal(b)) =>
      WireValuesHaveKeys(t.env, a, 0);
      WireValuesHaveKeys(t.env, b, 0);
    case (Field(p), Literal(b)) => ComparableFits(c, t, p, b);
    case (Literal(a), Field(p)) => ComparableFits(c, t, p, a);
    case (Field(p), Field(q)) =>
      if p == ID_FIELD && TakesOwnIds(t, q) { OwnIdsFit(t, q); }
      if q == ID_FIELD && TakesOwnIds(t, p) { OwnIdsFit(t, p); }
  }

  /** Every well-typed filter compiles. */
  lemma {:induction false} WellTypedFiltersCompile(c: Checks, t: Table, e: Expr)
    requires t.Valid() && SameIds(c, t.env) && WellTyped(c, t, e)
    ensures Compiles(t, e)
    decreases e
  {
    match e
    case Comparison(op, left, right) => SidesFit(c, t, op, left, right);
    case And(args) => forall i | 0 <= i < |args| ensures Compiles(t, args[i]) { WellTypedFiltersCompile(c, t, args[i]); }
    case Or(args) => forall i | 0 <= i < |args| ensures Compiles(t, args[i]) { WellTypedFiltersCompile(c, t, args[i]); }
    case Not(arg) => WellTypedFiltersCompile(c, t, arg);
  }
}
