/** Index ranges: the builder that withIndex hands to its callback, and the predicate its bounds compile to. */
module IndexRanges {
  import opened ByteStrings
  import opened WireValues
  import opened OrderKeys
  import opened Projection
  import opened Filters

  datatype Bound = Bound(field: Bytes, op: Op, value: Wire) {
    function Comparison(): Expr { Expr.Comparison(op, Field(field), Literal(value)) }
  }

  /** A compiled bound carries the key of its value. */
  datatype KeyedBound = KeyedBound(field: Bytes, op: Op, key: Bytes)

  /** The callback's possible failures. */
  datatype Answer = Accepted | FieldOrder | BadValue | EqualityAfterRange | DuplicateLower | DuplicateUpper

  predicate IsLower(op: Op) { op.Gt? || op.Gte? }

  predicate IsUpper(op: Op) { op.Lt? || op.Lte? }

  /** Equalities on the first k index fields, then only range bounds, all on field k. */
  predicate Shaped(fields: seq<Bytes>, bounds: seq<KeyedBound>, k: nat) {
    && k <= |bounds| && k <= |fields|
    && (forall i | 0 <= i < k :: bounds[i].op == Eq && bounds[i].field == fields[i])
    && (k < |bounds| ==> k < |fields|)
    && (forall i | k <= i < |bounds| :: (IsLower(bounds[i].op) || IsUpper(bounds[i].op)) && bounds[i].field == fields[k])
  }

  predicate WellShaped(fields: seq<Bytes>, bounds: seq<KeyedBound>) {
    exists k: nat | k <= |bounds| :: Shaped(fields, bounds, k)
  }

  /** The fields of a declared index. */
  predicate DeclaredIndex(t: Table, fields: seq<Bytes>) {
    forall f | f in fields :: f != ID_FIELD && f != CREATED_FIELD
      && t.ValidatorOf(f).Some? && Indexable(t.ValidatorOf(f).value)
  }

  function Comparisons(bounds: seq<Bound>): (r: seq<Expr>)
    ensures |r| == |bounds|
  {
    seq(|bounds|, i requires 0 <= i < |bounds| => bounds[i].Comparison())
  }

  class IndexRange {
    const env: Env
    const fields: seq<Bytes>
    var pos: nat
    var rangeField: Option<Bytes>
    var equal: seq<Bound>
    var lower: Option<Bound>
    var upper: Option<Bound>

    ghost predicate Valid()
      reads this
    {
      && pos == |equal| <= |fields|
      && (forall i | 0 <= i < pos :: equal[i].op == Eq && equal[i].field == fields[i])
      && (rangeField.Some? ==> pos < |fields| && rangeField.value == fields[pos])
      && (lower.Some? ==> rangeField == Some(lower.value.field) && IsLower(lower.value.op))
      && (upper.Some? ==> rangeField == Some(upper.value.field) && IsUpper(upper.value.op))
    }

    constructor (env: Env, fields: seq<Bytes>)
      ensures Valid() && this.env == env && this.fields == fields && Bounds() == []
    {
      this.env, this.fields := env, fields;
      pos, rangeField, equal, lower, upper := 0, None, [], None, None;
    }

    /** Equalities, then the lower and the upper bound. */
    function Bounds(): seq<Bound>
      reads this
    {
      equal + (if lower.Some? then [lower.value] else []) + (if upper.Some? then [upper.value] else [])
    }

    /** One call on the builder. A refused call changes no bound; an accepted one adds exactly its own.
        The source's refusal of a second range field cannot be reached. */
    method Call(op: Op, field: Bytes, value: Wire) returns (answer: Answer)
      requires Valid() && !op.Neq?
      modifies this
      ensures Valid()
      ensures answer == Accepted <==>
        && old(pos) < |fields| && field == fields[old(pos)] && GenericPresentKey(env, value).Some?
        && (op.Eq? ==> old(rangeField).None?)
        && (IsLower(op) ==> old(lower).None?)
        && (IsUpper(op) ==> old(upper).None?)
      ensures answer != Accepted ==> pos == old(pos) && equal == old(equal) && lower == old(lower) && upper == old(upper)
      ensures answer == Accepted ==> var e := Bound(field, op, value);
        && equal == old(equal) + (if op.Eq? then [e] else [])
        && lower == (if IsLower(op) then Some(e) else old(lower))
        && upper == (if IsUpper(op) then Some(e) else old(upper))
    {
      if pos >= |fields| || field != fields[pos] { return FieldOrder; }
      if GenericPresentKey(env, value).None? { return BadValue; }
      var e := Bound(field, op, value);
      if op.Eq? {
        if rangeField.Some? { return EqualityAfterRange; }
        equal := equal + [e];
        pos := pos + 1;
      } else {
        if rangeField.None? {
          rangeField := Some(field);
        } else if rangeField.value != field {
          assert false;
        }
        if IsLower(op) {
          if lower.Some? { return DuplicateLower; }
          lower := Some(e);
        } else {
          if upper.Some? { return DuplicateUpper; }
          upper := Some(e);
        }
      }
      answer := Accepted;
    }
  }

  predicate HasKey(t: Table, b: Bound) {
    t.ValidatorOf(b.field).Some? && PresentKey(t.env, t.ValidatorOf(b.field).value, b.value).Some?
  }

  /** The bounds with their keys; None when some value has no key under its field's validator. */
  method KeyBounds(t: Table, bounds: seq<Bound>) returns (r: Option<seq<KeyedBound>>)
    ensures r.Some? <==> forall b | b in bounds :: HasKey(t, b)
    ensures r.Some? ==> Keyed(t, bounds, r.value)
  {
    var out: seq<KeyedBound> := [];
    for i := 0 to |bounds|
      invariant |out| == i && Keyed(t, bounds[..i], out)
      invariant forall b | b in bounds[..i] :: HasKey(t, b)
    {
      var b := bounds[i];
      if !HasKey(t, b) { return None; }
      out := out + [KeyedBound(b.field, b.op, PresentKey(t.env, t.ValidatorOf(b.field).value, b.value).value)];
      assert bounds[..i + 1] == bounds[..i] + [b];
    }
    assert bounds[..|bounds|] == bounds;
    r := Some(out);
  }

  predicate Keyed(t: Table, bounds: seq<Bound>, keyed: seq<KeyedBound>) {
    && |keyed| == |bounds|
    && forall i | 0 <= i < |bounds| ::
      && keyed[i].field == bounds[i].field && keyed[i].op == bounds[i].op
      && t.ValidatorOf(bounds[i].field).Some?
      && PresentKey(t.env, t.ValidatorOf(bounds[i].field).value, bounds[i].value) == Some(keyed[i].key)
  }

  /** The compiler's own check of the bounds accepts exactly the well-shaped ones, whoever made them.
      The i-th bound compares its order column with the i-th placeholder. */
  method IndexExpression(fields: seq<Bytes>, bounds: seq<KeyedBound>) returns (r: Option<(seq<Sql>, Params)>)
    ensures r.Some? <==> WellShaped(fields, bounds)
    ensures r.Some? ==>
      && |r.value.0| == |bounds|
      && (forall i | 0 <= i < |bounds| ::
            && r.value.0[i] == Compare(OrderColumn(bounds[i].field), bounds[i].op, Slot(i))
            && i in r.value.1 && r.value.1[i] == SqlText(bounds[i].key))
      && (forall n: nat :: n in r.value.1 <==> n < |bounds|)
  {
    var params: Params, terms: seq<Sql> := map[], [];
    var pos: nat := 0;
    var rangeField: Option<Bytes> := None;
    for i := 0 to |bounds|
      invariant |terms| == i && Shaped(fields, bounds[..i], pos)
      invariant rangeField == if pos < i then Some(fields[pos]) else None
      invariant forall j | 0 <= j < i ::
        && terms[j] == Compare(OrderColumn(bounds[j].field), bounds[j].op, Slot(j))
        && j in params && params[j] == SqlText(bounds[j].key)
      invariant forall n: nat :: n in params <==> n < i
    {
      var bound := bounds[i];
      if pos >= |fields| || bound.field != fields[pos] || bound.op.Neq?
        || (rangeField.Some? && (bound.op.Eq? || rangeField.value != bound.field))
      {
        Misshapen(fields, bounds, i, pos);
        return None;
      }
      if bound.op.Eq? { pos := pos + 1; } else { rangeField := Some(bound.field); }
      params := params[i := SqlText(bound.key)];
      terms := terms + [Compare(OrderColumn(bound.field), bound.op, Slot(i))];
    }
    assert bounds[..|bounds|] == bounds;
    r := Some((terms, params));
  }

  /** A bound that cannot follow the ones before it spoils the whole list. */
  lemma Misshapen(fields: seq<Bytes>, bounds: seq<KeyedBound>, i: nat, pos: nat)
    requires i < |bounds| && Shaped(fields, bounds[..i], pos)
    requires pos >= |fields| || bounds[i].field != fields[pos] || bounds[i].op.Neq? || (bounds[i].op.Eq? && pos < i)
    ensures !WellShaped(fields, bounds)
  {
    forall k: nat | k <= |bounds| ensures !Shaped(fields, bounds, k) { MisshapenAt(fields, bounds, i, pos, k); }
  }

  lemma MisshapenAt(fields: seq<Bytes>, bounds: seq<KeyedBound>, i: nat, pos: nat, k: nat)
    requires i < |bounds| && Shaped(fields, bounds[..i], pos) && k <= |bounds|
    requires pos >= |fields| || bounds[i].field != fields[pos] || bounds[i].op.Neq? || (bounds[i].op.Eq? && pos < i)
    ensures !Shaped(fields, bounds, k)
  {
    if k < pos {
      assert bounds[k] == bounds[..i][k];
    } else if pos < i {
      assert bounds[pos] == bounds[..i][pos];
    }
  }

  /** What the builder collects is what the compiler accepts. */
  lemma BuiltRangesCompile(r: IndexRange, t: Table, keyed: seq<KeyedBound>)
    requires r.Valid() && Keyed(t, r.Bounds(), keyed)
    ensures WellShaped(r.fields, keyed)
  {
    assert Shaped(r.fields, keyed, r.pos) by {
      var bounds := r.Bounds();
      forall i | 0 <= i < r.pos ensures bounds[i] == r.equal[i] {}
      forall i | r.pos <= i < |bounds| ensures bounds[i] == (if i == r.pos && r.lower.Some? then r.lower.value else r.upper.value)
        && (i == r.pos && r.lower.None? ==> r.upper.Some?) && (i > r.pos ==> r.upper.Some?) {}
    }
  }

  /** A finished range as a predicate. Whatever calls the callback made, the compiler's defensive errors
      do not occur: the range fails only when it is empty or a value has no key under its field's
      validator. Otherwise the predicate is never NULL and selects the documents that meet every bound. */
  method CompileRange(t: Table, r: IndexRange) returns (out: Option<(Sql, Params)>)
    requires t.Valid() && r.Valid() && DeclaredIndex(t, r.fields)
    ensures out.Some? <==> r.Bounds() != [] && forall b | b in r.Bounds() :: LiteralFits(t, b.field, b.value)
    ensures out.Some? ==> forall doc, row | t.Stores(row, doc) ::
      Eval(out.value.0, out.value.1, row) == TruthOf(forall b | b in r.Bounds() :: FieldAgainst(t, doc, b.field, b.op, b.value))
  {
    var bounds := r.Bounds();
    BoundFields(t, r);
    if bounds == [] { return None; }
    var keyed := KeyBounds(t, bounds);
    if keyed.None? { return None; }
    BuiltRangesCompile(r, t, keyed.value);
    var compiled := IndexExpression(r.fields, keyed.value);
    var (terms, params) := compiled.value;
    forall i | 0 <= i < |bounds| ensures Means(t, terms[i], params, Comparisons(bounds)[i]) {
      assert bounds[i] in bounds;
      FieldLiteralMeans(t, bounds[i].field, bounds[i].op, bounds[i].value, i, params);
    }
    ConnectiveMeans(t, terms, params, Comparisons(bounds));
    RangeMeans(t, All(terms), params, bounds);
    out := Some((All(terms), params));
  }

  lemma BoundFields(t: Table, r: IndexRange)
    requires r.Valid() && DeclaredIndex(t, r.fields)
    ensures forall b | b in r.Bounds() ::
      b.field in r.fields && t.ValidatorOf(b.field).Some? && b.field != ID_FIELD && b.field != CREATED_FIELD
  {
    forall b | b in r.Bounds() ensures b.field in r.fields {
      if b in r.equal {
        var i :| 0 <= i < |r.equal| && r.equal[i] == b;
      }
    }
  }

  lemma RangeMeans(t: Table, sql: Sql, params: Params, bounds: seq<Bound>)
    requires Means(t, sql, params, And(Comparisons(bounds)))
    ensures forall doc, row | t.Stores(row, doc) ::
      Eval(sql, params, row) == TruthOf(forall b | b in bounds :: FieldAgainst(t, doc, b.field, b.op, b.value))
  {
    forall doc, row | t.Stores(row, doc)
      ensures Eval(sql, params, row) == TruthOf(forall b | b in bounds :: FieldAgainst(t, doc, b.field, b.op, b.value))
    {
      var args := Comparisons(bounds);
      assert Eval(sql, params, row) == TruthOf(Holds(t, And(args), doc));
      assert forall i | 0 <= i < |bounds| ::
        Holds(t, args[i], doc) <==> FieldAgainst(t, doc, bounds[i].field, bounds[i].op, bounds[i].value);
      if b :| b in bounds && !FieldAgainst(t, doc, b.field, b.op, b.value) {
        var i :| 0 <= i < |bounds| && bounds[i] == b;
        assert !Holds(t, args[i], doc);
      }
    }
  }
}
