/** The filter compiler: comparisons of fields and literals become comparisons of stored order keys.
    SQL is a small tree with SQLite's three-valued logic. */
module Filters {
  import opened ByteStrings
  import opened WireValues
  import opened OrderKeys
  import opened Projection

  datatype Op = Eq | Neq | Lt | Lte | Gt | Gte {
    /** The operator with its sides exchanged. */
    function Reversed(): Op {
      match this
      case Lt => Gt case Lte => Gte case Gt => Lt case Gte => Lte
      case _ => this
    }

    predicate IsEquality() { Eq? || Neq? }
  }

  datatype Side = Field(path: Bytes) | Literal(value: Wire)

  datatype Expr =
    | Comparison(op: Op, left: Side, right: Side)
    | And(args: seq<Expr>)
    | Or(args: seq<Expr>)
    | Not(arg: Expr)

  const ID_FIELD: Bytes := [95, 105, 100]  // "_id"
  const CREATED_FIELD: Bytes := [95, 99, 114, 101, 97, 116, 105, 111, 110, 84, 105, 109, 101]  // "_creationTime"

  // ----- SQL

  datatype Term = OrderColumn(path: Bytes) | EqualityColumn(path: Bytes) | IdColumn(table: Bytes) | CreatedColumn | Slot(n: nat)

  datatype Sql =
    | Compare(left: Term, op: Op, right: Term)
    | Always | Never
    | All(parts: seq<Sql>)
    | Any(parts: seq<Sql>)
    | Complement(part: Sql)

  /** Creation times are exact numbers in the unit of OrderKeys.Scaled. */
  datatype SqlValue = SqlNull | SqlText(text: Bytes) | SqlNumber(scaled: int)

  type Params = map<nat, SqlValue>

  /** A stored record: raw id, creation time, and the order projection written with the document. */
  datatype Row = Row(id: Bytes, created: int, order: map<Bytes, Bytes>)

  datatype Truth = Yes | No | Unknown

  function TruthOf(b: bool): Truth {
    if b then Yes else No
  }

  function Lookup(m: map<Bytes, Bytes>, k: Bytes): SqlValue {
    if k in m then SqlText(m[k]) else SqlNull
  }

  function EvalTerm(t: Term, params: Params, row: Row): SqlValue {
    match t
    case OrderColumn(p) => Lookup(row.order, p)
    case EqualityColumn(p) => Lookup(row.order, EqualityEntry(p))
    case IdColumn(table) => SqlText(OpaqueIdKey(table, []) + Hex(row.id))
    case CreatedColumn => SqlNumber(row.created)
    case Slot(n) => if n in params then params[n] else SqlNull
  }

  predicate SqlLess(a: SqlValue, b: SqlValue) {
    match (a, b)
    case (SqlNumber(m), SqlNumber(n)) => m < n
    case (SqlNumber(_), SqlText(_)) => true
    case (SqlText(s), SqlText(t)) => Less(s, t)
    case _ => false
  }

  /** The outcome of an operator on two ordered things. */
  function Decide(op: Op, less: bool, same: bool, greater: bool): bool {
    match op
    case Eq => same
    case Neq => !same
    case Lt => less
    case Lte => less || same
    case Gt => greater
    case Gte => greater || same
  }

  function EvalCompare(op: Op, a: SqlValue, b: SqlValue): Truth {
    if a == SqlNull || b == SqlNull then Unknown
    else TruthOf(Decide(op, SqlLess(a, b), a == b, SqlLess(b, a)))
  }

  /** SQLite's truth of a predicate on a row. */
  function Eval(sql: Sql, params: Params, row: Row): Truth {
    match sql
    case Compare(l, op, r) => EvalCompare(op, EvalTerm(l, params, row), EvalTerm(r, params, row))
    case Always => Yes
    case Never => No
    case All(parts) =>
      if exists i | 0 <= i < |parts| :: Eval(parts[i], params, row) == No then No
      else if exists i | 0 <= i < |parts| :: Eval(parts[i], params, row) == Unknown then Unknown
      else Yes
    case Any(parts) =>
      if exists i | 0 <= i < |parts| :: Eval(parts[i], params, row) == Yes then Yes
      else if exists i | 0 <= i < |parts| :: Eval(parts[i], params, row) == Unknown then Unknown
      else No
    case Complement(part) =>
      match Eval(part, params, row)
      case Yes => No
      case No => Yes
      case Unknown => Unknown
  }

  function TermSlots(t: Term): seq<nat> {
    if t.Slot? then [t.n] else []
  }

  /** The placeholders of a predicate from left to right. */
  function Slots(sql: Sql): seq<nat> {
    match sql
    case Compare(l, _, r) => TermSlots(l) + TermSlots(r)
    case All(parts) => AllSlots(parts)
    case Any(parts) => AllSlots(parts)
    case Complement(part) => Slots(part)
    case _ => []
  }

  function AllSlots(parts: seq<Sql>): seq<nat> {
    if parts == [] then [] else Slots(parts[0]) + AllSlots(parts[1..])
  }

  // ----- protocol meaning

  /** A document with its raw id and creation time. */
  datatype Doc = Doc(id: Bytes, created: int, fields: Wire)

  /** The table a filter runs over. */
  datatype Table = Table(env: Env, name: Bytes, fields: map<Bytes, Validator>) {

    function ValidatorOf(path: Bytes): Option<Validator> {
      FieldValidator(fields, path)
    }

    function FieldValue(doc: Doc, path: Bytes): Option<Wire> {
      Walk(Some(doc.fields), Split(path))
    }

    function FieldMeaning(doc: Doc, path: Bytes): Meaning {
      match ValidatorOf(path)
      case None => Missing
      case Some(v) => MeaningOf(env, v, FieldValue(doc, path))
    }

    /** The row that a write of the document stores. */
    ghost predicate Stores(row: Row, doc: Doc) {
      && row.id == doc.id && row.created == doc.created
      && forall path | ValidatorOf(path).Some? ::
           Entry(env, row.order, path, ValidatorOf(path).value, FieldValue(doc, path))
    }

    ghost predicate Valid() {
      env.Valid() && 0 !in name && name != []
    }
  }

  function Ordered(op: Op, a: Meaning, b: Meaning): bool {
    Decide(op, Before(a, b), a == b, Before(b, a))
  }

  /** The protocol outcome of comparing a field with a literal: the literal is read as the field's
      validator reads it. */
  predicate FieldAgainst(t: Table, doc: Doc, path: Bytes, op: Op, value: Wire) {
    if path == ID_FIELD then
      value.WStr? && t.env.target(value.text).Some?
      && Ordered(op, Id(t.name, doc.id), Id(t.env.target(value.text).value.0, t.env.target(value.text).value.1))
    else if path == CREATED_FIELD then
      value.WNum? && Decide(op, doc.created < Scaled(value.number), doc.created == Scaled(value.number),
                            Scaled(value.number) < doc.created)
    else match t.ValidatorOf(path)
      case None => false
      case Some(v) => Ordered(op, t.FieldMeaning(doc, path), MeaningOf(t.env, v, Some(value)))
  }

  /** The same with the literal on the left: the operator applies to the literal and then the field. */
  predicate LiteralAgainst(t: Table, doc: Doc, op: Op, value: Wire, path: Bytes) {
    if path == ID_FIELD then
      value.WStr? && t.env.target(value.text).Some?
      && Ordered(op, Id(t.env.target(value.text).value.0, t.env.target(value.text).value.1), Id(t.name, doc.id))
    else if path == CREATED_FIELD then
      value.WNum? && Decide(op, Scaled(value.number) < doc.created, Scaled(value.number) == doc.created,
                            doc.created < Scaled(value.number))
    else match t.ValidatorOf(path)
      case None => false
      case Some(v) => Ordered(op, MeaningOf(t.env, v, Some(value)), t.FieldMeaning(doc, path))
  }

  /** The six operators are the comparisons of an exact order. */
  lemma OperatorsCompare(op: Op, x: int, y: int)
    ensures Decide(op, x < y, x == y, y < x) <==>
      match op
      case Eq => x == y
      case Neq => x != y
      case Lt => x < y
      case Lte => x <= y
      case Gt => x > y
      case Gte => x >= y
  {
  }

  /** The reversed operator compares the sides the other way round. */
  lemma ReversedExchanges(op: Op, a: Meaning, b: Meaning)
    ensures Ordered(op.Reversed(), a, b) == Ordered(op, b, a)
  {
  }

  function SystemMeaning(t: Table, doc: Doc, path: Bytes): Meaning {
    if path == ID_FIELD then Id(t.name, doc.id) else t.FieldMeaning(doc, path)
  }

  /** Two fields: equality is of wire values, order is of protocol meanings, and the system id
      compares as the record it names. */
  predicate FieldAgainstField(t: Table, doc: Doc, op: Op, left: Bytes, right: Bytes) {
    if left == CREATED_FIELD && right == CREATED_FIELD then Decide(op, false, true, false)
    else if left == ID_FIELD || right == ID_FIELD || (op != Eq && op != Neq) then
      Ordered(op, SystemMeaning(t, doc, left), SystemMeaning(t, doc, right))
    else
      SameOption(t.FieldValue(doc, left), t.FieldValue(doc, right)) == (op == Eq)
  }

  /** Two literals: equality is of wire values, order is of their own types. */
  predicate LiteralAgainstLiteral(env: Env, op: Op, a: Wire, b: Wire) {
    if op == Eq || op == Neq then Same(a, b) == (op == Eq)
    else Ordered(op, Plain(env, Some(a)), Plain(env, Some(b)))
  }

  /** What a filter says about a document. */
  predicate Holds(t: Table, e: Expr, doc: Doc) {
    match e
    case Comparison(op, Literal(a), Literal(b)) => LiteralAgainstLiteral(t.env, op, a, b)
    case Comparison(op, Field(p), Literal(b)) => FieldAgainst(t, doc, p, op, b)
    case Comparison(op, Literal(a), Field(p)) => LiteralAgainst(t, doc, op, a, p)
    case Comparison(op, Field(p), Field(q)) => FieldAgainstField(t, doc, op, p, q)
    case And(args) => forall i | 0 <= i < |args| :: Holds(t, args[i], doc)
    case Or(args) => exists i | 0 <= i < |args| :: Holds(t, args[i], doc)
    case Not(arg) => !Holds(t, arg, doc)
  }

  // ----- which filters compile

  /** The tables whose ids a validator admits. */
  function IdTargets(v: Validator): set<Bytes> {
    match v
    case VOptional(c) => IdTargets(c)
    case VDefaulted(c, _) => IdTargets(c)
    case VId(t) => {t}
    case VUnion(bs) => set i, t | 0 <= i < |bs| && t in IdTargets(bs[i]) :: t
    case _ => {}
  }

  predicate LiteralFits(t: Table, path: Bytes, value: Wire) {
    if path == ID_FIELD then value.WStr? && t.env.Authentic(value.text, t.name)
    else if path == CREATED_FIELD then value.WNum?
    else t.ValidatorOf(path).Some? && PresentKey(t.env, t.ValidatorOf(path).value, value).Some?
  }

  predicate AdmitsOwnId(t: Table, path: Bytes) {
    t.ValidatorOf(path).Some? && t.name in IdTargets(t.ValidatorOf(path).value)
  }

  predicate FieldsFit(t: Table, left: Bytes, right: Bytes) {
    if left == right && (left == ID_FIELD || left == CREATED_FIELD) then true
    else if left == ID_FIELD then AdmitsOwnId(t, right)
    else if right == ID_FIELD then AdmitsOwnId(t, left)
    else left != CREATED_FIELD && right != CREATED_FIELD
         && t.ValidatorOf(left).Some? && t.ValidatorOf(right).Some?
  }

  predicate LiteralsFit(env: Env, op: Op, a: Wire, b: Wire) {
    op.IsEquality() || (GenericPresentKey(env, a).Some? && GenericPresentKey(env, b).Some?)
  }

  predicate Compiles(t: Table, e: Expr) {
    match e
    case Comparison(op, Literal(a), Literal(b)) => LiteralsFit(t.env, op, a, b)
    case Comparison(op, Field(p), Literal(b)) => LiteralFits(t, p, b)
    case Comparison(op, Literal(a), Field(p)) => LiteralFits(t, p, a)
    case Comparison(op, Field(p), Field(q)) => FieldsFit(t, p, q)
    case And(args) => |args| >= 2 && forall i | 0 <= i < |args| :: Compiles(t, args[i])
    case Or(args) => |args| >= 2 && forall i | 0 <= i < |args| :: Compiles(t, args[i])
    case Not(arg) => Compiles(t, arg)
  }

  // ----- the compiler

  predicate Extends(was: Params, now: Params) {
    forall n | n in was :: n in now && now[n] == was[n]
  }

  /** On every stored document the predicate is true or false, and true exactly when the filter holds,
      whatever further parameters are bound. */
  ghost predicate Means(t: Table, sql: Sql, params: Params, e: Expr) {
    forall bound: Params, doc: Doc, row: Row | Extends(params, bound) && t.Stores(row, doc) ::
      Eval(sql, bound, row) == TruthOf(Holds(t, e, doc))
  }

  lemma MeansExtended(t: Table, sql: Sql, was: Params, now: Params, e: Expr)
    requires Means(t, sql, was, e) && Extends(was, now)
    ensures Means(t, sql, now, e)
  {
    forall bound: Params, doc: Doc, row: Row | Extends(now, bound) && t.Stores(row, doc)
      ensures Eval(sql, bound, row) == TruthOf(Holds(t, e, doc))
    {
    }
  }

  /** The stored system id key is the id key of the record. */
  lemma IdColumnKey(table: Bytes, raw: Bytes)
    ensures OpaqueIdKey(table, []) + Hex(raw) == OpaqueIdKey(table, raw)
  {
    HexConcat(table + [0] + [], raw);
    assert table + [0] + [] + raw == table + [0] + raw;
  }

  /** Comparing keys compares meanings. */
  lemma CompareKeys(a: Meaning, b: Meaning, op: Op)
    requires WellFormed(a) && WellFormed(b)
    ensures EvalCompare(op, SqlText(Encode(a)), SqlText(Encode(b))) == TruthOf(Ordered(op, a, b))
  {
    EncodeKeepsOrder(a, b);
    EncodeKeepsOrder(b, a);
  }

  lemma StoredKey(t: Table, row: Row, doc: Doc, path: Bytes)
    requires t.Valid() && t.Stores(row, doc) && t.ValidatorOf(path).Some?
    ensures Lookup(row.order, path) == SqlText(Encode(t.FieldMeaning(doc, path)))
    ensures WellFormed(t.FieldMeaning(doc, path))
  {
    var v, x := t.ValidatorOf(path).value, t.FieldValue(doc, path);
    assert Entry(t.env, row.order, path, v, x);
    if x.Some? { KeyMeans(t.env, v, x.value); }
    MeaningWellFormed(t.env, v, x);
  }

  lemma StoredEquality(t: Table, row: Row, doc: Doc, p: Bytes, q: Bytes)
    requires t.Valid() && t.Stores(row, doc) && t.ValidatorOf(p).Some? && t.ValidatorOf(q).Some?
    ensures EqualityEntry(p) in row.order && EqualityEntry(q) in row.order
    ensures row.order[EqualityEntry(p)] == row.order[EqualityEntry(q)]
      <==> SameOption(t.FieldValue(doc, p), t.FieldValue(doc, q))
  {
    assert Entry(t.env, row.order, p, t.ValidatorOf(p).value, t.FieldValue(doc, p));
    assert Entry(t.env, row.order, q, t.ValidatorOf(q).value, t.FieldValue(doc, q));
    GenericKeysCompareValues(t.env, t.FieldValue(doc, p), t.FieldValue(doc, q));
  }

  lemma FieldLiteralMeans(t: Table, path: Bytes, op: Op, value: Wire, n: nat, params: Params)
    requires t.Valid() && path != ID_FIELD && path != CREATED_FIELD && LiteralFits(t, path, value)
    requires n in params && params[n] == SqlText(PresentKey(t.env, t.ValidatorOf(path).value, value).value)
    ensures Means(t, Compare(OrderColumn(path), op, Slot(n)), params, Comparison(op, Field(path), Literal(value)))
  {
    var v := t.ValidatorOf(path).value;
    KeyMeans(t.env, v, value);
    MeaningWellFormed(t.env, v, Some(value));
    forall bound: Params, doc: Doc, row: Row | Extends(params, bound) && t.Stores(row, doc)
      ensures Eval(Compare(OrderColumn(path), op, Slot(n)), bound, row)
        == TruthOf(Holds(t, Comparison(op, Field(path), Literal(value)), doc))
    {
      StoredKey(t, row, doc, path);
      CompareKeys(t.FieldMeaning(doc, path), MeaningOf(t.env, v, Some(value)), op);
    }
  }

  lemma IdLiteralMeans(t: Table, op: Op, value: Wire, n: nat, params: Params)
    requires t.Valid() && LiteralFits(t, ID_FIELD, value)
    requires n in params && params[n] == SqlText(OpaqueIdKey(t.name, t.env.target(value.text).value.1))
    ensures Means(t, Compare(IdColumn(t.name), op, Slot(n)), params, Comparison(op, Field(ID_FIELD), Literal(value)))
  {
    var raw := t.env.target(value.text).value.1;
    forall bound: Params, doc: Doc, row: Row | Extends(params, bound) && t.Stores(row, doc)
      ensures Eval(Compare(IdColumn(t.name), op, Slot(n)), bound, row)
        == TruthOf(Holds(t, Comparison(op, Field(ID_FIELD), Literal(value)), doc))
    {
      IdColumnKey(t.name, row.id);
      CompareKeys(Id(t.name, doc.id), Id(t.name, raw), op);
    }
  }

  lemma CreatedLiteralMeans(t: Table, op: Op, value: Wire, n: nat, params: Params)
    requires LiteralFits(t, CREATED_FIELD, value) && CREATED_FIELD != ID_FIELD
    requires n in params && params[n] == SqlNumber(Scaled(value.number))
    ensures Means(t, Compare(CreatedColumn, op, Slot(n)), params, Comparison(op, Field(CREATED_FIELD), Literal(value)))
  {
  }

  lemma ReversedField(t: Table, doc: Doc, path: Bytes, op: Op, value: Wire)
    ensures FieldAgainst(t, doc, path, op.Reversed(), value) == LiteralAgainst(t, doc, op, value, path)
  {
    if path != ID_FIELD && path != CREATED_FIELD && t.ValidatorOf(path).Some? {
      ReversedExchanges(op, t.FieldMeaning(doc, path), MeaningOf(t.env, t.ValidatorOf(path).value, Some(value)));
    }
  }

  /** A literal on the left is the reversed comparison with the literal on the right. */
  lemma LiteralOnTheLeft(t: Table, path: Bytes, op: Op, value: Wire, sql: Sql, params: Params)
    requires Means(t, sql, params, Comparison(op.Reversed(), Field(path), Literal(value)))
    ensures Means(t, sql, params, Comparison(op, Literal(value), Field(path)))
  {
    forall bound: Params, doc: Doc, row: Row | Extends(params, bound) && t.Stores(row, doc)
      ensures Eval(sql, bound, row) == TruthOf(Holds(t, Comparison(op, Literal(value), Field(path)), doc))
    {
      assert Eval(sql, bound, row) == TruthOf(Holds(t, Comparison(op.Reversed(), Field(path), Literal(value)), doc));
      ReversedField(t, doc, path, op, value);
    }
  }

  /** The key column a comparison of fields reads for one side. */
  function KeyColumn(t: Table, path: Bytes): Term {
    if path == ID_FIELD then IdColumn(t.name) else OrderColumn(path)
  }

  lemma KeyColumnMeans(t: Table, path: Bytes, row: Row, doc: Doc, params: Params)
    requires t.Valid() && t.Stores(row, doc) && (path == ID_FIELD || t.ValidatorOf(path).Some?)
    ensures EvalTerm(KeyColumn(t, path), params, row) == SqlText(Encode(SystemMeaning(t, doc, path)))
    ensures WellFormed(SystemMeaning(t, doc, path))
  {
    if path == ID_FIELD { IdColumnKey(t.name, row.id); } else { StoredKey(t, row, doc, path); }
  }

  lemma KeyColumnsMean(t: Table, op: Op, p: Bytes, q: Bytes, params: Params)
    requires t.Valid() && (p == ID_FIELD || q == ID_FIELD || !op.IsEquality())
    requires (p == ID_FIELD || t.ValidatorOf(p).Some?) && (q == ID_FIELD || t.ValidatorOf(q).Some?)
    requires !(p == CREATED_FIELD && q == CREATED_FIELD)
    ensures Means(t, Compare(KeyColumn(t, p), op, KeyColumn(t, q)), params, Comparison(op, Field(p), Field(q)))
  {
    forall bound: Params, doc: Doc, row: Row | Extends(params, bound) && t.Stores(row, doc)
      ensures Eval(Compare(KeyColumn(t, p), op, KeyColumn(t, q)), bound, row)
        == TruthOf(Holds(t, Comparison(op, Field(p), Field(q)), doc))
    {
      KeyColumnMeans(t, p, row, doc, bound);
      KeyColumnMeans(t, q, row, doc, bound);
      CompareKeys(SystemMeaning(t, doc, p), SystemMeaning(t, doc, q), op);
    }
  }

  lemma EqualityColumnsMean(t: Table, op: Op, p: Bytes, q: Bytes, params: Params)
    requires t.Valid() && op.IsEquality() && t.ValidatorOf(p).Some? && t.ValidatorOf(q).Some?
    requires p != ID_FIELD && q != ID_FIELD && p != CREATED_FIELD && q != CREATED_FIELD
    ensures Means(t, Compare(EqualityColumn(p), op, EqualityColumn(q)), params, Comparison(op, Field(p), Field(q)))
  {
    forall bound: Params, doc: Doc, row: Row | Extends(params, bound) && t.Stores(row, doc)
      ensures Eval(Compare(EqualityColumn(p), op, EqualityColumn(q)), bound, row)
        == TruthOf(Holds(t, Comparison(op, Field(p), Field(q)), doc))
    {
      StoredEquality(t, row, doc, p, q);
    }
  }

  /** Literals are decided while compiling. */
  lemma LiteralsDecided(t: Table, op: Op, a: Wire, b: Wire, params: Params)
    requires t.Valid() && LiteralsFit(t.env, op, a, b)
    ensures var matched := if op.IsEquality() then Same(a, b) == (op == Eq)
              else var x, y := GenericPresentKey(t.env, a).value, GenericPresentKey(t.env, b).value;
                Decide(op, Less(x, y), x == y, Less(y, x));
            Means(t, if matched then Always else Never, params, Comparison(op, Literal(a), Literal(b)))
  {
    if !op.IsEquality() {
      assert GenericKey(t.env, Some(a)).Some? && GenericKey(t.env, Some(b)).Some?;
      GenericKeyMeans(t.env, Some(a));
      GenericKeyMeans(t.env, Some(b));
      PlainWellFormed(t.env, Some(a));
      PlainWellFormed(t.env, Some(b));
      EncodeKeepsOrder(Plain(t.env, Some(a)), Plain(t.env, Some(b)));
      EncodeKeepsOrder(Plain(t.env, Some(b)), Plain(t.env, Some(a)));
    }
  }

  ghost predicate AllMean(t: Table, parts: seq<Sql>, params: Params, args: seq<Expr>)
    requires |parts| <= |args|
  {
    forall i | 0 <= i < |parts| :: Means(t, parts[i], params, args[i])
  }

  lemma AllMeanExtended(t: Table, parts: seq<Sql>, was: Params, now: Params, args: seq<Expr>)
    requires |parts| <= |args| && AllMean(t, parts, was, args) && Extends(was, now)
    ensures AllMean(t, parts, now, args)
  {
    forall i | 0 <= i < |parts| ensures Means(t, parts[i], now, args[i]) {
      MeansExtended(t, parts[i], was, now, args[i]);
    }
  }

  lemma PartsEvaluate(t: Table, parts: seq<Sql>, params: Params, args: seq<Expr>, bound: Params, doc: Doc, row: Row)
    requires |parts| == |args| && AllMean(t, parts, params, args) && Extends(params, bound) && t.Stores(row, doc)
    ensures forall i | 0 <= i < |parts| :: Eval(parts[i], bound, row) == TruthOf(Holds(t, args[i], doc))
  {
    forall i | 0 <= i < |parts| ensures Eval(parts[i], bound, row) == TruthOf(Holds(t, args[i], doc)) {
      assert Means(t, parts[i], params, args[i]);
    }
  }

  lemma ConnectiveMeans(t: Table, parts: seq<Sql>, params: Params, args: seq<Expr>)
    requires |parts| == |args| && AllMean(t, parts, params, args)
    ensures Means(t, All(parts), params, And(args)) && Means(t, Any(parts), params, Or(args))
  {
    forall bound: Params, doc: Doc, row: Row | Extends(params, bound) && t.Stores(row, doc)
      ensures Eval(All(parts), bound, row) == TruthOf(Holds(t, And(args), doc))
      ensures Eval(Any(parts), bound, row) == TruthOf(Holds(t, Or(args), doc))
    {
      PartsEvaluate(t, parts, params, args, bound, doc, row);
    }
  }

  lemma ComplementMeans(t: Table, part: Sql, params: Params, arg: Expr)
    requires Means(t, part, params, arg)
    ensures Means(t, Complement(part), params, Not(arg))
  {
    forall bound: Params, doc: Doc, row: Row | Extends(params, bound) && t.Stores(row, doc)
      ensures Eval(Complement(part), bound, row) == TruthOf(Holds(t, Not(arg), doc))
    {
      assert Eval(part, bound, row) == TruthOf(Holds(t, arg, doc));
    }
  }

  lemma {:induction false} AllSlotsAppend(parts: seq<Sql>, part: Sql)
    ensures AllSlots(parts + [part]) == AllSlots(parts) + Slots(part)
  {
    if parts != [] {
      AllSlotsAppend(parts[1..], part);
      assert (parts + [part])[1..] == parts[1..] + [part];
    }
  }

  /** The numbers from lo up to hi. */
  function Range(lo: nat, hi: nat): (r: seq<nat>)
    requires lo <= hi
  {
    seq(hi - lo, i requires 0 <= i < hi - lo => lo + i)
  }

  class FilterCompiler {
    const table: Table
    var params: Params
    var next: nat

    ghost predicate Valid()
      reads this
    {
      table.Valid() && forall n: nat :: n in params <==> n < next
    }

    constructor (table: Table)
      requires table.Valid()
      ensures Valid() && this.table == table && next == 0 && params == map[]
    {
      this.table, params, next := table, map[], 0;
    }

    /** Bind a value to a placeholder no one uses. */
    method Bind(value: SqlValue) returns (slot: Term)
      requires Valid()
      modifies this
      ensures Valid() && next == old(next) + 1 && slot == Slot(old(next))
      ensures params == old(params)[old(next) := value]
    {
      slot := Slot(next);
      params := params[next := value];
      next := next + 1;
    }

    /** A field compared with a literal on the right. */
    method CompareLiteral(path: Bytes, op: Op, value: Wire) returns (r: Option<Sql>)
      requires Valid()
      modifies this
      ensures Valid() && Extends(old(params), params) && old(next) <= next
      ensures r.Some? <==> LiteralFits(table, path, value)
      ensures r.Some? ==> Slots(r.value) == Range(old(next), next)
      ensures r.Some? ==> Means(table, r.value, params, Comparison(op, Field(path), Literal(value)))
    {
      if !LiteralFits(table, path, value) { return None; }
      var slot: Term;
      if path == ID_FIELD {
        slot := Bind(SqlText(OpaqueIdKey(table.name, table.env.target(value.text).value.1)));
        IdLiteralMeans(table, op, value, slot.n, params);
        return Some(Compare(IdColumn(table.name), op, slot));
      } else if path == CREATED_FIELD {
        slot := Bind(SqlNumber(Scaled(value.number)));
        CreatedLiteralMeans(table, op, value, slot.n, params);
        return Some(Compare(CreatedColumn, op, slot));
      }
      slot := Bind(SqlText(PresentKey(table.env, table.ValidatorOf(path).value, value).value));
      FieldLiteralMeans(table, path, op, value, slot.n, params);
      return Some(Compare(OrderColumn(path), op, slot));
    }

    /** Two fields. Nothing is bound. */
    method CompareFields(op: Op, p: Bytes, q: Bytes) returns (r: Option<Sql>)
      requires Valid()
      ensures r.Some? <==> FieldsFit(table, p, q)
      ensures r.Some? ==> Slots(r.value) == []
      ensures r.Some? ==> Means(table, r.value, params, Comparison(op, Field(p), Field(q)))
    {
      if p == CREATED_FIELD && q == CREATED_FIELD {
        return Some(Compare(CreatedColumn, op, CreatedColumn));
      }
      if !FieldsFit(table, p, q) { return None; }
      if p == ID_FIELD || q == ID_FIELD || !op.IsEquality() {
        KeyColumnsMean(table, op, p, q, params);
        return Some(Compare(KeyColumn(table, p), op, KeyColumn(table, q)));
      }
      EqualityColumnsMean(table, op, p, q, params);
      return Some(Compare(EqualityColumn(p), op, EqualityColumn(q)));
    }

    method CompareSides(op: Op, left: Side, right: Side) returns (r: Option<Sql>)
      requires Valid()
      modifies this
      ensures Valid() && Extends(old(params), params) && old(next) <= next
      ensures r.Some? <==> Compiles(table, Comparison(op, left, right))
      ensures r.Some? ==> Slots(r.value) == Range(old(next), next)
      ensures r.Some? ==> Means(table, r.value, params, Comparison(op, left, right))
    {
      match (left, right) {
        case (Literal(a), Literal(b)) =>
          if !LiteralsFit(table.env, op, a, b) { return None; }
          LiteralsDecided(table, op, a, b, params);
          var matched: bool;
          if op.IsEquality() {
            matched := Same(a, b) == (op == Eq);
          } else {
            var x, y := GenericPresentKey(table.env, a).value, GenericPresentKey(table.env, b).value;
            matched := Decide(op, Less(x, y), x == y, Less(y, x));
          }
          r := Some(if matched then Always else Never);
        case (Field(p), Literal(b)) =>
          r := CompareLiteral(p, op, b);
        case (Literal(a), Field(p)) =>
          r := CompareLiteral(p, op.Reversed(), a);
          if r.Some? { LiteralOnTheLeft(table, p, op, a, r.value, params); }
        case (Field(p), Field(q)) =>
          r := CompareFields(op, p, q);
      }
    }

    /** Compile a filter. It compiles exactly when every comparison in it fits; then its placeholders
        are the fresh numbers in order, all bound, and on every stored document it is true or false as
        the filter is. */
    method Build(e: Expr) returns (r: Option<Sql>)
      requires Valid()
      modifies this
      ensures Valid() && Extends(old(params), params) && old(next) <= next
      ensures r.Some? <==> Compiles(table, e)
      ensures r.Some? ==> Slots(r.value) == Range(old(next), next)
      ensures r.Some? ==> Means(table, r.value, params, e)
      decreases e
    {
      match e {
        case Comparison(op, left, right) =>
          r := CompareSides(op, left, right);
        case Not(arg) =>
          r := Build(arg);
          if r.Some? {
            ComplementMeans(table, r.value, params, arg);
            r := Some(Complement(r.value));
          }
        case And(args) =>
          if |args| < 2 { return None; }
          var parts := BuildParts(e, args);
          if parts.None? { return None; }
          ConnectiveMeans(table, parts.value, params, args);
          r := Some(All(parts.value));
        case Or(args) =>
          if |args| < 2 { return None; }
          var parts := BuildParts(e, args);
          if parts.None? { return None; }
          ConnectiveMeans(table, parts.value, params, args);
          r := Some(Any(parts.value));
      }
    }

    /** The compiled arguments of a connective, left to right. */
    method BuildParts(ghost whole: Expr, args: seq<Expr>) returns (r: Option<seq<Sql>>)
      requires Valid() && forall i | 0 <= i < |args| :: args[i] < whole
      modifies this
      ensures Valid() && Extends(old(params), params) && old(next) <= next
      ensures r.Some? <==> forall i | 0 <= i < |args| :: Compiles(table, args[i])
      ensures r.Some? ==> |r.value| == |args| && AllMean(table, r.value, params, args)
      ensures r.Some? ==> AllSlots(r.value) == Range(old(next), next)
      decreases whole, 0
    {
      var parts: seq<Sql> := [];
      var i := 0;
      while i < |args|
        invariant 0 <= i <= |args| && |parts| == i
        invariant Valid() && Extends(old(params), params) && old(next) <= next
        invariant forall j | 0 <= j < i :: Compiles(table, args[j])
        invariant AllMean(table, parts, params, args)
        invariant AllSlots(parts) == Range(old(next), next)
      {
        ghost var was := params;
        var part := Build(args[i]);
        if part.None? { return None; }
        AllMeanExtended(table, parts, was, params, args);
        AllSlotsAppend(parts, part.value);
        parts := parts + [part.value];
        i := i + 1;
      }
      r := Some(parts);
    }
  }

  /** A whole filter: every placeholder is distinct and bound, nothing else is bound, and the predicate
      is never NULL and selects exactly the documents the filter holds of. */
  method SqlExpression(t: Table, e: Expr) returns (r: Option<(Sql, Params)>)
    requires t.Valid()
    ensures r.Some? <==> Compiles(t, e)
    ensures r.Some? ==> var slots := Slots(r.value.0);
      && (forall i, j | 0 <= i < j < |slots| :: slots[i] != slots[j])
      && (forall n: nat :: n in r.value.1 <==> n in slots)
    ensures r.Some? ==> forall doc, row | t.Stores(row, doc) ::
      Eval(r.value.0, r.value.1, row) == TruthOf(Holds(t, e, doc))
  {
    var compiler := new FilterCompiler(t);
    var sql := compiler.Build(e);
    if sql.None? { return None; }
    r := Some((sql.value, compiler.params));
    var slots := Slots(sql.value);
    assert slots == Range(0, compiler.next);
    forall n: nat ensures n in compiler.params <==> n in slots {
      if n < |slots| { assert slots[n] == n; }
    }
  }
}
