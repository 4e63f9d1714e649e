/** Applying migration plans up at activation and down at rollback. */
module MigrationRun {
  import opened ByteStrings
  import opened MigrationPlan
  import opened WireValues
  import opened Costs

  type Doc = Wire
  type Keys = nat
  type Time = nat

  datatype Direction = Up | Down

  /** One pass over the rows: its direction and the moment that every migration function is told. */
  datatype Pass = Pass(dir: Direction, at: Time)

  /** What a migration function sees of a row besides its document. */
  datatype Identity = Identity(id: nat, created: Time)

  /** A stored document with its order projection. */
  datatype Row = Row(who: Identity, doc: Doc, order: Keys)

  /** What the rows depend on: normalization under a schema named by its hash (None when the document does
      not fit), the user's migration functions (None when one fails or its output is not a plain document
      without system fields), the order projection under a schema (None when some value has no key), and the
      lengths of the canonical texts of documents and projections. */
  datatype Env = Env(normal: (Hash, Doc) -> Option<Doc>, invoke: (Name, Pass, Identity, Doc) -> Option<Doc>,
                     project: (Hash, Doc) -> Option<Keys>, size: Doc -> nat, keysSize: Keys -> nat) {
    /** Normalizing twice is normalizing once. */
    ghost predicate Idempotent() {
      forall h, d :: normal(h, d).Some? ==> normal(h, normal(h, d).value) == normal(h, d)
    }

    predicate Normalized(h: Hash, d: Doc) { normal(h, d) == Some(d) }

    /** The row is as a write under this schema leaves it. */
    predicate Written(h: Hash, row: Row) { Normalized(h, row.doc) && project(h, row.doc) == Some(row.order) }

    /** Down takes back what up did, on normalized documents, whatever the row and whenever the two run. */
    ghost predicate Undoes(m: Migration) {
      forall d: Doc, who: Identity, up: Time, down: Time |
        Normalized(m.from, d) && OneStep(this, m, Pass(Up, up), who, d).Some? ::
        OneStep(this, m, Pass(Down, down), who, OneStep(this, m, Pass(Up, up), who, d).value) == Some(d)
    }
  }

  function Before(m: Migration, dir: Direction): Hash { if dir.Up? then m.from else m.to }

  function After(m: Migration, dir: Direction): Hash { if dir.Up? then m.to else m.from }

  /** Normalize, run the user's function, normalize the output. */
  function OneStep(env: Env, m: Migration, pass: Pass, who: Identity, d: Doc): Option<Doc> {
    match env.normal(Before(m, pass.dir), d)
    case None => None
    case Some(input) =>
      match env.invoke(m.id, pass, who, input)
      case None => None
      case Some(output) => env.normal(After(m, pass.dir), output)
  }

  /** One document through the steps in order. */
  function RunSteps(env: Env, steps: seq<Migration>, pass: Pass, who: Identity, d: Doc): Option<Doc> {
    if steps == [] then Some(d)
    else match OneStep(env, steps[0], pass, who, d)
      case None => None
      case Some(next) => RunSteps(env, steps[1..], pass, who, next)
  }

  /** A document stored under a schema, with its projection. */
  function Stored(env: Env, target: Hash, who: Identity, d: Doc): Option<Row> {
    match env.normal(target, d)
    case None => None
    case Some(doc) =>
      match env.project(target, doc)
      case None => None
      case Some(order) => Some(Row(who, doc, order))
  }

  /** One row through the steps, then under the target schema. Without steps this is the pass that rewrites
      every row of a changed table. */
  function MigrateRow(env: Env, steps: seq<Migration>, pass: Pass, target: Hash, row: Row): Option<Row> {
    match RunSteps(env, steps, pass, row.who, row.doc)
    case None => None
    case Some(next) => Stored(env, target, row.who, next)
  }

  /** The two-index reversal that both the steps and the plans use. */
  method ReverseInPlace<T>(a: array<T>)
    modifies a
    ensures a[..] == Reversed(old(a[..]))
  {
    var left, right := 0, a.Length - 1;
    while left < right
      invariant 0 <= left <= right + 2 && right == a.Length - 1 - left
      invariant forall k | left <= k <= right :: a[k] == old(a[k])
      invariant forall k | 0 <= k < left && k < a.Length :: a[k] == old(a[a.Length - 1 - k])
      invariant forall k | right < k < a.Length && 0 <= k :: a[k] == old(a[a.Length - 1 - k])
      decreases right - left
    {
      a[left], a[right] := a[right], a[left];
      left, right := left + 1, right - 1;
    }
  }

  /** A plan's steps in the order they run. */
  method OrderedSteps(p: Plan, dir: Direction) returns (steps: seq<Migration>)
    ensures steps == StepsFor(p, dir)
  {
    var copy := new Migration[|p.steps|](i requires 0 <= i < |p.steps| => p.steps[i]);
    assert copy[..] == p.steps;
    if dir.Down? { ReverseInPlace(copy); }
    steps := copy[..];
  }

  // ----- rollback restores rows

  lemma {:induction false} RunConcat(env: Env, a: seq<Migration>, b: seq<Migration>, pass: Pass, who: Identity, d: Doc)
    ensures RunSteps(env, a + b, pass, who, d) ==
      match RunSteps(env, a, pass, who, d) case None => None case Some(mid) => RunSteps(env, b, pass, who, mid)
    decreases |a|
  {
    if a == [] {
      assert a + b == b;
    } else {
      assert (a + b)[1..] == a[1..] + b;
      var next := OneStep(env, a[0], pass, who, d);
      if next.Some? { RunConcat(env, a[1..], b, pass, who, next.value); }
    }
  }

  /** The documents a path's steps go through are normalized at each schema on the way. */
  lemma {:induction false} PathNormalizes(env: Env, steps: seq<Migration>, from: Hash, goal: Hash, pass: Pass, who: Identity, d: Doc)
    requires env.Idempotent() && HashPath(steps, from, goal) && env.Normalized(from, d) && pass.dir.Up?
    requires RunSteps(env, steps, pass, who, d).Some?
    ensures env.Normalized(goal, RunSteps(env, steps, pass, who, d).value)
    decreases |steps|
  {
    if steps != [] {
      PathNormalizes(env, steps[1..], steps[0].to, goal, pass, who, OneStep(env, steps[0], pass, who, d).value);
    }
  }

  /** The steps down, last first, lead back from where the steps up arrived. */
  lemma {:induction false} DownUndoesUp(env: Env, steps: seq<Migration>, from: Hash, goal: Hash, up: Time, down: Time, who: Identity, d: Doc)
    requires env.Idempotent() && HashPath(steps, from, goal) && env.Normalized(from, d)
    requires forall m | m in steps :: env.Undoes(m)
    requires RunSteps(env, steps, Pass(Up, up), who, d).Some?
    ensures RunSteps(env, Reversed(steps), Pass(Down, down), who, RunSteps(env, steps, Pass(Up, up), who, d).value) == Some(d)
    decreases |steps|
  {
    if steps != [] {
      var first, rest := steps[0], steps[1..];
      var mid := OneStep(env, first, Pass(Up, up), who, d).value;
      assert env.Undoes(first);
      DownUndoesUp(env, rest, first.to, goal, up, down, who, mid);
      var end := RunSteps(env, steps, Pass(Up, up), who, d).value;
      assert Reversed(steps) == Reversed(rest) + [first];
      RunConcat(env, Reversed(rest), [first], Pass(Down, down), who, end);
      assert RunSteps(env, [first], Pass(Down, down), who, mid) == Some(d) by { assert [first][1..] == []; }
    }
  }

  /** Up, a path takes a document that fits its source schema to one that is normalized under its target. */
  lemma {:induction false} UpPathEnds(env: Env, steps: seq<Migration>, from: Hash, goal: Hash, at: Time, who: Identity, d: Doc)
    requires env.Idempotent() && HashPath(steps, from, goal) && steps != [] && RunSteps(env, steps, Pass(Up, at), who, d).Some?
    ensures env.normal(from, d).Some? && env.Normalized(goal, RunSteps(env, steps, Pass(Up, at), who, d).value)
    decreases |steps|
  {
    var next := OneStep(env, steps[0], Pass(Up, at), who, d).value;
    if steps[1..] != [] { UpPathEnds(env, steps[1..], steps[0].to, goal, at, who, next); }
  }

  /** Down, its steps run backwards take a document that fits the target schema to one normalized under the source. */
  lemma {:induction false} DownPathEnds(env: Env, steps: seq<Migration>, from: Hash, goal: Hash, at: Time, who: Identity, d: Doc)
    requires env.Idempotent() && HashPath(steps, from, goal) && steps != [] && RunSteps(env, Reversed(steps), Pass(Down, at), who, d).Some?
    ensures env.normal(goal, d).Some? && env.Normalized(from, RunSteps(env, Reversed(steps), Pass(Down, at), who, d).value)
    decreases |steps|
  {
    var first, rest := steps[0], steps[1..];
    assert Reversed(steps) == Reversed(rest) + [first];
    RunConcat(env, Reversed(rest), [first], Pass(Down, at), who, d);
    var mid := RunSteps(env, Reversed(rest), Pass(Down, at), who, d).value;
    assert [first][1..] == [] && RunSteps(env, [first], Pass(Down, at), who, mid) == OneStep(env, first, Pass(Down, at), who, mid);
    if rest == [] {
      assert Reversed(rest) == [];
    } else {
      DownPathEnds(env, rest, first.to, goal, at, who, d);
    }
  }

  /** A row as the source schema wrote it, which activation migrates, the rollback restores, projection included. */
  lemma RollbackRestoresRow(env: Env, steps: seq<Migration>, from: Hash, goal: Hash, up: Time, down: Time, row: Row)
    requires env.Idempotent() && HashPath(steps, from, goal) && env.Written(from, row)
    requires forall m | m in steps :: env.Undoes(m)
    requires MigrateRow(env, steps, Pass(Up, up), goal, row).Some?
    ensures MigrateRow(env, Reversed(steps), Pass(Down, down), from, MigrateRow(env, steps, Pass(Up, up), goal, row).value) == Some(row)
  {
    PathNormalizes(env, steps, from, goal, Pass(Up, up), row.who, row.doc);
    DownUndoesUp(env, steps, from, goal, up, down, row.who, row.doc);
  }

  // ----- all rows of all planned tables

  type Rows = map<Name, seq<Row>>

  function MigrateRows(env: Env, steps: seq<Migration>, pass: Pass, target: Hash, rows: seq<Row>): Option<seq<Row>> {
    if rows == [] then Some([])
    else match (MigrateRow(env, steps, pass, target, rows[0]), MigrateRows(env, steps, pass, target, rows[1..]))
      case (Some(row), Some(rest)) => Some([row] + rest)
      case _ => None
  }

  function StepsFor(p: Plan, dir: Direction): seq<Migration> {
    if dir.Up? then p.steps else Reversed(p.steps)
  }

  function RowsOf(rows: Rows, table: Name): seq<Row> { if table in rows then rows[table] else [] }

  /** Every plan in order; targets names the schema each table ends under. */
  function ApplyPlans(env: Env, plans: seq<Plan>, pass: Pass, targets: Name -> Hash, rows: Rows): Option<Rows> {
    if plans == [] then Some(rows)
    else
      var p := plans[0];
      match MigrateRows(env, StepsFor(p, pass.dir), pass, targets(p.table), RowsOf(rows, p.table))
      case None => None
      case Some(next) => ApplyPlans(env, plans[1..], pass, targets, rows[p.table := next])
  }

  lemma {:induction false} RowsRestored(env: Env, p: Plan, from: Hash, goal: Hash, up: Time, down: Time, rows: seq<Row>)
    requires env.Idempotent() && HashPath(p.steps, from, goal) && forall m | m in p.steps :: env.Undoes(m)
    requires forall row | row in rows :: env.Written(from, row)
    requires MigrateRows(env, p.steps, Pass(Up, up), goal, rows).Some?
    ensures MigrateRows(env, Reversed(p.steps), Pass(Down, down), from, MigrateRows(env, p.steps, Pass(Up, up), goal, rows).value) == Some(rows)
    decreases |rows|
  {
    if rows != [] {
      assert rows[0] in rows;
      RollbackRestoresRow(env, p.steps, from, goal, up, down, rows[0]);
      RowsRestored(env, p, from, goal, up, down, rows[1..]);
      var above := MigrateRows(env, p.steps, Pass(Up, up), goal, rows).value;
      assert above[1..] == MigrateRows(env, p.steps, Pass(Up, up), goal, rows[1..]).value;
      assert rows == [rows[0]] + rows[1..];
    }
  }

  lemma {:induction false} ApplyConcat(env: Env, a: seq<Plan>, b: seq<Plan>, pass: Pass, targets: Name -> Hash, rows: Rows)
    ensures ApplyPlans(env, a + b, pass, targets, rows) ==
      match ApplyPlans(env, a, pass, targets, rows) case None => None case Some(mid) => ApplyPlans(env, b, pass, targets, mid)
    decreases |a|
  {
    if a == [] {
      assert a + b == b;
    } else {
      assert (a + b)[1..] == a[1..] + b;
      var p := a[0];
      var next := MigrateRows(env, StepsFor(p, pass.dir), pass, targets(p.table), RowsOf(rows, p.table));
      if next.Some? { ApplyConcat(env, a[1..], b, pass, targets, rows[p.table := next.value]); }
    }
  }

  /** What the plans and the rows they start from must be. */
  ghost predicate Restorable(env: Env, p: Plan, sources: Name -> Hash, goals: Name -> Hash, rows: Rows) {
    && HashPath(p.steps, sources(p.table), goals(p.table)) && p.table in rows
    && (forall m | m in p.steps :: env.Undoes(m))
    && forall row | row in rows[p.table] :: env.Written(sources(p.table), row)
  }

  lemma {:induction false} OthersUntouched(env: Env, plans: seq<Plan>, pass: Pass, targets: Name -> Hash, rows: Rows, table: Name)
    requires ApplyPlans(env, plans, pass, targets, rows).Some?
    requires forall p | p in plans :: p.table != table
    ensures var r := ApplyPlans(env, plans, pass, targets, rows).value;
      (table in r <==> table in rows) && RowsOf(r, table) == RowsOf(rows, table)
    decreases |plans|
  {
    if plans != [] {
      var p := plans[0];
      assert p in plans;
      var next := MigrateRows(env, StepsFor(p, pass.dir), pass, targets(p.table), RowsOf(rows, p.table)).value;
      OthersUntouched(env, plans[1..], pass, targets, rows[p.table := next], table);
    }
  }

  /** Plans commute with a change to a table that none of them names. */
  lemma {:induction false} OthersIrrelevant(env: Env, plans: seq<Plan>, pass: Pass, targets: Name -> Hash, rows: Rows, other: Rows)
    requires forall p | p in plans :: RowsOf(rows, p.table) == RowsOf(other, p.table)
    requires OnePlanPerTable(plans)
    ensures ApplyPlans(env, plans, pass, targets, rows).Some? <==> ApplyPlans(env, plans, pass, targets, other).Some?
    ensures ApplyPlans(env, plans, pass, targets, rows).Some? ==>
      forall p | p in plans :: RowsOf(ApplyPlans(env, plans, pass, targets, rows).value, p.table)
                            == RowsOf(ApplyPlans(env, plans, pass, targets, other).value, p.table)
    decreases |plans|
  {
    if plans != [] {
      var p, rest := plans[0], plans[1..];
      assert p in plans;
      var next := MigrateRows(env, StepsFor(p, pass.dir), pass, targets(p.table), RowsOf(rows, p.table));
      if next.Some? {
        var a, b := rows[p.table := next.value], other[p.table := next.value];
        assert OnePlanPerTable(rest) by { assert forall i | 0 <= i < |rest| :: rest[i] == plans[i + 1]; }
        forall q | q in rest ensures q.table != p.table && RowsOf(a, q.table) == RowsOf(b, q.table) {
          RestOther(plans, q);
        }
        OthersIrrelevant(env, rest, pass, targets, a, b);
        if ApplyPlans(env, rest, pass, targets, a).Some? {
          OthersUntouched(env, rest, pass, targets, a, p.table);
          OthersUntouched(env, rest, pass, targets, b, p.table);
          forall q | q in plans
            ensures RowsOf(ApplyPlans(env, plans, pass, targets, rows).value, q.table)
                 == RowsOf(ApplyPlans(env, plans, pass, targets, other).value, q.table)
          {
            if q != p { assert q in rest; }
          }
        }
      }
    }
  }

  ghost predicate AllRestorable(env: Env, plans: seq<Plan>, sources: Name -> Hash, goals: Name -> Hash, rows: Rows) {
    OnePlanPerTable(plans) && forall p | p in plans :: Restorable(env, p, sources, goals, rows)
  }

  /** The rows after the first plan. */
  function FirstApplied(env: Env, p: Plan, goals: Name -> Hash, up: Time, rows: Rows): Option<Rows>
    requires p.table in rows
  {
    match MigrateRows(env, p.steps, Pass(Up, up), goals(p.table), rows[p.table])
    case Some(next) => Some(rows[p.table := next])
    case None => None
  }

  lemma RestRestorable(env: Env, plans: seq<Plan>, sources: Name -> Hash, goals: Name -> Hash, up: Time, rows: Rows)
    requires plans != [] && AllRestorable(env, plans, sources, goals, rows)
    ensures plans[0] in plans && Restorable(env, plans[0], sources, goals, rows)
    ensures FirstApplied(env, plans[0], goals, up, rows).Some? ==>
      AllRestorable(env, plans[1..], sources, goals, FirstApplied(env, plans[0], goals, up, rows).value)
  {
    var p, rest := plans[0], plans[1..];
    assert p in plans;
    if FirstApplied(env, p, goals, up, rows).Some? {
      var mid := FirstApplied(env, p, goals, up, rows).value;
      assert OnePlanPerTable(rest) by { assert forall i | 0 <= i < |rest| :: rest[i] == plans[i + 1]; }
      forall q | q in rest ensures Restorable(env, q, sources, goals, mid) {
        RestOther(plans, q);
        assert Restorable(env, q, sources, goals, rows);
      }
    }
  }

  /** The plans down, last first, restore every row of every planned table, and touch no other. */
  lemma {:induction false} PlannedTablesRestored(env: Env, plans: seq<Plan>, sources: Name -> Hash, goals: Name -> Hash, up: Time, down: Time, rows: Rows)
    requires env.Idempotent() && AllRestorable(env, plans, sources, goals, rows)
    requires ApplyPlans(env, plans, Pass(Up, up), goals, rows).Some?
    ensures ApplyPlans(env, Reversed(plans), Pass(Down, down), sources, ApplyPlans(env, plans, Pass(Up, up), goals, rows).value) == Some(rows)
    decreases |plans|
  {
    if plans != [] {
      var p, rest := plans[0], plans[1..];
      RestRestorable(env, plans, sources, goals, up, rows);
      var mid := FirstApplied(env, p, goals, up, rows).value;
      PlannedTablesRestored(env, rest, sources, goals, up, down, mid);
      assert Reversed(plans) == Reversed(rest) + [p];
      ApplyConcat(env, Reversed(rest), [p], Pass(Down, down), sources, ApplyPlans(env, plans, Pass(Up, up), goals, rows).value);
      LastPlanBack(env, p, sources, goals, up, down, rows, mid);
    }
  }

  lemma RestOther(plans: seq<Plan>, q: Plan)
    requires OnePlanPerTable(plans) && plans != [] && q in plans[1..]
    ensures q.table != plans[0].table && q in plans
  {
    var i :| 0 <= i < |plans[1..]| && plans[1..][i] == q;
    assert plans[i + 1] == q;
  }

  lemma LastPlanBack(env: Env, p: Plan, sources: Name -> Hash, goals: Name -> Hash, up: Time, down: Time, rows: Rows, mid: Rows)
    requires env.Idempotent() && Restorable(env, p, sources, goals, rows)
    requires MigrateRows(env, p.steps, Pass(Up, up), goals(p.table), rows[p.table]).Some?
    requires mid == rows[p.table := MigrateRows(env, p.steps, Pass(Up, up), goals(p.table), rows[p.table]).value]
    ensures ApplyPlans(env, [p], Pass(Down, down), sources, mid) == Some(rows)
  {
    RowsRestored(env, p, sources(p.table), goals(p.table), up, down, rows[p.table]);
    assert [p][1..] == [];
    assert mid[p.table := rows[p.table]] == rows;
  }

  // ----- the loops, within their budget

  const MAX_ROWS: nat := 10000
  const MAX_RUN_BYTES: nat := 67108864

  /** What the steps charge when all of them succeed. */
  function RunCost(env: Env, steps: seq<Migration>, pass: Pass, who: Identity, d: Doc): nat {
    if steps == [] then 0
    else match env.normal(Before(steps[0], pass.dir), d)
      case None => 0
      case Some(input) =>
        match env.invoke(steps[0].id, pass, who, input)
        case None => 0
        case Some(output) =>
          match env.normal(After(steps[0], pass.dir), output)
          case None => 0
          case Some(next) => env.size(input) + env.size(output) + env.size(next) + RunCost(env, steps[1..], pass, who, next)
  }

  /** What a row that succeeds charges: itself, its steps, the stored document and its projection. */
  function RowCost(env: Env, steps: seq<Migration>, pass: Pass, target: Hash, row: Row): nat {
    env.size(row.doc) + RunCost(env, steps, pass, row.who, row.doc)
    + match MigrateRow(env, steps, pass, target, row) case None => 0 case Some(r) => env.size(r.doc) + env.keysSize(r.order)
  }

  function RowsCost(env: Env, steps: seq<Migration>, pass: Pass, target: Hash, rows: seq<Row>): nat {
    if rows == [] then 0
    else RowsCost(env, steps, pass, target, rows[..|rows| - 1]) + RowCost(env, steps, pass, target, rows[|rows| - 1])
  }

  /** A table charges each of its rows once. */
  function TableCost(env: Env, steps: seq<Migration>, pass: Pass, target: Hash, rows: seq<Row>): Spend {
    Spend(|rows|, RowsCost(env, steps, pass, target, rows))
  }

  /** What the plans charge, up to the first that fails. */
  function PlansCost(env: Env, plans: seq<Plan>, pass: Pass, targets: Name -> Hash, tables: Rows): Spend {
    if plans == [] then NOTHING
    else
      var p := plans[0];
      var stored := RowsOf(tables, p.table);
      TableCost(env, StepsFor(p, pass.dir), pass, targets(p.table), stored).Plus(
        match MigrateRows(env, StepsFor(p, pass.dir), pass, targets(p.table), stored)
        case None => NOTHING
        case Some(next) => PlansCost(env, plans[1..], pass, targets, tables[p.table := next]))
  }

  /** The limits on one activation or rollback. */
  predicate WithinRun(s: Spend) { s.count <= MAX_ROWS && s.bytes <= MAX_RUN_BYTES }

  /** Work on rows within the limits has the wanted result and charges its cost; what does not fit fails. */
  predicate Worked<T(==)>(before: Spend, cost: Spend, after: Spend, wanted: Option<T>, r: Option<T>, limited: bool) {
    var ok :=
      && (r.Some? <==> wanted.Some? && WithinRun(before.Plus(cost)))
      && (r.Some? ==> r == wanted && after == before.Plus(cost))
      && (r.None? && !limited ==> wanted.None?);
    ok
  }

  datatype Applied = Applied(rows: seq<Row>) | OverLimit | Failed

  class Budget {
    var rows: nat
    var bytes: nat

    constructor ()
      ensures rows == 0 && bytes == 0
    {
      rows, bytes := 0, 0;
    }

    function Spent(): Spend
      reads this
    {
      Spend(rows, bytes)
    }

    /** A charge that would pass the limit is refused and changes nothing. */
    method ChargeBytes(size: nat) returns (ok: bool)
      modifies this`bytes
      ensures ok <==> old(bytes) <= MAX_RUN_BYTES && size <= MAX_RUN_BYTES - old(bytes)
      ensures bytes == if ok then old(bytes) + size else old(bytes)
    {
      if bytes > MAX_RUN_BYTES || size > MAX_RUN_BYTES - bytes { return false; }
      bytes := bytes + size;
      ok := true;
    }

    /** The steps of one row. They succeed exactly when each of them does and what they charge fits. */
    method ApplySteps(env: Env, steps: seq<Migration>, pass: Pass, who: Identity, d: Doc) returns (r: Option<Doc>, limited: bool)
      requires bytes <= MAX_RUN_BYTES
      modifies this`bytes
      ensures bytes <= MAX_RUN_BYTES
      ensures r.Some? <==> RunSteps(env, steps, pass, who, d).Some? && old(bytes) + RunCost(env, steps, pass, who, d) <= MAX_RUN_BYTES
      ensures r.Some? ==> r == RunSteps(env, steps, pass, who, d) && bytes == old(bytes) + RunCost(env, steps, pass, who, d)
      ensures r.None? && !limited ==> RunSteps(env, steps, pass, who, d).None?
    {
      var data := d;
      assert steps[0..] == steps;
      limited := true;
      for i := 0 to |steps|
        invariant bytes <= MAX_RUN_BYTES && limited
        invariant RunSteps(env, steps, pass, who, d) == RunSteps(env, steps[i..], pass, who, data)
        invariant old(bytes) + RunCost(env, steps, pass, who, d) == bytes + RunCost(env, steps[i..], pass, who, data)
      {
        var m := steps[i];
        assert steps[i..][0] == m && steps[i..][1..] == steps[i + 1..];
        var input := env.normal(Before(m, pass.dir), data);
        if input.None? { return None, false; }
        var ok := ChargeBytes(env.size(input.value));
        if !ok { return None, true; }
        var output := env.invoke(m.id, pass, who, input.value);
        if output.None? { return None, false; }
        ok := ChargeBytes(env.size(output.value));
        if !ok { return None, true; }
        var next := env.normal(After(m, pass.dir), output.value);
        if next.None? { return None, false; }
        data := next.value;
        ok := ChargeBytes(env.size(data));
        if !ok { return None, true; }
      }
      r := Some(data);
    }

    /** One row: it is migrated exactly when its steps succeed and it fits the budget. */
    method MigrateOne(env: Env, steps: seq<Migration>, pass: Pass, target: Hash, row: Row) returns (r: Applied)
      requires rows <= MAX_ROWS && bytes <= MAX_RUN_BYTES
      modifies this
      ensures bytes <= MAX_RUN_BYTES && rows == old(rows) + 1
      ensures r.Applied? <==> MigrateRow(env, steps, pass, target, row).Some?
                              && rows <= MAX_ROWS && old(bytes) + RowCost(env, steps, pass, target, row) <= MAX_RUN_BYTES
      ensures r.Applied? ==> r.rows == [MigrateRow(env, steps, pass, target, row).value]
                             && bytes == old(bytes) + RowCost(env, steps, pass, target, row)
      ensures r.Failed? ==> MigrateRow(env, steps, pass, target, row).None?
    {
      rows := rows + 1;
      if rows > MAX_ROWS { return OverLimit; }
      var ok := ChargeBytes(env.size(row.doc));
      if !ok { return OverLimit; }
      var data, limited := ApplySteps(env, steps, pass, row.who, row.doc);
      if data.None? { return if limited then OverLimit else Failed; }
      var stored := env.normal(target, data.value);
      if stored.None? { return Failed; }
      var order := env.project(target, stored.value);
      if order.None? { return Failed; }
      ok := ChargeBytes(env.size(stored.value));
      if !ok { return OverLimit; }
      ok := ChargeBytes(env.keysSize(order.value));
      if !ok { return OverLimit; }
      r := Applied([Row(row.who, stored.value, order.value)]);
    }

    /** All rows of one table. The steps down run last first. The table is migrated exactly when every row
        succeeds and all of them fit; otherwise the transaction around it takes everything back. */
    method MigrateTable(env: Env, p: Plan, pass: Pass, target: Hash, stored: seq<Row>) returns (r: Applied)
      requires rows <= MAX_ROWS && bytes <= MAX_RUN_BYTES
      modifies this
      ensures r.Applied? <==> MigrateRows(env, StepsFor(p, pass.dir), pass, target, stored).Some?
                              && old(rows) + |stored| <= MAX_ROWS
                              && old(bytes) + RowsCost(env, StepsFor(p, pass.dir), pass, target, stored) <= MAX_RUN_BYTES
      ensures r.Applied? ==> MigrateRows(env, StepsFor(p, pass.dir), pass, target, stored) == Some(r.rows)
      ensures r.Applied? ==> rows == old(rows) + |stored| && bytes == old(bytes) + RowsCost(env, StepsFor(p, pass.dir), pass, target, stored)
      ensures r.Failed? ==> MigrateRows(env, StepsFor(p, pass.dir), pass, target, stored).None?
    {
      var ordered := OrderedSteps(p, pass.dir);
      var out: seq<Row> := [];
      assert stored[..0] == [];
      for i := 0 to |stored|
        invariant rows == old(rows) + i <= MAX_ROWS && bytes <= MAX_RUN_BYTES
        invariant bytes == old(bytes) + RowsCost(env, ordered, pass, target, stored[..i])
        invariant MigrateRows(env, ordered, pass, target, stored[..i]) == Some(out)
      {
        var one := MigrateOne(env, ordered, pass, target, stored[i]);
        OneMoreRow(env, ordered, pass, target, stored[..i], stored[i]);
        CostSoFar(env, ordered, pass, target, stored, i + 1);
        assert stored[..i + 1] == stored[..i] + [stored[i]] && stored[..i + 1][..i] == stored[..i];
        if one.Failed? || MigrateRow(env, ordered, pass, target, stored[i]).None? {
          FailureSticks(env, ordered, pass, target, stored, i + 1);
        }
        if one.OverLimit? { return OverLimit; }
        if one.Failed? { return Failed; }
        out := out + one.rows;
      }
      assert stored[..|stored|] == stored;
      r := Applied(out);
    }

    method TryTable(env: Env, p: Plan, pass: Pass, target: Hash, stored: seq<Row>) returns (r: Option<seq<Row>>, limited: bool)
      requires WithinRun(Spent())
      modifies this
      ensures Worked(old(Spent()), TableCost(env, StepsFor(p, pass.dir), pass, target, stored), Spent(),
                     MigrateRows(env, StepsFor(p, pass.dir), pass, target, stored), r, limited)
    {
      var done := MigrateTable(env, p, pass, target, stored);
      r, limited := if done.Applied? then Some(done.rows) else None, done.OverLimit?;
    }

    /** Every plan in order: they are applied exactly when each of them succeeds and all of them fit. */
    method ApplyMigrationPlans(env: Env, plans: seq<Plan>, pass: Pass, targets: Name -> Hash, tables: Rows)
      returns (r: Option<Rows>, limited: bool)
      requires WithinRun(Spent())
      modifies this
      ensures Worked(old(Spent()), PlansCost(env, plans, pass, targets, tables), Spent(), ApplyPlans(env, plans, pass, targets, tables), r, limited)
    {
      var current: Rows := tables;
      assert plans[0..] == plans;
      for i := 0 to |plans|
        invariant PlansSoFar(env, plans, pass, targets, tables, i, current, old(Spent()), Spent())
      {
        var p := plans[i];
        ghost var now := Spent();
        var done;
        done, limited := TryTable(env, p, pass, targets(p.table), RowsOf(current, p.table));
        PlanStep(env, plans, pass, targets, tables, i, current, old(Spent()), now, Spent(), done, limited);
        if done.None? { return None, limited; }
        current := current[p.table := done.value];
      }
      r, limited := Some(current), false;
    }
  }

  /** The first i plans have led to the current rows. */
  predicate PlansSoFar(env: Env, plans: seq<Plan>, pass: Pass, targets: Name -> Hash, tables: Rows, i: nat, current: Rows, before: Spend, now: Spend) {
    var ok :=
      && i <= |plans| && WithinRun(now)
      && ApplyPlans(env, plans, pass, targets, tables) == ApplyPlans(env, plans[i..], pass, targets, current)
      && before.Plus(PlansCost(env, plans, pass, targets, tables)) == now.Plus(PlansCost(env, plans[i..], pass, targets, current));
    ok
  }

  lemma PlanStep(env: Env, plans: seq<Plan>, pass: Pass, targets: Name -> Hash, tables: Rows, i: nat, current: Rows, before: Spend,
                 now: Spend, after: Spend, done: Option<seq<Row>>, limited: bool)
    requires i < |plans| && PlansSoFar(env, plans, pass, targets, tables, i, current, before, now)
    requires var p := plans[i];
      Worked(now, TableCost(env, StepsFor(p, pass.dir), pass, targets(p.table), RowsOf(current, p.table)), after,
             MigrateRows(env, StepsFor(p, pass.dir), pass, targets(p.table), RowsOf(current, p.table)), done, limited)
    ensures done.None? ==> Worked(before, PlansCost(env, plans, pass, targets, tables), after,
                                  ApplyPlans(env, plans, pass, targets, tables), None, limited)
    ensures done.Some? ==> PlansSoFar(env, plans, pass, targets, tables, i + 1, current[plans[i].table := done.value], before, after)
  {
    assert plans[i..][0] == plans[i] && plans[i..][1..] == plans[i + 1..];
  }

  lemma {:induction false} CostSoFar(env: Env, steps: seq<Migration>, pass: Pass, target: Hash, rows: seq<Row>, k: nat)
    requires k <= |rows|
    ensures RowsCost(env, steps, pass, target, rows[..k]) <= RowsCost(env, steps, pass, target, rows)
    decreases |rows|
  {
    if k == |rows| {
      assert rows[..k] == rows;
    } else {
      CostSoFar(env, steps, pass, target, rows[..|rows| - 1], k);
      assert rows[..|rows| - 1][..k] == rows[..k];
    }
  }

  lemma {:induction false} OneMoreRow(env: Env, steps: seq<Migration>, pass: Pass, target: Hash, rows: seq<Row>, row: Row)
    ensures MigrateRows(env, steps, pass, target, rows + [row]) ==
      match (MigrateRows(env, steps, pass, target, rows), MigrateRow(env, steps, pass, target, row))
      case (Some(rest), Some(e)) => Some(rest + [e])
      case _ => None
    decreases |rows|
  {
    if rows == [] {
      assert rows + [row] == [row] && [row][1..] == [];
      assert MigrateRows(env, steps, pass, target, [row][1..]) == Some([]);
      var last := MigrateRow(env, steps, pass, target, row);
      if last.Some? { assert [last.value] + [] == [] + [last.value]; }
    } else {
      OneMoreRow(env, steps, pass, target, rows[1..], row);
      assert (rows + [row])[1..] == rows[1..] + [row] && (rows + [row])[0] == rows[0];
      var head, last := MigrateRow(env, steps, pass, target, rows[0]), MigrateRow(env, steps, pass, target, row);
      var middle := MigrateRows(env, steps, pass, target, rows[1..]);
      if head.Some? && middle.Some? && last.Some? {
        assert [head.value] + (middle.value + [last.value]) == [head.value] + middle.value + [last.value];
      }
    }
  }

  lemma {:induction false} FailureSticks(env: Env, steps: seq<Migration>, pass: Pass, target: Hash, rows: seq<Row>, k: nat)
    requires k <= |rows| && MigrateRows(env, steps, pass, target, rows[..k]).None?
    ensures MigrateRows(env, steps, pass, target, rows).None?
    decreases |rows|
  {
    if k > 0 {
      assert rows[..k][1..] == rows[1..][..k - 1];
      if MigrateRows(env, steps, pass, target, rows[1..][..k - 1]).None? {
        FailureSticks(env, steps, pass, target, rows[1..], k - 1);
      }
    }
  }
}
