/** Activation and rollback of a schema: planned tables run their migrations, other changed tables are
    rewritten under the new schema, and rollback goes the other way. */
module SchemaActivation {
  import opened ByteStrings
  import opened WireValues
  import opened MigrationPlan
  import opened MigrationRun
  import opened Normalize
  import opened Costs

  /** A table's declaration: its document schema, the rest of it (indexes), and whether a component owns it. */
  datatype TableSchema = TableSchema(fields: Hash, rest: nat, component: bool)

  type Schema = map<Name, TableSchema>

  predicate Root(s: Schema, t: Name) { t in s && !s[t].component }

  /** The document schemas of the tables that migrations may name. */
  function FieldsOf(s: Schema): map<Name, Hash> { map t | t in s && !s[t].component :: s[t].fields }

  function Target(s: Schema): Name -> Hash { t => if t in s then s[t].fields else 0 }

  predicate IsPlanned(plans: seq<Plan>, t: Name) { exists p | p in plans :: p.table == t }

  /** The declaration is the same before and after. */
  predicate Unchanged(source: Schema, target: Schema, t: Name) { Root(source, t) && Root(target, t) && source[t] == target[t] }

  /** The tables whose rows are rewritten after the plans have run. */
  predicate IsRewritten(source: Schema, target: Schema, plans: seq<Plan>, t: Name) {
    t in target && !IsPlanned(plans, t) && !Unchanged(source, target, t)
  }

  /** Collect the tables that need no rewriting. */
  method SchemaMigrationWork(source: Schema, target: Schema, plans: seq<Plan>) returns (work: seq<Plan>, skip: set<Name>)
    ensures forall t | t in target :: t in skip <==> !IsRewritten(source, target, plans, t)
    ensures plans <= work
    ensures forall p | p in work[|plans|..] ::
      p.steps == [] && IsRewritten(source, target, plans, p.table) && Root(source, p.table) && Root(target, p.table)
    ensures forall t | Root(source, t) && Root(target, t) && IsRewritten(source, target, plans, t) :: Plan(t, []) in work[|plans|..]
  {
    work, skip := plans, {};
    for i := 0 to |plans|
      invariant forall t :: t in skip <==> exists j | 0 <= j < i :: plans[j].table == t
    {
      skip := skip + {plans[i].table};
    }
    ghost var planned := skip;
    assert forall t :: t in planned <==> IsPlanned(plans, t);
    var todo := FieldsOf(target).Keys;
    while todo != {}
      invariant todo <= FieldsOf(target).Keys && plans <= work
      invariant forall t :: t in skip <==> IsPlanned(plans, t) || (t !in todo && Unchanged(source, target, t))
      invariant forall p | p in work[|plans|..] ::
        p.steps == [] && IsRewritten(source, target, plans, p.table) && Root(source, p.table) && Root(target, p.table)
      invariant forall t | Root(source, t) && Root(target, t) && t !in todo && IsRewritten(source, target, plans, t) ::
        Plan(t, []) in work[|plans|..]
      decreases |todo|
    {
      var t :| t in todo;
      todo := todo - {t};
      if IsPlanned(plans, t) || !Root(source, t) { continue; }
      if source[t] == target[t] {
        skip := skip + {t};
        continue;
      }
      assert (work + [Plan(t, [])])[|plans|..] == work[|plans|..] + [Plan(t, [])];
      work := work + [Plan(t, [])];
    }
  }

  /** A table's rows after the pass that rewrites changed tables. */
  function RewrittenRows(env: Env, source: Schema, target: Schema, plans: seq<Plan>, pass: Pass, t: Name, rows: seq<Row>): Option<seq<Row>> {
    if IsRewritten(source, target, plans, t) then MigrateRows(env, [], pass, target[t].fields, rows) else Some(rows)
  }

  function Materialize(env: Env, source: Schema, target: Schema, plans: seq<Plan>, pass: Pass, rows: Rows): Option<Rows> {
    if forall t | t in rows :: RewrittenRows(env, source, target, plans, pass, t, rows[t]).Some?
    then Some(map t | t in rows :: RewrittenRows(env, source, target, plans, pass, t, rows[t]).value)
    else None
  }

  /** The rows after a move from one schema to another; None when it fails and nothing changes. */
  function Move(env: Env, source: Schema, target: Schema, plans: seq<Plan>, pass: Pass, rows: Rows): Option<Rows> {
    match ApplyPlans(env, plans, pass, Target(target), rows)
    case None => None
    case Some(mid) => Materialize(env, source, target, plans, pass, mid)
  }

  function Activated(env: Env, source: Schema, target: Schema, plans: seq<Plan>, at: Time, rows: Rows): Option<Rows> {
    Move(env, source, target, plans, Pass(Up, at), rows)
  }

  /** Rolling back moves from the current schema to the restored one, with the activation's plans reversed. */
  function RolledBack(env: Env, restored: Schema, current: Schema, plans: seq<Plan>, at: Time, rows: Rows): Option<Rows> {
    Move(env, current, restored, Reversed(plans), Pass(Down, at), rows)
  }

  /** What rewriting the tables in todo charges. */
  ghost function RewriteCosts(env: Env, source: Schema, target: Schema, plans: seq<Plan>, pass: Pass, rows: Rows, todo: set<Name>): map<Name, Spend> {
    map t | t in rows && t in todo && IsRewritten(source, target, plans, t) ::
      TableCost(env, [], Pass(Up, pass.at), target[t].fields, rows[t])
  }

  ghost function RewriteCost(env: Env, source: Schema, target: Schema, plans: seq<Plan>, pass: Pass, rows: Rows): Spend {
    SumEntries(RewriteCosts(env, source, target, plans, pass, rows, target.Keys))
  }

  /** What a move charges: its plans, and then the tables it rewrites. */
  ghost function MoveCost(env: Env, source: Schema, target: Schema, plans: seq<Plan>, pass: Pass, rows: Rows): Spend {
    PlansCost(env, plans, pass, Target(target), rows).Plus(
      match ApplyPlans(env, plans, pass, Target(target), rows)
      case None => NOTHING
      case Some(mid) => RewriteCost(env, source, target, plans, pass, mid))
  }

  /** The tables that are done hold their rewritten rows, the others what they held. */
  predicate RewrittenSoFar(env: Env, source: Schema, target: Schema, plans: seq<Plan>, pass: Pass, was: Rows, now: Rows, todo: set<Name>) {
    var ok := was.Keys == now.Keys && forall t | t in was ::
      if t in todo then now[t] == was[t] else RewrittenRows(env, source, target, plans, pass, t, was[t]) == Some(now[t]);
    ok
  }

  ghost predicate RewritingSoFar(env: Env, source: Schema, target: Schema, plans: seq<Plan>, pass: Pass, was: Rows, now: Rows,
                                 todo: set<Name>, before: Spend, spent: Spend) {
    var ok :=
      && RewrittenSoFar(env, source, target, plans, pass, was, now, todo) && WithinRun(spent)
      && before.Plus(RewriteCost(env, source, target, plans, pass, was))
         == spent.Plus(SumEntries(RewriteCosts(env, source, target, plans, pass, was, todo)));
    ok
  }

  lemma AllRewritten(env: Env, source: Schema, target: Schema, plans: seq<Plan>, pass: Pass, was: Rows, now: Rows, before: Spend, spent: Spend)
    requires RewritingSoFar(env, source, target, plans, pass, was, now, {}, before, spent)
    ensures Worked(before, RewriteCost(env, source, target, plans, pass, was), spent,
                   Materialize(env, source, target, plans, pass, was), Some(now), false)
  {
    MaterializedIs(env, source, target, plans, pass, was, now);
    assert RewriteCosts(env, source, target, plans, pass, was, {}) == map[];
    assert SumEntries<Name>(map[]) == NOTHING;
  }

  lemma PlansThenRewriting<T>(before: Spend, first: Spend, mid: Spend, second: Spend, after: Spend, wanted: Option<T>, r: Option<T>, limited: bool)
    requires mid == before.Plus(first) && Worked(mid, second, after, wanted, r, limited)
    ensures Worked(before, first.Plus(second), after, wanted, r, limited)
  {
    assert mid.Plus(second) == before.Plus(first.Plus(second));
  }

  /** The transaction's work on documents: plan by plan, then table by table, all from one budget. It succeeds
      exactly when the specified move does and its whole cost fits. */
  method MoveDocuments(env: Env, source: Schema, target: Schema, plans: seq<Plan>, pass: Pass, rows: Rows)
    returns (r: Option<Rows>, limited: bool)
    ensures r == if WithinRun(MoveCost(env, source, target, plans, pass, rows)) then Move(env, source, target, plans, pass, rows) else None
    ensures r.None? && !limited ==> Move(env, source, target, plans, pass, rows).None?
  {
    var _, skip := SchemaMigrationWork(source, target, plans);
    var budget := new Budget();
    var mid;
    mid, limited := budget.ApplyMigrationPlans(env, plans, pass, Target(target), rows);
    if mid.None? {
      return None, limited;
    }
    ghost var between := budget.Spent();
    r, limited := RewriteTables(env, budget, source, target, plans, pass, skip, mid.value);
    PlansThenRewriting(NOTHING, PlansCost(env, plans, pass, Target(target), rows), between,
                       RewriteCost(env, source, target, plans, pass, mid.value), budget.Spent(),
                       Materialize(env, source, target, plans, pass, mid.value), r, limited);
    MoveEnds(env, source, target, plans, pass, rows, budget.Spent(), r, limited);
  }

  lemma WorkedAlone<T>(cost: Spend, after: Spend, wanted: Option<T>, r: Option<T>, limited: bool)
    requires Worked(NOTHING, cost, after, wanted, r, limited)
    ensures r == if WithinRun(cost) then wanted else None
    ensures r.None? && !limited ==> wanted.None?
  {
    assert NOTHING.Plus(cost) == cost;
  }

  lemma MoveEnds(env: Env, source: Schema, target: Schema, plans: seq<Plan>, pass: Pass, rows: Rows, after: Spend, r: Option<Rows>, limited: bool)
    requires ApplyPlans(env, plans, pass, Target(target), rows).Some?
    requires Worked(NOTHING, MoveCost(env, source, target, plans, pass, rows), after, Move(env, source, target, plans, pass, rows), r, limited)
    ensures r == if WithinRun(MoveCost(env, source, target, plans, pass, rows)) then Move(env, source, target, plans, pass, rows) else None
    ensures r.None? && !limited ==> Move(env, source, target, plans, pass, rows).None?
  {
    WorkedAlone(MoveCost(env, source, target, plans, pass, rows), after, Move(env, source, target, plans, pass, rows), r, limited);
  }

  method RewriteTables(env: Env, budget: Budget, ghost source: Schema, target: Schema, ghost plans: seq<Plan>, pass: Pass, skip: set<Name>, rows: Rows)
    returns (r: Option<Rows>, limited: bool)
    requires WithinRun(budget.Spent())
    requires forall t | t in target :: t in skip <==> !IsRewritten(source, target, plans, t)
    modifies budget
    ensures Worked(old(budget.Spent()), RewriteCost(env, source, target, plans, pass, rows), budget.Spent(),
                   Materialize(env, source, target, plans, pass, rows), r, limited)
  {
    var current: Rows := rows;
    var todo := target.Keys;
    while todo != {}
      invariant todo <= target.Keys
      invariant RewritingSoFar(env, source, target, plans, pass, rows, current, todo, old(budget.Spent()), budget.Spent())
      decreases |todo|
    {
      var t :| t in todo;
      if t !in skip && t in current {
        ghost var now := budget.Spent();
        var done;
        done, limited := budget.TryTable(env, Plan(t, []), Pass(Up, pass.at), target[t].fields, current[t]);
        TableRewritten(env, source, target, plans, pass, rows, current, todo, t, old(budget.Spent()), now, budget.Spent(), done, limited);
        if done.None? { return None, limited; }
        current := current[t := done.value];
      } else {
        TableSkipped(env, source, target, plans, pass, rows, current, todo, t, old(budget.Spent()), budget.Spent());
      }
      todo := todo - {t};
    }
    AllRewritten(env, source, target, plans, pass, rows, current, old(budget.Spent()), budget.Spent());
    r, limited := Some(current), false;
  }

  lemma TableRewritten(env: Env, source: Schema, target: Schema, plans: seq<Plan>, pass: Pass, was: Rows, now: Rows, todo: set<Name>, t: Name,
                       before: Spend, spent: Spend, after: Spend, done: Option<seq<Row>>, limited: bool)
    requires RewritingSoFar(env, source, target, plans, pass, was, now, todo, before, spent)
    requires t in todo && t in now && IsRewritten(source, target, plans, t)
    requires Worked(spent, TableCost(env, [], Pass(Up, pass.at), target[t].fields, now[t]), after,
                    MigrateRows(env, [], Pass(Up, pass.at), target[t].fields, now[t]), done, limited)
    ensures done.None? ==> Worked(before, RewriteCost(env, source, target, plans, pass, was), after,
                                  Materialize(env, source, target, plans, pass, was), None, limited)
    ensures done.Some? ==> RewritingSoFar(env, source, target, plans, pass, was, now[t := done.value], todo - {t}, before, after)
  {
    RewritingIgnoresPass(env, pass, Pass(Up, pass.at), target[t].fields, was[t]);
    TableCharge(env, source, target, plans, pass, was, todo, t);
    var cost := TableCost(env, [], Pass(Up, pass.at), target[t].fields, was[t]);
    var total := RewriteCost(env, source, target, plans, pass, was);
    var rest := SumEntries(RewriteCosts(env, source, target, plans, pass, was, todo - {t}));
    var rewritten := RewrittenRows(env, source, target, plans, pass, t, was[t]);
    if done.Some? {
      TableHolds(env, source, target, plans, pass, was, now, todo, t, done.value);
      TableGoesOn(before, total, spent, cost, rest, after, rewritten, done, limited);
    }
  }

  lemma TableHolds(env: Env, source: Schema, target: Schema, plans: seq<Plan>, pass: Pass, was: Rows, now: Rows, todo: set<Name>, t: Name, rows: seq<Row>)
    requires RewrittenSoFar(env, source, target, plans, pass, was, now, todo) && t in todo && t in now
    requires RewrittenRows(env, source, target, plans, pass, t, was[t]) == Some(rows)
    ensures RewrittenSoFar(env, source, target, plans, pass, was, now[t := rows], todo - {t})
  {
  }

  lemma TableCharge(env: Env, source: Schema, target: Schema, plans: seq<Plan>, pass: Pass, was: Rows, todo: set<Name>, t: Name)
    requires t in todo && t in was && IsRewritten(source, target, plans, t)
    ensures SumEntries(RewriteCosts(env, source, target, plans, pass, was, todo))
         == TableCost(env, [], Pass(Up, pass.at), target[t].fields, was[t])
            .Plus(SumEntries(RewriteCosts(env, source, target, plans, pass, was, todo - {t})))
  {
    var costs, rest := RewriteCosts(env, source, target, plans, pass, was, todo), RewriteCosts(env, source, target, plans, pass, was, todo - {t});
    SumOneLess(costs, rest, t);
  }

  lemma TableGoesOn(before: Spend, total: Spend, spent: Spend, cost: Spend, rest: Spend, after: Spend, one: Option<seq<Row>>,
                    done: Option<seq<Row>>, limited: bool)
    requires before.Plus(total) == spent.Plus(cost.Plus(rest)) && Worked(spent, cost, after, one, done, limited) && done.Some?
    ensures before.Plus(total) == after.Plus(rest) && WithinRun(after)
  {
  }

  lemma TableSkipped(env: Env, source: Schema, target: Schema, plans: seq<Plan>, pass: Pass, was: Rows, now: Rows, todo: set<Name>, t: Name,
                     before: Spend, spent: Spend)
    requires RewritingSoFar(env, source, target, plans, pass, was, now, todo, before, spent)
    requires t in todo && (t in now ==> !IsRewritten(source, target, plans, t))
    ensures RewritingSoFar(env, source, target, plans, pass, was, now, todo - {t}, before, spent)
  {
    assert RewriteCosts(env, source, target, plans, pass, was, todo - {t}) == RewriteCosts(env, source, target, plans, pass, was, todo);
  }

  lemma {:induction false} RewritingIgnoresPass(env: Env, a: Pass, b: Pass, target: Hash, rows: seq<Row>)
    ensures MigrateRows(env, [], a, target, rows) == MigrateRows(env, [], b, target, rows)
    decreases |rows|
  {
    if rows != [] { RewritingIgnoresPass(env, a, b, target, rows[1..]); }
  }

  // ----- what a rollback restores

  /** Rewriting under the target and then under the source gives the document back. */
  predicate RoundTrips(env: Env, source: Hash, target: Hash, d: Doc) {
    env.normal(target, d).Some? && env.normal(source, env.normal(target, d).value) == Some(d)
  }

  /** What it takes for a table to come back. Planned and unchanged tables always do, and so do tables that the
      target does not have. A changed table without a plan needs each of its documents to survive both
      rewritings; a table that only the target has, left over from an older schema, is rewritten once and
      must be as the target leaves it. */
  predicate ComesBack(env: Env, source: Schema, target: Schema, plans: seq<Plan>, t: Name, rows: seq<Row>) {
    var ok := IsRewritten(source, target, plans, t) ==>
      if t in source then forall row | row in rows :: RoundTrips(env, source[t].fields, target[t].fields, row.doc)
      else forall row | row in rows :: env.Written(target[t].fields, row);
    ok
  }

  /** Every stored row of a declared table is as a write under its schema left it. */
  ghost predicate AsWritten(env: Env, source: Schema, rows: Rows) {
    && (forall t | t in source :: t in rows)
    && forall t, row | t in source && t in rows && row in rows[t] :: env.Written(source[t].fields, row)
  }

  /** Plans as the planner makes them, of steps whose down undoes their up. */
  ghost predicate GoodPlans(env: Env, source: Schema, target: Schema, plans: seq<Plan>) {
    && OnePlanPerTable(plans)
    && forall p | p in plans ::
      && Root(source, p.table) && Root(target, p.table)
      && HashPath(p.steps, source[p.table].fields, target[p.table].fields)
      && forall m | m in p.steps :: env.Undoes(m)
  }

  lemma ReversedPlans(plans: seq<Plan>)
    ensures forall p :: p in Reversed(plans) <==> p in plans
    ensures forall t :: IsPlanned(Reversed(plans), t) <==> IsPlanned(plans, t)
    ensures OnePlanPerTable(plans) ==> OnePlanPerTable(Reversed(plans))
  {
    forall p ensures p in Reversed(plans) <==> p in plans {
      if p in plans {
        var i :| 0 <= i < |plans| && plans[i] == p;
        assert Reversed(plans)[|plans| - 1 - i] == p;
      }
    }
  }

  // ----- one rewritten table

  lemma {:induction false} RewritingEach(env: Env, pass: Pass, target: Hash, rows: seq<Row>)
    ensures MigrateRows(env, [], pass, target, rows).Some? <==> forall i | 0 <= i < |rows| :: Stored(env, target, rows[i].who, rows[i].doc).Some?
    ensures MigrateRows(env, [], pass, target, rows).Some? ==>
      var r := MigrateRows(env, [], pass, target, rows).value;
      |r| == |rows| && forall i | 0 <= i < |rows| :: Some(r[i]) == Stored(env, target, rows[i].who, rows[i].doc)
    decreases |rows|
  {
    if rows != [] {
      RewritingEach(env, pass, target, rows[1..]);
      assert forall i | 1 <= i < |rows| :: rows[i] == rows[1..][i - 1];
    }
  }

  /** A rewriting under the target and one under the source: the rows come back exactly when every document
      round-trips. */
  lemma BothRewritings(env: Env, source: Hash, target: Hash, up: Pass, down: Pass, rows: seq<Row>)
    requires forall row | row in rows :: env.Written(source, row)
    requires MigrateRows(env, [], up, target, rows).Some?
    ensures MigrateRows(env, [], down, source, MigrateRows(env, [], up, target, rows).value) == Some(rows)
        <==> forall row | row in rows :: RoundTrips(env, source, target, row.doc)
  {
    var mid := MigrateRows(env, [], up, target, rows).value;
    RewritingEach(env, up, target, rows);
    RewritingEach(env, down, source, mid);
    var back := MigrateRows(env, [], down, source, mid);
    forall i | 0 <= i < |rows|
      ensures Stored(env, source, mid[i].who, mid[i].doc) == Some(rows[i]) <==> RoundTrips(env, source, target, rows[i].doc)
    {
      assert rows[i] in rows;
    }
    if forall row | row in rows :: RoundTrips(env, source, target, row.doc) {
      forall i | 0 <= i < |rows| ensures Stored(env, source, mid[i].who, mid[i].doc) == Some(rows[i]) { assert rows[i] in rows; }
      assert back.value == rows;
    }
    if back == Some(rows) {
      forall row | row in rows ensures RoundTrips(env, source, target, row.doc) {
        var i :| 0 <= i < |rows| && rows[i] == row;
        assert Some(back.value[i]) == Stored(env, source, mid[i].who, mid[i].doc);
      }
    }
  }

  /** Rewriting rows that a write under the same schema left changes nothing, and changes any others. */
  lemma RewritingWritten(env: Env, target: Hash, pass: Pass, rows: seq<Row>)
    ensures MigrateRows(env, [], pass, target, rows) == Some(rows) <==> forall row | row in rows :: env.Written(target, row)
  {
    RewritingEach(env, pass, target, rows);
    var r := MigrateRows(env, [], pass, target, rows);
    if forall row | row in rows :: env.Written(target, row) {
      forall i | 0 <= i < |rows| ensures Stored(env, target, rows[i].who, rows[i].doc) == Some(rows[i]) { assert rows[i] in rows; }
      assert r.value == rows;
    }
    if r == Some(rows) {
      forall row | row in rows ensures env.Written(target, row) {
        var i :| 0 <= i < |rows| && rows[i] == row;
        assert Some(r.value[i]) == Stored(env, target, rows[i].who, rows[i].doc);
      }
    }
  }

  /** One table that no plan names, through activation and rollback. */
  lemma UnplannedTable(env: Env, source: Schema, target: Schema, plans: seq<Plan>, up: Pass, down: Pass, t: Name, rows: seq<Row>)
    requires !IsPlanned(plans, t) && (t in source ==> forall row | row in rows :: env.Written(source[t].fields, row))
    requires RewrittenRows(env, source, target, plans, up, t, rows).Some?
    ensures RewrittenRows(env, target, source, Reversed(plans), down, t, RewrittenRows(env, source, target, plans, up, t, rows).value) == Some(rows)
        <==> ComesBack(env, source, target, plans, t, rows)
  {
    ReversedPlans(plans);
    if t in source && IsRewritten(source, target, plans, t) {
      BothRewritings(env, source[t].fields, target[t].fields, up, down, rows);
    } else if t in source {
      RewritingWritten(env, source[t].fields, down, rows);
    } else if t in target {
      RewritingWritten(env, target[t].fields, up, rows);
    }
  }

  // ----- the whole move and back

  lemma AfterActivation(env: Env, source: Schema, target: Schema, plans: seq<Plan>, at: Time, rows: Rows)
    requires AsWritten(env, source, rows) && GoodPlans(env, source, target, plans)
    requires Activated(env, source, target, plans, at, rows).Some?
    ensures var after := Activated(env, source, target, plans, at, rows).value;
      && after.Keys == rows.Keys
      && forall t | t in rows && !IsPlanned(plans, t) :: Some(after[t]) == RewrittenRows(env, source, target, plans, Pass(Up, at), t, rows[t])
  {
    var mid := ApplyPlans(env, plans, Pass(Up, at), Target(target), rows).value;
    PlannedKeys(env, plans, Pass(Up, at), Target(target), rows);
    forall t | !IsPlanned(plans, t) ensures (t in mid <==> t in rows) && RowsOf(mid, t) == RowsOf(rows, t) {
      OthersUntouched(env, plans, Pass(Up, at), Target(target), rows, t);
    }
  }

  /** Plans of tables that have rows add no table. */
  lemma {:induction false} PlannedKeys(env: Env, plans: seq<Plan>, pass: Pass, targets: Name -> Hash, rows: Rows)
    requires ApplyPlans(env, plans, pass, targets, rows).Some? && forall p | p in plans :: p.table in rows
    ensures ApplyPlans(env, plans, pass, targets, rows).value.Keys == rows.Keys
    decreases |plans|
  {
    if plans != [] {
      var p := plans[0];
      assert p in plans;
      var next := MigrateRows(env, StepsFor(p, pass.dir), pass, targets(p.table), RowsOf(rows, p.table)).value;
      PlannedKeys(env, plans[1..], pass, targets, rows[p.table := next]);
    }
  }

  /** The plans down, on the rows that activation left: planned tables are back, the others as they were left. */
  lemma PlansBack(env: Env, source: Schema, target: Schema, plans: seq<Plan>, up: Time, down: Time, rows: Rows)
    requires env.Idempotent() && AsWritten(env, source, rows) && GoodPlans(env, source, target, plans)
    requires Activated(env, source, target, plans, up, rows).Some?
    ensures var after := Activated(env, source, target, plans, up, rows).value;
      var back := ApplyPlans(env, Reversed(plans), Pass(Down, down), Target(source), after);
      && after.Keys == rows.Keys && back.Some? && back.value.Keys == rows.Keys
      && forall t | t in rows :: back.value[t] == if IsPlanned(plans, t) then rows[t] else after[t]
  {
    var after := Activated(env, source, target, plans, up, rows).value;
    var mid := ApplyPlans(env, plans, Pass(Up, up), Target(target), rows).value;
    PlannedTablesRestored(env, plans, Target(source), Target(target), up, down, rows);
    AfterActivation(env, source, target, plans, up, rows);
    PlannedKeys(env, plans, Pass(Up, up), Target(target), rows);
    ReversedPlans(plans);
    var reversed := Reversed(plans);
    forall p | p in reversed ensures RowsOf(mid, p.table) == RowsOf(after, p.table) {
      assert IsPlanned(plans, p.table) && p.table in mid;
    }
    OthersIrrelevant(env, reversed, Pass(Down, down), Target(source), mid, after);
    PlannedKeys(env, reversed, Pass(Down, down), Target(source), after);
    var back := ApplyPlans(env, reversed, Pass(Down, down), Target(source), after).value;
    forall t | t in rows ensures back[t] == if IsPlanned(plans, t) then rows[t] else after[t] {
      if IsPlanned(plans, t) {
        var p :| p in plans && p.table == t;
        assert p in reversed && RowsOf(rows, t) == RowsOf(back, t);
      } else {
        OthersUntouched(env, reversed, Pass(Down, down), Target(source), after, t);
      }
    }
  }

  /** The first rollback after an activation restores every row of every table, projections included, exactly
      when every changed table without a plan comes back. Both sides are about the rows before the activation. */
  lemma RollbackRestoresExactly(env: Env, source: Schema, target: Schema, plans: seq<Plan>, up: Time, down: Time, rows: Rows)
    requires env.Idempotent() && AsWritten(env, source, rows) && GoodPlans(env, source, target, plans)
    requires Activated(env, source, target, plans, up, rows).Some?
    ensures RolledBack(env, source, target, plans, down, Activated(env, source, target, plans, up, rows).value) == Some(rows)
        <==> forall t | t in rows :: ComesBack(env, source, target, plans, t, rows[t])
  {
    var after := Activated(env, source, target, plans, up, rows).value;
    PlansBack(env, source, target, plans, up, down, rows);
    AfterActivation(env, source, target, plans, up, rows);
    ReversedPlans(plans);
    var back := ApplyPlans(env, Reversed(plans), Pass(Down, down), Target(source), after).value;
    forall t | t in rows
      ensures RewrittenRows(env, target, source, Reversed(plans), Pass(Down, down), t, back[t]) == Some(rows[t])
          <==> ComesBack(env, source, target, plans, t, rows[t])
    {
      if !IsPlanned(plans, t) { UnplannedTable(env, source, target, plans, Pass(Up, up), Pass(Down, down), t, rows[t]); }
    }
    MaterializedIs(env, target, source, Reversed(plans), Pass(Down, down), back, rows);
  }

  lemma MaterializedIs(env: Env, source: Schema, target: Schema, plans: seq<Plan>, pass: Pass, rows: Rows, want: Rows)
    requires rows.Keys == want.Keys
    ensures Materialize(env, source, target, plans, pass, rows) == Some(want)
        <==> forall t | t in rows :: RewrittenRows(env, source, target, plans, pass, t, rows[t]) == Some(want[t])
  {
    var r := Materialize(env, source, target, plans, pass, rows);
    if forall t | t in rows :: RewrittenRows(env, source, target, plans, pass, t, rows[t]) == Some(want[t]) {
      assert r.value == want;
    }
    if r == Some(want) {
      forall t | t in rows ensures RewrittenRows(env, source, target, plans, pass, t, rows[t]) == Some(want[t]) {
        assert r.value[t] == want[t];
      }
    }
  }

  // ----- planning again for the rollback

  /** What planning promises of its result. */
  ghost predicate IsPlanOf(migrations: seq<Migration>, source: Schema, target: Schema, plans: seq<Plan>) {
    && SortedPlans(plans) && OnePlanPerTable(plans)
    && (forall table | table in FieldsOf(target) ::
          Plannable(migrations, table, SourceOf(FieldsOf(source), table), FieldsOf(target)[table]))
    && (forall p | p in plans :: PlanFits(migrations, FieldsOf(source), FieldsOf(target), p))
    && forall table | NeedsPlan(migrations, FieldsOf(source), FieldsOf(target), table) :: IsPlanned(plans, table)
  }

  predicate LeavesAt(m: Migration, h: Hash) { m.from == h }

  ghost function StepFrom(mine: set<Migration>, h: Hash): (m: Migration)
    requires exists m :: m in mine && LeavesAt(m, h)
    ensures m in mine && m.from == h
  {
    var m :| m in mine && LeavesAt(m, h);
    m
  }

  lemma LinksExist(migrations: seq<Migration>, table: Name) returns (links: Links)
    requires !SharesSource(migrations, table)
    ensures LinksOf(links, migrations, table)
  {
    var mine := set m | m in migrations && m.table == table;
    forall m, n | m in mine && n in mine && m.from == n.from ensures m == n {
      var i :| 0 <= i < |migrations| && migrations[i] == m;
      var j :| 0 <= j < |migrations| && migrations[j] == n;
    }
    var froms := set m | m in mine :: m.from;
    forall h | h in froms ensures exists m :: m in mine && LeavesAt(m, h) {
      var m :| m in mine && m.from == h;
      assert LeavesAt(m, h);
    }
    links := map h | h in froms :: StepFrom(mine, h);
  }

  /** Two plannings of the same move agree on every plan. */
  lemma SamePlan(migrations: seq<Migration>, source: Schema, target: Schema, a: seq<Plan>, b: seq<Plan>, p: Plan)
    requires IsPlanOf(migrations, source, target, a) && IsPlanOf(migrations, source, target, b) && p in a
    ensures p in b
  {
    var sources, goals := FieldsOf(source), FieldsOf(target);
    assert PlanFits(migrations, sources, goals, p);
    assert p.steps[0] in p.steps;
    assert NeedsPlan(migrations, sources, goals, p.table);
    var q :| q in b && q.table == p.table;
    assert PlanFits(migrations, sources, goals, q);
    assert Plannable(migrations, p.table, SourceOf(sources, p.table), goals[p.table]);
    var links := LinksExist(migrations, p.table);
    PathsAreUnique(migrations, p.table, links, p.steps, q.steps, sources[p.table], goals[p.table]);
  }

  /** Plans of one move start with different steps, so their order is strict. */
  lemma StrictlySorted(migrations: seq<Migration>, source: Schema, target: Schema, plans: seq<Plan>, i: nat, j: nat)
    requires UniqueIds(migrations) && IsPlanOf(migrations, source, target, plans) && i < j < |plans|
    ensures FirstId(plans[i]) < FirstId(plans[j])
  {
    var p, q := plans[i], plans[j];
    assert p in plans && q in plans;
    assert PlanFits(migrations, FieldsOf(source), FieldsOf(target), p) && PlanFits(migrations, FieldsOf(source), FieldsOf(target), q);
    assert p.steps[0] in p.steps && q.steps[0] in q.steps;
    SameIdSameStep(migrations, p.steps[0], q.steps[0]);
  }

  predicate StrictlyOrdered(plans: seq<Plan>) { forall i, j | 0 <= i < j < |plans| :: FirstId(plans[i]) < FirstId(plans[j]) }

  lemma {:induction false} SameOrder(a: seq<Plan>, b: seq<Plan>)
    requires StrictlyOrdered(a) && StrictlyOrdered(b) && forall p :: p in a <==> p in b
    ensures a == b
    decreases |a|
  {
    if a == [] || b == [] {
      FirstElement(a);
      FirstElement(b);
    } else {
      assert a[0] in b && b[0] in a;
      var i :| 0 <= i < |b| && b[i] == a[0];
      var j :| 0 <= j < |a| && a[j] == b[0];
      assert i == 0;
      var x, y := a[1..], b[1..];
      forall p ensures p in x <==> p in y {
        if p in x { TailElement(a, b, p); }
        if p in y { TailElement(b, a, p); }
      }
      SameOrder(x, y);
      assert a == [a[0]] + x && b == [b[0]] + y;
    }
  }

  lemma FirstElement(a: seq<Plan>)
    ensures a == [] || exists p :: p in a
  {
    if a != [] { assert a[0] in a; }
  }

  lemma TailElement(a: seq<Plan>, b: seq<Plan>, p: Plan)
    requires StrictlyOrdered(a) && a != [] && b != [] && a[0] == b[0] && p in a[1..] && p in b
    ensures p in b[1..]
  {
    var i :| 0 <= i < |a[1..]| && a[1..][i] == p;
    assert a[i + 1] == p;
    var k :| 0 <= k < |b| && b[k] == p;
    assert k > 0;
    assert b[1..][k - 1] == p;
  }

  /** The plans are determined by the manifests. */
  lemma PlansAreDetermined(migrations: seq<Migration>, source: Schema, target: Schema, a: seq<Plan>, b: seq<Plan>)
    requires UniqueIds(migrations) && IsPlanOf(migrations, source, target, a) && IsPlanOf(migrations, source, target, b)
    ensures a == b
  {
    forall p ensures p in a <==> p in b {
      if p in a { SamePlan(migrations, source, target, a, b, p); }
      if p in b { SamePlan(migrations, source, target, b, a, p); }
    }
    forall i, j | 0 <= i < j < |a| ensures FirstId(a[i]) < FirstId(a[j]) { StrictlySorted(migrations, source, target, a, i, j); }
    forall i, j | 0 <= i < j < |b| ensures FirstId(b[i]) < FirstId(b[j]) { StrictlySorted(migrations, source, target, b, i, j); }
    SameOrder(a, b);
  }

  lemma PlannedAreGood(env: Env, migrations: seq<Migration>, source: Schema, target: Schema, plans: seq<Plan>)
    requires IsPlanOf(migrations, source, target, plans) && forall m | m in migrations :: env.Undoes(m)
    ensures GoodPlans(env, source, target, plans)
  {
    forall p | p in plans
      ensures Root(source, p.table) && Root(target, p.table) && HashPath(p.steps, source[p.table].fields, target[p.table].fields)
      ensures forall m | m in p.steps :: env.Undoes(m)
    {
      assert PlanFits(migrations, FieldsOf(source), FieldsOf(target), p);
    }
  }

  /** Activate, then roll back. The rollback plans again from the same two manifests, and gets the plans that the
      activation ran. All rows are back exactly when every changed table without a plan comes back. */
  method ActivateAndRollBack(env: Env, migrations: seq<Migration>, source: Schema, target: Schema, up: Time, down: Time, rows: Rows)
    returns (after: Option<Rows>, back: Option<Rows>, ghost plans: seq<Plan>)
    requires UniqueIds(migrations) && env.Idempotent() && AsWritten(env, source, rows)
    requires forall m | m in migrations :: env.Undoes(m)
    ensures after.None? ==> back.None?
    ensures after.Some? ==> IsPlanOf(migrations, source, target, plans) && after == Activated(env, source, target, plans, up, rows)
    ensures after.Some? ==> (back == Some(rows) <==> forall t | t in rows :: ComesBack(env, source, target, plans, t, rows[t]))
  {
    back, plans := None, [];
    var planned := PlanMigrations(migrations, FieldsOf(source), FieldsOf(target));
    if planned.None? { return None, None, []; }
    plans := planned.value;
    assert IsPlanOf(migrations, source, target, plans);
    after := Activated(env, source, target, planned.value, up, rows);
    if after.None? { return; }
    var again := PlanMigrations(migrations, FieldsOf(source), FieldsOf(target));
    assert IsPlanOf(migrations, source, target, again.value);
    PlansAreDetermined(migrations, source, target, plans, again.value);
    PlannedAreGood(env, migrations, source, target, plans);
    back := RolledBack(env, source, target, again.value, down, after.value);
    RollbackRestoresExactly(env, source, target, plans, up, down, rows);
  }

  // ----- tables that do not come back

  ghost function NormalUnder(c: Checks, schemas: map<Hash, Validator>, h: Hash, d: Doc): Option<Doc> {
    if h !in schemas then None
    else match Norm(c, map[], schemas[h], Some(d), 0)
      case Present(y) => Some(y)
      case _ => None
  }

  /** Validators without unions normalize idempotently. */
  lemma UnionFreeIsIdempotent(c: Checks, schemas: map<Hash, Validator>, env: Env)
    requires forall h | h in schemas :: WellShaped(schemas[h]) && UnionFree(schemas[h])
    requires forall h, d :: env.normal(h, d) == NormalUnder(c, schemas, h, d)
    ensures env.Idempotent()
  {
    forall h, d | env.normal(h, d).Some? ensures env.normal(h, env.normal(h, d).value) == env.normal(h, d) {
      NormalizedIsAcceptedAgain(c, map[], schemas[h], Some(d), 0);
    }
  }

  // ----- what an operator can tell from the two schemas

  /** Fills in a field that is absent. */
  ghost predicate Fills(c: Checks, v: Validator) { Norm(c, map[], v, None, 2).Present? }

  ghost predicate MayBeAbsent(c: Checks, v: Validator) { Norm(c, map[], v, None, 2) == Absent }

  /** The same validator, or an optional one that gets a default or the other way round. */
  predicate SameValues(a: Validator, b: Validator) {
    a == b || ((a.VOptional? || a.VDefaulted?) && (b.VOptional? || b.VDefaulted?) && a.inner == b.inner)
  }

  /** Fields come and go, and get or lose a default; what a field holds stays the same. */
  predicate OnlyDefaultsChange(source: map<Bytes, Validator>, target: map<Bytes, Validator>) {
    forall k | k in source && k in target :: SameValues(source[k], target[k])
  }

  /** The target fills a field that documents of the source may lack. */
  ghost predicate NewDefault(c: Checks, source: map<Bytes, Validator>, target: map<Bytes, Validator>, k: Bytes) {
    k in target && Fills(c, target[k]) && (k in source ==> MayBeAbsent(c, source[k]))
  }

  /** A document under an object schema. */
  ghost function ShapedAs(c: Checks, shape: map<Bytes, Validator>, d: Doc): Option<Doc> {
    match Norm(c, map[], VObject(shape), Some(d), 0)
    case Present(y) => Some(y)
    case _ => None
  }

  lemma ShapedObject(c: Checks, shape: map<Bytes, Validator>, d: Doc)
    requires ShapedAs(c, shape, d).Some?
    ensures d.WObj? && KeysOK(shape, d.fields) && FieldsAccepted(c, map[], shape, d.fields, 2)
    ensures ShapedAs(c, shape, d) == Some(WObj(NormFields(c, map[], shape, d.fields, 2)))
  {
  }

  /** What each field of a written document says about its validator. */
  lemma WrittenField(c: Checks, shape: map<Bytes, Validator>, d: Doc, k: Bytes)
    requires ShapedAs(c, shape, d) == Some(d) && d.WObj?
    ensures k in d.fields ==> k in shape && Norm(c, map[], shape[k], Some(d.fields[k]), 2) == Present(d.fields[k])
    ensures k in shape && k !in d.fields ==> MayBeAbsent(c, shape[k])
  {
    ShapedObject(c, shape, d);
    var ys := NormFields(c, map[], shape, d.fields, 2);
    assert ys == d.fields;
    if k in shape { assert Norm(c, map[], shape[k], Lookup(d.fields, k), 2) != Fail; }
    if k in d.fields { assert ys[k] == d.fields[k]; }
  }

  /** Rewriting a written document changes it only by filling absent fields. */
  lemma RewritingOnlyFills(c: Checks, source: map<Bytes, Validator>, target: map<Bytes, Validator>, d: Doc)
    requires ShapedAs(c, source, d) == Some(d) && ShapedAs(c, target, d).Some? && OnlyDefaultsChange(source, target)
    ensures var y := ShapedAs(c, target, d).value;
      && d.WObj? && y.WObj? && (forall k | k in d.fields :: k in y.fields && y.fields[k] == d.fields[k])
      && forall k :: k in y.fields && k !in d.fields <==> k in target && k !in d.fields && Fills(c, target[k])
  {
    ShapedObject(c, source, d);
    ShapedObject(c, target, d);
    forall k | k in d.fields ensures RewrittenField(c, target, d, k) == Present(d.fields[k]) { ValueStays(c, source, target, d, k); }
    forall k | k in target ensures k in ShapedAs(c, target, d).value.fields <==> RewrittenField(c, target, d, k).Present? {}
  }

  /** What the target makes of a field. */
  ghost function RewrittenField(c: Checks, target: map<Bytes, Validator>, d: Doc, k: Bytes): Outcome
    requires d.WObj?
  {
    if k in target then Norm(c, map[], target[k], Lookup(d.fields, k), 2) else Absent
  }

  lemma ValueStays(c: Checks, source: map<Bytes, Validator>, target: map<Bytes, Validator>, d: Doc, k: Bytes)
    requires ShapedAs(c, source, d) == Some(d) && ShapedAs(c, target, d).Some? && OnlyDefaultsChange(source, target)
    requires d.WObj? && k in d.fields
    ensures RewrittenField(c, target, d, k) == Present(d.fields[k])
  {
    ShapedObject(c, target, d);
    WrittenField(c, source, d, k);
  }

  /** A document that only the defaults touch comes back exactly when the target fills none of its absent fields. */
  lemma RoundTripsExactly(c: Checks, source: map<Bytes, Validator>, target: map<Bytes, Validator>, d: Doc)
    requires ShapedAs(c, source, d) == Some(d) && ShapedAs(c, target, d).Some? && OnlyDefaultsChange(source, target)
    ensures ShapedAs(c, source, ShapedAs(c, target, d).value) == Some(d)
        <==> d.WObj? && forall k | k in target && k !in d.fields :: !Fills(c, target[k])
  {
    var y := ShapedAs(c, target, d).value;
    RewritingOnlyFills(c, source, target, d);
    if forall k | k in target && k !in d.fields :: !Fills(c, target[k]) {
      assert y.fields.Keys == d.fields.Keys;
      assert y.fields == d.fields;
    } else if ShapedAs(c, source, y).Some? {
      var k :| k in target && k !in d.fields && Fills(c, target[k]);
      assert k in y.fields;
      KeepsPresent(c, source, y, k);
    }
  }

  lemma KeepsPresent(c: Checks, shape: map<Bytes, Validator>, d: Doc, k: Bytes)
    requires ShapedAs(c, shape, d).Some? && d.WObj? && k in d.fields
    ensures k in ShapedAs(c, shape, d).value.fields
  {
    ShapedObject(c, shape, d);
    PresentStaysPresent(c, map[], shape[k], d.fields[k], 2);
    assert Norm(c, map[], shape[k], Lookup(d.fields, k), 2) != Fail;
  }

  /** Known from the two schemas alone, before any activation: without a new default every document that the target
      accepts comes back; with one, no document that lacks the field does. */
  lemma SafeChange(c: Checks, source: map<Bytes, Validator>, target: map<Bytes, Validator>, d: Doc)
    requires ShapedAs(c, source, d) == Some(d) && ShapedAs(c, target, d).Some? && OnlyDefaultsChange(source, target)
    ensures (forall k :: !NewDefault(c, source, target, k)) ==> ShapedAs(c, source, ShapedAs(c, target, d).value) == Some(d)
    ensures forall k | NewDefault(c, source, target, k) && d.WObj? && k !in d.fields ::
      ShapedAs(c, source, ShapedAs(c, target, d).value) != Some(d)
  {
    RoundTripsExactly(c, source, target, d);
    ShapedObject(c, source, d);
    forall k | k in target && k !in d.fields && Fills(c, target[k]) ensures NewDefault(c, source, target, k) {
      WrittenField(c, source, d, k);
    }
  }

  /** So a table whose change brings no new default comes back as a whole. */
  lemma SafeChangesComeBack(c: Checks, schemas: map<Hash, Validator>, env: Env, source: Schema, target: Schema, plans: seq<Plan>, t: Name, rows: seq<Row>)
    requires forall h, d :: env.normal(h, d) == NormalUnder(c, schemas, h, d)
    requires t in source && t in target && source[t].fields in schemas && target[t].fields in schemas
    requires schemas[source[t].fields].VObject? && schemas[target[t].fields].VObject?
    requires forall row | row in rows :: env.Written(source[t].fields, row) && env.normal(target[t].fields, row.doc).Some?
    requires OnlyDefaultsChange(schemas[source[t].fields].shape, schemas[target[t].fields].shape)
    requires forall k :: !NewDefault(c, schemas[source[t].fields].shape, schemas[target[t].fields].shape, k)
    ensures ComesBack(env, source, target, plans, t, rows)
  {
    var a, b := schemas[source[t].fields], schemas[target[t].fields];
    forall row | row in rows ensures RoundTrips(env, source[t].fields, target[t].fields, row.doc) {
      assert env.Written(source[t].fields, row);
      assert VObject(a.shape) == a && VObject(b.shape) == b;
      SafeChange(c, a.shape, b.shape, row.doc);
    }
  }

  const F: Bytes := [102]  // "f"
  const X: Wire := WStr([120])  // "x"

  /** Two schemas of one table: its field f is optional, or has a default; and a third without the field. */
  function ThreeSchemas(): map<Hash, Validator> {
    map[1 := VObject(map[F := VOptional(VString)]), 2 := VObject(map[F := VDefaulted(VString, X)]), 3 := VObject(map[])]
  }

  function FixedKeys(h: Hash, d: Doc): Option<Keys> { Some(0) }

  function NoBytes(d: Doc): nat { 0 }

  function NoKeyBytes(k: Keys): nat { 0 }

  function NoStep(name: Name, pass: Pass, who: Identity, d: Doc): Option<Doc> { None }

  ghost function DefaultingEnv(c: Checks): Env {
    Env((h: Hash, d: Doc) => NormalUnder(c, ThreeSchemas(), h, d), NoStep, FixedKeys, NoBytes, NoKeyBytes)
  }

  lemma FieldF(c: Checks)
    ensures Norm(c, map[], VOptional(VString), None, 2) == Absent
    ensures Norm(c, map[], VOptional(VString), Some(X), 2) == Present(X)
    ensures Norm(c, map[], VDefaulted(VString, X), None, 2) == Present(X)
  {
    assert Norm(c, map[], VString, Some(X), 3) == Present(X);
  }

  /** An object with at most the field f. */
  lemma ObjectF(c: Checks, shape: map<Bytes, Validator>, doc: map<Bytes, Wire>, out: map<Bytes, Wire>)
    requires shape.Keys <= {F} && doc.Keys <= shape.Keys && out.Keys <= shape.Keys
    requires F in shape ==> Norm(c, map[], shape[F], Lookup(doc, F), 2) == if F in out then Present(out[F]) else Absent
    ensures Norm(c, map[], VObject(shape), Some(WObj(doc)), 0) == Present(WObj(out))
  {
    KeysF(shape, doc);
    assert NormFields(c, map[], shape, doc, 2) == out;
  }

  lemma KeysF(shape: map<Bytes, Validator>, doc: map<Bytes, Wire>)
    requires shape.Keys <= {F} && doc.Keys <= shape.Keys
    ensures KeysOK(shape, doc)
  {
    assert F[0] == 102 && SafeWireKey(F);
    SubsetSize(doc.Keys, {F});
    assert |doc| == |doc.Keys|;
  }

  lemma EmptyUnder(c: Checks)
    ensures NormalUnder(c, ThreeSchemas(), 1, WObj(map[])) == Some(WObj(map[]))
    ensures NormalUnder(c, ThreeSchemas(), 2, WObj(map[])) == Some(WObj(map[F := X]))
    ensures NormalUnder(c, ThreeSchemas(), 3, WObj(map[])) == Some(WObj(map[]))
  {
    FieldF(c);
    ObjectF(c, map[F := VOptional(VString)], map[], map[]);
    ObjectF(c, map[F := VDefaulted(VString, X)], map[], map[F := X]);
    ObjectF(c, map[], map[], map[]);
  }

  lemma FilledUnder(c: Checks)
    ensures NormalUnder(c, ThreeSchemas(), 1, WObj(map[F := X])) == Some(WObj(map[F := X]))
    ensures NormalUnder(c, ThreeSchemas(), 3, WObj(map[F := X])) == None
  {
    FieldF(c);
    ObjectF(c, map[F := VOptional(VString)], map[F := X], map[F := X]);
    assert F in map[F := X];
    assert !KeysOK(map[], map[F := X]);
  }

  function EmptyRow(who: Identity): Row { Row(who, WObj(map[]), 0) }

  function FilledRow(who: Identity): Row { Row(who, WObj(map[F := X]), 0) }

  function OneTable(fields: Hash): Schema { map[0 := TableSchema(fields, 0, false)] }

  lemma DefaultingRows(c: Checks, who: Identity)
    ensures var env := DefaultingEnv(c);
      && env.Idempotent()
      && Stored(env, 1, who, WObj(map[])) == Some(EmptyRow(who)) && Stored(env, 2, who, WObj(map[])) == Some(FilledRow(who))
      && Stored(env, 3, who, WObj(map[])) == Some(EmptyRow(who))
      && Stored(env, 1, who, WObj(map[F := X])) == Some(FilledRow(who)) && Stored(env, 3, who, WObj(map[F := X])) == None
  {
    SchemasAreUnionFree();
    UnionFreeIsIdempotent(c, ThreeSchemas(), DefaultingEnv(c));
    EmptyUnder(c);
    FilledUnder(c);
  }

  lemma SchemasAreUnionFree()
    ensures forall h | h in ThreeSchemas() :: WellShaped(ThreeSchemas()[h]) && UnionFree(ThreeSchemas()[h])
  {
    var one := map[F := VOptional(VString)];
    var two := map[F := VDefaulted(VString, X)];
    assert |one| == |one.Keys| == 1 && |two| == |two.Keys| == 1;
    assert WellShaped(VObject(one)) && WellShaped(VObject(two));
    assert UnionFree(VObject(one)) && UnionFree(VObject(two));
  }

  lemma NothingToPlan(from: Hash, to: Hash)
    ensures IsPlanOf([], OneTable(from), OneTable(to), [])
  {
  }

  lemma FilledIsNotEmpty(who: Identity)
    ensures EmptyRow(who) != FilledRow(who)
  {
    assert F in FilledRow(who).doc.fields && F !in EmptyRow(who).doc.fields;
  }

  /** A field that was optional gets a default, without a migration. The empty document is filled by the
      activation; the rollback succeeds and leaves it filled. */
  lemma RollbackLeavesDefaults(c: Checks, who: Identity, up: Time, down: Time)
    ensures var env := DefaultingEnv(c);
      var rows, filled := map[0 := [EmptyRow(who)]], map[0 := [FilledRow(who)]];
      && env.Idempotent() && AsWritten(env, OneTable(1), rows) && IsPlanOf([], OneTable(1), OneTable(2), [])
      && Activated(env, OneTable(1), OneTable(2), [], up, rows) == Some(filled)
      && RolledBack(env, OneTable(1), OneTable(2), [], down, filled) == Some(filled) && EmptyRow(who) != FilledRow(who)
  {
    var env := DefaultingEnv(c);
    DefaultingRows(c, who);
    NothingToPlan(1, 2);
    FilledIsNotEmpty(who);
    OneRow(env, OneTable(1), OneTable(2), Pass(Up, up), EmptyRow(who));
    OneRow(env, OneTable(2), OneTable(1), Pass(Down, down), FilledRow(who));
  }

  /** Both failures are new defaults, and neither change has one the other way round. */
  lemma NewDefaultsAreSeen(c: Checks)
    ensures var optional, defaulted, without := ThreeSchemas()[1].shape, ThreeSchemas()[2].shape, ThreeSchemas()[3].shape;
      && OnlyDefaultsChange(optional, defaulted) && NewDefault(c, optional, defaulted, F)
      && OnlyDefaultsChange(without, defaulted) && NewDefault(c, without, defaulted, F)
      && OnlyDefaultsChange(defaulted, optional) && (forall k :: !NewDefault(c, defaulted, optional, k))
  {
    assert Norm(c, map[], VDefaulted(VString, X), None, 2) == Present(X);
  }

  /** A field that is new, with a default: after the activation has filled it, the rollback is refused. */
  lemma RollbackRefusesNewFields(c: Checks, who: Identity, up: Time, down: Time)
    ensures var env := DefaultingEnv(c);
      var rows, filled := map[0 := [EmptyRow(who)]], map[0 := [FilledRow(who)]];
      && env.Idempotent() && AsWritten(env, OneTable(3), rows) && IsPlanOf([], OneTable(3), OneTable(2), [])
      && Activated(env, OneTable(3), OneTable(2), [], up, rows) == Some(filled)
      && RolledBack(env, OneTable(3), OneTable(2), [], down, filled) == None
  {
    var env := DefaultingEnv(c);
    DefaultingRows(c, who);
    NothingToPlan(3, 2);
    OneRow(env, OneTable(3), OneTable(2), Pass(Up, up), EmptyRow(who));
    OneRow(env, OneTable(2), OneTable(3), Pass(Down, down), FilledRow(who));
  }

  /** A move of one changed table with one row, without plans. */
  lemma OneRow(env: Env, source: Schema, target: Schema, pass: Pass, row: Row)
    requires source.Keys == target.Keys == {0} && source[0] != target[0]
    ensures var moved := Stored(env, target[0].fields, row.who, row.doc);
      Move(env, source, target, [], pass, map[0 := [row]]) == if moved.Some? then Some(map[0 := [moved.value]]) else None
  {
    var rows := map[0 := [row]];
    RewritingEach(env, pass, target[0].fields, [row]);
    var moved := Stored(env, target[0].fields, row.who, row.doc);
    if moved.Some? {
      assert MigrateRows(env, [], pass, target[0].fields, [row]).value == [moved.value];
      assert Materialize(env, source, target, [], pass, rows).value == map[0 := [moved.value]];
    } else {
      assert 0 in rows && RewrittenRows(env, source, target, [], pass, 0, rows[0]).None?;
    }
  }
}
