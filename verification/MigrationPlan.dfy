/** Migration planning: a walk over steps linked by schema hashes. */
module MigrationPlan {
  import opened ByteStrings

  type Hash = nat
  type Name = nat

  /** A reversible step between two document schemas of one table, each named by its hash. */
  datatype Migration = Migration(id: Name, table: Name, from: Hash, to: Hash)

  datatype Plan = Plan(table: Name, steps: seq<Migration>)

  datatype Planned = Steps(steps: seq<Migration>) | Ambiguous | Cyclic | Unreachable | NoPath

  /** Manifest validation keeps ids unique. */
  predicate UniqueIds(migrations: seq<Migration>) {
    forall i, j | 0 <= i < |migrations| && 0 <= j < |migrations| && migrations[i].id == migrations[j].id :: i == j
  }

  /** Two steps of the table leave from the same schema. */
  predicate SharesSource(migrations: seq<Migration>, table: Name) {
    exists i, j | 0 <= i < j < |migrations| ::
      migrations[i].table == table && migrations[j].table == table && migrations[i].from == migrations[j].from
  }

  predicate HasCandidates(migrations: seq<Migration>, table: Name) {
    exists m | m in migrations :: m.table == table
  }

  type Links = map<Hash, Migration>

  /** The table's steps by the schema they leave. */
  predicate LinksOf(links: Links, migrations: seq<Migration>, table: Name) {
    && (forall h | h in links :: links[h] in migrations && links[h].table == table && links[h].from == h)
    && forall m | m in migrations && m.table == table :: m.from in links && links[m.from] == m
  }

  /** Following links from h meets the goal for the first time after n steps. */
  predicate ArrivesIn(links: Links, h: Hash, goal: Hash, n: nat)
    decreases n
  {
    if n == 0 then h == goal else h != goal && h in links && ArrivesIn(links, links[h].to, goal, n - 1)
  }

  ghost predicate Arrives(links: Links, h: Hash, goal: Hash) {
    exists n: nat :: ArrivesIn(links, h, goal, n)
  }

  /** A chain of the table's steps from one schema to another, each leaving where the last arrived. */
  predicate HashPath(steps: seq<Migration>, from: Hash, goal: Hash) {
    if steps == [] then from == goal
    else steps[0].from == from && from != goal && HashPath(steps[1..], steps[0].to, goal)
  }

  lemma {:induction false} ArrivalIsUnique(links: Links, h: Hash, goal: Hash, m: nat, n: nat)
    requires ArrivesIn(links, h, goal, m) && ArrivesIn(links, h, goal, n)
    ensures m == n
    decreases m
  {
    if m > 0 && n > 0 { ArrivalIsUnique(links, links[h].to, goal, m - 1, n - 1); }
  }

  lemma ArrivesStep(links: Links, h: Hash, goal: Hash)
    requires h != goal && h in links
    ensures Arrives(links, h, goal) <==> Arrives(links, links[h].to, goal)
  {
    if n: nat :| ArrivesIn(links, h, goal, n) { assert ArrivesIn(links, links[h].to, goal, n - 1); }
    if n: nat :| ArrivesIn(links, links[h].to, goal, n) { assert ArrivesIn(links, h, goal, n + 1); }
  }

  /** A set of schemas that links never leave, without the goal, never arrives. */
  lemma {:induction false} ClosedSetNeverArrives(links: Links, closed: set<Hash>, h: Hash, goal: Hash, n: nat)
    requires h in closed && goal !in closed
    requires forall k | k in closed && k in links :: links[k].to in closed
    ensures !ArrivesIn(links, h, goal, n)
    decreases n
  {
    if n > 0 && h in links { ClosedSetNeverArrives(links, closed, links[h].to, goal, n - 1); }
  }

  datatype Chain = Reached | Loops | Breaks

  /** Follow one candidate's chain. It is accepted exactly when it arrives at the goal. */
  method CheckChain(links: Links, start: Hash, goal: Hash) returns (r: Chain)
    ensures r.Reached? <==> Arrives(links, start, goal)
  {
    var hash := start;
    var seen: set<Hash> := {};
    while hash != goal
      invariant Arrives(links, start, goal) <==> Arrives(links, hash, goal)
      invariant goal !in seen && seen <= links.Keys
      invariant forall k | k in seen :: links[k].to in seen || links[k].to == hash
      decreases links.Keys - seen
    {
      if hash in seen {
        forall n: nat ensures !ArrivesIn(links, hash, goal, n) { ClosedSetNeverArrives(links, seen, hash, goal, n); }
        return Loops;
      }
      if hash !in links {
        return Breaks;
      }
      ArrivesStep(links, hash, goal);
      seen := seen + {hash};
      hash := links[hash].to;
    }
    assert ArrivesIn(links, hash, goal, 0);
    r := Reached;
  }

  /** Collect the table's steps. */
  method CollectLinks(migrations: seq<Migration>, table: Name) returns (r: Option<(seq<Migration>, Links)>)
    ensures r.None? <==> SharesSource(migrations, table)
    ensures r.Some? ==> LinksOf(r.value.1, migrations, table)
    ensures r.Some? ==> forall m :: m in r.value.0 <==> m in migrations && m.table == table
  {
    var candidates: seq<Migration> := [];
    var links: Links := map[];
    for i := 0 to |migrations|
      invariant LinksOf(links, migrations[..i], table) && !SharesSource(migrations[..i], table)
      invariant forall m :: m in candidates <==> m in migrations[..i] && m.table == table
    {
      var m := migrations[i];
      assert migrations[..i + 1] == migrations[..i] + [m];
      if m.table != table { SharesLater(migrations, table, i); continue; }
      if m.from in links {
        var j :| 0 <= j < i && migrations[..i][j] == links[m.from];
        assert migrations[j].from == migrations[i].from;
        return None;
      }
      SharesLater(migrations, table, i);
      links := links[m.from := m];
      candidates := candidates + [m];
    }
    assert migrations[..|migrations|] == migrations;
    r := Some((candidates, links));
  }

  lemma SharesLater(migrations: seq<Migration>, table: Name, i: nat)
    requires i < |migrations| && !SharesSource(migrations[..i], table)
    requires migrations[i].table != table || forall m | m in migrations[..i] && m.table == table :: m.from != migrations[i].from
    ensures !SharesSource(migrations[..i + 1], table)
  {
    var front, all := migrations[..i], migrations[..i + 1];
    forall a, b | 0 <= a < b < |all|
      ensures !(all[a].table == table && all[b].table == table && all[a].from == all[b].from)
    {
      assert all[a] == front[a] && front[a] in front;
      if b < i { assert all[b] == front[b]; }
    }
  }

  /** The planner's demands on one table: no two steps from one schema, every chain arrives at the target,
      and some chain starts at the active schema if it has to change and there are steps at all. */
  ghost predicate Plannable(migrations: seq<Migration>, table: Name, source: Option<Hash>, goal: Hash) {
    && !SharesSource(migrations, table) && AllChainsArrive(migrations, table, goal)
    && (source.Some? && source.value != goal && HasCandidates(migrations, table) ==>
          exists m | m in migrations :: m.table == table && m.from == source.value)
  }

  method CheckChains(links: Links, candidates: seq<Migration>, goal: Hash) returns (r: Chain)
    ensures r.Reached? <==> forall m | m in candidates :: Arrives(links, m.to, goal)
  {
    for i := 0 to |candidates|
      invariant forall j | 0 <= j < i :: Arrives(links, candidates[j].to, goal)
    {
      r := CheckChain(links, candidates[i].to, goal);
      if !r.Reached? {
        assert candidates[i] in candidates;
        return;
      }
    }
    r := Reached;
  }

  /** The steps that bring a table from its active schema to the target. Planning fails exactly when the
      table is not plannable. The plan is a hash-linked path without a repeated step, or empty when the
      table is new, unchanged or without steps. The walk's own checks for a repeated step and for a path
      that stops short cannot fail. */
  method PlanTable(migrations: seq<Migration>, table: Name, source: Option<Hash>, goal: Hash) returns (r: Planned)
    requires UniqueIds(migrations)
    ensures r.Ambiguous? <==> SharesSource(migrations, table)
    ensures r.Steps? <==> Plannable(migrations, table, source, goal)
    ensures r.Steps? && r.steps != [] ==> source.Some? && HashPath(r.steps, source.value, goal)
    ensures r.Steps? && r.steps == [] ==> source.None? || source.value == goal || !HasCandidates(migrations, table)
    ensures r.Steps? ==> UniqueIds(r.steps) && forall m | m in r.steps :: m in migrations && m.table == table
  {
    var collected := CollectLinks(migrations, table);
    if collected.None? { return Ambiguous; }
    var (candidates, links) := collected.value;
    var chains := CheckChains(links, candidates, goal);
    ChainsMean(migrations, table, links, candidates, goal);
    if chains.Loops? { return Cyclic; }
    if chains.Breaks? { return Unreachable; }
    if source.None? || source.value == goal { return Steps([]); }
    r := WalkLinks(migrations, table, candidates, links, source.value, goal);
  }

  /** The chain that starts with a step does not arrive. */
  ghost predicate Strands(migrations: seq<Migration>, table: Name, m: Migration, goal: Hash) {
    exists links :: LinksOf(links, migrations, table) && !Arrives(links, m.to, goal)
  }

  ghost predicate AllChainsArrive(migrations: seq<Migration>, table: Name, goal: Hash) {
    forall m | m in migrations && m.table == table :: !Strands(migrations, table, m, goal)
  }

  lemma LinksAreUnique(migrations: seq<Migration>, table: Name, a: Links, b: Links)
    requires LinksOf(a, migrations, table) && LinksOf(b, migrations, table)
    ensures a == b
  {
    forall h ensures h in a <==> h in b {
      if h in a { assert a[h] in migrations; }
      if h in b { assert b[h] in migrations; }
    }
    forall h | h in a ensures a[h] == b[h] { assert a[h] in migrations; }
  }

  lemma StrandsMeans(migrations: seq<Migration>, table: Name, links: Links, m: Migration, goal: Hash)
    requires LinksOf(links, migrations, table)
    ensures Strands(migrations, table, m, goal) <==> !Arrives(links, m.to, goal)
  {
    if other :| LinksOf(other, migrations, table) && !Arrives(other, m.to, goal) {
      LinksAreUnique(migrations, table, links, other);
    }
  }

  lemma ChainsMean(migrations: seq<Migration>, table: Name, links: Links, candidates: seq<Migration>, goal: Hash)
    requires LinksOf(links, migrations, table)
    requires forall m :: m in candidates <==> m in migrations && m.table == table
    ensures AllChainsArrive(migrations, table, goal) <==> forall m | m in candidates :: Arrives(links, m.to, goal)
  {
    forall m | m in candidates ensures Strands(migrations, table, m, goal) <==> !Arrives(links, m.to, goal) {
      StrandsMeans(migrations, table, links, m, goal);
    }
  }

  /** The walk from the active schema. */
  method WalkLinks(migrations: seq<Migration>, table: Name, candidates: seq<Migration>, links: Links, source: Hash, goal: Hash)
    returns (r: Planned)
    requires UniqueIds(migrations) && LinksOf(links, migrations, table) && source != goal
    requires forall m :: m in candidates <==> m in migrations && m.table == table
    requires forall m | m in candidates :: Arrives(links, m.to, goal)
    ensures r.NoPath? || r.Steps?
    ensures r.NoPath? <==> HasCandidates(migrations, table) && !exists m | m in migrations :: m.table == table && m.from == source
    ensures r.Steps? && r.steps != [] ==> HashPath(r.steps, source, goal)
    ensures r.Steps? && r.steps == [] ==> !HasCandidates(migrations, table)
    ensures r.Steps? ==> UniqueIds(r.steps) && forall m | m in r.steps :: m in migrations && m.table == table
  {
    if source !in links {
      if candidates != [] {
        assert candidates[0] in migrations;
        return NoPath;
      }
      return Steps([]);
    }
    ArrivesStep(links, source, goal);
    assert links[source] in migrations;
    var steps := FollowLinks(migrations, table, links, source, goal);
    r := Steps(steps);
  }

  method FollowLinks(migrations: seq<Migration>, table: Name, links: Links, source: Hash, goal: Hash) returns (steps: seq<Migration>)
    requires UniqueIds(migrations) && LinksOf(links, migrations, table) && source != goal && Arrives(links, source, goal)
    ensures steps != [] && HashPath(steps, source, goal)
    ensures UniqueIds(steps) && forall m | m in steps :: m in migrations && m.table == table
  {
    var current := source;
    steps := [];
    var seen: set<Name> := {};
    ghost var total: nat :| ArrivesIn(links, current, goal, total);
    while current != goal
      invariant |steps| <= total && ArrivesIn(links, current, goal, total - |steps|)
      invariant Prefix(links, steps, source, current, goal, total)
      invariant seen == IdsOf(steps)
      decreases total - |steps|
    {
      var next := links[current];
      NotYetTaken(migrations, table, links, steps, source, current, goal, total);
      assert next.id !in seen;
      seen := seen + {next.id};
      steps := steps + [next];
      current := next.to;
    }
    PrefixIsPath(links, steps, source, goal, total);
    PrefixIsUnique(migrations, table, links, steps, source, current, goal, total);
  }

  function IdsOf(steps: seq<Migration>): set<Name> {
    set m | m in steps :: m.id
  }

  /** Steps taken so far: each is the link of its schema, and they count down to the goal. */
  predicate Prefix(links: Links, steps: seq<Migration>, source: Hash, current: Hash, goal: Hash, total: nat) {
    && |steps| <= total
    && (forall i | 0 <= i < |steps| :: steps[i].from in links && links[steps[i].from] == steps[i])
    && (forall i | 0 <= i < |steps| :: ArrivesIn(links, steps[i].from, goal, total - i))
    && (if steps == [] then source == current else steps[0].from == source && steps[|steps| - 1].to == current)
    && forall i | 0 < i < |steps| :: steps[i].from == steps[i - 1].to
  }

  lemma NotYetTaken(migrations: seq<Migration>, table: Name, links: Links, steps: seq<Migration>, source: Hash, current: Hash, goal: Hash, total: nat)
    requires UniqueIds(migrations) && LinksOf(links, migrations, table)
    requires Prefix(links, steps, source, current, goal, total) && |steps| < total
    requires current != goal && ArrivesIn(links, current, goal, total - |steps|) && current in links
    ensures links[current].id !in IdsOf(steps)
  {
    forall i | 0 <= i < |steps| ensures steps[i].id != links[current].id {
      SameIdSameStep(migrations, steps[i], links[current]);
      if steps[i].from == current { ArrivalIsUnique(links, current, goal, total - i, total - |steps|); }
    }
  }

  lemma SameIdSameStep(migrations: seq<Migration>, a: Migration, b: Migration)
    requires UniqueIds(migrations) && a in migrations && b in migrations
    ensures a.id == b.id ==> a == b
  {
    var i :| 0 <= i < |migrations| && migrations[i] == a;
    var j :| 0 <= j < |migrations| && migrations[j] == b;
  }

  lemma PrefixIsUnique(migrations: seq<Migration>, table: Name, links: Links, steps: seq<Migration>, source: Hash, current: Hash, goal: Hash, total: nat)
    requires UniqueIds(migrations) && LinksOf(links, migrations, table) && Prefix(links, steps, source, current, goal, total)
    ensures UniqueIds(steps) && forall m | m in steps :: m in migrations && m.table == table
  {
    forall i, j | 0 <= i < |steps| && 0 <= j < |steps| && steps[i].id == steps[j].id ensures i == j {
      SameIdSameStep(migrations, steps[i], steps[j]);
      ArrivalIsUnique(links, steps[i].from, goal, total - i, total - j);
    }
  }

  lemma {:induction false} PrefixIsPath(links: Links, steps: seq<Migration>, source: Hash, goal: Hash, total: nat)
    requires Prefix(links, steps, source, goal, goal, total) && steps != []
    ensures HashPath(steps, source, goal)
    decreases |steps|
  {
    assert ArrivesIn(links, steps[0].from, goal, total);
    if |steps| > 1 {
      var rest := steps[1..];
      assert forall i | 0 <= i < |rest| :: rest[i] == steps[i + 1];
      assert forall i | 0 <= i < |rest| :: ArrivesIn(links, rest[i].from, goal, total - 1 - i);
      PrefixIsPath(links, rest, steps[0].to, goal, total - 1);
    }
  }

  /** The plan is determined: in an unambiguous manifest there is one path between two schemas. */
  lemma {:induction false} PathsAreUnique(migrations: seq<Migration>, table: Name, links: Links, a: seq<Migration>, b: seq<Migration>, from: Hash, goal: Hash)
    requires LinksOf(links, migrations, table)
    requires HashPath(a, from, goal) && HashPath(b, from, goal)
    requires forall m | m in a || m in b :: m in migrations && m.table == table
    ensures a == b
    decreases |a|
  {
    if a != [] && b != [] {
      assert a[0] in a && b[0] in b;
      assert a[0] == links[from] == b[0];
      PathsAreUnique(migrations, table, links, a[1..], b[1..], a[0].to, goal);
      assert a == [a[0]] + a[1..] && b == [b[0]] + b[1..];
    }
  }

  // ----- all tables

  function FirstId(p: Plan): Name {
    if p.steps == [] then p.table else p.steps[0].id
  }

  /** How many plans come before this one. */
  function SlotFor(plans: seq<Plan>, p: Plan): (k: nat)
    ensures k <= |plans| && (k < |plans| ==> FirstId(p) < FirstId(plans[k]))
    ensures forall i | 0 <= i < k :: FirstId(plans[i]) <= FirstId(p)
  {
    if plans == [] || FirstId(p) < FirstId(plans[0]) then 0 else 1 + SlotFor(plans[1..], p)
  }

  function InsertPlan(plans: seq<Plan>, p: Plan): seq<Plan> {
    plans[..SlotFor(plans, p)] + [p] + plans[SlotFor(plans, p)..]
  }

  predicate SortedPlans(plans: seq<Plan>) {
    forall i, j | 0 <= i < j < |plans| :: FirstId(plans[i]) <= FirstId(plans[j])
  }

  /** A table's plan is the nonempty path from its active schema to its target schema. */
  predicate PlanFits(migrations: seq<Migration>, sources: map<Name, Hash>, goals: map<Name, Hash>, p: Plan) {
    && p.table in sources && p.table in goals && p.steps != []
    && HashPath(p.steps, sources[p.table], goals[p.table]) && UniqueIds(p.steps)
    && forall m | m in p.steps :: m in migrations && m.table == p.table
  }

  predicate OnePlanPerTable(plans: seq<Plan>) {
    forall i, j | 0 <= i < |plans| && 0 <= j < |plans| && plans[i].table == plans[j].table :: i == j
  }

  function SourceOf(sources: map<Name, Hash>, table: Name): Option<Hash> {
    if table in sources then Some(sources[table]) else None
  }

  predicate NeedsPlan(migrations: seq<Migration>, sources: map<Name, Hash>, goals: map<Name, Hash>, table: Name) {
    table in goals && table in sources && sources[table] != goals[table] && HasCandidates(migrations, table)
  }

  /** Plan every table of the target schema; the plans run in the order of their first steps' ids. */
  method PlanMigrations(migrations: seq<Migration>, sources: map<Name, Hash>, goals: map<Name, Hash>)
    returns (r: Option<seq<Plan>>)
    requires UniqueIds(migrations)
    ensures r.Some? <==> forall table | table in goals :: Plannable(migrations, table, SourceOf(sources, table), goals[table])
    ensures r.Some? ==> SortedPlans(r.value) && OnePlanPerTable(r.value)
    ensures r.Some? ==> forall p | p in r.value :: PlanFits(migrations, sources, goals, p)
    ensures r.Some? ==> forall table | NeedsPlan(migrations, sources, goals, table) :: exists p | p in r.value :: p.table == table
  {
    var plans: seq<Plan> := [];
    var todo := goals.Keys;
    while todo != {}
      invariant todo <= goals.Keys && SortedPlans(plans) && OnePlanPerTable(plans)
      invariant forall table | table in goals.Keys - todo :: Plannable(migrations, table, SourceOf(sources, table), goals[table])
      invariant forall p | p in plans :: PlanFits(migrations, sources, goals, p) && p.table !in todo
      invariant forall table | table in goals.Keys - todo && NeedsPlan(migrations, sources, goals, table) ::
        exists p | p in plans :: p.table == table
      decreases |todo|
    {
      var table :| table in todo;
      var planned := PlanTable(migrations, table, SourceOf(sources, table), goals[table]);
      if !planned.Steps? { return None; }
      todo := todo - {table};
      if planned.steps != [] {
        AddPlan(plans, Plan(table, planned.steps));
        plans := InsertPlan(plans, Plan(table, planned.steps));
      }
    }
    r := Some(plans);
  }

  /** The plan at a position after the insertion. */
  function Inserted(plans: seq<Plan>, p: Plan, i: nat): Plan
    requires i <= |plans|
  {
    if i < SlotFor(plans, p) then plans[i] else if i == SlotFor(plans, p) then p else plans[i - 1]
  }

  lemma InsertedInOrder(plans: seq<Plan>, p: Plan, i: nat, j: nat)
    requires SortedPlans(plans) && i < j <= |plans|
    ensures FirstId(Inserted(plans, p, i)) <= FirstId(Inserted(plans, p, j))
  {
  }

  lemma AddPlan(plans: seq<Plan>, p: Plan)
    requires SortedPlans(plans) && OnePlanPerTable(plans) && forall q | q in plans :: q.table != p.table
    ensures SortedPlans(InsertPlan(plans, p)) && OnePlanPerTable(InsertPlan(plans, p))
    ensures forall q :: q in InsertPlan(plans, p) <==> q in plans || q == p
  {
    var all := InsertPlan(plans, p);
    forall i, j | 0 <= i < j < |all| ensures FirstId(all[i]) <= FirstId(all[j]) { InsertedInOrder(plans, p, i, j); }
    forall i, j | 0 <= i < |all| && 0 <= j < |all| && all[i].table == all[j].table ensures i == j {
      assert all[i] == Inserted(plans, p, i) && all[j] == Inserted(plans, p, j);
    }
  }
}
