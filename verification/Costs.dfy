/** What work charges against a budget of nodes (or rows) and bytes. */
module Costs {
  const MAX_NODES: nat := 16384
  const MAX_BYTES: nat := 4194304

  datatype Spend = Spend(count: nat, bytes: nat) {
    // The empty frame keeps the verifier from adding up literals without end.
    function Plus(other: Spend): Spend
      reads {}
    {
      Spend(count + other.count, bytes + other.bytes)
    }

    predicate Fits() { count <= MAX_NODES && bytes <= MAX_BYTES }

    predicate AtMost(other: Spend) { count <= other.count && bytes <= other.bytes }
  }

  const NOTHING: Spend := Spend(0, 0)

  function SumItems(costs: seq<Spend>): Spend {
    if costs == [] then NOTHING else costs[0].Plus(SumItems(costs[1..]))
  }

  /** The sum over a map's entries, in whatever order. */
  ghost function SumEntries<K>(costs: map<K, Spend>): Spend
    decreases |costs|
  {
    if costs == map[] then NOTHING
    else
      var k :| k in costs;
      costs[k].Plus(SumEntries(costs - {k}))
  }

  lemma Exchange(a: Spend, b: Spend, c: Spend)
    ensures a.Plus(b.Plus(c)) == b.Plus(a.Plus(c))
  {
  }

  /** Any entry can be taken first. */
  lemma {:induction false} SumWithout<K>(costs: map<K, Spend>, k: K)
    requires k in costs
    ensures SumEntries(costs) == costs[k].Plus(SumEntries(costs - {k}))
    decreases |costs|
  {
    var first :| first in costs && SumEntries(costs) == costs[first].Plus(SumEntries(costs - {first}));
    if first == k {
    } else {
      SumWithout(costs - {first}, k);
      SumWithout(costs - {k}, first);
      assert costs - {first} - {k} == costs - {k} - {first};
      Exchange(costs[first], costs[k], SumEntries(costs - {first} - {k}));
    }
  }

  lemma SumOneLess<K>(costs: map<K, Spend>, rest: map<K, Spend>, k: K)
    requires k in costs && rest.Keys == costs.Keys - {k} && forall n | n in rest :: rest[n] == costs[n]
    ensures SumEntries(costs) == costs[k].Plus(SumEntries(rest))
  {
    SumWithout(costs, k);
    assert costs - {k} == rest;
  }
}
