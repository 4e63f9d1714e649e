/** The reference storage quota service: reservations, settlements, releases and credits. */
module QuotaLedger {
  import opened ByteStrings

  /** A request id names its reservation too; event ids name credits. */
  type Id = nat

  // ----- finite sums

  ghost function Sum<K>(m: map<K, nat>): nat
    decreases |m.Keys|
  {
    if m.Keys == {} then 0
    else
      var k :| k in m.Keys;
      assert (m - {k}).Keys == m.Keys - {k};
      m[k] + Sum(m - {k})
  }

  lemma {:induction false} SumWithout<K>(m: map<K, nat>, k: K)
    requires k in m
    ensures Sum(m) == m[k] + Sum(m - {k})
    decreases |m.Keys|
  {
    var j :| j in m.Keys && Sum(m) == m[j] + Sum(m - {j});
    assert (m - {j}).Keys == m.Keys - {j};
    if j != k {
      SumWithout(m - {j}, k);
      assert (m - {k}).Keys == m.Keys - {k};
      SumWithout(m - {k}, j);
      assert m - {j} - {k} == m - {k} - {j};
    }
  }

  lemma SumPut<K>(m: map<K, nat>, k: K, v: nat)
    ensures Sum(m[k := v]) == v + Sum(m - {k})
    ensures Sum(m[k := v]) == Sum(m) + v - (if k in m then m[k] else 0)
  {
    SumWithout(m[k := v], k);
    assert m[k := v] - {k} == m - {k};
    if k in m { SumWithout(m, k); } else { assert m - {k} == m; }
  }

  /** Fewer keys and smaller values sum to less; zeros do not count. */
  lemma {:induction false} SumMonotone<K>(a: map<K, nat>, b: map<K, nat>)
    requires forall k | k in a :: a[k] == 0 || (k in b && a[k] <= b[k])
    ensures Sum(a) <= Sum(b)
    decreases |a.Keys|
  {
    if a.Keys != {} {
      var k :| k in a.Keys;
      SumWithout(a, k);
      assert (a - {k}).Keys == a.Keys - {k};
      if k in b {
        SumWithout(b, k);
        SumMonotone(a - {k}, b - {k});
      } else {
        SumMonotone(a - {k}, b);
      }
    }
  }

  /** Sums add up value by value. */
  lemma {:induction false} SumAdds<K>(a: map<K, nat>, b: map<K, nat>, c: map<K, nat>)
    requires a.Keys == b.Keys == c.Keys && forall k | k in a :: a[k] + b[k] <= c[k]
    ensures Sum(a) + Sum(b) <= Sum(c)
    decreases |a.Keys|
  {
    if a.Keys != {} {
      var k :| k in a.Keys;
      SumWithout(a, k);
      SumWithout(b, k);
      SumWithout(c, k);
      assert (a - {k}).Keys == a.Keys - {k};
      SumAdds(a - {k}, b - {k}, c - {k});
    }
  }

  lemma {:induction false} SumBelow<K>(a: map<K, nat>, b: map<K, nat>, c: map<K, nat>)
    requires a.Keys == b.Keys == c.Keys && forall k | k in a :: a[k] <= b[k] + c[k]
    ensures Sum(a) <= Sum(b) + Sum(c)
    decreases |a.Keys|
  {
    if a.Keys != {} {
      var k :| k in a.Keys;
      SumWithout(a, k);
      SumWithout(b, k);
      SumWithout(c, k);
      assert (a - {k}).Keys == a.Keys - {k};
      SumBelow(a - {k}, b - {k}, c - {k});
    }
  }

  /** Two disjoint parts of a map sum to at most the whole. */
  lemma {:induction false} SumOfParts<K>(a: map<K, nat>, b: map<K, nat>, whole: map<K, nat>)
    requires forall k | k in a :: k in whole && a[k] <= whole[k] && k !in b
    requires forall k | k in b :: k in whole && b[k] <= whole[k]
    ensures Sum(a) + Sum(b) <= Sum(whole)
    decreases |a.Keys|
  {
    if a.Keys == {} {
      SumMonotone(b, whole);
    } else {
      var k :| k in a.Keys;
      SumWithout(a, k);
      SumWithout(whole, k);
      assert (a - {k}).Keys == a.Keys - {k};
      SumOfParts(a - {k}, b, whole - {k});
    }
  }

  // ----- the ledger

  datatype Status = Open | Settled(charged: nat) | Released

  /** held is the requested bound of an allowed reservation, zero for a denial. */
  datatype Reservation = Reservation(request: nat, allowed: bool, held: nat, status: Status)

  datatype Ledger = Ledger(limit: nat, capacity: int, used: int, reservations: map<Id, Reservation>, credits: map<Id, nat>)

  datatype Message = Reserve(id: Id, bytes: nat) | Settle(id: Id, bytes: nat) | Release(id: Id) | Credit(event: Id, bytes: nat)

  datatype Reply = Decided(allowed: bool) | Acked | Rejected(code: nat)

  function HeldBytes(r: Reservation): nat { if r.status.Open? then r.held else 0 }

  /** What a reservation counts for: its bound while open, its charge once settled. */
  function Weight(r: Reservation): nat {
    match r.status
    case Open => r.held
    case Settled(charged) => charged
    case Released => 0
  }

  function HeldIn(reservations: map<Id, Reservation>, ids: set<Id>): map<Id, nat>
    requires ids <= reservations.Keys
  {
    map id | id in ids :: HeldBytes(reservations[id])
  }

  ghost function Inflight(s: Ledger): nat { Sum(HeldIn(s.reservations, s.reservations.Keys)) }

  /** Used plus open reservations. */
  ghost function Charge(s: Ledger): int { s.used + Inflight(s) }

  function WeightBy(reservations: map<Id, Reservation>): map<Id, nat> { map id | id in reservations :: Weight(reservations[id]) }

  ghost function Weights(s: Ledger): nat { Sum(WeightBy(s.reservations)) }

  ghost function Serve(s: Ledger, m: Message): (Ledger, Reply) {
    match m
    case Reserve(id, bytes) =>
      if id in s.reservations then
        (s, if s.reservations[id].request == bytes then Decided(s.reservations[id].allowed) else Rejected(409))
      else if |s.reservations| >= s.limit then (s, Rejected(503))
      else
        var allowed := Charge(s) + bytes <= s.capacity;
        (s.(reservations := s.reservations[id := Reservation(bytes, allowed, if allowed then bytes else 0, Open)]), Decided(allowed))
    case Settle(id, bytes) =>
      if id !in s.reservations || !s.reservations[id].allowed then (s, Rejected(409))
      else
        var r := s.reservations[id];
        (match r.status
         case Settled(charged) => (s, if charged == bytes then Acked else Rejected(409))
         case Open =>
           if bytes > r.held then (s, Rejected(409))
           else (s.(reservations := s.reservations[id := r.(status := Settled(bytes))], used := s.used + bytes), Acked)
         case Released => (s, Rejected(409)))
    case Release(id) =>
      if id !in s.reservations || !s.reservations[id].allowed then (s, Rejected(409))
      else
        var r := s.reservations[id];
        (match r.status
         case Released => (s, Acked)
         case Open => (s.(reservations := s.reservations[id := r.(status := Released)]), Acked)
         case Settled(_) => (s, Rejected(409)))
    case Credit(event, bytes) =>
      if event in s.credits then (s, if s.credits[event] == bytes then Acked else Rejected(409))
      else if |s.credits| >= s.limit then (s, Rejected(503))
      else (s.(credits := s.credits[event := bytes], used := if s.used - bytes < 0 then 0 else s.used - bytes), Acked)
  }

  /** Usage never goes negative and never below what settlements less credits leave; used and open
      reservations together never pass the capacity. */
  ghost predicate Balanced(s: Ledger) {
    && 0 <= s.used && Charge(s) >= Weights(s) - Sum(s.credits)
    && (s.capacity >= 0 ==> Charge(s) <= s.capacity)
    && (s.capacity < 0 ==> Charge(s) <= 0)
    && forall id | id in s.reservations :: ReservationOK(s.reservations[id])
  }

  predicate ReservationOK(r: Reservation) {
    && (r.allowed ==> r.held == r.request) && (!r.allowed ==> r.held == 0 && r.status.Open?)
    && (r.status.Settled? ==> r.status.charged <= r.held)
  }

  lemma HeldPut(reservations: map<Id, Reservation>, id: Id, r: Reservation)
    ensures var t := reservations[id := r];
      HeldIn(t, t.Keys) == HeldIn(reservations, reservations.Keys)[id := HeldBytes(r)]
  {
  }

  lemma WeightPut(reservations: map<Id, Reservation>, id: Id, r: Reservation)
    ensures WeightBy(reservations[id := r]) == WeightBy(reservations)[id := Weight(r)]
  {
  }

  lemma ReservationChanges(s: Ledger, id: Id, r: Reservation)
    ensures var t := s.(reservations := s.reservations[id := r]);
      && Inflight(t) == Inflight(s) + HeldBytes(r) - (if id in s.reservations then HeldBytes(s.reservations[id]) else 0)
      && Weights(t) == Weights(s) + Weight(r) - (if id in s.reservations then Weight(s.reservations[id]) else 0)
  {
    SumPut(HeldIn(s.reservations, s.reservations.Keys), id, HeldBytes(r));
    SumPut(WeightBy(s.reservations), id, Weight(r));
    HeldPut(s.reservations, id, r);
    WeightPut(s.reservations, id, r);
  }

  lemma ReserveKeeps(s: Ledger, id: Id, bytes: nat)
    requires Balanced(s)
    ensures Balanced(Serve(s, Reserve(id, bytes)).0)
  {
    var t := Serve(s, Reserve(id, bytes)).0;
    if t != s { ReservationChanges(s, id, t.reservations[id]); }
  }

  lemma SettleKeeps(s: Ledger, id: Id, bytes: nat)
    requires Balanced(s)
    ensures Balanced(Serve(s, Settle(id, bytes)).0)
  {
    var t := Serve(s, Settle(id, bytes)).0;
    if t != s {
      assert ReservationOK(s.reservations[id]);
      ReservationChanges(s, id, t.reservations[id]);
    }
  }

  lemma ReleaseKeeps(s: Ledger, id: Id)
    requires Balanced(s)
    ensures Balanced(Serve(s, Release(id)).0)
  {
    var t := Serve(s, Release(id)).0;
    if t != s {
      assert ReservationOK(s.reservations[id]);
      ReservationChanges(s, id, t.reservations[id]);
    }
  }

  lemma CreditKeeps(s: Ledger, event: Id, bytes: nat)
    requires Balanced(s)
    ensures Balanced(Serve(s, Credit(event, bytes)).0)
  {
    var t := Serve(s, Credit(event, bytes)).0;
    if t != s {
      SumPut(s.credits, event, bytes);
    }
  }

  lemma ServeKeeps(s: Ledger, m: Message)
    requires Balanced(s)
    ensures Balanced(Serve(s, m).0)
  {
    match m
    case Reserve(id, bytes) => ReserveKeeps(s, id, bytes);
    case Settle(id, bytes) => SettleKeeps(s, id, bytes);
    case Release(id) => ReleaseKeeps(s, id);
    case Credit(event, bytes) => CreditKeeps(s, event, bytes);
  }

  // ----- retries

  /** The tables hold what this request was answered from. */
  predicate Remembers(s: Ledger, m: Message, reply: Reply) {
    match m
    case Reserve(id, bytes) => id in s.reservations && s.reservations[id].request == bytes && reply == Decided(s.reservations[id].allowed)
    case Settle(id, bytes) => id in s.reservations && s.reservations[id].allowed && s.reservations[id].status == Settled(bytes) && reply == Acked
    case Release(id) => id in s.reservations && s.reservations[id].allowed && s.reservations[id].status == Released && reply == Acked
    case Credit(event, bytes) => event in s.credits && s.credits[event] == bytes && reply == Acked
  }

  /** Anything else that may happen at the service. */
  datatype Act = Request(message: Message) | Capacity(capacity: int)

  ghost function Perform(s: Ledger, act: Act): Ledger {
    match act
    case Request(m) => Serve(s, m).0
    case Capacity(c) => s.(capacity := c)
  }

  ghost function PerformAll(s: Ledger, acts: seq<Act>): Ledger
    decreases |acts|
  {
    if acts == [] then s else PerformAll(Perform(s, acts[0]), acts[1..])
  }

  lemma {:induction false} StillRemembered(s: Ledger, m: Message, reply: Reply, acts: seq<Act>)
    requires Remembers(s, m, reply)
    ensures Remembers(PerformAll(s, acts), m, reply)
    decreases |acts|
  {
    if acts != [] {
      StillRemembered(Perform(s, acts[0]), m, reply, acts[1..]);
    }
  }

  /** An identical retry of an answered request, whatever requests and capacity changes came between, is
      answered as before and changes nothing. */
  lemma RetriesAreIdempotent(s: Ledger, m: Message, acts: seq<Act>)
    requires !Serve(s, m).1.Rejected?
    ensures var later := PerformAll(Serve(s, m).0, acts); Serve(later, m) == (later, Serve(s, m).1)
  {
    StillRemembered(Serve(s, m).0, m, Serve(s, m).1, acts);
  }

  predicate OnlyRequests(acts: seq<Act>) {
    forall i | 0 <= i < |acts| :: acts[i].Request?
  }

  lemma {:induction false} CapacityStands(s: Ledger, acts: seq<Act>)
    requires OnlyRequests(acts)
    ensures PerformAll(s, acts).capacity == s.capacity
    decreases |acts|
  {
    if acts != [] { CapacityStands(Perform(s, acts[0]), acts[1..]); }
  }

  /** Whatever requests came since the capacity was set, a new reservation is allowed exactly when its bound fits
      under that capacity with all that is used and reserved. */
  lemma LastCapacityDecides(s: Ledger, capacity: int, acts: seq<Act>, id: Id, bytes: nat)
    requires OnlyRequests(acts)
    ensures var t := PerformAll(Perform(s, Capacity(capacity)), acts);
      id !in t.reservations && |t.reservations| < t.limit ==>
        Serve(t, Reserve(id, bytes)).1 == Decided(Charge(t) + bytes <= capacity)
  {
    CapacityStands(Perform(s, Capacity(capacity)), acts);
  }

  class ReferenceQuotaService {
    const limit: nat
    var capacityBytes: int
    var usedBytes: int
    var reservations: map<Id, Reservation>
    var credits: map<Id, nat>

    ghost function State(): Ledger
      reads this
    {
      Ledger(limit, capacityBytes, usedBytes, reservations, credits)
    }

    constructor (limit: int, capacityBytes: int)
      ensures Balanced(State()) && this.capacityBytes == capacityBytes && usedBytes == 0
      ensures this.limit == (if limit < 1 then 1000 else limit) && reservations == map[] && credits == map[]
    {
      this.limit := if limit < 1 then 1000 else limit;
      this.capacityBytes, usedBytes, reservations, credits := capacityBytes, 0, map[], map[];
    }

    /** The summing loop under the lock. */
    method InflightBytes() returns (inflight: nat)
      ensures inflight == Inflight(State())
    {
      inflight := 0;
      var todo := reservations.Keys;
      while todo != {}
        invariant todo <= reservations.Keys
        invariant inflight + Sum(HeldIn(reservations, todo)) == Inflight(State())
        decreases |todo|
      {
        var id :| id in todo;
        SumWithout(HeldIn(reservations, todo), id);
        assert HeldIn(reservations, todo) - {id} == HeldIn(reservations, todo - {id});
        if reservations[id].status.Open? { inflight := inflight + reservations[id].held; }
        todo := todo - {id};
      }
      assert HeldIn(reservations, {}).Keys == {};
    }

    /** One request, served under the lock. */
    method ServeHTTP(m: Message) returns (reply: Reply)
      requires Balanced(State())
      modifies this
      ensures (State(), reply) == Serve(old(State()), m)
      ensures Balanced(State())
    {
      ServeKeeps(State(), m);
      match m {
        case Reserve(id, bytes) => reply := ReserveStorage(id, bytes);
        case Settle(id, bytes) => reply := SettleStorage(id, bytes);
        case Release(id) => reply := ReleaseStorage(id);
        case Credit(event, bytes) => reply := CreditStorage(event, bytes);
      }
    }

    method ReserveStorage(id: Id, bytes: nat) returns (reply: Reply)
      modifies this`reservations
      ensures (State(), reply) == Serve(old(State()), Reserve(id, bytes))
    {
      if id in reservations {
        return if reservations[id].request == bytes then Decided(reservations[id].allowed) else Rejected(409);
      }
      if |reservations| >= limit { return Rejected(503); }
      var inflight := InflightBytes();
      var allowed := usedBytes + inflight + bytes <= capacityBytes;
      reservations := reservations[id := Reservation(bytes, allowed, if allowed then bytes else 0, Open)];
      reply := Decided(allowed);
    }

    method SettleStorage(id: Id, bytes: nat) returns (reply: Reply)
      modifies this
      ensures (State(), reply) == Serve(old(State()), Settle(id, bytes))
    {
      if id !in reservations || !reservations[id].allowed { return Rejected(409); }
      var r := reservations[id];
      match r.status {
        case Settled(charged) => reply := if charged == bytes then Acked else Rejected(409);
        case Open =>
          if bytes > r.held { return Rejected(409); }
          reservations := reservations[id := r.(status := Settled(bytes))];
          usedBytes := usedBytes + bytes;
          reply := Acked;
        case Released => reply := Rejected(409);
      }
    }

    method ReleaseStorage(id: Id) returns (reply: Reply)
      modifies this`reservations
      ensures (State(), reply) == Serve(old(State()), Release(id))
    {
      if id !in reservations || !reservations[id].allowed { return Rejected(409); }
      match reservations[id].status {
        case Released => reply := Acked;
        case Open =>
          reservations := reservations[id := reservations[id].(status := Released)];
          reply := Acked;
        case Settled(_) => reply := Rejected(409);
      }
    }

    method CreditStorage(event: Id, bytes: nat) returns (reply: Reply)
      modifies this
      ensures (State(), reply) == Serve(old(State()), Credit(event, bytes))
    {
      if event in credits { return if credits[event] == bytes then Acked else Rejected(409); }
      if |credits| >= limit { return Rejected(503); }
      credits := credits[event := bytes];
      usedBytes := usedBytes - bytes;
      if usedBytes < 0 { usedBytes := 0; }
      reply := Acked;
    }
  }
}
