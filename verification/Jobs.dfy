/** Job rows of the durable scheduler. Workers and operators change them only by guarded updates. */
module Jobs {
  import opened ByteStrings

  /** Row ids and lease tokens; the empty token is 0. */
  type Id = nat
  type Token = nat

  const NO_LEASE: Token := 0

  const MINUTE: nat := 60000

  datatype Limits = Limits(maxAttempts: nat, initialDelay: nat, maxDelay: nat)

  datatype Status = Pending | Running | Completed | Failed | Canceled

  /** Times are milliseconds; expires is None for the empty column. */
  datatype Job = Job(status: Status, scheduledAt: int, lease: Token, expires: Option<int>, attempts: nat,
                     started: Option<int>, finished: Option<int>, updated: int)

  predicate Terminal(s: Status) { s.Completed? || s.Failed? || s.Canceled? }

  /** A job is running exactly when it carries a lease and an expiry, and has neither otherwise. */
  predicate LeaseMatchesStatus(j: Job) {
    (j.status.Running? <==> j.lease != NO_LEASE) && (j.status.Running? <==> j.expires.Some?)
  }

  // ----- the guarded updates, as functions of one row

  /** What the claim query selects. An empty expiry sorts before every time. */
  predicate Claimable(j: Job, now: int) {
    (j.status.Pending? && j.scheduledAt <= now) || (j.status.Running? && (j.expires.None? || j.expires.value <= now))
  }

  /** The guard of a claim, given the row as the worker read it. */
  predicate ClaimGuard(seen: Job, j: Job, now: int) {
    match seen.status
    case Pending => j.status.Pending? && j.lease == NO_LEASE && j.expires.None? && j.scheduledAt <= now
    case Running => j.status.Running? && j.lease == seen.lease && j.expires == seen.expires
                    && (j.expires.None? || j.expires.value <= now)
    case _ => false
  }

  function ClaimedRow(j: Job, token: Token, now: int, duration: nat): Job {
    j.(status := Running, lease := token, expires := Some(now + duration), attempts := j.attempts + 1,
       started := if j.started.None? then Some(now) else j.started, updated := now)
  }

  /** The guard of every write a running attempt makes. */
  predicate Holds(j: Job, token: Token) { j.status.Running? && j.lease == token }

  /** How an attempt gives its lease back. */
  datatype Ending =
    | Complete | Fail
    | Requeue(scheduledAt: int)                   // retry
    | Release                                     // shutdown
    | Defer(scheduledAt: int)                     // admission denied

  /** counted is the number of attempts in the worker's own copy of the row, which a deferral writes back less one. */
  function EndedRow(j: Job, e: Ending, counted: nat, now: int): Job {
    var free := j.(lease := NO_LEASE, expires := None, updated := now);
    match e
    case Complete => free.(status := Completed, finished := Some(now))
    case Fail => free.(status := Failed, finished := Some(now))
    case Requeue(at) => free.(status := Pending, scheduledAt := at)
    case Release => free.(status := Pending, scheduledAt := now)
    case Defer(at) => free.(status := Pending, scheduledAt := at, attempts := if counted == 0 then 0 else counted - 1)
  }

  predicate CancelGuard(j: Job, token: Token) {
    j.lease == token && (j.status.Pending? || j.status.Running?)
  }

  function CancelledRow(j: Job, now: int): Job {
    j.(status := Canceled, lease := NO_LEASE, expires := None, finished := Some(now), updated := now)
  }

  function RetriedRow(j: Job, now: int): Job {
    Job(Pending, now, NO_LEASE, None, 0, None, None, now)
  }

  function InsertedRow(scheduledAt: int, now: int): Job {
    Job(Pending, scheduledAt, NO_LEASE, None, 0, None, None, now)
  }

  /** A row that the claim query selects and nobody has touched since is always claimed, and a claim is
      possible only for such a row. */
  lemma SelectedRowsAreClaimed(j: Job, now: int)
    requires LeaseMatchesStatus(j)
    ensures ClaimGuard(j, j, now) <==> Claimable(j, now)
  {
  }

  /** An operator who read a pending row cannot cancel a running attempt with the empty token. */
  lemma EmptyTokenCancelsOnlyPending(j: Job)
    requires LeaseMatchesStatus(j)
    ensures CancelGuard(j, NO_LEASE) <==> j.status.Pending?
    ensures forall token | token != NO_LEASE :: CancelGuard(j, token) <==> Holds(j, token)
  {
  }

  datatype CancelRound = CancelRound(seen: Option<Job>, hit: bool)

  datatype CancelResult = Done(running: bool, token: Token) | NotFound | NotCancelable

  class JobStore {
    var rows: map<Id, Job>

    ghost predicate Valid()
      reads this
    {
      forall id | id in rows :: LeaseMatchesStatus(rows[id])
    }

    constructor ()
      ensures Valid() && rows == map[]
    {
      rows := map[];
    }

    method Insert(id: Id, scheduledAt: int, now: int)
      requires Valid() && id !in rows
      modifies this
      ensures Valid() && rows == old(rows)[id := InsertedRow(scheduledAt, now)]
    {
      rows := rows[id := InsertedRow(scheduledAt, now)];
    }

    /** Claim a row read earlier. */
    method ClaimOne(id: Id, seen: Job, token: Token, now: int, duration: nat) returns (claimed: bool)
      requires Valid() && token != NO_LEASE
      modifies this
      ensures Valid()
      ensures claimed <==> id in old(rows) && ClaimGuard(seen, old(rows)[id], now)
      ensures rows == if claimed then old(rows)[id := ClaimedRow(old(rows)[id], token, now, duration)] else old(rows)
    {
      if Terminal(seen.status) { return false; }
      if id !in rows || !ClaimGuard(seen, rows[id], now) { return false; }
      rows := rows[id := ClaimedRow(rows[id], token, now, duration)];
      claimed := true;
    }

    method Renew(id: Id, token: Token, now: int, duration: nat) returns (renewed: bool)
      requires Valid()
      modifies this
      ensures Valid()
      ensures renewed <==> id in old(rows) && Holds(old(rows)[id], token)
      ensures rows == if renewed then old(rows)[id := old(rows)[id].(expires := Some(now + duration), updated := now)] else old(rows)
    {
      if id !in rows || !Holds(rows[id], token) { return false; }
      rows := rows[id := rows[id].(expires := Some(now + duration), updated := now)];
      renewed := true;
    }

    /** Complete, fail, retry, release or defer: only the attempt whose token the row carries succeeds. */
    method End(id: Id, token: Token, e: Ending, counted: nat, now: int) returns (affected: bool)
      requires Valid()
      modifies this
      ensures Valid()
      ensures affected <==> id in old(rows) && Holds(old(rows)[id], token)
      ensures rows == if affected then old(rows)[id := EndedRow(old(rows)[id], e, counted, now)] else old(rows)
    {
      if id !in rows || !Holds(rows[id], token) { return false; }
      rows := rows[id := EndedRow(rows[id], e, counted, now)];
      affected := true;
    }

    /** After an error: another attempt after the delay, unless the worker has counted enough of them. */
    method RetryLater(id: Id, token: Token, counted: nat, limits: Limits, jitter: nat, now: int, later: int) returns (affected: bool)
      requires Valid() && limits.initialDelay > 0
      modifies this
      ensures Valid()
      ensures affected <==> id in old(rows) && Holds(old(rows)[id], token)
      ensures !affected ==> rows == old(rows)
      ensures affected ==> id in rows && rows.Keys == old(rows).Keys && rows[id].lease == NO_LEASE && rows[id].attempts == old(rows)[id].attempts
      ensures affected && counted >= limits.maxAttempts ==> rows[id].status.Failed? && rows[id].finished == Some(later)
      ensures affected && counted < limits.maxAttempts ==>
        rows[id].status.Pending? &&
        rows[id].scheduledAt == now + Min(Backoff(limits.initialDelay, limits.maxDelay, counted) + jitter, limits.maxDelay)
      ensures forall other | other in rows && other != id :: rows[other] == old(rows)[other]
    {
      if counted >= limits.maxAttempts {
        affected := End(id, token, Fail, counted, later);
      } else {
        var delay := RetryBackoff(limits.initialDelay, limits.maxDelay, counted, jitter);
        affected := End(id, token, Requeue(now + delay), counted, later);
      }
    }

    /** After a refused admission: a minute at least, and the attempt is given back. */
    method DeferAdmission(id: Id, token: Token, counted: nat, limits: Limits, now: int) returns (affected: bool)
      requires Valid()
      modifies this
      ensures Valid()
      ensures affected <==> id in old(rows) && Holds(old(rows)[id], token)
      ensures !affected ==> rows == old(rows)
      ensures affected ==> id in rows && rows.Keys == old(rows).Keys && rows[id].status.Pending? && rows[id].lease == NO_LEASE
      ensures affected ==> rows[id].scheduledAt >= now + MINUTE && rows[id].scheduledAt >= now + limits.maxDelay
      ensures affected ==> rows[id].scheduledAt == now + MINUTE || rows[id].scheduledAt == now + limits.maxDelay
      ensures affected ==> rows[id].attempts == if counted > 0 then counted - 1 else 0
      ensures forall other | other in rows && other != id :: rows[other] == old(rows)[other]
    {
      var delay := limits.maxDelay;
      if delay < MINUTE { delay := MINUTE; }
      affected := End(id, token, Defer(now + delay), counted, now);
    }

    /** One round of an operator's cancel. */
    method CancelOnce(id: Id, token: Token, now: int) returns (affected: bool)
      requires Valid()
      modifies this
      ensures Valid()
      ensures affected <==> id in old(rows) && CancelGuard(old(rows)[id], token)
      ensures rows == if affected then old(rows)[id := CancelledRow(old(rows)[id], now)] else old(rows)
    {
      if id !in rows || !CancelGuard(rows[id], token) { return false; }
      rows := rows[id := CancelledRow(rows[id], now)];
      affected := true;
    }

    method Retry(id: Id, now: int) returns (affected: bool)
      requires Valid()
      modifies this
      ensures Valid()
      ensures affected <==> id in old(rows) && Terminal(old(rows)[id].status)
      ensures rows == if affected then old(rows)[id := RetriedRow(old(rows)[id], now)] else old(rows)
    {
      if id !in rows || !Terminal(rows[id].status) { return false; }
      rows := rows[id := RetriedRow(rows[id], now)];
      affected := true;
    }
  }

  /** The operator's loop: each round reads the row and tries once; a miss means the lease changed, so it
      reads again, at most four times. The rounds say what was read and whether the update hit. */
  method CancelLoop(rounds: seq<CancelRound>) returns (r: CancelResult, used: nat)
    requires |rounds| == 4
    ensures 0 < used <= 4
    ensures forall i | 0 <= i < used - 1 :: rounds[i].seen.Some? && !Terminal(rounds[i].seen.value.status) && !rounds[i].hit
    ensures var last := rounds[used - 1];
      match r
      case NotFound => last.seen.None?
      case Done(running, token) => last.seen.Some? && !Terminal(last.seen.value.status) && last.hit
        && running == last.seen.value.status.Running? && token == last.seen.value.lease
      case NotCancelable => last.seen.Some? && (Terminal(last.seen.value.status) || (used == 4 && !last.hit))
  {
    used := 0;
    while used < 4
      invariant 0 <= used <= 4
      invariant forall i | 0 <= i < used :: rounds[i].seen.Some? && !Terminal(rounds[i].seen.value.status) && !rounds[i].hit
    {
      var round := rounds[used];
      used := used + 1;
      if round.seen.None? { return NotFound, used; }
      if Terminal(round.seen.value.status) { return NotCancelable, used; }
      if round.hit { return Done(round.seen.value.status.Running?, round.seen.value.lease), used; }
    }
    r := NotCancelable;
  }

  // ----- retry delay

  function Min(a: int, b: int): int { if a < b then a else b }

  /** Doubling per finished attempt from the initial delay, never past the maximum unless it starts there. */
  function Backoff(initial: nat, maximum: nat, attempts: nat): nat {
    if initial >= maximum then initial else Min(initial * Pow2(if attempts == 0 then 0 else attempts - 1), maximum)
  }

  /** The delay before the next attempt. */
  method RetryBackoff(initial: nat, maximum: nat, attempts: nat, jitter: nat) returns (delay: nat)
    requires initial > 0
    ensures delay == Min(Backoff(initial, maximum, attempts) + jitter, maximum)
  {
    var base := initial;
    var i: int := 0;
    while i < attempts - 1 && base < maximum
      invariant 0 <= i && (attempts > 0 ==> i <= attempts - 1) && (attempts == 0 ==> i == 0)
      invariant base == if initial >= maximum then initial else Min(initial * Pow2(i), maximum)
      decreases attempts - i
    {
      DoublePower(initial, i);
      base := base * 2;
      if base > maximum { base := maximum; }
      i := i + 1;
    }
    if initial < maximum && base == maximum && i < attempts - 1 {
      LaterPowersAreLarger(initial, i, attempts - 1);
    }
    delay := base + jitter;
    if delay > maximum { delay := maximum; }
  }

  lemma DoublePower(initial: nat, i: nat)
    ensures initial * Pow2(i + 1) == 2 * (initial * Pow2(i))
  {
    assert Pow2(i + 1) == 2 * Pow2(i);
    assert initial * (2 * Pow2(i)) == 2 * (initial * Pow2(i));
  }

  lemma {:induction false} LaterPowersAreLarger(initial: nat, i: nat, j: nat)
    requires i <= j
    ensures initial * Pow2(i) <= initial * Pow2(j)
    decreases j
  {
    if i < j {
      LaterPowersAreLarger(initial, i, j - 1);
      DoublePower(initial, j - 1);
    }
  }

  /** Without jitter the delay never shrinks from one attempt to the next. */
  lemma BackoffNeverShrinks(initial: nat, maximum: nat, attempts: nat)
    ensures Backoff(initial, maximum, attempts) <= Backoff(initial, maximum, attempts + 1)
  {
    if attempts > 0 { DoublePower(initial, attempts - 1); }
  }
}
