/** Deployment retention: uploads trim old deployments, and scheduled jobs pin the ones they run on. */
module Retention {
  import opened ByteStrings

  type Id = nat
  type JobId = nat

  datatype Deployment = Deployment(created: int, active: bool, pins: nat)

  datatype Job = Job(deployment: Id, terminal: bool, finished: int)

  datatype State = State(deployments: map<Id, Deployment>, jobs: map<JobId, Job>, active: Option<Id>, previous: Option<Id>)

  datatype Outcome = Done | AlreadyActive | NotFound | NoPrevious | Changed | Underflow

  function JobsOf(jobs: map<JobId, Job>, d: Id): set<JobId> {
    set j | j in jobs && jobs[j].deployment == d
  }

  /** What every sequence of operations keeps. */
  predicate Consistent(s: State) {
    var ok :=
      && (forall d | d in s.deployments :: s.deployments[d].pins == |JobsOf(s.jobs, d)|)
      && (forall j | j in s.jobs :: s.jobs[j].deployment in s.deployments)
      && (forall d | d in s.deployments :: s.deployments[d].active <==> s.active == Some(d))
      && (s.active.Some? ==> s.active.value in s.deployments)
      && (s.previous.Some? ==> s.previous.value in s.deployments && s.active.Some? && s.active != s.previous);
    ok
  }

  // ----- which deployments may go

  /** Not active, not named by the state record, without jobs and pins. */
  predicate Deletable(s: State, d: Id) {
    && d in s.deployments && !s.deployments[d].active && s.active != Some(d) && s.previous != Some(d)
    && JobsOf(s.jobs, d) == {} && s.deployments[d].pins == 0
  }

  /** The deployments that are inactive and not named by the state record, oldest first. */
  predicate OldestFirst(s: State, records: seq<Id>) {
    && InOrder(s, records)
    && (forall d | d in records :: d in s.deployments)
    && (forall d | d in s.deployments ::
          d in records <==> !s.deployments[d].active && s.active != Some(d) && s.previous != Some(d))
  }

  predicate InOrder(s: State, records: seq<Id>) {
    forall i, j | 0 <= i < j < |records| :: records[i] != records[j] && Created(s, records[i]) <= Created(s, records[j])
  }

  function Created(s: State, d: Id): int {
    if d in s.deployments then s.deployments[d].created else 0
  }

  function Candidates(s: State, records: seq<Id>): (r: seq<Id>) {
    if records == [] then []
    else
      var front := Candidates(s, records[..|records| - 1]);
      var last := records[|records| - 1];
      if Deletable(s, last) then front + [last] else front
  }

  /** The candidates beyond the newest keep. */
  function Doomed(s: State, records: seq<Id>, keep: nat): seq<Id> {
    var all := Candidates(s, records);
    if |all| <= keep then [] else all[..|all| - keep]
  }

  lemma {:induction false} CandidatesAre(s: State, records: seq<Id>)
    ensures forall d :: d in Candidates(s, records) <==> d in records && Deletable(s, d)
    decreases |records|
  {
    if records != [] {
      var front, last := records[..|records| - 1], records[|records| - 1];
      assert records == front + [last];
      CandidatesAre(s, front);
    }
  }

  lemma {:induction false} CandidatesInOrder(s: State, records: seq<Id>)
    requires InOrder(s, records)
    ensures InOrder(s, Candidates(s, records))
    decreases |records|
  {
    if records != [] {
      var front, last := records[..|records| - 1], records[|records| - 1];
      CandidatesInOrder(s, front);
      CandidatesAre(s, front);
      forall d | d in front ensures d != last && Created(s, d) <= Created(s, last) {
        var i :| 0 <= i < |front| && front[i] == d;
        assert records[i] == d;
      }
    }
  }

  /** Trimming takes deletable deployments only, as many as exceed the quota, the oldest ones. */
  lemma TrimTakesTheOldest(s: State, records: seq<Id>, keep: nat)
    requires OldestFirst(s, records)
    ensures var doomed := Doomed(s, records, keep);
      && (forall d | d in doomed :: Deletable(s, d))
      && (forall d, e | d in doomed && Deletable(s, e) && e !in doomed :: Created(s, d) <= Created(s, e))
      && |doomed| == if |Candidates(s, records)| <= keep then 0 else |Candidates(s, records)| - keep
    ensures forall d :: d in Candidates(s, records) <==> Deletable(s, d)
  {
    CandidatesAre(s, records);
    CandidatesInOrder(s, records);
    var all, doomed := Candidates(s, records), Doomed(s, records, keep);
    assert all == doomed + all[|doomed|..];
    forall d, e | d in doomed && Deletable(s, e) && e !in doomed ensures Created(s, d) <= Created(s, e) {
      assert e in all;
      PrefixIsOlder(s, all, |doomed|, d, e);
    }
  }

  lemma PrefixIsOlder(s: State, all: seq<Id>, k: nat, d: Id, e: Id)
    requires InOrder(s, all) && k <= |all| && d in all[..k] && e in all[k..]
    ensures Created(s, d) <= Created(s, e)
  {
    var i :| 0 <= i < k && all[..k][i] == d;
    var j :| 0 <= j < |all[k..]| && all[k..][j] == e;
    assert all[i] == d && all[k + j] == e;
  }

  lemma RemovedJob(jobs: map<JobId, Job>, j: JobId, d: Id)
    requires j in jobs
    ensures |JobsOf(jobs - {j}, d)| == |JobsOf(jobs, d)| - if jobs[j].deployment == d then 1 else 0
  {
    if jobs[j].deployment == d {
      assert JobsOf(jobs, d) == JobsOf(jobs - {j}, d) + {j};
    } else {
      assert JobsOf(jobs, d) == JobsOf(jobs - {j}, d);
    }
  }

  lemma AddedJob(jobs: map<JobId, Job>, j: JobId, job: Job, d: Id)
    requires j !in jobs
    ensures |JobsOf(jobs[j := job], d)| == |JobsOf(jobs, d)| + if job.deployment == d then 1 else 0
  {
    if job.deployment == d {
      assert JobsOf(jobs[j := job], d) == JobsOf(jobs, d) + {j};
    } else {
      assert JobsOf(jobs[j := job], d) == JobsOf(jobs, d);
    }
  }

  /** While a job exists its deployment has a pin, so a decrement for it cannot underflow. */
  lemma JobsHoldPins(s: State, j: JobId)
    requires Consistent(s) && j in s.jobs
    ensures s.jobs[j].deployment in s.deployments && s.deployments[s.jobs[j].deployment].pins > 0
  {
    assert j in JobsOf(s.jobs, s.jobs[j].deployment);
  }

  lemma DeletionKeeps(s: State, d: Id)
    requires Consistent(s) && Deletable(s, d)
    ensures Consistent(s.(deployments := s.deployments - {d}))
  {
    assert forall j | j in s.jobs && s.jobs[j].deployment == d :: j in JobsOf(s.jobs, d);
  }

  /** The same deployments, of the same age. */
  predicate SameHistory(was: map<Id, Deployment>, now: map<Id, Deployment>) {
    var ok := was.Keys == now.Keys && forall d | d in was :: was[d].created == now[d].created;
    ok
  }

  class DeploymentStore {
    var deployments: map<Id, Deployment>
    var jobs: map<JobId, Job>
    var active: Option<Id>
    var previous: Option<Id>

    function S(): State
      reads this
    {
      State(deployments, jobs, active, previous)
    }

    predicate Valid()
      reads this
    {
      Consistent(S())
    }

    constructor ()
      ensures Valid() && S() == State(map[], map[], None, None)
    {
      deployments, jobs, active, previous := map[], map[], None, None;
    }

    /** An upload of a known id resumes it; a new one is stored inactive and the history is trimmed. */
    method Upload(id: Id, created: int)
      requires Valid()
      modifies this
      ensures Valid() && jobs == old(jobs) && active == old(active) && previous == old(previous)
      ensures deployments == if id in old(deployments) then old(deployments) else old(deployments)[id := Deployment(created, false, 0)]
    {
      if id in deployments { return; }
      deployments := deployments[id := Deployment(created, false, 0)];
      assert JobsOf(jobs, id) == {};
    }

    /** Delete the oldest deletable deployments beyond the quota, given the query's rows. */
    method DeleteOldestInactive(records: seq<Id>, keep: nat) returns (deleted: seq<Id>)
      requires Valid() && OldestFirst(S(), records)
      modifies this`deployments
      ensures Valid()
      ensures deleted == Doomed(old(S()), records, keep)
      ensures deployments == old(deployments) - (set d | d in deleted)
    {
      var deletable := FilterDeletable(records);
      if |deletable| <= keep { return []; }
      CandidatesAre(S(), records);
      CandidatesInOrder(S(), records);
      deleted := DeleteEach(deletable[..|deletable| - keep]);
    }

    method FilterDeletable(records: seq<Id>) returns (deletable: seq<Id>)
      requires OldestFirst(S(), records)
      ensures deletable == Candidates(S(), records)
    {
      deletable := [];
      for i := 0 to |records|
        invariant deletable == Candidates(S(), records[..i])
      {
        var d := records[i];
        assert records[..i + 1][..i] == records[..i] && records[..i + 1][i] == d;
        assert d in records;
        if JobsOf(jobs, d) != {} { continue; }
        if deployments[d].pins > 0 { continue; }
        deletable := deletable + [d];
      }
      assert records[..|records|] == records;
    }

    /** Each deletion checks its row again; here nothing came between. */
    method DeleteEach(doomed: seq<Id>) returns (deleted: seq<Id>)
      requires Valid() && forall d | d in doomed :: Deletable(S(), d)
      requires forall i, j | 0 <= i < j < |doomed| :: doomed[i] != doomed[j]
      modifies this`deployments
      ensures Valid() && deleted == doomed
      ensures deployments == old(deployments) - (set d | d in deleted)
    {
      deleted := [];
      for i := 0 to |doomed|
        invariant Valid() && deleted == doomed[..i]
        invariant deployments == old(deployments) - (set d | d in doomed[..i])
      {
        var d := doomed[i];
        assert d in doomed && Deletable(old(S()), d) && d !in doomed[..i];
        if !deployments[d].active && deployments[d].pins == 0 && JobsOf(jobs, d) == {} {
          DeletionKeeps(S(), d);
          deployments := deployments - {d};
          deleted := deleted + [d];
        }
        assert doomed[..i + 1] == doomed[..i] + [d];
      }
      assert doomed[..|doomed|] == doomed;
    }

    /** The activation transaction. */
    method Activate(id: Id) returns (r: Outcome)
      requires Valid()
      modifies this
      ensures Valid() && jobs == old(jobs)
      ensures r == if old(active) == Some(id) then AlreadyActive else if id !in old(deployments) then NotFound else Done
      ensures r == Done ==> active == Some(id) && previous == old(active)
      ensures r != Done ==> S() == old(S())
      ensures SameHistory(old(deployments), deployments)
    {
      if active == Some(id) { return AlreadyActive; }
      var saved := deployments;
      if active.Some? { SetDeploymentActive(active.value, false); }
      if id !in deployments {
        deployments := saved;
        return NotFound;
      }
      SetDeploymentActive(id, true);
      previous := active;
      active := Some(id);
      r := Done;
    }

    method SetDeploymentActive(id: Id, flag: bool)
      requires id in deployments
      modifies this`deployments
      ensures deployments == old(deployments)[id := old(deployments)[id].(active := flag)]
    {
      deployments := deployments[id := deployments[id].(active := flag)];
    }

    /** The rollback of the active deployment. The deployment it restores always exists. */
    method Rollback(id: Id) returns (r: Outcome)
      requires Valid()
      modifies this
      ensures Valid() && jobs == old(jobs) && SameHistory(old(deployments), deployments)
      ensures r == if id !in old(deployments) then NotFound else if old(active) != Some(id) then Changed
                   else if old(previous).None? then NoPrevious else Done
      ensures r == Done ==> active == old(previous) && previous == Some(id)
      ensures r != Done ==> S() == old(S())
    {
      if id !in deployments { return NotFound; }
      if !deployments[id].active { return Changed; }
      if previous.None? { return NoPrevious; }
      var restored := previous.value;
      SetDeploymentActive(id, false);
      SetDeploymentActive(restored, true);
      active := Some(restored);
      previous := Some(id);
      r := Done;
    }

    method Pin(id: Id, delta: int) returns (r: Outcome)
      requires delta == 1 || delta == -1
      modifies this`deployments
      ensures r == if id !in old(deployments) then NotFound else if delta < 0 && old(deployments)[id].pins == 0 then Underflow else Done
      ensures r == Done ==> deployments == old(deployments)[id := old(deployments)[id].(pins := old(deployments)[id].pins + delta)]
      ensures r != Done ==> deployments == old(deployments)
    {
      if id !in deployments { return NotFound; }
      if delta < 0 && deployments[id].pins == 0 { return Underflow; }
      deployments := deployments[id := deployments[id].(pins := deployments[id].pins + delta)];
      r := Done;
    }

    /** Pin first, then insert the job. */
    method ScheduleJob(j: JobId, id: Id) returns (r: Outcome)
      requires Valid() && j !in jobs
      modifies this
      ensures Valid() && active == old(active) && previous == old(previous)
      ensures r == if id in old(deployments) then Done else NotFound
      ensures jobs == if r == Done then old(jobs)[j := Job(id, false, 0)] else old(jobs)
      ensures SameHistory(old(deployments), deployments)
    {
      r := Pin(id, 1);
      if r != Done { return; }
      forall d ensures |JobsOf(jobs[j := Job(id, false, 0)], d)| == |JobsOf(jobs, d)| + if id == d then 1 else 0 {
        AddedJob(jobs, j, Job(id, false, 0), d);
      }
      jobs := jobs[j := Job(id, false, 0)];
    }

    /** A job ends, or a terminal job is queued again. Neither touches pins. */
    method SetTerminal(j: JobId, terminal: bool, finished: int)
      requires Valid() && j in jobs
      modifies this`jobs
      ensures Valid() && jobs == old(jobs)[j := old(jobs)[j].(terminal := terminal, finished := finished)]
    {
      forall d ensures JobsOf(jobs[j := jobs[j].(terminal := terminal, finished := finished)], d) == JobsOf(jobs, d) {}
      jobs := jobs[j := jobs[j].(terminal := terminal, finished := finished)];
    }

    method CleanupOne(j: JobId)
      requires Valid() && j in jobs
      modifies this
      ensures Valid() && active == old(active) && previous == old(previous)
      ensures jobs == old(jobs) - {j} && SameHistory(old(deployments), deployments)
    {
      JobsHoldPins(S(), j);
      forall d ensures |JobsOf(jobs - {j}, d)| == |JobsOf(jobs, d)| - if jobs[j].deployment == d then 1 else 0 {
        RemovedJob(jobs, j, d);
      }
      var r := Pin(jobs[j].deployment, -1);
      if r != Done { assert false; }
      jobs := jobs - {j};
    }

    /** Unpin and delete old terminal jobs. The branches for a missing deployment and for a pin count that
        is already zero cannot be reached, so every job selected is deleted. */
    method CleanupOld(records: seq<JobId>, cutoff: int)
      requires Valid()
      requires forall j | j in records :: j in jobs && jobs[j].terminal && jobs[j].finished < cutoff
      requires forall a, b | 0 <= a < b < |records| :: records[a] != records[b]
      modifies this
      ensures Valid() && active == old(active) && previous == old(previous)
      ensures jobs == old(jobs) - (set j | j in records)
      ensures SameHistory(old(deployments), deployments)
    {
      for i := 0 to |records|
        invariant Valid() && active == old(active) && previous == old(previous)
        invariant SameHistory(old(deployments), deployments)
        invariant CleanedUpTo(old(jobs), jobs, records, i)
      {
        CleanStep(old(jobs), jobs, records, i);
        CleanupOne(records[i]);
      }
      assert records[..|records|] == records;
    }
  }

  predicate CleanedUpTo(was: map<JobId, Job>, now: map<JobId, Job>, records: seq<JobId>, i: nat)
    requires i <= |records|
  {
    var ok := now == was - (set j | j in records[..i]);
    ok
  }

  lemma CleanStep(was: map<JobId, Job>, now: map<JobId, Job>, records: seq<JobId>, i: nat)
    requires i < |records| && records[i] in was && CleanedUpTo(was, now, records, i)
    requires forall a, b | 0 <= a < b < |records| :: records[a] != records[b]
    ensures records[i] in now && CleanedUpTo(was, now - {records[i]}, records, i + 1)
  {
    assert records[..i + 1] == records[..i] + [records[i]];
    assert records[i] !in records[..i];
  }
}
