/** All interleavings of claims, renewals, endings, operator cancels and retries, and of a worker's own
    registration, check, execution and clean-up. */
module SchedulerRuns {
  import opened ByteStrings
  import opened Jobs

  datatype Phase =
    | Claimed       // the claim committed
    | Registered    // its canceller is stored
    | Checked       // the row was still this attempt's after registration
    | Executing
    | Left          // past the executor, or never let in
    | Gone          // cleaned up

  /** An attempt of this process's worker; stopped means its context is cancelled. */
  datatype Attempt = Attempt(id: Id, phase: Phase, stopped: bool) {
    predicate MayExecute() { phase.Checked? || phase.Executing? }
  }

  /** counted is how many attempts each claim's worker believes in: one more than it read before the claim. ended
      lists the tokens that a successful write took from a running row, in order. cancelled are the tokens an
      operator's cancel took; signals are the cancels that committed and have not signalled yet. */
  datatype World = World(rows: map<Id, Job>, issued: set<Token>, counted: map<Token, nat>, ended: seq<Token>,
                         attempts: map<Token, Attempt>, cancellers: set<Token>, cancelled: set<Token>, signals: set<Token>)

  datatype Step =
    | Insert(id: Id, at: int, now: int)
    | Claim(id: Id, seen: Job, token: Token, now: int, duration: nat, mine: bool)
    | Renew(id: Id, token: Token, now: int, duration: nat)
    | End(id: Id, token: Token, e: Ending, now: int)
    | Cancel(id: Id, token: Token, now: int)
    | Retry(id: Id, now: int)
    | Remove(id: Id)
    | Register(t: Token)
    | Check(t: Token)
    | Enter(t: Token)
    | Leave(t: Token)
    | CleanUp(t: Token)
    | Stop(t: Token)
    | Signal(t: Token)

  predicate Enabled(w: World, step: Step) {
    match step
    case Insert(id, _, _) => id !in w.rows
    case Claim(_, _, token, _, _, _) => token != NO_LEASE && token !in w.issued
    case Remove(id) => id in w.rows && Terminal(w.rows[id].status)
    case Register(t) => t in w.attempts && w.attempts[t].phase.Claimed?
    case Check(t) => t in w.attempts && w.attempts[t].phase.Registered?
    case Enter(t) => t in w.attempts && w.attempts[t].phase.Checked?
    case Leave(t) => t in w.attempts && w.attempts[t].MayExecute()
    case CleanUp(t) => t in w.attempts && w.attempts[t].phase.Left?
    case Stop(t) => t in w.attempts
    case Signal(t) => t in w.signals
    case _ => true
  }

  function SetRow(w: World, id: Id, j: Job): World { w.(rows := w.rows[id := j]) }

  /** A row update that takes the token from the row it finds. */
  function TakeToken(w: World, id: Id, j: Job): World
    requires id in w.rows
  {
    SetRow(w, id, j).(ended := if w.rows[id].lease == NO_LEASE then w.ended else w.ended + [w.rows[id].lease])
  }

  function Counted(w: World, token: Token): nat { if token in w.counted then w.counted[token] else 0 }

  function SetPhase(w: World, t: Token, phase: Phase): World
    requires t in w.attempts
  {
    w.(attempts := w.attempts[t := w.attempts[t].(phase := phase)])
  }

  function StopAttempt(w: World, t: Token): World
    requires t in w.attempts
  {
    w.(attempts := w.attempts[t := w.attempts[t].(stopped := true)])
  }

  function Do(w: World, step: Step): World
    requires Enabled(w, step)
  {
    match step
    case Insert(id, at, now) => SetRow(w, id, InsertedRow(at, now))
    case Claim(id, seen, token, now, duration, mine) =>
      if id in w.rows && ClaimGuard(seen, w.rows[id], now) then
        TakeToken(w, id, ClaimedRow(w.rows[id], token, now, duration))
          .(issued := w.issued + {token}, counted := w.counted[token := seen.attempts + 1],
            attempts := if mine then w.attempts[token := Attempt(id, Claimed, false)] else w.attempts)
      else w
    case Renew(id, token, now, duration) =>
      if id in w.rows && Holds(w.rows[id], token) then SetRow(w, id, w.rows[id].(expires := Some(now + duration), updated := now)) else w
    case End(id, token, e, now) =>
      if id in w.rows && Holds(w.rows[id], token) then 
        TakeToken(w, id, EndedRow(w.rows[id], e, Counted(w, token), now)) else w
    case Cancel(id, token, now) =>
      if id in w.rows && CancelGuard(w.rows[id], token) then
        var v := TakeToken(w, id, CancelledRow(w.rows[id], now));
        if token == NO_LEASE then v else v.(cancelled := w.cancelled + {token}, signals := w.signals + {token})
      else w
    case Retry(id, now) =>
      if id in w.rows && Terminal(w.rows[id].status) then SetRow(w, id, RetriedRow(w.rows[id], now)) else w
    case Remove(id) => w.(rows := w.rows - {id})
    case Register(t) => SetPhase(w, t, Registered).(cancellers := w.cancellers + {t})
    case Check(t) =>
      var a := w.attempts[t];
      SetPhase(w, t, if a.id in w.rows && Holds(w.rows[a.id], t) then Checked else Left)
    case Enter(t) => SetPhase(w, t, Executing)
    case Leave(t) => SetPhase(w, t, Left)
    case CleanUp(t) => StopAttempt(SetPhase(w, t, Gone), t).(cancellers := w.cancellers - {t})
    case Stop(t) => StopAttempt(w, t)
    case Signal(t) =>
      var v := w.(signals := w.signals - {t}, cancellers := w.cancellers - {t});
      if t in w.cancellers && t in w.attempts then StopAttempt(v, t) else v
  }

  // ----- the invariant

  /** Rows carry live, distinct tokens; a token once taken is nowhere, and was taken once. */
  predicate TokensOK(rows: map<Id, Job>, issued: set<Token>, ended: seq<Token>) {
    var ok :=
      && (forall id | id in rows :: LeaseMatchesStatus(rows[id]))
      && (forall id | id in rows && rows[id].lease != NO_LEASE :: rows[id].lease in issued && rows[id].lease !in ended)
      && (forall i, j | i in rows && j in rows && rows[i].lease == rows[j].lease != NO_LEASE :: i == j)
      && (forall i, j | 0 <= i < j < |ended| :: ended[i] != ended[j])
      && (forall t | t in ended :: t in issued) && NO_LEASE !in issued;
    ok
  }

  /** A registered attempt can be signalled or is already stopped, and one that a cancel hit while it may
      execute is stopped or about to be. */
  predicate AttemptOK(w: World, t: Token)
    requires t in w.attempts
  {
    var a := w.attempts[t];
    var ok :=
      && t in w.issued
      && (a.phase.Registered? || a.MayExecute() ==> t in w.cancellers || a.stopped)
      && (a.MayExecute() && t in w.cancelled ==> a.stopped || t in w.signals);
    ok
  }

  predicate Inv(w: World) {
    var ok :=
      && TokensOK(w.rows, w.issued, w.ended)
      && (forall t | t in w.attempts :: AttemptOK(w, t))
      && (forall t | t in w.cancelled :: t in w.ended)
      && (forall t | t in w.cancellers :: t in w.attempts);
    ok
  }

  lemma TakingKeepsTokens(w: World, id: Id, j: Job, token: Token)
    requires TokensOK(w.rows, w.issued, w.ended) && id in w.rows && LeaseMatchesStatus(j)
    requires j.lease == token && (token != NO_LEASE ==> token !in w.issued)
    ensures var v := TakeToken(w, id, j);
      TokensOK(v.rows, if token == NO_LEASE then w.issued else w.issued + {token}, v.ended)
  {
    var v := TakeToken(w, id, j);
    var issued := if token == NO_LEASE then w.issued else w.issued + {token};
    forall i | i in v.rows && v.rows[i].lease != NO_LEASE ensures v.rows[i].lease in issued && v.rows[i].lease !in v.ended {
      if i != id { assert w.rows[i].lease in w.issued; }
    }
  }

  lemma RowStepKeeps(w: World, step: Step)
    requires Inv(w) && Enabled(w, step)
    requires step.Insert? || step.Renew? || step.Retry? || step.Remove?
    ensures Inv(Do(w, step))
  {
    var v := Do(w, step);
    assert TokensOK(v.rows, v.issued, v.ended);
    forall t | t in v.attempts ensures AttemptOK(v, t) { assert AttemptOK(w, t); }
  }

  lemma ClaimKeeps(w: World, step: Step)
    requires Inv(w) && Enabled(w, step) && step.Claim?
    ensures Inv(Do(w, step))
  {
    var v := Do(w, step);
    if v.rows != w.rows || v.issued != w.issued {
      TakingKeepsTokens(w, step.id, ClaimedRow(w.rows[step.id], step.token, step.now, step.duration), step.token);
    }
    forall t | t in v.attempts ensures AttemptOK(v, t) {
      if t in w.attempts { assert AttemptOK(w, t); }
    }
  }

  lemma EndKeeps(w: World, step: Step)
    requires Inv(w) && Enabled(w, step) && (step.End? || step.Cancel?)
    ensures Inv(Do(w, step))
  {
    var v := Do(w, step);
    if step.id in w.rows && (if step.End? then Holds(w.rows[step.id], step.token) else CancelGuard(w.rows[step.id], step.token)) {
      TakingKeepsTokens(w, step.id, v.rows[step.id], NO_LEASE);
    }
    forall t | t in v.attempts ensures AttemptOK(v, t) { assert AttemptOK(w, t); }
  }

  /** The check finds the row only while no write has taken the token. */
  lemma CheckKeeps(w: World, step: Step)
    requires Inv(w) && Enabled(w, step) && step.Check?
    ensures Inv(Do(w, step))
  {
    var v := Do(w, step);
    forall t | t in v.attempts ensures AttemptOK(v, t) { assert AttemptOK(w, t); }
  }

  lemma AttemptStepKeeps(w: World, step: Step)
    requires Inv(w) && Enabled(w, step)
    requires step.Register? || step.Enter? || step.Leave? || step.CleanUp? || step.Stop? || step.Signal?
    ensures Inv(Do(w, step))
  {
    var v := Do(w, step);
    forall t | t in v.attempts ensures AttemptOK(v, t) { assert AttemptOK(w, t); }
  }

  lemma StepKeeps(w: World, step: Step)
    requires Inv(w) && Enabled(w, step)
    ensures Inv(Do(w, step))
  {
    if step.Claim? {
      ClaimKeeps(w, step);
    } else if step.End? || step.Cancel? {
      EndKeeps(w, step);
    } else if step.Check? {
      CheckKeeps(w, step);
    } else if step.Insert? || step.Renew? || step.Retry? || step.Remove? {
      RowStepKeeps(w, step);
    } else {
      AttemptStepKeeps(w, step);
    }
  }

  // ----- runs

  ghost predicate StepAt(ws: seq<World>, steps: seq<Step>, i: nat)
    requires i < |steps| && |ws| == |steps| + 1
  {
    Enabled(ws[i], steps[i]) && ws[i + 1] == Do(ws[i], steps[i])
  }

  ghost predicate Run(ws: seq<World>, steps: seq<Step>) {
    && |ws| == |steps| + 1 && ws[0] == World(map[], {}, map[], [], map[], {}, {}, {})
    && forall i | 0 <= i < |steps| :: StepAt(ws, steps, i)
  }

  lemma {:induction false} InvAlways(ws: seq<World>, steps: seq<Step>, i: nat)
    requires Run(ws, steps) && i < |ws|
    ensures Inv(ws[i])
  {
    if i > 0 {
      InvAlways(ws, steps, i - 1);
      assert StepAt(ws, steps, i - 1);
      StepKeeps(ws[i - 1], steps[i - 1]);
    }
  }

  /** In every interleaving a job is running exactly when it carries a lease and an expiry. */
  lemma RunningIffLeased(ws: seq<World>, steps: seq<Step>, i: nat, id: Id)
    requires Run(ws, steps) && i < |ws| && id in ws[i].rows
    ensures var j := ws[i].rows[id];
      (j.status.Running? <==> j.lease != NO_LEASE) && (j.status.Running? <==> j.expires.Some?)
  {
    InvAlways(ws, steps, i);
  }

  /** So a due pending row and a running row whose lease ran out can always be claimed by a worker that
      reads them, and nothing else can. */
  lemma DueRowsCanBeClaimed(ws: seq<World>, steps: seq<Step>, i: nat, id: Id, now: int)
    requires Run(ws, steps) && i < |ws| && id in ws[i].rows
    ensures var j := ws[i].rows[id];
      ClaimGuard(j, j, now) <==>
        (j.status.Pending? && j.scheduledAt <= now) || (j.status.Running? && j.expires.Some? && j.expires.value <= now)
  {
    InvAlways(ws, steps, i);
    SelectedRowsAreClaimed(ws[i].rows[id], now);
  }

  /** A job carries a finishing time exactly when it has completed, failed or been cancelled. */
  lemma {:induction false} FinishedIffTerminal(ws: seq<World>, steps: seq<Step>, i: nat, id: Id)
    requires Run(ws, steps) && i < |ws| && id in ws[i].rows
    ensures Terminal(ws[i].rows[id].status) <==> ws[i].rows[id].finished.Some?
  {
    if i > 0 {
      assert StepAt(ws, steps, i - 1);
      if id in ws[i - 1].rows { FinishedIffTerminal(ws, steps, i - 1, id); }
    }
  }

  // ----- what a row tells of its past

  /** The step writes the row. */
  predicate Hits(w: World, step: Step, id: Id) {
    match step
    case Insert(i, _, _) => i == id
    case Claim(i, seen, _, now, _, _) => i == id && id in w.rows && ClaimGuard(seen, w.rows[id], now)
    case Renew(i, token, _, _) => i == id && id in w.rows && Holds(w.rows[id], token)
    case End(i, token, _, _) => i == id && id in w.rows && Holds(w.rows[id], token)
    case Cancel(i, token, _) => i == id && id in w.rows && CancelGuard(w.rows[id], token)
    case Retry(i, _) => i == id && id in w.rows && Terminal(w.rows[id].status)
    case _ => false
  }

  /** What the row says after the step wrote it. */
  predicate Tells(w: World, step: Step, id: Id, j: Job) {
    match step
    case Insert(_, at, now) => Waiting(j, at, now) && j.attempts == 0 && j.started.None?
    case Retry(_, now) => Waiting(j, now, now) && j.attempts == 0 && j.started.None?
    case Claim(_, _, token, now, duration, _) =>
      && Held(j, token, now, duration) && id in w.rows && j.attempts == w.rows[id].attempts + 1
      && j.started == (if w.rows[id].started.Some? then w.rows[id].started else Some(now))
    case Renew(_, token, now, duration) =>
      Held(j, token, now, duration) && id in w.rows && j.attempts == w.rows[id].attempts
    case Cancel(_, _, now) => j.status.Canceled? && Over(j, now)
    case End(_, _, Complete, now) => j.status.Completed? && Over(j, now)
    case End(_, _, Fail, now) => j.status.Failed? && Over(j, now)
    case End(_, _, Requeue(at), now) => Waiting(j, at, now) && id in w.rows && j.attempts == w.rows[id].attempts
    case End(_, _, Release, now) => Waiting(j, now, now) && id in w.rows && j.attempts == w.rows[id].attempts
    case End(_, token, Defer(at), now) =>
      && Waiting(j, at, now)
      && (Counted(w, token) > 0 ==> j.attempts + 1 == Counted(w, token)) && (Counted(w, token) == 0 ==> j.attempts == 0)
    case _ => false
  }

  predicate Waiting(j: Job, at: int, now: int) { j.status.Pending? && j.scheduledAt == at && j.updated == now }

  predicate Held(j: Job, token: Token, now: int, duration: nat) {
    j.status.Running? && j.lease == token && j.expires == Some(now + duration) && j.updated == now
  }

  predicate Over(j: Job, now: int) { j.finished == Some(now) && j.updated == now }

  lemma HitTells(w: World, step: Step, id: Id)
    requires Enabled(w, step) && Hits(w, step, id)
    ensures id in Do(w, step).rows && Tells(w, step, id, Do(w, step).rows[id])
  {
  }

  lemma MissKeeps(w: World, step: Step, id: Id)
    requires Enabled(w, step) && !Hits(w, step, id) && id in Do(w, step).rows
    ensures id in w.rows && Do(w, step).rows[id] == w.rows[id]
  {
  }

  /** In every run a row says what the last step that wrote it says: it is completed exactly when that step was the
      completion of the attempt that held it, failed exactly when it was that attempt's failure, cancelled exactly
      when it was a cancel that hit, running exactly when it was a claim or a renewal, and pending, due at the time
      that the step named, otherwise. */
  lemma {:induction false} RowsTellTheirLastWrite(ws: seq<World>, steps: seq<Step>, i: nat, id: Id) returns (k: nat)
    requires Run(ws, steps) && i < |ws| && id in ws[i].rows
    ensures k < i && Hits(ws[k], steps[k], id) && forall j | k < j < i :: !Hits(ws[j], steps[j], id)
    ensures Tells(ws[k], steps[k], id, ws[i].rows[id])
    ensures var s, status := steps[k], ws[i].rows[id].status;
      && (status.Completed? <==> s.End? && s.e.Complete?) && (status.Failed? <==> s.End? && s.e.Fail?)
      && (status.Canceled? <==> s.Cancel?) && (status.Running? <==> s.Claim? || s.Renew?)
  {
    assert StepAt(ws, steps, i - 1);
    if Hits(ws[i - 1], steps[i - 1], id) {
      HitTells(ws[i - 1], steps[i - 1], id);
      k := i - 1;
    } else {
      MissKeeps(ws[i - 1], steps[i - 1], id);
      k := RowsTellTheirLastWrite(ws, steps, i - 1, id);
    }
  }

  // ----- attempts

  /** Claims less deferrals since the row was inserted or retried. */
  function Count(ws: seq<World>, steps: seq<Step>, id: Id, i: nat): int
    requires i <= |steps| && |ws| == |steps| + 1
  {
    if i == 0 then 0
    else
      var before, s := Count(ws, steps, id, i - 1), steps[i - 1];
      if !Hits(ws[i - 1], s, id) then before
      else if s.Insert? || s.Retry? then 0
      else if s.Claim? then before + 1
      else if s.End? && s.e.Defer? then before - 1
      else before
  }

  /** A claim of this row counts from the attempts that the row still has. */
  predicate CountsFromTheRow(w: World, step: Step, id: Id) {
    step.Claim? && Hits(w, step, id) ==> step.seen.attempts == w.rows[id].attempts
  }

  predicate CountedRow(w: World, id: Id, count: int) {
    id in w.rows ==> w.rows[id].attempts == count && (w.rows[id].status.Running? ==> Counted(w, w.rows[id].lease) == count > 0)
  }

  /** While the claims of a row find the attempts that they read, the row's attempts are its claims less its
      deferrals, and so is what the worker that holds it goes by. */
  lemma {:induction false} AttemptsAreCounted(ws: seq<World>, steps: seq<Step>, i: nat, id: Id)
    requires Run(ws, steps) && i < |ws| && forall k | 0 <= k < i :: CountsFromTheRow(ws[k], steps[k], id)
    ensures CountedRow(ws[i], id, Count(ws, steps, id, i))
  {
    if i > 0 {
      AttemptsAreCounted(ws, steps, i - 1, id);
      InvAlways(ws, steps, i - 1);
      assert StepAt(ws, steps, i - 1);
      CountStep(ws[i - 1], steps[i - 1], id, Count(ws, steps, id, i - 1), Count(ws, steps, id, i));
    }
  }

  lemma CountStep(w: World, step: Step, id: Id, before: int, after: int)
    requires Inv(w) && Enabled(w, step) && CountsFromTheRow(w, step, id) && CountedRow(w, id, before)
    requires after == if !Hits(w, step, id) then before
                      else if step.Insert? || step.Retry? then 0
                      else if step.Claim? then before + 1
                      else if step.End? && step.e.Defer? then before - 1 else before
    ensures CountedRow(Do(w, step), id, after)
  {
    if Hits(w, step, id) {
      HitTells(w, step, id);
    } else if id in Do(w, step).rows {
      MissKeeps(w, step, id);
      assert TokensOK(w.rows, w.issued, w.ended);
    }
  }

  lemma {:induction false} CountedStays(ws: seq<World>, steps: seq<Step>, i: nat, j: nat, t: Token)
    requires Run(ws, steps) && i <= j < |ws| && t in ws[i].issued && t in ws[i].counted
    ensures t in ws[j].issued && t in ws[j].counted && ws[j].counted[t] == ws[i].counted[t]
  {
    if i < j {
      CountedStays(ws, steps, i, j - 1, t);
      assert StepAt(ws, steps, j - 1);
    }
  }

  /** In every run a deferral leaves the attempts that its claim had read, which are those before the claim exactly
      when no other claim, deferral or retry came between the reading and the claim. */
  lemma DeferralWritesWhatWasRead(ws: seq<World>, steps: seq<Step>, i: nat, k: nat, id: Id)
    requires Run(ws, steps) && i < k < |steps| && steps[i].Claim? && Hits(ws[i], steps[i], id)
    requires steps[k].End? && steps[k].e.Defer? && steps[k].token == steps[i].token && Hits(ws[k], steps[k], id)
    ensures id in ws[k + 1].rows && ws[k + 1].rows[id].attempts == steps[i].seen.attempts
    ensures ws[k + 1].rows[id].attempts == ws[i].rows[id].attempts <==> CountsFromTheRow(ws[i], steps[i], id)
  {
    assert StepAt(ws, steps, i) && StepAt(ws, steps, k);
    CountedStays(ws, steps, i + 1, k, steps[i].token);
    HitTells(ws[k], steps[k], id);
  }

  /** The first steps of a run, and one more. */
  lemma RunOn(ws: seq<World>, steps: seq<Step>, step: Step) returns (more: seq<World>, longer: seq<Step>)
    requires Run(ws, steps) && Enabled(ws[|steps|], step)
    ensures Run(more, longer) && more == ws + [Do(ws[|steps|], step)] && longer == steps + [step]
  {
    more, longer := ws + [Do(ws[|steps|], step)], steps + [step];
    forall i | 0 <= i < |longer| ensures StepAt(more, longer, i) {
      if i < |steps| { assert StepAt(ws, steps, i); }
    }
  }

  /** One job and the attempt at it, in a phase, before its token is taken. */
  function OneAttempt(j: Job, phase: Phase, cancellers: set<Token>): World {
    World(map[0 := j], {1}, map[1 := 1], [], map[1 := Attempt(0, phase, false)], cancellers, {}, {})
  }

  const CLAIMED: Job := Job(Running, 0, 1, Some(1), 1, Some(0), None, 0)
  const COMPLETED: Job := Job(Completed, 0, NO_LEASE, None, 1, Some(0), Some(0), 0)

  lemma JobIsClaimed() returns (ws: seq<World>, steps: seq<Step>)
    ensures Run(ws, steps) && ws[|steps|] == OneAttempt(CLAIMED, Claimed, {})
  {
    ws, steps := [World(map[], {}, map[], [], map[], {}, {}, {})], [];
    ws, steps := RunOn(ws, steps, Insert(0, 0, 0));
    ws, steps := RunOn(ws, steps, Claim(0, InsertedRow(0, 0), 1, 0, 1, true));
  }

  /** An attempt goes through its phases: registered, checked, executing. */
  lemma JobIsExecuted() returns (ws: seq<World>, steps: seq<Step>)
    ensures Run(ws, steps) && ws[|steps|] == OneAttempt(CLAIMED, Executing, {1})
  {
    ws, steps := JobIsClaimed();
    ws, steps := RunOn(ws, steps, Register(1));
    assert ws[|steps|] == OneAttempt(CLAIMED, Registered, {1});
    ws, steps := RunOn(ws, steps, Check(1));
    assert ws[|steps|] == OneAttempt(CLAIMED, Checked, {1});
    ws, steps := RunOn(ws, steps, Enter(1));
  }

  /** It leaves, its completion takes the token, and its canceller goes. */
  lemma JobIsCompleted() returns (ws: seq<World>, steps: seq<Step>)
    ensures Run(ws, steps)
    ensures ws[|steps|] == World(map[0 := COMPLETED], {1}, map[1 := 1], [1], map[1 := Attempt(0, Gone, true)], {}, {}, {})
  {
    ws, steps := JobIsExecuted();
    ws, steps := RunOn(ws, steps, Leave(1));
    assert ws[|steps|] == OneAttempt(CLAIMED, Left, {1});
    ws, steps := RunOn(ws, steps, End(0, 1, Complete, 0));
    assert ws[|steps|] == OneAttempt(COMPLETED, Left, {1}).(ended := [1]);
    ws, steps := RunOn(ws, steps, CleanUp(1));
  }

  /** Or an operator's cancel takes the token, and its signal stops the attempt. */
  lemma JobIsCancelled() returns (ws: seq<World>, steps: seq<Step>)
    ensures Run(ws, steps)
    ensures var j := CancelledRow(CLAIMED, 1);
      ws[|steps|] == World(map[0 := j], {1}, map[1 := 1], [1], map[1 := Attempt(0, Executing, true)], {}, {1}, {})
  {
    ws, steps := JobIsExecuted();
    ws, steps := RunOn(ws, steps, Cancel(0, 1, 1));
    var j := CancelledRow(CLAIMED, 1);
    assert ws[|steps|] == World(map[0 := j], {1}, map[1 := 1], [1], map[1 := Attempt(0, Executing, false)], {1}, {1}, {1});
    ws, steps := RunOn(ws, steps, Signal(1));
  }

  /** A worker that read a row before another one claimed and released it counts one attempt too few, and its
      deferral writes that back: the row has been claimed twice and deferred once, and says it was never tried. */
  lemma StaleClaimForgetsAnAttempt() returns (ws: seq<World>, steps: seq<Step>)
    ensures Run(ws, steps) && |steps| == 5 && 0 in ws[5].rows
    ensures steps[1].Claim? && Hits(ws[1], steps[1], 0) && steps[3].Claim? && Hits(ws[3], steps[3], 0)
    ensures steps[4].End? && steps[4].e.Defer? && Hits(ws[4], steps[4], 0)
    ensures ws[5].rows[0].attempts == 0
  {
    ws, steps := [World(map[], {}, map[], [], map[], {}, {}, {})], [];
    ws, steps := RunOn(ws, steps, Insert(0, 0, 0));
    var read := ws[1].rows[0];
    ws, steps := RunOn(ws, steps, Claim(0, read, 1, 0, 1, false));
    ws, steps := RunOn(ws, steps, End(0, 1, Release, 0));
    ws, steps := RunOn(ws, steps, Claim(0, read, 2, 0, 1, false));
    ws, steps := RunOn(ws, steps, End(0, 2, Defer(1), 0));
  }

  predicate Reopens(step: Step, id: Id) { (step.Retry? || step.Remove?) && step.id == id }

  /** A finished job stays as it is until an operator retries it or the clean-up removes it: no claim,
      renewal, late ending or cancel touches it. */
  lemma {:induction false} FinishedJobsStay(ws: seq<World>, steps: seq<Step>, i: nat, j: nat, id: Id)
    requires Run(ws, steps) && i <= j < |ws| && id in ws[i].rows && Terminal(ws[i].rows[id].status)
    requires forall k | i <= k < j :: !Reopens(steps[k], id)
    ensures id in ws[j].rows && ws[j].rows[id] == ws[i].rows[id]
  {
    if i < j {
      FinishedJobsStay(ws, steps, i, j - 1, id);
      assert StepAt(ws, steps, j - 1) && !Reopens(steps[j - 1], id);
    }
  }

  /** Each claim token is taken from its row by at most one successful write. */
  lemma TokensEndOnce(ws: seq<World>, steps: seq<Step>, n: nat, i: nat, j: nat)
    requires Run(ws, steps) && n < |ws| && i < |ws[n].ended| && j < |ws[n].ended| && ws[n].ended[i] == ws[n].ended[j]
    ensures i == j
  {
    InvAlways(ws, steps, n);
  }

  lemma {:induction false} EndedStays(ws: seq<World>, steps: seq<Step>, i: nat, j: nat, token: Token)
    requires Run(ws, steps) && i <= j < |ws| && token in ws[i].ended
    ensures token in ws[j].ended
  {
    if i < j {
      EndedStays(ws, steps, i, j - 1, token);
      assert StepAt(ws, steps, j - 1);
    }
  }

  /** Once a token is taken, its attempt's completion, failure, retry, release, deferral and renewal change
      nothing, whenever they come; so does a cancel aimed at it. */
  lemma StaleWritesChangeNothing(ws: seq<World>, steps: seq<Step>, i: nat, j: nat, token: Token)
    requires Run(ws, steps) && i <= j < |steps| && token in ws[i].ended
    requires (steps[j].End? || steps[j].Renew? || steps[j].Cancel?) && steps[j].token == token
    ensures ws[j + 1] == ws[j]
  {
    EndedStays(ws, steps, i, j, token);
    InvAlways(ws, steps, j);
    assert StepAt(ws, steps, j);
    if steps[j].id in ws[j].rows {
      assert ws[j].rows[steps[j].id].lease != token by { NotLive(ws[j], steps[j].id, token); }
    }
  }

  lemma NotLive(w: World, id: Id, token: Token)
    requires Inv(w) && id in w.rows && token in w.ended
    ensures w.rows[id].lease != token
  {
    assert TokensOK(w.rows, w.issued, w.ended);
    assert token in w.issued;
  }

  lemma {:induction false} CancelledStays(ws: seq<World>, steps: seq<Step>, i: nat, j: nat, t: Token)
    requires Run(ws, steps) && i <= j < |ws| && t in ws[i].cancelled
    ensures t in ws[j].cancelled
  {
    if i < j {
      CancelledStays(ws, steps, i, j - 1, t);
      assert StepAt(ws, steps, j - 1);
    }
  }

  /** Once an operator's cancel of a running attempt has returned, the attempt is not let into the executor,
      or its context is cancelled, or it has left: registering before checking, against updating before
      signalling, misses no interleaving. */
  lemma CancelReachesTheAttempt(ws: seq<World>, steps: seq<Step>, i: nat, t: Token)
    requires Run(ws, steps) && i < |ws| && t in ws[i].cancelled && t !in ws[i].signals && t in ws[i].attempts
    ensures var a := ws[i].attempts[t]; a.phase.Checked? || a.phase.Executing? ==> a.stopped
  {
    InvAlways(ws, steps, i);
    assert AttemptOK(ws[i], t);
  }

  /** An attempt that the cancel found before its check never passes the check. */
  lemma {:induction false} CancelBeforeCheckKeepsOut(ws: seq<World>, steps: seq<Step>, i: nat, j: nat, t: Token)
    requires Run(ws, steps) && i <= j < |ws| && t in ws[i].cancelled && t in ws[i].attempts
    requires !ws[i].attempts[t].phase.Checked? && !ws[i].attempts[t].phase.Executing?
    ensures t in ws[j].attempts && !ws[j].attempts[t].phase.Checked? && !ws[j].attempts[t].phase.Executing?
  {
    if i < j {
      CancelBeforeCheckKeepsOut(ws, steps, i, j - 1, t);
      InvAlways(ws, steps, j - 1);
      assert StepAt(ws, steps, j - 1);
      CancelledStays(ws, steps, i, j - 1, t);
      var w, step := ws[j - 1], steps[j - 1];
      if step.Check? && step.t == t && w.attempts[t].id in w.rows { NotLive(w, w.attempts[t].id, t); }
      if step.Claim? { assert AttemptOK(w, t); }
    }
  }
}
