/** The activation fence: no live subscription stays on a deployment that is no longer active. */
module RealtimeFence {
  import opened ByteStrings

  type SubId = nat
  type SessionId = nat
  type CallId = nat
  type RequestId = nat
  type DeploymentId = nat
  type Name = nat

  /** One session's flags and its subscriptions by name. */
  datatype SessionState = SessionState(closed: bool, cancelled: bool, subs: map<Name, SubId>)

  /** alive is false when the caller must end the session's stream. */
  datatype Added = Added(state: SessionState, registered: bool, alive: bool)

  /** A closed session, a taken name and a full table turn the request away; behind the fence the session is
      cancelled; otherwise the subscription is entered and registered. */
  function AddSub(state: SessionState, name: Name, s: SubId, current: bool, room: bool): Added {
    if state.closed then Added(state, false, false)
    else if name in state.subs || !room then Added(state, false, true)
    else if !current then Added(state.(cancelled := true), false, false)
    else Added(state.(subs := state.subs[name := s]), true, true)
  }

  function Closed(state: SessionState): SessionState { state.(closed := true, cancelled := true) }

  function Removed(state: SessionState, name: Name): SessionState { state.(subs := state.subs - {name}) }

  function Forgotten(state: SessionState, name: Name, s: SubId): SessionState {
    if name in state.subs && state.subs[name] == s then Removed(state, name) else state
  }

  // ----- the broadcaster's tables and one session's table

  class Broadcaster {
    var generation: nat
    var subs: set<SubId>
    var sessions: map<SessionId, Session>

    constructor ()
      ensures generation == 0 && subs == {} && sessions == map[]
    {
      generation, subs, sessions := 0, {}, map[];
    }

    /** The part of ReconnectAll under the lock: raise the fence and list everything to cancel. */
    method BeginReconnectAll() returns (subsToCancel: set<SubId>, sessionsToCancel: set<SessionId>)
      modifies this`generation
      ensures generation == old(generation) + 1
      ensures subsToCancel == subs && sessionsToCancel == sessions.Keys
    {
      generation := generation + 1;
      subsToCancel, sessionsToCancel := subs, sessions.Keys;
    }

    method SubscribeWithFence(s: SubId, admissionGen: nat) returns (ok: bool)
      modifies this`subs
      ensures ok <==> generation == admissionGen
      ensures subs == if ok then old(subs) + {s} else old(subs)
    {
      if generation != admissionGen { return false; }
      subs := subs + {s};
      ok := true;
    }

    method Unsubscribe(s: SubId)
      modifies this`subs
      ensures subs == old(subs) - {s}
    {
      subs := subs - {s};
    }

    method RegisterSession(id: SessionId, session: Session, admissionGen: nat) returns (ok: bool)
      modifies this`sessions
      ensures ok <==> generation == admissionGen
      ensures sessions == if ok then old(sessions)[id := session] else old(sessions)
    {
      if generation != admissionGen { return false; }
      sessions := sessions[id := session];
      ok := true;
    }

    method CloseSession(id: SessionId, session: Session)
      modifies this`sessions, session
      ensures sessions == old(sessions) - {id}
      ensures session.State() == Closed(old(session.State()))
    {
      sessions := sessions - {id};
      session.closed := true;
      session.cancelled := true;
    }

    /** Add a subscription to a session. Nothing is added to a closed session or behind the fence, and a
        request behind the fence closes the session so that the client reconnects. */
    method AddSessionSubscription(session: Session, name: Name, s: SubId, admissionGen: nat, limit: nat) returns (alive: bool)
      requires s !in subs
      modifies this`subs, session
      ensures var added := AddSub(old(session.State()), name, s, generation == admissionGen, |old(session.subs)| < limit);
        && session.State() == added.state
        && subs == (if added.registered then old(subs) + {s} else old(subs))
        && alive == added.alive
    {
      if session.closed { return false; }
      if name in session.subs { return true; }
      if |session.subs| >= limit { return true; }
      var ok := SubscribeWithFence(s, admissionGen);
      if !ok {
        session.cancelled := true;
        return false;
      }
      session.subs := session.subs[name := s];
      alive := true;
    }
  }

  class Session {
    var closed: bool
    var cancelled: bool
    var subs: map<Name, SubId>

    function State(): SessionState
      reads this
    {
      SessionState(closed, cancelled, subs)
    }

    constructor ()
      ensures State() == SessionState(false, false, map[])
    {
      closed, cancelled, subs := false, false, map[];
    }

    method Remove(name: Name) returns (cancelledSub: Option<SubId>)
      modifies this`subs
      ensures State() == Removed(old(State()), name)
      ensures cancelledSub == if name in old(subs) then Some(old(subs)[name]) else None
    {
      cancelledSub := if name in subs then Some(subs[name]) else None;
      subs := subs - {name};
    }

    /** A finishing subscription leaves the table only if it is still the one under its name. */
    method Forget(name: Name, s: SubId)
      modifies this`subs
      ensures State() == Forgotten(old(State()), name, s)
    {
      if name in subs && subs[name] == s { subs := subs - {name}; }
    }
  }

  // ----- all interleavings

  /** A subscription's pinned deployment, its session if it has one, and whether its own context is cancelled. */
  datatype Sub = Sub(pin: DeploymentId, session: Option<SessionId>, cancelled: bool)

  /** A committed activation or rollback, until its ReconnectAll has cancelled everything it listed. */
  datatype Activation = Committed | Cancelling(subs: set<SubId>, sessions: set<SessionId>)

  /** An admission: the generation read first, then the deployment it resolved against. */
  datatype Request = Request(generation: nat, pin: Option<DeploymentId>)

  datatype World = World(active: DeploymentId, generation: nat, activations: map<CallId, Activation>,
                         requests: map<RequestId, Request>, subs: map<SubId, Sub>, registered: set<SubId>,
                         sessions: map<SessionId, SessionState>, listed: set<SessionId>)

  datatype Step =
    | Commit(c: CallId, d: DeploymentId)
    | Reconnect(c: CallId)                       // raise the fence, list everything
    | CancelSub(c: CallId, s: SubId)
    | CancelSession(c: CallId, x: SessionId)
    | Finish(c: CallId)
    | Admit(r: RequestId)                        // read the generation
    | Resolve(r: RequestId)                      // pin the active deployment
    | Subscribe(r: RequestId, s: SubId)
    | OpenSession(r: RequestId, x: SessionId)
    | SubscribeIn(r: RequestId, s: SubId, x: SessionId, name: Name, room: bool)
    | ClientCancel(s: SubId)
    | Remove(x: SessionId, name: Name)
    | Unlist(x: SessionId)
    | Close(x: SessionId)
    | Unregister(s: SubId)
    | Forget(x: SessionId, name: Name, s: SubId)

  predicate Enabled(w: World, step: Step) {
    match step
    case Commit(c, _) => c !in w.activations
    case Reconnect(c) => c in w.activations && w.activations[c].Committed?
    case CancelSub(c, s) => c in w.activations && w.activations[c].Cancelling? && s in w.activations[c].subs
    case CancelSession(c, x) => c in w.activations && w.activations[c].Cancelling? && x in w.activations[c].sessions
    case Finish(c) => c in w.activations && w.activations[c] == Cancelling({}, {})
    case Admit(r) => r !in w.requests
    case Resolve(r) => r in w.requests && w.requests[r].pin.None?
    case Subscribe(r, s) => r in w.requests && w.requests[r].pin.Some? && s !in w.subs
    case OpenSession(r, x) => r in w.requests && x !in w.sessions
    case SubscribeIn(r, s, x, _, _) => r in w.requests && w.requests[r].pin.Some? && s !in w.subs && x in w.sessions
    case ClientCancel(s) => s in w.subs
    case Remove(x, name) => x in w.sessions
    case Unlist(x) => x in w.sessions
    case Close(x) => x in w.sessions && x !in w.listed
    case Unregister(s) => s in w.subs && !Live(w, s)
    case Forget(x, _, s) => x in w.sessions && s in w.subs && !Live(w, s)
  }

  /** Neither the subscription's context nor its session's is cancelled. */
  predicate Live(w: World, s: SubId)
    requires s in w.subs
  {
    var sub := w.subs[s];
    !sub.cancelled && (sub.session.Some? && sub.session.value in w.sessions ==> !w.sessions[sub.session.value].cancelled)
  }

  function CancelOne(w: World, s: SubId): World {
    if s in w.subs then w.(subs := w.subs[s := w.subs[s].(cancelled := true)]) else w
  }

  function PutSession(w: World, x: SessionId, state: SessionState): World { w.(sessions := w.sessions[x := state]) }

  function Register(w: World, s: SubId, pin: DeploymentId, session: Option<SessionId>): World {
    w.(subs := w.subs[s := Sub(pin, session, false)], registered := w.registered + {s})
  }

  function Do(w: World, step: Step): World
    requires Enabled(w, step)
  {
    match step
    case Commit(c, d) => w.(active := d, activations := w.activations[c := Committed])
    case Reconnect(c) =>
      w.(generation := w.generation + 1, activations := w.activations[c := Cancelling(w.registered, w.listed)])
    case CancelSub(c, s) =>
      CancelOne(w, s).(activations := w.activations[c := w.activations[c].(subs := w.activations[c].subs - {s})])
    case CancelSession(c, x) =>
      var v := w.(activations := w.activations[c := w.activations[c].(sessions := w.activations[c].sessions - {x})]);
      if x in w.sessions then PutSession(v, x, w.sessions[x].(cancelled := true)) else v
    case Finish(c) => w.(activations := w.activations - {c})
    case Admit(r) => w.(requests := w.requests[r := Request(w.generation, None)])
    case Resolve(r) => w.(requests := w.requests[r := w.requests[r].(pin := Some(w.active))])
    case Subscribe(r, s) =>
      if w.requests[r].generation == w.generation then Register(w, s, w.requests[r].pin.value, None) else w
    case OpenSession(r, x) =>
      if w.requests[r].generation == w.generation
      then PutSession(w, x, SessionState(false, false, map[])).(listed := w.listed + {x}) else w
    case SubscribeIn(r, s, x, name, room) =>
      var added := AddSub(w.sessions[x], name, s, w.requests[r].generation == w.generation, room);
      PutSession(if added.registered then Register(w, s, w.requests[r].pin.value, Some(x)) else w, x, added.state)
    case ClientCancel(s) => CancelOne(w, s)
    case Remove(x, name) =>
      var state := w.sessions[x];
      var v := PutSession(w, x, Removed(state, name));
      if name in state.subs then CancelOne(v, state.subs[name]) else v
    case Unlist(x) => w.(listed := w.listed - {x})
    case Close(x) => PutSession(w, x, Closed(w.sessions[x]))
    case Unregister(s) => w.(registered := w.registered - {s})
    case Forget(x, name, s) =>
      PutSession(w, x, Forgotten(w.sessions[x], name, s))
  }

  /** An activation whose ReconnectAll has not raised the fence yet. */
  predicate FenceStillDown(w: World) {
    exists c | c in w.activations :: w.activations[c].Committed?
  }

  /** An activation whose ReconnectAll is still to list this subscription, or to cancel it. */
  predicate WillBeCancelled(w: World, s: SubId) {
    FenceStillDown(w) || exists c | c in w.activations :: w.activations[c].Cancelling? && s in w.activations[c].subs
  }

  predicate RequestOK(w: World, r: RequestId)
    requires r in w.requests
  {
    var q := w.requests[r];
    q.generation <= w.generation
    && (q.pin.Some? && q.generation == w.generation && q.pin.value != w.active ==> FenceStillDown(w))
  }

  predicate SubOK(w: World, s: SubId)
    requires s in w.subs
  {
    var stale := w.subs[s].pin != w.active;
    s in w.registered && stale && Live(w, s) ==> WillBeCancelled(w, s)
  }

  predicate Inv(w: World) {
    var ok :=
      && (forall r | r in w.requests :: RequestOK(w, r))
      && (forall s | s in w.registered :: s in w.subs)
      && (forall s | s in w.subs :: SubOK(w, s));
    ok
  }

  // ----- every step keeps it

  lemma ActivationStepKeeps(w: World, step: Step)
    requires Inv(w) && Enabled(w, step) && (step.Commit? || step.Reconnect? || step.Finish?)
    ensures Inv(Do(w, step))
  {
    var v := Do(w, step);
    if step.Commit? {
      assert v.activations[step.c].Committed?;
      assert FenceStillDown(v);
    } else if step.Reconnect? {
      assert v.activations[step.c].Cancelling?;
      forall s | s in v.subs ensures SubOK(v, s) {
        if s in v.registered { assert s in v.activations[step.c].subs; }
      }
    } else {
      forall r | r in v.requests ensures RequestOK(v, r) {
        assert RequestOK(w, r);
        if FenceStillDown(w) {
          var c :| c in w.activations && w.activations[c].Committed?;
          assert c in v.activations;
        }
      }
      forall s | s in v.subs ensures SubOK(v, s) {
        assert SubOK(w, s);
        if WillBeCancelled(w, s) {
          var c :| c in w.activations && (w.activations[c].Committed? || (w.activations[c].Cancelling? && s in w.activations[c].subs));
          assert c in v.activations;
        }
      }
    }
  }

  lemma CoverStays(w: World, v: World, s: SubId)
    requires forall c | c in w.activations ::
      c in v.activations && (w.activations[c].Committed? ==> v.activations[c].Committed?)
      && (w.activations[c].Cancelling? && s in w.activations[c].subs ==> v.activations[c].Cancelling? && s in v.activations[c].subs)
    ensures FenceStillDown(w) ==> FenceStillDown(v)
    ensures WillBeCancelled(w, s) ==> WillBeCancelled(v, s)
  {
    if FenceStillDown(w) {
      var c :| c in w.activations && w.activations[c].Committed?;
      assert c in v.activations && v.activations[c].Committed?;
    } else if WillBeCancelled(w, s) {
      var c :| c in w.activations && w.activations[c].Cancelling? && s in w.activations[c].subs;
      assert c in v.activations;
    }
  }

  lemma CancelStepKeeps(w: World, step: Step)
    requires Inv(w) && Enabled(w, step) && (step.CancelSub? || step.CancelSession?)
    ensures Inv(Do(w, step))
  {
    var v := Do(w, step);
    forall r | r in v.requests ensures RequestOK(v, r) {
      assert RequestOK(w, r);
      if FenceStillDown(w) {
        var c :| c in w.activations && w.activations[c].Committed?;
        assert c in v.activations && v.activations[c].Committed?;
      }
    }
    forall s | s in v.subs ensures SubOK(v, s) {
      assert SubOK(w, s);
      if Live(v, s) {
        assert Live(w, s);
        CoverStays(w, v, s);
      }
    }
  }

  /** Steps that leave the activations and the generation alone. */
  lemma ClientStepKeeps(w: World, step: Step)
    requires Inv(w) && Enabled(w, step)
    requires !step.Commit? && !step.Reconnect? && !step.Finish? && !step.CancelSub? && !step.CancelSession?
    requires !step.Subscribe? && !step.SubscribeIn? && !step.OpenSession?
    ensures Inv(Do(w, step))
  {
    var v := Do(w, step);
    forall r | r in v.requests ensures RequestOK(v, r) {
      if r in w.requests { assert RequestOK(w, r); }
    }
    forall s | s in v.subs ensures SubOK(v, s) {
      assert SubOK(w, s);
      if Live(v, s) { assert Live(w, s); }
    }
  }

  lemma RegistrationKeeps(w: World, step: Step)
    requires Inv(w) && Enabled(w, step) && (step.Subscribe? || step.SubscribeIn? || step.OpenSession?)
    ensures Inv(Do(w, step))
  {
    var v := Do(w, step);
    assert RequestOK(w, step.r);
    forall r | r in v.requests ensures RequestOK(v, r) { assert RequestOK(w, r); }
    forall s | s in v.subs ensures SubOK(v, s) {
      if s in w.subs { assert SubOK(w, s); }
    }
  }

  lemma StepKeeps(w: World, step: Step)
    requires Inv(w) && Enabled(w, step)
    ensures Inv(Do(w, step))
  {
    if step.Commit? || step.Reconnect? || step.Finish? {
      ActivationStepKeeps(w, step);
    } else if step.CancelSub? || step.CancelSession? {
      CancelStepKeeps(w, step);
    } else if step.Subscribe? || step.SubscribeIn? || step.OpenSession? {
      RegistrationKeeps(w, step);
    } else {
      ClientStepKeeps(w, step);
    }
  }

  // ----- runs

  predicate Initial(w: World) {
    && w.activations == map[] && w.requests == map[] && w.subs == map[] && w.registered == {}
    && w.sessions == map[] && w.listed == {}
  }

  ghost predicate StepAt(ws: seq<World>, steps: seq<Step>, i: nat)
    requires i < |steps| && |ws| == |steps| + 1
  {
    Enabled(ws[i], steps[i]) && ws[i + 1] == Do(ws[i], steps[i])
  }

  ghost predicate Run(ws: seq<World>, steps: seq<Step>) {
    |ws| == |steps| + 1 && Initial(ws[0]) && forall i | 0 <= i < |steps| :: StepAt(ws, steps, i)
  }

  lemma {:induction false} InvAlways(ws: seq<World>, steps: seq<Step>, i: nat)
    requires Run(ws, steps) && i < |ws|
    ensures Inv(ws[i])
  {
    if i > 0 {
      InvAlways(ws, steps, i - 1);
      assert StepAt(ws, steps, i - 1);
      StepKeeps(ws[i - 1], steps[i - 1]);
    }
  }

  /** A registered, uncancelled subscription pinned to a deployment that is no longer active is still to be
      listed or cancelled by an activation whose ReconnectAll is unfinished. */
  lemma NoLiveStaleSubscription(ws: seq<World>, steps: seq<Step>, i: nat, s: SubId)
    requires Run(ws, steps) && i < |ws| && s in ws[i].registered && s in ws[i].subs && Live(ws[i], s)
    requires ws[i].subs[s].pin != ws[i].active
    ensures WillBeCancelled(ws[i], s)
  {
    InvAlways(ws, steps, i);
    assert SubOK(ws[i], s);
  }

  /** Once every ReconnectAll has finished, all live subscriptions are on the active deployment. */
  lemma SettledMeansCurrent(ws: seq<World>, steps: seq<Step>, i: nat, s: SubId)
    requires Run(ws, steps) && i < |ws| && ws[i].activations == map[]
    requires s in ws[i].registered && s in ws[i].subs && Live(ws[i], s)
    ensures ws[i].subs[s].pin == ws[i].active
  {
    if ws[i].subs[s].pin != ws[i].active { NoLiveStaleSubscription(ws, steps, i, s); }
  }

  /** A closed session never gains a subscription. */
  lemma {:induction false} ClosedSessionsOnlyShrink(ws: seq<World>, steps: seq<Step>, i: nat, j: nat, x: SessionId)
    requires Run(ws, steps) && i <= j < |ws| && x in ws[i].sessions && ws[i].sessions[x].closed
    ensures x in ws[j].sessions && ws[j].sessions[x].closed
    ensures forall n | n in ws[j].sessions[x].subs ::
      n in ws[i].sessions[x].subs && ws[j].sessions[x].subs[n] == ws[i].sessions[x].subs[n]
  {
    if i < j {
      ClosedSessionsOnlyShrink(ws, steps, i, j - 1, x);
      assert StepAt(ws, steps, j - 1);
    }
  }

  /** A fenced session, one whose context is cancelled, has no live subscription from then on. */
  lemma {:induction false} FencedSessionsStayDead(ws: seq<World>, steps: seq<Step>, i: nat, j: nat, x: SessionId)
    requires Run(ws, steps) && i <= j < |ws| && x in ws[i].sessions && ws[i].sessions[x].cancelled
    ensures x in ws[j].sessions && ws[j].sessions[x].cancelled
    ensures forall s | s in ws[j].subs && ws[j].subs[s].session == Some(x) :: !Live(ws[j], s)
  {
    if i < j {
      FencedSessionsStayDead(ws, steps, i, j - 1, x);
      assert StepAt(ws, steps, j - 1);
    }
  }

  /** The steps that may take a session's entry: its removal by name, and the end of its own subscription. */
  predicate TakesEntry(step: Step, x: SessionId, n: Name, s: SubId) {
    (step.Remove? && step.x == x && step.name == n) || (step.Forget? && step.x == x && step.name == n && step.s == s)
  }

  /** In every run an entry stays until it is removed by name or its own subscription finishes. No other
      subscription that finishes, under the same name or not, evicts it. */
  lemma {:induction false} ReplacementStays(ws: seq<World>, steps: seq<Step>, i: nat, j: nat, x: SessionId, n: Name, s: SubId)
    requires Run(ws, steps) && i <= j < |ws| && x in ws[i].sessions && n in ws[i].sessions[x].subs && ws[i].sessions[x].subs[n] == s
    requires forall k | i <= k < j :: !TakesEntry(steps[k], x, n, s)
    ensures x in ws[j].sessions && n in ws[j].sessions[x].subs && ws[j].sessions[x].subs[n] == s
  {
    if i < j {
      ReplacementStays(ws, steps, i, j - 1, x, n, s);
      assert StepAt(ws, steps, j - 1) && !TakesEntry(steps[j - 1], x, n, s);
    }
  }

  // ----- whom the fence refuses

  predicate Raises(steps: seq<Step>, i: nat)
    requires i < |steps|
  {
    steps[i].Reconnect?
  }

  predicate Quiet(steps: seq<Step>, i: nat, j: nat)
    requires i <= j <= |steps|
  {
    forall k | i <= k < j :: !Raises(steps, k)
  }

  /** The generation has not moved exactly when no ReconnectAll raised it. */
  lemma {:induction false} GenerationTells(ws: seq<World>, steps: seq<Step>, i: nat, j: nat)
    requires Run(ws, steps) && i <= j < |ws|
    ensures ws[i].generation <= ws[j].generation
    ensures ws[i].generation == ws[j].generation <==> Quiet(steps, i, j)
  {
    if i < j {
      GenerationTells(ws, steps, i, j - 1);
      assert StepAt(ws, steps, j - 1);
      if Quiet(steps, i, j) {
        assert Quiet(steps, i, j - 1);
        assert !Raises(steps, j - 1);
      } else if Quiet(steps, i, j - 1) {
        assert Raises(steps, j - 1);
      }
    }
  }

  lemma {:induction false} AdmittedUnder(ws: seq<World>, steps: seq<Step>, i: nat, j: nat, r: RequestId)
    requires Run(ws, steps) && i < j < |ws| && steps[i] == Admit(r)
    ensures r in ws[j].requests && ws[j].requests[r].generation == ws[i].generation
  {
    assert StepAt(ws, steps, j - 1);
    if i < j - 1 { AdmittedUnder(ws, steps, i, j - 1, r); }
  }

  /** Whatever was read before stays read: a request keeps the deployment that it resolved against. */
  lemma {:induction false} ResolvedAgainst(ws: seq<World>, steps: seq<Step>, i: nat, j: nat, r: RequestId)
    requires Run(ws, steps) && i < j < |ws| && steps[i] == Resolve(r)
    ensures r in ws[j].requests && ws[j].requests[r].pin == Some(ws[i].active)
  {
    assert StepAt(ws, steps, j - 1);
    if i < j - 1 { ResolvedAgainst(ws, steps, i, j - 1, r); }
  }

  lemma FencedExactly(ws: seq<World>, steps: seq<Step>, i: nat, j: nat, r: RequestId)
    requires Run(ws, steps) && i < j < |steps| && steps[i] == Admit(r)
    ensures r in ws[j].requests
    ensures ws[j].requests[r].generation == ws[j].generation <==> Quiet(steps, i, j)
  {
    AdmittedUnder(ws, steps, i, j, r);
    GenerationTells(ws, steps, i, j);
  }

  /** A subscription is registered exactly when no ReconnectAll has begun since its request was admitted. It is
      then live and pinned to the deployment that was active when the request resolved. */
  lemma SubscribedExactly(ws: seq<World>, steps: seq<Step>, i: nat, m: nat, j: nat, r: RequestId, s: SubId)
    requires Run(ws, steps) && i < m < j < |steps|
    requires steps[i] == Admit(r) && steps[m] == Resolve(r) && steps[j] == Subscribe(r, s)
    ensures Quiet(steps, i, j) ==>
      ws[j + 1].subs == ws[j].subs[s := Sub(ws[m].active, None, false)] && ws[j + 1].registered == ws[j].registered + {s}
      && Live(ws[j + 1], s)
    ensures s in ws[j + 1].registered <==> Quiet(steps, i, j)
    ensures !Quiet(steps, i, j) ==> ws[j + 1] == ws[j]
  {
    FencedExactly(ws, steps, i, j, r);
    ResolvedAgainst(ws, steps, m, j, r);
    assert StepAt(ws, steps, j);
    InvAlways(ws, steps, j);
  }

  /** The same for a new session, which starts open and empty. */
  lemma SessionOpenedExactly(ws: seq<World>, steps: seq<Step>, i: nat, j: nat, r: RequestId, x: SessionId)
    requires Run(ws, steps) && i < j < |steps| && steps[i] == Admit(r) && steps[j] == OpenSession(r, x)
    ensures Quiet(steps, i, j) ==>
      ws[j + 1].listed == ws[j].listed + {x} && ws[j + 1].sessions == ws[j].sessions[x := SessionState(false, false, map[])]
    ensures !Quiet(steps, i, j) ==> ws[j + 1] == ws[j]
  {
    FencedExactly(ws, steps, i, j, r);
    assert StepAt(ws, steps, j);
  }

  /** A subscription of a session is registered and entered exactly when the session is open and has room, the
      name is free and no ReconnectAll has begun. A ReconnectAll that has begun ends the session instead. */
  lemma SubscribedInSessionExactly(ws: seq<World>, steps: seq<Step>, i: nat, m: nat, j: nat, r: RequestId, s: SubId,
                                   x: SessionId, name: Name, room: bool)
    requires Run(ws, steps) && i < m < j < |steps|
    requires steps[i] == Admit(r) && steps[m] == Resolve(r) && steps[j] == SubscribeIn(r, s, x, name, room)
    ensures x in ws[j].sessions
    ensures var open := !ws[j].sessions[x].closed && name !in ws[j].sessions[x].subs && room;
      && (s in ws[j + 1].registered <==> open && Quiet(steps, i, j))
      && (open && Quiet(steps, i, j) ==>
            ws[j + 1].registered == ws[j].registered + {s}
            && ws[j + 1].subs == ws[j].subs[s := Sub(ws[m].active, Some(x), false)]
            && ws[j + 1].sessions == ws[j].sessions[x := ws[j].sessions[x].(subs := ws[j].sessions[x].subs[name := s])])
      && (open && !Quiet(steps, i, j) ==>
            ws[j + 1].subs == ws[j].subs && ws[j + 1].sessions == ws[j].sessions[x := ws[j].sessions[x].(cancelled := true)])
      && (!open ==> ws[j + 1] == ws[j])
  {
    FencedExactly(ws, steps, i, j, r);
    ResolvedAgainst(ws, steps, m, j, r);
    assert StepAt(ws, steps, j);
    InvAlways(ws, steps, j);
    assert ws[j].sessions[x := ws[j].sessions[x]] == ws[j].sessions;
  }

  // ----- what every ReconnectAll and every client can still do

  /** Steps taken one after another. */
  datatype Path = Here | Then(step: Step, rest: Path)

  function Along(w: World, path: Path): Option<World>
    decreases path
  {
    match path
    case Here => Some(w)
    case Then(step, rest) => if Enabled(w, step) then Along(Do(w, step), rest) else None
  }

  lemma FirstStep(w: World, step: Step, rest: Path)
    requires Enabled(w, step)
    ensures Along(w, Then(step, rest)) == Along(Do(w, step), rest)
  {
  }

  predicate OnlyReconnects(path: Path) {
    path.Then? ==>
      (path.step.Reconnect? || path.step.CancelSub? || path.step.CancelSession? || path.step.Finish?) && OnlyReconnects(path.rest)
  }

  /** No activation is in progress any more. */
  predicate Settled(w: World, v: World) {
    var ok := v.activations == map[] && v.active == w.active && v.registered == w.registered && Inv(v);
    ok
  }

  predicate Settling(w: World, path: Path) {
    var v := Along(w, path);
    OnlyReconnects(path) && v.Some? && Settled(w, v.value)
  }

  lemma OneMoreStep(w: World, step: Step, rest: Path)
    requires Enabled(w, step) && Settling(Do(w, step), rest)
    requires step.Reconnect? || step.CancelSub? || step.CancelSession? || step.Finish?
    ensures Settling(w, Then(step, rest))
  {
    FirstStep(w, step, rest);
  }

  lemma OneFewer(m: map<CallId, Activation>, c: CallId)
    requires c in m
    ensures |m - {c}| < |m|
  {
    assert (m - {c}).Keys == m.Keys - {c};
    assert |m.Keys - {c}| < |m.Keys|;
  }

  lemma SameCalls(m: map<CallId, Activation>, c: CallId, a: Activation)
    requires c in m
    ensures |m[c := a]| == |m|
  {
    assert m[c := a].Keys == m.Keys;
  }

  /** A ReconnectAll that has raised the fence cancels what it listed, and then the next one has its turn. */
  lemma Cancels(w: World, c: CallId) returns (path: Path)
    requires Inv(w) && c in w.activations && w.activations[c].Cancelling?
    ensures Settling(w, path)
    decreases |w.activations|, 0, |w.activations[c].subs| + |w.activations[c].sessions|
  {
    var a := w.activations[c];
    if a.subs != {} {
      var s :| s in a.subs;
      StepKeeps(w, CancelSub(c, s));
      SameCalls(w.activations, c, a.(subs := a.subs - {s}));
      path := Cancels(Do(w, CancelSub(c, s)), c);
      OneMoreStep(w, CancelSub(c, s), path);
      path := Then(CancelSub(c, s), path);
    } else if a.sessions != {} {
      var x :| x in a.sessions;
      StepKeeps(w, CancelSession(c, x));
      SameCalls(w.activations, c, a.(sessions := a.sessions - {x}));
      path := Cancels(Do(w, CancelSession(c, x)), c);
      OneMoreStep(w, CancelSession(c, x), path);
      path := Then(CancelSession(c, x), path);
    } else {
      StepKeeps(w, Finish(c));
      OneFewer(w.activations, c);
      path := AllFinish(Do(w, Finish(c)));
      OneMoreStep(w, Finish(c), path);
      path := Then(Finish(c), path);
    }
  }

  lemma AllFinish(w: World) returns (path: Path)
    requires Inv(w)
    ensures Settling(w, path)
    decreases |w.activations|, 1, 0
  {
    if w.activations == map[] { return Here; }
    var c :| c in w.activations;
    if w.activations[c].Cancelling? {
      path := Cancels(w, c);
    } else {
      StepKeeps(w, Reconnect(c));
      SameCalls(w.activations, c, Cancelling(w.registered, w.listed));
      path := Cancels(Do(w, Reconnect(c)), c);
      OneMoreStep(w, Reconnect(c), path);
      path := Then(Reconnect(c), path);
    }
  }

  lemma SettlesFrom(w: World) returns (path: Path, v: World)
    requires Inv(w)
    ensures OnlyReconnects(path) && Along(w, path) == Some(v)
    ensures v.activations == map[] && v.active == w.active && v.registered == w.registered
    ensures forall s | s in v.registered :: s in v.subs && (Live(v, s) ==> v.subs[s].pin == v.active)
  {
    path := AllFinish(w);
    v := Along(w, path).value;
    forall s | s in v.registered ensures s in v.subs && (Live(v, s) ==> v.subs[s].pin == v.active) {
      assert SubOK(v, s);
    }
  }

  /** In every reachable state the activations in progress can finish on their own, and then every live
      registered subscription is on the active deployment. */
  lemma ActivationsSettle(ws: seq<World>, steps: seq<Step>, i: nat) returns (path: Path, v: World)
    requires Run(ws, steps) && i < |ws|
    ensures OnlyReconnects(path) && Along(ws[i], path) == Some(v)
    ensures v.activations == map[] && v.active == ws[i].active && v.registered == ws[i].registered
    ensures forall s | s in v.registered :: s in v.subs && (Live(v, s) ==> v.subs[s].pin == v.active)
  {
    InvAlways(ws, steps, i);
    path, v := SettlesFrom(ws[i]);
  }

  /** So a new activation can always be committed and carried through: every live registered subscription is then
      on the deployment that it activated. */
  lemma ActivationsCarryThrough(ws: seq<World>, steps: seq<Step>, i: nat, c: CallId, d: DeploymentId)
    returns (path: Path, v: World)
    requires Run(ws, steps) && i < |ws| && c !in ws[i].activations
    ensures OnlyReconnects(path) && Along(ws[i], Then(Commit(c, d), path)) == Some(v)
    ensures v.activations == map[] && v.active == d && v.registered == ws[i].registered
    ensures forall s | s in v.registered :: s in v.subs && (Live(v, s) ==> v.subs[s].pin == d)
  {
    InvAlways(ws, steps, i);
    StepKeeps(ws[i], Commit(c, d));
    path, v := SettlesFrom(Do(ws[i], Commit(c, d)));
    FirstStep(ws[i], Commit(c, d), path);
  }

  lemma {:induction false} ListedAreKept(ws: seq<World>, steps: seq<Step>, i: nat, x: SessionId)
    requires Run(ws, steps) && i < |ws| && x in ws[i].listed
    ensures x in ws[i].sessions
  {
    if i > 0 {
      assert StepAt(ws, steps, i - 1);
      if x in ws[i - 1].listed { ListedAreKept(ws, steps, i - 1, x); }
    }
  }

  predicate SubReached(w: World, c: CallId, s: SubId) {
    s in w.subs && (w.subs[s].cancelled || (c in w.activations && w.activations[c].Cancelling? && s in w.activations[c].subs))
  }

  predicate SessionReached(w: World, c: CallId, x: SessionId) {
    x in w.sessions
    && (w.sessions[x].cancelled || (c in w.activations && w.activations[c].Cancelling? && x in w.activations[c].sessions))
  }

  lemma {:induction false} StillReached(ws: seq<World>, steps: seq<Step>, i: nat, j: nat, c: CallId)
    requires Run(ws, steps) && i < j < |ws| && steps[i] == Reconnect(c)
    requires forall k | i < k < j :: steps[k] != Finish(c)
    ensures c in ws[j].activations && ws[j].activations[c].Cancelling?
    ensures forall s | s in ws[i].registered :: SubReached(ws[j], c, s)
    ensures forall x | x in ws[i].listed :: SessionReached(ws[j], c, x)
  {
    assert StepAt(ws, steps, j - 1);
    if i < j - 1 {
      StillReached(ws, steps, i, j - 1, c);
      forall s | s in ws[i].registered ensures SubReached(ws[j], c, s) { assert SubReached(ws[j - 1], c, s); }
      forall x | x in ws[i].listed ensures SessionReached(ws[j], c, x) { assert SessionReached(ws[j - 1], c, x); }
    } else {
      InvAlways(ws, steps, i);
      forall x | x in ws[i].listed ensures SessionReached(ws[j], c, x) { ListedAreKept(ws, steps, i, x); }
    }
  }

  /** When ReconnectAll returns, every subscription and every session that was registered when it raised the fence
      is cancelled, so each client has to reconnect. */
  lemma ReconnectAllReachesAll(ws: seq<World>, steps: seq<Step>, i: nat, j: nat, c: CallId)
    requires Run(ws, steps) && i < j < |steps| && steps[i] == Reconnect(c) && steps[j] == Finish(c)
    requires forall k | i < k < j :: steps[k] != Finish(c)
    ensures forall s | s in ws[i].registered :: s in ws[j].subs && ws[j].subs[s].cancelled
    ensures forall x | x in ws[i].listed :: x in ws[j].sessions && ws[j].sessions[x].cancelled
  {
    StillReached(ws, steps, i, j, c);
    assert StepAt(ws, steps, j);
    forall s | s in ws[i].registered ensures s in ws[j].subs && ws[j].subs[s].cancelled { assert SubReached(ws[j], c, s); }
    forall x | x in ws[i].listed ensures x in ws[j].sessions && ws[j].sessions[x].cancelled { assert SessionReached(ws[j], c, x); }
  }

  /** A client that cancels its subscription ends it, and it can be unregistered once it has ended and not before. */
  lemma CancelledLeaves(w: World, s: SubId)
    requires s in w.subs
    ensures var v := Along(w, Then(ClientCancel(s), Then(Unregister(s), Here)));
      v.Some? && s !in v.value.registered && v.value.subs == w.subs[s := w.subs[s].(cancelled := true)]
    ensures Live(w, s) ==> Along(w, Then(Unregister(s), Here)) == None
  {
    var v := Do(w, ClientCancel(s));
    FirstStep(w, ClientCancel(s), Then(Unregister(s), Here));
    FirstStep(v, Unregister(s), Here);
  }

  /** A session that is closed is unlisted first, and leaves no live subscription behind. */
  lemma ClosedSessionsEnd(w: World, x: SessionId)
    requires x in w.sessions
    ensures var v := Along(w, Then(Unlist(x), Then(Close(x), Here)));
      && v.Some? && v.value.listed == w.listed - {x} && v.value.subs == w.subs
      && v.value.sessions == w.sessions[x := SessionState(true, true, w.sessions[x].subs)]
      && forall s | s in w.subs && w.subs[s].session == Some(x) :: !Live(v.value, s)
    ensures x in w.listed ==> Along(w, Then(Close(x), Here)) == None
  {
    var v := Do(w, Unlist(x));
    FirstStep(w, Unlist(x), Then(Close(x), Here));
    FirstStep(v, Close(x), Here);
  }

  /** Only subscriptions that were registered are entered in sessions. */
  lemma {:induction false} EntriesAreKnown(ws: seq<World>, steps: seq<Step>, i: nat, x: SessionId, name: Name)
    requires Run(ws, steps) && i < |ws| && x in ws[i].sessions && name in ws[i].sessions[x].subs
    ensures ws[i].sessions[x].subs[name] in ws[i].subs
  {
    if i > 0 {
      assert StepAt(ws, steps, i - 1);
      if x in ws[i - 1].sessions && name in ws[i - 1].sessions[x].subs { EntriesAreKnown(ws, steps, i - 1, x, name); }
    }
  }

  /** Removing a name from a session ends its subscription and frees the name. */
  lemma RemovedEnds(ws: seq<World>, steps: seq<Step>, i: nat, x: SessionId, name: Name)
    requires Run(ws, steps) && i < |ws| && x in ws[i].sessions && name in ws[i].sessions[x].subs
    ensures var v := Along(ws[i], Then(Remove(x, name), Here));
      && v.Some? && v.value.sessions == ws[i].sessions[x := ws[i].sessions[x].(subs := ws[i].sessions[x].subs - {name})]
      && ws[i].sessions[x].subs[name] in v.value.subs && !Live(v.value, ws[i].sessions[x].subs[name])
  {
    EntriesAreKnown(ws, steps, i, x, name);
    FirstStep(ws[i], Remove(x, name), Here);
  }
}
