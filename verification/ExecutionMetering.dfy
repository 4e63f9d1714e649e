/** The execution observer and the policy service together, over a transport that may lose, delay and
    repeat requests and lose replies. */
module ExecutionMetering {
  import opened ByteStrings
  import opened HostingService

  const ADMIT_ATTEMPTS: nat := 2
  const STARTED_ATTEMPTS: nat := 2
  const COMPLETE_ATTEMPTS: nat := 3

  // ----- one exchange with retries

  /** How a call ends. A busy client has sent nothing; a failed call may or may not have reached the service. */
  datatype CallOutcome = Busy | Failed | Answered(decision: Decision)

  datatype Progress = Calling(attempt: nat, uncertain: bool) | Granted(decision: Decision) | DeniedBy(code: Name)
                    | CleanlyBusy | Uncertain

  predicate ValidDecision(d: Decision) {
    Token(d.version) && Token(d.code) && (d.allowed ==> Token(d.reservation))
  }

  function AfterAdmitCall(attempt: nat, uncertain: bool, outcome: CallOutcome): Progress {
    if outcome.Answered? && ValidDecision(outcome.decision) then
      (if outcome.decision.allowed then Granted(outcome.decision) else DeniedBy(outcome.decision.code))
    else if outcome.Busy? then (if uncertain then Uncertain else CleanlyBusy)
    else if attempt < ADMIT_ATTEMPTS then Calling(attempt + 1, true)
    else Uncertain
  }

  predicate Decisive(o: CallOutcome) { o.Answered? && ValidDecision(o.decision) }

  /** What a valid decision comes to. */
  function Verdict(d: Decision): Progress { if d.allowed then Granted(d) else DeniedBy(d.code) }

  datatype Delivery = Reporting(attempt: nat) | Delivered | Lost

  function AfterReportCall(attempt: nat, attempts: nat, acknowledged: bool): Delivery {
    if acknowledged then Delivered else if attempt < attempts then Reporting(attempt + 1) else Lost
  }

  /** The admission exchange, given how its calls would end. */
  function AdmitResult(outcomes: seq<CallOutcome>): Progress
    requires |outcomes| == ADMIT_ATTEMPTS
  {
    match AfterAdmitCall(1, false, outcomes[0])
    case Calling(attempt, uncertain) => AfterAdmitCall(attempt, uncertain, outcomes[1])
    case p => p
  }

  /** A busy first call ends it cleanly; otherwise the first valid decision of two calls stands, and without one the
      outcome is uncertain. */
  lemma SecondCallDecides(outcomes: seq<CallOutcome>)
    requires |outcomes| == ADMIT_ATTEMPTS
    ensures AdmitResult(outcomes) ==
      if Decisive(outcomes[0]) then Verdict(outcomes[0].decision)
      else if outcomes[0].Busy? then CleanlyBusy
      else if Decisive(outcomes[1]) then Verdict(outcomes[1].decision)
      else Uncertain
  {
  }

  /** An event's attempts from one on, given which of them would be acknowledged. */
  function ReportResult(acknowledged: seq<bool>, attempt: nat): Delivery
    requires 1 <= attempt <= |acknowledged|
    decreases |acknowledged| - attempt
  {
    match AfterReportCall(attempt, |acknowledged|, acknowledged[attempt - 1])
    case Reporting(next) => ReportResult(acknowledged, next)
    case d => d
  }

  lemma {:induction false} ReportedIfAnyIs(acknowledged: seq<bool>, attempt: nat)
    requires 1 <= attempt <= |acknowledged|
    ensures ReportResult(acknowledged, attempt) == if true in acknowledged[attempt - 1..] then Delivered else Lost
    decreases |acknowledged| - attempt
  {
    var rest := acknowledged[attempt - 1..];
    assert rest == [acknowledged[attempt - 1]] + acknowledged[attempt..];
    if !acknowledged[attempt - 1] && attempt < |acknowledged| { ReportedIfAnyIs(acknowledged, attempt + 1); }
  }

  /** The observer's own fields. The tracked table maps execution ids to their operations. */
  class Observer {
    var unhealthy: bool
    var inFlight: map<Name, Operation>
    const maxTracked: nat

    constructor (maxTracked: nat)
      ensures !unhealthy && inFlight == map[] && this.maxTracked == maxTracked
    {
      unhealthy, inFlight, this.maxTracked := false, map[], maxTracked;
    }

    method Track(id: Name, op: Operation) returns (ok: bool)
      modifies this`inFlight
      ensures ok <==> |old(inFlight)| < maxTracked
      ensures inFlight == if ok then old(inFlight)[id := op] else old(inFlight)
    {
      if |inFlight| >= maxTracked { return false; }
      inFlight := inFlight[id := op];
      ok := true;
    }

    method Untrack(id: Name) returns (found: Option<Operation>)
      modifies this`inFlight
      ensures inFlight == old(inFlight) - {id}
      ensures found == if id in old(inFlight) then Some(old(inFlight)[id]) else None
    {
      found := if id in inFlight then Some(inFlight[id]) else None;
      inFlight := inFlight - {id};
    }

    /** The admission exchange, given how its calls would end. It is clean only when nothing was sent or the
        service decided; every other end latches. */
    method Admit(outcomes: seq<CallOutcome>) returns (r: Progress)
      requires |outcomes| == ADMIT_ATTEMPTS
      modifies this`unhealthy
      ensures r.Granted? ==> exists i | 0 <= i < |outcomes| :: outcomes[i] == Answered(r.decision)
      ensures r.CleanlyBusy? <==> outcomes[0].Busy?
      ensures r.Granted? || r.DeniedBy? || r.CleanlyBusy? || r.Uncertain?
      ensures unhealthy == (old(unhealthy) || r.Uncertain?)
      ensures r == AdmitResult(outcomes)
    {
      r := Calling(1, false);
      var i := 0;
      while i < ADMIT_ATTEMPTS && r.Calling?
        invariant 0 <= i <= ADMIT_ATTEMPTS && unhealthy == old(unhealthy)
        invariant i == 0 ==> r == Calling(1, false)
        invariant i == 1 ==> r == AfterAdmitCall(1, false, outcomes[0])
        invariant i == 2 ==> AfterAdmitCall(1, false, outcomes[0]) == Calling(2, true)
        invariant i == 2 ==> r == AfterAdmitCall(2, true, outcomes[1])
        decreases ADMIT_ATTEMPTS - i
      {
        r := AfterAdmitCall(r.attempt, r.uncertain, outcomes[i]);
        i := i + 1;
      }
      if r.Uncertain? { unhealthy := true; }
    }

    /** One event, attempted a bounded number of times with the same content. It is lost exactly when no
        attempt was acknowledged, and then the observer latches. */
    method Report(acknowledged: seq<bool>, attempts: nat) returns (ok: bool)
      requires |acknowledged| == attempts > 0
      modifies this`unhealthy
      ensures ok <==> true in acknowledged
      ensures ok <==> ReportResult(acknowledged, 1).Delivered?
      ensures unhealthy == (old(unhealthy) || !ok)
    {
      ReportedIfAnyIs(acknowledged, 1);
      assert acknowledged[0..] == acknowledged;
      var attempt: nat := 1;
      while attempt <= attempts
        invariant 1 <= attempt <= attempts + 1 && unhealthy == old(unhealthy)
        invariant forall i | 0 <= i < attempt - 1 :: !acknowledged[i]
      {
        if acknowledged[attempt - 1] { return true; }
        attempt := attempt + 1;
      }
      unhealthy := true;
      ok := false;
    }

    /** Begin: refused when unhealthy or full, admitted, and its start reported. It succeeds exactly when the
        service granted it and acknowledged the start; only then it stays tracked. */
    method Begin(id: Name, op: Operation, outcomes: seq<CallOutcome>, acknowledged: seq<bool>) returns (granted: Option<Decision>)
      requires |outcomes| == ADMIT_ATTEMPTS && |acknowledged| == STARTED_ATTEMPTS
      modifies this`unhealthy, this`inFlight
      ensures granted.Some? <==> !old(unhealthy) && |old(inFlight)| < maxTracked && AdmitResult(outcomes).Granted? && true in acknowledged
      ensures granted.Some? ==> granted.value == AdmitResult(outcomes).decision && inFlight == old(inFlight)[id := op]
      ensures granted.None? ==>
        inFlight == if old(unhealthy) || |old(inFlight)| >= maxTracked then old(inFlight) else old(inFlight) - {id}
      ensures unhealthy == (old(unhealthy) || (|old(inFlight)| < maxTracked &&
                (AdmitResult(outcomes).Uncertain? || (AdmitResult(outcomes).Granted? && true !in acknowledged))))
    {
      if unhealthy { return None; }
      var room := Track(id, op);
      if !room { return None; }
      var r := Admit(outcomes);
      if !r.Granted? {
        var _ := Untrack(id);
        assert old(inFlight)[id := op] - {id} == old(inFlight) - {id};
        return None;
      }
      var started := Report(acknowledged, STARTED_ATTEMPTS);
      if !started {
        var _ := Untrack(id);
        assert old(inFlight)[id := op] - {id} == old(inFlight) - {id};
        return None;
      }
      granted := Some(r.decision);
    }

    /** End: an execution that is not tracked, or whose completion is lost, latches. */
    method End(id: Name, acknowledged: seq<bool>)
      requires |acknowledged| == COMPLETE_ATTEMPTS
      modifies this`unhealthy, this`inFlight
      ensures inFlight == old(inFlight) - {id}
      ensures unhealthy == (old(unhealthy) || id !in old(inFlight) || true !in acknowledged)
    {
      var found := Untrack(id);
      if found.None? {
        unhealthy := true;
        return;
      }
      var _ := Report(acknowledged, COMPLETE_ATTEMPTS);
    }
  }

  // ----- both ends and the network

  datatype Stage =
    | Entered
    | Admitting(attempt: nat, uncertain: bool, waiting: bool)
    | Starting(attempt: nat, waiting: bool)
    | Running
    | Ending(attempt: nat, waiting: bool)
    | Settled
    | Refused      // turned away, nothing sent
    | Denied       // turned away by the service
    | Abandoned    // an exchange stayed uncertain
  {
    /** Begin is past tracking, or the handler runs. */
    predicate Tracked() { Admitting? || Starting? || Running? }
  }

  datatype Execution = Execution(op: Operation, stage: Stage, request: Option<AdmissionRequest>, decision: Option<Decision>,
                                 started: Option<Event>, completed: Option<Event>)

  datatype World = World(ledger: Ledger, unhealthy: bool, sequence: nat, maxTracked: nat, tracked: set<Name>,
                         execs: map<Name, Execution>, sent: set<Message>, replies: set<(Message, Reply)>)

  datatype Step =
    | SetPolicy(version: Name, policy: map<Name, bool>)
    | Enter(op: Operation)
    | Track(x: Name, requestId: Name, capability: Name)
    | TrackFull(x: Name)
    | CallAdmit(x: Name, reaches: bool)
    | EndAdmitCall(x: Name, outcome: CallOutcome, eventId: Name, at: nat)
    | CallReport(x: Name, reaches: bool)
    | EndReportCall(x: Name, acknowledged: bool)
    | End(x: Name, result: Outcome, micros: nat, eventId: Name, at: nat)
    | StrayEnd
    | Deliver(m: Message, drawn: Name)

  function EventOf(e: Execution, eventId: Name, sequence: nat, phase: Phase, outcome: Outcome, at: nat, micros: nat): Event
    requires e.decision.Some?
  {
    Event(eventId, sequence, e.op, e.decision.value.reservation, e.decision.value.version, phase, outcome, at, micros)
  }

  /** The event an execution is reporting. */
  function Current(e: Execution): Option<Event> {
    if e.stage.Starting? then e.started else if e.stage.Ending? then e.completed else None
  }

  function ReportStage(e: Execution, attempt: nat, waiting: bool): Stage {
    if e.stage.Starting? then Starting(attempt, waiting) else Ending(attempt, waiting)
  }

  /** Steps of one execution past its entry; the others belong to the surroundings. */
  predicate IsClientStep(step: Step) {
    step.Track? || step.TrackFull? || step.CallAdmit? || step.EndAdmitCall? || step.CallReport? || step.EndReportCall? || step.End?
  }

  predicate Enabled(w: World, step: Step) {
    var ok :=
      if IsClientStep(step) then step.x in w.execs && ClientEnabled(w, w.execs[step.x], step)
      else match step
        case Enter(op) => !w.unhealthy && op.id !in w.execs
        case Deliver(m, drawn) => m in w.sent && Token(drawn) && drawn !in w.ledger.states
        case _ => true;
    ok
  }

  predicate ClientEnabled(w: World, e: Execution, step: Step) {
    match step
    case Track(_, _, _) => e.stage.Entered? && |w.tracked| < w.maxTracked
    case TrackFull(_) => e.stage.Entered? && |w.tracked| >= w.maxTracked
    case CallAdmit(_, _) => e.stage.Admitting? && !e.stage.waiting && e.request.Some?
    case EndAdmitCall(_, outcome, _, _) =>
      && e.stage.Admitting? && e.request.Some? && (e.stage.waiting <==> !outcome.Busy?)
      && (outcome.Answered? ==> (AdmitCall(e.request.value), Decided(outcome.decision)) in w.replies)
    case CallReport(_, _) => Current(e).Some? && !e.stage.waiting
    case EndReportCall(_, acknowledged) =>
      && Current(e).Some?
      && (acknowledged ==>
            e.stage.waiting && (EventCall(Current(e).value), Acked(Current(e).value.eventId)) in w.replies)
    case End(_, _, _, _, _) => e.stage.Running? && e.decision.Some?
    case _ => false
  }

  /** What a client step does to one execution: its new record, a message that may be sent, a latch, and
      whether an event number is drawn. */
  datatype Move = Move(e: Execution, message: Option<Message>, latch: bool, numbered: bool)

  function Quietly(e: Execution): Move { Move(e, None, false, false) }

  function Apply(w: World, x: Name, move: Move): World {
    w.(execs := w.execs[x := move.e],
       tracked := if move.e.stage.Tracked() then w.tracked + {x} else w.tracked - {x},
       sent := if move.message.Some? then w.sent + {move.message.value} else w.sent,
       unhealthy := w.unhealthy || move.latch,
       sequence := if move.numbered then w.sequence + 1 else w.sequence)
  }

  function AdmitMove(e: Execution, progress: Progress, eventId: Name, number: nat, at: nat): Move {
    match progress
    case Calling(attempt, uncertain) => Quietly(e.(stage := Admitting(attempt, uncertain, false)))
    case DeniedBy(_) => Quietly(e.(stage := Denied))
    case CleanlyBusy => Quietly(e.(stage := Refused))
    case Uncertain => Move(e.(stage := Abandoned), None, true, false)
    case Granted(d) =>
      var granted := e.(decision := Some(d));
      Move(granted.(stage := Starting(1, false), started := Some(EventOf(granted, eventId, number, Started, NoOutcome, at, 0))),
           None, false, true)
  }

  function ReportMove(e: Execution, delivery: Delivery): Move {
    match delivery
    case Reporting(attempt) => Quietly(e.(stage := ReportStage(e, attempt, false)))
    case Delivered => Quietly(e.(stage := if e.stage.Starting? then Running else Settled))
    case Lost => Move(e.(stage := Abandoned), None, true, false)
  }

  /** The client step of an execution. */
  function MoveOf(e: Execution, step: Step, number: nat): Move
    requires IsClientStep(step)
    requires (step.CallAdmit? || step.EndAdmitCall?) ==> e.stage.Admitting? && e.request.Some?
    requires (step.CallReport? || step.EndReportCall?) ==> Current(e).Some?
    requires step.End? ==> e.decision.Some?
  {
    match step
    case Track(_, requestId, capability) =>
      Quietly(e.(request := Some(AdmissionRequest(requestId, capability, e.op)), stage := Admitting(1, false, false)))
    case TrackFull(_) => Quietly(e.(stage := Refused))
    case CallAdmit(_, reaches) =>
      Move(e.(stage := Admitting(e.stage.attempt, e.stage.uncertain, true)),
           if reaches then Some(AdmitCall(e.request.value)) else None, false, false)
    case EndAdmitCall(_, outcome, eventId, at) =>
      AdmitMove(e, AfterAdmitCall(e.stage.attempt, e.stage.uncertain, outcome), eventId, number, at)
    case CallReport(_, reaches) =>
      Move(e.(stage := ReportStage(e, e.stage.attempt, true)),
           if reaches then Some(EventCall(Current(e).value)) else None, false, false)
    case EndReportCall(_, acknowledged) =>
      ReportMove(e, AfterReportCall(e.stage.attempt, if e.stage.Starting? then STARTED_ATTEMPTS else COMPLETE_ATTEMPTS, acknowledged))
    case End(_, result, micros, eventId, at) =>
      Move(e.(stage := Ending(1, false), completed := Some(EventOf(e, eventId, number, Completed, result, at, micros))),
           None, false, true)
  }

  function Do(w: World, step: Step): World
    requires Enabled(w, step)
  {
    if IsClientStep(step) then Apply(w, step.x, MoveOf(w.execs[step.x], step, w.sequence + 1))
    else match step
      case SetPolicy(version, policy) =>
        w.(ledger := w.ledger.(policy := policy, version := version))
      case Enter(op) => w.(execs := w.execs[op.id := Execution(op, Entered, None, None, None, None)])
      case Deliver(m, drawn) =>
        var (ledger, reply) := Serve(w.ledger, m, drawn);
        w.(ledger := ledger, replies := w.replies + {(m, reply)})
      case StrayEnd => w.(unhealthy := true)
  }

  // ----- the exchanges are the steps

  /** The two steps of one attempt, taken alone. */
  function AttemptMove(e: Execution, x: Name, outcome: CallOutcome, eventId: Name, number: nat, at: nat): Move
    requires e.stage.Admitting? && e.request.Some?
  {
    MoveOf(e, EndAdmitCall(x, outcome, eventId, at), number)
  }

  /** An execution taken through its admission steps ends where the exchange ends, and latches when it does. */
  lemma AdmissionStepsAreTheExchange(e: Execution, x: Name, outcomes: seq<CallOutcome>, eventId: Name, number: nat, at: nat)
    requires e.stage == Admitting(1, false, false) && e.request.Some? && |outcomes| == ADMIT_ATTEMPTS
    ensures var first := AttemptMove(e, x, outcomes[0], eventId, number, at);
      var last := if first.e.stage.Admitting? then AttemptMove(first.e, x, outcomes[1], eventId, number, at) else first;
      var r := AdmitResult(outcomes);
      && (last.latch <==> r.Uncertain?) && !(first.e.stage.Admitting? && first.latch)
      && (r.Granted? <==> last.e.stage.Starting?) && (r.Granted? ==> last.e.decision == Some(r.decision))
      && (r.DeniedBy? <==> last.e.stage.Denied?) && (r.CleanlyBusy? <==> last.e.stage.Refused?)
      && (r.Uncertain? <==> last.e.stage.Abandoned?)
  {
  }

  /** The execution after its reports from one attempt on. */
  function AfterReports(e: Execution, x: Name, acknowledged: seq<bool>, attempt: nat): Move
    requires Current(e).Some? && e.stage.attempt == attempt && 1 <= attempt <= |acknowledged|
    requires |acknowledged| == if e.stage.Starting? then STARTED_ATTEMPTS else COMPLETE_ATTEMPTS
    decreases |acknowledged| - attempt
  {
    var move := MoveOf(e, EndReportCall(x, acknowledged[attempt - 1]), 0);
    if !acknowledged[attempt - 1] && attempt < |acknowledged| then AfterReports(move.e, x, acknowledged, attempt + 1) else move
  }

  /** So do its report steps: it runs or is settled exactly when the report is delivered, and latches otherwise. */
  lemma {:induction false} ReportStepsAreTheExchange(e: Execution, x: Name, acknowledged: seq<bool>, attempt: nat)
    requires Current(e).Some? && e.stage.attempt == attempt && 1 <= attempt <= |acknowledged|
    requires |acknowledged| == if e.stage.Starting? then STARTED_ATTEMPTS else COMPLETE_ATTEMPTS
    ensures var move := AfterReports(e, x, acknowledged, attempt);
      var delivered := ReportResult(acknowledged, attempt).Delivered?;
      && (move.latch <==> !delivered)
      && move.e.stage == if !delivered then Abandoned else if e.stage.Starting? then Running else Settled
    decreases |acknowledged| - attempt
  {
    if !acknowledged[attempt - 1] && attempt < |acknowledged| {
      ReportStepsAreTheExchange(MoveOf(e, EndReportCall(x, acknowledged[attempt - 1]), 0).e, x, acknowledged, attempt + 1);
    }
  }

  // ----- the joint invariant

  function Owner(m: Message): Name {
    match m
    case AdmitCall(r) => r.operation.id
    case EventCall(e) => e.operation.id
  }

  /** Every message is a request or event of the execution it names. */
  predicate Owned(execs: map<Name, Execution>, m: Message) {
    Owner(m) in execs && OwnedBy(execs[Owner(m)], m)
  }

  predicate OwnedBy(e: Execution, m: Message) {
    match m
    case AdmitCall(r) => e.request == Some(r)
    case EventCall(v) => e.started == Some(v) || e.completed == Some(v)
  }

  predicate Recorded(ledger: Ledger, v: Option<Event>) {
    v.Some? && v.value.eventId in ledger.events && ledger.events[v.value.eventId] == v.value
  }

  /** A reply tells the truth about the ledger. */
  predicate Truthful(ledger: Ledger, m: Message, reply: Reply) {
    match m
    case AdmitCall(r) => reply.Decided? ==> r.requestId in ledger.admissions && ledger.admissions[r.requestId] == Admission(r, reply.decision)
    case EventCall(v) => reply.Acked? ==> Recorded(ledger, Some(v))
  }

  /** The service's record of this execution's admission. */
  predicate AdmissionRecorded(ledger: Ledger, e: Execution, d: Decision) {
    && e.request.Some? && e.request.value.requestId in ledger.admissions
    && ledger.admissions[e.request.value.requestId] == Admission(e.request.value, d)
  }

  predicate DenialRecorded(ledger: Ledger, e: Execution) {
    && e.request.Some? && e.request.value.requestId in ledger.admissions
    && ledger.admissions[e.request.value.requestId].request == e.request.value
    && !ledger.admissions[e.request.value.requestId].decision.allowed
  }

  predicate ExecutionOK(ledger: Ledger, sent: set<Message>, unhealthy: bool, x: Name, e: Execution) {
    var ok :=
      && e.op.id == x
      && (e.request.Some? ==> e.request.value.operation == e.op)
      && (e.decision.Some? ==> e.decision.value.allowed && AdmissionRecorded(ledger, e, e.decision.value))
      && (e.started.Some? || e.completed.Some? ==> e.decision.Some?)
      && (e.started.Some? ==> e.started.value.phase.Started? && EventMatches(e, e.started.value))
      && (e.completed.Some? ==> e.completed.value.phase.Completed? && EventMatches(e, e.completed.value))
      && (match e.stage
          case Entered => e.request.None? && e.decision.None?
          case Admitting(attempt, uncertain, waiting) =>
            e.request.Some? && e.decision.None? && (uncertain || waiting || AdmitCall(e.request.value) !in sent)
          case Starting(_, _) => e.decision.Some? && e.started.Some? && e.completed.None?
          case Running => e.decision.Some? && Recorded(ledger, e.started) && e.completed.None?
          case Ending(_, _) => e.decision.Some? && Recorded(ledger, e.started) && e.completed.Some?
          case Settled => e.decision.Some? && Recorded(ledger, e.started) && Recorded(ledger, e.completed)
          case Refused => e.decision.None? && (e.request.Some? ==> AdmitCall(e.request.value) !in sent)
          case Denied => e.decision.None? && DenialRecorded(ledger, e)
          case Abandoned => unhealthy);
    ok
  }

  predicate EventMatches(e: Execution, v: Event)
    requires e.decision.Some?
  {
    v.operation == e.op && v.reservation == e.decision.value.reservation
  }

  ghost predicate Inv(w: World) {
    var ok :=
      && (forall m | m in w.sent :: Owned(w.execs, m))
      && (forall k | k in w.ledger.admissions :: AdmitCall(w.ledger.admissions[k].request) in w.sent)
      && (forall i | i in w.ledger.events :: EventCall(w.ledger.events[i]) in w.sent)
      && (forall p | p in w.replies :: Truthful(w.ledger, p.0, p.1))
      && (forall x | x in w.execs :: ExecutionOK(w.ledger, w.sent, w.unhealthy, x, w.execs[x]))
      && TrackingOK(w);
    ok
  }

  predicate TrackingOK(w: World) {
    var ok :=
      && (forall x | x in w.tracked :: x in w.execs)
      && (forall x | x in w.execs :: x in w.tracked <==> w.execs[x].stage.Tracked())
      && |w.tracked| <= w.maxTracked;
    ok
  }

  // ----- every step keeps it

  /** The messages an execution has sent stay its own when its request and events stay. */
  predicate Advances(e: Execution, f: Execution) {
    && f.op == e.op && (e.request.Some? ==> f.request == e.request)
    && (e.started.Some? ==> f.started == e.started) && (e.completed.Some? ==> f.completed == e.completed)
  }

  /** A move that suits an execution in its surroundings. */
  predicate GoodMove(w: World, x: Name, move: Move) {
    var ok :=
      && x in w.execs && Advances(w.execs[x], move.e)
      && ExecutionOK(w.ledger, if move.message.Some? then w.sent + {move.message.value} else w.sent, w.unhealthy || move.latch, x, move.e)
      && (move.message.Some? ==> Owner(move.message.value) == x && OwnedBy(move.e, move.message.value))
      && (move.e.stage.Tracked() ==> x in w.tracked || |w.tracked| < w.maxTracked);
    ok
  }

  lemma ApplyKeepsTracking(w: World, x: Name, move: Move)
    requires TrackingOK(w) && GoodMove(w, x, move)
    ensures TrackingOK(Apply(w, x, move))
  {
    var v := Apply(w, x, move);
    if x in w.tracked {
      if move.e.stage.Tracked() { assert v.tracked == w.tracked; } else { assert |v.tracked| == |w.tracked| - 1; }
    } else if !move.e.stage.Tracked() {
      assert v.tracked == w.tracked;
    }
  }

  lemma ApplyKeepsMessages(w: World, x: Name, move: Move)
    requires (forall m | m in w.sent :: Owned(w.execs, m)) && GoodMove(w, x, move)
    ensures forall m | m in Apply(w, x, move).sent :: Owned(Apply(w, x, move).execs, m)
  {
    var v := Apply(w, x, move);
    forall m | m in v.sent ensures Owned(v.execs, m) {
      if m in w.sent { assert Owned(w.execs, m); }
    }
  }

  lemma ApplyKeepsExecutions(w: World, x: Name, move: Move)
    requires (forall y | y in w.execs :: ExecutionOK(w.ledger, w.sent, w.unhealthy, y, w.execs[y])) && GoodMove(w, x, move)
    ensures var v := Apply(w, x, move);
      forall y | y in v.execs :: ExecutionOK(v.ledger, v.sent, v.unhealthy, y, v.execs[y])
  {
    var v := Apply(w, x, move);
    forall y | y in v.execs ensures ExecutionOK(v.ledger, v.sent, v.unhealthy, y, v.execs[y]) {
      if y != x { assert ExecutionOK(w.ledger, w.sent, w.unhealthy, y, w.execs[y]); }
    }
  }

  lemma ApplyKeeps(w: World, x: Name, move: Move)
    requires Inv(w) && GoodMove(w, x, move)
    ensures Inv(Apply(w, x, move))
  {
    ApplyKeepsTracking(w, x, move);
    ApplyKeepsMessages(w, x, move);
    ApplyKeepsExecutions(w, x, move);
  }

  lemma EnterKeeps(w: World, op: Operation)
    requires Inv(w) && Enabled(w, Enter(op))
    ensures Inv(Do(w, Enter(op)))
  {
    var v := Do(w, Enter(op));
    forall m | m in v.sent ensures Owned(v.execs, m) { assert Owned(w.execs, m); }
    forall y | y in v.execs ensures ExecutionOK(v.ledger, v.sent, v.unhealthy, y, v.execs[y]) {
      if y != op.id { assert ExecutionOK(w.ledger, w.sent, w.unhealthy, y, w.execs[y]); }
    }
  }

  /** The facts about one execution that its next step needs. */
  predicate Ready(w: World, x: Name) {
    var ok :=
      && x in w.execs && ExecutionOK(w.ledger, w.sent, w.unhealthy, x, w.execs[x])
      && (x in w.tracked <==> w.execs[x].stage.Tracked());
    ok
  }

  lemma AdmissionMoves(w: World, step: Step)
    requires Enabled(w, step) && (step.CallAdmit? || step.EndAdmitCall?) && Ready(w, step.x)
    requires forall p | p in w.replies :: Truthful(w.ledger, p.0, p.1)
    ensures GoodMove(w, step.x, MoveOf(w.execs[step.x], step, w.sequence + 1))
  {
    var e := w.execs[step.x];
    if step.EndAdmitCall? {
      if step.outcome.Answered? {
        AnswerIsTrue(w, AdmitCall(e.request.value), Decided(step.outcome.decision));
      }
    }
  }

  lemma ReportMoves(w: World, step: Step)
    requires Enabled(w, step) && (step.CallReport? || step.EndReportCall?) && Ready(w, step.x)
    requires forall p | p in w.replies :: Truthful(w.ledger, p.0, p.1)
    ensures GoodMove(w, step.x, MoveOf(w.execs[step.x], step, w.sequence + 1))
  {
    var e := w.execs[step.x];
    if step.EndReportCall? && step.acknowledged {
      AnswerIsTrue(w, EventCall(Current(e).value), Acked(Current(e).value.eventId));
    }
  }

  lemma ClientMoves(w: World, step: Step)
    requires Enabled(w, step) && IsClientStep(step) && Ready(w, step.x)
    requires forall p | p in w.replies :: Truthful(w.ledger, p.0, p.1)
    requires forall m | m in w.sent :: Owned(w.execs, m)
    ensures GoodMove(w, step.x, MoveOf(w.execs[step.x], step, w.sequence + 1))
  {
    if step.CallAdmit? || step.EndAdmitCall? {
      AdmissionMoves(w, step);
    } else if step.CallReport? || step.EndReportCall? {
      ReportMoves(w, step);
    }
  }

  lemma AnswerIsTrue(w: World, m: Message, reply: Reply)
    requires (forall p | p in w.replies :: Truthful(w.ledger, p.0, p.1)) && (m, reply) in w.replies
    ensures Truthful(w.ledger, m, reply)
  {
    assert Truthful(w.ledger, (m, reply).0, (m, reply).1);
  }

  lemma ExecutionsGrow(w: World, t: Ledger)
    requires Grows(w.ledger, t) && forall y | y in w.execs :: ExecutionOK(w.ledger, w.sent, w.unhealthy, y, w.execs[y])
    ensures forall y | y in w.execs :: ExecutionOK(t, w.sent, w.unhealthy, y, w.execs[y])
  {
  }

  lemma RepliesGrow(w: World, t: Ledger, m: Message, reply: Reply)
    requires Grows(w.ledger, t) && Truthful(t, m, reply) && forall p | p in w.replies :: Truthful(w.ledger, p.0, p.1)
    ensures forall p | p in w.replies + {(m, reply)} :: Truthful(t, p.0, p.1)
  {
  }

  /** A ledger that grows only by what was sent, and a true reply. */
  lemma LedgerGrows(w: World, ledger: Ledger, m: Message, reply: Reply)
    requires Inv(w) && m in w.sent && Grows(w.ledger, ledger) && Truthful(ledger, m, reply)
    requires forall k | k in ledger.admissions && k !in w.ledger.admissions :: m == AdmitCall(ledger.admissions[k].request)
    requires forall i | i in ledger.events && i !in w.ledger.events :: m == EventCall(ledger.events[i])
    ensures Inv(w.(ledger := ledger, replies := w.replies + {(m, reply)}))
  {
    var v := w.(ledger := ledger, replies := w.replies + {(m, reply)});
    assert TrackingOK(v);
    ExecutionsGrow(w, ledger);
    RepliesGrow(w, ledger, m, reply);
    assert forall k | k in ledger.admissions :: AdmitCall(ledger.admissions[k].request) in w.sent;
    assert forall i | i in ledger.events :: EventCall(ledger.events[i]) in w.sent;
  }

  lemma DeliverKeeps(w: World, m: Message, drawn: Name)
    requires Inv(w) && Consistent(w.ledger) && Enabled(w, Deliver(m, drawn))
    ensures Inv(Do(w, Deliver(m, drawn)))
  {
    ServeKeeps(w.ledger, m, drawn);
    ServeRecords(w.ledger, m, drawn);
    LedgerGrows(w, Serve(w.ledger, m, drawn).0, m, Serve(w.ledger, m, drawn).1);
  }

  /** The service records only what it was sent, and answers truthfully. */
  lemma ServeRecords(s: Ledger, m: Message, drawn: Name)
    requires Consistent(s)
    ensures var (t, reply) := Serve(s, m, drawn);
      && Truthful(t, m, reply)
      && (forall k | k in t.admissions && k !in s.admissions :: m == AdmitCall(t.admissions[k].request))
      && (forall i | i in t.events && i !in s.events :: m == EventCall(t.events[i]))
  {
    match m
    case AdmitCall(r) => AdmitEffect(s, r, drawn);
    case EventCall(e) => EventEffect(s, e);
  }

  lemma PolicyKeeps(w: World, step: Step)
    requires Inv(w) && (step.SetPolicy? || step.StrayEnd?)
    ensures Inv(Do(w, step))
  {
    var v := Do(w, step);
    forall y | y in v.execs ensures ExecutionOK(v.ledger, v.sent, v.unhealthy, y, v.execs[y]) { assert ExecutionOK(w.ledger, w.sent, w.unhealthy, y, w.execs[y]); }
    forall p | p in v.replies ensures Truthful(v.ledger, p.0, p.1) { assert Truthful(w.ledger, p.0, p.1); }
  }

  lemma ClientStepApplies(w: World, step: Step)
    requires Inv(w) && Enabled(w, step) && IsClientStep(step)
    ensures Inv(Apply(w, step.x, MoveOf(w.execs[step.x], step, w.sequence + 1)))
  {
    assert Ready(w, step.x);
    ClientMoves(w, step);
    ApplyKeeps(w, step.x, MoveOf(w.execs[step.x], step, w.sequence + 1));
  }

  lemma ClientStepKeeps(w: World, step: Step)
    requires Inv(w) && Enabled(w, step) && IsClientStep(step)
    ensures Inv(Do(w, step))
  {
    ClientStepApplies(w, step);
    DoApplies(w, step);
  }

  lemma DoApplies(w: World, step: Step)
    requires Enabled(w, step) && IsClientStep(step)
    ensures Do(w, step) == Apply(w, step.x, MoveOf(w.execs[step.x], step, w.sequence + 1))
  {
  }

  lemma LedgerStaysConsistent(w: World, step: Step)
    requires Consistent(w.ledger) && Enabled(w, step)
    ensures Consistent(Do(w, step).ledger)
  {
    if step.SetPolicy? { SetPolicyKeeps(w.ledger, step.version, step.policy); }
    if step.Deliver? { ServeKeeps(w.ledger, step.m, step.drawn); }
  }

  lemma StepKeeps(w: World, step: Step)
    requires Inv(w) && Consistent(w.ledger) && Enabled(w, step)
    ensures Inv(Do(w, step))
  {
    if IsClientStep(step) {
      ClientStepKeeps(w, step);
    } else if step.Enter? {
      EnterKeeps(w, step.op);
    } else if step.Deliver? {
      DeliverKeeps(w, step.m, step.drawn);
    } else {
      PolicyKeeps(w, step);
    }
  }

  // ----- runs

  predicate Initial(w: World) {
    && w.ledger.admissions == map[] && w.ledger.events == map[] && w.ledger.states == map[]
    && !w.unhealthy && w.tracked == {} && w.execs == map[] && w.sent == {} && w.replies == {}
  }

  ghost predicate StepAt(ws: seq<World>, steps: seq<Step>, i: nat)
    requires i < |steps| && |ws| == |steps| + 1
  {
    Enabled(ws[i], steps[i]) && ws[i + 1] == Do(ws[i], steps[i])
  }

  ghost predicate Run(ws: seq<World>, steps: seq<Step>) {
    |ws| == |steps| + 1 && Initial(ws[0]) && forall i | 0 <= i < |steps| :: StepAt(ws, steps, i)
  }

  lemma {:induction false} InvAlways(ws: seq<World>, steps: seq<Step>, i: nat)
    requires Run(ws, steps) && i < |ws|
    ensures Inv(ws[i]) && Consistent(ws[i].ledger)
  {
    if i == 0 {
    } else {
      InvAlways(ws, steps, i - 1);
      assert StepAt(ws, steps, i - 1);
      StepKeeps(ws[i - 1], steps[i - 1]);
      LedgerStaysConsistent(ws[i - 1], steps[i - 1]);
    }
  }

  /** A handler runs only after the service recorded its start, under a reservation the service granted it. */
  lemma HandlerRunsAfterStart(ws: seq<World>, steps: seq<Step>, i: nat, x: Name)
    requires Run(ws, steps) && i < |ws| && x in ws[i].execs && ws[i].execs[x].stage.Running?
    ensures var w := ws[i]; var e := w.execs[x];
      && e.decision.Some? && AdmissionRecorded(w.ledger, e, e.decision.value) && e.decision.value.allowed
      && Recorded(w.ledger, e.started) && e.started.value.phase.Started?
      && e.started.value.reservation == e.decision.value.reservation
  {
    InvAlways(ws, steps, i);
    assert ExecutionOK(ws[i].ledger, ws[i].sent, ws[i].unhealthy, x, ws[i].execs[x]);
  }

  /** Step j delivered the request of this admission, and the policy in force then decided it. */
  predicate AdmittedAt(ws: seq<World>, steps: seq<Step>, j: nat, a: Admission)
    requires j < |steps| && |ws| == |steps| + 1
  {
    && steps[j].Deliver? && steps[j].m == AdmitCall(a.request)
    && DecidedBy(ws[j].ledger, a, steps[j].drawn)
  }

  /** Every admission that the service holds was decided by the policy in force at one of the steps. */
  lemma {:induction false} EveryAdmissionWasDecided(ws: seq<World>, steps: seq<Step>, i: nat, k: Name) returns (j: nat)
    requires Run(ws, steps) && i < |ws| && k in ws[i].ledger.admissions
    ensures j < i && AdmittedAt(ws, steps, j, ws[i].ledger.admissions[k])
  {
    assert StepAt(ws, steps, i - 1);
    if k in ws[i - 1].ledger.admissions {
      AdmissionStays(ws[i - 1], steps[i - 1], k);
      j := EveryAdmissionWasDecided(ws, steps, i - 1, k);
    } else {
      NewAdmission(ws[i - 1], steps[i - 1], k);
      j := i - 1;
    }
  }

  lemma AdmissionStays(w: World, step: Step, k: Name)
    requires Enabled(w, step) && k in w.ledger.admissions
    ensures k in Do(w, step).ledger.admissions && Do(w, step).ledger.admissions[k] == w.ledger.admissions[k]
  {
  }

  lemma NewAdmission(w: World, step: Step, k: Name)
    requires Enabled(w, step) && k !in w.ledger.admissions && k in Do(w, step).ledger.admissions
    ensures step.Deliver? && step.m == AdmitCall(Do(w, step).ledger.admissions[k].request)
    ensures DecidedBy(w.ledger, Do(w, step).ledger.admissions[k], step.drawn)
  {
    PolicyDecides(w.ledger, step.m.request, step.drawn);
  }

  /** A handler runs only under a reservation for a capability that the policy in force allowed when the service
      admitted it, and the execution carries that policy's version. */
  lemma HandlerRunsUnderPolicy(ws: seq<World>, steps: seq<Step>, i: nat, x: Name) returns (j: nat)
    requires Run(ws, steps) && i < |ws| && x in ws[i].execs && ws[i].execs[x].stage.Running?
    ensures j < i && steps[j].Deliver?
    ensures var e := ws[i].execs[x]; var s := ws[j].ledger;
      && e.request.Some? && e.decision.Some? && steps[j].m == AdmitCall(e.request.value)
      && e.request.value.capability in s.policy && s.policy[e.request.value.capability]
      && e.decision.value == Decision(true, ALLOWED, s.version, steps[j].drawn)
  {
    HandlerRunsAfterStart(ws, steps, i, x);
    j := EveryAdmissionWasDecided(ws, steps, i, ws[i].execs[x].request.value.requestId);
  }

  /** An execution is denied only for a capability that the policy in force did not allow. */
  lemma DeniedByPolicy(ws: seq<World>, steps: seq<Step>, i: nat, x: Name) returns (j: nat)
    requires Run(ws, steps) && i < |ws| && x in ws[i].execs && ws[i].execs[x].stage.Denied?
    ensures j < i && steps[j].Deliver?
    ensures var e := ws[i].execs[x]; var s := ws[j].ledger;
      && e.request.Some? && steps[j].m == AdmitCall(e.request.value)
      && !(e.request.value.capability in s.policy && s.policy[e.request.value.capability])
  {
    InvAlways(ws, steps, i);
    assert ExecutionOK(ws[i].ledger, ws[i].sent, ws[i].unhealthy, x, ws[i].execs[x]);
    j := EveryAdmissionWasDecided(ws, steps, i, ws[i].execs[x].request.value.requestId);
  }

  /** In every run the events that the service has recorded for a reservation are none, a start, a start and a
      completion, or a release. */
  lemma {:induction false} HistoryAlways(ws: seq<World>, steps: seq<Step>, i: nat)
    requires Run(ws, steps) && i < |ws|
    ensures HistoryKept(ws[i].ledger)
  {
    if i > 0 {
      HistoryAlways(ws, steps, i - 1);
      InvAlways(ws, steps, i - 1);
      assert StepAt(ws, steps, i - 1);
      HistoryStep(ws[i - 1], steps[i - 1]);
    }
  }

  lemma HistoryStep(w: World, step: Step)
    requires Consistent(w.ledger) && HistoryKept(w.ledger) && Enabled(w, step)
    ensures HistoryKept(Do(w, step).ledger)
  {
    if step.Deliver? {
      HistoryKeeps(w.ledger, step.m, step.drawn);
    } else {
      var t := Do(w, step).ledger;
      forall q | q in t.states ensures HistoryOf(t, q) {
        assert HistoryOf(w.ledger, q);
        assert forall phase :: HasEvent(t, q, phase) <==> HasEvent(w.ledger, q, phase);
      }
    }
  }

  /** In no run does a reservation get two starts or two completions. */
  lemma NeverTwice(ws: seq<World>, steps: seq<Step>, n: nat, i: Name, j: Name)
    requires Run(ws, steps) && n < |ws|
    requires i in ws[n].ledger.events && j in ws[n].ledger.events
    requires ws[n].ledger.events[i].reservation == ws[n].ledger.events[j].reservation
    requires ws[n].ledger.events[i].phase == ws[n].ledger.events[j].phase
    ensures i == j
  {
    InvAlways(ws, steps, n);
    OneStartOneCompletion(ws[n].ledger, i, j);
  }

  /** A reservation belongs to an execution whose Begin or End is under way, or whose handler runs. */
  predicate InHand(w: World, x: Name, reservation: Name) {
    && x in w.execs && w.execs[x].request.Some?
    && GrantsAs(w.ledger, w.execs[x].request.value.requestId, reservation)
    && (w.execs[x].stage.Admitting? || w.execs[x].stage.Starting? || w.execs[x].stage.Running? || w.execs[x].stage.Ending?)
  }

  /** While the observer is healthy, the service holds no reservation this process has lost sight of. */
  lemma HealthyAccountsForAll(ws: seq<World>, steps: seq<Step>, i: nat, reservation: Name)
    requires Run(ws, steps) && i < |ws| && !ws[i].unhealthy && reservation in ws[i].ledger.states
    ensures ws[i].ledger.states[reservation] == Reported(Completed) || exists x :: InHand(ws[i], x, reservation)
  {
    InvAlways(ws, steps, i);
    var w := ws[i];
    var k :| GrantsAs(w.ledger, k, reservation);
    var request := w.ledger.admissions[k].request;
    var x := request.operation.id;
    assert Owned(w.execs, AdmitCall(request));
    assert ExecutionOK(w.ledger, w.sent, w.unhealthy, x, w.execs[x]);
    var e := w.execs[x];
    if e.stage.Settled? {
      assert EventKept(w.ledger, e.completed.value.eventId);
    } else {
      assert InHand(w, x, reservation);
    }
  }

  /** Unhealthy is for good, and an execution that had not entered Begin by then never does. */
  lemma {:induction false} NoBeginAfterLatch(ws: seq<World>, steps: seq<Step>, i: nat, j: nat, x: Name)
    requires Run(ws, steps) && i <= j < |ws| && ws[i].unhealthy && x !in ws[i].execs
    ensures ws[j].unhealthy && x !in ws[j].execs
  {
    if i < j {
      NoBeginAfterLatch(ws, steps, i, j - 1, x);
      assert StepAt(ws, steps, j - 1);
    }
  }

  // ----- one execution from entry to settlement

  const A: Name := Name("a")
  const B: Name := Name("b")
  const OP: Operation := Operation(A, A, NONE, A, A, A, NONE, NONE, NONE)
  const ASKED: AdmissionRequest := AdmissionRequest(A, A, OP)
  const GRANT: Decision := Decision(true, ALLOWED, A, B)
  const START: Event := Event(A, 1, OP, B, A, Phase.Started, NoOutcome, 1, 0)
  const FINISH: Event := Event(B, 2, OP, B, A, Phase.Completed, Success, 1, 0)

  /** The service after it has been given a policy, an admission, and events. */
  function Serving(admitted: bool, events: map<Name, Event>, states: map<Name, Status>): Ledger {
    Ledger(map[A := true], A, 1, if admitted then map[A := Admission(ASKED, GRANT)] else map[], events, states)
  }

  function Lone(ledger: Ledger, e: Execution, sequence: nat, sent: set<Message>, replies: set<(Message, Reply)>): World {
    World(ledger, false, sequence, 1, if e.stage.Tracked() then {A} else {}, map[A := e], sent, replies)
  }

  ghost predicate Reachable(w: World) { exists ws, steps :: Run(ws, steps) && ws[|steps|] == w }

  lemma Reach(w: World, step: Step)
    requires Reachable(w) && Enabled(w, step)
    ensures Reachable(Do(w, step))
  {
    var ws, steps :| Run(ws, steps) && ws[|steps|] == w;
    var more, longer := ws + [Do(w, step)], steps + [step];
    forall i | 0 <= i < |longer| ensures StepAt(more, longer, i) {
      if i < |steps| { assert StepAt(ws, steps, i); }
    }
    assert Run(more, longer) && more[|longer|] == Do(w, step);
  }

  lemma TokensAreTokens()
    ensures Token(A) && Token(B) && ValidAdmission(ASKED) && ValidEvent(START) && ValidEvent(FINISH)
    ensures A != B && Token(ALLOWED) && ValidDecision(GRANT)
  {
    assert A.text[0] == 'a' && B.text[0] == 'b';
    assert ALLOWED.text == "allowed" && |ALLOWED.text| == 7;
  }

  function Fresh(): Execution { Execution(OP, Entered, None, None, None, None) }

  function Asking(waiting: bool): Execution {
    Execution(OP, Admitting(1, false, waiting), Some(ASKED), None, None, None)
  }

  function Granting(stage: Stage, completed: Option<Event>): Execution {
    Execution(OP, stage, Some(ASKED), Some(GRANT), Some(START), completed)
  }

  const UNASKED: Ledger := Serving(false, map[], map[])
  const ADMITTED: Ledger := Serving(true, map[], map[B := Admitted])
  const STARTED: Ledger := Serving(true, map[A := START], map[B := Reported(Phase.Started)])
  const COMPLETED: Ledger := Serving(true, map[A := START, B := FINISH], map[B := Reported(Phase.Completed)])

  const DECIDED: (Message, Reply) := (AdmitCall(ASKED), Decided(GRANT))
  const STARTED_ACK: (Message, Reply) := (EventCall(START), Acked(A))
  const COMPLETED_ACK: (Message, Reply) := (EventCall(FINISH), Acked(B))

  lemma ServesAdmission()
    ensures Serve(UNASKED, AdmitCall(ASKED), B) == (ADMITTED, Decided(GRANT))
  {
    TokensAreTokens();
    assert Decide(UNASKED, A) == Decision(true, ALLOWED, A, NONE);
    assert Record(UNASKED, ASKED, GRANT) == ADMITTED;
  }

  lemma ServesStart()
    ensures Serve(ADMITTED, EventCall(START), A) == (STARTED, Acked(A))
  {
    TokensAreTokens();
    assert A in ADMITTED.admissions && HoldsReservation(ADMITTED, START, A);
    assert Acceptable(ADMITTED, START);
    assert RecordEvent(ADMITTED, START) == STARTED;
  }

  lemma ServesCompletion()
    ensures Serve(STARTED, EventCall(FINISH), A) == (COMPLETED, Acked(B))
  {
    TokensAreTokens();
    assert A in STARTED.admissions && HoldsReservation(STARTED, FINISH, A);
    assert Acceptable(STARTED, FINISH);
    assert RecordEvent(STARTED, FINISH) == COMPLETED;
  }

  lemma Enters()
    ensures Reachable(Lone(UNASKED, Fresh(), 0, {}, {}))
  {
    var w := World(Ledger(map[], INITIAL, 1, map[], map[], map[]), false, 0, 1, {}, map[], {}, {});
    assert Run([w], []);
    Reach(w, SetPolicy(A, map[A := true]));
    Reach(Do(w, SetPolicy(A, map[A := true])), Enter(OP));
    assert Do(Do(w, SetPolicy(A, map[A := true])), Enter(OP)) == Lone(UNASKED, Fresh(), 0, {}, {});
  }

  lemma Asks()
    ensures Reachable(Lone(UNASKED, Asking(true), 0, {AdmitCall(ASKED)}, {}))
  {
    Enters();
    var w := Lone(UNASKED, Fresh(), 0, {}, {});
    Reach(w, Track(A, A, A));
    assert Do(w, Track(A, A, A)) == Lone(UNASKED, Asking(false), 0, {}, {});
    Reach(Lone(UNASKED, Asking(false), 0, {}, {}), CallAdmit(A, true));
  }

  lemma IsDecided()
    ensures Reachable(Lone(ADMITTED, Asking(true), 0, {AdmitCall(ASKED)}, {DECIDED}))
  {
    TokensAreTokens();
    Asks();
    ServesAdmission();
    Reach(Lone(UNASKED, Asking(true), 0, {AdmitCall(ASKED)}, {}), Deliver(AdmitCall(ASKED), B));
  }

  lemma ReportsItsStart()
    ensures Reachable(Lone(ADMITTED, Granting(Starting(1, true), None), 1, {AdmitCall(ASKED), EventCall(START)}, {DECIDED}))
  {
    TokensAreTokens();
    IsDecided();
    var w := Lone(ADMITTED, Asking(true), 0, {AdmitCall(ASKED)}, {DECIDED});
    Reach(w, EndAdmitCall(A, Answered(GRANT), A, 1));
    var v := Lone(ADMITTED, Granting(Starting(1, false), None), 1, {AdmitCall(ASKED)}, {DECIDED});
    assert Do(w, EndAdmitCall(A, Answered(GRANT), A, 1)) == v;
    Reach(v, CallReport(A, true));
  }

  lemma StartIsServed()
    ensures Reachable(Lone(STARTED, Granting(Starting(1, true), None), 1, {AdmitCall(ASKED), EventCall(START)}, {DECIDED, STARTED_ACK}))
  {
    TokensAreTokens();
    ReportsItsStart();
    ServesStart();
    Reach(Lone(ADMITTED, Granting(Starting(1, true), None), 1, {AdmitCall(ASKED), EventCall(START)}, {DECIDED}),
          Deliver(EventCall(START), A));
  }

  lemma Starts()
    ensures Reachable(Lone(STARTED, Granting(Running, None), 1, {AdmitCall(ASKED), EventCall(START)}, {DECIDED, STARTED_ACK}))
  {
    StartIsServed();
    Reach(Lone(STARTED, Granting(Starting(1, true), None), 1, {AdmitCall(ASKED), EventCall(START)}, {DECIDED, STARTED_ACK}),
          EndReportCall(A, true));
  }

  lemma ReportsItsCompletion()
    ensures Reachable(Lone(STARTED, Granting(Ending(1, true), Some(FINISH)), 2,
                           {AdmitCall(ASKED), EventCall(START), EventCall(FINISH)}, {DECIDED, STARTED_ACK}))
  {
    Starts();
    var w := Lone(STARTED, Granting(Running, None), 1, {AdmitCall(ASKED), EventCall(START)}, {DECIDED, STARTED_ACK});
    Reach(w, End(A, Success, 0, B, 1));
    var v := Lone(STARTED, Granting(Ending(1, false), Some(FINISH)), 2, {AdmitCall(ASKED), EventCall(START)}, {DECIDED, STARTED_ACK});
    assert Do(w, End(A, Success, 0, B, 1)) == v;
    Reach(v, CallReport(A, true));
  }

  lemma CompletionIsServed()
    ensures Reachable(Lone(COMPLETED, Granting(Ending(1, true), Some(FINISH)), 2,
                           {AdmitCall(ASKED), EventCall(START), EventCall(FINISH)}, {DECIDED, STARTED_ACK, COMPLETED_ACK}))
  {
    TokensAreTokens();
    ReportsItsCompletion();
    ServesCompletion();
    Reach(Lone(STARTED, Granting(Ending(1, true), Some(FINISH)), 2, {AdmitCall(ASKED), EventCall(START), EventCall(FINISH)},
               {DECIDED, STARTED_ACK}),
          Deliver(EventCall(FINISH), A));
  }

  /** An execution that is allowed is admitted, started, run and completed, and nothing of it is left in hand. */
  lemma ExecutionSettles()
    ensures Reachable(Lone(COMPLETED, Granting(Settled, Some(FINISH)), 2,
                           {AdmitCall(ASKED), EventCall(START), EventCall(FINISH)}, {DECIDED, STARTED_ACK, COMPLETED_ACK}))
  {
    CompletionIsServed();
    Reach(Lone(COMPLETED, Granting(Ending(1, true), Some(FINISH)), 2, {AdmitCall(ASKED), EventCall(START), EventCall(FINISH)},
               {DECIDED, STARTED_ACK, COMPLETED_ACK}),
          EndReportCall(A, true));
  }
}
