/** The reference policy service: admissions and lifecycle events under idempotent identifiers. */
module HostingService {
  import opened ByteStrings

  /** Identifiers and labels. */
  datatype Name = Name(text: string)

  const NONE := Name("")
  const ALLOWED := Name("allowed")
  const DENIED := Name("denied")
  const INITIAL := Name("initial")

  /** The service's identifiers are text of at most 128 characters from a fixed alphabet. */
  predicate TokenChar(c: char) {
    'a' <= c <= 'z' || 'A' <= c <= 'Z' || '0' <= c <= '9' || c == '_' || c == '-' || c == '.' || c == ':' || c == '/'
  }

  predicate Token(s: Name) {
    0 < |s.text| <= 128 && forall i | 0 <= i < |s.text| :: TokenChar(s.text[i])
  }

  predicate Optional(s: Name) { s == NONE || Token(s) }

  datatype Operation = Operation(id: Name, root: Name, parent: Name, session: Name, kind: Name,
                                 origin: Name, deployment: Name, functionName: Name, namespace: Name)

  datatype AdmissionRequest = AdmissionRequest(requestId: Name, capability: Name, operation: Operation)

  datatype Decision = Decision(allowed: bool, code: Name, version: Name, reservation: Name)

  datatype Phase = Started | Completed | Released | OtherPhase

  datatype Outcome = NoOutcome | Success | Error | Timeout | Canceled | OtherOutcome

  datatype Event = Event(eventId: Name, sequence: nat, operation: Operation, reservation: Name, version: Name,
                         phase: Phase, outcome: Outcome, at: nat, durationMicros: int)

  predicate ValidOperation(o: Operation) {
    && Token(o.id) && Token(o.root) && Optional(o.parent) && Token(o.session) && Token(o.kind) && Token(o.origin)
    && Optional(o.deployment) && Optional(o.functionName) && Optional(o.namespace)
  }

  predicate ValidAdmission(r: AdmissionRequest) {
    Token(r.requestId) && Token(r.capability) && ValidOperation(r.operation)
  }

  predicate ValidEvent(e: Event) {
    && Token(e.eventId) && e.sequence > 0 && ValidOperation(e.operation) && Token(e.reservation) && Token(e.version)
    && e.at > 0 && e.durationMicros >= 0
    && ((e.phase.Started? && e.outcome.NoOutcome? && e.durationMicros == 0)
        || (e.phase.Completed? && (e.outcome.Success? || e.outcome.Error? || e.outcome.Timeout? || e.outcome.Canceled?))
        || (e.phase.Released? && e.outcome.Canceled? && e.durationMicros == 0))
  }

  /** The checks as the service makes them. */
  method CheckToken(s: Name) returns (ok: bool)
    ensures ok <==> Token(s)
  {
    var text := s.text;
    if text == "" || |text| > 128 { return false; }
    for i := 0 to |text|
      invariant forall j | 0 <= j < i :: TokenChar(text[j])
    {
      var c := text[i];
      if !(('a' <= c && c <= 'z') || ('A' <= c && c <= 'Z') || ('0' <= c && c <= '9')
           || c in {'_', '-', '.', ':', '/'})
      {
        return false;
      }
    }
    ok := true;
  }

  method CheckOptional(s: Name) returns (ok: bool)
    ensures ok <==> Optional(s)
  {
    if s.text == "" { return true; }
    ok := CheckToken(s);
  }

  method CheckOperation(o: Operation) returns (ok: bool)
    ensures ok <==> ValidOperation(o)
  {
    var needed, optional := [o.id, o.root, o.session, o.kind, o.origin], [o.parent, o.deployment, o.functionName, o.namespace];
    for i := 0 to |needed|
      invariant forall j | 0 <= j < i :: Token(needed[j])
    {
      ok := CheckToken(needed[i]);
      if !ok { return; }
    }
    for i := 0 to |optional|
      invariant forall j | 0 <= j < i :: Optional(optional[j])
    {
      ok := CheckOptional(optional[i]);
      if !ok { return; }
    }
    assert Token(needed[0]) && Token(needed[1]) && Token(needed[2]) && Token(needed[3]) && Token(needed[4]);
    assert Optional(optional[0]) && Optional(optional[1]) && Optional(optional[2]) && Optional(optional[3]);
    ok := true;
  }

  method CheckAdmission(r: AdmissionRequest) returns (ok: bool)
    ensures ok <==> ValidAdmission(r)
  {
    ok := CheckToken(r.requestId);
    if !ok { return; }
    ok := CheckToken(r.capability);
    if !ok { return; }
    ok := CheckOperation(r.operation);
  }

  method CheckEvent(e: Event) returns (ok: bool)
    ensures ok <==> ValidEvent(e)
  {
    if e.sequence == 0 || e.at == 0 || e.durationMicros < 0 { return false; }
    ok := CheckToken(e.eventId);
    if !ok { return; }
    ok := CheckOperation(e.operation);
    if !ok { return; }
    ok := CheckToken(e.reservation);
    if !ok { return; }
    ok := CheckToken(e.version);
    if !ok { return; }
    match e.phase {
      case Started => ok := e.outcome == NoOutcome && e.durationMicros == 0;
      case Completed => ok := e.outcome in {Success, Error, Timeout, Canceled};
      case Released => ok := e.outcome == Canceled && e.durationMicros == 0;
      case OtherPhase => ok := false;
    }
  }

  datatype Admission = Admission(request: AdmissionRequest, decision: Decision)

  datatype Status = Admitted | Reported(phase: Phase)

  datatype Ledger = Ledger(policy: map<Name, bool>, version: Name, limit: nat, admissions: map<Name, Admission>,
                           events: map<Name, Event>, states: map<Name, Status>)

  datatype Reply = Decided(decision: Decision) | Acked(eventId: Name) | Rejected(code: nat)

  // ----- what one request does

  function Decide(s: Ledger, capability: Name): Decision {
    var allowed := capability in s.policy && s.policy[capability];
    Decision(allowed, if allowed then ALLOWED else DENIED, s.version, NONE)
  }

  /** Another request already reserved for this invocation. */
  predicate ReservedElsewhere(s: Ledger, op: Operation) {
    exists k | k in s.admissions ::
      s.admissions[k].request.operation.id == op.id && s.admissions[k].request.operation.session == op.session
  }

  /** The admission that holds a reservation for this operation under this policy version. */
  predicate HoldsReservation(s: Ledger, e: Event, k: Name) {
    && k in s.admissions && s.admissions[k].decision.reservation == e.reservation
    && s.admissions[k].request.operation == e.operation && s.admissions[k].decision.version == e.version
  }

  predicate SequenceTaken(s: Ledger, e: Event) {
    exists k | k in s.events :: s.events[k].operation.session == e.operation.session && s.events[k].sequence == e.sequence
  }

  predicate Follows(status: Status, phase: Phase) {
    (status.Admitted? && (phase.Started? || phase.Released?)) || (status == Reported(Started) && phase.Completed?)
  }

  /** An admission request; drawn is the reservation id drawn if one is needed. */
  function ServeAdmit(s: Ledger, r: AdmissionRequest, drawn: Name): (Ledger, Reply) {
    if !ValidAdmission(r) then (s, Rejected(400))
    else if r.requestId in s.admissions then
      if s.admissions[r.requestId].request != r then (s, Rejected(409)) else (s, Decided(s.admissions[r.requestId].decision))
    else if |s.admissions| >= s.limit then (s, Rejected(503))
    else if ReservedElsewhere(s, r.operation) then (s, Rejected(409))
    else
      var plain := Decide(s, r.capability);
      var d := if plain.allowed then plain.(reservation := drawn) else plain;
      (Record(s, r, d), Decided(d))
  }

  function Record(s: Ledger, r: AdmissionRequest, d: Decision): Ledger {
    s.(admissions := s.admissions[r.requestId := Admission(r, d)],
       states := if d.allowed then s.states[d.reservation := Admitted] else s.states)
  }

  function RecordEvent(s: Ledger, e: Event): Ledger {
    s.(events := s.events[e.eventId := e], states := s.states[e.reservation := Reported(e.phase)])
  }

  /** The event may be recorded. */
  predicate Acceptable(s: Ledger, e: Event) {
    && ValidEvent(e) && (exists k | k in s.admissions :: HoldsReservation(s, e, k)) && !SequenceTaken(s, e)
    && e.reservation in s.states && Follows(s.states[e.reservation], e.phase)
  }

  /** A lifecycle event. */
  function ServeEvent(s: Ledger, e: Event): (Ledger, Reply) {
    if !ValidEvent(e) then (s, Rejected(400))
    else if e.eventId in s.events then
      if s.events[e.eventId] != e then (s, Rejected(409)) else (s, Acked(e.eventId))
    else if |s.events| >= s.limit * 3 then (s, Rejected(503))
    else if !Acceptable(s, e) then (s, Rejected(409))
    else (RecordEvent(s, e), Acked(e.eventId))
  }

  // ----- what every request keeps

  predicate Grants(s: Ledger, k: Name) {
    k in s.admissions && s.admissions[k].decision.allowed
  }

  /** One reservation per allowed admission, at most one per invocation, and a state that tells exactly
      which events each reservation has had. */
  ghost predicate Consistent(s: Ledger) {
    var ok :=
      AdmissionsKept(s) && EventsKept(s);
    ok
  }

  ghost predicate AdmissionsKept(s: Ledger) {
    var ok :=
      && (forall k | k in s.admissions :: s.admissions[k].request.requestId == k)
      && (forall k | k in s.admissions && !s.admissions[k].decision.allowed :: s.admissions[k].decision.reservation == NONE)
      && (forall k | Grants(s, k) :: s.admissions[k].decision.reservation in s.states && Token(s.admissions[k].decision.reservation))
      && (forall r | r in s.states :: Granted(s, r))
      && (forall j, k :: AdmissionsApart(s, j, k));
    ok
  }

  ghost predicate EventsKept(s: Ledger) {
    var ok :=
      && (forall i | i in s.events :: EventKept(s, i))
      && (forall i, j :: EventsApart(s, i, j));
    ok
  }

  /** Two admissions share neither a reservation nor an invocation. */
  predicate AdmissionsApart(s: Ledger, j: Name, k: Name) {
    && (Grants(s, j) && Grants(s, k) && s.admissions[j].decision.reservation == s.admissions[k].decision.reservation ==> j == k)
    && (j in s.admissions && k in s.admissions && SameInvocation(s.admissions[j], s.admissions[k]) ==> j == k)
  }

  /** Two events share neither a reservation and phase nor a session and sequence number. */
  predicate EventsApart(s: Ledger, i: Name, j: Name) {
    i in s.events && j in s.events && SameEvent(s.events[i], s.events[j]) ==> i == j
  }

  predicate GrantsAs(s: Ledger, k: Name, reservation: Name) {
    Grants(s, k) && s.admissions[k].decision.reservation == reservation
  }

  ghost predicate Granted(s: Ledger, reservation: Name) { exists k :: GrantsAs(s, k, reservation) }

  predicate SameInvocation(a: Admission, b: Admission) {
    a.request.operation.id == b.request.operation.id && a.request.operation.session == b.request.operation.session
  }

  predicate SameEvent(a: Event, b: Event) {
    (a.reservation == b.reservation && a.phase == b.phase)
    || (a.operation.session == b.operation.session && a.sequence == b.sequence)
  }

  /** A recorded event belongs to its reservation, and the reservation's state has reached it. */
  predicate EventKept(s: Ledger, i: Name)
    requires i in s.events
  {
    var e := s.events[i];
    && e.eventId == i && ValidEvent(e) && e.reservation in s.states
    && (exists k | k in s.admissions :: HoldsReservation(s, e, k))
    && (e.phase.Started? ==> s.states[e.reservation] in {Reported(Started), Reported(Completed)})
    && (e.phase.Completed? ==> s.states[e.reservation] == Reported(Completed))
    && (e.phase.Released? ==> s.states[e.reservation] == Reported(Released))
  }

  /** Later ledgers keep every admission and event, word for word. */
  predicate Grows(s: Ledger, t: Ledger) {
    && (forall k | k in s.admissions :: k in t.admissions && t.admissions[k] == s.admissions[k])
    && (forall i | i in s.events :: i in t.events && t.events[i] == s.events[i])
  }

  lemma RecordKeepsGrants(s: Ledger, r: AdmissionRequest, d: Decision, q: Name)
    requires r.requestId !in s.admissions && q in Record(s, r, d).states
    requires q in s.states ==> Granted(s, q)
    ensures Granted(Record(s, r, d), q)
  {
    var t := Record(s, r, d);
    if q in s.states {
      var k :| GrantsAs(s, k, q);
      assert GrantsAs(t, k, q);
    } else {
      assert GrantsAs(t, r.requestId, q);
    }
  }

  lemma RecordKeepsApart(s: Ledger, r: AdmissionRequest, d: Decision, j: Name, k: Name)
    requires AdmissionsKept(s) && r.requestId !in s.admissions && !ReservedElsewhere(s, r.operation)
    requires if d.allowed then Token(d.reservation) && d.reservation !in s.states else d.reservation == NONE
    ensures AdmissionsApart(Record(s, r, d), j, k)
  {
    assert AdmissionsApart(s, j, k);
    if Grants(s, j) { assert s.admissions[j].decision.reservation in s.states; }
    if Grants(s, k) { assert s.admissions[k].decision.reservation in s.states; }
  }

  lemma RecordKeepsAdmissions(s: Ledger, r: AdmissionRequest, d: Decision)
    requires AdmissionsKept(s) && r.requestId !in s.admissions && !ReservedElsewhere(s, r.operation)
    requires if d.allowed then Token(d.reservation) && d.reservation !in s.states else d.reservation == NONE
    ensures AdmissionsKept(Record(s, r, d))
  {
    var t := Record(s, r, d);
    forall q | q in t.states ensures Granted(t, q) { RecordKeepsGrants(s, r, d, q); }
    forall k | Grants(t, k) && k != r.requestId ensures GrantsAs(s, k, t.admissions[k].decision.reservation) {}
    forall j, k ensures AdmissionsApart(t, j, k) { RecordKeepsApart(s, r, d, j, k); }
  }

  lemma RecordKeepsEvents(s: Ledger, r: AdmissionRequest, d: Decision)
    requires EventsKept(s) && r.requestId !in s.admissions
    requires d.allowed ==> d.reservation !in s.states
    ensures EventsKept(Record(s, r, d))
  {
    var t := Record(s, r, d);
    forall i | i in t.events ensures EventKept(t, i) {
      assert EventKept(s, i);
      var k :| k in s.admissions && HoldsReservation(s, s.events[i], k);
      assert k in t.admissions && HoldsReservation(t, t.events[i], k);
    }
    forall i, j ensures EventsApart(t, i, j) { assert EventsApart(s, i, j); }
  }

  /** An admission request changes nothing or records one new admission. */
  lemma AdmitEffect(s: Ledger, r: AdmissionRequest, drawn: Name)
    requires AdmissionsKept(s)
    ensures var (t, reply) := ServeAdmit(s, r, drawn);
      && (t != s ==>
          && reply.Decided? && t == Record(s, r, reply.decision)
          && r.requestId !in s.admissions && !ReservedElsewhere(s, r.operation)
          && (if reply.decision.allowed then reply.decision.reservation == drawn else reply.decision.reservation == NONE))
      && (reply.Decided? ==> r.requestId in t.admissions && t.admissions[r.requestId] == Admission(r, reply.decision))
  {
  }

  /** What the policy in force says of a request: a capability that it does not name is denied. */
  predicate DecidedBy(s: Ledger, a: Admission, drawn: Name) {
    && (a.decision.allowed <==> a.request.capability in s.policy.Keys && s.policy[a.request.capability])
    && a.decision.code == (if a.decision.allowed then ALLOWED else DENIED)
    && a.decision.version == s.version
    && a.decision.reservation == (if a.decision.allowed then drawn else NONE)
  }

  /** A request that is decided anew is decided by the policy in force. */
  lemma PolicyDecides(s: Ledger, r: AdmissionRequest, drawn: Name)
    requires r.requestId !in s.admissions && ServeAdmit(s, r, drawn).1.Decided?
    ensures ValidAdmission(r) && DecidedBy(s, Admission(r, ServeAdmit(s, r, drawn).1.decision), drawn)
  {
  }

  lemma AdmitKeeps(s: Ledger, r: AdmissionRequest, drawn: Name)
    requires Consistent(s) && Token(drawn) && drawn !in s.states
    ensures var (t, reply) := ServeAdmit(s, r, drawn);
      Consistent(t) && Grows(s, t) && t.events == s.events
  {
    var (t, reply) := ServeAdmit(s, r, drawn);
    AdmitEffect(s, r, drawn);
    if t != s {
      RecordKeepsAdmissions(s, r, reply.decision);
      RecordKeepsEvents(s, r, reply.decision);
    }
  }

  lemma RecordEventKeepsAdmissions(s: Ledger, e: Event)
    requires AdmissionsKept(s) && e.reservation in s.states
    ensures AdmissionsKept(RecordEvent(s, e))
  {
    var t := RecordEvent(s, e);
    forall q | q in t.states ensures Granted(t, q) {
      var k :| GrantsAs(s, k, q);
      assert GrantsAs(t, k, q);
    }
    forall j, k ensures AdmissionsApart(t, j, k) { assert AdmissionsApart(s, j, k); }
  }

  lemma RecordEventKeepsEach(s: Ledger, e: Event, i: Name)
    requires Acceptable(s, e) && e.eventId !in s.events
    requires forall j | j in s.events :: EventKept(s, j)
    requires i in RecordEvent(s, e).events
    ensures EventKept(RecordEvent(s, e), i)
  {
    var t := RecordEvent(s, e);
    if i != e.eventId { assert EventKept(s, i); }
    var k :| k in s.admissions && HoldsReservation(s, t.events[i], k);
    assert k in t.admissions && HoldsReservation(t, t.events[i], k);
  }

  lemma AcceptableIsNew(s: Ledger, e: Event, i: Name)
    requires Acceptable(s, e) && i in s.events && EventKept(s, i)
    ensures !SameEvent(s.events[i], e) && !SameEvent(e, s.events[i])
  {
  }

  lemma RecordEventKeepsEvents(s: Ledger, e: Event)
    requires EventsKept(s) && Acceptable(s, e) && e.eventId !in s.events
    ensures EventsKept(RecordEvent(s, e))
  {
    var t := RecordEvent(s, e);
    forall i | i in t.events ensures EventKept(t, i) { RecordEventKeepsEach(s, e, i); }
    forall i, j ensures EventsApart(t, i, j) {
      assert EventsApart(s, i, j);
      if i in s.events { AcceptableIsNew(s, e, i); }
      if j in s.events { AcceptableIsNew(s, e, j); }
    }
  }

  /** An event changes nothing or is recorded. */
  lemma EventEffect(s: Ledger, e: Event)
    requires EventsKept(s)
    ensures var (t, reply) := ServeEvent(s, e);
      && (t != s ==> reply.Acked? && t == RecordEvent(s, e) && Acceptable(s, e) && e.eventId !in s.events)
      && (reply.Acked? ==> e.eventId in t.events && t.events[e.eventId] == e)
  {
  }

  lemma RecordEventKeeps(s: Ledger, e: Event)
    requires Consistent(s) && Acceptable(s, e) && e.eventId !in s.events
    ensures Consistent(RecordEvent(s, e)) && Grows(s, RecordEvent(s, e))
  {
    RecordEventKeepsAdmissions(s, e);
    RecordEventKeepsEvents(s, e);
  }

  lemma EventKeeps(s: Ledger, e: Event)
    requires Consistent(s)
    ensures var (t, reply) := ServeEvent(s, e);
      Consistent(t) && Grows(s, t) && t.admissions == s.admissions
  {
    var (t, reply) := ServeEvent(s, e);
    EventEffect(s, e);
    if t != s { RecordEventKeeps(s, e); }
  }

  /** A request on its way to the service. */
  datatype Message = AdmitCall(request: AdmissionRequest) | EventCall(event: Event)

  function Serve(s: Ledger, m: Message, drawn: Name): (Ledger, Reply) {
    match m
    case AdmitCall(r) => ServeAdmit(s, r, drawn)
    case EventCall(e) => ServeEvent(s, e)
  }

  lemma ServeKeeps(s: Ledger, m: Message, drawn: Name)
    requires Consistent(s) && Token(drawn) && drawn !in s.states
    ensures Consistent(Serve(s, m, drawn).0) && Grows(s, Serve(s, m, drawn).0)
  {
    match m
    case AdmitCall(r) => AdmitKeeps(s, r, drawn);
    case EventCall(e) => EventKeeps(s, e);
  }

  lemma SetPolicyKeepsEvents(s: Ledger, version: Name, policy: map<Name, bool>)
    requires EventsKept(s)
    ensures EventsKept(s.(policy := policy, version := version))
  {
    var t := s.(policy := policy, version := version);
    forall i | i in t.events ensures EventKept(t, i) {
      assert EventKept(s, i);
      var k :| k in s.admissions && HoldsReservation(s, s.events[i], k);
      assert k in t.admissions && HoldsReservation(t, t.events[i], k);
    }
    forall i, j ensures EventsApart(t, i, j) { assert EventsApart(s, i, j); }
  }

  lemma SetPolicyKeeps(s: Ledger, version: Name, policy: map<Name, bool>)
    requires Consistent(s)
    ensures Consistent(s.(policy := policy, version := version))
  {
    var t := s.(policy := policy, version := version);
    SetPolicyKeepsEvents(s, version, policy);
    forall q | q in t.states ensures Granted(t, q) {
      var k :| GrantsAs(s, k, q);
      assert GrantsAs(t, k, q);
    }
    forall j, k ensures AdmissionsApart(t, j, k) { assert AdmissionsApart(s, j, k); }
  }

  /** No reservation has two starts or two completions, and a completion has its start before it. */
  lemma OneStartOneCompletion(s: Ledger, i: Name, j: Name)
    requires Consistent(s) && i in s.events && j in s.events
    requires s.events[i].reservation == s.events[j].reservation && s.events[i].phase == s.events[j].phase
    ensures i == j
  {
    assert EventsApart(s, i, j);
  }

  // ----- what a reservation's state says

  ghost predicate HasEvent(s: Ledger, reservation: Name, phase: Phase) {
    exists i | i in s.events :: s.events[i].reservation == reservation && s.events[i].phase == phase
  }

  /** The recorded events of a reservation are none, a start, a start and a completion, or a release. */
  ghost predicate HistoryOf(s: Ledger, q: Name)
    requires q in s.states
  {
    var ok :=
      && (HasEvent(s, q, Started) <==> s.states[q] == Reported(Started) || s.states[q] == Reported(Completed))
      && (HasEvent(s, q, Completed) <==> s.states[q] == Reported(Completed))
      && (HasEvent(s, q, Released) <==> s.states[q] == Reported(Released));
    ok
  }

  ghost predicate HistoryKept(s: Ledger) { forall q | q in s.states :: HistoryOf(s, q) }

  lemma RecordEventHistory(s: Ledger, e: Event, q: Name)
    requires Acceptable(s, e) && e.eventId !in s.events && q in s.states && HistoryOf(s, q)
    ensures HistoryOf(RecordEvent(s, e), q)
  {
    var t := RecordEvent(s, e);
    forall phase: Phase ensures HasEvent(t, q, phase) <==> HasEvent(s, q, phase) || (q == e.reservation && phase == e.phase) {
      if i :| i in s.events && s.events[i].reservation == q && s.events[i].phase == phase { assert i in t.events; }
      if q == e.reservation && phase == e.phase { assert e.eventId in t.events && t.events[e.eventId] == e; }
    }
  }

  lemma RecordHistory(s: Ledger, r: AdmissionRequest, d: Decision, q: Name)
    requires EventsKept(s) && q in Record(s, r, d).states && (q in s.states ==> HistoryOf(s, q))
    requires d.allowed ==> d.reservation !in s.states
    ensures HistoryOf(Record(s, r, d), q)
  {
    var t := Record(s, r, d);
    forall phase: Phase ensures HasEvent(t, q, phase) <==> q in s.states && HasEvent(s, q, phase) {
      if i :| i in t.events && t.events[i].reservation == q && t.events[i].phase == phase { assert EventKept(s, i); }
    }
  }

  /** Every request keeps it: a completion only after its start, a release only of what never started. */
  lemma HistoryKeeps(s: Ledger, m: Message, drawn: Name)
    requires Consistent(s) && HistoryKept(s) && Token(drawn) && drawn !in s.states
    ensures HistoryKept(Serve(s, m, drawn).0)
  {
    var (t, reply) := Serve(s, m, drawn);
    match m
    case AdmitCall(r) =>
      AdmitEffect(s, r, drawn);
      if t != s { forall q | q in t.states ensures HistoryOf(t, q) { RecordHistory(s, r, reply.decision, q); } }
    case EventCall(e) =>
      EventEffect(s, e);
      if t != s { forall q | q in t.states ensures HistoryOf(t, q) { RecordEventHistory(s, e, q); } }
  }

  // ----- retries

  /** The tables hold what this request was answered from. */
  predicate Remembers(s: Ledger, m: Message, reply: Reply) {
    match m
    case AdmitCall(r) =>
      ValidAdmission(r) && r.requestId in s.admissions && s.admissions[r.requestId].request == r
      && reply == Decided(s.admissions[r.requestId].decision)
    case EventCall(e) => ValidEvent(e) && e.eventId in s.events && s.events[e.eventId] == e && reply == Acked(e.eventId)
  }

  /** Anything else that may happen at the service. */
  datatype Act = Request(message: Message, drawn: Name) | NewPolicy(version: Name, policy: map<Name, bool>)

  function Perform(s: Ledger, act: Act): Ledger {
    match act
    case Request(m, drawn) => Serve(s, m, drawn).0
    case NewPolicy(version, policy) => s.(policy := policy, version := version)
  }

  function PerformAll(s: Ledger, acts: seq<Act>): Ledger
    decreases |acts|
  {
    if acts == [] then s else PerformAll(Perform(s, acts[0]), acts[1..])
  }

  lemma {:induction false} StillRemembered(s: Ledger, m: Message, reply: Reply, acts: seq<Act>)
    requires Remembers(s, m, reply)
    ensures Remembers(PerformAll(s, acts), m, reply)
    decreases |acts|
  {
    if acts != [] {
      StillRemembered(Perform(s, acts[0]), m, reply, acts[1..]);
    }
  }

  /** An identical retry of an answered request, whatever requests and policy changes came between, is answered
      as before and changes nothing. */
  lemma RetriesAreIdempotent(s: Ledger, m: Message, drawn: Name, acts: seq<Act>, later: Name)
    requires !Serve(s, m, drawn).1.Rejected?
    ensures var t := PerformAll(Serve(s, m, drawn).0, acts); Serve(t, m, later) == (t, Serve(s, m, drawn).1)
  {
    StillRemembered(Serve(s, m, drawn).0, m, Serve(s, m, drawn).1, acts);
  }

  predicate OnlyRequests(acts: seq<Act>) {
    forall i | 0 <= i < |acts| :: acts[i].Request?
  }

  lemma {:induction false} PolicyStands(s: Ledger, acts: seq<Act>)
    requires OnlyRequests(acts)
    ensures PerformAll(s, acts).policy == s.policy && PerformAll(s, acts).version == s.version
    decreases |acts|
  {
    if acts != [] { PolicyStands(Perform(s, acts[0]), acts[1..]); }
  }

  /** Whatever requests came since the policy was replaced, a request that is decided anew is allowed exactly when
      that policy allows its capability, and carries that policy's version. */
  lemma LastPolicyDecides(s: Ledger, version: Name, policy: map<Name, bool>, acts: seq<Act>, r: AdmissionRequest, drawn: Name)
    requires OnlyRequests(acts)
    ensures var t := PerformAll(Perform(s, NewPolicy(version, policy)), acts);
      var reply := ServeAdmit(t, r, drawn).1;
      r.requestId !in t.admissions && reply.Decided? ==>
        && (reply.decision.allowed <==> r.capability in policy.Keys && policy[r.capability])
        && reply.decision.version == version
  {
    var u := Perform(s, NewPolicy(version, policy));
    PolicyStands(u, acts);
    var t := PerformAll(u, acts);
    if r.requestId !in t.admissions && ServeAdmit(t, r, drawn).1.Decided? { PolicyDecides(t, r, drawn); }
  }

  class ReferenceService {
    var policy: map<Name, bool>
    var version: Name
    const limit: nat
    var admissions: map<Name, Admission>
    var events: map<Name, Event>
    var states: map<Name, Status>

    function State(): Ledger
      reads this
    {
      Ledger(policy, version, limit, admissions, events, states)
    }

    constructor (limit: int)
      ensures this.limit == (if limit < 1 then 1000 else limit) && Consistent(State())
      ensures State() == Ledger(map[], INITIAL, this.limit, map[], map[], map[])
    {
      this.limit := if limit < 1 then 1000 else limit;
      policy, version, admissions, events, states := map[], INITIAL, map[], map[], map[];
    }

    method SetPolicy(version: Name, capabilities: map<Name, bool>) returns (ok: bool)
      modifies this
      ensures ok <==> Token(version) && forall k | k in capabilities :: Token(k)
      ensures State() == if ok then old(State()).(policy := capabilities, version := version) else old(State())
    {
      if !Token(version) { return false; }
      var p: map<Name, bool> := map[];
      var todo := capabilities.Keys;
      while todo != {}
        invariant todo <= capabilities.Keys && State() == old(State())
        invariant p.Keys == capabilities.Keys - todo
        invariant forall k | k in p :: Token(k) && p[k] == capabilities[k]
        decreases |todo|
      {
        var k :| k in todo;
        if !Token(k) { return false; }
        p := p[k := capabilities[k]];
        todo := todo - {k};
      }
      assert p == capabilities;
      policy, this.version := p, version;
      ok := true;
    }

    /** One request, served under the lock. */
    method ServeHTTP(m: Message, drawn: Name) returns (reply: Reply)
      requires Consistent(State()) && Token(drawn) && drawn !in states
      modifies this
      ensures (State(), reply) == Serve(old(State()), m, drawn)
      ensures Consistent(State()) && Grows(old(State()), State())
    {
      ServeKeeps(State(), m, drawn);
      match m {
        case AdmitCall(r) => reply := Admit(r, drawn);
        case EventCall(e) => reply := Report(e);
      }
    }

    method Admit(r: AdmissionRequest, drawn: Name) returns (reply: Reply)
      requires Consistent(State()) && Token(drawn) && drawn !in states
      modifies this
      ensures (State(), reply) == ServeAdmit(old(State()), r, drawn)
    {
      var valid := CheckAdmission(r);
      if !valid { return Rejected(400); }
      if r.requestId in admissions {
        if admissions[r.requestId].request != r { return Rejected(409); }
        return Decided(admissions[r.requestId].decision);
      }
      if |admissions| >= limit { return Rejected(503); }
      var todo := admissions.Keys;
      while todo != {}
        invariant todo <= admissions.Keys
        invariant forall k | k in admissions.Keys - todo ::
          !(admissions[k].request.operation.id == r.operation.id && admissions[k].request.operation.session == r.operation.session)
        decreases |todo|
      {
        var k :| k in todo;
        if admissions[k].request.operation.id == r.operation.id && admissions[k].request.operation.session == r.operation.session {
          return Rejected(409);
        }
        todo := todo - {k};
      }
      var d := Decide(State(), r.capability);
      if d.allowed {
        d := d.(reservation := drawn);
        states := states[drawn := Admitted];
      }
      admissions := admissions[r.requestId := Admission(r, d)];
      reply := Decided(d);
    }

    method Report(e: Event) returns (reply: Reply)
      requires Consistent(State())
      modifies this
      ensures (State(), reply) == ServeEvent(old(State()), e)
    {
      var valid := CheckEvent(e);
      if !valid { return Rejected(400); }
      if e.eventId in events {
        if events[e.eventId] != e { return Rejected(409); }
        return Acked(e.eventId);
      }
      if |events| >= limit * 3 { return Rejected(503); }
      var held := ChecksReservation(e);
      if !held { return Rejected(409); }
      var taken := FindSequence(e);
      if taken { return Rejected(409); }
      if e.reservation !in states { return Rejected(409); }
      var state := states[e.reservation];
      if !((state == Admitted && (e.phase == Started || e.phase == Released)) || (state == Reported(Started) && e.phase == Completed)) {
        return Rejected(409);
      }
      events := events[e.eventId := e];
      states := states[e.reservation := Reported(e.phase)];
      reply := Acked(e.eventId);
    }

    method FindSequence(e: Event) returns (taken: bool)
      ensures taken <==> SequenceTaken(State(), e)
    {
      var todo := events.Keys;
      while todo != {}
        invariant todo <= events.Keys
        invariant forall k | k in events.Keys - todo ::
          !(events[k].operation.session == e.operation.session && events[k].sequence == e.sequence)
        decreases |todo|
      {
        var k :| k in todo;
        if events[k].operation.session == e.operation.session && events[k].sequence == e.sequence { return true; }
        todo := todo - {k};
      }
      taken := false;
    }

    /** The first admission found for a reservation decides: no other one holds it. */
    method ChecksReservation(e: Event) returns (held: bool)
      requires Consistent(State()) && Token(e.reservation)
      ensures held <==> exists k | k in State().admissions :: HoldsReservation(State(), e, k)
    {
      var admission := FindReservation(e.reservation);
      if admission.None? { return false; }
      var a := admission.value;
      held := a.request.operation == e.operation && a.decision.version == e.version;
      assert held ==> HoldsReservation(State(), e, a.request.requestId);
    }

    method FindReservation(reservation: Name) returns (found: Option<Admission>)
      requires Consistent(State()) && Token(reservation)
      ensures found.None? ==> forall k | k in admissions :: admissions[k].decision.reservation != reservation
      ensures found.Some? ==> var k := found.value.request.requestId;
        && k in admissions && admissions[k] == found.value && found.value.decision.reservation == reservation
        && forall j | j in admissions && admissions[j].decision.reservation == reservation :: j == k
    {
      var todo := admissions.Keys;
      while todo != {}
        invariant todo <= admissions.Keys
        invariant forall k | k in admissions.Keys - todo :: admissions[k].decision.reservation != reservation
        decreases |todo|
      {
        var k :| k in todo;
        if admissions[k].decision.reservation == reservation {
          forall j | j in admissions && admissions[j].decision.reservation == reservation ensures j == k {
            assert AdmissionsApart(State(), j, k);
          }
          return Some(admissions[k]);
        }
        todo := todo - {k};
      }
      found := None;
    }
  }
}
