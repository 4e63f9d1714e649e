/** Native uploads, image variants and deletions against the quota service, with lost and repeated messages,
    failed writes and failed deletes. */
module QuotaRun {
  import opened ByteStrings
  import opened QuotaLedger

  type Key = nat

  datatype Stage =
    | Asking       // the reservation is requested
    | Granted      // bytes may be written
    | Committed    // saved, the settlement is sent
    | Kept         // failed with objects left behind; the reservation stays
    | Freed        // failed and confirmed empty, the release is sent
    | Aborted      // denied or unavailable

  /** Where an object is stored: where the upload wrote it, or under the final key that a blob is copied to. */
  datatype Place = Original | Final

  datatype Object = Object(flow: Id, key: Key, place: Place)

  /** One upload of a set of objects: the files of a saved record, a stored blob, or one image variant. bound is
      what it reserves, at least their sizes together. live are the objects that its reservation or settlement
      counts, originals and finals those in the store at each place, credited those whose deletion was confirmed
      for credit. An object at both places is counted once. */
  datatype Flow = Flow(stage: Stage, blob: bool, uploads: map<Key, nat>, bound: nat, live: set<Key>,
                       originals: set<Key>, finals: set<Key>, credited: set<Key>) {
    function Present(): set<Key> { originals + finals }

    /** Stored at both places. */
    function Doubled(): set<Key> { originals * finals }

    function At(place: Place): set<Key> { if place.Original? then originals else finals }

    /** Credit for the object is covered: it is counted, gone, and not credited yet. */
    predicate Creditable(k: Key) { k in live && k !in credited && k !in Present() }
  }

  /** A deletion under one event id: a record update that removes files, the deletion of a stored blob with
      everything under its prefix, however often that is tried, or a blob reported lost. stash holds the objects it
      has listed and not yet counted as gone, taken those of them that it has removed itself, amount the bytes of
      those it has counted. */
  datatype Deletion = Deletion(stash: set<Object>, taken: set<Object>, amount: nat)

  /** missed holds the blobs whose finals some finalizer has looked for and not found; it may act on that later.
      over counts bytes confirmed for credit without cover: of an object that is credited already, or still stored
      at the other place, or whose reservation is given back. */
  datatype World = World(ledger: Ledger, flows: map<Id, Flow>, deletions: map<Id, Deletion>, missed: set<(Id, Key)>,
                         sent: set<Message>, replies: set<(Message, Reply)>, over: nat)

  datatype Step =
    | Begin(f: Id, blob: bool, uploads: map<Key, nat>, bound: nat)
    | Grant(f: Id)
    | Abort(f: Id)
    | Write(f: Id, k: Key)
    | Look(f: Id, k: Key)               // a finalizer does not find the final blob
    | Copy(f: Id, k: Key)               // and copies the original there
    | Remove(o: Object)                 // upstream, the clean-up of a failed save, or of the original after the copy
    | Fail(f: Id)
    | Commit(f: Id, kept: set<Key>)     // settles what the record keeps, whether or not it is still there
    | Open(d: Id)
    | Stash(d: Id, o: Object)           // the object is listed before it is deleted
    | Take(d: Id, o: Object)            // the deletion removes it
    | Confirm(d: Id, o: Object)         // it is gone, or was removed, and is counted
    | Lost(d: Id, f: Id, k: Key)        // the finalizer finds no original either, and reports the blob lost
    | Discard(d: Id)                    // the pass ends; what it did not see gone is not credited
    | SendCredit(d: Id, bytes: nat)     // what one pass saw gone
    | SetCapacity(capacity: int)
    | Deliver(m: Message)

  function Part(f: Flow, keys: set<Key>): map<Key, nat> {
    map k | k in keys && k in f.uploads :: f.uploads[k]
  }

  ghost function BytesOf(f: Flow, keys: set<Key>): nat { Sum(Part(f, keys)) }

  predicate IsStored(w: World, o: Object) { o.flow in w.flows && o.key in w.flows[o.flow].At(o.place) }

  ghost predicate Enabled(w: World, step: Step) {
    match step
    case Begin(f, blob, uploads, bound) => f !in w.flows && Sum(uploads) <= bound
    case Grant(f) => f in w.flows && w.flows[f].stage.Asking?
    case Abort(f) => f in w.flows && w.flows[f].stage.Asking?
    case Write(f, k) => f in w.flows && w.flows[f].stage.Granted? && k in w.flows[f].uploads && k !in w.flows[f].credited
    case Look(f, k) => f in w.flows && w.flows[f].blob && w.flows[f].stage.Committed? && k in w.flows[f].live && k !in w.flows[f].finals
    case Copy(f, k) => (f, k) in w.missed && f in w.flows && w.flows[f].stage.Committed? && k in w.flows[f].originals
    case Remove(o) => IsStored(w, o)
    case Fail(f) => f in w.flows && w.flows[f].stage.Granted?
    case Commit(f, kept) =>
      f in w.flows && w.flows[f].stage.Granted? && w.flows[f].Present() + w.flows[f].credited <= kept <= w.flows[f].uploads.Keys
    case Open(d) => d !in w.deletions
    case Stash(d, o) => d in w.deletions && IsStored(w, o)
    case Take(d, o) => d in w.deletions && o in w.deletions[d].stash && IsStored(w, o)
    case Confirm(d, o) =>
      && d in w.deletions && o in w.deletions[d].stash && o.flow in w.flows && o.key in w.flows[o.flow].uploads
      && (o in w.deletions[d].taken || o.key !in w.flows[o.flow].At(o.place))
    case Lost(d, f, k) =>
      d !in w.deletions && (f, k) in w.missed && f in w.flows && k !in w.flows[f].originals && k in w.flows[f].uploads
    case Discard(d) => d in w.deletions
    case SendCredit(d, bytes) => d in w.deletions && 0 < bytes <= w.deletions[d].amount
    case SetCapacity(capacity) => capacity >= w.ledger.capacity
    case Deliver(m) => m in w.sent
  }

  function PutFlow(w: World, id: Id, f: Flow): World { w.(flows := w.flows[id := f]) }

  function PutDeletion(w: World, d: Id, deletion: Deletion): World { w.(deletions := w.deletions[d := deletion]) }

  predicate GrantSeen(w: World, f: Id)
    requires f in w.flows
  {
    (Reserve(f, w.flows[f].bound), Decided(true)) in w.replies
  }

  function Taken(f: Flow, k: Key, place: Place): Flow {
    if place.Original? then f.(originals := f.originals - {k}) else f.(finals := f.finals - {k})
  }

  function Drop(w: World, o: Object): World
    requires o.flow in w.flows
  {
    PutFlow(w, o.flow, Taken(w.flows[o.flow], o.key, o.place))
  }

  /** The deletion once it has counted the object. */
  function Seen(w: World, d: Id, o: Object): Deletion
    requires d in w.deletions && o.flow in w.flows && o.key in w.flows[o.flow].uploads
  {
    Deletion(w.deletions[d].stash - {o}, w.deletions[d].taken - {o}, w.deletions[d].amount + w.flows[o.flow].uploads[o.key])
  }

  /** An object is counted for credit, with cover or without. */
  function Account(w: World, f: Id, k: Key): World
    requires f in w.flows && k in w.flows[f].uploads
  {
    var flow := w.flows[f];
    if flow.Creditable(k) then PutFlow(w, f, flow.(credited := flow.credited + {k})) else w.(over := w.over + flow.uploads[k])
  }

  ghost function Do(w: World, step: Step): World
    requires Enabled(w, step)
  {
    match step
    case Begin(f, blob, uploads, bound) =>
      PutFlow(w, f, Flow(Asking, blob, uploads, bound, {}, {}, {}, {})).(sent := w.sent + {Reserve(f, bound)})
    case Grant(f) =>
      if GrantSeen(w, f) then PutFlow(w, f, w.flows[f].(stage := Granted, live := w.flows[f].uploads.Keys)) else w
    case Abort(f) => PutFlow(w, f, w.flows[f].(stage := Aborted))
    case Write(f, k) => PutFlow(w, f, w.flows[f].(originals := w.flows[f].originals + {k}))
    case Look(f, k) => w.(missed := w.missed + {(f, k)})
    case Copy(f, k) => PutFlow(w, f, w.flows[f].(finals := w.flows[f].finals + {k}))
    case Remove(o) => Drop(w, o)
    case Fail(f) =>
      if w.flows[f].Present() == {}
      then PutFlow(w, f, w.flows[f].(stage := Freed, live := {}, credited := {}))
             .(sent := w.sent + {Release(f)}, over := w.over + BytesOf(w.flows[f], w.flows[f].credited))
      else PutFlow(w, f, w.flows[f].(stage := Kept))
    case Commit(f, kept) =>
      PutFlow(w, f, w.flows[f].(stage := Committed, live := kept)).(sent := w.sent + {Settle(f, BytesOf(w.flows[f], kept))})
    case Open(d) => PutDeletion(w, d, Deletion({}, {}, 0))
    case Stash(d, o) => PutDeletion(w, d, w.deletions[d].(stash := w.deletions[d].stash + {o}, taken := w.deletions[d].taken - {o}))
    case Take(d, o) =>
      PutDeletion(Drop(w, o), d, w.deletions[d].(taken := w.deletions[d].taken + {o}))
    case Confirm(d, o) => Account(PutDeletion(w, d, Seen(w, d, o)), o.flow, o.key)
    case Lost(d, f, k) => Account(PutDeletion(w, d, Deletion({}, {}, w.flows[f].uploads[k])), f, k)
    case Discard(d) => PutDeletion(w, d, w.deletions[d].(stash := {}, taken := {}))
    case SendCredit(d, bytes) => w.(sent := w.sent + {Credit(d, bytes)})
    case SetCapacity(capacity) => w.(ledger := w.ledger.(capacity := capacity))
    case Deliver(m) =>
      var (ledger, reply) := Serve(w.ledger, m);
      w.(ledger := ledger, replies := w.replies + {(m, reply)})
  }

  // ----- totals

  /** What a flow has in the store, at both places. */
  ghost function StoredBytes(f: Flow): nat { BytesOf(f, f.originals) + BytesOf(f, f.finals) }

  ghost function StoredBy(flows: map<Id, Flow>): map<Id, nat> { map f | f in flows :: StoredBytes(flows[f]) }

  ghost function DoubledBy(flows: map<Id, Flow>): map<Id, nat> { map f | f in flows :: BytesOf(flows[f], flows[f].Doubled()) }

  ghost function PresentBy(flows: map<Id, Flow>): map<Id, nat> { map f | f in flows :: BytesOf(flows[f], flows[f].Present()) }

  ghost function CreditedBy(flows: map<Id, Flow>): map<Id, nat> { map f | f in flows :: BytesOf(flows[f], flows[f].credited) }

  ghost function LiveBy(flows: map<Id, Flow>): map<Id, nat> { map f | f in flows :: BytesOf(flows[f], flows[f].live) }

  function AmountBy(deletions: map<Id, Deletion>): map<Id, nat> { map d | d in deletions :: deletions[d].amount }

  ghost function Stored(w: World): nat { Sum(StoredBy(w.flows)) }

  /** The bytes of objects that are stored at both places. */
  ghost function DoubledBytes(w: World): nat { Sum(DoubledBy(w.flows)) }

  ghost function CreditedBytes(w: World): nat { Sum(CreditedBy(w.flows)) }

  ghost function LiveBytes(w: World): nat { Sum(LiveBy(w.flows)) }

  ghost function Amounts(w: World): nat { Sum(AmountBy(w.deletions)) }

  // ----- the invariant

  /** The service's reservation for a flow that may own bytes. */
  ghost predicate Backed(s: Ledger, id: Id, f: Flow) {
    id in s.reservations && s.reservations[id].allowed && s.reservations[id].held == f.bound
    && match s.reservations[id].status
       case Open => true
       case Settled(charged) => f.stage.Committed? && charged == BytesOf(f, f.live)
       case Released => false
  }

  ghost predicate FlowOK(s: Ledger, id: Id, f: Flow) {
    var ok :=
      && f.Present() <= f.live && f.credited <= f.live && f.live <= f.uploads.Keys && f.Present() !! f.credited
      && Sum(f.uploads) <= f.bound
      && (match f.stage
          case Asking => f.live == {}
          case Aborted => f.live == {}
          case Freed => f.live == {}
          case Granted => f.live == f.uploads.Keys && Backed(s, id, f)
          case Kept => f.live == f.uploads.Keys && Backed(s, id, f)
          case Committed => Backed(s, id, f));
    ok
  }

  ghost predicate MessageOK(w: World, m: Message) {
    match m
    case Reserve(id, bytes) => id in w.flows && bytes == w.flows[id].bound
    case Settle(id, bytes) => id in w.flows && w.flows[id].stage.Committed? && bytes == BytesOf(w.flows[id], w.flows[id].live)
    case Release(id) => id in w.flows && w.flows[id].stage.Freed?
    case Credit(d, bytes) => d in w.deletions && bytes <= w.deletions[d].amount
  }

  ghost predicate ReservationFits(r: Reservation, f: Flow) {
    && r.request == f.bound
    && (r.status.Settled? ==> f.stage.Committed?) && (r.status.Released? ==> f.stage.Freed?)
  }

  ghost predicate LedgerOK(w: World) {
    var ok :=
      && Balanced(w.ledger)
      && (forall id | id in w.ledger.reservations :: id in w.flows && ReservationFits(w.ledger.reservations[id], w.flows[id]))
      && (forall d | d in w.ledger.credits :: d in w.deletions && w.ledger.credits[d] <= w.deletions[d].amount);
    ok
  }

  predicate ReplyOK(s: Ledger, m: Message, reply: Reply) {
    m.Reserve? && reply == Decided(true) ==> m.id in s.reservations && s.reservations[m.id].allowed
  }

  ghost predicate Inv(w: World) {
    var ok :=
      && LedgerOK(w) && MessagesOK(w) && StashesOK(w)
      && (forall f | f in w.flows :: FlowOK(w.ledger, f, w.flows[f]))
      && Amounts(w) == CreditedBytes(w) + w.over;
    ok
  }

  ghost predicate MessagesOK(w: World) {
    var ok :=
      && (forall m | m in w.sent :: MessageOK(w, m))
      && (forall p | p in w.replies :: ReplyOK(w.ledger, p.0, p.1));
    ok
  }

  predicate StashesOK(w: World) {
    var ok := forall d, i | d in w.deletions && i in w.deletions[d].stash :: StashOK(w, i);
    ok
  }

  /** A stashed object belongs to an upload. */
  predicate StashOK(w: World, o: Object) {
    o.flow in w.flows && o.key in w.flows[o.flow].uploads
  }

  // ----- every step keeps it

  /** A flow's record may change like this without touching what was said about it. */
  predicate Follows(f: Flow, g: Flow) {
    && g.uploads == f.uploads && g.bound == f.bound
    && (f.stage.Committed? ==> g.stage.Committed? && g.live == f.live)
    && (f.stage.Freed? ==> g.stage.Freed?)
  }

  lemma SameBytes(f: Flow, g: Flow, keys: set<Key>)
    requires f.uploads == g.uploads
    ensures BytesOf(f, keys) == BytesOf(g, keys)
  {
    assert Part(f, keys) == Part(g, keys);
  }

  lemma CreditedPut(flows: map<Id, Flow>, id: Id, g: Flow)
    ensures CreditedBy(flows[id := g]) == CreditedBy(flows)[id := BytesOf(g, g.credited)]
  {
  }

  lemma CreditedAfter(w: World, id: Id, g: Flow)
    ensures var v := PutFlow(w, id, g);
      CreditedBytes(v) == CreditedBytes(w) + BytesOf(g, g.credited) - (if id in w.flows then BytesOf(w.flows[id], w.flows[id].credited) else 0)
  {
    var v := PutFlow(w, id, g);
    SumPut(CreditedBy(w.flows), id, BytesOf(g, g.credited));
    CreditedPut(w.flows, id, g);
  }

  lemma AmountsAfter(w: World, d: Id, deletion: Deletion)
    ensures var v := PutDeletion(w, d, deletion);
      Amounts(v) == Amounts(w) + deletion.amount - (if d in w.deletions then w.deletions[d].amount else 0)
  {
    var v := w.(deletions := w.deletions[d := deletion]);
    SumPut(AmountBy(w.deletions), d, deletion.amount);
    assert AmountBy(v.deletions) == AmountBy(w.deletions)[d := deletion.amount];
  }

  lemma MessageStays(w: World, v: World, m: Message)
    requires MessageOK(w, m) && Onward(w, v)
    ensures MessageOK(v, m)
  {
    match m
    case Settle(id, bytes) => SameBytes(w.flows[id], v.flows[id], w.flows[id].live);
    case _ =>
  }

  /** What the rest of the world may rely on when flows and deletions move on. */
  predicate Onward(w: World, v: World) {
    var ok :=
      && (forall f | f in w.flows :: f in v.flows && Follows(w.flows[f], v.flows[f]))
      && (forall d | d in w.deletions :: d in v.deletions && w.deletions[d].amount <= v.deletions[d].amount);
    ok
  }

  lemma MessagesStay(w: World, v: World, m: Option<Message>)
    requires MessagesOK(w) && Onward(w, v) && v.ledger == w.ledger && v.replies == w.replies
    requires v.sent == if m.Some? then w.sent + {m.value} else w.sent
    requires m.Some? ==> MessageOK(v, m.value)
    ensures MessagesOK(v)
  {
    forall n | n in v.sent ensures MessageOK(v, n) {
      if n in w.sent { MessageStays(w, v, n); }
    }
  }

  lemma StashesStay(w: World, v: World)
    requires StashesOK(w) && Onward(w, v)
    requires forall d | d in v.deletions :: v.deletions[d].stash == {} || (d in w.deletions && v.deletions[d].stash <= w.deletions[d].stash)
    ensures StashesOK(v)
  {
    forall d, i | d in v.deletions && i in v.deletions[d].stash ensures StashOK(v, i) { assert StashOK(w, i); }
  }

  lemma LedgerStays(w: World, v: World)
    requires LedgerOK(w) && v.ledger == w.ledger && Onward(w, v)
    ensures LedgerOK(v)
  {
    forall id | id in v.ledger.reservations ensures id in v.flows && ReservationFits(v.ledger.reservations[id], v.flows[id]) {
      assert ReservationFits(w.ledger.reservations[id], w.flows[id]);
    }
  }

  function Say(w: World, m: Option<Message>): World { w.(sent := if m.Some? then w.sent + {m.value} else w.sent) }

  function Lose(w: World, lost: nat): World { w.(over := w.over + lost) }

  /** A step of one flow that sends at most one message about it; lost are bytes credited to it that it no longer
      answers for. */
  lemma FlowStep(w: World, id: Id, g: Flow, m: Option<Message>, lost: nat)
    requires Inv(w) && FlowOK(w.ledger, id, g)
    requires if id in w.flows then Follows(w.flows[id], g) && BytesOf(g, g.credited) + lost == BytesOf(w.flows[id], w.flows[id].credited)
             else g.credited == {} && lost == 0 && id !in w.ledger.reservations
    requires var v := PutFlow(w, id, g); m.Some? ==> MessageOK(v, m.value)
    ensures Inv(Lose(Say(PutFlow(w, id, g), m), lost))
  {
    var u := Say(PutFlow(w, id, g), m);
    var v := Lose(u, lost);
    LedgerStays(w, v);
    MessagesStay(w, v, m);
    StashesStay(w, v);
    FlowTotals(w, v, id, g, lost);
  }

  lemma FlowTotals(w: World, v: World, id: Id, g: Flow, lost: nat)
    requires v.flows == w.flows[id := g] && v.deletions == w.deletions
    requires if id in w.flows then BytesOf(g, g.credited) + lost == BytesOf(w.flows[id], w.flows[id].credited) else g.credited == {} && lost == 0
    ensures CreditedBytes(v) + lost == CreditedBytes(w) && Amounts(v) == Amounts(w)
  {
    CreditedAfter(w, id, g);
    if id !in w.flows { assert Part(g, {}).Keys == {}; }
  }

  /** A step of one flow that answers for all it answered for. */
  lemma FlowGoesOn(w: World, id: Id, g: Flow, m: Option<Message>)
    requires Inv(w) && FlowOK(w.ledger, id, g)
    requires if id in w.flows then Follows(w.flows[id], g) && g.credited == w.flows[id].credited
             else g.credited == {} && id !in w.ledger.reservations
    requires m.Some? ==> MessageOK(PutFlow(w, id, g), m.value)
    ensures Inv(Say(PutFlow(w, id, g), m))
  {
    if id in w.flows { SameBytes(w.flows[id], g, g.credited); }
    FlowStep(w, id, g, m, 0);
  }

  lemma BeginKeeps(w: World, f: Id, blob: bool, uploads: map<Key, nat>, bound: nat)
    requires Inv(w) && Enabled(w, Begin(f, blob, uploads, bound))
    ensures Inv(Do(w, Begin(f, blob, uploads, bound)))
  {
    var g := Flow(Asking, blob, uploads, bound, {}, {}, {}, {});
    FlowGoesOn(w, f, g, Some(Reserve(f, bound)));
  }

  lemma GrantKeeps(w: World, f: Id)
    requires Inv(w) && Enabled(w, Grant(f))
    ensures Inv(Do(w, Grant(f)))
  {
    if GrantSeen(w, f) {
      var flow := w.flows[f];
      var g := flow.(stage := Granted, live := flow.uploads.Keys);
      var p := (Reserve(f, flow.bound), Decided(true));
      assert p in w.replies && ReplyOK(w.ledger, p.0, p.1);
      assert ReservationFits(w.ledger.reservations[f], flow) && ReservationOK(w.ledger.reservations[f]);
      assert FlowOK(w.ledger, f, flow);
      FlowGoesOn(w, f, g, None);
    }
  }

  /** Steps of a flow that keep its backing as it is. */
  lemma BackedStays(s: Ledger, id: Id, f: Flow, g: Flow)
    requires Backed(s, id, f) && g.uploads == f.uploads && g.bound == f.bound && g.live == f.live
    requires f.stage.Committed? ==> g.stage.Committed?
    ensures Backed(s, id, g)
  {
    SameBytes(f, g, f.live);
  }

  /** Steps that only move a flow's objects, or end it before it writes. */
  predicate OnObjects(step: Step) { step.Write? || step.Copy? || step.Remove? || step.Abort? }

  function FlowOf(step: Step): Id
    requires OnObjects(step)
  {
    if step.Remove? then step.o.flow else step.f
  }

  lemma ObjectStepFlow(s: Ledger, w: World, step: Step)
    requires Enabled(w, step) && OnObjects(step) && FlowOK(s, FlowOf(step), w.flows[FlowOf(step)])
    ensures FlowOK(s, FlowOf(step), Do(w, step).flows[FlowOf(step)])
  {
    var flow, g := w.flows[FlowOf(step)], Do(w, step).flows[FlowOf(step)];
    if flow.stage.Granted? || flow.stage.Kept? || flow.stage.Committed? { BackedStays(s, FlowOf(step), flow, g); }
  }

  lemma ObjectStepMoves(w: World, step: Step)
    requires Enabled(w, step) && OnObjects(step)
    ensures var flow, g := w.flows[FlowOf(step)], Do(w, step).flows[FlowOf(step)];
      Do(w, step) == PutFlow(w, FlowOf(step), g) && Follows(flow, g) && g.credited == flow.credited
  {
  }

  lemma ObjectStepKeeps(w: World, step: Step)
    requires Inv(w) && Enabled(w, step) && OnObjects(step)
    ensures Inv(Do(w, step))
  {
    var id := FlowOf(step);
    assert FlowOK(w.ledger, id, w.flows[id]);
    ObjectStepFlow(w.ledger, w, step);
    ObjectStepMoves(w, step);
    FlowGoesOn(w, id, Do(w, step).flows[id], None);
  }

  lemma TakeKeeps(w: World, d: Id, o: Object)
    requires Inv(w) && Enabled(w, Take(d, o))
    ensures Inv(Do(w, Take(d, o)))
  {
    ObjectStepKeeps(w, Remove(o));
    MarkKeeps(Do(w, Remove(o)), d, w.deletions[d].(taken := w.deletions[d].taken + {o}));
  }

  /** A deletion remembers what it has removed. */
  lemma MarkKeeps(w: World, d: Id, deletion: Deletion)
    requires Inv(w) && d in w.deletions && deletion.stash == w.deletions[d].stash && deletion.amount == w.deletions[d].amount
    ensures Inv(PutDeletion(w, d, deletion))
  {
    var v := PutDeletion(w, d, deletion);
    AmountsAfter(w, d, deletion);
    StashesStay(w, v);
    Reassemble(w, v);
  }

  lemma LookKeeps(w: World, f: Id, k: Key)
    requires Inv(w) && Enabled(w, Look(f, k))
    ensures Inv(Do(w, Look(f, k)))
  {
    var v := Do(w, Look(f, k));
    StashesStay(w, v);
    Reassemble(w, v);
  }

  lemma FreedFlow(s: Ledger, id: Id, flow: Flow)
    requires FlowOK(s, id, flow) && flow.Present() == {}
    ensures FlowOK(s, id, flow.(stage := Freed, live := {}, credited := {}))
    ensures var g := flow.(stage := Freed, live := {}, credited := {}); BytesOf(g, g.credited) == 0
  {
    var g := flow.(stage := Freed, live := {}, credited := {});
    assert Part(g, {}).Keys == {};
  }

  lemma FreedIs(w: World, f: Id)
    requires Enabled(w, Fail(f)) && w.flows[f].Present() == {}
    ensures var flow := w.flows[f];
      var g := flow.(stage := Freed, live := {}, credited := {});
      Do(w, Fail(f)) == Lose(Say(PutFlow(w, f, g), Some(Release(f))), BytesOf(flow, flow.credited))
  {
  }

  lemma FreedKeeps(w: World, f: Id)
    requires Inv(w) && Enabled(w, Fail(f)) && w.flows[f].Present() == {}
    ensures Inv(Do(w, Fail(f)))
  {
    var flow := w.flows[f];
    var g := flow.(stage := Freed, live := {}, credited := {});
    assert FlowOK(w.ledger, f, flow);
    FreedFlow(w.ledger, f, flow);
    var lost := BytesOf(flow, flow.credited);
    FlowStep(w, f, g, Some(Release(f)), lost);
    FreedIs(w, f);
  }

  lemma KeptKeeps(w: World, f: Id)
    requires Inv(w) && Enabled(w, Fail(f)) && w.flows[f].Present() != {}
    ensures Inv(Do(w, Fail(f)))
  {
    var flow := w.flows[f];
    assert FlowOK(w.ledger, f, flow);
    var g := flow.(stage := Kept);
    BackedStays(w.ledger, f, flow, g);
    FlowGoesOn(w, f, g, None);
  }

  lemma FailKeeps(w: World, f: Id)
    requires Inv(w) && Enabled(w, Fail(f))
    ensures Inv(Do(w, Fail(f)))
  {
    if w.flows[f].Present() == {} { FreedKeeps(w, f); } else { KeptKeeps(w, f); }
  }

  lemma CommittedFlow(w: World, f: Id, kept: set<Key>)
    requires LedgerOK(w) && Enabled(w, Commit(f, kept)) && FlowOK(w.ledger, f, w.flows[f])
    ensures FlowOK(w.ledger, f, w.flows[f].(stage := Committed, live := kept))
  {
    NotSettledYet(w, f);
  }

  lemma CommitKeeps(w: World, f: Id, kept: set<Key>)
    requires Inv(w) && Enabled(w, Commit(f, kept))
    ensures Inv(Do(w, Commit(f, kept)))
  {
    var flow := w.flows[f];
    var g := flow.(stage := Committed, live := kept);
    assert FlowOK(w.ledger, f, flow);
    CommittedFlow(w, f, kept);
    SameBytes(flow, g, kept);
    FlowGoesOn(w, f, g, Some(Settle(f, BytesOf(flow, kept))));
  }

  lemma NotSettledYet(w: World, f: Id)
    requires LedgerOK(w) && f in w.flows && w.flows[f].stage.Granted? && Backed(w.ledger, f, w.flows[f])
    ensures w.ledger.reservations[f].status.Open?
  {
    assert ReservationFits(w.ledger.reservations[f], w.flows[f]);
  }

  predicate OnDeletion(step: Step) { step.Open? || step.Stash? || step.Discard? || step.SendCredit? }

  lemma DeletionMoves(w: World, step: Step)
    requires Enabled(w, step) && OnDeletion(step)
    ensures Onward(w, Do(w, step))
  {
  }

  lemma DeletionAmounts(w: World, step: Step)
    requires Enabled(w, step) && OnDeletion(step)
    ensures Amounts(Do(w, step)) == Amounts(w)
  {
    var v := Do(w, step);
    if !step.SendCredit? { AmountsAfter(w, step.d, v.deletions[step.d]); }
  }

  lemma DeletionStepKeeps(w: World, step: Step)
    requires Inv(w) && Enabled(w, step) && OnDeletion(step)
    ensures Inv(Do(w, step))
  {
    var v := Do(w, step);
    DeletionMoves(w, step);
    LedgerStays(w, v);
    MessagesStay(w, v, if step.SendCredit? then Some(Credit(step.d, step.bytes)) else None);
    if step.Stash? { StashAdds(w, step.d, step.o); } else { StashesStay(w, v); }
    DeletionAmounts(w, step);
  }

  lemma StashAdds(w: World, d: Id, o: Object)
    requires Inv(w) && Enabled(w, Stash(d, o))
    ensures StashesOK(Do(w, Stash(d, o)))
  {
    var v := Do(w, Stash(d, o));
    assert FlowOK(w.ledger, o.flow, w.flows[o.flow]);
    forall e, i | e in v.deletions && i in v.deletions[e].stash ensures StashOK(v, i) {
      if i != o { assert StashOK(w, i); }
    }
  }

  lemma ConfirmBytes(f: Flow, k: Key)
    requires k in f.uploads && k !in f.credited
    ensures BytesOf(f, f.credited + {k}) == BytesOf(f, f.credited) + f.uploads[k]
  {
    SumPut(Part(f, f.credited), k, f.uploads[k]);
    assert Part(f, f.credited + {k}) == Part(f, f.credited)[k := f.uploads[k]];
  }

  lemma AccountKeepsFlow(s: Ledger, id: Id, flow: Flow, k: Key)
    requires FlowOK(s, id, flow) && flow.Creditable(k)
    ensures FlowOK(s, id, flow.(credited := flow.credited + {k}))
  {
    if flow.stage.Granted? || flow.stage.Kept? || flow.stage.Committed? {
      BackedStays(s, id, flow, flow.(credited := flow.credited + {k}));
    }
  }

  lemma AccountTotals(w: World, f: Id, k: Key)
    requires f in w.flows && k in w.flows[f].uploads
    ensures var v := Account(w, f, k);
      CreditedBytes(v) + v.over == CreditedBytes(w) + w.over + w.flows[f].uploads[k] && Amounts(v) == Amounts(w)
  {
    var v, flow := Account(w, f, k), w.flows[f];
    if flow.Creditable(k) {
      var g := flow.(credited := flow.credited + {k});
      CreditedAfter(w, f, g);
      ConfirmBytes(flow, k);
      SameBytes(flow, g, g.credited);
    }
  }

  /** A step that sends nothing. */
  lemma Reassemble(w: World, v: World)
    requires Inv(w) && Onward(w, v) && v.ledger == w.ledger && v.sent == w.sent && v.replies == w.replies
    requires forall id | id in v.flows :: FlowOK(v.ledger, id, v.flows[id])
    requires StashesOK(v) && Amounts(v) == CreditedBytes(v) + v.over
    ensures Inv(v)
  {
    LedgerStays(w, v);
    MessagesStay(w, v, None);
  }

  /** A deletion counts one object more. */
  predicate Counts(w: World, d: Id, deletion: Deletion, f: Id, k: Key) {
    && (deletion.taken == {} || (d in w.deletions && deletion.taken <= w.deletions[d].taken))
    && f in w.flows && k in w.flows[f].uploads
    && deletion.amount == (if d in w.deletions then w.deletions[d].amount else 0) + w.flows[f].uploads[k]
    && (deletion.stash == {} || (d in w.deletions && deletion.stash <= w.deletions[d].stash))
  }

  lemma AccountFrame(w: World, d: Id, deletion: Deletion, f: Id, k: Key)
    requires StashesOK(w) && Counts(w, d, deletion, f, k)
    ensures var v := Account(PutDeletion(w, d, deletion), f, k); Onward(w, v) && StashesOK(v)
  {
    StashesStay(w, Account(PutDeletion(w, d, deletion), f, k));
  }

  lemma AccountKeeps(w: World, d: Id, deletion: Deletion, f: Id, k: Key)
    requires Inv(w) && Counts(w, d, deletion, f, k)
    ensures Inv(Account(PutDeletion(w, d, deletion), f, k))
  {
    var u := PutDeletion(w, d, deletion);
    var v := Account(u, f, k);
    AmountsAfter(w, d, deletion);
    AccountTotals(u, f, k);
    AccountFrame(w, d, deletion, f, k);
    forall id | id in v.flows ensures FlowOK(v.ledger, id, v.flows[id]) {
      assert FlowOK(w.ledger, id, w.flows[id]);
      if id == f && w.flows[f].Creditable(k) { AccountKeepsFlow(w.ledger, f, w.flows[f], k); }
    }
    Reassemble(w, v);
  }

  lemma ConfirmKeeps(w: World, d: Id, o: Object)
    requires Inv(w) && Enabled(w, Confirm(d, o))
    ensures Inv(Do(w, Confirm(d, o)))
  {
    AccountKeeps(w, d, Seen(w, d, o), o.flow, o.key);
  }

  lemma LostKeeps(w: World, d: Id, f: Id, k: Key)
    requires Inv(w) && Enabled(w, Lost(d, f, k))
    ensures Inv(Do(w, Lost(d, f, k)))
  {
    AccountKeeps(w, d, Deletion({}, {}, w.flows[f].uploads[k]), f, k);
  }

  // ----- delivery

  lemma DeliveredFlow(w: World, m: Message, id: Id)
    requires id in w.flows && FlowOK(w.ledger, id, w.flows[id]) && MessageOK(w, m)
    ensures FlowOK(Serve(w.ledger, m).0, id, w.flows[id])
  {
  }

  lemma DeliveredReservations(w: World, m: Message)
    requires LedgerOK(w) && MessageOK(w, m)
    ensures var t := Serve(w.ledger, m).0;
      forall id | id in t.reservations :: id in w.flows && ReservationFits(t.reservations[id], w.flows[id])
  {
    var t := Serve(w.ledger, m).0;
    forall id | id in t.reservations ensures id in w.flows && ReservationFits(t.reservations[id], w.flows[id]) {
      if id in w.ledger.reservations { assert ReservationFits(w.ledger.reservations[id], w.flows[id]); }
    }
  }

  lemma DeliverKeeps(w: World, m: Message)
    requires Inv(w) && Enabled(w, Deliver(m))
    ensures Inv(Do(w, Deliver(m)))
  {
    var v := Do(w, Deliver(m));
    assert MessagesOK(w) && MessageOK(w, m);
    assert Onward(w, v);
    DeliveredLedger(w, m);
    DeliveredReplies(w, m);
    StashesStay(w, v);
    forall f | f in v.flows ensures FlowOK(v.ledger, f, v.flows[f]) { DeliveredFlow(w, m, f); }
  }

  lemma DeliveredLedger(w: World, m: Message)
    requires LedgerOK(w) && MessageOK(w, m) && m in w.sent
    ensures LedgerOK(Do(w, Deliver(m)))
  {
    ServeKeeps(w.ledger, m);
    DeliveredReservations(w, m);
    DeliveredCredits(w, m);
  }

  lemma DeliveredCredits(w: World, m: Message)
    requires LedgerOK(w) && MessageOK(w, m)
    ensures var t := Serve(w.ledger, m).0;
      forall d | d in t.credits :: d in w.deletions && t.credits[d] <= w.deletions[d].amount
  {
  }

  lemma DeliveredReplies(w: World, m: Message)
    requires MessagesOK(w) && m in w.sent
    ensures MessagesOK(Do(w, Deliver(m)))
  {
    var v := Do(w, Deliver(m));
    assert Onward(w, v);
    forall n | n in v.sent ensures MessageOK(v, n) { MessageStays(w, v, n); }
    forall p | p in v.replies ensures ReplyOK(v.ledger, p.0, p.1) {
      if p in w.replies { assert ReplyOK(w.ledger, p.0, p.1); }
    }
  }

  lemma CapacityKeeps(w: World, capacity: int)
    requires Inv(w) && Enabled(w, SetCapacity(capacity))
    ensures Inv(Do(w, SetCapacity(capacity)))
  {
    var v := Do(w, SetCapacity(capacity));
    assert Onward(w, v);
    assert LedgerOK(v);
    assert MessagesOK(v) by {
      forall m | m in v.sent ensures MessageOK(v, m) { MessageStays(w, v, m); }
      forall p | p in v.replies ensures ReplyOK(v.ledger, p.0, p.1) { assert ReplyOK(w.ledger, p.0, p.1); }
    }
    forall f | f in v.flows ensures FlowOK(v.ledger, f, v.flows[f]) { assert FlowOK(w.ledger, f, w.flows[f]); }
    StashesStay(w, v);
  }

  lemma StepKeeps(w: World, step: Step)
    requires Inv(w) && Enabled(w, step)
    ensures Inv(Do(w, step))
  {
    match step
    case Begin(f, blob, uploads, bound) => BeginKeeps(w, f, blob, uploads, bound);
    case Grant(f) => GrantKeeps(w, f);
    case Abort(_) => ObjectStepKeeps(w, step);
    case Write(_, _) => ObjectStepKeeps(w, step);
    case Look(f, k) => LookKeeps(w, f, k);
    case Copy(_, _) => ObjectStepKeeps(w, step);
    case Remove(_) => ObjectStepKeeps(w, step);
    case Fail(f) => FailKeeps(w, f);
    case Commit(f, kept) => CommitKeeps(w, f, kept);
    case Open(_) => DeletionStepKeeps(w, step);
    case Stash(_, _) => DeletionStepKeeps(w, step);
    case Discard(_) => DeletionStepKeeps(w, step);
    case SendCredit(_, _) => DeletionStepKeeps(w, step);
    case Take(d, o) => TakeKeeps(w, d, o);
    case Confirm(d, o) => ConfirmKeeps(w, d, o);
    case Lost(d, f, k) => LostKeeps(w, d, f, k);
    case SetCapacity(capacity) => CapacityKeeps(w, capacity);
    case Deliver(m) => DeliverKeeps(w, m);
  }

  // ----- the charge covers what is stored

  lemma FlowCovered(w: World, id: Id)
    requires Inv(w) && id in w.flows
    ensures var f := w.flows[id];
      && BytesOf(f, f.Present()) + BytesOf(f, f.credited) <= BytesOf(f, f.live)
      && (BytesOf(f, f.live) == 0 || (id in w.ledger.reservations && BytesOf(f, f.live) <= Weight(w.ledger.reservations[id])))
  {
    var f := w.flows[id];
    assert FlowOK(w.ledger, id, f);
    SumOfParts(Part(f, f.Present()), Part(f, f.credited), Part(f, f.live));
    if f.live == {} { assert Part(f, {}).Keys == {}; }
    SumMonotone(Part(f, f.live), f.uploads);
  }

  lemma LiveCovers(w: World)
    requires Inv(w)
    ensures Sum(PresentBy(w.flows)) + CreditedBytes(w) <= LiveBytes(w)
  {
    var present, credited, live := PresentBy(w.flows), CreditedBy(w.flows), LiveBy(w.flows);
    forall f | f in w.flows ensures present[f] + credited[f] <= live[f] { FlowCovered(w, f); }
    SumAdds(present, credited, live);
  }

  /** Both places together hold what is present, and the doubled objects once more. */
  lemma PlacesAdd(f: Flow)
    ensures StoredBytes(f) == BytesOf(f, f.Present()) + BytesOf(f, f.Doubled())
  {
    BytesAdd(f, f.originals, f.finals);
  }

  lemma {:induction false} BytesAdd(f: Flow, a: set<Key>, b: set<Key>)
    ensures BytesOf(f, a) + BytesOf(f, b) == BytesOf(f, a + b) + BytesOf(f, a * b)
    decreases |b|
  {
    if b == {} {
      assert a + b == a && a * b == b;
    } else {
      var k :| k in b;
      BytesAdd(f, a, b - {k});
      BytesPlus(f, b - {k}, k);
      assert b - {k} + {k} == b;
      if k in a {
        BytesPlus(f, a * b - {k}, k);
        assert a + (b - {k}) == a + b && a * (b - {k}) == a * b - {k} && a * b - {k} + {k} == a * b;
      } else {
        BytesPlus(f, a + (b - {k}), k);
        assert a + (b - {k}) + {k} == a + b && a * (b - {k}) == a * b;
      }
    }
  }

  lemma BytesPlus(f: Flow, keys: set<Key>, k: Key)
    requires k !in keys
    ensures BytesOf(f, keys + {k}) == BytesOf(f, keys) + if k in f.uploads then f.uploads[k] else 0
  {
    if k in f.uploads {
      SumPut(Part(f, keys), k, f.uploads[k]);
      assert Part(f, keys + {k}) == Part(f, keys)[k := f.uploads[k]];
    } else {
      assert Part(f, keys + {k}) == Part(f, keys);
    }
  }

  lemma StoredSplits(w: World)
    ensures Stored(w) <= Sum(PresentBy(w.flows)) + DoubledBytes(w)
  {
    var stored, present, doubled := StoredBy(w.flows), PresentBy(w.flows), DoubledBy(w.flows);
    forall f | f in w.flows ensures stored[f] == present[f] + doubled[f] { PlacesAdd(w.flows[f]); }
    SumBelow(stored, present, doubled);
  }

  lemma WeightsCover(w: World)
    requires Inv(w)
    ensures LiveBytes(w) <= Weights(w.ledger)
  {
    var live, weights := LiveBy(w.flows), WeightBy(w.ledger.reservations);
    forall f | f in live ensures live[f] == 0 || (f in weights && live[f] <= weights[f]) { FlowCovered(w, f); }
    SumMonotone(live, weights);
  }

  /** Used and open reservations, plus what was credited without cover, cover every stored object once. */
  lemma ChargeCovers(w: World)
    requires Inv(w)
    ensures Charge(w.ledger) + w.over + DoubledBytes(w) >= Stored(w)
  {
    StoredSplits(w);
    LiveCovers(w);
    WeightsCover(w);
    CreditsCovered(w);
    assert LedgerOK(w) && Balanced(w.ledger);
    assert Amounts(w) == CreditedBytes(w) + w.over;
  }

  lemma CreditsCovered(w: World)
    requires LedgerOK(w)
    ensures Sum(w.ledger.credits) <= Amounts(w)
  {
    SumMonotone(w.ledger.credits, AmountBy(w.deletions));
  }

  // ----- runs

  predicate Initial(w: World) {
    && w.ledger.used == 0 && w.ledger.reservations == map[] && w.ledger.credits == map[]
    && w.flows == map[] && w.deletions == map[] && w.missed == {} && w.sent == {} && w.replies == {} && w.over == 0
  }

  ghost predicate StepAt(ws: seq<World>, steps: seq<Step>, i: nat)
    requires i < |steps| && |ws| == |steps| + 1
  {
    var ok := Enabled(ws[i], steps[i]) && ws[i + 1] == Do(ws[i], steps[i]);
    ok
  }

  ghost predicate Run(ws: seq<World>, steps: seq<Step>) {
    |ws| == |steps| + 1 && Initial(ws[0]) && forall i | 0 <= i < |steps| :: StepAt(ws, steps, i)
  }

  lemma InitialInv(w: World)
    requires Initial(w)
    ensures Inv(w)
  {
    assert HeldIn(w.ledger.reservations, {}).Keys == {};
    assert WeightBy(w.ledger.reservations).Keys == {} && CreditedBy(w.flows).Keys == {} && AmountBy(w.deletions).Keys == {};
  }

  lemma {:induction false} InvAlways(ws: seq<World>, steps: seq<Step>, i: nat)
    requires Run(ws, steps) && i < |ws|
    ensures Inv(ws[i])
  {
    if i == 0 {
      InitialInv(ws[0]);
    } else {
      InvAlways(ws, steps, i - 1);
      assert StepAt(ws, steps, i - 1);
      StepKeeps(ws[i - 1], steps[i - 1]);
    }
  }

  predicate SetsCapacity(steps: seq<Step>, i: nat)
    requires i < |steps|
  {
    steps[i].SetCapacity?
  }

  /** The capacity is the one that was set last. */
  lemma {:induction false} CapacityIsTheLastSet(ws: seq<World>, steps: seq<Step>, i: nat, j: nat, capacity: int)
    requires Run(ws, steps) && i < j < |ws| && steps[i] == SetCapacity(capacity)
    requires forall k | i < k < j :: !SetsCapacity(steps, k)
    ensures ws[j].ledger.capacity == capacity
  {
    assert StepAt(ws, steps, j - 1);
    if i < j - 1 {
      assert !SetsCapacity(steps, j - 1);
      CapacityIsTheLastSet(ws, steps, i, j - 1, capacity);
    }
  }

  /** From an empty store, with lost messages, failed saves and failed deletes, the charge never passes the
      capacity while that is not lowered. */
  lemma ChargeStaysWithinCapacity(ws: seq<World>, steps: seq<Step>, i: nat)
    requires Run(ws, steps) && i < |ws| && ws[i].ledger.capacity >= 0
    ensures 0 <= Charge(ws[i].ledger) <= ws[i].ledger.capacity
  {
    InvAlways(ws, steps, i);
    assert LedgerOK(ws[i]);
  }

  /** Nor does it fall below the bytes stored by more than the blobs that are stored at both places, and what was
      credited without cover. */
  lemma ChargeCoversAlways(ws: seq<World>, steps: seq<Step>, i: nat)
    requires Run(ws, steps) && i < |ws|
    ensures Charge(ws[i].ledger) + ws[i].over + DoubledBytes(ws[i]) >= Stored(ws[i])
  {
    InvAlways(ws, steps, i);
    ChargeCovers(ws[i]);
  }

  /** Some deletion lists the object, at either place. */
  predicate Listed(w: World, f: Id, k: Key) {
    exists d, o | d in w.deletions && o in w.deletions[d].stash :: o.flow == f && o.key == k
  }

  function Other(place: Place): Place { if place.Original? then Final else Original }

  /** An object is listed by one deletion at a time, at one place only, and not while its write is undecided, so that
      it may yet be given back. A blob is not copied once it is listed, and reported lost only when it is gone,
      neither listed nor credited. */
  predicate Careful(w: World, step: Step) {
    match step
    case Stash(_, o) =>
      && !Listed(w, o.flow, o.key) && o.flow in w.flows && !w.flows[o.flow].stage.Granted?
      && o.key !in w.flows[o.flow].At(Other(o.place))
    case Copy(f, k) => !Listed(w, f, k)
    case Lost(_, f, k) => !Listed(w, f, k) && f in w.flows && w.flows[f].Creditable(k)
    case _ => true
  }

  /** The reservation stays or is settled. */
  predicate Firm(f: Flow) { f.stage.Kept? || f.stage.Committed? }

  /** Credit for a listed object will be covered. */
  predicate WillBeCovered(w: World, o: Object) {
    && o.flow in w.flows && Firm(w.flows[o.flow]) && o.key in w.flows[o.flow].live && o.key !in w.flows[o.flow].credited
    && o.key !in w.flows[o.flow].At(Other(o.place))
  }

  /** No other listing is of the same object. */
  predicate OnlyListing(w: World, d: Id, o: Object) {
    var ok := forall e, p | e in w.deletions && p in w.deletions[e].stash :: p.flow == o.flow && p.key == o.key ==> e == d && p == o;
    ok
  }

  predicate ListingOK(w: World, d: Id, o: Object) {
    var ok := WillBeCovered(w, o) && OnlyListing(w, d, o) && (d in w.deletions && o in w.deletions[d].taken ==> o.key !in w.flows[o.flow].At(o.place));
    ok
  }

  predicate ListingsOK(w: World) {
    var ok := forall d, o | d in w.deletions && o in w.deletions[d].stash :: ListingOK(w, d, o);
    ok
  }

  predicate Exclusive(w: World) {
    var ok := w.over == 0 && ListingsOK(w) && forall f | f in w.flows :: w.flows[f].credited == {} || Firm(w.flows[f]);
    ok
  }

  /** A listing stays good when no other listing comes and its object goes nowhere. */
  lemma ListingStays(w: World, v: World, d: Id, o: Object)
    requires ListingOK(w, d, o) && WillBeCovered(v, o)
    requires forall e, p | e in v.deletions && p in v.deletions[e].stash ::
      (e in w.deletions && p in w.deletions[e].stash) || p.flow != o.flow || p.key != o.key
    requires d in v.deletions && o in v.deletions[d].taken ==> o.key !in v.flows[o.flow].At(o.place)
    ensures ListingOK(v, d, o)
  {
  }

  lemma ExclusiveStash(w: World, d: Id, o: Object)
    requires Enabled(w, Stash(d, o)) && Careful(w, Stash(d, o)) && Exclusive(w) && Inv(w)
    ensures Exclusive(Do(w, Stash(d, o)))
  {
    assert FlowOK(w.ledger, o.flow, w.flows[o.flow]);
    var v := Do(w, Stash(d, o));
    assert WillBeCovered(v, o) && OnlyListing(v, d, o);
    forall e, p | e in v.deletions && p in v.deletions[e].stash ensures ListingOK(v, e, p) {
      if p != o || e != d {
        assert ListingOK(w, e, p);
        ListingStays(w, v, e, p);
      }
    }
  }

  /** A covered object is counted, and no deletion lists it any more. */
  lemma ExclusiveAccount(w: World, d: Id, deletion: Deletion, f: Id, k: Key)
    requires Exclusive(w) && Counts(w, d, deletion, f, k) && w.flows[f].Creditable(k) && Firm(w.flows[f])
    requires forall e, o | e in w.deletions && o in w.deletions[e].stash && o.flow == f && o.key == k :: e == d && o !in deletion.stash
    ensures Exclusive(Account(PutDeletion(w, d, deletion), f, k))
  {
    var v := Account(PutDeletion(w, d, deletion), f, k);
    forall e, o | e in v.deletions && o in v.deletions[e].stash ensures ListingOK(v, e, o) {
      assert ListingOK(w, e, o);
      ListingStays(w, v, e, o);
    }
  }

  lemma ExclusiveConfirm(w: World, d: Id, o: Object)
    requires Enabled(w, Confirm(d, o)) && Exclusive(w)
    ensures Exclusive(Do(w, Confirm(d, o)))
  {
    assert ListingOK(w, d, o);
    ExclusiveAccount(w, d, Seen(w, d, o), o.flow, o.key);
  }

  /** A blob that a finalizer missed is a settled one. */
  predicate MissedOK(w: World) {
    var ok := forall i | i in w.missed :: i.0 in w.flows && w.flows[i.0].stage.Committed?;
    ok
  }

  lemma ExclusiveLost(w: World, d: Id, f: Id, k: Key)
    requires Enabled(w, Lost(d, f, k)) && Careful(w, Lost(d, f, k)) && Exclusive(w) && MissedOK(w)
    ensures Exclusive(Do(w, Lost(d, f, k)))
  {
    ExclusiveAccount(w, d, Deletion({}, {}, w.flows[f].uploads[k]), f, k);
  }

  lemma ExclusiveCopy(w: World, f: Id, k: Key)
    requires Enabled(w, Copy(f, k)) && Careful(w, Copy(f, k)) && Exclusive(w)
    ensures Exclusive(Do(w, Copy(f, k)))
  {
    var v := Do(w, Copy(f, k));
    forall e, o | e in v.deletions && o in v.deletions[e].stash ensures ListingOK(v, e, o) {
      assert ListingOK(w, e, o);
      ListingStays(w, v, e, o);
    }
  }

  lemma ExclusiveTake(w: World, d: Id, o: Object)
    requires Enabled(w, Take(d, o)) && Exclusive(w)
    ensures Exclusive(Do(w, Take(d, o)))
  {
    var v := Do(w, Take(d, o));
    forall e, p | e in v.deletions && p in v.deletions[e].stash ensures ListingOK(v, e, p) {
      assert ListingOK(w, e, p);
      ListingStays(w, v, e, p);
    }
  }

  /** Steps that confirm nothing, list nothing, and bring nothing to a second place. */
  predicate Quiet(w: World, v: World) {
    var ok :=
      && v.over == w.over
      && (forall d | d in v.deletions :: v.deletions[d].stash == {} || (d in w.deletions && v.deletions[d].stash == w.deletions[d].stash && v.deletions[d].taken == w.deletions[d].taken))
      && (forall f | f in w.flows :: f in v.flows && v.flows[f].credited == w.flows[f].credited && StaysFirm(w.flows[f], v.flows[f]))
      && (forall f | f in v.flows && f !in w.flows :: v.flows[f].credited == {});
    ok
  }

  predicate StaysFirm(f: Flow, g: Flow) {
    Firm(f) ==> Firm(g) && g.live == f.live && g.originals <= f.originals && g.finals <= f.finals
  }

  lemma ExclusiveFrame(w: World, v: World)
    requires Exclusive(w) && Quiet(w, v)
    ensures Exclusive(v)
  {
    forall d, o | d in v.deletions && o in v.deletions[d].stash ensures ListingOK(v, d, o) {
      assert ListingOK(w, d, o);
      ListingStays(w, v, d, o);
    }
  }

  lemma NothingLost(w: World, f: Id)
    requires Exclusive(w) && Enabled(w, Fail(f))
    ensures w.flows[f].credited == {} && BytesOf(w.flows[f], w.flows[f].credited) == 0
  {
    assert Part(w.flows[f], {}).Keys == {};
  }

  lemma QuietPut(w: World, v: World, f: Id)
    requires f in v.flows && v.flows == w.flows[f := v.flows[f]] && v.deletions == w.deletions && v.over == w.over
    requires if f in w.flows then v.flows[f].credited == w.flows[f].credited && StaysFirm(w.flows[f], v.flows[f]) else v.flows[f].credited == {}
    ensures Quiet(w, v)
  {
  }

  lemma FailIsQuiet(w: World, f: Id)
    requires Enabled(w, Fail(f)) && Exclusive(w)
    ensures Quiet(w, Do(w, Fail(f)))
  {
    NothingLost(w, f);
    QuietPut(w, Do(w, Fail(f)), f);
  }

  lemma OtherStepsAreQuiet(w: World, step: Step)
    requires Enabled(w, step) && !step.Stash? && !step.Take? && !step.Confirm? && !step.Copy? && !step.Lost? && Exclusive(w)
    ensures Quiet(w, Do(w, step))
  {
    match step
    case Begin(f, _, _, _) => QuietPut(w, Do(w, step), f);
    case Grant(f) => QuietPut(w, Do(w, step), f);
    case Abort(f) => QuietPut(w, Do(w, step), f);
    case Write(f, _) => QuietPut(w, Do(w, step), f);
    case Remove(o) => QuietPut(w, Do(w, step), o.flow);
    case Fail(f) => FailIsQuiet(w, f);
    case Commit(f, _) => QuietPut(w, Do(w, step), f);
    case _ =>
  }

  lemma ExclusiveOther(w: World, step: Step)
    requires Enabled(w, step) && !step.Stash? && !step.Take? && !step.Confirm? && !step.Copy? && !step.Lost? && Exclusive(w)
    ensures Exclusive(Do(w, step))
  {
    OtherStepsAreQuiet(w, step);
    ExclusiveFrame(w, Do(w, step));
  }

  lemma ExclusiveKeeps(w: World, step: Step)
    requires Inv(w) && Enabled(w, step) && Careful(w, step) && Exclusive(w) && MissedOK(w)
    ensures Exclusive(Do(w, step))
  {
    match step
    case Stash(d, o) => ExclusiveStash(w, d, o);
    case Take(d, o) => ExclusiveTake(w, d, o);
    case Confirm(d, o) => ExclusiveConfirm(w, d, o);
    case Copy(f, k) => ExclusiveCopy(w, f, k);
    case Lost(d, f, k) => ExclusiveLost(w, d, f, k);
    case _ => ExclusiveOther(w, step);
  }

  lemma MissedKeeps(w: World, step: Step)
    requires Enabled(w, step) && MissedOK(w)
    ensures MissedOK(Do(w, step))
  {
  }

  predicate CarefulAt(ws: seq<World>, steps: seq<Step>, i: nat)
    requires i < |steps| && |ws| == |steps| + 1
  {
    var ok := Careful(ws[i], steps[i]);
    ok
  }

  lemma ExclusiveAt(ws: seq<World>, steps: seq<Step>, i: nat)
    requires i < |steps| && |ws| == |steps| + 1 && StepAt(ws, steps, i) && CarefulAt(ws, steps, i)
    requires Inv(ws[i]) && Exclusive(ws[i]) && MissedOK(ws[i])
    ensures Exclusive(ws[i + 1]) && MissedOK(ws[i + 1])
  {
    ExclusiveKeeps(ws[i], steps[i]);
    MissedKeeps(ws[i], steps[i]);
  }

  lemma {:induction false} NothingCreditedWithoutCover(ws: seq<World>, steps: seq<Step>, i: nat)
    requires Run(ws, steps) && i < |ws| && forall j: nat | j < |steps| :: CarefulAt(ws, steps, j)
    ensures Exclusive(ws[i]) && MissedOK(ws[i])
  {
    if i == 0 {
    } else {
      NothingCreditedWithoutCover(ws, steps, i - 1);
      InvAlways(ws, steps, i - 1);
      assert StepAt(ws, steps, i - 1) && CarefulAt(ws, steps, i - 1);
      ExclusiveAt(ws, steps, i - 1);
    }
  }

  /** Every stored object is covered once. */
  ghost predicate Covered(w: World) { Charge(w.ledger) + DoubledBytes(w) >= Stored(w) }

  /** So while deletions, copies and reports of lost blobs are careful the charge covers every stored object, and
      every stored byte whenever no blob is stored at both places. */
  lemma ChargeCoversStored(ws: seq<World>, steps: seq<Step>, i: nat)
    requires Run(ws, steps) && i < |ws| && forall j: nat | j < |steps| :: CarefulAt(ws, steps, j)
    ensures Covered(ws[i])
    ensures DoubledBytes(ws[i]) == 0 ==> Charge(ws[i].ledger) >= Stored(ws[i])
  {
    NothingCreditedWithoutCover(ws, steps, i);
    ChargeCoversAlways(ws, steps, i);
  }
}
