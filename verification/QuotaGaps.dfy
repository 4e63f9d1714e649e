/** Why deletions must be careful: each way of listing an object carelessly, from a state without slack, leads to
    a charge below what is stored. */
module QuotaGaps {
  import opened ByteStrings
  import opened QuotaLedger
  import opened QuotaRun

  // ----- continuations

  ghost predicate Path(w: World, steps: seq<Step>, v: World)
    decreases |steps|
  {
    if steps == [] then v == w else Enabled(w, steps[0]) && Path(Do(w, steps[0]), steps[1..], v)
  }

  /** Some steps lead from one state to another. */
  ghost predicate Leads(w: World, v: World) { exists steps :: Path(w, steps, v) }

  lemma {:induction false} PathThen(w: World, steps: seq<Step>, v: World, step: Step)
    requires Path(w, steps, v) && Enabled(v, step)
    ensures Path(w, steps + [step], Do(v, step))
    decreases |steps|
  {
    var all := steps + [step];
    if steps == [] {
      assert all[1..] == [];
    } else {
      assert all[0] == steps[0] && all[1..] == steps[1..] + [step];
      PathThen(Do(w, steps[0]), steps[1..], v, step);
    }
  }

  lemma LeadsNowhere(w: World)
    ensures Leads(w, w)
  {
    assert Path(w, [], w);
  }

  lemma LeadsThen(w: World, v: World, step: Step)
    requires Leads(w, v) && Enabled(v, step)
    ensures Leads(w, Do(v, step))
  {
    var steps :| Path(w, steps, v);
    PathThen(w, steps, v, step);
  }

  ghost predicate Reachable(w: World) {
    exists ws, steps :: Run(ws, steps) && ws[|steps|] == w
  }

  lemma Reach(w: World, step: Step)
    requires Reachable(w) && Enabled(w, step)
    ensures Reachable(Do(w, step))
  {
    var ws, steps :| Run(ws, steps) && ws[|steps|] == w;
    var longer, more := ws + [Do(w, step)], steps + [step];
    forall i: nat | i < |more| ensures StepAt(longer, more, i) {
      if i < |steps| { assert StepAt(ws, steps, i); }
    }
    assert Run(longer, more) && longer[|more|] == Do(w, step);
  }

  lemma {:induction false} ReachAlong(w: World, steps: seq<Step>, v: World)
    requires Reachable(w) && Path(w, steps, v)
    ensures Reachable(v)
    decreases |steps|
  {
    if steps != [] {
      Reach(w, steps[0]);
      ReachAlong(Do(w, steps[0]), steps[1..], v);
    }
  }

  lemma ReachableLeads(w: World, v: World)
    requires Reachable(w) && Leads(w, v)
    ensures Reachable(v)
  {
    var steps :| Path(w, steps, v);
    ReachAlong(w, steps, v);
  }

  // ----- what single steps do to the margin

  /** How far the charge is above the bytes stored, each object taken once. */
  ghost function Margin(w: World): int { Charge(w.ledger) + DoubledBytes(w) - Stored(w) }

  function Min(a: int, b: int): int { if a < b then a else b }

  /** A change of one flow's objects. */
  lemma FlowBytes(w: World, f: Id, g: Flow)
    requires f in w.flows
    ensures var v := PutFlow(w, f, g);
      && Stored(v) == Stored(w) + StoredBytes(g) - StoredBytes(w.flows[f])
      && DoubledBytes(v) == DoubledBytes(w) + BytesOf(g, g.Doubled()) - BytesOf(w.flows[f], w.flows[f].Doubled())
  {
    SumPut(StoredBy(w.flows), f, StoredBytes(g));
    assert StoredBy(w.flows[f := g]) == StoredBy(w.flows)[f := StoredBytes(g)];
    SumPut(DoubledBy(w.flows), f, BytesOf(g, g.Doubled()));
    assert DoubledBy(w.flows[f := g]) == DoubledBy(w.flows)[f := BytesOf(g, g.Doubled())];
  }

  /** Flows change without a change to their objects. */
  lemma SameStored(w: World, v: World)
    requires v.flows.Keys == w.flows.Keys
    requires forall f | f in w.flows :: SameObjects(w.flows[f], v.flows[f])
    ensures Stored(v) == Stored(w) && DoubledBytes(v) == DoubledBytes(w)
  {
    forall f | f in w.flows
      ensures StoredBytes(v.flows[f]) == StoredBytes(w.flows[f])
      ensures BytesOf(v.flows[f], v.flows[f].Doubled()) == BytesOf(w.flows[f], w.flows[f].Doubled())
    {
      SameBytes(w.flows[f], v.flows[f], w.flows[f].originals);
      SameBytes(w.flows[f], v.flows[f], w.flows[f].finals);
      SameBytes(w.flows[f], v.flows[f], w.flows[f].Doubled());
    }
    assert StoredBy(v.flows) == StoredBy(w.flows) && DoubledBy(v.flows) == DoubledBy(w.flows);
  }

  predicate SameObjects(f: Flow, g: Flow) { g.uploads == f.uploads && g.originals == f.originals && g.finals == f.finals }

  lemma BytesLess(f: Flow, g: Flow, keys: set<Key>, k: Key)
    requires g.uploads == f.uploads && k in f.uploads
    ensures BytesOf(g, keys - {k}) == BytesOf(f, keys) - if k in keys then f.uploads[k] else 0
  {
    SameBytes(f, g, keys - {k});
    if k in keys {
      BytesPlus(f, keys - {k}, k);
      assert keys - {k} + {k} == keys;
    } else {
      assert keys - {k} == keys;
    }
  }

  lemma TakenBytes(f: Flow, k: Key, place: Place)
    requires k in f.uploads && k in f.At(place)
    ensures var g := Taken(f, k, place);
      && StoredBytes(g) == StoredBytes(f) - f.uploads[k]
      && BytesOf(g, g.Doubled()) == BytesOf(f, f.Doubled()) - if k in f.At(Other(place)) then f.uploads[k] else 0
  {
    var g := Taken(f, k, place);
    BytesLess(f, g, f.Doubled(), k);
    assert g.Doubled() == f.Doubled() - {k};
    if place.Original? {
      BytesLess(f, g, f.originals, k);
      SameBytes(f, g, f.finals);
    } else {
      BytesLess(f, g, f.finals, k);
      SameBytes(f, g, f.originals);
    }
  }

  /** An object is taken away: when it was the only one, its bytes are free. */
  lemma Removed(u: World, w: World, o: Object) returns (v: World)
    requires Leads(u, w) && Enabled(w, Remove(o)) && o.key in w.flows[o.flow].uploads
    ensures Leads(u, v) && v.ledger == w.ledger && v.deletions == w.deletions && v.missed == w.missed
    ensures v.flows == w.flows[o.flow := Taken(w.flows[o.flow], o.key, o.place)]
    ensures Margin(v) == Margin(w) + if o.key in w.flows[o.flow].At(Other(o.place)) then 0 else w.flows[o.flow].uploads[o.key]
  {
    LeadsThen(u, w, Remove(o));
    TakenBytes(w.flows[o.flow], o.key, o.place);
    FlowBytes(w, o.flow, Taken(w.flows[o.flow], o.key, o.place));
    v := Do(w, Remove(o));
  }

  function WithFinal(f: Flow, k: Key): Flow { f.(finals := f.finals + {k}) }

  lemma CopiedBytes(f: Flow, k: Key)
    requires k in f.uploads && k in f.originals && k !in f.finals
    ensures var g := WithFinal(f, k);
      StoredBytes(g) == StoredBytes(f) + f.uploads[k] && BytesOf(g, g.Doubled()) == BytesOf(f, f.Doubled()) + f.uploads[k]
  {
    var g := WithFinal(f, k);
    BytesPlus(g, f.finals, k);
    BytesPlus(g, f.Doubled(), k);
    assert g.Doubled() == f.Doubled() + {k};
    SameBytes(f, g, f.originals);
    SameBytes(f, g, f.finals);
    SameBytes(f, g, f.Doubled());
  }

  lemma Copied(u: World, w: World, f: Id, k: Key) returns (v: World)
    requires Leads(u, w) && Enabled(w, Copy(f, k)) && k in w.flows[f].uploads && k !in w.flows[f].finals
    ensures Leads(u, v) && v.ledger == w.ledger && v.deletions == w.deletions && v.missed == w.missed
    ensures v.flows == w.flows[f := WithFinal(w.flows[f], k)] && v.over == w.over
    ensures Margin(v) == Margin(w) && DoubledBytes(v) == DoubledBytes(w) + w.flows[f].uploads[k]
  {
    LeadsThen(u, w, Copy(f, k));
    CopiedBytes(w.flows[f], k);
    FlowBytes(w, f, WithFinal(w.flows[f], k));
    v := Do(w, Copy(f, k));
  }

  /** Counting an object for credit moves nothing in the store. */
  lemma AccountMoves(w: World, f: Id, k: Key)
    requires f in w.flows && k in w.flows[f].uploads
    ensures var v := Account(w, f, k);
      && v.ledger == w.ledger && v.deletions == w.deletions && Margin(v) == Margin(w)
      && f in v.flows && SameObjects(w.flows[f], v.flows[f])
      && v.flows[f].stage == w.flows[f].stage && v.flows[f].bound == w.flows[f].bound
      && v.missed == w.missed && v.sent == w.sent && v.replies == w.replies
  {
    SameStored(w, Account(w, f, k));
  }

  /** A deletion sees an object gone. */
  lemma Confirmed(u: World, w: World, d: Id, o: Object) returns (v: World)
    requires Leads(u, w) && Enabled(w, Confirm(d, o))
    ensures Leads(u, v) && v.ledger == w.ledger && Margin(v) == Margin(w) && v.deletions == w.deletions[d := Seen(w, d, o)]
    ensures o.flow in v.flows && SameObjects(w.flows[o.flow], v.flows[o.flow])
    ensures v.flows[o.flow].stage == w.flows[o.flow].stage && v.flows[o.flow].bound == w.flows[o.flow].bound
  {
    LeadsThen(u, w, Confirm(d, o));
    AccountMoves(PutDeletion(w, d, Seen(w, d, o)), o.flow, o.key);
    v := Do(w, Confirm(d, o));
  }

  /** A deletion's credit is sent and delivered; the service does not go below zero. */
  lemma CreditEffect(u: World, w: World, d: Id, bytes: nat) returns (v: World)
    requires Leads(u, w) && d in w.deletions && bytes == w.deletions[d].amount > 0 && w.ledger.used >= 0
    requires d !in w.ledger.credits && |w.ledger.credits| < w.ledger.limit
    ensures Leads(u, v) && v.flows == w.flows && v.deletions == w.deletions
    ensures v.ledger == w.ledger.(credits := w.ledger.credits[d := bytes], used := w.ledger.used - Min(w.ledger.used, bytes))
    ensures Margin(v) == Margin(w) - Min(w.ledger.used, bytes)
  {
    var x := CreditSent(u, w, d, bytes);
    LeadsThen(u, x, Deliver(Credit(d, bytes)));
    v := Do(x, Deliver(Credit(d, bytes)));
    SameStored(w, v);
  }

  lemma CreditSent(u: World, w: World, d: Id, bytes: nat) returns (v: World)
    requires Leads(u, w) && d in w.deletions && 0 < bytes <= w.deletions[d].amount
    ensures Leads(u, v) && v.flows == w.flows && v.deletions == w.deletions && v.ledger == w.ledger && Credit(d, bytes) in v.sent
  {
    LeadsThen(u, w, SendCredit(d, bytes));
    v := Do(w, SendCredit(d, bytes));
  }

  // ----- two deletions list one object

  /** Two deletions have both listed an object that is stored at one place only. */
  predicate ListedTwice(w: World, d: Id, e: Id, o: Object) {
    && d != e && d in w.deletions && e in w.deletions && o in w.deletions[d].stash && o in w.deletions[e].stash
    && o.flow in w.flows && o.key in w.flows[o.flow].At(o.place) && o.key !in w.flows[o.flow].At(Other(o.place))
    && o.key in w.flows[o.flow].uploads && w.deletions[d].amount == 0 && w.deletions[e].amount == 0
  }

  lemma BothConfirm(w: World, d: Id, e: Id, o: Object) returns (v: World)
    requires ListedTwice(w, d, e, o)
    ensures Leads(w, v) && v.ledger == w.ledger && Margin(v) == Margin(w) + w.flows[o.flow].uploads[o.key]
    ensures d in v.deletions && v.deletions[d].amount == w.flows[o.flow].uploads[o.key]
    ensures e in v.deletions && v.deletions[e].amount == w.flows[o.flow].uploads[o.key]
  {
    LeadsNowhere(w);
    var x := Removed(w, w, o);
    var y := Confirmed(w, x, d, o);
    v := Confirmed(w, y, e, o);
  }

  /** Two deletions that have listed one object may both credit it: from any state, by any size. */
  lemma DoubleListingUndercounts(w: World, d: Id, e: Id, o: Object) returns (v: World)
    requires ListedTwice(w, d, e, o) && w.flows[o.flow].uploads[o.key] > 0 && w.ledger.used >= 0
    requires d !in w.ledger.credits && e !in w.ledger.credits && |w.ledger.credits| + 2 <= w.ledger.limit
    ensures var size := w.flows[o.flow].uploads[o.key];
      && Leads(w, v) && Margin(v) == Margin(w) + size - Min(w.ledger.used, 2 * size)
      && (Margin(w) == 0 ==> (Covered(v) <==> w.ledger.used <= size))
  {
    var size := w.flows[o.flow].uploads[o.key];
    var x := BothConfirm(w, d, e, o);
    var y := CreditEffect(w, x, d, size);
    assert |y.ledger.credits| == |w.ledger.credits| + 1 by { assert y.ledger.credits == w.ledger.credits[d := size]; }
    v := CreditEffect(w, y, e, size);
  }

  // ----- an object is listed while its write is undecided

  /** A variant is stored, its reservation is open, and a deletion has listed it. */
  predicate ListedUnsettled(w: World, d: Id, f: Id, k: Key) {
    && d in w.deletions && Object(f, k, Original) in w.deletions[d].stash && w.deletions[d].amount == 0
    && f in w.flows && w.flows[f].stage.Granted? && w.flows[f].originals == {k} && w.flows[f].finals == {}
    && w.flows[f].uploads.Keys == {k} && w.flows[f].credited == {} && w.flows[f].bound == w.flows[f].uploads[k]
  }

  /** The deletion takes the object away and sees it gone; the upload sees it gone too, and gives back. */
  lemma ConfirmThenFail(w: World, d: Id, f: Id, k: Key) returns (v: World)
    requires ListedUnsettled(w, d, f, k)
    ensures Leads(w, v) && v.ledger == w.ledger && Margin(v) == Margin(w) + w.flows[f].uploads[k]
    ensures d in v.deletions && v.deletions[d].amount == w.flows[f].uploads[k] && Release(f) in v.sent
  {
    LeadsNowhere(w);
    var x := Removed(w, w, Object(f, k, Original));
    var y := Confirmed(w, x, d, Object(f, k, Original));
    v := FailedEmpty(w, y, f);
  }

  lemma FailedEmpty(u: World, w: World, f: Id) returns (v: World)
    requires Leads(u, w) && Enabled(w, Fail(f)) && w.flows[f].originals == {} && w.flows[f].finals == {}
    ensures Leads(u, v) && v.ledger == w.ledger && v.deletions == w.deletions && Margin(v) == Margin(w) && Release(f) in v.sent
  {
    LeadsThen(u, w, Fail(f));
    v := Do(w, Fail(f));
    SameStored(w, v);
  }

  lemma ReleaseEffect(u: World, w: World, f: Id) returns (v: World)
    requires Leads(u, w) && Release(f) in w.sent
    requires f in w.ledger.reservations && w.ledger.reservations[f].allowed && w.ledger.reservations[f].status.Open?
    ensures Leads(u, v) && v.flows == w.flows && v.deletions == w.deletions
    ensures v.ledger.credits == w.ledger.credits && v.ledger.limit == w.ledger.limit && v.ledger.used == w.ledger.used
    ensures Margin(v) == Margin(w) - w.ledger.reservations[f].held
  {
    LeadsThen(u, w, Deliver(Release(f)));
    v := Do(w, Deliver(Release(f)));
    ReservationChanges(w.ledger, f, w.ledger.reservations[f].(status := Released));
    SameStored(w, v);
  }

  lemma OpenReservation(w: World, f: Id)
    requires Inv(w) && f in w.flows && w.flows[f].stage.Granted?
    ensures f in w.ledger.reservations && w.ledger.reservations[f].allowed && w.ledger.reservations[f].status.Open?
    ensures w.ledger.reservations[f].held == w.flows[f].bound
  {
    assert FlowOK(w.ledger, f, w.flows[f]);
    NotSettledYet(w, f);
  }

  /** A deletion that has listed a stored variant that is not settled may alone credit what is then released. */
  lemma UnsettledListingUndercounts(w: World, d: Id, f: Id, k: Key) returns (v: World)
    requires Inv(w) && ListedUnsettled(w, d, f, k) && w.flows[f].uploads[k] > 0
    requires d !in w.ledger.credits && |w.ledger.credits| < w.ledger.limit
    ensures Leads(w, v) && Margin(v) == Margin(w) - Min(w.ledger.used, w.flows[f].uploads[k])
    ensures Margin(w) == 0 ==> (Covered(v) <==> w.ledger.used == 0)
  {
    OpenReservation(w, f);
    assert w.ledger.used >= 0 by { assert LedgerOK(w); }
    var x := ConfirmThenFail(w, d, f, k);
    var y := ReleaseEffect(w, x, f);
    v := CreditEffect(w, y, d, w.flows[f].uploads[k]);
  }

  // ----- a blob at both places

  predicate Settled(w: World, f: Id, k: Key) {
    f in w.flows && w.flows[f].stage.Committed? && k in w.flows[f].uploads
  }

  /** Copying a settled blob to its final key charges nothing. Until the original goes, the charge is below what is
      stored unless the margin was larger than the blob and everything doubled already. */
  lemma CopiedBlobUndercounts(w: World, f: Id, k: Key) returns (v: World)
    requires Settled(w, f, k) && (f, k) in w.missed && k in w.flows[f].originals && k !in w.flows[f].finals
    ensures Leads(w, v) && v.ledger == w.ledger && v.over == w.over && v.deletions == w.deletions
    ensures Charge(v.ledger) < Stored(v) <==> Margin(w) < DoubledBytes(w) + w.flows[f].uploads[k]
  {
    LeadsNowhere(w);
    v := Copied(w, w, f, k);
  }

  /** One deletion has listed a blob at both places. */
  predicate ListedAtBoth(w: World, d: Id, f: Id, k: Key) {
    && d in w.deletions && Object(f, k, Original) in w.deletions[d].stash && Object(f, k, Final) in w.deletions[d].stash
    && w.deletions[d].amount == 0 && f in w.flows && k in w.flows[f].uploads && k in w.flows[f].Doubled()
  }

  lemma BothGone(w: World, d: Id, f: Id, k: Key) returns (v: World)
    requires ListedAtBoth(w, d, f, k)
    ensures Leads(w, v) && v.ledger == w.ledger && Margin(v) == Margin(w) + w.flows[f].uploads[k]
    ensures d in v.deletions && v.deletions[d].amount == 2 * w.flows[f].uploads[k]
  {
    var x := BothRemoved(w, f, k);
    var y := Confirmed(w, x, d, Object(f, k, Original));
    v := Confirmed(w, y, d, Object(f, k, Final));
  }

  lemma BothRemoved(w: World, f: Id, k: Key) returns (v: World)
    requires f in w.flows && k in w.flows[f].uploads && k in w.flows[f].Doubled()
    ensures Leads(w, v) && v.ledger == w.ledger && v.deletions == w.deletions && Margin(v) == Margin(w) + w.flows[f].uploads[k]
    ensures f in v.flows && v.flows[f].uploads == w.flows[f].uploads && k !in v.flows[f].originals && k !in v.flows[f].finals
  {
    LeadsNowhere(w);
    var x := Removed(w, w, Object(f, k, Original));
    v := Removed(w, x, Object(f, k, Final));
  }

  /** A deletion of such a blob credits it twice. */
  lemma BothPlacesUndercount(w: World, d: Id, f: Id, k: Key) returns (v: World)
    requires ListedAtBoth(w, d, f, k) && w.flows[f].uploads[k] > 0 && w.ledger.used >= 0
    requires d !in w.ledger.credits && |w.ledger.credits| < w.ledger.limit
    ensures var size := w.flows[f].uploads[k];
      && Leads(w, v) && Margin(v) == Margin(w) + size - Min(w.ledger.used, 2 * size)
      && (Margin(w) == 0 ==> (Covered(v) <==> w.ledger.used <= size))
  {
    var x := BothGone(w, d, f, k);
    v := CreditEffect(w, x, d, 2 * w.flows[f].uploads[k]);
  }

  /** A deletion has listed a settled blob that a finalizer is about to copy. */
  predicate ListedUncopied(w: World, d: Id, f: Id, k: Key) {
    && Settled(w, f, k) && (f, k) in w.missed && k in w.flows[f].originals && k !in w.flows[f].finals
    && d in w.deletions && Object(f, k, Original) in w.deletions[d].stash && w.deletions[d].amount == 0
  }

  lemma CopiedAndTaken(w: World, d: Id, f: Id, k: Key) returns (v: World)
    requires ListedUncopied(w, d, f, k)
    ensures Leads(w, v) && v.ledger == w.ledger && v.deletions == w.deletions && Margin(v) == Margin(w)
    ensures Enabled(v, Confirm(d, Object(f, k, Original))) && v.flows[f].uploads == w.flows[f].uploads
  {
    LeadsNowhere(w);
    var x := Copied(w, w, f, k);
    v := Removed(w, x, Object(f, k, Original));
  }

  /** It is credited although the copy stays. */
  lemma CopyOfListedUndercounts(w: World, d: Id, f: Id, k: Key) returns (v: World)
    requires ListedUncopied(w, d, f, k) && w.flows[f].uploads[k] > 0 && w.ledger.used >= 0
    requires d !in w.ledger.credits && |w.ledger.credits| < w.ledger.limit
    ensures Leads(w, v) && Margin(v) == Margin(w) - Min(w.ledger.used, w.flows[f].uploads[k])
    ensures Margin(w) == 0 ==> (Covered(v) <==> w.ledger.used == 0)
  {
    var x := CopiedAndTaken(w, d, f, k);
    v := SeenAndCredited(w, x, d, Object(f, k, Original));
  }

  /** A deletion of one object sees it gone and credits it. */
  lemma SeenAndCredited(u: World, w: World, d: Id, o: Object) returns (v: World)
    requires Leads(u, w) && Enabled(w, Confirm(d, o)) && w.deletions[d].amount == 0 && w.flows[o.flow].uploads[o.key] > 0
    requires w.ledger.used >= 0 && d !in w.ledger.credits && |w.ledger.credits| < w.ledger.limit
    ensures Leads(u, v) && Margin(v) == Margin(w) - Min(w.ledger.used, w.flows[o.flow].uploads[o.key])
  {
    var x := Confirmed(u, w, d, o);
    v := CreditEffect(u, x, d, w.flows[o.flow].uploads[o.key]);
  }

  // ----- a blob that is reported lost

  lemma Reported(u: World, w: World, d: Id, f: Id, k: Key) returns (v: World)
    requires Leads(u, w) && Enabled(w, Lost(d, f, k))
    ensures Leads(u, v) && v.ledger == w.ledger && Margin(v) == Margin(w)
    ensures v.deletions == w.deletions[d := Deletion({}, {}, w.flows[f].uploads[k])]
  {
    LeadsThen(u, w, Lost(d, f, k));
    var x := PutDeletion(w, d, Deletion({}, {}, w.flows[f].uploads[k]));
    AccountMoves(x, f, k);
    v := Do(w, Lost(d, f, k));
  }

  /** A finalizer that missed the final blob, and then finds no original, reports the blob lost and credits it. That
      the blob is stored at its final key all the same, or has been credited by its deletion, makes no
      difference to it. */
  lemma LostBlobUndercounts(w: World, d: Id, f: Id, k: Key) returns (v: World)
    requires Enabled(w, Lost(d, f, k)) && w.flows[f].uploads[k] > 0 && w.ledger.used >= 0
    requires d !in w.ledger.credits && |w.ledger.credits| < w.ledger.limit
    ensures Leads(w, v) && Margin(v) == Margin(w) - Min(w.ledger.used, w.flows[f].uploads[k])
    ensures Margin(w) == 0 ==> (Covered(v) <==> w.ledger.used == 0)
  {
    LeadsNowhere(w);
    var x := Reported(w, w, d, f, k);
    v := CreditEffect(w, x, d, w.flows[f].uploads[k]);
  }

  // ----- all of them happen

  /** An upload of a single object. */
  function One(stage: Stage, blob: bool, size: nat, written: set<Key>): Flow {
    Flow(stage, blob, map[0 := size], size, written, written, {}, {})
  }

  lemma OneBytes(f: Flow, size: nat)
    requires f.uploads == map[0 := size]
    ensures Sum(f.uploads) == size && BytesOf(f, {0}) == size && BytesOf(f, {}) == 0
  {
    var empty: map<Key, nat> := map[];
    SumPut(empty, 0, size);
    assert Part(f, {0}) == empty[0 := size] == f.uploads && Part(f, {}) == empty;
  }

  /** What has been uploaded so far, without deletions. */
  ghost predicate Plain(w: World) { Reachable(w) && Margin(w) == 0 && w.over == 0 && w.deletions == map[] && w.missed == {} }

  ghost predicate HasRoom(w: World, f: Id, size: nat) {
    && f !in w.flows && f !in w.ledger.reservations && |w.ledger.reservations| < w.ledger.limit
    && Charge(w.ledger) + size <= w.ledger.capacity
  }

  function Fresh(blob: bool, size: nat): Flow { Flow(Asking, blob, map[0 := size], size, {}, {}, {}, {}) }

  lemma Begun(w: World, f: Id, blob: bool, size: nat) returns (v: World)
    requires Plain(w) && HasRoom(w, f, size)
    ensures Plain(v) && v.flows == w.flows[f := Fresh(blob, size)] && v.ledger == w.ledger && Reserve(f, size) in v.sent
  {
    OneBytes(Fresh(blob, size), size);
    Reach(w, Begin(f, blob, map[0 := size], size));
    v := Do(w, Begin(f, blob, map[0 := size], size));
    NewFlowBytes(w, v, f, Fresh(blob, size));
  }

  lemma NothingStored(g: Flow)
    requires g.originals == {} && g.finals == {}
    ensures StoredBytes(g) == 0 && BytesOf(g, g.Doubled()) == 0
  {
    assert Part(g, {}).Keys == {};
  }

  lemma NewFlowBytes(w: World, x: World, f: Id, g: Flow)
    requires f !in w.flows && x.flows == w.flows[f := g] && g.originals == {} && g.finals == {}
    ensures Stored(x) == Stored(w) && DoubledBytes(x) == DoubledBytes(w)
  {
    NothingStored(g);
    NewFlowSums(StoredBy(w.flows), StoredBy(x.flows), f);
    NewFlowSums(DoubledBy(w.flows), DoubledBy(x.flows), f);
  }

  lemma NewFlowSums(a: map<Id, nat>, b: map<Id, nat>, f: Id)
    requires f !in a && b.Keys == a.Keys + {f} && b[f] == 0 && forall i | i in a :: b[i] == a[i]
    ensures Sum(a) == Sum(b)
  {
    SumPut(a, f, 0);
    assert b == a[f := 0];
  }

  lemma Asked(w: World, f: Id, blob: bool, size: nat) returns (v: World)
    requires Plain(w) && HasRoom(w, f, size)
    ensures Reachable(v) && Margin(v) == size && v.over == 0 && v.deletions == map[] && v.missed == {}
    ensures v.flows == w.flows[f := Fresh(blob, size)] && (Reserve(f, size), Decided(true)) in v.replies
    ensures v.ledger == w.ledger.(reservations := w.ledger.reservations[f := Reservation(size, true, size, Status.Open)])
  {
    var x := Begun(w, f, blob, size);
    Reach(x, Deliver(Reserve(f, size)));
    v := Do(x, Deliver(Reserve(f, size)));
    ReservationChanges(w.ledger, f, Reservation(size, true, size, Status.Open));
    SameStored(x, v);
  }

  lemma GrantedOne(w: World, f: Id, blob: bool, size: nat) returns (v: World)
    requires Reachable(w) && f in w.flows && w.flows[f] == Fresh(blob, size) && (Reserve(f, size), Decided(true)) in w.replies
    ensures Reachable(v) && Margin(v) == Margin(w) && v == PutFlow(w, f, w.flows[f].(stage := Granted, live := {0}))
  {
    Reach(w, Grant(f));
    v := Do(w, Grant(f));
    assert v.flows[f].live == {0};
    SameStored(w, v);
  }

  lemma WroteOne(w: World, f: Id, blob: bool, size: nat) returns (v: World)
    requires Reachable(w) && f in w.flows && w.flows[f] == Fresh(blob, size).(stage := Granted, live := {0})
    ensures Reachable(v) && Margin(v) == Margin(w) - size && v == PutFlow(w, f, One(Granted, blob, size, {0}))
  {
    Reach(w, Write(f, 0));
    v := Do(w, Write(f, 0));
    assert v.flows[f].originals == {0};
    WroteBytes(w.flows[f], v.flows[f], size);
    FlowBytes(w, f, v.flows[f]);
  }

  lemma WroteBytes(f: Flow, g: Flow, size: nat)
    requires f.uploads == g.uploads == map[0 := size] && f.originals == f.finals == g.finals == {} && g.originals == {0}
    ensures StoredBytes(g) == StoredBytes(f) + size && BytesOf(g, g.Doubled()) == BytesOf(f, f.Doubled())
  {
    OneBytes(f, size);
    OneBytes(g, size);
    assert g.Doubled() == {} == f.Doubled();
  }

  lemma PutAgain<V>(m: map<Id, V>, f: Id, a: V, b: V)
    ensures m[f := a][f := b] == m[f := b]
  {
  }

  /** An object is reserved and written, and not settled yet. */
  lemma Uploaded(w: World, f: Id, blob: bool, size: nat) returns (v: World)
    requires Plain(w) && HasRoom(w, f, size)
    ensures Plain(v) && v.flows == w.flows[f := One(Granted, blob, size, {0})]
    ensures v.ledger == w.ledger.(reservations := w.ledger.reservations[f := Reservation(size, true, size, Status.Open)])
  {
    var x := Asked(w, f, blob, size);
    var y := GrantedOne(x, f, blob, size);
    v := WroteOne(y, f, blob, size);
    PutAgain(w.flows, f, Fresh(blob, size), y.flows[f]);
    PutAgain(w.flows, f, y.flows[f], One(Granted, blob, size, {0}));
  }

  lemma Settling(w: World, f: Id, blob: bool, size: nat) returns (v: World)
    requires Plain(w) && f in w.flows && w.flows[f] == One(Granted, blob, size, {0})
    ensures Plain(v) && v.flows == w.flows[f := One(Committed, blob, size, {0})] && v.ledger == w.ledger && Settle(f, size) in v.sent
  {
    OneBytes(w.flows[f], size);
    Reach(w, Commit(f, {0}));
    v := Do(w, Commit(f, {0}));
    SameStored(w, v);
  }

  lemma SettleSent(w: World, f: Id, size: nat) returns (v: World)
    requires Plain(w) && Settle(f, size) in w.sent && f in w.ledger.reservations
    requires w.ledger.reservations[f] == Reservation(size, true, size, Status.Open)
    ensures Reachable(v) && v.flows == w.flows && v.over == 0 && v.deletions == map[] && v.missed == {}
    ensures v.ledger == w.ledger.(used := w.ledger.used + size, reservations := w.ledger.reservations[f := Reservation(size, true, size, Status.Settled(size))])
    ensures Stored(v) == Stored(w) && DoubledBytes(v) == DoubledBytes(w)
  {
    Reach(w, Deliver(Settle(f, size)));
    v := Do(w, Deliver(Settle(f, size)));
    SameStored(w, v);
  }

  /** An object is uploaded and settled. */
  lemma SavedOne(w: World, f: Id, blob: bool, size: nat) returns (v: World)
    requires Plain(w) && HasRoom(w, f, size)
    ensures Plain(v) && v.flows == w.flows[f := One(Committed, blob, size, {0})]
    ensures v.ledger == w.ledger.(used := w.ledger.used + size, reservations := w.ledger.reservations[f := Reservation(size, true, size, Status.Settled(size))])
    ensures Charge(v.ledger) == Charge(w.ledger) + size
  {
    var x := Uploaded(w, f, blob, size);
    var y := Settling(x, f, blob, size);
    v := SettleSent(y, f, size);
    PutAgain(w.flows, f, One(Granted, blob, size, {0}), One(Committed, blob, size, {0}));
    PutAgain(w.ledger.reservations, f, Reservation(size, true, size, Status.Open), Reservation(size, true, size, Status.Settled(size)));
    SettledCharge(w.ledger, y.ledger, v.ledger, f, size);
  }

  lemma SettledCharge(s: Ledger, t: Ledger, u: Ledger, f: Id, size: nat)
    requires f !in s.reservations && t == s.(reservations := s.reservations[f := Reservation(size, true, size, Status.Open)])
    requires u == s.(used := s.used + size, reservations := s.reservations[f := Reservation(size, true, size, Status.Settled(size))])
    ensures Charge(t) == Charge(u) == Charge(s) + size
  {
    ReservationChanges(s, f, Reservation(size, true, size, Status.Open));
    ReservationChanges(s, f, Reservation(size, true, size, Status.Settled(size)));
  }

  lemma EmptyStore() returns (w: World)
    ensures Plain(w) && w.flows == map[] && w.ledger == Ledger(10, 100, 0, map[], map[]) && Charge(w.ledger) == 0
  {
    w := World(Ledger(10, 100, 0, map[], map[]), map[], map[], {}, {}, {}, 0);
    assert Run([w], []) && [w][0] == w;
    assert HeldIn(w.ledger.reservations, w.ledger.reservations.Keys).Keys == {};
    assert StoredBy(w.flows).Keys == {} && DoubledBy(w.flows).Keys == {};
  }

  /** An empty ledger's settings, with so much used by the first so many uploads. */
  ghost predicate UsedBy(w: World, used: nat, uploads: nat) {
    var s := w.ledger;
    var ok :=
      && s.used == used && Charge(s) == used && s.credits == map[] && s.limit == 10 && s.capacity == 100
      && |s.reservations| == uploads && forall f | f in s.reservations || f in w.flows :: f < uploads;
    ok
  }

  lemma SavedNext(w: World, blob: bool, size: nat, used: nat, f: Id) returns (v: World)
    requires Plain(w) && UsedBy(w, used, f) && f < 10 && used + size <= 100
    ensures Plain(v) && v.flows == w.flows[f := One(Committed, blob, size, {0})] && UsedBy(v, used + size, f + 1)
  {
    v := SavedOne(w, f, blob, size);
    assert v.ledger.reservations.Keys == w.ledger.reservations.Keys + {f};
    assert |v.ledger.reservations| == |v.ledger.reservations.Keys| && |w.ledger.reservations| == |w.ledger.reservations.Keys|;
  }

  /** Two objects are saved, of ten and of thirty bytes. */
  lemma TwoSaved(blob: bool) returns (w: World)
    ensures Plain(w) && w.flows == map[0 := One(Committed, blob, 10, {0}), 1 := One(Committed, blob, 30, {0})]
    ensures UsedBy(w, 40, 2)
  {
    var x := EmptyStore();
    var y := SavedNext(x, blob, 10, 0, 0);
    w := SavedNext(y, blob, 30, 10, 1);
  }

  const FIRST: Object := Object(0, 0, Original)

  /** When two updates of a record remove the same file at the same time, both credit it, and the charge
      falls below what is stored. */
  lemma OverlappingUpdatesUndercount() returns (w: World)
    ensures Reachable(w) && Charge(w.ledger) < Stored(w)
  {
    var x := TwoSaved(false);
    var y := BothList(x);
    w := DoubleListingUndercounts(y, 2, 3, FIRST);
    ReachableLeads(y, w);
  }

  lemma ListOne(w: World, d: Id, o: Object) returns (v: World)
    requires Reachable(w) && d !in w.deletions && o.flow in w.flows && o.key in w.flows[o.flow].At(o.place)
    ensures Reachable(v) && v.ledger == w.ledger && v.flows == w.flows && v.missed == w.missed && Margin(v) == Margin(w)
    ensures v.deletions == w.deletions[d := Deletion({o}, {}, 0)]
  {
    Reach(w, Step.Open(d));
    var x := Do(w, Step.Open(d));
    Reach(x, Stash(d, o));
    v := Do(x, Stash(d, o));
    var none: set<Object> := {};
    assert none + {o} == {o} && none - {o} == none;
    SameStored(w, v);
  }

  lemma BothList(w: World) returns (v: World)
    requires Plain(w) && 0 in w.flows && w.flows[0] == One(Committed, false, 10, {0})
    ensures Reachable(v) && v.ledger == w.ledger && v.flows == w.flows && Margin(v) == 0 && ListedTwice(v, 2, 3, FIRST)
  {
    var x := ListOne(w, 2, FIRST);
    v := ListOne(x, 3, FIRST);
  }

  /** One deletion of a blob credits a variant that is written and not settled yet, and whose upload then gives its
      reservation back. */
  lemma DeletedVariantUndercounts() returns (w: World)
    ensures Reachable(w) && Charge(w.ledger) < Stored(w)
  {
    var z := VariantListed();
    ReachableInv(z);
    w := UnsettledListingUndercounts(z, 2, 5, 0);
    ReachableLeads(z, w);
  }

  lemma VariantListed() returns (w: World)
    ensures Reachable(w) && Margin(w) == 0 && ListedUnsettled(w, 2, 5, 0) && w.flows[5].uploads[0] == 10
    ensures w.ledger.used == 40 && w.ledger.credits == map[] && w.ledger.limit == 10
  {
    var x := TwoSaved(true);
    w := VariantOf(x);
  }

  lemma VariantOf(w: World) returns (v: World)
    requires Plain(w) && HasRoom(w, 5, 10)
    ensures Reachable(v) && Margin(v) == 0 && ListedUnsettled(v, 2, 5, 0) && v.flows[5].uploads[0] == 10
    ensures v.ledger.used == w.ledger.used && v.ledger.credits == w.ledger.credits && v.ledger.limit == w.ledger.limit
  {
    var y := Uploaded(w, 5, false, 10);
    v := ListOne(y, 2, Object(5, 0, Original));
  }

  lemma ReachableInv(w: World)
    requires Reachable(w)
    ensures Inv(w)
  {
    var ws, steps :| Run(ws, steps) && ws[|steps|] == w;
    InvAlways(ws, steps, |steps|);
  }

  lemma MissedOnce() returns (w: World)
    ensures Reachable(w) && Margin(w) == 0 && DoubledBytes(w) == 0 && w.over == 0 && w.deletions == map[] && w.missed == {(0, 0)}
    ensures w.flows == map[0 := One(Committed, true, 10, {0}), 1 := One(Committed, true, 30, {0})]
    ensures w.ledger.used == 40 && w.ledger.credits == map[] && w.ledger.limit == 10
  {
    var x := TwoSaved(true);
    w := LookedFor(x);
    NoneDoubled(w);
  }

  lemma LookedFor(w: World) returns (v: World)
    requires Plain(w) && 0 in w.flows && w.flows[0] == One(Committed, true, 10, {0})
    ensures Reachable(v) && Margin(v) == 0 && v.over == 0 && v.deletions == map[] && v.missed == {(0, 0)}
    ensures v.flows == w.flows && v.ledger == w.ledger
  {
    Reach(w, Look(0, 0));
    v := Do(w, Look(0, 0));
    SameStored(w, v);
  }

  lemma NoneDoubled(w: World)
    requires forall f | f in w.flows :: w.flows[f].finals == {}
    ensures DoubledBytes(w) == 0
  {
    forall f | f in w.flows ensures DoubledBy(w.flows)[f] == 0 { assert Part(w.flows[f], w.flows[f].Doubled()).Keys == {}; }
    var none: map<Id, nat> := map[];
    SumMonotone(DoubledBy(w.flows), none);
    assert none.Keys == {};
  }

  /** A blob has been copied to its final key and its original is left over: with no deletion at all the charge is below
      what is stored. When the blob is then deleted, both are credited, and the charge stays below. */
  lemma LeftoverCopyUndercounts() returns (w: World, v: World)
    ensures Reachable(w) && w.deletions == map[] && w.over == 0 && Charge(w.ledger) < Stored(w)
    ensures Reachable(v) && !Covered(v) && Charge(v.ledger) < Stored(v)
  {
    var x := MissedOnce();
    w := CopiedBlobUndercounts(x, 0, 0);
    ReachableLeads(x, w);
    var y := CopiedFirst(x);
    var z := ListBoth(y);
    v := BothPlacesUndercount(z, 2, 0, 0);
    ReachableLeads(z, v);
  }

  lemma CopiedFirst(w: World) returns (v: World)
    requires Reachable(w) && Margin(w) == 0 && w.missed == {(0, 0)} && w.deletions == map[]
    requires 0 in w.flows && w.flows[0] == One(Committed, true, 10, {0})
    ensures Reachable(v) && Margin(v) == 0 && v.missed == {(0, 0)} && v.deletions == map[] && v.ledger == w.ledger
    ensures 0 in v.flows && v.flows[0] == w.flows[0].(finals := {0})
  {
    LeadsNowhere(w);
    v := Copied(w, w, 0, 0);
    ReachableLeads(w, v);
  }

  lemma ListBoth(w: World) returns (v: World)
    requires Reachable(w) && w.deletions == map[] && 0 in w.flows && w.flows[0] == One(Committed, true, 10, {0}).(finals := {0})
    ensures Reachable(v) && v.ledger == w.ledger && Margin(v) == Margin(w) && ListedAtBoth(v, 2, 0, 0) && v.flows == w.flows
  {
    var x := ListOne(w, 2, FIRST);
    Reach(x, Stash(2, Object(0, 0, Final)));
    v := Do(x, Stash(2, Object(0, 0, Final)));
    SameStored(x, v);
  }

  /** Two finalizers at once: one has missed the final blob before the other copies it and removes the original. It
      then reports the stored blob lost, and credits it. */
  lemma StoredBlobReportedLost() returns (w: World)
    ensures Reachable(w) && Charge(w.ledger) < Stored(w)
  {
    var x := MissedOnce();
    var y := CopiedFirst(x);
    var z := OriginalGone(y);
    w := LostBlobUndercounts(z, 2, 0, 0);
    ReachableLeads(z, w);
  }

  lemma OriginalGone(w: World) returns (v: World)
    requires Reachable(w) && Margin(w) == 0 && w.missed == {(0, 0)} && w.deletions == map[]
    requires 0 in w.flows && w.flows[0] == One(Committed, true, 10, {0}).(finals := {0})
    ensures Reachable(v) && Margin(v) == 0 && v.ledger == w.ledger && Enabled(v, Lost(2, 0, 0)) && v.flows[0].uploads[0] == 10
  {
    LeadsNowhere(w);
    v := Removed(w, w, FIRST);
    ReachableLeads(w, v);
  }
}
