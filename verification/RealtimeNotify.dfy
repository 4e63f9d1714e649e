/** Invalidation: every subscription is signalled through a one-slot channel that senders never block on.
    No invalidation is lost. */
module RealtimeNotify {
  import opened ByteStrings

  type SubId = nat
  type CallId = nat

  /** Where the run loop is. Ready: about to run its query, or waiting for a slot. Running: the query has
      started. Waiting: in the select. */
  datatype Phase = Ready | Running | Waiting

  /** notified is the channel's one slot; seen numbers the newest invalidation when the last run started. */
  datatype Sub = Sub(phase: Phase, notified: bool, paused: bool, cancelled: bool, seen: nat)

  /** count is the number of InvalidateAll calls so far; calls holds the subscriptions that the calls in
      progress have still to signal. */
  datatype World = World(count: nat, subs: map<SubId, Sub>, calls: map<CallId, set<SubId>>)

  datatype Step =
    | Register(s: SubId)
    | Invalidate(c: CallId)            // takes the list of subscriptions
    | Signal(c: CallId, s: SubId)      // one non-blocking send
    | StartRun(s: SubId)
    | EndRun(s: SubId, denied: bool)   // a denied admission pauses the subscription
    | Receive(s: SubId)
    | Cancel(s: SubId)
    | Unregister(s: SubId)

  predicate Enabled(w: World, step: Step) {
    match step
    case Register(s) => s !in w.subs
    case Invalidate(c) => c !in w.calls
    case Signal(c, s) => c in w.calls && s in w.calls[c]
    case StartRun(s) => s in w.subs && w.subs[s].phase.Ready? && !w.subs[s].paused
    case EndRun(s, _) => s in w.subs && w.subs[s].phase.Running?
    case Receive(s) => s in w.subs && w.subs[s].phase.Waiting? && w.subs[s].notified
    case Cancel(s) => s in w.subs
    case Unregister(s) => s in w.subs && w.subs[s].cancelled
  }

  function Set(w: World, s: SubId, sub: Sub): World { w.(subs := w.subs[s := sub]) }

  function Do(w: World, step: Step): World
    requires Enabled(w, step)
  {
    match step
    case Register(s) => Set(w, s, Sub(Ready, false, false, false, 0))
    case Invalidate(c) => w.(count := w.count + 1, calls := w.calls[c := w.subs.Keys])
    case Signal(c, s) =>
      var v := w.(calls := w.calls[c := w.calls[c] - {s}]);
      if s in w.subs then Set(v, s, w.subs[s].(notified := true)) else v
    case StartRun(s) => Set(w, s, w.subs[s].(phase := Running, seen := w.count))
    case EndRun(s, denied) => Set(w, s, w.subs[s].(phase := Waiting, paused := w.subs[s].paused || denied))
    case Receive(s) => Set(w, s, w.subs[s].(notified := false, phase := if w.subs[s].paused then Waiting else Ready))
    case Cancel(s) => Set(w, s, w.subs[s].(cancelled := true))
    case Unregister(s) => w.(subs := w.subs - {s})
  }

  /** Some call still has this subscription on its list. */
  predicate ToBeSignalled(w: World, s: SubId) {
    exists c | c in w.calls :: s in w.calls[c]
  }

  /** Up to date, or sure to run again. */
  predicate Served(w: World, s: SubId)
    requires s in w.subs
  {
    var sub := w.subs[s];
    sub.seen == w.count || sub.phase.Ready? || sub.notified || ToBeSignalled(w, s)
  }

  predicate Inv(w: World) {
    forall s | s in w.subs && !w.subs[s].paused && !w.subs[s].cancelled :: Served(w, s)
  }

  lemma StepKeeps(w: World, step: Step)
    requires Inv(w) && Enabled(w, step)
    ensures Inv(Do(w, step))
  {
    var v := Do(w, step);
    forall s | s in v.subs && !v.subs[s].paused && !v.subs[s].cancelled ensures Served(v, s) {
      if s in w.subs { assert Served(w, s); }
      if step.Invalidate? && s in w.subs {
        assert step.c in v.calls && s in v.calls[step.c];
      } else if ToBeSignalled(w, s) {
        var c :| c in w.calls && s in w.calls[c];
        assert c in v.calls;
        if !step.Signal? { assert s in v.calls[c]; }
      }
    }
  }

  ghost predicate StepAt(ws: seq<World>, steps: seq<Step>, i: nat)
    requires i < |steps| && |ws| == |steps| + 1
  {
    Enabled(ws[i], steps[i]) && ws[i + 1] == Do(ws[i], steps[i])
  }

  ghost predicate Run(ws: seq<World>, steps: seq<Step>) {
    |ws| == |steps| + 1 && ws[0] == World(0, map[], map[]) && forall i | 0 <= i < |steps| :: StepAt(ws, steps, i)
  }

  lemma {:induction false} InvAlways(ws: seq<World>, steps: seq<Step>, i: nat)
    requires Run(ws, steps) && i < |ws|
    ensures Inv(ws[i])
  {
    if i > 0 {
      InvAlways(ws, steps, i - 1);
      assert StepAt(ws, steps, i - 1);
      StepKeeps(ws[i - 1], steps[i - 1]);
    }
  }

  /** In every reachable state each live, unpaused subscription has started a run after the newest
      invalidation, or is about to run, or holds a buffered token, or is still to be signalled. */
  lemma NoLostInvalidation(ws: seq<World>, steps: seq<Step>, i: nat, s: SubId)
    requires Run(ws, steps) && i < |ws| && s in ws[i].subs && !ws[i].subs[s].paused && !ws[i].subs[s].cancelled
    ensures ws[i].subs[s].seen == ws[i].count || ws[i].subs[s].phase.Ready? || ws[i].subs[s].notified || ToBeSignalled(ws[i], s)
  {
    InvAlways(ws, steps, i);
    assert Served(ws[i], s);
  }

  /** So once no call is in progress, a waiting subscription that has not run since the newest invalidation
      has its wake-up in hand. */
  lemma QuietMeansServed(ws: seq<World>, steps: seq<Step>, i: nat, s: SubId)
    requires Run(ws, steps) && i < |ws| && s in ws[i].subs
    requires !ws[i].subs[s].paused && !ws[i].subs[s].cancelled && ws[i].subs[s].phase.Waiting?
    requires forall c | c in ws[i].calls :: ws[i].calls[c] == {}
    ensures ws[i].subs[s].seen < ws[i].count ==> Enabled(ws[i], Receive(s))
    ensures ws[i].subs[s].seen <= ws[i].count
  {
    NoLostInvalidation(ws, steps, i, s);
    SeenIsPast(ws, steps, i, s);
  }

  lemma {:induction false} SeenIsPast(ws: seq<World>, steps: seq<Step>, i: nat, s: SubId)
    requires Run(ws, steps) && i < |ws| && s in ws[i].subs
    ensures ws[i].subs[s].seen <= ws[i].count
  {
    if i > 0 {
      assert StepAt(ws, steps, i - 1);
      if s in ws[i - 1].subs { SeenIsPast(ws, steps, i - 1, s); }
    }
  }

  // ----- what a subscription can still do

  /** Steps taken one after another. */
  datatype Path = Here | Then(step: Step, rest: Path)

  function Along(w: World, path: Path): Option<World>
    decreases path
  {
    match path
    case Here => Some(w)
    case Then(step, rest) => if Enabled(w, step) then Along(Do(w, step), rest) else None
  }

  lemma FirstStep(w: World, step: Step, rest: Path)
    requires Enabled(w, step)
    ensures Along(w, Then(step, rest)) == Along(Do(w, step), rest)
  {
  }

  predicate CaughtUp(w: World, s: SubId, path: Path) {
    var v := Along(w, path);
    v.Some? && v.value.count == w.count && s in v.value.subs && v.value.subs[s].seen == w.count
  }

  lemma ReadyCatchesUp(w: World, s: SubId) returns (path: Path)
    requires s in w.subs && !w.subs[s].paused && w.subs[s].phase.Ready?
    ensures CaughtUp(w, s, path)
  {
    path := Then(StartRun(s), Here);
    FirstStep(w, StartRun(s), Here);
  }

  lemma WokenCatchesUp(w: World, s: SubId) returns (path: Path)
    requires s in w.subs && !w.subs[s].paused && w.subs[s].phase.Waiting? && w.subs[s].notified
    ensures CaughtUp(w, s, path)
  {
    var rest := ReadyCatchesUp(Do(w, Receive(s)), s);
    path := Then(Receive(s), rest);
    FirstStep(w, Receive(s), rest);
  }

  /** A waiting subscription with a token, or with a send owed to it, starts a run after the newest invalidation. */
  lemma WaitingCatchesUp(w: World, s: SubId) returns (path: Path)
    requires s in w.subs && !w.subs[s].paused && w.subs[s].phase.Waiting? && (w.subs[s].notified || ToBeSignalled(w, s))
    ensures CaughtUp(w, s, path)
  {
    if w.subs[s].notified {
      path := WokenCatchesUp(w, s);
    } else {
      var c :| c in w.calls && s in w.calls[c];
      var rest := WokenCatchesUp(Do(w, Signal(c, s)), s);
      path := Then(Signal(c, s), rest);
      FirstStep(w, Signal(c, s), rest);
    }
  }

  /** From every reachable state each live, unpaused subscription catches up with the newest invalidation by its
      own steps and one send that is already owed to it. It needs no further invalidation. */
  lemma EveryInvalidationCanBeServed(ws: seq<World>, steps: seq<Step>, i: nat, s: SubId) returns (path: Path)
    requires Run(ws, steps) && i < |ws| && s in ws[i].subs && !ws[i].subs[s].paused && !ws[i].subs[s].cancelled
    ensures CaughtUp(ws[i], s, path)
  {
    var w := ws[i];
    NoLostInvalidation(ws, steps, i, s);
    if w.subs[s].seen == w.count {
      path := Here;
    } else if w.subs[s].phase.Ready? {
      path := ReadyCatchesUp(w, s);
    } else if w.subs[s].phase.Waiting? {
      path := WaitingCatchesUp(w, s);
    } else {
      var v := Do(w, EndRun(s, false));
      if ToBeSignalled(w, s) {
        var c :| c in w.calls && s in w.calls[c];
        assert c in v.calls && s in v.calls[c];
      }
      var rest := WaitingCatchesUp(v, s);
      path := Then(EndRun(s, false), rest);
      FirstStep(w, EndRun(s, false), rest);
    }
  }

  /** A subscription can leave once it is cancelled and not before. One that registers and leaves again changes
      nothing. */
  lemma RegisteredUntilCancelled(w: World, s: SubId)
    requires s !in w.subs
    ensures Along(w, Then(Register(s), Then(Cancel(s), Then(Unregister(s), Here)))) == Some(w)
    ensures Along(w, Then(Register(s), Then(Unregister(s), Here))) == None
  {
    var v := Do(w, Register(s));
    var u := Do(v, Cancel(s));
    FirstStep(w, Register(s), Then(Cancel(s), Then(Unregister(s), Here)));
    FirstStep(v, Cancel(s), Then(Unregister(s), Here));
    FirstStep(u, Unregister(s), Here);
    assert u.subs - {s} == w.subs;
    FirstStep(w, Register(s), Then(Unregister(s), Here));
  }

  /** What registers is owed a send by the next InvalidateAll. */
  lemma RegisteredIsInvalidated(w: World, s: SubId, c: CallId)
    requires s !in w.subs && c !in w.calls
    ensures var v := Along(w, Then(Register(s), Then(Invalidate(c), Here)));
      v.Some? && s in v.value.subs && ToBeSignalled(v.value, s) && v.value.subs[s].seen < v.value.count
  {
    var v := Do(w, Register(s));
    var u := Do(v, Invalidate(c));
    FirstStep(w, Register(s), Then(Invalidate(c), Here));
    FirstStep(v, Invalidate(c), Here);
    assert c in u.calls && s in u.calls[c];
  }

  /** A run that was denied admission pauses its subscription: from then on no step but its own end concerns it
      again, and however many invalidations follow it starts no run. */
  lemma {:induction false} DeniedStaysQuiet(ws: seq<World>, steps: seq<Step>, i: nat, j: nat, s: SubId)
    requires Run(ws, steps) && i < j < |ws| && steps[i] == EndRun(s, true)
    requires forall k | i < k < j :: steps[k] != Unregister(s)
    ensures s in ws[j].subs && ws[j].subs[s].paused && ws[j].subs[s].phase.Waiting? && !Enabled(ws[j], StartRun(s))
  {
    assert StepAt(ws, steps, j - 1);
    if i < j - 1 { DeniedStaysQuiet(ws, steps, i, j - 1, s); }
  }
}
