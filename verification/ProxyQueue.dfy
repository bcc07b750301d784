/**
  Requests through the swappable model slot: the queue and in-flight counters, the
  slot lock, and when the proxy tells the arbiter it is idle. One event per stretch
  of the handler between two awaits; any number of requests interleave.
*/
module ProxyQueue {
  import opened Wrappers

  /** Waiting on the arbiter, on the slot lock, on the model's first byte, on the stream; or answered. */
  datatype Phase = Acquiring | Waiting | Forwarding | Streaming | Done

  /** `released` is the flag `_finish` flips. */
  datatype Request = Request(phase: Phase, released: bool)

  datatype State = State(
    depth: nat, inflight: nat, slot: Option<nat>, requests: map<nat, Request>,
    releases: nat)  // releases of the GPU started so far

  datatype Event =
    | Arrive(id: nat)
    | Refused(id: nat)
    | Granted(id: nat)
    | AcquireRaised(id: nat)    // the call to the arbiter raised instead of answering
    | CancelledWaiting(id: nat)
    | TookSlot(id: nat)
    | SwapRaised(id: nat)       // took the slot, then failed before forwarding
    | ForwardFailed(id: nat)
    | Responded(id: nat)
    | StreamEnded(id: nat)      // read to the end, broken off or disconnected

  const INIT := State(0, 0, None, map[], 0)

  predicate InPhase(s: State, id: nat, p: Phase) { id in s.requests && s.requests[id].phase == p }

  predicate Enabled(s: State, e: Event) {
    match e
    case Arrive(id) => id !in s.requests
    case Refused(id) => InPhase(s, id, Acquiring)
    case Granted(id) => InPhase(s, id, Acquiring)
    case AcquireRaised(id) => InPhase(s, id, Acquiring)
    case CancelledWaiting(id) => InPhase(s, id, Waiting)
    case TookSlot(id) => InPhase(s, id, Waiting) && s.slot.None?
    case SwapRaised(id) => InPhase(s, id, Waiting) && s.slot.None?
    case ForwardFailed(id) => InPhase(s, id, Forwarding)
    case Responded(id) => InPhase(s, id, Forwarding)
    case StreamEnded(id) => InPhase(s, id, Streaming)
  }

  /** `max(0, n - 1)` */
  function Clamped(n: nat): nat { if n == 0 then 0 else n - 1 }

  function Moved(s: State, id: nat, p: Phase): State
    requires id in s.requests
  {
    s.(requests := s.requests[id := s.requests[id].(phase := p)])
  }

  function Dequeued(s: State): State { s.(depth := Clamped(s.depth)) }

  /** The request's `_finish`. */
  function Finished(s: State, id: nat): (r: State)
    requires id in s.requests
    ensures id in r.requests
  {
    if s.requests[id].released then s
    else
      var left := Clamped(s.inflight);
      s.(inflight := left,
         requests := s.requests[id := s.requests[id].(released := true)],
         releases := if left == 0 && s.depth == 0 then s.releases + 1 else s.releases)
  }

  function Step(s: State, e: Event): State
    requires Enabled(s, e)
  {
    match e
    case Arrive(id) =>
      s.(depth := s.depth + 1, inflight := s.inflight + 1, requests := s.requests[id := Request(Acquiring, false)])
    case Refused(id) => Moved(Finished(Dequeued(s), id), id, Done)
    case Granted(id) => Moved(s, id, Waiting)
    case AcquireRaised(id) => Moved(Finished(s, id), id, Done)
    case CancelledWaiting(id) => Moved(Finished(Dequeued(s), id), id, Done)
    case TookSlot(id) => Moved(Dequeued(s).(slot := Some(id)), id, Forwarding)
    case SwapRaised(id) => Moved(Finished(Dequeued(s), id), id, Done)
    // the forwarding code finishes the request, then the handler's own clean-up tries again
    case ForwardFailed(id) => Moved(Finished(Finished(s.(slot := None), id), id), id, Done)
    case Responded(id) => Moved(s, id, Streaming)
    case StreamEnded(id) => Moved(Finished(s.(slot := None), id), id, Done)
  }

  predicate Legal(s: State, run: seq<Event>)
    decreases |run|
  {
    run == [] || (Enabled(s, run[0]) && Legal(Step(s, run[0]), run[1..]))
  }

  function Exec(s: State, run: seq<Event>): State
    requires Legal(s, run)
    decreases |run|
  {
    if run == [] then s else Exec(Step(s, run[0]), run[1..])
  }

  /** How many times the arbiter call raised in a run. */
  function Raises(run: seq<Event>): nat {
    if run == [] then 0 else (if run[0].AcquireRaised? then 1 else 0) + Raises(run[1..])
  }

  // -- invariants --

  function Unfinished(s: State): set<nat> { set id | id in s.requests && s.requests[id].phase != Done }

  function Queued(s: State): set<nat> {
    set id | id in s.requests && (s.requests[id].phase == Acquiring || s.requests[id].phase == Waiting)
  }

  predicate OnSlot(s: State, id: nat) { InPhase(s, id, Forwarding) || InPhase(s, id, Streaming) }

  predicate Flags(s: State) {
    && (forall id :: id in s.requests ==> (s.requests[id].released <==> s.requests[id].phase == Done))
    && (forall id :: id in s.requests ==> (OnSlot(s, id) <==> s.slot == Some(id)))
    && (s.slot.Some? ==> s.slot.value in s.requests)
  }

  /** With `lost` queue entries never taken back. */
  predicate Inv(s: State, lost: nat) {
    s.inflight == |Unfinished(s)| && s.depth == |Queued(s)| + lost && Flags(s)
  }

  lemma OneLess<T>(a: set<T>, b: set<T>, x: T)
    requires x in a && b == a - {x}
    ensures |b| == |a| - 1
  {
  }

  /** Where a step moves a request, seen from the two counted sets. */
  lemma SetsAfter(s: State, t: State, id: nat)
    requires t.requests.Keys == s.requests.Keys + {id}
    requires forall k :: k in s.requests && k != id ==> t.requests[k] == s.requests[k]
    ensures Unfinished(t) == Unfinished(s) - {id} + (if t.requests[id].phase == Done then {} else {id})
    ensures var p := t.requests[id].phase;
      Queued(t) == Queued(s) - {id} + (if p == Acquiring || p == Waiting then {id} else {})
  {
    assert id in t.requests.Keys;
    forall k ensures k in t.requests <==> k in s.requests || k == id {
      assert k in t.requests.Keys <==> k in s.requests.Keys + {id};
    }
  }

  function Lost(e: Event): nat { if e.AcquireRaised? then 1 else 0 }

  lemma StepKeepsFlags(s: State, e: Event)
    requires Flags(s) && Enabled(s, e)
    ensures Flags(Step(s, e))
  {
  }

  /** The phase a request is in after its event. */
  function Target(e: Event): Phase {
    match e
    case Arrive(_) => Acquiring
    case Granted(_) => Waiting
    case TookSlot(_) => Forwarding
    case Responded(_) => Streaming
    case _ => Done
  }

  /** What a step does to the counters, by the phase the request leaves and the one it enters. */
  lemma StepCounts(s: State, e: Event)
    requires Flags(s) && Enabled(s, e)
    ensures var t := Step(s, e);
      && t.requests.Keys == s.requests.Keys + {e.id}
      && (forall k :: k in s.requests && k != e.id ==> t.requests[k] == s.requests[k])
      && t.requests[e.id].phase == Target(e)
      && t.inflight == (if e.Arrive? then s.inflight + 1
                        else if Target(e) == Done then Clamped(s.inflight) else s.inflight)
      && t.depth == (if e.Arrive? then s.depth + 1
        else if e.AcquireRaised? || e.Granted? || OnSlot(s, e.id) then s.depth else Clamped(s.depth))
  {
  }

  lemma StepKeepsInv(s: State, e: Event, lost: nat)
    requires Inv(s, lost) && Enabled(s, e)
    ensures Inv(Step(s, e), lost + Lost(e))
  {
    hide Step, Enabled, Flags, Unfinished, Queued, OnSlot;
    StepKeepsFlags(s, e);
    StepCounts(s, e);
    EventPhase(s, e);
    SizesAfter(s, Step(s, e), e.id);
  }

  /** How moving one request changes the two numbers. */
  lemma SizesAfter(s: State, t: State, id: nat)
    requires t.requests.Keys == s.requests.Keys + {id}
    requires forall k :: k in s.requests && k != id ==> t.requests[k] == s.requests[k]
    ensures var p := t.requests[id].phase;
      && |Unfinished(t)| == |Unfinished(s)| - (if id in Unfinished(s) then 1 else 0) + (if p == Done then 0 else 1)
      && |Queued(t)| == |Queued(s)| - (if id in Queued(s) then 1 else 0)
                        + (if p == Acquiring || p == Waiting then 1 else 0)
  {
    SetsAfter(s, t, id);
    hide Unfinished, Queued;
    var p := t.requests[id].phase;
    SizeAfter(Unfinished(s), Unfinished(t), id, p != Done);
    SizeAfter(Queued(s), Queued(t), id, p == Acquiring || p == Waiting);
  }

  lemma SizeAfter(a: set<nat>, b: set<nat>, x: nat, stays: bool)
    requires b == a - {x} + if stays then {x} else {}
    ensures |b| == |a| - (if x in a then 1 else 0) + if stays then 1 else 0
  {
    if x in a { OneLess(a, a - {x}, x); } else { assert a - {x} == a; }
    assert b == if stays then a - {x} + {x} else a - {x};
  }

  lemma EventPhase(s: State, e: Event)
    requires Enabled(s, e)
    ensures e.Arrive? <==> e.id !in s.requests
    ensures OnSlot(s, e.id) <==> e.ForwardFailed? || e.Responded? || e.StreamEnded?
    ensures e.id in Queued(s) <==> !e.Arrive? && !OnSlot(s, e.id)
    ensures e.id in Unfinished(s) <==> !e.Arrive?
  {
  }

  lemma InvSets(s: State)
    ensures forall id :: id in Unfinished(s) <==> id in s.requests && s.requests[id].phase != Done
    ensures forall id :: id in Queued(s) <==> InPhase(s, id, Acquiring) || InPhase(s, id, Waiting)
  {
  }

  lemma {:induction false} RunKeepsInv(s: State, run: seq<Event>, lost: nat)
    requires Inv(s, lost) && Legal(s, run)
    ensures Inv(Exec(s, run), lost + Raises(run))
    decreases |run|
  {
    hide Inv, Step, Enabled;
    if run != [] {
      StepKeepsInv(s, run[0], lost);
      RunKeepsInv(Step(s, run[0]), run[1..], lost + Lost(run[0]));
    }
  }

  lemma InitInv()
    ensures Inv(INIT, 0)
  {
  }

  /**
    In every interleaving the in-flight count is the number of unfinished requests, and
    the queue depth is the number still waiting plus one for every time the arbiter call
    raised; so depth stays within in-flight as long as it never does.
  */
  lemma CountersAreExact(run: seq<Event>)
    requires Legal(INIT, run)
    ensures var s := Exec(INIT, run);
      && s.inflight == |Unfinished(s)| && s.depth == |Queued(s)| + Raises(run)
      && (Raises(run) == 0 ==> s.depth <= s.inflight)
  {
    hide Unfinished, Queued;
    InitInv();
    RunKeepsInv(INIT, run, 0);
    var s := Exec(INIT, run);
    InvSets(s);
    SubsetCard(Queued(s), Unfinished(s));
  }

  /** A request that leaves the queue, or finishes, finds its counter above zero: the clamps never act. */
  lemma ClampsNeverAct(run: seq<Event>, id: nat)
    requires Legal(INIT, run)
    ensures var s := Exec(INIT, run);
      && (InPhase(s, id, Acquiring) || InPhase(s, id, Waiting) ==> s.depth > 0)
      && (id in s.requests && !s.requests[id].released ==> s.inflight > 0)
  {
    CountersAreExact(run);
    var s := Exec(INIT, run);
    InitInv();
    RunKeepsInv(INIT, run, 0);
    InvSets(s);
    if id in Queued(s) { SubsetCard({id}, Queued(s)); }
    if id in Unfinished(s) { SubsetCard({id}, Unfinished(s)); }
  }

  /** The slot lock is held exactly while one request is being forwarded or streamed, and by that request. */
  lemma SlotHasOneOwner(run: seq<Event>, a: nat, b: nat)
    requires Legal(INIT, run)
    ensures var s := Exec(INIT, run);
      && (OnSlot(s, a) <==> s.slot == Some(a))
      && (OnSlot(s, a) && OnSlot(s, b) ==> a == b)
  {
    hide Unfinished, Queued;
    InitInv();
    RunKeepsInv(INIT, run, 0);
  }

  /** What ends a request. */
  predicate Ends(e: Event) {
    e.Refused? || e.AcquireRaised? || e.CancelledWaiting? || e.SwapRaised? || e.ForwardFailed? || e.StreamEnded?
  }

  lemma FinishCounts(s: State, e: Event, lost: nat)
    requires Inv(s, lost) && Enabled(s, e)
    ensures var t := Step(s, e);
      && (Ends(e) ==> t.inflight == s.inflight - 1)
      && (t.releases == s.releases + 1 <==> Ends(e) && t.inflight == 0 && t.depth == 0)
      && (t.releases == s.releases || t.releases == s.releases + 1)
  {
    hide Unfinished, Queued;
    InvSets(s);
    if Ends(e) { SubsetCard({e.id}, Unfinished(s)); }
  }

  /**
    Each request is taken off the in-flight count once, when it ends. Unless the arbiter
    call has raised, a release is started then if and only if nobody else is in flight.
  */
  lemma ReleaseIffLastEnds(run: seq<Event>, e: Event)
    requires Legal(INIT, run) && Enabled(Exec(INIT, run), e)
    ensures var s := Exec(INIT, run); var t := Step(s, e);
      && (Ends(e) ==> t.inflight == s.inflight - 1)
      && (t.releases > s.releases ==> Ends(e) && t.inflight == 0 && t.depth == 0 && Unfinished(t) == {})
      && (Raises(run) == 0 && !e.AcquireRaised? ==> (t.releases > s.releases <==> Ends(e) && Unfinished(t) == {}))
  {
    hide Unfinished, Queued, Step;
    var s := Exec(INIT, run);
    InitInv();
    RunKeepsInv(INIT, run, 0);
    FinishCounts(s, e, Raises(run));
    StepKeepsInv(s, e, Raises(run));
    var t := Step(s, e);
    InvSets(t);
    if Unfinished(t) == {} { assert Queued(t) == {}; }
  }

  lemma {:induction false} NeverIdleAgain(s: State, run: seq<Event>, lost: nat)
    requires Inv(s, lost) && lost > 0 && Legal(s, run)
    ensures Exec(s, run).depth > 0 && Exec(s, run).releases == s.releases
    decreases |run|
  {
    hide Unfinished, Queued, Step;
    if run != [] {
      FinishCounts(s, run[0], lost);
      StepKeepsInv(s, run[0], lost);
      NeverIdleAgain(Step(s, run[0]), run[1..], lost + Lost(run[0]));
    }
  }

  lemma {:induction false} SplitRun(s: State, a: seq<Event>, b: seq<Event>)
    requires Legal(s, a + b)
    ensures Legal(s, a) && Legal(Exec(s, a), b) && Exec(s, a + b) == Exec(Exec(s, a), b)
    ensures Raises(a + b) == Raises(a) + Raises(b)
    decreases |a|
  {
    hide Step, Enabled;
    if a == [] {
      assert a + b == b;
    } else {
      assert (a + b)[1..] == a[1..] + b;
      SplitRun(Step(s, a[0]), a[1..], b);
    }
  }

  /** Once the arbiter call has raised, its queue entry stays and no release is ever started again. */
  lemma RaiseBlocksEveryRelease(before: seq<Event>, after: seq<Event>)
    requires Legal(INIT, before + after) && Raises(before) > 0
    ensures Legal(INIT, before) && Exec(INIT, before + after).releases == Exec(INIT, before).releases
  {
    hide Inv;
    SplitRun(INIT, before, after);
    InitInv();
    RunKeepsInv(INIT, before, 0);
    NeverIdleAgain(Exec(INIT, before), after, Raises(before));
  }

  // -- the counters and the handler, as objects --

  /** `OrchestratorState`: the counters and the slot lock. */
  class OrchestratorState {
    var queueDepth: nat
    var llmInflight: nat
    var slot: Option<nat>

    constructor ()
      ensures queueDepth == 0 && llmInflight == 0 && slot == None
    {
      queueDepth, llmInflight, slot := 0, 0, None;
    }

    method IncrementQueue()
      modifies this`queueDepth
      ensures queueDepth == old(queueDepth) + 1
    { queueDepth := queueDepth + 1; }

    method DecrementQueue()
      modifies this`queueDepth
      ensures queueDepth == Clamped(old(queueDepth))
    { queueDepth := if queueDepth - 1 > 0 then queueDepth - 1 else 0; }

    method LlmRequestStarted()
      modifies this`llmInflight
      ensures llmInflight == old(llmInflight) + 1
    { llmInflight := llmInflight + 1; }

    method LlmRequestFinished()
      modifies this`llmInflight
      ensures llmInflight == Clamped(old(llmInflight))
    { llmInflight := if llmInflight - 1 > 0 then llmInflight - 1 else 0; }

    method TakeSlot(id: nat)
      requires slot.None?
      modifies this`slot
      ensures slot == Some(id)
    { slot := Some(id); }

    method ReleaseSlot(id: nat)
      requires slot == Some(id)
      modifies this`slot
      ensures slot == None
    { slot := None; }
  }

  /** The swappable path of the `proxy` handler; every method runs from one await to the next. */
  class Proxy {
    const state: OrchestratorState
    var requests: map<nat, Request>
    var releases: nat
    ghost var lost: nat

    ghost function View(): State
      reads this, state
    { State(state.queueDepth, state.llmInflight, state.slot, requests, releases) }

    ghost predicate Valid()
      reads this, state
    { Inv(View(), lost) }

    constructor ()
      ensures Valid() && View() == INIT && lost == 0 && fresh(state)
    {
      var s := new OrchestratorState();
      state, requests, releases, lost := s, map[], 0, 0;
      new;
      InitInv();
    }

    method Move(id: nat, p: Phase)
      requires id in requests
      modifies this`requests
      ensures View() == Moved(old(View()), id, p)
    { requests := requests[id := requests[id].(phase := p)]; }

    /** `_finish` */
    method Finish(id: nat)
      requires id in requests
      modifies this`requests, this`releases, state`llmInflight
      ensures View() == Finished(old(View()), id)
    {
      if requests[id].released { return; }
      requests := requests[id := requests[id].(released := true)];
      state.LlmRequestFinished();
      if state.llmInflight == 0 && state.queueDepth == 0 { releases := releases + 1; }
    }

    method Begin(id: nat)
      requires Valid() && Enabled(View(), Arrive(id))
      modifies this, state
      ensures Valid() && View() == Step(old(View()), Arrive(id)) && lost == old(lost)
    {
      hide Inv;
      StepKeepsInv(View(), Arrive(id), lost);
      state.IncrementQueue();
      requests := requests[id := Request(Acquiring, false)];
      state.LlmRequestStarted();
    }

    /** The arbiter answered. */
    method Answered(id: nat, granted: bool)
      requires Valid() && Enabled(View(), Granted(id))
      modifies this, state
      ensures Valid() && lost == old(lost)
      ensures View() == Step(old(View()), if granted then Granted(id) else Refused(id))
    {
      hide Inv;
      StepKeepsInv(View(), if granted then Granted(id) else Refused(id), lost);
      if granted {
        Move(id, Waiting);
      } else {
        state.DecrementQueue();
        Finish(id);
        Move(id, Done);
      }
    }

    /** The call to the arbiter raised: only the outer clean-up runs. */
    method AnswerRaised(id: nat)
      requires Valid() && Enabled(View(), AcquireRaised(id))
      modifies this, state
      ensures Valid() && View() == Step(old(View()), AcquireRaised(id)) && lost == old(lost) + 1
    {
      hide Inv;
      StepKeepsInv(View(), AcquireRaised(id), lost);
      Finish(id);
      Move(id, Done);
      lost := lost + 1;
    }

    /** Waiting for the slot lock ended: with the lock, or cancelled. */
    method SlotAwaited(id: nat, got: bool, swapRaises: bool)
      requires Valid() && Enabled(View(), CancelledWaiting(id)) && (got ==> View().slot.None?)
      modifies this, state
      ensures Valid() && lost == old(lost)
      ensures View() == Step(old(View()),
        if !got then CancelledWaiting(id) else if swapRaises then SwapRaised(id) else TookSlot(id))
    {
      hide Inv;
      ghost var e := if !got then CancelledWaiting(id) else if swapRaises then SwapRaised(id) else TookSlot(id);
      StepKeepsInv(View(), e, lost);
      if got { state.TakeSlot(id); }
      state.DecrementQueue();
      if got && !swapRaises {
        Move(id, Forwarding);
      } else {
        if got { state.ReleaseSlot(id); }
        Finish(id);
        Move(id, Done);
      }
    }

    /** The model answered with its first byte, or the forward failed. */
    method Forwarded(id: nat, failed: bool)
      requires Valid() && Enabled(View(), ForwardFailed(id))
      modifies this, state
      ensures Valid() && lost == old(lost)
      ensures View() == Step(old(View()), if failed then ForwardFailed(id) else Responded(id))
    {
      HasSlot(View(), id, lost);
      hide Inv;
      StepKeepsInv(View(), if failed then ForwardFailed(id) else Responded(id), lost);
      if failed {
        state.ReleaseSlot(id);
        Finish(id);
        Finish(id);
        Move(id, Done);
      } else {
        Move(id, Streaming);
      }
    }

    /** The stream's own clean-up, however it ended. */
    method StreamClosed(id: nat)
      requires Valid() && Enabled(View(), StreamEnded(id))
      modifies this, state
      ensures Valid() && View() == Step(old(View()), StreamEnded(id)) && lost == old(lost)
    {
      HasSlot(View(), id, lost);
      hide Inv;
      StepKeepsInv(View(), StreamEnded(id), lost);
      state.ReleaseSlot(id);
      Finish(id);
      Move(id, Done);
    }
  }

  /** A request that releases the slot is the one holding it. */
  lemma HasSlot(s: State, id: nat, lost: nat)
    requires Inv(s, lost) && (InPhase(s, id, Forwarding) || InPhase(s, id, Streaming))
    ensures s.slot == Some(id)
  {
    hide Unfinished, Queued;
  }
}
