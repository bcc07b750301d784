/**
  The GPU lease protocol of the arbiter: acquire, release, reap and the reclaim
  notice, one step per stretch of code between awaits.

  A run is a script of events. `Step` is what the code does in one stretch;
  everything the outside world decides (readings, timeouts, container state,
  when a holder releases or polls) is carried by the event.
*/
module GpuLease {
  import opened Wrappers

  type Name = string

  /** `kind` in jobs.yaml: how the card is taken back. Plain is "none". */
  datatype Kind = Plain | Cooperative | Container

  datatype Job = Job(kind: Kind, priority: int, requiredMb: nat)

  /** The job table, in the order `self.reclaimers` and `self.jobs` iterate it. */
  datatype Policy = Policy(order: seq<Name>, jobs: map<Name, Job>, staleAfter: real, settleTimeout: real)
  {
    ghost predicate WellFormed() {
      && (forall i, j :: 0 <= i < j < |order| ==> order[i] != order[j])
      && (forall n :: n in jobs <==> n in order)
      && staleAfter > 0.0
    }

    predicate Has(n: Name) { n in jobs }

    function Priority(n: Name): int
      requires Has(n)
    { jobs[n].priority }

    predicate IsKind(n: Name, k: Kind) { n in jobs && jobs[n].kind == k }

    /** load_jobs sorts by descending priority. */
    ghost predicate Sorted() {
      forall i, j :: 0 <= i < j < |order| && Has(order[i]) && Has(order[j]) ==> Priority(order[i]) >= Priority(order[j])
    }

    ghost predicate NoContainers() {
      forall n :: n in jobs ==> jobs[n].kind != Container
    }
  }

  datatype Request = Request(job: Name, since: real, timeout: real)

  function RealMax(a: real, b: real): real { if a >= b then a else b }
  function RealMin(a: real, b: real): real { if a <= b then a else b }

  /** Where the task that owns `_lock` is suspended; Free when nobody owns it. */
  datatype Phase =
    | Free
    | Scan(req: Request, next: nat, stopped: seq<Name>)
    | Waiting(req: Request, next: nat, stopped: seq<Name>, until: real)
    | Settling(req: Request, stopped: seq<Name>, until: real, wake: real, previous: int)
    | Admitting(req: Request, stopped: seq<Name>)

  /**
    held, wanted, letGo and lastPoll are the reclaimers' fields; `up` is which
    containers run, `blocked` the jobs with a notice poll waiting on an unset
    event. The last three sets are history: containers down at some moment since
    their latest grant, holders that released since it, and leases the reaper
    cleared since it.
  */
  datatype State = State(
    held: set<Name>, wanted: set<Name>, letGo: set<Name>, lastPoll: map<Name, real>,
    up: set<Name>, blocked: set<Name>, phase: Phase, now: real,
    sawDown: set<Name>, gaveUp: set<Name>, reaped: set<Name>)

  datatype Event =
    | Enter(job: Name, timeout: real)
    | Look
    | ScanDone(reading: Option<int>)
    | Reclaimed
    | TimedOut
    | Woke(reading: Option<int>)
    | Admit(reading: Option<int>)
    | Release(job: Name)
    | Reap
    | PollStart(job: Name)
    | PollEnd(job: Name, answer: bool)
    | Tick(span: real)
    | Up(job: Name)
    | Down(job: Name)

  function Init(): State {
    State({}, {}, {}, map[], {}, {}, Free, 0.0, {}, {}, {})
  }

  /** `reclaimer.holds()`: a lease, and for a container also a running container. */
  predicate Holds(p: Policy, s: State, n: Name) {
    n in s.held && (p.IsKind(n, Container) ==> n in s.up)
  }

  function LastPoll(s: State, n: Name): real {
    if n in s.lastPoll then s.lastPoll[n] else 0.0
  }

  predicate Fits(p: Policy, n: Name, reading: Option<int>)
    requires p.Has(n)
  {
    p.jobs[n].requiredMb == 0 || reading.None? || reading.value >= p.jobs[n].requiredMb
  }

  /** What a notice poll by `n` answers: "keep it" only from one that has been blocked and never woken. */
  predicate MayAnswer(s: State, n: Name, answer: bool) { !answer ==> n in s.blocked }

  predicate Enabled(p: Policy, s: State, e: Event) {
    match e
    case Enter(n, _) => s.phase.Free? && p.Has(n)
    case Look => s.phase.Scan? && s.phase.next < |p.order|
    case ScanDone(_) => s.phase.Scan? && s.phase.next == |p.order|
    case Reclaimed =>
      && s.phase.Waiting? && s.phase.next < |p.order|
      && var o := p.order[s.phase.next];
         if p.IsKind(o, Container) then o !in s.up else o in s.letGo
    case TimedOut =>
      && s.phase.Waiting? && s.phase.next < |p.order|
      && (p.IsKind(p.order[s.phase.next], Container) || s.now >= s.phase.until)
    case Woke(_) => s.phase.Settling? && s.now >= s.phase.wake
    case Admit(_) => s.phase.Admitting? && p.Has(s.phase.req.job)
    case Release(n) => p.Has(n)
    case Reap => s.phase.Free?
    case PollStart(n) => p.IsKind(n, Cooperative) && n in s.held
    case PollEnd(n, answer) => p.IsKind(n, Cooperative) && MayAnswer(s, n, answer)
    case Tick(d) =>
      && d > 0.0
      && (s.phase.Free? || (s.phase.Waiting? && s.now + d <= s.phase.until)
          || (s.phase.Settling? && s.now + d <= s.phase.wake))
    case Up(n) => p.IsKind(n, Container)
    case Down(n) => p.IsKind(n, Container)
  }

  /** `forget()`: for a cooperative job this also wakes whoever waits on the release. */
  function Forget(p: Policy, s: State, gone: set<Name>): State {
    var coop := set n | n in gone && p.IsKind(n, Cooperative);
    s.(held := s.held - gone, wanted := s.wanted - coop, letGo := s.letGo + coop)
  }

  function Grant(p: Policy, s: State, n: Name): State {
    var t := s.(held := s.held + {n}, phase := Free,
                gaveUp := s.gaveUp - {n}, reaped := s.reaped - {n},
                sawDown := if p.IsKind(n, Container) && n !in s.up then s.sawDown + {n} else s.sawDown - {n});
    if p.IsKind(n, Cooperative) then
      t.(wanted := s.wanted - {n}, letGo := s.letGo - {n}, lastPoll := s.lastPoll[n := s.now])
    else t
  }

  /** One turn of the loop over `self.reclaimers` in acquire. */
  function LookAt(p: Policy, s: State, o: Name): State
    requires s.phase.Scan?
  {
    var Scan(req, next, stopped) := s.phase;
    if o == req.job || !Holds(p, s, o) then
      s.(phase := Scan(req, next + 1, stopped))
    else if p.Has(o) && p.Has(req.job) && p.Priority(o) >= p.Priority(req.job) then
      s.(phase := Free)
    else if p.IsKind(o, Plain) then
      s.(held := s.held - {o}, phase := Scan(req, next + 1, stopped + [o]))
    else
      s.(wanted := if p.IsKind(o, Cooperative) then s.wanted + {o} else s.wanted,
         blocked := s.blocked - {o},
         phase := Waiting(req, next, stopped, s.now + RealMax(1.0, req.since + req.timeout - s.now)))
  }

  /** The leases a reap clears: silent cooperative holders and containers found down. */
  function Stale(p: Policy, s: State): set<Name> {
    set n | n in s.held &&
      ((p.IsKind(n, Container) && n !in s.up) ||
       (p.IsKind(n, Cooperative) && s.now - LastPoll(s, n) > p.staleAfter))
  }

  function Step(p: Policy, s: State, e: Event): State
    requires Enabled(p, s, e)
  {
    match e
    case Enter(n, t) =>
      if Holds(p, s, n) then s else s.(phase := Scan(Request(n, s.now, t), 0, []))
    case Look => LookAt(p, s, p.order[s.phase.next])
    case ScanDone(reading) =>
      var Scan(req, _, stopped) := s.phase;
      if stopped == [] || reading.None? then s.(phase := Admitting(req, stopped))
      else
        var patience := RealMax(1.0, RealMin(p.settleTimeout, req.since + req.timeout - s.now));
        s.(phase := Settling(req, stopped, s.now + patience, s.now + 0.5, reading.value))
    case Reclaimed =>
      var Waiting(req, next, stopped, _) := s.phase;
      var o := p.order[next];
      s.(held := s.held - {o}, phase := Scan(req, next + 1, stopped + [o]))
    case TimedOut => s.(phase := Free)
    case Woke(reading) =>
      var Settling(req, stopped, until, _, previous) := s.phase;
      if reading.None? || reading.value <= previous then s.(phase := Admitting(req, stopped))
      else if s.now < until then s.(phase := Settling(req, stopped, until, s.now + 0.5, reading.value))
      else s.(phase := Free)
    case Admit(reading) =>
      if Fits(p, s.phase.req.job, reading) then Grant(p, s, s.phase.req.job) else s.(phase := Free)
    case Release(n) =>
      if Holds(p, s, n) then Forget(p, s, {n}).(gaveUp := s.gaveUp + {n}) else s
    case Reap => Forget(p, s, Stale(p, s)).(reaped := s.reaped + Stale(p, s))
    case PollStart(n) =>
      s.(lastPoll := s.lastPoll[n := s.now], blocked := if n in s.wanted then s.blocked else s.blocked + {n})
    case PollEnd(n, _) => s.(lastPoll := s.lastPoll[n := s.now], blocked := s.blocked - {n})
    case Tick(d) => s.(now := s.now + d)
    case Up(n) => s.(up := s.up + {n})
    case Down(n) => s.(up := s.up - {n}, sawDown := s.sawDown + {n})
  }

  // -- runs --

  ghost predicate Legal(p: Policy, s: State, es: seq<Event>)
    decreases |es|
  {
    es == [] || (Enabled(p, s, es[0]) && Legal(p, Step(p, s, es[0]), es[1..]))
  }

  ghost function Exec(p: Policy, s: State, es: seq<Event>): State
    requires Legal(p, s, es)
    decreases |es|
  {
    if es == [] then s else Exec(p, Step(p, s, es[0]), es[1..])
  }

  ghost predicate AtMostOneLease(s: State) {
    forall a, b :: a in s.held && b in s.held ==> a == b
  }

  // -- the invariant --

  /** Nobody the scan has already passed still holds a lease that was not seen down. */
  ghost predicate Passed(p: Policy, s: State, job: Name, next: nat) {
    && (forall i :: 0 <= i < next && i < |p.order| && p.order[i] in s.held ==>
          p.order[i] == job || p.order[i] in s.sawDown)
    && (job in s.held ==> job in s.sawDown)
  }

  ghost predicate StoppedBelow(p: Policy, job: Name, next: nat, stopped: seq<Name>)
    requires p.Has(job)
  {
    forall x :: x in stopped ==>
      && p.Has(x) && p.Priority(x) < p.Priority(job)
      && exists i :: 0 <= i < next && i < |p.order| && p.order[i] == x
  }

  ghost predicate PhaseInv(p: Policy, s: State) {
    match s.phase
    case Free => true
    case Scan(req, next, stopped) =>
      p.Has(req.job) && next <= |p.order| && Passed(p, s, req.job, next) && StoppedBelow(p, req.job, next, stopped)
    case Waiting(req, next, stopped, _) =>
      && p.Has(req.job) && next < |p.order| && Passed(p, s, req.job, next) && StoppedBelow(p, req.job, next, stopped)
      && var o := p.order[next];
         && o != req.job && p.Has(o) && p.Priority(o) < p.Priority(req.job) && !p.IsKind(o, Plain)
         && (p.IsKind(o, Cooperative) ==>
               o !in s.blocked && if o in s.held then o in s.wanted else o in s.letGo && o in s.gaveUp)
    case Settling(req, stopped, _, _, _) =>
      && p.Has(req.job) && Passed(p, s, req.job, |p.order|)
      && stopped != [] && StoppedBelow(p, req.job, |p.order|, stopped)
    case Admitting(req, stopped) =>
      && p.Has(req.job) && Passed(p, s, req.job, |p.order|) && StoppedBelow(p, req.job, |p.order|, stopped)
  }

  ghost predicate Inv(p: Policy, s: State) {
    && (forall n :: n in s.held ==> p.Has(n))
    && (forall n :: n in s.wanted ==> n in s.held && n !in s.blocked && p.IsKind(n, Cooperative))
    && (forall n :: n in s.letGo ==> n !in s.held && p.IsKind(n, Cooperative))
    && (forall n :: n in s.sawDown ==> p.IsKind(n, Container))
    && (forall n :: n in s.held && p.IsKind(n, Container) && n !in s.up ==> n in s.sawDown)
    && (forall a, b :: a in s.held && b in s.held && a != b ==> a in s.sawDown || b in s.sawDown)
    && PhaseInv(p, s)
  }

  lemma LookKeepsInv(p: Policy, s: State)
    requires p.WellFormed() && Inv(p, s) && Enabled(p, s, Look)
    ensures Inv(p, Step(p, s, Look))
  {
    var Scan(req, next, stopped) := s.phase;
    var o := p.order[next];
    assert p.Has(o);
    var s' := LookAt(p, s, o);
    if s'.phase.Scan? {
      assert Passed(p, s', req.job, next + 1);
      assert StoppedBelow(p, req.job, next + 1, s'.phase.stopped);
    }
  }

  lemma AdmitKeepsInv(p: Policy, s: State, reading: Option<int>)
    requires p.WellFormed() && Inv(p, s) && Enabled(p, s, Admit(reading))
    ensures Inv(p, Step(p, s, Admit(reading)))
  {
    var n := s.phase.req.job;
    var s' := Step(p, s, Admit(reading));
    forall a, b | a in s'.held && b in s'.held && a != b
      ensures a in s'.sawDown || b in s'.sawDown
    {
      assert a in p.order && b in p.order;
    }
  }

  lemma ReclaimedKeepsInv(p: Policy, s: State)
    requires p.WellFormed() && Inv(p, s) && Enabled(p, s, Reclaimed)
    ensures Inv(p, Step(p, s, Reclaimed))
  {
    var Waiting(req, next, stopped, _) := s.phase;
    var s' := Step(p, s, Reclaimed);
    assert Passed(p, s', req.job, next + 1);
    assert StoppedBelow(p, req.job, next + 1, s'.phase.stopped);
  }

  /** Clearing any set of leases is harmless, whoever holds the lock, if the holder gave up or nobody waits. */
  lemma ForgetKeepsInv(p: Policy, s: State, gone: set<Name>, s': State)
    requires p.WellFormed() && Inv(p, s) && gone <= s.held
    requires s' == Forget(p, s, gone).(gaveUp := s'.gaveUp, reaped := s'.reaped)
    requires s.phase.Free? || s'.gaveUp == s.gaveUp + gone
    ensures Inv(p, s')
  {
  }

  lemma {:induction false} StepKeepsInv(p: Policy, s: State, e: Event)
    requires p.WellFormed() && Inv(p, s) && Enabled(p, s, e)
    ensures Inv(p, Step(p, s, e))
  {
    match e
    case Look => LookKeepsInv(p, s);
    case Admit(r) => AdmitKeepsInv(p, s, r);
    case Reclaimed => ReclaimedKeepsInv(p, s);
    case Release(n) => if Holds(p, s, n) { ForgetKeepsInv(p, s, {n}, Step(p, s, e)); }
    case Reap => ForgetKeepsInv(p, s, Stale(p, s), Step(p, s, e));
    case ScanDone(r) => ReadingKeepsInv(p, s, e);
    case Woke(r) => ReadingKeepsInv(p, s, e);
    case Enter(_, _) => LockKeepsInv(p, s, e);
    case TimedOut => LockKeepsInv(p, s, e);
    case PollStart(_) => PollKeepsInv(p, s, e);
    case PollEnd(_, _) => PollKeepsInv(p, s, e);
    case _ => OutsideKeepsInv(p, s, e);
  }

  /** An acquire starts or is given up. */
  lemma LockKeepsInv(p: Policy, s: State, e: Event)
    requires p.WellFormed() && Inv(p, s) && Enabled(p, s, e) && (e.Enter? || e.TimedOut?)
    ensures Inv(p, Step(p, s, e))
  {
  }

  lemma PollKeepsInv(p: Policy, s: State, e: Event)
    requires p.WellFormed() && Inv(p, s) && Enabled(p, s, e) && (e.PollStart? || e.PollEnd?)
    ensures Inv(p, Step(p, s, e))
  {
    hide Passed, StoppedBelow;
    SameHeldSamePassed(p, s, Step(p, s, e));
  }

  /** Time passes, or a container starts or stops. */
  lemma OutsideKeepsInv(p: Policy, s: State, e: Event)
    requires p.WellFormed() && Inv(p, s) && Enabled(p, s, e) && (e.Tick? || e.Up? || e.Down?)
    ensures Inv(p, Step(p, s, e))
  {
    hide Passed, StoppedBelow;
    SameHeldSamePassed(p, s, Step(p, s, e));
  }

  lemma SameHeldSamePassed(p: Policy, s: State, t: State)
    requires t.held == s.held && s.sawDown <= t.sawDown
    ensures forall job, next :: Passed(p, s, job, next) ==> Passed(p, t, job, next)
  {
  }

  lemma ReadingKeepsInv(p: Policy, s: State, e: Event)
    requires p.WellFormed() && Inv(p, s) && Enabled(p, s, e) && (e.ScanDone? || e.Woke?)
    ensures Inv(p, Step(p, s, e))
  {
  }

  lemma {:induction false} RunKeepsInv(p: Policy, s: State, es: seq<Event>)
    requires p.WellFormed() && Inv(p, s) && Legal(p, s, es)
    ensures Inv(p, Exec(p, s, es))
    decreases |es|
  {
    if es != [] {
      StepKeepsInv(p, s, es[0]);
      RunKeepsInv(p, Step(p, s, es[0]), es[1..]);
    }
  }
}
