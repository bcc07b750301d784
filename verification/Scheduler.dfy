/**
  The arbiter's objects as the code has them: reclaimers whose fields are changed
  in place, and the scheduler whose methods loop over them. A ghost log records
  the protocol events a method goes through; Valid() says the log is a legal run
  and the fields are the state it leads to, so every theorem about runs is about
  these methods too.
*/
module Scheduler {
  import opened Wrappers
  import opened GpuLease
  import opened GpuLeaseTheorems

  /** One reclaimer's fields. */
  datatype Fields = Fields(held: bool, wanted: bool, letGo: bool, lastPoll: real)

  /** What the protocol state says of job `n`. */
  ghost function Seen(s: State, n: Name): Fields {
    Fields(n in s.held, n in s.wanted, n in s.letGo, LastPoll(s, n))
  }

  function Granted(f: Fields, kind: Kind, now: real): Fields {
    if kind == Cooperative then Fields(true, false, false, now) else f.(held := true)
  }

  function Forgotten(f: Fields, kind: Kind): Fields {
    if kind == Cooperative then f.(held := false, wanted := false, letGo := true) else f.(held := false)
  }

  class Reclaimer {
    const kind: Kind
    var held: bool
    var wanted: bool
    var letGo: bool
    var lastPoll: real

    function View(): Fields
      reads this
    { Fields(held, wanted, letGo, lastPoll) }

    constructor (kind: Kind)
      ensures this.kind == kind && View() == Fields(false, false, false, 0.0)
    {
      this.kind := kind;
      held, wanted, letGo, lastPoll := false, false, false, 0.0;
    }

    method Grant(now: real)
      modifies this
      ensures View() == Granted(old(View()), kind, now)
    {
      held := true;
      if kind == Cooperative { wanted, letGo, lastPoll := false, false, now; }
    }

    /** What `reclaim` does before it waits: a plain lease is dropped, a cooperative holder is told. */
    method Asked()
      modifies this
      ensures View() == match kind
        case Plain => old(View()).(held := false)
        case Cooperative => old(View()).(wanted := true)
        case Container => old(View())
    {
      if kind == Plain { held := false; }
      if kind == Cooperative { wanted := true; }
    }

    method Forget()
      modifies this
      ensures View() == Forgotten(old(View()), kind)
    {
      held := false;
      if kind == Cooperative { wanted, letGo := false, true; }
    }
  }

  datatype Turn = Passed | Taken | Refused

  /** What can happen while a task is suspended without the lock changing hands. */
  ghost predicate Outside(e: Event) {
    e.Release? || e.PollStart? || e.PollEnd? || e.Tick? || e.Up? || e.Down?
  }

  /** Job `n`'s fields once the pass has been over `done`. */
  ghost function Swept(p: Policy, s: State, n: Name, done: set<Name>): Fields
    requires p.Has(n)
  {
    if n in done && n in Stale(p, s) then Forgotten(Seen(s, n), p.jobs[n].kind) else Seen(s, n)
  }

  /** One job of the pass: its own fields as the reaper judges them, everybody else's as they are. */
  lemma SweepStep(p: Policy, s: State, n: Name, done: set<Name>)
    requires p.Has(n) && n !in done
    ensures var f := Swept(p, s, n, done); var dead := f.held && (
      || (p.jobs[n].kind == Container && n !in s.up)
      || (p.jobs[n].kind == Cooperative && s.now - f.lastPoll > p.staleAfter));
      Swept(p, s, n, done + {n}) == if dead then Forgotten(f, p.jobs[n].kind) else f
    ensures forall m :: m != n && p.Has(m) ==> Swept(p, s, m, done + {n}) == Swept(p, s, m, done)
  {
    StaleMeans(p, s, n);
  }

  lemma SweptIsReap(p: Policy, s: State, n: Name, all: set<Name>)
    requires Enabled(p, s, Reap) && p.Has(n) && n in all
    ensures Swept(p, s, n, {}) == Seen(s, n) && Swept(p, s, n, all) == Seen(Step(p, s, Reap), n)
  {
    ReapEffect(p, s, n);
  }

  lemma OrderIsDistinct(p: Policy, i: nat)
    requires p.WellFormed() && i < |p.order|
    ensures p.order[i] !in p.order[..i] && p.Has(p.order[i])
  {
  }

  // -- what single events do, field by field --

  lemma ReapEffect(p: Policy, s: State, n: Name)
    requires Enabled(p, s, Reap) && p.Has(n)
    ensures var t := Step(p, s, Reap);
      Seen(t, n) == if n in Stale(p, s) then Forgotten(Seen(s, n), p.jobs[n].kind) else Seen(s, n)
  {
  }

  lemma ClockKept(p: Policy, s: State, e: Event)
    requires Enabled(p, s, e) && (e.Reap? || e.Release? || e.Admit?)
    ensures Step(p, s, e).up == s.up && Step(p, s, e).now == s.now
  {
  }

  lemma StaleMeans(p: Policy, s: State, n: Name)
    requires p.Has(n)
    ensures n in Stale(p, s) <==> (Seen(s, n).held && (
      || (p.jobs[n].kind == Container && n !in s.up)
      || (p.jobs[n].kind == Cooperative && s.now - Seen(s, n).lastPoll > p.staleAfter)))
  {
  }

  lemma ReleaseEffect(p: Policy, s: State, gone: Name, n: Name)
    requires Enabled(p, s, Release(gone)) && p.Has(n)
    ensures var t := Step(p, s, Release(gone));
      Seen(t, n) == if n == gone && Holds(p, s, n) then Forgotten(Seen(s, n), p.jobs[n].kind) else Seen(s, n)
  {
  }

  lemma AdmitEffect(p: Policy, s: State, reading: Option<int>, n: Name)
    requires Enabled(p, s, Admit(reading)) && p.Has(n)
    ensures var t, job := Step(p, s, Admit(reading)), s.phase.req.job;
      Seen(t, n) == if n == job && Fits(p, job, reading) then Granted(Seen(s, n), p.jobs[n].kind, s.now) else Seen(s, n)
  {
  }

  lemma AdmitResult(p: Policy, s: State, reading: Option<int>)
    requires Enabled(p, s, Admit(reading))
    ensures var t, job := Step(p, s, Admit(reading)), s.phase.req.job;
      && t.phase.Free?
      && t.held == s.held + (if Fits(p, job, reading) then {job} else {})
      && forall m :: m != job || !Fits(p, job, reading) ==>
          (m in t.sawDown <==> m in s.sawDown) && (m in t.gaveUp <==> m in s.gaveUp)
  {
  }

  /** A scan that reaches a holder it outranks drops a plain lease and waits for any other. */
  lemma LookAsks(p: Policy, s: State, o: Name)
    requires Enabled(p, s, Look) && p.order[s.phase.next] == o
    requires o != s.phase.req.job && Holds(p, s, o)
    requires p.Has(s.phase.req.job) && p.Has(o) && p.Priority(o) < p.Priority(s.phase.req.job)
    ensures var Scan(req, next, stopped) := s.phase;
      Step(p, s, Look) ==
        if p.IsKind(o, Plain) then s.(held := s.held - {o}, phase := Scan(req, next + 1, stopped + [o]))
        else s.(wanted := if p.IsKind(o, Cooperative) then s.wanted + {o} else s.wanted,
                blocked := s.blocked - {o},
                phase := Waiting(req, next, stopped, s.now + RealMax(1.0, req.since + req.timeout - s.now)))
    ensures forall m :: m != o ==> Seen(Step(p, s, Look), m) == Seen(s, m)
    ensures Seen(Step(p, s, Look), o) == match p.jobs[o].kind
      case Plain => Seen(s, o).(held := false)
      case Cooperative => Seen(s, o).(wanted := true)
      case Container => Seen(s, o)
  {
  }

  lemma ReclaimedEffect(p: Policy, s: State, o: Name)
    requires Enabled(p, s, Reclaimed) && p.order[s.phase.next] == o
    ensures var Waiting(req, next, stopped, _) := s.phase;
      Step(p, s, Reclaimed) == s.(held := s.held - {o}, phase := Scan(req, next + 1, stopped + [o]))
    ensures forall m :: Seen(Step(p, s, Reclaimed), m) == if m == o then Seen(s, o).(held := false) else Seen(s, m)
  {
  }

  lemma SettleStarts(p: Policy, s: State, reading: Option<int>)
    requires Enabled(p, s, ScanDone(reading)) && s.phase.stopped != []
    ensures var Scan(req, _, stopped) := s.phase;
      var patience := RealMax(1.0, RealMin(p.settleTimeout, req.since + req.timeout - s.now));
      Step(p, s, ScanDone(reading)) == s.(phase :=
        if reading.None? then Admitting(req, stopped)
        else Settling(req, stopped, s.now + patience, s.now + 0.5, reading.value))
  {
  }

  lemma SettleWakes(p: Policy, s: State, reading: Option<int>)
    requires Enabled(p, s, Woke(reading))
    ensures var Settling(req, stopped, until, _, previous) := s.phase;
      Step(p, s, Woke(reading)) == s.(phase :=
        if reading.None? || reading.value <= previous then Admitting(req, stopped)
        else if s.now < until then Settling(req, stopped, until, s.now + 0.5, reading.value)
        else Free)
  {
  }

  class Scheduler {
    const policy: Policy
    const reclaimers: map<Name, Reclaimer>
    var up: set<Name>
    var now: real
    ghost var log: seq<Event>
    ghost var state: State

    /** Start with one reclaimer per configured job and no lease granted. */
    constructor (policy: Policy, reclaimers: map<Name, Reclaimer>)
      requires policy.WellFormed() && (forall n :: n in reclaimers <==> policy.Has(n))
      requires forall n :: n in reclaimers ==> policy.IsKind(n, reclaimers[n].kind)
      requires forall n :: n in reclaimers ==> reclaimers[n].View() == Seen(Init(), n)
      requires forall a, b :: a in reclaimers && b in reclaimers && a != b ==> reclaimers[a] != reclaimers[b]
      ensures Valid() && log == [] && state == Init()
      ensures this.policy == policy && this.reclaimers == reclaimers
    {
      this.policy := policy;
      this.reclaimers := reclaimers;
      up, now := {}, 0.0;
      log, state := [], Init();
    }

    /** The fields are the state of the run so far. */
    ghost predicate Matches()
      reads this, reclaimers.Values
    {
      && (forall n :: n in reclaimers ==> reclaimers[n].View() == Seen(state, n))
      && up == state.up && now == state.now
    }

    ghost predicate Valid()
      reads this, reclaimers.Values
    {
      && Wired() && Legal(policy, Init(), log) && state == Exec(policy, Init(), log)
      && Matches()
    }

    /** Record one protocol event; the caller then brings the fields in line. */
    ghost method Emit(e: Event)
      requires policy.WellFormed() && Legal(policy, Init(), log) && state == Exec(policy, Init(), log)
      requires Enabled(policy, state, e)
      modifies this`log, this`state
      ensures log == old(log) + [e] && state == Step(policy, old(state), e)
      ensures Legal(policy, Init(), log) && state == Exec(policy, Init(), log)
    {
      assert [e][1..] == [];
      RunAppend(policy, Init(), log, [e]);
      log := log + [e];
      state := Step(policy, state, e);
    }

    /** A stretch of code that only moves the task on: no reclaimer field changes. */
    ghost method Note(e: Event)
      requires Valid() && Enabled(policy, state, e)
      requires Step(policy, state, e) == state.(phase := Step(policy, state, e).phase)
      modifies this`log, this`state
      ensures Valid() && log == old(log) + [e] && state == Step(policy, old(state), e)
      ensures state == old(state).(phase := state.phase)
    {
      hide Legal, Exec, Step;
      Emit(e);
    }

    /** No grant, no lock handover: leases only shrink, and by release. */
    twostate predicate OnlyOutside()
      reads this, reclaimers.Values
    {
      && old(log) <= log
      && (forall i :: |old(log)| <= i < |log| ==> Outside(log[i]))
      && state.phase == old(state).phase
      && state.held <= old(state).held && old(state).gaveUp <= state.gaveUp
      && (forall n :: n in old(state).held && n !in state.held ==> n in state.gaveUp)
    }

    /**
      `asyncio.sleep(0.5)`. Callers know only this contract, which lets any releases,
      polls and container changes happen meanwhile.
    */
    method Sleep()
      requires Valid() && (state.phase.Settling? ==> now + 0.5 <= state.phase.wake)
      requires state.phase.Settling?
      modifies this, reclaimers.Values
      ensures Valid() && OnlyOutside() && now == old(now) + 0.5
    {
      Emit(Tick(0.5));
      now := now + 0.5;
    }

    /** `reclaim` of a cooperative or container job: wait for it to be off the card, but no longer than `until`. */
    method AwaitRelease(o: Name, until: real) returns (ok: bool)
      requires Valid() && state.phase.Waiting? && state.phase.until == until && o in reclaimers
      requires state.phase.next < |policy.order| && policy.order[state.phase.next] == o
      modifies this, reclaimers.Values
      ensures Valid() && OnlyOutside()
      ensures Enabled(policy, state, if ok then Reclaimed else TimedOut)
    {
      var there := if reclaimers[o].kind == Container then o !in up else reclaimers[o].letGo;
      if there { return true; }
      if now < until {
        Emit(Tick(until - now));
        now := until;
      }
      return false;
    }

    method ReadFreeMb() returns (reading: Option<int>)
    {
      reading := *;
    }

    method HoldsNow(n: Name) returns (holds: bool)
      requires Valid() && n in reclaimers
      ensures holds == Holds(policy, state, n)
    {
      holds := reclaimers[n].held && (reclaimers[n].kind == Container ==> n in up);
    }

    method Release(n: Name)
      requires Valid() && policy.Has(n)
      modifies this, reclaimers.Values
      ensures Valid() && log == old(log) + [GpuLease.Release(n)]
      ensures state == Step(policy, old(state), GpuLease.Release(n))
    {
      var holds := HoldsNow(n);
      hide Legal, Exec, Step, Seen;
      ghost var t := Step(policy, state, GpuLease.Release(n));
      forall m | m in reclaimers ensures
        Seen(t, m) == if m == n && holds then Forgotten(Seen(state, m), policy.jobs[m].kind) else Seen(state, m) {
        ReleaseEffect(policy, state, n, m);
      }
      ClockKept(policy, state, GpuLease.Release(n));
      Emit(GpuLease.Release(n));
      if holds { reclaimers[n].Forget(); }
    }

    method IsDead(n: Name) returns (dead: bool)
      requires n in reclaimers
      ensures dead == (reclaimers[n].held &&
        ((reclaimers[n].kind == Container && n !in up) ||
         (reclaimers[n].kind == Cooperative && now - reclaimers[n].lastPoll > policy.staleAfter)))
    {
      var r := reclaimers[n];
      dead := r.held && ((r.kind == Container && n !in up)
                         || (r.kind == Cooperative && now - r.lastPoll > policy.staleAfter));
    }

    /** One reclaimer per configured job, each its own object. */
    ghost predicate Wired() {
      && policy.WellFormed()
      && (forall n :: n in reclaimers <==> policy.Has(n))
      && (forall n :: n in reclaimers ==> reclaimers[n].kind == policy.jobs[n].kind)
      && (forall a, b :: a in reclaimers && b in reclaimers && a != b ==> reclaimers[a] != reclaimers[b])
    }

    /** `_drop_dead_leases`: one pass over the jobs. */
    method DropDeadLeases(ghost before: State)
      requires Wired() && now == before.now && up == before.up
      requires forall n :: n in reclaimers ==> reclaimers[n].View() == Swept(policy, before, n, {})
      modifies reclaimers.Values
      ensures forall n :: n in reclaimers ==> reclaimers[n].View() == Swept(policy, before, n, reclaimers.Keys)
    {
      hide Seen, Stale, Forgotten, Swept;
      var i := 0;
      ghost var done: set<Name> := {};
      while i < |policy.order|
        invariant 0 <= i <= |policy.order| && forall n :: n in done <==> n in policy.order[..i]
        invariant forall n :: n in reclaimers ==> reclaimers[n].View() == Swept(policy, before, n, done)
      {
        var n := policy.order[i];
        assert policy.order[..i + 1] == policy.order[..i] + [n];
        OrderIsDistinct(policy, i);
        SweepStep(policy, before, n, done);
        var dead := IsDead(n);
        if dead { reclaimers[n].Forget(); }
        done := done + {n};
        i := i + 1;
      }
      assert policy.order[..i] == policy.order && done == reclaimers.Keys;
    }

    /** `reap`: the pass, under the lock. */
    method Reap()
      requires Valid() && state.phase.Free?
      modifies this, reclaimers.Values
      ensures Valid() && log == old(log) + [GpuLease.Reap] && state == Step(policy, old(state), GpuLease.Reap)
    {
      hide Legal, Exec, Step, Seen, Swept;
      ghost var before := state;
      forall n | n in reclaimers { SweptIsReap(policy, before, n, reclaimers.Keys); }
      ClockKept(policy, state, GpuLease.Reap);
      Emit(GpuLease.Reap);
      DropDeadLeases(before);
    }

    lemma Invariant()
      requires Valid()
      ensures Inv(policy, state)
    {
      RunKeepsInv(policy, Init(), log);
    }

    /** At the admission check every other lease is a container's that was seen down. */
    lemma OthersGone(n: Name)
      requires Valid() && state.phase.Admitting? && state.phase.req.job == n
      ensures forall m :: m in state.held && m != n ==> m in state.sawDown
    {
      Invariant();
      assert forall m :: m in state.held ==> m in policy.order;
    }

    /** Since `from`: no new lease, and whoever lost one released it or ranks below `job`. */
    ghost predicate Preempted(from: State, job: Name)
      reads this
      requires policy.Has(job)
    {
      && state.held <= from.held
      && (forall m :: m in from.held && m !in state.held ==>
            m in state.gaveUp || (policy.Has(m) && policy.Priority(m) < policy.Priority(job)))
    }

    /** The scan reaches a holder it outranks: drop a plain lease, or ask for the card back. */
    method AskFor(o: Name)
      requires Valid() && state.phase.Scan? && o in reclaimers
      requires state.phase.next < |policy.order| && policy.order[state.phase.next] == o
      requires o != state.phase.req.job && Holds(policy, state, o)
      requires policy.Has(state.phase.req.job) && policy.Priority(o) < policy.Priority(state.phase.req.job)
      modifies this, reclaimers.Values
      ensures Valid() && old(log) < log && now == old(now)
      ensures var Scan(req, next, stopped) := old(state).phase;
              if policy.IsKind(o, Plain) then
                state == old(state).(held := old(state).held - {o}, phase := Scan(req, next + 1, stopped + [o]))
              else
                state == old(state).(wanted := state.wanted, blocked := state.blocked,
                  phase := Waiting(req, next, stopped, now + RealMax(1.0, req.since + req.timeout - now)))
    {
      hide Legal, Exec, Step, Seen, Holds;
      LookAsks(policy, state, o);
      Emit(Look);
      reclaimers[o].Asked();
      forall n | n in reclaimers ensures reclaimers[n].View() == Seen(state, n) {
        if n != o { assert reclaimers[n] != reclaimers[o]; }
      }
    }

    /** The wait ended with the job off the card: `_held = False`. */
    method TakeBack(o: Name)
      requires Valid() && Enabled(policy, state, Reclaimed) && o in reclaimers && policy.order[state.phase.next] == o
      modifies this, reclaimers.Values
      ensures Valid() && old(log) < log
      ensures var Waiting(req, next, stopped, _) := old(state).phase;
              state == old(state).(held := old(state).held - {o}, phase := Scan(req, next + 1, stopped + [o]))
    {
      hide Legal, Exec, Step, Seen;
      ReclaimedEffect(policy, state, o);
      Emit(Reclaimed);
      reclaimers[o].held := false;
    }

    method GiveUp()
      requires Valid() && Enabled(policy, state, TimedOut)
      modifies this
      ensures Valid() && old(log) < log && state == old(state).(phase := Free)
    {
      Note(TimedOut);
    }

    /** `reclaim(remaining)` of the job the scan is at; false is a refusal and ends the acquire. */
    method Reclaim(o: Name, remaining: real, ghost from: State, ghost job: Name) returns (ok: bool)
      requires Valid() && state.phase.Scan? && o in reclaimers && policy.Has(job) && state.phase.req.job == job
      requires state.phase.next < |policy.order| && policy.order[state.phase.next] == o
      requires o != job && Holds(policy, state, o) && policy.Priority(o) < policy.Priority(job)
      requires remaining == RealMax(1.0, state.phase.req.since + state.phase.req.timeout - now)
      requires Preempted(from, job)
      modifies this, reclaimers.Values
      ensures Valid() && Preempted(from, job) && old(log) <= log
      ensures if ok
              then state.phase == Scan(old(state).phase.req, old(state).phase.next + 1, old(state).phase.stopped + [o])
              else state.phase.Free?
    {
      hide Legal, Exec, Step, Enabled, Seen, RealMax, Matches, Holds;
      AskFor(o);
      if reclaimers[o].kind == Plain { return true; }
      assert Preempted(from, job);
      ok := AwaitRelease(o, now + remaining);
      assert Preempted(from, job);
      if ok { TakeBack(o); } else { GiveUp(); }
    }

    /** One turn of the settle loop: half a second, then a reading; a higher one means going on. */
    method SettleOnce(until: real, previous: int, ghost from: State, ghost job: Name) returns (higher: Option<int>)
      requires Valid() && state.phase.Settling? && policy.Has(job) && Preempted(from, job)
      requires state.phase == Settling(state.phase.req, state.phase.stopped, until, now + 0.5, previous)
      modifies this, reclaimers.Values
      ensures Valid() && old(log) <= log && Preempted(from, job) && now == old(now) + 0.5
      ensures var Settling(req, stopped, _, _, _) := old(state).phase;
        state.phase == if higher.None? then Admitting(req, stopped)
          else if now < until then Settling(req, stopped, until, now + 0.5, higher.value) else Free
    {
      hide Legal, Exec, Step, Seen;
      Sleep();
      var reading := ReadFreeMb();
      SettleWakes(policy, state, reading);
      Note(Woke(reading));
      return if reading.None? || reading.value <= previous then None else reading;
    }

    /** Wait until free VRAM stops climbing: a reading no higher than the one before, or nothing to read. */
    method WaitForVramToSettle(deadline: real, ghost from: State, ghost job: Name) returns (ok: bool)
      requires Valid() && state.phase.Scan? && state.phase.next == |policy.order| && state.phase.stopped != []
      requires deadline == state.phase.req.since + state.phase.req.timeout
      requires policy.Has(job) && Preempted(from, job)
      modifies this, reclaimers.Values
      ensures Valid() && old(log) <= log && Preempted(from, job)
      ensures if ok then state.phase == Admitting(old(state).phase.req, old(state).phase.stopped) else state.phase.Free?
    {
      hide Legal, Exec, Step, Seen;
      ghost var req, stopped := state.phase.req, state.phase.stopped;
      var reading := ReadFreeMb();
      SettleStarts(policy, state, reading);
      Note(ScanDone(reading));
      if reading.None? { return true; }
      var previous := reading.value;
      var until := now + RealMax(1.0, RealMin(policy.settleTimeout, deadline - now));
      while now < until
        invariant Valid() && old(log) <= log && Preempted(from, job)
        invariant now < until ==> state.phase == Settling(req, stopped, until, now + 0.5, previous)
        invariant now >= until ==> state.phase.Free?
        decreases ((until - now) * 2.0).Floor
      {
        reading := SettleOnce(until, previous, from, job);
        if reading.None? { return true; }
        previous := reading.value;
      }
      return false;
    }

    /** Record the grant. */
    method GrantTo(n: Name, reading: Option<int>) returns (ok: bool)
      requires Valid() && state.phase.Admitting? && state.phase.req.job == n && policy.Has(n)
      modifies this, reclaimers.Values
      ensures Valid() && log == old(log) + [Admit(reading)] && state == Step(policy, old(state), Admit(reading))
      ensures ok == Fits(policy, n, reading) && state.phase.Free?
      ensures state.held == old(state).held + (if ok then {n} else {})
      ensures forall m :: m != n || !ok ==>
        (m in state.sawDown <==> m in old(state).sawDown) && (m in state.gaveUp <==> m in old(state).gaveUp)
    {
      hide Legal, Exec, Step, Seen, Fits;
      ok := Fits(policy, n, reading);
      ghost var t := Step(policy, state, Admit(reading));
      forall m | m in reclaimers ensures
        Seen(t, m) == if m == n && ok then Granted(Seen(state, m), policy.jobs[m].kind, now) else Seen(state, m) {
        AdmitEffect(policy, state, reading, m);
      }
      AdmitResult(policy, state, reading);
      ClockKept(policy, state, Admit(reading));
      Emit(Admit(reading));
      if ok { reclaimers[n].Grant(now); }
    }

    /** The idempotent part: a caller that already holds the card is answered at once. */
    method Begin(n: Name, timeout: real) returns (mine: bool)
      requires Valid() && state.phase.Free? && policy.Has(n)
      modifies this
      ensures Valid() && old(log) < log && now == old(now)
      ensures mine == old(Holds(policy, state, n))
      ensures state == if mine then old(state) else old(state).(phase := Scan(Request(n, now, timeout), 0, []))
    {
      hide Legal, Exec;
      mine := HoldsNow(n);
      Note(Enter(n, timeout));
    }

    method NothingStopped()
      requires Valid() && state.phase.Scan? && state.phase.next == |policy.order| && state.phase.stopped == []
      modifies this
      ensures Valid() && old(log) < log && state == old(state).(phase := Admitting(old(state).phase.req, []))
    {
      hide Legal, Exec;
      Note(ScanDone(None));
    }

    /** One job of the loop: passed over, taken back from, or a refusal. */
    method LookAtNext(n: Name, i: nat, deadline: real, ghost from: State) returns (turn: Turn)
      requires Valid() && policy.Has(n) && Preempted(from, n) && i < |policy.order|
      requires state.phase.Scan? && state.phase.next == i && state.phase.req.job == n
      requires deadline == state.phase.req.since + state.phase.req.timeout
      modifies this, reclaimers.Values
      ensures Valid() && old(log) <= log && Preempted(from, n)
      ensures var Scan(req, next, stopped) := old(state).phase;
        state.phase == match turn
          case Passed => Scan(req, next + 1, stopped)
          case Taken => Scan(req, next + 1, stopped + [policy.order[i]])
          case Refused => Free
    {
      hide Legal, Exec, Seen;
      var o := policy.order[i];
      var holds := HoldsNow(o);
      if o == n || !holds {
        Note(Look);
        return Passed;
      }
      if policy.jobs[o].priority >= policy.jobs[n].priority {
        Note(Look);
        return Refused;
      }
      var gone := Reclaim(o, RealMax(1.0, deadline - now), from, n);
      return if gone then Taken else Refused;
    }

    /** The loop over every other job; false is a refusal. */
    method ScanTable(n: Name, deadline: real, ghost from: State) returns (ok: bool, stopped: seq<Name>)
      requires Valid() && policy.Has(n) && Preempted(from, n)
      requires state.phase.Scan? && state.phase == Scan(Request(n, now, deadline - now), 0, [])
      modifies this, reclaimers.Values
      ensures Valid() && old(log) <= log && Preempted(from, n)
      ensures if ok then state.phase == Scan(old(state).phase.req, |policy.order|, stopped) else state.phase.Free?
    {
      hide Legal, Exec, Seen, Step, Enabled, Holds, Wired, Matches;
      ghost var req := state.phase.req;
      var i := 0;
      stopped := [];
      while i < |policy.order|
        invariant 0 <= i <= |policy.order|
        invariant Valid() && old(log) <= log && Preempted(from, n)
        invariant state.phase == Scan(req, i, stopped)
      {
        var turn := LookAtNext(n, i, deadline, from);
        if turn.Refused? { return false, stopped; }
        if turn.Taken? { stopped := stopped + [policy.order[i]]; }
        i := i + 1;
      }
      return true, stopped;
    }

    /**
      Grant the card to `n`, reclaiming from everything it outranks. On success
      every other lease belongs to a container seen down; on failure nobody gained
      one; and either way whoever lost a lease released it or ranks below `n`.
    */
    method Acquire(n: Name, timeout: real) returns (ok: bool)
      requires Valid() && state.phase.Free? && policy.Has(n)
      modifies this, reclaimers.Values
      ensures Valid() && state.phase.Free? && old(log) < log
      ensures ok ==> n in state.held
      ensures ok ==> old(Holds(policy, state, n)) || forall m :: m in state.held && m != n ==> m in state.sawDown
      ensures !ok ==> state.held <= old(state).held
      ensures forall m :: m in old(state).held && m !in state.held ==>
                m in state.gaveUp || (policy.Has(m) && policy.Priority(m) < policy.Priority(n))
    {
      hide Legal, Exec, Step, Enabled, Seen, RealMax, Matches, Wired;
      ghost var from := state;
      var mine := Begin(n, timeout);
      if mine { return true; }
      var deadline := now + timeout;
      var scanned, stopped := ScanTable(n, deadline, from);
      if !scanned { return false; }
      if stopped != [] {
        var settled := WaitForVramToSettle(deadline, from, n);
        if !settled { return false; }
      } else {
        NothingStopped();
      }
      var reading := ReadFreeMb();
      OthersGone(n);
      ok := GrantTo(n, reading);
    }
  }
}
