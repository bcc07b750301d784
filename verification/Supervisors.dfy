/**
  The arbiter composed with the supervisors of the cooperative jobs: who asks,
  spawns a worker, kills it when told, and only then releases.
*/
module Supervisors {
  import opened Wrappers
  import opened GpuLease

  datatype ExitCode = Finished | KilledByUs | Failed

  /**
    Where `run` is. Granted: acquire was answered yes but Popen has not happened
    yet. The worker process exists exactly in Running and Killed.
  */
  datatype Pc = Asking | Granted | Running | Killed | Exited(code: ExitCode) | Leaving | Done

  /** The reclaim-notice thread: none, between two calls, or inside one. */
  datatype Watch = Idle | Between | Polling

  /** `due` is the moment by which a timely supervisor polls again, or its killed worker is gone. */
  datatype Supervisor = Supervisor(pc: Pc, stopping: bool, watch: Watch, wanted: bool, due: real)
  {
    predicate WorkerLives() { pc.Running? || pc.Killed? }
    predicate Engaged() { pc.Granted? || WorkerLives() }
    /** Spawned after shutdown was requested: its notice thread never polls and nobody kills it. */
    predicate Unwatched() { pc.Running? && stopping }
  }

  const FRESH := Supervisor(Asking, false, Idle, false, 0.0)

  datatype System = System(arb: State, sups: map<Name, Supervisor>)

  /** How prompt a healthy supervisor is: the notice timeout, the gap to its next poll, and a kill. */
  datatype Pace = Pace(notice: real, repoll: real, exit: real)

  datatype Move =
    | Arbiter(e: Event, heard: bool)
    | Shutdown(job: Name)
    | StopAsking(job: Name)
    | Spawn(job: Name)
    | NoticeAsk(job: Name)
    | NoticeReply(job: Name, answer: bool, delivered: bool)
    | ThreadStops(job: Name)
    | Preempt(job: Name)
    | WorkerExits(job: Name, code: ExitCode)
    | SendRelease(job: Name, arrived: bool)
    | LastRelease(job: Name, arrived: bool)
    | Crash(job: Name)
    | Submit(job: Name)

  /** The job this arbiter step answers "granted", if any. */
  function Answers(p: Policy, s: State, e: Event): Option<Name>
    requires Enabled(p, s, e)
  {
    match e
    case Enter(n, _) => if Holds(p, s, n) then Some(n) else None
    case Admit(r) => if Fits(p, s.phase.req.job, r) then Some(s.phase.req.job) else None
    case _ => None
  }

  predicate Can(p: Policy, s: System, m: Move) {
    match m
    // Only a job's own supervisor releases a cooperative lease.
    case Arbiter(e, _) => Enabled(p, s.arb, e) && (e.Release? ==> !p.IsKind(e.job, Cooperative))
    case Shutdown(n) => n in s.sups && !s.sups[n].pc.Done?
    case StopAsking(n) => n in s.sups && s.sups[n].pc.Asking? && s.sups[n].stopping
    case Spawn(n) => n in s.sups && s.sups[n].pc.Granted?
    case NoticeAsk(n) =>
      n in s.sups && s.sups[n].watch.Between? && !s.sups[n].wanted && !s.sups[n].stopping && p.IsKind(n, Cooperative)
    case NoticeReply(n, answer, _) =>
      n in s.sups && s.sups[n].watch.Polling? && Enabled(p, s.arb, PollEnd(n, answer))
    case ThreadStops(n) =>
      n in s.sups && s.sups[n].watch.Between? && (s.sups[n].wanted || s.sups[n].stopping)
    case Preempt(n) => n in s.sups && s.sups[n].pc.Running? && s.sups[n].wanted
    case WorkerExits(n, _) => n in s.sups && s.sups[n].WorkerLives()
    case SendRelease(n, _) => n in s.sups && s.sups[n].pc.Exited? && p.Has(n)
    case LastRelease(n, _) => n in s.sups && s.sups[n].pc.Leaving? && p.Has(n)
    case Crash(n) => n in s.sups
    case Submit(n) => n in s.sups && s.sups[n].pc.Done?
  }

  function Move1(p: Policy, t: Pace, s: System, m: Move): System
    requires Can(p, s, m)
  {
    match m
    case Arbiter(e, heard) =>
      var n := Answers(p, s.arb, e);
      var arb := Step(p, s.arb, e);
      if heard && n.Some? && n.value in s.sups && s.sups[n.value].pc.Asking? then
        System(arb, s.sups[n.value := s.sups[n.value].(pc := Granted, due := s.arb.now + t.repoll)])
      else System(arb, s.sups)
    case Shutdown(n) =>
      var u := s.sups[n];
      var killed := u.(pc := Killed, stopping := true,
                       due := if u.watch.Polling? then s.arb.now + t.exit else u.due);
      s.(sups := s.sups[n := if u.pc.Running? && !u.stopping then killed
                             else if u.pc.Running? then u.(pc := Killed)
                             else u.(stopping := true)])
    case StopAsking(n) => s.(sups := s.sups[n := s.sups[n].(pc := Leaving)])
    case Spawn(n) => s.(sups := s.sups[n := s.sups[n].(pc := Running, watch := Between, wanted := false)])
    case NoticeAsk(n) =>
      if n in s.arb.held then
        System(Step(p, s.arb, PollStart(n)),
               s.sups[n := s.sups[n].(watch := Polling, due := s.arb.now + t.notice)])
      else
        s.(sups := s.sups[n := s.sups[n].(watch := Idle, wanted := true)])
    case NoticeReply(n, answer, delivered) =>
      var u := s.sups[n];
      var v := if answer && delivered then u.(watch := Idle, wanted := true) else u.(watch := Between);
      System(Step(p, s.arb, PollEnd(n, answer)),
             s.sups[n := if u.pc.Killed? then v else v.(due := s.arb.now + t.repoll)])
    case ThreadStops(n) => s.(sups := s.sups[n := s.sups[n].(watch := Idle)])
    case Preempt(n) => s.(sups := s.sups[n := s.sups[n].(pc := Killed)])
    case WorkerExits(n, code) =>
      s.(sups := s.sups[n := s.sups[n].(pc := Exited(code), watch := Idle, wanted := true)])
    case SendRelease(n, arrived) =>
      System(if arrived then Step(p, s.arb, Release(n)) else s.arb,
             s.sups[n := s.sups[n].(pc := if s.sups[n].pc.code.KilledByUs? then Asking else Leaving)])
    case LastRelease(n, arrived) =>
      System(if arrived then Step(p, s.arb, Release(n)) else s.arb,
             s.sups[n := s.sups[n].(pc := Done)])
    case Crash(n) => s.(sups := s.sups[n := s.sups[n].(pc := Done, watch := Idle)])
    case Submit(n) => s.(sups := s.sups[n := FRESH])
  }

  function Start(p: Policy): System {
    System(Init(), map n | n in p.jobs && p.jobs[n].kind == Cooperative :: FRESH)
  }

  // -- runs --

  ghost predicate LegalRun(p: Policy, t: Pace, s: System, ms: seq<Move>)
    decreases |ms|
  {
    ms == [] || (Can(p, s, ms[0]) && LegalRun(p, t, Move1(p, t, s, ms[0]), ms[1..]))
  }

  ghost function Run(p: Policy, t: Pace, s: System, ms: seq<Move>): System
    requires LegalRun(p, t, s, ms)
    decreases |ms|
  {
    if ms == [] then s else Run(p, t, Move1(p, t, s, ms[0]), ms[1..])
  }

  /** Time passes no engaged, watched supervisor's deadline. */
  ghost predicate Timely(s: System, m: Move) {
    m.Arbiter? && m.e.Tick? ==>
      forall n :: n in s.sups && s.sups[n].Engaged() && !s.sups[n].Unwatched() ==> s.arb.now + m.e.span <= s.sups[n].due
  }

  /**
    The two moves that break the watch: Popen after shutdown was requested, and
    adopting ("already held") a lease too old to survive until the first poll.
  */
  predicate Hazard(p: Policy, t: Pace, s: System, m: Move)
    requires Can(p, s, m)
  {
    match m
    case Spawn(n) => s.sups[n].stopping
    case Arbiter(Enter(n, _), heard) =>
      && heard && Holds(p, s.arb, n) && n in s.sups && s.sups[n].pc.Asking?
      && s.arb.now + t.repoll > LastPoll(s.arb, n) + p.staleAfter
    case _ => false
  }

  ghost predicate TimelyRun(p: Policy, t: Pace, s: System, ms: seq<Move>)
    requires LegalRun(p, t, s, ms)
    decreases |ms|
  {
    ms == [] || (Timely(s, ms[0]) && TimelyRun(p, t, Move1(p, t, s, ms[0]), ms[1..]))
  }

  ghost predicate HazardFree(p: Policy, t: Pace, s: System, ms: seq<Move>)
    requires LegalRun(p, t, s, ms)
    decreases |ms|
  {
    ms == [] || (!Hazard(p, t, s, ms[0]) && HazardFree(p, t, Move1(p, t, s, ms[0]), ms[1..]))
  }

  /** A live worker's lease is held. */
  ghost predicate Safe(s: System) {
    forall n :: n in s.sups && s.sups[n].WorkerLives() ==> n in s.arb.held
  }

  ghost predicate PaceFits(p: Policy, t: Pace) {
    && 0.0 < t.repoll <= p.staleAfter && 0.0 < t.notice && 0.0 < t.exit
    && t.notice + t.exit <= p.staleAfter
  }

  // -- what every run keeps, whatever the timing --

  /** An engaged supervisor's lease is held, or a reap cleared it since its latest grant. */
  ghost predicate Coupled(p: Policy, s: System) {
    && (forall n :: n in s.sups <==> p.IsKind(n, Cooperative))
    && (forall n :: n in s.sups && s.sups[n].Engaged() ==> n in s.arb.held || n in s.arb.reaped)
    && (forall n :: n in s.sups && s.sups[n].watch != Idle ==> s.sups[n].WorkerLives())
    && (forall n :: n in s.sups && s.sups[n].pc.Running? && s.sups[n].watch == Idle ==>
          s.sups[n].wanted || s.sups[n].stopping)
    && (forall n :: n in s.arb.lastPoll ==> s.arb.lastPoll[n] <= s.arb.now)
    && s.arb.now >= 0.0
  }

  ghost predicate Composed(p: Policy, s: System) {
    Inv(p, s.arb) && Coupled(p, s)
  }

  /** Only its release, or a reap, takes a lease from a cooperative job. */
  lemma CooperativeLeaseStays(p: Policy, s: State, e: Event, n: Name)
    requires Inv(p, s) && Enabled(p, s, e) && p.IsKind(n, Cooperative) && n in s.held && e != Release(n)
    ensures n in Step(p, s, e).held || (e.Reap? && n in Step(p, s, e).reaped)
  {
  }

  /** An arbiter step changes a supervisor only by granting it what it asked for. */
  lemma ArbiterMove(p: Policy, t: Pace, s: System, e: Event, heard: bool, n: Name)
    requires Can(p, s, Arbiter(e, heard))
    ensures var s' := Move1(p, t, s, Arbiter(e, heard));
      s'.arb == Step(p, s.arb, e) && (n in s'.sups <==> n in s.sups)
    ensures var s' := Move1(p, t, s, Arbiter(e, heard));
      n in s.sups && s'.sups[n] != s.sups[n] ==>
        heard && s.sups[n].pc.Asking? && Answers(p, s.arb, e) == Some(n)
        && s'.sups[n] == s.sups[n].(pc := Granted, due := s.arb.now + t.repoll)
  {
  }

  /** A granted job holds its lease: a fresh one, or the one it had. */
  lemma AnsweredIsHeld(p: Policy, s: State, e: Event, n: Name)
    requires Enabled(p, s, e) && Answers(p, s, e) == Some(n) && p.IsKind(n, Cooperative)
    ensures n in Step(p, s, e).held && Step(p, s, e).now == s.now
    ensures LastPoll(Step(p, s, e), n) == if e.Admit? then s.now else LastPoll(s, n)
    ensures !e.Admit? ==> e.Enter? && e.job == n && Holds(p, s, n)
  {
  }

  lemma StepClock(p: Policy, s: State, e: Event, n: Name)
    requires Enabled(p, s, e)
    ensures var t := Step(p, s, e);
      && t.now == (if e.Tick? then s.now + e.span else s.now) && t.now >= s.now
      && (if n in t.lastPoll then t.lastPoll[n] == s.now || (n in s.lastPoll && t.lastPoll[n] == s.lastPoll[n])
          else n !in s.lastPoll)
  {
  }

  lemma CooperativeCover(p: Policy, s: State, e: Event, n: Name)
    requires Inv(p, s) && Enabled(p, s, e) && p.IsKind(n, Cooperative) && e != Release(n)
    requires n in s.held || n in s.reaped
    ensures n in Step(p, s, e).held || n in Step(p, s, e).reaped
  {
  }

  lemma EngagedIsCovered(p: Policy, t: Pace, s: System, e: Event, heard: bool, n: Name)
    requires Composed(p, s) && Can(p, s, Arbiter(e, heard)) && n in s.sups
    requires var s' := Move1(p, t, s, Arbiter(e, heard)); n in s'.sups && s'.sups[n].Engaged()
    ensures var arb := Step(p, s.arb, e); n in arb.held || n in arb.reaped
  {
    assert Enabled(p, s.arb, e) && (e.Release? ==> !p.IsKind(e.job, Cooperative));
    hide Inv, Step, Move1, Can, Enabled;
    ArbiterMove(p, t, s, e, heard, n);
    if Move1(p, t, s, Arbiter(e, heard)).sups[n] != s.sups[n] {
      AnsweredIsHeld(p, s.arb, e, n);
    } else {
      CooperativeCover(p, s.arb, e, n);
    }
  }

  lemma ArbiterKeepsCoupled(p: Policy, t: Pace, s: System, e: Event, heard: bool)
    requires p.WellFormed() && Composed(p, s) && Can(p, s, Arbiter(e, heard))
    ensures Coupled(p, Move1(p, t, s, Arbiter(e, heard)))
  {
    assert Enabled(p, s.arb, e) && (e.Release? ==> !p.IsKind(e.job, Cooperative));
    hide Inv, Step, Move1, Can, Enabled;
    var s' := Move1(p, t, s, Arbiter(e, heard));
    ArbiterMove(p, t, s, e, heard, "");
    StepClock(p, s.arb, e, "");
    forall n ensures n in s'.sups <==> p.IsKind(n, Cooperative) { ArbiterMove(p, t, s, e, heard, n); }
    forall n | n in s'.sups && s'.sups[n].Engaged() ensures n in s'.arb.held || n in s'.arb.reaped {
      EngagedIsCovered(p, t, s, e, heard, n);
    }
    forall n | n in s'.sups
      ensures s'.sups[n].watch != Idle ==> s'.sups[n].WorkerLives()
      ensures s'.sups[n].pc.Running? && s'.sups[n].watch == Idle ==> s'.sups[n].wanted || s'.sups[n].stopping
    {
      ArbiterMove(p, t, s, e, heard, n);
    }
    forall n | n in s'.arb.lastPoll ensures s'.arb.lastPoll[n] <= s'.arb.now { StepClock(p, s.arb, e, n); }
  }

  lemma ReleaseKeepsCoupled(p: Policy, t: Pace, s: System, m: Move)
    requires Coupled(p, s) && Can(p, s, m) && (m.SendRelease? || m.LastRelease?)
    ensures Coupled(p, Move1(p, t, s, m))
  {
    var s' := Move1(p, t, s, m);
    assert forall n :: n in s.arb.held && n != m.job ==> n in s'.arb.held;
  }

  lemma OwnMoveKeepsCoupled(p: Policy, t: Pace, s: System, m: Move)
    requires Coupled(p, s) && Can(p, s, m) && !m.Arbiter? && !m.SendRelease? && !m.LastRelease?
    ensures var s' := Move1(p, t, s, m); var n := m.job;
      && n in s'.sups && (s'.sups[n].Engaged() ==> s.sups[n].Engaged())
      && (s'.sups[n].watch != Idle ==> s'.sups[n].WorkerLives())
      && (s'.sups[n].pc.Running? && s'.sups[n].watch == Idle ==> s'.sups[n].wanted || s'.sups[n].stopping)
      && s'.sups == s.sups[n := s'.sups[n]]
      && s'.arb == s.arb.(lastPoll := s'.arb.lastPoll, blocked := s'.arb.blocked)
      && (s'.arb.lastPoll == s.arb.lastPoll || s'.arb.lastPoll == s.arb.lastPoll[n := s.arb.now])
  {
  }

  lemma QuietMoveKeepsCoupled(p: Policy, t: Pace, s: System, m: Move)
    requires Coupled(p, s) && Can(p, s, m) && !m.Arbiter?
    ensures Coupled(p, Move1(p, t, s, m))
  {
    if m.SendRelease? || m.LastRelease? {
      ReleaseKeepsCoupled(p, t, s, m);
    } else {
      OwnMoveKeepsCoupled(p, t, s, m);
      assert m.job in s.sups;
      hide Move1, Can;
    }
  }

  lemma MoveKeepsInv(p: Policy, t: Pace, s: System, m: Move)
    requires p.WellFormed() && Inv(p, s.arb) && Can(p, s, m)
    ensures Inv(p, Move1(p, t, s, m).arb)
  {
    match m
    case Arbiter(e, _) => StepKeepsInv(p, s.arb, e);
    case NoticeAsk(n) => if n in s.arb.held { StepKeepsInv(p, s.arb, PollStart(n)); }
    case NoticeReply(n, a, _) => StepKeepsInv(p, s.arb, PollEnd(n, a));
    case SendRelease(n, _) => StepKeepsInv(p, s.arb, Release(n));
    case LastRelease(n, _) => StepKeepsInv(p, s.arb, Release(n));
    case _ => assert Move1(p, t, s, m).arb == s.arb;
  }

  lemma MoveKeepsComposed(p: Policy, t: Pace, s: System, m: Move)
    requires p.WellFormed() && Composed(p, s) && Can(p, s, m)
    ensures Composed(p, Move1(p, t, s, m))
  {
    MoveKeepsInv(p, t, s, m);
    if m.Arbiter? { ArbiterKeepsCoupled(p, t, s, m.e, m.heard); } else { QuietMoveKeepsCoupled(p, t, s, m); }
  }

  // -- what timely runs keep --

  ghost predicate Watched(p: Policy, t: Pace, s: System, n: Name)
    requires n in s.sups
  {
    var u := s.sups[n];
    u.Engaged() ==>
      && n in s.arb.held && !u.Unwatched()
      && s.arb.now <= u.due <= LastPoll(s.arb, n) + p.staleAfter
      && (u.pc.Running? && u.watch.Polling? ==> u.due <= LastPoll(s.arb, n) + t.notice)
  }

  ghost predicate AllWatched(p: Policy, t: Pace, s: System) {
    forall n :: n in s.sups ==> Watched(p, t, s, n)
  }

  lemma ReapSpares(p: Policy, s: State, n: Name)
    requires Enabled(p, s, Reap) && p.IsKind(n, Cooperative) && n in s.held && s.now - LastPoll(s, n) <= p.staleAfter
    ensures n in Step(p, s, Reap).held
  {
  }

  lemma ArbiterKeepsWatched(p: Policy, t: Pace, s: System, e: Event, heard: bool)
    requires p.WellFormed() && PaceFits(p, t) && Composed(p, s) && AllWatched(p, t, s)
    requires Can(p, s, Arbiter(e, heard)) && Timely(s, Arbiter(e, heard)) && !Hazard(p, t, s, Arbiter(e, heard))
    ensures AllWatched(p, t, Move1(p, t, s, Arbiter(e, heard)))
  {
    assert Enabled(p, s.arb, e) && (e.Release? ==> !p.IsKind(e.job, Cooperative));
    hide Inv, Step, Move1, Can, Enabled;
    var s' := Move1(p, t, s, Arbiter(e, heard));
    forall n | n in s'.sups ensures Watched(p, t, s', n) {
      ArbiterMove(p, t, s, e, heard, n);
      assert Watched(p, t, s, n);
      StepClock(p, s.arb, e, n);
      if s'.sups[n] != s.sups[n] {
        AnsweredIsHeld(p, s.arb, e, n);
      } else if s.sups[n].Engaged() {
        if e.Reap? { ReapSpares(p, s.arb, n); } else { CooperativeLeaseStays(p, s.arb, e, n); }
      }
    }
  }

  lemma QuietMoveKeepsWatched(p: Policy, t: Pace, s: System, m: Move)
    requires PaceFits(p, t) && Coupled(p, s) && AllWatched(p, t, s)
    requires Can(p, s, m) && !m.Arbiter? && !Hazard(p, t, s, m)
    ensures AllWatched(p, t, Move1(p, t, s, m))
  {
    assert Watched(p, t, s, m.job);
    OwnMoveKeepsWatched(p, t, s, m);
    hide Can, Move1, Hazard, Coupled;
    var s' := Move1(p, t, s, m);
    forall n | n in s'.sups && n != m.job ensures Watched(p, t, s', n) {
      OthersUntouched(p, t, s, m, n);
      assert Watched(p, t, s, n);
    }
  }

  lemma OwnMoveKeepsWatched(p: Policy, t: Pace, s: System, m: Move)
    requires PaceFits(p, t) && Coupled(p, s)
    requires Can(p, s, m) && !m.Arbiter? && !Hazard(p, t, s, m) && m.job in s.sups && Watched(p, t, s, m.job)
    ensures m.job in Move1(p, t, s, m).sups && Watched(p, t, Move1(p, t, s, m), m.job)
  {
  }

  /** A supervisor's move touches no other supervisor and no other job's lease. */
  lemma OthersUntouched(p: Policy, t: Pace, s: System, m: Move, n: Name)
    requires Can(p, s, m) && !m.Arbiter? && n != m.job
    ensures var s' := Move1(p, t, s, m);
      && (n in s'.sups <==> n in s.sups) && (n in s.sups ==> s'.sups[n] == s.sups[n])
      && (n in s'.arb.held <==> n in s.arb.held) && LastPoll(s'.arb, n) == LastPoll(s.arb, n) && s'.arb.now == s.arb.now
  {
  }

  lemma MoveKeepsWatched(p: Policy, t: Pace, s: System, m: Move)
    requires p.WellFormed() && PaceFits(p, t) && Composed(p, s) && AllWatched(p, t, s)
    requires Can(p, s, m) && Timely(s, m) && !Hazard(p, t, s, m)
    ensures AllWatched(p, t, Move1(p, t, s, m))
  {
    if m.Arbiter? {
      ArbiterKeepsWatched(p, t, s, m.e, m.heard);
    } else {
      QuietMoveKeepsWatched(p, t, s, m);
    }
  }

  lemma {:induction false} TimelyRunKeeps(p: Policy, t: Pace, s: System, ms: seq<Move>)
    requires p.WellFormed() && PaceFits(p, t) && Composed(p, s) && AllWatched(p, t, s)
    requires LegalRun(p, t, s, ms) && TimelyRun(p, t, s, ms) && HazardFree(p, t, s, ms)
    ensures Composed(p, Run(p, t, s, ms)) && AllWatched(p, t, Run(p, t, s, ms))
    decreases |ms|
  {
    if ms != [] {
      MoveKeepsComposed(p, t, s, ms[0]);
      MoveKeepsWatched(p, t, s, ms[0]);
      TimelyRunKeeps(p, t, Move1(p, t, s, ms[0]), ms[1..]);
    }
  }
}
