/** Safety of the arbiter and its supervisors together, and exactly when it fails. */
module SupervisorTheorems {
  import opened Wrappers
  import opened GpuLease
  import opened GpuLeaseTheorems
  import opened Supervisors

  ghost predicate ReachedByAnyRun(p: Policy, t: Pace, s: System) {
    exists ms :: LegalRun(p, t, Start(p), ms) && s == Run(p, t, Start(p), ms)
  }

  ghost predicate InTime(p: Policy, t: Pace, s: System, ms: seq<Move>) {
    LegalRun(p, t, s, ms) && TimelyRun(p, t, s, ms) && HazardFree(p, t, s, ms)
  }

  ghost predicate ReachedInTime(p: Policy, t: Pace, s: System) {
    exists ms :: InTime(p, t, Start(p), ms) && s == Run(p, t, Start(p), ms)
  }

  lemma {:induction false} RunKeepsComposed(p: Policy, t: Pace, s: System, ms: seq<Move>)
    requires p.WellFormed() && Composed(p, s) && LegalRun(p, t, s, ms)
    ensures Composed(p, Run(p, t, s, ms))
    decreases |ms|
  {
    if ms != [] {
      MoveKeepsComposed(p, t, s, ms[0]);
      RunKeepsComposed(p, t, Move1(p, t, s, ms[0]), ms[1..]);
    }
  }

  lemma StartIsWatched(p: Policy, t: Pace)
    requires p.WellFormed() && PaceFits(p, t)
    ensures Composed(p, Start(p)) && AllWatched(p, t, Start(p))
  {
  }

  lemma ReachedIsWatched(p: Policy, t: Pace, s: System)
    requires p.WellFormed() && PaceFits(p, t) && ReachedInTime(p, t, s)
    ensures Composed(p, s) && AllWatched(p, t, s)
  {
    hide Move1, Can, Timely, Hazard, Composed, AllWatched, PaceFits;
    StartIsWatched(p, t);
    var ms :| InTime(p, t, Start(p), ms) && s == Run(p, t, Start(p), ms);
    TimelyRunKeeps(p, t, Start(p), ms);
  }

  /** With no timing assumption at all, a live worker has its lease or lost it to a reap. */
  lemma LiveWorkerHoldsOrWasReaped(p: Policy, t: Pace, s: System, n: Name)
    requires p.WellFormed() && ReachedByAnyRun(p, t, s)
    requires n in s.sups && s.sups[n].WorkerLives()
    ensures n in s.arb.held || n in s.arb.reaped
  {
    var ms :| LegalRun(p, t, Start(p), ms) && s == Run(p, t, Start(p), ms);
    RunKeepsComposed(p, t, Start(p), ms);
  }

  /** The flagship: in every timely, hazard-free run a live worker implies its lease. */
  lemma LiveWorkerHoldsItsLease(p: Policy, t: Pace, s: System)
    requires p.WellFormed() && PaceFits(p, t) && ReachedInTime(p, t, s)
    ensures Safe(s)
  {
    ReachedIsWatched(p, t, s);
    forall n | n in s.sups && s.sups[n].WorkerLives() ensures n in s.arb.held { assert Watched(p, t, s, n); }
  }

  /** This event would answer "granted" to somebody else while `n`'s worker lives. */
  ghost predicate GrantsBeside(p: Policy, s: System, e: Event, n: Name) {
    && n in s.sups && s.sups[n].WorkerLives()
    && Enabled(p, s.arb, e) && Answers(p, s.arb, e).Some? && Answers(p, s.arb, e).value != n
  }

  ghost predicate ContainerBesideCooperative(p: Policy) {
    exists c, d :: p.IsKind(c, Container) && p.IsKind(d, Cooperative)
  }

  /** So a grant that goes through the admission check waits for the worker in every table. */
  lemma AdmissionWaitsForTheWorker(p: Policy, t: Pace, s: System, reading: Option<int>, n: Name)
    requires p.WellFormed() && PaceFits(p, t) && ReachedInTime(p, t, s)
    ensures !GrantsBeside(p, s, Admit(reading), n)
  {
    ReachedIsWatched(p, t, s);
    if n in s.sups && Enabled(p, s.arb, Admit(reading)) { assert Watched(p, t, s, n); }
  }

  lemma GrantsWaitWithoutContainers(p: Policy, t: Pace, s: System, e: Event, n: Name)
    requires p.WellFormed() && PaceFits(p, t) && ReachedInTime(p, t, s) && !ContainerBesideCooperative(p)
    ensures !GrantsBeside(p, s, e, n)
  {
    ReachedIsWatched(p, t, s);
    if n in s.sups {
      assert Watched(p, t, s, n) && p.IsKind(n, Cooperative);
      if e.Admit? { AdmissionWaitsForTheWorker(p, t, s, e.reading, n); }
    }
  }

  // -- the answer that does not wait --

  lemma {:induction false} InTimeAppend(p: Policy, t: Pace, s: System, ms: seq<Move>, ns: seq<Move>)
    requires InTime(p, t, s, ms) && InTime(p, t, Run(p, t, s, ms), ns)
    ensures InTime(p, t, s, ms + ns) && Run(p, t, s, ms + ns) == Run(p, t, Run(p, t, s, ms), ns)
    decreases |ms|
  {
    hide Can, Move1, Timely, Hazard;
    if ms == [] {
      assert ms + ns == ns;
    } else {
      assert (ms + ns)[1..] == ms[1..] + ns;
      InTimeAppend(p, t, Move1(p, t, s, ms[0]), ms[1..], ns);
    }
  }

  lemma MoveInTime(p: Policy, t: Pace, s: System, m: Move)
    requires Can(p, s, m) && Timely(s, m) && !Hazard(p, t, s, m)
    ensures InTime(p, t, s, [m]) && Run(p, t, s, [m]) == Move1(p, t, s, m)
  {
    hide Can, Move1, Timely, Hazard;
    assert [m][1..] == [];
    var s1: System := Move1(p, t, s, m);
    assert LegalRun(p, t, s1, []) && TimelyRun(p, t, s1, []) && HazardFree(p, t, s1, []) && Run(p, t, s1, []) == s1;
  }

  /** Steps of an acquire that nobody's supervisor hears the answer of. */
  lemma {:induction false} Unheard(p: Policy, t: Pace, s: System, es: seq<Event>) returns (ms: seq<Move>)
    requires Legal(p, s.arb, es) && forall e :: e in es ==> e.Enter? || e.Look? || e.ScanDone?
    ensures InTime(p, t, s, ms) && Run(p, t, s, ms) == System(Exec(p, s.arb, es), s.sups)
    decreases |es|
  {
    hide Step, Enabled;
    if es == [] {
      ms := [];
    } else {
      assert es[0] in es;
      var m := Arbiter(es[0], false);
      MoveInTime(p, t, s, m);
      var rest := Unheard(p, t, Move1(p, t, s, m), es[1..]);
      InTimeAppend(p, t, s, [m], rest);
      ms := [m] + rest;
    }
  }

  /** With the card quiet, `n` is granted, and hears it. */
  lemma HeardGrant(p: Policy, t: Pace, s: System, n: Name) returns (ms: seq<Move>)
    requires p.WellFormed() && s.arb.phase.Free? && p.Has(n) && !Holds(p, s.arb, n)
    requires forall m :: m in p.order && m != n ==> !Holds(p, s.arb, m)
    ensures InTime(p, t, s, ms)
    ensures Run(p, t, s, ms) == System(Grant(p, s.arb, n),
      if n in s.sups && s.sups[n].pc.Asking? then s.sups[n := s.sups[n].(pc := Granted, due := s.arb.now + t.repoll)]
      else s.sups)
  {
    var es := AdmittedOnAQuietCard(p, s.arb, n);
    var asked := Unheard(p, t, s, es);
    var s1 := Run(p, t, s, asked);
    var admit := Arbiter(Admit(None), true);
    MoveInTime(p, t, s1, admit);
    InTimeAppend(p, t, s, asked, [admit]);
    ms := asked + [admit];
  }

  lemma OneMoreInTime(p: Policy, t: Pace, s: System, ms: seq<Move>, m: Move)
    requires InTime(p, t, s, ms)
    requires var s1 := Run(p, t, s, ms); Can(p, s1, m) && Timely(s1, m) && !Hazard(p, t, s1, m)
    ensures InTime(p, t, s, ms + [m]) && Run(p, t, s, ms + [m]) == Move1(p, t, Run(p, t, s, ms), m)
  {
    hide LegalRun, TimelyRun, HazardFree, Run, Can, Move1, Timely, Hazard;
    MoveInTime(p, t, Run(p, t, s, ms), m);
    InTimeAppend(p, t, s, ms, [m]);
  }

  /** A container was granted the card and died; its lease stands. */
  ghost predicate Leftover(p: Policy, s: System, c: Name) {
    && s.arb.phase.Free? && s.arb.held == {c} && c !in s.arb.up && p.IsKind(c, Container)
    && s.sups == Start(p).sups
  }

  lemma ContainerLeavesALease(p: Policy, t: Pace, c: Name) returns (ms: seq<Move>)
    requires p.WellFormed() && p.IsKind(c, Container)
    ensures InTime(p, t, Start(p), ms) && Leftover(p, Run(p, t, Start(p), ms), c)
  {
    hide LegalRun, TimelyRun, HazardFree, Run;
    ms := HeardGrant(p, t, Start(p), c);
    OneMoreInTime(p, t, Start(p), ms, Arbiter(Down(c), false));
    ms := ms + [Arbiter(Down(c), false)];
  }

  /** The next acquire skips it, and a supervisor spawns its worker. */
  lemma SpawnedBeside(p: Policy, t: Pace, s: System, c: Name, d: Name) returns (ms: seq<Move>)
    requires p.WellFormed() && Leftover(p, s, c) && p.IsKind(d, Cooperative)
    ensures InTime(p, t, s, ms)
    ensures var e := Run(p, t, s, ms);
      e.arb.phase.Free? && c in e.arb.held && d in e.sups && e.sups[d].WorkerLives()
  {
    hide LegalRun, TimelyRun, HazardFree, Run;
    ms := HeardGrant(p, t, s, d);
    OneMoreInTime(p, t, s, ms, Spawn(d));
    ms := ms + [Spawn(d)];
  }

  /**
    "Already held" does not wait: a container granted, dead, and restarted while a
    worker lives is told the card is its own, on the lease it never lost.
  */
  lemma RestartedContainerIsGranted(p: Policy, t: Pace, c: Name, d: Name) returns (s: System, e: Event)
    requires p.WellFormed() && PaceFits(p, t) && p.IsKind(c, Container) && p.IsKind(d, Cooperative)
    ensures ReachedInTime(p, t, s) && GrantsBeside(p, s, e, d) && Answers(p, s.arb, e) == Some(c)
  {
    hide LegalRun, TimelyRun, HazardFree, Run;
    var left := ContainerLeavesALease(p, t, c);
    var s1 := Run(p, t, Start(p), left);
    var beside := SpawnedBeside(p, t, s1, c, d);
    InTimeAppend(p, t, Start(p), left, beside);
    var ms := left + beside;
    OneMoreInTime(p, t, Start(p), ms, Arbiter(Up(c), false));
    s := Run(p, t, Start(p), ms + [Arbiter(Up(c), false)]);
    assert InTime(p, t, Start(p), ms + [Arbiter(Up(c), false)]);
    e := Enter(c, 1.0);
    assert Holds(p, s.arb, c);
  }

  /**
    "No acquire is granted while another job's worker lives" is exactly the property of
    tables with no container beside a cooperative job.
  */
  lemma GrantsWaitIff(p: Policy, t: Pace)
    requires p.WellFormed() && PaceFits(p, t)
    ensures (forall s, e, n :: ReachedInTime(p, t, s) ==> !GrantsBeside(p, s, e, n)) <==> !ContainerBesideCooperative(p)
  {
    hide Answers, Enabled, ReachedInTime, PaceFits;
    if ContainerBesideCooperative(p) {
      var c, d :| p.IsKind(c, Container) && p.IsKind(d, Cooperative);
      var s, e := RestartedContainerIsGranted(p, t, c, d);
      assert GrantsBeside(p, s, e, d);
    } else {
      forall s, e, n | ReachedInTime(p, t, s) ensures !GrantsBeside(p, s, e, n) {
        GrantsWaitWithoutContainers(p, t, s, e, n);
      }
    }
  }

  lemma NoTwoWorkersLive(p: Policy, t: Pace, s: System, a: Name, b: Name)
    requires p.WellFormed() && PaceFits(p, t) && ReachedInTime(p, t, s)
    requires a in s.sups && s.sups[a].WorkerLives() && b in s.sups && s.sups[b].WorkerLives()
    ensures a == b
  {
    ReachedIsWatched(p, t, s);
    assert Watched(p, t, s, a) && Watched(p, t, s, b);
  }

  /**
    A reap takes exactly the cooperative leases whose holder has been silent past the limit,
    and no engaged supervisor's.
  */
  lemma ReapTakesOnlyTheSilent(p: Policy, t: Pace, s: System, n: Name)
    requires p.WellFormed() && PaceFits(p, t) && ReachedInTime(p, t, s)
    requires n in s.sups && n in s.arb.held && s.arb.phase.Free?
    ensures n !in Step(p, s.arb, Reap).held <==> s.arb.now - LastPoll(s.arb, n) > p.staleAfter
    ensures n !in Step(p, s.arb, Reap).held ==> !s.sups[n].Engaged()
  {
    ReachedIsWatched(p, t, s);
    assert Watched(p, t, s, n);
  }

  // -- exactly when the watch can fail --

  /** Every granted supervisor, with its worker or about to spawn one, holds its lease. */
  ghost predicate Covered(s: System) {
    forall n :: n in s.sups && s.sups[n].Engaged() ==> n in s.arb.held
  }

  ghost predicate CanLoseCover(p: Policy, t: Pace, s: System) {
    exists ms :: InTime(p, t, s, ms) && !Covered(Run(p, t, s, ms))
  }

  /** Waiting `span` and then reaping, while only `n` is engaged, strips `n` if it has gone silent. */
  lemma WaitThenReap(p: Policy, t: Pace, s: System, n: Name, span: real) returns (ms: seq<Move>)
    requires p.WellFormed() && s.arb.phase.Free? && span > 0.0
    requires n in s.sups && s.sups[n].Engaged() && p.IsKind(n, Cooperative) && n in s.arb.held
    requires forall m :: m in s.sups && m != n ==> !s.sups[m].Engaged()
    requires s.sups[n].Unwatched() || s.arb.now + span <= s.sups[n].due
    requires s.arb.now + span - LastPoll(s.arb, n) > p.staleAfter
    ensures InTime(p, t, s, ms) && !Covered(Run(p, t, s, ms))
  {
    hide LegalRun, TimelyRun, HazardFree, Run;
    var wait, reap := Arbiter(Tick(span), false), Arbiter(Reap, false);
    var s1 := Move1(p, t, s, wait);
    var s2 := Move1(p, t, s1, reap);
    assert Timely(s, wait);
    MoveInTime(p, t, s, wait);
    MoveInTime(p, t, s1, reap);
    InTimeAppend(p, t, s, [wait], [reap]);
    ms := [wait] + [reap];
    assert n in s2.sups && s2.sups[n].Engaged() && n !in s2.arb.held;
  }

  /** An unwatched worker whose lease stands, beside nobody else on the card. */
  ghost predicate Adrift(p: Policy, s: System, n: Name) {
    && Inv(p, s.arb) && p.IsKind(n, Cooperative) && n in s.arb.held && n in s.sups && s.sups[n].Unwatched()
    && forall m :: m in s.sups && m != n ==> !s.sups[m].Engaged()
  }

  /** A pending reclaim runs out and frees the lock, an unwatched worker or not. */
  lemma WaitRunsOut(p: Policy, t: Pace, s: System, n: Name) returns (ms: seq<Move>)
    requires p.WellFormed() && Adrift(p, s, n) && s.arb.phase.Waiting?
    ensures InTime(p, t, s, ms) && Adrift(p, Run(p, t, s, ms), n) && Run(p, t, s, ms).arb.phase.Free?
    ensures Run(p, t, s, ms).arb.lastPoll == s.arb.lastPoll && Run(p, t, s, ms).arb.now >= s.arb.now
  {
    hide LegalRun, TimelyRun, HazardFree, Run;
    var s1 := s;
    ms := [];
    NoMoves(p, t, s);
    if s.arb.now < s.arb.phase.until {
      var wait := Arbiter(Tick(s.arb.phase.until - s.arb.now), false);
      MoveInTime(p, t, s, wait);
      StepKeepsInv(p, s.arb, wait.e);
      s1 := Move1(p, t, s, wait);
      ms := [wait];
    }
    var out := Arbiter(TimedOut, false);
    MoveInTime(p, t, s1, out);
    StepKeepsInv(p, s1.arb, TimedOut);
    InTimeAppend(p, t, s, ms, [out]);
    ms := ms + [out];
  }

  lemma NoMoves(p: Policy, t: Pace, s: System)
    ensures InTime(p, t, s, []) && Run(p, t, s, []) == s
  {
  }

  /** From any phase the lock can come free with the unwatched worker's lease still standing. */
  lemma {:induction false} LockComesFree(p: Policy, t: Pace, s: System, n: Name) returns (ms: seq<Move>)
    requires p.WellFormed() && Adrift(p, s, n)
    ensures InTime(p, t, s, ms) && Adrift(p, Run(p, t, s, ms), n) && Run(p, t, s, ms).arb.phase.Free?
    ensures Run(p, t, s, ms).arb.lastPoll == s.arb.lastPoll && Run(p, t, s, ms).arb.now >= s.arb.now
    decreases if s.arb.phase.Scan? then |p.order| - s.arb.phase.next else 0
  {
    hide LegalRun, TimelyRun, HazardFree, Run, Inv;
    HeldInWhatPhase(p, s.arb, n);
    if s.arb.phase.Free? {
      NoMoves(p, t, s);
      ms := [];
    } else if s.arb.phase.Waiting? {
      ms := WaitRunsOut(p, t, s, n);
    } else {
      var look := Arbiter(Look, false);
      MoveInTime(p, t, s, look);
      StepKeepsInv(p, s.arb, Look);
      var s1 := Move1(p, t, s, look);
      LookKeepsCooperative(p, s.arb, n);
      var rest := LockComesFree(p, t, s1, n);
      InTimeAppend(p, t, s, [look], rest);
      ms := [look] + rest;
    }
  }

  /** While a cooperative job holds the card, an acquire is at most scanning for it or waiting. */
  lemma HeldInWhatPhase(p: Policy, s: State, n: Name)
    requires p.WellFormed() && Inv(p, s) && p.IsKind(n, Cooperative) && n in s.held
    ensures s.phase.Free? || s.phase.Waiting? || (s.phase.Scan? && s.phase.next < |p.order|)
  {
    assert n in p.order;
  }

  lemma LookKeepsCooperative(p: Policy, s: State, n: Name)
    requires Enabled(p, s, Look) && p.IsKind(n, Cooperative) && n in s.held
    ensures var t := Step(p, s, Look);
      && n in t.held && t.lastPoll == s.lastPoll && t.now == s.now
      && (t.phase.Scan? ==> t.phase.next == s.phase.next + 1)
  {
  }

  lemma OnlyOneEngaged(p: Policy, t: Pace, s: System, n: Name, m: Name)
    requires Composed(p, s) && AllWatched(p, t, s)
    requires n in s.sups && n in s.arb.held && m in s.sups && m != n
    ensures !s.sups[m].Engaged()
  {
    assert Watched(p, t, s, m);
  }

  lemma HazardLosesCover(p: Policy, t: Pace, s: System, m: Move)
    requires p.WellFormed() && PaceFits(p, t) && Composed(p, s) && AllWatched(p, t, s)
    requires Can(p, s, m) && Timely(s, m) && Hazard(p, t, s, m)
    ensures CanLoseCover(p, t, Move1(p, t, s, m))
  {
    hide LegalRun, TimelyRun, HazardFree, Run, Inv;
    var s' := Move1(p, t, s, m);
    MoveKeepsComposed(p, t, s, m);
    var n := if m.Spawn? then m.job else m.e.job;
    assert Watched(p, t, s, n);
    assert n in s.arb.held && n in s'.arb.held;
    forall k | k in s'.sups && k != n ensures !s'.sups[k].Engaged() { OnlyOneEngaged(p, t, s, n, k); }
    if m.Spawn? {
      var free := LockComesFree(p, t, s', n);
      var s1 := Run(p, t, s', free);
      assert LastPoll(s1.arb, n) == LastPoll(s.arb, n) <= s1.arb.now;
      var ms := WaitThenReap(p, t, s1, n, p.staleAfter + 1.0);
      InTimeAppend(p, t, s', free, ms);
      assert !Covered(Run(p, t, s', free + ms));
    } else {
      var ms := WaitThenReap(p, t, s', n, t.repoll);
    }
  }

  lemma NoHazardKeepsCover(p: Policy, t: Pace, s: System, m: Move)
    requires p.WellFormed() && PaceFits(p, t) && Composed(p, s) && AllWatched(p, t, s)
    requires Can(p, s, m) && Timely(s, m) && !Hazard(p, t, s, m)
    ensures !CanLoseCover(p, t, Move1(p, t, s, m))
  {
    hide Can, Move1, Timely, Hazard, Composed, LegalRun, Run, TimelyRun, HazardFree;
    var s' := Move1(p, t, s, m);
    MoveKeepsComposed(p, t, s, m);
    MoveKeepsWatched(p, t, s, m);
    forall ms | InTime(p, t, s', ms) ensures Covered(Run(p, t, s', ms)) {
      TimelyRunKeeps(p, t, s', ms);
      var e := Run(p, t, s', ms);
      forall n | n in e.sups && e.sups[n].Engaged() ensures n in e.arb.held { assert Watched(p, t, e, n); }
    }
  }

  /**
    From any state a timely, hazard-free run reaches, whatever acquire is in
    progress, a timely move puts some supervisor's cover at risk exactly when it is
    a hazard: a spawn after shutdown was requested, or adopting a lease that goes
    stale before the next poll is due.
  */
  lemma CoverFailsIffHazard(p: Policy, t: Pace, s: System, m: Move)
    requires p.WellFormed() && PaceFits(p, t) && ReachedInTime(p, t, s)
    requires Can(p, s, m) && Timely(s, m)
    ensures CanLoseCover(p, t, Move1(p, t, s, m)) <==> Hazard(p, t, s, m)
  {
    ReachedIsWatched(p, t, s);
    if Hazard(p, t, s, m) {
      HazardLosesCover(p, t, s, m);
    } else {
      NoHazardKeepsCover(p, t, s, m);
    }
  }

  // -- the handover itself --

  lemma ConsRun(p: Policy, t: Pace, s: System, m: Move, ms: seq<Move>)
    requires Can(p, s, m) && LegalRun(p, t, Move1(p, t, s, m), ms)
    ensures LegalRun(p, t, s, [m] + ms) && Run(p, t, s, [m] + ms) == Run(p, t, Move1(p, t, s, m), ms)
  {
    hide Can, Move1;
    assert ([m] + ms)[1..] == ms;
  }

  /** What a supervisor's own moves leave alone in the arbiter. */
  ghost predicate SameWait(s: State, t: State) {
    t.phase == s.phase && t.now == s.now && t.held == s.held && t.wanted == s.wanted && t.letGo == s.letGo
  }

  /**
    The notice half: a worker being watched is killed in at most three moves. Its
    thread is blocked in a call and is answered, or is between calls and makes one,
    or has already set the event.
  */
  lemma KilledOnNotice(p: Policy, t: Pace, s: System, o: Name) returns (ms: seq<Move>, s': System)
    requires Coupled(p, s) && o in s.sups && o in s.arb.held && s.sups[o].WorkerLives() && !s.sups[o].Unwatched()
    ensures |ms| <= 3 && LegalRun(p, t, s, ms) && Run(p, t, s, ms) == s'
    ensures SameWait(s.arb, s'.arb) && o in s'.sups && s'.sups[o].pc.Killed?
  {
    hide Inv;
    var u := s.sups[o];
    if u.pc.Killed? {
      ms, s' := [], s;
    } else if u.wanted {
      s' := Move1(p, t, s, Preempt(o));
      ConsRun(p, t, s, Preempt(o), []);
      ms := [Preempt(o)] + [];
    } else if u.watch.Polling? {
      ms, s' := KilledOnReply(p, t, s, o);
    } else {
      var s1 := Move1(p, t, s, NoticeAsk(o));
      var rest;
      rest, s' := KilledOnReply(p, t, s1, o);
      ConsRun(p, t, s, NoticeAsk(o), rest);
      ms := [NoticeAsk(o)] + rest;
    }
  }

  /** A thread blocked in its notice call is woken, and the worker is killed. */
  lemma KilledOnReply(p: Policy, t: Pace, s: System, o: Name) returns (ms: seq<Move>, s': System)
    requires p.IsKind(o, Cooperative) && o in s.sups && s.sups[o].pc.Running? && s.sups[o].watch.Polling?
    ensures |ms| == 2 && LegalRun(p, t, s, ms) && Run(p, t, s, ms) == s'
    ensures SameWait(s.arb, s'.arb) && o in s'.sups && s'.sups[o].pc.Killed?
  {
    var s1 := Move1(p, t, s, NoticeReply(o, true, true));
    s' := Move1(p, t, s1, Preempt(o));
    ConsRun(p, t, s1, Preempt(o), []);
    ConsRun(p, t, s, NoticeReply(o, true, true), [Preempt(o)] + []);
    ms := [NoticeReply(o, true, true)] + ([Preempt(o)] + []);
  }

  /** The release half: the killed worker exits, and only then is the lease given up. */
  lemma ReleasedInTwoMoves(p: Policy, t: Pace, s: System, o: Name) returns (ms: seq<Move>, s': System)
    requires p.IsKind(o, Cooperative) && o in s.sups && s.sups[o].pc.Killed?
    ensures |ms| == 2 && LegalRun(p, t, s, ms) && Run(p, t, s, ms) == s'
    ensures s'.arb == Step(p, s.arb, Release(o))
    ensures o in s'.sups && s'.sups[o].pc.Asking?
  {
    var s1 := Move1(p, t, s, WorkerExits(o, KilledByUs));
    s' := Move1(p, t, s1, SendRelease(o, true));
    ConsRun(p, t, s1, SendRelease(o, true), []);
    ms := [SendRelease(o, true)] + [];
    ConsRun(p, t, s, WorkerExits(o, KilledByUs), ms);
    ms := [WorkerExits(o, KilledByUs)] + ms;
  }

  lemma {:induction false} RunAppendMoves(p: Policy, t: Pace, s: System, ms: seq<Move>, ns: seq<Move>)
    requires LegalRun(p, t, s, ms) && LegalRun(p, t, Run(p, t, s, ms), ns)
    ensures LegalRun(p, t, s, ms + ns) && Run(p, t, s, ms + ns) == Run(p, t, Run(p, t, s, ms), ns)
    decreases |ms|
  {
    if ms == [] {
      assert ms + ns == ns;
    } else {
      assert (ms + ns)[1..] == ms[1..] + ns;
      RunAppendMoves(p, t, Move1(p, t, s, ms[0]), ms[1..], ns);
    }
  }

  /**
    A pending reclaim of any live worker that is watched is at most five supervisor
    moves away from succeeding, with no time passing and the lock held throughout:
    whether its thread is blocked in a notice call, between two, or already told.
  */
  lemma HandoverSucceeds(p: Policy, t: Pace, s: System, o: Name) returns (ms: seq<Move>, s': System)
    requires p.WellFormed() && Composed(p, s) && Pending(p, s.arb, o) && o in s.sups && o in s.arb.held
    requires s.sups[o].WorkerLives() && !s.sups[o].Unwatched()
    ensures |ms| <= 5 && LegalRun(p, t, s, ms) && Run(p, t, s, ms) == s'
    ensures Enabled(p, s'.arb, Reclaimed) && o !in s'.arb.held && s'.arb.now == s.arb.now && s'.arb.phase == s.arb.phase
    ensures o in s'.sups && s'.sups[o].pc.Asking?
  {
    hide Inv;
    var kill, s1 := KilledOnNotice(p, t, s, o);
    var free, s2 := ReleasedInTwoMoves(p, t, s1, o);
    RunAppendMoves(p, t, s, kill, free);
    ms, s' := kill + free, s2;
  }
}
