/** What every run of the lease protocol keeps. */
module GpuLeaseTheorems {
  import opened Wrappers
  import opened GpuLease

  ghost predicate Reachable(p: Policy, s: State) {
    exists es :: Legal(p, Init(), es) && s == Exec(p, Init(), es)
  }

  lemma ReachableInv(p: Policy, s: State)
    requires p.WellFormed() && Reachable(p, s)
    ensures Inv(p, s)
  {
    var es :| Legal(p, Init(), es) && s == Exec(p, Init(), es);
    RunKeepsInv(p, Init(), es);
  }

  lemma {:induction false} RunAppend(p: Policy, s: State, es: seq<Event>, fs: seq<Event>)
    requires Legal(p, s, es) && Legal(p, Exec(p, s, es), fs)
    ensures Legal(p, s, es + fs)
    ensures Exec(p, s, es + fs) == Exec(p, Exec(p, s, es), fs)
    decreases |es|
  {
    if es == [] {
      assert es + fs == fs;
    } else {
      assert (es + fs)[1..] == es[1..] + fs;
      RunAppend(p, Step(p, s, es[0]), es[1..], fs);
    }
  }

  lemma ReachableStep(p: Policy, s: State, e: Event)
    requires Reachable(p, s) && Enabled(p, s, e)
    ensures Reachable(p, Step(p, s, e))
  {
    var es :| Legal(p, Init(), es) && s == Exec(p, Init(), es);
    assert [e][1..] == [];
    RunAppend(p, Init(), es, [e]);
  }

  // -- at most one lease --

  /** Two leases at once only when one belongs to a container seen down since it was granted. */
  lemma ExtraLeasesWereSeenDown(p: Policy, s: State, a: Name, b: Name)
    requires p.WellFormed() && Reachable(p, s)
    requires a in s.held && b in s.held && a != b
    ensures (p.IsKind(a, Container) && a in s.sawDown) || (p.IsKind(b, Container) && b in s.sawDown)
  {
    ReachableInv(p, s);
  }

  lemma AtMostOneWithoutContainers(p: Policy, s: State)
    requires p.WellFormed() && p.NoContainers() && Reachable(p, s)
    ensures AtMostOneLease(s)
  {
    ReachableInv(p, s);
  }

  /** Scanning a table in which nobody else holds the card walks to its end. */
  lemma {:induction false} QuietScan(p: Policy, s: State) returns (es: seq<Event>)
    requires p.WellFormed() && s.phase.Scan? && s.phase.next <= |p.order| && s.phase.stopped == []
    requires forall n :: n in p.order && n != s.phase.req.job ==> !Holds(p, s, n)
    ensures Legal(p, s, es)
    ensures Exec(p, s, es) == s.(phase := Scan(s.phase.req, |p.order|, []))
    ensures forall e :: e in es ==> e.Look?
    decreases |p.order| - s.phase.next
  {
    if s.phase.next == |p.order| {
      es := [];
    } else {
      var rest := QuietScan(p, Step(p, s, Look));
      es := [Look] + rest;
      assert es[1..] == rest;
    }
  }

  /** With nobody else holding, an acquire comes to its admission check. */
  lemma AdmittedOnAQuietCard(p: Policy, s: State, n: Name) returns (es: seq<Event>)
    requires p.WellFormed() && s.phase.Free? && p.Has(n) && !Holds(p, s, n)
    requires forall m :: m in p.order && m != n ==> !Holds(p, s, m)
    ensures Legal(p, s, es) && Exec(p, s, es) == s.(phase := Admitting(Request(n, s.now, 180.0), []))
    ensures forall e :: e in es ==> e.Enter? || e.Look? || e.ScanDone?
  {
    var s1 := Step(p, s, Enter(n, 180.0));
    var scan := QuietScan(p, s1);
    var tail := [ScanDone(None)];
    assert tail[1..] == [];
    RunAppend(p, s1, scan, tail);
    es := [Enter(n, 180.0)] + (scan + tail);
    assert es[1..] == scan + tail;
  }

  /** If the card is unreadable as well, asking is being granted. */
  lemma GrantedOnAQuietCard(p: Policy, s: State, n: Name) returns (es: seq<Event>)
    requires p.WellFormed() && s.phase.Free? && p.Has(n) && !Holds(p, s, n)
    requires forall m :: m in p.order && m != n ==> !Holds(p, s, m)
    ensures Legal(p, s, es) && Exec(p, s, es) == Grant(p, s, n)
  {
    var asked := AdmittedOnAQuietCard(p, s, n);
    var s1 := Exec(p, s, asked);
    assert Step(p, s1, Admit(None)) == Grant(p, s, n);
    assert [Admit(None)][1..] == [];
    RunAppend(p, s, asked, [Admit(None)]);
    es := asked + [Admit(None)];
  }

  /**
    A container that dies keeps its lease, a later acquire skips it, and both
    leases then stand together.
  */
  lemma ContainerLeaseOutlives(p: Policy, c: Name, d: Name) returns (s: State)
    requires p.WellFormed() && p.IsKind(c, Container) && p.Has(d) && c != d
    ensures Reachable(p, s) && {c, d} <= s.held
  {
    var first := GrantedOnAQuietCard(p, Init(), c);
    var s1 := Grant(p, Init(), c);
    var s2 := Step(p, s1, Down(c));
    var second := GrantedOnAQuietCard(p, s2, d);
    s := Grant(p, s2, d);
    var down := [Down(c)];
    assert down[1..] == [];
    RunAppend(p, Init(), first, down);
    RunAppend(p, Init(), first + down, second);
  }

  /** "At most one lease" is exactly the property of tables with no container beside another job. */
  lemma AtMostOneIff(p: Policy)
    requires p.WellFormed()
    ensures (forall s :: Reachable(p, s) ==> AtMostOneLease(s)) <==> (p.NoContainers() || |p.order| <= 1)
  {
    if p.NoContainers() {
      forall s | Reachable(p, s) ensures AtMostOneLease(s) { AtMostOneWithoutContainers(p, s); }
    } else if |p.order| <= 1 {
      forall s | Reachable(p, s) ensures AtMostOneLease(s) {
        ReachableInv(p, s);
        forall a, b | a in s.held && b in s.held ensures a == b { assert a in p.order && b in p.order; }
      }
    } else {
      var c :| c in p.jobs && p.jobs[c].kind == Container;
      assert c in p.order;
      var d := if p.order[0] == c then p.order[1] else p.order[0];
      assert d in p.order;
      var s := ContainerLeaseOutlives(p, c, d);
      assert c in s.held && d in s.held;
    }
  }

  // -- preemption --

  /**
    A lease disappears only because its holder released it, because a reap found
    it stale, or because a strictly higher-ranked acquire stopped it and recorded
    that it did.
  */
  lemma LeasesAreLostUpwards(p: Policy, s: State, e: Event, n: Name)
    requires p.WellFormed() && Reachable(p, s) && Enabled(p, s, e)
    requires n in s.held && n !in Step(p, s, e).held
    ensures
      || e == Release(n)
      || (e.Reap? && n in Stale(p, s))
      || (&& (e.Look? || e.Reclaimed?)
          && p.Has(n) && p.Has(s.phase.req.job) && p.Priority(n) < p.Priority(s.phase.req.job)
          && Step(p, s, e).phase.Scan?
          && Step(p, s, e).phase.stopped == s.phase.stopped + [n])
  {
    ReachableInv(p, s);
  }

  /** What the acquire in progress has cleared so far is empty, or the card is. */
  ghost predicate StoppedEmptiedTheCard(p: Policy, s: State) {
    match s.phase
    case Scan(_, _, stopped) => |stopped| <= 1 && (stopped != [] ==> s.held == {})
    case Waiting(_, next, stopped, _) =>
      stopped == [] && next < |p.order| && forall n :: n in s.held ==> n == p.order[next]
    case Settling(_, stopped, _, _, _) => |stopped| <= 1 && s.held == {}
    case Admitting(_, stopped) => |stopped| <= 1 && (stopped != [] ==> s.held == {})
    case Free => true
  }

  lemma StepKeepsEmptied(p: Policy, s: State, e: Event)
    requires p.WellFormed() && p.NoContainers() && Inv(p, s) && Enabled(p, s, e)
    requires StoppedEmptiedTheCard(p, s)
    ensures StoppedEmptiedTheCard(p, Step(p, s, e))
  {
  }

  lemma {:induction false} RunKeepsEmptied(p: Policy, s: State, es: seq<Event>)
    requires p.WellFormed() && p.NoContainers() && Inv(p, s) && Legal(p, s, es)
    requires StoppedEmptiedTheCard(p, s)
    ensures StoppedEmptiedTheCard(p, Exec(p, s, es))
    decreases |es|
  {
    if es != [] {
      StepKeepsInv(p, s, es[0]);
      StepKeepsEmptied(p, s, es[0]);
      RunKeepsEmptied(p, Step(p, s, es[0]), es[1..]);
    }
  }

  /** This turn of the scan refuses the caller because `order[next]` outranks it. */
  ghost predicate RefusesOnRank(p: Policy, s: State) {
    Enabled(p, s, Look) && Step(p, s, Look).phase.Free?
  }

  /** In a sorted table, once something was stopped everything still ahead ranks below the caller. */
  lemma SortedScanDescends(p: Policy, s: State)
    requires p.WellFormed() && p.Sorted() && Inv(p, s) && s.phase.Scan? && s.phase.next < |p.order|
    ensures s.phase.stopped != [] ==> p.Priority(p.order[s.phase.next]) < p.Priority(s.phase.req.job)
  {
    assert p.order[s.phase.next] in p.order;
    if s.phase.stopped != [] {
      assert s.phase.stopped[0] in s.phase.stopped;
    }
  }

  /** An acquire refused on rank has cleared no lease: in any table without containers, and in any sorted table. */
  lemma RankRefusalClearsNothing(p: Policy, s: State)
    requires p.WellFormed() && Reachable(p, s) && RefusesOnRank(p, s)
    requires p.NoContainers() || p.Sorted()
    ensures s.phase.stopped == [] && Step(p, s, Look).held == s.held
  {
    ReachableInv(p, s);
    if p.NoContainers() {
      var es :| Legal(p, Init(), es) && s == Exec(p, Init(), es);
      RunKeepsEmptied(p, Init(), es);
    } else {
      SortedScanDescends(p, s);
    }
  }

  // -- the handshake with a cooperative holder --

  ghost predicate Pending(p: Policy, s: State, o: Name) {
    s.phase.Waiting? && s.phase.next < |p.order| && p.order[s.phase.next] == o && p.IsKind(o, Cooperative)
  }

  /** A cooperative reclaim succeeds only once the holder has released since its latest grant. */
  lemma ReclaimNeedsARelease(p: Policy, s: State, o: Name)
    requires p.WellFormed() && Reachable(p, s) && Pending(p, s, o)
    ensures Enabled(p, s, Reclaimed) <==> o !in s.held
    ensures Enabled(p, s, Reclaimed) ==> o in s.gaveUp
  {
    ReachableInv(p, s);
  }

  /** While a reclaim is pending no poll by that holder may answer "keep it". */
  lemma PendingPollsAnswerReclaim(p: Policy, s: State, o: Name)
    requires p.WellFormed() && Reachable(p, s) && Pending(p, s, o)
    ensures !Enabled(p, s, PollEnd(o, false)) && Enabled(p, s, PollEnd(o, true))
  {
    ReachableInv(p, s);
  }

  /** `release` takes no lock: it is enabled in the middle of the wait and ends it. */
  lemma ReleaseEndsTheWait(p: Policy, s: State, o: Name)
    requires p.WellFormed() && Reachable(p, s) && Pending(p, s, o)
    ensures Enabled(p, s, Release(o))
    ensures Enabled(p, Step(p, s, Release(o)), Reclaimed)
    ensures Step(p, Step(p, s, Release(o)), Reclaimed).phase.Scan?
  {
    ReachableInv(p, s);
  }

  // -- how long acquire keeps the lock --

  /** Whom the acquire in progress has taken the card from so far. */
  function Stopped(phase: Phase): seq<Name> {
    match phase
    case Free => []
    case Scan(_, _, stopped) => stopped
    case Waiting(_, _, stopped, _) => stopped
    case Settling(_, stopped, _, _, _) => stopped
    case Admitting(_, stopped) => stopped
  }

  /** The first wait ends by the deadline; each later one adds a second at most, and so does the settling. */
  ghost predicate LockTime(p: Policy, s: State) {
    var k := |Stopped(s.phase)|;
    match s.phase
    case Free => true
    case Scan(req, next, _) =>
      && k <= next && req.since <= s.now
      && (if k == 0 then s.now == req.since else s.now <= req.since + RealMax(1.0, req.timeout) + (k - 1) as real)
    case Waiting(req, next, _, until) =>
      k <= next && req.since <= s.now <= until <= req.since + RealMax(1.0, req.timeout) + k as real
    case Settling(req, _, until, wake, _) =>
      && k <= |p.order| && req.since <= s.now <= wake <= until + 0.5
      && until <= req.since + RealMax(1.0, req.timeout) + k as real
    case Admitting(req, _) =>
      k <= |p.order| && req.since <= s.now <= req.since + RealMax(1.0, req.timeout) + k as real + 0.5
  }

  lemma StepKeepsLockTime(p: Policy, s: State, e: Event)
    requires p.WellFormed() && Inv(p, s) && Enabled(p, s, e) && LockTime(p, s)
    ensures LockTime(p, Step(p, s, e))
  {
  }

  lemma {:induction false} RunKeepsLockTime(p: Policy, s: State, es: seq<Event>)
    requires p.WellFormed() && Inv(p, s) && Legal(p, s, es) && LockTime(p, s)
    ensures LockTime(p, Exec(p, s, es))
    decreases |es|
  {
    if es != [] {
      StepKeepsInv(p, s, es[0]);
      StepKeepsLockTime(p, s, es[0]);
      RunKeepsLockTime(p, Step(p, s, es[0]), es[1..]);
    }
  }

  /**
    Counting waits only, an acquire with timeout T that has taken the card from k
    jobs has kept the lock at most max(1, T) + k + 0.5 seconds. Without containers
    k is at most one, so that is max(1, T) + 1.5.
  */
  lemma LockHeldAtMost(p: Policy, s: State)
    requires p.WellFormed() && Reachable(p, s) && !s.phase.Free?
    ensures 0.0 <= s.now - s.phase.req.since <= RealMax(1.0, s.phase.req.timeout) + |Stopped(s.phase)| as real + 0.5
    ensures |Stopped(s.phase)| <= |p.order|
    ensures p.NoContainers() ==> |Stopped(s.phase)| <= 1
    ensures p.NoContainers() ==> s.now - s.phase.req.since <= RealMax(1.0, s.phase.req.timeout) + 1.5
  {
    var es :| Legal(p, Init(), es) && s == Exec(p, Init(), es);
    RunKeepsLockTime(p, Init(), es);
    ReachableInv(p, s);
    if p.NoContainers() { RunKeepsEmptied(p, Init(), es); }
  }
}
