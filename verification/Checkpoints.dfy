/**
  Crash-safe checkpoints: the output directory as a file-system state machine in
  which SIGKILL may strike between any two file operations, including halfway
  through a recursive delete, and a delete may fail silently.
*/
module Checkpoints {
  import opened Wrappers

  /** A file inside checkpoint-<step>: one file of the save, or the COMPLETE marker. */
  datatype Entry = Part(id: nat) | Marker

  /** The checkpoint directories on disk, by step. */
  type Disk = map<nat, set<Entry>>

  /** What a save writes at each step, and how many complete checkpoints prune retains. */
  datatype Setup = Setup(files: nat -> set<nat>, keep: int)

  predicate IsComplete(d: Disk, step: nat) { step in d && Marker in d[step] }

  function Complete(d: Disk): set<nat> { set s | s in d && Marker in d[s] }

  function Newer(d: Disk, step: nat): set<nat> { set t | t in d && Marker in d[t] && t > step }

  ghost predicate Intact(u: Setup, d: Disk, step: nat) {
    IsComplete(d, step) && forall f :: f in u.files(step) ==> Part(f) in d[step]
  }

  /** `latest`: the newest directory holding a marker. */
  ghost predicate IsLatest(d: Disk, latest: Option<nat>) {
    match latest
    case None => Complete(d) == {}
    case Some(s) => IsComplete(d, s) && Newer(d, s) == {}
  }

  /** What `prune` removes: every directory without a marker, and all but the newest `keep` with one. */
  function Victims(u: Setup, d: Disk): set<nat> {
    set s | s in d && (Marker !in d[s] || |Newer(d, s)| >= u.keep)
  }

  /** Where the training process is. `last` is the step resumed from or saved last, -1 for none. */
  datatype Phase =
    | Dead
    | Training(last: int)
    | Saving(step: nat)
    | Saved(step: nat)
    | Marked(step: nat)
    | Pruning(todo: set<nat>, booting: bool)

  /** `saves` is history: the steps whose marker was created, in order. */
  datatype State = State(disk: Disk, phase: Phase, saves: seq<nat>)

  datatype Event =
    | Boot
    | BeginSave(step: nat)
    | WriteFile(id: nat)
    | SaveReturns
    | Mark
    | ListForPrune
    | RemoveFile(step: nat, entry: Entry)
    | RemoveDir(step: nat)
    | GiveUp(step: nat)
    | PruneDone
    | Kill

  function Init(): State { State(map[], Dead, []) }

  function LastSave(s: State): int { if s.saves == [] then -1 else s.saves[|s.saves| - 1] }

  ghost predicate Enabled(u: Setup, s: State, e: Event) {
    match e
    case Boot => s.phase.Dead?
    case BeginSave(step) => s.phase.Training? && step > s.phase.last
    case WriteFile(id) => s.phase.Saving? && id in u.files(s.phase.step) && s.phase.step in s.disk
    case SaveReturns =>
      && s.phase.Saving? && s.phase.step in s.disk
      && forall f :: f in u.files(s.phase.step) ==> Part(f) in s.disk[s.phase.step]
    case Mark => s.phase.Saved? && s.phase.step in s.disk
    case ListForPrune => s.phase.Marked?
    case RemoveFile(step, entry) => s.phase.Pruning? && step in s.phase.todo && step in s.disk && entry in s.disk[step]
    case RemoveDir(step) => s.phase.Pruning? && step in s.phase.todo && step in s.disk && s.disk[step] == {}
    case GiveUp(step) => s.phase.Pruning? && step in s.phase.todo
    case PruneDone => s.phase.Pruning? && s.phase.todo == {}
    case Kill => true
  }

  ghost function Step(u: Setup, s: State, e: Event): State
    requires Enabled(u, s, e)
  {
    match e
    case Boot => s.(phase := Pruning(Victims(u, s.disk), true))
    case BeginSave(step) =>
      s.(disk := s.disk[step := if step in s.disk then s.disk[step] else {}], phase := Saving(step))
    case WriteFile(id) => s.(disk := s.disk[s.phase.step := s.disk[s.phase.step] + {Part(id)}])
    case SaveReturns => s.(phase := Saved(s.phase.step))
    case Mark =>
      State(s.disk[s.phase.step := s.disk[s.phase.step] + {Marker}], Marked(s.phase.step), s.saves + [s.phase.step])
    case ListForPrune => s.(phase := Pruning(Victims(u, s.disk), false))
    case RemoveFile(step, entry) => s.(disk := s.disk[step := s.disk[step] - {entry}])
    case RemoveDir(step) => s.(disk := s.disk - {step}, phase := s.phase.(todo := s.phase.todo - {step}))
    case GiveUp(step) =>
      // The removal ignores errors: whatever is left of the directory stays.
      s.(phase := s.phase.(todo := s.phase.todo - {step}))
    case PruneDone =>
      // A booting process resumes from `latest`; one that just saved goes on from that save.
      s.(phase := Training(if s.phase.booting then Resume(s.disk) else LastSave(s)))
    case Kill => s.(phase := Dead)
  }

  /** The step of the newest complete checkpoint, or -1. */
  ghost function Resume(d: Disk): int {
    if exists s: nat :: IsLatest(d, Some(s)) then
      var s: nat :| IsLatest(d, Some(s));
      s
    else -1
  }

  ghost predicate Legal(u: Setup, s: State, es: seq<Event>)
    decreases |es|
  {
    es == [] || (Enabled(u, s, es[0]) && Legal(u, Step(u, s, es[0]), es[1..]))
  }

  ghost function Exec(u: Setup, s: State, es: seq<Event>): State
    requires Legal(u, s, es)
    decreases |es|
  {
    if es == [] then s else Exec(u, Step(u, s, es[0]), es[1..])
  }

  // -- the invariant --

  /** The i-th save is among the newest `keep`. */
  predicate Retained(u: Setup, s: State, i: int) { 0 <= i < |s.saves| && |s.saves| - i <= u.keep }

  ghost predicate DiskInv(u: Setup, s: State) {
    && (forall i, j :: 0 <= i < j < |s.saves| ==> s.saves[i] < s.saves[j])
    && (forall x :: IsComplete(s.disk, x) ==> x in s.saves)
    && (forall i :: Retained(u, s, i) ==> Intact(u, s.disk, s.saves[i]))
  }

  ghost predicate PhaseInv(u: Setup, s: State) {
    match s.phase
    case Dead => true
    case Training(last) => last == LastSave(s)
    case Saving(step) => step > LastSave(s) && step in s.disk
    case Saved(step) =>
      step > LastSave(s) && step in s.disk && forall f :: f in u.files(step) ==> Part(f) in s.disk[step]
    case Marked(step) => true
    case Pruning(todo, _) => forall i :: Retained(u, s, i) ==> s.saves[i] !in todo
  }

  ghost predicate Inv(u: Setup, s: State) { DiskInv(u, s) && PhaseInv(u, s) }

  function Elements(xs: seq<nat>): set<nat> { set x | x in xs }

  lemma {:induction false} ManyMembers(xs: seq<nat>)
    ensures |Elements(xs)| <= |xs|
  {
    if xs == [] {
      assert Elements(xs) == {};
    } else {
      ManyMembers(xs[1..]);
      assert Elements(xs) == Elements(xs[1..]) + {xs[0]};
      SubsetCard(Elements(xs), Elements(xs[1..]) + {xs[0]});
    }
  }

  /** A retained save has fewer than `keep` newer complete checkpoints, so prune spares it. */
  lemma RetainedIsSpared(u: Setup, s: State, i: int)
    requires DiskInv(u, s) && Retained(u, s, i)
    ensures s.saves[i] !in Victims(u, s.disk)
  {
    var later := s.saves[i + 1..];
    var laterSet := Elements(later);
    forall t | t in Newer(s.disk, s.saves[i]) ensures t in laterSet {
      assert t in s.saves;
      var j :| 0 <= j < |s.saves| && s.saves[j] == t;
      assert j > i;
      assert later[j - i - 1] == t;
    }
    assert Newer(s.disk, s.saves[i]) <= laterSet;
    SubsetCard(Newer(s.disk, s.saves[i]), laterSet);
    ManyMembers(later);
  }

  lemma LatestUnique(d: Disk, a: nat, b: nat)
    requires IsLatest(d, Some(a)) && IsLatest(d, Some(b))
    ensures a == b
  {
    assert a !in Newer(d, b) && b !in Newer(d, a);
  }

  /** With keep >= 1 the newest complete checkpoint is the last completed save. */
  lemma LatestIsLastSave(u: Setup, s: State)
    requires u.keep >= 1 && DiskInv(u, s)
    ensures s.saves == [] ==> IsLatest(s.disk, None)
    ensures s.saves != [] ==>
      IsLatest(s.disk, Some(s.saves[|s.saves| - 1])) && Intact(u, s.disk, s.saves[|s.saves| - 1])
    ensures Resume(s.disk) == LastSave(s)
  {
    if s.saves == [] {
      assert forall x :: x in Complete(s.disk) ==> IsComplete(s.disk, x);
    } else {
      var k := |s.saves| - 1;
      assert Retained(u, s, k);
      forall t ensures t !in Newer(s.disk, s.saves[k]) {
        if IsComplete(s.disk, t) {
          var j :| 0 <= j < |s.saves| && s.saves[j] == t;
        }
      }
      assert Newer(s.disk, s.saves[k]) == {};
      assert IsLatest(s.disk, Some(s.saves[k]));
      forall x | IsLatest(s.disk, Some(x)) ensures x == s.saves[k] { LatestUnique(s.disk, x, s.saves[k]); }
    }
  }

  lemma ListKeepsInv(u: Setup, s: State, e: Event)
    requires Inv(u, s) && Enabled(u, s, e) && (e.Boot? || e.ListForPrune?)
    ensures Inv(u, Step(u, s, e))
  {
    forall i | Retained(u, s, i) ensures s.saves[i] !in Victims(u, s.disk) { RetainedIsSpared(u, s, i); }
  }

  lemma MarkKeepsInv(u: Setup, s: State)
    requires Inv(u, s) && Enabled(u, s, Mark)
    ensures Inv(u, Step(u, s, Mark))
  {
    var s' := Step(u, s, Mark);
    forall i | Retained(u, s', i) ensures Intact(u, s'.disk, s'.saves[i]) {
      if i < |s.saves| { assert Retained(u, s, i); }
    }
  }

  lemma StepKeepsInv(u: Setup, s: State, e: Event)
    requires u.keep >= 1 && Inv(u, s) && Enabled(u, s, e)
    ensures Inv(u, Step(u, s, e))
  {
    match e
    case Boot => ListKeepsInv(u, s, e);
    case ListForPrune => ListKeepsInv(u, s, e);
    case Mark => MarkKeepsInv(u, s);
    case PruneDone => LatestIsLastSave(u, s);
    case BeginSave(step) => OtherKeepsInv(u, s, e);
    case WriteFile(_) => OtherKeepsInv(u, s, e);
    case SaveReturns => OtherKeepsInv(u, s, e);
    case RemoveFile(_, _) => RemoveKeepsInv(u, s, e);
    case RemoveDir(_) => RemoveKeepsInv(u, s, e);
    case GiveUp(_) => OtherKeepsInv(u, s, e);
    case Kill =>
  }

  lemma OtherKeepsInv(u: Setup, s: State, e: Event)
    requires Inv(u, s) && Enabled(u, s, e) && (e.BeginSave? || e.WriteFile? || e.SaveReturns? || e.GiveUp?)
    ensures Inv(u, Step(u, s, e))
  {
    var s' := Step(u, s, e);
    forall i | Retained(u, s', i) ensures Intact(u, s'.disk, s'.saves[i]) { assert Retained(u, s, i); }
  }

  lemma RemoveKeepsInv(u: Setup, s: State, e: Event)
    requires Inv(u, s) && Enabled(u, s, e) && (e.RemoveFile? || e.RemoveDir?)
    ensures Inv(u, Step(u, s, e))
  {
    var s' := Step(u, s, e);
    forall i | Retained(u, s', i) ensures Intact(u, s'.disk, s'.saves[i]) && s'.saves[i] != e.step {
      assert Retained(u, s, i);
    }
  }

  lemma {:induction false} RunKeepsInv(u: Setup, s: State, es: seq<Event>)
    requires u.keep >= 1 && Inv(u, s) && Legal(u, s, es)
    ensures Inv(u, Exec(u, s, es)) && s.saves <= Exec(u, s, es).saves
    decreases |es|
  {
    if es != [] {
      StepKeepsInv(u, s, es[0]);
      RunKeepsInv(u, Step(u, s, es[0]), es[1..]);
    }
  }

  // -- theorems --

  ghost predicate Reachable(u: Setup, s: State) {
    exists es :: Legal(u, Init(), es) && s == Exec(u, Init(), es)
  }

  ghost predicate LatestIsUsable(u: Setup, d: Disk) {
    forall s :: IsLatest(d, Some(s)) ==> Intact(u, d, s)
  }

  /**
    Killed anywhere, the directory's latest checkpoint is exactly the last
    completed save, fully intact, and the newest min(k, keep) saves all are.
  */
  lemma CrashSafe(u: Setup, s: State)
    requires u.keep >= 1 && Reachable(u, s)
    ensures LatestIsUsable(u, s.disk)
    ensures IsLatest(s.disk, if s.saves == [] then None else Some(s.saves[|s.saves| - 1]))
    ensures forall i :: 0 <= i < |s.saves| && |s.saves| - i <= u.keep ==> Intact(u, s.disk, s.saves[i])
  {
    var es :| Legal(u, Init(), es) && s == Exec(u, Init(), es);
    RunKeepsInv(u, Init(), es);
    LatestIsLastSave(u, s);
    forall x | IsLatest(s.disk, Some(x)) ensures Intact(u, s.disk, x) {
      LatestUnique(s.disk, x, s.saves[|s.saves| - 1]);
    }
    forall i | 0 <= i < |s.saves| && |s.saves| - i <= u.keep ensures Intact(u, s.disk, s.saves[i]) {
      assert Retained(u, s, i);
    }
  }

  /** Along any run, kills and restarts included, the resume point never goes back. */
  lemma ResumeNeverDecreases(u: Setup, s: State, es: seq<Event>)
    requires u.keep >= 1 && Reachable(u, s) && Legal(u, s, es)
    ensures Resume(s.disk) <= Resume(Exec(u, s, es).disk)
  {
    var before :| Legal(u, Init(), before) && s == Exec(u, Init(), before);
    RunKeepsInv(u, Init(), before);
    RunKeepsInv(u, s, es);
    var t := Exec(u, s, es);
    LatestIsLastSave(u, s);
    LatestIsLastSave(u, t);
    assert s.saves == t.saves[..|s.saves|];
  }

  lemma {:induction false} RunAppend(u: Setup, s: State, es: seq<Event>, fs: seq<Event>)
    requires Legal(u, s, es) && Legal(u, Exec(u, s, es), fs)
    ensures Legal(u, s, es + fs) && Exec(u, s, es + fs) == Exec(u, Exec(u, s, es), fs)
    decreases |es|
  {
    if es == [] {
      assert es + fs == fs;
    } else {
      assert (es + fs)[1..] == es[1..] + fs;
      RunAppend(u, Step(u, s, es[0]), es[1..], fs);
    }
  }

  lemma ReachableStep(u: Setup, s: State, e: Event)
    requires Reachable(u, s) && Enabled(u, s, e)
    ensures Reachable(u, Step(u, s, e))
  {
    var es :| Legal(u, Init(), es) && s == Exec(u, Init(), es);
    assert [e][1..] == [];
    RunAppend(u, Init(), es, [e]);
  }

  /** Writing the remaining files of a save, one by one. */
  lemma {:induction false} WriteAll(u: Setup, s: State, left: set<nat>) returns (t: State)
    requires Reachable(u, s) && s.phase.Saving? && s.phase.step in s.disk
    requires left <= u.files(s.phase.step)
    requires forall f :: f in u.files(s.phase.step) && f !in left ==> Part(f) in s.disk[s.phase.step]
    ensures Reachable(u, t) && t.phase == s.phase && t.phase.step in t.disk
    ensures t.disk == s.disk[s.phase.step := t.disk[s.phase.step]]
    ensures forall f :: f in u.files(s.phase.step) ==> Part(f) in t.disk[s.phase.step]
    decreases |left|
  {
    if left == {} {
      t := s;
    } else {
      var f :| f in left;
      ReachableStep(u, s, WriteFile(f));
      t := WriteAll(u, Step(u, s, WriteFile(f)), left - {f});
    }
  }

  /** With keep <= 0 prune starts deleting the save it just marked, and a kill leaves its marker behind. */
  lemma NothingKeptIsUnsafe(u: Setup, step: nat, f: nat) returns (s: State)
    requires u.keep <= 0 && f in u.files(step)
    ensures Reachable(u, s) && IsLatest(s.disk, Some(step)) && !Intact(u, s.disk, step)
  {
    s := Init();
    assert Legal(u, Init(), []) && Exec(u, Init(), []) == Init();
    assert Victims(u, s.disk) == {};
    ReachableStep(u, s, Boot);
    s := Step(u, s, Boot);
    ReachableStep(u, s, PruneDone);
    s := Step(u, s, PruneDone);
    ReachableStep(u, s, BeginSave(step));
    s := Step(u, s, BeginSave(step));
    s := WriteAll(u, s, u.files(step));
    ReachableStep(u, s, SaveReturns);
    s := Step(u, s, SaveReturns);
    ReachableStep(u, s, Mark);
    s := Step(u, s, Mark);
    ReachableStep(u, s, ListForPrune);
    s := Step(u, s, ListForPrune);
    ReachableStep(u, s, RemoveFile(step, Part(f)));
    s := Step(u, s, RemoveFile(step, Part(f)));
  }

  /** Resuming from `latest` is safe after every kill exactly when prune keeps at least one (or saves are empty). */
  lemma SafeIffOneIsKept(u: Setup)
    ensures (forall s :: Reachable(u, s) ==> LatestIsUsable(u, s.disk))
       <==> (u.keep >= 1 || forall step :: u.files(step) == {})
  {
    if u.keep >= 1 {
      forall s | Reachable(u, s) ensures LatestIsUsable(u, s.disk) { CrashSafe(u, s); }
    } else if step, f :| f in u.files(step) {
      var s := NothingKeptIsUnsafe(u, step, f);
    }
  }
}
