/**
  The checkpoint functions as they run: loops over directory listings that delete
  in place. The ghost log shows every file operation they perform is a step of the
  crash model, so a SIGKILL between any two of them is covered by its theorems.
*/
module CheckpointDir {
  import opened Wrappers
  import opened Checkpoints

  predicate Ascending(xs: seq<nat>) {
    forall i, j :: 0 <= i < j < |xs| ==> xs[i] < xs[j]
  }

  function Insert(xs: seq<nat>, x: nat): (r: seq<nat>)
    requires Ascending(xs) && x !in xs
    ensures Ascending(r) && forall y :: y in r <==> y == x || y in xs
  {
    if xs == [] then [x]
    else if x < xs[0] then [x] + xs
    else
      var rest := Insert(xs[1..], x);
      assert forall k :: 0 <= k < |rest| ==> rest[k] in rest;
      assert forall y :: y in xs[1..] ==> y > xs[0];
      [xs[0]] + rest
  }

  lemma AscendingGrows(xs: seq<nat>, x: nat)
    requires Ascending(xs) && forall y :: y in xs ==> y < x
    ensures Ascending(xs + [x])
  {
    assert forall j :: 0 <= j < |xs| ==> xs[j] in xs;
  }

  lemma AscendingParts(xs: seq<nat>)
    requires Ascending(xs)
    ensures Ascending([]) && forall i, x :: 0 <= i < |xs| && x in xs[..i] ==> x < xs[i]
  {
  }

  lemma {:induction false} AscendingCard(xs: seq<nat>)
    requires Ascending(xs)
    ensures |Elements(xs)| == |xs|
  {
    if xs == [] {
      assert Elements(xs) == {};
    } else {
      AscendingCard(xs[1..]);
      assert xs[0] !in Elements(xs[1..]);
      assert Elements(xs) == Elements(xs[1..]) + {xs[0]};
    }
  }

  /** `complete[:-keep] if keep > 0 else complete` */
  function DropNewest(xs: seq<nat>, keep: int): seq<nat> {
    if keep <= 0 then xs else if |xs| <= keep then [] else xs[..|xs| - keep]
  }

  /** Slicing off the newest `keep` removes exactly those with at least `keep` newer ones. */
  lemma DropNewestIsOld(d: Disk, complete: seq<nat>, keep: int, x: nat)
    requires Ascending(complete) && forall y :: y in complete <==> IsComplete(d, y)
    ensures x in DropNewest(complete, keep) <==> IsComplete(d, x) && |Newer(d, x)| >= keep
  {
    if x in complete {
      var i :| 0 <= i < |complete| && complete[i] == x;
      var later := complete[i + 1..];
      forall t | t in Newer(d, x) ensures t in Elements(later) {
        assert t in complete;
        var j :| 0 <= j < |complete| && complete[j] == t;
        assert later[j - i - 1] == t;
      }
      forall t | t in Elements(later) ensures t in Newer(d, x) {
        var k :| 0 <= k < |later| && later[k] == t;
        assert complete[i + 1 + k] == t && t in complete;
      }
      assert Newer(d, x) == Elements(later);
      AscendingCard(later);
      if keep > 0 && |complete| > keep && i < |complete| - keep {
        assert DropNewest(complete, keep)[i] == x;
      }
    }
  }

  lemma DistinctConcat(xs: seq<nat>, ys: seq<nat>, i: nat)
    requires Ascending(xs) && Ascending(ys) && i < |xs + ys|
    requires forall x :: x in xs ==> x !in ys
    ensures (xs + ys)[i] !in (xs + ys)[..i]
  {
    var zs := xs + ys;
    forall j | 0 <= j < i ensures zs[j] != zs[i] {
      if j < |xs| <= i { assert xs[j] in xs && ys[i - |xs|] in ys; }
    }
  }

  lemma LatestAgrees(d: Disk, a: Option<nat>, b: Option<nat>)
    requires IsLatest(d, a) && IsLatest(d, b)
    ensures a == b
  {
    if a.Some? && b.Some? { LatestUnique(d, a.value, b.value); }
    assert forall s :: IsComplete(d, s) ==> s in Complete(d);
  }

  class CheckpointDir {
    const setup: Setup
    var dirs: Disk
    ghost var log: seq<Event>
    ghost var state: State

    ghost predicate Valid()
      reads this
    {
      Legal(setup, Init(), log) && state == Exec(setup, Init(), log) && dirs == state.disk
    }

    constructor (setup: Setup)
      ensures Valid() && this.setup == setup && dirs == map[]
    {
      this.setup := setup;
      dirs, log, state := map[], [], Init();
    }

    ghost method Emit(e: Event)
      requires Legal(setup, Init(), log) && state == Exec(setup, Init(), log) && Enabled(setup, state, e)
      modifies this`log, this`state
      ensures log == old(log) + [e] && state == Step(setup, old(state), e)
      ensures Legal(setup, Init(), log) && state == Exec(setup, Init(), log)
    {
      assert [e][1..] == [];
      RunAppend(setup, Init(), log, [e]);
      log := log + [e];
      state := Step(setup, state, e);
    }

    /** `all_checkpoints`: the steps with a directory, in ascending order. */
    method AllCheckpoints() returns (list: seq<nat>)
      ensures Ascending(list) && forall x :: x in list <==> x in dirs
    {
      list := [];
      var rest := dirs.Keys;
      while rest != {}
        invariant Ascending(list) && rest <= dirs.Keys
        invariant forall x :: x in list <==> x in dirs && x !in rest
        decreases rest
      {
        var x :| x in rest;
        list := Insert(list, x);
        rest := rest - {x};
      }
    }

    /** `latest`: the step to resume from; a directory without its marker does not count. */
    method Latest() returns (latest: Option<nat>)
      ensures IsLatest(dirs, latest)
    {
      var list := AllCheckpoints();
      latest := None;
      var i := 0;
      while i < |list|
        invariant 0 <= i <= |list|
        invariant latest.None? ==> forall j :: 0 <= j < i ==> !IsComplete(dirs, list[j])
        invariant latest.Some? ==> IsComplete(dirs, latest.value)
        invariant latest.Some? ==> forall j :: 0 <= j < i && IsComplete(dirs, list[j]) ==> list[j] <= latest.value
      {
        if Marker in dirs[list[i]] { latest := Some(list[i]); }
        i := i + 1;
      }
      if latest.Some? {
        assert forall t :: t in Newer(dirs, latest.value) ==> t in list;
      } else {
        assert forall t :: t in Complete(dirs) ==> t in list;
      }
    }

    method MarkComplete(step: nat)
      requires Valid() && state.phase == Saved(step) && step in dirs
      modifies this
      ensures Valid() && log == old(log) + [Mark] && IsComplete(dirs, step)
      ensures state == Step(setup, old(state), Mark)
    {
      hide Legal, Exec;
      Emit(Mark);
      dirs := dirs[step := dirs[step] + {Marker}];
    }

    /** `shutil.rmtree`: the files in any order, then the directory. */
    method RemoveTree(step: nat)
      requires Valid() && state.phase.Pruning? && step in state.phase.todo && step in dirs
      modifies this
      ensures Valid() && old(log) <= log && dirs == old(dirs) - {step} && state.saves == old(state).saves
      ensures state.phase == old(state).phase.(todo := old(state).phase.todo - {step})
    {
      hide Legal, Exec;
      while dirs[step] != {}
        invariant Valid() && old(log) <= log && step in dirs && dirs == old(dirs)[step := dirs[step]]
        invariant state.phase == old(state).phase && state.saves == old(state).saves
        decreases dirs[step]
      {
        var f :| f in dirs[step];
        Emit(RemoveFile(step, f));
        dirs := dirs[step := dirs[step] - {f}];
      }
      Emit(RemoveDir(step));
      dirs := dirs - {step};
      assert dirs == old(dirs) - {step};
    }

    /** The two lists `prune` builds from one listing. */
    method Classify() returns (complete: seq<nat>, partial: seq<nat>)
      ensures Ascending(complete) && forall x :: x in complete <==> IsComplete(dirs, x)
      ensures Ascending(partial) && forall x :: x in partial <==> x in dirs && Marker !in dirs[x]
    {
      var list := AllCheckpoints();
      AscendingParts(list);
      complete, partial := [], [];
      hide Ascending;
      var i := 0;
      while i < |list|
        invariant 0 <= i <= |list|
        invariant Ascending(complete) && forall x :: x in complete <==> x in list[..i] && IsComplete(dirs, x)
        invariant Ascending(partial) && forall x :: x in partial <==> x in list[..i] && Marker !in dirs[x]
      {
        AscendingGrows(complete, list[i]);
        AscendingGrows(partial, list[i]);
        assert list[..i + 1] == list[..i] + [list[i]];
        if Marker in dirs[list[i]] { complete := complete + [list[i]]; } else { partial := partial + [list[i]]; }
        i := i + 1;
      }
      assert list[..i] == list;
    }

    /**
      What `prune` is about to remove: everything unmarked, then the marked steps that are no
      longer among the newest.
    */
    method Removals() returns (removed: seq<nat>)
      ensures forall x :: x in removed <==> x in Victims(setup, dirs)
      ensures forall i :: 0 <= i < |removed| ==> removed[i] !in removed[..i]
    {
      var complete, partial := Classify();
      removed := partial + DropNewest(complete, setup.keep);
      forall x ensures x in removed <==> x in Victims(setup, dirs) {
        DropNewestIsOld(dirs, complete, setup.keep, x);
      }
      assert forall x :: x in DropNewest(complete, setup.keep) ==> x in complete;
      assert forall x :: x in partial ==> x !in DropNewest(complete, setup.keep);
      forall i | 0 <= i < |removed| ensures removed[i] !in removed[..i] {
        DistinctConcat(partial, DropNewest(complete, setup.keep), i);
      }
    }

    /** The removal loop. */
    method RemoveAll(removed: seq<nat>)
      requires Valid() && state.phase.Pruning? && state.phase.todo == Elements(removed) <= dirs.Keys
      requires forall i :: 0 <= i < |removed| ==> removed[i] !in removed[..i]
      modifies this
      ensures Valid() && old(log) <= log && state.saves == old(state).saves
      ensures state.phase == old(state).phase.(todo := {}) && dirs == old(dirs) - Elements(removed)
    {
      hide Legal, Exec, Step, Enabled;
      var i := 0;
      assert removed[..0] == [];
      while i < |removed|
        invariant 0 <= i <= |removed|
        invariant Valid() && old(log) <= log && state.saves == old(state).saves
        invariant state.phase == old(state).phase.(todo := Elements(removed) - Elements(removed[..i]))
        invariant dirs == old(dirs) - Elements(removed[..i])
      {
        assert Elements(removed[..i + 1]) == Elements(removed[..i]) + {removed[i]};
        RemoveTree(removed[i]);
        i := i + 1;
      }
      assert removed[..i] == removed;
    }

    /** `prune` */
    method Prune(ghost listing: Event) returns (removed: seq<nat>)
      requires Valid() && (listing == Boot || listing == ListForPrune) && Enabled(setup, state, listing)
      modifies this
      ensures Valid() && old(log) < log && state.saves == old(state).saves
      ensures dirs == old(dirs) - Victims(setup, old(dirs))
      ensures forall x :: x in removed <==> x in Victims(setup, old(dirs))
      ensures state.phase == Pruning({}, listing == Boot)
    {
      hide Legal, Exec;
      removed := Removals();
      assert Elements(removed) == Victims(setup, dirs);
      Emit(listing);
      RemoveAll(removed);
    }

    /** What the trainer's on_save does once the save has returned: mark, then prune. */
    method OnSave(step: nat) returns (removed: seq<nat>)
      requires Valid() && state.phase == Saved(step) && step in dirs
      modifies this
      ensures Valid() && state.phase.Training? && state.saves == old(state).saves + [step]
      ensures forall x :: x in dirs ==> IsComplete(dirs, x) && (x == step || x in old(dirs))
    {
      hide Legal, Exec;
      MarkComplete(step);
      removed := Prune(ListForPrune);
      Emit(PruneDone);
    }

    /** What a starting worker does: prune the debris, then pick the checkpoint to resume from. */
    method Startup() returns (latest: Option<nat>)
      requires Valid() && state.phase.Dead?
      modifies this
      ensures Valid() && state.phase.Training? && state.saves == old(state).saves
      ensures IsLatest(dirs, latest) && forall x :: x in dirs ==> IsComplete(dirs, x)
      ensures setup.keep >= 1 ==>
        latest == if state.saves == [] then None else Some(state.saves[|state.saves| - 1])
    {
      hide Legal, Exec;
      var removed := Prune(Boot);
      Emit(PruneDone);
      latest := Latest();
      if setup.keep >= 1 {
        CrashSafe(setup, state);
        LatestAgrees(dirs, latest, if state.saves == [] then None else Some(state.saves[|state.saves| - 1]));
      }
    }
  }
}
