/**
  The supervisor's own program: its fields, its signal handler and its loops. A ghost
  log records the moves it makes among everybody else's; Valid() says the log is a
  legal run and the fields are its own part of the state, so its order of spawn, kill,
  wait and release is the one the theorems about runs assume.
*/
module SupervisorProcess {
  import opened Wrappers
  import opened GpuLease
  import S = Supervisors
  import opened SupervisorTheorems

  class Supervisor {
    const policy: Policy
    const pace: S.Pace
    const name: Name
    var stopping: bool
    var child: bool                // a worker process exists
    var exit: Option<S.ExitCode>   // what poll() on it answers
    var wanted: bool               // the event its notice thread sets
    ghost var system: S.System
    ghost var log: seq<S.Move>

    /** This supervisor's part of the system. */
    ghost function Me(): S.Supervisor
      reads this
      requires name in system.sups
    { system.sups[name] }

    ghost predicate Valid()
      reads this
    {
      && policy.IsKind(name, Cooperative)
      && S.LegalRun(policy, pace, S.Start(policy), log) && system == S.Run(policy, pace, S.Start(policy), log)
      && name in system.sups
      && stopping == Me().stopping && child == Me().WorkerLives() && (child ==> wanted == Me().wanted)
      && (exit.Some? ==> Me().pc == S.Exited(exit.value)) && (Me().pc.Exited? ==> exit.Some?)
    }

    constructor (policy: Policy, pace: S.Pace, name: Name)
      requires policy.IsKind(name, Cooperative)
      ensures Valid() && log == [] && Me() == S.FRESH
      ensures this.policy == policy && this.pace == pace && this.name == name
    {
      this.policy, this.pace, this.name := policy, pace, name;
      stopping, child, exit, wanted := false, false, None, false;
      log, system := [], S.Start(policy);
    }

    /** Record one move; the caller then brings the fields in line. */
    ghost method Emit(m: S.Move)
      requires S.LegalRun(policy, pace, S.Start(policy), log) && system == S.Run(policy, pace, S.Start(policy), log)
      requires S.Can(policy, system, m)
      modifies this`log, this`system
      ensures log == old(log) + [m] && system == S.Move1(policy, pace, old(system), m)
      ensures S.LegalRun(policy, pace, S.Start(policy), log) && system == S.Run(policy, pace, S.Start(policy), log)
    {
      hide S.Can, S.Move1;
      assert [m][1..] == [];
      RunAppendMoves(policy, pace, S.Start(policy), log, [m]);
      log := log + [m];
      system := S.Move1(policy, pace, system, m);
    }

    /** `request_shutdown`: the flag, and the worker with it. */
    method RequestShutdown()
      requires Valid() && !Me().pc.Done?
      modifies this
      ensures Valid() && log == old(log) + [S.Shutdown(name)] && stopping
      ensures old(Me()).pc.Running? ==> Me().pc.Killed?
      ensures !old(Me()).pc.Running? ==> Me().pc == old(Me()).pc
    {
      hide S.LegalRun, S.Run;
      Emit(S.Shutdown(name));
      stopping := true;
    }

    /** What others, the notice thread and a signal can have done while this thread slept. */
    twostate predicate Slept()
      requires name in old(system).sups && name in system.sups
      reads this
    {
      && old(log) <= log && (old(stopping) ==> stopping)
      && (Me().pc == old(Me()).pc || (old(Me()).pc.Running? && (Me().pc.Killed? || Me().pc.Exited?))
          || (old(Me()).pc.Killed? && Me().pc.Exited?))
    }

    /** `time.sleep`: callers know only this contract. */
    method Sleep()
      requires Valid()
      modifies this
      ensures Valid() && Slept()
    {
    }

    /** `client.acquire()`: false for a refusal and for no answer. */
    method Ask() returns (granted: bool)
      requires Valid() && Me().pc.Asking?
      modifies this
      ensures Valid() && old(log) <= log
      ensures if granted then Me().pc.Granted? else Me().pc.Asking?
    {
      return false;
    }

    /** `wait_for_gpu`, over at most `asks` calls: not granted means told to stop, or out of calls. */
    method WaitForGpu(asks: nat) returns (granted: bool, asked: nat)
      requires Valid() && Me().pc.Asking?
      modifies this
      ensures Valid() && old(log) <= log
      ensures if granted then Me().pc.Granted? else Me().pc.Asking? && (stopping || asked == asks)
      ensures old(stopping) ==> !granted && asked == 0
    {
      hide S.LegalRun, S.Run;
      asked := 0;
      while !stopping && asked < asks
        invariant Valid() && old(log) <= log && Me().pc.Asking? && asked <= asks
        invariant old(stopping) ==> stopping && asked == 0
      {
        granted := Ask();
        if granted { return; }
        asked := asked + 1;
        Sleep();
      }
      granted := false;
    }

    /** `child.kill()` on a preemption: of no effect if the signal handler was first. */
    method Kill()
      requires Valid() && child && wanted
      modifies this
      ensures Valid() && old(log) <= log && Me().pc.Killed?
    {
      hide S.LegalRun, S.Run;
      if Me().pc.Running? { Emit(S.Preempt(name)); }
    }

    /** `child.wait()` */
    method Wait() returns (code: S.ExitCode)
      requires Valid() && (child || exit.Some?)
      modifies this
      ensures Valid() && old(log) <= log && Me().pc == S.Exited(code) && exit == Some(code)
    {
      hide S.LegalRun, S.Run;
      if exit.Some? { return exit.value; }
      code := *;
      Emit(S.WorkerExits(name, code));
      child, exit := false, Some(code);
    }

    /** `run_worker`: when it returns, the worker is gone. */
    method RunWorker(polls: nat) returns (code: S.ExitCode)
      requires Valid() && Me().pc.Granted?
      modifies this
      ensures Valid() && old(log) + [S.Spawn(name)] <= log
      ensures !child && Me().pc == S.Exited(code)
    {
      hide S.LegalRun, S.Run;
      Emit(S.Spawn(name));
      child, exit, wanted := true, None, false;
      var polled := 0;
      while exit.None? && polled < polls
        invariant Valid() && old(log) + [S.Spawn(name)] <= log && (child || exit.Some?)
      {
        if wanted {
          Kill();
          break;
        }
        polled := polled + 1;
        Sleep();
      }
      code := Wait();
    }

    /** `client.release()` once the worker has exited; it may not get through. */
    method Release() returns (again: bool)
      requires Valid() && Me().pc.Exited? && !child
      modifies this
      ensures Valid() && old(log) <= log && |log| == |old(log)| + 1 && log[|old(log)|].SendRelease?
      ensures again == (old(exit) == Some(S.KilledByUs))
      ensures if again then Me().pc.Asking? else Me().pc.Leaving?
    {
      hide S.LegalRun, S.Run;
      again := exit == Some(S.KilledByUs);
      var arrived: bool := *;
      Emit(S.SendRelease(name, arrived));
      exit := None;
    }

    /** The release in the outer `finally`. */
    method Leave()
      requires Valid() && !child && (Me().pc.Leaving? || (Me().pc.Asking? && stopping))
      modifies this
      ensures Valid() && old(log) < log && log[|log| - 1].LastRelease? && Me().pc.Done?
    {
      hide S.LegalRun, S.Run;
      if Me().pc.Asking? { Emit(S.StopAsking(name)); }
      var arrived: bool := *;
      Emit(S.LastRelease(name, arrived));
    }

    /**
      `run`, over at most `attempts` workers: it ends only when it was told to stop or a
      worker ended by itself, its last move is a release, and no worker is left behind.
    */
    method Run(attempts: nat, asks: nat, polls: nat) returns (done: bool)
      requires Valid() && Me().pc.Asking?
      modifies this
      ensures Valid() && old(log) <= log && !child
      ensures if done then Me().pc.Done? && log != [] && log[|log| - 1].LastRelease? else Me().pc.Asking?
    {
      hide S.LegalRun, S.Run;
      var tried := 0;
      while !stopping && tried < attempts
        invariant Valid() && old(log) <= log && !child && Me().pc.Asking?
      {
        tried := tried + 1;
        var granted, _ := WaitForGpu(asks);
        if !granted { break; }
        var code := RunWorker(polls);
        var again := Release();
        if !again {
          Leave();
          return true;
        }
      }
      if stopping {
        Leave();
        return true;
      }
      return false;
    }
  }
}
