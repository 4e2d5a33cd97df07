/**
 Progress: no thread is ever stuck behind a cycle of waits, a device thread asked to
 quit has a bounded number of steps left, and under a fair scheduler every shutdown
 runs to its end.
 */
module LifecycleProgress {
  import opened Lifecycle
  import opened LifecycleInvariant
  import opened LifecycleGlobal
  import opened LifecycleSafety

  // ---------------------------------------------------------------- waiting

  ghost predicate CanStep(cfg: Config, s: State, t: Thread) {
    exists step :: Owner(step) == t && Enabled(cfg, s, step)
  }

  /** The thread has been started and has not finished. */
  predicate Live(s: State, t: Thread) {
    match t
    case Main => s.main != Ended
    case DevThread(d) => 0 <= d < |s.devs| && s.devs[d].pc != Absent && s.devs[d].pc != Exited
    case Callback(c) => c in s.cbs
    case Outside => false
  }

  predicate HeldBy(l: Lock, d: int, u: Thread) {
    match l
    case Free => false
    case ByDevice => u == DevThread(d)
    case ByCallback(c) => u == Callback(c)
  }

  /** `t` cannot go on before `u` has: a join, a mutex, or a disconnect that waits. */
  predicate WaitsFor(cfg: Config, s: State, t: Thread, u: Thread) {
    match t
    case Main => s.main.Joining? && u == DevThread(s.main.i)
    case DevThread(d) =>
      && 0 <= d < |s.devs|
      && (if s.devs[d].pc == DiscLock then s.disc.Device? && u == DevThread(s.disc.d)
          else if s.devs[d].pc == LockDev then HeldBy(s.devs[d].lock, d, u)
          else s.devs[d].pc == AwaitCallbacks && u.Callback? && u.c in s.cbs && s.cbs[u.c].dev == d)
    case Callback(c) =>
      && c in s.cbs && s.cbs[c].pc == Enter && 0 <= s.cbs[c].dev < |s.devs|
      && HeldBy(s.devs[s.cbs[c].dev].lock, s.cbs[c].dev, u)
    case Outside => false
  }

  /** How many waits can still follow one after the other. */
  function Height(s: State, t: Thread): nat {
    match t
    case Main => 3
    case DevThread(d) =>
      if !(0 <= d < |s.devs|) then 0
      else if s.devs[d].pc == AwaitCallbacks then 2
      else if s.devs[d].pc == DiscLock || s.devs[d].pc == LockDev then 1
      else 0
    case Callback(c) => if c in s.cbs && s.cbs[c].pc == Enter then 1 else 0
    case Outside => 0
  }

  ghost predicate WaitChain(cfg: Config, s: State, t: Thread, u: Thread, n: nat)
    decreases n
  {
    if n == 0 then t == u
    else exists v :: WaitsFor(cfg, s, t, v) && WaitChain(cfg, s, v, u, n - 1)
  }

  lemma MainStepsOrWaits(cfg: Config, s: State) returns (u: Thread)
    requires Inv(cfg, s) && s.main != Ended && !CanStep(cfg, s, Main)
    ensures WaitsFor(cfg, s, Main, u) && Live(s, u) && Height(s, u) < Height(s, Main)
  {
    assert !Enabled(cfg, s, MainStep(true));
    assert Local(cfg, cfg.devs[s.main.i], s.devs[s.main.i]);
    u := DevThread(s.main.i);
  }

  lemma DeviceStepsOrWaits(cfg: Config, s: State, d: int) returns (u: Thread)
    requires Inv(cfg, s) && Live(s, DevThread(d)) && !CanStep(cfg, s, DevThread(d))
    ensures WaitsFor(cfg, s, DevThread(d), u) && Live(s, u) && Height(s, u) < Height(s, DevThread(d))
  {
    assert !Enabled(cfg, s, DevStep(d, true, 0));
    assert Local(cfg, cfg.devs[d], s.devs[d]);
    var v := s.devs[d];
    if v.pc == AwaitCallbacks {
      var c :| c in s.cbs && s.cbs[c].dev == d;
      u := Callback(c);
    } else if v.pc == LockDev {
      u := Callback(v.lock.c);
    } else {
      u := DevThread(s.disc.d);
    }
  }

  lemma CallbackStepsOrWaits(cfg: Config, s: State, c: int) returns (u: Thread)
    requires Inv(cfg, s) && c in s.cbs && !CanStep(cfg, s, Callback(c))
    ensures WaitsFor(cfg, s, Callback(c), u) && Live(s, u) && Height(s, u) < Height(s, Callback(c))
  {
    assert !Enabled(cfg, s, CbStep(c, true));
    var d := s.cbs[c].dev;
    assert Local(cfg, cfg.devs[d], s.devs[d]);
    u := if s.devs[d].lock == ByDevice then DevThread(d) else Callback(s.devs[d].lock.c);
  }

  lemma {:induction false} WaitersUnblock(cfg: Config, s: State, t: Thread) returns (u: Thread, n: nat)
    requires Inv(cfg, s) && Live(s, t)
    ensures n <= Height(s, t) && WaitChain(cfg, s, t, u, n) && Live(s, u) && CanStep(cfg, s, u)
    decreases Height(s, t)
  {
    hide Inv, CanStep, WaitsFor;
    if CanStep(cfg, s, t) {
      u, n := t, 0;
    } else {
      var v;
      match t {
        case Main => v := MainStepsOrWaits(cfg, s);
        case DevThread(d) => v := DeviceStepsOrWaits(cfg, s, d);
        case Callback(c) => v := CallbackStepsOrWaits(cfg, s, c);
      }
      var k;
      u, k := WaitersUnblock(cfg, s, v);
      n := k + 1;
    }
  }

  /** Main result. Deadlock freedom for any number of devices and callbacks: every live
      thread can take a step, or waits through at most three others for one that can. */
  lemma NoDeadlock(cfg: Config, s: State, t: Thread)
    requires Reachable(cfg, s) && Live(s, t)
    ensures exists u, n :: 0 <= n <= 3 && WaitChain(cfg, s, t, u, n) && Live(s, u) && CanStep(cfg, s, u)
  {
    ReachableInv(cfg, s);
    var u, n := WaitersUnblock(cfg, s, t);
  }

  // ---------------------------------------------------------------- bounded work after a quit request

  /** Steps a device thread can still take once its quit flag is true. */
  function DevRank(pc: DevPc): nat {
    match pc
    case Absent => 0
    case Exited => 0
    case Unload => 1
    case UnlockDev => 2
    case Zero => 3
    case Close => 4
    case LockDev => 5
    case AwaitCallbacks => 6
    case Disconnect => 7
    case SetQuit => 8
    case LoopTest => 9
    case Publish => 10
    case DiscUnlock => 11
    case DiscBody => 12
    case DiscLock => 13
    case Read => 14
    case FailUnload => 1
    case FailZero => 2
    case FailClose => 3
    case GetLevel => 10
    case Connecting => 11
    case Connect => 12
    case Open => 13
    case Resolve => 14
    case Load => 15
  }

  lemma DevRankDrops(cfg: Config, c: DevCfg, v: Dev, ok: bool, h: int)
    requires v.quit && v.pc != Absent && v.pc != Exited
    ensures DevRank(DevNext(cfg, c, v, ok, h).pc) < DevRank(v.pc)
  {
  }

  /** Steps the main thread still has to take once it has begun to stop the devices. */
  function MainRank(n: int, m: MainPc): int {
    match m
    case Asking(r, i) => 2 * n + 4 * (n - i) + 3 + if r == 0 then 4 * n + 1 else 0
    case Locking(r, i) => 2 * n + 4 * (n - i) + 2 + if r == 0 then 4 * n + 1 else 0
    case Joining(r, i) => 2 * n + 4 * (n - i) + 1 + if r == 0 then 4 * n + 1 else 0
    case Unlocking(r, i) => 2 * n + 4 * (n - i) + if r == 0 then 4 * n + 1 else 0
    case DestroyMutex => 2 * n + 2
    case DeleteItem(i) => 2 * (n - i) + 1
    case DeleteClient(i) => 2 * (n - i)
    case _ => 0
  }

  predicate Stopping(m: MainPc) {
    !m.Starting? && !m.Running?
  }

  ghost function StepsBy(steps: seq<Step>, t: Thread): nat {
    if steps == [] then 0 else (if Owner(steps[0]) == t then 1 else 0) + StepsBy(steps[1..], t)
  }

  /** What one step does to a device that is asked to quit: its own steps lower its rank,
      nobody else's change its program counter. */
  lemma StepRanks(cfg: Config, s: State, step: Step, d: int)
    requires Inv(cfg, s) && Enabled(cfg, s, step) && 0 <= d < |s.devs| && s.devs[d].quit
    ensures Owner(step) == DevThread(d) ==> DevRank(Apply(cfg, s, step).devs[d].pc) < DevRank(s.devs[d].pc)
    ensures Owner(step) != DevThread(d) ==> Apply(cfg, s, step).devs[d].pc == s.devs[d].pc
  {
    if step.DevStep? && step.d == d {
      DevRankDrops(cfg, cfg.devs[d], s.devs[d], step.ok, step.h);
    } else if step.CbStep? {
      CbDevFrame(s.devs[s.cbs[step.c].dev], step.c, s.cbs[step.c]);
    }
    hide DevNext, DevsInv, CbsInv, LockInv, DiscInv, CbDev, CbNext;
  }

  /** Main result. After its quit request a device thread takes at most 15 more steps in
      any run: what is left of one loop iteration, then disconnect, close and unload. */
  lemma {:induction false} QuitBoundsSteps(cfg: Config, s: State, steps: seq<Step>, t: State, d: int)
    requires Inv(cfg, s) && RunsTo(cfg, s, steps, t) && 0 <= d < |s.devs| && s.devs[d].quit
    ensures |t.devs| == |s.devs|
    ensures StepsBy(steps, DevThread(d)) + DevRank(t.devs[d].pc) <= DevRank(s.devs[d].pc) <= 15
    decreases |steps|
  {
    if steps == [] {
    } else {
      StepRanks(cfg, s, steps[0], d);
      QuitStays(cfg, s, steps[0], d);
      StepKeepsInv(cfg, s, steps[0]);
      hide Inv, Enabled, Apply, DevRank;
      QuitBoundsSteps(cfg, Apply(cfg, s, steps[0]), steps[1..], t, d);
    }
  }

  lemma MainRankDrops(cfg: Config, s: State, ok: bool)
    requires Inv(cfg, s) && MainGuard(s) && Stopping(s.main)
    ensures Stopping(MainApply(cfg, s, ok).main)
    ensures 0 <= MainRank(|s.devs|, MainApply(cfg, s, ok).main) < MainRank(|s.devs|, s.main)
  {
    hide DevsInv, CbsInv, LockInv, DiscInv, StoppedUpTo, StopLocks;
  }
}
