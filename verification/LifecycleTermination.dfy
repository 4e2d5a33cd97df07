/**
 Shutdown terminates: in every infinite run under a scheduler that is fair to each
 thread, once the main thread has begun to stop the devices it reaches its end.
 POSIX mutexes promise no order among waiters, so fairness is the strong one: a thread
 that can step again and again takes a step again and again. Arrivals of callbacks are
 not restricted.
 */
module LifecycleTermination {
  import opened Lifecycle
  import opened LifecycleInvariant
  import opened LifecycleGlobal
  import opened LifecycleSafety
  import opened LifecycleProgress

  /** An infinite run: `sched(i)` takes `run(i)` to `run(i + 1)`. `Idle` steps stand for
      time in which nothing of the daemon moves. */
  ghost predicate InfiniteRun(cfg: Config, run: nat -> State, sched: nat -> Step) {
    forall i: nat :: Enabled(cfg, run(i), sched(i)) && run(i + 1) == Apply(cfg, run(i), sched(i))
  }

  ghost predicate AbleLater(cfg: Config, run: nat -> State, t: Thread, i: nat) {
    exists j: nat :: i <= j && CanStep(cfg, run(j), t)
  }

  ghost predicate StepsLater(sched: nat -> Step, t: Thread, i: nat) {
    exists j: nat :: i <= j && Owner(sched(j)) == t
  }

  ghost predicate FairTo(cfg: Config, run: nat -> State, sched: nat -> Step, t: Thread) {
    (forall i: nat :: AbleLater(cfg, run, t, i)) ==> forall i: nat :: StepsLater(sched, t, i)
  }

  ghost predicate Fair(cfg: Config, run: nat -> State, sched: nat -> Step) {
    forall t :: FairTo(cfg, run, sched, t)
  }

  ghost predicate FairRun(cfg: Config, run: nat -> State, sched: nat -> Step) {
    && InfiniteRun(cfg, run, sched)
    && Fair(cfg, run, sched)
    && Reachable(cfg, run(0))
  }

  lemma {:induction false} RunInv(cfg: Config, run: nat -> State, sched: nat -> Step, i: nat)
    requires FairRun(cfg, run, sched)
    ensures Inv(cfg, run(i)) && |run(i).devs| == |cfg.devs|
  {
    hide Inv, Enabled, Apply;
    if i == 0 {
      ReachableInv(cfg, run(0));
    } else {
      RunInv(cfg, run, sched, i - 1);
      StepKeepsInv(cfg, run(i - 1), sched(i - 1));
    }
    InvSize(cfg, run(i));
  }

  lemma InvSize(cfg: Config, s: State)
    requires Inv(cfg, s)
    ensures |s.devs| == |cfg.devs|
  {
  }

  /** Thread `t` takes no step from `i` to before `j`. */
  ghost predicate Sleeps(sched: nat -> Step, t: Thread, i: nat, j: nat) {
    forall k: nat :: i <= k < j ==> Owner(sched(k)) != t
  }

  /** It takes none from `i` on. */
  ghost predicate Asleep(sched: nat -> Step, t: Thread, i: nat) {
    forall k: nat :: i <= k ==> Owner(sched(k)) != t
  }

  /** The next step of `t` at or after `i`, if there is one at `j`. */
  lemma {:induction false} NextStep(sched: nat -> Step, t: Thread, i: nat, j: nat) returns (k: nat)
    requires i <= j && Owner(sched(j)) == t
    ensures i <= k <= j && Owner(sched(k)) == t && Sleeps(sched, t, i, k)
    decreases j - i
  {
    if Owner(sched(i)) == t {
      k := i;
    } else {
      k := NextStep(sched, t, i + 1, j);
    }
  }

  /** A thread that can step again and again, as long as it sleeps from `i` on, steps. */
  lemma Wakes(cfg: Config, run: nat -> State, sched: nat -> Step, t: Thread, i: nat) returns (k: nat)
    requires FairRun(cfg, run, sched)
    requires Asleep(sched, t, i) ==> forall j: nat | i <= j :: AbleLater(cfg, run, t, j)
    ensures i <= k && Owner(sched(k)) == t && Sleeps(sched, t, i, k)
  {
    assert FairTo(cfg, run, sched, t);
    if !StepsLater(sched, t, i) {
      forall j: nat ensures AbleLater(cfg, run, t, j) {
        var from := if i <= j then j else i;
        assert AbleLater(cfg, run, t, from);
        var m: nat :| from <= m && CanStep(cfg, run(m), t);
      }
    }
    var j: nat :| i <= j && Owner(sched(j)) == t;
    k := NextStep(sched, t, i, j);
  }

  // ---------------------------------------------------------------- what a sleeping thread keeps

  /** A device that has a thread keeps its program counter while that thread sleeps, and
      its quit flag once set. */
  lemma {:induction false} DeviceKeeps(cfg: Config, run: nat -> State, sched: nat -> Step, d: int, i: nat, j: nat)
    requires FairRun(cfg, run, sched) && 0 <= d < |cfg.devs| && i <= j
    requires |run(i).devs| == |cfg.devs| && run(i).devs[d].quit
    requires Sleeps(sched, DevThread(d), i, j)
    ensures |run(j).devs| == |cfg.devs| && run(j).devs[d].quit && run(j).devs[d].pc == run(i).devs[d].pc
    decreases j
  {
    hide Inv, Enabled, Apply, DevRank;
    if i == j {
    } else {
      DeviceKeeps(cfg, run, sched, d, i, j - 1);
      RunInv(cfg, run, sched, j - 1);
      RunInv(cfg, run, sched, j);
      StepRanks(cfg, run(j - 1), sched(j - 1), d);
      QuitStays(cfg, run(j - 1), sched(j - 1), d);
    }
  }

  /** Another thread's step leaves a callback in flight alone. */
  lemma CallbackFrame(cfg: Config, s: State, step: Step, c: int)
    requires Enabled(cfg, s, step) && c in s.cbs && Owner(step) != Callback(c)
    ensures c in Apply(cfg, s, step).cbs && Apply(cfg, s, step).cbs[c] == s.cbs[c]
  {
    hide DevNext, CbDev, DevGuard;
  }

  lemma {:induction false} CallbackKeeps(cfg: Config, run: nat -> State, sched: nat -> Step, c: int, i: nat, j: nat)
    requires FairRun(cfg, run, sched) && i <= j && c in run(i).cbs
    requires Sleeps(sched, Callback(c), i, j)
    ensures c in run(j).cbs && run(j).cbs[c] == run(i).cbs[c]
    decreases j
  {
    if i == j {
    } else {
      CallbackKeeps(cfg, run, sched, c, i, j - 1);
      CallbackFrame(cfg, run(j - 1), sched(j - 1), c);
      hide Inv, Enabled, Apply;
    }
  }

  /** Another thread's step leaves the main thread's program counter alone. */
  lemma {:induction false} MainKeeps(cfg: Config, run: nat -> State, sched: nat -> Step, i: nat, j: nat)
    requires FairRun(cfg, run, sched) && i <= j
    requires Sleeps(sched, Main, i, j)
    ensures run(j).main == run(i).main
    decreases j
  {
    if i == j {
    } else {
      MainKeeps(cfg, run, sched, i, j - 1);
      assert Owner(sched(j - 1)) != Main;
      hide DevGuard, CbGuard, DevNext, CbNext, CbDev;
    }
  }

  // ---------------------------------------------------------------- mutexes are released

  function CbRank(pc: CbPc): nat {
    match pc
    case Enter => 3
    case Check => 2
    case Send => 1
    case Leave => 0
  }

  /** What a callback's own step does: leave, or come closer to it. */
  lemma CallbackOwnStep(cfg: Config, s: State, step: Step, c: int)
    requires Inv(cfg, s) && Enabled(cfg, s, step) && Owner(step) == Callback(c) && c in s.cbs
    ensures var t := Apply(cfg, s, step);
            if s.cbs[c].pc == Leave
            then c !in t.cbs && 0 <= s.cbs[c].dev < |t.devs| && t.devs[s.cbs[c].dev].lock == Free
            else c in t.cbs && t.cbs[c].dev == s.cbs[c].dev && CbRank(t.cbs[c].pc) < CbRank(s.cbs[c].pc)
                 && t.cbs[c].pc != Enter
  {
    hide Inv;
  }

  /** A callback past its lock leaves and releases the device mutex. */
  lemma {:induction false} CallbackReleases(cfg: Config, run: nat -> State, sched: nat -> Step, c: int, i: nat)
    returns (k: nat)
    requires FairRun(cfg, run, sched) && c in run(i).cbs && run(i).cbs[c].pc != Enter
    ensures i < k && c !in run(k).cbs
    ensures var d := run(i).cbs[c].dev; 0 <= d < |run(k).devs| && run(k).devs[d].lock == Free
    decreases CbRank(run(i).cbs[c].pc)
  {
    if Asleep(sched, Callback(c), i) {
      forall j: nat | i <= j ensures AbleLater(cfg, run, Callback(c), j) {
        CallbackKeeps(cfg, run, sched, c, i, j);
        RunInv(cfg, run, sched, j);
        CallbackPastLockCanStep(cfg, run(j), c);
      }
    }
    var m := Wakes(cfg, run, sched, Callback(c), i);
    CallbackKeeps(cfg, run, sched, c, i, m);
    RunInv(cfg, run, sched, m);
    CallbackOwnStep(cfg, run(m), sched(m), c);
    hide Inv, Enabled, Apply;
    if run(i).cbs[c].pc == Leave {
      k := m + 1;
    } else {
      k := CallbackReleases(cfg, run, sched, c, m + 1);
    }
  }

  lemma CallbackPastLockCanStep(cfg: Config, s: State, c: int)
    requires Inv(cfg, s) && c in s.cbs && s.cbs[c].pc != Enter
    ensures CanStep(cfg, s, Callback(c))
  {
    assert Enabled(cfg, s, CbStep(c, true));
  }

  /** While the device thread sleeps without holding its mutex, that mutex is free again
      and again. */
  lemma DeviceMutexComesFree(cfg: Config, run: nat -> State, sched: nat -> Step, d: int, i: nat)
    returns (k: nat)
    requires FairRun(cfg, run, sched) && 0 <= d < |run(i).devs| && !HoldsDevice(run(i).devs[d].pc)
    ensures i <= k && 0 <= d < |run(k).devs| && run(k).devs[d].lock == Free
  {
    RunInv(cfg, run, sched, i);
    assert Local(cfg, cfg.devs[d], run(i).devs[d]);
    if run(i).devs[d].lock == Free {
      k := i;
    } else {
      var c := run(i).devs[d].lock.c;
      assert c in run(i).cbs && run(i).cbs[c].dev == d && run(i).cbs[c].pc != Enter;
      hide Inv, Local;
      k := CallbackReleases(cfg, run, sched, c, i);
    }
  }

  lemma HolderCanStep(cfg: Config, s: State, d: int)
    requires |s.devs| == |cfg.devs| && 0 <= d < |s.devs| && HoldsDiscovery(s.devs[d].pc)
    ensures CanStep(cfg, s, DevThread(d))
  {
    assert Enabled(cfg, s, DevStep(d, true, 0));
  }

  /** The holder of the discovery mutex takes its next step, and holds it until then. */
  lemma HolderSteps(cfg: Config, run: nat -> State, sched: nat -> Step, d: int, i: nat) returns (m: nat)
    requires FairRun(cfg, run, sched) && 0 <= d < |cfg.devs|
    requires |run(i).devs| == |cfg.devs| && run(i).disc == Device(d) && HoldsDiscovery(run(i).devs[d].pc)
    ensures i <= m && Owner(sched(m)) == DevThread(d)
    ensures |run(m).devs| == |cfg.devs| && run(m).disc == Device(d) && run(m).devs[d].pc == run(i).devs[d].pc
  {
    hide Inv, Enabled, Apply, CanStep;
    if Asleep(sched, DevThread(d), i) {
      forall j: nat | i <= j ensures AbleLater(cfg, run, DevThread(d), j) {
        HolderKeeps(cfg, run, sched, d, i, j);
        HolderCanStep(cfg, run(j), d);
      }
    }
    m := Wakes(cfg, run, sched, DevThread(d), i);
    HolderKeeps(cfg, run, sched, d, i, m);
  }

  function HolderRank(s: State): nat {
    if s.disc == Nobody then 0 else if 0 <= s.disc.d < |s.devs| && s.devs[s.disc.d].pc == DiscUnlock then 1 else 2
  }

  /** The discovery mutex is a leaf: its holder only has its own two steps to take. */
  lemma {:induction false} DiscoveryMutexComesFree(cfg: Config, run: nat -> State, sched: nat -> Step, i: nat)
    returns (k: nat)
    requires FairRun(cfg, run, sched)
    ensures i <= k && run(k).disc == Nobody
    decreases HolderRank(run(i))
  {
    RunInv(cfg, run, sched, i);
    assert DiscInv(run(i));
    hide Inv, Enabled, Apply;
    if run(i).disc == Nobody {
      k := i;
    } else {
      var d := run(i).disc.d;
      var m := HolderSteps(cfg, run, sched, d, i);
      RunInv(cfg, run, sched, m);
      HolderOwnStep(cfg, run(m), sched(m), d);
      k := DiscoveryMutexComesFree(cfg, run, sched, m + 1);
    }
  }

  /** The holder of the discovery mutex keeps it and its program counter while it sleeps. */
  lemma {:induction false} HolderKeeps(cfg: Config, run: nat -> State, sched: nat -> Step, d: int, i: nat, j: nat)
    requires FairRun(cfg, run, sched) && 0 <= d < |cfg.devs| && i <= j
    requires |run(i).devs| == |cfg.devs| && run(i).disc == Device(d) && HoldsDiscovery(run(i).devs[d].pc)
    requires Sleeps(sched, DevThread(d), i, j)
    ensures |run(j).devs| == |cfg.devs| && run(j).disc == Device(d) && run(j).devs[d].pc == run(i).devs[d].pc
    decreases j
  {
    hide Inv, Enabled, Apply;
    if i == j {
    } else {
      HolderKeeps(cfg, run, sched, d, i, j - 1);
      RunInv(cfg, run, sched, j - 1);
      HolderFrame(cfg, run(j - 1), sched(j - 1), d);
      RunInv(cfg, run, sched, j);
    }
  }

  lemma HolderFrame(cfg: Config, s: State, step: Step, d: int)
    requires Inv(cfg, s) && Enabled(cfg, s, step)
    requires 0 <= d < |s.devs| && s.disc == Device(d) && Owner(step) != DevThread(d)
    ensures var t := Apply(cfg, s, step);
            |t.devs| == |s.devs| && t.disc == Device(d) && t.devs[d].pc == s.devs[d].pc
  {
    assert DiscInv(s);
    if step.CbStep? {
      CbDevFrame(s.devs[s.cbs[step.c].dev], step.c, s.cbs[step.c]);
    } else if step.DevStep? {
      assert HoldsDiscovery(s.devs[step.d].pc) <==> s.disc == Device(step.d);
    }
    hide DevNext, DevsInv, CbsInv, LockInv, CbDev, CbNext;
  }

  lemma HolderOwnStep(cfg: Config, s: State, step: Step, d: int)
    requires Inv(cfg, s) && Enabled(cfg, s, step)
    requires 0 <= d < |s.devs| && s.disc == Device(d) && Owner(step) == DevThread(d)
    ensures var t := Apply(cfg, s, step);
            if s.devs[d].pc == DiscUnlock then t.disc == Nobody
            else t.disc == Device(d) && |t.devs| == |s.devs| && t.devs[d].pc == DiscUnlock
  {
    assert DiscInv(s);
    hide DevsInv, CbsInv, LockInv, MainInv;
  }

  // ---------------------------------------------------------------- callbacks leave, devices exit

  /** A callback waiting at a device whose own thread sleeps outside its mutex gets in and leaves. */
  lemma CallbackLeaves(cfg: Config, run: nat -> State, sched: nat -> Step, c: int, d: int, i: nat)
    returns (k: nat)
    requires FairRun(cfg, run, sched) && c in run(i).cbs && run(i).cbs[c].dev == d
    requires 0 <= d < |run(i).devs| == |cfg.devs| && run(i).devs[d].quit && !HoldsDevice(run(i).devs[d].pc)
    requires Asleep(sched, DevThread(d), i)
    ensures i < k && c !in run(k).cbs
  {
    var m := i;
    if run(i).cbs[c].pc == Enter {
      if Asleep(sched, Callback(c), i) {
        forall j: nat | i <= j ensures AbleLater(cfg, run, Callback(c), j) {
          DeviceKeeps(cfg, run, sched, d, i, j);
          var f := DeviceMutexComesFree(cfg, run, sched, d, j);
          CallbackKeeps(cfg, run, sched, c, i, f);
          assert Enabled(cfg, run(f), CbStep(c, true)) by { RunInv(cfg, run, sched, f); InvSize(cfg, run(f)); }
        }
      }
      m := Wakes(cfg, run, sched, Callback(c), i);
      CallbackKeeps(cfg, run, sched, c, i, m);
      RunInv(cfg, run, sched, m);
      CallbackOwnStep(cfg, run(m), sched(m), c);
      hide Inv, Enabled, Apply;
      m := m + 1;
    }
    k := CallbackReleases(cfg, run, sched, c, m);
  }

  function CallbacksOf(s: State, d: int): set<int> {
    set c | c in s.cbs && s.cbs[c].dev == d
  }

  /** No callback arrives at a device that has stopped delivery. */
  lemma NoneArrives(cfg: Config, s: State, step: Step, d: int)
    requires Enabled(cfg, s, step) && 0 <= d < |s.devs| && !s.devs[d].delivering
    ensures CallbacksOf(Apply(cfg, s, step), d) <= CallbacksOf(s, d)
  {
    hide DevNext, CbDev, DevGuard;
  }

  /** A device waiting in disconnect has stopped delivery. */
  predicate Drained(cfg: Config, s: State, d: int) {
    cfg.waits && 0 <= d < |s.devs| == |cfg.devs| && s.devs[d].pc == AwaitCallbacks && s.devs[d].quit
  }

  lemma DrainedDeliversNone(cfg: Config, s: State, d: int)
    requires Inv(cfg, s) && Drained(cfg, s, d)
    ensures !s.devs[d].delivering
  {
    assert Local(cfg, cfg.devs[d], s.devs[d]);
  }

  lemma {:induction false} CallbacksShrink(cfg: Config, run: nat -> State, sched: nat -> Step, d: int, i: nat, j: nat)
    requires FairRun(cfg, run, sched) && i <= j && Drained(cfg, run(i), d)
    requires Sleeps(sched, DevThread(d), i, j)
    ensures Drained(cfg, run(j), d) && CallbacksOf(run(j), d) <= CallbacksOf(run(i), d)
    decreases j
  {
    hide Inv, Enabled, Apply;
    if i == j {
    } else {
      CallbacksShrink(cfg, run, sched, d, i, j - 1);
      DeviceKeeps(cfg, run, sched, d, i, j);
      RunInv(cfg, run, sched, j - 1);
      DrainedDeliversNone(cfg, run(j - 1), d);
      NoneArrives(cfg, run(j - 1), sched(j - 1), d);
    }
  }

  /** Disconnect's wait ends: once delivery has stopped, the callbacks in flight run out. */
  lemma {:induction false} CallbacksRunOut(cfg: Config, run: nat -> State, sched: nat -> Step, d: int, i: nat)
    returns (k: nat)
    requires FairRun(cfg, run, sched) && Drained(cfg, run(i), d)
    requires Asleep(sched, DevThread(d), i)
    ensures i <= k && Drained(cfg, run(k), d) && NoCallbacks(run(k), d)
    decreases |CallbacksOf(run(i), d)|
  {
    hide Inv, Enabled, Apply;
    if NoCallbacks(run(i), d) {
      k := i;
    } else {
      var c :| c in run(i).cbs && run(i).cbs[c].dev == d;
      var m := CallbackLeaves(cfg, run, sched, c, d, i);
      CallbacksShrink(cfg, run, sched, d, i, m);
      assert c in CallbacksOf(run(i), d) && c !in CallbacksOf(run(m), d);
      SmallerSet(CallbacksOf(run(m), d), CallbacksOf(run(i), d), c);
      k := CallbacksRunOut(cfg, run, sched, d, m);
    }
  }

  lemma SmallerSet(a: set<int>, b: set<int>, x: int)
    requires a <= b && x in b && x !in a
    ensures |a| < |b|
  {
    assert b == a + (b - a);
    assert x in b - a;
  }

  /** Whatever a device asked to quit is waiting for comes about again and again. */
  lemma DeviceAbleLater(cfg: Config, run: nat -> State, sched: nat -> Step, d: int, i: nat)
    requires FairRun(cfg, run, sched) && 0 <= d < |run(i).devs| == |cfg.devs| && run(i).devs[d].quit
    requires run(i).devs[d].pc != Absent && run(i).devs[d].pc != Exited
    requires Asleep(sched, DevThread(d), i)
    ensures AbleLater(cfg, run, DevThread(d), i)
  {
    var k := i;
    if run(i).devs[d].pc == DiscLock {
      k := DiscoveryMutexComesFree(cfg, run, sched, i);
    } else if run(i).devs[d].pc == LockDev {
      k := DeviceMutexComesFree(cfg, run, sched, d, i);
    } else if run(i).devs[d].pc == AwaitCallbacks && cfg.waits {
      k := CallbacksRunOut(cfg, run, sched, d, i);
    }
    DeviceKeeps(cfg, run, sched, d, i, k);
    assert Enabled(cfg, run(k), DevStep(d, true, 0));
  }

  /** A device asked to quit exits. */
  lemma {:induction false} DeviceExits(cfg: Config, run: nat -> State, sched: nat -> Step, d: int, i: nat)
    returns (k: nat)
    requires FairRun(cfg, run, sched) && 0 <= d < |run(i).devs| == |cfg.devs| && run(i).devs[d].quit
    requires run(i).devs[d].pc != Absent
    ensures i <= k && |run(k).devs| == |cfg.devs| && run(k).devs[d].pc == Exited && run(k).devs[d].quit
    decreases DevRank(run(i).devs[d].pc)
  {
    hide Inv, Enabled, Apply, DevRank;
    if run(i).devs[d].pc == Exited {
      k := i;
    } else {
      var m := DeviceSteps(cfg, run, sched, d, i);
      k := DeviceExits(cfg, run, sched, d, m);
    }
  }

  /** Its next step is taken, and brings it closer. */
  lemma DeviceSteps(cfg: Config, run: nat -> State, sched: nat -> Step, d: int, i: nat) returns (k: nat)
    requires FairRun(cfg, run, sched) && 0 <= d < |run(i).devs| == |cfg.devs| && run(i).devs[d].quit
    requires run(i).devs[d].pc != Absent && run(i).devs[d].pc != Exited
    ensures i < k && |run(k).devs| == |cfg.devs| && run(k).devs[d].quit && run(k).devs[d].pc != Absent
    ensures DevRank(run(k).devs[d].pc) < DevRank(run(i).devs[d].pc)
  {
    hide Inv, Apply, DevRank;
    if Asleep(sched, DevThread(d), i) {
      forall j: nat | i <= j ensures AbleLater(cfg, run, DevThread(d), j) {
        DeviceKeeps(cfg, run, sched, d, i, j);
        DeviceAbleLater(cfg, run, sched, d, j);
      }
    }
    var m := Wakes(cfg, run, sched, DevThread(d), i);
    DeviceKeeps(cfg, run, sched, d, i, m);
    RunInv(cfg, run, sched, m);
    StepRanks(cfg, run(m), sched(m), d);
    QuitStays(cfg, run(m), sched(m), d);
    NeverAbsentAgain(cfg, run(m), sched(m), d);
    RunInv(cfg, run, sched, m + 1);
    k := m + 1;
  }

  lemma NeverAbsentAgain(cfg: Config, s: State, step: Step, d: int)
    requires Enabled(cfg, s, step) && 0 <= d < |s.devs| && Owner(step) == DevThread(d)
    ensures Apply(cfg, s, step).devs[d].pc != Absent
  {
    DevNextFrame(cfg, cfg.devs[d], s.devs[d], step.ok, step.h);
  }

  // ---------------------------------------------------------------- the main thread gets to its end

  /** The join the main thread waits in returns. */
  lemma MainAbleLater(cfg: Config, run: nat -> State, sched: nat -> Step, i: nat)
    requires FairRun(cfg, run, sched) && Stopping(run(i).main) && run(i).main != Ended
    requires Asleep(sched, Main, i)
    ensures AbleLater(cfg, run, Main, i)
  {
    RunInv(cfg, run, sched, i);
    if MainGuard(run(i)) {
      assert Enabled(cfg, run(i), MainStep(true));
    } else {
      var d := run(i).main.i;
      assert Local(cfg, cfg.devs[d], run(i).devs[d]);
      assert InHand(cfg, run(i), d);
      var k := DeviceExits(cfg, run, sched, d, i);
      MainKeeps(cfg, run, sched, i, k);
      assert Enabled(cfg, run(k), MainStep(true));
    }
  }

  lemma MainSteps(cfg: Config, run: nat -> State, sched: nat -> Step, i: nat) returns (k: nat)
    requires FairRun(cfg, run, sched) && Stopping(run(i).main) && run(i).main != Ended
    ensures i < k && Stopping(run(k).main)
    ensures 0 <= MainRank(|cfg.devs|, run(k).main) < MainRank(|cfg.devs|, run(i).main)
  {
    hide Inv, MainRank;
    if Asleep(sched, Main, i) {
      forall j: nat | i <= j ensures AbleLater(cfg, run, Main, j) {
        MainKeeps(cfg, run, sched, i, j);
        MainAbleLater(cfg, run, sched, j);
      }
    }
    var m := Wakes(cfg, run, sched, Main, i);
    MainKeeps(cfg, run, sched, i, m);
    RunInv(cfg, run, sched, m);
    MainRankDrops(cfg, run(m), sched(m).ok);
    k := m + 1;
  }

  lemma {:induction false} MainReachesEnd(cfg: Config, run: nat -> State, sched: nat -> Step, i: nat)
    returns (k: nat)
    requires FairRun(cfg, run, sched) && Stopping(run(i).main)
    ensures i <= k && run(k).main == Ended
    decreases MainRank(|cfg.devs|, run(i).main)
  {
    hide FairRun, MainRank;
    if run(i).main == Ended {
      k := i;
    } else {
      var m := MainSteps(cfg, run, sched, i);
      k := MainReachesEnd(cfg, run, sched, m);
    }
  }

  /** Main result. In every fair run, a main thread that has begun to stop the devices joins
      them all, destroys the discovery mutex and the items, and ends; no device thread is
      live then. */
  lemma ShutdownTerminates(cfg: Config, run: nat -> State, sched: nat -> Step, i: nat)
    requires FairRun(cfg, run, sched) && Stopping(run(i).main)
    ensures exists k: nat :: i <= k && run(k).main == Ended && AllAtRest(run(k))
  {
    var k := MainReachesEnd(cfg, run, sched, i);
    RunInv(cfg, run, sched, k);
    assert StoppedUpTo(cfg, run(k), |run(k).devs|);
  }

  ghost predicate AllAtRest(s: State) {
    forall d :: 0 <= d < |s.devs| ==> !Live(s, DevThread(d)) && !s.devs[d].ctl.started
  }

  /** Main result. A device thread that was asked to quit exits in every fair run, even if
      the main thread never joins it. */
  lemma QuittersExit(cfg: Config, run: nat -> State, sched: nat -> Step, d: int, i: nat)
    requires FairRun(cfg, run, sched) && 0 <= d < |run(i).devs|
    requires run(i).devs[d].quit && run(i).devs[d].pc != Absent
    ensures exists k: nat :: i <= k && d < |run(k).devs| && run(k).devs[d].pc == Exited
  {
    RunInv(cfg, run, sched, i);
    var k := DeviceExits(cfg, run, sched, d, i);
  }
}
