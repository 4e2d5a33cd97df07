/**
 What callbacks meet when the items are deleted. An item's destructor destroys the device
 mutex before the item's MQTT client, which may still call back and lock it.
 */
module LifecycleDestruction {
  import opened Lifecycle
  import opened LifecycleInvariant
  import opened LifecycleGlobal
  import opened LifecycleRuns
  import opened LifecycleProgress

  /** Callbacks of device `d` are in flight only while its device mutex exists. */
  ghost predicate CallbacksFindMutex(s: State, d: int) {
    forall c :: c in s.cbs && s.cbs[c].dev == d ==> MutexAlive(s.main, d)
  }

  /** A callback of device `d` is about to lock the device mutex after it was destroyed. */
  ghost predicate LocksDestroyed(s: State, d: int) {
    exists c :: c in s.cbs && s.cbs[c].dev == d && s.cbs[c].pc == Enter && CbGuard(s, c) && !MutexAlive(s.main, d)
  }

  /** The device never has a client, or one that keeps quiet after a failed connect and whose
      disconnect waits for the callbacks in flight. */
  predicate SafelyDeleted(cfg: Config, c: DevCfg) {
    (cfg.quiet && cfg.waits) || !c.enabled || !IsDriverLevel(c.level)
  }

  /** A device whose thread is not running has no callbacks. */
  lemma AtRestWithoutCallback(cfg: Config, c: DevCfg, v: Dev, id: int, b: Cb)
    requires Local(cfg, c, v) && Stopped(c, v) && CbLocal(cfg, c, v, id, b)
    ensures !SafelyDeleted(cfg, c)
  {
  }

  lemma FindsMutex(cfg: Config, s: State, d: int)
    requires Reachable(cfg, s) && 0 <= d < |cfg.devs| && SafelyDeleted(cfg, cfg.devs[d])
    ensures CallbacksFindMutex(s, d)
  {
    ReachableInv(cfg, s);
    forall c | c in s.cbs && s.cbs[c].dev == d ensures MutexAlive(s.main, d) {
      if !MutexAlive(s.main, d) {
        assert StoppedUpTo(cfg, s, |s.devs|);
        AtRestWithoutCallback(cfg, cfg.devs[d], s.devs[d], c, s.cbs[c]);
      }
    }
  }

  /** What each step of the main thread destroys: first the discovery mutex, then for each item
      in turn its device mutex and, one step later, its client. Nothing comes back. */
  lemma DestroyedInOrder(cfg: Config, s: State, ok: bool, d: int)
    requires Reachable(cfg, s) && MainGuard(s) && 0 <= d < |s.devs| == |cfg.devs|
    ensures var t := MainApply(cfg, s, ok);
            && (DiscoveryAlive(t.main) <==> DiscoveryAlive(s.main) && s.main != DestroyMutex)
            && (MutexAlive(t.main, d) <==> MutexAlive(s.main, d) && s.main != DeleteItem(d))
            && (ClientAlive(t.main, d) <==> ClientAlive(s.main, d) && s.main != DeleteClient(d))
            && (DiscoveryAlive(s.main) ==> MutexAlive(s.main, d))
            && (MutexAlive(s.main, d) ==> ClientAlive(s.main, d))
  {
    ReachableInv(cfg, s);
    hide DevsInv, CbsInv, LockInv, DiscInv, StoppedUpTo, StopLocks;
  }

  // ---------------------------------------------------------------- the failing run

  /** No thread is created any more. */
  lemma {:induction false} FinishStarting(cfg: Config, s: State, d: int, v: Dev) returns (t: State)
    requires Alone(cfg, s, d, v, map[]) && s.main.Starting? && s.main.i > d
    ensures Alone(cfg, t, d, v, map[]) && t.main == Running
    decreases |s.devs| - s.main.i
  {
    t := MainApply(cfg, s, false);
    ReachableStep(cfg, s, MainStep(false));
    if t.main == Running {
    } else {
      t := FinishStarting(cfg, t, d, v);
    }
  }

  /** The main thread has yet to ask device `d` to quit. */
  predicate BeforeAsking(m: MainPc, d: int) {
    match m
    case Asking(r, i) => r == 0 && 0 <= i <= d
    case Locking(r, i) => r == 0 && 0 <= i < d
    case Joining(r, i) => r == 0 && 0 <= i < d
    case Unlocking(r, i) => r == 0 && 0 <= i < d
    case _ => false
  }

  lemma {:induction false} AskAlone(cfg: Config, s: State, d: int, v: Dev) returns (t: State)
    requires Alone(cfg, s, d, v, map[]) && BeforeAsking(s.main, d) && cfg.devs[d].enabled
    ensures Alone(cfg, t, d, v.(quit := true), map[]) && t.main == Locking(0, d)
    decreases MainRank(|s.devs|, s.main)
  {
    t := MainApply(cfg, s, true);
    ReachableStep(cfg, s, MainStep(true));
    hide Reachable;
    if s.main == Asking(0, d) {
    } else {
      t := AskAlone(cfg, t, d, v);
    }
  }

  /** Device `d` after its quit request, with a connect that fails exactly if that lets callbacks
      through: from the start of connect on its client delivers. */
  predicate KeepsDelivering(cfg: Config, c: DevCfg, v: Dev) {
    && v.quit
    && (v.lock == Free || HoldsDevice(v.pc))
    && !Publishing(v.pc) && v.pc != Absent
    && (v.delivering || Loading(v.pc) || v.pc == Connect)
    && (v.pc == GetLevel || Looping(v.pc) || Closing(v.pc) ==> !cfg.waits)
    && (v.pc == Exited ==> v.lock == Free)
  }

  lemma NextKeepsDelivering(cfg: Config, c: DevCfg, v: Dev)
    requires !SafelyDeleted(cfg, c) && KeepsDelivering(cfg, c, v) && v.pc != Exited
    ensures KeepsDelivering(cfg, c, DevNext(cfg, c, v, cfg.quiet || v.pc != Connecting, 1))
  {
  }

  /** The device thread runs to its exit. */
  lemma {:induction false} RunAlone(cfg: Config, s: State, d: int, v: Dev) returns (t: State, w: Dev)
    requires Alone(cfg, s, d, v, map[]) && !SafelyDeleted(cfg, cfg.devs[d]) && KeepsDelivering(cfg, cfg.devs[d], v)
    ensures Alone(cfg, t, d, w, map[]) && t.main == s.main
    ensures w.pc == Exited && w.delivering && w.lock == Free
    decreases DevRank(v.pc)
  {
    if v.pc == Exited {
      t, w := s, v;
    } else {
      var ok := cfg.quiet || v.pc != Connecting;
      NextKeepsDelivering(cfg, cfg.devs[d], v);
      DevRankDrops(cfg, cfg.devs[d], v, ok, 1);
      t := AdvanceAlone(cfg, s, d, v, map[], ok, 1);
      w := DevNext(cfg, cfg.devs[d], v, ok, 1);
      hide DevNext, DevRank, Alone;
      t, w := RunAlone(cfg, t, d, w);
    }
  }

  /** The main thread has yet to delete the client of device `d`. */
  predicate BeforeDeleting(n: int, m: MainPc, d: int) {
    match m
    case Asking(r, i) => 0 <= r <= 1 && 0 <= i <= n
    case Locking(r, i) => 0 <= r <= 1 && 0 <= i < n
    case Joining(r, i) => 0 <= r <= 1 && 0 <= i < n
    case Unlocking(r, i) => 0 <= r <= 1 && 0 <= i < n
    case DestroyMutex => true
    case DeleteItem(i) => 0 <= i <= d
    case DeleteClient(i) => 0 <= i <= d
    case _ => false
  }

  /** With all threads gone, the main thread runs until it has destroyed the device mutex. */
  lemma {:induction false} DeleteAlone(cfg: Config, s: State, d: int, v: Dev) returns (t: State, w: Dev)
    requires Alone(cfg, s, d, v, map[]) && v.pc == Exited && BeforeDeleting(|s.devs|, s.main, d)
    ensures Alone(cfg, t, d, w, map[]) && t.main == DeleteClient(d)
    ensures w.delivering == v.delivering && w.lock == v.lock
    decreases MainRank(|s.devs|, s.main)
  {
    if s.main == DeleteClient(d) {
      t, w := s, v;
    } else {
      t := MainApply(cfg, s, true);
      ReachableStep(cfg, s, MainStep(true));
      hide Reachable;
      w := t.devs[d];
      t, w := DeleteAlone(cfg, t, d, w);
    }
  }

  /** A callback that finds the device mutex destroyed. */
  lemma LocksDestroyedRun(cfg: Config, d: int) returns (s: State)
    requires 0 <= d < |cfg.devs| && !SafelyDeleted(cfg, cfg.devs[d])
    ensures Reachable(cfg, s) && LocksDestroyed(s, d)
  {
    s := StartAlone(cfg, d);
    var v := Create(FreshDev(cfg.devs[d]));
    s := FinishStarting(cfg, s, d, v);
    ReachableStep(cfg, s, MainStep(true));
    s := AskAlone(cfg, MainApply(cfg, s, true), d, v);
    s, v := RunAlone(cfg, s, d, v.(quit := true));
    s, v := DeleteAlone(cfg, s, d, v);
    s := ArriveAlone(cfg, s, d, v);
    assert s.cbs[0] == Cb(d, Enter, 0, false) && CbGuard(s, 0);
  }

  /** Main result. In every interleaving no callback of a device is in flight once its device
      mutex is destroyed, and none ever locks a destroyed one, if and only if the device has no
      client or one that keeps quiet and waits. */
  lemma CallbacksFindMutexIff(cfg: Config, d: int)
    requires 0 <= d < |cfg.devs|
    ensures (forall s :: Reachable(cfg, s) ==> CallbacksFindMutex(s, d)) <==> SafelyDeleted(cfg, cfg.devs[d])
    ensures (forall s :: Reachable(cfg, s) ==> !LocksDestroyed(s, d)) <==> SafelyDeleted(cfg, cfg.devs[d])
  {
    if SafelyDeleted(cfg, cfg.devs[d]) {
      forall s | Reachable(cfg, s) ensures CallbacksFindMutex(s, d) && !LocksDestroyed(s, d) {
        FindsMutex(cfg, s, d);
      }
    } else {
      var s := LocksDestroyedRun(cfg, d);
      assert !CallbacksFindMutex(s, d);
    }
  }
}
