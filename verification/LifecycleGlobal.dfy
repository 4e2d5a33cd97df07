/**
 The invariant of the whole daemon, kept by every step of every thread.
 */
module LifecycleGlobal {
  import opened Lifecycle
  import opened LifecycleInvariant

  ghost predicate DevsInv(cfg: Config, s: State)
    requires |s.devs| == |cfg.devs|
  {
    forall d :: 0 <= d < |s.devs| ==> Local(cfg, cfg.devs[d], s.devs[d])
  }

  ghost predicate CbsInv(cfg: Config, s: State)
    requires |s.devs| == |cfg.devs|
  {
    forall c :: c in s.cbs ==>
      0 <= s.cbs[c].dev < |s.devs| && CbLocal(cfg, cfg.devs[s.cbs[c].dev], s.devs[s.cbs[c].dev], c, s.cbs[c])
  }

  /** The discovery mutex is held by exactly the device thread that is between its lock and unlock. */
  ghost predicate DiscInv(s: State) {
    && (s.disc.Device? ==> 0 <= s.disc.d < |s.devs|)
    && forall d :: 0 <= d < |s.devs| ==> (HoldsDiscovery(s.devs[d].pc) <==> s.disc == Device(d))
  }

  /** A device mutex held by a callback is held by one that is in flight and past its lock. */
  ghost predicate LockInv(s: State) {
    forall d :: 0 <= d < |s.devs| && s.devs[d].lock.ByCallback? ==>
      s.devs[d].lock.c in s.cbs && s.cbs[s.devs[d].lock.c].dev == d && s.cbs[s.devs[d].lock.c].pc != Enter
  }

  /** Stopped for good: asked to quit, joined if it was ever started. */
  predicate Stopped(c: DevCfg, v: Dev) {
    && !v.ctl.started
    && (c.enabled ==> v.quit)
    && (v.pc == Absent || v.pc == Exited)
  }

  ghost predicate StoppedUpTo(cfg: Config, s: State, n: int)
    requires |s.devs| == |cfg.devs|
  {
    forall d :: 0 <= d < |s.devs| && d < n ==> Stopped(cfg.devs[d], s.devs[d])
  }

  /** Only the item in hand has its thread mutex locked. */
  ghost predicate StopLocks(s: State, i: int, locked: bool) {
    forall d :: 0 <= d < |s.devs| ==> (s.devs[d].ctl.stopLock <==> locked && d == i)
  }

  ghost predicate StopInv(cfg: Config, s: State, round: int, i: int, locked: bool)
    requires |s.devs| == |cfg.devs|
  {
    && 0 <= round <= 1
    && 0 <= i <= |s.devs|
    && StoppedUpTo(cfg, s, if round == 0 then i else |s.devs|)
    && StopLocks(s, i, locked)
  }

  ghost predicate InHand(cfg: Config, s: State, i: int)
    requires |s.devs| == |cfg.devs|
  {
    0 <= i < |s.devs| && cfg.devs[i].enabled && s.devs[i].quit
  }

  ghost predicate MainInv(cfg: Config, s: State)
    requires |s.devs| == |cfg.devs|
  {
    match s.main
    case Starting(i) =>
      0 <= i && StopLocks(s, i, false) && forall d :: i <= d < |s.devs| ==> s.devs[d].pc == Absent && !s.devs[d].quit
    case Running => StopLocks(s, 0, false)
    case Asking(r, i) => StopInv(cfg, s, r, i, false)
    case Locking(r, i) => StopInv(cfg, s, r, i, false) && InHand(cfg, s, i)
    case Joining(r, i) => StopInv(cfg, s, r, i, true) && InHand(cfg, s, i)
    case Unlocking(r, i) => StopInv(cfg, s, r, i, true) && InHand(cfg, s, i) && Stopped(cfg.devs[i], s.devs[i])
    case DestroyMutex => StopInv(cfg, s, 1, |s.devs|, false)
    case DeleteItem(i) => StopInv(cfg, s, 1, |s.devs|, false) && 0 <= i <= |s.devs|
    case DeleteClient(i) => StopInv(cfg, s, 1, |s.devs|, false) && 0 <= i < |s.devs|
    case Ended => StopInv(cfg, s, 1, |s.devs|, false)
  }

  ghost predicate Inv(cfg: Config, s: State) {
    && |s.devs| == |cfg.devs|
    && DevsInv(cfg, s)
    && CbsInv(cfg, s)
    && DiscInv(s)
    && LockInv(s)
    && MainInv(cfg, s)
  }

  lemma InitInv(cfg: Config)
    ensures Inv(cfg, Init(cfg))
  {
  }

  // ---------------------------------------------------------------- steps of a device thread

  /** A device thread touches neither the main thread's fields nor a quit request. */
  lemma DevNextFrame(cfg: Config, c: DevCfg, v: Dev, ok: bool, h: int)
    ensures DevNext(cfg, c, v, ok, h).ctl == v.ctl
    ensures v.quit ==> DevNext(cfg, c, v, ok, h).quit
    ensures v.pc != Absent && v.pc != Exited ==> DevNext(cfg, c, v, ok, h).pc != Absent
  {
  }

  lemma DevNextLock(cfg: Config, c: DevCfg, v: Dev, ok: bool, h: int)
    requires Local(cfg, c, v)
    requires v.pc == LockDev ==> v.lock == Free
    ensures DevNext(cfg, c, v, ok, h).lock.ByCallback? ==> DevNext(cfg, c, v, ok, h).lock == v.lock
  {
  }

  lemma DevKeepsCbs(cfg: Config, s: State, d: int, ok: bool, h: int)
    requires |s.devs| == |cfg.devs| && DevsInv(cfg, s) && CbsInv(cfg, s) && DevGuard(cfg, s, d, ok)
    ensures CbsInv(cfg, DevApply(cfg, s, d, ok, h))
  {
    hide Local, CbLocal, DevNext, DiscNext;
    forall c | c in s.cbs && s.cbs[c].dev == d
      ensures CbLocal(cfg, cfg.devs[d], DevNext(cfg, cfg.devs[d], s.devs[d], ok, h), c, s.cbs[c])
    {
      DevNextKeepsCb(cfg, cfg.devs[d], s.devs[d], c, s.cbs[c], ok, h);
    }
  }

  lemma DevKeepsDisc(cfg: Config, s: State, d: int, ok: bool, h: int)
    requires |s.devs| == |cfg.devs| && DiscInv(s) && DevGuard(cfg, s, d, ok)
    ensures DiscInv(DevApply(cfg, s, d, ok, h))
  {
  }

  lemma DevKeepsLock(cfg: Config, s: State, d: int, ok: bool, h: int)
    requires |s.devs| == |cfg.devs| && DevsInv(cfg, s) && LockInv(s) && DevGuard(cfg, s, d, ok)
    ensures LockInv(DevApply(cfg, s, d, ok, h))
  {
    hide Local, DevNext, DiscNext;
    DevNextLock(cfg, cfg.devs[d], s.devs[d], ok, h);
  }

  lemma DevKeepsMain(cfg: Config, s: State, d: int, ok: bool, h: int)
    requires |s.devs| == |cfg.devs| && MainInv(cfg, s) && DevGuard(cfg, s, d, ok)
    ensures MainInv(cfg, DevApply(cfg, s, d, ok, h))
  {
    hide DevNext, DiscNext;
    DevNextFrame(cfg, cfg.devs[d], s.devs[d], ok, h);
  }

  lemma DevStepKeeps(cfg: Config, s: State, d: int, ok: bool, h: int)
    requires Inv(cfg, s) && DevGuard(cfg, s, d, ok)
    ensures Inv(cfg, DevApply(cfg, s, d, ok, h))
  {
    DevNextKeepsLocal(cfg, cfg.devs[d], s.devs[d], ok, h);
    DevKeepsCbs(cfg, s, d, ok, h);
    DevKeepsDisc(cfg, s, d, ok, h);
    DevKeepsLock(cfg, s, d, ok, h);
    DevKeepsMain(cfg, s, d, ok, h);
    hide Local, CbsInv, DiscInv, LockInv, MainInv, DevNext;
  }

  // ---------------------------------------------------------------- steps of a callback

  lemma CbKeepsDevs(cfg: Config, s: State, c: int, ok: bool)
    requires |s.devs| == |cfg.devs| && DevsInv(cfg, s) && CbsInv(cfg, s) && CbGuard(s, c)
    ensures DevsInv(cfg, CbApply(s, c, ok))
  {
    hide Local, CbLocal, CbDev, CbNext;
    CbNextKeeps(cfg, cfg.devs[s.cbs[c].dev], s.devs[s.cbs[c].dev], c, s.cbs[c], ok);
  }

  lemma CbKeepsCbs(cfg: Config, s: State, c: int, ok: bool)
    requires |s.devs| == |cfg.devs| && DevsInv(cfg, s) && CbsInv(cfg, s) && CbGuard(s, c)
    ensures CbsInv(cfg, CbApply(s, c, ok))
  {
    var b := s.cbs[c];
    assert b.dev == CbNext(s.devs[b.dev], b, ok).dev;
    hide Local, CbLocal, CbDev, CbNext;
    CbNextKeeps(cfg, cfg.devs[b.dev], s.devs[b.dev], c, b, ok);
    var t := CbApply(s, c, ok);
    forall o | o in t.cbs
      ensures 0 <= t.cbs[o].dev < |t.devs| && CbLocal(cfg, cfg.devs[t.cbs[o].dev], t.devs[t.cbs[o].dev], o, t.cbs[o])
    {
      if o != c && s.cbs[o].dev == b.dev {
        CbNextKeepsOthers(cfg, cfg.devs[b.dev], s.devs[b.dev], c, b, o, s.cbs[o]);
      }
    }
  }

  /** A callback changes only the mutex holder and the record of late sends. */
  lemma CbDevFrame(v: Dev, c: int, b: Cb)
    ensures CbDev(v, c, b).(lock := v.lock, late := v.late) == v
  {
  }

  lemma CbKeepsLock(cfg: Config, s: State, c: int, ok: bool)
    requires |s.devs| == |cfg.devs| && CbsInv(cfg, s) && LockInv(s) && CbGuard(s, c)
    ensures LockInv(CbApply(s, c, ok))
  {
    var b := s.cbs[c];
    assert b.pc != Enter ==> s.devs[b.dev].lock == ByCallback(c);
  }

  /** The main thread's invariant does not look at the device mutex or the late counts. */
  lemma MainInvFrame(cfg: Config, s: State, t: State)
    requires |s.devs| == |cfg.devs| && MainInv(cfg, s)
    requires |t.devs| == |s.devs| && t.main == s.main
    requires forall d :: 0 <= d < |s.devs| ==>
               t.devs[d].pc == s.devs[d].pc && t.devs[d].quit == s.devs[d].quit && t.devs[d].ctl == s.devs[d].ctl
    ensures MainInv(cfg, t)
  {
  }

  lemma CbKeepsMain(cfg: Config, s: State, c: int, ok: bool)
    requires |s.devs| == |cfg.devs| && MainInv(cfg, s) && CbGuard(s, c)
    ensures MainInv(cfg, CbApply(s, c, ok))
  {
    CbDevFrame(s.devs[s.cbs[c].dev], c, s.cbs[c]);
    hide CbDev, CbNext, MainInv;
    MainInvFrame(cfg, s, CbApply(s, c, ok));
  }

  lemma CbKeepsDisc(cfg: Config, s: State, c: int, ok: bool)
    requires DiscInv(s) && CbGuard(s, c)
    ensures DiscInv(CbApply(s, c, ok))
  {
    CbDevFrame(s.devs[s.cbs[c].dev], c, s.cbs[c]);
    hide CbDev, CbNext;
  }

  lemma CbStepKeeps(cfg: Config, s: State, c: int, ok: bool)
    requires Inv(cfg, s) && CbGuard(s, c)
    ensures Inv(cfg, CbApply(s, c, ok))
  {
    CbKeepsDevs(cfg, s, c, ok);
    CbKeepsCbs(cfg, s, c, ok);
    CbKeepsLock(cfg, s, c, ok);
    CbKeepsMain(cfg, s, c, ok);
    CbKeepsDisc(cfg, s, c, ok);
    hide DevsInv, CbsInv, DiscInv, LockInv, MainInv;
  }

  lemma ArriveKeeps(cfg: Config, s: State, c: int, d: int)
    requires Inv(cfg, s) && ArriveGuard(s, c, d)
    ensures Inv(cfg, s.(cbs := s.cbs[c := Cb(d, Enter, 0, false)]))
  {
    assert Local(cfg, cfg.devs[d], s.devs[d]);
    assert CbLocal(cfg, cfg.devs[d], s.devs[d], c, Cb(d, Enter, 0, false));
    hide Local, CbLocal;
  }

  // ---------------------------------------------------------------- steps of the main thread

  /** The main thread changes what only it uses, the quit flag, and a thread it creates. */
  predicate MainChange(c: DevCfg, v: Dev, w: Dev) {
    || (v.pc == Absent && c.enabled && w == Create(v))
    || w == v.(quit := true)
    || (w == Join(v) && (v.ctl.started ==> v.pc == Exited))
    || w == SetStopLock(v, true)
    || w == SetStopLock(v, false)
  }

  lemma MainKeepsLocal(cfg: Config, c: DevCfg, v: Dev, w: Dev)
    requires Local(cfg, c, v) && MainChange(c, v, w)
    ensures Local(cfg, c, w)
  {
    if w == Create(v) {
      CreateKeepsLocal(cfg, c, v);
    }
  }

  lemma CreateKeepsLocal(cfg: Config, c: DevCfg, v: Dev)
    requires Local(cfg, c, v) && v.pc == Absent && c.enabled
    ensures Local(cfg, c, Create(v))
  {
  }

  lemma MainKeepsCb(cfg: Config, c: DevCfg, v: Dev, w: Dev)
    requires Local(cfg, c, v) && MainChange(c, v, w)
    ensures forall id, b :: CbLocal(cfg, c, v, id, b) ==> CbLocal(cfg, c, w, id, b)
    ensures w.lock == v.lock && (HoldsDiscovery(w.pc) <==> HoldsDiscovery(v.pc))
  {
  }

  lemma MainChanges(cfg: Config, s: State, ok: bool)
    requires |s.devs| == |cfg.devs| && MainInv(cfg, s) && MainGuard(s)
    ensures var t := MainApply(cfg, s, ok);
            && |t.devs| == |s.devs| && t.cbs == s.cbs && t.disc == s.disc
            && forall d :: 0 <= d < |s.devs| && t.devs[d] != s.devs[d] ==>
                 MainChange(cfg.devs[d], s.devs[d], t.devs[d])
  {
    hide StopInv;
  }

  lemma MainKeepsRest(cfg: Config, s: State, ok: bool)
    requires Inv(cfg, s) && MainGuard(s)
    ensures DevsInv(cfg, MainApply(cfg, s, ok)) && CbsInv(cfg, MainApply(cfg, s, ok))
    ensures DiscInv(MainApply(cfg, s, ok)) && LockInv(MainApply(cfg, s, ok))
  {
    hide Local, CbLocal, HoldsDiscovery, MainApply, MainChange, MainInv, MainGuard;
    MainChanges(cfg, s, ok);
    var t := MainApply(cfg, s, ok);
    forall d | 0 <= d < |s.devs|
      ensures Local(cfg, cfg.devs[d], t.devs[d])
      ensures forall id, b ::
                CbLocal(cfg, cfg.devs[d], s.devs[d], id, b) ==> CbLocal(cfg, cfg.devs[d], t.devs[d], id, b)
      ensures t.devs[d].lock == s.devs[d].lock && (HoldsDiscovery(t.devs[d].pc) <==> HoldsDiscovery(s.devs[d].pc))
    {
      if t.devs[d] != s.devs[d] {
        MainKeepsLocal(cfg, cfg.devs[d], s.devs[d], t.devs[d]);
        MainKeepsCb(cfg, cfg.devs[d], s.devs[d], t.devs[d]);
      }
    }
  }

  /** A joined thread has exited; one that was never started never ran. */
  lemma JoinStops(cfg: Config, c: DevCfg, v: Dev)
    requires Local(cfg, c, v) && v.quit && (v.ctl.started ==> v.pc == Exited)
    ensures Stopped(c, Join(v))
  {
  }

  /** A disabled item never had a thread. */
  lemma DisabledStopped(cfg: Config, c: DevCfg, v: Dev)
    requires Local(cfg, c, v) && !c.enabled
    ensures Stopped(c, v)
  {
  }

  lemma StartKeepsMain(cfg: Config, s: State, ok: bool)
    requires Inv(cfg, s) && (s.main.Starting? || s.main.Running? || s.main.Asking?)
    ensures MainInv(cfg, MainApply(cfg, s, ok))
  {
    hide Local, CbsInv, DiscInv, LockInv;
    if s.main.Asking? && 0 <= s.main.i < |s.devs| && !cfg.devs[s.main.i].enabled {
      DisabledStopped(cfg, cfg.devs[s.main.i], s.devs[s.main.i]);
    }
  }

  lemma StopKeepsMain(cfg: Config, s: State, ok: bool)
    requires Inv(cfg, s) && MainGuard(s) && !(s.main.Starting? || s.main.Running? || s.main.Asking?)
    ensures MainInv(cfg, MainApply(cfg, s, ok))
  {
    hide Local, CbsInv, DiscInv, LockInv;
    if s.main.Joining? {
      JoinStops(cfg, cfg.devs[s.main.i], s.devs[s.main.i]);
    }
    hide Local, CbsInv, DiscInv, LockInv;
  }

  lemma MainKeepsMain(cfg: Config, s: State, ok: bool)
    requires Inv(cfg, s) && MainGuard(s)
    ensures MainInv(cfg, MainApply(cfg, s, ok))
  {
    hide Inv, MainInv, MainApply;
    if s.main.Starting? || s.main.Running? || s.main.Asking? {
      StartKeepsMain(cfg, s, ok);
    } else {
      StopKeepsMain(cfg, s, ok);
    }
  }

  lemma MainStepKeeps(cfg: Config, s: State, ok: bool)
    requires Inv(cfg, s) && MainGuard(s)
    ensures Inv(cfg, MainApply(cfg, s, ok))
  {
    MainKeepsRest(cfg, s, ok);
    MainKeepsMain(cfg, s, ok);
    hide DevsInv, CbsInv, DiscInv, LockInv, MainInv;
  }

  // ---------------------------------------------------------------- every run

  lemma StepKeepsInv(cfg: Config, s: State, step: Step)
    requires Inv(cfg, s) && Enabled(cfg, s, step)
    ensures Inv(cfg, Apply(cfg, s, step))
  {
    hide Inv, DevGuard, CbGuard, ArriveGuard, MainGuard;
    match step
    case MainStep(ok) => MainStepKeeps(cfg, s, ok);
    case DevStep(d, ok, h) => DevStepKeeps(cfg, s, d, ok, h);
    case CbStep(c, ok) => CbStepKeeps(cfg, s, c, ok);
    case Arrive(c, d) => ArriveKeeps(cfg, s, c, d);
    case Idle =>
  }

  lemma {:induction false} RunKeepsInv(cfg: Config, s: State, steps: seq<Step>, t: State)
    requires Inv(cfg, s) && RunsTo(cfg, s, steps, t)
    ensures Inv(cfg, t)
    decreases |steps|
  {
    hide Inv, Enabled, Apply;
    if steps == [] {
    } else {
      StepKeepsInv(cfg, s, steps[0]);
      RunKeepsInv(cfg, Apply(cfg, s, steps[0]), steps[1..], t);
    }
  }

  lemma ReachableInv(cfg: Config, s: State)
    requires Reachable(cfg, s)
    ensures Inv(cfg, s)
  {
    InitInv(cfg);
    var steps :| RunsTo(cfg, Init(cfg), steps, s);
    RunKeepsInv(cfg, Init(cfg), steps, s);
  }
}
