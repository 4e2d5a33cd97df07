/**
 Safety over all interleavings: when driver calls are safe, how often handles are
 closed and threads joined, and what may still happen after a quit request.
 */
module LifecycleSafety {
  import opened Lifecycle
  import opened LifecycleInvariant
  import opened LifecycleGlobal
  import opened LifecycleRuns

  // ---------------------------------------------------------------- driver calls

  /** The callback is inside a driver call: the driver must be open, its library loaded, the
      entry point one that the device thread looked up, and the event converted for Level I. */
  ghost predicate CallbackCallSafe(cfg: Config, s: State, c: int)
    requires c in s.cbs && 0 <= s.cbs[c].dev < |s.devs| == |cfg.devs|
  {
    s.cbs[c].pc == Send ==>
      && Opened(s.devs[s.cbs[c].dev].drv)
      && s.cbs[c].via == cfg.devs[s.cbs[c].dev].level
      && (s.cbs[c].via == 1 ==> s.cbs[c].converted)
  }

  /** The device thread is about to call the driver. */
  predicate DeviceCallSafe(v: Dev) {
    && (v.pc == Open ==> v.drv.loaded)
    && (v.pc == GetLevel || v.pc == Read || v.pc == Close || v.pc == FailClose ==> Opened(v.drv))
  }

  ghost predicate DriverCallsSafe(cfg: Config, s: State) {
    && |s.devs| == |cfg.devs|
    && (forall d :: 0 <= d < |s.devs| ==> DeviceCallSafe(s.devs[d]))
    && (forall c :: c in s.cbs ==> 0 <= s.cbs[c].dev < |s.devs| && CallbackCallSafe(cfg, s, c))
  }

  /** What the daemon asks of its client and of its Level I drivers. */
  predicate WellBehaved(cfg: Config) {
    forall d :: 0 <= d < |cfg.devs| && cfg.devs[d].enabled && IsDriverLevel(cfg.devs[d].level) ==>
      cfg.quiet && (cfg.devs[d].level == 1 ==> cfg.devs[d].reported % 0x100 != 2)
  }

  lemma InvGivesSafety(cfg: Config, s: State)
    requires Inv(cfg, s) && WellBehaved(cfg)
    ensures DriverCallsSafe(cfg, s)
  {
    forall c | c in s.cbs ensures 0 <= s.cbs[c].dev < |s.devs| && CallbackCallSafe(cfg, s, c) {
      var d := s.cbs[c].dev;
      assert Local(cfg, cfg.devs[d], s.devs[d]) && CbLocal(cfg, cfg.devs[d], s.devs[d], c, s.cbs[c]);
      if s.cbs[c].pc == Send {
        SendIsSafe(cfg, cfg.devs[d], s.devs[d], c, s.cbs[c]);
      }
    }
    forall d | 0 <= d < |s.devs| ensures DeviceCallSafe(s.devs[d]) {
      assert Local(cfg, cfg.devs[d], s.devs[d]);
    }
  }

  lemma SendIsSafe(cfg: Config, c: DevCfg, v: Dev, id: int, b: Cb)
    requires Local(cfg, c, v) && CbLocal(cfg, c, v, id, b) && b.pc == Send
    requires c.enabled && IsDriverLevel(c.level) ==> cfg.quiet && (c.level == 1 ==> c.reported % 0x100 != 2)
    ensures Opened(v.drv) && b.via == c.level && (b.via == 1 ==> b.converted)
  {
  }

  // The converse: a run that breaks a driver call, for every configuration that is not well behaved.

  /** Without a quiet client: connect fails while a callback is inside the driver. */
  lemma NoisyClientUnsafe(cfg: Config, d: int) returns (s: State)
    requires 0 <= d < |cfg.devs| && cfg.devs[d].enabled && IsDriverLevel(cfg.devs[d].level) && !cfg.quiet
    ensures Reachable(cfg, s) && !DriverCallsSafe(cfg, s)
  {
    var v;
    s, v := ConnectAlone(cfg, d);
    var b;
    s, b := CallDriver(cfg, s, d, v);
    v := v.(lock := ByCallback(0));
    s := AdvanceAlone(cfg, s, d, v, map[0 := b], false, 0);
    v := DevNext(cfg, cfg.devs[d], v, false, 0);
    s := AdvanceAlone(cfg, s, d, v, map[0 := b], true, 0);
    assert s.cbs[0] == b && !CallbackCallSafe(cfg, s, 0);
  }

  /** A Level I driver that reports level 2: the callback takes a Level II entry point. */
  lemma WrongLevelUnsafe(cfg: Config, d: int) returns (s: State)
    requires 0 <= d < |cfg.devs| && cfg.devs[d].enabled
    requires cfg.devs[d].level == 1 && cfg.devs[d].reported % 0x100 == 2
    ensures Reachable(cfg, s) && !DriverCallsSafe(cfg, s)
  {
    var v;
    s, v := ConnectAlone(cfg, d);
    s := AdvanceAlone(cfg, s, d, v, map[], true, 0);
    v := DevNext(cfg, cfg.devs[d], v, true, 0);
    s := AdvanceAlone(cfg, s, d, v, map[], true, 0);
    v := DevNext(cfg, cfg.devs[d], v, true, 0);
    var b;
    s, b := CallDriver(cfg, s, d, v);
    assert s.cbs[0] == b && !CallbackCallSafe(cfg, s, 0);
  }

  /** Main result. Every driver call of every interleaving, including those of callbacks
      that arrive after disconnect, finds its driver open and its library loaded if and
      only if the configuration is well behaved. */
  lemma DriverCallsSafeIff(cfg: Config)
    ensures (forall s :: Reachable(cfg, s) ==> DriverCallsSafe(cfg, s)) <==> WellBehaved(cfg)
  {
    if WellBehaved(cfg) {
      forall s | Reachable(cfg, s) ensures DriverCallsSafe(cfg, s) {
        ReachableInv(cfg, s);
        InvGivesSafety(cfg, s);
      }
    } else {
      var d :| 0 <= d < |cfg.devs| && cfg.devs[d].enabled && IsDriverLevel(cfg.devs[d].level) &&
               !(cfg.quiet && (cfg.devs[d].level == 1 ==> cfg.devs[d].reported % 0x100 != 2));
      var s;
      if !cfg.quiet {
        s := NoisyClientUnsafe(cfg, d);
      } else {
        s := WrongLevelUnsafe(cfg, d);
      }
    }
  }

  /** What a callback decides once it holds the device mutex, in the fields it reads: it calls
      the driver if and only if no quit was requested, the driver has a handle, and the level
      is 2, or 1 and the event converted. Otherwise it leaves; the device stays as it is. */
  lemma CallbackDecides(cfg: Config, s: State, c: int, ok: bool)
    requires Enabled(cfg, s, CbStep(c, ok)) && s.cbs[c].pc == Check
    ensures var v, t := s.devs[s.cbs[c].dev], Apply(cfg, s, CbStep(c, ok));
            && t.devs == s.devs && c in t.cbs && t.cbs[c].dev == s.cbs[c].dev
            && (t.cbs[c].pc == Send <==>
                  !v.quit && v.drv.handle != 0 && (v.level == 2 || (v.level == 1 && ok)))
            && (t.cbs[c].pc != Send ==> t.cbs[c].pc == Leave)
            && (t.cbs[c].pc == Send ==> t.cbs[c].via == v.level && t.cbs[c].converted == ok)
  {
  }

  /** In every interleaving, whatever the configuration: a callback inside a Level I driver
      hands over an event that converted, and one inside a driver call past the check saw no quit
      request and holds the device mutex. */
  lemma OnlyConvertedIsSent(cfg: Config, s: State, c: int)
    requires Reachable(cfg, s) && c in s.cbs && s.cbs[c].pc == Send
    ensures s.cbs[c].via == 1 || s.cbs[c].via == 2
    ensures s.cbs[c].via == 1 ==> s.cbs[c].converted
    ensures 0 <= s.cbs[c].dev < |s.devs| && s.devs[s.cbs[c].dev].lock == ByCallback(c)
  {
    ReachableInv(cfg, s);
  }

  /** What the entry points found and the handle returned decide: the thread goes on to connect
      if and only if it is of Level I with a positive handle or of Level II with a non-zero one. */
  lemma OpenDecides(cfg: Config, s: State, d: int, ok: bool, h: int)
    requires Reachable(cfg, s) && Enabled(cfg, s, DevStep(d, ok, h)) && s.devs[d].pc == Open
    ensures var w := Apply(cfg, s, DevStep(d, ok, h)).devs[d];
            && w.drv.handle == h
            && (w.pc == Connect <==> (cfg.devs[d].level == 1 && h > 0) || (cfg.devs[d].level == 2 && h != 0))
            && (w.drv.open <==> w.pc == Connect)
            && (w.pc != Connect ==> w.pc == FailUnload && w.fate == OpenFailed)
  {
    ReachableInv(cfg, s);
    assert Local(cfg, cfg.devs[d], s.devs[d]);
  }

  /** The look-up of the entry points goes on to open if and only if the level is 1 or 2 and all
      are found; a failed one unloads the library if and only if the level is 1 and the first
      entry point was found. */
  lemma ResolveDecides(cfg: Config, s: State, d: int, ok: bool, h: int)
    requires Enabled(cfg, s, DevStep(d, ok, h)) && s.devs[d].pc == Resolve
    ensures var w := Apply(cfg, s, DevStep(d, ok, h)).devs[d];
            && (w.pc == Open <==> ok && (cfg.devs[d].level == 1 || cfg.devs[d].level == 2))
            && (w.pc == FailUnload <==> !ok && cfg.devs[d].level == 1 && h != 0)
            && (w.pc != Open && w.pc != FailUnload ==> w.pc == Exited && w.drv == s.devs[d].drv)
  {
  }

  // ---------------------------------------------------------------- closing and unloading

  /** Main result. A thread that entered its work loop, and a Level II thread whose connect
      failed, closes the driver once and never unloads the library before that; once it has
      exited both happened exactly once and the handle is zero. */
  lemma ClosedOnceBeforeUnload(cfg: Config, s: State, d: int)
    requires Reachable(cfg, s) && 0 <= d < |s.devs| == |cfg.devs|
    requires s.devs[d].fate == Worked || (s.devs[d].fate == ConnectFailed && cfg.devs[d].level == 2)
    ensures 0 <= s.devs[d].drv.unloads <= s.devs[d].drv.closes <= 1
    ensures s.devs[d].drv.open <==> s.devs[d].drv.closes == 0
    ensures s.devs[d].drv.closes == 1 && s.devs[d].pc != Zero && s.devs[d].pc != FailZero ==> s.devs[d].drv.handle == 0
    ensures s.devs[d].pc == Exited ==> s.devs[d].drv == Driver(0, false, false, 1, 1)
  {
    ReachableInv(cfg, s);
    assert Local(cfg, cfg.devs[d], s.devs[d]);
  }

  /** A finished thread has left its driver open if and only if it is a Level I thread whose
      connect failed, and its library loaded if and only if it took one of the exits without
      unloading: neither level, CanalOpen missing, or any Level II entry point missing. */
  lemma LeftOpenIff(cfg: Config, s: State, d: int)
    requires Reachable(cfg, s) && 0 <= d < |s.devs| == |cfg.devs| && s.devs[d].pc == Exited
    ensures s.devs[d].drv.open <==> s.devs[d].fate == ConnectFailed && cfg.devs[d].level == 1
    ensures s.devs[d].drv.open ==> !s.devs[d].drv.loaded && s.devs[d].drv.handle != 0
    ensures s.devs[d].drv.loaded <==>
              s.devs[d].fate == WrongLevel || s.devs[d].fate == NoCanalOpen
              || (s.devs[d].fate == NoEntry && cfg.devs[d].level == 2)
  {
    ReachableInv(cfg, s);
    assert Local(cfg, cfg.devs[d], s.devs[d]);
  }

  /** With any client, the connect of a Level I driver can fail: the library is unloaded under
      an open driver. */
  lemma LeftOpenRun(cfg: Config, d: int) returns (s: State)
    requires 0 <= d < |cfg.devs| && cfg.devs[d].enabled && cfg.devs[d].level == 1
    ensures Reachable(cfg, s) && d < |s.devs| && s.devs[d].pc == Exited
    ensures s.devs[d].drv == Driver(1, true, false, 0, 1)
  {
    var v;
    s, v := ConnectAlone(cfg, d);
    s := AdvanceAlone(cfg, s, d, v, map[], false, 0);
    v := DevNext(cfg, cfg.devs[d], v, false, 0);
    s := AdvanceAlone(cfg, s, d, v, map[], true, 0);
  }

  /** Any library can lack the first entry point asked for, and stays loaded then. */
  lemma StaysLoadedRun(cfg: Config, d: int) returns (s: State)
    requires 0 <= d < |cfg.devs| && cfg.devs[d].enabled
    ensures Reachable(cfg, s) && d < |s.devs| && s.devs[d].pc == Exited && s.devs[d].drv.loaded
  {
    s := StartAlone(cfg, d);
    var v := Create(FreshDev(cfg.devs[d]));
    s := AdvanceAlone(cfg, s, d, v, map[], true, 0);
    v := DevNext(cfg, cfg.devs[d], v, true, 0);
    s := AdvanceAlone(cfg, s, d, v, map[], false, 0);
  }

  ghost predicate ExitsClosed(s: State, d: int) {
    0 <= d < |s.devs| && s.devs[d].pc == Exited ==> !s.devs[d].drv.open
  }

  ghost predicate ExitsUnloaded(s: State, d: int) {
    0 <= d < |s.devs| && s.devs[d].pc == Exited ==> !s.devs[d].drv.loaded
  }

  /** Main result. Which devices always clean up after themselves: no interleaving leaves the
      driver open if and only if the device is disabled or not of Level I; none leaves the
      library loaded if and only if it is disabled. */
  lemma CleansUpIff(cfg: Config, d: int)
    requires 0 <= d < |cfg.devs|
    ensures (forall s :: Reachable(cfg, s) ==> ExitsClosed(s, d)) <==> !(cfg.devs[d].enabled && cfg.devs[d].level == 1)
    ensures (forall s :: Reachable(cfg, s) ==> ExitsUnloaded(s, d)) <==> !cfg.devs[d].enabled
  {
    forall s | Reachable(cfg, s)
      ensures !(cfg.devs[d].enabled && cfg.devs[d].level == 1) ==> ExitsClosed(s, d)
      ensures !cfg.devs[d].enabled ==> ExitsUnloaded(s, d)
    {
      ReachableInv(cfg, s);
      assert Local(cfg, cfg.devs[d], s.devs[d]);
    }
    if cfg.devs[d].enabled {
      var s := StaysLoadedRun(cfg, d);
      assert !ExitsUnloaded(s, d);
      if cfg.devs[d].level == 1 {
        var t := LeftOpenRun(cfg, d);
        assert !ExitsClosed(t, d);
      }
    }
  }

  // ---------------------------------------------------------------- after a quit request

  /** A step never takes back a quit request. */
  lemma QuitStays(cfg: Config, s: State, step: Step, d: int)
    requires Enabled(cfg, s, step) && 0 <= d < |s.devs| && s.devs[d].quit
    ensures Apply(cfg, s, step).devs[d].quit
  {
    if step.DevStep? {
      DevNextFrame(cfg, cfg.devs[step.d], s.devs[step.d], step.ok, step.h);
      hide DevNext;
    } else if step.CbStep? {
      CbDevFrame(s.devs[s.cbs[step.c].dev], step.c, s.cbs[step.c]);
    }
  }

  /** Publications of device `d`'s thread that complete along the run. */
  ghost function Publications(cfg: Config, s: State, steps: seq<Step>, d: int): nat
    decreases |steps|
  {
    if steps == [] || !Enabled(cfg, s, steps[0]) then 0
    else (if Owner(steps[0]) == DevThread(d) && s.devs[d].pc == Publish then 1 else 0)
         + Publications(cfg, Apply(cfg, s, steps[0]), steps[1..], d)
  }

  predicate CompletesSend(s: State, step: Step, d: int) {
    step.CbStep? && step.c in s.cbs && s.cbs[step.c].dev == d && s.cbs[step.c].pc == Send
  }

  /** Driver sends of callbacks of device `d` that complete along the run. */
  ghost function DriverSends(cfg: Config, s: State, steps: seq<Step>, d: int): nat
    decreases |steps|
  {
    if steps == [] || !Enabled(cfg, s, steps[0]) then 0
    else (if CompletesSend(s, steps[0], d) then 1 else 0)
         + DriverSends(cfg, Apply(cfg, s, steps[0]), steps[1..], d)
  }

  lemma DevNextLate(cfg: Config, c: DevCfg, v: Dev, ok: bool, h: int)
    requires v.quit
    ensures DevNext(cfg, c, v, ok, h).late == if v.pc == Publish then v.late.(pubs := v.late.pubs + 1) else v.late
  {
  }

  /** One step after the quit request is counted in the device's own record. */
  lemma StepIsCounted(cfg: Config, s: State, step: Step, d: int)
    requires Enabled(cfg, s, step) && 0 <= d < |s.devs| && s.devs[d].quit
    ensures Apply(cfg, s, step).devs[d].late.pubs
         == s.devs[d].late.pubs + if Owner(step) == DevThread(d) && s.devs[d].pc == Publish then 1 else 0
    ensures Apply(cfg, s, step).devs[d].late.sends
         == s.devs[d].late.sends + if CompletesSend(s, step, d) then 1 else 0
  {
    if step.DevStep? && step.d == d {
      DevNextLate(cfg, cfg.devs[d], s.devs[d], step.ok, step.h);
    }
    hide DevNext, DevGuard, ArriveGuard;
  }

  lemma {:induction false} LateIsCounted(cfg: Config, s: State, steps: seq<Step>, t: State, d: int)
    requires RunsTo(cfg, s, steps, t) && 0 <= d < |s.devs| && s.devs[d].quit
    ensures |t.devs| == |s.devs|
    ensures t.devs[d].late.pubs == s.devs[d].late.pubs + Publications(cfg, s, steps, d)
    ensures t.devs[d].late.sends == s.devs[d].late.sends + DriverSends(cfg, s, steps, d)
    decreases |steps|
  {
    if steps == [] {
    } else {
      QuitStays(cfg, s, steps[0], d);
      StepIsCounted(cfg, s, steps[0], d);
      assert |Apply(cfg, s, steps[0]).devs| == |s.devs|;
      hide Enabled, Apply;
      LateIsCounted(cfg, Apply(cfg, s, steps[0]), steps[1..], t, d);
    }
  }

  /** Main result. From any state in which a device's quit flag is true, whatever runs next,
      at most one publication of its thread and at most one driver send of its callbacks
      still complete. */
  lemma AtMostOneLate(cfg: Config, s: State, steps: seq<Step>, t: State, d: int)
    requires Reachable(cfg, s) && RunsTo(cfg, s, steps, t) && 0 <= d < |s.devs| && s.devs[d].quit
    ensures Publications(cfg, s, steps, d) <= 1
    ensures DriverSends(cfg, s, steps, d) <= 1
  {
    ReachableInv(cfg, s);
    RunKeepsInv(cfg, s, steps, t);
    LateIsCounted(cfg, s, steps, t, d);
    LateIsBounded(cfg, s, d);
    LateIsBounded(cfg, t, d);
  }

  lemma LateIsBounded(cfg: Config, s: State, d: int)
    requires Inv(cfg, s) && 0 <= d < |s.devs|
    ensures 0 <= s.devs[d].late.pubs <= 1 && 0 <= s.devs[d].late.sends <= 1
  {
    assert Local(cfg, cfg.devs[d], s.devs[d]);
  }

  // ---------------------------------------------------------------- mutual exclusion

  /** At most one thread is between lock and unlock of a device mutex, and at most one
      between lock and unlock of the discovery mutex. */
  lemma MutexesExclude(cfg: Config, s: State)
    requires Reachable(cfg, s)
    ensures forall b, c :: b in s.cbs && c in s.cbs && b != c && s.cbs[b].dev == s.cbs[c].dev ==>
              s.cbs[b].pc == Enter || s.cbs[c].pc == Enter
    ensures forall c :: c in s.cbs && s.cbs[c].pc != Enter && 0 <= s.cbs[c].dev < |s.devs| ==>
              !HoldsDevice(s.devs[s.cbs[c].dev].pc)
    ensures forall d, e :: 0 <= d < |s.devs| && 0 <= e < |s.devs| ==>
              HoldsDiscovery(s.devs[d].pc) && HoldsDiscovery(s.devs[e].pc) ==> d == e
  {
    ReachableInv(cfg, s);
    forall c | c in s.cbs && s.cbs[c].pc != Enter
      ensures s.devs[s.cbs[c].dev].lock == ByCallback(c) && !HoldsDevice(s.devs[s.cbs[c].dev].pc)
    {
      assert Local(cfg, cfg.devs[s.cbs[c].dev], s.devs[s.cbs[c].dev]);
    }
    hide Local, LockInv, MainInv;
  }

  // ---------------------------------------------------------------- joining and destroying

  predicate InSecondCleanup(m: MainPc) {
    match m
    case Asking(r, _) => r == 1
    case Locking(r, _) => r == 1
    case Joining(r, _) => r == 1
    case Unlocking(r, _) => r == 1
    case _ => false
  }

  predicate Destroying(m: MainPc) {
    m == DestroyMutex || !DiscoveryAlive(m)
  }

  /** Main result. No thread is joined more often than it was created; once the first
      cleanup is over every created thread has been joined exactly once and none is live. */
  lemma JoinedExactlyOnce(cfg: Config, s: State, d: int)
    requires Reachable(cfg, s) && 0 <= d < |s.devs| == |cfg.devs|
    ensures 0 <= s.devs[d].ctl.joins <= s.devs[d].ctl.creates <= 1
    ensures InSecondCleanup(s.main) || Destroying(s.main) ==>
              s.devs[d].ctl.joins == s.devs[d].ctl.creates && (s.devs[d].pc == Absent || s.devs[d].pc == Exited)
  {
    ReachableInv(cfg, s);
    assert Local(cfg, cfg.devs[d], s.devs[d]);
  }

  /** The second cleanup only locks and unlocks: nothing else of any device changes. */
  lemma SecondCleanupChangesNothing(cfg: Config, s: State, ok: bool, d: int)
    requires Reachable(cfg, s) && InSecondCleanup(s.main) && MainGuard(s) && 0 <= d < |s.devs| == |cfg.devs|
    ensures SetStopLock(MainApply(cfg, s, ok).devs[d], false) == SetStopLock(s.devs[d], false)
  {
    ReachableInv(cfg, s);
    assert Stopped(cfg.devs[d], s.devs[d]);
  }

  lemma StoppedHasNoCallback(cfg: Config, c: DevCfg, v: Dev, id: int, b: Cb)
    requires Local(cfg, c, v) && Stopped(c, v) && CbLocal(cfg, c, v, id, b)
    ensures !(cfg.quiet && cfg.waits)
  {
  }

  /** Main result. When the discovery mutex or an item is destroyed no device thread is live
      and no thread mutex is held; with a client that is quiet and waits, no callback is in
      flight either. */
  lemma DestroyedAtRest(cfg: Config, s: State)
    requires Reachable(cfg, s) && !DiscoveryAlive(s.main)
    ensures s.disc == Nobody
    ensures forall d :: 0 <= d < |s.devs| ==>
              (s.devs[d].pc == Absent || s.devs[d].pc == Exited) && !s.devs[d].ctl.stopLock
    ensures cfg.quiet && cfg.waits ==> s.cbs == map[]
  {
    ReachableInv(cfg, s);
    assert StoppedUpTo(cfg, s, |s.devs|);
    forall c | c in s.cbs ensures !(cfg.quiet && cfg.waits) {
      StoppedHasNoCallback(cfg, cfg.devs[s.cbs[c].dev], s.devs[s.cbs[c].dev], c, s.cbs[c]);
    }
  }
}
