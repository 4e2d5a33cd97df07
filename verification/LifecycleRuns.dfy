/**
 Runs in which one device thread runs alone, from which the counterexamples are built.
 */
module LifecycleRuns {
  import opened Lifecycle

  /** Device `d` is the only one ever started, at state `v`, with these callbacks in flight. */
  ghost predicate Alone(cfg: Config, s: State, d: int, v: Dev, cbs: map<int, Cb>) {
    && Reachable(cfg, s)
    && |s.devs| == |cfg.devs|
    && 0 <= d < |s.devs|
    && s.devs[d] == v
    && (forall e :: 0 <= e < |s.devs| && e != d ==> s.devs[e].pc == Absent && !s.devs[e].ctl.started)
    && s.cbs == cbs
    && s.disc == Nobody
  }

  /** Thread creation can fail for every device before `d`. */
  lemma {:induction false} SkipTo(cfg: Config, d: int)
    requires 0 <= d <= |cfg.devs|
    ensures Reachable(cfg, Init(cfg).(main := Starting(d)))
  {
    if d == 0 {
      assert RunsTo(cfg, Init(cfg), [], Init(cfg));
    } else {
      SkipTo(cfg, d - 1);
      ReachableStep(cfg, Init(cfg).(main := Starting(d - 1)), MainStep(false));
    }
  }

  lemma StartAlone(cfg: Config, d: int) returns (s: State)
    requires 0 <= d < |cfg.devs| && cfg.devs[d].enabled
    ensures Alone(cfg, s, d, Create(FreshDev(cfg.devs[d])), map[]) && s.main == Starting(d + 1)
  {
    SkipTo(cfg, d);
    var t := Init(cfg).(main := Starting(d));
    s := MainApply(cfg, t, true);
    ReachableStep(cfg, t, MainStep(true));
  }

  /** One step of the device thread that needs nobody else. */
  lemma AdvanceAlone(cfg: Config, s: State, d: int, v: Dev, cbs: map<int, Cb>, ok: bool, h: int) returns (t: State)
    requires Alone(cfg, s, d, v, cbs)
    requires v.pc != Absent && v.pc != Exited && v.pc != DiscLock
    requires v.pc == Connecting && cfg.quiet ==> ok || cbs == map[]
    requires v.pc == AwaitCallbacks && cfg.waits ==> cbs == map[]
    requires v.pc == LockDev ==> v.lock == Free
    ensures Alone(cfg, t, d, DevNext(cfg, cfg.devs[d], v, ok, h), cbs) && t.main == s.main
  {
    t := DevApply(cfg, s, d, ok, h);
    ReachableStep(cfg, s, DevStep(d, ok, h));
    hide DevNext, Reachable;
  }

  /** A driver of level 1 or 2 can get as far as waiting for the outcome of connect. */
  lemma ConnectAlone(cfg: Config, d: int) returns (s: State, v: Dev)
    requires 0 <= d < |cfg.devs| && cfg.devs[d].enabled && IsDriverLevel(cfg.devs[d].level)
    ensures Alone(cfg, s, d, v, map[]) && s.main == Starting(d + 1)
    ensures v.pc == Connecting && v.delivering && !v.quit && v.lock == Free && v.level == cfg.devs[d].level
    ensures v.drv == Driver(1, true, true, 0, 0)
  {
    s := StartAlone(cfg, d);
    v := Create(FreshDev(cfg.devs[d]));
    s := AdvanceAlone(cfg, s, d, v, map[], true, 1);
    v := DevNext(cfg, cfg.devs[d], v, true, 1);
    s := AdvanceAlone(cfg, s, d, v, map[], true, 1);
    v := DevNext(cfg, cfg.devs[d], v, true, 1);
    s := AdvanceAlone(cfg, s, d, v, map[], true, 1);
    v := DevNext(cfg, cfg.devs[d], v, true, 1);
    s := AdvanceAlone(cfg, s, d, v, map[], true, 1);
    v := DevNext(cfg, cfg.devs[d], v, true, 1);
  }

  /** A callback arrives at a device that delivers. */
  lemma ArriveAlone(cfg: Config, s: State, d: int, v: Dev) returns (t: State)
    requires Alone(cfg, s, d, v, map[]) && v.delivering && ClientAlive(s.main, d)
    ensures Alone(cfg, t, d, v, map[0 := Cb(d, Enter, 0, false)]) && t.main == s.main
  {
    ReachableStep(cfg, s, Arrive(0, d));
    t := s.(cbs := s.cbs[0 := Cb(d, Enter, 0, false)]);
  }

  /** It locks the device mutex. */
  lemma LockAlone(cfg: Config, s: State, d: int, v: Dev) returns (t: State)
    requires Alone(cfg, s, d, v, map[]) && v.delivering && ClientAlive(s.main, d) && v.lock == Free
    ensures Alone(cfg, t, d, v.(lock := ByCallback(0)), map[0 := Cb(d, Check, 0, false)]) && t.main == s.main
  {
    var r := ArriveAlone(cfg, s, d, v);
    ReachableStep(cfg, r, CbStep(0, true));
    t := CbApply(r, 0, true);
    hide Reachable;
  }

  /** It goes all the way into an open driver. */
  lemma CallDriver(cfg: Config, s: State, d: int, v: Dev) returns (t: State, b: Cb)
    requires Alone(cfg, s, d, v, map[]) && v.delivering && ClientAlive(s.main, d) && v.lock == Free
    requires Sends(v, true)
    ensures b == Cb(d, Send, v.level, true)
    ensures Alone(cfg, t, d, v.(lock := ByCallback(0)), map[0 := b]) && t.main == s.main
  {
    var r := LockAlone(cfg, s, d, v);
    ReachableStep(cfg, r, CbStep(0, true));
    t := CbApply(r, 0, true);
    b := Cb(d, Send, v.level, true);
    hide Reachable;
  }
}
