/**
 Data races on the two plain fields that device threads and callbacks share: the driver level
 and the driver handle. A race is a state in which one thread's next step writes the field and
 another thread's next step reads it.
 */
module LifecycleRaces {
  import opened Lifecycle
  import opened LifecycleInvariant
  import opened LifecycleGlobal
  import opened LifecycleRuns

  predicate WritesLevel(pc: DevPc) { pc == GetLevel }

  predicate WritesHandle(pc: DevPc) { pc == Open || pc == Zero || pc == FailZero }

  /** The check looks at the quit flag first, then at the handle, then at the level. */
  predicate ReadsLevel(v: Dev, b: Cb) { b.pc == Check && !v.quit && v.drv.handle != 0 }

  predicate ReadsHandle(v: Dev, b: Cb) { (b.pc == Check && !v.quit) || b.pc == Send }

  ghost predicate LevelRace(s: State, d: int) {
    && 0 <= d < |s.devs| && WritesLevel(s.devs[d].pc)
    && exists c :: c in s.cbs && s.cbs[c].dev == d && ReadsLevel(s.devs[d], s.cbs[c])
  }

  ghost predicate HandleRace(s: State, d: int) {
    && 0 <= d < |s.devs| && WritesHandle(s.devs[d].pc)
    && exists c :: c in s.cbs && s.cbs[c].dev == d && ReadsHandle(s.devs[d], s.cbs[c])
  }

  /** A Level I thread stores the reported level without the mutex under which callbacks read it. */
  lemma LevelRaceRun(cfg: Config, d: int) returns (s: State)
    requires 0 <= d < |cfg.devs| && cfg.devs[d].enabled && cfg.devs[d].level == 1
    ensures Reachable(cfg, s) && LevelRace(s, d)
  {
    var v;
    s, v := ConnectAlone(cfg, d);
    s := LockAlone(cfg, s, d, v);
    s := AdvanceAlone(cfg, s, d, v.(lock := ByCallback(0)), map[0 := Cb(d, Check, 0, false)], true, 0);
    assert ReadsLevel(s.devs[d], s.cbs[0]);
  }

  /** A Level II thread whose connect failed clears the handle without the mutex. */
  lemma HandleRaceRun(cfg: Config, d: int) returns (s: State)
    requires 0 <= d < |cfg.devs| && cfg.devs[d].enabled && cfg.devs[d].level == 2 && !cfg.quiet
    ensures Reachable(cfg, s) && HandleRace(s, d)
  {
    var v;
    s, v := ConnectAlone(cfg, d);
    s := LockAlone(cfg, s, d, v);
    v := v.(lock := ByCallback(0));
    s := AdvanceAlone(cfg, s, d, v, map[0 := Cb(d, Check, 0, false)], false, 0);
    v := DevNext(cfg, cfg.devs[d], v, false, 0);
    s := AdvanceAlone(cfg, s, d, v, map[0 := Cb(d, Check, 0, false)], true, 0);
    assert ReadsHandle(s.devs[d], s.cbs[0]);
  }

  /** Main result. When the two fields are free of races in every interleaving: the level if and
      only if the device is disabled or not of Level I, the handle if and only if clients are
      quiet after a failed connect or the device is disabled or not of Level II. */
  lemma RaceFreeIff(cfg: Config, d: int)
    requires 0 <= d < |cfg.devs|
    ensures (forall s :: Reachable(cfg, s) ==> !LevelRace(s, d)) <==> !(cfg.devs[d].enabled && cfg.devs[d].level == 1)
    ensures (forall s :: Reachable(cfg, s) ==> !HandleRace(s, d)) <==>
              cfg.quiet || !(cfg.devs[d].enabled && cfg.devs[d].level == 2)
  {
    forall s | Reachable(cfg, s)
      ensures LevelRace(s, d) ==> cfg.devs[d].enabled && cfg.devs[d].level == 1
      ensures HandleRace(s, d) ==> !cfg.quiet && cfg.devs[d].enabled && cfg.devs[d].level == 2
    {
      ReachableInv(cfg, s);
      assert Local(cfg, cfg.devs[d], s.devs[d]);
    }
    if cfg.devs[d].enabled && cfg.devs[d].level == 1 {
      var s := LevelRaceRun(cfg, d);
    }
    if cfg.devs[d].enabled && cfg.devs[d].level == 2 && !cfg.quiet {
      var s := HandleRaceRun(cfg, d);
    }
  }
}
