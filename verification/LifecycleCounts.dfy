/**
 What happens how often along a run: every event that a driver delivers is published once,
 after one hold of the discovery mutex; a work loop ends only on request; every enabled
 device is stopped twice.
 */
module LifecycleCounts {
  import opened Lifecycle
  import opened LifecycleInvariant
  import opened LifecycleGlobal
  import opened LifecycleRuns
  import opened LifecycleSafety

  /** What a step can do at device `d`: read an event, take or release the discovery mutex
      for it, or lock its thread mutex in order to stop it. */
  datatype Incident = EventRead | DiscoveryTaken | DiscoveryReleased | StopLocked

  predicate Happens(s: State, step: Step, t: State, d: int, e: Incident)
    requires 0 <= d < |s.devs| == |t.devs|
  {
    match e
    case EventRead => step.DevStep? && step.d == d && step.ok && s.devs[d].pc == Read
    case DiscoveryTaken => s.disc != Device(d) && t.disc == Device(d)
    case DiscoveryReleased => s.disc == Device(d) && t.disc != Device(d)
    case StopLocked => !s.devs[d].ctl.stopLock && t.devs[d].ctl.stopLock
  }

  ghost function Count(cfg: Config, s: State, steps: seq<Step>, d: int, e: Incident): nat
    decreases |steps|
  {
    if steps == [] || !Enabled(cfg, s, steps[0]) || !(0 <= d < |s.devs|) then 0
    else
      var t := Apply(cfg, s, steps[0]);
      (if |t.devs| == |s.devs| && Happens(s, steps[0], t, d, e) then 1 else 0) + Count(cfg, t, steps[1..], d, e)
  }

  // ---------------------------------------------------------------- reading and publishing

  function One(b: bool): nat { if b then 1 else 0 }

  /** An event has been read and not yet published. */
  predicate InFlight(pc: DevPc) {
    pc == DiscLock || pc == DiscBody || pc == DiscUnlock || pc == Publish
  }

  lemma DevStepCounts(cfg: Config, s: State, d: int, ok: bool, h: int)
    requires Inv(cfg, s) && Enabled(cfg, s, DevStep(d, ok, h))
    ensures var t, step := Apply(cfg, s, DevStep(d, ok, h)), DevStep(d, ok, h);
            && |t.devs| == |s.devs|
            && One(Happens(s, step, t, d, EventRead)) + One(InFlight(s.devs[d].pc))
               == One(s.devs[d].pc == Publish) + One(InFlight(t.devs[d].pc))
            && (cfg.db ==>
                  && One(Happens(s, step, t, d, EventRead)) + One(s.devs[d].pc == DiscLock)
                     == One(Happens(s, step, t, d, DiscoveryTaken)) + One(t.devs[d].pc == DiscLock)
                  && One(Happens(s, step, t, d, DiscoveryReleased)) + One(s.devs[d].pc == Publish)
                     == One(s.devs[d].pc == Publish) + One(t.devs[d].pc == Publish))
            && (!cfg.db ==> !Happens(s, step, t, d, DiscoveryTaken))
  {
    assert DiscInv(s);
    hide Inv, DevsInv, CbsInv, LockInv, MainInv;
    if Looping(s.devs[d].pc) {
    } else {
      OutsideLoop(cfg, cfg.devs[d], s.devs[d], ok, h);
      hide DevNext;
    }
  }

  lemma OutsideLoop(cfg: Config, c: DevCfg, v: Dev, ok: bool, h: int)
    requires !Looping(v.pc)
    ensures !InFlight(DevNext(cfg, c, v, ok, h).pc)
  {
  }

  /** Steps of others leave the device's place in its loop and its hold of the mutex alone. */
  lemma OtherStepCounts(cfg: Config, s: State, step: Step, d: int)
    requires Inv(cfg, s) && Enabled(cfg, s, step) && 0 <= d < |s.devs| && Owner(step) != DevThread(d)
    ensures var t := Apply(cfg, s, step);
            && |t.devs| == |s.devs|
            && (t.devs[d].pc == s.devs[d].pc || (s.devs[d].pc == Absent && t.devs[d].pc == Load))
            && !Happens(s, step, t, d, EventRead)
            && !Happens(s, step, t, d, DiscoveryTaken)
            && !Happens(s, step, t, d, DiscoveryReleased)
  {
    assert DiscInv(s);
    if step.CbStep? {
      CbDevFrame(s.devs[s.cbs[step.c].dev], step.c, s.cbs[step.c]);
    } else if step.DevStep? {
      assert HoldsDiscovery(s.devs[step.d].pc) <==> s.disc == Device(step.d);
    } else if step.MainStep? {
      assert s.main.Starting? && 0 <= s.main.i < |s.devs| ==> s.devs[s.main.i].pc == Absent;
    }
    hide DevNext, DevsInv, CbsInv, LockInv, CbDev, CbNext, StopInv, StopLocks;
  }

  lemma StepCounts(cfg: Config, s: State, step: Step, d: int)
    requires Inv(cfg, s) && Enabled(cfg, s, step) && 0 <= d < |s.devs|
    ensures var t := Apply(cfg, s, step);
            && |t.devs| == |s.devs|
            && One(Happens(s, step, t, d, EventRead)) + One(InFlight(s.devs[d].pc))
               == One(Owner(step) == DevThread(d) && s.devs[d].pc == Publish) + One(InFlight(t.devs[d].pc))
            && (cfg.db ==>
                  && One(Happens(s, step, t, d, EventRead)) + One(s.devs[d].pc == DiscLock)
                     == One(Happens(s, step, t, d, DiscoveryTaken)) + One(t.devs[d].pc == DiscLock)
                  && One(Happens(s, step, t, d, DiscoveryReleased)) + One(s.devs[d].pc == Publish)
                     == One(Owner(step) == DevThread(d) && s.devs[d].pc == Publish) + One(t.devs[d].pc == Publish))
            && (!cfg.db ==> !Happens(s, step, t, d, DiscoveryTaken))
  {
    hide Inv, Apply, Enabled, Happens;
    if Owner(step) == DevThread(d) {
      DevStepCounts(cfg, s, d, step.ok, step.h);
    } else {
      OtherStepCounts(cfg, s, step, d);
    }
  }

  lemma {:induction false} CountsAdd(cfg: Config, s: State, steps: seq<Step>, t: State, d: int)
    requires Inv(cfg, s) && RunsTo(cfg, s, steps, t) && 0 <= d < |s.devs|
    ensures |t.devs| == |s.devs|
    ensures Count(cfg, s, steps, d, EventRead) + One(InFlight(s.devs[d].pc))
         == Publications(cfg, s, steps, d) + One(InFlight(t.devs[d].pc))
    ensures cfg.db ==>
              Count(cfg, s, steps, d, EventRead) + One(s.devs[d].pc == DiscLock)
              == Count(cfg, s, steps, d, DiscoveryTaken) + One(t.devs[d].pc == DiscLock)
    ensures cfg.db ==>
              Count(cfg, s, steps, d, DiscoveryReleased) + One(s.devs[d].pc == Publish)
              == Publications(cfg, s, steps, d) + One(t.devs[d].pc == Publish)
    ensures !cfg.db ==> Count(cfg, s, steps, d, DiscoveryTaken) == 0
    decreases |steps|
  {
    if steps == [] {
    } else {
      StepCounts(cfg, s, steps[0], d);
      StepKeepsInv(cfg, s, steps[0]);
      hide Inv, Enabled, Apply, Happens, InFlight;
      CountsAdd(cfg, Apply(cfg, s, steps[0]), steps[1..], t, d);
    }
  }

  /** Main result. Along every run from the start, a device has published each event that its
      driver delivered once, but for one that is still in its thread's hands. With an open
      database each publication comes after a hold of the discovery mutex of its own, and the
      mutex is released before; without one the mutex is never taken. As this holds of every
      beginning of the run, reads, holds and publications alternate. */
  lemma EveryReadIsPublished(cfg: Config, steps: seq<Step>, s: State, d: int)
    requires RunsTo(cfg, Init(cfg), steps, s) && 0 <= d < |cfg.devs|
    ensures |s.devs| == |cfg.devs|
    ensures var pc, pubs := s.devs[d].pc, Publications(cfg, Init(cfg), steps, d);
            && Count(cfg, Init(cfg), steps, d, EventRead)
               == pubs + (if pc in {DiscLock, DiscBody, DiscUnlock, Publish} then 1 else 0)
            && (cfg.db ==>
                  && Count(cfg, Init(cfg), steps, d, DiscoveryTaken)
                     == pubs + (if pc in {DiscBody, DiscUnlock, Publish} then 1 else 0)
                  && Count(cfg, Init(cfg), steps, d, DiscoveryReleased) == pubs + (if pc == Publish then 1 else 0))
            && (!cfg.db ==> Count(cfg, Init(cfg), steps, d, DiscoveryTaken) == 0)
  {
    InitInv(cfg);
    CountsAdd(cfg, Init(cfg), steps, s, d);
  }

  // ---------------------------------------------------------------- the loop goes round

  /** The next step is taken and counted. */
  lemma Prepend(cfg: Config, s: State, step: Step, steps: seq<Step>, t: State, d: int)
    requires Enabled(cfg, s, step) && RunsTo(cfg, Apply(cfg, s, step), steps, t) && 0 <= d < |s.devs|
    ensures RunsTo(cfg, s, [step] + steps, t)
    ensures Publications(cfg, s, [step] + steps, d)
         == Publications(cfg, Apply(cfg, s, step), steps, d)
            + One(Owner(step) == DevThread(d) && s.devs[d].pc == Publish)
  {
    assert ([step] + steps)[1..] == steps;
  }

  /** Steps to the end of the turn. */
  function StepsLeft(pc: DevPc): nat {
    match pc
    case LoopTest => 6
    case Read => 5
    case DiscLock => 4
    case DiscBody => 3
    case DiscUnlock => 2
    case _ => 1
  }

  /** The rest of one turn of the loop, in which the driver delivers an event. */
  lemma {:induction false} TurnOnce(cfg: Config, s: State, d: int) returns (steps: seq<Step>, t: State)
    requires |s.devs| == |cfg.devs| && 0 <= d < |s.devs| && !s.devs[d].quit
    requires s.devs[d].pc == LoopTest || s.devs[d].pc == Read || InFlight(s.devs[d].pc)
    requires HoldsDiscovery(s.devs[d].pc) || s.disc == Nobody
    ensures RunsTo(cfg, s, steps, t) && Publications(cfg, s, steps, d) == 1
    ensures |t.devs| == |cfg.devs| && t.devs[d].pc == LoopTest && !t.devs[d].quit && t.disc == Nobody
    decreases StepsLeft(s.devs[d].pc)
  {
    var step := DevStep(d, true, 0);
    var next := Apply(cfg, s, step);
    if s.devs[d].pc == Publish {
      t := next;
      assert RunsTo(cfg, next, [], t) && Publications(cfg, next, [], d) == 0;
      Prepend(cfg, s, step, [], t, d);
      steps := [step] + [];
    } else {
      var rest;
      rest, t := TurnOnce(cfg, next, d);
      Prepend(cfg, s, step, rest, t, d);
      steps := [step] + rest;
    }
  }

  lemma {:induction false} TurnOften(cfg: Config, s: State, d: int, n: nat) returns (steps: seq<Step>, t: State)
    requires |s.devs| == |cfg.devs| && 0 <= d < |s.devs|
    requires s.devs[d].pc == LoopTest && !s.devs[d].quit && s.disc == Nobody
    ensures RunsTo(cfg, s, steps, t) && Publications(cfg, s, steps, d) == n
    decreases n
  {
    if n == 0 {
      steps, t := [], s;
    } else {
      var first, mid := TurnOnce(cfg, s, d);
      var rest;
      rest, t := TurnOften(cfg, mid, d, n - 1);
      RunsToTrans(cfg, s, first, mid, rest, t);
      PublicationsAdd(cfg, s, first, mid, rest, t, d);
      steps := first + rest;
    }
  }

  lemma {:induction false} PublicationsAdd(cfg: Config, s: State, xs: seq<Step>, t: State, ys: seq<Step>, u: State,
                                           d: int)
    requires RunsTo(cfg, s, xs, t) && RunsTo(cfg, t, ys, u) && 0 <= d < |s.devs|
    ensures Publications(cfg, s, xs + ys, d) == Publications(cfg, s, xs, d) + Publications(cfg, t, ys, d)
    decreases |xs|
  {
    if xs == [] {
      assert xs + ys == ys;
    } else {
      assert (xs + ys)[1..] == xs[1..] + ys;
      assert |Apply(cfg, s, xs[0]).devs| == |s.devs|;
      hide Enabled, Apply;
      PublicationsAdd(cfg, Apply(cfg, s, xs[0]), xs[1..], t, ys, u, d);
    }
  }

  ghost predicate Publishes(cfg: Config, d: int, n: nat) {
    exists s, steps, t ::
      Reachable(cfg, s) && RunsTo(cfg, s, steps, t) && 0 <= d < |s.devs| && Publications(cfg, s, steps, d) == n
  }

  /** Main result. Exactly the enabled devices of level 1 or 2 ever publish anything, and each of
      those can publish any number of events. */
  lemma PublishesIff(cfg: Config, d: int, n: nat)
    requires 0 <= d < |cfg.devs|
    ensures Publishes(cfg, d, n) <==>
              n == 0 || (cfg.devs[d].enabled && (cfg.devs[d].level == 1 || cfg.devs[d].level == 2))
  {
    if cfg.devs[d].enabled && IsDriverLevel(cfg.devs[d].level) {
      var s, v := ConnectAlone(cfg, d);
      s := AdvanceAlone(cfg, s, d, v, map[], true, 0);
      v := DevNext(cfg, cfg.devs[d], v, true, 0);
      if cfg.devs[d].level == 1 {
        s := AdvanceAlone(cfg, s, d, v, map[], true, 0);
      }
      var steps, t := TurnOften(cfg, s, d, n);
    } else if n == 0 {
      SkipTo(cfg, 0);
      assert RunsTo(cfg, Init(cfg), [], Init(cfg)) && Publications(cfg, Init(cfg), [], d) == 0;
    } else {
      forall s, steps, t | Reachable(cfg, s) && RunsTo(cfg, s, steps, t) && 0 <= d < |s.devs|
        ensures Publications(cfg, s, steps, d) == 0
      {
        ReachableInv(cfg, s);
        NeverPublishes(cfg, s, steps, t, d);
      }
    }
  }

  lemma {:induction false} NeverPublishes(cfg: Config, s: State, steps: seq<Step>, t: State, d: int)
    requires Inv(cfg, s) && RunsTo(cfg, s, steps, t) && 0 <= d < |s.devs|
    requires !(cfg.devs[d].enabled && IsDriverLevel(cfg.devs[d].level))
    ensures Publications(cfg, s, steps, d) == 0
    decreases |steps|
  {
    if steps == [] {
    } else {
      assert s.devs[d].pc != Publish by { assert Local(cfg, cfg.devs[d], s.devs[d]); }
      StepKeepsInv(cfg, s, steps[0]);
      InvSize(cfg, s);
      InvSize(cfg, Apply(cfg, s, steps[0]));
      hide Inv, Enabled, Apply;
      NeverPublishes(cfg, Apply(cfg, s, steps[0]), steps[1..], t, d);
    }
  }

  lemma InvSize(cfg: Config, s: State)
    requires Inv(cfg, s)
    ensures |s.devs| == |cfg.devs|
  {
  }

  // ---------------------------------------------------------------- stopping

  /** The main thread has asked the device to quit. */
  predicate Asked(m: MainPc, d: int) {
    match m
    case Starting(_) => false
    case Running => false
    case Asking(r, i) => r > 0 || i > d
    case Locking(r, i) => r > 0 || i >= d
    case Joining(r, i) => r > 0 || i >= d
    case Unlocking(r, i) => r > 0 || i >= d
    case _ => true
  }

  /** The quit flag is set, or about to be set by the thread itself. */
  predicate Quitting(v: Dev) { v.quit || v.pc == SetQuit }

  /** Neither comes before the request. */
  ghost predicate QuitInv(s: State, d: int) {
    0 <= d < |s.devs| && (Quitting(s.devs[d]) ==> Asked(s.main, d))
  }

  lemma DevNextQuitting(cfg: Config, c: DevCfg, v: Dev, ok: bool, h: int)
    ensures Quitting(DevNext(cfg, c, v, ok, h)) ==> Quitting(v)
    ensures DevNext(cfg, c, v, ok, h).ctl == v.ctl
  {
  }

  /** Only the main thread moves itself, locks thread mutexes and starts the quitting. */
  lemma NotMainFrame(cfg: Config, s: State, step: Step, d: int)
    requires Enabled(cfg, s, step) && !step.MainStep? && 0 <= d < |s.devs|
    ensures var t := Apply(cfg, s, step);
            && |t.devs| == |s.devs| && t.main == s.main && t.devs[d].ctl == s.devs[d].ctl
            && (Quitting(t.devs[d]) ==> Quitting(s.devs[d]))
  {
    if step.CbStep? {
      CbDevFrame(s.devs[s.cbs[step.c].dev], step.c, s.cbs[step.c]);
    } else if step.DevStep? {
      DevNextQuitting(cfg, cfg.devs[step.d], s.devs[step.d], step.ok, step.h);
    }
    hide DevNext, DiscNext, DevGuard, CbDev, CbNext;
  }

  lemma MainStepAsks(cfg: Config, s: State, ok: bool, d: int)
    requires |s.devs| == |cfg.devs| && MainInv(cfg, s) && MainGuard(s) && QuitInv(s, d)
    ensures QuitInv(MainApply(cfg, s, ok), d)
  {
    hide StoppedUpTo, StopLocks;
  }

  lemma StepKeepsQuitInv(cfg: Config, s: State, step: Step, d: int)
    requires Inv(cfg, s) && Enabled(cfg, s, step) && QuitInv(s, d)
    ensures QuitInv(Apply(cfg, s, step), d)
  {
    if step.MainStep? {
      MainStepAsks(cfg, s, step.ok, d);
    } else {
      NotMainFrame(cfg, s, step, d);
      hide Apply, Inv, Asked, Quitting;
    }
  }

  lemma {:induction false} RunKeepsQuitInv(cfg: Config, s: State, steps: seq<Step>, t: State, d: int)
    requires Inv(cfg, s) && RunsTo(cfg, s, steps, t) && QuitInv(s, d)
    ensures QuitInv(t, d)
    decreases |steps|
  {
    if steps == [] {
    } else {
      StepKeepsQuitInv(cfg, s, steps[0], d);
      StepKeepsInv(cfg, s, steps[0]);
      hide Inv, Enabled, Apply, QuitInv;
      RunKeepsQuitInv(cfg, Apply(cfg, s, steps[0]), steps[1..], t, d);
    }
  }

  /** Main result. A device thread that has entered its work loop leaves it, sets its quit flag,
      disconnects or exits only after the main thread has asked it to. */
  lemma LoopEndsOnlyOnRequest(cfg: Config, s: State, d: int)
    requires Reachable(cfg, s) && 0 <= d < |s.devs|
    ensures s.devs[d].quit ==> Asked(s.main, d)
    ensures s.devs[d].fate == Worked ==>
              s.devs[d].pc in {GetLevel, LoopTest, Read, DiscLock, DiscBody, DiscUnlock, Publish} || Asked(s.main, d)
  {
    ReachableInv(cfg, s);
    assert Local(cfg, cfg.devs[d], s.devs[d]);
    InitInv(cfg);
    var steps :| RunsTo(cfg, Init(cfg), steps, s);
    hide Inv;
    RunKeepsQuitInv(cfg, Init(cfg), steps, s, d);
  }

  /** How often the main thread has locked the thread mutex of an enabled device. */
  function Rounds(m: MainPc, d: int): int {
    match m
    case Starting(_) => 0
    case Running => 0
    case Asking(r, i) => r + One(i > d)
    case Locking(r, i) => r + One(i > d)
    case Joining(r, i) => r + One(i >= d)
    case Unlocking(r, i) => r + One(i >= d)
    case _ => 2
  }

  lemma MainStepCountsStops(cfg: Config, s: State, ok: bool, d: int)
    requires |s.devs| == |cfg.devs| && MainInv(cfg, s) && MainGuard(s) && 0 <= d < |s.devs|
    ensures var t := MainApply(cfg, s, ok);
            && |t.devs| == |s.devs|
            && var locked := !s.devs[d].ctl.stopLock && t.devs[d].ctl.stopLock;
               && (cfg.devs[d].enabled ==> Rounds(s.main, d) + One(locked) == Rounds(t.main, d))
               && (!cfg.devs[d].enabled ==> !locked)
  {
    hide StoppedUpTo;
  }

  lemma StepCountsStops(cfg: Config, s: State, step: Step, d: int)
    requires Inv(cfg, s) && Enabled(cfg, s, step) && 0 <= d < |s.devs|
    ensures var t := Apply(cfg, s, step);
            && |t.devs| == |s.devs|
            && (cfg.devs[d].enabled ==>
                  Rounds(s.main, d) + One(Happens(s, step, t, d, StopLocked)) == Rounds(t.main, d))
            && (!cfg.devs[d].enabled ==> !Happens(s, step, t, d, StopLocked))
  {
    if step.MainStep? {
      MainStepCountsStops(cfg, s, step.ok, d);
      hide MainApply, Inv, Rounds;
    } else {
      NotMainFrame(cfg, s, step, d);
      hide Apply, Inv, Rounds;
    }
  }

  lemma {:induction false} StopsAdd(cfg: Config, s: State, steps: seq<Step>, t: State, d: int)
    requires Inv(cfg, s) && RunsTo(cfg, s, steps, t) && 0 <= d < |s.devs|
    ensures cfg.devs[d].enabled ==> Rounds(s.main, d) + Count(cfg, s, steps, d, StopLocked) == Rounds(t.main, d)
    ensures !cfg.devs[d].enabled ==> Count(cfg, s, steps, d, StopLocked) == 0
    decreases |steps|
  {
    if steps == [] {
    } else {
      StepCountsStops(cfg, s, steps[0], d);
      StepKeepsInv(cfg, s, steps[0]);
      InvSize(cfg, s);
      hide Inv, Enabled, Apply, Happens, Rounds;
      StopsAdd(cfg, Apply(cfg, s, steps[0]), steps[1..], t, d);
    }
  }

  /** Main result. By the time anything is deleted the main thread has gone through stopping each
      enabled device exactly twice, at the start of the second cleanup exactly once, and it never
      does for a disabled one. */
  lemma StoppedTwice(cfg: Config, steps: seq<Step>, s: State, d: int)
    requires RunsTo(cfg, Init(cfg), steps, s) && 0 <= d < |cfg.devs|
    ensures !cfg.devs[d].enabled ==> Count(cfg, Init(cfg), steps, d, StopLocked) == 0
    ensures cfg.devs[d].enabled && s.main == Asking(1, 0) ==> Count(cfg, Init(cfg), steps, d, StopLocked) == 1
    ensures cfg.devs[d].enabled && Destroying(s.main) ==> Count(cfg, Init(cfg), steps, d, StopLocked) == 2
  {
    InitInv(cfg);
    StopsAdd(cfg, Init(cfg), steps, s, d);
    hide Inv, RunsTo, Count;
  }
}
