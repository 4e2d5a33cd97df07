/**
 The driver life cycle as a transition system: one program counter for the main
 thread, one per device thread and one per MQTT callback in flight. A step is one
 access to shared state, so every interleaving of the real threads is a run.

 What the model takes from outside is the environment in `Config` and the
 arguments of the steps (whether a library loads, which handle a driver returns,
 whether a connect succeeds, when a signal or a callback arrives).
 */
module Lifecycle {

  /** One configured driver: `level` is the configured driver level, `reported`
      what the driver itself answers once it is connected. */
  datatype DevCfg = DevCfg(enabled: bool, level: int, reported: int)

  /** The answer as it is stored: the level field has eight bits. */
  function ReportedLevel(c: DevCfg): int { c.reported % 0x100 }

  /** `db`: the discovery database is open. `quiet`: an MQTT client whose connect
      failed has no callback in flight and delivers none later. `waits`: disconnect
      stops delivery and returns only when no callback is in flight; when false,
      callbacks may keep arriving after disconnect. */
  datatype Config = Config(devs: seq<DevCfg>, db: bool, quiet: bool, waits: bool)

  datatype DevPc =
    | Absent | Load | Resolve | Open | Connect | Connecting | GetLevel
    | LoopTest | Read | DiscLock | DiscBody | DiscUnlock | Publish
    | SetQuit | Disconnect | AwaitCallbacks | LockDev | Close | Zero | UnlockDev | Unload
    | FailClose | FailZero | FailUnload | Exited

  /** How a device thread ended, or is about to end. */
  datatype Fate =
    | Undecided | NoLibrary | WrongLevel | NoCanalOpen | NoEntry | OpenFailed | ConnectFailed | Worked

  datatype Lock = Free | ByDevice | ByCallback(c: int)

  /** The daemon's handle field, the driver's own view of that handle, the library, and
      how often the driver was closed and the library unloaded. */
  datatype Driver = Driver(handle: int, open: bool, loaded: bool, closes: int, unloads: int)

  /** What the main thread keeps of a device thread, and how often it created and joined one. */
  datatype Control = Control(started: bool, stopLock: bool, creates: int, joins: int)

  /** Publications and driver sends completed after the quit flag became true. */
  datatype Late = Late(pubs: int, sends: int)

  /** The shared fields of a device item and its thread's program counter. */
  datatype Dev = Dev(pc: DevPc, fate: Fate, quit: bool, delivering: bool, lock: Lock, level: int,
                     drv: Driver, ctl: Control, late: Late)

  datatype CbPc = Enter | Check | Send | Leave

  /** `via` is the driver level whose entry point the callback calls once it sends, `converted`
      the outcome of the event's conversion to CANAL, which only Level I asks for. */
  datatype Cb = Cb(dev: int, pc: CbPc, via: int, converted: bool)

  datatype MainPc =
    | Starting(i: int)
    | Running
    | Asking(round: int, i: int)
    | Locking(round: int, i: int)
    | Joining(round: int, i: int)
    | Unlocking(round: int, i: int)
    | DestroyMutex
    | DeleteItem(i: int)
    | DeleteClient(i: int)
    | Ended

  datatype Holder = Nobody | Device(d: int)

  datatype State = State(main: MainPc, devs: seq<Dev>, cbs: map<int, Cb>, disc: Holder)

  datatype Thread = Main | DevThread(d: int) | Callback(c: int) | Outside

  /** `ok` and `h` are what the outside world answers in that step. For a device thread at `Read`,
      `ok` means that the driver delivered an event and, at Level I, that it converts; at `Resolve`,
      an `h` of 0 means that the first entry point is among the missing ones. */
  datatype Step =
    | MainStep(ok: bool)
    | DevStep(d: int, ok: bool, h: int)
    | CbStep(c: int, ok: bool)
    | Arrive(c: int, d: int)
    | Idle

  function Owner(step: Step): Thread {
    match step
    case MainStep(_) => Main
    case DevStep(d, _, _) => DevThread(d)
    case CbStep(c, _) => Callback(c)
    case _ => Outside
  }

  // ---------------------------------------------------------------- initial state

  function FreshDev(c: DevCfg): Dev {
    Dev(Absent, Undecided, false, false, Free, c.level,
        Driver(0, false, false, 0, 0), Control(false, false, 0, 0), Late(0, 0))
  }

  function Init(cfg: Config): State {
    State(Starting(0), seq(|cfg.devs|, i requires 0 <= i < |cfg.devs| => FreshDev(cfg.devs[i])), map[], Nobody)
  }

  // ---------------------------------------------------------------- device thread

  predicate IsDriverLevel(level: int) { level == 1 || level == 2 }

  predicate Opens(level: int, h: int) {
    if level == 1 then h > 0 else h != 0
  }

  predicate Loading(pc: DevPc) {
    pc.Load? || pc.Resolve? || pc.Open?
  }

  predicate Connects(pc: DevPc) {
    pc.Connect? || pc.Connecting? || pc.GetLevel?
  }

  predicate Looping(pc: DevPc) {
    pc.LoopTest? || pc.Read? || pc.DiscLock? || pc.DiscBody? || pc.DiscUnlock? || pc.Publish? || pc.SetQuit?
  }

  predicate Closing(pc: DevPc) {
    pc.Disconnect? || pc.AwaitCallbacks? || pc.LockDev? || pc.Close? || pc.Zero? || pc.UnlockDev? || pc.Unload?
  }

  predicate Failing(pc: DevPc) {
    pc.FailClose? || pc.FailZero? || pc.FailUnload?
  }

  function CloseDriver(r: Driver): Driver { r.(open := false, closes := r.closes + 1) }

  function UnloadLibrary(r: Driver): Driver { r.(loaded := false, unloads := r.unloads + 1) }

  function LoadingNext(c: DevCfg, v: Dev, ok: bool, h: int): Dev
    requires Loading(v.pc)
  {
    match v.pc
    case Load => if ok then v.(pc := Resolve, drv := v.drv.(loaded := true)) else v.(pc := Exited, fate := NoLibrary)
    case Resolve =>
      if !IsDriverLevel(c.level) then v.(pc := Exited, fate := WrongLevel)
      else if ok then v.(pc := Open)
      else if c.level == 1 && h == 0 then v.(pc := Exited, fate := NoCanalOpen)
      else v.(pc := if c.level == 1 then FailUnload else Exited, fate := NoEntry)
    case Open =>
      if Opens(c.level, h) then v.(pc := Connect, drv := v.drv.(handle := h, open := true))
      else v.(pc := FailUnload, drv := v.drv.(handle := h), fate := OpenFailed)
  }

  function ConnectingNext(cfg: Config, c: DevCfg, v: Dev, ok: bool): Dev
    requires Connects(v.pc)
  {
    match v.pc
    case Connect => v.(pc := Connecting, delivering := true)
    case Connecting =>
      if ok then v.(pc := if c.level == 1 then GetLevel else LoopTest, fate := Worked)
      else v.(pc := if c.level == 1 then FailUnload else FailClose, fate := ConnectFailed, delivering := !cfg.quiet)
    case GetLevel => v.(pc := LoopTest, level := ReportedLevel(c))
  }

  function LoopNext(cfg: Config, v: Dev, ok: bool): Dev
    requires Looping(v.pc)
  {
    match v.pc
    case LoopTest => v.(pc := if v.quit then SetQuit else Read)
    case Read => v.(pc := if ok then DiscLock else LoopTest)
    case DiscLock => v.(pc := if cfg.db then DiscBody else Publish)
    case DiscBody => v.(pc := DiscUnlock)
    case DiscUnlock => v.(pc := Publish)
    case Publish => v.(pc := LoopTest, late := if v.quit then v.late.(pubs := v.late.pubs + 1) else v.late)
    case SetQuit => v.(pc := Disconnect, quit := true)
  }

  function ClosingNext(cfg: Config, v: Dev): Dev
    requires Closing(v.pc)
  {
    match v.pc
    case Disconnect => v.(pc := AwaitCallbacks, delivering := !cfg.waits)
    case AwaitCallbacks => v.(pc := LockDev)
    case LockDev => v.(pc := Close, lock := ByDevice)
    case Close => v.(pc := Zero, drv := CloseDriver(v.drv))
    case Zero => v.(pc := UnlockDev, drv := v.drv.(handle := 0))
    case UnlockDev => v.(pc := Unload, lock := Free)
    case Unload => v.(pc := Exited, drv := UnloadLibrary(v.drv))
  }

  function FailingNext(v: Dev): Dev
    requires Failing(v.pc)
  {
    match v.pc
    case FailClose => v.(pc := FailZero, drv := CloseDriver(v.drv))
    case FailZero => v.(pc := FailUnload, drv := v.drv.(handle := 0))
    case FailUnload => v.(pc := Exited, drv := UnloadLibrary(v.drv))
  }

  function DevNext(cfg: Config, c: DevCfg, v: Dev, ok: bool, h: int): Dev {
    if Loading(v.pc) then LoadingNext(c, v, ok, h)
    else if Connects(v.pc) then ConnectingNext(cfg, c, v, ok)
    else if Looping(v.pc) then LoopNext(cfg, v, ok)
    else if Closing(v.pc) then ClosingNext(cfg, v)
    else if Failing(v.pc) then FailingNext(v)
    else v
  }

  ghost predicate NoCallbacks(s: State, d: int) {
    forall c :: c in s.cbs ==> s.cbs[c].dev != d
  }

  ghost predicate DevGuard(cfg: Config, s: State, d: int, ok: bool) {
    && 0 <= d < |s.devs| == |cfg.devs|
    && s.devs[d].pc != Absent
    && s.devs[d].pc != Exited
    && (s.devs[d].pc == Connecting && cfg.quiet ==> ok || NoCallbacks(s, d))
    && (s.devs[d].pc == DiscLock && cfg.db ==> s.disc == Nobody)
    && (s.devs[d].pc == AwaitCallbacks && cfg.waits ==> NoCallbacks(s, d))
    && (s.devs[d].pc == LockDev ==> s.devs[d].lock == Free)
  }

  function DiscNext(cfg: Config, s: State, d: int): Holder
    requires 0 <= d < |s.devs|
  {
    if s.devs[d].pc == DiscLock && cfg.db then Device(d)
    else if s.devs[d].pc == DiscUnlock then Nobody
    else s.disc
  }

  function DevApply(cfg: Config, s: State, d: int, ok: bool, h: int): State
    requires 0 <= d < |s.devs| == |cfg.devs|
  {
    s.(devs := s.devs[d := DevNext(cfg, cfg.devs[d], s.devs[d], ok, h)], disc := DiscNext(cfg, s, d))
  }

  // ---------------------------------------------------------------- callbacks

  predicate CbGuard(s: State, c: int) {
    && c in s.cbs
    && 0 <= s.cbs[c].dev < |s.devs|
    && (s.cbs[c].pc == Enter ==> s.devs[s.cbs[c].dev].lock == Free)
  }

  /** After the check: is a driver entry point called? */
  predicate Sends(v: Dev, ok: bool) {
    && !v.quit
    && v.drv.handle != 0
    && ((v.level == 1 && ok) || v.level == 2)
  }

  function CbDev(v: Dev, c: int, b: Cb): Dev {
    match b.pc
    case Enter => v.(lock := ByCallback(c))
    case Check => v
    case Send => v.(late := if v.quit then v.late.(sends := v.late.sends + 1) else v.late)
    case Leave => v.(lock := Free)
  }

  function CbNext(v: Dev, b: Cb, ok: bool): Cb {
    match b.pc
    case Enter => b.(pc := Check)
    case Check => b.(pc := if Sends(v, ok) then Send else Leave, via := v.level, converted := ok)
    case Send => b.(pc := Leave)
    case Leave => b
  }

  function CbApply(s: State, c: int, ok: bool): State
    requires CbGuard(s, c)
  {
    var b := s.cbs[c];
    var v := s.devs[b.dev];
    s.(devs := s.devs[b.dev := CbDev(v, c, b)],
       cbs := if b.pc == Leave then s.cbs - {c} else s.cbs[c := CbNext(v, b, ok)])
  }

  // What is deleted when. The discovery mutex goes first; then, item by item, the mutexes in
  // the body of the item's destructor, and its MQTT client, a member, only after that.

  predicate DiscoveryAlive(m: MainPc) {
    !m.DeleteItem? && !m.DeleteClient? && m != Ended
  }

  predicate MutexAlive(m: MainPc, d: int) {
    match m
    case DeleteItem(i) => i <= d
    case DeleteClient(i) => i < d
    case Ended => false
    case _ => true
  }

  predicate ClientAlive(m: MainPc, d: int) {
    match m
    case DeleteItem(i) => i <= d
    case DeleteClient(i) => i <= d
    case Ended => false
    case _ => true
  }

  /** A callback arrives as long as its client exists and delivers. */
  predicate ArriveGuard(s: State, c: int, d: int) {
    && 0 <= d < |s.devs|
    && ClientAlive(s.main, d)
    && s.devs[d].delivering
    && c !in s.cbs
  }

  // ---------------------------------------------------------------- main thread

  predicate MainGuard(s: State) {
    match s.main
    case Locking(_, i) => 0 <= i < |s.devs|
    case Joining(_, i) => 0 <= i < |s.devs| && (s.devs[i].ctl.started ==> s.devs[i].pc == Exited)
    case Unlocking(_, i) => 0 <= i < |s.devs|
    case Ended => false
    case _ => true
  }

  function Create(v: Dev): Dev { v.(pc := Load, ctl := v.ctl.(creates := v.ctl.creates + 1, started := true)) }

  function Join(v: Dev): Dev {
    if v.ctl.started then v.(ctl := v.ctl.(started := false, joins := v.ctl.joins + 1)) else v
  }

  function SetStopLock(v: Dev, on: bool): Dev { v.(ctl := v.ctl.(stopLock := on)) }

  /** Round 0 is the cleanup at the end of the main loop, round 1 the one before the
      control object is deleted. */
  function MainApply(cfg: Config, s: State, ok: bool): State
    requires |s.devs| == |cfg.devs| && MainGuard(s)
  {
    match s.main
    case Starting(i) =>
      if !(0 <= i < |s.devs|) then s.(main := Running)
      else if cfg.devs[i].enabled && ok then s.(main := Starting(i + 1), devs := s.devs[i := Create(s.devs[i])])
      else s.(main := Starting(i + 1))
    case Running => s.(main := Asking(0, 0))
    case Asking(r, i) =>
      if !(0 <= i < |s.devs|) then s.(main := if r == 0 then Asking(1, 0) else DestroyMutex)
      else if cfg.devs[i].enabled then s.(main := Locking(r, i), devs := s.devs[i := s.devs[i].(quit := true)])
      else s.(main := Asking(r, i + 1))
    case Locking(r, i) => s.(main := Joining(r, i), devs := s.devs[i := SetStopLock(s.devs[i], true)])
    case Joining(r, i) => s.(main := Unlocking(r, i), devs := s.devs[i := Join(s.devs[i])])
    case Unlocking(r, i) => s.(main := Asking(r, i + 1), devs := s.devs[i := SetStopLock(s.devs[i], false)])
    case DestroyMutex => s.(main := DeleteItem(0))
    case DeleteItem(i) => s.(main := if 0 <= i < |s.devs| then DeleteClient(i) else Ended)
    case DeleteClient(i) => s.(main := DeleteItem(i + 1))
    case Ended => s
  }

  // ---------------------------------------------------------------- runs

  ghost predicate Enabled(cfg: Config, s: State, step: Step) {
    && |s.devs| == |cfg.devs|
    && match step
       case MainStep(_) => MainGuard(s)
       case DevStep(d, ok, _) => DevGuard(cfg, s, d, ok)
       case CbStep(c, _) => CbGuard(s, c)
       case Arrive(c, d) => ArriveGuard(s, c, d)
       case Idle => true
  }

  function Apply(cfg: Config, s: State, step: Step): (t: State)
    requires Enabled(cfg, s, step)
  {
    match step
    case MainStep(ok) => MainApply(cfg, s, ok)
    case DevStep(d, ok, h) => DevApply(cfg, s, d, ok, h)
    case CbStep(c, ok) => CbApply(s, c, ok)
    case Arrive(c, d) => s.(cbs := s.cbs[c := Cb(d, Enter, 0, false)])
    case Idle => s
  }

  /** The steps lead from `s` to `t`, each enabled when taken. */
  ghost predicate RunsTo(cfg: Config, s: State, steps: seq<Step>, t: State)
    decreases |steps|
  {
    if steps == [] then s == t
    else Enabled(cfg, s, steps[0]) && RunsTo(cfg, Apply(cfg, s, steps[0]), steps[1..], t)
  }

  ghost predicate Reachable(cfg: Config, s: State) {
    exists steps :: RunsTo(cfg, Init(cfg), steps, s)
  }

  lemma {:induction false} RunsToTrans(cfg: Config, s: State, xs: seq<Step>, t: State, ys: seq<Step>, u: State)
    requires RunsTo(cfg, s, xs, t) && RunsTo(cfg, t, ys, u)
    ensures RunsTo(cfg, s, xs + ys, u)
    decreases |xs|
  {
    if xs == [] {
      assert xs + ys == ys;
    } else {
      RunsToTrans(cfg, Apply(cfg, s, xs[0]), xs[1..], t, ys, u);
      assert (xs + ys)[1..] == xs[1..] + ys;
    }
  }

  lemma ReachableStep(cfg: Config, s: State, step: Step)
    requires Reachable(cfg, s) && Enabled(cfg, s, step)
    ensures Reachable(cfg, Apply(cfg, s, step))
  {
    var xs :| RunsTo(cfg, Init(cfg), xs, s);
    assert RunsTo(cfg, Apply(cfg, s, step), [step][1..], Apply(cfg, s, step));
    RunsToTrans(cfg, Init(cfg), xs, s, [step], Apply(cfg, s, step));
  }
}
