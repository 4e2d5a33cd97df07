/**
 What every step of every interleaving keeps.
 */
module LifecycleInvariant {
  import opened Lifecycle

  // ---------------------------------------------------------------- one device

  /** The driver is open and its library loaded, and the daemon knows the handle. */
  predicate Opened(r: Driver) {
    r.open && r.loaded && r.handle != 0 && r.closes == 0 && r.unloads == 0
  }

  predicate NeverOpened(r: Driver) {
    !r.open && r.closes == 0
  }

  predicate ClosedOnce(r: Driver) {
    !r.open && r.closes == 1
  }

  predicate UnloadedOnce(r: Driver) {
    !r.loaded && r.unloads == 1
  }

  predicate StillLoaded(r: Driver) {
    r.loaded && r.unloads == 0
  }

  /** Between the check of the quit flag and the end of the publication. */
  predicate Publishing(pc: DevPc) {
    pc.Read? || pc.DiscLock? || pc.DiscBody? || pc.DiscUnlock? || pc.Publish?
  }

  predicate HoldsDevice(pc: DevPc) {
    pc.Close? || pc.Zero? || pc.UnlockDev?
  }

  predicate HoldsDiscovery(pc: DevPc) {
    pc.DiscBody? || pc.DiscUnlock?
  }

  /** How a run that did not reach the work loop leaves the handle. */
  predicate Spoilt(level: int, fate: Fate, r: Driver) {
    match fate
    case NoEntry => NeverOpened(r) && r.handle == 0 && level == 1
    case OpenFailed => NeverOpened(r) && !Opens(level, r.handle)
    case ConnectFailed =>
      if level == 1 then r.open && r.closes == 0 && r.handle != 0 else ClosedOnce(r) && r.handle == 0
    case _ => false
  }

  /** Where a finished thread left the handle and the library. */
  predicate Ending(level: int, fate: Fate, r: Driver) {
    match fate
    case Undecided => false
    case NoLibrary => NeverOpened(r) && !r.loaded && r.unloads == 0 && r.handle == 0
    case WrongLevel => NeverOpened(r) && StillLoaded(r) && r.handle == 0 && !IsDriverLevel(level)
    case NoCanalOpen => NeverOpened(r) && StillLoaded(r) && r.handle == 0 && level == 1
    case NoEntry =>
      NeverOpened(r) && r.handle == 0 && IsDriverLevel(level)
      && if level == 2 then StillLoaded(r) else UnloadedOnce(r)
    case Worked => ClosedOnce(r) && UnloadedOnce(r) && r.handle == 0
    case _ => UnloadedOnce(r) && Spoilt(level, fate, r)
  }

  predicate DriverInv(level: int, pc: DevPc, fate: Fate, r: Driver) {
    match pc
    case Absent => NeverOpened(r) && !r.loaded && r.unloads == 0 && r.handle == 0
    case Load => NeverOpened(r) && !r.loaded && r.unloads == 0 && r.handle == 0
    case Resolve => NeverOpened(r) && StillLoaded(r) && r.handle == 0
    case Open => NeverOpened(r) && StillLoaded(r) && r.handle == 0 && IsDriverLevel(level)
    case Zero => ClosedOnce(r) && StillLoaded(r) && r.handle != 0
    case UnlockDev => ClosedOnce(r) && StillLoaded(r) && r.handle == 0
    case Unload => ClosedOnce(r) && StillLoaded(r) && r.handle == 0
    case FailZero => ClosedOnce(r) && StillLoaded(r) && r.handle != 0
    case FailUnload => StillLoaded(r) && Spoilt(level, fate, r)
    case Exited => Ending(level, fate, r)
    case _ => Opened(r)
  }

  predicate FateInv(level: int, pc: DevPc, fate: Fate, quit: bool) {
    && (pc == Absent || Loading(pc) || pc == Connect || pc == Connecting ==> fate == Undecided)
    && (pc == GetLevel ==> level == 1)
    && (pc == GetLevel || Looping(pc) || Closing(pc) ==> fate == Worked)
    && (Failing(pc) && pc != FailUnload ==> fate == ConnectFailed && level != 1)
    && (fate == Worked && (Closing(pc) || pc == Exited) ==> quit)
    && (fate == Worked || fate == ConnectFailed || pc == Connect || pc == Connecting ==> IsDriverLevel(level))
    && (fate == Worked ==> pc == GetLevel || Looping(pc) || Closing(pc) || pc == Exited)
  }

  predicate ControlInv(c: DevCfg, pc: DevPc, k: Control) {
    && (pc == Absent <==> k.creates == 0)
    && 0 <= k.creates <= 1
    && 0 <= k.joins
    && k.joins + (if k.started then 1 else 0) == k.creates
    && (k.joins > 0 ==> pc == Exited)
    && (k.creates > 0 ==> c.enabled)
  }

  predicate LateInv(pc: DevPc, quit: bool, l: Late) {
    && (!quit ==> l.pubs == 0 && l.sends == 0)
    && l.pubs + (if Publishing(pc) then 1 else 0) <= 1
    && 0 <= l.pubs
    && 0 <= l.sends <= 1
  }

  /** Where a callback can be in flight at all. */
  predicate Serving(cfg: Config, pc: DevPc, fate: Fate) {
    pc == Connecting || fate == Worked || (fate == ConnectFailed && !cfg.quiet)
  }

  /** Callbacks may enter between the start of connect and, with a client that waits,
      the start of disconnect. */
  predicate DeliveryInv(cfg: Config, pc: DevPc, fate: Fate, delivering: bool) {
    && (pc == Connecting ==> delivering)
    && (delivering ==> Serving(cfg, pc, fate))
    && (delivering && cfg.waits && fate == Worked ==> pc == GetLevel || Looping(pc) || pc == Disconnect)
  }

  predicate ThreadInv(c: DevCfg, v: Dev) {
    DriverInv(c.level, v.pc, v.fate, v.drv) && FateInv(c.level, v.pc, v.fate, v.quit)
  }

  predicate ItemInv(cfg: Config, c: DevCfg, v: Dev) {
    && ControlInv(c, v.pc, v.ctl)
    && LateInv(v.pc, v.quit, v.late)
    && DeliveryInv(cfg, v.pc, v.fate, v.delivering)
    && (v.lock == ByDevice <==> HoldsDevice(v.pc))
    && (v.level == c.level || (c.level == 1 && v.level == ReportedLevel(c)))
  }

  /** What holds of one device item whatever the others do. */
  predicate Local(cfg: Config, c: DevCfg, v: Dev) {
    ThreadInv(c, v) && ItemInv(cfg, c, v)
  }

  lemma LoadingKeepsDriver(c: DevCfg, v: Dev, ok: bool, h: int)
    requires DriverInv(c.level, v.pc, v.fate, v.drv) && Loading(v.pc)
    ensures var w := LoadingNext(c, v, ok, h); DriverInv(c.level, w.pc, w.fate, w.drv)
  {
  }

  lemma LoadingKeepsFate(c: DevCfg, v: Dev, ok: bool, h: int)
    requires ThreadInv(c, v) && Loading(v.pc)
    ensures var w := LoadingNext(c, v, ok, h); FateInv(c.level, w.pc, w.fate, w.quit)
  {
  }

  lemma ConnectingKeepsThread(cfg: Config, c: DevCfg, v: Dev, ok: bool)
    requires ThreadInv(c, v) && Connects(v.pc)
    ensures ThreadInv(c, ConnectingNext(cfg, c, v, ok))
  {
  }

  lemma LoopKeepsDriver(cfg: Config, c: DevCfg, v: Dev, ok: bool)
    requires DriverInv(c.level, v.pc, v.fate, v.drv) && Looping(v.pc)
    ensures var w := LoopNext(cfg, v, ok); DriverInv(c.level, w.pc, w.fate, w.drv)
  {
  }

  lemma LoopKeepsFate(cfg: Config, c: DevCfg, v: Dev, ok: bool)
    requires FateInv(c.level, v.pc, v.fate, v.quit) && Looping(v.pc)
    ensures var w := LoopNext(cfg, v, ok); FateInv(c.level, w.pc, w.fate, w.quit)
  {
  }

  lemma ClosingKeepsThread(cfg: Config, c: DevCfg, v: Dev)
    requires ThreadInv(c, v) && Closing(v.pc)
    ensures ThreadInv(c, ClosingNext(cfg, v))
  {
  }

  lemma FailingKeepsThread(c: DevCfg, v: Dev)
    requires ThreadInv(c, v) && Failing(v.pc)
    ensures ThreadInv(c, FailingNext(v))
  {
  }

  lemma LoadingKeepsItem(cfg: Config, c: DevCfg, v: Dev, ok: bool, h: int)
    requires ItemInv(cfg, c, v) && FateInv(c.level, v.pc, v.fate, v.quit) && Loading(v.pc)
    ensures ItemInv(cfg, c, LoadingNext(c, v, ok, h))
  {
  }

  lemma ConnectingKeepsItem(cfg: Config, c: DevCfg, v: Dev, ok: bool)
    requires ItemInv(cfg, c, v) && FateInv(c.level, v.pc, v.fate, v.quit) && Connects(v.pc)
    ensures ItemInv(cfg, c, ConnectingNext(cfg, c, v, ok))
  {
  }

  lemma LoopKeepsItem(cfg: Config, c: DevCfg, v: Dev, ok: bool)
    requires ItemInv(cfg, c, v) && FateInv(c.level, v.pc, v.fate, v.quit) && Looping(v.pc)
    ensures ItemInv(cfg, c, LoopNext(cfg, v, ok))
  {
  }

  lemma ClosingKeepsItem(cfg: Config, c: DevCfg, v: Dev)
    requires ItemInv(cfg, c, v) && FateInv(c.level, v.pc, v.fate, v.quit) && Closing(v.pc)
    requires v.pc == LockDev ==> v.lock == Free
    ensures ItemInv(cfg, c, ClosingNext(cfg, v))
  {
  }

  lemma FailingKeepsItem(cfg: Config, c: DevCfg, v: Dev)
    requires ItemInv(cfg, c, v) && FateInv(c.level, v.pc, v.fate, v.quit) && Failing(v.pc)
    ensures ItemInv(cfg, c, FailingNext(v))
  {
  }

  lemma DevNextKeepsLocal(cfg: Config, c: DevCfg, v: Dev, ok: bool, h: int)
    requires Local(cfg, c, v)
    requires v.pc == LockDev ==> v.lock == Free
    ensures Local(cfg, c, DevNext(cfg, c, v, ok, h))
  {
    hide DriverInv, FateInv, ItemInv;
    if Loading(v.pc) {
      LoadingKeepsDriver(c, v, ok, h);
      LoadingKeepsFate(c, v, ok, h);
      LoadingKeepsItem(cfg, c, v, ok, h);
    } else if Connects(v.pc) {
      ConnectingKeepsThread(cfg, c, v, ok);
      ConnectingKeepsItem(cfg, c, v, ok);
    } else if Looping(v.pc) {
      LoopKeepsDriver(cfg, c, v, ok);
      LoopKeepsFate(cfg, c, v, ok);
      LoopKeepsItem(cfg, c, v, ok);
    } else if Closing(v.pc) {
      ClosingKeepsThread(cfg, c, v);
      ClosingKeepsItem(cfg, c, v);
    } else if Failing(v.pc) {
      FailingKeepsThread(c, v);
      FailingKeepsItem(cfg, c, v);
    }
  }

  // ---------------------------------------------------------------- one callback and its device

  /** The device has disconnected or never connected: no callback of a quiet client
      that waits can be in flight. */
  predicate Gone(pc: DevPc) {
    pc == Exited || Failing(pc) || (Closing(pc) && pc != Disconnect && pc != AwaitCallbacks)
  }

  /** The level a callback dispatches on is the configured one or the reported one; a Level I
      driver is only handed a converted event. */
  predicate ViaInv(c: DevCfg, b: Cb) {
    && IsDriverLevel(b.via)
    && (b.via == c.level || (c.level == 1 && b.via == ReportedLevel(c)))
    && (b.via == 1 ==> b.converted)
  }

  predicate CbLocal(cfg: Config, c: DevCfg, v: Dev, id: int, b: Cb) {
    && (b.pc != Enter ==> v.lock == ByCallback(id))
    && (b.pc == Send ==> v.late.sends == 0 && ViaInv(c, b))
    && Serving(cfg, v.pc, v.fate)
    && (cfg.quiet && b.pc == Send ==> Opened(v.drv))
    && (cfg.quiet && cfg.waits ==> !Gone(v.pc))
  }

  lemma ConnectingKeepsCb(cfg: Config, c: DevCfg, v: Dev, id: int, b: Cb, ok: bool)
    requires Local(cfg, c, v) && CbLocal(cfg, c, v, id, b) && Connects(v.pc)
    requires v.pc == Connecting && cfg.quiet ==> ok
    ensures CbLocal(cfg, c, ConnectingNext(cfg, c, v, ok), id, b)
  {
  }

  lemma LoopKeepsCb(cfg: Config, c: DevCfg, v: Dev, id: int, b: Cb, ok: bool)
    requires FateInv(c.level, v.pc, v.fate, v.quit) && CbLocal(cfg, c, v, id, b) && Looping(v.pc)
    ensures CbLocal(cfg, c, LoopNext(cfg, v, ok), id, b)
  {
  }

  lemma ClosingKeepsCb(cfg: Config, c: DevCfg, v: Dev, id: int, b: Cb)
    requires Local(cfg, c, v) && CbLocal(cfg, c, v, id, b) && Closing(v.pc)
    requires v.pc == LockDev ==> v.lock == Free
    requires v.pc == AwaitCallbacks ==> !cfg.waits
    ensures CbLocal(cfg, c, ClosingNext(cfg, v), id, b)
  {
  }

  lemma FailingKeepsCb(cfg: Config, c: DevCfg, v: Dev, id: int, b: Cb)
    requires Local(cfg, c, v) && CbLocal(cfg, c, v, id, b) && Failing(v.pc)
    ensures CbLocal(cfg, c, FailingNext(v), id, b)
  {
  }

  lemma DevNextKeepsCb(cfg: Config, c: DevCfg, v: Dev, id: int, b: Cb, ok: bool, h: int)
    requires Local(cfg, c, v) && CbLocal(cfg, c, v, id, b)
    requires v.pc == LockDev ==> v.lock == Free
    requires v.pc == Connecting && cfg.quiet ==> ok
    requires v.pc == AwaitCallbacks ==> !cfg.waits
    ensures CbLocal(cfg, c, DevNext(cfg, c, v, ok, h), id, b)
  {
    if Loading(v.pc) {
      assert false; // no callback before connect
    } else if Connects(v.pc) {
      ConnectingKeepsCb(cfg, c, v, id, b, ok);
    } else if Looping(v.pc) {
      LoopKeepsCb(cfg, c, v, id, b, ok);
    } else if Closing(v.pc) {
      ClosingKeepsCb(cfg, c, v, id, b);
    } else if Failing(v.pc) {
      FailingKeepsCb(cfg, c, v, id, b);
    }
  }

  /** A callback's own step: the device item and the callback itself. */
  lemma CbNextKeeps(cfg: Config, c: DevCfg, v: Dev, id: int, b: Cb, ok: bool)
    requires Local(cfg, c, v) && CbLocal(cfg, c, v, id, b)
    requires b.pc == Enter ==> v.lock == Free
    ensures Local(cfg, c, CbDev(v, id, b))
    ensures b.pc != Leave ==> CbLocal(cfg, c, CbDev(v, id, b), id, CbNext(v, b, ok))
  {
  }

  /** A callback's step leaves the other callbacks of its device as they were. */
  lemma CbNextKeepsOthers(cfg: Config, c: DevCfg, v: Dev, id: int, b: Cb, other: int, o: Cb)
    requires CbLocal(cfg, c, v, id, b) && CbLocal(cfg, c, v, other, o) && id != other
    requires b.pc == Enter ==> v.lock == Free
    ensures CbLocal(cfg, c, CbDev(v, id, b), other, o)
  {
  }
}
