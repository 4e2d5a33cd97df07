/**
 Concurrent calls of discovery: each call is a thread of small steps, and any number of
 them interleave. They linearise: whenever the mutex is free, the shared state is what
 running the calls one at a time, in the order they took the mutex, would have left.
 */
module DiscoveryConcurrency {
  import opened Discovery

  datatype Pc = Waiting | Finding | Inserting | Publishing | Remembering | Unlocking | Done

  datatype Caller = Caller(call: Call, pc: Pc)

  datatype Mutex = Free | HeldBy(id: int)

  /** `order` lists the callers in the order in which they took the mutex. */
  datatype Machine = Machine(shared: Snapshot, callers: map<int, Caller>, mutex: Mutex, order: seq<int>)

  /** `Begin` is a device thread entering discovery, `Move` a caller's next step. */
  datatype Step = Begin(id: int, call: Call) | Move(id: int)

  predicate Able(m: Machine, step: Step) {
    match step
    case Begin(id, _) => id !in m.callers
    case Move(id) =>
      && id in m.callers && m.callers[id].pc != Done
      && (m.callers[id].pc == Waiting ==> m.mutex == Free)
  }

  function SetPc(m: Machine, id: int, pc: Pc): Machine
    requires id in m.callers
  {
    m.(callers := m.callers[id := m.callers[id].(pc := pc)])
  }

  function Next(m: Machine, step: Step): Machine
    requires Able(m, step)
  {
    match step
    case Begin(id, call) =>
      m.(callers := m.callers[id := Caller(call, if m.shared.running && m.shared.dbOpen then Waiting else Done)])
    case Move(id) =>
      var c := m.callers[id].call;
      match m.callers[id].pc
      case Waiting => SetPc(m, id, Finding).(mutex := HeldBy(id), order := m.order + [id])
      case Finding => SetPc(m, id, if c.guid in m.shared.names then Unlocking else Inserting)
      case Inserting =>
        if Inserts(m.shared, c) then SetPc(m, id, Publishing).(shared := AddRow(m.shared, c))
        else SetPc(m, id, Unlocking)
      case Publishing => SetPc(m, id, Remembering).(shared := Announce(m.shared, c))
      case Remembering => SetPc(m, id, Unlocking).(shared := Remember(m.shared, c))
      case Unlocking => SetPc(m, id, Done).(mutex := Free)
      case Done => m
  }

  predicate Inside(pc: Pc) { pc != Waiting && pc != Done }

  /** The shared state while a caller holds the mutex, `b` being the state it found. */
  predicate Halfway(b: Snapshot, c: Call, pc: Pc, s: Snapshot) {
    match pc
    case Finding => s == b
    case Inserting => s == b && c.guid !in b.names
    case Publishing => s == AddRow(b, c) && c.guid !in b.names && Inserts(b, c)
    case Remembering => s == Announce(AddRow(b, c), c) && c.guid !in b.names && Inserts(b, c)
    case Unlocking => s == Discover(b, c)
    case _ => false
  }

  /** The calls of `order`. */
  function CallsOf(m: Machine, order: seq<int>): (cs: seq<Call>)
    requires forall i :: 0 <= i < |order| ==> order[i] in m.callers
    ensures |cs| == |order| && forall i :: 0 <= i < |cs| ==> cs[i] == m.callers[order[i]].call
  {
    seq(|order|, i requires 0 <= i < |order| => m.callers[order[i]].call)
  }

  /** The callers in the order are those that took the mutex, each once. */
  ghost predicate OrderInv(m: Machine) {
    && (forall i :: 0 <= i < |m.order| ==> m.order[i] in m.callers && m.callers[m.order[i]].pc != Waiting)
    && Distinct(m.order)
    && (forall id :: id in m.callers && Inside(m.callers[id].pc) ==> m.mutex == HeldBy(id))
    && (m.mutex.HeldBy? ==> m.order != [] && m.order[|m.order| - 1] == m.mutex.id && Inside(m.callers[m.mutex.id].pc))
    && (forall id :: id in m.callers && m.callers[id].pc != Done ==> m.shared.running && m.shared.dbOpen)
    && (m.shared.running && m.shared.dbOpen ==>
          forall id :: id in m.callers && m.callers[id].pc != Waiting ==> id in m.order)
  }

  ghost predicate SharedInv(s0: Snapshot, m: Machine)
    requires OrderInv(m)
  {
    && m.shared.running == s0.running && m.shared.dbOpen == s0.dbOpen
    && (m.order != [] ==> s0.running && s0.dbOpen)
    && (match m.mutex
        case Free => m.shared == ExecCalls(s0, CallsOf(m, m.order))
        case HeldBy(id) =>
          Halfway(ExecCalls(s0, CallsOf(m, m.order[..|m.order| - 1])), m.callers[id].call, m.callers[id].pc, m.shared))
  }

  ghost predicate MachineInv(s0: Snapshot, m: Machine) {
    OrderInv(m) && SharedInv(s0, m)
  }

  lemma {:induction false} ExecCallsKeepsOpen(s: Snapshot, cs: seq<Call>)
    ensures ExecCalls(s, cs).running == s.running && ExecCalls(s, cs).dbOpen == s.dbOpen
    decreases |cs|
  {
    if cs == [] {
    } else {
      ExecCallsKeepsOpen(s, cs[..|cs| - 1]);
    }
  }

  lemma NextKeepsOrder(m: Machine, step: Step)
    requires OrderInv(m) && Able(m, step)
    requires m.order != [] ==> m.shared.running && m.shared.dbOpen
    ensures OrderInv(Next(m, step))
    ensures m.order <= Next(m, step).order
    ensures forall id :: id in m.callers ==>
              id in Next(m, step).callers && Next(m, step).callers[id].call == m.callers[id].call
  {
    if step.Move? && m.callers[step.id].pc == Waiting {
      assert step.id !in m.order;
    }
  }

  lemma CallsOfSame(m: Machine, t: Machine, order: seq<int>)
    requires forall i :: 0 <= i < |order| ==> order[i] in m.callers
    requires forall i :: 0 <= i < |order| ==> order[i] in t.callers
    requires forall id :: id in m.callers && id in t.callers ==> t.callers[id].call == m.callers[id].call
    ensures CallsOf(t, order) == CallsOf(m, order)
  {
    forall i | 0 <= i < |order| ensures CallsOf(t, order)[i] == CallsOf(m, order)[i] {
      var id := order[i];
      assert id in m.callers && id in t.callers;
      assert t.callers[id].call == m.callers[id].call;
    }
  }

  lemma LockKeepsShared(s0: Snapshot, m: Machine, id: int)
    requires MachineInv(s0, m) && Able(m, Move(id)) && m.callers[id].pc == Waiting
    ensures MachineInv(s0, Next(m, Move(id)))
  {
    var t := Next(m, Move(id));
    NextKeepsOrder(m, Move(id));
    CallsOfSame(m, t, m.order);
    assert t.order[..|t.order| - 1] == m.order;
  }

  lemma UnlockKeepsShared(s0: Snapshot, m: Machine, id: int)
    requires MachineInv(s0, m) && Able(m, Move(id)) && m.callers[id].pc == Unlocking
    ensures MachineInv(s0, Next(m, Move(id)))
  {
    var t := Next(m, Move(id));
    NextKeepsOrder(m, Move(id));
    CallsOfSame(m, t, m.order);
    var cs, n := CallsOf(t, t.order), |t.order| - 1;
    assert CallsOf(m, m.order[..n]) == cs[..n];
    assert cs[n] == m.callers[id].call;
  }

  lemma InsideKeepsShared(s0: Snapshot, m: Machine, id: int)
    requires MachineInv(s0, m) && Able(m, Move(id))
    requires Inside(m.callers[id].pc) && m.callers[id].pc != Unlocking
    ensures MachineInv(s0, Next(m, Move(id)))
  {
    var t, before := Next(m, Move(id)), m.order[..|m.order| - 1];
    NextKeepsOrder(m, Move(id));
    CallsOfSame(m, t, before);
    ExecCallsKeepsOpen(s0, CallsOf(m, before));
  }

  lemma BeginKeepsShared(s0: Snapshot, m: Machine, id: int, call: Call)
    requires MachineInv(s0, m) && Able(m, Begin(id, call))
    ensures MachineInv(s0, Next(m, Begin(id, call)))
  {
    var t := Next(m, Begin(id, call));
    NextKeepsOrder(m, Begin(id, call));
    CallsOfSame(m, t, m.order);
    if m.mutex.HeldBy? {
      CallsOfSame(m, t, m.order[..|m.order| - 1]);
    }
  }

  lemma NextKeepsInv(s0: Snapshot, m: Machine, step: Step)
    requires MachineInv(s0, m) && Able(m, step)
    ensures MachineInv(s0, Next(m, step))
  {
    hide MachineInv, Next;
    match step
    case Begin(id, call) => BeginKeepsShared(s0, m, id, call);
    case Move(id) =>
      if m.callers[id].pc == Waiting {
        LockKeepsShared(s0, m, id);
      } else if m.callers[id].pc == Unlocking {
        UnlockKeepsShared(s0, m, id);
      } else {
        InsideKeepsShared(s0, m, id);
      }
  }

  ghost predicate RunsTo(m: Machine, steps: seq<Step>, t: Machine)
    decreases |steps|
  {
    if steps == [] then m == t else Able(m, steps[0]) && RunsTo(Next(m, steps[0]), steps[1..], t)
  }

  function Fresh(s0: Snapshot): Machine {
    Machine(s0, map[], Free, [])
  }

  lemma {:induction false} RunKeepsInv(s0: Snapshot, m: Machine, steps: seq<Step>, t: Machine)
    requires MachineInv(s0, m) && RunsTo(m, steps, t)
    ensures MachineInv(s0, t)
    decreases |steps|
  {
    hide MachineInv, Next, Able;
    if steps == [] {
    } else {
      NextKeepsInv(s0, m, steps[0]);
      RunKeepsInv(s0, Next(m, steps[0]), steps[1..], t);
    }
  }

  /** Main result. In every interleaving of any number of calls, whenever the mutex is free
      the map, the table and the publication log are what the same calls, run one at a time in
      the order they took the mutex, leave; each call took it at most once, and a finished
      call on an open database took it. */
  lemma Linearises(s0: Snapshot, steps: seq<Step>, m: Machine)
    requires RunsTo(Fresh(s0), steps, m) && m.mutex == Free
    ensures OrderInv(m)
    ensures m.shared == ExecCalls(s0, CallsOf(m, m.order))
    ensures Distinct(m.order)
    ensures s0.running && s0.dbOpen ==> forall id :: id in m.callers && m.callers[id].pc == Done ==> id in m.order
  {
    RunKeepsInv(s0, Fresh(s0), steps, m);
  }

  /** Main result. So the records agree under concurrency: whenever the mutex is free, the
      map's keys are GUIDs of the table, nothing was announced twice, and rows, announcements
      and map keys have grown by the same GUIDs since the start. */
  lemma RecordsAgreeConcurrently(s0: Snapshot, steps: seq<Step>, m: Machine)
    requires Consistent(s0) && RunsTo(Fresh(s0), steps, m) && m.mutex == Free
    ensures Consistent(m.shared) && GrewTogether(s0, m.shared)
  {
    Linearises(s0, steps, m);
    RecordsAgree(s0, CallsOf(m, m.order));
  }

  /** The order respects real time: what has taken the mutex stays where it is in the order,
      so a call that finished before another began comes before it. */
  lemma {:induction false} OrderOnlyGrows(s0: Snapshot, m: Machine, steps: seq<Step>, t: Machine)
    requires MachineInv(s0, m) && RunsTo(m, steps, t)
    ensures m.order <= t.order
    decreases |steps|
  {
    if steps == [] {
    } else {
      NextKeepsInv(s0, m, steps[0]);
      hide MachineInv;
      OrderOnlyGrows(s0, Next(m, steps[0]), steps[1..], t);
    }
  }
}
