/**
 Discovery over the lives of many daemon processes on one database. Within a life any number
 of calls interleave step by step; a process may be killed at any step, whoever holds the
 mutex, and the next one starts on what the database holds.
 */
module DiscoveryRestarts {
  import opened Discovery
  import opened DiscoveryConcurrency

  datatype LifeStep = Within(step: Step) | Reboot(e: Boot)

  predicate LifeAble(m: Machine, l: LifeStep) {
    l.Within? ==> Able(m, l.step)
  }

  function LifeNext(m: Machine, l: LifeStep): Machine
    requires LifeAble(m, l)
  {
    match l
    case Within(step) => Next(m, step)
    case Reboot(e) => Fresh(Start(m.shared, e))
  }

  ghost predicate LifeRunsTo(m: Machine, ls: seq<LifeStep>, t: Machine)
    decreases |ls|
  {
    if ls == [] then m == t else LifeAble(m, ls[0]) && LifeRunsTo(LifeNext(m, ls[0]), ls[1..], t)
  }

  /** What a caller knows in the middle of its call. */
  ghost predicate MidCall(s: Snapshot, c: Caller) {
    match c.pc
    case Publishing => c.call.guid in Guids(s.rows) && c.call.guid !in s.log
    case Remembering => c.call.guid in Guids(s.rows)
    case _ => true
  }

  /** Holds in every state, whoever holds the mutex. */
  ghost predicate LifeInv(m: Machine) {
    && Consistent(m.shared)
    && (forall id :: id in m.callers ==> MidCall(m.shared, m.callers[id]))
    && (forall id :: id in m.callers && Inside(m.callers[id].pc) ==> m.mutex == HeldBy(id))
  }

  lemma FreshKeepsInv(s0: Snapshot)
    requires Consistent(s0)
    ensures LifeInv(Fresh(s0))
  {
  }

  /** Records only grow, nothing is announced twice, and no old announcement is delivered late. */
  ghost predicate Extends(s: Snapshot, t: Snapshot) {
    && Consistent(t)
    && s.log <= t.log
    && (forall g :: g in s.log ==> (g in t.delivered <==> g in s.delivered))
    && (forall g :: g in Guids(s.rows) ==> g in Guids(t.rows))
  }

  lemma AddRowExtends(s: Snapshot, c: Call)
    requires Consistent(s) && Inserts(s, c)
    ensures Extends(s, AddRow(s, c)) && MidCall(AddRow(s, c), Caller(c, Publishing))
  {
    GuidsAppend(s.rows, Row(c.now, c.guid, "discovered"));
    assert (Guids(s.rows) + [c.guid])[|s.rows|] == c.guid;
  }

  lemma AnnounceExtends(s: Snapshot, c: Call)
    requires Consistent(s) && MidCall(s, Caller(c, Publishing))
    ensures Extends(s, Announce(s, c))
  {
  }

  lemma RememberExtends(s: Snapshot, c: Call)
    requires Consistent(s) && MidCall(s, Caller(c, Remembering))
    ensures Extends(s, Remember(s, c))
  {
  }

  /** What a caller's step does to the shared state. */
  lemma MoveExtends(m: Machine, id: int)
    requires LifeInv(m) && Able(m, Move(id))
    ensures Extends(m.shared, Next(m, Move(id)).shared)
  {
    var c := m.callers[id];
    assert MidCall(m.shared, c);
    hide Consistent, Extends, AddRow, Announce, Remember;
    if c.pc == Inserting && Inserts(m.shared, c.call) {
      AddRowExtends(m.shared, c.call);
    } else if c.pc == Publishing {
      AnnounceExtends(m.shared, c.call);
    } else if c.pc == Remembering {
      RememberExtends(m.shared, c.call);
    } else {
      ExtendsItself(m.shared);
    }
  }

  lemma ExtendsItself(s: Snapshot)
    requires Consistent(s)
    ensures Extends(s, s)
  {
  }

  /** The caller that moves holds the mutex whenever it writes, so the others keep what they know. */
  lemma MoveKeepsCalls(m: Machine, id: int)
    requires LifeInv(m) && Able(m, Move(id))
    ensures LifeInv(Next(m, Move(id)))
  {
    MoveExtends(m, id);
    var c := m.callers[id];
    if c.pc == Inserting && Inserts(m.shared, c.call) {
      AddRowExtends(m.shared, c.call);
    }
    hide Consistent, Inserts;
  }

  lemma LifeStepExtends(m: Machine, l: LifeStep)
    requires LifeInv(m) && LifeAble(m, l)
    ensures LifeInv(LifeNext(m, l)) && Extends(m.shared, LifeNext(m, l).shared)
  {
    match l
    case Within(Begin(_, _)) =>
    case Within(Move(id)) =>
      MoveExtends(m, id);
      MoveKeepsCalls(m, id);
    case Reboot(e) => StartKeepsConsistent(m.shared, e);
  }

  /** Main result. Whatever calls interleave and whenever a process is killed and the next one
      started, with any failures, no GUID is announced twice, not even halfway through a call;
      announcements only accumulate, and one that the broker refused is never delivered later. */
  lemma {:induction false} AnnouncedAtMostOnceEver(m: Machine, ls: seq<LifeStep>, t: Machine)
    requires LifeInv(m) && LifeRunsTo(m, ls, t)
    ensures LifeInv(t) && Distinct(t.shared.log) && Extends(m.shared, t.shared)
    decreases |ls|
  {
    if ls == [] {
    } else {
      LifeStepExtends(m, ls[0]);
      AnnouncedAtMostOnceEver(LifeNext(m, ls[0]), ls[1..], t);
    }
  }

  // ---------------------------------------------------------------- what can still be announced

  ghost predicate AboutToAnnounce(m: Machine, g: string) {
    exists id :: id in m.callers && m.callers[id].pc == Publishing && m.callers[id].call.guid == g
  }

  /** Stored, not announced, and nobody about to do it. */
  ghost predicate Lost(m: Machine, g: string) {
    g in Guids(m.shared.rows) && g !in m.shared.log && !AboutToAnnounce(m, g)
  }

  lemma LostStays(m: Machine, l: LifeStep, g: string)
    requires LifeInv(m) && LifeAble(m, l) && Lost(m, g)
    ensures Lost(LifeNext(m, l), g)
  {
    LifeStepExtends(m, l);
    var t := LifeNext(m, l);
    forall id | id in t.callers && t.callers[id].pc == Publishing ensures t.callers[id].call.guid != g {
      if l == Within(Move(id)) {
        assert m.callers[id].pc == Inserting && m.callers[id].call == t.callers[id].call;
      } else {
        assert id in m.callers && m.callers[id] == t.callers[id];
      }
    }
  }

  lemma {:induction false} LostForever(m: Machine, ls: seq<LifeStep>, t: Machine, g: string)
    requires LifeInv(m) && LifeRunsTo(m, ls, t) && Lost(m, g)
    ensures Lost(t, g)
    decreases |ls|
  {
    if ls == [] {
    } else {
      LifeStepExtends(m, ls[0]);
      LostStays(m, ls[0], g);
      LostForever(LifeNext(m, ls[0]), ls[1..], t, g);
    }
  }

  /** A process killed between its insert and its announcement has stored a GUID that no later
      life ever announces. */
  lemma KilledBeforeAnnouncing(m: Machine, id: int, e: Boot, ls: seq<LifeStep>, t: Machine)
    requires LifeInv(m) && id in m.callers && m.callers[id].pc == Publishing
    requires LifeRunsTo(LifeNext(m, Reboot(e)), ls, t)
    ensures m.callers[id].call.guid in Guids(t.shared.rows) && m.callers[id].call.guid !in t.shared.log
  {
    LifeStepExtends(m, Reboot(e));
    assert Lost(LifeNext(m, Reboot(e)), m.callers[id].call.guid);
    LostForever(LifeNext(m, Reboot(e)), ls, t, m.callers[id].call.guid);
  }

  /** Some continuation has announced the GUID in the end. */
  ghost predicate EventuallyAnnounced(m: Machine, g: string) {
    exists ls, t :: LifeRunsTo(m, ls, t) && g in t.shared.log
  }

  /** A start under which everything works. */
  function GoodBoot(g: string): Boot {
    Boot(g + "'", "", true, false, true, true, 0, true, true, true)
  }

  /** A GUID that is not stored is announced by a call in the next life. */
  lemma AnnounceUnstored(m: Machine, g: string)
    requires LifeInv(m) && g !in Guids(m.shared.rows)
    ensures EventuallyAnnounced(m, g)
  {
    var call := Call(g, "", true, true);
    var e := GoodBoot(g);
    LifeStepExtends(m, Reboot(e));
    var m0 := LifeNext(m, Reboot(e));
    assert Guids([Row(e.now, e.self, "local-vscp-daemon")]) == [e.self];
    assert g !in Guids(m0.shared.rows) && m0.shared.running && m0.shared.dbOpen && m0.shared.hasTable;
    var m1 := Next(m0, Begin(0, call));
    var m2 := Next(m1, Move(0));
    var m3 := Next(m2, Move(0));
    var m4 := Next(m3, Move(0));
    var t := Next(m4, Move(0));
    assert t.shared.log[|t.shared.log| - 1] == g;
    hide Start, Next, LifeInv, Consistent;
    var ls := Prepend(m4, Within(Move(0)), [], t);
    ls := Prepend(m3, Within(Move(0)), ls, t);
    ls := Prepend(m2, Within(Move(0)), ls, t);
    ls := Prepend(m1, Within(Move(0)), ls, t);
    ls := Prepend(m0, Within(Begin(0, call)), ls, t);
    ls := Prepend(m, Reboot(e), ls, t);
    assert LifeRunsTo(m, ls, t) && g in t.shared.log;
  }

  lemma Prepend(m: Machine, l: LifeStep, ls: seq<LifeStep>, t: Machine) returns (all: seq<LifeStep>)
    requires LifeAble(m, l) && LifeRunsTo(LifeNext(m, l), ls, t)
    ensures LifeRunsTo(m, all, t)
  {
    all := [l] + ls;
    assert all[1..] == ls;
  }

  /** A caller that has stored its GUID announces it with its next step. */
  lemma AnnounceNow(m: Machine, g: string)
    requires LifeInv(m) && AboutToAnnounce(m, g)
    ensures EventuallyAnnounced(m, g)
  {
    var id :| id in m.callers && m.callers[id].pc == Publishing && m.callers[id].call.guid == g;
    var ls, t := [Within(Move(id))], LifeNext(m, Within(Move(id)));
    assert LifeRunsTo(t, ls[1..], t);
    assert t.shared.log[|m.shared.log|] == g;
    assert LifeRunsTo(m, ls, t) && g in t.shared.log;
  }

  /** Main result. What some continuation has announced in the end: exactly the GUIDs announced
      already, those about to be, and those not stored yet. A GUID that is stored without having
      been announced is lost to every later life. */
  lemma AnnouncedEventuallyIff(m: Machine, g: string)
    requires LifeInv(m)
    ensures EventuallyAnnounced(m, g) <==>
              g in m.shared.log || AboutToAnnounce(m, g) || g !in Guids(m.shared.rows)
  {
    if g in m.shared.log {
      assert LifeRunsTo(m, [], m) && g in m.shared.log;
    } else if AboutToAnnounce(m, g) {
      AnnounceNow(m, g);
    } else if g !in Guids(m.shared.rows) {
      AnnounceUnstored(m, g);
    } else {
      forall ls, t | LifeRunsTo(m, ls, t) ensures g !in t.shared.log {
        LostForever(m, ls, t, g);
      }
    }
  }
}
