/**
 The heartbeat of the main loop. Times are whole seconds of the real-time clock; each turn
 of the loop reads the clock once, and once more when it fires.
 */
module Heartbeat {

  const PERIOD := 60

  /** One turn: `now` is compared, `saved` is the second reading, kept if the turn fires. */
  datatype Turn = Turn(now: int, saved: int)

  /** The clock never runs backwards: not from the start, within a turn, or between turns. */
  predicate ForwardFrom(start: int, turns: seq<Turn>) {
    && (forall i :: 0 <= i < |turns| ==> start <= turns[i].now <= turns[i].saved)
    && forall i, j :: 0 <= i < j < |turns| ==> turns[i].saved <= turns[j].now
  }

  /** The time saved by the last heartbeat, or 60 seconds before the start. */
  function LastBeat(start: int, beats: seq<int>): int {
    if beats == [] then start - PERIOD else beats[|beats| - 1]
  }

  /** The times saved by the heartbeats of a run, one rule per turn. */
  function Beats(start: int, turns: seq<Turn>): seq<int> {
    if turns == [] then []
    else
      var before, turn := Beats(start, turns[..|turns| - 1]), turns[|turns| - 1];
      if turn.now - LastBeat(start, before) > PERIOD then before + [turn.saved] else before
  }

  /** The main loop until it sees the quit flag. */
  method MainLoop(start: int, turns: seq<Turn>) returns (beats: seq<int>)
    ensures beats == Beats(start, turns)
  {
    var oldNow := start - PERIOD;
    beats := [];
    var i := 0;
    while i < |turns|
      invariant 0 <= i <= |turns|
      invariant beats == Beats(start, turns[..i]) && oldNow == LastBeat(start, beats)
    {
      assert turns[..i + 1][..i] == turns[..i];
      if turns[i].now - oldNow > PERIOD {
        oldNow := turns[i].saved;
        beats := beats + [oldNow];
      }
      i := i + 1;
    }
    assert turns[..|turns|] == turns;
  }

  /** Saved times are readings of the run. */
  lemma {:induction false} BeatsAreReadings(start: int, turns: seq<Turn>, i: nat) returns (j: nat)
    requires i < |Beats(start, turns)|
    ensures j < |turns| && Beats(start, turns)[i] == turns[j].saved
    decreases |turns|
  {
    var n := |turns| - 1;
    if i == |Beats(start, turns[..n])| {
      j := n;
    } else {
      j := BeatsAreReadings(start, turns[..n], i);
    }
  }

  /** Heartbeats are at least 61 seconds apart, the first at least one second after the start. */
  lemma {:induction false} BeatsApart(start: int, turns: seq<Turn>)
    requires ForwardFrom(start, turns)
    ensures var b := Beats(start, turns);
            && (b != [] ==> b[0] >= start + 1)
            && (forall i :: 0 <= i < |b| - 1 ==> b[i] + 61 <= b[i + 1])
    decreases |turns|
  {
    if turns == [] {
    } else {
      BeatsApart(start, turns[..|turns| - 1]);
    }
  }

  lemma {:induction false} BeatsSpread(start: int, turns: seq<Turn>, k: nat)
    requires ForwardFrom(start, turns) && k < |Beats(start, turns)|
    ensures Beats(start, turns)[k] >= start + 1 + 61 * k
    decreases k
  {
    BeatsApart(start, turns);
    if k == 0 {
    } else {
      BeatsSpread(start, turns, k - 1);
    }
  }

  /** Main result. With k heartbeats between the start and any later time t,
      61 * k <= (t - start) + 60. */
  lemma BeatsBounded(start: int, turns: seq<Turn>, t: int)
    requires ForwardFrom(start, turns) && start <= t && (turns != [] ==> turns[|turns| - 1].saved <= t)
    ensures 61 * |Beats(start, turns)| <= (t - start) + 60
  {
    var k := |Beats(start, turns)|;
    if k > 0 {
      BeatsSpread(start, turns, k - 1);
      var j := BeatsAreReadings(start, turns, k - 1);
      assert turns[j].saved <= turns[|turns| - 1].saved;
    }
  }

  /** The bound is met with equality: a run of one turn, one second after the start. */
  lemma BoundIsTight(start: int)
    ensures ForwardFrom(start, [Turn(start + 1, start + 1)])
    ensures 61 * |Beats(start, [Turn(start + 1, start + 1)])| == ((start + 1) - start) + 60
  {
    assert [Turn(start + 1, start + 1)][..0] == [];
  }

  /** Does turn `i` fire? */
  predicate Fires(start: int, turns: seq<Turn>, i: nat)
    requires i < |turns|
  {
    turns[i].now - LastBeat(start, Beats(start, turns[..i])) > PERIOD
  }

  /** Consecutive readings are at most `d` seconds apart; a turn that does not fire has no
      second reading, and repeats its first. */
  predicate DenseFrom(start: int, turns: seq<Turn>, d: int) {
    && (turns != [] ==> turns[0].now - start <= d)
    && (forall i :: 0 <= i < |turns| - 1 ==> turns[i + 1].now - turns[i].saved <= d)
    && forall i :: 0 <= i < |turns| && !Fires(start, turns, i) ==> turns[i].saved == turns[i].now
  }

  /** Main result. If readings are at most d >= 1 seconds apart, no turn finds the last
      heartbeat more than 60 + d seconds old: each fires in time. */
  lemma FiresInTime(start: int, turns: seq<Turn>, d: int)
    requires turns != [] && d >= 1 && ForwardFrom(start, turns) && DenseFrom(start, turns, d)
    ensures turns[|turns| - 1].now - LastBeat(start, Beats(start, turns[..|turns| - 1])) <= 60 + d
  {
    var n := |turns| - 1;
    if n > 0 {
      assert turns[..n][..n - 1] == turns[..n - 1];
      assert turns[n - 1 + 1].now - turns[n - 1].saved <= d;
      assert !Fires(start, turns, n - 1) ==> turns[n - 1].saved == turns[n - 1].now;
    }
  }
}
