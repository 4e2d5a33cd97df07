/**
 Node discovery: an in-memory map of known GUIDs, a database table whose guid column is
 UNIQUE, and the announcements published on the discovery topic. The table outlives the
 daemon; the map is rebuilt when it starts.

 The database and the broker answer through the arguments of each operation, so every
 pattern of failing statements and failing publications is covered.
 */
module Discovery {

  datatype Row = Row(date: string, guid: string, name: string)

  /** `running`: the daemon got through its initialisation. `log`: GUIDs handed to the
      broker for announcement, over all runs; `delivered`: those the broker accepted. */
  datatype Snapshot = Snapshot(running: bool, dbOpen: bool, names: map<string, string>,
                               hasTable: bool, rows: seq<Row>, log: seq<string>, delivered: seq<string>)

  /** One call of discovery: the sender's GUID, the clock, and what database and broker answer. */
  datatype Call = Call(guid: string, now: string, dbOk: bool, publishOk: bool)

  /** What the file system and the database answer while the daemon starts. `readable` is
      the number of rows the rebuild reads before the cursor stops. */
  datatype Boot = Boot(self: string, now: string, pathSet: bool, fileExists: bool, openOk: bool,
                       prepareOk: bool, readable: nat, tableOk: bool, indexOk: bool, firstRowOk: bool)

  function Guids(rows: seq<Row>): (g: seq<string>)
    ensures |g| == |rows| && forall i :: 0 <= i < |rows| ==> g[i] == rows[i].guid
  {
    seq(|rows|, i requires 0 <= i < |rows| => rows[i].guid)
  }

  predicate Distinct<T(==)>(xs: seq<T>) {
    forall i, j :: 0 <= i < j < |xs| ==> xs[i] != xs[j]
  }

  /** The INSERT statement: refused by an I/O error, a missing table or the UNIQUE column. */
  predicate Inserts(s: Snapshot, c: Call) {
    c.dbOk && s.hasTable && c.guid !in Guids(s.rows)
  }

  function AddRow(s: Snapshot, c: Call): Snapshot {
    s.(rows := s.rows + [Row(c.now, c.guid, "discovered")])
  }

  function Announce(s: Snapshot, c: Call): Snapshot {
    s.(log := s.log + [c.guid], delivered := if c.publishOk then s.delivered + [c.guid] else s.delivered)
  }

  function Remember(s: Snapshot, c: Call): Snapshot {
    s.(names := s.names[c.guid := "Discovered"])
  }

  /** If the GUID is absent: insert, announce, remember. */
  function Discover(s: Snapshot, c: Call): Snapshot {
    if !s.running || !s.dbOpen || c.guid in s.names || !Inserts(s, c) then s
    else Remember(Announce(AddRow(s, c), c), c)
  }

  function NamesOf(rows: seq<Row>): map<string, string> {
    if rows == [] then map[] else NamesOf(rows[..|rows| - 1])[rows[|rows| - 1].guid := rows[|rows| - 1].name]
  }

  function Min(a: nat, b: nat): nat { if a <= b then a else b }

  const SERVER_NAME := "VSCP MQTT daemon"

  /** A new process starts on the same database. A failed start leaves no process running. */
  function Start(s: Snapshot, e: Boot): Snapshot {
    var blank := s.(running := true, dbOpen := false, names := map[]);
    if !e.pathSet then blank
    else if s.hasTable || e.fileExists then
      if !e.openOk then blank
      else if !e.prepareOk || !s.hasTable then blank.(dbOpen := true)
      else blank.(dbOpen := true, names := NamesOf(s.rows[..Min(e.readable, |s.rows|)]))
    else if !e.openOk then blank.(running := false)
    else if !e.tableOk then blank.(running := false, dbOpen := true)
    else if !e.indexOk || !e.firstRowOk then blank.(running := false, dbOpen := true, hasTable := true, rows := [])
    else blank.(dbOpen := true, hasTable := true, rows := [Row(e.now, e.self, "local-vscp-daemon")],
                names := map[e.self := SERVER_NAME])
  }

  // ---------------------------------------------------------------- the control object

  class ControlObject {
    var running: bool
    var dbOpen: bool
    var names: map<string, string>
    var hasTable: bool
    var rows: seq<Row>
    ghost var log: seq<string>
    ghost var delivered: seq<string>

    ghost function State(): Snapshot
      reads this
    {
      Snapshot(running, dbOpen, names, hasTable, rows, log, delivered)
    }

    method Insert(row: Row, dbOk: bool) returns (ok: bool)
      modifies this`rows
      ensures ok <==> dbOk && hasTable && row.guid !in Guids(old(rows))
      ensures rows == if ok then old(rows) + [row] else old(rows)
    {
      ok := dbOk && hasTable && row.guid !in Guids(rows);
      if ok { rows := rows + [row]; }
    }

    method Publish(guid: string, publishOk: bool) returns (ok: bool)
      modifies this`log, this`delivered
      ensures ok == publishOk
      ensures log == old(log) + [guid]
      ensures delivered == if publishOk then old(delivered) + [guid] else old(delivered)
    {
      log := log + [guid];
      delivered := if publishOk then delivered + [guid] else delivered;
      ok := publishOk;
    }

    /** One call, from its lock to its unlock. */
    method Discovery(c: Call)
      requires running
      modifies this
      ensures State() == Discover(old(State()), c)
    {
      if !dbOpen { return; }
      if c.guid !in names {
        var inserted := Insert(Row(c.now, c.guid, "discovered"), c.dbOk);
        if !inserted { return; }
        var _ := Publish(c.guid, c.publishOk);
        names := names[c.guid := "Discovered"];
      }
    }

    /** The first `n` rows, as the rebuild's cursor yields them. */
    method ReadNames(n: nat) returns (m: map<string, string>)
      requires n <= |rows|
      ensures m == NamesOf(rows[..n])
    {
      m := map[];
      for i := 0 to n
        invariant m == NamesOf(rows[..i])
      {
        assert rows[..i + 1][..i] == rows[..i];
        m := m[rows[i].guid := rows[i].name];
      }
    }

    /** The database part of the daemon's initialisation, in a new process. */
    method Init(e: Boot) returns (ok: bool)
      modifies this
      ensures State() == Start(old(State()), e) && ok == running
    {
      running, dbOpen, names := true, false, map[];
      if e.pathSet {
        if hasTable || e.fileExists {
          dbOpen := e.openOk;
          if dbOpen && e.prepareOk && hasTable {
            names := ReadNames(Min(e.readable, |rows|));
          }
        } else {
          running := false;
          if !e.openOk { return false; }
          dbOpen := true;
          if !e.tableOk { return false; }
          hasTable, rows := true, [];
          if !e.indexOk || !e.firstRowOk { return false; }
          rows := [Row(e.now, e.self, "local-vscp-daemon")];
          names := map[e.self := SERVER_NAME];
          running := true;
        }
      }
      ok := true;
    }
  }

  // ---------------------------------------------------------------- any number of calls and restarts

  datatype Op = Restart(e: Boot) | Seen(c: Call)

  function Do(s: Snapshot, op: Op): Snapshot {
    match op
    case Restart(e) => Start(s, e)
    case Seen(c) => Discover(s, c)
  }

  function Exec(s: Snapshot, ops: seq<Op>): Snapshot
    decreases |ops|
  {
    if ops == [] then s else Exec(Do(s, ops[0]), ops[1..])
  }

  /** The three records agree: no row twice, no announcement twice, each announcement and
      each remembered GUID backed by a row, nothing delivered that was not announced. */
  ghost predicate Consistent(s: Snapshot) {
    && Distinct(Guids(s.rows))
    && Distinct(s.log)
    && Distinct(s.delivered)
    && (forall g :: g in s.delivered ==> g in s.log)
    && (forall g :: g in s.log ==> g in Guids(s.rows))
    && (forall g :: g in s.names ==> g in Guids(s.rows))
    && (!s.hasTable ==> s.rows == [])
  }

  lemma {:induction false} NamesOfKeys(rows: seq<Row>, g: string)
    ensures g in NamesOf(rows) <==> g in Guids(rows)
  {
    if rows == [] {
    } else {
      var n := |rows| - 1;
      NamesOfKeys(rows[..n], g);
      assert Guids(rows) == Guids(rows[..n]) + [rows[n].guid];
    }
  }

  /** The rebuilt name of a GUID is that of its last row. */
  lemma {:induction false} NamesOfLast(rows: seq<Row>, i: nat)
    requires i < |rows| && forall j :: i < j < |rows| ==> rows[j].guid != rows[i].guid
    ensures rows[i].guid in NamesOf(rows) && NamesOf(rows)[rows[i].guid] == rows[i].name
    decreases |rows|
  {
    if i == |rows| - 1 {
    } else {
      NamesOfLast(rows[..|rows| - 1], i);
    }
  }

  lemma GuidsAppend(rows: seq<Row>, r: Row)
    ensures Guids(rows + [r]) == Guids(rows) + [r.guid]
  {
  }

  lemma DiscoverKeepsConsistent(s: Snapshot, c: Call)
    requires Consistent(s)
    ensures Consistent(Discover(s, c))
  {
    GuidsAppend(s.rows, Row(c.now, c.guid, "discovered"));
  }

  lemma StartKeepsConsistent(s: Snapshot, e: Boot)
    requires Consistent(s)
    ensures Consistent(Start(s, e)) && Start(s, e).log == s.log && Start(s, e).delivered == s.delivered
  {
    var part := s.rows[..Min(e.readable, |s.rows|)];
    forall g | g in NamesOf(part) ensures g in Guids(s.rows) {
      NamesOfKeys(part, g);
      var i :| 0 <= i < |part| && Guids(part)[i] == g;
      assert Guids(s.rows)[i] == g;
    }
    assert Guids([Row(e.now, e.self, "local-vscp-daemon")])[0] == e.self;
  }

  /** What initialisation leaves, case by case. The daemon runs unless it had to create the
      database and some statement failed; the database is open exactly if there is a path and
      the open succeeds. */
  lemma StartRuns(s: Snapshot, e: Boot)
    ensures Start(s, e).running <==>
              !e.pathSet || s.hasTable || e.fileExists || (e.openOk && e.tableOk && e.indexOk && e.firstRowOk)
    ensures Start(s, e).dbOpen <==> e.pathSet && e.openOk
  {
  }

  /** On an existing file the table is untouched, and the map holds exactly the rows the cursor
      read, each GUID with the name of its last row; on every path that reads none it is empty. */
  lemma StartRebuilds(s: Snapshot, e: Boot)
    requires !e.pathSet || s.hasTable || e.fileExists
    ensures Start(s, e).rows == s.rows && Start(s, e).hasTable == s.hasTable
    ensures Start(s, e).log == s.log && Start(s, e).delivered == s.delivered
    ensures var n := if !(e.pathSet && e.openOk && e.prepareOk && s.hasTable) then 0
                     else if e.readable <= |s.rows| then e.readable else |s.rows|;
            && (forall g :: g in Start(s, e).names <==> exists i :: 0 <= i < n && s.rows[i].guid == g)
            && (forall i :: 0 <= i < n && (forall j :: i < j < n ==> s.rows[j].guid != s.rows[i].guid) ==>
                  s.rows[i].guid in Start(s, e).names && Start(s, e).names[s.rows[i].guid] == s.rows[i].name)
  {
    if e.pathSet && e.openOk && e.prepareOk && s.hasTable {
      var n := if e.readable <= |s.rows| then e.readable else |s.rows|;
      var part := s.rows[..n];
      forall g ensures g in NamesOf(part) <==> exists i :: 0 <= i < n && s.rows[i].guid == g {
        NamesOfKeys(part, g);
        assert forall i :: 0 <= i < n ==> Guids(part)[i] == s.rows[i].guid;
      }
      forall i | 0 <= i < n && forall j :: i < j < n ==> s.rows[j].guid != s.rows[i].guid
        ensures s.rows[i].guid in NamesOf(part) && NamesOf(part)[s.rows[i].guid] == s.rows[i].name
      {
        NamesOfLast(part, i);
      }
    }
  }

  /** A first start leaves exactly the daemon's own row and name; one that fails half-way leaves
      an empty table, or none, and no name. */
  lemma FirstStart(s: Snapshot, e: Boot)
    requires e.pathSet && !s.hasTable && !e.fileExists
    ensures Start(s, e).log == s.log && Start(s, e).delivered == s.delivered
    ensures Start(s, e).hasTable <==> e.openOk && e.tableOk
    ensures Start(s, e).running ==>
              && Start(s, e).rows == [Row(e.now, e.self, "local-vscp-daemon")]
              && Start(s, e).names == map[e.self := "VSCP MQTT daemon"]
    ensures !Start(s, e).running ==> Start(s, e).names == map[]
    ensures !Start(s, e).running ==> Start(s, e).rows == if e.openOk && e.tableOk then [] else s.rows
  {
  }

  /** Every operation only extends the announcements. */
  lemma DoExtends(s: Snapshot, op: Op)
    requires Consistent(s)
    ensures Consistent(Do(s, op)) && s.log <= Do(s, op).log
  {
    match op
    case Restart(e) => StartKeepsConsistent(s, e);
    case Seen(c) => DiscoverKeepsConsistent(s, c);
  }

  /** Over any number of orderly restarts on one database and any number of whole calls, with
      any failures, no GUID is announced twice, and what was announced stays announced. */
  lemma {:induction false} AnnouncedAtMostOnce(s: Snapshot, ops: seq<Op>)
    requires Consistent(s)
    ensures Consistent(Exec(s, ops)) && Distinct(Exec(s, ops).log) && s.log <= Exec(s, ops).log
    decreases |ops|
  {
    if ops == [] {
    } else {
      DoExtends(s, ops[0]);
      AnnouncedAtMostOnce(Do(s, ops[0]), ops[1..]);
    }
  }

  /** The price: an announcement is never repeated, so one that was handed to the broker is
      delivered ever after if and only if the broker took it then. */
  lemma {:induction false} RefusedIsNeverRepeated(s: Snapshot, ops: seq<Op>, g: string)
    requires Consistent(s) && g in s.log
    ensures g in Exec(s, ops).delivered <==> g in s.delivered
    decreases |ops|
  {
    if ops == [] {
    } else {
      DoExtends(s, ops[0]);
      if ops[0].Restart? { StartKeepsConsistent(s, ops[0].e); }
      RefusedIsNeverRepeated(Do(s, ops[0]), ops[1..], g);
    }
  }

  /** The map is only a cache: the table alone decides whether a GUID is announced, and what a
      call leaves follows from that. A row is stored under the call's time, the name is
      remembered, and the GUID is delivered if and only if the broker takes it; a call that
      does not announce changes nothing. */
  lemma AnnouncesIff(s: Snapshot, c: Call)
    requires Consistent(s)
    ensures Discover(s, c).log != s.log <==>
              s.running && s.dbOpen && s.hasTable && c.dbOk && c.guid !in Guids(s.rows)
    ensures Discover(s, c).log != s.log ==>
              && Discover(s, c).log == s.log + [c.guid]
              && Discover(s, c).rows == s.rows + [Row(c.now, c.guid, "discovered")]
              && Discover(s, c).names == s.names[c.guid := "Discovered"]
              && (c.guid in Discover(s, c).delivered <==> c.publishOk)
              && Discover(s, c).delivered == s.delivered + if c.publishOk then [c.guid] else []
    ensures Discover(s, c).log == s.log ==> Discover(s, c) == s
  {
  }

  /** A start that finds no database file and gets as far as creating the table. */
  predicate CreatesTable(op: Op) {
    op.Restart? && op.e.pathSet && !op.e.fileExists && op.e.openOk && op.e.tableOk
  }

  /** A database without its table, as a failed first start can leave it, gets one if and only
      if some start finds no file; until then nothing is stored or announced. */
  lemma {:induction false} TablelessFileStaysSilent(s: Snapshot, ops: seq<Op>)
    requires !s.hasTable
    ensures Exec(s, ops).hasTable <==> exists i :: 0 <= i < |ops| && CreatesTable(ops[i])
    ensures !Exec(s, ops).hasTable ==> Exec(s, ops).log == s.log && Exec(s, ops).rows == s.rows
    decreases |ops|
  {
    if ops == [] {
    } else if CreatesTable(ops[0]) {
      TableStays(Do(s, ops[0]), ops[1..]);
    } else {
      TablelessFileStaysSilent(Do(s, ops[0]), ops[1..]);
      forall i | 0 <= i < |ops| && CreatesTable(ops[i]) ensures CreatesTable(ops[1..][i - 1]) {
        assert i > 0;
      }
    }
  }

  lemma {:induction false} TableStays(s: Snapshot, ops: seq<Op>)
    requires s.hasTable
    ensures Exec(s, ops).hasTable
    decreases |ops|
  {
    if ops == [] {
    } else {
      TableStays(Do(s, ops[0]), ops[1..]);
    }
  }

  // ---------------------------------------------------------------- since the last start

  function ExecCalls(s: Snapshot, cs: seq<Call>): Snapshot
    decreases |cs|
  {
    if cs == [] then s else Discover(ExecCalls(s, cs[..|cs| - 1]), cs[|cs| - 1])
  }

  /** Rows added, announcements attempted and map keys added since `s0` are one and the same. */
  ghost predicate GrewTogether(s0: Snapshot, s: Snapshot) {
    && s0.rows <= s.rows
    && s.log == s0.log + Guids(s.rows[|s0.rows|..])
    && (forall g :: g in s.names <==> g in s0.names || g in Guids(s.rows[|s0.rows|..]))
  }

  lemma DiscoverGrows(s0: Snapshot, s: Snapshot, c: Call)
    requires Consistent(s) && GrewTogether(s0, s)
    ensures GrewTogether(s0, Discover(s, c))
  {
    var r := Row(c.now, c.guid, "discovered");
    assert (s.rows + [r])[|s0.rows|..] == s.rows[|s0.rows|..] + [r];
    GuidsAppend(s.rows[|s0.rows|..], r);
  }

  /** Main result. After any sequence of calls the map's keys are GUIDs of the table, and the
      three records have grown by the same GUIDs in the same order, none twice. */
  lemma {:induction false} RecordsAgree(s0: Snapshot, cs: seq<Call>)
    requires Consistent(s0)
    ensures Consistent(ExecCalls(s0, cs)) && GrewTogether(s0, ExecCalls(s0, cs))
    decreases |cs|
  {
    if cs == [] {
    } else {
      RecordsAgree(s0, cs[..|cs| - 1]);
      DiscoverKeepsConsistent(ExecCalls(s0, cs[..|cs| - 1]), cs[|cs| - 1]);
      DiscoverGrows(s0, ExecCalls(s0, cs[..|cs| - 1]), cs[|cs| - 1]);
    }
  }
}
