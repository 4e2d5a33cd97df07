/**
 The three work loops of the device thread, on event objects updated in place and payload
 buffers that must be freed exactly once. A loop's script says what the driver and the
 broker answer in each iteration; it ends where the loop sees its quit flag.
 */
module WorkLoops {
  import opened Events

  /** What reaches the broker for one Level I message. */
  datatype Publication = Publication(body: Body, guid: seq<bv8>)

  /** What reaches the broker for one Level II event. */
  datatype FramePublication = FramePublication(frame: Frame, body: Body)

  /** One iteration of the blocking loop. */
  datatype Received = TimedOut | Got(msg: CanalMsg, sent: bool)

  /** One iteration of the polling loop. */
  datatype Polled = NoData | ReceiveFailed | Fetched(msg: CanalMsg, sent: bool)

  /** One iteration of the Level II loop. A failing read may leave a payload buffer behind. */
  datatype Event2 = ReadFailed(leftover: Option<seq<bv8>>) | ReadEvent(frame: Frame, body: Body, clock: nat, sent: bool)

  // ---------------------------------------------------------------- buffers and events

  /** The allocated objects that have not been freed. */
  class Heap {
    ghost var live: set<object>

    method NewBuffer(data: seq<bv8>) returns (p: array<bv8>)
      modifies this
      ensures fresh(p) && p !in old(live) && p[..] == data
      ensures live == old(live) + {p}
      ensures forall o :: o in live && o != p ==> o in old(live)
    {
      p := new bv8[|data|](i requires 0 <= i < |data| => data[i]);
      live := live + {p};
    }

    /** Freeing is allowed once: the buffer must still be live. Freeing null is allowed. */
    method DeleteBuffer(p: array?<bv8>)
      requires p != null ==> p in live
      modifies this
      ensures live == if p == null then old(live) else old(live) - {p}
    {
      if p != null { live := live - {p}; }
    }

    method NewEvent() returns (ev: VscpEvent)
      modifies this
      ensures fresh(ev) && ev !in old(live) && live == old(live) + {ev} && ev.Cleared()
    {
      ev := new VscpEvent();
      live := live + {ev};
    }

    method DeleteEventObject(ev: VscpEvent)
      requires ev in live
      modifies this
      ensures live == old(live) - {ev}
    {
      live := live - {ev};
    }
  }

  class VscpEvent {
    var vscpClass: int
    var vscpType: int
    var guid: seq<bv8>
    var sizeData: int
    var pdata: array?<bv8>
    var frame: Frame

    constructor ()
      ensures Cleared()
    {
      vscpClass, vscpType, guid, sizeData, pdata := 0, 0, Zeros(GUID_BYTES), 0, null;
      frame := Frame(0, 0, 0, 0, 0, 0, 0, 0, 0);
    }

    ghost predicate Cleared()
      reads this
    {
      pdata == null && sizeData == 0 && vscpClass == 0 && |guid| == GUID_BYTES
    }

    ghost predicate Valid()
      reads this, pdata
    {
      && 0 <= vscpClass < UINT16
      && 0 <= sizeData < UINT16
      && |guid| == GUID_BYTES
      && (if pdata == null then sizeData == 0 else sizeData <= pdata.Length)
    }

    function Content(): Body
      requires Valid()
      reads this, pdata
    {
      Body(vscpClass, vscpType, if pdata == null then [] else pdata[..sizeData])
    }

    /** The payload buffer the event owns. */
    ghost function Buffer(): set<object>
      reads this
    {
      if pdata == null then {} else {pdata}
    }

    /** A library conversion that replaces class, type and payload. */
    method Replace(h: Heap, b: Body)
      requires Valid() && Fits(b) && Buffer() <= h.live
      modifies this`vscpClass, this`vscpType, this`sizeData, this`pdata, h
      ensures Valid() && Content() == b && fresh(Buffer() - old(Buffer()))
      ensures pdata != null ==> fresh(pdata)
      ensures h.live == old(h.live) - old(Buffer()) + Buffer()
    {
      h.DeleteBuffer(pdata);
      pdata := h.NewBuffer(b.data);
      vscpClass, vscpType, sizeData := b.cls, b.typ, |b.data|;
    }

    /** Copies the payload behind the zero bytes of a longer buffer. */
    method CopyPayload(p: array<bv8>)
      requires Valid() && p != pdata && p[..] == Zeros(GUID_BYTES + sizeData)
      modifies p
      ensures p[..] == Zeros(GUID_BYTES) + Content().data
    {
      forall i | 0 <= i < sizeData { p[GUID_BYTES + i] := pdata[i]; }
    }

    /** Level I to Level I over Level II, in place: a longer buffer replaces the old one. */
    method WrapInPlace(h: Heap)
      requires Valid() && Buffer() <= h.live
      modifies this`vscpClass, this`sizeData, this`pdata, h
      ensures Valid() && Content() == Wrap(old(Content()))
      ensures pdata != null && fresh(pdata)
      ensures h.live == old(h.live) - old(Buffer()) + Buffer()
    {
      vscpClass := (vscpClass + CLASS_OFFSET) % UINT16;
      var p := h.NewBuffer(Zeros(GUID_BYTES + sizeData));
      CopyPayload(p);
      sizeData := (sizeData + GUID_BYTES) % UINT16;
      h.DeleteBuffer(pdata);
      pdata := p;
    }

    method TranslateInPlace(h: Heap, lib: Library, flags: bv32)
      requires Valid() && Buffer() <= h.live && Usable(lib)
      modifies this`vscpClass, this`vscpType, this`sizeData, this`pdata, h
      ensures Valid() && Content() == Translate(lib, flags, old(Content()))
      ensures pdata != null ==> pdata == old(pdata) || fresh(pdata)
      ensures h.live == old(h.live) - old(Buffer()) + Buffer()
    {
      if flags & OUT_TR_M1_M2F != 0 { Replace(h, lib.toFloat(Content())); }
      if flags & OUT_TR_M1_M2S != 0 { Replace(h, lib.toString(Content())); }
      if flags & OUT_TR_ALL_L2 != 0 { WrapInPlace(h); }
    }
  }

  // ---------------------------------------------------------------- the steps of one iteration

  /** Converts a CANAL message into a cleared event. */
  method ConvertCanal(h: Heap, lib: Library, msg: CanalMsg, ev: VscpEvent) returns (ok: bool)
    requires ev.Valid() && ev.pdata == null && Usable(lib)
    modifies ev`vscpClass, ev`vscpType, ev`sizeData, ev`pdata, ev`guid, h
    ensures ev.Valid() && ok == lib.convert(msg).Converted?
    ensures ok ==> ev.Content() == lib.convert(msg).body && ev.guid == lib.convert(msg).guid
    ensures ev.pdata != null ==> fresh(ev.pdata)
    ensures h.live == old(h.live) + ev.Buffer()
    ensures !ok ==> (ev.pdata != null <==> lib.convert(msg).leftover.Some?)
  {
    match lib.convert(msg)
    case Converted(body, guid) =>
      ev.guid := guid;
      ev.Replace(h, body);
      ok := true;
    case Failed(leftover) =>
      if leftover.Some? {
        ev.pdata := h.NewBuffer(leftover.value);
        ev.sizeData := |leftover.value|;
      }
      ok := false;
  }

  /** Frees what the event owns; the event itself is on the stack. */
  method DeleteEvent(h: Heap, ev: VscpEvent)
    requires ev.Valid() && ev.Buffer() <= h.live
    modifies ev`pdata, ev`sizeData, h
    ensures ev.Valid() && ev.pdata == null && h.live == old(h.live) - old(ev.Buffer())
  {
    h.DeleteBuffer(ev.pdata);
    ev.pdata, ev.sizeData := null, 0;
  }

  // ---------------------------------------------------------------- what the loops publish

  function MessagesReceived(script: seq<Received>): seq<CanalMsg> {
    if script == [] then []
    else
      var before := MessagesReceived(script[..|script| - 1]);
      match script[|script| - 1]
      case TimedOut => before
      case Got(msg, _) => before + [msg]
  }

  function MessagesPolled(script: seq<Polled>): seq<CanalMsg> {
    if script == [] then []
    else
      var before := MessagesPolled(script[..|script| - 1]);
      match script[|script| - 1]
      case Fetched(msg, _) => before + [msg]
      case _ => before
  }

  /** The messages whose conversion succeeds, translated, in order; the blocking loop
      clears one byte of the sender's GUID. */
  function Published(lib: Library, flags: bv32, clear: bool, msgs: seq<CanalMsg>): seq<Publication> {
    if msgs == [] then []
    else
      var n := |msgs| - 1;
      Published(lib, flags, clear, msgs[..n]) +
      match lib.convert(msgs[n])
      case Failed(_) => []
      case Converted(body, guid) =>
        [Publication(Translate(lib, flags, body), if clear && |guid| == GUID_BYTES then guid[14 := 0] else guid)]
  }

  /** Failed conversions that left a buffer behind. */
  function Leftovers(lib: Library, msgs: seq<CanalMsg>): nat {
    if msgs == [] then 0
    else
      var n := |msgs| - 1;
      Leftovers(lib, msgs[..n]) + if lib.convert(msgs[n]).Failed? && lib.convert(msgs[n]).leftover.Some? then 1 else 0
  }

  lemma OneMessage(lib: Library, flags: bv32, clear: bool, msg: CanalMsg)
    requires Usable(lib)
    ensures match lib.convert(msg)
            case Failed(leftover) =>
              Published(lib, flags, clear, [msg]) == [] && Leftovers(lib, [msg]) == (if leftover.Some? then 1 else 0)
            case Converted(body, guid) =>
              && Published(lib, flags, clear, [msg])
                 == [Publication(Translate(lib, flags, body), if clear then guid[14 := 0] else guid)]
              && Leftovers(lib, [msg]) == 0
  {
    assert [msg][..0] == [] && [msg][0] == msg;
  }

  // ---------------------------------------------------------------- the blocking loop

  /** One received message: a stack event, converted, translated, published, freed. The
      branch for a failed conversion does not free. */
  method HandleReceived(h: Heap, lib: Library, flags: bv32, msg: CanalMsg, sent: bool)
    returns (pubs: seq<Publication>, ghost leaked: set<object>)
    requires Usable(lib)
    modifies h
    ensures pubs == Published(lib, flags, true, [msg])
    ensures h.live == old(h.live) + leaked && leaked !! old(h.live) && |leaked| == Leftovers(lib, [msg])
  {
    var ev := new VscpEvent();
    leaked := {};
    pubs := [];
    OneMessage(lib, flags, true, msg);
    hide Published, Leftovers, Translate;
    var ok := ConvertCanal(h, lib, msg, ev);
    if !ok {
      leaked := ev.Buffer();
      return;
    }
    ev.guid := ev.guid[14 := 0];
    ev.TranslateInPlace(h, lib, flags);
    pubs := [Publication(ev.Content(), ev.guid)];
    if !sent {
      DeleteEvent(h, ev);
      return;
    }
    DeleteEvent(h, ev);
  }

  /** Main result, blocking loop: it publishes the convertible messages, translated and in
      order, and every buffer is freed once; what stays live at the end are exactly the
      buffers of failed conversions that left one. */
  method BlockingLoop(h: Heap, lib: Library, flags: bv32, script: seq<Received>)
    returns (pubs: seq<Publication>, ghost leaked: set<object>)
    requires Usable(lib)
    modifies h
    ensures pubs == Published(lib, flags, true, MessagesReceived(script))
    ensures h.live == old(h.live) + leaked && leaked !! old(h.live)
    ensures |leaked| == Leftovers(lib, MessagesReceived(script))
  {
    pubs, leaked := [], {};
    var i := 0;
    while i < |script|
      invariant 0 <= i <= |script|
      invariant pubs == Published(lib, flags, true, MessagesReceived(script[..i]))
      invariant h.live == old(h.live) + leaked && leaked !! old(h.live)
      invariant |leaked| == Leftovers(lib, MessagesReceived(script[..i]))
    {
      ReceivedStep(script, i);
      hide Usable, Published, MessagesReceived, Leftovers;
      if script[i].Got? {
        var more;
        ghost var lost;
        more, lost := HandleReceived(h, lib, flags, script[i].msg, script[i].sent);
        PublishedAppend(lib, flags, true, MessagesReceived(script[..i]), script[i].msg);
        assert lost !! leaked;
        UnionSize(leaked, lost);
        pubs, leaked := pubs + more, leaked + lost;
      }
      i := i + 1;
    }
    assert script[..|script|] == script;
  }

  lemma UnionSize(a: set<object>, b: set<object>)
    requires a !! b
    ensures |a + b| == |a| + |b|
  {
  }

  lemma ReceivedStep(script: seq<Received>, i: nat)
    requires i < |script|
    ensures MessagesReceived(script[..i + 1])
         == if script[i].Got? then MessagesReceived(script[..i]) + [script[i].msg] else MessagesReceived(script[..i])
  {
    assert script[..i + 1][..i] == script[..i];
  }

  /** What is received, polled, published and left over of two scripts or message sequences in
      a row is that of the first, then that of the second. With what a single entry gives, this
      fixes order and completeness. */
  lemma {:induction false} ReceivedConcat(a: seq<Received>, b: seq<Received>)
    ensures MessagesReceived(a + b) == MessagesReceived(a) + MessagesReceived(b)
    ensures forall msg, sent :: MessagesReceived([Got(msg, sent)]) == [msg]
    ensures MessagesReceived([TimedOut]) == []
    decreases |b|
  {
    OneReceived();
    if b == [] {
      assert a + b == a;
    } else {
      var n := |b| - 1;
      ReceivedConcat(a, b[..n]);
      assert (a + b)[..|a + b| - 1] == a + b[..n];
    }
  }

  lemma OneReceived()
    ensures forall msg, sent :: MessagesReceived([Got(msg, sent)]) == [msg]
    ensures MessagesReceived([TimedOut]) == []
  {
    forall msg: CanalMsg, sent ensures MessagesReceived([Got(msg, sent)]) == [msg] {
      assert [Got(msg, sent)][..0] == [];
    }
    assert [TimedOut][..0] == [];
  }

  lemma {:induction false} PolledConcat(a: seq<Polled>, b: seq<Polled>)
    ensures MessagesPolled(a + b) == MessagesPolled(a) + MessagesPolled(b)
    ensures forall msg, sent :: MessagesPolled([Fetched(msg, sent)]) == [msg]
    ensures MessagesPolled([NoData]) == [] && MessagesPolled([ReceiveFailed]) == []
    decreases |b|
  {
    OnePolled();
    if b == [] {
      assert a + b == a;
    } else {
      var n := |b| - 1;
      PolledConcat(a, b[..n]);
      assert (a + b)[..|a + b| - 1] == a + b[..n];
    }
  }

  lemma OnePolled()
    ensures forall msg, sent :: MessagesPolled([Fetched(msg, sent)]) == [msg]
    ensures MessagesPolled([NoData]) == [] && MessagesPolled([ReceiveFailed]) == []
  {
    forall msg: CanalMsg, sent ensures MessagesPolled([Fetched(msg, sent)]) == [msg] {
      assert [Fetched(msg, sent)][..0] == [];
    }
    assert [NoData][..0] == [] && [ReceiveFailed][..0] == [];
  }

  lemma {:induction false} PublishedConcat(lib: Library, flags: bv32, clear: bool, a: seq<CanalMsg>, b: seq<CanalMsg>)
    ensures Published(lib, flags, clear, a + b) == Published(lib, flags, clear, a) + Published(lib, flags, clear, b)
    ensures Leftovers(lib, a + b) == Leftovers(lib, a) + Leftovers(lib, b)
    decreases |b|
  {
    if b == [] {
      assert a + b == a;
    } else {
      var n := |b| - 1;
      PublishedConcat(lib, flags, clear, a, b[..n]);
      assert (a + b)[..|a + b| - 1] == a + b[..n];
    }
  }

  lemma {:induction false} ConvertibleConcat(lib: Library, a: seq<CanalMsg>, b: seq<CanalMsg>)
    ensures Convertible(lib, a + b) == Convertible(lib, a) + Convertible(lib, b)
    decreases |b|
  {
    if b == [] {
      assert a + b == a;
    } else {
      var n := |b| - 1;
      ConvertibleConcat(lib, a, b[..n]);
      assert (a + b)[..|a + b| - 1] == a + b[..n];
    }
  }

  lemma OneConvertible(lib: Library, m: CanalMsg)
    ensures Convertible(lib, [m]) == if lib.convert(m).Converted? then [m] else []
  {
    assert [m][..0] == [];
  }

  lemma PublishedAppend(lib: Library, flags: bv32, clear: bool, msgs: seq<CanalMsg>, msg: CanalMsg)
    ensures Published(lib, flags, clear, msgs + [msg])
         == Published(lib, flags, clear, msgs) + Published(lib, flags, clear, [msg])
    ensures Leftovers(lib, msgs + [msg]) == Leftovers(lib, msgs) + Leftovers(lib, [msg])
  {
    assert (msgs + [msg])[..|msgs|] == msgs;
    assert [msg][..0] == [];
  }

  // ---------------------------------------------------------------- the polling loop

  /** One fetched message: the event is on the heap and freed on every path. */
  method HandleFetched(h: Heap, lib: Library, flags: bv32, msg: CanalMsg, sent: bool) returns (pubs: seq<Publication>)
    requires Usable(lib)
    modifies h
    ensures pubs == Published(lib, flags, false, [msg])
    ensures h.live == old(h.live)
  {
    var ev := h.NewEvent();
    pubs := [];
    OneMessage(lib, flags, false, msg);
    hide Published, Translate;
    var ok := ConvertCanal(h, lib, msg, ev);
    if !ok {
      DeleteEvent(h, ev);
      h.DeleteEventObject(ev);
      return;
    }
    ev.TranslateInPlace(h, lib, flags);
    pubs := [Publication(ev.Content(), ev.guid)];
    if !sent {
      DeleteEvent(h, ev);
      h.DeleteEventObject(ev);
      return;
    }
    DeleteEvent(h, ev);
    h.DeleteEventObject(ev);
  }

  /** Main result, polling loop: the same publications, and nothing stays live. */
  method PollingLoop(h: Heap, lib: Library, flags: bv32, script: seq<Polled>) returns (pubs: seq<Publication>)
    requires Usable(lib)
    modifies h
    ensures pubs == Published(lib, flags, false, MessagesPolled(script))
    ensures h.live == old(h.live)
  {
    pubs := [];
    var i := 0;
    while i < |script|
      invariant 0 <= i <= |script|
      invariant pubs == Published(lib, flags, false, MessagesPolled(script[..i]))
      invariant h.live == old(h.live)
    {
      assert script[..i + 1][..i] == script[..i];
      if script[i].Fetched? {
        var more := HandleFetched(h, lib, flags, script[i].msg, script[i].sent);
        PublishedAppend(lib, flags, false, MessagesPolled(script[..i]), script[i].msg);
        pubs := pubs + more;
      }
      i := i + 1;
    }
    assert script[..|script|] == script;
  }

  /** Main result. The two loops publish the same bodies for the same messages, one for each
      message that converts; the sender GUIDs differ at most in the byte the blocking loop clears. */
  lemma {:induction false} LoopsAgree(lib: Library, flags: bv32, msgs: seq<CanalMsg>)
    requires Usable(lib)
    ensures var b, p := Published(lib, flags, true, msgs), Published(lib, flags, false, msgs);
            && |b| == |p| == |Convertible(lib, msgs)|
            && forall i :: 0 <= i < |b| ==>
                 && b[i].body == p[i].body == Translate(lib, flags, lib.convert(Convertible(lib, msgs)[i]).body)
                 && p[i].guid == lib.convert(Convertible(lib, msgs)[i]).guid
                 && |p[i].guid| == 16 && b[i].guid == p[i].guid[14 := 0]
  {
    if msgs == [] {
    } else {
      LoopsAgree(lib, flags, msgs[..|msgs| - 1]);
    }
  }

  /** Main result. What subscribers of either loop get of a message that converts: the form that
      the measurement flags select, wrapped if the third flag says so. */
  lemma PublishedForms(lib: Library, flags: bv32, clear: bool, msgs: seq<CanalMsg>, i: nat)
    requires Usable(lib) && i < |Convertible(lib, msgs)|
    ensures i < |Published(lib, flags, clear, msgs)|
    ensures var p, b := Published(lib, flags, clear, msgs)[i].body, lib.convert(Convertible(lib, msgs)[i]).body;
            && (flags & 0x03 == 0x00 ==> Carries(p, b, flags & 0x04 != 0))
            && (flags & 0x03 == 0x01 ==> Carries(p, lib.toFloat(b), flags & 0x04 != 0))
            && (flags & 0x03 == 0x02 ==> Carries(p, lib.toString(b), flags & 0x04 != 0))
            && (flags & 0x03 == 0x03 ==> Carries(p, lib.toString(lib.toFloat(b)), flags & 0x04 != 0))
  {
    LoopsAgree(lib, flags, msgs);
    hide Translate, Published;
    TranslationForms(lib, flags, lib.convert(Convertible(lib, msgs)[i]).body);
  }

  /** With no measurement translation, a receiver gets every wrapped message back from either
      loop: a CANAL message's payload is far from the size at which wrapping loses it. */
  lemma WrappedMessagesUnwrap(lib: Library, flags: bv32, clear: bool, msgs: seq<CanalMsg>, i: nat)
    requires Usable(lib) && i < |Convertible(lib, msgs)|
    requires flags & 0x03 == 0 && flags & 0x04 != 0
    requires |lib.convert(Convertible(lib, msgs)[i]).body.data| <= CANAL_MAX_DATA
    ensures i < |Published(lib, flags, clear, msgs)|
    ensures Unwrap(Published(lib, flags, clear, msgs)[i].body) == Some(lib.convert(Convertible(lib, msgs)[i]).body)
  {
    PublishedForms(lib, flags, clear, msgs, i);
  }

  function Convertible(lib: Library, msgs: seq<CanalMsg>): (cs: seq<CanalMsg>)
    ensures forall i :: 0 <= i < |cs| ==> lib.convert(cs[i]).Converted?
  {
    if msgs == [] then []
    else Convertible(lib, msgs[..|msgs| - 1]) +
         if lib.convert(msgs[|msgs| - 1]).Converted? then [msgs[|msgs| - 1]] else []
  }

  // ---------------------------------------------------------------- the Level II loop

  function PublishedFrames(hb: HeaderBits, toNs: Frame -> int, script: seq<Event2>): seq<FramePublication> {
    if script == [] then []
    else
      var n := |script| - 1;
      PublishedFrames(hb, toNs, script[..n]) +
      match script[n]
      case ReadFailed(_) => []
      case ReadEvent(frame, body, clock, _) => [FramePublication(Normalise(hb, toNs, clock, frame), body)]
  }

  /** Failed reads that left a buffer behind. */
  function LeftoverReads(script: seq<Event2>): nat {
    if script == [] then 0
    else
      var n := |script| - 1;
      LeftoverReads(script[..n]) + if script[n].ReadFailed? && script[n].leftover.Some? then 1 else 0
  }

  /** Of two scripts in a row the frames of the first come first; a read event gives one frame,
      with the event's own body, a failed read none. */
  lemma {:induction false} FramesConcat(hb: HeaderBits, toNs: Frame -> int, a: seq<Event2>, b: seq<Event2>)
    ensures PublishedFrames(hb, toNs, a + b) == PublishedFrames(hb, toNs, a) + PublishedFrames(hb, toNs, b)
    ensures LeftoverReads(a + b) == LeftoverReads(a) + LeftoverReads(b)
    decreases |b|
  {
    if b == [] {
      assert a + b == a;
    } else {
      var n := |b| - 1;
      FramesConcat(hb, toNs, a, b[..n]);
      assert (a + b)[..|a + b| - 1] == a + b[..n];
    }
  }

  lemma OneFrame(hb: HeaderBits, toNs: Frame -> int, e: Event2)
    ensures PublishedFrames(hb, toNs, [e])
         == if e.ReadEvent? then [FramePublication(Normalise(hb, toNs, e.clock, e.frame), e.body)] else []
    ensures LeftoverReads([e]) == if e.ReadFailed? && e.leftover.Some? then 1 else 0
  {
    assert [e][..0] == [];
  }

  method NormaliseInPlace(hb: HeaderBits, toNs: Frame -> int, clock: nat, ev: VscpEvent)
    modifies ev`frame
    ensures ev.frame == Normalise(hb, toNs, clock, old(ev.frame))
  {
    if !IsUnixNs(hb, ev.frame) {
      var ns := -1;
      if ValidDate(ev.frame) { ns := toNs(ev.frame); }
      ev.frame := ev.frame.(head := SetUnixNs(hb, ev.frame.head));
      ev.frame := ev.frame.(year := 0xffff);
      ev.frame := ev.frame.(month := 0xff);
      ev.frame := ev.frame.(timestampNs := if ns > 0 then ns else clock);
    } else if ev.frame.timestampNs == 0 {
      ev.frame := ev.frame.(timestampNs := clock);
    }
  }

  /** One iteration: a stack event, read, normalised, published, freed. The branch for a failed
      read does not free. */
  method HandleRead(h: Heap, hb: HeaderBits, toNs: Frame -> int, e: Event2)
    returns (pubs: seq<FramePublication>, ghost leaked: set<object>)
    requires e.ReadEvent? ==> Fits(e.body)
    modifies h
    ensures pubs == if e.ReadEvent? then [FramePublication(Normalise(hb, toNs, e.clock, e.frame), e.body)] else []
    ensures h.live == old(h.live) + leaked && leaked !! old(h.live)
    ensures |leaked| == if e.ReadFailed? && e.leftover.Some? then 1 else 0
  {
    var ev := new VscpEvent();
    pubs, leaked := [], {};
    match e {
      case ReadFailed(leftover) =>
        if leftover.Some? {
          ev.pdata := h.NewBuffer(leftover.value);
          leaked := ev.Buffer();
        }
      case ReadEvent(frame, body, clock, sent) =>
        ev.frame := frame;
        ev.Replace(h, body);
        NormaliseInPlace(hb, toNs, clock, ev);
        pubs := [FramePublication(ev.frame, ev.Content())];
        if !sent {
          DeleteEvent(h, ev);
          return;
        }
        DeleteEvent(h, ev);
    }
  }

  /** Main result, Level II loop: every event read is normalised and published, payload
      untouched, and its buffer freed once; what stays live at the end are exactly the buffers
      of failed reads that left one. */
  method LevelIILoop(h: Heap, hb: HeaderBits, toNs: Frame -> int, script: seq<Event2>)
    returns (pubs: seq<FramePublication>, ghost leaked: set<object>)
    requires forall i :: 0 <= i < |script| && script[i].ReadEvent? ==> Fits(script[i].body)
    modifies h
    ensures pubs == PublishedFrames(hb, toNs, script)
    ensures h.live == old(h.live) + leaked && leaked !! old(h.live)
    ensures |leaked| == LeftoverReads(script)
  {
    pubs, leaked := [], {};
    var i := 0;
    while i < |script|
      invariant 0 <= i <= |script|
      invariant pubs == PublishedFrames(hb, toNs, script[..i])
      invariant h.live == old(h.live) + leaked && leaked !! old(h.live)
      invariant |leaked| == LeftoverReads(script[..i])
    {
      assert script[..i + 1][..i] == script[..i];
      var more;
      ghost var lost;
      more, lost := HandleRead(h, hb, toNs, script[i]);
      assert lost !! leaked;
      UnionSize(leaked, lost);
      pubs, leaked := pubs + more, leaked + lost;
      i := i + 1;
    }
    assert script[..|script|] == script;
  }
}
