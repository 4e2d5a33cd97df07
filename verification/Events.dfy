/**
 Events as they pass through the work loops, the translation of Level I events to Level I
 over Level II, and the normalisation of Level II frames, on values.
 */
module Events {

  const CLASS_OFFSET := 512
  const GUID_BYTES := 16
  const UINT16 := 0x1_0000

  /** The payload of a CANAL message. */
  const CANAL_MAX_DATA := 8

  const OUT_TR_M1_M2F: bv32 := 0x01
  const OUT_TR_M1_M2S: bv32 := 0x02
  const OUT_TR_ALL_L2: bv32 := 0x04

  /** What a subscriber sees of an event besides its sender. */
  datatype Body = Body(cls: int, typ: int, data: seq<bv8>)

  /** Class and payload length are 16-bit fields. */
  predicate Fits(b: Body) {
    0 <= b.cls < UINT16 && |b.data| < UINT16
  }

  function Zeros(n: nat): (z: seq<bv8>)
    ensures |z| == n
  {
    seq(n, i => 0)
  }

  // ---------------------------------------------------------------- Level I over Level II

  /** The wrap with its 16-bit arithmetic: 512 is added to the class and 16 zero bytes go
      before the payload. */
  function Wrap(b: Body): Body {
    Body((b.cls + CLASS_OFFSET) % UINT16, b.typ,
         (Zeros(GUID_BYTES) + b.data)[..(|b.data| + GUID_BYTES) % UINT16])
  }

  datatype Option<+T> = None | Some(value: T)

  /** What a receiver does to get the Level I event back. */
  function Unwrap(w: Body): Option<Body> {
    if |w.data| < GUID_BYTES then None
    else Some(Body((w.cls - CLASS_OFFSET) % UINT16, w.typ, w.data[GUID_BYTES..]))
  }

  /** Main result. Unwrapping recovers the event if and only if the longer payload's size
      still fits its 16-bit field. */
  lemma UnwrapRecoversIff(b: Body)
    requires Fits(b)
    ensures Unwrap(Wrap(b)) == Some(b) <==> |b.data| + 16 < 0x1_0000
  {
    if |b.data| + GUID_BYTES < UINT16 {
      assert Wrap(b).data == Zeros(GUID_BYTES) + b.data;
    } else {
      assert |Wrap(b).data| < GUID_BYTES;
    }
  }

  /** The wrapped form of an event: 512 added to the class in 16 bits, so that Level I classes
      become 512 to 1023, the same type, 16 zero bytes, the payload. */
  lemma WrapOfLevelI(b: Body)
    requires Fits(b) && |b.data| + 16 < 0x1_0000
    ensures Wrap(b).typ == b.typ && Wrap(b).cls == (b.cls + 512) % 0x1_0000
    ensures b.cls < 512 ==> 512 <= Wrap(b).cls < 1024
    ensures |Wrap(b).data| == |b.data| + 16 && Wrap(b).data[16..] == b.data
    ensures forall i :: 0 <= i < 16 ==> Wrap(b).data[i] == 0
  {
    assert Wrap(b).data == Zeros(GUID_BYTES) + b.data;
  }

  // ---------------------------------------------------------------- translation

  datatype CanalMsg = CanalMsg(id: int, flags: int, data: seq<bv8>)

  /** The conversion of a CANAL message. A failing one may leave a payload buffer behind. */
  datatype Conversion = Converted(body: Body, guid: seq<bv8>) | Failed(leftover: Option<seq<bv8>>)

  /** The conversions of the VSCP helper library, as arbitrary functions. */
  datatype Library = Library(convert: CanalMsg -> Conversion, toFloat: Body -> Body, toString: Body -> Body)

  predicate UsableConversion(r: Conversion) {
    match r
    case Converted(body, guid) => Fits(body) && |guid| == GUID_BYTES
    case Failed(leftover) => leftover.Some? ==> |leftover.value| < UINT16
  }

  /** Their results fit the event's fields. */
  ghost predicate Usable(lib: Library) {
    && (forall m :: UsableConversion(lib.convert(m)))
    && (forall b :: Fits(b) ==> Fits(lib.toFloat(b)))
    && (forall b :: Fits(b) ==> Fits(lib.toString(b)))
  }

  function Translate(lib: Library, flags: bv32, b: Body): Body {
    var b1 := if flags & OUT_TR_M1_M2F != 0 then lib.toFloat(b) else b;
    var b2 := if flags & OUT_TR_M1_M2S != 0 then lib.toString(b1) else b1;
    if flags & OUT_TR_ALL_L2 != 0 then Wrap(b2) else b2
  }

  /** What a receiver makes of a published body: `form` itself, or what unwrapping gives back
      as long as the longer payload fits. */
  predicate Carries(published: Body, form: Body, wrapped: bool) {
    if wrapped then |form.data| + 16 < 0x1_0000 ==> Unwrap(published) == Some(form)
    else published == form
  }

  /** Main result. Which form of the event the three flags select: flag 1 converts measurements
      to floats, flag 2 to strings, both to strings of the float form, and flag 4 wraps whatever
      that gives. No other flag matters. */
  lemma TranslationForms(lib: Library, flags: bv32, b: Body)
    requires Usable(lib) && Fits(b)
    ensures flags & 0x03 == 0x00 ==> Carries(Translate(lib, flags, b), b, flags & 0x04 != 0)
    ensures flags & 0x03 == 0x01 ==> Carries(Translate(lib, flags, b), lib.toFloat(b), flags & 0x04 != 0)
    ensures flags & 0x03 == 0x02 ==> Carries(Translate(lib, flags, b), lib.toString(b), flags & 0x04 != 0)
    ensures flags & 0x03 == 0x03 ==> Carries(Translate(lib, flags, b), lib.toString(lib.toFloat(b)), flags & 0x04 != 0)
  {
    LowFlags(flags);
    var float := lib.toFloat(b);
    UnwrapRecoversIff(b);
    UnwrapRecoversIff(float);
    UnwrapRecoversIff(lib.toString(b));
    UnwrapRecoversIff(lib.toString(float));
  }

  lemma LowFlags(flags: bv32)
    ensures flags & 0x03 == 0x00 ==> flags & 0x01 == 0 && flags & 0x02 == 0
    ensures flags & 0x03 == 0x01 ==> flags & 0x01 != 0 && flags & 0x02 == 0
    ensures flags & 0x03 == 0x02 ==> flags & 0x01 == 0 && flags & 0x02 != 0
    ensures flags & 0x03 == 0x03 ==> flags & 0x01 != 0 && flags & 0x02 != 0
  {
  }

  // ---------------------------------------------------------------- Level II frames

  /** The time block and header of an event. */
  datatype Frame = Frame(head: bv16, year: int, month: int, day: int, hour: int, minute: int, second: int,
                         timestamp: int, timestampNs: int)

  /** The frame version bits of the header and their value for a nanosecond frame. */
  datatype HeaderBits = HeaderBits(mask: bv16, unixNs: bv16)

  predicate ValidBits(hb: HeaderBits) {
    hb.unixNs & !hb.mask == 0
  }

  predicate ValidDate(f: Frame) {
    && 0 < f.year < 0xffff && 1 <= f.month <= 12 && 1 <= f.day <= 31
    && f.hour <= 23 && f.minute <= 59 && f.second <= 59
  }

  function VersionBits(hb: HeaderBits, head: bv16): bv16 { head & hb.mask }

  function OtherBits(hb: HeaderBits, head: bv16): bv16 { head & !hb.mask }

  predicate IsUnixNs(hb: HeaderBits, f: Frame) {
    VersionBits(hb, f.head) == hb.unixNs
  }

  function SetUnixNs(hb: HeaderBits, head: bv16): bv16 {
    (head & !hb.mask) | hb.unixNs
  }

  /** `toNs` is the date conversion, with any result; `clock` the current time. */
  function Normalise(hb: HeaderBits, toNs: Frame -> int, clock: nat, f: Frame): Frame {
    if !IsUnixNs(hb, f) then
      var ns := if ValidDate(f) then toNs(f) else -1;
      f.(head := SetUnixNs(hb, f.head), year := 0xffff, month := 0xff,
         timestampNs := if ns > 0 then ns else clock)
    else if f.timestampNs == 0 then f.(timestampNs := clock)
    else f
  }

  lemma SetUnixNsBits(hb: HeaderBits, head: bv16)
    requires ValidBits(hb)
    ensures VersionBits(hb, SetUnixNs(hb, head)) == hb.unixNs
    ensures OtherBits(hb, SetUnixNs(hb, head)) == OtherBits(hb, head)
  {
  }

  /** Main result. Every normalised frame is a nanosecond frame with a time stamp, whatever
      the date conversion answers, and no other header bit has changed. */
  lemma NormalisedIsUnixNs(hb: HeaderBits, toNs: Frame -> int, clock: nat, f: Frame)
    requires ValidBits(hb)
    ensures IsUnixNs(hb, Normalise(hb, toNs, clock, f))
    ensures OtherBits(hb, Normalise(hb, toNs, clock, f).head) == OtherBits(hb, f.head)
    ensures Normalise(hb, toNs, clock, f).timestampNs == 0 ==> clock == 0
  {
    SetUnixNsBits(hb, f.head);
    hide SetUnixNs, VersionBits, OtherBits;
  }

  /** Main result. A frame of another version becomes a nanosecond frame without calendar date,
      stamped with its own date if that is in range and converts to a positive time, and with the
      clock otherwise; nothing else in it changes. */
  lemma OtherVersionFields(hb: HeaderBits, toNs: Frame -> int, clock: nat, f: Frame)
    requires f.head & hb.mask != hb.unixNs
    ensures var dated := 0 < f.year < 0xffff && 1 <= f.month <= 12 && 1 <= f.day <= 31 && f.hour <= 23
                         && f.minute <= 59 && f.second <= 59 && toNs(f) > 0;
            Normalise(hb, toNs, clock, f)
            == Frame((f.head & !hb.mask) | hb.unixNs, 0xffff, 0xff, f.day, f.hour, f.minute, f.second,
                     f.timestamp, if dated then toNs(f) else clock)
  {
    OtherVersion(hb, toNs, clock, f);
    assert SetUnixNs(hb, f.head) == (f.head & !hb.mask) | hb.unixNs;
    hide SetUnixNs, Normalise;
  }

  lemma OtherVersion(hb: HeaderBits, toNs: Frame -> int, clock: nat, f: Frame)
    requires !IsUnixNs(hb, f)
    ensures Normalise(hb, toNs, clock, f)
         == f.(head := SetUnixNs(hb, f.head), year := 0xffff, month := 0xff,
               timestampNs := if ValidDate(f) && toNs(f) > 0 then toNs(f) else clock)
  {
    hide IsUnixNs, SetUnixNs, ValidDate;
  }

  /** A nanosecond frame keeps everything but a zero stamp, which becomes the clock. */
  lemma NanosecondFields(hb: HeaderBits, toNs: Frame -> int, clock: nat, f: Frame)
    requires f.head & hb.mask == hb.unixNs
    ensures Normalise(hb, toNs, clock, f)
         == Frame(f.head, f.year, f.month, f.day, f.hour, f.minute, f.second, f.timestamp,
                  if f.timestampNs == 0 then clock else f.timestampNs)
  {
    assert IsUnixNs(hb, f);
    hide IsUnixNs;
  }

  /** Main result. Normalising again, at any later time, changes nothing. */
  lemma NormaliseIdempotent(hb: HeaderBits, toNs: Frame -> int, clock: nat, later: nat, f: Frame)
    requires ValidBits(hb) && clock != 0
    ensures Normalise(hb, toNs, later, Normalise(hb, toNs, clock, f)) == Normalise(hb, toNs, clock, f)
  {
    NormalisedIsUnixNs(hb, toNs, clock, f);
  }

  /** Frames that already are nanosecond frames with a time stamp are left alone, and only those. */
  lemma NormaliseFixedIff(hb: HeaderBits, toNs: Frame -> int, clock: nat, f: Frame)
    requires ValidBits(hb) && clock != 0
    ensures Normalise(hb, toNs, clock, f) == f <==> IsUnixNs(hb, f) && f.timestampNs != 0
  {
    NormalisedIsUnixNs(hb, toNs, clock, f);
  }
}
