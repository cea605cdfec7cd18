/**
 * The event handlers of src/bpf/stable/0010-Huion__Kamvas16Gen3.bpf.c and
 * 0010-Huion__Kamvas13Gen3.bpf.c, which rewrite vendor reports in place and
 * remember the held button from one report to the next.
 */
module KamvasEvents {
  import opened Bits
  import opened LittleEndian
  import opened ReportLayout
  import opened FieldExtraction
  import opened FieldReadout
  import opened Kamvas16Descriptor
  import opened Options

  /** The two programs differ in the pen branch: the 13 has no 24-bit X. */
  datatype Model = Kamvas13 | Kamvas16

  const VENDOR_REPORT_ID: byte := 0x08
  const VENDOR_REPORT_LENGTH := 14
  const CUSTOM_PAD_REPORT_ID: byte := 0x09
  const PAD_REPORT_LENGTH := 7

  const SUBTYPE_PEN := 0x08
  const SUBTYPE_PEN_OUT := 0x00
  const SUBTYPE_BUTTONS := 0x0e
  const SUBTYPE_WHEELS := 0x0f

  /** What a raw report says; a wheel moves by 1 or -1, as a signed byte. */
  datatype Event =
    | Ignored
    | Pen
    | Buttons(mask: byte)
    | Wheels(top: byte, bottom: byte)

  /** What a handler leaves behind: its global, the report, and its return value */
  datatype Outcome = Outcome(lastButtonState: byte, data: seq<byte>, returned: int)

  predicate IsVendorReport(data: seq<byte>, size: int) {
    |data| >= VENDOR_REPORT_LENGTH && size == VENDOR_REPORT_LENGTH && data[0] == VENDOR_REPORT_ID
  }

  function Clockwise(b: byte): byte {
    if b == 1 then 1 else 0xff
  }

  function Classify(data: seq<byte>, size: int): Event {
    if !IsVendorReport(data, size) then Ignored
    else
      var subtype := data[1] / 16;
      if subtype == SUBTYPE_PEN || subtype == SUBTYPE_PEN_OUT then Pen
      else if subtype == SUBTYPE_BUTTONS then Buttons(data[4])
      else if subtype == SUBTYPE_WHEELS then
        Wheels(if data[3] == 1 then Clockwise(data[5]) else 0, if data[3] == 2 then Clockwise(data[5]) else 0)
      else Ignored
  }

  /** `-b` on a `__u8` */
  function Negated(b: byte): byte {
    (256 - b as int) % 256
  }

  /** Byte k of a rewritten pen report: the 16 moves byte 8, the top of X, to 4 and bytes 4 to 7 up by one. */
  function PenByte(model: Model, data: seq<byte>, k: nat): byte
    requires k < |data| && VENDOR_REPORT_LENGTH <= |data|
  {
    if k == 11 then Negated(data[11])
    else if model == Kamvas13 then data[k]
    else if k == 4 then data[8]
    else if 5 <= k <= 8 then data[k - 1]
    else data[k]
  }

  function RewrittenPen(model: Model, data: seq<byte>): seq<byte>
    requires |data| >= VENDOR_REPORT_LENGTH
  {
    seq(|data|, k requires 0 <= k < |data| => PenByte(model, data, k))
  }

  /** The bit-field write clears only the lowest bit of byte 1. */
  function RewrittenPad(data: seq<byte>, buttons: byte, top: byte, bottom: byte): seq<byte>
    requires |data| >= VENDOR_REPORT_LENGTH
  {
    [CUSTOM_PAD_REPORT_ID, data[1] - data[1] % 2, 0, 0, buttons, top, bottom] + data[PAD_REPORT_LENGTH..]
  }

  /** A held button hides every other press. */
  function Hold(held: byte, mask: byte): byte {
    if held != 0 && mask != 0 then held else mask
  }

  function Handle(model: Model, held: byte, data: seq<byte>, size: int): Outcome {
    match Classify(data, size)
    case Ignored => Outcome(held, data, 0)
    case Pen => Outcome(held, RewrittenPen(model, data), 0)
    case Buttons(mask) => Outcome(Hold(held, mask), RewrittenPad(data, Hold(held, mask), 0, 0), PAD_REPORT_LENGTH)
    case Wheels(top, bottom) => Outcome(held, RewrittenPad(data, held, top, bottom), PAD_REPORT_LENGTH)
  }

  lemma PenBytes(model: Model, data: seq<byte>, out: seq<byte>)
    requires |out| == |data| >= VENDOR_REPORT_LENGTH
    requires forall k :: 0 <= k < |data| ==> out[k] == PenByte(model, data, k)
    ensures out == RewrittenPen(model, data)
  {}

  class Handler {
    const model: Model
    var lastButtonState: byte

    constructor (model: Model)
      ensures this.model == model && lastButtonState == 0
    {
      this.model := model;
      lastButtonState := 0;
    }

    /** The pen branch: mirrors Y tilt and, on the 16, moves the third byte of X next to the others. */
    method FixPen(data: array<byte>)
      requires data.Length >= VENDOR_REPORT_LENGTH
      modifies data
      ensures forall k :: 0 <= k < data.Length ==> data[k] == PenByte(model, old(data[..]), k)
    {
      hide Negated;
      MirrorTilt(data);
      if model == Kamvas16 { MoveX(data); }
    }

    static method MirrorTilt(data: array<byte>)
      requires data.Length >= VENDOR_REPORT_LENGTH
      modifies data
      ensures forall k :: 0 <= k < data.Length ==> data[k] == if k == 11 then Negated(old(data[11])) else old(data[k])
    {
      var tilt: int := data[11];
      data[11] := -tilt % 256;
    }

    /** Puts byte 8 in front of bytes 4 to 7. */
    static method MoveX(data: array<byte>)
      requires data.Length >= VENDOR_REPORT_LENGTH
      modifies data
      ensures forall k :: 0 <= k < data.Length ==>
                data[k] == if k == 4 then old(data[8]) else if 5 <= k <= 8 then old(data[k - 1]) else old(data[k])
    {
      var x24 := data[8];
      data[8] := data[7];
      data[7] := data[6];
      data[6] := data[5];
      data[5] := data[4];
      data[4] := x24;
    }

    /** Overlays the seven bytes of `struct pad_report`. */
    method WritePad(data: array<byte>, top: byte, bottom: byte)
      requires data.Length >= VENDOR_REPORT_LENGTH
      modifies data
      ensures data[..] == RewrittenPad(old(data[..]), lastButtonState, top, bottom)
    {
      data[0] := CUSTOM_PAD_REPORT_ID;
      data[1] := data[1] - data[1] % 2;
      data[2] := 0;
      data[3] := 0;
      data[4] := lastButtonState;
      data[5] := top;
      data[6] := bottom;
    }

    /** `hid_fix_event_huion_kamvas16_gen3` and its `kamvas13` twin. A buffer under 14 bytes yields no data. */
    method FixEvent(data: array<byte>, size: int) returns (ret: int)
      modifies this`lastButtonState, data
      ensures Outcome(lastButtonState, data[..], ret) == Handle(model, old(lastButtonState), old(data[..]), size)
    {
      hide RewrittenPen, RewrittenPad;
      if data.Length < VENDOR_REPORT_LENGTH { return 0; }
      if size != VENDOR_REPORT_LENGTH { return 0; }
      if data[0] != VENDOR_REPORT_ID { return 0; }

      var subtype := data[1] / 16 % 16;

      if subtype == SUBTYPE_PEN || subtype == SUBTYPE_PEN_OUT {
        ghost var raw := data[..];
        FixPen(data);
        PenBytes(model, raw, data[..]);
      } else if subtype == SUBTYPE_BUTTONS || subtype == SUBTYPE_WHEELS {
        var top: byte, bottom: byte := 0, 0;
        if subtype == SUBTYPE_WHEELS {
          if data[3] == 1 {
            top := if data[5] == 1 then 1 else 0xff;
          } else if data[3] == 2 {
            bottom := if data[5] == 1 then 1 else 0xff;
          }
        } else if !(lastButtonState != 0 && data[4] != 0) {
          lastButtonState := data[4];
        }
        WritePad(data, top, bottom);
        return PAD_REPORT_LENGTH;
      }
      return 0;
    }
  }

  // ----- Raw reports -----

  /** A vendor report of the expected length with this number in the high half of its second byte */
  predicate IsRaw(data: seq<byte>, size: int, subtype: nat) {
    |data| >= 14 && size == 14 && data[0] == 0x08 && data[1] / 16 == subtype
  }

  predicate IsPen(data: seq<byte>, size: int) {
    IsRaw(data, size, 0x08) || IsRaw(data, size, 0x00)
  }

  predicate IsButtons(data: seq<byte>, size: int) {
    IsRaw(data, size, 0x0e)
  }

  predicate IsWheels(data: seq<byte>, size: int) {
    IsRaw(data, size, 0x0f)
  }

  /** Byte k of a pen report on the 16 comes from here: byte 8 moves to 4, and 4 to 7 move up by one. */
  function MovedFrom(k: nat): nat {
    if k == 4 then 8 else if k == 5 then 4 else if k == 6 then 5 else if k == 7 then 6 else if k == 8 then 7 else k
  }

  /**
   * What each raw report does: a pen report is rewritten at its own length, byte
   * 11 negated and on the 16 X made contiguous; a button or wheel report becomes
   * a pad report of seven bytes; anything else stays as it is. Only button
   * reports change what is held.
   */
  lemma Branches(model: Model, held: byte, data: seq<byte>, size: int)
    ensures var o := Handle(model, held, data, size);
            && (IsPen(data, size) ==>
                  && o.returned == 0 && o.lastButtonState == held && |o.data| == |data|
                  && o.data[11] == (256 - data[11] as int) % 256
                  && forall k :: 0 <= k < |data| && k != 11 ==>
                       o.data[k] == if model == Kamvas16 then data[MovedFrom(k)] else data[k])
            && (IsButtons(data, size) || IsWheels(data, size) ==>
                  && o.returned == 7 && |o.data| == |data|
                  && o.data[0] == 0x09 && o.data[1] == data[1] - data[1] % 2 && o.data[2] == o.data[3] == 0
                  && o.data[4] == o.lastButtonState && o.data[7..] == data[7..])
            && (!IsPen(data, size) && !IsButtons(data, size) && !IsWheels(data, size) ==>
                  o == Outcome(held, data, 0))
            && (!IsButtons(data, size) ==> o.lastButtonState == held)
  {}

  // ----- What the host reads -----

  function Signed(b: nat): int {
    if b < 128 then b else b - 256
  }

  /**
   * A report read with the rewritten descriptor says what a raw one said: X is
   * the 24-bit value split over bytes 2, 3 and 8, and Y tilt is mirrored (except
   * -128, which has no negation in a byte).
   */
  ghost predicate SaysSamePen(raw: seq<byte>, out: seq<byte>) {
    && |out| == |raw| >= 14
    && out[..2] == raw[..2] && out[9] == raw[9] && out[12..] == raw[12..]
    && ReadsAs(out, Word24(raw[2], raw[3], raw[8]), Word16(raw[4], raw[5]), Word16(raw[6], raw[7]), raw[10],
               if raw[11] == 128 then -128 else -Signed(raw[11]))
  }

  /** The five fields of a pen report, read with the rewritten descriptor */
  ghost predicate ReadsAs(out: seq<byte>, x: nat, y: nat, pressure: nat, xTilt: nat, yTilt: int) {
    && ReadInput(Layout(), PEN_REPORT, X(), out) == x
    && ReadInput(Layout(), PEN_REPORT, Y(), out) == y
    && ReadInput(Layout(), PEN_REPORT, TipPressure(), out) == pressure
    && ReadInput(Layout(), PEN_REPORT, XTilt(), out) == xTilt
    && Signed(ReadInput(Layout(), PEN_REPORT, YTilt(), out)) == yTilt
  }

  /** Every raw pen report of the Kamvas 16 keeps its meaning. */
  lemma PenReadout(held: byte, data: seq<byte>, size: int)
    requires IsPen(data, size)
    ensures SaysSamePen(data, Handle(Kamvas16, held, data, size).data)
  {
    hide FieldBits, Layout, FieldValue, Number;
    PenLayout();
    var out := Handle(Kamvas16, held, data, size).data;
    ThreeBytesField(out, 2);
    TwoBytesField(out, 5);
    TwoBytesField(out, 7);
    AlignedByte(out, 80, 88);
    AlignedByte(out, 88, 96);
  }

  /** So do its switches: they are the low four bits and the highest bit of the second byte. */
  lemma PenSwitchReadout(held: byte, data: seq<byte>, size: int)
    requires IsPen(data, size)
    ensures var out := Handle(Kamvas16, held, data, size).data;
            && ReadInput(Layout(), 8, UsageId(0x0d, 0x42), out) == BoolBit(Bit(data[1], 0))
            && ReadInput(Layout(), 8, UsageId(0x0d, 0x44), out) == BoolBit(Bit(data[1], 1))
            && ReadInput(Layout(), 8, UsageId(0x0d, 0x5a), out) == BoolBit(Bit(data[1], 2))
            && ReadInput(Layout(), 8, UsageId(0x09, 0x4a), out) == BoolBit(Bit(data[1], 3))
            && ReadInput(Layout(), 8, UsageId(0x0d, 0x32), out) == BoolBit(Bit(data[1], 7))
  {
    hide FieldBits, Layout, FieldValue, Bit;
    PenSwitchLayout();
    var out := Handle(Kamvas16, held, data, size).data;
    assert out[1] == data[1];
    OneBit(out, 8);
    OneBit(out, 9);
    OneBit(out, 10);
    OneBit(out, 11);
    OneBit(out, 15);
  }

  // ----- Histories -----

  /** A raw report and the size the kernel announces for it */
  datatype RawReport = RawReport(data: seq<byte>, size: int)

  /** The handler's global after some reports, from its initial 0 */
  function HeldAfter(model: Model, reports: seq<RawReport>): byte {
    if reports == [] then 0
    else
      var n := |reports| - 1;
      Handle(model, HeldAfter(model, reports[..n]), reports[n].data, reports[n].size).lastButtonState
  }

  /** What becomes of report i of a run */
  function OutcomeAt(model: Model, reports: seq<RawReport>, i: nat): Outcome
    requires i < |reports|
  {
    Handle(model, HeldAfter(model, reports[..i]), reports[i].data, reports[i].size)
  }

  /** The fifth bytes of the raw button reports among some reports, in order */
  function Masks(reports: seq<RawReport>): seq<byte> {
    if reports == [] then []
    else
      var n := |reports| - 1;
      if IsButtons(reports[n].data, reports[n].size) then Masks(reports[..n]) + [reports[n].data[4]]
      else Masks(reports[..n])
  }

  /** Where the masks since the last zero one begin */
  ghost predicate HoldBegins(masks: seq<byte>, k: nat) {
    && k <= |masks|
    && (k == 0 || masks[k - 1] == 0)
    && (forall i :: k <= i < |masks| ==> masks[i] != 0)
  }

  /** `held` is the first nonzero mask since the last zero one, or 0 when there is none. */
  ghost predicate IsFirstSinceRelease(masks: seq<byte>, held: byte) {
    exists k: nat :: HoldBegins(masks, k) && held == if k < |masks| then masks[k] else 0
  }

  lemma HeldExtends(masks: seq<byte>, held: byte, mask: byte)
    requires IsFirstSinceRelease(masks, held)
    ensures IsFirstSinceRelease(masks + [mask], Hold(held, mask))
  {
    var k: nat :| HoldBegins(masks, k) && held == if k < |masks| then masks[k] else 0;
    var next: nat := if mask == 0 then |masks| + 1 else k;
    assert HoldBegins(masks + [mask], next);
  }

  lemma {:induction false} HeldIsFirstSinceRelease(model: Model, reports: seq<RawReport>)
    ensures IsFirstSinceRelease(Masks(reports), HeldAfter(model, reports))
  {
    hide IsFirstSinceRelease;
    if reports == [] {
      NothingHeld();
    } else {
      var n := |reports| - 1;
      HeldIsFirstSinceRelease(model, reports[..n]);
      var event := Classify(reports[n].data, reports[n].size);
      if event.Buttons? {
        HeldExtends(Masks(reports[..n]), HeldAfter(model, reports[..n]), event.mask);
      }
    }
  }

  lemma NothingHeld()
    ensures IsFirstSinceRelease([], 0)
  {
    assert HoldBegins([], 0);
  }

  predicate IsPadEvent(r: RawReport) {
    IsButtons(r.data, r.size) || IsWheels(r.data, r.size)
  }

  /** How far a raw report turns wheel 1, the top one, or 2: clockwise is positive. */
  function WheelMove(raw: seq<byte>, wheel: byte): int
    requires |raw| >= 14
  {
    if raw[1] / 16 != 0x0f || raw[3] != wheel then 0 else if raw[5] == 1 then 1 else -1
  }

  /**
   * In every run each pad report carries the first nonzero mask since the last
   * zero one, whatever pen and wheel reports came between, and moves the wheel
   * the raw report names, at most one.
   */
  lemma PadReportsInRun(model: Model, reports: seq<RawReport>, i: nat)
    requires i < |reports| && IsPadEvent(reports[i])
    ensures OutcomeAt(model, reports, i).returned == 7
    ensures var raw, out := reports[i].data, OutcomeAt(model, reports, i).data;
            && |out| == |raw| && out[0] == 0x09 && out[1] == raw[1] - raw[1] % 2 && out[2] == out[3] == 0
            && out[7..] == raw[7..]
            && IsFirstSinceRelease(Masks(reports[..i + 1]), out[4])
            && Signed(out[5]) == WheelMove(raw, 1) && Signed(out[6]) == WheelMove(raw, 2)
            && (out[5] == 0 || out[6] == 0)
  {
    hide IsFirstSinceRelease;
    HeldIsFirstSinceRelease(model, reports[..i + 1]);
    assert reports[..i + 1][..i] == reports[..i];
  }

  /** The button mask a handled report passes on, if it is a pad report */
  function ReportedMask(o: Outcome): Option<byte> {
    if o.returned == 7 && |o.data| >= 7 then Some(o.data[4]) else None
  }

  lemma {:induction false} StaysHeld(model: Model, reports: seq<RawReport>, i: nat, j: nat)
    requires i <= j <= |reports| && HeldAfter(model, reports[..i]) != 0
    requires forall k :: i <= k < j ==> ReportedMask(OutcomeAt(model, reports, k)) != Some(0)
    ensures HeldAfter(model, reports[..j]) == HeldAfter(model, reports[..i])
    decreases j
  {
    if i < j {
      StaysHeld(model, reports, i, j - 1);
      assert reports[..j][..j - 1] == reports[..j - 1];
      assert ReportedMask(OutcomeAt(model, reports, j - 1)) != Some(0);
    }
  }

  /** Between pad reports with different nonzero masks there is one with no button down. */
  lemma NeverFromButtonToButton(model: Model, reports: seq<RawReport>, i: nat, j: nat)
    requires i < j < |reports|
    requires var a, b := ReportedMask(OutcomeAt(model, reports, i)), ReportedMask(OutcomeAt(model, reports, j));
             a.Some? && b.Some? && a.value != 0 && b.value != 0 && a != b
    ensures exists k :: i < k < j && ReportedMask(OutcomeAt(model, reports, k)) == Some(0)
  {
    if forall k :: i < k < j ==> ReportedMask(OutcomeAt(model, reports, k)) != Some(0) {
      assert reports[..i + 1][..i] == reports[..i];
      assert reports[..j + 1][..j] == reports[..j];
      assert ReportedMask(OutcomeAt(model, reports, j)) != Some(0);
      StaysHeld(model, reports, i + 1, j + 1);
      assert false;
    }
  }

  /** A pad report, read with the descriptor: button i is bit i - 1 of the held mask, and the wheels are the moves. */
  ghost predicate ShowsPad(masks: seq<byte>, raw: seq<byte>, o: Outcome, i: nat)
    requires i > 0
  {
    && |raw| >= 14 && o.returned == 7 <= |o.data|
    && var pad := o.data[..7];
    && IsFirstSinceRelease(masks, pad[4])
    && ReadInput(Layout(), 9, UsageId(0x09, i), pad) == BoolBit(Bit(pad[4], i - 1))
    && Signed(ReadInput(Layout(), 9, UsageId(0x01, 0x38), pad)) == WheelMove(raw, 1)
    && Signed(ReadInput(Layout(), 9, UsageId(0x0c, 0x238), pad)) == WheelMove(raw, 2)
  }

  /** So does every pad report of every history. */
  lemma PadReadout(reports: seq<RawReport>, at: nat, i: nat)
    requires at < |reports| && IsPadEvent(reports[at]) && 1 <= i <= 8
    ensures ShowsPad(Masks(reports[..at + 1]), reports[at].data, OutcomeAt(Kamvas16, reports, at), i)
  {
    hide FieldBits, Layout, FieldValue, IsFirstSinceRelease, Bit, OutcomeAt, Masks;
    PadReportsInRun(Kamvas16, reports, at);
    PadLayout(i);
    var out := OutcomeAt(Kamvas16, reports, at).data[..7];
    AlignedByte(out, 40, 48);
    AlignedByte(out, 48, 56);
    OneBit(out, 31 + i);
  }
}
