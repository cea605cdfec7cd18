/**
 * The event handler of src/bpf/stable/0010-Huion__Dial-2.bpf.c. In firmware mode
 * pad and dial reports arrive on different nodes and share one button byte.
 */
module DialEvents {
  import opened Bits
  import opened FieldExtraction
  import opened FieldReadout
  import opened ReportLayout
  import opened DialDescriptor

  const PAD_REPORT_ID: byte := 3
  const DIAL_REPORT_ID: byte := 17
  const VENDOR_REPORT_ID: byte := 8
  const DATA_SIZE := 16
  const PAD_OUT := 8
  const DIAL_OUT := 6
  const VENDOR_OUT := 7

  /** Which of the six keys a firmware pad report shows, as a button bit; anything else is no button. */
  function Pressed(data: seq<byte>): byte
    requires |data| >= DATA_SIZE
  {
    match (data[2], data[3], data[4])
    case (0x05, 0x00, 0x00) => 0x01
    case (0x08, 0x00, 0x00) => 0x02
    case (0x0c, 0x00, 0x00) => 0x04
    case (0xe0, 0x16, 0x00) => 0x08
    case (0x2c, 0x00, 0x00) => 0x10
    case (0xe0, 0xe2, 0x1d) => 0x20
    case _ => 0x00
  }

  datatype Event = Ignored | Pad(pressed: byte) | Dial(down: bool) | Vendor

  function Classify(data: seq<byte>): Event {
    if |data| < DATA_SIZE then Ignored
    else if data[0] == PAD_REPORT_ID then Pad(Pressed(data))
    else if data[0] == DIAL_REPORT_ID then Dial(data[1] != 0)
    else if data[0] == VENDOR_REPORT_ID && data[1] / 32 % 2 == 1 then Vendor
    else Ignored
  }

  /** The handler's two variables, the report, and the returned size */
  datatype Outcome = Outcome(button: byte, lastButtonState: byte, data: seq<byte>, returned: nat)

  /** Bits 0 to 5 of the shared byte are the pad's, bit 6 is the dial's. */
  function Shared(pressed: nat, down: bool): nat {
    pressed + 64 * BoolBit(down)
  }

  /** Counter-clockwise is 2 in a raw report and -1 in a rewritten one. */
  function Move(d: byte): byte {
    if d == 2 then 0xff else d
  }

  function VendorReport(data: seq<byte>, held: byte): seq<byte>
    requires |data| >= DATA_SIZE
  {
    var d := if data[1] != 0xf1 then 0 else Move(data[5]);
    var first := data[3] == 1;
    [PAD_REPORT_ID, 0, 0, 0, held, if first then d else 0, if first then 0 else d] + data[VENDOR_OUT..]
  }

  /** `button &= 0xc0; button |= BIT(n)`, then `button &= 0x3f; button |= !!data[1] << 6` */
  function PadButton(button: byte, pressed: byte): byte {
    Or(And(button, 0xc0), pressed) % 256
  }

  function DialButton(button: byte, down: bool): byte {
    Or(And(button, 0x3f), Shl(BoolBit(down), 6)) % 256
  }

  function Handle(button: byte, held: byte, data: seq<byte>): Outcome {
    match Classify(data)
    case Ignored => Outcome(button, held, data, 0)
    case Pad(pressed) =>
      var b := PadButton(button, pressed);
      Outcome(b, held, [PAD_REPORT_ID, 0, 0, 0, 0, b, 0, 0] + data[PAD_OUT..], PAD_OUT)
    case Dial(down) =>
      var b := DialButton(button, down);
      Outcome(b, held, [PAD_REPORT_ID, 0, 0, 0, data[2], b] + data[DIAL_OUT..], DIAL_OUT)
    case Vendor =>
      var h := if data[1] == 0xf1 then held else data[4];
      Outcome(button, h, VendorReport(data, h), VENDOR_OUT)
  }

  class Handler {
    var button: byte
    var lastButtonState: byte

    constructor ()
      ensures button == 0 && lastButtonState == 0
    {
      button, lastButtonState := 0, 0;
    }

    /** Copies a report over the start of the data. */
    static method Memcpy(data: array<byte>, report: seq<byte>)
      requires |report| <= data.Length
      modifies data
      ensures data[..] == report + old(data[..])[|report|..]
    {
      for i := 0 to |report|
        invariant data[..i] == report[..i] && data[i..] == old(data[..])[i..]
      {
        data[i] := report[i];
      }
    }

    /** `dial_2_fix_events` */
    method FixEvents(data: array<byte>) returns (ret: nat)
      modifies this, data
      ensures Outcome(button, lastButtonState, data[..], ret)
           == Handle(old(button), old(lastButtonState), old(data[..]))
    {
      hide And, Or, Low;
      ghost var raw := data[..];
      if data.Length < DATA_SIZE { return 0; }

      if data[0] == PAD_REPORT_ID {
        var key := data[2] as int * 0x1_0000 + data[3] as int * 0x100 + data[4] as int;
        var bit: byte :=
          if key == 0x05_0000 then 0x01
          else if key == 0x08_0000 then 0x02
          else if key == 0x0c_0000 then 0x04
          else if key == 0xe0_1600 then 0x08
          else if key == 0x2c_0000 then 0x10
          else if key == 0xe0_e21d then 0x20
          else 0x00;
        assert bit == Pressed(raw);
        button := PadButton(button, bit);
        Memcpy(data, [PAD_REPORT_ID, 0, 0, 0, 0, button, 0, 0]);
        return PAD_OUT;
      }

      if data[0] == DIAL_REPORT_ID {
        var dial := data[3] as int * 0x100 + data[2] as int;
        button := DialButton(button, data[1] != 0);
        Memcpy(data, [PAD_REPORT_ID, 0, 0, 0, dial % 0x100, button]);
        return DIAL_OUT;
      }

      if data[0] == VENDOR_REPORT_ID {
        if data[1] / 32 % 2 == 1 {
          var dial1: byte, dial2: byte := 0, 0;
          if data[1] == 0xf1 {
            var d := if data[5] == 2 then 0xff else data[5];
            if data[3] == 1 {
              dial1 := d;
            } else {
              dial2 := d;
            }
          } else {
            lastButtonState := data[4];
          }
          Memcpy(data, [PAD_REPORT_ID, 0, 0, 0, lastButtonState, dial1, dial2]);
          return VENDOR_OUT;
        }
      }
      return 0;
    }
  }

  // ----- Raw reports -----

  /** Of the pad in firmware mode */
  predicate IsPad(raw: seq<byte>) {
    |raw| >= 16 && raw[0] == 3
  }

  /** Of the dial in firmware mode */
  predicate IsDial(raw: seq<byte>) {
    |raw| >= 16 && raw[0] == 17
  }

  /** Of the pad in vendor mode */
  predicate IsVendor(raw: seq<byte>) {
    |raw| >= 16 && raw[0] == 8 && Bit(raw[1], 5)
  }

  /** The shortcuts of the six keys: B, E, I, Ctrl S, Space and Ctrl Alt Z */
  const SHORTCUTS: seq<seq<byte>> := [
    [0x05, 0x00, 0x00], [0x08, 0x00, 0x00], [0x0c, 0x00, 0x00], [0xe0, 0x16, 0x00], [0x2c, 0x00, 0x00],
    [0xe0, 0xe2, 0x1d]
  ]

  /** The shortcut in the latest pad report */
  function LatestShortcut(reports: seq<seq<byte>>): seq<byte> {
    if reports == [] then [0, 0, 0]
    else
      var raw := reports[|reports| - 1];
      if IsPad(raw) then raw[2..5] else LatestShortcut(reports[..|reports| - 1])
  }

  lemma VendorBit(b: byte)
    ensures Bit(b, 5) <==> b / 32 % 2 == 1
  {
    hide Bit, Shr;
    BitIsShr(b, 5);
    ShrIsDivision(b, 5);
    Pow2Values();
  }

  /** Other reports change nothing, and each kind has its own length afterwards. */
  lemma Branches(button: byte, held: byte, data: seq<byte>)
    ensures var o := Handle(button, held, data);
            && (IsPad(data) ==> o.returned == 8)
            && (IsDial(data) ==> o.returned == 6)
            && (IsVendor(data) ==> o.returned == 7)
            && (!IsPad(data) && !IsDial(data) && !IsVendor(data) ==> o == Outcome(button, held, data, 0))
  {
    hide PadButton, DialButton, Bit;
    if |data| >= 16 { VendorBit(data[1]); }
  }

  lemma BitsOfPressed(data: seq<byte>, i: nat)
    requires |data| >= 16 && i < 6
    ensures Bit(Pressed(data), i) <==> data[2..5] == SHORTCUTS[i]
  {
    hide Bit;
    Pow2Values();
    ZeroHasNoBit(i);
    BitOfPow2(0, i);
    BitOfPow2(1, i);
    BitOfPow2(2, i);
    BitOfPow2(3, i);
    BitOfPow2(4, i);
    BitOfPow2(5, i);
    assert data[2..5] == [data[2], data[3], data[4]];
  }

  // ----- Two machines in one byte -----

  lemma PadUpdates(pressed: byte, down: bool, pressed': byte)
    requires pressed < 64 && pressed' < 64
    ensures Shared(pressed, down) < 256
    ensures PadButton(Shared(pressed, down), pressed') == Shared(pressed', down)
  {
    hide And, Or, Low, Shr;
    var b := Shared(pressed, down);
    Pow2Sixes();
    assert Shl(3, 6) == 0xc0 && Shl(BoolBit(down), 6) == 64 * BoolBit(down);
    AndShifted(b, 3, 6);
    ShrIsDivision(b, 6);
    AndLowMask(BoolBit(down), 2);
    LowSmall(BoolBit(down), 2);
    OrDisjoint(pressed', BoolBit(down), 6);
    OrCommutes(Shl(BoolBit(down), 6), pressed');
  }

  lemma DialUpdates(pressed: byte, down: bool, down': bool)
    requires pressed < 64
    ensures Shared(pressed, down) < 256
    ensures DialButton(Shared(pressed, down), down') == Shared(pressed, down')
  {
    hide And, Or, Low;
    var b := Shared(pressed, down);
    Pow2Sixes();
    AndLowMask(b, 6);
    assert b == pressed + Shl(BoolBit(down), 6);
    LowOfSum(pressed, BoolBit(down), 6, 6);
    LowSmall(pressed, 6);
    OrDisjoint(pressed, BoolBit(down'), 6);
  }

  lemma Pow2Sixes()
    ensures Pow2(2) == 4 && Pow2(6) == 64 && Pow2(8) == 256
  {
    Pow2Values();
  }

  /** What the pad alone says: the key of the latest pad report */
  function LatestPressed(reports: seq<seq<byte>>): byte {
    if reports == [] then 0
    else
      var n := |reports| - 1;
      match Classify(reports[n])
      case Pad(pressed) => pressed
      case _ => LatestPressed(reports[..n])
  }

  /** What the dial alone says: the button of the latest dial report */
  predicate LatestDown(reports: seq<seq<byte>>) {
    reports != []
    && (var raw := reports[|reports| - 1];
        if IsDial(raw) then raw[1] != 0 else LatestDown(reports[..|reports| - 1]))
  }

  /** The handler after some reports, from its initial state */
  function After(reports: seq<seq<byte>>): Outcome {
    if reports == [] then Outcome(0, 0, [], 0)
    else
      var n := |reports| - 1;
      var before := After(reports[..n]);
      Handle(before.button, before.lastButtonState, reports[n])
  }

  lemma {:induction false} LatestPressedBits(reports: seq<seq<byte>>, i: nat)
    requires i < 6
    ensures LatestPressed(reports) < 64
    ensures Bit(LatestPressed(reports), i) <==> LatestShortcut(reports) == SHORTCUTS[i]
  {
    hide Bit;
    if reports == [] {
      ZeroHasNoBit(i);
    } else {
      var raw := reports[|reports| - 1];
      LatestPressedBits(reports[..|reports| - 1], i);
      if IsPad(raw) { BitsOfPressed(raw, i); }
    }
  }

  lemma {:induction false} ButtonIsShared(reports: seq<seq<byte>>)
    ensures LatestPressed(reports) < 64
    ensures After(reports).button == Shared(LatestPressed(reports), LatestDown(reports))
  {
    hide PadButton, DialButton, Bit;
    LatestPressedBits(reports, 0);
    if reports != [] {
      var n := |reports| - 1;
      ButtonIsShared(reports[..n]);
      match Classify(reports[n])
      case Pad(pressed) => PadUpdates(LatestPressed(reports[..n]), LatestDown(reports[..n]), pressed);
      case Dial(down) => DialUpdates(LatestPressed(reports[..n]), LatestDown(reports[..n]), down);
      case _ =>
    }
  }

  lemma BitOfShared(pressed: nat, down: bool, i: nat)
    requires pressed < 64 && i < 8
    ensures Bit(Shared(pressed, down), i) <==> if i < 6 then Bit(pressed, i) else i == 6 && down
  {
    hide Bit, Low, Shr;
    Pow2Sixes();
    Pow2Values();
    assert Shared(pressed, down) == pressed + Shl(BoolBit(down), 6);
    if i < 6 {
      LowOfSum(pressed, BoolBit(down), 6, 6);
      BitOfLow(Shared(pressed, down), 6, i);
      BitOfLow(pressed, 6, i);
    } else if i == 6 {
      BitIsShr(Shared(pressed, down), 6);
      ShrIsDivision(Shared(pressed, down), 6);
    } else {
      NoHighBit(Shared(pressed, down), 7, 7);
    }
  }

  /** Bit i of the shared byte as the raw reports say it */
  predicate Shown(reports: seq<seq<byte>>, i: nat) {
    if i < 6 then LatestShortcut(reports) == SHORTCUTS[i] else i == 6 && LatestDown(reports)
  }

  /**
   * In every interleaving of pad, dial and vendor reports the shared byte is
   * two independent machines side by side: the shortcut in the latest pad report
   * alone decides bits 0 to 5, the button in the latest dial report alone bit
   * 6, and bit 7 is clear.
   */
  lemma ButtonFactors(reports: seq<seq<byte>>, i: nat)
    requires i < 8
    ensures Bit(After(reports).button, i) <==> Shown(reports, i)
  {
    hide Bit, After, Shared, LatestShortcut, LatestDown, LatestPressed;
    ButtonIsShared(reports);
    BitOfShared(LatestPressed(reports), LatestDown(reports), i);
    if i < 6 { LatestPressedBits(reports, i); }
  }

  /** Every firmware report passes that byte on; pad reports carry no dial, dial reports their low byte. */
  lemma FirmwareReports(reports: seq<seq<byte>>)
    requires reports != [] && (IsPad(reports[|reports| - 1]) || IsDial(reports[|reports| - 1]))
    ensures var raw, o := reports[|reports| - 1], After(reports);
            && o.returned == (if IsPad(raw) then 8 else 6) && |o.data| == |raw|
            && o.data[0] == 3 && o.data[1] == o.data[2] == o.data[3] == 0
            && o.data[4] == (if IsDial(raw) then raw[2] else 0) && o.data[5] == o.button
            && (IsPad(raw) ==> o.data[6] == o.data[7] == 0) && o.data[o.returned..] == raw[o.returned..]
  {
    hide PadButton, DialButton;
  }

  // ----- What a host reads -----

  /**
   * Read with the pad's new descriptor, every firmware report of every
   * history shows buttons 1 to 6 as the latest pad report left them and button
   * 7 as the latest dial report did, whichever of the two it is itself; the
   * wheel moves by the low byte of a dial report and not at all for a pad
   * report. Button 8, which the descriptor also declares, never shows.
   */
  lemma FirmwareReadout(reports: seq<seq<byte>>, i: nat)
    requires reports != [] && (IsPad(reports[|reports| - 1]) || IsDial(reports[|reports| - 1]))
    requires 1 <= i < 8
    ensures var raw, o := reports[|reports| - 1], After(reports);
            && o.returned <= |o.data|
            && var out := o.data[..o.returned];
            && ReadInput(Layout(), 3, UsageId(0x09, i), out) == BoolBit(Shown(reports, i - 1))
            && ReadInput(Layout(), 3, UsageId(0x09, 8), out) == 0
            && ReadInput(Layout(), 3, UsageId(0x01, 0x38), out) == if IsDial(raw) then raw[2] else 0
  {
    hide FieldBits, Layout, FieldValue, Bit, LatestShortcut, LatestDown, After;
    FirmwareReports(reports);
    ButtonFactors(reports, i - 1);
    PadLayout(i);
    var out := After(reports).data[..After(reports).returned];
    OneBit(out, 39 + i);
    AlignedByte(out, 32, 40);
  }

  /** The raw button byte of the latest vendor report that is no dial move */
  function LatestVendorButtons(reports: seq<seq<byte>>): byte {
    if reports == [] then 0
    else
      var raw := reports[|reports| - 1];
      if IsVendor(raw) && raw[1] != 0xf1 then raw[4] else LatestVendorButtons(reports[..|reports| - 1])
  }

  lemma {:induction false} VendorHeld(reports: seq<seq<byte>>)
    ensures After(reports).lastButtonState == LatestVendorButtons(reports)
  {
    hide PadButton, DialButton, Bit;
    if reports != [] {
      var raw := reports[|reports| - 1];
      VendorHeld(reports[..|reports| - 1]);
      if |raw| >= 16 { VendorBit(raw[1]); }
    }
  }

  /** How far a raw vendor report turns dial 1, or else dial 2; counter-clockwise is 2 there and -1 as a signed byte. */
  function DialMove(raw: seq<byte>, first: bool): byte
    requires IsVendor(raw)
  {
    if raw[1] != 0xf1 || (raw[3] == 1) != first then 0 else if raw[5] == 2 then 0xff else raw[5]
  }

  /**
   * Vendor reports have their own memory: each passes on the latest raw button
   * byte, whatever firmware and dial reports came between, and moves the dial the raw report names.
   */
  lemma VendorReports(reports: seq<seq<byte>>)
    requires reports != [] && IsVendor(reports[|reports| - 1])
    ensures var raw, o := reports[|reports| - 1], After(reports);
            && o.returned == 7 && |o.data| == |raw|
            && o.data[0] == 3 && o.data[1] == o.data[2] == o.data[3] == 0
            && o.data[4] == LatestVendorButtons(reports)
            && o.data[5] == DialMove(raw, true) && o.data[6] == DialMove(raw, false)
            && o.data[7..] == raw[7..]
  {
    hide PadButton, DialButton, Bit;
    VendorHeld(reports);
    VendorBit(reports[|reports| - 1][1]);
  }
}
