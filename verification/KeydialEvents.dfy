/**
 * The event handler of src/bpf/stable/0010-Huion__KeydialK20.bpf.c: keyboard
 * reports and vendor reports both become one report of button bits.
 */
module KeydialEvents {
  import opened Bits
  import opened LittleEndian
  import opened ReportItems
  import opened ReportLayout
  import opened FieldExtraction
  import opened FieldReadout
  import opened KeydialDescriptor
  import opened Options

  const VENDOR_REPORT_ID: byte := 8
  const PAD_KBD_REPORT_ID: byte := 3
  const PAD_KBD_REPORT_LENGTH := 8
  const DATA_SIZE := 10
  const PAD_OUT := 9

  /** The key codes of buttons 1 to 18; 0xff stands for the three modifiers. */
  const BUTTON_MAPPING: seq<byte> := [
    0x0e, 0x0a, 0x0f, 0x4c, 0x0c, 0x07, 0x05, 0x08, 0x16, 0x1d, 0x06, 0x19, 0xff, 0xff, 0xff, 0x28, 0x2c, 0x11
  ]

  const CONTROL := 12
  const ALT := 13
  const SHIFT := 14

  /** The button of a key: its first place in the table, if it has one */
  function KeyButton(key: byte, b: nat): (r: Option<nat>)
    requires b <= |BUTTON_MAPPING|
    ensures r.Some? ==> b <= r.value < |BUTTON_MAPPING| && BUTTON_MAPPING[r.value] == key
    decreases |BUTTON_MAPPING| - b
  {
    if b == |BUTTON_MAPPING| then None
    else if BUTTON_MAPPING[b] == key then Some(b)
    else KeyButton(key, b + 1)
  }

  function KeyBit(key: byte): nat {
    match KeyButton(key, 0)
    case Some(b) => Pow2(b)
    case None => 0
  }

  /** The bits of the pressed keys; a zero ends the list. */
  function KeyBits(keys: seq<byte>, buttons: nat): nat {
    if keys == [] || keys[0] == 0 then buttons else KeyBits(keys[1..], Or(buttons, KeyBit(keys[0])))
  }

  /** How many key bytes come before the first zero */
  function PressedKeys(keys: seq<byte>): (n: nat)
    ensures n <= |keys|
  {
    if keys == [] || keys[0] == 0 then 0 else 1 + PressedKeys(keys[1..])
  }

  function ModifierBits(modifiers: byte): nat {
    var control := if Bit(modifiers, 0) then Or(0, Pow2(CONTROL)) else 0;
    var shift := if Bit(modifiers, 1) then Or(control, Pow2(SHIFT)) else control;
    if Bit(modifiers, 2) then Or(shift, Pow2(ALT)) else shift
  }

  function KeyboardButtons(data: seq<byte>): nat
    requires |data| >= DATA_SIZE
  {
    KeyBits(data[2..PAD_KBD_REPORT_LENGTH], ModifierBits(data[1]))
  }

  /** A `__u32` in memory */
  function Le32(n: nat): (bytes: seq<byte>)
    ensures |bytes| == 4
  {
    DataBytes(W32, n)
  }

  /** Byte k of `struct pad_report` overlaid on the data; the bit-field write clears one bit of byte 1. */
  function PadByte(data: seq<byte>, buttons: nat, wheel: byte, k: nat): byte
    requires k < |data| && DATA_SIZE <= |data|
  {
    if k == 0 then VENDOR_REPORT_ID
    else if k == 1 then data[1] - data[1] % 2
    else if k <= 3 then 0
    else if k <= 7 then Le32(buttons)[k - 4]
    else if k == 8 then wheel
    else data[k]
  }

  function RewrittenPad(data: seq<byte>, buttons: nat, wheel: byte): seq<byte>
    requires |data| >= DATA_SIZE
  {
    seq(|data|, k requires 0 <= k < |data| => PadByte(data, buttons, wheel, k))
  }

  lemma PadBytes(data: seq<byte>, buttons: nat, wheel: byte, out: seq<byte>)
    requires |out| == |data| >= DATA_SIZE
    requires forall k :: 0 <= k < |data| ==> out[k] == PadByte(data, buttons, wheel, k)
    ensures out == RewrittenPad(data, buttons, wheel)
  {}

  datatype Event = Ignored | Wheel(move: byte) | Buttons(mask: nat) | Keyboard(mask: nat)

  function Classify(data: seq<byte>): Event {
    if |data| < DATA_SIZE then Ignored
    else if data[0] == VENDOR_REPORT_ID then
      if data[1] == 0xf1 then Wheel(if data[5] == 2 then 0xff else data[5]) else Buttons(Number(data[4..7]))
    else if data[0] == PAD_KBD_REPORT_ID then Keyboard(KeyboardButtons(data))
    else Ignored
  }

  /** The global, the report, and the returned size */
  datatype Outcome = Outcome(lastButtonState: nat, data: seq<byte>, returned: nat)

  function Handle(held: nat, data: seq<byte>): Outcome {
    match Classify(data)
    case Ignored => Outcome(held, data, 0)
    case Wheel(move) => Outcome(held, RewrittenPad(data, held, move), PAD_OUT)
    case Buttons(mask) => Outcome(mask, RewrittenPad(data, mask, 0), PAD_OUT)
    case Keyboard(mask) => Outcome(held, RewrittenPad(data, mask, 0), PAD_OUT)
  }

  class Handler {
    var lastButtonState: nat

    constructor ()
      ensures lastButtonState == 0
    {
      lastButtonState := 0;
    }

    /** Overlays the nine bytes of `struct pad_report`. */
    static method WritePad(data: array<byte>, buttons: nat, wheel: byte)
      requires data.Length >= DATA_SIZE
      modifies data
      ensures forall k :: 0 <= k < data.Length ==> data[k] == PadByte(old(data[..]), buttons, wheel, k)
    {
      hide Le32;
      var word := Le32(buttons);
      data[0] := VENDOR_REPORT_ID;
      data[1] := data[1] - data[1] % 2;
      data[2] := 0;
      data[3] := 0;
      data[4] := word[0];
      data[5] := word[1];
      data[6] := word[2];
      data[7] := word[3];
      data[8] := wheel;
    }

    /** The inner loop: the first table entry with the key's code sets its bit. */
    static method MapKey(key: byte, buttons: nat) returns (r: nat)
      ensures r == Or(buttons, KeyBit(key))
    {
      hide Or, Pow2;
      OrZero(buttons);
      r := buttons;
      for b := 0 to |BUTTON_MAPPING|
        invariant r == buttons
        invariant KeyButton(key, b) == KeyButton(key, 0)
      {
        if key == BUTTON_MAPPING[b] {
          return Or(buttons, Pow2(b));
        }
      }
    }

    /** The loop over the pressed keys; each key before the first zero is cleared. */
    static method MapKeys(data: array<byte>) returns (buttons: nat)
      requires data.Length >= DATA_SIZE
      modifies data
      ensures buttons == KeyboardButtons(old(data[..]))
      ensures var pressed := PressedKeys(old(data[2..PAD_KBD_REPORT_LENGTH]));
              forall k :: 0 <= k < data.Length ==> data[k] == if 2 <= k < 2 + pressed then 0 else old(data[k])
    {
      hide Or, KeyBit, ModifierBits;
      ghost var raw := data[..];
      buttons := ModifierBits(data[1]);
      ghost var keys := raw[2..PAD_KBD_REPORT_LENGTH];
      assert keys[0..] == keys;
      for i := 2 to PAD_KBD_REPORT_LENGTH
        invariant forall k :: 0 <= k < data.Length ==> data[k] == if 2 <= k < i then 0 else raw[k]
        invariant i - 2 + PressedKeys(keys[i - 2..]) == PressedKeys(keys)
        invariant KeyBits(keys[i - 2..], buttons) == KeyBits(keys, ModifierBits(raw[1]))
      {
        assert data[i] == keys[i - 2..][0] && keys[i - 2..][1..] == keys[i - 1..];
        if data[i] == 0 { return; }
        buttons := MapKey(data[i], buttons);
        data[i] := 0;
      }
    }

    /** `k20_fix_events` */
    method FixEvents(data: array<byte>) returns (ret: nat)
      modifies this, data
      ensures Outcome(lastButtonState, data[..], ret) == Handle(old(lastButtonState), old(data[..]))
    {
      hide Or, Pow2, KeyBits, ModifierBits, Le32;
      ghost var raw := data[..];
      if data.Length < DATA_SIZE { return 0; }

      if data[0] == VENDOR_REPORT_ID {
        var wheel: byte := 0;
        if data[1] == 0xf1 {
          wheel := if data[5] == 2 then 0xff else data[5];
        } else {
          ThreeByteButtons(data[4], data[5], data[6]);
          assert data[4..7] == [data[4], data[5], data[6]];
          lastButtonState := Or(Or(data[4], Shl(data[5], 8)), Shl(data[6], 16));
        }
        WritePad(data, lastButtonState, wheel);
        PadBytes(raw, lastButtonState, wheel, data[..]);
        return PAD_OUT;
      }

      if data[0] == PAD_KBD_REPORT_ID {
        var buttons := MapKeys(data);
        assert data[1] == raw[1] && data[PAD_OUT..] == raw[PAD_OUT..];
        WritePad(data, buttons, 0);
        PadBytes(raw, buttons, 0, data[..]);
        return PAD_OUT;
      }
      return 0;
    }
  }

  lemma ThreeByteButtons(b0: byte, b1: byte, b2: byte)
    ensures Or(Or(b0, Shl(b1, 8)), Shl(b2, 16)) == Number([b0, b1, b2]) < 0x100_0000
  {
    hide Or, Shl;
    assert [b0] + [b1] == [b0, b1] && [b0, b1] + [b2] == [b0, b1, b2];
    NumberConcat([b0], [b1]);
    NumberConcat([b0, b1], [b2]);
    assert Number([b0]) == b0 && Number([b1]) == b1 && Number([b2]) == b2;
    NumberBounded([b0]);
    NumberBounded([b0, b1]);
    NumberBounded([b0, b1, b2]);
    OrDisjoint(b0, b1, 8);
    OrDisjoint(Number([b0, b1]), b2, 16);
    Pow2TwentyFour();
  }

  lemma Pow2TwentyFour()
    ensures Pow2(8) == 256 && Pow2(16) == 0x1_0000 && Pow2(24) == 0x100_0000
  {
    Pow2Values();
    Pow2Add(8, 8);
    Pow2Add(16, 8);
  }

  // ----- What the bits mean -----

  /** A vendor report */
  predicate IsVendor(raw: seq<byte>) {
    |raw| >= 10 && raw[0] == 8
  }

  /** A vendor report of the buttons */
  predicate IsMask(raw: seq<byte>) {
    IsVendor(raw) && raw[1] != 0xf1
  }

  /** A keyboard report of the firmware */
  predicate IsKeyboard(raw: seq<byte>) {
    |raw| >= 10 && raw[0] == 3
  }

  /**
   * What each raw report does: vendor and keyboard reports become a report of nine
   * bytes under number 8 with an unpressed stylus button and no position, what lies
   * behind them stays; anything else stays as it is. Only button masks are remembered.
   */
  lemma Branches(held: nat, data: seq<byte>)
    ensures var o := Handle(held, data);
            && (IsVendor(data) || IsKeyboard(data) ==>
                  && o.returned == 9 && |o.data| == |data|
                  && o.data[0] == 8 && o.data[1] == data[1] - data[1] % 2 && o.data[2] == o.data[3] == 0
                  && o.data[9..] == data[9..])
            && (!IsVendor(data) && !IsKeyboard(data) ==> o == Outcome(held, data, 0))
            && (!IsMask(data) ==> o.lastButtonState == held)
  {
    hide KeyboardButtons, Number;
  }

  /** A key code among the keys before the first zero */
  ghost predicate Pressed(keys: seq<byte>, code: int) {
    exists i :: 0 <= i < |keys| && keys[i] == code && forall j :: 0 <= j < i ==> keys[j] != 0
  }

  /** K, G, L, Delete, I, D, B, E, S, Z, C and V, then no key for Alt and Shift, then Return, Space and N */
  const KEY_CODES: seq<int> := [
    0x0e, 0x0a, 0x0f, 0x4c, 0x0c, 0x07, 0x05, 0x08, 0x16, 0x1d, 0x06, 0x19, 0xff, -1, -1, 0x28, 0x2c, 0x11
  ]

  /**
   * Button b of the firmware's keyboard report is down: buttons 12, 13 and 14 are
   * Control, Alt and Shift, the others have their key codes. The code 0xff would
   * count as Control, too.
   */
  ghost predicate Down(data: seq<byte>, b: nat)
    requires |data| >= 10 && b < 18
  {
    || (b == 12 && Bit(data[1], 0)) || (b == 14 && Bit(data[1], 1)) || (b == 13 && Bit(data[1], 2))
    || Pressed(data[2..8], KEY_CODES[b])
  }

  /** The button of a key is the first table entry with its code. */
  lemma {:induction false} KeyButtonIff(key: byte, from: nat, b: nat)
    requires from <= |BUTTON_MAPPING|
    ensures KeyButton(key, from) == Some(b) <==>
              && from <= b < |BUTTON_MAPPING| && BUTTON_MAPPING[b] == key
              && forall j :: from <= j < b ==> BUTTON_MAPPING[j] != key
    decreases |BUTTON_MAPPING| - from
  {
    hide BUTTON_MAPPING;
    if from < |BUTTON_MAPPING| && BUTTON_MAPPING[from] != key { KeyButtonIff(key, from + 1, b); }
  }

  /** The three modifiers share a code in the table; it leads to the first of them. */
  lemma CodeOfButton(key: byte, b: nat)
    requires b < 18
    ensures KeyButton(key, 0) == Some(b) <==> key == KEY_CODES[b]
  {
    hide KeyButton;
    KeyButtonIff(key, 0, b);
    assert b != 13 && b != 14 ==> KEY_CODES[b] == BUTTON_MAPPING[b];
    assert b == 13 || b == 14 ==> BUTTON_MAPPING[12] == BUTTON_MAPPING[b];
    assert forall j :: 0 <= j < b && b != 13 && b != 14 ==> BUTTON_MAPPING[j] != BUTTON_MAPPING[b];
  }

  lemma ListedIsPressed(keys: seq<byte>, b: nat, code: int)
    requires code != 0 && forall key: byte :: KeyButton(key, 0) == Some(b) <==> key == code
    ensures Listed(keys, b) <==> Pressed(keys, code)
  {
    hide KeyButton;
    if Listed(keys, b) {
      var i :| 0 <= i < |keys| && KeyButton(keys[i], 0) == Some(b) && forall j :: 0 <= j <= i ==> keys[j] != 0;
      assert keys[i] == code;
    }
    if Pressed(keys, code) {
      var i :| 0 <= i < |keys| && keys[i] == code && forall j :: 0 <= j < i ==> keys[j] != 0;
      assert KeyButton(keys[i], 0) == Some(b);
    }
  }

  ghost predicate Listed(keys: seq<byte>, b: nat) {
    exists i :: 0 <= i < |keys| && KeyButton(keys[i], 0) == Some(b) && forall j :: 0 <= j <= i ==> keys[j] != 0
  }

  lemma ListedStep(keys: seq<byte>, b: nat)
    ensures Listed(keys, b) <==>
              keys != [] && keys[0] != 0 && (KeyButton(keys[0], 0) == Some(b) || Listed(keys[1..], b))
  {
    if Listed(keys, b) {
      var i :| 0 <= i < |keys| && KeyButton(keys[i], 0) == Some(b) && forall j :: 0 <= j <= i ==> keys[j] != 0;
      if i > 0 { assert keys[1..][i - 1] == keys[i]; }
    }
    if keys != [] && keys[0] != 0 && Listed(keys[1..], b) {
      var i :| 0 <= i < |keys[1..]| && KeyButton(keys[1..][i], 0) == Some(b)
        && forall j :: 0 <= j <= i ==> keys[1..][j] != 0;
      assert keys[i + 1] == keys[1..][i];
      assert forall j :: 0 < j <= i + 1 ==> keys[j] == keys[1..][j - 1];
    }
  }

  lemma BitOfKey(key: byte, b: nat)
    ensures Bit(KeyBit(key), b) <==> KeyButton(key, 0) == Some(b)
  {
    hide Bit, Pow2;
    match KeyButton(key, 0)
    case Some(k) => BitOfPow2(k, b);
    case None => ZeroHasNoBit(b);
  }

  lemma {:induction false} BitOfKeys(keys: seq<byte>, buttons: nat, b: nat)
    ensures Bit(KeyBits(keys, buttons), b) <==> Bit(buttons, b) || Listed(keys, b)
    decreases |keys|
  {
    hide Bit, Or, KeyBit, Listed;
    ListedStep(keys, b);
    if keys != [] && keys[0] != 0 {
      BitOfKeys(keys[1..], Or(buttons, KeyBit(keys[0])), b);
      BitOfOr(buttons, KeyBit(keys[0]), b);
      BitOfKey(keys[0], b);
    }
  }

  lemma BitOfModifiers(modifiers: byte, b: nat)
    ensures Bit(ModifierBits(modifiers), b) <==>
              || (b == CONTROL && Bit(modifiers, 0))
              || (b == SHIFT && Bit(modifiers, 1))
              || (b == ALT && Bit(modifiers, 2))
  {
    hide Bit, Or, Pow2;
    var control := if Bit(modifiers, 0) then Or(0, Pow2(CONTROL)) else 0;
    var shift := if Bit(modifiers, 1) then Or(control, Pow2(SHIFT)) else control;
    ZeroHasNoBit(b);
    BitOfOr(0, Pow2(CONTROL), b);
    BitOfOr(control, Pow2(SHIFT), b);
    BitOfOr(shift, Pow2(ALT), b);
    BitOfPow2(CONTROL, b);
    BitOfPow2(SHIFT, b);
    BitOfPow2(ALT, b);
  }

  /** A button's bit is set exactly when the keyboard report shows it down. */
  lemma KeyboardButtonsExact(data: seq<byte>, b: nat)
    requires |data| >= 10
    ensures Bit(KeyboardButtons(data), b) <==> b < 18 && Down(data, b)
  {
    hide Bit, KeyBits, ModifierBits, Listed, KeyButton, Pressed;
    if b < 18 {
      forall key: byte ensures KeyButton(key, 0) == Some(b) <==> key == KEY_CODES[b] { CodeOfButton(key, b); }
      ListedIsPressed(data[2..8], b, KEY_CODES[b]);
      BitOfKeys(data[2..PAD_KBD_REPORT_LENGTH], ModifierBits(data[1]), b);
      BitOfModifiers(data[1], b);
    } else {
      KeyboardButtonsFit(data);
      NoHighBit(KeyboardButtons(data), 18, b);
    }
  }

  lemma {:induction false} KeysBounded(keys: seq<byte>, buttons: nat)
    requires buttons < Pow2(18)
    ensures KeyBits(keys, buttons) < Pow2(18)
    decreases |keys|
  {
    hide Or, Pow2;
    if keys != [] && keys[0] != 0 {
      var button := KeyButton(keys[0], 0);
      if button.Some? {
        Pow2Monotone(button.value + 1, 18);
        Pow2Grows(button.value);
        OrBounded(buttons, Pow2(button.value), 18);
      } else {
        OrZero(buttons);
      }
      KeysBounded(keys[1..], Or(buttons, KeyBit(keys[0])));
    }
  }

  lemma Pow2Grows(b: nat)
    ensures Pow2(b) < Pow2(b + 1)
  {}

  lemma KeyboardButtonsFit(data: seq<byte>)
    requires |data| >= DATA_SIZE
    ensures KeyboardButtons(data) < Pow2(18)
  {
    hide Or, Bit, Pow2, KeyBits;
    Pow2Monotone(13, 18);
    Pow2Monotone(14, 18);
    Pow2Monotone(15, 18);
    Pow2Grows(12);
    Pow2Grows(13);
    Pow2Grows(14);
    var m := data[1];
    var control := if Bit(m, 0) then Or(0, Pow2(CONTROL)) else 0;
    var shift := if Bit(m, 1) then Or(control, Pow2(SHIFT)) else control;
    OrBounded(0, Pow2(CONTROL), 18);
    OrBounded(control, Pow2(SHIFT), 18);
    OrBounded(shift, Pow2(ALT), 18);
    KeysBounded(data[2..PAD_KBD_REPORT_LENGTH], ModifierBits(m));
  }

  // ----- What the host reads -----

  lemma Le32Spells(n: nat)
    requires n < 0x1_0000_0000
    ensures Number(Le32(n)) == n
  {
    hide Number, DataBytes;
    DataBytesSpellValue(W32, n);
  }

  lemma BitOfLe32(n: nat, b: nat)
    requires n < 0x1_0000_0000 && b < 32
    ensures Bit(Le32(n)[b / 8], b % 8) <==> Bit(n, b)
  {
    hide Bit, Number;
    Le32Spells(n);
    BitOfNumber(Le32(n), b);
  }

  lemma PadReadout(data: seq<byte>, buttons: nat, wheel: byte, b: nat)
    requires |data| >= DATA_SIZE && buttons < 0x1_0000_0000 && b < 19
    ensures var out := RewrittenPad(data, buttons, wheel)[..PAD_OUT];
            && ReadInput(Layout(), PAD_REPORT, Button(b), out) == BoolBit(Bit(buttons, b))
            && ReadInput(Layout(), PAD_REPORT, KeydialDescriptor.Wheel(), out) == wheel
  {
    hide FieldBits, Layout, FieldValue, Bit, Number;
    var out := RewrittenPad(data, buttons, wheel)[..PAD_OUT];
    PadLayout(b);
    OneBit(out, 32 + b);
    BitOfLe32(buttons, b);
    assert out[(32 + b) / 8] == Le32(buttons)[b / 8];
    AlignedByte(out, 64, 72);
  }

  /** A rewritten report, read with the new descriptor, shows a button and a wheel in these positions. */
  ghost predicate Shows(o: Outcome, b: nat, down: bool, wheel: byte) {
    && o.returned == 9 <= |o.data| && o.data[0] == 8
    && ReadInput(Layout(), 8, Button(b), o.data[..9]) == BoolBit(down)
    && ReadInput(Layout(), 8, KeydialDescriptor.Wheel(), o.data[..9]) == wheel
  }

  /** How far a raw vendor report turns the wheel; counter-clockwise is 2 there and -1 as a signed byte. */
  function WheelMove(raw: seq<byte>): byte {
    if |raw| < 10 || raw[1] != 0xf1 then 0 else if raw[5] == 2 then 0xff else raw[5]
  }

  /** A keyboard report shows exactly its pressed buttons and no wheel, and leaves the vendor mask alone. */
  lemma KeyboardReadout(held: nat, data: seq<byte>, b: nat)
    requires IsKeyboard(data) && b < 19
    ensures Handle(held, data).lastButtonState == held
    ensures Shows(Handle(held, data), b, b < 18 && Down(data, b), 0)
  {
    hide Bit, ReadInput, KeyboardButtons, Down, Pow2, Layout, Le32;
    KeyboardButtonsExact(data, b);
    KeyboardButtonsFit(data);
    Pow2TwentyFour();
    Pow2Monotone(18, 24);
    PadReadout(data, KeyboardButtons(data), 0, b);
  }

  /** Bit b of the latest vendor button mask: three bytes from the fifth on, lowest first */
  predicate LatestBit(reports: seq<seq<byte>>, b: nat) {
    reports != []
    && (var raw := reports[|reports| - 1];
        if IsMask(raw) then b < 24 && Bit(raw[4 + b / 8], b % 8) else LatestBit(reports[..|reports| - 1], b))
  }

  /** The handler's global after some reports */
  function HeldAfter(reports: seq<seq<byte>>): nat {
    if reports == [] then 0 else Handle(HeldAfter(reports[..|reports| - 1]), reports[|reports| - 1]).lastButtonState
  }

  lemma {:induction false} HeldIsLatest(reports: seq<seq<byte>>, b: nat)
    ensures HeldAfter(reports) < 0x100_0000
    ensures Bit(HeldAfter(reports), b) <==> LatestBit(reports, b)
  {
    hide KeyboardButtons, RewrittenPad, Bit, Number;
    if reports == [] {
      ZeroHasNoBit(b);
    } else {
      var n := |reports| - 1;
      HeldIsLatest(reports[..n], b);
      var raw := reports[n];
      if IsMask(raw) {
        NumberBounded(raw[4..7]);
        Pow2TwentyFour();
        if b < 24 {
          BitOfNumber(raw[4..7], b);
          assert raw[4..7][b / 8] == raw[4 + b / 8];
        } else {
          NoHighBit(Number(raw[4..7]), 24, b);
        }
      }
    }
  }

  /**
   * In any history each vendor report, read with the new descriptor, shows the
   * latest vendor mask, whatever wheel and keyboard reports came between, and
   * the wheel's move.
   */
  lemma VendorReadout(reports: seq<seq<byte>>, b: nat)
    requires reports != [] && b < 19 && IsVendor(reports[|reports| - 1])
    ensures var n := |reports| - 1;
            Shows(Handle(HeldAfter(reports[..n]), reports[n]), b, LatestBit(reports, b), WheelMove(reports[n]))
  {
    hide Bit, ReadInput, KeyboardButtons, Layout, Le32, Number, LatestBit;
    var n := |reports| - 1;
    HeldIsLatest(reports, b);
    PadReadout(reports[n], HeldAfter(reports), WheelMove(reports[n]), b);
  }
}
