/** Printing and parsing a modalias: src/modalias.rs. Strings are ASCII here. */
module Modaliases {
  import opened Options

  type u32 = x: int | 0 <= x < 0x1_0000_0000

  /** The codes of `Bus` and `Group`; 0 is the wildcard `Any`. */
  const BUSES: set<nat> := {
    0x00, 0x01, 0x02, 0x03, 0x04, 0x05, 0x06, 0x10, 0x11, 0x12, 0x13, 0x14, 0x15, 0x16, 0x17, 0x18, 0x19, 0x1a, 0x1b,
    0x1c, 0x1d, 0x1e, 0x1f, 0x20
  }
  const GROUPS: set<nat> := {0x00, 0x01, 0x02, 0x03, 0x04, 0x100, 0x101, 0x102, 0x103, 0x104, 0x105}

  datatype Modalias = Modalias(bus: nat, group: nat, vid: u32, pid: u32) {
    predicate Valid() {
      bus in BUSES && group in GROUPS
    }
  }

  /** `Panics` is the unwrap of an unknown bus or group code. */
  datatype Parsed = Ok(value: Modalias) | InvalidData | Panics

  // ----- Hexadecimal -----

  function Digit(d: nat): char
    requires d < 16
  {
    "0123456789ABCDEF"[d]
  }

  function DigitValue(c: char): Option<nat> {
    if '0' <= c <= '9' then Some((c - '0') as int)
    else if 'A' <= c <= 'F' then Some(10 + (c - 'A') as int)
    else if 'a' <= c <= 'f' then Some(10 + (c - 'a') as int)
    else None
  }

  /** `{:0wX}` of a value that fits */
  function Hex(n: nat, width: nat): (s: string)
    ensures |s| == width
  {
    if width == 0 then "" else Hex(n / 16, width - 1) + [Digit(n % 16)]
  }

  function Digits(s: string): Option<nat> {
    if s == "" then Some(0)
    else
      var k := |s| - 1;
      match (Digits(s[..k]), DigitValue(s[k]))
      case (Some(high), Some(low)) => Some(16 * high + low)
      case _ => None
  }

  /** `from_str_radix(s, 16)`; unsigned parsing takes a leading plus sign. */
  function FromHex(s: string): Option<nat> {
    var digits := if s != "" && s[0] == '+' then s[1..] else s;
    if digits == "" then None else Digits(digits)
  }

  function Pow16(n: nat): nat {
    if n == 0 then 1 else 16 * Pow16(n - 1)
  }

  lemma DigitRoundTrip(d: nat)
    requires d < 16
    ensures DigitValue(Digit(d)) == Some(d) && Digit(d) != '+'
  {}

  lemma {:induction false} HexRoundTrip(n: nat, width: nat)
    requires n < Pow16(width)
    ensures Digits(Hex(n, width)) == Some(n)
    ensures forall i :: 0 <= i < width ==> Hex(n, width)[i] != '+'
  {
    hide Digit, DigitValue;
    if width > 0 {
      HexRoundTrip(n / 16, width - 1);
      DigitRoundTrip(n % 16);
      assert Hex(n, width)[..width - 1] == Hex(n / 16, width - 1) && Hex(n, width)[width - 1] == Digit(n % 16);
    }
  }

  lemma FromHexOfHex(n: nat, width: nat)
    requires 0 < width && n < Pow16(width)
    ensures FromHex(Hex(n, width)) == Some(n)
  {
    HexRoundTrip(n, width);
  }

  // ----- Modaliases -----

  /** A part, or `*` for the wildcard */
  function Part(n: nat, width: nat): string {
    if n == 0 then "*" else Hex(n, width)
  }

  /** `String::from` */
  function Print(m: Modalias): string {
    "b" + Part(m.bus, 4) + "g" + Part(m.group, 4) + "v" + Part(m.vid, 8) + "p" + Part(m.pid, 8)
  }

  /** `trim_start_matches("hid:")` removes every leading copy. */
  function TrimPrefix(s: string): string {
    if "hid:" <= s then TrimPrefix(s[4..]) else s
  }

  /** `from_str`; the letters between the parts are not looked at. */
  function FromStr(text: string): Parsed {
    var s := TrimPrefix(text);
    if |s| != 28 then InvalidData
    else
      match FromHex(s[1..5])
      case None => InvalidData
      case Some(bus) =>
        if bus !in BUSES then Panics
        else
          match FromHex(s[6..10])
          case None => InvalidData
          case Some(group) =>
            if group !in GROUPS then Panics
            else
              match (FromHex(s[11..19]), FromHex(s[20..28]))
              case (Some(vid), Some(pid)) =>
                if vid < 0x1_0000_0000 && pid < 0x1_0000_0000 then Ok(Modalias(bus, group, vid, pid)) else InvalidData
              case _ => InvalidData
  }

  predicate HasNoWildcard(m: Modalias) {
    m.bus != 0 && m.group != 0 && m.vid != 0 && m.pid != 0
  }

  lemma Widths()
    ensures Pow16(3) == 0x1000 && Pow16(4) == 0x1_0000 && Pow16(8) == 0x1_0000_0000
  {
    assert Pow16(4) == 0x1_0000;
  }

  lemma PrintedParts(m: Modalias)
    requires HasNoWildcard(m)
    ensures var s := Print(m);
            && |s| == 28 && s[0] == 'b' && s[5] == 'g' && s[10] == 'v' && s[19] == 'p'
            && s[1..5] == Hex(m.bus, 4) && s[6..10] == Hex(m.group, 4)
            && s[11..19] == Hex(m.vid, 8) && s[20..28] == Hex(m.pid, 8)
  {
    hide Hex;
  }

  /**
   * Printing and parsing gives the same modalias back exactly when nothing is a
   * wildcard; with a wildcard the printed form is too short and rejected.
   */
  lemma RoundTripIff(m: Modalias)
    requires m.Valid()
    ensures FromStr(Print(m)) == Ok(m) <==> HasNoWildcard(m)
    ensures !HasNoWildcard(m) ==> FromStr(Print(m)) == InvalidData
  {
    hide Hex, FromHex, Pow16;
    assert Print(m)[0] == 'b';
    assert TrimPrefix(Print(m)) == Print(m);
    if HasNoWildcard(m) {
      Widths();
      PrintedParts(m);
      FromHexOfHex(m.bus, 4);
      FromHexOfHex(m.group, 4);
      FromHexOfHex(m.vid, 8);
      FromHexOfHex(m.pid, 8);
    }
  }

  /** The kernel's prefix, any number of times, does not matter. */
  lemma PrefixIgnored(text: string)
    ensures FromStr("hid:" + text) == FromStr(text)
  {
    assert ("hid:" + text)[4..] == text;
  }

  // ----- Which texts print back -----

  predicate UpperHex(s: string) {
    forall i :: 0 <= i < |s| ==> '0' <= s[i] <= '9' || 'A' <= s[i] <= 'F'
  }

  lemma UpperDigit(c: char)
    ensures '0' <= c <= '9' || 'A' <= c <= 'F' ==> DigitValue(c).Some? && DigitValue(c).value < 16
    ensures '0' <= c <= '9' || 'A' <= c <= 'F' ==> Digit(DigitValue(c).value) == c
  {}

  lemma {:induction false} HexIsUpper(n: nat, width: nat)
    ensures UpperHex(Hex(n, width))
  {
    if width > 0 { HexIsUpper(n / 16, width - 1); }
  }

  lemma {:induction false} HexOfDigits(s: string)
    requires UpperHex(s)
    ensures Digits(s).Some? && Hex(Digits(s).value, |s|) == s
  {
    if s != "" {
      hide Digit, DigitValue, Hex, Digits;
      var k := |s| - 1;
      HexOfDigits(s[..k]);
      UpperDigit(s[k]);
      LastDigit(s, Digits(s[..k]).value, DigitValue(s[k]).value);
    }
  }

  /** Reading one more digit, and printing it again */
  lemma LastDigit(s: string, high: nat, low: nat)
    requires s != "" && low < 16 && DigitValue(s[|s| - 1]) == Some(low) && Digit(low) == s[|s| - 1]
    requires Digits(s[..|s| - 1]) == Some(high) && Hex(high, |s| - 1) == s[..|s| - 1]
    ensures Digits(s).Some? && Hex(Digits(s).value, |s|) == s
  {
    hide Digit, DigitValue;
    var n := 16 * high + low;
    assert Digits(s) == Some(n);
    PrintLast(n, high, low, s);
  }

  lemma PrintLast(n: nat, high: nat, low: nat, s: string)
    requires n == 16 * high + low && low < 16
    requires s != "" && Digit(low) == s[|s| - 1] && Hex(high, |s| - 1) == s[..|s| - 1]
    ensures Hex(n, |s|) == s
  {
    hide Digit;
    assert n / 16 == high && n % 16 == low;
    assert s == s[..|s| - 1] + [s[|s| - 1]];
  }

  lemma PartPrintsBack(part: string)
    requires part != "" && FromHex(part).Some? && UpperHex(part)
    ensures Hex(FromHex(part).value, |part|) == part
  {
    HexOfDigits(part);
  }

  /** Lower-case letters in their places and upper-case digits without signs in all parts */
  predicate Canonical(s: string) {
    && |s| == 28 && s[0] == 'b' && s[5] == 'g' && s[10] == 'v' && s[19] == 'p'
    && UpperHex(s[1..5]) && UpperHex(s[6..10]) && UpperHex(s[11..19]) && UpperHex(s[20..28])
  }

  /** A text that parses is printed back exactly when it is canonical and no part is zero. */
  lemma PrintsBackIff(text: string, m: Modalias)
    requires FromStr(text) == Ok(m)
    ensures Print(m) == TrimPrefix(text) <==> Canonical(TrimPrefix(text)) && HasNoWildcard(m)
  {
    hide Hex, FromHex, UpperHex, TrimPrefix;
    var s := TrimPrefix(text);
    if Print(m) == s {
      assert HasNoWildcard(m);
      PrintedParts(m);
      HexIsUpper(m.bus, 4);
      HexIsUpper(m.group, 4);
      HexIsUpper(m.vid, 8);
      HexIsUpper(m.pid, 8);
    }
    if Canonical(s) && HasNoWildcard(m) {
      PartPrintsBack(s[1..5]);
      PartPrintsBack(s[6..10]);
      PartPrintsBack(s[11..19]);
      PartPrintsBack(s[20..28]);
      assert s == ['b'] + s[1..5] + ['g'] + s[6..10] + ['v'] + s[11..19] + ['p'] + s[20..28];
    }
  }

  lemma {:induction false} LeadingZero(s: string)
    ensures Digits(['0'] + s) == Digits(s)
  {
    if s == "" {
      assert ['0'][..0] == "";
    } else {
      var k := |s| - 1;
      LeadingZero(s[..k]);
      assert (['0'] + s)[..k + 1] == ['0'] + s[..k] && (['0'] + s)[k + 1] == s[k];
    }
  }

  lemma {:induction false} HexStartsWithZero(n: nat, width: nat)
    requires 0 < width && n < Pow16(width - 1)
    ensures Hex(n, width)[0] == '0'
  {
    if width > 1 {
      HexStartsWithZero(n / 16, width - 1);
    }
  }

  /** A plus sign reads like the leading zero it replaces. */
  lemma PlusForZero(part: string)
    requires |part| > 1 && part[0] == '0' && part[1] != '+'
    ensures FromHex(part[0 := '+']) == FromHex(part)
  {
    LeadingZero(part[1..]);
    assert part == ['0'] + part[1..] && part[0 := '+'][1..] == part[1..];
  }

  /**
   * Parsing is not injective: every printed modalias without a wildcard has a second
   * spelling, with a plus sign for the first digit of its bus, as in
   * "b+003g0001v000004D9p0000A09F".
   */
  lemma PlusSignPasses(m: Modalias)
    requires m.Valid() && HasNoWildcard(m)
    ensures var plus := Print(m)[1 := '+'];
            && plus != Print(m) && FromStr(plus) == FromStr(Print(m)) == Ok(m)
  {
    hide Hex, FromHex, Pow16, Digits;
    var s := Print(m);
    var plus := s[1 := '+'];
    Widths();
    RoundTripIff(m);
    PrintedParts(m);
    HexStartsWithZero(m.bus, 4);
    HexRoundTrip(m.bus, 4);
    PlusForZero(Hex(m.bus, 4));
    assert s[0] == 'b' && s[1] == '0';
    assert TrimPrefix(plus) == plus && TrimPrefix(s) == s;
    assert plus[1..5] == s[1..5][0 := '+'];
    assert plus[6..10] == s[6..10] && plus[11..19] == s[11..19] && plus[20..28] == s[20..28];
  }

  // ----- Character by character -----

  /** A hexadecimal digit of either case, by its place in the alphabet */
  ghost predicate Spells(c: char, d: nat) {
    d < 16 && (c == "0123456789abcdef"[d] || c == "0123456789ABCDEF"[d])
  }

  ghost predicate IsHex(c: char) {
    exists d: nat :: Spells(c, d)
  }

  lemma SpelledDigit(c: char, d: nat)
    ensures Spells(c, d) <==> DigitValue(c) == Some(d)
  {
    if Spells(c, d) && d < 10 { assert c == "0123456789"[d]; }
    if DigitValue(c) == Some(d) {
      if '0' <= c <= '9' {
        assert c == "0123456789abcdef"[d];
      } else if 'A' <= c <= 'F' {
        assert c == "0123456789ABCDEF"[d];
      } else {
        assert c == "0123456789abcdef"[d];
      }
    }
  }

  /** Base 16, the last digit lowest */
  lemma LastDigitCounts(s: string, c: char, d: nat)
    requires Spells(c, d)
    ensures Digits("") == Some(0)
    ensures Digits(s + [c]) == match Digits(s) case Some(high) => Some(16 * high + d) case None => None
  {
    hide DigitValue, Spells;
    SpelledDigit(c, d);
    assert (s + [c])[..|s|] == s;
  }

  /** Other characters spoil a number. */
  lemma {:induction false} OnlyDigits(s: string)
    ensures Digits(s).Some? <==> forall i :: 0 <= i < |s| ==> IsHex(s[i])
  {
    hide DigitValue, IsHex;
    if s != "" {
      var k := |s| - 1;
      OnlyDigits(s[..k]);
      IsDigit(s[k]);
      assert s == s[..k] + [s[k]];
    }
  }

  lemma IsDigit(c: char)
    ensures DigitValue(c).Some? <==> IsHex(c)
  {
    hide DigitValue, Spells;
    forall d: nat ensures Spells(c, d) <==> DigitValue(c) == Some(d) { SpelledDigit(c, d); }
    if DigitValue(c).Some? { assert Spells(c, DigitValue(c).value); }
  }

  lemma {:induction false} DigitsBounded(s: string)
    ensures Digits(s).Some? ==> Digits(s).value < Pow16(|s|)
  {
    hide DigitValue;
    if s != "" {
      var k := |s| - 1;
      DigitsBounded(s[..k]);
      if DigitValue(s[k]).Some? { DigitBelow16(s[k]); }
    }
  }

  lemma DigitBelow16(c: char)
    ensures DigitValue(c).Some? ==> DigitValue(c).value < 16
  {}

  lemma {:induction false} Pow16Grows(n: nat)
    ensures 0 < Pow16(n) <= Pow16(n + 1)
  {
    if n > 0 { Pow16Grows(n - 1); }
  }

  lemma PartFits(part: string)
    requires |part| == 8
    ensures FromHex(part).Some? ==> FromHex(part).value <= 0xffff_ffff
  {
    hide Digits;
    DigitsBounded(part);
    DigitsBounded(part[1..]);
    Pow16Grows(7);
    Widths();
  }

  /** A part is a number with or without a plus sign, and has at least one digit. */
  lemma PartIsNumber(part: string)
    ensures part != "" && part[0] != '+' ==> FromHex(part) == Digits(part)
    ensures part != "" ==> FromHex("+" + part) == Digits(part)
    ensures FromHex("") == FromHex("+") == None
  {
    assert ("+" + part)[1..] == part && "+"[1..] == "";
  }

  /** Which text a modalias is printed as, a star for each wildcard */
  lemma PrintedText(m: Modalias)
    ensures var bus := if m.bus == 0 then "*" else Hex(m.bus, 4);
            var group := if m.group == 0 then "*" else Hex(m.group, 4);
            var vid := if m.vid == 0 then "*" else Hex(m.vid, 8);
            var pid := if m.pid == 0 then "*" else Hex(m.pid, 8);
            Print(m) == "b" + bus + "g" + group + "v" + vid + "p" + pid
  {
    hide Hex;
  }

  /**
   * What a text of the right length parses to: its four parts are read at their
   * places between any letters, known buses and groups are accepted, unknown ones
   * panic, in this order; with eight digits no number is too large.
   */
  lemma ParsedText(letters: string, bus: string, group: string, vid: string, pid: string)
    requires |letters| == 4 && |bus| == |group| == 4 && |vid| == |pid| == 8
    requires var text := [letters[0]] + bus + [letters[1]] + group + [letters[2]] + vid + [letters[3]] + pid;
             !("hid:" <= text)
    ensures var text := [letters[0]] + bus + [letters[1]] + group + [letters[2]] + vid + [letters[3]] + pid;
            var b, g, v, p := FromHex(bus), FromHex(group), FromHex(vid), FromHex(pid);
            && (b == None ==> FromStr(text) == InvalidData)
            && (b.Some? && !KnownBus(b.value) ==> FromStr(text) == Panics)
            && (b.Some? && KnownBus(b.value) && g == None ==> FromStr(text) == InvalidData)
            && (b.Some? && KnownBus(b.value) && g.Some? && !KnownGroup(g.value) ==> FromStr(text) == Panics)
            && (b.Some? && KnownBus(b.value) && g.Some? && KnownGroup(g.value) && (v == None || p == None) ==>
                  FromStr(text) == InvalidData)
            && (b.Some? && KnownBus(b.value) && g.Some? && KnownGroup(g.value) && v.Some? && p.Some? ==>
                  v.value <= 0xffff_ffff && p.value <= 0xffff_ffff
                  && FromStr(text) == Ok(Modalias(b.value, g.value, v.value, p.value)))
  {
    hide FromHex;
    var text := [letters[0]] + bus + [letters[1]] + group + [letters[2]] + vid + [letters[3]] + pid;
    assert text[1..5] == bus && text[6..10] == group && text[11..19] == vid && text[20..28] == pid;
    Codes();
    PartFits(vid);
    PartFits(pid);
  }

  /** The numbering of the buses has a gap. */
  predicate KnownBus(n: nat) {
    n <= 0x06 || 0x10 <= n <= 0x20
  }

  predicate KnownGroup(n: nat) {
    n <= 0x04 || 0x100 <= n <= 0x105
  }

  lemma OtherLengths(text: string)
    requires !("hid:" <= text) && |text| != 28
    ensures FromStr(text) == InvalidData
  {}

  lemma Codes()
    ensures forall n: nat :: n in BUSES <==> KnownBus(n)
    ensures forall n: nat :: n in GROUPS <==> KnownGroup(n)
  {}
}
