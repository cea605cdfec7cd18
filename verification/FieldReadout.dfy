/**
 * Reading a report the way a host does: the descriptor's layout says which bits
 * a usage takes, and the field is extracted from there.
 */
module FieldReadout {
  import opened Bits
  import opened LittleEndian
  import opened Lists
  import opened ReportItems
  import opened ReportLayout
  import opened FieldExtraction

  /** The value of a usage in an input report; a usage without a field reads as 0. */
  ghost function ReadInput(layout: List<Block>, id: nat, usage: UsageId, report: seq<byte>): nat {
    match FieldBits(layout, Input, id, usage)
    case BitRange(start, end, _, _) => FieldValue(report, start, end)
    case NoField => 0
  }

  function Word16(low: nat, high: nat): nat {
    low + 256 * high
  }

  function Word24(low: nat, middle: nat, high: nat): nat {
    low + 256 * middle + 65536 * high
  }

  lemma TwoBytesField(report: seq<byte>, at: nat)
    requires at + 2 <= |report|
    ensures FieldValue(report, 8 * at, 8 * at + 16) == Word16(report[at], report[at + 1])
  {
    hide FieldValue, Number;
    AlignedField(report, 8 * at, 8 * at + 16);
    assert report[at..at + 2] == [report[at], report[at + 1]];
    NumberOfFour(report[at], report[at + 1], 0, 0);
  }

  lemma ThreeBytesField(report: seq<byte>, at: nat)
    requires at + 3 <= |report|
    ensures FieldValue(report, 8 * at, 8 * at + 24) == Word24(report[at], report[at + 1], report[at + 2])
  {
    hide FieldValue;
    AlignedField(report, 8 * at, 8 * at + 24);
    assert report[at..at + 3] == [report[at], report[at + 1], report[at + 2]];
    assert [report[at], report[at + 1], report[at + 2]][1..] == [report[at + 1], report[at + 2]];
    NumberOfFour(report[at + 1], report[at + 2], 0, 0);
  }

  lemma OneBit(report: seq<byte>, at: nat)
    requires at / 8 < |report|
    ensures FieldValue(report, at, at + 1) == BoolBit(Bit(report[at / 8], at % 8))
  {
    hide Bit;
    BitOfField(report, at, at + 1, 0);
    Pow2Values();
    LowestBit(FieldValue(report, at, at + 1));
  }

  lemma LowestBit(v: nat)
    ensures v < 2 ==> v == BoolBit(Bit(v, 0))
  {}
}
