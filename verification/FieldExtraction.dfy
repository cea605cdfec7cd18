/**
 * Reading a field out of a report: `extract_bits` of src/bpf/hid_bpf_helpers.h.
 *
 * A report is a little-endian number (section 5.8 of the USB HID Device Class
 * Definition 1.11); a field is a range of its bits.
 */
module FieldExtraction {
  import opened Bits
  import opened LittleEndian

  type u16 = x: int | 0 <= x < 0x1_0000
  type u32 = x: int | 0 <= x < 0x1_0000_0000

  const U32_MAX: nat := 0xffff_ffff

  /** A field can be read when it is 1 to 32 bits wide and its last byte is in the report. */
  predicate Readable(size: nat, bitsStart: int, bitsEnd: int) {
    0 < bitsEnd - bitsStart <= 32 && (bitsEnd - 1) / 8 < size
  }

  /** The value a field has in a report. */
  ghost function FieldValue(report: seq<byte>, bitsStart: nat, bitsEnd: nat): nat {
    if Readable(|report|, bitsStart, bitsEnd)
    then Number(report) / Pow2(bitsStart) % Pow2(bitsEnd - bitsStart)
    else 0
  }

  function FieldStartByte(bitsStart: u16): u16 {
    bitsStart / 8
  }

  function FieldEndByte(bitsEnd: u16): u16 {
    if bitsEnd == 0 then 0 else (bitsEnd - 1) / 8
  }

  /** `x << k` on a `__u64`: the shift amount must be below the width. */
  function Shl64(x: nat, k: nat): nat
    requires k < 64
  {
    Low(Shl(x, k), 64)
  }

  /** `x >> k` on a 64-bit or narrower unsigned operand */
  function Shr64(x: nat, k: nat): nat
    requires k < 64
  {
    Shr(x, k)
  }

  /**
   * The `int mask` of the general case, converted to `__u64` by the `&`:
   * a 32-bit mask is the int -1 and sign-extends to all ones.
   */
  function SignExtendedMask(nbits: nat): nat
    requires 0 < nbits <= 32
  {
    var mask := Shr(U32_MAX, 32 - nbits);
    if mask >= 0x8000_0000 then mask + 0xffff_ffff_0000_0000 else mask
  }

  /** Reads a field; out of range fields read as 0. No path indexes outside the buffer. */
  method ExtractBits(buffer: array<byte>, size: nat, bitsStart: u16, bitsEnd: u16) returns (r: u32)
    requires size <= buffer.Length
    ensures r == FieldValue(buffer[..size], bitsStart, bitsEnd)
  {
    hide FieldValue, Shl64, Shr64, Or, And, Low, Shr, Pow2, Number, SignExtendedMask;
    var nbits := bitsEnd - bitsStart;
    var start := FieldStartByte(bitsStart);
    var end := FieldEndByte(bitsEnd);
    var baseShift := bitsStart % 8;
    ghost var report := buffer[..size];
    Unreadable(report, bitsStart, bitsEnd);
    if nbits <= 0 || nbits > 32 || start >= size || end >= size {
      return 0;
    }
    ByteSpan(bitsStart, bitsEnd);

    if baseShift == 0 {
      if nbits == 8 && start < size {
        AlignedByte(report, bitsStart, bitsEnd);
        return buffer[start];
      }
      if nbits == 16 {
        var off0, off1 := start, start + 1;
        if off0 < size && off1 < size {
          AlignedWord(report, bitsStart, bitsEnd);
          return Or(buffer[off0], Shl64(buffer[off1], 8));
        }
      }
      if nbits == 32 {
        var off0, off1, off2, off3 := start, start + 1, start + 2, start + 3;
        if off0 < size && off1 < size && off2 < size && off3 < size {
          AlignedDoubleWord(report, bitsStart, bitsEnd);
          return Or(Or(Or(buffer[off0], Shl64(buffer[off1], 8)), Shl64(buffer[off2], 16)), Shl64(buffer[off3], 24));
        }
      }
    }

    var mask := SignExtendedMask(nbits);
    var value: nat := 0;
    EmptyNumber(report, start);
    for i := start to end + 1
      invariant value == Number(report[start..i])
    {
      AppendByteAt(report, start, i);
      value := Or(value, Shl64(buffer[i], (i - start) * 8));
    }
    GeneralCase(report, bitsStart, bitsEnd);
    return Low(And(Shr64(value, baseShift), mask), 32);
  }

  /** The guard of `extract_bits` is the negation of Readable. */
  lemma Unreadable(report: seq<byte>, bitsStart: u16, bitsEnd: u16)
    ensures var start, end := FieldStartByte(bitsStart), FieldEndByte(bitsEnd);
            var nbits := bitsEnd - bitsStart;
            var rejected := nbits <= 0 || nbits > 32 || start >= |report| || end >= |report|;
            && (rejected <==> !Readable(|report|, bitsStart, bitsEnd))
            && (rejected ==> FieldValue(report, bitsStart, bitsEnd) == 0)
  {}

  /** A field of at most 32 bits touches at most five bytes. */
  lemma ByteSpan(bitsStart: u16, bitsEnd: u16)
    requires 0 < bitsEnd - bitsStart <= 32
    ensures FieldEndByte(bitsEnd) == (bitsEnd - 1) / 8
    ensures FieldStartByte(bitsStart) <= FieldEndByte(bitsEnd) <= FieldStartByte(bitsStart) + 4
  {}

  lemma FieldValueIsBits(report: seq<byte>, bitsStart: nat, bitsEnd: nat)
    requires Readable(|report|, bitsStart, bitsEnd)
    ensures FieldValue(report, bitsStart, bitsEnd) == Low(Shr(Number(report), bitsStart), bitsEnd - bitsStart)
  {
    ShrIsDivision(Number(report), bitsStart);
    ShrIsDivision(Shr(Number(report), bitsStart), bitsEnd - bitsStart);
  }

  lemma ShrSplit(report: seq<byte>, start: nat, shift: nat)
    requires start <= |report|
    ensures Shr(Number(report), 8 * start + shift) == Shr(Number(report[start..]), shift)
  {
    ShrAdd(Number(report), 8 * start, shift);
    NumberShr(report, start);
  }

  /** A field's value only depends on the bytes it touches, five at most. */
  lemma FieldInBytes(report: seq<byte>, bitsStart: nat, bitsEnd: nat)
    requires Readable(|report|, bitsStart, bitsEnd)
    ensures var start, end := bitsStart / 8, (bitsEnd - 1) / 8;
            && 0 <= end - start <= 4
            && FieldValue(report, bitsStart, bitsEnd)
               == Low(Shr(Number(report[start..end + 1]), bitsStart % 8), bitsEnd - bitsStart)
  {
    hide FieldValue, Number, Shr, Shl, Low, Pow2;
    var start, end, shift, nbits := bitsStart / 8, (bitsEnd - 1) / 8, bitsStart % 8, bitsEnd - bitsStart;
    var bytes, rest := report[start..end + 1], report[end + 1..];
    FieldValueIsBits(report, bitsStart, bitsEnd);
    ShrSplit(report, start, shift);
    assert report[start..] == bytes + rest;
    NumberConcat(bytes, rest);
    ShrOfSum(Number(bytes), Number(rest), 8 * |bytes|, shift);
    LowOfSum(Shr(Number(bytes), shift), Number(rest), 8 * |bytes| - shift, nbits);
  }

  /** A byte-aligned field of whole bytes is the number those bytes spell. */
  lemma AlignedField(report: seq<byte>, bitsStart: nat, bitsEnd: nat)
    requires Readable(|report|, bitsStart, bitsEnd)
    requires bitsStart % 8 == 0 && bitsEnd % 8 == 0
    ensures FieldValue(report, bitsStart, bitsEnd) == Number(report[bitsStart / 8..bitsEnd / 8])
  {
    hide FieldValue, Number, Low, Pow2;
    FieldInBytes(report, bitsStart, bitsEnd);
    assert (bitsEnd - 1) / 8 + 1 == bitsEnd / 8;
    var bytes := report[bitsStart / 8..bitsEnd / 8];
    NumberBounded(bytes);
    assert 8 * |bytes| == bitsEnd - bitsStart;
    LowSmall(Number(bytes), bitsEnd - bitsStart);
  }

  /** One turn of the accumulating loop: no bit is lost and no bits collide. */
  lemma AppendByte(bytes: seq<byte>, b: byte)
    requires |bytes| <= 4
    ensures Or(Number(bytes), Shl64(b, 8 * |bytes|)) == Number(bytes + [b])
  {
    var k := 8 * |bytes|;
    NumberConcat(bytes, [b]);
    assert Number([b]) == b;
    NumberBounded(bytes);
    NumberBounded(bytes + [b]);
    Pow2Monotone(8 * |bytes + [b]|, 64);
    LowSmall(Shl(b, k), 64);
    OrDisjoint(Number(bytes), b, k);
  }

  lemma EmptyNumber(report: seq<byte>, start: nat)
    requires start <= |report|
    ensures Number(report[start..start]) == 0
  {}

  lemma AppendByteAt(report: seq<byte>, start: nat, i: nat)
    requires start <= i < |report| && i <= start + 4
    ensures Or(Number(report[start..i]), Shl64(report[i], (i - start) * 8)) == Number(report[start..i + 1])
  {
    assert report[start..i + 1] == report[start..i] + [report[i]];
    AppendByte(report[start..i], report[i]);
  }

  lemma GeneralCase(report: seq<byte>, bitsStart: nat, bitsEnd: nat)
    requires Readable(|report|, bitsStart, bitsEnd)
    ensures var value := Number(report[bitsStart / 8..(bitsEnd - 1) / 8 + 1]);
            Low(And(Shr64(value, bitsStart % 8), SignExtendedMask(bitsEnd - bitsStart)), 32)
            == FieldValue(report, bitsStart, bitsEnd) <= U32_MAX
  {
    FieldInBytes(report, bitsStart, bitsEnd);
    MaskAndTruncate(Shr(Number(report[bitsStart / 8..(bitsEnd - 1) / 8 + 1]), bitsStart % 8), bitsEnd - bitsStart);
  }

  lemma AlignedByte(report: seq<byte>, bitsStart: nat, bitsEnd: nat)
    requires Readable(|report|, bitsStart, bitsEnd) && bitsStart % 8 == 0 && bitsEnd == bitsStart + 8
    ensures FieldValue(report, bitsStart, bitsEnd) == report[bitsStart / 8]
  {
    AlignedField(report, bitsStart, bitsEnd);
    assert report[bitsStart / 8..bitsEnd / 8] == [report[bitsStart / 8]];
  }

  lemma AlignedWord(report: seq<byte>, bitsStart: nat, bitsEnd: nat)
    requires Readable(|report|, bitsStart, bitsEnd) && bitsStart % 8 == 0 && bitsEnd == bitsStart + 16
    ensures var s := bitsStart / 8;
            FieldValue(report, bitsStart, bitsEnd) == Or(report[s], Shl64(report[s + 1], 8)) <= U32_MAX
  {
    var s := bitsStart / 8;
    AlignedField(report, bitsStart, bitsEnd);
    assert report[s..bitsEnd / 8] == [report[s], report[s + 1]];
    Assemble16(report[s], report[s + 1]);
  }

  lemma AlignedDoubleWord(report: seq<byte>, bitsStart: nat, bitsEnd: nat)
    requires Readable(|report|, bitsStart, bitsEnd) && bitsStart % 8 == 0 && bitsEnd == bitsStart + 32
    ensures var s := bitsStart / 8;
            FieldValue(report, bitsStart, bitsEnd)
            == Or(Or(Or(report[s], Shl64(report[s + 1], 8)), Shl64(report[s + 2], 16)), Shl64(report[s + 3], 24))
            <= U32_MAX
  {
    var s := bitsStart / 8;
    AlignedField(report, bitsStart, bitsEnd);
    assert report[s..bitsEnd / 8] == [report[s], report[s + 1], report[s + 2], report[s + 3]];
    Assemble32(report[s], report[s + 1], report[s + 2], report[s + 3]);
  }

  lemma Assemble16(b0: byte, b1: byte)
    ensures Or(b0, Shl64(b1, 8)) == Number([b0, b1]) < 0x1_0000
  {
    hide Or, Shl64, Low;
    assert Number([b0]) == b0;
    AppendByte([b0], b1);
    assert [b0] + [b1] == [b0, b1];
    NumberBounded([b0, b1]);
    assert 8 * |[b0, b1]| == 16;
    Pow2Thirty2();
  }

  lemma Assemble32(b0: byte, b1: byte, b2: byte, b3: byte)
    ensures Or(Or(Or(b0, Shl64(b1, 8)), Shl64(b2, 16)), Shl64(b3, 24)) == Number([b0, b1, b2, b3]) <= U32_MAX
  {
    hide Number, Or, Shl64, Pow2, Low;
    Assemble16(b0, b1);
    AppendByte([b0, b1], b2);
    assert [b0, b1] + [b2] == [b0, b1, b2];
    AppendByte([b0, b1, b2], b3);
    assert [b0, b1, b2] + [b3] == [b0, b1, b2, b3];
    NumberBounded([b0, b1, b2, b3]);
    assert 8 * |[b0, b1, b2, b3]| == 32;
    Pow2Thirty2();
  }

  lemma Pow2Thirty2()
    ensures Pow2(16) == 0x1_0000 && Pow2(31) == 0x8000_0000 && Pow2(32) == U32_MAX + 1
    ensures Pow2(64) == (U32_MAX + 1) * (U32_MAX + 1)
  {
    Pow2Values();
    Pow2Add(8, 8);
    Pow2Add(16, 8);
    Pow2Add(24, 7);
    Pow2Add(32, 32);
  }

  /** The sign-extended mask and the truncation to `__u32` together keep the field's bits. */
  lemma MaskAndTruncate(x: nat, nbits: nat)
    requires 0 < nbits <= 32
    ensures Low(And(x, SignExtendedMask(nbits)), 32) == Low(x, nbits) <= U32_MAX
  {
    hide And, Low, Pow2;
    Pow2Thirty2();
    ShrMask(32, 32 - nbits);
    Pow2Monotone(nbits, 32);
    ShrLow(x, nbits);
    if nbits == 32 {
      assert SignExtendedMask(nbits) == Pow2(64) - 1;
      AndLowMask(x, 64);
      LowLow(x, 32, 64);
    } else {
      Pow2Monotone(nbits, 31);
      AndLowMask(x, nbits);
      LowSmall(Low(x, nbits), 32);
    }
  }

  /** Bit i of a field is bit start + i of the report: bit (start + i) % 8 of byte (start + i) / 8. */
  lemma BitOfField(report: seq<byte>, bitsStart: nat, bitsEnd: nat, i: nat)
    requires Readable(|report|, bitsStart, bitsEnd) && i < bitsEnd - bitsStart
    ensures Bit(FieldValue(report, bitsStart, bitsEnd), i)
       <==> Bit(report[(bitsStart + i) / 8], (bitsStart + i) % 8)
  {
    hide FieldValue, Number, Shr, Low, Bit;
    FieldValueIsBits(report, bitsStart, bitsEnd);
    BitOfLow(Shr(Number(report), bitsStart), bitsEnd - bitsStart, i);
    BitOfShr(Number(report), bitsStart, i);
    BitOfNumber(report, bitsStart + i);
  }

  /**
   * A field of 1 to 32 bits whose last byte is in the report has the report's bits,
   * lowest first, and no others; every other range reads as 0.
   */
  lemma FieldBitByBit(report: seq<byte>, bitsStart: nat, bitsEnd: nat)
    ensures var v := FieldValue(report, bitsStart, bitsEnd);
            if 0 < bitsEnd - bitsStart <= 32 && (bitsEnd - 1) / 8 < |report|
            then v < Pow2(bitsEnd - bitsStart)
                 && forall i :: 0 <= i < bitsEnd - bitsStart ==>
                      (Bit(v, i) <==> Bit(report[(bitsStart + i) / 8], (bitsStart + i) % 8))
            else v == 0
  {
    hide Bit, Number;
    if Readable(|report|, bitsStart, bitsEnd) {
      forall i | 0 <= i < bitsEnd - bitsStart
        ensures Bit(FieldValue(report, bitsStart, bitsEnd), i)
           <==> Bit(report[(bitsStart + i) / 8], (bitsStart + i) % 8)
      {
        BitOfField(report, bitsStart, bitsEnd, i);
      }
    }
  }
}
