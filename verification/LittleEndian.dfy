/** The number a byte sequence spells, least significant byte first. */
module LittleEndian {
  import opened Bits

  function Number(bytes: seq<byte>): nat {
    if bytes == [] then 0 else bytes[0] + 256 * Number(bytes[1..])
  }

  lemma {:induction false} NumberBounded(bytes: seq<byte>)
    ensures Number(bytes) < Pow2(8 * |bytes|)
  {
    if bytes != [] {
      NumberBounded(bytes[1..]);
      Pow2Values();
      Pow2Add(8, 8 * |bytes[1..]|);
    }
  }

  lemma {:induction false} NumberConcat(a: seq<byte>, b: seq<byte>)
    ensures Number(a + b) == Number(a) + Shl(Number(b), 8 * |a|)
  {
    if a == [] {
      assert a + b == b;
    } else {
      assert (a + b)[1..] == a[1..] + b;
      NumberConcat(a[1..], b);
      Pow2Values();
      Pow2Add(8, 8 * |a[1..]|);
      Scale(Number(b), Pow2(8 * |a[1..]|));
    }
  }

  lemma Scale(x: int, y: int)
    ensures x * (256 * y) == 256 * (x * y)
  {}

  /** Shifting out whole bytes drops them from the front. */
  lemma {:induction false} NumberShr(bytes: seq<byte>, i: nat)
    requires i <= |bytes|
    ensures Shr(Number(bytes), 8 * i) == Number(bytes[i..])
  {
    if i == 0 {
      assert bytes[0..] == bytes;
    } else {
      NumberShr(bytes[1..], i - 1);
      assert bytes[1..][i - 1..] == bytes[i..];
      ShrAdd(Number(bytes), 8, 8 * (i - 1));
      ShrIsDivision(Number(bytes), 8);
      Pow2Values();
      QuotientUnique(Number(bytes), 256, Number(bytes[1..]), bytes[0]);
    }
  }

  /** Bit i of the number is bit i % 8 of byte i / 8. */
  lemma {:induction false} BitOfNumber(bytes: seq<byte>, i: nat)
    requires i < 8 * |bytes|
    ensures Bit(Number(bytes), i) <==> Bit(bytes[i / 8], i % 8)
  {
    hide Bit, Low, Shr;
    var b, rest := bytes[0], Number(bytes[1..]);
    Pow2Values();
    if i < 8 {
      LowOfSum(b, rest, 8, 8);
      BitOfLow(Number(bytes), 8, i);
      BitOfLow(b, 8, i);
    } else {
      BitOfShr(Number(bytes), 8, i - 8);
      NumberShr(bytes, 1);
      BitOfNumber(bytes[1..], i - 8);
    }
  }
}
