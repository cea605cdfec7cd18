/**
 * The report descriptor macros of src/bpf/hid_report_helpers.h: their expansion
 * to bytes, and the short-item grammar (section 6.2.2.2 of the USB HID Device
 * Class Definition 1.11) those bytes are read back with.
 */
module ReportItems {
  import opened Bits
  import opened LittleEndian
  import opened Lists
  import opened Options

  /** What a macro declares, apart from collections and push/pop. */
  datatype Kind =
    | Input | Output | Feature
    | UsagePage | LogicalMinimum | LogicalMaximum | PhysicalMinimum | PhysicalMaximum
    | UnitExponent | Unit | ReportSize | ReportId | ReportCount
    | Usage | UsageMinimum | UsageMaximum

  /** The macro's suffix. UnitExponent alone packs its value into four bits. */
  datatype Width = W4 | W8 | W16 | W32

  datatype Item =
    | Short(kind: Kind, width: Width, value: int)
    | Collection(collectionType: int, body: List<Item>)
    | PushPop(body: List<Item>)

  /** The prefix byte of a kind with an empty size field */
  function Code(k: Kind): byte {
    match k
    case Input => 0x80
    case Output => 0x90
    case Feature => 0xb0
    case UsagePage => 0x04
    case LogicalMinimum => 0x14
    case LogicalMaximum => 0x24
    case PhysicalMinimum => 0x34
    case PhysicalMaximum => 0x44
    case UnitExponent => 0x54
    case Unit => 0x64
    case ReportSize => 0x74
    case ReportId => 0x84
    case ReportCount => 0x94
    case Usage => 0x08
    case UsageMinimum => 0x18
    case UsageMaximum => 0x28
  }

  const COLLECTION: byte := 0xa1
  const END_COLLECTION: byte := 0xc0
  const PUSH: byte := 0xa4
  const POP: byte := 0xb4
  const LONG_ITEM: byte := 0xfe

  /** The macros that exist */
  predicate IsMacro(k: Kind, w: Width) {
    match k
    case Input | Output | Feature => w == W8 || w == W16
    case UsagePage => w == W8 || w == W16
    case LogicalMinimum | LogicalMaximum | PhysicalMinimum | PhysicalMaximum => w == W8 || w == W16 || w == W32
    case UnitExponent => w == W4
    case Unit => w == W8 || w == W16 || w == W32
    case ReportSize | ReportId | ReportCount => w == W8
    case Usage => w == W8 || w == W16 || w == W32
    case UsageMinimum | UsageMaximum => w == W8 || w == W16
  }

  /** The static assertion of `i4`, `i8`, `i16` and `i32` */
  predicate Fits(w: Width, v: int) {
    match w
    case W4 => -0x8 <= v <= 0x7
    case W8 => -0x80 <= v <= 0xff
    case W16 => -0x8000 <= v <= 0xffff
    case W32 => -0x8000_0000 <= v <= 0xffff_ffff
  }

  /** What the C compiler accepts */
  predicate Compiles(items: List<Item>) {
    match items
    case Nil => true
    case Cons(Short(k, w, v), rest) => IsMacro(k, w) && Fits(w, v) && Compiles(rest)
    case Cons(Collection(t, body), rest) => Fits(W8, t) && Compiles(body) && Compiles(rest)
    case Cons(PushPop(body), rest) => Compiles(body) && Compiles(rest)
  }

  /** `Unit_i16` and `Unit_i32`: their prefix announces more data than follows. */
  predicate IsWideUnit(k: Kind, w: Width) {
    k == Unit && (w == W16 || w == W32)
  }

  predicate HasWideUnit(items: List<Item>) {
    match items
    case Nil => false
    case Cons(Short(k, w, _), rest) => IsWideUnit(k, w) || HasWideUnit(rest)
    case Cons(Collection(_, body), rest) => HasWideUnit(body) || HasWideUnit(rest)
    case Cons(PushPop(body), rest) => HasWideUnit(body) || HasWideUnit(rest)
  }

  /** Items that compile and emit the data they announce */
  predicate Honest(items: List<Item>) {
    match items
    case Nil => true
    case Cons(Short(k, w, v), rest) => IsMacro(k, w) && !IsWideUnit(k, w) && Fits(w, v) && Honest(rest)
    case Cons(Collection(t, body), rest) => Fits(W8, t) && Honest(body) && Honest(rest)
    case Cons(PushPop(body), rest) => Honest(body) && Honest(rest)
  }

  lemma {:induction false} HonestIff(items: List<Item>)
    ensures Honest(items) <==> Compiles(items) && !HasWideUnit(items)
    decreases items
  {
    match items
    case Nil =>
    case Cons(Short(_, _, _), rest) => HonestIff(rest);
    case Cons(Collection(_, body), rest) =>
      HonestIff(body);
      HonestIff(rest);
    case Cons(PushPop(body), rest) =>
      HonestIff(body);
      HonestIff(rest);
  }

  lemma {:induction false} HonestAppend(a: List<Item>, b: List<Item>)
    ensures Honest(Append(a, b)) <==> Honest(a) && Honest(b)
    decreases a
  {
    match a
    case Nil =>
    case Cons(_, rest) => HonestAppend(rest, b);
  }

  /** Stretches of items, one after the other */
  function Joined(parts: List<List<Item>>): List<Item> {
    match parts
    case Nil => Nil
    case Cons(part, rest) => Append(part, Joined(rest))
  }

  predicate AllHonest(parts: List<List<Item>>) {
    match parts
    case Nil => true
    case Cons(part, rest) => Honest(part) && AllHonest(rest)
  }

  lemma {:induction false} HonestJoined(parts: List<List<Item>>)
    ensures Honest(Joined(parts)) <==> AllHonest(parts)
  {
    match parts
    case Nil =>
    case Cons(part, rest) =>
      HonestAppend(part, Joined(rest));
      HonestJoined(rest);
  }

  /** How many data bytes follow the prefix */
  function DataSize(w: Width): nat {
    match w
    case W4 | W8 => 1
    case W16 => 2
    case W32 => 4
  }

  /** The size field of the prefix: 3 announces four bytes */
  function SizeCode(w: Width): nat {
    match w
    case W4 | W8 => 1
    case W16 => 2
    case W32 => 3
  }

  /** `(v >> 8 * i) & 0xff`; `>>` on a negative int keeps its sign */
  function ByteAt(v: int, shift: nat): byte
    requires shift > 0
  {
    v / shift % 256
  }

  /** `i4`, `i8`, `LE16`, `LE32`: the first byte goes through the unsigned cast */
  function DataBytes(w: Width, v: int): (bytes: seq<byte>)
    ensures |bytes| == DataSize(w)
  {
    match w
    case W4 => [v % 256 % 16]
    case W8 => [v % 256]
    case W16 => [v % 0x1_0000 % 256, ByteAt(v, 0x100)]
    case W32 => [v % 0x1_0000_0000 % 256, ByteAt(v, 0x100), ByteAt(v, 0x1_0000), ByteAt(v, 0x100_0000)]
  }

  /** What follows the prefix; `i16` and `i32` are one array element each, which keeps the low byte. */
  function Emitted(k: Kind, w: Width, v: int): seq<byte> {
    if IsWideUnit(k, w) then [v % 256] else DataBytes(w, v)
  }

  function Expand(items: List<Item>): seq<byte> {
    match items
    case Nil => []
    case Cons(Short(k, w, v), rest) => [Code(k) + SizeCode(w)] + Emitted(k, w, v) + Expand(rest)
    case Cons(Collection(t, body), rest) =>
      [COLLECTION] + DataBytes(W8, t) + Expand(body) + [END_COLLECTION] + Expand(rest)
    case Cons(PushPop(body), rest) => [PUSH] + Expand(body) + [POP] + Expand(rest)
  }

  /** The prefix bytes of one-byte data: tag, type and size as sections 6.2.2.4, 6.2.2.7 and 6.2.2.8 of HID 1.11 say */
  function PrefixOf(k: Kind): byte {
    match k
    case Input => 0x81
    case Output => 0x91
    case Feature => 0xb1
    case UsagePage => 0x05
    case LogicalMinimum => 0x15
    case LogicalMaximum => 0x25
    case PhysicalMinimum => 0x35
    case PhysicalMaximum => 0x45
    case UnitExponent => 0x55
    case Unit => 0x65
    case ReportSize => 0x75
    case ReportId => 0x85
    case ReportCount => 0x95
    case Usage => 0x09
    case UsageMinimum => 0x19
    case UsageMaximum => 0x29
  }

  lemma PrefixOfCode(k: Kind)
    ensures Code(k) + 1 == PrefixOf(k)
  {}

  lemma ExpandShort(k: Kind, w: Width, v: int, rest: List<Item>)
    ensures Expand(Cons(Short(k, w, v), rest)) == [Code(k) + SizeCode(w)] + Emitted(k, w, v) + Expand(rest)
  {}

  /** Casting first does not change the low bits. */
  lemma CastNibble(v: int)
    ensures v % 256 % 16 == v % 16
  {}

  lemma CastWord(v: int)
    ensures v % 0x1_0000 % 256 == v % 256
  {}

  lemma CastDoubleWord(v: int)
    ensures v % 0x1_0000_0000 % 256 == v % 256
  {}

  lemma WideUnits(k: Kind)
    ensures !IsWideUnit(k, W4) && !IsWideUnit(k, W8)
    ensures IsWideUnit(k, W16) == IsWideUnit(k, W32) == (k == Unit)
  {}

  lemma EmittedBytes(k: Kind, v: int)
    ensures Emitted(k, W8, v) == [v % 256] && Emitted(k, W4, v) == [v % 16]
    ensures k == Unit ==> Emitted(k, W16, v) == Emitted(k, W32, v) == [v % 256]
    ensures k != Unit ==>
              && Emitted(k, W16, v) == [v % 256, v / 256 % 256]
              && Emitted(k, W32, v) == [v % 256, v / 0x100 % 256, v / 0x1_0000 % 256, v / 0x100_0000 % 256]
  {
    hide IsWideUnit;
    CastNibble(v);
    CastWord(v);
    CastDoubleWord(v);
    WideUnits(k);
  }

  /**
   * The bytes of each macro: its prefix with the size of its data, then its value's
   * low byte, two bytes or four, lowest first. An exponent keeps four bits,
   * and the wide units one byte whatever they announce.
   */
  lemma MacroBytes(k: Kind, w: Width, v: int, rest: List<Item>)
    ensures Expand(Cons(Short(k, w, v), rest)) ==
              match w
              case W4 => [PrefixOf(k), v % 16] + Expand(rest)
              case W8 => [PrefixOf(k), v % 256] + Expand(rest)
              case W16 =>
                (if k == Unit then [0x66, v % 256] else [PrefixOf(k) + 1, v % 256, v / 256 % 256]) + Expand(rest)
              case W32 =>
                (if k == Unit then [0x67, v % 256]
                 else [PrefixOf(k) + 2, v % 256, v / 0x100 % 256, v / 0x1_0000 % 256, v / 0x100_0000 % 256])
                + Expand(rest)
  {
    hide Expand, Emitted;
    PrefixOfCode(k);
    ExpandShort(k, w, v, rest);
    EmittedBytes(k, v);
  }

  /** The values each width compiles for, and the macros there are */
  lemma MacroCompiles(k: Kind, w: Width, v: int)
    ensures Compiles(Cons(Short(k, w, v), Nil)) ==>
              match w
              case W4 => -8 <= v < 8
              case W8 => -128 <= v < 256
              case W16 => -32768 <= v < 65536
              case W32 => -2147483648 <= v < 4294967296
    ensures -8 <= v < 8 ==> Compiles(Cons(Short(UnitExponent, W4, v), Nil))
    ensures -128 <= v < 256 && k != UnitExponent ==> Compiles(Cons(Short(k, W8, v), Nil))
    ensures -32768 <= v < 65536 && k !in {UnitExponent, ReportSize, ReportId, ReportCount} ==>
              Compiles(Cons(Short(k, W16, v), Nil))
    ensures -2147483648 <= v < 4294967296
            && k in {LogicalMinimum, LogicalMaximum, PhysicalMinimum, PhysicalMaximum, Unit, Usage} ==>
              Compiles(Cons(Short(k, W32, v), Nil))
  {}

  /** Both bracketing macros put their bytes around those of their content. */
  lemma BracketBytes(t: int, body: List<Item>)
    ensures Expand(Cons(Collection(t, body), Nil)) == [0xa1, t % 256] + Expand(body) + [0xc0]
    ensures Expand(Cons(PushPop(body), Nil)) == [0xa4] + Expand(body) + [0xb4]
  {
    assert Expand(Nil) == [];
  }

  // ----- Reading bytes back (section 6.2.2.2 of HID 1.11) -----

  /** A prefix with its size field removed, the number of data bytes, and the little-endian data */
  datatype ShortItem = ShortItem(code: byte, size: nat, data: nat)

  function PrefixSize(prefix: byte): nat {
    if prefix % 4 == 3 then 4 else prefix % 4
  }

  /** Splits bytes into short items; fails on a long item or a truncated one. */
  function ParseShortItems(bytes: seq<byte>): Option<List<ShortItem>> {
    if bytes == [] then Some(Nil)
    else
      var prefix, n := bytes[0], PrefixSize(bytes[0]);
      if prefix == LONG_ITEM || |bytes| < 1 + n then None
      else
        match ParseShortItems(bytes[1 + n..])
        case None => None
        case Some(rest) => Some(Cons(ShortItem(prefix - prefix % 4, n, Number(bytes[1..1 + n])), rest))
  }

  datatype Node = Leaf(item: ShortItem) | Group(opener: ShortItem, body: List<Node>)

  /** Nodes read so far, and the items left over: none, or a closer first */
  datatype Nested = Nested(nodes: List<Node>, rest: List<ShortItem>)

  const COLLECTION_CODE: byte := 0xa0
  const END_COLLECTION_CODE: byte := 0xc0
  const PUSH_CODE: byte := 0xa4
  const POP_CODE: byte := 0xb4

  predicate Opens(i: ShortItem) {
    i.code == COLLECTION_CODE || i.code == PUSH_CODE
  }

  predicate Closer(i: ShortItem) {
    i.code == END_COLLECTION_CODE || i.code == POP_CODE
  }

  /** Each opener has its own closer. */
  predicate Closes(opener: ShortItem, i: ShortItem) {
    i.code == if opener.code == COLLECTION_CODE then END_COLLECTION_CODE else POP_CODE
  }

  function Nest(items: List<ShortItem>): (r: Option<Nested>)
    ensures r.Some? ==> Length(r.value.rest) <= Length(items)
    decreases Length(items)
  {
    match items
    case Nil => Some(Nested(Nil, Nil))
    case Cons(i, tail) =>
      if Closer(i) then Some(Nested(Nil, items))
      else if Opens(i) then
        match Nest(tail)
        case None => None
        case Some(Nested(body, rest)) =>
          if rest.Nil? || !Closes(i, rest.head) then None
          else
            match Nest(rest.tail)
            case None => None
            case Some(Nested(after, rest')) => Some(Nested(Cons(Group(i, body), after), rest'))
      else
        match Nest(tail)
        case None => None
        case Some(Nested(after, rest)) => Some(Nested(Cons(Leaf(i), after), rest))
  }

  /** The tree a whole descriptor spells: no closer may be left over. */
  function ParseTree(bytes: seq<byte>): Option<List<Node>> {
    match ParseShortItems(bytes)
    case None => None
    case Some(items) =>
      match Nest(items)
      case None => None
      case Some(Nested(nodes, rest)) => if rest.Nil? then Some(nodes) else None
  }

  // ----- What the macros mean -----

  /** The data an item carries: its value modulo its width */
  function DataValue(w: Width, v: int): nat {
    match w
    case W4 => v % 0x10
    case W8 => v % 0x100
    case W16 => v % 0x1_0000
    case W32 => v % 0x1_0000_0000
  }

  function ShortOf(k: Kind, w: Width, v: int): ShortItem {
    ShortItem(Code(k), DataSize(w), DataValue(w, v))
  }

  /** The same nesting, with each value modulo its width */
  function Meaning(items: List<Item>): List<Node> {
    match items
    case Nil => Nil
    case Cons(Short(k, w, v), rest) => Cons(Leaf(ShortOf(k, w, v)), Meaning(rest))
    case Cons(Collection(t, body), rest) =>
      Cons(Group(ShortItem(COLLECTION_CODE, 1, DataValue(W8, t)), Meaning(body)), Meaning(rest))
    case Cons(PushPop(body), rest) => Cons(Group(ShortItem(PUSH_CODE, 0, 0), Meaning(body)), Meaning(rest))
  }

  /** The items in the order they appear in the descriptor */
  function Flatten(items: List<Item>): List<ShortItem> {
    match items
    case Nil => Nil
    case Cons(Short(k, w, v), rest) => Cons(ShortOf(k, w, v), Flatten(rest))
    case Cons(Collection(t, body), rest) =>
      Cons(ShortItem(COLLECTION_CODE, 1, DataValue(W8, t)),
           Append(Flatten(body), Cons(ShortItem(END_COLLECTION_CODE, 0, 0), Flatten(rest))))
    case Cons(PushPop(body), rest) =>
      Cons(ShortItem(PUSH_CODE, 0, 0), Append(Flatten(body), Cons(ShortItem(POP_CODE, 0, 0), Flatten(rest))))
  }

  // ----- Round trip -----

  /** A value modulo 256 * m is its low byte and the next bytes modulo m. */
  lemma PeelByte(v: int, m: nat)
    requires m > 0
    ensures v % (256 * m) == v % 256 + 256 * (v / 256 % m)
    ensures v % (256 * m) % 256 == v % 256
    ensures v / 256 / m == v / (256 * m)
  {
    var q, r := v / 256 / m, 256 * (v / 256 % m) + v % 256;
    assert v / 256 == q * m + v / 256 % m;
    assert v == q * (256 * m) + r by { Reassociate(q, m); }
    QuotientUnique(v, 256 * m, q, r);
    QuotientUnique(r, 256, v / 256 % m, v % 256);
  }

  lemma Reassociate(q: int, m: int)
    ensures q * (256 * m) == 256 * (q * m)
  {}

  lemma NumberOfFour(a: byte, b: byte, c: byte, d: byte)
    ensures Number([a]) == a
    ensures Number([a, b]) == a + 256 * (b as int)
    ensures Number([a, b, c, d]) == a + 256 * (b + 256 * (c + 256 * (d as int)))
  {
    assert [a][1..] == [] && [a, b][1..] == [b] && [a, b, c, d][1..] == [b, c, d];
    assert [b, c, d][1..] == [c, d] && [c, d][1..] == [d] && [d][1..] == [];
    assert Number([d]) == d;
    assert Number([c, d]) == c + 256 * (d as int);
  }

  lemma DataBytesSpellValue(w: Width, v: int)
    ensures Number(DataBytes(w, v)) == DataValue(w, v)
  {
    hide Number, DataBytes, DataValue;
    match w
    case W4 => FourBits(v);
    case W8 => OneByte(v);
    case W16 => TwoBytes(v);
    case W32 => FourBytes(v);
  }

  lemma FourBits(v: int)
    ensures Number(DataBytes(W4, v)) == DataValue(W4, v)
  {
    hide Number;
    NumberOfFour(DataBytes(W4, v)[0], 0, 0, 0);
    var q, b := v / 256, v % 256;
    QuotientUnique(v, 16, 16 * q + b / 16, b % 16);
  }

  lemma OneByte(v: int)
    ensures Number(DataBytes(W8, v)) == DataValue(W8, v)
  {
    NumberOfFour(DataBytes(W8, v)[0], 0, 0, 0);
  }

  lemma TwoBytes(v: int)
    ensures Number(DataBytes(W16, v)) == DataValue(W16, v)
  {
    hide Number;
    PeelByte(v, 0x100);
    NumberOfFour(DataBytes(W16, v)[0], DataBytes(W16, v)[1], 0, 0);
  }

  lemma FourBytes(v: int)
    ensures Number(DataBytes(W32, v)) == DataValue(W32, v)
  {
    hide Number;
    var bytes := DataBytes(W32, v);
    PeelByte(v, 0x100_0000);
    PeelByte(v, 0x100);
    PeelByte(v, 0x1_0000);
    PeelByte(v / 0x100, 0x1_0000);
    PeelByte(v / 0x1_0000, 0x100);
    NumberOfFour(bytes[0], bytes[1], bytes[2], bytes[3]);
  }

  /** Whatever follows, these bytes split into exactly these items. */
  ghost predicate Splits(bytes: seq<byte>, items: List<ShortItem>) {
    forall tail: seq<byte> :: SplitsBefore(bytes, items, tail)
  }

  ghost predicate SplitsBefore(bytes: seq<byte>, items: List<ShortItem>, tail: seq<byte>) {
    ParseShortItems(bytes + tail) == Prepended(items, ParseShortItems(tail))
  }

  function Prepended(items: List<ShortItem>, more: Option<List<ShortItem>>): Option<List<ShortItem>> {
    match more
    case None => None
    case Some(rest) => Some(Append(items, rest))
  }

  lemma SplitsOne(prefix: byte, data: seq<byte>)
    requires prefix != LONG_ITEM && |data| == PrefixSize(prefix)
    ensures Splits([prefix] + data, Cons(ShortItem(prefix - prefix % 4, |data|, Number(data)), Nil))
  {
    var items := Cons(ShortItem(prefix - prefix % 4, |data|, Number(data)), Nil);
    forall tail: seq<byte>
      ensures SplitsBefore([prefix] + data, items, tail)
    {
      var bytes := [prefix] + data + tail;
      assert bytes[0] == prefix && bytes[1..1 + |data|] == data && bytes[1 + |data|..] == tail;
      if ParseShortItems(tail).Some? {
        var more := ParseShortItems(tail).value;
        assert ParseShortItems(bytes) == Some(Cons(items.head, more));
        assert Append(items, more) == Cons(items.head, Append(Nil, more));
      }
    }
  }

  lemma SplitsConcat(a: seq<byte>, itemsA: List<ShortItem>, b: seq<byte>, itemsB: List<ShortItem>)
    requires Splits(a, itemsA) && Splits(b, itemsB)
    ensures Splits(a + b, Append(itemsA, itemsB))
  {
    hide ParseShortItems;
    forall tail: seq<byte>
      ensures SplitsBefore(a + b, Append(itemsA, itemsB), tail)
    {
      assert SplitsBefore(a, itemsA, b + tail);
      assert SplitsBefore(b, itemsB, tail);
      assert a + b + tail == a + (b + tail);
      if ParseShortItems(tail).Some? {
        AppendAssociates(itemsA, itemsB, ParseShortItems(tail).value);
      }
    }
  }

  /** Expanded bytes split back into exactly the items, in order, whatever follows. */
  lemma {:induction false} SplitExpanded(items: List<Item>)
    requires Honest(items)
    ensures Splits(Expand(items), Flatten(items))
  {
    hide ParseShortItems, Splits, DataBytes, DataValue, Number, Code, SizeCode, PrefixSize, IsMacro, IsWideUnit, Fits;
    match items
    case Nil =>
      SplitsNothing();
    case Cons(Short(k, w, v), rest) =>
      SplitExpanded(rest);
      SplitsShort(k, w, v, rest);
    case Cons(Collection(t, body), rest) =>
      SplitExpanded(body);
      SplitExpanded(rest);
      SplitsCollection(t, body, rest);
    case Cons(PushPop(body), rest) =>
      SplitExpanded(body);
      SplitExpanded(rest);
      SplitsPushPop(body, rest);
  }

  lemma SplitsShort(k: Kind, w: Width, v: int, rest: List<Item>)
    requires Splits(Expand(rest), Flatten(rest))
    ensures Splits([Code(k) + SizeCode(w)] + DataBytes(w, v) + Expand(rest), Cons(ShortOf(k, w, v), Flatten(rest)))
  {
    hide ParseShortItems, Splits, DataBytes, DataValue, Number, Code, SizeCode, PrefixSize, Expand, Flatten;
    DataBytesSpellValue(w, v);
    PrefixAnnouncesData(k, w);
    SplitsOne(Code(k) + SizeCode(w), DataBytes(w, v));
    SplitsConcat([Code(k) + SizeCode(w)] + DataBytes(w, v), Cons(ShortOf(k, w, v), Nil), Expand(rest), Flatten(rest));
  }

  lemma SplitsCollection(t: int, body: List<Item>, rest: List<Item>)
    requires Splits(Expand(body), Flatten(body)) && Splits(Expand(rest), Flatten(rest))
    ensures Splits([COLLECTION] + DataBytes(W8, t) + Expand(body) + [END_COLLECTION] + Expand(rest),
                   Cons(ShortItem(COLLECTION_CODE, 1, DataValue(W8, t)),
                        Append(Flatten(body), Cons(ShortItem(END_COLLECTION_CODE, 0, 0), Flatten(rest)))))
  {
    hide ParseShortItems, Splits, DataBytes, DataValue, Number, Expand, Flatten;
    DataBytesSpellValue(W8, t);
    SplitsGroup(COLLECTION, DataBytes(W8, t), body, END_COLLECTION, rest);
    Regroup([COLLECTION], DataBytes(W8, t), Expand(body), [END_COLLECTION], Expand(rest));
  }

  lemma SplitsPushPop(body: List<Item>, rest: List<Item>)
    requires Splits(Expand(body), Flatten(body)) && Splits(Expand(rest), Flatten(rest))
    ensures Splits([PUSH] + Expand(body) + [POP] + Expand(rest),
                   Cons(ShortItem(PUSH_CODE, 0, 0),
                        Append(Flatten(body), Cons(ShortItem(POP_CODE, 0, 0), Flatten(rest)))))
  {
    hide ParseShortItems, Splits, Expand, Flatten;
    SplitsGroup(PUSH, [], body, POP, rest);
    Regroup([PUSH], [], Expand(body), [POP], Expand(rest));
    assert [PUSH] + [] == [PUSH];
  }

  lemma Regroup(a: seq<byte>, b: seq<byte>, c: seq<byte>, d: seq<byte>, e: seq<byte>)
    ensures a + b + c + d + e == a + b + (c + (d + [] + e))
  {}

  lemma SplitsNothing()
    ensures Splits([], Nil)
  {
    forall tail: seq<byte>
      ensures SplitsBefore([], Nil, tail)
    {
      assert [] + tail == tail;
    }
  }

  lemma PrefixAnnouncesData(k: Kind, w: Width)
    ensures var prefix := Code(k) + SizeCode(w);
            prefix < LONG_ITEM && PrefixSize(prefix) == DataSize(w) && prefix - prefix % 4 == Code(k)
  {}

  lemma SplitsGroup(open: byte, data: seq<byte>, body: List<Item>, close: byte, rest: List<Item>)
    requires open != LONG_ITEM && |data| == PrefixSize(open)
    requires close != LONG_ITEM && PrefixSize(close) == 0
    requires Splits(Expand(body), Flatten(body)) && Splits(Expand(rest), Flatten(rest))
    ensures Splits([open] + data + (Expand(body) + ([close] + [] + Expand(rest))),
                   Cons(ShortItem(open - open % 4, |data|, Number(data)),
                        Append(Flatten(body), Cons(ShortItem(close, 0, 0), Flatten(rest)))))
  {
    hide ParseShortItems, Splits, Expand, Flatten;
    var closer := Cons(ShortItem(close, 0, 0), Nil);
    SplitsOne(close, []);
    SplitsConcat([close] + [], closer, Expand(rest), Flatten(rest));
    var closed := [close] + [] + Expand(rest);
    SplitsConcat(Expand(body), Flatten(body), closed, Append(closer, Flatten(rest)));
    SplitsOne(open, data);
    SplitsConcat([open] + data, Cons(ShortItem(open - open % 4, |data|, Number(data)), Nil),
                 Expand(body) + closed, Append(Flatten(body), Append(closer, Flatten(rest))));
  }

  /** A descriptor's bytes split back into its items. */
  lemma ExpandedItems(items: List<Item>)
    requires Honest(items)
    ensures ParseShortItems(Expand(items)) == Some(Flatten(items))
  {
    SplitExpanded(items);
    assert SplitsBefore(Expand(items), Flatten(items), []);
    assert Expand(items) + [] == Expand(items);
    assert ParseShortItems([]) == Some(Nil);
    AppendNil(Flatten(items));
  }

  /** Nesting stops at the closer of the enclosing group. */
  lemma {:induction false} NestFlattened(items: List<Item>, tail: List<ShortItem>)
    requires tail.Cons? ==> Closer(tail.head)
    ensures Nest(Append(Flatten(items), tail)) == Some(Nested(Meaning(items), tail))
    decreases items
  {
    match items
    case Nil =>
    case Cons(Short(k, w, v), rest) =>
      NestFlattened(rest, tail);
    case Cons(Collection(t, body), rest) =>
      NestFlattened(rest, tail);
      var closed := Cons(ShortItem(END_COLLECTION_CODE, 0, 0), Append(Flatten(rest), tail));
      NestFlattened(body, closed);
      AppendAssociates(Flatten(body), Cons(ShortItem(END_COLLECTION_CODE, 0, 0), Flatten(rest)), tail);
    case Cons(PushPop(body), rest) =>
      NestFlattened(rest, tail);
      var closed := Cons(ShortItem(POP_CODE, 0, 0), Append(Flatten(rest), tail));
      NestFlattened(body, closed);
      AppendAssociates(Flatten(body), Cons(ShortItem(POP_CODE, 0, 0), Flatten(rest)), tail);
  }

  /** The bytes short items take: a prefix each, and their data */
  function Size(items: List<ShortItem>): nat {
    match items
    case Nil => 0
    case Cons(i, rest) => 1 + i.size + Size(rest)
  }

  /** At least what a tree takes: closers count without data. */
  function NodeSize(nodes: List<Node>): nat {
    match nodes
    case Nil => 0
    case Cons(Leaf(i), rest) => 1 + i.size + NodeSize(rest)
    case Cons(Group(i, body), rest) => 1 + i.size + NodeSize(body) + 1 + NodeSize(rest)
  }

  /** Splitting uses every byte once. */
  lemma {:induction false} ParsedSize(bytes: seq<byte>)
    ensures ParseShortItems(bytes).Some? ==> Size(ParseShortItems(bytes).value) == |bytes|
    decreases |bytes|
  {
    if bytes != [] && |bytes| >= 1 + PrefixSize(bytes[0]) {
      ParsedSize(bytes[1 + PrefixSize(bytes[0])..]);
    }
  }

  lemma {:induction false} NestedSize(items: List<ShortItem>)
    ensures Nest(items).Some? ==>
              Size(items) >= NodeSize(Nest(items).value.nodes) + Size(Nest(items).value.rest)
    decreases Length(items)
  {
    hide Opens, Closer, Closes;
    if items.Cons? && Nest(items).Some? && !Closer(items.head) {
      NestedSize(items.tail);
      if Opens(items.head) {
        NestedSize(Nest(items.tail).value.rest.tail);
      }
    }
  }

  /** A tree takes the bytes that were written, and more when a wide unit is among them. */
  lemma {:induction false} ExpandedSize(items: List<Item>)
    ensures NodeSize(Meaning(items)) >= |Expand(items)|
    ensures HasWideUnit(items) ==> NodeSize(Meaning(items)) > |Expand(items)|
    decreases items
  {
    hide Code, SizeCode, DataBytes, DataValue;
    match items
    case Nil =>
    case Cons(Short(_, _, _), rest) => ExpandedSize(rest);
    case Cons(Collection(t, body), rest) =>
      ExpandedSize(body);
      ExpandedSize(rest);
    case Cons(PushPop(body), rest) =>
      ExpandedSize(body);
      ExpandedSize(rest);
  }

  /** A wide unit anywhere breaks the item stream: no parse gives the items back. */
  lemma WideUnitBreaks(items: List<Item>)
    requires HasWideUnit(items)
    ensures ParseTree(Expand(items)) != Some(Meaning(items))
  {
    hide ParseShortItems, Nest, Expand, Meaning, HasWideUnit;
    ParsedSize(Expand(items));
    ExpandedSize(items);
    match ParseShortItems(Expand(items))
    case None =>
    case Some(shorts) => NestedSize(shorts);
  }

  /**
   * A descriptor written with the macros is read back with the same items in the
   * same nesting, each value modulo its width and every opener matched by its
   * own closer, if and only if neither `Unit_i16` nor `Unit_i32` occurs in it.
   */
  lemma RoundTripIff(items: List<Item>)
    requires Compiles(items)
    ensures ParseTree(Expand(items)) == Some(Meaning(items)) <==> !HasWideUnit(items)
  {
    hide ParseTree, Expand, Meaning, Compiles, HasWideUnit;
    HonestIff(items);
    if HasWideUnit(items) {
      WideUnitBreaks(items);
    } else {
      RoundTrip(items);
    }
  }

  /**
   * Every descriptor written with the macros is read back with the same items
   * in the same nesting, each value modulo its width and every opener matched
   * by its own closer.
   */
  lemma RoundTrip(items: List<Item>)
    requires Honest(items)
    ensures ParseTree(Expand(items)) == Some(Meaning(items))
  {
    ExpandedItems(items);
    NestFlattened(items, Nil);
    AppendNil(Flatten(items));
  }

  /** So the bytes determine the descriptor, up to the widths of its values. */
  lemma ExpandInjective(a: List<Item>, b: List<Item>)
    requires Honest(a) && Honest(b) && Expand(a) == Expand(b)
    ensures Meaning(a) == Meaning(b)
  {
    RoundTrip(a);
    RoundTrip(b);
  }

  /**
   * Before any items, the bytes of a wide unit with any value never split into
   * one item and those items.
   */
  lemma WideUnitSwallows(w: Width, v: int, items: List<Item>, i: ShortItem)
    requires IsWideUnit(Unit, w) && Honest(items)
    ensures ParseShortItems(Expand(Cons(Short(Unit, w, v), items))) != Some(Cons(i, Flatten(items)))
  {
    hide ParseShortItems, Expand, Number;
    var unit: byte := v % 256;
    var prefix: byte := Code(Unit) + SizeCode(w);
    var bytes := [prefix, unit] + Expand(items);
    ExpandUnit(w, v, items);
    ParsedSize(bytes);
    ExpandedItems(items);
    ParsedSize(Expand(items));
    WideUnitData(w, unit, Expand(items));
  }

  lemma ExpandUnit(w: Width, v: int, items: List<Item>)
    requires IsWideUnit(Unit, w)
    ensures Expand(Cons(Short(Unit, w, v), items)) == [Code(Unit) + SizeCode(w), v % 256] + Expand(items)
  {}

  /** Whatever follows, the item read first takes two or four data bytes. */
  lemma WideUnitData(w: Width, unit: byte, rest: seq<byte>)
    requires IsWideUnit(Unit, w)
    ensures var r := ParseShortItems([Code(Unit) + SizeCode(w), unit] + rest);
            r.Some? ==> r.value.Cons? && r.value.head.size >= 2
  {}
}
