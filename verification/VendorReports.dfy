/**
 * `FixedSizeVendorReport` of src/bpf/hid_report_helpers.h: padding reports that
 * keep the largest report of a rewritten descriptor as long as the original one.
 */
module VendorReports {
  import opened Lists
  import opened ReportItems
  import opened ReportLayout

  const VENDOR_REPORT: nat := 0xac

  function FixedSizeVendorReport(bytes: int): List<Item> {
    Cons(Short(UsagePage, W16, 0xffff),
    Cons(Short(Usage, W8, 0x01),
    Cons(Collection(0x00, Padding(bytes)),
    Nil)))
  }

  function Padding(bytes: int): List<Item> {
    Cons(Short(ReportId, W8, 0xac),
    Cons(Short(ReportSize, W8, 8),
    Cons(Short(ReportCount, W8, bytes - 1),
    Cons(Short(Input, W8, 0x1),
    Nil))))
  }

  /** Its bytes: a vendor-defined usage, and a physical collection with report 0xac and its constant bytes */
  lemma VendorReportBytes(n: int)
    ensures Expand(FixedSizeVendorReport(n))
         == [0x06, 0xff, 0xff, 0x09, 0x01, 0xa1, 0x00, 0x85, 0xac, 0x75, 0x08, 0x95, (n - 1) % 256, 0x81, 0x01, 0xc0]
  {
    hide Expand, PrefixOf;
    var input := Cons(Short(Input, W8, 0x1), Nil);
    var count := Cons(Short(ReportCount, W8, n - 1), input);
    var size := Cons(Short(ReportSize, W8, 8), count);
    var collection := Cons(Collection(0x00, Padding(n)), Nil);
    NoBytes();
    MacroBytes(Input, W8, 0x1, Nil);
    MacroBytes(ReportCount, W8, n - 1, input);
    MacroBytes(ReportSize, W8, 8, count);
    MacroBytes(ReportId, W8, 0xac, size);
    BracketBytes(0x00, Padding(n));
    MacroBytes(Usage, W8, 0x01, collection);
    MacroBytes(UsagePage, W16, 0xffff, Cons(Short(Usage, W8, 0x01), collection));
    Prefixes();
  }

  lemma NoBytes()
    ensures Expand(Nil) == []
  {}

  lemma Prefixes()
    ensures PrefixOf(Input) == 0x81 && PrefixOf(ReportCount) == 0x95 && PrefixOf(ReportSize) == 0x75
    ensures PrefixOf(ReportId) == 0x85 && PrefixOf(Usage) == 0x09 && PrefixOf(UsagePage) == 0x05
  {}

  /** Several of them in a row */
  function InSequence(sizes: List<int>): List<Item> {
    match sizes
    case Nil => Nil
    case Cons(n, rest) => Append(FixedSizeVendorReport(n), InSequence(rest))
  }

  predicate Legal(sizes: List<int>) {
    match sizes
    case Nil => true
    case Cons(n, rest) => 1 <= n <= 256 && Legal(rest)
  }

  /** The bytes they add: each size without the report ID */
  function PaddingBytes(sizes: List<int>): int {
    match sizes
    case Nil => 0
    case Cons(n, rest) => n - 1 + PaddingBytes(rest)
  }

  predicate Contains(sizes: List<int>, n: int) {
    match sizes
    case Nil => false
    case Cons(m, rest) => m == n || Contains(rest, n)
  }

  /** Every report except input report 0xac keeps its length and its fields. */
  ghost predicate OtherReportsKept(before: State, after: State) {
    && (forall kind, id :: !(kind == Input && id == VENDOR_REPORT)
          ==> NextBit(after.extents, kind, id) == NextBit(before.extents, kind, id))
    && (forall kind, id, usage :: !(kind == Input && id == VENDOR_REPORT)
          ==> FieldBits(after.blocks, kind, id, usage) == FieldBits(before.blocks, kind, id, usage))
  }

  function VendorBits(s: State): nat {
    NextBit(s.extents, Input, VENDOR_REPORT)
  }

  /** One macro, from any state: report 0xac grows by its ReportCount, taken modulo 256. */
  lemma OneVendorReport(n: int, s: State)
    ensures var after := Run(FixedSizeVendorReport(n), s);
            VendorBits(after) == VendorBits(s) + 8 * ((n - 1) % 256) && OtherReportsKept(s, after)
  {
    hide NextBit, FieldBits, Lengthen, Append, Run, FixedSizeVendorReport;
    var g := s.globals.(usagePage := 0xffff, reportId := 0xac, reportSize := 8, reportCount := (n - 1) % 256);
    var after := ClearUsages(MainItem(Input, 1, State(g, s.stack, Nil, 0, s.extents, s.blocks)));
    VendorReportRuns(n, s);
    assert Run(FixedSizeVendorReport(n), s) == after;
    forall kind, id
      ensures NextBit(after.extents, kind, id)
           == NextBit(s.extents, kind, id) + if kind == Input && id == VENDOR_REPORT then 8 * ((n - 1) % 256) else 0
    {
      LengthenExact(s.extents, Input, VENDOR_REPORT, 8 * ((n - 1) % 256), kind, id);
    }
    forall kind, id, usage | !(kind == Input && id == VENDOR_REPORT)
      ensures FieldBits(after.blocks, kind, id, usage) == FieldBits(s.blocks, kind, id, usage)
    {
      OtherFieldBits(after.blocks.head, s.blocks, kind, id, usage);
    }
  }

  lemma OtherFieldBits(b: Block, blocks: List<Block>, kind: Kind, id: nat, usage: UsageId)
    requires b.kind != kind || b.reportId != id
    ensures FieldBits(Cons(b, blocks), kind, id, usage) == FieldBits(blocks, kind, id, usage)
  {}

  lemma VendorReportRuns(n: int, s: State)
    ensures Run(FixedSizeVendorReport(n), s)
         == ClearUsages(MainItem(Input, 1, State(
              s.globals.(usagePage := 0xffff, reportId := 0xac, reportSize := 8, reportCount := (n - 1) % 256),
              s.stack, Nil, 0, s.extents, s.blocks)))
  {
    hide MainItem;
    var s1 := SetGlobals(s, s.globals.(usagePage := 0xffff));
    var s2 := SetUsages(s1, Append(s.usages, Cons(Bare(1), Nil)));
    var collection := Cons(Collection(0x00, Padding(n)), Nil);
    RunShort(UsagePage, W16, 0xffff, Cons(Short(Usage, W8, 0x01), collection), s);
    RunShort(Usage, W8, 0x01, collection, s1);
    RunPadding(n, ClearUsages(s2));
    assert Run(collection, s2) == Run(Nil, ClearUsages(Run(Padding(n), ClearUsages(s2))));
  }

  lemma RunPadding(n: int, s: State)
    ensures Run(Padding(n), s)
         == MainItem(Input, 1, SetGlobals(s,
              s.globals.(reportId := 0xac, reportSize := 8, reportCount := (n - 1) % 256)))
  {
    hide MainItem;
    var input := Cons(Short(Input, W8, 0x1), Nil);
    var count := Cons(Short(ReportCount, W8, n - 1), input);
    var size := Cons(Short(ReportSize, W8, 8), count);
    var s1 := Declare(ReportId, 1, 0xac, s);
    var s2 := Declare(ReportSize, 1, 8, s1);
    var s3 := Declare(ReportCount, 1, (n - 1) % 256, s2);
    RunShort(ReportId, W8, 0xac, size, s);
    RunShort(ReportSize, W8, 8, count, s1);
    RunShort(ReportCount, W8, n - 1, input, s2);
    RunShort(Input, W8, 0x1, Nil, s3);
  }

  lemma RunShort(k: Kind, w: Width, v: int, rest: List<Item>, s: State)
    ensures Run(Cons(Short(k, w, v), rest), s) == Run(rest, Declare(k, DataSize(w), DataValue(w, v), s))
  {}

  /** Any number of macros, from any state */
  lemma {:induction false} SequenceGrowth(sizes: List<int>, s: State)
    requires Legal(sizes)
    ensures var after := Run(InSequence(sizes), s);
            VendorBits(after) == VendorBits(s) + 8 * PaddingBytes(sizes) && OtherReportsKept(s, after)
  {
    hide Run, NextBit, FieldBits, FixedSizeVendorReport;
    match sizes
    case Nil =>
      RunNothing(s);
    case Cons(n, rest) =>
      OneVendorReport(n, s);
      SequenceGrowth(rest, Run(FixedSizeVendorReport(n), s));
      RunAppend(FixedSizeVendorReport(n), InSequence(rest), s);
  }

  lemma RunNothing(s: State)
    ensures Run(Nil, s) == s
  {}

  lemma {:induction false} PaddingCoversEach(sizes: List<int>, n: int)
    requires Legal(sizes) && Contains(sizes, n)
    ensures 1 + PaddingBytes(sizes) >= n
  {
    var Cons(m, rest) := sizes;
    PaddingNonnegative(rest);
    if m != n { PaddingCoversEach(rest, n); }
  }

  lemma {:induction false} PaddingNonnegative(sizes: List<int>)
    requires Legal(sizes)
    ensures PaddingBytes(sizes) >= 0
  {
    match sizes
    case Nil =>
    case Cons(n, rest) => PaddingNonnegative(rest);
  }

  /**
   * Appended to anything that does not use input report 0xac, the macros give
   * that report 1 + sum(n - 1) bytes, which covers each n, and leave every
   * other report alone.
   */
  lemma VendorReportLength(sizes: List<int>, s: State)
    requires Legal(sizes) && VendorBits(s) == 8
    ensures var after := Run(InSequence(sizes), s);
            && ReportBytes(after.extents, Input, VENDOR_REPORT) == 1 + PaddingBytes(sizes)
            && (forall n :: Contains(sizes, n) ==> ReportBytes(after.extents, Input, VENDOR_REPORT) >= n)
            && OtherReportsKept(s, after)
  {
    hide Run, OtherReportsKept, Legal;
    SequenceGrowth(sizes, s);
    PaddingNonnegative(sizes);
    forall n | Contains(sizes, n)
      ensures 1 + PaddingBytes(sizes) >= n
    {
      PaddingCoversEach(sizes, n);
    }
  }

  /**
   * The macro also compiles for sizes -127 to 0, where ReportCount wraps: a fresh
   * report 0xac has the stated size exactly when that size is at least 1.
   */
  lemma VendorReportExact(n: int, s: State)
    requires VendorBits(s) == 8
    ensures Compiles(FixedSizeVendorReport(n)) <==> -127 <= n <= 256
    ensures Compiles(FixedSizeVendorReport(n)) ==>
              (ReportBytes(Run(FixedSizeVendorReport(n), s).extents, Input, VENDOR_REPORT) == n <==> n >= 1)
  {
    hide Run;
    OneVendorReport(n, s);
    PaddingHonest(n);
    HonestIff(FixedSizeVendorReport(n));
    NoWideUnits(n);
  }

  lemma NoWideUnits(n: int)
    ensures !HasWideUnit(FixedSizeVendorReport(n))
  {
    var input := Cons(Short(Input, W8, 0x1), Nil);
    var count := Cons(Short(ReportCount, W8, n - 1), input);
    var collection := Cons(Collection(0x00, Padding(n)), Nil);
    assert !HasWideUnit(count);
    assert !HasWideUnit(Cons(Short(ReportSize, W8, 8), count));
    assert !HasWideUnit(Padding(n));
    assert !HasWideUnit(collection);
    assert !HasWideUnit(Cons(Short(Usage, W8, 0x01), collection));
  }

  lemma PaddingHonest(n: int)
    ensures Honest(FixedSizeVendorReport(n)) <==> -127 <= n <= 256
  {
    var input := Cons(Short(Input, W8, 0x1), Nil);
    var count := Cons(Short(ReportCount, W8, n - 1), input);
    var collection := Cons(Collection(0x00, Padding(n)), Nil);
    assert Honest(input);
    assert Honest(count) <==> Fits(W8, n - 1);
    assert Honest(Cons(Short(ReportSize, W8, 8), count)) <==> Fits(W8, n - 1);
    assert Honest(Padding(n)) <==> Fits(W8, n - 1);
    assert Honest(collection) <==> Fits(W8, n - 1);
    assert Honest(Cons(Short(Usage, W8, 0x01), collection)) <==> Fits(W8, n - 1);
  }
}
