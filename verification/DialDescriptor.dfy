/**
 * `fixed_rdesc_pad` of src/bpf/stable/0010-Huion__Dial-2.bpf.c, the pad's
 * descriptor in firmware mode, and where its interpretation puts the fields.
 */
module DialDescriptor {
  import opened Lists
  import opened ReportItems
  import opened ReportLayout
  import opened VendorReports
  import opened Options

  function PadUsage(): List<Item> {
    Cons(Short(UsagePage, W8, 0x1), Cons(Short(Usage, W8, 0x7), Nil))
  }

  /** Two maxima and no minimum: the second counts, and the minimum stays 0. */
  function PadReport(): List<Item> {
    Cons(Short(ReportId, W8, 3), Cons(Short(LogicalMaximum, W8, 0), Cons(Short(LogicalMaximum, W8, 1),
    Cons(Short(UsagePage, W8, 0xd), Cons(Short(Usage, W8, 0x39), Nil)))))
  }

  function PadSwitch(): List<Item> {
    Cons(Short(Usage, W8, 0x44), Cons(Short(ReportCount, W8, 1), Cons(Short(ReportSize, W8, 1),
    Cons(Short(Input, W8, 0x2), Cons(Short(ReportCount, W8, 7), Cons(Short(Input, W8, 0x1), Nil))))))
  }

  function PadPosition(): List<Item> {
    Cons(Short(UsagePage, W8, 0x1), Cons(Short(Usage, W8, 0x30), Cons(Short(Usage, W8, 0x31),
    Cons(Short(ReportCount, W8, 2), Cons(Short(ReportSize, W8, 8), Cons(Short(Input, W8, 0x2), Nil))))))
  }

  function PadWheel(): List<Item> {
    Cons(Short(Usage, W8, 0x38), Cons(Short(LogicalMinimum, W8, -1), Cons(Short(LogicalMaximum, W8, 1),
    Cons(Short(ReportCount, W8, 1), Cons(Short(ReportSize, W8, 8), Cons(Short(Input, W8, 0x6), Nil))))))
  }

  function PadButtonUsages(): List<Item> {
    Cons(Short(UsagePage, W8, 0x9), Cons(Short(UsageMinimum, W8, 0x1), Cons(Short(UsageMaximum, W8, 0x8),
    Cons(Short(LogicalMinimum, W8, 0), Cons(Short(LogicalMaximum, W8, 1), Nil)))))
  }

  function PadButtons(): List<Item> {
    Cons(Short(ReportCount, W8, 7), Cons(Short(ReportSize, W8, 1), Cons(Short(Input, W8, 0x2), Nil)))
  }

  function ButtonPadding(): List<Item> {
    Cons(Short(ReportCount, W8, 1), Cons(Short(Input, W8, 0x1), Nil))
  }

  function PadParts(): List<List<Item>> {
    Cons(PadSwitch(), Cons(PadPosition(), Cons(PadWheel(), Cons(PadButtonUsages(), Cons(PadButtons(),
    Cons(ButtonPadding(), Nil))))))
  }

  function PadApplication(): List<Item> {
    Append(PadReport(),
    Cons(Collection(0, Joined(PadParts())), InSequence(Cons(9, Nil))))
  }

  function Descriptor(): List<Item> {
    Append(PadUsage(),
    Cons(Collection(1, PadApplication()), Nil))
  }

  function SwitchBlocks(): List<Block> {
    Cons(Block(Input, 3, 9, 1, 7, 1, OnOff(), Nil),
    Cons(Block(Input, 3, 8, 1, 1, 2, OnOff(), Cons(UsageId(0x0d, 0x44), Nil)), Nil))
  }

  function PositionBlocks(): List<Block> {
    Cons(Block(Input, 3, 16, 8, 2, 2, OnOff(),
               Cons(UsageId(0x01, 0x30), Cons(UsageId(0x01, 0x31), Nil))), SwitchBlocks())
  }

  function WheelBlocks(): List<Block> {
    Cons(Block(Input, 3, 32, 8, 1, 6, OneStep(), Cons(UsageId(0x01, 0x38), Nil)), PositionBlocks())
  }

  /** Eight usages for seven fields */
  function ButtonBlocks(): List<Block> {
    Cons(Block(Input, 3, 40, 1, 7, 2, OnOff(), UsageRange(0x09, 0x01, 8)), WheelBlocks())
  }

  function PadBlocks(): List<Block> {
    Cons(Block(Input, 3, 47, 1, 1, 1, OnOff(), Nil), ButtonBlocks())
  }

  function AfterPadUsage(): State {
    State(Globals(1, 0, 0, 0, Ranges(0, 0, 0, 0, 0, 0)), Nil, Cons(Bare(0x07), Nil), 0, Nil, Nil)
  }

  function AfterPadReport(): State {
    State(Globals(13, 0, 3, 0, Ranges(0, 1, 0, 0, 0, 0)), Nil, Cons(Bare(0x39), Nil), 0, Nil, Nil)
  }

  function AfterPadSwitch(): State {
    State(Globals(13, 1, 3, 7, Ranges(0, 1, 0, 0, 0, 0)), Nil, Nil, 0, Cons(Extent(Input, 3, 16), Nil), SwitchBlocks())
  }

  function AfterPadPosition(): State {
    State(Globals(1, 8, 3, 2, Ranges(0, 1, 0, 0, 0, 0)), Nil, Nil, 0, Cons(Extent(Input, 3, 32), Nil), PositionBlocks())
  }

  function AfterPadWheel(): State {
    State(Globals(1, 8, 3, 1, Ranges(255, 1, 0, 0, 0, 0)), Nil, Nil, 0, Cons(Extent(Input, 3, 40), Nil), WheelBlocks())
  }

  function AfterPadButtonUsages(): State {
    State(Globals(9, 8, 3, 1, Ranges(0, 1, 0, 0, 0, 0)), Nil, BareRange(0x01, 8), 1,
          Cons(Extent(Input, 3, 40), Nil), WheelBlocks())
  }

  function AfterPadButtons(): State {
    State(Globals(9, 1, 3, 7, Ranges(0, 1, 0, 0, 0, 0)), Nil, Nil, 0, Cons(Extent(Input, 3, 47), Nil), ButtonBlocks())
  }

  function AfterButtonPadding(): State {
    State(Globals(9, 1, 3, 1, Ranges(0, 1, 0, 0, 0, 0)), Nil, Nil, 0, Cons(Extent(Input, 3, 48), Nil), PadBlocks())
  }

  lemma RunPadUsage()
    ensures Run(PadUsage(), Initial()) == AfterPadUsage()
  {}

  lemma RunPadReport()
    ensures Run(PadReport(), ClearUsages(AfterPadUsage())) == AfterPadReport()
  {}

  lemma RunPadSwitch()
    ensures Run(PadSwitch(), ClearUsages(AfterPadReport())) == AfterPadSwitch()
  {}

  lemma RunPadPosition()
    ensures Run(PadPosition(), AfterPadSwitch()) == AfterPadPosition()
  {}

  lemma RunPadWheel()
    ensures Run(PadWheel(), AfterPadPosition()) == AfterPadWheel()
  {}

  lemma RunPadButtonUsages()
    ensures Run(PadButtonUsages(), AfterPadWheel()) == AfterPadButtonUsages()
  {
    hide BareRange, MainItem, Complete, UsageRange, NextBit, Lengthen;
  }

  lemma RunPadButtons()
    ensures Run(PadButtons(), AfterPadButtonUsages()) == AfterPadButtons()
  {
    hide BareRange, UsageRange;
    CompleteRange(0x09, 0x01, 8);
  }

  lemma RunButtonPadding()
    ensures Run(ButtonPadding(), AfterPadButtons()) == AfterButtonPadding()
  {
    hide UsageRange;
  }

  lemma RunPadApplication()
    ensures Run(PadApplication(), ClearUsages(AfterPadUsage()))
         == Run(InSequence(Cons(9, Nil)), ClearUsages(AfterButtonPadding()))
  {
    hide Append, Declare, Joined, InSequence;
    RunPadReport();
    RunAppend(PadReport(), Cons(Collection(0, Joined(PadParts())), InSequence(Cons(9, Nil))),
              ClearUsages(AfterPadUsage()));
    RunJoined(PadParts(), ClearUsages(AfterPadReport()));
    RunPadSwitch();
    RunPadPosition();
    RunPadWheel();
    RunPadButtonUsages();
    RunPadButtons();
    RunButtonPadding();
  }

  lemma RunDescriptor()
    ensures Run(Descriptor(), Initial())
         == ClearUsages(Run(InSequence(Cons(9, Nil)), ClearUsages(AfterButtonPadding())))
  {
    hide Append, Declare, InSequence, PadApplication;
    RunPadUsage();
    RunAppend(PadUsage(), Cons(Collection(1, PadApplication()), Nil), Initial());
    RunPadApplication();
  }

  // ----- The macros compile and emit the data they announce -----

  lemma PositionHonest()
    ensures Honest(PadReport()) && Honest(PadSwitch()) && Honest(PadPosition())
  {}

  lemma WheelHonest()
    ensures Honest(PadWheel()) && Honest(ButtonPadding())
  {}

  lemma ButtonsHonest()
    ensures Honest(PadButtonUsages()) && Honest(PadButtons())
  {}

  lemma DescriptorHonest()
    ensures Honest(Descriptor())
  {
    hide Append, Joined, FixedSizeVendorReport, PadReport, PadSwitch, PadPosition, PadWheel;
    hide PadButtonUsages, PadButtons, ButtonPadding;
    PositionHonest();
    WheelHonest();
    ButtonsHonest();
    HonestJoined(PadParts());
    PaddingHonest(9);
    HonestAppend(FixedSizeVendorReport(9), Nil);
    HonestAppend(PadReport(), Cons(Collection(0, Joined(PadParts())), InSequence(Cons(9, Nil))));
    assert Honest(PadUsage());
    HonestAppend(PadUsage(), Cons(Collection(1, PadApplication()), Nil));
  }

  // ----- The layout -----

  const PAD_REPORT := 3

  function Wheel(): UsageId { UsageId(0x01, 0x38) }
  function Button(i: nat): UsageId { UsageId(0x09, i) }

  /** The fields the bytes of the descriptor describe */
  ghost function Layout(): List<Block> {
    match LayoutOfBytes(Expand(Descriptor()))
    case Some(blocks) => blocks
    case None => Nil
  }

  lemma Padding()
    ensures Legal(Cons(9, Nil)) && PaddingBytes(Cons(9, Nil)) == 8
    ensures VendorBits(ClearUsages(AfterButtonPadding())) == 8
  {}

  lemma LayoutFromBytes(usage: UsageId)
    ensures LayoutOfBytes(Expand(Descriptor())).Some?
    ensures FieldBits(Layout(), Input, PAD_REPORT, usage) == FieldBits(PadBlocks(), Input, PAD_REPORT, usage)
  {
    hide Run, FieldBits, NextBit, Descriptor, Expand, InSequence, Legal, Honest, LayoutOfBytes, PadBlocks;
    DescriptorHonest();
    CompiledLayout(Descriptor());
    RunDescriptor();
    Padding();
    SequenceGrowth(Cons(9, Nil), ClearUsages(AfterButtonPadding()));
  }

  lemma ButtonFieldBits(i: nat)
    requires 1 <= i <= 8
    ensures FieldBits(PadBlocks(), Input, PAD_REPORT, Button(i))
         == if i < 8 then BitRange(39 + i, 40 + i, 2, OnOff()) else NoField
  {
    hide UsageRange;
    IndexInRange(0x09, 0x01, 8, i);
    NoButtonBefore(i);
    assert FieldBits(PadBlocks(), Input, PAD_REPORT, Button(i))
        == FieldBits(ButtonBlocks(), Input, PAD_REPORT, Button(i));
  }

  lemma NoButtonBefore(i: nat)
    ensures FieldBits(WheelBlocks(), Input, PAD_REPORT, Button(i)) == NoField
  {
    OtherPages(i);
    assert FieldBits(SwitchBlocks().tail, Input, PAD_REPORT, Button(i)) == FieldBits(Nil, Input, PAD_REPORT, Button(i));
    assert FieldBits(SwitchBlocks(), Input, PAD_REPORT, Button(i)) == NoField;
    assert FieldBits(PositionBlocks(), Input, PAD_REPORT, Button(i)) == NoField;
  }

  lemma OtherPages(i: nat)
    ensures IndexOf(SwitchBlocks().tail.head.usages, Button(i)) == 1
    ensures IndexOf(PositionBlocks().head.usages, Button(i)) == 2
    ensures IndexOf(WheelBlocks().head.usages, Button(i)) == 1
  {
    assert IndexOf(PositionBlocks().head.usages.tail, Button(i)) == 1;
  }

  lemma WheelFieldBits()
    ensures FieldBits(PadBlocks(), Input, PAD_REPORT, Wheel()) == BitRange(32, 40, 6, OneStep())
  {
    hide UsageRange;
    NoWheel(0x01, 8);
    assert FieldBits(PadBlocks(), Input, PAD_REPORT, Wheel()) == FieldBits(ButtonBlocks(), Input, PAD_REPORT, Wheel());
    assert FieldBits(WheelBlocks(), Input, PAD_REPORT, Wheel()) == BitRange(32, 40, 6, OneStep());
  }

  lemma {:induction false} NoWheel(first: nat, count: nat)
    ensures IndexOf(UsageRange(0x09, first, count), Wheel()) == count == Length(UsageRange(0x09, first, count))
    decreases count
  {
    if count > 0 { NoWheel(first + 1, count - 1); }
  }

  /**
   * Where the descriptor's bytes put the wheel and the buttons. Eight buttons are
   * declared for seven fields: the eighth has none.
   */
  lemma PadLayout(i: nat)
    requires 1 <= i < 8
    ensures FieldBits(Layout(), Input, 3, UsageId(0x09, i)) == BitRange(39 + i, 40 + i, 2, Ranges(0, 1, 0, 0, 0, 0))
    ensures FieldBits(Layout(), Input, 3, UsageId(0x09, 8)) == NoField
    ensures FieldBits(Layout(), Input, 3, UsageId(0x01, 0x38)) == BitRange(32, 40, 6, Ranges(255, 1, 0, 0, 0, 0))
  {
    hide FieldBits, Layout, Expand, Descriptor, LayoutOfBytes, PadBlocks;
    ButtonFieldBits(i);
    ButtonFieldBits(8);
    WheelFieldBits();
    LayoutFromBytes(Button(i));
    LayoutFromBytes(Button(8));
    LayoutFromBytes(Wheel());
  }

  /** The padding report keeps the original nine bytes though the pad's report now takes six. */
  lemma ReportLengths()
    ensures var extents := Run(Descriptor(), Initial()).extents;
            && ReportBytes(extents, Input, 0xac) == 9
            && ReportBytes(extents, Input, 3) == 6
  {
    hide Run, FieldBits, Descriptor, Legal, PaddingBytes;
    var s := ClearUsages(AfterButtonPadding());
    RunDescriptor();
    Padding();
    assert NextBit(s.extents, Input, PAD_REPORT) == 48;
    VendorReportLength(Cons(9, Nil), s);
  }
}
