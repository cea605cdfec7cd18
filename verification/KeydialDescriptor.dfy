/**
 * `fixed_rdesc_pad` of src/bpf/stable/0010-Huion__KeydialK20.bpf.c, and where its
 * interpretation puts the pad's fields.
 */
module KeydialDescriptor {
  import opened Lists
  import opened ReportItems
  import opened ReportLayout
  import opened VendorReports
  import opened Options

  function PadUsage(): List<Item> {
    Cons(Short(UsagePage, W8, 0x1), Cons(Short(Usage, W8, 0x7), Nil))
  }

  function PadReport(): List<Item> {
    Cons(Short(ReportId, W8, 8), Cons(Short(UsagePage, W8, 0xd), Cons(Short(Usage, W8, 0x39), Nil)))
  }

  function PadSwitch(): List<Item> {
    Cons(Short(Usage, W8, 0x44), Cons(Short(ReportCount, W8, 1), Cons(Short(ReportSize, W8, 1),
    Cons(Short(Input, W8, 0x2), Cons(Short(ReportCount, W8, 7), Cons(Short(Input, W8, 0x1), Nil))))))
  }

  function PadPositionUsages(): List<Item> {
    Cons(Short(UsagePage, W8, 0x1), Cons(Short(Usage, W8, 0x30), Cons(Short(Usage, W8, 0x31),
    Cons(Short(LogicalMinimum, W8, 0), Cons(Short(LogicalMaximum, W8, 1), Nil)))))
  }

  function PadPosition(): List<Item> {
    Cons(Short(ReportCount, W8, 2), Cons(Short(ReportSize, W8, 8), Cons(Short(Input, W8, 0x2), Nil)))
  }

  function FirstButtonUsages(): List<Item> {
    Cons(Short(UsagePage, W8, 0x9), Cons(Short(UsageMinimum, W8, 0x1), Cons(Short(UsageMaximum, W8, 0xa), Nil)))
  }

  function FirstButtons(): List<Item> {
    Cons(Short(LogicalMinimum, W8, 0), Cons(Short(LogicalMaximum, W8, 1), Cons(Short(ReportCount, W8, 10),
    Cons(Short(ReportSize, W8, 1), Cons(Short(Input, W8, 0x2), Nil)))))
  }

  function OtherButtonUsages(): List<Item> {
    Cons(Short(UsageMinimum, W8, 0x31), Cons(Short(UsageMaximum, W8, 0x3a), Nil))
  }

  function OtherButtons(): List<Item> {
    Cons(Short(ReportCount, W8, 9), Cons(Short(ReportSize, W8, 1), Cons(Short(Input, W8, 0x2), Nil)))
  }

  function ButtonPadding(): List<Item> {
    Cons(Short(ReportCount, W8, 13), Cons(Short(ReportSize, W8, 1), Cons(Short(Input, W8, 0x1), Nil)))
  }

  function PadWheelUsage(): List<Item> {
    Cons(Short(UsagePage, W8, 0x1), Cons(Short(Usage, W8, 0x38), Cons(Short(LogicalMinimum, W8, -1),
    Cons(Short(LogicalMaximum, W8, 1), Nil))))
  }

  function PadWheel(): List<Item> {
    Cons(Short(ReportCount, W8, 1), Cons(Short(ReportSize, W8, 8), Cons(Short(Input, W8, 0x6), Nil)))
  }

  function PadParts(): List<List<Item>> {
    Cons(PadSwitch(), Cons(PadPositionUsages(), Cons(PadPosition(), Cons(FirstButtonUsages(), Cons(FirstButtons(),
    Cons(OtherButtonUsages(), Cons(OtherButtons(), Cons(ButtonPadding(), Cons(PadWheelUsage(), Cons(PadWheel(),
    Nil))))))))))
  }

  function PadFields(): List<Item> {
    Joined(PadParts())
  }

  function PadApplication(): List<Item> {
    Append(PadReport(),
    Cons(Collection(0, PadFields()), InSequence(Cons(8, Cons(3, Cons(7, Nil))))))
  }

  function Descriptor(): List<Item> {
    Append(PadUsage(),
    Cons(Collection(1, PadApplication()), Nil))
  }

  function Blocks1(): List<Block> {
    Cons(Block(Input, 8, 8, 1, 1, 2, Ranges(0, 0, 0, 0, 0, 0), Cons(UsageId(0x0d, 0x44), Nil)), Nil)
  }

  function Blocks2(): List<Block> {
    Cons(Block(Input, 8, 9, 1, 7, 1, Ranges(0, 0, 0, 0, 0, 0), Nil), Blocks1())
  }

  function Blocks3(): List<Block> {
    Cons(Block(Input, 8, 16, 8, 2, 2, OnOff(), Cons(UsageId(0x01, 0x30), Cons(UsageId(0x01, 0x31), Nil))), Blocks2())
  }

  function Blocks4(): List<Block> {
    Cons(Block(Input, 8, 32, 1, 10, 2, OnOff(), UsageRange(0x09, 0x01, 10)), Blocks3())
  }

  function Blocks5(): List<Block> {
    Cons(Block(Input, 8, 42, 1, 9, 2, OnOff(), UsageRange(0x09, 0x31, 10)), Blocks4())
  }

  function Blocks6(): List<Block> {
    Cons(Block(Input, 8, 51, 1, 13, 1, OnOff(), Nil), Blocks5())
  }

  function Blocks7(): List<Block> {
    Cons(Block(Input, 8, 64, 8, 1, 6, OneStep(), Cons(UsageId(0x01, 0x38), Nil)), Blocks6())
  }

  function AfterPadUsage(): State {
    State(Globals(1, 0, 0, 0, Ranges(0, 0, 0, 0, 0, 0)), Nil, Cons(Bare(0x07), Nil), 0, Nil, Nil)
  }

  function AfterPadReport(): State {
    State(Globals(13, 0, 8, 0, Ranges(0, 0, 0, 0, 0, 0)), Nil, Cons(Bare(0x39), Nil), 0, Nil, Nil)
  }

  function AfterPadSwitch(): State {
    State(Globals(13, 1, 8, 7, Ranges(0, 0, 0, 0, 0, 0)), Nil, Nil, 0, Cons(Extent(Input, 8, 16), Nil), Blocks2())
  }

  function AfterPadPositionUsages(): State {
    State(Globals(1, 1, 8, 7, Ranges(0, 1, 0, 0, 0, 0)),
          Nil, Cons(Bare(0x30), Cons(Bare(0x31), Nil)), 0,
          Cons(Extent(Input, 8, 16), Nil), Blocks2())
  }

  function AfterPadPosition(): State {
    State(Globals(1, 8, 8, 2, Ranges(0, 1, 0, 0, 0, 0)), Nil, Nil, 0, Cons(Extent(Input, 8, 32), Nil), Blocks3())
  }

  function AfterFirstButtonUsages(): State {
    State(Globals(9, 8, 8, 2, Ranges(0, 1, 0, 0, 0, 0)), Nil, BareRange(0x01, 10), 1,
          Cons(Extent(Input, 8, 32), Nil), Blocks3())
  }

  function AfterFirstButtons(): State {
    State(Globals(9, 1, 8, 10, Ranges(0, 1, 0, 0, 0, 0)), Nil, Nil, 0, Cons(Extent(Input, 8, 42), Nil), Blocks4())
  }

  function AfterOtherButtonUsages(): State {
    State(Globals(9, 1, 8, 10, Ranges(0, 1, 0, 0, 0, 0)), Nil, BareRange(0x31, 10), 49,
          Cons(Extent(Input, 8, 42), Nil), Blocks4())
  }

  function AfterOtherButtons(): State {
    State(Globals(9, 1, 8, 9, Ranges(0, 1, 0, 0, 0, 0)), Nil, Nil, 0, Cons(Extent(Input, 8, 51), Nil), Blocks5())
  }

  function AfterButtonPadding(): State {
    State(Globals(9, 1, 8, 13, Ranges(0, 1, 0, 0, 0, 0)), Nil, Nil, 0, Cons(Extent(Input, 8, 64), Nil), Blocks6())
  }

  function AfterPadWheelUsage(): State {
    State(Globals(1, 1, 8, 13, Ranges(255, 1, 0, 0, 0, 0)), Nil, Cons(Bare(0x38), Nil), 0,
          Cons(Extent(Input, 8, 64), Nil), Blocks6())
  }

  function AfterPadWheel(): State {
    State(Globals(1, 8, 8, 1, Ranges(255, 1, 0, 0, 0, 0)), Nil, Nil, 0, Cons(Extent(Input, 8, 72), Nil), Blocks7())
  }

  lemma RunPadUsage()
    ensures Run(PadUsage(), Initial()) == AfterPadUsage()
  {}

  lemma RunPadReport()
    ensures Run(PadReport(), ClearUsages(AfterPadUsage())) == AfterPadReport()
  {}

  lemma RunPadSwitch()
    ensures Run(PadSwitch(), ClearUsages(AfterPadReport())) == AfterPadSwitch()
  {}

  lemma RunPadPositionUsages()
    ensures Run(PadPositionUsages(), AfterPadSwitch()) == AfterPadPositionUsages()
  {}

  lemma RunPadPosition()
    ensures Run(PadPosition(), AfterPadPositionUsages()) == AfterPadPosition()
  {}

  lemma RunFirstButtonUsages()
    ensures Run(FirstButtonUsages(), AfterPadPosition()) == AfterFirstButtonUsages()
  {}

  lemma RunFirstButtons()
    ensures Run(FirstButtons(), AfterFirstButtonUsages()) == AfterFirstButtons()
  {
    hide UsageRange, BareRange;
    CompleteRange(0x09, 0x01, 10);
  }

  lemma RunOtherButtonUsages()
    ensures Run(OtherButtonUsages(), AfterFirstButtons()) == AfterOtherButtonUsages()
  {}

  lemma RunOtherButtons()
    ensures Run(OtherButtons(), AfterOtherButtonUsages()) == AfterOtherButtons()
  {
    hide UsageRange, BareRange;
    CompleteRange(0x09, 0x31, 10);
  }

  lemma RunButtonPadding()
    ensures Run(ButtonPadding(), AfterOtherButtons()) == AfterButtonPadding()
  {}

  lemma RunPadWheelUsage()
    ensures Run(PadWheelUsage(), AfterButtonPadding()) == AfterPadWheelUsage()
  {}

  lemma RunPadWheel()
    ensures Run(PadWheel(), AfterPadWheelUsage()) == AfterPadWheel()
  {}

  lemma RunPadFields()
    ensures Run(PadFields(), ClearUsages(AfterPadReport()))
         == AfterPadWheel()
  {
    hide Declare, Joined;
    RunJoined(PadParts(), ClearUsages(AfterPadReport()));
    RunPadSwitch();
    RunPadPositionUsages();
    RunPadPosition();
    RunFirstButtonUsages();
    RunFirstButtons();
    RunOtherButtonUsages();
    RunOtherButtons();
    RunButtonPadding();
    RunPadWheelUsage();
    RunPadWheel();
  }

  lemma RunPadApplication()
    ensures Run(PadApplication(), ClearUsages(AfterPadUsage()))
         == Run(InSequence(Cons(8, Cons(3, Cons(7, Nil)))), ClearUsages(AfterPadWheel()))
  {
    hide Append, Declare, InSequence;
    var from2 := InSequence(Cons(8, Cons(3, Cons(7, Nil))));
    var from1 := Cons(Collection(0, PadFields()), from2);
    RunPadReport();
    RunAppend(PadReport(), from1, ClearUsages(AfterPadUsage()));
    RunPadFields();
  }

  lemma RunDescriptor()
    ensures Run(Descriptor(), Initial())
         == ClearUsages(Run(InSequence(Cons(8, Cons(3, Cons(7, Nil)))), ClearUsages(AfterPadWheel())))
  {
    hide Append, Declare, InSequence;
    var from1 := Cons(Collection(1, PadApplication()), Nil);
    RunPadUsage();
    RunAppend(PadUsage(), from1, Initial());
    RunPadApplication();
  }

  // ----- The macros compile and emit the data they announce -----

  lemma PadPositionHonest()
    ensures Honest(PadReport()) && Honest(PadSwitch()) && Honest(PadPositionUsages()) && Honest(PadPosition())
  {}

  lemma ButtonsHonest()
    ensures Honest(FirstButtonUsages()) && Honest(FirstButtons()) && Honest(OtherButtonUsages())
  {}

  lemma OtherButtonsHonest()
    ensures Honest(OtherButtons()) && Honest(ButtonPadding())
  {}

  lemma FieldsHonest()
    ensures Honest(PadFields())
  {
    hide Joined, PadSwitch, PadPositionUsages, PadPosition, FirstButtonUsages, FirstButtons;
    hide OtherButtonUsages, OtherButtons, ButtonPadding;
    PadPositionHonest();
    ButtonsHonest();
    OtherButtonsHonest();
    HonestJoined(PadParts());
  }

  function Sizes(): List<int> {
    Cons(8, Cons(3, Cons(7, Nil)))
  }

  lemma PaddingSequenceHonest()
    ensures Honest(InSequence(Sizes()))
  {
    hide Append, FixedSizeVendorReport;
    PaddingHonest(8);
    PaddingHonest(3);
    PaddingHonest(7);
    HonestAppend(FixedSizeVendorReport(7), Nil);
    HonestAppend(FixedSizeVendorReport(3), InSequence(Cons(7, Nil)));
    HonestAppend(FixedSizeVendorReport(8), InSequence(Cons(3, Cons(7, Nil))));
  }

  lemma DescriptorHonest()
    ensures Honest(Descriptor())
  {
    hide Append, PadFields, InSequence;
    FieldsHonest();
    PaddingSequenceHonest();
    assert Honest(PadUsage()) && Honest(PadReport());
    HonestAppend(PadReport(), Cons(Collection(0, PadFields()), InSequence(Sizes())));
    HonestAppend(PadUsage(), Cons(Collection(1, PadApplication()), Nil));
  }

  // ----- The layout -----

  const PAD_REPORT := 8

  /** Button b of the mask: the first ten are buttons 1 to 10, the rest start at 0x31. */
  function Button(b: nat): UsageId {
    UsageId(0x09, if b < 10 then b + 1 else b - 10 + 0x31)
  }

  function Wheel(): UsageId { UsageId(0x01, 0x38) }

  /** The fields the bytes of the descriptor describe */
  ghost function Layout(): List<Block> {
    match LayoutOfBytes(Expand(Descriptor()))
    case Some(blocks) => blocks
    case None => Nil
  }

  lemma Padding()
    ensures Legal(Sizes()) && PaddingBytes(Sizes()) == 15
    ensures VendorBits(ClearUsages(AfterPadWheel())) == 8
  {}

  lemma LayoutFromBytes(id: nat, usage: UsageId)
    requires id != VENDOR_REPORT
    ensures LayoutOfBytes(Expand(Descriptor())).Some?
    ensures FieldBits(Layout(), Input, id, usage) == FieldBits(Blocks7(), Input, id, usage)
  {
    hide Run, FieldBits, NextBit, Descriptor, Expand, InSequence, Legal, Honest, LayoutOfBytes, Blocks7;
    DescriptorHonest();
    CompiledLayout(Descriptor());
    RunDescriptor();
    Padding();
    SequenceGrowth(Sizes(), ClearUsages(AfterPadWheel()));
  }

  lemma ButtonFieldBits(b: nat)
    requires b < 19
    ensures FieldBits(Blocks7(), Input, PAD_REPORT, Button(b)) == BitRange(32 + b, 33 + b, 2, OnOff())
  {
    hide IndexOf, Length, UsageRange;
    IndexInRange(0x09, 0x31, 10, Button(b).id);
    IndexInRange(0x09, 0x01, 10, Button(b).id);
    NotTheWheel(b);
    assert FieldBits(Blocks7(), Input, PAD_REPORT, Button(b)) == FieldBits(Blocks6(), Input, PAD_REPORT, Button(b));
    assert FieldBits(Blocks6(), Input, PAD_REPORT, Button(b)) == FieldBits(Blocks5(), Input, PAD_REPORT, Button(b));
    if b < 10 {
      assert FieldBits(Blocks5(), Input, PAD_REPORT, Button(b)) == FieldBits(Blocks4(), Input, PAD_REPORT, Button(b));
      assert FieldBits(Blocks4(), Input, PAD_REPORT, Button(b)) == BitRange(32 + b, 33 + b, 2, OnOff());
    } else {
      assert FieldBits(Blocks5(), Input, PAD_REPORT, Button(b)) == BitRange(32 + b, 33 + b, 2, OnOff());
    }
  }

  lemma NotTheWheel(b: nat)
    ensures IndexOf(Blocks7().head.usages, Button(b)) == 1 == Length(Blocks7().head.usages)
  {}

  lemma WheelFieldBits()
    ensures FieldBits(Blocks7(), Input, PAD_REPORT, Wheel()) == BitRange(64, 72, 6, OneStep())
  {}

  /** Where the descriptor's bytes put the nineteen buttons and the wheel */
  lemma PadLayout(b: nat)
    requires b < 19
    ensures Button(b) == UsageId(0x09, if b < 10 then 1 + b else 0x31 + (b - 10)) && Wheel() == UsageId(0x01, 0x38)
    ensures FieldBits(Layout(), Input, 8, Button(b)) == BitRange(32 + b, 33 + b, 2, Ranges(0, 1, 0, 0, 0, 0))
    ensures FieldBits(Layout(), Input, 8, Wheel()) == BitRange(64, 72, 6, Ranges(255, 1, 0, 0, 0, 0))
  {
    hide FieldBits, Layout, Expand, Descriptor, LayoutOfBytes, Blocks7;
    ButtonFieldBits(b);
    WheelFieldBits();
    LayoutFromBytes(PAD_REPORT, Button(b));
    LayoutFromBytes(PAD_REPORT, Wheel());
  }

  /** The three padding macros add up to one report that covers each original length. */
  lemma ReportLengths()
    ensures var extents := Run(Descriptor(), Initial()).extents;
            && ReportBytes(extents, Input, 0xac) == 1 + 7 + 2 + 6
            && ReportBytes(extents, Input, 8) == 9
  {
    hide Run, FieldBits, Descriptor, Legal, PaddingBytes;
    var s := ClearUsages(AfterPadWheel());
    RunDescriptor();
    Padding();
    assert NextBit(s.extents, Input, PAD_REPORT) == 72;
    VendorReportLength(Sizes(), s);
  }
}
