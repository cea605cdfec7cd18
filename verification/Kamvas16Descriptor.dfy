/**
 * `fixed_rdesc_vendor` of src/bpf/stable/0010-Huion__Kamvas16Gen3.bpf.c, and where
 * its interpretation puts the fields of the pen and pad reports. Each `Run`
 * lemma interprets one stretch of the descriptor.
 */
module Kamvas16Descriptor {
  import opened Lists
  import opened ReportItems
  import opened ReportLayout
  import opened VendorReports
  import opened Options

  function PenUsage(): List<Item> {
    Cons(Short(UsagePage, W8, 0xd), Cons(Short(Usage, W8, 0x2), Nil))
  }

  function PenReport(): List<Item> {
    Cons(Short(ReportId, W8, 8), Cons(Short(UsagePage, W8, 0xd), Cons(Short(Usage, W8, 0x2), Nil)))
  }

  function PenSwitchRange(): List<Item> {
    Cons(Short(ReportSize, W8, 1), Cons(Short(LogicalMinimum, W8, 0), Cons(Short(LogicalMaximum, W8, 1),
    Cons(Short(ReportCount, W8, 3), Nil))))
  }

  function PenSwitches(): List<Item> {
    Cons(Short(Usage, W8, 0x42), Cons(Short(Usage, W8, 0x44), Cons(Short(Usage, W8, 0x5a), Cons(Short(Input, W8, 0x2),
    Nil))))
  }

  function PenThirdButton(): List<Item> {
    Cons(Short(ReportCount, W8, 1), Cons(Short(UsagePage, W8, 0x9), Cons(Short(Usage, W8, 0x4a),
    Cons(Short(Input, W8, 0x2), Nil))))
  }

  function PenInRange(): List<Item> {
    Cons(Short(ReportCount, W8, 3), Cons(Short(Input, W8, 0x1), Cons(Short(ReportCount, W8, 1),
    Cons(Short(Usage, W8, 0x32), Cons(Short(Input, W8, 0x2), Cons(Short(ReportSize, W8, 16),
    Cons(Short(ReportCount, W8, 1), Nil)))))))
  }

  function PenUnits(): List<Item> {
    Cons(Short(UsagePage, W8, 0x1), Cons(Short(Unit, W8, 0x11), Cons(Short(UnitExponent, W4, -2),
    Cons(Short(LogicalMinimum, W16, 0), Cons(Short(PhysicalMinimum, W16, 0), Nil)))))
  }

  function PenX(): List<Item> {
    Cons(Short(ReportSize, W8, 24), Cons(Short(LogicalMaximum, W32, 69920), Cons(Short(PhysicalMaximum, W16, 3496),
    Cons(Short(Usage, W8, 0x30), Cons(Short(Input, W8, 0x2), Nil)))))
  }

  function PenY(): List<Item> {
    Cons(Short(ReportSize, W8, 16), Cons(Short(LogicalMaximum, W16, 39340), Cons(Short(PhysicalMaximum, W16, 1967),
    Cons(Short(Usage, W8, 0x31), Cons(Short(Input, W8, 0x2), Nil)))))
  }

  function PenPosition(): List<Item> {
    Append(PenUnits(),
    Append(PenX(), PenY()))
  }

  function PenPressure(): List<Item> {
    Cons(Short(ReportSize, W8, 16), Cons(Short(LogicalMinimum, W16, 0), Cons(Short(LogicalMaximum, W16, 16383),
    Cons(Short(Usage, W8, 0x30), Cons(Short(Input, W8, 0x2), Nil)))))
  }

  function PenPadding(): List<Item> {
    Cons(Short(ReportSize, W8, 8), Cons(Short(ReportCount, W8, 1), Cons(Short(Input, W8, 0x1),
    Cons(Short(ReportCount, W8, 2), Nil))))
  }

  function PenTiltUnits(): List<Item> {
    Cons(Short(Unit, W8, 0x14), Cons(Short(UnitExponent, W4, 0), Cons(Short(LogicalMinimum, W8, -60),
    Cons(Short(PhysicalMinimum, W8, -60), Cons(Short(LogicalMaximum, W8, 60), Cons(Short(PhysicalMaximum, W8, 60),
    Nil))))))
  }

  function PenTiltAxes(): List<Item> {
    Cons(Short(Usage, W8, 0x3d), Cons(Short(Usage, W8, 0x3e), Cons(Short(Input, W8, 0x2), Nil)))
  }

  function PenTilt(): List<Item> {
    Append(PenTiltUnits(), PenTiltAxes())
  }

  function PenParts(): List<List<Item>> {
    Cons(PenSwitchRange(), Cons(PenSwitches(), Cons(Cons(PushPop(PenThirdButton()), Nil), Cons(PenInRange(),
    Cons(Cons(PushPop(PenPosition()), Nil), Cons(PenPressure(), Cons(PenPadding(), Cons(Cons(PushPop(PenTilt()), Nil),
    Nil))))))))
  }

  function PenFields(): List<Item> {
    Joined(PenParts())
  }

  function PenApplication(): List<Item> {
    Append(PenReport(),
    Cons(Collection(0, PenFields()), Nil))
  }

  function PadUsage(): List<Item> {
    Cons(Short(UsagePage, W8, 0x1), Cons(Short(Usage, W8, 0x7), Nil))
  }

  function PadReport(): List<Item> {
    Cons(Short(ReportId, W8, 9), Cons(Short(LogicalMinimum, W8, 0), Cons(Short(LogicalMaximum, W8, 1),
    Cons(Short(UsagePage, W8, 0xd), Cons(Short(Usage, W8, 0x39), Nil)))))
  }

  function PadSwitch(): List<Item> {
    Cons(Short(ReportSize, W8, 1), Cons(Short(ReportCount, W8, 1), Cons(Short(Usage, W8, 0x44),
    Cons(Short(Input, W8, 0x2), Cons(Short(ReportCount, W8, 7), Cons(Short(Input, W8, 0x1), Nil))))))
  }

  function PadPosition(): List<Item> {
    Cons(Short(ReportSize, W8, 8), Cons(Short(ReportCount, W8, 2), Cons(Short(UsagePage, W8, 0x1),
    Cons(Short(Usage, W8, 0x30), Cons(Short(Usage, W8, 0x31), Cons(Short(Input, W8, 0x2), Nil))))))
  }

  function PadButtonUsages(): List<Item> {
    Cons(Short(ReportSize, W8, 1), Cons(Short(ReportCount, W8, 8), Cons(Short(UsagePage, W8, 0x9),
    Cons(Short(UsageMinimum, W8, 0x1), Cons(Short(UsageMaximum, W8, 0x8), Nil)))))
  }

  function PadButtons(): List<Item> {
    Cons(Short(Input, W8, 0x2), Cons(Short(ReportSize, W8, 8), Cons(Short(ReportCount, W8, 1), Nil)))
  }

  function PadTopWheel(): List<Item> {
    Cons(Short(UsagePage, W8, 0x1), Cons(Short(Usage, W8, 0x38), Cons(Short(LogicalMinimum, W8, -1),
    Cons(Short(LogicalMaximum, W8, 1), Cons(Short(Input, W8, 0x6), Nil)))))
  }

  function PadBottomWheel(): List<Item> {
    Cons(Short(UsagePage, W8, 0xc), Cons(Short(Usage, W16, 0x238), Cons(Short(Input, W8, 0x6), Nil)))
  }

  function PadParts(): List<List<Item>> {
    Cons(PadSwitch(), Cons(PadPosition(), Cons(PadButtonUsages(), Cons(PadButtons(), Cons(PadTopWheel(),
    Cons(PadBottomWheel(), Nil))))))
  }

  function PadFields(): List<Item> {
    Joined(PadParts())
  }

  function PadApplication(): List<Item> {
    Append(PadReport(),
    Cons(Collection(0, PadFields()), InSequence(Cons(14, Nil))))
  }

  function Descriptor(): List<Item> {
    Append(PenUsage(),
    Cons(Collection(1, PenApplication()),
    Append(PadUsage(),
    Cons(Collection(1, PadApplication()), Nil))))
  }

  /** Up to 69920 of 349.6 mm: the unit is a centimeter, the exponent -2 a nibble. */
  function XRanges(): Ranges {
    Ranges(0, 69920, 0, 3496, 16 - 2, 0x11)
  }

  /** Up to 39340 of 196.7 mm */
  function YRanges(): Ranges {
    Ranges(0, 39340, 0, 1967, 16 - 2, 0x11)
  }

  function PressureRanges(): Ranges {
    Ranges(0, 16383, 0, 0, 0, 0)
  }

  /** From -60 to 60 degrees */
  function TiltRanges(): Ranges {
    Ranges(256 - 60, 60, 256 - 60, 60, 0, 0x14)
  }

  function Blocks1(): List<Block> {
    Cons(Block(Input, 8, 8, 1, 3, 2, OnOff(),
               Cons(UsageId(0x0d, 0x42), Cons(UsageId(0x0d, 0x44), Cons(UsageId(0x0d, 0x5a), Nil)))), Nil)
  }

  function Blocks2(): List<Block> {
    Cons(Block(Input, 8, 11, 1, 1, 2, OnOff(), Cons(UsageId(0x09, 0x4a), Nil)), Blocks1())
  }

  function Blocks3(): List<Block> {
    Cons(Block(Input, 8, 12, 1, 3, 1, OnOff(), Nil), Blocks2())
  }

  function Blocks4(): List<Block> {
    Cons(Block(Input, 8, 15, 1, 1, 2, OnOff(), Cons(UsageId(0x0d, 0x32), Nil)), Blocks3())
  }

  function Blocks5(): List<Block> {
    Cons(Block(Input, 8, 16, 24, 1, 2, XRanges(), Cons(UsageId(0x01, 0x30), Nil)), Blocks4())
  }

  function Blocks6(): List<Block> {
    Cons(Block(Input, 8, 40, 16, 1, 2, YRanges(), Cons(UsageId(0x01, 0x31), Nil)), Blocks5())
  }

  function Blocks7(): List<Block> {
    Cons(Block(Input, 8, 56, 16, 1, 2, PressureRanges(), Cons(UsageId(0x0d, 0x30), Nil)), Blocks6())
  }

  function Blocks8(): List<Block> {
    Cons(Block(Input, 8, 72, 8, 1, 1, PressureRanges(), Nil), Blocks7())
  }

  function Blocks9(): List<Block> {
    Cons(Block(Input, 8, 80, 8, 2, 2, TiltRanges(),
               Cons(UsageId(0x0d, 0x3d), Cons(UsageId(0x0d, 0x3e), Nil))), Blocks8())
  }

  function Blocks10(): List<Block> {
    Cons(Block(Input, 9, 8, 1, 1, 2, OnOff(), Cons(UsageId(0x0d, 0x44), Nil)), Blocks9())
  }

  function Blocks11(): List<Block> {
    Cons(Block(Input, 9, 9, 1, 7, 1, OnOff(), Nil), Blocks10())
  }

  function Blocks12(): List<Block> {
    Cons(Block(Input, 9, 16, 8, 2, 2, OnOff(), Cons(UsageId(0x01, 0x30), Cons(UsageId(0x01, 0x31), Nil))), Blocks11())
  }

  function Blocks13(): List<Block> {
    Cons(Block(Input, 9, 32, 1, 8, 2, OnOff(), UsageRange(0x09, 0x01, 8)), Blocks12())
  }

  function Blocks14(): List<Block> {
    Cons(Block(Input, 9, 40, 8, 1, 6, OneStep(), Cons(UsageId(0x01, 0x38), Nil)), Blocks13())
  }

  function Blocks15(): List<Block> {
    Cons(Block(Input, 9, 48, 8, 1, 6, OneStep(), Cons(UsageId(0x0c, 0x238), Nil)), Blocks14())
  }

  function AfterPenUsage(): State {
    State(Globals(13, 0, 0, 0, Ranges(0, 0, 0, 0, 0, 0)), Nil, Cons(Bare(0x02), Nil), 0, Nil, Nil)
  }

  function AfterPenReport(): State {
    State(Globals(13, 0, 8, 0, Ranges(0, 0, 0, 0, 0, 0)), Nil, Cons(Bare(0x02), Nil), 0, Nil, Nil)
  }

  function AfterPenSwitchRange(): State {
    State(Globals(13, 1, 8, 3, Ranges(0, 1, 0, 0, 0, 0)), Nil, Nil, 0, Nil, Nil)
  }

  function AfterPenSwitches(): State {
    State(Globals(13, 1, 8, 3, Ranges(0, 1, 0, 0, 0, 0)), Nil, Nil, 0, Cons(Extent(Input, 8, 11), Nil), Blocks1())
  }

  function AfterPenThirdButton(): State {
    State(Globals(9, 1, 8, 1, Ranges(0, 1, 0, 0, 0, 0)),
          Cons(Globals(13, 1, 8, 3, Ranges(0, 1, 0, 0, 0, 0)), Nil), Nil, 0,
          Cons(Extent(Input, 8, 12), Nil), Blocks2())
  }

  function AfterPenInRange(): State {
    State(Globals(13, 16, 8, 1, Ranges(0, 1, 0, 0, 0, 0)), Nil, Nil, 0, Cons(Extent(Input, 8, 16), Nil), Blocks4())
  }

  function AfterPenUnits(): State {
    State(Globals(1, 16, 8, 1, Ranges(0, 1, 0, 0, 14, 17)),
          Cons(Globals(13, 16, 8, 1, Ranges(0, 1, 0, 0, 0, 0)), Nil), Nil, 0,
          Cons(Extent(Input, 8, 16), Nil), Blocks4())
  }

  function AfterPenX(): State {
    State(Globals(1, 24, 8, 1, Ranges(0, 69920, 0, 3496, 14, 17)),
          Cons(Globals(13, 16, 8, 1, Ranges(0, 1, 0, 0, 0, 0)), Nil), Nil, 0,
          Cons(Extent(Input, 8, 40), Nil), Blocks5())
  }

  function AfterPenY(): State {
    State(Globals(1, 16, 8, 1, Ranges(0, 39340, 0, 1967, 14, 17)),
          Cons(Globals(13, 16, 8, 1, Ranges(0, 1, 0, 0, 0, 0)), Nil), Nil, 0,
          Cons(Extent(Input, 8, 56), Nil), Blocks6())
  }

  function AfterPenPressure(): State {
    State(Globals(13, 16, 8, 1, Ranges(0, 16383, 0, 0, 0, 0)), Nil, Nil, 0,
          Cons(Extent(Input, 8, 72), Nil), Blocks7())
  }

  function AfterPenPadding(): State {
    State(Globals(13, 8, 8, 2, Ranges(0, 16383, 0, 0, 0, 0)), Nil, Nil, 0, Cons(Extent(Input, 8, 80), Nil), Blocks8())
  }

  function AfterPenTiltUnits(): State {
    State(Globals(13, 8, 8, 2, Ranges(196, 60, 196, 60, 0, 20)),
          Cons(Globals(13, 8, 8, 2, Ranges(0, 16383, 0, 0, 0, 0)), Nil), Nil, 0,
          Cons(Extent(Input, 8, 80), Nil), Blocks8())
  }

  function AfterPenTiltAxes(): State {
    State(Globals(13, 8, 8, 2, Ranges(196, 60, 196, 60, 0, 20)),
          Cons(Globals(13, 8, 8, 2, Ranges(0, 16383, 0, 0, 0, 0)), Nil), Nil, 0,
          Cons(Extent(Input, 8, 96), Nil), Blocks9())
  }

  function AfterPadUsage(): State {
    State(Globals(1, 8, 8, 2, Ranges(0, 16383, 0, 0, 0, 0)), Nil, Cons(Bare(0x07), Nil), 0,
          Cons(Extent(Input, 8, 96), Nil), Blocks9())
  }

  function AfterPadReport(): State {
    State(Globals(13, 8, 9, 2, Ranges(0, 1, 0, 0, 0, 0)), Nil, Cons(Bare(0x39), Nil), 0,
          Cons(Extent(Input, 8, 96), Nil), Blocks9())
  }

  function AfterPadSwitch(): State {
    State(Globals(13, 1, 9, 7, Ranges(0, 1, 0, 0, 0, 0)), Nil, Nil, 0,
          Cons(Extent(Input, 8, 96), Cons(Extent(Input, 9, 16), Nil)), Blocks11())
  }

  function AfterPadPosition(): State {
    State(Globals(1, 8, 9, 2, Ranges(0, 1, 0, 0, 0, 0)), Nil, Nil, 0,
          Cons(Extent(Input, 8, 96), Cons(Extent(Input, 9, 32), Nil)), Blocks12())
  }

  function AfterPadButtonUsages(): State {
    State(Globals(9, 1, 9, 8, Ranges(0, 1, 0, 0, 0, 0)), Nil, BareRange(0x01, 8), 1,
          Cons(Extent(Input, 8, 96), Cons(Extent(Input, 9, 32), Nil)), Blocks12())
  }

  function AfterPadButtons(): State {
    State(Globals(9, 8, 9, 1, Ranges(0, 1, 0, 0, 0, 0)), Nil, Nil, 0,
          Cons(Extent(Input, 8, 96), Cons(Extent(Input, 9, 40), Nil)), Blocks13())
  }

  function AfterPadTopWheel(): State {
    State(Globals(1, 8, 9, 1, Ranges(255, 1, 0, 0, 0, 0)), Nil, Nil, 0,
          Cons(Extent(Input, 8, 96), Cons(Extent(Input, 9, 48), Nil)), Blocks14())
  }

  function AfterPadBottomWheel(): State {
    State(Globals(12, 8, 9, 1, Ranges(255, 1, 0, 0, 0, 0)), Nil, Nil, 0,
          Cons(Extent(Input, 8, 96), Cons(Extent(Input, 9, 56), Nil)), Blocks15())
  }

  lemma RunPenUsage()
    ensures Run(PenUsage(), Initial()) == AfterPenUsage()
  {}

  lemma RunPenReport()
    ensures Run(PenReport(), ClearUsages(AfterPenUsage())) == AfterPenReport()
  {}

  lemma RunPenSwitchRange()
    ensures Run(PenSwitchRange(), ClearUsages(AfterPenReport())) == AfterPenSwitchRange()
  {}

  lemma RunPenSwitches()
    ensures Run(PenSwitches(), AfterPenSwitchRange()) == AfterPenSwitches()
  {}

  lemma RunPenThirdButton()
    ensures Run(PenThirdButton(), Push(AfterPenSwitches())) == AfterPenThirdButton()
  {}

  lemma RunPenInRange()
    ensures Run(PenInRange(), Pop(AfterPenThirdButton())) == AfterPenInRange()
  {}

  lemma RunPenUnits()
    ensures Run(PenUnits(), Push(AfterPenInRange())) == AfterPenUnits()
  {}

  lemma RunPenX()
    ensures Run(PenX(), AfterPenUnits()) == AfterPenX()
  {}

  lemma RunPenY()
    ensures Run(PenY(), AfterPenX()) == AfterPenY()
  {}

  lemma RunPenPosition()
    ensures Run(PenPosition(), Push(AfterPenInRange()))
         == AfterPenY()
  {
    hide Append, Declare, InSequence;
    var from2 := PenY();
    var from1 := Append(PenX(), from2);
    RunPenUnits();
    RunAppend(PenUnits(), from1, Push(AfterPenInRange()));
    RunPenX();
    RunAppend(PenX(), from2, AfterPenUnits());
    RunPenY();
  }

  lemma RunPenPressure()
    ensures Run(PenPressure(), Pop(AfterPenY())) == AfterPenPressure()
  {}

  lemma RunPenPadding()
    ensures Run(PenPadding(), AfterPenPressure()) == AfterPenPadding()
  {}

  lemma RunPenTiltUnits()
    ensures Run(PenTiltUnits(), Push(AfterPenPadding())) == AfterPenTiltUnits()
  {}

  lemma RunPenTiltAxes()
    ensures Run(PenTiltAxes(), AfterPenTiltUnits()) == AfterPenTiltAxes()
  {}

  lemma RunPenTilt()
    ensures Run(PenTilt(), Push(AfterPenPadding()))
         == AfterPenTiltAxes()
  {
    hide Append, Declare, InSequence;
    var from1 := PenTiltAxes();
    RunPenTiltUnits();
    RunAppend(PenTiltUnits(), from1, Push(AfterPenPadding()));
    RunPenTiltAxes();
  }

  lemma RunPenFields()
    ensures Run(PenFields(), ClearUsages(AfterPenReport()))
         == Pop(AfterPenTiltAxes())
  {
    hide Declare, Joined, PenThirdButton, PenPosition, PenTilt;
    RunJoined(PenParts(), ClearUsages(AfterPenReport()));
    RunPenSwitchRange();
    RunPenSwitches();
    RunPenThirdButton();
    RunPenInRange();
    RunPenPosition();
    RunPenPressure();
    RunPenPadding();
    RunPenTilt();
  }

  lemma RunPenApplication()
    ensures Run(PenApplication(), ClearUsages(AfterPenUsage()))
         == ClearUsages(Pop(AfterPenTiltAxes()))
  {
    hide Append, Declare, InSequence;
    var from1 := Cons(Collection(0, PenFields()), Nil);
    RunPenReport();
    RunAppend(PenReport(), from1, ClearUsages(AfterPenUsage()));
    RunPenFields();
  }

  lemma RunPadUsage()
    ensures Run(PadUsage(), ClearUsages(ClearUsages(Pop(AfterPenTiltAxes())))) == AfterPadUsage()
  {}

  lemma RunPadReport()
    ensures Run(PadReport(), ClearUsages(AfterPadUsage())) == AfterPadReport()
  {}

  lemma RunPadSwitch()
    ensures Run(PadSwitch(), ClearUsages(AfterPadReport())) == AfterPadSwitch()
  {}

  lemma RunPadPosition()
    ensures Run(PadPosition(), AfterPadSwitch()) == AfterPadPosition()
  {}

  lemma RunPadButtonUsages()
    ensures Run(PadButtonUsages(), AfterPadPosition()) == AfterPadButtonUsages()
  {
    hide BareRange, MainItem, Complete, UsageRange, NextBit, Lengthen;
  }

  lemma RunPadButtons()
    ensures Run(PadButtons(), AfterPadButtonUsages()) == AfterPadButtons()
  {
    hide UsageRange, BareRange;
    CompleteRange(0x09, 0x01, 8);
  }

  lemma RunPadTopWheel()
    ensures Run(PadTopWheel(), AfterPadButtons()) == AfterPadTopWheel()
  {}

  lemma RunPadBottomWheel()
    ensures Run(PadBottomWheel(), AfterPadTopWheel()) == AfterPadBottomWheel()
  {}

  lemma RunPadFields()
    ensures Run(PadFields(), ClearUsages(AfterPadReport()))
         == AfterPadBottomWheel()
  {
    hide Declare, Joined;
    RunJoined(PadParts(), ClearUsages(AfterPadReport()));
    RunPadSwitch();
    RunPadPosition();
    RunPadButtonUsages();
    RunPadButtons();
    RunPadTopWheel();
    RunPadBottomWheel();
  }

  lemma RunPadApplication()
    ensures Run(PadApplication(), ClearUsages(AfterPadUsage()))
         == Run(InSequence(Cons(14, Nil)), ClearUsages(AfterPadBottomWheel()))
  {
    hide Append, Declare, InSequence;
    var from2 := InSequence(Cons(14, Nil));
    var from1 := Cons(Collection(0, PadFields()), from2);
    RunPadReport();
    RunAppend(PadReport(), from1, ClearUsages(AfterPadUsage()));
    RunPadFields();
  }

  lemma RunDescriptor()
    ensures Run(Descriptor(), Initial())
         == ClearUsages(Run(InSequence(Cons(14, Nil)), ClearUsages(AfterPadBottomWheel())))
  {
    hide Append, Declare, InSequence;
    var from3 := Cons(Collection(1, PadApplication()), Nil);
    var from2 := Append(PadUsage(), from3);
    var from1 := Cons(Collection(1, PenApplication()), from2);
    RunPenUsage();
    RunAppend(PenUsage(), from1, Initial());
    RunPenApplication();
    RunPadUsage();
    RunAppend(PadUsage(), from3, ClearUsages(ClearUsages(Pop(AfterPenTiltAxes()))));
    RunPadApplication();
  }

  // ----- The macros compile and emit the data they announce -----

  lemma PenSwitchesHonest()
    ensures Honest(PenReport()) && Honest(PenSwitchRange()) && Honest(PenSwitches())
  {}

  lemma PenInRangeHonest()
    ensures Honest(PenThirdButton()) && Honest(PenInRange())
  {}

  lemma PenPositionHonest()
    ensures Honest(PenPosition())
  {
    hide Append;
    assert Honest(PenUnits()) && Honest(PenX()) && Honest(PenY());
    HonestAppend(PenX(), PenY());
    HonestAppend(PenUnits(), Append(PenX(), PenY()));
  }

  lemma PenPressureHonest()
    ensures Honest(PenPressure()) && Honest(PenPadding())
  {}

  lemma PenTiltHonest()
    ensures Honest(PenTilt())
  {
    hide Append;
    assert Honest(PenTiltUnits());
    assert Honest(PenTiltAxes());
    HonestAppend(PenTiltUnits(), PenTiltAxes());
  }

  lemma PenHonest()
    ensures Honest(PenApplication())
  {
    hide Append, Joined, PenReport, PenSwitchRange, PenSwitches, PenThirdButton, PenInRange;
    hide PenPosition, PenPressure, PenPadding, PenTilt;
    PenSwitchesHonest();
    PenInRangeHonest();
    PenPositionHonest();
    PenPressureHonest();
    PenTiltHonest();
    HonestJoined(PenParts());
    HonestAppend(PenReport(), Cons(Collection(0, PenFields()), Nil));
  }

  lemma PadPositionHonest()
    ensures Honest(PadReport()) && Honest(PadSwitch()) && Honest(PadPosition())
  {}

  lemma PadButtonsHonest()
    ensures Honest(PadButtonUsages()) && Honest(PadButtons())
  {}

  lemma PadWheelsHonest()
    ensures Honest(PadTopWheel()) && Honest(PadBottomWheel())
  {}

  lemma PadHonest()
    ensures Honest(PadApplication())
  {
    hide Append, Joined, PadReport, PadSwitch, PadPosition, PadButtonUsages, PadButtons;
    hide PadTopWheel, PadBottomWheel, FixedSizeVendorReport;
    PadPositionHonest();
    PadButtonsHonest();
    PadWheelsHonest();
    HonestJoined(PadParts());
    PaddingHonest(14);
    HonestAppend(FixedSizeVendorReport(14), Nil);
    HonestAppend(PadReport(), Cons(Collection(0, PadFields()), InSequence(Cons(14, Nil))));
  }

  lemma DescriptorHonest()
    ensures Honest(Descriptor())
  {
    hide Append, PenApplication, PadApplication;
    PenHonest();
    PadHonest();
    assert Honest(PenUsage()) && Honest(PadUsage());
    var pad := Cons(Collection(1, PadApplication()), Nil);
    HonestAppend(PadUsage(), pad);
    HonestAppend(PenUsage(), Cons(Collection(1, PenApplication()), Append(PadUsage(), pad)));
  }

  // ----- The layout -----

  const PEN_REPORT := 8
  const PAD_REPORT := 9

  function X(): UsageId { UsageId(0x01, 0x30) }
  function Y(): UsageId { UsageId(0x01, 0x31) }
  function TipPressure(): UsageId { UsageId(0x0d, 0x30) }
  function XTilt(): UsageId { UsageId(0x0d, 0x3d) }
  function YTilt(): UsageId { UsageId(0x0d, 0x3e) }
  function Wheel(): UsageId { UsageId(0x01, 0x38) }
  function AcPan(): UsageId { UsageId(0x0c, 0x238) }
  function Button(i: nat): UsageId { UsageId(0x09, i) }

  /** The fields the bytes of the descriptor describe */
  ghost function Layout(): List<Block> {
    match LayoutOfBytes(Expand(Descriptor()))
    case Some(blocks) => blocks
    case None => Nil
  }

  /** The bytes parse, and apart from the padding report they describe fifteen blocks of fields. */
  lemma LayoutFromBytes(id: nat, usage: UsageId)
    requires id != VENDOR_REPORT
    ensures LayoutOfBytes(Expand(Descriptor())).Some?
    ensures FieldBits(Layout(), Input, id, usage) == FieldBits(Blocks15(), Input, id, usage)
  {
    hide Run, FieldBits, NextBit, Descriptor, Expand, InSequence, Legal, Contains, Honest, LayoutOfBytes, Blocks15;
    DescriptorHonest();
    CompiledLayout(Descriptor());
    RunDescriptor();
    OneVendorReportInSequence(14, ClearUsages(AfterPadBottomWheel()));
  }

  lemma OneVendorReportInSequence(n: int, s: State)
    ensures OtherReportsKept(s, Run(InSequence(Cons(n, Nil)), s))
  {
    hide Run, FieldBits, NextBit, FixedSizeVendorReport;
    OneVendorReport(n, s);
    AppendNil(FixedSizeVendorReport(n));
  }

  lemma PadBlocksHoldNoPenField(usage: UsageId)
    ensures FieldBits(Blocks15(), Input, PEN_REPORT, usage) == FieldBits(Blocks9(), Input, PEN_REPORT, usage)
  {
    hide IndexOf;
    assert FieldBits(Blocks10(), Input, 8, usage) == FieldBits(Blocks9(), Input, 8, usage);
    assert FieldBits(Blocks12(), Input, 8, usage) == FieldBits(Blocks11(), Input, 8, usage);
    assert FieldBits(Blocks13(), Input, 8, usage) == FieldBits(Blocks12(), Input, 8, usage);
    assert FieldBits(Blocks14(), Input, 8, usage) == FieldBits(Blocks13(), Input, 8, usage);
  }

  lemma PenFieldBits()
    ensures FieldBits(Blocks9(), Input, PEN_REPORT, X()) == BitRange(16, 40, 2, XRanges())
    ensures FieldBits(Blocks9(), Input, PEN_REPORT, Y()) == BitRange(40, 56, 2, YRanges())
    ensures FieldBits(Blocks9(), Input, PEN_REPORT, TipPressure()) == BitRange(56, 72, 2, PressureRanges())
    ensures FieldBits(Blocks9(), Input, PEN_REPORT, XTilt()) == BitRange(80, 88, 2, TiltRanges())
    ensures FieldBits(Blocks9(), Input, PEN_REPORT, YTilt()) == BitRange(88, 96, 2, TiltRanges())
  {}

  lemma PenSwitchBits()
    ensures FieldBits(Blocks4(), Input, PEN_REPORT, UsageId(0x0d, 0x42)) == BitRange(8, 9, 2, OnOff())
    ensures FieldBits(Blocks4(), Input, PEN_REPORT, UsageId(0x0d, 0x44)) == BitRange(9, 10, 2, OnOff())
    ensures FieldBits(Blocks4(), Input, PEN_REPORT, UsageId(0x0d, 0x5a)) == BitRange(10, 11, 2, OnOff())
    ensures FieldBits(Blocks4(), Input, PEN_REPORT, UsageId(0x09, 0x4a)) == BitRange(11, 12, 2, OnOff())
    ensures FieldBits(Blocks4(), Input, PEN_REPORT, UsageId(0x0d, 0x32)) == BitRange(15, 16, 2, OnOff())
  {}

  /** Position, pressure and tilt come later. */
  lemma SwitchesComeFirst(usage: UsageId)
    requires usage !in {X(), Y(), TipPressure(), XTilt(), YTilt()}
    ensures FieldBits(Blocks9(), Input, PEN_REPORT, usage) == FieldBits(Blocks4(), Input, PEN_REPORT, usage)
  {
    assert FieldBits(Blocks5(), Input, PEN_REPORT, usage) == FieldBits(Blocks4(), Input, PEN_REPORT, usage);
    assert FieldBits(Blocks6(), Input, PEN_REPORT, usage) == FieldBits(Blocks5(), Input, PEN_REPORT, usage);
    assert FieldBits(Blocks7(), Input, PEN_REPORT, usage) == FieldBits(Blocks6(), Input, PEN_REPORT, usage);
    assert IndexOf(Cons(YTilt(), Nil), usage) == 1;
    assert FieldBits(Blocks9(), Input, PEN_REPORT, usage) == FieldBits(Blocks8(), Input, PEN_REPORT, usage);
  }

  /**
   * Where the descriptor's bytes put the pen's fields, with their logical and
   * physical limits, exponent and unit: X takes 24 bits.
   */
  lemma PenLayout()
    ensures FieldBits(Layout(), Input, 8, UsageId(0x01, 0x30))
         == BitRange(16, 40, 2, Ranges(0, 69920, 0, 3496, 16 - 2, 0x11))
    ensures FieldBits(Layout(), Input, 8, UsageId(0x01, 0x31))
         == BitRange(40, 56, 2, Ranges(0, 39340, 0, 1967, 16 - 2, 0x11))
    ensures FieldBits(Layout(), Input, 8, UsageId(0x0d, 0x30)) == BitRange(56, 72, 2, Ranges(0, 16383, 0, 0, 0, 0))
    ensures FieldBits(Layout(), Input, 8, UsageId(0x0d, 0x3d))
         == BitRange(80, 88, 2, Ranges(256 - 60, 60, 256 - 60, 60, 0, 0x14))
    ensures FieldBits(Layout(), Input, 8, UsageId(0x0d, 0x3e))
         == BitRange(88, 96, 2, Ranges(256 - 60, 60, 256 - 60, 60, 0, 0x14))
  {
    hide FieldBits, Layout, Expand, Descriptor, LayoutOfBytes, Blocks9, Blocks15;
    PenFieldBits();
    PenFieldsOfBytes(X());
    PenFieldsOfBytes(Y());
    PenFieldsOfBytes(TipPressure());
    PenFieldsOfBytes(XTilt());
    PenFieldsOfBytes(YTilt());
  }

  /** The tip, the two barrel switches, the third button and whether the pen is in range */
  lemma PenSwitchLayout()
    ensures FieldBits(Layout(), Input, 8, UsageId(0x0d, 0x42)) == BitRange(8, 9, 2, Ranges(0, 1, 0, 0, 0, 0))
    ensures FieldBits(Layout(), Input, 8, UsageId(0x0d, 0x44)) == BitRange(9, 10, 2, Ranges(0, 1, 0, 0, 0, 0))
    ensures FieldBits(Layout(), Input, 8, UsageId(0x0d, 0x5a)) == BitRange(10, 11, 2, Ranges(0, 1, 0, 0, 0, 0))
    ensures FieldBits(Layout(), Input, 8, UsageId(0x09, 0x4a)) == BitRange(11, 12, 2, Ranges(0, 1, 0, 0, 0, 0))
    ensures FieldBits(Layout(), Input, 8, UsageId(0x0d, 0x32)) == BitRange(15, 16, 2, Ranges(0, 1, 0, 0, 0, 0))
  {
    hide FieldBits, Layout, Blocks4;
    PenSwitchBits();
    SwitchOfBytes(UsageId(0x0d, 0x42));
    SwitchOfBytes(UsageId(0x0d, 0x44));
    SwitchOfBytes(UsageId(0x0d, 0x5a));
    SwitchOfBytes(UsageId(0x09, 0x4a));
    SwitchOfBytes(UsageId(0x0d, 0x32));
  }

  lemma SwitchOfBytes(usage: UsageId)
    requires usage !in {X(), Y(), TipPressure(), XTilt(), YTilt()}
    ensures FieldBits(Layout(), Input, PEN_REPORT, usage) == FieldBits(Blocks4(), Input, PEN_REPORT, usage)
  {
    hide FieldBits, Layout, Blocks4, Blocks9;
    PenFieldsOfBytes(usage);
    SwitchesComeFirst(usage);
  }

  lemma PenFieldsOfBytes(usage: UsageId)
    ensures FieldBits(Layout(), Input, PEN_REPORT, usage) == FieldBits(Blocks9(), Input, PEN_REPORT, usage)
  {
    hide FieldBits, Layout, Expand, Descriptor, LayoutOfBytes, Blocks9, Blocks15;
    LayoutFromBytes(PEN_REPORT, usage);
    PadBlocksHoldNoPenField(usage);
  }

  lemma WheelFieldBits()
    ensures FieldBits(Blocks15(), Input, PAD_REPORT, Wheel()) == BitRange(40, 48, 6, OneStep())
    ensures FieldBits(Blocks15(), Input, PAD_REPORT, AcPan()) == BitRange(48, 56, 6, OneStep())
  {}

  lemma ButtonFieldBits(i: nat)
    requires 1 <= i <= 8
    ensures FieldBits(Blocks15(), Input, PAD_REPORT, Button(i)) == BitRange(31 + i, 32 + i, 2, OnOff())
  {
    hide IndexOf, Length, UsageRange;
    IndexInRange(0x09, 0x01, 8, i);
    NoButton(i);
    assert FieldBits(Blocks15(), Input, PAD_REPORT, Button(i)) == FieldBits(Blocks13(), Input, PAD_REPORT, Button(i));
  }

  lemma NoButton(i: nat)
    ensures IndexOf(Blocks14().head.usages, Button(i)) == IndexOf(Blocks15().head.usages, Button(i)) == 1
    ensures Length(Blocks14().head.usages) == Length(Blocks15().head.usages) == 1
  {}

  /** Where they put the pad's buttons and wheels */
  lemma PadLayout(i: nat)
    requires 1 <= i <= 8
    ensures FieldBits(Layout(), Input, 9, UsageId(0x09, i)) == BitRange(31 + i, 32 + i, 2, Ranges(0, 1, 0, 0, 0, 0))
    ensures FieldBits(Layout(), Input, 9, UsageId(0x01, 0x38)) == BitRange(40, 48, 6, Ranges(255, 1, 0, 0, 0, 0))
    ensures FieldBits(Layout(), Input, 9, UsageId(0x0c, 0x238)) == BitRange(48, 56, 6, Ranges(255, 1, 0, 0, 0, 0))
  {
    hide FieldBits, Layout, Expand, Descriptor, LayoutOfBytes, Blocks15;
    WheelFieldBits();
    ButtonFieldBits(i);
    LayoutFromBytes(PAD_REPORT, Button(i));
    LayoutFromBytes(PAD_REPORT, Wheel());
    LayoutFromBytes(PAD_REPORT, AcPan());
  }

  /**
   * The kernel drops reports longer than the longest one described: the padding
   * report keeps the original 14 bytes, though pen and pad now take 12 and 7.
   */
  lemma ReportLengths()
    ensures var extents := Run(Descriptor(), Initial()).extents;
            && ReportBytes(extents, Input, 0xac) == 14
            && ReportBytes(extents, Input, 8) == 12
            && ReportBytes(extents, Input, 9) == 7
  {
    hide Run, FieldBits, Descriptor;
    var s := ClearUsages(AfterPadBottomWheel());
    RunDescriptor();
    assert VendorBits(s) == 8;
    assert NextBit(s.extents, Input, PEN_REPORT) == 96 && NextBit(s.extents, Input, PAD_REPORT) == 56;
    assert Legal(Cons(14, Nil)) && PaddingBytes(Cons(14, Nil)) == 13;
    VendorReportLength(Cons(14, Nil), s);
  }
}
