/**
 * Laying out report fields by interpreting short items: the global item state
 * with its stack (section 6.2.2.7 of HID 1.11), the usages (6.2.2.8) and the
 * bits each main item appends to its report (6.2.2.4, 6.2.2.5).
 */
module ReportLayout {
  import opened Bits
  import opened Lists
  import opened ReportItems
  import opened Options

  /** The global items that say what a field's values mean */
  datatype Ranges = Ranges(
    logicalMinimum: nat, logicalMaximum: nat, physicalMinimum: nat, physicalMaximum: nat, unitExponent: nat, unit: nat)

  /** From 0 to 1 */
  function OnOff(): Ranges {
    Ranges(0, 1, 0, 0, 0, 0)
  }

  /** From -1, a byte, to 1 */
  function OneStep(): Ranges {
    Ranges(256 - 1, 1, 0, 0, 0, 0)
  }

  datatype Globals = Globals(usagePage: nat, reportSize: nat, reportId: nat, reportCount: nat, ranges: Ranges)

  datatype UsageId = UsageId(page: nat, id: nat)

  /** The fields one main item appends: count fields of size bits each, from bit start. */
  datatype Block = Block(
    kind: Kind, reportId: nat, start: nat, size: nat, count: nat, flags: nat, ranges: Ranges, usages: List<UsageId>)

  /** The bits a report of some kind takes so far */
  datatype Extent = Extent(kind: Kind, reportId: nat, bits: nat)

  /** A usage item: four bytes carry their own page, fewer wait for the page in force at the main item. */
  datatype LocalUsage = Bare(id: nat) | WithPage(usage: UsageId)

  /** `usageMinimum` is the pending lower end of a usage range; `blocks` has the latest first. */
  datatype State = State(
    globals: Globals, stack: List<Globals>, usages: List<LocalUsage>, usageMinimum: nat,
    extents: List<Extent>, blocks: List<Block>)

  function Initial(): State {
    State(Globals(0, 0, 0, 0, Ranges(0, 0, 0, 0, 0, 0)), Nil, Nil, 0, Nil, Nil)
  }

  /** The first bit not yet taken in a report; a nonzero report ID takes the first byte. */
  function NextBit(extents: List<Extent>, kind: Kind, id: nat): nat {
    match extents
    case Nil => if id == 0 then 0 else 8
    case Cons(e, rest) => if e.kind == kind && e.reportId == id then e.bits else NextBit(rest, kind, id)
  }

  function ReportBytes(extents: List<Extent>, kind: Kind, id: nat): nat {
    (NextBit(extents, kind, id) + 7) / 8
  }

  /** Makes a report n bits longer. */
  function Lengthen(extents: List<Extent>, kind: Kind, id: nat, n: nat): List<Extent> {
    match extents
    case Nil => Cons(Extent(kind, id, (if id == 0 then 0 else 8) + n), Nil)
    case Cons(e, rest) =>
      if e.kind == kind && e.reportId == id then Cons(Extent(kind, id, e.bits + n), rest)
      else Cons(e, Lengthen(rest, kind, id, n))
  }

  function BareRange(first: nat, count: nat): List<LocalUsage>
    decreases count
  {
    if count == 0 then Nil else Cons(Bare(first), BareRange(first + 1, count - 1))
  }

  function UsageRange(page: nat, first: nat, count: nat): List<UsageId>
    decreases count
  {
    if count == 0 then Nil else Cons(UsageId(page, first), UsageRange(page, first + 1, count - 1))
  }

  /** A main item joins the last declared page with the usages that have none. */
  function Complete(page: nat, usages: List<LocalUsage>): List<UsageId> {
    match usages
    case Nil => Nil
    case Cons(Bare(id), rest) => Cons(UsageId(page, id), Complete(page, rest))
    case Cons(WithPage(usage), rest) => Cons(usage, Complete(page, rest))
  }

  function MainItem(kind: Kind, flags: nat, s: State): State {
    var g := s.globals;
    var start := NextBit(s.extents, kind, g.reportId);
    var usages := Complete(g.usagePage, s.usages);
    var block := Block(kind, g.reportId, start, g.reportSize, g.reportCount, flags, g.ranges, usages);
    var extents := Lengthen(s.extents, kind, g.reportId, g.reportCount * g.reportSize);
    State(g, s.stack, Nil, 0, extents, Cons(block, s.blocks))
  }

  function ReadUsage(size: nat, data: nat): LocalUsage {
    if size == 4 then WithPage(UsageId(data / 0x1_0000, data % 0x1_0000)) else Bare(data)
  }

  /** An item that is neither a collection nor a push or pop */
  function Declare(k: Kind, size: nat, data: nat, s: State): State {
    var g := s.globals;
    match k
    case Input | Output | Feature => MainItem(k, data, s)
    case UsagePage => SetGlobals(s, g.(usagePage := data))
    case LogicalMinimum => SetGlobals(s, g.(ranges := g.ranges.(logicalMinimum := data)))
    case LogicalMaximum => SetGlobals(s, g.(ranges := g.ranges.(logicalMaximum := data)))
    case PhysicalMinimum => SetGlobals(s, g.(ranges := g.ranges.(physicalMinimum := data)))
    case PhysicalMaximum => SetGlobals(s, g.(ranges := g.ranges.(physicalMaximum := data)))
    case UnitExponent => SetGlobals(s, g.(ranges := g.ranges.(unitExponent := data)))
    case Unit => SetGlobals(s, g.(ranges := g.ranges.(unit := data)))
    case ReportSize => SetGlobals(s, g.(reportSize := data))
    case ReportId => SetGlobals(s, g.(reportId := data))
    case ReportCount => SetGlobals(s, g.(reportCount := data))
    case Usage => SetUsages(s, Append(s.usages, Cons(ReadUsage(size, data), Nil)))
    case UsageMinimum => State(g, s.stack, s.usages, data, s.extents, s.blocks)
    case UsageMaximum =>
      var count := if data < s.usageMinimum then 0 else data - s.usageMinimum + 1;
      SetUsages(s, Append(s.usages, BareRange(s.usageMinimum, count)))
  }

  /** Opening or closing a collection clears the usages. */
  function ClearUsages(s: State): State {
    State(s.globals, s.stack, Nil, 0, s.extents, s.blocks)
  }

  function Push(s: State): State {
    State(s.globals, Cons(s.globals, s.stack), s.usages, s.usageMinimum, s.extents, s.blocks)
  }

  function Pop(s: State): State {
    match s.stack
    case Nil => s
    case Cons(top, below) => State(top, below, s.usages, s.usageMinimum, s.extents, s.blocks)
  }

  /** The item kind with a given code */
  function KindOf(code: byte): Option<Kind> {
    match code
    case 0x80 => Some(Input)
    case 0x90 => Some(Output)
    case 0xb0 => Some(Feature)
    case 0x04 => Some(UsagePage)
    case 0x14 => Some(LogicalMinimum)
    case 0x24 => Some(LogicalMaximum)
    case 0x34 => Some(PhysicalMinimum)
    case 0x44 => Some(PhysicalMaximum)
    case 0x54 => Some(UnitExponent)
    case 0x64 => Some(Unit)
    case 0x74 => Some(ReportSize)
    case 0x84 => Some(ReportId)
    case 0x94 => Some(ReportCount)
    case 0x08 => Some(Usage)
    case 0x18 => Some(UsageMinimum)
    case 0x28 => Some(UsageMaximum)
    case _ => None
  }

  /** One short item; unknown ones are skipped. */
  function Step(i: ShortItem, s: State): State {
    if i.code == COLLECTION_CODE || i.code == END_COLLECTION_CODE then ClearUsages(s)
    else if i.code == PUSH_CODE then Push(s)
    else if i.code == POP_CODE then Pop(s)
    else
      match KindOf(i.code)
      case Some(k) => Declare(k, i.size, i.data, s)
      case None => s
  }

  function SetGlobals(s: State, g: Globals): State {
    State(g, s.stack, s.usages, s.usageMinimum, s.extents, s.blocks)
  }

  function SetUsages(s: State, usages: List<LocalUsage>): State {
    State(s.globals, s.stack, usages, s.usageMinimum, s.extents, s.blocks)
  }

  function Exec(items: List<ShortItem>, s: State): State {
    match items
    case Nil => s
    case Cons(i, rest) => Exec(rest, Step(i, s))
  }

  /** The state after a stretch of macros, following their nesting */
  function Run(items: List<Item>, s: State): State
    decreases items
  {
    match items
    case Nil => s
    case Cons(Short(k, w, v), rest) => Run(rest, Declare(k, DataSize(w), DataValue(w, v), s))
    case Cons(Collection(_, body), rest) => Run(rest, ClearUsages(Run(body, ClearUsages(s))))
    case Cons(PushPop(body), rest) => Run(rest, Pop(Run(body, Push(s))))
  }

  /** The layout a descriptor's bytes describe, if they are well formed */
  function LayoutOfBytes(bytes: seq<byte>): Option<List<Block>> {
    match ParseShortItems(bytes)
    case None => None
    case Some(items) => Some(Exec(items, Initial()).blocks)
  }

  /** A field's bits, the flags of its main item and what its values mean */
  datatype BitRange = NoField | BitRange(start: nat, end: nat, flags: nat, ranges: Ranges)

  /** The latest field carrying a usage in a report; constant items (flag 0) carry none */
  function FieldBits(blocks: List<Block>, kind: Kind, id: nat, usage: UsageId): BitRange {
    match blocks
    case Nil => NoField
    case Cons(b, earlier) =>
      if b.kind != kind || b.reportId != id || b.flags % 2 == 1 then FieldBits(earlier, kind, id, usage)
      else
        var i := IndexOf(b.usages, usage);
        if i < b.count && i < Length(b.usages)
        then BitRange(b.start + i * b.size, b.start + i * b.size + b.size, b.flags, b.ranges)
        else FieldBits(earlier, kind, id, usage)
  }

  /** The position of the first occurrence, or the length */
  function IndexOf(usages: List<UsageId>, usage: UsageId): nat {
    match usages
    case Nil => 0
    case Cons(u, rest) => if u == usage then 0 else 1 + IndexOf(rest, usage)
  }

  // ----- Laws -----

  lemma {:induction false} CompleteRange(page: nat, first: nat, count: nat)
    ensures Complete(page, BareRange(first, count)) == UsageRange(page, first, count)
    decreases count
  {
    if count > 0 { CompleteRange(page, first + 1, count - 1); }
  }

  /** Where a usage stands in a range of its page */
  lemma {:induction false} IndexInRange(page: nat, first: nat, count: nat, id: nat)
    ensures IndexOf(UsageRange(page, first, count), UsageId(page, id))
         == if first <= id < first + count then id - first else count
    ensures Length(UsageRange(page, first, count)) == count
    decreases count
  {
    if count > 0 { IndexInRange(page, first + 1, count - 1, id); }
  }

  lemma {:induction false} ExecAppend(a: List<ShortItem>, b: List<ShortItem>, s: State)
    ensures Exec(Append(a, b), s) == Exec(b, Exec(a, s))
  {
    match a
    case Nil =>
    case Cons(i, rest) => ExecAppend(rest, b, Step(i, s));
  }

  lemma {:induction false} RunAppend(a: List<Item>, b: List<Item>, s: State)
    ensures Run(Append(a, b), s) == Run(b, Run(a, s))
    decreases a
  {
    match a
    case Nil =>
    case Cons(Short(k, w, v), rest) => RunAppend(rest, b, Declare(k, DataSize(w), DataValue(w, v), s));
    case Cons(Collection(_, body), rest) => RunAppend(rest, b, ClearUsages(Run(body, ClearUsages(s))));
    case Cons(PushPop(body), rest) => RunAppend(rest, b, Pop(Run(body, Push(s))));
  }

  function RunParts(parts: List<List<Item>>, s: State): State {
    match parts
    case Nil => s
    case Cons(part, rest) => RunParts(rest, Run(part, s))
  }

  /** Stretch by stretch */
  lemma {:induction false} RunJoined(parts: List<List<Item>>, s: State)
    ensures Run(Joined(parts), s) == RunParts(parts, s)
  {
    hide Append;
    match parts
    case Nil =>
    case Cons(part, rest) =>
      RunAppend(part, Joined(rest), s);
      RunJoined(rest, Run(part, s));
  }

  lemma {:induction false} LengthenExact(extents: List<Extent>, kind: Kind, id: nat, n: nat, kind': Kind, id': nat)
    ensures NextBit(Lengthen(extents, kind, id, n), kind', id')
         == NextBit(extents, kind', id') + if kind == kind' && id == id' then n else 0
  {
    match extents
    case Nil =>
    case Cons(e, rest) =>
      LengthenExact(rest, kind, id, n, kind', id');
      if e.kind == kind && e.reportId == id {
        assert Lengthen(extents, kind, id, n) == Cons(Extent(kind, id, e.bits + n), rest);
      } else {
        assert Lengthen(extents, kind, id, n) == Cons(e, Lengthen(rest, kind, id, n));
      }
  }

  lemma StepDeclares(k: Kind, w: Width, v: int, s: State)
    ensures Step(ShortOf(k, w, v), s) == Declare(k, DataSize(w), DataValue(w, v), s)
  {
    hide Declare, DataValue;
  }

  /** Interpreting the flat items gives what the nesting says. */
  lemma {:induction false} ExecFlattened(items: List<Item>, s: State)
    ensures Exec(Flatten(items), s) == Run(items, s)
    decreases items
  {
    hide Step, Declare, ClearUsages, Push, Pop, DataValue;
    match items
    case Nil =>
    case Cons(Short(k, w, v), rest) =>
      StepDeclares(k, w, v, s);
      ExecFlattened(rest, Declare(k, DataSize(w), DataValue(w, v), s));
    case Cons(Collection(t, body), rest) =>
      var end := ShortItem(END_COLLECTION_CODE, 0, 0);
      StepCollections(ShortItem(COLLECTION_CODE, 1, DataValue(W8, t)), s);
      ExecFlattened(body, ClearUsages(s));
      ExecAppend(Flatten(body), Cons(end, Flatten(rest)), ClearUsages(s));
      StepCollections(end, Run(body, ClearUsages(s)));
      ExecFlattened(rest, ClearUsages(Run(body, ClearUsages(s))));
    case Cons(PushPop(body), rest) =>
      var pop := ShortItem(POP_CODE, 0, 0);
      StepPushPop(s);
      ExecFlattened(body, Push(s));
      ExecAppend(Flatten(body), Cons(pop, Flatten(rest)), Push(s));
      StepPushPop(Run(body, Push(s)));
      ExecFlattened(rest, Pop(Run(body, Push(s))));
  }

  lemma StepCollections(i: ShortItem, s: State)
    requires i.code == COLLECTION_CODE || i.code == END_COLLECTION_CODE
    ensures Step(i, s) == ClearUsages(s)
  {}

  lemma StepPushPop(s: State)
    ensures Step(ShortItem(PUSH_CODE, 0, 0), s) == Push(s)
    ensures Step(ShortItem(POP_CODE, 0, 0), s) == Pop(s)
  {}

  /** Macros are balanced: whatever they hold, they leave the stack as it was. */
  lemma {:induction false} StackRestored(items: List<Item>, s: State)
    ensures Run(items, s).stack == s.stack
    decreases items
  {
    match items
    case Nil =>
    case Cons(Short(k, w, v), rest) =>
      StackRestored(rest, Declare(k, DataSize(w), DataValue(w, v), s));
    case Cons(Collection(_, body), rest) =>
      StackRestored(body, ClearUsages(s));
      StackRestored(rest, ClearUsages(Run(body, ClearUsages(s))));
    case Cons(PushPop(body), rest) =>
      StackRestored(body, Push(s));
      StackRestored(rest, Pop(Run(body, Push(s))));
  }

  /** PushPop restores every global item, whatever its body sets. */
  lemma PushPopRestoresGlobals(body: List<Item>, s: State)
    ensures Run(Cons(PushPop(body), Nil), s).globals == s.globals
  {
    StackRestored(body, Push(s));
  }

  /** Without wide units a descriptor's bytes are laid out as its items are. */
  lemma CompiledLayout(items: List<Item>)
    requires Honest(items)
    ensures LayoutOfBytes(Expand(items)) == Some(Run(items, Initial()).blocks)
  {
    ExpandedItems(items);
    ExecFlattened(items, Initial());
  }

  /**
   * A main item joins the last declared page with each usage that came without
   * one, before or after that declaration; four bytes bring their own page.
   */
  lemma UsagesJoin(kind: Kind, flags: nat, page: nat, short: nat, long: nat, s: State)
    requires kind == Input || kind == Output || kind == Feature
    requires long < 0x1_0000_0000 && s.usages == Nil
    ensures var s' := Declare(UsagePage, 1, page, Declare(Usage, 4, long, Declare(Usage, 1, short, s)));
            Declare(kind, 1, flags, s').blocks.head.usages
            == Cons(UsageId(page, short), Cons(UsageId(long / 65536, long % 65536), Nil))
  {
    var own := UsageId(long / 65536, long % 65536);
    assert Append(Cons(Bare(short), Nil), Cons(WithPage(own), Nil)) == Cons(Bare(short), Cons(WithPage(own), Nil));
    assert Complete(page, Cons(WithPage(own), Nil)) == Cons(own, Nil);
  }
}
