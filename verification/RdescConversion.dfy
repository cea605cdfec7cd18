/**
 * Handing a parsed report descriptor to a BPF program: the `From` conversions
 * of src/bpf.rs narrow and clamp it into fixed C arrays, and the iteration
 * macros of src/bpf/hid_bpf_helpers.h walk those arrays.
 */
module RdescConversion {
  import opened Bits
  import opened LittleEndian
  import opened FieldExtraction
  import opened Options

  const HID_MAX_COLLECTIONS := 32
  const HID_MAX_FIELDS := 64
  const HID_MAX_REPORTS := 16

  type i32 = x: int | -0x8000_0000 <= x < 0x8000_0000

  // ----- The parsed descriptor -----

  datatype Usage = Usage(page: u16, id: u16)

  datatype ParsedCollection = ParsedCollection(usages: seq<Usage>, collectionType: byte)

  /** Attributes of a main item; constants have none. */
  datatype Attributes = Attributes(
    isRelative: bool, wraps: bool, isNonlinear: bool, hasNoPreferredState: bool,
    hasNullState: bool, isVolatile: Option<bool>, isBufferedBytes: bool)

  datatype ParsedField =
    | Variable(bitsStart: nat, bitsEnd: nat, usage: Usage, logicalMinimum: i32, logicalMaximum: i32,
               attributes: Attributes, collections: seq<ParsedCollection>)
    | Array(bitsStart: nat, bitsEnd: nat, usages: seq<Usage>, logicalMinimum: i32, logicalMaximum: i32,
            attributes: Attributes, collections: seq<ParsedCollection>)
    | Constant(bitsStart: nat, bitsEnd: nat)
  {
    /** Constant fields have none here. */
    function Collections(): seq<ParsedCollection> {
      if Constant? then [] else collections
    }
  }

  datatype ParsedReport = ParsedReport(id: Option<byte>, sizeInBits: nat, fields: seq<ParsedField>)

  datatype ParsedDescriptor = ParsedDescriptor(
    inputReports: seq<ParsedReport>, outputReports: seq<ParsedReport>, featureReports: seq<ParsedReport>)

  // ----- The C structures -----

  datatype Collection = Collection(usagePage: u16, usageId: u16, collectionType: byte)

  datatype UsageUnion = UsageId(id: u16) | UsageRange(minimum: u16, maximum: u16)

  datatype Field = Field(
    fieldType: byte, numCollections: byte, bitsStart: u16, bitsEnd: u16, usagePage: u16, usage: UsageUnion,
    logicalMinimum: i32, logicalMaximum: i32, flags: byte, collections: seq<Collection>)

  datatype Report = Report(reportId: byte, sizeInBits: u16, numFields: byte, fields: seq<Field>)

  datatype Descriptor = Descriptor(
    numInputReports: byte, numOutputReports: byte, numFeatureReports: byte,
    inputReports: seq<Report>, outputReports: seq<Report>, featureReports: seq<Report>)

  const ZERO_COLLECTION := Collection(0, 0, 0)

  const ZERO_FIELD := Field(0, 0, 0, 0, 0, UsageId(0), 0, 0, 0, seq(HID_MAX_COLLECTIONS, _ => ZERO_COLLECTION))

  const ZERO_REPORT := Report(0, 0, 0, seq(HID_MAX_FIELDS, _ => ZERO_FIELD))

  /** `as u8` */
  function Narrow8(n: nat): byte {
    n % 0x100
  }

  /** `as u16` */
  function Narrow16(n: nat): u16 {
    n % 0x1_0000
  }

  function Min(a: nat, b: nat): nat {
    if a < b then a else b
  }

  /** Packs the attributes into the C bit-field: a missing `is_volatile` counts as false. */
  function PackFlags(a: Attributes): (flags: byte) {
    FlagsFit(a);
    FlagBits(a)
  }

  function FlagBits(a: Attributes): nat {
    Or(Or(Or(Or(Or(Or(
      Shl(BoolBit(a.isRelative), 0),
      Shl(BoolBit(a.wraps), 1)),
      Shl(BoolBit(a.isNonlinear), 2)),
      Shl(BoolBit(a.hasNoPreferredState), 3)),
      Shl(BoolBit(a.hasNullState), 4)),
      Shl(BoolBit(a.isVolatile.Some? && a.isVolatile.value), 5)),
      Shl(BoolBit(a.isBufferedBytes), 6))
  }

  function CollectionOf(c: ParsedCollection): Collection {
    if c.usages == [] then Collection(0, 0, c.collectionType)
    else Collection(c.usages[0].page, c.usages[0].id, c.collectionType)
  }

  /** A C array of n entries whose first ones are the converted elements of src. */
  function Filled<S, T>(src: seq<S>, convert: S -> T, zero: T, n: nat): seq<T> {
    seq(n, i => if 0 <= i < |src| then convert(src[i]) else zero)
  }

  function CollectionArray(cs: seq<ParsedCollection>): seq<Collection> {
    Filled(cs, CollectionOf, ZERO_COLLECTION, HID_MAX_COLLECTIONS)
  }

  function FieldOf(f: ParsedField): Field {
    match f
    case Variable(bitsStart, bitsEnd, usage, min, max, attributes, cs) =>
      Field(0, Narrow8(Min(|cs|, HID_MAX_COLLECTIONS)), Narrow16(bitsStart), Narrow16(bitsEnd),
            usage.page, UsageId(usage.id), min, max, PackFlags(attributes), CollectionArray(cs))
    case Array(bitsStart, bitsEnd, us, min, max, attributes, cs) =>
      Field(1, Narrow8(Min(|cs|, HID_MAX_COLLECTIONS)), Narrow16(bitsStart), Narrow16(bitsEnd),
            if us == [] then 0 else us[0].page,
            if us == [] then UsageRange(0, 0) else UsageRange(us[0].id, us[|us| - 1].id),
            min, max, PackFlags(attributes), CollectionArray(cs))
    case Constant(bitsStart, bitsEnd) =>
      Field(2, 0, Narrow16(bitsStart), Narrow16(bitsEnd), 0, UsageId(0), 0, 0, 0, CollectionArray([]))
  }

  function ReportOf(r: ParsedReport): Report {
    Report(if r.id.Some? then r.id.value else 0, Narrow16(r.sizeInBits),
           Narrow8(Min(|r.fields|, HID_MAX_FIELDS)), Filled(r.fields, FieldOf, ZERO_FIELD, HID_MAX_FIELDS))
  }

  function ReportArray(rs: seq<ParsedReport>): seq<Report> {
    Filled(rs, ReportOf, ZERO_REPORT, HID_MAX_REPORTS)
  }

  function DescriptorOf(d: ParsedDescriptor): Descriptor {
    Descriptor(
      Narrow8(Min(|d.inputReports|, HID_MAX_REPORTS)),
      Narrow8(Min(|d.outputReports|, HID_MAX_REPORTS)),
      Narrow8(Min(|d.featureReports|, HID_MAX_REPORTS)),
      ReportArray(d.inputReports), ReportArray(d.outputReports), ReportArray(d.featureReports))
  }

  // ----- The conversion loops -----

  /** Copies at most HID_MAX_COLLECTIONS collections over the zeroed array. */
  method ConvertCollections(cs: seq<ParsedCollection>) returns (num: byte, out: seq<Collection>)
    ensures num == Min(|cs|, HID_MAX_COLLECTIONS)
    ensures out == CollectionArray(cs)
  {
    var a := new Collection[HID_MAX_COLLECTIONS](_ => ZERO_COLLECTION);
    var n := Min(|cs|, HID_MAX_COLLECTIONS);
    for i := 0 to n
      invariant forall k :: 0 <= k < HID_MAX_COLLECTIONS ==>
                  a[k] == if k < i then CollectionOf(cs[k]) else ZERO_COLLECTION
    {
      a[i] := CollectionOf(cs[i]);
    }
    num, out := n, a[..];
  }

  method ConvertField(f: ParsedField) returns (c: Field)
    ensures c == FieldOf(f)
  {
    hide CollectionArray, PackFlags;
    match f
    case Variable(bitsStart, bitsEnd, usage, min, max, attributes, cs) =>
      var num, collections := ConvertCollections(cs);
      c := Field(0, num, Narrow16(bitsStart), Narrow16(bitsEnd), usage.page, UsageId(usage.id),
                 min, max, PackFlags(attributes), collections);
    case Array(bitsStart, bitsEnd, us, min, max, attributes, cs) =>
      var num, collections := ConvertCollections(cs);
      var page, first, last := 0, 0, 0;
      if us != [] {
        page, first, last := us[0].page, us[0].id, us[|us| - 1].id;
      }
      c := Field(1, num, Narrow16(bitsStart), Narrow16(bitsEnd), page, UsageRange(first, last),
                 min, max, PackFlags(attributes), collections);
    case Constant(bitsStart, bitsEnd) =>
      var _, collections := ConvertCollections([]);
      c := Field(2, 0, Narrow16(bitsStart), Narrow16(bitsEnd), 0, UsageId(0), 0, 0, 0, collections);
  }

  method ConvertReport(r: ParsedReport) returns (c: Report)
    ensures c == ReportOf(r)
  {
    var a := new Field[HID_MAX_FIELDS](_ => ZERO_FIELD);
    var n := Min(|r.fields|, HID_MAX_FIELDS);
    for i := 0 to n
      invariant forall k :: 0 <= k < HID_MAX_FIELDS ==> a[k] == if k < i then FieldOf(r.fields[k]) else ZERO_FIELD
    {
      var field := ConvertField(r.fields[i]);
      a[i] := field;
    }
    var id := if r.id.Some? then r.id.value else 0;
    c := Report(id, Narrow16(r.sizeInBits), Narrow8(n), a[..]);
  }

  method ConvertReports(rs: seq<ParsedReport>) returns (num: byte, out: seq<Report>)
    ensures num == Min(|rs|, HID_MAX_REPORTS)
    ensures out == ReportArray(rs)
  {
    var a := new Report[HID_MAX_REPORTS](_ => ZERO_REPORT);
    var n := Min(|rs|, HID_MAX_REPORTS);
    for i := 0 to n
      invariant forall k :: 0 <= k < HID_MAX_REPORTS ==> a[k] == if k < i then ReportOf(rs[k]) else ZERO_REPORT
    {
      var report := ConvertReport(rs[i]);
      a[i] := report;
    }
    num, out := n, a[..];
  }

  method ConvertDescriptor(d: ParsedDescriptor) returns (c: Descriptor)
    ensures c == DescriptorOf(d)
  {
    var numInput, input := ConvertReports(d.inputReports);
    var numOutput, output := ConvertReports(d.outputReports);
    var numFeature, feature := ConvertReports(d.featureReports);
    c := Descriptor(numInput, numOutput, numFeature, input, output, feature);
  }

  // ----- The iteration macros -----

  /**
   * `__hid_bpf_for_each_array`: the elements its body sees, in order. A count
   * above the array's size makes it iterate zero times.
   */
  method ForEachArray<T>(elements: seq<T>, num: nat, max: nat) returns (visited: seq<T>)
    requires max <= |elements|
    ensures visited == Visited(elements, num, max)
    ensures |visited| == (if num <= max then num else 0)
    ensures forall i :: 0 <= i < |visited| ==> visited[i] == elements[i]
  {
    visited := [];
    var bound := if num > max then 0 else num;
    for i := 0 to bound
      invariant visited == elements[..i]
    {
      if i < num && num <= max {
        visited := visited + [elements[i]];
      }
    }
  }

  function Visited<T>(elements: seq<T>, num: nat, max: nat): seq<T>
    requires max <= |elements|
  {
    if num > max then [] else elements[..num]
  }

  /** The clamp never trips the macro's guard: exactly the first min(n, max) elements are visited. */
  lemma VisitsClampedPrefix<S, T>(src: seq<S>, convert: S -> T, zero: T, max: nat)
    ensures Visited(Filled(src, convert, zero, max), Min(|src|, max), max)
         == seq(Min(|src|, max), i requires 0 <= i < Min(|src|, max) => convert(src[i]))
  {}

  /** Over a converted descriptor the macros see the first 16 reports of each kind, converted, in order. */
  lemma VisitedReports(d: ParsedDescriptor)
    ensures var c := DescriptorOf(d);
            && Visited(c.inputReports, c.numInputReports, HID_MAX_REPORTS) == FirstReports(d.inputReports)
            && Visited(c.outputReports, c.numOutputReports, HID_MAX_REPORTS) == FirstReports(d.outputReports)
            && Visited(c.featureReports, c.numFeatureReports, HID_MAX_REPORTS) == FirstReports(d.featureReports)
  {}

  ghost function FirstReports(rs: seq<ParsedReport>): seq<Report> {
    seq(Min(|rs|, HID_MAX_REPORTS), i requires 0 <= i < Min(|rs|, HID_MAX_REPORTS) => ReportOf(rs[i]))
  }

  /** Over a converted report, the first 64 fields; over a converted field, the first 32 collections. */
  lemma VisitedFields(r: ParsedReport)
    ensures var c := ReportOf(r);
            Visited(c.fields, c.numFields, HID_MAX_FIELDS)
            == seq(Min(|r.fields|, HID_MAX_FIELDS),
                   i requires 0 <= i < Min(|r.fields|, HID_MAX_FIELDS) => FieldOf(r.fields[i]))
  {
    VisitsClampedPrefix(r.fields, FieldOf, ZERO_FIELD, HID_MAX_FIELDS);
  }

  lemma VisitedCollections(f: ParsedField)
    ensures var c := FieldOf(f);
            var cs := f.Collections();
            && |c.collections| == HID_MAX_COLLECTIONS
            && Visited(c.collections, c.numCollections, HID_MAX_COLLECTIONS)
               == seq(Min(|cs|, HID_MAX_COLLECTIONS),
                      i requires 0 <= i < Min(|cs|, HID_MAX_COLLECTIONS) => CollectionOf(cs[i]))
  {
    hide PackFlags, Narrow16;
    VisitsClampedPrefix(f.Collections(), CollectionOf, ZERO_COLLECTION, HID_MAX_COLLECTIONS);
  }

  // ----- Attributes -----

  lemma BitOfFlag(b: bool, k: nat, i: nat)
    ensures Bit(Shl(BoolBit(b), k), i) <==> b && i == k
  {
    if b {
      BitOfPow2(k, i);
    } else {
      ZeroHasNoBit(i);
    }
  }

  lemma FlagsFit(a: Attributes)
    ensures FlagBits(a) < 256
  {
    hide Or;
    Pow2Values();
    OrBounded(Shl(BoolBit(a.isRelative), 0), Shl(BoolBit(a.wraps), 1), 8);
    var two := Or(Shl(BoolBit(a.isRelative), 0), Shl(BoolBit(a.wraps), 1));
    OrBounded(two, Shl(BoolBit(a.isNonlinear), 2), 8);
    var three := Or(two, Shl(BoolBit(a.isNonlinear), 2));
    OrBounded(three, Shl(BoolBit(a.hasNoPreferredState), 3), 8);
    var four := Or(three, Shl(BoolBit(a.hasNoPreferredState), 3));
    OrBounded(four, Shl(BoolBit(a.hasNullState), 4), 8);
    var five := Or(four, Shl(BoolBit(a.hasNullState), 4));
    var volatile := a.isVolatile.Some? && a.isVolatile.value;
    OrBounded(five, Shl(BoolBit(volatile), 5), 8);
    OrBounded(Or(five, Shl(BoolBit(volatile), 5)), Shl(BoolBit(a.isBufferedBytes), 6), 8);
  }

  /** The flags of a field, read bit by bit */
  ghost predicate FlagsRead(flags: byte, a: Attributes) {
    && (Bit(flags, 0) <==> a.isRelative)
    && (Bit(flags, 1) <==> a.wraps)
    && (Bit(flags, 2) <==> a.isNonlinear)
    && (Bit(flags, 3) <==> a.hasNoPreferredState)
    && (Bit(flags, 4) <==> a.hasNullState)
    && (Bit(flags, 5) <==> a.isVolatile == Some(true))
    && (Bit(flags, 6) <==> a.isBufferedBytes)
    && !Bit(flags, 7)
  }

  /** The C bit-field reads every attribute back; the reserved bit is clear. */
  lemma FlagsRoundTrip(a: Attributes)
    ensures FlagsRead(PackFlags(a), a)
  {
    BitOfFlags(a, 0);
    BitOfFlags(a, 1);
    BitOfFlags(a, 2);
    BitOfFlags(a, 3);
    BitOfFlags(a, 4);
    BitOfFlags(a, 5);
    BitOfFlags(a, 6);
    BitOfFlags(a, 7);
  }

  lemma BitOfFlags(a: Attributes, i: nat)
    ensures Bit(PackFlags(a), i) <==>
              || (a.isRelative && i == 0) || (a.wraps && i == 1) || (a.isNonlinear && i == 2)
              || (a.hasNoPreferredState && i == 3) || (a.hasNullState && i == 4)
              || (a.isVolatile == Some(true) && i == 5) || (a.isBufferedBytes && i == 6)
  {
    hide Or, Bit, Shl;
    var f0, f1, f2 := Shl(BoolBit(a.isRelative), 0), Shl(BoolBit(a.wraps), 1), Shl(BoolBit(a.isNonlinear), 2);
    var f3, f4 := Shl(BoolBit(a.hasNoPreferredState), 3), Shl(BoolBit(a.hasNullState), 4);
    var volatile := a.isVolatile.Some? && a.isVolatile.value;
    var f5, f6 := Shl(BoolBit(volatile), 5), Shl(BoolBit(a.isBufferedBytes), 6);
    BitOfOr(f0, f1, i);
    BitOfOr(Or(f0, f1), f2, i);
    BitOfOr(Or(Or(f0, f1), f2), f3, i);
    BitOfOr(Or(Or(Or(f0, f1), f2), f3), f4, i);
    BitOfOr(Or(Or(Or(Or(f0, f1), f2), f3), f4), f5, i);
    BitOfOr(Or(Or(Or(Or(Or(f0, f1), f2), f3), f4), f5), f6, i);
    BitOfFlag(a.isRelative, 0, i);
    BitOfFlag(a.wraps, 1, i);
    BitOfFlag(a.isNonlinear, 2, i);
    BitOfFlag(a.hasNoPreferredState, 3, i);
    BitOfFlag(a.hasNullState, 4, i);
    BitOfFlag(volatile, 5, i);
    BitOfFlag(a.isBufferedBytes, 6, i);
  }

  // ----- What a program reads -----

  /** A collection reads as its first usage, or 0, and its type. */
  ghost predicate CollectionReads(p: ParsedCollection, c: Collection) {
    && c.collectionType == p.collectionType
    && c.usagePage == (if |p.usages| > 0 then p.usages[0].page else 0)
    && c.usageId == (if |p.usages| > 0 then p.usages[0].id else 0)
  }

  /** The macros see the first n collections, read as they were parsed. */
  ghost predicate CollectionsRead(ps: seq<ParsedCollection>, c: Field) {
    && |c.collections| == 32
    && var seen := Visited(c.collections, c.numCollections, 32);
       && |seen| == (if |ps| < 32 then |ps| else 32)
       && forall i :: 0 <= i < |seen| ==> CollectionReads(ps[i], seen[i])
  }

  /** Each member of the C field is what the parsed field of its kind says. */
  ghost predicate FieldReads(p: ParsedField, c: Field) {
    && c.bitsStart == p.bitsStart % 65536 && c.bitsEnd == p.bitsEnd % 65536
    && match p
       case Variable(_, _, usage, minimum, maximum, attributes, collections) =>
         && c.fieldType == 0 && c.usagePage == usage.page && c.usage == UsageId(usage.id)
         && c.logicalMinimum == minimum && c.logicalMaximum == maximum
         && FlagsRead(c.flags, attributes) && CollectionsRead(collections, c)
       case Array(_, _, usages, minimum, maximum, attributes, collections) =>
         && c.fieldType == 1
         && (if |usages| > 0
             then c.usagePage == usages[0].page && c.usage == UsageRange(usages[0].id, usages[|usages| - 1].id)
             else c.usagePage == 0 && c.usage == UsageRange(0, 0))
         && c.logicalMinimum == minimum && c.logicalMaximum == maximum
         && FlagsRead(c.flags, attributes) && CollectionsRead(collections, c)
       case Constant(_, _) =>
         && c.fieldType == 2 && c.usagePage == 0 && c.usage == UsageId(0)
         && c.logicalMinimum == 0 && c.logicalMaximum == 0 && c.flags == 0 && CollectionsRead([], c)
  }

  /** The macros see the first 64 fields of a report. */
  ghost predicate ReportReads(p: ParsedReport, c: Report) {
    && c.reportId == (if p.id.Some? then p.id.value else 0) && c.sizeInBits == p.sizeInBits % 65536
    && |c.fields| == 64
    && var seen := Visited(c.fields, c.numFields, 64);
       && |seen| == (if |p.fields| < 64 then |p.fields| else 64)
       && forall i :: 0 <= i < |seen| ==> FieldReads(p.fields[i], seen[i])
  }

  /** They see the first 16 reports of a kind. */
  ghost predicate ReportsRead(ps: seq<ParsedReport>, reports: seq<Report>, num: nat) {
    && |reports| == 16
    && var seen := Visited(reports, num, 16);
       && |seen| == (if |ps| < 16 then |ps| else 16)
       && forall i :: 0 <= i < |seen| ==> ReportReads(ps[i], seen[i])
  }

  lemma CollectionsReadBack(f: ParsedField)
    ensures CollectionsRead(f.Collections(), FieldOf(f))
  {
    hide PackFlags, Narrow16;
    VisitedCollections(f);
  }

  lemma FieldReadsBack(f: ParsedField)
    ensures FieldReads(f, FieldOf(f))
  {
    hide PackFlags, CollectionsRead, CollectionArray;
    CollectionsReadBack(f);
    if !f.Constant? { FlagsRoundTrip(f.attributes); }
  }

  lemma ReportReadsBack(r: ParsedReport)
    ensures ReportReads(r, ReportOf(r))
  {
    hide FieldOf, FieldReads;
    VisitedFields(r);
    forall f | f in r.fields ensures FieldReads(f, FieldOf(f)) { FieldReadsBack(f); }
  }

  /**
   * What a program reads with the iteration macros is what was parsed: the first
   * 16 reports of each kind, their first 64 fields and those fields' first 32
   * collections, in order, each member from its own attribute, bit positions
   * and report sizes modulo 65536.
   */
  lemma DescriptorReads(d: ParsedDescriptor)
    ensures var c := DescriptorOf(d);
            && ReportsRead(d.inputReports, c.inputReports, c.numInputReports)
            && ReportsRead(d.outputReports, c.outputReports, c.numOutputReports)
            && ReportsRead(d.featureReports, c.featureReports, c.numFeatureReports)
  {
    hide ReportOf, ReportReads;
    VisitedReports(d);
    forall r: ParsedReport ensures ReportReads(r, ReportOf(r)) { ReportReadsBack(r); }
  }

  // ----- Behind the counts -----

  ghost predicate IsZeroField(c: Field) {
    && c.fieldType == 0 && c.numCollections == 0 && c.bitsStart == 0 && c.bitsEnd == 0 && c.usagePage == 0
    && c.usage == UsageId(0) && c.logicalMinimum == 0 && c.logicalMaximum == 0 && c.flags == 0
    && |c.collections| == 32 && forall i :: 0 <= i < 32 ==> c.collections[i] == Collection(0, 0, 0)
  }

  /** The rest of each array is zero, for reports with their fields and those with their collections. */
  lemma ZeroBehind(d: ParsedDescriptor, r: ParsedReport, f: ParsedField, i: nat)
    ensures |f.Collections()| <= i < 32 ==> FieldOf(f).collections[i] == Collection(0, 0, 0)
    ensures |r.fields| <= i < 64 ==> IsZeroField(ReportOf(r).fields[i])
    ensures |d.inputReports| <= i < 16 ==> IsZeroReport(DescriptorOf(d).inputReports[i])
    ensures |d.outputReports| <= i < 16 ==> IsZeroReport(DescriptorOf(d).outputReports[i])
    ensures |d.featureReports| <= i < 16 ==> IsZeroReport(DescriptorOf(d).featureReports[i])
  {
    hide PackFlags, Narrow16;
  }

  ghost predicate IsZeroReport(c: Report) {
    && c.reportId == 0 && c.sizeInBits == 0 && c.numFields == 0
    && |c.fields| == 64 && forall i :: 0 <= i < 64 ==> IsZeroField(c.fields[i])
  }

  // ----- Narrowed bit positions -----

  /** Below bit 65536 a converted field reads what the parsed field describes, from any report. */
  lemma NarrowedFieldReads(f: ParsedField, report: seq<byte>)
    requires f.bitsStart < 0x1_0000 && f.bitsEnd < 0x1_0000
    ensures FieldValue(report, FieldOf(f).bitsStart, FieldOf(f).bitsEnd) == FieldValue(report, f.bitsStart, f.bitsEnd)
  {
    hide FieldValue, CollectionArray, PackFlags, Narrow8;
    assert FieldOf(f).bitsStart == f.bitsStart && FieldOf(f).bitsEnd == f.bitsEnd;
  }

  /**
   * For a field of a readable width, narrowing keeps its value in every report
   * exactly when it ends below bit 65536.
   */
  lemma ReadableNarrowingExact(bitsStart: nat, bitsEnd: nat)
    requires 0 < bitsEnd - bitsStart <= 32
    ensures (forall report: seq<byte> ::
              FieldValue(report, Narrow16(bitsStart), Narrow16(bitsEnd)) == FieldValue(report, bitsStart, bitsEnd))
            <==> bitsEnd < 0x1_0000
  {
    hide FieldValue;
    if bitsEnd >= 0x1_0000 {
      var report := FarReport(bitsEnd);
      FarFieldIsNonzero(bitsStart, bitsEnd);
      NearFieldIsZero(Narrow16(bitsStart), Narrow16(bitsEnd), bitsEnd);
      assert FieldValue(report, Narrow16(bitsStart), Narrow16(bitsEnd)) != FieldValue(report, bitsStart, bitsEnd);
    }
  }

  /**
   * For any range at all: a readable one keeps its value exactly when it ends below
   * bit 65536, and one too wide or empty keeps reading as 0 exactly when it
   * does not become readable, as 0 to 65544 does.
   */
  lemma NarrowingExact(bitsStart: nat, bitsEnd: nat)
    ensures (forall report: seq<byte> ::
              FieldValue(report, Narrow16(bitsStart), Narrow16(bitsEnd)) == FieldValue(report, bitsStart, bitsEnd))
            <==> if 0 < bitsEnd - bitsStart <= 32 then bitsEnd < 0x1_0000
                 else !(0 < Narrow16(bitsEnd) - Narrow16(bitsStart) <= 32)
  {
    hide FieldValue;
    var s: int, e: int := Narrow16(bitsStart), Narrow16(bitsEnd);
    if 0 < bitsEnd - bitsStart <= 32 {
      ReadableNarrowingExact(bitsStart, bitsEnd);
    } else if 0 < e - s <= 32 {
      var report := seq((e - 1) / 8 + 1, _ => 255);
      OnesAreNonzero(report, s, e);
      WrongWidthIsZero(report, bitsStart, bitsEnd);
      assert FieldValue(report, s, e) != FieldValue(report, bitsStart, bitsEnd);
    } else {
      forall report: seq<byte> ensures FieldValue(report, s, e) == FieldValue(report, bitsStart, bitsEnd) {
        WrongWidthIsZero(report, s, e);
        WrongWidthIsZero(report, bitsStart, bitsEnd);
      }
    }
  }

  lemma WrongWidthIsZero(report: seq<byte>, bitsStart: nat, bitsEnd: nat)
    requires !(0 < bitsEnd - bitsStart <= 32)
    ensures FieldValue(report, bitsStart, bitsEnd) == 0
  {}

  /** A field whose last byte is all ones is not 0. */
  lemma OnesAreNonzero(report: seq<byte>, bitsStart: nat, bitsEnd: nat)
    requires 0 < bitsEnd - bitsStart <= 32 && (bitsEnd - 1) / 8 < |report| && report[(bitsEnd - 1) / 8] == 255
    ensures FieldValue(report, bitsStart, bitsEnd) != 0
  {
    hide FieldValue, Number, Bit;
    var last := bitsEnd - 1 - bitsStart;
    BitOfField(report, bitsStart, bitsEnd, last);
    AllOnesByte((bitsEnd - 1) % 8);
    ZeroHasNoBit(last);
  }

  /** All-ones bytes up to the one holding the last bit, after 8192 zero bytes when the last bit lies beyond them. */
  ghost function FarReport(bitsEnd: nat): seq<byte>
    requires bitsEnd >= 0x1_0000
  {
    seq((bitsEnd - 1) / 8 + 1, i => if i < 0x2000 && bitsEnd > 0x1_0000 then 0 else 255)
  }

  lemma NearFieldIsZero(s: u16, e: u16, bitsEnd: nat)
    requires bitsEnd >= 0x1_0000 && e == Narrow16(bitsEnd)
    ensures FieldValue(FarReport(bitsEnd), s, e) == 0
  {
    hide FieldValue, Number, Shr, Low;
    var report := FarReport(bitsEnd);
    Unreadable(report, s, e);
    if Readable(|report|, s, e) {
      FieldInBytes(report, s, e);
      var bytes := report[s / 8..(e - 1) / 8 + 1];
      ZeroNumber(bytes);
      ShrZero(s % 8);
      ZeroLow(e - s);
    }
  }

  lemma {:induction false} ZeroNumber(bytes: seq<byte>)
    requires forall i :: 0 <= i < |bytes| ==> bytes[i] == 0
    ensures Number(bytes) == 0
  {
    if bytes != [] { ZeroNumber(bytes[1..]); }
  }

  lemma {:induction false} ShrZero(k: nat)
    ensures Shr(0, k) == 0
  {
    if k > 0 { ShrZero(k - 1); }
  }

  lemma FarFieldIsNonzero(bitsStart: nat, bitsEnd: nat)
    requires 0 < bitsEnd - bitsStart <= 32 && bitsEnd >= 0x1_0000
    ensures FieldValue(FarReport(bitsEnd), bitsStart, bitsEnd) != 0
  {
    OnesAreNonzero(FarReport(bitsEnd), bitsStart, bitsEnd);
  }

  lemma AllOnesByte(i: nat)
    requires i < 8
    ensures Bit(255, i)
  {
    assert Bit(255, 0) && Bit(127, 0) && Bit(63, 0) && Bit(31, 0);
    assert Bit(255, 1) && Bit(255, 2) && Bit(255, 3);
    assert Bit(15, 3);
    assert Bit(255, 4) && Bit(255, 5) && Bit(255, 6) && Bit(255, 7);
  }
}
