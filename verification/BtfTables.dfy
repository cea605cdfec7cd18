/**
 * The tables the validator is used with: the Rust types of src/bpf.rs and the C
 * structures of src/bpf/hid_report_descriptor_helpers.h as BTF describes them.
 */
module BtfTables {
  import opened BtfValidation
  import opened BtfLayout
  import opened Options

  // ----- The Rust tables -----

  /** An array type as the field tables spell it */
  function ArrayName(element: string, count: string): string {
    "[" + element + ";" + (" " + count + "]")
  }

  const COLLECTIONS := ArrayName("HidRdescCollection", "HID_MAX_COLLECTIONS")
  const FIELDS := ArrayName("HidRdescField", "HID_MAX_FIELDS")
  const REPORTS := ArrayName("HidRdescReport", "HID_MAX_REPORTS")

  function HidRdescCollection(): Composite {
    Composite(true, 5, [
      Field("usage_page", 0, 2, "u16"), Field("usage_id", 2, 2, "u16"), Field("collection_type", 4, 1, "u8")])
  }

  function UsageRange(): Composite {
    Composite(true, 4, [Field("usage_minimum", 0, 2, "u16"), Field("usage_maximum", 2, 2, "u16")])
  }

  function UsageIdUnion(): Composite {
    Composite(false, 4, [Field("usage_id", 0, 2, "u16"), Field("anon_range", 0, 4, "UsageRange")])
  }

  function HidRdescField(): Composite {
    Composite(true, 181, [
      Field("field_type", 0, 1, "u8"), Field("num_collections", 1, 1, "u8"),
      Field("bits_start", 2, 2, "u16"), Field("bits_end", 4, 2, "u16"), Field("usage_page", 6, 2, "u16"),
      Field("anon_usage_id", 8, 4, "UsageIdUnion"),
      Field("logical_minimum", 12, 4, "i32"), Field("logical_maximum", 16, 4, "i32"),
      Field("flags", 20, 1, "u8"), Field("collections", 21, 160, COLLECTIONS)])
  }

  function HidRdescReport(): Composite {
    Composite(true, 11588, [
      Field("report_id", 0, 1, "u8"), Field("size_in_bits", 1, 2, "u16"), Field("num_fields", 3, 1, "u8"),
      Field("fields", 4, 11584, FIELDS)])
  }

  function HidRdescDescriptor(): Composite {
    Composite(true, 556227, [
      Field("num_input_reports", 0, 1, "u8"), Field("num_output_reports", 1, 1, "u8"),
      Field("num_feature_reports", 2, 1, "u8"),
      Field("input_reports", 3, 185408, REPORTS), Field("output_reports", 185411, 185408, REPORTS),
      Field("feature_reports", 370819, 185408, REPORTS)])
  }

  function Tables(): Registry {
    map["HidRdescCollection" := HidRdescCollection(), "UsageRange" := UsageRange(), "UsageIdUnion" := UsageIdUnion(),
        "HidRdescField" := HidRdescField(), "HidRdescReport" := HidRdescReport(),
        "HidRdescDescriptor" := HidRdescDescriptor()]
  }

  // ----- The C structures -----

  function U8(): BtfType { Ref(Int(1)) }
  function U16(): BtfType { Ref(Int(2)) }
  function S32(): BtfType { Ref(Int(4)) }

  function CCollection(): BtfType {
    Struct(5, [
      Member(Some("usage_page"), 0, U16()), Member(Some("usage_id"), 16, U16()),
      Member(Some("collection_type"), 32, U8())])
  }

  function CUsageRange(): BtfType {
    Struct(4, [Member(Some("usage_minimum"), 0, U16()), Member(Some("usage_maximum"), 16, U16())])
  }

  function CUsageUnion(): BtfType {
    Union(4, [Member(Some("usage_id"), 0, U16()), Member(None, 0, CUsageRange())])
  }

  /** Eight one-bit fields in a byte; Rust calls it a `u8`. */
  function CFlags(): BtfType {
    Struct(1, [
      Member(Some("is_relative"), 0, U8()), Member(Some("wraps"), 1, U8()), Member(Some("is_nonlinear"), 2, U8()),
      Member(Some("has_no_preferred_state"), 3, U8()), Member(Some("has_null_state"), 4, U8()),
      Member(Some("is_volatile"), 5, U8()), Member(Some("is_buffered_bytes"), 6, U8()),
      Member(Some("reserved"), 7, U8())])
  }

  function CCollections(): BtfType { Array(CCollection(), 32) }

  function CField(): BtfType {
    Struct(181, [
      Member(Some("field_type"), 0, U8()), Member(Some("num_collections"), 8, U8()),
      Member(Some("bits_start"), 16, U16()), Member(Some("bits_end"), 32, U16()), Member(Some("usage_page"), 48, U16()),
      Member(None, 64, CUsageUnion()),
      Member(Some("logical_minimum"), 96, S32()), Member(Some("logical_maximum"), 128, S32()),
      Member(Some("flags"), 160, CFlags()), Member(Some("collections"), 168, CCollections())])
  }

  function CFields(): BtfType { Array(CField(), 64) }

  function CReport(): BtfType {
    Struct(11588, [
      Member(Some("report_id"), 0, U8()), Member(Some("size_in_bits"), 8, U16()), Member(Some("num_fields"), 24, U8()),
      Member(Some("fields"), 32, CFields())])
  }

  function CReports(): BtfType { Array(CReport(), 16) }

  function CDescriptor(): BtfType {
    Struct(556227, [
      Member(Some("num_input_reports"), 0, U8()), Member(Some("num_output_reports"), 8, U8()),
      Member(Some("num_feature_reports"), 16, U8()),
      Member(Some("input_reports"), 24, CReports()), Member(Some("output_reports"), 1483288, CReports()),
      Member(Some("feature_reports"), 2966552, CReports())])
  }

  // ----- Names -----

  lemma Bytes()
    ensures !NeedsValidator(Tables(), "u8")
  {
    hide BaseType;
    PlainBaseType("u8", "");
  }

  lemma Words()
    ensures !NeedsValidator(Tables(), "u16") && !NeedsValidator(Tables(), "i32")
  {
    hide BaseType;
    PlainBaseType("u16", "");
    PlainBaseType("i32", "");
  }

  lemma Primitives()
    ensures !NeedsValidator(Tables(), "u8") && !NeedsValidator(Tables(), "u16") && !NeedsValidator(Tables(), "i32")
  {
    Bytes();
    Words();
  }

  lemma RangeName()
    ensures BaseType("UsageRange") == "UsageRange"
  {
    hide BaseType;
    PlainBaseType("UsageRange", "");
  }

  lemma UnionName()
    ensures BaseType("UsageIdUnion") == "UsageIdUnion"
  {
    hide BaseType;
    PlainBaseType("UsageIdUnion", "");
  }

  lemma ArrayBaseType(element: string, count: string)
    requires Plain(element)
    ensures BaseType(ArrayName(element, count)) == element
  {
    hide BaseType, Plain;
    PlainBaseType(element, " " + count + "]");
  }

  lemma CollectionsName()
    ensures BaseType(COLLECTIONS) == "HidRdescCollection"
  {
    hide BaseType, ArrayName;
    ArrayBaseType("HidRdescCollection", "HID_MAX_COLLECTIONS");
  }

  lemma FieldsName()
    ensures BaseType(FIELDS) == "HidRdescField"
  {
    hide BaseType, ArrayName;
    ArrayBaseType("HidRdescField", "HID_MAX_FIELDS");
  }

  lemma ReportsName()
    ensures BaseType(REPORTS) == "HidRdescReport"
  {
    hide BaseType, ArrayName;
    ArrayBaseType("HidRdescReport", "HID_MAX_REPORTS");
  }

  // ----- Validity -----

  predicate FieldValid(registry: Registry, isStruct: bool, t: BtfType, field: Field)
    requires t.Struct? || t.Union?
  {
    var m := FindMember(isStruct, t.members, field);
    m.Some? && FieldFits(isStruct, m.value, field) && TypeValid(registry, Resolve(m.value.ty), field.typeName)
  }

  lemma {:induction false} AllFieldsValid(registry: Registry, isStruct: bool, t: BtfType, fields: seq<Field>)
    requires t.Struct? || t.Union?
    requires forall i :: 0 <= i < |fields| ==> FieldValid(registry, isStruct, t, fields[i])
    ensures FieldsValid(registry, isStruct, t, fields)
    decreases |fields|
  {
    if fields != [] {
      assert FieldValid(registry, isStruct, t, fields[0]);
      forall i | 0 <= i < |fields[1..]| ensures FieldValid(registry, isStruct, t, fields[1..][i]) {
        assert FieldValid(registry, isStruct, t, fields[i + 1]);
      }
      AllFieldsValid(registry, isStruct, t, fields[1..]);
    }
  }

  /** A field of a type nobody validates needs a member that fits it. */
  lemma PlainFieldValid(registry: Registry, isStruct: bool, t: BtfType, field: Field, i: nat)
    requires (t.Struct? || t.Union?) && i < |t.members| && !NeedsValidator(registry, field.typeName)
    requires Matches(isStruct, t.members[i], field) && FieldFits(isStruct, t.members[i], field)
    requires forall j :: 0 <= j < i ==> !Matches(isStruct, t.members[j], field)
    ensures FieldValid(registry, isStruct, t, field)
  {
    FoundAt(isStruct, t.members, field, i);
    var r := Resolve(t.members[i].ty);
    ResolveTwice(t.members[i].ty);
    SizedIsPresent(r);
  }

  /** A field of a registered type needs a member whose element type is valid, too. */
  lemma ValidatedFieldValid(registry: Registry, isStruct: bool, t: BtfType, field: Field, i: nat)
    requires (t.Struct? || t.Union?) && i < |t.members| && NeedsValidator(registry, field.typeName)
    requires Matches(isStruct, t.members[i], field) && FieldFits(isStruct, t.members[i], field)
    requires forall j :: 0 <= j < i ==> !Matches(isStruct, t.members[j], field)
    requires CompositeValid(registry, registry[BaseType(field.typeName)], ValidationType(Resolve(t.members[i].ty)))
    ensures FieldValid(registry, isStruct, t, field)
  {
    hide CompositeValid;
    FoundAt(isStruct, t.members, field, i);
    ResolveTwice(t.members[i].ty);
    SizedIsPresent(t.members[i].ty);
  }

  lemma Named(field: Field)
    requires field.name != "" && field.name[0] != 'a'
    ensures !IsAnonymous(field)
  {}

  lemma CollectionValid()
    ensures CompositeValid(Tables(), HidRdescCollection(), CCollection())
  {
    hide NeedsValidator, Tables, FieldValid;
    Primitives();
    var fields := HidRdescCollection().fields;
    Named(fields[0]);
    Named(fields[1]);
    Named(fields[2]);
    PlainFieldValid(Tables(), true, CCollection(), fields[0], 0);
    PlainFieldValid(Tables(), true, CCollection(), fields[1], 1);
    PlainFieldValid(Tables(), true, CCollection(), fields[2], 2);
    AllFieldsValid(Tables(), true, CCollection(), fields);
  }

  lemma RangeValid()
    ensures CompositeValid(Tables(), UsageRange(), CUsageRange())
  {
    hide NeedsValidator, Tables, FieldValid;
    Primitives();
    var fields := UsageRange().fields;
    Named(fields[0]);
    Named(fields[1]);
    assert fields[0].name[6] != fields[1].name[6] || fields[0].name[7] != fields[1].name[7];
    PlainFieldValid(Tables(), true, CUsageRange(), fields[0], 0);
    PlainFieldValid(Tables(), true, CUsageRange(), fields[1], 1);
    AllFieldsValid(Tables(), true, CUsageRange(), fields);
  }

  lemma UnionValid()
    ensures CompositeValid(Tables(), UsageIdUnion(), CUsageUnion())
  {
    hide BaseType, FieldValid, CompositeValid;
    Primitives();
    RangeName();
    RangeValid();
    var fields := UsageIdUnion().fields;
    Named(fields[0]);
    PlainFieldValid(Tables(), false, CUsageUnion(), fields[0], 0);
    ValidatedFieldValid(Tables(), false, CUsageUnion(), fields[1], 1);
    AllFieldsValid(Tables(), false, CUsageUnion(), fields);
    FromFields(Tables(), UsageIdUnion(), CUsageUnion());
  }

  lemma FromFields(registry: Registry, c: Composite, t: BtfType)
    requires IsKind(c, t) && t.size == c.size && FieldsValid(registry, c.isStruct, t, c.fields)
    ensures CompositeValid(registry, c, t)
  {}

  lemma FieldBytes()
    ensures FieldValid(Tables(), true, CField(), HidRdescField().fields[0])
    ensures FieldValid(Tables(), true, CField(), HidRdescField().fields[1])
  {
    hide NeedsValidator, Tables, FieldValid;
    Primitives();
    var fields, t := HidRdescField().fields, CField();
    Named(fields[0]);
    Named(fields[1]);
    PlainFieldValid(Tables(), true, t, fields[0], 0);
    PlainFieldValid(Tables(), true, t, fields[1], 1);
  }

  lemma FieldWords()
    ensures forall i :: 2 <= i < 5 ==> FieldValid(Tables(), true, CField(), HidRdescField().fields[i])
  {
    hide NeedsValidator, Tables, FieldValid;
    Primitives();
    var fields, t := HidRdescField().fields, CField();
    Named(fields[2]);
    Named(fields[3]);
    Named(fields[4]);
    PlainFieldValid(Tables(), true, t, fields[2], 2);
    PlainFieldValid(Tables(), true, t, fields[3], 3);
    PlainFieldValid(Tables(), true, t, fields[4], 4);
  }

  lemma FieldLimits()
    ensures FieldValid(Tables(), true, CField(), HidRdescField().fields[6])
    ensures FieldValid(Tables(), true, CField(), HidRdescField().fields[7])
  {
    hide NeedsValidator, Tables, FieldValid;
    Primitives();
    var fields, t := HidRdescField().fields, CField();
    Named(fields[6]);
    Named(fields[7]);
    PlainFieldValid(Tables(), true, t, fields[6], 6);
    assert fields[6].name[9] != fields[7].name[9];
    PlainFieldValid(Tables(), true, t, fields[7], 7);
  }

  lemma FieldFlags()
    ensures FieldValid(Tables(), true, CField(), HidRdescField().fields[8])
  {
    hide NeedsValidator, Tables, FieldValid;
    Primitives();
    Named(HidRdescField().fields[8]);
    PlainFieldValid(Tables(), true, CField(), HidRdescField().fields[8], 8);
  }

  lemma FieldUnion()
    ensures FieldValid(Tables(), true, CField(), HidRdescField().fields[5])
  {
    hide BaseType, FieldValid, CompositeValid;
    UnionName();
    UnionValid();
    ValidatedFieldValid(Tables(), true, CField(), HidRdescField().fields[5], 5);
  }

  lemma FieldCollections()
    ensures FieldValid(Tables(), true, CField(), HidRdescField().fields[9])
  {
    hide BaseType, FieldValid, CompositeValid;
    CollectionsName();
    CollectionValid();
    Named(HidRdescField().fields[9]);
    ValidatedFieldValid(Tables(), true, CField(), HidRdescField().fields[9], 9);
  }

  lemma FieldIsCompositeValid()
    ensures CompositeValid(Tables(), HidRdescField(), CField())
  {
    hide FieldValid, Tables;
    FieldBytes();
    FieldWords();
    FieldLimits();
    FieldFlags();
    FieldUnion();
    FieldCollections();
    AllFieldsValid(Tables(), true, CField(), HidRdescField().fields);
    FromFields(Tables(), HidRdescField(), CField());
  }

  lemma ReportValid()
    ensures CompositeValid(Tables(), HidRdescReport(), CReport())
  {
    hide BaseType, FieldValid, CompositeValid;
    Primitives();
    FieldsName();
    FieldIsCompositeValid();
    var fields := HidRdescReport().fields;
    Named(fields[0]);
    Named(fields[1]);
    Named(fields[2]);
    Named(fields[3]);
    PlainFieldValid(Tables(), true, CReport(), fields[0], 0);
    PlainFieldValid(Tables(), true, CReport(), fields[1], 1);
    PlainFieldValid(Tables(), true, CReport(), fields[2], 2);
    ValidatedFieldValid(Tables(), true, CReport(), fields[3], 3);
    AllFieldsValid(Tables(), true, CReport(), fields);
    FromFields(Tables(), HidRdescReport(), CReport());
  }

  lemma DescriptorCounts()
    ensures forall i :: 0 <= i < 3 ==> FieldValid(Tables(), true, CDescriptor(), HidRdescDescriptor().fields[i])
  {
    hide NeedsValidator, Tables, FieldValid;
    Bytes();
    var fields := HidRdescDescriptor().fields;
    Named(fields[0]);
    Named(fields[1]);
    Named(fields[2]);
    PlainFieldValid(Tables(), true, CDescriptor(), fields[0], 0);
    PlainFieldValid(Tables(), true, CDescriptor(), fields[1], 1);
    PlainFieldValid(Tables(), true, CDescriptor(), fields[2], 2);
  }

  lemma DescriptorReports(i: nat)
    requires 3 <= i < 6
    ensures FieldValid(Tables(), true, CDescriptor(), HidRdescDescriptor().fields[i])
  {
    hide BaseType, FieldValid, CompositeValid, ArrayName;
    ReportsName();
    ReportValid();
    var fields := HidRdescDescriptor().fields;
    Named(fields[i]);
    ValidatedFieldValid(Tables(), true, CDescriptor(), fields[i], i);
  }

  lemma DescriptorValid()
    ensures CompositeValid(Tables(), HidRdescDescriptor(), CDescriptor())
  {
    hide FieldValid, Tables, CompositeValid;
    DescriptorCounts();
    DescriptorReports(3);
    DescriptorReports(4);
    DescriptorReports(5);
    AllFieldsValid(Tables(), true, CDescriptor(), HidRdescDescriptor().fields);
    FromFields(Tables(), HidRdescDescriptor(), CDescriptor());
  }

  // ----- Consistency -----

  /** The registered names and the BTF types they are checked against */
  predicate InTables(p: (string, BtfType)) {
    || p == ("UsageRange", CUsageRange())
    || p == ("UsageIdUnion", CUsageUnion())
    || p == (COLLECTIONS, CCollections())
    || p == (FIELDS, CFields())
    || p == (REPORTS, CReports())
  }

  ghost predicate Within(pairs: Pairs) {
    forall p :: p in pairs && NeedsValidator(Tables(), p.0) ==> InTables(p)
  }

  lemma PlainWithin(t: BtfType, typeName: string)
    requires !NeedsValidator(Tables(), typeName)
    ensures Within(TypePairs(Tables(), t, typeName))
  {
    hide InTables, Tables;
  }

  lemma ValidatedWithin(t: BtfType, typeName: string)
    requires NeedsValidator(Tables(), typeName) && InTables((typeName, t))
    requires Within(CompositePairs(Tables(), Tables()[BaseType(typeName)], ValidationType(Resolve(t))))
    ensures Within(TypePairs(Tables(), t, typeName))
  {
    hide InTables, Tables, CompositePairs;
  }

  /** Below a composite lie the pairs of its fields. */
  lemma {:induction false} FieldsWithin(isStruct: bool, t: BtfType, fields: seq<Field>)
    requires t.Struct? || t.Union?
    requires forall i :: 0 <= i < |fields| ==> FieldWithin(isStruct, t, fields[i])
    ensures Within(FieldPairs(Tables(), isStruct, t, fields))
    decreases |fields|
  {
    hide InTables, Tables, TypePairs;
    if fields != [] {
      assert FieldWithin(isStruct, t, fields[0]);
      forall i | 0 <= i < |fields[1..]| ensures FieldWithin(isStruct, t, fields[1..][i]) {
        assert FieldWithin(isStruct, t, fields[i + 1]);
      }
      FieldsWithin(isStruct, t, fields[1..]);
    }
  }

  ghost predicate FieldWithin(isStruct: bool, t: BtfType, field: Field)
    requires t.Struct? || t.Union?
  {
    var m := FindMember(isStruct, t.members, field);
    m.Some? ==> Within(TypePairs(Tables(), Resolve(m.value.ty), field.typeName))
  }

  lemma PlainFieldWithin(isStruct: bool, t: BtfType, field: Field)
    requires (t.Struct? || t.Union?) && !NeedsValidator(Tables(), field.typeName)
    ensures FieldWithin(isStruct, t, field)
  {
    hide Tables, Within;
    var m := FindMember(isStruct, t.members, field);
    if m.Some? { PlainWithin(Resolve(m.value.ty), field.typeName); }
  }

  lemma ValidatedFieldWithin(isStruct: bool, t: BtfType, field: Field, i: nat)
    requires (t.Struct? || t.Union?) && i < |t.members| && NeedsValidator(Tables(), field.typeName)
    requires Matches(isStruct, t.members[i], field)
    requires forall j :: 0 <= j < i ==> !Matches(isStruct, t.members[j], field)
    requires InTables((field.typeName, Resolve(t.members[i].ty)))
    requires Within(CompositePairs(Tables(), Tables()[BaseType(field.typeName)],
                                   ValidationType(Resolve(t.members[i].ty))))
    ensures FieldWithin(isStruct, t, field)
  {
    hide Tables, Within, InTables;
    FoundAt(isStruct, t.members, field, i);
    ResolveTwice(t.members[i].ty);
    ValidatedWithin(Resolve(t.members[i].ty), field.typeName);
  }

  lemma CompositeWithin(c: Composite, t: BtfType)
    requires IsKind(c, t)
    requires forall i :: 0 <= i < |c.fields| ==> FieldWithin(c.isStruct, t, c.fields[i])
    ensures Within(CompositePairs(Tables(), c, t))
  {
    hide Within;
    FieldsWithin(c.isStruct, t, c.fields);
  }

  lemma ScalarsWithin(c: Composite, t: BtfType)
    requires IsKind(c, t)
    requires forall i :: 0 <= i < |c.fields| ==> c.fields[i].typeName in {"u8", "u16", "i32"}
    ensures Within(CompositePairs(Tables(), c, t))
  {
    hide Within, Tables, NeedsValidator;
    Primitives();
    forall i | 0 <= i < |c.fields| ensures FieldWithin(c.isStruct, t, c.fields[i]) {
      PlainFieldWithin(c.isStruct, t, c.fields[i]);
    }
    CompositeWithin(c, t);
  }

  lemma UnionWithin()
    ensures Within(CompositePairs(Tables(), UsageIdUnion(), CUsageUnion()))
  {
    hide Within, BaseType, FieldWithin, CompositePairs;
    Primitives();
    RangeName();
    ScalarsWithin(UsageRange(), CUsageRange());
    var fields := UsageIdUnion().fields;
    Named(fields[0]);
    PlainFieldWithin(false, CUsageUnion(), fields[0]);
    ValidatedFieldWithin(false, CUsageUnion(), fields[1], 1);
    CompositeWithin(UsageIdUnion(), CUsageUnion());
  }

  lemma FieldUnionWithin()
    ensures FieldWithin(true, CField(), HidRdescField().fields[5])
  {
    hide Within, BaseType, FieldWithin, CompositePairs;
    UnionName();
    UnionWithin();
    ValidatedFieldWithin(true, CField(), HidRdescField().fields[5], 5);
  }

  lemma FieldCollectionsWithin()
    ensures FieldWithin(true, CField(), HidRdescField().fields[9])
  {
    hide Within, BaseType, FieldWithin, CompositePairs;
    CollectionsName();
    ScalarsWithin(HidRdescCollection(), CCollection());
    Named(HidRdescField().fields[9]);
    ValidatedFieldWithin(true, CField(), HidRdescField().fields[9], 9);
  }

  lemma FieldCompositeWithin()
    ensures Within(CompositePairs(Tables(), HidRdescField(), CField()))
  {
    hide Within, Tables, NeedsValidator, FieldWithin;
    Primitives();
    FieldUnionWithin();
    FieldCollectionsWithin();
    var fields := HidRdescField().fields;
    forall i | 0 <= i < 10 && i != 5 && i != 9 ensures FieldWithin(true, CField(), fields[i]) {
      PlainFieldWithin(true, CField(), fields[i]);
    }
    CompositeWithin(HidRdescField(), CField());
  }

  lemma ReportWithin()
    ensures Within(CompositePairs(Tables(), HidRdescReport(), CReport()))
  {
    hide Within, BaseType, FieldWithin, CompositePairs;
    Primitives();
    FieldsName();
    FieldCompositeWithin();
    var fields := HidRdescReport().fields;
    PlainFieldWithin(true, CReport(), fields[0]);
    PlainFieldWithin(true, CReport(), fields[1]);
    PlainFieldWithin(true, CReport(), fields[2]);
    Named(fields[3]);
    ValidatedFieldWithin(true, CReport(), fields[3], 3);
    CompositeWithin(HidRdescReport(), CReport());
  }

  lemma DescriptorWithin()
    ensures Within(CompositePairs(Tables(), HidRdescDescriptor(), CDescriptor()))
  {
    hide Within, BaseType, FieldWithin, CompositePairs;
    Primitives();
    ReportsName();
    ReportWithin();
    var fields := HidRdescDescriptor().fields;
    PlainFieldWithin(true, CDescriptor(), fields[0]);
    PlainFieldWithin(true, CDescriptor(), fields[1]);
    PlainFieldWithin(true, CDescriptor(), fields[2]);
    forall i | 3 <= i < 6 ensures !IsAnonymous(fields[i]) { Named(fields[i]); }
    ValidatedFieldWithin(true, CDescriptor(), fields[3], 3);
    ValidatedFieldWithin(true, CDescriptor(), fields[4], 4);
    ValidatedFieldWithin(true, CDescriptor(), fields[5], 5);
    CompositeWithin(HidRdescDescriptor(), CDescriptor());
  }

  lemma TablesConsistent(p: (string, BtfType), q: (string, BtfType))
    requires InTables(p) && InTables(q) && p.0 == q.0
    ensures p.1 == q.1
  {}

  /** The program's own descriptor type validates against the C structure, and its names are consistent. */
  lemma DescriptorValidates()
    ensures Validates(Tables(), HidRdescDescriptor(), CDescriptor())
    ensures Consistent(Tables(), CompositePairs(Tables(), HidRdescDescriptor(), CDescriptor()))
  {
    hide Tables, InTables, CompositePairs, CompositeValid;
    DescriptorValid();
    ValidCompositePasses(Tables(), HidRdescDescriptor(), CDescriptor(), {});
    DescriptorWithin();
    var pairs := CompositePairs(Tables(), HidRdescDescriptor(), CDescriptor());
    forall p, q | p in pairs && q in pairs && p.0 == q.0 && NeedsValidator(Tables(), p.0)
      ensures p.1 == q.1
    {
      TablesConsistent(p, q);
    }
  }

  /** The pair of a field and its member is among the pairs. */
  lemma {:induction false} FieldPairAt(
    registry: Registry, isStruct: bool, t: BtfType, fields: seq<Field>, i: nat, j: nat)
    requires (t.Struct? || t.Union?) && i < |fields| && j < |t.members| && Matches(isStruct, t.members[j], fields[i])
    requires forall k :: 0 <= k < j ==> !Matches(isStruct, t.members[k], fields[i])
    ensures (fields[i].typeName, Resolve(t.members[j].ty)) in FieldPairs(registry, isStruct, t, fields)
    decreases i
  {
    if i == 0 {
      FoundAt(isStruct, t.members, fields[0], j);
    } else {
      FieldPairAt(registry, isStruct, t, fields[1..], i - 1, j);
    }
  }

  /** Unvalidated names are not: `u8` is a byte and the flags. */
  lemma BytesAndFlags()
    ensures var pairs := CompositePairs(Tables(), HidRdescField(), CField());
            ("u8", Int(1)) in pairs && ("u8", CFlags()) in pairs
  {
    hide Tables, NeedsValidator, FieldPairs;
    var fields := HidRdescField().fields;
    Named(fields[0]);
    Named(fields[8]);
    FieldPairAt(Tables(), true, CField(), fields, 0, 0);
    FieldPairAt(Tables(), true, CField(), fields, 8, 8);
  }

  lemma SmallOnBytes()
    ensures OnBytes(CUsageRange()) && OnBytes(CUsageUnion()) && OnBytes(CCollection()) && OnBytes(CReport())
  {}

  lemma FieldOnBytes()
    ensures OnBytes(CField())
  {}

  lemma {:induction false} TablesOnBytes(p: (string, BtfType))
    requires InTables(p)
    ensures OnBytes(Resolve(ValidationType(Resolve(p.1))))
  {
    hide OnBytes;
    SmallOnBytes();
    FieldOnBytes();
  }

  lemma DescriptorOnBytes()
    ensures PairsOnBytes(Tables(), CompositePairs(Tables(), HidRdescDescriptor(), CDescriptor()))
  {
    hide Tables, InTables, CompositePairs, OnBytes, NeedsValidator;
    DescriptorWithin();
    var pairs := CompositePairs(Tables(), HidRdescDescriptor(), CDescriptor());
    forall p | p in pairs && NeedsValidator(Tables(), p.0) ensures OnBytes(Resolve(ValidationType(Resolve(p.1)))) {
      TablesOnBytes(p);
    }
  }

  lemma DescriptorShape()
    ensures HidRdescDescriptor().isStruct && CDescriptor().Struct? && OnBytes(CDescriptor())
  {}

  /** The leaf of the Rust descriptor at the end of a path */
  function DescriptorLeaf(path: seq<Step>): Option<Place> {
    if path == [] || path[0].index != 0 || path[0].field !in HidRdescDescriptor().fields then None
    else
      match RustLeaf(Tables(), path[0].field.typeName, path[0].field.size, path[1..])
      case None => None
      case Some(p) => Some(Place(path[0].field.offset + p.offset, p.size))
  }

  /**
   * Every leaf of the Rust descriptor, through all its reports, fields, usages and
   * collections, has the offset and size the C structure gives it.
   */
  lemma {:induction false} DescriptorLayout(path: seq<Step>)
    ensures var leaf := DescriptorLeaf(path);
            leaf.Some? ==> BtfLeaf(CDescriptor(), path) == Some(Place(8 * leaf.value.offset, leaf.value.size))
  {
    hide HidRdescDescriptor, CDescriptor, Tables, CompositePairs, PairsOnBytes, OnBytes;
    hide CompositeValid, RustLeaf, BtfLeaf;
    DescriptorShape();
    if DescriptorLeaf(path).Some? {
      DescriptorValid();
      DescriptorOnBytes();
      ExactLayout(Tables(), HidRdescDescriptor(), CDescriptor(), path);
    }
  }

  // ----- A deep leaf -----

  /** From a place inside a field's type to the place inside the element that holds the field */
  lemma {:induction false} OneDown(registry: Registry, typeName: string, size: nat, path: seq<Step>, p: Place)
    requires NeedsValidator(registry, typeName) && path != [] && registry[BaseType(typeName)].isStruct
    requires path[0].field in registry[BaseType(typeName)].fields && registry[BaseType(typeName)].size > 0
    requires path[0].index < size / registry[BaseType(typeName)].size
    requires RustLeaf(registry, path[0].field.typeName, path[0].field.size, path[1..]) == Some(p)
    ensures var start := Times(path[0].index, registry[BaseType(typeName)].size) + path[0].field.offset;
            RustLeaf(registry, typeName, size, path) == Some(Place(start + p.offset, p.size))
  {
    hide NeedsValidator, BaseType, Times;
  }

  lemma CollectionPage(k: nat)
    requires k < 32
    ensures RustLeaf(Tables(), COLLECTIONS, 160, [Step(k, HidRdescCollection().fields[0])]) == Some(Place(5 * k, 2))
  {
    hide BaseType, RustLeaf, ArrayName;
    Words();
    CollectionsName();
    var path := [Step(k, HidRdescCollection().fields[0])];
    assert path[1..] == [];
    PlainLeaf("u16", 2);
    OneDown(Tables(), COLLECTIONS, 160, path, Place(0, 2));
  }

  lemma PlainLeaf(typeName: string, size: nat)
    requires !NeedsValidator(Tables(), typeName)
    ensures RustLeaf(Tables(), typeName, size, []) == Some(Place(0, size))
  {
  }

  /** The way to a usage page of a field's collection in some report */
  function CollectionPath(i: nat, j: nat, k: nat): seq<Step> {
    [Step(i, HidRdescReport().fields[3]), Step(j, HidRdescField().fields[9]), Step(k, HidRdescCollection().fields[0])]
  }

  lemma FieldPage(j: nat, k: nat)
    requires j < 64 && k < 32
    ensures RustLeaf(Tables(), FIELDS, 11584, CollectionPath(0, j, k)[1..]) == Some(Place(181 * j + 21 + 5 * k, 2))
  {
    hide BaseType, RustLeaf, ArrayName;
    FieldsName();
    CollectionPage(k);
    var path := CollectionPath(0, j, k)[1..];
    assert path[1..] == [Step(k, HidRdescCollection().fields[0])];
    OneDown(Tables(), FIELDS, 11584, path, Place(5 * k, 2));
  }

  lemma ReportPage(i: nat, j: nat, k: nat)
    requires i < 16 && j < 64 && k < 32
    ensures RustLeaf(Tables(), REPORTS, 185408, CollectionPath(i, j, k))
         == Some(Place(11588 * i + 4 + 181 * j + 21 + 5 * k, 2))
  {
    hide BaseType, RustLeaf, ArrayName;
    ReportsName();
    FieldPage(j, k);
    var path := CollectionPath(i, j, k);
    assert path[1..] == CollectionPath(0, j, k)[1..];
    OneDown(Tables(), REPORTS, 185408, path, Place(181 * j + 21 + 5 * k, 2));
  }

  /**
   * For example the usage page of collection k of field j of report i, whatever
   * the kind of the report: both layouts have it at the same byte.
   */
  lemma CollectionPageAt(kind: nat, i: nat, j: nat, k: nat)
    requires 3 <= kind < 6 && i < 16 && j < 64 && k < 32
    ensures var path := [Step(0, HidRdescDescriptor().fields[kind])] + CollectionPath(i, j, k);
            var offset := 3 + 185408 * (kind - 3) + 11588 * i + 4 + 181 * j + 21 + 5 * k;
            && DescriptorLeaf(path) == Some(Place(offset, 2))
            && BtfLeaf(CDescriptor(), path) == Some(Place(8 * offset, 2))
  {
    hide BaseType, RustLeaf, BtfLeaf, ArrayName, Tables, CDescriptor, CollectionPath;
    ReportPage(i, j, k);
    var path := [Step(0, HidRdescDescriptor().fields[kind])] + CollectionPath(i, j, k);
    assert path[1..] == CollectionPath(i, j, k);
    assert path[0].field in HidRdescDescriptor().fields;
    DescriptorLayout(path);
  }
}
