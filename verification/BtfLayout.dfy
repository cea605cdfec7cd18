/**
 * What a successful validation means: the cache changes no verdict when type
 * names are used consistently, and every leaf of the Rust type lies at the
 * same place in the BTF type.
 */
module BtfLayout {
  import opened Bits
  import opened BtfValidation
  import opened Options

  // ----- The cache -----

  /** A field's type name with the BTF type it is checked against */
  type Pairs = set<(string, BtfType)>

  /** Every pair the plain recursion reaches below a type with that name, and the pair itself */
  function TypePairs(registry: Registry, t: BtfType, typeName: string): Pairs
    decreases t, 2, 0
  {
    var validated := ValidationType(Resolve(t));
    var below :=
      if NeedsValidator(registry, typeName)
      then CompositePairs(registry, registry[BaseType(typeName)], validated) else {};
    {(typeName, t)} + below
  }

  function CompositePairs(registry: Registry, c: Composite, t: BtfType): Pairs
    decreases t, 1, 0
  {
    var resolved := Resolve(t);
    if IsKind(c, resolved) then FieldPairs(registry, c.isStruct, resolved, c.fields) else {}
  }

  function FieldPairs(registry: Registry, isStruct: bool, t: BtfType, fields: seq<Field>): Pairs
    requires t.Struct? || t.Union?
    decreases t, 0, |fields|
  {
    if fields == [] then {}
    else
      (match FindMember(isStruct, t.members, fields[0])
       case None => {}
       case Some(m) => TypePairs(registry, Resolve(m.ty), fields[0].typeName))
      + FieldPairs(registry, isStruct, t, fields[1..])
  }

  /** A registered type's name stands for one BTF type; names nobody validates may stand for many. */
  ghost predicate Consistent(registry: Registry, pairs: Pairs) {
    forall p, q :: p in pairs && q in pairs && p.0 == q.0 && NeedsValidator(registry, p.0) ==> p.1 == q.1
  }

  /** No registered type's name is right about one of its BTF types and wrong about another. */
  ghost predicate SameVerdict(registry: Registry, pairs: Pairs) {
    forall p, q :: p in pairs && q in pairs && p.0 == q.0 && NeedsValidator(registry, p.0) ==>
      TypeValid(registry, p.1, p.0) == TypeValid(registry, q.1, q.0)
  }

  /** A cached name that needs a validator passed it for some pair. */
  ghost predicate Justified(registry: Registry, pairs: Pairs, cache: set<string>) {
    forall name :: name in cache && NeedsValidator(registry, name) ==>
      exists t :: (name, t) in pairs && TypeValid(registry, t, name)
  }

  /** The cache never turns success into failure. */
  lemma {:induction false} ValidTypePasses(registry: Registry, t: BtfType, typeName: string, cache: set<string>)
    requires TypeValid(registry, t, typeName)
    ensures CheckType(registry, t, typeName, cache).ok
    decreases t, 2, 0
  {
    if typeName !in cache && NeedsValidator(registry, typeName) {
      ValidCompositePasses(registry, registry[BaseType(typeName)], ValidationType(Resolve(t)), cache);
    }
  }

  lemma {:induction false} ValidCompositePasses(registry: Registry, c: Composite, t: BtfType, cache: set<string>)
    requires CompositeValid(registry, c, t)
    ensures CheckComposite(registry, c, t, cache).ok
    decreases t, 1, 0
  {
    ValidFieldsPass(registry, c.isStruct, Resolve(t), c.fields, cache);
  }

  lemma {:induction false} ValidFieldsPass(
    registry: Registry, isStruct: bool, t: BtfType, fields: seq<Field>, cache: set<string>)
    requires (t.Struct? || t.Union?) && FieldsValid(registry, isStruct, t, fields)
    ensures CheckFields(registry, isStruct, t, fields, cache).ok
    decreases t, 0, |fields|
  {
    if fields != [] {
      var m := FindMember(isStruct, t.members, fields[0]).value;
      ValidTypePasses(registry, Resolve(m.ty), fields[0].typeName, cache);
      ValidFieldsPass(registry, isStruct, t, fields[1..],
                      CheckType(registry, Resolve(m.ty), fields[0].typeName, cache).cache);
    }
  }

  /** A type with a size is no array of a missing type. */
  lemma SizedIsPresent(t: BtfType)
    requires SizeOf(Resolve(t)).Some?
    ensures ValidationType(Resolve(t)) != Missing
  {
    assert SizeOf(Missing) == None;
  }

  /** When names have one verdict each, a check that passes with a justified cache passes without one. */
  lemma {:induction false} PassingTypeIsValid(
    registry: Registry, pairs: Pairs, t: BtfType, typeName: string, cache: set<string>)
    requires SameVerdict(registry, pairs) && Justified(registry, pairs, cache)
    requires TypePairs(registry, t, typeName) <= pairs
    requires SizeOf(Resolve(t)).Some? && CheckType(registry, t, typeName, cache).ok
    ensures TypeValid(registry, t, typeName)
    ensures Justified(registry, pairs, CheckType(registry, t, typeName, cache).cache)
    decreases t, 2, 0
  {
    assert (typeName, t) in pairs;
    SizedIsPresent(t);
    if typeName !in cache && NeedsValidator(registry, typeName) {
      PassingCompositeIsValid(registry, pairs, registry[BaseType(typeName)], ValidationType(Resolve(t)), cache);
    }
  }

  lemma {:induction false} PassingCompositeIsValid(
    registry: Registry, pairs: Pairs, c: Composite, t: BtfType, cache: set<string>)
    requires SameVerdict(registry, pairs) && Justified(registry, pairs, cache)
    requires CompositePairs(registry, c, t) <= pairs
    requires CheckComposite(registry, c, t, cache).ok
    ensures CompositeValid(registry, c, t)
    ensures Justified(registry, pairs, CheckComposite(registry, c, t, cache).cache)
    decreases t, 1, 0
  {
    PassingFieldsAreValid(registry, pairs, c.isStruct, Resolve(t), c.fields, cache);
  }

  lemma {:induction false} PassingFieldsAreValid(
    registry: Registry, pairs: Pairs, isStruct: bool, t: BtfType, fields: seq<Field>, cache: set<string>)
    requires SameVerdict(registry, pairs) && Justified(registry, pairs, cache)
    requires (t.Struct? || t.Union?) && FieldPairs(registry, isStruct, t, fields) <= pairs
    requires CheckFields(registry, isStruct, t, fields, cache).ok
    ensures FieldsValid(registry, isStruct, t, fields)
    ensures Justified(registry, pairs, CheckFields(registry, isStruct, t, fields, cache).cache)
    decreases t, 0, |fields|
  {
    hide Justified, SameVerdict;
    if fields != [] {
      var m := FindMember(isStruct, t.members, fields[0]).value;
      ResolveTwice(m.ty);
      PassingTypeIsValid(registry, pairs, Resolve(m.ty), fields[0].typeName, cache);
      PassingFieldsAreValid(registry, pairs, isStruct, t, fields[1..],
                            CheckType(registry, Resolve(m.ty), fields[0].typeName, cache).cache);
    }
  }

  // ----- A valid type is valid at every pair -----

  lemma {:induction false} ValidTypePairs(registry: Registry, t: BtfType, typeName: string, p: (string, BtfType))
    requires TypeValid(registry, t, typeName) && p in TypePairs(registry, t, typeName)
    ensures TypeValid(registry, p.1, p.0)
    decreases t, 2, 0
  {
    if p != (typeName, t) {
      ValidCompositePairs(registry, registry[BaseType(typeName)], ValidationType(Resolve(t)), p);
    }
  }

  lemma {:induction false} ValidCompositePairs(registry: Registry, c: Composite, t: BtfType, p: (string, BtfType))
    requires CompositeValid(registry, c, t) && p in CompositePairs(registry, c, t)
    ensures TypeValid(registry, p.1, p.0)
    decreases t, 1, 0
  {
    ValidFieldPairs(registry, c.isStruct, Resolve(t), c.fields, p);
  }

  lemma {:induction false} ValidFieldPairs(
    registry: Registry, isStruct: bool, t: BtfType, fields: seq<Field>, p: (string, BtfType))
    requires (t.Struct? || t.Union?) && FieldsValid(registry, isStruct, t, fields)
    requires p in FieldPairs(registry, isStruct, t, fields)
    ensures TypeValid(registry, p.1, p.0)
    decreases t, 0, |fields|
  {
    var m := FindMember(isStruct, t.members, fields[0]).value;
    if p in TypePairs(registry, Resolve(m.ty), fields[0].typeName) {
      ValidTypePairs(registry, Resolve(m.ty), fields[0].typeName, p);
    } else {
      ValidFieldPairs(registry, isStruct, t, fields[1..], p);
    }
  }

  /** The verdict of a whole validation, from the empty cache */
  predicate Validates(registry: Registry, c: Composite, t: BtfType) {
    CheckComposite(registry, c, t, {}).ok
  }

  /**
   * The exact worth of the cached verdict: the plain recursion accepts what the
   * cached validator accepts if and only if no registered name is valid at one
   * of its BTF types and invalid at another. What the plain recursion accepts
   * always passes.
   */
  lemma CacheExact(registry: Registry, c: Composite, t: BtfType)
    ensures CompositeValid(registry, c, t)
       <==> Validates(registry, c, t) && SameVerdict(registry, CompositePairs(registry, c, t))
  {
    hide TypeValid, CompositeValid;
    var pairs := CompositePairs(registry, c, t);
    if CompositeValid(registry, c, t) {
      ValidCompositePasses(registry, c, t, {});
      forall p | p in pairs ensures TypeValid(registry, p.1, p.0) {
        ValidCompositePairs(registry, c, t, p);
      }
    }
    if Validates(registry, c, t) && SameVerdict(registry, pairs) {
      PassingCompositeIsValid(registry, pairs, c, t, {});
    }
  }

  /** In particular the two agree when each registered name means one BTF type. */
  lemma CacheIsSound(registry: Registry, c: Composite, t: BtfType)
    requires Consistent(registry, CompositePairs(registry, c, t))
    ensures Validates(registry, c, t) <==> CompositeValid(registry, c, t)
  {
    CacheExact(registry, c, t);
  }

  /** A registered type of one `u32` */
  function OneWord(): Composite {
    Composite(true, 4, [Field("a", 0, 4, "u32")])
  }

  function Word(member: string): BtfType {
    Struct(4, [Member(Some(member), 0, Int(4))])
  }

  /** A BTF structure with two members of four bytes */
  function Two(f: BtfType, g: BtfType): BtfType {
    Struct(8, [Member(Some("f"), 0, f), Member(Some("g"), 32, g)])
  }

  function TwoFoos(): Composite {
    Composite(true, 8, [Field("f", 0, 4, "Foo"), Field("g", 4, 4, "Foo")])
  }

  /** Only a word whose member is called `a` is a `Foo`. */
  lemma WordValid(member: string)
    ensures TypeValid(map["Foo" := OneWord()], Word(member), "Foo") <==> member == "a"
  {
    hide BaseType, TrimStart, TrimEnd, UpTo;
    var registry := map["Foo" := OneWord()];
    FooIsItself();
    WordNeedsNothing(registry);
    var members := Word(member).members;
    var a := OneWord().fields[0];
    assert OneWord().fields[1..] == [] && members[1..] == [];
    assert FindMember(true, members, a) == if member == "a" then Some(members[0]) else None;
    assert FieldsValid(registry, true, Word(member), []);
    assert TypeValid(registry, Int(4), "u32");
    assert FieldsValid(registry, true, Word(member), [a]) <==> member == "a";
    assert OneWord().fields == [a];
    assert CompositeValid(registry, OneWord(), Word(member)) <==> member == "a";
  }

  lemma TwoMembers(f: BtfType, g: BtfType)
    ensures FindMember(true, Two(f, g).members, Field("f", 0, 4, "Foo")) == Some(Member(Some("f"), 0, f))
    ensures FindMember(true, Two(f, g).members, Field("g", 4, 4, "Foo")) == Some(Member(Some("g"), 32, g))
  {
    var members := Two(f, g).members;
    assert members[1..][0] == members[1];
  }

  /**
   * Without consistency the cache hides a mismatch: once the first `Foo` is
   * validated, a second one passes although its BTF type has no member `a`.
   */
  lemma CacheHidesMismatch()
    ensures var registry, t := map["Foo" := OneWord()], Two(Word("a"), Word("b"));
            && Validates(registry, TwoFoos(), t) && !CompositeValid(registry, TwoFoos(), t)
            && !Consistent(registry, CompositePairs(registry, TwoFoos(), t))
  {
    hide TypeValid, CheckType, FindMember;
    var registry, t := map["Foo" := OneWord()], Two(Word("a"), Word("b"));
    var f, g := TwoFoos().fields[0], TwoFoos().fields[1];
    WordValid("a");
    WordValid("b");
    TwoMembers(Word("a"), Word("b"));
    ValidTypePasses(registry, Word("a"), "Foo", {});
    var cache := CheckType(registry, Word("a"), "Foo", {}).cache;
    PassingIsCached(registry, Word("a"), "Foo");
    PassesFromCache(registry, Word("b"), "Foo", cache);
    assert TwoFoos().fields[1..] == [g] && [g][1..] == [];
    assert CheckFields(registry, true, t, [], cache).ok;
    assert CheckFields(registry, true, t, [g], cache).ok;
    assert CheckFields(registry, true, t, [f, g], {}).ok;
    assert !FieldsValid(registry, true, t, [g]);
    assert !FieldsValid(registry, true, t, [f, g]);
    if Consistent(registry, CompositePairs(registry, TwoFoos(), t)) {
      CacheIsSound(registry, TwoFoos(), t);
    }
  }

  lemma PassingIsCached(registry: Registry, t: BtfType, typeName: string)
    ensures CheckType(registry, t, typeName, {}).ok ==> typeName in CheckType(registry, t, typeName, {}).cache
  {}

  lemma PassesFromCache(registry: Registry, t: BtfType, typeName: string, cache: set<string>)
    requires typeName in cache
    ensures CheckType(registry, t, typeName, cache) == Checked(true, cache)
  {}

  // ----- Type names -----

  /** A type name without array syntax or blanks */
  predicate Plain(name: string) {
    name != "" && forall i :: 0 <= i < |name| ==> !IsBracket(name[i]) && name[i] != ';' && !IsSpace(name[i])
  }

  lemma {:induction false} UpToEnd(name: string, rest: string)
    requires forall i :: 0 <= i < |name| ==> name[i] != ';'
    requires rest == "" || rest[0] == ';'
    ensures UpTo(name + rest, ';') == name
  {
    if name == "" {
      assert name + rest == rest;
    } else {
      assert (name + rest)[1..] == name[1..] + rest;
      UpToEnd(name[1..], rest);
    }
  }

  /** A plain name is its own base type, and the base type of its arrays. */
  lemma PlainBaseType(name: string, count: string)
    requires Plain(name)
    ensures BaseType(name) == name && BaseType("[" + name + ";" + count) == name
  {
    UpToEnd(name, "");
    assert name + "" == name;
    var text := "[" + name + ";" + count;
    assert text[1..] == name + (";" + count);
    UpToEnd(name, ";" + count);
    assert TrimStart(text, IsBracket) == TrimStart(text[1..], IsBracket) == text[1..];
  }

  lemma FooIsItself()
    ensures BaseType("Foo") == "Foo"
  {
    PlainBaseType("Foo", "");
  }

  lemma WordNeedsNothing(registry: Registry)
    ensures !NeedsValidator(registry, "u32")
  {
    PlainBaseType("u32", "");
  }

  // ----- Layout -----

  /** One step down: element `index` of a field's type, then one of its fields */
  datatype Step = Step(index: nat, field: Field)

  /** Where a leaf lies: a Rust leaf in bytes, a BTF leaf in bits, its size in bytes */
  datatype Place = Place(offset: nat, size: nat)

  /** The offset of an array element */
  function Times(index: nat, size: nat): nat {
    index * size
  }

  /** The table of a union puts every field at 0. */
  function FieldOffset(c: Composite, field: Field): nat {
    if c.isStruct then field.offset else 0
  }

  /**
   * The leaf of a Rust value of some type name and size at the end of a path. A
   * registered type is `size / c.size` elements in a row; anything else is one leaf.
   */
  function RustLeaf(registry: Registry, typeName: string, size: nat, path: seq<Step>): Option<Place>
    decreases |path|
  {
    if !NeedsValidator(registry, typeName) then if path == [] then Some(Place(0, size)) else None
    else if path == [] then None
    else
      var c, step := registry[BaseType(typeName)], path[0];
      if step.field !in c.fields || c.size == 0 || step.index >= size / c.size then None
      else
        match RustLeaf(registry, step.field.typeName, step.field.size, path[1..])
        case None => None
        case Some(p) => Some(Place(Times(step.index, c.size) + FieldOffset(c, step.field) + p.offset, p.size))
  }

  /** The element type a step goes through; a type that is no array is its own only element. */
  function ElementAt(t: BtfType, index: nat): Option<BtfType> {
    var r := Resolve(t);
    if index >= (if r.Array? then r.capacity else 1) then None else Some(Resolve(ValidationType(r)))
  }

  /** The member a step leads to */
  function StepTo(t: BtfType, step: Step): Option<Member> {
    match ElementAt(t, step.index)
    case Some(Struct(_, members)) => FindMember(true, members, step.field)
    case Some(Union(_, members)) => FindMember(false, members, step.field)
    case _ => None
  }

  /** Its bit offset within t */
  function StepBits(t: BtfType, step: Step): nat
    requires StepTo(t, step).Some?
  {
    var element := ElementAt(t, step.index).value;
    8 * Times(step.index, element.size) + if element.Struct? then StepTo(t, step).value.bitOffset else 0
  }

  /** The part of a BTF type at the end of a path */
  function BtfLeaf(t: BtfType, path: seq<Step>): Option<Place>
    decreases |path|
  {
    if path == [] then
      match SizeOf(Resolve(t))
      case None => None
      case Some(size) => Some(Place(0, size))
    else if StepTo(t, path[0]) == None then None
    else
      match BtfLeaf(StepTo(t, path[0]).value.ty, path[1..])
      case None => None
      case Some(p) => Some(Place(StepBits(t, path[0]) + p.offset, p.size))
  }

  /** The bits by which struct members on the path miss a byte boundary; the validator divides them away. */
  function Slack(t: BtfType, path: seq<Step>): nat
    decreases |path|
  {
    if path == [] || StepTo(t, path[0]) == None then 0
    else
      var m := StepTo(t, path[0]).value;
      (if ElementAt(t, path[0].index).value.Struct? then m.bitOffset % 8 else 0) + Slack(m.ty, path[1..])
  }

  lemma {:induction false} ResolveTwice(t: BtfType)
    ensures Resolve(Resolve(t)) == Resolve(t)
  {
    if t.Ref? && t.target != Missing { ResolveTwice(t.target); }
  }

  /** Array element counts agree although they are never compared: sizes and element sizes do. */
  lemma CountsAgree(registry: Registry, t: BtfType, typeName: string, size: nat)
    requires TypeValid(registry, t, typeName) && NeedsValidator(registry, typeName)
    requires SizeOf(Resolve(t)) == Some(size) && registry[BaseType(typeName)].size > 0
    ensures var c, r := registry[BaseType(typeName)], Resolve(t);
            && size == (if r.Array? then r.capacity else 1) * c.size
            && size / c.size == if r.Array? then r.capacity else 1
  {
    var c, r := registry[BaseType(typeName)], Resolve(t);
    ResolveTwice(t);
    if r.Array? {
      assert SizeOf(Resolve(r.element)) == Some(c.size);
      Quotient(r.capacity, c.size);
      assert c.size * r.capacity == r.capacity * c.size;
    } else {
      Quotient(1, c.size);
    }
  }

  lemma Cancel(a: nat, b: nat, d: nat)
    requires d > 0
    ensures a * d == b * d <==> a == b
  {
    MulGap(a, b, d);
    MulGap(b, a, d);
  }

  /** Every field the cached validator passed has a member that fits it. */
  lemma {:induction false} PassedFieldFits(
    registry: Registry, isStruct: bool, t: BtfType, fields: seq<Field>, cache: set<string>, field: Field)
    requires (t.Struct? || t.Union?) && CheckFields(registry, isStruct, t, fields, cache).ok && field in fields
    ensures var m := FindMember(isStruct, t.members, field); m.Some? && FieldFits(isStruct, m.value, field)
    decreases |fields|
  {
    if fields[0] != field {
      var m := FindMember(isStruct, t.members, fields[0]).value;
      PassedFieldFits(registry, isStruct, t, fields[1..],
                      CheckType(registry, Resolve(m.ty), fields[0].typeName, cache).cache, field);
    }
  }

  /**
   * A field of `count` Rust elements of some size that passes validation, of any
   * element type: a BTF array in its place has as many elements if and only if
   * they have that size. Nothing compares either for types nobody validates.
   */
  lemma CountsAgreeIff(registry: Registry, c: Composite, t: BtfType, field: Field, count: nat, elementSize: nat)
    requires Validates(registry, c, t) && field in c.fields
    requires field.size == count * elementSize && count > 0 && elementSize > 0
    ensures var m := FindMember(c.isStruct, Resolve(t).members, field);
            && m.Some?
            && var r := Resolve(m.value.ty);
               r.Array? ==> (r.capacity == count <==> SizeOf(Resolve(r.element)) == Some(elementSize))
  {
    PassedFieldFits(registry, c.isStruct, Resolve(t), c.fields, {}, field);
    var r := Resolve(FindMember(c.isStruct, Resolve(t).members, field).value.ty);
    if r.Array? {
      var n := SizeOf(Resolve(r.element)).value;
      assert n * r.capacity == r.capacity * n == count * elementSize;
      assert r.capacity * elementSize == elementSize * r.capacity && count * elementSize == elementSize * count;
      Cancel(r.capacity, count, elementSize);
      Cancel(n, elementSize, count);
    }
  }

  /** For primitive elements they can differ: four `u16` pass for eight bytes. */
  lemma PrimitiveCountsDiffer()
    ensures var c := Composite(true, 8, [Field("x", 0, 8, "[u16; 4]")]);
            var t := Struct(8, [Member(Some("x"), 0, Array(Int(1), 8))]);
            && Validates(map[], c, t) && CompositeValid(map[], c, t)
            && FindMember(true, t.members, c.fields[0]).value.ty.capacity != 4
  {
    var c := Composite(true, 8, [Field("x", 0, 8, "[u16; 4]")]);
    var t := Struct(8, [Member(Some("x"), 0, Array(Int(1), 8))]);
    assert c.fields[1..] == [];
    assert SizeOf(Array(Int(1), 8)) == Some(8);
    assert FindMember(true, t.members, c.fields[0]) == Some(t.members[0]);
    assert TypeValid(map[], Array(Int(1), 8), "[u16; 4]");
    assert FieldsValid(map[], true, t, []);
    assert FieldsValid(map[], true, t, c.fields);
    ValidCompositePasses(map[], c, t, {});
  }

  lemma Quotient(n: nat, d: nat)
    requires d > 0
    ensures n * d / d == n
  {
    QuotientUnique(n * d, d, n, 0);
  }

  /** A field of a valid composite has a member that fits and is itself valid. */
  lemma {:induction false} FieldIsValid(
    registry: Registry, isStruct: bool, t: BtfType, fields: seq<Field>, field: Field)
    requires (t.Struct? || t.Union?) && FieldsValid(registry, isStruct, t, fields) && field in fields
    ensures var m := FindMember(isStruct, t.members, field);
            m.Some? && FieldFits(isStruct, m.value, field) && TypeValid(registry, Resolve(m.value.ty), field.typeName)
    decreases |fields|
  {
    if fields[0] != field { FieldIsValid(registry, isStruct, t, fields[1..], field); }
  }

  /** References do not move parts. */
  lemma {:induction false} ResolvedLeaf(t: BtfType, path: seq<Step>)
    ensures BtfLeaf(Resolve(t), path) == BtfLeaf(t, path) && Slack(Resolve(t), path) == Slack(t, path)
  {
    ResolveTwice(t);
    if path != [] {
      assert ElementAt(Resolve(t), path[0].index) == ElementAt(t, path[0].index);
    }
  }

  /** One step: a valid element holds the step's field where Rust has it. */
  lemma StepAgrees(registry: Registry, c: Composite, t: BtfType, step: Step)
    requires step.field in c.fields
    requires var e := ElementAt(t, step.index); e.Some? && CompositeValid(registry, c, e.value)
    ensures var m := StepTo(t, step);
            && m.Some? && FieldFits(c.isStruct, m.value, step.field)
            && TypeValid(registry, Resolve(m.value.ty), step.field.typeName)
            && StepBits(t, step)
               == 8 * Times(step.index, c.size) + (if c.isStruct then m.value.bitOffset else 0)
            && ElementAt(t, step.index).value.Struct? == c.isStruct
  {
    var e := ElementAt(t, step.index).value;
    ResolveTwice(ValidationType(Resolve(t)));
    FieldIsValid(registry, c.isStruct, e, c.fields, step.field);
  }

  /**
   * Every leaf of a validated type is in the BTF type with the same size, and
   * at the same place up to the bits its members miss byte boundaries by.
   */
  lemma {:induction false} LeafAgrees(registry: Registry, t: BtfType, typeName: string, size: nat, path: seq<Step>)
    requires TypeValid(registry, t, typeName) && SizeOf(Resolve(t)) == Some(size)
    requires RustLeaf(registry, typeName, size, path).Some?
    ensures var p := RustLeaf(registry, typeName, size, path).value;
            BtfLeaf(t, path) == Some(Place(8 * p.offset + Slack(t, path), p.size))
    decreases |path|
  {
    if NeedsValidator(registry, typeName) {
      var c, step := registry[BaseType(typeName)], path[0];
      CountsAgree(registry, t, typeName, size);
      ElementIsValid(registry, c, t);
      StepAgrees(registry, c, t, step);
      FieldLeafAgrees(registry, c, t, path);
    }
  }

  lemma ElementIsValid(registry: Registry, c: Composite, t: BtfType)
    requires CompositeValid(registry, c, ValidationType(Resolve(t)))
    ensures CompositeValid(registry, c, Resolve(ValidationType(Resolve(t))))
  {
    ResolveTwice(ValidationType(Resolve(t)));
  }

  /** The same from one step down */
  lemma {:induction false} FieldLeafAgrees(registry: Registry, c: Composite, t: BtfType, path: seq<Step>)
    requires path != [] && path[0].field in c.fields
    requires var e := ElementAt(t, path[0].index); e.Some? && CompositeValid(registry, c, e.value)
    requires RustLeaf(registry, path[0].field.typeName, path[0].field.size, path[1..]).Some?
    ensures var step, p := path[0], RustLeaf(registry, path[0].field.typeName, path[0].field.size, path[1..]).value;
            BtfLeaf(t, path)
            == Some(Place(8 * (Times(step.index, c.size) + FieldOffset(c, step.field) + p.offset)
                          + Slack(t, path), p.size))
    decreases |path|, 0
  {
    hide Times, TypeValid, CompositeValid, FindMember;
    var step := path[0];
    StepAgrees(registry, c, t, step);
    var m := StepTo(t, step).value;
    ResolveTwice(m.ty);
    LeafAgrees(registry, Resolve(m.ty), step.field.typeName, step.field.size, path[1..]);
    ResolvedLeaf(m.ty, path[1..]);
    assert 8 * (m.bitOffset / 8) + m.bitOffset % 8 == m.bitOffset;
  }

  /**
   * After a validation that passes from the empty cache, with consistent names:
   * every leaf below every field lies in the BTF type at the Rust byte offset,
   * through nested structs, unions and array elements, with the Rust size. The
   * bit offsets are equal exactly when no member on the way is a bit field off
   * a byte boundary.
   */
  lemma {:induction false} ValidatedLayout(registry: Registry, c: Composite, t: BtfType, path: seq<Step>)
    requires Validates(registry, c, t) && Consistent(registry, CompositePairs(registry, c, t))
    requires path != [] && path[0].index == 0 && path[0].field in c.fields
    requires RustLeaf(registry, path[0].field.typeName, path[0].field.size, path[1..]).Some?
    ensures var p := RustLeaf(registry, path[0].field.typeName, path[0].field.size, path[1..]).value;
            var leaf := BtfLeaf(t, path);
            && leaf.Some? && leaf.value.size == p.size
            && leaf.value.offset == 8 * (FieldOffset(c, path[0].field) + p.offset) + Slack(t, path)
            && (leaf.value.offset == 8 * (FieldOffset(c, path[0].field) + p.offset) <==> Slack(t, path) == 0)
  {
    CacheIsSound(registry, c, t);
    ResolveTwice(t);
    assert ElementAt(t, 0) == Some(Resolve(t));
    FieldLeafAgrees(registry, c, t, path);
  }

  // ----- Without slack -----

  /** No member of a structure is off a byte boundary. */
  predicate OnBytes(t: BtfType) {
    t.Struct? ==> forall i :: 0 <= i < |t.members| ==> t.members[i].bitOffset % 8 == 0
  }

  /** None of a structure that a registered name stands for */
  ghost predicate PairsOnBytes(registry: Registry, pairs: Pairs) {
    forall p :: p in pairs && NeedsValidator(registry, p.0) ==> OnBytes(Resolve(ValidationType(Resolve(p.1))))
  }

  lemma {:induction false} FieldPairsHold(
    registry: Registry, isStruct: bool, t: BtfType, fields: seq<Field>, field: Field)
    requires (t.Struct? || t.Union?) && field in fields && FindMember(isStruct, t.members, field).Some?
    ensures TypePairs(registry, Resolve(FindMember(isStruct, t.members, field).value.ty), field.typeName)
         <= FieldPairs(registry, isStruct, t, fields)
    decreases |fields|
  {
    if fields[0] != field { FieldPairsHold(registry, isStruct, t, fields[1..], field); }
  }

  lemma {:induction false} LeafOnBytes(
    registry: Registry, pairs: Pairs, t: BtfType, typeName: string, size: nat, path: seq<Step>)
    requires PairsOnBytes(registry, pairs) && TypePairs(registry, t, typeName) <= pairs
    requires TypeValid(registry, t, typeName) && SizeOf(Resolve(t)) == Some(size)
    requires RustLeaf(registry, typeName, size, path).Some?
    ensures Slack(t, path) == 0
    decreases |path|
  {
    if NeedsValidator(registry, typeName) {
      var c := registry[BaseType(typeName)];
      assert (typeName, t) in pairs;
      CountsAgree(registry, t, typeName, size);
      ElementIsValid(registry, c, t);
      ResolveTwice(ValidationType(Resolve(t)));
      FieldLeafOnBytes(registry, pairs, c, t, path);
    }
  }

  /** The same from one step down */
  lemma {:induction false} FieldLeafOnBytes(
    registry: Registry, pairs: Pairs, c: Composite, t: BtfType, path: seq<Step>)
    requires path != [] && path[0].field in c.fields && PairsOnBytes(registry, pairs)
    requires var e := ElementAt(t, path[0].index);
             e.Some? && OnBytes(e.value) && CompositeValid(registry, c, e.value)
             && CompositePairs(registry, c, e.value) <= pairs
    requires RustLeaf(registry, path[0].field.typeName, path[0].field.size, path[1..]).Some?
    ensures Slack(t, path) == 0
    decreases |path|, 0
  {
    hide PairsOnBytes, TypeValid, CompositeValid, RustLeaf;
    var e, step := ElementAt(t, path[0].index).value, path[0];
    StepAgrees(registry, c, t, step);
    ElementIsResolved(t, step.index);
    KindOfValid(registry, c, e);
    var m := StepTo(t, step).value;
    FieldPairsHold(registry, c.isStruct, e, c.fields, step.field);
    ResolveTwice(m.ty);
    LeafOnBytes(registry, pairs, Resolve(m.ty), step.field.typeName, step.field.size, path[1..]);
    ResolvedLeaf(m.ty, path[1..]);
  }

  lemma ElementIsResolved(t: BtfType, index: nat)
    requires ElementAt(t, index).Some?
    ensures Resolve(ElementAt(t, index).value) == ElementAt(t, index).value
  {
    ResolveTwice(ValidationType(Resolve(t)));
  }

  lemma KindOfValid(registry: Registry, c: Composite, e: BtfType)
    requires CompositeValid(registry, c, e) && Resolve(e) == e
    ensures IsKind(c, e)
  {}

  /**
   * When the members of every registered structure begin on bytes, each leaf of a
   * valid type lies at exactly the Rust offset.
   */
  lemma {:induction false} ExactLayout(registry: Registry, c: Composite, t: BtfType, path: seq<Step>)
    requires CompositeValid(registry, c, t) && Resolve(t) == t && !t.Array? && OnBytes(t)
    requires PairsOnBytes(registry, CompositePairs(registry, c, t))
    requires path != [] && path[0].index == 0 && path[0].field in c.fields
    requires RustLeaf(registry, path[0].field.typeName, path[0].field.size, path[1..]).Some?
    ensures var p := RustLeaf(registry, path[0].field.typeName, path[0].field.size, path[1..]).value;
            BtfLeaf(t, path) == Some(Place(8 * (FieldOffset(c, path[0].field) + p.offset), p.size))
  {
    hide RustLeaf, BtfLeaf, Slack, CompositePairs, CompositeValid, PairsOnBytes;
    assert ElementAt(t, 0) == Some(t);
    FieldLeafAgrees(registry, c, t, path);
    FieldLeafOnBytes(registry, CompositePairs(registry, c, t), c, t, path);
  }

  /** A bit field starting inside the byte Rust names passes: only whole bytes are compared. */
  lemma BitFieldPasses()
    ensures var c := Composite(true, 1, [Field("flag", 0, 1, "u8")]);
            var t := Struct(1, [Member(Some("flag"), 3, Int(1))]);
            Validates(map[], c, t) && BtfLeaf(t, [Step(0, c.fields[0])]) == Some(Place(3, 1))
  {
    var c := Composite(true, 1, [Field("flag", 0, 1, "u8")]);
    var t := Struct(1, [Member(Some("flag"), 3, Int(1))]);
    assert FindMember(true, t.members, c.fields[0]) == Some(t.members[0]);
    assert c.fields[1..] == [];
    assert CheckFields(map[], true, t, [], CheckType(map[], Int(1), "u8", {}).cache).ok;
    assert StepTo(t, Step(0, c.fields[0])) == Some(t.members[0]);
    assert [Step(0, c.fields[0])][1..] == [];
    assert BtfLeaf(Int(1), []) == Some(Place(0, 1));
  }
}
