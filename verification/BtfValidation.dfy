/**
 * The layout validator of src/btf_validation.rs: Rust field tables against a BTF
 * type graph, with a cache of type names. BTF types are trees here: a type
 * that reaches itself, which takes a pointer, is not modelled.
 */
module BtfValidation {
  import opened Options

  /** `Ref` is any type that leads on to another, such as a typedef; `Missing` is a type id without a type. */
  datatype BtfType =
    | Int(size: nat)
    | Enum(size: nat)
    | Struct(size: nat, members: seq<Member>)
    | Union(size: nat, members: seq<Member>)
    | Array(element: BtfType, capacity: nat)
    | Ref(target: BtfType)
    | Unsupported
    | Missing

  /** A member at a bit offset; a union's members all sit at 0. */
  datatype Member = Member(name: Option<string>, bitOffset: nat, ty: BtfType)

  /** `ValidationField`: what Rust says about one field */
  datatype Field = Field(name: string, offset: nat, size: nat, typeName: string)

  /** A registered Rust type, a `btf_validated_struct!` or a `btf_validated_union!` */
  datatype Composite = Composite(isStruct: bool, size: nat, fields: seq<Field>)

  /** BTF_VALIDATORS */
  type Registry = map<string, Composite>

  const ANONYMOUS_FIELD_PREFIX := "anon_"

  const PRIMITIVES: set<string> := {
    "u8", "u16", "u32", "u64", "i8", "i16", "i32", "i64", "usize", "isize", "bool", "char", "f32", "f64"
  }

  /** `resolve_btf_type`; a reference to nothing resolves to itself. */
  function Resolve(t: BtfType): (r: BtfType)
    ensures r == t || r < t
    ensures r.Ref? ==> r.target == Missing
  {
    match t
    case Ref(Missing) => t
    case Ref(target) => Resolve(target)
    case _ => t
  }

  /** Following references from t leads to r. */
  predicate LeadsTo(t: BtfType, r: BtfType) {
    t == r || (t.Ref? && LeadsTo(t.target, r))
  }

  /** Nothing to follow: no reference, or one to nothing */
  predicate IsEnd(t: BtfType) {
    t.Ref? ==> t.target == Missing
  }

  /** Resolving is following references to the end, and only nothing itself ends in nothing. */
  lemma {:induction false} ResolveIff(t: BtfType, r: BtfType)
    ensures Resolve(t) == r <==> LeadsTo(t, r) && IsEnd(r) && (r == Missing ==> t == Missing)
  {
    if t.Ref? && t.target != Missing { ResolveIff(t.target, r); }
  }

  /** `get_btf_type_size` of a resolved type */
  function SizeOf(t: BtfType): Option<nat> {
    match t
    case Int(size) => Some(size)
    case Enum(size) => Some(size)
    case Struct(size, _) => Some(size)
    case Union(size, _) => Some(size)
    case Array(element, capacity) =>
      var n := SizeOf(Resolve(element));
      if n.Some? then Some(n.value * capacity) else None
    case _ => None
  }

  // ----- Type names -----

  function TrimStart(s: string, c: char -> bool): string {
    if s != [] && c(s[0]) then TrimStart(s[1..], c) else s
  }

  function TrimEnd(s: string, c: char -> bool): string {
    if s != [] && c(s[|s| - 1]) then TrimEnd(s[..|s| - 1], c) else s
  }

  function UpTo(s: string, c: char): string {
    if s == [] || s[0] == c then [] else [s[0]] + UpTo(s[1..], c)
  }

  predicate IsSpace(c: char) {
    c == ' ' || '\t' <= c <= '\r'
  }

  predicate IsBracket(c: char) {
    c == '['
  }

  /** The name without array syntax: "[Foo; 32]" is about Foo. */
  function BaseType(typeName: string): string {
    TrimEnd(TrimStart(UpTo(TrimStart(typeName, IsBracket), ';'), IsSpace), IsSpace)
  }

  // ----- One composite type -----

  predicate IsAnonymous(field: Field) {
    ANONYMOUS_FIELD_PREFIX <= field.name
  }

  predicate Matches(isStruct: bool, m: Member, field: Field) {
    if IsAnonymous(field) then m.name == None && (isStruct ==> m.bitOffset / 8 == field.offset)
    else m.name == Some(field.name)
  }

  /** The first member a field is compared with */
  function FindMember(isStruct: bool, members: seq<Member>, field: Field): (r: Option<Member>)
    ensures r.Some? ==> r.value in members && Matches(isStruct, r.value, field)
    ensures r == None ==> forall m :: m in members ==> !Matches(isStruct, m, field)
  {
    if members == [] then None
    else if Matches(isStruct, members[0], field) then Some(members[0])
    else FindMember(isStruct, members[1..], field)
  }

  /** Member i matches the field and none before it does. */
  predicate FirstMatch(isStruct: bool, members: seq<Member>, field: Field, i: nat) {
    && i < |members| && Matches(isStruct, members[i], field)
    && forall j :: 0 <= j < i ==> !Matches(isStruct, members[j], field)
  }

  /** The member a field finds is the first that matches. */
  lemma {:induction false} FoundAt(isStruct: bool, members: seq<Member>, field: Field, i: nat)
    requires FirstMatch(isStruct, members, field, i)
    ensures FindMember(isStruct, members, field) == Some(members[i])
  {
    if i > 0 { FoundAt(isStruct, members[1..], field, i - 1); }
  }

  lemma {:induction false} FirstOfMany(isStruct: bool, members: seq<Member>, field: Field) returns (i: nat)
    requires FindMember(isStruct, members, field).Some?
    ensures FirstMatch(isStruct, members, field, i) && members[i] == FindMember(isStruct, members, field).value
  {
    if Matches(isStruct, members[0], field) {
      i := 0;
    } else {
      i := FirstOfMany(isStruct, members[1..], field);
      i := i + 1;
    }
  }

  /** Exactly the first match is found, and nothing is found exactly when nothing matches. */
  lemma FindMemberIff(isStruct: bool, members: seq<Member>, field: Field, m: Member)
    ensures FindMember(isStruct, members, field) == Some(m)
            <==> exists i: nat :: FirstMatch(isStruct, members, field, i) && members[i] == m
    ensures FindMember(isStruct, members, field) == None
            <==> forall other :: other in members ==> !Matches(isStruct, other, field)
  {
    if FindMember(isStruct, members, field) == Some(m) {
      var i := FirstOfMany(isStruct, members, field);
      assert FirstMatch(isStruct, members, field, i);
    }
    if i: nat :| FirstMatch(isStruct, members, field, i) && members[i] == m {
      FoundAt(isStruct, members, field, i);
    }
  }

  /** The checks a field gets before its own type is looked at */
  predicate FieldFits(isStruct: bool, m: Member, field: Field) {
    && (isStruct ==> m.bitOffset / 8 == field.offset)
    && m.ty != Missing
    && SizeOf(Resolve(m.ty)) == Some(field.size)
  }

  /** What a field's type is checked against: the element of an array, or the type itself */
  function ValidationType(resolved: BtfType): (r: BtfType)
    ensures r == resolved || r < resolved
  {
    if resolved.Array? then resolved.element else resolved
  }

  predicate NeedsValidator(registry: Registry, typeName: string) {
    BaseType(typeName) !in PRIMITIVES && BaseType(typeName) in registry
  }

  predicate IsKind(c: Composite, t: BtfType) {
    if c.isStruct then t.Struct? else t.Union?
  }

  // ----- Without the cache -----

  /** The plain recursion: a field's type, a registered type, and its fields one by one */
  predicate TypeValid(registry: Registry, t: BtfType, typeName: string)
    decreases t, 2, 0
  {
    var resolved := Resolve(t);
    var validated := ValidationType(resolved);
    validated != Missing
    && (NeedsValidator(registry, typeName) ==> CompositeValid(registry, registry[BaseType(typeName)], validated))
  }

  predicate CompositeValid(registry: Registry, c: Composite, t: BtfType)
    decreases t, 1, 0
  {
    var resolved := Resolve(t);
    IsKind(c, resolved) && resolved.size == c.size && FieldsValid(registry, c.isStruct, resolved, c.fields)
  }

  predicate FieldsValid(registry: Registry, isStruct: bool, t: BtfType, fields: seq<Field>)
    requires t.Struct? || t.Union?
    decreases t, 0, |fields|
  {
    fields == []
    || (match FindMember(isStruct, t.members, fields[0])
        case None => false
        case Some(m) =>
          && FieldFits(isStruct, m, fields[0])
          && TypeValid(registry, Resolve(m.ty), fields[0].typeName)
          && FieldsValid(registry, isStruct, t, fields[1..]))
  }

  // ----- With the cache -----

  /** The verdict, and the cache afterwards */
  datatype Checked = Checked(ok: bool, cache: set<string>)

  function CheckType(registry: Registry, t: BtfType, typeName: string, cache: set<string>): Checked
    decreases t, 2, 0
  {
    if typeName in cache then Checked(true, cache)
    else
      var resolved := Resolve(t);
      var validated := ValidationType(resolved);
      if validated == Missing then Checked(false, cache)
      else if !NeedsValidator(registry, typeName) then Checked(true, cache + {typeName})
      else
        var r := CheckComposite(registry, registry[BaseType(typeName)], validated, cache);
        if r.ok then Checked(true, r.cache + {typeName}) else r
  }

  function CheckComposite(registry: Registry, c: Composite, t: BtfType, cache: set<string>): Checked
    decreases t, 1, 0
  {
    var resolved := Resolve(t);
    if !IsKind(c, resolved) || resolved.size != c.size then Checked(false, cache)
    else CheckFields(registry, c.isStruct, resolved, c.fields, cache)
  }

  function CheckFields(registry: Registry, isStruct: bool, t: BtfType, fields: seq<Field>, cache: set<string>): Checked
    requires t.Struct? || t.Union?
    decreases t, 0, |fields|
  {
    if fields == [] then Checked(true, cache)
    else
      match FindMember(isStruct, t.members, fields[0])
      case None => Checked(false, cache)
      case Some(m) =>
        if !FieldFits(isStruct, m, fields[0]) then Checked(false, cache)
        else
          var r := CheckType(registry, Resolve(m.ty), fields[0].typeName, cache);
          if r.ok then CheckFields(registry, isStruct, t, fields[1..], r.cache) else r
  }

  class Validator {
    const registry: Registry
    var cache: set<string>

    /** `validate_btf_layout_from_type` starts from an empty cache. */
    constructor (registry: Registry)
      ensures this.registry == registry && cache == {}
    {
      this.registry := registry;
      cache := {};
    }

    /** `validate_complex_type_by_name` */
    method ValidateComplexType(t: BtfType, typeName: string) returns (ok: bool)
      modifies this`cache
      ensures Checked(ok, cache) == CheckType(registry, t, typeName, old(cache))
      decreases t, 2, 0
    {
      if typeName in cache { return true; }
      var baseType := BaseType(typeName);
      var resolved := ResolveLoop(t);
      var validationType := resolved;
      if resolved.Array? {
        if resolved.element == Missing { return false; }
        validationType := resolved.element;
      }
      if validationType == Missing { return false; }
      if baseType in PRIMITIVES {
      } else if baseType in registry {
        ok := ValidateLayout(registry[baseType], validationType);
        if !ok { return false; }
      }
      cache := cache + {typeName};
      return true;
    }

    /** `validate_btf_layout_from_type` of a struct or a union, with the first check of `validate` */
    method ValidateLayout(c: Composite, t: BtfType) returns (ok: bool)
      modifies this`cache
      ensures Checked(ok, cache) == CheckComposite(registry, c, t, old(cache))
      decreases t, 1, 0
    {
      var resolved := ResolveLoop(t);
      if !IsKind(c, resolved) { return false; }
      if resolved.size != c.size { return false; }
      ok := ValidateFields(c, resolved);
    }

    /** The loop of `validate` over the expected fields */
    method ValidateFields(c: Composite, t: BtfType) returns (ok: bool)
      requires t.Struct? || t.Union?
      modifies this`cache
      ensures Checked(ok, cache) == CheckFields(registry, c.isStruct, t, c.fields, old(cache))
      decreases t, 0, 0
    {
      for i := 0 to |c.fields|
        invariant CheckFields(registry, c.isStruct, t, c.fields[i..], cache)
               == CheckFields(registry, c.isStruct, t, c.fields, old(cache))
      {
        var field := c.fields[i];
        assert c.fields[i..][0] == field && c.fields[i..][1..] == c.fields[i + 1..];
        var member := FindMember(c.isStruct, t.members, field);
        if member.None? { return false; }
        var m := member.value;
        if c.isStruct && m.bitOffset / 8 != field.offset { return false; }
        if m.ty == Missing { return false; }
        var resolved := ResolveLoop(m.ty);
        var size := SizeOf(resolved);
        if size == None || size.value != field.size { return false; }
        ok := ValidateComplexType(resolved, field.typeName);
        if !ok { return false; }
      }
      return true;
    }

    /** `resolve_btf_type` */
    static method ResolveLoop(t: BtfType) returns (r: BtfType)
      ensures r == Resolve(t)
    {
      r := t;
      while r.Ref? && r.target != Missing
        invariant Resolve(r) == Resolve(t)
        decreases r
      {
        r := r.target;
      }
    }
  }
}
