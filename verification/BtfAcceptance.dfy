/**
 * What the validator of src/btf_validation.rs accepts, in terms of type names,
 * members and sizes.
 */
module BtfAcceptance {
  import opened BtfValidation
  import BtfLayout
  import opened Options

  // ----- Names -----

  predicate AllBrackets(s: string) {
    forall i :: 0 <= i < |s| ==> s[i] == '['
  }

  predicate AllBlanks(s: string) {
    forall i :: 0 <= i < |s| ==> s[i] == ' ' || 9 <= s[i] as int <= 13
  }

  /** A name as it is between brackets, blanks and the semicolon of an array */
  predicate IsTrimmed(name: string) {
    && name != "" && name[0] != '[' && !AllBlanks([name[0]]) && !AllBlanks([name[|name| - 1]])
    && forall i :: 0 <= i < |name| ==> name[i] != ';'
  }

  lemma {:induction false} TrimStartOf(prefix: string, rest: string, c: char -> bool)
    requires forall i :: 0 <= i < |prefix| ==> c(prefix[i])
    requires rest == "" || !c(rest[0])
    ensures TrimStart(prefix + rest, c) == rest
    decreases |prefix|
  {
    if prefix == "" {
      assert prefix + rest == rest;
    } else {
      assert (prefix + rest)[1..] == prefix[1..] + rest;
      TrimStartOf(prefix[1..], rest, c);
    }
  }

  lemma {:induction false} TrimEndOf(name: string, suffix: string, c: char -> bool)
    requires forall i :: 0 <= i < |suffix| ==> c(suffix[i])
    requires name == "" || !c(name[|name| - 1])
    ensures TrimEnd(name + suffix, c) == name
    decreases |suffix|
  {
    if suffix == "" {
      assert name + suffix == name;
    } else {
      var k := |suffix| - 1;
      assert (name + suffix)[..|name + suffix| - 1] == name + suffix[..k];
      TrimEndOf(name, suffix[..k], c);
    }
  }

  /** The type a name is about: without opening brackets, surrounding blanks and what follows a semicolon */
  lemma BaseTypeOf(brackets: string, left: string, name: string, right: string, count: string)
    requires AllBrackets(brackets) && AllBlanks(left) && AllBlanks(right) && IsTrimmed(name)
    requires count == "" || count[0] == ';'
    ensures BaseType(brackets + left + name + right + count) == name
  {
    hide TrimStart, TrimEnd, UpTo;
    var inner := left + name + right;
    assert brackets + left + name + right + count == brackets + (inner + count);
    assert inner[0] == if left != "" then left[0] else name[0];
    TrimStartOf(brackets, inner + count, IsBracket);
    BtfLayout.UpToEnd(inner, count);
    assert inner == left + (name + right);
    TrimStartOf(left, name + right, IsSpace);
    TrimEndOf(name, right, IsSpace);
  }

  // ----- Sizes -----

  /** Four kinds say their size, an array has its elements', and nothing else has one. */
  lemma SizeIff(t: BtfType, size: nat)
    ensures SizeOf(t) == Some(size) <==>
              || t == Int(size) || t == Enum(size)
              || (t.Struct? && t.size == size) || (t.Union? && t.size == size)
              || (t.Array? && exists n: nat :: SizeOf(Resolve(t.element)) == Some(n) && size == n * t.capacity)
  {}

  // ----- Members -----

  /** A field whose name begins with "anon_" is a member without a name, in a structure one that begins in its byte. */
  lemma MatchesIff(isStruct: bool, m: Member, rest: string, name: string, offset: nat, size: nat, typeName: string)
    ensures Matches(isStruct, m, Field("anon_" + rest, offset, size, typeName)) <==>
              m.name == None && (isStruct ==> 8 * offset <= m.bitOffset < 8 * offset + 8)
    ensures !("anon_" <= name) ==>
              (Matches(isStruct, m, Field(name, offset, size, typeName)) <==> m.name == Some(name))
  {
    assert ANONYMOUS_FIELD_PREFIX <= "anon_" + rest;
  }

  // ----- Verdicts -----

  /** What of a type its name is checked against: the element of an array, or the type */
  function Inspected(t: BtfType): BtfType {
    if t.Array? then t.element else t
  }

  const PRIMITIVE_NAMES: set<string> := {
    "u8", "u16", "u32", "u64", "i8", "i16", "i32", "i64", "usize", "isize", "bool", "char", "f32", "f64"
  }

  /** A type name passes when there is something to check, and it is unknown or primitive or its composite is valid. */
  lemma TypeValidIff(registry: Registry, t: BtfType, typeName: string)
    ensures var name, inspected := BaseType(typeName), Inspected(Resolve(t));
            TypeValid(registry, t, typeName) <==>
              && inspected != Missing
              && (name in PRIMITIVE_NAMES || name !in registry || CompositeValid(registry, registry[name], inspected))
  {
    hide BaseType, CompositeValid;
  }

  /** A field is found at its byte, with its size, and of a valid type, in the first member that matches. */
  ghost predicate FieldAccepted(registry: Registry, isStruct: bool, members: seq<Member>, field: Field) {
    exists i: nat :: FirstMatch(isStruct, members, field, i)
      && (isStruct ==> 8 * field.offset <= members[i].bitOffset < 8 * field.offset + 8)
      && members[i].ty != Missing && SizeOf(Resolve(members[i].ty)) == Some(field.size)
      && TypeValid(registry, Resolve(members[i].ty), field.typeName)
  }

  lemma FieldAcceptedIff(registry: Registry, isStruct: bool, members: seq<Member>, field: Field)
    ensures FieldAccepted(registry, isStruct, members, field) <==>
              var m := FindMember(isStruct, members, field);
              m.Some? && FieldFits(isStruct, m.value, field)
              && TypeValid(registry, Resolve(m.value.ty), field.typeName)
  {
    hide TypeValid, SizeOf, Matches;
    var m := FindMember(isStruct, members, field);
    if FieldAccepted(registry, isStruct, members, field) {
      var i: nat :| FirstMatch(isStruct, members, field, i)
        && (isStruct ==> 8 * field.offset <= members[i].bitOffset < 8 * field.offset + 8)
        && members[i].ty != Missing && SizeOf(Resolve(members[i].ty)) == Some(field.size)
        && TypeValid(registry, Resolve(members[i].ty), field.typeName);
      FoundAt(isStruct, members, field, i);
    }
    if m.Some? && FieldFits(isStruct, m.value, field) && TypeValid(registry, Resolve(m.value.ty), field.typeName) {
      var i := FirstOfMany(isStruct, members, field);
      assert FirstMatch(isStruct, members, field, i);
    }
  }

  lemma {:induction false} FieldsValidIff(registry: Registry, isStruct: bool, t: BtfType, fields: seq<Field>)
    requires t.Struct? || t.Union?
    ensures FieldsValid(registry, isStruct, t, fields) <==>
              forall field :: field in fields ==> FieldAccepted(registry, isStruct, t.members, field)
    decreases |fields|
  {
    hide FieldAccepted, TypeValid;
    if fields != [] {
      FieldAcceptedIff(registry, isStruct, t.members, fields[0]);
      FieldsValidIff(registry, isStruct, t, fields[1..]);
      assert forall field :: field in fields <==> field == fields[0] || field in fields[1..];
    }
  }

  /** A composite is accepted when the kind and size agree and every field is, in any order. */
  lemma CompositeValidIff(registry: Registry, c: Composite, t: BtfType)
    ensures CompositeValid(registry, c, t) <==>
              var r := Resolve(t);
              && (if c.isStruct then r.Struct? else r.Union?) && r.size == c.size
              && forall field :: field in c.fields ==> FieldAccepted(registry, c.isStruct, r.members, field)
  {
    hide FieldAccepted;
    var r := Resolve(t);
    if if c.isStruct then r.Struct? else r.Union? {
      FieldsValidIff(registry, c.isStruct, r, c.fields);
    }
  }
}
