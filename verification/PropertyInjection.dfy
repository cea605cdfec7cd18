/**
 * udev properties written into a program's variables and property maps:
 * the `inject_` methods and `read_udev_property_map` of src/bpf.rs.
 */
module PropertyInjection {
  import opened Bits
  import opened Options

  /** A property; its value as UTF-8 bytes */
  datatype Property = Property(name: string, value: seq<byte>)

  /** A variable in a data section */
  datatype Variable = Variable(name: string, offset: nat, size: nat)

  function Find(properties: seq<Property>, name: string): Option<Property> {
    if properties == [] then None
    else if properties[0].name == name then Some(properties[0])
    else Find(properties[1..], name)
  }

  predicate Named(properties: seq<Property>, name: string) {
    exists p :: p in properties && p.name == name
  }

  /** Device properties that no extra property overrides */
  function NotOverridden(device: seq<Property>, extra: seq<Property>): seq<Property> {
    if device == [] then []
    else (if Named(extra, device[0].name) then [] else [device[0]]) + NotOverridden(device[1..], extra)
  }

  /** The list `inject_udev_properties` searches */
  function Effective(device: seq<Property>, extra: seq<Property>): seq<Property> {
    NotOverridden(device, extra) + extra
  }

  lemma {:induction false} FindNone(properties: seq<Property>, name: string)
    ensures Find(properties, name) == None <==> !Named(properties, name)
  {
    if properties != [] {
      FindNone(properties[1..], name);
      assert forall p :: p in properties <==> p == properties[0] || p in properties[1..];
    }
  }

  lemma {:induction false} FindAppend(a: seq<Property>, b: seq<Property>, name: string)
    ensures Find(a + b, name) == if Find(a, name) == None then Find(b, name) else Find(a, name)
  {
    if a == [] {
      assert a + b == b;
    } else {
      assert (a + b)[1..] == a[1..] + b;
      FindAppend(a[1..], b, name);
    }
  }

  lemma {:induction false} FindNotOverridden(device: seq<Property>, extra: seq<Property>, name: string)
    ensures Find(NotOverridden(device, extra), name) == if Named(extra, name) then None else Find(device, name)
  {
    if device != [] {
      var head := if Named(extra, device[0].name) then [] else [device[0]];
      FindNotOverridden(device[1..], extra, name);
      FindAppend(head, NotOverridden(device[1..], extra), name);
      assert [device[0]][1..] == [];
    }
  }

  /** Property i is the first of its name. */
  predicate FirstOf(properties: seq<Property>, name: string, i: int) {
    0 <= i < |properties| && properties[i].name == name && forall j :: 0 <= j < i ==> properties[j].name != name
  }

  /** The first property of a name is found, and none exactly when there is none. */
  lemma {:induction false} FindIff(properties: seq<Property>, name: string)
    ensures Find(properties, name) == None <==> forall p :: p in properties ==> p.name != name
    ensures forall i :: FirstOf(properties, name, i) ==> Find(properties, name) == Some(properties[i])
  {
    FindNone(properties, name);
    if properties != [] {
      FindIff(properties[1..], name);
      forall i | FirstOf(properties, name, i) ensures Find(properties, name) == Some(properties[i]) {
        if i > 0 { assert FirstOf(properties[1..], name, i - 1); }
      }
    }
  }

  /** The first extra property of a name wins; without one, the first device property. */
  lemma EffectiveValue(device: seq<Property>, extra: seq<Property>, name: string)
    ensures Find(Effective(device, extra), name) == if Named(extra, name) then Find(extra, name) else Find(device, name)
  {
    FindNotOverridden(device, extra, name);
    FindAppend(NotOverridden(device, extra), extra, name);
    FindNone(extra, name);
  }

  // ----- Variables in a section -----

  /** What is written for a variable: nothing unless a property fits with a byte to spare */
  function ValueFor(v: Variable, properties: seq<Property>): seq<byte> {
    match Find(properties, v.name)
    case None => []
    case Some(p) => if |p.value| < v.size then p.value else []
  }

  function Overwrite(data: seq<byte>, offset: nat, value: seq<byte>): (r: seq<byte>)
    requires offset + |value| <= |data|
    ensures |r| == |data|
  {
    data[..offset] + value + data[offset + |value|..]
  }

  /** The variables lie in the section, as the section's own table says. */
  predicate Inside(variables: seq<Variable>, length: nat) {
    forall v :: v in variables ==> v.offset + v.size <= length
  }

  function Injected(data: seq<byte>, variables: seq<Variable>, properties: seq<Property>): (r: seq<byte>)
    requires Inside(variables, |data|)
    ensures |r| == |data|
    decreases |variables|
  {
    if variables == [] then data
    else
      assert variables[0] in variables;
      Injected(Overwrite(data, variables[0].offset, ValueFor(variables[0], properties)), variables[1..], properties)
  }

  /** One turn of the loop over the variables */
  lemma InjectStep(data: seq<byte>, variables: seq<Variable>, properties: seq<Property>, i: nat)
    requires i < |variables| && Inside(variables, |data|)
    ensures var v := variables[i];
            && v.offset + |ValueFor(v, properties)| <= |data|
            && Injected(Overwrite(data, v.offset, ValueFor(v, properties)), variables[i + 1..], properties)
               == Injected(data, variables[i..], properties)
  {
    hide Overwrite;
    assert variables[i] in variables;
    assert variables[i..][0] == variables[i] && variables[i..][1..] == variables[i + 1..];
  }

  /** The body of that loop */
  method InjectVariable(data: array<byte>, v: Variable, properties: seq<Property>) returns (updated: bool)
    requires v.offset + v.size <= data.Length
    modifies data
    ensures data[..] == Overwrite(old(data[..]), v.offset, ValueFor(v, properties))
    ensures !updated ==> data[..] == old(data[..])
  {
    var prop := Find(properties, v.name);
    if prop.Some? && |prop.value.value| < v.size {
      CloneFromSlice(data, v.offset, prop.value.value);
      return true;
    }
    return false;
  }

  /** The loop over the variables, on the bytes of one section */
  method InjectSection(data: array<byte>, variables: seq<Variable>, properties: seq<Property>) returns (updated: bool)
    requires Inside(variables, data.Length)
    modifies data
    ensures data[..] == Injected(old(data[..]), variables, properties)
    ensures !updated ==> data[..] == old(data[..])
  {
    hide Injected, ValueFor, Overwrite;
    updated := false;
    assert variables[0..] == variables;
    for i := 0 to |variables|
      invariant Injected(data[..], variables[i..], properties) == Injected(old(data[..]), variables, properties)
      invariant !updated ==> data[..] == old(data[..])
    {
      InjectStep(data[..], variables, properties, i);
      assert variables[i] in variables;
      var written := InjectVariable(data, variables[i], properties);
      updated := updated || written;
    }
    assert variables[|variables|..] == [];
    InjectNothing(data[..], properties);
  }

  lemma InjectNothing(data: seq<byte>, properties: seq<Property>)
    ensures Injected(data, [], properties) == data
  {}

  method CloneFromSlice(data: array<byte>, offset: nat, value: seq<byte>)
    requires offset + |value| <= data.Length
    modifies data
    ensures data[..] == Overwrite(old(data[..]), offset, value)
  {
    for j := 0 to |value|
      invariant forall k :: 0 <= k < data.Length ==>
                  data[k] == if offset <= k < offset + j then value[k - offset] else old(data[k])
    {
      data[offset + j] := value[j];
    }
  }

  /** A map of the program: its values by key */
  datatype BpfMap = BpfMap(name: string, values: map<seq<byte>, seq<byte>>)

  predicate EndsWith(s: string, suffix: string) {
    |suffix| <= |s| && s[|s| - |suffix|..] == suffix
  }

  lemma EndsWithIff(s: string, suffix: string)
    ensures EndsWith(s, suffix) <==> exists prefix: string :: s == prefix + suffix
  {
    if EndsWith(s, suffix) { assert s == s[..|s| - |suffix|] + suffix; }
  }

  /** The values of the maps of a section have room for its variables. */
  predicate HasRoom(m: BpfMap, arrayName: string, variables: seq<Variable>) {
    EndsWith(m.name, arrayName) ==> forall k :: k in m.values ==> Inside(variables, |m.values[k]|)
  }

  /** Every value of a map of the section has the properties in it; other maps stay as they are. */
  ghost predicate MapInjected(
    before: BpfMap, after: BpfMap, arrayName: string, variables: seq<Variable>, properties: seq<Property>)
    requires HasRoom(before, arrayName, variables)
  {
    && after.name == before.name && after.values.Keys == before.values.Keys
    && forall k :: k in before.values ==>
         after.values[k] == if EndsWith(before.name, arrayName) then Injected(before.values[k], variables, properties)
                            else before.values[k]
  }

  /** `inject_udev_properties_in_array` */
  method InjectInArray(
    maps: array<BpfMap>, arrayName: string, variables: seq<Variable>, properties: seq<Property>)
    requires forall i :: 0 <= i < maps.Length ==> HasRoom(maps[i], arrayName, variables)
    modifies maps
    ensures forall i :: 0 <= i < maps.Length ==> MapInjected(old(maps[i]), maps[i], arrayName, variables, properties)
  {
    if variables == [] { return; }
    for i := 0 to maps.Length
      invariant forall j :: 0 <= j < i ==> MapInjected(old(maps[j]), maps[j], arrayName, variables, properties)
      invariant forall j :: i <= j < maps.Length ==> maps[j] == old(maps[j])
    {
      if EndsWith(maps[i].name, arrayName) {
        var m := InjectInMap(maps[i], arrayName, variables, properties);
        maps[i] := m;
      }
    }
  }

  /** The loop over the keys of one map: look up, inject, and update if something was written. */
  method InjectInMap(m: BpfMap, arrayName: string, variables: seq<Variable>, properties: seq<Property>)
    returns (after: BpfMap)
    requires EndsWith(m.name, arrayName) && HasRoom(m, arrayName, variables)
    ensures MapInjected(m, after, arrayName, variables, properties)
  {
    hide Injected, EndsWith;
    after := m;
    var keys := m.values.Keys;
    while keys != {}
      invariant keys <= m.values.Keys && after.name == m.name && after.values.Keys == m.values.Keys
      invariant forall k :: k in m.values ==>
                  after.values[k] == if k in keys then m.values[k] else Injected(m.values[k], variables, properties)
      decreases |keys|
    {
      var key :| key in keys;
      var value := after.values[key];
      var data := new byte[|value|](i requires 0 <= i < |value| => value[i]);
      assert data[..] == value;
      var updated := InjectSection(data, variables, properties);
      if updated {
        after := after.(values := after.values[key := data[..]]);
      }
      keys := keys - {key};
    }
  }

  /** Byte k is one a variable's value is written to. */
  predicate Covers(v: Variable, properties: seq<Property>, k: nat) {
    v.offset <= k < v.offset + |ValueFor(v, properties)|
  }

  ghost predicate Disjoint(variables: seq<Variable>) {
    forall v, w :: v in variables && w in variables && v != w ==>
      v.offset + v.size <= w.offset || w.offset + w.size <= v.offset
  }

  lemma ValueFits(v: Variable, properties: seq<Property>)
    ensures |ValueFor(v, properties)| <= v.size
  {}

  lemma {:induction false} InjectedByte(data: seq<byte>, variables: seq<Variable>, properties: seq<Property>, k: nat)
    requires Inside(variables, |data|) && Disjoint(variables) && k < |data|
    ensures forall v :: v in variables && Covers(v, properties, k) ==>
              Injected(data, variables, properties)[k] == ValueFor(v, properties)[k - v.offset]
    ensures (forall v :: v in variables ==> !Covers(v, properties, k)) ==>
              Injected(data, variables, properties)[k] == data[k]
    decreases |variables|
  {
    hide ValueFor;
    if variables != [] {
      var v := variables[0];
      ValueFits(v, properties);
      var data' := Overwrite(data, v.offset, ValueFor(v, properties));
      assert forall w :: w in variables <==> w == v || w in variables[1..];
      InjectedByte(data', variables[1..], properties, k);
      forall w | w in variables && Covers(w, properties, k)
        ensures Injected(data, variables, properties)[k] == ValueFor(w, properties)[k - w.offset]
      {
        ValueFits(w, properties);
        forall u | u in variables[1..] && u != w ensures !Covers(u, properties, k) {
          ValueFits(u, properties);
        }
      }
    }
  }

  /** Byte k becomes b for variable v: its first property, shorter than the variable, has b there. */
  ghost predicate Writes(v: Variable, properties: seq<Property>, k: nat, b: byte) {
    exists i :: FirstOf(properties, v.name, i) && |properties[i].value| < v.size
      && v.offset <= k < v.offset + |properties[i].value| && b == properties[i].value[k - v.offset]
  }

  lemma CoversWrites(v: Variable, properties: seq<Property>, k: nat)
    ensures Covers(v, properties, k) ==> Writes(v, properties, k, ValueFor(v, properties)[k - v.offset])
    ensures forall b :: Writes(v, properties, k, b) ==>
              Covers(v, properties, k) && b == ValueFor(v, properties)[k - v.offset]
  {
    hide Find;
    FindIff(properties, v.name);
    if Covers(v, properties, k) {
      var i := FirstIndex(properties, v.name);
      assert FirstOf(properties, v.name, i);
    }
  }

  lemma {:induction false} FirstIndex(properties: seq<Property>, name: string) returns (i: nat)
    requires exists p :: p in properties && p.name == name
    ensures FirstOf(properties, name, i)
  {
    if properties[0].name == name {
      i := 0;
    } else {
      i := FirstIndex(properties[1..], name);
      i := i + 1;
    }
  }

  /**
   * A variable's bytes hold its value, the first property of its name if that is
   * shorter than the variable, whatever else is written; all other bytes are untouched.
   */
  lemma WrittenByte(data: seq<byte>, variables: seq<Variable>, properties: seq<Property>, k: nat)
    requires Inside(variables, |data|) && Disjoint(variables) && k < |data|
    ensures forall v, b :: v in variables && Writes(v, properties, k, b) ==>
              Injected(data, variables, properties)[k] == b
    ensures (forall v, b :: v in variables ==> !Writes(v, properties, k, b)) ==>
              Injected(data, variables, properties)[k] == data[k]
  {
    hide Injected, ValueFor, Writes;
    InjectedByte(data, variables, properties, k);
    forall v | v in variables
      ensures Covers(v, properties, k) ==> Writes(v, properties, k, ValueFor(v, properties)[k - v.offset])
      ensures forall b :: Writes(v, properties, k, b) ==>
                Covers(v, properties, k) && b == ValueFor(v, properties)[k - v.offset]
    {
      CoversWrites(v, properties, k);
    }
  }

  /** Writes for disjoint variables commute: only which variables there are matters, not their order. */
  lemma InjectionCommutes(data: seq<byte>, a: seq<Variable>, b: seq<Variable>, properties: seq<Property>)
    requires Inside(a, |data|) && Inside(b, |data|) && Disjoint(a)
    requires forall v :: v in a <==> v in b
    ensures Injected(data, a, properties) == Injected(data, b, properties)
  {
    hide Injected, ValueFor, Covers;
    forall k | 0 <= k < |data|
      ensures Injected(data, a, properties)[k] == Injected(data, b, properties)[k]
    {
      InjectedByte(data, a, properties, k);
      InjectedByte(data, b, properties, k);
      if v :| v in a && Covers(v, properties, k) {
        assert v in b;
      }
    }
  }

  // ----- Property maps -----

  /** What `inject_udev_properties_to_maps` leaves in a map of one value */
  function MapValue(before: seq<byte>, value: seq<byte>): seq<byte> {
    if |value| < |before| then value + seq(|before| - |value|, _ => 0) else before
  }

  method InjectToMap(before: seq<byte>, value: seq<byte>) returns (after: seq<byte>)
    ensures after == MapValue(before, value)
  {
    if |value| >= |before| { return before; }
    var data := new byte[|before|](_ => 0);
    CloneFromSlice(data, 0, value);
    after := data[..];
  }

  const UDEV_PROP := "UDEV_PROP_"

  /** What the walk over the property maps leaves in the map of a name: a listed map with a property gets its value. */
  function MapAfter(name: string, before: seq<byte>, propMaps: seq<string>, properties: seq<Property>): seq<byte> {
    if !(UDEV_PROP <= name) || name[|UDEV_PROP|..] !in propMaps then before
    else
      match Find(properties, name[|UDEV_PROP|..])
      case None => before
      case Some(p) => MapValue(before, p.value)
  }

  /** `inject_udev_properties_to_maps`; each map holds one value. */
  method InjectToMaps(maps: map<string, seq<byte>>, propMaps: seq<string>, properties: seq<Property>)
    returns (after: map<string, seq<byte>>)
    ensures after.Keys == maps.Keys
    ensures forall name :: name in maps ==> after[name] == MapAfter(name, maps[name], propMaps, properties)
  {
    hide MapValue, Find;
    after := maps;
    for i := 0 to |propMaps|
      invariant after.Keys == maps.Keys
      invariant forall name :: name in maps ==> after[name] == MapAfter(name, maps[name], propMaps[..i], properties)
    {
      var prop := Find(properties, propMaps[i]);
      var mapName := UDEV_PROP + propMaps[i];
      forall name | name in maps
        ensures MapAfter(name, maps[name], propMaps[..i + 1], properties)
             == if name == mapName && prop.Some? then MapValue(maps[name], prop.value.value)
                else MapAfter(name, maps[name], propMaps[..i], properties)
      {
        OneMoreMap(name, maps[name], propMaps, properties, i);
      }
      if prop.Some? && mapName in after {
        MapValueTwice(maps[mapName], prop.value.value);
        var data := InjectToMap(after[mapName], prop.value.value);
        assert MapAfter(mapName, maps[mapName], propMaps[..i], properties) == after[mapName];
        SameProperty(mapName, maps[mapName], propMaps[..i], properties);
        after := after[mapName := data];
      }
    }
    assert propMaps[..|propMaps|] == propMaps;
  }

  lemma OneMoreMap(name: string, before: seq<byte>, propMaps: seq<string>, properties: seq<Property>, i: nat)
    requires i < |propMaps|
    ensures MapAfter(name, before, propMaps[..i + 1], properties)
         == var prop := Find(properties, propMaps[i]);
            if name == UDEV_PROP + propMaps[i] && prop.Some? then MapValue(before, prop.value.value)
            else MapAfter(name, before, propMaps[..i], properties)
  {
    hide MapValue, Find;
    assert propMaps[..i + 1] == propMaps[..i] + [propMaps[i]];
    if UDEV_PROP <= name {
      assert name == UDEV_PROP + name[|UDEV_PROP|..];
      assert (UDEV_PROP + propMaps[i])[|UDEV_PROP|..] == propMaps[i];
    }
  }

  /**
   * What each named map holds afterwards: a listed name's first property and zeroes
   * behind it, if it is shorter than the map, and otherwise what it held before.
   */
  lemma NamedMapHolds(n: string, before: seq<byte>, propMaps: seq<string>, properties: seq<Property>)
    ensures var after := MapAfter("UDEV_PROP_" + n, before, propMaps, properties);
            && |after| == |before|
            && (forall i :: FirstOf(properties, n, i) && n in propMaps && |properties[i].value| < |before| ==>
                  forall k :: 0 <= k < |before| ==>
                    after[k] == if k < |properties[i].value| then properties[i].value[k] else 0)
            && ((n in propMaps ==> forall i :: FirstOf(properties, n, i) ==> |properties[i].value| >= |before|) ==>
                  after == before)
  {
    hide Find;
    assert ("UDEV_PROP_" + n)[|UDEV_PROP|..] == n;
    FindIff(properties, n);
    if Find(properties, n).Some? {
      var i := FirstIndex(properties, n);
      assert FirstOf(properties, n, i);
    }
  }

  /** Maps of other names are left alone. */
  lemma OtherMapKept(name: string, before: seq<byte>, propMaps: seq<string>, properties: seq<Property>)
    requires forall n: string :: name != "UDEV_PROP_" + n
    ensures MapAfter(name, before, propMaps, properties) == before
  {
    if UDEV_PROP <= name { assert name == "UDEV_PROP_" + name[|UDEV_PROP|..]; }
  }

  /** A map listed twice gets the same value twice. */
  lemma SameProperty(name: string, before: seq<byte>, propMaps: seq<string>, properties: seq<Property>)
    requires UDEV_PROP <= name
    ensures var prop := Find(properties, name[|UDEV_PROP|..]);
            var after := MapAfter(name, before, propMaps, properties);
            prop.Some? ==> after == before || after == MapValue(before, prop.value.value)
  {}

  lemma MapValueTwice(before: seq<byte>, value: seq<byte>)
    ensures MapValue(MapValue(before, value), value) == MapValue(before, value)
  {}

  function NullPosition(data: seq<byte>): (n: nat)
    ensures n <= |data| && 0 !in data[..n] && (n < |data| ==> data[n] == 0)
  {
    if data == [] || data[0] == 0 then 0
    else
      var n := NullPosition(data[1..]);
      assert data[..n + 1] == [data[0]] + data[1..][..n];
      n + 1
  }

  /** `read_udev_property_map`; `utf8` is the check of std::str::from_utf8. */
  function ReadMap(data: seq<byte>, utf8: seq<byte> -> bool): Option<seq<byte>> {
    var n := NullPosition(data);
    if n == 0 || !utf8(data[..n]) then None else Some(data[..n])
  }

  /** A map reads as what precedes its first NUL, or all of it, if that is not empty and valid. */
  lemma ReadMapIff(data: seq<byte>, utf8: seq<byte> -> bool, value: seq<byte>)
    ensures ReadMap(data, utf8) == Some(value) <==>
              && value <= data && value != [] && 0 !in value && utf8(value)
              && (|value| < |data| ==> data[|value|] == 0)
  {
    if value <= data && 0 !in value {
      assert value == data[..|value|];
      NoNull(data);
      if |value| < |data| && data[|value|] == 0 { NullIsFirst(data, |value|); }
    }
  }

  lemma NoNull(data: seq<byte>)
    ensures 0 !in data ==> NullPosition(data) == |data|
  {
    var n := NullPosition(data);
    if n < |data| { assert data[n] in data; }
  }

  lemma {:induction false} NullIsFirst(data: seq<byte>, k: nat)
    requires k < |data| && data[k] == 0 && forall i :: 0 <= i < k ==> data[i] != 0
    ensures NullPosition(data) == k
  {
    if k > 0 { NullIsFirst(data[1..], k - 1); }
  }

  /**
   * A value that fits its map is read back exactly when it is not empty and holds
   * no NUL; every value in a property is valid UTF-8.
   */
  lemma MapRoundTripIff(before: seq<byte>, value: seq<byte>, utf8: seq<byte> -> bool)
    requires |value| < |before| && utf8(value)
    ensures ReadMap(MapValue(before, value), utf8) == Some(value) <==> value != [] && 0 !in value
  {
    var padding: seq<byte> := seq(|before| - |value|, _ => 0);
    if 0 !in value {
      NullIsFirst(value + padding, |value|);
      assert (value + padding)[..|value|] == value;
    }
  }

  /** The text a program finds in a byte array: what precedes the first NUL */
  function Text(bytes: seq<byte>): seq<byte> {
    bytes[..NullPosition(bytes)]
  }

  /**
   * Nothing terminates an injected value: the variable reads as the value exactly
   * when that holds no NUL and the byte behind it was 0 before.
   */
  lemma InjectedTextIff(data: seq<byte>, variables: seq<Variable>, properties: seq<Property>, v: Variable)
    requires Inside(variables, |data|) && Disjoint(variables) && v in variables
    requires Find(properties, v.name).Some? && |Find(properties, v.name).value.value| < v.size
    ensures var value := Find(properties, v.name).value.value;
            Text(Injected(data, variables, properties)[v.offset..v.offset + v.size]) == value
            <==> 0 !in value && data[v.offset + |value|] == 0
  {
    hide Injected, Find, Text;
    var value := Find(properties, v.name).value.value;
    InjectedBytes(data, variables, properties, v);
    TextIff(Injected(data, variables, properties)[v.offset..v.offset + v.size], value);
  }

  /** The bytes of an injected variable up to the one behind its value */
  lemma InjectedBytes(data: seq<byte>, variables: seq<Variable>, properties: seq<Property>, v: Variable)
    requires Inside(variables, |data|) && Disjoint(variables) && v in variables
    requires |ValueFor(v, properties)| < v.size
    ensures var bytes := Injected(data, variables, properties)[v.offset..v.offset + v.size];
            var n := |ValueFor(v, properties)|;
            bytes[..n] == ValueFor(v, properties) && bytes[n] == data[v.offset + n]
  {
    hide Injected, ValueFor;
    var value := ValueFor(v, properties);
    var bytes := Injected(data, variables, properties)[v.offset..v.offset + v.size];
    forall j | 0 <= j < |value| ensures bytes[j] == value[j] {
      InjectedByte(data, variables, properties, v.offset + j);
      assert Covers(v, properties, v.offset + j);
    }
    var k := v.offset + |value|;
    forall u | u in variables ensures !Covers(u, properties, k) {
      ValueFits(u, properties);
    }
    InjectedByte(data, variables, properties, k);
  }

  lemma TextIff(bytes: seq<byte>, value: seq<byte>)
    requires |value| < |bytes| && bytes[..|value|] == value
    ensures Text(bytes) == value <==> 0 !in value && bytes[|value|] == 0
  {
    if 0 !in value && bytes[|value|] == 0 {
      NullIsFirst(bytes, |value|);
    }
  }
}
