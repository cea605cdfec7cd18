/**
 * Which programs get loaded: `sort_by_stem` and `load_bpf_files` of src/hidudev.rs.
 * `lower` stands for `to_lowercase`; nothing about it is assumed.
 */
module ProgramSelection {

  /** A path as far as selection sees it: only the file name matters. */
  datatype Path = Path(directory: string, file: string)

  type Lower = string -> string

  // ----- Dictionary order -----

  predicate Leq(a: string, b: string) {
    a == [] || (b != [] && (a[0] < b[0] || (a[0] == b[0] && Leq(a[1..], b[1..]))))
  }

  predicate Before(a: string, b: string) {
    Leq(a, b) && a != b
  }

  lemma {:induction false} LeqTotal(a: string, b: string)
    ensures Leq(a, b) || Leq(b, a)
    ensures Leq(a, b) && Leq(b, a) ==> a == b
    ensures Leq(a, a)
  {
    if a != [] {
      LeqTotal(a[1..], if b != [] then b[1..] else a[1..]);
      if b != [] && a[1..] == b[1..] && a[0] == b[0] {
        assert a == [a[0]] + a[1..] && b == [b[0]] + b[1..];
      }
    }
  }

  lemma {:induction false} LeqTransitive(a: string, b: string, c: string)
    requires Leq(a, b) && Leq(b, c)
    ensures Leq(a, c)
  {
    if a != [] && a[0] == b[0] && b[0] == c[0] { LeqTransitive(a[1..], b[1..], c[1..]); }
  }

  lemma BeforeTransitive(a: string, b: string, c: string)
    requires Before(a, b) && Leq(b, c)
    ensures Before(a, c)
  {
    LeqTransitive(a, b, c);
    LeqTotal(a, b);
  }

  // ----- Names and stems -----

  function AfterDash(s: string): string {
    if s == [] then [] else if s[0] == '-' then s[1..] else AfterDash(s[1..])
  }

  /** The lower-cased name without its priority prefix: "0010-Foo.bpf.o" has the stem "foo.bpf.o". */
  function Stem(lower: Lower, p: Path): string {
    lower(if '-' in p.file then AfterDash(p.file) else p.file)
  }

  function Name(lower: Lower, p: Path): string {
    lower(p.file)
  }

  // ----- What sorting by stem gives -----

  function OfStem(lower: Lower, paths: seq<Path>, stem: string): seq<Path> {
    if paths == [] then []
    else
      var n := |paths| - 1;
      OfStem(lower, paths[..n], stem) + if Stem(lower, paths[n]) == stem then [paths[n]] else []
  }

  /** Places p behind every path whose name is not smaller. */
  function Insert(lower: Lower, sorted: seq<Path>, p: Path): seq<Path> {
    if sorted == [] then [p]
    else if Leq(Name(lower, p), Name(lower, sorted[0])) then [sorted[0]] + Insert(lower, sorted[1..], p)
    else [p] + sorted
  }

  /** `sort_by` with the reversed comparison; the sort is stable. */
  function Sort(lower: Lower, paths: seq<Path>): seq<Path> {
    if paths == [] then []
    else
      var n := |paths| - 1;
      Insert(lower, Sort(lower, paths[..n]), paths[n])
  }

  /** Adds a key to an ascending list, once. */
  function AddKey(keys: seq<string>, key: string): seq<string> {
    if keys == [] then [key]
    else if keys[0] == key then keys
    else if Leq(keys[0], key) then [keys[0]] + AddKey(keys[1..], key)
    else [key] + keys
  }

  function Stems(lower: Lower, paths: seq<Path>): seq<string> {
    if paths == [] then []
    else
      var n := |paths| - 1;
      AddKey(Stems(lower, paths[..n]), Stem(lower, paths[n]))
  }

  function GroupsOf(lower: Lower, paths: seq<Path>, stems: seq<string>): (r: seq<seq<Path>>)
    ensures |r| == |stems|
    ensures forall i :: 0 <= i < |stems| ==> r[i] == Sort(lower, OfStem(lower, paths, stems[i]))
  {
    if stems == [] then []
    else [Sort(lower, OfStem(lower, paths, stems[0]))] + GroupsOf(lower, paths, stems[1..])
  }

  /** One sorted group for each stem, in dictionary order of the stems */
  function Grouped(lower: Lower, paths: seq<Path>): seq<seq<Path>> {
    GroupsOf(lower, paths, Stems(lower, paths))
  }

  // ----- Keys -----

  predicate Ascending(keys: seq<string>) {
    forall i, j :: 0 <= i < j < |keys| ==> Before(keys[i], keys[j])
  }

  lemma {:induction false} AddKeyAscends(keys: seq<string>, key: string)
    requires Ascending(keys)
    ensures Ascending(AddKey(keys, key))
    ensures forall k :: k in AddKey(keys, key) <==> k in keys || k == key
  {
    if keys != [] {
      LeqTotal(keys[0], key);
      AddKeyAscends(keys[1..], key);
      assert keys == [keys[0]] + keys[1..];
      if keys[0] != key && !Leq(keys[0], key) {
        forall i | 0 < i < |keys| ensures Before(key, keys[i]) {
          BeforeTransitive(key, keys[0], keys[i]);
        }
      } else if keys[0] != key {
        var rest := AddKey(keys[1..], key);
        forall j | 0 <= j < |rest| ensures Before(keys[0], rest[j]) {
          assert rest[j] in rest;
        }
      }
    }
  }

  lemma HasFirst(keys: seq<string>)
    ensures keys != [] ==> keys[0] in keys
  {}

  /** An ascending list is determined by its elements. */
  lemma {:induction false} AscendingUnique(a: seq<string>, b: seq<string>)
    requires Ascending(a) && Ascending(b)
    requires forall k :: k in a <==> k in b
    ensures a == b
  {
    hide Leq;
    HasFirst(a);
    HasFirst(b);
    if a != [] {
      assert b != [];
      var i :| 0 <= i < |b| && b[i] == a[0];
      var j :| 0 <= j < |a| && a[j] == b[0];
      if i > 0 {
        assert Before(b[0], b[i]);
        if j > 0 { assert Before(a[0], a[j]); }
        LeqTotal(a[0], b[0]);
      }
      assert a[0] == b[0];
      forall k ensures k in a[1..] <==> k in b[1..] {
        if k in a[1..] { TailDiffers(a, k); }
        if k in b[1..] { TailDiffers(b, k); }
        assert a == [a[0]] + a[1..] && b == [b[0]] + b[1..];
      }
      AscendingUnique(a[1..], b[1..]);
      assert a == [a[0]] + a[1..] && b == [b[0]] + b[1..];
    }
  }

  lemma TailDiffers(a: seq<string>, k: string)
    requires Ascending(a) && a != [] && k in a[1..]
    ensures k in a && k != a[0]
  {
    var i :| 0 <= i < |a[1..]| && a[1..][i] == k;
    assert Before(a[0], a[i + 1]);
  }

  lemma {:induction false} StemsAscend(lower: Lower, paths: seq<Path>)
    ensures Ascending(Stems(lower, paths))
    ensures forall stem :: stem in Stems(lower, paths) <==> exists p :: p in paths && Stem(lower, p) == stem
  {
    if paths != [] {
      var n := |paths| - 1;
      StemsAscend(lower, paths[..n]);
      AddKeyAscends(Stems(lower, paths[..n]), Stem(lower, paths[n]));
      assert paths == paths[..n] + [paths[n]];
    }
  }

  // ----- Groups -----

  predicate Descending(lower: Lower, paths: seq<Path>) {
    forall i, j :: 0 <= i < j < |paths| ==> Leq(Name(lower, paths[j]), Name(lower, paths[i]))
  }

  lemma {:induction false} InsertKeeps(lower: Lower, sorted: seq<Path>, p: Path)
    ensures multiset(Insert(lower, sorted, p)) == multiset(sorted) + multiset{p}
  {
    hide Leq, Name;
    if sorted != [] {
      assert sorted == [sorted[0]] + sorted[1..];
      InsertKeeps(lower, sorted[1..], p);
    }
  }

  lemma {:induction false} InsertDescends(lower: Lower, sorted: seq<Path>, p: Path)
    requires Descending(lower, sorted)
    ensures Descending(lower, Insert(lower, sorted, p))
  {
    hide Leq, Name;
    if sorted != [] {
      var first := sorted[0];
      LeqTotal(Name(lower, p), Name(lower, first));
      InsertDescends(lower, sorted[1..], p);
      if Leq(Name(lower, p), Name(lower, first)) {
        var rest := Insert(lower, sorted[1..], p);
        InsertKeeps(lower, sorted[1..], p);
        forall j | 0 <= j < |rest| ensures Leq(Name(lower, rest[j]), Name(lower, first)) {
          assert rest[j] in multiset(rest);
          assert rest[j] == p || rest[j] in sorted[1..];
        }
      } else {
        forall j | 0 <= j < |sorted| ensures Leq(Name(lower, sorted[j]), Name(lower, p)) {
          if j > 0 { LeqTransitive(Name(lower, sorted[j]), Name(lower, first), Name(lower, p)); }
        }
      }
    }
  }

  lemma {:induction false} SortDescends(lower: Lower, paths: seq<Path>)
    ensures Descending(lower, Sort(lower, paths))
    ensures multiset(Sort(lower, paths)) == multiset(paths)
  {
    if paths != [] {
      var n := |paths| - 1;
      SortDescends(lower, paths[..n]);
      InsertDescends(lower, Sort(lower, paths[..n]), paths[n]);
      InsertKeeps(lower, Sort(lower, paths[..n]), paths[n]);
      assert paths == paths[..n] + [paths[n]];
    }
  }

  function Same(lower: Lower, paths: seq<Path>, name: string): seq<Path> {
    if paths == [] then []
    else (if Name(lower, paths[0]) == name then [paths[0]] else []) + Same(lower, paths[1..], name)
  }

  lemma {:induction false} SameAppend(lower: Lower, a: seq<Path>, b: seq<Path>, name: string)
    ensures Same(lower, a + b, name) == Same(lower, a, name) + Same(lower, b, name)
  {
    hide Name;
    if a == [] {
      assert a + b == b;
    } else {
      assert (a + b)[0] == a[0] && (a + b)[1..] == a[1..] + b;
      SameAppend(lower, a[1..], b, name);
      var head := if Name(lower, a[0]) == name then [a[0]] else [];
      var restA, restB := Same(lower, a[1..], name), Same(lower, b, name);
      assert head + (restA + restB) == head + restA + restB;
    }
  }

  lemma {:induction false} InsertStable(lower: Lower, sorted: seq<Path>, p: Path, name: string)
    requires Descending(lower, sorted)
    ensures Same(lower, Insert(lower, sorted, p), name)
         == Same(lower, sorted, name) + if Name(lower, p) == name then [p] else []
  {
    hide Leq, Name;
    if sorted == [] {
      assert [p][1..] == [];
    } else if Leq(Name(lower, p), Name(lower, sorted[0])) {
      InsertStable(lower, sorted[1..], p, name);
      assert ([sorted[0]] + Insert(lower, sorted[1..], p))[1..] == Insert(lower, sorted[1..], p);
      var head := if Name(lower, sorted[0]) == name then [sorted[0]] else [];
      var last := if Name(lower, p) == name then [p] else [];
      assert head + (Same(lower, sorted[1..], name) + last) == head + Same(lower, sorted[1..], name) + last;
    } else {
      assert ([p] + sorted)[1..] == sorted;
      if Name(lower, p) == name { NoneBelow(lower, sorted, p); }
    }
  }

  lemma {:induction false} NoneBelow(lower: Lower, sorted: seq<Path>, p: Path)
    requires Descending(lower, sorted)
    requires sorted != [] ==> !Leq(Name(lower, p), Name(lower, sorted[0]))
    ensures Same(lower, sorted, Name(lower, p)) == []
  {
    if sorted != [] {
      LeqTotal(Name(lower, p), Name(lower, p));
      if |sorted| > 1 && Leq(Name(lower, p), Name(lower, sorted[1])) {
        LeqTransitive(Name(lower, p), Name(lower, sorted[1]), Name(lower, sorted[0]));
      }
      NoneBelow(lower, sorted[1..], p);
    }
  }

  /** Paths with equal names keep their order. */
  lemma {:induction false} SortStable(lower: Lower, paths: seq<Path>, name: string)
    ensures Same(lower, Sort(lower, paths), name) == Same(lower, paths, name)
  {
    hide Leq, Name, Insert, Descending;
    if paths != [] {
      var n := |paths| - 1;
      SortStable(lower, paths[..n], name);
      SortDescends(lower, paths[..n]);
      InsertStable(lower, Sort(lower, paths[..n]), paths[n], name);
      SameAppend(lower, paths[..n], [paths[n]], name);
      assert [paths[n]][1..] == [] && paths == paths[..n] + [paths[n]];
    }
  }

  lemma HasSame(lower: Lower, paths: seq<Path>, name: string)
    ensures Same(lower, paths, name) != [] <==> exists p :: p in paths && Name(lower, p) == name
  {
    hide Name;
    if paths != [] {
      HasSame(lower, paths[1..], name);
      assert forall p :: p in paths <==> p == paths[0] || p in paths[1..];
    }
  }

  lemma FirstIsSame(lower: Lower, paths: seq<Path>)
    ensures paths != [] ==> Same(lower, paths, Name(lower, paths[0])) != []
  {}

  /** There is only one stable descending arrangement, so any stable sort gives `Sort`. */
  lemma {:induction false} StableSortUnique(lower: Lower, a: seq<Path>, b: seq<Path>)
    requires Descending(lower, a) && Descending(lower, b)
    requires forall name :: Same(lower, a, name) == Same(lower, b, name)
    ensures a == b
    decreases |a|
  {
    hide Leq, Name;
    FirstIsSame(lower, b);
    if a != [] {
      var n := Name(lower, a[0]);
      HasSame(lower, a, n);
      HasSame(lower, b, n);
      HasSame(lower, a, Name(lower, b[0]));
      HasSame(lower, b, Name(lower, b[0]));
      FirstAgree(lower, a, b);
      forall name ensures Same(lower, a[1..], name) == Same(lower, b[1..], name) {
        var head := if n == name then [a[0]] else [];
        assert Same(lower, a, name) == head + Same(lower, a[1..], name);
        assert Same(lower, b, name) == head + Same(lower, b[1..], name);
        assert (head + Same(lower, a[1..], name))[|head|..] == Same(lower, a[1..], name);
        assert (head + Same(lower, b[1..], name))[|head|..] == Same(lower, b[1..], name);
      }
      StableSortUnique(lower, a[1..], b[1..]);
      assert a == [a[0]] + a[1..] && b == [b[0]] + b[1..];
    }
  }

  lemma FirstAgree(lower: Lower, a: seq<Path>, b: seq<Path>)
    requires Descending(lower, a) && Descending(lower, b) && a != [] && b != []
    requires forall name :: Same(lower, a, name) == Same(lower, b, name)
    requires exists p :: p in b && Name(lower, p) == Name(lower, a[0])
    requires exists p :: p in a && Name(lower, p) == Name(lower, b[0])
    ensures a[0] == b[0]
  {
    hide Leq, Name;
    var p :| p in b && Name(lower, p) == Name(lower, a[0]);
    var q :| q in a && Name(lower, q) == Name(lower, b[0]);
    var i :| 0 <= i < |b| && b[i] == p;
    var j :| 0 <= j < |a| && a[j] == q;
    LeqTotal(Name(lower, a[0]), Name(lower, b[0]));
    assert Name(lower, a[0]) == Name(lower, b[0]);
    assert Same(lower, a, Name(lower, a[0]))[0] == a[0];
    assert Same(lower, b, Name(lower, a[0]))[0] == b[0];
  }

  lemma {:induction false} OfStemCounts(lower: Lower, paths: seq<Path>, stem: string, p: Path)
    ensures multiset(OfStem(lower, paths, stem))[p] == if Stem(lower, p) == stem then multiset(paths)[p] else 0
  {
    if paths != [] {
      var n := |paths| - 1;
      OfStemCounts(lower, paths[..n], stem, p);
      assert paths == paths[..n] + [paths[n]];
    }
  }

  function Flatten(groups: seq<seq<Path>>): seq<Path> {
    if groups == [] then [] else groups[0] + Flatten(groups[1..])
  }

  lemma {:induction false} FlattenCounts(lower: Lower, paths: seq<Path>, stems: seq<string>, p: Path)
    requires Ascending(stems)
    ensures multiset(Flatten(GroupsOf(lower, paths, stems)))[p]
         == if Stem(lower, p) in stems then multiset(paths)[p] else 0
  {
    if stems != [] {
      assert stems == [stems[0]] + stems[1..];
      assert stems[0] !in stems[1..];
      FlattenCounts(lower, paths, stems[1..], p);
      SortDescends(lower, OfStem(lower, paths, stems[0]));
      OfStemCounts(lower, paths, stems[0], p);
    }
  }

  lemma {:induction false} OfStemMembers(lower: Lower, paths: seq<Path>, stem: string, p: Path)
    ensures p in Sort(lower, OfStem(lower, paths, stem)) <==> p in paths && Stem(lower, p) == stem
  {
    SortDescends(lower, OfStem(lower, paths, stem));
    OfStemCounts(lower, paths, stem, p);
    assert p in Sort(lower, OfStem(lower, paths, stem)) <==> p in multiset(Sort(lower, OfStem(lower, paths, stem)));
    assert p in paths <==> p in multiset(paths);
  }

  /**
   * Sorting by stem loses and invents nothing, makes one group for each
   * lower-cased stem, orders the groups strictly by stem and each group by
   * descending lower-cased name, and keeps equal names in input order.
   */
  lemma GroupingCorrect(lower: Lower, paths: seq<Path>)
    ensures var groups := Grouped(lower, paths);
            && multiset(Flatten(groups)) == multiset(paths)
            && (forall i :: 0 <= i < |groups| ==> groups[i] != [])
            && (forall i, p, q :: 0 <= i < |groups| && p in groups[i] && q in groups[i]
                  ==> Stem(lower, p) == Stem(lower, q))
            && (forall i, j, p, q :: 0 <= i < j < |groups| && p in groups[i] && q in groups[j]
                  ==> Before(Stem(lower, p), Stem(lower, q)))
            && (forall i :: 0 <= i < |groups| ==> Descending(lower, groups[i]))
            && (forall i, name :: 0 <= i < |groups| ==>
                  Same(lower, groups[i], name) == Same(lower, OfStem(lower, paths, Stems(lower, paths)[i]), name))
  {
    var groups, stems := Grouped(lower, paths), Stems(lower, paths);
    StemsAscend(lower, paths);
    forall p ensures multiset(Flatten(groups))[p] == multiset(paths)[p] {
      FlattenCounts(lower, paths, stems, p);
      if p in paths { assert Stem(lower, p) in stems; }
      assert p in paths <==> p in multiset(paths);
    }
    forall i, p | 0 <= i < |groups|
      ensures p in groups[i] <==> p in paths && Stem(lower, p) == stems[i]
    {
      OfStemMembers(lower, paths, stems[i], p);
    }
    forall i | 0 <= i < |groups|
      ensures groups[i] != [] && Descending(lower, groups[i])
    {
      assert stems[i] in stems;
      var p :| p in paths && Stem(lower, p) == stems[i];
      OfStemMembers(lower, paths, stems[i], p);
      SortDescends(lower, OfStem(lower, paths, stems[i]));
    }
    forall i, name | 0 <= i < |groups|
      ensures Same(lower, groups[i], name) == Same(lower, OfStem(lower, paths, stems[i]), name)
    {
      SortStable(lower, OfStem(lower, paths, stems[i]), name);
    }
  }

  /** The first loop of `sort_by_stem`: a hash map from stems to paths */
  method GroupByStem(lower: Lower, paths: seq<Path>) returns (ht: map<string, seq<Path>>)
    ensures forall stem :: stem in ht <==> stem in Stems(lower, paths)
    ensures forall stem :: stem in ht ==> ht[stem] == OfStem(lower, paths, stem)
  {
    hide Leq, Stem, AddKey, Ascending;
    ht := map[];
    for i := 0 to |paths|
      invariant forall stem :: stem in ht <==> stem in Stems(lower, paths[..i])
      invariant forall stem :: OfStem(lower, paths[..i], stem) == if stem in ht then ht[stem] else []
    {
      var path := paths[i];
      var stem := Stem(lower, path);
      assert paths[..i + 1][..i] == paths[..i];
      StemsAscend(lower, paths[..i]);
      AddKeyAscends(Stems(lower, paths[..i]), stem);
      if stem in ht {
        ht := ht[stem := ht[stem] + [path]];
      } else {
        ht := ht[stem := [path]];
      }
    }
    assert paths[..|paths|] == paths;
  }

  /** The loop over `values_mut` */
  method SortValues(lower: Lower, unsorted: map<string, seq<Path>>) returns (ht: map<string, seq<Path>>)
    ensures ht.Keys == unsorted.Keys
    ensures forall stem :: stem in ht ==> ht[stem] == Sort(lower, unsorted[stem])
  {
    ht := unsorted;
    var rest := ht.Keys;
    while rest != {}
      invariant rest <= ht.Keys == unsorted.Keys
      invariant forall stem :: stem in ht ==>
                  ht[stem] == if stem in rest then unsorted[stem] else Sort(lower, unsorted[stem])
      decreases rest
    {
      var stem :| stem in rest;
      ht := ht[stem := Sort(lower, ht[stem])];
      rest := rest - {stem};
    }
  }

  /** The keys, which a hash map yields in any order, sorted */
  method SortKeys(keys: set<string>) returns (sorted: seq<string>)
    ensures Ascending(sorted) && forall k :: k in sorted <==> k in keys
  {
    hide Leq, AddKey;
    sorted := [];
    var rest := keys;
    while rest != {}
      invariant rest <= keys && Ascending(sorted)
      invariant forall k :: k in sorted <==> k in keys && k !in rest
      decreases rest
    {
      var k :| k in rest;
      AddKeyAscends(sorted, k);
      sorted := AddKey(sorted, k);
      rest := rest - {k};
    }
  }

  method SortByStem(lower: Lower, paths: seq<Path>) returns (groups: seq<seq<Path>>)
    ensures groups == Grouped(lower, paths)
  {
    hide Leq, Stems, OfStem, Sort;
    var ht := GroupByStem(lower, paths);
    ht := SortValues(lower, ht);
    var keys := SortKeys(ht.Keys);
    StemsAscend(lower, paths);
    AscendingUnique(keys, Stems(lower, paths));
    groups := [];
    for i := 0 to |keys|
      invariant |groups| == i
      invariant forall j :: 0 <= j < i ==> groups[j] == Sort(lower, OfStem(lower, paths, keys[j]))
      invariant forall j :: i <= j < |keys| ==>
                  keys[j] in ht && ht[keys[j]] == Sort(lower, OfStem(lower, paths, keys[j]))
    {
      groups := groups + [ht[keys[i]]];
      assert forall j :: i < j < |keys| ==> Before(keys[i], keys[j]);
      ht := ht - {keys[i]};
    }
  }

  // ----- Loading -----

  /** The paths tried in a group: up to the first that loads */
  function Tried(group: seq<Path>, loads: Path -> bool): seq<Path> {
    if group == [] then [] else if loads(group[0]) then [group[0]] else [group[0]] + Tried(group[1..], loads)
  }

  function FirstLoading(group: seq<Path>, loads: Path -> bool): seq<Path> {
    if group == [] then [] else if loads(group[0]) then [group[0]] else FirstLoading(group[1..], loads)
  }

  function Attempts(groups: seq<seq<Path>>, loads: Path -> bool): seq<Path> {
    if groups == [] then [] else Tried(groups[0], loads) + Attempts(groups[1..], loads)
  }

  function Selected(groups: seq<seq<Path>>, loads: Path -> bool): seq<Path> {
    if groups == [] then [] else FirstLoading(groups[0], loads) + Selected(groups[1..], loads)
  }

  /** None of the first j loads. */
  lemma {:induction false} SkipFailures(group: seq<Path>, loads: Path -> bool, j: nat)
    requires j <= |group| && forall k :: 0 <= k < j ==> !loads(group[k])
    ensures Tried(group, loads) == group[..j] + Tried(group[j..], loads)
    ensures FirstLoading(group, loads) == FirstLoading(group[j..], loads)
    decreases j
  {
    if j == 0 {
      assert group[0..] == group;
    } else {
      SkipFailures(group[1..], loads, j - 1);
      assert group[1..][j - 1..] == group[j..];
      assert group[..j] == [group[0]] + group[1..][..j - 1];
    }
  }

  /** The inner loop of `load_bpf_files`: the first file that loads ends its group. */
  method LoadGroup(group: seq<Path>, loads: Path -> bool) returns (tried: seq<Path>, loaded: seq<Path>)
    ensures tried == Tried(group, loads) && loaded == FirstLoading(group, loads)
  {
    tried, loaded := [], [];
    for j := 0 to |group|
      invariant tried == group[..j] && loaded == []
      invariant forall k :: 0 <= k < j ==> !loads(group[k])
    {
      tried := tried + [group[j]];
      if loads(group[j]) {
        SkipFailures(group, loads, j);
        assert tried == group[..j] + [group[j]];
        return tried, [group[j]];
      }
    }
    SkipFailures(group, loads, |group|);
  }

  /** `load_bpf_files`: what it tries to load, in order, and what of that loads */
  method LoadBpfFiles(lower: Lower, paths: seq<Path>, loads: Path -> bool) returns (tried: seq<Path>, loaded: seq<Path>)
    ensures tried == Attempts(Grouped(lower, paths), loads)
    ensures loaded == Selected(Grouped(lower, paths), loads)
  {
    hide Grouped, Tried, FirstLoading;
    var sorted := SortByStem(lower, paths);
    tried, loaded := [], [];
    for i := 0 to |sorted|
      invariant tried + Attempts(sorted[i..], loads) == Attempts(sorted, loads)
      invariant loaded + Selected(sorted[i..], loads) == Selected(sorted, loads)
    {
      var t, l := LoadGroup(sorted[i], loads);
      assert sorted[i..][0] == sorted[i] && sorted[i..][1..] == sorted[i + 1..];
      assert tried + (t + Attempts(sorted[i + 1..], loads)) == tried + t + Attempts(sorted[i + 1..], loads);
      assert loaded + (l + Selected(sorted[i + 1..], loads)) == loaded + l + Selected(sorted[i + 1..], loads);
      tried, loaded := tried + t, loaded + l;
    }
  }

  /** Where trying a group ends: behind the first path that loads, or behind the last path */
  ghost predicate CutAt(group: seq<Path>, loads: Path -> bool, cut: nat) {
    && cut <= |group| && (forall k :: 0 <= k < cut - 1 ==> !loads(group[k]))
    && ((cut > 0 && loads(group[cut - 1])) || (cut == |group| && (cut > 0 ==> !loads(group[cut - 1]))))
  }

  lemma {:induction false} TriedUpToCut(group: seq<Path>, loads: Path -> bool) returns (cut: nat)
    ensures CutAt(group, loads, cut) && Tried(group, loads) == group[..cut]
    ensures FirstLoading(group, loads) == if cut > 0 && loads(group[cut - 1]) then [group[cut - 1]] else []
  {
    if group == [] {
      cut := 0;
    } else if loads(group[0]) {
      cut := 1;
    } else {
      var rest := TriedUpToCut(group[1..], loads);
      cut := rest + 1;
      assert group[..cut] == [group[0]] + group[1..][..rest];
    }
  }

  /** What is tried: of each group, in the order of the groups, everything up to the first path that loads */
  lemma {:induction false} TriedExact(groups: seq<seq<Path>>, loads: Path -> bool) returns (parts: seq<seq<Path>>)
    ensures |parts| == |groups| && Attempts(groups, loads) == Flatten(parts)
    ensures forall i :: 0 <= i < |groups| ==> parts[i] <= groups[i] && CutAt(groups[i], loads, |parts[i]|)
  {
    hide Tried, CutAt;
    if groups == [] {
      parts := [];
    } else {
      var cut := TriedUpToCut(groups[0], loads);
      CutFits(groups[0], loads, cut);
      var rest := TriedExact(groups[1..], loads);
      parts := [groups[0][..cut]] + rest;
      assert parts[1..] == rest;
    }
  }

  lemma CutFits(group: seq<Path>, loads: Path -> bool, cut: nat)
    requires CutAt(group, loads, cut)
    ensures cut <= |group|
  {}

  lemma {:induction false} FirstLoadingHighest(lower: Lower, group: seq<Path>, loads: Path -> bool)
    requires Descending(lower, group)
    ensures var first := FirstLoading(group, loads);
            && |first| <= 1
            && (first == [] <==> forall p :: p in group ==> !loads(p))
            && forall p :: p in first ==> p in group && loads(p)
    ensures var first := FirstLoading(group, loads);
            forall p, q :: p in first && q in group && loads(q) ==> Leq(Name(lower, q), Name(lower, p))
  {
    if group != [] {
      assert group == [group[0]] + group[1..];
      LeqTotal(Name(lower, group[0]), Name(lower, group[0]));
      FirstLoadingHighest(lower, group[1..], loads);
    }
  }

  lemma {:induction false} SelectedFrom(groups: seq<seq<Path>>, loads: Path -> bool, p: Path)
    ensures p in Selected(groups, loads) <==> exists i :: 0 <= i < |groups| && p in FirstLoading(groups[i], loads)
  {
    if groups != [] {
      SelectedFrom(groups[1..], loads, p);
      if p in Selected(groups[1..], loads) {
        var i :| 0 <= i < |groups[1..]| && p in FirstLoading(groups[1..][i], loads);
        assert p in FirstLoading(groups[i + 1], loads);
      }
      if exists i :: 0 <= i < |groups| && p in FirstLoading(groups[i], loads) {
        var i :| 0 <= i < |groups| && p in FirstLoading(groups[i], loads);
        if i > 0 { assert groups[1..][i - 1] == groups[i]; }
      }
    }
  }

  /** The group of a path's stem */
  lemma GroupOf(lower: Lower, paths: seq<Path>, p: Path) returns (i: nat)
    requires p in paths
    ensures i < |Grouped(lower, paths)| == |Stems(lower, paths)| && Stems(lower, paths)[i] == Stem(lower, p)
    ensures forall q :: q in Grouped(lower, paths)[i] <==> q in paths && Stem(lower, q) == Stem(lower, p)
  {
    StemsAscend(lower, paths);
    assert Stem(lower, p) in Stems(lower, paths);
    i :| 0 <= i < |Stems(lower, paths)| && Stems(lower, paths)[i] == Stem(lower, p);
    forall q ensures q in Grouped(lower, paths)[i] <==> q in paths && Stem(lower, q) == Stem(lower, p) {
      OfStemMembers(lower, paths, Stem(lower, p), q);
    }
  }

  /** What is loaded for one stem */
  function Winner(lower: Lower, paths: seq<Path>, loads: Path -> bool, stem: string): seq<Path> {
    FirstLoading(Sort(lower, OfStem(lower, paths, stem)), loads)
  }

  /** It is the highest-named file of its stem that loads, if any does. */
  lemma WinnerIsHighest(lower: Lower, paths: seq<Path>, loads: Path -> bool, stem: string)
    ensures var w := Winner(lower, paths, loads, stem);
            && |w| <= 1
            && (forall p :: p in w ==> p in paths && Stem(lower, p) == stem && loads(p))
            && (forall p, q :: p in w && q in paths && Stem(lower, q) == stem && loads(q)
                  ==> Leq(Name(lower, q), Name(lower, p)))
            && (w == [] ==> forall q :: q in paths && Stem(lower, q) == stem ==> !loads(q))
  {
    hide Leq, Sort, OfStem, FirstLoading, Stem, Name, Descending;
    var group := Sort(lower, OfStem(lower, paths, stem));
    SortDescends(lower, OfStem(lower, paths, stem));
    FirstLoadingHighest(lower, group, loads);
    forall p ensures p in group <==> p in paths && Stem(lower, p) == stem {
      OfStemMembers(lower, paths, stem, p);
    }
  }

  lemma SelectedIsWinner(lower: Lower, paths: seq<Path>, loads: Path -> bool, p: Path)
    ensures p in Selected(Grouped(lower, paths), loads) <==> p in Winner(lower, paths, loads, Stem(lower, p))
  {
    hide Leq, Sort, OfStem, FirstLoading, Stem, Name, Stems, Selected;
    var groups := Grouped(lower, paths);
    SelectedFrom(groups, loads, p);
    if i :| 0 <= i < |groups| && p in FirstLoading(groups[i], loads) {
      WinnerIsHighest(lower, paths, loads, Stems(lower, paths)[i]);
      assert p in Winner(lower, paths, loads, Stems(lower, paths)[i]);
    }
    WinnerIsHighest(lower, paths, loads, Stem(lower, p));
    if p in Winner(lower, paths, loads, Stem(lower, p)) {
      var i := GroupOf(lower, paths, p);
      assert p in FirstLoading(groups[i], loads);
    }
  }

  /** Files of these stems, with strictly ascending stems */
  ghost predicate StemsAscending(lower: Lower, files: seq<Path>, stems: seq<string>) {
    && (forall i :: 0 <= i < |files| ==> Stem(lower, files[i]) in stems)
    && (forall i, j :: 0 <= i < j < |files| ==> Before(Stem(lower, files[i]), Stem(lower, files[j])))
  }

  lemma PrependAscending(lower: Lower, first: seq<Path>, rest: seq<Path>, stems: seq<string>)
    requires stems != [] && Ascending(stems) && |first| <= 1 && StemsAscending(lower, rest, stems[1..])
    requires forall p :: p in first ==> Stem(lower, p) == stems[0]
    ensures StemsAscending(lower, first + rest, stems)
  {
    hide Leq, Stem;
    forall i | 0 <= i < |rest| ensures Before(stems[0], Stem(lower, rest[i])) {
      assert Stem(lower, rest[i]) in stems[1..];
    }
    assert forall i :: 0 <= i < |first| ==> first[i] in first;
  }

  /** What is loaded has strictly ascending stems. */
  lemma {:induction false} SelectedAscends(lower: Lower, paths: seq<Path>, loads: Path -> bool, stems: seq<string>)
    requires Ascending(stems)
    ensures StemsAscending(lower, Selected(GroupsOf(lower, paths, stems), loads), stems)
    decreases |stems|
  {
    hide Leq, Stem, Sort, OfStem, FirstLoading, StemsAscending;
    if stems == [] {
      NothingAscends(lower, stems);
    } else {
      assert GroupsOf(lower, paths, stems)[1..] == GroupsOf(lower, paths, stems[1..]);
      SelectedAscends(lower, paths, loads, stems[1..]);
      WinnerIsHighest(lower, paths, loads, stems[0]);
      PrependAscending(lower, Winner(lower, paths, loads, stems[0]),
                       Selected(GroupsOf(lower, paths, stems[1..]), loads), stems);
    }
  }

  lemma NothingAscends(lower: Lower, stems: seq<string>)
    ensures StemsAscending(lower, [], stems)
  {}

  /**
   * What gets loaded: only highest-named loading files of their stem, in strictly
   * ascending order of the stems, so at most one for each, and one whenever
   * some file of the stem loads.
   */
  lemma SelectionCorrect(lower: Lower, paths: seq<Path>, loads: Path -> bool)
    ensures var selected := Selected(Grouped(lower, paths), loads);
            && (forall p :: p in selected ==> p in paths && loads(p))
            && (forall p, q :: p in selected && q in paths && loads(q) && Stem(lower, q) == Stem(lower, p)
                  ==> Leq(Name(lower, q), Name(lower, p)))
            && StemsAscending(lower, selected, Stems(lower, paths))
            && (forall q :: q in paths && loads(q) ==> exists p :: p in selected && Stem(lower, p) == Stem(lower, q))
  {
    hide Leq, Selected, Stem, Name, Stems, GroupsOf, Ascending, StemsAscending;
    StemsAscend(lower, paths);
    SelectedAscends(lower, paths, loads, Stems(lower, paths));
    SelectedMembers(lower, paths, loads);
  }

  lemma SelectedMembers(lower: Lower, paths: seq<Path>, loads: Path -> bool)
    ensures var selected := Selected(Grouped(lower, paths), loads);
            && (forall p :: p in selected ==> p in paths && loads(p))
            && (forall p, q :: p in selected && q in paths && loads(q) && Stem(lower, q) == Stem(lower, p)
                  ==> Leq(Name(lower, q), Name(lower, p)))
            && (forall q :: q in paths && loads(q) ==> exists p :: p in selected && Stem(lower, p) == Stem(lower, q))
  {
    hide Leq, Selected, Stem, Name, Winner, Grouped;
    var selected := Selected(Grouped(lower, paths), loads);
    forall p ensures p in selected <==> p in Winner(lower, paths, loads, Stem(lower, p)) {
      SelectedIsWinner(lower, paths, loads, p);
    }
    forall p | p in selected ensures p in paths && loads(p) {
      WinnerIsHighest(lower, paths, loads, Stem(lower, p));
    }
    forall p, q | p in selected && q in paths && loads(q) && Stem(lower, q) == Stem(lower, p)
      ensures Leq(Name(lower, q), Name(lower, p))
    {
      WinnerIsHighest(lower, paths, loads, Stem(lower, p));
    }
    forall q | q in paths && loads(q) ensures exists p :: p in selected && Stem(lower, p) == Stem(lower, q) {
      WinnerIsHighest(lower, paths, loads, Stem(lower, q));
      var p := Winner(lower, paths, loads, Stem(lower, q))[0];
      assert p in selected;
    }
  }

  // ----- Input order -----

  /** No two different paths agree in stem and lower-cased name. */
  ghost predicate Unambiguous(lower: Lower, paths: seq<Path>) {
    forall p, q :: p in paths && q in paths && Stem(lower, p) == Stem(lower, q) && Name(lower, p) == Name(lower, q)
      ==> p == q
  }

  lemma SameHead(lower: Lower, a: seq<Path>, b: seq<Path>)
    requires Descending(lower, a) && Descending(lower, b) && multiset(a) == multiset(b) && a != [] && b != []
    ensures Name(lower, a[0]) == Name(lower, b[0]) && b[0] in a
  {
    hide Leq, Name;
    assert a[0] in multiset(b) && b[0] in multiset(a);
    var i :| 0 <= i < |b| && b[i] == a[0];
    var j :| 0 <= j < |a| && a[j] == b[0];
    LeqTotal(Name(lower, a[0]), Name(lower, b[0]));
  }

  /** Sorted lists of the same unambiguous paths are equal. */
  lemma {:induction false} DescendingUnique(lower: Lower, a: seq<Path>, b: seq<Path>)
    requires Descending(lower, a) && Descending(lower, b) && multiset(a) == multiset(b)
    requires forall p, q :: p in a && q in a && Name(lower, p) == Name(lower, q) ==> p == q
    ensures a == b
  {
    hide Leq, Name;
    assert |a| == |multiset(a)| && |b| == |multiset(b)|;
    if a != [] {
      SameHead(lower, a, b);
      assert a == [a[0]] + a[1..] && b == [b[0]] + b[1..];
      assert multiset(a[1..]) == multiset(a) - multiset{a[0]};
      assert multiset(b[1..]) == multiset(b) - multiset{a[0]};
      DescendingUnique(lower, a[1..], b[1..]);
    }
  }

  lemma SamePathsSameGroups(lower: Lower, a: seq<Path>, b: seq<Path>)
    requires multiset(a) == multiset(b) && Unambiguous(lower, a)
    ensures Grouped(lower, a) == Grouped(lower, b)
  {
    hide Leq, Name, Stem, Sort, OfStem, Stems;
    assert forall p :: p in a <==> p in multiset(a);
    assert forall p :: p in b <==> p in multiset(b);
    StemsAscend(lower, a);
    StemsAscend(lower, b);
    AscendingUnique(Stems(lower, a), Stems(lower, b));
    forall i | 0 <= i < |Stems(lower, a)|
      ensures Grouped(lower, a)[i] == Grouped(lower, b)[i]
    {
      var stem := Stems(lower, a)[i];
      var ga, gb := OfStem(lower, a, stem), OfStem(lower, b, stem);
      SortDescends(lower, ga);
      SortDescends(lower, gb);
      forall p
        ensures multiset(ga)[p] == multiset(gb)[p] && (p in Sort(lower, ga) <==> p in a && Stem(lower, p) == stem)
      {
        OfStemCounts(lower, a, stem, p);
        OfStemCounts(lower, b, stem, p);
        OfStemMembers(lower, a, stem, p);
      }
      assert multiset(ga) == multiset(gb);
      DescendingUnique(lower, Sort(lower, ga), Sort(lower, gb));
    }
  }

  /** The path of a given stem and name that comes first in the input comes first among those in its group. */
  lemma {:induction false} OfStemFirst(lower: Lower, p: Path, rest: seq<Path>)
    ensures var v := OfStem(lower, [p] + rest, Stem(lower, p)); v != [] && v[0] == p
    decreases |rest|
  {
    var n := |rest|;
    var all := [p] + rest;
    if n == 0 {
      assert all[..0] == [] && OfStem(lower, [], Stem(lower, p)) == [];
    } else {
      assert all[..n] == [p] + rest[..n - 1] && |all| - 1 == n;
      OfStemFirst(lower, p, rest[..n - 1]);
    }
  }

  lemma FirstOfItsName(lower: Lower, p: Path, rest: seq<Path>)
    ensures var stem := Stem(lower, p);
            var same := Same(lower, Sort(lower, OfStem(lower, [p] + rest, stem)), Name(lower, p));
            same != [] && same[0] == p
  {
    var v := OfStem(lower, [p] + rest, Stem(lower, p));
    OfStemFirst(lower, p, rest);
    SortStable(lower, v, Name(lower, p));
  }

  lemma {:induction false} MoveToFront(paths: seq<Path>, p: Path) returns (rest: seq<Path>)
    requires p in paths
    ensures multiset([p] + rest) == multiset(paths)
  {
    var i :| 0 <= i < |paths| && paths[i] == p;
    rest := paths[..i] + paths[i + 1..];
    assert paths == paths[..i] + [p] + paths[i + 1..];
  }

  /** The outcome is independent of the input order exactly when the names are unambiguous. */
  lemma OrderIndependentIff(lower: Lower, paths: seq<Path>)
    ensures (forall other: seq<Path> :: multiset(other) == multiset(paths)
               ==> Grouped(lower, other) == Grouped(lower, paths))
       <==> Unambiguous(lower, paths)
  {
    hide Leq, Stem, Name, Grouped;
    if Unambiguous(lower, paths) {
      forall other: seq<Path> | multiset(other) == multiset(paths)
        ensures Grouped(lower, other) == Grouped(lower, paths)
      {
        SamePathsSameGroups(lower, paths, other);
      }
    } else {
      var p, q :| p in paths && q in paths && p != q
        && Stem(lower, p) == Stem(lower, q) && Name(lower, p) == Name(lower, q);
      var withP := MoveToFront(paths, p);
      var withQ := MoveToFront(paths, q);
      FrontDecides(lower, p, withP, q, withQ);
    }
  }

  /** Which of two such paths comes first shows in the result. */
  lemma FrontDecides(lower: Lower, p: Path, withP: seq<Path>, q: Path, withQ: seq<Path>)
    requires multiset([p] + withP) == multiset([q] + withQ)
    requires Stem(lower, p) == Stem(lower, q) && Name(lower, p) == Name(lower, q) && p != q
    ensures Grouped(lower, [p] + withP) != Grouped(lower, [q] + withQ)
  {
    hide Leq, Stem, Name, Sort, OfStem, Stems, Same;
    var i := GroupOf(lower, [p] + withP, p);
    FirstOfItsName(lower, p, withP);
    FirstOfItsName(lower, q, withQ);
    StemsOfSamePaths(lower, [p] + withP, [q] + withQ);
    assert Grouped(lower, [p] + withP)[i] == Sort(lower, OfStem(lower, [p] + withP, Stem(lower, p)));
    assert Grouped(lower, [q] + withQ)[i] == Sort(lower, OfStem(lower, [q] + withQ, Stem(lower, p)));
  }

  lemma StemsOfSamePaths(lower: Lower, a: seq<Path>, b: seq<Path>)
    requires multiset(a) == multiset(b)
    ensures Stems(lower, a) == Stems(lower, b)
  {
    assert forall p :: p in a <==> p in multiset(a);
    assert forall p :: p in b <==> p in multiset(b);
    StemsAscend(lower, a);
    StemsAscend(lower, b);
    AscendingUnique(Stems(lower, a), Stems(lower, b));
  }

  // ----- Input order and what loads -----

  /** A loading path with the highest name among those of its stem */
  ghost predicate Top(lower: Lower, paths: seq<Path>, loads: Path -> bool, p: Path) {
    && p in paths && loads(p)
    && forall q :: q in paths && loads(q) && Stem(lower, q) == Stem(lower, p) ==> Leq(Name(lower, q), Name(lower, p))
  }

  /** In every stem only one path carries the highest loading name. */
  ghost predicate OneTop(lower: Lower, paths: seq<Path>, loads: Path -> bool) {
    forall p, q :: Top(lower, paths, loads, p) && Top(lower, paths, loads, q) && Stem(lower, p) == Stem(lower, q)
      ==> p == q
  }

  lemma TopOfSamePaths(lower: Lower, a: seq<Path>, b: seq<Path>, loads: Path -> bool, p: Path)
    requires multiset(a) == multiset(b)
    ensures Top(lower, a, loads, p) <==> Top(lower, b, loads, p)
  {
    hide Leq, Stem, Name;
    assert forall q :: q in a <==> q in multiset(a);
    assert forall q :: q in b <==> q in multiset(b);
  }

  lemma WinnerIsTop(lower: Lower, paths: seq<Path>, loads: Path -> bool, stem: string)
    ensures var w := Winner(lower, paths, loads, stem);
            && |w| <= 1
            && (w != [] ==> Stem(lower, w[0]) == stem && Top(lower, paths, loads, w[0]))
            && (w == [] ==> forall p :: Top(lower, paths, loads, p) ==> Stem(lower, p) != stem)
  {
    hide Leq, Stem, Name, Winner;
    WinnerIsHighest(lower, paths, loads, stem);
    var w := Winner(lower, paths, loads, stem);
    if w != [] { assert w[0] in w; }
  }

  /** Of the same paths the same one wins, if only one can. */
  lemma SameWinner(lower: Lower, a: seq<Path>, b: seq<Path>, loads: Path -> bool, stem: string)
    requires multiset(a) == multiset(b) && OneTop(lower, a, loads)
    ensures Winner(lower, a, loads, stem) == Winner(lower, b, loads, stem)
  {
    hide Winner, Top;
    WinnerIsTop(lower, a, loads, stem);
    WinnerIsTop(lower, b, loads, stem);
    var v, w := Winner(lower, a, loads, stem), Winner(lower, b, loads, stem);
    if w != [] { TopOfSamePaths(lower, a, b, loads, w[0]); }
    if v != [] { TopOfSamePaths(lower, a, b, loads, v[0]); }
  }

  /** The winners decide what is loaded. */
  lemma {:induction false} WinnersDecide(
    lower: Lower, a: seq<Path>, b: seq<Path>, loads: Path -> bool, stems: seq<string>)
    requires forall i :: 0 <= i < |stems| ==> Winner(lower, a, loads, stems[i]) == Winner(lower, b, loads, stems[i])
    ensures Selected(GroupsOf(lower, a, stems), loads) == Selected(GroupsOf(lower, b, stems), loads)
    decreases |stems|
  {
    hide Sort, OfStem, FirstLoading;
    if stems != [] {
      assert GroupsOf(lower, a, stems)[1..] == GroupsOf(lower, a, stems[1..]);
      assert GroupsOf(lower, b, stems)[1..] == GroupsOf(lower, b, stems[1..]);
      assert Winner(lower, a, loads, stems[0]) == Winner(lower, b, loads, stems[0]);
      WinnersDecide(lower, a, b, loads, stems[1..]);
    }
  }

  /** Among equally named candidates the first in the group loads. */
  lemma {:induction false} FirstOfTheTop(lower: Lower, group: seq<Path>, loads: Path -> bool, p: Path)
    requires Descending(lower, group) && loads(p)
    requires var same := Same(lower, group, Name(lower, p)); same != [] && same[0] == p
    requires forall q :: q in group && loads(q) ==> Leq(Name(lower, q), Name(lower, p))
    ensures FirstLoading(group, loads) == [p]
    decreases |group|
  {
    hide Leq, Name;
    HasSame(lower, group, Name(lower, p));
    if loads(group[0]) {
      var x :| x in group && Name(lower, x) == Name(lower, p);
      var j :| 0 <= j < |group| && group[j] == x;
      LeqTotal(Name(lower, group[0]), Name(lower, p));
      assert group[0] in group && (j > 0 ==> Leq(Name(lower, group[j]), Name(lower, group[0])));
    } else {
      FirstOfTheTop(lower, group[1..], loads, p);
    }
  }

  /** Which of two such paths comes first in the input decides which one is loaded. */
  lemma FrontIsLoaded(lower: Lower, p: Path, rest: seq<Path>, loads: Path -> bool)
    requires Top(lower, [p] + rest, loads, p)
    ensures Winner(lower, [p] + rest, loads, Stem(lower, p)) == [p]
  {
    hide Leq, Stem, Name, Sort, OfStem, Same, Descending;
    var group := Sort(lower, OfStem(lower, [p] + rest, Stem(lower, p)));
    SortDescends(lower, OfStem(lower, [p] + rest, Stem(lower, p)));
    FirstOfItsName(lower, p, rest);
    forall q | q in group && loads(q) ensures Leq(Name(lower, q), Name(lower, p)) {
      OfStemMembers(lower, [p] + rest, Stem(lower, p), q);
    }
    FirstOfTheTop(lower, group, loads, p);
  }

  /**
   * For given load results the loaded list itself is independent of the input
   * order exactly when in every stem only one path carries the highest loading
   * name; ties below it or among files that fail do not matter.
   */
  lemma LoadedOrderIndependentIff(lower: Lower, paths: seq<Path>, loads: Path -> bool)
    ensures (forall other: seq<Path> :: multiset(other) == multiset(paths)
               ==> Selected(Grouped(lower, other), loads) == Selected(Grouped(lower, paths), loads))
       <==> OneTop(lower, paths, loads)
  {
    hide Leq, Stem, Name, Selected, Top, Winner, Stems, GroupsOf;
    if OneTop(lower, paths, loads) {
      forall other: seq<Path> | multiset(other) == multiset(paths)
        ensures Selected(Grouped(lower, other), loads) == Selected(Grouped(lower, paths), loads)
      {
        StemsOfSamePaths(lower, paths, other);
        forall i | 0 <= i < |Stems(lower, paths)|
          ensures Winner(lower, paths, loads, Stems(lower, paths)[i])
               == Winner(lower, other, loads, Stems(lower, paths)[i])
        {
          SameWinner(lower, paths, other, loads, Stems(lower, paths)[i]);
        }
        WinnersDecide(lower, paths, other, loads, Stems(lower, paths));
      }
    } else {
      var p, q :| Top(lower, paths, loads, p) && Top(lower, paths, loads, q) && Stem(lower, p) == Stem(lower, q)
        && p != q;
      TiedTopsDiffer(lower, paths, loads, p, q);
    }
  }

  /** Two inputs of the same paths whose loaded lists differ */
  lemma TiedTopsDiffer(lower: Lower, paths: seq<Path>, loads: Path -> bool, p: Path, q: Path)
    requires Top(lower, paths, loads, p) && Top(lower, paths, loads, q) && Stem(lower, p) == Stem(lower, q) && p != q
    ensures exists a: seq<Path>, b: seq<Path> :: multiset(a) == multiset(b) == multiset(paths)
              && Selected(Grouped(lower, a), loads) != Selected(Grouped(lower, b), loads)
  {
    hide Leq, Stem, Name, Selected, Grouped, Winner;
    var withP := MoveToFront(paths, p);
    var withQ := MoveToFront(paths, q);
    TopOfSamePaths(lower, paths, [p] + withP, loads, p);
    TopOfSamePaths(lower, paths, [q] + withQ, loads, q);
    FrontIsLoaded(lower, p, withP, loads);
    FrontIsLoaded(lower, q, withQ, loads);
    SelectedIsWinner(lower, [p] + withP, loads, p);
    SelectedIsWinner(lower, [q] + withQ, loads, p);
    assert p in [p] && p !in [q];
    assert Selected(Grouped(lower, [p] + withP), loads) != Selected(Grouped(lower, [q] + withQ), loads);
  }

  // ----- In terms of the file names -----

  /** The file name without a priority prefix: what follows its first dash, or all of it when it has none */
  ghost predicate HasBase(file: string, base: string) {
    || ('-' !in file && base == file)
    || exists priority: string :: '-' !in priority && file == priority + "-" + base
  }

  /** Dictionary order: a proper prefix comes first, else the first differing character decides. */
  lemma {:induction false} LeqIff(a: string, b: string)
    ensures Leq(a, b) <==>
              || a <= b
              || exists i :: 0 <= i < |a| && i < |b| && a[..i] == b[..i] && a[i] < b[i]
  {
    if a != [] && b != [] {
      if a[0] == b[0] {
        LeqIff(a[1..], b[1..]);
        if i :| 0 <= i < |a[1..]| && i < |b[1..]| && a[1..][..i] == b[1..][..i] && a[1..][i] < b[1..][i] {
          assert a[..i + 1] == [a[0]] + a[1..][..i] && b[..i + 1] == [b[0]] + b[1..][..i];
          assert a[i + 1] < b[i + 1];
        }
        if i :| 0 <= i < |a| && i < |b| && a[..i] == b[..i] && a[i] < b[i] {
          assert i > 0 && a[1..][..i - 1] == a[..i][1..] && b[1..][..i - 1] == b[..i][1..];
          assert a[1..][i - 1] < b[1..][i - 1];
        }
        assert a <= b <==> a[1..] <= b[1..] by {
          assert a == [a[0]] + a[1..] && b == [b[0]] + b[1..];
        }
      } else {
        assert a[0] < b[0] ==> a[..0] == b[..0];
        forall i | 0 < i < |a| && i < |b| ensures a[..i] == b[..i] ==> a[0] == b[0] {
          assert a[..i][0] == a[0] && b[..i][0] == b[0];
        }
      }
    }
  }

  lemma {:induction false} DashCut(priority: string, base: string)
    requires '-' !in priority
    ensures AfterDash(priority + "-" + base) == base
  {
    var file := priority + "-" + base;
    if priority == [] {
      assert file[1..] == base;
    } else {
      assert file[1..] == priority[1..] + "-" + base;
      DashCut(priority[1..], base);
    }
  }

  lemma StemOfBase(lower: Lower, p: Path, base: string)
    requires HasBase(p.file, base)
    ensures Stem(lower, p) == lower(base)
  {
    if '-' in p.file {
      var priority: string :| '-' !in priority && p.file == priority + "-" + base;
      DashCut(priority, base);
    } else {
      forall priority: string ensures p.file != priority + "-" + base {
        assert '-' in priority + "-" + base;
      }
    }
  }

  /**
   * The groups in terms of the file names: two input paths are in one group exactly
   * when their names without priority prefixes agree in lower case, and in
   * each group lower-cased names descend.
   */
  lemma GroupsByBase(lower: Lower, paths: seq<Path>, p: Path, q: Path, baseP: string, baseQ: string)
    requires p in paths && q in paths && HasBase(p.file, baseP) && HasBase(q.file, baseQ)
    ensures var groups := Grouped(lower, paths);
            && ((exists i :: 0 <= i < |groups| && p in groups[i] && q in groups[i]) <==> lower(baseP) == lower(baseQ))
            && forall i, j, k :: 0 <= i < |groups| && 0 <= j < k < |groups[i]| ==>
                 Leq(lower(groups[i][k].file), lower(groups[i][j].file))
  {
    hide Stem, Sort, OfStem, Leq, HasBase, Stems, Ascending;
    StemOfBase(lower, p, baseP);
    StemOfBase(lower, q, baseQ);
    GroupingCorrect(lower, paths);
    var i := GroupOf(lower, paths, p);
    var groups := Grouped(lower, paths);
    forall i | 0 <= i < |groups| ensures Descending(lower, groups[i]) {
      SortDescends(lower, OfStem(lower, paths, Stems(lower, paths)[i]));
    }
    if i :| 0 <= i < |groups| && p in groups[i] && q in groups[i] {
      OfStemMembers(lower, paths, Stems(lower, paths)[i], p);
      OfStemMembers(lower, paths, Stems(lower, paths)[i], q);
    }
  }

  /** Every file name has one. */
  lemma {:induction false} BaseOf(file: string) returns (base: string)
    ensures HasBase(file, base)
  {
    if '-' in file {
      var i := FirstDash(file);
      base := file[i + 1..];
      assert file == file[..i] + "-" + base;
    } else {
      base := file;
    }
  }

  lemma {:induction false} FirstDash(file: string) returns (i: nat)
    requires '-' in file
    ensures i < |file| && file[i] == '-' && '-' !in file[..i]
  {
    if file[0] == '-' {
      i := 0;
    } else {
      assert file == [file[0]] + file[1..];
      var j := FirstDash(file[1..]);
      i := j + 1;
      assert file[..i] == [file[0]] + file[1..][..j];
    }
  }

  /** Strictly ascending lower-cased names without priority, so one file at most for each */
  ghost predicate BasesAscend(lower: Lower, files: seq<Path>) {
    forall i, j, a, b :: 0 <= i < j < |files| && HasBase(files[i].file, a) && HasBase(files[j].file, b)
      ==> Before(lower(a), lower(b))
  }

  /** No other file that loads and has the same name without priority has a greater one with it. */
  ghost predicate IsGreatest(lower: Lower, paths: seq<Path>, loads: Path -> bool, p: Path) {
    forall q, a, b :: q in paths && loads(q) && HasBase(p.file, a) && HasBase(q.file, b) && lower(a) == lower(b)
      ==> Leq(lower(q.file), lower(p.file))
  }

  /** One of the files has that name without priority. */
  ghost predicate BaseAmong(lower: Lower, files: seq<Path>, base: string) {
    exists p, a :: p in files && HasBase(p.file, a) && lower(a) == lower(base)
  }

  lemma StemsAreBases(lower: Lower, files: seq<Path>, stems: seq<string>)
    requires StemsAscending(lower, files, stems)
    ensures BasesAscend(lower, files)
  {
    hide Stem, HasBase, Leq;
    forall i, j, a, b | 0 <= i < j < |files| && HasBase(files[i].file, a) && HasBase(files[j].file, b)
      ensures Before(lower(a), lower(b))
    {
      StemOfBase(lower, files[i], a);
      StemOfBase(lower, files[j], b);
    }
  }

  lemma GreatestOfBase(lower: Lower, paths: seq<Path>, loads: Path -> bool, p: Path)
    requires forall q :: q in paths && loads(q) && Stem(lower, q) == Stem(lower, p) ==>
               Leq(Name(lower, q), Name(lower, p))
    ensures IsGreatest(lower, paths, loads, p)
  {
    hide Stem, HasBase, Leq;
    forall q, a, b | q in paths && loads(q) && HasBase(p.file, a) && HasBase(q.file, b) && lower(a) == lower(b)
      ensures Leq(lower(q.file), lower(p.file))
    {
      StemOfBase(lower, p, a);
      StemOfBase(lower, q, b);
    }
  }

  lemma StemAmong(lower: Lower, files: seq<Path>, p: Path, q: Path, base: string)
    requires p in files && Stem(lower, p) == Stem(lower, q) && HasBase(q.file, base)
    ensures BaseAmong(lower, files, base)
  {
    hide Stem, HasBase;
    StemOfBase(lower, q, base);
    var a := BaseOf(p.file);
    StemOfBase(lower, p, a);
  }

  /**
   * What gets loaded, in terms of the file names: only files that load, in strictly
   * ascending order of their lower-cased names without priority, each with
   * the greatest name with priority among its rivals that load; and one whenever one loads.
   */
  lemma LoadedByBase(lower: Lower, paths: seq<Path>, loads: Path -> bool)
    ensures var loaded := Selected(Grouped(lower, paths), loads);
            && (forall p :: p in loaded ==> p in paths && loads(p) && IsGreatest(lower, paths, loads, p))
            && BasesAscend(lower, loaded)
            && (forall q, b :: q in paths && loads(q) && HasBase(q.file, b) ==> BaseAmong(lower, loaded, b))
  {
    hide Stem, Name, Selected, Grouped, Leq, HasBase, Stems, StemsAscending, IsGreatest, BasesAscend, BaseAmong;
    SelectionCorrect(lower, paths, loads);
    var loaded := Selected(Grouped(lower, paths), loads);
    StemsAreBases(lower, loaded, Stems(lower, paths));
    forall p | p in loaded ensures IsGreatest(lower, paths, loads, p) {
      GreatestOfBase(lower, paths, loads, p);
    }
    forall q, b | q in paths && loads(q) && HasBase(q.file, b) ensures BaseAmong(lower, loaded, b) {
      var p :| p in loaded && Stem(lower, p) == Stem(lower, q);
      StemAmong(lower, loaded, p, q, b);
    }
  }

  /** Two priorities of one program that load: only the greater lower-cased name is loaded. */
  lemma OnePriorityLoads(
    lower: Lower, paths: seq<Path>, loads: Path -> bool, p: Path, q: Path, a: string, b: string, rest: string)
    requires p in paths && q in paths && loads(p) && loads(q) && p != q
    requires '-' !in a && '-' !in b && p.file == a + "-" + rest && q.file == b + "-" + rest
    ensures var loaded := Selected(Grouped(lower, paths), loads);
            && !(p in loaded && q in loaded)
            && (Before(lower(p.file), lower(q.file)) ==> p !in loaded)
  {
    hide Selected, Grouped, Leq, BaseAmong;
    var loaded := Selected(Grouped(lower, paths), loads);
    LoadedByBase(lower, paths, loads);
    LeqTotal(lower(p.file), lower(q.file));
    assert HasBase(p.file, rest) && HasBase(q.file, rest);
    hide HasBase;
    if p in loaded && q in loaded {
      var i :| 0 <= i < |loaded| && loaded[i] == p;
      var j :| 0 <= j < |loaded| && loaded[j] == q;
      OneOfABase(lower, loaded, i, j, rest);
      OneOfABase(lower, loaded, j, i, rest);
    }
  }

  lemma OneOfABase(lower: Lower, files: seq<Path>, i: nat, j: nat, base: string)
    requires BasesAscend(lower, files) && i < |files| && j < |files|
    requires HasBase(files[i].file, base) && HasBase(files[j].file, base)
    ensures i >= j
  {
    hide HasBase, Leq;
    assert i < j ==> Before(lower(base), lower(base));
  }
}
