/** Device names as directory names and back: `sysname_to_bpffs` and `bpffs_to_sysname` of src/bpf.rs. */
module Sysnames {

  /** A directory name cannot keep these apart. */
  predicate IsSeparator(c: char) {
    c == ':' || c == '.' || c == '_'
  }

  /** `sysname.replace([':', '.'], "_")` */
  function ToBpffs(s: string): (r: string)
    ensures |r| == |s|
  {
    if s == "" then "" else [if s[0] == ':' || s[0] == '.' then '_' else s[0]] + ToBpffs(s[1..])
  }

  /** `splitn(n, '_')`: at most n parts, the last one with the remaining underscores */
  function SplitN(s: string, n: nat): (parts: seq<string>)
    requires n > 0
    ensures 0 < |parts| <= n
  {
    if s == "" then [""]
    else if n == 1 then [s]
    else if s[0] == '_' then [""] + SplitN(s[1..], n - 1)
    else
      var rest := SplitN(s[1..], n);
      [[s[0]] + rest[0]] + rest[1..]
  }

  function Join(parts: seq<string>, separator: string): string {
    if parts == [] then "" else if |parts| == 1 then parts[0] else parts[0] + separator + Join(parts[1..], separator)
  }

  function ToSysname(name: string): string {
    var parts := SplitN(name, 4);
    if |parts| == 4 then parts[0] + ":" + parts[1] + ":" + parts[2] + "." + parts[3] else Join(parts, ":")
  }

  /** The separators of a name, in order */
  function Separators(s: string): string {
    if s == "" then "" else (if IsSeparator(s[0]) then [s[0]] else "") + Separators(s[1..])
  }

  /**
   * Bus, vendor and product end in a colon, a colon and a dot, and only
   * underscores follow; with fewer separators all are colons.
   */
  predicate WellFormed(s: string) {
    var found := Separators(s);
    if |found| < 3 then forall i :: 0 <= i < |found| ==> found[i] == ':'
    else found[0] == ':' && found[1] == ':' && found[2] == '.' && forall i :: 3 <= i < |found| ==> found[i] == '_'
  }

  // ----- The round trip -----

  /** What separator number k of a directory name with some total of them turns into */
  function Restored(k: nat, total: nat): char {
    if total < 3 || k < 2 then ':' else if k == 2 then '.' else '_'
  }

  /** A name with each separator replaced by what it turns into, counting from k */
  function Mark(s: string, k: nat, total: nat): string {
    if s == "" then ""
    else if IsSeparator(s[0]) then [Restored(k, total)] + Mark(s[1..], k + 1, total)
    else [s[0]] + Mark(s[1..], k, total)
  }

  /** The parts with their separators, counting from k */
  function Glue(parts: seq<string>, k: nat, total: nat): string
    requires parts != []
  {
    if |parts| == 1 then parts[0] else parts[0] + [Restored(k, total)] + Glue(parts[1..], k + 1, total)
  }

  lemma {:induction false} GlueSplit(s: string, k: nat, total: nat)
    requires k <= 3 && k + |Separators(s)| == total
    ensures Glue(SplitN(ToBpffs(s), 4 - k), k, total) == Mark(s, k, total)
    ensures |SplitN(ToBpffs(s), 4 - k)| == (if |Separators(s)| < 4 - k then |Separators(s)| else 3 - k) + 1
    decreases |s|
  {
    hide Glue, Restored, SplitN, Mark;
    if s == "" {
      NothingToSplit(k, total);
    } else if k == 3 {
      OnePart(s, total);
    } else if IsSeparator(s[0]) {
      GlueSplit(s[1..], k + 1, total);
      SplitSeparator(s, k, total);
      GlueEmpty(SplitN(ToBpffs(s[1..]), 3 - k), k, total);
    } else {
      GlueSplit(s[1..], k, total);
      SplitCharacter(s, k, total);
      GlueCons(s[0], SplitN(ToBpffs(s[1..]), 4 - k), k, total);
    }
  }

  lemma NothingToSplit(k: nat, total: nat)
    requires k <= 3
    ensures SplitN("", 4 - k) == [""] && Glue([""], k, total) == Mark("", k, total)
  {}

  lemma OnePart(s: string, total: nat)
    requires s != "" && total >= 3
    ensures SplitN(ToBpffs(s), 1) == [ToBpffs(s)] && Glue([ToBpffs(s)], 3, total) == Mark(s, 3, total)
  {
    LastPart(s, 3, total);
  }

  /** A separator ends a part. */
  lemma SplitSeparator(s: string, k: nat, total: nat)
    requires s != "" && k < 3 && IsSeparator(s[0])
    ensures SplitN(ToBpffs(s), 4 - k) == [""] + SplitN(ToBpffs(s[1..]), 3 - k)
    ensures Mark(s, k, total) == [Restored(k, total)] + Mark(s[1..], k + 1, total)
  {
    hide Restored;
    assert ToBpffs(s)[1..] == ToBpffs(s[1..]);
  }

  lemma GlueEmpty(rest: seq<string>, k: nat, total: nat)
    requires rest != []
    ensures Glue([""] + rest, k, total) == [Restored(k, total)] + Glue(rest, k + 1, total)
  {
    hide Restored;
    assert ([""] + rest)[1..] == rest;
    assert "" + [Restored(k, total)] == [Restored(k, total)];
  }

  /** Any other character belongs to the part that follows. */
  lemma SplitCharacter(s: string, k: nat, total: nat)
    requires s != "" && k < 3 && !IsSeparator(s[0])
    ensures var rest := SplitN(ToBpffs(s[1..]), 4 - k);
            SplitN(ToBpffs(s), 4 - k) == [[s[0]] + rest[0]] + rest[1..]
    ensures Mark(s, k, total) == [s[0]] + Mark(s[1..], k, total)
  {
    hide Restored;
    assert ToBpffs(s)[1..] == ToBpffs(s[1..]);
  }

  lemma GlueCons(c: char, parts: seq<string>, k: nat, total: nat)
    requires parts != []
    ensures Glue([[c] + parts[0]] + parts[1..], k, total) == [c] + Glue(parts, k, total)
  {
    var longer := [[c] + parts[0]] + parts[1..];
    assert longer[1..] == parts[1..];
    if |parts| > 1 {
      var rest := [Restored(k, total)] + Glue(parts[1..], k + 1, total);
      assert [c] + parts[0] + [Restored(k, total)] + Glue(parts[1..], k + 1, total) == [c] + (parts[0] + rest);
      assert parts[0] + [Restored(k, total)] + Glue(parts[1..], k + 1, total) == parts[0] + rest;
    }
  }

  /** Behind the third separator every separator becomes an underscore. */
  lemma {:induction false} LastPart(s: string, k: nat, total: nat)
    requires k >= 3 && total >= 3
    ensures Mark(s, k, total) == ToBpffs(s)
    decreases |s|
  {
    if s != "" { LastPart(s[1..], if IsSeparator(s[0]) then k + 1 else k, total); }
  }

  predicate AllRestored(found: string, k: nat, total: nat) {
    found == "" || (found[0] == Restored(k, total) && AllRestored(found[1..], k + 1, total))
  }

  lemma {:induction false} AllRestoredAt(found: string, k: nat, total: nat)
    ensures AllRestored(found, k, total) <==> forall i :: 0 <= i < |found| ==> found[i] == Restored(k + i, total)
    decreases |found|
  {
    hide Restored;
    if found != "" {
      AllRestoredAt(found[1..], k + 1, total);
      if forall i :: 0 <= i < |found| ==> found[i] == Restored(k + i, total) {
        forall i | 0 <= i < |found[1..]| ensures found[1..][i] == Restored(k + 1 + i, total) {
          assert found[i + 1] == Restored(k + (i + 1), total);
        }
      }
      if AllRestored(found, k, total) {
        forall i | 0 <= i < |found| ensures found[i] == Restored(k + i, total) {
          if i > 0 { assert found[1..][i - 1] == Restored(k + 1 + (i - 1), total); }
        }
      }
    }
  }

  lemma {:induction false} MarkKeeps(s: string, k: nat, total: nat)
    ensures Mark(s, k, total) == s <==> AllRestored(Separators(s), k, total)
    decreases |s|
  {
    hide Restored;
    if s != "" {
      assert s == [s[0]] + s[1..];
      if IsSeparator(s[0]) {
        MarkKeeps(s[1..], k + 1, total);
        assert Separators(s)[1..] == Separators(s[1..]);
        assert Mark(s, k, total)[1..] == Mark(s[1..], k + 1, total);
      } else {
        MarkKeeps(s[1..], k, total);
        assert Separators(s) == Separators(s[1..]);
        assert Mark(s, k, total)[1..] == Mark(s[1..], k, total);
      }
    }
  }

  /** With few parts every separator is a colon. */
  lemma {:induction false} GlueIsJoin(parts: seq<string>, k: nat, total: nat)
    requires parts != [] && total < 3
    ensures Glue(parts, k, total) == Join(parts, ":")
    decreases |parts|
  {
    if |parts| > 1 { GlueIsJoin(parts[1..], k + 1, total); }
  }

  lemma GlueFour(a: string, b: string, c: string, d: string, total: nat)
    requires total >= 3
    ensures Glue([a, b, c, d], 0, total) == a + ":" + b + ":" + c + "." + d
  {
    var three, two := [b, c, d], [c, d];
    assert [a, b, c, d][1..] == three && three[1..] == two && two[1..] == [d];
    assert Glue(two, 2, total) == c + "." + d;
    assert Glue(three, 1, total) == b + ":" + Glue(two, 2, total);
    assert a + ":" + (b + ":" + (c + "." + d)) == a + ":" + b + ":" + c + "." + d;
  }

  /** A device name survives the directory name exactly when it is well formed. */
  lemma RoundTripIff(s: string)
    ensures ToSysname(ToBpffs(s)) == s <==> WellFormed(s)
  {
    hide SplitN, ToBpffs, Glue, Mark, Join, Separators;
    var total := |Separators(s)|;
    GlueSplit(s, 0, total);
    var parts := SplitN(ToBpffs(s), 4);
    if |parts| == 4 {
      assert parts == [parts[0], parts[1], parts[2], parts[3]];
      GlueFour(parts[0], parts[1], parts[2], parts[3], total);
    } else {
      GlueIsJoin(parts, 0, total);
    }
    MarkKeeps(s, 0, total);
    AllRestoredAt(Separators(s), 0, total);
  }

  // ----- Character by character -----

  /** Colons and dots become underscores and nothing else changes. */
  lemma {:induction false} ToBpffsAt(s: string, i: nat)
    requires i < |s|
    ensures ToBpffs(s)[i] == if s[i] == ':' || s[i] == '.' then '_' else s[i]
  {
    if i > 0 { ToBpffsAt(s[1..], i - 1); }
  }

  lemma {:induction false} SplitFirst(a: string, rest: string, n: nat)
    requires n > 1 && '_' !in a
    ensures SplitN(a + "_" + rest, n) == [a] + SplitN(rest, n - 1)
  {
    var s := a + "_" + rest;
    if a == "" {
      assert s[1..] == rest;
    } else {
      assert s[1..] == a[1..] + "_" + rest && s[0] == a[0];
      SplitFirst(a[1..], rest, n);
      assert a == [a[0]] + a[1..];
    }
  }

  lemma LastOne(d: string)
    ensures SplitN(d, 1) == [d]
  {}

  /** Bus, vendor and product end at the first three underscores; what follows is kept as it is. */
  lemma FourParts(a: string, b: string, c: string, d: string)
    requires '_' !in a && '_' !in b && '_' !in c
    ensures ToSysname(a + "_" + b + "_" + c + "_" + d) == a + ":" + b + ":" + c + "." + d
  {
    hide SplitN;
    var name := a + "_" + b + "_" + c + "_" + d;
    assert name == a + "_" + (b + "_" + (c + "_" + d));
    SplitFirst(a, b + "_" + (c + "_" + d), 4);
    SplitFirst(b, c + "_" + d, 3);
    SplitFirst(c, d, 2);
    LastOne(d);
    assert SplitN(name, 4) == [a, b, c, d];
  }
}
