/**
 The column names of a result set: `dedup` and `normalize_cursor_description_names` of `axbi/result_set.py`.

 Names are already strings. Lower-casing is any map from characters to strings that leaves underscores and digits
 alone, applied to each character by itself.
 */
module ColumnNames {
  import opened Numerals

  // ---------------------------------------------------------------- de-duplication

  const SUFFIX := "__"

  type Casing = char -> string

  function Lower(s: string, lower: Casing): string { if s == "" then "" else lower(s[0]) + Lower(s[1..], lower) }

  function LowerAll(l: seq<string>, lower: Casing): seq<string> {
    seq(|l|, i requires 0 <= i < |l| => Lower(l[i], lower))
  }

  ghost predicate FixesSuffix(lower: Casing) {
    lower('_') == "_" && forall c :: '0' <= c <= '9' ==> lower(c) == [c]
  }

  /** Nor does it drop a character or make an underscore of another one. */
  ghost predicate MakesNoMark(lower: Casing) { forall c :: lower(c) != "" && ('_' in lower(c) ==> c == '_') }

  /** How items are compared: as they are, or lower-cased. */
  datatype Comparison = CaseSensitive | CaseInsensitive(lower: Casing) {
    function Fold(item: string): string { if CaseSensitive? then item else Lower(item, lower) }
  }

  /** What the items of a list are compared by. */
  function Keys(l: seq<string>, how: Comparison): seq<string> {
    if how.CaseSensitive? then l else LowerAll(l, how.lower)
  }

  function Count(keys: seq<string>, key: string): nat {
    if keys == [] then 0 else Count(keys[..|keys| - 1], key) + (if keys[|keys| - 1] == key then 1 else 0)
  }

  /** How many earlier keys equal key `i`. */
  function Earlier(keys: seq<string>, i: nat): nat
    requires i < |keys|
  {
    Count(keys[..i], keys[i])
  }

  function Suffixed(item: string, k: nat): string { if k == 0 then item else item + SUFFIX + Str(k) }

  /** The result as a specification: item `i`, suffixed by the number of earlier repetitions of its key. */
  function DedupedBy(l: seq<string>, keys: seq<string>): seq<string>
    requires |l| == |keys|
  {
    seq(|l|, i requires 0 <= i < |l| => Suffixed(l[i], Earlier(keys, i)))
  }

  function Deduped(l: seq<string>, how: Comparison): seq<string> { DedupedBy(l, Keys(l, how)) }

  ghost predicate Distinct(l: seq<string>) { forall i, j :: 0 <= i < j < |l| ==> l[i] != l[j] }

  /** No suffixed name is already one of the names given: a caller can check this before the call. */
  ghost predicate NoClash(l: seq<string>) {
    forall i :: 0 <= i < |l| && Earlier(l, i) > 0 ==> Suffixed(l[i], Earlier(l, i)) !in l
  }

  /** Counting back from the end, the first character that is not a digit is the last of the suffix. */
  lemma UnderscoreBeforeDigits(a: string, digits: string, n: nat)
    requires forall c <- digits :: '0' <= c <= '9'
    requires n <= |a| + |digits|
    ensures var s := a + SUFFIX + digits;
            && s[|s| - |digits| - 1] == '_'
            && (n < |digits| ==> s[|s| - n - 1] != '_')
  {
    if n < |digits| {
      assert digits[|digits| - n - 1] in digits;
    }
  }

  lemma SuffixIsInjective(a: string, b: string, j: nat, k: nat)
    requires a + SUFFIX + Str(j) == b + SUFFIX + Str(k)
    ensures a == b && j == k
  {
    var s, x, y := a + SUFFIX + Str(j), Str(j), Str(k);
    StrIsDigits(j);
    StrIsDigits(k);
    UnderscoreBeforeDigits(a, x, |y|);
    UnderscoreBeforeDigits(b, y, |x|);
    assert x == s[|s| - |x|..] && y == s[|s| - |y|..];
    StrIsInjective(j, k);
    assert a == s[..|a|] && b == s[..|b|];
  }

  lemma {:induction false} CountIsPositiveIff(keys: seq<string>, key: string)
    ensures Count(keys, key) > 0 <==> key in keys
  {
    if keys != [] {
      CountIsPositiveIff(keys[..|keys| - 1], key);
      assert keys == keys[..|keys| - 1] + [keys[|keys| - 1]];
    }
  }

  lemma {:induction false} CountGrows(keys: seq<string>, i: nat, j: nat)
    requires i < j <= |keys|
    ensures Count(keys[..i], keys[i]) < Count(keys[..j], keys[i])
  {
    assert keys[..j][..j - 1] == keys[..j - 1];
    if i < j - 1 {
      CountGrows(keys, i, j - 1);
    }
  }

  lemma FirstIndex(l: seq<string>, x: string, k: nat) returns (j: nat)
    requires k < |l| && l[k] == x
    ensures j < |l| && l[j] == x && Earlier(l, j) == 0
    decreases k
  {
    j := k;
    if Earlier(l, k) != 0 {
      CountIsPositiveIff(l[..k], x);
      var i :| 0 <= i < k && l[..k][i] == x;
      j := FirstIndex(l, x, i);
    }
  }

  /** The counter of an item is the number of the earlier items with its key. */
  lemma {:induction false} CountIsCardinality(keys: seq<string>, n: nat, key: string)
    requires n <= |keys|
    ensures Count(keys[..n], key) == |set j | 0 <= j < n && keys[j] == key|
  {
    var now := set j | 0 <= j < n && keys[j] == key;
    if n == 0 {
      assert now == {};
    } else {
      CountIsCardinality(keys, n - 1, key);
      var before := set j | 0 <= j < n - 1 && keys[j] == key;
      assert keys[..n][..n - 1] == keys[..n - 1] && keys[..n][n - 1] == keys[n - 1];
      assert now == if keys[n - 1] == key then before + {n - 1} else before;
    }
  }

  /** Item by item: one with `k` earlier items of its key gets a double underscore and the numeral of `k`, a first one
      stays. */
  lemma DedupedAt(l: seq<string>, keys: seq<string>, i: nat)
    requires |l| == |keys| && i < |l|
    ensures var k := |set j | 0 <= j < i && keys[j] == keys[i]|;
            DedupedBy(l, keys)[i] == (if k == 0 then l[i] else l[i] + "__" + Str(k)) && Value(Str(k)) == k
  {
    var k := |set j | 0 <= j < i && keys[j] == keys[i]|;
    CountIsCardinality(keys, i, keys[i]);
    StrIntReadsBack(k);
  }

  /** `dedup` returns unique names exactly when no suffixed name was given to it as well. */
  lemma DistinctIff(l: seq<string>)
    ensures Distinct(Deduped(l, CaseSensitive)) <==> NoClash(l)
  {
    var r := Deduped(l, CaseSensitive);
    if i :| 0 <= i < |l| && Earlier(l, i) > 0 && r[i] in l {
      var k :| 0 <= k < |l| && l[k] == r[i];
      var j := FirstIndex(l, r[i], k);
      assert r[j] == r[i] && l[j] != l[i];
    }
    forall i, j | 0 <= i < j < |l| && NoClash(l) ensures r[i] != r[j] {
      var a, b := Earlier(l, i), Earlier(l, j);
      if a > 0 && b > 0 && r[i] == r[j] {
        SuffixIsInjective(l[i], l[j], a, b);
        CountGrows(l, i, j);
      } else if b == 0 && l[i] == l[j] {
        CountGrows(l, i, j);
      }
    }
  }

  // ---------------------------------------------------------------- without regard to case

  lemma ConcatIsAssociative(a: string, b: string, c: string)
    ensures a + (b + c) == (a + b) + c
  {
  }

  lemma {:induction false} LowerOfConcat(a: string, b: string, lower: Casing)
    ensures Lower(a + b, lower) == Lower(a, lower) + Lower(b, lower)
  {
    if a == "" {
      assert a + b == b;
    } else {
      LowerOfConcat(a[1..], b, lower);
      assert (a + b)[1..] == a[1..] + b;
      ConcatIsAssociative(lower(a[0]), Lower(a[1..], lower), Lower(b, lower));
    }
  }

  lemma LowerOfOne(c: char, lower: Casing)
    ensures Lower([c], lower) == lower(c)
  {
    assert [c][1..] == "" && lower(c) + "" == lower(c);
  }

  lemma {:induction false} LowerOfDigits(s: string, lower: Casing)
    requires FixesSuffix(lower) && forall c <- s :: '0' <= c <= '9'
    ensures Lower(s, lower) == s
  {
    if s != "" {
      forall c <- s[1..] ensures c in s { }
      LowerOfDigits(s[1..], lower);
      assert s[0] in s && [s[0]] + s[1..] == s;
    }
  }

  lemma LowerOfSuffixed(item: string, k: nat, lower: Casing)
    requires FixesSuffix(lower)
    ensures Lower(Suffixed(item, k), lower) == Suffixed(Lower(item, lower), k)
  {
    if k > 0 {
      StrIsDigits(k);
      LowerOfDigits(Str(k), lower);
      LowerOfConcat(item, SUFFIX, lower);
      LowerOfConcat(item + SUFFIX, Str(k), lower);
      assert Lower(SUFFIX, lower) == SUFFIX by {
        assert SUFFIX[1..] == "_" && "_"[1..] == "";
      }
    }
  }

  /** Lower-casing the case-insensitive result gives the case-sensitive result of the lower-cased names ... */
  lemma LowerOfDeduped(l: seq<string>, lower: Casing)
    requires FixesSuffix(lower)
    ensures LowerAll(Deduped(l, CaseInsensitive(lower)), lower) == Deduped(LowerAll(l, lower), CaseSensitive)
  {
    var keys := LowerAll(l, lower);
    forall i | 0 <= i < |l| ensures LowerAll(DedupedBy(l, keys), lower)[i] == DedupedBy(keys, keys)[i] {
      LowerOfSuffixed(l[i], Earlier(keys, i), lower);
    }
  }

  /** ... so its names stay unique even after lower-casing exactly when the lower-cased names do not clash. */
  lemma DistinctIgnoringCaseIff(l: seq<string>, lower: Casing)
    requires FixesSuffix(lower)
    ensures Distinct(LowerAll(Deduped(l, CaseInsensitive(lower)), lower)) <==> NoClash(LowerAll(l, lower))
  {
    LowerOfDeduped(l, lower);
    DistinctIff(LowerAll(l, lower));
  }

  // ---------------------------------------------------------------- names without a double underscore

  predicate HasSuffixMark(s: string) { exists i :: 0 <= i < |s| - 1 && s[i] == '_' && s[i + 1] == '_' }

  /** Names that do not contain the suffix never clash. */
  lemma NoMarkNoClash(l: seq<string>)
    requires forall s <- l :: !HasSuffixMark(s)
    ensures NoClash(l)
  {
    forall i | 0 <= i < |l| && Earlier(l, i) > 0 ensures Suffixed(l[i], Earlier(l, i)) !in l {
      var s := Suffixed(l[i], Earlier(l, i));
      assert s[|l[i]|] == '_' && s[|l[i]| + 1] == '_';
    }
  }

  lemma UnderscoreFirst(s: string, lower: Casing, i: nat)
    requires MakesNoMark(lower) && s != "" && s[0] == '_' && |lower('_')| == 1
    requires i < 1 && i + 1 < |Lower(s, lower)| && Lower(s, lower)[i + 1] == '_'
    ensures HasSuffixMark(s)
  {
    var next := s[1..];
    assert Lower(s, lower) == lower('_') + Lower(next, lower);
    assert Lower(next, lower)[0] == '_' && next != "";
    assert lower(next[0])[0] == Lower(next, lower)[0] && lower(next[0])[0] in lower(next[0]);
    assert s[0] == '_' && s[0 + 1] == '_';
  }

  lemma {:induction false} LowerKeepsMarks(s: string, lower: Casing)
    requires FixesSuffix(lower) && MakesNoMark(lower) && HasSuffixMark(Lower(s, lower))
    ensures HasSuffixMark(s)
  {
    var t := Lower(s, lower);
    var i :| 0 <= i < |t| - 1 && t[i] == '_' && t[i + 1] == '_';
    var first, rest := lower(s[0]), Lower(s[1..], lower);
    assert t == first + rest;
    if i >= |first| {
      assert rest[i - |first|] == '_' && rest[i + 1 - |first|] == '_';
      LowerKeepsMarks(s[1..], lower);
      var j :| 0 <= j < |s[1..]| - 1 && s[1..][j] == '_' && s[1..][j + 1] == '_';
      assert s[j + 1] == '_' && s[j + 1 + 1] == '_';
    } else {
      assert first[i] in first;
      assert s[0] == '_';
      UnderscoreFirst(s, lower, i);
    }
  }

  /** Both modes return unique names for names that do not contain the suffix. */
  lemma NoMarkDistinct(l: seq<string>, lower: Casing)
    requires FixesSuffix(lower) && MakesNoMark(lower) && forall s <- l :: !HasSuffixMark(s)
    ensures Distinct(Deduped(l, CaseSensitive)) && Distinct(LowerAll(Deduped(l, CaseInsensitive(lower)), lower))
  {
    NoMarkNoClash(l);
    DistinctIff(l);
    forall s <- LowerAll(l, lower) ensures !HasSuffixMark(s) {
      var i :| 0 <= i < |l| && Lower(l[i], lower) == s;
      assert l[i] in l;
      if HasSuffixMark(s) { LowerKeepsMarks(l[i], lower); }
    }
    NoMarkNoClash(LowerAll(l, lower));
    DistinctIgnoringCaseIff(l, lower);
  }

  /** The docstring's promise of unique values fails on `a, a, a__1`. */
  lemma PromiseFails()
    ensures Deduped(["a", "a", "a__1"], CaseSensitive) == ["a", "a__1", "a__1"]
    ensures !Distinct(Deduped(["a", "a", "a__1"], CaseSensitive))
  {
    var l := ["a", "a", "a__1"];
    assert l[..0] == [] && l[..1] == ["a"] && l[..2] == ["a", "a"];
    assert ["a"][..0] == [] && ["a", "a"][..1] == ["a"];
    assert Earlier(l, 0) == 0 && Earlier(l, 1) == 1 && Earlier(l, 2) == 0;
    assert Str(1) == "1" && Suffixed("a", 1) == "a__1";
    assert Deduped(l, CaseSensitive) == ["a", "a__1", "a__1"];
    assert Deduped(l, CaseSensitive)[1] == Deduped(l, CaseSensitive)[2];
  }

  /** `seen` holds, for each key met so far, the number of its repetitions. */
  ghost predicate CountsRepetitions(seen: map<string, nat>, keys: seq<string>) {
    forall key :: Count(keys, key) == if key in seen then seen[key] + 1 else 0
  }

  lemma CountsOneMore(seen: map<string, nat>, keys: seq<string>, i: nat)
    requires i < |keys| && CountsRepetitions(seen, keys[..i])
    ensures var repetitions := if keys[i] in seen then seen[keys[i]] + 1 else 0;
            && Earlier(keys, i) == repetitions
            && CountsRepetitions(seen[keys[i] := repetitions], keys[..i + 1])
  {
    assert keys[..i + 1][..i] == keys[..i];
  }

  /** `dedup`. */
  method Dedup(l: seq<string>, how: Comparison) returns (names: seq<string>)
    ensures names == Deduped(l, how)
  {
    names := [];
    var seen: map<string, nat> := map[];
    ghost var keys := Keys(l, how);
    for i := 0 to |l|
      invariant names == DedupedBy(l, keys)[..i]
      invariant CountsRepetitions(seen, keys[..i])
    {
      var item := l[i];
      var key := how.Fold(item);
      assert key == keys[i];
      CountsOneMore(seen, keys, i);
      assert DedupedBy(l, keys)[i] == Suffixed(item, if key in seen then seen[key] + 1 else 0);
      if key in seen {
        seen := seen[key := seen[key] + 1];
        item := Suffixed(item, seen[key]);
      } else {
        seen := seen[key := 0];
      }
      names := names + [item];
    }
  }

  // ---------------------------------------------------------------- synthetic names

  function Synthetic(k: nat): string { "_col_" + Str(k) }

  lemma SyntheticIsInjective(j: nat, k: nat)
    requires Synthetic(j) == Synthetic(k)
    ensures j == k
  {
    assert Synthetic(j)[5..] == Str(j) && Synthetic(k)[5..] == Str(k);
    StrIsInjective(j, k);
  }

  lemma SyntheticHasNoMark(k: nat)
    ensures !HasSuffixMark(Synthetic(k))
  {
    StrIsDigits(k);
    if i :| 0 <= i < |Synthetic(k)| - 1 && Synthetic(k)[i] == '_' && Synthetic(k)[i + 1] == '_' {
      assert i + 1 >= 5 ==> Synthetic(k)[i + 1] == Str(k)[i - 4];
      assert i + 1 >= 5 ==> Str(k)[i - 4] in Str(k);
    }
  }

  /** The unavailable names at or beyond the counter: what makes the open-ended search end. */
  ghost function Ahead(unavailable: set<string>, index: nat): set<string> {
    set s | s in unavailable && exists k :: k >= index && s == Synthetic(k)
  }

  lemma {:induction false} Smaller(a: set<string>, b: set<string>)
    requires a <= b
    ensures |a| <= |b|
  {
    if x :| x in a {
      Smaller(a - {x}, b - {x});
    }
  }

  lemma AheadShrinks(unavailable: set<string>, index: nat)
    requires Synthetic(index) in unavailable
    ensures |Ahead(unavailable, index + 1)| < |Ahead(unavailable, index)|
  {
    var now, next := Ahead(unavailable, index), Ahead(unavailable, index + 1);
    if Synthetic(index) in next {
      var k :| k >= index + 1 && Synthetic(index) == Synthetic(k);
      SyntheticIsInjective(index, k);
    }
    assert next <= now - {Synthetic(index)};
    Smaller(next, now - {Synthetic(index)});
  }

  /** The name at `i` is the synthetic name `at[i]`, the first one that is neither given nor already used. */
  ghost predicate FirstFree(cols: seq<string>, at: seq<nat>, i: nat)
    requires i < |at| && |at| <= |cols|
  {
    && Synthetic(at[i]) !in cols
    && (forall j :: 0 <= j < i && cols[j] == "" ==> at[j] < at[i])
    && (forall k :: 0 <= k < at[i] ==> Synthetic(k) in cols || exists j :: 0 <= j < i && cols[j] == "" && at[j] == k)
  }

  /** The unavailable names: the given ones and the synthetic ones used for the first `|at|` columns. */
  ghost predicate Unavailable(cols: seq<string>, at: seq<nat>, names: set<string>)
    requires |at| <= |cols|
  {
    forall s :: s in names <==>
      (s in cols && s != "") || exists j :: 0 <= j < |at| && cols[j] == "" && s == Synthetic(at[j])
  }

  /** The search has passed every synthetic name below `index`, and only unavailable ones. */
  ghost predicate Searched(cols: seq<string>, at: seq<nat>, names: set<string>, index: nat)
    requires |at| <= |cols|
  {
    && (forall k :: 0 <= k < index ==> Synthetic(k) in names)
    && (forall j :: 0 <= j < |at| && cols[j] == "" ==> at[j] < index)
  }

  /** A name that is given stays, an empty one is the first free synthetic name. */
  ghost predicate Named(cols: seq<string>, at: seq<nat>, i: nat, name: string)
    requires i < |at| && |at| <= |cols|
  {
    if cols[i] != "" then name == cols[i] else name == Synthetic(at[i]) && FirstFree(cols, at, i)
  }

  ghost predicate Normalized(cols: seq<string>, at: seq<nat>, names: seq<string>) {
    |names| == |at| == |cols| && forall i :: 0 <= i < |cols| ==> Named(cols, at, i, names[i])
  }

  /** The open-ended search for the first free synthetic name from the counter on. */
  method FindFree(unavailable: set<string>, index: nat) returns (free: nat)
    ensures free >= index && Synthetic(free) !in unavailable
    ensures forall k :: index <= k < free ==> Synthetic(k) in unavailable
  {
    free := index;
    while Synthetic(free) in unavailable
      invariant free >= index && forall k :: index <= k < free ==> Synthetic(k) in unavailable
      decreases |Ahead(unavailable, free)|
    {
      AheadShrinks(unavailable, free);
      free := free + 1;
    }
  }

  lemma NamedStays(cols: seq<string>, before: seq<nat>, at: seq<nat>, i: nat)
    requires |before| == i < |at| <= |cols| && before <= at
    ensures forall j, name :: 0 <= j < i && Named(cols, before, j, name) ==> Named(cols, at, j, name)
  {
  }

  lemma FreeIsFirst(cols: seq<string>, at: seq<nat>, unavailable: set<string>, index: nat)
    requires |at| < |cols| && cols[|at|] == ""
    requires Unavailable(cols, at, unavailable) && Searched(cols, at, unavailable, index)
    requires Synthetic(index) !in unavailable
    ensures Named(cols, at + [index], |at|, Synthetic(index))
    ensures Unavailable(cols, at + [index], unavailable + {Synthetic(index)})
    ensures Searched(cols, at + [index], unavailable + {Synthetic(index)}, index + 1)
  {
    var next := at + [index];
    forall k | 0 <= k < index ensures Synthetic(k) in cols || exists j :: 0 <= j < |at| && cols[j] == "" && next[j] == k {
      if Synthetic(k) !in cols {
        var j :| 0 <= j < |at| && cols[j] == "" && Synthetic(k) == Synthetic(at[j]);
        SyntheticIsInjective(k, at[j]);
        assert next[j] == k;
      }
    }
    forall s ensures s in unavailable + {Synthetic(index)} <==>
        (s in cols && s != "") || exists j :: 0 <= j < |next| && cols[j] == "" && s == Synthetic(next[j])
    {
      if j :| 0 <= j < |at| && cols[j] == "" && s == Synthetic(at[j]) {
        assert next[j] == at[j];
      }
      assert next[|at|] == index;
    }
  }

  /** `normalize_cursor_description_names`. The search for a free name terminates. */
  method NormalizeCursorDescriptionNames(cols: seq<string>) returns (names: seq<string>)
    ensures exists at :: Normalized(cols, at, names)
  {
    names := [];
    ghost var at: seq<nat> := [];
    var unavailable := set c | c in cols && c != "";
    var index := 0;
    for i := 0 to |cols|
      invariant |names| == |at| == i
      invariant forall j :: 0 <= j < i ==> Named(cols, at, j, names[j])
      invariant Unavailable(cols, at, unavailable) && Searched(cols, at, unavailable, index)
    {
      ghost var before := at;
      if cols[i] != "" {
        names, at := names + [cols[i]], at + [0];
      } else {
        var free := FindFree(unavailable, index);
        FreeIsFirst(cols, at, unavailable, free);
        unavailable := unavailable + {Synthetic(free)};
        names, at, index := names + [Synthetic(free)], at + [free], free + 1;
      }
      NamedStays(cols, before, at, i);
    }
    assert Normalized(cols, at, names);
  }

  lemma {:induction false} FirstFreeIsUnique(cols: seq<string>, a: seq<nat>, b: seq<nat>, m: seq<string>, n: seq<string>,
                                             i: nat)
    requires Normalized(cols, a, m) && Normalized(cols, b, n) && i < |cols| && cols[i] == ""
    ensures a[i] == b[i]
  {
    assert Named(cols, a, i, m[i]) && Named(cols, b, i, n[i]);
    forall j | 0 <= j < i && cols[j] == "" ensures a[j] == b[j] {
      FirstFreeIsUnique(cols, a, b, m, n, j);
    }
  }

  /** The description leaves no choice: there is one normalised list for each list of given names. */
  lemma NormalizedIsUnique(cols: seq<string>, a: seq<nat>, b: seq<nat>, m: seq<string>, n: seq<string>)
    requires Normalized(cols, a, m) && Normalized(cols, b, n)
    ensures m == n
  {
    forall i | 0 <= i < |cols| ensures m[i] == n[i] {
      assert Named(cols, a, i, m[i]) && Named(cols, b, i, n[i]);
      if cols[i] == "" { FirstFreeIsUnique(cols, a, b, m, n, i); }
    }
  }

  /** Two unnamed columns around one that took the first synthetic name. */
  lemma NormalizedExample(at: seq<nat>, names: seq<string>)
    requires Normalized(["", "_col_0", ""], at, names)
    ensures names == ["_col_1", "_col_0", "_col_2"]
  {
    var cols := ["", "_col_0", ""];
    assert Str(0) == "0" && Str(1) == "1" && Str(2) == "2";
    assert Synthetic(0) == "_col_0" && Synthetic(1) == "_col_1" && Synthetic(2) == "_col_2";
    var expected: seq<nat> := [1, 0, 2];
    assert Named(cols, expected, 0, "_col_1") by {
      assert cols[1] == "_col_0";
      assert Synthetic(1) !in cols;
    }
    assert Named(cols, expected, 1, "_col_0");
    assert Named(cols, expected, 2, "_col_2") by {
      assert Synthetic(2) !in cols && cols[0] == "" && expected[0] == 1;
    }
    NormalizedIsUnique(cols, at, expected, names, ["_col_1", "_col_0", "_col_2"]);
  }

  /** Normalising leaves no empty name, and a synthetic name equals no other name of the result. */
  lemma SyntheticNamesAreFresh(cols: seq<string>, at: seq<nat>, names: seq<string>)
    requires Normalized(cols, at, names)
    ensures forall i :: 0 <= i < |names| ==> names[i] != ""
    ensures forall i, j :: 0 <= i < |names| && 0 <= j < |names| && i != j && cols[i] == "" ==> names[i] != names[j]
  {
    forall i, j | 0 <= i < |names| && 0 <= j < |names| && i != j && cols[i] == "" ensures names[i] != names[j] {
      assert Named(cols, at, i, names[i]) && Named(cols, at, j, names[j]);
      if cols[j] == "" && names[i] == names[j] {
        SyntheticIsInjective(at[i], at[j]);
      }
    }
  }

  /** Only given names can bring in the suffix. */
  lemma MarksAreGiven(cols: seq<string>, at: seq<nat>, names: seq<string>)
    requires Normalized(cols, at, names) && forall c <- cols :: !HasSuffixMark(c)
    ensures forall s <- names :: !HasSuffixMark(s)
  {
    forall s <- names ensures !HasSuffixMark(s) {
      var i :| 0 <= i < |names| && names[i] == s;
      assert Named(cols, at, i, names[i]) && cols[i] in cols;
      SyntheticHasNoMark(at[i]);
    }
  }

  lemma DedupedIsNotEmpty(l: seq<string>)
    requires forall i :: 0 <= i < |l| ==> l[i] != ""
    ensures forall i :: 0 <= i < |l| ==> Deduped(l, CaseSensitive)[i] != ""
  {
  }

  lemma UnmarkedIsDistinct(cols: seq<string>, at: seq<nat>, normalized: seq<string>)
    requires Normalized(cols, at, normalized) && forall c <- cols :: !HasSuffixMark(c)
    ensures Distinct(Deduped(normalized, CaseSensitive))
  {
    MarksAreGiven(cols, at, normalized);
    NoMarkNoClash(normalized);
    DistinctIff(normalized);
  }

  /** The column names of a result set: as many as the cursor describes, none empty, and unique exactly when the
      normalised names do not clash, in particular when no given name contains a double underscore. */
  method ResultColumnNames(cols: seq<string>) returns (names: seq<string>)
    ensures exists at, normalized ::
              && Normalized(cols, at, normalized) && names == Deduped(normalized, CaseSensitive)
              && (Distinct(names) <==> NoClash(normalized))
    ensures |names| == |cols| && forall i :: 0 <= i < |names| ==> names[i] != ""
    ensures (forall c <- cols :: !HasSuffixMark(c)) ==> Distinct(names)
  {
    var normalized := NormalizeCursorDescriptionNames(cols);
    names := Dedup(normalized, CaseSensitive);
    ghost var at :| Normalized(cols, at, normalized);
    DistinctIff(normalized);
    SyntheticNamesAreFresh(cols, at, normalized);
    DedupedIsNotEmpty(normalized);
    if forall c <- cols :: !HasSuffixMark(c) { UnmarkedIsDistinct(cols, at, normalized); }
  }
}
