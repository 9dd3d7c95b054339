/**
 The partition diagram of `axbi/viz.py`: group-by sums at every prefix of the group columns, nested into a tree.

 A group label is represented by its rank in the sort order of its column, so a key is a sequence of integers and
 pandas' sorted index is the lexicographic order on keys. Metrics are real numbers.
 */
module Partition {
  type Key = seq<int>

  datatype Row = Row(time: int, labels: Key, metrics: map<string, real>)

  datatype Entry = Entry(key: Key, val: real)

  /** A pandas series; grouped ones have strictly ascending keys. */
  type Series = seq<Entry>

  datatype Node = Node(name: Key, val: real, children: seq<Node>)

  datatype Root = Root(metric: string, val: real, children: seq<Node>)

  // ---------------------------------------------------------------- keys in order

  predicate Less(a: Key, b: Key) {
    b != [] && (a == [] || a[0] < b[0] || (a[0] == b[0] && Less(a[1..], b[1..])))
  }

  lemma {:induction false} LessIsTransitive(a: Key, b: Key, c: Key)
    requires Less(a, b) && Less(b, c)
    ensures Less(a, c)
  {
    if a != [] && a[0] == b[0] == c[0] {
      LessIsTransitive(a[1..], b[1..], c[1..]);
    }
  }

  lemma {:induction false} LessIsTotal(a: Key, b: Key)
    ensures Less(a, b) || a == b || Less(b, a)
    ensures !(Less(a, b) && Less(b, a)) && !Less(a, a)
  {
    if a != [] {
      LessIsTotal(a[1..], a[1..]);
    }
    if a != [] && b != [] && a[0] == b[0] {
      LessIsTotal(a[1..], b[1..]);
      assert a == [a[0]] + a[1..] && b == [b[0]] + b[1..];
    }
  }

  /** Keys under a smaller prefix of the same length come first. */
  lemma {:induction false} LessByPrefix(p: Key, q: Key, a: Key, b: Key)
    requires |p| == |q| && Less(p, q) && p <= a && q <= b
    ensures Less(a, b)
  {
    assert p != [] && a[0] == p[0] && b[0] == q[0];
    if p[0] == q[0] {
      LessByPrefix(p[1..], q[1..], a[1..], b[1..]);
    }
  }

  ghost predicate Sorted(s: Series) {
    forall i, j :: 0 <= i < j < |s| ==> Less(s[i].key, s[j].key)
  }

  predicate HasKey(s: Series, k: Key) { exists i :: 0 <= i < |s| && s[i].key == k }

  /** The sum of the values whose key extends `p`. */
  function TotalUnder(s: Series, p: Key): real {
    if s == [] then 0.0
    else (if p <= s[0].key then s[0].val else 0.0) + TotalUnder(s[1..], p)
  }

  ghost predicate Uniform(s: Series, n: nat) { forall e <- s :: |e.key| == n }

  lemma {:induction false} NoKeyNoTotal(s: Series, k: Key)
    requires Uniform(s, |k|) && !HasKey(s, k)
    ensures TotalUnder(s, k) == 0.0
  {
    if s != [] {
      assert s[0].key != k;
      assert forall i :: 0 <= i < |s[1..]| ==> s[1..][i] == s[i + 1];
      NoKeyNoTotal(s[1..], k);
    }
  }

  /** In a grouped series the value of a key is the total under it. */
  lemma {:induction false} ValueIsTotal(s: Series, n: nat, i: nat)
    requires Sorted(s) && Uniform(s, n) && i < |s|
    ensures TotalUnder(s, s[i].key) == s[i].val
  {
    var k := s[i].key;
    if i == 0 {
      forall j | 0 <= j < |s[1..]| ensures s[1..][j].key != k { LessIsTotal(k, s[j + 1].key); }
      NoKeyNoTotal(s[1..], k);
    } else {
      LessIsTotal(s[0].key, k);
      assert s[1..][i - 1] == s[i];
      assert s[0].key[..|k|] == s[0].key;
      assert s[0].key != k;
      assert TotalUnder(s, k) == TotalUnder(s[1..], k);
      ValueIsTotal(s[1..], n, i - 1);
    }
  }

  lemma TailElements(s: Series, e: Entry)
    requires Sorted(s) && s != []
    ensures e in s[1..] <==> e in s && e != s[0]
  {
    LessIsTotal(s[0].key, s[0].key);
    if e in s && e != s[0] {
      var i :| 0 <= i < |s| && s[i] == e;
      assert s[1..][i - 1] == e;
    }
  }

  lemma {:induction false} SameElements(a: Series, b: Series)
    requires Sorted(a) && Sorted(b)
    requires forall e :: e in a <==> e in b
    ensures a == b
  {
    assert a != [] ==> a[0] in a;
    assert b != [] ==> b[0] in b;
    if a != [] && b != [] {
      LessIsTotal(a[0].key, b[0].key);
      forall e ensures e in a[1..] <==> e in b[1..] {
        TailElements(a, e);
        TailElements(b, e);
      }
      SameElements(a[1..], b[1..]);
    }
  }

  lemma ElementInOther(a: Series, b: Series, n: nat, e: Entry)
    requires Sorted(a) && Sorted(b) && Uniform(a, n) && Uniform(b, n) && e in a
    requires forall k :: HasKey(a, k) <==> HasKey(b, k)
    requires forall k :: |k| == n ==> TotalUnder(a, k) == TotalUnder(b, k)
    ensures e in b
  {
    var i :| 0 <= i < |a| && a[i] == e;
    assert HasKey(a, e.key);
    var j :| 0 <= j < |b| && b[j].key == e.key;
    ValueIsTotal(a, n, i);
    ValueIsTotal(b, n, j);
  }

  /** Two grouped series with the same keys and the same totals are the same series. */
  lemma SeriesAreEqual(a: Series, b: Series, n: nat)
    requires Sorted(a) && Sorted(b) && Uniform(a, n) && Uniform(b, n)
    requires forall k :: HasKey(a, k) <==> HasKey(b, k)
    requires forall k :: |k| == n ==> TotalUnder(a, k) == TotalUnder(b, k)
    ensures a == b
  {
    forall e ensures e in a <==> e in b {
      if e in a { ElementInOther(a, b, n, e); }
      if e in b { ElementInOther(b, a, n, e); }
    }
    SameElements(a, b);
  }

  lemma TailKeys(s: Series, q: Key)
    requires Sorted(s) && s != []
    ensures HasKey(s[1..], q) <==> HasKey(s, q) && q != s[0].key
  {
    if HasKey(s[1..], q) {
      var i :| 0 <= i < |s[1..]| && s[1..][i].key == q;
      assert s[i + 1].key == q;
      LessIsTotal(s[0].key, q);
    }
    if HasKey(s, q) && q != s[0].key {
      var i :| 0 <= i < |s| && s[i].key == q;
      assert s[1..][i - 1].key == q;
    }
  }

  // ---------------------------------------------------------------- group-by

  function AddTo(s: Series, e: Entry): Series {
    if s == [] then [e]
    else if s[0].key == e.key then [Entry(e.key, e.val + s[0].val)] + s[1..]
    else if Less(e.key, s[0].key) then [e] + s
    else [s[0]] + AddTo(s[1..], e)
  }

  /** `groupby(...).sum()`: one entry for each distinct key, in key order. */
  function GroupSum(s: Series): Series {
    if s == [] then [] else AddTo(GroupSum(s[1..]), s[0])
  }

  lemma HeadOrTail(s: Series, k: Key)
    requires s != []
    ensures HasKey(s, k) <==> s[0].key == k || HasKey(s[1..], k)
  {
  }

  lemma {:induction false} AddToKeys(s: Series, e: Entry)
    ensures forall k :: HasKey(AddTo(s, e), k) <==> k == e.key || HasKey(s, k)
    ensures forall p :: TotalUnder(AddTo(s, e), p) == TotalUnder(s, p) + (if p <= e.key then e.val else 0.0)
  {
    var r := AddTo(s, e);
    if s != [] && s[0].key != e.key && !Less(e.key, s[0].key) {
      AddToKeys(s[1..], e);
    }
    forall k ensures HasKey(r, k) <==> k == e.key || HasKey(s, k) {
      HeadOrTail(r, k);
      if s != [] { HeadOrTail(s, k); }
    }
  }

  lemma {:induction false} AddToIsSorted(s: Series, e: Entry)
    requires Sorted(s)
    ensures Sorted(AddTo(s, e))
  {
    var r := AddTo(s, e);
    if s != [] && s[0].key != e.key {
      if Less(e.key, s[0].key) {
        forall j | 0 <= j < |s| ensures Less(e.key, s[j].key) {
          if j > 0 { LessIsTransitive(e.key, s[0].key, s[j].key); }
        }
      } else {
        var t := AddTo(s[1..], e);
        AddToIsSorted(s[1..], e);
        LessIsTotal(s[0].key, e.key);
        forall j | 0 <= j < |t| ensures Less(s[0].key, t[j].key) {
          AddToKeys(s[1..], e);
          assert HasKey(t, t[j].key);
          TailKeys(s, t[j].key);
          if t[j].key != e.key {
            var i :| 0 <= i < |s| && s[i].key == t[j].key;
          }
        }
      }
    }
  }

  /** What grouping keeps: the distinct keys, once each and in order, and every total. */
  lemma {:induction false} GroupSumIsCorrect(s: Series)
    ensures Sorted(GroupSum(s))
    ensures forall k :: HasKey(GroupSum(s), k) <==> HasKey(s, k)
    ensures forall p :: TotalUnder(GroupSum(s), p) == TotalUnder(s, p)
  {
    if s != [] {
      GroupSumIsCorrect(s[1..]);
      AddToKeys(GroupSum(s[1..]), s[0]);
      AddToIsSorted(GroupSum(s[1..]), s[0]);
      forall k ensures HasKey(GroupSum(s), k) <==> HasKey(s, k) { HeadOrTail(s, k); }
    }
  }

  // ---------------------------------------------------------------- rows and levels

  function Metric(r: Row, m: string): real { if m in r.metrics then r.metrics[m] else 0.0 }

  predicate Wide(rows: seq<Row>, n: nat) { forall r <- rows :: |r.labels| >= n }

  /** The metric column `m` with the first `i` group columns as its key. */
  function Pairs(rows: seq<Row>, m: string, i: nat): (s: Series)
    requires Wide(rows, i)
  {
    if rows == [] then []
    else [Entry(rows[0].labels[..i], Metric(rows[0], m))] + Pairs(rows[1..], m, i)
  }

  /** The reference: the metric summed over the rows whose group labels start with `p`. */
  function RowTotal(rows: seq<Row>, m: string, p: Key): real {
    if rows == [] then 0.0
    else (if p <= rows[0].labels then Metric(rows[0], m) else 0.0) + RowTotal(rows[1..], m, p)
  }

  lemma {:induction false} PairsAreRows(rows: seq<Row>, m: string, i: nat)
    requires Wide(rows, i)
    ensures Uniform(Pairs(rows, m, i), i)
    ensures forall k :: HasKey(Pairs(rows, m, i), k) <==> exists r <- rows :: r.labels[..i] == k
    ensures forall p: Key :: |p| <= i ==> TotalUnder(Pairs(rows, m, i), p) == RowTotal(rows, m, p)
  {
    if rows != [] {
      var s := Pairs(rows, m, i);
      PairsAreRows(rows[1..], m, i);
      assert s[1..] == Pairs(rows[1..], m, i);
      forall k ensures HasKey(s, k) <==> exists r <- rows :: r.labels[..i] == k {
        HeadOrTail(s, k);
        assert forall r :: r in rows <==> r == rows[0] || r in rows[1..];
      }
      forall p: Key | |p| <= i ensures p <= rows[0].labels <==> p <= s[0].key {
        assert rows[0].labels[..|p|] == s[0].key[..|p|];
      }
    }
  }

  function Level(rows: seq<Row>, m: string, i: nat): Series
    requires Wide(rows, i)
  {
    GroupSum(Pairs(rows, m, i))
  }

  lemma LevelIsGrouped(rows: seq<Row>, m: string, i: nat)
    requires Wide(rows, i)
    ensures Sorted(Level(rows, m, i)) && Uniform(Level(rows, m, i), i)
    ensures forall k :: HasKey(Level(rows, m, i), k) <==> exists r <- rows :: r.labels[..i] == k
    ensures forall p: Key :: |p| <= i ==> TotalUnder(Level(rows, m, i), p) == RowTotal(rows, m, p)
    ensures forall e <- Level(rows, m, i) :: e.val == RowTotal(rows, m, e.key)
  {
    var s := Level(rows, m, i);
    PairsAreRows(rows, m, i);
    GroupSumIsCorrect(Pairs(rows, m, i));
    forall e <- s ensures |e.key| == i { assert HasKey(s, e.key); }
    forall e <- s ensures e.val == RowTotal(rows, m, e.key) {
      var j :| 0 <= j < |s| && s[j] == e;
      ValueIsTotal(s, i, j);
    }
  }

  // ---------------------------------------------------------------- nesting

  /** `series[d]` on a multi-index: the entries under the first label `d`, which their keys lose. */
  function At(s: Series, d: int): Series {
    if s == [] then []
    else if [d] <= s[0].key then [Entry(s[0].key[1..], s[0].val)] + At(s[1..], d)
    else At(s[1..], d)
  }

  /** The descent of `nest_values` through the labels `dims`; a missing label ends it. */
  function Descend(s: Series, dims: Key): Series
    decreases |dims|
  {
    if dims == [] then s
    else if At(s, dims[0]) == [] then []
    else Descend(At(s, dims[0]), dims[1..])
  }

  /** `nest_values` below its root, for one metric. */
  function Nest(levels: seq<Series>, level: nat, dims: Key): seq<Node>
    decreases |levels| - level
  {
    if level >= |levels| then []
    else
      var s := Descend(levels[level], dims);
      seq(|s|, i requires 0 <= i < |s| =>
        Node(dims + s[i].key, s[i].val, Nest(levels, level + 1, dims + s[i].key)))
  }

  /** The entries whose key extends `p`. */
  function Under(s: Series, p: Key): Series {
    if s == [] then []
    else if p <= s[0].key then [s[0]] + Under(s[1..], p)
    else Under(s[1..], p)
  }

  function Prefixed(p: Key, s: Series): Series {
    seq(|s|, i requires 0 <= i < |s| => Entry(p + s[i].key, s[i].val))
  }

  lemma PrefixOfCons(d: int, rest: Key, k: Key)
    ensures [d] + rest <= k <==> [d] <= k && rest <= k[1..]
  {
  }

  lemma {:induction false} UnderAt(s: Series, d: int, rest: Key)
    ensures Under(s, [d] + rest) == Prefixed([d], Under(At(s, d), rest))
  {
    if s != [] {
      UnderAt(s[1..], d, rest);
      PrefixOfCons(d, rest, s[0].key);
      if [d] <= s[0].key {
        var e := Entry(s[0].key[1..], s[0].val);
        assert At(s, d)[0] == e && At(s, d)[1..] == At(s[1..], d);
        assert [d] + e.key == s[0].key;
      }
    }
  }

  lemma PrefixedTwice(d: int, rest: Key, s: Series)
    ensures Prefixed([d] + rest, s) == Prefixed([d], Prefixed(rest, s))
  {
    forall i | 0 <= i < |s| ensures ([d] + rest) + s[i].key == [d] + (rest + s[i].key) { }
  }

  lemma {:induction false} UnderNothing(s: Series)
    ensures Under(s, []) == s
  {
    if s != [] { UnderNothing(s[1..]); }
  }

  lemma DescendStep(s: Series, d: int, rest: Key)
    ensures Descend(s, [d] + rest) == Descend(At(s, d), rest)
  {
    assert ([d] + rest)[0] == d && ([d] + rest)[1..] == rest;
  }

  lemma {:induction false} DescendIsUnder(s: Series, dims: Key)
    ensures Prefixed(dims, Descend(s, dims)) == Under(s, dims)
    decreases |dims|
  {
    if dims == [] {
      UnderNothing(s);
      assert forall i :: 0 <= i < |s| ==> Prefixed(dims, s)[i] == s[i];
    } else {
      var d, rest := dims[0], dims[1..];
      assert dims == [d] + rest;
      DescendStep(s, d, rest);
      UnderAt(s, d, rest);
      DescendIsUnder(At(s, d), rest);
      PrefixedTwice(d, rest, Descend(At(s, d), rest));
    }
  }

  function Sum(s: Series): real { if s == [] then 0.0 else s[0].val + Sum(s[1..]) }

  lemma {:induction false} UnderIsSelection(s: Series, p: Key)
    ensures forall e :: e in Under(s, p) <==> e in s && p <= e.key
    ensures Sum(Under(s, p)) == TotalUnder(s, p)
  {
    if s != [] {
      UnderIsSelection(s[1..], p);
      assert forall e :: e in s <==> e == s[0] || e in s[1..];
      if p <= s[0].key {
        assert Under(s, p)[1..] == Under(s[1..], p);
      }
    }
  }

  lemma {:induction false} UnderIsSorted(s: Series, p: Key)
    requires Sorted(s)
    ensures Sorted(Under(s, p))
  {
    if s != [] {
      UnderIsSorted(s[1..], p);
      UnderIsSelection(s[1..], p);
      forall j | 0 <= j < |Under(s[1..], p)| ensures Less(s[0].key, Under(s[1..], p)[j].key) {
        assert Under(s[1..], p)[j] in s[1..];
      }
    }
  }

  function SumOfNodes(nodes: seq<Node>): real {
    if nodes == [] then 0.0 else nodes[0].val + SumOfNodes(nodes[1..])
  }

  function Entries(nodes: seq<Node>): Series {
    seq(|nodes|, i requires 0 <= i < |nodes| => Entry(nodes[i].name, nodes[i].val))
  }

  lemma {:induction false} SumOfEntries(nodes: seq<Node>)
    ensures SumOfNodes(nodes) == Sum(Entries(nodes))
  {
    if nodes != [] {
      SumOfEntries(nodes[1..]);
      assert Entries(nodes)[1..] == Entries(nodes[1..]);
    }
  }

  lemma NestEntries(levels: seq<Series>, level: nat, dims: Key)
    requires level < |levels|
    ensures Entries(Nest(levels, level, dims)) == Under(levels[level], dims)
    ensures SumOfNodes(Nest(levels, level, dims)) == TotalUnder(levels[level], dims)
  {
    DescendIsUnder(levels[level], dims);
    assert Entries(Nest(levels, level, dims)) == Prefixed(dims, Descend(levels[level], dims));
    SumOfEntries(Nest(levels, level, dims));
    UnderIsSelection(levels[level], dims);
  }

  // ---------------------------------------------------------------- what the tree means

  /** A node carries its reference total, its children split that total, and only full groups are leaves. */
  ghost predicate Faithful(node: Node, rows: seq<Row>, m: string, n: nat) {
    && node.val == RowTotal(rows, m, node.name)
    && |node.name| <= n
    && (|node.name| == n <==> node.children == [])
    && (node.children != [] ==> node.val == SumOfNodes(node.children))
    && forall c <- node.children :: |c.name| == |node.name| + 1 && node.name <= c.name && Faithful(c, rows, m, n)
  }

  /** The leaves below a list of siblings, in order. */
  function Leaves(nodes: seq<Node>): Series {
    if nodes == [] then []
    else (if nodes[0].children == [] then [Entry(nodes[0].name, nodes[0].val)] else Leaves(nodes[0].children))
         + Leaves(nodes[1..])
  }

  ghost predicate LevelsOf(levels: seq<Series>, rows: seq<Row>, m: string, n: nat)
    requires Wide(rows, n)
  {
    |levels| == n + 1 && forall i :: 0 <= i <= n ==> levels[i] == Level(rows, m, i)
  }

  lemma SiblingsSum(levels: seq<Series>, rows: seq<Row>, m: string, n: nat, level: nat, dims: Key)
    requires Wide(rows, n) && LevelsOf(levels, rows, m, n)
    requires 1 <= level <= n && |dims| == level - 1
    ensures SumOfNodes(Nest(levels, level, dims)) == RowTotal(rows, m, dims)
  {
    NestEntries(levels, level, dims);
    LevelIsGrouped(rows, m, level);
  }

  lemma RowBehind(rows: seq<Row>, m: string, i: nat, e: Entry) returns (r: Row)
    requires Wide(rows, i) && e in Level(rows, m, i)
    ensures r in rows && r.labels[..i] == e.key
  {
    LevelIsGrouped(rows, m, i);
    assert HasKey(Level(rows, m, i), e.key);
    r :| r in rows && r.labels[..i] == e.key;
  }

  lemma EntryFor(rows: seq<Row>, m: string, i: nat, r: Row) returns (e: Entry)
    requires Wide(rows, i) && r in rows
    ensures e in Level(rows, m, i) && e.key == r.labels[..i]
  {
    LevelIsGrouped(rows, m, i);
    var s := Level(rows, m, i);
    assert HasKey(s, r.labels[..i]);
    var j :| 0 <= j < |s| && s[j].key == r.labels[..i];
    e := s[j];
  }

  /** Between two levels, every coarse key has a finer one below it and every fine key a coarser one above it. */
  lemma LevelsRefine(rows: seq<Row>, m: string, i: nat, j: nat)
    requires i <= j && Wide(rows, i) && Wide(rows, j)
    ensures forall x <- Level(rows, m, i) :: exists e <- Level(rows, m, j) :: x.key <= e.key
    ensures forall e <- Level(rows, m, j) :: exists x <- Level(rows, m, i) :: x.key <= e.key
  {
    forall x <- Level(rows, m, i) ensures exists e <- Level(rows, m, j) :: x.key <= e.key {
      var r := RowBehind(rows, m, i, x);
      var e := EntryFor(rows, m, j, r);
      assert e.key[..i] == x.key;
    }
    forall e <- Level(rows, m, j) ensures exists x <- Level(rows, m, i) :: x.key <= e.key {
      var r := RowBehind(rows, m, j, e);
      var x := EntryFor(rows, m, i, r);
      assert e.key[..i] == x.key;
    }
  }

  lemma ChildrenExist(levels: seq<Series>, rows: seq<Row>, m: string, n: nat, level: nat, e: Entry)
    requires Wide(rows, n) && LevelsOf(levels, rows, m, n)
    requires level < n && e in levels[level]
    ensures Nest(levels, level + 1, e.key) != []
  {
    LevelsRefine(rows, m, level, level + 1);
    NestEntries(levels, level + 1, e.key);
    UnderIsSelection(levels[level + 1], e.key);
  }

  /** What one node of a list of siblings holds. */
  lemma NodeAt(levels: seq<Series>, rows: seq<Row>, m: string, n: nat, level: nat, dims: Key, i: nat)
    requires Wide(rows, n) && LevelsOf(levels, rows, m, n)
    requires 1 <= level <= n && |dims| == level - 1 && i < |Nest(levels, level, dims)|
    ensures var node := Nest(levels, level, dims)[i];
            && |node.name| == level && dims <= node.name && node.val == RowTotal(rows, m, node.name)
            && node.children == Nest(levels, level + 1, node.name)
            && (node.children == [] <==> level == n)
  {
    var nodes := Nest(levels, level, dims);
    NestEntries(levels, level, dims);
    UnderIsSelection(levels[level], dims);
    LevelIsGrouped(rows, m, level);
    var e := Entries(nodes)[i];
    assert e in Under(levels[level], dims);
    if level < n { ChildrenExist(levels, rows, m, n, level, e); }
  }

  /** Every list of siblings is faithful and splits the total of its parent's key. */
  lemma {:induction false} NestIsFaithful(levels: seq<Series>, rows: seq<Row>, m: string, n: nat, level: nat, dims: Key)
    requires Wide(rows, n) && LevelsOf(levels, rows, m, n)
    requires 1 <= level <= n && |dims| == level - 1
    ensures forall node <- Nest(levels, level, dims) ::
              |node.name| == level && dims <= node.name && Faithful(node, rows, m, n)
    ensures SumOfNodes(Nest(levels, level, dims)) == RowTotal(rows, m, dims)
    decreases n - level
  {
    var nodes := Nest(levels, level, dims);
    SiblingsSum(levels, rows, m, n, level, dims);
    forall i | 0 <= i < |nodes|
      ensures |nodes[i].name| == level && dims <= nodes[i].name && Faithful(nodes[i], rows, m, n)
    {
      NodeAt(levels, rows, m, n, level, dims, i);
      if level < n {
        NestIsFaithful(levels, rows, m, n, level + 1, nodes[i].name);
      }
    }
  }

  /** The entries of `full` under each key of `s` in turn. */
  function Spread(s: Series, full: Series): Series {
    if s == [] then [] else Under(full, s[0].key) + Spread(s[1..], full)
  }

  lemma {:induction false} SpreadIsSelection(s: Series, full: Series)
    ensures forall e :: e in Spread(s, full) <==> e in full && exists x <- s :: x.key <= e.key
  {
    if s != [] {
      UnderIsSelection(full, s[0].key);
      SpreadIsSelection(s[1..], full);
      assert forall x :: x in s <==> x == s[0] || x in s[1..];
    }
  }

  lemma {:induction false} SpreadIsSorted(s: Series, full: Series, n: nat)
    requires Sorted(s) && Sorted(full) && Uniform(s, n)
    ensures Sorted(Spread(s, full))
  {
    if s != [] {
      var first, rest := Under(full, s[0].key), Spread(s[1..], full);
      UnderIsSorted(full, s[0].key);
      UnderIsSelection(full, s[0].key);
      SpreadIsSorted(s[1..], full, n);
      SpreadIsSelection(s[1..], full);
      forall i, j | 0 <= i < |first| && 0 <= j < |rest| ensures Less(first[i].key, rest[j].key) {
        assert first[i] in first && rest[j] in rest;
        var x :| x in s[1..] && x.key <= rest[j].key;
        LessByPrefix(s[0].key, x.key, first[i].key, rest[j].key);
      }
    }
  }

  lemma {:induction false} LeavesAreSpread(nodes: seq<Node>, full: Series)
    requires forall node <- nodes :: node.children != [] && Leaves(node.children) == Under(full, node.name)
    ensures Leaves(nodes) == Spread(Entries(nodes), full)
  {
    if nodes != [] {
      LeavesAreSpread(nodes[1..], full);
      assert Entries(nodes)[1..] == Entries(nodes[1..]);
    }
  }

  lemma {:induction false} ChildlessLeaves(nodes: seq<Node>)
    requires forall node <- nodes :: node.children == []
    ensures Leaves(nodes) == Entries(nodes)
  {
    if nodes != [] {
      ChildlessLeaves(nodes[1..]);
      assert Entries(nodes) == [Entries(nodes)[0]] + Entries(nodes[1..]);
    }
  }

  lemma SharedPrefix(p: Key, a: Key, b: Key)
    requires |p| <= |a| && a <= b
    ensures p <= a <==> p <= b
  {
  }

  lemma SpreadIsUnder(coarse: Series, full: Series, level: nat, dims: Key)
    requires Sorted(coarse) && Sorted(full) && Uniform(coarse, level) && |dims| <= level
    requires forall e <- full :: exists x <- coarse :: x.key <= e.key
    ensures Spread(Under(coarse, dims), full) == Under(full, dims)
  {
    var s := Under(coarse, dims);
    UnderIsSelection(coarse, dims);
    UnderIsSorted(coarse, dims);
    UnderIsSorted(full, dims);
    SpreadIsSorted(s, full, level);
    forall e ensures e in Spread(s, full) <==> e in Under(full, dims) {
      UnderIsSelection(full, dims);
      SpreadIsSelection(s, full);
      if e in full && dims <= e.key {
        var x :| x in coarse && x.key <= e.key;
        SharedPrefix(dims, x.key, e.key);
        assert x in s;
      }
      if e in Spread(s, full) {
        var y :| y in s && y.key <= e.key;
        SharedPrefix(dims, y.key, e.key);
      }
    }
    SameElements(Spread(s, full), Under(full, dims));
  }

  lemma SpreadOfLevel(rows: seq<Row>, m: string, level: nat, n: nat, dims: Key)
    requires Wide(rows, n) && |dims| <= level <= n
    ensures Spread(Under(Level(rows, m, level), dims), Level(rows, m, n)) == Under(Level(rows, m, n), dims)
  {
    LevelIsGrouped(rows, m, level);
    LevelIsGrouped(rows, m, n);
    LevelsRefine(rows, m, level, n);
    SpreadIsUnder(Level(rows, m, level), Level(rows, m, n), level, dims);
  }

  /** The leaves under `dims` are the full group-by's entries under `dims`: one for each distinct full group, in
      order, with its total. */
  lemma {:induction false} LeavesAreTheGroups(levels: seq<Series>, rows: seq<Row>, m: string, n: nat, level: nat, dims: Key)
    requires Wide(rows, n) && LevelsOf(levels, rows, m, n)
    requires 1 <= level <= n && |dims| == level - 1
    ensures Leaves(Nest(levels, level, dims)) == Under(levels[n], dims)
    decreases n - level
  {
    var nodes := Nest(levels, level, dims);
    NestEntries(levels, level, dims);
    if level == n {
      ChildlessLeaves(nodes);
    } else {
      forall node <- nodes ensures node.children != [] && Leaves(node.children) == Under(levels[n], node.name) {
        var i :| 0 <= i < |nodes| && nodes[i] == node;
        NodeAt(levels, rows, m, n, level, dims, i);
        LeavesAreTheGroups(levels, rows, m, n, level + 1, node.name);
      }
      LeavesAreSpread(nodes, levels[n]);
      SpreadOfLevel(rows, m, level, n, dims);
    }
  }

  // ---------------------------------------------------------------- differences in time

  function RowsAt(rows: seq<Row>, t: int): seq<Row> {
    if rows == [] then []
    else if rows[0].time == t then [rows[0]] + RowsAt(rows[1..], t)
    else RowsAt(rows[1..], t)
  }

  function Negated(rows: seq<Row>): seq<Row> {
    if rows == [] then []
    else [rows[0].(metrics := map k | k in rows[0].metrics :: -rows[0].metrics[k])] + Negated(rows[1..])
  }

  /** The table whose plain sums are the differences: the rows at `until`, and those at `since` with their sign
      turned. A group present at only one of the two times is in it, one present at neither is not. */
  function Signed(rows: seq<Row>, until: int, since: int): seq<Row> {
    RowsAt(rows, until) + Negated(RowsAt(rows, since))
  }

  lemma {:induction false} RowsAtIsSelection(rows: seq<Row>, t: int)
    ensures forall r :: r in RowsAt(rows, t) <==> r in rows && r.time == t
  {
    if rows != [] {
      RowsAtIsSelection(rows[1..], t);
      assert forall r :: r in rows <==> r == rows[0] || r in rows[1..];
    }
  }

  lemma {:induction false} NegatedRows(rows: seq<Row>, m: string, p: Key)
    ensures RowTotal(Negated(rows), m, p) == -RowTotal(rows, m, p)
    ensures |Negated(rows)| == |rows| && forall i :: 0 <= i < |rows| ==> Negated(rows)[i].labels == rows[i].labels
  {
    if rows != [] { NegatedRows(rows[1..], m, p); }
  }

  lemma {:induction false} RowTotalOfConcat(a: seq<Row>, b: seq<Row>, m: string, p: Key)
    ensures RowTotal(a + b, m, p) == RowTotal(a, m, p) + RowTotal(b, m, p)
  {
    if a == [] {
      assert a + b == b;
    } else {
      RowTotalOfConcat(a[1..], b, m, p);
      assert (a + b)[1..] == a[1..] + b;
    }
  }

  /** `point_diff` on the reference: the total at `until` minus the total at `since`, under every prefix. */
  lemma SignedTotal(rows: seq<Row>, until: int, since: int, m: string, p: Key)
    ensures RowTotal(Signed(rows, until, since), m, p) ==
            RowTotal(RowsAt(rows, until), m, p) - RowTotal(RowsAt(rows, since), m, p)
  {
    RowTotalOfConcat(RowsAt(rows, until), Negated(RowsAt(rows, since)), m, p);
    NegatedRows(RowsAt(rows, since), m, p);
  }

  /** `Series.sub(..., fill_value=0)`: the union of the two indexes, a missing value counting as 0. */
  function Sub(a: Series, b: Series): Series {
    if a == [] && b == [] then []
    else if b == [] || (a != [] && Less(a[0].key, b[0].key)) then [a[0]] + Sub(a[1..], b)
    else if a == [] || Less(b[0].key, a[0].key) then [Entry(b[0].key, -b[0].val)] + Sub(a, b[1..])
    else [Entry(a[0].key, a[0].val - b[0].val)] + Sub(a[1..], b[1..])
  }

  /** What `Sub` has left to merge after its first entry. */
  function SubRest(a: Series, b: Series): (Series, Series)
    requires a != [] || b != []
  {
    if b == [] || (a != [] && Less(a[0].key, b[0].key)) then (a[1..], b)
    else if a == [] || Less(b[0].key, a[0].key) then (a, b[1..])
    else (a[1..], b[1..])
  }

  lemma {:induction false} SubKeysAndTotals(a: Series, b: Series)
    ensures forall k :: HasKey(Sub(a, b), k) <==> HasKey(a, k) || HasKey(b, k)
    ensures forall p :: TotalUnder(Sub(a, b), p) == TotalUnder(a, p) - TotalUnder(b, p)
  {
    var r := Sub(a, b);
    if a != [] || b != [] {
      if a != [] && b != [] { LessIsTotal(a[0].key, b[0].key); }
      var (a', b') := SubRest(a, b);
      SubKeysAndTotals(a', b');
      assert r[1..] == Sub(a', b');
      forall k ensures HasKey(r, k) <==> HasKey(a, k) || HasKey(b, k) {
        HeadOrTail(r, k);
        if a != [] { HeadOrTail(a, k); }
        if b != [] { HeadOrTail(b, k); }
      }
    }
  }

  /** What is left of a sorted series once its head `h`, or nothing while `h` is smaller, was taken. */
  lemma KeysFollowHead(s: Series, s': Series, h: Key, k: Key)
    requires Sorted(s) && s != []
    requires (s' == s && Less(h, s[0].key)) || (s' == s[1..] && h == s[0].key)
    ensures HasKey(s', k) ==> Less(h, k)
  {
    if HasKey(s', k) {
      var i :| 0 <= i < |s'| && s'[i].key == k;
      if s' == s && i > 0 {
        LessIsTransitive(h, s[0].key, k);
      }
    }
  }

  lemma {:induction false} SubIsSorted(a: Series, b: Series)
    requires Sorted(a) && Sorted(b)
    ensures Sorted(Sub(a, b))
  {
    if a != [] || b != [] {
      if a != [] && b != [] { LessIsTotal(a[0].key, b[0].key); }
      var (a', b') := SubRest(a, b);
      SubIsSorted(a', b');
      SubKeysAndTotals(a', b');
      var h, t := Sub(a, b)[0], Sub(a', b');
      forall j | 0 <= j < |t| ensures Less(h.key, t[j].key) {
        assert HasKey(t, t[j].key);
        if a != [] { KeysFollowHead(a, a', h.key, t[j].key); }
        if b != [] { KeysFollowHead(b, b', h.key, t[j].key); }
      }
    }
  }

  /** The time column and the first `i` group columns as the key. */
  function TimedPairs(rows: seq<Row>, m: string, i: nat): Series
    requires Wide(rows, i)
  {
    if rows == [] then []
    else [Entry([rows[0].time] + rows[0].labels[..i], Metric(rows[0], m))] + TimedPairs(rows[1..], m, i)
  }

  lemma {:induction false} AtTimedPairs(rows: seq<Row>, m: string, i: nat, t: int)
    requires Wide(rows, i) && Wide(RowsAt(rows, t), i)
    ensures At(TimedPairs(rows, m, i), t) == Pairs(RowsAt(rows, t), m, i)
    ensures Uniform(TimedPairs(rows, m, i), i + 1)
  {
    if rows != [] {
      assert RowsAt(rows, t) == if rows[0].time == t then [rows[0]] + RowsAt(rows[1..], t) else RowsAt(rows[1..], t);
      assert forall r :: r in RowsAt(rows[1..], t) ==> r in RowsAt(rows, t);
      AtTimedPairs(rows[1..], m, i, t);
      var k := [rows[0].time] + rows[0].labels[..i];
      assert k[1..] == rows[0].labels[..i] && k[..1] == [rows[0].time];
      var s := TimedPairs(rows, m, i);
      assert s[0].key == k && s[1..] == TimedPairs(rows[1..], m, i);
      assert [t] <= k <==> rows[0].time == t by {
        assert [t] <= k <==> k[..1] == [t];
        assert [t][0] == t;
      }
      if rows[0].time == t {
        assert RowsAt(rows, t)[0] == rows[0] && RowsAt(rows, t)[1..] == RowsAt(rows[1..], t);
      }
    }
  }

  /** Selecting one first label commutes with keys, totals and order. */
  lemma {:induction false} AtIsSelection(s: Series, d: int)
    ensures forall k :: HasKey(At(s, d), k) <==> HasKey(s, [d] + k)
    ensures forall p :: TotalUnder(At(s, d), p) == TotalUnder(s, [d] + p)
  {
    if s != [] {
      AtIsSelection(s[1..], d);
      forall p ensures [d] + p <= s[0].key <==> [d] <= s[0].key && p <= s[0].key[1..] { PrefixOfCons(d, p, s[0].key); }
      forall k ensures HasKey(At(s, d), k) <==> HasKey(s, [d] + k) {
        HeadOrTail(s, [d] + k);
        if [d] <= s[0].key {
          assert At(s, d)[1..] == At(s[1..], d);
          HeadOrTail(At(s, d), k);
          assert s[0].key == [d] + s[0].key[1..];
          assert ([d] + k)[1..] == k;
        }
      }
    }
  }

  lemma {:induction false} AtIsSorted(s: Series, d: int)
    requires Sorted(s)
    ensures Sorted(At(s, d))
  {
    if s != [] {
      AtIsSorted(s[1..], d);
      var t := At(s[1..], d);
      if [d] <= s[0].key {
        forall j | 0 <= j < |t| ensures Less(s[0].key[1..], t[j].key) {
          AtIsSelection(s[1..], d);
          assert HasKey(t, t[j].key);
          var i :| 0 <= i < |s[1..]| && s[1..][i].key == [d] + t[j].key;
          assert Less(s[0].key, s[i + 1].key);
          assert ([d] + t[j].key)[1..] == t[j].key;
        }
      }
    }
  }

  lemma UniformKeys(s: Series, n: nat)
    requires forall k :: HasKey(s, k) ==> |k| == n
    ensures Uniform(s, n)
  {
  }

  lemma GroupThenSelectAgrees(s: Series, d: int)
    ensures forall k :: HasKey(At(GroupSum(s), d), k) <==> HasKey(At(s, d), k)
    ensures forall p :: TotalUnder(At(GroupSum(s), d), p) == TotalUnder(At(s, d), p)
  {
    GroupSumIsCorrect(s);
    AtIsSelection(GroupSum(s), d);
    AtIsSelection(s, d);
  }

  lemma AtIsUniform(s: Series, d: int, n: nat)
    requires Uniform(s, n + 1)
    ensures Uniform(At(s, d), n)
  {
  }

  lemma GroupSumIsUniform(s: Series, n: nat)
    requires Uniform(s, n)
    ensures Uniform(GroupSum(s), n)
  {
    GroupSumIsCorrect(s);
    UniformKeys(GroupSum(s), n);
  }

  /** Selecting one first label commutes with grouping. */
  lemma GroupThenSelect(s: Series, d: int, n: nat)
    requires Uniform(s, n + 1)
    ensures At(GroupSum(s), d) == GroupSum(At(s, d))
  {
    GroupSumIsUniform(s, n + 1);
    AtIsUniform(GroupSum(s), d, n);
    AtIsUniform(s, d, n);
    GroupSumIsUniform(At(s, d), n);
    GroupSumIsCorrect(s);
    AtIsSorted(GroupSum(s), d);
    GroupSumIsCorrect(At(s, d));
    GroupThenSelectAgrees(s, d);
    SeriesAreEqual(At(GroupSum(s), d), GroupSum(At(s, d)), n);
  }

  lemma SignedKeys(u: seq<Row>, v: seq<Row>, i: nat, k: Key)
    requires Wide(u, i) && Wide(v, i) && Wide(u + Negated(v), i)
    ensures (exists r <- u + Negated(v) :: r.labels[..i] == k)
            <==> (exists r <- u :: r.labels[..i] == k) || (exists r <- v :: r.labels[..i] == k)
  {
  }

  /** One level of `point_diff` is the plain group-by of the signed table. */
  lemma DiffLevelIsSigned(rows: seq<Row>, m: string, i: nat, until: int, since: int)
    requires Wide(rows, i)
    ensures Wide(Signed(rows, until, since), i)
    ensures var timed := GroupSum(TimedPairs(rows, m, i));
            Sub(At(timed, until), At(timed, since)) == Level(Signed(rows, until, since), m, i)
  {
    var u, v := RowsAt(rows, until), RowsAt(rows, since);
    RowsAtIsSelection(rows, until);
    RowsAtIsSelection(rows, since);
    NegatedRows(v, m, []);
    assert Wide(Negated(v), i);
    AtTimedPairs(rows, m, i, until);
    AtTimedPairs(rows, m, i, since);
    GroupThenSelect(TimedPairs(rows, m, i), until, i);
    GroupThenSelect(TimedPairs(rows, m, i), since, i);
    var a, b := Level(u, m, i), Level(v, m, i);
    LevelIsGrouped(u, m, i);
    LevelIsGrouped(v, m, i);
    LevelIsGrouped(Signed(rows, until, since), m, i);
    SubIsSorted(a, b);
    SubKeysAndTotals(a, b);
    forall e <- Sub(a, b) ensures |e.key| == i {
      assert HasKey(Sub(a, b), e.key);
    }
    forall p: Key ensures RowTotal(Signed(rows, until, since), m, p) == RowTotal(u, m, p) - RowTotal(v, m, p) {
      SignedTotal(rows, until, since, m, p);
    }
    forall k ensures HasKey(Sub(a, b), k) <==> HasKey(Level(Signed(rows, until, since), m, i), k) {
      SignedKeys(u, v, i, k);
    }
    SeriesAreEqual(Sub(a, b), Level(Signed(rows, until, since), m, i), i);
  }

  // ---------------------------------------------------------------- the chart's data

  /** `time_series_option`, for the branches built from sums. `ByTime` makes the time the first group column. */
  datatype TimeOption = AggSum | PointDiff | ByTime

  datatype ChartData = NoData | NeedsGroupBy | Tree(roots: seq<Root>)

  type Frame = map<string, Series>

  function Column(levels: seq<Frame>, m: string): seq<Series>
    requires forall l <- levels :: m in l
  {
    seq(|levels|, i requires 0 <= i < |levels| => levels[i][m])
  }

  /** One level: a column for each metric, grouped by the first `i` group columns. */
  ghost predicate FrameOf(frame: Frame, rows: seq<Row>, metrics: seq<string>, i: nat)
    requires Wide(rows, i)
  {
    forall m <- metrics :: m in frame && frame[m] == Level(rows, m, i)
  }

  ghost predicate LevelFrames(levels: seq<Frame>, rows: seq<Row>, metrics: seq<string>, n: nat)
    requires Wide(rows, n)
  {
    |levels| == n + 1 && forall i :: 0 <= i <= n ==> FrameOf(levels[i], rows, metrics, i)
  }

  /** `levels_for` with `agg_sum`. */
  method LevelsFor(rows: seq<Row>, metrics: seq<string>, n: nat) returns (levels: seq<Frame>)
    requires Wide(rows, n)
    ensures LevelFrames(levels, rows, metrics, n)
  {
    levels := [];
    for i := 0 to n + 1
      invariant |levels| == i && forall j :: 0 <= j < i ==> FrameOf(levels[j], rows, metrics, j)
    {
      var frame: Frame := map[];
      for k := 0 to |metrics|
        invariant FrameOf(frame, rows, metrics[..k], i)
      {
        frame := frame[metrics[k] := Level(rows, metrics[k], i)];
      }
      assert metrics[..|metrics|] == metrics;
      levels := levels + [frame];
    }
  }

  /** `since` and `until` are the first and the last time grain of the table. */
  ghost predicate Bounds(rows: seq<Row>, since: int, until: int) {
    && (forall r <- rows :: since <= r.time <= until)
    && (exists r <- rows :: r.time == since) && (exists r <- rows :: r.time == until)
  }

  /** The ends of the sorted list of time grains. */
  method TimeBounds(rows: seq<Row>) returns (since: int, until: int)
    requires rows != []
    ensures Bounds(rows, since, until)
  {
    since, until := rows[0].time, rows[0].time;
    for k := 1 to |rows|
      invariant forall j :: 0 <= j < k ==> since <= rows[j].time <= until
      invariant (exists j :: 0 <= j < k && rows[j].time == since) && (exists j :: 0 <= j < k && rows[j].time == until)
    {
      if rows[k].time < since { since := rows[k].time; }
      if rows[k].time > until { until := rows[k].time; }
    }
  }

  /** One level of `levels_for_diff` with `point_diff`. */
  method DiffFrame(rows: seq<Row>, metrics: seq<string>, i: nat, until: int, since: int) returns (frame: Frame)
    requires Wide(rows, i)
    ensures Wide(Signed(rows, until, since), i) && FrameOf(frame, Signed(rows, until, since), metrics, i)
  {
    frame := map[];
    DiffLevelIsSigned(rows, "", i, until, since);
    for k := 0 to |metrics|
      invariant FrameOf(frame, Signed(rows, until, since), metrics[..k], i)
    {
      var timed := GroupSum(TimedPairs(rows, metrics[k], i));
      DiffLevelIsSigned(rows, metrics[k], i, until, since);
      frame := frame[metrics[k] := Sub(At(timed, until), At(timed, since))];
    }
    assert metrics[..|metrics|] == metrics;
  }

  /** The levels are those of the signed table between the first and the last time. */
  ghost predicate AreDiffLevels(levels: seq<Frame>, rows: seq<Row>, metrics: seq<string>, n: nat, since: int, until: int) {
    && Bounds(rows, since, until) && Wide(Signed(rows, until, since), n)
    && LevelFrames(levels, Signed(rows, until, since), metrics, n)
  }

  /** `levels_for_diff` with `point_diff`. */
  method LevelsForDiff(rows: seq<Row>, metrics: seq<string>, n: nat)
    returns (levels: seq<Frame>)
    requires Wide(rows, n) && rows != []
    ensures exists since, until :: AreDiffLevels(levels, rows, metrics, n, since, until)
  {
    var since, until := TimeBounds(rows);
    DiffLevelIsSigned(rows, "", n, until, since);
    levels := [];
    for i := 0 to n + 1
      invariant |levels| == i
      invariant forall j :: 0 <= j < i ==> FrameOf(levels[j], Signed(rows, until, since), metrics, j)
    {
      var frame := DiffFrame(rows, metrics, i, until, since);
      levels := levels + [frame];
    }
    assert AreDiffLevels(levels, rows, metrics, n, since, until);
  }

  function Timed(rows: seq<Row>): seq<Row> {
    seq(|rows|, i requires 0 <= i < |rows| => rows[i].(labels := [rows[i].time] + rows[i].labels))
  }

  /** The table whose sums the tree shows, and its number of group columns. */
  ghost predicate Shows(rows: seq<Row>, n: nat, option: TimeOption, shown: seq<Row>, depth: nat) {
    match option
    case AggSum => shown == rows && depth == n
    case PointDiff =>
      depth == n && exists since, until :: Bounds(rows, since, until) && shown == Signed(rows, until, since)
    case ByTime => shown == Timed(rows) && depth == n + 1
  }

  /** A metric's tree: every node is the reference total of its prefix and the sum of its children, and its leaves
      are the distinct full groups, each once and in order, adding up to the root. */
  ghost predicate FaithfulRoot(root: Root, m: string, shown: seq<Row>, depth: nat)
    requires Wide(shown, depth)
  {
    && root.metric == m
    && root.val == RowTotal(shown, m, []) == SumOfNodes(root.children)
    && (forall c <- root.children :: |c.name| == 1 && Faithful(c, shown, m, depth))
    && (depth > 0 ==> Entries(root.children) == Level(shown, m, 1))
    && Leaves(root.children) == Level(shown, m, depth)
    && Sum(Leaves(root.children)) == root.val
  }

  lemma RootIsFaithful(levels: seq<Series>, shown: seq<Row>, m: string, depth: nat)
    requires Wide(shown, depth) && LevelsOf(levels, shown, m, depth) && depth >= 1 && shown != []
    ensures levels[0] != [] && FaithfulRoot(Root(m, levels[0][0].val, Nest(levels, 1, [])), m, shown, depth)
  {
    NestIsFaithful(levels, shown, m, depth, 1, []);
    LeavesAreTheGroups(levels, shown, m, depth, 1, []);
    NestEntries(levels, 1, []);
    UnderNothing(levels[1]);
    UnderNothing(levels[depth]);
    UnderIsSelection(levels[depth], []);
    LevelIsGrouped(shown, m, depth);
    LevelIsGrouped(shown, m, 0);
    var e := EntryFor(shown, m, 0, shown[0]);
    assert levels[0][0] in levels[0];
  }

  /** Every level has a column for the metric, and the top one a total. */
  predicate HasColumn(levels: seq<Frame>, m: string) {
    && levels != [] && (forall l <- levels :: m in l) && levels[0][m] != []
  }

  function RootOf(levels: seq<Frame>, m: string): Root
    requires HasColumn(levels, m)
  {
    Root(m, levels[0][m][0].val, Nest(Column(levels, m), 1, []))
  }

  lemma RootOfIsFaithful(levels: seq<Frame>, shown: seq<Row>, metrics: seq<string>, m: string, depth: nat)
    requires Wide(shown, depth) && LevelFrames(levels, shown, metrics, depth) && m in metrics
    requires depth >= 1 && shown != []
    ensures HasColumn(levels, m) && FaithfulRoot(RootOf(levels, m), m, shown, depth)
  {
    forall l <- levels ensures m in l {
      var i :| 0 <= i < |levels| && levels[i] == l;
      assert FrameOf(levels[i], shown, metrics, i);
    }
    forall i | 0 <= i <= depth ensures Column(levels, m)[i] == Level(shown, m, i) {
      assert FrameOf(levels[i], shown, metrics, i);
    }
    RootIsFaithful(Column(levels, m), shown, m, depth);
  }

  /** The top of `nest_values`: one tree for each metric. */
  method NestValues(levels: seq<Frame>, metrics: seq<string>) returns (roots: seq<Root>)
    requires forall m <- metrics :: HasColumn(levels, m)
    ensures |roots| == |metrics| && forall i :: 0 <= i < |metrics| ==> roots[i] == RootOf(levels, metrics[i])
  {
    roots := [];
    for k := 0 to |metrics|
      invariant |roots| == k && forall i :: 0 <= i < k ==> roots[i] == RootOf(levels, metrics[i])
    {
      var m := metrics[k];
      assert m in metrics && HasColumn(levels, m);
      roots := roots + [Root(m, levels[0][m][0].val, Nest(Column(levels, m), 1, []))];
    }
  }

  lemma SignedIsNotEmpty(rows: seq<Row>, until: int, since: int)
    requires Bounds(rows, since, until)
    ensures Signed(rows, until, since) != []
  {
    var r :| r in rows && r.time == until;
    RowsAtIsSelection(rows, until);
    assert r in RowsAt(rows, until);
  }

  // ---------------------------------------------------------------- the values on the rows

  lemma RowTotalOfOne(r: Row, m: string, p: Key)
    requires m in r.metrics
    ensures RowTotal([r], m, p) == if p <= r.labels then r.metrics[m] else 0.0
  {
  }

  lemma {:induction false} RowsAtCounts(rows: seq<Row>, t: int)
    ensures forall r :: multiset(RowsAt(rows, t))[r] == if r.time == t then multiset(rows)[r] else 0
  {
    if rows != [] {
      RowsAtCounts(rows[1..], t);
      assert rows == [rows[0]] + rows[1..];
    }
  }

  /** What a node is worth, on the rows of the table: the sum under its prefix, the sum at the last time minus that at the
      first, or the sum at the time its prefix starts with. */
  function Worth(rows: seq<Row>, option: TimeOption, since: int, until: int, m: string, p: Key): real {
    match option
    case AggSum => RowTotal(rows, m, p)
    case PointDiff => RowTotal(RowsAt(rows, until), m, p) - RowTotal(RowsAt(rows, since), m, p)
    case ByTime => if p == [] then RowTotal(rows, m, []) else RowTotal(RowsAt(rows, p[0]), m, p[1..])
  }

  lemma {:induction false} TimedTotal(rows: seq<Row>, m: string, p: Key)
    ensures RowTotal(Timed(rows), m, p) ==
            if p == [] then RowTotal(rows, m, []) else RowTotal(RowsAt(rows, p[0]), m, p[1..])
  {
    if rows != [] {
      TimedTotal(rows[1..], m, p);
      var labels := [rows[0].time] + rows[0].labels;
      assert Timed(rows)[0].labels == labels && Timed(rows)[1..] == Timed(rows[1..]);
      if p != [] {
        assert labels[0] == rows[0].time && labels[1..] == rows[0].labels;
        if rows[0].time == p[0] {
          PrefixOfCons(p[0], p[1..], labels);
          assert [p[0]] + p[1..] == p;
          assert RowsAt(rows, p[0])[0] == rows[0] && RowsAt(rows, p[0])[1..] == RowsAt(rows[1..], p[0]);
        } else {
          assert p[0] != labels[0];
        }
      }
    }
  }

  lemma BoundsAreUnique(rows: seq<Row>, since: int, until: int, first: int, last: int)
    requires Bounds(rows, since, until) && Bounds(rows, first, last)
    ensures since == first && until == last
  {
  }

  lemma ShownIsWorth(rows: seq<Row>, n: nat, option: TimeOption, shown: seq<Row>, depth: nat, since: int, until: int,
                     m: string, p: Key)
    requires Shows(rows, n, option, shown, depth) && Bounds(rows, since, until)
    ensures RowTotal(shown, m, p) == Worth(rows, option, since, until, m, p)
  {
    match option
    case AggSum =>
    case PointDiff =>
      var first, last :| Bounds(rows, first, last) && shown == Signed(rows, last, first);
      BoundsAreUnique(rows, since, until, first, last);
      SignedTotal(rows, until, since, m, p);
    case ByTime =>
      TimedTotal(rows, m, p);
  }

  /** Every node from `node` down has its worth. */
  ghost predicate Valued(node: Node, rows: seq<Row>, option: TimeOption, since: int, until: int, m: string) {
    && node.val == Worth(rows, option, since, until, m, node.name)
    && forall c <- node.children :: Valued(c, rows, option, since, until, m)
  }

  lemma {:induction false} FaithfulIsValued(node: Node, rows: seq<Row>, n: nat, option: TimeOption, shown: seq<Row>,
                                            depth: nat, since: int, until: int, m: string)
    requires Shows(rows, n, option, shown, depth) && Bounds(rows, since, until) && Faithful(node, shown, m, depth)
    ensures Valued(node, rows, option, since, until, m)
  {
    ShownIsWorth(rows, n, option, shown, depth, since, until, m, node.name);
    forall c <- node.children ensures Valued(c, rows, option, since, until, m) {
      FaithfulIsValued(c, rows, n, option, shown, depth, since, until, m);
    }
  }

  /** The nodes are the distinct times of the table, in ascending order. */
  ghost predicate AreTimes(nodes: seq<Node>, rows: seq<Row>) {
    && (forall c <- nodes :: |c.name| == 1)
    && (forall i, j :: 0 <= i < j < |nodes| ==>
          |nodes[i].name| == |nodes[j].name| == 1 && nodes[i].name[0] < nodes[j].name[0])
    && forall t :: (exists c <- nodes :: c.name == [t]) <==> exists r <- rows :: r.time == t
  }

  /** A metric's tree as the rows have it. */
  ghost predicate ValuedRoot(root: Root, rows: seq<Row>, option: TimeOption, since: int, until: int, m: string) {
    && root.metric == m && root.val == Worth(rows, option, since, until, m, [])
    && (forall c <- root.children :: Valued(c, rows, option, since, until, m))
    && (option.ByTime? ==> AreTimes(root.children, rows))
  }

  lemma LessOfOne(a: Key, b: Key)
    requires |a| == |b| == 1
    ensures Less(a, b) <==> a[0] < b[0]
  {
    LessIsTotal(a[1..], b[1..]);
  }

  lemma NodesAreKeys(nodes: seq<Node>, k: Key)
    ensures (exists c <- nodes :: c.name == k) <==> HasKey(Entries(nodes), k)
  {
    if c :| c in nodes && c.name == k {
      var i :| 0 <= i < |nodes| && nodes[i] == c;
      assert Entries(nodes)[i].key == k;
    }
    if HasKey(Entries(nodes), k) {
      var i :| 0 <= i < |nodes| && Entries(nodes)[i].key == k;
      assert nodes[i] in nodes;
    }
  }

  lemma TimesAreLabels(rows: seq<Row>, t: int)
    ensures (exists r <- Timed(rows) :: r.labels[..1] == [t]) <==> exists r <- rows :: r.time == t
  {
    if r :| r in rows && r.time == t {
      var i :| 0 <= i < |rows| && rows[i] == r;
      assert Timed(rows)[i] in Timed(rows) && Timed(rows)[i].labels[..1] == [t];
    }
    if r :| r in Timed(rows) && r.labels[..1] == [t] {
      var i :| 0 <= i < |rows| && Timed(rows)[i] == r;
      assert r.labels[0] == rows[i].time && r.labels[..1][0] == t && rows[i] in rows;
    }
  }

  lemma TimedTreeStartsWithTimes(nodes: seq<Node>, rows: seq<Row>, m: string)
    requires Wide(Timed(rows), 1) && Entries(nodes) == Level(Timed(rows), m, 1)
    ensures AreTimes(nodes, rows)
  {
    var level := Level(Timed(rows), m, 1);
    LevelIsGrouped(Timed(rows), m, 1);
    forall c <- nodes ensures |c.name| == 1 {
      var i :| 0 <= i < |nodes| && nodes[i] == c;
      assert Entries(nodes)[i] in level;
    }
    forall i, j | 0 <= i < j < |nodes|
      ensures |nodes[i].name| == |nodes[j].name| == 1 && nodes[i].name[0] < nodes[j].name[0]
    {
      assert nodes[i] in nodes && nodes[j] in nodes;
      assert Less(Entries(nodes)[i].key, Entries(nodes)[j].key);
      LessOfOne(nodes[i].name, nodes[j].name);
    }
    forall t ensures (exists c <- nodes :: c.name == [t]) <==> exists r <- rows :: r.time == t {
      NodesAreKeys(nodes, [t]);
      TimesAreLabels(rows, t);
    }
  }

  lemma FaithfulRootIsValued(root: Root, rows: seq<Row>, n: nat, option: TimeOption, shown: seq<Row>, depth: nat,
                             since: int, until: int, m: string)
    requires Shows(rows, n, option, shown, depth) && Bounds(rows, since, until) && Wide(shown, depth) && depth > 0
    requires FaithfulRoot(root, m, shown, depth)
    ensures ValuedRoot(root, rows, option, since, until, m)
  {
    ShownIsWorth(rows, n, option, shown, depth, since, until, m, []);
    forall c <- root.children ensures Valued(c, rows, option, since, until, m) {
      FaithfulIsValued(c, rows, n, option, shown, depth, since, until, m);
    }
    if option.ByTime? { TimedTreeStartsWithTimes(root.children, rows, m); }
  }

  /** `get_data` for the options built from sums. */
  method GetData(rows: seq<Row>, metrics: seq<string>, n: nat, option: TimeOption)
    returns (data: ChartData, ghost shown: seq<Row>, ghost depth: nat)
    requires Wide(rows, n)
    ensures data.NoData? <==> rows == []
    ensures data.NeedsGroupBy? <==> rows != [] && n == 0
    ensures data.Tree? ==>
              && Shows(rows, n, option, shown, depth) && Wide(shown, depth)
              && |data.roots| == |metrics|
              && forall i :: 0 <= i < |metrics| ==> FaithfulRoot(data.roots[i], metrics[i], shown, depth)
    ensures data.Tree? ==>
              exists since, until ::
                && Bounds(rows, since, until)
                && forall i :: 0 <= i < |metrics| ==>
                     ValuedRoot(data.roots[i], rows, option, since, until, metrics[i])
  {
    shown, depth := rows, n;
    if rows == [] { return NoData, shown, depth; }
    if n == 0 { return NeedsGroupBy, shown, depth; }
    var levels: seq<Frame>;
    match option {
      case AggSum =>
        levels := LevelsFor(rows, metrics, n);
      case PointDiff =>
        levels := LevelsForDiff(rows, metrics, n);
        ghost var since, until :| AreDiffLevels(levels, rows, metrics, n, since, until);
        shown := Signed(rows, until, since);
        SignedIsNotEmpty(rows, until, since);
      case ByTime =>
        levels := LevelsFor(Timed(rows), metrics, n + 1);
        shown, depth := Timed(rows), n + 1;
    }
    forall m <- metrics ensures HasColumn(levels, m) && FaithfulRoot(RootOf(levels, m), m, shown, depth) {
      RootOfIsFaithful(levels, shown, metrics, m, depth);
    }
    var roots := NestValues(levels, metrics);
    data := Tree(roots);
    ghost var first, last := TimeBounds(rows);
    forall i | 0 <= i < |metrics| ensures ValuedRoot(roots[i], rows, option, first, last, metrics[i]) {
      FaithfulRootIsValued(roots[i], rows, n, option, shown, depth, first, last, metrics[i]);
    }
  }
}
