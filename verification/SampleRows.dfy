/**
 The rows a migration benchmark adds: `add_sample_rows` and `get_valid_foreign_key` of `axbi/utils/mock_data.py`, and why
 the foreign keys of such rows refer to older rows only.

 A row is its primary key and the values of its foreign keys, one for each entry of the schema; a null refers to
 nothing.
 */
module SampleRows {
  import opened Optional
  import opened MigrationModels

  datatype Row = Row(id: int, refs: seq<Option<int>>)

  type Tables = map<Table, seq<Row>>

  // ---------------------------------------------------------------- sample rows

  predicate HasId(rows: seq<Row>, id: int) { exists r <- rows :: r.id == id }

  predicate LargestId(rows: seq<Row>, top: int) {
    (if rows == [] then top == 0 else HasId(rows, top)) && forall r <- rows :: r.id <= top
  }

  /** Every model comes with as many values as foreign keys, and every table a foreign key names is there. */
  ghost predicate Shaped(schema: Schema, tables: Tables) {
    forall m <- schema ::
      && m in tables && (forall u <- schema[m] :: u in tables)
      && forall r <- tables[m] :: |r.refs| == |schema[m]|
  }

  /** `select ... limit n`: some `n` of the rows, or all if there are fewer. */
  predicate IsSelection(rows: seq<Row>, n: nat, r: seq<Row>) {
    |r| == (if |rows| < n then |rows| else n) && multiset(r) <= multiset(rows)
  }

  /** Which rows a database selects is not known to the caller. */
  method Select(rows: seq<Row>, n: nat) returns (r: seq<Row>)
    ensures IsSelection(rows, n, r)
  {
    r := if |rows| < n then rows else rows[..n];
    assert rows == r + rows[|r|..];
  }

  /** `get_valid_foreign_key`: some row of the table referred to, null if it has none. */
  ghost predicate IsPicked(rows: seq<Row>, ref: Option<int>) {
    if rows == [] then ref == None else ref.Some? && HasId(rows, ref.value)
  }

  ghost predicate ArePicked(targets: seq<Table>, tables: Tables, refs: seq<Option<int>>) {
    && |refs| == |targets|
    && forall c :: 0 <= c < |refs| ==> targets[c] in tables && IsPicked(tables[targets[c]], refs[c])
  }

  /** The sample for the row `i`: the samples are taken in turn. */
  function InTurn(samples: seq<Row>, i: nat): (r: Row)
    requires samples != []
    ensures r in samples
  {
    if i < |samples| then samples[i] else InTurn(samples, i - |samples|)
  }

  lemma MultipleIsFar(n: nat, d: int)
    ensures d >= 1 ==> d * n >= n
    ensures d <= -1 ==> d * n + n <= 0
  {
  }

  lemma SameRemainder(n: nat, d: int, b: nat, r: nat)
    requires b < n && r < n && d * n == r - b
    ensures b == r
  {
    MultipleIsFar(n, d);
  }

  lemma ModuloLess(i: nat, n: nat)
    requires 0 < n <= i
    ensures (i - n) % n == i % n
  {
    SameRemainder(n, (i - n) / n + 1 - i / n, (i - n) % n, i % n);
  }

  lemma {:induction false} InTurnIsModulo(samples: seq<Row>, i: nat)
    requires samples != []
    ensures InTurn(samples, i) == samples[i % |samples|]
  {
    if i >= |samples| {
      InTurnIsModulo(samples, i - |samples|);
      ModuloLess(i, |samples|);
    }
  }

  /** What `add_sample_rows` yields: keys that count up from the largest one, and the foreign keys of a sample of the
      rows in turn. Without a sample, because the table is empty or has no relationship, each is picked anew. */
  ghost predicate AreSampleRows(schema: Schema, related: set<Table>, tables: Tables, m: Table, added: seq<Row>)
    requires m in schema && m in tables
  {
    && (exists top :: LargestId(tables[m], top) && forall i :: 0 <= i < |added| ==> added[i].id == top + i + 1)
    && if m in related && tables[m] != [] && added != [] then
         exists samples: seq<Row> :: IsSelection(tables[m], |added|, samples) && samples != [] &&
                           forall i :: 0 <= i < |added| ==> added[i].refs == InTurn(samples, i).refs
       else
         forall r <- added :: ArePicked(schema[m], tables, r.refs)
  }

  lemma SelectedAreRows(rows: seq<Row>, n: nat, r: seq<Row>)
    requires IsSelection(rows, n, r)
    ensures forall x <- r :: x in rows
  {
    forall x <- r ensures x in rows {
      assert x in multiset(r);
      assert x in multiset(rows);
    }
  }

  method PickRefs(targets: seq<Table>, tables: Tables) returns (refs: seq<Option<int>>)
    requires forall u <- targets :: u in tables
    ensures ArePicked(targets, tables, refs)
  {
    refs := [];
    for c := 0 to |targets|
      invariant ArePicked(targets[..c], tables, refs)
    {
      var found := Select(tables[targets[c]], 1);
      SelectedAreRows(tables[targets[c]], 1, found);
      assert found != [] ==> found[0] in found;
      assert targets[..c + 1] == targets[..c] + [targets[c]];
      refs := refs + [if found == [] then None else Some(found[0].id)];
    }
    assert targets[..|targets|] == targets;
  }

  method LargestIdOf(rows: seq<Row>) returns (top: int)
    ensures LargestId(rows, top)
  {
    top := if rows == [] then 0 else rows[0].id;
    for i := 0 to |rows|
      invariant if rows == [] then top == 0 else HasId(rows, top)
      invariant forall j :: 0 <= j < i ==> rows[j].id <= top
    {
      if rows[i].id > top { top := rows[i].id; }
    }
  }

  /** `add_sample_rows`. */
  method AddSampleRows(schema: Schema, related: set<Table>, tables: Tables, m: Table, count: nat) returns (added: seq<Row>)
    requires m in schema && Shaped(schema, tables)
    ensures |added| == count && AreSampleRows(schema, related, tables, m, added)
  {
    var samples := [];
    if m in related {
      samples := Select(tables[m], count);
    }
    var top := LargestIdOf(tables[m]);
    added := [];
    for i := 0 to count
      invariant |added| == i && forall k :: 0 <= k < i ==> added[k].id == top + k + 1
      invariant samples != [] ==> forall k :: 0 <= k < i ==> added[k].refs == InTurn(samples, k).refs
      invariant samples == [] ==> forall r <- added :: ArePicked(schema[m], tables, r.refs)
    {
      var refs;
      if samples != [] {
        InTurnIsModulo(samples, i);
        refs := samples[i % |samples|].refs;
      } else {
        refs := PickRefs(schema[m], tables);
      }
      added := added + [Row(top + i + 1, refs)];
    }
  }

  lemma SampleRowsAreNew(schema: Schema, related: set<Table>, tables: Tables, m: Table, added: seq<Row>)
    requires m in schema && m in tables && AreSampleRows(schema, related, tables, m, added)
    ensures forall r <- added :: !HasId(tables[m], r.id)
  {
  }

  lemma SampledFrom(schema: Schema, related: set<Table>, tables: Tables, m: Table, added: seq<Row>, r: Row) returns (s: Row)
    requires m in schema && m in tables && AreSampleRows(schema, related, tables, m, added)
    requires m in related && tables[m] != [] && r in added
    ensures s in tables[m] && s.refs == r.refs
  {
    var samples: seq<Row> :| IsSelection(tables[m], |added|, samples) && samples != [] &&
                   forall i :: 0 <= i < |added| ==> added[i].refs == InTurn(samples, i).refs;
    SelectedAreRows(tables[m], |added|, samples);
    var i :| 0 <= i < |added| && added[i] == r;
    s := InTurn(samples, i);
  }

  lemma SampleRowsAreShaped(schema: Schema, related: set<Table>, tables: Tables, m: Table, added: seq<Row>)
    requires m in schema && Shaped(schema, tables) && AreSampleRows(schema, related, tables, m, added)
    ensures Shaped(schema, tables[m := tables[m] + added])
  {
    forall r <- added ensures |r.refs| == |schema[m]| {
      if m in related && tables[m] != [] { var _ := SampledFrom(schema, related, tables, m, added, r); }
    }
  }

  // ---------------------------------------------------------------- foreign keys

  /** The foreign keys of a row of `m` refer to rows that are there. */
  ghost predicate Refers(schema: Schema, tables: Tables, m: Table, r: Row)
    requires m in schema
  {
    && |r.refs| == |schema[m]|
    && forall c :: 0 <= c < |r.refs| && r.refs[c].Some? ==>
         schema[m][c] in tables && HasId(tables[schema[m][c]], r.refs[c].value)
  }

  /** No foreign key dangles. */
  ghost predicate Referential(schema: Schema, tables: Tables) {
    forall m <- schema :: m in tables && forall r <- tables[m] :: Refers(schema, tables, m, r)
  }

  /** The mapper gives every model a relationship that has a foreign key to a model. */
  ghost predicate Automapped(schema: Schema, related: set<Table>) {
    forall m <- schema :: (exists u <- schema[m] :: u in schema) ==> m in related
  }

  /** The database kept its foreign keys, and the mapper its promise, before the benchmark. */
  ghost predicate Sound(schema: Schema, related: set<Table>, db: Tables) {
    Referential(schema, db) && Automapped(schema, related)
  }

  ghost predicate Before(keys: seq<Table>, u: Table, m: Table) {
    exists i, j :: 0 <= i < j < |keys| && keys[i] == u && keys[j] == m
  }

  /** The foreign keys of a row of `m` refer to rows from before the benchmark or to models filled before `m`. */
  ghost predicate PointsBack(schema: Schema, db: Tables, keys: seq<Table>, m: Table, r: Row)
    requires m in schema
  {
    forall c :: 0 <= c < |r.refs| && c < |schema[m]| && r.refs[c].Some? ==>
      schema[m][c] in db && (HasId(db[schema[m][c]], r.refs[c].value) || Before(keys, schema[m][c], m))
  }

  ghost predicate Linked(schema: Schema, db: Tables, cur: Tables, keys: seq<Table>) {
    && cur.Keys == db.Keys && Referential(schema, cur)
    && (forall m <- schema :: forall r <- cur[m] :: PointsBack(schema, db, keys, m, r))
    && (forall m <- keys :: m in schema && m in cur && cur[m] != [])
    && (forall m <- db :: m !in keys ==> cur[m] == db[m])
  }

  lemma LinkedAtFirst(schema: Schema, db: Tables)
    requires Referential(schema, db)
    ensures Linked(schema, db, db, [])
  {
    forall m <- schema, r | r in db[m] ensures PointsBack(schema, db, [], m, r) {
      assert Refers(schema, db, m, r);
    }
  }

  lemma BeforeStays(keys: seq<Table>, u: Table, m: Table, more: seq<Table>)
    requires Before(keys, u, m)
    ensures Before(keys + more, u, m)
  {
    var i, j :| 0 <= i < j < |keys| && keys[i] == u && keys[j] == m;
    assert (keys + more)[i] == u && (keys + more)[j] == m;
  }

  /** A row that is there stays linked when `m` gets more rows. */
  lemma OldRowStaysLinked(schema: Schema, db: Tables, cur: Tables, keys: seq<Table>, m: Table, added: seq<Row>,
                          more: seq<Table>, t: Table, r: Row)
    requires t in schema && m in cur && Refers(schema, cur, t, r) && PointsBack(schema, db, keys, t, r)
    ensures Refers(schema, cur[m := cur[m] + added], t, r) && PointsBack(schema, db, keys + more, t, r)
  {
    forall c | 0 <= c < |r.refs| && r.refs[c].Some?
      ensures HasId(cur[m := cur[m] + added][schema[t][c]], r.refs[c].value)
      ensures HasId(db[schema[t][c]], r.refs[c].value) || Before(keys + more, schema[t][c], t)
    {
      if Before(keys, schema[t][c], t) { BeforeStays(keys, schema[t][c], t, more); }
    }
  }

  lemma PickedIsLinked(schema: Schema, related: set<Table>, db: Tables, cur: Tables, keys: seq<Table>, m: Table, u: Table,
                       ref: Option<int>)
    requires Automapped(schema, related) && Linked(schema, db, cur, keys) && m in schema && m in cur && u in schema[m]
    requires m !in related || cur[m] == []
    requires u in cur && IsPicked(cur[u], ref) && ref.Some?
    ensures u in db && HasId(cur[u], ref.value)
    ensures HasId(db[u], ref.value) || (m !in keys && Before(keys + [m], u, m))
  {
    if u in keys {
      assert m in related && m !in keys;
      var i :| 0 <= i < |keys| && keys[i] == u;
      assert (keys + [m])[i] == u && (keys + [m])[|keys|] == m;
    }
  }

  /** The foreign keys of a sample row are copied from a row of its own table, or picked from rows that are there: a row
      added by the benchmark is picked only where its model was filled first. */
  lemma NewRowIsLinked(schema: Schema, related: set<Table>, db: Tables, cur: Tables, keys: seq<Table>, m: Table,
                       added: seq<Row>, more: seq<Table>, r: Row)
    requires Automapped(schema, related) && Linked(schema, db, cur, keys) && m in schema && m in cur
    requires AreSampleRows(schema, related, cur, m, added) && r in added
    requires more == if m in keys then [] else [m]
    ensures Refers(schema, cur, m, r) && PointsBack(schema, db, keys + more, m, r)
  {
    if m in related && cur[m] != [] {
      var s := SampledFrom(schema, related, cur, m, added, r);
      assert Refers(schema, cur, m, s) && PointsBack(schema, db, keys, m, s);
      OldRowStaysLinked(schema, db, cur, keys, m, [], more, m, s);
    } else {
      forall c | 0 <= c < |r.refs| && r.refs[c].Some?
        ensures schema[m][c] in db && HasId(cur[schema[m][c]], r.refs[c].value)
        ensures HasId(db[schema[m][c]], r.refs[c].value) || Before(keys + more, schema[m][c], m)
      {
        PickedIsLinked(schema, related, db, cur, keys, m, schema[m][c], r.refs[c]);
      }
    }
  }

  /** Filling a model keeps every row linked. */
  lemma LinkedMore(schema: Schema, related: set<Table>, db: Tables, cur: Tables, keys: seq<Table>, m: Table,
                   added: seq<Row>)
    requires Automapped(schema, related) && Linked(schema, db, cur, keys) && m in schema && m in cur
    requires AreSampleRows(schema, related, cur, m, added) && added != []
    ensures Linked(schema, db, cur[m := cur[m] + added], if m in keys then keys else keys + [m])
  {
    var cur', more := cur[m := cur[m] + added], if m in keys then [] else [m];
    assert keys + more == if m in keys then keys else keys + [m];
    forall t, r | t in schema && r in cur'[t]
      ensures Refers(schema, cur', t, r) && PointsBack(schema, db, keys + more, t, r)
    {
      if r in cur[t] {
        OldRowStaysLinked(schema, db, cur, keys, m, added, more, t, r);
      } else {
        NewRowIsLinked(schema, related, db, cur, keys, m, added, more, r);
        OldRowStaysLinked(schema, db, cur, keys + more, m, added, [], m, r);
        assert keys + more + [] == keys + more;
      }
    }
  }
}
