/**
 Choosing and filling the tables of a migration benchmark: `find_models` and the loops of `benchmark_migration` in
 `scripts/benchmark_migration.py`.

 The schema maps each table that has a model to the tables its foreign keys refer to, some of which may have none.
 */
module MigrationModels {
  import opened Optional

  type Table = string

  type Schema = map<Table, seq<Table>>

  // ---------------------------------------------------------------- the worklist

  /** A path of mapped tables along foreign keys. */
  predicate IsPath(schema: Schema, p: seq<Table>) {
    && p != []
    && (forall t <- p :: t in schema)
    && forall i :: 0 <= i < |p| - 1 ==> p[i] in schema && p[i + 1] in schema[p[i]]
  }

  ghost predicate Reachable(schema: Schema, seeds: set<Table>, t: Table) {
    exists p :: IsPath(schema, p) && p[0] in seeds && p[|p| - 1] == t
  }

  ghost predicate NoDuplicates(l: seq<Table>) { forall i, j :: 0 <= i < j < |l| ==> l[i] != l[j] }

  lemma ReachableStep(schema: Schema, seeds: set<Table>, t: Table, u: Table)
    requires Reachable(schema, seeds, t) && t in schema && u in schema[t] && u in schema
    ensures Reachable(schema, seeds, u)
  {
    var p :| IsPath(schema, p) && p[0] in seeds && p[|p| - 1] == t;
    var q := p + [u];
    assert forall i :: 0 <= i < |q| - 1 ==> q[i] == p[i];
    assert IsPath(schema, q);
  }

  /** A set of mapped tables that has the mapped seeds and is closed under foreign keys has every reachable table. */
  lemma {:induction false} ClosedHasReachable(schema: Schema, seeds: set<Table>, closed: set<Table>, p: seq<Table>)
    requires IsPath(schema, p) && p[0] in seeds
    requires forall t <- seeds :: t in schema ==> t in closed
    requires forall t <- closed :: t in schema && forall u <- schema[t] :: u in schema ==> u in closed
    ensures p[|p| - 1] in closed
  {
    if |p| == 1 {
      assert p[0] in schema;
    } else {
      var q := p[..|p| - 1];
      assert forall i :: 0 <= i < |q| ==> q[i] == p[i];
      ClosedHasReachable(schema, seeds, closed, q);
      assert p[|p| - 1] in p && p[|p| - 2 + 1] in schema[p[|p| - 2]];
    }
  }

  /** Every table a seed or a foreign key names. */
  function Universe(schema: Schema, seeds: set<Table>): set<Table> {
    seeds + set t, u | t in schema && u in schema[t] :: u
  }

  /** The loop over the foreign keys of one model. */
  method AddUnseen(tables: set<Table>, seen: set<Table>, targets: seq<Table>) returns (more: set<Table>)
    ensures more == tables + set u | u in targets && u !in seen
  {
    more := tables;
    for i := 0 to |targets|
      invariant more == tables + set u | u in targets[..i] && u !in seen
    {
      if targets[i] !in seen {
        more := more + {targets[i]};
      }
    }
  }

  /** The worklist of `find_models`: each mapped table reachable from the seeds through mapped tables, once. */
  method Closure(schema: Schema, seeds: set<Table>) returns (models: seq<Table>)
    ensures NoDuplicates(models)
    ensures forall t :: t in models <==> Reachable(schema, seeds, t)
  {
    models := [];
    var tables, seen := seeds, {};
    forall t <- seeds | t in schema ensures Reachable(schema, seeds, t) {
      assert IsPath(schema, [t]);
    }
    while tables != {}
      invariant tables !! seen && tables <= Universe(schema, seeds) && seen <= Universe(schema, seeds)
      invariant seeds <= tables + seen
      invariant NoDuplicates(models) && forall t :: t in models <==> t in seen && t in schema
      invariant forall t <- models :: forall u <- schema[t] :: u in tables + seen
      invariant forall t <- tables + seen :: t in schema ==> Reachable(schema, seeds, t)
      decreases Universe(schema, seeds) - seen
    {
      var table :| table in tables;
      tables, seen := tables - {table}, seen + {table};
      if table !in schema {
        continue;
      }
      models := models + [table];
      tables := AddUnseen(tables, seen, schema[table]);
      forall u | u in schema[table] && u in schema ensures Reachable(schema, seeds, u) {
        ReachableStep(schema, seeds, table, u);
      }
    }
    forall t | Reachable(schema, seeds, t) ensures t in models {
      var p :| IsPath(schema, p) && p[0] in seeds && p[|p| - 1] == t;
      ClosedHasReachable(schema, seeds, (set m | m in models), p);
    }
  }

  // ---------------------------------------------------------------- the order of creation

  function IndexOf(order: seq<Table>, t: Table): nat
    requires t in order
  {
    if order[0] == t then 0 else 1 + IndexOf(order[1..], t)
  }

  /** What `TopologicalSorter.static_order` promises for the tables found: every referenced table comes first. */
  ghost predicate IsStaticOrder(order: seq<Table>, schema: Schema, seeds: set<Table>) {
    && (forall t | Reachable(schema, seeds, t) :: t in order)
    && forall t, u | Reachable(schema, seeds, t) && t in schema && u in schema[t] && u != t ::
         t in order && u in order && IndexOf(order, u) < IndexOf(order, t)
  }

  /** A closed path through two or more of the tables found: what makes the sorter raise. */
  ghost predicate IsCycle(schema: Schema, seeds: set<Table>, p: seq<Table>) {
    && IsPath(schema, p) && |p| > 1 && p[0] == p[|p| - 1] && Reachable(schema, seeds, p[0])
    && forall i :: 0 <= i < |p| - 1 ==> p[i] != p[i + 1]
  }

  lemma {:induction false} IndexDecreases(order: seq<Table>, schema: Schema, seeds: set<Table>, p: seq<Table>)
    requires IsStaticOrder(order, schema, seeds)
    requires IsPath(schema, p) && |p| > 1 && Reachable(schema, seeds, p[0])
    requires forall i :: 0 <= i < |p| - 1 ==> p[i] != p[i + 1]
    ensures p[0] in order && p[|p| - 1] in order && IndexOf(order, p[|p| - 1]) < IndexOf(order, p[0])
  {
    assert p[0] in p && p[1] in p && p[0 + 1] in schema[p[0]] && p[0] != p[0 + 1];
    if |p| > 2 {
      var q := p[1..];
      ReachableStep(schema, seeds, p[0], p[1]);
      forall i | 0 <= i < |q| - 1 ensures q[i] != q[i + 1] && q[i] in schema && q[i + 1] in schema[q[i]] {
        assert p[i + 1] != p[i + 1 + 1] && p[i + 1 + 1] in schema[p[i + 1]];
      }
      IndexDecreases(order, schema, seeds, q);
    }
  }

  /** An order exists only without a cycle, so listing the models of a cyclic schema always fails. */
  lemma OrderedIsAcyclic(order: seq<Table>, schema: Schema, seeds: set<Table>)
    requires IsStaticOrder(order, schema, seeds)
    ensures !exists p :: IsCycle(schema, seeds, p)
  {
    forall p | IsCycle(schema, seeds, p) ensures false {
      IndexDecreases(order, schema, seeds, p);
    }
  }

  ghost predicate Increasing(ranks: seq<nat>) { forall i, j :: 0 <= i < j < |ranks| ==> ranks[i] < ranks[j] }

  function Ranks(order: seq<Table>, l: seq<Table>): seq<nat>
    requires forall t <- l :: t in order
  {
    seq(|l|, i requires 0 <= i < |l| => IndexOf(order, l[i]))
  }

  ghost predicate SortedBy(order: seq<Table>, l: seq<Table>) {
    (forall t <- l :: t in order) && Increasing(Ranks(order, l))
  }

  lemma {:induction false} IndexIsInjective(order: seq<Table>, t: Table, u: Table)
    requires t in order && u in order && IndexOf(order, t) == IndexOf(order, u)
    ensures t == u
  {
    if order[0] != t && order[0] != u {
      IndexIsInjective(order[1..], t, u);
    }
  }

  function Insert(l: seq<Table>, t: Table, at: nat): seq<Table>
    requires at <= |l|
  {
    l[..at] + [t] + l[at..]
  }

  lemma InsertHolds(l: seq<Table>, t: Table, at: nat)
    requires at <= |l|
    ensures forall u :: u in Insert(l, t, at) <==> u == t || u in l
  {
  }

  lemma InsertKeepsIncreasing(ranks: seq<nat>, rank: nat, at: nat)
    requires Increasing(ranks) && at <= |ranks|
    requires forall i :: 0 <= i < at ==> ranks[i] < rank
    requires at < |ranks| ==> rank < ranks[at]
    ensures Increasing(ranks[..at] + [rank] + ranks[at..])
  {
  }

  lemma InsertKeepsOrder(order: seq<Table>, l: seq<Table>, t: Table, at: nat)
    requires SortedBy(order, l) && t in order && t !in l && at <= |l|
    requires forall i :: 0 <= i < at ==> Ranks(order, l)[i] < IndexOf(order, t)
    requires at < |l| ==> IndexOf(order, l[at]) >= IndexOf(order, t)
    ensures SortedBy(order, Insert(l, t, at))
  {
    InsertHolds(l, t, at);
    var ranks, rank := Ranks(order, l), IndexOf(order, t);
    if at < |l| {
      assert l[at] in l && ranks[at] == IndexOf(order, l[at]);
      if ranks[at] == rank { IndexIsInjective(order, l[at], t); }
    }
    InsertKeepsIncreasing(ranks, rank, at);
    assert Ranks(order, Insert(l, t, at)) == ranks[..at] + [rank] + ranks[at..];
  }

  /** `models.sort(key=order.index)`, by insertion. */
  method SortByOrder(models: seq<Table>, order: seq<Table>) returns (sorted: seq<Table>)
    requires NoDuplicates(models) && forall t <- models :: t in order
    ensures SortedBy(order, sorted) && forall t :: t in sorted <==> t in models
  {
    sorted := [];
    for k := 0 to |models|
      invariant SortedBy(order, sorted) && forall t :: t in sorted <==> t in models[..k]
    {
      var t := models[k];
      var at := 0;
      while at < |sorted| && IndexOf(order, sorted[at]) < IndexOf(order, t)
        invariant 0 <= at <= |sorted|
        invariant forall i :: 0 <= i < at ==> Ranks(order, sorted)[i] < IndexOf(order, t)
      {
        at := at + 1;
      }
      assert t !in models[..k];
      InsertHolds(sorted, t, at);
      InsertKeepsOrder(order, sorted, t, at);
      assert models[..k + 1] == models[..k] + [t];
      sorted := Insert(sorted, t, at);
    }
    assert models[..|models|] == models;
  }

  /** Each table of the list comes after every other table of the list it refers to. */
  ghost predicate ReferrersLast(schema: Schema, l: seq<Table>) {
    forall i, j :: 0 <= i < |l| && 0 <= j < |l| && i != j && l[j] in schema && l[i] in schema[l[j]] ==> i < j
  }

  /** `find_models`, given the sorter's answer for the tables found; it raises exactly on a cycle. The list holds
      exactly the mapped tables reachable from the seeds, once each, referrers last. */
  method FindModels(schema: Schema, seeds: set<Table>, order: Option<seq<Table>>) returns (models: Option<seq<Table>>)
    requires order.Some? ==> IsStaticOrder(order.value, schema, seeds)
    requires order.None? ==> exists p :: IsCycle(schema, seeds, p)
    ensures models.None? <==> exists p :: IsCycle(schema, seeds, p)
    ensures models.Some? ==>
              && NoDuplicates(models.value) && ReferrersLast(schema, models.value)
              && forall t :: t in models.value <==> Reachable(schema, seeds, t)
  {
    var found := Closure(schema, seeds);
    if order.None? {
      return None;
    }
    OrderedIsAcyclic(order.value, schema, seeds);
    var sorted := SortByOrder(found, order.value);
    forall i, j | 0 <= i < |sorted| && 0 <= j < |sorted| && i != j &&
                  sorted[j] in schema && sorted[i] in schema[sorted[j]]
      ensures i < j
    {
      assert sorted[i] in sorted && sorted[j] in sorted;
      var lo, hi := if i < j then i else j, if i < j then j else i;
      assert Ranks(order.value, sorted)[lo] < Ranks(order.value, sorted)[hi];
    }
    forall i, j | 0 <= i < j < |sorted| ensures sorted[i] != sorted[j] {
      assert Ranks(order.value, sorted)[i] < Ranks(order.value, sorted)[j];
    }
    models := Some(sorted);
  }
}
