/**
 The tier loop and the clean-up of `benchmark_migration` in `scripts/benchmark_migration.py`: fill every model up to
 10, 100, 1000, ... rows, then delete what was added, models in the reverse of the order they were first filled in.

 The migrations run in between are taken to leave the rows alone.
 */
module MigrationRows {
  import opened Optional
  import opened MigrationModels
  import opened SampleRows

  function Max(a: nat, b: nat): nat { if a > b then a else b }

  /** The first tier, from `tier` on and within the limit, that asks for more than `rows` rows. */
  function FirstTier(rows: nat, tier: nat, limit: int): Option<nat>
    requires tier > 0
    decreases limit - tier
  {
    if tier > limit then None else if tier > rows then Some(tier) else FirstTier(rows, 10 * tier, limit)
  }

  /** The last tier within the limit, given that `below` was the one before `tier`. */
  function LastTier(below: nat, tier: nat, limit: int): nat
    requires tier > 0
    decreases limit - tier
  {
    if tier > limit then below else LastTier(tier, 10 * tier, limit)
  }

  function Tier(k: nat): (t: nat)
    ensures t >= 10
  {
    if k == 0 then 10 else 10 * Tier(k - 1)
  }

  /** 10, 100, 1000, ... */
  ghost predicate IsTier(t: nat) { exists k: nat :: t == Tier(k) }

  lemma TierTimesTen(tier: nat)
    requires IsTier(tier)
    ensures IsTier(10 * tier)
  {
    var k: nat :| tier == Tier(k);
    assert Tier(k + 1) == 10 * tier;
  }

  lemma {:induction false} TiersGrow(j: nat, k: nat)
    requires j <= k
    ensures Tier(j) <= Tier(k)
  {
    if j < k { TiersGrow(j, k - 1); }
  }

  lemma TierAfter(tier: nat, t: nat)
    requires IsTier(tier) && IsTier(t) && t > tier
    ensures IsTier(10 * tier) && t >= 10 * tier
  {
    TierTimesTen(tier);
    var j: nat :| tier == Tier(j);
    var k: nat :| t == Tier(k);
    if k <= j {
      TiersGrow(k, j);
    } else {
      TiersGrow(j + 1, k);
    }
  }

  /** The first tier is the smallest that asks for more rows; there is none if no tier within the limit does. */
  lemma {:induction false} FirstTierIsSmallest(rows: nat, tier: nat, limit: int, t: nat)
    requires IsTier(tier) && IsTier(t) && t >= tier
    ensures FirstTier(rows, tier, limit).Some? ==>
              var first := FirstTier(rows, tier, limit).value;
              IsTier(first) && rows < first <= limit && (rows < t <= limit ==> first <= t)
    ensures FirstTier(rows, tier, limit).None? ==> t <= rows || t > limit
    decreases limit - tier
  {
    if tier <= limit && tier <= rows && t > tier {
      TierAfter(tier, t);
      FirstTierIsSmallest(rows, 10 * tier, limit, t);
    } else if tier <= limit && tier <= rows {
      TierTimesTen(tier);
      FirstTierIsSmallest(rows, 10 * tier, limit, 10 * tier);
    }
  }

  /** The last tier is the largest within the limit, or `below` if there is none. */
  lemma {:induction false} LastTierIsLargest(below: nat, tier: nat, limit: int, t: nat)
    requires IsTier(tier) && IsTier(t) && t >= tier
    ensures var last := LastTier(below, tier, limit);
            if tier > limit then last == below else IsTier(last) && tier <= last <= limit && (t <= limit ==> t <= last)
    decreases limit - tier
  {
    if tier <= limit {
      TierTimesTen(tier);
      if t > tier {
        TierAfter(tier, t);
        LastTierIsLargest(tier, 10 * tier, limit, t);
      } else {
        LastTierIsLargest(tier, 10 * tier, limit, 10 * tier);
      }
    }
  }

  /** The tier at which a model is first filled, if any. */
  function TierOf(db: Tables, m: Table, limit: int): Option<nat>
    requires m in db
  {
    FirstTier(|db[m]|, 10, limit)
  }

  /** Model `a` was first filled before model `b`. */
  ghost predicate FilledBefore(models: seq<Table>, db: Tables, limit: int, a: Table, b: Table)
    requires a in models && b in models && a in db && b in db
  {
    var s, t := TierOf(db, a, limit), TierOf(db, b, limit);
    s.Some? && t.Some? && (s.value < t.value || (s.value == t.value && IndexOf(models, a) < IndexOf(models, b)))
  }

  // ---------------------------------------------------------------- the tiers

  /** How many rows a model has once it was filled up to `level`. */
  ghost predicate FilledTo(before: seq<Row>, now: seq<Row>, level: nat) {
    before <= now && |now| == Max(|before|, level)
  }

  ghost predicate RowsFilled(models: seq<Table>, db: Tables, below: nat, tier: nat, done: nat, cur: Tables)
    requires done <= |models| && forall m <- models :: m in db
  {
    && cur.Keys == db.Keys
    && (forall m <- db :: m !in models ==> cur[m] == db[m])
    && (forall k :: 0 <= k < |models| ==> FilledTo(db[models[k]], cur[models[k]], if k < done then tier else below))
  }

  ghost predicate KeysInOrder(models: seq<Table>, db: Tables, limit: int, keys: seq<Table>)
    requires forall m <- models :: m in db
  {
    && (forall m <- keys :: m in models)
    && forall i, j :: 0 <= i < j < |keys| ==>
         keys[i] in models && keys[j] in models && FilledBefore(models, db, limit, keys[i], keys[j])
  }

  ghost predicate KeyUpTo(models: seq<Table>, db: Tables, limit: int, below: nat, tier: nat, done: nat, m: Table)
    requires m in models && m in db
  {
    var t := TierOf(db, m, limit);
    t.Some? && (t.value <= below || (t.value == tier && IndexOf(models, m) < done))
  }

  /** In tier `tier`, the first `done` models are filled up to it and the others up to `below`, the tier before; the
      models filled so far are the keys of `new_models`, in the order they were first filled. */
  ghost predicate Filling(models: seq<Table>, db: Tables, limit: int, below: nat, tier: nat, done: nat,
                          cur: Tables, keys: seq<Table>)
    requires done <= |models| && forall m <- models :: m in db
  {
    && RowsFilled(models, db, below, tier, done, cur)
    && (forall k :: 0 <= k < |models| ==> (models[k] in keys <==> |db[models[k]]| < if k < done then tier else below))
    && KeysInOrder(models, db, limit, keys)
    && (forall m <- keys :: m in models && KeyUpTo(models, db, limit, below, tier, done, m))
  }

  lemma {:induction false} IndexOfElement(l: seq<Table>, k: nat)
    requires NoDuplicates(l) && k < |l|
    ensures IndexOf(l, l[k]) == k
  {
    if k > 0 {
      assert l[1..][k - 1] == l[k];
      IndexOfElement(l[1..], k - 1);
    }
  }

  /** While no tier up to `below` asks for more than `rows` rows, the search may start at the tier after it. */
  ghost predicate StartsAt(below: nat, tier: nat, limit: int)
    requires tier > 0
  {
    below < tier && forall rows: nat :: rows >= below ==> FirstTier(rows, 10, limit) == FirstTier(rows, tier, limit)
  }

  /** A model that is full enough is passed over. */
  lemma PassOne(models: seq<Table>, db: Tables, limit: int, below: nat, tier: nat, k: nat, cur: Tables, keys: seq<Table>)
    requires NoDuplicates(models) && k < |models| && forall m <- models :: m in db
    requires below < tier && Filling(models, db, limit, below, tier, k, cur, keys)
    requires |cur[models[k]]| >= tier
    ensures Filling(models, db, limit, below, tier, k + 1, cur, keys)
  {
  }

  lemma RowsOneMore(models: seq<Table>, db: Tables, below: nat, tier: nat, k: nat, cur: Tables, more: seq<Row>)
    requires NoDuplicates(models) && k < |models| && forall m <- models :: m in db
    requires below < tier && RowsFilled(models, db, below, tier, k, cur)
    requires |cur[models[k]]| < tier && cur[models[k]] <= more && |more| == tier
    ensures RowsFilled(models, db, below, tier, k + 1, cur[models[k] := more])
  {
  }

  /** A model first filled in this tier comes after all earlier keys. */
  lemma NewKey(models: seq<Table>, db: Tables, limit: int, below: nat, tier: nat, k: nat, keys: seq<Table>)
    requires NoDuplicates(models) && k < |models| && forall m <- models :: m in db
    requires KeysInOrder(models, db, limit, keys)
    requires forall m <- keys :: m in models && KeyUpTo(models, db, limit, below, tier, k, m)
    requires below < tier && TierOf(db, models[k], limit) == Some(tier)
    ensures KeysInOrder(models, db, limit, keys + [models[k]])
    ensures forall m <- keys + [models[k]] :: m in models && KeyUpTo(models, db, limit, below, tier, k + 1, m)
  {
    var m, keys' := models[k], keys + [models[k]];
    assert m in models;
    IndexOfElement(models, k);
    forall i, j | 0 <= i < j < |keys'| ensures FilledBefore(models, db, limit, keys'[i], keys'[j]) {
      if j == |keys| {
        assert keys'[i] in keys && KeyUpTo(models, db, limit, below, tier, k, keys'[i]);
      }
    }
    forall a <- keys' ensures a in models && KeyUpTo(models, db, limit, below, tier, k + 1, a) {
      if a in keys { assert KeyUpTo(models, db, limit, below, tier, k, a); }
    }
  }

  /** A model that is not full enough gets the missing rows, and a place in `new_models` unless it has one. */
  lemma FillOne(models: seq<Table>, db: Tables, limit: int, below: nat, tier: nat, k: nat, cur: Tables, keys: seq<Table>,
                more: seq<Row>)
    requires NoDuplicates(models) && k < |models| && forall m <- models :: m in db
    requires 0 < tier <= limit && StartsAt(below, tier, limit)
    requires Filling(models, db, limit, below, tier, k, cur, keys)
    requires |cur[models[k]]| < tier && cur[models[k]] <= more && |more| == tier
    ensures Filling(models, db, limit, below, tier, k + 1, cur[models[k] := more],
                    if models[k] in keys then keys else keys + [models[k]])
  {
    var m := models[k];
    assert m in models && FilledTo(db[m], cur[m], below);
    RowsOneMore(models, db, below, tier, k, cur, more);
    if m in keys {
      forall a <- keys ensures a in models && KeyUpTo(models, db, limit, below, tier, k + 1, a) {
        assert KeyUpTo(models, db, limit, below, tier, k, a);
      }
    } else {
      assert TierOf(db, m, limit) == Some(tier);
      NewKey(models, db, limit, below, tier, k, keys);
    }
  }

  lemma OneModelDone(models: seq<Table>, db: Tables, limit: int, below: nat, tier: nat, k: nat,
                     cur: Tables, keys: seq<Table>, cur': Tables, keys': seq<Table>)
    requires NoDuplicates(models) && k < |models| && forall m <- models :: m in db
    requires 0 < tier <= limit && StartsAt(below, tier, limit) && Filling(models, db, limit, below, tier, k, cur, keys)
    requires models[k] in cur'
    requires var m := models[k];
             if |cur[m]| >= tier then cur' == cur && keys' == keys
             else && |cur'[m]| == tier && cur[m] <= cur'[m] && cur' == cur[m := cur'[m]]
                  && keys' == if m in keys then keys else keys + [m]
    ensures Filling(models, db, limit, below, tier, k + 1, cur', keys')
  {
    if |cur[models[k]]| < tier {
      FillOne(models, db, limit, below, tier, k, cur, keys, cur'[models[k]]);
    } else {
      PassOne(models, db, limit, below, tier, k, cur, keys);
    }
  }

  /** The rows added to each model: new keys behind the old ones, remembered in `added` for the models of `keys`. */
  ghost predicate Remembers(models: seq<Table>, db: Tables, cur: Tables, keys: seq<Table>, added: map<Table, seq<Row>>)
    requires cur.Keys == db.Keys && forall m <- models :: m in db
  {
    && (forall m <- models :: db[m] <= cur[m] && forall r <- cur[m][|db[m]|..] :: !HasId(db[m], r.id))
    && (forall m <- keys :: m in models && m in added && added[m] == cur[m][|db[m]|..])
    && (forall m <- models :: m !in keys ==> cur[m] == db[m])
  }

  lemma OldIdStays(before: seq<Row>, now: seq<Row>, id: int)
    requires before <= now && HasId(before, id)
    ensures HasId(now, id)
  {
    var r :| r in before && r.id == id;
    assert r in now;
  }

  lemma RemembersMore(models: seq<Table>, db: Tables, cur: Tables, keys: seq<Table>, added: map<Table, seq<Row>>,
                      m: Table, entities: seq<Row>)
    requires cur.Keys == db.Keys && forall m <- models :: m in db
    requires Remembers(models, db, cur, keys, added) && m in models && forall r <- entities :: !HasId(cur[m], r.id)
    ensures var earlier := if m in keys then added[m] else [];
            Remembers(models, db, cur[m := cur[m] + entities], if m in keys then keys else keys + [m],
                      added[m := earlier + entities])
  {
    var now := cur[m] + entities;
    assert db[m] <= now && now[|db[m]|..] == cur[m][|db[m]|..] + entities;
    forall r <- now[|db[m]|..] ensures !HasId(db[m], r.id) {
      if HasId(db[m], r.id) { OldIdStays(db[m], cur[m], r.id); }
    }
  }

  /** One model in one tier: it gets the rows missing to `tier`, if any. */
  method TopUp(schema: Schema, related: set<Table>, ghost models: seq<Table>, m: Table, ghost db: Tables, tier: nat,
               cur: Tables, keys: seq<Table>, added: map<Table, seq<Row>>, ghost sound: bool)
    returns (cur': Tables, keys': seq<Table>, added': map<Table, seq<Row>>)
    requires Shaped(schema, cur) && (forall m <- models :: m in schema && m in db)
    requires cur.Keys == db.Keys && m in models && Remembers(models, db, cur, keys, added)
    requires sound ==> Automapped(schema, related) && Linked(schema, db, cur, keys)
    ensures cur'.Keys == db.Keys && Remembers(models, db, cur', keys', added') && Shaped(schema, cur')
    ensures sound ==> Linked(schema, db, cur', keys')
    ensures if |cur[m]| >= tier then cur' == cur && keys' == keys
            else && |cur'[m]| == tier && cur[m] <= cur'[m] && cur' == cur[m := cur'[m]]
                 && AreSampleRows(schema, related, cur, m, cur'[m][|cur[m]|..])
                 && keys' == if m in keys then keys else keys + [m]
  {
    cur', keys', added' := cur, keys, added;
    var missing := tier - |cur[m]|;
    if missing > 0 {
      var entities := AddSampleRows(schema, related, cur, m, missing);
      SampleRowsAreNew(schema, related, cur, m, entities);
      SampleRowsAreShaped(schema, related, cur, m, entities);
      RemembersMore(models, db, cur, keys, added, m, entities);
      if sound { LinkedMore(schema, related, db, cur, keys, m, entities); }
      cur' := cur'[m := cur[m] + entities];
      added' := added[m := (if m in keys then added[m] else []) + entities];
      if m !in keys {
        keys' := keys + [m];
      }
      assert cur'[m][|cur[m]|..] == entities;
    }
  }

  /** One tier: every model with fewer than `tier` rows gets the missing ones. */
  method FillTier(schema: Schema, related: set<Table>, models: seq<Table>, ghost db: Tables, limit: int, ghost below: nat,
                  tier: nat, cur: Tables, keys: seq<Table>, added: map<Table, seq<Row>>, ghost sound: bool)
    returns (cur': Tables, keys': seq<Table>, added': map<Table, seq<Row>>)
    requires NoDuplicates(models) && (forall m <- models :: m in schema && m in db) && Shaped(schema, cur)
    requires 0 < tier <= limit && StartsAt(below, tier, limit)
    requires Filling(models, db, limit, below, tier, 0, cur, keys) && Remembers(models, db, cur, keys, added)
    requires sound ==> Automapped(schema, related) && Linked(schema, db, cur, keys)
    ensures Filling(models, db, limit, below, tier, |models|, cur', keys') && Remembers(models, db, cur', keys', added')
    ensures Shaped(schema, cur') && (sound ==> Linked(schema, db, cur', keys'))
  {
    cur', keys', added' := cur, keys, added;
    for k := 0 to |models|
      invariant Filling(models, db, limit, below, tier, k, cur', keys') && Remembers(models, db, cur', keys', added')
      invariant Shaped(schema, cur') && (sound ==> Linked(schema, db, cur', keys'))
    {
      assert models[k] in models;
      ghost var before, keysBefore := cur', keys';
      cur', keys', added' := TopUp(schema, related, models, models[k], db, tier, cur', keys', added', sound);
      OneModelDone(models, db, limit, below, tier, k, before, keysBefore, cur', keys');
    }
  }

  /** The rows whose key is none of those of `gone`. */
  function Without(rows: seq<Row>, gone: seq<Row>): seq<Row> {
    if rows == [] then []
    else if HasId(gone, rows[0].id) then Without(rows[1..], gone) else [rows[0]] + Without(rows[1..], gone)
  }

  lemma {:induction false} WithoutAdded(kept: seq<Row>, extra: seq<Row>, gone: seq<Row>)
    requires (forall r <- kept :: !HasId(gone, r.id)) && forall r <- extra :: HasId(gone, r.id)
    ensures Without(kept + extra, gone) == kept
  {
    if kept != [] {
      assert (kept + extra)[0] == kept[0] && kept[0] in kept;
      assert (kept + extra)[1..] == kept[1..] + extra;
      WithoutAdded(kept[1..], extra, gone);
    } else if extra != [] {
      assert (kept + extra)[0] == extra[0] && extra[0] in extra;
      assert (kept + extra)[1..] == [] + extra[1..];
      WithoutAdded([], extra[1..], gone);
    } else {
      assert kept + extra == [];
    }
  }

  lemma NothingIsFilled(models: seq<Table>, db: Tables, limit: int)
    requires forall m <- models :: m in db
    ensures StartsAt(0, 10, limit) && Filling(models, db, limit, 0, 10, 0, db, []) && Remembers(models, db, db, [], map[])
  {
  }

  /** After the last tier the keys are the models that some tier asked for more rows of. */
  lemma KeysAreFilled(models: seq<Table>, db: Tables, limit: int, below: nat, tier: nat, cur: Tables, keys: seq<Table>)
    requires (forall m <- models :: m in db) && tier > 0 && tier > limit && StartsAt(below, tier, limit)
    requires Filling(models, db, limit, below, tier, 0, cur, keys)
    ensures RowsFilled(models, db, LastTier(below, tier, limit), 10, 0, cur)
    ensures forall m <- models :: m in keys <==> |db[m]| < LastTier(below, tier, limit)
    ensures forall m <- models :: m in keys <==> TierOf(db, m, limit).Some?
  {
    forall m <- models ensures m in keys <==> |db[m]| < below { }
    forall m <- models ensures m in keys <==> TierOf(db, m, limit).Some? {
      if m in keys {
        assert KeyUpTo(models, db, limit, below, tier, 0, m);
      }
    }
  }

  lemma NextTier(models: seq<Table>, db: Tables, limit: int, below: nat, tier: nat, cur: Tables, keys: seq<Table>)
    requires forall m <- models :: m in db
    requires 0 < tier && StartsAt(below, tier, limit) && tier <= limit
    requires Filling(models, db, limit, below, tier, |models|, cur, keys)
    ensures Filling(models, db, limit, tier, 10 * tier, 0, cur, keys) && StartsAt(tier, 10 * tier, limit)
    ensures LastTier(tier, 10 * tier, limit) == LastTier(below, tier, limit)
  {
  }

  /** The tier loop: every model ends with at least as many rows as the last tier, and never loses one. */
  method FillTiers(schema: Schema, related: set<Table>, models: seq<Table>, db: Tables, limit: int, ghost sound: bool)
    returns (cur: Tables, keys: seq<Table>, added: map<Table, seq<Row>>)
    requires NoDuplicates(models) && (forall m <- models :: m in schema && m in db) && Shaped(schema, db)
    requires sound ==> Sound(schema, related, db)
    ensures RowsFilled(models, db, LastTier(0, 10, limit), 10, 0, cur) && Remembers(models, db, cur, keys, added)
    ensures sound ==> Linked(schema, db, cur, keys)
    ensures KeysInOrder(models, db, limit, keys)
    ensures forall m <- models :: m in keys <==> |db[m]| < LastTier(0, 10, limit)
    ensures forall m <- models :: m in keys <==> TierOf(db, m, limit).Some?
  {
    cur, keys, added := db, [], map[];
    if sound { LinkedAtFirst(schema, db); }
    NothingIsFilled(models, db, limit);
    var minEntities := 10;
    ghost var below: nat := 0;
    while minEntities <= limit
      invariant minEntities > 0 && StartsAt(below, minEntities, limit)
      invariant LastTier(below, minEntities, limit) == LastTier(0, 10, limit)
      invariant Filling(models, db, limit, below, minEntities, 0, cur, keys) && Remembers(models, db, cur, keys, added)
      invariant Shaped(schema, cur) && (sound ==> Linked(schema, db, cur, keys))
      decreases limit - minEntities
    {
      cur, keys, added := FillTier(schema, related, models, db, limit, below, minEntities, cur, keys, added, sound);
      NextTier(models, db, limit, below, minEntities, cur, keys);
      below := minEntities;
      minEntities := minEntities * 10;
    }
    KeysAreFilled(models, db, limit, below, minEntities, cur, keys);
  }

  function Reversed(l: seq<Table>): seq<Table> { seq(|l|, i requires 0 <= i < |l| => l[|l| - 1 - i]) }

  /** The models that were filled, the last one first filled first. */
  ghost predicate DeletionOrder(models: seq<Table>, db: Tables, limit: int, deleted: seq<Table>)
    requires forall m <- models :: m in db
  {
    && (forall m <- deleted :: m in models)
    && (forall m <- models :: m in deleted <==> TierOf(db, m, limit).Some?)
    && forall i, j :: 0 <= i < j < |deleted| ==>
         deleted[i] in models && deleted[j] in models && FilledBefore(models, db, limit, deleted[j], deleted[i])
  }

  lemma ReversedKeys(models: seq<Table>, db: Tables, limit: int, keys: seq<Table>)
    requires forall m <- models :: m in db
    requires KeysInOrder(models, db, limit, keys)
    requires forall m <- models :: m in keys <==> TierOf(db, m, limit).Some?
    ensures DeletionOrder(models, db, limit, Reversed(keys))
    ensures NoDuplicates(keys)
  {
    var r := Reversed(keys);
    forall m ensures m in r <==> m in keys {
      if i :| 0 <= i < |keys| && keys[i] == m { assert r[|keys| - 1 - i] == m; }
      if i :| 0 <= i < |r| && r[i] == m { assert keys[|keys| - 1 - i] == m; }
    }
    forall i, j | 0 <= i < j < |r|
      ensures r[i] in models && r[j] in models && FilledBefore(models, db, limit, r[j], r[i])
    {
      assert FilledBefore(models, db, limit, keys[|keys| - 1 - j], keys[|keys| - 1 - i]);
    }
    forall i, j | 0 <= i < j < |keys| ensures keys[i] != keys[j] {
      assert FilledBefore(models, db, limit, keys[i], keys[j]);
    }
  }

  /** One delete after the other: from each table of `deleted` go the rows with the keys of those added. `history` holds
      the tables before and after each. */
  ghost predicate Deletes(history: seq<Tables>, deleted: seq<Table>, added: map<Table, seq<Row>>) {
    && |history| == |deleted| + 1
    && forall k :: 0 <= k < |deleted| ==>
         && deleted[k] in history[k] && deleted[k] in added
         && history[k + 1] == history[k][deleted[k] := Without(history[k][deleted[k]], added[deleted[k]])]
  }

  lemma DeletesOneMore(history: seq<Tables>, deleted: seq<Table>, added: map<Table, seq<Row>>, m: Table, tables: Tables)
    requires Deletes(history, deleted, added) && m in history[|deleted|] && m in added
    requires tables == history[|deleted|][m := Without(history[|deleted|][m], added[m])]
    ensures Deletes(history + [tables], deleted + [m], added)
  {
  }

  /** The clean-up: the remembered rows go, last key first. */
  method CleanUp(keys: seq<Table>, added: map<Table, seq<Row>>, filled: Tables)
    returns (history: seq<Tables>, deleted: seq<Table>)
    requires forall m <- keys :: m in added && m in filled
    ensures deleted == Reversed(keys) && Deletes(history, deleted, added) && history[0] == filled
  {
    history, deleted := [filled], [];
    var tables := filled;
    var i := |keys|;
    while i > 0
      invariant 0 <= i <= |keys| && deleted == Reversed(keys)[..|keys| - i]
      invariant Deletes(history, deleted, added) && history[0] == filled
      invariant tables == history[|deleted|] && tables.Keys == filled.Keys
    {
      i := i - 1;
      var m := keys[i];
      assert m in keys;
      tables := tables[m := Without(tables[m], added[m])];
      DeletesOneMore(history, deleted, added, m, tables);
      deleted, history := deleted + [m], history + [tables];
    }
  }

  /** The models of `keys[i..]` are back at their old rows, the others as they were filled. */
  ghost predicate Restored(keys: seq<Table>, i: nat, db: Tables, filled: Tables, tables: Tables)
    requires i <= |keys| && filled.Keys == db.Keys
  {
    tables.Keys == db.Keys && forall m <- db :: tables[m] == if m in keys[i..] then db[m] else filled[m]
  }

  lemma TailHolds(keys: seq<Table>, i: nat)
    requires i <= |keys|
    ensures forall k :: i <= k < |keys| ==> keys[k] in keys[i..]
  {
    forall k | i <= k < |keys| ensures keys[k] in keys[i..] { assert keys[i..][k - i] == keys[k]; }
  }

  /** Some of the models filled are back at their old rows, the ones filled last: no foreign key dangles. */
  lemma RestoredIsReferential(schema: Schema, db: Tables, cur: Tables, keys: seq<Table>, i: nat, tables: Tables)
    requires Referential(schema, db) && Linked(schema, db, cur, keys) && NoDuplicates(keys) && i <= |keys|
    requires Restored(keys, i, db, cur, tables) && forall u <- db :: db[u] <= cur[u]
    ensures Referential(schema, tables)
  {
    forall m, r | m in schema && r in tables[m] ensures Refers(schema, tables, m, r) {
      assert r in cur[m];
      assert Refers(schema, cur, m, r) && PointsBack(schema, db, keys, m, r);
      assert r in db[m] ==> Refers(schema, db, m, r);
      forall c | 0 <= c < |r.refs| && r.refs[c].Some? ensures HasId(tables[schema[m][c]], r.refs[c].value) {
        var u := schema[m][c];
        if !HasId(db[u], r.refs[c].value) {
          var a, b :| 0 <= a < b < |keys| && keys[a] == u && keys[b] == m;
          TailHolds(keys, i);
          assert m !in keys[i..] && b < i && u !in keys[i..];
        }
      }
    }
  }

  /** Deleting what was added to a model gives its old rows. */
  ghost predicate AddedGoes(db: Tables, filled: Tables, keys: seq<Table>, added: map<Table, seq<Row>>) {
    forall m <- keys :: m in db && m in filled && m in added && Without(filled[m], added[m]) == db[m]
  }

  lemma RememberedGoes(models: seq<Table>, db: Tables, filled: Tables, keys: seq<Table>, added: map<Table, seq<Row>>)
    requires filled.Keys == db.Keys && forall m <- models :: m in db
    requires Remembers(models, db, filled, keys, added)
    ensures AddedGoes(db, filled, keys, added)
  {
    forall m <- keys ensures m in db && m in added && Without(filled[m], added[m]) == db[m] {
      assert filled[m] == db[m] + added[m];
      WithoutAdded(db[m], added[m], added[m]);
    }
  }

  lemma RestoreOneMore(keys: seq<Table>, i: nat, db: Tables, filled: Tables, tables: Tables, gone: seq<Row>)
    requires i < |keys| && NoDuplicates(keys) && filled.Keys == db.Keys && keys[i] in db
    requires Restored(keys, i + 1, db, filled, tables) && Without(filled[keys[i]], gone) == db[keys[i]]
    ensures Restored(keys, i, db, filled, tables[keys[i] := Without(tables[keys[i]], gone)])
  {
    assert keys[i..] == [keys[i]] + keys[i + 1..];
    assert keys[i] !in keys[i + 1..];
  }

  lemma DeleteRestores(db: Tables, filled: Tables, keys: seq<Table>, i: nat, added: map<Table, seq<Row>>, before: Tables,
                       after: Tables)
    requires NoDuplicates(keys) && filled.Keys == db.Keys && AddedGoes(db, filled, keys, added) && i < |keys|
    requires Restored(keys, i + 1, db, filled, before) && keys[i] in before && keys[i] in added
    requires after == before[keys[i] := Without(before[keys[i]], added[keys[i]])]
    ensures Restored(keys, i, db, filled, after)
  {
    assert keys[i] in keys;
    RestoreOneMore(keys, i, db, filled, before, added[keys[i]]);
  }

  /** So they are after `k` deletes, where deleting what was added to a model gives its old rows. */
  lemma {:induction false} DeletesRestore(db: Tables, filled: Tables, keys: seq<Table>, added: map<Table, seq<Row>>,
                                          history: seq<Tables>, k: nat)
    requires NoDuplicates(keys) && filled.Keys == db.Keys && AddedGoes(db, filled, keys, added) && k <= |keys|
    requires Deletes(history, Reversed(keys), added) && history[0] == filled
    ensures Restored(keys, |keys| - k, db, filled, history[k])
  {
    if k == 0 {
      assert keys[|keys|..] == [];
    } else {
      DeletesRestore(db, filled, keys, added, history, k - 1);
      assert Reversed(keys)[k - 1] == keys[|keys| - k];
      DeleteRestores(db, filled, keys, |keys| - k, added, history[k - 1], history[k]);
    }
  }

  /** The tables before and after each delete. */
  ghost predicate IsHistory(keys: seq<Table>, db: Tables, filled: Tables, history: seq<Tables>)
    requires filled.Keys == db.Keys
  {
    |history| == |keys| + 1 && forall k :: 0 <= k <= |keys| ==> Restored(keys, |keys| - k, db, filled, history[k])
  }

  lemma TailGrows(keys: seq<Table>, i: nat)
    requires i < |keys|
    ensures forall m :: m in keys[i..] <==> m == keys[i] || m in keys[i + 1..]
  {
    assert keys[i..] == [keys[i]] + keys[i + 1..];
  }

  lemma RestoredEnds(keys: seq<Table>, db: Tables, filled: Tables, first: Tables, last: Tables)
    requires filled.Keys == db.Keys && forall m <- db :: m !in keys ==> filled[m] == db[m]
    requires Restored(keys, |keys|, db, filled, first) && Restored(keys, 0, db, filled, last)
    ensures first == filled && last == db
  {
    assert keys[0..] == keys;
  }

  lemma RestoredOneMore(keys: seq<Table>, i: nat, db: Tables, filled: Tables, before: Tables, after: Tables)
    requires i < |keys| && filled.Keys == db.Keys && keys[i] in db
    requires Restored(keys, i + 1, db, filled, before) && Restored(keys, i, db, filled, after)
    ensures after == before[keys[i] := db[keys[i]]]
  {
    TailGrows(keys, i);
    var expected := before[keys[i] := db[keys[i]]];
    assert after.Keys == expected.Keys;
    forall m <- db ensures after[m] == expected[m] {
      assert m in keys[i..] <==> m == keys[i] || m in keys[i + 1..];
    }
  }

  lemma HistoryStep(db: Tables, filled: Tables, keys: seq<Table>, history: seq<Tables>, k: nat)
    requires filled.Keys == db.Keys && IsHistory(keys, db, filled, history) && k < |keys| && forall m <- keys :: m in db
    ensures Reversed(keys)[k] in db && history[k + 1] == history[k][Reversed(keys)[k] := db[Reversed(keys)[k]]]
  {
    var i := |keys| - 1 - k;
    assert Reversed(keys)[k] == keys[i] && keys[i] in keys;
    RestoredOneMore(keys, i, db, filled, history[k], history[k + 1]);
  }

  /** The deletes put one table after the other back, the last key first. */
  lemma HistoryIsStepwise(db: Tables, filled: Tables, keys: seq<Table>, history: seq<Tables>)
    requires filled.Keys == db.Keys && IsHistory(keys, db, filled, history) && forall m <- keys :: m in db
    requires forall m <- db :: m !in keys ==> filled[m] == db[m]
    ensures history[0] == filled && history[|keys|] == db
    ensures forall k :: 0 <= k < |keys| ==>
              Reversed(keys)[k] in db && history[k + 1] == history[k][Reversed(keys)[k] := db[Reversed(keys)[k]]]
  {
    RestoredEnds(keys, db, filled, history[0], history[|keys|]);
    forall k | 0 <= k < |keys|
      ensures Reversed(keys)[k] in db && history[k + 1] == history[k][Reversed(keys)[k] := db[Reversed(keys)[k]]]
    {
      HistoryStep(db, filled, keys, history, k);
    }
  }

  /** None of the deletes leaves a foreign key dangling. */
  lemma HistoryIsReferential(schema: Schema, db: Tables, filled: Tables, keys: seq<Table>, history: seq<Tables>)
    requires NoDuplicates(keys) && Referential(schema, db) && Linked(schema, db, filled, keys)
    requires IsHistory(keys, db, filled, history) && forall m <- db :: db[m] <= filled[m]
    ensures forall k :: 0 <= k < |history| ==> Referential(schema, history[k])
  {
    forall k | 0 <= k < |history| ensures Referential(schema, history[k]) {
      RestoredIsReferential(schema, db, filled, keys, |keys| - k, history[k]);
    }
  }

  /** The whole data handling of the benchmark. Cleaning up restores every table exactly, one model at a time, in the
      reverse of the order they were first filled in; no foreign key dangles, neither with the new rows in place nor
      after any of the deletes. */
  method Benchmark(schema: Schema, related: set<Table>, models: seq<Table>, db: Tables, limit: int, autoCleanup: bool)
    returns (filled: Tables, history: seq<Tables>, deleted: seq<Table>)
    requires NoDuplicates(models) && (forall m <- models :: m in schema && m in db) && Shaped(schema, db)
    ensures RowsFilled(models, db, LastTier(0, 10, limit), 10, 0, filled)
    ensures |history| == |deleted| + 1 && history[0] == filled
    ensures !autoCleanup ==> deleted == []
    ensures autoCleanup ==>
              && DeletionOrder(models, db, limit, deleted) && history[|deleted|] == db
              && forall k :: 0 <= k < |deleted| ==>
                   deleted[k] in db && history[k + 1] == history[k][deleted[k] := db[deleted[k]]]
    ensures Sound(schema, related, db) ==> forall k :: 0 <= k < |history| ==> Referential(schema, history[k])
  {
    var keys, added;
    ghost var sound := Sound(schema, related, db);
    filled, keys, added := FillTiers(schema, related, models, db, limit, sound);
    history, deleted := [filled], [];
    if autoCleanup {
      ReversedKeys(models, db, limit, keys);
      history, deleted := CleanUp(keys, added, filled);
      RememberedGoes(models, db, filled, keys, added);
      forall k | 0 <= k <= |keys| ensures Restored(keys, |keys| - k, db, filled, history[k]) {
        DeletesRestore(db, filled, keys, added, history, k);
      }
      HistoryIsStepwise(db, filled, keys, history);
      if sound { HistoryIsReferential(schema, db, filled, keys, history); }
    }
  }

  /** Each model of the list comes before every other model of the list it refers to. */
  ghost predicate ReferrersFirst(schema: Schema, l: seq<Table>) {
    forall i, j :: 0 <= i < |l| && 0 <= j < |l| && i != j && l[i] in schema && l[j] in schema[l[i]] ==> i < j
  }

  /** No filled model was first filled before a model it refers to. */
  ghost predicate ReferencedFilledFirst(schema: Schema, models: seq<Table>, db: Tables, limit: int)
    requires forall m <- models :: m in db
  {
    forall a, b :: a in models && b in models && a != b && a in schema && b in schema[a] &&
                   TierOf(db, a, limit).Some? && TierOf(db, b, limit).Some? ==>
      TierOf(db, b, limit).value <= TierOf(db, a, limit).value
  }

  lemma IndexOrder(l: seq<Table>, a: Table, b: Table, schema: Schema)
    requires NoDuplicates(l) && ReferrersLast(schema, l) && a in l && b in l && a != b && a in schema && b in schema[a]
    ensures IndexOf(l, b) < IndexOf(l, a)
  {
  }

  /** The tables themselves are deleted from referrers first exactly when no model already had so many rows that a model
      referring to it was first filled in an earlier tier; the rows are safe either way (`Benchmark`). */
  lemma TablesInOrderIff(schema: Schema, models: seq<Table>, db: Tables, limit: int, deleted: seq<Table>)
    requires NoDuplicates(models) && ReferrersLast(schema, models) && forall m <- models :: m in db
    requires DeletionOrder(models, db, limit, deleted)
    ensures ReferrersFirst(schema, deleted) <==> ReferencedFilledFirst(schema, models, db, limit)
  {
    if ReferrersFirst(schema, deleted) {
      forall a, b | a in models && b in models && a != b && a in schema && b in schema[a] &&
                    TierOf(db, a, limit).Some? && TierOf(db, b, limit).Some?
        ensures TierOf(db, b, limit).value <= TierOf(db, a, limit).value
      {
        var i :| 0 <= i < |deleted| && deleted[i] == a;
        var j :| 0 <= j < |deleted| && deleted[j] == b;
        assert FilledBefore(models, db, limit, deleted[j], deleted[i]);
      }
    }
    if ReferencedFilledFirst(schema, models, db, limit) {
      forall i, j | 0 <= i < |deleted| && 0 <= j < |deleted| && i != j &&
                    deleted[i] in schema && deleted[j] in schema[deleted[i]]
        ensures i < j
      {
        var a, b := deleted[i], deleted[j];
        assert a in deleted && b in deleted;
        if i < j { assert FilledBefore(models, db, limit, b, a); } else { assert FilledBefore(models, db, limit, a, b); }
        if a != b { IndexOrder(models, a, b, schema); }
      }
    }
  }

  /** A referenced model with 50 rows and its referrer with none, filled up to 100: the referenced table comes first in
      the deletion. */
  lemma ReferencedTableMayGoFirst(fifty: seq<Row>, deleted: seq<Table>)
    requires |fifty| == 50
    requires DeletionOrder(["b", "a"], map["a" := [], "b" := fifty], 100, deleted)
    ensures ReferrersLast(map["a" := ["b"], "b" := []], ["b", "a"])
    ensures |deleted| > 1 && deleted[0] == "b" && deleted[|deleted| - 1] == "a"
  {
    var db: Tables := map["a" := [], "b" := fifty];
    assert FirstTier(50, 10, 100) == FirstTier(50, 100, 100);
    assert TierOf(db, "a", 100) == Some(10) && TierOf(db, "b", 100) == Some(100);
    var models := ["b", "a"];
    assert models[0] == "b" && models[1] == "a" && "a" in models && "b" in models;
    var i :| 0 <= i < |deleted| && deleted[i] == "a";
    var j :| 0 <= j < |deleted| && deleted[j] == "b";
    forall k, l | 0 <= k < l < |deleted| ensures deleted[k] == "b" && deleted[l] == "a" {
      assert FilledBefore(models, db, 100, deleted[l], deleted[k]);
      assert deleted[k] in models && deleted[l] in models;
    }
  }
}
