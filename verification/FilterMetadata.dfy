/**
 Merging the filter metadata of deck.gl layers (`DeckGLMultiLayer` in `axbi/viz.py`).

 An item is a metadata dictionary, given by its canonical JSON text and an identity that tells apart equal
 dictionaries, or something that is not a dictionary.
 */
module FilterMetadata {
  import opened Optional

  datatype Item = Dict(json: string, id: int) | NotADict

  /** What a layer's payload reports; a missing list is `None`. */
  datatype LayerPayload = LayerPayload(applied: Option<seq<Item>>, rejected: Option<seq<Item>>)

  /** A child slice: of unknown type, without a payload, or with one. */
  datatype Layer = UnknownType | EmptyPayload | Reports(payload: LayerPayload)

  function Items(group: Option<seq<Item>>): seq<Item> { if group.None? then [] else group.value }

  function Concat(groups: seq<Option<seq<Item>>>): seq<Item> {
    if groups == [] then [] else Concat(groups[..|groups| - 1]) + Items(groups[|groups| - 1])
  }

  predicate HasJson(items: seq<Item>, json: string) {
    exists i :: 0 <= i < |items| && items[i].Dict? && items[i].json == json
  }

  /** Position `i` holds a dictionary that no earlier position repeats. */
  predicate IsFirst(items: seq<Item>, i: nat)
    requires i < |items|
  {
    items[i].Dict? && !HasJson(items[..i], items[i].json)
  }

  /** The merge as a specification: the items at first positions, in order. */
  function Firsts(items: seq<Item>): seq<Item> {
    if items == [] then []
    else
      var n := |items| - 1;
      if IsFirst(items, n) then Firsts(items[..n]) + [items[n]] else Firsts(items[..n])
  }

  /** `r` lists exactly the first occurrences of `items`, in their order: `at[k]` is where `r[k]` stands. */
  ghost predicate FirstOccurrences(items: seq<Item>, r: seq<Item>, at: seq<nat>) {
    && |at| == |r|
    && (forall k :: 0 <= k < |r| ==> at[k] < |items| && IsFirst(items, at[k]) && r[k] == items[at[k]])
    && (forall k, l :: 0 <= k < l < |r| ==> at[k] < at[l])
    && (forall i :: 0 <= i < |items| && IsFirst(items, i) ==> i in at)
  }

  ghost predicate Distinct(r: seq<Item>) {
    forall k, l :: 0 <= k < l < |r| ==> r[k].Dict? && r[l].Dict? && r[k].json != r[l].json
  }

  lemma KeysOfSnoc(s: seq<Item>, x: Item)
    ensures forall json :: HasJson(s + [x], json) <==> HasJson(s, json) || (x.Dict? && x.json == json)
  {
    forall json ensures HasJson(s + [x], json) <==> HasJson(s, json) || (x.Dict? && x.json == json) {
      if HasJson(s, json) {
        var i :| 0 <= i < |s| && s[i].Dict? && s[i].json == json;
        assert (s + [x])[i] == s[i];
      }
      if x.Dict? && x.json == json {
        assert (s + [x])[|s|] == x;
      }
    }
  }

  lemma OccurrencesSnoc(front: seq<Item>, x: Item, r: seq<Item>, at: seq<nat>)
    requires FirstOccurrences(front, r, at)
    ensures if IsFirst(front + [x], |front|) then FirstOccurrences(front + [x], r + [x], at + [|front|])
            else FirstOccurrences(front + [x], r, at)
  {
    var items := front + [x];
    forall i | 0 <= i < |front| ensures IsFirst(items, i) == IsFirst(front, i) {
      assert items[..i] == front[..i];
    }
  }

  lemma {:induction false} FirstsAreDistinct(items: seq<Item>)
    ensures Distinct(Firsts(items)) && forall k :: 0 <= k < |Firsts(items)| ==> Firsts(items)[k].Dict?
    ensures forall json :: HasJson(Firsts(items), json) <==> HasJson(items, json)
  {
    if items != [] {
      var front, x := items[..|items| - 1], items[|items| - 1];
      FirstsAreDistinct(front);
      assert items == front + [x];
      KeysOfSnoc(front, x);
      if IsFirst(items, |front|) {
        KeysOfSnoc(Firsts(front), x);
        forall k | 0 <= k < |Firsts(front)| ensures Firsts(front)[k].json != x.json {
          assert HasJson(Firsts(front), Firsts(front)[k].json);
        }
      }
    }
  }

  /** The merge returns the first occurrences in order, so without duplicates and with every key of the input. */
  lemma {:induction false} FirstsAreFirstOccurrences(items: seq<Item>) returns (at: seq<nat>)
    ensures FirstOccurrences(items, Firsts(items), at)
    ensures Distinct(Firsts(items))
    ensures forall json :: HasJson(Firsts(items), json) <==> HasJson(items, json)
  {
    FirstsAreDistinct(items);
    at := [];
    if items != [] {
      var front, x := items[..|items| - 1], items[|items| - 1];
      at := FirstsAreFirstOccurrences(front);
      assert items == front + [x];
      OccurrencesSnoc(front, x, Firsts(front), at);
      if IsFirst(items, |front|) { at := at + [|front|]; }
    }
  }

  lemma FirstsKeys(items: seq<Item>)
    ensures forall json :: HasJson(Firsts(items), json) <==> HasJson(items, json)
  {
    FirstsAreDistinct(items);
  }

  lemma FirstsOfSnoc(s: seq<Item>, x: Item)
    ensures Firsts(s + [x]) == if x.Dict? && !HasJson(s, x.json) then Firsts(s) + [x] else Firsts(s)
  {
  }

  lemma {:induction false} MergeIsIdempotent(a: seq<Item>)
    ensures Firsts(Firsts(a)) == Firsts(a)
  {
    if a != [] {
      var c, x := a[..|a| - 1], a[|a| - 1];
      MergeIsIdempotent(c);
      assert a == c + [x];
      FirstsOfSnoc(c, x);
      FirstsOfSnoc(Firsts(c), x);
      FirstsKeys(c);
    }
  }

  lemma SnocOfSameMerge(a: seq<Item>, b: seq<Item>, x: Item)
    requires Firsts(a) == Firsts(b)
    ensures Firsts(a + [x]) == Firsts(b + [x])
  {
    FirstsKeys(a);
    FirstsKeys(b);
    FirstsOfSnoc(a, x);
    FirstsOfSnoc(b, x);
  }

  lemma ConcatIsAssociative(a: seq<Item>, b: seq<Item>, x: Item)
    ensures a + (b + [x]) == (a + b) + [x]
  {
  }

  /** Merging an already merged head changes nothing ... */
  lemma {:induction false} MergeOfMergedHead(a: seq<Item>, b: seq<Item>)
    ensures Firsts(Firsts(a) + b) == Firsts(a + b)
  {
    if b == [] {
      MergeIsIdempotent(a);
      assert Firsts(a) + b == Firsts(a) && a + b == a;
    } else {
      var c, x := b[..|b| - 1], b[|b| - 1];
      assert b == c + [x];
      MergeOfMergedHead(a, c);
      ConcatIsAssociative(Firsts(a), c, x);
      ConcatIsAssociative(a, c, x);
      SnocOfSameMerge(Firsts(a) + c, a + c, x);
    }
  }

  lemma HasJsonBehind(a: seq<Item>, c: seq<Item>, json: string)
    requires HasJson(c, json)
    ensures HasJson(a + c, json)
  {
    var i :| 0 <= i < |c| && c[i].Dict? && c[i].json == json;
    assert (a + c)[|a| + i] == c[i];
  }

  /** ... and neither does merging an already merged tail. */
  lemma {:induction false} MergeOfMergedTail(a: seq<Item>, b: seq<Item>)
    ensures Firsts(a + Firsts(b)) == Firsts(a + b)
  {
    if b != [] {
      var c, x := b[..|b| - 1], b[|b| - 1];
      assert b == c + [x];
      MergeOfMergedTail(a, c);
      FirstsOfSnoc(c, x);
      ConcatIsAssociative(a, c, x);
      if x.Dict? && !HasJson(c, x.json) {
        ConcatIsAssociative(a, Firsts(c), x);
        SnocOfSameMerge(a + Firsts(c), a + c, x);
      } else {
        if x.Dict? { HasJsonBehind(a, c, x.json); }
        FirstsOfSnoc(a + c, x);
      }
    }
  }

  /** The lists a layer adds to the two merges. */
  function Applied(layers: seq<Layer>): seq<Item> {
    if layers == [] then []
    else
      var earlier, last := Applied(layers[..|layers| - 1]), layers[|layers| - 1];
      if last.Reports? then earlier + Items(last.payload.applied) else earlier
  }

  function Rejected(layers: seq<Layer>): seq<Item> {
    if layers == [] then []
    else
      var earlier, last := Rejected(layers[..|layers| - 1]), layers[|layers| - 1];
      if last.Reports? then earlier + Items(last.payload.rejected) else earlier
  }

  /** The lists are those the layers report, each kind by itself, in the order of the layers; a layer that reports none
      adds none. */
  lemma {:induction false} LayersAppend(a: seq<Layer>, b: seq<Layer>)
    ensures Applied(a + b) == Applied(a) + Applied(b) && Rejected(a + b) == Rejected(a) + Rejected(b)
  {
    if b == [] {
      assert a + b == a;
    } else {
      var front := b[..|b| - 1];
      LayersAppend(a, front);
      assert (a + b)[..|a + b| - 1] == a + front && (a + b)[|a + b| - 1] == b[|b| - 1];
    }
  }

  lemma OneLayer(layer: Layer)
    ensures Applied([layer]) == if layer.Reports? && layer.payload.applied.Some? then layer.payload.applied.value else []
    ensures Rejected([layer]) == if layer.Reports? && layer.payload.rejected.Some? then layer.payload.rejected.value else []
  {
    assert [layer][..0] == [];
  }

  /** The state of the merge loop after the items `done`. */
  ghost predicate Progress(merged: seq<Item>, seen: set<string>, done: seq<Item>) {
    merged == Firsts(done) && forall json :: json in seen <==> HasJson(done, json)
  }

  lemma ProgressByOne(merged: seq<Item>, seen: set<string>, done: seq<Item>, item: Item)
    requires Progress(merged, seen, done)
    ensures if item.NotADict? || item.json in seen then Progress(merged, seen, done + [item])
            else Progress(merged + [item], seen + {item.json}, done + [item])
  {
    KeysOfSnoc(done, item);
    FirstsOfSnoc(done, item);
  }

  lemma ConcatTwo(a: Option<seq<Item>>, b: Option<seq<Item>>)
    ensures Concat([a, b]) == Items(a) + Items(b)
  {
    assert [a, b][..1] == [a] && [a][..0] == [];
    assert Concat([a]) == Concat([]) + Items(a);
  }

  class DeckGLMultiLayer {
    var appliedFilters: seq<Item>
    var rejectedFilters: seq<Item>

    constructor ()
      ensures appliedFilters == [] && rejectedFilters == []
    {
      appliedFilters, rejectedFilters := [], [];
    }

    /** `_merge_filter_metadata`. */
    static method MergeFilterMetadata(groups: seq<Option<seq<Item>>>) returns (merged: seq<Item>)
      ensures merged == Firsts(Concat(groups))
    {
      merged := [];
      var seen: set<string> := {};
      for g := 0 to |groups|
        invariant Progress(merged, seen, Concat(groups[..g]))
      {
        var filters := Items(groups[g]);
        ghost var done := Concat(groups[..g]);
        assert groups[..g + 1][..g] == groups[..g];
        assert done + [] == done;
        for i := 0 to |filters|
          invariant Progress(merged, seen, done + filters[..i])
        {
          var item := filters[i];
          assert done + filters[..i + 1] == done + filters[..i] + [item];
          ProgressByOne(merged, seen, done + filters[..i], item);
          if item.NotADict? || item.json in seen {
            continue;
          }
          merged := merged + [item];
          seen := seen + {item.json};
        }
        assert filters[..|filters|] == filters;
      }
      assert groups[..|groups|] == groups;
    }

    /** The loop of `get_data` over the child slices. */
    method CollectLayers(layers: seq<Layer>)
      modifies this
      ensures appliedFilters == Firsts(Applied(layers)) && rejectedFilters == Firsts(Rejected(layers))
    {
      appliedFilters, rejectedFilters := [], [];
      for k := 0 to |layers|
        invariant appliedFilters == Firsts(Applied(layers[..k])) && rejectedFilters == Firsts(Rejected(layers[..k]))
      {
        var layer := layers[k];
        assert layers[..k + 1][..k] == layers[..k] && layers[..k + 1][k] == layer;
        if layer.UnknownType? {
          continue;
        }
        if layer.Reports? {
          MergeOfMergedHead(Applied(layers[..k]), Items(layer.payload.applied));
          MergeOfMergedHead(Rejected(layers[..k]), Items(layer.payload.rejected));
          ConcatTwo(Some(appliedFilters), layer.payload.applied);
          ConcatTwo(Some(rejectedFilters), layer.payload.rejected);
          appliedFilters := MergeFilterMetadata([Some(appliedFilters), layer.payload.applied]);
          rejectedFilters := MergeFilterMetadata([Some(rejectedFilters), layer.payload.rejected]);
        }
      }
      assert layers[..|layers|] == layers;
    }

    /** `get_payload`: the fold over the layers followed by the final merge is one merge of all lists. The layers
        are visited unless the base run failed, in which case the lists keep what they held. */
    method GetPayload(own: LayerPayload, failed: bool, layers: seq<Layer>) returns (merged: LayerPayload)
      modifies this
      ensures !failed ==>
                && merged.applied == Some(Firsts(Items(own.applied) + Applied(layers)))
                && merged.rejected == Some(Firsts(Items(own.rejected) + Rejected(layers)))
      ensures failed ==>
                && merged.applied == Some(Firsts(Items(own.applied) + old(appliedFilters)))
                && merged.rejected == Some(Firsts(Items(own.rejected) + old(rejectedFilters)))
    {
      if !failed {
        CollectLayers(layers);
        MergeOfMergedTail(Items(own.applied), Applied(layers));
        MergeOfMergedTail(Items(own.rejected), Rejected(layers));
      }
      ConcatTwo(own.applied, Some(appliedFilters));
      ConcatTwo(own.rejected, Some(rejectedFilters));
      var applied := MergeFilterMetadata([own.applied, Some(appliedFilters)]);
      var rejected := MergeFilterMetadata([own.rejected, Some(rejectedFilters)]);
      merged := LayerPayload(Some(applied), Some(rejected));
    }
  }
}
