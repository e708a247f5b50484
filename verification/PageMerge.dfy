/**
 The page merge of frontend/src/app/erp-business-module-workspace.tsx: records of later pages go
 through a `Map` keyed by record key, the first page is shown as it came.
 */
module PageMerge {

  datatype Item = Item(key: string, data: string)

  predicate HasKey(items: seq<Item>, key: string) {
    exists i :: 0 <= i < |items| && items[i].key == key
  }

  predicate DistinctKeys(items: seq<Item>) {
    forall i, j :: 0 <= i < j < |items| ==> items[i].key != items[j].key
  }

  /** `Map.set`: a known key keeps its place and takes the new value, a new key goes to the end. */
  function Put(entries: seq<Item>, item: Item): (r: seq<Item>)
    ensures |entries| <= |r|
  {
    if entries == [] then [item]
    else if entries[0].key == item.key then [item] + entries[1..]
    else [entries[0]] + Put(entries[1..], item)
  }

  function PutAll(entries: seq<Item>, items: seq<Item>): seq<Item>
    decreases |items|
  {
    if items == [] then entries else PutAll(Put(entries, items[0]), items[1..])
  }

  /** `Array.from(new Map(items.map(...)).values())`. */
  function Merge(items: seq<Item>): seq<Item> {
    PutAll([], items)
  }

  function Concat(pages: seq<seq<Item>>): seq<Item> {
    if pages == [] then [] else Concat(pages[..|pages| - 1]) + pages[|pages| - 1]
  }

  /** Loading pages one after the other: the first without a cursor, each further one with it. */
  method LoadPages(pages: seq<seq<Item>>) returns (records: seq<Item>)
    requires |pages| > 0
    ensures records == if |pages| == 1 then pages[0] else Merge(Concat(pages))
  {
    records := pages[0];
    assert pages[..1][..0] == [] && Concat(pages[..1]) == [] + pages[0];
    for k := 1 to |pages|
      invariant if k == 1 then records == pages[0] == Concat(pages[..1]) else records == Merge(Concat(pages[..k]))
    {
      assert pages[..k + 1][..k] == pages[..k];
      MergeAbsorbs(Concat(pages[..k]), pages[k]);
      records := Merge(records + pages[k]);
    }
    assert pages[..|pages|] == pages;
  }

  // Laws of the map

  lemma {:induction false} PutKeys(entries: seq<Item>, item: Item, key: string)
    ensures HasKey(Put(entries, item), key) <==> HasKey(entries, key) || key == item.key
  {
    if entries != [] {
      var rest, r := entries[1..], Put(entries, item);
      assert entries == [entries[0]] + rest;
      ConsHasKey(entries[0], rest, key);
      if entries[0].key == item.key {
        ConsHasKey(item, rest, key);
      } else {
        PutKeys(rest, item, key);
        ConsHasKey(entries[0], Put(rest, item), key);
      }
    } else {
      assert [item][0].key == item.key;
    }
  }

  lemma ConsHasKey(item: Item, rest: seq<Item>, key: string)
    ensures HasKey([item] + rest, key) <==> item.key == key || HasKey(rest, key)
  {
    var all := [item] + rest;
    assert all[0] == item;
    assert forall i :: 0 <= i < |rest| ==> all[i + 1] == rest[i];
    assert forall i :: 0 < i < |all| ==> all[i] == rest[i - 1];
  }

  lemma ConsDistinct(item: Item, rest: seq<Item>)
    ensures DistinctKeys([item] + rest) <==> !HasKey(rest, item.key) && DistinctKeys(rest)
  {
    var all := [item] + rest;
    assert all[0] == item;
    if DistinctKeys(all) {
      forall i, j | 0 <= i < j < |rest|
        ensures rest[i].key != rest[j].key
      {
        assert all[i + 1].key != all[j + 1].key;
      }
      forall i | 0 <= i < |rest|
        ensures rest[i].key != item.key
      {
        assert all[0].key != all[i + 1].key;
      }
    }
    if !HasKey(rest, item.key) && DistinctKeys(rest) {
      forall i, j | 0 <= i < j < |all|
        ensures all[i].key != all[j].key
      {
        assert all[j] == rest[j - 1];
        if i > 0 {
          assert all[i] == rest[i - 1];
        }
      }
    }
  }

  lemma {:induction false} PutDistinct(entries: seq<Item>, item: Item)
    requires DistinctKeys(entries)
    ensures DistinctKeys(Put(entries, item))
  {
    if entries != [] {
      var rest := entries[1..];
      assert entries == [entries[0]] + rest;
      ConsDistinct(entries[0], rest);
      if entries[0].key == item.key {
        ConsDistinct(item, rest);
      } else {
        PutDistinct(rest, item);
        PutKeys(rest, item, entries[0].key);
        ConsDistinct(entries[0], Put(rest, item));
      }
    }
  }

  lemma {:induction false} PutNew(entries: seq<Item>, item: Item)
    requires !HasKey(entries, item.key)
    ensures Put(entries, item) == entries + [item]
  {
    if entries != [] {
      assert entries == [entries[0]] + entries[1..];
      ConsHasKey(entries[0], entries[1..], item.key);
      PutNew(entries[1..], item);
    }
  }

  lemma {:induction false} PutAllDistinct(entries: seq<Item>, items: seq<Item>)
    requires DistinctKeys(entries)
    ensures DistinctKeys(PutAll(entries, items))
    decreases |items|
  {
    if items != [] {
      PutDistinct(entries, items[0]);
      PutAllDistinct(Put(entries, items[0]), items[1..]);
    }
  }

  lemma {:induction false} PutAllConcat(entries: seq<Item>, a: seq<Item>, b: seq<Item>)
    ensures PutAll(entries, a + b) == PutAll(PutAll(entries, a), b)
    decreases |a|
  {
    if a == [] {
      assert a + b == b;
    } else {
      assert (a + b)[1..] == a[1..] + b;
      PutAllConcat(Put(entries, a[0]), a[1..], b);
    }
  }

  /** Putting records with new, distinct keys appends them. */
  lemma {:induction false} PutAllNew(entries: seq<Item>, items: seq<Item>)
    requires DistinctKeys(entries + items)
    ensures PutAll(entries, items) == entries + items
    decreases |items|
  {
    if items == [] {
      assert entries + items == entries;
    } else {
      var all := entries + items;
      assert all[|entries|] == items[0];
      assert forall i :: 0 <= i < |entries| ==> all[i] == entries[i];
      PutNew(entries, items[0]);
      assert entries + [items[0]] + items[1..] == all;
      PutAllNew(entries + [items[0]], items[1..]);
    }
  }

  /** A list is its own merge exactly when its keys are distinct. */
  lemma MergeFixpointIff(items: seq<Item>)
    ensures Merge(items) == items <==> DistinctKeys(items)
  {
    PutAllDistinct([], items);
    if DistinctKeys(items) {
      assert [] + items == items;
      PutAllNew([], items);
    }
  }

  /** Merging a merged prefix again changes nothing: pages may be merged one by one. */
  lemma MergeAbsorbs(a: seq<Item>, b: seq<Item>)
    ensures Merge(Merge(a) + b) == Merge(a + b)
  {
    PutAllDistinct([], a);
    MergeFixpointIff(Merge(a));
    PutAllConcat([], Merge(a), b);
    PutAllConcat([], a, b);
  }

  // What a merge is

  predicate FirstOf(items: seq<Item>, i: nat) {
    i < |items| && forall j :: 0 <= j < i ==> items[j].key != items[i].key
  }

  /** The keys of `items` in the order of their first occurrence. */
  function FirstKeys(items: seq<Item>): seq<string> {
    if items == [] then [] else
    var n := |items| - 1;
    FirstKeys(items[..n]) + if FirstOf(items, n) then [items[n].key] else []
  }

  /** The last record with a key. */
  function LastWith(items: seq<Item>, key: string): Item
    requires HasKey(items, key)
  {
    if items[|items| - 1].key == key then items[|items| - 1] else
    assert HasKey(items[..|items| - 1], key) by {
      var i :| 0 <= i < |items| && items[i].key == key;
      assert items[..|items| - 1][i].key == key;
    }
    LastWith(items[..|items| - 1], key)
  }

  /** Exactly one record per key, in first-occurrence order, each the last of its key. */
  ghost predicate IsMergeOf(r: seq<Item>, items: seq<Item>) {
    && |r| == |FirstKeys(items)|
    && forall i :: 0 <= i < |r| ==>
         && r[i].key == FirstKeys(items)[i]
         && HasKey(items, r[i].key)
         && r[i] == LastWith(items, r[i].key)
  }

  lemma SnocHasKey(items: seq<Item>, item: Item, key: string)
    ensures HasKey(items + [item], key) <==> HasKey(items, key) || item.key == key
  {
    var all := items + [item];
    assert all[|items|] == item;
    assert forall i :: 0 <= i < |items| ==> all[i] == items[i];
  }

  lemma {:induction false} PutAt(entries: seq<Item>, item: Item, i: nat)
    requires HasKey(entries, item.key) && DistinctKeys(entries) && i < |entries|
    ensures |Put(entries, item)| == |entries|
    ensures Put(entries, item)[i] == if entries[i].key == item.key then item else entries[i]
  {
    var rest := entries[1..];
    assert entries == [entries[0]] + rest;
    ConsHasKey(entries[0], rest, item.key);
    ConsDistinct(entries[0], rest);
    if entries[0].key != item.key {
      if i > 0 {
        PutAt(rest, item, i - 1);
      } else {
        var k :| 0 <= k < |rest| && rest[k].key == item.key;
        PutAt(rest, item, k);
      }
    } else if i > 0 {
      assert entries[i].key != item.key;
    }
  }

  /** Keys of a merge are exactly the keys merged. */
  lemma {:induction false} MergeKeys(items: seq<Item>, key: string)
    ensures HasKey(Merge(items), key) <==> HasKey(items, key)
  {
    if items != [] {
      var n := |items| - 1;
      assert items == items[..n] + [items[n]];
      MergeKeys(items[..n], key);
      PutAllConcat([], items[..n], [items[n]]);
      assert PutAll(Merge(items[..n]), [items[n]]) == Put(Merge(items[..n]), items[n]);
      PutKeys(Merge(items[..n]), items[n], key);
      SnocHasKey(items[..n], items[n], key);
    }
  }

  lemma MergeSnoc(items: seq<Item>, item: Item)
    ensures Merge(items + [item]) == Put(Merge(items), item)
  {
    PutAllConcat([], items, [item]);
    assert PutAll(Put(Merge(items), item), []) == Put(Merge(items), item);
  }

  lemma IsMergeSnoc(items: seq<Item>, item: Item)
    requires IsMergeOf(Merge(items), items)
    ensures IsMergeOf(Merge(items + [item]), items + [item])
  {
    var before, more := Merge(items), items + [item];
    MergeSnoc(items, item);
    var after := Put(before, item);
    assert more[..|items|] == items;
    MergeKeys(items, item.key);
    PutAllDistinct([], items);
    assert FirstOf(more, |items|) <==> !HasKey(items, item.key) by {
      assert forall j :: 0 <= j < |items| ==> more[j] == items[j];
    }
    if HasKey(items, item.key) {
      assert FirstKeys(more) == FirstKeys(items) + [] == FirstKeys(items);
      if before != [] {
        PutAt(before, item, 0);
      }
    } else {
      PutNew(before, item);
      assert FirstKeys(more) == FirstKeys(items) + [item.key];
    }
    forall i | 0 <= i < |after|
      ensures after[i].key == FirstKeys(more)[i]
      ensures HasKey(more, after[i].key) && after[i] == LastWith(more, after[i].key)
    {
      SnocHasKey(items, item, after[i].key);
      if HasKey(items, item.key) {
        PutAt(before, item, i);
      } else if i < |before| {
        assert after[i] == before[i] && HasKey(items, before[i].key);
      }
    }
  }

  /** The merge keeps one record per key, first occurrence deciding the place and last occurrence the value. */
  lemma {:induction false} MergeIsMerge(items: seq<Item>)
    ensures IsMergeOf(Merge(items), items) && DistinctKeys(Merge(items))
  {
    PutAllDistinct([], items);
    if items != [] {
      var n := |items| - 1;
      MergeIsMerge(items[..n]);
      IsMergeSnoc(items[..n], items[n]);
      assert items == items[..n] + [items[n]];
    }
  }
}
