/**
 * The list updaters the hooks hand to React's state setters
 * (src/lib/hooks/use-pages.ts, cms-frontend-builder/lib/hooks/use-posts.ts,
 * src/blocks/editors/PostsFeedEditor.tsx): list items are JavaScript objects
 * selected by their `id` property.
 */
module ObjectLists {
  import opened Wrappers
  import opened Json
  import Seqs

  /** `item.id === id` */
  predicate HasId(item: Props, id: Value)
  {
    Get(item, "id") == Some(id)
  }

  /** `[item, ...prev]` */
  function Prepend(prev: seq<Props>, item: Props): (r: seq<Props>)
    ensures |r| == |prev| + 1 && r[0] == item && r[1..] == prev
  {
    [item] + prev
  }

  /** `prev.map((p) => (p.id === id ? { ...p, ...updates } : p))` */
  function UpdateById(prev: seq<Props>, id: Value, updates: Props): (r: seq<Props>)
    ensures |r| == |prev|
    ensures forall i :: 0 <= i < |prev| && !HasId(prev[i], id) ==> r[i] == prev[i]
    ensures forall i :: 0 <= i < |prev| && HasId(prev[i], id) ==> r[i] == Spread(prev[i], updates)
  {
    seq(|prev|, i requires 0 <= i < |prev| => if HasId(prev[i], id) then Spread(prev[i], updates) else prev[i])
  }

  /** `prev.filter((p) => p.id !== id)` */
  function DeleteById(prev: seq<Props>, id: Value): (r: seq<Props>)
    ensures forall p :: p in r <==> p in prev && !HasId(p, id)
  {
    Seqs.Filter(prev, Keeps(id))
  }

  function Keeps(id: Value): Props -> bool
  {
    (p: Props) => !HasId(p, id)
  }

  /** Updating merges the updates into every matching item: the keys updated hold the new values, all other keys are kept. */
  lemma UpdateMerges(prev: seq<Props>, id: Value, updates: Props, i: nat, k: string)
    requires i < |prev| && HasId(prev[i], id)
    ensures k in updates ==> UpdateById(prev, id, updates)[i][k] == updates[k]
    ensures k !in updates && k in prev[i] ==> UpdateById(prev, id, updates)[i][k] == prev[i][k]
    ensures UpdateById(prev, id, updates)[i].Keys == prev[i].Keys + updates.Keys
  {
  }

  /** Updating twice with the same values is updating once, unless the update rewrites the id. */
  lemma {:induction false} UpdateIdempotent(prev: seq<Props>, id: Value, updates: Props)
    requires "id" !in updates
    ensures UpdateById(UpdateById(prev, id, updates), id, updates) == UpdateById(prev, id, updates)
  {
    var once := UpdateById(prev, id, updates);
    forall i | 0 <= i < |prev|
      ensures UpdateById(once, id, updates)[i] == once[i]
    {
      if HasId(prev[i], id) {
        assert Get(once[i], "id") == Get(prev[i], "id");
        assert Spread(once[i], updates) == once[i];
      } else {
        assert Get(once[i], "id") == Get(prev[i], "id");
      }
    }
  }

  /** Deleting keeps the relative order of the items it keeps. */
  lemma DeleteKeepsOrder(a: seq<Props>, b: seq<Props>, id: Value)
    ensures DeleteById(a + b, id) == DeleteById(a, id) + DeleteById(b, id)
  {
    Seqs.FilterAppend(a, b, Keeps(id));
  }

  /** Deleting removes every item with the id, and only those. */
  lemma {:induction false} DeleteCount(prev: seq<Props>, id: Value)
    ensures |DeleteById(prev, id)| == |prev| - CountId(prev, id)
    decreases |prev|
  {
    if prev != [] {
      DeleteCount(prev[1..], id);
    }
  }

  /** How many items carry the id. */
  function CountId(prev: seq<Props>, id: Value): nat
  {
    if prev == [] then 0 else (if HasId(prev[0], id) then 1 else 0) + CountId(prev[1..], id)
  }

  /** A prepended item comes first, and the earlier items follow in order. */
  lemma PrependThenDelete(prev: seq<Props>, item: Props, id: Value)
    requires HasId(item, id)
    ensures DeleteById(Prepend(prev, item), id) == DeleteById(prev, id)
  {
    assert Prepend(prev, item)[1..] == prev;
  }
}
