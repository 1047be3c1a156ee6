/**
 * The block list of cms-frontend-builder/components/editor/block-list.tsx:
 * reordering by drag and drop, and the "add block" menu that remembers
 * after which block the new one goes.
 */
module BlockList {
  import opened Wrappers
  import Seqs
  import opened UsePages

  /** `blocks.findIndex((b) => b.id === id)`, with `None` for -1. */
  function IndexOfId(blocks: seq<Block>, id: string): (r: Option<nat>)
    ensures r.None? <==> forall k :: 0 <= k < |blocks| ==> blocks[k].id != id
    ensures r.Some? ==> r.value < |blocks| && blocks[r.value].id == id
    ensures r.Some? ==> forall k :: 0 <= k < r.value ==> blocks[k].id != id
  {
    if blocks == [] then None
    else if blocks[0].id == id then Some(0)
    else
      var rest := IndexOfId(blocks[1..], id);
      if rest.Some? then Some(rest.value + 1) else None
  }

  /** `arrayMove(list, from, to)`: take the element out at `from`, then put it back in at `to`. */
  function ArrayMove<T>(s: seq<T>, from: nat, to: nat): (r: seq<T>)
    requires from < |s| && to < |s|
    ensures |r| == |s|
  {
    Seqs.InsertAt(Seqs.RemoveAt(s, from), to, s[from])
  }

  /**
   * The move is a permutation that puts the moved element at `to`; taking
   * it out again gives the other elements in their original relative order.
   */
  lemma ArrayMoveSpec<T>(s: seq<T>, from: nat, to: nat)
    requires from < |s| && to < |s|
    ensures multiset(ArrayMove(s, from, to)) == multiset(s)
    ensures ArrayMove(s, from, to)[to] == s[from]
    ensures Seqs.RemoveAt(ArrayMove(s, from, to), to) == Seqs.RemoveAt(s, from)
  {
    var rest := Seqs.RemoveAt(s, from);
    var r := ArrayMove(s, from, to);
    assert multiset(r) == multiset(rest) + multiset{s[from]};
    var back := Seqs.RemoveAt(r, to);
    assert |back| == |rest|;
    forall k | 0 <= k < |back| ensures back[k] == rest[k] {
      if k < to {
        assert back[k] == r[k];
      } else {
        assert back[k] == r[k + 1];
      }
    }
  }

  /** Moving an element onto its own place changes nothing. */
  lemma ArrayMoveSame<T>(s: seq<T>, i: nat)
    requires i < |s|
    ensures ArrayMove(s, i, i) == s
  {
    var r := ArrayMove(s, i, i);
    forall k | 0 <= k < |s| ensures r[k] == s[k] {
      if k > i {
        assert r[k] == Seqs.RemoveAt(s, i)[k - 1];
      }
    }
  }

  /** Every block id that is dragged or dropped on is one of the list's. */
  predicate OnList(blocks: seq<Block>, id: string)
  {
    exists k :: 0 <= k < |blocks| && blocks[k].id == id
  }

  /**
   * handleDragEnd: the list onReorder receives, if it is called at all. A
   * drop outside any block, or onto the dragged block, reorders nothing.
   */
  function DragEnd(blocks: seq<Block>, active: string, over: Option<string>): (r: Option<seq<Block>>)
    requires OnList(blocks, active)
    requires over.Some? ==> OnList(blocks, over.value)
    ensures r.None? <==> over.None? || over.value == active
    ensures r.Some? ==> multiset(r.value) == multiset(blocks)
    ensures r.Some? ==> IndexOfId(blocks, over.value).Some? && IndexOfId(blocks, active).Some?
    ensures r.Some? ==> |r.value| == |blocks|
    ensures r.Some? ==> r.value[IndexOfId(blocks, over.value).value] == blocks[IndexOfId(blocks, active).value]
    ensures r.Some? ==> Seqs.RemoveAt(r.value, IndexOfId(blocks, over.value).value) ==
                        Seqs.RemoveAt(blocks, IndexOfId(blocks, active).value)
  {
    if over.None? || active == over.value then None
    else
      var from := IndexOfId(blocks, active).value;
      var to := IndexOfId(blocks, over.value).value;
      ArrayMoveSpec(blocks, from, to);
      Some(ArrayMove(blocks, from, to))
  }

  /** One entry of the add-block menu. */
  datatype MenuEntry = MenuEntry(typ: string, caption: string, description: string)

  /** `blockTypes` */
  const Menu: seq<MenuEntry> := [
    MenuEntry("hero", "Hero", "Large header with image"),
    MenuEntry("text-image", "Text + Image", "Content with side image"),
    MenuEntry("gallery", "Gallery", "Image grid display"),
    MenuEntry("posts-feed", "Posts Feed", "Recent blog posts"),
    MenuEntry("cta", "Call to Action", "Conversion section")
  ]

  predicate InMenu(typ: string)
  {
    exists k :: 0 <= k < |Menu| && Menu[k].typ == typ
  }

  /** The menu offers exactly the five block types, each once. */
  lemma MenuTypes()
    ensures |Menu| == 5
    ensures forall t :: InMenu(t) <==> t in {"hero", "text-image", "gallery", "posts-feed", "cta"}
    ensures forall j, k :: 0 <= j < k < |Menu| ==> Menu[j].typ != Menu[k].typ
  {
    forall t ensures InMenu(t) <==> t in {"hero", "text-image", "gallery", "posts-feed", "cta"} {
      if t == "hero" { assert Menu[0].typ == t; }
      else if t == "text-image" { assert Menu[1].typ == t; }
      else if t == "gallery" { assert Menu[2].typ == t; }
      else if t == "posts-feed" { assert Menu[3].typ == t; }
      else if t == "cta" { assert Menu[4].typ == t; }
    }
  }

  /** A call of onAddBlock. */
  datatype AddRequest = AddRequest(typ: string, afterId: Option<string>)

  /** The menu's state; `requests` records the onAddBlock calls made. */
  class AddBlockMenu {
    var showAddModal: bool
    var addAfterBlockId: Option<string>
    var requests: seq<AddRequest>

    constructor ()
      ensures !showAddModal && addAfterBlockId.None? && requests == []
    {
      showAddModal := false;
      addAfterBlockId := None;
      requests := [];
    }

    /** handleAddClick: remember the block to add after and open the menu. */
    method HandleAddClick(afterId: Option<string>)
      modifies this
      ensures showAddModal && addAfterBlockId == afterId && requests == old(requests)
    {
      addAfterBlockId := afterId;
      showAddModal := true;
    }

    /** handleSelectBlockType: ask for the block after the remembered one, then forget it and close. */
    method HandleSelectBlockType(typ: string)
      requires InMenu(typ)
      modifies this
      ensures requests == old(requests) + [AddRequest(typ, old(addAfterBlockId))]
      ensures !showAddModal && addAfterBlockId.None?
    {
      requests := requests + [AddRequest(typ, addAfterBlockId)];
      showAddModal := false;
      addAfterBlockId := None;
    }

    /** The modal's onClose: it only hides the menu, so the remembered block stays. */
    method Close()
      modifies this
      ensures !showAddModal && addAfterBlockId == old(addAfterBlockId) && requests == old(requests)
    {
      showAddModal := false;
    }
  }
}
