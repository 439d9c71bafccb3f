/** inc/features/blocks/personalization/data/edit.js: the data layer of the
    personalization block's editor. It makes sure the variants include a
    fallback, and adds, copies and removes variants by replacing the
    container's inner blocks. New client ids come from the block editor's
    `createBlock`/`cloneBlock`; here they are inputs. */
module PersonalizationEditor {
  import opened Common
  import opened EditorBlocks

  /** `createFallbackBlock( parentId )`: no audience, the fallback flag set. */
  function CreateFallbackBlock(id: string, parentId: string): Block {
    Block(id, Some(parentId), None, true, "")
  }

  /** `attributes.clientId || clientId`. */
  function ParentClientId(attrClientId: Option<string>, clientId: string): (p: string)
    ensures !Blank(attrClientId) ==> p == attrClientId.value
    ensures Blank(attrClientId) ==> p == clientId
  {
    if Blank(attrClientId) then clientId else attrClientId.value
  }

  /** `innerBlocks.find( block => block.attributes.fallback )` finds a block. */
  predicate HasFallback(blocks: seq<Block>) {
    exists i :: 0 <= i < |blocks| && blocks[i].fallback
  }

  /** The variants `withSelect` hands to the editor: the inner blocks, with a
      fallback block pushed at the end when the list is empty or has none. */
  function WithFallback(blocks: seq<Block>, newId: string, parentClientId: string): seq<Block> {
    if |blocks| == 0 then [CreateFallbackBlock(newId, parentClientId)]
    else if !HasFallback(blocks) then blocks + [CreateFallbackBlock(newId, parentClientId)]
    else blocks
  }

  /** The presented list always has a fallback and starts with the inner
      blocks; an empty list becomes exactly one fallback block, a list without
      a fallback gets one appended, and a list with one is left alone. Doing it
      again changes nothing. */
  lemma WithFallbackMeans(blocks: seq<Block>, newId: string, parentClientId: string, id2: string, parent2: string)
    ensures var r := WithFallback(blocks, newId, parentClientId);
      var fb := Block(newId, Some(parentClientId), None, true, "");
      && HasFallback(r)
      && |blocks| <= |r| && r[..|blocks|] == blocks
      && (blocks == [] ==> r == [fb])
      && (HasFallback(blocks) <==> r == blocks)
      && (!HasFallback(blocks) ==> r == blocks + [fb])
      && WithFallback(r, id2, parent2) == r
  {
    var r := WithFallback(blocks, newId, parentClientId);
    if !HasFallback(blocks) {
      assert r[|blocks|].fallback;
      assert r != blocks;
    }
  }

  /** `withSelect` pushes the fallback onto the inner-block array in place. */
  method EnsureFallback(list: BlockList, newId: string, attrClientId: Option<string>, clientId: string)
    modifies list
    ensures list.blocks == WithFallback(old(list.blocks), newId, ParentClientId(attrClientId, clientId))
  {
    var parentClientId := ParentClientId(attrClientId, clientId);
    if |list.blocks| == 0 {
      list.Push(CreateFallbackBlock(newId, parentClientId));
    } else {
      // Add a fallback unless one is explicitly set.
      var hasFallback := HasFallback(list.blocks);
      if !hasFallback {
        list.Push(CreateFallbackBlock(newId, parentClientId));
      }
    }
  }

  /** `createBlock` for a new variant: the container's stored client id as its
      parent, no audience, no fallback flag. */
  function NewVariant(id: string, parentId: Option<string>): Block {
    Block(id, parentId, None, false, "")
  }

  /** `onAddVariant`: the new variant is prepended; its client id is returned. */
  function AddVariant(blocks: seq<Block>, newId: string, parentId: Option<string>): (seq<Block>, string) {
    ([NewVariant(newId, parentId)] + blocks, newId)
  }

  /** The new variant comes first, with no audience and not the fallback, and
      the old list follows in its order; whether a fallback exists is
      unchanged; removing the returned id gives back the old list whenever the
      id is fresh. */
  lemma AddVariantMeans(blocks: seq<Block>, newId: string, parentId: Option<string>)
    ensures var (r, id) := AddVariant(blocks, newId, parentId);
      && |r| == |blocks| + 1 && r[1..] == blocks
      && r[0].clientId == id && r[0].parentId == parentId && r[0].audience.None? && !r[0].fallback
      && (HasFallback(r) <==> HasFallback(blocks))
      && (!HasId(blocks, newId) ==> Without(r, id) == blocks)
  {
    var (r, id) := AddVariant(blocks, newId, parentId);
    assert r[1..] == blocks;
    if HasFallback(r) {
      var i :| 0 <= i < |r| && r[i].fallback;
      assert blocks[i - 1] == r[i];
    }
    if HasFallback(blocks) {
      var i :| 0 <= i < |blocks| && blocks[i].fallback;
      assert r[i + 1] == blocks[i];
    }
    if !HasId(blocks, newId) {
      WithoutAbsent(blocks, newId);
    }
  }

  /** `variantBlocks.findIndex( variant => variant.clientId === id )`. */
  function FindIndex(blocks: seq<Block>, id: string): (i: int)
    ensures -1 <= i < |blocks|
    ensures i >= 0 ==> blocks[i].clientId == id && forall k :: 0 <= k < i ==> blocks[k].clientId != id
    ensures i == -1 <==> !HasId(blocks, id)
    decreases |blocks|
  {
    if blocks == [] then -1
    else if blocks[0].clientId == id then 0
    else
      var j := FindIndex(blocks[1..], id);
      if j == -1 then -1 else j + 1
  }

  /** Where `Array.prototype.slice` cuts a list of length `n` at `k`: a
      negative `k` counts from the end. */
  function SliceCut(n: nat, k: int): (c: nat)
    ensures c <= n
  {
    if k < 0 then (if n + k < 0 then 0 else n + k)
    else if k > n then n
    else k
  }

  /** `cloneBlock( fromVariant, { audience: null, fallback: false } )`. */
  function Clone(from: Block, newId: string): Block {
    from.(clientId := newId, audience := None, fallback := false)
  }

  /** The position the copy is inserted at: `fromIndex` is the source's index
      when the source is the fallback, the next one otherwise. */
  function CopyPosition(blocks: seq<Block>, from: Block): nat {
    var i := FindIndex(blocks, from.clientId);
    SliceCut(|blocks|, if from.fallback then i else i + 1)
  }

  /** `onCopyVariant`: the clone is spliced in at the copy position; its
      client id is returned. */
  function CopyVariant(blocks: seq<Block>, from: Block, newId: string): (seq<Block>, string) {
    var p := CopyPosition(blocks, from);
    (blocks[..p] + [Clone(from, newId)] + blocks[p..], newId)
  }

  /** The copy is the source with a new id, no audience and no fallback flag,
      inserted into the otherwise unchanged list at the copy position. */
  lemma CopyVariantInserts(blocks: seq<Block>, from: Block, newId: string)
    ensures var (r, id) := CopyVariant(blocks, from, newId);
      var p := CopyPosition(blocks, from);
      && |r| == |blocks| + 1 && p <= |blocks| && id == newId
      && r[p] == Clone(from, newId)
      && r[p].audience.None? && !r[p].fallback
      && r[p].(clientId := from.clientId, audience := from.audience, fallback := from.fallback) == from
      && r[..p] == blocks[..p] && r[p + 1..] == blocks[p..]
  {
    var (r, id) := CopyVariant(blocks, from, newId);
    var p := CopyPosition(blocks, from);
    assert r[..p] == blocks[..p];
    assert r[p + 1..] == blocks[p..];
  }

  /** The copy lands just before the source when the source is the fallback
      and just after it otherwise. When the source is not in the list,
      `findIndex` yields -1 and the copy lands before the last block (copying
      a fallback) or first. */
  lemma CopyPositionMeans(blocks: seq<Block>, from: Block)
    ensures var p := CopyPosition(blocks, from);
      var i := FindIndex(blocks, from.clientId);
      && (i >= 0 && from.fallback ==> p == i)
      && (i >= 0 && !from.fallback ==> p == i + 1)
      && (i == -1 && from.fallback ==> p == (if |blocks| == 0 then 0 else |blocks| - 1))
      && (i == -1 && !from.fallback ==> p == 0)
  {
  }

  /** Copying never adds or takes away a fallback. */
  lemma CopyKeepsFallback(blocks: seq<Block>, from: Block, newId: string)
    ensures HasFallback(CopyVariant(blocks, from, newId).0) <==> HasFallback(blocks)
  {
    var r := CopyVariant(blocks, from, newId).0;
    var p := CopyPosition(blocks, from);
    CopyVariantInserts(blocks, from, newId);
    if HasFallback(r) {
      var k :| 0 <= k < |r| && r[k].fallback;
      if k < p {
        assert blocks[k] == r[..p][k];
      } else {
        assert k > p;
        assert blocks[k - 1] == r[p + 1..][k - p - 1];
      }
    }
    if HasFallback(blocks) {
      var k :| 0 <= k < |blocks| && blocks[k].fallback;
      if k < p {
        assert r[k] == r[..p][k];
      } else {
        assert r[k + 1] == r[p + 1..][k - p];
      }
    }
  }

  /** `onRemoveVariant`: nothing happens when the container's own `fallback`
      attribute is set; otherwise every block with the id is filtered out. */
  function RemoveVariant(blocks: seq<Block>, parentFallback: bool, id: string): seq<Block> {
    if parentFallback then blocks else Without(blocks, id)
  }

  /** With the guard off, exactly the blocks carrying the id go and the rest
      keep their order (removal commutes with splitting the list). */
  lemma RemoveVariantMeans(blocks: seq<Block>, parentFallback: bool, id: string, a: seq<Block>, b: seq<Block>)
    requires blocks == a + b
    ensures var r := RemoveVariant(blocks, parentFallback, id);
      && (parentFallback ==> r == blocks)
      && (!parentFallback ==> !HasId(r, id))
      && (!parentFallback ==> forall x :: x in r <==> x in blocks && x.clientId != id)
      && (!parentFallback ==> r == RemoveVariant(a, false, id) + RemoveVariant(b, false, id))
  {
    if !parentFallback {
      WithoutAppend(a, b, id);
    }
  }

  /** The guard reads the container's attributes, not the variant's, so the
      fallback variant itself can be removed; the next `withSelect` then
      presents a fresh fallback at the end. */
  lemma FallbackRemovable(v: Block, fb: Block, newId: string, parentClientId: string)
    requires !v.fallback && fb.fallback && v.clientId != fb.clientId
    ensures var r := RemoveVariant([v, fb], false, fb.clientId);
      && r == [v] && !HasFallback(r)
      && WithFallback(r, newId, parentClientId) == [v, CreateFallbackBlock(newId, parentClientId)]
  {
    var r := RemoveVariant([v, fb], false, fb.clientId);
    assert [v, fb][1..] == [fb];
    assert Without([fb], fb.clientId) == [] by {
      assert [fb][1..] == [];
    }
  }

  /** `onSetClientId`: the attribute write it issues, if any. It writes back the
      very value it has just found blank. */
  function ClientIdWrite(attrClientId: Option<string>): Option<Option<string>> {
    if Blank(attrClientId) then Some(attrClientId) else None
  }

  /** A write happens exactly when the stored id is blank, and the attribute
      holds the same value afterwards in every case. */
  lemma SetClientIdChangesNothing(attrClientId: Option<string>)
    ensures ClientIdWrite(attrClientId).Some? <==> Blank(attrClientId)
    ensures var w := ClientIdWrite(attrClientId);
      (if w.Some? then w.value else attrClientId) == attrClientId
  {
  }

  /** A variant is updated when its `parentId` is blank or differs from the
      container's stored client id. */
  predicate NeedsParent(v: Block, parentId: Option<string>) {
    Blank(v.parentId) || v.parentId != parentId
  }

  /** The client ids `updateBlockAttributes` is called with, in order. */
  function UpdatedIds(variants: seq<Block>, parentId: Option<string>): seq<string>
    decreases |variants|
  {
    if variants == [] then []
    else
      var last := variants[|variants| - 1];
      UpdatedIds(variants[..|variants| - 1], parentId)
        + (if NeedsParent(last, parentId) then [last.clientId] else [])
  }

  /** The variants after the updates: those that need it get the parent id. */
  function Reparented(variants: seq<Block>, parentId: Option<string>): seq<Block> {
    seq(|variants|, i requires 0 <= i < |variants| =>
      if NeedsParent(variants[i], parentId) then variants[i].(parentId := parentId) else variants[i])
  }

  /** `onSetVariantParents`: one update per variant that needs it. */
  method SetVariantParents(variants: seq<Block>, parentId: Option<string>)
    returns (updates: seq<string>, after: seq<Block>)
    ensures updates == UpdatedIds(variants, parentId)
    ensures after == Reparented(variants, parentId)
  {
    updates := [];
    after := [];
    for i := 0 to |variants|
      invariant updates == UpdatedIds(variants[..i], parentId)
      invariant after == Reparented(variants[..i], parentId)
    {
      var variant := variants[i];
      assert variants[..i + 1][..i] == variants[..i];
      if Blank(variant.parentId) || variant.parentId != parentId {
        updates := updates + [variant.clientId];
        after := after + [variant.(parentId := parentId)];
      } else {
        after := after + [variant];
      }
    }
    assert variants[..|variants|] == variants;
  }

  /** Updating only where needed ends in the same list as setting every
      variant's parent id: a variant left alone already had it. */
  lemma ReparentedSetsAll(variants: seq<Block>, parentId: Option<string>)
    ensures Reparented(variants, parentId) == WithParent(variants, parentId)
  {
    var r := Reparented(variants, parentId);
    var w := WithParent(variants, parentId);
    forall i | 0 <= i < |variants| ensures r[i] == w[i] {
      if !NeedsParent(variants[i], parentId) {
        assert variants[i].parentId == parentId;
      }
    }
  }

  /** Once the container has a client id, a second pass issues no updates;
      while its stored id is blank, every pass updates every variant. */
  lemma {:induction false} SecondPassSettles(variants: seq<Block>, parentId: Option<string>)
    ensures !Blank(parentId) ==> UpdatedIds(Reparented(variants, parentId), parentId) == []
    ensures Blank(parentId) ==> |UpdatedIds(variants, parentId)| == |variants|
    decreases |variants|
  {
    if variants != [] {
      var init := variants[..|variants| - 1];
      SecondPassSettles(init, parentId);
      var r := Reparented(variants, parentId);
      assert r[..|r| - 1] == Reparented(init, parentId);
    }
  }
}
