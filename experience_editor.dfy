/** inc/features/blocks/experience/edit.js: the experience block's editor. Its
    variants are the container's inner blocks; it names them from their
    audience, presents an empty container as one variant, stamps the parent id
    on every variant once the container has none stored, and appends, copies
    and removes variants. New client ids and the audience titles the editor's
    `getAudience` store lookup finds are inputs. */
module ExperienceEditor {
  import opened Common
  import opened EditorBlocks

  /** `createBlock( 'altis/experience-block-variant', { parentId, audience: null } )`. */
  function NewVariant(id: string, parentId: Option<string>): Block {
    Block(id, parentId, None, false, "")
  }

  /** The variants `withSelect` hands to the editor. */
  function Presented(blocks: seq<Block>, newId: string, clientId: string): seq<Block> {
    if |blocks| == 0 then [NewVariant(newId, Some(clientId))] else blocks
  }

  /** There is always a variant to show: an empty container is presented as
      one variant with no audience whose parent is the container; any other
      list is presented as it is. */
  lemma PresentedMeans(blocks: seq<Block>, newId: string, clientId: string)
    ensures var r := Presented(blocks, newId, clientId);
      && |r| >= 1
      && (blocks != [] ==> r == blocks)
      && (blocks == [] ==> |r| == 1 && r[0].audience.None? && r[0].parentId == Some(clientId) && r[0].clientId == newId)
      && Presented(r, newId, clientId) == r
  {
  }

  /** `withSelect` pushes the initial variant onto the inner-block array. */
  method PresentVariants(list: BlockList, newId: string, clientId: string)
    modifies list
    ensures list.blocks == Presented(old(list.blocks), newId, clientId)
  {
    if |list.blocks| == 0 {
      list.Push(NewVariant(newId, Some(clientId)));
    }
  }

  /** The first render of a container with no stored client id stores its own
      and sets every variant's `parentId` to it, one dispatch per variant; with
      a stored id nothing is written. */
  method InitParents(attrClientId: Option<string>, clientId: string, variants: seq<Block>)
    returns (storedId: Option<string>, after: seq<Block>)
    ensures Blank(attrClientId) ==> storedId == Some(clientId) && after == WithParent(variants, Some(clientId))
    ensures !Blank(attrClientId) ==> storedId == attrClientId && after == variants
  {
    storedId := attrClientId;
    after := variants;
    if Blank(attrClientId) {
      storedId := Some(clientId);
      after := [];
      for i := 0 to |variants|
        invariant after == WithParent(variants[..i], Some(clientId))
      {
        assert variants[..i + 1][..i] == variants[..i];
        after := after + [variants[i].(parentId := Some(clientId))];
      }
      assert variants[..|variants|] == variants;
    }
  }

  /** `addVariant`: the new variant is appended; its client id is returned. */
  function AddVariant(blocks: seq<Block>, newId: string, parentId: Option<string>): (seq<Block>, string) {
    (blocks + [NewVariant(newId, parentId)], newId)
  }

  /** The old list is kept in order in front of the new variant, which has no
      audience and the returned id; removing that id restores the old list
      whenever the id is fresh. */
  lemma AddVariantMeans(blocks: seq<Block>, newId: string, parentId: Option<string>)
    ensures var (r, id) := AddVariant(blocks, newId, parentId);
      && |r| == |blocks| + 1 && r[..|blocks|] == blocks
      && r[|blocks|].clientId == id && r[|blocks|].audience.None? && r[|blocks|].parentId == parentId
      && (!HasId(blocks, newId) ==> Without(r, id) == blocks)
  {
    var (r, id) := AddVariant(blocks, newId, parentId);
    assert r[..|blocks|] == blocks;
    if !HasId(blocks, newId) {
      WithoutAppend(blocks, [NewVariant(newId, parentId)], newId);
      WithoutAbsent(blocks, newId);
      assert [NewVariant(newId, parentId)][1..] == [];
    }
  }

  /** `copyVariant`: `cloneBlock` keeps everything but the client id; the clone
      is appended to the source's container and its id returned. */
  function CopyVariant(blocks: seq<Block>, from: Block, newId: string): (seq<Block>, string) {
    (blocks + [from.(clientId := newId)], newId)
  }

  /** The copy sits at the end, equal to the source apart from its new id, and
      removing it restores the list whenever the id is fresh. */
  lemma CopyVariantMeans(blocks: seq<Block>, from: Block, newId: string)
    ensures var (r, id) := CopyVariant(blocks, from, newId);
      && |r| == |blocks| + 1 && r[..|blocks|] == blocks
      && r[|blocks|].clientId == id
      && r[|blocks|].(clientId := from.clientId) == from
      && (!HasId(blocks, newId) ==> Without(r, id) == blocks)
  {
    var (r, id) := CopyVariant(blocks, from, newId);
    var copy := from.(clientId := newId);
    assert r[..|blocks|] == blocks;
    if !HasId(blocks, newId) {
      WithoutAppend(blocks, [copy], newId);
      WithoutAbsent(blocks, newId);
      assert [copy][1..] == [];
    }
  }

  /** `removeVariant`: every block with the id is filtered out. */
  function RemoveVariant(blocks: seq<Block>, id: string): seq<Block> {
    Without(blocks, id)
  }

  /** Exactly the blocks carrying the id go, and the rest keep their order. */
  lemma RemoveVariantMeans(a: seq<Block>, b: seq<Block>, id: string)
    ensures var r := RemoveVariant(a + b, id);
      && !HasId(r, id)
      && (forall x :: x in r <==> x in a + b && x.clientId != id)
      && r == RemoveVariant(a, id) + RemoveVariant(b, id)
  {
    WithoutAppend(a, b, id);
  }

  /** The label `getVariantName` gives the variant at `index`. `titleOf` is the
      rendered title of an audience, when the audience post has one. */
  function VariantName(variants: seq<Block>, index: int, titleOf: int -> Option<string>): string {
    if !(0 <= index < |variants|) then "Variant " + IntToString(index + 1)
    else
      var audience := variants[index].audience;
      if audience.None? || audience == Some(0) then "Fallback"
      else
        var title := titleOf(audience.value);
        if title.Some? && title.value != "" then title.value
        else "Variant " + IntToString(index + 1)
  }

  /** A variant with no audience is the fallback; one whose audience has a
      title is named by it; otherwise, and for a missing variant, the label is
      the one-based position. */
  lemma VariantNameMeans(variants: seq<Block>, index: int, titleOf: int -> Option<string>)
    ensures var name := VariantName(variants, index, titleOf);
      && (!(0 <= index < |variants|) ==> name == "Variant " + IntToString(index + 1))
      && (0 <= index < |variants| && variants[index].audience in {None, Some(0)} ==> name == "Fallback")
      && (0 <= index < |variants| && variants[index].audience.Some? && variants[index].audience.value != 0 ==>
            var t := titleOf(variants[index].audience.value);
            name == (if t.Some? && t.value != "" then t.value else "Variant " + IntToString(index + 1)))
  {
  }

  /** Two positions that both get a numbered label get different ones. */
  lemma {:induction false} NumberedNamesDistinct(variants: seq<Block>, i: int, j: int, titleOf: int -> Option<string>)
    requires VariantName(variants, i, titleOf) == "Variant " + IntToString(i + 1)
    requires VariantName(variants, j, titleOf) == "Variant " + IntToString(j + 1)
    requires i != j
    ensures VariantName(variants, i, titleOf) != VariantName(variants, j, titleOf)
  {
    var p := "Variant ";
    if p + IntToString(i + 1) == p + IntToString(j + 1) {
      assert IntToString(i + 1) == (p + IntToString(i + 1))[|p|..];
      assert IntToString(j + 1) == (p + IntToString(j + 1))[|p|..];
      IntToStringInjective(i + 1, j + 1);
    }
  }

  /** The variant selected before `removeVariant` runs, as written:
      `variants[ Math.max( 0, activeVariantIndex - 1 ) ]`. */
  function ReselectIndex(active: int): nat {
    if active - 1 > 0 then active - 1 else 0
  }

  /** As written, removing the first variant selects the variant being
      removed: afterwards no variant matches the selection. */
  lemma ReselectFirstKeepsRemoved(variants: seq<Block>)
    requires |variants| >= 2
    ensures ReselectIndex(0) == 0
    ensures !HasId(RemoveVariant(variants, variants[0].clientId), variants[ReselectIndex(0)].clientId)
  {
  }

  /** The selection the removal evidently intends, as the personalization
      block's editor makes it: the preceding variant, or the next one when the
      first is removed. */
  function CorrectedReselectIndex(active: int): nat {
    if active == 0 then 1 else ReselectIndex(active)
  }

  /** With the remove button enabled (two variants or more) and distinct
      client ids, the corrected selection is a variant that survives the
      removal: the preceding one, or the next one for the first. */
  lemma CorrectedReselectSurvives(variants: seq<Block>, active: int)
    requires |variants| >= 2 && 0 <= active < |variants|
    requires forall k, l :: 0 <= k < l < |variants| ==> variants[k].clientId != variants[l].clientId
    ensures var r := CorrectedReselectIndex(active);
      && r < |variants| && r != active
      && (active > 0 ==> r == active - 1)
      && variants[r] in RemoveVariant(variants, variants[active].clientId)
  {
    var r := CorrectedReselectIndex(active);
    assert variants[r] in variants;
    if r < active {
      assert variants[r].clientId != variants[active].clientId;
    } else {
      assert variants[active].clientId != variants[r].clientId;
    }
  }
}
