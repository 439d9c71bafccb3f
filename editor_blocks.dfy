/** The variant blocks the two container blocks' editors manipulate: each has
    its own client id, a `parentId` attribute naming the container, an audience
    id, the personalization `fallback` flag and the rest of its content (inner
    blocks and other attributes), which the operations only carry along. */
module EditorBlocks {
  import opened Common

  datatype Block = Block(
    clientId: string,
    parentId: Option<string>,
    audience: Option<int>,
    fallback: bool,
    content: string)

  /** A JavaScript string attribute that is `undefined` or `''`. */
  predicate Blank(s: Option<string>) {
    s.None? || s == Some("")
  }

  /** Some block of the list has client id `id`. */
  predicate HasId(blocks: seq<Block>, id: string) {
    exists i :: 0 <= i < |blocks| && blocks[i].clientId == id
  }

  /** `blocks.filter( block => block.clientId !== id )`. */
  function Without(blocks: seq<Block>, id: string): (r: seq<Block>)
    ensures |r| <= |blocks|
    ensures forall b :: b in r <==> b in blocks && b.clientId != id
  {
    if blocks == [] then []
    else (if blocks[0].clientId != id then [blocks[0]] else []) + Without(blocks[1..], id)
  }

  /** Filtering distributes over concatenation, so the kept blocks stay in
      their original order. */
  lemma {:induction false} WithoutAppend(a: seq<Block>, b: seq<Block>, id: string)
    ensures Without(a + b, id) == Without(a, id) + Without(b, id)
    decreases |a|
  {
    if a != [] {
      assert (a + b)[0] == a[0];
      assert (a + b)[1..] == a[1..] + b;
      WithoutAppend(a[1..], b, id);
    } else {
      assert a + b == b;
    }
  }

  /** Removing an id no block carries changes nothing. */
  lemma {:induction false} WithoutAbsent(blocks: seq<Block>, id: string)
    requires !HasId(blocks, id)
    ensures Without(blocks, id) == blocks
    decreases |blocks|
  {
    if blocks != [] {
      assert !HasId(blocks[1..], id) by {
        forall i | 0 <= i < |blocks[1..]| ensures blocks[1..][i].clientId != id {
          assert blocks[1..][i] == blocks[i + 1];
        }
      }
      WithoutAbsent(blocks[1..], id);
    }
  }

  /** Every block of the list with its `parentId` set to `parentId`. */
  function WithParent(blocks: seq<Block>, parentId: Option<string>): (r: seq<Block>)
    ensures |r| == |blocks|
    ensures forall i :: 0 <= i < |r| ==> r[i].parentId == parentId
    ensures forall i :: 0 <= i < |r| ==> r[i].(parentId := blocks[i].parentId) == blocks[i]
  {
    seq(|blocks|, i requires 0 <= i < |blocks| => blocks[i].(parentId := parentId))
  }

  /** An inner-block array that an editor function extends in place. */
  class BlockList {
    var blocks: seq<Block>

    constructor (blocks: seq<Block>)
      ensures this.blocks == blocks
    {
      this.blocks := blocks;
    }

    /** `Array.prototype.push`. */
    method Push(b: Block)
      modifies this
      ensures blocks == old(blocks) + [b]
    {
      blocks := blocks + [b];
    }
  }
}
