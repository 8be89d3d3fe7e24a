/** The block pool (modula/Components/MemoryPool): free blocks wait in a FIFO list, the
    nodes of blocks handed out wait on a stack without their block. */
module BlockPool {
  import opened Wrappers

  /** A block of memory; only its identity matters. */
  class Block {
    constructor () {}
  }

  class MemoryNode {
    var next: MemoryNode?
    var block: Block?

    constructor ()
      ensures next == null && block == null
    {
      next, block := null, null;
    }
  }

  /** Following `next` from `head` visits exactly `nodes`. */
  ghost predicate Chain(head: MemoryNode?, nodes: seq<MemoryNode>)
    reads nodes`next
  {
    && Distinct(nodes)
    && head == (if nodes == [] then null else nodes[0])
    && forall i {:trigger nodes[i].next} :: 0 <= i < |nodes| ==>
         nodes[i].next == if i + 1 < |nodes| then nodes[i + 1] else null
  }

  /** The nodes of one list carry these blocks, in order. */
  ghost predicate Carries(nodes: seq<MemoryNode>, blocks: seq<Block>)
    reads nodes`block
  {
    |nodes| == |blocks| && forall i {:trigger nodes[i]} :: 0 <= i < |nodes| ==> nodes[i].block == blocks[i]
  }

  /** Every block made is either waiting, once, or held. */
  ghost predicate Splits(made: set<Block>, blocks: seq<Block>, held: set<Block>) {
    Distinct(blocks) && (forall b :: b in blocks ==> b !in held) && made == held + (set b | b in blocks)
  }

  lemma NewBlockSplits(made: set<Block>, blocks: seq<Block>, held: set<Block>, block: Block)
    requires block !in made
    ensures Splits(made, blocks, held) ==> Splits(made + {block}, blocks + [block], held)
  {
    if !Splits(made, blocks, held) { return; }
    forall i | 0 <= i < |blocks| ensures blocks[i] != block { assert blocks[i] in made; }
  }

  lemma TakenBlockSplits(made: set<Block>, blocks: seq<Block>, held: set<Block>)
    requires blocks != []
    ensures Splits(made, blocks, held) ==> blocks[0] !in held && Splits(made, blocks[1..], held + {blocks[0]})
    ensures Splits(made, blocks, held) ==> |held + {blocks[0]}| == |held| + 1
  {
    if !Splits(made, blocks, held) { return; }
    assert blocks[0] in blocks && blocks == [blocks[0]] + blocks[1..];
    forall b | b in blocks[1..] ensures b in blocks && b != blocks[0] {
      var i :| 0 <= i < |blocks| - 1 && blocks[1..][i] == b;
      assert blocks[i + 1] == b;
    }
  }

  lemma ReturnedBlockSplits(made: set<Block>, blocks: seq<Block>, held: set<Block>, block: Block)
    ensures Splits(made, blocks, held) && block in held ==> Splits(made, blocks + [block], held - {block})
    ensures block in held ==> |held - {block}| == |held| - 1
    ensures block !in held ==> |held - {block}| == |held|
  {
    if block in held {
      assert forall i :: 0 <= i < |blocks| ==> blocks[i] in blocks;
      assert held == held - {block} + {block};
    } else {
      assert held - {block} == held;
    }
  }

  /** What a retrieval comes to; `NullHead` is the undefined case. */
  datatype Retrieval = Retrieved(block: Block) | Thrown | NullHead

  class MemoryPool {
    var mFreeListHead: MemoryNode?
    var mFreeListTail: MemoryNode?
    var mAllocatedListHead: MemoryNode?
    var mfreeBlocks: int

    /** The nodes of the two lists, the waiting blocks in order, the blocks in use, and
        every block ever made. */
    ghost var Free: seq<MemoryNode>
    ghost var Allocated: seq<MemoryNode>
    ghost var Blocks: seq<Block>
    ghost var Held: set<Block>
    ghost var Made: set<Block>
    /** Every block that entered the free list and every block that left it, in time order. */
    ghost var Entered: seq<Block>
    ghost var Left: seq<Block>

    ghost predicate Valid()
      reads this, Free`next, Free`block, Allocated`next
    {
      && Chain(mFreeListHead, Free) && Chain(mAllocatedListHead, Allocated)
      && mFreeListTail == (if Free == [] then null else Free[|Free| - 1])
      && (forall n :: n in Free ==> n !in Allocated)
      && Carries(Free, Blocks)
      && Entered == Left + Blocks
    }

    /** Nothing is handed out twice and nothing is lost. */
    ghost predicate Partition()
      reads this
    {
      Splits(Made, Blocks, Held) && |Allocated| == |Held|
    }

    /** The counter the retrieval guard looks at is the length of the free list. */
    ghost predicate Counted()
      reads this
    {
      mfreeBlocks == |Blocks|
    }

    constructor ()
      ensures Valid() && Partition() && Counted() && Made == {} && Entered == []
    {
      mFreeListHead, mFreeListTail, mAllocatedListHead, mfreeBlocks := null, null, null, 0;
      Free, Allocated, Blocks, Held, Made, Entered, Left := [], [], [], {}, {}, [], [];
    }

    /** Link a loose node that carries `block` behind the tail. */
    method AppendFree(node: MemoryNode, block: Block)
      requires Valid() && node !in Free && node !in Allocated
      requires node.next == null && node.block == block
      modifies this`mFreeListHead, this`mFreeListTail, this`Free, this`Blocks, this`Entered, Free`next
      ensures Valid() && Free == old(Free) + [node] && Blocks == old(Blocks) + [block]
    {
      if mFreeListHead == null {
        mFreeListHead := node;
        mFreeListTail := node;
      } else {
        assert mFreeListTail == Free[|Free| - 1] && mFreeListTail in Free;
        mFreeListTail.next := node;
        mFreeListTail := mFreeListTail.next;
      }
      Free := Free + [node];
      Blocks := Blocks + [block];
      Entered := Entered + [block];
      assert Entered == Left + Blocks;
    }

    /** One round of the allocation loop. */
    method AddNode()
      requires Valid()
      modifies this`mFreeListHead, this`mFreeListTail, this`Free, this`Blocks, this`Entered, this`Made, Free`next
      ensures Valid() && old(Free) <= Free && |Free| == |old(Free)| + 1 && fresh(Free[|old(Free)|])
      ensures |Blocks| == |old(Blocks)| + 1 && Blocks == old(Blocks) + [Blocks[|old(Blocks)|]]
      ensures fresh(Blocks[|old(Blocks)|])
      ensures Made == old(Made) + {Blocks[|old(Blocks)|]}
    {
      var block := new Block();
      var allocationBlock := new MemoryNode();
      allocationBlock.block := block;
      AppendFree(allocationBlock, block);
      Made := Made + {block};
    }

    /** `available` is how many allocations succeed before `new` returns nothing. */
    method AddNodesToFreeList(blockCount: int, available: nat) returns (allocatedCount: int)
      requires Valid()
      modifies this`mFreeListHead, this`mFreeListTail, this`Free, this`Blocks, this`Entered, this`Made, Free`next
      ensures Valid() && old(Blocks) <= Blocks && |Blocks| == |old(Blocks)| + allocatedCount
      ensures forall i :: |old(Blocks)| <= i < |Blocks| ==> fresh(Blocks[i])
      ensures allocatedCount == if blockCount <= 0 then 0 else if blockCount <= available then blockCount else available
      ensures old(Partition()) ==> Partition()
    {
      allocatedCount := 0;
      while allocatedCount < blockCount
        invariant 0 <= allocatedCount <= available && (allocatedCount <= blockCount || allocatedCount == 0)
        invariant Valid() && old(Blocks) <= Blocks && |Blocks| == |old(Blocks)| + allocatedCount
        invariant old(Free) <= Free && forall i :: |old(Free)| <= i < |Free| ==> fresh(Free[i])
        invariant forall i :: |old(Blocks)| <= i < |Blocks| ==> fresh(Blocks[i])
        invariant old(Partition()) ==> Partition()
      {
        if allocatedCount == available { return; }
        ghost var made, blocks := Made, Blocks;
        AddNode();
        NewBlockSplits(made, blocks, Held, Blocks[|blocks|]);
        allocatedCount := allocatedCount + 1;
      }
    }

    /** The counter is raised by the number asked for, not by the number made: it stays the
        length of the free list exactly when every allocation succeeds. */
    method MakeAllocation(blockCount: int, available: nat) returns (blocksAllocated: int)
      requires Valid()
      modifies this, Free`next
      ensures Valid() && old(Blocks) <= Blocks && |Blocks| == |old(Blocks)| + blocksAllocated
      ensures forall i :: |old(Blocks)| <= i < |Blocks| ==> fresh(Blocks[i])
      ensures blocksAllocated == if blockCount <= 0 then 0 else if blockCount <= available then blockCount else available
      ensures Held == old(Held) && Left == old(Left) && mfreeBlocks == old(mfreeBlocks) + blockCount
      ensures old(Partition()) ==> Partition()
      ensures old(Counted()) ==> (Counted() <==> 0 <= blockCount <= available)
    {
      blocksAllocated := AddNodesToFreeList(blockCount, available);
      mfreeBlocks := mfreeBlocks + blockCount;
    }

    /** Unlink the head of the free list. */
    method TakeFree() returns (memNode: MemoryNode)
      requires Valid() && Free != []
      modifies this`mFreeListHead, this`mFreeListTail, this`Free, this`Blocks, this`Left, Free`next
      ensures Valid() && old(Free) == [memNode] + Free && memNode.next == null
      ensures memNode !in Free && memNode.block == old(Blocks)[0]
      ensures Blocks == old(Blocks)[1..] && Left == old(Left) + old(Blocks)[..1]
    {
      memNode := mFreeListHead;
      mFreeListHead := mFreeListHead.next;
      memNode.next := null;
      if mFreeListHead == null { mFreeListTail := null; }
      assert memNode in Free && memNode !in Allocated;
      Free := Free[1..];
      Left, Blocks := Left + Blocks[..1], Blocks[1..];
      assert forall i :: 0 <= i < |Free| ==> Free[i] == old(Free)[i + 1];
      assert Carries(Free, Blocks);
      assert Entered == Left + Blocks;
    }

    /** Push a loose node on the stack of nodes whose blocks are in use. */
    method PushAllocated(memNode: MemoryNode)
      requires Valid() && memNode !in Free && memNode !in Allocated && memNode.next == null
      modifies this`mAllocatedListHead, this`Allocated, memNode`next
      ensures Valid() && Allocated == [memNode] + old(Allocated)
    {
      if mAllocatedListHead == null {
        mAllocatedListHead := memNode;
        mAllocatedListHead.next := null;
      } else {
        memNode.next := mAllocatedListHead;
        mAllocatedListHead := memNode;
      }
      Allocated := [memNode] + Allocated;
    }

    /** Pop the stack of nodes whose blocks are in use. */
    method PopAllocated() returns (memNode: MemoryNode)
      requires Valid() && Allocated != []
      modifies this`mAllocatedListHead, this`Allocated, Allocated`next
      ensures Valid() && old(Allocated) == [memNode] + Allocated && memNode.next == null
      ensures memNode !in Allocated && memNode !in Free
    {
      memNode := mAllocatedListHead;
      mAllocatedListHead := mAllocatedListHead.next;
      memNode.next := null;
      Allocated := Allocated[1..];
      assert forall i :: 0 <= i < |Allocated| ==> Allocated[i] == old(Allocated)[i + 1];
      assert Chain(mAllocatedListHead, Allocated);
      assert old(Allocated) == [memNode] + Allocated;
      assert memNode in old(Allocated);
      assert Chain(mFreeListHead, Free);
      assert Carries(Free, Blocks);
    }

    /** Move the head of the free list to the stack and strip it of its block. */
    method HandOut() returns (freeBlock: Block)
      requires Valid() && Blocks != []
      modifies this`mFreeListHead, this`mFreeListTail, this`Free, this`Blocks, this`Left
      modifies this`mAllocatedListHead, this`Allocated, Free`next, Free`block
      ensures Valid() && freeBlock == old(Blocks)[0] && Blocks == old(Blocks)[1..]
      ensures |Allocated| == |old(Allocated)| + 1 && Left == old(Left) + [freeBlock]
    {
      var memNode := TakeFree();
      freeBlock := memNode.block;
      memNode.block := null;
      assert Carries(Free, Blocks);
      PushAllocated(memNode);
    }

    /** Put a block on a node from the stack and queue it up. */
    method TakeBack(block: Block)
      requires Valid() && Allocated != []
      modifies this`mFreeListHead, this`mFreeListTail, this`Free, this`Blocks, this`Entered
      modifies this`mAllocatedListHead, this`Allocated, Free`next, Allocated`next, Allocated`block
      ensures Valid() && Blocks == old(Blocks) + [block]
      ensures |Allocated| == |old(Allocated)| - 1
    {
      var memNode := PopAllocated();
      memNode.block := block;
      assert Carries(Free, Blocks);
      AppendFree(memNode, block);
    }

    /** Take the block that has waited longest, or throw. A counter that overstates the free
        list lets the source follow the null head. */
    method GetBlock() returns (result: Retrieval)
      requires Valid()
      modifies this, Free`next, Free`block
      ensures Valid()
      ensures result == Thrown <==> old(mfreeBlocks) == 0
      ensures result == NullHead <==> old(mfreeBlocks) != 0 && old(Blocks) == []
      ensures !result.Retrieved? ==> Blocks == old(Blocks) && Held == old(Held) && Left == old(Left)
      ensures result.Retrieved? ==> result.block == old(Blocks)[0] && Blocks == old(Blocks)[1..]
      ensures result.Retrieved? ==> Left == old(Left) + [result.block] && Held == old(Held) + {result.block}
      ensures Entered == old(Entered) && Made == old(Made)
      ensures old(Partition()) ==> Partition() && (result.Retrieved? ==> result.block !in old(Held))
      ensures old(Counted()) ==> Counted() && result != NullHead
    {
      if mfreeBlocks == 0 { return Thrown; }
      if mFreeListHead == null { return NullHead; }
      ghost var blocks, held := Blocks, Held;
      var freeBlock := HandOut();
      TakenBlockSplits(Made, blocks, held);
      mfreeBlocks := mfreeBlocks - 1;
      Held := Held + {freeBlock};
      return Retrieved(freeBlock);
    }

    /** Give a block back. A call with no block, or when nothing is handed out, is ignored;
        otherwise the block queues up behind the waiting ones. The pool stays a partition
        exactly when the caller really held the block. */
    method FreeBlock(block: Block?)
      requires Valid()
      modifies this, Free`next, Allocated`next, Allocated`block
      ensures Valid() && Made == old(Made) && Left == old(Left)
      ensures block == null || old(Allocated) == [] ==> Blocks == old(Blocks) && Held == old(Held)
      ensures block != null && old(Allocated) != [] ==> Blocks == old(Blocks) + [block] && Held == old(Held) - {block}
      ensures old(Counted()) ==> Counted()
      ensures old(Partition()) ==> (Partition() <==> block == null || old(Held) == {} || block in old(Held))
    {
      if block == null { return; }
      if mAllocatedListHead == null { return; }
      ReturnedBlockSplits(Made, Blocks, Held, block);
      TakeBack(block);
      Held := Held - {block};
      mfreeBlocks := mfreeBlocks + 1;
    }
  }
}
