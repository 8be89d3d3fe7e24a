/** The intrusive doubly linked list (modula/Components/DLManager).

    A node carries two independent pairs of links.  Linker 0 threads the resources of
    one request; linker 1 threads the nodes that compete in one table list.  Every
    operation is proved against the operation on the sequence of nodes, and its frame
    shows that it writes the links of its own linker only. */
module DoublyLinked {
  import opened PolicyOrder
  import opened ResourceData
  import opened Wrappers

  const REQUEST_DL_NR := 0
  const COCO_TABLE_DL_NR := 1

  datatype ErrCode = RC_SUCCESS | RC_INVALID_VALUE | RC_BAD_ARG

  datatype DLOptions = INSERT_START | INSERT_END | INSERT_N_NODE_START

  /** ResIterable: `next0`/`prev0` are mLinkages[0], `next1`/`prev1` are mExtraLinks[0]. */
  class ResIterable {
    const mData: Resource
    var next0: ResIterable?
    var prev0: ResIterable?
    var next1: ResIterable?
    var prev1: ResIterable?

    constructor (data: Resource)
      ensures mData == data && next0 == prev0 == next1 == prev1 == null
    {
      mData := data;
      next0, prev0, next1, prev1 := null, null, null, null;
    }

    function GetNextPtr(linker: int): ResIterable?
      reads On(0, linker, {this})`next0, On(1, linker, {this})`next1
    {
      if linker < 0 || linker >= 2 then null else if linker < 1 then next0 else next1
    }

    function GetPrevPtr(linker: int): ResIterable?
      reads On(0, linker, {this})`prev0, On(1, linker, {this})`prev1
    {
      if linker < 0 || linker >= 2 then null else if linker < 1 then prev0 else prev1
    }

    method SetNextLinkage(linker: int, node: ResIterable?)
      modifies On(0, linker, {this})`next0, On(1, linker, {this})`next1
      ensures 0 <= linker < 2 ==> GetNextPtr(linker) == node
      ensures forall n: ResIterable :: old(allocated(n)) && n != this ==> n.GetNextPtr(linker) == old(n.GetNextPtr(linker))
      ensures forall n: ResIterable :: old(allocated(n)) ==> n.GetPrevPtr(linker) == old(n.GetPrevPtr(linker))
    {
      if linker < 0 || linker >= 2 { return; }
      if linker < 1 { next0 := node; } else { next1 := node; }
    }

    method SetPrevLinkage(linker: int, node: ResIterable?)
      modifies On(0, linker, {this})`prev0, On(1, linker, {this})`prev1
      ensures 0 <= linker < 2 ==> GetPrevPtr(linker) == node
      ensures forall n: ResIterable :: old(allocated(n)) && n != this ==> n.GetPrevPtr(linker) == old(n.GetPrevPtr(linker))
      ensures forall n: ResIterable :: old(allocated(n)) ==> n.GetNextPtr(linker) == old(n.GetNextPtr(linker))
    {
      if linker < 0 || linker >= 2 { return; }
      if linker < 1 { prev0 := node; } else { prev1 := node; }
    }
  }

  /** `nodes` if the linker in use is `linker`, otherwise nothing: the frame of an
      operation never contains the links of the other linker. */
  ghost function On(linker: int, inUse: int, nodes: set<ResIterable>): set<ResIterable> {
    if linker == inUse then nodes else {}
  }

  ghost function AsSet(nodes: seq<ResIterable>): set<ResIterable> {
    set n | n in nodes
  }

  ghost predicate NextAt(nodes: seq<ResIterable>, l: int, i: int)
    requires 0 <= i < |nodes|
    reads On(0, l, {nodes[i]})`next0, On(1, l, {nodes[i]})`next1
  {
    nodes[i].GetNextPtr(l) == if i + 1 < |nodes| then nodes[i + 1] else null
  }

  ghost predicate PrevAt(nodes: seq<ResIterable>, l: int, i: int)
    requires 0 <= i < |nodes|
    reads On(0, l, {nodes[i]})`prev0, On(1, l, {nodes[i]})`prev1
  {
    nodes[i].GetPrevPtr(l) == if i > 0 then nodes[i - 1] else null
  }

  /** Threaded, except that the forward link at `n` and the backward link at `p` may
      have been redirected. */
  ghost predicate LinkedExcept(nodes: seq<ResIterable>, l: int, n: int, p: int)
    reads On(0, l, AsSet(nodes))`next0, On(0, l, AsSet(nodes))`prev0
    reads On(1, l, AsSet(nodes))`next1, On(1, l, AsSet(nodes))`prev1
  {
    && Distinct(nodes)
    && (forall i :: 0 <= i < |nodes| && i != n ==> NextAt(nodes, l, i))
    && (forall i :: 0 <= i < |nodes| && i != p ==> PrevAt(nodes, l, i))
  }

  /** The links of linker `l` thread exactly `nodes`, forwards and backwards. */
  ghost predicate Linked(nodes: seq<ResIterable>, l: int)
    reads On(0, l, AsSet(nodes))`next0, On(0, l, AsSet(nodes))`prev0
    reads On(1, l, AsSet(nodes))`next1, On(1, l, AsSet(nodes))`prev1
  {
    LinkedExcept(nodes, l, -1, -1)
  }

  lemma LinkedIn(was: seq<ResIterable>, l: int, k: int, node: ResIterable, nodes: seq<ResIterable>)
    requires 0 <= k <= |was| && node !in was && LinkedExcept(was, l, k - 1, k)
    requires nodes == was[..k] + [node] + was[k..]
    requires k > 0 ==> was[k - 1].GetNextPtr(l) == node
    requires k < |was| ==> was[k].GetPrevPtr(l) == node
    requires node.GetNextPtr(l) == (if k < |was| then was[k] else null)
    requires node.GetPrevPtr(l) == (if k > 0 then was[k - 1] else null)
    ensures Linked(nodes, l)
  {
    forall i | 0 <= i < |nodes| ensures NextAt(nodes, l, i) && PrevAt(nodes, l, i) {
      if i != k {
        var j := if i < k then i else i - 1;
        assert nodes[i] == was[j];
        assert j != k - 1 ==> NextAt(was, l, j);
        assert j != k ==> PrevAt(was, l, j);
      }
    }
  }

  lemma EndsWithout(was: seq<ResIterable>, k: int, nodes: seq<ResIterable>)
    requires 0 <= k < |was| && nodes == was[..k] + was[k + 1..]
    ensures |nodes| == |was| - 1
    ensures nodes != [] ==> nodes[0] == (if k > 0 then was[0] else was[1])
    ensures nodes != [] ==> nodes[|nodes| - 1] == (if k + 1 < |was| then was[|was| - 1] else was[k - 1])
  {
  }

  lemma LinkedOut(was: seq<ResIterable>, l: int, k: int, nodes: seq<ResIterable>)
    requires 0 <= k < |was| && nodes == was[..k] + was[k + 1..]
    requires LinkedExcept(was, l, k - 1, k + 1)
    requires k > 0 ==> was[k - 1].GetNextPtr(l) == (if k + 1 < |was| then was[k + 1] else null)
    requires k + 1 < |was| ==> was[k + 1].GetPrevPtr(l) == (if k > 0 then was[k - 1] else null)
    ensures Linked(nodes, l)
  {
    forall i | 0 <= i < |nodes| ensures NextAt(nodes, l, i) && PrevAt(nodes, l, i) {
      var j := if i < k then i else i + 1;
      assert nodes[i] == was[j];
      assert j != k - 1 ==> NextAt(was, l, j);
      assert j != k + 1 ==> PrevAt(was, l, j);
    }
  }

  ghost predicate Matches(cmpPolicy: Option<(ResIterable, ResIterable) -> bool>, a: ResIterable, b: ResIterable) {
    if cmpPolicy.None? then a == b else cmpPolicy.value(a, b)
  }

  class DLManager {
    const mLinkerInUse: int
    var mHead: ResIterable?
    var mTail: ResIterable?
    var mSize: int
    ghost var Nodes: seq<ResIterable>

    ghost predicate Valid()
      reads this
      reads On(0, mLinkerInUse, AsSet(Nodes))`next0, On(0, mLinkerInUse, AsSet(Nodes))`prev0
      reads On(1, mLinkerInUse, AsSet(Nodes))`next1, On(1, mLinkerInUse, AsSet(Nodes))`prev1
    {
      && 0 <= mLinkerInUse < 2
      && mSize == |Nodes|
      && mHead == (if Nodes == [] then null else Nodes[0])
      && mTail == (if Nodes == [] then null else Nodes[|Nodes| - 1])
      && Linked(Nodes, mLinkerInUse)
    }

    /** The nodes whose links (of linker `l` only) an operation on `node` may write. */
    ghost function Touched(l: int, node: ResIterable?): set<ResIterable>
      reads this
    {
      On(l, mLinkerInUse, AsSet(Nodes) + if node == null then {} else {node})
    }

    constructor (linkerInUse: int)
      requires 0 <= linkerInUse < 2
      ensures Valid() && Nodes == [] && mLinkerInUse == linkerInUse
    {
      mLinkerInUse := linkerInUse;
      mHead, mTail, mSize := null, null, 0;
      Nodes := [];
    }

    /** Insert at the end. */
    method Insert(node: ResIterable?) returns (rc: ErrCode)
      requires Valid() && (node == null || node !in Nodes)
      modifies this, Touched(0, node)`next0, Touched(0, node)`prev0, Touched(1, node)`next1, Touched(1, node)`prev1
      ensures Valid()
      ensures rc == if node == null then RC_INVALID_VALUE else RC_SUCCESS
      ensures Nodes == if node == null then old(Nodes) else old(Nodes) + [node]
    {
      if node == null { return RC_INVALID_VALUE; }
      var tail := mTail;
      if tail != null {
        mTail := node;
        node.SetNextLinkage(mLinkerInUse, null);
        node.SetPrevLinkage(mLinkerInUse, tail);
        tail.SetNextLinkage(mLinkerInUse, node);
      } else {
        mHead := node;
        mTail := node;
        node.SetNextLinkage(mLinkerInUse, null);
        node.SetPrevLinkage(mLinkerInUse, null);
      }
      mSize := mSize + 1;
      Nodes := Nodes + [node];
      ghost var was, l := old(Nodes), mLinkerInUse;
      assert LinkedExcept(was, l, |was| - 1, |was|) by {
        forall i | 0 <= i < |was| && i != |was| - 1 ensures NextAt(was, l, i) { assert old(NextAt(was, l, i)); }
        forall i | 0 <= i < |was| && i != |was| ensures PrevAt(was, l, i) { assert old(PrevAt(was, l, i)); }
      }
      LinkedIn(was, l, |was|, node, Nodes);
      return RC_SUCCESS;
    }

    /** Insert at the head (option INSERT_START). */
    method InsertStart(node: ResIterable) returns (rc: ErrCode)
      requires Valid() && node !in Nodes
      modifies this, Touched(0, node)`next0, Touched(0, node)`prev0, Touched(1, node)`next1, Touched(1, node)`prev1
      ensures Valid() && rc == RC_SUCCESS && Nodes == [node] + old(Nodes)
    {
      var head := mHead;
      if head != null {
        mHead := node;
        node.SetNextLinkage(mLinkerInUse, head);
        node.SetPrevLinkage(mLinkerInUse, null);
        head.SetPrevLinkage(mLinkerInUse, node);
      } else {
        node.SetPrevLinkage(mLinkerInUse, null);
        node.SetNextLinkage(mLinkerInUse, null);
        mHead := node;
        mTail := node;
      }
      mSize := mSize + 1;
      Nodes := [node] + Nodes;
      ghost var was, l := old(Nodes), mLinkerInUse;
      assert LinkedExcept(was, l, -1, 0) by {
        forall i | 0 <= i < |was| && i != -1 ensures NextAt(was, l, i) { assert old(NextAt(was, l, i)); }
        forall i | 0 <= i < |was| && i != 0 ensures PrevAt(was, l, i) { assert old(PrevAt(was, l, i)); }
      }
      LinkedIn(was, l, 0, node, Nodes);
      return RC_SUCCESS;
    }

    /** Splice `node` in front of the node at (0-based) position `k`: the four writes
        shared by INSERT_N_NODE_START and the policy insertion. */
    method Splice(prevNode: ResIterable, node: ResIterable, curNode: ResIterable, ghost k: int)
      requires Valid() && node !in Nodes && 0 < k < |Nodes|
      requires prevNode == Nodes[k - 1] && curNode == Nodes[k]
      modifies Touched(0, node)`next0, Touched(0, node)`prev0, Touched(1, node)`next1, Touched(1, node)`prev1
      ensures LinkedExcept(Nodes, mLinkerInUse, k - 1, k)
      ensures prevNode.GetNextPtr(mLinkerInUse) == node && curNode.GetPrevPtr(mLinkerInUse) == node
      ensures node.GetNextPtr(mLinkerInUse) == curNode && node.GetPrevPtr(mLinkerInUse) == prevNode
    {
      prevNode.SetNextLinkage(mLinkerInUse, node);
      node.SetPrevLinkage(mLinkerInUse, prevNode);
      curNode.SetPrevLinkage(mLinkerInUse, node);
      node.SetNextLinkage(mLinkerInUse, curNode);
      forall i | 0 <= i < |Nodes| && i != k - 1 ensures NextAt(Nodes, mLinkerInUse, i) {
        assert old(NextAt(Nodes, mLinkerInUse, i)) && Nodes[i] != prevNode;
      }
      forall i | 0 <= i < |Nodes| && i != k ensures PrevAt(Nodes, mLinkerInUse, i) {
        assert old(PrevAt(Nodes, mLinkerInUse, i)) && Nodes[i] != curNode;
      }
    }

    method Relink(prevNode: ResIterable, node: ResIterable, curNode: ResIterable, ghost k: int)
      requires Valid() && node !in Nodes && 0 < k < |Nodes|
      requires prevNode == Nodes[k - 1] && curNode == Nodes[k]
      modifies this, Touched(0, node)`next0, Touched(0, node)`prev0, Touched(1, node)`next1, Touched(1, node)`prev1
      ensures Valid() && Nodes == old(Nodes)[..k] + [node] + old(Nodes)[k..]
    {
      Splice(prevNode, node, curNode, k);
      mSize := mSize + 1;
      Nodes := Nodes[..k] + [node] + Nodes[k..];
      LinkedIn(old(Nodes), mLinkerInUse, k, node, Nodes);
    }

    /** Insert with an option.  Position `n` counts from 1; `n == 0` is the head too. */
    method InsertOption(node: ResIterable?, option: DLOptions, n: int) returns (rc: ErrCode)
      requires Valid() && (node == null || node !in Nodes)
      modifies this, Touched(0, node)`next0, Touched(0, node)`prev0, Touched(1, node)`next1, Touched(1, node)`prev1
      ensures Valid()
      ensures node == null ==> rc == RC_INVALID_VALUE
      ensures node != null ==>
        rc == if option == INSERT_N_NODE_START && (n < 0 || n > |old(Nodes)| + 1) then RC_BAD_ARG else RC_SUCCESS
      ensures rc != RC_SUCCESS ==> Nodes == old(Nodes)
      ensures rc == RC_SUCCESS ==>
        var k := if option == INSERT_START || (option == INSERT_N_NODE_START && n == 0) then 0
                 else if option == INSERT_END then |old(Nodes)| else n - 1;
        Nodes == old(Nodes)[..k] + [node] + old(Nodes)[k..]
    {
      if node == null { return RC_INVALID_VALUE; }
      match option {
        case INSERT_START =>
          rc := InsertStart(node);
        case INSERT_END =>
          rc := Insert(node);
        case INSERT_N_NODE_START =>
          if n < 0 { return RC_BAD_ARG; }
          if n == 0 { rc := InsertStart(node); return; }
          if n == mSize + 1 { rc := Insert(node); return; }
          if n > mSize { return RC_BAD_ARG; }
          var curPos := 1;
          var curNode := mHead;
          while curNode != null
            invariant 1 <= curPos <= n <= |Nodes|
            invariant curNode == Nodes[curPos - 1]
            decreases n - curPos
          {
            if curPos == n { break; }
            assert NextAt(Nodes, mLinkerInUse, curPos - 1);
            curNode := curNode.GetNextPtr(mLinkerInUse);
            curPos := curPos + 1;
          }
          assert PrevAt(Nodes, mLinkerInUse, n - 1);
          var prevNode := curNode.GetPrevPtr(mLinkerInUse);
          if prevNode == null { rc := InsertStart(node); return; }
          Relink(prevNode, node, curNode, n - 1);
          rc := RC_SUCCESS;
      }
    }

    /** Insert in front of the first node for which the policy callback says yes, else
        at the end; `k` is the position taken. */
    method InsertWithPolicy(node: ResIterable?, policyCB: (ResIterable, ResIterable) -> bool)
      returns (rc: ErrCode, ghost k: int)
      requires Valid() && (node == null || node !in Nodes)
      modifies this, Touched(0, node)`next0, Touched(0, node)`prev0, Touched(1, node)`next1, Touched(1, node)`prev1
      ensures Valid()
      ensures node == null ==> rc == RC_INVALID_VALUE && Nodes == old(Nodes)
      ensures node != null ==> rc == RC_SUCCESS
      ensures node != null ==> 0 <= k <= |old(Nodes)| && Nodes == old(Nodes)[..k] + [node] + old(Nodes)[k..]
      ensures node != null ==> forall j :: 0 <= j < k ==> !policyCB(node, old(Nodes)[j])
      ensures node != null && k < |old(Nodes)| ==> policyCB(node, old(Nodes)[k])
    {
      k := 0;
      if node == null { return RC_INVALID_VALUE, 0; }
      var currNode := mHead;
      while currNode != null
        invariant 0 <= k <= |Nodes|
        invariant currNode == if k < |Nodes| then Nodes[k] else null
        invariant forall j :: 0 <= j < k ==> !policyCB(node, Nodes[j])
        decreases |Nodes| - k
      {
        assert NextAt(Nodes, mLinkerInUse, k) && PrevAt(Nodes, mLinkerInUse, k);
        var currNext := currNode.GetNextPtr(mLinkerInUse);
        if policyCB(node, currNode) {
          var prevNode := currNode.GetPrevPtr(mLinkerInUse);
          if prevNode == null {
            rc := InsertStart(node);
          } else {
            Relink(prevNode, node, currNode, k);
            rc := RC_SUCCESS;
          }
          return;
        }
        currNode := currNext;
        k := k + 1;
      }
      rc := Insert(node);
    }

    /** Redirect the neighbours of the node at position `k` to each other. */
    method Bypass(node: ResIterable, ghost k: int)
      requires Valid() && 0 <= k < |Nodes| && Nodes[k] == node
      modifies `mHead, `mTail
      modifies Touched(0, node)`next0, Touched(0, node)`prev0, Touched(1, node)`next1, Touched(1, node)`prev1
      ensures LinkedExcept(Nodes, mLinkerInUse, k - 1, k + 1)
      ensures k > 0 ==> Nodes[k - 1].GetNextPtr(mLinkerInUse) == (if k + 1 < |Nodes| then Nodes[k + 1] else null)
      ensures k + 1 < |Nodes| ==> Nodes[k + 1].GetPrevPtr(mLinkerInUse) == (if k > 0 then Nodes[k - 1] else null)
      ensures mHead == if k > 0 then Nodes[0] else if |Nodes| > 1 then Nodes[1] else null
      ensures mTail == if k + 1 < |Nodes| then Nodes[|Nodes| - 1] else if k > 0 then Nodes[k - 1] else null
    {
      assert NextAt(Nodes, mLinkerInUse, k) && PrevAt(Nodes, mLinkerInUse, k);
      if node.GetPrevPtr(mLinkerInUse) != null {
        var prev := node.GetPrevPtr(mLinkerInUse);
        prev.SetNextLinkage(mLinkerInUse, node.GetNextPtr(mLinkerInUse));
      } else {
        mHead := node.GetNextPtr(mLinkerInUse);
        if mHead == null { mTail := null; }
      }
      if node.GetNextPtr(mLinkerInUse) != null {
        var next := node.GetNextPtr(mLinkerInUse);
        next.SetPrevLinkage(mLinkerInUse, node.GetPrevPtr(mLinkerInUse));
      } else {
        mTail := node.GetPrevPtr(mLinkerInUse);
        if mTail == null { mHead := null; }
      }
      forall i | 0 <= i < |Nodes| && i != k - 1 ensures NextAt(Nodes, mLinkerInUse, i) {
        assert old(NextAt(Nodes, mLinkerInUse, i)) && (k > 0 ==> Nodes[i] != Nodes[k - 1]);
      }
      forall i | 0 <= i < |Nodes| && i != k + 1 ensures PrevAt(Nodes, mLinkerInUse, i) {
        assert old(PrevAt(Nodes, mLinkerInUse, i)) && (k + 1 < |Nodes| ==> Nodes[i] != Nodes[k + 1]);
      }
    }

    /** After the neighbours are redirected, the rest of the list is threaded. */
    method Bypassed(node: ResIterable, ghost k: int, ghost rest: seq<ResIterable>)
      requires Valid() && 0 <= k < |Nodes| && Nodes[k] == node && rest == Nodes[..k] + Nodes[k + 1..]
      modifies `mHead, `mTail
      modifies Touched(0, node)`next0, Touched(0, node)`prev0, Touched(1, node)`next1, Touched(1, node)`prev1
      ensures Linked(rest, mLinkerInUse) && |rest| == |Nodes| - 1
      ensures mHead == (if rest == [] then null else rest[0])
      ensures mTail == (if rest == [] then null else rest[|rest| - 1])
    {
      Bypass(node, k);
      LinkedOut(Nodes, mLinkerInUse, k, rest);
      EndsWithout(Nodes, k, rest);
    }

    /** The node at position `k` leaves the list. */
    method TakeOut(node: ResIterable, ghost k: int)
      requires Valid() && 0 <= k < |Nodes| && Nodes[k] == node
      modifies this, Touched(0, node)`next0, Touched(0, node)`prev0, Touched(1, node)`next1, Touched(1, node)`prev1
      ensures Valid() && Nodes == old(Nodes[..k] + Nodes[k + 1..])
    {
      ghost var rest := Nodes[..k] + Nodes[k + 1..];
      Bypassed(node, k, rest);
      mSize := mSize - 1;
      Nodes := rest;
      assert Linked(Nodes, mLinkerInUse);
    }

    method DeleteNode(node: ResIterable?) returns (rc: ErrCode)
      requires Valid() && (node == null || node in Nodes)
      modifies this, Touched(0, node)`next0, Touched(0, node)`prev0, Touched(1, node)`next1, Touched(1, node)`prev1
      ensures Valid()
      ensures rc == if node == null then RC_INVALID_VALUE else RC_SUCCESS
      ensures node == null ==> Nodes == old(Nodes)
      ensures node != null ==> Nodes == Without<ResIterable>(old(Nodes), node)
    {
      if node == null { return RC_INVALID_VALUE; }
      ghost var k :| 0 <= k < |Nodes| && Nodes[k] == node;
      WithoutAt(Nodes, k);
      TakeOut(node, k);
      return RC_SUCCESS;
    }

    method IsNodeNth(n: int, node: ResIterable?) returns (b: bool)
      requires Valid()
      ensures Valid() && (b <==> 0 <= n < |Nodes| && Nodes[n] == node)
    {
      var position := 0;
      var currNode := mHead;
      while currNode != null
        invariant 0 <= position <= |Nodes| && (0 <= n ==> position <= n)
        invariant currNode == if position < |Nodes| then Nodes[position] else null
        decreases |Nodes| - position
      {
        if position == n { return currNode == node; }
        assert NextAt(Nodes, mLinkerInUse, position);
        currNode := currNode.GetNextPtr(mLinkerInUse);
        position := position + 1;
      }
      return false;
    }

    method GetNth(n: int) returns (node: ResIterable?)
      requires Valid()
      ensures Valid() && node == if 0 <= n < |Nodes| then Nodes[n] else null
    {
      var position := 0;
      var currNode := mHead;
      while currNode != null
        invariant 0 <= position <= |Nodes| && (0 <= n ==> position <= n)
        invariant currNode == if position < |Nodes| then Nodes[position] else null
        decreases |Nodes| - position
      {
        if position == n { return currNode; }
        assert NextAt(Nodes, mLinkerInUse, position);
        currNode := currNode.GetNextPtr(mLinkerInUse);
        position := position + 1;
      }
      return null;
    }

    /** Do both lists have the same length and match node by node? Without a callback the
        nodes themselves must be the same. */
    method MatchAgainst(target: DLManager?, cmpPolicy: Option<(ResIterable, ResIterable) -> bool>) returns (b: bool)
      requires Valid() && (target != null ==> target.Valid())
      ensures b <==> target != null && |Nodes| == |target.Nodes|
                     && forall i :: 0 <= i < |Nodes| ==> Matches(cmpPolicy, Nodes[i], target.Nodes[i])
    {
      if target == null { return false; }
      if mSize != target.mSize { return false; }
      var srcCur, targetCur := mHead, target.mHead;
      ghost var k := 0;
      while srcCur != null && targetCur != null
        invariant 0 <= k <= |Nodes|
        invariant srcCur == if k < |Nodes| then Nodes[k] else null
        invariant targetCur == if k < |Nodes| then target.Nodes[k] else null
        invariant forall i :: 0 <= i < k ==> Matches(cmpPolicy, Nodes[i], target.Nodes[i])
        decreases |Nodes| - k
      {
        if cmpPolicy.None? {
          if srcCur != targetCur { return false; }
        } else {
          if !cmpPolicy.value(srcCur, targetCur) { return false; }
        }
        assert NextAt(Nodes, mLinkerInUse, k) && NextAt(target.Nodes, target.mLinkerInUse, k);
        srcCur := srcCur.GetNextPtr(mLinkerInUse);
        targetCur := targetCur.GetNextPtr(target.mLinkerInUse);
        k := k + 1;
      }
      return true;
    }
  }
}
