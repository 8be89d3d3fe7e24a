/** The concurrency coordinator table (resource-tuner/core/CocoTable.cpp).

    The table's linked lists, the shared priority cells and the callbacks are the
    running state; `history` records, per resource, which nodes entered and left.
    `Valid()` says that the heap is exactly what the arbitration model reaches on that
    history, so every theorem about runs holds of the table in every reachable state. */
module CoordinatorTable {
  import opened PolicyOrder
  import opened Arbitration
  import opened ResourceData
  import opened DoublyLinked
  import opened Wrappers
  import V = RequestVerification

  function NodeKey(n: ResIterable): int {
    ComparedValue(n.mData)
  }

  function ComparHBetter(newNode: ResIterable, targetNode: ResIterable): bool {
    NodeKey(newNode) > NodeKey(targetNode)
  }

  function ComparLBetter(newNode: ResIterable, targetNode: ResIterable): bool {
    NodeKey(newNode) < NodeKey(targetNode)
  }

  /** The value at stake in `a` is at most that in `b`, told by the values themselves: it is the
      only one, or the second of several, or -1 where there is none. */
  ghost predicate AtMost(a: seq<int>, b: seq<int>) {
    && (|a| == 0 && |b| == 1 ==> -1 <= b[0])
    && (|a| == 0 && |b| >= 2 ==> -1 <= b[1])
    && (|a| == 1 && |b| == 0 ==> a[0] <= -1)
    && (|a| == 1 && |b| == 1 ==> a[0] <= b[0])
    && (|a| == 1 && |b| >= 2 ==> a[0] <= b[1])
    && (|a| >= 2 && |b| == 0 ==> a[1] <= -1)
    && (|a| >= 2 && |b| == 1 ==> a[1] <= b[0])
    && (|a| >= 2 && |b| >= 2 ==> a[1] <= b[1])
  }

  lemma KeysCompareValues(m: ResIterable, n: ResIterable)
    ensures NodeKey(m) <= NodeKey(n) <==> AtMost(m.mData.mValues, n.mData.mValues)
  {
  }

  /** What each policy promises of the node in force, told by the order of arrival and the
      values: the latest, the earliest, the earliest of the largest or of the smallest value. */
  ghost predicate BestOf(policy: Policy, live: seq<ResIterable>, w: int) {
    && 0 <= w < |live|
    && match policy
       case INSTANT_APPLY => w == |live| - 1
       case LAZY_APPLY => w == 0
       case PASS_THROUGH => w == 0
       case HIGHER_BETTER =>
         && (forall j :: 0 <= j < |live| ==> AtMost(live[j].mData.mValues, live[w].mData.mValues))
         && (forall j :: 0 <= j < w ==> !AtMost(live[w].mData.mValues, live[j].mData.mValues))
       case LOWER_BETTER =>
         && (forall j :: 0 <= j < |live| ==> AtMost(live[w].mData.mValues, live[j].mData.mValues))
         && (forall j :: 0 <= j < w ==> !AtMost(live[j].mData.mValues, live[w].mData.mValues))
  }

  lemma WinnerIsBest(policy: Policy, live: seq<ResIterable>, w: int)
    ensures Winner(policy, NodeKey, live, w) <==> BestOf(policy, live, w)
  {
    if 0 <= w < |live| {
      forall j | 0 <= j < |live| ensures NodeKey(live[j]) <= NodeKey(live[w]) <==> AtMost(live[j].mData.mValues, live[w].mData.mValues) {
        KeysCompareValues(live[j], live[w]);
      }
      forall j | 0 <= j < |live| ensures NodeKey(live[w]) <= NodeKey(live[j]) <==> AtMost(live[w].mData.mValues, live[j].mData.mValues) {
        KeysCompareValues(live[w], live[j]);
      }
    }
  }

  /** The newcomer passes exactly the nodes it beats: all, none, those of smaller, or those of
      larger value. */
  ghost predicate Beats(policy: Policy, x: ResIterable, y: ResIterable) {
    match policy
    case INSTANT_APPLY => true
    case LAZY_APPLY => false
    case PASS_THROUGH => false
    case HIGHER_BETTER => !AtMost(x.mData.mValues, y.mData.mValues)
    case LOWER_BETTER => !AtMost(y.mData.mValues, x.mData.mValues)
  }

  /** `joined` is the list with `x` in front of its first node, the `k`-th, that `x` beats. */
  ghost predicate JoinedAt(policy: Policy, list: seq<ResIterable>, x: ResIterable, k: int, joined: seq<ResIterable>) {
    && 0 <= k <= |list| && joined == list[..k] + [x] + list[k..]
    && (k < |list| ==> Beats(policy, x, list[k]))
    && forall j :: 0 <= j < k ==> !Beats(policy, x, list[j])
  }

  /** operator[] of the flat id maps: an id that was never registered reads as 0. */
  function Flat(m: map<int, nat>, id: int): nat {
    if id in m then m[id] else 0
  }

  /** Exactly the first `i` ids have an index. */
  ghost predicate Covers(ids: seq<int>, i: nat, m: map<int, nat>)
    requires i <= |ids|
  {
    forall id :: id in m <==> id in ids[..i]
  }

  /** The first `i` ids are numbered in order. */
  ghost predicate Numbers(ids: seq<int>, i: nat, m: map<int, nat>)
    requires i <= |ids|
  {
    |m| == i && forall k :: 0 <= k < i ==> ids[k] in m && m[ids[k]] == k
  }

  /** Every id has an index, and distinct ids are numbered in order. */
  ghost predicate FlatMapOf(ids: seq<int>, m: map<int, nat>) {
    && (forall id :: id in m <==> id in ids)
    && (Distinct(ids) ==> forall k :: 0 <= k < |ids| ==> ids[k] in m && m[ids[k]] == k)
  }

  lemma CoversStep(ids: seq<int>, i: nat, m: map<int, nat>)
    requires i < |ids| && Covers(ids, i, m)
    ensures Covers(ids, i + 1, m[ids[i] := |m|])
    ensures Distinct(ids) ==> ids[i] !in m
  {
    assert ids[..i + 1] == ids[..i] + [ids[i]];
    var id := ids[i];
    if id in m {
      assert id in ids[..i];
    }
  }

  lemma OneMoreKey(m: map<int, nat>, id: int, index: nat)
    requires id !in m
    ensures |m[id := index]| == |m| + 1
  {
    assert m[id := index].Keys == m.Keys + {id};
  }

  lemma NumbersStep(ids: seq<int>, i: nat, m: map<int, nat>)
    requires i < |ids| && Numbers(ids, i, m) && ids[i] !in m
    ensures Numbers(ids, i + 1, m[ids[i] := i])
  {
    OneMoreKey(m, ids[i], i);
  }

  /** The part of a tune request the table works on; its resources hang on linker 0. */
  class Request {
    const mResourceList: DLManager?
    const mPriority: int
    const mDuration: int

    constructor (resources: DLManager?, priority: int, duration: int)
      ensures mResourceList == resources && mPriority == priority && mDuration == duration
    {
      mResourceList, mPriority, mDuration := resources, priority, duration;
    }
  }

  datatype Callback = Apply(node: ResIterable) | Tear(node: ResIterable)

  /** No list object occurs twice in the table. */
  ghost predicate AllDifferent(table: seq<seq<DLManager>>) {
    forall r, s, q, t ::
      0 <= r < |table| && 0 <= s < |table[r]| && 0 <= q < |table| && 0 <= t < |table[q]| && (r != q || s != t) ==>
        table[r][s] != table[q][t]
  }

  class CocoTable {
    // the resource registry and the device mode, fixed while the table lives
    const mMappings: map<int, int>
    const mConfigs: seq<ResConfInfo>
    const mCurrMode: bv8

    const mFlatClusterMap: map<int, nat>
    const mFlatCGroupMap: map<int, nat>
    const mCocoTable: seq<seq<DLManager>>
    /** The target: how many instances there are, and the ids the flat maps were built from. */
    ghost const mCores: nat
    ghost const mClusters: nat
    ghost const mCGroups: nat
    ghost const mClusterIDs: seq<int>
    ghost const mCGroupIDs: seq<int>
    var mCurrentlyAppliedPriority: seq<int>

    /** Per resource and instance, the last callback that ran. */
    ghost var force: seq<seq<Force<ResIterable>>>
    ghost var history: seq<seq<Op<ResIterable>>>
    /** The callbacks that ran for pass-through resources, which have no list. */
    ghost var passed: seq<Callback>
    /** The linked nodes, each with the priority of the list it is in. */
    ghost var home: map<ResIterable, int>

    // ----- where a resource lives ------------------------------------------------

    predicate Registered(res: Resource) {
      res.mResCode in mMappings && 0 <= mMappings[res.mResCode] < |mConfigs|
    }

    function GetResConf(res: Resource): ResConfInfo
      requires Registered(res)
    {
      mConfigs[mMappings[res.mResCode]]
    }

    function GetCocoTablePrimaryIndex(res: Resource): int {
      if Registered(res) then mMappings[res.mResCode] else -1
    }

    function GetCocoTableSecondaryIndex(res: Resource, priority: int): int {
      if !Registered(res) then -1
      else match GetResConf(res).mApplyType
      case APPLY_CORE =>
        res.GetCoreValue() * TOTAL_PRIORITIES + priority
      case APPLY_CLUSTER =>
        if res.GetClusterValue() == -1 then -1
        else Flat(mFlatClusterMap, res.GetClusterValue()) * TOTAL_PRIORITIES + priority
      case APPLY_CGROUP =>
        if res.GetValueAt(0) == -1 then -1
        else Flat(mFlatCGroupMap, res.GetValueAt(0)) * TOTAL_PRIORITIES + priority
      case APPLY_GLOBAL => priority
    }

    predicate InRange(primaryIndex: int, secondaryIndex: int) {
      0 <= primaryIndex < |mCocoTable| && 0 <= secondaryIndex < |mCocoTable[primaryIndex]|
    }

    /** Will the node take part in the arbitration of its resource? */
    ghost predicate Tracked(n: ResIterable, priority: int) {
      && Registered(n.mData)
      && GetResConf(n.mData).mPolicy != PASS_THROUGH
      && InRange(GetCocoTablePrimaryIndex(n.mData), GetCocoTableSecondaryIndex(n.mData, priority))
    }

    /** `h` names exactly the linked nodes, and each one is in the list it belongs to. */
    ghost predicate HomeIs(h: map<ResIterable, int>)
      reads Lists()
    {
      && (forall r, s {:trigger KnownAt(h, r, s)} :: InRange(r, s) ==> KnownAt(h, r, s))
      && (forall n {:trigger HomeAt(h, n)} :: n in h ==> HomeAt(h, n))
    }

    ghost predicate KnownAt(h: map<ResIterable, int>, r: int, s: int)
      requires InRange(r, s)
      reads mCocoTable[r][s]
    {
      forall n :: n in mCocoTable[r][s].Nodes ==> n in h && h[n] == s % TOTAL_PRIORITIES
    }

    /** The list of the node at this priority. */
    ghost function ListOf(n: ResIterable, priority: int): DLManager
      requires Tracked(n, priority)
    {
      mCocoTable[GetCocoTablePrimaryIndex(n.mData)][GetCocoTableSecondaryIndex(n.mData, priority)]
    }

    ghost predicate HomeAt(h: map<ResIterable, int>, n: ResIterable)
      requires n in h
      reads if Tracked(n, h[n]) then {ListOf(n, h[n])} else {}
    {
      && Tracked(n, h[n])
      && ListOf(n, h[n]) in Lists() && n in ListOf(n, h[n]).Nodes
    }

    /** The entries a request's nodes contribute. */
    ghost function Homes(nodes: seq<ResIterable>, priority: int): map<ResIterable, int> {
      map n | n in nodes && Tracked(n, priority) :: priority
    }

    ghost function Instance(n: ResIterable): nat {
      var i := GetCocoTableSecondaryIndex(n.mData, 0);
      if i < 0 then 0 else i / TOTAL_PRIORITIES
    }

    // ----- validity -------------------------------------------------------------------

    ghost function Lists(): set<DLManager> {
      set r, s | 0 <= r < |mCocoTable| && 0 <= s < |mCocoTable[r]| :: mCocoTable[r][s]
    }

    ghost function Nodes(): set<ResIterable>
      reads Lists()
    {
      set d, n | d in Lists() && n in d.Nodes :: n
    }

    ghost function Cfg(r: int): Config
      requires 0 <= r < |mConfigs| && r < |mCocoTable|
    {
      Config(mConfigs[r].mPolicy, mConfigs[r].mModes & mCurrMode != 0, |mCocoTable[r]| / TOTAL_PRIORITIES)
    }

    ghost predicate Shape() {
      && |mConfigs| == |mCocoTable|
      && (forall r :: 0 <= r < |mCocoTable| ==> |mCocoTable[r]| % TOTAL_PRIORITIES == 0)
      && AllDifferent(mCocoTable)
    }

    /** List `s` of resource `r`: well linked, and holding only nodes that belong there. */
    ghost predicate ListAt(r: int, s: int)
      requires InRange(r, s)
      reads mCocoTable[r][s], AsSet(mCocoTable[r][s].Nodes)`next1, AsSet(mCocoTable[r][s].Nodes)`prev1
    {
      var d := mCocoTable[r][s];
      && d.mLinkerInUse == COCO_TABLE_DL_NR && d.Valid()
      && forall n :: n in d.Nodes ==> GetCocoTablePrimaryIndex(n.mData) == r && Instance(n) == s / TOTAL_PRIORITIES
    }

    /** The lists, the priority cell and the callbacks of resource `r` are those of `row`. */
    ghost predicate RowIs(r: int, row: Row<ResIterable>)
      requires CellsShaped() && 0 <= r < |mCocoTable|
      reads this, Lists()
    {
      && |row.lists| == |mCocoTable[r]|
      && row.cur == mCurrentlyAppliedPriority[r]
      && row.force == force[r]
      && forall s :: 0 <= s < |mCocoTable[r]| ==> mCocoTable[r][s].Nodes == row.lists[s]
    }

    /** Resource `r` is where its history leads the arbitration model. */
    ghost predicate RowAt(r: int)
      requires CellsShaped() && 0 <= r < |mCocoTable|
      reads this, Lists()
    {
      IsRun(Cfg(r), NodeKey, history[r]) && RowIs(r, After(Cfg(r), NodeKey, history[r]))
    }

    ghost predicate ListsOk()
      reads Lists(), Nodes()`next1, Nodes()`prev1
    {
      forall r, s {:trigger ListAt(r, s)} :: InRange(r, s) ==> ListAt(r, s)
    }

    /** The heap is what the arbitration model reaches on the recorded history. */
    ghost predicate Refines()
      reads this, Lists(), Nodes()`next1, Nodes()`prev1
    {
      && Shape() && CellsShaped() && ListsOk()
      && (forall r {:trigger RowAt(r)} :: 0 <= r < |mCocoTable| ==> RowAt(r))
    }

    /** Each resource has the lists its apply type calls for, and the flat maps number
        the ids of the target. */
    ghost predicate Sized() {
      && |mCocoTable| == |mConfigs|
      && (forall r :: 0 <= r < |mCocoTable| ==> |mCocoTable[r]| == VectorSize(mConfigs[r].mApplyType, mCores, mClusters, mCGroups))
      && FlatMapOf(mClusterIDs, mFlatClusterMap) && FlatMapOf(mCGroupIDs, mFlatCGroupMap)
    }

    ghost predicate Valid()
      reads this, Lists(), Nodes()`next1, Nodes()`prev1
    {
      Refines() && HomeIs(home) && Sized()
    }

    /** What happens elsewhere, new nodes and lists included, leaves the table valid. */
    twostate lemma StaysValid()
      requires old(Valid()) && unchanged(this) && unchanged(Lists())
      requires unchanged(old(Nodes())`next1) && unchanged(old(Nodes())`prev1)
      ensures Valid() && Nodes() == old(Nodes())
    {
    }

    // ----- one node into its list --------------------------------------------------------

    lemma ListsAreDisjoint(r: int, s: int, q: int, t: int)
      requires Refines() && InRange(r, s) && InRange(q, t) && (r != q || s != t)
      ensures AsSet(mCocoTable[r][s].Nodes) !! AsSet(mCocoTable[q][t].Nodes)
    {
      assert ListAt(r, s) && ListAt(q, t);
      if r == q {
        assert RowAt(r);
        RunKeepsDisjoint(Cfg(r), NodeKey, history[r]);
      }
    }

    /** Put the node into the list `dlm` as the resource's policy says. */
    method PlaceByPolicy(dlm: DLManager, newNode: ResIterable, policy: Policy) returns (isHead: bool)
      requires dlm.Valid() && newNode !in dlm.Nodes && dlm.mLinkerInUse == COCO_TABLE_DL_NR && policy != PASS_THROUGH
      modifies dlm, dlm.Touched(1, newNode)`next1, dlm.Touched(1, newNode)`prev1
      ensures dlm.Valid()
      ensures dlm.Nodes == InsertByPolicy(policy, NodeKey, old(dlm.Nodes), newNode)
      ensures exists k :: JoinedAt(policy, old(dlm.Nodes), newNode, k, dlm.Nodes)
      ensures isHead <==> dlm.Nodes[0] == newNode
    {
      ghost var was, k := dlm.Nodes, 0;
      match policy {
        case INSTANT_APPLY =>
          var _ := dlm.InsertOption(newNode, INSERT_START, 0);
        case HIGHER_BETTER =>
          var _, pos := dlm.InsertWithPolicy(newNode, ComparHBetter);
          k := pos;
        case LOWER_BETTER =>
          var _, pos := dlm.InsertWithPolicy(newNode, ComparLBetter);
          k := pos;
        case LAZY_APPLY =>
          var _ := dlm.Insert(newNode);
          k := |old(dlm.Nodes)|;
      }
      forall j | 0 <= j < |was| ensures Better(policy, NodeKey, newNode, was[j]) <==> Beats(policy, newNode, was[j]) {
        KeysCompareValues(newNode, was[j]);
        KeysCompareValues(was[j], newNode);
      }
      InsertAtFirstBeaten(policy, NodeKey, old(dlm.Nodes), newNode, k);
      assert JoinedAt(policy, was, newNode, k, dlm.Nodes);
      isHead := dlm.IsNodeNth(0, newNode);
    }

    method InsertIntoList(newNode: ResIterable, r: int, s: int, policy: Policy) returns (isHead: bool)
      requires Refines() && InRange(r, s) && newNode !in Nodes() && policy != PASS_THROUGH
      requires GetCocoTablePrimaryIndex(newNode.mData) == r && Instance(newNode) == s / TOTAL_PRIORITIES
      modifies mCocoTable[r][s], (Nodes() + {newNode})`next1, (Nodes() + {newNode})`prev1
      ensures ListsOk()
      ensures forall q, t :: InRange(q, t) && (q != r || t != s) ==> mCocoTable[q][t].Nodes == old(mCocoTable[q][t].Nodes)
      ensures mCocoTable[r][s].Nodes == InsertByPolicy(policy, NodeKey, old(mCocoTable[r][s].Nodes), newNode)
      ensures forall n :: n in mCocoTable[r][s].Nodes <==> n in old(mCocoTable[r][s].Nodes) || n == newNode
      ensures isHead <==> mCocoTable[r][s].Nodes[0] == newNode
    {
      var dlm := mCocoTable[r][s];
      assert ListAt(r, s) && dlm in Lists();
      forall q, t | InRange(q, t) && (q != r || t != s)
        ensures (AsSet(dlm.Nodes) + {newNode}) !! AsSet(mCocoTable[q][t].Nodes)
      {
        ListsAreDisjoint(r, s, q, t);
        assert mCocoTable[q][t] in Lists();
      }
      isHead := PlaceByPolicy(dlm, newNode, policy);
      forall n ensures n in dlm.Nodes <==> n == newNode || n in old(dlm.Nodes) {
        InsertMembers(policy, NodeKey, old(dlm.Nodes), newNode, n);
      }
      forall q, t | InRange(q, t) && (q != r || t != s) ensures ListAt(q, t) {
        assert old(ListAt(q, t)) && mCocoTable[q][t] != dlm;
      }
    }

    // ----- applying and tearing ------------------------------------------------------------

    ghost predicate CellsShaped()
      reads this
    {
      && |mConfigs| == |mCocoTable|
      && |mCurrentlyAppliedPriority| == |force| == |history| == |mCocoTable|
    }

    /** Run the applier for the node unless a better priority is remembered; `instance`
        is where the callback takes effect. */
    method ApplyAction(currNode: ResIterable?, index: int, priority: int, ghost instance: int)
      requires CellsShaped() && 0 <= index < |mCocoTable| && 0 <= instance < |force[index]|
      requires currNode != null ==> GetCocoTablePrimaryIndex(currNode.mData) == index
      modifies `mCurrentlyAppliedPriority, `force
      ensures CellsShaped() && (old(ListsOk()) ==> ListsOk())
      ensures forall q :: 0 <= q < |mCocoTable| && q != index && old(RowAt(q)) ==> RowAt(q)
      ensures if currNode != null && (old(mCurrentlyAppliedPriority[index]) >= priority || old(mCurrentlyAppliedPriority[index]) == -1)
                 && Cfg(index).admits
              then mCurrentlyAppliedPriority == old(mCurrentlyAppliedPriority)[index := priority]
                && force == old(force)[index := old(force)[index][instance := Applied(currNode)]]
              else mCurrentlyAppliedPriority == old(mCurrentlyAppliedPriority) && force == old(force)
    {
      if currNode == null { return; }
      if mCurrentlyAppliedPriority[index] >= priority || mCurrentlyAppliedPriority[index] == -1 {
        if GetResConf(currNode.mData).mModes & mCurrMode != 0 {
          force := force[index := force[index][instance := Applied(currNode)]];  // the applier callback
          mCurrentlyAppliedPriority := mCurrentlyAppliedPriority[index := priority];
        }
      }
      forall r, s | InRange(r, s) && old(ListAt(r, s)) ensures ListAt(r, s) {}
      forall q | 0 <= q < |mCocoTable| && q != index && old(RowAt(q)) ensures RowAt(q) {}
    }

    /** Run the tear callback: the resource goes back to its default value. */
    method RemoveAction(index: int, ghost instance: int)
      requires CellsShaped() && 0 <= index < |mCocoTable| && 0 <= instance < |force[index]|
      modifies `mCurrentlyAppliedPriority, `force
      ensures CellsShaped() && (old(ListsOk()) ==> ListsOk())
      ensures forall q :: 0 <= q < |mCocoTable| && q != index && old(RowAt(q)) ==> RowAt(q)
      ensures mCurrentlyAppliedPriority == old(mCurrentlyAppliedPriority)[index := -1]
      ensures force == old(force)[index := old(force)[index][instance := Torn]]
    {
      force := force[index := force[index][instance := Torn]];  // the tear callback
      mCurrentlyAppliedPriority := mCurrentlyAppliedPriority[index := -1];
      forall r, s | InRange(r, s) && old(ListAt(r, s)) ensures ListAt(r, s) {}
      forall q | 0 <= q < |mCocoTable| && q != index && old(RowAt(q)) ensures RowAt(q) {}
    }

    // ----- the table operations -------------------------------------------------------------

    /** What a node's arrival or departure adds to the histories. */
    ghost function Recorded(h: seq<seq<Op<ResIterable>>>, n: ResIterable, priority: int, arrives: bool): (r: seq<seq<Op<ResIterable>>>)
      requires |h| == |mCocoTable| && 0 <= priority < TOTAL_PRIORITIES
      ensures |r| == |h|
    {
      if !Tracked(n, priority) then h
      else
        var index := GetCocoTablePrimaryIndex(n.mData);
        h[index := h[index] + [if arrives then Insert(Instance(n), priority, n) else Remove(Instance(n), priority, n)]]
    }

    lemma SecondaryIndexIsSlot(n: ResIterable, priority: int)
      requires Shape() && Registered(n.mData) && 0 <= priority < TOTAL_PRIORITIES
      requires InRange(GetCocoTablePrimaryIndex(n.mData), GetCocoTableSecondaryIndex(n.mData, priority))
      ensures Instance(n) < |mCocoTable[GetCocoTablePrimaryIndex(n.mData)]| / TOTAL_PRIORITIES
      ensures GetCocoTableSecondaryIndex(n.mData, priority) == Slot(Instance(n), priority)
      ensures GetCocoTableSecondaryIndex(n.mData, priority) / TOTAL_PRIORITIES == Instance(n)
    {
    }

    /** Book one step of resource `r` whose effect the heap already shows. */
    ghost method Record(r: int, op: Op<ResIterable>)
      requires CellsShaped() && Shape() && ListsOk() && 0 <= r < |mCocoTable|
      requires IsRun(Cfg(r), NodeKey, history[r]) && Enabled(Cfg(r), After(Cfg(r), NodeKey, history[r]), op)
      requires RowIs(r, Step(Cfg(r), NodeKey, After(Cfg(r), NodeKey, history[r]), op))
      requires forall q :: 0 <= q < |mCocoTable| && q != r ==> RowAt(q)
      modifies `history
      ensures Refines() && history == old(history)[r := old(history)[r] + [op]]
    {
      RunSnoc(Cfg(r), NodeKey, history[r], op);
      history := history[r := history[r] + [op]];
      forall q, t | InRange(q, t) ensures ListAt(q, t) {
        assert old(ListAt(q, t));
      }
      forall q | 0 <= q < |mCocoTable| ensures RowAt(q) {
        assert q != r ==> old(RowAt(q));
      }
    }

    ghost method Settle(h: map<ResIterable, int>)
      requires Refines() && HomeIs(h) && Sized()
      modifies `home
      ensures Valid() && home == h && history == old(history)
    {
      home := h;
      forall n | n in h ensures HomeAt(h, n) { assert old(HomeAt(h, n)); }
      forall q, t | InRange(q, t) ensures KnownAt(h, q, t) && ListAt(q, t) {
        assert old(KnownAt(h, q, t)) && old(ListAt(q, t));
      }
      forall q | 0 <= q < |mCocoTable| ensures RowAt(q) { assert old(RowAt(q)); }
    }

    /** The callback a pass-through resource gets when its request comes or goes. */
    ghost function PassOf(n: ResIterable, arrives: bool): seq<Callback> {
      if !Registered(n.mData) || GetResConf(n.mData).mPolicy != PASS_THROUGH then []
      else if !arrives then [Tear(n)]
      else if GetResConf(n.mData).mModes & mCurrMode != 0 then [Apply(n)]
      else []
    }

    ghost method Pass(n: ResIterable, arrives: bool)
      requires Valid()
      modifies `passed
      ensures Valid() && passed == old(passed) + PassOf(n, arrives)
    {
      passed := passed + PassOf(n, arrives);
      forall r, s | InRange(r, s) ensures ListAt(r, s) { assert old(ListAt(r, s)); }
      forall r | 0 <= r < |mCocoTable| ensures RowAt(r) { assert old(RowAt(r)); }
    }

    lemma NodesAreHome()
      requires Valid()
      ensures Nodes() == home.Keys
    {
      forall n | n in Nodes() ensures n in home {
        var r, s :| InRange(r, s) && n in mCocoTable[r][s].Nodes;
        assert KnownAt(home, r, s);
      }
      forall n | n in home ensures n in Nodes() {
        assert HomeAt(home, n);
      }
    }

    method InsertInCocoTable(newNode: ResIterable?, priority: int) returns (ok: bool)
      requires Valid() && 0 <= priority < TOTAL_PRIORITIES
      requires newNode != null ==> Registered(newNode.mData) && newNode !in home.Keys
      modifies this, Lists(), (home.Keys + Opt(newNode))`next1, (home.Keys + Opt(newNode))`prev1
      ensures Valid()
      ensures newNode == null ==> history == old(history)
      ensures newNode != null ==> history == Recorded(old(history), newNode, priority, true)
      ensures home == if newNode != null && Tracked(newNode, priority) then old(home)[newNode := priority] else old(home)
      ensures passed == old(passed) + if newNode == null then [] else PassOf(newNode, true)
      ensures ok <==> newNode != null && (Tracked(newNode, priority) || GetResConf(newNode.mData).mPolicy == PASS_THROUGH)
    {
      if newNode == null { return false; }
      var rConf := GetResConf(newNode.mData);
      if rConf.mPolicy == PASS_THROUGH {
        Pass(newNode, true);  // fastPathApply: the callback runs, no list is involved
        return true;
      }
      var primaryIndex := GetCocoTablePrimaryIndex(newNode.mData);
      var secondaryIndex := GetCocoTableSecondaryIndex(newNode.mData, priority);
      if primaryIndex < 0 || secondaryIndex < 0 || primaryIndex >= |mCocoTable|
         || secondaryIndex >= |mCocoTable[primaryIndex]| {
        return false;
      }
      Enter(newNode, primaryIndex, secondaryIndex, priority);
      return true;
    }

    /** The node enters its list and is at home there. */
    method Enter(newNode: ResIterable, r: int, s: int, priority: int)
      requires Valid() && 0 <= priority < TOTAL_PRIORITIES && newNode !in home.Keys && Tracked(newNode, priority)
      requires r == GetCocoTablePrimaryIndex(newNode.mData) && s == GetCocoTableSecondaryIndex(newNode.mData, priority)
      modifies this, Lists(), (home.Keys + {newNode})`next1, (home.Keys + {newNode})`prev1
      ensures Valid() && history == Recorded(old(history), newNode, priority, true)
      ensures home == old(home)[newNode := priority] && passed == old(passed)
    {
      SecondaryIndexIsSlot(newNode, priority);
      NodesAreHome();
      EnterList(newNode, r, s, priority);
      ghost var h := home[newNode := priority];
      forall n | n in old(home) ensures HomeAt(h, n) {
        assert old(HomeAt(home, n));
      }
      forall q, t | InRange(q, t) ensures KnownAt(h, q, t) {
        assert old(KnownAt(home, q, t));
      }
      Settle(h);
    }

    /** Insert the node, and apply it if it leads its list. */
    method InsertAndApply(newNode: ResIterable, r: int, s: int, priority: int, ghost row: Row<ResIterable>)
      requires Refines() && 0 <= priority < TOTAL_PRIORITIES && newNode !in Nodes()
      requires InRange(r, s) && Tracked(newNode, priority) && Instance(newNode) < Cfg(r).instances
      requires r == GetCocoTablePrimaryIndex(newNode.mData) && s == Slot(Instance(newNode), priority)
      requires Shaped(Cfg(r), row) && RowIs(r, row)
      modifies this, Lists(), (Nodes() + {newNode})`next1, (Nodes() + {newNode})`prev1
      ensures CellsShaped() && history == old(history) && home == old(home) && passed == old(passed)
      ensures ListsOk()
      ensures forall q, t :: InRange(q, t) && (q != r || t != s) ==> mCocoTable[q][t].Nodes == old(mCocoTable[q][t].Nodes)
      ensures forall n :: n in mCocoTable[r][s].Nodes <==> n in old(mCocoTable[r][s].Nodes) || n == newNode
      ensures RowIs(r, InsertStep(Cfg(r), NodeKey, row, Instance(newNode), priority, newNode))
      ensures forall q :: 0 <= q < |mCocoTable| && q != r ==> RowAt(q)
    {
      var isHead := InsertIntoList(newNode, r, s, mConfigs[r].mPolicy);
      if isHead {
        ApplyAction(newNode, r, priority, Instance(newNode));
      }
      forall q | 0 <= q < |mCocoTable| && q != r ensures RowAt(q) {
        assert old(RowAt(q));
        assert forall t :: 0 <= t < |mCocoTable[q]| ==> InRange(q, t);
      }
      assert RowIs(r, InsertStep(Cfg(r), NodeKey, row, Instance(newNode), priority, newNode)) by {
        assert forall t :: 0 <= t < |mCocoTable[r]| ==> InRange(r, t);
      }
    }

    /** The tail of insertInCocoTable, as one step of the resource's history. */
    method EnterList(newNode: ResIterable, r: int, s: int, priority: int)
      requires Refines() && 0 <= priority < TOTAL_PRIORITIES && newNode !in Nodes()
      requires InRange(r, s) && Tracked(newNode, priority) && Instance(newNode) < Cfg(r).instances
      requires r == GetCocoTablePrimaryIndex(newNode.mData) && s == Slot(Instance(newNode), priority)
      modifies this, Lists(), (Nodes() + {newNode})`next1, (Nodes() + {newNode})`prev1
      ensures Refines()
      ensures history == old(history)[r := old(history[r]) + [Insert(Instance(newNode), priority, newNode)]]
      ensures home == old(home) && passed == old(passed)
      ensures forall q, t :: InRange(q, t) && (q != r || t != s) ==> mCocoTable[q][t].Nodes == old(mCocoTable[q][t].Nodes)
      ensures forall n :: n in mCocoTable[r][s].Nodes <==> n in old(mCocoTable[r][s].Nodes) || n == newNode
    {
      assert RowAt(r);
      ghost var row := After(Cfg(r), NodeKey, history[r]);
      ghost var op: Op<ResIterable> := Insert(Instance(newNode), priority, newNode);
      forall t | 0 <= t < |row.lists| ensures newNode !in row.lists[t] {
        assert mCocoTable[r][t] in Lists();
      }
      InsertAndApply(newNode, r, s, priority, row);
      Record(r, op);
    }

    // ----- one node out of its list ------------------------------------------------------------

    method DeleteFromList(node: ResIterable, r: int, s: int) returns (nodeIsHead: bool)
      requires Refines() && InRange(r, s) && node in mCocoTable[r][s].Nodes
      modifies mCocoTable[r][s], Nodes()`next1, Nodes()`prev1
      ensures ListsOk()
      ensures forall q, t :: InRange(q, t) && (q != r || t != s) ==> mCocoTable[q][t].Nodes == old(mCocoTable[q][t].Nodes)
      ensures mCocoTable[r][s].Nodes == Without(old(mCocoTable[r][s].Nodes), node)
      ensures forall n :: n in mCocoTable[r][s].Nodes <==> n in old(mCocoTable[r][s].Nodes) && n != node
      ensures nodeIsHead <==> old(mCocoTable[r][s].Nodes)[0] == node
    {
      var dlm := mCocoTable[r][s];
      assert ListAt(r, s) && dlm in Lists();
      forall q, t | InRange(q, t) && (q != r || t != s)
        ensures AsSet(dlm.Nodes) !! AsSet(mCocoTable[q][t].Nodes)
      {
        ListsAreDisjoint(r, s, q, t);
        assert mCocoTable[q][t] in Lists();
      }
      nodeIsHead := TakeOut(dlm, node);
      forall n ensures n in dlm.Nodes <==> n in old(dlm.Nodes) && n != node {
        WithoutMembers(old(dlm.Nodes), node, n);
      }
      forall q, t | InRange(q, t) && (q != r || t != s) ensures ListAt(q, t) {
        assert old(ListAt(q, t)) && mCocoTable[q][t] != dlm;
      }
    }

    method TakeOut(dlm: DLManager, node: ResIterable) returns (nodeIsHead: bool)
      requires dlm.Valid() && node in dlm.Nodes && dlm.mLinkerInUse == COCO_TABLE_DL_NR
      modifies dlm, dlm.Touched(1, node)`next1, dlm.Touched(1, node)`prev1
      ensures dlm.Valid() && dlm.Nodes == Without(old(dlm.Nodes), node)
      ensures nodeIsHead <==> old(dlm.Nodes)[0] == node
    {
      nodeIsHead := dlm.IsNodeNth(0, node);
      var _ := dlm.DeleteNode(node);
    }

    /** The list became empty: look for the best priority still waiting at this
        instance and apply its head, or tear the resource down. */
    method ReapplyBest(r: int, reIndexIncrement: int, ghost instance: int, ghost row: Row<ResIterable>)
      requires CellsShaped() && Shape() && ListsOk() && 0 <= r < |mCocoTable|
      requires Shaped(Cfg(r), row) && RowIs(r, row) && 0 <= instance < Cfg(r).instances
      requires reIndexIncrement == Slot(instance, 0)
      modifies `mCurrentlyAppliedPriority, `force
      ensures CellsShaped() && ListsOk()
      ensures var best := Best(row, instance);
        RowIs(r, if best < TOTAL_PRIORITIES
                 then Arbitration.ApplyAction(Cfg(r), row.(cur := best), instance, best, row.lists[Slot(instance, best)][0])
                 else row.(cur := -1, force := row.force[instance := Torn]))
      ensures forall q :: 0 <= q < |mCocoTable| && q != r && old(RowAt(q)) ==> RowAt(q)
    {
      var prioLevel := 0;
      while prioLevel < TOTAL_PRIORITIES
        invariant 0 <= prioLevel <= TOTAL_PRIORITIES
        invariant forall p :: 0 <= p < prioLevel ==> row.lists[Slot(instance, p)] == []
        invariant mCurrentlyAppliedPriority == old(mCurrentlyAppliedPriority) && force == old(force)
      {
        var dlm := mCocoTable[r][prioLevel + reIndexIncrement];
        assert ListAt(r, prioLevel + reIndexIncrement);
        if dlm.mHead != null {
          mCurrentlyAppliedPriority := mCurrentlyAppliedPriority[r := prioLevel];
          forall q, t | InRange(q, t) ensures ListAt(q, t) { assert old(ListAt(q, t)); }
          ApplyAction(dlm.mHead, r, prioLevel, instance);
          forall q | 0 <= q < |mCocoTable| && q != r && old(RowAt(q)) ensures RowAt(q) {}
          return;
        }
        prioLevel := prioLevel + 1;
      }
      RemoveAction(r, instance);
    }

    /** What the deletion alone leaves behind: the node is unlisted, nothing was applied. */
    ghost function Unlisting(row: Row<ResIterable>, s: int, node: ResIterable): Row<ResIterable>
      requires 0 <= s < |row.lists|
    {
      row.(lists := row.lists[s := Without(row.lists[s], node)])
    }

    method DeleteFromRow(node: ResIterable, r: int, s: int, ghost row: Row<ResIterable>) returns (nodeIsHead: bool)
      requires Refines() && InRange(r, s) && node in mCocoTable[r][s].Nodes && RowIs(r, row)
      modifies mCocoTable[r][s], Nodes()`next1, Nodes()`prev1
      ensures ListsOk() && CellsShaped()
      ensures forall q, t :: InRange(q, t) && (q != r || t != s) ==> mCocoTable[q][t].Nodes == old(mCocoTable[q][t].Nodes)
      ensures RowIs(r, Unlisting(row, s, node))
      ensures forall q :: 0 <= q < |mCocoTable| && q != r ==> RowAt(q)
      ensures forall n :: n in mCocoTable[r][s].Nodes <==> n in old(mCocoTable[r][s].Nodes) && n != node
      ensures nodeIsHead <==> row.lists[s] != [] && row.lists[s][0] == node
    {
      nodeIsHead := DeleteFromList(node, r, s);
      forall q | 0 <= q < |mCocoTable| && q != r ensures RowAt(q) {
        assert old(RowAt(q));
        assert forall t :: 0 <= t < |mCocoTable[q]| ==> InRange(q, t);
      }
      assert RowIs(r, Unlisting(row, s, node)) by {
        assert forall t :: 0 <= t < |mCocoTable[r]| ==> InRange(r, t);
      }
    }

    method DeleteAndReapply(node: ResIterable, r: int, s: int, priority: int, ghost row: Row<ResIterable>)
      requires Refines() && 0 <= priority < TOTAL_PRIORITIES
      requires InRange(r, s) && Tracked(node, priority) && Instance(node) < Cfg(r).instances
      requires r == GetCocoTablePrimaryIndex(node.mData) && s == Slot(Instance(node), priority)
      requires node in mCocoTable[r][s].Nodes && Shaped(Cfg(r), row) && RowIs(r, row)
      modifies this, Lists(), Nodes()`next1, Nodes()`prev1
      ensures CellsShaped() && history == old(history) && home == old(home) && passed == old(passed) && ListsOk()
      ensures forall q, t :: InRange(q, t) && (q != r || t != s) ==> mCocoTable[q][t].Nodes == old(mCocoTable[q][t].Nodes)
      ensures forall n :: n in mCocoTable[r][s].Nodes <==> n in old(mCocoTable[r][s].Nodes) && n != node
      ensures RowIs(r, RemoveStep(Cfg(r), row, Instance(node), priority, node))
      ensures forall q :: 0 <= q < |mCocoTable| && q != r ==> RowAt(q)
    {
      var nodeIsHead := DeleteFromRow(node, r, s, row);
      ReapplyAfterDelete(node, r, s, priority, nodeIsHead, row);
    }

    /** The second half of a removal: decide what is in force now. */
    method ReapplyAfterDelete(node: ResIterable, r: int, s: int, priority: int, nodeIsHead: bool, ghost row: Row<ResIterable>)
      requires CellsShaped() && Shape() && ListsOk() && InRange(r, s) && 0 <= priority < TOTAL_PRIORITIES
      requires Tracked(node, priority) && Instance(node) < Cfg(r).instances
      requires r == GetCocoTablePrimaryIndex(node.mData) && s == Slot(Instance(node), priority)
      requires Shaped(Cfg(r), row) && RowIs(r, Unlisting(row, s, node))
      requires nodeIsHead <==> row.lists[s] != [] && row.lists[s][0] == node
      modifies `mCurrentlyAppliedPriority, `force
      ensures CellsShaped() && ListsOk()
      ensures RowIs(r, RemoveStep(Cfg(r), row, Instance(node), priority, node))
      ensures forall q :: 0 <= q < |mCocoTable| && q != r && old(RowAt(q)) ==> RowAt(q)
    {
      var dlm := mCocoTable[r][s];
      ghost var unlisted := Unlisting(row, s, node);
      assert ListAt(r, s);
      if dlm.mHead == null {
        var reIndexIncrement := 0;
        if mConfigs[r].mApplyType != APPLY_GLOBAL {
          reIndexIncrement := GetCocoTableSecondaryIndex(node.mData, 0);
        }
        ReapplyBest(r, reIndexIncrement, Instance(node), unlisted);
      } else if nodeIsHead {
        ApplyAction(dlm.mHead, r, priority, Instance(node));
      }
    }

    /** The departure of a node, as one step of the resource's history. */
    method LeaveList(node: ResIterable, r: int, s: int, priority: int)
      requires Refines() && 0 <= priority < TOTAL_PRIORITIES
      requires InRange(r, s) && Tracked(node, priority) && Instance(node) < Cfg(r).instances
      requires r == GetCocoTablePrimaryIndex(node.mData) && s == Slot(Instance(node), priority)
      requires node in mCocoTable[r][s].Nodes
      modifies this, Lists(), Nodes()`next1, Nodes()`prev1
      ensures Refines()
      ensures history == old(history)[r := old(history[r]) + [Remove(Instance(node), priority, node)]]
      ensures home == old(home) && passed == old(passed)
      ensures forall q, t :: InRange(q, t) && (q != r || t != s) ==> mCocoTable[q][t].Nodes == old(mCocoTable[q][t].Nodes)
      ensures forall n :: n in mCocoTable[r][s].Nodes <==> n in old(mCocoTable[r][s].Nodes) && n != node
    {
      assert RowAt(r) && ListAt(r, s);
      ghost var row := After(Cfg(r), NodeKey, history[r]);
      ghost var op: Op<ResIterable> := Remove(Instance(node), priority, node);
      DeleteAndReapply(node, r, s, priority, row);
      Record(r, op);
    }

    /** The loop body of removeRequest. */
    method RemoveFromCocoTable(node: ResIterable, priority: int)
      requires Valid() && 0 <= priority < TOTAL_PRIORITIES
      requires Registered(node.mData) && (Tracked(node, priority) ==> node in home && home[node] == priority)
      modifies this, Lists(), home.Keys`next1, home.Keys`prev1
      ensures Valid()
      ensures history == Recorded(old(history), node, priority, false) && passed == old(passed) + PassOf(node, false)
      ensures home == if Tracked(node, priority) then old(home) - {node} else old(home)
    {
      if GetResConf(node.mData).mPolicy == PASS_THROUGH {
        Pass(node, false);  // fastPathReset: the tear callback runs, no list is involved
        return;
      }
      var primaryIndex := GetCocoTablePrimaryIndex(node.mData);
      var secondaryIndex := GetCocoTableSecondaryIndex(node.mData, priority);
      if primaryIndex < 0 || secondaryIndex < 0 || primaryIndex >= |mCocoTable|
         || secondaryIndex >= |mCocoTable[primaryIndex]| {
        return;
      }
      SecondaryIndexIsSlot(node, priority);
      assert HomeAt(home, node);
      NodesAreHome();
      LeaveList(node, primaryIndex, secondaryIndex, priority);
      ghost var h := home - {node};
      forall n | n in old(home) && n != node ensures HomeAt(h, n) {
        assert old(HomeAt(home, n));
      }
      forall q, t | InRange(q, t) ensures KnownAt(h, q, t) {
        assert old(KnownAt(home, q, t)) && ListAt(q, t);
      }
      Settle(h);
    }

    // ----- whole requests ---------------------------------------------------------------------------

    /** Each resource of the request is booked exactly once, in the order of the request. */
    ghost function RecordedAll(h: seq<seq<Op<ResIterable>>>, nodes: seq<ResIterable>, priority: int, arrives: bool)
      : (r: seq<seq<Op<ResIterable>>>)
      requires |h| == |mCocoTable| && 0 <= priority < TOTAL_PRIORITIES
      ensures |r| == |h|
    {
      if nodes == [] then h
      else
        var k := |nodes| - 1;
        Recorded(RecordedAll(h, nodes[..k], priority, arrives), nodes[k], priority, arrives)
    }

    /** The pass-through callbacks of a request, in its order. */
    ghost function Passes(nodes: seq<ResIterable>, arrives: bool): seq<Callback> {
      if nodes == [] then [] else Passes(nodes[..|nodes| - 1], arrives) + PassOf(nodes[|nodes| - 1], arrives)
    }

    lemma OneMorePassed(was: seq<Callback>, nodes: seq<ResIterable>, k: nat, arrives: bool)
      requires k < |nodes|
      ensures was + Passes(nodes[..k + 1], arrives) == was + Passes(nodes[..k], arrives) + PassOf(nodes[k], arrives)
    {
      assert nodes[..k + 1][..k] == nodes[..k];
    }

    /** What a request adds to the history of resource `r`. */
    ghost function OpsOn(nodes: seq<ResIterable>, r: int, priority: int, arrives: bool): seq<Op<ResIterable>>
      requires 0 <= priority < TOTAL_PRIORITIES
    {
      if nodes == [] then []
      else
        var n := nodes[|nodes| - 1];
        OpsOn(nodes[..|nodes| - 1], r, priority, arrives) +
        if !Tracked(n, priority) || GetCocoTablePrimaryIndex(n.mData) != r then []
        else if arrives then [Insert(Instance(n), priority, n)] else [Remove(Instance(n), priority, n)]
    }

    /** Each resource sees its own nodes of the request, once each and in order. */
    lemma {:induction false} RecordedAllOn(h: seq<seq<Op<ResIterable>>>, nodes: seq<ResIterable>, priority: int, arrives: bool, r: int)
      requires |h| == |mCocoTable| && 0 <= priority < TOTAL_PRIORITIES && 0 <= r < |h|
      ensures RecordedAll(h, nodes, priority, arrives)[r] == h[r] + OpsOn(nodes, r, priority, arrives)
    {
      if nodes == [] {
        assert h[r] + [] == h[r];
      } else {
        RecordedAllOn(h, nodes[..|nodes| - 1], priority, arrives, r);
      }
    }

    /** A request the handler let through: its list is threaded on linker 0, its
        priority and its resource codes are known. */
    ghost predicate Admissible(req: Request)
      reads req.mResourceList
      reads (if req.mResourceList == null then {} else AsSet(req.mResourceList.Nodes))`next0
      reads (if req.mResourceList == null then {} else AsSet(req.mResourceList.Nodes))`prev0
    {
      req.mResourceList != null ==>
        var list := req.mResourceList;
        && list.mLinkerInUse == REQUEST_DL_NR && list.Valid() && 0 <= req.mPriority < TOTAL_PRIORITIES
        && forall n :: n in list.Nodes ==> Registered(n.mData)
    }

    ghost function ReqNodes(req: Request?): (nodes: seq<ResIterable>)
      reads if req == null then {} else {req.mResourceList}
    {
      if req == null || req.mResourceList == null then [] else req.mResourceList.Nodes
    }

    lemma RequestListIsApart(list: DLManager)
      requires ListsOk() && list.mLinkerInUse == REQUEST_DL_NR
      ensures list !in Lists()
    {
      forall r, s | InRange(r, s) ensures mCocoTable[r][s] != list {
        assert ListAt(r, s);
      }
    }

    /** One step of the iteration: edit the table, then follow the request's own link. */
    method InsertAndAdvance(list: DLManager, iter: ResIterable, priority: int, ghost k: int) returns (next: ResIterable?)
      requires Valid() && 0 <= priority < TOTAL_PRIORITIES && list !in Lists()
      requires list.mLinkerInUse == REQUEST_DL_NR && list.Valid() && 0 <= k < |list.Nodes| && iter == list.Nodes[k]
      requires Registered(iter.mData) && iter !in home.Keys
      modifies this, Lists(), (home.Keys + {iter})`next1, (home.Keys + {iter})`prev1
      ensures Valid()
      ensures history == Recorded(old(history), iter, priority, true) && passed == old(passed) + PassOf(iter, true)
      ensures home == if Tracked(iter, priority) then old(home)[iter := priority] else old(home)
      ensures list.Valid() && list.Nodes == old(list.Nodes)
      ensures next == if k + 1 < |list.Nodes| then list.Nodes[k + 1] else null
    {
      ghost var nodes := list.Nodes;
      assert NextAt(nodes, REQUEST_DL_NR, k);
      var _ := InsertInCocoTable(iter, priority);
      assert Linked(nodes, REQUEST_DL_NR) by {
        forall i | 0 <= i < |nodes| ensures NextAt(nodes, REQUEST_DL_NR, i) && PrevAt(nodes, REQUEST_DL_NR, i) {
          assert old(NextAt(nodes, REQUEST_DL_NR, i)) && old(PrevAt(nodes, REQUEST_DL_NR, i));
          assert nodes[i].next0 == old(nodes[i].next0) && nodes[i].prev0 == old(nodes[i].prev0);
        }
      }
      next := iter.GetNextPtr(list.mLinkerInUse);
    }

    /** One step of the iteration: edit the table, then follow the request's own link. */
    method RemoveAndAdvance(list: DLManager, iter: ResIterable, priority: int, ghost k: int) returns (next: ResIterable?)
      requires Valid() && 0 <= priority < TOTAL_PRIORITIES && list !in Lists()
      requires list.mLinkerInUse == REQUEST_DL_NR && list.Valid() && 0 <= k < |list.Nodes| && iter == list.Nodes[k]
      requires Registered(iter.mData) && (Tracked(iter, priority) ==> iter in home && home[iter] == priority)
      modifies this, Lists(), home.Keys`next1, home.Keys`prev1
      ensures Valid()
      ensures history == Recorded(old(history), iter, priority, false) && passed == old(passed) + PassOf(iter, false)
      ensures home == if Tracked(iter, priority) then old(home) - {iter} else old(home)
      ensures list.Valid() && list.Nodes == old(list.Nodes)
      ensures next == if k + 1 < |list.Nodes| then list.Nodes[k + 1] else null
    {
      ghost var nodes := list.Nodes;
      assert NextAt(nodes, REQUEST_DL_NR, k);
      RemoveFromCocoTable(iter, priority);
      assert Linked(nodes, REQUEST_DL_NR) by {
        forall i | 0 <= i < |nodes| ensures NextAt(nodes, REQUEST_DL_NR, i) && PrevAt(nodes, REQUEST_DL_NR, i) {
          assert old(NextAt(nodes, REQUEST_DL_NR, i)) && old(PrevAt(nodes, REQUEST_DL_NR, i));
          assert nodes[i].next0 == old(nodes[i].next0) && nodes[i].prev0 == old(nodes[i].prev0);
        }
      }
      next := iter.GetNextPtr(list.mLinkerInUse);
    }

    lemma OneMoreRecorded(ops: seq<seq<Op<ResIterable>>>, nodes: seq<ResIterable>, k: nat, priority: int, arrives: bool)
      requires k < |nodes| && |ops| == |mCocoTable| && 0 <= priority < TOTAL_PRIORITIES
      ensures RecordedAll(ops, nodes[..k + 1], priority, arrives)
           == Recorded(RecordedAll(ops, nodes[..k], priority, arrives), nodes[k], priority, arrives)
    {
      assert nodes[..k + 1][..k] == nodes[..k];
    }

    lemma OneMoreHome(nodes: seq<ResIterable>, k: nat, priority: int)
      requires k < |nodes|
      ensures Homes(nodes[..k + 1], priority)
           == if Tracked(nodes[k], priority) then Homes(nodes[..k], priority)[nodes[k] := priority] else Homes(nodes[..k], priority)
    {
      assert nodes[..k + 1] == nodes[..k] + [nodes[k]];
    }

    /** One node further into the request: what an arrival puts at home. */
    lemma OneMoreIn(h: map<ResIterable, int>, nodes: seq<ResIterable>, k: nat, priority: int)
      requires k < |nodes|
      ensures h + Homes(nodes[..k + 1], priority)
           == if Tracked(nodes[k], priority) then (h + Homes(nodes[..k], priority))[nodes[k] := priority] else h + Homes(nodes[..k], priority)
    {
      OneMoreHome(nodes, k, priority);
      MapGrows(h, Homes(nodes[..k], priority), nodes[k], priority);
    }

    /** And what a departure takes away. */
    lemma OneMoreOut(h: map<ResIterable, int>, nodes: seq<ResIterable>, k: nat, priority: int)
      requires k < |nodes|
      ensures h - Homes(nodes[..k + 1], priority).Keys
           == if Tracked(nodes[k], priority) then h - Homes(nodes[..k], priority).Keys - {nodes[k]} else h - Homes(nodes[..k], priority).Keys
    {
      OneMoreHome(nodes, k, priority);
      MapGrows(h, Homes(nodes[..k], priority), nodes[k], priority);
    }

    /** A node not yet visited is still at home. */
    lemma StillHome(h: map<ResIterable, int>, nodes: seq<ResIterable>, k: nat, priority: int)
      requires k < |nodes| && Distinct(nodes) && (Tracked(nodes[k], priority) ==> nodes[k] in h && h[nodes[k]] == priority)
      ensures var left := h - Homes(nodes[..k], priority).Keys;
        Tracked(nodes[k], priority) ==> nodes[k] in left && left[nodes[k]] == priority
    {
    }

    lemma MapGrows(h: map<ResIterable, int>, g: map<ResIterable, int>, n: ResIterable, priority: int)
      ensures h + g[n := priority] == (h + g)[n := priority]
      ensures h - g[n := priority].Keys == h - g.Keys - {n}
    {
      assert g[n := priority].Keys == g.Keys + {n};
    }

    /** The DL_ITERATE loop of insertRequest. */
    method InsertAll(list: DLManager, priority: int)
      requires Valid() && list.Valid() && list.mLinkerInUse == REQUEST_DL_NR && 0 <= priority < TOTAL_PRIORITIES
      requires forall n :: n in list.Nodes ==> Registered(n.mData) && n !in home.Keys
      modifies this, Lists(), (home.Keys + AsSet(list.Nodes))`next1, (home.Keys + AsSet(list.Nodes))`prev1
      ensures Valid() && list.Valid() && list.Nodes == old(list.Nodes)
      ensures history == RecordedAll(old(history), list.Nodes, priority, true)
      ensures passed == old(passed) + Passes(list.Nodes, true)
      ensures home == old(home) + Homes(list.Nodes, priority)
    {
      ghost var nodes, k := list.Nodes, 0;
      RequestListIsApart(list);
      var iter := list.mHead;
      while iter != null
        invariant 0 <= k <= |nodes| && iter == (if k < |nodes| then nodes[k] else null)
        invariant Valid() && list.Valid() && list.Nodes == nodes
        invariant history == RecordedAll(old(history), nodes[..k], priority, true)
        invariant passed == old(passed) + Passes(nodes[..k], true)
        invariant home == old(home) + Homes(nodes[..k], priority)
        decreases |nodes| - k
      {
        OneMoreRecorded(old(history), nodes, k, priority, true);
        OneMorePassed(old(passed), nodes, k, true);
        OneMoreIn(old(home), nodes, k, priority);
        iter := InsertAndAdvance(list, iter, priority, k);
        k := k + 1;
      }
      assert nodes[..k] == nodes;
    }

    /** `timerAllocated` and `timerStarts` are the outcomes of the timer calls. */
    method InsertRequest(req: Request?, timerAllocated: bool, timerStarts: bool) returns (ok: bool)
      requires Valid() && (req != null ==> Admissible(req) && forall n :: n in ReqNodes(req) ==> n !in home.Keys)
      modifies this, Lists(), (home.Keys + AsSet(ReqNodes(req)))`next1, (home.Keys + AsSet(ReqNodes(req)))`prev1
      ensures Valid() && (req != null ==> Admissible(req)) && ReqNodes(req) == old(ReqNodes(req))
      ensures var proceeds := req != null && req.mResourceList != null && (req.mDuration != -1 ==> timerAllocated);
        && (ok <==> proceeds && (req.mDuration != -1 ==> timerStarts))
        && (!proceeds ==> history == old(history) && home == old(home) && passed == old(passed))
        && (proceeds ==> history == RecordedAll(old(history), ReqNodes(req), req.mPriority, true)
                         && passed == old(passed) + Passes(ReqNodes(req), true)
                         && home == old(home) + Homes(ReqNodes(req), req.mPriority))
    {
      if req == null { return false; }
      if req.mDuration != -1 && !timerAllocated { return false; }
      if req.mResourceList == null { return false; }
      InsertAll(req.mResourceList, req.mPriority);
      return req.mDuration != -1 ==> timerStarts;
    }

    /** Remove every resource of the request while walking the request's own list. */
    method RemoveRequest(request: Request)
      requires Valid() && Admissible(request)
      requires forall n :: n in ReqNodes(request) && Tracked(n, request.mPriority) ==> n in home && home[n] == request.mPriority
      modifies this, Lists(), home.Keys`next1, home.Keys`prev1
      ensures Valid() && Admissible(request) && ReqNodes(request) == old(ReqNodes(request))
      ensures history == if request.mResourceList == null then old(history)
                         else RecordedAll(old(history), ReqNodes(request), request.mPriority, false)
      ensures passed == old(passed) + Passes(ReqNodes(request), false)
      ensures home == old(home) - Homes(ReqNodes(request), request.mPriority).Keys
      ensures (forall n :: n in ReqNodes(request) && n in old(home) ==> old(home)[n] == request.mPriority)
        ==> forall n :: n in ReqNodes(request) ==> n !in home
    {
      if request.mResourceList == null { return; }
      forall n | n in home ensures Tracked(n, home[n]) { assert HomeAt(home, n); }
      RemoveAll(request.mResourceList, request.mPriority);
    }

    /** The DL_ITERATE loop of removeRequest. */
    method RemoveAll(list: DLManager, priority: int)
      requires Valid() && list.Valid() && list.mLinkerInUse == REQUEST_DL_NR && 0 <= priority < TOTAL_PRIORITIES
      requires forall n :: n in list.Nodes ==> Registered(n.mData) && (Tracked(n, priority) ==> n in home && home[n] == priority)
      modifies this, Lists(), home.Keys`next1, home.Keys`prev1
      ensures Valid() && list.Valid() && list.Nodes == old(list.Nodes)
      ensures history == RecordedAll(old(history), list.Nodes, priority, false)
      ensures passed == old(passed) + Passes(list.Nodes, false)
      ensures home == old(home) - Homes(list.Nodes, priority).Keys
    {
      ghost var nodes, k := list.Nodes, 0;
      RequestListIsApart(list);
      var iter := list.mHead;
      while iter != null
        invariant 0 <= k <= |nodes| && iter == (if k < |nodes| then nodes[k] else null)
        invariant Valid() && list.Valid() && list.Nodes == nodes
        invariant history == RecordedAll(old(history), nodes[..k], priority, false)
        invariant passed == old(passed) + Passes(nodes[..k], false)
        invariant home == old(home) - Homes(nodes[..k], priority).Keys
        decreases |nodes| - k
      {
        assert nodes[k] in nodes;
        StillHome(old(home), nodes, k, priority);
        iter := RemoveAndAdvance(list, iter, priority, k);
        OneMoreRecorded(old(history), nodes, k, priority, false);
        OneMorePassed(old(passed), nodes, k, false);
        OneMoreOut(old(home), nodes, k, priority);
        k := k + 1;
      }
      assert nodes[..k] == nodes;
    }

    // ----- construction ---------------------------------------------------------------------------------

    /** One empty list per (instance, priority) of a resource. */
    static method NewRow(vectorSize: nat) returns (row: seq<DLManager>)
      ensures |row| == vectorSize
      ensures forall s :: 0 <= s < vectorSize ==> fresh(row[s]) && row[s].Valid() && row[s].Nodes == [] && row[s].mLinkerInUse == COCO_TABLE_DL_NR
      ensures Distinct(row)
    {
      row := [];
      for i := 0 to vectorSize
        invariant |row| == i
        invariant forall s :: 0 <= s < i ==> fresh(row[s]) && row[s].Valid() && row[s].Nodes == [] && row[s].mLinkerInUse == COCO_TABLE_DL_NR
        invariant Distinct(row)
      {
        var d := new DLManager(COCO_TABLE_DL_NR);
        row := row + [d];
      }
    }

    static function VectorSize(applyType: ResourceApplyType, cores: nat, clusters: nat, cGroups: nat): nat {
      match applyType
      case APPLY_CORE => TOTAL_PRIORITIES * cores
      case APPLY_CLUSTER => TOTAL_PRIORITIES * clusters
      case APPLY_CGROUP => TOTAL_PRIORITIES * cGroups
      case APPLY_GLOBAL => TOTAL_PRIORITIES
    }

    /** All rows of the table, every list empty. */
    static method NewTable(configs: seq<ResConfInfo>, cores: nat, clusters: nat, cGroups: nat) returns (table: seq<seq<DLManager>>)
      ensures |table| == |configs|
      ensures forall r :: 0 <= r < |table| ==> |table[r]| == VectorSize(configs[r].mApplyType, cores, clusters, cGroups)
      ensures forall r, s :: 0 <= r < |table| && 0 <= s < |table[r]| ==>
        fresh(table[r][s]) && table[r][s].Valid() && table[r][s].Nodes == [] && table[r][s].mLinkerInUse == COCO_TABLE_DL_NR
      ensures AllDifferent(table)
    {
      table := [];
      for i := 0 to |configs|
        invariant |table| == i
        invariant forall r :: 0 <= r < i ==> |table[r]| == VectorSize(configs[r].mApplyType, cores, clusters, cGroups)
        invariant forall r, s :: 0 <= r < i && 0 <= s < |table[r]| ==>
          fresh(table[r][s]) && table[r][s].Valid() && table[r][s].Nodes == [] && table[r][s].mLinkerInUse == COCO_TABLE_DL_NR
        invariant AllDifferent(table)
      {
        var innerVec := NewRow(VectorSize(configs[i].mApplyType, cores, clusters, cGroups));
        table := table + [innerVec];
      }
    }

    /** Give every id the next free index (both id maps are built this way). */
    static method BuildFlatMap(ids: seq<int>) returns (m: map<int, nat>)
      ensures FlatMapOf(ids, m)
    {
      m := map[];
      for i := 0 to |ids|
        invariant Covers(ids, i, m) && (Distinct(ids) ==> Numbers(ids, i, m))
      {
        CoversStep(ids, i, m);
        if Distinct(ids) { NumbersStep(ids, i, m); }
        m := m[ids[i] := |m|];
      }
      assert ids[..|ids|] == ids;
    }

    lemma EmptyTableIsValid()
      requires Shape() && CellsShaped() && home == map[] && Sized()
      requires forall r :: 0 <= r < |mCocoTable| ==>
        history[r] == [] && mCurrentlyAppliedPriority[r] == -1 && force[r] == seq(|mCocoTable[r]| / TOTAL_PRIORITIES, _ => Untouched)
      requires forall r, s :: InRange(r, s) ==>
        var d := mCocoTable[r][s]; d.Valid() && d.Nodes == [] && d.mLinkerInUse == COCO_TABLE_DL_NR
      ensures Valid()
    {
      forall r, s | InRange(r, s) ensures ListAt(r, s) {}
      forall r | 0 <= r < |mCocoTable| ensures RowAt(r) {
        assert history[r] == [];
        assert forall s :: 0 <= s < |mCocoTable[r]| ==> InRange(r, s);
      }
    }

    constructor (mappings: map<int, int>, configs: seq<ResConfInfo>, currMode: bv8,
                 clusterIDs: seq<int>, cGroupIDs: seq<int>, cores: nat, clusters: nat, cGroups: nat)
      ensures Valid() && fresh(Lists()) && home == map[] && passed == []
      ensures mMappings == mappings && mConfigs == configs && mCurrMode == currMode
      ensures mCores == cores && mClusters == clusters && mCGroups == cGroups
      ensures mClusterIDs == clusterIDs && mCGroupIDs == cGroupIDs
      ensures forall r :: 0 <= r < |history| ==> history[r] == []
      ensures |mCurrentlyAppliedPriority| == |configs| && forall r :: 0 <= r < |configs| ==> mCurrentlyAppliedPriority[r] == -1
    {
      mMappings, mConfigs, mCurrMode := mappings, configs, currMode;
      mCurrentlyAppliedPriority := seq(|configs|, _ => -1);
      var clusterMap := BuildFlatMap(clusterIDs);
      var cGroupMap := BuildFlatMap(cGroupIDs);
      var table := NewTable(configs, cores, clusters, cGroups);
      mFlatClusterMap, mFlatCGroupMap, mCocoTable := clusterMap, cGroupMap, table;
      mCores, mClusters, mCGroups, mClusterIDs, mCGroupIDs := cores, clusters, cGroups, clusterIDs, cGroupIDs;
      history := seq(|configs|, _ => []);
      home := map[];
      passed := [];
      force := seq(|table|, r requires 0 <= r < |table| => seq(|table[r]| / TOTAL_PRIORITIES, _ => Untouched));
      new;
      EmptyTableIsValid();
    }

    // ----- what every reachable state of the table satisfies ------------------------------------------------

    /** Conservation: each list holds exactly the requests that came in and did not
        leave for its resource, instance and priority, stably sorted by the policy. */
    lemma ListHoldsTheLive(r: int, i: nat, p: nat)
      requires Valid() && 0 <= r < |mCocoTable| && Fits(Cfg(r), i, p)
      ensures InRange(r, Slot(i, p))
      ensures mCocoTable[r][Slot(i, p)].Nodes == Arrange(mConfigs[r].mPolicy, NodeKey, Live(history[r], i, p))
      ensures Distinct(Live(history[r], i, p))
    {
      assert RowAt(r);
      ListsAreArranged(Cfg(r), NodeKey, history[r], i, p);
    }

    /** What is live are the linked nodes, each at its instance and at the priority of its list. */
    lemma LiveIsHome(r: int, i: nat, p: nat, n: ResIterable)
      requires Valid() && 0 <= r < |mCocoTable| && Fits(Cfg(r), i, p)
      ensures n in Live(history[r], i, p) <==>
        n in home && home[n] == p && GetCocoTablePrimaryIndex(n.mData) == r && Instance(n) == i
    {
      ListHoldsTheLive(r, i, p);
      ArrangeMembers(mConfigs[r].mPolicy, NodeKey, Live(history[r], i, p), n);
      assert KnownAt(home, r, Slot(i, p)) && ListAt(r, Slot(i, p));
      if n in home && home[n] == p && GetCocoTablePrimaryIndex(n.mData) == r && Instance(n) == i {
        assert HomeAt(home, n);
        SecondaryIndexIsSlot(n, p);
      }
    }

    /** The arbitration theorem for a system-wide resource that the current mode
        admits: the remembered priority is the best live one and the node in force is
        the policy's winner there; with nothing live it is -1 and the tear ran last. */
    lemma GlobalResourceIsArbitrated(r: int)
      requires Valid() && 0 <= r < |mCocoTable| && mConfigs[r].mApplyType == APPLY_GLOBAL && Cfg(r).admits && history[r] != []
      ensures |force[r]| == 1
      ensures var cur := mCurrentlyAppliedPriority[r];
        || (0 <= cur && force[r][0].Applied? && Promised(Cfg(r), NodeKey, history[r], 0, cur, force[r][0].node))
        || (cur == -1 && force[r][0] == Torn && forall q :: 0 <= q < TOTAL_PRIORITIES ==> Live(history[r], 0, q) == [])
      ensures force[r][0].Applied? ==> 0 <= mCurrentlyAppliedPriority[r]
      ensures force[r][0].Applied? ==>
        exists w :: BestOf(mConfigs[r].mPolicy, Live(history[r], 0, mCurrentlyAppliedPriority[r]), w)
                    && Live(history[r], 0, mCurrentlyAppliedPriority[r])[w] == force[r][0].node
    {
      assert RowAt(r);
      RequestInForce(Cfg(r), NodeKey, history[r]);
      var cur := mCurrentlyAppliedPriority[r];
      if force[r][0].Applied? {
        var live := Live(history[r], 0, cur);
        var w :| Winner(mConfigs[r].mPolicy, NodeKey, live, w) && live[w] == force[r][0].node;
        WinnerIsBest(mConfigs[r].mPolicy, live, w);
      }
    }

    /** The head of any list, told the same way. */
    lemma HeadIsBest(r: int, i: nat, p: nat)
      requires Valid() && 0 <= r < |mCocoTable| && Fits(Cfg(r), i, p) && Live(history[r], i, p) != []
      ensures InRange(r, Slot(i, p)) && mCocoTable[r][Slot(i, p)].Nodes != []
      ensures exists w :: BestOf(mConfigs[r].mPolicy, Live(history[r], i, p), w)
                          && Live(history[r], i, p)[w] == mCocoTable[r][Slot(i, p)].Nodes[0]
    {
      ListHoldsTheLive(r, i, p);
      var w := HeadIsWinner(mConfigs[r].mPolicy, NodeKey, Live(history[r], i, p));
      WinnerIsBest(mConfigs[r].mPolicy, Live(history[r], i, p), w);
    }

    /** What the arbitration of a resource goes by: its policy, whether the device's mode is one of
        its modes, and a fourth of its lists as the number of instances. */
    lemma ConfigSpelledOut(r: int)
      requires 0 <= r < |mConfigs| && r < |mCocoTable|
      ensures Cfg(r).policy == mConfigs[r].mPolicy && Cfg(r).instances == |mCocoTable[r]| / 4
      ensures Cfg(r).admits <==> mConfigs[r].mModes & mCurrMode != 0
    {
    }

    /** A resource none of whose modes is the device's is never applied. */
    lemma InadmissibleIsNeverApplied(r: int, i: nat)
      requires Valid() && 0 <= r < |mCocoTable| && mConfigs[r].mModes & mCurrMode == 0 && i < |force[r]|
      ensures !force[r][i].Applied?
    {
      assert RowAt(r);
      NeverAppliedOutsideItsModes(Cfg(r), NodeKey, history[r], i);
    }

    /** The same per instance, while all traffic on the resource has one priority. */
    lemma InstanceIsArbitrated(r: int, i: nat, p: nat)
      requires Valid() && 0 <= r < |mCocoTable| && Fits(Cfg(r), i, p) && Cfg(r).admits && UsesOnly(history[r], {p})
      ensures i < |force[r]|
      ensures if Live(history[r], i, p) == [] then !force[r][i].Applied?
              else force[r][i].Applied? && Promised(Cfg(r), NodeKey, history[r], i, p, force[r][i].node)
    {
      assert RowAt(r);
      OnePriorityInForce(Cfg(r), NodeKey, history[r], i, p);
    }

    /** Drain: an instance all of whose lists are empty was torn down, if ever touched. */
    lemma DrainedInstanceIsTorn(r: int, i: nat)
      requires Valid() && 0 <= r < |mCocoTable| && i < Cfg(r).instances
      requires forall p :: 0 <= p < TOTAL_PRIORITIES ==> Live(history[r], i, p) == []
      ensures i < |force[r]|
      ensures force[r][i] == if exists k :: 0 <= k < |history[r]| && history[r][k].instance == i then Torn else Untouched
    {
      assert RowAt(r);
      forall p | 0 <= p < TOTAL_PRIORITIES ensures After(Cfg(r), NodeKey, history[r]).lists[Slot(i, p)] == [] {
        ListsAreArranged(Cfg(r), NodeKey, history[r], i, p);
      }
      DrainedIsTorn(Cfg(r), NodeKey, history[r], i);
    }

    /** The instance a resource names, and that the target knows it: its ids are distinct and
        no more than there are instances. */
    function Where(res: Resource): int
      requires Registered(res)
    {
      match GetResConf(res).mApplyType
      case APPLY_CORE => res.GetCoreValue()
      case APPLY_CLUSTER => res.GetClusterValue()
      case APPLY_CGROUP => res.GetValueAt(0)
      case APPLY_GLOBAL => 0
    }

    ghost predicate Placed(res: Resource) {
      Registered(res) &&
      match GetResConf(res).mApplyType
      case APPLY_CORE => Where(res) < mCores
      case APPLY_CLUSTER => Distinct(mClusterIDs) && |mClusterIDs| <= mClusters && Where(res) in mClusterIDs
      case APPLY_CGROUP => Distinct(mCGroupIDs) && |mCGroupIDs| <= mCGroups && Where(res) in mCGroupIDs && Where(res) != -1
      case APPLY_GLOBAL => true
    }

    /** The flat instance number behind the secondary index. */
    ghost function FlatInstance(res: Resource): nat
      requires Registered(res)
    {
      match GetResConf(res).mApplyType
      case APPLY_CORE => res.GetCoreValue()
      case APPLY_CLUSTER => Flat(mFlatClusterMap, res.GetClusterValue())
      case APPLY_CGROUP => Flat(mFlatCGroupMap, res.GetValueAt(0))
      case APPLY_GLOBAL => 0
    }

    lemma SecondaryIndexIs(res: Resource, priority: int)
      requires Sized() && Placed(res) && 0 <= priority < TOTAL_PRIORITIES
      ensures GetCocoTableSecondaryIndex(res, priority) == Slot(FlatInstance(res), priority)
    {
    }

    /** A resource of a known instance has its list: its index is in range. */
    lemma PlacedIsInRange(res: Resource, priority: int)
      requires Sized() && Placed(res) && 0 <= priority < TOTAL_PRIORITIES
      ensures InRange(GetCocoTablePrimaryIndex(res), GetCocoTableSecondaryIndex(res, priority))
    {
      SecondaryIndexIs(res, priority);
      match GetResConf(res).mApplyType
      case APPLY_CLUSTER => FlatIndexIs(mClusterIDs, mFlatClusterMap, Where(res));
      case APPLY_CGROUP => FlatIndexIs(mCGroupIDs, mFlatCGroupMap, Where(res));
      case _ =>
    }

    /** Told by the fields: a resource is found in the row its code is mapped to, at four times
        its core, its position among the ids of clusters or cgroups, or 0, plus the level. */
    lemma IndexSpelledOut(res: Resource, info: bv32, core: bv32, cluster: bv32, priority: int, k: nat)
      requires Sized() && res.mResCode in mMappings && 0 <= mMappings[res.mResCode] < |mConfigs|
      requires core < 256 && cluster < 256 && res.mResInfo == V.WithCluster(V.WithCore(info, core), cluster)
      ensures Registered(res) && GetCocoTablePrimaryIndex(res) == mMappings[res.mResCode]
      ensures var index := GetCocoTableSecondaryIndex(res, priority);
        match mConfigs[mMappings[res.mResCode]].mApplyType
        case APPLY_CORE => index == core as int * 4 + priority
        case APPLY_CLUSTER => Distinct(mClusterIDs) && k < |mClusterIDs| && mClusterIDs[k] == cluster as int ==> index == k * 4 + priority
        case APPLY_CGROUP =>
          Distinct(mCGroupIDs) && k < |mCGroupIDs| && |res.mValues| > 0 && mCGroupIDs[k] == res.mValues[0] != -1 ==> index == k * 4 + priority
        case APPLY_GLOBAL => index == priority
    {
      TranslatedReadsBack(res, info, core, cluster);
    }

    /** A resource has four lists for each core, cluster or cgroup, or four in all. */
    lemma RowsSpelledOut(r: int)
      requires Sized() && 0 <= r < |mConfigs|
      ensures match mConfigs[r].mApplyType
        case APPLY_CORE => |mCocoTable[r]| == 4 * mCores
        case APPLY_CLUSTER => |mCocoTable[r]| == 4 * mClusters
        case APPLY_CGROUP => |mCocoTable[r]| == 4 * mCGroups
        case APPLY_GLOBAL => |mCocoTable[r]| == 4
    {
    }

    /** A resource of a known instance takes part in the arbitration exactly if its policy is
        not to pass through; otherwise it gets its callbacks directly: the applier on arrival
        if one of its modes is the device's, the tear on departure. */
    lemma PlacedTakesPartIff(n: ResIterable, priority: int)
      requires Sized() && Placed(n.mData) && 0 <= priority < TOTAL_PRIORITIES
      ensures var config := mConfigs[mMappings[n.mData.mResCode]];
        && (Tracked(n, priority) <==> config.mPolicy != PASS_THROUGH)
        && PassOf(n, true) == (if config.mPolicy == PASS_THROUGH && config.mModes & mCurrMode != 0 then [Apply(n)] else [])
        && PassOf(n, false) == (if config.mPolicy == PASS_THROUGH then [Tear(n)] else [])
    {
      PlacedIsInRange(n.mData, priority);
    }

    /** Two resources of known instances share a list if and only if they are the same
        resource of the same instance at the same priority. */
    lemma ShareAListIff(a: Resource, b: Resource, p: int, q: int)
      requires Sized() && Placed(a) && Placed(b) && 0 <= p < TOTAL_PRIORITIES && 0 <= q < TOTAL_PRIORITIES
      ensures GetCocoTablePrimaryIndex(a) == GetCocoTablePrimaryIndex(b)
           && GetCocoTableSecondaryIndex(a, p) == GetCocoTableSecondaryIndex(b, q)
         <==> GetCocoTablePrimaryIndex(a) == GetCocoTablePrimaryIndex(b) && Where(a) == Where(b) && p == q
    {
      if GetCocoTablePrimaryIndex(a) == GetCocoTablePrimaryIndex(b) {
        SecondaryIndexIs(a, p);
        SecondaryIndexIs(b, q);
        SlotIsInjective(FlatInstance(a), p, FlatInstance(b), q);
        match GetResConf(a).mApplyType
        case APPLY_CLUSTER =>
          FlatIndexIs(mClusterIDs, mFlatClusterMap, Where(a));
          FlatIndexIs(mClusterIDs, mFlatClusterMap, Where(b));
        case APPLY_CGROUP =>
          FlatIndexIs(mCGroupIDs, mFlatCGroupMap, Where(a));
          FlatIndexIs(mCGroupIDs, mFlatCGroupMap, Where(b));
        case _ =>
      }
    }

    /** Two cgroup resources of one code share a list exactly when they have the same
        priority and the same flat index; different ids collide exactly when both read
        as index 0 or were given the same index. */
    lemma CGroupsShareAListIff(a: Resource, b: Resource, p: nat, q: nat)
      requires Registered(a) && a.mResCode == b.mResCode && GetResConf(a).mApplyType == APPLY_CGROUP
      requires p < TOTAL_PRIORITIES && q < TOTAL_PRIORITIES && a.GetValueAt(0) != -1 && b.GetValueAt(0) != -1
      ensures GetCocoTableSecondaryIndex(a, p) == GetCocoTableSecondaryIndex(b, q) <==>
        p == q && Flat(mFlatCGroupMap, a.GetValueAt(0)) == Flat(mFlatCGroupMap, b.GetValueAt(0))
    {
    }
  }

  lemma FlatIndexIs(ids: seq<int>, m: map<int, nat>, id: int)
    requires Distinct(ids) && id in ids && FlatMapOf(ids, m)
    ensures Flat(m, id) < |ids| && ids[Flat(m, id)] == id
  {
    var k :| 0 <= k < |ids| && ids[k] == id;
  }

  /** With the maps the constructor builds from distinct ids, an id shares the index of
      the registered `id` exactly when it is that id, or `id` came first and the other
      was never registered. */
  lemma FlatCollisionIff(ids: seq<int>, m: map<int, nat>, id: int, other: int)
    requires Distinct(ids) && id in ids && FlatMapOf(ids, m)
    ensures Flat(m, id) < |ids|
    ensures Flat(m, id) == Flat(m, other) <==> id == other || (id == ids[0] && other !in ids)
  {
    var k :| 0 <= k < |ids| && ids[k] == id;
    if other in ids {
      var j :| 0 <= j < |ids| && ids[j] == other;
    }
  }

  ghost function Opt(node: ResIterable?): set<ResIterable> {
    if node == null then {} else {node}
  }
}
