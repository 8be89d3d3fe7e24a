/** The priority queue and its consumer (modula/Components/OrderedQueue,
    resource-tuner/core/RequestQueue).

    The consumer works on the request manager and the coordinator table. Its loop is proved to
    be a run of the protocol, together with whatever other threads do meanwhile: it serves the
    messages in non-decreasing priority value, and afterwards the table holds exactly the nodes
    the protocol says. `Valid()` holds between any two steps of any thread. */
module RequestQueues {
  import opened RequestManagement
  import opened Protocol
  import opened Wrappers
  import opened DoublyLinked
  import A = Arbitration
  import C = CoordinatorTable
  import opened ResourceData

  /** `served` left the queue with the smaller levels first, and `rest` is still there. */
  ghost predicate InOrder(all: multiset<Msg>, served: seq<Msg>, rest: multiset<Msg>) {
    && multiset(served) + rest == all
    && (forall i, j :: 0 <= i < j < |served| ==> NoLater(served[i], served[j]))
    && (forall i, m :: 0 <= i < |served| && m in rest ==> NoLater(served[i], m))
  }

  lemma InOrderSnoc(all: multiset<Msg>, served: seq<Msg>, rest: multiset<Msg>, m: Msg)
    requires InOrder(all, served, rest) && Minimal(m, rest)
    ensures InOrder(all, served + [m], rest - multiset{m})
  {
    assert rest == (rest - multiset{m}) + multiset{m};
    LeastIsMostUrgent(m, rest);
    assert multiset(served + [m]) == multiset(served) + multiset{m};
  }

  class OrderedQueue {
    var mElementCount: int
    var mOrderedQueue: multiset<Msg>

    ghost predicate Valid()
      reads this
    {
      mElementCount == |mOrderedQueue|
    }

    constructor ()
      ensures Valid() && mOrderedQueue == multiset{}
    {
      mElementCount, mOrderedQueue := 0, multiset{};
    }

    method AddAndWakeup(queueItem: Msg) returns (ok: bool)
      requires Valid()
      modifies this
      ensures Valid()
      ensures ok <==> match queueItem
                      case Wakeup => true
                      case Tune(req) => req.priority >= -2
                      case Untune(_, p) => p >= -2
                      case Retune(_, p) => p >= -2
      ensures mOrderedQueue == if ok then old(mOrderedQueue) + multiset{queueItem} else old(mOrderedQueue)
    {
      if Priority(queueItem) < SERVER_CLEANUP_TRIGGER_PRIORITY { return false; }
      mOrderedQueue := mOrderedQueue + multiset{queueItem};
      mElementCount := mElementCount + 1;
      return true;
    }

    /** Some message of the smallest level; which one is left open. */
    method Pop() returns (m: Option<Msg>)
      requires Valid()
      modifies this
      ensures Valid()
      ensures m.None? <==> old(mOrderedQueue) == multiset{}
      ensures m.None? ==> mOrderedQueue == old(mOrderedQueue)
      ensures m.Some? ==> forall x :: x in old(mOrderedQueue) ==> NoLater(m.value, x)
      ensures m.Some? ==> Minimal(m.value, old(mOrderedQueue)) && mOrderedQueue == old(mOrderedQueue) - multiset{m.value}
    {
      if mElementCount == 0 { return None; }
      ghost var witness_ := PickMinimal(mOrderedQueue);
      var top :| top in mOrderedQueue && Minimal(top, mOrderedQueue);
      LeastIsMostUrgent(top, mOrderedQueue);
      mOrderedQueue := mOrderedQueue - multiset{top};
      mElementCount := mElementCount - 1;
      return Some(top);
    }
  }

  /** What the threads beside the consumer can do while it drains: everything that does not
      need the queue's lock. */
  predicate ByOthers(step: Step) {
    !step.Enqueue? && !step.Wake? && !step.Consume? && !step.Commit? && !step.Rest?
  }

  /** The handle was issued, and no request has it any more. */
  ghost predicate Gone(s: State, h: int) {
    h < s.next && h !in s.manager.active && forall r :: r in s.arriving ==> r.handle != h
  }

  /** The step leaves the table and the requests behind it as they are. */
  ghost predicate Quiet(s: State, step: Step) {
    !step.Receive? && !step.Commit? && !RemovesNodes(s, step)
  }

  /** The same requests are complete, and a handle that is gone stays so. */
  ghost predicate HandlesKept(s: State, t: State) {
    && (forall h :: Done(t, h) <==> Done(s, h))
    && (forall h :: Gone(s, h) ==> Gone(t, h))
  }

  lemma AdmitKeepsHandles(s: State, max: nat, req: Req)
    requires Inv(s, max) && Enabled(s, Admit(req))
    ensures HandlesKept(s, Do(s, max, Admit(req)))
  {
    assert ArrivingOk(s, req);
  }

  lemma ConsumeKeepsHandles(s: State, max: nat, m: Msg)
    requires Inv(s, max) && Enabled(s, Consume(m)) && Quiet(s, Consume(m))
    ensures HandlesKept(s, Do(s, max, Consume(m)))
  {
    ServeKeepsLinked(s, max, m);
    ServeKeepsEntries(s, max, m);
  }

  /** Quiet steps complete no request and let no complete one go. */
  lemma QuietKeepsHandles(s: State, max: nat, step: Step)
    requires Inv(s, max) && Enabled(s, step) && Quiet(s, step)
    ensures HandlesKept(s, Do(s, max, step))
  {
    if step.Admit? {
      AdmitKeepsHandles(s, max, step.req);
    } else if step.Consume? {
      ConsumeKeepsHandles(s, max, step.m);
    }
  }

  /** The untune of a complete request makes that one handle inactive. */
  lemma WithdrawnHandles(s: State, max: nat, m: Msg)
    requires Inv(s, max) && Enabled(s, Consume(m)) && RemovesNodes(s, Consume(m))
    ensures var t := Do(s, max, Consume(m));
      && (forall h :: Done(t, h) <==> Done(s, h) && h != m.handle)
      && (forall h :: Gone(s, h) ==> Gone(t, h) && h != m.handle)
  {
    assert ActiveOk(s, m.handle);
  }

  lemma ConsumeTakes(s: State, max: nat, m: Msg)
    requires Enabled(s, Consume(m))
    ensures var t := Do(s, max, Consume(m));
      && t.queue == s.queue - multiset{m}
      && (t.draining <==> Priority(m) != SERVER_CLEANUP_TRIGGER_PRIORITY)
      && (t.serving.Some? ==> t.draining)
  {
  }

  lemma WithdrawnManager(s: State, max: nat, m: Msg)
    requires Enabled(s, Consume(m)) && RemovesNodes(s, Consume(m))
    ensures Do(s, max, Consume(m)).manager == RemoveRequest(s.manager, s.manager.active[m.handle].req)
  {
  }

  /** How taking a tune into the table ended: were its nodes linked, and did it succeed? */
  datatype Outcome = Outcome(handle: int, ok: bool, linked: bool) {
    ghost function Strays(): set<int> {
      if linked && !ok then {handle} else {}
    }
  }

  lemma CommittedHandles(s: State, max: nat, c: Outcome)
    requires Inv(s, max) && Enabled(s, Commit(c.ok)) && c.handle == s.serving.value.handle
    ensures var t := Do(s, max, Commit(c.ok));
      && (forall h :: Done(t, h) <==> Done(s, h) || (c.ok && h == c.handle))
      && !Done(s, c.handle) && !Gone(s, c.handle)
      && (forall h :: Gone(s, h) ==> Gone(t, h))
      && (!c.ok ==> Gone(t, c.handle))
  {
    var req := s.serving.value;
    assert Tune(req) in Pending(s) && TuneOk(s, req) && ActiveOk(s, req.handle);
    forall r | r in s.arriving ensures r.handle != c.handle { assert ArrivingOk(s, r); }
  }

  lemma StepKeepsGone(s: State, max: nat, step: Step, h: int)
    requires Inv(s, max) && Enabled(s, step) && Gone(s, h)
    ensures Gone(Do(s, max, step), h)
  {
    if step.Commit? {
      CommittedHandles(s, max, Outcome(s.serving.value.handle, step.timerAllocated, false));
    } else if RemovesNodes(s, step) {
      WithdrawnHandles(s, max, step.m);
    } else if !step.Receive? {
      QuietKeepsHandles(s, max, step);
    }
  }

  /** A handle that was issued and is gone never comes back. */
  lemma {:induction false} GoneForEver(s: State, max: nat, steps: seq<Step>, h: int)
    requires Inv(s, max) && Gone(s, h) && CanFollow(s, max, steps)
    ensures Gone(Follow(s, max, steps), h)
    decreases |steps|
  {
    if steps != [] {
      StepKeepsInv(s, max, steps[0]);
      StepKeepsGone(s, max, steps[0], h);
      GoneForEver(Do(s, max, steps[0]), max, steps[1..], h);
    }
  }

  lemma CommittedState(s: State, max: nat, ok: bool)
    requires Enabled(s, Commit(ok))
    ensures var t, req := Do(s, max, Commit(ok)), s.serving.value; var marked := MarkComplete(s.manager, req.handle);
      && t.queue == s.queue && t.draining == s.draining && t.serving == None
      && t.manager == if ok then marked else RemoveRequest(marked, req)
  {
  }

  /** A tune request as it arrives, with its object. */
  datatype Arrival = Arrival(req: Req, request: C.Request)

  /** The consumer, with the coordinator table it works on. */
  class RequestQueue {
    const queue: OrderedQueue
    const manager: RequestManager
    const table: C.CocoTable
    /** The request object behind each handle. */
    var requests: map<int, C.Request>
    /** The protocol state; its manager and its queue are those on the heap. */
    ghost var protocol: State
    /** The request each node belongs to. */
    ghost var owner: map<ResIterable, int>
    /** Requests that were dropped when their timer could not be started, with their nodes
        still in the table. */
    ghost var stray: set<int>

    ghost function Value(): State
      reads this, queue, manager, manager.mUntuneCache, manager.clientDataManager
    {
      protocol.(manager := manager.Value(), queue := queue.mOrderedQueue)
    }

    ghost function Max(): nat {
      manager.mMaxConcurrentRequests
    }

    ghost function RequestLists(): set<DLManager>
      reads `requests
    {
      set h | h in requests && requests[h].mResourceList != null :: requests[h].mResourceList
    }

    ghost function RequestNodes(): set<ResIterable>
      reads `requests, RequestLists()
    {
      set d, n | d in RequestLists() && n in d.Nodes :: n
    }

    /** The resources of the request with this handle. */
    ghost function NodesOf(h: int): seq<ResIterable>
      requires h in requests
      reads `requests, requests[h].mResourceList
    {
      table.ReqNodes(requests[h])
    }

    /** The positions of the resources that have a list in the table. */
    ghost function Slots(nodes: seq<ResIterable>, priority: int): set<nat> {
      set k: nat | k < |nodes| && table.Tracked(nodes[k], priority) :: k
    }

    /** The value stands for the request object of its handle. */
    ghost predicate Known(req: Req)
      reads `requests
      reads if req.handle in requests then {requests[req.handle].mResourceList} else {}
    {
      && req.handle in requests
      && requests[req.handle].mPriority == req.priority < A.TOTAL_PRIORITIES
      && Slots(NodesOf(req.handle), req.priority) == req.slots
    }

    ghost predicate Owned()
      reads `requests, `owner, RequestLists()
    {
      && (forall h, n :: h in requests && n in NodesOf(h) ==> n in owner && owner[n] == h)
      && (forall n :: n in owner ==> owner[n] in requests && n in NodesOf(owner[n]))
    }

    ghost predicate AllAdmissible()
      reads `requests, RequestLists(), RequestNodes()`next0, RequestNodes()`prev0
    {
      forall h {:trigger requests[h]} :: h in requests ==> table.Admissible(requests[h])
    }

    twostate lemma RequestStays(h: int)
      requires h in old(requests) && h in requests && requests[h] == old(requests[h]) && old(table.Admissible(requests[h]))
      requires unchanged(old(RequestLists())) && unchanged(old(RequestNodes())`next0) && unchanged(old(RequestNodes())`prev0)
      ensures table.Admissible(requests[h]) && NodesOf(h) == old(NodesOf(h))
    {
      var list := requests[h].mResourceList;
      if list != null {
        assert list in old(RequestLists());
        assert old(list.Valid()) && list.Nodes == old(list.Nodes);
        assert forall n :: n in old(list.Nodes) ==> n in old(RequestNodes());
        forall i | 0 <= i < |list.Nodes| ensures NextAt(list.Nodes, REQUEST_DL_NR, i) && PrevAt(list.Nodes, REQUEST_DL_NR, i) {
          assert list.Nodes[i] in old(list.Nodes);
          assert old(NextAt(list.Nodes, REQUEST_DL_NR, i)) && old(PrevAt(list.Nodes, REQUEST_DL_NR, i));
        }
      }
    }

    /** What happens elsewhere leaves the request objects as they are. */
    twostate lemma ObjectsStay()
      requires old(Owned()) && old(AllAdmissible()) && unchanged(`requests) && unchanged(`owner)
      requires unchanged(RequestLists()) && unchanged(old(RequestNodes())`next0) && unchanged(old(RequestNodes())`prev0)
      ensures Owned() && AllAdmissible() && RequestNodes() == old(RequestNodes())
      ensures forall h :: h in requests ==> NodesOf(h) == old(NodesOf(h))
      ensures forall req :: old(Known(req)) ==> Known(req)
    {
      forall h | h in requests ensures table.Admissible(requests[h]) && NodesOf(h) == old(NodesOf(h)) {
        assert old(table.Admissible(requests[h]));
      }
    }

    ghost predicate AllKnown()
      reads this, RequestLists(), queue, manager, manager.mUntuneCache, manager.clientDataManager
    {
      var s := Value();
      && (forall h :: h in s.manager.active ==> Known(s.manager.active[h].req))
      && (forall r :: r in s.arriving ==> Known(r))
      && (forall h :: h in requests ==> h < s.next)
      && (forall h :: h in stray ==> h in requests && Gone(s, h))
    }

    /** The nodes of this request are in the table, wherever they have a list. */
    ghost predicate InTable(h: int)
      reads this, queue, manager, manager.mUntuneCache, manager.clientDataManager
    {
      h in requests && (Done(Value(), h) || h in stray)
    }

    /** The table holds the nodes of the complete requests and of the strays, each at the
        priority of its request, and no other node. */
    ghost predicate Booked()
      reads this, RequestLists(), queue, manager, manager.mUntuneCache, manager.clientDataManager, table
    {
      && (forall n :: n in table.home ==> Listed(n))
      && (forall n :: n in owner && Listed(n) ==> n in table.home)
    }

    ghost predicate Listed(n: ResIterable)
      reads this, queue, manager, manager.mUntuneCache, manager.clientDataManager
    {
      n in owner && InTable(owner[n]) && table.Tracked(n, requests[owner[n]].mPriority)
    }

    ghost predicate AtPriority()
      reads this, table
    {
      forall n :: n in table.home && n in owner && owner[n] in requests ==> table.home[n] == requests[owner[n]].mPriority
    }

    /** The nodes of a complete request are in the table, each at its priority. */
    ghost predicate AtHome(h: int)
      requires h in requests
      reads `requests, requests[h].mResourceList, table
    {
      forall n :: n in NodesOf(h) && table.Tracked(n, requests[h].mPriority) ==> n in table.home && table.home[n] == requests[h].mPriority
    }

    /** The table stays booked while the same requests are complete. */
    twostate lemma BookingStays()
      requires old(Booked()) && old(AtPriority()) && unchanged(`requests) && unchanged(`owner) && unchanged(`stray)
      requires table.home == old(table.home)
      requires forall h :: Done(Value(), h) <==> old(Done(Value(), h))
      ensures Booked() && AtPriority()
    {
      forall n | n in owner ensures Listed(n) <==> old(Listed(n)) {}
    }

    ghost predicate Valid()
      reads this, queue, manager, manager.mUntuneCache, manager.clientDataManager
      reads RequestLists(), RequestNodes()`next0, RequestNodes()`prev0
      reads table, table.Lists(), table.Nodes()`next1, table.Nodes()`prev1
    {
      && queue.Valid() && manager.Valid() && table.Valid() && Owned() && AllAdmissible()
      && Inv(Value(), Max())
      && AllKnown() && Booked() && AtPriority()
    }

    /** A server that has received nothing yet. */
    constructor (q: OrderedQueue, m: RequestManager, t: C.CocoTable)
      requires q.Valid() && q.mOrderedQueue == multiset{} && m.Valid() && m.Value().active == map[]
      requires t.Valid() && t.home == map[]
      ensures Valid() && queue == q && manager == m && table == t && requests == map[] && stray == {}
      ensures Value() == Init(1).(manager := m.Value())
    {
      queue, manager, table, requests := q, m, t, map[];
      protocol, owner, stray := Init(1), map[], {};
      new;
      table.StaysValid();
    }

    // ----- the other threads ------------------------------------------------------------------

    /** A request object that no one has seen before, for its tune request. */
    ghost predicate Incoming(x: Arrival)
      reads this, RequestLists(), x.request.mResourceList
      reads (if x.request.mResourceList == null then {} else AsSet(x.request.mResourceList.Nodes))`next0
      reads (if x.request.mResourceList == null then {} else AsSet(x.request.mResourceList.Nodes))`prev0
    {
      && table.Admissible(x.request) && x.request.mPriority == x.req.priority < A.TOTAL_PRIORITIES
      && (forall n :: n in table.ReqNodes(x.request) ==> n !in owner)
      && x.req.slots == Slots(table.ReqNodes(x.request), x.req.priority)
    }

    /** The requests known before a quiet step are known after it. */
    lemma StepKeepsKnown(s: State, step: Step)
      requires Inv(s, Max()) && Enabled(s, step) && Quiet(s, step)
      requires Value() == Do(s, Max(), step)
      requires (forall h :: h in s.manager.active ==> Known(s.manager.active[h].req)) && (forall r :: r in s.arriving ==> Known(r))
      requires (forall h :: h in requests ==> h < s.next) && (forall h :: h in stray ==> h in requests && Gone(s, h))
      ensures AllKnown()
    {
      StepKeepsEntries(s, Max(), step);
      StepKeepsArrivals(s, Max(), step);
      QuietKeepsHandles(s, Max(), step);
    }

    /** A quiet step keeps everything in order, as long as the objects stay. */
    twostate lemma QuietKeepsValid(step: Step)
      requires old(Valid()) && Enabled(old(Value()), step) && Quiet(old(Value()), step)
      requires unchanged(`requests) && unchanged(`owner) && unchanged(`stray)
      requires table.Valid() && Owned() && AllAdmissible() && table.home == old(table.home)
      requires forall r :: old(Known(r)) ==> Known(r)
      requires queue.Valid() && manager.Valid() && Value() == Do(old(Value()), Max(), step)
      ensures Valid()
    {
      var s := old(Value());
      StepKeepsInv(s, Max(), step);
      QuietKeepsHandles(s, Max(), step);
      StepKeepsKnown(s, step);
      BookingStays();
    }

    twostate lemma StepKeepsValid(step: Step)
      requires old(Valid()) && Enabled(old(Value()), step) && Quiet(old(Value()), step)
      requires unchanged(`requests) && unchanged(`owner) && unchanged(`stray)
      requires unchanged(RequestLists()) && unchanged(old(RequestNodes())`next0) && unchanged(old(RequestNodes())`prev0)
      requires table.Valid() && unchanged(table)
      requires queue.Valid() && manager.Valid() && Value() == Do(old(Value()), Max(), step)
      ensures Valid()
    {
      ObjectsStay();
      QuietKeepsValid(step);
    }

    /** What a step of another thread does. */
    method ManagerStep(step: Step)
      requires manager.Valid() && Enabled(Value(), step) && ByOthers(step)
      modifies `protocol, manager, manager.mUntuneCache, manager.clientDataManager
      ensures manager.Valid() && Value() == Do(old(Value()), Max(), step)
    {
      ghost var t := Do(Value(), Max(), step);
      match step {
        case Admit(req) => var _ := manager.Add(req);
        case DisableHandle(handle, _) => var _ := manager.DisableRequestProcessing(handle);
        case VerifyUntune(handle, p) =>
          assert if manager.VerifyHandle(handle) then t.staged == Value().staged + multiset{Untune(handle, p)} else t.staged == Value().staged;
        case Track(tid) => manager.clientDataManager.CreateNewClient(tid);
        case Untrack(tid) => manager.clientDataManager.DeleteClientTID(tid);
        case _ =>
      }
      protocol := t;
    }

    method OtherThread(step: Step)
      requires Valid() && Enabled(Value(), step) && ByOthers(step) && !step.Receive?
      modifies `protocol, manager, manager.mUntuneCache, manager.clientDataManager
      ensures Valid() && Value() == Do(old(Value()), Max(), step)
    {
      ManagerStep(step);
      table.StaysValid();
      StepKeepsValid(step);
    }

    ghost function OwnerWith(h: int, request: C.Request): map<ResIterable, int>
      reads `owner, request.mResourceList
    {
      owner + map n | n in table.ReqNodes(request) :: h
    }

    /** The requests and the owners are as before, and one more request object is known. */
    twostate predicate Received(x: Arrival)
      reads `requests, `owner, x.request.mResourceList
      reads (if x.request.mResourceList == null then {} else AsSet(x.request.mResourceList.Nodes))`next0
      reads (if x.request.mResourceList == null then {} else AsSet(x.request.mResourceList.Nodes))`prev0
    {
      && requests == old(requests)[x.req.handle := x.request]
      && owner == old(OwnerWith(x.req.handle, x.request))
      && table.Admissible(x.request) && table.ReqNodes(x.request) == old(table.ReqNodes(x.request))
    }

    /** One more request object leaves the others as they are. */
    twostate lemma ObjectsGrow(x: Arrival)
      requires old(Owned()) && old(AllAdmissible()) && old(Incoming(x)) && x.req.handle !in old(requests) && Received(x)
      requires unchanged(old(RequestLists())) && unchanged(old(RequestNodes())`next0) && unchanged(old(RequestNodes())`prev0)
      ensures Owned() && AllAdmissible() && Known(x.req)
      ensures forall r :: old(Known(r)) ==> Known(r)
      ensures forall n :: n in old(owner) ==> n in owner && owner[n] == old(owner)[n]
      ensures forall n :: n in owner && n !in old(owner) ==> owner[n] == x.req.handle
    {
      forall h | h in requests && h != x.req.handle ensures table.Admissible(requests[h]) && NodesOf(h) == old(NodesOf(h)) {
        RequestStays(h);
      }
      forall h, n | h in requests && n in NodesOf(h) ensures n in owner && owner[n] == h {
        if h != x.req.handle { assert n in old(NodesOf(h)); }
      }
      forall n | n in owner ensures owner[n] in requests && n in NodesOf(owner[n]) {
        if n in old(owner) { assert n in old(NodesOf(owner[n])); }
      }
    }

    /** The new request is not in the table. */
    twostate lemma BookingGrows(x: Arrival)
      requires old(Booked()) && old(AtPriority()) && unchanged(`stray) && requests == old(requests)[x.req.handle := x.request]
      requires x.req.handle !in old(requests) && x.req.handle !in stray && !Done(Value(), x.req.handle)
      requires forall n :: n in old(owner) ==> n in owner && owner[n] == old(owner)[n]
      requires forall n :: n in owner && n !in old(owner) ==> owner[n] == x.req.handle
      requires table.home == old(table.home) && forall h :: Done(Value(), h) <==> old(Done(Value(), h))
      ensures Booked() && AtPriority()
    {
      forall n | n in old(owner) ensures old(Listed(n)) ==> Listed(n) {}
      forall n | n in owner && Listed(n) ensures n in old(owner) && old(Listed(n)) {}
    }

    lemma NewIsKnown(s: State, req: Req)
      requires Inv(s, Max()) && Enabled(s, Receive(req)) && Value() == Do(s, Max(), Receive(req)) && Known(req)
      requires (forall h :: h in s.manager.active ==> Known(s.manager.active[h].req)) && (forall r :: r in s.arriving ==> Known(r))
      requires (forall h :: h in requests ==> h <= s.next) && (forall h :: h in stray ==> h in requests && Gone(s, h))
      ensures AllKnown()
    {
    }

    twostate lemma ReceivedKeepsValid(x: Arrival)
      requires old(Valid()) && Enabled(old(Value()), Receive(x.req)) && old(Incoming(x)) && Received(x) && unchanged(`stray)
      requires unchanged(old(RequestLists())) && unchanged(old(RequestNodes())`next0) && unchanged(old(RequestNodes())`prev0)
      requires table.Valid() && unchanged(table)
      requires queue.Valid() && manager.Valid() && Value() == Do(old(Value()), Max(), Receive(x.req))
      ensures Valid()
    {
      var s := old(Value());
      ObjectsGrow(x);
      StepKeepsInv(s, Max(), Receive(x.req));
      assert x.req.handle in s.manager.active ==> ActiveOk(s, x.req.handle);
      NewIsKnown(s, x.req);
      BookingGrows(x);
    }

    method Book(x: Arrival)
      requires table.Valid() && Enabled(Value(), Receive(x.req)) && table.Admissible(x.request)
      modifies `protocol, `requests, `owner
      ensures table.Valid() && Received(x) && Value() == Do(old(Value()), Max(), Receive(x.req))
    {
      protocol := Do(Value(), Max(), Receive(x.req));
      requests := requests[x.req.handle := x.request];
      owner := OwnerWith(x.req.handle, x.request);
      table.StaysValid();
    }

    /** A tune request arrives. */
    method ReceiveTune(x: Arrival)
      requires Valid() && Enabled(Value(), Receive(x.req)) && Incoming(x)
      modifies `protocol, `requests, `owner
      ensures Valid() && Value() == Do(old(Value()), Max(), Receive(x.req)) && Received(x)
    {
      Book(x);
      ReceivedKeepsValid(x);
    }

    // ----- the consumer's work on the table ----------------------------------------------

    lemma ListsAreApart()
      requires table.Valid() && AllAdmissible()
      ensures RequestLists() !! table.Lists()
    {
      forall h | h in requests && requests[h].mResourceList != null ensures requests[h].mResourceList !in table.Lists() {
        assert table.Admissible(requests[h]);
        table.RequestListIsApart(requests[h].mResourceList);
      }
    }

    /** insertRequest on the request of the handle; `linked` tells whether its nodes got
        into the table. */
    method InsertNodes(h: int) returns (ok: bool, ghost linked: bool)
      requires table.Valid() && Owned() && AllAdmissible() && h in requests
      requires table.home.Keys <= owner.Keys && forall n :: n in NodesOf(h) ==> n !in table.home
      modifies table, table.Lists(), owner.Keys`next1, owner.Keys`prev1
      ensures table.Valid() && Owned() && AllAdmissible()
      ensures forall g :: g in requests ==> NodesOf(g) == old(NodesOf(g))
      ensures forall req :: old(Known(req)) ==> Known(req)
      ensures ok ==> linked
      ensures table.home == if linked then old(table.home) + table.Homes(NodesOf(h), requests[h].mPriority) else old(table.home)
      ensures linked ==> requests[h].mResourceList != null
      ensures linked ==> table.history == table.RecordedAll(old(table.history), NodesOf(h), requests[h].mPriority, true)
      ensures !linked ==> table.history == old(table.history)
    {
      var timerAllocated, timerStarts := *, *;
      var request := requests[h];
      ListsAreApart();
      assert table.Admissible(request);
      linked := request.mResourceList != null && (request.mDuration != -1 ==> timerAllocated);
      ok := table.InsertRequest(request, timerAllocated, timerStarts);
      ObjectsStay();
    }

    /** removeRequest on the request of the handle. */
    method RemoveNodes(h: int)
      requires table.Valid() && Owned() && AllAdmissible() && h in requests && table.home.Keys <= owner.Keys
      requires AtHome(h)
      modifies table, table.Lists(), owner.Keys`next1, owner.Keys`prev1
      ensures table.Valid() && Owned() && AllAdmissible()
      ensures forall g :: g in requests ==> NodesOf(g) == old(NodesOf(g))
      ensures forall req :: old(Known(req)) ==> Known(req)
      ensures table.home == old(table.home) - table.Homes(NodesOf(h), requests[h].mPriority).Keys
      ensures table.history == if requests[h].mResourceList == null then old(table.history)
        else table.RecordedAll(old(table.history), NodesOf(h), requests[h].mPriority, false)
    {
      var request := requests[h];
      ListsAreApart();
      assert table.Admissible(request);
      table.RemoveRequest(request);
      ObjectsStay();
    }

    // ----- serving one message ------------------------------------------------------------

    /** Is this the untune of a request that is in the table? */
    function FindComplete(m: Msg): (r: (bool, RequestInfo))
      reads manager, manager.mUntuneCache, manager.clientDataManager
      ensures r.0 <==> m.Untune? && Priority(m) != SERVER_CLEANUP_TRIGGER_PRIORITY
                         && m.handle in manager.Value().active && manager.Value().active[m.handle].completed
      ensures r.0 ==> r.1.req == manager.Value().active[m.handle].req
    {
      if m.Untune? && Priority(m) != SERVER_CLEANUP_TRIGGER_PRIORITY then
        var (known, info) := manager.GetRequestFromMap(m.handle);
        (known && Completed(info.status), info)
      else
        (false, RequestInfo(Req(0, 0, 0, {}), REQ_NOT_FOUND))
    }

    /** Any other message was popped from state `s`: at most a cancelled tune is dropped. */
    method ServeQuietly(m: Msg, ghost s: State) returns (tune: Option<Req>)
      requires manager.Valid() && manager.Value() == s.manager && Enabled(s, Consume(m)) && !RemovesNodes(s, Consume(m))
      requires table.Valid() && Owned() && AllAdmissible()
      modifies manager, manager.clientDataManager
      ensures manager.Valid() && manager.Value() == Do(s, Max(), Consume(m)).manager
      ensures table.Valid() && Owned() && AllAdmissible() && forall r :: old(Known(r)) ==> Known(r)
      ensures tune == Do(s, Max(), Consume(m)).serving
    {
      tune := None;
      if Priority(m) != SERVER_CLEANUP_TRIGGER_PRIORITY && m.Tune? {
        var status := manager.GetRequestProcessingStatus(m.req.handle);
        StatusBits(status);
        if Cancelled(status) || Completed(status) {
          Forget(m.req);
        } else {
          tune := Some(m.req);
        }
      }
    }

    /** The nodes of a request left the table, and it is complete no more. */
    twostate lemma WithdrawnBooking(h: int)
      requires old(Owned()) && old(Booked()) && old(AtPriority()) && h in requests && h !in stray
      requires unchanged(`requests) && unchanged(`owner) && unchanged(`stray) && NodesOf(h) == old(NodesOf(h))
      requires table.home == old(table.home) - table.Homes(NodesOf(h), requests[h].mPriority).Keys
      requires forall g :: Done(Value(), g) <==> old(Done(Value(), g)) && g != h
      ensures Booked() && AtPriority()
    {
      forall n | n in owner ensures Listed(n) <==> old(Listed(n)) && owner[n] != h {}
      forall n | n in owner && old(Listed(n)) ensures owner[n] == h <==> n in table.Homes(NodesOf(h), requests[h].mPriority) {}
    }

    lemma WithdrawnIsKnown(s: State, m: Msg)
      requires Inv(s, Max()) && Enabled(s, Consume(m)) && RemovesNodes(s, Consume(m)) && Value() == Do(s, Max(), Consume(m))
      requires (forall h :: h in s.manager.active ==> Known(s.manager.active[h].req)) && (forall r :: r in s.arriving ==> Known(r))
      requires (forall h :: h in requests ==> h < s.next) && (forall h :: h in stray ==> h in requests && Gone(s, h))
      ensures AllKnown()
    {
      WithdrawnHandles(s, Max(), m);
      ServeKeepsEntries(s, Max(), m);
    }

    /** The removal of a complete request left everything in order. */
    twostate lemma WithdrawnKeepsValid(m: Msg)
      requires old(Valid()) && Enabled(old(Value()), Consume(m)) && RemovesNodes(old(Value()), Consume(m))
      requires unchanged(`requests) && unchanged(`owner) && unchanged(`stray) && m.handle in requests
      requires table.Valid() && Owned() && AllAdmissible() && NodesOf(m.handle) == old(NodesOf(m.handle))
      requires forall r :: old(Known(r)) ==> Known(r)
      requires table.home == old(table.home) - table.Homes(NodesOf(m.handle), requests[m.handle].mPriority).Keys
      requires queue.Valid() && manager.Valid() && protocol == Do(old(Value()), Max(), Consume(m))
      requires queue.mOrderedQueue == protocol.queue && manager.Value() == protocol.manager
      ensures Valid() && Value() == protocol
    {
      var s := old(Value());
      StepKeepsInv(s, Max(), Consume(m));
      WithdrawnHandles(s, Max(), m);
      WithdrawnIsKnown(s, m);
      WithdrawnBooking(m.handle);
    }

    lemma CompleteIsHome()
      requires Valid()
      ensures table.home.Keys <= owner.Keys
      ensures forall h :: Done(Value(), h) ==> h in requests && AtHome(h) && Value().manager.active[h].req.handle == h
    {
      forall h | Done(Value(), h) ensures h in requests && AtHome(h) && Value().manager.active[h].req.handle == h {
        assert ActiveOk(Value(), h);
        forall n | n in NodesOf(h) && table.Tracked(n, requests[h].mPriority) ensures n in table.home {
          assert Listed(n);
        }
      }
    }

    /** The request leaves the manager; the table and the request objects stay. */
    method Forget(req: Req)
      requires table.Valid() && Owned() && AllAdmissible() && manager.Valid()
      modifies manager, manager.clientDataManager
      ensures table.Valid() && Owned() && AllAdmissible() && (forall h :: h in requests ==> NodesOf(h) == old(NodesOf(h)))
      ensures forall r :: old(Known(r)) ==> Known(r)
      ensures manager.Valid() && manager.Value() == RemoveRequest(old(manager.Value()), req)
    {
      manager.Remove(req);
      table.StaysValid();
      ObjectsStay();
    }

    /** A complete request goes: first its nodes, then its entry. */
    method Withdraw(req: Req)
      requires table.Valid() && Owned() && AllAdmissible() && req.handle in requests && table.home.Keys <= owner.Keys
      requires AtHome(req.handle) && manager.Valid()
      modifies manager, manager.clientDataManager, table, table.Lists(), owner.Keys`next1, owner.Keys`prev1
      ensures table.Valid() && Owned() && AllAdmissible() && NodesOf(req.handle) == old(NodesOf(req.handle))
      ensures forall r :: old(Known(r)) ==> Known(r)
      ensures table.home == old(table.home) - table.Homes(NodesOf(req.handle), requests[req.handle].mPriority).Keys
      ensures table.history == if requests[req.handle].mResourceList == null then old(table.history)
        else table.RecordedAll(old(table.history), NodesOf(req.handle), requests[req.handle].mPriority, false)
      ensures manager.Valid() && manager.Value() == RemoveRequest(old(manager.Value()), req)
    {
      RemoveNodes(req.handle);
      Forget(req);
    }

    /** Pop the next message; the rest stays as it is. */
    method PopNext() returns (message: Msg)
      requires Valid() && Value().draining && Value().serving.None? && queue.mOrderedQueue != multiset{}
      modifies `protocol, queue
      ensures Enabled(old(Value()), Consume(message)) && protocol == Do(old(Value()), Max(), Consume(message))
      ensures queue.Valid() && queue.mOrderedQueue == protocol.queue
      ensures manager.Valid() && manager.Value() == old(manager.Value())
      ensures table.Valid() && Owned() && AllAdmissible() && (forall h :: h in requests ==> NodesOf(h) == old(NodesOf(h)))
      ensures forall r :: old(Known(r)) ==> Known(r)
      ensures table.home.Keys <= owner.Keys
      ensures RemovesNodes(old(Value()), Consume(message)) ==>
        message.handle in requests && AtHome(message.handle) && old(Value()).manager.active[message.handle].req.handle == message.handle
    {
      ghost var s := Value();
      CompleteIsHome();
      var popped := queue.Pop();
      message := popped.value;
      ConsumeTakes(s, Max(), message);
      protocol := Do(s, Max(), Consume(message));
      table.StaysValid();
      ObjectsStay();
    }

    method Put(m: Msg) returns (ok: bool)
      requires queue.Valid() && manager.Valid() && Enabled(Value(), Step.Enqueue(m))
      modifies `protocol, queue
      ensures queue.Valid() && manager.Valid() && Value() == Do(old(Value()), Max(), Step.Enqueue(m))
      ensures ok <==> Priority(m) >= SERVER_CLEANUP_TRIGGER_PRIORITY
    {
      ghost var t := Do(Value(), Max(), Step.Enqueue(m));
      ok := queue.AddAndWakeup(m);
      protocol := t;
    }

    /** A producer's message goes into the queue, unless its priority value is too low; the lock
        it needs is free while the consumer does not drain. */
    method Enqueue(m: Msg) returns (ok: bool)
      requires Valid() && m in Value().staged && !Value().draining
      modifies `protocol, queue
      ensures Valid() && Value() == Do(old(Value()), Max(), Step.Enqueue(m))
      ensures ok <==> Priority(m) >= SERVER_CLEANUP_TRIGGER_PRIORITY
    {
      ok := Put(m);
      table.StaysValid();
      StepKeepsValid(Step.Enqueue(m));
    }

    /** What serving the message means for the table: the nodes of a complete request leave
        when its untune is served. */
    method ServeMessage(m: Msg, ghost s: State) returns (tune: Option<Req>)
      requires Enabled(s, Consume(m)) && manager.Valid() && manager.Value() == s.manager
      requires table.Valid() && Owned() && AllAdmissible() && table.home.Keys <= owner.Keys
      requires RemovesNodes(s, Consume(m)) ==>
        m.handle in requests && AtHome(m.handle) && s.manager.active[m.handle].req.handle == m.handle
      modifies manager, manager.clientDataManager, table, table.Lists(), owner.Keys`next1, owner.Keys`prev1
      ensures manager.Valid() && manager.Value() == Do(s, Max(), Consume(m)).manager
      ensures tune == Do(s, Max(), Consume(m)).serving
      ensures table.Valid() && Owned() && AllAdmissible()
      ensures forall r :: old(Known(r)) ==> Known(r)
      ensures !RemovesNodes(s, Consume(m)) ==> table.home == old(table.home) && table.history == old(table.history)
      ensures RemovesNodes(s, Consume(m)) ==>
        && NodesOf(m.handle) == old(NodesOf(m.handle))
        && table.home == old(table.home) - table.Homes(NodesOf(m.handle), requests[m.handle].mPriority).Keys
        && (requests[m.handle].mResourceList != null ==>
             table.history == table.RecordedAll(old(table.history), NodesOf(m.handle), requests[m.handle].mPriority, false))
    {
      var (found, info) := FindComplete(m);
      tune := None;
      if found {
        WithdrawnManager(s, Max(), m);
        Withdraw(info.req);
      } else {
        tune := ServeQuietly(m, s);
      }
    }

    /** Pop a message and do everything up to a tune's status check, which may let it pass. */
    method ConsumeNext() returns (message: Msg, tune: Option<Req>)
      requires Valid() && Value().draining && Value().serving.None? && queue.mOrderedQueue != multiset{}
      modifies `protocol, queue, manager, manager.clientDataManager
      modifies table, table.Lists(), owner.Keys`next1, owner.Keys`prev1
      ensures Valid() && Enabled(old(Value()), Consume(message))
      ensures Value() == Do(old(Value()), Max(), Consume(message)) && tune == Value().serving
    {
      ghost var s := Value();
      message := PopNext();
      tune := ServeMessage(message, s);
      if RemovesNodes(s, Consume(message)) {
        WithdrawnKeepsValid(message);
      } else {
        QuietKeepsValid(Consume(message));
      }
    }

    // ----- taking a tune into the table --------------------------------------------------

    /** The request is marked complete; the table and the request objects stay. */
    method Mark(req: Req)
      requires table.Valid() && Owned() && AllAdmissible() && manager.Valid()
      modifies manager
      ensures table.Valid() && Owned() && AllAdmissible() && (forall h :: h in requests ==> NodesOf(h) == old(NodesOf(h)))
      ensures forall r :: old(Known(r)) ==> Known(r)
      ensures manager.Valid() && manager.Value() == MarkComplete(old(manager.Value()), req.handle)
    {
      manager.MarkRequestAsComplete(req.handle);
      table.StaysValid();
      ObjectsStay();
    }

    /** Mark the request, insert its nodes, and forget it again if that fails; `linked` tells
        whether its nodes are in the table all the same. */
    method Admit(req: Req) returns (ok: bool, ghost linked: bool)
      requires table.Valid() && Owned() && AllAdmissible() && req.handle in requests && table.home.Keys <= owner.Keys
      requires manager.Valid() && forall n :: n in NodesOf(req.handle) ==> n !in table.home
      modifies manager, manager.clientDataManager, table, table.Lists(), owner.Keys`next1, owner.Keys`prev1
      ensures table.Valid() && Owned() && AllAdmissible() && NodesOf(req.handle) == old(NodesOf(req.handle))
      ensures forall r :: old(Known(r)) ==> Known(r)
      ensures ok ==> linked
      ensures table.home == if linked then old(table.home) + table.Homes(NodesOf(req.handle), requests[req.handle].mPriority) else old(table.home)
      ensures linked ==> requests[req.handle].mResourceList != null
      ensures linked ==> table.history == table.RecordedAll(old(table.history), NodesOf(req.handle), requests[req.handle].mPriority, true)
      ensures !linked ==> table.history == old(table.history)
      ensures manager.Valid()
      ensures manager.Value() == var marked := MarkComplete(old(manager.Value()), req.handle); if ok then marked else RemoveRequest(marked, req)
    {
      Mark(req);
      ok, linked := InsertNodes(req.handle);
      if !ok {
        Forget(req);
      }
    }

    /** A request became complete, or was dropped with its nodes in the table, or neither. */
    twostate lemma CommittedBooking(c: Outcome)
      requires old(Owned()) && old(Booked()) && old(AtPriority()) && c.handle in requests && !old(InTable(c.handle))
      requires unchanged(`requests) && unchanged(`owner) && NodesOf(c.handle) == old(NodesOf(c.handle))
      requires stray == old(stray) + c.Strays()
      requires table.home == if c.linked then old(table.home) + table.Homes(NodesOf(c.handle), requests[c.handle].mPriority) else old(table.home)
      requires forall g :: Done(Value(), g) <==> old(Done(Value(), g)) || (c.ok && g == c.handle)
      requires c.ok ==> c.linked
      ensures Booked() && AtPriority()
    {
      var homes := table.Homes(NodesOf(c.handle), requests[c.handle].mPriority);
      forall n | n in owner && old(Listed(n)) ensures Listed(n) {}
      forall n | n in owner && Listed(n) && !old(Listed(n)) ensures c.linked && n in homes {}
      forall n | n in homes && c.linked ensures n in owner && owner[n] == c.handle && Listed(n) {}
      forall n | n in old(table.home) ensures n !in homes { assert old(Listed(n)); }
    }

    twostate lemma CommittedIsKnown(c: Outcome)
      requires old(AllKnown()) && Inv(old(Value()), Max()) && Enabled(old(Value()), Commit(c.ok)) && Value() == Do(old(Value()), Max(), Commit(c.ok))
      requires c.handle == old(Value()).serving.value.handle && c.handle in requests && unchanged(`requests) && stray == old(stray) + c.Strays()
      requires forall r :: old(Known(r)) ==> Known(r)
      ensures AllKnown()
    {
      CommittedHandles(old(Value()), Max(), c);
      StepKeepsEntries(old(Value()), Max(), Commit(c.ok));
      StepKeepsArrivals(old(Value()), Max(), Commit(c.ok));
    }

    twostate lemma CommittedKeepsValid(c: Outcome)
      requires old(Valid()) && Enabled(old(Value()), Commit(c.ok)) && c.handle == old(Value()).serving.value.handle && (c.ok ==> c.linked)
      requires unchanged(`requests) && unchanged(`owner) && stray == old(stray) + c.Strays() && c.handle in requests
      requires table.Valid() && Owned() && AllAdmissible() && NodesOf(c.handle) == old(NodesOf(c.handle))
      requires forall r :: old(Known(r)) ==> Known(r)
      requires table.home == if c.linked then old(table.home) + table.Homes(NodesOf(c.handle), requests[c.handle].mPriority) else old(table.home)
      requires queue.Valid() && manager.Valid() && protocol == Do(old(Value()), Max(), Commit(c.ok))
      requires queue.mOrderedQueue == protocol.queue && manager.Value() == protocol.manager
      ensures Valid() && Value() == protocol
    {
      var s := old(Value());
      StepKeepsInv(s, Max(), Commit(c.ok));
      CommittedHandles(s, Max(), c);
      CommittedIsKnown(c);
      CommittedBooking(c);
    }

    /** The tune being served is not in the table yet. */
    lemma ServedIsApart()
      requires Valid() && Value().serving.Some?
      ensures var h := Value().serving.value.handle;
        h in requests && !InTable(h) && table.home.Keys <= owner.Keys && forall n :: n in NodesOf(h) ==> n !in table.home
    {
      var s, req := Value(), Value().serving.value;
      assert Tune(req) in Pending(s) && TuneOk(s, req);
      forall n | n in NodesOf(req.handle) ensures n !in table.home {
        assert !Listed(n);
      }
    }

    /** Book the outcome that the heap already shows. */
    ghost method Settle(t: State, strays: set<int>)
      requires table.Valid() && Owned() && AllAdmissible()
      modifies `protocol, `stray
      ensures protocol == t && stray == old(stray) + strays
      ensures table.Valid() && Owned() && AllAdmissible() && (forall h :: h in requests ==> NodesOf(h) == old(NodesOf(h)))
      ensures forall r :: old(Known(r)) ==> Known(r)
    {
      protocol := t;
      stray := stray + strays;
      table.StaysValid();
      ObjectsStay();
    }

    /** Take the tune being served into the table, and book the outcome. */
    method AdmitAndSettle(req: Req) returns (ghost c: Outcome)
      requires Valid() && Value().serving == Some(req)
      modifies `protocol, `stray, manager, manager.clientDataManager
      modifies table, table.Lists(), owner.Keys`next1, owner.Keys`prev1
      ensures c.handle == req.handle && req.handle in requests && (c.ok ==> c.linked)
      ensures protocol == Do(old(Value()), Max(), Commit(c.ok)) && stray == old(stray) + c.Strays()
      ensures table.Valid() && Owned() && AllAdmissible() && NodesOf(req.handle) == old(NodesOf(req.handle))
      ensures forall r :: old(Known(r)) ==> Known(r)
      ensures table.home == if c.linked then old(table.home) + table.Homes(NodesOf(c.handle), requests[c.handle].mPriority) else old(table.home)
      ensures manager.Valid() && manager.Value() == protocol.manager && queue.Valid() && queue.mOrderedQueue == protocol.queue
    {
      ghost var s := Value();
      ServedIsApart();
      var ok, linked := Admit(req);
      c := Outcome(req.handle, ok, linked);
      CommittedState(s, Max(), ok);
      Settle(Do(s, Max(), Commit(ok)), c.Strays());
    }

    /** The tune found neither cancelled nor complete goes into the table. */
    method CommitTune(req: Req) returns (ghost c: Outcome)
      requires Valid() && Value().serving == Some(req)
      modifies `protocol, `stray, manager, manager.clientDataManager
      modifies table, table.Lists(), owner.Keys`next1, owner.Keys`prev1
      ensures Valid() && Value() == Do(old(Value()), Max(), Commit(c.ok))
      ensures c.handle == req.handle && stray == old(stray) + c.Strays()
    {
      c := AdmitAndSettle(req);
      CommittedKeepsValid(c);
    }

    // ----- the consumer's loop -------------------------------------------------------------

    /** One step of another thread, or none. */
    method Other(ghost start: State, ghost steps: seq<Step>) returns (ghost more: seq<Step>)
      requires Valid() && CanFollow(start, Max(), steps) && Value() == Follow(start, Max(), steps)
      requires forall k :: 0 <= k < |steps| ==> ByOthers(steps[k])
      modifies `protocol, manager, manager.mUntuneCache, manager.clientDataManager
      ensures Valid() && CanFollow(start, Max(), more) && Value() == Follow(start, Max(), more)
      ensures forall k :: 0 <= k < |more| ==> ByOthers(more[k])
      ensures Value().serving == old(Value()).serving && Value().draining == old(Value()).draining
    {
      more := steps;
      var step: Step := *;
      if step.DisableHandle? || step.Track? || step.ForceAwake? {
        OtherThread(step);
        FollowSnoc(start, Max(), steps, step);
        more := steps + [step];
      }
    }

    /** Whatever the other threads do in the meantime: some steps of theirs, and request
        objects that were not there before. */
    method Others() returns (ghost steps: seq<Step>)
      requires Valid()
      modifies `protocol, `requests, `owner, manager, manager.mUntuneCache, manager.clientDataManager
      ensures Valid() && CanFollow(old(Value()), Max(), steps) && Value() == Follow(old(Value()), Max(), steps)
      ensures forall k :: 0 <= k < |steps| ==> ByOthers(steps[k])
      ensures Value().serving == old(Value()).serving && Value().draining == old(Value()).draining
      ensures forall n :: n in owner ==> n in old(owner) || fresh(n)
    {
      steps := [];
      var n: int := *;
      while n > 0
        invariant Valid() && owner == old(owner)
        invariant CanFollow(old(Value()), Max(), steps) && Value() == Follow(old(Value()), Max(), steps)
        invariant forall k :: 0 <= k < |steps| ==> ByOthers(steps[k])
        invariant Value().serving == old(Value()).serving && Value().draining == old(Value()).draining
      {
        steps := Other(old(Value()), steps);
        n := n - 1;
      }
    }

    /** The consumer itself wakes up or goes to rest. */
    ghost method Turnover(step: Step)
      requires Valid() && Enabled(Value(), step) && (step.Wake? || step.Rest?)
      modifies `protocol
      ensures Valid() && Value() == Do(old(Value()), Max(), step)
    {
      protocol := Do(Value(), Max(), step);
      table.StaysValid();
      StepKeepsValid(step);
    }

    method CommitAfter(tune: Req, ghost start: State, ghost steps: seq<Step>) returns (ghost more: seq<Step>)
      requires Valid() && Value().serving == Some(tune)
      requires CanFollow(start, Max(), steps) && Value() == Follow(start, Max(), steps)
      modifies `protocol, `stray, manager, manager.clientDataManager
      modifies table, table.Lists(), owner.Keys`next1, owner.Keys`prev1
      ensures Valid() && CanFollow(start, Max(), more) && Value() == Follow(start, Max(), more)
      ensures Value().serving.None? && Value().draining == old(Value()).draining
    {
      ghost var c := CommitTune(tune);
      CommittedState(old(Value()), Max(), c.ok);
      FollowSnoc(start, Max(), steps, Commit(c.ok));
      more := steps + [Commit(c.ok)];
    }

    /** The tune that passed its check is taken in, after the other threads had time to act. */
    method TakeIn(tune: Req) returns (ghost steps: seq<Step>)
      requires Valid() && Value().serving == Some(tune)
      modifies `protocol, `stray, `requests, `owner, manager, manager.mUntuneCache, manager.clientDataManager
      modifies table, table.Lists(), owner.Keys`next1, owner.Keys`prev1
      ensures Valid() && CanFollow(old(Value()), Max(), steps) && Value() == Follow(old(Value()), Max(), steps)
      ensures Value().serving.None? && Value().draining == old(Value()).draining
      ensures forall n :: n in owner ==> n in old(owner) || fresh(n)
    {
      steps := Others();
      steps := CommitAfter(tune, old(Value()), steps);
    }

    method NextMessage() returns (message: Msg, tune: Option<Req>, ghost steps: seq<Step>)
      requires Valid() && Value().draining && Value().serving.None? && queue.mOrderedQueue != multiset{}
      modifies `protocol, queue, manager, manager.clientDataManager
      modifies table, table.Lists(), owner.Keys`next1, owner.Keys`prev1
      ensures Valid() && Minimal(message, old(queue.mOrderedQueue)) && queue.mOrderedQueue == old(queue.mOrderedQueue) - multiset{message}
      ensures CanFollow(old(Value()), Max(), steps) && Value() == Follow(old(Value()), Max(), steps)
      ensures tune == Value().serving && (Value().draining <==> Priority(message) != SERVER_CLEANUP_TRIGGER_PRIORITY)
    {
      ghost var start := Value();
      message, tune := ConsumeNext();
      ConsumeTakes(start, Max(), message);
      FollowOne(start, Max(), Consume(message), []);
      steps := [Consume(message)] + [];
      assert queue.mOrderedQueue == Value().queue;
    }

    /** Pop and serve one message, while other threads go on. */
    method Turn() returns (message: Msg, ghost steps: seq<Step>)
      requires Valid() && Value().draining && Value().serving.None? && queue.mOrderedQueue != multiset{}
      modifies `protocol, `stray, `requests, `owner, queue, manager, manager.mUntuneCache, manager.clientDataManager
      modifies table, table.Lists(), owner.Keys`next1, owner.Keys`prev1
      ensures Valid() && Minimal(message, old(queue.mOrderedQueue)) && queue.mOrderedQueue == old(queue.mOrderedQueue) - multiset{message}
      ensures CanFollow(old(Value()), Max(), steps) && Value() == Follow(old(Value()), Max(), steps)
      ensures Value().serving.None? && (Value().draining <==> Priority(message) != SERVER_CLEANUP_TRIGGER_PRIORITY)
      ensures forall n :: n in owner ==> n in old(owner) || fresh(n)
    {
      var tune;
      message, tune, steps := NextMessage();
      if tune.Some? {
        ghost var more := TakeIn(tune.value);
        FollowConcat(old(Value()), Max(), steps, more);
        steps := steps + more;
      }
    }

    /** Other threads first, then a turn. */
    method Round(ghost start: State, ghost before: seq<Step>) returns (message: Msg, ghost steps: seq<Step>)
      requires Valid() && Value().draining && Value().serving.None? && queue.mOrderedQueue != multiset{}
      requires CanFollow(start, Max(), before) && Value() == Follow(start, Max(), before)
      modifies `protocol, `stray, `requests, `owner, queue, manager, manager.mUntuneCache, manager.clientDataManager
      modifies table, table.Lists(), owner.Keys`next1, owner.Keys`prev1
      ensures Valid() && Minimal(message, old(queue.mOrderedQueue)) && queue.mOrderedQueue == old(queue.mOrderedQueue) - multiset{message}
      ensures CanFollow(start, Max(), steps) && Value() == Follow(start, Max(), steps)
      ensures Value().serving.None? && (Value().draining <==> Priority(message) != SERVER_CLEANUP_TRIGGER_PRIORITY)
      ensures forall n :: n in owner ==> n in old(owner) || fresh(n)
    {
      ghost var more := Others();
      FollowConcat(start, Max(), before, more);
      message, steps := Turn();
      FollowConcat(start, Max(), before + more, steps);
      steps := before + more + steps;
    }

    /** The queue is empty and the drain ends. */
    ghost method GoToRest(start: State, before: seq<Step>) returns (steps: seq<Step>)
      requires Valid() && Enabled(Value(), Rest)
      requires CanFollow(start, Max(), before) && Value() == Follow(start, Max(), before)
      modifies `protocol
      ensures Valid() && !Value().draining
      ensures CanFollow(start, Max(), steps) && Value() == Follow(start, Max(), steps)
    {
      var last := Rest;
      FollowSnoc(start, Max(), before, last);
      Turnover(last);
      steps := before + [last];
    }

    /** The consumer's loop, run under the queue's lock: up to a stop mark or an empty queue.
        It continues the run `before`, from state `start`. */
    method OrderedQueueConsumerHook(ghost start: State, ghost before: seq<Step>) returns (ghost served: seq<Msg>, ghost steps: seq<Step>)
      requires Valid() && Value().draining && Value().serving.None?
      requires CanFollow(start, Max(), before) && Value() == Follow(start, Max(), before)
      modifies this, queue, manager, manager.mUntuneCache, manager.clientDataManager
      modifies table, table.Lists(), owner.Keys`next1, owner.Keys`prev1
      ensures Valid() && !Value().draining
      ensures CanFollow(start, Max(), steps) && Value() == Follow(start, Max(), steps)
      ensures InOrder(old(queue.mOrderedQueue), served, queue.mOrderedQueue)
      ensures queue.mOrderedQueue == multiset{} || (served != [] && StopMark(served[|served| - 1]))
    {
      served, steps := [], before;
      while queue.mElementCount > 0
        invariant Valid() && Value().draining && Value().serving.None?
        invariant CanFollow(start, Max(), steps) && Value() == Follow(start, Max(), steps)
        invariant InOrder(old(queue.mOrderedQueue), served, queue.mOrderedQueue)
        invariant forall n :: n in owner ==> n in old(owner) || fresh(n)
        decreases |queue.mOrderedQueue|
      {
        ghost var left := queue.mOrderedQueue;
        var message;
        message, steps := Round(start, steps);
        InOrderSnoc(old(queue.mOrderedQueue), served, left, message);
        served := served + [message];
        SmallerLevelGoesFirst(message, message);
        if Priority(message) == SERVER_CLEANUP_TRIGGER_PRIORITY { return; }
      }
      steps := GoToRest(start, steps);
    }

    /** The consumer takes the queue's lock; with a message there it drains the queue, without
        one it goes on waiting. */
    method Wait() returns (ghost served: seq<Msg>, ghost steps: seq<Step>)
      requires Valid() && !Value().draining && Value().serving.None?
      modifies this, queue, manager, manager.mUntuneCache, manager.clientDataManager
      modifies table, table.Lists(), owner.Keys`next1, owner.Keys`prev1
      ensures Valid() && !Value().draining
      ensures CanFollow(old(Value()), Max(), steps) && Value() == Follow(old(Value()), Max(), steps)
      ensures InOrder(old(queue.mOrderedQueue), served, queue.mOrderedQueue)
      ensures queue.mOrderedQueue == multiset{} || (served != [] && StopMark(served[|served| - 1]))
    {
      if queue.mElementCount == 0 { return [], []; }
      FollowOne(Value(), Max(), Wake, []);
      Turnover(Wake);
      served, steps := OrderedQueueConsumerHook(old(Value()), [Wake] + []);
    }

    // ----- the whole server on the heap ----------------------------------------------------

    /** The node is in a list of resource `r`. */
    ghost predicate Contends(n: ResIterable, r: int)
      reads this, queue, manager, manager.mUntuneCache, manager.clientDataManager
    {
      Listed(n) && table.GetCocoTablePrimaryIndex(n.mData) == r
    }

    /** The priority of the request a node belongs to. */
    ghost function LevelOf(n: ResIterable): int
      reads this
    {
      if n in owner && owner[n] in requests then requests[owner[n]].mPriority else -1
    }

    lemma LiveContend(r: int, p: nat, n: ResIterable)
      requires Valid() && 0 <= r < |table.mCocoTable| && table.mConfigs[r].mApplyType == APPLY_GLOBAL && p < A.TOTAL_PRIORITIES
      ensures n in A.Live(table.history[r], 0, p) <==> Contends(n, r) && LevelOf(n) == p
    {
      table.LiveIsHome(r, 0, p, n);
      if Contends(n, r) {
        table.SecondaryIndexIsSlot(n, requests[owner[n]].mPriority);
      }
    }

    /** End to end on the heap, in every valid state of the server, for a system-wide resource
        of an admitted mode: if a node is in the lists of the resource, the one in force is in
        them, none of a better priority is, and it is the policy's winner; otherwise nothing is
        in force. */
    lemma TableIsArbitrated(r: int)
      requires Valid() && 0 <= r < |table.mCocoTable| && table.mConfigs[r].mApplyType == APPLY_GLOBAL && table.Cfg(r).admits
      ensures |table.force[r]| == 1
      ensures var cur := table.mCurrentlyAppliedPriority[r];
        if table.force[r][0].Applied? then
          var n := table.force[r][0].node;
          && Contends(n, r) && cur == LevelOf(n)
          && (forall m :: m in owner && Contends(m, r) ==> cur <= LevelOf(m))
          && A.Promised(table.Cfg(r), C.NodeKey, table.history[r], 0, cur, n)
        else cur == -1 && forall m :: m in owner ==> !Contends(m, r)
    {
      var cur := table.mCurrentlyAppliedPriority[r];
      RowIsArbitrated(r);
      forall m | m in owner && Contends(m, r) ensures m in A.Live(table.history[r], 0, LevelOf(m)) && 0 <= LevelOf(m) < A.TOTAL_PRIORITIES {
        LevelFits(m);
        LiveContend(r, LevelOf(m), m);
      }
      if table.force[r][0].Applied? {
        LiveContend(r, cur, table.force[r][0].node);
      }
    }

    /** The arbitration theorem, with an untouched resource included. */
    lemma RowIsArbitrated(r: int)
      requires table.Valid() && 0 <= r < |table.mCocoTable| && table.mConfigs[r].mApplyType == APPLY_GLOBAL && table.Cfg(r).admits
      ensures |table.force[r]| == 1
      ensures var cur := table.mCurrentlyAppliedPriority[r];
        if table.force[r][0].Applied?
        then 0 <= cur && A.Promised(table.Cfg(r), C.NodeKey, table.history[r], 0, cur, table.force[r][0].node)
        else cur == -1 && forall q :: 0 <= q < A.TOTAL_PRIORITIES ==> A.Live(table.history[r], 0, q) == []
    {
      if table.history[r] == [] {
        assert table.RowAt(r);
      } else {
        table.GlobalResourceIsArbitrated(r);
      }
    }

    lemma LevelFits(m: ResIterable)
      requires Valid() && Listed(m)
      ensures 0 <= LevelOf(m) < A.TOTAL_PRIORITIES
    {
      assert m in table.home && table.Admissible(requests[owner[m]]);
    }

    /** A request that was dropped when its timer could not be started keeps its nodes in the
        table, and whatever happens its handle is never active again, so no untune finds it. */
    lemma StrayIsStuck(h: int, steps: seq<Step>)
      requires Valid() && h in stray && CanFollow(Value(), Max(), steps)
      ensures h in requests && AtHome(h) && h !in Follow(Value(), Max(), steps).manager.active
    {
      StrayIsHome(h);
      GoneForEver(Value(), Max(), steps, h);
    }

    lemma StrayIsHome(h: int)
      requires Owned() && Booked() && AtPriority() && h in stray && h in requests
      ensures AtHome(h)
    {
      forall n | n in NodesOf(h) && table.Tracked(n, requests[h].mPriority) ensures n in table.home {
        assert Listed(n);
      }
    }
  }

  lemma FollowSnoc(s: State, max: nat, steps: seq<Step>, step: Step)
    requires CanFollow(s, max, steps) && Enabled(Follow(s, max, steps), step)
    ensures CanFollow(s, max, steps + [step]) && Follow(s, max, steps + [step]) == Do(Follow(s, max, steps), max, step)
  {
    var t := Follow(s, max, steps);
    FollowOne(t, max, step, []);
    assert [step] + [] == [step];
    FollowConcat(s, max, steps, [step]);
  }

  lemma Regroup(steps: seq<Step>, more: seq<Step>)
    requires steps != []
    ensures [steps[0]] + (steps[1..] + more) == steps + more
  {
  }

  lemma {:induction false} FollowConcat(s: State, max: nat, steps: seq<Step>, more: seq<Step>)
    requires CanFollow(s, max, steps) && CanFollow(Follow(s, max, steps), max, more)
    ensures CanFollow(s, max, steps + more)
    ensures Follow(s, max, steps + more) == Follow(Follow(s, max, steps), max, more)
    decreases |steps|
  {
    if steps == [] {
      assert steps + more == more;
    } else {
      var next := FollowRest(s, max, steps);
      FollowConcat(next, max, steps[1..], more);
      FollowOne(s, max, steps[0], steps[1..] + more);
      Regroup(steps, more);
    }
  }
}
