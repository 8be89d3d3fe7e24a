/** Tracking of active requests (resource-tuner/core/RequestManager, ClientDataManager).

    The classes hold the maps the source updates in place; each method is proved against
    a function on their abstract value, and the protocol module reasons about those. */
module RequestManagement {
  import opened Wrappers

  // ----- processing status bits ----------------------------------------------------

  const REQ_UNCHANGED: bv8 := 0x01
  const REQ_CANCELLED: bv8 := 0x02
  const REQ_COMPLETED: bv8 := 0x04
  const REQ_NOT_FOUND: bv8 := 0x08

  predicate Cancelled(status: bv8) { status & REQ_CANCELLED != 0 }
  predicate Completed(status: bv8) { status & REQ_COMPLETED != 0 }

  lemma StatusBits(status: bv8)
    ensures Cancelled(status | REQ_CANCELLED) && (Completed(status | REQ_CANCELLED) <==> Completed(status))
    ensures Completed(status | REQ_COMPLETED) && (Cancelled(status | REQ_COMPLETED) <==> Cancelled(status))
    ensures !Cancelled(REQ_UNCHANGED) && !Completed(REQ_UNCHANGED) && !Cancelled(REQ_NOT_FOUND) && !Completed(REQ_NOT_FOUND)
  {
  }

  // ----- values ---------------------------------------------------------------------

  /** A tune request; `slots` are its resources that have a list in the table. */
  datatype Req = Req(handle: int, tid: int, priority: int, slots: set<nat>)

  /** An active request with its two processing flags. */
  datatype Entry = Entry(req: Req, cancelled: bool, completed: bool)

  /** The same as stored: RequestInfo, with the flags as status bits. */
  datatype RequestInfo = RequestInfo(req: Req, status: bv8)

  function Flags(info: RequestInfo): Entry {
    Entry(info.req, Cancelled(info.status), Completed(info.status))
  }

  /** The recency cache of handles whose untune arrived before their tune. */
  datatype Cache = Cache(max: nat, handles: set<int>, recency: seq<int>)

  datatype Manager = Manager(active: map<int, Entry>, cache: Cache, clients: map<int, set<int>>)

  /** Every cached handle is still in the recency queue. */
  ghost predicate CacheOk(c: Cache) {
    c.max > 0 && forall h :: h in c.handles ==> h in c.recency
  }

  lemma EvictionFindsAFront(c: Cache)
    requires CacheOk(c) && |c.handles| >= c.max
    ensures c.recency != []
  {
    var h := Pick(c.handles);
    assert h in c.recency;
  }

  ghost function Same(h: int): int { h }

  lemma Pick(s: set<int>) returns (h: int)
    requires |s| > 0
    ensures h in s
  {
    if !exists x :: Same(x) in s {
      forall x: int ensures x !in s { assert Same(x) !in s; }
    }
    var x :| Same(x) in s;
    h := x;
  }

  ghost function CacheInsert(c: Cache, handle: int): (r: Cache)
    requires CacheOk(c)
    ensures CacheOk(r) && r.max == c.max && handle in r.handles
  {
    if |c.handles| >= c.max then
      EvictionFindsAFront(c);
      assert c.recency == [c.recency[0]] + c.recency[1..];
      Cache(c.max, c.handles - {c.recency[0]} + {handle}, c.recency[1..] + [handle])
    else
      Cache(c.max, c.handles + {handle}, c.recency + [handle])
  }

  ghost function AddRequest(m: Manager, maxConcurrent: nat, req: Req): (Manager, bool) {
    if |m.active| >= maxConcurrent then (m, false)
    else if req.handle in m.active then (m.(active := m.active - {req.handle}), false)
    else if req.handle in m.cache.handles then (m, false)
    else (m.(active := m.active[req.handle := Entry(req, false, false)],
             clients := InsertHandle(m.clients, req.tid, req.handle)), true)
  }

  ghost function InsertHandle(clients: map<int, set<int>>, tid: int, handle: int): map<int, set<int>> {
    if tid in clients then clients[tid := clients[tid] + {handle}] else clients
  }

  ghost function DeleteHandle(clients: map<int, set<int>>, tid: int, handle: int): map<int, set<int>> {
    if tid in clients then clients[tid := clients[tid] - {handle}] else clients
  }

  ghost function RemoveRequest(m: Manager, req: Req): Manager {
    m.(active := m.active - {req.handle}, clients := DeleteHandle(m.clients, req.tid, req.handle))
  }

  ghost function Disable(m: Manager, handle: int): Manager
    requires CacheOk(m.cache)
  {
    if handle in m.active
    then m.(active := m.active[handle := m.active[handle].(cancelled := true)])
    else m.(cache := CacheInsert(m.cache, handle))
  }

  ghost function MarkComplete(m: Manager, handle: int): Manager {
    if handle in m.active
    then m.(active := m.active[handle := m.active[handle].(completed := true)])
    else m
  }

  /** A request is accepted exactly when there is room, its handle is not active and no untune
      of it is cached. Then it is tracked, and its handle is noted for its thread; a refusal
      changes nothing, except that a handle which is active already is dropped. */
  lemma AcceptedIff(m: Manager, maxConcurrent: nat, req: Req)
    ensures var (n, ok) := AddRequest(m, maxConcurrent, req);
      && (ok <==> |m.active| < maxConcurrent && req.handle !in m.active && req.handle !in m.cache.handles)
      && n.cache == m.cache
      && (ok ==> n.active == m.active[req.handle := Entry(req, false, false)])
      && (ok ==> n.clients == map t | t in m.clients :: if t == req.tid then m.clients[t] + {req.handle} else m.clients[t])
      && (!ok ==> n.clients == m.clients)
      && (!ok ==> n.active == if |m.active| < maxConcurrent then m.active - {req.handle} else m.active)
  {
    if req.handle !in m.active { assert m.active - {req.handle} == m.active; }
  }

  /** What the other operations do to an entry, to the cache and to the threads' sets. */
  lemma OperationsSpelledOut(m: Manager, req: Req, h: int)
    requires CacheOk(m.cache)
    ensures RemoveRequest(m, req).active == m.active - {req.handle} && RemoveRequest(m, req).cache == m.cache
    ensures RemoveRequest(m, req).clients == map t | t in m.clients :: if t == req.tid then m.clients[t] - {req.handle} else m.clients[t]
    ensures h in m.active ==> Disable(m, h) == m.(active := m.active[h := Entry(m.active[h].req, true, m.active[h].completed)])
    ensures h !in m.active ==> Disable(m, h) == m.(cache := Disable(m, h).cache) && h in Disable(m, h).cache.handles
    ensures h in m.active ==> MarkComplete(m, h) == m.(active := m.active[h := Entry(m.active[h].req, m.active[h].cancelled, true)])
    ensures h !in m.active ==> MarkComplete(m, h) == m
  {
  }

  /** An insertion queues the handle at the end, twice if it was there; a full cache first
      loses the front of the queue. */
  lemma InsertionSpelledOut(c: Cache, h: int)
    requires CacheOk(c)
    ensures |c.handles| < c.max ==> CacheInsert(c, h) == Cache(c.max, c.handles + {h}, c.recency + [h])
    ensures |c.handles| >= c.max ==> c.recency != []
    ensures |c.handles| >= c.max ==>
      CacheInsert(c, h) == Cache(c.max, (c.handles - {c.recency[0]}) + {h}, c.recency[1..] + [h])
  {
    if |c.handles| >= c.max { EvictionFindsAFront(c); }
  }

  /** The handle set of the thread is that of its active requests. */
  ghost predicate Indexed(m: Manager, tid: int) {
    tid in m.clients && forall h :: h in m.clients[tid] <==> h in m.active && m.active[h].req.tid == tid
  }

  lemma OperationsKeepIndex(m: Manager, tid: int, maxConcurrent: nat, req: Req, h: int)
    requires Indexed(m, tid) && CacheOk(m.cache)
    ensures req.handle !in m.active ==> Indexed(AddRequest(m, maxConcurrent, req).0, tid)
    ensures req.handle in m.active && m.active[req.handle].req == req ==> Indexed(RemoveRequest(m, req), tid)
    ensures Indexed(Disable(m, h), tid) && Indexed(MarkComplete(m, h), tid)
  {
  }

  // ----- the classes -------------------------------------------------------------------

  class HandleCache {
    const mMaxSize: nat
    var mHandleSet: set<int>
    var mRecencyQueue: seq<int>

    ghost function Value(): Cache
      reads this
    {
      Cache(mMaxSize, mHandleSet, mRecencyQueue)
    }

    constructor (maxSize: nat := 30)
      requires maxSize > 0
      ensures Value() == Cache(maxSize, {}, []) && CacheOk(Value())
    {
      mMaxSize := maxSize;
      mHandleSet, mRecencyQueue := {}, [];
    }

    method Insert(handle: int)
      requires CacheOk(Value())
      modifies this
      ensures Value() == CacheInsert(old(Value()), handle) && CacheOk(Value())
    {
      if |mHandleSet| >= mMaxSize {
        EvictionFindsAFront(Value());
        var oldestHandle := mRecencyQueue[0];
        mRecencyQueue := mRecencyQueue[1..];
        mHandleSet := mHandleSet - {oldestHandle};
      }
      mHandleSet := mHandleSet + {handle};
      mRecencyQueue := mRecencyQueue + [handle];
    }

    method IsPresent(handle: int) returns (present: bool)
      ensures present <==> handle in Value().handles
    {
      present := handle in mHandleSet;
    }
  }

  /** What is tracked per client thread. */
  datatype ClientTidData = ClientTidData(mClientHandles: set<int>, mLastRequestTimestamp: int, mHealth: real)

  class ClientDataManager {
    var mClientTidRepo: map<int, ClientTidData>

    ghost function Clients(): map<int, set<int>>
      reads this
    {
      map tid | tid in mClientTidRepo :: mClientTidRepo[tid].mClientHandles
    }

    constructor ()
      ensures mClientTidRepo == map[]
    {
      mClientTidRepo := map[];
    }

    method CreateNewClient(clientTID: int)
      modifies this
      ensures mClientTidRepo == old(mClientTidRepo)[clientTID := ClientTidData({}, 0, 100.0)]
      ensures Clients() == old(Clients())[clientTID := {}]
    {
      mClientTidRepo := mClientTidRepo[clientTID := ClientTidData({}, 0, 100.0)];
    }

    method DeleteClientTID(clientTID: int)
      modifies this
      ensures mClientTidRepo == old(mClientTidRepo) - {clientTID}
      ensures Clients() == old(Clients()) - {clientTID}
    {
      mClientTidRepo := mClientTidRepo - {clientTID};
    }

    method InsertRequestByClientId(clientTID: int, requestHandle: int)
      modifies this
      ensures Clients() == InsertHandle(old(Clients()), clientTID, requestHandle)
    {
      if clientTID !in mClientTidRepo { return; }
      var data := mClientTidRepo[clientTID];
      mClientTidRepo := mClientTidRepo[clientTID := data.(mClientHandles := data.mClientHandles + {requestHandle})];
    }

    method DeleteRequestByClientId(clientTID: int, requestHandle: int)
      modifies this
      ensures Clients() == DeleteHandle(old(Clients()), clientTID, requestHandle)
    {
      if clientTID !in mClientTidRepo { return; }
      var data := mClientTidRepo[clientTID];
      mClientTidRepo := mClientTidRepo[clientTID := data.(mClientHandles := data.mClientHandles - {requestHandle})];
    }

    method GetHealthByClientID(clientTID: int) returns (health: real)
      ensures health == if clientTID in mClientTidRepo then mClientTidRepo[clientTID].mHealth else -1.0
    {
      if clientTID !in mClientTidRepo { return -1.0; }
      health := mClientTidRepo[clientTID].mHealth;
    }

    method GetLastRequestTimestampByClientID(clientTID: int) returns (lastRequestTimestamp: int)
      ensures lastRequestTimestamp == if clientTID in mClientTidRepo then mClientTidRepo[clientTID].mLastRequestTimestamp else 0
    {
      if clientTID !in mClientTidRepo { return 0; }
      lastRequestTimestamp := mClientTidRepo[clientTID].mLastRequestTimestamp;
    }

    method UpdateHealthByClientID(clientTID: int, health: real)
      modifies this
      ensures mClientTidRepo == if clientTID in old(mClientTidRepo)
        then old(mClientTidRepo)[clientTID := old(mClientTidRepo)[clientTID].(mHealth := health)] else old(mClientTidRepo)
    {
      if clientTID !in mClientTidRepo { return; }
      mClientTidRepo := mClientTidRepo[clientTID := mClientTidRepo[clientTID].(mHealth := health)];
    }

    method UpdateLastRequestTimestampByClientID(clientTID: int, currentMillis: int)
      modifies this
      ensures mClientTidRepo == if clientTID in old(mClientTidRepo)
        then old(mClientTidRepo)[clientTID := old(mClientTidRepo)[clientTID].(mLastRequestTimestamp := currentMillis)] else old(mClientTidRepo)
    {
      if clientTID !in mClientTidRepo { return; }
      mClientTidRepo := mClientTidRepo[clientTID := mClientTidRepo[clientTID].(mLastRequestTimestamp := currentMillis)];
    }
  }

  class RequestManager {
    const mMaxConcurrentRequests: nat
    var mActiveRequests: map<int, RequestInfo>
    const mUntuneCache: HandleCache
    const clientDataManager: ClientDataManager

    ghost function Value(): Manager
      reads this, mUntuneCache, clientDataManager
    {
      Manager(map h | h in mActiveRequests :: Flags(mActiveRequests[h]), mUntuneCache.Value(), clientDataManager.Clients())
    }

    ghost predicate Valid()
      reads this, mUntuneCache, clientDataManager
    {
      CacheOk(mUntuneCache.Value())
    }

    constructor (maxConcurrentRequests: nat, clients: ClientDataManager)
      ensures Valid() && fresh(mUntuneCache) && clientDataManager == clients && mMaxConcurrentRequests == maxConcurrentRequests
      ensures Value() == Manager(map[], Cache(30, {}, []), clients.Clients())
    {
      mMaxConcurrentRequests := maxConcurrentRequests;
      mActiveRequests := map[];
      mUntuneCache := new HandleCache();
      clientDataManager := clients;
    }

    function VerifyHandle(handle: int): (exists_: bool)
      reads this, mUntuneCache, clientDataManager
      ensures exists_ <==> handle in Value().active
    {
      handle in mActiveRequests
    }

    /** The request and its status, or no request and the CANCELLED bit. */
    function GetRequestFromMap(handle: int): (r: (bool, RequestInfo))
      reads this, mUntuneCache, clientDataManager
      ensures r.0 <==> handle in Value().active
      ensures r.0 ==> Flags(r.1) == Value().active[handle]
      ensures !r.0 ==> Cancelled(r.1.status)
    {
      if handle !in mActiveRequests then
        StatusBits(0);
        (false, RequestInfo(Req(handle, 0, 0, {}), REQ_CANCELLED))
      else
        (true, mActiveRequests[handle])
    }

    function GetRequestProcessingStatus(handle: int): (status: bv8)
      reads this, mUntuneCache, clientDataManager
      ensures handle in Value().active ==> Cancelled(status) == Value().active[handle].cancelled
      ensures handle in Value().active ==> Completed(status) == Value().active[handle].completed
      ensures handle !in Value().active ==> status == REQ_NOT_FOUND
    {
      if handle in mActiveRequests then mActiveRequests[handle].status else REQ_NOT_FOUND
    }

    method Add(request: Req) returns (ok: bool)
      requires Valid()
      modifies this, clientDataManager
      ensures Valid() && (Value(), ok) == AddRequest(old(Value()), mMaxConcurrentRequests, request)
      ensures ok <==> |old(mActiveRequests)| < mMaxConcurrentRequests
                      && request.handle !in old(mActiveRequests) && request.handle !in mUntuneCache.mHandleSet
    {
      assert Value().active.Keys == mActiveRequests.Keys;
      if |mActiveRequests| >= mMaxConcurrentRequests { return false; }
      var handle := request.handle;
      if handle in mActiveRequests {
        mActiveRequests := mActiveRequests - {handle};
        assert Value().active == old(Value()).active - {handle};
        return false;
      }
      var cached := mUntuneCache.IsPresent(handle);
      if cached { return false; }
      StatusBits(REQ_UNCHANGED);
      mActiveRequests := mActiveRequests[handle := RequestInfo(request, REQ_UNCHANGED)];
      clientDataManager.InsertRequestByClientId(request.tid, handle);
      assert Value().active == old(Value()).active[handle := Entry(request, false, false)];
      return true;
    }

    method Remove(request: Req)
      requires Valid()
      modifies this, clientDataManager
      ensures Valid() && Value() == RemoveRequest(old(Value()), request)
    {
      clientDataManager.DeleteRequestByClientId(request.tid, request.handle);
      mActiveRequests := mActiveRequests - {request.handle};
      assert Value().active == old(Value()).active - {request.handle};
    }

    method DisableRequestProcessing(handle: int) returns (wasActive: bool)
      requires Valid()
      modifies this, mUntuneCache
      ensures Valid() && Value() == Disable(old(Value()), handle)
      ensures wasActive <==> handle in old(Value()).active
    {
      if handle !in mActiveRequests {
        mUntuneCache.Insert(handle);
        return false;
      }
      var entry := mActiveRequests[handle];
      StatusBits(entry.status);
      mActiveRequests := mActiveRequests[handle := entry.(status := entry.status | REQ_CANCELLED)];
      return true;
    }

    method MarkRequestAsComplete(handle: int)
      requires Valid()
      modifies this
      ensures Valid() && Value() == MarkComplete(old(Value()), handle)
    {
      if handle in mActiveRequests {
        var entry := mActiveRequests[handle];
        StatusBits(entry.status);
        mActiveRequests := mActiveRequests[handle := entry.(status := entry.status | REQ_COMPLETED)];
      }
    }
  }

  // ----- the untune-before-tune cache over runs ---------------------------------------------

  ghost function CacheAfter(c: Cache, inserts: seq<int>): (r: Cache)
    requires CacheOk(c)
    ensures CacheOk(r) && r.max == c.max
  {
    if inserts == [] then c
    else CacheInsert(CacheAfter(c, inserts[..|inserts| - 1]), inserts[|inserts| - 1])
  }

  /** One insertion keeps a cached handle exactly when there is room, or the handle is
      not the oldest entry, or it is the one inserted. */
  lemma SurvivesIff(c: Cache, handle: int, inserted: int)
    requires CacheOk(c) && handle in c.handles
    ensures handle in CacheInsert(c, inserted).handles <==>
      |c.handles| < c.max || c.recency[0] != handle || inserted == handle
  {
    if |c.handles| >= c.max {
      EvictionFindsAFront(c);
    }
  }

  ghost function Last(s: seq<int>, n: nat): (r: seq<int>)
    ensures |r| == if |s| <= n then |s| else n
  {
    if |s| <= n then s else s[|s| - n..]
  }

  /** The set of handles is that of the queue, without repetition. */
  ghost predicate Mirrors(c: Cache) {
    && Distinct(c.recency)
    && |c.handles| == |c.recency|
    && forall h :: h in c.handles <==> h in c.recency
  }

  lemma InsertKeepsMirroring(c: Cache, h: int)
    requires CacheOk(c) && Mirrors(c) && h !in c.handles
    ensures Mirrors(CacheInsert(c, h))
    ensures CacheInsert(c, h).recency == (if |c.recency| >= c.max then c.recency[1..] else c.recency) + [h]
  {
    if |c.handles| >= c.max {
      EvictionFindsAFront(c);
      var oldest := c.recency[0];
      assert c.recency == [oldest] + c.recency[1..];
      assert oldest in c.handles;
      assert |c.handles - {oldest}| == |c.handles| - 1;
    }
  }

  lemma LastSnoc(s: seq<int>, h: int, n: nat)
    requires n > 0
    ensures Last(s + [h], n) == (if |s| >= n then Last(s, n)[1..] else Last(s, n)) + [h]
    ensures h in Last(s, n) ==> h in s
  {
  }

  /** With no handle inserted twice, the cache holds exactly the last `max` handles. */
  lemma {:induction false} CacheHoldsTheLast(max: nat, inserts: seq<int>)
    requires max > 0 && Distinct(inserts)
    ensures Mirrors(CacheAfter(Cache(max, {}, []), inserts))
    ensures CacheAfter(Cache(max, {}, []), inserts).recency == Last(inserts, max)
  {
    if inserts != [] {
      var n := |inserts| - 1;
      CacheHoldsTheLast(max, inserts[..n]);
      assert inserts == inserts[..n] + [inserts[n]];
      LastSnoc(inserts[..n], inserts[n], max);
      InsertKeepsMirroring(CacheAfter(Cache(max, {}, []), inserts[..n]), inserts[n]);
    }
  }

  /** Untune before tune: a handle cached at position `k`, with fewer than `max` later
      insertions, is still cached, and its late tune is refused. */
  lemma LateTuneIsRefused(max: nat, inserts: seq<int>, k: nat, m: Manager, maxConcurrent: nat, req: Req)
    requires max > 0 && Distinct(inserts) && k < |inserts| && |inserts| - 1 - k < max
    requires m.cache == CacheAfter(Cache(max, {}, []), inserts) && req.handle == inserts[k] && req.handle !in m.active
    ensures AddRequest(m, maxConcurrent, req) == (m, false)
  {
    CacheHoldsTheLast(max, inserts);
    assert inserts[k] == (if |inserts| <= max then Last(inserts, max)[k] else Last(inserts, max)[k - (|inserts| - max)]);
  }

  /** How many queue entries `n` insertions of new handles take from the front: one each
      from the moment the cache is full. */
  ghost function Evictions(c: Cache, n: nat): nat {
    if |c.handles| + n <= c.max then 0
    else if |c.handles| >= c.max then n
    else |c.handles| + n - c.max
  }

  /** The handles of `more` are different from each other and from all that were queued. */
  ghost predicate AllNew(c: Cache, more: seq<int>) {
    Distinct(more) && forall h :: h in more ==> h !in c.recency
  }

  ghost function HandlesIn(s: seq<int>): set<int> {
    set h | h in s
  }

  /** `r` is what is left of the handles `known`, queued in `all`, after `k` entries were
      taken from the front. */
  ghost predicate Shifted(r: Cache, known: set<int>, all: seq<int>, k: nat) {
    k <= |all| && r.recency == all[k..] && r.handles == known - HandlesIn(all[..k])
  }

  lemma AsSetSnoc(s: seq<int>, h: int)
    ensures HandlesIn(s + [h]) == HandlesIn(s) + {h}
  {
    assert forall x :: x in s + [h] <==> x in s || x == h;
  }

  lemma NotGone(all: seq<int>, k: nat, h: int)
    requires k <= |all| && h !in all
    ensures h !in HandlesIn(all[..k])
  {
  }

  lemma ShiftRoom(all: seq<int>, k: nat, h: int)
    requires k <= |all|
    ensures (all + [h])[..k] == all[..k] && (all + [h])[k..] == all[k..] + [h]
  {
  }

  lemma ShiftFull(all: seq<int>, k: nat, h: int)
    requires k < |all|
    ensures (all + [h])[..k + 1] == all[..k] + [all[k]] && (all + [h])[k + 1..] == all[k..][1..] + [h]
    ensures all[k..][0] == all[k]
  {
  }

  lemma SetOut(known: set<int>, gone: set<int>, out: int, h: int)
    requires h !in gone && h != out
    ensures known - gone - {out} + {h} == known + {h} - (gone + {out}) && known - gone + {h} == known + {h} - gone
  {
  }

  lemma InsertShifts(r: Cache, known: set<int>, all: seq<int>, k: nat, h: int)
    requires CacheOk(r) && Shifted(r, known, all, k) && h !in all
    ensures Shifted(CacheInsert(r, h), known + {h}, all + [h], if |r.handles| >= r.max then k + 1 else k)
  {
    NotGone(all, k, h);
    if |r.handles| >= r.max {
      EvictionFindsAFront(r);
      assert k < |all|;
      ShiftFull(all, k, h);
      AsSetSnoc(all[..k], all[k]);
      SetOut(known, HandlesIn(all[..k]), all[k], h);
      assert Shifted(CacheInsert(r, h), known + {h}, all + [h], k + 1);
    } else {
      ShiftRoom(all, k, h);
      SetOut(known, HandlesIn(all[..k]), h + 1, h);
    }
  }

  lemma InsertFills(r: Cache, h: int)
    requires CacheOk(r) && h !in r.handles
    ensures if |r.handles| < r.max then |CacheInsert(r, h).handles| == |r.handles| + 1 else |CacheInsert(r, h).handles| >= |r.handles|
  {
    if |r.handles| >= r.max {
      EvictionFindsAFront(r);
      var left := r.handles - {r.recency[0]};
      assert left + {r.recency[0]} >= r.handles;
      assert |left| >= |r.handles| - 1;
    }
  }

  lemma NewSnoc(c: Cache, front: seq<int>, h: int)
    requires AllNew(c, front + [h])
    ensures AllNew(c, front) && h !in c.recency + front
  {
    assert h in front + [h];
    assert forall x :: x in front ==> x in front + [h];
    forall i | 0 <= i < |front| ensures front[i] != h {
      assert (front + [h])[i] == front[i] && (front + [h])[|front|] == h;
    }
    forall i, j | 0 <= i < j < |front| ensures front[i] != front[j] {
      assert (front + [h])[i] == front[i] && (front + [h])[j] == front[j];
    }
  }

  /** After new handles came in, the queue lost its front entries, and exactly the handles
      in those entries are no longer cached; a cache that is full stays full. */
  lemma {:induction false} CacheAfterNew(c: Cache, more: seq<int>)
    requires CacheOk(c) && AllNew(c, more)
    ensures Shifted(CacheAfter(c, more), c.handles + HandlesIn(more), c.recency + more, Evictions(c, |more|))
    ensures FilledBy(c, |more|, |CacheAfter(c, more).handles|)
  {
    if more == [] {
      assert c.recency + more == c.recency && c.handles + HandlesIn(more) == c.handles;
    } else {
      var n := |more| - 1;
      assert more == more[..n] + [more[n]];
      NewSnoc(c, more[..n], more[n]);
      CacheAfterNew(c, more[..n]);
      NewStep(c, more[..n], more[n], CacheAfter(c, more[..n]));
      FillStep(c, n, CacheAfter(c, more[..n]), more[n]);
    }
  }

  ghost predicate FilledBy(c: Cache, n: nat, size: nat) {
    if |c.handles| + n <= c.max then size == |c.handles| + n else size >= c.max
  }

  lemma EvictionsStep(c: Cache, n: nat, size: nat)
    requires FilledBy(c, n, size)
    ensures Evictions(c, n + 1) == if size >= c.max then Evictions(c, n) + 1 else Evictions(c, n)
  {
  }

  lemma Regrouped(known: set<int>, all: seq<int>, front: seq<int>, h: int)
    ensures all + (front + [h]) == all + front + [h]
    ensures known + HandlesIn(front + [h]) == known + HandlesIn(front) + {h}
  {
    AsSetSnoc(front, h);
  }

  lemma FillStep(c: Cache, n: nat, r: Cache, h: int)
    requires CacheOk(r) && r.max == c.max && h !in r.recency && FilledBy(c, n, |r.handles|)
    ensures FilledBy(c, n + 1, |CacheInsert(r, h).handles|)
  {
    assert h !in r.handles;
    InsertFills(r, h);
  }

  lemma NewStep(c: Cache, front: seq<int>, h: int, r: Cache)
    requires CacheOk(r) && r.max == c.max && h !in c.recency + front
    requires Shifted(r, c.handles + HandlesIn(front), c.recency + front, Evictions(c, |front|))
    requires FilledBy(c, |front|, |r.handles|)
    ensures Shifted(CacheInsert(r, h), c.handles + HandlesIn(front + [h]), c.recency + (front + [h]), Evictions(c, |front| + 1))
  {
    var known, all, k := c.handles + HandlesIn(front), c.recency + front, Evictions(c, |front|);
    Regrouped(c.handles, c.recency, front, h);
    EvictionsStep(c, |front|, |r.handles|);
    assert Shifted(CacheInsert(r, h), known + {h}, all + [h], Evictions(c, |front| + 1)) by { InsertShifts(r, known, all, k, h); }
  }

  /** The first queue entry of a cached handle. */
  ghost function FirstEntry(s: seq<int>, h: int): (i: nat)
    requires h in s
    ensures i < |s| && s[i] == h && forall j :: 0 <= j < i ==> s[j] != h
  {
    if s[0] == h then 0 else
      assert s == [s[0]] + s[1..];
      1 + FirstEntry(s[1..], h)
  }

  /** A cached handle outlives the insertion of new handles if and only if they do not reach
      its first queue entry. */
  lemma StaysCachedIff(c: Cache, h: int, more: seq<int>)
    requires CacheOk(c) && h in c.handles && AllNew(c, more)
    ensures h in CacheAfter(c, more).handles <==> Evictions(c, |more|) <= FirstEntry(c.recency, h)
  {
    var k, all, i := Evictions(c, |more|), c.recency + more, FirstEntry(c.recency, h);
    CacheAfterNew(c, more);
    assert forall j :: 0 <= j < |c.recency| ==> all[j] == c.recency[j];
    assert i < k ==> all[..k][i] == h;
  }

  /** The handles 1, .., n in order. */
  ghost function UpTo(n: nat): (s: seq<int>)
    ensures |s| == n && Distinct(s) && forall i :: 0 <= i < n ==> s[i] == i + 1
  {
    seq(n, i => i + 1)
  }

  /** A handle cached twice is evicted early, in a cache of any size from 3 on: insert 1 up to
      max - 1, then 1 again, then two new handles. The first entry of 1 stands for both. */
  lemma DuplicateInsertEvictsEarly(max: nat)
    requires max >= 3
    ensures 1 !in CacheAfter(Cache(max, {}, []), UpTo(max - 1) + [1] + [max, max + 1]).handles
  {
    var start, once, more := Cache(max, {}, []), UpTo(max - 1), [max, max + 1];
    var c := CacheAfter(start, once + [1]);
    CachedTwice(max, c);
    NextTwoAreNew(max, c);
    StaysCachedIff(c, 1, more);
    CacheAfterConcat(start, once + [1], more);
  }

  lemma NextTwoAreNew(max: nat, c: Cache)
    requires max >= 3 && c.recency == UpTo(max - 1) + [1]
    ensures AllNew(c, [max, max + 1])
  {
    assert [max, max + 1][0] == max && [max, max + 1][1] == max + 1;
  }

  lemma CachedOnce(max: nat, c: Cache)
    requires max >= 3 && c == CacheAfter(Cache(max, {}, []), UpTo(max - 1))
    ensures c.max == max && c.recency == UpTo(max - 1) && c.handles == HandlesIn(UpTo(max - 1)) && |c.handles| == max - 1
  {
    CacheHoldsTheLast(max, UpTo(max - 1));
    assert forall h :: h in c.handles <==> h in UpTo(max - 1);
  }

  lemma CachedTwice(max: nat, c: Cache)
    requires max >= 3 && c == CacheAfter(Cache(max, {}, []), UpTo(max - 1) + [1])
    ensures c.max == max && c.recency == UpTo(max - 1) + [1] && |c.handles| == max - 1
    ensures CacheOk(c) && 1 in c.handles && FirstEntry(c.recency, 1) == 0
  {
    var start, once := Cache(max, {}, []), UpTo(max - 1);
    var d := CacheAfter(start, once);
    CachedOnce(max, d);
    assert once[0] == 1 && d.handles + {1} == d.handles;
    assert (once + [1])[..|once|] == once;
  }

  lemma {:induction false} CacheAfterConcat(c: Cache, first: seq<int>, more: seq<int>)
    requires CacheOk(c)
    ensures CacheAfter(c, first + more) == CacheAfter(CacheAfter(c, first), more)
  {
    if more == [] {
      assert first + more == first;
    } else {
      var n := |more| - 1;
      assert (first + more)[..|first + more| - 1] == first + more[..n];
      CacheAfterConcat(c, first, more[..n]);
    }
  }
}
