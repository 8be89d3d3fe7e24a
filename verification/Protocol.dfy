/** The life of requests as a transition system (RequestHandler, RequestQueue,
    RequestManager, OrderedQueue).

    Worker threads admit and disable requests, one consumer serves the queue, timers and
    the garbage collector file untunes of their own.  Steps of different threads interleave
    wherever the source's locks let them: the manager's lock is taken for one step at a
    time, while the consumer holds the queue's lock from its wake-up to the end of the drain,
    so that nothing is enqueued in between.  Among messages of equal priority any may be
    served first. */
module Protocol {
  import opened RequestManagement
  import opened Wrappers

  const SERVER_CLEANUP_TRIGGER_PRIORITY := -2

  /** Wakeup is the plain message that makes the consumer give up its loop. */
  datatype Msg =
    | Wakeup
    | Tune(req: Req)
    | Untune(handle: int, priority: int)
    | Retune(handle: int, priority: int)

  function Priority(m: Msg): int {
    match m
    case Wakeup => SERVER_CLEANUP_TRIGGER_PRIORITY
    case Tune(req) => req.priority
    case Untune(_, p) => p
    case Retune(_, p) => p
  }

  /** A node of the coordinator table: resource `slot` of the request of `owner`. */
  datatype Link = Link(owner: int, slot: nat)

  /** next: handles below it were issued.  arriving: tune requests received, not yet
      admitted.  checking: untunes past disableRequestProcessing, not yet past
      verifyHandle.  staged: past admission, not yet in the queue.  draining: the consumer
      is awake and holds the queue's lock.  serving: the tune it has popped and found
      neither cancelled nor complete.
      untuned: handles for which an effective untune was filed (history only). */
  datatype State = State(
    next: int, arriving: set<Req>, manager: Manager, checking: multiset<(int, int)>,
    staged: multiset<Msg>, queue: multiset<Msg>, draining: bool, serving: Option<Req>, table: set<Link>,
    untuned: set<int>)

  datatype Step =
    | Receive(req: Req)             // a tune message gets its unique handle
    | Reject(req: Req)              // rate limiter, verifier or duplicate check says no
    | Admit(req: Req)               // RequestManager::addRequest
    | DisableHandle(handle: int, priority: int)  // disableRequestProcessing
    | DropUntune(handle: int, priority: int)     // the rate limiter refuses the untune
    | VerifyUntune(handle: int, priority: int)   // verifyHandle, then stage
    | FileUntune(handle: int)       // timer expiry (of a completed request), or the garbage collector
    | FileRetune(handle: int, priority: int)
    | ForceAwake                    // OrderedQueue::forcefulAwake, at the end of the server
    | Enqueue(m: Msg)               // OrderedQueue::addAndWakeup
    | Wake                          // OrderedQueue::wait finds a message
    | Consume(m: Msg)               // pop, and everything up to the status check
    | Commit(timerAllocated: bool)  // markRequestAsComplete and insertRequest
    | Rest                          // nothing is left and the drain ends
    | Track(tid: int)               // ClientDataManager::createNewClient
    | Untrack(tid: int)             // ClientDataManager::deleteClientTID

  ghost function Init(maxCache: nat): State
  {
    State(1, {}, Manager(map[], Cache(maxCache, {}, []), map[]), multiset{}, multiset{}, multiset{}, false, None, {}, {})
  }

  function Links(req: Req): set<Link> {
    set k | k in req.slots :: Link(req.handle, k)
  }

  ghost function Linked(table: set<Link>, handle: int): set<Link> {
    set l | l in table && l.owner == handle
  }

  predicate Minimal(m: Msg, queue: multiset<Msg>) {
    m in queue && forall x :: x in queue ==> Priority(m) <= Priority(x)
  }

  /** Serving `m` first is right while `x` waits, told by the levels the messages themselves
      carry: the smaller level goes first, and the stop mark before any level that is served. */
  ghost predicate NoLater(m: Msg, x: Msg) {
    && (m.Tune? && x.Tune? ==> m.req.priority <= x.req.priority)
    && (m.Tune? && (x.Untune? || x.Retune?) ==> m.req.priority <= x.priority)
    && ((m.Untune? || m.Retune?) && x.Tune? ==> m.priority <= x.req.priority)
    && ((m.Untune? || m.Retune?) && (x.Untune? || x.Retune?) ==> m.priority <= x.priority)
    && (x.Wakeup? ==> m.Wakeup? || (m.Tune? && m.req.priority <= -2) || ((m.Untune? || m.Retune?) && m.priority <= -2))
    && (m.Wakeup? ==> (x.Tune? ==> -2 <= x.req.priority) && (x.Untune? || x.Retune? ==> -2 <= x.priority))
  }

  /** The plain wake-up, or a message that carries level -2. */
  ghost predicate StopMark(m: Msg) {
    m.Wakeup? || (m.Tune? && m.req.priority == -2) || ((m.Untune? || m.Retune?) && m.priority == -2)
  }

  lemma SmallerLevelGoesFirst(m: Msg, x: Msg)
    ensures NoLater(m, x) <==> Priority(m) <= Priority(x)
    ensures StopMark(m) <==> Priority(m) == SERVER_CLEANUP_TRIGGER_PRIORITY
  {
  }

  /** A least message is one that no message of the queue should have come before. */
  lemma LeastIsMostUrgent(m: Msg, queue: multiset<Msg>)
    ensures Minimal(m, queue) <==> m in queue && forall x :: x in queue ==> NoLater(m, x)
  {
    forall x ensures NoLater(m, x) <==> Priority(m) <= Priority(x) { SmallerLevelGoesFirst(m, x); }
  }

  ghost predicate Enabled(s: State, step: Step) {
    && CacheOk(s.manager.cache)
    && match step
       case Receive(req) => req.handle == s.next
       case Reject(req) => req in s.arriving
       case Admit(req) => req in s.arriving && req.priority >= 0
       case DisableHandle(_, _) => true
       case DropUntune(h, p) => (h, p) in s.checking
       case VerifyUntune(h, p) => (h, p) in s.checking
       case FileUntune(h) => h in s.manager.active
       case FileRetune(h, _) => h in s.manager.active
       case ForceAwake => true
       case Enqueue(m) => m in s.staged && !s.draining
       case Wake => !s.draining && s.queue != multiset{}
       case Consume(m) => s.draining && s.serving.None? && Minimal(m, s.queue)
       case Commit(_) => s.serving.Some?
       case Rest => s.draining && s.serving.None? && s.queue == multiset{}
       case Track(_) => true
       case Untrack(tid) => tid in s.manager.clients
  }

  ghost predicate NoStopMark(queue: multiset<Msg>) {
    forall m :: m in queue ==> Priority(m) != SERVER_CLEANUP_TRIGGER_PRIORITY
  }

  /** The drain under way will serve the handle's tune: it is queued, and no stop mark is. */
  ghost predicate DrainReaches(s: State, h: int)
    requires h in s.manager.active
  {
    s.draining && Tune(s.manager.active[h].req) in s.queue && NoStopMark(s.queue)
  }

  /** May the untune that is filed now be relied upon?  It may if the tune is already in
      the table, or is marked cancelled, or is past the consumer's status check, or will be
      served before the untune can even be enqueued. */
  ghost predicate Effective(s: State, h: int)
    requires h in s.manager.active
  {
    || s.manager.active[h].completed
    || s.manager.active[h].cancelled
    || (s.serving.Some? && s.serving.value.handle == h)
    || DrainReaches(s, h)
  }

  ghost function Do(s: State, maxConcurrent: nat, step: Step): State
    requires Enabled(s, step)
  {
    match step
    case Receive(req) => s.(next := s.next + 1, arriving := s.arriving + {req})
    case Reject(req) => s.(arriving := s.arriving - {req})
    case Admit(req) =>
      var (manager, ok) := AddRequest(s.manager, maxConcurrent, req);
      s.(arriving := s.arriving - {req}, manager := manager,
         staged := if ok then s.staged + multiset{Tune(req)} else s.staged)
    case DisableHandle(h, p) =>
      s.(manager := Disable(s.manager, h),
         checking := if h in s.manager.active then s.checking + multiset{(h, p)} else s.checking)
    case DropUntune(h, p) => s.(checking := s.checking - multiset{(h, p)})
    case VerifyUntune(h, p) =>
      var s' := s.(checking := s.checking - multiset{(h, p)});
      if h in s.manager.active
      then s'.(staged := s.staged + multiset{Untune(h, p)},
               untuned := if p > SERVER_CLEANUP_TRIGGER_PRIORITY then s.untuned + {h} else s.untuned)
      else s'
    case FileUntune(h) =>
      s.(staged := s.staged + multiset{Untune(h, s.manager.active[h].req.priority)},
         untuned := if Effective(s, h) then s.untuned + {h} else s.untuned)
    case FileRetune(h, p) => s.(staged := s.staged + multiset{Retune(h, p)})
    case ForceAwake => s.(staged := s.staged + multiset{Wakeup})
    case Enqueue(m) =>
      s.(staged := s.staged - multiset{m},
         queue := if Priority(m) < SERVER_CLEANUP_TRIGGER_PRIORITY then s.queue else s.queue + multiset{m})
    case Wake => s.(draining := true)
    case Consume(m) => Serve(s.(queue := s.queue - multiset{m}), m)
    case Commit(timerAllocated) =>
      var req := s.serving.value;
      var marked := MarkComplete(s.manager, req.handle);
      if timerAllocated
      then s.(serving := None, manager := marked, table := s.table + Links(req))
      else s.(serving := None, manager := RemoveRequest(marked, req))
    case Rest => s.(draining := false)
    case Track(tid) => s.(manager := s.manager.(clients := s.manager.clients[tid := {}]))
    case Untrack(tid) => s.(manager := s.manager.(clients := s.manager.clients - {tid}))
  }

  /** One turn of the consumer loop, up to the tune's status check. */
  ghost function Serve(s: State, m: Msg): State {
    if Priority(m) == SERVER_CLEANUP_TRIGGER_PRIORITY then s.(draining := false)
    else match m
    case Wakeup => s
    case Tune(req) =>
      if req.handle in s.manager.active
         && (s.manager.active[req.handle].cancelled || s.manager.active[req.handle].completed)
      then s.(manager := RemoveRequest(s.manager, req))
      else s.(serving := Some(req))
    case Untune(h, _) =>
      if h !in s.manager.active || !s.manager.active[h].completed then s
      else
        var req := s.manager.active[h].req;
        s.(table := s.table - Links(req), manager := RemoveRequest(s.manager, req))
    case Retune(_, _) => s
  }

  // ----- runs --------------------------------------------------------------------------

  ghost predicate CanFollow(s: State, maxConcurrent: nat, steps: seq<Step>)
    decreases |steps|
  {
    steps == [] || (Enabled(s, steps[0]) && CanFollow(Do(s, maxConcurrent, steps[0]), maxConcurrent, steps[1..]))
  }

  ghost function Follow(s: State, maxConcurrent: nat, steps: seq<Step>): State
    requires CanFollow(s, maxConcurrent, steps)
    decreases |steps|
  {
    if steps == [] then s else Follow(Do(s, maxConcurrent, steps[0]), maxConcurrent, steps[1..])
  }

  /** A run starts from the empty server. */
  ghost predicate IsRun(maxCache: nat, maxConcurrent: nat, steps: seq<Step>) {
    CanFollow(Init(maxCache), maxConcurrent, steps)
  }

  ghost function After(maxCache: nat, maxConcurrent: nat, steps: seq<Step>): State
    requires IsRun(maxCache, maxConcurrent, steps)
  {
    Follow(Init(maxCache), maxConcurrent, steps)
  }

  // ----- the lifecycle invariant ----------------------------------------------------------

  /** Tune messages not yet acted upon, wherever they are. */
  ghost function Pending(s: State): multiset<Msg> {
    s.staged + s.queue + if s.serving.Some? then multiset{Tune(s.serving.value)} else multiset{}
  }

  /** An untune of the handle is on its way to the consumer. */
  ghost predicate Filed(s: State, h: int, p: int) {
    Untune(h, p) in s.staged || Untune(h, p) in s.queue
  }

  ghost predicate UntunePending(s: State, h: int) {
    exists p :: p > SERVER_CLEANUP_TRIGGER_PRIORITY && (Untune(h, p) in s.staged || Untune(h, p) in s.queue)
  }

  ghost predicate Done(s: State, h: int) {
    h in s.manager.active && s.manager.active[h].completed
  }

  ghost predicate Serving(s: State, h: int) {
    s.serving.Some? && s.serving.value.handle == h
  }

  /** A tune awaiting service belongs to an active, incomplete request, and is there once. */
  ghost predicate TuneOk(s: State, req: Req) {
    && req.priority >= 0
    && req.handle in s.manager.active && s.manager.active[req.handle].req == req
    && !s.manager.active[req.handle].completed
    && Pending(s)[Tune(req)] == 1
  }

  /** An active handle either still awaits its tune, or is complete. */
  ghost predicate ActiveOk(s: State, h: int)
    requires h in s.manager.active
  {
    var e := s.manager.active[h];
    && e.req.handle == h && h < s.next && e.req.priority >= 0
    && (!e.completed ==> Tune(e.req) in Pending(s))
  }

  /** The drain under way serves the handle's tune, and an untune waits for its end. */
  ghost predicate Overtaken(s: State, h: int)
    requires h in s.manager.active
  {
    DrainReaches(s, h) && exists p :: p > SERVER_CLEANUP_TRIGGER_PRIORITY && Untune(h, p) in s.staged
  }

  ghost predicate UntunedOk(s: State, h: int) {
    && h < s.next
    && (h in s.manager.active ==>
      && (!Done(s, h) ==> s.manager.active[h].cancelled || Serving(s, h) || Overtaken(s, h))
      && (Done(s, h) || Serving(s, h) ==> UntunePending(s, h)))
  }

  /** An untune of a handle nobody cancelled was filed by a timer or the collector, with
      the priority of the request itself. */
  ghost predicate FiledOk(s: State, h: int, p: int) {
    && h < s.next
    && (h in s.manager.active && !s.manager.active[h].cancelled ==> p == s.manager.active[h].req.priority)
  }

  ghost predicate ArrivingOk(s: State, req: Req) {
    && (forall p :: Untune(req.handle, p) !in s.staged && Untune(req.handle, p) !in s.queue)
    && req.handle < s.next && req.handle !in s.manager.active && req.handle !in s.untuned
    && (forall p :: (req.handle, p) !in s.checking)
    && (forall other :: other in s.arriving && other.handle == req.handle ==> other == req)
  }

  ghost predicate CheckingOk(s: State, h: int, p: int) {
    h < s.next && (h in s.manager.active ==> s.manager.active[h].cancelled)
  }

  /** Tunes, active handles and the table agree. */
  ghost predicate TunesOk(s: State, maxConcurrent: nat) {
    && CacheOk(s.manager.cache)
    && |s.manager.active| <= maxConcurrent
    && (forall req {:trigger TuneOk(s, req)} :: Tune(req) in Pending(s) ==> TuneOk(s, req))
    && (forall h {:trigger ActiveOk(s, h)} :: h in s.manager.active ==> ActiveOk(s, h))
    && (forall l {:trigger l in s.table} :: l in s.table <==> Done(s, l.owner) && l.slot in s.manager.active[l.owner].req.slots)
  }

  /** Every untune that counts will still take effect; handles are never reused. */
  ghost predicate UntunesOk(s: State) {
    && (forall h {:trigger UntunedOk(s, h)} :: h in s.untuned ==> UntunedOk(s, h))
    && UnderwayOk(s)
  }

  /** Requests and untunes that are still being handled. */
  ghost predicate UnderwayOk(s: State) {
    && (forall h, p {:trigger CheckingOk(s, h, p)} :: (h, p) in s.checking ==> CheckingOk(s, h, p))
    && (forall req {:trigger ArrivingOk(s, req)} :: req in s.arriving ==> ArrivingOk(s, req))
    && (forall h, p {:trigger FiledOk(s, h, p)} :: Filed(s, h, p) ==> FiledOk(s, h, p))
  }

  /** A message below the stop mark never gets into the queue, and a tune is served only
      while the consumer drains. */
  ghost predicate DrainOk(s: State) {
    && (forall m :: m in s.queue ==> Priority(m) >= SERVER_CLEANUP_TRIGGER_PRIORITY)
    && (s.serving.Some? ==> s.draining && NoStopMark(s.queue))
  }

  ghost predicate Inv(s: State, maxConcurrent: nat) {
    TunesOk(s, maxConcurrent) && UntunesOk(s) && DrainOk(s)
  }

  lemma InitInv(maxCache: nat, maxConcurrent: nat)
    requires maxCache > 0
    ensures Inv(Init(maxCache), maxConcurrent)
  {
  }

  // ----- every step keeps the invariant -------------------------------------------------------

  /** Nothing that concerns tunes and the table changed. */
  lemma QuietKeepsTunes(s: State, t: State, max: nat)
    requires TunesOk(s, max) && CacheOk(t.manager.cache)
    requires t.manager.active == s.manager.active && t.table == s.table && s.next <= t.next
    requires forall r :: Pending(t)[Tune(r)] == Pending(s)[Tune(r)]
    ensures TunesOk(t, max)
  {
    forall r | Tune(r) in Pending(t) ensures TuneOk(t, r) { assert TuneOk(s, r); }
    forall h | h in t.manager.active ensures ActiveOk(t, h) { assert ActiveOk(s, h); }
  }

  /** No handle became active, and what is underway was underway before, except untunes of
      active handles filed with the request's own priority or after a cancellation. */
  lemma QuietKeepsUnderway(s: State, t: State)
    requires UnderwayOk(s) && s.next <= t.next && t.checking <= s.checking && t.arriving <= s.arriving
    requires forall h :: h in t.manager.active ==> h in s.manager.active && Kept(s.manager.active[h], t.manager.active[h])
    requires forall h :: h in t.untuned ==> h in s.untuned || h in s.manager.active
    requires forall h, p :: Filed(t, h, p) ==> Filed(s, h, p) || (h in s.manager.active && FiledOk(t, h, p))
    ensures UnderwayOk(t)
  {
    forall h, p | (h, p) in t.checking ensures CheckingOk(t, h, p) { assert CheckingOk(s, h, p); }
    forall r | r in t.arriving ensures ArrivingOk(t, r) {
      assert ArrivingOk(s, r);
      forall p ensures Untune(r.handle, p) !in t.staged && Untune(r.handle, p) !in t.queue { assert !Filed(t, r.handle, p); }
    }
    forall h, p | Filed(t, h, p) ensures FiledOk(t, h, p) {
      if Filed(s, h, p) { assert FiledOk(s, h, p); }
    }
  }

  /** An untune that is on its way stays so while messages are only staged. */
  lemma StaysPending(s: State, t: State, h: int)
    requires s.staged <= t.staged && t.queue == s.queue && t.draining == s.draining
    ensures UntunePending(s, h) ==> UntunePending(t, h)
    ensures h in s.manager.active && h in t.manager.active && t.manager.active[h].req == s.manager.active[h].req ==>
      (Overtaken(s, h) ==> Overtaken(t, h))
  {
    if UntunePending(s, h) {
      var p :| p > SERVER_CLEANUP_TRIGGER_PRIORITY && (Untune(h, p) in s.staged || Untune(h, p) in s.queue);
      assert Untune(h, p) in t.staged || Untune(h, p) in t.queue;
    }
    if h in s.manager.active && Overtaken(s, h) {
      var p :| p > SERVER_CLEANUP_TRIGGER_PRIORITY && Untune(h, p) in s.staged;
      assert Untune(h, p) in t.staged;
    }
  }

  /** The request of an entry never changes and a cancellation is never taken back. */
  ghost predicate Kept(was: Entry, now: Entry) {
    now.req == was.req && (was.cancelled ==> now.cancelled)
  }

  /** A handle left together with its pending tune, if any, and with its nodes. */
  lemma DepartureKeepsTunes(s: State, t: State, max: nat, req: Req)
    requires TunesOk(s, max) && CacheOk(t.manager.cache)
    requires req.handle in s.manager.active && s.manager.active[req.handle].req == req
    requires t.manager.active == s.manager.active - {req.handle} && s.next <= t.next
    requires t.table == s.table - Links(req)
    requires forall r :: Pending(t)[Tune(r)] == if r == req then 0 else Pending(s)[Tune(r)]
    ensures TunesOk(t, max)
  {
    forall r | Tune(r) in Pending(t) ensures TuneOk(t, r) {
      assert TuneOk(s, r);
    }
    forall h | h in t.manager.active ensures ActiveOk(t, h) {
      assert ActiveOk(s, h) && ActiveOk(s, req.handle);
    }
    assert forall l :: l in Links(req) <==> l.owner == req.handle && l.slot in req.slots;
  }

  lemma KeepReceive(s: State, max: nat, req: Req)
    requires Inv(s, max) && Enabled(s, Receive(req))
    ensures TunesOk(Do(s, max, Receive(req)), max) && UntunesOk(Do(s, max, Receive(req)))
  {
    var t := Do(s, max, Receive(req));
    QuietKeepsTunes(s, t, max);
    forall h | h in t.untuned ensures UntunedOk(t, h) { assert UntunedOk(s, h); }
    forall h, p | (h, p) in t.checking ensures CheckingOk(t, h, p) { assert CheckingOk(s, h, p); }
    forall r | r in t.arriving ensures ArrivingOk(t, r) {
      if r == req {
        forall o | o in s.arriving ensures o.handle < s.next { assert ArrivingOk(s, o); }
        assert r.handle in s.manager.active ==> ActiveOk(s, r.handle);
        assert r.handle in s.untuned ==> UntunedOk(s, r.handle);
        assert forall p :: (r.handle, p) in s.checking ==> CheckingOk(s, r.handle, p);
        forall p ensures Untune(r.handle, p) !in s.staged && Untune(r.handle, p) !in s.queue {
          assert Filed(s, r.handle, p) ==> FiledOk(s, r.handle, p);
        }
      } else {
        assert ArrivingOk(s, r);
      }
    }
    forall h, p | Filed(t, h, p) ensures FiledOk(t, h, p) { assert FiledOk(s, h, p); }
  }

  lemma KeepReject(s: State, max: nat, req: Req)
    requires Inv(s, max) && Enabled(s, Reject(req))
    ensures TunesOk(Do(s, max, Reject(req)), max) && UntunesOk(Do(s, max, Reject(req)))
  {
    var t := Do(s, max, Reject(req));
    QuietKeepsTunes(s, t, max);
    forall h | h in t.untuned ensures UntunedOk(t, h) { assert UntunedOk(s, h); }
    QuietKeepsUnderway(s, t);
  }

  lemma AdmitKeepsTunes(s: State, max: nat, req: Req)
    requires Inv(s, max) && Enabled(s, Admit(req))
    ensures TunesOk(Do(s, max, Admit(req)), max)
  {
    var t := Do(s, max, Admit(req));
    assert ArrivingOk(s, req);
    assert Tune(req) in Pending(s) ==> TuneOk(s, req);
    if !AddRequest(s.manager, max, req).1 {
      QuietKeepsTunes(s, t, max);
      return;
    }
    assert Pending(t) == Pending(s) + multiset{Tune(req)};
    forall r | Tune(r) in Pending(t) ensures TuneOk(t, r) { if r != req { assert TuneOk(s, r); } }
    forall h | h in t.manager.active ensures ActiveOk(t, h) { if h != req.handle { assert ActiveOk(s, h); } }
  }

  lemma AdmitKeepsUntunes(s: State, max: nat, req: Req)
    requires Inv(s, max) && Enabled(s, Admit(req))
    ensures UntunesOk(Do(s, max, Admit(req)))
  {
    var t := Do(s, max, Admit(req));
    assert ArrivingOk(s, req);
    forall h | h in t.untuned ensures UntunedOk(t, h) { assert UntunedOk(s, h); }
    forall h, p | (h, p) in t.checking ensures CheckingOk(t, h, p) { assert CheckingOk(s, h, p); }
    forall r | r in t.arriving ensures ArrivingOk(t, r) { assert ArrivingOk(s, r); }
    forall h, p | Filed(t, h, p) ensures FiledOk(t, h, p) { assert Filed(s, h, p) && FiledOk(s, h, p); }
  }

  lemma DisableKeepsTunes(s: State, max: nat, h0: int, p0: int)
    requires Inv(s, max) && Enabled(s, DisableHandle(h0, p0))
    ensures TunesOk(Do(s, max, DisableHandle(h0, p0)), max)
  {
    var t := Do(s, max, DisableHandle(h0, p0));
    assert Pending(t) == Pending(s) && t.manager.active.Keys == s.manager.active.Keys;
    assert forall h :: Done(t, h) <==> Done(s, h);
    forall r | Tune(r) in Pending(t) ensures TuneOk(t, r) { assert TuneOk(s, r); }
    forall h | h in t.manager.active ensures ActiveOk(t, h) { assert ActiveOk(s, h); }
  }

  lemma DisableKeepsUntunes(s: State, max: nat, h0: int, p0: int)
    requires Inv(s, max) && Enabled(s, DisableHandle(h0, p0))
    ensures UntunesOk(Do(s, max, DisableHandle(h0, p0)))
  {
    var t := Do(s, max, DisableHandle(h0, p0));
    assert t.manager.active.Keys == s.manager.active.Keys;
    assert forall h :: Done(t, h) <==> Done(s, h);
    forall h | h in t.untuned ensures UntunedOk(t, h) { assert UntunedOk(s, h) && (UntunePending(s, h) ==> UntunePending(t, h)); }
    forall h, p | (h, p) in t.checking ensures CheckingOk(t, h, p) {
      if (h, p) in s.checking { assert CheckingOk(s, h, p); } else { assert ActiveOk(s, h0); }
    }
    forall r | r in t.arriving ensures ArrivingOk(t, r) { assert ArrivingOk(s, r); }
    forall h, p | Filed(t, h, p) ensures FiledOk(t, h, p) { assert FiledOk(s, h, p); }
  }

  lemma KeepDropUntune(s: State, max: nat, h0: int, p0: int)
    requires Inv(s, max) && Enabled(s, DropUntune(h0, p0))
    ensures TunesOk(Do(s, max, DropUntune(h0, p0)), max) && UntunesOk(Do(s, max, DropUntune(h0, p0)))
  {
    var t := Do(s, max, DropUntune(h0, p0));
    QuietKeepsTunes(s, t, max);
    forall h | h in t.untuned ensures UntunedOk(t, h) { assert UntunedOk(s, h); }
    QuietKeepsUnderway(s, t);
  }

  lemma VerifyUntuneKeepsTunes(s: State, max: nat, h0: int, p0: int)
    requires Inv(s, max) && Enabled(s, VerifyUntune(h0, p0))
    ensures TunesOk(Do(s, max, VerifyUntune(h0, p0)), max)
  {
    var t := Do(s, max, VerifyUntune(h0, p0));
    assert CheckingOk(s, h0, p0);
    QuietKeepsTunes(s, t, max);
  }

  lemma VerifyUntuneKeepsUntunes(s: State, max: nat, h0: int, p0: int)
    requires Inv(s, max) && Enabled(s, VerifyUntune(h0, p0))
    ensures UntunesOk(Do(s, max, VerifyUntune(h0, p0)))
  {
    var t := Do(s, max, VerifyUntune(h0, p0));
    assert CheckingOk(s, h0, p0);
    assert h0 in s.manager.active ==> Untune(h0, p0) in t.staged;
    forall h | h in t.untuned ensures UntunedOk(t, h) {
      assert h in s.untuned ==> UntunedOk(s, h);
      assert UntunePending(s, h) ==> UntunePending(t, h);
    }
    QuietKeepsUnderway(s, t);
  }

  lemma FileUntuneKeepsTunes(s: State, max: nat, h0: int)
    requires Inv(s, max) && Enabled(s, FileUntune(h0))
    ensures TunesOk(Do(s, max, FileUntune(h0)), max)
  {
    var t := Do(s, max, FileUntune(h0));
    assert ActiveOk(s, h0);
    QuietKeepsTunes(s, t, max);
  }

  lemma FileUntuneKeepsUntunes(s: State, max: nat, h0: int)
    requires Inv(s, max) && Enabled(s, FileUntune(h0))
    ensures UntunesOk(Do(s, max, FileUntune(h0)))
  {
    var t := Do(s, max, FileUntune(h0));
    assert ActiveOk(s, h0);
    assert Untune(h0, s.manager.active[h0].req.priority) in t.staged;
    forall h | h in t.untuned ensures UntunedOk(t, h) {
      assert h in s.untuned ==> UntunedOk(s, h);
      assert UntunePending(s, h) ==> UntunePending(t, h);
    }
    QuietKeepsUnderway(s, t);
  }

  /** A retune or a forced wake-up is staged. */
  lemma KeepStaging(s: State, max: nat, step: Step)
    requires Inv(s, max) && Enabled(s, step) && (step.FileRetune? || step.ForceAwake?)
    ensures TunesOk(Do(s, max, step), max) && UntunesOk(Do(s, max, step))
  {
    var t := Do(s, max, step);
    QuietKeepsTunes(s, t, max);
    forall h | h in t.untuned ensures UntunedOk(t, h) {
      assert UntunedOk(s, h);
      StaysPending(s, t, h);
    }
    QuietKeepsUnderway(s, t);
  }

  /** The consumer wakes up, or its drain ends with an empty queue. */
  lemma KeepWakeOrRest(s: State, max: nat, step: Step)
    requires Inv(s, max) && Enabled(s, step) && (step.Wake? || step.Rest?)
    ensures TunesOk(Do(s, max, step), max) && UntunesOk(Do(s, max, step))
  {
    var t := Do(s, max, step);
    QuietKeepsTunes(s, t, max);
    forall h | h in t.untuned ensures UntunedOk(t, h) {
      assert UntunedOk(s, h);
      assert UntunePending(s, h) ==> UntunePending(t, h);
    }
    QuietKeepsUnderway(s, t);
  }

  lemma EnqueueKeepsTunes(s: State, max: nat, m: Msg)
    requires Inv(s, max) && Enabled(s, Enqueue(m))
    ensures TunesOk(Do(s, max, Enqueue(m)), max)
  {
    var t := Do(s, max, Enqueue(m));
    assert m.Tune? ==> TuneOk(s, m.req);
    forall r ensures Pending(t)[Tune(r)] == Pending(s)[Tune(r)] {
      assert m == Tune(r) ==> r.priority >= 0;
    }
    QuietKeepsTunes(s, t, max);
  }

  lemma EnqueueKeepsUntunes(s: State, max: nat, m: Msg)
    requires Inv(s, max) && Enabled(s, Enqueue(m))
    ensures UntunesOk(Do(s, max, Enqueue(m)))
  {
    var t := Do(s, max, Enqueue(m));
    forall h | h in t.untuned ensures UntunedOk(t, h) {
      assert UntunedOk(s, h);
      assert UntunePending(s, h) ==> UntunePending(t, h);
    }
    QuietKeepsUnderway(s, t);
  }

  lemma ServeTuneKeepsTunes(s: State, max: nat, m: Msg)
    requires Inv(s, max) && Enabled(s, Consume(m))
    requires m.Tune?
    ensures TunesOk(Do(s, max, Consume(m)), max)
  {
    var t := Do(s, max, Consume(m));
    assert TuneOk(s, m.req);
    if t.serving.Some? {
      QuietKeepsTunes(s, t, max);
    } else {
      assert forall l :: l in s.table ==> l !in Links(m.req);
      assert t.table == s.table - Links(m.req);
      DepartureKeepsTunes(s, t, max, m.req);
    }
  }

  lemma ServeTuneKeepsUntunes(s: State, max: nat, m: Msg)
    requires Inv(s, max) && Enabled(s, Consume(m))
    requires m.Tune?
    ensures UntunesOk(Do(s, max, Consume(m)))
  {
    var t := Do(s, max, Consume(m));
    assert TuneOk(s, m.req) && ActiveOk(s, m.req.handle);
    forall h | h in t.untuned ensures UntunedOk(t, h) {
      assert UntunedOk(s, h);
      assert UntunePending(s, h) ==> UntunePending(t, h);
      if h in t.manager.active && Overtaken(s, h) {
        assert ActiveOk(s, h);
        assert h == m.req.handle || Overtaken(t, h);
      }
    }
    QuietKeepsUnderway(s, t);
  }

  lemma ServeUntuneKeepsTunes(s: State, max: nat, m: Msg)
    requires Inv(s, max) && Enabled(s, Consume(m))
    requires m.Untune?
    ensures TunesOk(Do(s, max, Consume(m)), max)
  {
    var t := Do(s, max, Consume(m));
    assert forall r :: Pending(t)[Tune(r)] == Pending(s)[Tune(r)];
    if Priority(m) != SERVER_CLEANUP_TRIGGER_PRIORITY && Done(s, m.handle) {
      var req := s.manager.active[m.handle].req;
      assert ActiveOk(s, m.handle);
      assert Tune(req) in Pending(s) ==> TuneOk(s, req);
      DepartureKeepsTunes(s, t, max, req);
    } else {
      QuietKeepsTunes(s, t, max);
    }
  }

  lemma ServeUntuneKeepsUntunes(s: State, max: nat, m: Msg)
    requires Inv(s, max) && Enabled(s, Consume(m))
    requires m.Untune?
    ensures UntunesOk(Do(s, max, Consume(m)))
  {
    var t := Do(s, max, Consume(m));
    assert m.handle in s.manager.active ==> ActiveOk(s, m.handle);
    forall h | h in t.untuned ensures UntunedOk(t, h) {
      assert UntunedOk(s, h);
      assert h != m.handle && UntunePending(s, h) ==> UntunePending(t, h);
    }
    QuietKeepsUnderway(s, t);
  }

  lemma KeepServeOther(s: State, max: nat, m: Msg)
    requires Inv(s, max) && Enabled(s, Consume(m))
    requires m.Retune? || m.Wakeup?
    ensures TunesOk(Do(s, max, Consume(m)), max) && UntunesOk(Do(s, max, Consume(m)))
  {
    var t := Do(s, max, Consume(m));
    assert forall r :: Pending(t)[Tune(r)] == Pending(s)[Tune(r)];
    QuietKeepsTunes(s, t, max);
    forall h | h in t.untuned ensures UntunedOk(t, h) {
      assert UntunedOk(s, h);
      assert UntunePending(s, h) ==> UntunePending(t, h);
    }
    QuietKeepsUnderway(s, t);
  }

  lemma CommitKeepsTunes(s: State, max: nat, timerAllocated: bool)
    requires Inv(s, max) && Enabled(s, Commit(timerAllocated))
    ensures TunesOk(Do(s, max, Commit(timerAllocated)), max)
  {
    var t := Do(s, max, Commit(timerAllocated));
    var req := s.serving.value;
    assert Tune(req) in Pending(s) && TuneOk(s, req) && ActiveOk(s, req.handle);
    forall r | Tune(r) in Pending(t) ensures TuneOk(t, r) {
      assert TuneOk(s, r);
      assert r.handle == req.handle ==> r == req;
    }
    forall h | h in t.manager.active ensures ActiveOk(t, h) {
      assert ActiveOk(s, h);
      assert h != req.handle ==> s.manager.active[h].req != req;
    }
  }

  lemma CommitKeepsUntunes(s: State, max: nat, timerAllocated: bool)
    requires Inv(s, max) && Enabled(s, Commit(timerAllocated))
    ensures UntunesOk(Do(s, max, Commit(timerAllocated)))
  {
    var t := Do(s, max, Commit(timerAllocated));
    var req := s.serving.value;
    assert Tune(req) in Pending(s) && TuneOk(s, req) && ActiveOk(s, req.handle);
    forall h | h in t.untuned ensures UntunedOk(t, h) {
      assert UntunedOk(s, h);
      assert UntunePending(s, h) ==> UntunePending(t, h);
    }
    QuietKeepsUnderway(s, t);
  }

  lemma KeepClientStep(s: State, max: nat, step: Step)
    requires Inv(s, max) && Enabled(s, step) && (step.Track? || step.Untrack?)
    ensures TunesOk(Do(s, max, step), max) && UntunesOk(Do(s, max, step))
  {
    var t := Do(s, max, step);
    QuietKeepsTunes(s, t, max);
    forall h | h in t.untuned ensures UntunedOk(t, h) { assert UntunedOk(s, h) && (UntunePending(s, h) ==> UntunePending(t, h)); }
    QuietKeepsUnderway(s, t);
  }

  lemma StepKeepsDrainOk(s: State, max: nat, step: Step)
    requires Inv(s, max) && Enabled(s, step)
    ensures DrainOk(Do(s, max, step))
  {
    if step.Consume? && step.m.Tune? { assert TuneOk(s, step.m.req); }
  }

  lemma StepKeepsInv(s: State, max: nat, step: Step)
    requires Inv(s, max) && Enabled(s, step)
    ensures Inv(Do(s, max, step), max)
  {
    StepKeepsDrainOk(s, max, step);
    match step
    case Receive(req) => KeepReceive(s, max, req);
    case Reject(req) => KeepReject(s, max, req);
    case Admit(req) => AdmitKeepsTunes(s, max, req); AdmitKeepsUntunes(s, max, req);
    case DisableHandle(h, p) => DisableKeepsTunes(s, max, h, p); DisableKeepsUntunes(s, max, h, p);
    case DropUntune(h, p) => KeepDropUntune(s, max, h, p);
    case VerifyUntune(h, p) => VerifyUntuneKeepsTunes(s, max, h, p); VerifyUntuneKeepsUntunes(s, max, h, p);
    case FileUntune(h) => FileUntuneKeepsTunes(s, max, h); FileUntuneKeepsUntunes(s, max, h);
    case FileRetune(_, _) => KeepStaging(s, max, step);
    case ForceAwake => KeepStaging(s, max, step);
    case Enqueue(m) => EnqueueKeepsTunes(s, max, m); EnqueueKeepsUntunes(s, max, m);
    case Wake => KeepWakeOrRest(s, max, step);
    case Rest => KeepWakeOrRest(s, max, step);
    case Consume(m) =>
      match m {
        case Tune(_) => ServeTuneKeepsTunes(s, max, m); ServeTuneKeepsUntunes(s, max, m);
        case Untune(_, _) => ServeUntuneKeepsTunes(s, max, m); ServeUntuneKeepsUntunes(s, max, m);
        case _ => KeepServeOther(s, max, m);
      }
    case Commit(ok) => CommitKeepsTunes(s, max, ok); CommitKeepsUntunes(s, max, ok);
    case Track(_) => KeepClientStep(s, max, step);
    case Untrack(_) => KeepClientStep(s, max, step);
  }

  // ----- main results ----------------------------------------------------------------------------

  lemma {:induction false} FollowKeepsInv(s: State, max: nat, steps: seq<Step>)
    requires Inv(s, max) && CanFollow(s, max, steps)
    ensures Inv(Follow(s, max, steps), max)
    decreases |steps|
  {
    if steps != [] {
      StepKeepsInv(s, max, steps[0]);
      FollowKeepsInv(Do(s, max, steps[0]), max, steps[1..]);
    }
  }

  /** The lifecycle invariant holds in every reachable state. */
  lemma Lifecycle(maxCache: nat, max: nat, steps: seq<Step>)
    requires maxCache > 0 && IsRun(maxCache, max, steps)
    ensures Inv(After(maxCache, max, steps), max)
  {
    InitInv(maxCache, max);
    FollowKeepsInv(Init(maxCache), max, steps);
  }

  /** What the invariant says of one handle and of the table, spelled out. */
  lemma LifecycleOfHandle(maxCache: nat, max: nat, steps: seq<Step>, h: int)
    requires maxCache > 0 && IsRun(maxCache, max, steps)
    ensures var s := After(maxCache, max, steps);
      && |s.manager.active| <= max
      && (h in s.manager.active && !s.manager.active[h].completed ==>
            Pending(s)[Tune(s.manager.active[h].req)] == 1 && Linked(s.table, h) == {})
      && (h in s.manager.active && s.manager.active[h].completed ==>
            Pending(s)[Tune(s.manager.active[h].req)] == 0 && Linked(s.table, h) == Links(s.manager.active[h].req))
      && (h !in s.manager.active ==> Linked(s.table, h) == {} && forall req :: Tune(req) in Pending(s) ==> req.handle != h)
  {
    var s := After(maxCache, max, steps);
    Lifecycle(maxCache, max, steps);
    assert forall req :: Tune(req) in Pending(s) ==> TuneOk(s, req);
    if h in s.manager.active {
      assert ActiveOk(s, h);
      var req := s.manager.active[h].req;
      if Tune(req) in Pending(s) { assert TuneOk(s, req); }
      assert forall l :: l in Links(req) <==> l.owner == h && l.slot in req.slots;
    }
  }

  /** No message that could still act on this handle is left anywhere. */
  ghost predicate AllServed(s: State, h: int) {
    && (forall req :: Tune(req) in Pending(s) ==> req.handle != h)
    && !UntunePending(s, h)
  }

  lemma UntunedHandleIsGone(s: State, max: nat, h: int)
    requires Inv(s, max) && h in s.untuned && AllServed(s, h)
    ensures h !in s.manager.active && Linked(s.table, h) == {}
  {
    assert UntunedOk(s, h);
    assert h in s.manager.active ==> ActiveOk(s, h);
  }

  /** Cancellation: once an effective untune was filed for an active handle, then in every
      interleaving and every service order, after both messages are served the handle is
      not active and none of its nodes is in the table. */
  lemma UntunedHandleEndsInactive(maxCache: nat, max: nat, steps: seq<Step>, h: int)
    requires maxCache > 0 && IsRun(maxCache, max, steps)
    requires h in After(maxCache, max, steps).untuned && AllServed(After(maxCache, max, steps), h)
    ensures h !in After(maxCache, max, steps).manager.active
    ensures Linked(After(maxCache, max, steps).table, h) == {}
  {
    Lifecycle(maxCache, max, steps);
    UntunedHandleIsGone(After(maxCache, max, steps), max, h);
  }

  // ----- when a filed untune works, whatever happens afterwards ---------------------------------------

  /** Whatever happens from here on: once no message that could act on the handle is left,
      the handle is not active. */
  ghost predicate EndsInactive(filed: State, max: nat, h: int) {
    forall steps :: CanFollow(filed, max, steps) && AllServed(Follow(filed, max, steps), h)
      ==> h !in Follow(filed, max, steps).manager.active
  }

  lemma {:induction false} UntunedGrows(s: State, max: nat, steps: seq<Step>)
    requires CanFollow(s, max, steps)
    ensures s.untuned <= Follow(s, max, steps).untuned
    decreases |steps|
  {
    if steps != [] {
      UntunedGrows(Do(s, max, steps[0]), max, steps[1..]);
    }
  }

  /** Active, incomplete, not cancelled, not in the consumer's hands and not about to be. */
  ghost predicate Exposed(s: State, h: int) {
    h in s.manager.active && !Effective(s, h)
  }

  lemma FollowOne(s: State, max: nat, step: Step, steps: seq<Step>)
    requires Enabled(s, step) && CanFollow(Do(s, max, step), max, steps)
    ensures CanFollow(s, max, [step] + steps)
    ensures Follow(s, max, [step] + steps) == Follow(Do(s, max, step), max, steps)
  {
    assert ([step] + steps)[1..] == steps;
  }

  /** What a run does after its first step. */
  lemma FollowRest(s: State, max: nat, steps: seq<Step>) returns (next: State)
    requires steps != [] && CanFollow(s, max, steps)
    ensures Enabled(s, steps[0]) && next == Do(s, max, steps[0])
    ensures CanFollow(next, max, steps[1..]) && Follow(s, max, steps) == Follow(next, max, steps[1..])
  {
    next := Do(s, max, steps[0]);
  }

  lemma PickMinimal(q: multiset<Msg>) returns (m: Msg)
    requires q != multiset{}
    ensures Minimal(m, q)
    decreases |q|
  {
    var first :| first in q;
    var rest := q - multiset{first};
    assert q == rest + multiset{first};
    m := first;
    if rest != multiset{} {
      var other := PickMinimal(rest);
      if Priority(other) < Priority(first) {
        m := other;
      }
      forall x | x in q ensures Priority(m) <= Priority(x) {
        assert x != first ==> x in rest;
      }
    } else {
      forall x | x in q ensures x == first {}
    }
  }

  ghost function Work(s: State): nat {
    4 * |s.staged| + 3 * |s.queue| + (if s.serving.Some? then 1 else 0) + if s.draining then 1 else 0
  }

  /** A step of the losing schedule, up to where all untunes are queued and the consumer
      sleeps: it uses up work and leaves the handle exposed. */
  ghost predicate Harmless(s: State, max: nat, step: Step, h: int) {
    && Enabled(s, step)
    && Work(Do(s, max, step)) < Work(s)
    && Exposed(Do(s, max, step), h)
  }

  lemma CommitIsHarmless(s: State, max: nat, h: int)
    requires Inv(s, max) && Exposed(s, h) && s.serving.Some?
    ensures Harmless(s, max, Commit(true), h)
  {
  }

  lemma EnqueueIsHarmless(s: State, max: nat, h: int, m: Msg)
    requires Inv(s, max) && Exposed(s, h) && !s.draining && m in s.staged
    ensures Harmless(s, max, Enqueue(m), h)
  {
  }

  lemma RestIsHarmless(s: State, max: nat, h: int)
    requires Inv(s, max) && Exposed(s, h) && Enabled(s, Rest)
    ensures Harmless(s, max, Rest, h)
  {
  }

  /** The drain under way does not reach the tune: it has a stop mark to serve, or the tune
      is not queued. */
  lemma ServingOthersIsHarmless(s: State, max: nat, h: int, m: Msg)
    requires Inv(s, max) && Exposed(s, h) && Enabled(s, Consume(m))
    ensures Harmless(s, max, Consume(m), h)
  {
    ServingLeavesEntry(s, max, h, m);
    var stop :| NoStopMark(s.queue) || (stop in s.queue && Priority(stop) == SERVER_CLEANUP_TRIGGER_PRIORITY);
    if NoStopMark(s.queue) {
      assert m != Tune(s.manager.active[h].req);
    } else {
      assert Priority(m) <= Priority(stop);
    }
  }

  /** Serving a message other than its own tune leaves the entry of an incomplete request. */
  lemma ServingLeavesEntry(s: State, max: nat, h: int, m: Msg)
    requires Inv(s, max) && Enabled(s, Consume(m)) && h in s.manager.active && !s.manager.active[h].completed
    ensures Work(Do(s, max, Consume(m))) < Work(s)
    ensures Priority(m) == SERVER_CLEANUP_TRIGGER_PRIORITY || m != Tune(s.manager.active[h].req) ==>
      var t := Do(s, max, Consume(m));
      h in t.manager.active && t.manager.active[h] == s.manager.active[h] && !Serving(t, h)
  {
    assert ActiveOk(s, h);
    if m.Tune? {
      assert Tune(m.req) in Pending(s) && TuneOk(s, m.req);
    } else if m.Untune? && m.handle in s.manager.active {
      assert ActiveOk(s, m.handle);
    }
  }

  // the end of the losing schedule: everything is queued, and ties go against the tune

  /** Everything is queued, the handle's tune among it, and nothing has stopped it yet. */
  ghost predicate Queued(s: State, h: int) {
    && h in s.manager.active && !s.manager.active[h].completed && !s.manager.active[h].cancelled && !Serving(s, h)
    && s.staged == multiset{} && Tune(s.manager.active[h].req) in s.queue
  }

  ghost function WorkQueued(s: State): nat {
    3 * |s.queue| + (if s.serving.Some? then 1 else 0) + if s.draining then 0 else 1
  }

  ghost predicate Delays(s: State, max: nat, step: Step, h: int) {
    && Enabled(s, step)
    && WorkQueued(Do(s, max, step)) < WorkQueued(s)
    && Queued(Do(s, max, step), h)
  }

  lemma CommitDelays(s: State, max: nat, h: int)
    requires Inv(s, max) && Queued(s, h) && s.serving.Some?
    ensures Delays(s, max, Commit(true), h)
  {
  }

  lemma WakeDelays(s: State, max: nat, h: int)
    requires Inv(s, max) && Queued(s, h) && !s.draining
    ensures Delays(s, max, Wake, h)
  {
  }

  lemma ServingOthersDelays(s: State, max: nat, h: int, m: Msg)
    requires Inv(s, max) && Queued(s, h) && Enabled(s, Consume(m)) && m != Tune(s.manager.active[h].req)
    ensures Delays(s, max, Consume(m), h)
  {
    ServingLeavesEntry(s, max, h, m);
  }

  /** With its untunes gone from the queue, the handle ends up in the table for good. */
  lemma TuneIsServedLast(s: State, max: nat, h: int) returns (steps: seq<Step>)
    requires Inv(s, max) && Queued(s, h) && s.draining && s.serving.None?
    requires forall p :: Untune(h, p) !in s.queue
    requires Minimal(Tune(s.manager.active[h].req), s.queue)
    ensures CanFollow(s, max, steps) && AllServed(Follow(s, max, steps), h) && Done(Follow(s, max, steps), h)
  {
    var req := s.manager.active[h].req;
    assert ActiveOk(s, h) && Tune(req) in Pending(s) && TuneOk(s, req);
    var popped := Do(s, max, Consume(Tune(req)));
    var done := Do(popped, max, Commit(true));
    FollowOne(popped, max, Commit(true), []);
    FollowOne(s, max, Consume(Tune(req)), [Commit(true)] + []);
    steps := [Consume(Tune(req))] + ([Commit(true)] + []);
    forall r | Tune(r) in Pending(done) ensures r.handle != h {
      assert Tune(r) in Pending(s) && TuneOk(s, r);
    }
  }

  /** Some service order of the queue drops the handle's untunes before it serves its tune. */
  lemma {:induction false} QueuedTuneCanStay(s: State, max: nat, h: int) returns (steps: seq<Step>)
    requires Inv(s, max) && Queued(s, h)
    ensures CanFollow(s, max, steps) && AllServed(Follow(s, max, steps), h) && Done(Follow(s, max, steps), h)
    decreases WorkQueued(s)
  {
    var req := s.manager.active[h].req;
    var step;
    assert ActiveOk(s, h) && TuneOk(s, req);
    if s.serving.Some? {
      step := Commit(true);
      CommitDelays(s, max, h);
    } else if !s.draining {
      step := Wake;
      WakeDelays(s, max, h);
    } else if Minimal(Untune(h, req.priority), s.queue) {
      step := Consume(Untune(h, req.priority));
      ServingOthersDelays(s, max, h, Untune(h, req.priority));
    } else {
      var m := PickMinimal(s.queue);
      if Priority(m) == req.priority {
        assert forall p :: Untune(h, p) in s.queue ==> FiledOk(s, h, p);
        steps := TuneIsServedLast(s, max, h);
        return;
      }
      step := Consume(m);
      ServingOthersDelays(s, max, h, m);
    }
    StepKeepsInv(s, max, step);
    var rest := QueuedTuneCanStay(Do(s, max, step), max, h);
    FollowOne(s, max, step, rest);
    steps := [step] + rest;
  }

  /** From an exposed handle some schedule ends the drain, queues its untunes with its tune
      and serves them first. */
  lemma {:induction false} ExposedHandleCanStay(s: State, max: nat, h: int) returns (steps: seq<Step>)
    requires Inv(s, max) && Exposed(s, h)
    ensures CanFollow(s, max, steps) && AllServed(Follow(s, max, steps), h) && Done(Follow(s, max, steps), h)
    decreases Work(s)
  {
    var req := s.manager.active[h].req;
    var step;
    assert ActiveOk(s, h) && TuneOk(s, req);
    if s.serving.Some? {
      step := Commit(true);
      CommitIsHarmless(s, max, h);
    } else if s.draining && s.queue == multiset{} {
      step := Rest;
      RestIsHarmless(s, max, h);
    } else if s.draining {
      var m := PickMinimal(s.queue);
      step := Consume(m);
      ServingOthersIsHarmless(s, max, h, m);
    } else if s.staged != multiset{} {
      var m :| m in s.staged;
      step := Enqueue(m);
      EnqueueIsHarmless(s, max, h, m);
    } else {
      steps := QueuedTuneCanStay(s, max, h);
      return;
    }
    StepKeepsInv(s, max, step);
    var rest := ExposedHandleCanStay(Do(s, max, step), max, h);
    FollowOne(s, max, step, rest);
    steps := [step] + rest;
  }

  /** An untune filed without marking the handle works in every schedule if and only if
      the tune was complete, cancelled, or in the consumer's hands when it was filed, or the
      drain under way was bound to serve it. */
  lemma FiledUntuneWorksIff(s: State, max: nat, h: int)
    requires Inv(s, max) && h in s.manager.active
    ensures EndsInactive(Do(s, max, FileUntune(h)), max, h) <==> Effective(s, h)
  {
    var filed := Do(s, max, FileUntune(h));
    StepKeepsInv(s, max, FileUntune(h));
    if Effective(s, h) {
      forall steps | CanFollow(filed, max, steps) && AllServed(Follow(filed, max, steps), h)
        ensures h !in Follow(filed, max, steps).manager.active
      {
        FollowKeepsInv(filed, max, steps);
        UntunedGrows(filed, max, steps);
        UntunedHandleIsGone(Follow(filed, max, steps), max, h);
      }
    } else {
      var steps := ExposedHandleCanStay(filed, max, h);
      assert h in Follow(filed, max, steps).manager.active;
    }
  }

  /** The history of untunes that count has no influence on what happens. */
  lemma StepIgnoresUntuned(s: State, t: State, max: nat, step: Step)
    requires t == s.(untuned := t.untuned) && Enabled(s, step)
    ensures Enabled(t, step) && Do(t, max, step) == Do(s, max, step).(untuned := Do(t, max, step).untuned)
  {
    match step
    case Consume(m) =>
      var u, v := s.(queue := s.queue - multiset{m}), t.(queue := t.queue - multiset{m});
      assert Serve(v, m) == Serve(u, m).(untuned := t.untuned);
    case Commit(_) =>
    case VerifyUntune(_, _) =>
    case Admit(_) =>
    case _ =>
  }

  lemma {:induction false} UntunedIsHistory(s: State, t: State, max: nat, steps: seq<Step>)
    requires t == s.(untuned := t.untuned) && CanFollow(s, max, steps)
    ensures CanFollow(t, max, steps)
    ensures Follow(t, max, steps) == Follow(s, max, steps).(untuned := Follow(t, max, steps).untuned)
    decreases |steps|
  {
    if steps != [] {
      var next := FollowRest(s, max, steps);
      StepIgnoresUntuned(s, t, max, steps[0]);
      UntunedIsHistory(next, Do(t, max, steps[0]), max, steps[1..]);
      FollowOne(t, max, steps[0], steps[1..]);
      assert [steps[0]] + steps[1..] == steps;
    }
  }

  /** An active handle may be counted as untuned when it satisfies what counting promises. */
  lemma CountingKeepsInv(s: State, max: nat, h: int)
    requires Inv(s, max) && h in s.manager.active && UntunedOk(s, h)
    ensures Inv(s.(untuned := s.untuned + {h}), max)
  {
    var t := s.(untuned := s.untuned + {h});
    QuietKeepsTunes(s, t, max);
    QuietKeepsUnderway(s, t);
    forall k | k in t.untuned ensures UntunedOk(t, k) {
      assert UntunedOk(s, k) && (UntunePending(s, k) ==> UntunePending(t, k));
    }
  }

  lemma CountedEndsInactive(s: State, max: nat, h: int)
    requires Inv(s, max) && h in s.manager.active && UntunedOk(s, h)
    ensures EndsInactive(s, max, h)
  {
    var t := s.(untuned := s.untuned + {h});
    CountingKeepsInv(s, max, h);
    forall steps | CanFollow(s, max, steps) && AllServed(Follow(s, max, steps), h)
      ensures h !in Follow(s, max, steps).manager.active
    {
      UntunedIsHistory(s, t, max, steps);
      FollowKeepsInv(t, max, steps);
      UntunedGrows(t, max, steps);
      var end, counted := Follow(s, max, steps), Follow(t, max, steps);
      assert UntunePending(counted, h) ==> UntunePending(end, h);
      UntunedHandleIsGone(counted, max, h);
    }
  }

  /** A client's untune that passed the checks works in every schedule if and only if its
      priority byte is above the consumer's stop mark, or another untune of the handle is on
      its way, or the tune has not been served yet: then the mark set before cancels it. */
  lemma VerifiedUntuneWorksIff(s: State, max: nat, h: int, p: int)
    requires Inv(s, max) && Enabled(s, VerifyUntune(h, p)) && h in s.manager.active
    ensures EndsInactive(Do(s, max, VerifyUntune(h, p)), max, h) <==>
      || p > SERVER_CLEANUP_TRIGGER_PRIORITY
      || UntunePending(s, h)
      || (!s.manager.active[h].completed && !Serving(s, h))
  {
    var t := Do(s, max, VerifyUntune(h, p));
    StepKeepsInv(s, max, VerifyUntune(h, p));
    assert CheckingOk(s, h, p) && ActiveOk(s, h);
    assert Untune(h, p) in t.staged && (UntunePending(s, h) ==> UntunePending(t, h));
    if p > SERVER_CLEANUP_TRIGGER_PRIORITY || UntunePending(s, h) || (!Done(s, h) && !Serving(s, h)) {
      CountedEndsInactive(t, max, h);
    } else {
      assert !UntunePending(t, h);
      var steps := LostUntune(t, max, h);
    }
  }

  /** With its tune served, or about to be, and no untune on its way, a handle stays. */
  lemma LostUntune(t: State, max: nat, h: int) returns (steps: seq<Step>)
    requires Inv(t, max) && h in t.manager.active && !UntunePending(t, h) && (Done(t, h) || Serving(t, h))
    ensures CanFollow(t, max, steps) && AllServed(Follow(t, max, steps), h)
    ensures h in Follow(t, max, steps).manager.active
  {
    forall req | Tune(req) in Pending(t) && req.handle == h ensures !Done(t, h) { assert TuneOk(t, req); }
    if Done(t, h) {
      steps := [];
    } else {
      var done := Do(t, max, Commit(true));
      FollowOne(t, max, Commit(true), []);
      steps := [Commit(true)] + [];
      assert TuneOk(t, t.serving.value);
      forall req | Tune(req) in Pending(done) ensures req.handle != h { assert Tune(req) in Pending(t) && TuneOk(t, req); }
      assert UntunePending(done, h) ==> UntunePending(t, h);
    }
  }

  /** The rate limiter drops an untune after the handle was marked: its tune is cancelled all
      the same, unless it has been served, or is being served, and no other untune is on its way. */
  lemma DroppedUntuneWorksIff(s: State, max: nat, h: int, p: int)
    requires Inv(s, max) && Enabled(s, DropUntune(h, p)) && h in s.manager.active
    ensures EndsInactive(Do(s, max, DropUntune(h, p)), max, h) <==>
      UntunePending(s, h) || (!s.manager.active[h].completed && !Serving(s, h))
  {
    var t := Do(s, max, DropUntune(h, p));
    StepKeepsInv(s, max, DropUntune(h, p));
    assert CheckingOk(s, h, p) && ActiveOk(s, h);
    assert UntunePending(s, h) <==> UntunePending(t, h);
    if UntunePending(s, h) || (!Done(s, h) && !Serving(s, h)) {
      CountedEndsInactive(t, max, h);
    } else {
      var steps := LostUntune(t, max, h);
    }
  }

  /** The server while it deals with its first request only. */
  ghost function Early(maxCache: nat, entry: Entry, staged: multiset<Msg>, queue: multiset<Msg>, draining: bool,
                       serving: Option<Req>, table: set<Link>): State
  {
    State(2, {}, Manager(map[1 := entry], Cache(maxCache, {}, []), map[]), multiset{}, staged, queue, draining, serving, table, {})
  }

  ghost predicate Reaches(s: State, max: nat, steps: seq<Step>, t: State) {
    CanFollow(s, max, steps) && Follow(s, max, steps) == t
  }

  lemma ReachesFirst(s: State, max: nat, step: Step, next: State, steps: seq<Step>, t: State)
    requires Enabled(s, step) && Do(s, max, step) == next && Reaches(next, max, steps, t)
    ensures Reaches(s, max, [step] + steps, t)
  {
    FollowOne(s, max, step, steps);
  }

  lemma FirstTuneIsAdmitted(maxCache: nat, max: nat, req: Req, steps: seq<Step>, t: State)
    requires maxCache > 0 && max > 0 && req.handle == 1 && req.priority >= 0
    requires Reaches(Early(maxCache, Entry(req, false, false), multiset{Tune(req)}, multiset{}, false, None, {}), max, steps, t)
    ensures Reaches(Init(maxCache), max, [Receive(req)] + ([Admit(req)] + steps), t)
  {
    var received := Do(Init(maxCache), max, Receive(req));
    ReachesFirst(received, max, Admit(req),
                 Early(maxCache, Entry(req, false, false), multiset{Tune(req)}, multiset{}, false, None, {}), steps, t);
    ReachesFirst(Init(maxCache), max, Receive(req), received, [Admit(req)] + steps, t);
  }

  lemma UntuneIsQueued(maxCache: nat, max: nat, req: Req, steps: seq<Step>, t: State)
    requires maxCache > 0 && req.handle == 1 && req.priority >= 0
    requires Reaches(Early(maxCache, Entry(req, false, false), multiset{Tune(req)}, multiset{Untune(1, req.priority)}, false, None, {}), max, steps, t)
    ensures Reaches(Early(maxCache, Entry(req, false, false), multiset{Tune(req)}, multiset{}, false, None, {}), max,
                    [FileUntune(1)] + ([Enqueue(Untune(1, req.priority))] + steps), t)
  {
    var u, e := Untune(1, req.priority), Entry(req, false, false);
    var filed := Early(maxCache, e, multiset{Tune(req), u}, multiset{}, false, None, {});
    ReachesFirst(filed, max, Enqueue(u), Early(maxCache, e, multiset{Tune(req)}, multiset{u}, false, None, {}), steps, t);
    ReachesFirst(Early(maxCache, e, multiset{Tune(req)}, multiset{}, false, None, {}), max, FileUntune(1), filed, [Enqueue(u)] + steps, t);
  }

  lemma UntuneIsDropped(maxCache: nat, max: nat, req: Req, steps: seq<Step>, t: State)
    requires maxCache > 0 && req.handle == 1 && req.priority >= 0
    requires Reaches(Early(maxCache, Entry(req, false, false), multiset{Tune(req)}, multiset{}, true, None, {}), max, steps, t)
    ensures Reaches(Early(maxCache, Entry(req, false, false), multiset{Tune(req)}, multiset{Untune(1, req.priority)}, false, None, {}), max,
                    [Wake] + ([Consume(Untune(1, req.priority))] + steps), t)
  {
    var u, e := Untune(1, req.priority), Entry(req, false, false);
    var awake := Early(maxCache, e, multiset{Tune(req)}, multiset{u}, true, None, {});
    ReachesFirst(awake, max, Consume(u), Early(maxCache, e, multiset{Tune(req)}, multiset{}, true, None, {}), steps, t);
    ReachesFirst(Early(maxCache, e, multiset{Tune(req)}, multiset{u}, false, None, {}), max, Wake, awake, [Consume(u)] + steps, t);
  }

  lemma TuneIsQueued(maxCache: nat, max: nat, req: Req, steps: seq<Step>, t: State)
    requires maxCache > 0 && req.handle == 1 && req.priority >= 0
    requires Reaches(Early(maxCache, Entry(req, false, false), multiset{}, multiset{Tune(req)}, false, None, {}), max, steps, t)
    ensures Reaches(Early(maxCache, Entry(req, false, false), multiset{Tune(req)}, multiset{}, true, None, {}), max,
                    [Rest] + ([Enqueue(Tune(req))] + steps), t)
  {
    var e := Entry(req, false, false);
    var asleep := Early(maxCache, e, multiset{Tune(req)}, multiset{}, false, None, {});
    ReachesFirst(asleep, max, Enqueue(Tune(req)), Early(maxCache, e, multiset{}, multiset{Tune(req)}, false, None, {}), steps, t);
    ReachesFirst(Early(maxCache, e, multiset{Tune(req)}, multiset{}, true, None, {}), max, Rest, asleep, [Enqueue(Tune(req))] + steps, t);
  }

  lemma TuneIsCommitted(maxCache: nat, max: nat, req: Req)
    requires maxCache > 0 && req.handle == 1 && req.priority >= 0
    ensures Reaches(Early(maxCache, Entry(req, false, false), multiset{}, multiset{Tune(req)}, true, None, {}), max,
                    [Consume(Tune(req))] + ([Commit(true)] + ([Rest] + [])),
                    Early(maxCache, Entry(req, false, true), multiset{}, multiset{}, false, None, Links(req)))
  {
    var served := Early(maxCache, Entry(req, false, false), multiset{}, multiset{}, true, Some(req), {});
    var linked := Early(maxCache, Entry(req, false, true), multiset{}, multiset{}, true, None, Links(req));
    var last := Early(maxCache, Entry(req, false, true), multiset{}, multiset{}, false, None, Links(req));
    ReachesFirst(linked, max, Rest, last, [], last);
    ReachesFirst(served, max, Commit(true), linked, [Rest] + [], last);
    ReachesFirst(Early(maxCache, Entry(req, false, false), multiset{}, multiset{Tune(req)}, true, None, {}), max,
                 Consume(Tune(req)), served, [Commit(true)] + ([Rest] + []), last);
  }

  /** The loss is reachable, whatever the order among equal priorities: a tune is admitted,
      the collector files an untune for it and enqueues it first, a drain drops the untune,
      and the next one serves the tune. */
  ghost function LosingRun(req: Req): seq<Step> {
    [Receive(req)] + ([Admit(req)] + ([FileUntune(1)] + ([Enqueue(Untune(1, req.priority))] + Served(req))))
  }

  ghost function Served(req: Req): seq<Step> {
    [Wake] + ([Consume(Untune(1, req.priority))] + ([Rest] + ([Enqueue(Tune(req))] + ([Wake] +
    ([Consume(Tune(req))] + ([Commit(true)] + ([Rest] + [])))))))
  }

  lemma CollectorCanLoseItsUntune(maxCache: nat, max: nat, req: Req)
    requires maxCache > 0 && max > 0 && req.handle == 1 && req.priority >= 0
    ensures IsRun(maxCache, max, LosingRun(req))
    ensures var s := After(maxCache, max, LosingRun(req));
      && 1 in s.manager.active && s.manager.active[1].completed && AllServed(s, 1)
      && s.staged == multiset{} && s.queue == multiset{} && Linked(s.table, 1) == Links(req)
  {
    var last := Early(maxCache, Entry(req, false, true), multiset{}, multiset{}, false, None, Links(req));
    var committed := [Consume(Tune(req))] + ([Commit(true)] + ([Rest] + []));
    TuneIsCommitted(maxCache, max, req);
    ReachesFirst(Early(maxCache, Entry(req, false, false), multiset{}, multiset{Tune(req)}, false, None, {}), max, Wake,
                 Early(maxCache, Entry(req, false, false), multiset{}, multiset{Tune(req)}, true, None, {}), committed, last);
    TuneIsQueued(maxCache, max, req, [Wake] + committed, last);
    UntuneIsDropped(maxCache, max, req, [Rest] + ([Enqueue(Tune(req))] + ([Wake] + committed)), last);
    UntuneIsQueued(maxCache, max, req, Served(req), last);
    FirstTuneIsAdmitted(maxCache, max, req, [FileUntune(1)] + ([Enqueue(Untune(1, req.priority))] + Served(req)), last);
  }

  // ----- whole paths of a request -------------------------------------------------------------------------

  /** The consumer sleeps and nothing waits in the queue. */
  ghost predicate AtRest(s: State) {
    CacheOk(s.manager.cache) && !s.draining && s.serving == None && s.queue == multiset{}
  }

  /** A staged message is queued, the consumer wakes up and takes it. */
  lemma StagedIsTaken(s: State, max: nat, m: Msg, taken: State, steps: seq<Step>, t: State)
    requires AtRest(s) && m in s.staged && Priority(m) > SERVER_CLEANUP_TRIGGER_PRIORITY
    requires taken == Serve(s.(staged := s.staged - multiset{m}, draining := true), m) && Reaches(taken, max, steps, t)
    ensures Reaches(s, max, [Enqueue(m)] + ([Wake] + ([Consume(m)] + steps)), t)
  {
    var left := s.staged - multiset{m};
    var asleep := s.(staged := left, queue := multiset{m});
    var awake := asleep.(draining := true);
    assert multiset{m} - multiset{m} == s.queue;
    assert Do(awake, max, Consume(m)) == taken;
    ReachesFirst(awake, max, Consume(m), taken, steps, t);
    ReachesFirst(asleep, max, Wake, awake, [Consume(m)] + steps, t);
    ReachesFirst(s, max, Enqueue(m), asleep, [Wake] + ([Consume(m)] + steps), t);
  }

  /** Each thread's handles, with one more for thread `tid` if it is tracked. */
  ghost function Gained(clients: map<int, set<int>>, tid: int, h: int): map<int, set<int>> {
    map t | t in clients :: if t == tid then clients[t] + {h} else clients[t]
  }

  ghost function Lost(clients: map<int, set<int>>, tid: int, h: int): map<int, set<int>> {
    map t | t in clients :: if t == tid then clients[t] - {h} else clients[t]
  }

  lemma GainedIsLost(clients: map<int, set<int>>, tid: int, h: int)
    ensures Lost(Gained(clients, tid, h), tid, h) == Lost(clients, tid, h)
  {
    forall t | t in clients ensures Lost(Gained(clients, tid, h), tid, h)[t] == Lost(clients, tid, h)[t] {
      assert clients[t] + {h} - {h} == clients[t] - {h};
    }
  }

  /** Room, a new handle, no untune before it. */
  ghost predicate Welcome(s: State, max: nat, req: Req) {
    && req in s.arriving && req.priority >= 0 && |s.manager.active| < max
    && req.handle !in s.manager.active && req.handle !in s.manager.cache.handles
  }

  /** A welcome request is admitted: it becomes active, and its tune is staged exactly once. */
  lemma WelcomeIsAdmitted(s: State, max: nat, req: Req)
    requires CacheOk(s.manager.cache) && Welcome(s, max, req)
    ensures Enabled(s, Admit(req))
    ensures var t := Do(s, max, Admit(req));
      && t == s.(arriving := s.arriving - {req}, staged := s.staged + multiset{Tune(req)},
                 manager := s.manager.(active := s.manager.active[req.handle := Entry(req, false, false)],
                                       clients := Gained(s.manager.clients, req.tid, req.handle)))
      && (Inv(s, max) ==> t.staged[Tune(req)] == 1)
  {
    AcceptedIff(s.manager, max, req);
    assert Inv(s, max) && Tune(req) in Pending(s) ==> TuneOk(s, req);
    assert Do(s, max, Admit(req)).manager.clients == Gained(s.manager.clients, req.tid, req.handle);
  }

  /** Any other is refused and stages nothing. */
  lemma UnwelcomeIsRefused(s: State, max: nat, req: Req)
    requires Inv(s, max) && Enabled(s, Admit(req)) && !Welcome(s, max, req)
    ensures Do(s, max, Admit(req)) == s.(arriving := s.arriving - {req})
  {
    AcceptedIff(s.manager, max, req);
    assert ArrivingOk(s, req);
  }

  /** The whole way of a tune while the consumer has nothing else to do: it ends up complete,
      with a node in the table for each of its slots, and nothing else changes. */
  lemma WelcomeTuneGetsLinked(s: State, max: nat, req: Req)
    requires AtRest(s) && Welcome(s, max, req)
    ensures Reaches(s, max, [Admit(req)] + ([Enqueue(Tune(req))] + ([Wake] + ([Consume(Tune(req))] + ([Commit(true)] + ([Rest] + []))))),
      s.(arriving := s.arriving - {req}, table := s.table + (set k | k in req.slots :: Link(req.handle, k)),
         manager := s.manager.(active := s.manager.active[req.handle := Entry(req, false, true)],
                               clients := Gained(s.manager.clients, req.tid, req.handle))))
  {
    var admitted := Do(s, max, Admit(req));
    WelcomeIsAdmitted(s, max, req);
    var done := admitted.(staged := s.staged, table := s.table + (set k | k in req.slots :: Link(req.handle, k)),
      manager := admitted.manager.(active := s.manager.active[req.handle := Entry(req, false, true)]));
    CommitPath(admitted.(staged := s.staged), max, req, true, done);
    StagedIsTaken(admitted, max, Tune(req), admitted.(staged := s.staged, draining := true, serving := Some(req)),
                  [Commit(true)] + ([Rest] + []), done);
    ReachesFirst(s, max, Admit(req), admitted, [Enqueue(Tune(req))] + ([Wake] + ([Consume(Tune(req))] + ([Commit(true)] + ([Rest] + [])))), done);
  }

  /** Without a timer it is dropped again, and nothing of it stays. */
  lemma WelcomeTuneWithoutTimer(s: State, max: nat, req: Req)
    requires AtRest(s) && Welcome(s, max, req)
    ensures Reaches(s, max, [Admit(req)] + ([Enqueue(Tune(req))] + ([Wake] + ([Consume(Tune(req))] + ([Commit(false)] + ([Rest] + []))))),
      s.(arriving := s.arriving - {req},
         manager := s.manager.(clients := Lost(s.manager.clients, req.tid, req.handle))))
  {
    var admitted := Do(s, max, Admit(req));
    WelcomeIsAdmitted(s, max, req);
    var gone := s.(arriving := s.arriving - {req}, manager := s.manager.(clients := Lost(s.manager.clients, req.tid, req.handle)));
    assert s.manager.active[req.handle := Entry(req, false, true)] - {req.handle} == s.manager.active;
    RemovedSpelledOut(admitted.manager.(active := s.manager.active[req.handle := Entry(req, false, true)]), req);
    GainedIsLost(s.manager.clients, req.tid, req.handle);
    CommitPath(admitted.(staged := s.staged), max, req, false, gone);
    StagedIsTaken(admitted, max, Tune(req), admitted.(staged := s.staged, draining := true, serving := Some(req)),
                  [Commit(false)] + ([Rest] + []), gone);
    ReachesFirst(s, max, Admit(req), admitted, [Enqueue(Tune(req))] + ([Wake] + ([Consume(Tune(req))] + ([Commit(false)] + ([Rest] + [])))), gone);
  }

  lemma CommitPath(s: State, max: nat, req: Req, ok: bool, t: State)
    requires AtRest(s) && req.handle in s.manager.active
    requires var marked := s.manager.(active := s.manager.active[req.handle := s.manager.active[req.handle].(completed := true)]);
      t == if ok then s.(manager := marked, table := s.table + (set k | k in req.slots :: Link(req.handle, k)))
           else s.(manager := RemoveRequest(marked, req))
    ensures Reaches(s.(draining := true, serving := Some(req)), max, [Commit(ok)] + ([Rest] + []), t)
  {
    var awake := t.(draining := true);
    ReachesFirst(awake, max, Rest, t, [], t);
    ReachesFirst(s.(draining := true, serving := Some(req)), max, Commit(ok), awake, [Rest] + [], t);
  }

  /** What serving an untune does when its request is complete: the entry, the handle in its
      thread's set and all nodes go. */
  ghost function Removed(s: State, h: int): State
    requires h in s.manager.active
  {
    var tid := s.manager.active[h].req.tid;
    s.(table := (set l | l in s.table && l.owner != h),
       manager := s.manager.(active := s.manager.active - {h}, clients := Lost(s.manager.clients, tid, h)))
  }

  lemma ServedUntuneRemoves(s: State, max: nat, h: int, p: int)
    requires AtRest(s) && Untune(h, p) in s.staged && p > SERVER_CLEANUP_TRIGGER_PRIORITY
    requires Done(s, h) && s.manager.active[h].req.handle == h
    requires forall l :: l in s.table && l.owner == h ==> l.slot in s.manager.active[h].req.slots
    ensures Reaches(s, max, [Enqueue(Untune(h, p))] + ([Wake] + ([Consume(Untune(h, p))] + ([Rest] + []))),
                    Removed(s, h).(staged := s.staged - multiset{Untune(h, p)}))
  {
    var req := s.manager.active[h].req;
    var t := Removed(s, h).(staged := s.staged - multiset{Untune(h, p)});
    RemovedSpelledOut(s.manager, req);
    forall l ensures l in s.table - Links(req) <==> l in s.table && l.owner != h {
      assert l in Links(req) <==> l.owner == h && l.slot in req.slots;
    }
    assert t.table == s.table - Links(req);
    ReachesFirst(t.(draining := true), max, Rest, t, [], t);
    StagedIsTaken(s, max, Untune(h, p), t.(draining := true), [Rest] + [], t);
  }

  /** The whole way of a client's untune for a complete request, while the consumer has nothing
      else to do: the request is gone, and nothing else changes (but the history). */
  lemma UntunedRequestIsGone(s: State, max: nat, h: int, p: int)
    requires Inv(s, max) && AtRest(s) && Done(s, h) && p > SERVER_CLEANUP_TRIGGER_PRIORITY
    ensures Reaches(s, max,
      [DisableHandle(h, p)] + ([VerifyUntune(h, p)] + ([Enqueue(Untune(h, p))] + ([Wake] + ([Consume(Untune(h, p))] + ([Rest] + []))))),
      Removed(s, h).(untuned := s.untuned + {h}))
  {
    var e := s.manager.active[h];
    assert ActiveOk(s, h);
    var cancelled := s.(manager := s.manager.(active := s.manager.active[h := e.(cancelled := true)]));
    var checking := cancelled.(checking := s.checking + multiset{(h, p)});
    var staged := cancelled.(staged := s.staged + multiset{Untune(h, p)}, untuned := s.untuned + {h});
    var t := Removed(s, h).(untuned := s.untuned + {h});
    assert cancelled.manager.active - {h} == s.manager.active - {h};
    ServedUntuneRemoves(staged, max, h, p);
    ReachesFirst(checking, max, VerifyUntune(h, p), staged, [Enqueue(Untune(h, p))] + ([Wake] + ([Consume(Untune(h, p))] + ([Rest] + []))), t);
    ReachesFirst(s, max, DisableHandle(h, p), checking,
                 [VerifyUntune(h, p)] + ([Enqueue(Untune(h, p))] + ([Wake] + ([Consume(Untune(h, p))] + ([Rest] + [])))), t);
  }

  /** The same for a request that expires or is collected: its untune carries its own level. */
  lemma ExpiredRequestIsGone(s: State, max: nat, h: int)
    requires Inv(s, max) && AtRest(s) && Done(s, h)
    ensures var u := Untune(h, s.manager.active[h].req.priority);
      Reaches(s, max, [FileUntune(h)] + ([Enqueue(u)] + ([Wake] + ([Consume(u)] + ([Rest] + [])))), Removed(s, h).(untuned := s.untuned + {h}))
  {
    var u := Untune(h, s.manager.active[h].req.priority);
    assert ActiveOk(s, h);
    var filed := s.(staged := s.staged + multiset{u}, untuned := s.untuned + {h});
    ServedUntuneRemoves(filed, max, h, u.priority);
    ReachesFirst(s, max, FileUntune(h), filed, [Enqueue(u)] + ([Wake] + ([Consume(u)] + ([Rest] + []))), Removed(s, h).(untuned := s.untuned + {h}));
  }

  /** An untune in front of its tune is dropped without effect when it is served. */
  lemma EarlyServedUntuneIsDropped(s: State, max: nat, h: int, p: int)
    requires AtRest(s) && Untune(h, p) in s.staged && p > SERVER_CLEANUP_TRIGGER_PRIORITY && !Done(s, h)
    ensures Reaches(s, max, [Enqueue(Untune(h, p))] + ([Wake] + ([Consume(Untune(h, p))] + ([Rest] + []))),
                    s.(staged := s.staged - multiset{Untune(h, p)}))
  {
    var t := s.(staged := s.staged - multiset{Untune(h, p)});
    ReachesFirst(t.(draining := true), max, Rest, t, [], t);
    StagedIsTaken(s, max, Untune(h, p), t.(draining := true), [Rest] + [], t);
  }

  /** A retune is filed and served without a trace in manager and table. */
  lemma RetuneLeavesNoTrace(s: State, max: nat, h: int, p: int)
    requires AtRest(s) && h in s.manager.active && p > SERVER_CLEANUP_TRIGGER_PRIORITY
    ensures Reaches(s, max, [FileRetune(h, p)] + ([Enqueue(Retune(h, p))] + ([Wake] + ([Consume(Retune(h, p))] + ([Rest] + [])))), s)
  {
    var filed := s.(staged := s.staged + multiset{Retune(h, p)});
    ReachesFirst(s.(draining := true), max, Rest, s, [], s);
    StagedIsTaken(filed, max, Retune(h, p), s.(draining := true), [Rest] + [], s);
    ReachesFirst(s, max, FileRetune(h, p), filed, [Enqueue(Retune(h, p))] + ([Wake] + ([Consume(Retune(h, p))] + ([Rest] + []))), s);
  }

  /** A tune whose handle was marked before it is served leaves the server again. */
  lemma CancelledTuneIsDropped(s: State, max: nat, req: Req)
    requires AtRest(s) && Tune(req) in s.staged && req.priority >= 0
    requires req.handle in s.manager.active && s.manager.active[req.handle].cancelled
    ensures Reaches(s, max, [Enqueue(Tune(req))] + ([Wake] + ([Consume(Tune(req))] + ([Rest] + []))),
      s.(staged := s.staged - multiset{Tune(req)},
         manager := s.manager.(active := s.manager.active - {req.handle}, clients := Lost(s.manager.clients, req.tid, req.handle))))
  {
    RemovedSpelledOut(s.manager, req);
    var t := s.(staged := s.staged - multiset{Tune(req)},
      manager := s.manager.(active := s.manager.active - {req.handle}, clients := Lost(s.manager.clients, req.tid, req.handle)));
    ReachesFirst(t.(draining := true), max, Rest, t, [], t);
    StagedIsTaken(s, max, Tune(req), t.(draining := true), [Rest] + [], t);
  }

  lemma RemovedSpelledOut(m: Manager, req: Req)
    ensures RemoveRequest(m, req) == m.(active := m.active - {req.handle}, clients := Lost(m.clients, req.tid, req.handle))
  {
    assert DeleteHandle(m.clients, req.tid, req.handle) == Lost(m.clients, req.tid, req.handle);
  }

  /** Arrivals: a received tune waits under the next handle, and a rejected one is forgotten;
      a stop mark ends a drain at once. */
  lemma ArrivalsSpelledOut(s: State, max: nat, req: Req)
    requires CacheOk(s.manager.cache) && req.handle == s.next
    ensures Enabled(s, Receive(req)) && Do(s, max, Receive(req)) == s.(next := s.next + 1, arriving := s.arriving + {req})
    ensures var t := Do(s, max, Receive(req));
      Enabled(t, Reject(req)) && Do(t, max, Reject(req)) == t.(arriving := t.arriving - {req})
  {
  }

  /** Steps that are always possible: disabling a handle marks or caches it, a forced wake-up is
      staged, a thread is tracked with no handles. */
  lemma FreeStepsSpelledOut(s: State, max: nat, h: int, p: int, tid: int)
    requires CacheOk(s.manager.cache)
    ensures Enabled(s, DisableHandle(h, p)) && Enabled(s, ForceAwake) && Enabled(s, Track(tid))
    ensures var t := Do(s, max, DisableHandle(h, p));
      if h in s.manager.active
      then t == s.(checking := s.checking + multiset{(h, p)},
                   manager := s.manager.(active := s.manager.active[h := s.manager.active[h].(cancelled := true)]))
      else t == s.(manager := s.manager.(cache := CacheInsert(s.manager.cache, h)))
    ensures Do(s, max, ForceAwake) == s.(staged := s.staged + multiset{Wakeup})
    ensures Do(s, max, Track(tid)) == s.(manager := s.manager.(clients := s.manager.clients[tid := {}]))
  {
    OperationsSpelledOut(s.manager, Req(0, 0, 0, {}), h);
  }

  /** An untune under check is dropped or passes, and a tracked thread is forgotten; a handle
      that is not active any more lets its untune vanish. */
  lemma BoundStepsSpelledOut(s: State, max: nat, h: int, p: int, tid: int)
    requires CacheOk(s.manager.cache)
    ensures Enabled(s, DropUntune(h, p)) <==> (h, p) in s.checking
    ensures Enabled(s, VerifyUntune(h, p)) <==> (h, p) in s.checking
    ensures (h, p) in s.checking ==> Do(s, max, DropUntune(h, p)) == s.(checking := s.checking - multiset{(h, p)})
    ensures (h, p) in s.checking && h !in s.manager.active ==> Do(s, max, VerifyUntune(h, p)) == Do(s, max, DropUntune(h, p))
    ensures Enabled(s, Untrack(tid)) <==> tid in s.manager.clients
    ensures tid in s.manager.clients ==> Do(s, max, Untrack(tid)) == s.(manager := s.manager.(clients := s.manager.clients - {tid}))
  {
  }

  lemma StopMarkEndsTheDrain(s: State, max: nat, m: Msg)
    requires Inv(s, max) && s.draining && s.serving.None? && m in s.queue && StopMark(m)
    ensures Enabled(s, Consume(m))
    ensures Do(s, max, Consume(m)) == s.(queue := s.queue - multiset{m}, draining := false)
  {
    SmallerLevelGoesFirst(m, m);
  }

  // ----- what steps leave alone ---------------------------------------------------------------------------

  /** The step takes the nodes of a complete request out of the table. */
  ghost predicate RemovesNodes(s: State, step: Step) {
    step.Consume? && step.m.Untune? && Priority(step.m) != SERVER_CLEANUP_TRIGGER_PRIORITY && Done(s, step.m.handle)
  }

  /** Requests become active by admission only. */
  lemma StepKeepsEntries(s: State, max: nat, step: Step)
    requires Enabled(s, step)
    ensures var t := Do(s, max, step);
      forall h :: h in t.manager.active ==>
        (h in s.manager.active && t.manager.active[h].req == s.manager.active[h].req)
        || (step.Admit? && t.manager.active[h].req == step.req)
  {
    match step
    case Consume(m) => ServeKeepsEntries(s, max, m);
    case _ =>
  }

  lemma ServeKeepsEntries(s: State, max: nat, m: Msg)
    requires Enabled(s, Consume(m))
    ensures var t := Do(s, max, Consume(m));
      forall h :: h in t.manager.active ==> h in s.manager.active && t.manager.active[h] == s.manager.active[h]
  {
  }

  /** And arrive by reception only. */
  lemma StepKeepsArrivals(s: State, max: nat, step: Step)
    requires Enabled(s, step)
    ensures forall r :: r in Do(s, max, step).arriving ==> r in s.arriving || (step.Receive? && r == step.req)
  {
  }

  ghost predicate LinkedKept(s: State, t: State) {
    t.table == s.table && forall h :: Done(s, h) ==> h in t.manager.active && t.manager.active[h].req == s.manager.active[h].req
  }

  lemma AdmitKeepsLinked(s: State, max: nat, req: Req)
    requires Inv(s, max) && Enabled(s, Admit(req))
    ensures LinkedKept(s, Do(s, max, Admit(req)))
  {
    assert ArrivingOk(s, req);
  }

  lemma ServeKeepsLinked(s: State, max: nat, m: Msg)
    requires Inv(s, max) && Enabled(s, Consume(m)) && !RemovesNodes(s, Consume(m))
    ensures LinkedKept(s, Do(s, max, Consume(m)))
  {
    if m.Tune? { assert Tune(m.req) in Pending(s) && TuneOk(s, m.req); }
  }

  lemma FailedCommitKeepsLinked(s: State, max: nat)
    requires Inv(s, max) && Enabled(s, Commit(false))
    ensures LinkedKept(s, Do(s, max, Commit(false)))
  {
    assert Tune(s.serving.value) in Pending(s) && TuneOk(s, s.serving.value);
  }

  /** Only a commit and a removal change the table; every complete request stays active
      through all other steps. */
  lemma QuietKeepsLinked(s: State, max: nat, step: Step)
    requires Inv(s, max) && Enabled(s, step) && step != Commit(true) && !RemovesNodes(s, step)
    ensures LinkedKept(s, Do(s, max, step))
  {
    if step.Admit? {
      AdmitKeepsLinked(s, max, step.req);
    } else if step.Consume? {
      ServeKeepsLinked(s, max, step.m);
    } else if step.Commit? {
      FailedCommitKeepsLinked(s, max);
    }
  }

  // ----- an untune that came before its tune ----------------------------------------------------------

  /** The handle of the arriving tune is cached for as long as the tune has not been admitted
      or rejected. */
  ghost predicate CachedWhileArriving(s: State, max: nat, steps: seq<Step>, req: Req)
    requires CanFollow(s, max, steps)
    decreases |steps|
  {
    && (req in s.arriving ==> req.handle in s.manager.cache.handles)
    && (steps == [] || CachedWhileArriving(Do(s, max, steps[0]), max, steps[1..], req))
  }

  /** The handle is not active and only `req`, if anything, can still bring it in. */
  ghost predicate Outside(s: State, req: Req) {
    && req.handle !in s.manager.active && req.handle < s.next
    && forall r :: r in s.arriving && r.handle == req.handle ==> r == req
  }

  lemma StepKeepsOutside(s: State, max: nat, step: Step, req: Req)
    requires Inv(s, max) && Enabled(s, step) && Outside(s, req)
    requires req in s.arriving ==> req.handle in s.manager.cache.handles
    ensures Outside(Do(s, max, step), req)
  {
  }

  /** A tune whose untune came first, and whose handle is still cached when it is admitted,
      never becomes active and is never linked, whatever else happens. */
  lemma {:induction false} LateTuneIsNeverLinked(s: State, max: nat, steps: seq<Step>, req: Req)
    requires Inv(s, max) && Outside(s, req) && CanFollow(s, max, steps) && CachedWhileArriving(s, max, steps, req)
    ensures req.handle !in Follow(s, max, steps).manager.active
    ensures Linked(Follow(s, max, steps).table, req.handle) == {}
    decreases |steps|
  {
    if steps != [] {
      StepKeepsInv(s, max, steps[0]);
      StepKeepsOutside(s, max, steps[0], req);
      LateTuneIsNeverLinked(Do(s, max, steps[0]), max, steps[1..], req);
    }
  }

  /** Disabling a handle that is not active yet is what puts its tune there. */
  lemma EarlyUntuneIsCached(s: State, max: nat, req: Req, p: int)
    requires Inv(s, max) && req in s.arriving
    ensures var t := Do(s, max, DisableHandle(req.handle, p));
      Outside(t, req) && req in t.arriving && req.handle in t.manager.cache.handles
  {
    assert ArrivingOk(s, req);
  }

  // ----- the per-thread index ------------------------------------------------------------------------

  lemma StepKeepsIndex(s: State, max: nat, step: Step, tid: int)
    requires Inv(s, max) && Enabled(s, step) && Indexed(s.manager, tid)
    requires step != Track(tid) && step != Untrack(tid)
    ensures Indexed(Do(s, max, step).manager, tid)
  {
    match step
    case Admit(req) =>
      assert ArrivingOk(s, req);
      OperationsKeepIndex(s.manager, tid, max, req, 0);
    case DisableHandle(h, _) =>
      OperationsKeepIndex(s.manager, tid, max, Req(0, 0, 0, {}), h);
    case Consume(m) =>
      if m.Tune? {
        assert Tune(m.req) in Pending(s) && TuneOk(s, m.req);
        OperationsKeepIndex(s.manager, tid, max, m.req, 0);
      } else if m.Untune? && m.handle in s.manager.active {
        assert ActiveOk(s, m.handle);
        OperationsKeepIndex(s.manager, tid, max, s.manager.active[m.handle].req, 0);
      }
    case Commit(_) =>
      var req := s.serving.value;
      assert Tune(req) in Pending(s) && TuneOk(s, req);
      OperationsKeepIndex(s.manager, tid, max, req, req.handle);
      OperationsKeepIndex(MarkComplete(s.manager, req.handle), tid, max, req, 0);
    case _ =>
  }

  /** Index agreement: from any reachable state on, while a thread stays tracked, its
      handle set is exactly the set of active handles whose request has that thread id. */
  lemma {:induction false} IndexAgrees(s: State, max: nat, steps: seq<Step>, tid: int)
    requires Inv(s, max) && CanFollow(s, max, steps) && Indexed(s.manager, tid)
    requires forall j :: 0 <= j < |steps| ==> steps[j] != Track(tid) && steps[j] != Untrack(tid)
    ensures Indexed(Follow(s, max, steps).manager, tid)
    decreases |steps|
  {
    if steps != [] {
      StepKeepsInv(s, max, steps[0]);
      StepKeepsIndex(s, max, steps[0], tid);
      IndexAgrees(Do(s, max, steps[0]), max, steps[1..], tid);
    }
  }

  /** Tracking a thread starts out in agreement exactly when it has no active request. */
  lemma TrackAgreesIff(s: State, max: nat, tid: int)
    requires Enabled(s, Track(tid))
    ensures Indexed(Do(s, max, Track(tid)).manager, tid) <==> forall h :: h in s.manager.active ==> s.manager.active[h].req.tid != tid
  {
  }
}
