/** The request protocol and the arbitration of one resource, together.

    Seen from one resource, a run of the server is a run of insertions and removals: a
    served tune inserts its nodes on that resource in the order of the request, and a served
    untune removes them. What is live in that run are exactly the nodes of the active,
    complete requests, so the arbitration theorems speak about the server. */
module ServerRuns {
  import opened PolicyOrder
  import opened Wrappers
  import A = Arbitration
  import P = Protocol
  import RequestManagement

  type Link = P.Link
  type Req = RequestManagement.Req

  /** One resource: its configuration, which nodes are on it and at which instance, in which
      order a request lists its resources, and the value a node asks for. */
  datatype Target = Target(cfg: A.Config, at: Link -> Option<nat>, order: Req -> seq<nat>, key: Link -> int)

  ghost predicate OnTarget(x: Target, l: Link) {
    x.at(l).Some?
  }

  /** What the verification and the decoder leave: a priority level, resources listed once
      each, and nodes at instances there are. */
  ghost predicate WellFormed(x: Target, req: Req) {
    && 0 <= req.priority < A.TOTAL_PRIORITIES
    && Distinct(x.order(req)) && (forall k :: k in x.order(req) <==> k in req.slots)
    && forall k :: k in req.slots && OnTarget(x, P.Link(req.handle, k)) ==> x.at(P.Link(req.handle, k)).value < x.cfg.instances
  }

  // ----- what a run of insertions and removals leaves -----------------------------------

  /** The live nodes of the run are those of `t`, each at its instance and priority. */
  ghost predicate Leaves(x: Target, ops: seq<A.Op<Link>>, t: map<Link, nat>) {
    && A.IsRun(x.cfg, x.key, ops)
    && (forall l :: l in t ==> OnTarget(x, l))
    && forall l, i: nat, p: nat {:trigger LiveRight(x, ops, t, l, i, p)} :: A.Fits(x.cfg, i, p) ==> LiveRight(x, ops, t, l, i, p)
  }

  ghost predicate LiveRight(x: Target, ops: seq<A.Op<Link>>, t: map<Link, nat>, l: Link, i: nat, p: nat) {
    l in A.Live(ops, i, p) <==> l in t && x.at(l) == Some(i) && t[l] == p
  }

  lemma ListedIffLive(x: Target, ops: seq<A.Op<Link>>, i: nat, p: nat, l: Link)
    requires A.IsRun(x.cfg, x.key, ops) && A.Fits(x.cfg, i, p)
    ensures l in A.After(x.cfg, x.key, ops).lists[A.Slot(i, p)] <==> l in A.Live(ops, i, p)
  {
    A.ListsAreArranged(x.cfg, x.key, ops, i, p);
    ArrangeMembers(x.cfg.policy, x.key, A.Live(ops, i, p), l);
  }

  lemma LiveSnoc(ops: seq<A.Op<Link>>, op: A.Op<Link>, i: nat, p: nat)
    ensures A.Live(ops + [op], i, p) ==
      if op.instance != i || op.priority != p then A.Live(ops, i, p)
      else if op.Insert? then A.Live(ops, i, p) + [op.node]
      else Without(A.Live(ops, i, p), op.node)
  {
    assert (ops + [op])[..|ops|] == ops;
  }

  lemma InsertLeaves(x: Target, ops: seq<A.Op<Link>>, t: map<Link, nat>, l: Link, p: nat)
    requires Leaves(x, ops, t) && l !in t && OnTarget(x, l) && A.Fits(x.cfg, x.at(l).value, p)
    ensures Leaves(x, ops + [A.Insert(x.at(l).value, p, l)], t[l := p])
  {
    var i, op := x.at(l).value, A.Insert(x.at(l).value, p, l);
    var row := A.After(x.cfg, x.key, ops);
    forall s | 0 <= s < |row.lists| ensures l !in row.lists[s] {
      assert s == A.Slot(s / A.TOTAL_PRIORITIES, s % A.TOTAL_PRIORITIES);
      ListedIffLive(x, ops, s / A.TOTAL_PRIORITIES, s % A.TOTAL_PRIORITIES, l);
      assert LiveRight(x, ops, t, l, s / A.TOTAL_PRIORITIES, s % A.TOTAL_PRIORITIES);
    }
    A.RunSnoc(x.cfg, x.key, ops, op);
    var longer, extended := ops + [op], t[l := p];
    forall m, j: nat, q: nat | A.Fits(x.cfg, j, q)
      ensures LiveRight(x, longer, extended, m, j, q)
    {
      LiveSnoc(ops, op, j, q);
      assert LiveRight(x, ops, t, m, j, q);
    }
  }

  lemma RemoveLeaves(x: Target, ops: seq<A.Op<Link>>, t: map<Link, nat>, l: Link)
    requires Leaves(x, ops, t) && l in t && A.Fits(x.cfg, x.at(l).value, t[l])
    ensures Leaves(x, ops + [A.Remove(x.at(l).value, t[l], l)], t - {l})
  {
    var i, p, op := x.at(l).value, t[l], A.Remove(x.at(l).value, t[l], l);
    ListedIffLive(x, ops, i, p, l);
    assert LiveRight(x, ops, t, l, i, p);
    A.RunSnoc(x.cfg, x.key, ops, op);
    var longer, left := ops + [op], t - {l};
    forall m, j: nat, q: nat | A.Fits(x.cfg, j, q)
      ensures LiveRight(x, longer, left, m, j, q)
    {
      LiveSnoc(ops, op, j, q);
      assert LiveRight(x, ops, t, m, j, q);
      A.ListsAreArranged(x.cfg, x.key, ops, j, q);
      A.WithoutMembers(A.Live(ops, j, q), l, m);
    }
  }

  // ----- one request ---------------------------------------------------------------------

  /** What the first `n` resources of a request add to the run when it is served. */
  ghost function Inserts(x: Target, req: Req, n: nat): seq<A.Op<Link>>
    requires n <= |x.order(req)| && 0 <= req.priority
  {
    if n == 0 then []
    else
      var l := P.Link(req.handle, x.order(req)[n - 1]);
      Inserts(x, req, n - 1) + if OnTarget(x, l) then [A.Insert(x.at(l).value, req.priority, l)] else []
  }

  ghost function Removes(x: Target, req: Req, n: nat): seq<A.Op<Link>>
    requires n <= |x.order(req)| && 0 <= req.priority
  {
    if n == 0 then []
    else
      var l := P.Link(req.handle, x.order(req)[n - 1]);
      Removes(x, req, n - 1) + if OnTarget(x, l) then [A.Remove(x.at(l).value, req.priority, l)] else []
  }

  /** The nodes come in the order in which the request lists its resources, each once, at the
      level of the request; and they leave in the same order. */
  lemma {:induction false} NodesComeInOrder(x: Target, req: Req, n: nat)
    requires n <= |x.order(req)| && 0 <= req.priority
    requires forall k :: 0 <= k < |x.order(req)| ==> x.at(P.Link(req.handle, x.order(req)[k])).Some?
    ensures |Inserts(x, req, n)| == |Removes(x, req, n)| == n
    ensures forall k :: 0 <= k < n ==>
      var l := P.Link(req.handle, x.order(req)[k]);
      Inserts(x, req, n)[k] == A.Insert(x.at(l).value, req.priority, l) && Removes(x, req, n)[k] == A.Remove(x.at(l).value, req.priority, l)
  {
    if n > 0 { NodesComeInOrder(x, req, n - 1); }
  }

  /** The request's first `n` nodes on the resource. */
  ghost function NodesOf(x: Target, req: Req, n: nat): set<Link>
    requires n <= |x.order(req)|
  {
    set k | 0 <= k < n && OnTarget(x, P.Link(req.handle, x.order(req)[k])) :: P.Link(req.handle, x.order(req)[k])
  }

  ghost function With(t: map<Link, nat>, nodes: set<Link>, p: nat): map<Link, nat> {
    map l | l in t.Keys + nodes :: if l in nodes then p else t[l]
  }

  lemma WithNone(t: map<Link, nat>, p: nat)
    ensures With(t, {}, p) == t
  {
  }

  lemma WithOne(t: map<Link, nat>, nodes: set<Link>, l: Link, p: nat)
    ensures With(t, nodes + {l}, p) == With(t, nodes, p)[l := p]
    ensures l in With(t, nodes, p) <==> l in t || l in nodes
  {
  }

  lemma NodesOfStep(x: Target, req: Req, n: nat)
    requires n < |x.order(req)| && Distinct(x.order(req))
    ensures var l := P.Link(req.handle, x.order(req)[n]);
      && NodesOf(x, req, n + 1) == (if OnTarget(x, l) then NodesOf(x, req, n) + {l} else NodesOf(x, req, n))
      && l !in NodesOf(x, req, n)
  {
  }

  lemma InsertsLeaveStep(x: Target, ops: seq<A.Op<Link>>, t: map<Link, nat>, req: Req, n: nat)
    requires WellFormed(x, req) && 0 < n <= |x.order(req)| && (forall l :: l in t ==> l.owner != req.handle)
    requires Leaves(x, ops + Inserts(x, req, n - 1), With(t, NodesOf(x, req, n - 1), req.priority))
    ensures Leaves(x, ops + Inserts(x, req, n), With(t, NodesOf(x, req, n), req.priority))
  {
    var l := P.Link(req.handle, x.order(req)[n - 1]);
    var before := With(t, NodesOf(x, req, n - 1), req.priority);
    NodesOfStep(x, req, n - 1);
    WithOne(t, NodesOf(x, req, n - 1), l, req.priority);
    if OnTarget(x, l) {
      assert x.order(req)[n - 1] in req.slots;
      InsertLeaves(x, ops + Inserts(x, req, n - 1), before, l, req.priority);
      assert ops + Inserts(x, req, n) == ops + Inserts(x, req, n - 1) + [A.Insert(x.at(l).value, req.priority, l)];
    } else {
      assert Inserts(x, req, n) == Inserts(x, req, n - 1);
    }
  }

  lemma {:induction false} InsertsLeave(x: Target, ops: seq<A.Op<Link>>, t: map<Link, nat>, req: Req, n: nat)
    requires WellFormed(x, req) && n <= |x.order(req)| && Leaves(x, ops, t)
    requires forall l :: l in t ==> l.owner != req.handle
    ensures Leaves(x, ops + Inserts(x, req, n), With(t, NodesOf(x, req, n), req.priority))
  {
    if n == 0 {
      assert ops + Inserts(x, req, 0) == ops && NodesOf(x, req, 0) == {};
      WithNone(t, req.priority);
    } else {
      InsertsLeave(x, ops, t, req, n - 1);
      InsertsLeaveStep(x, ops, t, req, n);
    }
  }

  lemma RemovesLeaveStep(x: Target, ops: seq<A.Op<Link>>, t: map<Link, nat>, req: Req, n: nat)
    requires WellFormed(x, req) && 0 < n <= |x.order(req)|
    requires forall l :: l in NodesOf(x, req, |x.order(req)|) ==> l in t && t[l] == req.priority
    requires Leaves(x, ops + Removes(x, req, n - 1), t - NodesOf(x, req, n - 1))
    ensures Leaves(x, ops + Removes(x, req, n), t - NodesOf(x, req, n))
  {
    var l := P.Link(req.handle, x.order(req)[n - 1]);
    var before := t - NodesOf(x, req, n - 1);
    NodesOfStep(x, req, n - 1);
    if OnTarget(x, l) {
      assert l in NodesOf(x, req, |x.order(req)|) && x.order(req)[n - 1] in req.slots;
      RemoveLeaves(x, ops + Removes(x, req, n - 1), before, l);
      assert t - NodesOf(x, req, n) == before - {l};
      assert ops + Removes(x, req, n) == ops + Removes(x, req, n - 1) + [A.Remove(x.at(l).value, req.priority, l)];
    } else {
      assert Removes(x, req, n) == Removes(x, req, n - 1);
    }
  }

  lemma {:induction false} RemovesLeave(x: Target, ops: seq<A.Op<Link>>, t: map<Link, nat>, req: Req, n: nat)
    requires WellFormed(x, req) && n <= |x.order(req)| && Leaves(x, ops, t)
    requires forall l :: l in NodesOf(x, req, |x.order(req)|) ==> l in t && t[l] == req.priority
    ensures Leaves(x, ops + Removes(x, req, n), t - NodesOf(x, req, n))
  {
    if n == 0 {
      assert ops + [] == ops && t - NodesOf(x, req, 0) == t;
    } else {
      RemovesLeave(x, ops, t, req, n - 1);
      RemovesLeaveStep(x, ops, t, req, n);
    }
  }

  // ----- the server, seen from one resource ----------------------------------------------

  ghost predicate RequestsOk(x: Target, s: P.State) {
    && (forall h :: h in s.manager.active ==> WellFormed(x, s.manager.active[h].req))
    && (forall r :: r in s.arriving ==> WellFormed(x, r))
  }

  /** The priority a linked node was inserted with. */
  ghost function Level(s: P.State, l: Link): nat {
    if l.owner in s.manager.active && s.manager.active[l.owner].req.priority >= 0
    then s.manager.active[l.owner].req.priority else 0
  }

  /** The nodes on the resource that are in the table. */
  ghost function Held(x: Target, s: P.State): map<Link, nat> {
    map l | l in s.table && OnTarget(x, l) :: Level(s, l)
  }

  /** What a step of the server does to the resource. */
  ghost function StepOps(x: Target, s: P.State, step: P.Step): seq<A.Op<Link>> {
    match step
    case Commit(timerAllocated) =>
      if timerAllocated && s.serving.Some? && s.serving.value.priority >= 0
      then Inserts(x, s.serving.value, |x.order(s.serving.value)|) else []
    case Consume(m) =>
      if m.Untune? && P.Priority(m) != P.SERVER_CLEANUP_TRIGGER_PRIORITY && P.Done(s, m.handle)
         && s.manager.active[m.handle].req.priority >= 0
      then Removes(x, s.manager.active[m.handle].req, |x.order(s.manager.active[m.handle].req)|) else []
    case _ => []
  }

  lemma NodesOfAll(x: Target, req: Req, l: Link)
    requires WellFormed(x, req)
    ensures l in NodesOf(x, req, |x.order(req)|) <==> l in P.Links(req) && OnTarget(x, l)
  {
    if l in P.Links(req) && OnTarget(x, l) {
      assert l.slot in x.order(req);
      var k :| 0 <= k < |x.order(req)| && x.order(req)[k] == l.slot;
      assert l == P.Link(req.handle, x.order(req)[k]);
    }
  }

  lemma CommitHolds(x: Target, s: P.State, max: nat)
    requires P.Inv(s, max) && P.Enabled(s, P.Commit(true)) && WellFormed(x, s.serving.value)
    ensures var req := s.serving.value;
      && (forall l :: l in s.table ==> l.owner != req.handle)
      && Held(x, P.Do(s, max, P.Commit(true))) == With(Held(x, s), NodesOf(x, req, |x.order(req)|), req.priority)
  {
    var req, t := s.serving.value, P.Do(s, max, P.Commit(true));
    var nodes := NodesOf(x, req, |x.order(req)|);
    assert P.Tune(req) in P.Pending(s) && P.TuneOk(s, req);
    assert forall l :: l in s.table ==> P.Done(s, l.owner);
    forall l ensures l in nodes <==> l in P.Links(req) && OnTarget(x, l) { NodesOfAll(x, req, l); }
    var held, with := Held(x, t), With(Held(x, s), nodes, req.priority);
    assert held.Keys == with.Keys;
    forall l | l in held ensures held[l] == with[l] {}
  }

  lemma CommitLeaves(x: Target, s: P.State, max: nat, ops: seq<A.Op<Link>>)
    requires P.Inv(s, max) && P.Enabled(s, P.Commit(true)) && RequestsOk(x, s) && Leaves(x, ops, Held(x, s))
    ensures Leaves(x, ops + StepOps(x, s, P.Commit(true)), Held(x, P.Do(s, max, P.Commit(true))))
  {
    var req := s.serving.value;
    assert P.Tune(req) in P.Pending(s) && P.TuneOk(s, req);
    CommitHolds(x, s, max);
    InsertsLeave(x, ops, Held(x, s), req, |x.order(req)|);
  }

  lemma UntuneHolds(x: Target, s: P.State, max: nat, m: P.Msg)
    requires P.Inv(s, max) && P.Enabled(s, P.Consume(m)) && RequestsOk(x, s) && P.RemovesNodes(s, P.Consume(m))
    ensures var req := s.manager.active[m.handle].req; var nodes := NodesOf(x, req, |x.order(req)|);
      && (forall l :: l in nodes ==> l in Held(x, s) && Held(x, s)[l] == req.priority)
      && Held(x, P.Do(s, max, P.Consume(m))) == Held(x, s) - nodes
  {
    var req, t := s.manager.active[m.handle].req, P.Do(s, max, P.Consume(m));
    var nodes := NodesOf(x, req, |x.order(req)|);
    assert P.ActiveOk(s, m.handle);
    forall l ensures l in nodes <==> l in P.Links(req) && OnTarget(x, l) { NodesOfAll(x, req, l); }
    forall l | l in nodes ensures l in Held(x, s) && Held(x, s)[l] == req.priority { assert l in s.table; }
    assert forall l :: l in t.table ==> l in s.table && l.owner != m.handle;
    var held, rest := Held(x, t), Held(x, s) - nodes;
    assert held.Keys == rest.Keys;
    forall l | l in held ensures held[l] == rest[l] {}
  }

  lemma UntuneLeaves(x: Target, s: P.State, max: nat, m: P.Msg, ops: seq<A.Op<Link>>)
    requires P.Inv(s, max) && P.Enabled(s, P.Consume(m)) && RequestsOk(x, s) && Leaves(x, ops, Held(x, s))
    requires P.RemovesNodes(s, P.Consume(m))
    ensures Leaves(x, ops + StepOps(x, s, P.Consume(m)), Held(x, P.Do(s, max, P.Consume(m))))
  {
    var req := s.manager.active[m.handle].req;
    UntuneHolds(x, s, max, m);
    RemovesLeave(x, ops, Held(x, s), req, |x.order(req)|);
  }

  /** No other step moves a node or forgets the request of a linked one. */
  lemma QuietStep(x: Target, s: P.State, max: nat, step: P.Step)
    requires P.Inv(s, max) && P.Enabled(s, step) && step != P.Commit(true) && !P.RemovesNodes(s, step)
    ensures Held(x, P.Do(s, max, step)) == Held(x, s) && StepOps(x, s, step) == []
  {
    P.QuietKeepsLinked(s, max, step);
    assert forall l :: l in s.table ==> P.Done(s, l.owner);
  }

  lemma StepLeaves(x: Target, s: P.State, max: nat, step: P.Step, ops: seq<A.Op<Link>>)
    requires P.Inv(s, max) && P.Enabled(s, step) && RequestsOk(x, s) && Leaves(x, ops, Held(x, s))
    ensures Leaves(x, ops + StepOps(x, s, step), Held(x, P.Do(s, max, step)))
  {
    if step == P.Commit(true) {
      CommitLeaves(x, s, max, ops);
    } else if P.RemovesNodes(s, step) {
      UntuneLeaves(x, s, max, step.m, ops);
    } else {
      QuietStep(x, s, max, step);
      assert ops + [] == ops;
    }
  }

  lemma StepKeepsRequestsOk(x: Target, s: P.State, max: nat, step: P.Step)
    requires P.Enabled(s, step) && RequestsOk(x, s)
    requires step.Receive? ==> WellFormed(x, step.req)
    ensures RequestsOk(x, P.Do(s, max, step))
  {
    P.StepKeepsEntries(s, max, step);
    P.StepKeepsArrivals(s, max, step);
  }

  // ----- whole runs of the server -----------------------------------------------------------

  /** Every request that arrives in the run is well-formed. */
  ghost predicate Orderly(x: Target, steps: seq<P.Step>) {
    forall k :: 0 <= k < |steps| && steps[k].Receive? ==> WellFormed(x, steps[k].req)
  }

  /** What a run of the server does to the resource. */
  ghost function AllOps(x: Target, s: P.State, max: nat, steps: seq<P.Step>): seq<A.Op<Link>>
    requires P.CanFollow(s, max, steps)
    decreases |steps|
  {
    if steps == [] then [] else StepOps(x, s, steps[0]) + AllOps(x, P.Do(s, max, steps[0]), max, steps[1..])
  }

  lemma OrderlyRest(x: Target, steps: seq<P.Step>)
    requires Orderly(x, steps) && steps != []
    ensures Orderly(x, steps[1..])
  {
    assert forall k :: 0 <= k < |steps[1..]| ==> steps[1..][k] == steps[k + 1];
  }

  lemma Regroup<T>(a: seq<T>, b: seq<T>, c: seq<T>)
    ensures a + b + c == a + (b + c)
  {
  }

  lemma {:induction false} RunLeaves(x: Target, s: P.State, max: nat, steps: seq<P.Step>, ops: seq<A.Op<Link>>)
    requires P.Inv(s, max) && P.CanFollow(s, max, steps) && RequestsOk(x, s) && Orderly(x, steps)
    requires Leaves(x, ops, Held(x, s))
    ensures Leaves(x, ops + AllOps(x, s, max, steps), Held(x, P.Follow(s, max, steps)))
    decreases |steps|
  {
    if steps == [] {
      assert ops + [] == ops;
    } else {
      var step := steps[0];
      var next := P.FollowRest(s, max, steps);
      P.StepKeepsInv(s, max, step);
      StepKeepsRequestsOk(x, s, max, step);
      StepLeaves(x, s, max, step, ops);
      OrderlyRest(x, steps);
      RunLeaves(x, next, max, steps[1..], ops + StepOps(x, s, step));
      Regroup(ops, StepOps(x, s, step), AllOps(x, next, max, steps[1..]));
    }
  }

  lemma NothingYet(x: Target, maxCache: nat)
    ensures RequestsOk(x, P.Init(maxCache)) && Held(x, P.Init(maxCache)) == map[] && Leaves(x, [], map[])
  {
  }

  /** The node belongs to an active, complete request and is on the resource. */
  ghost predicate Waiting(x: Target, s: P.State, l: Link) {
    OnTarget(x, l) && P.Done(s, l.owner) && l.slot in s.manager.active[l.owner].req.slots
  }

  ghost predicate LiveIffWaiting(x: Target, s: P.State, ops: seq<A.Op<Link>>, l: Link, i: nat, p: nat) {
    l in A.Live(ops, i, p) <==> Waiting(x, s, l) && x.at(l) == Some(i) && Level(s, l) == p
  }

  /** Seen from one resource, every run of the server is a run of the arbitration model, in
      which exactly the nodes of active, complete requests are live, each at its instance
      and at the priority of its request. */
  lemma ServerRefinesArbitration(x: Target, maxCache: nat, max: nat, steps: seq<P.Step>)
    requires maxCache > 0 && P.IsRun(maxCache, max, steps) && Orderly(x, steps)
    ensures var s, ops := P.After(maxCache, max, steps), AllOps(x, P.Init(maxCache), max, steps);
      && A.IsRun(x.cfg, x.key, ops)
      && forall l, i: nat, p: nat {:trigger LiveIffWaiting(x, s, ops, l, i, p)} :: A.Fits(x.cfg, i, p) ==>
           LiveIffWaiting(x, s, ops, l, i, p)
  {
    var s, ops := P.After(maxCache, max, steps), AllOps(x, P.Init(maxCache), max, steps);
    P.InitInv(maxCache, max);
    P.Lifecycle(maxCache, max, steps);
    NothingYet(x, maxCache);
    RunLeaves(x, P.Init(maxCache), max, steps, []);
    assert [] + ops == ops;
    forall l, i: nat, p: nat | A.Fits(x.cfg, i, p)
      ensures LiveIffWaiting(x, s, ops, l, i, p)
    {
      assert LiveRight(x, ops, Held(x, s), l, i, p);
    }
  }

  /** End to end, in every reachable state of the server, for a system-wide resource of an
      admitted mode: if some active, complete request has a node on the resource, the node
      in force is such a node, none waits at a better level, and it is the policy's winner
      among those of its level; otherwise nothing is in force. */
  lemma ServerIsArbitrated(x: Target, maxCache: nat, max: nat, steps: seq<P.Step>)
    requires maxCache > 0 && P.IsRun(maxCache, max, steps) && Orderly(x, steps)
    requires x.cfg.instances == 1 && x.cfg.admits
    ensures var s, ops := P.After(maxCache, max, steps), AllOps(x, P.Init(maxCache), max, steps);
      && A.IsRun(x.cfg, x.key, ops)
      && var row := A.After(x.cfg, x.key, ops);
         if row.force[0].Applied? then
           var l := row.force[0].node;
           && Waiting(x, s, l) && row.cur == Level(s, l)
           && (forall m :: Waiting(x, s, m) && x.at(m) == Some(0) ==> Level(s, l) <= Level(s, m))
           && A.Promised(x.cfg, x.key, ops, 0, Level(s, l), l)
         else row.cur == -1 && forall m :: Waiting(x, s, m) ==> x.at(m) != Some(0)
  {
    var s, ops := P.After(maxCache, max, steps), AllOps(x, P.Init(maxCache), max, steps);
    ServerRefinesArbitration(x, maxCache, max, steps);
    P.Lifecycle(maxCache, max, steps);
    LevelsFit(x, maxCache, max, steps);
    forall m | Waiting(x, s, m) && x.at(m) == Some(0) ensures m in A.Live(ops, 0, Level(s, m)) && Level(s, m) < A.TOTAL_PRIORITIES {
      assert LiveIffWaiting(x, s, ops, m, 0, Level(s, m));
    }
    var row := A.After(x.cfg, x.key, ops);
    if ops != [] { A.RequestInForce(x.cfg, x.key, ops); }
    if row.force[0].Applied? {
      assert LiveIffWaiting(x, s, ops, row.force[0].node, 0, row.cur);
    } else {
      assert forall q: nat :: q < A.TOTAL_PRIORITIES ==> A.Live(ops, 0, q) == [];
    }
  }

  /** Active requests carry one of the four levels. */
  lemma LevelsFit(x: Target, maxCache: nat, max: nat, steps: seq<P.Step>)
    requires maxCache > 0 && P.IsRun(maxCache, max, steps) && Orderly(x, steps)
    ensures RequestsOk(x, P.After(maxCache, max, steps))
  {
    P.InitInv(maxCache, max);
    NothingYet(x, maxCache);
    RunKeepsRequestsOk(x, P.Init(maxCache), max, steps);
  }

  lemma {:induction false} RunKeepsRequestsOk(x: Target, s: P.State, max: nat, steps: seq<P.Step>)
    requires P.CanFollow(s, max, steps) && RequestsOk(x, s) && Orderly(x, steps)
    ensures RequestsOk(x, P.Follow(s, max, steps))
    decreases |steps|
  {
    if steps != [] {
      var next := P.FollowRest(s, max, steps);
      StepKeepsRequestsOk(x, s, max, steps[0]);
      OrderlyRest(x, steps);
      RunKeepsRequestsOk(x, next, max, steps[1..]);
    }
  }
}
