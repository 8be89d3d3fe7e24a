/** The arbitration of one resource as a state machine over whole runs.

    A resource has four lists per instance (one core, cluster, cgroup, or the whole
    system) and ONE remembered priority, shared by all its instances.  The main
    results: with a single instance the request in force is always the policy's
    winner among the live requests of the best live priority; with several
    instances this holds in every run exactly when only one priority is in use. */
module Arbitration {
  import opened PolicyOrder
  import opened Wrappers

  const TOTAL_PRIORITIES := 4

  /** The last callback that ran for an instance. */
  datatype Force<T> = Untouched | Applied(node: T) | Torn

  /** `admits`: the resource's modes include the current device mode. */
  datatype Config = Config(policy: Policy, admits: bool, instances: nat)

  /** `lists[4 * i + p]` holds priority `p` of instance `i`; `cur` is the shared cell. */
  datatype Row<T> = Row(lists: seq<seq<T>>, cur: int, force: seq<Force<T>>)

  datatype Op<T> =
    | Insert(instance: nat, priority: nat, node: T)
    | Remove(instance: nat, priority: nat, node: T)

  function Slot(instance: nat, priority: nat): nat {
    instance * TOTAL_PRIORITIES + priority
  }

  ghost predicate Shaped<T>(cfg: Config, row: Row<T>) {
    |row.lists| == cfg.instances * TOTAL_PRIORITIES && |row.force| == cfg.instances
  }

  ghost function Init<T>(cfg: Config): (row: Row<T>)
    ensures Shaped(cfg, row)
  {
    Row(seq(cfg.instances * TOTAL_PRIORITIES, _ => []), -1, seq(cfg.instances, _ => Untouched))
  }

  /** The best priority with a waiting request at instance `i`, or 4 when there is none. */
  ghost function Best<T>(row: Row<T>, i: nat): (p: nat)
    requires Slot(i, 3) < |row.lists|
    ensures p <= TOTAL_PRIORITIES
    ensures p < TOTAL_PRIORITIES ==> row.lists[Slot(i, p)] != []
    ensures forall q :: 0 <= q < p ==> row.lists[Slot(i, q)] == []
  {
    if row.lists[Slot(i, 0)] != [] then 0
    else if row.lists[Slot(i, 1)] != [] then 1
    else if row.lists[Slot(i, 2)] != [] then 2
    else if row.lists[Slot(i, 3)] != [] then 3
    else TOTAL_PRIORITIES
  }

  ghost predicate Fits(cfg: Config, i: nat, p: nat) {
    i < cfg.instances && p < TOTAL_PRIORITIES
  }

  // ----- the steps the table takes ----------------------------------------------

  /** The guard under which the applier callback runs for priority `p`. */
  ghost predicate CellAllows<T>(row: Row<T>, p: int) {
    row.cur >= p || row.cur == -1
  }

  ghost function ApplyAction<T>(cfg: Config, row: Row<T>, i: nat, p: nat, node: T): (r: Row<T>)
    requires Shaped(cfg, row) && Fits(cfg, i, p)
    ensures Shaped(cfg, r) && r.lists == row.lists
  {
    if CellAllows(row, p) && cfg.admits
    then row.(cur := p, force := row.force[i := Applied(node)])
    else row
  }

  ghost function InsertStep<T>(cfg: Config, key: T -> int, row: Row<T>, i: nat, p: nat, node: T): (r: Row<T>)
    requires Shaped(cfg, row) && Fits(cfg, i, p)
    ensures Shaped(cfg, r)
    ensures r.lists == row.lists[Slot(i, p) := InsertByPolicy(cfg.policy, key, row.lists[Slot(i, p)], node)]
  {
    var list := InsertByPolicy(cfg.policy, key, row.lists[Slot(i, p)], node);
    var listed := row.(lists := row.lists[Slot(i, p) := list]);
    if list[0] == node then ApplyAction(cfg, listed, i, p, node) else listed
  }

  ghost function RemoveStep<T>(cfg: Config, row: Row<T>, i: nat, p: nat, node: T): (r: Row<T>)
    requires Shaped(cfg, row) && Fits(cfg, i, p)
    ensures Shaped(cfg, r)
    ensures r.lists == row.lists[Slot(i, p) := Without(row.lists[Slot(i, p)], node)]
  {
    var before := row.lists[Slot(i, p)];
    var list := Without(before, node);
    var unlisted := row.(lists := row.lists[Slot(i, p) := list]);
    if list == [] then
      var best := Best(unlisted, i);
      if best < TOTAL_PRIORITIES
      then ApplyAction(cfg, unlisted.(cur := best), i, best, unlisted.lists[Slot(i, best)][0])
      else unlisted.(cur := -1, force := unlisted.force[i := Torn])
    else if before[0] == node then ApplyAction(cfg, unlisted, i, p, list[0])
    else unlisted
  }

  ghost predicate Enabled<T>(cfg: Config, row: Row<T>, op: Op<T>)
    requires Shaped(cfg, row)
  {
    && Fits(cfg, op.instance, op.priority)
    && match op
       case Insert(_, _, node) => Unlisted(row, node)
       case Remove(i, p, node) => node in row.lists[Slot(i, p)]
  }

  ghost predicate Unlisted<T>(row: Row<T>, node: T) {
    forall s :: 0 <= s < |row.lists| ==> node !in row.lists[s]
  }

  ghost function Step<T>(cfg: Config, key: T -> int, row: Row<T>, op: Op<T>): (r: Row<T>)
    requires Shaped(cfg, row) && Enabled(cfg, row, op)
    ensures Shaped(cfg, r)
  {
    match op
    case Insert(i, p, node) => InsertStep(cfg, key, row, i, p, node)
    case Remove(i, p, node) => RemoveStep(cfg, row, i, p, node)
  }

  // ----- runs ----------------------------------------------------------------------

  ghost predicate IsRun<T>(cfg: Config, key: T -> int, ops: seq<Op<T>>)
    decreases |ops|, 0
  {
    ops == [] ||
    var n := |ops| - 1;
    IsRun(cfg, key, ops[..n]) && Enabled(cfg, After(cfg, key, ops[..n]), ops[n])
  }

  ghost function After<T>(cfg: Config, key: T -> int, ops: seq<Op<T>>): (row: Row<T>)
    requires IsRun(cfg, key, ops)
    ensures Shaped(cfg, row)
    decreases |ops|, 1
  {
    if ops == [] then Init(cfg)
    else
      var n := |ops| - 1;
      Step(cfg, key, After(cfg, key, ops[..n]), ops[n])
  }

  lemma RunSnoc<T>(cfg: Config, key: T -> int, ops: seq<Op<T>>, op: Op<T>)
    requires IsRun(cfg, key, ops) && Enabled(cfg, After(cfg, key, ops), op)
    ensures IsRun(cfg, key, ops + [op])
    ensures After(cfg, key, ops + [op]) == Step(cfg, key, After(cfg, key, ops), op)
  {
    assert (ops + [op])[..|ops|] == ops;
  }

  /** The requests still waiting at instance `i`, priority `p`, in order of arrival:
      what came in and did not leave.  No list and no policy is mentioned. */
  ghost function Live<T>(ops: seq<Op<T>>, i: nat, p: nat): seq<T> {
    if ops == [] then []
    else
      var n := |ops| - 1;
      var live := Live(ops[..n], i, p);
      var op := ops[n];
      if op.instance != i || op.priority != p then live
      else if op.Insert? then live + [op.node]
      else Without(live, op.node)
  }

  // ----- every list is the policy's arrangement of the live requests --------------

  ghost predicate Disjoint<T>(row: Row<T>) {
    && (forall s :: 0 <= s < |row.lists| ==> Distinct(row.lists[s]))
    && (forall s, t, x :: 0 <= s < t < |row.lists| && x in row.lists[s] ==> x !in row.lists[t])
  }

  lemma SlotIsInjective(i: nat, p: nat, j: nat, q: nat)
    requires p < TOTAL_PRIORITIES && q < TOTAL_PRIORITIES
    ensures Slot(i, p) == Slot(j, q) <==> i == j && p == q
  {
  }

  lemma {:induction false} InsertMembers<T>(policy: Policy, key: T -> int, s: seq<T>, x: T, y: T)
    ensures y in InsertByPolicy(policy, key, s, x) <==> y == x || y in s
  {
    if s != [] && !Better(policy, key, x, s[0]) {
      InsertMembers(policy, key, s[1..], x, y);
    }
  }

  lemma {:induction false} InsertDistinct<T>(policy: Policy, key: T -> int, s: seq<T>, x: T)
    requires Distinct(s) && x !in s
    ensures Distinct(InsertByPolicy(policy, key, s, x))
  {
    if s != [] && !Better(policy, key, x, s[0]) {
      InsertDistinct(policy, key, s[1..], x);
      InsertMembers(policy, key, s[1..], x, s[0]);
    }
  }

  lemma {:induction false} WithoutMembers<T>(s: seq<T>, x: T, y: T)
    requires Distinct(s)
    ensures Distinct(Without(s, x))
    ensures y in Without(s, x) <==> y in s && y != x
  {
    if x in s {
      var k :| 0 <= k < |s| && s[k] == x;
      WithoutAt(s, k);
    } else {
      WithoutAbsent(s, x);
    }
  }

  lemma StepKeepsDisjoint<T>(cfg: Config, key: T -> int, row: Row<T>, op: Op<T>)
    requires Shaped(cfg, row) && Enabled(cfg, row, op) && Disjoint(row)
    ensures Disjoint(Step(cfg, key, row, op))
  {
    var k := Slot(op.instance, op.priority);
    var list := row.lists[k];
    var next := Step(cfg, key, row, op);
    forall y ensures y in next.lists[k] <==> if op.Insert? then y == op.node || y in list else y in list && y != op.node {
      InsertMembers(cfg.policy, key, list, op.node, y);
      WithoutMembers(list, op.node, y);
    }
    if op.Insert? {
      InsertDistinct(cfg.policy, key, list, op.node);
    } else {
      WithoutMembers(list, op.node, op.node);
    }
  }

  lemma {:induction false} RunKeepsDisjoint<T>(cfg: Config, key: T -> int, ops: seq<Op<T>>)
    requires IsRun(cfg, key, ops)
    ensures Disjoint(After(cfg, key, ops))
  {
    if ops != [] {
      var n := |ops| - 1;
      RunKeepsDisjoint(cfg, key, ops[..n]);
      StepKeepsDisjoint(cfg, key, After(cfg, key, ops[..n]), ops[n]);
    }
  }

  /** Conservation: after any run each list holds exactly the live requests of its
      instance and priority, stably sorted by the policy. */
  lemma {:induction false} ListsAreArranged<T>(cfg: Config, key: T -> int, ops: seq<Op<T>>, i: nat, p: nat)
    requires IsRun(cfg, key, ops) && Fits(cfg, i, p)
    ensures After(cfg, key, ops).lists[Slot(i, p)] == Arrange(cfg.policy, key, Live(ops, i, p))
    ensures Distinct(Live(ops, i, p))
  {
    if ops != [] {
      var n := |ops| - 1;
      var op := ops[n];
      var live := Live(ops[..n], i, p);
      ListsAreArranged(cfg, key, ops[..n], i, p);
      SlotIsInjective(i, p, op.instance, op.priority);
      if op.instance == i && op.priority == p {
        if op.Insert? {
          assert (live + [op.node])[..|live|] == live;
          ArrangeMembers(cfg.policy, key, live, op.node);
        } else {
          ArrangeWithout(cfg.policy, key, live, op.node);
          WithoutMembers(live, op.node, op.node);
        }
      }
    }
  }

  // ----- the request in force -----------------------------------------------------

  /** The last callback at instance `i` is the right one: the head of the best
      non-empty list was applied, or nothing is waiting and nothing is applied. */
  ghost predicate InStep<T>(row: Row<T>, i: nat)
    requires Slot(i, 3) < |row.lists| && i < |row.force|
  {
    var best := Best(row, i);
    if best < TOTAL_PRIORITIES then row.force[i] == Applied(row.lists[Slot(i, best)][0])
    else !row.force[i].Applied?
  }

  /** One insertion keeps an instance right exactly when the newcomer does not lead
      its list, or the shared cell lets it through precisely if nothing better waits. */
  lemma InsertInStepIff<T>(cfg: Config, key: T -> int, row: Row<T>, i: nat, p: nat, node: T)
    requires Shaped(cfg, row) && Disjoint(row) && cfg.admits
    requires Enabled(cfg, row, Insert(i, p, node)) && InStep(row, i)
    ensures InStep(InsertStep(cfg, key, row, i, p, node), i) <==>
      (InsertByPolicy(cfg.policy, key, row.lists[Slot(i, p)], node)[0] == node ==>
        (CellAllows(row, p) <==> p <= Best(row, i)))
  {
    var list := row.lists[Slot(i, p)];
    var inserted := InsertByPolicy(cfg.policy, key, list, node);
    var next := InsertStep(cfg, key, row, i, p, node);
    assert inserted[0] == node || inserted[0] == list[0];
    assert Best(next, i) == if p < Best(row, i) then p else Best(row, i);
    assert forall q :: 0 <= q < TOTAL_PRIORITIES && q != p ==> next.lists[Slot(i, q)] == row.lists[Slot(i, q)];
  }

  /** One deletion keeps an instance right exactly when it empties its list, or did
      not delete the head, or the shared cell lets the next node through precisely
      if nothing better waits.  When it empties the list it even repairs a wrong one. */
  lemma RemoveInStepIff<T>(cfg: Config, row: Row<T>, i: nat, p: nat, node: T)
    requires Shaped(cfg, row) && Disjoint(row) && cfg.admits
    requires Enabled(cfg, row, Remove(i, p, node))
    ensures Without(row.lists[Slot(i, p)], node) == [] ==> InStep(RemoveStep(cfg, row, i, p, node), i)
    ensures InStep(row, i) ==>
      (InStep(RemoveStep(cfg, row, i, p, node), i) <==>
        (Without(row.lists[Slot(i, p)], node) == [] || row.lists[Slot(i, p)][0] != node
         || (CellAllows(row, p) <==> p <= Best(row, i))))
  {
    var list := row.lists[Slot(i, p)];
    var rest := Without(list, node);
    var next := RemoveStep(cfg, row, i, p, node);
    assert forall q :: 0 <= q < TOTAL_PRIORITIES && q != p ==> next.lists[Slot(i, q)] == row.lists[Slot(i, q)];
    if rest != [] {
      WithoutMembers(list, node, rest[0]);
      assert list[0] != node ==> rest[0] == list[0];
      assert Best(next, i) == Best(row, i);
    }
  }

  /** When a newcomer is applied: exactly if it leads its list, the mode admits the resource,
      and no better level is remembered. */
  lemma InsertSpelledOut<T>(cfg: Config, key: T -> int, row: Row<T>, i: nat, p: nat, node: T)
    requires Shaped(cfg, row) && Fits(cfg, i, p)
    ensures var next, list := InsertStep(cfg, key, row, i, p, node), InsertByPolicy(cfg.policy, key, row.lists[4 * i + p], node);
      && next.lists == row.lists[4 * i + p := list]
      && if list[0] == node && cfg.admits && (row.cur == -1 || p <= row.cur)
         then next.cur == p && next.force == row.force[i := Applied(node)]
         else next.cur == row.cur && next.force == row.force
  {
  }

  /** What a departure does that leaves its list with other nodes: nothing more unless the head
      left; then the new head is applied under the same condition. */
  lemma RemovalSpelledOut<T>(cfg: Config, row: Row<T>, i: nat, p: nat, node: T)
    requires Shaped(cfg, row) && Fits(cfg, i, p)
    ensures var next, list := RemoveStep(cfg, row, i, p, node), Without(row.lists[4 * i + p], node);
      && next.lists == row.lists[4 * i + p := list]
      && (list != [] && row.lists[4 * i + p][0] != node ==> next.cur == row.cur && next.force == row.force)
      && (list != [] && row.lists[4 * i + p][0] == node ==>
            if cfg.admits && (row.cur == -1 || p <= row.cur)
            then next.cur == p && next.force == row.force[i := Applied(list[0])]
            else next.cur == row.cur && next.force == row.force)
  {
  }

  /** When the list became empty: the head of the best list of the instance is applied and its
      level remembered, or with nothing left the resource is torn. */
  lemma EmptyingSpelledOut<T>(cfg: Config, row: Row<T>, i: nat, p: nat, node: T, best: nat)
    requires Shaped(cfg, row) && Fits(cfg, i, p) && Without(row.lists[4 * i + p], node) == []
    ensures var next := RemoveStep(cfg, row, i, p, node);
      && (best < 4 && IsBest(next.lists[4 * i..4 * i + 4], best) ==>
            next.cur == best && next.force == if cfg.admits then row.force[i := Applied(next.lists[4 * i + best][0])] else row.force)
      && (next.lists[4 * i..4 * i + 4] == [[], [], [], []] ==> next.cur == -1 && next.force == row.force[i := Torn])
  {
    var lists := RemoveStep(cfg, row, i, p, node).lists;
    assert lists[4 * i..4 * i + 4] == [lists[4 * i], lists[4 * i + 1], lists[4 * i + 2], lists[4 * i + 3]];
    assert best < 4 ==> lists[4 * i..4 * i + 4][best] == lists[4 * i + best];
  }

  /** The first list that is not empty. */
  ghost predicate IsBest<T>(lists: seq<seq<T>>, best: nat)
    requires best < |lists|
  {
    lists[best] != [] && forall q :: 0 <= q < best ==> lists[q] == []
  }

  /** Steps at one instance leave the callbacks and lists of the others alone. */
  lemma StepElsewhere<T>(cfg: Config, key: T -> int, row: Row<T>, op: Op<T>, j: nat)
    requires Shaped(cfg, row) && Enabled(cfg, row, op) && j < cfg.instances && j != op.instance
    ensures var next := Step(cfg, key, row, op);
      next.force[j] == row.force[j] && Best(next, j) == Best(row, j) && (InStep(next, j) <==> InStep(row, j))
      && forall q :: 0 <= q < TOTAL_PRIORITIES ==> next.lists[Slot(j, q)] == row.lists[Slot(j, q)]
  {
  }

  // ----- one instance: the full theorem ----------------------------------------------

  /** The shared cell is the best live priority, and the instance is right. */
  ghost predicate Arbitrated<T>(cfg: Config, row: Row<T>)
    requires Shaped(cfg, row) && cfg.instances == 1
  {
    && row.cur == (if Best(row, 0) < TOTAL_PRIORITIES then Best(row, 0) else -1)
    && InStep(row, 0)
  }

  lemma InsertKeepsArbitrated<T>(cfg: Config, key: T -> int, row: Row<T>, p: nat, node: T)
    requires Shaped(cfg, row) && Disjoint(row) && cfg.instances == 1 && cfg.admits
    requires Arbitrated(cfg, row) && Enabled(cfg, row, Insert(0, p, node))
    ensures Arbitrated(cfg, InsertStep(cfg, key, row, 0, p, node))
    ensures Best(InsertStep(cfg, key, row, 0, p, node), 0) < TOTAL_PRIORITIES
  {
    var next := InsertStep(cfg, key, row, 0, p, node);
    InsertInStepIff(cfg, key, row, 0, p, node);
    assert next.lists[Slot(0, p)] != [];
    assert Best(next, 0) == if p < Best(row, 0) then p else Best(row, 0);
  }

  lemma RemoveKeepsArbitrated<T>(cfg: Config, row: Row<T>, p: nat, node: T)
    requires Shaped(cfg, row) && Disjoint(row) && cfg.instances == 1 && cfg.admits
    requires Arbitrated(cfg, row) && Enabled(cfg, row, Remove(0, p, node))
    ensures Arbitrated(cfg, RemoveStep(cfg, row, 0, p, node))
    ensures Best(RemoveStep(cfg, row, 0, p, node), 0) == TOTAL_PRIORITIES ==> RemoveStep(cfg, row, 0, p, node).force[0] == Torn
  {
    var rest := Without(row.lists[Slot(0, p)], node);
    RemoveInStepIff(cfg, row, 0, p, node);
    if rest != [] {
      assert RemoveStep(cfg, row, 0, p, node).lists[Slot(0, p)] == rest;
      assert Best(RemoveStep(cfg, row, 0, p, node), 0) == Best(row, 0);
    }
  }

  lemma {:induction false} SingleInstanceArbitrated<T>(cfg: Config, key: T -> int, ops: seq<Op<T>>)
    requires IsRun(cfg, key, ops) && cfg.instances == 1 && cfg.admits
    ensures Arbitrated(cfg, After(cfg, key, ops))
    ensures Best(After(cfg, key, ops), 0) == TOTAL_PRIORITIES && ops != [] ==> After(cfg, key, ops).force[0] == Torn
  {
    if ops != [] {
      var n := |ops| - 1;
      var row, op := After(cfg, key, ops[..n]), ops[n];
      SingleInstanceArbitrated(cfg, key, ops[..n]);
      RunKeepsDisjoint(cfg, key, ops[..n]);
      if op.Insert? {
        InsertKeepsArbitrated(cfg, key, row, op.priority, op.node);
      } else {
        RemoveKeepsArbitrated(cfg, row, op.priority, op.node);
      }
    }
  }

  /** The request a policy picks at an instance: the winner among the live requests
      of the smallest priority that has any. */
  ghost predicate Promised<T>(cfg: Config, key: T -> int, ops: seq<Op<T>>, i: nat, p: nat, node: T) {
    && p < TOTAL_PRIORITIES
    && (forall q :: 0 <= q < p ==> Live(ops, i, q) == [])
    && exists w :: Winner(cfg.policy, key, Live(ops, i, p), w) && Live(ops, i, p)[w] == node
  }

  lemma BestIsPromised<T>(cfg: Config, key: T -> int, ops: seq<Op<T>>, i: nat)
    requires IsRun(cfg, key, ops) && i < cfg.instances
    ensures var row := After(cfg, key, ops); var best := Best(row, i);
      if best < TOTAL_PRIORITIES then Promised(cfg, key, ops, i, best, row.lists[Slot(i, best)][0])
      else forall q :: 0 <= q < TOTAL_PRIORITIES ==> Live(ops, i, q) == []
  {
    var row := After(cfg, key, ops);
    var best := Best(row, i);
    forall q | 0 <= q < TOTAL_PRIORITIES
      ensures row.lists[Slot(i, q)] == Arrange(cfg.policy, key, Live(ops, i, q))
    {
      ListsAreArranged(cfg, key, ops, i, q);
    }
    if best < TOTAL_PRIORITIES {
      var w := HeadIsWinner(cfg.policy, key, Live(ops, i, best));
    }
  }

  /** Main result for a single-instance resource, over every run: while something is
      live, the promised request is in force and the cell holds its priority; when
      nothing is live the cell is -1 and the last callback was the tear. */
  lemma RequestInForce<T>(cfg: Config, key: T -> int, ops: seq<Op<T>>)
    requires IsRun(cfg, key, ops) && cfg.instances == 1 && cfg.admits && ops != []
    ensures var row := After(cfg, key, ops);
      || (0 <= row.cur && row.force[0].Applied? && Promised(cfg, key, ops, 0, row.cur, row.force[0].node))
      || (row.cur == -1 && row.force[0] == Torn && forall q :: 0 <= q < TOTAL_PRIORITIES ==> Live(ops, 0, q) == [])
  {
    SingleInstanceArbitrated(cfg, key, ops);
    BestIsPromised(cfg, key, ops, 0);
  }

  // ----- draining and inadmissible modes ----------------------------------------------

  /** Once every request of an instance is gone, its last callback was the tear; an
      instance that was never touched saw none.  Any number of instances, any mode. */
  lemma {:induction false} DrainedIsTorn<T>(cfg: Config, key: T -> int, ops: seq<Op<T>>, i: nat)
    requires IsRun(cfg, key, ops) && i < cfg.instances && Best(After(cfg, key, ops), i) == TOTAL_PRIORITIES
    ensures After(cfg, key, ops).force[i] ==
      if exists k :: 0 <= k < |ops| && ops[k].instance == i then Torn else Untouched
  {
    if ops != [] {
      var n := |ops| - 1;
      var row, op := After(cfg, key, ops[..n]), ops[n];
      if op.instance != i {
        StepElsewhere(cfg, key, row, op, i);
        DrainedIsTorn(cfg, key, ops[..n], i);
        assert forall k :: 0 <= k < n ==> ops[..n][k] == ops[k];
      } else {
        assert After(cfg, key, ops).lists[Slot(i, op.priority)] == [];
      }
    }
  }

  /** A resource whose modes exclude the current mode is never applied. */
  lemma {:induction false} NeverAppliedOutsideItsModes<T>(cfg: Config, key: T -> int, ops: seq<Op<T>>, i: nat)
    requires IsRun(cfg, key, ops) && i < cfg.instances && !cfg.admits
    ensures !After(cfg, key, ops).force[i].Applied?
  {
    if ops != [] {
      NeverAppliedOutsideItsModes(cfg, key, ops[..|ops| - 1], i);
    }
  }

  // ----- several instances: exactly when the theorem survives --------------------------

  ghost predicate UsesOnly<T>(ops: seq<Op<T>>, priorities: set<nat>) {
    forall k :: 0 <= k < |ops| ==> ops[k].priority in priorities
  }

  /** Every run that uses only the given priorities leaves every instance right. */
  ghost predicate AlwaysInStep<T(!new)>(cfg: Config, key: T -> int, priorities: set<nat>) {
    forall ops: seq<Op<T>>, i: nat ::
      IsRun(cfg, key, ops) && UsesOnly(ops, priorities) && i < cfg.instances
      ==> InStep(After(cfg, key, ops), i)
  }

  ghost predicate OnlyPriority<T>(cfg: Config, row: Row<T>, p: nat)
    requires Shaped(cfg, row)
  {
    && (row.cur == -1 || row.cur == p)
    && forall i: nat, q: nat :: Fits(cfg, i, q) && q != p ==> row.lists[Slot(i, q)] == []
  }

  lemma OnePriorityStep<T>(cfg: Config, key: T -> int, row: Row<T>, op: Op<T>, i: nat)
    requires Shaped(cfg, row) && Disjoint(row) && cfg.admits && Enabled(cfg, row, op)
    requires OnlyPriority(cfg, row, op.priority) && i < cfg.instances && InStep(row, i)
    ensures InStep(Step(cfg, key, row, op), i)
  {
    if i != op.instance {
      StepElsewhere(cfg, key, row, op, i);
    } else {
      assert op.priority <= Best(row, i);
      if op.Insert? {
        InsertInStepIff(cfg, key, row, i, op.priority, op.node);
      } else {
        RemoveInStepIff(cfg, row, i, op.priority, op.node);
      }
    }
  }

  lemma StepKeepsOnlyPriority<T>(cfg: Config, key: T -> int, row: Row<T>, op: Op<T>)
    requires Shaped(cfg, row) && cfg.admits && Enabled(cfg, row, op) && OnlyPriority(cfg, row, op.priority)
    ensures OnlyPriority(cfg, Step(cfg, key, row, op), op.priority)
  {
    forall i: nat, q: nat | Fits(cfg, i, q) && q != op.priority
      ensures Step(cfg, key, row, op).lists[Slot(i, q)] == []
    {
      SlotIsInjective(i, q, op.instance, op.priority);
    }
  }

  lemma {:induction false} OnePriorityInStep<T>(cfg: Config, key: T -> int, ops: seq<Op<T>>, p: nat)
    requires IsRun(cfg, key, ops) && UsesOnly(ops, {p}) && cfg.admits
    ensures OnlyPriority(cfg, After(cfg, key, ops), p)
    ensures forall i: nat :: i < cfg.instances ==> InStep(After(cfg, key, ops), i)
  {
    if ops != [] {
      var n := |ops| - 1;
      var row, op := After(cfg, key, ops[..n]), ops[n];
      OnePriorityInStep(cfg, key, ops[..n], p);
      RunKeepsDisjoint(cfg, key, ops[..n]);
      assert op.priority == p;
      forall i: nat | i < cfg.instances ensures InStep(Step(cfg, key, row, op), i) {
        OnePriorityStep(cfg, key, row, op, i);
      }
      StepKeepsOnlyPriority(cfg, key, row, op);
    }
  }

  /** The theorem per instance, for runs in which all requests share one priority. */
  lemma OnePriorityInForce<T>(cfg: Config, key: T -> int, ops: seq<Op<T>>, i: nat, p: nat)
    requires IsRun(cfg, key, ops) && UsesOnly(ops, {p}) && cfg.admits && Fits(cfg, i, p)
    ensures var force := After(cfg, key, ops).force[i];
      if Live(ops, i, p) == [] then !force.Applied?
      else force.Applied? && Promised(cfg, key, ops, i, p, force.node)
  {
    var row := After(cfg, key, ops);
    OnePriorityInStep(cfg, key, ops, p);
    ListsAreArranged(cfg, key, ops, i, p);
    BestIsPromised(cfg, key, ops, i);
    assert InStep(row, i) && |row.lists[Slot(i, p)]| == |Live(ops, i, p)|;
    var best := Best(row, i);
    if row.lists[Slot(i, p)] != [] {
      assert best == p && row.force[i] == Applied(row.lists[Slot(i, best)][0]);
    } else {
      assert best == TOTAL_PRIORITIES;
    }
  }

  /** Two instances and two priorities suffice to leave a waiting request unapplied:
      the cell remembers the other instance's better priority. */
  lemma MixedPrioritiesGoWrong<T>(cfg: Config, key: T -> int, a: T, b: T, p: nat, q: nat)
    requires cfg.admits && cfg.instances >= 2 && a != b && p < q < TOTAL_PRIORITIES
    ensures var ops := [Insert(0, p, a), Insert(1, q, b)];
      IsRun(cfg, key, ops) && After(cfg, key, ops).force[1] == Untouched && !InStep(After(cfg, key, ops), 1)
  {
    var first, second := Insert(0, p, a), Insert(1, q, b);
    var row := Init<T>(cfg);
    assert IsRun<T>(cfg, key, []);
    RunSnoc(cfg, key, [], first);
    assert [] + [first] == [first];
    var next := Step(cfg, key, row, first);
    assert next.lists[Slot(0, p)] == [a] && next.cur == p;
    RunSnoc(cfg, key, [first], second);
    assert [first] + [second] == [first, second];
    var last := Step(cfg, key, next, second);
    assert last.lists[Slot(1, q)] == [b];
  }

  /** Per instance, the request in force is right in every run if and only if the
      resource has at most one instance or at most one priority is in use. */
  lemma InStepIff<T(!new)>(cfg: Config, key: T -> int, priorities: set<nat>, a: T, b: T)
    requires cfg.admits && a != b
    requires forall p :: p in priorities ==> p < TOTAL_PRIORITIES
    ensures AlwaysInStep(cfg, key, priorities) <==> cfg.instances <= 1 || |priorities| <= 1
  {
    if cfg.instances <= 1 || |priorities| <= 1 {
      forall ops: seq<Op<T>>, i: nat | IsRun(cfg, key, ops) && UsesOnly(ops, priorities) && i < cfg.instances
        ensures InStep(After(cfg, key, ops), i)
      {
        if cfg.instances == 1 {
          SingleInstanceArbitrated(cfg, key, ops);
        } else if ops != [] {
          var p := ops[0].priority;
          AtMostOne(priorities, p);
          OnePriorityInStep(cfg, key, ops, p);
        }
      }
    } else {
      var p :| p in priorities;
      AtLeastTwo(priorities, p);
      var q :| q in priorities && q != p;
      var low, high := if p < q then p else q, if p < q then q else p;
      MixedPrioritiesGoWrong(cfg, key, a, b, low, high);
      assert UsesOnly([Insert(0, low, a), Insert(1, high, b)], priorities);
    }
  }

  lemma AtMostOne(s: set<nat>, p: nat)
    requires |s| <= 1 && p in s
    ensures s == {p}
  {
    assert |s - {p}| == 0;
  }

  lemma AtLeastTwo(s: set<nat>, p: nat)
    requires |s| >= 2 && p in s
    ensures exists q :: q in s && q != p
  {
    assert |s - {p}| >= 1;
    var q :| q in s - {p};
  }
}
