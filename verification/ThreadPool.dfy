/** The elastic thread pool (modula/Components/ThreadPool): a FIFO of tasks, a group of core
    threads that never leave, and threads added under load that leave when idle. */
module ElasticPool {
  const MAX_LOAD_PER_THREAD := 3

  datatype Callback = Nullptr | Function(id: int)
  datatype Task = Task(callback: Callback, args: int)

  /** `core`, `max` and `threads` are the capacities and the thread count; `running` tasks
      have left the queue and still hold their node. `freeNodes` and `freeThreadNodes` are
      what is left of the two block stocks, which all pools of the process share; `others`
      task nodes are held by other pools, `made` were made in all. */
  datatype Pool = Pool(core: int, max: int, threads: int, queue: seq<Task>, running: nat,
                       freeNodes: nat, freeThreadNodes: nat, others: nat, made: nat)

  /** What can happen under the pool's lock, and what other pools do to the stocks. `started`
      says that the system can start a thread if one is wanted. */
  datatype Step =
    | Submit(task: Task, started: bool) | Poll | Finish | Expire
    | OthersTake | OthersReturn | OthersStart | OthersMake(capacity: nat)

  /** The queue is short enough for the threads there are. */
  predicate Room(p: Pool) {
    |p.queue| <= MAX_LOAD_PER_THREAD * p.threads
  }

  predicate Accepts(p: Pool, task: Task) {
    task.callback != Nullptr && p.freeNodes > 0 && (Room(p) || p.threads < p.max)
  }

  /** The submission is accepted and brings a thread. */
  predicate Grows(p: Pool, step: Step) {
    step.Submit? && Accepts(p, step.task) && !Room(p) && step.started && p.freeThreadNodes > 0
  }

  /** A thread polls only when it is not running a task; only an idle thread expires, and
      only beyond the core. */
  predicate Enabled(p: Pool, step: Step) {
    match step
    case Submit(_, _) => true
    case Poll => p.running < p.threads
    case Finish => 0 < p.running
    case Expire => p.queue == [] && p.core < p.threads && p.running < p.threads
    case OthersTake => 0 < p.freeNodes
    case OthersReturn => 0 < p.others
    case OthersStart => 0 < p.freeThreadNodes
    case OthersMake(_) => true
  }

  function Do(p: Pool, step: Step): Pool
    requires Enabled(p, step)
  {
    match step
    case Submit(task, started) =>
      if !Accepts(p, task) then p
      else
        var q := p.(queue := p.queue + [task], freeNodes := p.freeNodes - 1);
        if Grows(p, step) then q.(threads := p.threads + 1, freeThreadNodes := p.freeThreadNodes - 1) else q
    case Poll => if p.queue == [] then p else p.(queue := p.queue[1..], running := p.running + 1)
    case Finish => p.(running := p.running - 1, freeNodes := p.freeNodes + 1)
    case Expire => p.(threads := p.threads - 1)
    case OthersTake => p.(freeNodes := p.freeNodes - 1, others := p.others + 1)
    case OthersReturn => p.(freeNodes := p.freeNodes + 1, others := p.others - 1)
    case OthersStart => p.(freeThreadNodes := p.freeThreadNodes - 1)
    case OthersMake(capacity) =>
      var nodes := MAX_LOAD_PER_THREAD * (capacity + 1);
      p.(freeNodes := p.freeNodes + nodes, made := p.made + nodes, freeThreadNodes := p.freeThreadNodes + capacity + 1)
  }

  /** A submission in full: it is taken in exactly if it has a callback, a node is left, and the
      queue has at most three tasks a thread or a thread may still be added; it brings a thread
      exactly if it is taken in although the queue has more, and a thread can be had. */
  lemma SubmissionSpelledOut(p: Pool, task: Task, started: bool)
    ensures Enabled(p, Submit(task, started))
    ensures var q := Do(p, Submit(task, started));
      var taken := task.callback != Nullptr && p.freeNodes > 0 && (|p.queue| <= 3 * p.threads || p.threads < p.max);
      var grows := taken && |p.queue| > 3 * p.threads && started && p.freeThreadNodes > 0;
      && (Accepts(p, task) <==> taken)
      && (Grows(p, Submit(task, started)) <==> grows)
      && (!taken ==> q == p)
      && (taken && !grows ==> q == p.(queue := p.queue + [task], freeNodes := p.freeNodes - 1))
      && (grows ==> q == p.(queue := p.queue + [task], freeNodes := p.freeNodes - 1,
                            threads := p.threads + 1, freeThreadNodes := p.freeThreadNodes - 1))
  {
  }

  /** The other steps of a pool: a thread that is free takes the front task with its node, a
      finished task gives the node back, and a free thread beyond the core leaves an idle pool. */
  lemma ThreadStepsSpelledOut(p: Pool)
    ensures Enabled(p, Poll) <==> p.running < p.threads
    ensures p.running < p.threads && p.queue != [] ==>
      Do(p, Poll) == p.(queue := p.queue[1..], running := p.running + 1) && HandedOut(p, Poll) == [p.queue[0]]
    ensures p.running < p.threads && p.queue == [] ==> Do(p, Poll) == p && HandedOut(p, Poll) == []
    ensures Enabled(p, Finish) <==> 0 < p.running
    ensures 0 < p.running ==> Do(p, Finish) == p.(running := p.running - 1, freeNodes := p.freeNodes + 1)
    ensures Enabled(p, Expire) <==> p.queue == [] && p.core < p.threads && p.running < p.threads
    ensures Enabled(p, Expire) ==> Do(p, Expire) == p.(threads := p.threads - 1)
  {
  }

  /** What the other pools of the process do to the stocks. */
  lemma OtherPoolsSpelledOut(p: Pool, capacity: nat)
    ensures p.freeNodes > 0 ==> Enabled(p, OthersTake) && Do(p, OthersTake) == p.(freeNodes := p.freeNodes - 1, others := p.others + 1)
    ensures p.others > 0 ==> Enabled(p, OthersReturn) && Do(p, OthersReturn) == p.(freeNodes := p.freeNodes + 1, others := p.others - 1)
    ensures p.freeThreadNodes > 0 ==> Enabled(p, OthersStart) && Do(p, OthersStart) == p.(freeThreadNodes := p.freeThreadNodes - 1)
    ensures Enabled(p, OthersMake(capacity)) && Do(p, OthersMake(capacity)) ==
      p.(freeNodes := p.freeNodes + 3 * (capacity + 1), made := p.made + 3 * (capacity + 1), freeThreadNodes := p.freeThreadNodes + capacity + 1)
  {
  }

  /** The tasks a step takes in, and the tasks it hands to a thread. */
  function TakenIn(p: Pool, step: Step): seq<Task> {
    if step.Submit? && Accepts(p, step.task) then [step.task] else []
  }

  function HandedOut(p: Pool, step: Step): seq<Task> {
    if step.Poll? then p.queue[..if p.queue == [] then 0 else 1] else []
  }

  predicate IsRun(p: Pool, steps: seq<Step>)
    decreases steps
  {
    steps == [] || (Enabled(p, steps[0]) && IsRun(Do(p, steps[0]), steps[1..]))
  }

  function After(p: Pool, steps: seq<Step>): Pool
    requires IsRun(p, steps)
    decreases steps
  {
    if steps == [] then p else After(Do(p, steps[0]), steps[1..])
  }

  function AllTakenIn(p: Pool, steps: seq<Step>): seq<Task>
    requires IsRun(p, steps)
    decreases steps
  {
    if steps == [] then [] else TakenIn(p, steps[0]) + AllTakenIn(Do(p, steps[0]), steps[1..])
  }

  function AllHandedOut(p: Pool, steps: seq<Step>): seq<Task>
    requires IsRun(p, steps)
    decreases steps
  {
    if steps == [] then [] else HandedOut(p, steps[0]) + AllHandedOut(Do(p, steps[0]), steps[1..])
  }

  lemma StepKeepsOrder(p: Pool, step: Step)
    requires Enabled(p, step)
    ensures p.queue + TakenIn(p, step) == HandedOut(p, step) + Do(p, step).queue
  {
  }

  /** Over any run tasks leave in the order they were taken in, none lost, none twice: what
      waited plus what came in is what went out plus what waits now. */
  lemma {:induction false} TasksLeaveInOrder(p: Pool, steps: seq<Step>)
    requires IsRun(p, steps)
    ensures p.queue + AllTakenIn(p, steps) == AllHandedOut(p, steps) + After(p, steps).queue
    decreases steps
  {
    if steps != [] {
      var step, q := steps[0], Do(p, steps[0]);
      TasksLeaveInOrder(q, steps[1..]);
      StepKeepsOrder(p, step);
      Chain(p.queue, TakenIn(p, step), HandedOut(p, step), q.queue,
            AllTakenIn(q, steps[1..]), AllHandedOut(q, steps[1..]), After(q, steps[1..]).queue);
    }
  }

  lemma Chain(was: seq<Task>, taken: seq<Task>, handed: seq<Task>, now: seq<Task>,
              moreTaken: seq<Task>, moreHanded: seq<Task>, last: seq<Task>)
    requires was + taken == handed + now && now + moreTaken == moreHanded + last
    ensures was + (taken + moreTaken) == handed + moreHanded + last
  {
    assert was + (taken + moreTaken) == (was + taken) + moreTaken;
    assert (handed + now) + moreTaken == handed + (now + moreTaken);
    assert handed + (moreHanded + last) == handed + moreHanded + last;
  }

  /** The capacities bound the thread count, and a running task has its thread. */
  predicate InRange(p: Pool) {
    0 <= p.core <= p.threads <= p.max && p.running <= p.threads
  }

  /** Every task node ever made is free, queued, with a running task, or with another pool. */
  predicate Stocked(p: Pool) {
    p.freeNodes + |p.queue| + p.running + p.others == p.made
  }

  /** The queue is at most one task longer than the threads are meant to carry. */
  predicate Bounded(p: Pool) {
    |p.queue| <= MAX_LOAD_PER_THREAD * p.threads + 1
  }

  /** The one step that can break that bound: growth is wanted and no thread comes, because
      the system cannot start one or the thread nodes are used up. */
  predicate FailedGrowth(p: Pool, step: Step) {
    step.Submit? && Accepts(p, step.task) && !Room(p) && !Grows(p, step)
  }

  predicate NoFailedGrowth(p: Pool, steps: seq<Step>)
    requires IsRun(p, steps)
    decreases steps
  {
    steps == [] || (!FailedGrowth(p, steps[0]) && NoFailedGrowth(Do(p, steps[0]), steps[1..]))
  }

  lemma StepBoundedIff(p: Pool, step: Step)
    requires InRange(p) && Bounded(p) && Enabled(p, step)
    ensures InRange(Do(p, step)) && (Bounded(Do(p, step)) <==> !FailedGrowth(p, step))
  {
  }

  /** Every reachable pool keeps its thread count between the capacities, and as long as
      wanted threads can be created, its queue within three tasks a thread and one more. */
  lemma {:induction false} RunKeepsBounds(p: Pool, steps: seq<Step>)
    requires InRange(p) && IsRun(p, steps)
    ensures InRange(After(p, steps))
    ensures Bounded(p) && NoFailedGrowth(p, steps) ==> Bounded(After(p, steps))
    decreases steps
  {
    if steps != [] {
      if Bounded(p) { StepBoundedIff(p, steps[0]); }
      assert InRange(Do(p, steps[0]));
      RunKeepsBounds(Do(p, steps[0]), steps[1..]);
    }
  }

  /** Conservation: in every run, failed growth included, no task node is lost or made up. */
  lemma {:induction false} RunKeepsStock(p: Pool, steps: seq<Step>)
    requires Stocked(p) && IsRun(p, steps)
    ensures Stocked(After(p, steps))
    decreases steps
  {
    if steps != [] { RunKeepsStock(Do(p, steps[0]), steps[1..]); }
  }

  /** So the stock bounds what a pool can hold, in every run. */
  lemma LoadFitsTheStock(p: Pool, steps: seq<Step>)
    requires Stocked(p) && IsRun(p, steps)
    ensures |After(p, steps).queue| + After(p, steps).running <= After(p, steps).made
  {
    RunKeepsStock(p, steps);
  }

  /** A well-formed task is refused exactly when the task nodes are used up, or all threads
      exist and the queue is at its limit. */
  lemma RefusedIff(p: Pool, task: Task)
    requires InRange(p) && Stocked(p) && task.callback != Nullptr
    ensures !Accepts(p, task) <==>
      || |p.queue| + p.running + p.others == p.made
      || (p.threads == p.max && |p.queue| > MAX_LOAD_PER_THREAD * p.max)
  {
  }

  function Repeat(step: Step, n: nat): seq<Step> {
    seq(n, _ => step)
  }

  /** The queue has room and no node is left. */
  predicate NodesRunOut(p: Pool) {
    Room(p) && p.freeNodes == 0
  }

  /** Only the core threads are there, and no task. */
  predicate Idle(p: Pool) {
    0 <= p.core == p.threads <= p.max && p.queue == [] && p.running == 0
  }

  /** A pool alone in its process, just built; its stocks are what its constructor brings. */
  function Fresh(core: nat, max: nat): Pool
    requires core <= max
  {
    var nodes := MAX_LOAD_PER_THREAD * (max + 1);
    Pool(core, max, core, [], 0, nodes, max + 1 - core, 0, nodes)
  }

  /** The most threads the pool can come to by itself. */
  function Reach(p: Pool): int {
    if p.threads + p.freeThreadNodes < p.max then p.threads + p.freeThreadNodes else p.max
  }

  /** Steps of the pool itself. */
  predicate Own(steps: seq<Step>) {
    forall k :: 0 <= k < |steps| ==> steps[k].Submit? || steps[k].Poll? || steps[k].Finish? || steps[k].Expire?
  }

  /** The task nodes the pool has or can still take. */
  function Nodes(p: Pool): nat {
    p.freeNodes + |p.queue| + p.running
  }

  /** A pool without a thread and with one node: it takes one task, and it cannot grow. */
  predicate Starved(p: Pool) {
    p.threads == 0 && Nodes(p) == 1
  }

  /** The pool's own steps neither bring nor lose a node, and never exceed its reach. */
  lemma {:induction false} OwnStepsConfine(p: Pool, steps: seq<Step>)
    requires InRange(p) && IsRun(p, steps) && Own(steps)
    ensures var q := After(p, steps); InRange(q) && Nodes(q) == Nodes(p) && Reach(q) <= Reach(p) && (Starved(p) ==> Starved(q))
    decreases steps
  {
    if steps != [] {
      var q := Do(p, steps[0]);
      assert InRange(q) && Nodes(q) == Nodes(p) && Reach(q) <= Reach(p) && (Starved(p) ==> Starved(q));
      OwnStepsConfine(q, steps[1..]);
    }
  }

  lemma {:induction false} RunConcat(p: Pool, steps: seq<Step>, more: seq<Step>)
    requires IsRun(p, steps) && IsRun(After(p, steps), more)
    ensures IsRun(p, steps + more) && After(p, steps + more) == After(After(p, steps), more)
    decreases steps
  {
    if steps == [] {
      assert steps + more == more;
    } else {
      RunConcat(Do(p, steps[0]), steps[1..], more);
      assert (steps + more)[1..] == steps[1..] + more;
    }
  }

  lemma {:induction false} SubmitMany(p: Pool, task: Task, n: nat)
    requires task.callback != Nullptr && n <= p.freeNodes && |p.queue| + n <= MAX_LOAD_PER_THREAD * p.threads + 1
    ensures var steps := Repeat(Submit(task, false), n);
      && IsRun(p, steps)
      && After(p, steps) == p.(queue := p.queue + seq(n, _ => task), freeNodes := p.freeNodes - n)
    decreases n
  {
    if n > 0 {
      var step := Submit(task, false);
      assert Repeat(step, n)[1..] == Repeat(step, n - 1);
      SubmitMany(Do(p, step), task, n - 1);
      assert p.queue + [task] + seq(n - 1, _ => task) == p.queue + seq(n, _ => task);
    } else {
      assert p.queue + seq(0, _ => task) == p.queue;
    }
  }

  lemma {:induction false} PollMany(p: Pool, n: nat)
    requires p.running + n <= p.threads && n <= |p.queue|
    ensures IsRun(p, Repeat(Poll, n))
    ensures After(p, Repeat(Poll, n)) == p.(queue := p.queue[n..], running := p.running + n)
    decreases n
  {
    if n > 0 {
      assert Repeat(Poll, n)[1..] == Repeat(Poll, n - 1);
      PollMany(Do(p, Poll), n - 1);
    }
  }

  /** With threads enough: fill the queue, let some threads take a task each, fill up again. */
  lemma NodesRunOutNow(p: Pool) returns (steps: seq<Step>)
    requires InRange(p) && p.running == 0 && Bounded(p) && Nodes(p) <= (MAX_LOAD_PER_THREAD + 1) * p.threads
    ensures IsRun(p, steps) && Own(steps) && NodesRunOut(After(p, steps))
  {
    var task, room := Task(Function(0), 0), MAX_LOAD_PER_THREAD * p.threads;
    var first := if room <= |p.queue| then 0 else if p.freeNodes <= room - |p.queue| then p.freeNodes else room - |p.queue|;
    var taken := if Nodes(p) <= room then 0 else Nodes(p) - room;
    SubmitMany(p, task, first);
    var filled := After(p, Repeat(Submit(task, false), first));
    PollMany(filled, taken);
    var polled := After(filled, Repeat(Poll, taken));
    SubmitMany(polled, task, polled.freeNodes);
    var refill := Repeat(Submit(task, false), polled.freeNodes);
    RunConcat(filled, Repeat(Poll, taken), refill);
    RunConcat(p, Repeat(Submit(task, false), first), Repeat(Poll, taken) + refill);
    steps := Repeat(Submit(task, false), first) + (Repeat(Poll, taken) + refill);
  }

  /** One more thread: fill the queue up to its limit, and submit another task. */
  lemma GrowOnce(p: Pool) returns (steps: seq<Step>)
    requires InRange(p) && p.running == 0 && Bounded(p) && p.threads < Reach(p)
    requires MAX_LOAD_PER_THREAD * p.threads + 2 <= Nodes(p)
    ensures IsRun(p, steps) && Own(steps)
    ensures var q := After(p, steps);
      && InRange(q) && q.running == 0 && Bounded(q) && q.threads == p.threads + 1 && q.max == p.max
      && Nodes(q) == Nodes(p) && Reach(q) == Reach(p)
  {
    var task, n := Task(Function(0), 0), MAX_LOAD_PER_THREAD * p.threads + 1 - |p.queue|;
    SubmitMany(p, task, n);
    var filled := After(p, Repeat(Submit(task, false), n));
    assert Grows(filled, Submit(task, true));
    assert [Submit(task, true)][1..] == [];
    RunConcat(p, Repeat(Submit(task, false), n), [Submit(task, true)]);
    steps := Repeat(Submit(task, false), n) + [Submit(task, true)];
  }

  /** Grow until the threads can use up the nodes, and use them up. */
  lemma {:induction false} NodesCanRunOut(p: Pool) returns (steps: seq<Step>)
    requires InRange(p) && p.running == 0 && Bounded(p) && Nodes(p) <= (MAX_LOAD_PER_THREAD + 1) * Reach(p) && !Starved(p)
    ensures IsRun(p, steps) && Own(steps) && NodesRunOut(After(p, steps))
    decreases p.max - p.threads
  {
    if Nodes(p) <= (MAX_LOAD_PER_THREAD + 1) * p.threads {
      steps := NodesRunOutNow(p);
    } else {
      var growth := GrowOnce(p);
      var more := NodesCanRunOut(After(p, growth));
      RunConcat(p, growth, more);
      steps := growth + more;
    }
  }

  /** Whatever its capacities and the stocks it finds, an idle pool can come to refuse a task
      for want of a node although its queue has room if and only if its threads can hold all
      nodes, one each beside a full queue; the exception is a pool without threads that finds
      a single node. */
  lemma NodesRunOutIff(p: Pool)
    requires Idle(p)
    ensures (exists steps :: IsRun(p, steps) && Own(steps) && NodesRunOut(After(p, steps)))
      <==> p.freeNodes <= (MAX_LOAD_PER_THREAD + 1) * Reach(p) && !(p.core == 0 && p.freeNodes == 1)
  {
    if p.freeNodes <= (MAX_LOAD_PER_THREAD + 1) * Reach(p) && !(p.core == 0 && p.freeNodes == 1) {
      var steps := NodesCanRunOut(p);
    }
    forall steps | IsRun(p, steps) && Own(steps) && NodesRunOut(After(p, steps))
      ensures p.freeNodes <= (MAX_LOAD_PER_THREAD + 1) * Reach(p) && !(p.core == 0 && p.freeNodes == 1)
    {
      OwnStepsConfine(p, steps);
    }
  }

  /** So a new pool alone in its process can come to that if and only if its maximum is at
      least three. */
  lemma NewPoolRunsOutIff(core: nat, max: nat)
    requires core <= max
    ensures (exists steps :: IsRun(Fresh(core, max), steps) && Own(steps) && NodesRunOut(After(Fresh(core, max), steps)))
      <==> 3 <= max
  {
    NodesRunOutIff(Fresh(core, max));
  }

  /** While threads below the maximum cannot be created, the branch that grows takes every
      task in whether or not a thread came, until the stock is empty: of `n` submissions
      exactly as many are taken in as there are free nodes. */
  lemma {:induction false} FailedGrowthFillsTheStock(p: Pool, task: Task, n: nat)
    requires !Room(p) && p.threads < p.max && task.callback != Nullptr
    ensures var steps := Repeat(Submit(task, false), n);
      && IsRun(p, steps) && After(p, steps).threads == p.threads
      && |After(p, steps).queue| == |p.queue| + if n <= p.freeNodes then n else p.freeNodes
    decreases n
  {
    if n > 0 {
      var step := Submit(task, false);
      assert Repeat(step, n)[1..] == Repeat(step, n - 1);
      if p.freeNodes > 0 {
        FailedGrowthFillsTheStock(Do(p, step), task, n - 1);
      } else {
        FailedGrowthFillsTheStock(p, task, n - 1);
      }
    }
  }

  /** The growths of a run and the thread nodes that other pools took and brought. */
  function Growths(p: Pool, steps: seq<Step>): nat
    requires IsRun(p, steps)
    decreases steps
  {
    if steps == [] then 0 else (if Grows(p, steps[0]) then 1 else 0) + Growths(Do(p, steps[0]), steps[1..])
  }

  function Brought(steps: seq<Step>): nat {
    if steps == [] then 0 else (if steps[0].OthersMake? then steps[0].capacity + 1 else 0) + Brought(steps[1..])
  }

  /** Thread nodes never come back while a pool lives, so the growths of all time are bounded
      by the nodes there were: a pool cannot grow and shrink for ever. */
  lemma {:induction false} GrowthsUseUpThreadNodes(p: Pool, steps: seq<Step>)
    requires IsRun(p, steps)
    ensures Growths(p, steps) + After(p, steps).freeThreadNodes <= p.freeThreadNodes + Brought(steps)
    decreases steps
  {
    if steps != [] { GrowthsUseUpThreadNodes(Do(p, steps[0]), steps[1..]); }
  }

  /** How many of the first `n` attempts succeeded. */
  function Count(started: int -> bool, n: int): (count: nat)
    ensures n <= 0 ==> count == 0
    ensures 0 < n ==> count <= n
  {
    if n <= 0 then 0 else Count(started, n - 1) + if started(n - 1) then 1 else 0
  }

  lemma {:induction false} CountIsCardinality(started: int -> bool, n: int)
    ensures Count(started, n) == |set i | 0 <= i < n && started(i)|
    decreases n
  {
    if n > 0 {
      CountIsCardinality(started, n - 1);
      var before, now := set i | 0 <= i < n - 1 && started(i), set i | 0 <= i < n && started(i);
      assert now == if started(n - 1) then before + {n - 1} else before;
    } else {
      assert (set i | 0 <= i < n && started(i)) == {};
    }
  }

  class TaskNode {
    var task: Task
    var next: TaskNode?

    constructor (task: Task)
      ensures this.task == task && next == null
    {
      this.task, next := task, null;
    }
  }

  class TaskQueue {
    var size: int
    var head: TaskNode?
    var tail: TaskNode?
    ghost var Nodes: seq<TaskNode>

    ghost predicate Linked(i: nat)
      requires i < |Nodes|
      reads this, Nodes
    {
      Nodes[i].next == if i + 1 < |Nodes| then Nodes[i + 1] else null
    }

    ghost predicate Valid()
      reads this, Nodes
    {
      && size == |Nodes|
      && head == (if Nodes == [] then null else Nodes[0])
      && tail == (if Nodes == [] then null else Nodes[|Nodes| - 1])
      && (forall i :: 0 <= i < |Nodes| ==> Linked(i))
      && forall i, j :: 0 <= i < j < |Nodes| ==> Nodes[i] != Nodes[j]
    }

    ghost function Tasks(): (tasks: seq<Task>)
      reads this, Nodes
    {
      seq(|Nodes|, i requires 0 <= i < |Nodes| reads this, Nodes => Nodes[i].task)
    }

    constructor ()
      ensures Valid() && Tasks() == [] && Nodes == []
    {
      size, head, tail, Nodes := 0, null, null, [];
    }

    method Add(taskNode: TaskNode?)
      requires Valid() && (taskNode != null ==> taskNode !in Nodes && taskNode.next == null)
      modifies this, Nodes
      ensures Valid() && Nodes == if taskNode == null then old(Nodes) else old(Nodes) + [taskNode]
      ensures Tasks() == if taskNode == null then old(Tasks()) else old(Tasks()) + [taskNode.task]
    {
      if taskNode == null { return; }
      if head == null {
        head := taskNode;
        tail := taskNode;
      } else {
        tail.next := taskNode;
        tail := tail.next;
      }
      size := size + 1;
      Nodes := Nodes + [taskNode];
      forall i | 0 <= i < |Nodes| ensures Linked(i) {
        if i + 1 < |old(Nodes)| { assert old(Linked(i)) && Nodes[i] != old(tail); }
      }
    }

    method Poll() returns (taskNode: TaskNode?)
      requires Valid()
      modifies this
      ensures Valid() && (taskNode == null <==> old(Nodes) == [])
      ensures taskNode == null ==> Nodes == old(Nodes)
      ensures taskNode != null ==> old(Nodes) == [taskNode] + Nodes && old(Tasks()) == [taskNode.task] + Tasks()
    {
      taskNode := null;
      if size > 0 {
        if head != null {
          assert Linked(0);
          taskNode := head;
          head := head.next;
          if head == null { tail := null; }
          size := size - 1;
          Nodes := Nodes[1..];
          assert forall i :: 0 <= i < |Nodes| ==> old(Linked(i + 1)) && Nodes[i] == old(Nodes)[i + 1];
        }
      }
    }
  }

  /** The free blocks of the two node types, shared by all pools of the process. */
  class NodeStocks {
    var taskNodes: nat
    var threadNodes: nat
    ghost var made: nat

    constructor ()
      ensures taskNodes == threadNodes == made == 0
    {
      taskNodes, threadNodes, made := 0, 0, 0;
    }

    /** The allocations of a pool of this capacity; none for a negative one. */
    method Provide(maxCapacity: int)
      modifies this
      ensures var extra := if maxCapacity < 0 then 0 else maxCapacity + 1;
        && threadNodes == old(threadNodes) + extra
        && taskNodes == old(taskNodes) + MAX_LOAD_PER_THREAD * extra
        && made == old(made) + MAX_LOAD_PER_THREAD * extra
    {
      if maxCapacity + 1 > 0 {
        threadNodes := threadNodes + (maxCapacity + 1);
        taskNodes := taskNodes + (maxCapacity + 1) * MAX_LOAD_PER_THREAD;
        made := made + (maxCapacity + 1) * MAX_LOAD_PER_THREAD;
      }
    }
  }

  class ThreadPool {
    var mDesiredPoolCapacity: int
    var mMaxPoolCapacity: int
    var mCurrentThreadsCount: int
    const mCurrentTasks: TaskQueue
    const stocks: NodeStocks
    /** Tasks handed to a thread whose node has not come back. */
    ghost var running: nat

    ghost predicate Valid()
      reads this, mCurrentTasks, mCurrentTasks.Nodes, stocks
    {
      mCurrentTasks.Valid() && stocks.taskNodes + |mCurrentTasks.Nodes| + running <= stocks.made
    }

    ghost function Abstract(): Pool
      requires Valid()
      reads this, mCurrentTasks, mCurrentTasks.Nodes, stocks
    {
      Pool(mDesiredPoolCapacity, mMaxPoolCapacity, mCurrentThreadsCount, mCurrentTasks.Tasks(), running,
           stocks.taskNodes, stocks.threadNodes,
           stocks.made - stocks.taskNodes - |mCurrentTasks.Nodes| - running, stocks.made)
    }

    /** `started` says which of the core threads could be created. The maximum is raised to
        the desired capacity, the node stocks grow by what the maximum calls for, and the
        core is the threads that really came up. */
    constructor (desiredCapacity: int, maxCapacity: int, started: int -> bool, stocks: NodeStocks)
      requires stocks.taskNodes <= stocks.made
      modifies stocks
      ensures Valid() && this.stocks == stocks && mCurrentTasks.Tasks() == [] && fresh(mCurrentTasks)
      ensures mMaxPoolCapacity == if maxCapacity < desiredCapacity then desiredCapacity else maxCapacity
      ensures mDesiredPoolCapacity == Count(started, desiredCapacity)
      ensures mDesiredPoolCapacity == mCurrentThreadsCount && running == 0
      ensures var extra := if mMaxPoolCapacity < 0 then 0 else mMaxPoolCapacity + 1;
        && stocks.made == old(stocks.made) + MAX_LOAD_PER_THREAD * extra
        && stocks.taskNodes == old(stocks.taskNodes) + MAX_LOAD_PER_THREAD * extra
        && stocks.threadNodes == old(stocks.threadNodes) + extra - mDesiredPoolCapacity
      ensures InRange(Abstract()) <==> 0 <= mMaxPoolCapacity
      ensures Bounded(Abstract()) && Stocked(Abstract())
      ensures 0 <= mMaxPoolCapacity ==> Idle(Abstract())
      ensures old(stocks.made) == 0 && old(stocks.threadNodes) == 0 && 0 <= mMaxPoolCapacity ==>
        Abstract() == Fresh(mDesiredPoolCapacity, mMaxPoolCapacity)
    {
      var max := if maxCapacity < desiredCapacity then desiredCapacity else maxCapacity;
      mMaxPoolCapacity := max;
      mCurrentTasks := new TaskQueue();
      this.stocks := stocks;
      running := 0;
      mCurrentThreadsCount, mDesiredPoolCapacity := 0, 0;
      new;
      stocks.Provide(max);
      var i := 0;
      while i < desiredCapacity
        invariant 0 <= i && (i <= desiredCapacity || i == 0)
        invariant mCurrentThreadsCount == Count(started, i)
        invariant stocks.threadNodes == old(stocks.threadNodes) + (if max < 0 then 0 else max + 1) - mCurrentThreadsCount
        modifies this`mCurrentThreadsCount, stocks`threadNodes
      {
        var added := AddNewThread(started(i));
        if added { mCurrentThreadsCount := mCurrentThreadsCount + 1; }
        i := i + 1;
      }
      mDesiredPoolCapacity := mCurrentThreadsCount;
    }

    /** A thread needs a node, which it keeps, and the system's consent. */
    method AddNewThread(started: bool) returns (added: bool)
      modifies stocks`threadNodes
      ensures added == (started && old(stocks.threadNodes) > 0)
      ensures stocks.threadNodes == if added then old(stocks.threadNodes) - 1 else old(stocks.threadNodes)
    {
      if stocks.threadNodes == 0 { return false; }
      stocks.threadNodes := stocks.threadNodes - 1;
      if !started {
        stocks.threadNodes := stocks.threadNodes + 1;
        return false;
      }
      return true;
    }

    /** Queue a task on a node from the stock. */
    method AddTask(taskCallback: Callback, args: int)
      requires Valid() && stocks.taskNodes > 0
      modifies mCurrentTasks, mCurrentTasks.Nodes, stocks`taskNodes
      ensures Valid() && mCurrentTasks.Tasks() == old(mCurrentTasks.Tasks()) + [Task(taskCallback, args)]
      ensures |mCurrentTasks.Nodes| == |old(mCurrentTasks.Nodes)| + 1 && stocks.taskNodes == old(stocks.taskNodes) - 1
      ensures fresh((set n | n in mCurrentTasks.Nodes) - old(set n | n in mCurrentTasks.Nodes))
    {
      stocks.taskNodes := stocks.taskNodes - 1;
      var taskNode := new TaskNode(Task(taskCallback, args));
      mCurrentTasks.Add(taskNode);
    }

    /** Submit a task; `started` says whether the system can start a thread. The answer is
        whether the task was taken in. */
    method EnqueueTask(taskCallback: Callback, args: int, started: bool) returns (accepted: bool)
      requires Valid()
      modifies this`mCurrentThreadsCount, mCurrentTasks, mCurrentTasks.Nodes, stocks`taskNodes, stocks`threadNodes
      ensures Valid() && fresh((set n | n in mCurrentTasks.Nodes) - old(set n | n in mCurrentTasks.Nodes))
      ensures Abstract() == Do(old(Abstract()), Submit(Task(taskCallback, args), started))
      ensures accepted == Accepts(old(Abstract()), Task(taskCallback, args))
    {
      if taskCallback == Nullptr { return false; }
      accepted := false;
      if mCurrentTasks.size <= MAX_LOAD_PER_THREAD * mCurrentThreadsCount {
        if stocks.taskNodes == 0 { return false; }
        AddTask(taskCallback, args);
        accepted := true;
      }
      if !accepted && mCurrentThreadsCount < mMaxPoolCapacity {
        if stocks.taskNodes == 0 { return false; }
        var added := AddNewThread(started);
        if added { mCurrentThreadsCount := mCurrentThreadsCount + 1; }
        AddTask(taskCallback, args);
        accepted := true;
      }
    }

    /** One pass of a thread through its routine, up to the call of the task: an added thread
        whose wait timed out leaves, any other takes the head of the queue. A core thread
        waits on the condition until there is a task. */
    method ThreadRoutineHelper(isCoreThread: bool) returns (leave: bool, task: seq<Task>)
      requires Valid() && (isCoreThread ==> Abstract().queue != [])
      requires running < mCurrentThreadsCount && (!isCoreThread ==> mDesiredPoolCapacity < mCurrentThreadsCount)
      modifies this`mCurrentThreadsCount, this`running, mCurrentTasks
      ensures Valid() && leave == (old(Abstract()).queue == [])
      ensures var step := if leave then Expire else Poll;
        Enabled(old(Abstract()), step) && Abstract() == Do(old(Abstract()), step)
      ensures task == if leave then [] else HandedOut(old(Abstract()), Poll)
    {
      task := [];
      if mCurrentTasks.size == 0 {
        if !isCoreThread {
          mCurrentThreadsCount := mCurrentThreadsCount - 1;
          return true, [];
        }
      }
      if mCurrentTasks.size > 0 {
        var taskNode := mCurrentTasks.Poll();
        if taskNode != null {
          task := [taskNode.task];
          running := running + 1;
        }
      }
      return false, task;
    }

    /** The task is done and its node goes back to the stock. */
    method FinishTask()
      requires Valid() && 0 < running
      modifies this`running, stocks`taskNodes
      ensures Valid() && Abstract() == Do(old(Abstract()), Finish)
    {
      running := running - 1;
      stocks.taskNodes := stocks.taskNodes + 1;
    }
  }
}
