/**
 Do tasks begin in the order in which they were delivered?  Between the delivery and the begin of a
 task its worker may be overtaken, so they do exactly when there is nobody to overtake it.
 */
module BeginOrder {
  import opened Wrappers
  import opened Queue
  import opened Pool
  import opened Runner

  /** The workers that the pools will have together. */
  function Capacity(nodes: seq<Node>): nat {
    if nodes == [] then 0 else nodes[0].concurrency + Capacity(nodes[1..])
  }

  predicate InOrder(begins: seq<Receipt>) {
    forall i, j | 0 <= i < j < |begins| :: begins[i].entry < begins[j].entry
  }

  /** A run of these pools, none of which has been started. */
  ghost predicate IsRunOf(run: seq<State>, nodes: seq<Node>) {
    IsRun(run) && run[0].nodes == nodes
  }

  // ---------- the workers ----------

  /** There is room for worker `w` on node `n`. */
  predicate IsSlot(nodes: seq<Node>, n: nat, w: nat) {
    n < |nodes| && w < nodes[n].concurrency
  }

  lemma {:induction false} CapacityAt(nodes: seq<Node>, n: nat)
    requires n < |nodes|
    ensures nodes[n].concurrency <= Capacity(nodes)
  {
    if n > 0 {
      CapacityAt(nodes[1..], n - 1);
    }
  }

  lemma {:induction false} CapacityOfTwo(nodes: seq<Node>, n: nat, m: nat)
    requires n < m < |nodes|
    ensures nodes[n].concurrency + nodes[m].concurrency <= Capacity(nodes)
  {
    if n == 0 {
      CapacityAt(nodes[1..], m - 1);
    } else {
      CapacityOfTwo(nodes[1..], n - 1, m - 1);
    }
  }

  /** With a capacity of one there is one slot. */
  lemma OneSlot(nodes: seq<Node>, n: nat, w: nat, m: nat, v: nat)
    requires Capacity(nodes) <= 1 && IsSlot(nodes, n, w) && IsSlot(nodes, m, v)
    ensures n == m && w == v
  {
    if n < m {
      CapacityOfTwo(nodes, n, m);
    } else if m < n {
      CapacityOfTwo(nodes, m, n);
    } else {
      CapacityAt(nodes, n);
    }
  }

  lemma {:induction false} FirstSlot(nodes: seq<Node>) returns (n: nat)
    requires Capacity(nodes) >= 1
    ensures IsSlot(nodes, n, 0) && nodes[n].concurrency + Capacity(nodes[n + 1..]) == Capacity(nodes)
  {
    if nodes[0].concurrency > 0 {
      n := 0;
    } else {
      var k := FirstSlot(nodes[1..]);
      n := k + 1;
      assert nodes[1..][k + 1..] == nodes[n + 1..];
    }
  }

  /** With more there are two, the second worker of a node or the first ones of two nodes. */
  lemma TwoSlots(nodes: seq<Node>) returns (n: nat, m: nat, v: nat)
    requires Capacity(nodes) >= 2
    ensures IsSlot(nodes, n, 0) && IsSlot(nodes, m, v) && (if n == m then v == 1 else v == 0)
  {
    n := FirstSlot(nodes);
    if nodes[n].concurrency >= 2 {
      m, v := n, 1;
    } else {
      var k := FirstSlot(nodes[n + 1..]);
      m, v := n + 1 + k, 0;
    }
  }

  // ---------- one worker ----------

  /** The pools have the slots that they had at the start. */
  predicate SameSlots(s: State, nodes: seq<Node>) {
    |s.nodes| == |nodes| && forall n | 0 <= n < |nodes| :: s.nodes[n].concurrency == nodes[n].concurrency
  }

  lemma SlotsKeep(s: State, step: Step, nodes: seq<Node>)
    requires Enabled(s, step) && SameSlots(s, nodes)
    ensures SameSlots(Apply(s, step), nodes)
  {
  }

  /** Begun so far in order, and what is held comes after all that has begun. */
  ghost predicate OrderOk(s: State) {
    InOrder(s.begins) && forall e <- s.held, b <- s.begins :: b.entry < e
  }

  /** The entry that a worker holds is the only one held. */
  lemma OneHolds(s: State, nodes: seq<Node>, n: nat, w: nat, e: nat)
    requires Inv(s) && SameSlots(s, nodes) && Capacity(nodes) <= 1
    requires Has(s, n, w, false) && e in s.held
    ensures e == s.nodes[n].workers[w].entry
  {
    var m, v := s.held[e].0, s.held[e].1;
    assert Works(s, m, v, e, false);
    assert s.nodes[m] in s.nodes && s.nodes[n] in s.nodes;
    OneSlot(nodes, n, w, m, v);
  }

  lemma OrderKeeps(s: State, step: Step, nodes: seq<Node>)
    requires Inv(s) && Enabled(s, step) && SameSlots(s, nodes) && Capacity(nodes) <= 1 && OrderOk(s)
    ensures OrderOk(Apply(s, step))
  {
    if step.BeginTask? {
      BeginKeepsOrder(s, step.n, step.w, nodes);
    } else if step.Deliver? {
      DeliverKeepsOrder(s, step.n, step.w);
    } else {
      OthersRecordNothing(s, step);
      OthersDeliverNothing(s, step);
      assert Apply(s, step).held.Keys <= s.held.Keys;
    }
  }

  lemma BeginKeepsOrder(s: State, n: nat, w: nat, nodes: seq<Node>)
    requires Inv(s) && Enabled(s, BeginTask(n, w)) && SameSlots(s, nodes) && Capacity(nodes) <= 1 && OrderOk(s)
    ensures OrderOk(Apply(s, BeginTask(n, w)))
  {
    var s', e := Apply(s, BeginTask(n, w)), s.nodes[n].workers[w].entry;
    HasIsTracked(s, n, w, false);
    forall f <- s'.held ensures false {
      OneHolds(s, nodes, n, w, f);
    }
    assert s'.begins == s.begins + [Receipt(e, n, w)];
    forall i | 0 <= i < |s.begins| ensures s.begins[i].entry < e {
      assert s.begins[i] in s.begins;
    }
  }

  lemma DeliverKeepsOrder(s: State, n: nat, w: nat)
    requires Inv(s) && Enabled(s, Deliver(n, w)) && OrderOk(s)
    ensures OrderOk(Apply(s, Deliver(n, w)))
  {
    var s' := Apply(s, Deliver(n, w));
    assert s'.begins == s.begins && s'.held.Keys == s.held.Keys + {s.stream.cursor};
  }

  lemma {:induction false} OneWorkerKeepsOrder(run: seq<State>, nodes: seq<Node>, i: nat)
    requires IsRunOf(run, nodes) && Capacity(nodes) <= 1 && i < |run|
    ensures SameSlots(run[i], nodes) && OrderOk(run[i])
  {
    if i > 0 {
      OneWorkerKeepsOrder(run, nodes, i - 1);
      RunKeeps(run, i - 1);
      assert Next(run[i - 1], run[i - 1 + 1]);
      var step :| Enabled(run[i - 1], step) && run[i] == Apply(run[i - 1], step);
      SlotsKeep(run[i - 1], step, nodes);
      OrderKeeps(run[i - 1], step, nodes);
    }
  }

  // ---------- two workers ----------

  lemma Extend(run: seq<State>, nodes: seq<Node>, step: Step) returns (longer: seq<State>)
    requires IsRunOf(run, nodes) && Enabled(run[|run| - 1], step)
    ensures IsRunOf(longer, nodes) && longer[|longer| - 1] == Apply(run[|run| - 1], step)
  {
    longer := run + [Apply(run[|run| - 1], step)];
    forall i | 0 <= i < |longer| - 1 ensures Next(longer[i], longer[i + 1]) {
      if i < |run| - 1 {
        assert Next(run[i], run[i + 1]);
      }
    }
  }

  /** Two queued tasks that no worker has seen. */
  predicate IsQueued(s: State, a: Entry, b: Entry) {
    s == State(Stream([a, b], 0, {}), s.nodes, map[], map[], {}, {}, {}, {}, [], [], [])
  }

  lemma Queued(nodes: seq<Node>, a: Entry, b: Entry) returns (run: seq<State>)
    requires (forall node <- nodes :: IsNew(node)) && a.streamId != b.streamId
    ensures IsRunOf(run, nodes) && IsQueued(run[|run| - 1], a, b) && run[|run| - 1].nodes == nodes
  {
    run := [State(EMPTY, nodes, map[], map[], {}, {}, {}, {}, [], [], [])];
    run := Extend(run, nodes, Produce(a));
    run := Extend(run, nodes, Produce(b));
  }

  /** The worker is there in this phase, and its pool is neither shutting down nor cancelled. */
  predicate Ready(s: State, n: nat, w: nat, phase: Phase) {
    IsWorker(s, n, w, phase) && s.nodes[n].shutdown == Idle && !s.nodes[n].cancelled
  }

  /** Starting a pool's next worker. */
  lemma Spawned(run: seq<State>, nodes: seq<Node>, n: nat) returns (longer: seq<State>)
    requires IsRunOf(run, nodes) && n < |run[|run| - 1].nodes|
    requires var node := run[|run| - 1].nodes[n];
             node.start in {NotStarted, Spawning} && |node.workers| < node.concurrency
    ensures IsRunOf(longer, nodes)
    ensures var s := run[|run| - 1];
            var node := s.nodes[n];
            longer[|longer| - 1] == SetNode(s, n, node.(start := Spawning, wg := node.wg + 1,
                                                        workers := node.workers + [Checking]))
  {
    longer := Extend(run, nodes, StartAdd(n));
    longer := Extend(longer, nodes, StartGo(n));
    var s := run[|run| - 1];
    var node := s.nodes[n];
    assert s.nodes[n := node.(start := Added, wg := node.wg + 1)]
                  [n := node.(start := Spawning, wg := node.wg + 1, workers := node.workers + [Checking])]
        == s.nodes[n := node.(start := Spawning, wg := node.wg + 1, workers := node.workers + [Checking])];
  }

  lemma BothReady(nodes: seq<Node>, a: Entry, b: Entry, n: nat, m: nat, v: nat) returns (run: seq<State>)
    requires (forall node <- nodes :: IsNew(node)) && a.streamId != b.streamId
    requires IsSlot(nodes, n, 0) && IsSlot(nodes, m, v) && (if n == m then v == 1 else v == 0)
    ensures IsRunOf(run, nodes)
    ensures var s := run[|run| - 1]; IsQueued(s, a, b) && Ready(s, n, 0, Checking) && Ready(s, m, v, Checking)
  {
    run := Queued(nodes, a, b);
    assert nodes[n] in nodes && nodes[m] in nodes;
    run := Spawned(run, nodes, n);
    run := Spawned(run, nodes, m);
  }

  /** A step that takes a worker towards its next task leaves the other one alone. */
  lemma Takes(s: State, step: Step, m: nat, v: nat, phase: Phase)
    requires Enabled(s, step) && (step.Pass? || step.Deliver? || step.BeginTask?)
    requires Ready(s, m, v, phase) && !(step.n == m && step.w == v)
    requires s.nodes[step.n].shutdown == Idle && !s.nodes[step.n].cancelled
    ensures Ready(Apply(s, step), m, v, phase)
    ensures Ready(Apply(s, step), step.n, step.w, PhaseAfter(s, step))
  {
    WorkMoves(s, step);
    assert IsWorker(Apply(s, step), m, v, phase);
    assert IsWorker(Apply(s, step), step.n, step.w, PhaseAfter(s, step));
  }

  /** The task of entry `e` is delivered to the worker. */
  lemma Gets(run: seq<State>, nodes: seq<Node>, n: nat, w: nat, m: nat, v: nat, phase: Phase) returns (longer: seq<State>)
    requires IsRunOf(run, nodes) && !(n == m && w == v)
    requires var s := run[|run| - 1]; Ready(s, n, w, Checking) && Ready(s, m, v, phase) && HasNext(s.stream)
    ensures IsRunOf(longer, nodes)
    ensures var s, s' := run[|run| - 1], longer[|longer| - 1];
            && Ready(s', n, w, Holding(s.stream.cursor)) && Ready(s', m, v, phase)
            && s'.stream == Queue.Deliver(s.stream) && s'.begins == s.begins
            && s'.deliveries == s.deliveries + [Receipt(s.stream.cursor, n, w)]
  {
    Takes(run[|run| - 1], Pass(n, w), m, v, phase);
    longer := Extend(run, nodes, Pass(n, w));
    Takes(longer[|longer| - 1], Deliver(n, w), m, v, phase);
    longer := Extend(longer, nodes, Deliver(n, w));
  }

  /** The worker begins the task that it holds. */
  lemma Begin(run: seq<State>, nodes: seq<Node>, n: nat, w: nat, e: nat, m: nat, v: nat, phase: Phase)
    returns (longer: seq<State>)
    requires IsRunOf(run, nodes) && !(n == m && w == v)
    requires var s := run[|run| - 1];
             && Ready(s, n, w, Holding(e)) && Ready(s, m, v, phase)
             && e < |s.stream.log| && s.stream.log[e].task.Some?
    ensures IsRunOf(longer, nodes)
    ensures var s, s' := run[|run| - 1], longer[|longer| - 1];
            && Ready(s', n, w, Processing(e)) && Ready(s', m, v, phase)
            && s'.stream == s.stream && s'.deliveries == s.deliveries
            && s'.begins == s.begins + [Receipt(e, n, w)]
  {
    Takes(run[|run| - 1], BeginTask(n, w), m, v, phase);
    longer := Extend(run, nodes, BeginTask(n, w));
  }

  /**
   Whenever there are two workers, for any two tasks there is a run in which they are delivered in
   order and begin in the other.
   */
  lemma BeginsOutOfOrder(nodes: seq<Node>, a: Entry, b: Entry) returns (run: seq<State>)
    requires (forall node <- nodes :: IsNew(node)) && Capacity(nodes) >= 2
    requires a.task.Some? && b.task.Some? && a.streamId != b.streamId
    ensures IsRunOf(run, nodes)
    ensures var s := run[|run| - 1];
            && s.stream.log == [a, b] && |s.deliveries| == 2 == |s.begins|
            && s.deliveries[0].entry == 0 && s.deliveries[1].entry == 1
            && s.begins == [s.deliveries[1], s.deliveries[0]]
  {
    var n, m, v := TwoSlots(nodes);
    run := BothReady(nodes, a, b, n, m, v);
    run := Gets(run, nodes, n, 0, m, v, Checking);
    run := Gets(run, nodes, m, v, n, 0, Holding(0));
    run := Begin(run, nodes, m, v, 1, n, 0, Holding(0));
    run := Begin(run, nodes, n, 0, 0, m, v, Processing(1));
  }

  /**
   In every run of some pools, started anew, tasks begin in the order in which they were delivered,
   if and only if the pools are configured with at most one worker between them.
   */
  lemma BeginsInOrderIff(nodes: seq<Node>)
    requires forall node <- nodes :: IsNew(node)
    ensures (forall run: seq<State> | IsRunOf(run, nodes) :: InOrder(run[|run| - 1].begins)) <==> Capacity(nodes) <= 1
  {
    if Capacity(nodes) <= 1 {
      forall run: seq<State> | IsRunOf(run, nodes) ensures InOrder(run[|run| - 1].begins) {
        OneWorkerKeepsOrder(run, nodes, |run| - 1);
      }
    } else {
      var task := Task("", "", Unset, 0, "");
      var run := BeginsOutOfOrder(nodes, Entry("1", Some(task)), Entry("2", Some(task)));
      var s := run[|run| - 1];
      assert s.begins[0].entry == 1 && s.begins[1].entry == 0;
      assert !InOrder(s.begins);
    }
  }
}
