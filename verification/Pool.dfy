/**
 Worker pools on any number of nodes sharing one queue, step by step: `Start`, `runWorker`,
 `processTask` and one `Shutdown` per pool interleave freely.

 A `WaitGroup` is a counter whose `Wait` returns in a state where the counter is zero.
 */
module Pool {
  import opened Wrappers
  import opened Queue

  /**
   Where a worker is: at the select, inside `Dequeue` before Redis has answered, with an entry that
   Redis has handed to it but `processTask` has not got, inside `processTask`, or gone.
   */
  datatype Phase = Checking | Dequeuing | Holding(entry: nat) | Processing(entry: nat) | Exited

  /** Where `Start` is: `Added` is between `wg.Add` and the `go` statement. */
  datatype StartPhase = NotStarted | Spawning | Added | Waiting | Returned

  /** Where `Shutdown` is: `quit` is closed from `Closing` on, `done` from `Drained` on. */
  datatype ShutdownPhase = Idle | Closing | Drained | ReturnedNil | TimedOut

  /** One pool; `late` are the workers that began a task after `quit` was closed. */
  datatype Node = Node(concurrency: nat, workers: seq<Phase>, wg: int, start: StartPhase, shutdown: ShutdownPhase,
                       cancelled: bool, late: set<nat>)

  predicate IsNew(node: Node) {
    node == Node(node.concurrency, [], 0, NotStarted, Idle, false, {})
  }

  predicate QuitClosed(node: Node) {
    node.shutdown != Idle
  }

  /** An entry and the worker that got it, from Redis or into `processTask`. */
  datatype Receipt = Receipt(entry: nat, node: nat, worker: nat)

  /** An acknowledgement that Redis executed: the ID, the entry completed, and the cursor at that time. */
  datatype AckRecord = AckRecord(id: string, entry: nat, at: nat)

  /**
   `held` and `running` are the entries that a worker has, before and inside `processTask`;
   the sets are the fates of the others, and `deliveries`, `begins` and `acks` the history.
   */
  datatype State = State(stream: Stream, nodes: seq<Node>, held: map<nat, (nat, nat)>, running: map<nat, (nat, nat)>,
                         acked: set<nat>, nacked: set<nat>, undecodable: set<nat>, lost: set<nat>,
                         deliveries: seq<Receipt>, begins: seq<Receipt>, acks: seq<AckRecord>)

  predicate IsStart(s: State) {
    && s == State(EMPTY, s.nodes, map[], map[], {}, {}, {}, {}, [], [], [])
    && forall node <- s.nodes :: IsNew(node)
  }

  // ---------- steps ----------

  /** `reached` says whether the acknowledgement of a completed task gets to Redis; the code ignores when not. */
  datatype Step =
    | Produce(e: Entry)
    | StartAdd(n: nat)
    | StartGo(n: nat)
    | StartWait(n: nat)
    | StartReturn(n: nat)
    | CloseQuit(n: nat)
    | WaitDone(n: nat)
    | ReturnNil(n: nat)
    | TimeOut(n: nat)
    | CancelCtx(n: nat)
    | Pass(n: nat, w: nat)
    | Exit(n: nat, w: nat)
    | NoTask(n: nat, w: nat)
    | Deliver(n: nat, w: nat)
    | LoseReply(n: nat, w: nat)
    | Reject(n: nat, w: nat)
    | BeginTask(n: nat, w: nat)
    | Complete(n: nat, w: nat, ok: bool, reached: bool)

  predicate IsWorker(s: State, n: nat, w: nat, phase: Phase) {
    n < |s.nodes| && w < |s.nodes[n].workers| && s.nodes[n].workers[w] == phase
  }

  /** The worker has an entry, in this phase; `begun` once `processTask` has it. */
  predicate Has(s: State, n: nat, w: nat, begun: bool) {
    && n < |s.nodes| && w < |s.nodes[n].workers|
    && (var phase := s.nodes[n].workers[w];
        if begun then phase.Processing? && phase.entry < |s.stream.log| else phase.Holding? && phase.entry < |s.stream.log|)
  }

  /** Redis gives every entry a stream ID of its own. */
  predicate Enabled(s: State, step: Step) {
    match step
    case Produce(e) => forall f <- s.stream.log :: f.streamId != e.streamId
    case StartAdd(n) =>
      n < |s.nodes| && s.nodes[n].start in {NotStarted, Spawning} && |s.nodes[n].workers| < s.nodes[n].concurrency
    case StartGo(n) => n < |s.nodes| && s.nodes[n].start == Added
    case StartWait(n) =>
      n < |s.nodes| && s.nodes[n].start in {NotStarted, Spawning} && |s.nodes[n].workers| == s.nodes[n].concurrency
    case StartReturn(n) => n < |s.nodes| && s.nodes[n].start == Waiting && s.nodes[n].wg == 0
    case CloseQuit(n) => n < |s.nodes| && s.nodes[n].shutdown == Idle
    case WaitDone(n) => n < |s.nodes| && s.nodes[n].shutdown == Closing && s.nodes[n].wg == 0
    case ReturnNil(n) => n < |s.nodes| && s.nodes[n].shutdown == Drained
    case TimeOut(n) => n < |s.nodes| && s.nodes[n].shutdown in {Closing, Drained}
    case CancelCtx(n) => n < |s.nodes|
    // the select's default is taken only when neither quit nor the context is ready
    case Pass(n, w) => IsWorker(s, n, w, Checking) && !QuitClosed(s.nodes[n]) && !s.nodes[n].cancelled
    case Exit(n, w) => IsWorker(s, n, w, Checking) && (QuitClosed(s.nodes[n]) || s.nodes[n].cancelled)
    case NoTask(n, w) => IsWorker(s, n, w, Dequeuing)
    case Deliver(n, w) => IsWorker(s, n, w, Dequeuing) && HasNext(s.stream)
    case LoseReply(n, w) => Has(s, n, w, false)
    case Reject(n, w) => Has(s, n, w, false) && s.stream.log[s.nodes[n].workers[w].entry].task.None?
    case BeginTask(n, w) => Has(s, n, w, false) && s.stream.log[s.nodes[n].workers[w].entry].task.Some?
    case Complete(n, w, _, _) => Has(s, n, w, true) && s.stream.log[s.nodes[n].workers[w].entry].task.Some?
  }

  function SetNode(s: State, n: nat, node: Node): State
    requires n < |s.nodes|
  {
    s.(nodes := s.nodes[n := node])
  }

  function SetWorker(s: State, n: nat, w: nat, phase: Phase): State
    requires n < |s.nodes| && w < |s.nodes[n].workers|
  {
    SetNode(s, n, s.nodes[n].(workers := s.nodes[n].workers[w := phase]))
  }

  function Apply(s: State, step: Step): State
    requires Enabled(s, step)
  {
    match step
    case Produce(e) => s.(stream := Append(s.stream, e))
    case StartAdd(n) => SetNode(s, n, s.nodes[n].(start := Added, wg := s.nodes[n].wg + 1))
    case StartGo(n) => SetNode(s, n, s.nodes[n].(start := Spawning, workers := s.nodes[n].workers + [Checking]))
    case StartWait(n) => SetNode(s, n, s.nodes[n].(start := Waiting))
    case StartReturn(n) => SetNode(s, n, s.nodes[n].(start := Returned))
    case CloseQuit(n) => SetNode(s, n, s.nodes[n].(shutdown := Closing))
    case WaitDone(n) => SetNode(s, n, s.nodes[n].(shutdown := Drained))
    case ReturnNil(n) => SetNode(s, n, s.nodes[n].(shutdown := ReturnedNil))
    case TimeOut(n) => SetNode(s, n, s.nodes[n].(shutdown := TimedOut))
    case CancelCtx(n) => SetNode(s, n, s.nodes[n].(cancelled := true))
    case Pass(n, w) => SetWorker(s, n, w, Dequeuing)
    case Exit(n, w) =>
      SetNode(s, n, s.nodes[n].(workers := s.nodes[n].workers[w := Exited], wg := s.nodes[n].wg - 1))
    case NoTask(n, w) => SetWorker(s, n, w, Checking)
    case Deliver(n, w) =>
      var e := s.stream.cursor;
      SetWorker(s, n, w, Holding(e)).(
        stream := Queue.Deliver(s.stream), held := s.held[e := (n, w)], deliveries := s.deliveries + [Receipt(e, n, w)])
    case LoseReply(n, w) =>
      var e := s.nodes[n].workers[w].entry;
      SetWorker(s, n, w, Checking).(held := s.held - {e}, lost := s.lost + {e})
    case Reject(n, w) =>
      var e := s.nodes[n].workers[w].entry;
      SetWorker(s, n, w, Checking).(held := s.held - {e}, undecodable := s.undecodable + {e})
    case BeginTask(n, w) =>
      var e := s.nodes[n].workers[w].entry;
      SetNode(s, n, BeginOn(s.nodes[n], w, e)).(
        held := s.held - {e}, running := s.running[e := (n, w)], begins := s.begins + [Receipt(e, n, w)])
    case Complete(n, w, ok, reached) =>
      var e := s.nodes[n].workers[w].entry;
      var s' := SetWorker(s, n, w, Checking).(running := s.running - {e});
      if !ok then s'.(nacked := s.nacked + {e})
      else if !reached then s'.(acked := s.acked + {e})
      else
        var id := s.stream.log[e].task.value.id;
        s'.(acked := s.acked + {e}, stream := XAck(s.stream, id), acks := s.acks + [AckRecord(id, e, s.stream.cursor)])
  }

  function BeginOn(node: Node, w: nat, e: nat): Node
    requires w < |node.workers|
  {
    var node' := node.(workers := node.workers[w := Processing(e)]);
    if QuitClosed(node) then node'.(late := node.late + {w}) else node'
  }

  ghost predicate Next(s: State, s': State) {
    exists step :: Enabled(s, step) && s' == Apply(s, step)
  }

  ghost predicate IsRun(run: seq<State>) {
    run != [] && IsStart(run[0]) && forall i | 0 <= i < |run| - 1 :: Next(run[i], run[i + 1])
  }

  // ---------- the wait group counts the workers alive ----------

  function Live(workers: seq<Phase>): nat {
    if workers == [] then 0 else (if workers[0] == Exited then 0 else 1) + Live(workers[1..])
  }

  lemma {:induction false} LiveAppend(workers: seq<Phase>, phase: Phase)
    ensures Live(workers + [phase]) == Live(workers) + if phase == Exited then 0 else 1
  {
    if workers == [] {
      assert workers + [phase] == [phase] && [phase][1..] == [];
    } else {
      assert (workers + [phase])[1..] == workers[1..] + [phase];
      LiveAppend(workers[1..], phase);
    }
  }

  lemma {:induction false} LiveUpdate(workers: seq<Phase>, w: nat, phase: Phase)
    requires w < |workers|
    ensures Live(workers[w := phase])
         == Live(workers) - (if workers[w] == Exited then 0 else 1) + (if phase == Exited then 0 else 1)
  {
    if w == 0 {
      assert workers[0 := phase][1..] == workers[1..];
    } else {
      assert workers[w := phase][1..] == workers[1..][w - 1 := phase];
      LiveUpdate(workers[1..], w - 1, phase);
    }
  }

  lemma {:induction false} LiveZero(workers: seq<Phase>, w: nat)
    requires Live(workers) == 0 && w < |workers|
    ensures workers[w] == Exited
  {
    if w > 0 {
      LiveZero(workers[1..], w - 1);
    }
  }

  // ---------- the invariant of one pool ----------

  predicate Busy(phase: Phase) {
    phase == Dequeuing || phase.Holding? || phase.Processing?
  }

  ghost predicate NodeOk(node: Node) {
    && |node.workers| <= node.concurrency
    && (node.start == NotStarted ==> node.workers == [])
    && (node.start == Added ==> |node.workers| < node.concurrency)
    && node.wg == Live(node.workers) + (if node.start == Added then 1 else 0)
    && (node.shutdown in {Drained, ReturnedNil} ==> forall phase <- node.workers :: !Busy(phase))
    && (forall w <- node.late :: w < |node.workers| && node.workers[w] != Dequeuing && !node.workers[w].Holding?)
    && (!QuitClosed(node) ==> node.late == {})
  }

  lemma LateBound(node: Node)
    requires NodeOk(node)
    ensures |node.late| <= node.concurrency
  {
    SizeBelow(node.late, |node.workers|);
  }

  lemma {:induction false} SizeBelow(a: set<nat>, n: nat)
    requires forall x <- a :: x < n
    ensures |a| <= n
  {
    if n > 0 {
      SizeBelow(a - {n - 1}, n - 1);
    }
  }

  /** A live worker that moves on keeps the invariant, under the guards of the code. */
  lemma MoveKeeps(node: Node, w: nat, phase: Phase)
    requires NodeOk(node) && w < |node.workers| && node.workers[w] != Exited && phase != Exited
    requires Busy(phase) ==> node.shutdown !in {Drained, ReturnedNil}
    requires phase == Dequeuing ==> !QuitClosed(node)
    requires phase.Holding? ==> node.workers[w] == Dequeuing
    ensures NodeOk(node.(workers := node.workers[w := phase]))
  {
    LiveUpdate(node.workers, w, phase);
  }

  lemma ExitKeeps(node: Node, w: nat)
    requires NodeOk(node) && w < |node.workers| && node.workers[w] == Checking
    ensures NodeOk(node.(workers := node.workers[w := Exited], wg := node.wg - 1))
  {
    LiveUpdate(node.workers, w, Exited);
  }

  lemma BeginKeeps(node: Node, w: nat, e: nat)
    requires NodeOk(node) && w < |node.workers| && node.workers[w].Holding?
    ensures NodeOk(BeginOn(node, w, e))
    ensures QuitClosed(node) ==> w !in node.late
  {
    assert node.workers[w] in node.workers;
    MoveKeeps(node, w, Processing(e));
  }

  /** A wait group at zero: every worker that was spawned has exited. */
  lemma DrainKeeps(node: Node)
    requires NodeOk(node) && node.wg == 0
    ensures NodeOk(node.(shutdown := Drained))
  {
    forall w | 0 <= w < |node.workers| ensures node.workers[w] == Exited {
      LiveZero(node.workers, w);
    }
  }

  lemma SpawnKeeps(node: Node)
    requires NodeOk(node) && node.start == Added
    ensures NodeOk(node.(start := Spawning, workers := node.workers + [Checking]))
  {
    LiveAppend(node.workers, Checking);
  }

  /** The steps of `Start` and `Shutdown`. */
  lemma LifecycleKeeps(s: State, step: Step, n: nat)
    requires Enabled(s, step) && n < |s.nodes| && NodeOk(s.nodes[n])
    requires step in {StartAdd(n), StartGo(n), StartWait(n), StartReturn(n), CloseQuit(n), WaitDone(n), ReturnNil(n),
                      TimeOut(n), CancelCtx(n)}
    ensures NodeOk(Apply(s, step).nodes[n])
  {
    match step
    case StartGo(_) => SpawnKeeps(s.nodes[n]);
    case WaitDone(_) => DrainKeeps(s.nodes[n]);
    case _ =>
  }

  /** The node a step belongs to. */
  function NodeOf(step: Step): Option<nat> {
    match step
    case Produce(_) => None
    case StartAdd(n) => Some(n)
    case StartGo(n) => Some(n)
    case StartWait(n) => Some(n)
    case StartReturn(n) => Some(n)
    case CloseQuit(n) => Some(n)
    case WaitDone(n) => Some(n)
    case ReturnNil(n) => Some(n)
    case TimeOut(n) => Some(n)
    case CancelCtx(n) => Some(n)
    case Pass(n, _) => Some(n)
    case Exit(n, _) => Some(n)
    case NoTask(n, _) => Some(n)
    case Deliver(n, _) => Some(n)
    case LoseReply(n, _) => Some(n)
    case Reject(n, _) => Some(n)
    case BeginTask(n, _) => Some(n)
    case Complete(n, _, _, _) => Some(n)
  }

  lemma OtherNodesUntouched(s: State, step: Step, n: nat)
    requires Enabled(s, step) && n < |s.nodes| && NodeOf(step) != Some(n)
    ensures |Apply(s, step).nodes| == |s.nodes| && Apply(s, step).nodes[n] == s.nodes[n]
  {
  }

  /** A worker's step. */
  predicate IsWork(step: Step) {
    || step.Pass? || step.Exit? || step.NoTask?
    || step.Deliver? || step.LoseReply? || step.Reject? || step.BeginTask? || step.Complete?
  }

  lemma WorkerKeeps(s: State, step: Step, n: nat)
    requires Enabled(s, step) && NodeOf(step) == Some(n) && n < |s.nodes| && NodeOk(s.nodes[n])
    requires IsWork(step)
    ensures NodeOk(Apply(s, step).nodes[n])
  {
    var node := s.nodes[n];
    match step
    case Pass(_, w) => MoveKeeps(node, w, Dequeuing);
    case Exit(_, w) => ExitKeeps(node, w);
    case NoTask(_, w) => MoveKeeps(node, w, Checking);
    case Deliver(_, w) =>
      assert node.workers[w] in node.workers;
      MoveKeeps(node, w, Holding(s.stream.cursor));
    case LoseReply(_, w) => MoveKeeps(node, w, Checking);
    case Reject(_, w) => MoveKeeps(node, w, Checking);
    case BeginTask(_, w) => BeginKeeps(node, w, node.workers[w].entry);
    case Complete(_, w, _, _) => MoveKeeps(node, w, Checking);
  }

  /** Every step keeps every pool's invariant. */
  lemma NodesKeep(s: State, step: Step)
    requires Enabled(s, step) && forall node <- s.nodes :: NodeOk(node)
    ensures forall node <- Apply(s, step).nodes :: NodeOk(node)
  {
    var s' := Apply(s, step);
    assert |s'.nodes| == |s.nodes|;
    forall n | 0 <= n < |s'.nodes| ensures NodeOk(s'.nodes[n]) {
      assert s.nodes[n] in s.nodes;
      if NodeOf(step) != Some(n) {
        OtherNodesUntouched(s, step, n);
      } else if IsWork(step) {
        WorkerKeeps(s, step, n);
      } else {
        LifecycleKeeps(s, step, n);
      }
    }
  }
}
