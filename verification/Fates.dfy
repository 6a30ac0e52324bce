/**
 Which step gives an entry its fate, and what a pool can still do: runs with their steps, and runs that
 go on to a given end.
 */
module Fates {
  import opened Wrappers
  import opened Queue
  import opened Pool
  import opened Runner

  /** A run with its steps: `states[i + 1]` comes from `states[i]` by `steps[i]`. */
  ghost predicate IsTrace(states: seq<State>, steps: seq<Step>) {
    && |states| == |steps| + 1 && IsStart(states[0])
    && forall i | 0 <= i < |steps| :: Enabled(states[i], steps[i]) && states[i + 1] == Apply(states[i], steps[i])
  }

  lemma TraceIsRun(states: seq<State>, steps: seq<Step>)
    requires IsTrace(states, steps)
    ensures IsRun(states)
  {
    forall i | 0 <= i < |states| - 1 ensures Next(states[i], states[i + 1]) {
      assert Enabled(states[i], steps[i]);
    }
  }

  // ---------- one step ----------

  /** The step ends the handling of entry `e`, which gave this result. */
  predicate Completes(s: State, step: Step, e: nat, ok: bool) {
    step.Complete? && step.ok == ok && IsWorker(s, step.n, step.w, Processing(e))
  }

  datatype Fate = Acked | Nacked | Undecodable | Lost

  function WithFate(s: State, fate: Fate): set<nat> {
    match fate
    case Acked => s.acked
    case Nacked => s.nacked
    case Undecodable => s.undecodable
    case Lost => s.lost
  }

  /** The step by which an entry gets the fate. */
  predicate Gives(s: State, step: Step, e: nat, fate: Fate) {
    match fate
    case Acked => Completes(s, step, e, true)
    case Nacked => Completes(s, step, e, false)
    case Undecodable => step.Reject? && IsWorker(s, step.n, step.w, Holding(e))
    case Lost => step.LoseReply? && IsWorker(s, step.n, step.w, Holding(e))
  }

  /**
   A completion acks the entry when its handler succeeded, with that task's ID if the request arrives, and
   nacks it otherwise, which Redis does not notice.
   */
  lemma CompletionFates(s: State, n: nat, w: nat, e: nat, ok: bool, reached: bool)
    requires Enabled(s, Complete(n, w, ok, reached)) && IsWorker(s, n, w, Processing(e))
    ensures e < |s.stream.log| && s.stream.log[e].task.Some?
    ensures var s', id := Apply(s, Complete(n, w, ok, reached)), s.stream.log[e].task.value.id;
            && s'.acked == (if ok then s.acked + {e} else s.acked)
            && s'.nacked == (if ok then s.nacked else s.nacked + {e})
            && s'.running == s.running - {e} && s'.held == s.held && IsWorker(s', n, w, Checking)
            && s'.stream.log == s.stream.log && s'.stream.cursor == s.stream.cursor
            && s'.stream.pending == (if ok && reached then s.stream.pending - {id} else s.stream.pending)
            && s'.acks == if ok && reached then s.acks + [AckRecord(id, e, s.stream.cursor)] else s.acks
  {
  }

  lemma StepFate(s: State, step: Step, e: nat, fate: Fate)
    requires Enabled(s, step)
    ensures e in WithFate(Apply(s, step), fate) <==> e in WithFate(s, fate) || Gives(s, step, e, fate)
  {
  }

  /** An acknowledgement that this step sent and Redis got. */
  predicate Acknowledges(s: State, step: Step, a: AckRecord) {
    && Completes(s, step, a.entry, true) && step.reached && a.at == s.stream.cursor
    && a.entry < |s.stream.log| && s.stream.log[a.entry].task.Some? && a.id == s.stream.log[a.entry].task.value.id
  }

  lemma StepAcks(s: State, step: Step, a: AckRecord)
    requires Enabled(s, step)
    ensures a in Apply(s, step).acks <==> a in s.acks || Acknowledges(s, step, a)
  {
  }

  // ---------- whole runs ----------

  /**
   Over every run: an entry is acked exactly when a step completed it with success, nacked when one
   completed it without, undecodable when its worker rejected it, and lost when the reply with it was.
   */
  lemma {:induction false} FateStemsFromStep(states: seq<State>, steps: seq<Step>, i: nat, e: nat, fate: Fate)
    requires IsTrace(states, steps) && i < |states|
    ensures e in WithFate(states[i], fate) <==> exists k | 0 <= k < i :: Gives(states[k], steps[k], e, fate)
  {
    if i > 0 {
      FateStemsFromStep(states, steps, i - 1, e, fate);
      assert states[i - 1 + 1] == Apply(states[i - 1], steps[i - 1]);
      StepFate(states[i - 1], steps[i - 1], e, fate);
    }
  }

  /** ... and Redis was sent an acknowledgement exactly by the successful completions that reached it. */
  lemma {:induction false} AcksStemFromSuccess(states: seq<State>, steps: seq<Step>, i: nat, a: AckRecord)
    requires IsTrace(states, steps) && i < |states|
    ensures a in states[i].acks <==> exists k | 0 <= k < i :: Acknowledges(states[k], steps[k], a)
  {
    if i > 0 {
      AcksStemFromSuccess(states, steps, i - 1, a);
      assert states[i - 1 + 1] == Apply(states[i - 1], steps[i - 1]);
      StepAcks(states[i - 1], steps[i - 1], a);
    }
  }

  /** The pool is told to stop. */
  predicate IsStopped(s: State, n: nat) {
    n < |s.nodes| && (QuitClosed(s.nodes[n]) || s.nodes[n].cancelled)
  }

  lemma StaysStopped(s: State, step: Step, n: nat)
    requires Enabled(s, step) && (IsStopped(s, n) || step == CloseQuit(n) || step == CancelCtx(n))
    ensures IsStopped(Apply(s, step), n)
  {
  }

  lemma TraceStep(states: seq<State>, steps: seq<Step>, i: nat)
    requires IsTrace(states, steps) && i < |steps|
    ensures i + 1 < |states| && Enabled(states[i], steps[i]) && states[i + 1] == Apply(states[i], steps[i])
  {
  }

  lemma NextIsStopped(states: seq<State>, steps: seq<Step>, n: nat, j: nat)
    requires IsTrace(states, steps) && j < |steps|
    requires IsStopped(states[j], n) || steps[j] == CloseQuit(n) || steps[j] == CancelCtx(n)
    ensures IsStopped(states[j + 1], n)
  {
    TraceStep(states, steps, j);
    StaysStopped(states[j], steps[j], n);
  }

  lemma {:induction false} StoppedFrom(states: seq<State>, steps: seq<Step>, n: nat, i: nat, j: nat)
    requires IsTrace(states, steps) && i <= j < |states| && IsStopped(states[i], n)
    ensures IsStopped(states[j], n)
    decreases j
  {
    if i < j {
      StoppedFrom(states, steps, n, i, j - 1);
      NextIsStopped(states, steps, n, j - 1);
    }
  }

  /** Once a pool's `quit` is closed or its context cancelled, none of its workers goes for another task. */
  lemma StoppedFetchesNoMore(states: seq<State>, steps: seq<Step>, n: nat, i: nat, j: nat)
    requires IsTrace(states, steps) && i < j < |steps| && (steps[i] == CloseQuit(n) || steps[i] == CancelCtx(n))
    ensures !(steps[j].Pass? && steps[j].n == n)
  {
    NextIsStopped(states, steps, n, i);
    StoppedFrom(states, steps, n, i + 1, j);
    TraceStep(states, steps, j);
    StoppedDoesNotPass(states[j], steps[j], n);
  }

  lemma StoppedDoesNotPass(s: State, step: Step, n: nat)
    requires Enabled(s, step) && IsStopped(s, n)
    ensures !(step.Pass? && step.n == n)
  {
  }

  // ---------- Start ----------

  /** `Start` has returned and left no worker behind. */
  predicate HasReturned(node: Node) {
    node.start == Returned && forall w | 0 <= w < |node.workers| :: node.workers[w] == Exited
  }

  lemma ReturningLeavesNobody(s: State, n: nat)
    requires Enabled(s, StartReturn(n)) && NodeOk(s.nodes[n])
    ensures HasReturned(Apply(s, StartReturn(n)).nodes[n])
  {
    forall w | 0 <= w < |s.nodes[n].workers| ensures s.nodes[n].workers[w] == Exited {
      LiveZero(s.nodes[n].workers, w);
    }
  }

  lemma ReturnedStays(s: State, step: Step, n: nat)
    requires Enabled(s, step) && n < |s.nodes| && HasReturned(s.nodes[n])
    ensures HasReturned(Apply(s, step).nodes[n])
  {
  }

  lemma OnlyReturnReturns(s: State, step: Step, n: nat)
    requires Enabled(s, step) && n < |s.nodes| && step != StartReturn(n) && s.nodes[n].start != Returned
    ensures Apply(s, step).nodes[n].start != Returned
  {
  }

  lemma ReturnStep(s: State, step: Step, n: nat)
    requires Enabled(s, step) && n < |s.nodes| && NodeOk(s.nodes[n])
    requires s.nodes[n].start == Returned ==> HasReturned(s.nodes[n])
    ensures n < |Apply(s, step).nodes|
    ensures Apply(s, step).nodes[n].start == Returned ==> HasReturned(Apply(s, step).nodes[n])
  {
    if s.nodes[n].start == Returned {
      ReturnedStays(s, step, n);
    } else if step == StartReturn(n) {
      ReturningLeavesNobody(s, n);
    } else {
      OnlyReturnReturns(s, step, n);
    }
  }

  lemma RunPools(run: seq<State>, i: nat)
    requires IsRun(run) && i < |run|
    ensures forall node <- run[i].nodes :: NodeOk(node)
  {
    RunKeeps(run, i);
  }

  lemma SameNodes(s: State, step: Step)
    requires Enabled(s, step)
    ensures |Apply(s, step).nodes| == |s.nodes|
  {
  }

  /** `Start` returns only when every worker of the pool has exited, and none comes back. */
  lemma {:induction false} StartReturnsLast(run: seq<State>, i: nat, n: nat)
    requires IsRun(run) && i < |run| && n < |run[i].nodes|
    ensures run[i].nodes[n].start == Returned ==> HasReturned(run[i].nodes[n])
  {
    if i == 0 {
      assert IsNew(run[0].nodes[n]);
    } else {
      RunPools(run, i - 1);
      assert Next(run[i - 1], run[i - 1 + 1]);
      var step :| Enabled(run[i - 1], step) && run[i] == Apply(run[i - 1], step);
      SameNodes(run[i - 1], step);
      StartReturnsLast(run, i - 1, n);
      ReturnStep(run[i - 1], step, n);
    }
  }

  // ---------- what can still happen ----------

  /** `longer` goes on from where `run` is. */
  ghost predicate GoesOn(run: seq<State>, longer: seq<State>) {
    IsRun(longer) && |run| <= |longer| && longer[..|run|] == run
  }

  lemma OneMore(run: seq<State>, step: Step) returns (longer: seq<State>)
    requires IsRun(run) && Enabled(run[|run| - 1], step)
    ensures GoesOn(run, longer) && longer[|longer| - 1] == Apply(run[|run| - 1], step)
  {
    longer := run + [Apply(run[|run| - 1], step)];
    forall i | 0 <= i < |longer| - 1 ensures Next(longer[i], longer[i + 1]) {
      if i < |run| - 1 {
        assert Next(run[i], run[i + 1]);
      }
    }
  }

  lemma GoesOnTwice(a: seq<State>, b: seq<State>, c: seq<State>)
    requires GoesOn(a, b) && GoesOn(b, c)
    ensures GoesOn(a, c)
  {
    assert c[..|a|] == c[..|b|][..|a|];
  }

  /** The pool as before, but for its workers' phases and their count in the wait group. */
  predicate SamePool(node: Node, node': Node) {
    && |node'.workers| == |node.workers| && node'.concurrency == node.concurrency
    && node'.start == node.start && node'.shutdown == node.shutdown
  }

  /** ... and of these only worker `w`'s is another. */
  predicate OnlyWorker(s: State, s': State, n: nat, w: nat, phase: Phase) {
    && n < |s.nodes| == |s'.nodes| && SamePool(s.nodes[n], s'.nodes[n]) && w < |s.nodes[n].workers|
    && s'.nodes[n].workers == s.nodes[n].workers[w := phase]
  }

  lemma StepMoves(s: State, step: Step)
    requires Enabled(s, step) && IsWork(step)
    ensures OnlyWorker(s, Apply(s, step), NodeOf(step).value, WorkerOf(step), PhaseAfter(s, step))
  {
  }

  /** In its run of a task: handed over, then handled. */
  lemma Handles(run: seq<State>, n: nat, w: nat, e: nat, ok: bool) returns (longer: seq<State>)
    requires IsRun(run) && Has(run[|run| - 1], n, w, false)
    requires IsWorker(run[|run| - 1], n, w, Holding(e)) && run[|run| - 1].stream.log[e].task.Some?
    ensures GoesOn(run, longer) && OnlyWorker(run[|run| - 1], longer[|longer| - 1], n, w, Checking)
    ensures var s, s' := run[|run| - 1], longer[|longer| - 1];
            && s'.stream.log == s.stream.log && s'.stream.cursor == s.stream.cursor && s'.deliveries == s.deliveries
            && s'.begins == s.begins + [Receipt(e, n, w)]
            && s'.acked == (if ok then s.acked + {e} else s.acked)
            && s'.nacked == (if ok then s.nacked else s.nacked + {e})
  {
    var begun := Moved(run, BeginTask(n, w));
    CompletionFates(begun[|begun| - 1], n, w, e, ok, true);
    longer := Moved(begun, Complete(n, w, ok, true));
    GoesOnTwice(run, begun, longer);
    TwoMoves(run[|run| - 1], begun[|begun| - 1], longer[|longer| - 1], n, w, Processing(e), Checking);
  }

  /** The worker takes this step. */
  lemma Moved(run: seq<State>, step: Step) returns (longer: seq<State>)
    requires IsRun(run) && Enabled(run[|run| - 1], step) && IsWork(step)
    ensures GoesOn(run, longer) && longer[|longer| - 1] == Apply(run[|run| - 1], step)
    ensures OnlyWorker(run[|run| - 1], longer[|longer| - 1], NodeOf(step).value, WorkerOf(step),
                       PhaseAfter(run[|run| - 1], step))
  {
    longer := OneMore(run, step);
    StepMoves(run[|run| - 1], step);
  }

  /** What a worker has is in the log, and what is in `processTask` decodes. */
  lemma RunHasEntry(run: seq<State>, n: nat, w: nat)
    requires IsRun(run) && n < |run[|run| - 1].nodes| && w < |run[|run| - 1].nodes[n].workers|
    ensures var s := run[|run| - 1];
            && (s.nodes[n].workers[w].Holding? ==> Has(s, n, w, false))
            && (s.nodes[n].workers[w].Processing? ==>
                  Has(s, n, w, true) && s.stream.log[s.nodes[n].workers[w].entry].task.Some?)
  {
    RunKeeps(run, |run| - 1);
    HasEntry(run[|run| - 1], n, w);
  }

  lemma HasEntry(s: State, n: nat, w: nat)
    requires Inv(s) && n < |s.nodes| && w < |s.nodes[n].workers|
    ensures var phase := s.nodes[n].workers[w];
            && (phase.Holding? ==> Has(s, n, w, false))
            && (phase.Processing? ==> Has(s, n, w, true) && s.stream.log[phase.entry].task.Some?)
  {
    var phase := s.nodes[n].workers[w];
    if phase.Holding? {
      assert Works(s, n, w, phase.entry, false);
    } else if phase.Processing? {
      assert Works(s, n, w, phase.entry, true);
      assert Begun(s, phase.entry);
    }
  }

  /** A worker that holds an entry gets back to the select: it rejects the entry, or its handler returns. */
  lemma BackFromHolding(run: seq<State>, n: nat, w: nat, ok: bool) returns (longer: seq<State>)
    requires IsRun(run) && Has(run[|run| - 1], n, w, false)
    ensures GoesOn(run, longer) && OnlyWorker(run[|run| - 1], longer[|longer| - 1], n, w, Checking)
  {
    var s := run[|run| - 1];
    var e := s.nodes[n].workers[w].entry;
    if s.stream.log[e].task.None? {
      longer := Moved(run, Reject(n, w));
    } else {
      longer := Handles(run, n, w, e, ok);
    }
  }

  lemma TwoMoves(a: State, b: State, c: State, n: nat, w: nat, between: Phase, phase: Phase)
    requires OnlyWorker(a, b, n, w, between) && OnlyWorker(b, c, n, w, phase)
    ensures OnlyWorker(a, c, n, w, phase)
  {
    var workers := a.nodes[n].workers;
    assert workers[w := between][w := phase] == workers[w := phase];
  }

  lemma NoMove(s: State, n: nat, w: nat)
    requires n < |s.nodes| && w < |s.nodes[n].workers|
    ensures OnlyWorker(s, s, n, w, s.nodes[n].workers[w])
  {
    assert s.nodes[n].workers[w := s.nodes[n].workers[w]] == s.nodes[n].workers;
  }

  /** A worker gets back to the select, whatever it is doing. */
  lemma BackToSelect(run: seq<State>, n: nat, w: nat, ok: bool) returns (longer: seq<State>)
    requires IsRun(run) && n < |run[|run| - 1].nodes| && w < |run[|run| - 1].nodes[n].workers|
    requires run[|run| - 1].nodes[n].workers[w] != Exited
    ensures GoesOn(run, longer) && OnlyWorker(run[|run| - 1], longer[|longer| - 1], n, w, Checking)
  {
    var phase := run[|run| - 1].nodes[n].workers[w];
    RunHasEntry(run, n, w);
    if phase == Checking {
      longer := run;
      NoMove(run[|run| - 1], n, w);
    } else if phase == Dequeuing {
      longer := Moved(run, NoTask(n, w));
    } else if phase.Holding? {
      longer := BackFromHolding(run, n, w, ok);
    } else {
      longer := Moved(run, Complete(n, w, ok, true));
    }
  }

  /** A worker of a stopping pool exits. */
  lemma Leaves(run: seq<State>, n: nat, w: nat) returns (longer: seq<State>)
    requires IsRun(run) && n < |run[|run| - 1].nodes| && w < |run[|run| - 1].nodes[n].workers|
    requires QuitClosed(run[|run| - 1].nodes[n])
    ensures GoesOn(run, longer) && OnlyWorker(run[|run| - 1], longer[|longer| - 1], n, w, Exited)
  {
    var s := run[|run| - 1];
    if s.nodes[n].workers[w] == Exited {
      longer := run;
      NoMove(s, n, w);
    } else {
      var back := BackToSelect(run, n, w, true);
      longer := Moved(back, Exit(n, w));
      GoesOnTwice(run, back, longer);
      TwoMoves(s, back[|back| - 1], longer[|longer| - 1], n, w, Checking, Exited);
    }
  }

  /** The first `k` workers of a stopping pool exit. */
  lemma {:induction false} AllLeave(run: seq<State>, n: nat, k: nat) returns (longer: seq<State>)
    requires IsRun(run) && n < |run[|run| - 1].nodes| && k <= |run[|run| - 1].nodes[n].workers|
    requires QuitClosed(run[|run| - 1].nodes[n])
    ensures GoesOn(run, longer) && n < |longer[|longer| - 1].nodes|
    ensures var node' := longer[|longer| - 1].nodes[n];
            SamePool(run[|run| - 1].nodes[n], node') && forall w | 0 <= w < k :: node'.workers[w] == Exited
  {
    if k == 0 {
      longer := run;
    } else {
      var before := AllLeave(run, n, k - 1);
      longer := Leaves(before, n, k - 1);
      GoesOnTwice(run, before, longer);
    }
  }

  lemma {:induction false} NobodyLives(workers: seq<Phase>)
    requires forall w | 0 <= w < |workers| :: workers[w] == Exited
    ensures Live(workers) == 0
  {
    if workers != [] {
      NobodyLives(workers[1..]);
    }
  }

  /** A worker that `Start` is about to spawn is spawned. */
  lemma SpawnDone(run: seq<State>, n: nat) returns (longer: seq<State>)
    requires IsRun(run) && n < |run[|run| - 1].nodes|
    ensures GoesOn(run, longer) && n < |longer[|longer| - 1].nodes|
    ensures longer[|longer| - 1].nodes[n].start != Added
    ensures longer[|longer| - 1].nodes[n].shutdown == run[|run| - 1].nodes[n].shutdown
  {
    longer := run;
    if run[|run| - 1].nodes[n].start == Added {
      longer := OneMore(run, StartGo(n));
    }
  }

  /** With every worker gone and none about to be spawned `Shutdown` returns. */
  lemma Drains(run: seq<State>, n: nat) returns (longer: seq<State>)
    requires IsRun(run) && n < |run[|run| - 1].nodes|
    requires var node := run[|run| - 1].nodes[n];
             && node.shutdown == Closing && node.start != Added
             && forall w | 0 <= w < |node.workers| :: node.workers[w] == Exited
    ensures GoesOn(run, longer) && n < |longer[|longer| - 1].nodes|
    ensures longer[|longer| - 1].nodes[n].shutdown == ReturnedNil
    ensures longer[|longer| - 1].nodes[n].workers == run[|run| - 1].nodes[n].workers
  {
    var s := run[|run| - 1];
    RunKeeps(run, |run| - 1);
    assert s.nodes[n] in s.nodes;
    NobodyLives(s.nodes[n].workers);
    var drained := OneMore(run, WaitDone(n));
    longer := OneMore(drained, ReturnNil(n));
    GoesOnTwice(run, drained, longer);
  }

  /**
   A shutdown can always be completed: from any state of any run in which `quit` is closed, when the
   handlers return in time, the workers finish what they have and exit, and `Shutdown` returns nil.
   */
  lemma ShutdownCanComplete(run: seq<State>, n: nat) returns (longer: seq<State>)
    requires IsRun(run) && n < |run[|run| - 1].nodes| && run[|run| - 1].nodes[n].shutdown == Closing
    ensures GoesOn(run, longer) && n < |longer[|longer| - 1].nodes|
    ensures var node := longer[|longer| - 1].nodes[n];
            node.shutdown == ReturnedNil && forall w | 0 <= w < |node.workers| :: node.workers[w] == Exited
  {
    var spawned := SpawnDone(run, n);
    var left := AllLeave(spawned, n, |spawned[|spawned| - 1].nodes[n].workers|);
    longer := Drains(left, n);
    GoesOnTwice(run, spawned, left);
    GoesOnTwice(run, left, longer);
  }

  /**
   A queued task can be done: a worker at the select of a pool that is not stopping takes the next entry, and
   when it decodes the entry ends up acked if its handler succeeds and nacked if not.
   */
  lemma NextTaskCanBeDone(run: seq<State>, n: nat, w: nat, ok: bool) returns (longer: seq<State>)
    requires IsRun(run) && IsWorker(run[|run| - 1], n, w, Checking) && !IsStopped(run[|run| - 1], n)
    requires var stream := run[|run| - 1].stream; HasNext(stream) && stream.log[stream.cursor].task.Some?
    ensures GoesOn(run, longer)
    ensures var s, s' := run[|run| - 1], longer[|longer| - 1];
            var e := s.stream.cursor;
            && s'.stream.log == s.stream.log && s'.stream.cursor == e + 1
            && s'.deliveries == s.deliveries + [Receipt(e, n, w)] && s'.begins == s.begins + [Receipt(e, n, w)]
            && s'.acked == (if ok then s.acked + {e} else s.acked)
            && s'.nacked == (if ok then s.nacked else s.nacked + {e})
            && IsWorker(s', n, w, Checking)
  {
    var passed := Moved(run, Pass(n, w));
    var delivered := Moved(passed, Deliver(n, w));
    longer := Handles(delivered, n, w, run[|run| - 1].stream.cursor, ok);
    GoesOnTwice(run, passed, delivered);
    GoesOnTwice(run, delivered, longer);
  }

  /** A reply can be lost: then the entry is, and its worker goes back to the select. */
  lemma ReplyCanBeLost(run: seq<State>, n: nat, w: nat) returns (longer: seq<State>)
    requires IsRun(run) && IsWorker(run[|run| - 1], n, w, Dequeuing) && HasNext(run[|run| - 1].stream)
    ensures GoesOn(run, longer)
    ensures var s, s' := run[|run| - 1], longer[|longer| - 1];
            var e := s.stream.cursor;
            && s'.stream.cursor == e + 1 && s'.lost == s.lost + {e} && s'.begins == s.begins
            && IsWorker(s', n, w, Checking)
  {
    var delivered := Moved(run, Deliver(n, w));
    longer := Moved(delivered, LoseReply(n, w));
    GoesOnTwice(run, delivered, longer);
  }

  /** A shutdown that waits can run into its deadline, which changes nothing for the workers. */
  lemma ShutdownCanTimeOut(run: seq<State>, n: nat) returns (longer: seq<State>)
    requires IsRun(run) && n < |run[|run| - 1].nodes| && run[|run| - 1].nodes[n].shutdown in {Closing, Drained}
    ensures GoesOn(run, longer)
    ensures var s := run[|run| - 1];
            longer[|longer| - 1] == s.(nodes := s.nodes[n := s.nodes[n].(shutdown := TimedOut)])
  {
    longer := OneMore(run, TimeOut(n));
  }

  /** A pool can be told to stop, by `Shutdown` once or through its context at any time. */
  lemma CanBeStopped(run: seq<State>, n: nat, quit: bool) returns (longer: seq<State>)
    requires IsRun(run) && n < |run[|run| - 1].nodes| && (quit ==> run[|run| - 1].nodes[n].shutdown == Idle)
    ensures GoesOn(run, longer)
    ensures var s := run[|run| - 1];
            var node := s.nodes[n];
            longer[|longer| - 1] == s.(nodes := s.nodes[n := if quit then node.(shutdown := Closing)
                                                             else node.(cancelled := true)])
  {
    longer := OneMore(run, if quit then CloseQuit(n) else CancelCtx(n));
  }

  /** Once `quit` is closed `Start` can return, when it has spawned all its workers. */
  lemma StartCanReturn(run: seq<State>, n: nat) returns (longer: seq<State>)
    requires IsRun(run) && n < |run[|run| - 1].nodes|
    requires var node := run[|run| - 1].nodes[n];
             && QuitClosed(node)
             && (node.start == Waiting || (node.start == Spawning && |node.workers| == node.concurrency))
    ensures GoesOn(run, longer) && n < |longer[|longer| - 1].nodes| && HasReturned(longer[|longer| - 1].nodes[n])
  {
    var waiting := run;
    if run[|run| - 1].nodes[n].start == Spawning {
      waiting := OneMore(run, StartWait(n));
    }
    var left := AllLeave(waiting, n, |waiting[|waiting| - 1].nodes[n].workers|);
    RunPools(left, |left| - 1);
    assert left[|left| - 1].nodes[n] in left[|left| - 1].nodes;
    NobodyLives(left[|left| - 1].nodes[n].workers);
    longer := OneMore(left, StartReturn(n));
    GoesOnTwice(run, waiting, left);
    GoesOnTwice(run, left, longer);
  }
}
