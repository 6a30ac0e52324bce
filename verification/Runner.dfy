/**
 What every interleaving of producers, workers and shutdowns keeps: no delivered task is lost
 track of, none is handled twice, and a shutdown that returns nil has stopped its pool.
 */
module Runner {
  import opened Wrappers
  import opened Queue
  import opened Pool

  // ---------- the invariant ----------

  function At(e: nat, begun: bool): Phase {
    if begun then Processing(e) else Holding(e)
  }

  /** Worker `w` of node `n` has entry `e`; `begun` once `processTask` has it. */
  predicate Works(s: State, n: nat, w: nat, e: nat, begun: bool) {
    IsWorker(s, n, w, At(e, begun))
  }

  /** The entries of the map and the workers that have one correspond one to one. */
  ghost predicate Tracks(s: State, m: map<nat, (nat, nat)>, begun: bool) {
    && (forall e <- m :: Works(s, m[e].0, m[e].1, e, begun))
    && (forall n: nat, w: nat, e: nat | Works(s, n, w, e, begun) :: e in m && m[e] == (n, w))
  }

  ghost predicate InFlightOk(s: State) {
    Tracks(s, s.held, false) && Tracks(s, s.running, true)
  }

  ghost predicate Delivered(s: State, e: nat) {
    e in s.held || e in s.running || e in s.acked || e in s.nacked || e in s.undecodable || e in s.lost
  }

  /** The delivered prefix of the log is the disjoint union of its six fates. */
  ghost predicate Partition(s: State) {
    && s.stream.cursor <= |s.stream.log|
    && (forall e: nat :: e < s.stream.cursor <==> Delivered(s, e))
    && s.held.Keys !! s.running.Keys !! s.acked !! s.nacked !! s.undecodable !! s.lost
  }

  /** What `processTask` got decodes, and what was dropped as undecodable does not. */
  ghost predicate DecodedOk(s: State) {
    && (forall e <- s.undecodable :: e < |s.stream.log| && s.stream.log[e].task.None?)
    && (forall e: nat | Begun(s, e) :: e < |s.stream.log| && s.stream.log[e].task.Some?)
  }

  ghost predicate Begun(s: State, e: nat) {
    e in s.running || e in s.acked || e in s.nacked
  }

  ghost predicate HasBegun(s: State, e: nat) {
    exists b <- s.begins :: b.entry == e
  }

  /** Redis hands out the entries in order, each once. */
  ghost predicate DeliveriesOk(s: State) {
    && |s.deliveries| == s.stream.cursor
    && (forall k | 0 <= k < |s.deliveries| :: s.deliveries[k].entry == k)
    && (forall e <- s.held :: e < |s.deliveries| && s.deliveries[e] == Receipt(e, s.held[e].0, s.held[e].1))
  }

  /** No entry begins twice, and each where it was delivered. */
  ghost predicate BeginsOk(s: State) {
    && (forall i, j | 0 <= i < j < |s.begins| :: s.begins[i].entry != s.begins[j].entry)
    && (forall b <- s.begins :: b.entry < |s.deliveries| && s.deliveries[b.entry] == b)
    && (forall e: nat :: HasBegun(s, e) <==> Begun(s, e))
  }

  /** An acknowledgement carried the stream ID of entry `e` after Redis had delivered `e`. */
  ghost predicate Cleared(s: State, e: nat)
    requires e < |s.stream.log|
  {
    exists a <- s.acks :: a.id == s.stream.log[e].streamId && e < a.at
  }

  ghost predicate UniqueIds(s: State) {
    forall e, f | 0 <= e < f < |s.stream.log| :: s.stream.log[e].streamId != s.stream.log[f].streamId
  }

  /** The pending list: the delivered entries that no later acknowledgement named. */
  ghost predicate PendingOk(s: State) {
    && UniqueIds(s) && s.stream.cursor <= |s.stream.log|
    && (forall e: nat | e < |s.stream.log| ::
          s.stream.log[e].streamId in s.stream.pending <==> e < s.stream.cursor && !Cleared(s, e))
    && (forall id <- s.stream.pending :: exists e: nat :: e < s.stream.cursor && s.stream.log[e].streamId == id)
    && (forall a <- s.acks :: a.at <= s.stream.cursor)
  }

  /** Acknowledgements carry the task IDs of the acked entries. */
  ghost predicate AcksOk(s: State) {
    forall a <- s.acks :: && a.entry in s.acked && a.entry < |s.stream.log| && s.stream.log[a.entry].task.Some?
                          && a.id == s.stream.log[a.entry].task.value.id
  }

  ghost predicate Inv(s: State) {
    && (forall node <- s.nodes :: NodeOk(node))
    && InFlightOk(s) && Partition(s) && DecodedOk(s) && DeliveriesOk(s) && BeginsOk(s) && PendingOk(s) && AcksOk(s)
  }

  // ---------- who has what ----------

  predicate IsLifecycle(step: Step) {
    || step.StartAdd? || step.StartGo? || step.StartWait? || step.StartReturn? || step.CloseQuit? || step.WaitDone?
    || step.ReturnNil? || step.TimeOut? || step.CancelCtx?
  }

  /** The step is by worker `w` of node `n`, which is in this phase afterwards. */
  ghost predicate Moves(s: State, s': State, n: nat, w: nat, phase: Phase) {
    && n < |s.nodes| && w < |s.nodes[n].workers|
    && forall m: nat, v: nat, p: Phase ::
         IsWorker(s', m, v, p) <==> if m == n && v == w then p == phase else IsWorker(s, m, v, p)
  }

  function WorkerOf(step: Step): nat
    requires IsWork(step)
  {
    match step
    case Pass(_, w) => w
    case Exit(_, w) => w
    case NoTask(_, w) => w
    case Deliver(_, w) => w
    case LoseReply(_, w) => w
    case Reject(_, w) => w
    case BeginTask(_, w) => w
    case Complete(_, w, _, _) => w
  }

  /** The phase the step's worker is in afterwards. */
  function PhaseAfter(s: State, step: Step): Phase
    requires Enabled(s, step) && IsWork(step)
  {
    match step
    case Pass(_, _) => Dequeuing
    case Exit(_, _) => Exited
    case Deliver(_, _) => Holding(s.stream.cursor)
    case BeginTask(n, w) => Processing(s.nodes[n].workers[w].entry)
    case _ => Checking
  }

  lemma WorkMoves(s: State, step: Step)
    requires Enabled(s, step) && IsWork(step)
    ensures Moves(s, Apply(s, step), NodeOf(step).value, WorkerOf(step), PhaseAfter(s, step))
  {
    var s', n := Apply(s, step), NodeOf(step).value;
    assert s'.nodes == s.nodes[n := s'.nodes[n]];
    assert s'.nodes[n].workers == s.nodes[n].workers[WorkerOf(step) := PhaseAfter(s, step)];
    UpdateMoves(s, s', n, WorkerOf(step), PhaseAfter(s, step));
  }

  lemma UpdateMoves(s: State, s': State, n: nat, w: nat, phase: Phase)
    requires n < |s.nodes| && w < |s.nodes[n].workers|
    requires |s'.nodes| == |s.nodes| && s'.nodes == s.nodes[n := s'.nodes[n]]
    requires s'.nodes[n].workers == s.nodes[n].workers[w := phase]
    ensures Moves(s, s', n, w, phase)
  {
  }

  lemma {:induction false} KeepsTrack(s: State, s': State, n: nat, w: nat, phase: Phase, m: map<nat, (nat, nat)>, begun: bool)
    requires Tracks(s, m, begun) && Moves(s, s', n, w, phase)
    requires forall e: nat :: !Works(s, n, w, e, begun) && phase != At(e, begun)
    ensures Tracks(s', m, begun)
  {
    forall k: nat, v: nat, e: nat ensures Works(s', k, v, e, begun) <==> Works(s, k, v, e, begun) {}
  }

  lemma {:induction false} AddsTrack(s: State, s': State, n: nat, w: nat, c: nat, m: map<nat, (nat, nat)>, begun: bool)
    requires Tracks(s, m, begun) && Moves(s, s', n, w, At(c, begun)) && c !in m
    requires forall e: nat :: !Works(s, n, w, e, begun)
    ensures Tracks(s', m[c := (n, w)], begun)
  {
    forall k: nat, v: nat, e: nat
      ensures Works(s', k, v, e, begun) <==> Works(s, k, v, e, begun) || (k == n && v == w && e == c) {}
  }

  lemma {:induction false} DropsTrack(s: State, s': State, n: nat, w: nat, c: nat, phase: Phase, m: map<nat, (nat, nat)>,
                                      begun: bool)
    requires Tracks(s, m, begun) && Moves(s, s', n, w, phase)
    requires Works(s, n, w, c, begun) && forall e: nat :: phase != At(e, begun)
    ensures Tracks(s', m - {c}, begun) && c in m
  {
    forall k: nat, v: nat, e: nat
      ensures Works(s', k, v, e, begun) <==> Works(s, k, v, e, begun) && !(k == n && v == w) {}
  }

  /** The steps of `Start`, `Shutdown` and producers leave every worker's entry alone. */
  lemma LifecycleKeepsTracks(s: State, step: Step, m: map<nat, (nat, nat)>, begun: bool)
    requires Enabled(s, step) && Tracks(s, m, begun) && (IsLifecycle(step) || step.Produce?)
    ensures Tracks(Apply(s, step), m, begun)
  {
    forall n: nat, w: nat, e: nat ensures Works(Apply(s, step), n, w, e, begun) <==> Works(s, n, w, e, begun) {
      if n < |s.nodes| && !step.Produce? {
        LifecycleKeepsWorks(s, step, n, w, e, begun);
      }
    }
  }

  lemma LifecycleKeepsWorks(s: State, step: Step, n: nat, w: nat, e: nat, begun: bool)
    requires Enabled(s, step) && IsLifecycle(step) && n < |s.nodes|
    ensures Works(Apply(s, step), n, w, e, begun) <==> Works(s, n, w, e, begun)
  {
  }

  lemma InFlightKeeps(s: State, step: Step)
    requires Enabled(s, step) && InFlightOk(s) && Partition(s)
    ensures InFlightOk(Apply(s, step))
  {
    if IsWork(step) {
      HeldKeeps(s, step);
      RunningKeeps(s, step);
    } else {
      LifecycleKeepsTracks(s, step, s.held, false);
      LifecycleKeepsTracks(s, step, s.running, true);
    }
  }

  lemma HeldKeeps(s: State, step: Step)
    requires Enabled(s, step) && IsWork(step) && Tracks(s, s.held, false) && Partition(s)
    ensures Tracks(Apply(s, step), Apply(s, step).held, false)
  {
    var s', n, w, phase := Apply(s, step), NodeOf(step).value, WorkerOf(step), PhaseAfter(s, step);
    WorkMoves(s, step);
    if step.Deliver? {
      assert !Delivered(s, s.stream.cursor);
      AddsTrack(s, s', n, w, s.stream.cursor, s.held, false);
    } else if step.LoseReply? || step.Reject? || step.BeginTask? {
      DropsTrack(s, s', n, w, s.nodes[n].workers[w].entry, phase, s.held, false);
    } else {
      KeepsTrack(s, s', n, w, phase, s.held, false);
    }
  }

  lemma RunningKeeps(s: State, step: Step)
    requires Enabled(s, step) && IsWork(step) && InFlightOk(s) && Partition(s)
    ensures Tracks(Apply(s, step), Apply(s, step).running, true)
  {
    var s', n, w, phase := Apply(s, step), NodeOf(step).value, WorkerOf(step), PhaseAfter(s, step);
    WorkMoves(s, step);
    if step.BeginTask? {
      var e := s.nodes[n].workers[w].entry;
      assert Works(s, n, w, e, false);
      AddsTrack(s, s', n, w, e, s.running, true);
    } else if step.Complete? {
      DropsTrack(s, s', n, w, s.nodes[n].workers[w].entry, phase, s.running, true);
    } else {
      KeepsTrack(s, s', n, w, phase, s.running, true);
    }
  }

  /** The entry a worker has is in the map of its phase. */
  lemma HasIsTracked(s: State, n: nat, w: nat, begun: bool)
    requires InFlightOk(s) && Has(s, n, w, begun)
    ensures var e := s.nodes[n].workers[w].entry;
            e in (if begun then s.running else s.held) && (if begun then s.running else s.held)[e] == (n, w)
  {
    assert Works(s, n, w, s.nodes[n].workers[w].entry, begun);
  }

  // ---------- fates ----------

  /** The entry a resolving step is about. */
  function EntryOf(s: State, step: Step): nat
    requires Enabled(s, step) && IsResolving(step)
  {
    s.nodes[NodeOf(step).value].workers[WorkerOf(step)].entry
  }

  /** These steps give an entry that a worker has its next fate. */
  predicate IsResolving(step: Step) {
    step.LoseReply? || step.Reject? || step.BeginTask? || step.Complete?
  }

  lemma PartitionKeeps(s: State, step: Step)
    requires Enabled(s, step) && InFlightOk(s) && Partition(s)
    ensures Partition(Apply(s, step))
  {
    if IsResolving(step) {
      HasIsTracked(s, NodeOf(step).value, WorkerOf(step), step.Complete?);
      ResolvingKeepsPartition(s, step);
    } else if step.Deliver? {
      DeliverKeepsPartition(s, step.n, step.w);
    } else {
      forall e: nat ensures Delivered(Apply(s, step), e) <==> Delivered(s, e) {}
    }
  }

  lemma DeliverKeepsPartition(s: State, n: nat, w: nat)
    requires Enabled(s, Deliver(n, w)) && Partition(s)
    ensures Partition(Apply(s, Deliver(n, w)))
  {
    var s', c := Apply(s, Deliver(n, w)), s.stream.cursor;
    assert !Delivered(s, c);
    forall e: nat ensures Delivered(s', e) <==> Delivered(s, e) || e == c {}
  }

  /** An entry goes from one set to another. */
  lemma ResolvingKeepsPartition(s: State, step: Step)
    requires Enabled(s, step) && IsResolving(step) && Partition(s)
    requires EntryOf(s, step) in if step.Complete? then s.running.Keys else s.held.Keys
    ensures Partition(Apply(s, step))
  {
    var s' := Apply(s, step);
    forall e: nat ensures Delivered(s', e) <==> Delivered(s, e) {}
  }

  lemma DecodedKeeps(s: State, step: Step)
    requires Enabled(s, step) && InFlightOk(s) && DecodedOk(s)
    ensures DecodedOk(Apply(s, step))
  {
    if IsResolving(step) {
      HasIsTracked(s, NodeOf(step).value, WorkerOf(step), step.Complete?);
      ResolvingKeepsDecoded(s, step);
    } else {
      QuietFates(s, step);
      DecodedGrows(s, Apply(s, step), {}, {});
    }
  }

  /** Steps that resolve nothing keep what was begun or dropped, and the log. */
  lemma QuietFates(s: State, step: Step)
    requires Enabled(s, step) && !IsResolving(step)
    ensures var s' := Apply(s, step);
            && s'.running == s.running && s'.acked == s.acked && s'.nacked == s.nacked
            && s'.undecodable == s.undecodable
            && |s.stream.log| <= |s'.stream.log| && s'.stream.log[..|s.stream.log|] == s.stream.log
  {
  }

  lemma ResolvingKeepsDecoded(s: State, step: Step)
    requires Enabled(s, step) && IsResolving(step) && DecodedOk(s)
    requires step.Complete? ==> EntryOf(s, step) in s.running
    ensures DecodedOk(Apply(s, step))
  {
    var e := EntryOf(s, step);
    DecodedGrows(s, Apply(s, step), if step.Reject? then {e} else {}, if step.BeginTask? then {e} else {});
  }

  lemma DecodedGrows(s: State, s': State, rejected: set<nat>, begun: set<nat>)
    requires DecodedOk(s)
    requires |s.stream.log| <= |s'.stream.log| && s'.stream.log[..|s.stream.log|] == s.stream.log
    requires s'.undecodable <= s.undecodable + rejected
    requires s'.running.Keys + s'.acked + s'.nacked <= s.running.Keys + s.acked + s.nacked + begun
    requires forall e <- rejected :: e < |s.stream.log| && s.stream.log[e].task.None?
    requires forall e <- begun :: e < |s.stream.log| && s.stream.log[e].task.Some?
    ensures DecodedOk(s')
  {
    forall e: nat | e < |s.stream.log| ensures s'.stream.log[e] == s.stream.log[e] {
      assert s'.stream.log[..|s.stream.log|][e] == s.stream.log[e];
    }
    forall e: nat | Begun(s', e) ensures Begun(s, e) || e in begun {
      assert e in s'.running.Keys + s'.acked + s'.nacked;
    }
  }

  // ---------- deliveries and begins ----------

  lemma DeliveriesKeep(s: State, step: Step)
    requires Enabled(s, step) && DeliveriesOk(s)
    ensures DeliveriesOk(Apply(s, step))
  {
    if !step.Deliver? {
      OthersDeliverNothing(s, step);
      DeliveriesStay(s, Apply(s, step));
    }
  }

  lemma OthersDeliverNothing(s: State, step: Step)
    requires Enabled(s, step) && !step.Deliver?
    ensures var s' := Apply(s, step);
            && s'.deliveries == s.deliveries && s'.stream.cursor == s.stream.cursor
            && (s'.held == s.held || exists e :: s'.held == s.held - {e})
  {
    if IsResolving(step) && !step.Complete? {
      assert Apply(s, step).held == s.held - {EntryOf(s, step)};
    }
  }

  lemma DeliveriesStay(s: State, s': State)
    requires DeliveriesOk(s) && s'.deliveries == s.deliveries && s'.stream.cursor == s.stream.cursor
    requires s'.held == s.held || exists e :: s'.held == s.held - {e}
    ensures DeliveriesOk(s')
  {
  }

  lemma BeginsKeep(s: State, step: Step)
    requires Enabled(s, step) && InFlightOk(s) && Partition(s) && DeliveriesOk(s) && BeginsOk(s)
    ensures BeginsOk(Apply(s, step))
  {
    if step.BeginTask? {
      BeginKeepsBegins(s, step.n, step.w);
    } else {
      OthersKeepBegun(s, step);
      OthersRecordNothing(s, step);
      BeginsStay(s, Apply(s, step));
    }
  }

  lemma OthersKeepBegun(s: State, step: Step)
    requires Enabled(s, step) && InFlightOk(s) && !step.BeginTask?
    ensures var s' := Apply(s, step);
            s'.running.Keys + s'.acked + s'.nacked == s.running.Keys + s.acked + s.nacked
  {
    if step.Complete? {
      HasIsTracked(s, step.n, step.w, true);
      var e, s' := s.nodes[step.n].workers[step.w].entry, Apply(s, step);
      assert s'.running.Keys == s.running.Keys - {e};
      assert s'.acked + s'.nacked == s.acked + s.nacked + {e};
    } else {
      OthersResolveNothing(s, step);
    }
  }

  lemma OthersResolveNothing(s: State, step: Step)
    requires Enabled(s, step) && !step.BeginTask? && !step.Complete?
    ensures var s' := Apply(s, step);
            s'.running == s.running && s'.acked == s.acked && s'.nacked == s.nacked
  {
  }

  lemma OthersRecordNothing(s: State, step: Step)
    requires Enabled(s, step) && !step.BeginTask?
    ensures var s' := Apply(s, step);
            && s'.begins == s.begins
            && |s.deliveries| <= |s'.deliveries| && s'.deliveries[..|s.deliveries|] == s.deliveries
  {
  }

  lemma BeginsStay(s: State, s': State)
    requires BeginsOk(s) && s'.begins == s.begins
    requires |s.deliveries| <= |s'.deliveries| && s'.deliveries[..|s.deliveries|] == s.deliveries
    requires s'.running.Keys + s'.acked + s'.nacked == s.running.Keys + s.acked + s.nacked
    ensures BeginsOk(s')
  {
    forall k | 0 <= k < |s.deliveries| ensures s'.deliveries[k] == s.deliveries[k] {
      assert s'.deliveries[..|s.deliveries|][k] == s.deliveries[k];
    }
    forall e: nat ensures HasBegun(s', e) <==> HasBegun(s, e) {}
    forall e: nat ensures Begun(s', e) <==> Begun(s, e) {
      assert Begun(s', e) <==> e in s'.running.Keys + s'.acked + s'.nacked;
      assert Begun(s, e) <==> e in s.running.Keys + s.acked + s.nacked;
    }
  }

  lemma BeginKeepsBegins(s: State, n: nat, w: nat)
    requires Enabled(s, BeginTask(n, w)) && InFlightOk(s) && Partition(s) && DeliveriesOk(s) && BeginsOk(s)
    ensures BeginsOk(Apply(s, BeginTask(n, w)))
  {
    var s', e := Apply(s, BeginTask(n, w)), s.nodes[n].workers[w].entry;
    HasIsTracked(s, n, w, false);
    var b := Receipt(e, n, w);
    assert s'.begins == s.begins + [b] && s.deliveries[e] == b;
    assert !Begun(s, e) && !HasBegun(s, e);
    forall i | 0 <= i < |s.begins| ensures s.begins[i].entry != e {
      assert s.begins[i] in s.begins;
    }
    forall f: nat ensures HasBegun(s', f) <==> HasBegun(s, f) || f == e {
      BegunSnoc(s, s', b, f);
    }
    forall f: nat ensures Begun(s', f) <==> Begun(s, f) || f == e {}
  }

  lemma BegunSnoc(s: State, s': State, b: Receipt, e: nat)
    requires s'.begins == s.begins + [b]
    ensures HasBegun(s', e) <==> HasBegun(s, e) || e == b.entry
  {
    if HasBegun(s, e) {
      var d :| d in s.begins && d.entry == e;
      assert d in s'.begins;
    }
    assert b in s'.begins;
  }

  // ---------- the pending list ----------

  lemma PendingKeeps(s: State, step: Step)
    requires Enabled(s, step) && PendingOk(s)
    ensures PendingOk(Apply(s, step))
  {
    var s' := Apply(s, step);
    if step.Produce? {
      ProduceKeepsPending(s, step.e);
    } else if step.Deliver? {
      DeliverKeepsPending(s, s');
    } else if step.Complete? && step.ok && step.reached {
      var e := EntryOf(s, step);
      AckKeepsPending(s, s', AckRecord(s.stream.log[e].task.value.id, e, s.stream.cursor));
    } else {
      SameQueueKeepsPending(s, s');
    }
  }

  lemma SameQueueKeepsPending(s: State, s': State)
    requires PendingOk(s) && s'.stream == s.stream && s'.acks == s.acks
    ensures PendingOk(s')
  {
    forall e: nat | e < |s.stream.log| ensures Cleared(s', e) <==> Cleared(s, e) {}
  }

  lemma ProduceKeepsPending(s: State, entry: Entry)
    requires PendingOk(s) && Enabled(s, Produce(entry))
    ensures PendingOk(Apply(s, Produce(entry)))
  {
    var s' := Apply(s, Produce(entry));
    forall e: nat | e < |s.stream.log| ensures s'.stream.log[e] == s.stream.log[e] && s.stream.log[e] in s.stream.log {}
    forall e: nat | e < |s.stream.log| ensures Cleared(s', e) <==> Cleared(s, e) {}
    forall id <- s'.stream.pending ensures exists e: nat :: e < s'.stream.cursor && s'.stream.log[e].streamId == id {
      var e: nat :| e < s.stream.cursor && s.stream.log[e].streamId == id;
      assert s'.stream.log[e].streamId == id;
    }
  }

  lemma DeliverKeepsPending(s: State, s': State)
    requires PendingOk(s) && HasNext(s.stream) && s'.stream == Queue.Deliver(s.stream) && s'.acks == s.acks
    ensures PendingOk(s')
  {
    var c := s.stream.cursor;
    forall e: nat | e < |s.stream.log| ensures Cleared(s', e) <==> Cleared(s, e) {}
    forall id <- s'.stream.pending ensures exists e: nat :: e < s'.stream.cursor && s'.stream.log[e].streamId == id {
      if id in s.stream.pending {
        var e: nat :| e < s.stream.cursor && s.stream.log[e].streamId == id;
      } else {
        assert s'.stream.log[c].streamId == id;
      }
    }
  }

  lemma AckKeepsPending(s: State, s': State, a: AckRecord)
    requires PendingOk(s) && a.at == s.stream.cursor
    requires s'.stream == XAck(s.stream, a.id) && s'.acks == s.acks + [a]
    ensures PendingOk(s')
  {
    forall e: nat | e < |s.stream.log|
      ensures Cleared(s', e) <==> Cleared(s, e) || (a.id == s.stream.log[e].streamId && e < s.stream.cursor)
    {
      if Cleared(s, e) {
        var b :| b in s.acks && b.id == s.stream.log[e].streamId && e < b.at;
        assert b in s'.acks;
      }
      assert a in s'.acks;
    }
  }

  lemma AcksKeep(s: State, step: Step)
    requires Enabled(s, step) && AcksOk(s)
    ensures AcksOk(Apply(s, step))
  {
  }

  // ---------- every step keeps it ----------

  lemma StepKeeps(s: State, step: Step)
    requires Inv(s) && Enabled(s, step)
    ensures Inv(Apply(s, step))
  {
    NodesKeep(s, step);
    InFlightKeeps(s, step);
    PartitionKeeps(s, step);
    DecodedKeeps(s, step);
    DeliveriesKeep(s, step);
    BeginsKeep(s, step);
    PendingKeeps(s, step);
    AcksKeep(s, step);
  }

  lemma StartIsOk(s: State)
    requires IsStart(s)
    ensures Inv(s)
  {
    forall node <- s.nodes ensures NodeOk(node) {
      assert IsNew(node);
    }
    forall n: nat, w: nat, e: nat, begun ensures !Works(s, n, w, e, begun) {
      if n < |s.nodes| {
        assert IsNew(s.nodes[n]);
      }
    }
  }

  lemma {:induction false} RunKeeps(run: seq<State>, i: nat)
    requires IsRun(run) && i < |run|
    ensures Inv(run[i])
  {
    if i == 0 {
      StartIsOk(run[0]);
    } else {
      RunKeeps(run, i - 1);
      assert Next(run[i - 1], run[i - 1 + 1]);
      var step :| Enabled(run[i - 1], step) && run[i] == Apply(run[i - 1], step);
      StepKeeps(run[i - 1], step);
    }
  }

  // ---------- what follows for every run ----------

  /**
   Conservation: in every state of every run, over all nodes and workers, each delivered entry has
   exactly one fate, two workers never have the same entry, entries are delivered in enqueue order,
   and each begins at most once, at the worker it was delivered to.
   */
  lemma TaskConservation(run: seq<State>, i: nat)
    requires IsRun(run) && i < |run|
    ensures var s := run[i];
            && (forall e: nat :: e < s.stream.cursor <==>
                  e in s.held || e in s.running || e in s.acked || e in s.nacked || e in s.undecodable || e in s.lost)
            && s.held.Keys !! s.running.Keys !! s.acked !! s.nacked !! s.undecodable !! s.lost
            && (forall n1, w1, b1, n2, w2, b2, e: nat | Works(s, n1, w1, e, b1) && Works(s, n2, w2, e, b2) ::
                  n1 == n2 && w1 == w2)
            && (|s.deliveries| == s.stream.cursor && forall k | 0 <= k < |s.deliveries| :: s.deliveries[k].entry == k)
            && (forall j, k | 0 <= j < k < |s.begins| :: s.begins[j].entry != s.begins[k].entry)
            && (forall b <- s.begins :: b.entry < |s.deliveries| && s.deliveries[b.entry] == b)
            && (forall e: nat :: HasBegun(s, e) <==> e in s.running || e in s.acked || e in s.nacked)
  {
    RunKeeps(run, i);
    var s := run[i];
    forall e: nat ensures e < s.stream.cursor <==>
        e in s.held || e in s.running || e in s.acked || e in s.nacked || e in s.undecodable || e in s.lost
    {
      assert e < s.stream.cursor <==> Delivered(s, e);
    }
    forall n1, w1, b1, n2, w2, b2, e: nat | Works(s, n1, w1, e, b1) && Works(s, n2, w2, e, b2)
      ensures n1 == n2 && w1 == w2
    {
      assert e in (if b1 then s.running else s.held) && e in (if b2 then s.running else s.held);
    }
  }

  /**
   The pending list over every run: a delivered entry is off it if and only if some acked task,
   acknowledged after the entry was delivered, has the entry's stream ID as its own task ID.
   */
  lemma PendingIff(run: seq<State>, i: nat, e: nat)
    requires IsRun(run) && i < |run| && e < run[i].stream.cursor && e < |run[i].stream.log|
    ensures var s := run[i];
            s.stream.log[e].streamId !in s.stream.pending <==>
              exists a <- s.acks ::
                && e < a.at && a.entry in s.acked && a.entry < |s.stream.log| && s.stream.log[a.entry].task.Some?
                && s.stream.log[a.entry].task.value.id == a.id == s.stream.log[e].streamId
  {
    RunKeeps(run, i);
    assert run[i].stream.log[e].streamId in run[i].stream.pending <==> !Cleared(run[i], e);
  }

  /** One completion: it takes an entry off the list if and only if the task's ID is the stream ID. */
  lemma AckUnlistsIff(s: State, n: nat, w: nat, e: nat)
    requires Enabled(s, Complete(n, w, true, true)) && e < |s.stream.log| && s.stream.log[e].streamId in s.stream.pending
    ensures s.stream.log[e].streamId !in Apply(s, Complete(n, w, true, true)).stream.pending
            <==> s.stream.log[s.nodes[n].workers[w].entry].task.value.id == s.stream.log[e].streamId
  {
  }

  /**
   As long as no task's ID happens to be a stream ID, `Ack` clears nothing: every entry ever
   delivered is still pending in Redis.
   */
  lemma AckClearsNothing(run: seq<State>, i: nat)
    requires IsRun(run) && i < |run|
    requires forall e <- run[i].stream.log, f <- run[i].stream.log | f.task.Some? :: f.task.value.id != e.streamId
    ensures forall id :: id in run[i].stream.pending <==>
              exists e: nat :: e < run[i].stream.cursor && e < |run[i].stream.log| && run[i].stream.log[e].streamId == id
  {
    RunKeeps(run, i);
    var s := run[i];
    forall e: nat | e < s.stream.cursor ensures s.stream.log[e].streamId in s.stream.pending {
      PendingIff(run, i, e);
      forall a <- s.acks | a.entry < |s.stream.log| && s.stream.log[a.entry].task.Some?
        ensures s.stream.log[a.entry].task.value.id != s.stream.log[e].streamId
      {
        assert s.stream.log[a.entry] in s.stream.log && s.stream.log[e] in s.stream.log;
      }
    }
  }

  // ---------- shutdown ----------

  /** What began on node `n`. */
  function BegunOn(begins: seq<Receipt>, n: nat): seq<Receipt> {
    if begins == [] then []
    else
      var last := begins[|begins| - 1];
      BegunOn(begins[..|begins| - 1], n) + if last.node == n then [last] else []
  }

  lemma BegunOnSnoc(begins: seq<Receipt>, b: Receipt, n: nat)
    ensures BegunOn(begins + [b], n) == BegunOn(begins, n) + if b.node == n then [b] else []
  {
    assert (begins + [b])[..|begins|] == begins;
  }

  lemma NothingBusy(node: Node)
    requires NodeOk(node) && node.shutdown == ReturnedNil
    ensures forall w | 0 <= w < |node.workers| :: !Busy(node.workers[w])
  {
    forall w | 0 <= w < |node.workers| ensures !Busy(node.workers[w]) {
      assert node.workers[w] in node.workers;
    }
  }

  /** What one step leaves alone in a pool whose `Shutdown` has returned nil. */
  predicate StaysShut(s: State, s': State, n: nat) {
    n < |s.nodes| && s.nodes[n].shutdown == ReturnedNil ==>
      && |s'.nodes| == |s.nodes| && s'.nodes[n].shutdown == ReturnedNil
      && BegunOn(s'.begins, n) == BegunOn(s.begins, n)
  }

  /** In one step on a pool whose `quit` is closed, each task that begins makes one more worker late. */
  predicate StaysQuit(s: State, s': State, n: nat) {
    n < |s.nodes| && QuitClosed(s.nodes[n]) ==>
      && |s'.nodes| == |s.nodes| && QuitClosed(s'.nodes[n])
      && s'.nodes[n].concurrency == s.nodes[n].concurrency
      && |BegunOn(s'.begins, n)| - |BegunOn(s.begins, n)| == |s'.nodes[n].late| - |s.nodes[n].late|
  }

  /** Steps that begin nothing. */
  lemma OthersBeginNothing(s: State, step: Step, n: nat)
    requires Enabled(s, step) && n < |s.nodes| && !step.BeginTask?
    ensures var s' := Apply(s, step);
            && s'.begins == s.begins && |s'.nodes| == |s.nodes|
            && s'.nodes[n].late == s.nodes[n].late && s'.nodes[n].concurrency == s.nodes[n].concurrency
            && (QuitClosed(s.nodes[n]) ==> QuitClosed(s'.nodes[n]))
            && (s.nodes[n].shutdown == ReturnedNil ==> s'.nodes[n].shutdown == ReturnedNil)
  {
  }

  lemma StepStaysShut(s: State, step: Step, n: nat)
    requires Enabled(s, step) && n < |s.nodes| && NodeOk(s.nodes[n])
    ensures StaysShut(s, Apply(s, step), n)
  {
    if step.BeginTask? {
      BegunOnSnoc(s.begins, Receipt(s.nodes[step.n].workers[step.w].entry, step.n, step.w), n);
      if s.nodes[n].shutdown == ReturnedNil {
        NothingBusy(s.nodes[n]);
      }
    } else {
      OthersBeginNothing(s, step, n);
    }
  }

  lemma StepStaysQuit(s: State, step: Step, n: nat)
    requires Enabled(s, step) && n < |s.nodes| && NodeOk(s.nodes[n])
    ensures StaysQuit(s, Apply(s, step), n)
  {
    if step.BeginTask? {
      BegunOnSnoc(s.begins, Receipt(s.nodes[step.n].workers[step.w].entry, step.n, step.w), n);
      if step.n == n {
        BeginKeeps(s.nodes[n], step.w, s.nodes[n].workers[step.w].entry);
      }
    } else {
      OthersBeginNothing(s, step, n);
    }
  }

  /** Every step of a run is one of those. */
  lemma RunStays(run: seq<State>, n: nat)
    requires IsRun(run)
    ensures forall k | 0 <= k < |run| - 1 :: StaysShut(run[k], run[k + 1], n) && StaysQuit(run[k], run[k + 1], n)
  {
    forall k | 0 <= k < |run| - 1 ensures StaysShut(run[k], run[k + 1], n) && StaysQuit(run[k], run[k + 1], n) {
      RunKeeps(run, k);
      assert Next(run[k], run[k + 1]);
      var step :| Enabled(run[k], step) && run[k + 1] == Apply(run[k], step);
      if n < |run[k].nodes| {
        assert run[k].nodes[n] in run[k].nodes;
        StepStaysShut(run[k], step, n);
        StepStaysQuit(run[k], step, n);
      }
    }
  }

  lemma {:induction false} ShutFrom(run: seq<State>, i: nat, j: nat, n: nat)
    requires forall k | 0 <= k < |run| - 1 :: StaysShut(run[k], run[k + 1], n)
    requires i <= j < |run| && n < |run[i].nodes| && run[i].nodes[n].shutdown == ReturnedNil
    ensures |run[j].nodes| == |run[i].nodes| && run[j].nodes[n].shutdown == ReturnedNil
    ensures BegunOn(run[j].begins, n) == BegunOn(run[i].begins, n)
    decreases j
  {
    if i < j {
      ShutFrom(run, i, j - 1, n);
      assert StaysShut(run[j - 1], run[j - 1 + 1], n);
    }
  }

  lemma {:induction false} QuitFrom(run: seq<State>, i: nat, j: nat, n: nat)
    requires forall k | 0 <= k < |run| - 1 :: StaysQuit(run[k], run[k + 1], n)
    requires i <= j < |run| && n < |run[i].nodes| && QuitClosed(run[i].nodes[n])
    ensures |run[j].nodes| == |run[i].nodes| && QuitClosed(run[j].nodes[n])
    ensures run[j].nodes[n].concurrency == run[i].nodes[n].concurrency
    ensures |BegunOn(run[j].begins, n)| - |BegunOn(run[i].begins, n)| == |run[j].nodes[n].late| - |run[i].nodes[n].late|
    decreases j
  {
    if i < j {
      QuitFrom(run, i, j - 1, n);
      assert StaysQuit(run[j - 1], run[j - 1 + 1], n);
    }
  }

  /**
   Graceful shutdown: once `Shutdown` has returned nil, from then on no worker of the pool is
   fetching, holding or processing a task and none ever begins, even when `Start` was still spawning.
   */
  lemma GracefulShutdown(run: seq<State>, i: nat, j: nat, n: nat)
    requires IsRun(run) && i <= j < |run| && n < |run[i].nodes| && run[i].nodes[n].shutdown == ReturnedNil
    ensures |run[j].nodes| == |run[i].nodes| && run[j].nodes[n].shutdown == ReturnedNil
    ensures forall w | 0 <= w < |run[j].nodes[n].workers| :: !Busy(run[j].nodes[n].workers[w])
    ensures BegunOn(run[j].begins, n) == BegunOn(run[i].begins, n)
  {
    RunStays(run, n);
    ShutFrom(run, i, j, n);
    RunKeeps(run, j);
    assert run[j].nodes[n] in run[j].nodes;
    NothingBusy(run[j].nodes[n]);
  }

  /** From any state in which `quit` is closed, at most `concurrency` further tasks begin on the pool. */
  lemma FewLateTasks(run: seq<State>, i: nat, j: nat, n: nat)
    requires IsRun(run) && i <= j < |run| && n < |run[i].nodes| && QuitClosed(run[i].nodes[n])
    ensures |BegunOn(run[j].begins, n)| <= |BegunOn(run[i].begins, n)| + run[i].nodes[n].concurrency
  {
    RunStays(run, n);
    QuitFrom(run, i, j, n);
    RunKeeps(run, j);
    assert run[j].nodes[n] in run[j].nodes;
    LateBound(run[j].nodes[n]);
  }
}
