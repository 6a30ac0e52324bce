/**
 The workflow engine: a run follows `Next[0]` after a success and `OnError` after a failure.

 Handlers are an oracle: `handle(k, id, node, payload)` is what the handler of the node's type
 answers as the k-th call of the run, so it may answer differently every time.
 */
module Workflow {
  import opened Wrappers

  type Payload = string

  datatype Node = Node(kind: string, next: seq<string>, onError: string)

  datatype Def = Def(nodes: map<string, Node>, entry: string)

  datatype Outcome = Output(payload: Payload) | Failure(message: string)

  type Handle = (nat, string, Node, Payload) -> Outcome

  datatype RunError = NodeNotFound(id: string) | NoHandler(kind: string) | HandlerFailed(message: string)

  datatype Status = Running | Completed | Failed

  datatype NodeState = NodeState(status: Status, input: Payload, output: Option<Payload>, error: Option<string>)

  /** One handler call. */
  datatype Visit = Visit(id: string, input: Payload, outcome: Outcome)

  /** `entered` is the node left in state Running for want of a handler. */
  datatype End = Done(output: Payload) | Stopped(error: RunError, entered: Option<string>)

  // ---------- what an execution is ----------

  /** Before visit `n`: the latest successful output, or the run's input. */
  function Latest(visits: seq<Visit>, n: nat, input: Payload): Payload
    requires n <= |visits|
  {
    if n == 0 then input
    else if visits[n - 1].outcome.Output? then visits[n - 1].outcome.payload
    else Latest(visits, n - 1, input)
  }

  /** Where the graph leads after a visit; `None` when the run ends there. */
  function Successor(def: Def, v: Visit): Option<string> {
    if v.id !in def.nodes then None
    else
      var node := def.nodes[v.id];
      match v.outcome
      case Output(_) => if node.next == [] then None else Some(node.next[0])
      case Failure(_) => if node.onError == "" then None else Some(node.onError)
  }

  function Position(def: Def, visits: seq<Visit>, n: nat): Option<string>
    requires n <= |visits|
  {
    if n == 0 then Some(def.entry) else Successor(def, visits[n - 1])
  }

  /** At this position a handler is called. */
  predicate CanStep(def: Def, kinds: set<string>, at: Option<string>) {
    at.Some? && at.value != "" && at.value in def.nodes && def.nodes[at.value].kind in kinds
  }

  /** Each visit is at the position the earlier ones lead to, on the latest payload. */
  ghost predicate IsPath(def: Def, kinds: set<string>, handle: Handle, input: Payload, visits: seq<Visit>) {
    forall j | 0 <= j < |visits| :: IsVisit(def, kinds, handle, input, visits, j)
  }

  ghost predicate IsVisit(def: Def, kinds: set<string>, handle: Handle, input: Payload, visits: seq<Visit>, j: nat)
    requires j < |visits|
  {
    var at, payload := Position(def, visits, j), Latest(visits, j, input);
    && CanStep(def, kinds, at)
    && visits[j] == Visit(at.value, payload, handle(j, at.value, def.nodes[at.value], payload))
  }

  /** How a run that cannot go on ends. */
  function EndAt(def: Def, visits: seq<Visit>, input: Payload): End {
    var n := |visits|;
    var at := Position(def, visits, n);
    if at.None? && n > 0 && visits[n - 1].outcome.Failure? then
      Stopped(HandlerFailed(visits[n - 1].outcome.message), None)
    else if at.None? || at.value == "" then Done(Latest(visits, n, input))
    else if at.value !in def.nodes then Stopped(NodeNotFound(at.value), None)
    else Stopped(NoHandler(def.nodes[at.value].kind), at)
  }

  /** A complete execution: a path that leads to a position where no handler is called. */
  ghost predicate IsExecution(def: Def, kinds: set<string>, handle: Handle, input: Payload, visits: seq<Visit>, end: End) {
    && IsPath(def, kinds, handle, input, visits)
    && !CanStep(def, kinds, Position(def, visits, |visits|))
    && end == EndAt(def, visits, input)
  }

  /** What precedes position `n` decides what is latest there. */
  lemma {:induction false} LatestPrefix(a: seq<Visit>, b: seq<Visit>, n: nat, input: Payload)
    requires n <= |a| && n <= |b| && forall i | 0 <= i < n :: a[i] == b[i]
    ensures Latest(a, n, input) == Latest(b, n, input)
  {
    if n > 0 {
      LatestPrefix(a, b, n - 1, input);
    }
  }

  // ---------- an execution, edge by edge ----------

  /** The k-th handler call, at node `id` on `payload`. */
  ghost predicate IsCall(def: Def, kinds: set<string>, handle: Handle, v: Visit, k: nat, id: string, payload: Payload) {
    && id != "" && id in def.nodes && def.nodes[id].kind in kinds
    && v == Visit(id, payload, handle(k, id, def.nodes[id], payload))
  }

  /** A run that is led to `id` with `payload` ends there, without a call. */
  ghost predicate EndsAt(def: Def, kinds: set<string>, id: string, payload: Payload, end: End) {
    if id == "" then end == Done(payload)
    else if id !in def.nodes then end == Stopped(NodeNotFound(id), None)
    else def.nodes[id].kind !in kinds && end == Stopped(NoHandler(def.nodes[id].kind), Some(id))
  }

  /** After an output the run goes along the first edge with that output, after a failure along `OnError`. */
  ghost predicate GoesOnTo(def: Def, kinds: set<string>, handle: Handle, v: Visit, next: Visit, k: nat) {
    && v.id in def.nodes
    && (var node := def.nodes[v.id];
        match v.outcome
        case Output(output) => node.next != [] && IsCall(def, kinds, handle, next, k, node.next[0], output)
        case Failure(_) => node.onError != "" && IsCall(def, kinds, handle, next, k, node.onError, v.input))
  }

  /** The run ends after this visit: no edge is left, or it leads nowhere. */
  ghost predicate EndsAfter(def: Def, kinds: set<string>, v: Visit, end: End) {
    && v.id in def.nodes
    && (var node := def.nodes[v.id];
        match v.outcome
        case Output(output) =>
          if node.next == [] then end == Done(output) else EndsAt(def, kinds, node.next[0], output, end)
        case Failure(message) =>
          if node.onError == "" then end == Stopped(HandlerFailed(message), None)
          else EndsAt(def, kinds, node.onError, v.input, end))
  }

  ghost predicate FollowsEdges(def: Def, kinds: set<string>, handle: Handle, input: Payload, visits: seq<Visit>, end: End) {
    if visits == [] then EndsAt(def, kinds, def.entry, input, end)
    else
      && IsCall(def, kinds, handle, visits[0], 0, def.entry, input)
      && (forall j | 0 <= j < |visits| - 1 :: GoesOnTo(def, kinds, handle, visits[j], visits[j + 1], j + 1))
      && EndsAfter(def, kinds, visits[|visits| - 1], end)
  }

  lemma {:induction false} InputIsLatest(def: Def, kinds: set<string>, handle: Handle, input: Payload, visits: seq<Visit>,
                                         end: End, j: nat)
    requires FollowsEdges(def, kinds, handle, input, visits, end) && j < |visits|
    ensures visits[j].input == Latest(visits, j, input) && IsVisit(def, kinds, handle, input, visits, j)
  {
    if j > 0 {
      InputIsLatest(def, kinds, handle, input, visits, end, j - 1);
      assert GoesOnTo(def, kinds, handle, visits[j - 1], visits[j - 1 + 1], j);
    }
  }

  /**
   An execution is exactly a run that follows the edges: from the entry, after each output along `Next[0]`
   with that output, after each failure along a non-empty `OnError` with the payload that failed, until
   there is no edge or it leads to no handler.
   */
  lemma ExecutionFollowsEdges(def: Def, kinds: set<string>, handle: Handle, input: Payload, visits: seq<Visit>, end: End)
    ensures IsExecution(def, kinds, handle, input, visits, end) <==>
              FollowsEdges(def, kinds, handle, input, visits, end)
  {
    if IsExecution(def, kinds, handle, input, visits, end) {
      forall j | 0 <= j < |visits| ensures IsVisit(def, kinds, handle, input, visits, j) {}
      forall j | 0 <= j < |visits| - 1 ensures GoesOnTo(def, kinds, handle, visits[j], visits[j + 1], j + 1) {
        assert IsVisit(def, kinds, handle, input, visits, j) && IsVisit(def, kinds, handle, input, visits, j + 1);
      }
      if visits != [] {
        assert IsVisit(def, kinds, handle, input, visits, |visits| - 1);
        assert IsVisit(def, kinds, handle, input, visits, 0);
        assert EndsAfter(def, kinds, visits[|visits| - 1], end);
        assert IsCall(def, kinds, handle, visits[0], 0, def.entry, input);
      } else {
        assert EndsAt(def, kinds, def.entry, input, end);
      }
    }
    if FollowsEdges(def, kinds, handle, input, visits, end) {
      FollowingIsExecution(def, kinds, handle, input, visits, end);
    }
  }

  lemma FollowingIsExecution(def: Def, kinds: set<string>, handle: Handle, input: Payload, visits: seq<Visit>, end: End)
    requires FollowsEdges(def, kinds, handle, input, visits, end)
    ensures IsExecution(def, kinds, handle, input, visits, end)
  {
    forall j | 0 <= j < |visits| ensures IsVisit(def, kinds, handle, input, visits, j) {
      InputIsLatest(def, kinds, handle, input, visits, end, j);
    }
    if visits != [] {
      InputIsLatest(def, kinds, handle, input, visits, end, |visits| - 1);
    }
  }

  // ---------- walks the engine can be led on ----------

  /** A handler at `from` can send the engine to `to`. */
  predicate Follows(def: Def, kinds: set<string>, from: string, to: string) {
    && CanStep(def, kinds, Some(from))
    && (var node := def.nodes[from]; (node.next != [] && node.next[0] == to) || (to != "" && node.onError == to))
  }

  /** A walk from the entry along followed edges through nodes with handlers. */
  ghost predicate IsWalk(def: Def, kinds: set<string>, walk: seq<string>) {
    && (walk != [] ==> walk[0] == def.entry)
    && (forall k | 0 <= k < |walk| :: CanStep(def, kinds, Some(walk[k])))
    && (forall k | 0 <= k < |walk| - 1 :: Follows(def, kinds, walk[k], walk[k + 1]))
  }

  /** No such walk is longer than there are nodes. */
  ghost predicate WalksAreShort(def: Def, kinds: set<string>) {
    forall walk | IsWalk(def, kinds, walk) :: |walk| <= |def.nodes|
  }

  /** After the walk the engine can be at `at`. */
  ghost predicate LeadsTo(def: Def, kinds: set<string>, walk: seq<string>, at: string) {
    IsWalk(def, kinds, walk) && if walk == [] then at == def.entry else Follows(def, kinds, walk[|walk| - 1], at)
  }

  lemma WalkSnoc(def: Def, kinds: set<string>, walk: seq<string>, at: string)
    requires LeadsTo(def, kinds, walk, at) && CanStep(def, kinds, Some(at))
    ensures IsWalk(def, kinds, walk + [at])
    ensures forall next | Follows(def, kinds, at, next) :: LeadsTo(def, kinds, walk + [at], next)
  {
  }

  /** A walk that meets a node twice can go round once more. */
  lemma Pump(def: Def, kinds: set<string>, walk: seq<string>, i: nat, j: nat)
    requires IsWalk(def, kinds, walk) && i < j < |walk| && walk[i] == walk[j]
    ensures IsWalk(def, kinds, walk[..j] + walk[i..])
  {
    var longer := walk[..j] + walk[i..];
    forall k | 0 <= k < |longer| - 1 ensures Follows(def, kinds, longer[k], longer[k + 1]) {
      if k < j - 1 {
        assert Follows(def, kinds, walk[k], walk[k + 1]);
      } else if k == j - 1 {
        assert Follows(def, kinds, walk[k], walk[k + 1]);
        assert longer[k + 1] == walk[i];
      } else {
        assert Follows(def, kinds, walk[i + k - j], walk[i + k - j + 1]);
      }
    }
    forall k | 0 <= k < |longer| ensures CanStep(def, kinds, Some(longer[k])) {
      assert longer[k] == if k < j then walk[k] else walk[i + k - j];
    }
  }

  lemma {:induction false} RepeatsMakeLong(def: Def, kinds: set<string>, walk: seq<string>, i: nat, j: nat)
    requires IsWalk(def, kinds, walk) && i < j < |walk| && walk[i] == walk[j]
    ensures !WalksAreShort(def, kinds)
    decreases |def.nodes| - |walk|
  {
    if |walk| <= |def.nodes| {
      Pump(def, kinds, walk, i, j);
      RepeatsMakeLong(def, kinds, walk[..j] + walk[i..], i, j);
    }
  }

  lemma {:induction false} DistinctFit(ids: seq<string>, all: set<string>)
    requires forall i, j | 0 <= i < j < |ids| :: ids[i] != ids[j]
    requires forall id <- ids :: id in all
    ensures |ids| <= |all|
  {
    if ids != [] {
      var init, last := ids[..|ids| - 1], ids[|ids| - 1];
      forall id <- init ensures id in all - {last} {
        assert id in ids;
      }
      DistinctFit(init, all - {last});
    }
  }

  /** Pigeonhole: a walk longer than there are nodes meets one twice. */
  lemma LongMakesRepeats(def: Def, kinds: set<string>, walk: seq<string>) returns (i: nat, j: nat)
    requires IsWalk(def, kinds, walk) && |walk| > |def.nodes|
    ensures i < j < |walk| && walk[i] == walk[j]
  {
    if forall i, j | 0 <= i < j < |walk| :: walk[i] != walk[j] {
      forall id <- walk ensures id in def.nodes.Keys {
        var k :| 0 <= k < |walk| && walk[k] == id;
        assert CanStep(def, kinds, Some(walk[k]));
      }
      DistinctFit(walk, def.nodes.Keys);
      assert false;
    }
    i, j :| 0 <= i < j < |walk| && walk[i] == walk[j];
  }

  /** Every edge that a handler can send the engine along goes down in rank. */
  ghost predicate Ranked(def: Def, kinds: set<string>, rank: string -> nat) {
    forall from, to | Follows(def, kinds, from, to) && CanStep(def, kinds, Some(to)) :: rank(to) < rank(from)
  }

  lemma {:induction false} RankFalls(def: Def, kinds: set<string>, rank: string -> nat, walk: seq<string>, i: nat, j: nat)
    requires Ranked(def, kinds, rank) && IsWalk(def, kinds, walk) && i < j < |walk|
    ensures rank(walk[j]) < rank(walk[i])
    decreases j
  {
    assert Follows(def, kinds, walk[j - 1], walk[j - 1 + 1]);
    if i < j - 1 {
      RankFalls(def, kinds, rank, walk, i, j - 1);
    }
  }

  /** A rank along the edges is one way to have short walks. */
  lemma RankedWalksAreShort(def: Def, kinds: set<string>, rank: string -> nat)
    requires Ranked(def, kinds, rank)
    ensures WalksAreShort(def, kinds)
  {
    forall walk | IsWalk(def, kinds, walk) ensures |walk| <= |def.nodes| {
      if |walk| > |def.nodes| {
        var i, j := LongMakesRepeats(def, kinds, walk);
        RankFalls(def, kinds, rank, walk, i, j);
      }
    }
  }

  // ---------- the recursive interpreter ----------

  /** The visits of a run that has been led along `walk` to `at`, and its end. */
  ghost function Interpret(def: Def, kinds: set<string>, handle: Handle, walk: seq<string>, at: string, payload: Payload)
    : (r: (seq<Visit>, End))
    requires WalksAreShort(def, kinds) && LeadsTo(def, kinds, walk, at)
    decreases |def.nodes| - |walk|
  {
    if !CanStep(def, kinds, Some(at)) then
      ([], if at == "" then Done(payload)
           else if at !in def.nodes then Stopped(NodeNotFound(at), None)
           else Stopped(NoHandler(def.nodes[at].kind), Some(at)))
    else
      WalkSnoc(def, kinds, walk, at);
      var v := Visit(at, payload, handle(|walk|, at, def.nodes[at], payload));
      var payload' := if v.outcome.Output? then v.outcome.payload else payload;
      match Successor(def, v)
      case None => ([v], if v.outcome.Output? then Done(payload') else Stopped(HandlerFailed(v.outcome.message), None))
      case Some(next) =>
        assert Follows(def, kinds, at, next);
        var rest := Interpret(def, kinds, handle, walk + [at], next, payload');
        ([v] + rest.0, rest.1)
  }

  /** One round: the visit made at `at` on `payload`, and what the interpreter does after it. */
  lemma InterpretStep(def: Def, kinds: set<string>, handle: Handle, walk: seq<string>, at: string, payload: Payload)
    returns (v: Visit, rest: (seq<Visit>, End))
    requires WalksAreShort(def, kinds) && LeadsTo(def, kinds, walk, at) && CanStep(def, kinds, Some(at))
    ensures |walk| < |def.nodes|
    ensures v == Visit(at, payload, handle(|walk|, at, def.nodes[at], payload))
    ensures Interpret(def, kinds, handle, walk, at, payload) == ([v] + rest.0, rest.1)
    ensures var payload' := if v.outcome.Output? then v.outcome.payload else payload;
            match Successor(def, v)
            case Some(next) =>
              && LeadsTo(def, kinds, walk + [at], next)
              && rest == Interpret(def, kinds, handle, walk + [at], next, payload')
            case None =>
              rest == ([], if v.outcome.Output? then Done(payload') else Stopped(HandlerFailed(v.outcome.message), None))
  {
    WalkSnoc(def, kinds, walk, at);
    v := Visit(at, payload, handle(|walk|, at, def.nodes[at], payload));
    var payload' := if v.outcome.Output? then v.outcome.payload else payload;
    var next := Successor(def, v);
    if next.Some? {
      assert Follows(def, kinds, at, next.value);
      rest := Interpret(def, kinds, handle, walk + [at], next.value, payload');
    } else {
      rest := ([], if v.outcome.Output? then Done(payload') else Stopped(HandlerFailed(v.outcome.message), None));
      assert [v] + [] == [v];
    }
  }

  /** The interpreter continues any path to an execution. */
  lemma {:induction false} InterpretContinues(def: Def, kinds: set<string>, handle: Handle, input: Payload,
                                              before: seq<Visit>, walk: seq<string>, at: string)
    requires WalksAreShort(def, kinds) && LeadsTo(def, kinds, walk, at) && |walk| == |before|
    requires IsPath(def, kinds, handle, input, before) && Position(def, before, |before|) == Some(at)
    ensures var (later, end) := Interpret(def, kinds, handle, walk, at, Latest(before, |before|, input));
            IsExecution(def, kinds, handle, input, before + later, end)
    decreases |def.nodes| - |walk|
  {
    var payload := Latest(before, |before|, input);
    if !CanStep(def, kinds, Some(at)) {
      assert before + [] == before;
    } else {
      var v, rest := InterpretStep(def, kinds, handle, walk, at, payload);
      PathSnoc(def, kinds, handle, input, before, v);
      Regroup(before, v, rest.0);
      var next := Successor(def, v);
      if next.Some? {
        InterpretContinues(def, kinds, handle, input, before + [v], walk + [at], next.value);
      }
    }
  }

  lemma Regroup(before: seq<Visit>, v: Visit, later: seq<Visit>)
    ensures before + ([v] + later) == before + [v] + later
  {
  }

  lemma PathSnoc(def: Def, kinds: set<string>, handle: Handle, input: Payload, before: seq<Visit>, v: Visit)
    requires IsPath(def, kinds, handle, input, before)
    requires var at, payload := Position(def, before, |before|), Latest(before, |before|, input);
             && CanStep(def, kinds, at)
             && v == Visit(at.value, payload, handle(|before|, at.value, def.nodes[at.value], payload))
    ensures IsPath(def, kinds, handle, input, before + [v])
    ensures Position(def, before + [v], |before| + 1) == Successor(def, v)
    ensures Latest(before + [v], |before| + 1, input)
         == if v.outcome.Output? then v.outcome.payload else Latest(before, |before|, input)
  {
    var now := before + [v];
    forall j | 0 <= j < |now| ensures IsVisit(def, kinds, handle, input, now, j) {
      LatestPrefix(now, before, j, input);
      if j < |before| {
        assert IsVisit(def, kinds, handle, input, before, j);
      }
    }
    LatestPrefix(now, before, |before|, input);
  }

  /** The interpreter's answer is an execution of the definition. */
  lemma InterpretIsExecution(def: Def, kinds: set<string>, handle: Handle, input: Payload)
    requires WalksAreShort(def, kinds)
    ensures var (visits, end) := Interpret(def, kinds, handle, [], def.entry, input);
            IsExecution(def, kinds, handle, input, visits, end)
  {
    InterpretContinues(def, kinds, handle, input, [], [], def.entry);
    var (visits, end) := Interpret(def, kinds, handle, [], def.entry, input);
    assert [] + visits == visits;
  }

  /** There is only one execution. */
  lemma ExecutionIsUnique(def: Def, kinds: set<string>, handle: Handle, input: Payload,
                          a: seq<Visit>, endA: End, b: seq<Visit>, endB: End)
    requires IsExecution(def, kinds, handle, input, a, endA) && IsExecution(def, kinds, handle, input, b, endB)
    ensures a == b && endA == endB
  {
    var n := if |a| <= |b| then |a| else |b|;
    PathsAgree(def, kinds, handle, input, a, b, n);
    assert Position(def, a, n) == Position(def, b, n);
    if n < |b| {
      PathCanStep(def, kinds, handle, input, b, n);
    }
    if n < |a| {
      PathCanStep(def, kinds, handle, input, a, n);
    }
  }

  lemma PathCanStep(def: Def, kinds: set<string>, handle: Handle, input: Payload, visits: seq<Visit>, n: nat)
    requires IsPath(def, kinds, handle, input, visits) && n < |visits|
    ensures CanStep(def, kinds, Position(def, visits, n))
  {
    assert IsVisit(def, kinds, handle, input, visits, n);
  }

  lemma {:induction false} PathsAgree(def: Def, kinds: set<string>, handle: Handle, input: Payload,
                                      a: seq<Visit>, b: seq<Visit>, n: nat)
    requires IsPath(def, kinds, handle, input, a) && IsPath(def, kinds, handle, input, b)
    requires n <= |a| && n <= |b|
    ensures forall i | 0 <= i < n :: a[i] == b[i]
  {
    if n > 0 {
      PathsAgree(def, kinds, handle, input, a, b, n - 1);
      LatestPrefix(a, b, n - 1, input);
      assert IsVisit(def, kinds, handle, input, a, n - 1) && IsVisit(def, kinds, handle, input, b, n - 1);
    }
  }

  // ---------- no node twice ----------

  function Ids(visits: seq<Visit>): seq<string> {
    seq(|visits|, i requires 0 <= i < |visits| => visits[i].id)
  }

  lemma PathIsWalk(def: Def, kinds: set<string>, handle: Handle, input: Payload, visits: seq<Visit>)
    requires IsPath(def, kinds, handle, input, visits)
    ensures IsWalk(def, kinds, Ids(visits))
  {
    var walk := Ids(visits);
    forall k | 0 <= k < |walk|
      ensures CanStep(def, kinds, Some(walk[k]))
      ensures k == 0 ==> walk[k] == def.entry
      ensures k > 0 ==> Follows(def, kinds, walk[k - 1], walk[k])
    {
      assert IsVisit(def, kinds, handle, input, visits, k);
      if k > 0 {
        assert IsVisit(def, kinds, handle, input, visits, k - 1);
      }
    }
    forall k | 0 <= k < |walk| - 1 ensures Follows(def, kinds, walk[k], walk[k + 1]) {
      assert k + 1 > 0;
    }
  }

  /** No node is visited twice, so there are at most as many calls as nodes. */
  lemma NoRevisit(def: Def, kinds: set<string>, handle: Handle, input: Payload, visits: seq<Visit>)
    requires WalksAreShort(def, kinds) && IsPath(def, kinds, handle, input, visits)
    ensures forall i, j | 0 <= i < j < |visits| :: visits[i].id != visits[j].id
    ensures |visits| <= |def.nodes|
  {
    var walk := Ids(visits);
    PathIsWalk(def, kinds, handle, input, visits);
    forall i, j | 0 <= i < j < |visits| ensures visits[i].id != visits[j].id {
      if walk[i] == walk[j] {
        RepeatsMakeLong(def, kinds, walk, i, j);
      }
    }
  }

  /**
   Every run of a definition with short walks, however its handlers answer: it ends after at most
   as many handler calls as there are nodes, calls no node twice, and is the one execution the
   definition allows.
   */
  lemma EveryRun(def: Def, kinds: set<string>, handle: Handle, input: Payload)
    requires WalksAreShort(def, kinds)
    ensures var (visits, end) := Interpret(def, kinds, handle, [], def.entry, input);
            && IsExecution(def, kinds, handle, input, visits, end)
            && |visits| <= |def.nodes|
            && (forall i, j | 0 <= i < j < |visits| :: visits[i].id != visits[j].id)
            && (forall other, otherEnd | IsExecution(def, kinds, handle, input, other, otherEnd) ::
                  other == visits && otherEnd == end)
  {
    var (visits, end) := Interpret(def, kinds, handle, [], def.entry, input);
    InterpretIsExecution(def, kinds, handle, input);
    NoRevisit(def, kinds, handle, input, visits);
    forall other, otherEnd | IsExecution(def, kinds, handle, input, other, otherEnd)
      ensures other == visits && otherEnd == end
    {
      ExecutionIsUnique(def, kinds, handle, input, other, otherEnd, visits, end);
    }
  }

  // ---------- when every run ends ----------

  /** The run with these handlers ends. */
  ghost predicate Ends(def: Def, kinds: set<string>, handle: Handle, input: Payload) {
    exists visits, end :: IsExecution(def, kinds, handle, input, visits, end)
  }

  /** An endless walk from the entry along edges the engine can follow. */
  ghost predicate EndlessWalk(def: Def, kinds: set<string>, walk: nat -> string) {
    && walk(0) == def.entry
    && forall k: nat ::
         && CanStep(def, kinds, Some(walk(k)))
         && (var node := def.nodes[walk(k)];
             (node.next != [] && node.next[0] == walk(k + 1)) || node.onError == walk(k + 1))
  }

  /** Handlers that keep to the walk. */
  function Follow(walk: nat -> string): Handle {
    (k: nat, id: string, node: Node, payload: Payload) =>
      if node.next != [] && node.next[0] == walk(k + 1) then Output(payload) else Failure("")
  }

  lemma {:induction false} WalkGoesOn(def: Def, kinds: set<string>, walk: nat -> string, input: Payload, n: nat)
    returns (visits: seq<Visit>)
    requires EndlessWalk(def, kinds, walk)
    ensures |visits| == n && IsPath(def, kinds, Follow(walk), input, visits) && Position(def, visits, n) == Some(walk(n))
  {
    if n == 0 {
      visits := [];
    } else {
      var before := WalkGoesOn(def, kinds, walk, input, n - 1);
      var at, payload := walk(n - 1), Latest(before, n - 1, input);
      assert CanStep(def, kinds, Some(walk(n - 1)));
      var v := Visit(at, payload, Follow(walk)(n - 1, at, def.nodes[at], payload));
      PathSnoc(def, kinds, Follow(walk), input, before, v);
      visits := before + [v];
      assert walk(n - 1 + 1) == walk(n);
    }
  }

  /** With an endless walk some handlers keep the engine running forever: no execution exists. */
  lemma EndlessRun(def: Def, kinds: set<string>, walk: nat -> string, input: Payload, visits: seq<Visit>, end: End)
    requires EndlessWalk(def, kinds, walk)
    ensures !IsExecution(def, kinds, Follow(walk), input, visits, end)
  {
    if IsExecution(def, kinds, Follow(walk), input, visits, end) {
      var n := |visits|;
      var longer := WalkGoesOn(def, kinds, walk, input, n + 1);
      PathsAgree(def, kinds, Follow(walk), input, visits, longer, n);
      assert Position(def, visits, n) == Position(def, longer, n);
      PathCanStep(def, kinds, Follow(walk), input, longer, n);
    }
  }

  /** Along a walk that meets `walk[i]` again at `j`: the position after `k` steps, going round for ever. */
  function Lasso(i: nat, j: nat, k: nat): (m: nat)
    requires i < j
    ensures m < j
  {
    if k == 0 then 0
    else
      var m := Lasso(i, j, k - 1);
      if m + 1 == j then i else m + 1
  }

  lemma LassoIsEndless(def: Def, kinds: set<string>, walk: seq<string>, i: nat, j: nat)
    returns (endless: nat -> string)
    requires IsWalk(def, kinds, walk) && i < j < |walk| && walk[i] == walk[j]
    ensures EndlessWalk(def, kinds, endless)
  {
    endless := (k: nat) => walk[if Lasso(i, j, k) < |walk| then Lasso(i, j, k) else 0];
    forall k: nat
      ensures CanStep(def, kinds, Some(endless(k)))
      ensures Follows(def, kinds, endless(k), endless(k + 1))
    {
      var m := Lasso(i, j, k);
      assert Follows(def, kinds, walk[m], walk[m + 1]);
      assert endless(k + 1) == walk[m + 1];
    }
  }

  /**
   Termination: every run of a definition ends, however its handlers answer, if and only if no walk
   from its entry along followed edges through nodes with handlers is longer than there are nodes.
   */
  lemma EveryRunEndsIff(def: Def, kinds: set<string>)
    ensures (forall handle: Handle, input: Payload :: Ends(def, kinds, handle, input)) <==> WalksAreShort(def, kinds)
  {
    if WalksAreShort(def, kinds) {
      forall handle: Handle, input: Payload ensures Ends(def, kinds, handle, input) {
        InterpretIsExecution(def, kinds, handle, input);
      }
    } else {
      var walk :| IsWalk(def, kinds, walk) && |walk| > |def.nodes|;
      var i, j := LongMakesRepeats(def, kinds, walk);
      var endless := LassoIsEndless(def, kinds, walk, i, j);
      forall visits, end ensures !IsExecution(def, kinds, Follow(endless), "", visits, end) {
        EndlessRun(def, kinds, endless, "", visits, end);
      }
      assert !Ends(def, kinds, Follow(endless), "");
    }
  }

  /** A node that is its own successor: some run never ends. */
  lemma SelfLoopRunsForEver()
    ensures var def := Def(map["a" := Node("k", ["a"], "")], "a");
            !(forall handle: Handle, input: Payload :: Ends(def, {"k"}, handle, input))
  {
    var def := Def(map["a" := Node("k", ["a"], "")], "a");
    assert IsWalk(def, {"k"}, ["a", "a"]);
    assert |def.nodes| == |def.nodes.Keys| == |{"a"}| == 1;
    EveryRunEndsIff(def, {"k"});
  }

  lemma FirstStep(def: Def, kinds: set<string>, walk: seq<string>)
    requires IsWalk(def, kinds, walk) && |walk| > 1
    ensures exists to :: Follows(def, kinds, def.entry, to)
  {
    assert Follows(def, kinds, walk[0], walk[0 + 1]);
  }

  /** A loop that no run reaches does no harm. */
  lemma UnreachedLoopIsHarmless()
    ensures var def := Def(map["a" := Node("k", [], ""), "b" := Node("k", ["b"], "")], "a");
            forall handle: Handle, input: Payload :: Ends(def, {"k"}, handle, input)
  {
    var def := Def(map["a" := Node("k", [], ""), "b" := Node("k", ["b"], "")], "a");
    assert "a" in def.nodes.Keys && def.nodes.Keys == {"a", "b"};
    forall walk | IsWalk(def, {"k"}, walk) ensures |walk| <= |def.nodes| {
      if |walk| > 1 {
        FirstStep(def, {"k"}, walk);
      }
    }
    EveryRunEndsIff(def, {"k"});
  }

  // ---------- node states ----------

  function StateOf(v: Visit): NodeState {
    match v.outcome
    case Output(output) => NodeState(Completed, v.input, Some(output), None)
    case Failure(message) => NodeState(Failed, v.input, None, Some(message))
  }

  /** The states the first `n` visits leave behind, later ones overwriting. */
  function StatesOf(visits: seq<Visit>, n: nat): map<string, NodeState>
    requires n <= |visits|
  {
    if n == 0 then map[] else StatesOf(visits, n - 1)[visits[n - 1].id := StateOf(visits[n - 1])]
  }

  /** A node without a handler is entered but never called. */
  function FinalStates(visits: seq<Visit>, input: Payload, end: End): map<string, NodeState> {
    var states := StatesOf(visits, |visits|);
    match end
    case Stopped(_, Some(id)) => states[id := NodeState(Running, Latest(visits, |visits|, input), None, None)]
    case _ => states
  }

  /** No later visit is at the same node. */
  predicate IsLast(visits: seq<Visit>, n: nat, j: nat)
    requires j < n <= |visits|
  {
    forall k | j < k < n :: visits[k].id != visits[j].id
  }

  lemma {:induction false} StatesAreVisited(visits: seq<Visit>, n: nat)
    requires n <= |visits|
    ensures forall id :: id in StatesOf(visits, n) <==> exists j :: 0 <= j < n && visits[j].id == id
    ensures forall id <- StatesOf(visits, n) :: StatesOf(visits, n)[id].status in {Completed, Failed}
  {
    if n > 0 {
      StatesAreVisited(visits, n - 1);
      var last := visits[n - 1];
      forall id ensures id in StatesOf(visits, n) <==> exists j :: 0 <= j < n && visits[j].id == id {
        if id == last.id {
          assert visits[n - 1].id == id;
        }
      }
    }
  }

  lemma {:induction false} LastVisitStays(visits: seq<Visit>, n: nat, j: nat)
    requires j < n <= |visits| && IsLast(visits, n, j)
    ensures visits[j].id in StatesOf(visits, n) && StatesOf(visits, n)[visits[j].id] == StateOf(visits[j])
  {
    if j < n - 1 {
      assert IsLast(visits, n - 1, j);
      LastVisitStays(visits, n - 1, j);
      assert visits[n - 1].id != visits[j].id;
    }
  }

  /**
   What a completed run shows: its output is the latest successful output, or the run's input; the
   node states are those of exactly the visited nodes, each Completed or Failed, and have as input
   what was the latest successful output, or the run's input, at the node's last visit.
   */
  lemma CompletedRun(def: Def, kinds: set<string>, handle: Handle, input: Payload, visits: seq<Visit>, end: End)
    requires IsExecution(def, kinds, handle, input, visits, end) && end.Done?
    ensures end.output == Latest(visits, |visits|, input)
    ensures var states := FinalStates(visits, input, end);
            && (forall id <- states :: states[id].status in {Completed, Failed})
            && (forall id :: id in states <==> exists j :: 0 <= j < |visits| && visits[j].id == id)
            && (forall j: nat | j < |visits| && IsLast(visits, |visits|, j) ::
                  visits[j].id in states && states[visits[j].id].input == Latest(visits, j, input))
    ensures WalksAreShort(def, kinds) ==> forall j: nat | j < |visits| :: IsLast(visits, |visits|, j)
  {
    StatesAreVisited(visits, |visits|);
    forall j: nat | j < |visits| && IsLast(visits, |visits|, j)
      ensures visits[j].id in FinalStates(visits, input, end)
      ensures FinalStates(visits, input, end)[visits[j].id].input == Latest(visits, j, input)
    {
      LastVisitStays(visits, |visits|, j);
      assert IsVisit(def, kinds, handle, input, visits, j);
    }
    if WalksAreShort(def, kinds) {
      NoRevisit(def, kinds, handle, input, visits);
    }
  }

  /** What the run is on when it ends: the last output, or the payload that failed last. */
  function PayloadAtEnd(visits: seq<Visit>, input: Payload): Payload {
    if visits == [] then input
    else
      var last := visits[|visits| - 1];
      match last.outcome
      case Output(output) => output
      case Failure(_) => last.input
  }

  /**
   The node states of any run: of exactly the visited nodes, and of the one entered in vain; a node whose
   last call gave an output is Completed with it, one whose last call failed is Failed with the message.
   */
  lemma NodeStatesOfRun(def: Def, kinds: set<string>, handle: Handle, input: Payload, visits: seq<Visit>, end: End)
    requires IsExecution(def, kinds, handle, input, visits, end)
    ensures var states := FinalStates(visits, input, end);
            && (forall id :: id in states <==>
                  (exists j :: 0 <= j < |visits| && visits[j].id == id) || (end.Stopped? && end.entered == Some(id)))
            && (forall j: nat | j < |visits| && IsLast(visits, |visits|, j) ::
                  && visits[j].id in states
                  && states[visits[j].id] == match visits[j].outcome
                                             case Output(output) => NodeState(Completed, visits[j].input, Some(output), None)
                                             case Failure(message) => NodeState(Failed, visits[j].input, None, Some(message)))
            && (end.Stopped? && end.entered.Some? ==>
                  states[end.entered.value] == NodeState(Running, PayloadAtEnd(visits, input), None, None))
  {
    StatesAreVisited(visits, |visits|);
    forall j: nat | j < |visits| ensures IsVisit(def, kinds, handle, input, visits, j) {}
    forall j: nat | j < |visits| && IsLast(visits, |visits|, j)
      ensures visits[j].id in StatesOf(visits, |visits|) && StatesOf(visits, |visits|)[visits[j].id] == StateOf(visits[j])
      ensures CanStep(def, kinds, Some(visits[j].id))
    {
      LastVisitStays(visits, |visits|, j);
      assert IsVisit(def, kinds, handle, input, visits, j);
    }
    if visits != [] {
      assert IsVisit(def, kinds, handle, input, visits, |visits| - 1);
    }
  }

  // ---------- the code ----------

  class WorkflowRun {
    var status: Status
    var output: Option<Payload>
    var error: Option<RunError>
    var nodeStates: map<string, NodeState>

    constructor ()
      ensures status == Running && output == None && error == None && nodeStates == map[]
    {
      status, output, error, nodeStates := Running, None, None, map[];
    }

    /** The node's state when the walk reaches it. */
    method Enter(id: string, input: Payload)
      modifies this`nodeStates
      ensures nodeStates == old(nodeStates)[id := NodeState(Running, input, None, None)]
    {
      nodeStates := nodeStates[id := NodeState(Running, input, None, None)];
    }

    /** Its state after the handler's answer, whatever it was before. */
    method Record(id: string, outcome: Outcome)
      requires id in nodeStates && nodeStates[id] == NodeState(Running, nodeStates[id].input, None, None)
      modifies this`nodeStates
      ensures nodeStates == old(nodeStates)[id := StateOf(Visit(id, old(nodeStates)[id].input, outcome))]
    {
      var ns := nodeStates[id];
      match outcome
      case Failure(message) => nodeStates := nodeStates[id := ns.(status := Failed, error := Some(message))];
      case Output(output) => nodeStates := nodeStates[id := ns.(status := Completed, output := Some(output))];
    }
  }

  /** Where the walk goes on: the visit at the current position, and what it leaves. */
  lemma NextVisit(def: Def, kinds: set<string>, handle: Handle, input: Payload, visits: seq<Visit>, end: End, n: nat)
    requires IsExecution(def, kinds, handle, input, visits, end) && n <= |visits|
    ensures CanStep(def, kinds, Position(def, visits, n)) <==> n < |visits|
    ensures n < |visits| ==>
              var at, payload := Position(def, visits, n).value, Latest(visits, n, input);
              visits[n] == Visit(at, payload, handle(n, at, def.nodes[at], payload))
    ensures n == |visits| ==> end == EndAt(def, visits, input)
  {
    if n < |visits| {
      assert IsVisit(def, kinds, handle, input, visits, n);
    }
  }

  /**
   `executeDAG` on any definition and handlers with which the run ends; `visits` and `end` are that
   execution, and `calls` counts handler calls.
   */
  method ExecuteDAG(def: Def, kinds: set<string>, handle: Handle, run: WorkflowRun, input: Payload,
                    ghost visits: seq<Visit>, ghost end: End)
    returns (err: Option<RunError>, calls: nat)
    requires IsExecution(def, kinds, handle, input, visits, end)
    requires run.status == Running && run.output == None && run.error == None && run.nodeStates == map[]
    modifies run
    ensures FollowsEdges(def, kinds, handle, input, visits, end)
    ensures calls == |visits|
    ensures run.error == None
    ensures run.nodeStates == FinalStates(visits, input, end)
    ensures match end
            case Done(output) => err == None && run.status == Completed && run.output == Some(output)
            case Stopped(error, _) => err == Some(error) && run.status == Running && run.output == None
  {
    ExecutionFollowsEdges(def, kinds, handle, input, visits, end);
    var current, payload := def.entry, input;
    calls := 0;
    while current != ""
      modifies run`nodeStates
      invariant calls <= |visits| && payload == Latest(visits, calls, input)
      invariant Position(def, visits, calls) == Some(current)
      invariant run.nodeStates == StatesOf(visits, calls)
      decreases |visits| - calls
    {
      NextVisit(def, kinds, handle, input, visits, end, calls);
      if current !in def.nodes {
        return Some(NodeNotFound(current)), calls;
      }
      var node := def.nodes[current];
      run.Enter(current, payload);
      if node.kind !in kinds {
        return Some(NoHandler(node.kind)), calls;
      }
      var outcome := handle(calls, current, node, payload);
      run.Record(current, outcome);
      calls := calls + 1;
      NextVisit(def, kinds, handle, input, visits, end, calls);
      match outcome {
        case Failure(message) =>
          if node.onError == "" {
            return Some(HandlerFailed(message)), calls;
          }
          current := node.onError;
        case Output(output) =>
          payload := output;
          if node.next == [] {
            break;
          }
          current := node.next[0];
      }
    }
    NextVisit(def, kinds, handle, input, visits, end, calls);
    run.status := Completed;
    run.output := Some(payload);
    err := None;
  }

  /** `Execute`: the caller gets the run as it is before its goroutine starts. */
  method Execute(defs: map<string, Def>, defID: string) returns (r: Option<WorkflowRun>)
    ensures r.None? <==> defID !in defs
    ensures r.Some? ==>
              && fresh(r.value)
              && r.value.status == Running && r.value.output == None && r.value.error == None
              && r.value.nodeStates == map[]
  {
    if defID !in defs {
      return None;
    }
    var run := new WorkflowRun();
    return Some(run);
  }

  /** The goroutine that `Execute` starts, to its end: an error of the walk makes the run Failed. */
  method Finish(def: Def, kinds: set<string>, handle: Handle, run: WorkflowRun, input: Payload,
                ghost visits: seq<Visit>, ghost end: End)
    requires IsExecution(def, kinds, handle, input, visits, end)
    requires run.status == Running && run.output == None && run.error == None && run.nodeStates == map[]
    modifies run
    ensures FollowsEdges(def, kinds, handle, input, visits, end)
    ensures run.nodeStates == FinalStates(visits, input, end)
    ensures match end
            case Done(output) => run.status == Completed && run.output == Some(output) && run.error == None
            case Stopped(error, _) => run.status == Failed && run.output == None && run.error == Some(error)
    ensures visits != [] ==>
              var last := visits[|visits| - 1];
              && last.id in def.nodes
              && (last.outcome.Failure? && def.nodes[last.id].onError == "" ==>
                    run.status == Failed && run.error == Some(HandlerFailed(last.outcome.message)))
  {
    var err, _ := ExecuteDAG(def, kinds, handle, run, input, visits, end);
    if err.Some? {
      run.status := Failed;
      run.error := err;
    }
  }
}
