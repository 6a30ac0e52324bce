/** The planner's scheduler: which task is next, and how far taking the next one gets. */
module Planner {
  import opened Wrappers

  datatype Status = Pending | Running | Completed | Failed | Skipped | Blocked

  /** The fields of a task that scheduling reads; dependencies are task IDs. */
  datatype Task = Task(id: string, dependencies: seq<string>, status: Status)

  type Plan = seq<Task>

  predicate IsCompleted(plan: Plan, id: string) {
    exists t <- plan :: t.id == id && t.status == Completed
  }

  predicate Ready(plan: Plan, i: nat)
    requires i < |plan|
  {
    plan[i].status == Pending && forall d <- plan[i].dependencies :: IsCompleted(plan, d)
  }

  /** The first ready task in list order. */
  predicate IsNext(plan: Plan, r: Option<nat>) {
    match r
    case Some(i) => i < |plan| && Ready(plan, i) && forall j: nat | j < i :: !Ready(plan, j)
    case None => forall j: nat | j < |plan| :: !Ready(plan, j)
  }

  function NextFrom(plan: Plan, k: nat): (r: Option<nat>)
    requires k <= |plan| && forall j: nat | j < k :: !Ready(plan, j)
    ensures IsNext(plan, r)
    decreases |plan| - k
  {
    if k == |plan| then None else if Ready(plan, k) then Some(k) else NextFrom(plan, k + 1)
  }

  function Next(plan: Plan): (r: Option<nat>)
    ensures IsNext(plan, r)
  {
    NextFrom(plan, 0)
  }

  lemma NextIsUnique(plan: Plan, a: Option<nat>, b: Option<nat>)
    requires IsNext(plan, a) && IsNext(plan, b)
    ensures a == b
  {
  }

  predicate IsPending(plan: Plan, i: nat) {
    i < |plan| && plan[i].status == Pending
  }

  ghost predicate SomeCompleted(plan: Plan, id: string) {
    exists k :: 0 <= k < |plan| && plan[k].id == id && plan[k].status == Completed
  }

  /** A next task is pending with all its dependencies completed; each pending one before it lacks one. */
  lemma AroundNext(plan: Plan, r: Option<nat>)
    requires IsNext(plan, r)
    ensures r.Some? ==> IsPending(plan, r.value) && forall d <- plan[r.value].dependencies :: SomeCompleted(plan, d)
    ensures forall j: nat | j < (if r.Some? then r.value else |plan|) && IsPending(plan, j) ::
              exists d <- plan[j].dependencies :: !SomeCompleted(plan, d)
  {
    forall d ensures IsCompleted(plan, d) <==> SomeCompleted(plan, d) {
      if SomeCompleted(plan, d) {
        var k :| 0 <= k < |plan| && plan[k].id == d && plan[k].status == Completed;
        assert plan[k] in plan;
      }
    }
    forall j: nat | j < (if r.Some? then r.value else |plan|) && IsPending(plan, j)
      ensures exists d <- plan[j].dependencies :: !SomeCompleted(plan, d)
    {
      assert !Ready(plan, j);
    }
  }

  // ---------- the code ----------

  /** `NextTask`: the position of the task, if any. */
  method NextTask(plan: Plan) returns (r: Option<nat>)
    ensures IsNext(plan, r)
    ensures r.Some? ==> IsPending(plan, r.value) && forall d <- plan[r.value].dependencies :: SomeCompleted(plan, d)
    ensures forall j: nat | j < (if r.Some? then r.value else |plan|) && IsPending(plan, j) ::
              exists d <- plan[j].dependencies :: !SomeCompleted(plan, d)
    ensures r == Next(plan)
  {
    var completed: map<string, bool> := map[];
    for n := 0 to |plan|
      invariant forall id :: id in completed <==> exists k :: 0 <= k < n && plan[k].id == id && plan[k].status == Completed
    {
      if plan[n].status == Completed {
        completed := completed[plan[n].id := true];
      }
    }
    assert forall id :: id in completed <==> IsCompleted(plan, id);
    for i := 0 to |plan|
      invariant forall j: nat | j < i :: !Ready(plan, j)
    {
      if plan[i].status == Pending {
        var ready := true;
        for k := 0 to |plan[i].dependencies|
          invariant ready
          invariant forall m | 0 <= m < k :: IsCompleted(plan, plan[i].dependencies[m])
        {
          if plan[i].dependencies[k] !in completed {
            ready := false;
            assert !IsCompleted(plan, plan[i].dependencies[k]);
            break;
          }
        }
        if ready {
          AroundNext(plan, Some(i));
          NextIsUnique(plan, Some(i), Next(plan));
          return Some(i);
        }
      }
    }
    AroundNext(plan, None);
    NextIsUnique(plan, None, Next(plan));
    return None;
  }

  // ---------- dependency walks ----------

  predicate DependsOn(plan: Plan, i: nat, j: nat) {
    i < |plan| && j < |plan| && plan[j].id in plan[i].dependencies
  }

  /** Positions in the plan, each depending on the next. */
  predicate IsWalk(plan: Plan, path: seq<nat>) {
    && path != [] && (forall k | 0 <= k < |path| :: path[k] < |plan|)
    && forall k | 0 <= k < |path| - 1 :: DependsOn(plan, path[k], path[k + 1])
  }

  ghost predicate Acyclic(plan: Plan) {
    forall path: seq<nat> | IsWalk(plan, path) && |path| > 1 :: path[0] != path[|path| - 1]
  }

  /** Every dependency names a task of the plan. */
  ghost predicate Closed(plan: Plan) {
    forall i: nat | i < |plan| :: forall d <- plan[i].dependencies :: Names(plan, d)
  }

  ghost predicate Names(plan: Plan, d: string) {
    exists j: nat :: j < |plan| && plan[j].id == d
  }

  ghost predicate DistinctIds(plan: Plan) {
    forall i: nat, j: nat | i < |plan| && j < |plan| && plan[i].id == plan[j].id :: i == j
  }

  /** Distinct positions below `n` are at most `n`. */
  lemma {:induction false} DistinctBelow(path: seq<nat>, n: nat)
    requires forall k | 0 <= k < |path| :: path[k] < n
    requires forall x, y | 0 <= x < y < |path| :: path[x] != path[y]
    ensures |path| <= n
    decreases |path|
  {
    if path != [] {
      var last := |path| - 1;
      var v := path[last];
      var swapped := seq(last, k requires 0 <= k < last => if path[k] == n - 1 then v else path[k]);
      DistinctBelow(swapped, n - 1);
    }
  }

  /** In an acyclic plan no walk is longer than the plan. */
  lemma WalksAreShort(plan: Plan, path: seq<nat>)
    requires Acyclic(plan) && IsWalk(plan, path)
    ensures |path| <= |plan|
  {
    forall x, y | 0 <= x < y < |path| ensures path[x] != path[y] {
      var part := path[x..y + 1];
      forall k | 0 <= k < |part| - 1 ensures DependsOn(plan, part[k], part[k + 1]) {
        assert DependsOn(plan, path[x + k], path[x + k + 1]);
      }
      assert IsWalk(plan, part);
      assert part[0] == path[x] && part[|part| - 1] == path[y];
    }
    DistinctBelow(path, |plan|);
  }

  // ---------- stuck plans ----------

  /** Neither finished nor waiting to be picked: it will not become completed by picking. */
  predicate Halted(status: Status) {
    status != Pending && status != Completed
  }

  /** A walk from task `i` through pending tasks to a halted one. */
  ghost predicate BlockingWalk(plan: Plan, i: nat, path: seq<nat>) {
    && IsWalk(plan, path) && |path| > 1 && path[0] == i
    && (forall k | 0 <= k < |path| - 1 :: plan[path[k]].status == Pending)
    && Halted(plan[path[|path| - 1]].status)
  }

  ghost predicate IsBlocked(plan: Plan, i: nat) {
    exists path :: BlockingWalk(plan, i, path)
  }

  /** When nothing is ready, a walk of pending tasks can be continued to a halted one. */
  lemma {:induction false} FindBlock(plan: Plan, path: seq<nat>)
    requires Acyclic(plan) && Closed(plan) && Next(plan) == None
    requires IsWalk(plan, path) && forall k | 0 <= k < |path| :: plan[path[k]].status == Pending
    ensures IsBlocked(plan, path[0])
    decreases |plan| - |path|
  {
    WalksAreShort(plan, path);
    var last := path[|path| - 1];
    assert !Ready(plan, last);
    var d :| d in plan[last].dependencies && !IsCompleted(plan, d);
    assert Names(plan, d);
    var j: nat :| j < |plan| && plan[j].id == d;
    var longer := path + [j];
    forall k | 0 <= k < |longer| - 1 ensures DependsOn(plan, longer[k], longer[k + 1]) {
      if k < |path| - 1 {
        assert DependsOn(plan, path[k], path[k + 1]);
      }
    }
    assert IsWalk(plan, longer);
    assert plan[j] in plan;
    if plan[j].status == Pending {
      WalksAreShort(plan, longer);
      FindBlock(plan, longer);
    } else {
      assert BlockingWalk(plan, path[0], longer);
    }
  }

  lemma BlockedNotReady(plan: Plan, i: nat)
    requires DistinctIds(plan) && IsBlocked(plan, i)
    ensures i < |plan| && !Ready(plan, i)
  {
    var path :| BlockingWalk(plan, i, path);
    assert DependsOn(plan, path[0], path[1]);
    forall t <- plan | t.id == plan[path[1]].id ensures t.status != Completed {
      var k: nat :| k < |plan| && plan[k] == t;
      assert k == path[1];
    }
    assert !IsCompleted(plan, plan[path[1]].id);
  }

  /**
   Stuckness: `NextTask` finds nothing exactly when every pending task depends, through
   pending tasks, on one that is neither pending nor completed.
   */
  lemma StuckIff(plan: Plan)
    requires DistinctIds(plan) && Closed(plan) && Acyclic(plan)
    ensures Next(plan) == None <==> forall i: nat | i < |plan| && plan[i].status == Pending :: IsBlocked(plan, i)
  {
    if Next(plan) == None {
      forall i: nat | i < |plan| && plan[i].status == Pending ensures IsBlocked(plan, i) {
        FindBlock(plan, [i]);
      }
    } else {
      var i := Next(plan).value;
      if IsBlocked(plan, i) {
        BlockedNotReady(plan, i);
      }
    }
  }

  /** Dependence through completed tasks does not block: the walk has to stay pending. */
  lemma CompletedBreaksTheWalk()
    ensures var plan := [Task("a", [], Failed), Task("b", ["a"], Completed), Task("c", ["b"], Pending)];
            IsWalk(plan, [2, 1, 0]) && Halted(plan[0].status) && Next(plan) == Some(2)
  {
    var plan := [Task("a", [], Failed), Task("b", ["a"], Completed), Task("c", ["b"], Pending)];
    assert plan[1] in plan;
    assert IsCompleted(plan, "b");
    assert Ready(plan, 2) && !Ready(plan, 0) && !Ready(plan, 1);
  }

  // ---------- progress ----------

  function Mark(plan: Plan, i: nat): Plan
    requires i < |plan|
  {
    plan[i := plan[i].(status := Completed)]
  }

  function PendingIn(plan: Plan): nat {
    if plan == [] then 0 else (if plan[0].status == Pending then 1 else 0) + PendingIn(plan[1..])
  }

  lemma {:induction false} MarkLowersPending(plan: Plan, i: nat)
    requires i < |plan| && plan[i].status == Pending
    ensures PendingIn(Mark(plan, i)) == PendingIn(plan) - 1
  {
    if i == 0 {
      assert Mark(plan, i)[1..] == plan[1..];
    } else {
      assert Mark(plan, i)[1..] == Mark(plan[1..], i - 1);
      MarkLowersPending(plan[1..], i - 1);
    }
  }

  lemma {:induction false} NothingPending(plan: Plan)
    ensures PendingIn(plan) == 0 <==> forall t <- plan :: t.status != Pending
  {
    if plan != [] {
      NothingPending(plan[1..]);
      assert plan == [plan[0]] + plan[1..];
    }
  }

  /** Take the next task, mark it completed, and so on; the positions taken. */
  ghost function Drive(plan: Plan): seq<nat>
    decreases PendingIn(plan)
  {
    match Next(plan)
    case None => []
    case Some(i) =>
      MarkLowersPending(plan, i);
      [i] + Drive(Mark(plan, i))
  }

  /** The plan `Drive` leaves. */
  ghost function Driven(plan: Plan): Plan
    decreases PendingIn(plan)
  {
    match Next(plan)
    case None => plan
    case Some(i) =>
      MarkLowersPending(plan, i);
      Driven(Mark(plan, i))
  }

  predicate SameShape(a: Plan, b: Plan) {
    |a| == |b| && forall i | 0 <= i < |a| :: a[i].id == b[i].id && a[i].dependencies == b[i].dependencies
  }

  lemma ShapeKeeps(a: Plan, b: Plan)
    requires SameShape(a, b)
    ensures Acyclic(a) ==> Acyclic(b)
    ensures Closed(a) ==> Closed(b)
  {
    if Acyclic(a) {
      forall path: seq<nat> | IsWalk(b, path) && |path| > 1 ensures path[0] != path[|path| - 1] {
        forall k | 0 <= k < |path| - 1 ensures DependsOn(a, path[k], path[k + 1]) {
          assert DependsOn(b, path[k], path[k + 1]);
        }
        assert IsWalk(a, path);
      }
    }
    if Closed(a) {
      forall i: nat | i < |b| ensures forall d <- b[i].dependencies :: Names(b, d) {
        forall d <- b[i].dependencies ensures Names(b, d) {
          assert Names(a, d);
          var j: nat :| j < |a| && a[j].id == d;
          assert b[j].id == d;
        }
      }
    }
  }

  ghost predicate OnlyPendingOrCompleted(plan: Plan) {
    forall t <- plan :: t.status == Pending || t.status == Completed
  }

  /** With nothing halted and no cycle, something is ready while anything is pending. */
  lemma SomethingReady(plan: Plan)
    requires Closed(plan) && Acyclic(plan) && OnlyPendingOrCompleted(plan) && PendingIn(plan) > 0
    ensures Next(plan).Some?
  {
    NothingPending(plan);
    var t :| t in plan && t.status == Pending;
    var i: nat :| i < |plan| && plan[i] == t;
    if Next(plan) == None {
      FindBlock(plan, [i]);
      BlockHalts(plan, i);
    }
  }

  lemma BlockHalts(plan: Plan, i: nat)
    requires IsBlocked(plan, i)
    ensures exists t <- plan :: Halted(t.status)
  {
    var path :| BlockingWalk(plan, i, path);
    assert plan[path[|path| - 1]] in plan;
  }

  /** The task taken in round `k` follows its dependencies: completed before, or taken earlier. */
  ghost predicate InOrder(plan: Plan, order: seq<nat>, k: nat)
    requires k < |order|
  {
    && order[k] < |plan|
    && plan[order[k]].status == Pending
    && (forall m | 0 <= m < k :: order[m] != order[k])
    && forall d <- plan[order[k]].dependencies :: IsCompleted(plan, d) || Earlier(plan, order, k, d)
  }

  ghost predicate Earlier(plan: Plan, order: seq<nat>, k: nat, d: string) {
    exists m: nat :: m < k && m < |order| && order[m] < |plan| && plan[order[m]].id == d
  }

  /**
   Progress: from an acyclic plan of pending and completed tasks whose dependencies are all in
   the plan, taking the next task finishes everything in as many rounds as tasks were pending,
   each task once and after all it depends on.
   */
  lemma {:induction false} Progress(plan: Plan)
    requires Closed(plan) && Acyclic(plan) && OnlyPendingOrCompleted(plan)
    ensures |Drive(plan)| == PendingIn(plan)
    ensures forall k: nat | k < |Drive(plan)| :: InOrder(plan, Drive(plan), k)
    ensures SameShape(plan, Driven(plan)) && forall t <- Driven(plan) :: t.status == Completed
    decreases PendingIn(plan)
  {
    if PendingIn(plan) == 0 {
      NothingPending(plan);
      assert Next(plan) == None;
    } else {
      SomethingReady(plan);
      var i := Next(plan).value;
      var plan' := Mark(plan, i);
      MarkLowersPending(plan, i);
      ShapeKeeps(plan, plan');
      Progress(plan');
      var later := Drive(plan');
      assert Drive(plan) == [i] + later;
      forall k: nat | k < |Drive(plan)| ensures InOrder(plan, Drive(plan), k) {
        if k > 0 {
          OrderLifts(plan, i, later, k - 1);
        }
      }
    }
  }

  /** A later round's task is in order for the whole drive as well. */
  lemma OrderLifts(plan: Plan, i: nat, later: seq<nat>, k: nat)
    requires i < |plan| && plan[i].status == Pending && k < |later| && InOrder(Mark(plan, i), later, k)
    ensures InOrder(plan, [i] + later, k + 1)
  {
    var plan', order := Mark(plan, i), [i] + later;
    forall m | 0 <= m < k + 1 ensures order[m] != order[k + 1] {
      if m > 0 {
        assert later[m - 1] != later[k];
      }
    }
    forall d <- plan[order[k + 1]].dependencies ensures IsCompleted(plan, d) || Earlier(plan, order, k + 1, d) {
      if IsCompleted(plan', d) {
        var t :| t in plan' && t.id == d && t.status == Completed;
        var j: nat :| j < |plan'| && plan'[j] == t;
        if j == i {
          assert order[0] == i;
        } else {
          assert plan[j] in plan;
        }
      } else {
        var m: nat :| m < k && m < |later| && later[m] < |plan'| && plan'[later[m]].id == d;
        assert order[m + 1] == later[m];
      }
    }
  }

  // ---------- plans from Decompose ----------

  /** What the model proposes; dependencies are titles. */
  datatype RawTask = RawTask(title: string, dependencies: seq<string>)

  /** No dependency is the ID of a task, as when IDs are generated and dependencies are titles. */
  ghost predicate NoDependencyIsAnId(plan: Plan) {
    forall t <- plan, u <- plan :: u.id !in t.dependencies
  }

  function Free(plan: Plan): nat {
    if plan == [] then 0
    else (if plan[0].status == Pending && plan[0].dependencies == [] then 1 else 0) + Free(plan[1..])
  }

  lemma {:induction false} MarkLowersFree(plan: Plan, i: nat)
    requires i < |plan| && plan[i].status == Pending && plan[i].dependencies == []
    ensures Free(Mark(plan, i)) == Free(plan) - 1
  {
    if i == 0 {
      assert Mark(plan, i)[1..] == plan[1..];
    } else {
      assert Mark(plan, i)[1..] == Mark(plan[1..], i - 1);
      MarkLowersFree(plan[1..], i - 1);
    }
  }

  lemma {:induction false} FreeBounds(plan: Plan)
    ensures Free(plan) <= PendingIn(plan) <= |plan|
    ensures Free(plan) == |plan| <==> forall t <- plan :: t.status == Pending && t.dependencies == []
    ensures Free(plan) == 0 <==> forall t <- plan :: !(t.status == Pending && t.dependencies == [])
  {
    if plan != [] {
      FreeBounds(plan[1..]);
      assert plan == [plan[0]] + plan[1..];
    }
  }

  /** Such a plan gets exactly through its tasks without dependencies. */
  lemma {:induction false} OnlyFreeTasksRun(plan: Plan)
    requires NoDependencyIsAnId(plan)
    ensures |Drive(plan)| == Free(plan)
    decreases PendingIn(plan)
  {
    match Next(plan)
    case Some(i) =>
      var plan' := Mark(plan, i);
      assert plan[i].dependencies == [] by {
        NoIdIsCompleted(plan, i);
      }
      MarkLowersPending(plan, i);
      MarkLowersFree(plan, i);
      forall t <- plan' ensures exists u <- plan :: u.id == t.id && u.dependencies == t.dependencies {
        var k :| 0 <= k < |plan'| && plan'[k] == t;
        assert plan[k] in plan;
      }
      OnlyFreeTasksRun(plan');
    case None =>
      forall t <- plan ensures !(t.status == Pending && t.dependencies == []) {
        var k: nat :| k < |plan| && plan[k] == t;
        assert !Ready(plan, k);
      }
      FreeBounds(plan);
  }

  lemma NoIdIsCompleted(plan: Plan, i: nat)
    requires NoDependencyIsAnId(plan) && i < |plan| && Ready(plan, i)
    ensures plan[i].dependencies == []
  {
    var deps := plan[i].dependencies;
    if deps != [] {
      TitleNotCompleted(plan, i, deps[0]);
    }
  }

  lemma TitleNotCompleted(plan: Plan, i: nat, d: string)
    requires NoDependencyIsAnId(plan) && i < |plan| && d in plan[i].dependencies
    ensures !IsCompleted(plan, d)
  {
    assert plan[i] in plan;
  }

  /**
   A decomposed plan, all pending with generated IDs, is finished by taking the next task if
   and only if no task has a dependency at all.
   */
  lemma DecomposedPlanFinishesIff(plan: Plan)
    requires NoDependencyIsAnId(plan) && forall t <- plan :: t.status == Pending
    ensures |Drive(plan)| == |plan| <==> forall t <- plan :: t.dependencies == []
  {
    OnlyFreeTasksRun(plan);
    FreeBounds(plan);
  }

  /** The generated IDs are not among the proposed titles. */
  ghost predicate IdsAreFresh(raw: seq<RawTask>, ids: seq<string>) {
    forall i, j | 0 <= i < |raw| && 0 <= j < |ids| :: ids[j] !in raw[i].dependencies
  }

  /**
   `Decompose` after parsing; `ids` are the generated task IDs.  As these are no titles, the plan can be
   finished exactly when nothing was proposed to depend on anything.
   */
  method Decompose(raw: seq<RawTask>, ids: seq<string>) returns (plan: Plan)
    requires |ids| == |raw|
    ensures |plan| == |raw|
    ensures forall i | 0 <= i < |raw| ::
              plan[i].id == ids[i] && plan[i].dependencies == raw[i].dependencies && plan[i].status == Pending
    ensures IdsAreFresh(raw, ids) ==>
              (|Drive(plan)| == |plan| <==> forall i | 0 <= i < |raw| :: raw[i].dependencies == [])
  {
    plan := [];
    for i := 0 to |raw|
      invariant |plan| == i
      invariant forall k | 0 <= k < i :: plan[k] == Task(ids[k], raw[k].dependencies, Pending)
    {
      plan := plan + [Task(ids[i], raw[i].dependencies, Pending)];
    }
    if IdsAreFresh(raw, ids) {
      DecomposedPlanFinishesIff(plan);
      forall i | 0 <= i < |raw| ensures plan[i] in plan && plan[i].dependencies == raw[i].dependencies {}
    }
  }
}
