/** What every schedule of the concurrent hasher guarantees. */
module BmtTheorems {
  import opened BmtReference
  import opened BmtShape
  import opened BmtMachine
  import opened BmtProof
  import opened BmtSteps
  import opened BmtClimb

  // ---------------------------------------------------------------- release

  lemma ReleaseFlags(j: Job, tree: Tree)
    requires Fits(j) && Flags(j, tree, Waiting)
    ensures Flags(j, Release(j, tree), Released)
  {
    assert Path(j.last, Top(j)) == 0;
  }

  lemma StepRelease(j: Job, before: Tree, m: Machine, g: Hist)
    requires Inv(j, before, m, g) && m.caller.Waiting? && |m.result| > 0
    ensures Inv(j, before, StepCaller(j, m), g)
  {
    hide Shape, Owners, Flags, Clean, Span, Lo, Value, Slots, Counters, TasksOk;
    ReleaseFlags(j, m.tree);
    FlagsAside(j, before, m.tree, Release(j, m.tree), g.gone, m.tasks);
  }

  // ---------------------------------------------------------------- every schedule

  lemma StepKeeps(j: Job, before: Tree, m: Machine, g: Hist, a: Act)
    requires Inv(j, before, m, g)
    ensures Inv(j, before, Step(j, m, a), StepHist(j, m, g, a))
  {
    hide Inv, StepTask, StepCaller, CallerHist, TaskHist;
    match a
    case CallerStep => CallerKeeps(j, before, m, g);
    case TaskStep(k) =>
      if k < |m.tasks| { TaskKeeps(j, before, m, g, k); }
  }

  lemma CallerKeeps(j: Job, before: Tree, m: Machine, g: Hist)
    requires Inv(j, before, m, g)
    ensures Inv(j, before, StepCaller(j, m), CallerHist(j, m, g))
  {
    hide Slots, Shape, Owners, Counters, Flags, Clean, Span, Lo, TasksOk, Value, Path;
    match m.caller
    case Launching(k) =>
      if k < j.last { StepLaunch(j, before, m, g); } else { StepBeginFinalise(j, before, m, g); }
    case Finalising(_, _, _) => StepFlag(j, before, m, g);
    case Blanking(_, _, _) => StepBlank(j, before, m, g);
    case Rooting(n, _, _) =>
      if n.i == 0 { StepRoot(j, before, m, g); } else { StepClimb(j, before, m, g); }
    case Waiting =>
      if |m.result| > 0 { StepRelease(j, before, m, g); }
    case Released =>
  }

  lemma TaskKeeps(j: Job, before: Tree, m: Machine, g: Hist, k: nat)
    requires Inv(j, before, m, g) && k < |m.tasks|
    ensures Inv(j, before, StepTask(j, m, k), TaskHist(j, m, g, k))
  {
    hide Inv, ArrivesFirst;
    match m.tasks[k]
    case Start(_, _, _) => StepStart(j, before, m, g, k);
    case Put(_, _, _, _, _) => StepPut(j, before, m, g, k);
    case Look(n, _, _, _) =>
      if n.h <= 1 || TwoSided(j, n) { StepLookOn(j, before, m, g, k); } else { StepLookOne(j, before, m, g, k); }
    case Tog(_, _, _, _) => StepTog(j, before, m, g, k);
    case Join(_, _, _, _) => StepJoin(j, before, m, g, k);
    case Take(_, _, _, _) => StepTake(j, before, m, g, k);
    case Cat(_, _, _, _, _) => StepCat(j, before, m, g, k);
    case Send(_, _, _, _) => StepSend(j, before, m, g, k);
    case Done =>
  }

  lemma {:induction false} RunKeeps(j: Job, before: Tree, m: Machine, g: Hist, acts: seq<Act>)
    requires Inv(j, before, m, g)
    ensures Inv(j, before, Run(j, m, acts), RunHist(j, m, g, acts))
    decreases |acts|
  {
    hide Inv;
    if acts != [] {
      StepKeeps(j, before, m, g, acts[0]);
      RunKeeps(j, before, Step(j, m, acts[0]), StepHist(j, m, g, acts[0]), acts[1..]);
    }
  }

  /** Every schedule of a clean tree keeps the invariant. */
  lemma Reached(j: Job, tree: Tree, acts: seq<Act>)
    requires Fits(j) && Clean(tree, j.depth)
    ensures Inv(j, tree, Run(j, Init(tree), acts), RunHist(j, Init(tree), START, acts))
  {
    InitInv(j, tree);
    RunKeeps(j, tree, Init(tree), START, acts);
  }

  /** Whatever the schedule, at most one value is ever sent to the result channel, and it is the
      value of the node at the chunk's summit. */
  lemma ResultIsSummit(j: Job, tree: Tree, acts: seq<Act>)
    requires Fits(j) && Clean(tree, j.depth)
    ensures InUse(j, Summit(j.last), 0)
    ensures var r := Run(j, Init(tree), acts).result; r == [] || r == [Value(j, Summit(j.last), 0)]
  {
    Reached(j, tree, acts);
  }

  lemma ReleasedHasResult(j: Job, tree: Tree, acts: seq<Act>)
    requires Fits(j) && Clean(tree, j.depth)
    requires Run(j, Init(tree), acts).caller.Released?
    ensures Run(j, Init(tree), acts).result != []
  {
    Reached(j, tree, acts);
  }

  // ---------------------------------------------------------------- the released tree

  /** After Sum has returned, every goroutine is finished and every node is back in its clean
      state: flags cleared, and both children of each joined node counted exactly once. */
  lemma ReleasedTree(j: Job, tree: Tree, acts: seq<Act>)
    requires Fits(j) && Clean(tree, j.depth)
    requires Run(j, Init(tree), acts).caller.Released?
    ensures var m := Run(j, Init(tree), acts);
            && m.tree.Keys == tree.Keys
            && (forall k :: 0 <= k < |m.tasks| ==> m.tasks[k].Done?)
            && (forall p :: p in m.tree ==>
                  && !m.tree[p].unbalanced && (m.tree[p].root <==> p.h == j.depth + 1)
                  && m.tree[p].state == (if TwoSided(j, p) then AddOne(AddOne(tree[p].state)) else tree[p].state))
  {
    Reached(j, tree, acts);
    ReleasedFacts(j, tree, Run(j, Init(tree), acts), RunHist(j, Init(tree), START, acts));
  }

  lemma ReleasedFacts(j: Job, before: Tree, m: Machine, g: Hist)
    requires Inv(j, before, m, g) && m.caller.Released?
    ensures m.tree.Keys == before.Keys
    ensures forall k :: 0 <= k < |m.tasks| ==> m.tasks[k].Done?
    ensures forall p :: p in m.tree ==>
              && !m.tree[p].unbalanced && (m.tree[p].root <==> p.h == j.depth + 1)
              && m.tree[p].state == if TwoSided(j, p) then AddOne(AddOne(before[p].state)) else before[p].state
  {
    hide Slots, TasksOk, Clean, Span, Lo, Value, Path;
    forall k | 0 <= k < |m.tasks| ensures m.tasks[k].Done? {
      if Alive(m, k) { AliveFacts(j, before, m, g, k); }
    }
    forall p | TwoSided(j, p) ensures Arrived(j, g.gone, p) == 2 {
      TwoSidedChildren(j, p);
      AllGone(j, g.owner.Keys, g.gone, |m.tasks|, true, Child(p, true));
      AllGone(j, g.owner.Keys, g.gone, |m.tasks|, true, Child(p, false));
    }
  }

  lemma TwoSidedChildren(j: Job, p: Pos)
    requires TwoSided(j, p)
    ensures Used(j, Child(p, true)) && Used(j, Child(p, false))
  {
    var h := p.h - 1;
    if h > Top(j) { PathStaysZero(j.last, Top(j), h); }
    assert h != Top(j);
  }

  lemma {:induction false} PathStaysZero(q: nat, f: nat, h: nat)
    requires 1 <= f <= h && Path(q, f) == 0
    ensures Path(q, h) == 0
  {
    if f < h { PathStaysZero(q, f, h - 1); }
  }

  /** A released tree is clean again exactly when no joined node has used up its counter. */
  lemma ReleasedCleanIff(j: Job, tree: Tree, acts: seq<Act>)
    requires Fits(j) && Clean(tree, j.depth)
    requires Run(j, Init(tree), acts).caller.Released?
    ensures Clean(Run(j, Init(tree), acts).tree, j.depth) <==>
            forall p :: p in tree && TwoSided(j, p) ==> tree[p].state < INT32_MAX - 1
  {
    hide Run, Fits, TwoSided, AddOne;
    ReleasedTree(j, tree, acts);
    var tree' := Run(j, Init(tree), acts).tree;
    forall p | p in tree
      ensures tree'[p].state % 2 == 0
      ensures 0 <= tree'[p].state < INT32_MAX <==> (TwoSided(j, p) ==> tree[p].state < INT32_MAX - 1)
    {
      TwoMore(tree[p].state);
    }
  }

  lemma TwoMore(state: int)
    requires state % 2 == 0 && 0 <= state < INT32_MAX
    ensures AddOne(AddOne(state)) % 2 == 0
    ensures 0 <= AddOne(AddOne(state)) < INT32_MAX <==> state < INT32_MAX - 1
  {}

  // ---------------------------------------------------------------- progress

  ghost predicate Enabled(m: Machine, a: Act) {
    match a
    case CallerStep => !m.caller.Released? && (m.caller.Waiting? ==> |m.result| > 0)
    case TaskStep(k) => Alive(m, k)
  }

  lemma {:induction false} AllHanded(j: Job, gone: set<Pos>, launched: nat, waiting: bool, h: nat, i: nat)
    requires Fits(j) && Shape(j, {}, gone, launched, waiting) && launched == j.last + 1
    requires 1 <= h <= Top(j) && i <= Path(j.last, h)
    ensures Pos(h, i) in gone
  {
    var p := Pos(h, i);
    assert Used(j, p);
    if h == 1 {
      assert Path(j.last, 1) == j.last;
    } else {
      PathUp(j, Child(p, true));
      AllHanded(j, gone, launched, waiting, h - 1, 2 * i);
      if TwoSided(j, p) { AllHanded(j, gone, launched, waiting, h - 1, 2 * i + 1); }
      assert BelowGone(j, p, gone);
    }
  }

  /** Sum never waits in vain: until the tree is released some step can be taken. */
  lemma SomeStep(j: Job, tree: Tree, acts: seq<Act>) returns (a: Act)
    requires Fits(j) && Clean(tree, j.depth)
    requires !Run(j, Init(tree), acts).caller.Released?
    ensures Enabled(Run(j, Init(tree), acts), a)
  {
    Reached(j, tree, acts);
    a := SomeStepFrom(j, tree, Run(j, Init(tree), acts), RunHist(j, Init(tree), START, acts));
  }

  lemma SomeStepFrom(j: Job, before: Tree, m: Machine, g: Hist) returns (a: Act)
    requires Inv(j, before, m, g) && !m.caller.Released?
    ensures Enabled(m, a)
  {
    hide Slots, Counters, Flags, TasksOk, Clean, Span, Lo, Value, Path;
    if k :| 0 <= k < |m.tasks| && !m.tasks[k].Done? {
      a := TaskStep(k);
    } else {
      a := CallerStep;
      assert forall p :: p !in g.owner;
      assert g.owner.Keys == {};
      if m.caller.Waiting? {
        AllHanded(j, g.gone, |m.tasks|, true, Top(j), 0);
      }
    }
  }

  /** Steps left for one goroutine: at most seven on each node, counted from the summit down. */
  ghost function TaskCost(j: Job, t: Task): nat {
    var top := 7 * Top(j) + 8;
    var left := (h: nat, done: nat) => if 7 * h + done < top then top - 7 * h - done else 0;
    match t
    case Start(_, _, _) => top
    case Put(n, _, _, _, _) => left(n.h, 0)
    case Look(n, _, _, _) => left(n.h, 1)
    case Tog(n, _, _, _) => left(n.h, 2)
    case Join(n, _, _, _) => left(n.h, 3)
    case Take(n, _, _, _) => left(n.h, 4)
    case Cat(n, _, _, _, _) => left(n.h, 5)
    case Send(n, _, _, _) => left(n.h, 6)
    case Done => 0
  }

  ghost function TasksCost(j: Job, tasks: seq<Task>): nat {
    if tasks == [] then 0 else TaskCost(j, tasks[|tasks| - 1]) + TasksCost(j, tasks[..|tasks| - 1])
  }

  ghost function LaunchCost(j: Job, n: nat): nat {
    if n == 0 then 0 else LaunchCost(j, n - 1) + 7 * Top(j) + 9
  }

  ghost function CallerCost(j: Job, c: Caller): nat {
    match c
    case Launching(k) => LaunchCost(j, if k <= j.last then j.last + 1 - k else 0) + 3 * Top(j) + 5
    case Finalising(n, _, _) => LaunchCost(j, 1) + 4 + if n.h <= Top(j) then 3 * (Top(j) - n.h) else 0
    case Blanking(n, _, _) => LaunchCost(j, 1) + 3 + if n.h <= Top(j) then 3 * (Top(j) - n.h) else 0
    case Rooting(n, _, _) => LaunchCost(j, 1) + 2 + if n.h <= Top(j) then 3 * (Top(j) - n.h) else 0
    case Waiting => 1
    case Released => 0
  }

  /** An upper bound on the steps left in a run. */
  ghost function Cost(j: Job, m: Machine): nat { CallerCost(j, m.caller) + TasksCost(j, m.tasks) }

  lemma {:induction false} CostOfSet(j: Job, tasks: seq<Task>, k: nat, t: Task)
    requires k < |tasks|
    ensures TasksCost(j, tasks[k := t]) + TaskCost(j, tasks[k]) == TasksCost(j, tasks) + TaskCost(j, t)
  {
    var n := |tasks| - 1;
    if k == n {
      assert tasks[k := t][..n] == tasks[..n];
    } else {
      assert tasks[k := t][..n] == tasks[..n][k := t];
      CostOfSet(j, tasks[..n], k, t);
    }
  }

  lemma CostOfLaunch(j: Job, tasks: seq<Task>, t: Task)
    ensures TasksCost(j, tasks + [t]) == TasksCost(j, tasks) + TaskCost(j, t)
  {
    assert (tasks + [t])[..|tasks|] == tasks;
  }

  lemma CallerCostDrops(j: Job, before: Tree, m: Machine, g: Hist)
    requires Inv(j, before, m, g) && Enabled(m, CallerStep)
    ensures Cost(j, StepCaller(j, m)) < Cost(j, m)
  {
    hide Slots, Shape, Owners, Counters, Flags, TasksOk, Clean, Span, Lo, Value, Path;
    match m.caller
    case Launching(k) =>
      CostOfLaunch(j, m.tasks, Start(k, Pair(j, k), j.depth));
      assert LaunchCost(j, 1) == LaunchCost(j, 0) + 7 * Top(j) + 9;
    case Finalising(_, _, _) => MarkedInTree(j, before, m, g);
    case Blanking(_, _, _) => MarkedInTree(j, before, m, g);
    case Rooting(n, left, d) =>
      MarkedInTree(j, before, m, g);
      if n.i != 0 { MarkClimbs(j, n); }
      CostOfLaunch(j, m.tasks, Start(j.last, Pair(j, j.last), d));
      assert LaunchCost(j, 1) == LaunchCost(j, 0) + 7 * Top(j) + 9;
    case Waiting =>
  }

  /** A running goroutine is at a node that exists. */
  lemma AtNode(j: Job, before: Tree, m: Machine, g: Hist, k: nat)
    requires Inv(j, before, m, g) && Alive(m, k) && !m.tasks[k].Start?
    ensures m.tasks[k].n in m.tree && m.tasks[k].n.h <= Top(j)
  {
    hide Slots, Shape, Owners, Counters, Flags, TasksOk, Clean, Span, Lo, Value, Path;
    var t := m.tasks[k];
    AliveFacts(j, before, m, g, k);
    if t.Put? || t.Look? || t.Tog? { PutNode(j, t); }
    NodeInTree(j, before, m, g, t.n);
  }

  lemma TaskCostDrops(j: Job, before: Tree, m: Machine, g: Hist, k: nat)
    requires Inv(j, before, m, g) && Alive(m, k)
    ensures Cost(j, StepTask(j, m, k)) < Cost(j, m)
  {
    hide Slots, Shape, Owners, Counters, Flags, TasksOk, Clean, Span, Lo, Value, Path, TasksCost, ArrivesFirst;
    var m' := StepTask(j, m, k);
    var t := m.tasks[k];
    if !t.Start? { AtNode(j, before, m, g, k); } else { AliveFacts(j, before, m, g, k); }
    assert |m'.tasks| == |m.tasks| && m'.caller == m.caller && m'.tasks == m.tasks[k := m'.tasks[k]];
    CostOfSet(j, m.tasks, k, m'.tasks[k]);
  }

  ghost predicate EnabledRun(j: Job, m: Machine, acts: seq<Act>)
    decreases |acts|
  {
    acts == [] || (Enabled(m, acts[0]) && EnabledRun(j, Step(j, m, acts[0]), acts[1..]))
  }

  lemma {:induction false} RunBounded(j: Job, before: Tree, m: Machine, g: Hist, acts: seq<Act>)
    requires Inv(j, before, m, g) && EnabledRun(j, m, acts)
    ensures |acts| + Cost(j, Run(j, m, acts)) <= Cost(j, m)
    decreases |acts|
  {
    hide Inv, Cost, StepCaller, StepTask;
    if acts != [] {
      if acts[0].CallerStep? { CallerCostDrops(j, before, m, g); } else { TaskCostDrops(j, before, m, g, acts[0].k); }
      StepKeeps(j, before, m, g, acts[0]);
      RunBounded(j, before, Step(j, m, acts[0]), StepHist(j, m, g, acts[0]), acts[1..]);
    }
  }

  /** Every schedule is finite: it takes no more steps than the start state allows. */
  lemma SchedulesEnd(j: Job, tree: Tree, acts: seq<Act>)
    requires Fits(j) && Clean(tree, j.depth)
    requires EnabledRun(j, Init(tree), acts)
    ensures |acts| <= Cost(j, Init(tree))
  {
    InitInv(j, tree);
    RunBounded(j, tree, Init(tree), START, acts);
  }
}
