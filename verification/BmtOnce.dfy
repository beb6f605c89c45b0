/** Each balanced inner node of the concurrent hasher is hashed once, by the goroutine that came
    second; and from every state Sum can still return. */
module BmtOnce {
  import opened BmtReference
  import opened BmtShape
  import opened BmtMachine
  import opened BmtProof
  import opened BmtClimb
  import opened BmtTheorems

  // ---------------------------------------------------------------- hashed exactly once

  /** Does step `a` hash the two slots of node `p`? */
  ghost predicate Hashes(m: Machine, a: Act, p: Pos) {
    a.TaskStep? && a.k < |m.tasks| && m.tasks[a.k].Cat? && m.tasks[a.k].n == p && m.tasks[a.k].hashes && p in m.tree
  }

  /** How often a schedule hashes node `p`. */
  ghost function HashCount(j: Job, m: Machine, acts: seq<Act>, p: Pos): nat
    decreases |acts|
  {
    if acts == [] then 0
    else (if Hashes(m, acts[0], p) then 1 else 0) + HashCount(j, Step(j, m, acts[0]), acts[1..], p)
  }

  ghost predicate Combines(t: Task, p: Pos) {
    (t.Join? || t.Take? || t.Cat?) && t.n == p
  }

  /** The value of `p` has been computed: it is carried upwards, or was handed over. */
  ghost predicate Computed(m: Machine, g: Hist, p: Pos) {
    p in g.gone || (p in g.owner && g.owner[p] < |m.tasks| && !Combines(m.tasks[g.owner[p]], p))
  }

  lemma CallerComputes(j: Job, before: Tree, m: Machine, g: Hist, p: Pos)
    requires Inv(j, before, m, g) && p.h >= 2
    ensures Computed(StepCaller(j, m), CallerHist(j, m, g), p) <==> Computed(m, g, p)
  {
    hide Slots, Shape, Counters, Flags, TasksOk, Clean, Span, Lo, Value, Path, Release;
  }

  /** What a goroutine's step from `t` to `t'` does to its node and to the node it takes up. */
  ghost predicate Moves(g: Hist, t: Task, t': Task)
    requires !t.Done?
  {
    && Claim(t) in g.owner && Claim(t) !in g.gone
    && (Combines(t, Claim(t)) ==> !t'.Done? && Claim(t') == Claim(t))
    && (Combines(t, Claim(t)) && !Combines(t', Claim(t)) <==> t.Cat?)
    && (!t'.Done? && Claim(t') != Claim(t) ==> Combines(t', Claim(t')) && Claim(t') !in g.owner && Claim(t') !in g.gone)
    && (!t'.Done? && Claim(t') == Claim(t) && !Combines(t, Claim(t)) && Claim(t).h >= 2 ==> !Combines(t', Claim(t)))
  }

  lemma TaskMoves(j: Job, before: Tree, m: Machine, g: Hist, k: nat)
    requires Inv(j, before, m, g) && Alive(m, k)
    ensures Moves(g, m.tasks[k], NextTask(j, m, k))
  {
    hide Slots, Shape, Owners, Counters, Flags, TasksOk, Clean, Span, Lo, Value, Path, ArrivesFirst;
    var t := m.tasks[k];
    AliveFacts(j, before, m, g, k);
    if !t.Start? { AtNode(j, before, m, g, k); }
    if t.Look? || t.Tog? {
      PutNode(j, t);
      UnbalancedIff(j, before, m, g, k, t.n);
      if t.n.h >= 2 { HandShape(j, g.owner.Keys, g.gone, |m.tasks|, IsWaiting(m), Claim(t), t.n); }
    } else if t.Send? {
      UpChild(t.n);
    }
  }

  lemma TaskComputes(j: Job, before: Tree, m: Machine, g: Hist, k: nat, p: Pos)
    requires Inv(j, before, m, g) && Alive(m, k) && TwoSided(j, p)
    ensures Computed(StepTask(j, m, k), TaskHist(j, m, g, k), p) <==> Computed(m, g, p) || Hashes(m, TaskStep(k), p)
    ensures Hashes(m, TaskStep(k), p) ==> !Computed(m, g, p)
  {
    hide Slots, Shape, Counters, Flags, TasksOk, Clean, Span, Lo, Value, Path, ArrivesFirst, StepTask;
    TaskMoves(j, before, m, g, k);
    StepLength(j, m, k);
    var t := m.tasks[k];
    if t.Cat? {
      AliveFacts(j, before, m, g, k);
      AtNode(j, before, m, g, k);
    }
  }

  lemma StepLength(j: Job, m: Machine, k: nat)
    requires k < |m.tasks|
    ensures |StepTask(j, m, k).tasks| == |m.tasks|
    ensures forall l :: 0 <= l < |m.tasks| && l != k ==> StepTask(j, m, k).tasks[l] == m.tasks[l]
  {}

  lemma StepComputes(j: Job, before: Tree, m: Machine, g: Hist, a: Act, p: Pos)
    requires Inv(j, before, m, g) && TwoSided(j, p)
    ensures Computed(Step(j, m, a), StepHist(j, m, g, a), p) <==> Computed(m, g, p) || Hashes(m, a, p)
    ensures Hashes(m, a, p) ==> !Computed(m, g, p)
  {
    hide Inv, Computed, StepTask, StepCaller, CallerHist;
    match a
    case CallerStep => CallerComputes(j, before, m, g, p);
    case TaskStep(k) => if Alive(m, k) { TaskComputes(j, before, m, g, k, p); } else { IdleStep(j, m, k); }
  }

  lemma IdleStep(j: Job, m: Machine, k: nat)
    requires !Alive(m, k)
    ensures Step(j, m, TaskStep(k)) == m
  {}

  lemma {:induction false} RunComputes(j: Job, before: Tree, m: Machine, g: Hist, acts: seq<Act>, p: Pos)
    requires Inv(j, before, m, g) && TwoSided(j, p)
    ensures HashCount(j, m, acts, p) + (if Computed(m, g, p) then 1 else 0) ==
            if Computed(Run(j, m, acts), RunHist(j, m, g, acts), p) then 1 else 0
    decreases |acts|
  {
    hide Inv, Computed, Hashes, Step, StepHist;
    if acts != [] {
      StepKeeps(j, before, m, g, acts[0]);
      StepComputes(j, before, m, g, acts[0], p);
      RunComputes(j, before, Step(j, m, acts[0]), StepHist(j, m, g, acts[0]), acts[1..], p);
    }
  }

  /** Whatever the schedule, no balanced inner node is hashed twice; once Sum has returned, each
      was hashed exactly once. */
  lemma HashedOnce(j: Job, tree: Tree, acts: seq<Act>, p: Pos)
    requires Fits(j) && Clean(tree, j.depth) && TwoSided(j, p)
    ensures HashCount(j, Init(tree), acts, p) <= 1
    ensures Run(j, Init(tree), acts).caller.Released? ==> HashCount(j, Init(tree), acts, p) == 1
  {
    InitInv(j, tree);
    RunComputes(j, tree, Init(tree), START, acts, p);
    Reached(j, tree, acts);
    if Run(j, Init(tree), acts).caller.Released? {
      ReleasedComputed(j, tree, Run(j, Init(tree), acts), RunHist(j, Init(tree), START, acts), p);
    }
  }

  lemma ReleasedComputed(j: Job, before: Tree, m: Machine, g: Hist, p: Pos)
    requires Inv(j, before, m, g) && m.caller.Released? && TwoSided(j, p)
    ensures Computed(m, g, p)
  {
    hide Slots, Owners, Counters, Flags, TasksOk, Clean, Span, Lo, Value;
    TwoSidedChildren(j, p);
    UpChild(p);
    PathUp(j, Child(p, true));
    AllGone(j, g.owner.Keys, g.gone, |m.tasks|, true, p);
  }

  // ---------------------------------------------------------------- by the second arrival

  /** Goroutine `k` toggles node `p` and is told that it came second. */
  ghost predicate ComesSecond(m: Machine, a: Act, k: nat, p: Pos) {
    && a == TaskStep(k) && k < |m.tasks| && m.tasks[k].Tog? && m.tasks[k].n == p
    && p in m.tree && !ArrivesFirst(m.tree[p].state)
  }

  lemma {:induction false} RunSnoc(j: Job, m: Machine, acts: seq<Act>)
    requires acts != []
    ensures Run(j, m, acts) == Step(j, Run(j, m, acts[..|acts| - 1]), acts[|acts| - 1])
    decreases |acts|
  {
    if |acts| > 1 {
      RunSnoc(j, Step(j, m, acts[0]), acts[1..]);
      assert acts[..|acts| - 1][1..] == acts[1..][..|acts| - 2];
    }
  }

  /** A step that brings goroutine `k` to combine a balanced node is its second-arrival toggle. */
  lemma CombinesFrom(j: Job, before: Tree, m: Machine, g: Hist, a: Act, k: nat, p: Pos)
    requires Inv(j, before, m, g) && TwoSided(j, p)
    requires k < |Step(j, m, a).tasks| && Combines(Step(j, m, a).tasks[k], p)
    ensures k < |m.tasks| && (Combines(m.tasks[k], p) || ComesSecond(m, a, k, p))
  {
    hide Slots, Shape, Owners, Counters, Flags, TasksOk, Clean, Span, Lo, Value, Path, ArrivesFirst;
    if a == TaskStep(k) && Alive(m, k) && m.tasks[k].Look? {
      AliveFacts(j, before, m, g, k);
      PutNode(j, m.tasks[k]);
      UnbalancedIff(j, before, m, g, k, m.tasks[k].n);
    }
  }

  lemma {:induction false} CombinesAfterSecond(j: Job, tree: Tree, acts: seq<Act>, k: nat, p: Pos)
    requires Fits(j) && Clean(tree, j.depth) && TwoSided(j, p)
    requires k < |Run(j, Init(tree), acts).tasks| && Combines(Run(j, Init(tree), acts).tasks[k], p)
    ensures exists i :: 0 <= i < |acts| && ComesSecond(Run(j, Init(tree), acts[..i]), acts[i], k, p)
    decreases |acts|
  {
    hide Fits, Clean, TwoSided, Step, Combines, ComesSecond, Inv;
    if acts == [] {
    } else {
      var n := |acts| - 1;
      RunSnoc(j, Init(tree), acts);
      Reached(j, tree, acts[..n]);
      var m := Run(j, Init(tree), acts[..n]);
      CombinesFrom(j, tree, m, RunHist(j, Init(tree), START, acts[..n]), acts[n], k, p);
      if Combines(m.tasks[k], p) {
        CombinesAfterSecond(j, tree, acts[..n], k, p);
        var i :| 0 <= i < n && ComesSecond(Run(j, Init(tree), acts[..n][..i]), acts[..n][i], k, p);
        assert acts[..n][..i] == acts[..i];
      }
    }
  }

  /** The goroutine that hashes a balanced inner node is one whose toggle there answered "second". */
  lemma HashedBySecond(j: Job, tree: Tree, acts: seq<Act>, a: Act, p: Pos)
    requires Fits(j) && Clean(tree, j.depth) && TwoSided(j, p)
    requires Hashes(Run(j, Init(tree), acts), a, p)
    ensures exists i :: 0 <= i < |acts| && ComesSecond(Run(j, Init(tree), acts[..i]), acts[i], a.k, p)
  {
    CombinesAfterSecond(j, tree, acts, a.k, p);
  }

  // ---------------------------------------------------------------- Sum can return

  lemma {:induction false} Finish(j: Job, before: Tree, m: Machine, g: Hist) returns (acts: seq<Act>)
    requires Inv(j, before, m, g)
    ensures EnabledRun(j, m, acts) && Run(j, m, acts).caller.Released?
    decreases Cost(j, m)
  {
    hide Inv, Cost, StepCaller, StepTask, Enabled;
    if m.caller.Released? {
      acts := [];
    } else {
      var a := SomeStepFrom(j, before, m, g);
      CostDrops(j, before, m, g, a);
      StepKeeps(j, before, m, g, a);
      var rest := Finish(j, before, Step(j, m, a), StepHist(j, m, g, a));
      acts := [a] + rest;
      assert acts[1..] == rest;
    }
  }

  lemma CostDrops(j: Job, before: Tree, m: Machine, g: Hist, a: Act)
    requires Inv(j, before, m, g) && Enabled(m, a)
    ensures Cost(j, Step(j, m, a)) < Cost(j, m)
  {
    hide Inv, Cost, StepCaller, StepTask;
    match a
    case CallerStep => CallerCostDrops(j, before, m, g);
    case TaskStep(k) => TaskCostDrops(j, before, m, g, k);
  }

  /** From every state that any schedule reaches, some continuation lets Sum return. */
  lemma SumCanReturn(j: Job, tree: Tree, acts: seq<Act>) returns (more: seq<Act>)
    requires Fits(j) && Clean(tree, j.depth)
    ensures EnabledRun(j, Run(j, Init(tree), acts), more)
    ensures Run(j, Run(j, Init(tree), acts), more).caller.Released?
  {
    Reached(j, tree, acts);
    more := Finish(j, tree, Run(j, Init(tree), acts), RunHist(j, Init(tree), START, acts));
  }

  // ---------------------------------------------------------------- a counter used up

  const WORN: int := INT32_MAX - 1

  /** Four one-byte segments on a tree of two data nodes. */
  ghost function FourBytes(hash: BaseHash): Job { Job(hash, 1, 1, [0, 0, 0, 0], 1) }

  /** A clean tree whose top has been toggled 2^31 - 2 times. */
  const WORN_TREE: Tree := map[
    Pos(1, 0) := Node([], [], 0, false, false),
    Pos(1, 1) := Node([], [], 0, false, false),
    Pos(2, 0) := Node([], [], WORN, false, true)]

  lemma WornFits(hash: BaseHash)
    ensures Fits(FourBytes(hash)) && Clean(WORN_TREE, 1) && TwoSided(FourBytes(hash), Pos(2, 0))
  {
    assert Span(1, 0) == 1 && Span(1, 1) == 2;
    assert Lo(1, 1, 1) == Lo(1, 1, 0) + 2 == 2;
    assert Lo(1, 1, 2) == Lo(1, 1, 1) + 2 == 4;
    assert Path(1, 1) == 1;
    forall p ensures p in WORN_TREE <==> InTree(1, p) {}
  }

  /** Reusing that tree once more leaves it unclean, whatever the base hash. */
  lemma ToggleWearsOut(hash: BaseHash) returns (acts: seq<Act>)
    ensures Clean(WORN_TREE, 1)
    ensures EnabledRun(FourBytes(hash), Init(WORN_TREE), acts)
    ensures Run(FourBytes(hash), Init(WORN_TREE), acts).caller.Released?
    ensures !Clean(Run(FourBytes(hash), Init(WORN_TREE), acts).tree, 1)
  {
    hide Clean, Fits, EnabledRun, Cost;
    WornFits(hash);
    InitInv(FourBytes(hash), WORN_TREE);
    acts := Finish(FourBytes(hash), WORN_TREE, Init(WORN_TREE), START);
    ReleasedCleanIff(FourBytes(hash), WORN_TREE, acts);
    assert Pos(2, 0) in WORN_TREE && TwoSided(FourBytes(hash), Pos(2, 0)) && WORN_TREE[Pos(2, 0)].state == WORN;
  }
}
