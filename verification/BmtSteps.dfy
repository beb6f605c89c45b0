/** Each step of the concurrent hasher keeps the invariant. */
module BmtSteps {
  import opened BmtReference
  import opened BmtShape
  import opened BmtMachine
  import opened BmtProof

  // ---------------------------------------------------------------- the calling goroutine

  lemma DepthPositive(j: Job)
    requires Fits(j) && j.last > 0
    ensures j.depth >= 1 && Top(j) >= 2 && |j.data| > 0
  {
    assert Path(j.last, 1) == j.last;
  }

  lemma LaunchShape(j: Job, live: set<Pos>, gone: set<Pos>, k: nat, waiting: bool)
    requires Fits(j) && k <= j.last && Top(j) >= 1
    requires Shape(j, live, gone, k, false)
    requires waiting <==> k == j.last
    ensures Pos(1, k) !in live
    ensures Shape(j, live + {Pos(1, k)}, gone, k + 1, waiting)
  {
    var c := Pos(1, k);
    assert c !in live && c !in gone;
    assert Path(j.last, 1) == j.last;
    assert Used(j, c) && (OnPath(j, c) <==> k == j.last);
  }

  lemma LaunchOwners(tasks: seq<Task>, owner: map<Pos, nat>, t: Task)
    requires Owners(tasks, owner) && !t.Done? && Claim(t) !in owner
    ensures Owners(tasks + [t], owner[Claim(t) := |tasks|])
  {}

  /** Handing data node `k` to a new goroutine, on a tree the other goroutines agree with. */
  lemma Launch(j: Job, tree: Tree, tasks: seq<Task>, g: Hist, t: Task, waiting: bool)
    requires Fits(j) && Top(j) >= 1
    requires t.Start? && t.k == |tasks| <= j.last && (waiting <==> t.k == j.last)
    requires t.seg == Pair(j, t.k) && (t.k < j.last ==> t.d >= 1) && (j.last == 0 ==> t.d == 0)
    requires Owners(tasks, g.owner) && TasksOk(j, tree, tasks)
    requires Shape(j, g.owner.Keys, g.gone, |tasks|, false)
    ensures Owners(tasks + [t], Launched(g, |tasks|).owner) && TasksOk(j, tree, tasks + [t])
    ensures Shape(j, Launched(g, |tasks|).owner.Keys, g.gone, |tasks| + 1, waiting)
  {
    var c := Pos(1, t.k);
    LaunchShape(j, g.owner.Keys, g.gone, t.k, waiting);
    LaunchOwners(tasks, g.owner, t);
    assert Launched(g, |tasks|).owner.Keys == g.owner.Keys + {c};
    assert TaskOk(j, tree, t) by { assert Path(j.last, 1) == j.last; }
  }

  lemma StepLaunch(j: Job, before: Tree, m: Machine, g: Hist)
    requires Inv(j, before, m, g)
    requires m.caller.Launching? && m.caller.k < j.last
    ensures Inv(j, before, StepCaller(j, m), CallerHist(j, m, g))
  {
    hide Slots, Shape, Owners, Counters, TasksOk;
    var k := m.caller.k;
    DepthPositive(j);
    Launch(j, m.tree, m.tasks, g, Start(k, Pair(j, k), j.depth), false);
  }

  lemma StepBeginFinalise(j: Job, before: Tree, m: Machine, g: Hist)
    requires Inv(j, before, m, g)
    requires m.caller.Launching? && m.caller.k == j.last
    ensures Inv(j, before, StepCaller(j, m), g)
  {
    hide Slots, Shape, Owners, Counters, TasksOk;
    assert Path(j.last, 1) == j.last;
    assert Top(j) >= 1;
    if SkipsLeaf(j) {
      assert Path(j.last, 2) == j.last / 2;
      DepthPositive(j);
    }
  }

  // Marking a path node does not touch anything a goroutine relies on before the last launch.

  lemma BlankSlots(j: Job, tree: Tree, live: set<Pos>, gone: set<Pos>, launched: nat, n: Pos)
    requires Fits(j) && Shape(j, live, gone, launched, false) && Slots(j, tree, gone)
    requires n in tree && OnPath(j, n)
    ensures Slots(j, BlankRight(tree, n), gone)
  {
    forall p | p in gone && Used(j, p) && p.h < Top(j)
      ensures Up(p) == n ==> IsLeft(p)
    {
      PathUp(j, p);
    }
  }

  lemma BlankTask(j: Job, tree: Tree, t: Task, n: Pos)
    requires Fits(j) && TaskOk(j, tree, t)
    requires n in tree && OnPath(j, n)
    requires !t.Done? ==> !OnPath(j, Claim(t))
    ensures TaskOk(j, BlankRight(tree, n), t)
  {
    if (t.Look? || t.Tog?) && t.n.h >= 2 && t.n == n {
      UpChild(n);
      PathUp(j, Claim(t));
    }
  }

  lemma BlankTasks(j: Job, tree: Tree, owner: map<Pos, nat>, gone: set<Pos>, tasks: seq<Task>, n: Pos)
    requires Fits(j) && TasksOk(j, tree, tasks) && Owners(tasks, owner)
    requires Shape(j, owner.Keys, gone, |tasks|, false)
    requires n in tree && OnPath(j, n)
    ensures TasksOk(j, BlankRight(tree, n), tasks)
  {
    forall k | 0 <= k < |tasks| ensures TaskOk(j, BlankRight(tree, n), tasks[k]) {
      assert !tasks[k].Done? ==> Claim(tasks[k]) in owner.Keys;
      BlankTask(j, tree, tasks[k], n);
    }
  }

  /** Slots, counters and goroutines do not depend on the flags. */
  lemma FlagsAside(j: Job, before: Tree, tree: Tree, tree': Tree, gone: set<Pos>, tasks: seq<Task>)
    requires Slots(j, tree, gone) && Counters(j, before, tree, gone) && TasksOk(j, tree, tasks)
    requires tree'.Keys == tree.Keys
    requires forall p :: p in tree ==> tree'[p] == tree[p].(unbalanced := tree'[p].unbalanced, root := tree'[p].root)
    ensures Slots(j, tree', gone) && Counters(j, before, tree', gone) && TasksOk(j, tree', tasks)
  {
    hide Value, Lo, Span, Path;
    forall k | 0 <= k < |tasks| ensures TaskOk(j, tree', tasks[k]) {
      assert TaskOk(j, tree, tasks[k]);
    }
  }

  lemma FlagFlags(j: Job, tree: Tree, c: Caller)
    requires Fits(j) && Flags(j, tree, c)
    requires c.Finalising? && c.n in tree && OnPath(j, c.n) && FirstMark(j) <= c.n.h <= Top(j)
    requires c.left == !TwoSided(j, c.n)
    ensures Flags(j, SetFlag(tree, c.n, c.left), Blanking(c.n, c.left, c.d))
  {
    hide Fits, HasRight, Pair, SkipsLeaf;
  }

  lemma BlankFlags(j: Job, tree: Tree, c: Caller)
    requires Fits(j) && Flags(j, tree, c)
    requires c.Blanking? && c.n in tree && OnPath(j, c.n)
    ensures Flags(j, BlankRight(tree, c.n), Rooting(c.n, c.left, c.d))
  {
    hide Fits, HasRight, Pair, SkipsLeaf;
  }

  lemma RootFlags(j: Job, tree: Tree, c: Caller)
    requires Fits(j) && Flags(j, tree, c)
    requires c.Rooting? && c.n in tree && OnPath(j, c.n) && FirstMark(j) <= c.n.h <= Top(j)
    ensures c.n.i != 0 ==> Flags(j, tree, Finalising(Up(c.n), IsLeft(c.n), c.d + 1))
    ensures c.n.i == 0 ==> c.n == Pos(Top(j), 0)
    ensures c.n.i == 0 ==> Flags(j, MakeRoot(tree, c.n), Waiting)
  {
    hide Fits, HasRight, Pair, SkipsLeaf;
  }

  lemma MarkClimbs(j: Job, n: Pos)
    requires Fits(j) && OnPath(j, n) && n.h <= Top(j) && n.i != 0
    ensures OnPath(j, Up(n)) && n.h < Top(j) && j.last > 0
    ensures IsLeft(n) == !TwoSided(j, Up(n))
  {
    PathUp(j, n);
    PathZero(n.h);
  }

  ghost predicate Marking(c: Caller) { c.Finalising? || c.Blanking? || c.Rooting? }

  lemma MarkedInTree(j: Job, before: Tree, m: Machine, g: Hist)
    requires Inv(j, before, m, g) && Marking(m.caller)
    ensures m.caller.n in m.tree
  {
    hide Slots, Shape, Owners, TasksOk, Flags;
    UsedInTree(j, m.caller.n);
  }

  lemma StepFlag(j: Job, before: Tree, m: Machine, g: Hist)
    requires Inv(j, before, m, g) && m.caller.Finalising?
    ensures Inv(j, before, StepCaller(j, m), g)
  {
    hide Slots, Shape, Owners, Counters, TasksOk, Flags, Clean, Span, Lo, Path;
    MarkedInTree(j, before, m, g);
    FlagsAside(j, before, m.tree, SetFlag(m.tree, m.caller.n, m.caller.left), g.gone, m.tasks);
    FlagFlags(j, m.tree, m.caller);
  }

  lemma StepBlank(j: Job, before: Tree, m: Machine, g: Hist)
    requires Inv(j, before, m, g) && m.caller.Blanking?
    ensures Inv(j, before, StepCaller(j, m), g)
  {
    hide Slots, Shape, Owners, TasksOk, Flags, Clean, Span, Lo, Path;
    MarkedInTree(j, before, m, g);
    BlankSlots(j, m.tree, g.owner.Keys, g.gone, |m.tasks|, m.caller.n);
    BlankTasks(j, m.tree, g.owner, g.gone, m.tasks, m.caller.n);
    BlankFlags(j, m.tree, m.caller);
  }

  lemma StepClimb(j: Job, before: Tree, m: Machine, g: Hist)
    requires Inv(j, before, m, g) && m.caller.Rooting? && m.caller.n.i != 0
    ensures Inv(j, before, StepCaller(j, m), g)
  {
    hide Slots, Shape, Owners, Counters, TasksOk, Flags, Clean, Span, Lo, Path;
    MarkedInTree(j, before, m, g);
    RootFlags(j, m.tree, m.caller);
    MarkClimbs(j, m.caller.n);
  }

  lemma StepRoot(j: Job, before: Tree, m: Machine, g: Hist)
    requires Inv(j, before, m, g) && m.caller.Rooting? && m.caller.n.i == 0
    ensures Inv(j, before, StepCaller(j, m), CallerHist(j, m, g))
  {
    hide Slots, Shape, Owners, Counters, TasksOk, Flags, Clean, Span, Lo, Path;
    MarkedInTree(j, before, m, g);
    var tree' := MakeRoot(m.tree, m.caller.n);
    FlagsAside(j, before, m.tree, tree', g.gone, m.tasks);
    RootFlags(j, m.tree, m.caller);
    Launch(j, tree', m.tasks, g, Start(j.last, Pair(j, j.last), m.caller.d), true);
  }
}
