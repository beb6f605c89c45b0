/** The climbing goroutines of the concurrent hasher keep the invariant. */
module BmtClimb {
  import opened BmtReference
  import opened BmtShape
  import opened BmtMachine
  import opened BmtProof

  /** Once the summit's value is handed over, so is every other. */
  lemma {:induction false} AllGone(j: Job, live: set<Pos>, gone: set<Pos>, launched: nat, waiting: bool, p: Pos)
    requires Fits(j) && Shape(j, live, gone, launched, waiting)
    requires Pos(Top(j), 0) in gone && Used(j, p)
    ensures p in gone
    decreases Top(j) - p.h
  {
    if p.h < Top(j) {
      PathUp(j, p);
      UpChild(p);
      AllGone(j, live, gone, launched, waiting, Up(p));
      assert BelowGone(j, Up(p), gone);
    }
  }

  ghost predicate Alive(m: Machine, k: nat) { k < |m.tasks| && !m.tasks[k].Done? }

  /** A running goroutine carries a node of the chunk's tree, and the tree is not yet released. */
  lemma AliveFacts(j: Job, before: Tree, m: Machine, g: Hist, k: nat)
    requires Inv(j, before, m, g) && Alive(m, k)
    ensures Claim(m.tasks[k]) in g.owner && Used(j, Claim(m.tasks[k])) && Claim(m.tasks[k]) !in g.gone
    ensures Pos(Top(j), 0) !in g.gone && !m.caller.Released?
    ensures OnPath(j, Claim(m.tasks[k])) ==> m.caller.Waiting?
    ensures TaskOk(j, m.tree, m.tasks[k])
  {
    hide Slots, Counters, Flags, Clean;
    var c := Claim(m.tasks[k]);
    assert c in g.owner.Keys;
    if Pos(Top(j), 0) in g.gone {
      AllGone(j, g.owner.Keys, g.gone, |m.tasks|, IsWaiting(m), c);
    }
  }

  lemma NodeInTree(j: Job, before: Tree, m: Machine, g: Hist, p: Pos)
    requires Inv(j, before, m, g) && Used(j, p)
    ensures p in m.tree && p in before
    ensures before[p].state % 2 == 0 && 0 <= before[p].state < INT32_MAX
  {
    hide Slots, Shape, Owners, TasksOk, Flags;
    UsedInTree(j, p);
  }

  lemma SameClaim(tasks: seq<Task>, owner: map<Pos, nat>, k: nat, t: Task)
    requires Owners(tasks, owner) && k < |tasks|
    requires !tasks[k].Done? && !t.Done? && Claim(t) == Claim(tasks[k])
    ensures Owners(tasks[k := t], owner)
  {}

  // ---------------------------------------------------------------- filling a slot

  ghost function Fill(tree: Tree, n: Pos, left: bool, s: Bytes): Tree
    requires n in tree
  {
    tree[n := if left then tree[n].(left := s) else tree[n].(right := s)]
  }

  lemma FillSlots(j: Job, tree: Tree, gone: set<Pos>, n: Pos, left: bool, s: Bytes)
    requires Slots(j, tree, gone) && n in tree
    requires n.h >= 2 ==> Child(n, left) !in gone
    requires n.h >= 1
    ensures Slots(j, Fill(tree, n, left, s), gone)
  {
    forall p | p in gone && Used(j, p) && p.h < Top(j)
      ensures Up(p) == n ==> IsLeft(p) != left
    {
      UpChild(p);
    }
  }

  /** Another goroutine's slot is a different slot. */
  lemma FillTask(j: Job, tree: Tree, t: Task, n: Pos, left: bool, s: Bytes)
    requires TaskOk(j, tree, t) && n in tree && n.h >= 1
    requires n.h == 1 ==> left
    requires !t.Done? ==> Claim(t) != if n.h <= 1 then n else Child(n, left)
    ensures TaskOk(j, Fill(tree, n, left, s), t)
  {}

  lemma FillFlags(j: Job, tree: Tree, caller: Caller, n: Pos, left: bool, s: Bytes)
    requires Flags(j, tree, caller) && n in tree
    requires left || TwoSided(j, n)
    ensures Flags(j, Fill(tree, n, left, s), caller)
  {}

  lemma FillCounters(j: Job, before: Tree, tree: Tree, gone: set<Pos>, n: Pos, left: bool, s: Bytes)
    requires Counters(j, before, tree, gone) && n in tree
    ensures Counters(j, before, Fill(tree, n, left, s), gone)
  {}

  lemma FillTasks(j: Job, tree: Tree, owner: map<Pos, nat>, tasks: seq<Task>, k: nat)
    requires TasksOk(j, tree, tasks) && Owners(tasks, owner)
    requires k < |tasks| && tasks[k].Put? && tasks[k].n in tree && tasks[k].n.h >= 1
    ensures var t := tasks[k];
            TasksOk(j, Fill(tree, t.n, t.left, t.s), tasks[k := Look(t.n, t.i, t.left, t.d)])
  {
    var t := tasks[k];
    var tree', tasks' := Fill(tree, t.n, t.left, t.s), tasks[k := Look(t.n, t.i, t.left, t.d)];
    assert TaskOk(j, tree, t);
    forall l | 0 <= l < |tasks'| ensures TaskOk(j, tree', tasks'[l]) {
      if l != k {
        FillTask(j, tree, tasks[l], t.n, t.left, t.s);
      }
    }
  }

  lemma StepPut(j: Job, before: Tree, m: Machine, g: Hist, k: nat)
    requires Inv(j, before, m, g) && Alive(m, k) && m.tasks[k].Put?
    ensures Inv(j, before, StepTask(j, m, k), g)
  {
    hide Slots, Shape, Owners, Counters, TasksOk, Flags, Clean, Span, Lo, Path, Value;
    var t := m.tasks[k];
    AliveFacts(j, before, m, g, k);
    PutNode(j, t);
    NodeInTree(j, before, m, g, t.n);
    FillSlots(j, m.tree, g.gone, t.n, t.left, t.s);
    FillFlags(j, m.tree, m.caller, t.n, t.left, t.s);
    FillCounters(j, before, m.tree, g.gone, t.n, t.left, t.s);
    FillTasks(j, m.tree, g.owner, m.tasks, k);
    SameClaim(m.tasks, g.owner, k, Look(t.n, t.i, t.left, t.d));
  }

  lemma PutNode(j: Job, t: Task)
    requires t.Put? || t.Look? || t.Tog?
    requires Fits(j) && Used(j, Claim(t)) && (t.n.h >= 2 ==> Used(j, t.n)) && (t.n.h <= 1 ==> LeafRun(j, t.n, t.left))
    ensures Used(j, t.n) && (t.left || TwoSided(j, t.n))
    ensures t.n.h >= 2 ==> Up(Claim(t)) == t.n && IsLeft(Claim(t)) == t.left
  {
    if t.n.h >= 2 { UpChild(t.n); }
  }

  // ---------------------------------------------------------------- passing a value up

  lemma RootIff(j: Job, before: Tree, m: Machine, g: Hist, k: nat, p: Pos)
    requires Inv(j, before, m, g) && Alive(m, k) && Claim(m.tasks[k]) == p
    ensures p in m.tree
    ensures m.tree[p].root <==> p == Pos(Top(j), 0)
    ensures p != Pos(Top(j), 0) ==> Used(j, Up(p)) && j.last > 0
  {
    hide Slots, Shape, Owners, Counters, TasksOk, Clean, Span, Lo;
    AliveFacts(j, before, m, g, k);
    NodeInTree(j, before, m, g, p);
    RootPlace(j, p);
    assert m.tree[p].root <==> p.h == j.depth + 1 || (m.caller.Waiting? && p == Pos(Top(j), 0));
  }

  lemma TopOfOne(j: Job)
    ensures j.last == 0 ==> Top(j) == 1
  {
    PathZero(1);
  }

  lemma RootPlace(j: Job, p: Pos)
    requires Fits(j) && Used(j, p)
    ensures Top(j) <= j.depth + 1
    ensures p.h == Top(j) <==> p == Pos(Top(j), 0)
    ensures OnPath(j, Pos(Top(j), 0))
    ensures p != Pos(Top(j), 0) ==> Used(j, Up(p)) && j.last > 0
  {
    UsedInTree(j, p);
    PathUp(j, p);
    TopOfOne(j);
  }

  lemma EmitShape(j: Job, live: set<Pos>, gone: set<Pos>, launched: nat, waiting: bool)
    requires Fits(j) && Shape(j, live, gone, launched, waiting) && Pos(Top(j), 0) in live
    ensures Shape(j, live - {Pos(Top(j), 0)}, gone + {Pos(Top(j), 0)}, launched, waiting)
  {
    var c := Pos(Top(j), 0);
    forall p | Used(j, p) ensures BelowGone(j, p, gone + {c}) <==> BelowGone(j, p, gone) {}
  }

  lemma EmitCounters(j: Job, before: Tree, tree: Tree, gone: set<Pos>)
    requires Counters(j, before, tree, gone)
    ensures Counters(j, before, tree, gone + {Pos(Top(j), 0)})
  {
    var c := Pos(Top(j), 0);
    assert Path(j.last, Top(j)) == 0;
    forall p | p in tree ensures Arrived(j, gone + {c}, p) == Arrived(j, gone, p) {
      if p.h == Top(j) + 1 { assert !TwoSided(j, p); }
    }
  }

  lemma DoneOwners(tasks: seq<Task>, owner: map<Pos, nat>, k: nat)
    requires Owners(tasks, owner) && k < |tasks| && !tasks[k].Done?
    ensures Owners(tasks[k := Done], owner - {Claim(tasks[k])})
  {}

  /** The value of the summit reaches the result channel. */
  lemma Emit(j: Job, before: Tree, m: Machine, g: Hist, k: nat, s: Bytes)
    requires Inv(j, before, m, g) && Alive(m, k)
    requires Claim(m.tasks[k]) == Pos(Top(j), 0) && s == Value(j, Top(j), 0)
    ensures Inv(j, before, m.(tasks := m.tasks[k := Done], result := m.result + [s]), Handed(g, k, m.tasks[k], Done))
  {
    hide Slots, Shape, Owners, Counters, Flags, Clean, Span, Lo, Path, Value;
    var c := Pos(Top(j), 0);
    AliveFacts(j, before, m, g, k);
    EmitShape(j, g.owner.Keys, g.gone, |m.tasks|, IsWaiting(m));
    EmitCounters(j, before, m.tree, g.gone);
    DoneOwners(m.tasks, g.owner, k);
    assert Slots(j, m.tree, g.gone + {c}) by { EmitSlots(j, m.tree, g.gone); }
    assert (g.owner - {c}).Keys == g.owner.Keys - {c};
    assert TasksOk(j, m.tree, m.tasks[k := Done]) by { DoneTasks(j, m.tree, m.tasks, k); }
  }

  lemma EmitSlots(j: Job, tree: Tree, gone: set<Pos>)
    requires Slots(j, tree, gone)
    ensures Slots(j, tree, gone + {Pos(Top(j), 0)})
  {}

  lemma DoneTasks(j: Job, tree: Tree, tasks: seq<Task>, k: nat)
    requires TasksOk(j, tree, tasks) && k < |tasks|
    ensures TasksOk(j, tree, tasks[k := Done])
  {
    var tasks' := tasks[k := Done];
    forall l | 0 <= l < |tasks'| ensures TaskOk(j, tree, tasks'[l]) {
      assert TaskOk(j, tree, tasks[l]);
    }
  }

  /** A goroutine holding the value of its node either reports it or moves to the parent. */
  lemma StepSend(j: Job, before: Tree, m: Machine, g: Hist, k: nat)
    requires Inv(j, before, m, g) && Alive(m, k) && m.tasks[k].Send?
    ensures Inv(j, before, StepTask(j, m, k), TaskHist(j, m, g, k))
  {
    hide Slots, Shape, Owners, Counters, Flags, Clean, Span, Lo, Path, Value, TasksOk;
    var t := m.tasks[k];
    AliveFacts(j, before, m, g, k);
    RootIff(j, before, m, g, k, t.n);
    if m.tree[t.n].root {
      Emit(j, before, m, g, k, t.s);
    } else {
      UpChild(t.n);
      KeepClaim(j, before, m, g, k, Put(Up(t.n), t.i, IsLeft(t.n), t.d, t.s));
    }
  }

  /** A goroutine moves on without touching the tree or handing its node over. */
  lemma KeepClaim(j: Job, before: Tree, m: Machine, g: Hist, k: nat, t: Task)
    requires Inv(j, before, m, g) && Alive(m, k)
    requires !t.Done? && Claim(t) == Claim(m.tasks[k]) && TaskOk(j, m.tree, t)
    ensures Inv(j, before, m.(tasks := m.tasks[k := t]), g)
    ensures Handed(g, k, m.tasks[k], t) == g
  {
    hide Slots, Shape, Owners, Counters, Flags, Clean, Span, Lo, Path, Value, TasksOk, TaskOk;
    SameClaim(m.tasks, g.owner, k, t);
    SetTask(j, m.tree, m.tasks, k, t);
  }

  lemma SetTask(j: Job, tree: Tree, tasks: seq<Task>, k: nat, t: Task)
    requires TasksOk(j, tree, tasks) && k < |tasks| && TaskOk(j, tree, t)
    ensures TasksOk(j, tree, tasks[k := t])
  {}

  // ---------------------------------------------------------------- starting

  lemma StepStart(j: Job, before: Tree, m: Machine, g: Hist, k: nat)
    requires Inv(j, before, m, g) && Alive(m, k) && m.tasks[k].Start?
    ensures Inv(j, before, StepTask(j, m, k), TaskHist(j, m, g, k))
  {
    hide Slots, Shape, Owners, Counters, Flags, Clean, Span, Lo, TasksOk;
    var t := m.tasks[k];
    AliveFacts(j, before, m, g, k);
    StartFacts(j, t.k);
    if |t.seg| > j.size && j.depth >= 1 {
      KeepClaim(j, before, m, g, k, Send(Pos(1, t.k), t.k, t.d, j.hash(t.seg)));
    } else {
      KeepClaim(j, before, m, g, k, Put(Pos(1, t.k), 2 * t.k, true, t.d, t.seg));
    }
  }

  lemma StartFacts(j: Job, k: nat)
    requires Fits(j) && Used(j, Pos(1, k))
    ensures k <= j.last
    ensures j.last > 0 ==> j.depth >= 1
    ensures k < j.last ==> |Pair(j, k)| > j.size
    ensures |Pair(j, k)| > j.size || j.last == 0 ==> Value(j, 1, k) == j.hash(Pair(j, k))
  {
    assert Path(j.last, 1) == j.last;
    if k < j.last {
      assert |j.data| > 0;
      FullLength(j, 1, k);
      PairSpan(j.size, 1);
    }
  }

  // ---------------------------------------------------------------- combining

  lemma UnbalancedIff(j: Job, before: Tree, m: Machine, g: Hist, k: nat, n: Pos)
    requires Inv(j, before, m, g) && Alive(m, k) && Used(j, n)
    requires n.h >= 2 ==> Claim(m.tasks[k]) == n || Up(Claim(m.tasks[k])) == n
    requires n.h == 1 ==> Claim(m.tasks[k]) == n && LeafRun(j, n, true)
    ensures n in m.tree
    ensures m.tree[n].unbalanced <==> !TwoSided(j, n)
    ensures !TwoSided(j, n) ==> m.tree[n].right == [] && OnPath(j, n)
  {
    hide Slots, Shape, Owners, Counters, TasksOk, Clean, Span, Lo, Pair;
    AliveFacts(j, before, m, g, k);
    NodeInTree(j, before, m, g, n);
    var c := Claim(m.tasks[k]);
    OneSidedOnPath(j, n, c);
    assert OnPath(j, n) && m.caller.Waiting? ==> FirstMark(j) <= n.h < Marked(j, m.caller);
  }

  lemma OneSidedOnPath(j: Job, n: Pos, c: Pos)
    requires Fits(j) && Used(j, n) && Used(j, c)
    requires c == n || Up(c) == n
    requires n.h == 1 ==> LeafRun(j, n, true)
    ensures !TwoSided(j, n) ==> OnPath(j, n) && OnPath(j, c)
    ensures n.h >= FirstMark(j)
  {
    if n.h >= 2 { PathUp(j, c); }
  }

  lemma LiveBelow(j: Job, live: set<Pos>, gone: set<Pos>, launched: nat, waiting: bool, n: Pos)
    requires Shape(j, live, gone, launched, waiting) && n in live && n.h >= 2
    ensures BelowGone(j, n, gone)
  {}

  lemma JoinSlots(j: Job, tree: Tree, gone: set<Pos>, n: Pos)
    requires Fits(j) && Slots(j, tree, gone) && Used(j, n) && n.h >= 2 && n in tree
    requires BelowGone(j, n, gone)
    ensures tree[n].left == Value(j, n.h - 1, 2 * n.i)
    ensures TwoSided(j, n) ==> tree[n].right == Value(j, n.h - 1, 2 * n.i + 1)
  {
    hide Value, Lo, Span;
    UpChild(n);
    assert Used(j, Child(n, true)) && Up(Child(n, true)) == n by { PathUp(j, Child(n, true)); }
    if TwoSided(j, n) {
      assert Used(j, Child(n, false)) && Up(Child(n, false)) == n;
    }
  }

  lemma StepJoin(j: Job, before: Tree, m: Machine, g: Hist, k: nat)
    requires Inv(j, before, m, g) && Alive(m, k) && m.tasks[k].Join?
    ensures Inv(j, before, StepTask(j, m, k), TaskHist(j, m, g, k))
  {
    hide Slots, Shape, Owners, Counters, Flags, Clean, Span, Lo, TasksOk, Path, Value;
    var t := m.tasks[k];
    AliveFacts(j, before, m, g, k);
    UnbalancedIff(j, before, m, g, k, t.n);
    KeepClaim(j, before, m, g, k, Take(t.n, t.i, t.d, Hashing(j, t.n)));
  }

  /** The slots of a node under combination hold its children's values. */
  lemma CombinedSlots(j: Job, before: Tree, m: Machine, g: Hist, k: nat, n: Pos)
    requires Inv(j, before, m, g) && Alive(m, k) && Claim(m.tasks[k]) == n && Used(j, n)
    requires n in m.tree && (n.h <= 1 ==> LeafRun(j, n, true) && m.tree[n].left == Pair(j, j.last))
    ensures m.tree[n].left == LeftOf(j, n)
    ensures m.tree[n].right == RightOf(j, n)
  {
    hide Owners, Counters, Flags, Clean, Span, Lo, TasksOk, TaskOk, Slots, Shape, Path, Value, Pair;
    AliveFacts(j, before, m, g, k);
    UnbalancedIff(j, before, m, g, k, n);
    if n.h >= 2 {
      LiveBelow(j, g.owner.Keys, g.gone, |m.tasks|, IsWaiting(m), n);
      JoinSlots(j, m.tree, g.gone, n);
    }
  }

  lemma StepTake(j: Job, before: Tree, m: Machine, g: Hist, k: nat)
    requires Inv(j, before, m, g) && Alive(m, k) && m.tasks[k].Take?
    ensures Inv(j, before, StepTask(j, m, k), TaskHist(j, m, g, k))
  {
    hide Slots, Shape, Owners, Counters, Flags, Clean, Span, Lo, TasksOk, Path, Value;
    var t := m.tasks[k];
    AliveFacts(j, before, m, g, k);
    CombinedSlots(j, before, m, g, k, t.n);
    KeepClaim(j, before, m, g, k, Cat(t.n, t.i, t.d, t.hashes, m.tree[t.n].left));
  }

  /** Hashing or joining what the slots hold gives the node's own value. */
  lemma CombinedValue(j: Job, n: Pos)
    requires Fits(j) && Used(j, n) && (n.h <= 1 ==> LeafRun(j, n, true))
    ensures Value(j, n.h, n.i) ==
            if Hashing(j, n) then j.hash(LeftOf(j, n) + RightOf(j, n)) else LeftOf(j, n) + RightOf(j, n)
  {
    assert LeftOf(j, n) + [] == LeftOf(j, n);
    TopOfOne(j);
  }

  lemma StepCat(j: Job, before: Tree, m: Machine, g: Hist, k: nat)
    requires Inv(j, before, m, g) && Alive(m, k) && m.tasks[k].Cat?
    ensures Inv(j, before, StepTask(j, m, k), TaskHist(j, m, g, k))
  {
    hide Slots, Shape, Owners, Counters, Flags, Clean, Span, Lo, TasksOk, Path, Value;
    var t := m.tasks[k];
    AliveFacts(j, before, m, g, k);
    CombinedSlots(j, before, m, g, k, t.n);
    CombinedValue(j, t.n);
    KeepClaim(j, before, m, g, k, Send(t.n, t.i + 1, t.d, Value(j, t.n.h, t.n.i)));
  }

  // ---------------------------------------------------------------- arriving at a node

  /** Handing over the value of `c` changes what is below its parent only. */
  lemma HandBelow(j: Job, gone: set<Pos>, c: Pos, p: Pos)
    requires p != Up(c)
    ensures BelowGone(j, p, gone + {c}) <==> BelowGone(j, p, gone)
  {
    if p.h >= 2 { UpChild(p); }
  }

  lemma HandParent(j: Job, live: set<Pos>, gone: set<Pos>, launched: nat, waiting: bool, c: Pos, n: Pos)
    requires Fits(j) && Shape(j, live, gone, launched, waiting)
    requires c in live && n == Up(c) && Used(j, n)
    ensures n !in live && n !in gone
    ensures BelowGone(j, n, gone + {c}) && OnPath(j, n) ==> waiting
  {
    UpChild(c);
    assert !BelowGone(j, n, gone);
    if BelowGone(j, n, gone + {c}) && OnPath(j, n) {
      UpChild(n);
      PathUp(j, Child(n, true));
      PathUp(j, Child(n, false));
    }
  }

  /** The value of `c` is handed to its parent `n`; the last of n's children wakes `n`. */
  lemma HandShape(j: Job, live: set<Pos>, gone: set<Pos>, launched: nat, waiting: bool, c: Pos, n: Pos)
    requires Fits(j) && Shape(j, live, gone, launched, waiting)
    requires c in live && n == Up(c) && Used(j, n)
    ensures n !in live && n !in gone
    ensures Shape(j, live - {c} + (if BelowGone(j, n, gone + {c}) then {n} else {}), gone + {c}, launched, waiting)
  {
    hide BelowGone, Path, Fits, TwoSided;
    HandParent(j, live, gone, launched, waiting, c, n);
    forall p | p != n ensures BelowGone(j, p, gone + {c}) <==> BelowGone(j, p, gone) {
      HandBelow(j, gone, c, p);
    }
  }

  lemma HandSlots(j: Job, tree: Tree, tree': Tree, gone: set<Pos>, c: Pos)
    requires Slots(j, tree, gone) && tree'.Keys == tree.Keys
    requires forall p :: p in tree ==> tree'[p].left == tree[p].left && tree'[p].right == tree[p].right
    requires Used(j, c) && Up(c) in tree && Slot(tree[Up(c)], IsLeft(c)) == Value(j, c.h, c.i)
    ensures Slots(j, tree', gone + {c})
  {}

  lemma HandCounters(j: Job, before: Tree, tree: Tree, gone: set<Pos>, c: Pos, n: Pos)
    requires Counters(j, before, tree, gone) && n == Up(c) && n in tree && c !in gone && TwoSided(j, n)
    ensures Counters(j, before, tree[n := tree[n].(state := AddOne(tree[n].state))], gone + {c})
  {
    UpChild(c);
    UpChild(n);
    forall p | p in tree && p != n ensures Arrived(j, gone + {c}, p) == Arrived(j, gone, p) {
      if p.h >= 2 { UpChild(p); }
    }
  }

  lemma OneSidedCounters(j: Job, before: Tree, tree: Tree, gone: set<Pos>, c: Pos)
    requires Counters(j, before, tree, gone) && !TwoSided(j, Up(c))
    ensures Counters(j, before, tree, gone + {c})
  {
    forall p | p in tree ensures Arrived(j, gone + {c}, p) == Arrived(j, gone, p) {
      if p.h >= 2 { UpChild(p); }
    }
  }

  /** The toggle tells first from second arrival. */
  lemma FirstIff(j: Job, before: Tree, tree: Tree, gone: set<Pos>, c: Pos, n: Pos)
    requires Counters(j, before, tree, gone) && n == Up(c) && n in tree && c !in gone && TwoSided(j, n)
    requires before[n].state % 2 == 0 && 0 <= before[n].state < INT32_MAX
    ensures ArrivesFirst(tree[n].state) <==> !BelowGone(j, n, gone + {c})
  {
    UpChild(c);
    TogglePairsIff(before[n].state);
  }

  lemma HandOwners(tasks: seq<Task>, owner: map<Pos, nat>, k: nat, t: Task)
    requires Owners(tasks, owner) && k < |tasks| && !tasks[k].Done?
    requires !t.Done? && Claim(t) !in owner
    ensures Owners(tasks[k := t], (owner - {Claim(tasks[k])})[Claim(t) := k])
  {}

  lemma HandTasks(j: Job, tree: Tree, tree': Tree, tasks: seq<Task>, k: nat, t: Task)
    requires TasksOk(j, tree, tasks) && k < |tasks| && tree'.Keys == tree.Keys
    requires forall p :: p in tree ==> tree'[p].left == tree[p].left && tree'[p].right == tree[p].right
    requires TaskOk(j, tree', t)
    ensures TasksOk(j, tree', tasks[k := t])
  {
    var tasks' := tasks[k := t];
    forall l | 0 <= l < |tasks'| ensures TaskOk(j, tree', tasks'[l]) {
      assert TaskOk(j, tree, tasks[l]);
    }
  }

  lemma StateFlags(j: Job, tree: Tree, caller: Caller, n: Pos, state: int)
    requires Flags(j, tree, caller) && n in tree
    ensures Flags(j, tree[n := tree[n].(state := state)], caller)
  {}

  /** At a leaf, or where both children come, reading the flag hands nothing over. */
  lemma StepLookOn(j: Job, before: Tree, m: Machine, g: Hist, k: nat)
    requires Inv(j, before, m, g) && Alive(m, k) && m.tasks[k].Look?
    requires m.tasks[k].n.h <= 1 || TwoSided(j, m.tasks[k].n)
    ensures Inv(j, before, StepTask(j, m, k), TaskHist(j, m, g, k))
  {
    hide Slots, Shape, Owners, Counters, Flags, Clean, Span, Lo, TasksOk, Value;
    var t := m.tasks[k];
    AliveFacts(j, before, m, g, k);
    PutNode(j, t);
    UnbalancedIff(j, before, m, g, k, t.n);
    KeepClaim(j, before, m, g, k, if m.tree[t.n].unbalanced then Join(t.n, t.i, t.left, t.d) else Tog(t.n, t.i, t.left, t.d));
  }

  /** The goroutine at child `c` of `n` hands its value over and ends, or goes on with `n`. */
  lemma HandOver(j: Job, before: Tree, m: Machine, g: Hist, k: nat, n: Pos, tree': Tree, t': Task)
    requires Inv(j, before, m, g) && Alive(m, k) && Used(j, n) && n in m.tree && n == Up(Claim(m.tasks[k]))
    requires Slot(m.tree[n], IsLeft(Claim(m.tasks[k]))) == Value(j, Claim(m.tasks[k]).h, Claim(m.tasks[k]).i)
    requires tree'.Keys == m.tree.Keys
    requires forall p :: p in m.tree ==> tree'[p].left == m.tree[p].left && tree'[p].right == m.tree[p].right
    requires if BelowGone(j, n, g.gone + {Claim(m.tasks[k])}) then !t'.Done? && Claim(t') == n else t'.Done?
    requires TaskOk(j, tree', t')
    ensures var g' := Handed(g, k, m.tasks[k], t');
            && Owners(m.tasks[k := t'], g'.owner) && Shape(j, g'.owner.Keys, g'.gone, |m.tasks|, IsWaiting(m))
            && Slots(j, tree', g'.gone) && TasksOk(j, tree', m.tasks[k := t'])
  {
    hide Slots, Shape, Owners, Counters, Flags, Clean, Span, Lo, TasksOk, TaskOk, Value, Path, BelowGone;
    var c := Claim(m.tasks[k]);
    AliveFacts(j, before, m, g, k);
    HandShape(j, g.owner.Keys, g.gone, |m.tasks|, IsWaiting(m), c, n);
    HandSlots(j, m.tree, tree', g.gone, c);
    HandTasks(j, m.tree, tree', m.tasks, k, t');
    if t'.Done? {
      DoneOwners(m.tasks, g.owner, k);
      assert (g.owner - {c}).Keys == g.owner.Keys - {c} + {};
    } else {
      HandOwners(m.tasks, g.owner, k, t');
      assert (g.owner - {c})[n := k].Keys == g.owner.Keys - {c} + {n};
    }
  }

  /** Where only the left child comes, its goroutine goes on with the parent. */
  lemma StepLookOne(j: Job, before: Tree, m: Machine, g: Hist, k: nat)
    requires Inv(j, before, m, g) && Alive(m, k) && m.tasks[k].Look? && m.tasks[k].n.h >= 2
    requires !TwoSided(j, m.tasks[k].n)
    ensures Inv(j, before, StepTask(j, m, k), TaskHist(j, m, g, k))
  {
    hide Slots, Shape, Owners, Counters, Flags, Clean, Span, Lo, TasksOk, Value, Path;
    var t, c := m.tasks[k], Claim(m.tasks[k]);
    AliveFacts(j, before, m, g, k);
    PutNode(j, t);
    UnbalancedIff(j, before, m, g, k, t.n);
    HandOver(j, before, m, g, k, t.n, m.tree, Join(t.n, t.i, t.left, t.d));
    OneSidedCounters(j, before, m.tree, g.gone, c);
  }

  lemma StepTog(j: Job, before: Tree, m: Machine, g: Hist, k: nat)
    requires Inv(j, before, m, g) && Alive(m, k) && m.tasks[k].Tog?
    ensures Inv(j, before, StepTask(j, m, k), TaskHist(j, m, g, k))
  {
    hide Slots, Shape, Owners, Counters, Flags, Clean, Span, Lo, TasksOk, Value, Path, ArrivesFirst, AddOne, BelowGone;
    var t, c := m.tasks[k], Claim(m.tasks[k]);
    var n := t.n;
    AliveFacts(j, before, m, g, k);
    PutNode(j, t);
    NodeInTree(j, before, m, g, n);
    var tree' := m.tree[n := m.tree[n].(state := AddOne(m.tree[n].state))];
    FirstIff(j, before, m.tree, g.gone, c, n);
    HandOver(j, before, m, g, k, n, tree', if ArrivesFirst(m.tree[n].state) then Done else Join(n, t.i, t.left, t.d));
    HandCounters(j, before, m.tree, g.gone, c, n);
    StateFlags(j, m.tree, m.caller, n, AddOne(m.tree[n].state));
  }
}
