/** Safety of the concurrent hasher over every schedule: the inductive invariant. */
module BmtProof {
  import opened BmtReference
  import opened BmtShape
  import opened BmtMachine

  /** History of a run: which goroutine carries the value of which node, and which node values
      have been handed to their parents. */
  datatype Hist = Hist(owner: map<Pos, nat>, gone: set<Pos>)

  ghost function Top(j: Job): nat { Summit(j.last) }

  ghost predicate Used(j: Job, p: Pos) {
    j.size >= 1 && 1 <= p.h <= Top(j) && p.i <= Path(j.last, p.h)
  }

  ghost predicate OnPath(j: Job, p: Pos) { p.h >= 1 && p.i == Path(j.last, p.h) }

  ghost predicate TwoSided(j: Job, p: Pos) {
    j.size >= 1 && p.h >= 2 && HasRight(j, p.h, p.i)
  }

  /** The node whose value a goroutine carries or is about to compute. */
  function Claim(t: Task): Pos
    requires !t.Done?
  {
    match t
    case Start(k, _, _) => Pos(1, k)
    case Put(n, _, left, _, _) => if n.h <= 1 then n else Child(n, left)
    case Look(n, _, left, _) => if n.h <= 1 then n else Child(n, left)
    case Tog(n, _, left, _) => if n.h <= 1 then n else Child(n, left)
    case Join(n, _, _, _) => n
    case Take(n, _, _, _) => n
    case Cat(n, _, _, _, _) => n
    case Send(n, _, _, _) => n
  }

  function Slot(x: Node, left: bool): Bytes { if left then x.left else x.right }

  lemma UpChild(p: Pos)
    ensures Child(Up(p), IsLeft(p)) == p
    ensures forall left :: p.h >= 1 ==> Up(Child(p, left)) == p && IsLeft(Child(p, left)) == left
  {}

  lemma PathUp(j: Job, p: Pos)
    requires j.size >= 1 && p.h >= 1
    ensures OnPath(j, p) ==> OnPath(j, Up(p))
    ensures p.i <= Path(j.last, p.h) ==> Up(p).i <= Path(j.last, Up(p).h)
    ensures OnPath(j, Up(p)) && p.i <= Path(j.last, p.h) ==> (OnPath(j, p) <==> (!IsLeft(p) || !TwoSided(j, Up(p))))
  {}

  lemma UsedInTree(j: Job, p: Pos)
    requires Fits(j) && Used(j, p)
    ensures InTree(j.depth, p)
    ensures Top(j) <= j.depth + 1
  {
    SummitFits(j.last, j.depth);
    PathFits(j.last, j.depth, p.h);
  }

  // ---------------------------------------------------------------- the invariant, in parts

  ghost predicate Owners(tasks: seq<Task>, owner: map<Pos, nat>) {
    && (forall p :: p in owner ==> owner[p] < |tasks| && !tasks[owner[p]].Done? && Claim(tasks[owner[p]]) == p)
    && (forall k :: 0 <= k < |tasks| && !tasks[k].Done? ==>
          Claim(tasks[k]) in owner && owner[Claim(tasks[k])] == k)
  }

  ghost predicate BelowGone(j: Job, p: Pos, gone: set<Pos>) {
    p.h >= 2 && Child(p, true) in gone && (TwoSided(j, p) ==> Child(p, false) in gone)
  }

  /** Which nodes may be carried (`live`) or handed over (`gone`). */
  ghost predicate Shape(j: Job, live: set<Pos>, gone: set<Pos>, launched: nat, waiting: bool) {
    && live !! gone
    && (forall p :: p in live || p in gone ==>
          Used(j, p) && (p.h == 1 ==> p.i < launched) && (OnPath(j, p) ==> waiting))
    && (forall k: nat :: k < launched ==> Pos(1, k) in live || Pos(1, k) in gone)
    && (forall p {:trigger BelowGone(j, p, gone)} :: Used(j, p) && p.h >= 2 ==>
          (p in live || p in gone <==> BelowGone(j, p, gone)))
  }

  ghost predicate Slots(j: Job, tree: Tree, gone: set<Pos>) {
    forall p :: p in gone && Used(j, p) && p.h < Top(j) ==>
      Up(p) in tree && Slot(tree[Up(p)], IsLeft(p)) == Value(j, p.h, p.i)
  }

  ghost function Arrived(j: Job, gone: set<Pos>, p: Pos): nat {
    if TwoSided(j, p) then
      (if Child(p, true) in gone then 1 else 0) + (if Child(p, false) in gone then 1 else 0)
    else 0
  }

  ghost predicate Counters(j: Job, before: Tree, tree: Tree, gone: set<Pos>) {
    && tree.Keys == before.Keys
    && forall p :: p in tree ==> tree[p].state == AddOneTimes(before[p].state, Arrived(j, gone, p))
  }

  function AddOneTimes(state: int, n: nat): int {
    if n == 0 then state else if n == 1 then AddOne(state) else AddOne(AddOne(state))
  }

  /** First height above the nodes whose flag finalise has set so far. */
  ghost function Marked(j: Job, caller: Caller): nat {
    match caller
    case Launching(_) => 0
    case Finalising(n, _, _) => n.h
    case Blanking(n, _, _) => n.h + 1
    case Rooting(n, _, _) => n.h + 1
    case Waiting => Top(j) + 1
    case Released => 0
  }

  /** First height above the nodes whose right slot finalise has cleared so far. */
  ghost function Blanked(j: Job, caller: Caller): nat {
    if caller.Blanking? then caller.n.h else Marked(j, caller)
  }

  ghost function FirstMark(j: Job): nat { if SkipsLeaf(j) then 2 else 1 }

  ghost predicate Flags(j: Job, tree: Tree, caller: Caller) {
    && (forall p :: p in tree ==>
          && (tree[p].unbalanced <==> OnPath(j, p) && FirstMark(j) <= p.h < Marked(j, caller) && !TwoSided(j, p))
          && (tree[p].root <==> p.h == j.depth + 1 || (caller.Waiting? && p == Pos(Top(j), 0))))
    && (forall p :: p in tree && OnPath(j, p) && FirstMark(j) <= p.h < Blanked(j, caller) && !TwoSided(j, p) ==>
          tree[p].right == [])
  }

  ghost predicate MarkingOk(j: Job, m: Machine, n: Pos, left: bool, d: nat) {
    && |m.tasks| == j.last && OnPath(j, n) && FirstMark(j) <= n.h <= Top(j)
    && left == !TwoSided(j, n) && (j.last == 0 ==> d == 0)
  }

  ghost predicate CallerOk(j: Job, m: Machine) {
    match m.caller
    case Launching(k) => k <= j.last && |m.tasks| == k
    case Finalising(n, left, d) => MarkingOk(j, m, n, left, d)
    case Blanking(n, left, d) => MarkingOk(j, m, n, left, d)
    case Rooting(n, left, d) => MarkingOk(j, m, n, left, d)
    case Waiting => |m.tasks| == j.last + 1
    case Released => |m.tasks| == j.last + 1 && |m.result| > 0
  }

  /** Only the single-node tree takes the `i == 0 && d == 0` exit. */
  ghost predicate IndexOk(j: Job, i: nat, d: nat) {
    j.last == 0 <==> i == 0 && d == 0
  }

  ghost predicate LeafRun(j: Job, n: Pos, left: bool) {
    n == Pos(1, j.last) && left && !SkipsLeaf(j) && (j.last > 0 ==> |Pair(j, j.last)| <= j.size)
  }

  /** A goroutine that combines node `n`, and whether it hashes there. */
  ghost predicate Combining(j: Job, tree: Tree, n: Pos, i: nat, d: nat) {
    && IndexOk(j, i, d) && n in tree
    && (n.h <= 1 ==> LeafRun(j, n, true) && tree[n].left == Pair(j, j.last))
  }

  ghost predicate Hashing(j: Job, n: Pos) { TwoSided(j, n) || j.last == 0 }

  /** What the left slot of a node holds when the node is combined. */
  ghost function LeftOf(j: Job, n: Pos): Bytes
    requires Used(j, n)
  {
    if n.h <= 1 then Pair(j, j.last) else Value(j, n.h - 1, 2 * n.i)
  }

  ghost function RightOf(j: Job, n: Pos): Bytes {
    if TwoSided(j, n) then Value(j, n.h - 1, 2 * n.i + 1) else []
  }

  ghost predicate TaskOk(j: Job, tree: Tree, t: Task) {
    !t.Done? ==>
      var c := Claim(t);
      && Used(j, c)
      && match t
         case Start(k, seg, d) =>
           && seg == Pair(j, k)
           && (k < j.last ==> d >= 1) && (j.last == 0 ==> d == 0)
         case Put(n, i, left, d, s) =>
           && IndexOk(j, i, d)
           && (if n.h <= 1 then LeafRun(j, n, left) && s == Pair(j, j.last)
               else Used(j, n) && s == Value(j, c.h, c.i))
         case Look(n, i, left, d) =>
           && IndexOk(j, i, d) && n in tree
           && (if n.h <= 1 then LeafRun(j, n, left) && tree[n].left == Pair(j, j.last)
               else Used(j, n) && Slot(tree[n], left) == Value(j, c.h, c.i))
         case Tog(n, i, left, d) =>
           && IndexOk(j, i, d) && n in tree && n.h >= 2 && Used(j, n) && TwoSided(j, n) && Slot(tree[n], left) == Value(j, c.h, c.i)
         case Join(n, i, left, d) => Combining(j, tree, n, i, d) && (!TwoSided(j, n) ==> left)
         case Take(n, i, d, hashes) => Combining(j, tree, n, i, d) && hashes == Hashing(j, n)
         case Cat(n, i, d, hashes, l) => Combining(j, tree, n, i, d) && hashes == Hashing(j, n) && l == LeftOf(j, n)
         case Send(n, i, d, s) => s == Value(j, n.h, n.i) && (j.last > 0 ==> i > 0 || d > 0)
         case Done => true
  }

  ghost predicate TasksOk(j: Job, tree: Tree, tasks: seq<Task>) {
    forall k :: 0 <= k < |tasks| ==> TaskOk(j, tree, tasks[k])
  }

  ghost predicate ResultOk(j: Job, gone: set<Pos>, result: seq<Bytes>) {
    && j.size >= 1 && Top(j) >= 1
    && result == if Pos(Top(j), 0) in gone then [Value(j, Top(j), 0)] else []
  }

  ghost predicate IsWaiting(m: Machine) { m.caller.Waiting? || m.caller.Released? }

  ghost predicate Inv(j: Job, before: Tree, m: Machine, g: Hist) {
    && Fits(j) && Clean(before, j.depth)
    && CallerOk(j, m)
    && Owners(m.tasks, g.owner)
    && Shape(j, g.owner.Keys, g.gone, |m.tasks|, IsWaiting(m))
    && Slots(j, m.tree, g.gone)
    && Counters(j, before, m.tree, g.gone)
    && Flags(j, m.tree, m.caller)
    && TasksOk(j, m.tree, m.tasks)
    && ResultOk(j, g.gone, m.result)
  }

  /** The history after goroutine `k` has moved from `t` to `t'`: it keeps its node, or hands the
      node's value over and takes up another node or ends. */
  ghost function Handed(g: Hist, k: nat, t: Task, t': Task): Hist {
    if t.Done? then g
    else if t'.Done? then Hist(g.owner - {Claim(t)}, g.gone + {Claim(t)})
    else if Claim(t') != Claim(t) then Hist((g.owner - {Claim(t)})[Claim(t') := k], g.gone + {Claim(t)})
    else g
  }

  ghost function Launched(g: Hist, k: nat): Hist { g.(owner := g.owner[Pos(1, k) := k]) }

  ghost function CallerHist(j: Job, m: Machine, g: Hist): Hist {
    if |StepCaller(j, m).tasks| > |m.tasks| then Launched(g, |m.tasks|) else g
  }

  ghost function TaskHist(j: Job, m: Machine, g: Hist, k: nat): Hist
    requires k < |m.tasks|
  {
    Handed(g, k, m.tasks[k], NextTask(j, m, k))
  }

  ghost function StepHist(j: Job, m: Machine, g: Hist, a: Act): Hist {
    match a
    case CallerStep => CallerHist(j, m, g)
    case TaskStep(k) => if k < |m.tasks| then TaskHist(j, m, g, k) else g
  }

  ghost function RunHist(j: Job, m: Machine, g: Hist, acts: seq<Act>): Hist
    decreases |acts|
  {
    if acts == [] then g else RunHist(j, Step(j, m, acts[0]), StepHist(j, m, g, acts[0]), acts[1..])
  }

  const START: Hist := Hist(map[], {})

  lemma InitInv(j: Job, tree: Tree)
    requires Fits(j) && Clean(tree, j.depth)
    ensures Inv(j, tree, Init(tree), START)
  {
    forall p | Used(j, p) && p.h >= 2 ensures !BelowGone(j, p, {}) {}
  }
}
