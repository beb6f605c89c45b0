/** The concurrent hasher of chain/bmt/bmt.go as a state machine: the calling goroutine that
    cuts the chunk, marks the last path and waits, and one goroutine per data node that climbs
    the tree.  A schedule is any sequence of their steps; each step reads or writes at most one field
    of one node (plus local work), except that releaseTree, which runs when all others have ended, is
    one step. */
module BmtMachine {
  import opened BmtReference
  import opened BmtShape

  // ---------------------------------------------------------------- the reusable tree

  /** A node by height above the segments (data nodes: 1) and index on its level. */
  datatype Pos = Pos(h: nat, i: nat)

  function Up(p: Pos): Pos { Pos(p.h + 1, p.i / 2) }

  predicate IsLeft(p: Pos) { p.i % 2 == 0 }

  function Child(p: Pos, left: bool): Pos
    requires p.h >= 1
  {
    Pos(p.h - 1, 2 * p.i + if left then 0 else 1)
  }

  datatype Node = Node(left: Bytes, right: Bytes, state: int, unbalanced: bool, root: bool)

  type Tree = map<Pos, Node>

  const INT32_MAX: int := 0x7fff_ffff

  /** `atomic.AddInt32(&state, 1)`, which wraps. */
  function AddOne(state: int): int {
    if state == INT32_MAX then -INT32_MAX - 1 else state + 1
  }

  /** Go's `x % 2`, which takes the sign of `x`. */
  function GoRem2(x: int): int {
    if x >= 0 || x % 2 == 0 then x % 2 else -1
  }

  /** `toggle`: does the caller arrive first? */
  predicate ArrivesFirst(state: int) { GoRem2(AddOne(state)) == 1 }

  /** On an even counter, two toggles answer "first" then "second" exactly while the counter is
      not negative: a node stops pairing its arrivals once it has been toggled 2^31 times. */
  lemma TogglePairsIff(state: int)
    requires -INT32_MAX - 1 <= state <= INT32_MAX && state % 2 == 0
    ensures ArrivesFirst(state) && !ArrivesFirst(AddOne(state)) <==> state >= 0
  {
    if state >= 0 {
      assert (state + 1) % 2 == 1;
    } else {
      assert AddOne(state) == state + 1 < 0;
    }
  }

  predicate InTree(depth: nat, p: Pos) {
    1 <= p.h <= depth + 1 && p.i < Span(1, depth + 1 - p.h)
  }

  /** A tree as taken from the pool: all nodes present, nobody waiting, only the top a root.
      What the slots hold is left over from earlier chunks and arbitrary. */
  ghost predicate Clean(tree: Tree, depth: nat) {
    && (forall p :: p in tree <==> InTree(depth, p))
    && forall p :: p in tree ==>
         && tree[p].state % 2 == 0 && 0 <= tree[p].state < INT32_MAX
         && !tree[p].unbalanced
         && (tree[p].root <==> p.h == depth + 1)
  }

  // ---------------------------------------------------------------- the goroutines

  datatype Task =
    | Start(k: nat, seg: Bytes, d: nat)                          // go func in writeSegment
    | Put(n: Pos, i: nat, left: bool, d: nat, s: Bytes)          // run: about to fill a slot of n
    | Look(n: Pos, i: nat, left: bool, d: nat)                   // run: about to read n's flag
    | Tog(n: Pos, i: nat, left: bool, d: nat)                    // run: about to toggle n
    | Join(n: Pos, i: nat, left: bool, d: nat)                   // run: about to read n's flag again
    | Take(n: Pos, i: nat, d: nat, hashes: bool)                 // run: about to read n's left slot
    | Cat(n: Pos, i: nat, d: nat, hashes: bool, l: Bytes)        // run: about to read the right one and combine
    | Send(n: Pos, i: nat, d: nat, s: Bytes)                     // run: about to read whether n is a root
    | Done

  datatype Caller =
    | Launching(k: nat)                                          // Write: pairs 0..k-1 handed out
    | Finalising(n: Pos, left: bool, d: nat)                     // Sum: about to set the flag of n
    | Blanking(n: Pos, left: bool, d: nat)                       // Sum: about to clear n's right slot
    | Rooting(n: Pos, left: bool, d: nat)                        // Sum: about to make n a root, or to climb
    | Waiting                                                    // Sum: receiving the result
    | Released                                                   // Sum: after releaseTree

  datatype Machine = Machine(tree: Tree, tasks: seq<Task>, caller: Caller, result: seq<Bytes>)

  datatype Act = CallerStep | TaskStep(k: nat)

  ghost function Init(tree: Tree): Machine {
    Machine(tree, [], Launching(0), [])
  }

  /** Does Sum start marking above the last data node? */
  ghost predicate SkipsLeaf(j: Job) {
    |Pair(j, j.last)| > j.size && j.last > 0 && j.depth >= 1
  }

  ghost function SetFlag(tree: Tree, n: Pos, left: bool): Tree
    requires n in tree
  {
    tree[n := tree[n].(unbalanced := left)]
  }

  ghost function BlankRight(tree: Tree, n: Pos): Tree
    requires n in tree
  {
    tree[n := tree[n].(right := [])]
  }

  ghost function MakeRoot(tree: Tree, n: Pos): Tree
    requires n in tree
  {
    tree[n := tree[n].(root := true)]
  }

  ghost function Released1(j: Job, p: Pos, x: Node): Node {
    if p.h >= 1 && p.i == Path(j.last, p.h) then x.(unbalanced := false, root := x.root && p.h == j.depth + 1) else x
  }

  /** releaseTree: clears the flags from data node `last` to the top. */
  ghost function Release(j: Job, tree: Tree): Tree {
    map p | p in tree :: Released1(j, p, tree[p])
  }

  ghost function StepCaller(j: Job, m: Machine): Machine {
    match m.caller
    case Launching(k) =>
      if k < j.last then
        m.(tasks := m.tasks + [Start(k, Pair(j, k), j.depth)], caller := Launching(k + 1))
      else if SkipsLeaf(j) then
        m.(caller := Finalising(Up(Pos(1, j.last)), j.last % 2 == 0, 0))
      else
        m.(caller := Finalising(Pos(1, j.last), true, 0))
    case Finalising(n, left, d) =>
      if n !in m.tree then m else m.(tree := SetFlag(m.tree, n, left), caller := Blanking(n, left, d))
    case Blanking(n, left, d) =>
      if n !in m.tree then m else m.(tree := BlankRight(m.tree, n), caller := Rooting(n, left, d))
    case Rooting(n, left, d) =>
      if n !in m.tree then m
      else if n.i == 0 then
        m.(tree := MakeRoot(m.tree, n), tasks := m.tasks + [Start(j.last, Pair(j, j.last), d)], caller := Waiting)
      else
        m.(caller := Finalising(Up(n), IsLeft(n), d + 1))
    case Waiting =>
      if |m.result| == 0 then m else m.(tree := Release(j, m.tree), caller := Released)
    case Released => m
  }

  /** Passing value `s` of node `n` up: to the result channel at a root, else into the parent. */
  ghost function Ascend(m: Machine, k: nat, n: Pos, i: nat, d: nat, s: Bytes): Machine
    requires k < |m.tasks| && n in m.tree
  {
    if m.tree[n].root then m.(tasks := m.tasks[k := Done], result := m.result + [s])
    else m.(tasks := m.tasks[k := Put(Up(n), i, IsLeft(n), d, s)])
  }

  /** One step of goroutine `k`; a nil node (absent from the tree) would stop it. */
  ghost function StepTask(j: Job, m: Machine, k: nat): Machine
    requires k < |m.tasks|
  {
    match m.tasks[k]
    case Start(leaf, seg, d) =>
      if |seg| > j.size && j.depth >= 1 then m.(tasks := m.tasks[k := Send(Pos(1, leaf), leaf, d, j.hash(seg))])
      else m.(tasks := m.tasks[k := Put(Pos(1, leaf), 2 * leaf, true, d, seg)])
    case Put(n, i, left, d, s) =>
      if n !in m.tree then m
      else m.(tree := m.tree[n := if left then m.tree[n].(left := s) else m.tree[n].(right := s)],
              tasks := m.tasks[k := Look(n, i, left, d)])
    case Look(n, i, left, d) =>
      if n !in m.tree then m
      else m.(tasks := m.tasks[k := if m.tree[n].unbalanced then Join(n, i, left, d) else Tog(n, i, left, d)])
    case Tog(n, i, left, d) =>
      if n !in m.tree then m
      else
        m.(tree := m.tree[n := m.tree[n].(state := AddOne(m.tree[n].state))],
           tasks := m.tasks[k := if ArrivesFirst(m.tree[n].state) then Done else Join(n, i, left, d)])
    case Join(n, i, left, d) =>
      if n !in m.tree then m
      else m.(tasks := m.tasks[k := Take(n, i, d, !m.tree[n].unbalanced || !left || (i == 0 && d == 0))])
    case Take(n, i, d, hashes) =>
      if n !in m.tree then m else m.(tasks := m.tasks[k := Cat(n, i, d, hashes, m.tree[n].left)])
    case Cat(n, i, d, hashes, l) =>
      if n !in m.tree then m
      else m.(tasks := m.tasks[k := Send(n, i + 1, d, if hashes then j.hash(l + m.tree[n].right) else l + m.tree[n].right)])
    case Send(n, i, d, s) =>
      if n !in m.tree then m else Ascend(m, k, n, i, d, s)
    case Done => m
  }

  /** Where its next step takes goroutine `k`. */
  ghost function NextTask(j: Job, m: Machine, k: nat): Task
    requires k < |m.tasks|
  {
    StepTask(j, m, k).tasks[k]
  }

  ghost function Step(j: Job, m: Machine, a: Act): Machine {
    match a
    case CallerStep => StepCaller(j, m)
    case TaskStep(k) => if k < |m.tasks| then StepTask(j, m, k) else m
  }

  ghost function Run(j: Job, m: Machine, acts: seq<Act>): Machine
    decreases |acts|
  {
    if acts == [] then m else Run(j, Step(j, m, acts[0]), acts[1..])
  }
}
