/** weightedRandomSelect (chain/les/randselect.go): an eight-way tree of item weights that answers weighted
    draws.  The tree is compared with the flat list of its slots. */
module WeightedSelect {
  import opened Options

  const BRANCHES := 8

  function Pow8(k: nat): (r: nat)
    ensures r > 0
  {
    if k == 0 then 1 else BRANCHES * Pow8(k - 1)
  }

  datatype Child<T> = Nil | Item(item: T) | Sub(node: Node<T>)

  datatype Node<T> = Node(level: nat, items: seq<Child<T>>, weights: seq<nat>, sum: nat, count: nat, max: nat)

  /** A slot of the flat list. */
  datatype Entry<T> = Empty | Held(item: T, weight: nat)

  // ---------------------------------------------------------------- sums

  function SumOf(ws: seq<nat>): nat { if |ws| == 0 then 0 else SumOf(ws[..|ws| - 1]) + ws[|ws| - 1] }

  function CountOf<T>(items: seq<Child<T>>): nat {
    if |items| == 0 then 0 else CountOf(items[..|items| - 1]) + ChildCount(items[|items| - 1])
  }

  function ChildCount<T>(c: Child<T>): nat {
    match c
    case Nil => 0
    case Item(_) => 1
    case Sub(m) => m.count
  }

  function EntryWeight<T>(e: Entry<T>): nat { if e.Held? then e.weight else 0 }

  function WeightOf<T>(s: seq<Entry<T>>): nat { if |s| == 0 then 0 else WeightOf(s[..|s| - 1]) + EntryWeight(s[|s| - 1]) }

  function HeldIn<T>(s: seq<Entry<T>>): nat { if |s| == 0 then 0 else HeldIn(s[..|s| - 1]) + (if s[|s| - 1].Held? then 1 else 0) }

  lemma {:induction false} WeightSplit<T>(s: seq<Entry<T>>, t: seq<Entry<T>>)
    ensures WeightOf(s + t) == WeightOf(s) + WeightOf(t) && HeldIn(s + t) == HeldIn(s) + HeldIn(t)
  {
    if |t| == 0 {
      assert s + t == s;
    } else {
      var u := t[..|t| - 1];
      assert (s + t)[..|s + t| - 1] == s + u;
      WeightSplit(s, u);
    }
  }

  lemma {:induction false} SumAt(ws: seq<nat>, i: nat, w: nat)
    requires i < |ws|
    ensures SumOf(ws[i := w]) == SumOf(ws) - ws[i] + w
  {
    var k := |ws| - 1;
    if i < k {
      assert ws[i := w][..k] == ws[..k][i := w];
      SumAt(ws[..k], i, w);
    } else {
      assert ws[i := w][..k] == ws[..k];
    }
  }

  lemma {:induction false} CountAt<T>(items: seq<Child<T>>, i: nat, c: Child<T>)
    requires i < |items|
    ensures CountOf(items[i := c]) == CountOf(items) - ChildCount(items[i]) + ChildCount(c)
  {
    var k := |items| - 1;
    if i < k {
      assert items[i := c][..k] == items[..k][i := c];
      CountAt(items[..k], i, c);
    } else {
      assert items[i := c][..k] == items[..k];
    }
  }

  // ---------------------------------------------------------------- blocks of equal length

  function Cat<T>(cs: seq<seq<T>>): seq<T> { if |cs| == 0 then [] else Cat(cs[..|cs| - 1]) + cs[|cs| - 1] }

  ghost predicate Blocks<T>(cs: seq<seq<T>>, size: nat) { forall i :: 0 <= i < |cs| ==> |cs[i]| == size }

  lemma MulNext(k: nat, size: nat)
    ensures (k + 1) * size == k * size + size
  {}

  lemma {:induction false} CatLength<T>(cs: seq<seq<T>>, size: nat)
    requires Blocks(cs, size)
    ensures |Cat(cs)| == |cs| * size
  {
    if |cs| > 0 {
      CatLength(cs[..|cs| - 1], size);
      MulNext(|cs| - 1, size);
    }
  }

  /** Position `p` of a list and of the same list with a block behind it. */
  lemma AppendAt<T>(xs: seq<T>, ys: seq<T>, p: nat, x: T)
    requires p < |xs|
    ensures (xs + ys)[p] == xs[p] && (xs + ys)[p := x] == xs[p := x] + ys
  {}

  lemma AppendedAt<T>(xs: seq<T>, ys: seq<T>, r: nat, x: T)
    requires r < |ys|
    ensures (xs + ys)[|xs| + r] == ys[r] && (xs + ys)[|xs| + r := x] == xs + ys[r := x]
  {}

  function Offset(b: nat, size: nat): nat { b * size }

  lemma InBlocks(b: nat, k: nat, size: nat, r: nat)
    requires b < k && r < size
    ensures Offset(b, size) + r < Offset(k, size)
  {
    MulNext(b, size);
    MulMonotone(b + 1, k, size);
  }

  lemma FrontBlocks<T>(cs: seq<seq<T>>, size: nat)
    requires Blocks(cs, size) && |cs| > 0
    ensures Blocks(cs[..|cs| - 1], size) && |cs[|cs| - 1]| == size
    ensures |Cat(cs[..|cs| - 1])| == Offset(|cs| - 1, size) && Cat(cs) == Cat(cs[..|cs| - 1]) + cs[|cs| - 1]
  {
    CatLength(cs[..|cs| - 1], size);
  }

  lemma CatLast<T>(cs: seq<seq<T>>)
    requires |cs| > 0
    ensures Cat(cs) == Cat(cs[..|cs| - 1]) + cs[|cs| - 1]
  {}

  lemma {:induction false} CatAtOffset<T>(cs: seq<seq<T>>, size: nat, b: nat, r: nat, x: T)
    requires Blocks(cs, size) && b < |cs| && r < size
    ensures |cs[b]| == size && Offset(b, size) + r < |Cat(cs)| && Cat(cs)[Offset(b, size) + r] == cs[b][r]
    ensures Cat(cs[b := cs[b][r := x]]) == Cat(cs)[Offset(b, size) + r := x]
  {
    hide Cat, Offset;
    var k := |cs| - 1;
    var front, cs' := cs[..k], cs[b := cs[b][r := x]];
    FrontBlocks(cs, size);
    CatLast(cs');
    if b < k {
      InBlocks(b, k, size, r);
      assert cs'[..k] == front[b := front[b][r := x]] && cs'[k] == cs[k];
      CatAtOffset(front, size, b, r, x);
      AppendAt(Cat(front), cs[k], Offset(b, size) + r, x);
    } else {
      assert cs'[..k] == front;
      AppendedAt(Cat(front), cs[k], r, x);
    }
  }

  /** Position `r` of block `b`. */
  lemma CatAt<T>(cs: seq<seq<T>>, size: nat, b: nat, r: nat, x: T)
    requires Blocks(cs, size) && b < |cs| && r < size
    ensures b * size + r < |Cat(cs)| && Cat(cs)[b * size + r] == cs[b][r]
    ensures Cat(cs[b := cs[b][r := x]]) == Cat(cs)[b * size + r := x]
  {
    hide Cat;
    CatAtOffset(cs, size, b, r, x);
    assert Offset(b, size) == b * size;
  }

  // ---------------------------------------------------------------- well-formed trees

  ghost predicate OkChild<T>(level: nat, c: Child<T>, w: nat)
    decreases level, 0
  {
    match c
    case Nil => w == 0
    case Item(_) => level == 0 && w > 0
    case Sub(m) => level > 0 && m.level == level - 1 && Ok(m) && w == m.sum
  }

  /** Sums, counts and capacities agree at every node. */
  ghost predicate Ok<T>(n: Node<T>)
    decreases n.level, 1
  {
    && |n.items| == BRANCHES == |n.weights| && n.max == Pow8(n.level + 1)
    && (forall i :: 0 <= i < BRANCHES ==> OkChild(n.level, n.items[i], n.weights[i]))
    && n.sum == SumOf(n.weights) && n.count == CountOf(n.items)
  }

  ghost predicate OkChildren<T>(level: nat, items: seq<Child<T>>, weights: seq<nat>) {
    |items| == BRANCHES == |weights| && forall i :: 0 <= i < BRANCHES ==> OkChild(level, items[i], weights[i])
  }

  function Empties<T>(k: nat): seq<Entry<T>> { seq(k, _ => Empty) }

  /** The slots of a branch. */
  ghost function Slots<T>(level: nat, c: Child<T>, w: nat): (s: seq<Entry<T>>)
    requires OkChild(level, c, w)
    ensures |s| == Pow8(level)
    decreases level, 0
  {
    match c
    case Nil => Empties(Pow8(level))
    case Item(x) => [Held(x, w)]
    case Sub(m) => Flat(m)
  }

  ghost function SlotLists<T>(n: Node<T>): (cs: seq<seq<Entry<T>>>)
    requires Ok(n)
    ensures |cs| == BRANCHES && Blocks(cs, Pow8(n.level))
    decreases n.level, 1
  {
    seq(BRANCHES, i requires 0 <= i < BRANCHES => Slots(n.level, n.items[i], n.weights[i]))
  }

  /** The flat list of all slots, in index order. */
  ghost function Flat<T>(n: Node<T>): (s: seq<Entry<T>>)
    requires Ok(n)
    ensures |s| == n.max == Pow8(n.level + 1)
    decreases n.level, 2
  {
    CatLength(SlotLists(n), Pow8(n.level));
    Cat(SlotLists(n))
  }

  lemma {:induction false} EmptiesWeigh<T>(k: nat)
    ensures WeightOf(Empties<T>(k)) == 0 && HeldIn(Empties<T>(k)) == 0
  {
    if k > 0 {
      assert Empties<T>(k)[..k - 1] == Empties<T>(k - 1);
      EmptiesWeigh<T>(k - 1);
    }
  }

  /** The stored sums and counts are those of the flat list. */
  lemma {:induction false} FlatTotals<T>(n: Node<T>)
    requires Ok(n)
    ensures WeightOf(Flat(n)) == n.sum && HeldIn(Flat(n)) == n.count
    decreases n.level
  {
    var cs := SlotLists(n);
    forall i | 0 <= i < BRANCHES ensures WeightOf(cs[i]) == n.weights[i] && HeldIn(cs[i]) == ChildCount(n.items[i]) {
      SlotTotals(n, i);
    }
    CatTotals(cs, n.weights, n.items);
  }

  lemma {:induction false} SlotTotals<T>(n: Node<T>, i: nat)
    requires Ok(n) && i < BRANCHES
    ensures WeightOf(SlotLists(n)[i]) == n.weights[i] && HeldIn(SlotLists(n)[i]) == ChildCount(n.items[i])
    decreases n.level, 0
  {
    assert OkChild(n.level, n.items[i], n.weights[i]);
    match n.items[i]
    case Nil => EmptiesWeigh<T>(Pow8(n.level));
    case Item(x) =>
      assert [Held(x, n.weights[i])][..0] == [];
    case Sub(m) => FlatTotals(m);
  }

  lemma {:induction false} CatTotals<T>(cs: seq<seq<Entry<T>>>, ws: seq<nat>, items: seq<Child<T>>)
    requires |cs| == |ws| == |items|
    requires forall i :: 0 <= i < |cs| ==> WeightOf(cs[i]) == ws[i] && HeldIn(cs[i]) == ChildCount(items[i])
    ensures WeightOf(Cat(cs)) == SumOf(ws) && HeldIn(Cat(cs)) == CountOf(items)
  {
    if |cs| > 0 {
      var k := |cs| - 1;
      CatTotals(cs[..k], ws[..k], items[..k]);
      WeightSplit(Cat(cs[..k]), cs[k]);
    }
  }

  // ---------------------------------------------------------------- changing one branch

  /** A node after branch `b` became `c` with weight `w`. */
  function WithBranch<T>(n: Node<T>, b: nat, c: Child<T>, w: nat): Node<T>
    requires b < |n.items| && b < |n.weights|
    requires n.sum + w >= n.weights[b] && n.count + ChildCount(c) >= ChildCount(n.items[b])
  {
    n.(items := n.items[b := c], weights := n.weights[b := w], sum := n.sum + w - n.weights[b],
       count := n.count + ChildCount(c) - ChildCount(n.items[b]))
  }

  lemma {:induction false} PartOfSum(ws: seq<nat>, i: nat)
    requires i < |ws|
    ensures ws[i] <= SumOf(ws)
  {
    if i < |ws| - 1 { PartOfSum(ws[..|ws| - 1], i); }
  }

  lemma {:induction false} PartOfCount<T>(items: seq<Child<T>>, i: nat)
    requires i < |items|
    ensures ChildCount(items[i]) <= CountOf(items)
  {
    if i < |items| - 1 { PartOfCount(items[..|items| - 1], i); }
  }

  lemma BranchParts<T>(n: Node<T>, b: nat)
    requires Ok(n) && b < BRANCHES
    ensures n.weights[b] <= n.sum && ChildCount(n.items[b]) <= n.count
  {
    PartOfSum(n.weights, b);
    PartOfCount(n.items, b);
  }

  /** One slot of one branch changes: the tree stays well-formed and exactly that slot of the flat list
      changes. */
  lemma BranchChanges<T>(n: Node<T>, b: nat, c: Child<T>, w: nat, r: nat, e: Entry<T>)
    requires Ok(n) && b < BRANCHES && OkChild(n.level, c, w) && r < Pow8(n.level)
    requires Slots(n.level, c, w) == Slots(n.level, n.items[b], n.weights[b])[r := e]
    requires n.sum + w >= n.weights[b] && n.count + ChildCount(c) >= ChildCount(n.items[b])
    ensures Ok(WithBranch(n, b, c, w))
    ensures b * Pow8(n.level) + r < n.max
    ensures Flat(n)[b * Pow8(n.level) + r] == Slots(n.level, n.items[b], n.weights[b])[r]
    ensures Flat(WithBranch(n, b, c, w)) == Flat(n)[b * Pow8(n.level) + r := e]
  {
    hide WithBranch, SlotLists, Slots, OkChild, Pow8, Ok, Blocks, ChildCount, SumOf, CountOf;
    BranchOk(n, b, c, w);
    BranchSlots(n, b, c, w);
    CatAt(SlotLists(n), Pow8(n.level), b, r, e);
    assert Flat(n) == Cat(SlotLists(n)) && |Flat(n)| == n.max;
  }

  lemma OkUpdate<T>(level: nat, items: seq<Child<T>>, weights: seq<nat>, b: nat, c: Child<T>, w: nat)
    requires OkChildren(level, items, weights) && b < BRANCHES && OkChild(level, c, w)
    ensures OkChildren(level, items[b := c], weights[b := w])
  {
    hide OkChild;
    var items', weights' := items[b := c], weights[b := w];
    forall i | 0 <= i < BRANCHES ensures OkChild(level, items'[i], weights'[i]) {
      if i != b { assert OkChild(level, items[i], weights[i]); }
    }
  }

  lemma OkIff<T>(n: Node<T>)
    ensures Ok(n) <==> OkChildren(n.level, n.items, n.weights) && n.max == Pow8(n.level + 1)
                       && n.sum == SumOf(n.weights) && n.count == CountOf(n.items)
    ensures Ok(n) ==> |n.items| == BRANCHES == |n.weights|
  {
    hide SumOf, CountOf, Pow8, OkChild;
  }

  lemma BranchOk<T>(n: Node<T>, b: nat, c: Child<T>, w: nat)
    requires Ok(n) && b < BRANCHES && OkChild(n.level, c, w)
    requires n.sum + w >= n.weights[b] && n.count + ChildCount(c) >= ChildCount(n.items[b])
    ensures Ok(WithBranch(n, b, c, w)) && WithBranch(n, b, c, w).level == n.level
  {
    OkIff(n);
    hide SumOf, CountOf, Pow8, OkChild, Ok, OkChildren;
    SumAt(n.weights, b, w);
    CountAt(n.items, b, c);
    OkUpdate(n.level, n.items, n.weights, b, c, w);
    OkIff(WithBranch(n, b, c, w));
  }

  lemma BranchSlots<T>(n: Node<T>, b: nat, c: Child<T>, w: nat)
    requires Ok(n) && b < BRANCHES && OkChild(n.level, c, w)
    requires n.sum + w >= n.weights[b] && n.count + ChildCount(c) >= ChildCount(n.items[b])
    requires Ok(WithBranch(n, b, c, w))
    ensures SlotLists(n)[b] == Slots(n.level, n.items[b], n.weights[b])
    ensures SlotLists(WithBranch(n, b, c, w)) == SlotLists(n)[b := Slots(n.level, c, w)]
  {
    hide SumOf, CountOf, Pow8, OkChild, Slots;
  }

  // ---------------------------------------------------------------- insert

  /** Nothing more fits into a branch. */
  predicate FullBranch<T>(level: nat, c: Child<T>) { !c.Nil? && (level == 0 || (c.Sub? && c.node.count == c.node.max)) }

  lemma FullBranchCount<T>(level: nat, c: Child<T>, w: nat)
    requires OkChild(level, c, w) && FullBranch(level, c)
    ensures ChildCount(c) == Pow8(level)
  {
    if level > 0 { assert c.node.max == Pow8(c.node.level + 1); }
  }

  lemma {:induction false} FullCount<T>(n: Node<T>, k: nat)
    requires Ok(n) && k <= BRANCHES && forall i :: 0 <= i < k ==> FullBranch(n.level, n.items[i])
    ensures CountOf(n.items[..k]) == k * Pow8(n.level)
  {
    if k > 0 {
      assert n.items[..k][..k - 1] == n.items[..k - 1];
      FullCount(n, k - 1);
      assert OkChild(n.level, n.items[k - 1], n.weights[k - 1]);
      FullBranchCount(n.level, n.items[k - 1], n.weights[k - 1]);
      MulNext(k - 1, Pow8(n.level));
    } else {
      assert n.items[..k] == [];
    }
  }

  /** The loop of insert: with room in the node it finds a branch with room and never runs off the end. */
  method FindBranch<T>(n: Node<T>) returns (b: nat)
    requires Ok(n) && n.count < n.max
    ensures b < BRANCHES && !FullBranch(n.level, n.items[b])
  {
    b := 0;
    while FullBranch(n.level, n.items[b])
      invariant b < BRANCHES && forall i :: 0 <= i < b ==> FullBranch(n.level, n.items[i])
      decreases BRANCHES - b
    {
      FullCount(n, b + 1);
      assert n.items[..BRANCHES] == n.items;
      b := b + 1;
    }
  }

  function NoChildren<T>(): (items: seq<Child<T>>)
    ensures |items| == BRANCHES && forall i :: 0 <= i < BRANCHES ==> items[i].Nil?
  {
    seq(BRANCHES, _ => Nil)
  }

  function NoWeights(): (ws: seq<nat>)
    ensures |ws| == BRANCHES && forall i :: 0 <= i < BRANCHES ==> ws[i] == 0
  {
    seq(BRANCHES, _ => 0)
  }

  function EmptyNode<T>(level: nat): (n: Node<T>)
    ensures Ok(n) && n.count == 0 && n.sum == 0 && n.level == level
    ensures Flat(n) == Empties(n.max)
  {
    var n := Node(level, NoChildren(), NoWeights(), 0, 0, Pow8(level + 1));
    EmptyOk(n);
    n
  }

  lemma EmptyOk<T>(n: Node<T>)
    requires |n.items| == BRANCHES == |n.weights| && n.max == Pow8(n.level + 1) && n.sum == 0 && n.count == 0
    requires forall i :: 0 <= i < BRANCHES ==> n.items[i].Nil? && n.weights[i] == 0
    ensures Ok(n) && Flat(n) == Empties(n.max)
  {
    NoSum(n.weights);
    NoCount(n.items);
    forall i | 0 <= i < BRANCHES ensures SlotLists(n)[i] == Empties<T>(Pow8(n.level)) {}
    CatEmpties(SlotLists(n), Pow8(n.level));
  }

  lemma {:induction false} NoSum(ws: seq<nat>)
    requires forall i :: 0 <= i < |ws| ==> ws[i] == 0
    ensures SumOf(ws) == 0
  {
    if |ws| > 0 { NoSum(ws[..|ws| - 1]); }
  }

  lemma {:induction false} NoCount<T>(items: seq<Child<T>>)
    requires forall i :: 0 <= i < |items| ==> items[i].Nil?
    ensures CountOf(items) == 0
  {
    if |items| > 0 { NoCount(items[..|items| - 1]); }
  }

  lemma {:induction false} CatEmpties<T>(cs: seq<seq<Entry<T>>>, size: nat)
    requires forall i :: 0 <= i < |cs| ==> cs[i] == Empties<T>(size)
    ensures |Cat(cs)| == |cs| * size && Cat(cs) == Empties<T>(|cs| * size)
  {
    CatLength(cs, size);
    if |cs| > 0 {
      CatEmpties(cs[..|cs| - 1], size);
      MulNext(|cs| - 1, size);
    }
  }

  lemma {:induction false} HeldBound<T>(s: seq<Entry<T>>)
    ensures HeldIn(s) <= |s|
  {
    if |s| > 0 { HeldBound(s[..|s| - 1]); }
  }

  lemma CountBound<T>(n: Node<T>)
    requires Ok(n)
    ensures n.count <= n.max
  {
    FlatTotals(n);
    HeldBound(Flat(n));
  }

  /** `n'` is `n` with the item in the free slot `idx`. */
  ghost predicate Gained<T>(n: Node<T>, n': Node<T>, idx: nat, item: T, weight: nat) {
    && Ok(n) && Ok(n') && n'.level == n.level && n'.count == n.count + 1 && n'.sum == n.sum + weight
    && idx < n.max && Flat(n)[idx] == Empty && Flat(n') == Flat(n)[idx := Held(item, weight)]
  }

  /** insert: the item goes into a free slot, and the returned index is that slot. */
  method Insert<T>(n: Node<T>, item: T, weight: nat) returns (n': Node<T>, idx: nat)
    requires Ok(n) && n.count < n.max && weight > 0
    ensures Ok(n') && n'.level == n.level && n'.count == n.count + 1 && n'.sum == n.sum + weight
    ensures idx < n.max && Flat(n)[idx] == Empty && Flat(n') == Flat(n)[idx := Held(item, weight)]
    decreases n.level
  {
    hide SumOf, CountOf, Pow8, SlotLists, Flat, Ok, WithBranch, Slots;
    var b := FindBranch(n);
    BranchFits(n, b);
    BranchParts(n, b);
    if n.level == 0 {
      n' := WithBranch(n, b, Item(item), weight);
      InsertedItem(n, b, item, weight, n');
      idx := b;
    } else {
      var sub := if n.items[b].Nil? then EmptyNode(n.level - 1) else n.items[b].node;
      EmptyAt(n, b, sub);
      CountBound(sub);
      RoomBelow(n, b, sub);
      var sub', subIdx := Insert(sub, item, weight);
      n' := WithBranch(n, b, Sub(sub'), n.weights[b] + weight);
      InsertedBelow(n, b, sub, sub', subIdx, item, weight, n');
      idx := sub.max * b + subIdx;
    }
  }

  lemma BranchFits<T>(n: Node<T>, b: nat)
    requires Ok(n) && b < BRANCHES
    ensures |n.items| == BRANCHES == |n.weights| && OkChild(n.level, n.items[b], n.weights[b])
  {}

  lemma RoomBelow<T>(n: Node<T>, b: nat, sub: Node<T>)
    requires Ok(n) && b < BRANCHES && n.level > 0 && !FullBranch(n.level, n.items[b]) && !n.items[b].Item?
    requires sub == if n.items[b].Nil? then EmptyNode(n.level - 1) else n.items[b].node
    requires Ok(sub) && sub.count <= sub.max
    ensures sub.count < sub.max
  {
    hide SumOf, CountOf, Flat, SlotLists;
  }

  /** A leaf takes the item. */
  lemma InsertedItem<T>(n: Node<T>, b: nat, item: T, weight: nat, n': Node<T>)
    requires Ok(n) && n.level == 0 && b < BRANCHES && !FullBranch(0, n.items[b]) && weight > 0
    requires n.weights[b] <= n.sum && ChildCount(n.items[b]) <= n.count
    requires n' == WithBranch(n, b, Item(item), weight)
    ensures Gained(n, n', b, item, weight)
  {
    hide SumOf, CountOf, Pow8, SlotLists, Flat;
    assert OkChild(n.level, n.items[b], n.weights[b]);
    LeafSlots(item, weight);
    BranchChanges(n, b, Item(item), weight, 0, Held(item, weight));
  }

  /** `sub` is what a branch of `n` holds, or the empty node that will go there. */
  ghost predicate Under<T>(n: Node<T>, b: nat, sub: Node<T>) {
    && Ok(n) && n.level > 0 && b < BRANCHES && !n.items[b].Item? && Ok(sub) && sub.level == n.level - 1
    && sub.sum == n.weights[b] && sub.count == ChildCount(n.items[b]) && Flat(sub) == Slots(n.level, n.items[b], n.weights[b])
  }

  /** A node whose branch took the item. */
  lemma InsertedBelow<T>(n: Node<T>, b: nat, sub: Node<T>, sub': Node<T>, subIdx: nat, item: T, weight: nat, n': Node<T>)
    requires Under(n, b, sub) && Gained(sub, sub', subIdx, item, weight) && weight > 0
    requires n.weights[b] <= n.sum && ChildCount(n.items[b]) <= n.count
    requires n' == WithBranch(n, b, Sub(sub'), n.weights[b] + weight)
    ensures Gained(n, n', sub.max * b + subIdx, item, weight)
  {
    hide SumOf, CountOf, Pow8, SlotLists, Flat;
    assert OkChild(n.level, n.items[b], n.weights[b]);
    LevelMax(n.level);
    assert sub.max == Pow8(n.level) && OkChild(n.level, Sub(sub'), n.weights[b] + weight);
    BranchChanges(n, b, Sub(sub'), n.weights[b] + weight, subIdx, Held(item, weight));
  }

  lemma LeafSlots<T>(item: T, weight: nat)
    requires weight > 0
    ensures OkChild(0, Item(item), weight) && Slots(0, Item(item), weight) == Empties<T>(1)[0 := Held(item, weight)]
    ensures Pow8(0) == 1 && Slots<T>(0, Nil, 0) == Empties<T>(1)
  {}

  lemma LevelMax(level: nat)
    requires level > 0
    ensures Pow8(level - 1 + 1) == Pow8(level)
  {}

  lemma EmptyAt<T>(n: Node<T>, b: nat, sub: Node<T>)
    requires Ok(n) && b < BRANCHES && n.level > 0 && !n.items[b].Item?
    requires sub == if n.items[b].Nil? then EmptyNode(n.level - 1) else n.items[b].node
    ensures Under(n, b, sub)
  {
    assert OkChild(n.level, n.items[b], n.weights[b]);
  }

  // ---------------------------------------------------------------- setWeight

  /** The slot's entry after its weight was set. */
  function Reweighed<T>(e: Entry<T>, weight: nat): Entry<T> {
    if weight == 0 || e.Empty? then Empty else Held(e.item, weight)
  }

  lemma Locate(idx: nat, size: nat, max: nat, b: nat)
    requires size > 0 && idx < max && max == BRANCHES * size && b == idx / size
    ensures b < BRANCHES && 0 <= idx - b * size < size
  {
    assert idx == size * (idx / size) + idx % size;
    if b >= BRANCHES { MulMonotone(BRANCHES, b, size); }
  }

  lemma MulMonotone(a: nat, b: nat, size: nat)
    requires a <= b
    ensures a * size <= b * size
  {}

  /** A node whose slot `r` of branch `b` is held has that branch. */
  lemma SlotAt<T>(n: Node<T>, b: nat, r: nat)
    requires Ok(n) && b < BRANCHES && r < Pow8(n.level)
    ensures b * Pow8(n.level) + r < n.max && Flat(n)[b * Pow8(n.level) + r] == Slots(n.level, n.items[b], n.weights[b])[r]
  {
    hide Slots, OkChild, Pow8, SumOf, CountOf;
    CatAt(SlotLists(n), Pow8(n.level), b, r, SlotLists(n)[b][r]);
    assert Flat(n) == Cat(SlotLists(n)) && |Flat(n)| == n.max;
  }

  /** setWeight of a node: the slot's weight becomes `weight`, and a zero weight frees it. */
  method SetWeight<T>(n: Node<T>, idx: nat, weight: nat) returns (n': Node<T>)
    requires Ok(n) && idx < n.max && Flat(n)[idx].Held?
    ensures Ok(n') && n'.level == n.level
    ensures n'.sum == n.sum + weight - Flat(n)[idx].weight && n'.count == if weight == 0 then n.count - 1 else n.count
    ensures Flat(n') == Flat(n)[idx := Reweighed(Flat(n)[idx], weight)]
    decreases n.level
  {
    hide SumOf, CountOf, SlotLists, Flat, Pow8;
    LevelOf(n);
    var size := n.max / BRANCHES;
    var b := idx / size;
    Locate(idx, size, n.max, b);
    var r := idx - b * size;
    SlotAt(n, b, r);
    BranchParts(n, b);
    HeldSlot(n, b, r);
    if n.level == 0 {
      LeafReweighed(n.items[b], n.weights[b], weight);
      var c := if weight == 0 then Nil else n.items[b];
      BranchChanges(n, b, c, weight, r, Reweighed(Flat(n)[idx], weight));
      n' := WithBranch(n, b, c, weight);
    } else {
      var sub := n.items[b].node;
      var sub' := SetWeight(sub, r, weight);
      BranchChanges(n, b, Sub(sub'), sub'.sum, r, Reweighed(Flat(n)[idx], weight));
      n' := WithBranch(n, b, Sub(sub'), sub'.sum);
    }
  }

  lemma LevelOf<T>(n: Node<T>)
    requires Ok(n)
    ensures n.max == BRANCHES * Pow8(n.level) && n.max / BRANCHES == Pow8(n.level)
    ensures n.level == 0 ==> Pow8(n.level) == 1
  {}

  /** A held slot belongs to an item or to a subtree. */
  lemma HeldSlot<T>(n: Node<T>, b: nat, r: nat)
    requires Ok(n) && b < BRANCHES && r < Pow8(n.level) && Slots(n.level, n.items[b], n.weights[b])[r].Held?
    ensures n.level == 0 ==> n.items[b].Item? && r == 0
    ensures n.level > 0 ==> n.items[b].Sub? && Ok(n.items[b].node) && n.items[b].node.level == n.level - 1
                            && n.items[b].node.sum == n.weights[b] && n.items[b].node.max == Pow8(n.level)
    ensures n.level > 0 ==> Slots(n.level, n.items[b], n.weights[b]) == Flat(n.items[b].node)
  {
    hide Flat;
    OkBranch(n, b);
    assert |Slots(n.level, n.items[b], n.weights[b])| == Pow8(n.level);
    if n.items[b].Sub? { MaxOf(n.items[b].node); }
  }

  lemma OkBranch<T>(n: Node<T>, b: nat)
    requires Ok(n) && b < BRANCHES
    ensures OkChild(n.level, n.items[b], n.weights[b])
  {}

  lemma MaxOf<T>(n: Node<T>)
    requires Ok(n)
    ensures n.max == Pow8(n.level + 1)
  {}

  lemma LeafReweighed<T>(c: Child<T>, w: nat, weight: nat)
    requires c.Item? && OkChild(0, c, w)
    ensures var c' := if weight == 0 then Nil else c;
            OkChild(0, c', weight) && Slots(0, c', weight) == Slots(0, c, w)[0 := Reweighed(Slots(0, c, w)[0], weight)]
  {
    if weight == 0 { LeafSlots(c.item, 1); }
  }

  // ---------------------------------------------------------------- choose

  /** The cumulative scan of the flat list: the first slot whose running total exceeds `val`. */
  function Scan<T>(s: seq<Entry<T>>, val: nat): (i: nat)
    requires val < WeightOf(s)
    ensures i < |s|
  {
    if val < WeightOf(s[..|s| - 1]) then Scan(s[..|s| - 1], val) else |s| - 1
  }

  lemma {:induction false} WeightMonotone<T>(s: seq<Entry<T>>, i: nat, j: nat)
    requires i <= j <= |s|
    ensures WeightOf(s[..i]) <= WeightOf(s[..j])
  {
    if i < j {
      assert s[..j][..j - 1] == s[..j - 1];
      WeightMonotone(s, i, j - 1);
    }
  }

  /** The values that select slot `i`. */
  ghost predicate Owns<T>(s: seq<Entry<T>>, i: nat, val: nat)
    requires i < |s|
  {
    WeightOf(s[..i]) <= val < WeightOf(s[..i]) + EntryWeight(s[i])
  }

  /** Slot `i` is scanned to exactly by the values it owns, an interval as long as its weight. */
  lemma {:induction false} ScanIff<T>(s: seq<Entry<T>>, val: nat, i: nat)
    requires val < WeightOf(s) && i < |s|
    ensures Scan(s, val) == i <==> Owns(s, i, val)
  {
    var k := |s| - 1;
    assert s[..|s|] == s;
    if val < WeightOf(s[..k]) {
      if i < k {
        ScanIff(s[..k], val, i);
        assert s[..k][..i] == s[..i];
      }
    } else if i < k {
      assert s[..i + 1][..i] == s[..i];
      WeightMonotone(s, i + 1, k);
    }
  }

  /** The values below `hi` that slot `i` owns. */
  ghost function Owned<T>(s: seq<Entry<T>>, i: nat, hi: nat): set<nat>
    requires i < |s|
  {
    set v: nat | v < hi && Owns(s, i, v)
  }

  lemma {:induction false} OwnedMany<T>(s: seq<Entry<T>>, i: nat, hi: nat)
    requires i < |s|
    ensures |Owned(s, i, hi)| == if hi <= WeightOf(s[..i]) then 0
                                 else if hi <= WeightOf(s[..i]) + EntryWeight(s[i]) then hi - WeightOf(s[..i])
                                 else EntryWeight(s[i])
  {
    if hi > 0 {
      OwnedMany(s, i, hi - 1);
      if Owns(s, i, hi - 1) {
        assert Owned(s, i, hi) == Owned(s, i, hi - 1) + {hi - 1};
      } else {
        assert Owned(s, i, hi) == Owned(s, i, hi - 1);
      }
    }
  }

  /** The draws that select slot `i`. */
  ghost function Draws<T>(n: Node<T>, i: nat): set<nat>
    requires Ok(n) && WeightOf(Flat(n)) == n.sum
  {
    set v: nat | v < n.sum && Scan(Flat(n), v) == i
  }

  /** Of all draws below the sum, exactly as many select a slot as its weight. */
  lemma DrawsAreProportional<T>(n: Node<T>, i: nat)
    requires Ok(n) && i < n.max
    ensures WeightOf(Flat(n)) == n.sum && |Draws(n, i)| == EntryWeight(Flat(n)[i])
  {
    hide Flat, Scan;
    FlatTotals(n);
    var s := Flat(n);
    OwnedMany(s, i, n.sum);
    forall v: nat | v < n.sum ensures Scan(s, v) == i <==> Owns(s, i, v) { ScanIff(s, v, i); }
    assert Draws(n, i) == Owned(s, i, n.sum);
    assert s[..i + 1][..i] == s[..i];
    assert WeightOf(s[..i + 1]) == WeightOf(s[..i]) + EntryWeight(s[i]);
    WeightMonotone(s, i + 1, |s|);
    assert s[..|s|] == s;
  }

  /** `o` is where block `b` starts. */
  lemma {:induction false} CatPrefix<T>(cs: seq<seq<Entry<T>>>, size: nat, b: nat, r: nat, o: nat)
    requires Blocks(cs, size) && b < |cs| && r <= size && o == b * size
    ensures o + r <= |Cat(cs)| && WeightOf(Cat(cs)[..o + r]) == WeightOf(Cat(cs[..b])) + WeightOf(cs[b][..r])
  {
    hide WeightOf, HeldIn;
    var front, last := cs[..|cs| - 1], cs[|cs| - 1];
    assert Cat(cs) == Cat(front) + last;
    if b < |cs| - 1 {
      CatPrefix(front, size, b, r, o);
      assert front[..b] == cs[..b];
      assert Cat(cs)[..o + r] == Cat(front)[..o + r];
    } else {
      CatLength(front, size);
      assert cs[..b] == front;
      assert Cat(cs)[..o + r] == Cat(front) + last[..r];
      WeightSplit(Cat(front), last[..r]);
    }
  }

  lemma PrefixSum<T>(n: Node<T>, b: nat, r: nat)
    requires Ok(n) && b < BRANCHES && r <= Pow8(n.level)
    ensures b * Pow8(n.level) + r <= n.max
    ensures WeightOf(Flat(n)[..b * Pow8(n.level) + r]) == SumOf(n.weights[..b]) + WeightOf(Slots(n.level, n.items[b], n.weights[b])[..r])
  {
    hide Pow8, WeightOf, HeldIn, SumOf, CountOf, OkChild, Slots;
    var cs := SlotLists(n);
    CatPrefix(cs, Pow8(n.level), b, r, b * Pow8(n.level));
    forall i | 0 <= i < b ensures WeightOf(cs[..b][i]) == n.weights[..b][i] && HeldIn(cs[..b][i]) == ChildCount(n.items[..b][i]) {
      SlotTotals(n, i);
    }
    CatTotals(cs[..b], n.weights[..b], n.items[..b]);
    assert Flat(n) == Cat(cs) && |Flat(n)| == n.max;
  }

  /** choose of a node equals the cumulative scan of the flat list. */
  method Choose<T>(n: Node<T>, val: nat) returns (item: T, weight: nat, ghost idx: nat)
    requires Ok(n) && val < n.sum
    ensures WeightOf(Flat(n)) == n.sum && idx == Scan(Flat(n), val)
    ensures Flat(n)[Scan(Flat(n), val)] == Held(item, weight)
    decreases n.level
  {
    hide SumOf, CountOf, SlotLists, Flat, Pow8, WeightOf, Scan;
    FlatTotals(n);
    var rest: nat := val;
    var b := 0;
    SumParts(n.weights, 0);
    while rest >= n.weights[b]
      invariant b < BRANCHES && val == SumOf(n.weights[..b]) + rest
      decreases BRANCHES - b
    {
      rest := rest - n.weights[b];
      b := b + 1;
      SumParts(n.weights, b);
    }
    OkBranch(n, b);
    if n.level == 0 {
      item, weight, idx := n.items[b].item, n.weights[b], b;
      LeafChosen(n, b, val, rest);
    } else {
      ghost var r;
      item, weight, r := Choose(n.items[b].node, rest);
      idx := b * Pow8(n.level) + r;
      SubChosen(n, b, val, rest, r);
    }
  }

  lemma SumParts(ws: seq<nat>, b: nat)
    requires b <= |ws|
    ensures b == 0 ==> SumOf(ws[..b]) == 0
    ensures b > 0 ==> SumOf(ws[..b]) == SumOf(ws[..b - 1]) + ws[b - 1]
    ensures b == |ws| ==> ws[..b] == ws
  {
    if b > 0 { assert ws[..b][..b - 1] == ws[..b - 1]; }
  }

  lemma LeafChosen<T>(n: Node<T>, b: nat, val: nat, rest: nat)
    requires Ok(n) && n.level == 0 && b < BRANCHES && n.items[b].Item? && rest < n.weights[b]
    requires val == SumOf(n.weights[..b]) + rest && val < WeightOf(Flat(n))
    ensures b < n.max && Scan(Flat(n), val) == b && Flat(n)[b] == Held(n.items[b].item, n.weights[b])
  {
    hide Flat, SlotLists, WeightOf, Scan, SumOf, CountOf;
    LevelOf(n);
    SlotAt(n, b, 0);
    PrefixSum(n, b, 0);
    NoWeight<T>();
    assert b * Pow8(n.level) + 0 == b;
    OkBranch(n, b);
    assert Slots(n.level, n.items[b], n.weights[b]) == [Held(n.items[b].item, n.weights[b])];
    assert Slots(n.level, n.items[b], n.weights[b])[..0] == [];
    ScanIff(Flat(n), val, b);
  }

  lemma NoWeight<T>()
    ensures WeightOf<T>([]) == 0
  {}

  lemma SubChosen<T>(n: Node<T>, b: nat, val: nat, rest: nat, r: nat)
    requires Ok(n) && n.level > 0 && b < BRANCHES && n.items[b].Sub? && Ok(n.items[b].node) && n.items[b].node.level == n.level - 1
    requires rest < WeightOf(Flat(n.items[b].node)) && r == Scan(Flat(n.items[b].node), rest)
    requires val == SumOf(n.weights[..b]) + rest && val < WeightOf(Flat(n))
    ensures b * Pow8(n.level) + r < n.max && Scan(Flat(n), val) == b * Pow8(n.level) + r
    ensures Flat(n)[b * Pow8(n.level) + r] == Flat(n.items[b].node)[r]
  {
    hide Flat, SlotLists, WeightOf, Scan, SumOf, CountOf, Pow8;
    var m := n.items[b].node;
    MaxOf(m);
    OkBranch(n, b);
    assert Slots(n.level, n.items[b], n.weights[b]) == Flat(m);
    SlotAt(n, b, r);
    PrefixSum(n, b, r);
    ScanIff(Flat(m), rest, r);
    ScanIff(Flat(n), val, b * Pow8(n.level) + r);
  }

  // ---------------------------------------------------------------- the whole structure

  /** Every held slot is indexed by its item, and every index leads to its item. */
  ghost predicate Indexed<T>(s: seq<Entry<T>>, idx: map<T, nat>) {
    && (forall x :: x in idx ==> idx[x] < |s| && s[idx[x]].Held? && s[idx[x]].item == x)
    && (forall i {:trigger s[i]} :: 0 <= i < |s| && s[i].Held? ==> s[i].item in idx && idx[s[i].item] == i && s[i].weight > 0)
  }

  /** The weights by item. */
  ghost function Stored<T>(s: seq<Entry<T>>, idx: map<T, nat>): map<T, nat>
    requires Indexed(s, idx)
  {
    map x | x in idx :: s[idx[x]].weight
  }

  /** The weight map after setting one weight. */
  ghost function WithWeight<T>(m: map<T, nat>, item: T, weight: nat): map<T, nat> {
    if weight == 0 then m - {item} else m[item := weight]
  }

  /** Exactly the slot at `i` is reweighed. */
  ghost predicate OneSlot<T>(s: seq<Entry<T>>, s': seq<Entry<T>>, i: nat, weight: nat) {
    i < |s| && s' == s[i := Reweighed(s[i], weight)]
  }

  /** A new level above the root: the old slots keep their index, the new ones are empty. */
  lemma NewLevel<T>(root: Node<T>, root': Node<T>)
    requires Ok(root)
    requires root' == Node(root.level + 1, NoChildren()[0 := Sub(root)], NoWeights()[0 := root.sum],
                           root.sum, root.count, root.max * BRANCHES)
    ensures Ok(root') && Flat(root') == Flat(root) + Empties(root'.max - root.max)
  {
    hide Pow8, Slots, Ok, OkChild, WithBranch, EmptyNode, SlotLists, SumOf, CountOf;
    LevelAbove(root);
    var empty := EmptyNode<T>(root.level + 1);
    LevelNode(root, root', empty);
    BranchOk(empty, 0, Sub(root), root.sum);
    BranchSlots(empty, 0, Sub(root), root.sum);
    LevelSlots(root, empty);
    FirstBlock(SlotLists(empty), Flat(root), root.max);
  }

  lemma LevelNode<T>(root: Node<T>, root': Node<T>, empty: Node<T>)
    requires Ok(root) && empty == EmptyNode<T>(root.level + 1)
    requires root' == Node(root.level + 1, NoChildren()[0 := Sub(root)], NoWeights()[0 := root.sum],
                           root.sum, root.count, root.max * BRANCHES)
    ensures |empty.items| == BRANCHES == |empty.weights|
    ensures forall i :: 0 <= i < BRANCHES ==> empty.items[i].Nil? && empty.weights[i] == 0
    ensures WithBranch(empty, 0, Sub(root), root.sum) == root'
  {
    hide Ok, SumOf, CountOf, Flat, Pow8, NoChildren, NoWeights;
    LevelAbove(root);
    var n := WithBranch(empty, 0, Sub(root), root.sum);
    assert n.items == root'.items && n.weights == root'.weights;
  }

  lemma LevelAbove<T>(root: Node<T>)
    requires Ok(root)
    ensures root.max == Pow8(root.level + 1) && Pow8(root.level + 2) == root.max * BRANCHES
    ensures OkChild(root.level + 1, Sub(root), root.sum)
  {}

  lemma LevelSlots<T>(root: Node<T>, empty: Node<T>)
    requires Ok(root) && Ok(empty) && empty.level == root.level + 1 && OkChild(root.level + 1, Sub(root), root.sum)
    requires forall i :: 0 <= i < BRANCHES ==> empty.items[i].Nil? && empty.weights[i] == 0
    ensures Slots(root.level + 1, Sub(root), root.sum) == Flat(root)
    ensures forall i :: 0 <= i < BRANCHES ==> SlotLists(empty)[i] == Empties<T>(root.max)
  {
    hide Flat, SumOf, CountOf, Pow8;
    MaxOf(root);
    forall i | 0 <= i < BRANCHES ensures SlotLists(empty)[i] == Empties<T>(root.max) {
      assert SlotLists(empty)[i] == Slots(empty.level, empty.items[i], empty.weights[i]);
    }
  }

  lemma FirstBlock<T>(cs: seq<seq<Entry<T>>>, first: seq<Entry<T>>, size: nat)
    requires |cs| == BRANCHES && |first| == size && forall i :: 0 <= i < |cs| ==> cs[i] == Empties<T>(size)
    ensures Cat(cs[0 := first]) == first + Empties<T>(BRANCHES * size - size)
  {
    FirstBlocks(cs, first, size, BRANCHES);
    assert cs[..BRANCHES] == cs;
  }

  lemma {:induction false} FirstBlocks<T>(cs: seq<seq<Entry<T>>>, first: seq<Entry<T>>, size: nat, k: nat)
    requires 0 < k <= |cs| && |first| == size && forall i :: 0 <= i < |cs| ==> cs[i] == Empties<T>(size)
    ensures k * size >= size && Cat(cs[..k][0 := first]) == first + Empties<T>(k * size - size)
  {
    var ds := cs[..k][0 := first];
    MulNext(k - 1, size);
    if k == 1 {
      assert ds == [first];
      assert Cat(ds[..0]) == [];
      assert Cat(ds) == first;
    } else {
      FirstBlocks(cs, first, size, k - 1);
      assert ds[..k - 1] == cs[..k - 1][0 := first];
      assert Cat(ds) == Cat(ds[..k - 1]) + Empties<T>(size);
    }
  }

  class Select<T(==)> {
    var root: Node<T>
    var idx: map<T, nat>

    ghost predicate Valid()
      reads this
    {
      Ok(root) && Indexed(Flat(root), idx)
    }

    /** The weights by item. */
    ghost function Weights(): map<T, nat>
      requires Valid()
      reads this
    {
      Stored(Flat(root), idx)
    }

    constructor ()
      ensures Valid() && Weights() == map[]
    {
      root, idx := EmptyNode(0), map[];
    }

    /** setWeight: exactly the item's weight changes, and a zero weight takes it out.  The index finds every
        item again, also after the tree has grown a level. */
    method SetItem(item: T, weight: nat)
      requires Valid()
      modifies this
      ensures Valid() && Weights() == WithWeight(old(Weights()), item, weight)
      ensures root.sum == old(root.sum) + weight - (if item in old(Weights()) then old(Weights())[item] else 0)
      ensures item in old(idx) ==> OneSlot(Flat(old(root)), Flat(root), old(idx)[item], weight)
    {
      hide Ok, Flat, Indexed, Stored, WithWeight;
      ghost var s, i0 := Flat(root), idx;
      IndexedAt(s, idx, item);
      if item in idx {
        ghost var i := idx[item];
        root := SetWeight(root, idx[item], weight);
        if weight == 0 { idx := idx - {item}; }
        StoredSet(s, i0, i, item, weight);
      } else if weight != 0 {
        if root.count == root.max {
          var newRoot := Node(root.level + 1, NoChildren()[0 := Sub(root)], NoWeights()[0 := root.sum],
                              root.sum, root.count, root.max * BRANCHES);
          NewLevel(root, newRoot);
          MoreRoom(root, newRoot);
          IndexGrows(s, idx, newRoot.max - root.max);
          root := newRoot;
        }
        CountBound(root);
        ghost var t := Flat(root);
        var at;
        root, at := Insert(root, item, weight);
        idx := idx[item := at];
        StoredInsert(t, i0, at, item, weight);
      } else {
        StoredNone(s, idx, item);
      }
    }

    /** choose: draws until an item is accepted, asking for the drawn item's weight at each draw; every rejected
        draw lowers the stored sum to it, so the loop ends.  Every draw finds the slot that the cumulative scan finds
        and stores the weight the item has now.  The first draw that is kept is the choice. */
    method ChooseItem(draw: nat -> nat, coin: nat -> nat, present: (nat, T) -> nat) returns (choice: Option<T>, ghost rounds: seq<Round<T>>)
      requires Valid()
      modifies this
      ensures Valid() && Drawing(Flat(old(root)), rounds, draw, coin, present) && Flat(root) == Left(Flat(old(root)), rounds)
      ensures forall k :: 0 <= k < |rounds| ==> (Kept(rounds[k]) <==> choice.Some? && k == |rounds| - 1)
      ensures choice.Some? ==> |rounds| > 0 && choice.value == rounds[|rounds| - 1].item
      ensures choice.Some? ==> choice.value in Weights() && present(|rounds| - 1, choice.value) == Weights()[choice.value]
      ensures choice.None? ==> Weights() == map[]
      ensures Adjusted(old(Weights()), Weights(), present, |rounds|)
    {
      hide Ok, Flat, Indexed, Adjusted, Drawing, Drawn, Left, Kept, Settled, Stored;
      ghost var m, flat := Weights(), Flat(root);
      AdjustedNone(m, present);
      rounds := [];
      DrawingNone(flat, draw, coin, present);
      var k := 0;
      while true
        invariant Valid() && |rounds| == k && Adjusted(m, Weights(), present, k)
        invariant Drawing(flat, rounds, draw, coin, present) && Flat(root) == Left(flat, rounds)
        invariant forall i :: 0 <= i < k ==> !Kept(rounds[i])
        decreases root.sum
      {
        if root.sum == 0 {
          NoneLeft(root, idx);
          return None, rounds;
        }
        ghost var before := Weights();
        var item, last, weight, r := DrawOnce(draw(k) % root.sum, coin(k), x => present(k, x));
        AdjustedMore(m, before, Weights(), present, k, item);
        DrawingMore(flat, rounds, draw, coin, present, r);
        rounds := rounds + [r];
        KeptIs(r);
        if weight >= last || coin(k) % last < weight { return Some(item), rounds; }
        k := k + 1;
      }
    }

    /** One draw: the item found is stored with the weight it has. */
    method DrawOnce(val: nat, ghost coin: nat, present: T -> nat) returns (item: T, last: nat, weight: nat, ghost r: Round<T>)
      requires Valid() && val < root.sum
      modifies this
      ensures Valid() && WeightOf(Flat(old(root))) == old(root.sum)
      ensures r == Round(Flat(old(root)), val, coin, item, last, weight) && Drawn(r) && Flat(root) == Settled(r)
      ensures weight == present(item) && last > 0 && item in old(Weights()) && old(Weights())[item] == last
      ensures Weights() == if weight == last then old(Weights()) else WithWeight(old(Weights()), item, weight)
      ensures root.sum == old(root.sum) + weight - last
    {
      hide Ok, Flat, Indexed, Stored, WithWeight;
      ghost var at;
      item, last, at := Choose(root, val);
      ChosenIndexed(root, idx, at, item, last);
      weight := present(item);
      r := Round(Flat(root), val, coin, item, last, weight);
      SameWeight(r);
      ChosenAt(Flat(root), idx, at, item, last);
      if weight != last { SetItem(item, weight); }
    }
  }

  // ---------------------------------------------------------------- the draws

  /** One draw of choose: the slots it was made from, the two random numbers, the item found with the weight it was
      stored with, and the weight it has. */
  datatype Round<T> = Round(flat: seq<Entry<T>>, val: nat, coin: nat, item: T, last: nat, weight: nat)

  ghost predicate Drawn<T>(r: Round<T>) {
    r.val < WeightOf(r.flat) && r.last > 0 && r.flat[Scan(r.flat, r.val)] == Held(r.item, r.last)
  }

  /** A draw is kept if the weight has not fallen, and otherwise by the share that is left of it. */
  ghost predicate Kept<T>(r: Round<T>) { r.last > 0 && (r.weight >= r.last || r.coin % r.last < r.weight) }

  /** The slots after the draw. */
  ghost function Settled<T>(r: Round<T>): seq<Entry<T>> {
    if Drawn(r) then r.flat[Scan(r.flat, r.val) := Reweighed(r.flat[Scan(r.flat, r.val)], r.weight)] else r.flat
  }

  ghost function Left<T>(flat: seq<Entry<T>>, rounds: seq<Round<T>>): seq<Entry<T>> {
    if rounds == [] then flat else Settled(rounds[|rounds| - 1])
  }

  /** The draws follow from one another and from the random numbers. */
  ghost predicate Drawing<T>(flat: seq<Entry<T>>, rounds: seq<Round<T>>, draw: nat -> nat, coin: nat -> nat, present: (nat, T) -> nat) {
    forall k :: 0 <= k < |rounds| ==>
      && rounds[k].flat == Left(flat, rounds[..k]) && Drawn(rounds[k]) && rounds[k].val == draw(k) % WeightOf(rounds[k].flat)
      && rounds[k].coin == coin(k) && rounds[k].weight == present(k, rounds[k].item)
  }

  lemma DrawingNone<T>(flat: seq<Entry<T>>, draw: nat -> nat, coin: nat -> nat, present: (nat, T) -> nat)
    ensures Drawing(flat, [], draw, coin, present) && Left(flat, []) == flat
  {}

  lemma DrawingMore<T>(flat: seq<Entry<T>>, rounds: seq<Round<T>>, draw: nat -> nat, coin: nat -> nat, present: (nat, T) -> nat, r: Round<T>)
    requires Drawing(flat, rounds, draw, coin, present) && r.flat == Left(flat, rounds) && Drawn(r)
    requires r.val == draw(|rounds|) % WeightOf(r.flat) && r.coin == coin(|rounds|) && r.weight == present(|rounds|, r.item)
    ensures Drawing(flat, rounds + [r], draw, coin, present) && Left(flat, rounds + [r]) == Settled(r)
  {
    hide Left;
    var all := rounds + [r];
    forall k | 0 <= k < |all|
      ensures && all[k].flat == Left(flat, all[..k]) && Drawn(all[k]) && all[k].val == draw(k) % WeightOf(all[k].flat)
              && all[k].coin == coin(k) && all[k].weight == present(k, all[k].item)
    {
      if k < |rounds| { assert all[k] == rounds[k] && all[..k] == rounds[..k]; } else { assert all[..k] == rounds; }
    }
    assert Left(flat, all) == Settled(r) by { LastRound(flat, rounds, r); }
  }

  lemma LastRound<T>(flat: seq<Entry<T>>, rounds: seq<Round<T>>, r: Round<T>)
    ensures Left(flat, rounds + [r]) == Settled(r)
  {}

  lemma ChosenAt<T>(s: seq<Entry<T>>, idx: map<T, nat>, at: nat, item: T, last: nat)
    requires Indexed(s, idx) && at < |s| && s[at] == Held(item, last)
    ensures item in idx && idx[item] == at
  {}

  lemma SameWeight<T>(r: Round<T>)
    requires Drawn(r)
    ensures r.weight == r.last ==> Settled(r) == r.flat
  {}

  lemma KeptIs<T>(r: Round<T>)
    requires r.last > 0
    ensures Kept(r) <==> r.weight >= r.last || r.coin % r.last < r.weight
  {}

  /** Of the pairs of a number that draws the slot and a coin below its stored weight, an item whose weight has
      fallen keeps the share of the weight it has: as many pairs as that weight, for each unit of the stored one. */
  lemma KeptShare<T>(n: Node<T>, i: nat, weight: nat)
    requires Ok(n) && i < n.max && weight <= EntryWeight(Flat(n)[i])
    ensures WeightOf(Flat(n)) == n.sum && |KeptPairs(n, i, weight)| == EntryWeight(Flat(n)[i]) * weight
  {
    hide Flat;
    DrawsAreProportional(n, i);
    PairCount(Draws(n, i), weight);
    assert KeptPairs(n, i, weight) == Pairs(Draws(n, i), weight);
  }

  ghost function KeptPairs<T>(n: Node<T>, i: nat, weight: nat): set<(nat, nat)>
    requires Ok(n) && i < n.max && WeightOf(Flat(n)) == n.sum
  {
    set v, c | v in Draws(n, i) && 0 <= c < EntryWeight(Flat(n)[i]) && c < weight :: (v, c)
  }

  ghost function Pairs(vs: set<nat>, weight: nat): set<(nat, nat)> { set v, c | v in vs && 0 <= c < weight :: (v, c) }

  lemma {:induction false} PairCount(vs: set<nat>, weight: nat)
    ensures |Pairs(vs, weight)| == |vs| * weight
    decreases weight
  {
    if weight == 0 {
      assert Pairs(vs, 0) == {};
    } else {
      PairCount(vs, weight - 1);
      var row := Row(vs, weight - 1);
      RowCount(vs, weight - 1);
      assert Pairs(vs, weight) == Pairs(vs, weight - 1) + row;
      assert |vs| * weight == |vs| * (weight - 1) + |vs|;
    }
  }

  ghost function Row(vs: set<nat>, c: nat): set<(nat, nat)> { set v | v in vs :: (v, c) }

  lemma {:induction false} RowCount(vs: set<nat>, c: nat)
    ensures |Row(vs, c)| == |vs|
    decreases |vs|
  {
    if vs == {} {
      assert Row(vs, c) == {};
    } else {
      var v :| v in vs;
      RowCount(vs - {v}, c);
      assert Row(vs, c) == Row(vs - {v}, c) + {(v, c)};
    }
  }

  /** One of the first draws found the item with this weight. */
  ghost predicate Found<T>(present: (nat, T) -> nat, draws: nat, x: T, weight: nat) {
    exists k: nat :: k < draws && present(k, x) == weight
  }

  /** Only what was found without weight is lost, and every stored weight is the old one or one that was found. */
  ghost predicate Adjusted<T>(m: map<T, nat>, m': map<T, nat>, present: (nat, T) -> nat, draws: nat) {
    && (forall x :: x in m && x !in m' ==> Found(present, draws, x, 0))
    && (forall x :: x in m' ==> x in m && (m'[x] == m[x] || Found(present, draws, x, m'[x])))
  }

  lemma AdjustedNone<T>(m: map<T, nat>, present: (nat, T) -> nat)
    ensures Adjusted(m, m, present, 0)
  {}

  lemma AdjustedMore<T>(m: map<T, nat>, before: map<T, nat>, after: map<T, nat>, present: (nat, T) -> nat, k: nat, item: T)
    requires Adjusted(m, before, present, k) && item in before
    requires after == WithWeight(before, item, present(k, item)) || (after == before && before[item] == present(k, item))
    ensures Adjusted(m, after, present, k + 1)
  {
    assert Found(present, k + 1, item, present(k, item));
    forall x, w | x in m && Found(present, k, x, w) ensures Found(present, k + 1, x, w) {}
  }

  lemma IndexedAt<T>(s: seq<Entry<T>>, idx: map<T, nat>, item: T)
    requires Indexed(s, idx)
    ensures item in idx ==> idx[item] < |s| && s[idx[item]].Held? && s[idx[item]].item == item
    ensures item in Stored(s, idx) <==> item in idx
    ensures item in idx ==> Stored(s, idx)[item] == s[idx[item]].weight
  {}

  lemma StoredSet<T>(s: seq<Entry<T>>, idx: map<T, nat>, i: nat, item: T, weight: nat)
    requires Indexed(s, idx) && item in idx && idx[item] == i
    ensures i < |s|
    ensures var idx' := if weight == 0 then idx - {item} else idx;
            var s' := s[i := Reweighed(s[i], weight)];
            Indexed(s', idx') && Stored(s', idx') == WithWeight(Stored(s, idx), item, weight)
  {}

  lemma StoredInsert<T>(s: seq<Entry<T>>, idx: map<T, nat>, i: nat, item: T, weight: nat)
    requires Indexed(s, idx) && item !in idx && i < |s| && s[i] == Empty && weight > 0
    ensures Indexed(s[i := Held(item, weight)], idx[item := i])
    ensures Stored(s[i := Held(item, weight)], idx[item := i]) == WithWeight(Stored(s, idx), item, weight)
  {}

  lemma StoredNone<T>(s: seq<Entry<T>>, idx: map<T, nat>, item: T)
    requires Indexed(s, idx) && item !in idx
    ensures WithWeight(Stored(s, idx), item, 0) == Stored(s, idx)
  {}

  lemma IndexGrows<T>(s: seq<Entry<T>>, idx: map<T, nat>, k: nat)
    requires Indexed(s, idx)
    ensures Indexed(s + Empties<T>(k), idx) && Stored(s + Empties<T>(k), idx) == Stored(s, idx)
  {}

  lemma MoreRoom<T>(root: Node<T>, root': Node<T>)
    requires Ok(root) && root'.max == root.max * BRANCHES && root'.count == root.count == root.max
    ensures root'.count < root'.max
  {}

  lemma NoneLeft<T>(root: Node<T>, idx: map<T, nat>)
    requires Ok(root) && Indexed(Flat(root), idx) && root.sum == 0
    ensures Stored(Flat(root), idx) == map[]
  {
    hide Flat;
    FlatTotals(root);
    var s := Flat(root);
    forall x | x in idx ensures false {
      PartWeighs(s, idx[x]);
    }
  }

  lemma {:induction false} PartWeighs<T>(s: seq<Entry<T>>, i: nat)
    requires i < |s|
    ensures EntryWeight(s[i]) <= WeightOf(s)
  {
    if i < |s| - 1 { PartWeighs(s[..|s| - 1], i); }
  }

  lemma ChosenIndexed<T>(root: Node<T>, idx: map<T, nat>, at: nat, item: T, last: nat)
    requires Ok(root) && Indexed(Flat(root), idx) && at < root.max && Flat(root)[at] == Held(item, last)
    ensures item in Stored(Flat(root), idx) && Stored(Flat(root), idx)[item] == last && last > 0
  {
    hide Flat, Ok;
  }
}
