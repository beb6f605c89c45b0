/** Fork walks: FindCommonAncestor (chain/core/database_util.go) and the walk with which the
    transaction pool finds the transactions to reinject (chain/core/tx_pool.go, reset). */
module ForkWalk {
  import opened Options
  import opened Chain

  ghost predicate Common(store: set<Block>, a: Block, b: Block, c: Block) {
    IsAncestor(store, c, a) && IsAncestor(store, c, b)
  }

  /** No common ancestor, or the highest one. */
  ghost predicate ForkPoint(store: set<Block>, a: Block, b: Block, r: Option<Block>) {
    match r
    case None => forall c :: !Common(store, a, b, c)
    case Some(f) => Common(store, a, b, f) && forall c :: Common(store, a, b, c) ==> c.number <= f.number
  }

  lemma ForkPointUnique(store: set<Block>, a: Block, b: Block, r: Option<Block>, r': Option<Block>)
    requires ForkPoint(store, a, b, r) && ForkPoint(store, a, b, r')
    ensures r == r'
  {
    if r.Some? { ForkPointAbove(store, a, b, r', r.value); }
    if r'.Some? { ForkPointAbove(store, a, b, r, r'.value); }
  }

  lemma ForkPointAbove(store: set<Block>, a: Block, b: Block, r: Option<Block>, c: Block)
    requires ForkPoint(store, a, b, r) && Common(store, a, b, c)
    ensures r.Some? && c.number <= r.value.number
  {}

  /** Below a block, its ancestors are its parent's. */
  lemma CommonDown(store: set<Block>, a: Block, p: Block)
    requires Parent(store, a) == Some(p)
    ensures forall c: Block :: c.number < a.number ==> (IsAncestor(store, c, a) <==> IsAncestor(store, c, p))
  {}

  lemma MeetDown(store: set<Block>, a: Block, b: Block, p: Block, r: Option<Block>)
    requires Parent(store, a) == Some(p) && b.number < a.number && ForkPoint(store, p, b, r)
    ensures ForkPoint(store, a, b, r) && ForkPoint(store, b, a, r)
  {
    CommonDown(store, a, p);
    forall c ensures Common(store, a, b, c) <==> Common(store, p, b, c) {}
    forall c ensures Common(store, b, a, c) <==> Common(store, a, b, c) {}
  }

  lemma MeetBoth(store: set<Block>, a: Block, b: Block, p: Block, q: Block, r: Option<Block>)
    requires Parent(store, a) == Some(p) && Parent(store, b) == Some(q) && a != b && a.number == b.number
    requires ForkPoint(store, p, q, r)
    ensures ForkPoint(store, a, b, r)
  {
    CommonDown(store, a, p);
    CommonDown(store, b, q);
    forall c ensures Common(store, a, b, c) <==> Common(store, p, q, c) {}
  }

  lemma MeetNone(store: set<Block>, a: Block, b: Block)
    requires Parent(store, a).None? && b.number <= a.number && a != b
    ensures ForkPoint(store, a, b, None) && ForkPoint(store, b, a, None)
  {
    StepDown(store, a, a);
    forall c ensures !Common(store, a, b, c) && !Common(store, b, a, c) {
      assert IsAncestor(store, c, a) ==> c.number >= a.number;
    }
  }

  /** Where two chains meet: their highest common stored ancestor. */
  ghost function Meet(store: set<Block>, a: Block, b: Block): Option<Block>
    decreases a.number + b.number
  {
    if a == b then Some(a)
    else if a.number > b.number then
      if Parent(store, a).None? then None else Meet(store, Parent(store, a).value, b)
    else if b.number > a.number then
      if Parent(store, b).None? then None else Meet(store, a, Parent(store, b).value)
    else if Parent(store, a).None? || Parent(store, b).None? then None
    else Meet(store, Parent(store, a).value, Parent(store, b).value)
  }

  lemma {:induction false} MeetIsFork(store: set<Block>, a: Block, b: Block)
    ensures ForkPoint(store, a, b, Meet(store, a, b))
    decreases a.number + b.number
  {
    hide ForkPoint;
    if a == b {
      assert ForkPoint(store, a, b, Some(a)) by { SelfFork(store, a); }
    } else if a.number > b.number {
      if Parent(store, a).None? { MeetNone(store, a, b); }
      else {
        MeetIsFork(store, Parent(store, a).value, b);
        MeetDown(store, a, b, Parent(store, a).value, Meet(store, a, b));
      }
    } else if b.number > a.number {
      if Parent(store, b).None? { MeetNone(store, b, a); }
      else {
        MeetIsFork(store, a, Parent(store, b).value);
        ForkSwaps(store, a, Parent(store, b).value, Meet(store, a, b));
        MeetDown(store, b, a, Parent(store, b).value, Meet(store, a, b));
      }
    } else if Parent(store, a).None? { MeetNone(store, a, b); }
    else if Parent(store, b).None? { MeetNone(store, b, a); }
    else {
      MeetIsFork(store, Parent(store, a).value, Parent(store, b).value);
      MeetBoth(store, a, b, Parent(store, a).value, Parent(store, b).value, Meet(store, a, b));
    }
  }

  lemma SelfFork(store: set<Block>, a: Block)
    ensures ForkPoint(store, a, a, Some(a))
  {}

  lemma ForkSwaps(store: set<Block>, a: Block, b: Block, r: Option<Block>)
    requires ForkPoint(store, a, b, r)
    ensures ForkPoint(store, b, a, r)
  {
    forall c ensures Common(store, b, a, c) <==> Common(store, a, b, c) {}
  }

  /** The walk stands at `x`, an ancestor of its start `x0`. */
  ghost predicate Down(store: set<Block>, x0: Block, x: Block) { IsAncestor(store, x, x0) }

  lemma StepDown(store: set<Block>, x0: Block, x: Block)
    requires Down(store, x0, x)
    ensures Parent(store, x).Some? ==> Down(store, x0, Parent(store, x).value)
    ensures Parent(store, x).None? ==> forall c :: IsAncestor(store, c, x0) ==> c.number >= x.number
  {
    if x.number > 0 {
      AncestorThrough(store, x0, x, x.number - 1);
    }
    if Parent(store, x).None? {
      forall c | IsAncestor(store, c, x0) ensures c.number >= x.number {
        if c.number < x.number { AncestorThrough(store, x0, x, c.number); }
      }
    }
  }

  /** Every common ancestor is at or below the two walkers. */
  ghost predicate Below(store: set<Block>, a0: Block, b0: Block, n: nat) {
    forall c :: Common(store, a0, b0, c) ==> c.number <= n
  }

  lemma NotHere(store: set<Block>, a0: Block, b0: Block, a: Block, b: Block)
    requires Down(store, a0, a) && Down(store, b0, b) && a.number == b.number && a != b
    requires Below(store, a0, b0, a.number)
    ensures a.number > 0 ==> Below(store, a0, b0, a.number - 1)
    ensures a.number == 0 ==> forall c :: !Common(store, a0, b0, c)
  {
    forall c | Common(store, a0, b0, c) ensures c.number < a.number {}
  }

  /** `FindCommonAncestor`: descend the higher side, then both.  Correct on every store. */
  method FindCommonAncestor(store: set<Block>, a0: Block, b0: Block) returns (r: Option<Block>)
    ensures ForkPoint(store, a0, b0, r)
  {
    var a, b := a0, b0;
    while a.number > b.number
      invariant Down(store, a0, a) && (a == a0 || a.number >= b0.number)
      decreases a.number
    {
      StepDown(store, a0, a);
      var p := Parent(store, a);
      if p.None? { return None; }
      a := p.value;
    }
    while a.number < b.number
      invariant Down(store, a0, a) && Down(store, b0, b) && b.number >= a.number
      invariant Below(store, a0, b0, a.number)
      decreases b.number
    {
      StepDown(store, b0, b);
      var p := Parent(store, b);
      if p.None? { return None; }
      b := p.value;
    }
    while a != b
      invariant Down(store, a0, a) && Down(store, b0, b) && a.number == b.number
      invariant Below(store, a0, b0, a.number)
      decreases a.number
    {
      NotHere(store, a0, b0, a, b);
      StepDown(store, a0, a);
      StepDown(store, b0, b);
      var p := Parent(store, a);
      if p.None? { return None; }
      a := p.value;
      p := Parent(store, b);
      if p.None? { return None; }
      b := p.value;
    }
    return Some(a);
  }

  /** On a store where both blocks descend from one genesis there is always a fork point. */
  lemma RootedFork(store: set<Block>, a: Block, b: Block, genesis: Block, r: Option<Block>)
    requires genesis.number == 0 && Common(store, a, b, genesis) && ForkPoint(store, a, b, r)
    ensures r.Some?
  {}

  // ---------------------------------------------------------------- transactions on a branch

  /** The transactions of `b` and its ancestors above height `k`, from `b` downwards. */
  function BranchTxs(store: set<Block>, b: Block, k: nat): seq<TxHash>
    decreases b.number
  {
    if b.number <= k then []
    else match Parent(store, b)
         case None => b.txs
         case Some(p) => b.txs + BranchTxs(store, p, k)
  }

  /** A transaction is listed exactly when some block above height `k` holds it. */
  lemma {:induction false} BranchTxsMembers(store: set<Block>, b: Block, k: nat, tx: TxHash)
    requires AncestorAt(store, b, k).Some?
    ensures tx in BranchTxs(store, b, k) <==>
            exists c :: IsAncestor(store, c, b) && c.number > k && tx in c.txs
    decreases b.number
  {
    if b.number > k {
      var p := Parent(store, b).value;
      BranchTxsMembers(store, p, k, tx);
      forall c: Block | c.number < b.number ensures IsAncestor(store, c, b) <==> IsAncestor(store, c, p) {}
      if c :| IsAncestor(store, c, b) && c.number > k && tx in c.txs {
        assert c.number == b.number ==> c == b;
      }
      if tx in b.txs { assert IsAncestor(store, b, b); }
    }
  }

  lemma {:induction false} BranchTxsSplit(store: set<Block>, b: Block, m: Block, k: nat)
    requires IsAncestor(store, m, b) && k <= m.number
    ensures BranchTxs(store, b, k) == BranchTxs(store, b, m.number) + BranchTxs(store, m, k)
    decreases b.number
  {
    if m.number < b.number {
      BranchTxsSplit(store, Parent(store, b).value, m, k);
    }
  }

  /** `types.TxDifference`: the transactions of `a` that `b` does not list, in order. */
  function TxDifference(a: seq<TxHash>, b: seq<TxHash>): (r: seq<TxHash>)
    ensures forall tx :: tx in r <==> tx in a && tx !in b
  {
    if a == [] then []
    else (if a[0] in b then [] else [a[0]]) + TxDifference(a[1..], b)
  }

  // ---------------------------------------------------------------- the pool's walk

  const MAX_REORG_DEPTH: nat := 64

  datatype Walk = Unrooted | Reinject(txs: seq<TxHash>)

  /** The walk of `reset` for two stored heads; `Unrooted` is its early return. */
  method ReorgWalk(store: set<Block>, oldHead: Block, newHead: Block) returns (w: Walk, ghost fork: Option<Block>)
    ensures ForkPoint(store, oldHead, newHead, fork)
    ensures w.Unrooted? <==> fork.None?
    ensures fork.Some? ==> w == Reinject(TxDifference(BranchTxs(store, oldHead, fork.value.number),
                                                      BranchTxs(store, newHead, fork.value.number)))
    ensures w.Unrooted? ==> forall c :: !Common(store, oldHead, newHead, c)
  {
    var rem, add := oldHead, newHead;
    var discarded, included := [], [];
    while rem.number > add.number
      invariant Down(store, oldHead, rem) && (rem == oldHead || rem.number >= newHead.number)
      invariant discarded == BranchTxs(store, oldHead, rem.number)
      decreases rem.number
    {
      StepDown(store, oldHead, rem);
      DownTxs(store, oldHead, rem);
      discarded := discarded + rem.txs;
      var p := Parent(store, rem);
      if p.None? { return Unrooted, None; }
      rem := p.value;
    }
    while add.number > rem.number
      invariant Down(store, oldHead, rem) && Down(store, newHead, add) && add.number >= rem.number
      invariant Below(store, oldHead, newHead, rem.number)
      invariant discarded == BranchTxs(store, oldHead, rem.number)
      invariant included == BranchTxs(store, newHead, add.number)
      decreases add.number
    {
      StepDown(store, newHead, add);
      DownTxs(store, newHead, add);
      included := included + add.txs;
      var p := Parent(store, add);
      if p.None? { return Unrooted, None; }
      add := p.value;
    }
    while rem != add
      invariant Down(store, oldHead, rem) && Down(store, newHead, add) && rem.number == add.number
      invariant Below(store, oldHead, newHead, rem.number)
      invariant discarded == BranchTxs(store, oldHead, rem.number)
      invariant included == BranchTxs(store, newHead, add.number)
      decreases rem.number
    {
      NotHere(store, oldHead, newHead, rem, add);
      StepDown(store, oldHead, rem);
      StepDown(store, newHead, add);
      DownTxs(store, oldHead, rem);
      DownTxs(store, newHead, add);
      discarded := discarded + rem.txs;
      var p := Parent(store, rem);
      if p.None? { return Unrooted, None; }
      rem := p.value;
      included := included + add.txs;
      p := Parent(store, add);
      if p.None? { return Unrooted, None; }
      add := p.value;
    }
    w, fork := Reinject(TxDifference(discarded, included)), Some(rem);
  }

  lemma DownTxs(store: set<Block>, x0: Block, x: Block)
    requires Down(store, x0, x)
    ensures x.number > 0 ==> BranchTxs(store, x0, x.number - 1) == BranchTxs(store, x0, x.number) + x.txs
  {
    if x.number > 0 {
      BranchTxsSplit(store, x0, x, x.number - 1);
      if Parent(store, x).Some? { assert BranchTxs(store, Parent(store, x).value, x.number - 1) == []; }
    }
  }

  /** What `reset` reinjects when the head moves from one stored block to another. */
  method Reinjected(store: set<Block>, oldHead: Block, newHead: Block) returns (w: Walk)
    ensures newHead.parent != Of(oldHead) && AbsDiff(oldHead.number, newHead.number) <= MAX_REORG_DEPTH ==>
              ReinjectsExactly(store, oldHead, newHead, w)
    ensures newHead.parent == Of(oldHead) || AbsDiff(oldHead.number, newHead.number) > MAX_REORG_DEPTH ==>
              w == Reinject([])
  {
    w := Reinject([]);
    if newHead.parent != Of(oldHead) {
      if AbsDiff(oldHead.number, newHead.number) <= MAX_REORG_DEPTH {
        ghost var fork;
        w, fork := ReorgWalk(store, oldHead, newHead);
        if fork.Some? {
          forall tx | true ensures tx in w.txs <==> OldBranchOnly(store, oldHead, newHead, fork.value, tx) {
            BranchTxsMembers(store, oldHead, fork.value.number, tx);
            BranchTxsMembers(store, newHead, fork.value.number, tx);
          }
        }
      }
    }
  }

  function AbsDiff(a: nat, b: nat): nat { if a > b then a - b else b - a }

  ghost predicate OnBranch(store: set<Block>, head: Block, fork: Block, tx: TxHash) {
    exists c :: IsAncestor(store, c, head) && c.number > fork.number && tx in c.txs
  }

  ghost predicate OldBranchOnly(store: set<Block>, oldHead: Block, newHead: Block, fork: Block, tx: TxHash) {
    OnBranch(store, oldHead, fork, tx) && !OnBranch(store, newHead, fork, tx)
  }

  /** Exactly the transactions on the old branch above the highest common ancestor that are not on
      the new branch; nothing is decided when there is no common ancestor. */
  ghost predicate ReinjectsExactly(store: set<Block>, oldHead: Block, newHead: Block, w: Walk) {
    match w
    case Unrooted => forall c :: !Common(store, oldHead, newHead, c)
    case Reinject(txs) =>
      exists fork :: ForkPoint(store, oldHead, newHead, Some(fork)) &&
        forall tx :: tx in txs <==> OldBranchOnly(store, oldHead, newHead, fork, tx)
  }
}
