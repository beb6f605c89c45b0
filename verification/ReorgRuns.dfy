/** Runs of WriteBlockAndState (chain/core/blockchain.go): wins of any height, side blocks, blocks
    without a known parent and blocks whose chain does not meet the head's, in any order. */
module ReorgRuns {
  import opened Options
  import opened Chain
  import opened ForkWalk
  import opened Reorg

  datatype Write = Write(block: Block, coin: bool)

  /** The head has a known total difficulty, before and after every write. */
  lemma HeadKeepsTd(s: State, w: Write)
    requires s.head in s.tds
    ensures var s' := Written(s, w.block, w.coin); s'.head in s'.tds
  {
    hide Meet, Branch, BranchTxs, AddEntries, InsertAll;
    if Decide(s, w.block, w.coin).Canonical? { WonTds(WithTd(s, w.block), w.block, ForkHeight(s, w.block)); }
  }

  ghost function ForkHeight(s: State, b: Block): nat {
    if Meet(s.blocks, s.head, b).Some? then Meet(s.blocks, s.head, b).value.number else 0
  }

  lemma WonTds(s: State, b: Block, k: nat)
    ensures Won(s, b, k).tds == s.tds && Won(s, b, k).head == b && Won(s, b, k).blocks == s.blocks + {b}
  {
    hide Branch, BranchTxs, AddEntries, InsertAll;
    var chain := Branch(s.blocks, b, k);
    InsertAllLookup(s, chain, |chain|);
  }

  ghost function Run(s: State, writes: seq<Write>): (r: State)
    requires s.head in s.tds
    ensures r.head in r.tds
    decreases |writes|
  {
    if writes == [] then s
    else
      HeadKeepsTd(s, writes[0]);
      Run(Written(s, writes[0].block, writes[0].coin), writes[1..])
  }

  /** No block is written whose chain would hold a transaction twice (its nonce would be refused). */
  ghost predicate Plausible(s: State, writes: seq<Write>)
    requires s.head in s.tds
    decreases |writes|
  {
    writes == [] ||
    (&& NoRepeat(s.blocks, writes[0].block)
     && (HeadKeepsTd(s, writes[0]); Plausible(Written(s, writes[0].block, writes[0].coin), writes[1..])))
  }

  // ---------------------------------------------------------------- what every run keeps

  ghost predicate Weighed(s: State) {
    && s.blocks <= s.tds.Keys
    && (forall x :: x in s.tds ==> s.tds[x] == TotalDifficulty(x))
  }

  /** No stored block is heavier than the head. */
  ghost predicate Heaviest(s: State) {
    forall x :: x in s.blocks ==> TotalDifficulty(x) <= TotalDifficulty(s.head)
  }

  ghost predicate Rooted(s: State) { s.head in s.blocks && AncestorAt(s.blocks, s.head, 0).Some? }

  /** Every index entry, stale or not, is a stored block. */
  ghost predicate IndexStored(s: State) { forall k: nat :: k in s.canon ==> s.canon[k] in s.blocks }

  ghost predicate Sound(s: State) { Indexed(s) && Rooted(s) && Weighed(s) && Heaviest(s) && IndexStored(s) }

  function Genesis(g: Block): State { State({g}, map[g := g.difficulty], map[0 := g], map[], g, g, g) }

  lemma GenesisSound(g: Block)
    requires g.number == 0 && g.parent == Zero && g.txs == []
    ensures Sound(Genesis(g)) && Exact(Genesis(g))
  {
    forall c | IsAncestor({g}, c, g) ensures c == g {}
  }

  /** Storing a block beside the head's chain changes neither index's meaning. */
  lemma StoreSide(s: State, b: Block)
    requires Indexed(s) && Rooted(s)
    ensures Indexed(s.(blocks := s.blocks + {b})) && Rooted(s.(blocks := s.blocks + {b}))
  {
    var store := s.blocks + {b};
    forall k: nat | k <= s.head.number ensures AncestorAt(store, s.head, k) == AncestorAt(s.blocks, s.head, k) {
      AncestorLower(s.blocks, s.head, 0, k);
      AncestorGrows(s.blocks, store, s.head, k);
    }
    assert forall c :: IsAncestor(store, c, s.head) <==> IsAncestor(s.blocks, c, s.head);
    assert forall tx, e :: At(store, s.head, tx, e) <==> At(s.blocks, s.head, tx, e);
  }

  /** A block that becomes canonical has all its ancestors stored and meets the head's chain. */
  lemma CanonicalWritable(s: State, b: Block, coin: bool)
    requires Rooted(s) && s.head in s.tds && Decide(s, b, coin).Canonical?
    ensures Meet(s.blocks, s.head, b).Some? && Writable(WithTd(s, b), b, Meet(s.blocks, s.head, b).value)
  {
    hide Meet;
    MeetIsFork(s.blocks, s.head, b);
    if b.parent == Of(s.head) {
      assert Parent(s.blocks, b) == Some(s.head);
      assert Common(s.blocks, s.head, b, s.head);
    }
    var fork := Meet(s.blocks, s.head, b).value;
    AncestorThrough(s.blocks, s.head, fork, 0);
    AncestorThrough(s.blocks, b, fork, 0);
  }

  lemma WonSound(s: State, b: Block, coin: bool)
    requires Sound(s) && s.head in s.tds && NoRepeat(s.blocks, b) && Decide(s, b, coin).Canonical?
    ensures Sound(Written(s, b, coin))
    ensures SameAbove(s.canon, Written(s, b, coin).canon, b.number)
  {
    hide Meet, Won, NoRepeat, LookupExact, AncestorAt;
    var s1 := WithTd(s, b);
    CanonicalWritable(s, b, coin);
    var fork := Meet(s.blocks, s.head, b).value;
    WonIndexed(s1, b, fork);
    WonTds(s1, b, fork.number);
    assert Rooted(Written(s, b, coin)) by { StoreHead(s.blocks, b); }
    assert s1.tds[b] == TotalDifficulty(b);
    WonStored(s1, Written(s, b, coin), b);
  }

  lemma WonStored(s: State, s': State, b: Block)
    requires IndexStored(s) && s'.blocks == s.blocks + {b} && s'.head == b
    requires CanonFollows(s'.blocks, b, s'.canon) && SameAbove(s.canon, s'.canon, b.number)
    ensures IndexStored(s')
  {
    forall k: nat | k in s'.canon ensures s'.canon[k] in s'.blocks {
      if k <= b.number { assert AncestorAt(s'.blocks, b, k) == Some(s'.canon[k]); }
    }
  }

  lemma SideSound(s: State, b: Block, coin: bool)
    requires Sound(s) && s.head in s.tds && Decide(s, b, coin).Side?
    ensures Sound(Written(s, b, coin))
  {
    hide Meet, LookupExact, AncestorAt, CanonFollows;
    StoreSide(s, b);
    assert WithTd(s, b).tds[b] == TotalDifficulty(b);
  }

  /** Every write keeps the indexes exact for the head's chain and the head a heaviest block. */
  lemma WriteKeeps(s: State, w: Write)
    requires Sound(s) && NoRepeat(s.blocks, w.block)
    ensures Sound(Written(s, w.block, w.coin))
    ensures var s' := Written(s, w.block, w.coin);
            forall k: nat :: k > s'.head.number && k > s.head.number ==> (k in s'.canon <==> k in s.canon)
  {
    hide Meet, LookupExact, AncestorAt, NoRepeat, Won;
    match Decide(s, w.block, w.coin)
    case UnknownAncestor =>
    case InvalidChain => assert s.tds[w.block.parent.block] == TotalDifficulty(w.block.parent.block);
    case Side => SideSound(s, w.block, w.coin);
    case Canonical =>
      WonSound(s, w.block, w.coin);
      WonTds(WithTd(s, w.block), w.block, ForkHeight(s, w.block));
  }

  /** Heavier than the head, or as heavy and lower, or as heavy and as high and chosen by the coin. */
  ghost predicate Preferred(head: Block, b: Block, coin: bool) {
    || TotalDifficulty(b) > TotalDifficulty(head)
    || (TotalDifficulty(b) == TotalDifficulty(head) && b.number < head.number)
    || (TotalDifficulty(b) == TotalDifficulty(head) && b.number == head.number && coin)
  }

  /** Is the parent's difficulty known? */
  ghost predicate Attached(s: State, b: Block) { b.parent.Of? && b.parent.block in s.tds && b.parent.block.number + 1 == b.number }

  /** A write is turned away exactly without the parent's difficulty, or if the block is preferred and its chain
      does not meet the head's. */
  lemma TurnedAwayIff(s: State, b: Block, coin: bool)
    requires Sound(s) && s.head in s.tds
    ensures Decide(s, b, coin) == UnknownAncestor <==> !Attached(s, b)
    ensures Decide(s, b, coin) == InvalidChain <==> Attached(s, b) && Preferred(s.head, b, coin) && forall c :: !Common(s.blocks, s.head, b, c)
  {
    hide Meet, LookupExact, AncestorAt, Indexed, IndexStored, Heaviest, Common;
    if Attached(s, b) {
      assert s.tds[b.parent.block] == TotalDifficulty(b.parent.block);
      MeetIsFork(s.blocks, s.head, b);
      if b.parent == Of(s.head) { ChildMeets(s, b); }
    }
  }

  /** A block that is turned away leaves the indexes and the head as they were.  Any other is stored with the
      difficulty of its chain, and becomes the head exactly if it is preferred; if not, neither index changes. */
  lemma HeadChangesIff(s: State, b: Block, coin: bool, s': State)
    requires Sound(s) && s.head in s.tds && s' == Written(s, b, coin)
    ensures Decide(s, b, coin) == UnknownAncestor ==> s' == s
    ensures Decide(s, b, coin) == InvalidChain ==> s' == s.(tds := s.tds[b := TotalDifficulty(b)])
    ensures Decide(s, b, coin) == Side ==>
              !Preferred(s.head, b, coin) && s' == s.(blocks := s.blocks + {b}, tds := s.tds[b := TotalDifficulty(b)])
    ensures Decide(s, b, coin) == Canonical ==>
              Preferred(s.head, b, coin) && s'.head == b && s'.blocks == s.blocks + {b} && s'.tds == s.tds[b := TotalDifficulty(b)]
  {
    hide Meet, LookupExact, AncestorAt, Won, Indexed, IndexStored, Heaviest;
    if HasParentTd(s, b) { assert s.tds[b.parent.block] == TotalDifficulty(b.parent.block); }
    if Decide(s, b, coin).Canonical? { WonTds(WithTd(s, b), b, ForkHeight(s, b)); }
  }

  lemma ChildMeets(s: State, b: Block)
    requires Rooted(s) && b.parent == Of(s.head) && HasParentTd(s, b)
    ensures Common(s.blocks, s.head, b, s.head)
  {
    assert Parent(s.blocks, b) == Some(s.head);
  }

  lemma {:induction false} EveryRun(s: State, writes: seq<Write>)
    requires Sound(s) && Plausible(s, writes)
    ensures Sound(Run(s, writes))
    decreases |writes|
  {
    hide Sound, Written, NoRepeat;
    if writes != [] {
      assert s.head in s.tds by { SoundHead(s); }
      WriteKeeps(s, writes[0]);
      SoundHead(Written(s, writes[0].block, writes[0].coin));
      EveryRun(Written(s, writes[0].block, writes[0].coin), writes[1..]);
    }
  }

  lemma SoundHead(s: State)
    requires Sound(s)
    ensures s.head in s.tds
  {}

  // ---------------------------------------------------------------- the other heads over a run

  /** Header verification admits no other blocks. */
  ghost predicate Positive(blocks: set<Block>) { forall x :: x in blocks && x.number > 0 ==> x.difficulty > 0 }

  /** A proper ancestor is lighter. */
  lemma {:induction false} AncestorLighter(store: set<Block>, c: Block, h: Block)
    requires IsAncestor(store, c, h) && c != h && h.difficulty > 0 && Positive(store)
    ensures TotalDifficulty(c) < TotalDifficulty(h)
    decreases h.number
  {
    var p := Parent(store, h).value;
    if c != p { AncestorLighter(store, c, p); }
  }

  /** With positive difficulties no stored block builds on the head, so the new branch is never indexed. */
  lemma WinIsNew(s: State, b: Block, coin: bool)
    requires Sound(s) && s.head in s.tds && Positive(s.blocks) && b.difficulty > 0 && b != s.head && Decide(s, b, coin).Canonical?
    ensures Meet(s.blocks, s.head, b).Some?
    ensures Meet(s.blocks, s.head, b).value != b && NewAbove(WithTd(s, b), b, Meet(s.blocks, s.head, b).value)
  {
    hide Meet, LookupExact, NewAbove, CanonFollows, IndexStored, AncestorAt;
    CanonicalWritable(s, b, coin);
    var fork := Meet(s.blocks, s.head, b).value;
    assert TotalDifficulty(b) >= TotalDifficulty(s.head);
    if fork == b {
      AncestorLighter(s.blocks, b, s.head);
    } else if fork == s.head {
      AncestorLower(s.blocks, b, fork.number, fork.number + 1);
      HeadHasNoChild(s, b);
    } else {
      NewBelowHead(WithTd(s, b), b, fork);
    }
  }

  lemma HeadHasNoChild(s: State, b: Block)
    requires Heaviest(s) && IndexStored(s) && Positive(s.blocks) && b.difficulty > 0 && IsAncestor(s.blocks, s.head, b) && b != s.head
    requires TotalDifficulty(b) >= TotalDifficulty(s.head) && AncestorAt(s.blocks, b, s.head.number + 1).Some?
    ensures NewAbove(WithTd(s, b), b, s.head)
  {
    var c := AncestorAt(s.blocks, b, s.head.number + 1).value;
    AncestorThrough(s.blocks, b, c, s.head.number);
    assert Parent(s.blocks, c) == Some(s.head);
    assert TotalDifficulty(c) == TotalDifficulty(s.head) + c.difficulty;
    assert c.difficulty > 0;
    assert c !in s.blocks;
  }

  /** Whatever wins brings the header head and the fast head onto the lowest block of its branch: they agree with
      the block head exactly when the branch is that one block. */
  lemma HeadsAfterWrite(s: State, w: Write)
    requires Sound(s) && s.head in s.tds && Positive(s.blocks) && w.block.difficulty > 0
    requires w.block != s.head && Decide(s, w.block, w.coin).Canonical?
    ensures Meet(s.blocks, s.head, w.block).Some?
    ensures var s', fork := Written(s, w.block, w.coin), Meet(s.blocks, s.head, w.block).value;
            && s'.head == w.block && AncestorAt(s.blocks, w.block, fork.number + 1) == Some(s'.headerHead)
            && s'.fastHead == s'.headerHead && (s'.headerHead == s'.head <==> w.block.number == fork.number + 1)
  {
    hide Meet, Won, NewAbove, LookupExact, CanonFollows;
    WinIsNew(s, w.block, w.coin);
    CanonicalWritable(s, w.block, w.coin);
    var fork := Meet(s.blocks, s.head, w.block).value;
    WonTds(WithTd(s, w.block), w.block, fork.number);
    HeadsAfterWin(WithTd(s, w.block), w.block, fork);
  }

  /** Writing the head again, the one other way to win, leaves them where they are. */
  lemma HeadsAfterRewrite(s: State, coin: bool)
    requires Sound(s) && s.head in s.tds && Decide(s, s.head, coin).Canonical?
    ensures Written(s, s.head, coin).headerHead == s.headerHead && Written(s, s.head, coin).fastHead == s.fastHead
  {
    var s1 := WithTd(s, s.head);
    assert Meet(s.blocks, s.head, s.head) == Some(s.head);
    assert s.head.parent != Of(s.head);
    assert Branch(s1.blocks, s.head, s.head.number) == [];
    assert s.canon[s.head.number] == s.head;
  }

  ghost predicate PositiveWrites(writes: seq<Write>) { forall i :: 0 <= i < |writes| ==> writes[i].block.difficulty > 0 }

  lemma {:induction false} RunPositive(s: State, writes: seq<Write>)
    requires s.head in s.tds && Positive(s.blocks) && PositiveWrites(writes)
    ensures Positive(Run(s, writes).blocks)
    decreases |writes|
  {
    if writes != [] {
      HeadKeepsTd(s, writes[0]);
      WriteStores(s, writes[0]);
      hide Written;
      RunPositive(Written(s, writes[0].block, writes[0].coin), writes[1..]);
    }
  }

  lemma WriteStores(s: State, w: Write)
    requires s.head in s.tds
    ensures Written(s, w.block, w.coin).blocks <= s.blocks + {w.block}
  {
    hide Meet, Won;
    if Decide(s, w.block, w.coin).Canonical? { WonTds(WithTd(s, w.block), w.block, ForkHeight(s, w.block)); }
  }

  /** So it is at every write of every run on a chain of positive difficulties, however often the head fell. */
  lemma HeadsInRun(s: State, writes: seq<Write>, w: Write)
    requires Sound(s) && Plausible(s, writes) && Positive(s.blocks) && PositiveWrites(writes + [w])
    requires w.block != Run(s, writes).head && Decide(Run(s, writes), w.block, w.coin).Canonical?
    ensures Meet(Run(s, writes).blocks, Run(s, writes).head, w.block).Some?
    ensures var r := Run(s, writes);
            var r', fork := Written(r, w.block, w.coin), Meet(r.blocks, r.head, w.block).value;
            && r'.head == w.block && AncestorAt(r.blocks, w.block, fork.number + 1) == Some(r'.headerHead)
            && r'.fastHead == r'.headerHead && (r'.headerHead == r'.head <==> w.block.number == fork.number + 1)
  {
    hide Sound, Written, Decide, Plausible;
    assert PositiveWrites(writes) by {
      forall i | 0 <= i < |writes| ensures writes[i].block.difficulty > 0 { assert (writes + [w])[i] == writes[i]; }
    }
    assert (writes + [w])[|writes|] == w;
    SoundHead(s);
    EveryRun(s, writes);
    RunPositive(s, writes);
    HeadsAfterWrite(Run(s, writes), w);
  }

  // ---------------------------------------------------------------- where the index ends

  /** The greatest height of the head over a run. */
  ghost function Peak(s: State, writes: seq<Write>): nat
    requires s.head in s.tds
    decreases |writes|
  {
    if writes == [] then s.head.number
    else
      HeadKeepsTd(s, writes[0]);
      var rest := Peak(Written(s, writes[0].block, writes[0].coin), writes[1..]);
      if rest > s.head.number then rest else s.head.number
  }

  function Max(a: nat, b: nat): nat { if a > b then a else b }

  ghost predicate IndexUpTo(s: State, n: nat) { forall k: nat :: k in s.canon <==> k <= n }

  lemma WriteIndexUpTo(s: State, w: Write, n: nat)
    requires Sound(s) && NoRepeat(s.blocks, w.block) && IndexUpTo(s, n) && s.head.number <= n
    ensures s.head in s.tds
    ensures IndexUpTo(Written(s, w.block, w.coin), Max(n, Written(s, w.block, w.coin).head.number))
  {
    hide Meet, LookupExact, AncestorAt, NoRepeat, Won;
    WriteKeeps(s, w);
    if Decide(s, w.block, w.coin).Canonical? {
      WonSound(s, w.block, w.coin);
      WonTds(WithTd(s, w.block), w.block, ForkHeight(s, w.block));
    }
  }

  lemma {:induction false} RunIndexUpTo(s: State, writes: seq<Write>, n: nat)
    requires Sound(s) && Plausible(s, writes) && IndexUpTo(s, n) && s.head.number <= n
    ensures IndexUpTo(Run(s, writes), Max(n, Peak(s, writes)))
    decreases |writes|
  {
    hide Sound, Written, NoRepeat, IndexUpTo;
    if writes != [] {
      SoundHead(s);
      WriteKeeps(s, writes[0]);
      WriteIndexUpTo(s, writes[0], n);
      var s' := Written(s, writes[0].block, writes[0].coin);
      SoundHead(s');
      RunIndexUpTo(s', writes[1..], Max(n, s'.head.number));
    }
  }

  /** After any run from an exact state the index holds exactly the heights up to the highest head there
      ever was: it ends at the head if and only if no earlier head was higher. */
  lemma RunExactIff(s: State, writes: seq<Write>)
    requires Sound(s) && Exact(s) && Plausible(s, writes)
    ensures Exact(Run(s, writes)) <==> Peak(s, writes) == Run(s, writes).head.number
  {
    hide Meet, LookupExact, AncestorAt, Written;
    assert IndexUpTo(s, s.head.number);
    RunIndexUpTo(s, writes, s.head.number);
    PeakAbove(s, writes);
    EveryRun(s, writes);
    var r := Run(s, writes);
    assert IndexUpTo(r, Peak(s, writes));
    assert Peak(s, writes) in r.canon;
  }

  lemma {:induction false} PeakAbove(s: State, writes: seq<Write>)
    requires s.head in s.tds
    ensures Peak(s, writes) >= s.head.number && Peak(s, writes) >= Run(s, writes).head.number
    decreases |writes|
  {
    hide Written;
    if writes != [] {
      HeadKeepsTd(s, writes[0]);
      PeakAbove(Written(s, writes[0].block, writes[0].coin), writes[1..]);
    }
  }

  // ---------------------------------------------------------------- what a reorganisation leaves behind

  const G: Block := Block(Zero, 0, 1, [], 0)
  const A: Block := Block(Of(G), 1, 1, [], 0)
  const B: Block := Block(Of(A), 2, 1, [], 0)
  const C: Block := Block(Of(G), 1, 5, [], 1)
  const D: Block := Block(Of(G), 1, 1, [], 2)
  const E: Block := Block(Of(D), 2, 5, [], 0)

  /** The node after genesis, A and B. */
  function Short(): State {
    State({G, A, B}, map[G := 1, A := 2, B := 3], map[0 := G, 1 := A, 2 := B], map[], B, B, B)
  }

  lemma ShortAncestry(store: set<Block>, c: Block)
    requires G in store && A in store && c.parent == Of(G) && c.number == 1 && c != A
    ensures AncestorAt(store, B, 0) == AncestorAt(store, c, 0) == Some(G) && AncestorAt(store, B, 1) == Some(A)
    ensures forall x | IsAncestor(store, x, B) || IsAncestor(store, x, c) :: x in {G, A, B, c}
    ensures Common(store, B, c, G) && forall x :: Common(store, B, c, x) ==> x.number == 0
  {
    assert Parent(store, A) == Some(G) && Parent(store, B) == Some(A) && Parent(store, c) == Some(G);
    assert AncestorAt(store, A, 0) == Some(G);
    forall x | Common(store, B, c, x) ensures x.number == 0 {
      assert x.number <= 1 && AncestorAt(store, c, 1) == Some(c);
    }
  }

  /** What a winning write does, given where the chains meet. */
  lemma WrittenIsWon(s: State, b: Block, coin: bool, fork: Block)
    requires s.head in s.tds && Decide(s, b, coin).Canonical? && Writable(s, b, fork) && Indexed(s)
    ensures Written(s, b, coin) == Won(WithTd(s, b), b, fork.number)
    ensures Written(s, b, coin).head == b && Writable(WithTd(s, b), b, fork) && Indexed(WithTd(s, b))
  {
    hide Won, Meet, AncestorAt, CanonFollows, LookupExact;
    MeetIsFork(s.blocks, s.head, b);
    ForkPointUnique(s.blocks, s.head, b, Meet(s.blocks, s.head, b), Some(fork));
    WonTds(WithTd(s, b), b, fork.number);
  }

  lemma MeetSomewhere(s: State, b: Block, fork: Block)
    requires Writable(s, b, fork)
    ensures Meet(s.blocks, s.head, b).Some?
  {
    MeetIsFork(s.blocks, s.head, b);
    ForkPointUnique(s.blocks, s.head, b, Meet(s.blocks, s.head, b), Some(fork));
  }

  lemma ShortExact()
    ensures Exact(Short()) && Writable(Short(), C, G) && NoRepeat(Short().blocks, C)
  {
    ShortAncestry(Short().blocks, C);
  }

  /** A lower but heavier block leaves the old head's index entry behind. */
  lemma LowerHeadLeavesEntry()
    ensures Exact(Short()) && Decide(Short(), C, false).Canonical?
    ensures Written(Short(), C, false).head == C && 2 in Written(Short(), C, false).canon
  {
    hide Indexed, NoRepeat, Won, Meet, Writable;
    ShortExact();
    assert Decide(Short(), C, false).Canonical? by { MeetSomewhere(Short(), C, G); }
    WrittenIsWon(Short(), C, false, G);
    WonIndexed(WithTd(Short(), C), C, G);
  }

  /** The same node after the side block D. */
  ghost function Beside(): (s: State)
    ensures s == State({G, A, B, D}, map[G := 1, A := 2, B := 3, D := 2], map[0 := G, 1 := A, 2 := B], map[], B, B, B)
  {
    assert {G, A, B} + {D} == {G, A, B, D};
    Written(Short(), D, false)
  }

  lemma BesideExact()
    ensures Exact(Beside()) && Writable(Beside(), E, G) && AncestorAt(Beside().blocks, E, 1) == Some(D)
  {
    hide Written;
    var store := Beside().blocks;
    ShortAncestry(store, D);
    assert Parent(store, E) == Some(D);
    assert AncestorAt(store, E, 0) == Some(G) && AncestorAt(store, E, 1) == Some(D);
    forall c | Common(store, B, E, c) ensures c.number == 0 {
      assert c.number <= 2 && AncestorAt(store, E, 2) == Some(E) && AncestorAt(store, B, 2) == Some(B);
    }
  }

  /** The heavy child of that side block brings in two blocks at once, and leaves the header head and the
      fast head on the lower one. */
  lemma HeadsCanLag()
    ensures Exact(Beside()) && Decide(Beside(), E, false).Canonical?
    ensures var s' := Written(Beside(), E, false); s'.head == E && s'.headerHead == D && s'.fastHead == D
  {
    hide Indexed, Won, Meet, Writable, Written;
    BesideExact();
    assert Decide(Beside(), E, false).Canonical? by { MeetSomewhere(Beside(), E, G); }
    WrittenIsWon(Beside(), E, false, G);
    HeadsAfterWin(WithTd(Beside(), E), E, G);
  }
}
