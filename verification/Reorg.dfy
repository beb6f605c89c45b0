/** Writing blocks and reorganising the canonical chain (chain/core/blockchain.go), together with
    the transaction lookup index (chain/core/database_util.go). */
module Reorg {
  import opened Options
  import opened Chain
  import opened ForkWalk

  /** TxLookupEntry. */
  datatype Entry = Entry(block: Block, number: nat, index: nat)

  type Lookup = map<TxHash, Entry>

  datatype State = State(blocks: set<Block>, tds: map<Block, int>, canon: map<nat, Block>, lookup: Lookup,
                         head: Block, headerHead: Block, fastHead: Block)

  // ---------------------------------------------------------------- what is promised

  /** `e` is the position of `tx` on the chain ending in `head`. */
  ghost predicate At(store: set<Block>, head: Block, tx: TxHash, e: Entry) {
    IsAncestor(store, e.block, head) && e.number == e.block.number && e.index < |e.block.txs| && e.block.txs[e.index] == tx
  }

  ghost predicate NoRepeat(store: set<Block>, head: Block) {
    forall tx, e, e' :: At(store, head, tx, e) && At(store, head, tx, e') ==> e == e'
  }

  /** The lookup index holds the position of every transaction on the chain and nothing else. */
  ghost predicate LookupExact(store: set<Block>, head: Block, lookup: Lookup) {
    && (forall tx :: tx in lookup ==> At(store, head, tx, lookup[tx]))
    && (forall tx, e :: At(store, head, tx, e) ==> tx in lookup && lookup[tx] == e)
  }

  /** Up to its height, the canonical index follows the chain ending in `head`. */
  ghost predicate CanonFollows(store: set<Block>, head: Block, canon: map<nat, Block>) {
    forall k: nat :: k <= head.number ==> k in canon && AncestorAt(store, head, k) == Some(canon[k])
  }

  ghost predicate CanonEnds(head: Block, canon: map<nat, Block>) {
    forall k: nat :: k in canon ==> k <= head.number
  }

  /** Both indexes agree with the head's chain. */
  ghost predicate Indexed(s: State) {
    CanonFollows(s.blocks, s.head, s.canon) && LookupExact(s.blocks, s.head, s.lookup)
  }

  ghost predicate Exact(s: State) { Indexed(s) && CanonEnds(s.head, s.canon) }

  // ---------------------------------------------------------------- the pieces

  /** `insert`: index the block, make it the head, and move the other heads if it was not indexed. */
  function Insert(s: State, b: Block): State {
    var indexed := b.number in s.canon && s.canon[b.number] == b;
    s.(canon := s.canon[b.number := b], head := b,
       headerHead := if indexed then s.headerHead else b, fastHead := if indexed then s.fastHead else b)
  }

  /** WriteTxLookupEntries, after the first `n` transactions. */
  function AddEntries(l: Lookup, b: Block, n: nat): Lookup
    requires n <= |b.txs|
  {
    if n == 0 then l else AddEntries(l, b, n - 1)[b.txs[n - 1] := Entry(b, b.number, n - 1)]
  }

  function InsertWithLookup(s: State, b: Block): State {
    Insert(s, b).(lookup := AddEntries(s.lookup, b, |b.txs|))
  }

  /** The insertion loop of reorg over the first `n` blocks of the new chain. */
  function InsertAll(s: State, chain: seq<Block>, n: nat): State
    requires n <= |chain|
  {
    if n == 0 then s else InsertWithLookup(InsertAll(s, chain, n - 1), chain[n - 1])
  }

  /** Blocks from `b` down, above height `k`. */
  function Branch(store: set<Block>, b: Block, k: nat): (r: seq<Block>)
    ensures b.number > k ==> |r| > 0 && r[0] == b
    decreases b.number
  {
    if b.number <= k then []
    else match Parent(store, b)
         case None => [b]
         case Some(p) => [b] + Branch(store, p, k)
  }

  function DropEntries(l: Lookup, txs: seq<TxHash>): Lookup {
    map tx | tx in l && tx !in txs :: l[tx]
  }

  /** The whole effect of reorg towards `b`, for fork height `k`. */
  function Reorged(s: State, b: Block, k: nat): State {
    var chain := Branch(s.blocks, b, k);
    var s1 := InsertAll(s, chain, |chain|);
    s1.(lookup := DropEntries(s1.lookup, TxDifference(BranchTxs(s.blocks, s.head, k), BranchTxs(s.blocks, b, k))))
  }

  /** Storing the block and its lookup entries and making it the head. */
  function Finish(s: State, b: Block): State {
    Insert(s.(blocks := s.blocks + {b}, lookup := AddEntries(s.lookup, b, |b.txs|)), b)
  }

  // ---------------------------------------------------------------- the lookup index

  lemma {:induction false} AddEntriesIs(l: Lookup, b: Block, n: nat)
    requires n <= |b.txs|
    ensures forall tx :: tx in AddEntries(l, b, n) <==> tx in l || tx in b.txs[..n]
    ensures forall tx :: tx in AddEntries(l, b, n) ==>
              if tx in b.txs[..n]
              then AddEntries(l, b, n)[tx].block == b && AddEntries(l, b, n)[tx].number == b.number &&
                   AddEntries(l, b, n)[tx].index < n && b.txs[AddEntries(l, b, n)[tx].index] == tx
              else AddEntries(l, b, n)[tx] == l[tx]
  {
    if n > 0 {
      AddEntriesIs(l, b, n - 1);
      assert b.txs[..n] == b.txs[..n - 1] + [b.txs[n - 1]];
    }
  }

  /** Every entry is either the position of a transaction in the blocks written, or an old entry of
      a transaction they do not hold. */
  ghost predicate Merged(l: Lookup, l': Lookup, chain: set<Block>) {
    && (forall tx :: tx in l ==> tx in l')
    && (forall tx, b :: b in chain && tx in b.txs ==> tx in l')
    && (forall tx :: tx in l' ==>
          || (l'[tx].block in chain && l'[tx].number == l'[tx].block.number &&
              l'[tx].index < |l'[tx].block.txs| && l'[tx].block.txs[l'[tx].index] == tx)
          || (tx in l && l'[tx] == l[tx] && forall b :: b in chain ==> tx !in b.txs))
  }

  function Elems(chain: seq<Block>): set<Block> { set b | b in chain }

  lemma MergeNone(l: Lookup)
    ensures Merged(l, l, {})
  {}

  lemma MergeOne(l: Lookup, l': Lookup, chain: set<Block>, b: Block)
    requires Merged(l, l', chain)
    ensures Merged(l, AddEntries(l', b, |b.txs|), chain + {b})
  {
    AddEntriesIs(l', b, |b.txs|);
    assert b.txs[..|b.txs|] == b.txs;
  }

  lemma {:induction false} InsertAllLookup(s: State, chain: seq<Block>, n: nat)
    requires n <= |chain|
    ensures Merged(s.lookup, InsertAll(s, chain, n).lookup, Elems(chain[..n]))
    ensures InsertAll(s, chain, n).blocks == s.blocks && InsertAll(s, chain, n).tds == s.tds
  {
    hide Merged, AddEntries;
    if n == 0 {
      MergeNone(s.lookup);
      assert Elems(chain[..0]) == {};
    } else {
      InsertAllLookup(s, chain, n - 1);
      MergeOne(s.lookup, InsertAll(s, chain, n - 1).lookup, Elems(chain[..n - 1]), chain[n - 1]);
      assert chain[..n] == chain[..n - 1] + [chain[n - 1]];
      assert Elems(chain[..n]) == Elems(chain[..n - 1]) + {chain[n - 1]};
    }
  }

  lemma {:induction false} BranchMembers(store: set<Block>, b: Block, k: nat, c: Block)
    requires AncestorAt(store, b, k).Some?
    ensures c in Branch(store, b, k) <==> IsAncestor(store, c, b) && c.number > k
    decreases b.number
  {
    if b.number > k {
      var p := Parent(store, b).value;
      BranchMembers(store, p, k, c);
      if c.number < b.number { assert IsAncestor(store, c, b) <==> IsAncestor(store, c, p); }
    }
  }

  /** The situation after the insertion loop: `chain` is the new branch above `fork`. */
  ghost predicate Forked(store: set<Block>, old_: Block, b: Block, fork: Block, l: Lookup, l': Lookup, chain: set<Block>) {
    && LookupExact(store, old_, l) && NoRepeat(store, b)
    && Common(store, old_, b, fork)
    && (forall c :: c in chain <==> IsAncestor(store, c, b) && c.number > fork.number)
    && Merged(l, l', chain)
  }

  /** A transaction the new branch lost: on the old branch above the fork, not on the new one. */
  ghost predicate Lost(store: set<Block>, old_: Block, fork: Block, chain: set<Block>, tx: TxHash) {
    && (exists c :: IsAncestor(store, c, old_) && c.number > fork.number && tx in c.txs)
    && !(exists c :: c in chain && tx in c.txs)
  }

  lemma SharedBelow(store: set<Block>, old_: Block, b: Block, fork: Block, tx: TxHash, e: Entry)
    requires Common(store, old_, b, fork) && e.block.number <= fork.number
    ensures At(store, old_, tx, e) <==> At(store, b, tx, e)
  {
    AncestorThrough(store, old_, fork, e.block.number);
    AncestorThrough(store, b, fork, e.block.number);
  }

  lemma EntryRight(store: set<Block>, old_: Block, b: Block, fork: Block, l: Lookup, l': Lookup, chain: set<Block>, tx: TxHash)
    requires Forked(store, old_, b, fork, l, l', chain)
    requires tx in l' && !Lost(store, old_, fork, chain, tx)
    ensures At(store, b, tx, l'[tx])
  {
    var e := l'[tx];
    if e.block !in chain {
      assert At(store, old_, tx, e);
      assert IsAncestor(store, e.block, old_) && tx in e.block.txs;
      assert e.number <= fork.number;
      SharedBelow(store, old_, b, fork, tx, e);
    }
  }

  lemma LostEntry(store: set<Block>, old_: Block, fork: Block, chain: set<Block>, tx: TxHash) returns (e: Entry)
    requires Lost(store, old_, fork, chain, tx)
    ensures At(store, old_, tx, e) && e.number > fork.number
  {
    var c :| IsAncestor(store, c, old_) && c.number > fork.number && tx in c.txs;
    var i :| 0 <= i < |c.txs| && c.txs[i] == tx;
    e := Entry(c, c.number, i);
  }

  lemma EntryPresent(store: set<Block>, old_: Block, b: Block, fork: Block, l: Lookup, l': Lookup, chain: set<Block>,
                     tx: TxHash, e: Entry)
    requires Forked(store, old_, b, fork, l, l', chain) && At(store, b, tx, e)
    ensures tx in l' && l'[tx] == e && !Lost(store, old_, fork, chain, tx)
  {
    if e.number > fork.number {
      assert e.block in chain && tx in e.block.txs;
    } else {
      SharedBelow(store, old_, b, fork, tx, e);
      if Lost(store, old_, fork, chain, tx) {
        var e' := LostEntry(store, old_, fork, chain, tx);
      }
    }
    if l'[tx].block in chain { assert At(store, b, tx, l'[tx]); }
  }

  /** The merged and pruned index is exact for the new chain. */
  lemma ReorgLookup(store: set<Block>, old_: Block, b: Block, fork: Block, l: Lookup, l': Lookup, chain: set<Block>)
    requires Forked(store, old_, b, fork, l, l', chain)
    ensures LookupExact(store, b, DropEntries(l', TxDifference(BranchTxs(store, old_, fork.number), BranchTxs(store, b, fork.number))))
  {
    var drop := TxDifference(BranchTxs(store, old_, fork.number), BranchTxs(store, b, fork.number));
    forall tx ensures tx in drop <==> Lost(store, old_, fork, chain, tx) {
      BranchTxsMembers(store, old_, fork.number, tx);
      BranchTxsMembers(store, b, fork.number, tx);
    }
    hide Forked, Lost, BranchTxs;
    var r := DropEntries(l', drop);
    forall tx | tx in r ensures At(store, b, tx, r[tx]) {
      EntryRight(store, old_, b, fork, l, l', chain, tx);
    }
    forall tx, e | At(store, b, tx, e) ensures tx in r && r[tx] == e {
      EntryPresent(store, old_, b, fork, l, l', chain, tx, e);
    }
  }

  // ---------------------------------------------------------------- the canonical index

  /** The insertion loop writes the whole new branch into the index and nothing else. */
  lemma {:induction false} InsertAllCanon(s: State, chain: seq<Block>, n: nat, k: nat)
    requires n <= |chain|
    requires forall i, j :: 0 <= i < j < |chain| ==> chain[i].number != chain[j].number
    ensures forall i :: 0 <= i < n ==> chain[i].number in InsertAll(s, chain, n).canon && InsertAll(s, chain, n).canon[chain[i].number] == chain[i]
    ensures (forall i :: 0 <= i < n ==> chain[i].number != k) ==>
              (k in InsertAll(s, chain, n).canon <==> k in s.canon) &&
              (k in s.canon ==> InsertAll(s, chain, n).canon[k] == s.canon[k])
  {
    if n > 0 {
      InsertAllCanon(s, chain, n - 1, k);
    }
  }

  /** The branch lists one block per height, from the top down. */
  lemma {:induction false} BranchHeights(store: set<Block>, b: Block, k: nat)
    requires AncestorAt(store, b, k).Some?
    ensures |Branch(store, b, k)| == b.number - k
    ensures forall i :: 0 <= i < b.number - k ==> Branch(store, b, k)[i].number == b.number - i
    ensures forall i :: 0 <= i < b.number - k ==> AncestorAt(store, b, b.number - i) == Some(Branch(store, b, k)[i])
    decreases b.number
  {
    if b.number > k {
      var p := Parent(store, b).value;
      BranchHeights(store, p, k);
      var r := Branch(store, b, k);
      forall i | 0 <= i < b.number - k
        ensures r[i].number == b.number - i && AncestorAt(store, b, b.number - i) == Some(r[i])
      {
        if i > 0 { assert r[i] == Branch(store, p, k)[i - 1]; }
      }
    }
  }

  /** Above height `n` the two indexes agree. */
  ghost predicate SameAbove(canon: map<nat, Block>, canon': map<nat, Block>, n: nat) {
    forall k: nat :: k > n ==> (k in canon' <==> k in canon) && (k in canon ==> canon'[k] == canon[k])
  }

  lemma ReorgCanon(s: State, b: Block, fork: Block)
    requires CanonFollows(s.blocks, s.head, s.canon) && Common(s.blocks, s.head, b, fork)
    ensures CanonFollows(s.blocks, b, Reorged(s, b, fork.number).canon)
    ensures SameAbove(s.canon, Reorged(s, b, fork.number).canon, b.number)
  {
    var chain := Branch(s.blocks, b, fork.number);
    var canon := Reorged(s, b, fork.number).canon;
    BranchHeights(s.blocks, b, fork.number);
    forall k: nat | k <= b.number ensures k in canon && AncestorAt(s.blocks, b, k) == Some(canon[k]) {
      InsertAllCanon(s, chain, |chain|, k);
      if k > fork.number {
        assert chain[b.number - k].number == k;
      } else {
        AncestorThrough(s.blocks, s.head, fork, k);
        AncestorThrough(s.blocks, b, fork, k);
      }
    }
    forall k: nat | k > b.number ensures (k in canon <==> k in s.canon) && (k in s.canon ==> canon[k] == s.canon[k]) {
      InsertAllCanon(s, chain, |chain|, k);
    }
  }

  // ---------------------------------------------------------------- a canonical write

  /** Writing the entries of the head block again changes nothing. */
  lemma {:induction false} AddEntriesSame(store: set<Block>, b: Block, l: Lookup, n: nat)
    requires LookupExact(store, b, l) && n <= |b.txs|
    ensures AddEntries(l, b, n) == l
  {
    if n > 0 {
      AddEntriesSame(store, b, l, n - 1);
      assert At(store, b, b.txs[n - 1], Entry(b, b.number, n - 1));
    }
  }

  /** Storing the new head does not change its ancestry. */
  lemma StoreHead(store: set<Block>, b: Block)
    requires AncestorAt(store, b, 0).Some?
    ensures forall c :: IsAncestor(store + {b}, c, b) <==> IsAncestor(store, c, b)
    ensures forall k: nat :: k <= b.number ==> AncestorAt(store + {b}, b, k) == AncestorAt(store, b, k)
  {
    forall k: nat | k <= b.number ensures AncestorAt(store + {b}, b, k) == AncestorAt(store, b, k) {
      AncestorLower(store, b, 0, k);
      AncestorGrows(store, store + {b}, b, k);
    }
  }

  lemma FinishExact(s: State, b: Block)
    requires AncestorAt(s.blocks, b, 0).Some?
    requires CanonFollows(s.blocks, b, s.canon) && LookupExact(s.blocks, b, s.lookup)
    ensures CanonFollows(s.blocks + {b}, b, Finish(s, b).canon)
    ensures LookupExact(s.blocks + {b}, b, Finish(s, b).lookup)
    ensures SameAbove(s.canon, Finish(s, b).canon, b.number)
  {
    StoreHead(s.blocks, b);
    AddEntriesSame(s.blocks, b, s.lookup, |b.txs|);
    assert forall tx, e :: At(s.blocks + {b}, b, tx, e) <==> At(s.blocks, b, tx, e);
  }

  /** The state after a block that wins has been written. */
  function Won(s: State, b: Block, k: nat): State {
    Finish(if b.parent == Of(s.head) then s else Reorged(s, b, k), b)
  }

  /** A block that can win: not a genesis block, all its ancestors stored, on the head's chain. */
  ghost predicate Writable(s: State, b: Block, fork: Block) {
    && b.number >= 1
    && AncestorAt(s.blocks, b, 0).Some? && AncestorAt(s.blocks, s.head, 0) == AncestorAt(s.blocks, b, 0)
    && ForkPoint(s.blocks, s.head, b, Some(fork))
  }

  lemma ChildOfHead(s: State, b: Block, fork: Block)
    requires Writable(s, b, fork) && b.parent == Of(s.head)
    ensures Parent(s.blocks, b) == Some(s.head) && fork == s.head && b.number == s.head.number + 1
  {
    assert Parent(s.blocks, b).Some?;
    assert Common(s.blocks, s.head, b, s.head);
  }

  lemma ExtendExact(s: State, b: Block, fork: Block)
    requires Indexed(s) && Writable(s, b, fork) && NoRepeat(s.blocks, b) && b.parent == Of(s.head)
    ensures CanonFollows(s.blocks + {b}, b, Won(s, b, fork.number).canon)
    ensures LookupExact(s.blocks + {b}, b, Won(s, b, fork.number).lookup)
    ensures SameAbove(s.canon, Won(s, b, fork.number).canon, b.number)
  {
    ChildOfHead(s, b, fork);
    StoreHead(s.blocks, b);
    var l' := AddEntries(s.lookup, b, |b.txs|);
    MergeNone(s.lookup);
    MergeOne(s.lookup, s.lookup, {}, b);
    assert {} + {b} == {b};
    forall c ensures c in {b} <==> IsAncestor(s.blocks, c, b) && c.number > fork.number {}
    ReorgLookup(s.blocks, s.head, b, fork, s.lookup, l', {b});
    var drop := TxDifference(BranchTxs(s.blocks, s.head, fork.number), BranchTxs(s.blocks, b, fork.number));
    assert drop == [];
    assert DropEntries(l', []) == l';
    assert forall tx, e :: At(s.blocks + {b}, b, tx, e) <==> At(s.blocks, b, tx, e);
  }

  lemma ReorgExact(s: State, b: Block, fork: Block)
    requires Indexed(s) && Writable(s, b, fork) && NoRepeat(s.blocks, b)
    ensures CanonFollows(s.blocks, b, Reorged(s, b, fork.number).canon)
    ensures LookupExact(s.blocks, b, Reorged(s, b, fork.number).lookup)
    ensures Reorged(s, b, fork.number).blocks == s.blocks
  {
    var chain := Branch(s.blocks, b, fork.number);
    ReorgCanon(s, b, fork);
    InsertAllLookup(s, chain, |chain|);
    assert chain[..|chain|] == chain;
    forall c ensures c in Elems(chain) <==> IsAncestor(s.blocks, c, b) && c.number > fork.number {
      BranchMembers(s.blocks, b, fork.number, c);
    }
    ReorgLookup(s.blocks, s.head, b, fork, s.lookup, InsertAll(s, chain, |chain|).lookup, Elems(chain));
  }

  /** When a block becomes canonical, the index up to its height is its own chain and the lookup
      index is exact for it; index entries above its height stay as they were. */
  lemma WonIndexed(s: State, b: Block, fork: Block)
    requires Indexed(s) && Writable(s, b, fork) && NoRepeat(s.blocks, b)
    ensures Won(s, b, fork.number).head == b && Won(s, b, fork.number).blocks == s.blocks + {b}
    ensures Indexed(Won(s, b, fork.number))
    ensures SameAbove(s.canon, Won(s, b, fork.number).canon, b.number)
  {
    hide AncestorAt, LookupExact, NoRepeat, Branch, BranchTxs, InsertAll, AddEntries;
    if b.parent == Of(s.head) {
      ExtendExact(s, b, fork);
    } else {
      ReorgExact(s, b, fork);
      FinishExact(Reorged(s, b, fork.number), b);
      ReorgCanon(s, b, fork);
    }
  }

  /** From an exact state, the index ends at the new head exactly when that is at least as high as the
      old head: entries above a lower new head are left behind. */
  lemma WonExact(s: State, b: Block, fork: Block)
    requires Exact(s) && Writable(s, b, fork) && NoRepeat(s.blocks, b)
    ensures Exact(Won(s, b, fork.number)) <==> b.number >= s.head.number
  {
    WonIndexed(s, b, fork);
    assert s.head.number in s.canon;
  }

  // ---------------------------------------------------------------- the other heads

  /** The heads follow the block that is inserted last, if that was not indexed before. */
  lemma InsertAllHeads(s: State, chain: seq<Block>, c: Block)
    requires 0 < |chain| && c == chain[|chain| - 1]
    requires forall i, j :: 0 <= i < j < |chain| ==> chain[i].number != chain[j].number
    requires !(c.number in s.canon && s.canon[c.number] == c)
    ensures InsertAll(s, chain, |chain|).headerHead == InsertAll(s, chain, |chain|).fastHead == c
  {
    var n := |chain| - 1;
    assert InsertAll(s, chain, |chain|) == InsertWithLookup(InsertAll(s, chain, n), c);
    hide InsertAll, AddEntries;
    InsertAllCanon(s, chain, n, c.number);
  }

  /** The lowest block of the new branch is not indexed yet. */
  ghost predicate NewAbove(s: State, b: Block, fork: Block) {
    fork.number + 1 in s.canon ==> AncestorAt(s.blocks, b, fork.number + 1) != Some(s.canon[fork.number + 1])
  }

  /** Only where the branch leaves the chain at its head can the index hold that block. */
  lemma NewBelowHead(s: State, b: Block, fork: Block)
    requires Indexed(s) && Writable(s, b, fork) && fork != s.head
    ensures NewAbove(s, b, fork)
  {
    assert fork.number < s.head.number;
    var c := s.canon[fork.number + 1];
    assert IsAncestor(s.blocks, c, s.head) && c.number > fork.number;
    assert IsAncestor(s.blocks, c, b) ==> Common(s.blocks, s.head, b, c);
  }

  lemma AboveFork(s: State, b: Block, fork: Block)
    requires Writable(s, b, fork)
    ensures AncestorAt(s.blocks, b, fork.number).Some?
    ensures fork != b ==> b.number > fork.number
  {}

  lemma ReorgedHeads(s: State, b: Block, fork: Block, chain: seq<Block>)
    requires Indexed(s) && Writable(s, b, fork) && NewAbove(s, b, fork) && b.number > fork.number && chain == Branch(s.blocks, b, fork.number)
    ensures |chain| == b.number - fork.number && chain[0] == b
    ensures AncestorAt(s.blocks, b, fork.number + 1) == Some(chain[|chain| - 1])
    ensures Reorged(s, b, fork.number).headerHead == chain[|chain| - 1] == Reorged(s, b, fork.number).fastHead
    ensures b.number in Reorged(s, b, fork.number).canon && Reorged(s, b, fork.number).canon[b.number] == b
  {
    hide AncestorAt, Indexed, Writable, InsertAll, BranchTxs, DropEntries;
    AboveFork(s, b, fork);
    BranchHeights(s.blocks, b, fork.number);
    assert AncestorAt(s.blocks, b, fork.number + 1) == Some(chain[|chain| - 1]);
    InsertAllHeads(s, chain, chain[|chain| - 1]);
    InsertAllCanon(s, chain, |chain|, 0);
    assert chain[0].number == b.number;
  }

  /** After a win the header head and the fast head stand on the lowest block of the new branch: they
      agree with the block head exactly when the new branch is that one block. */
  lemma HeadsAfterWin(s: State, b: Block, fork: Block)
    requires Indexed(s) && Writable(s, b, fork) && NewAbove(s, b, fork) && fork != b
    ensures AncestorAt(s.blocks, b, fork.number + 1).Some?
    ensures Won(s, b, fork.number).headerHead == AncestorAt(s.blocks, b, fork.number + 1).value
    ensures Won(s, b, fork.number).fastHead == Won(s, b, fork.number).headerHead
    ensures Won(s, b, fork.number).headerHead == b <==> b.number == fork.number + 1
  {
    AboveFork(s, b, fork);
    if b.parent == Of(s.head) {
      HeadsAfterExtend(s, b, fork);
    } else {
      HeadsAfterReorg(s, b, fork);
    }
  }

  lemma HeadsAfterReorg(s: State, b: Block, fork: Block)
    requires Indexed(s) && Writable(s, b, fork) && NewAbove(s, b, fork) && b.number > fork.number && b.parent != Of(s.head)
    ensures AncestorAt(s.blocks, b, fork.number + 1).Some?
    ensures Won(s, b, fork.number).headerHead == AncestorAt(s.blocks, b, fork.number + 1).value
    ensures Won(s, b, fork.number).fastHead == Won(s, b, fork.number).headerHead
    ensures Won(s, b, fork.number).headerHead == b <==> b.number == fork.number + 1
  {
    hide Indexed, Writable, NewAbove, AncestorAt, Reorged, Branch, Finish;
    var chain := Branch(s.blocks, b, fork.number);
    ReorgedHeads(s, b, fork, chain);
    BranchLowest(s.blocks, b, fork.number, chain);
    FinishIndexed(Reorged(s, b, fork.number), b);
  }

  lemma FinishIndexed(s: State, b: Block)
    requires b.number in s.canon && s.canon[b.number] == b
    ensures Finish(s, b).headerHead == s.headerHead && Finish(s, b).fastHead == s.fastHead
  {}

  lemma HeadsAfterExtend(s: State, b: Block, fork: Block)
    requires Indexed(s) && Writable(s, b, fork) && NewAbove(s, b, fork) && b.parent == Of(s.head)
    ensures b.number == fork.number + 1
    ensures AncestorAt(s.blocks, b, fork.number + 1) == Some(b)
    ensures Won(s, b, fork.number).headerHead == b == Won(s, b, fork.number).fastHead
  {
    ChildOfHead(s, b, fork);
  }

  lemma BranchLowest(store: set<Block>, b: Block, k: nat, chain: seq<Block>)
    requires b.number > k && |chain| == b.number - k && chain[0] == b
    requires AncestorAt(store, b, k + 1) == Some(chain[|chain| - 1])
    ensures chain[|chain| - 1] == b <==> b.number == k + 1
  {}

  // ---------------------------------------------------------------- the implementation

  datatype Outcome = UnknownAncestor | InvalidChain | Canonical | Side

  lemma NoBranch(store: set<Block>, b: Block)
    ensures BranchTxs(store, b, b.number) == [] && Branch(store, b, b.number) == []
  {}

  /** The walk of reorg: the new branch to insert and the transactions of the old one. */
  method SplitChains(store: set<Block>, old0: Block, new0: Block)
    returns (ok: bool, newChain: seq<Block>, deleted: seq<TxHash>, ghost fork: Option<Block>)
    ensures ForkPoint(store, old0, new0, fork)
    ensures ok <==> fork.Some?
    ensures fork.Some? ==> newChain == Branch(store, new0, fork.value.number)
    ensures fork.Some? ==> deleted == BranchTxs(store, old0, fork.value.number)
    ensures !ok ==> forall c :: !Common(store, old0, new0, c)
  {
    hide BranchTxs, Branch, AncestorAt;
    NoBranch(store, old0);
    NoBranch(store, new0);
    var oldBlock, newBlock := old0, new0;
    newChain, deleted, fork := [], [], None;
    while oldBlock.number > newBlock.number
      invariant Down(store, old0, oldBlock) && (oldBlock == old0 || oldBlock.number >= new0.number)
      invariant deleted == BranchTxs(store, old0, oldBlock.number)
      decreases oldBlock.number
    {
      StepDown(store, old0, oldBlock);
      DownTxs(store, old0, oldBlock);
      deleted := deleted + oldBlock.txs;
      var p := Parent(store, oldBlock);
      if p.None? { return false, newChain, deleted, None; }
      oldBlock := p.value;
    }
    while newBlock.number > oldBlock.number
      invariant Down(store, old0, oldBlock) && Down(store, new0, newBlock) && newBlock.number >= oldBlock.number
      invariant Below(store, old0, new0, oldBlock.number)
      invariant deleted == BranchTxs(store, old0, oldBlock.number)
      invariant newChain == Branch(store, new0, newBlock.number)
      decreases newBlock.number
    {
      StepDown(store, new0, newBlock);
      DownBranch(store, new0, newBlock);
      newChain := newChain + [newBlock];
      var p := Parent(store, newBlock);
      if p.None? { return false, newChain, deleted, None; }
      newBlock := p.value;
    }
    while oldBlock != newBlock
      invariant Down(store, old0, oldBlock) && Down(store, new0, newBlock) && newBlock.number == oldBlock.number
      invariant Below(store, old0, new0, oldBlock.number)
      invariant deleted == BranchTxs(store, old0, oldBlock.number)
      invariant newChain == Branch(store, new0, newBlock.number)
      decreases newBlock.number
    {
      NotHere(store, old0, new0, oldBlock, newBlock);
      StepDown(store, old0, oldBlock);
      StepDown(store, new0, newBlock);
      DownTxs(store, old0, oldBlock);
      DownBranch(store, new0, newBlock);
      newChain := newChain + [newBlock];
      deleted := deleted + oldBlock.txs;
      var p, q := Parent(store, oldBlock), Parent(store, newBlock);
      if p.None? || q.None? { return false, newChain, deleted, None; }
      oldBlock, newBlock := p.value, q.value;
    }
    ok, fork := true, Some(oldBlock);
  }

  lemma {:induction false} BranchSplit(store: set<Block>, b: Block, m: Block, k: nat)
    requires IsAncestor(store, m, b) && k <= m.number
    ensures Branch(store, b, k) == Branch(store, b, m.number) + Branch(store, m, k)
    decreases b.number
  {
    if m.number < b.number {
      BranchSplit(store, Parent(store, b).value, m, k);
    }
  }

  lemma DownBranch(store: set<Block>, x0: Block, x: Block)
    requires Down(store, x0, x)
    ensures x.number > 0 ==> Branch(store, x0, x.number - 1) == Branch(store, x0, x.number) + [x]
  {
    if x.number > 0 {
      BranchSplit(store, x0, x, x.number - 1);
      if Parent(store, x).Some? { assert Branch(store, Parent(store, x).value, x.number - 1) == []; }
    }
  }

  class BlockChain {
    var blocks: set<Block>
    var tds: map<Block, int>
    var canon: map<nat, Block>
    var lookup: Lookup
    var currentBlock: Block
    var currentHeader: Block
    var currentFastBlock: Block

    ghost function Contents(): State
      reads this
    {
      State(blocks, tds, canon, lookup, currentBlock, currentHeader, currentFastBlock)
    }

    constructor (s: State)
      ensures Contents() == s
    {
      blocks, tds, canon, lookup := s.blocks, s.tds, s.canon, s.lookup;
      currentBlock, currentHeader, currentFastBlock := s.head, s.headerHead, s.fastHead;
    }

    method InsertHead(b: Block)
      modifies this
      ensures Contents() == Insert(old(Contents()), b)
    {
      var updateHeads := b.number !in canon || canon[b.number] != b;
      canon := canon[b.number := b];
      currentBlock := b;
      if updateHeads {
        currentHeader := b;
        currentFastBlock := b;
      }
    }

    method WriteTxLookupEntries(b: Block)
      modifies this`lookup
      ensures lookup == AddEntries(old(lookup), b, |b.txs|)
    {
      var i := 0;
      while i < |b.txs|
        invariant 0 <= i <= |b.txs|
        invariant lookup == AddEntries(old(lookup), b, i)
      {
        lookup := lookup[b.txs[i] := Entry(b, b.number, i)];
        i := i + 1;
      }
    }

    method DeleteTxLookupEntries(txs: seq<TxHash>)
      modifies this`lookup
      ensures lookup == DropEntries(old(lookup), txs)
    {
      var i := 0;
      while i < |txs|
        invariant 0 <= i <= |txs|
        invariant lookup == DropEntries(old(lookup), txs[..i])
      {
        lookup := lookup - {txs[i]};
        assert txs[..i + 1] == txs[..i] + [txs[i]];
        i := i + 1;
      }
      assert txs[..|txs|] == txs;
    }

    /** The insertion loop of reorg. */
    method InsertChain(newChain: seq<Block>) returns (added: seq<TxHash>)
      modifies this
      ensures Contents() == InsertAll(old(Contents()), newChain, |newChain|)
      ensures added == TxsOf(newChain, |newChain|)
    {
      added := [];
      var i := 0;
      while i < |newChain|
        invariant 0 <= i <= |newChain|
        invariant Contents() == InsertAll(old(Contents()), newChain, i)
        invariant added == TxsOf(newChain, i)
      {
        InsertHead(newChain[i]);
        WriteTxLookupEntries(newChain[i]);
        added := added + newChain[i].txs;
        i := i + 1;
      }
    }

    /** `reorg`: fails, changing nothing, exactly when the chains do not meet. */
    method ReorgTo(newBlock: Block) returns (ok: bool)
      modifies this
      ensures ok <==> old(Meet(blocks, currentBlock, newBlock)).Some?
      ensures Contents() == if ok then Reorged(old(Contents()), newBlock, old(Meet(blocks, currentBlock, newBlock)).value.number)
                            else old(Contents())
    {
      var newChain, deleted;
      ghost var fork;
      ghost var meet := Meet(blocks, currentBlock, newBlock);
      ok, newChain, deleted, fork := SplitChains(blocks, currentBlock, newBlock);
      MeetIsFork(blocks, currentBlock, newBlock);
      ForkPointUnique(blocks, currentBlock, newBlock, fork, meet);
      hide ForkPoint, Branch, InsertAll, TxsOf;
      if !ok { return; }
      var added := InsertChain(newChain);
      TxsOfBranch(old(blocks), newBlock, fork.value.number);
      DeleteTxLookupEntries(TxDifference(deleted, added));
    }

    /** `WriteBlockAndState`, for the indexes it maintains: a heavier block wins; equally heavy ones
        are decided by height and then by the coin. */
    method WriteBlockAndState(b: Block, coin: bool) returns (r: Outcome)
      requires currentBlock in tds
      modifies this
      ensures r == old(Decide(Contents(), b, coin))
      ensures Contents() == old(Written(Contents(), b, coin))
    {
      hide Meet, Reorged, AddEntries;
      var p := if b.parent.Of? && b.parent.block in tds && b.parent.block.number == b.number - 1 then Some(b.parent.block) else None;
      if p.None? { return UnknownAncestor; }
      var localTd := tds[currentBlock];
      var externTd := b.difficulty + tds[p.value];
      var height := currentBlock.number;
      tds := tds[b := externTd];
      var wins := externTd > localTd;
      if !wins && externTd == localTd {
        wins := b.number < height || (b.number == height && coin);
      }
      if wins {
        if b.parent != Of(currentBlock) {
          var ok := ReorgTo(b);
          if !ok { return InvalidChain; }
        }
        WriteTxLookupEntries(b);
        r := Canonical;
      } else {
        r := Side;
      }
      blocks := blocks + {b};
      if r.Canonical? { InsertHead(b); }
    }
  }

  predicate HasParentTd(s: State, b: Block) {
    b.parent.Of? && b.parent.block in s.tds && b.parent.block.number == b.number - 1
  }

  function WithTd(s: State, b: Block): State {
    if HasParentTd(s, b) then s.(tds := s.tds[b := b.difficulty + s.tds[b.parent.block]]) else s
  }

  /** Fork choice. */
  ghost function Decide(s: State, b: Block, coin: bool): Outcome
    requires s.head in s.tds
  {
    if !HasParentTd(s, b) then UnknownAncestor
    else
      var td := b.difficulty + s.tds[b.parent.block];
      if td > s.tds[s.head] ||
         (td == s.tds[s.head] && (b.number < s.head.number || (b.number == s.head.number && coin))) then
        if Meet(s.blocks, s.head, b).None? && b.parent != Of(s.head) then InvalidChain else Canonical
      else Side
  }

  /** The state after WriteBlockAndState. */
  ghost function Written(s: State, b: Block, coin: bool): State
    requires s.head in s.tds
  {
    match Decide(s, b, coin)
    case UnknownAncestor => s
    case InvalidChain => WithTd(s, b)
    case Side => WithTd(s, b).(blocks := s.blocks + {b})
    case Canonical =>
      var fork := Meet(s.blocks, s.head, b);
      Won(WithTd(s, b), b, if fork.Some? then fork.value.number else 0)
  }

  function TxsOf(chain: seq<Block>, n: nat): seq<TxHash>
    requires n <= |chain|
  {
    if n == 0 then [] else TxsOf(chain, n - 1) + chain[n - 1].txs
  }

  lemma {:induction false} TxsOfCons(b: Block, chain: seq<Block>, n: nat)
    requires n <= |chain|
    ensures TxsOf([b] + chain, n + 1) == b.txs + TxsOf(chain, n)
  {
    var c := [b] + chain;
    if n == 0 {
      assert TxsOf(c, 1) == TxsOf(c, 0) + b.txs == b.txs;
    } else {
      TxsOfCons(b, chain, n - 1);
      var x, y := TxsOf(chain, n - 1), chain[n - 1].txs;
      calc {
        TxsOf(c, n + 1);
        { assert c[n] == chain[n - 1]; }
        (b.txs + x) + y;
        b.txs + (x + y);
      }
    }
  }

  lemma {:induction false} TxsOfBranch(store: set<Block>, b: Block, k: nat)
    ensures TxsOf(Branch(store, b, k), |Branch(store, b, k)|) == BranchTxs(store, b, k)
    decreases b.number
  {
    if b.number > k {
      match Parent(store, b)
      case None => assert TxsOf([b], 1) == TxsOf([b], 0) + b.txs;
      case Some(p) =>
        TxsOfBranch(store, p, k);
        TxsOfCons(b, Branch(store, p, k), |Branch(store, p, k)|);
    }
  }
}
