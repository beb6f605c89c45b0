/** Room in a full pool (add, chain/core/tx_pool.go): how many transactions the pool knows after one was added, and
    what a refused one can cost. */
module PoolRoom {
  import opened Options
  import opened TxMap
  import opened TxListOps
  import opened PricedList
  import opened PoolState
  import opened PoolFair
  import opened PoolFacts
  import opened PoolMoves
  import opened PoolRuns
  import opened TxValidation
  import opened PoolAdds

  ghost function SetOfTxs(txs: seq<Tx>): set<Tx> { set tx | tx in txs }

  /** The pool's size limit. */
  function Limit(cfg: Config): nat { cfg.globalSlots + cfg.globalQueue }

  ghost predicate KnowsRemote(b: Books) { exists t :: t in b.pool.all && t.sender !in b.locals }

  // ---------------------------------------------------------------- sizes

  lemma {:induction false} SetSize(txs: seq<Tx>)
    ensures |SetOfTxs(txs)| <= |txs| && (NoTwice(txs) ==> |SetOfTxs(txs)| == |txs|)
  {
    if txs == [] {
      assert SetOfTxs(txs) == {};
    } else {
      var t, x := txs[..|txs| - 1], txs[|txs| - 1];
      assert txs == t + [x];
      SetSize(t);
      assert SetOfTxs(txs) == SetOfTxs(t) + {x};
      if NoTwice(txs) {
        assert NoTwice(t);
        assert x !in SetOfTxs(t);
      }
    }
  }

  /** Insertion makes the pool larger exactly by an accepted transaction with a new nonce. */
  lemma InsertSize(p: Pool, tx: Tx, bump: nat)
    requires Sound(p) && tx !in p.all
    ensures |Insert(p, tx, bump).all| ==
            |p.all| + if Inserts(p, tx, bump) && tx.nonce !in Lane(p.pending, tx.sender) && tx.nonce !in Lane(p.queue, tx.sender) then 1 else 0
  {
    hide Outbids;
    EverySender(p, tx.sender);
    var l, q := Lane(p.pending, tx.sender), Lane(p.queue, tx.sender);
    if tx.nonce in l {
      assert l[tx.nonce] in p.all;
    } else if tx.nonce in q {
      assert q[tx.nonce] in p.all;
    }
  }

  /** The books after an admitted transaction: what was given up, and how many are known. */
  lemma AdmittedSize(b: Books, b': Books, x: Setting, tx: Tx, f: Facts, local: bool, answer: Answer) returns (drops: seq<Tx>)
    requires Sound(b.pool) && Added(b, b', x, tx, f, local, answer) && Refusal(b, x, tx, f, local) == None
    ensures GivenUp(b, x.cfg, drops) && SetOfTxs(drops) <= b.pool.all
    ensures |b'.pool.all| == |b.pool.all| - |SetOfTxs(drops)| + if answer == Answer(None, false) then 1 else 0
    ensures forall t :: t in b.pool.all && t in drops ==> t !in b'.pool.all
    ensures drops == [] && answer.err != None ==> b' == b
  {
    NotKnown(b, x, tx, f, local);
    hide Sound, RemoveAll, Insert, Inserts, Refusal, Cheapest, Enough, Lane;
    drops :| GivenUp(b, x.cfg, drops) && Lodged(RemoveAll(b.pool, x.world, drops), b.locals, b', x.cfg, tx, local, answer);
    var p := RemoveAll(b.pool, x.world, drops);
    RemoveAllKeeps(b.pool, x.world, drops);
    InsertSize(p, tx, x.cfg.priceBump);
    InsertOnly(p, tx, x.cfg.priceBump);
    DropsIn(b, x.cfg, drops);
    Without(b.pool.all, SetOfTxs(drops));
    if drops == [] { RemoveNone(b.pool, x.world); }
  }

  lemma NotKnown(b: Books, x: Setting, tx: Tx, f: Facts, local: bool)
    requires Refusal(b, x, tx, f, local) == None
    ensures tx !in b.pool.all
  {}

  lemma DropsIn(b: Books, cfg: Config, drops: seq<Tx>)
    requires GivenUp(b, cfg, drops)
    ensures SetOfTxs(drops) <= b.pool.all
  {}

  lemma Without(all: set<Tx>, gone: set<Tx>)
    requires gone <= all
    ensures |all - gone| == |all| - |gone|
  {
    assert all == (all - gone) + gone;
  }

  lemma InsertOnly(p: Pool, tx: Tx, bump: nat)
    ensures Insert(p, tx, bump).all <= p.all + {tx} && (!Inserts(p, tx, bump) ==> Insert(p, tx, bump) == p)
  {}

  /** Of a full pool something is given up exactly if it knows a remote transaction. */
  lemma GivesUpIff(b: Books, cfg: Config, drops: seq<Tx>)
    requires IsFull(b.pool, cfg) && GivenUp(b, cfg, drops)
    ensures drops != [] <==> KnowsRemote(b)
  {
    if drops != [] { assert drops[0] in drops; }
  }

  // ---------------------------------------------------------------- one transaction

  /** A pool within its limit leaves it exactly when it was full of local transactions only and the accepted one
      takes the place of none. */
  lemma OverflowsIff(b: Books, b': Books, x: Setting, tx: Tx, f: Facts, local: bool, answer: Answer)
    requires Sound(b.pool) && Added(b, b', x, tx, f, local, answer) && |b.pool.all| <= Limit(x.cfg)
    ensures |b'.pool.all| > Limit(x.cfg) <==> answer == Answer(None, false) && IsFull(b.pool, x.cfg) && !KnowsRemote(b)
  {
    hide Sound, Added, Refusal, Cheapest, KnowsRemote;
    if Refusal(b, x, tx, f, local) != None {
      RefusedStays(b, b', x, tx, f, local, answer);
    } else {
      var drops := AdmittedSize(b, b', x, tx, f, local, answer);
      SetSize(drops);
      if IsFull(b.pool, x.cfg) {
        GivesUpIff(b, x.cfg, drops);
        if drops != [] { assert drops[0] in SetOfTxs(drops); }
      }
    }
  }

  lemma RefusedStays(b: Books, b': Books, x: Setting, tx: Tx, f: Facts, local: bool, answer: Answer)
    requires Added(b, b', x, tx, f, local, answer) && Refusal(b, x, tx, f, local) != None
    ensures b' == b && answer.err != None
  {}

  /** A full pool that knows a remote transaction does not grow, and forgets one of them for an accepted one. */
  lemma FullForgets(b: Books, b': Books, x: Setting, tx: Tx, f: Facts, local: bool, answer: Answer)
    requires Sound(b.pool) && Added(b, b', x, tx, f, local, answer) && IsFull(b.pool, x.cfg) && KnowsRemote(b)
    ensures |b'.pool.all| <= |b.pool.all|
    ensures answer.err == None ==> exists t :: t in b.pool.all && t.sender !in b.locals && t !in b'.pool.all
  {
    hide Sound, Added, Refusal, KnowsRemote;
    if Refusal(b, x, tx, f, local) != None {
      RefusedStays(b, b', x, tx, f, local, answer);
    } else {
      var drops := AdmittedSize(b, b', x, tx, f, local, answer);
      SetSize(drops);
      GivesUpIff(b, x.cfg, drops);
      assert drops[0] in SetOfTxs(drops) && drops[0] in drops;
    }
  }

  /** A refused transaction leaves the pool as it was exactly if it was refused before room was made, or none had to
      be made, or none could be. */
  lemma RefusedKeepsIff(b: Books, b': Books, x: Setting, tx: Tx, f: Facts, local: bool, answer: Answer)
    requires Sound(b.pool) && Added(b, b', x, tx, f, local, answer) && answer.err != None
    ensures b' == b <==> Refusal(b, x, tx, f, local) != None || !IsFull(b.pool, x.cfg) || !KnowsRemote(b)
  {
    hide Sound, Added, Refusal, KnowsRemote;
    if Refusal(b, x, tx, f, local) != None {
      RefusedStays(b, b', x, tx, f, local, answer);
    } else {
      var drops := AdmittedSize(b, b', x, tx, f, local, answer);
      if IsFull(b.pool, x.cfg) { GivesUpIff(b, x.cfg, drops); }
      if drops != [] { assert drops[0] in drops && drops[0] in SetOfTxs(drops); }
    }
  }

  /** The pool is within its limit, or everything else in it is local. */
  ghost predicate Fits(all: set<Tx>, tx: Tx, locals: set<Address>, cfg: Config) {
    |all| <= Limit(cfg) || forall t :: t in all ==> t == tx || t.sender in locals
  }

  /** What is given up without counting anything twice makes room, or is everything remote. */
  lemma RoomMade(b: Books, w: World, cfg: Config, drops: seq<Tx>, all: set<Tx>, tx: Tx)
    requires Sound(b.pool) && IsFull(b.pool, cfg) && GivenUp(b, cfg, drops) && NoTwice(drops)
    requires OnlyNew(RemoveAll(b.pool, w, drops).all, all, tx)
    ensures Fits(all, tx, b.locals, cfg)
  {
    hide Sound, RemoveAll, Cheapest;
    RemoveAllKeeps(b.pool, w, drops);
    SetSize(drops);
    var rest := RemoveAll(b.pool, w, drops).all;
    assert rest == b.pool.all - SetOfTxs(drops);
    if |drops| == Excess(b.pool, cfg) {
      DropsIn(b, cfg, drops);
      Without(b.pool.all, SetOfTxs(drops));
      SubsetSize(all, rest + {tx});
    }
  }

  // ---------------------------------------------------------------- a batch

  /** A pool of remote transactions only is never driven over its limit. */
  lemma {:induction false} BatchFits(trace: seq<Books>, x: Setting, txs: seq<Tx>, facts: seq<Facts>, answers: seq<Answer>, i: nat)
    requires Batch(trace, x, txs, facts, false, answers) && Sound(trace[0].pool) && i <= |txs|
    requires trace[0].locals == {} && |trace[0].pool.all| <= Limit(x.cfg) && Limit(x.cfg) > 0
    ensures trace[i].locals == {} && |trace[i].pool.all| <= Limit(x.cfg)
  {
    hide Sound, Added;
    if i > 0 {
      BatchFits(trace, x, txs, facts, answers, i - 1);
      BatchSound(trace, x, txs, facts, false, answers, i - 1);
      OverflowsIff(trace[i - 1], trace[i], x, txs[i - 1], facts[i - 1], false, answers[i - 1]);
      RemoteStays(trace[i - 1], trace[i], x, txs[i - 1], facts[i - 1], answers[i - 1]);
      if trace[i - 1].pool.all != {} {
        var t :| t in trace[i - 1].pool.all;
        assert KnowsRemote(trace[i - 1]);
      }
    }
  }

  lemma RemoteStays(b: Books, b': Books, x: Setting, tx: Tx, f: Facts, answer: Answer)
    requires Added(b, b', x, tx, f, false, answer)
    ensures b'.locals == b.locals
  {
    hide Refusal, RemoveAll, Insert, Inserts, GivenUp;
  }

  lemma {:induction false} PromoteAllShrinks(p: Pool, w: World, locals: set<Address>, cfg: Config, accounts: seq<Address>)
    ensures PromoteAll(p, w, locals, cfg, accounts).all <= p.all
  {
    hide Payable, ReadyRun, Limited;
    if |accounts| > 0 { PromoteAllShrinks(p, w, locals, cfg, accounts[..|accounts| - 1]); }
  }

  /** The promotion after a batch makes no transaction known. */
  lemma FinishedShrinks(p: Pool, p': Pool, locals: set<Address>, w: World, cfg: Config, accounts: seq<Address>)
    requires Finished(p, p', locals, w, cfg, accounts)
    ensures p'.all <= p.all && |p'.all| <= |p.all|
  {
    hide PromoteAll, Total, CutFairly, NoneInVain, NonceFollows, UnloadShape, UnloadOrder;
    var q := PromoteAll(p, w, locals, cfg, accounts);
    var trimmed: Pool, heard: map<Address, nat> :| PendingLimited(q, trimmed, w, locals, cfg) && QueueLimited(trimmed, p', locals, heard, cfg);
    PromoteAllShrinks(p, w, locals, cfg, accounts);
    QueueShrinks(trimmed, p', locals, heard, cfg);
    SubsetSize(p'.all, p.all);
  }

  lemma QueueShrinks(p0: Pool, p: Pool, locals: set<Address>, heard: map<Address, nat>, cfg: Config)
    requires QueueLimited(p0, p, locals, heard, cfg)
    ensures p.all <= p0.all
  {
    if Total(p0.queue) > cfg.globalQueue {
      var todo: set<Address>, drop: nat :| Unloading(p0, p, locals, heard, cfg.globalQueue, todo, drop) && (drop == 0 || todo == {});
    }
  }

  /** So a whole batch, with the promotion after it, stays within the limit. */
  lemma BatchStaysWithin(trace: seq<Books>, x: Setting, txs: seq<Tx>, facts: seq<Facts>, answers: seq<Answer>, p': Pool)
    requires Batch(trace, x, txs, facts, false, answers) && Sound(trace[0].pool)
    requires trace[0].locals == {} && |trace[0].pool.all| <= Limit(x.cfg) && Limit(x.cfg) > 0
    requires Worked(trace[|txs|].pool, p', trace[|txs|].locals, x.world, x.cfg, Dirty(txs, answers))
    ensures |p'.all| <= Limit(x.cfg)
  {
    hide Sound, Added, Finished;
    BatchFits(trace, x, txs, facts, answers, |txs|);
    if Dirty(txs, answers) != {} {
      var b := trace[|txs|];
      var accounts :| (forall c :: c in accounts <==> c in Dirty(txs, answers)) && Finished(b.pool, p', b.locals, x.world, x.cfg, accounts);
      FinishedShrinks(b.pool, p', b.locals, x.world, x.cfg, accounts);
    }
  }

  // ---------------------------------------------------------------- a refused transaction that costs another

  const CHEAP: Tx := Tx(1, 0, 1, 0, 0, 0)
  const HELD: Tx := Tx(0, 0, 100, 0, 0, 0)
  const BARELY: Tx := Tx(0, 0, 101, 0, 0, 0)
  const TWO: Config := Config(10, 1, 1, 1, 1)
  const FRESH: World := World(map[], map[], 0)
  const FULL: Pool := Pool(map[0 := map[0 := HELD], 1 := map[0 := CHEAP]], map[], {CHEAP, HELD}, map[0 := 1, 1 := 1])
  const SPENT: Pool := Pool(map[0 := map[0 := HELD]], map[], {HELD}, map[0 := 1, 1 := 0])
  const USUAL: Facts := Facts(Normal, true, 100, 0, false, true, 0)

  lemma CheapGone()
    ensures RemoveAll(FULL, FRESH, [CHEAP]) == SPENT
  {
    assert RemoveKeeps(Lane(FULL.pending, 1), true, 0) == map[];
    assert [CHEAP][..0] == [];
    assert RemoveAll(FULL, FRESH, [CHEAP]) == Remove(FULL, FRESH, CHEAP);
    assert FULL.all - {CHEAP} == {HELD};
    assert FULL.pending - {1} == SPENT.pending;
  }

  /** A bid of 101 against 100 is one percent above it: refused, after another sender's transaction was dropped. */
  lemma RefusedCanDrop()
    ensures Sound(FULL) && Tight(FULL, FRESH)
    ensures Added(Books(FULL, {}), Books(SPENT, {}), Setting(FRESH, 0, TWO), BARELY, USUAL, false, Answer(Some(ReplaceUnderpriced), false))
  {
    hide RemoveAll;
    forall a: Address ensures SoundAt(FULL, a) && TightAt(FULL, FRESH, a) {}
    CheapGone();
    assert |FULL.all| == 2;
    var b := Books(FULL, {});
    assert CHEAP in FULL.all && CHEAP.price < BARELY.price;
    assert Refusal(b, Setting(FRESH, 0, TWO), BARELY, USUAL, false) == None;
    assert GivenUp(b, TWO, [CHEAP]);
    assert !Inserts(SPENT, BARELY, TWO.priceBump);
    assert Lodged(SPENT, {}, Books(SPENT, {}), TWO, BARELY, false, Answer(Some(ReplaceUnderpriced), false));
  }

  // ---------------------------------------------------------------- a pool of local transactions

  const THIRD: Tx := Tx(2, 0, 5, 0, 0, 0)
  const GROWN: Pool := FULL.(queue := map[2 := map[0 := THIRD]], all := {CHEAP, HELD, THIRD})

  /** A pool of two that holds two local transactions accepts a third from elsewhere. */
  lemma LocalsCanOverflow()
    ensures Sound(FULL) && |FULL.all| == Limit(TWO) && |GROWN.all| == Limit(TWO) + 1
    ensures Added(Books(FULL, {0, 1}), Books(GROWN, {0, 1}), Setting(FRESH, 0, TWO), THIRD, USUAL, false, Answer(None, false))
  {
    hide RemoveAll;
    forall a: Address ensures SoundAt(FULL, a) {}
    var b := Books(FULL, {0, 1});
    assert |FULL.all| == 2 && GROWN.all == FULL.all + {THIRD};
    assert CHEAP in FULL.all && CHEAP.price < THIRD.price;
    RemoveNone(FULL, FRESH);
    assert Refusal(b, Setting(FRESH, 0, TWO), THIRD, USUAL, false) == None;
    assert GivenUp(b, TWO, []);
    assert Insert(FULL, THIRD, TWO.priceBump) == GROWN;
    assert Lodged(FULL, {0, 1}, Books(GROWN, {0, 1}), TWO, THIRD, false, Answer(None, false));
  }
}
