/** Adding a batch of transactions (add, addTxsLocked, chain/core/tx_pool.go): what becomes of each of them,
    and which senders a batch leaves alone. */
module PoolAdds {
  import opened Options
  import opened TxMap
  import opened PricedList
  import opened PoolState
  import opened PoolMoves
  import opened PoolReset
  import opened PoolRuns
  import opened PoolFair
  import opened PoolFacts
  import opened TxValidation

  // ---------------------------------------------------------------- one transaction

  datatype Setting = Setting(world: World, gasPrice: nat, cfg: Config)

  /** The lanes and the senders treated as local. */
  datatype Books = Books(pool: Pool, locals: set<Address>)

  datatype Answer = Answer(err: Option<Reject>, replaced: bool)

  predicate IsFull(p: Pool, cfg: Config) { |p.all| >= cfg.globalSlots + cfg.globalQueue }

  /** Why add refuses a transaction without touching the pool. */
  ghost function Refusal(b: Books, x: Setting, tx: Tx, f: Facts, local: bool): Option<Reject> {
    if tx in b.pool.all then Some(KnownTransaction)
    else if Validate(x.world, b.locals, x.gasPrice, tx, f, local) != None then Validate(x.world, b.locals, x.gasPrice, tx, f, local)
    else if IsFull(b.pool, x.cfg) && NoBetter(tx, b.pool.all, b.locals) then Some(Underpriced)
    else None
  }

  /** How many have to go for one more transaction to fit. */
  function Excess(p: Pool, cfg: Config): nat
    requires IsFull(p, cfg)
  {
    |p.all| + 1 - (cfg.globalSlots + cfg.globalQueue)
  }

  /** What is given up for an admitted transaction: nothing, or of a full pool the cheapest remote ones, as many as
      have to go or all there are. */
  ghost predicate GivenUp(b: Books, cfg: Config, drops: seq<Tx>) {
    if IsFull(b.pool, cfg) then
      Cheapest(drops, b.pool.all, b.locals) && Enough(drops, Excess(b.pool, cfg), b.pool.all, b.locals)
    else drops == []
  }

  /** The transaction is put into the pool `p`, which has room for it. */
  ghost predicate Lodged(p: Pool, locals: set<Address>, b': Books, cfg: Config, tx: Tx, local: bool, answer: Answer) {
    && b'.pool == Insert(p, tx, cfg.priceBump)
    && answer == (if !Inserts(p, tx, cfg.priceBump) then Answer(Some(ReplaceUnderpriced), false)
                  else Answer(None, tx.nonce in Lane(p.pending, tx.sender) || tx.nonce in Lane(p.queue, tx.sender)))
    && b'.locals == (if local && Inserts(p, tx, cfg.priceBump) && tx.nonce !in Lane(p.pending, tx.sender)
                     then locals + {tx.sender} else locals)
  }

  ghost predicate Added(b: Books, b': Books, x: Setting, tx: Tx, f: Facts, local: bool, answer: Answer) {
    if Refusal(b, x, tx, f, local) != None then b' == b && answer == Answer(Refusal(b, x, tx, f, local), false)
    else exists drops :: GivenUp(b, x.cfg, drops) && Lodged(RemoveAll(b.pool, x.world, drops), b.locals, b', x.cfg, tx, local, answer)
  }

  lemma AddedRefused(b: Books, x: Setting, tx: Tx, f: Facts, local: bool, reason: Reject)
    requires Refusal(b, x, tx, f, local) == Some(reason)
    ensures Added(b, b, x, tx, f, local, Answer(Some(reason), false))
  {}

  lemma RefusalIs(b: Books, x: Setting, tx: Tx, f: Facts, local: bool)
    ensures tx in b.pool.all ==> Refusal(b, x, tx, f, local) == Some(KnownTransaction)
    ensures tx !in b.pool.all && Validate(x.world, b.locals, x.gasPrice, tx, f, local) != None ==>
              Refusal(b, x, tx, f, local) == Validate(x.world, b.locals, x.gasPrice, tx, f, local)
    ensures tx !in b.pool.all && Validate(x.world, b.locals, x.gasPrice, tx, f, local) == None ==>
              Refusal(b, x, tx, f, local) == if IsFull(b.pool, x.cfg) && NoBetter(tx, b.pool.all, b.locals) then Some(Underpriced) else None
  {}

  lemma AddedLodged(b: Books, b': Books, x: Setting, tx: Tx, f: Facts, local: bool, answer: Answer, drops: seq<Tx>)
    requires Refusal(b, x, tx, f, local) == None && GivenUp(b, x.cfg, drops)
    requires Lodged(RemoveAll(b.pool, x.world, drops), b.locals, b', x.cfg, tx, local, answer)
    ensures Added(b, b', x, tx, f, local, answer)
  {}

  lemma AddedSound(b: Books, b': Books, x: Setting, tx: Tx, f: Facts, local: bool, answer: Answer)
    requires Sound(b.pool) && Added(b, b', x, tx, f, local, answer)
    ensures Sound(b'.pool) && b.locals <= b'.locals
  {
    hide Sound, Refusal, RemoveAll, Insert, Inserts, GivenUp;
    if Refusal(b, x, tx, f, local) == None {
      var drops :| GivenUp(b, x.cfg, drops) && Lodged(RemoveAll(b.pool, x.world, drops), b.locals, b', x.cfg, tx, local, answer);
      RemoveAllKeeps(b.pool, x.world, drops);
      InsertKeeps(RemoveAll(b.pool, x.world, drops), x.world, tx, x.cfg.priceBump);
    }
  }

  // ---------------------------------------------------------------- who is left alone

  /** Nothing of sender `a` differs. */
  ghost predicate SameAt(p: Pool, p': Pool, a: Address) {
    && Lane(p'.pending, a) == Lane(p.pending, a) && Lane(p'.queue, a) == Lane(p.queue, a) && SameNonce(p, p', a)
  }

  lemma {:induction false} RemoveAllSpares(p: Pool, w: World, txs: seq<Tx>, a: Address)
    requires forall tx :: tx in txs ==> tx.sender != a
    ensures SameAt(p, RemoveAll(p, w, txs), a)
  {
    hide Remove;
    if |txs| > 0 {
      var t, x := txs[..|txs| - 1], txs[|txs| - 1];
      assert txs == t + [x];
      RemoveAllSpares(p, w, t, a);
      RemoveTouches(RemoveAll(p, w, t), w, x);
    }
  }

  /** A transaction leaves another sender alone if that sender is local or nothing is given up. */
  lemma AddedSpares(b: Books, b': Books, x: Setting, tx: Tx, f: Facts, local: bool, answer: Answer, a: Address)
    requires Sound(b.pool) && Added(b, b', x, tx, f, local, answer)
    requires tx.sender != a && (a in b.locals || !IsFull(b.pool, x.cfg))
    ensures SameAt(b.pool, b'.pool, a)
    ensures !IsFull(b.pool, x.cfg) ==> |b'.pool.all| <= |b.pool.all| + 1
  {
    hide Sound, Refusal, RemoveAll, Insert, Inserts, IsFull, Lane;
    if Refusal(b, x, tx, f, local) == None {
      var drops :| GivenUp(b, x.cfg, drops) && Lodged(RemoveAll(b.pool, x.world, drops), b.locals, b', x.cfg, tx, local, answer);
      var p := RemoveAll(b.pool, x.world, drops);
      RemoveAllKeeps(b.pool, x.world, drops);
      RemoveAllSpares(b.pool, x.world, drops, a);
      InsertKeeps(p, x.world, tx, x.cfg.priceBump);
      if !IsFull(b.pool, x.cfg) {
        RemoveNone(b.pool, x.world);
        InsertGrows(b.pool, tx, x.cfg.priceBump);
      }
    }
  }

  lemma InsertGrows(p: Pool, tx: Tx, bump: nat)
    ensures |Insert(p, tx, bump).all| <= |p.all| + 1
  {
    assert Insert(p, tx, bump).all <= p.all + {tx};
    SubsetSize(Insert(p, tx, bump).all, p.all + {tx});
  }

  // ---------------------------------------------------------------- a batch

  /** One transaction of the batch after the other. */
  ghost predicate Batch(trace: seq<Books>, x: Setting, txs: seq<Tx>, facts: seq<Facts>, local: bool, answers: seq<Answer>) {
    && |facts| == |txs| == |answers| && |trace| == |txs| + 1
    && forall i :: 0 <= i < |txs| ==> Added(trace[i], trace[i + 1], x, txs[i], facts[i], local, answers[i])
  }

  /** The senders of the transactions that were added and replaced none. */
  function Dirty(txs: seq<Tx>, answers: seq<Answer>): set<Address>
    requires |answers| == |txs|
  {
    set i | 0 <= i < |txs| && answers[i] == Answer(None, false) :: txs[i].sender
  }

  /** The promotion that ends the batch. */
  ghost predicate Finished(p: Pool, p': Pool, locals: set<Address>, w: World, cfg: Config, accounts: seq<Address>) {
    exists trimmed: Pool, heard: map<Address, nat> ::
      PendingLimited(PromoteAll(p, w, locals, cfg, accounts), trimmed, w, locals, cfg) && QueueLimited(trimmed, p', locals, heard, cfg)
  }

  ghost predicate Worked(p: Pool, p': Pool, locals: set<Address>, w: World, cfg: Config, dirty: set<Address>) {
    if dirty == {} then p' == p
    else exists accounts :: (forall a :: a in accounts <==> a in dirty) && Finished(p, p', locals, w, cfg, accounts)
  }

  lemma {:induction false} BatchSound(trace: seq<Books>, x: Setting, txs: seq<Tx>, facts: seq<Facts>, local: bool,
                                      answers: seq<Answer>, i: nat)
    requires Batch(trace, x, txs, facts, local, answers) && Sound(trace[0].pool) && i <= |txs|
    ensures Sound(trace[i].pool) && trace[0].locals <= trace[i].locals
  {
    hide Sound, Added;
    if i > 0 {
      BatchSound(trace, x, txs, facts, local, answers, i - 1);
      AddedSound(trace[i - 1], trace[i], x, txs[i - 1], facts[i - 1], local, answers[i - 1]);
    }
  }

  /** The batch cannot reach sender `a`: none of it is from `a`, and `a` is local, or the pool has room for the
      whole batch and `a` keeps within its guaranteed slots. */
  ghost predicate OutOfReach(b: Books, cfg: Config, txs: seq<Tx>, a: Address) {
    && (forall i :: 0 <= i < |txs| ==> txs[i].sender != a)
    && (a in b.locals ||
        (|b.pool.all| + |txs| <= cfg.globalSlots + cfg.globalQueue && |Lane(b.pool.pending, a)| <= cfg.accountSlots))
  }

  lemma {:induction false} BatchSpares(trace: seq<Books>, x: Setting, txs: seq<Tx>, facts: seq<Facts>, local: bool,
                                       answers: seq<Answer>, a: Address, i: nat)
    requires Batch(trace, x, txs, facts, local, answers) && Sound(trace[0].pool) && OutOfReach(trace[0], x.cfg, txs, a) && i <= |txs|
    ensures SameAt(trace[0].pool, trace[i].pool, a)
    ensures a !in trace[0].locals ==> |trace[i].pool.all| <= |trace[0].pool.all| + i
  {
    hide Sound, Added, Lane, SameNonce;
    if i > 0 {
      BatchSpares(trace, x, txs, facts, local, answers, a, i - 1);
      BatchSound(trace, x, txs, facts, local, answers, i - 1);
      AddedSpares(trace[i - 1], trace[i], x, txs[i - 1], facts[i - 1], local, answers[i - 1], a);
      SameThen(trace[0].pool, trace[i - 1].pool, trace[i].pool, a);
    } else {
      SameThen(trace[0].pool, trace[0].pool, trace[0].pool, a);
    }
  }

  lemma SameThen(p0: Pool, p1: Pool, p2: Pool, a: Address)
    ensures SameAt(p0, p0, a)
    ensures SameAt(p0, p1, a) && SameAt(p1, p2, a) ==> SameAt(p0, p2, a)
  {}

  // ---------------------------------------------------------------- and the promotion after it

  lemma {:induction false} PromoteAllSpares(p: Pool, w: World, locals: set<Address>, cfg: Config, accounts: seq<Address>, a: Address)
    requires Sound(p) && a !in accounts
    ensures SameAt(p, PromoteAll(p, w, locals, cfg, accounts), a)
  {
    hide Sound, PromoteAccount;
    if |accounts| > 0 {
      var rest, last := accounts[..|accounts| - 1], accounts[|accounts| - 1];
      assert accounts == rest + [last];
      PromoteAllSpares(p, w, locals, cfg, rest, a);
      PromoteAllSound(p, w, locals, cfg, rest);
      PromoteSound(PromoteAll(p, w, locals, cfg, rest), w, locals, cfg, last);
    }
  }

  /** The pending limit leaves alone who is local or within the guaranteed slots. */
  lemma LimitSpares(p0: Pool, p: Pool, w: World, locals: set<Address>, cfg: Config, a: Address)
    requires PendingLimited(p0, p, w, locals, cfg) && (a in locals || |Lane(p0.pending, a)| <= cfg.accountSlots)
    ensures SameAt(p0, p, a)
  {
    hide Total, CutFairly, NoneInVain;
    var l, l0 := Lane(p.pending, a), Lane(p0.pending, a);
    assert LowPart(l, l0) && NonceFollows(p0, p, w, a);
    if a !in locals {
      assert Len(p, a) >= Len(p0, a);
      SameSize(l, l0);
    }
  }

  lemma SameSize(l: Txs, l0: Txs)
    requires LowPart(l, l0) && |l| >= |l0|
    ensures l == l0
  {
    assert l.Keys <= l0.Keys && |l.Keys| == |l| && |l0.Keys| == |l0|;
    SubsetSize(l0.Keys - l.Keys, l0.Keys);
    assert l0.Keys == l.Keys + (l0.Keys - l.Keys);
    if n: nat :| n in l0.Keys - l.Keys { SubsetSize({n}, l0.Keys - l.Keys); }
    assert l.Keys == l0.Keys;
  }

  /** The queue limit touches only the queue, from the top. */
  lemma QueueSpares(p0: Pool, p: Pool, locals: set<Address>, heard: map<Address, nat>, cfg: Config, a: Address)
    requires QueueLimited(p0, p, locals, heard, cfg)
    ensures Lane(p.pending, a) == Lane(p0.pending, a) && SameNonce(p0, p, a) && LowPart(Lane(p.queue, a), Lane(p0.queue, a))
  {
    hide Total, UnloadOrder, UnloadedAll;
    if Total(p0.queue) > cfg.globalQueue {
      var todo: set<Address>, drop: nat :| Unloading(p0, p, locals, heard, cfg.globalQueue, todo, drop) && (drop == 0 || todo == {});
      assert UnloadShape(p0, p, locals, todo);
    }
  }

  /** A sender in order whom the batch cannot reach is still in order after it, and no nonce is tracked for it
      that was not. */
  lemma BatchKeepsOrder(trace: seq<Books>, x: Setting, txs: seq<Tx>, facts: seq<Facts>, local: bool, answers: seq<Answer>,
                        p': Pool, a: Address)
    requires Batch(trace, x, txs, facts, local, answers) && Sound(trace[0].pool) && OutOfReach(trace[0], x.cfg, txs, a)
    requires Worked(trace[|txs|].pool, p', trace[|txs|].locals, x.world, x.cfg, Dirty(txs, answers))
    requires InOrder(trace[0].pool, a) && a !in trace[0].pool.nonces
    ensures InOrder(p', a) && a !in p'.nonces
  {
    hide Sound, Added, PendingLimited, QueueLimited, PromoteAll, Lane, InOrder, LowPart;
    var b, b' := trace[0], trace[|txs|];
    BatchSpares(trace, x, txs, facts, local, answers, a, |txs|);
    BatchSound(trace, x, txs, facts, local, answers, |txs|);
    OrderStays(b.pool, b'.pool, a);
    if Dirty(txs, answers) != {} {
      var accounts :| (forall c :: c in accounts <==> c in Dirty(txs, answers)) &&
                      Finished(b'.pool, p', b'.locals, x.world, x.cfg, accounts);
      FinishedKeepsOrder(b'.pool, p', b'.locals, x.world, x.cfg, accounts, a);
    }
  }

  lemma FinishedKeepsOrder(p: Pool, p': Pool, locals: set<Address>, w: World, cfg: Config, accounts: seq<Address>, a: Address)
    requires Sound(p) && Finished(p, p', locals, w, cfg, accounts) && a !in accounts
    requires a in locals || |Lane(p.pending, a)| <= cfg.accountSlots
    requires InOrder(p, a) && a !in p.nonces
    ensures InOrder(p', a) && a !in p'.nonces
  {
    hide Sound, PendingLimited, QueueLimited, PromoteAll, Lane, InOrder, LowPart;
    var q := PromoteAll(p, w, locals, cfg, accounts);
    var trimmed: Pool, heard: map<Address, nat> :| PendingLimited(q, trimmed, w, locals, cfg) && QueueLimited(trimmed, p', locals, heard, cfg);
    PromoteAllSpares(p, w, locals, cfg, accounts, a);
    LimitSpares(q, trimmed, w, locals, cfg, a);
    SameThen(p, q, trimmed, a);
    QueueSpares(trimmed, p', locals, heard, cfg, a);
    OrderStays(p, p', a);
  }

  lemma OrderStays(p: Pool, p': Pool, a: Address)
    requires Lane(p'.pending, a) == Lane(p.pending, a)
    requires LowPart(Lane(p'.queue, a), Lane(p.queue, a)) || Lane(p'.queue, a) == Lane(p.queue, a)
    ensures InOrder(p, a) ==> InOrder(p', a)
  {
    if InOrder(p, a) {
      var lo: nat, hi: nat :| OrderedAt(p, a, lo, hi);
      assert OrderedAt(p', a, lo, hi);
    }
  }

  lemma DirtyMore(txs: seq<Tx>, answers: seq<Answer>, i: nat, answer: Answer)
    requires i < |txs| && |answers| == i
    ensures Dirty(txs[..i + 1], answers + [answer]) ==
            Dirty(txs[..i], answers) + if answer == Answer(None, false) then {txs[i].sender} else {}
  {
    var t, s := txs[..i + 1], answers + [answer];
    forall a ensures a in Dirty(t, s) <==> a in Dirty(txs[..i], answers) || (answer == Answer(None, false) && a == txs[i].sender) {
      if a in Dirty(t, s) {
        var k :| 0 <= k < |t| && s[k] == Answer(None, false) && t[k].sender == a;
        if k < i { assert txs[..i][k].sender == a && answers[k] == Answer(None, false); }
      }
      if a in Dirty(txs[..i], answers) {
        var k :| 0 <= k < i && answers[k] == Answer(None, false) && txs[..i][k].sender == a;
        assert t[k].sender == a && s[k] == Answer(None, false);
      }
      if answer == Answer(None, false) && a == txs[i].sender { assert t[i].sender == a && s[i] == Answer(None, false); }
    }
  }

  // ---------------------------------------------------------------- reset

  /** reset forgets the tracked nonces first. */
  lemma Untracked(p: Pool)
    requires Sound(p)
    ensures Sound(p.(nonces := map[]))
  {
    forall a: Address ensures SoundAt(p.(nonces := map[]), a) { assert SoundAt(p, a); }
  }
}
