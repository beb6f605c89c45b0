/** What may be left in the queue (chain/core/tx_pool.go): between two calls of the pool no transaction is queued
    that could follow its sender's pending ones. */
module PoolDrain {
  import opened Options
  import opened TxMap
  import opened PoolState
  import opened PoolMoves
  import opened PoolReset
  import opened PoolRuns
  import opened PoolFair
  import opened PoolFacts
  import opened TxValidation
  import opened PoolAdds
  import opened PoolStall

  /** Every sender whose queue was drained still has it drained. */
  ghost predicate KeepsDrained(p: Pool, p': Pool, w: World) { forall a: Address :: Exhausted(p, w, a) ==> Exhausted(p', w, a) }

  // ---------------------------------------------------------------- removal and insertion

  lemma DrainedElsewhere(p: Pool, p': Pool, w: World, a: Address, b: Address)
    requires OnlyTouches(p, p', b) && a != b && Exhausted(p, w, a)
    ensures Exhausted(p', w, a)
  {}

  /** removeTx takes the next nonce back to what it removes, which is in neither lane then. */
  lemma RemoveDrained(p: Pool, w: World, tx: Tx, a: Address)
    requires Sound(p) && Exhausted(p, w, a)
    ensures Exhausted(Remove(p, w, tx), w, a)
  {
    RemoveTouches(p, w, tx);
    if tx.sender == a {
      EverySender(p, a);
      RemoveLanes(p, w, tx);
    } else {
      DrainedElsewhere(p, Remove(p, w, tx), w, a, tx.sender);
    }
  }

  lemma {:induction false} RemoveAllDrained(p: Pool, w: World, txs: seq<Tx>)
    requires Sound(p)
    ensures KeepsDrained(p, RemoveAll(p, w, txs), w)
  {
    hide Remove, Sound, Exhausted;
    if |txs| > 0 {
      var t, x := txs[..|txs| - 1], txs[|txs| - 1];
      RemoveAllDrained(p, w, t);
      RemoveAllKeeps(p, w, t);
      forall a: Address | Exhausted(p, w, a) ensures Exhausted(RemoveAll(p, w, txs), w, a) { RemoveDrained(RemoveAll(p, w, t), w, x, a); }
    }
  }

  /** Only a transaction with a new nonce can make its sender's queue ready. */
  lemma InsertDrained(p: Pool, w: World, tx: Tx, bump: nat, a: Address)
    requires Sound(p) && Exhausted(p, w, a)
    requires a != tx.sender || !Inserts(p, tx, bump) || tx.nonce in Lane(p.pending, a) || tx.nonce in Lane(p.queue, a)
    ensures Exhausted(Insert(p, tx, bump), w, a)
  {
    InsertKeeps(p, w, tx, bump);
    if tx.sender != a { DrainedElsewhere(p, Insert(p, tx, bump), w, a, tx.sender); }
  }

  lemma AddedDrained(b: Books, b': Books, x: Setting, tx: Tx, f: Facts, local: bool, answer: Answer, a: Address)
    requires Sound(b.pool) && Added(b, b', x, tx, f, local, answer) && Exhausted(b.pool, x.world, a)
    requires a != tx.sender || answer != Answer(None, false)
    ensures Exhausted(b'.pool, x.world, a)
  {
    hide Sound, Refusal, RemoveAll, Insert, Inserts, GivenUp, Exhausted;
    if Refusal(b, x, tx, f, local) == None {
      var drops :| GivenUp(b, x.cfg, drops) && Lodged(RemoveAll(b.pool, x.world, drops), b.locals, b', x.cfg, tx, local, answer);
      RemoveAllKeeps(b.pool, x.world, drops);
      RemoveAllDrained(b.pool, x.world, drops);
      InsertDrained(RemoveAll(b.pool, x.world, drops), x.world, tx, x.cfg.priceBump, a);
    }
  }

  lemma {:induction false} BatchDrained(trace: seq<Books>, x: Setting, txs: seq<Tx>, facts: seq<Facts>, local: bool,
                                        answers: seq<Answer>, a: Address, i: nat)
    requires Batch(trace, x, txs, facts, local, answers) && Sound(trace[0].pool) && i <= |txs|
    requires Exhausted(trace[0].pool, x.world, a) && a !in Dirty(txs, answers)
    ensures Exhausted(trace[i].pool, x.world, a)
  {
    hide Sound, Added, Exhausted;
    if i > 0 {
      BatchDrained(trace, x, txs, facts, local, answers, a, i - 1);
      BatchSound(trace, x, txs, facts, local, answers, i - 1);
      AddedDrained(trace[i - 1], trace[i], x, txs[i - 1], facts[i - 1], local, answers[i - 1], a);
    }
  }

  // ---------------------------------------------------------------- promotion and the limits

  lemma {:induction false} PromoteAllDrains(p: Pool, w: World, locals: set<Address>, cfg: Config, accounts: seq<Address>, a: Address)
    requires Sound(p) && (a in accounts || Exhausted(p, w, a))
    ensures Exhausted(PromoteAll(p, w, locals, cfg, accounts), w, a)
  {
    hide Sound, PromoteAccount, Exhausted;
    if |accounts| > 0 {
      var rest, last := accounts[..|accounts| - 1], accounts[|accounts| - 1];
      assert accounts == rest + [last];
      PromoteAllSound(p, w, locals, cfg, rest);
      var q := PromoteAll(p, w, locals, cfg, rest);
      PromoteSound(q, w, locals, cfg, last);
      if last == a {
        PromoteDrains(q, w, locals, cfg, a);
      } else {
        PromoteAllDrains(p, w, locals, cfg, rest, a);
        DrainedElsewhere(q, PromoteAccount(q, w, locals, cfg, last), w, a, last);
      }
    }
  }

  /** The pending limit lowers a next nonce only to a nonce that was pending. */
  lemma TrimmedDrained(p0: Pool, p: Pool, w: World, a: Address)
    requires Sound(p0) && Trimmed(p0, p, w) && Exhausted(p0, w, a)
    ensures Exhausted(p, w, a)
  {
    EverySender(p0, a);
    assert NonceFollows(p0, p, w, a);
  }

  lemma FinishedDrains(p: Pool, p': Pool, locals: set<Address>, w: World, cfg: Config, accounts: seq<Address>, a: Address)
    requires Sound(p) && Finished(p, p', locals, w, cfg, accounts) && (a in accounts || Exhausted(p, w, a))
    ensures Exhausted(p', w, a)
  {
    hide Sound, PromoteAll, Trimmed, QueueLimited;
    var q := PromoteAll(p, w, locals, cfg, accounts);
    var trimmed: Pool, heard: map<Address, nat> :| PendingLimited(q, trimmed, w, locals, cfg) && QueueLimited(trimmed, p', locals, heard, cfg);
    PromoteAllSound(p, w, locals, cfg, accounts);
    PromoteAllDrains(p, w, locals, cfg, accounts, a);
    LimitedDrained(q, trimmed, p', locals, w, cfg, heard, a);
  }

  lemma LimitedDrained(q: Pool, trimmed: Pool, p': Pool, locals: set<Address>, w: World, cfg: Config, heard: map<Address, nat>, a: Address)
    requires Sound(q) && Exhausted(q, w, a) && PendingLimited(q, trimmed, w, locals, cfg) && QueueLimited(trimmed, p', locals, heard, cfg)
    ensures Exhausted(p', w, a)
  {
    hide Sound, Trimmed, QueueLimited;
    TrimmedDrained(q, trimmed, w, a);
    QueueSpares(trimmed, p', locals, heard, cfg, a);
  }

  // ---------------------------------------------------------------- whole calls

  /** A batch with the promotion that ends it keeps every sender's queue drained. */
  lemma BatchDrains(trace: seq<Books>, x: Setting, txs: seq<Tx>, facts: seq<Facts>, local: bool, answers: seq<Answer>, p': Pool, a: Address)
    requires Batch(trace, x, txs, facts, local, answers) && Sound(trace[0].pool) && Exhausted(trace[0].pool, x.world, a)
    requires Worked(trace[|txs|].pool, p', trace[|txs|].locals, x.world, x.cfg, Dirty(txs, answers))
    ensures Exhausted(p', x.world, a)
  {
    hide Sound, Added, Exhausted, Finished;
    var b := trace[|txs|];
    BatchSound(trace, x, txs, facts, local, answers, |txs|);
    if a !in Dirty(txs, answers) { BatchDrained(trace, x, txs, facts, local, answers, a, |txs|); }
    if Dirty(txs, answers) != {} {
      var accounts :| (forall c :: c in accounts <==> c in Dirty(txs, answers)) && Finished(b.pool, p', b.locals, x.world, x.cfg, accounts);
      FinishedDrains(b.pool, p', b.locals, x.world, x.cfg, accounts, a);
    }
  }

  lemma BatchKeepsDrained(trace: seq<Books>, x: Setting, txs: seq<Tx>, facts: seq<Facts>, local: bool, answers: seq<Answer>, p': Pool)
    requires Batch(trace, x, txs, facts, local, answers) && Sound(trace[0].pool)
    requires Worked(trace[|txs|].pool, p', trace[|txs|].locals, x.world, x.cfg, Dirty(txs, answers))
    ensures KeepsDrained(trace[0].pool, p', x.world)
  {
    hide Sound, Added, Exhausted, Finished, Worked;
    forall a: Address | Exhausted(trace[0].pool, x.world, a) ensures Exhausted(p', x.world, a) {
      BatchDrains(trace, x, txs, facts, local, answers, p', a);
    }
  }

  lemma ReinjectsSound(b: Books, x: Setting, txs: seq<Tx>, facts: seq<Facts>, after: Books)
    requires Sound(b.pool) && Reinjects(b, x, txs, facts, after)
    ensures Sound(after.pool)
  {
    hide Sound, Added, Finished;
    var trace: seq<Books>, answers: seq<Answer> :|
      && Batch(trace, x, txs, facts, false, answers) && trace[0] == b.(pool := b.pool.(nonces := map[]))
      && after.locals == trace[|txs|].locals
      && Worked(trace[|txs|].pool, after.pool, after.locals, x.world, x.cfg, Dirty(txs, answers));
    Untracked(b.pool);
    BatchSound(trace, x, txs, facts, false, answers, |txs|);
    if Dirty(txs, answers) != {} {
      var accounts :| (forall c :: c in accounts <==> c in Dirty(txs, answers)) &&
                      Finished(trace[|txs|].pool, after.pool, after.locals, x.world, x.cfg, accounts);
      FinishedSound(trace[|txs|].pool, after.pool, after.locals, x.world, x.cfg, accounts);
    }
  }

  /** A new head leaves every sender's queue drained, whatever was queued before and whatever is reinjected. */
  lemma ResetDrains(b: Books, x: Setting, txs: seq<Tx>, facts: seq<Facts>, after: Books, end: Pool, a: Address)
    requires Sound(b.pool) && ResetTo(b, x, txs, facts, after, end)
    ensures Exhausted(end, x.world, a)
  {
    hide Sound, Reinjects, DemoteAll, Finished, TrackPending;
    ReinjectsSound(b, x, txs, facts, after);
    var demoted, queued :| Recovers(after, x, demoted, queued, end);
    var p1 := DemoteAll(after.pool, x.world, demoted);
    DemoteAllSound(after.pool, x.world, demoted);
    TrackSound(p1);
    TrackedQueue(p1);
    FinishedDrains(TrackPending(p1), end, after.locals, x.world, x.cfg, queued, a);
  }

  lemma TrackedQueue(p: Pool)
    requires forall a :: a in p.pending ==> p.pending[a] != map[]
    ensures TrackPending(p).queue == p.queue
  {}
}
