/** A new chain head with reinjected transactions (reset, chain/core/tx_pool.go): exactly which senders with
    nothing reinjected come out of it in order. */
module PoolStall {
  import opened Options
  import opened TxMap
  import opened PoolState
  import opened PoolMoves
  import opened PoolReset
  import opened PoolRuns
  import opened PoolFair
  import opened PoolFacts
  import opened TxValidation
  import opened PoolAdds

  // ---------------------------------------------------------------- reset as a relation

  /** From the books `b`, the batch reinjected under the new setting leads to `after`. */
  ghost predicate Reinjects(b: Books, x: Setting, txs: seq<Tx>, facts: seq<Facts>, after: Books) {
    exists trace: seq<Books>, answers: seq<Answer> ::
      && Batch(trace, x, txs, facts, false, answers) && trace[0] == b.(pool := b.pool.(nonces := map[]))
      && after.locals == trace[|txs|].locals
      && Worked(trace[|txs|].pool, after.pool, after.locals, x.world, x.cfg, Dirty(txs, answers))
  }

  /** From there, demotion, tracking and promotion lead to `end`. */
  ghost predicate Recovers(after: Books, x: Setting, demoted: seq<Address>, queued: seq<Address>, end: Pool) {
    var p1 := DemoteAll(after.pool, x.world, demoted);
    && Distinct(demoted) && (forall a :: a in demoted <==> a in after.pool.pending)
    && (forall a :: a in p1.pending ==> p1.pending[a] != map[]) && (forall a :: a in queued <==> a in p1.queue)
    && Finished(TrackPending(p1), end, after.locals, x.world, x.cfg, queued)
  }

  ghost predicate ResetTo(b: Books, x: Setting, txs: seq<Tx>, facts: seq<Facts>, after: Books, end: Pool) {
    Reinjects(b, x, txs, facts, after) && exists demoted, queued :: Recovers(after, x, demoted, queued, end)
  }

  lemma ResetIs(b: Books, x: Setting, txs: seq<Tx>, facts: seq<Facts>, after: Books, end: Pool, demoted: seq<Address>, queued: seq<Address>)
    requires Reinjects(b, x, txs, facts, after) && Recovers(after, x, demoted, queued, end)
    ensures ResetTo(b, x, txs, facts, after, end)
  {}

  /** The reinjection took a nonce below the new state's out of the sender's pending lane. */
  ghost predicate TakenBelow(p: Pool, p': Pool, w: World, a: Address) {
    exists n: nat :: n in Lane(p.pending, a) && n !in Lane(p'.pending, a) && n < StateNonce(w, a)
  }

  // ---------------------------------------------------------------- what the batch can do to a sender

  /** The lane, once the nonces from `lo` to `top`, has been cut back to `hi`; the next nonce was lowered to
      `hi` if the state's nonce is above that, and is not tracked otherwise. */
  ghost predicate CutTo(p: Pool, w: World, a: Address, lo: nat, hi: nat, top: nat) {
    && OrderedAt(p, a, lo, hi) && hi <= top
    && (if a in p.nonces then p.nonces[a] == hi < StateNonce(w, a) && hi < top else hi == top || hi >= StateNonce(w, a))
  }

  ghost predicate CutBack(p: Pool, w: World, a: Address, lo: nat, top: nat) { exists hi: nat :: CutTo(p, w, a, lo, hi, top) }

  lemma SameCut(p: Pool, p': Pool, w: World, a: Address, lo: nat, top: nat)
    requires CutBack(p, w, a, lo, top) && SameAt(p, p', a)
    ensures CutBack(p', w, a, lo, top)
  {
    var hi: nat :| CutTo(p, w, a, lo, hi, top);
    assert CutTo(p', w, a, lo, hi, top);
  }

  lemma RemoveCuts(p: Pool, w: World, tx: Tx, a: Address, lo: nat, top: nat)
    requires CutBack(p, w, a, lo, top)
    ensures CutBack(Remove(p, w, tx), w, a, lo, top)
  {
    RemoveTouches(p, w, tx);
    if tx.sender != a || tx !in p.all {
      SameCut(p, Remove(p, w, tx), w, a, lo, top);
    } else {
      var hi: nat :| CutTo(p, w, a, lo, hi, top);
      if tx.nonce in Lane(p.pending, a) {
        RemovePendingCuts(p, w, tx, lo, hi, top);
      } else {
        RemoveLanes(p, w, tx);
        assert CutTo(Remove(p, w, tx), w, a, lo, hi, top);
      }
    }
  }

  lemma RemovePendingCuts(p: Pool, w: World, tx: Tx, lo: nat, hi: nat, top: nat)
    requires CutTo(p, w, tx.sender, lo, hi, top) && tx in p.all && tx.nonce in Lane(p.pending, tx.sender)
    ensures CutTo(Remove(p, w, tx), w, tx.sender, lo, tx.nonce, top)
  {
    RemoveLanes(p, w, tx);
    assert Remove(p, w, tx).nonces == LowerNonce(p, w, tx.sender, tx.nonce);
    hide Remove;
  }

  lemma {:induction false} RemoveAllCuts(p: Pool, w: World, txs: seq<Tx>, a: Address, lo: nat, top: nat)
    requires CutBack(p, w, a, lo, top)
    ensures CutBack(RemoveAll(p, w, txs), w, a, lo, top)
  {
    hide Remove, CutBack;
    if |txs| > 0 {
      RemoveAllCuts(p, w, txs[..|txs| - 1], a, lo, top);
      RemoveCuts(RemoveAll(p, w, txs[..|txs| - 1]), w, txs[|txs| - 1], a, lo, top);
    }
  }

  lemma AddedCuts(b: Books, b': Books, x: Setting, tx: Tx, f: Facts, answer: Answer, a: Address, lo: nat, top: nat)
    requires Sound(b.pool) && Added(b, b', x, tx, f, false, answer) && tx.sender != a && CutBack(b.pool, x.world, a, lo, top)
    ensures CutBack(b'.pool, x.world, a, lo, top)
  {
    hide Sound, Refusal, RemoveAll, Insert, Inserts, GivenUp, CutBack;
    if Refusal(b, x, tx, f, false) == None {
      var drops :| GivenUp(b, x.cfg, drops) && Lodged(RemoveAll(b.pool, x.world, drops), b.locals, b', x.cfg, tx, false, answer);
      var p := RemoveAll(b.pool, x.world, drops);
      RemoveAllKeeps(b.pool, x.world, drops);
      RemoveAllCuts(b.pool, x.world, drops, a, lo, top);
      InsertKeeps(p, x.world, tx, x.cfg.priceBump);
      SameCut(p, b'.pool, x.world, a, lo, top);
    }
  }

  lemma {:induction false} BatchCuts(trace: seq<Books>, x: Setting, txs: seq<Tx>, facts: seq<Facts>, answers: seq<Answer>,
                                     a: Address, lo: nat, top: nat, i: nat)
    requires Batch(trace, x, txs, facts, false, answers) && Sound(trace[0].pool) && i <= |txs|
    requires (forall k :: 0 <= k < |txs| ==> txs[k].sender != a) && CutBack(trace[0].pool, x.world, a, lo, top)
    ensures CutBack(trace[i].pool, x.world, a, lo, top)
  {
    hide Sound, Added, CutBack;
    if i > 0 {
      BatchCuts(trace, x, txs, facts, answers, a, lo, top, i - 1);
      BatchSound(trace, x, txs, facts, false, answers, i - 1);
      AddedCuts(trace[i - 1], trace[i], x, txs[i - 1], facts[i - 1], answers[i - 1], a, lo, top);
    }
  }

  /** A low part of an interval is an interval from the same start. */
  lemma LowInterval(l: Txs, l0: Txs, lo: nat, hi0: nat) returns (hi: nat)
    requires LowPart(l, l0) && Spans(l0, lo, hi0)
    ensures Spans(l, lo, hi) && hi <= hi0
  {
    if l == map[] {
      hi := lo;
    } else {
      hi := LaneTop(l) + 1;
      forall n: nat | lo <= n < hi ensures n in l { assert n in l0; }
    }
  }

  lemma LimitCuts(p0: Pool, p: Pool, w: World, a: Address, lo: nat, top: nat)
    requires Trimmed(p0, p, w) && CutBack(p0, w, a, lo, top)
    ensures CutBack(p, w, a, lo, top)
  {
    var hi0: nat :| CutTo(p0, w, a, lo, hi0, top);
    var l, l0 := Lane(p.pending, a), Lane(p0.pending, a);
    assert LowPart(l, l0) && NonceFollows(p0, p, w, a);
    var hi := LowInterval(l, l0, lo, hi0);
    if hi < hi0 { assert hi in l0 && hi !in l; }
    assert CutTo(p, w, a, lo, hi, top);
  }

  lemma QueueCuts(p0: Pool, p: Pool, w: World, locals: set<Address>, heard: map<Address, nat>, cfg: Config, a: Address, lo: nat, top: nat)
    requires QueueLimited(p0, p, locals, heard, cfg) && CutBack(p0, w, a, lo, top)
    ensures CutBack(p, w, a, lo, top)
  {
    hide QueueLimited;
    QueueSpares(p0, p, locals, heard, cfg, a);
    var hi: nat :| CutTo(p0, w, a, lo, hi, top);
    assert CutTo(p, w, a, lo, hi, top);
  }

  lemma FinishedCuts(p: Pool, p': Pool, locals: set<Address>, w: World, cfg: Config, accounts: seq<Address>, a: Address, lo: nat, top: nat)
    requires Sound(p) && Finished(p, p', locals, w, cfg, accounts) && a !in accounts && CutBack(p, w, a, lo, top)
    ensures CutBack(p', w, a, lo, top)
  {
    hide Sound, QueueLimited, PromoteAll, CutBack, Trimmed;
    var q := PromoteAll(p, w, locals, cfg, accounts);
    var trimmed: Pool, heard: map<Address, nat> :| PendingLimited(q, trimmed, w, locals, cfg) && QueueLimited(trimmed, p', locals, heard, cfg);
    PromoteAllSpares(p, w, locals, cfg, accounts, a);
    SameCut(p, q, w, a, lo, top);
    LimitCuts(q, trimmed, w, a, lo, top);
    QueueCuts(trimmed, p', w, locals, heard, cfg, a, lo, top);
  }

  /** The reinjection can only cut the lane of another sender who was in order. */
  lemma ReinjectionCuts(b: Books, w: World, x: Setting, txs: seq<Tx>, facts: seq<Facts>, after: Books, a: Address)
    requires Sound(b.pool) && TightAt(b.pool, w, a) && Reinjects(b, x, txs, facts, after)
    requires forall k :: 0 <= k < |txs| ==> txs[k].sender != a
    ensures Sound(after.pool)
    ensures CutBack(after.pool, x.world, a, StateNonce(w, a), NextNonce(b.pool, w, a))
  {
    hide Sound, Added, CutBack, Finished;
    var trace: seq<Books>, answers: seq<Answer> :|
      && Batch(trace, x, txs, facts, false, answers) && trace[0] == b.(pool := b.pool.(nonces := map[]))
      && after.locals == trace[|txs|].locals
      && Worked(trace[|txs|].pool, after.pool, after.locals, x.world, x.cfg, Dirty(txs, answers));
    Untracked(b.pool);
    var lo, top, p := StateNonce(w, a), NextNonce(b.pool, w, a), trace[|txs|].pool;
    StartUncut(b.pool, w, x.world, a);
    BatchCuts(trace, x, txs, facts, answers, a, lo, top, |txs|);
    BatchSound(trace, x, txs, facts, false, answers, |txs|);
    if Dirty(txs, answers) != {} {
      var accounts :| (forall c :: c in accounts <==> c in Dirty(txs, answers)) &&
                      Finished(p, after.pool, after.locals, x.world, x.cfg, accounts);
      FinishedCuts(p, after.pool, after.locals, x.world, x.cfg, accounts, a, lo, top);
      FinishedSound(p, after.pool, after.locals, x.world, x.cfg, accounts);
    }
  }

  lemma StartUncut(p: Pool, w: World, w': World, a: Address)
    requires TightAt(p, w, a)
    ensures CutBack(p.(nonces := map[]), w', a, StateNonce(w, a), NextNonce(p, w, a))
  {
    assert CutTo(p.(nonces := map[]), w', a, StateNonce(w, a), NextNonce(p, w, a), NextNonce(p, w, a));
  }

  /** Nothing below the state's nonce was taken exactly when the sender's nonce is not tracked. */
  lemma TakenIff(p: Pool, p': Pool, w: World, w': World, a: Address)
    requires TightAt(p, w, a) && CutBack(p', w', a, StateNonce(w, a), NextNonce(p, w, a))
    ensures TakenBelow(p, p', w', a) <==> a in p'.nonces
  {
    var lo, top := StateNonce(w, a), NextNonce(p, w, a);
    var hi: nat :| CutTo(p', w', a, lo, hi, top);
    if a in p'.nonces { assert hi in Lane(p.pending, a) && hi !in Lane(p'.pending, a); }
  }

  // ---------------------------------------------------------------- the limits keep soundness and order

  lemma FinishedSound(p: Pool, p': Pool, locals: set<Address>, w: World, cfg: Config, accounts: seq<Address>)
    requires Sound(p) && Finished(p, p', locals, w, cfg, accounts)
    ensures Sound(p')
  {
    hide Sound, QueueLimited, PromoteAll, Trimmed;
    var q := PromoteAll(p, w, locals, cfg, accounts);
    var trimmed: Pool, heard: map<Address, nat> :| PendingLimited(q, trimmed, w, locals, cfg) && QueueLimited(trimmed, p', locals, heard, cfg);
    PromoteAllSound(p, w, locals, cfg, accounts);
    TrimmedSound(q, trimmed, w);
    UnloadedSound(trimmed, p', locals, heard, cfg);
  }

  lemma TrimmedSound(p0: Pool, p: Pool, w: World)
    requires Sound(p0) && Trimmed(p0, p, w)
    ensures Sound(p)
  {
    forall a: Address ensures SoundAt(p, a) {
      assert SoundAt(p0, a) && LowPart(Lane(p.pending, a), Lane(p0.pending, a));
    }
  }

  lemma UnloadedSound(p0: Pool, p: Pool, locals: set<Address>, heard: map<Address, nat>, cfg: Config)
    requires Sound(p0) && QueueLimited(p0, p, locals, heard, cfg)
    ensures Sound(p)
  {
    hide Total, UnloadOrder;
    if Total(p0.queue) > cfg.globalQueue {
      var todo: set<Address>, drop: nat :| Unloading(p0, p, locals, heard, cfg.globalQueue, todo, drop) && (drop == 0 || todo == {});
      forall a: Address ensures SoundAt(p, a) {
        assert SoundAt(p0, a) && UnloadShape(p0, p, locals, todo) && UnloadedAll(p0, p);
      }
    }
  }

  lemma FinishedTight(p: Pool, p': Pool, locals: set<Address>, w: World, cfg: Config, accounts: seq<Address>, a: Address)
    requires Finished(p, p', locals, w, cfg, accounts) && TightAt(PromoteAll(p, w, locals, cfg, accounts), w, a)
    ensures TightAt(p', w, a)
  {
    hide QueueLimited, PromoteAll, Total, CutFairly, NoneInVain;
    var q := PromoteAll(p, w, locals, cfg, accounts);
    var trimmed: Pool, heard: map<Address, nat> :| PendingLimited(q, trimmed, w, locals, cfg) && QueueLimited(trimmed, p', locals, heard, cfg);
    TrimmedTight(q, trimmed, w, a);
    QueueSpares(trimmed, p', locals, heard, cfg, a);
  }

  lemma TrimmedTight(p0: Pool, p: Pool, w: World, a: Address)
    requires Trimmed(p0, p, w) && TightAt(p0, w, a)
    ensures TightAt(p, w, a)
  {
    var l, l0 := Lane(p.pending, a), Lane(p0.pending, a);
    assert LowPart(l, l0) && NonceFollows(p0, p, w, a);
    var hi := LowInterval(l, l0, StateNonce(w, a), NextNonce(p0, w, a));
    if hi < NextNonce(p0, w, a) { assert hi in l0 && hi !in l; }
  }

  // ---------------------------------------------------------------- a stalled sender

  /** Nothing is pending, and the next nonce is below the state's: nothing queued can follow it. */
  ghost predicate Stalled(p: Pool, w: World, a: Address) {
    Lane(p.pending, a) == map[] && a in p.nonces && p.nonces[a] < StateNonce(w, a)
  }

  lemma StalledNotTight(p: Pool, w: World, a: Address)
    requires Stalled(p, w, a)
    ensures !TightAt(p, w, a)
  {}

  lemma StalledStays(p: Pool, w: World, locals: set<Address>, cfg: Config, a: Address)
    requires Stalled(p, w, a)
    ensures Stalled(PromoteAccount(p, w, locals, cfg, a), w, a)
  {
    hide Limited;
    if a in p.queue {
      var q := Payable(p.queue[a], w, a);
      assert forall n: nat :: n in q ==> n >= StateNonce(w, a);
      assert ReadyRun(q, NextNonce(p, w, a)) == map[];
    }
  }

  lemma {:induction false} StalledThroughout(p: Pool, w: World, locals: set<Address>, cfg: Config, accounts: seq<Address>, a: Address)
    requires Sound(p) && Stalled(p, w, a)
    ensures Stalled(PromoteAll(p, w, locals, cfg, accounts), w, a)
  {
    hide Sound, PromoteAccount;
    if |accounts| > 0 {
      var rest, last := accounts[..|accounts| - 1], accounts[|accounts| - 1];
      StalledThroughout(p, w, locals, cfg, rest, a);
      PromoteAllSound(p, w, locals, cfg, rest);
      var q := PromoteAll(p, w, locals, cfg, rest);
      PromoteSound(q, w, locals, cfg, last);
      if last == a { StalledStays(q, w, locals, cfg, a); }
    }
  }

  lemma FinishedStalled(p: Pool, p': Pool, locals: set<Address>, w: World, cfg: Config, accounts: seq<Address>, a: Address)
    requires Sound(p) && Stalled(p, w, a) && Finished(p, p', locals, w, cfg, accounts)
    ensures Stalled(p', w, a)
  {
    hide Sound, QueueLimited, PromoteAll, Total, CutFairly, NoneInVain;
    var q := PromoteAll(p, w, locals, cfg, accounts);
    var trimmed: Pool, heard: map<Address, nat> :| PendingLimited(q, trimmed, w, locals, cfg) && QueueLimited(trimmed, p', locals, heard, cfg);
    StalledThroughout(p, w, locals, cfg, accounts, a);
    assert LowPart(Lane(trimmed.pending, a), Lane(q.pending, a)) && NonceFollows(q, trimmed, w, a);
    assert Lane(trimmed.pending, a) == map[];
    QueueSpares(trimmed, p', locals, heard, cfg, a);
  }

  /** A lane that ends below the state's nonce is gone after demotion, and nobody corrects the tracked nonce. */
  lemma DemotionStalls(p: Pool, w: World, accounts: seq<Address>, a: Address, lo: nat, hi: nat, top: nat)
    requires Sound(p) && CutTo(p, w, a, lo, hi, top) && a in p.nonces
    requires Distinct(accounts) && forall b :: b in accounts <==> b in p.pending
    requires forall b :: b in DemoteAll(p, w, accounts).pending ==> DemoteAll(p, w, accounts).pending[b] != map[]
    ensures Stalled(TrackPending(DemoteAll(p, w, accounts)), w, a)
  {
    hide Sound, DemoteAll, LaneTop;
    DemoteAllAt(p, w, accounts, a);
    var l := Lane(p.pending, a);
    assert Remaining(l, w, a) == map[] by { PassedByAll(l, w, a); }
    var q := DemoteAll(p, w, accounts);
    assert Lane(q.pending, a) == map[] && a !in q.pending;
  }

  lemma PassedByAll(l: Txs, w: World, a: Address)
    requires forall n: nat :: n in l ==> n < StateNonce(w, a)
    ensures Remaining(l, w, a) == map[]
  {
    hide Executable;
    ExecutableIff(l, w, a, StateNonce(w, a));
  }

  // ---------------------------------------------------------------- the exact condition

  lemma RecoversIff(after: Books, x: Setting, end: Pool, a: Address, lo: nat, top: nat)
    requires Sound(after.pool) && CutBack(after.pool, x.world, a, lo, top)
    requires exists demoted, queued :: Recovers(after, x, demoted, queued, end)
    ensures TightAt(end, x.world, a) <==> a !in after.pool.nonces
  {
    hide Sound, DemoteAll, Finished, TightAt, TrackPending, InOrder;
    var p, w := after.pool, x.world;
    var demoted, queued :| Recovers(after, x, demoted, queued, end);
    var hi: nat :| CutTo(p, w, a, lo, hi, top);
    var p1 := DemoteAll(p, w, demoted);
    if a in p.nonces {
      DemotionStalls(p, w, demoted, a, lo, hi, top);
      DemoteAllSound(p, w, demoted);
      TrackSound(p1);
      FinishedStalled(TrackPending(p1), end, after.locals, w, x.cfg, queued, a);
      StalledNotTight(end, w, a);
    } else {
      CutInOrder(p, w, a, lo, hi, top);
      ResetRestores(p, w, after.locals, x.cfg, demoted, queued, p1, a);
      FinishedTight(TrackPending(p1), end, after.locals, w, x.cfg, queued, a);
    }
  }

  lemma CutInOrder(p: Pool, w: World, a: Address, lo: nat, hi: nat, top: nat)
    requires CutTo(p, w, a, lo, hi, top)
    ensures InOrder(p, a)
  {}

  /** A sender who was in order and of whom nothing is reinjected is in order under the new state if and only if
      the reinjection took no nonce below the state's out of its pending lane. */
  lemma ResetTightIff(b: Books, w: World, x: Setting, txs: seq<Tx>, facts: seq<Facts>, after: Books, end: Pool, a: Address)
    requires Sound(b.pool) && TightAt(b.pool, w, a) && ResetTo(b, x, txs, facts, after, end)
    requires forall k :: 0 <= k < |txs| ==> txs[k].sender != a
    ensures TightAt(end, x.world, a) <==> !TakenBelow(b.pool, after.pool, x.world, a)
  {
    hide Sound, TightAt, Reinjects, Recovers, TakenBelow, CutBack;
    ReinjectionCuts(b, w, x, txs, facts, after, a);
    TakenIff(b.pool, after.pool, w, x.world, a);
    RecoversIff(after, x, end, a, StateNonce(w, a), NextNonce(b.pool, w, a));
  }

  /** So a sender none of whose pending nonces the new state has passed is in order, however full the pool. */
  lemma UnpassedStaysTight(b: Books, w: World, x: Setting, txs: seq<Tx>, facts: seq<Facts>, after: Books, end: Pool, a: Address)
    requires Sound(b.pool) && TightAt(b.pool, w, a) && ResetTo(b, x, txs, facts, after, end)
    requires forall k :: 0 <= k < |txs| ==> txs[k].sender != a
    requires forall n: nat :: n in Lane(b.pool.pending, a) ==> n >= StateNonce(x.world, a)
    ensures TightAt(end, x.world, a)
  {
    hide Sound, TightAt, ResetTo;
    ResetTightIff(b, w, x, txs, facts, after, end, a);
  }

  /** And so is a sender whom the batch cannot reach, whatever the state has passed. */
  lemma OutOfReachStaysTight(b: Books, w: World, x: Setting, txs: seq<Tx>, facts: seq<Facts>, after: Books, end: Pool, a: Address)
    requires Sound(b.pool) && TightAt(b.pool, w, a) && ResetTo(b, x, txs, facts, after, end)
    requires txs == [] || OutOfReach(b, x.cfg, txs, a)
    ensures TightAt(end, x.world, a)
  {
    hide Sound, TightAt, Recovers, CutBack, Added, InOrder;
    ReinjectionCuts(b, w, x, txs, facts, after, a);
    var trace: seq<Books>, answers: seq<Answer> :|
      && Batch(trace, x, txs, facts, false, answers) && trace[0] == b.(pool := b.pool.(nonces := map[]))
      && after.locals == trace[|txs|].locals
      && Worked(trace[|txs|].pool, after.pool, after.locals, x.world, x.cfg, Dirty(txs, answers));
    if txs == [] {
      assert Dirty(txs, answers) == {};
    } else {
      Untracked(b.pool);
      TightInOrder(b.pool, w, a);
      OrderStays(b.pool, trace[0].pool, a);
      assert OutOfReach(trace[0], x.cfg, txs, a);
      BatchKeepsOrder(trace, x, txs, facts, false, answers, after.pool, a);
    }
    RecoversIff(after, x, end, a, StateNonce(w, a), NextNonce(b.pool, w, a));
  }
}
