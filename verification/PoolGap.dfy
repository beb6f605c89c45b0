/** What reinjection after a reorganisation (reset, chain/core/tx_pool.go) can do: leave a gap between a
    sender's pending nonces, and stall a sender who had nothing to do with it. */
module PoolGap {
  import opened Options
  import opened TxMap
  import opened TxListOps
  import opened PoolState
  import opened PoolMoves
  import opened PoolReset
  import opened PoolFacts
  import opened TxValidation
  import opened PoolAdds
  import opened PoolFair
  import opened PoolRuns
  import opened PoolStall

  /** Adding one transaction to a pool that is not full. */
  function Admit(p: Pool, w: World, gasPrice: nat, tx: Tx, f: Facts, cfg: Config): Pool {
    if Validate(w, {}, gasPrice, tx, f, false) == None then Insert(p, tx, cfg.priceBump) else p
  }

  const T0: Tx := Tx(0, 0, 2, 0, 0, 0)
  const T1: Tx := Tx(0, 1, 1, 0, 0, 0)
  const T2: Tx := Tx(0, 2, 2, 0, 0, 0)
  const PLAIN: Facts := Facts(Normal, true, 100, 0, false, true, 0)
  const SETUP: Config := Config(10, 16, 4096, 64, 1024)

  /** The sender is at nonce 2 and has it pending. */
  const BEFORE: World := World(map[0 := 2], map[], 0)
  const HELD: Pool := Pool(map[0 := map[2 := T2]], map[], {T2}, map[0 := 3])

  /** The reorganisation takes the sender back to nonce 0. */
  const AFTER: World := World(map[], map[], 0)

  lemma HeldInOrder()
    ensures Sound(HELD) && Tight(HELD, BEFORE)
  {
    forall a: Address ensures SoundAt(HELD, a) && TightAt(HELD, BEFORE, a) {}
  }

  /** Nonces 0 and 1 fall out of the chain and are both handed back to a pool with a gas price of 2.  The
      first is admitted and promoted, the second is refused as underpriced, and demotion finds nothing to
      object to: nonces 0 and 2 are pending. */
  lemma ReinjectionCanLeaveGap()
    ensures Sound(HELD) && Tight(HELD, BEFORE)
    ensures Validate(AFTER, {}, 2, T0, PLAIN, false) == None
    ensures Validate(AFTER, {}, 2, T1, PLAIN, false) == Some(Underpriced)
    ensures var p1 := Admit(Admit(HELD.(nonces := map[]), AFTER, 2, T0, PLAIN, SETUP), AFTER, 2, T1, PLAIN, SETUP);
            var p2 := PromoteAccount(p1, AFTER, {}, SETUP, 0);
            Lane(DemoteAccount(p2, AFTER, 0).pending, 0) == map[0 := T0, 2 := T2]
  {
    hide PromoteAccount, DemoteAccount, Enqueue, Executable, Costly;
    HeldInOrder();
    var p0 := HELD.(nonces := map[]);
    FirstQueued(p0, T0, SETUP.priceBump);
    var p1 := Enqueue(p0, T0, SETUP.priceBump);
    assert Admit(Admit(p0, AFTER, 2, T0, PLAIN, SETUP), AFTER, 2, T1, PLAIN, SETUP) == p1;
    assert !Costly(Balance(AFTER, 0), AFTER.maxGas, T0) && !Costly(Balance(AFTER, 0), AFTER.maxGas, T2) by { Free(); }
    LonePromoted(p1, AFTER, SETUP, T0);
    var p2 := PromoteAccount(p1, AFTER, {}, SETUP, 0);
    var l := Lane(p2.pending, 0);
    assert l == map[0 := T0, 2 := T2];
    DemotedLane(p2, AFTER, 0);
    forall n: nat ensures n in Executable(l, AFTER, 0) <==> n in l { ExecutableIff(l, AFTER, 0, n); }
    ExecutableWithin(l, AFTER, 0);
  }

  lemma Free()
    ensures !Costly(Balance(AFTER, 0), AFTER.maxGas, T0) && !Costly(Balance(AFTER, 0), AFTER.maxGas, T2)
  {}

  lemma ExecutableWithin(l: Txs, w: World, a: Address)
    ensures Within(Executable(l, w, a), l)
  {
    hide FilterKeeps, FilterInvalids;
    FilterParts(From(l, StateNonce(w, a)), Balance(w, a), w.maxGas);
  }

  // ---------------------------------------------------------------- a full pool

  const LOW: Tx := Tx(0, 2, 1, 0, 0, 0)
  const NEXT: Tx := Tx(0, 5, 2, 0, 0, 0)
  const OTHER: Tx := Tx(1, 0, 3, 0, 0, 0)
  const TINY: Config := Config(10, 1, 1, 1, 1)

  /** Sender 0 has nonce 2 pending and nonce 5 queued; the pool is full. */
  const CROWDED: Pool := Pool(map[0 := map[2 := LOW]], map[0 := map[5 := NEXT]], {LOW, NEXT}, map[0 := 3])

  /** The new chain has used up the sender's nonces below 5. */
  const AHEAD: World := World(map[0 := 5], map[], 0)

  const SQUEEZED: Pool := Pool(map[], map[0 := map[5 := NEXT], 1 := map[0 := OTHER]], {NEXT, OTHER}, map[0 := 2])

  /** With the other sender's transaction pending; reset ends with this pool. */
  const ENDED: Pool := Pool(map[1 := map[0 := OTHER]], map[0 := map[5 := NEXT]], {NEXT, OTHER}, map[0 := 2, 1 := 1])

  /** The pool as reset meets it: no nonce is tracked. */
  const START: Books := Books(CROWDED.(nonces := map[]), {})

  const NOW: Setting := Setting(AHEAD, 0, TINY)

  lemma CrowdedTight()
    ensures Sound(CROWDED) && TightAt(CROWDED, BEFORE, 0)
  {
    forall a: Address ensures SoundAt(CROWDED, a) {}
  }

  lemma Dropped()
    ensures RemoveAll(START.pool, AHEAD, [LOW]) == Pool(map[], map[0 := map[5 := NEXT]], {NEXT}, map[0 := 2])
  {
    var p := START.pool;
    assert RemoveKeeps(Lane(p.pending, 0), true, 2) == map[];
    assert [LOW][..0] == [];
    assert RemoveAll(p, AHEAD, [LOW]) == Remove(p, AHEAD, LOW);
  }

  lemma Squeeze(p: Pool)
    requires p == Pool(map[], map[0 := map[5 := NEXT]], {NEXT}, map[0 := 2])
    ensures Lodged(p, {}, Books(SQUEEZED, {}), TINY, OTHER, false, Answer(None, false))
  {
    assert Lane(p.pending, 1) == map[] && Lane(p.queue, 1) == map[];
  }

  lemma NotRefused()
    ensures Refusal(START, NOW, OTHER, PLAIN, false) == None && GivenUp(START, TINY, [LOW])
  {
    assert START.pool.all == {LOW, NEXT} && |START.pool.all| == 2;
    assert LOW in START.pool.all && LOW.price < OTHER.price;
  }

  lemma OtherAdded()
    ensures Added(START, Books(SQUEEZED, {}), NOW, OTHER, PLAIN, false, Answer(None, false))
  {
    hide Refusal, GivenUp, Lodged, RemoveAll;
    Dropped();
    Squeeze(RemoveAll(START.pool, AHEAD, [LOW]));
    NotRefused();
  }

  lemma OneReady(q: Txs)
    requires q == map[0 := OTHER]
    ensures Payable(q, AHEAD, 1) == q && ReadyRun(q, 0) == q && q != map[]
  {
    assert 0 in q;
    assert Payable(q, AHEAD, 1) == q;
    assert Smallest(q) == 0;
    assert RunEnd(q, 0) == 1;
  }

  lemma OneTop(q: Txs)
    requires q == map[0 := OTHER] && q != map[]
    ensures LaneTop(q) == 0 && Rest(q, q) == map[] && GoneFrom(q, q, map[]) == {}
  {}

  lemma OneMoved(q: Txs)
    requires q == map[0 := OTHER] && q != map[] && LaneTop(q) == 0 && GoneFrom(q, q, map[]) == {}
    ensures PromoteWith(SQUEEZED, 1, q, map[]) == ENDED
  {
    hide LaneTop, GoneFrom;
    var p := PromoteWith(SQUEEZED, 1, q, map[]);
    assert Lane(SQUEEZED.pending, 1) + q == q;
    assert p.pending.Keys == {1} && p.pending[1] == q;
    assert p.pending == ENDED.pending;
    assert p.queue == ENDED.queue;
    assert p.nonces == ENDED.nonces;
  }

  /** The added transaction is promoted. */
  lemma OtherPromoted()
    ensures PromoteAccount(SQUEEZED, AHEAD, {}, TINY, 1) == ENDED
  {
    hide Payable, ReadyRun, LaneTop, GoneFrom, Rest, PromoteWith;
    var q := SQUEEZED.queue[1];
    OneReady(q);
    OneTop(q);
    OneMoved(q);
    assert NextNonce(SQUEEZED, AHEAD, 1) == 0 && 1 in SQUEEZED.queue;
    assert Limited(Rest(q, q), false, 1) == map[];
  }

  /** Both limits are met: one transaction is pending and one is queued. */
  lemma WithinLimits(p: Pool)
    requires Total(p.pending) <= 1 && Total(p.queue) <= 1
    ensures PendingLimited(p, p, AHEAD, {}, TINY) && QueueLimited(p, p, {}, map[], TINY)
  {
    hide Total;
    TrimmedSelf(p, AHEAD);
    assert CutSenders(p, p) == {};
  }

  lemma LaneTotal(a: Address, n: nat, tx: Tx)
    ensures Total(map[a := map[n := tx]]) == 1
  {
    var lanes: map<Address, Txs> := map[a := map[n := tx]];
    TotalWithout(lanes, a);
    assert lanes - {a} == map[];
  }

  lemma EndedWithinLimits()
    ensures PendingLimited(ENDED, ENDED, AHEAD, {}, TINY) && QueueLimited(ENDED, ENDED, {}, map[], TINY)
  {
    hide Total, PendingLimited, QueueLimited;
    LaneTotal(1, 0, OTHER);
    LaneTotal(0, 5, NEXT);
    WithinLimits(ENDED);
  }

  lemma BatchDone()
    ensures Reinjects(Books(CROWDED, {}), NOW, [OTHER], [PLAIN], Books(ENDED, {}))
  {
    hide Added, PendingLimited, QueueLimited, PromoteAccount;
    OtherAdded();
    var trace, answers := [START, Books(SQUEEZED, {})], [Answer(None, false)];
    assert Batch(trace, NOW, [OTHER], [PLAIN], false, answers);
    DirtyOne(answers);
    OtherPromoted();
    EndedWithinLimits();
    assert [1][..0] == [];
    assert PromoteAll(SQUEEZED, AHEAD, {}, TINY, [1]) == ENDED;
    assert Finished(SQUEEZED, ENDED, {}, AHEAD, TINY, [1]);
    assert forall a :: a in [1] <==> a in Dirty([OTHER], answers);
  }

  lemma DirtyOne(answers: seq<Answer>)
    requires answers == [Answer(None, false)]
    ensures Dirty([OTHER], answers) == {1}
  {
    assert [OTHER][0].sender == 1 && answers[0] == Answer(None, false);
  }

  /** Demotion finds the pending transaction in order. */
  lemma NothingDemoted()
    ensures DemoteAll(ENDED, AHEAD, [1]) == ENDED
  {
    hide Executable, Invalidated;
    var l := ENDED.pending[1];
    assert [1][..0] == [];
    forall n: nat ensures n in Executable(l, AHEAD, 1) <==> n in l { ExecutableIff(l, AHEAD, 1, n); }
    ExecutableWithin(l, AHEAD, 1);
    assert Executable(l, AHEAD, 1) == l;
    assert Invalidated(l, AHEAD, 1) == map[] by { FilterParts(From(l, 0), 0, 0); InvalidatedNone(l); }
    assert Rest(l, l) == map[] && GoneFrom(l, l, map[]) == {};
    assert ENDED.pending[1 := l] == ENDED.pending;
    assert DemoteAccount(ENDED, AHEAD, 1) == ENDED;
  }

  lemma InvalidatedNone(l: Txs)
    requires l == ENDED.pending[1]
    ensures Invalidated(l, AHEAD, 1) == map[]
  {
    assert CostlyIn(From(l, 0), 0, 0) == map[];
  }

  lemma EndedLanes()
    ensures forall a :: a in ENDED.pending ==> ENDED.pending[a] != map[]
  {
    assert 0 in ENDED.pending[1];
  }

  lemma Tracking()
    requires forall a :: a in ENDED.pending ==> ENDED.pending[a] != map[]
    ensures TrackPending(ENDED) == ENDED
  {
    assert 1 in ENDED.pending;
    assert LaneTop(ENDED.pending[1]) == 0 by { assert LaneTop(ENDED.pending[1]) in ENDED.pending[1]; }
    assert TrackPending(ENDED).nonces == ENDED.nonces;
  }

  lemma NoneReady(q: Txs)
    requires q == map[5 := NEXT]
    ensures Payable(q, AHEAD, 0) == q && ReadyRun(q, 2) == map[] && Limited(Rest(q, map[]), false, 1) == q
    ensures GoneFrom(q, map[], q) == {}
  {
    assert 5 in q;
    assert Rest(q, map[]) == q;
  }

  lemma Promotion()
    ensures PromoteAll(ENDED, AHEAD, {}, TINY, [0]) == ENDED
  {
    hide Payable, ReadyRun, Limited, Rest, GoneFrom;
    var q := ENDED.queue[0];
    NoneReady(q);
    assert [0][..0] == [];
    assert ENDED.queue[0 := q] == ENDED.queue;
    assert 5 in q;
    assert NextNonce(ENDED, AHEAD, 0) == 2 && 0 in ENDED.queue;
    assert PromoteAccount(ENDED, AHEAD, {}, TINY, 0) == ENDED;
  }

  /** Another sender's transaction comes back into the full pool, which gives up nonce 2 for it and takes the
      next nonce back to 2.  Sender 0 had nothing reinjected, yet at the end of the reset its nonce 5, which the
      new state is waiting for, is still queued. */
  lemma FullPoolCanStall()
    ensures Sound(CROWDED) && TightAt(CROWDED, BEFORE, 0) && StateNonce(AHEAD, 0) == 5
    ensures ResetTo(Books(CROWDED, {}), NOW, [OTHER], [PLAIN], Books(ENDED, {}), ENDED)
    ensures !TightAt(ENDED, AHEAD, 0) && 0 !in ENDED.pending && 5 in ENDED.queue[0]
  {
    hide Reinjects, PendingLimited, QueueLimited, DemoteAll, PromoteAll, TrackPending;
    CrowdedTight();
    BatchDone();
    NothingDemoted();
    EndedLanes();
    Tracking();
    Promotion();
    EndedWithinLimits();
    assert Finished(ENDED, ENDED, {}, AHEAD, TINY, [0]);
    assert Recovers(Books(ENDED, {}), NOW, [1], [0], ENDED);
    ResetIs(Books(CROWDED, {}), NOW, [OTHER], [PLAIN], Books(ENDED, {}), ENDED, [1], [0]);
  }
}
