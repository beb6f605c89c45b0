/** A new chain head (reset and demoteUnexecutables, chain/core/tx_pool.go): pending transactions the new
    state has passed or cannot pay are dropped, their successors are queued again, and the tracked nonces
    are rebuilt. */
module PoolReset {
  import opened TxMap
  import opened TxListOps
  import opened PoolState
  import opened PoolMoves

  // ---------------------------------------------------------------- demotion of one account

  /** What a strict Filter keeps of the pending lane under the new state. */
  function Executable(l: Txs, w: World, a: Address): Txs {
    FilterKeeps(From(l, StateNonce(w, a)), true, Balance(w, a), w.maxGas)
  }

  function Invalidated(l: Txs, w: World, a: Address): Txs {
    FilterInvalids(From(l, StateNonce(w, a)), true, Balance(w, a), w.maxGas)
  }

  /** A lane that does not start at the state's nonce is demoted as a whole. */
  function Remaining(l: Txs, w: World, a: Address): Txs {
    if StateNonce(w, a) in Executable(l, w, a) then Executable(l, w, a) else map[]
  }

  function Demoted(l: Txs, w: World, a: Address): Txs {
    Invalidated(l, w, a) + Rest(Executable(l, w, a), Remaining(l, w, a))
  }

  function DemoteWith(p: Pool, a: Address, r: Txs, s: Txs): Pool {
    p.(pending := PutLane(p.pending, a, r),
       queue := if s == map[] then p.queue else p.queue[a := Lane(p.queue, a) + s],
       all := p.all - GoneFrom(Lane(p.pending, a), r, s))
  }

  function DemoteAccount(p: Pool, w: World, a: Address): Pool {
    var l := Lane(p.pending, a);
    DemoteWith(p, a, Remaining(l, w, a), Demoted(l, w, a))
  }

  lemma DemoteTouches(p: Pool, a: Address, r: Txs, s: Txs)
    requires SoundAt(p, a)
    ensures OnlyTouches(p, DemoteWith(p, a, r, s), a)
  {}

  lemma DemoteSoundAt(p: Pool, a: Address, r: Txs, s: Txs)
    requires SoundAt(p, a) && Parts(Lane(p.pending, a), r, s)
    ensures SoundAt(DemoteWith(p, a, r, s), a)
  {
    var p' := DemoteWith(p, a, r, s);
    var l, q := Lane(p.pending, a), Lane(p.queue, a);
    assert Lane(p'.pending, a) == r;
    assert Lane(p'.queue, a) == q + s;
    assert forall n: nat :: n in q ==> q[n] !in GoneFrom(l, r, s);
    assert forall n: nat :: n in r ==> r[n] !in GoneFrom(l, r, s);
    assert forall n: nat :: n in s ==> s[n] !in GoneFrom(l, r, s);
  }

  lemma DemoteParts(l: Txs, w: World, a: Address)
    ensures Parts(l, Remaining(l, w, a), Demoted(l, w, a))
  {
    hide FilterKeeps, FilterInvalids;
    FilterParts(From(l, StateNonce(w, a)), Balance(w, a), w.maxGas);
  }

  lemma FilterParts(m: Txs, costLimit: nat, gasLimit: nat)
    ensures Parts(m, FilterKeeps(m, true, costLimit, gasLimit), FilterInvalids(m, true, costLimit, gasLimit))
  {}

  lemma DemoteSound(p: Pool, w: World, a: Address)
    requires Sound(p)
    ensures Sound(DemoteAccount(p, w, a)) && OnlyTouches(p, DemoteAccount(p, w, a), a)
  {
    hide SoundAt, OnlyTouches, Sound, DemoteWith, Parts, Remaining, Demoted;
    EverySender(p, a);
    var l := Lane(p.pending, a);
    DemoteParts(l, w, a);
    DemoteTouches(p, a, Remaining(l, w, a), Demoted(l, w, a));
    DemoteSoundAt(p, a, Remaining(l, w, a), Demoted(l, w, a));
    SoundElsewhere(p, DemoteAccount(p, w, a), a);
  }

  /** Where a pending transaction ends up: it is dropped exactly if the state has passed it or its sender cannot
      pay for it, and is otherwise pending or queued again. */
  lemma DemoteSorts(p: Pool, w: World, a: Address, n: nat, p': Pool, tx: Tx)
    requires SoundAt(p, a) && n in Lane(p.pending, a)
    requires tx == Lane(p.pending, a)[n] && p' == DemoteAccount(p, w, a)
    ensures Placed(p', tx) <==> tx in p'.all
    ensures tx in p'.all <==> n >= StateNonce(w, a) && tx.cost <= Balance(w, a) && tx.gas <= w.maxGas
    ensures n in Lane(p'.pending, a) <==> n >= StateNonce(w, a) && PayableUpTo(Lane(p.pending, a), w, a, n)
  {
    RemainingIff(Lane(p.pending, a), w, a, n);
    hide Remaining, Demoted, FilterKeeps, FilterInvalids;
    var l := Lane(p.pending, a);
    var r, s := Remaining(l, w, a), Demoted(l, w, a);
    DemoteParts(l, w, a);
    DemotePlaced(p, a, r, s, n);
    DemoteSplit(l, w, a, n);
  }

  /** The lane holds the state's nonce, and can be paid for from there up to `n`. */
  ghost predicate PayableUpTo(l: Txs, w: World, a: Address, n: nat) {
    StateNonce(w, a) in l && forall k: nat :: k in l && StateNonce(w, a) <= k <= n ==> l[k].cost <= Balance(w, a) && l[k].gas <= w.maxGas
  }

  lemma RemainingIff(l: Txs, w: World, a: Address, n: nat)
    requires n in l
    ensures n in Remaining(l, w, a) <==> n >= StateNonce(w, a) && PayableUpTo(l, w, a, n)
  {
    hide Executable;
    ExecutableIff(l, w, a, n);
    ExecutableIff(l, w, a, StateNonce(w, a));
  }

  lemma DemotePlaced(p: Pool, a: Address, r: Txs, s: Txs, n: nat)
    requires SoundAt(p, a) && n in Lane(p.pending, a) && Parts(Lane(p.pending, a), r, s)
    ensures Placed(DemoteWith(p, a, r, s), Lane(p.pending, a)[n]) <==> n in r || n in s
    ensures Lane(p.pending, a)[n] in DemoteWith(p, a, r, s).all <==> n in r || n in s
  {
    var p', l := DemoteWith(p, a, r, s), Lane(p.pending, a);
    assert Lane(p'.pending, a) == r;
    assert Lane(p'.queue, a) == Lane(p.queue, a) + s;
    assert l[n] in GoneFrom(l, r, s) <==> n !in r && n !in s;
  }

  lemma DemoteSplit(l: Txs, w: World, a: Address, n: nat)
    requires n in l
    ensures n in Remaining(l, w, a) || n in Demoted(l, w, a) <==> n >= StateNonce(w, a) && !Costly(Balance(w, a), w.maxGas, l[n])
  {
    hide Smallest;
  }

  lemma DemoteLosesNone(p: Pool, w: World, a: Address)
    requires Sound(p) && NoneLost(p)
    ensures NoneLost(DemoteAccount(p, w, a))
  {
    hide Remaining, Demoted, OnlyTouches, Sound, SoundAt, DemoteWith, Placed, Parts;
    EverySender(p, a);
    var l := Lane(p.pending, a);
    var r, s := Remaining(l, w, a), Demoted(l, w, a);
    DemoteParts(l, w, a);
    DemoteTouches(p, a, r, s);
    var p' := DemoteWith(p, a, r, s);
    forall tx | tx in p'.all && tx.sender == a ensures Placed(p', tx) {
      if tx.nonce in l && l[tx.nonce] == tx { DemotePlaced(p, a, r, s, tx.nonce); } else { QueuedStays(p, a, r, s, tx); }
    }
    PlacedElsewhere(p, p', a);
  }

  lemma QueuedStays(p: Pool, a: Address, r: Txs, s: Txs, tx: Tx)
    requires SoundAt(p, a) && Parts(Lane(p.pending, a), r, s) && NoneLost(p) && tx in DemoteWith(p, a, r, s).all && tx.sender == a
    requires !(tx.nonce in Lane(p.pending, a) && Lane(p.pending, a)[tx.nonce] == tx)
    ensures Placed(DemoteWith(p, a, r, s), tx)
  {
    assert Placed(p, tx);
    assert Lane(DemoteWith(p, a, r, s).queue, a) == Lane(p.queue, a) + s;
  }

  // ---------------------------------------------------------------- when demotion leaves no gap

  ghost predicate Interval(l: Txs, lo: nat) { exists hi: nat :: Spans(l, lo, hi) }

  /** The lane reaches from the state's nonce to some later nonce `n`, everything up to there can be paid
      for, and the nonce before `n` is missing. */
  ghost predicate GapBefore(l: Txs, w: World, a: Address, n: nat) {
    && StateNonce(w, a) in l && n in l && n > StateNonce(w, a) && n - 1 !in l
    && forall k: nat :: k in l && StateNonce(w, a) <= k <= n ==> !Costly(Balance(w, a), w.maxGas, l[k])
  }

  lemma KeptIff(m: Txs, costLimit: nat, gasLimit: nat, n: nat)
    requires n in m
    ensures n in FilterKeeps(m, true, costLimit, gasLimit) <==>
            forall k: nat :: k in m && k <= n ==> !Costly(costLimit, gasLimit, m[k])
  {
    var gone := CostlyIn(m, costLimit, gasLimit);
    assert forall k: nat :: k in m && Costly(costLimit, gasLimit, m[k]) ==> k in gone;
    if gone != map[] { assert Smallest(gone) in gone; }
  }

  lemma ExecutableIff(l: Txs, w: World, a: Address, n: nat)
    ensures n in Executable(l, w, a) <==>
            n in l && n >= StateNonce(w, a) &&
            forall k: nat :: k in l && StateNonce(w, a) <= k <= n ==> !Costly(Balance(w, a), w.maxGas, l[k])
  {
    hide FilterKeeps;
    var m := From(l, StateNonce(w, a));
    FilterParts(m, Balance(w, a), w.maxGas);
    assert forall k: nat :: k in m <==> k in l && k >= StateNonce(w, a);
    if n in m { KeptIff(m, Balance(w, a), w.maxGas, n); }
  }

  /** demoteUnexecutables checks only the first nonce: the lane it leaves is an interval from the state's
      nonce exactly when the lane had no gap before a payable stretch. */
  lemma DemoteIntervalIff(l: Txs, w: World, a: Address)
    ensures Interval(Remaining(l, w, a), StateNonce(w, a)) <==> forall n: nat :: !GapBefore(l, w, a, n)
  {
    hide Executable;
    var lo, r := StateNonce(w, a), Remaining(l, w, a);
    if n: nat :| GapBefore(l, w, a, n) {
      GapStays(l, w, a, n);
    } else if lo !in r {
      assert r == map[];
      assert Spans(r, lo, lo);
    } else {
      RunIsAll(l, w, a);
    }
  }

  lemma GapStays(l: Txs, w: World, a: Address, n: nat)
    requires GapBefore(l, w, a, n)
    ensures !Interval(Remaining(l, w, a), StateNonce(w, a))
  {
    hide Executable;
    ExecutableIff(l, w, a, n);
    ExecutableIff(l, w, a, n - 1);
    ExecutableIff(l, w, a, StateNonce(w, a));
    assert n in Remaining(l, w, a) && n - 1 !in Remaining(l, w, a);
  }

  lemma RunIsAll(l: Txs, w: World, a: Address)
    requires StateNonce(w, a) in Remaining(l, w, a) && forall n: nat :: !GapBefore(l, w, a, n)
    ensures Interval(Remaining(l, w, a), StateNonce(w, a))
  {
    hide Executable;
    var lo, r := StateNonce(w, a), Remaining(l, w, a);
    var e := RunEnd(r, lo);
    forall n: nat | n in r ensures lo <= n < e {
      ExecutableIff(l, w, a, n);
      if n >= e { NoJump(l, w, a, e, n); }
    }
    assert Spans(r, lo, e);
  }

  /** Without gaps nothing lies beyond a missing nonce. */
  lemma {:induction false} NoJump(l: Txs, w: World, a: Address, e: nat, n: nat)
    requires StateNonce(w, a) in Executable(l, w, a) && forall k: nat :: !GapBefore(l, w, a, k)
    requires n in Executable(l, w, a) && StateNonce(w, a) <= e <= n
    ensures e in Executable(l, w, a)
    decreases n
  {
    hide Executable;
    if n > e {
      ExecutableIff(l, w, a, n);
      ExecutableIff(l, w, a, StateNonce(w, a));
      assert !GapBefore(l, w, a, n);
      ExecutableIff(l, w, a, n - 1);
      NoJump(l, w, a, e, n - 1);
    }
  }

  // ---------------------------------------------------------------- the tracked nonces

  /** After demotion every account with pending transactions is tracked at the nonce past its last. */
  function TrackPending(p: Pool): Pool
    requires forall a :: a in p.pending ==> p.pending[a] != map[]
  {
    p.(nonces := p.nonces + map a | a in p.pending :: LaneTop(p.pending[a]) + 1)
  }

  lemma TrackSound(p: Pool)
    requires Sound(p) && forall a :: a in p.pending ==> p.pending[a] != map[]
    ensures Sound(TrackPending(p))
  {
    forall a: Address ensures SoundAt(TrackPending(p), a) { EverySender(p, a); }
  }

  lemma TrackKeeps(p: Pool)
    requires forall a :: a in p.pending ==> p.pending[a] != map[]
    ensures TrackPending(p) == p.(nonces := TrackPending(p).nonces)
  {}

  /** The pending lane is an interval, wherever it starts, and the queue lies above it. */
  ghost predicate OrderedAt(p: Pool, a: Address, lo: nat, hi: nat) {
    Spans(Lane(p.pending, a), lo, hi) && StartsAt(Lane(p.queue, a), hi)
  }

  /** Demotion and tracking settle an account under the new state, however far the state moved. */
  lemma DemoteSettles(p: Pool, w: World, a: Address, lo: nat, hi: nat, p': Pool)
    requires SoundAt(p, a) && OrderedAt(p, a, lo, hi)
    requires Lane(p'.pending, a) == Remaining(Lane(p.pending, a), w, a)
    requires Lane(p'.queue, a) == Lane(p.queue, a) + Demoted(Lane(p.pending, a), w, a)
    requires NextNonce(p', w, a) == if Lane(p'.pending, a) == map[] then StateNonce(w, a) else LaneTop(Lane(p'.pending, a)) + 1
    ensures SettledAt(p', w, a)
  {
    hide Demoted, Executable, LaneTop, Remaining;
    var l, r := Lane(p.pending, a), Lane(p'.pending, a);
    RemainingSpan(l, w, a, lo, hi);
    if r == map[] {
      assert Spans(r, StateNonce(w, a), StateNonce(w, a));
    } else {
      DemotedAbove(l, w, a, lo, hi);
    }
  }

  lemma RemainingSpan(l: Txs, w: World, a: Address, lo: nat, hi: nat)
    requires Spans(l, lo, hi)
    ensures Remaining(l, w, a) != map[] ==>
              Spans(Remaining(l, w, a), StateNonce(w, a), LaneTop(Remaining(l, w, a)) + 1) && LaneTop(Remaining(l, w, a)) < hi
  {
    hide Executable;
    var r := Remaining(l, w, a);
    forall n: nat ensures !GapBefore(l, w, a, n) {}
    DemoteIntervalIff(l, w, a);
    var e: nat :| Spans(r, StateNonce(w, a), e);
    if r != map[] {
      assert StateNonce(w, a) in r;
      assert e - 1 in r;
      ExecutableIff(l, w, a, e - 1);
    }
  }

  /** What is queued again lies above what stays. */
  lemma DemotedAbove(l: Txs, w: World, a: Address, lo: nat, hi: nat)
    requires Spans(l, lo, hi) && Remaining(l, w, a) != map[]
    ensures StartsAt(Demoted(l, w, a), LaneTop(Remaining(l, w, a)) + 1)
  {
    hide Executable, Invalidated;
    var r := Remaining(l, w, a);
    assert Demoted(l, w, a) == Invalidated(l, w, a);
    forall n: nat | n in Invalidated(l, w, a) ensures LaneTop(r) < n {
      InvalidatedAbove(l, w, a, n, LaneTop(r));
    }
  }

  lemma InvalidatedAbove(l: Txs, w: World, a: Address, n: nat, k: nat)
    requires n in Invalidated(l, w, a) && k in Executable(l, w, a)
    ensures k < n
  {}

  // ---------------------------------------------------------------- promotion and demotion of a single transaction

  lemma FirstQueued(p: Pool, tx: Tx, bump: nat)
    requires tx.sender !in p.queue
    ensures Enqueue(p, tx, bump) == p.(queue := p.queue[tx.sender := map[tx.nonce := tx]], all := p.all + {tx})
  {}

  lemma DemotedLane(p: Pool, w: World, a: Address)
    ensures Lane(DemoteAccount(p, w, a).pending, a) == Remaining(Lane(p.pending, a), w, a)
  {}

  lemma LonePromoted(p: Pool, w: World, cfg: Config, tx: Tx)
    requires tx.sender in p.queue && p.queue[tx.sender] == map[tx.nonce := tx]
    requires tx.nonce == NextNonce(p, w, tx.sender) == StateNonce(w, tx.sender)
    requires !Costly(Balance(w, tx.sender), w.maxGas, tx)
    ensures Lane(PromoteAccount(p, w, {}, cfg, tx.sender).pending, tx.sender) == Lane(p.pending, tx.sender) + map[tx.nonce := tx]
  {
    var q := Payable(p.queue[tx.sender], w, tx.sender);
    assert q == map[tx.nonce := tx] && tx.nonce in q;
    assert Smallest(q) == tx.nonce;
    assert RunEnd(q, tx.nonce) == tx.nonce + 1;
    assert ReadyRun(q, tx.nonce) == q;
  }
}
