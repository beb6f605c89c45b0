/** Promotion and demotion (chain/core/tx_pool.go): what moves between a sender's lanes when the queue is
    worked off, and when the chain head changes. */
module PoolMoves {
  import opened TxMap
  import opened TxListOps
  import opened PoolState

  // ---------------------------------------------------------------- promotion of one account

  /** What the list's Ready hands out: the run from its first nonce, if that is not past `start`. */
  function ReadyRun(q: Txs, start: nat): Txs {
    if q == map[] || Smallest(q) > start then map[] else Below(q, RunEnd(q, Smallest(q)))
  }

  /** The per-account queue limit spares local senders. */
  function Limited(q: Txs, local: bool, cap: nat): Txs { if local || |q| <= cap then q else Lowest(q, cap) }

  function Payable(q: Txs, w: World, a: Address): Txs { PayableIn(From(q, StateNonce(w, a)), Balance(w, a), w.maxGas) }

  function Rest(q: Txs, r: Txs): Txs { q - r.Keys }

  /** One account of promoteExecutables: `q` is what is still payable of its queue, `r` what becomes
      pending, `s` what stays queued. */
  function PromoteWith(p: Pool, a: Address, r: Txs, s: Txs): Pool {
    p.(pending := if r == map[] then p.pending else p.pending[a := Lane(p.pending, a) + r],
       queue := PutLane(p.queue, a, s),
       all := p.all - GoneFrom(Lane(p.queue, a), r, s),
       nonces := if r == map[] then p.nonces else p.nonces[a := LaneTop(r) + 1])
  }

  function GoneFrom(q: Txs, r: Txs, s: Txs): set<Tx> { set n: nat | n in q && n !in r && n !in s :: q[n] }

  function PromoteAccount(p: Pool, w: World, locals: set<Address>, cfg: Config, a: Address): Pool {
    if a !in p.queue then p
    else
      var q := Payable(p.queue[a], w, a);
      var r := ReadyRun(q, NextNonce(p, w, a));
      PromoteWith(p, a, r, Limited(Rest(q, r), a in locals, cfg.accountQueue))
  }

  ghost predicate Within(s: Txs, m: Txs) { forall n: nat :: n in s ==> n in m && s[n] == m[n] }

  /** The parts promotion works with: they come from the queue and do not overlap. */
  ghost predicate Parts(q: Txs, r: Txs, s: Txs) { Within(r, q) && Within(s, q) && r.Keys !! s.Keys }

  lemma PromoteTouches(p: Pool, a: Address, r: Txs, s: Txs)
    requires SoundAt(p, a)
    ensures OnlyTouches(p, PromoteWith(p, a, r, s), a)
  {}

  lemma PromoteSoundAt(p: Pool, a: Address, r: Txs, s: Txs)
    requires SoundAt(p, a) && Parts(Lane(p.queue, a), r, s)
    ensures SoundAt(PromoteWith(p, a, r, s), a)
  {
    var p' := PromoteWith(p, a, r, s);
    var l, q := Lane(p.pending, a), Lane(p.queue, a);
    assert Lane(p'.pending, a) == l + r;
    assert Lane(p'.queue, a) == s;
    assert forall n: nat :: n in l ==> l[n] !in GoneFrom(q, r, s);
    assert forall n: nat :: n in r ==> r[n] !in GoneFrom(q, r, s);
    assert forall n: nat :: n in s ==> s[n] !in GoneFrom(q, r, s);
  }

  lemma PromoteParts(q0: Txs, w: World, a: Address, start: nat, local: bool, cap: nat)
    ensures Parts(q0, ReadyRun(Payable(q0, w, a), start), Limited(Rest(Payable(q0, w, a), ReadyRun(Payable(q0, w, a), start)), local, cap))
  {
    hide Payable, ReadyRun, Limited;
    var q := Payable(q0, w, a);
    var r := ReadyRun(q, start);
    PayableWithin(q0, w, a);
    ReadyWithin(q, start);
    LimitedWithin(Rest(q, r), local, cap);
  }

  lemma ReadyWithin(q: Txs, start: nat)
    ensures Within(ReadyRun(q, start), q)
  {}

  /** Promotion keeps the pool sound, whatever the sender's lanes look like. */
  lemma PromoteSound(p: Pool, w: World, locals: set<Address>, cfg: Config, a: Address)
    requires Sound(p)
    ensures Sound(PromoteAccount(p, w, locals, cfg, a)) && OnlyTouches(p, PromoteAccount(p, w, locals, cfg, a), a)
  {
    hide SoundAt, OnlyTouches, Sound, PromoteWith, Payable, ReadyRun, Limited, Rest, Parts;
    EverySender(p, a);
    if a in p.queue {
      var q := Payable(p.queue[a], w, a);
      var r := ReadyRun(q, NextNonce(p, w, a));
      var s := Limited(Rest(q, r), a in locals, cfg.accountQueue);
      PromoteParts(p.queue[a], w, a, NextNonce(p, w, a), a in locals, cfg.accountQueue);
      PromoteTouches(p, a, r, s);
      PromoteSoundAt(p, a, r, s);
      SoundElsewhere(p, PromoteWith(p, a, r, s), a);
    } else {
      Untouched(p, a);
    }
  }

  lemma Untouched(p: Pool, a: Address)
    ensures OnlyTouches(p, p, a)
  {}

  /** The pending lane is tight; the queue may still hold nonces the state has passed. */
  ghost predicate SettledAt(p: Pool, w: World, a: Address) {
    && Spans(Lane(p.pending, a), StateNonce(w, a), NextNonce(p, w, a))
    && forall n: nat :: n in Lane(p.queue, a) ==> n < StateNonce(w, a) || n >= NextNonce(p, w, a)
  }

  lemma ReadyExtends(q: Txs, next: nat)
    requires StartsAt(q, next)
    ensures ReadyRun(q, next) == map[] ==> next !in q
    ensures ReadyRun(q, next) != map[] ==> Spans(ReadyRun(q, next), next, LaneTop(ReadyRun(q, next)) + 1)
    ensures ReadyRun(q, next) != map[] ==> StartsAt(Rest(q, ReadyRun(q, next)), LaneTop(ReadyRun(q, next)) + 1)
  {
    var r := ReadyRun(q, next);
    if next in q { assert Smallest(q) == next; }
    if q != map[] && Smallest(q) == next {
      var e := RunEnd(q, next);
      assert next in q && e > next;
      assert next in r;
      assert forall n: nat :: n in r <==> next <= n < e;
      assert r != map[] ==> LaneTop(r) == e - 1 by { if r != map[] { assert e > next && e - 1 in r; } }
    }
  }

  lemma LimitedWithin(q: Txs, local: bool, cap: nat)
    ensures Within(Limited(q, local, cap), q)
  {}

  lemma PayableWithin(q: Txs, w: World, a: Address)
    ensures Within(Payable(q, w, a), q) && StartsAt(Payable(q, w, a), StateNonce(w, a))
  {}

  /** Promotion makes a settled account tight: the new pending nonces continue the interval, and what
      stays queued lies above it. */
  lemma PromoteTightens(p: Pool, w: World, locals: set<Address>, cfg: Config, a: Address)
    requires SettledAt(p, w, a)
    ensures TightAt(PromoteAccount(p, w, locals, cfg, a), w, a)
  {
    hide Payable, ReadyRun, Limited, LaneTop, PromoteWith;
    if a in p.queue {
      var next := NextNonce(p, w, a);
      var q := Payable(p.queue[a], w, a);
      PayableWithin(p.queue[a], w, a);
      assert forall n: nat :: n in q ==> n in Lane(p.queue, a) && n >= StateNonce(w, a);
      assert StartsAt(q, next);
      var r := ReadyRun(q, next);
      ReadyExtends(q, next);
      var s := Limited(Rest(q, r), a in locals, cfg.accountQueue);
      LimitedWithin(Rest(q, r), a in locals, cfg.accountQueue);
      TightenWith(p, w, a, r, s);
    }
  }

  lemma TightenWith(p: Pool, w: World, a: Address, r: Txs, s: Txs)
    requires SettledAt(p, w, a)
    requires r == map[] ==> StartsAt(s, NextNonce(p, w, a))
    requires r != map[] ==> Spans(r, NextNonce(p, w, a), LaneTop(r) + 1) && StartsAt(s, LaneTop(r) + 1)
    ensures TightAt(PromoteWith(p, a, r, s), w, a)
  {
    hide LaneTop;
    var p' := PromoteWith(p, a, r, s);
    assert Lane(p'.pending, a) == Lane(p.pending, a) + r;
    assert Lane(p'.queue, a) == s;
  }

  lemma TightSettled(p: Pool, w: World, a: Address)
    requires TightAt(p, w, a)
    ensures SettledAt(p, w, a)
  {}

  lemma PromoteTight(p: Pool, w: World, locals: set<Address>, cfg: Config, a: Address)
    requires Sound(p)
    ensures KeepsTight(p, PromoteAccount(p, w, locals, cfg, a), w)
  {
    hide PromoteAccount, SoundAt, TightAt, OnlyTouches;
    PromoteSound(p, w, locals, cfg, a);
    if TightAt(p, w, a) {
      TightSettled(p, w, a);
      PromoteTightens(p, w, locals, cfg, a);
    }
    KeepsElsewhere(p, PromoteAccount(p, w, locals, cfg, a), w, a);
  }

  /** What Ready hands out ends where the lane ends or has its first gap. */
  lemma ReadyEnds(q: Txs, start: nat)
    ensures if ReadyRun(q, start) == map[] then start !in q else LaneTop(ReadyRun(q, start)) + 1 !in q
  {
    var r := ReadyRun(q, start);
    if q != map[] && Smallest(q) <= start {
      var lo, e := Smallest(q), RunEnd(q, Smallest(q));
      assert lo in r && e - 1 in r;
      assert LaneTop(r) == e - 1;
    }
  }

  /** Nothing that could follow the sender's pending transactions waits in its queue. */
  ghost predicate Exhausted(p: Pool, w: World, a: Address) { NextNonce(p, w, a) !in Lane(p.queue, a) }

  /** Promotion moves everything that is ready, whatever the sender's lanes look like. */
  lemma PromoteDrains(p: Pool, w: World, locals: set<Address>, cfg: Config, a: Address)
    ensures Exhausted(PromoteAccount(p, w, locals, cfg, a), w, a)
  {
    hide Payable, ReadyRun, Limited;
    if a in p.queue {
      var q := Payable(p.queue[a], w, a);
      var r := ReadyRun(q, NextNonce(p, w, a));
      ReadyEnds(q, NextNonce(p, w, a));
      LimitedWithin(Rest(q, r), a in locals, cfg.accountQueue);
    }
  }

  /** The sender can pay for the queued transaction of nonce `k`, which the state has not passed. */
  ghost predicate Affords(p: Pool, w: World, a: Address, k: nat) {
    && k >= StateNonce(w, a) && k in Lane(p.queue, a)
    && Lane(p.queue, a)[k].cost <= Balance(w, a) && Lane(p.queue, a)[k].gas <= w.maxGas
  }

  /** Of a settled account exactly those queued transactions become pending before which, from the next nonce on,
      everything is queued and can be paid for, and they become pending as they are. */
  lemma PromoteReadyIff(p: Pool, w: World, locals: set<Address>, cfg: Config, a: Address, n: nat, p': Pool)
    requires SettledAt(p, w, a) && n in Lane(p.queue, a) && p' == PromoteAccount(p, w, locals, cfg, a)
    ensures n in Lane(p'.pending, a) <==> n >= NextNonce(p, w, a) && forall k: nat :: NextNonce(p, w, a) <= k <= n ==> Affords(p, w, a, k)
    ensures n in Lane(p'.pending, a) ==> Lane(p'.pending, a)[n] == Lane(p.queue, a)[n]
    ensures n in Lane(p'.pending, a) ==> NextNonce(p', w, a) > n
  {
    hide ReadyRun, Limited;
    var next, q := NextNonce(p, w, a), Payable(p.queue[a], w, a);
    var r := ReadyRun(q, next);
    assert forall k: nat :: k in q <==> Affords(p, w, a, k);
    assert Lane(p'.pending, a) == Lane(p.pending, a) + r;
    ReadyWithin(q, next);
    ReadyExtends(q, next);
    ReadyEnds(q, next);
  }

  /** Where a queued transaction of the account ends up: pending, still queued, or dropped.  It is dropped exactly
      if the state has passed it, its sender cannot pay for it, or it is not ready and the account's queue is full
      below it. */
  lemma PromoteSorts(p: Pool, w: World, locals: set<Address>, cfg: Config, a: Address, n: nat, p': Pool, tx: Tx)
    requires SoundAt(p, a) && n in Lane(p.queue, a)
    requires tx == Lane(p.queue, a)[n] && p' == PromoteAccount(p, w, locals, cfg, a)
    ensures Placed(p', tx) <==> tx in p'.all
    ensures tx !in p'.all <==>
              || n < StateNonce(w, a) || tx.cost > Balance(w, a) || tx.gas > w.maxGas
              || (&& n !in Lane(p'.pending, a) && a !in locals
                  && |Lane(p'.queue, a)| == cfg.accountQueue && forall k: nat :: k in Lane(p'.queue, a) ==> k < n)
  {
    hide Payable, ReadyRun, Limited, Rest, Placed, PromoteWith, Parts;
    var q := Payable(p.queue[a], w, a);
    var r := ReadyRun(q, NextNonce(p, w, a));
    var s := Limited(Rest(q, r), a in locals, cfg.accountQueue);
    PromoteParts(p.queue[a], w, a, NextNonce(p, w, a), a in locals, cfg.accountQueue);
    PlacedAfter(p, a, r, s, n);
    PartsSort(p.queue[a], w, a, r, s, NextNonce(p, w, a), a in locals, cfg.accountQueue, n);
    PromoteLanes(p, a, r, s);
  }

  lemma PromoteLanes(p: Pool, a: Address, r: Txs, s: Txs)
    ensures Lane(PromoteWith(p, a, r, s).pending, a) == Lane(p.pending, a) + r && Lane(PromoteWith(p, a, r, s).queue, a) == s
  {}

  /** What is neither ready nor kept. */
  lemma PartsSort(q0: Txs, w: World, a: Address, r: Txs, s: Txs, start: nat, local: bool, cap: nat, n: nat)
    requires Keyed(q0) && n in q0 && r == ReadyRun(Payable(q0, w, a), start) && s == Limited(Rest(Payable(q0, w, a), r), local, cap)
    ensures n !in r && n !in s <==>
              || n < StateNonce(w, a) || q0[n].cost > Balance(w, a) || q0[n].gas > w.maxGas
              || (n !in r && !local && |s| == cap && forall k: nat :: k in s ==> k < n)
  {
    hide Payable, ReadyRun, Limited;
    var q := Payable(q0, w, a);
    ReadyWithin(q, start);
    LimitedWithin(Rest(q, r), local, cap);
    if n !in q {
      NotPayable(q0, w, a, n);
    } else {
      InPayable(q0, w, a, n);
      PayableWithin(q0, w, a);
      if n !in r && n !in s { LimitCuts(Rest(q, r), local, cap, n); }
    }
  }

  lemma InPayable(q: Txs, w: World, a: Address, n: nat)
    requires n in Payable(q, w, a)
    ensures n in q && n >= StateNonce(w, a) && !Costly(Balance(w, a), w.maxGas, q[n])
  {}

  lemma PlacedAfter(p: Pool, a: Address, r: Txs, s: Txs, n: nat)
    requires SoundAt(p, a) && n in Lane(p.queue, a) && Parts(Lane(p.queue, a), r, s)
    ensures Placed(PromoteWith(p, a, r, s), Lane(p.queue, a)[n]) <==> n in r || n in s
    ensures Lane(p.queue, a)[n] in PromoteWith(p, a, r, s).all <==> n in r || n in s
  {
    var p', q := PromoteWith(p, a, r, s), Lane(p.queue, a);
    assert Lane(p'.pending, a) == Lane(p.pending, a) + r;
    assert Lane(p'.queue, a) == s;
    assert q[n] in GoneFrom(q, r, s) <==> n !in r && n !in s;
  }

  lemma NotPayable(q: Txs, w: World, a: Address, n: nat)
    requires n in q && n !in Payable(q, w, a)
    ensures n < StateNonce(w, a) || Costly(Balance(w, a), w.maxGas, q[n])
  {}

  lemma LimitCuts(q: Txs, local: bool, cap: nat, n: nat)
    requires Keyed(q) && n in q && n !in Limited(q, local, cap)
    ensures !local && |Limited(q, local, cap)| == cap && forall k: nat :: k in Limited(q, local, cap) ==> k < n
  {
    var s := Flat(q);
    FlatLength(q, s);
    LowestIsPrefix(q, s, cap);
    forall k: nat | k in Lowest(q, cap) ensures k < n {
      if n <= k { RankMonotone(q, n, k); }
    }
  }

  /** A remote account is left with no more queued transactions than the limit. */
  lemma PromoteLimits(p: Pool, w: World, locals: set<Address>, cfg: Config, a: Address)
    requires SoundAt(p, a) && a in p.queue && a !in locals
    ensures |Lane(PromoteAccount(p, w, locals, cfg, a).queue, a)| <= cfg.accountQueue
  {
    hide Payable, ReadyRun;
    var q := Payable(p.queue[a], w, a);
    PayableWithin(p.queue[a], w, a);
    var s := Rest(q, ReadyRun(q, NextNonce(p, w, a)));
    var f := Flat(s);
    FlatLength(s, f);
    if |s| > cfg.accountQueue { LowestIsPrefix(s, f, cfg.accountQueue); }
  }

  /** Whatever leaves both lanes in a promotion is forgotten. */
  lemma PromoteLosesNone(p: Pool, w: World, locals: set<Address>, cfg: Config, a: Address)
    requires Sound(p) && NoneLost(p)
    ensures NoneLost(PromoteAccount(p, w, locals, cfg, a))
  {
    hide Payable, ReadyRun, Limited, Rest, OnlyTouches, Sound, SoundAt, PromoteWith, Placed, Parts;
    EverySender(p, a);
    if a in p.queue {
      var q := Payable(p.queue[a], w, a);
      var r := ReadyRun(q, NextNonce(p, w, a));
      var s := Limited(Rest(q, r), a in locals, cfg.accountQueue);
      PromoteParts(p.queue[a], w, a, NextNonce(p, w, a), a in locals, cfg.accountQueue);
      PromoteTouches(p, a, r, s);
      var p' := PromoteWith(p, a, r, s);
      forall tx | tx in p'.all && tx.sender == a ensures Placed(p', tx) {
        if tx.nonce in Lane(p.queue, a) && Lane(p.queue, a)[tx.nonce] == tx {
          PlacedAfter(p, a, r, s, tx.nonce);
        } else {
          PendingStays(p, a, r, s, tx);
        }
      }
      PlacedElsewhere(p, p', a);
    }
  }

  lemma PendingStays(p: Pool, a: Address, r: Txs, s: Txs, tx: Tx)
    requires SoundAt(p, a) && Parts(Lane(p.queue, a), r, s) && NoneLost(p) && tx in PromoteWith(p, a, r, s).all && tx.sender == a
    requires !(tx.nonce in Lane(p.queue, a) && Lane(p.queue, a)[tx.nonce] == tx)
    ensures Placed(PromoteWith(p, a, r, s), tx)
  {
    assert Placed(p, tx);
    assert Lane(PromoteWith(p, a, r, s).pending, a) == Lane(p.pending, a) + r;
  }
}
