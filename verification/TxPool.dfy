/** TxPool (chain/core/tx_pool.go): the object whose methods move transactions between the lanes, keep the
    set of known transactions and the price heap in step, and enforce the limits. */
module TxPool {
  import opened Options
  import opened TxMap
  import opened TxListOps
  import opened TxSortedMap
  import opened PricedList
  import opened PoolState
  import opened PoolMoves
  import opened PoolReset
  import opened PoolRuns
  import opened PoolFair
  import opened PoolFacts
  import opened TxValidation
  import opened PoolAdds
  import opened PoolStall
  import opened PoolDrain
  import opened PoolRoom

  // ---------------------------------------------------------------- the pool

  class Pool {
    const cfg: Config
    const priced: Priced
    var world: World
    var locals: set<Address>
    var gasPrice: nat
    var pending: map<Address, Txs>
    var queue: map<Address, Txs>
    var all: set<Tx>
    var nonces: map<Address, nat>
    var beats: map<Address, nat>

    ghost function State(): PoolState.Pool
      reads this
    {
      PoolState.Pool(pending, queue, all, nonces)
    }

    /** The lanes are sound and every known transaction is in the price heap. */
    ghost predicate Valid()
      reads this, priced
    {
      Sound(State()) && PriceHeap(priced.items) && Covers(priced.items, all)
    }

    constructor (cfg: Config, world: World, gasPrice: nat)
      ensures Valid() && fresh(priced) && this.cfg == cfg && this.world == world
      ensures State() == PoolState.Pool(map[], map[], {}, map[]) && locals == {} && this.gasPrice == gasPrice
      ensures Tight(State(), world)
    {
      this.cfg, this.world, this.gasPrice := cfg, world, gasPrice;
      priced := new Priced();
      locals, pending, queue, all, nonces, beats := {}, map[], map[], {}, map[], map[];
    }

    /** A transaction leaves the known ones. */
    method Forget(tx: Tx)
      requires PriceHeap(priced.items)
      modifies this`all, priced
      ensures all == old(all) - {tx}
      ensures PriceHeap(priced.items) && Retains(old(priced.items), priced.items, all)
    {
      all := all - {tx};
      priced.Removed(all);
    }

    method ForgetAll(txs: seq<Tx>)
      requires PriceHeap(priced.items)
      modifies this`all, priced
      ensures all == old(all) - set tx | tx in txs
      ensures PriceHeap(priced.items) && Retains(old(priced.items), priced.items, all)
    {
      var i := 0;
      while i < |txs|
        invariant 0 <= i <= |txs|
        invariant all == old(all) - set tx | tx in txs[..i]
        invariant PriceHeap(priced.items) && Retains(old(priced.items), priced.items, all)
      {
        Forget(txs[i]);
        assert txs[..i + 1] == txs[..i] + [txs[i]];
        i := i + 1;
      }
      assert txs[..|txs|] == txs;
    }

    /** The transactions of a lane leave the known ones. */
    method ForgetLane(m: Txs)
      requires PriceHeap(priced.items) && Keyed(m)
      modifies this`all, priced
      ensures all == old(all) - ValuesOf(m)
      ensures PriceHeap(priced.items) && Retains(old(priced.items), priced.items, all)
    {
      hide PriceHeap, Retains, ValuesOf, Lists;
      var txs := TxList(m);
      ListSet(m, txs);
      ForgetAll(txs);
    }

    method ForgetLanes(m1: Txs, m2: Txs)
      requires PriceHeap(priced.items) && Keyed(m1) && Keyed(m2)
      modifies this`all, priced
      ensures all == old(all) - ValuesOf(m1) - ValuesOf(m2)
      ensures PriceHeap(priced.items) && Retains(old(priced.items), priced.items, all)
    {
      hide PriceHeap, ValuesOf, Keyed;
      ForgetLane(m1);
      ForgetLane(m2);
    }

    /** enqueueTx. */
    method EnqueueTx(tx: Tx) returns (replaced: bool, ok: bool)
      requires PriceHeap(priced.items)
      modifies this`queue, this`all, priced
      ensures State() == Enqueue(old(State()), tx, cfg.priceBump)
      ensures ok <==> Accepts(Lane(old(queue), tx.sender), tx, cfg.priceBump)
      ensures replaced <==> ok && tx.nonce in Lane(old(queue), tx.sender)
      ensures PriceHeap(priced.items) && Retains(old(priced.items), priced.items, all) && (ok ==> tx in priced.items)
    {
      hide PriceHeap, Outbids;
      var from := tx.sender;
      var q: Txs := Lane(queue, from);
      if !Accepts(q, tx, cfg.priceBump) { return false, false; }
      queue := queue[from := q[tx.nonce := tx]];
      if tx.nonce in q { Forget(q[tx.nonce]); }
      all := all + {tx};
      priced.Put(tx);
      return tx.nonce in q, true;
    }

    /** Transactions that left the pending lane are queued again; none can be refused. */
    method Requeue(a: Address, txs: seq<Tx>)
      requires PriceHeap(priced.items) && Fresh(txs, a, Lane(queue, a), all)
      modifies this`queue, this`all, priced
      ensures all == old(all) && queue == Requeued(old(queue), a, txs)
      ensures PriceHeap(priced.items) && Retains(old(priced.items), priced.items, all)
    {
      hide PriceHeap, Accepts, Requeued, Enqueue, Fresh, Lane;
      ghost var queue0 := queue;
      RequeuedNone(queue, a);
      var i := 0;
      while i < |txs|
        invariant 0 <= i <= |txs| && all == old(all)
        invariant queue == Requeued(queue0, a, txs[..i])
        invariant PriceHeap(priced.items) && Retains(old(priced.items), priced.items, all)
      {
        RequeueStep(State(), queue0, a, txs, i, cfg.priceBump);
        var replaced, ok := EnqueueTx(txs[i]);
        i := i + 1;
      }
      assert txs[..|txs|] == txs;
    }

    /** The transactions of a lane are queued again. */
    method RequeueLane(a: Address, m: Txs)
      requires PriceHeap(priced.items) && FreshLane(m, a, Lane(queue, a), all)
      modifies this`queue, this`all, priced
      ensures all == old(all) && queue == if m == map[] then old(queue) else old(queue)[a := Lane(old(queue), a) + m]
      ensures PriceHeap(priced.items) && Retains(old(priced.items), priced.items, all)
    {
      hide PriceHeap, Retains, Fresh, FreshLane, Gather, Requeued, Lists, Keyed;
      FreshKeyed(m, a, Lane(queue, a), all);
      var txs := TxList(m);
      ListedFresh(m, txs, a, Lane(queue, a), all);
      RequeuedIs(queue, a, txs, m);
      Requeue(a, txs);
    }

    /** promoteTx. */
    method PromoteTx(tx: Tx, now: nat)
      requires PriceHeap(priced.items)
      modifies this`pending, this`all, this`nonces, this`beats, priced
      ensures State() == Place(old(State()), tx, cfg.priceBump)
      ensures PriceHeap(priced.items) && Retains(old(priced.items), priced.items, all)
      ensures tx in all && tx !in old(all) ==> tx in priced.items
      ensures beats == if Accepts(Lane(old(pending), tx.sender), tx, cfg.priceBump) then old(beats)[tx.sender := now] else old(beats)
    {
      hide PriceHeap, Outbids;
      var a := tx.sender;
      var l: Txs := Lane(pending, a);
      if !Accepts(l, tx, cfg.priceBump) {
        Forget(tx);
        return;
      }
      pending := pending[a := l[tx.nonce := tx]];
      if tx.nonce in l { Forget(l[tx.nonce]); }
      if tx !in all {
        all := all + {tx};
        priced.Put(tx);
      }
      beats := beats[a := now];
      nonces := nonces[a := tx.nonce + 1];
    }

    /** removeTx. */
    method RemoveTx(tx: Tx)
      requires Sound(State()) && PriceHeap(priced.items)
      modifies this`pending, this`queue, this`all, this`nonces, this`beats, priced
      ensures State() == Remove(old(State()), world, tx)
      ensures Sound(State()) && LastBeats(old(beats), beats, old(pending), pending)
      ensures PriceHeap(priced.items) && Retains(old(priced.items), priced.items, all)
    {
      hide PriceHeap, Sound, SoundAt, Fresh, FreshLane, Gather, Lists, Remove, RemoveKeeps, RemoveInvalids, Requeued, LastBeats;
      ghost var p := State();
      RemoveSound(p, world, tx);
      RemoveCases(p, world, tx);
      BeatsSame(beats, pending, pending);
      if tx !in all { return; }
      var a := tx.sender;
      Forget(tx);
      var l := Lane(pending, a);
      if tx.nonce in l {
        var kept, later := RemoveKeeps(l, true, tx.nonce), RemoveInvalids(l, true, tx.nonce);
        LaterFresh(p, tx);
        if kept == map[] {
          BeatsGone(beats, pending, a);
          pending, beats := pending - {a}, beats - {a};
        } else {
          BeatsSame(beats, pending, pending[a := kept]);
          pending := pending[a := kept];
          RequeueLane(a, later);
        }
        if NextNonceNow(a) > tx.nonce { nonces := nonces[a := tx.nonce]; }
      } else if a in queue {
        var q := queue[a] - {tx.nonce};
        queue := if q == map[] then queue - {a} else queue[a := q];
      }
    }

    /** The run a queue lane hands out becomes pending; none of it can be refused. */
    method PromoteList(a: Address, txs: seq<Tx>, now: nat)
      requires PriceHeap(priced.items) && Fresh(txs, a, Lane(pending, a), all)
      modifies this`pending, this`all, this`nonces, this`beats, priced
      ensures all == old(all) && pending == Requeued(old(pending), a, txs)
      ensures nonces == if txs == [] then old(nonces) else old(nonces)[a := txs[|txs| - 1].nonce + 1]
      ensures beats == if txs == [] then old(beats) else old(beats)[a := now]
      ensures PriceHeap(priced.items) && Retains(old(priced.items), priced.items, all)
    {
      hide PriceHeap, Accepts, Requeued, Place, Fresh, Lane;
      ghost var pending0 := pending;
      RequeuedNone(pending, a);
      var i := 0;
      while i < |txs|
        invariant 0 <= i <= |txs| && all == old(all)
        invariant pending == Requeued(pending0, a, txs[..i])
        invariant nonces == if i == 0 then old(nonces) else old(nonces)[a := txs[i - 1].nonce + 1]
        invariant beats == if i == 0 then old(beats) else old(beats)[a := now]
        invariant PriceHeap(priced.items) && Retains(old(priced.items), priced.items, all)
      {
        PlaceStep(State(), pending0, a, txs, i, cfg.priceBump);
        PromoteTx(txs[i], now);
        i := i + 1;
      }
      assert txs[..|txs|] == txs;
    }

    method PromoteRun(a: Address, r: Txs, now: nat)
      requires PriceHeap(priced.items) && FreshLane(r, a, Lane(pending, a), all)
      modifies this`pending, this`all, this`nonces, this`beats, priced
      ensures all == old(all) && pending == if r == map[] then old(pending) else old(pending)[a := Lane(old(pending), a) + r]
      ensures nonces == if r == map[] then old(nonces) else old(nonces)[a := LaneTop(r) + 1]
      ensures beats == if r == map[] then old(beats) else old(beats)[a := now]
      ensures PriceHeap(priced.items) && Retains(old(priced.items), priced.items, all)
    {
      hide PriceHeap, Retains, Fresh, FreshLane, Gather, Requeued, Lists, Keyed, IsFlat, LaneTop;
      FreshKeyed(r, a, Lane(pending, a), all);
      var ready := Flat(r);
      FlatLists(r, ready);
      ListedFresh(r, ready, a, Lane(pending, a), all);
      RequeuedRun(pending, a, r, ready);
      PromoteList(a, ready, now);
    }

    /** The queue lane of `a` loses its stale and unpayable transactions and its executable run, which
        becomes pending; `s` is what is left of it. */
    method TakeOut(a: Address, stale: Txs, costly: Txs, r: Txs, s: Txs, now: nat)
      requires PriceHeap(priced.items) && Keyed(stale) && Keyed(costly)
      requires FreshLane(r, a, Lane(pending, a), all - ValuesOf(stale) - ValuesOf(costly))
      modifies this`pending, this`queue, this`all, this`nonces, this`beats, priced
      ensures all == old(all) - ValuesOf(stale) - ValuesOf(costly) && queue == old(queue)[a := s]
      ensures pending == if r == map[] then old(pending) else old(pending)[a := Lane(old(pending), a) + r]
      ensures nonces == if r == map[] then old(nonces) else old(nonces)[a := LaneTop(r) + 1]
      ensures beats == if r == map[] then old(beats) else old(beats)[a := now]
      ensures PriceHeap(priced.items) && Retains(old(priced.items), priced.items, all)
    {
      hide PriceHeap, Retains, FreshLane, Keyed, ValuesOf, LaneTop, Lane;
      ghost var h0 := priced.items;
      ForgetLanes(stale, costly);
      ghost var h1 := priced.items;
      queue := queue[a := s];
      PromoteRun(a, r, now);
      RetainsThen(h0, h1, priced.items, all, all);
    }

    /** One account of promoteExecutables: drop what the state has passed and what cannot be paid, move the
        executable run to the pending lane, and cut the rest to the limit. */
    method WorkOff(a: Address, now: nat)
      requires Valid()
      modifies this`pending, this`queue, this`all, this`nonces, this`beats, priced
      ensures State() == PromoteAccount(old(State()), world, locals, cfg, a)
      ensures Valid() && Exhausted(State(), world, a)
      ensures beats == if Grew(old(pending), pending, a) then old(beats)[a := now] else old(beats)
    {
      PromoteDrains(State(), world, locals, cfg, a);
      hide PriceHeap, Sound, SoundAt, FreshLane, Covers, Retains, Keyed, ReadyRun, Limited, Rest, Grew,
           Below, From, PayableIn, CostlyIn, ValuesOf, GoneFrom, OnlyTouches, Runs, LaneTop;
      ghost var p, h0 := State(), priced.items;
      PromoteSound(p, world, locals, cfg, a);
      if a !in queue {
        NotGrown(pending, a);
        return;
      }
      var stale := Below(queue[a], StateNonce(world, a));
      var q1 := From(queue[a], StateNonce(world, a));
      var costly := CostlyIn(q1, Balance(world, a), world.maxGas);
      var q2 := PayableIn(q1, Balance(world, a), world.maxGas);
      var r := ReadyRun(q2, NextNonceNow(a));
      var s := Rest(q2, r);
      var t := Limited(s, a in locals, cfg.accountQueue);
      LanesKeyed(p, world, a, r, s, t);
      BeatsWorked(p, a, r);
      ReadyFresh(p, world, a, r);
      TakeOut(a, stale, costly, r, s, now);
      ghost var h1, all1 := priced.items, all;
      ForgetLane(Rest(s, t));
      RetainsThen(h0, h1, priced.items, all1, all);
      queue := if t == map[] then queue - {a} else queue[a := t];
      GoneSplit(p, world, a, r, s, t, stale, costly);
      PutPut(p.queue, a, s, t);
      StillCovered(h0, priced.items, p.all, all);
    }

    lemma BeatsWorked(p: PoolState.Pool, a: Address, r: Txs)
      requires Sound(p) && a in p.queue && r == ReadyRun(Payable(p.queue[a], world, a), NextNonce(p, world, a))
      ensures Grew(p.pending, PromoteAccount(p, world, locals, cfg, a).pending, a) <==> r != map[]
    {
      hide PromoteAccount;
      EverySender(p, a);
      GrewIff(p, world, locals, cfg, a, r);
    }

    // ---------------------------------------------------------------- the pending limit

    /** The highest pending transaction of one sender goes. */
    method DropOne(a: Address)
      requires Valid() && Lane(pending, a) != map[]
      modifies this`pending, this`all, this`nonces, priced
      ensures State() == DropTop(old(State()), world, a) && Valid()
    {
      hide PriceHeap, Sound, SoundAt, KeepsTight, OnlyTouches;
      ghost var p, heap := State(), priced.items;
      DropTopKeeps(p, world, a);
      var l: Txs := Lane(pending, a);
      var nonce := LaneTop(l);
      var next := NextNonceNow(a);
      pending := pending[a := l - {nonce}];
      Forget(l[nonce]);
      if next > nonce { nonces := nonces[a := nonce]; }
      StillCovered(heap, priced.items, p.all, all);
    }

    /** One round: every sender of the list loses its highest pending transaction. */
    method Round(list: seq<Address>, count0: nat, ghost g: nat) returns (count: nat)
      requires Valid() && Distinct(list) && g > 0 && Level(State(), list, g) && count0 == Total(pending)
      modifies this`pending, this`all, this`nonces, priced
      ensures Valid() && Lowered(old(State()), State(), list, g) && Trimmed(old(State()), State(), world)
      ensures count == Total(pending) && count + |list| == count0
      ensures KeepsTight(old(State()), State(), world)
    {
      hide Valid, Total, KeepsTight, Trimmed, DropTop;
      ghost var p := State();
      TrimmedSelf(p, world);
      KeepsSelf(p, world);
      count := count0;
      var i := 0;
      while i < |list|
        invariant 0 <= i <= |list| && Valid() && count == Total(pending) && count + i == count0 && Trimmed(p, State(), world)
        invariant PartLevel(p, State(), list, i, g)
        invariant KeepsTight(p, State(), world)
      {
        ghost var s := State();
        ValidSound();
        NotEmpty(s, list[i], g);
        DropTopKeeps(s, world, list[i]);
        DropTopTrims(s, world, list[i]);
        DropOne(list[i]);
        TrimmedThen(p, s, State(), world);
        KeepsThen(p, s, State(), world);
        count := count - 1;
        i := i + 1;
      }
    }

    lemma ValidSound()
      requires Valid()
      ensures Sound(State())
    {}

    /** The inner loop: the earlier offenders come down to the length of the last, or until the limit is met. */
    method Equalize(offenders: seq<Address>, count0: nat, ghost p0: PoolState.Pool, ghost spammers: set<Address>, ghost g0: nat)
      returns (count: nat, ghost g: nat)
      requires Valid() && |offenders| > 1 && Limiting(p0, State(), world, locals, cfg, offenders, spammers, count0)
      requires Poised(p0, State(), cfg, offenders, spammers, g0)
      modifies this`pending, this`all, this`nonces, priced
      ensures Valid() && Limiting(p0, State(), world, locals, cfg, offenders, spammers, count)
      ensures Poised(p0, State(), cfg, offenders, spammers, g)
      ensures count <= cfg.globalSlots || g == Len(State(), offenders[|offenders| - 1])
      ensures KeepsTight(old(State()), State(), world)
    {
      hide Valid, Limiting, KeepsTight, Total, Lowered, Trimmed;
      KeepsSelf(State(), world);
      count, g := count0, g0;
      ghost var n := |offenders| - 1;
      var threshold := |Lane(pending, offenders[|offenders| - 1])|;
      while count > cfg.globalSlots && |Lane(pending, offenders[|offenders| - 2])| > threshold
        invariant Valid() && Limiting(p0, State(), world, locals, cfg, offenders, spammers, count)
        invariant Poised(p0, State(), cfg, offenders, spammers, g)
        invariant threshold == Len(State(), offenders[n])
        invariant KeepsTight(old(State()), State(), world)
        decreases g
      {
        ghost var s := State();
        assert Len(s, offenders[..n][n - 1]) == g;
        LimitingFacts(p0, s, world, locals, cfg, offenders, spammers, count);
        LeadersDistinct(offenders, n);
        count := Round(offenders[..|offenders| - 1], count, g);
        KeepsThen(old(State()), s, State(), world);
        RoundLimits(p0, s, State(), world, locals, cfg, offenders, spammers, count, n, g);
        PoisedNext(p0, s, State(), cfg, offenders, spammers, g);
        g := g - 1;
      }
      assert Len(State(), offenders[..n][n - 1]) == g;
    }

    /** The last loop: all offenders come down together, not below the guaranteed slots. */
    method LowerAll(offenders: seq<Address>, count0: nat, ghost p0: PoolState.Pool, ghost g0: nat) returns (count: nat, ghost g: nat)
      requires Valid() && |offenders| > 0 && Limiting(p0, State(), world, locals, cfg, offenders, {}, count0)
      requires Level(State(), offenders, g0)
      modifies this`pending, this`all, this`nonces, priced
      ensures Valid() && Limiting(p0, State(), world, locals, cfg, offenders, {}, count) && Level(State(), offenders, g)
      ensures count <= cfg.globalSlots || g <= cfg.accountSlots
      ensures KeepsTight(old(State()), State(), world)
    {
      hide Valid, Limiting, KeepsTight, Total, Lowered, Trimmed;
      KeepsSelf(State(), world);
      count, g := count0, g0;
      ghost var n := |offenders|;
      assert offenders[..n] == offenders;
      while count > cfg.globalSlots && |Lane(pending, offenders[|offenders| - 1])| > cfg.accountSlots
        invariant Valid() && Limiting(p0, State(), world, locals, cfg, offenders, {}, count) && Level(State(), offenders, g)
        invariant KeepsTight(old(State()), State(), world)
        decreases g
      {
        ghost var s := State();
        assert Len(s, offenders[n - 1]) == g;
        LimitingFacts(p0, s, world, locals, cfg, offenders, {}, count);
        count := Round(offenders, count, g);
        KeepsThen(old(State()), s, State(), world);
        RoundLimits(p0, s, State(), world, locals, cfg, offenders, {}, count, n, g);
        LoweredLevel(s, State(), offenders, g);
        g := g - 1;
      }
      assert Len(State(), offenders[n - 1]) == g;
    }

    /** The pending limit: the longest lanes come down together until the total fits or every remote sender
        is at its guaranteed slots. */
    method LimitPending()
      requires Valid()
      modifies this`pending, this`all, this`nonces, priced
      ensures Valid() && PendingLimited(old(State()), State(), world, locals, cfg)
      ensures KeepsTight(old(State()), State(), world)
    {
      hide Valid, Limiting, KeepsTight, Total, Ranked, Trimmed, PendingLimited, Poised;
      ghost var p0 := State();
      KeepsSelf(p0, world);
      var count: nat := CountAll(pending);
      LimitStart(p0, world, locals, cfg);
      if count <= cfg.globalSlots { return; }
      var spammers := Over(pending, locals, cfg.accountSlots);
      var offenders: seq<Address> := [];
      ghost var g: nat := 0;
      while count > cfg.globalSlots && spammers != {}
        invariant Valid() && Limiting(p0, State(), world, locals, cfg, offenders, spammers, count)
        invariant count > cfg.globalSlots ==> Level(State(), offenders, g)
        invariant KeepsTight(p0, State(), world)
        decreases |spammers|
      {
        var o := PopLongest(spammers, pending);
        PopLimits(p0, State(), world, locals, cfg, offenders, spammers, count, o, g);
        spammers, offenders := spammers - {o}, offenders + [o];
        if |offenders| > 1 {
          ghost var s := State();
          count, g := Equalize(offenders, count, p0, spammers, g);
          KeepsThen(p0, s, State(), world);
          if count > cfg.globalSlots { PoisedLevel(p0, State(), cfg, offenders, spammers, g); }
        } else {
          g := |Lane(pending, o)|;
        }
      }
      if count > cfg.globalSlots && |offenders| > 0 {
        assert spammers == {};
        ghost var s := State();
        count, g := LowerAll(offenders, count, p0, g);
        KeepsThen(p0, s, State(), world);
      }
      LimitEnd(p0, State(), world, locals, cfg, offenders, spammers, count, g);
    }

    // ---------------------------------------------------------------- the queue limit

    /** Queued transactions of one sender are removed one after the other. */
    method RemoveEach(a: Address, txs: seq<Tx>)
      requires Valid() && Queued(State(), a, txs)
      modifies this`pending, this`queue, this`all, this`nonces, this`beats, priced
      ensures Valid() && State() == Unqueue(old(State()), a, txs)
      ensures KeepsTight(old(State()), State(), world) && beats == old(beats)
    {
      hide PriceHeap, Sound, KeepsTight, Remove, Queued, Covers, Retains, NoncesOf;
      ghost var p := State();
      UnqueueNone(p, a);
      KeepsSelf(p, world);
      var i := 0;
      while i < |txs|
        invariant 0 <= i <= |txs| && Valid() && State() == Unqueue(p, a, txs[..i])
        invariant KeepsTight(p, State(), world) && beats == old(beats)
      {
        ghost var s, heap := State(), priced.items;
        BeatsSame(beats, pending, pending);
        UnqueueStep(p, world, a, txs, i);
        RemoveTouches(s, world, txs[i]);
        RemoveTight(s, world, txs[i]);
        RemoveTx(txs[i]);
        KeepsThen(p, s, State(), world);
        StillCovered(heap, priced.items, s.all, all);
        i := i + 1;
      }
      assert txs[..|txs|] == txs;
    }

    /** The queue limit: remote senders lose their queued transactions, those heard of last first, until the
        total fits. */
    method LimitQueue()
      requires Valid()
      modifies this`pending, this`queue, this`all, this`nonces, this`beats, priced
      ensures Valid() && QueueLimited(old(State()), State(), locals, old(beats), cfg)
      ensures KeepsTight(old(State()), State(), world) && beats == old(beats)
    {
      hide Valid, KeepsTight, Total, Unloading, Unqueue, Queued, IsFlat, NoncesOf, LowPart, Lane, Sound, TopList;
      ghost var p0 := State();
      KeepsSelf(p0, world);
      var queued: nat := CountAll(queue);
      if queued <= cfg.globalQueue { return; }
      var heard := beats;
      var addresses := Remote(queue, locals);
      var drop: nat := queued - cfg.globalQueue;
      UnloadStart(p0, locals, heard, cfg.globalQueue, drop);
      while drop > 0 && addresses != {}
        invariant Valid() && Unloading(p0, State(), locals, heard, cfg.globalQueue, addresses, drop)
        invariant KeepsTight(p0, State(), world) && beats == heard
        decreases |addresses|
      {
        ghost var s := State();
        ValidSound();
        var a := PopLatest(addresses, heard);
        LaneKeyed(s, a);
        var txs := Flat(Lane(queue, a));
        UnloadWhole(s, a, txs);
        if |txs| > drop {
          txs := TopList(txs, drop);
          UnloadTop(s, a, Flat(Lane(queue, a)), drop);
        }
        RemoveEach(a, txs);
        KeepsThen(p0, s, State(), world);
        if |txs| > 0 {
          UnloadStep(p0, s, locals, heard, cfg.globalQueue, addresses, drop, a, txs);
        } else {
          UnqueueNone(s, a);
          UnloadSkip(p0, s, locals, heard, cfg.globalQueue, addresses, drop, a);
        }
        drop := drop - |txs|;
        addresses := addresses - {a};
      }
    }

    // ---------------------------------------------------------------- promoteExecutables

    /** promoteExecutables: the accounts are worked off, then the pending and the queue limit are applied. */
    method PromoteExecutables(accounts: seq<Address>, now: nat) returns (ghost promoted: PoolState.Pool, ghost trimmed: PoolState.Pool)
      requires Valid()
      modifies this`pending, this`queue, this`all, this`nonces, this`beats, priced
      ensures Valid()
      ensures promoted == PromoteAll(old(State()), world, locals, cfg, accounts)
      ensures PendingLimited(promoted, trimmed, world, locals, cfg)
      ensures Heard(old(beats), beats, old(pending), promoted.pending, now) && QueueLimited(trimmed, State(), locals, beats, cfg)
      ensures KeepsTight(promoted, State(), world) && KeepsTight(old(State()), State(), world)
      ensures forall a: Address :: a in accounts || Exhausted(old(State()), world, a) ==> Exhausted(State(), world, a)
    {
      hide Valid, KeepsTight, PromoteAll, PromoteAccount, PendingLimited, QueueLimited, Exhausted, Heard, Grew, Lane, OnlyTouches, Sound;
      ghost var p := State();
      ValidSound();
      PromoteAllSound(p, world, locals, cfg, accounts);
      PromoteNone(p, world, locals, cfg);
      HeardNone(beats, pending, now);
      var i := 0;
      while i < |accounts|
        invariant 0 <= i <= |accounts| && Valid() && State() == PromoteAll(p, world, locals, cfg, accounts[..i])
        invariant Heard(old(beats), beats, p.pending, pending, now)
      {
        PromoteMore(p, world, locals, cfg, accounts, i);
        ghost var s, b1 := State(), beats;
        ValidSound();
        PromoteSound(s, world, locals, cfg, accounts[i]);
        PromoteGrows(s, world, locals, cfg, accounts[i]);
        WorkOff(accounts[i], now);
        HeardNext(old(beats), b1, beats, p, s, State(), accounts[i], now);
        i := i + 1;
      }
      assert accounts[..|accounts|] == accounts;
      promoted := State();
      LimitPending();
      trimmed := State();
      LimitQueue();
      KeepsThen(promoted, trimmed, State(), world);
      KeepsThen(p, promoted, State(), world);
      forall a: Address | a in accounts || Exhausted(p, world, a) ensures Exhausted(State(), world, a) {
        PromoteAllDrains(p, world, locals, cfg, accounts, a);
        LimitedDrained(promoted, trimmed, State(), locals, world, cfg, beats, a);
      }
    }

    // ---------------------------------------------------------------- a new head

    /** One account of demoteUnexecutables. */
    method Demote(a: Address)
      requires Valid() && a in pending
      modifies this`pending, this`queue, this`all, this`beats, priced
      ensures Valid() && State() == DemoteAccount(old(State()), world, a) && LastBeats(old(beats), beats, old(pending), pending)
    {
      hide PriceHeap, Sound, SoundAt, Fresh, FreshLane, Gather, Requeued, Covers, Retains, Keyed, ValuesOf, GoneFrom, OnlyTouches,
           Lists, Below, From, CostlyIn, FilterKeeps, FilterInvalids, DemoteAccount, Remaining, Demoted, LastBeats;
      ghost var p, h0 := State(), priced.items;
      DemoteSound(p, world, a);
      var nonce, l := StateNonce(world, a), pending[a];
      var l1 := From(l, nonce);
      var costly := CostlyIn(l1, Balance(world, a), world.maxGas);
      var kept := FilterKeeps(l1, true, Balance(world, a), world.maxGas);
      var invalids := FilterInvalids(l1, true, Balance(world, a), world.maxGas);
      var back := if nonce in kept then map[] else kept;
      DemoteKeyed(p, world, a, kept, invalids, costly, back);
      ForgetLanes(Below(l, nonce), costly);
      ghost var h1 := priced.items;
      RequeueLane(a, invalids);
      ghost var h2, queue1 := priced.items, queue;
      RetainsThen(h0, h1, h2, all, all);
      BackFresh(p, world, a, kept, invalids, costly, back, queue, all);
      RequeueLane(a, back);
      RetainsThen(h0, h2, priced.items, all, all);
      var stays: Txs := if nonce in kept then kept else map[];
      if stays == map[] {
        BeatsGone(beats, pending, a);
        pending, beats := pending - {a}, beats - {a};
      } else {
        BeatsSame(beats, pending, pending[a := stays]);
        pending := pending[a := stays];
      }
      DemoteIs(p, world, a, kept, invalids, back, costly, queue1);
      StillCovered(h0, priced.items, p.all, all);
    }

    /** demoteUnexecutables. */
    method DemoteUnexecutables() returns (accounts: seq<Address>)
      requires Valid()
      modifies this`pending, this`queue, this`all, this`beats, priced
      ensures Valid() && Distinct(accounts) && forall a :: a in accounts <==> a in old(pending)
      ensures State() == DemoteAll(old(State()), world, accounts) && LastBeats(old(beats), beats, old(pending), pending)
    {
      hide Valid, DemoteAll, DemoteAccount, Sound, LastBeats;
      accounts := AccountList(pending);
      ghost var p := State();
      ValidSound();
      DemoteNone(p, world);
      BeatsSame(beats, pending, pending);
      var i := 0;
      while i < |accounts|
        invariant 0 <= i <= |accounts| && Valid() && State() == DemoteAll(p, world, accounts[..i])
        invariant LastBeats(old(beats), beats, old(pending), pending) && pending.Keys <= old(pending).Keys
      {
        DemoteMore(p, world, accounts, i);
        ghost var s, b1 := State(), beats;
        DemoteShrinks(s, world, accounts[i]);
        Demote(accounts[i]);
        BeatsThen(old(beats), b1, beats, old(pending), s.pending, pending);
        i := i + 1;
      }
      assert accounts[..|accounts|] == accounts;
    }

    // ---------------------------------------------------------------- adding

    /** Removes what the price heap gave up. */
    method DropTxs(drops: seq<Tx>)
      requires Sound(State()) && PriceHeap(priced.items) && forall tx :: tx in all && tx !in drops ==> tx in priced.items
      modifies this`pending, this`queue, this`all, this`nonces, this`beats, priced
      ensures Valid() && State() == RemoveAll(old(State()), world, drops)
      ensures KeepsTight(old(State()), State(), world)
      ensures LastBeats(old(beats), beats, old(pending), pending) && pending.Keys <= old(pending).Keys
    {
      hide PriceHeap, Sound, KeepsTight, RemoveAll, Remove, Covers, LastBeats;
      ghost var p, heap := State(), priced.items;
      RemoveNone(p, world);
      BeatsSame(beats, pending, pending);
      var i := 0;
      while i < |drops|
        invariant 0 <= i <= |drops| && Sound(State()) && PriceHeap(priced.items) && State() == RemoveAll(p, world, drops[..i])
        invariant Retains(heap, priced.items, all)
        invariant LastBeats(old(beats), beats, old(pending), pending) && pending.Keys <= old(pending).Keys
      {
        RemoveMore(p, world, drops, i);
        ghost var s, b1 := State(), beats;
        RemoveTouches(s, world, drops[i]);
        RemoveShrinks(s, world, drops[i]);
        RemoveTx(drops[i]);
        BeatsThen(old(beats), b1, beats, old(pending), s.pending, pending);
        i := i + 1;
      }
      assert drops[..|drops|] == drops;
      RemoveAllKeeps(p, world, drops);
      CoveredAfter(heap, priced.items, p.all, all, drops);
    }

    predicate Full()
      reads this
    {
      |all| >= cfg.globalSlots + cfg.globalQueue
    }

    /** Makes room in a full pool, unless the new transaction is no better than everything in it. */
    method MakeRoom(tx: Tx) returns (ok: bool, ghost drops: seq<Tx>)
      requires Valid()
      modifies this`pending, this`queue, this`all, this`nonces, this`beats, priced
      ensures Valid() && State() == RemoveAll(old(State()), world, drops)
      ensures ok <==> !(old(Full()) && NoBetter(tx, old(all), locals))
      ensures if ok then GivenUp(old(Books(State(), locals)), cfg, drops) else drops == []
      ensures NoTwice(old(priced.items)) ==> NoTwice(drops)
      ensures KeepsTight(old(State()), State(), world)
      ensures LastBeats(old(beats), beats, old(pending), pending)
    {
      hide PriceHeap, Sound, KeepsTight, RemoveAll, NoBetter, Cheapest, Enough, LastBeats;
      BeatsSame(beats, pending, pending);
      drops := [];
      RemoveNone(State(), world);
      KeepsSelf(State(), world);
      ok := true;
      if Full() {
        var worse := priced.Underpriced(tx, all, locals);
        if worse { return false, []; }
        var dropped := priced.Discard(|all| - (cfg.globalSlots + cfg.globalQueue) + 1, all, locals);
        drops := dropped;
        DropTxs(dropped);
      }
    }

    /** add, after validation and once there is room. */
    method InsertTx(tx: Tx) returns (replaced: bool, ok: bool)
      requires Valid()
      modifies this`pending, this`queue, this`all, priced
      ensures Valid() && State() == Insert(old(State()), tx, cfg.priceBump)
      ensures ok <==> Inserts(old(State()), tx, cfg.priceBump)
      ensures SameSenders(old(pending), pending) && OnlyNew(old(all), all, tx)
      ensures replaced <==> ok && (tx.nonce in Lane(old(pending), tx.sender) || tx.nonce in Lane(old(queue), tx.sender))
    {
      hide PriceHeap, Sound, Accepts, Enqueue;
      ghost var p, heap := State(), priced.items;
      InsertKeeps(p, world, tx, cfg.priceBump);
      InsertLanes(p, tx, cfg.priceBump);
      var l: Txs := Lane(pending, tx.sender);
      if tx.nonce in l {
        if !Accepts(l, tx, cfg.priceBump) { return false, false; }
        pending := pending[tx.sender := l[tx.nonce := tx]];
        Forget(l[tx.nonce]);
        all := all + {tx};
        priced.Put(tx);
        return true, true;
      }
      replaced, ok := EnqueueTx(tx);
      EnqueueGrows(p, tx, cfg.priceBump);
    }

    /** add, once there is room: the transaction is put into its lane, and a local one makes its sender local. */
    method Lodge(tx: Tx, local: bool) returns (replaced: bool, err: Option<Reject>)
      requires Valid() && tx.nonce >= StateNonce(world, tx.sender)
      modifies this`pending, this`queue, this`all, this`locals, priced
      ensures Valid() && Lodged(old(State()), old(locals), Books(State(), locals), cfg, tx, local, Answer(err, replaced))
      ensures err == None ==> tx in all && Placed(State(), tx)
      ensures KeepsTight(old(State()), State(), world) && SameSenders(old(pending), pending) && OnlyNew(old(all), all, tx)
    {
      hide PriceHeap, Sound, KeepsTight, Insert, Inserts, Placed, Covers, Lane, SameSenders, OnlyNew;
      ghost var p := State();
      InsertKeeps(p, world, tx, cfg.priceBump);
      var wasPending := tx.nonce in Lane(pending, tx.sender);
      var done;
      replaced, done := InsertTx(tx);
      if !done { return false, Some(ReplaceUnderpriced); }
      InsertPlaces(p, tx, cfg.priceBump);
      if !wasPending && local { locals := locals + {tx.sender}; }
      err := None;
    }

    /** add, once validated: refused if a full pool has nothing worse, or put into its lane in the room made for it. */
    method Admit(tx: Tx, local: bool) returns (replaced: bool, err: Option<Reject>, ghost drops: seq<Tx>)
      requires Valid() && tx.nonce >= StateNonce(world, tx.sender)
      modifies this`pending, this`queue, this`all, this`nonces, this`beats, this`locals, priced
      ensures Valid() && KeepsTight(old(State()), State(), world) && LastBeats(old(beats), beats, old(pending), pending)
      ensures if old(Full()) && NoBetter(tx, old(all), old(locals))
              then err == Some(Underpriced) && !replaced && State() == old(State()) && locals == old(locals)
              else && GivenUp(old(Books(State(), locals)), cfg, drops)
                   && Lodged(RemoveAll(old(State()), world, drops), old(locals), Books(State(), locals), cfg, tx, local, Answer(err, replaced))
      ensures err == None ==> tx in all && Placed(State(), tx)
      ensures err == None && old(Full()) && NoTwice(old(priced.items)) ==> Fits(all, tx, old(locals), cfg)
    {
      assert Sound(State());
      hide PriceHeap, Sound, KeepsTight, RemoveAll, NoBetter, Cheapest, Placed, Covers, Full, Enough, NoTwice, GivenUp, LastBeats,
           Fits, Lodged, Valid, IsFull, SameSenders, OnlyNew;
      KeepsSelf(State(), world);
      FullIs();
      ghost var b, beats0 := Books(State(), locals), beats;
      RemoveNone(b.pool, world);
      var room;
      room, drops := MakeRoom(tx);
      if !room { return false, Some(Underpriced), drops; }
      ghost var p := State();
      replaced, err := Lodge(tx, local);
      BeatsKept(beats0, beats, b.pool.pending, p.pending, pending);
      KeepsThen(b.pool, p, State(), world);
      if IsFull(b.pool, cfg) && NoTwice(drops) { RoomMade(b, world, cfg, drops, all, tx); }
    }

    /** add: refused for the first reason that applies, or put into a lane once there is room. */
    method Add(tx: Tx, facts: Facts, local: bool) returns (replaced: bool, err: Option<Reject>)
      requires Valid()
      modifies this`pending, this`queue, this`all, this`nonces, this`beats, this`locals, priced
      ensures Valid()
      ensures Added(old(Books(State(), locals)), Books(State(), locals), Setting(world, gasPrice, cfg), tx, facts, local,
                    Answer(err, replaced))
      ensures err == None ==> tx in all && Placed(State(), tx)
      ensures err == None && old(Full()) && NoTwice(old(priced.items)) ==> Fits(all, tx, old(locals), cfg)
      ensures KeepsTight(old(State()), State(), world) && LastBeats(old(beats), beats, old(pending), pending)
    {
      hide KeepsTight, RemoveAll, NoBetter, Validate, Placed, Full, NoTwice, GivenUp, LastBeats, Added, Fits, Lodged, Valid, Refusal,
           IsFull;
      KeepsSelf(State(), world);
      BeatsSame(beats, pending, pending);
      FullIs();
      ghost var b, x := Books(State(), locals), Setting(world, gasPrice, cfg);
      RefusalIs(b, x, tx, facts, local);
      if tx in all {
        AddedRefused(b, x, tx, facts, local, KnownTransaction);
        return false, Some(KnownTransaction);
      }
      var check := Validate(world, locals, gasPrice, tx, facts, local);
      if check != None {
        AddedRefused(b, x, tx, facts, local, check.value);
        return false, check;
      }
      AdmittedNonce(world, locals, gasPrice, tx, facts, local);
      ghost var drops;
      replaced, err, drops := Admit(tx, local);
      if Refusal(b, x, tx, facts, local) == None {
        AddedLodged(b, Books(State(), locals), x, tx, facts, local, Answer(err, replaced), drops);
      } else {
        AddedRefused(b, x, tx, facts, local, Underpriced);
      }
    }

    lemma FullIs()
      ensures Full() == IsFull(State(), cfg) == IsFull(Books(State(), locals).pool, cfg)
    {}

    /** The loop of addTxsLocked: one transaction after the other. */
    method AddEach(txs: seq<Tx>, facts: seq<Facts>, local: bool)
      returns (errs: seq<Option<Reject>>, dirty: set<Address>, ghost trace: seq<Books>, ghost answers: seq<Answer>)
      requires Valid() && |facts| == |txs|
      modifies this`pending, this`queue, this`all, this`nonces, this`beats, this`locals, priced
      ensures Valid() && Batch(trace, Setting(world, gasPrice, cfg), txs, facts, local, answers)
      ensures trace[0] == old(Books(State(), locals)) && trace[|txs|] == Books(State(), locals)
      ensures |errs| == |txs| && forall i :: 0 <= i < |txs| ==> errs[i] == answers[i].err
      ensures dirty == Dirty(txs, answers) && KeepsTight(old(State()), State(), world)
    {
      hide Valid, KeepsTight, Added, Placed;
      errs, answers, trace := [], [], [Books(State(), locals)];
      KeepsSelf(State(), world);
      dirty := {};
      var i := 0;
      while i < |txs|
        invariant 0 <= i <= |txs| && Valid() && |errs| == i == |answers| && |trace| == i + 1
        invariant trace[0] == old(Books(State(), locals)) && trace[i] == Books(State(), locals)
        invariant forall k :: 0 <= k < i ==> errs[k] == answers[k].err
        invariant forall k :: 0 <= k < i ==> Added(trace[k], trace[k + 1], Setting(world, gasPrice, cfg), txs[k], facts[k], local, answers[k])
        invariant dirty == Dirty(txs[..i], answers)
        invariant KeepsTight(old(State()), State(), world)
      {
        ghost var s := State();
        var replaced, err := Add(txs[i], facts[i], local);
        KeepsThen(old(State()), s, State(), world);
        errs := errs + [err];
        DirtyMore(txs, answers, i, Answer(err, replaced));
        answers, trace := answers + [Answer(err, replaced)], trace + [Books(State(), locals)];
        if err == None && !replaced { dirty := dirty + {txs[i].sender}; }
        i := i + 1;
      }
      assert txs[..|txs|] == txs;
    }

    /** addTxsLocked; addTx is the batch of one. */
    method AddTxs(txs: seq<Tx>, facts: seq<Facts>, local: bool, now: nat)
      returns (errs: seq<Option<Reject>>, ghost trace: seq<Books>, ghost answers: seq<Answer>)
      requires Valid() && |facts| == |txs|
      modifies this`pending, this`queue, this`all, this`nonces, this`beats, this`locals, priced
      ensures Valid() && Batch(trace, Setting(world, gasPrice, cfg), txs, facts, local, answers)
      ensures trace[0] == old(Books(State(), locals)) && locals == trace[|txs|].locals
      ensures |errs| == |txs| && forall i :: 0 <= i < |txs| ==> errs[i] == answers[i].err
      ensures Worked(trace[|txs|].pool, State(), locals, world, cfg, Dirty(txs, answers))
      ensures KeepsTight(old(State()), State(), world) && KeepsDrained(old(State()), State(), world)
      ensures !local && old(locals) == {} && |old(all)| <= Limit(cfg) && Limit(cfg) > 0 ==> |all| <= Limit(cfg)
    {
      ghost var b, x := Books(State(), locals), Setting(world, gasPrice, cfg);
      assert Sound(b.pool);
      hide Valid, KeepsTight, Added, PromoteAll, PendingLimited, QueueLimited, Sound, KeepsDrained, Finished, Limit, Exhausted, Dirty;
      var dirty;
      errs, dirty, trace, answers := AddEach(txs, facts, local);
      if dirty != {} {
        ghost var p := State();
        var accounts := SetList(dirty);
        var promoted, trimmed := PromoteExecutables(accounts, now);
        WorkedIs(p, promoted, trimmed, accounts, dirty);
        KeepsThen(old(State()), p, State(), world);
      }
      BatchKeepsDrained(trace, x, txs, facts, local, answers, State());
      if !local && b.locals == {} && |b.pool.all| <= Limit(cfg) && Limit(cfg) > 0 {
        BatchStaysWithin(trace, x, txs, facts, answers, State());
      }
    }

    lemma WorkedIs(p: PoolState.Pool, promoted: PoolState.Pool, trimmed: PoolState.Pool, accounts: seq<Address>, dirty: set<Address>)
      requires dirty != {} && forall a :: a in accounts <==> a in dirty
      requires promoted == PromoteAll(p, world, locals, cfg, accounts) && PendingLimited(promoted, trimmed, world, locals, cfg)
      requires exists heard :: QueueLimited(trimmed, State(), locals, heard, cfg)
      ensures Worked(p, State(), locals, world, cfg, dirty)
    {
      assert Finished(p, State(), locals, world, cfg, accounts);
    }

    /** SetGasPrice: no remote transaction below the new price stays known. */
    method SetGasPrice(price: nat)
      requires Valid()
      modifies this`pending, this`queue, this`all, this`nonces, this`beats, this`gasPrice, priced
      ensures Valid() && gasPrice == price
      ensures all == old(all) - Cheap(old(all), locals, price)
      ensures KeepsTight(old(State()), State(), world) && KeepsDrained(old(State()), State(), world)
    {
      hide PriceHeap, Sound, KeepsTight, RemoveAll;
      ghost var p := State();
      gasPrice := price;
      var drops := priced.Cap(price, all, locals);
      DropTxs(drops);
      RemoveAllKeeps(p, world, drops);
      RemoveAllDrained(p, world, drops);
    }

    /** The nonces reset rebuilds from the pending lanes. */
    method Track()
      requires forall a :: a in pending ==> pending[a] != map[]
      modifies this`nonces
      ensures State() == TrackPending(old(State()))
    {
      hide TrackPending, LaneTop, Tracked, Distinct;
      ghost var p := State();
      var accounts := AccountList(pending);
      TrackedNone(p);
      var i := 0;
      while i < |accounts|
        invariant 0 <= i <= |accounts| && nonces == Tracked(p, accounts[..i])
      {
        TrackedMore(p, accounts, i);
        nonces := nonces[accounts[i] := LaneTop(pending[accounts[i]]) + 1];
        i := i + 1;
      }
      assert accounts[..|accounts|] == accounts;
      TrackedAll(p, accounts);
    }

    /** reset: the pool moves to a new state.  If the walk for the transactions to reinject runs off the stored
        chain, or the new state is missing, nothing changes.  Otherwise the batch is added, then the pending lanes
        are demoted, the nonces rebuilt and the queues promoted.  A sender who was in order and of whom nothing is
        reinjected ends in order if and only if the batch took no nonce below the new state's from its lane. */
    method Reset(reinject: Option<seq<Tx>>, facts: seq<Facts>, newWorld: World, now: nat) returns (ghost after: Books)
      requires Valid() && (reinject.Some? ==> |facts| == |reinject.value|)
      modifies this, priced
      ensures Valid() && gasPrice == old(gasPrice)
      ensures reinject.None? ==> State() == old(State()) && world == old(world) && locals == old(locals)
      ensures reinject.Some? ==> world == newWorld && locals == after.locals
      ensures reinject.Some? ==>
                ResetTo(old(Books(State(), locals)), Setting(newWorld, gasPrice, cfg), reinject.value, facts, after, State())
      ensures reinject.Some? ==> forall a: Address ::
                TightAt(old(State()), old(world), a) && (forall k :: 0 <= k < |reinject.value| ==> reinject.value[k].sender != a) ==>
                  (TightAt(State(), world, a) <==> !TakenBelow(old(State()), after.pool, world, a))
      ensures reinject.Some? ==> forall a: Address ::
                (&& TightAt(old(State()), old(world), a)
                 && (reinject.value == [] || OutOfReach(old(Books(State(), locals)), cfg, reinject.value, a)))
                ==> TightAt(State(), world, a)
      ensures reinject.Some? ==> forall a: Address :: Exhausted(State(), world, a)
    {
      hide Exhausted, PriceHeap, Covers, TightAt, Sound, DemoteAll, PromoteAll, TrackPending, PendingLimited, QueueLimited, Added, OutOfReach,
           TakenBelow, ResetTo, Batch, Worked;
      after := Books(State(), locals);
      if reinject.None? { return; }
      ghost var b, w := Books(State(), locals), world;
      world, nonces := newWorld, map[];
      assert Sound(State()) by { Untracked(b.pool); }
      var errs, trace, answers := AddTxs(reinject.value, facts, false, now);
      after := Books(State(), locals);
      ghost var p0, x := State(), Setting(world, gasPrice, cfg);
      assert Reinjects(b, x, reinject.value, facts, after);
      var demoted := DemoteUnexecutables();
      ghost var p1 := State();
      NoEmptyLanes(p0, world, demoted);
      DemoteAllSound(p0, world, demoted);
      TrackSound(p1);
      Track();
      TrackKeeps(p1);
      var queued := AccountList(queue);
      var promoted, trimmed := PromoteExecutables(queued, now);
      assert ResetTo(b, x, reinject.value, facts, after, State()) by {
        assert Finished(TrackPending(p1), State(), locals, world, cfg, queued);
        assert Recovers(after, x, demoted, queued, State());
        ResetIs(b, x, reinject.value, facts, after, State(), demoted, queued);
      }
      forall a: Address | TightAt(b.pool, w, a) && forall k :: 0 <= k < |reinject.value| ==> reinject.value[k].sender != a
        ensures TightAt(State(), world, a) <==> !TakenBelow(b.pool, after.pool, world, a)
      {
        ResetTightIff(b, w, x, reinject.value, facts, after, State(), a);
      }
      forall a: Address | TightAt(b.pool, w, a) && (reinject.value == [] || OutOfReach(b, cfg, reinject.value, a))
        ensures TightAt(State(), world, a)
      {
        OutOfReachStaysTight(b, w, x, reinject.value, facts, after, State(), a);
      }
      forall a: Address ensures Exhausted(State(), world, a) { ResetDrains(b, x, reinject.value, facts, after, State(), a); }
    }

    function NextNonceNow(a: Address): (n: nat)
      reads this
      ensures n == NextNonce(State(), world, a)
    {
      if a in nonces then nonces[a] else StateNonce(world, a)
    }
  }
}
