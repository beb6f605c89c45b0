/** Facts the methods of the transaction pool rest on. */
module PoolFacts {
  import opened TxMap
  import opened TxListOps
  import opened TxSortedMap
  import opened PricedList
  import opened PoolState
  import opened PoolMoves
  import opened PoolReset
  import opened PoolRuns
  import opened PoolFair

  // ---------------------------------------------------------------- lists of transactions

  /** A list of transactions as a lane. */
  function Gather(s: seq<Tx>): Txs {
    if |s| == 0 then map[] else Gather(s[..|s| - 1])[s[|s| - 1].nonce := s[|s| - 1]]
  }

  lemma {:induction false} GatherHas(s: seq<Tx>)
    requires forall i, j :: 0 <= i < j < |s| ==> s[i].nonce != s[j].nonce
    ensures forall n: nat :: n in Gather(s) <==> exists i :: 0 <= i < |s| && s[i].nonce == n
    ensures forall i :: 0 <= i < |s| ==> s[i].nonce in Gather(s) && Gather(s)[s[i].nonce] == s[i]
  {
    if |s| > 0 {
      var t, x := s[..|s| - 1], s[|s| - 1];
      GatherHas(t);
      forall n: nat | n in Gather(s) ensures exists i :: 0 <= i < |s| && s[i].nonce == n {
        if n != x.nonce {
          var i :| 0 <= i < |t| && t[i].nonce == n;
          assert s[i].nonce == n;
        }
      }
      forall i | 0 <= i < |s| ensures s[i].nonce in Gather(s) && Gather(s)[s[i].nonce] == s[i] {
        if i < |t| { assert t[i].nonce in Gather(t); }
      }
    }
  }

  lemma GatherLists(m: Txs, s: seq<Tx>)
    requires Keyed(m) && Lists(m, s)
    ensures Gather(s) == m
  {
    GatherHas(s);
    forall n: nat ensures n in m <==> n in Gather(s) {
      if n in m {
        assert m[n] in s;
      }
    }
  }

  lemma FlatLists(m: Txs, s: seq<Tx>)
    requires Keyed(m) && IsFlat(m, s)
    ensures Lists(m, s)
  {}

  /** Transactions of one sender that no queue lane holds yet. */
  ghost predicate Fresh(txs: seq<Tx>, a: Address, q: Txs, all: set<Tx>) {
    && (forall i :: 0 <= i < |txs| ==> txs[i].sender == a && txs[i].nonce !in q && txs[i] in all)
    && (forall i, j :: 0 <= i < j < |txs| ==> txs[i].nonce != txs[j].nonce)
  }

  /** The queue lanes with `txs` of sender `a` added. */
  ghost function Requeued(queue: map<Address, Txs>, a: Address, txs: seq<Tx>): map<Address, Txs> {
    if txs == [] then queue else queue[a := Lane(queue, a) + Gather(txs)]
  }

  lemma RequeuedNone(queue: map<Address, Txs>, a: Address)
    ensures Requeued(queue, a, []) == queue
  {}

  lemma RequeueStep(p: Pool, queue0: map<Address, Txs>, a: Address, txs: seq<Tx>, i: nat, bump: nat)
    requires i < |txs| && Fresh(txs, a, Lane(queue0, a), p.all) && p.queue == Requeued(queue0, a, txs[..i])
    ensures Accepts(Lane(p.queue, txs[i].sender), txs[i], bump)
    ensures Enqueue(p, txs[i], bump) == p.(queue := Requeued(queue0, a, txs[..i + 1]))
  {
    hide Enqueue, Accepts, Gather;
    GatherHas(txs[..i]);
    EnqueueNew(p, txs[i], bump);
    GatherMore(queue0, a, txs, i);
  }

  lemma EnqueueNew(p: Pool, tx: Tx, bump: nat)
    requires tx.nonce !in Lane(p.queue, tx.sender) && tx in p.all
    ensures Accepts(Lane(p.queue, tx.sender), tx, bump)
    ensures Enqueue(p, tx, bump) == p.(queue := p.queue[tx.sender := Lane(p.queue, tx.sender)[tx.nonce := tx]])
  {
    assert p.all + {tx} == p.all;
  }

  lemma GatherMore(queue0: map<Address, Txs>, a: Address, txs: seq<Tx>, i: nat)
    requires i < |txs|
    ensures Requeued(queue0, a, txs[..i])[a := Lane(Requeued(queue0, a, txs[..i]), a)[txs[i].nonce := txs[i]]]
         == Requeued(queue0, a, txs[..i + 1])
  {
    var q, x := Lane(queue0, a), txs[i];
    assert txs[..i + 1][..i] == txs[..i];
    assert q + Gather(txs[..i + 1]) == (q + Gather(txs[..i]))[x.nonce := x];
    if i == 0 { assert q + Gather(txs[..i]) == q; }
  }

  /** The lane's transactions above a removed one are unknown to the queue lane. */
  ghost predicate FreshLane(m: Txs, a: Address, q: Txs, all: set<Tx>) {
    Keyed(m) && forall n: nat :: n in m ==> m[n].sender == a && n !in q && m[n] in all
  }

  lemma FreshKeyed(m: Txs, a: Address, q: Txs, all: set<Tx>)
    requires FreshLane(m, a, q, all)
    ensures Keyed(m)
  {}

  lemma RequeuedIs(queue: map<Address, Txs>, a: Address, txs: seq<Tx>, m: Txs)
    requires Gather(txs) == m && (txs == [] <==> m == map[])
    ensures Requeued(queue, a, txs) == if m == map[] then queue else queue[a := Lane(queue, a) + m]
  {}

  lemma PlaceStep(p: Pool, pending0: map<Address, Txs>, a: Address, txs: seq<Tx>, i: nat, bump: nat)
    requires i < |txs| && Fresh(txs, a, Lane(pending0, a), p.all) && p.pending == Requeued(pending0, a, txs[..i])
    ensures Place(p, txs[i], bump) == p.(pending := Requeued(pending0, a, txs[..i + 1]), nonces := p.nonces[a := txs[i].nonce + 1])
    ensures txs[i].sender == a && Accepts(Lane(p.pending, a), txs[i], bump)
  {
    hide Place, Gather;
    GatherHas(txs[..i]);
    PlaceNew(p, txs[i], bump);
    GatherMore(pending0, a, txs, i);
  }

  lemma PlaceNew(p: Pool, tx: Tx, bump: nat)
    requires tx.nonce !in Lane(p.pending, tx.sender) && tx in p.all
    ensures Place(p, tx, bump) == p.(pending := p.pending[tx.sender := Lane(p.pending, tx.sender)[tx.nonce := tx]],
                                     nonces := p.nonces[tx.sender := tx.nonce + 1])
  {
    assert p.all + {tx} == p.all;
  }

  // ---------------------------------------------------------------- heartbeats

  type Beats = map<Address, nat>

  /** The senders whose pending lane is gone are forgotten, the others are not. */
  ghost predicate LastBeats(beats: Beats, beats': Beats, pending: map<Address, Txs>, pending': map<Address, Txs>) {
    beats' == beats - (pending.Keys - pending'.Keys)
  }

  lemma BeatsSame(beats: Beats, pending: map<Address, Txs>, pending': map<Address, Txs>)
    requires pending.Keys <= pending'.Keys
    ensures LastBeats(beats, beats, pending, pending')
  {
    assert pending.Keys - pending'.Keys == {};
  }

  ghost predicate SameSenders(pending: map<Address, Txs>, pending': map<Address, Txs>) { pending'.Keys == pending.Keys }

  /** Nothing but `tx` became known. */
  ghost predicate OnlyNew(all: set<Tx>, all': set<Tx>, tx: Tx) { all' <= all + {tx} }

  lemma BeatsGone(beats: Beats, pending: map<Address, Txs>, a: Address)
    requires a in pending
    ensures LastBeats(beats, beats - {a}, pending, pending - {a})
  {
    assert pending.Keys - (pending - {a}).Keys == {a};
  }

  lemma BeatsKept(b0: Beats, b1: Beats, l0: map<Address, Txs>, l1: map<Address, Txs>, l2: map<Address, Txs>)
    requires LastBeats(b0, b1, l0, l1) && SameSenders(l1, l2)
    ensures LastBeats(b0, b1, l0, l2)
  {}

  lemma BeatsThen(b0: Beats, b1: Beats, b2: Beats, l0: map<Address, Txs>, l1: map<Address, Txs>, l2: map<Address, Txs>)
    requires LastBeats(b0, b1, l0, l1) && LastBeats(b1, b2, l1, l2) && l2.Keys <= l1.Keys <= l0.Keys
    ensures LastBeats(b0, b2, l0, l2)
  {}

  lemma RemoveShrinks(p: Pool, w: World, tx: Tx)
    ensures Remove(p, w, tx).pending.Keys <= p.pending.Keys
  {}

  lemma DemoteShrinks(p: Pool, w: World, a: Address)
    ensures DemoteAccount(p, w, a).pending.Keys <= p.pending.Keys || a !in p.pending
  {
    hide Remaining, Demoted;
  }

  lemma InsertLanes(p: Pool, tx: Tx, bump: nat)
    ensures SameSenders(p.pending, Insert(p, tx, bump).pending) && OnlyNew(p.all, Insert(p, tx, bump).all, tx)
  {}

  ghost predicate Grew(pending: map<Address, Txs>, pending': map<Address, Txs>, a: Address) {
    Lane(pending', a).Keys != Lane(pending, a).Keys
  }

  lemma NotGrown(pending: map<Address, Txs>, a: Address)
    ensures !Grew(pending, pending, a)
  {}

  ghost predicate HeardAt(beats: Beats, beats': Beats, pending: map<Address, Txs>, pending': map<Address, Txs>, now: nat, a: Address) {
    && (a in beats' <==> a in beats || Grew(pending, pending', a))
    && (a in beats' ==> beats'[a] == if Grew(pending, pending', a) then now else beats[a])
    && Lane(pending, a).Keys <= Lane(pending', a).Keys
  }

  /** Exactly the senders of whom something became pending were heard of now. */
  ghost predicate Heard(beats: Beats, beats': Beats, pending: map<Address, Txs>, pending': map<Address, Txs>, now: nat) {
    forall a: Address :: HeardAt(beats, beats', pending, pending', now, a)
  }

  lemma HeardNone(beats: Beats, pending: map<Address, Txs>, now: nat)
    ensures Heard(beats, beats, pending, pending, now)
  {}

  lemma HeardNext(b0: Beats, b1: Beats, b2: Beats, p0: Pool, p1: Pool, p2: Pool, a: Address, now: nat)
    requires Heard(b0, b1, p0.pending, p1.pending, now) && OnlyTouches(p1, p2, a)
    requires Lane(p1.pending, a).Keys <= Lane(p2.pending, a).Keys
    requires b2 == if Grew(p1.pending, p2.pending, a) then b1[a := now] else b1
    ensures Heard(b0, b2, p0.pending, p2.pending, now)
  {
    hide Lane;
    forall c: Address ensures HeardAt(b0, b2, p0.pending, p2.pending, now, c) {
      assert HeardAt(b0, b1, p0.pending, p1.pending, now, c);
      if c != a { assert Lane(p2.pending, c) == Lane(p1.pending, c); }
    }
  }

  lemma PromoteGrows(p: Pool, w: World, locals: set<Address>, cfg: Config, a: Address)
    ensures Lane(p.pending, a).Keys <= Lane(PromoteAccount(p, w, locals, cfg, a).pending, a).Keys
  {
    hide Payable, ReadyRun, Limited;
  }

  /** Something became pending exactly if the run was not empty. */
  lemma GrewIff(p: Pool, w: World, locals: set<Address>, cfg: Config, a: Address, r: Txs)
    requires SoundAt(p, a) && a in p.queue && r == ReadyRun(Payable(p.queue[a], w, a), NextNonce(p, w, a))
    ensures Grew(p.pending, PromoteAccount(p, w, locals, cfg, a).pending, a) <==> r != map[]
  {
    hide Payable, ReadyRun, Limited;
    var q := Payable(p.queue[a], w, a);
    ReadyWithin(q, NextNonce(p, w, a));
    PayableWithin(p.queue[a], w, a);
    var p' := PromoteAccount(p, w, locals, cfg, a);
    assert Lane(p'.pending, a) == Lane(p.pending, a) + r;
    if n: nat :| n in r { assert n in Lane(p'.pending, a) && n !in Lane(p.pending, a); }
  }

  // ---------------------------------------------------------------- facts for promotion

  ghost function ValuesOf(m: Txs): set<Tx> { set n: nat | n in m :: m[n] }

  lemma ListSet(m: Txs, txs: seq<Tx>)
    requires Lists(m, txs)
    ensures (set tx | tx in txs) == ValuesOf(m)
  {
    forall x ensures x in txs <==> x in ValuesOf(m) {
      if x in txs { assert m[x.nonce] == x; }
    }
  }

  ghost predicate Runs(p: Pool, w: World, a: Address, r: Txs, s: Txs, t: Txs) {
    && a in p.queue && SoundAt(p, a)
    && r == ReadyRun(Payable(p.queue[a], w, a), NextNonce(p, w, a)) && s == Rest(Payable(p.queue[a], w, a), r) && Within(t, s)
  }

  lemma LanesKeyed(p: Pool, w: World, a: Address, r: Txs, s: Txs, t: Txs)
    requires Sound(p) && a in p.queue
    requires r == ReadyRun(Payable(p.queue[a], w, a), NextNonce(p, w, a)) && s == Rest(Payable(p.queue[a], w, a), r)
    requires exists local: bool, cap: nat :: t == Limited(s, local, cap)
    ensures Keyed(Below(p.queue[a], StateNonce(w, a))) && Keyed(CostlyIn(From(p.queue[a], StateNonce(w, a)), Balance(w, a), w.maxGas))
    ensures Keyed(r) && Keyed(Rest(s, t)) && Runs(p, w, a, r, s, t)
  {
    EverySender(p, a);
    ReadyWithin(Payable(p.queue[a], w, a), NextNonce(p, w, a));
    var local: bool, cap: nat :| t == Limited(s, local, cap);
    LimitedWithin(s, local, cap);
  }

  lemma ReadyFresh(p: Pool, w: World, a: Address, r: Txs)
    requires a in p.queue && SoundAt(p, a) && r == ReadyRun(Payable(p.queue[a], w, a), NextNonce(p, w, a))
    ensures FreshLane(r, a, Lane(p.pending, a),
                  p.all - ValuesOf(Below(p.queue[a], StateNonce(w, a)))
                  - ValuesOf(CostlyIn(From(p.queue[a], StateNonce(w, a)), Balance(w, a), w.maxGas)))
  {
    hide ReadyRun;
    ReadyWithin(Payable(p.queue[a], w, a), NextNonce(p, w, a));
  }

  /** The run, put in front of a lane in ascending order, ends at its highest nonce. */
  lemma RequeuedRun(lanes: map<Address, Txs>, a: Address, r: Txs, ready: seq<Tx>)
    requires Keyed(r) && IsFlat(r, ready)
    ensures ready == [] <==> r == map[]
    ensures Requeued(lanes, a, ready) == if r == map[] then lanes else lanes[a := Lane(lanes, a) + r]
    ensures r != map[] ==> ready[|ready| - 1].nonce == LaneTop(r)
  {
    FlatLists(r, ready);
    GatherLists(r, ready);
    if ready != [] { assert ready[0].nonce in r; }
    if r != map[] {
      var top := LaneTop(r);
      assert r[top] in ready;
    }
  }

  /** What promotion drops: stale, unpayable, and beyond the limit. */
  lemma GoneSplit(p: Pool, w: World, a: Address, r: Txs, s: Txs, t: Txs, stale: Txs, costly: Txs)
    requires Runs(p, w, a, r, s, t)
    requires stale == Below(p.queue[a], StateNonce(w, a))
    requires costly == CostlyIn(From(p.queue[a], StateNonce(w, a)), Balance(w, a), w.maxGas)
    ensures p.all - ValuesOf(stale) - ValuesOf(costly) - ValuesOf(Rest(s, t)) == p.all - GoneFrom(p.queue[a], r, t)
  {
    hide ReadyRun, ValuesOf, GoneFrom, Owned;
    ReadyWithin(Payable(p.queue[a], w, a), NextNonce(p, w, a));
    GoneIs(p.queue[a], r, t, stale, costly, Rest(s, t));
  }

  lemma GoneIs(q: Txs, r: Txs, t: Txs, x: Txs, y: Txs, z: Txs)
    requires Within(x, q) && Within(y, q) && Within(z, q)
    requires forall n: nat :: n in q ==> ((n !in r && n !in t) <==> (n in x || n in y || n in z))
    ensures GoneFrom(q, r, t) == ValuesOf(x) + ValuesOf(y) + ValuesOf(z)
  {
    forall tx | tx in GoneFrom(q, r, t) ensures tx in ValuesOf(x) + ValuesOf(y) + ValuesOf(z) {
      var n: nat :| n in q && n !in r && n !in t && q[n] == tx;
      assert n in x || n in y || n in z;
    }
    forall tx | tx in ValuesOf(x) + ValuesOf(y) + ValuesOf(z) ensures tx in GoneFrom(q, r, t) {
      var n: nat :| n in q && (n in x || n in y || n in z) && q[n] == tx;
    }
  }

  lemma RetainsThen(h0: seq<Tx>, h1: seq<Tx>, h2: seq<Tx>, all1: set<Tx>, all2: set<Tx>)
    requires Retains(h0, h1, all1) && Retains(h1, h2, all2) && all2 <= all1
    ensures Retains(h0, h2, all2)
  {}

  lemma PutPut(lanes: map<Address, Txs>, a: Address, s: Txs, t: Txs)
    ensures lanes[a := s] - {a} == lanes - {a} && lanes[a := s][a := t] == lanes[a := t]
  {}

  lemma StillCovered(before: seq<Tx>, after: seq<Tx>, all0: set<Tx>, all: set<Tx>)
    requires Covers(before, all0) && Retains(before, after, all) && all <= all0
    ensures Covers(after, all)
  {}

  /** removeTx case by case. */
  lemma RemoveCases(p: Pool, w: World, tx: Tx)
    ensures tx !in p.all ==> Remove(p, w, tx) == p
    ensures tx in p.all && tx.nonce in Lane(p.pending, tx.sender) ==>
              Remove(p, w, tx) == RemovePending(p, w, tx, RemoveKeeps(Lane(p.pending, tx.sender), true, tx.nonce),
                                                RemoveInvalids(Lane(p.pending, tx.sender), true, tx.nonce))
    ensures tx in p.all && tx.nonce !in Lane(p.pending, tx.sender) ==>
              Remove(p, w, tx) == p.(
                all := p.all - {tx},
                queue := if tx.sender in p.queue then PutLane(p.queue, tx.sender, p.queue[tx.sender] - {tx.nonce}) else p.queue)
  {
    if tx.sender !in p.queue { assert PutLane(p.queue, tx.sender, map[]) == p.queue; }
  }

  ghost function RemovePending(p: Pool, w: World, tx: Tx, kept: Txs, later: Txs): Pool {
    p.(all := p.all - {tx}, nonces := LowerNonce(p, w, tx.sender, tx.nonce),
       pending := if kept == map[] then p.pending - {tx.sender} else p.pending[tx.sender := kept],
       queue := if kept == map[] || later == map[] then p.queue else p.queue[tx.sender := Lane(p.queue, tx.sender) + later])
  }

  lemma LaterFresh(p: Pool, tx: Tx)
    requires Sound(p)
    ensures FreshLane(RemoveInvalids(Lane(p.pending, tx.sender), true, tx.nonce), tx.sender, Lane(p.queue, tx.sender), p.all - {tx})
  {
    EverySender(p, tx.sender);
  }

  lemma ListedFresh(m: Txs, txs: seq<Tx>, a: Address, q: Txs, all: set<Tx>)
    requires FreshLane(m, a, q, all) && Lists(m, txs)
    ensures Fresh(txs, a, q, all) && Gather(txs) == m && (txs == [] <==> m == map[])
  {
    GatherLists(m, txs);
    if txs != [] { assert txs[0].nonce in m; }
  }

  // ---------------------------------------------------------------- facts for the pending limit

  ghost predicate PartLevel(p: Pool, p': Pool, list: seq<Address>, i: nat, g: nat) {
    && i <= |list| && g > 0 && Level(p, list, g)
    && (forall j :: 0 <= j < |list| ==> Len(p', list[j]) == if j < i then g - 1 else g)
    && (forall a: Address :: a !in list ==> Lane(p'.pending, a) == Lane(p.pending, a))
  }

  lemma NotEmpty(p: Pool, a: Address, g: nat)
    requires Len(p, a) == g > 0
    ensures Lane(p.pending, a) != map[]
  {}

  /** Invariant of the equalising loops. */
  ghost predicate Limiting(p0: Pool, p: Pool, w: World, locals: set<Address>, cfg: Config, offenders: seq<Address>,
                           spammers: set<Address>, count: nat) {
    && Trimmed(p0, p, w) && Ranked(p0, p, locals, cfg.accountSlots, offenders, spammers) && CutFairly(p0, p, locals)
    && count == Total(p.pending) && Total(p0.pending) > cfg.globalSlots && NoneInVain(p0, p, cfg.globalSlots)
  }

  lemma LimitingFacts(p0: Pool, p: Pool, w: World, locals: set<Address>, cfg: Config, offenders: seq<Address>,
                      spammers: set<Address>, count: nat)
    requires Limiting(p0, p, w, locals, cfg, offenders, spammers, count)
    ensures Distinct(offenders) && count == Total(p.pending) && forall b :: b in spammers ==> b !in offenders
  {}

  /** Before the inner loop: all offenders but the last have length `g`, the last is untouched, over the
      slots and not longer than they are, and the spammers left are not longer than the last. */
  ghost predicate Poised(p0: Pool, p: Pool, cfg: Config, offenders: seq<Address>, spammers: set<Address>, g: nat) {
    && |offenders| > 1
    && var last := offenders[|offenders| - 1];
    && Level(p, offenders[..|offenders| - 1], g) && Lane(p.pending, last) == Lane(p0.pending, last)
    && cfg.accountSlots < Len(p, last) <= g
    && forall b :: b in spammers ==> Len(p, b) <= Len(p, last)
  }

  lemma LeadersDistinct(offenders: seq<Address>, n: nat)
    requires Distinct(offenders) && n <= |offenders|
    ensures Distinct(offenders[..n])
  {}

  lemma RoundLimits(p0: Pool, p: Pool, p': Pool, w: World, locals: set<Address>, cfg: Config,
                    offenders: seq<Address>, spammers: set<Address>, count: nat, n: nat, g: nat)
    requires Limiting(p0, p, w, locals, cfg, offenders, spammers, Total(p.pending)) && n <= |offenders| <= n + 1
    requires Lowered(p, p', offenders[..n], g) && g > cfg.accountSlots && Trimmed(p, p', w) && count == Total(p'.pending)
    requires count + n == Total(p.pending) > cfg.globalSlots
    requires forall b :: b in spammers ==> Len(p, b) < g
    requires n < |offenders| ==> Len(p, offenders[n]) < g && Lane(p.pending, offenders[n]) == Lane(p0.pending, offenders[n])
    ensures Limiting(p0, p', w, locals, cfg, offenders, spammers, count)
  {
    hide Ranked, Trimmed, Lowered, CutFairly, Total, NoneInVain;
    TrimmedThen(p0, p, p', w);
    RoundNeeded(p0, p, p', w, locals, cfg.accountSlots, offenders, spammers, n, g, cfg.globalSlots);
    RoundKeeps(p0, p, p', locals, cfg.accountSlots, offenders, spammers, n, g);
    RoundFair(p0, p, p', locals, cfg.accountSlots, offenders, spammers, n, g);
  }

  lemma PoisedNext(p0: Pool, p: Pool, p': Pool, cfg: Config, offenders: seq<Address>,
                   spammers: set<Address>, g: nat)
    requires Poised(p0, p, cfg, offenders, spammers, g) && g > Len(p, offenders[|offenders| - 1])
    requires Lowered(p, p', offenders[..|offenders| - 1], g) && Distinct(offenders)
    requires forall b :: b in spammers ==> b !in offenders
    ensures Poised(p0, p', cfg, offenders, spammers, g - 1)
  {
    var n := |offenders| - 1;
    assert offenders[n] !in offenders[..n];
    assert forall b :: b in spammers ==> b !in offenders[..n];
  }

  lemma LoweredLevel(p: Pool, p': Pool, list: seq<Address>, g: nat)
    requires Lowered(p, p', list, g)
    ensures Level(p', list, g - 1)
  {}

  lemma PopLimits(p0: Pool, p: Pool, w: World, locals: set<Address>, cfg: Config, offenders: seq<Address>,
                  spammers: set<Address>, count: nat, o: Address, g: nat)
    requires Limiting(p0, p, w, locals, cfg, offenders, spammers, count) && Level(p, offenders, g)
    requires o in spammers && forall b :: b in spammers ==> Len(p, b) <= Len(p, o)
    ensures Limiting(p0, p, w, locals, cfg, offenders + [o], spammers - {o}, count)
    ensures |offenders| > 0 ==> Poised(p0, p, cfg, offenders + [o], spammers - {o}, g)
  {
    hide Total, Trimmed, CutFairly, NoneInVain;
    PopKeeps(p0, p, locals, cfg.accountSlots, offenders, spammers, o);
    assert (offenders + [o])[..|offenders|] == offenders;
    if |offenders| > 0 { assert Len(p, offenders[0]) == g; }
  }

  lemma PoisedLevel(p0: Pool, p: Pool, cfg: Config, offenders: seq<Address>, spammers: set<Address>, g: nat)
    requires Poised(p0, p, cfg, offenders, spammers, g) && g == Len(p, offenders[|offenders| - 1])
    ensures Level(p, offenders, g)
  {
    var n := |offenders| - 1;
    forall i | 0 <= i < |offenders| ensures Len(p, offenders[i]) == g {
      if i < n { assert offenders[..n][i] == offenders[i]; }
    }
  }

  /** The remote senders with more than the guaranteed slots. */
  function Over(lanes: map<Address, Txs>, locals: set<Address>, slots: nat): set<Address> {
    set a | a in lanes && a !in locals && |lanes[a]| > slots
  }

  lemma LimitStart(p: Pool, w: World, locals: set<Address>, cfg: Config)
    ensures Total(p.pending) <= cfg.globalSlots ==> PendingLimited(p, p, w, locals, cfg)
    ensures Total(p.pending) > cfg.globalSlots ==>
              Limiting(p, p, w, locals, cfg, [], Over(p.pending, locals, cfg.accountSlots), Total(p.pending))
    ensures Level(p, [], 0)
  {
    hide Total;
    TrimmedSelf(p, w);
    assert CutSenders(p, p) == {};
  }

  lemma LimitEnd(p0: Pool, p: Pool, w: World, locals: set<Address>, cfg: Config, offenders: seq<Address>,
                 spammers: set<Address>, count: nat, g: nat)
    requires Limiting(p0, p, w, locals, cfg, offenders, spammers, count)
    requires count <= cfg.globalSlots || (spammers == {} && Level(p, offenders, g) && (|offenders| > 0 ==> g <= cfg.accountSlots))
    ensures PendingLimited(p0, p, w, locals, cfg)
  {
    hide Total, Trimmed, CutFairly, Ranked, PendingLimited, NoneInVain;
    LimitsHold(p0, p, w, locals, cfg, offenders, spammers);
  }

  /** The pop of the priority queue of spammers. */
  method PopLongest(spammers: set<Address>, pending: map<Address, Txs>) returns (o: Address)
    requires spammers != {}
    ensures o in spammers && forall b :: b in spammers ==> |Lane(pending, b)| <= |Lane(pending, o)|
  {
    o :| o in spammers;
    var todo := spammers - {o};
    while todo != {}
      invariant todo <= spammers && o in spammers
      invariant forall b :: b in spammers && b !in todo ==> |Lane(pending, b)| <= |Lane(pending, o)|
    {
      var b :| b in todo;
      if |Lane(pending, b)| > |Lane(pending, o)| { o := b; }
      todo := todo - {b};
    }
  }

  /** The loops that add up the lanes. */
  method CountAll(lanes: map<Address, Txs>) returns (count: nat)
    ensures count == Total(lanes)
  {
    hide Total;
    count := 0;
    var todo := lanes;
    while todo != map[]
      invariant count + Total(todo) == Total(lanes)
      decreases |todo|
    {
      var a :| a in todo;
      TotalWithout(todo, a);
      assert todo.Keys == (todo - {a}).Keys + {a};
      count := count + |todo[a]|;
      todo := todo - {a};
    }
  }

  // ---------------------------------------------------------------- facts for the queue limit

  lemma UnqueueNone(p: Pool, a: Address)
    ensures Unqueue(p, a, []) == p
  {
    assert p.all - (set tx | tx in []) == p.all;
  }

  function Remote(lanes: map<Address, Txs>, locals: set<Address>): set<Address> { set a | a in lanes && a !in locals }

  lemma UnloadStart(p: Pool, locals: set<Address>, beats: map<Address, nat>, limit: nat, drop: nat)
    requires Total(p.queue) == limit + drop
    ensures Unloading(p, p, locals, beats, limit, Remote(p.queue, locals), drop)
  {
    hide Total;
  }

  lemma UnloadSkip(p0: Pool, p: Pool, locals: set<Address>, beats: map<Address, nat>, limit: nat,
                   todo: set<Address>, drop: nat, a: Address)
    requires Unloading(p0, p, locals, beats, limit, todo, drop) && Lane(p.queue, a) == map[]
    ensures Unloading(p0, p, locals, beats, limit, todo - {a}, drop)
  {
    hide Total;
  }

  lemma LaneKeyed(p: Pool, a: Address)
    requires Sound(p)
    ensures Keyed(Lane(p.queue, a)) && Keyed(Lane(p.pending, a))
  {
    EverySender(p, a);
  }

  lemma UnloadWhole(p: Pool, a: Address, txs: seq<Tx>)
    requires Keyed(Lane(p.queue, a)) && IsFlat(Lane(p.queue, a), txs)
    ensures Queued(p, a, txs) && Lane(p.queue, a) - NoncesOf(txs) == map[] && LowPart(map[], Lane(p.queue, a))
    ensures txs == [] ==> Lane(p.queue, a) == map[]
  {
    var q := Lane(p.queue, a);
    forall n: nat | n in q ensures n in NoncesOf(txs) { assert q[n] in txs; }
    FlatLength(q, txs);
  }

  /** The last `k` of a list, last first. */
  function TopList(txs: seq<Tx>, k: nat): (r: seq<Tx>)
    requires k <= |txs|
    ensures |r| == k
  {
    seq(k, i requires 0 <= i < k => txs[|txs| - 1 - i])
  }

  lemma UnloadTop(p: Pool, a: Address, txs: seq<Tx>, k: nat)
    requires Keyed(Lane(p.queue, a)) && IsFlat(Lane(p.queue, a), txs) && k <= |txs|
    ensures Queued(p, a, TopList(txs, k)) && LowPart(Lane(p.queue, a) - NoncesOf(TopList(txs, k)), Lane(p.queue, a))
  {
    var q, top := Lane(p.queue, a), TopList(txs, k);
    var l := q - NoncesOf(top);
    forall n: nat, m: nat | n in q && n !in l && m in l ensures m < n {
      var i := TopIndex(txs, k, n);
      var j := PositionOf(q, txs, m);
      TopHas(txs, k, j);
    }
  }

  lemma TopIndex(txs: seq<Tx>, k: nat, n: nat) returns (i: nat)
    requires k <= |txs| && n in NoncesOf(TopList(txs, k))
    ensures |txs| - k <= i < |txs| && txs[i].nonce == n
  {
    var t :| t in TopList(txs, k) && t.nonce == n;
    var j :| 0 <= j < k && TopList(txs, k)[j] == t;
    i := |txs| - 1 - j;
  }

  lemma TopHas(txs: seq<Tx>, k: nat, j: nat)
    requires k <= |txs|
    ensures |txs| - k <= j < |txs| ==> txs[j].nonce in NoncesOf(TopList(txs, k))
  {
    if |txs| - k <= j < |txs| { assert TopList(txs, k)[|txs| - 1 - j] == txs[j]; }
  }

  /** The last address of the list sorted by heartbeat. */
  method PopLatest(addresses: set<Address>, beats: map<Address, nat>) returns (o: Address)
    requires addresses != {}
    ensures o in addresses && forall b :: b in addresses ==> BeatOf(beats, b) <= BeatOf(beats, o)
  {
    o :| o in addresses;
    var todo := addresses - {o};
    while todo != {}
      invariant todo <= addresses && o in addresses
      invariant forall b :: b in addresses && b !in todo ==> BeatOf(beats, b) <= BeatOf(beats, o)
    {
      var b :| b in todo;
      if BeatOf(beats, b) > BeatOf(beats, o) { o := b; }
      todo := todo - {b};
    }
  }

  lemma PromoteNone(p: Pool, w: World, locals: set<Address>, cfg: Config)
    ensures PromoteAll(p, w, locals, cfg, []) == p
  {}

  lemma PromoteMore(p: Pool, w: World, locals: set<Address>, cfg: Config, accounts: seq<Address>, i: nat)
    requires i < |accounts|
    ensures PromoteAll(p, w, locals, cfg, accounts[..i + 1]) ==
            PromoteAccount(PromoteAll(p, w, locals, cfg, accounts[..i]), w, locals, cfg, accounts[i])
  {
    assert accounts[..i + 1][..i] == accounts[..i];
  }

  // ---------------------------------------------------------------- facts for demotion

  /** The parts a pending lane falls into under a new state. */
  ghost predicate Sifted(p: Pool, w: World, a: Address, kept: Txs, invalids: Txs, costly: Txs, back: Txs) {
    && a in p.pending && SoundAt(p, a)
    && kept == Executable(p.pending[a], w, a) && invalids == Invalidated(p.pending[a], w, a)
    && costly == CostlyIn(From(p.pending[a], StateNonce(w, a)), Balance(w, a), w.maxGas)
    && back == if StateNonce(w, a) in kept then map[] else kept
  }

  lemma DemoteKeyed(p: Pool, w: World, a: Address, kept: Txs, invalids: Txs, costly: Txs, back: Txs)
    requires Sound(p) && a in p.pending
    requires kept == FilterKeeps(From(p.pending[a], StateNonce(w, a)), true, Balance(w, a), w.maxGas)
    requires invalids == FilterInvalids(From(p.pending[a], StateNonce(w, a)), true, Balance(w, a), w.maxGas)
    requires costly == CostlyIn(From(p.pending[a], StateNonce(w, a)), Balance(w, a), w.maxGas)
    requires back == if StateNonce(w, a) in kept then map[] else kept
    ensures Sifted(p, w, a, kept, invalids, costly, back)
    ensures Keyed(Below(p.pending[a], StateNonce(w, a))) && Keyed(costly) && Keyed(invalids) && Keyed(back)
    ensures FreshLane(invalids, a, Lane(p.queue, a), p.all - ValuesOf(Below(p.pending[a], StateNonce(w, a))) - ValuesOf(costly))
  {
    hide FilterKeeps, FilterInvalids, CostlyIn, ValuesOf, SoundAt, Below, From;
    EverySender(p, a);
    SiftShape(p, w, a, kept, invalids, costly, back);
    LanePart(p, a);
    SiftFresh(invalids, p.pending[a], a, Lane(p.queue, a), p.all, Below(p.pending[a], StateNonce(w, a)), costly);
    SiftFresh(back, p.pending[a], a, Lane(p.queue, a), p.all, Below(p.pending[a], StateNonce(w, a)), costly);
  }

  lemma LanePart(p: Pool, a: Address)
    requires SoundAt(p, a) && a in p.pending
    ensures Owned(p.pending[a], a) && Known(p.pending[a], p.all) && p.pending[a].Keys !! Lane(p.queue, a).Keys
  {}

  /** The parts come from the lane and do not overlap. */
  lemma SiftShape(p: Pool, w: World, a: Address, kept: Txs, invalids: Txs, costly: Txs, back: Txs)
    requires Sifted(p, w, a, kept, invalids, costly, back)
    ensures var l, low := p.pending[a], Below(p.pending[a], StateNonce(w, a));
            && Within(low, l) && Within(costly, l) && Within(invalids, l) && Within(back, l)
            && low.Keys !! invalids.Keys && low.Keys !! back.Keys
            && costly.Keys !! invalids.Keys && costly.Keys !! back.Keys && invalids.Keys !! back.Keys
  {
    hide FilterKeeps, FilterInvalids, CostlyIn, SoundAt;
    SiftParts(From(p.pending[a], StateNonce(w, a)), Balance(w, a), w.maxGas);
  }

  /** A part of a lane is unknown to the queue lane and stays known when other parts are forgotten. */
  lemma SiftFresh(m: Txs, l: Txs, a: Address, q: Txs, all: set<Tx>, low: Txs, costly: Txs)
    requires Owned(l, a) && Known(l, all) && Within(m, l) && Within(low, l) && Within(costly, l)
    requires m.Keys !! q.Keys && m.Keys !! low.Keys && m.Keys !! costly.Keys
    ensures Keyed(m) && Keyed(low) && Keyed(costly)
    ensures FreshLane(m, a, q, all - ValuesOf(low) - ValuesOf(costly))
  {
    forall n: nat | n in m ensures m[n] !in ValuesOf(low) && m[n] !in ValuesOf(costly) {
      NotValue(low, n, m[n]);
      NotValue(costly, n, m[n]);
    }
  }

  lemma SiftParts(m: Txs, costLimit: nat, gasLimit: nat)
    ensures Parts(m, FilterKeeps(m, true, costLimit, gasLimit), FilterInvalids(m, true, costLimit, gasLimit))
    ensures Parts(m, FilterKeeps(m, true, costLimit, gasLimit), CostlyIn(m, costLimit, gasLimit))
    ensures Parts(m, FilterInvalids(m, true, costLimit, gasLimit), CostlyIn(m, costLimit, gasLimit))
    ensures forall n: nat :: n in m ==> || n in FilterKeeps(m, true, costLimit, gasLimit)
                                        || n in FilterInvalids(m, true, costLimit, gasLimit) || n in CostlyIn(m, costLimit, gasLimit)
  {}

  lemma BackFresh(p: Pool, w: World, a: Address, kept: Txs, invalids: Txs, costly: Txs, back: Txs,
                  queue: map<Address, Txs>, all: set<Tx>)
    requires Sifted(p, w, a, kept, invalids, costly, back)
    requires queue == if invalids == map[] then p.queue else p.queue[a := Lane(p.queue, a) + invalids]
    requires all == p.all - ValuesOf(Below(p.pending[a], StateNonce(w, a))) - ValuesOf(costly)
    ensures FreshLane(back, a, Lane(queue, a), all)
  {
    hide Executable, Invalidated, CostlyIn, ValuesOf, SoundAt, Below, From;
    SiftShape(p, w, a, kept, invalids, costly, back);
    LanePart(p, a);
    assert Lane(queue, a) == Lane(p.queue, a) + invalids;
    SiftFresh(back, p.pending[a], a, Lane(queue, a), p.all, Below(p.pending[a], StateNonce(w, a)), costly);
  }

  lemma NotValue(m: Txs, n: nat, tx: Tx)
    requires Keyed(m) && n !in m && tx.nonce == n
    ensures tx !in ValuesOf(m)
  {}

  lemma DemoteIs(p: Pool, w: World, a: Address, kept: Txs, invalids: Txs, back: Txs, costly: Txs, queue1: map<Address, Txs>)
    requires Sifted(p, w, a, kept, invalids, costly, back)
    requires queue1 == if invalids == map[] then p.queue else p.queue[a := Lane(p.queue, a) + invalids]
    ensures DemoteAccount(p, w, a) == p.(
              pending := if back == kept then p.pending - {a} else p.pending[a := kept],
              queue := if back == map[] then queue1 else queue1[a := Lane(queue1, a) + back],
              all := p.all - ValuesOf(Below(p.pending[a], StateNonce(w, a))) - ValuesOf(costly))
  {
    hide Executable, Invalidated, GoneFrom, ValuesOf, Sifted, CostlyIn, Below, From, Remaining, Demoted;
    DemotedIs(p, w, a, kept, invalids, costly, back);
    DemoteGone(p, w, a, kept, invalids, costly, back);
    BackQueue(p.queue, a, invalids, back, queue1);
  }

  lemma DemotedIs(p: Pool, w: World, a: Address, kept: Txs, invalids: Txs, costly: Txs, back: Txs)
    requires Sifted(p, w, a, kept, invalids, costly, back)
    ensures Remaining(p.pending[a], w, a) == if back == kept then map[] else kept
    ensures Demoted(p.pending[a], w, a) == invalids + back
    ensures a in p.pending && (back != kept ==> kept != map[])
  {
    hide Executable, Invalidated, CostlyIn;
  }

  lemma DemoteGone(p: Pool, w: World, a: Address, kept: Txs, invalids: Txs, costly: Txs, back: Txs)
    requires Sifted(p, w, a, kept, invalids, costly, back)
    ensures p.all - ValuesOf(Below(p.pending[a], StateNonce(w, a))) - ValuesOf(costly)
         == p.all - GoneFrom(p.pending[a], Remaining(p.pending[a], w, a), Demoted(p.pending[a], w, a))
  {
    hide FilterKeeps, FilterInvalids, CostlyIn, GoneFrom, ValuesOf, SoundAt, Demoted, Remaining;
    var l, nonce := p.pending[a], StateNonce(w, a);
    SiftParts(From(l, nonce), Balance(w, a), w.maxGas);
    DemotedIs(p, w, a, kept, invalids, costly, back);
    var none: Txs := map[];
    GoneIs(l, Remaining(l, w, a), Demoted(l, w, a), Below(l, nonce), costly, none);
    NoValues();
  }

  lemma NoValues()
    ensures ValuesOf(map[]) == {}
  {}

  lemma BackQueue(queue: map<Address, Txs>, a: Address, invalids: Txs, back: Txs, queue1: map<Address, Txs>)
    requires queue1 == if invalids == map[] then queue else queue[a := Lane(queue, a) + invalids]
    ensures (if back == map[] then queue1 else queue1[a := Lane(queue1, a) + back])
         == if invalids + back == map[] then queue else queue[a := Lane(queue, a) + (invalids + back)]
  {
    if invalids != map[] {
      var n: nat :| n in invalids;
      assert n in invalids + back;
    }
    if back != map[] {
      var n: nat :| n in back;
      assert n in invalids + back;
    }
    assert Lane(queue1, a) == Lane(queue, a) + invalids;
    assert Lane(queue, a) + invalids + back == Lane(queue, a) + (invalids + back);
    if back == map[] { assert invalids + back == invalids; }
  }

  lemma DemoteNone(p: Pool, w: World)
    ensures DemoteAll(p, w, []) == p
  {}

  lemma DemoteMore(p: Pool, w: World, accounts: seq<Address>, i: nat)
    requires i < |accounts| && Sound(p) && Distinct(accounts) && forall a :: a in accounts ==> a in p.pending
    ensures DemoteAll(p, w, accounts[..i + 1]) == DemoteAccount(DemoteAll(p, w, accounts[..i]), w, accounts[i])
    ensures accounts[i] in DemoteAll(p, w, accounts[..i]).pending
  {
    hide DemoteAccount, DemoteAll, Sound;
    DemoteMore0(p, w, accounts, i);
    DemoteAllAt(p, w, accounts[..i], accounts[i]);
    assert accounts[i] in p.pending.Keys * {accounts[i]};
  }

  lemma DemoteMore0(p: Pool, w: World, accounts: seq<Address>, i: nat)
    requires i < |accounts|
    ensures DemoteAll(p, w, accounts[..i + 1]) == DemoteAccount(DemoteAll(p, w, accounts[..i]), w, accounts[i])
  {
    assert accounts[..i + 1][..i] == accounts[..i];
  }

  /** The accounts of a lane map in the order they are visited. */
  method AccountList(lanes: map<Address, Txs>) returns (accounts: seq<Address>)
    ensures Distinct(accounts) && forall a :: a in accounts <==> a in lanes
  {
    accounts := SetList(lanes.Keys);
  }

  method SetList(s: set<Address>) returns (accounts: seq<Address>)
    ensures Distinct(accounts) && forall a :: a in accounts <==> a in s
  {
    accounts := [];
    var todo := s;
    while todo != {}
      invariant todo <= s && Distinct(accounts)
      invariant forall a :: a in accounts <==> a in s - todo
    {
      var a :| a in todo;
      assert a !in accounts;
      accounts := accounts + [a];
      todo := todo - {a};
    }
  }

  // ---------------------------------------------------------------- facts for add, SetGasPrice and reset

  function RemoveAll(p: Pool, w: World, txs: seq<Tx>): Pool {
    if |txs| == 0 then p else Remove(RemoveAll(p, w, txs[..|txs| - 1]), w, txs[|txs| - 1])
  }

  lemma RemoveMore(p: Pool, w: World, txs: seq<Tx>, i: nat)
    requires i < |txs|
    ensures RemoveAll(p, w, txs[..i + 1]) == Remove(RemoveAll(p, w, txs[..i]), w, txs[i])
  {
    assert txs[..i + 1][..i] == txs[..i];
  }

  lemma RemoveNone(p: Pool, w: World)
    ensures RemoveAll(p, w, []) == p
  {}

  /** Several removals keep both invariants, and the known transactions are those not removed. */
  lemma {:induction false} RemoveAllKeeps(p: Pool, w: World, txs: seq<Tx>)
    requires Sound(p)
    ensures Sound(RemoveAll(p, w, txs)) && KeepsTight(p, RemoveAll(p, w, txs), w)
    ensures RemoveAll(p, w, txs).all == p.all - set tx | tx in txs
  {
    hide Remove, Sound, KeepsTight;
    if |txs| > 0 {
      var t, x := txs[..|txs| - 1], txs[|txs| - 1];
      assert txs == t + [x];
      RemoveAllKeeps(p, w, t);
      var q := RemoveAll(p, w, t);
      RemoveSound(q, w, x);
      RemoveTouches(q, w, x);
      RemoveTight(q, w, x);
      KeepsThen(p, q, Remove(q, w, x), w);
    } else {
      KeepsSelf(p, w);
      assert p.all - (set tx | tx in txs) == p.all;
    }
  }

  /** Where add puts a transaction. */
  function Insert(p: Pool, tx: Tx, bump: nat): Pool {
    if tx.nonce in Lane(p.pending, tx.sender) then
      if Accepts(Lane(p.pending, tx.sender), tx, bump) then Replace(p, tx) else p
    else Enqueue(p, tx, bump)
  }

  predicate Inserts(p: Pool, tx: Tx, bump: nat) {
    if tx.nonce in Lane(p.pending, tx.sender) then Accepts(Lane(p.pending, tx.sender), tx, bump)
    else Accepts(Lane(p.queue, tx.sender), tx, bump)
  }

  lemma InsertKeeps(p: Pool, w: World, tx: Tx, bump: nat)
    requires Sound(p)
    ensures Sound(Insert(p, tx, bump))
    ensures OnlyTouches(p, Insert(p, tx, bump), tx.sender)
    ensures tx.nonce >= StateNonce(w, tx.sender) ==> KeepsTight(p, Insert(p, tx, bump), w)
  {
    hide Sound, KeepsTight, Replace, Enqueue, Accepts;
    KeepsSelf(p, w);
    if tx.nonce in Lane(p.pending, tx.sender) {
      ReplaceKeeps(p, w, tx);
    } else {
      EnqueueSound(p, tx, bump);
      if tx.nonce >= StateNonce(w, tx.sender) { EnqueueTight(p, w, tx, bump); }
    }
  }

  /** After an accepted insertion the transaction is known and in a lane. */
  lemma InsertPlaces(p: Pool, tx: Tx, bump: nat)
    requires Sound(p) && Inserts(p, tx, bump)
    ensures tx in Insert(p, tx, bump).all && Placed(Insert(p, tx, bump), tx)
  {
    hide Outbids;
    EverySender(p, tx.sender);
  }

  lemma CoveredAfter(heap: seq<Tx>, items: seq<Tx>, all0: set<Tx>, all: set<Tx>, drops: seq<Tx>)
    requires forall tx :: tx in all0 && tx !in drops ==> tx in heap
    requires Retains(heap, items, all) && all == all0 - set tx | tx in drops
    ensures Covers(items, all)
  {}

  lemma EnqueueGrows(p: Pool, tx: Tx, bump: nat)
    ensures Enqueue(p, tx, bump).all <= p.all + {tx}
    ensures !Accepts(Lane(p.queue, tx.sender), tx, bump) ==> Enqueue(p, tx, bump) == p
  {}

  /** The nonces reset rebuilds, one account after the other. */
  ghost function Tracked(p: Pool, accounts: seq<Address>): map<Address, nat> {
    if |accounts| == 0 then p.nonces
    else
      var last := accounts[|accounts| - 1];
      var rest := Tracked(p, accounts[..|accounts| - 1]);
      if Lane(p.pending, last) == map[] then rest else rest[last := LaneTop(Lane(p.pending, last)) + 1]
  }

  lemma TrackedNone(p: Pool)
    ensures Tracked(p, []) == p.nonces
  {}

  lemma TrackedMore(p: Pool, accounts: seq<Address>, i: nat)
    requires i < |accounts| && accounts[i] in p.pending && p.pending[accounts[i]] != map[]
    ensures Tracked(p, accounts[..i + 1]) == Tracked(p, accounts[..i])[accounts[i] := LaneTop(p.pending[accounts[i]]) + 1]
  {
    hide LaneTop;
    assert accounts[..i + 1][..i] == accounts[..i];
  }

  lemma {:induction false} TrackedAt(p: Pool, accounts: seq<Address>, a: Address)
    requires forall b :: b in accounts ==> b in p.pending && p.pending[b] != map[]
    ensures a in Tracked(p, accounts) <==> a in p.nonces || a in accounts
    ensures a in Tracked(p, accounts) ==> Tracked(p, accounts)[a] == if a in accounts then LaneTop(p.pending[a]) + 1 else p.nonces[a]
  {
    hide LaneTop;
    if |accounts| > 0 {
      var rest, last := accounts[..|accounts| - 1], accounts[|accounts| - 1];
      assert accounts == rest + [last];
      TrackedAt(p, rest, a);
    }
  }

  lemma TrackedAll(p: Pool, accounts: seq<Address>)
    requires forall a :: a in p.pending ==> p.pending[a] != map[]
    requires forall a :: a in accounts <==> a in p.pending
    ensures TrackPending(p) == p.(nonces := Tracked(p, accounts))
  {
    hide LaneTop, Tracked;
    forall a: Address { TrackedAt(p, accounts, a); }
    assert TrackPending(p).nonces == Tracked(p, accounts);
  }
}
