/** The transaction pool of chain/core/tx_pool.go as a value: two lanes of transactions per sender, the
    set of known transactions and the tracked nonces; what each operation makes of it and what it keeps. */
module PoolState {
  import opened TxMap
  import opened TxListOps

  /** The chain state the pool is checked against. */
  datatype World = World(nonces: map<Address, nat>, balances: map<Address, nat>, maxGas: nat)

  datatype Config = Config(priceBump: nat, accountSlots: nat, globalSlots: nat, accountQueue: nat, globalQueue: nat)

  /** `nonces` holds the accounts whose next nonce the pool tracks itself. */
  datatype Pool = Pool(pending: map<Address, Txs>, queue: map<Address, Txs>, all: set<Tx>, nonces: map<Address, nat>)

  function StateNonce(w: World, a: Address): nat { if a in w.nonces then w.nonces[a] else 0 }

  function Balance(w: World, a: Address): nat { if a in w.balances then w.balances[a] else 0 }

  function NextNonce(p: Pool, w: World, a: Address): nat { if a in p.nonces then p.nonces[a] else StateNonce(w, a) }

  function Lane(lanes: map<Address, Txs>, a: Address): Txs { if a in lanes then lanes[a] else map[] }

  function PutLane(lanes: map<Address, Txs>, a: Address, l: Txs): map<Address, Txs> {
    if l == map[] then lanes - {a} else lanes[a := l]
  }

  ghost predicate Distinct(s: seq<Address>) { forall i, j :: 0 <= i < j < |s| ==> s[i] != s[j] }

  // ---------------------------------------------------------------- the invariants

  ghost predicate Owned(l: Txs, a: Address) { forall n: nat :: n in l ==> l[n].nonce == n && l[n].sender == a }

  ghost predicate Known(l: Txs, all: set<Tx>) { forall n: nat :: n in l ==> l[n] in all }

  /** A sender's lanes hold its own transactions, each under its own nonce and known to the pool, and no
      nonce is in both lanes. */
  ghost predicate SoundAt(p: Pool, a: Address) {
    var l, q := Lane(p.pending, a), Lane(p.queue, a);
    Owned(l, a) && Owned(q, a) && Known(l, p.all) && Known(q, p.all) && l.Keys !! q.Keys
  }

  ghost predicate Sound(p: Pool) { forall a: Address :: SoundAt(p, a) }

  /** The nonces of `l` are exactly those from `lo` up to `hi`. */
  ghost predicate Spans(l: Txs, lo: nat, hi: nat) { lo <= hi && forall n: nat :: n in l <==> lo <= n < hi }

  ghost predicate StartsAt(l: Txs, lo: nat) { forall n: nat :: n in l ==> lo <= n }

  /** A sender's pending nonces are exactly the interval from the state's nonce to the tracked nonce,
      and nothing below the tracked nonce is queued. */
  ghost predicate TightAt(p: Pool, w: World, a: Address) {
    Spans(Lane(p.pending, a), StateNonce(w, a), NextNonce(p, w, a)) && StartsAt(Lane(p.queue, a), NextNonce(p, w, a))
  }

  ghost predicate Tight(p: Pool, w: World) { forall a: Address :: TightAt(p, w, a) }

  /** Nothing that belongs to another sender than `a` differs. */
  ghost predicate OnlyTouches(p: Pool, p': Pool, a: Address) {
    && (forall b: Address :: b != a ==> Lane(p'.pending, b) == Lane(p.pending, b) && Lane(p'.queue, b) == Lane(p.queue, b))
    && (forall b: Address :: b != a ==> (b in p'.nonces <==> b in p.nonces))
    && (forall b: Address :: b != a && b in p.nonces ==> p'.nonces[b] == p.nonces[b])
    && (forall tx: Tx :: tx.sender != a ==> (tx in p'.all <==> tx in p.all))
  }

  lemma SoundElsewhere(p: Pool, p': Pool, a: Address)
    requires Sound(p) && OnlyTouches(p, p', a) && SoundAt(p', a)
    ensures Sound(p')
  {
    forall b: Address ensures SoundAt(p', b) { if b != a { assert SoundAt(p, b); } }
  }

  /** Every sender in order stays in order. */
  ghost predicate KeepsTight(p: Pool, p': Pool, w: World) { forall a: Address :: TightAt(p, w, a) ==> TightAt(p', w, a) }

  lemma KeepsSelf(p: Pool, w: World)
    ensures KeepsTight(p, p, w)
  {}

  lemma KeepsThen(p0: Pool, p1: Pool, p2: Pool, w: World)
    requires KeepsTight(p0, p1, w) && KeepsTight(p1, p2, w)
    ensures KeepsTight(p0, p2, w)
  {}

  lemma KeepsElsewhere(p: Pool, p': Pool, w: World, a: Address)
    requires OnlyTouches(p, p', a) && (TightAt(p, w, a) ==> TightAt(p', w, a))
    ensures KeepsTight(p, p', w)
  {
    forall b: Address | TightAt(p, w, b) ensures TightAt(p', w, b) {}
  }

  // ---------------------------------------------------------------- enqueueTx

  /** enqueueTx: into the queue lane unless an equally good transaction holds the nonce there. */
  function Enqueue(p: Pool, tx: Tx, bump: nat): Pool {
    var q := Lane(p.queue, tx.sender);
    if Accepts(q, tx, bump) then
      p.(queue := p.queue[tx.sender := q[tx.nonce := tx]],
         all := (if tx.nonce in q then p.all - {q[tx.nonce]} else p.all) + {tx})
    else p
  }

  lemma EnqueueSound(p: Pool, tx: Tx, bump: nat)
    requires Sound(p) && tx.nonce !in Lane(p.pending, tx.sender)
    ensures Sound(Enqueue(p, tx, bump)) && OnlyTouches(p, Enqueue(p, tx, bump), tx.sender)
  {
    hide Accepts, Sound;
    var a, p' := tx.sender, Enqueue(p, tx, bump);
    assert SoundAt(p, a) by { EverySender(p, a); }
    var l, q := Lane(p.pending, a), Lane(p.queue, a);
    if tx.nonce in q {
      assert q[tx.nonce].nonce == tx.nonce;
      assert forall n: nat :: n in l ==> l[n].nonce != tx.nonce;
    }
    assert Accepts(q, tx, bump) ==> Lane(p'.queue, a) == q[tx.nonce := tx];
    if tx.nonce in q { assert q[tx.nonce].sender == a; }
    assert OnlyTouches(p, p', a);
    assert SoundAt(p', a);
    SoundElsewhere(p, p', a);
  }

  lemma EverySender(p: Pool, a: Address)
    requires Sound(p)
    ensures SoundAt(p, a)
  {}

  lemma EnqueueTight(p: Pool, w: World, tx: Tx, bump: nat)
    requires tx.nonce !in Lane(p.pending, tx.sender) && tx.nonce >= StateNonce(w, tx.sender)
    requires OnlyTouches(p, Enqueue(p, tx, bump), tx.sender)
    ensures KeepsTight(p, Enqueue(p, tx, bump), w)
  {
    hide Accepts;
    KeepsElsewhere(p, Enqueue(p, tx, bump), w, tx.sender);
  }

  // ---------------------------------------------------------------- promoteTx

  /** promoteTx: into the pending lane; the nonce after it becomes the sender's next one. */
  function Place(p: Pool, tx: Tx, bump: nat): Pool {
    var l := Lane(p.pending, tx.sender);
    if Accepts(l, tx, bump) then
      p.(pending := p.pending[tx.sender := l[tx.nonce := tx]],
         all := (if tx.nonce in l then p.all - {l[tx.nonce]} else p.all) + {tx},
         nonces := p.nonces[tx.sender := tx.nonce + 1])
    else p.(all := p.all - {tx})
  }

  /** No nonce is in both lanes, so a queued transaction is always inserted and replaces nothing. */
  lemma PlaceFresh(p: Pool, tx: Tx, bump: nat)
    requires SoundAt(p, tx.sender) && tx.nonce in Lane(p.queue, tx.sender) && Lane(p.queue, tx.sender)[tx.nonce] == tx
    ensures Accepts(Lane(p.pending, tx.sender), tx, bump) && tx.nonce !in Lane(p.pending, tx.sender)
    ensures Place(p, tx, bump).all == p.all
  {}

  // ---------------------------------------------------------------- replacement in the pending lane

  /** add, when the nonce is already pending: the better transaction takes the place of the other. */
  function Replace(p: Pool, tx: Tx): Pool
    requires tx.nonce in Lane(p.pending, tx.sender)
  {
    var l := Lane(p.pending, tx.sender);
    p.(pending := p.pending[tx.sender := l[tx.nonce := tx]], all := p.all - {l[tx.nonce]} + {tx})
  }

  lemma ReplaceKeeps(p: Pool, w: World, tx: Tx)
    requires Sound(p) && tx.nonce in Lane(p.pending, tx.sender)
    ensures Sound(Replace(p, tx)) && OnlyTouches(p, Replace(p, tx), tx.sender)
    ensures KeepsTight(p, Replace(p, tx), w)
  {
    var a, p' := tx.sender, Replace(p, tx);
    assert SoundAt(p, a);
    assert SoundAt(p', a);
    SoundElsewhere(p, p', a);
    KeepsElsewhere(p, p', w, a);
  }

  // ---------------------------------------------------------------- removeTx

  function LowerNonce(p: Pool, w: World, a: Address, nonce: nat): map<Address, nat> {
    if NextNonce(p, w, a) > nonce then p.nonces[a := nonce] else p.nonces
  }

  /** removeTx: a pending transaction takes its successors out of the pending lane; they are queued again,
      unless the lane is empty without it. */
  function Remove(p: Pool, w: World, tx: Tx): Pool {
    var a := tx.sender;
    var l, q := Lane(p.pending, a), Lane(p.queue, a);
    if tx !in p.all then p
    else if tx.nonce in l then
      var kept, later := RemoveKeeps(l, true, tx.nonce), RemoveInvalids(l, true, tx.nonce);
      p.(all := p.all - {tx}, pending := PutLane(p.pending, a, kept), nonces := LowerNonce(p, w, a, tx.nonce),
         queue := if kept == map[] || later == map[] then p.queue else p.queue[a := q + later])
    else
      p.(all := p.all - {tx}, queue := PutLane(p.queue, a, q - {tx.nonce}))
  }

  lemma RemoveTouches(p: Pool, w: World, tx: Tx)
    ensures OnlyTouches(p, Remove(p, w, tx), tx.sender)
    ensures Remove(p, w, tx).all == p.all - {tx}
  {}

  lemma RemoveSound(p: Pool, w: World, tx: Tx)
    requires Sound(p)
    ensures Sound(Remove(p, w, tx))
  {
    hide SoundAt, OnlyTouches, Remove, Sound;
    EverySender(p, tx.sender);
    RemoveTouches(p, w, tx);
    RemoveSoundAt(p, w, tx);
    SoundElsewhere(p, Remove(p, w, tx), tx.sender);
  }

  lemma RemoveSoundAt(p: Pool, w: World, tx: Tx)
    requires SoundAt(p, tx.sender)
    ensures SoundAt(Remove(p, w, tx), tx.sender)
  {
    RemoveLanes(p, w, tx);
    hide Remove, LowerNonce, NextNonce;
    var p' := Remove(p, w, tx);
    var l, q := Lane(p.pending, tx.sender), Lane(p.queue, tx.sender);
    assert Owned(q, tx.sender) && Owned(l, tx.sender);
    assert forall n: nat :: n in l && n != tx.nonce ==> l[n] != tx;
    assert forall n: nat :: n in q && n != tx.nonce ==> q[n] != tx;
  }

  /** The sender's lanes after removeTx. */
  lemma RemoveLanes(p: Pool, w: World, tx: Tx)
    ensures Remove(p, w, tx).all == p.all - {tx}
    ensures tx !in p.all ==> Remove(p, w, tx) == p
    ensures tx in p.all && tx.nonce in Lane(p.pending, tx.sender) ==>
              && Lane(Remove(p, w, tx).pending, tx.sender) == Below(Lane(p.pending, tx.sender), tx.nonce)
              && (Lane(Remove(p, w, tx).queue, tx.sender) == Lane(p.queue, tx.sender) ||
                  Lane(Remove(p, w, tx).queue, tx.sender)
                    == Lane(p.queue, tx.sender) + From(Lane(p.pending, tx.sender), tx.nonce + 1))
    ensures tx in p.all && tx.nonce !in Lane(p.pending, tx.sender) ==>
              && Lane(Remove(p, w, tx).pending, tx.sender) == Lane(p.pending, tx.sender)
              && Lane(Remove(p, w, tx).queue, tx.sender) == Lane(p.queue, tx.sender) - {tx.nonce}
  {}

  lemma RemoveTight(p: Pool, w: World, tx: Tx)
    ensures KeepsTight(p, Remove(p, w, tx), w)
  {
    RemoveTouches(p, w, tx);
    KeepsElsewhere(p, Remove(p, w, tx), w, tx.sender);
  }

  // ---------------------------------------------------------------- what removeTx loses

  /** Every known transaction is in one of its sender's lanes. */
  ghost predicate Placed(p: Pool, tx: Tx) {
    || (tx.nonce in Lane(p.pending, tx.sender) && Lane(p.pending, tx.sender)[tx.nonce] == tx)
    || (tx.nonce in Lane(p.queue, tx.sender) && Lane(p.queue, tx.sender)[tx.nonce] == tx)
  }

  ghost predicate NoneLost(p: Pool) { forall tx :: tx in p.all ==> Placed(p, tx) }

  /** `tx` is its sender's first pending transaction and others follow it. */
  ghost predicate HeadsOthers(p: Pool, tx: Tx) {
    var l := Lane(p.pending, tx.sender);
    tx.nonce in l && (forall n: nat :: n in l ==> n >= tx.nonce) && (exists n: nat :: n in l && n > tx.nonce)
  }

  /** removeTx loses transactions exactly when it removes the first of several pending ones: they stay
      known to the pool, but no lane holds them any more. */
  lemma RemoveLosesIff(p: Pool, w: World, tx: Tx)
    requires Sound(p) && NoneLost(p) && tx in p.all
    ensures NoneLost(Remove(p, w, tx)) <==> !HeadsOthers(p, tx)
  {
    var a, p' := tx.sender, Remove(p, w, tx);
    EverySender(p, a);
    RemoveTouches(p, w, tx);
    var l := Lane(p.pending, a);
    if HeadsOthers(p, tx) {
      var n: nat :| n in l && n > tx.nonce;
      HeadLost(p, w, tx, n);
    } else {
      forall t | t in p'.all ensures Placed(p', t) {
        assert Placed(p, t);
        if t.sender == a { StillPlaced(p, w, tx, t); }
      }
    }
  }

  const FIRST: Tx := Tx(0, 0, 1, 0, 0, 0)
  const SECOND: Tx := Tx(0, 1, 1, 0, 0, 0)

  /** One sender with nonces 0 and 1 pending. */
  const TWO_PENDING: Pool := Pool(map[0 := map[0 := FIRST, 1 := SECOND]], map[], {FIRST, SECOND}, map[0 := 2])

  /** Removing the first of them leaves the second known and in no lane. */
  lemma RemoveCanLose(w: World)
    requires w.nonces == map[]
    ensures Sound(TWO_PENDING) && Tight(TWO_PENDING, w) && NoneLost(TWO_PENDING)
    ensures var p' := Remove(TWO_PENDING, w, FIRST);
            SECOND in p'.all && 0 !in p'.pending && 0 !in p'.queue
  {
    var l := Lane(TWO_PENDING.pending, 0);
    forall a: Address ensures SoundAt(TWO_PENDING, a) && TightAt(TWO_PENDING, w, a) {}
    assert RemoveKeeps(l, true, 0) == map[];
  }

  lemma HeadLost(p: Pool, w: World, tx: Tx, n: nat)
    requires Sound(p) && tx in p.all && HeadsOthers(p, tx)
    requires n in Lane(p.pending, tx.sender) && n > tx.nonce
    ensures !NoneLost(Remove(p, w, tx))
  {
    var a, p' := tx.sender, Remove(p, w, tx);
    EverySender(p, a);
    var l := Lane(p.pending, a);
    assert RemoveKeeps(l, true, tx.nonce) == map[];
    assert l[n] in p'.all && !Placed(p', l[n]);
  }

  lemma StillPlaced(p: Pool, w: World, tx: Tx, t: Tx)
    requires Sound(p) && Placed(p, tx) && Placed(p, t) && !HeadsOthers(p, tx) && t.sender == tx.sender && t != tx && tx in p.all
    ensures Placed(Remove(p, w, tx), t)
  {
    EverySender(p, tx.sender);
    var l := Lane(p.pending, tx.sender);
    if tx.nonce in l {
      var kept := RemoveKeeps(l, true, tx.nonce);
      if kept == map[] { assert forall n: nat :: n in l && n < tx.nonce ==> n in kept; }
      assert forall n: nat :: n in l && n > tx.nonce ==> n in RemoveInvalids(l, true, tx.nonce);
    }
  }

  // ---------------------------------------------------------------- one step of the fairness limit

  function LaneTop(l: Txs): (n: nat)
    requires l != map[]
    ensures n in l && forall k: nat :: k in l ==> k <= n
  {
    Largest(l.Keys)
  }

  /** The pending lane of `a` loses its highest nonce. */
  function DropTop(p: Pool, w: World, a: Address): Pool
    requires Lane(p.pending, a) != map[]
  {
    var l := Lane(p.pending, a);
    var top := LaneTop(l);
    p.(pending := p.pending[a := l - {top}], all := p.all - {l[top]}, nonces := LowerNonce(p, w, a, top))
  }

  lemma DropTopKeeps(p: Pool, w: World, a: Address)
    requires Sound(p) && Lane(p.pending, a) != map[]
    ensures Sound(DropTop(p, w, a)) && OnlyTouches(p, DropTop(p, w, a), a)
    ensures KeepsTight(p, DropTop(p, w, a), w)
  {
    var p' := DropTop(p, w, a);
    EverySender(p, a);
    assert SoundAt(p', a);
    SoundElsewhere(p, p', a);
    KeepsElsewhere(p, p', w, a);
  }

  // ---------------------------------------------------------------- nothing else loses transactions

  lemma PlacedElsewhere(p: Pool, p': Pool, a: Address)
    requires NoneLost(p) && OnlyTouches(p, p', a) && forall tx :: tx in p'.all && tx.sender == a ==> Placed(p', tx)
    ensures NoneLost(p')
  {
    forall tx | tx in p'.all ensures Placed(p', tx) {
      if tx.sender != a { assert Placed(p, tx); }
    }
  }

  lemma EnqueueLosesNone(p: Pool, tx: Tx, bump: nat)
    requires Sound(p) && NoneLost(p) && tx.nonce !in Lane(p.pending, tx.sender)
    ensures NoneLost(Enqueue(p, tx, bump))
  {
    hide Accepts;
    var a, p' := tx.sender, Enqueue(p, tx, bump);
    EnqueueSound(p, tx, bump);
    EverySender(p, a);
    forall t | t in p'.all && t.sender == a ensures Placed(p', t) {
      if t != tx { assert Placed(p, t); }
    }
    PlacedElsewhere(p, p', a);
  }

  lemma ReplaceLosesNone(p: Pool, w: World, tx: Tx)
    requires Sound(p) && NoneLost(p) && tx.nonce in Lane(p.pending, tx.sender)
    ensures NoneLost(Replace(p, tx))
  {
    var a, p' := tx.sender, Replace(p, tx);
    ReplaceKeeps(p, w, tx);
    EverySender(p, a);
    forall t | t in p'.all && t.sender == a ensures Placed(p', t) {
      if t != tx { assert Placed(p, t); }
    }
    PlacedElsewhere(p, p', a);
  }

  lemma DropTopLosesNone(p: Pool, w: World, a: Address)
    requires Sound(p) && NoneLost(p) && Lane(p.pending, a) != map[]
    ensures NoneLost(DropTop(p, w, a))
  {
    hide Largest, LowerNonce;
    var p' := DropTop(p, w, a);
    DropTopKeeps(p, w, a);
    EverySender(p, a);
    forall t | t in p'.all && t.sender == a ensures Placed(p', t) { assert Placed(p, t); }
    PlacedElsewhere(p, p', a);
  }
}
