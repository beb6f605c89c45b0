/** The global limits of the pool (promoteExecutables, chain/core/tx_pool.go): what the equalising loops
    have reached at every point, and what they end with. */
module PoolFair {
  import opened TxMap
  import opened PoolState

  // ---------------------------------------------------------------- totals

  function Total(lanes: map<Address, Txs>): (n: nat)
    ensures lanes == map[] ==> n == 0
    decreases |lanes|
  {
    if lanes == map[] then 0
    else
      var a := Largest(lanes.Keys);
      assert lanes.Keys == (lanes - {a}).Keys + {a};
      |lanes[a]| + Total(lanes - {a})
  }

  lemma {:induction false} TotalWithout(lanes: map<Address, Txs>, a: Address)
    requires a in lanes
    ensures Total(lanes) == |lanes[a]| + Total(lanes - {a})
    decreases |lanes|
  {
    var b := Largest(lanes.Keys);
    if a != b {
      assert lanes.Keys == (lanes - {b}).Keys + {b};
      assert lanes - {a} - {b} == lanes - {b} - {a};
      TotalWithout(lanes - {b}, a);
      assert b in lanes - {a} && Largest((lanes - {a}).Keys) == b;
    }
  }

  lemma TotalDrop(lanes: map<Address, Txs>, a: Address)
    ensures Total(lanes - {a}) == Total(lanes) - |Lane(lanes, a)|
  {
    hide Total;
    if a in lanes { TotalWithout(lanes, a); } else { assert lanes - {a} == lanes; }
  }

  lemma TotalPut(lanes: map<Address, Txs>, a: Address, l: Txs)
    ensures Total(lanes[a := l]) == Total(lanes) - |Lane(lanes, a)| + |l|
  {
    hide Total, Lane;
    TotalDrop(lanes, a);
    TotalWithout(lanes[a := l], a);
    PutThenDrop(lanes, a, l);
  }

  lemma PutThenDrop(lanes: map<Address, Txs>, a: Address, l: Txs)
    ensures lanes[a := l] - {a} == lanes - {a}
  {}

  ghost function Len(p: Pool, a: Address): nat { |Lane(p.pending, a)| }

  // ---------------------------------------------------------------- trimming

  /** `s` holds the lowest nonces of `l`. */
  ghost predicate LowPart(s: Txs, l: Txs) {
    && (forall n: nat :: n in s ==> n in l && s[n] == l[n])
    && (forall n: nat, k: nat :: n in l && n !in s && k in s ==> k < n)
  }

  ghost predicate SameNonce(p: Pool, p': Pool, a: Address) {
    (a in p'.nonces <==> a in p.nonces) && (a in p.nonces ==> p'.nonces[a] == p.nonces[a])
  }

  /** A sender's next nonce after the cut: not above anything that was cut, and lowered only to such a nonce. */
  ghost predicate NonceFollows(p0: Pool, p: Pool, w: World, a: Address) {
    var l0, l := Lane(p0.pending, a), Lane(p.pending, a);
    && (forall n: nat :: n in l0 && n !in l ==> NextNonce(p, w, a) <= n)
    && (SameNonce(p0, p, a) ||
        (a in p.nonces && p.nonces[a] in l0 && p.nonces[a] !in l && p.nonces[a] < NextNonce(p0, w, a)))
  }

  /** Only pending transactions were dropped, in every lane the highest nonces, and the tracked nonces follow. */
  ghost predicate Trimmed(p0: Pool, p: Pool, w: World) {
    && p.queue == p0.queue && p.pending.Keys == p0.pending.Keys
    && (forall a: Address :: NonceFollows(p0, p, w, a))
    && (forall a: Address :: LowPart(Lane(p.pending, a), Lane(p0.pending, a)))
    && p.all <= p0.all
    && (forall tx :: tx in p0.all && tx !in p.all ==>
          tx.nonce in Lane(p0.pending, tx.sender) && tx.nonce !in Lane(p.pending, tx.sender))
  }

  lemma TrimmedSelf(p: Pool, w: World)
    ensures Trimmed(p, p, w)
  {}

  lemma TrimmedThen(p0: Pool, p1: Pool, p2: Pool, w: World)
    requires Trimmed(p0, p1, w) && Trimmed(p1, p2, w)
    ensures Trimmed(p0, p2, w)
  {
    hide NonceFollows, LowPart;
    forall a: Address
      ensures LowPart(Lane(p2.pending, a), Lane(p0.pending, a)) && NonceFollows(p0, p2, w, a)
    {
      LowThen(Lane(p0.pending, a), Lane(p1.pending, a), Lane(p2.pending, a));
      FollowsThen(p0, p1, p2, w, a);
    }
    forall tx | tx in p0.all && tx !in p2.all
      ensures tx.nonce in Lane(p0.pending, tx.sender) && tx.nonce !in Lane(p2.pending, tx.sender)
    {
      InParts(Lane(p0.pending, tx.sender), Lane(p1.pending, tx.sender), Lane(p2.pending, tx.sender));
    }
  }

  lemma InParts(l0: Txs, l1: Txs, l2: Txs)
    requires LowPart(l1, l0) && LowPart(l2, l1)
    ensures l2.Keys <= l1.Keys <= l0.Keys
  {}

  lemma FollowsThen(p0: Pool, p1: Pool, p2: Pool, w: World, a: Address)
    requires LowPart(Lane(p1.pending, a), Lane(p0.pending, a)) && LowPart(Lane(p2.pending, a), Lane(p1.pending, a))
    requires NonceFollows(p0, p1, w, a) && NonceFollows(p1, p2, w, a)
    ensures NonceFollows(p0, p2, w, a)
  {
    assert NextNonce(p2, w, a) <= NextNonce(p1, w, a) <= NextNonce(p0, w, a);
    InParts(Lane(p0.pending, a), Lane(p1.pending, a), Lane(p2.pending, a));
  }

  lemma LowThen(l0: Txs, l1: Txs, l2: Txs)
    requires LowPart(l1, l0) && LowPart(l2, l1)
    ensures LowPart(l2, l0)
  {}

  lemma TopSize(l: Txs)
    requires l != map[]
    ensures |l - {LaneTop(l)}| == |l| - 1
  {
    assert (l - {LaneTop(l)}).Keys == l.Keys - {LaneTop(l)};
    assert |l.Keys| == |l| && |(l - {LaneTop(l)}).Keys| == |l - {LaneTop(l)}|;
  }

  /** One transaction less in one lane. */
  lemma DropTopTrims(p: Pool, w: World, a: Address)
    requires Sound(p) && Lane(p.pending, a) != map[]
    ensures Trimmed(p, DropTop(p, w, a), w)
    ensures Len(DropTop(p, w, a), a) == Len(p, a) - 1
    ensures forall b: Address :: b != a ==> Lane(DropTop(p, w, a).pending, b) == Lane(p.pending, b)
    ensures Total(DropTop(p, w, a).pending) == Total(p.pending) - 1
  {
    hide Total, Largest, Sound, LowerNonce;
    var l := Lane(p.pending, a);
    EverySender(p, a);
    TopSize(l);
    TotalPut(p.pending, a, l - {LaneTop(l)});
    var p' := DropTop(p, w, a);
    assert p'.pending == p.pending[a := l - {LaneTop(l)}];
    assert LowPart(l - {LaneTop(l)}, l);
    forall b: Address ensures LowPart(Lane(p'.pending, b), Lane(p.pending, b)) {}
    forall b: Address ensures NonceFollows(p, p', w, b) { TopNonce(p, w, a, b); }
  }

  lemma TopNonce(p: Pool, w: World, a: Address, b: Address)
    requires Lane(p.pending, a) != map[]
    ensures NonceFollows(p, DropTop(p, w, a), w, b)
  {
    var l := Lane(p.pending, a);
    assert LaneTop(l) in l && LaneTop(l) !in l - {LaneTop(l)};
  }

  // ---------------------------------------------------------------- the state of the loops

  /** Offenders have been popped, spammers have not; nobody else is over the guaranteed slots. */
  ghost predicate Ranked(p0: Pool, p: Pool, locals: set<Address>, slots: nat, offenders: seq<Address>, spammers: set<Address>) {
    && Distinct(offenders)
    && (forall a :: a in offenders ==> a !in spammers && a !in locals && Len(p0, a) > slots && Len(p, a) >= slots)
    && (forall a :: a in spammers ==> a !in locals && Len(p0, a) > slots)
    && (forall a: Address :: a !in locals && Len(p0, a) > slots ==> a in offenders || a in spammers)
    && (forall a: Address :: a !in offenders ==> Lane(p.pending, a) == Lane(p0.pending, a))
    && (forall a, b :: a in offenders && b in spammers ==> Len(p, a) >= Len(p, b))
  }

  ghost predicate Level(p: Pool, list: seq<Address>, g: nat) { forall i :: 0 <= i < |list| ==> Len(p, list[i]) == g }

  /** No remote sender has more pending than one that lost something. */
  ghost predicate CutFairly(p0: Pool, p: Pool, locals: set<Address>) {
    forall a: Address, b: Address :: b !in locals && Len(p, a) < Len(p0, a) ==> Len(p, b) <= Len(p, a)
  }

  /** The senders that lost pending transactions. */
  ghost function CutSenders(p0: Pool, p: Pool): set<Address> { set a | a in p0.pending && Len(p, a) < Len(p0, a) }

  /** Trimming stopped as soon as it could: one transaction more for each sender that lost some would not
      have fitted. */
  ghost predicate NoneInVain(p0: Pool, p: Pool, limit: nat) {
    CutSenders(p0, p) != {} ==> Total(p.pending) + |CutSenders(p0, p)| > limit
  }

  /** What the pending limit ends with. */
  ghost predicate PendingLimited(p0: Pool, p: Pool, w: World, locals: set<Address>, cfg: Config) {
    && Trimmed(p0, p, w)
    && (Total(p.pending) <= cfg.globalSlots || forall a: Address :: a !in locals ==> Len(p, a) <= cfg.accountSlots)
    && (forall a: Address :: a in locals ==> Lane(p.pending, a) == Lane(p0.pending, a))
    && (forall a: Address :: Len(p, a) < Len(p0, a) ==> Len(p, a) >= cfg.accountSlots)
    && CutFairly(p0, p, locals) && NoneInVain(p0, p, cfg.globalSlots)
    && (Total(p0.pending) <= cfg.globalSlots ==> p == p0)
  }

  /** One round over the leading offenders: those of `list` go from `g` to `g - 1`. */
  ghost predicate Lowered(p: Pool, p': Pool, list: seq<Address>, g: nat) {
    && g > 0 && Level(p, list, g) && Level(p', list, g - 1)
    && forall a: Address :: a !in list ==> Lane(p'.pending, a) == Lane(p.pending, a)
  }

  /** Popping the longest spammer. */
  lemma PopKeeps(p0: Pool, p: Pool, locals: set<Address>, slots: nat, offenders: seq<Address>, spammers: set<Address>, o: Address)
    requires Ranked(p0, p, locals, slots, offenders, spammers)
    requires o in spammers && forall b :: b in spammers ==> Len(p, b) <= Len(p, o)
    ensures Ranked(p0, p, locals, slots, offenders + [o], spammers - {o})
    ensures Len(p, o) > slots && forall a :: a in offenders ==> Len(p, a) >= Len(p, o)
  {}

  /** A round over all offenders but the last keeps the order of the loops, as long as it stays at or
      above the last one's length. */
  lemma RoundKeeps(p0: Pool, p: Pool, p': Pool, locals: set<Address>, slots: nat, offenders: seq<Address>,
                   spammers: set<Address>, n: nat, g: nat)
    requires Ranked(p0, p, locals, slots, offenders, spammers) && n <= |offenders|
    requires Lowered(p, p', offenders[..n], g) && g > slots
    requires forall b :: b in spammers ==> Len(p, b) < g
    ensures Ranked(p0, p', locals, slots, offenders, spammers)
  {
    hide Total;
    assert forall a :: a in offenders[..n] ==> a in offenders;
    forall a | a in offenders ensures Len(p', a) >= slots && forall b :: b in spammers ==> Len(p', a) >= Len(p', b) {
      if a in offenders[..n] {
        assert Len(p', a) == g - 1;
      }
    }
  }

  /** The round is fair when the remote senders outside it are not above it. */
  lemma RoundFair(p0: Pool, p: Pool, p': Pool, locals: set<Address>, slots: nat, offenders: seq<Address>,
                  spammers: set<Address>, n: nat, g: nat)
    requires Ranked(p0, p, locals, slots, offenders, spammers) && n <= |offenders| <= n + 1
    requires Lowered(p, p', offenders[..n], g) && g > slots
    requires forall b :: b in spammers ==> Len(p, b) < g
    requires n < |offenders| ==> Len(p, offenders[n]) < g && Lane(p.pending, offenders[n]) == Lane(p0.pending, offenders[n])
    ensures CutFairly(p0, p', locals)
  {
    forall a: Address, b: Address | b !in locals && Len(p', a) < Len(p0, a) ensures Len(p', b) <= Len(p', a) {
      assert a in offenders;
      assert a in offenders[..n];
      assert Len(p', a) == g - 1;
      if b in offenders[..n] {
        assert Len(p', b) == g - 1;
      } else {
        assert Lane(p'.pending, b) == Lane(p.pending, b);
        if n < |offenders| && b == offenders[n] {
          assert Len(p, b) < g;
        } else {
          assert b !in offenders;
        }
      }
    }
  }

  /** A round that started over the limit was needed. */
  lemma RoundNeeded(p0: Pool, p: Pool, p': Pool, w: World, locals: set<Address>, slots: nat, offenders: seq<Address>,
                    spammers: set<Address>, n: nat, g: nat, limit: nat)
    requires Ranked(p0, p, locals, slots, offenders, spammers) && n <= |offenders| <= n + 1
    requires Lowered(p, p', offenders[..n], g) && Trimmed(p0, p, w)
    requires n < |offenders| ==> Lane(p.pending, offenders[n]) == Lane(p0.pending, offenders[n])
    requires Total(p'.pending) + n > limit
    ensures NoneInVain(p0, p', limit)
  {
    hide Total, Trimmed;
    var list := offenders[..n];
    forall a: Address ensures a in CutSenders(p0, p') <==> a in list {
      if a in list {
        assert Len(p', a) == g - 1 && Len(p, a) == g;
        assert a in p0.pending;
        assert Len(p, a) <= Len(p0, a) by { NeverLonger(p0, p, w, a); }
      } else {
        assert a in offenders ==> a == offenders[n];
      }
    }
    CountDistinct(list);
    assert CutSenders(p0, p') == SetOf(list);
  }

  lemma NeverLonger(p0: Pool, p: Pool, w: World, a: Address)
    requires Trimmed(p0, p, w)
    ensures Len(p, a) <= Len(p0, a)
  {
    var l, l0 := Lane(p.pending, a), Lane(p0.pending, a);
    assert LowPart(l, l0);
    assert l.Keys <= l0.Keys;
    SubsetSize(l.Keys, l0.Keys);
  }

  function SetOf(list: seq<Address>): set<Address> { set a | a in list }

  lemma {:induction false} CountDistinct(list: seq<Address>)
    requires Distinct(list)
    ensures |SetOf(list)| == |list|
  {
    if |list| > 0 {
      var rest, x := list[..|list| - 1], list[|list| - 1];
      CountDistinct(rest);
      LastApart(list, rest, x);
    }
  }

  lemma LastApart(list: seq<Address>, rest: seq<Address>, x: Address)
    requires Distinct(list) && list == rest + [x]
    ensures SetOf(list) == SetOf(rest) + {x} && x !in SetOf(rest)
  {
    forall i | 0 <= i < |rest| ensures rest[i] != x { assert list[i] != list[|rest|]; }
  }

  /** When the loops end. */
  lemma LimitsHold(p0: Pool, p: Pool, w: World, locals: set<Address>, cfg: Config, offenders: seq<Address>, spammers: set<Address>)
    requires Trimmed(p0, p, w) && Ranked(p0, p, locals, cfg.accountSlots, offenders, spammers) && CutFairly(p0, p, locals)
    requires Total(p0.pending) > cfg.globalSlots && NoneInVain(p0, p, cfg.globalSlots)
    requires Total(p.pending) <= cfg.globalSlots || (spammers == {} && forall a :: a in offenders ==> Len(p, a) <= cfg.accountSlots)
    ensures PendingLimited(p0, p, w, locals, cfg)
  {
    hide Total, NoneInVain;
    forall a: Address | a in locals ensures Lane(p.pending, a) == Lane(p0.pending, a) { assert a !in offenders; }
  }

  // ---------------------------------------------------------------- the queue limit

  function NoncesOf(txs: seq<Tx>): set<nat> { set tx | tx in txs :: tx.nonce }

  /** Several transactions of one sender leave the queue. */
  function Unqueue(p: Pool, a: Address, txs: seq<Tx>): Pool {
    p.(queue := if txs == [] then p.queue else PutLane(p.queue, a, Lane(p.queue, a) - NoncesOf(txs)),
       all := p.all - set tx | tx in txs)
  }

  /** `txs` are different transactions of the queue lane of `a`. */
  ghost predicate Queued(p: Pool, a: Address, txs: seq<Tx>) {
    && (forall i :: 0 <= i < |txs| ==> txs[i].nonce in Lane(p.queue, a) && Lane(p.queue, a)[txs[i].nonce] == txs[i])
    && (forall i, j :: 0 <= i < j < |txs| ==> txs[i].nonce != txs[j].nonce)
  }

  /** Removing queued transactions one by one with removeTx removes them from the queue and nothing else. */
  lemma UnqueueStep(p: Pool, w: World, a: Address, txs: seq<Tx>, i: nat)
    requires Sound(p) && i < |txs| && Queued(p, a, txs)
    ensures Remove(Unqueue(p, a, txs[..i]), w, txs[i]) == Unqueue(p, a, txs[..i + 1])
  {
    var p', x := Unqueue(p, a, txs[..i]), txs[i];
    EverySender(p, a);
    var q, done := Lane(p.queue, a), txs[..i];
    assert txs[..i + 1] == done + [x];
    assert x.nonce !in NoncesOf(done);
    assert Lane(p'.queue, a) == q - NoncesOf(done);
    assert NoncesOf(done + [x]) == NoncesOf(done) + {x.nonce};
    assert q - NoncesOf(done) - {x.nonce} == q - NoncesOf(done + [x]);
    assert x in p'.all;
    UnqueuedAll(p.all, done, x);
    PutTwice(p.queue, a, q - NoncesOf(done), q - NoncesOf(done + [x]));
  }

  lemma UnqueuedAll(all: set<Tx>, done: seq<Tx>, x: Tx)
    ensures all - (set tx | tx in done) - {x} == all - (set tx | tx in done + [x])
  {}

  lemma PutTwice(lanes: map<Address, Txs>, a: Address, l: Txs, l': Txs)
    ensures PutLane(PutLane(lanes, a, l), a, l') == PutLane(lanes, a, l')
  {}

  lemma {:induction false} NonceCount(txs: seq<Tx>)
    requires forall i, j :: 0 <= i < j < |txs| ==> txs[i].nonce != txs[j].nonce
    ensures |NoncesOf(txs)| == |txs|
  {
    if |txs| == 0 {
      assert NoncesOf(txs) == {};
    } else {
      var t, x := txs[..|txs| - 1], txs[|txs| - 1];
      assert txs == t + [x];
      NonceCount(t);
      assert NoncesOf(txs) == NoncesOf(t) + {x.nonce};
      assert x.nonce !in NoncesOf(t);
    }
  }

  lemma UnqueueTotal(p: Pool, a: Address, txs: seq<Tx>)
    requires Queued(p, a, txs)
    ensures |Lane(p.queue, a) - NoncesOf(txs)| == |Lane(p.queue, a)| - |txs|
    ensures Total(Unqueue(p, a, txs).queue) == Total(p.queue) - |txs|
  {
    hide Total;
    var q := Lane(p.queue, a);
    var l := q - NoncesOf(txs);
    NonceCount(txs);
    assert NoncesOf(txs) <= q.Keys;
    assert l.Keys == q.Keys - NoncesOf(txs);
    assert |q| == |q.Keys| && |l| == |l.Keys|;
    TotalPut(p.queue, a, l);
    TotalDrop(p.queue, a);
    assert l == map[] ==> |l| == 0;
  }

  function BeatOf(beats: map<Address, nat>, a: Address): nat { if a in beats then beats[a] else 0 }

  ghost predicate HasQueue(p: Pool, a: Address) { Lane(p.queue, a) != map[] }

  ghost predicate LostSome(p0: Pool, p: Pool, a: Address) { Lane(p.queue, a) != Lane(p0.queue, a) }

  /** Only remote lanes have lost, and only their highest nonces. */
  ghost predicate UnloadShape(p0: Pool, p: Pool, locals: set<Address>, todo: set<Address>) {
    && (forall a: Address :: LowPart(Lane(p.queue, a), Lane(p0.queue, a)))
    && (forall a :: a in todo ==> a !in locals && !LostSome(p0, p, a))
    && (forall a :: a in locals ==> !LostSome(p0, p, a))
  }

  /** Senders most recently heard of lose first. */
  ghost predicate UnloadOrder(p0: Pool, p: Pool, locals: set<Address>, beats: map<Address, nat>, todo: set<Address>) {
    forall a: Address, b: Address :: LostSome(p0, p, a) && (b in todo || (HasQueue(p, b) && b !in locals)) ==>
      BeatOf(beats, b) <= BeatOf(beats, a)
  }

  ghost predicate UnloadedAll(p0: Pool, p: Pool) {
    && p.all <= p0.all
    && forall tx :: tx in p0.all && tx !in p.all ==> tx.nonce in Lane(p0.queue, tx.sender) && tx.nonce !in Lane(p.queue, tx.sender)
  }

  /** The queue loop; `drop` is what is still over the limit. */
  ghost predicate Unloading(p0: Pool, p: Pool, locals: set<Address>, beats: map<Address, nat>, limit: nat, todo: set<Address>, drop: nat) {
    && p.pending == p0.pending && p.nonces == p0.nonces && Total(p.queue) == limit + drop
    && UnloadedAll(p0, p) && UnloadShape(p0, p, locals, todo) && UnloadOrder(p0, p, locals, beats, todo)
    && (drop > 0 ==> forall a :: HasQueue(p, a) ==> a in locals || a in todo)
  }

  /** What the queue limit ends with: nothing is dropped below the limit, and the limit is met or only
      local senders have queued transactions. */
  ghost predicate QueueLimited(p0: Pool, p: Pool, locals: set<Address>, beats: map<Address, nat>, cfg: Config) {
    if Total(p0.queue) <= cfg.globalQueue then p == p0
    else
      exists todo: set<Address>, drop: nat ::
        Unloading(p0, p, locals, beats, cfg.globalQueue, todo, drop) && (drop == 0 || todo == {})
  }

  /** The consequence the pool is configured for. */
  lemma QueueLimitHolds(p0: Pool, p: Pool, locals: set<Address>, beats: map<Address, nat>, cfg: Config)
    requires QueueLimited(p0, p, locals, beats, cfg)
    ensures Total(p.queue) <= cfg.globalQueue || forall a :: HasQueue(p, a) ==> a in locals
    ensures Total(p0.queue) > cfg.globalQueue ==> Total(p.queue) >= cfg.globalQueue
    ensures forall a :: a in locals ==> !LostSome(p0, p, a)
    ensures p.pending == p0.pending && p.nonces == p0.nonces
  {}

  /** One sender of the queue loop, taken because it was heard of last: its whole lane goes, or as many of
      its highest nonces as are still over the limit. */
  lemma UnloadStep(p0: Pool, p: Pool, locals: set<Address>, beats: map<Address, nat>, limit: nat, todo: set<Address>, drop: nat,
                   a: Address, txs: seq<Tx>)
    requires Sound(p) && Unloading(p0, p, locals, beats, limit, todo, drop) && 0 < |txs| <= drop
    requires a in todo && forall b :: b in todo ==> BeatOf(beats, b) <= BeatOf(beats, a)
    requires Queued(p, a, txs) && LowPart(Lane(p.queue, a) - NoncesOf(txs), Lane(p.queue, a))
    requires |txs| == drop || Lane(p.queue, a) - NoncesOf(txs) == map[]
    ensures Unloading(p0, Unqueue(p, a, txs), locals, beats, limit, todo - {a}, drop - |txs|)
  {
    hide Total, Sound, UnloadedAll, UnloadShape, UnloadOrder, Queued, LowPart, NoncesOf;
    var p', l := Unqueue(p, a, txs), Lane(p.queue, a) - NoncesOf(txs);
    EverySender(p, a);
    UnqueueTotal(p, a, txs);
    UnqueueLanes(p, a, txs);
    UnloadKnown(p0, p, a, txs, locals, todo);
    ShapeStep(p0, p, p', locals, todo, a, l);
    OrderStep(p0, p, p', locals, beats, todo, a, l);
  }

  /** Lane `a` becomes `l`, the others stay. */
  ghost predicate OneLane(p: Pool, p': Pool, a: Address, l: Txs) {
    && Lane(p'.queue, a) == l && l != Lane(p.queue, a)
    && (forall b: Address :: b != a ==> Lane(p'.queue, b) == Lane(p.queue, b))
  }

  lemma UnqueueLanes(p: Pool, a: Address, txs: seq<Tx>)
    requires Queued(p, a, txs) && |txs| > 0
    ensures OneLane(p, Unqueue(p, a, txs), a, Lane(p.queue, a) - NoncesOf(txs))
  {
    assert txs[0].nonce in Lane(p.queue, a) && txs[0].nonce in NoncesOf(txs);
  }

  lemma ShapeStep(p0: Pool, p: Pool, p': Pool, locals: set<Address>, todo: set<Address>, a: Address, l: Txs)
    requires UnloadShape(p0, p, locals, todo) && OneLane(p, p', a, l) && a in todo && LowPart(l, Lane(p.queue, a))
    ensures UnloadShape(p0, p', locals, todo - {a})
  {
    hide LowPart;
    forall b: Address ensures LowPart(Lane(p'.queue, b), Lane(p0.queue, b)) {
      assert LowPart(Lane(p.queue, b), Lane(p0.queue, b));
    }
  }

  lemma OrderStep(p0: Pool, p: Pool, p': Pool, locals: set<Address>, beats: map<Address, nat>, todo: set<Address>, a: Address, l: Txs)
    requires UnloadOrder(p0, p, locals, beats, todo) && OneLane(p, p', a, l) && a in todo
    requires forall b :: HasQueue(p, b) ==> b in locals || b in todo
    requires forall b :: b in todo ==> BeatOf(beats, b) <= BeatOf(beats, a)
    ensures UnloadOrder(p0, p', locals, beats, todo - {a})
  {
    forall x: Address, b: Address | LostSome(p0, p', x) && (b in todo - {a} || (HasQueue(p', b) && b !in locals))
      ensures BeatOf(beats, b) <= BeatOf(beats, x)
    {
      assert b in todo;
      if x != a { assert LostSome(p0, p, x); }
    }
  }

  lemma UnloadKnown(p0: Pool, p: Pool, a: Address, txs: seq<Tx>, locals: set<Address>, todo: set<Address>)
    requires SoundAt(p, a) && Queued(p, a, txs) && |txs| > 0 && UnloadedAll(p0, p) && UnloadShape(p0, p, locals, todo) && a in todo
    ensures UnloadedAll(p0, Unqueue(p, a, txs))
  {
    var p' := Unqueue(p, a, txs);
    UnqueueLanes(p, a, txs);
    forall tx | tx in p0.all && tx !in p'.all ensures tx.nonce in Lane(p0.queue, tx.sender) && tx.nonce !in Lane(p'.queue, tx.sender) {
      if tx in p.all {
        assert tx in txs;
        assert tx.nonce in NoncesOf(txs) && tx.sender == a;
      }
    }
  }
}
