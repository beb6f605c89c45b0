/** Whole runs of the pool: between chain heads, and across a new head. */
module PoolRuns {
  import opened TxMap
  import opened PoolState
  import opened PoolMoves
  import opened PoolReset

  // ---------------------------------------------------------------- between heads

  /** The moves all public operations are made of. */
  datatype Op =
    | Queue(tx: Tx)
    | Better(tx: Tx)
    | Drop(tx: Tx)
    | Promote(account: Address)
    | Trim(account: Address)

  /** add queues only nonces that are not pending and that the state has not passed, replaces only what is
      pending, and the fairness limit trims only lanes that hold something. */
  ghost predicate Allowed(p: Pool, w: World, op: Op) {
    match op
    case Queue(tx) => tx.nonce !in Lane(p.pending, tx.sender) && tx.nonce >= StateNonce(w, tx.sender)
    case Better(tx) => tx.nonce in Lane(p.pending, tx.sender)
    case Drop(_) => true
    case Promote(_) => true
    case Trim(a) => Lane(p.pending, a) != map[]
  }

  function Apply(p: Pool, w: World, locals: set<Address>, cfg: Config, op: Op): Pool
    requires Allowed(p, w, op)
  {
    match op
    case Queue(tx) => Enqueue(p, tx, cfg.priceBump)
    case Better(tx) => Replace(p, tx)
    case Drop(tx) => Remove(p, w, tx)
    case Promote(a) => PromoteAccount(p, w, locals, cfg, a)
    case Trim(a) => DropTop(p, w, a)
  }

  lemma ApplySound(p: Pool, w: World, locals: set<Address>, cfg: Config, op: Op)
    requires Sound(p) && Allowed(p, w, op)
    ensures Sound(Apply(p, w, locals, cfg, op))
  {
    hide Sound, Enqueue, Replace, Remove, PromoteAccount, DropTop, Tight;
    match op
    case Queue(tx) => EnqueueSound(p, tx, cfg.priceBump);
    case Better(tx) => ReplaceKeeps(p, w, tx);
    case Drop(tx) => RemoveSound(p, w, tx);
    case Promote(a) => PromoteSound(p, w, locals, cfg, a);
    case Trim(a) => DropTopKeeps(p, w, a);
  }

  lemma ApplyTight(p: Pool, w: World, locals: set<Address>, cfg: Config, op: Op)
    requires Sound(p) && Allowed(p, w, op)
    ensures KeepsTight(p, Apply(p, w, locals, cfg, op), w)
  {
    hide Sound, Enqueue, Replace, Remove, PromoteAccount, DropTop, KeepsTight;
    match op
    case Queue(tx) => EnqueueSound(p, tx, cfg.priceBump); EnqueueTight(p, w, tx, cfg.priceBump);
    case Better(tx) => ReplaceKeeps(p, w, tx);
    case Drop(tx) => RemoveTight(p, w, tx);
    case Promote(a) => PromoteTight(p, w, locals, cfg, a);
    case Trim(a) => DropTopKeeps(p, w, a);
  }

  /** Of all moves only one loses transactions: dropping the first of several pending ones. */
  lemma ApplyLosesIff(p: Pool, w: World, locals: set<Address>, cfg: Config, op: Op)
    requires Sound(p) && NoneLost(p) && Allowed(p, w, op)
    ensures NoneLost(Apply(p, w, locals, cfg, op)) <==> !(op.Drop? && op.tx in p.all && HeadsOthers(p, op.tx))
  {
    hide Sound, Enqueue, Replace, Remove, PromoteAccount, DropTop, NoneLost, HeadsOthers;
    match op
    case Queue(tx) => EnqueueLosesNone(p, tx, cfg.priceBump);
    case Better(tx) => ReplaceLosesNone(p, w, tx);
    case Drop(tx) =>
      if tx in p.all { RemoveLosesIff(p, w, tx); } else { RemoveUnknown(p, w, tx); }
    case Promote(a) => PromoteLosesNone(p, w, locals, cfg, a);
    case Trim(a) => DropTopLosesNone(p, w, a);
  }

  lemma RemoveUnknown(p: Pool, w: World, tx: Tx)
    requires tx !in p.all
    ensures Remove(p, w, tx) == p
  {}

  /** A run: every pool follows from the one before by an allowed move. */
  ghost predicate IsRun(pools: seq<Pool>, w: World, locals: set<Address>, cfg: Config, ops: seq<Op>) {
    && |pools| == |ops| + 1
    && forall i {:trigger ops[i]} :: 0 <= i < |ops| ==>
         Allowed(pools[i], w, ops[i]) && pools[i + 1] == Apply(pools[i], w, locals, cfg, ops[i])
  }

  /** Every state of every run between two heads keeps both invariants: no nonce is in both lanes and
      everything in a lane is known; and of each sender of whom this held, the pending nonces are exactly the
      interval from the state's nonce to the tracked one and the queue lies above it. */
  lemma {:induction false} EveryRun(pools: seq<Pool>, w: World, locals: set<Address>, cfg: Config, ops: seq<Op>, k: nat)
    requires IsRun(pools, w, locals, cfg, ops) && k < |pools| && Sound(pools[0])
    ensures Sound(pools[k]) && KeepsTight(pools[0], pools[k], w)
  {
    hide Sound, KeepsTight, Apply, Allowed;
    if k > 0 {
      EveryRun(pools, w, locals, cfg, ops, k - 1);
      var op := ops[k - 1];
      ApplySound(pools[k - 1], w, locals, cfg, op);
      ApplyTight(pools[k - 1], w, locals, cfg, op);
      KeepsThen(pools[0], pools[k - 1], pools[k], w);
    } else {
      KeepsSelf(pools[0], w);
    }
  }

  // ---------------------------------------------------------------- across a head

  function DemoteAll(p: Pool, w: World, accounts: seq<Address>): Pool {
    if |accounts| == 0 then p
    else DemoteAccount(DemoteAll(p, w, accounts[..|accounts| - 1]), w, accounts[|accounts| - 1])
  }

  function PromoteAll(p: Pool, w: World, locals: set<Address>, cfg: Config, accounts: seq<Address>): Pool {
    if |accounts| == 0 then p
    else PromoteAccount(PromoteAll(p, w, locals, cfg, accounts[..|accounts| - 1]), w, locals, cfg, accounts[|accounts| - 1])
  }

  lemma {:induction false} DemoteAllSound(p: Pool, w: World, accounts: seq<Address>)
    requires Sound(p)
    ensures Sound(DemoteAll(p, w, accounts))
  {
    hide DemoteAccount, Sound;
    if |accounts| > 0 {
      DemoteAllSound(p, w, accounts[..|accounts| - 1]);
      DemoteSound(DemoteAll(p, w, accounts[..|accounts| - 1]), w, accounts[|accounts| - 1]);
    }
  }

  lemma {:induction false} PromoteAllSound(p: Pool, w: World, locals: set<Address>, cfg: Config, accounts: seq<Address>)
    requires Sound(p)
    ensures Sound(PromoteAll(p, w, locals, cfg, accounts))
    ensures KeepsTight(p, PromoteAll(p, w, locals, cfg, accounts), w)
  {
    hide PromoteAccount, Sound, KeepsTight;
    if |accounts| > 0 {
      var rest, last := accounts[..|accounts| - 1], accounts[|accounts| - 1];
      PromoteAllSound(p, w, locals, cfg, rest);
      var q := PromoteAll(p, w, locals, cfg, rest);
      PromoteSound(q, w, locals, cfg, last);
      PromoteTight(q, w, locals, cfg, last);
      KeepsThen(p, q, PromoteAccount(q, w, locals, cfg, last), w);
    } else {
      KeepsSelf(p, w);
    }
  }

  /** Each account is demoted once, from the lanes it had. */
  lemma {:induction false} DemoteAllAt(p: Pool, w: World, accounts: seq<Address>, a: Address)
    requires Sound(p) && Distinct(accounts)
    ensures DemoteAll(p, w, accounts).nonces == p.nonces
    ensures a !in accounts ==> DemoteAll(p, w, accounts).pending.Keys * {a} == p.pending.Keys * {a}
    ensures a !in accounts ==> Lane(DemoteAll(p, w, accounts).pending, a) == Lane(p.pending, a)
    ensures a !in accounts ==> Lane(DemoteAll(p, w, accounts).queue, a) == Lane(p.queue, a)
    ensures a in accounts ==> Lane(DemoteAll(p, w, accounts).pending, a) == Remaining(Lane(p.pending, a), w, a)
    ensures a in accounts ==> Lane(DemoteAll(p, w, accounts).queue, a) == Lane(p.queue, a) + Demoted(Lane(p.pending, a), w, a)
    ensures a in accounts && a in DemoteAll(p, w, accounts).pending ==> DemoteAll(p, w, accounts).pending[a] != map[]
  {
    hide Remaining, Demoted, Sound, DemoteAccount;
    if |accounts| > 0 {
      var rest, last := accounts[..|accounts| - 1], accounts[|accounts| - 1];
      assert accounts == rest + [last];
      DemoteAllAt(p, w, rest, a);
      DemoteAllSound(p, w, rest);
      var q := DemoteAll(p, w, rest);
      DemoteSound(q, w, last);
      DemoteOne(q, w, last, a);
      assert last !in rest;
    }
  }

  lemma DemoteOne(p: Pool, w: World, last: Address, a: Address)
    requires OnlyTouches(p, DemoteAccount(p, w, last), last)
    ensures DemoteAccount(p, w, last).nonces == p.nonces
    ensures a != last ==> DemoteAccount(p, w, last).pending.Keys * {a} == p.pending.Keys * {a}
    ensures a != last ==> Lane(DemoteAccount(p, w, last).pending, a) == Lane(p.pending, a)
    ensures a != last ==> Lane(DemoteAccount(p, w, last).queue, a) == Lane(p.queue, a)
    ensures a == last ==> Lane(DemoteAccount(p, w, last).pending, a) == Remaining(Lane(p.pending, a), w, a)
    ensures a == last ==> Lane(DemoteAccount(p, w, last).queue, a) == Lane(p.queue, a) + Demoted(Lane(p.pending, a), w, a)
    ensures a in DemoteAccount(p, w, last).pending && a != last ==>
              a in p.pending && DemoteAccount(p, w, last).pending[a] == p.pending[a]
    ensures a in DemoteAccount(p, w, last).pending && a == last ==> DemoteAccount(p, w, last).pending[a] != map[]
  {
    hide Remaining, Demoted, OnlyTouches;
  }

  /** The lanes are in order, whatever state they were ordered for. */
  ghost predicate InOrder(p: Pool, a: Address) { exists lo: nat, hi: nat :: OrderedAt(p, a, lo, hi) }

  lemma TightInOrder(p: Pool, w: World, a: Address)
    requires TightAt(p, w, a)
    ensures InOrder(p, a)
  {
    assert OrderedAt(p, a, StateNonce(w, a), NextNonce(p, w, a));
  }

  lemma NoEmptyLanes(p: Pool, w: World, accounts: seq<Address>)
    requires Sound(p) && Distinct(accounts) && forall a :: a in p.pending ==> a in accounts
    ensures forall a :: a in DemoteAll(p, w, accounts).pending ==> DemoteAll(p, w, accounts).pending[a] != map[]
  {
    var q := DemoteAll(p, w, accounts);
    forall a | a in q.pending ensures q.pending[a] != map[] {
      DemoteAllAt(p, w, accounts, a);
      assert a in q.pending.Keys * {a};
      assert a !in accounts ==> a in p.pending;
    }
  }

  /** Demoting every pending account and tracking what is left settles a sender in order under any state. */
  lemma DemoteAllSettles(p: Pool, w: World, accounts: seq<Address>, a: Address)
    requires Sound(p) && InOrder(p, a) && a !in p.nonces
    requires Distinct(accounts) && forall b :: b in p.pending ==> b in accounts
    requires forall b :: b in DemoteAll(p, w, accounts).pending ==> DemoteAll(p, w, accounts).pending[b] != map[]
    ensures SettledAt(TrackPending(DemoteAll(p, w, accounts)), w, a)
  {
    hide Sound, DemoteAll, LaneTop;
    var t := TrackPending(DemoteAll(p, w, accounts));
    DemoteAllAt(p, w, accounts, a);
    EverySender(p, a);
    var lo: nat, hi: nat :| OrderedAt(p, a, lo, hi);
    if a in accounts {
      DemoteSettles(p, w, a, lo, hi, t);
    } else {
      assert Lane(p.pending, a) == map[];
      assert a !in p.pending.Keys * {a};
      assert Spans(Lane(t.pending, a), StateNonce(w, a), NextNonce(t, w, a));
      assert a !in t.nonces;
    }
  }

  /** Working off every queued account makes a settled sender tight. */
  lemma {:induction false} PromoteAllTightens(p: Pool, w: World, locals: set<Address>, cfg: Config, accounts: seq<Address>, a: Address)
    requires Sound(p) && SettledAt(p, w, a)
    ensures if a in accounts then TightAt(PromoteAll(p, w, locals, cfg, accounts), w, a)
            else SettledAt(PromoteAll(p, w, locals, cfg, accounts), w, a) &&
                 Lane(PromoteAll(p, w, locals, cfg, accounts).queue, a) == Lane(p.queue, a)
  {
    hide Sound, PromoteAccount, TightAt, SettledAt, OnlyTouches;
    if |accounts| > 0 {
      var rest, last := accounts[..|accounts| - 1], accounts[|accounts| - 1];
      assert accounts == rest + [last];
      PromoteAllTightens(p, w, locals, cfg, rest, a);
      PromoteAllSound(p, w, locals, cfg, rest);
      var q := PromoteAll(p, w, locals, cfg, rest);
      PromoteSound(q, w, locals, cfg, last);
      if last == a {
        if a in rest { TightSettled(q, w, a); }
        PromoteTightens(q, w, locals, cfg, a);
      } else {
        SettledElsewhere(q, PromoteAccount(q, w, locals, cfg, last), w, last, a);
      }
    }
  }

  lemma SettledElsewhere(p: Pool, p': Pool, w: World, last: Address, a: Address)
    requires OnlyTouches(p, p', last) && a != last
    ensures SettledAt(p', w, a) == SettledAt(p, w, a) && TightAt(p', w, a) == TightAt(p, w, a)
    ensures Lane(p'.queue, a) == Lane(p.queue, a)
  {}

  /** The end of reset: whatever the new state is, a sender whose lanes are in order and whose nonce is not
      tracked is tight once the pending accounts are demoted and the queued ones promoted. */
  lemma ResetRestores(p: Pool, w: World, locals: set<Address>, cfg: Config, demoted: seq<Address>, promoted: seq<Address>,
                      p1: Pool, a: Address)
    requires Sound(p) && InOrder(p, a) && a !in p.nonces
    requires Distinct(demoted) && forall b :: b in p.pending ==> b in demoted
    requires p1 == DemoteAll(p, w, demoted)
    requires forall b :: b in p1.queue ==> b in promoted
    ensures forall b :: b in p1.pending ==> p1.pending[b] != map[]
    ensures TightAt(PromoteAll(TrackPending(p1), w, locals, cfg, promoted), w, a)
  {
    hide DemoteAll, PromoteAll, Sound, SettledAt, InOrder;
    NoEmptyLanes(p, w, demoted);
    DemoteAllSettles(p, w, demoted, a);
    DemoteAllSound(p, w, demoted);
    TrackSound(p1);
    var t := TrackPending(p1);
    PromoteAllTightens(t, w, locals, cfg, promoted, a);
    if a !in promoted { UnqueuedTight(PromoteAll(t, w, locals, cfg, promoted), w, a); }
  }

  lemma UnqueuedTight(p: Pool, w: World, a: Address)
    requires SettledAt(p, w, a) && Lane(p.queue, a) == map[]
    ensures TightAt(p, w, a)
  {}
}
