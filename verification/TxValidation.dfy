/** validateTx (chain/core/tx_pool.go): which transactions the pool admits. */
module TxValidation {
  import opened Options
  import opened TxMap
  import opened TxListOps
  import opened PoolState
  import opened PoolMoves

  datatype Kind = Normal | SystemBase | UserBase | Extra | Stock | Other

  /** What validation looks at besides the transaction's nonce, price, cost and gas.  `minorKnown` says that
      the minor type lies in the range of the major type. */
  datatype Facts = Facts(kind: Kind, minorKnown: bool, size: nat, extraSize: nat, negative: bool, signed: bool, intrinsicGas: nat)

  datatype Reject =
    | OversizedData | OverExtraData | NegativeValue | GasLimit | InvalidSender | Underpriced | NonceTooLow
    | InsufficientFunds | IntrinsicGas | InvalidType | KnownTransaction | ReplaceUnderpriced

  const MAX_NORMAL_SIZE := 32 * 1024
  const MAX_EXTRA_SIZE := 5 * 1024 * 1024

  /** The checks of transactions that pay for their gas. */
  function ValidatePaying(w: World, gasPrice: nat, tx: Tx, f: Facts, local: bool): Option<Reject> {
    if w.maxGas < tx.gas then Some(GasLimit)
    else if !f.signed then Some(InvalidSender)
    else if !local && gasPrice > tx.price then Some(Underpriced)
    else if StateNonce(w, tx.sender) > tx.nonce then Some(NonceTooLow)
    else if Balance(w, tx.sender) < tx.cost then Some(InsufficientFunds)
    else if tx.gas < f.intrinsicGas then Some(IntrinsicGas)
    else None
  }

  /** The checks of the kinds that use no gas. */
  function ValidateFree(w: World, tx: Tx, f: Facts): Option<Reject> {
    if !f.signed then Some(InvalidSender)
    else if StateNonce(w, tx.sender) > tx.nonce then Some(NonceTooLow)
    else None
  }

  function Validate(w: World, locals: set<Address>, gasPrice: nat, tx: Tx, f: Facts, local: bool): Option<Reject> {
    if (f.kind == Normal || f.kind == SystemBase) && f.size > MAX_NORMAL_SIZE then Some(OversizedData)
    else if f.kind == Extra && f.extraSize > MAX_EXTRA_SIZE then Some(OverExtraData)
    else if f.negative then Some(NegativeValue)
    else if f.kind == Normal then ValidatePaying(w, gasPrice, tx, f, local || tx.sender in locals)
    else if f.kind == Other || !f.minorKnown then Some(InvalidType)
    else if f.kind == Extra then ValidatePaying(w, gasPrice, tx, f, local || tx.sender in locals)
    else ValidateFree(w, tx, f)
  }

  /** An admitted transaction is signed and not below the state's nonce, whatever its kind. */
  lemma AdmittedNonce(w: World, locals: set<Address>, gasPrice: nat, tx: Tx, f: Facts, local: bool)
    requires Validate(w, locals, gasPrice, tx, f, local) == None
    ensures tx.nonce >= StateNonce(w, tx.sender) && f.signed
  {}

  /** Exactly these normal and extra transactions are admitted: of known type and size, signed, not below the
      state's nonce, within the block's gas and the sender's balance, with gas for their own data, and unless local
      at the pool's price. */
  lemma AdmittedPayingIff(w: World, locals: set<Address>, gasPrice: nat, tx: Tx, f: Facts, local: bool)
    requires f.kind == Normal || f.kind == Extra
    ensures Validate(w, locals, gasPrice, tx, f, local) == None <==>
              && (if f.kind == Normal then f.size <= 32768 else f.extraSize <= 5242880 && f.minorKnown) && !f.negative
              && f.signed && StateNonce(w, tx.sender) <= tx.nonce
              && tx.gas <= w.maxGas && tx.cost <= Balance(w, tx.sender) && f.intrinsicGas <= tx.gas
              && (local || tx.sender in locals || gasPrice <= tx.price)
  {}

  /** And of the other kinds those of known type, signed and not below the state's nonce. */
  lemma AdmittedFreeIff(w: World, locals: set<Address>, gasPrice: nat, tx: Tx, f: Facts, local: bool)
    requires f.kind != Normal && f.kind != Extra
    ensures Validate(w, locals, gasPrice, tx, f, local) == None <==>
              && f.kind != Other && f.minorKnown && (f.kind == SystemBase ==> f.size <= 32768) && !f.negative
              && f.signed && StateNonce(w, tx.sender) <= tx.nonce
  {}

  /** Admission promises payment only for the kinds that pay gas: an admitted transaction survives the
      filter of the next promotion whatever the sender's balance exactly when it is of such a kind. */
  lemma AdmittedPayableIff(kind: Kind)
    ensures (forall w: World, locals: set<Address>, gasPrice: nat, tx: Tx, f: Facts, local: bool ::
               f.kind == kind && Validate(w, locals, gasPrice, tx, f, local) == None ==> !Costly(Balance(w, tx.sender), w.maxGas, tx))
            <==> kind in {Normal, Extra, Other}
  {
    var w, tx := World(map[], map[], 0), Tx(0, 0, 0, 1, 0, 0);
    var f := Facts(kind, true, 0, 0, false, true, 0);
    if kind !in {Normal, Extra, Other} {
      assert Validate(w, {}, 0, tx, f, false) == None && Costly(Balance(w, tx.sender), w.maxGas, tx);
    }
  }

  /** Admitted, queued, and dropped by the promotion that follows: the pool reports success for it. */
  lemma UnpayableVanishes(p: Pool, w: World, locals: set<Address>, cfg: Config, tx: Tx)
    requires Sound(p) && tx.nonce !in Lane(p.pending, tx.sender) && tx.nonce !in Lane(p.queue, tx.sender)
    requires Costly(Balance(w, tx.sender), w.maxGas, tx)
    ensures tx !in PromoteAccount(Enqueue(p, tx, cfg.priceBump), w, locals, cfg, tx.sender).all
  {
    var p1, a := Enqueue(p, tx, cfg.priceBump), tx.sender;
    EnqueueSound(p, tx, cfg.priceBump);
    EverySender(p1, a);
    hide PromoteAccount, PromoteWith, Sound;
    assert Lane(p1.queue, a)[tx.nonce] == tx;
    var p2 := PromoteAccount(p1, w, locals, cfg, a);
    NotPlaced(p1, w, locals, cfg, tx);
  }

  lemma NotPlaced(p: Pool, w: World, locals: set<Address>, cfg: Config, tx: Tx)
    requires SoundAt(p, tx.sender) && tx.nonce in Lane(p.queue, tx.sender) && Lane(p.queue, tx.sender)[tx.nonce] == tx
    requires Costly(Balance(w, tx.sender), w.maxGas, tx)
    ensures tx !in PromoteAccount(p, w, locals, cfg, tx.sender).all
  {
    hide ReadyRun, Limited, SoundAt;
    var a := tx.sender;
    var q := Payable(p.queue[a], w, a);
    var r := ReadyRun(q, NextNonce(p, w, a));
    ReadyWithin(q, NextNonce(p, w, a));
    LimitedWithin(Rest(q, r), a in locals, cfg.accountQueue);
    assert tx.nonce !in q;
  }
}
