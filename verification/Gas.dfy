/** Gas accounting of normal transactions (chain/core/state_transition.go, gaspool.go, state_processor.go).
    The virtual machine is a parameter: it may change any balance, raise any nonce and returns at most the gas it
    was given. */
module Gas {

  datatype Result<T> = Ok(value: T) | Err(error: Error)

  datatype Error = OutOfGas | InsufficientBalanceForGas | GasLimitReached | NonceTooHigh | NonceTooLow | InsufficientBalance

  type Address = nat
  type Balances = map<Address, nat>

  const MAX_UINT64 := 0xFFFF_FFFF_FFFF_FFFF
  const TX_GAS := 21000
  const TX_GAS_CREATION := 53000
  const NONZERO_GAS := 68
  const ZERO_GAS := 4

  datatype Message = Message(from: Address, nonce: nat, checkNonce: bool, gas: nat, price: nat, data: seq<bv8>, creates: bool)

  /** How a call of the virtual machine ended. */
  datatype Failure = NoFailure | Broke | OtherFailure

  type Nonces = map<Address, nat>

  datatype Outcome = Outcome(left: nat, refund: nat, balances: Balances, nonces: Nonces, failure: Failure)

  type Machine = (nat, Balances, Nonces) -> Outcome

  /** The machine returns at most the gas it was given, and no nonce falls: a contract that creates another one
      raises its own. */
  ghost predicate Thrifty(evm: Machine) {
    forall gas: nat, balances: Balances, nonces: Nonces ::
      evm(gas, balances, nonces).left <= gas && NoneFalls(nonces, evm(gas, balances, nonces).nonces)
  }

  ghost predicate NoneFalls(nonces: Nonces, nonces': Nonces) { forall a :: NonceOf(nonces', a) >= NonceOf(nonces, a) }

  function BalanceOf(balances: Balances, a: Address): nat { if a in balances then balances[a] else 0 }

  // ---------------------------------------------------------------- the intrinsic cost

  /** Every data byte costs by whether it is zero. */
  function DataGas(data: seq<bv8>): nat {
    if |data| == 0 then 0 else DataGas(data[..|data| - 1]) + if data[|data| - 1] == 0 then ZERO_GAS else NONZERO_GAS
  }

  function Intrinsic(msg: Message): nat { (if msg.creates then TX_GAS_CREATION else TX_GAS) + DataGas(msg.data) }

  /** The places of the bytes that are not zero. */
  ghost function NonZero(data: seq<bv8>): set<nat> { set i: nat | i < |data| && data[i] != 0 }

  lemma NonZeroMore(data: seq<bv8>, i: nat)
    requires i < |data|
    ensures |NonZero(data[..i + 1])| == |NonZero(data[..i])| + if data[i] != 0 then 1 else 0
  {
    assert NonZero(data[..i + 1]) == NonZero(data[..i]) + if data[i] != 0 then {i} else {};
  }

  /** IntrinsicGas counts the nonzero bytes; that charges every byte its own price. */
  method IntrinsicGas(msg: Message) returns (gas: nat)
    ensures gas == Intrinsic(msg)
    ensures gas == (if msg.creates then 53000 else 21000) + 68 * |NonZero(msg.data)| + 4 * (|msg.data| - |NonZero(msg.data)|)
  {
    gas := if msg.creates then TX_GAS_CREATION else TX_GAS;
    var nonZero: nat := 0;
    var i := 0;
    while i < |msg.data|
      invariant 0 <= i <= |msg.data| && nonZero == |NonZero(msg.data[..i])| <= i
      invariant DataGas(msg.data[..i]) == nonZero * NONZERO_GAS + (i - nonZero) * ZERO_GAS
    {
      assert msg.data[..i + 1][..i] == msg.data[..i];
      NonZeroMore(msg.data, i);
      if msg.data[i] != 0 { nonZero := nonZero + 1; }
      i := i + 1;
    }
    assert msg.data[..|msg.data|] == msg.data;
    gas := gas + nonZero * NONZERO_GAS + (|msg.data| - nonZero) * ZERO_GAS;
  }

  // ---------------------------------------------------------------- the pool and the ledger

  class GasPool {
    var amount: nat

    constructor (amount: nat)
      ensures this.amount == amount
    {
      this.amount := amount;
    }

    method AddGas(gas: nat)
      modifies this
      ensures amount == old(amount) + gas
    {
      amount := amount + gas;
    }

    method SubGas(gas: nat) returns (ok: bool)
      modifies this
      ensures ok <==> old(amount) >= gas
      ensures amount == if ok then old(amount) - gas else old(amount)
    {
      if amount < gas { return false; }
      amount := amount - gas;
      return true;
    }
  }

  class Ledger {
    var balances: Balances
    var nonces: Nonces

    constructor (balances: Balances, nonces: Nonces)
      ensures this.balances == balances && this.nonces == nonces
    {
      this.balances, this.nonces := balances, nonces;
    }
  }

  // ---------------------------------------------------------------- one transaction

  datatype Used = Used(required: nat, used: nat, failed: bool)

  /** Gas pool, balances and nonces together. */
  datatype Book = Book(pool: nat, balances: Balances, nonces: Nonces)

  datatype Step = Step(result: Result<Used>, book: Book)

  function Cost(gas: nat, price: nat): nat { gas * price }

  lemma CostAdds(a: nat, b: nat, price: nat)
    ensures Cost(a + b, price) == Cost(a, price) + Cost(b, price)
  {}

  function NonceOf(nonces: Nonces, a: Address): nat { if a in nonces then nonces[a] else 0 }

  /** Why a transaction is refused before its gas is bought (preCheck, buyGas). */
  function Refusal(b: Book, msg: Message): Result<()> {
    if msg.checkNonce && NonceOf(b.nonces, msg.from) < msg.nonce then Err(NonceTooHigh)
    else if msg.checkNonce && NonceOf(b.nonces, msg.from) > msg.nonce then Err(NonceTooLow)
    else if msg.gas > MAX_UINT64 then Err(OutOfGas)
    else if BalanceOf(b.balances, msg.from) < Cost(msg.gas, msg.price) then Err(InsufficientBalanceForGas)
    else if b.pool < msg.gas then Err(GasLimitReached)
    else Ok(())
  }

  /** The book after the gas was bought. */
  function Bought(b: Book, msg: Message): Book
    requires Refusal(b, msg).Ok?
  {
    b.(pool := b.pool - msg.gas, balances := b.balances[msg.from := BalanceOf(b.balances, msg.from) - Cost(msg.gas, msg.price)])
  }

  /** The sender's nonce goes up by one before any code runs. */
  function Raised(b: Book, msg: Message): Nonces { b.nonces[msg.from := NonceOf(b.nonces, msg.from) + 1] }

  /** What the machine makes of an accepted message. */
  function Ran(b: Book, msg: Message, evm: Machine): Outcome
    requires Refusal(b, msg).Ok? && Intrinsic(msg) <= msg.gas
  {
    evm(msg.gas - Intrinsic(msg), Bought(b, msg).balances, Raised(b, msg))
  }

  /** Is `r` the greatest amount within the counter and half of the gas required? */
  ghost predicate Greatest(r: nat, required: nat, counter: nat) {
    r <= counter && 2 * r <= required && forall q: nat :: q <= counter && 2 * q <= required ==> q <= r
  }

  /** The half of the gas used bounds the refund. */
  function Refund(required: nat, counter: nat): (r: nat)
    ensures Greatest(r, required, counter)
  {
    if required / 2 < counter then required / 2 else counter
  }

  function Credit(balances: Balances, a: Address, amount: nat): Balances { balances[a := BalanceOf(balances, a) + amount] }

  /** A creation raises the nonce only once the sender is known to be able to pay (Create). */
  function NextNonces(b: Book, msg: Message, out: Outcome): Nonces {
    if msg.creates && out.failure == Broke then b.nonces else out.nonces
  }

  /** NormalTransitionDb. */
  function Transition(b: Book, msg: Message, evm: Machine): Step
    requires Thrifty(evm)
  {
    if Refusal(b, msg).Err? then Step(Err(Refusal(b, msg).error), b)
    else if Intrinsic(msg) > msg.gas then Step(Err(OutOfGas), Bought(b, msg))
    else
      var out := Ran(b, msg, evm);
      var ran := Bought(b, msg).(balances := out.balances, nonces := NextNonces(b, msg, out));
      if out.failure == Broke then Step(Err(InsufficientBalance), ran)
      else
        var required := msg.gas - out.left;
        var refund := Refund(required, out.refund);
        Step(Ok(Used(required, required - refund, out.failure != NoFailure)),
             ran.(pool := ran.pool + out.left + refund,
                  balances := Credit(Credit(ran.balances, msg.from, Cost(out.left, msg.price)), msg.from, Cost(refund, msg.price))))
  }

  /** A message is accepted, and its gas bought, exactly under these conditions. */
  lemma AcceptedIff(b: Book, msg: Message)
    ensures Refusal(b, msg).Ok? <==>
              && (msg.checkNonce ==> NonceOf(b.nonces, msg.from) == msg.nonce) && msg.gas <= MAX_UINT64
              && msg.gas * msg.price <= BalanceOf(b.balances, msg.from) && msg.gas <= b.pool
  {}

  /** A successful transaction required what the machine did not leave, at least the intrinsic gas.  The greatest
      amount within half of that and the machine's refund counter comes back.  The pool falls by exactly the
      rest, which is the gas used; nothing leaves 64 bits. */
  lemma PoolFallsByUse(b: Book, msg: Message, evm: Machine)
    requires Thrifty(evm) && Transition(b, msg, evm).result.Ok?
    ensures Refusal(b, msg).Ok? && Intrinsic(msg) <= msg.gas
    ensures var r, b', out := Transition(b, msg, evm).result.value, Transition(b, msg, evm).book, Ran(b, msg, evm);
            && r.required == msg.gas - out.left && r.used <= r.required && Greatest(r.required - r.used, r.required, out.refund)
            && b'.pool == b.pool - r.used && Intrinsic(msg) <= r.required <= msg.gas <= MAX_UINT64
            && (r.failed <==> out.failure == OtherFailure)
  {
    hide Intrinsic, Cost;
  }

  /** The sender pays for gas exactly the gas used times its price, on top of what the machine did with its
      balance; other balances are the machine's. */
  lemma SenderPaysForUse(b: Book, msg: Message, evm: Machine, r: Used, out: Outcome)
    requires Thrifty(evm) && Transition(b, msg, evm).result == Ok(r) && Intrinsic(msg) <= msg.gas && Refusal(b, msg).Ok?
    requires out == Ran(b, msg, evm)
    ensures var b' := Transition(b, msg, evm).book;
            && (BalanceOf(b.balances, msg.from) - BalanceOf(Bought(b, msg).balances, msg.from))
               - (BalanceOf(b'.balances, msg.from) - BalanceOf(out.balances, msg.from)) == r.used * msg.price
            && forall a :: a != msg.from ==> BalanceOf(b'.balances, a) == BalanceOf(out.balances, a)
  {
    CostIs(r.used, msg.price);
    hide Intrinsic, Cost;
    CostAdds(out.left, r.required - r.used, msg.price);
    CostAdds(out.left + (r.required - r.used), r.used, msg.price);
  }

  lemma CostIs(gas: nat, price: nat)
    ensures Cost(gas, price) == gas * price
  {}

  /** A failed transaction raises its sender's nonce only if the machine was asked to make a call. */
  lemma FailureNonces(b: Book, msg: Message, evm: Machine)
    requires Thrifty(evm) && Transition(b, msg, evm).result.Err?
    ensures Refusal(b, msg).Err? || Intrinsic(msg) > msg.gas || msg.creates ==> Transition(b, msg, evm).book.nonces == b.nonces
    ensures Refusal(b, msg).Ok? && Intrinsic(msg) <= msg.gas && !msg.creates ==>
              NonceOf(Transition(b, msg, evm).book.nonces, msg.from) > NonceOf(b.nonces, msg.from)
  {
    hide Intrinsic, Cost;
    if Refusal(b, msg).Ok? && Intrinsic(msg) <= msg.gas { assert NoneFalls(Raised(b, msg), Ran(b, msg, evm).nonces); }
  }

  /** A failed transaction gives nothing back to the pool: it is untouched exactly when the message was
      refused before gas was bought (or asked for none). */
  lemma FailureKeepsPoolIff(b: Book, msg: Message, evm: Machine)
    requires Thrifty(evm) && Transition(b, msg, evm).result.Err?
    ensures Transition(b, msg, evm).book.pool == b.pool <==> Refusal(b, msg).Err? || msg.gas == 0
  {
    hide Intrinsic, Cost;
  }

  /** A message that cannot pay its intrinsic cost takes the whole pool with it, whatever the machine. */
  lemma FailureCanEmptyPool(evm: Machine)
    requires Thrifty(evm)
    ensures var msg := Message(7, 0, true, TX_GAS - 1, 1, [], false);
            var b := Book(TX_GAS - 1, map[7 := TX_GAS], map[]);
            && Transition(b, msg, evm).result == Err(OutOfGas)
            && Transition(b, msg, evm).book.pool == 0
            && BalanceOf(Transition(b, msg, evm).book.balances, 7) == 1
  {
    assert DataGas([]) == 0;
  }

  /** A transaction that was carried out raises its sender's nonce, by exactly one unless the machine raised it
      too; no nonce falls and no other rises but by the machine; and the same message cannot be carried out again. */
  lemma NonceRises(b: Book, msg: Message, evm: Machine)
    requires Thrifty(evm) && Transition(b, msg, evm).result.Ok?
    ensures Refusal(b, msg).Ok? && Intrinsic(msg) <= msg.gas
    ensures NoneFalls(b.nonces, Transition(b, msg, evm).book.nonces)
    ensures NonceOf(Transition(b, msg, evm).book.nonces, msg.from) >= NonceOf(b.nonces, msg.from) + 1
    ensures forall a :: NonceOf(Ran(b, msg, evm).nonces, a) == NonceOf(Raised(b, msg), a) ==>
              NonceOf(Transition(b, msg, evm).book.nonces, a) == NonceOf(b.nonces, a) + if a == msg.from then 1 else 0
    ensures msg.checkNonce ==> Refusal(Transition(b, msg, evm).book, msg) == Err(NonceTooLow)
  {
    hide Intrinsic, Cost;
    assert NoneFalls(Raised(b, msg), Ran(b, msg, evm).nonces);
  }

  /** preCheck and buyGas. */
  method PreCheck(pool: GasPool, ledger: Ledger, msg: Message) returns (result: Result<()>)
    modifies pool, ledger
    ensures result == Refusal(old(Book(pool.amount, ledger.balances, ledger.nonces)), msg)
    ensures result.Err? ==> Book(pool.amount, ledger.balances, ledger.nonces) == old(Book(pool.amount, ledger.balances, ledger.nonces))
    ensures result.Ok? ==>
              Book(pool.amount, ledger.balances, ledger.nonces) == Bought(old(Book(pool.amount, ledger.balances, ledger.nonces)), msg)
  {
    hide Cost;
    var nonce := NonceOf(ledger.nonces, msg.from);
    if msg.checkNonce {
      if nonce < msg.nonce { return Err(NonceTooHigh); }
      if nonce > msg.nonce { return Err(NonceTooLow); }
    }
    if msg.gas > MAX_UINT64 { return Err(OutOfGas); }
    var value := Cost(msg.gas, msg.price);
    if BalanceOf(ledger.balances, msg.from) < value { return Err(InsufficientBalanceForGas); }
    var bought := pool.SubGas(msg.gas);
    if !bought { return Err(GasLimitReached); }
    ledger.balances := ledger.balances[msg.from := BalanceOf(ledger.balances, msg.from) - value];
    return Ok(());
  }

  /** refundGas: the gas left and the refund are paid back and return to the pool. */
  method RefundGas(pool: GasPool, ledger: Ledger, msg: Message, left: nat, required: nat, counter: nat) returns (gas: nat)
    modifies pool, ledger
    ensures gas == left + Refund(required, counter) && pool.amount == old(pool.amount) + gas && ledger.nonces == old(ledger.nonces)
    ensures gas >= left && Greatest(gas - left, required, counter)
    ensures ledger.balances == Credit(Credit(old(ledger.balances), msg.from, Cost(left, msg.price)),
                                      msg.from, Cost(Refund(required, counter), msg.price))
  {
    hide Cost;
    ledger.balances := Credit(ledger.balances, msg.from, Cost(left, msg.price));
    var refund := Refund(required, counter);
    gas := left + refund;
    ledger.balances := Credit(ledger.balances, msg.from, Cost(refund, msg.price));
    pool.AddGas(gas);
  }

  method NormalTransition(pool: GasPool, ledger: Ledger, msg: Message, evm: Machine) returns (result: Result<Used>)
    requires Thrifty(evm)
    modifies pool, ledger
    ensures Step(result, Book(pool.amount, ledger.balances, ledger.nonces))
         == Transition(old(Book(pool.amount, ledger.balances, ledger.nonces)), msg, evm)
  {
    hide Thrifty, Intrinsic, Cost, Refusal, Credit, Refund;
    ghost var b := Book(pool.amount, ledger.balances, ledger.nonces);
    var check := PreCheck(pool, ledger, msg);
    if check.Err? { return Err(check.error); }
    RefusalPassed(b, msg);
    var gas, initialGas := msg.gas, msg.gas;
    var intrinsic := IntrinsicGas(msg);
    if intrinsic > MAX_UINT64 || gas < intrinsic { return Err(OutOfGas); }
    gas := gas - intrinsic;
    var raised := ledger.nonces[msg.from := NonceOf(ledger.nonces, msg.from) + 1];
    if !msg.creates { ledger.nonces := raised; }
    ThriftyAt(evm, gas, ledger.balances, raised);
    var out := evm(gas, ledger.balances, raised);
    ledger.balances := out.balances;
    if !(msg.creates && out.failure == Broke) { ledger.nonces := out.nonces; }
    if out.failure == Broke { return Err(InsufficientBalance); }
    var required := initialGas - out.left;
    gas := RefundGas(pool, ledger, msg, out.left, required, out.refund);
    result := Ok(Used(required, initialGas - gas, out.failure != NoFailure));
  }

  lemma RefusalPassed(b: Book, msg: Message)
    requires Refusal(b, msg).Ok?
    ensures msg.gas <= MAX_UINT64 && b.pool >= msg.gas
  {}

  lemma ThriftyAt(evm: Machine, gas: nat, balances: Balances, nonces: Nonces)
    requires Thrifty(evm)
    ensures evm(gas, balances, nonces).left <= gas
  {}

  // ---------------------------------------------------------------- a block

  datatype Receipt = Receipt(cumulative: nat, gasUsed: int, failed: bool)

  /** Cumulative gas is the running total of the gas used. */
  ghost predicate Cumulative(receipts: seq<Receipt>) {
    forall j :: 0 <= j < |receipts| ==> CumulativeAt(receipts, j)
  }

  ghost predicate CumulativeAt(receipts: seq<Receipt>, j: nat)
    requires j < |receipts|
  {
    receipts[j].cumulative == receipts[j].gasUsed + if j == 0 then 0 else receipts[j - 1].cumulative
  }

  lemma CumulativeNone()
    ensures Cumulative([])
  {}

  lemma CumulativeNext(receipts: seq<Receipt>, r: Receipt)
    requires Cumulative(receipts)
    requires r.cumulative == r.gasUsed + if |receipts| == 0 then 0 else receipts[|receipts| - 1].cumulative
    ensures Cumulative(receipts + [r])
  {
    var rs := receipts + [r];
    forall j | 0 <= j < |rs| ensures CumulativeAt(rs, j) {
      if j < |receipts| { assert CumulativeAt(receipts, j); }
    }
  }

  /** The book after the first `k` messages. */
  function After(b: Book, msgs: seq<Message>, evms: seq<Machine>, k: nat): Book
    requires |evms| == |msgs| && k <= |msgs| && forall i :: 0 <= i < |evms| ==> Thrifty(evms[i])
  {
    if k == 0 then b else Transition(After(b, msgs, evms, k - 1), msgs[k - 1], evms[k - 1]).book
  }

  function ResultAt(b: Book, msgs: seq<Message>, evms: seq<Machine>, k: nat): Result<Used>
    requires |evms| == |msgs| && k < |msgs| && forall i :: 0 <= i < |evms| ==> Thrifty(evms[i])
  {
    Transition(After(b, msgs, evms, k), msgs[k], evms[k]).result
  }

  /** Message `k` is the first that fails. */
  ghost predicate FirstFailure(b: Book, msgs: seq<Message>, evms: seq<Machine>, k: nat, error: Error)
    requires |evms| == |msgs| && k < |msgs| && forall i :: 0 <= i < |evms| ==> Thrifty(evms[i])
  {
    ResultAt(b, msgs, evms, k) == Err(error) && forall i :: 0 <= i < k ==> ResultAt(b, msgs, evms, i).Ok?
  }

  /** Process, over the normal transactions of a block: what was used and what is left in the pool add up to
      the block's gas limit, and each receipt carries its transaction's gas and the running total.  The first
      failing transaction fails the block. */
  method Process(limit: nat, ledger: Ledger, msgs: seq<Message>, evms: seq<Machine>)
    returns (result: Result<nat>, receipts: seq<Receipt>, pool: GasPool)
    requires |evms| == |msgs| && forall i :: 0 <= i < |evms| ==> Thrifty(evms[i])
    modifies ledger
    ensures fresh(pool)
    ensures result.Ok? ==> result.value + pool.amount == limit && |receipts| == |msgs| && Cumulative(receipts)
    ensures result.Ok? ==> result.value == if |receipts| == 0 then 0 else receipts[|receipts| - 1].cumulative
    ensures result.Ok? ==> forall k :: 0 <= k < |msgs| ==>
              var r := ResultAt(Book(limit, old(ledger.balances), old(ledger.nonces)), msgs, evms, k);
              r.Ok? && receipts[k].gasUsed == r.value.used && receipts[k].failed == r.value.failed
    ensures result.Ok? ==>
              After(Book(limit, old(ledger.balances), old(ledger.nonces)), msgs, evms, |msgs|)
              == Book(pool.amount, ledger.balances, ledger.nonces)
    ensures result.Err? ==>
              exists k :: 0 <= k < |msgs| && FirstFailure(Book(limit, old(ledger.balances), old(ledger.nonces)), msgs, evms, k, result.error)
  {
    hide Thrifty, Transition, Cumulative;
    ghost var b0 := Book(limit, ledger.balances, ledger.nonces);
    CumulativeNone();
    pool := new GasPool(limit);
    receipts := [];
    var total: nat := 0;
    var i := 0;
    while i < |msgs|
      invariant 0 <= i <= |msgs| && fresh(pool) && |receipts| == i && Cumulative(receipts)
      invariant total == if i == 0 then 0 else receipts[i - 1].cumulative
      invariant total + pool.amount == limit
      invariant Book(pool.amount, ledger.balances, ledger.nonces) == After(b0, msgs, evms, i)
      invariant forall k :: 0 <= k < i ==>
                  var r := ResultAt(b0, msgs, evms, k);
                  r.Ok? && receipts[k].gasUsed == r.value.used && receipts[k].failed == r.value.failed
    {
      ghost var b := Book(pool.amount, ledger.balances, ledger.nonces);
      var used := NormalTransition(pool, ledger, msgs[i], evms[i]);
      assert used == ResultAt(b0, msgs, evms, i);
      if used.Err? {
        assert FirstFailure(b0, msgs, evms, i, used.error);
        return Err(used.error), [], pool;
      }
      PoolFallsByUse(b, msgs[i], evms[i]);
      total := total + used.value.used;
      CumulativeNext(receipts, Receipt(total, used.value.used, used.value.failed));
      receipts := receipts + [Receipt(total, used.value.used, used.value.failed)];
      i := i + 1;
    }
    result := Ok(total);
  }

  /** SetReceiptsData: the differences of the cumulative gas restore the gas of every transaction. */
  method SetReceiptsData(stored: seq<Receipt>) returns (receipts: seq<Receipt>)
    ensures |receipts| == |stored| && Cumulative(receipts)
    ensures forall j :: 0 <= j < |stored| ==> receipts[j].cumulative == stored[j].cumulative && receipts[j].failed == stored[j].failed
  {
    hide Cumulative;
    CumulativeNone();
    receipts := [];
    var j := 0;
    while j < |stored|
      invariant 0 <= j <= |stored| && |receipts| == j && Cumulative(receipts)
      invariant forall k :: 0 <= k < j ==> receipts[k].cumulative == stored[k].cumulative && receipts[k].failed == stored[k].failed
    {
      var used := if j == 0 then stored[j].cumulative else stored[j].cumulative - stored[j - 1].cumulative;
      CumulativeNext(receipts, stored[j].(gasUsed := used));
      receipts := receipts + [stored[j].(gasUsed := used)];
      j := j + 1;
    }
  }

  /** The restored receipts are the ones the block was processed with. */
  lemma {:induction false} GasRestored(receipts: seq<Receipt>, restored: seq<Receipt>, j: nat)
    requires Cumulative(receipts) && Cumulative(restored) && |restored| == |receipts| && j < |receipts|
    requires forall k :: 0 <= k < |receipts| ==> restored[k].cumulative == receipts[k].cumulative
    ensures restored[j].gasUsed == receipts[j].gasUsed
  {
    assert CumulativeAt(receipts, j) && CumulativeAt(restored, j);
    if j > 0 { assert restored[j - 1].cumulative == receipts[j - 1].cumulative; }
  }

  function SumUsed(receipts: seq<Receipt>): int {
    if |receipts| == 0 then 0 else SumUsed(receipts[..|receipts| - 1]) + receipts[|receipts| - 1].gasUsed
  }

  /** The running total is the sum of the parts. */
  lemma {:induction false} CumulativeIsSum(receipts: seq<Receipt>, j: nat)
    requires Cumulative(receipts) && j < |receipts|
    ensures receipts[j].cumulative == SumUsed(receipts[..j + 1])
  {
    assert receipts[..j + 1][..j] == receipts[..j];
    assert CumulativeAt(receipts, j);
    if j > 0 {
      CumulativeIsSum(receipts, j - 1);
    } else {
      assert receipts[..j] == [];
    }
  }
}
