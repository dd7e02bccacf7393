/**
 Gas accounting of a block (core/state_processor.go, core/state_transition.go and
 core/gaspool.go).  The EVM is any function that returns no more gas than it got and moves
 balances without creating or destroying any.
 */
module Gas {
  import opened Wrappers

  const MAX_UINT64: nat := 0xFFFF_FFFF_FFFF_FFFF
  const TX_GAS: nat := 21000
  const TX_GAS_CONTRACT_CREATION: nat := 53000
  const TX_DATA_ZERO_GAS: nat := 4
  const TX_DATA_NON_ZERO_GAS: nat := 68
  const BLOCK_REWARD: nat := 1_000_000_000_000_000_000

  // ---- Balances -------------------------------------------------------------------------------

  type Balances = map<nat, int>

  function Balance(m: Balances, a: nat): int {
    if a in m then m[a] else 0
  }

  /** The sum of all balances. */
  ghost function Sum(m: Balances): int {
    if m == map[] then 0 else
    var a :| a in m;
    m[a] + Sum(m - {a})
  }

  lemma {:induction false} SumAt(m: Balances, a: nat)
    requires a in m
    ensures Sum(m) == m[a] + Sum(m - {a})
    decreases |m|
  {
    var b :| b in m && Sum(m) == m[b] + Sum(m - {b});
    if b != a {
      SumAt(m - {b}, a);
      SumAt(m - {a}, b);
      assert m - {b} - {a} == m - {a} - {b};
    }
  }

  lemma {:induction false} SumPut(m: Balances, a: nat, v: int)
    ensures Sum(m[a := v]) == Sum(m) - Balance(m, a) + v
  {
    var m' := m[a := v];
    SumAt(m', a);
    if a in m {
      SumAt(m, a);
      assert m' - {a} == m - {a};
    } else {
      assert m' - {a} == m;
    }
  }

  datatype State = State(balances: Balances, nonces: map<nat, nat>)

  function Nonce(s: State, a: nat): nat {
    if a in s.nonces then s.nonces[a] else 0
  }

  // ---- Intrinsic gas --------------------------------------------------------------------------

  function DataGas(data: seq<nat>): nat {
    if data == [] then 0 else
    DataGas(data[..|data| - 1]) + if data[|data| - 1] == 0 then TX_DATA_ZERO_GAS else TX_DATA_NON_ZERO_GAS
  }

  function BaseGas(creation: bool, homestead: bool): nat {
    if creation && homestead then TX_GAS_CONTRACT_CREATION else TX_GAS
  }

  /** What a message costs before anything runs, unbounded. */
  function Intrinsic(data: seq<nat>, creation: bool, homestead: bool): nat {
    BaseGas(creation, homestead) + DataGas(data)
  }

  /** The cost, or an error exactly when it does not fit 64 bits. */
  method IntrinsicGas(data: seq<nat>, creation: bool, homestead: bool) returns (r: Option<nat>)
    ensures r == if Intrinsic(data, creation, homestead) <= MAX_UINT64
                 then Some(Intrinsic(data, creation, homestead)) else None
  {
    var gas := BaseGas(creation, homestead);
    if |data| > 0 {
      var nz := 0;
      for i := 0 to |data|
        invariant nz <= i && DataGas(data[..i]) == TX_DATA_NON_ZERO_GAS * nz + TX_DATA_ZERO_GAS * (i - nz)
      {
        assert data[..i + 1][..i] == data[..i];
        if data[i] != 0 { nz := nz + 1; }
      }
      assert data[..|data|] == data;
      if (MAX_UINT64 - gas) / TX_DATA_NON_ZERO_GAS < nz { return None; }
      gas := gas + nz * TX_DATA_NON_ZERO_GAS;
      var z := |data| - nz;
      if (MAX_UINT64 - gas) / TX_DATA_ZERO_GAS < z { return None; }
      gas := gas + z * TX_DATA_ZERO_GAS;
    }
    r := Some(gas);
  }

  // ---- One message ----------------------------------------------------------------------------

  datatype Message = Message(from: nat, to: Option<nat>, nonce: nat, checkNonce: bool, gas: nat, gasPrice: nat,
                             data: seq<nat>)

  datatype Error =
    | NonceTooHigh | NonceTooLow | InsufficientBalanceForGas | GasLimitReached | OutOfGas | InsufficientBalance

  datatype Outcome = Success | Failure | CannotTransfer

  datatype EvmResult = EvmResult(state: State, gasLeft: nat, refund: nat, outcome: Outcome)

  type Evm = (State, Message, nat) -> EvmResult

  predicate FitsOne(evm: Evm, s: State, m: Message, gas: nat) {
    evm(s, m, gas).gasLeft <= gas
  }

  ghost predicate Conserves(evm: Evm, s: State, m: Message, gas: nat) {
    Sum(evm(s, m, gas).state.balances) == Sum(s.balances)
  }

  /** The EVM gives back no more gas than it got and conserves balances. */
  ghost predicate EvmOk(evm: Evm) {
    && (forall s: State, m: Message, gas: nat :: FitsOne(evm, s, m, gas))
    && (forall s: State, m: Message, gas: nat :: Conserves(evm, s, m, gas))
  }

  class GasPool {
    var gas: nat

    constructor (limit: nat)
      requires limit <= MAX_UINT64
      ensures gas == limit
    {
      gas := limit;
    }

    method AddGas(amount: nat)
      requires gas + amount <= MAX_UINT64
      modifies this
      ensures gas == old(gas) + amount
    {
      gas := gas + amount;
    }

    method SubGas(amount: nat) returns (ok: bool)
      modifies this
      ensures ok == (amount <= old(gas)) && gas == if ok then old(gas) - amount else old(gas)
    {
      if gas < amount { return false; }
      gas := gas - amount;
      ok := true;
    }
  }

  class StateDB {
    var state: State

    constructor (state: State)
      ensures this.state == state
    {
      this.state := state;
    }

    method AddBalance(a: nat, v: int)
      modifies this
      ensures state.nonces == old(state.nonces)
      ensures state.balances == Credit(old(state.balances), a, v)
    {
      state := state.(balances := Credit(state.balances, a, v));
    }
  }

  /** What a message needs before it can run. */
  predicate Payable(s: State, m: Message, poolGas: nat) {
    && (m.checkNonce ==> Nonce(s, m.from) == m.nonce)
    && m.gas * m.gasPrice <= Balance(s.balances, m.from)
    && m.gas <= poolGas
  }

  function Credit(m: Balances, a: nat, v: int): Balances {
    m[a := Balance(m, a) + v]
  }

  /** The state the EVM starts from: all gas paid for, the nonce of a call counted. */
  function Prepared(s: State, m: Message): State {
    State(Credit(s.balances, m.from, -(m.gas * m.gasPrice)),
          if m.to.None? then s.nonces else s.nonces[m.from := Nonce(s, m.from) + 1])
  }

  /** The gas used after the refund. */
  function Used(m: Message, r: EvmResult): int {
    var spent := m.gas - r.gasLeft;
    spent - if spent / 2 > r.refund then r.refund else spent / 2
  }

  /** The sender gets back what is left; the coinbase gets what was used, until Darvaza. */
  function Paid(b: Balances, m: Message, used: int, coinbase: nat, darvaza: bool): Balances {
    var back := Credit(b, m.from, (m.gas - used) * m.gasPrice);
    if darvaza then back else Credit(back, coinbase, used * m.gasPrice)
  }

  lemma {:induction false} SumCredit(m: Balances, a: nat, v: int)
    ensures Sum(Credit(m, a, v)) == Sum(m) + v
  {
    SumPut(m, a, Balance(m, a) + v);
  }

  lemma Split(a: nat, b: nat, price: nat)
    ensures (a + b) * price == a * price + b * price
  {
  }

  /** A message moves balances; what it paid for gas is lost from Darvaza on. */
  lemma {:induction false} MessageConserves(s: State, m: Message, b: Balances, used: nat, coinbase: nat, darvaza: bool)
    requires used <= m.gas && Sum(b) == Sum(Prepared(s, m).balances)
    ensures Sum(Paid(b, m, used, coinbase, darvaza)) == Sum(s.balances) - if darvaza then used * m.gasPrice else 0
  {
    SumCredit(s.balances, m.from, -(m.gas * m.gasPrice));
    var left := m.gas - used;
    Split(left, used, m.gasPrice);
    SumCredit(b, m.from, left * m.gasPrice);
    SumCredit(Credit(b, m.from, left * m.gasPrice), coinbase, used * m.gasPrice);
  }

  class StateTransition {
    const pool: GasPool
    const db: StateDB
    const msg: Message
    const evm: Evm
    const homestead: bool
    const darvaza: bool
    const coinbase: nat
    var gas: nat
    var initialGas: nat

    constructor (pool: GasPool, db: StateDB, msg: Message, evm: Evm, homestead: bool, darvaza: bool, coinbase: nat)
      ensures this.pool == pool && this.db == db && this.msg == msg && this.evm == evm && gas == initialGas == 0
      ensures this.homestead == homestead && this.darvaza == darvaza && this.coinbase == coinbase
    {
      this.pool, this.db, this.msg, this.evm := pool, db, msg, evm;
      this.homestead, this.darvaza, this.coinbase, gas, initialGas := homestead, darvaza, coinbase, 0, 0;
    }

    method BuyGas() returns (err: Option<Error>)
      requires gas == 0
      modifies this, pool, db
      ensures err.None? <==> old(msg.gas * msg.gasPrice <= Balance(db.state.balances, msg.from) && msg.gas <= pool.gas)
      ensures err.None? ==> gas == initialGas == msg.gas && pool.gas == old(pool.gas) - msg.gas
      ensures err.None? ==> db.state.balances == Credit(old(db.state.balances), msg.from, -(msg.gas * msg.gasPrice))
      ensures err.Some? ==> db.state == old(db.state) && pool.gas == old(pool.gas)
      ensures db.state.nonces == old(db.state.nonces)
    {
      var value := msg.gas * msg.gasPrice;
      if Balance(db.state.balances, msg.from) < value { return Some(InsufficientBalanceForGas); }
      var ok := pool.SubGas(msg.gas);
      if !ok { return Some(GasLimitReached); }
      gas, initialGas := gas + msg.gas, msg.gas;
      db.AddBalance(msg.from, -value);
      err := None;
    }

    method PreCheck() returns (err: Option<Error>)
      requires gas == 0
      modifies this, pool, db
      ensures err.None? <==> old(Payable(db.state, msg, pool.gas))
      ensures err.None? ==> db.state.balances == Credit(old(db.state.balances), msg.from, -(msg.gas * msg.gasPrice))
      ensures db.state.nonces == old(db.state.nonces)
      ensures err.None? ==> gas == initialGas == msg.gas && pool.gas == old(pool.gas) - msg.gas
      ensures err.Some? ==> db.state == old(db.state) && pool.gas == old(pool.gas)
    {
      if msg.checkNonce {
        var nonce := Nonce(db.state, msg.from);
        if nonce < msg.nonce { return Some(NonceTooHigh); }
        if nonce > msg.nonce { return Some(NonceTooLow); }
      }
      err := BuyGas();
    }

    /** Refunds at most half of what was used, pays the rest back and returns it to the pool. */
    method RefundGas(counter: nat)
      requires gas <= initialGas && pool.gas + initialGas <= MAX_UINT64
      modifies this, pool, db
      ensures initialGas == old(initialGas) && old(gas) <= gas <= initialGas
      ensures gas == old(gas) + if (initialGas - old(gas)) / 2 > counter then counter else (initialGas - old(gas)) / 2
      ensures pool.gas == old(pool.gas) + gas && db.state.nonces == old(db.state.nonces)
      ensures db.state.balances == Credit(old(db.state.balances), msg.from, gas * msg.gasPrice)
    {
      var refund := (initialGas - gas) / 2;
      if refund > counter { refund := counter; }
      gas := gas + refund;
      db.AddBalance(msg.from, gas * msg.gasPrice);
      pool.AddGas(gas);
    }

    /** Runs the message; an error leaves the block invalid. */
    method TransitionDb() returns (usedGas: nat, err: Option<Error>)
      requires gas == 0 && EvmOk(evm) && pool.gas <= MAX_UINT64
      modifies this, pool, db
      ensures err.None? ==> old(Payable(db.state, msg, pool.gas)) && usedGas <= msg.gas
      ensures err.None? ==> Intrinsic(msg.data, msg.to.None?, homestead) <= msg.gas
      ensures err.None? ==> Intrinsic(msg.data, msg.to.None?, homestead) <= 2 * usedGas
      ensures old(Payable(db.state, msg, pool.gas)) && Intrinsic(msg.data, msg.to.None?, homestead) <= msg.gas ==>
        err.None? || err == Some(InsufficientBalance)
      ensures err.None? ==> pool.gas + usedGas == old(pool.gas)
      ensures err.None? ==>
        Sum(db.state.balances) == old(Sum(db.state.balances)) - if darvaza then usedGas * msg.gasPrice else 0
      ensures err.None? ==>
        var r := evm(Prepared(old(db.state), msg), msg, msg.gas - Intrinsic(msg.data, msg.to.None?, homestead));
        && usedGas == Used(msg, r) && db.state.nonces == r.state.nonces
        && db.state.balances == Paid(r.state.balances, msg, usedGas, coinbase, darvaza)
    {
      usedGas := 0;
      err := PreCheck();
      if err.Some? { return; }
      var creation := msg.to.None?;
      var intrinsic := IntrinsicGas(msg.data, creation, homestead);
      if intrinsic.None? || gas < intrinsic.value { return 0, Some(OutOfGas); }
      gas := gas - intrinsic.value;
      if !creation {
        db.state := db.state.(nonces := db.state.nonces[msg.from := Nonce(db.state, msg.from) + 1]);
      }
      assert db.state == Prepared(old(db.state), msg);
      var r := evm(db.state, msg, gas);
      assert FitsOne(evm, db.state, msg, gas) && Conserves(evm, db.state, msg, gas);
      db.state, gas := r.state, r.gasLeft;
      if r.outcome.CannotTransfer? { return 0, Some(InsufficientBalance); }
      usedGas := Settle(r);
      MessageConserves(old(db.state), msg, r.state.balances, usedGas, coinbase, darvaza);
      err := None;
    }

    /** Gas left is refunded and the fee is paid. */
    method Settle(r: EvmResult) returns (usedGas: nat)
      requires gas == r.gasLeft <= initialGas == msg.gas && pool.gas + initialGas <= MAX_UINT64 && db.state == r.state
      modifies this, pool, db
      ensures usedGas == Used(msg, r) && usedGas <= msg.gas && msg.gas - r.gasLeft <= 2 * usedGas
      ensures pool.gas + usedGas == old(pool.gas) + msg.gas
      ensures db.state.nonces == r.state.nonces
      ensures db.state.balances == Paid(r.state.balances, msg, usedGas, coinbase, darvaza)
    {
      RefundGas(r.refund);
      usedGas := initialGas - gas;
      if !darvaza {
        db.AddBalance(coinbase, usedGas * msg.gasPrice);
      }
    }
  }

  // ---- A block --------------------------------------------------------------------------------

  datatype Receipt = Receipt(cumulative: nat, gasUsed: nat)

  function TotalUsed(receipts: seq<Receipt>): nat {
    if receipts == [] then 0 else TotalUsed(receipts[..|receipts| - 1]) + receipts[|receipts| - 1].gasUsed
  }

  /** What the transactions paid for gas in all. */
  function TotalFees(receipts: seq<Receipt>, msgs: seq<Message>): nat
    requires |receipts| <= |msgs|
  {
    if receipts == [] then 0 else
    var k := |receipts| - 1;
    TotalFees(receipts[..k], msgs) + receipts[k].gasUsed * msgs[k].gasPrice
  }

  /** A receipt's own gas is within its message's, and its cumulative gas is the sum so far. */
  predicate ReceiptOk(receipts: seq<Receipt>, msgs: seq<Message>, i: nat) {
    i < |receipts| <= |msgs| ==>
      receipts[i].gasUsed <= msgs[i].gas && receipts[i].cumulative == TotalUsed(receipts[..i + 1])
  }

  lemma {:induction false} ReceiptAdded(receipts: seq<Receipt>, msgs: seq<Message>, r: Receipt)
    requires |receipts| < |msgs| && forall i: nat :: ReceiptOk(receipts, msgs, i)
    requires r.cumulative == TotalUsed(receipts) + r.gasUsed && r.gasUsed <= msgs[|receipts|].gas
    ensures forall i: nat :: ReceiptOk(receipts + [r], msgs, i)
    ensures TotalUsed(receipts + [r]) == r.cumulative
    ensures TotalFees(receipts + [r], msgs) == TotalFees(receipts, msgs) + r.gasUsed * msgs[|receipts|].gasPrice
  {
    var all := receipts + [r];
    assert all[..|receipts|] == receipts && all[..|all|] == all;
    forall i: nat ensures ReceiptOk(all, msgs, i) {
      assert ReceiptOk(receipts, msgs, i);
      if i < |receipts| { assert all[..i + 1] == receipts[..i + 1]; }
    }
  }

  /** All messages of a block in order, from a pool holding the block's gas limit, and the reward for sealing it. */
  method Process(db: StateDB, limit: nat, msgs: seq<Message>, evm: Evm, homestead: bool, darvaza: bool, coinbase: nat)
    returns (receipts: seq<Receipt>, usedGas: nat, poolLeft: nat, err: Option<Error>)
    requires limit <= MAX_UINT64 && EvmOk(evm)
    modifies db
    ensures err.None? ==> poolLeft + usedGas == limit && |receipts| == |msgs| && usedGas == TotalUsed(receipts)
    ensures err.None? ==> forall i: nat :: ReceiptOk(receipts, msgs, i)
    ensures err.None? ==> Sum(db.state.balances) ==
                          old(Sum(db.state.balances)) + BLOCK_REWARD -
                          (if darvaza then TotalFees(receipts, msgs) else 0)
  {
    var pool := new GasPool(limit);
    receipts, usedGas := [], 0;
    for i := 0 to |msgs|
      invariant |receipts| == i && pool.gas + usedGas == limit && usedGas == TotalUsed(receipts)
      invariant forall j: nat :: ReceiptOk(receipts, msgs, j)
      invariant Sum(db.state.balances) == old(Sum(db.state.balances)) - if darvaza then TotalFees(receipts, msgs) else 0
    {
      var st := new StateTransition(pool, db, msgs[i], evm, homestead, darvaza, coinbase);
      var gas, failure := st.TransitionDb();
      if failure.Some? { return [], 0, pool.gas, failure; }
      usedGas := usedGas + gas;
      ReceiptAdded(receipts, msgs, Receipt(usedGas, gas));
      receipts := receipts + [Receipt(usedGas, gas)];
    }
    Finalize(db, coinbase);
    poolLeft, err := pool.gas, None;
  }

  /** The sealer's reward is created. */
  method Finalize(db: StateDB, coinbase: nat)
    modifies db
    ensures db.state.nonces == old(db.state.nonces)
    ensures db.state.balances == Credit(old(db.state.balances), coinbase, BLOCK_REWARD)
    ensures Sum(db.state.balances) == old(Sum(db.state.balances)) + BLOCK_REWARD
  {
    SumCredit(db.state.balances, coinbase, BLOCK_REWARD);
    db.AddBalance(coinbase, BLOCK_REWARD);
  }
}
