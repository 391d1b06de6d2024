// Fee handling of a transaction with the Gnosis fee collector (src/evm/gnosis_evm.rs): the base fee
// and, from Prague on, the blob fee go to the collector instead of being burned.
module FeeCollector {
  import opened Primitives

  type Balances = map<Address, nat>

  datatype Block = Block(beneficiary: Address, baseFee: u64, blobPrice: Option<nat>, london: bool, prague: bool)

  datatype Transfer = Transfer(from: Address, to: Address, amount: nat)

  // A transaction, with what its execution does: the gas it spends, the refund it is granted and
  // the value it moves between accounts.
  datatype Tx = Tx(
    sender: Address,
    gasPrice: nat,
    priorityFee: Option<nat>,
    gasLimit: u64,
    isBlob: bool,
    blobGas: u64,
    gasSpent: nat,
    gasRefunded: nat,
    transfers: seq<Transfer>)

  // Bounds that hold of every executed transaction.
  predicate Executable(tx: Tx) {
    tx.gasRefunded <= tx.gasSpent <= tx.gasLimit
  }

  function Min(a: nat, b: nat): nat {
    if a < b then a else b
  }

  function EffectiveGasPrice(b: Block, tx: Tx): nat {
    match tx.priorityFee
    case None => tx.gasPrice
    case Some(tip) => Min(tx.gasPrice, b.baseFee + tip)
  }

  // Service transactions pay neither a gas price nor a priority fee.
  predicate IsFree(tx: Tx) {
    tx.gasPrice == 0 && (tx.priorityFee.None? || tx.priorityFee.value == 0)
  }

  function BlobCost(b: Block, tx: Tx): nat {
    if tx.isBlob then (match b.blobPrice case Some(p) => p case None => 0) * tx.blobGas else 0
  }

  function GasUsed(tx: Tx): nat
    requires Executable(tx)
  {
    tx.gasSpent - tx.gasRefunded
  }

  /*** Balances ***/

  function BalanceOf(m: Balances, a: Address): nat {
    if a in m then m[a] else 0
  }

  function SaturatingAdd(x: nat, y: nat): nat {
    if x + y < U256_BOUND then x + y else U256_BOUND - 1
  }

  function Credited(m: Balances, a: Address, amount: nat): Balances {
    m[a := SaturatingAdd(BalanceOf(m, a), amount)]
  }

  function Debited(m: Balances, a: Address, amount: nat): Balances
    requires BalanceOf(m, a) >= amount
  {
    m[a := BalanceOf(m, a) - amount]
  }

  /*** The amounts ***/

  function TipPrice(b: Block, tx: Tx): nat {
    var price := EffectiveGasPrice(b, tx);
    if !b.london then price else if price > b.baseFee then price - b.baseFee else 0
  }

  function Returned(b: Block, tx: Tx): nat
    requires Executable(tx)
  {
    EffectiveGasPrice(b, tx) * (tx.gasLimit - tx.gasSpent + tx.gasRefunded)
  }

  function Paid(b: Block, tx: Tx): nat
    requires Executable(tx)
  {
    EffectiveGasPrice(b, tx) * GasUsed(tx)
  }

  function Tip(b: Block, tx: Tx): nat
    requires Executable(tx)
  {
    TipPrice(b, tx) * GasUsed(tx)
  }

  function Collected(b: Block, tx: Tx): nat
    requires Executable(tx)
  {
    if b.london && !IsFree(tx) then b.baseFee * GasUsed(tx) else 0
  }

  /*** The handler's steps ***/

  // Up-front cost of gas and blobs.
  function UpFront(b: Block, tx: Tx): nat {
    EffectiveGasPrice(b, tx) * tx.gasLimit
  }

  function CallerCost(b: Block, tx: Tx): nat {
    UpFront(b, tx) + BlobCost(b, tx)
  }

  // None when the sender cannot pay.
  function CallerDeducted(m: Balances, b: Block, tx: Tx, collector: Address): Option<Balances> {
    if BalanceOf(m, tx.sender) < CallerCost(b, tx) then None
    else
      var m' := Debited(m, tx.sender, CallerCost(b, tx));
      Some(if b.prague then Credited(m', collector, BlobCost(b, tx)) else m')
  }

  // Value moves between accounts; an unaffordable move does not happen.
  function Transferred(m: Balances, transfers: seq<Transfer>): Balances {
    if transfers == [] then m
    else
      var m', t := Transferred(m, transfers[..|transfers| - 1]), transfers[|transfers| - 1];
      if BalanceOf(m', t.from) < t.amount then m'
      else Credited(Debited(m', t.from, t.amount), t.to, t.amount)
  }

  // Gas not spent and gas refunded go back to the sender.
  function Reimbursed(m: Balances, b: Block, tx: Tx): Balances
    requires Executable(tx)
  {
    Credited(m, tx.sender, Returned(b, tx))
  }

  function Rewarded(m: Balances, b: Block, tx: Tx, collector: Address): Balances
    requires Executable(tx)
  {
    var m' := Credited(m, b.beneficiary, Tip(b, tx));
    if b.london && !IsFree(tx) then Credited(m', collector, Collected(b, tx)) else m'
  }

  // The whole transaction; a sender who cannot pay leaves the balances alone.
  function Handled(m: Balances, b: Block, tx: Tx, collector: Address): Balances
    requires Executable(tx)
  {
    match CallerDeducted(m, b, tx, collector)
    case None => m
    case Some(m') => Rewarded(Reimbursed(Transferred(m', tx.transfers), b, tx), b, tx, collector)
  }

  // The journal on which the handler works in place.
  class Journal {
    var balances: Balances

    constructor (balances: Balances)
      ensures this.balances == balances
    {
      this.balances := balances;
    }

    method AddBalance(a: Address, amount: nat)
      modifies this
      ensures balances == Credited(old(balances), a, amount)
    {
      balances := balances[a := SaturatingAdd(BalanceOf(balances, a), amount)];
    }

    method ValidateAgainstStateAndDeductCaller(b: Block, tx: Tx, collector: Address) returns (ok: bool)
      modifies this
      ensures ok <==> CallerDeducted(old(balances), b, tx, collector).Some?
      ensures balances == if ok then CallerDeducted(old(balances), b, tx, collector).value else old(balances)
    {
      if BalanceOf(balances, tx.sender) < CallerCost(b, tx) {
        return false;
      }
      balances := Debited(balances, tx.sender, CallerCost(b, tx));
      var blobGasCost := 0;
      if tx.isBlob {
        blobGasCost := (match b.blobPrice case Some(p) => p case None => 0) * tx.blobGas;
      }
      if b.prague {
        AddBalance(collector, blobGasCost);
      }
      return true;
    }

    method RewardBeneficiary(b: Block, tx: Tx, collector: Address)
      requires Executable(tx)
      modifies this
      ensures balances == Rewarded(old(balances), b, tx, collector)
    {
      AddBalance(b.beneficiary, TipPrice(b, tx) * GasUsed(tx));
      if b.london {
        var isFree := IsFree(tx);
        if !isFree {
          AddBalance(collector, b.baseFee * GasUsed(tx));
        }
      }
    }

    // The handler's steps in order, with the value moves of the execution in between.
    method HandleTransaction(b: Block, tx: Tx, collector: Address) returns (ok: bool)
      requires Executable(tx)
      modifies this
      ensures ok <==> CallerDeducted(old(balances), b, tx, collector).Some?
      ensures balances == Handled(old(balances), b, tx, collector)
    {
      ok := ValidateAgainstStateAndDeductCaller(b, tx, collector);
      if !ok {
        return;
      }
      ghost var paid := balances;
      for i := 0 to |tx.transfers|
        invariant balances == Transferred(paid, tx.transfers[..i])
      {
        assert tx.transfers[..i + 1][..i] == tx.transfers[..i];
        var t := tx.transfers[i];
        if BalanceOf(balances, t.from) >= t.amount {
          balances := Debited(balances, t.from, t.amount);
          AddBalance(t.to, t.amount);
        }
      }
      assert tx.transfers[..|tx.transfers|] == tx.transfers;
      AddBalance(tx.sender, Returned(b, tx));
      RewardBeneficiary(b, tx, collector);
    }
  }

  /*** Total supply ***/

  ghost function Supply(m: Balances): nat {
    if m == map[] then 0
    else
      var a :| a in m;
      m[a] + Supply(m - {a})
  }

  lemma {:induction false} SupplyWithout(m: Balances, a: Address)
    requires a in m
    ensures Supply(m) == m[a] + Supply(m - {a})
    decreases m
  {
    var x :| x in m && Supply(m) == m[x] + Supply(m - {x});
    if x != a {
      SupplyWithout(m - {x}, a);
      SupplyWithout(m - {a}, x);
      assert m - {x} - {a} == m - {a} - {x};
    }
  }

  lemma SupplySet(m: Balances, a: Address, v: nat)
    ensures Supply(m[a := v]) == Supply(m) - BalanceOf(m, a) + v
    ensures BalanceOf(m, a) <= Supply(m)
  {
    SupplyWithout(m[a := v], a);
    if a in m {
      SupplyWithout(m, a);
      assert m[a := v] - {a} == m - {a};
    } else {
      assert m[a := v] - {a} == m;
    }
  }

  // A credit within the supply bound does not saturate.
  lemma SupplyCredited(m: Balances, a: Address, amount: nat)
    requires Supply(m) + amount < U256_BOUND
    ensures Supply(Credited(m, a, amount)) == Supply(m) + amount
    ensures SaturatingAdd(BalanceOf(m, a), amount) == BalanceOf(m, a) + amount
  {
    SupplySet(m, a, SaturatingAdd(BalanceOf(m, a), amount));
  }

  lemma {:induction false} SupplyTransferred(m: Balances, transfers: seq<Transfer>)
    requires Supply(m) < U256_BOUND
    ensures Supply(Transferred(m, transfers)) == Supply(m)
  {
    if transfers != [] {
      SupplyTransferred(m, transfers[..|transfers| - 1]);
      var m', t := Transferred(m, transfers[..|transfers| - 1]), transfers[|transfers| - 1];
      if BalanceOf(m', t.from) >= t.amount {
        SupplySet(m', t.from, BalanceOf(m', t.from) - t.amount);
        SupplyCredited(Debited(m', t.from, t.amount), t.to, t.amount);
      }
    }
  }

  /*** Conservation ***/

  // What the collector is credited beyond what the sender paid.
  function Minted(b: Block, tx: Tx): nat
    requires Executable(tx)
  {
    if b.london && !IsFree(tx) && EffectiveGasPrice(b, tx) < b.baseFee then
      (b.baseFee - EffectiveGasPrice(b, tx)) * GasUsed(tx)
    else 0
  }

  // Blob fees that nobody is credited.
  function Burned(b: Block, tx: Tx): nat {
    if b.prague then 0 else BlobCost(b, tx)
  }

  lemma Distribute(x: nat, a: nat, b: nat)
    ensures x * (a + b) == x * a + x * b
    ensures (a + b) * x == a * x + b * x
    ensures a <= a + b && a * x <= (a + b) * x
  {
  }

  lemma UpFrontSplit(b: Block, tx: Tx)
    requires Executable(tx)
    ensures UpFront(b, tx) == Returned(b, tx) + Paid(b, tx)
  {
    assert tx.gasLimit == (tx.gasLimit - tx.gasSpent + tx.gasRefunded) + GasUsed(tx);
    Distribute(EffectiveGasPrice(b, tx), tx.gasLimit - tx.gasSpent + tx.gasRefunded, GasUsed(tx));
  }

  lemma FeeSplit(b: Block, tx: Tx)
    requires Executable(tx)
    ensures Tip(b, tx) + Collected(b, tx) == Paid(b, tx) + Minted(b, tx)
    ensures Tip(b, tx) <= Paid(b, tx)
  {
    var price, used := EffectiveGasPrice(b, tx), GasUsed(tx);
    if b.london {
      if price > b.baseFee {
        Distribute(used, price - b.baseFee, b.baseFee);
      } else if !IsFree(tx) {
        Distribute(used, price, b.baseFee - price);
      }
    }
  }

  lemma SupplyMoved(m: Balances, from: Address, cost: nat, to: Address, back: nat)
    requires Supply(m) < U256_BOUND
    requires BalanceOf(m, from) >= cost && back <= cost
    ensures Supply(Debited(m, from, cost)) == Supply(m) - cost
    ensures Supply(Credited(Debited(m, from, cost), to, back)) == Supply(m) - cost + back
  {
    SupplySet(m, from, BalanceOf(m, from) - cost);
    SupplyCredited(Debited(m, from, cost), to, back);
  }

  lemma SupplyDeducted(m: Balances, b: Block, tx: Tx, collector: Address)
    requires Supply(m) < U256_BOUND
    requires CallerDeducted(m, b, tx, collector).Some?
    ensures Supply(CallerDeducted(m, b, tx, collector).value)
            == Supply(m) - UpFront(b, tx) - Burned(b, tx)
  {
    SupplyMoved(m, tx.sender, CallerCost(b, tx), collector, BlobCost(b, tx));
  }

  lemma SupplyReimbursed(m: Balances, b: Block, tx: Tx)
    requires Executable(tx)
    requires Supply(m) + Returned(b, tx) < U256_BOUND
    ensures Supply(Reimbursed(m, b, tx)) == Supply(m) + Returned(b, tx)
  {
    SupplyCredited(m, tx.sender, Returned(b, tx));
  }

  lemma SupplyRewarded(m: Balances, b: Block, tx: Tx, collector: Address)
    requires Executable(tx)
    requires Supply(m) + Tip(b, tx) + Collected(b, tx) < U256_BOUND
    ensures Supply(Rewarded(m, b, tx, collector)) == Supply(m) + Tip(b, tx) + Collected(b, tx)
  {
    SupplyCredited(m, b.beneficiary, Tip(b, tx));
    if b.london && !IsFree(tx) {
      SupplyCredited(Credited(m, b.beneficiary, Tip(b, tx)), collector, Collected(b, tx));
    }
  }

  // The exact change of the supply by one transaction. Every credit on the way is covered by the
  // bound on the supply, so no saturating addition saturates (SupplyCredited).
  lemma SupplyHandled(m: Balances, b: Block, tx: Tx, collector: Address)
    requires Executable(tx)
    requires Supply(m) + Minted(b, tx) < U256_BOUND
    requires CallerDeducted(m, b, tx, collector).Some?
    ensures Supply(Handled(m, b, tx, collector)) == Supply(m) + Minted(b, tx) - Burned(b, tx)
  {
    UpFrontSplit(b, tx);
    FeeSplit(b, tx);
    SupplyDeducted(m, b, tx, collector);
    var m1 := CallerDeducted(m, b, tx, collector).value;
    SupplyTransferred(m1, tx.transfers);
    var m2 := Transferred(m1, tx.transfers);
    SupplyReimbursed(m2, b, tx);
    SupplyRewarded(Reimbursed(m2, b, tx), b, tx, collector);
  }

  lemma PositiveProduct(x: nat, y: nat)
    requires x > 0 && y > 0
    ensures x * y > 0
  {
  }

  // What fee handling does to one account, whichever of the three roles it has.
  function FeeChange(b: Block, tx: Tx, collector: Address, a: Address): int
    requires Executable(tx)
  {
    (if a == tx.sender then -(Paid(b, tx) + BlobCost(b, tx)) else 0)
    + (if a == b.beneficiary then Tip(b, tx) else 0)
    + (if a == collector then Collected(b, tx) + (if b.prague then BlobCost(b, tx) else 0) else 0)
  }

  lemma CreditedBalance(m: Balances, to: Address, amount: nat, a: Address)
    requires Supply(m) + amount < U256_BOUND
    ensures BalanceOf(Credited(m, to, amount), a) == BalanceOf(m, a) + if a == to then amount else 0
    ensures Supply(Credited(m, to, amount)) == Supply(m) + amount
  {
    SupplyCredited(m, to, amount);
  }

  lemma DebitedBalance(m: Balances, from: Address, amount: nat, a: Address)
    requires BalanceOf(m, from) >= amount
    ensures BalanceOf(Debited(m, from, amount), a) == BalanceOf(m, a) - if a == from then amount else 0
    ensures Supply(Debited(m, from, amount)) == Supply(m) - amount
  {
    SupplySet(m, from, BalanceOf(m, from) - amount);
  }

  lemma DeductedBalance(m: Balances, b: Block, tx: Tx, collector: Address, a: Address)
    requires Supply(m) < U256_BOUND
    requires CallerDeducted(m, b, tx, collector).Some?
    ensures BalanceOf(CallerDeducted(m, b, tx, collector).value, a)
            == BalanceOf(m, a) - (if a == tx.sender then CallerCost(b, tx) else 0)
               + (if b.prague && a == collector then BlobCost(b, tx) else 0)
  {
    DebitedBalance(m, tx.sender, CallerCost(b, tx), a);
    if b.prague {
      CreditedBalance(Debited(m, tx.sender, CallerCost(b, tx)), collector, BlobCost(b, tx), a);
    }
  }

  lemma RewardedBalance(m: Balances, b: Block, tx: Tx, collector: Address, a: Address)
    requires Executable(tx)
    requires Supply(m) + Tip(b, tx) + Collected(b, tx) < U256_BOUND
    ensures BalanceOf(Rewarded(m, b, tx, collector), a)
            == BalanceOf(m, a) + (if a == b.beneficiary then Tip(b, tx) else 0)
               + (if a == collector then Collected(b, tx) else 0)
  {
    CreditedBalance(m, b.beneficiary, Tip(b, tx), a);
    if b.london && !IsFree(tx) {
      CreditedBalance(Credited(m, b.beneficiary, Tip(b, tx)), collector, Collected(b, tx), a);
    }
  }

  // Every account's balance after a transaction: what the value transfers made of it, plus the fee
  // change of its roles. Sender, beneficiary and collector may coincide.
  lemma BalancesHandled(m: Balances, b: Block, tx: Tx, collector: Address, a: Address)
    requires Executable(tx)
    requires Supply(m) + Minted(b, tx) < U256_BOUND
    requires CallerDeducted(m, b, tx, collector).Some?
    ensures var paid := CallerDeducted(m, b, tx, collector).value;
            BalanceOf(Handled(m, b, tx, collector), a)
            == BalanceOf(m, a) + (BalanceOf(Transferred(paid, tx.transfers), a) - BalanceOf(paid, a))
               + FeeChange(b, tx, collector, a)
  {
    UpFrontSplit(b, tx);
    FeeSplit(b, tx);
    SupplyDeducted(m, b, tx, collector);
    DeductedBalance(m, b, tx, collector, a);
    var m1 := CallerDeducted(m, b, tx, collector).value;
    SupplyTransferred(m1, tx.transfers);
    var m2 := Transferred(m1, tx.transfers);
    CreditedBalance(m2, tx.sender, Returned(b, tx), a);
    RewardedBalance(Reimbursed(m2, b, tx), b, tx, collector, a);
  }

  // No blob fee is burned: the collector gets it, or there is none.
  predicate KeepsBlobFee(b: Block, tx: Tx) {
    b.prague || BlobCost(b, tx) == 0
  }

  // What the collector is credited has been paid by the sender.
  predicate CoversBaseFee(b: Block, tx: Tx)
    requires Executable(tx)
  {
    !b.london || IsFree(tx) || EffectiveGasPrice(b, tx) >= b.baseFee || GasUsed(tx) == 0
  }

  lemma MintedExactly(b: Block, tx: Tx)
    requires Executable(tx)
    ensures Minted(b, tx) == 0 <==> CoversBaseFee(b, tx)
  {
    if !CoversBaseFee(b, tx) {
      PositiveProduct(b.baseFee - EffectiveGasPrice(b, tx), GasUsed(tx));
    }
  }

  // Where no blob fee is burned, a transaction conserves the supply iff its block is before London,
  // it is free, pays at least the base fee, or uses no gas; sender, beneficiary and collector may
  // coincide.
  lemma ConservedExactly(m: Balances, b: Block, tx: Tx, collector: Address)
    requires Executable(tx) && KeepsBlobFee(b, tx)
    requires Supply(m) + Minted(b, tx) < U256_BOUND
    requires CallerDeducted(m, b, tx, collector).Some?
    ensures Supply(Handled(m, b, tx, collector)) == Supply(m) <==> CoversBaseFee(b, tx)
  {
    SupplyHandled(m, b, tx, collector);
    MintedExactly(b, tx);
  }

  /*** Sequences of transactions ***/

  datatype Inclusion = Inclusion(block: Block, tx: Tx)

  function HandledAll(m: Balances, txs: seq<Inclusion>, collector: Address): Balances
    requires forall i :: i in txs ==> Executable(i.tx)
  {
    if txs == [] then m
    else
      var last := txs[|txs| - 1];
      Handled(HandledAll(m, txs[..|txs| - 1], collector), last.block, last.tx, collector)
  }

  predicate Pays(m: Balances, i: Inclusion, collector: Address) {
    CallerDeducted(m, i.block, i.tx, collector).Some?
  }

  // What the transactions mint and burn that their senders can pay for.
  ghost function MintedByAll(m: Balances, txs: seq<Inclusion>, collector: Address): nat
    requires forall i :: i in txs ==> Executable(i.tx)
  {
    if txs == [] then 0
    else
      var init, last := txs[..|txs| - 1], txs[|txs| - 1];
      MintedByAll(m, init, collector)
      + if Pays(HandledAll(m, init, collector), last, collector) then Minted(last.block, last.tx) else 0
  }

  ghost function BurnedByAll(m: Balances, txs: seq<Inclusion>, collector: Address): nat
    requires forall i :: i in txs ==> Executable(i.tx)
  {
    if txs == [] then 0
    else
      var init, last := txs[..|txs| - 1], txs[|txs| - 1];
      BurnedByAll(m, init, collector)
      + if Pays(HandledAll(m, init, collector), last, collector) then Burned(last.block, last.tx) else 0
  }

  // The exact change of the supply by any sequence of transactions.
  lemma {:induction false} SupplyHandledAll(m: Balances, txs: seq<Inclusion>, collector: Address)
    requires forall i :: i in txs ==> Executable(i.tx)
    requires Supply(m) + MintedByAll(m, txs, collector) < U256_BOUND
    ensures Supply(HandledAll(m, txs, collector))
            == Supply(m) + MintedByAll(m, txs, collector) - BurnedByAll(m, txs, collector)
  {
    if txs != [] {
      var init, last := txs[..|txs| - 1], txs[|txs| - 1];
      assert last in txs;
      SupplyHandledAll(m, init, collector);
      var m' := HandledAll(m, init, collector);
      if Pays(m', last, collector) {
        SupplyHandled(m', last.block, last.tx, collector);
      }
    }
  }

  // No blob fee of the sequence is burned.
  predicate KeepsBlobFees(txs: seq<Inclusion>) {
    forall i :: i in txs ==> KeepsBlobFee(i.block, i.tx)
  }

  // Every transaction whose sender can pay for it covers the base fee.
  ghost predicate AllCoverBaseFee(m: Balances, txs: seq<Inclusion>, collector: Address)
    requires forall i :: i in txs ==> Executable(i.tx)
  {
    forall k :: 0 <= k < |txs| && Pays(HandledAll(m, txs[..k], collector), txs[k], collector)
                ==> CoversBaseFee(txs[k].block, txs[k].tx)
  }

  lemma CoverSnoc(m: Balances, init: seq<Inclusion>, last: Inclusion, collector: Address)
    requires forall i :: i in init + [last] ==> Executable(i.tx)
    requires forall i :: i in init ==> Executable(i.tx)
    requires Executable(last.tx)
    ensures AllCoverBaseFee(m, init + [last], collector)
            <==> AllCoverBaseFee(m, init, collector)
                 && (Pays(HandledAll(m, init, collector), last, collector) ==> CoversBaseFee(last.block, last.tx))
  {
    var txs := init + [last];
    assert forall k :: 0 <= k < |init| ==> init[..k] == txs[..k] && init[k] == txs[k];
    assert txs[..|init|] == init && txs[|init|] == last;
  }

  lemma {:induction false} MintedByAllExactly(m: Balances, txs: seq<Inclusion>, collector: Address)
    requires forall i :: i in txs ==> Executable(i.tx)
    ensures MintedByAll(m, txs, collector) == 0 <==> AllCoverBaseFee(m, txs, collector)
  {
    if txs != [] {
      var init, last := txs[..|txs| - 1], txs[|txs| - 1];
      assert txs == init + [last];
      assert last in txs;
      MintedByAllExactly(m, init, collector);
      MintedExactly(last.block, last.tx);
      CoverSnoc(m, init, last, collector);
    }
  }

  lemma {:induction false} NothingBurned(m: Balances, txs: seq<Inclusion>, collector: Address)
    requires forall i :: i in txs ==> Executable(i.tx)
    requires KeepsBlobFees(txs)
    ensures BurnedByAll(m, txs, collector) == 0
  {
    if txs != [] {
      assert txs[|txs| - 1] in txs;
      NothingBurned(m, txs[..|txs| - 1], collector);
    }
  }

  // Main result: where no blob fee is burned, fee handling of a sequence of transactions leaves the
  // sum of all balances unchanged iff every transaction that is paid for covers the base fee.
  lemma FeesConserveSupply(m: Balances, txs: seq<Inclusion>, collector: Address)
    requires forall i :: i in txs ==> Executable(i.tx)
    requires KeepsBlobFees(txs)
    requires Supply(m) + MintedByAll(m, txs, collector) < U256_BOUND
    ensures Supply(HandledAll(m, txs, collector)) == Supply(m) <==> AllCoverBaseFee(m, txs, collector)
  {
    SupplyHandledAll(m, txs, collector);
    MintedByAllExactly(m, txs, collector);
    NothingBurned(m, txs, collector);
  }

  /*** In terms of the transaction's own fields ***/

  // Neither a gas price nor a priority fee.
  predicate PaysNothing(tx: Tx) {
    tx.gasPrice == 0 && (tx.priorityFee == None || tx.priorityFee == Some(0))
  }

  // With a priority fee the price is capped by the base fee plus the tip; without, it is the gas price.
  lemma PriceExact(b: Block, tx: Tx)
    ensures tx.priorityFee.None? ==> EffectiveGasPrice(b, tx) == tx.gasPrice
    ensures tx.priorityFee.Some? && tx.gasPrice < b.baseFee + tx.priorityFee.value ==>
              EffectiveGasPrice(b, tx) == tx.gasPrice
    ensures tx.priorityFee.Some? && tx.gasPrice >= b.baseFee + tx.priorityFee.value ==>
              EffectiveGasPrice(b, tx) == b.baseFee + tx.priorityFee.value
  {
  }

  lemma BlobCostExact(b: Block, tx: Tx)
    ensures !tx.isBlob || b.blobPrice.None? ==> BlobCost(b, tx) == 0
    ensures tx.isBlob && b.blobPrice.Some? ==> BlobCost(b, tx) == b.blobPrice.value * tx.blobGas
  {
  }

  // A credit stops at the largest 256-bit number.
  lemma CreditExact(m: Balances, a: Address, amount: nat)
    ensures var bound := 0x1_0000_0000_0000_0000_0000_0000_0000_0000_0000_0000_0000_0000_0000_0000_0000_0000;
            var sum := BalanceOf(m, a) + amount;
            BalanceOf(Credited(m, a, amount), a) == if sum < bound then sum else bound - 1
    ensures forall o :: o != a ==> BalanceOf(Credited(m, a, amount), o) == BalanceOf(m, o)
  {
  }

  // Refused iff the sender cannot cover the gas limit at the effective price plus the blob fee.
  lemma RefusedExact(m: Balances, b: Block, tx: Tx, collector: Address)
    ensures CallerDeducted(m, b, tx, collector).None?
            <==> BalanceOf(m, tx.sender) < EffectiveGasPrice(b, tx) * tx.gasLimit + BlobCost(b, tx)
  {
  }

  // Of a transaction that pays nothing, nobody is credited anything.
  lemma FreeRewardsNobody(m: Balances, b: Block, tx: Tx, collector: Address, a: Address)
    requires Executable(tx) && PaysNothing(tx)
    requires Supply(m) < U256_BOUND
    ensures BalanceOf(Rewarded(m, b, tx, collector), a) == BalanceOf(m, a)
  {
    FreeAmounts(b, tx);
    CreditedBalance(m, b.beneficiary, 0, a);
  }

  lemma FreeAmounts(b: Block, tx: Tx)
    requires Executable(tx) && PaysNothing(tx)
    ensures IsFree(tx) && EffectiveGasPrice(b, tx) == 0 && TipPrice(b, tx) == 0
    ensures Tip(b, tx) == 0 && Collected(b, tx) == 0 && Minted(b, tx) == 0
  {
  }

  // So it conserves the supply, with nothing assumed about the base fee.
  lemma FreeConserves(m: Balances, b: Block, tx: Tx, collector: Address)
    requires Executable(tx) && PaysNothing(tx) && KeepsBlobFee(b, tx)
    requires Supply(m) < U256_BOUND
    ensures Supply(Handled(m, b, tx, collector)) == Supply(m)
  {
    FreeAmounts(b, tx);
    if CallerDeducted(m, b, tx, collector).Some? {
      SupplyHandled(m, b, tx, collector);
    }
  }

  // Of any other transaction in a London block the collector is credited exactly the base fee of the
  // gas used; before London it is credited nothing.
  lemma CollectorCreditedExactly(m: Balances, b: Block, tx: Tx, collector: Address)
    requires Executable(tx) && collector != b.beneficiary
    requires Supply(m) + Tip(b, tx) + Collected(b, tx) < U256_BOUND
    ensures BalanceOf(Rewarded(m, b, tx, collector), collector)
            == BalanceOf(m, collector)
               + (if b.london && !PaysNothing(tx) then b.baseFee * (tx.gasSpent - tx.gasRefunded) else 0)
  {
    RewardedBalance(m, b, tx, collector, collector);
  }

  // The fee change of each role, for a transaction that covers the base fee: with `price` the effective
  // gas price, the sender pays it for the gas used, of which the base fee goes to the collector and the
  // rest to the beneficiary; from Prague on the blob fee goes to the collector as well.
  lemma FeeChangeExact(b: Block, tx: Tx, collector: Address, price: nat, used: nat)
    requires Executable(tx) && b.london && !PaysNothing(tx)
    requires price == EffectiveGasPrice(b, tx) >= b.baseFee && used == tx.gasSpent - tx.gasRefunded
    requires tx.sender != collector && tx.sender != b.beneficiary && collector != b.beneficiary
    ensures FeeChange(b, tx, collector, tx.sender) == -(price * used + BlobCost(b, tx))
    ensures FeeChange(b, tx, collector, b.beneficiary) == (price - b.baseFee) * used
    ensures FeeChange(b, tx, collector, collector)
            == b.baseFee * used + (if b.prague then BlobCost(b, tx) else 0)
  {
  }

  /*** A transaction that mints ***/

  // A transaction that offers 1 for each of its 21000 gas, in a London block before Prague with a base
  // fee of 10: there the configuration disables the base-fee check.
  predicate Underpriced(b: Block, tx: Tx) {
    && b.london && !b.prague && b.baseFee == 10
    && tx.gasPrice == 1 && tx.priorityFee.None? && !tx.isBlob
    && tx.gasLimit == tx.gasSpent == 21000 && tx.gasRefunded == 0 && tx.transfers == []
  }

  lemma UnderpricedAmounts(b: Block, tx: Tx)
    requires Underpriced(b, tx)
    ensures Executable(tx) && GasUsed(tx) == 21000
    ensures EffectiveGasPrice(b, tx) == 1 && TipPrice(b, tx) == 0
    ensures !IsFree(tx) && BlobCost(b, tx) == 0
  {
  }

  // The sender pays 21000, all there is, and the collector receives 210000.
  lemma UnderpricedTransactionMints(m: Balances, b: Block, tx: Tx, collector: Address)
    requires Underpriced(b, tx)
    requires Supply(m) == BalanceOf(m, tx.sender) == 21000
    ensures Executable(tx) && CallerDeducted(m, b, tx, collector).Some?
    ensures Supply(Handled(m, b, tx, collector)) == 210000
    ensures tx.sender != collector && tx.sender != b.beneficiary ==> FeeChange(b, tx, collector, tx.sender) == -21000
    ensures tx.sender != collector ==> FeeChange(b, tx, collector, collector) == 210000
  {
    UnderpricedAmounts(b, tx);
    assert Tip(b, tx) == 0 && Paid(b, tx) == 21000;
    assert Minted(b, tx) == 189000 && Burned(b, tx) == 0;
    assert CallerCost(b, tx) == 21000;
    SupplyHandled(m, b, tx, collector);
  }

  // There is such a transaction.
  lemma UnderpricedExists()
    ensures Underpriced(Block(1, 10, None, true, false), Tx(2, 1, None, 21000, false, 0, 21000, 0, []))
    ensures BalanceOf(map[2 := 21000], 2) == Supply(map[2 := 21000]) == 21000
  {
    var m: Balances := map[2 := 21000];
    SupplyWithout(m, 2);
    assert m - {2} == map[];
  }
}
