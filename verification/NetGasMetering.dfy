// EIP-1283 net gas metering of SSTORE on Gnosis Constantinople blocks: the gas table that
// src/evm_config.rs overrides, the instruction of src/evm/gnosis_evm.rs, and what any sequence of
// stores to a slot costs in total.
module NetGasMetering {
  import opened Primitives

  // A slot's value at the start of the transaction, its present value, and the value stored next.
  datatype StoreValues = StoreValues(original: nat, present: nat, next: nat)

  datatype GasTable = GasTable(
    sstoreStatic: nat,
    sstoreSet: nat,
    sstoreReset: nat,
    setRefund: nat,
    resetRefund: nat,
    clearingRefund: nat)

  datatype SpecId =
    | Frontier | Homestead | Tangerine | SpuriousDragon | Byzantium | Constantinople | Petersburg | Istanbul | Later

  const CLEARING_REFUND: nat := 15000

  // The entries that the configuration overrides, on top of a spec's own table.
  function CfgGasTable(base: GasTable, spec: SpecId, isPreMerge: bool): GasTable {
    if spec.Constantinople? && isPreMerge then
      base.(sstoreStatic := 200, sstoreSet := 20000 - 200, sstoreReset := 5000 - 200,
            setRefund := 20000 - 200, resetRefund := 5000 - 200)
    else base
  }

  // The table in force while EIP-1283 is: the override keeps the clearing refund.
  predicate Eip1283Table(g: GasTable) {
    g == CfgGasTable(g, Constantinople, true) && g.clearingRefund == CLEARING_REFUND
  }

  // The override, entry by entry: on pre-merge Constantinople blocks only, and not of the clearing refund.
  lemma OverrideExact(base: GasTable, spec: SpecId, isPreMerge: bool)
    ensures var g := CfgGasTable(base, spec, isPreMerge);
            if spec == Constantinople && isPreMerge then
              && g.sstoreStatic == 200 && g.sstoreSet == 19800 && g.sstoreReset == 4800
              && g.setRefund == 19800 && g.resetRefund == 4800 && g.clearingRefund == base.clearingRefund
            else g == base
  {
  }

  // Gas charged after the static cost, with net metering forced on and no cold-access cost.
  function DynamicGas(g: GasTable, v: StoreValues): nat {
    if v.next != v.present && v.original == v.present then
      if v.original == 0 then g.sstoreSet else g.sstoreReset
    else 0
  }

  // The change of the refund counter, with net metering forced on.
  function Refund(g: GasTable, v: StoreValues): int {
    if v.next == v.present then 0
    else if v.original == v.present && v.next == 0 then g.clearingRefund
    else
      (if v.original != 0 then
         if v.present == 0 then -(g.clearingRefund as int)
         else if v.next == 0 then g.clearingRefund
         else 0
       else 0)
      + (if v.original == v.next then if v.original == 0 then g.setRefund else g.resetRefund else 0)
  }

  /*** The rules of the 'Specification' section of EIP-1283 ***/

  function EipGas(v: StoreValues): nat {
    if v.present == v.next then 200
    else if v.original == v.present then
      if v.original == 0 then 20000 else 5000
    else 200
  }

  function EipRefund(v: StoreValues): int {
    if v.present == v.next then 0
    else if v.original == v.present then
      if v.original != 0 && v.next == 0 then 15000 else 0
    else
      var clearing :=
        if v.original != 0 then
          (if v.present == 0 then -15000 else 0) + (if v.next == 0 then 15000 else 0)
        else 0;
      var reset := if v.original == v.next then if v.original == 0 then 19800 else 4800 else 0;
      clearing + reset
  }

  // The overridden table under forced net metering charges and refunds exactly what the EIP says.
  lemma TableMatchesEip(g: GasTable, v: StoreValues)
    requires Eip1283Table(g)
    ensures g.sstoreStatic + DynamicGas(g, v) == EipGas(v)
    ensures Refund(g, v) == EipRefund(v)
  {
  }

  /*** The instruction ***/

  datatype Halt = Running | StateChangeDuringStaticCall | StackUnderflow | OutOfGas | FatalExternalError

  type Slot = (Address, nat)

  datatype Storage = Storage(original: map<Slot, nat>, present: map<Slot, nat>)

  function Lookup(m: map<Slot, nat>, slot: Slot): nat {
    if slot in m then m[slot] else 0
  }

  function ValuesAt(st: Storage, slot: Slot, value: nat): StoreValues {
    StoreValues(Lookup(st.original, slot), Lookup(st.present, slot), value)
  }

  class Interpreter {
    const isStatic: bool
    const target: Address
    const table: GasTable
    var stack: seq<nat>
    var gas: nat
    var refund: int
    var storage: Storage
    var halted: Halt

    constructor (isStatic: bool, target: Address, table: GasTable, stack: seq<nat>, gas: nat, refund: int,
        storage: Storage)
      ensures this.isStatic == isStatic && this.target == target && this.table == table
      ensures this.stack == stack && this.gas == gas && this.refund == refund && this.storage == storage
      ensures halted == Running
    {
      this.isStatic, this.target, this.table := isStatic, target, table;
      this.stack, this.gas, this.refund, this.storage := stack, gas, refund, storage;
      halted := Running;
    }

    method RecordRegularCost(cost: nat) returns (ok: bool)
      modifies `gas
      ensures ok <==> old(gas) >= cost
      ensures gas == if ok then old(gas) - cost else old(gas)
    {
      ok := gas >= cost;
      if ok {
        gas := gas - cost;
      }
    }

    // `hostFails` says that the host could not load the slot. The top of the stack is its last
    // element: first the index, below it the value.
    method SstoreEip1283(hostFails: bool)
      requires halted == Running
      modifies `stack, `gas, `refund, `storage, `halted
      ensures isStatic ==>
                halted == StateChangeDuringStaticCall && unchanged(`stack, `gas, `refund, `storage)
      ensures !isStatic && |old(stack)| < 2 ==>
                halted == StackUnderflow && unchanged(`stack, `gas, `refund, `storage)
      ensures !isStatic && |old(stack)| >= 2 ==>
                var n := |old(stack)|;
                var slot, value := (target, old(stack)[n - 1]), old(stack)[n - 2];
                var v := ValuesAt(old(storage), slot, value);
                var cost := table.sstoreStatic + DynamicGas(table, v);
                && stack == old(stack)[..n - 2]
                && (halted == Running <==> !hostFails && old(gas) >= cost)
                && (halted == Running ==>
                      && gas == old(gas) - cost
                      && refund == old(refund) + Refund(table, v)
                      && storage == old(storage).(present := old(storage).present[slot := value]))
                && (halted == FatalExternalError <==> hostFails && old(gas) >= table.sstoreStatic)
                && (halted == OutOfGas <==> old(gas) < if hostFails then table.sstoreStatic else cost)
                && (halted != Running ==>
                      && gas == (if old(gas) < table.sstoreStatic then old(gas) else old(gas) - table.sstoreStatic)
                      && refund == old(refund)
                      // An unaffordable store has been made in the journal by then, which the caller reverts.
                      && storage == (if hostFails || old(gas) < table.sstoreStatic then old(storage)
                                     else old(storage).(present := old(storage).present[slot := value])))
    {
      if isStatic {
        halted := StateChangeDuringStaticCall;
        return;
      }
      if |stack| < 2 {
        halted := StackUnderflow;
        return;
      }
      var index, value := stack[|stack| - 1], stack[|stack| - 2];
      stack := stack[..|stack| - 2];
      var ok := RecordRegularCost(table.sstoreStatic);
      if !ok {
        halted := OutOfGas;
        return;
      }
      if hostFails {
        halted := FatalExternalError;
        return;
      }
      var v := ValuesAt(storage, (target, index), value);
      storage := storage.(present := storage.present[(target, index) := value]);
      ok := RecordRegularCost(DynamicGas(table, v));
      if !ok {
        halted := OutOfGas;
        return;
      }
      refund := refund + Refund(table, v);
    }
  }

  /*** Sequences of stores in one transaction ***/

  datatype Store = Store(slot: Slot, value: nat)

  function Stored(st: Storage, s: Store): Storage {
    st.(present := st.present[s.slot := s.value])
  }

  function AfterStores(st: Storage, stores: seq<Store>): Storage {
    if stores == [] then st else Stored(AfterStores(st, stores[..|stores| - 1]), stores[|stores| - 1])
  }

  // Gas spent on, and refunds collected from, the stores to one slot.
  function SlotGas(g: GasTable, st: Storage, stores: seq<Store>, slot: Slot): nat {
    if stores == [] then 0
    else
      var init, s := stores[..|stores| - 1], stores[|stores| - 1];
      SlotGas(g, st, init, slot) +
      if s.slot == slot then g.sstoreStatic + DynamicGas(g, ValuesAt(AfterStores(st, init), slot, s.value)) else 0
  }

  function SlotRefund(g: GasTable, st: Storage, stores: seq<Store>, slot: Slot): int {
    if stores == [] then 0
    else
      var init, s := stores[..|stores| - 1], stores[|stores| - 1];
      SlotRefund(g, st, init, slot) +
      if s.slot == slot then Refund(g, ValuesAt(AfterStores(st, init), slot, s.value)) else 0
  }

  function StoresTo(stores: seq<Store>, slot: Slot): nat {
    if stores == [] then 0
    else StoresTo(stores[..|stores| - 1], slot) + if stores[|stores| - 1].slot == slot then 1 else 0
  }

  // What a slot's journey from its original to its present value costs, net of refunds.
  function NetCost(original: nat, present: nat): int {
    if present == original then 0
    else if original == 0 then 19800
    else if present == 0 then 4800 - 15000
    else 4800
  }

  // No slot has been written yet in the transaction.
  predicate Untouched(st: Storage, slot: Slot) {
    Lookup(st.present, slot) == Lookup(st.original, slot)
  }

  lemma {:induction false} OriginalFixed(st: Storage, stores: seq<Store>)
    ensures AfterStores(st, stores).original == st.original
  {
    if stores != [] {
      OriginalFixed(st, stores[..|stores| - 1]);
    }
  }

  lemma StoreIsNet(g: GasTable, v: StoreValues)
    requires Eip1283Table(g)
    ensures g.sstoreStatic + DynamicGas(g, v) - Refund(g, v)
            == 200 + NetCost(v.original, v.next) - NetCost(v.original, v.present)
  {
  }

  // Main result: however the stores to a slot interleave with stores to other slots, n of them cost
  // 200 * n plus the net cost of taking the slot from its original to its final value.
  lemma {:induction false} SlotTelescopes(g: GasTable, st: Storage, stores: seq<Store>, slot: Slot)
    requires Eip1283Table(g)
    requires Untouched(st, slot)
    ensures SlotGas(g, st, stores, slot) - SlotRefund(g, st, stores, slot)
            == 200 * StoresTo(stores, slot)
               + NetCost(Lookup(st.original, slot), Lookup(AfterStores(st, stores).present, slot))
  {
    if stores != [] {
      var init, s := stores[..|stores| - 1], stores[|stores| - 1];
      SlotTelescopes(g, st, init, slot);
      OriginalFixed(st, init);
      if s.slot == slot {
        StoreIsNet(g, ValuesAt(AfterStores(st, init), slot, s.value));
      }
    }
  }

  // The refunds of a slot never go negative; while a nonzero slot is cleared they hold its
  // clearing refund.
  lemma {:induction false} SlotRefundNonNegative(g: GasTable, st: Storage, stores: seq<Store>, slot: Slot)
    requires Eip1283Table(g)
    requires Untouched(st, slot)
    ensures var original, present := Lookup(st.original, slot), Lookup(AfterStores(st, stores).present, slot);
            SlotRefund(g, st, stores, slot) >= if original != 0 && present == 0 then CLEARING_REFUND else 0
  {
    if stores != [] {
      var init, s := stores[..|stores| - 1], stores[|stores| - 1];
      SlotRefundNonNegative(g, st, init, slot);
      OriginalFixed(st, init);
      if s.slot == slot {
        TableMatchesEip(g, ValuesAt(AfterStores(st, init), slot, s.value));
      }
    }
  }

  /*** The whole transaction ***/

  function TotalGas(g: GasTable, st: Storage, stores: seq<Store>): nat {
    if stores == [] then 0
    else
      var init, s := stores[..|stores| - 1], stores[|stores| - 1];
      TotalGas(g, st, init) + g.sstoreStatic + DynamicGas(g, ValuesAt(AfterStores(st, init), s.slot, s.value))
  }

  function TotalRefund(g: GasTable, st: Storage, stores: seq<Store>): int {
    if stores == [] then 0
    else
      var init, s := stores[..|stores| - 1], stores[|stores| - 1];
      TotalRefund(g, st, init) + Refund(g, ValuesAt(AfterStores(st, init), s.slot, s.value))
  }

  // Net cost of a list of slots.
  function NetCostOf(st: Storage, present: map<Slot, nat>, slots: seq<Slot>): int {
    if slots == [] then 0
    else NetCostOf(st, present, slots[1..]) + NetCost(Lookup(st.original, slots[0]), Lookup(present, slots[0]))
  }

  // Writing one slot changes the net cost of a list by that slot's own change.
  lemma {:induction false} NetCostOfUpdate(st: Storage, present: map<Slot, nat>, slots: seq<Slot>, slot: Slot,
      value: nat)
    requires Distinct(slots)
    ensures NetCostOf(st, present[slot := value], slots) - NetCostOf(st, present, slots)
            == if slot in slots
               then NetCost(Lookup(st.original, slot), value)
                    - NetCost(Lookup(st.original, slot), Lookup(present, slot))
               else 0
  {
    if slots != [] {
      NetCostOfUpdate(st, present, slots[1..], slot, value);
    }
  }

  lemma {:induction false} UntouchedCostNothing(st: Storage, slots: seq<Slot>)
    requires forall s :: s in slots ==> Untouched(st, s)
    ensures NetCostOf(st, st.present, slots) == 0
  {
    if slots != [] {
      assert slots[0] in slots;
      UntouchedCostNothing(st, slots[1..]);
    }
  }

  // The whole transaction: all its stores together cost 200 each plus the net cost of every slot
  // they touch, whatever their order.
  lemma {:induction false} TransactionTelescopes(g: GasTable, st: Storage, stores: seq<Store>, slots: seq<Slot>)
    requires Eip1283Table(g)
    requires Distinct(slots)
    requires forall s :: s in slots ==> Untouched(st, s)
    requires forall i :: 0 <= i < |stores| ==> stores[i].slot in slots
    ensures TotalGas(g, st, stores) - TotalRefund(g, st, stores)
            == 200 * |stores| + NetCostOf(st, AfterStores(st, stores).present, slots)
  {
    if stores == [] {
      UntouchedCostNothing(st, slots);
    } else {
      var init, s := stores[..|stores| - 1], stores[|stores| - 1];
      TransactionTelescopes(g, st, init, slots);
      OriginalFixed(st, init);
      var before := AfterStores(st, init);
      NetCostOfUpdate(st, before.present, slots, s.slot, s.value);
      StoreIsNet(g, ValuesAt(before, s.slot, s.value));
    }
  }

  // A slot that neither map has is zero.
  lemma AbsentSlotIsZero(g: GasTable, st: Storage, slot: Slot, value: nat)
    requires Eip1283Table(g)
    requires slot !in st.original && slot !in st.present && value != 0
    ensures TotalGas(g, st, [Store(slot, value)]) == 20000 && TotalRefund(g, st, [Store(slot, value)]) == 0
    ensures TotalGas(g, st, [Store(slot, 0)]) == 200 && TotalRefund(g, st, [Store(slot, 0)]) == 0
  {
    assert [Store(slot, value)][..0] == [] && [Store(slot, 0)][..0] == [];
  }

  /*** The instruction, store after store ***/

  lemma {:induction false} TotalGasGrows(g: GasTable, st: Storage, stores: seq<Store>, k: nat)
    requires k <= |stores|
    ensures TotalGas(g, st, stores[..k]) <= TotalGas(g, st, stores)
    decreases |stores|
  {
    if k < |stores| {
      var init := stores[..|stores| - 1];
      assert init[..k] == stores[..k];
      TotalGasGrows(g, st, init, k);
    } else {
      assert stores[..k] == stores;
    }
  }

  // Runs the instruction for each store of a transaction in turn, in a frame of the store's account,
  // with its operands on the stack. All of them succeed iff the gas covers the total; then the gas
  // spent, the refunds and the storage are those that the totals speak of.
  method RunStores(table: GasTable, st: Storage, stores: seq<Store>, gas: nat)
    returns (ok: bool, gasLeft: nat, refund: int, storage: Storage)
    ensures ok <==> gas >= TotalGas(table, st, stores)
    ensures ok ==>
              && gasLeft == gas - TotalGas(table, st, stores)
              && refund == TotalRefund(table, st, stores)
              && storage == AfterStores(st, stores)
  {
    ok, gasLeft, refund, storage := true, gas, 0, st;
    for i := 0 to |stores|
      invariant gas >= TotalGas(table, st, stores[..i]) && gasLeft == gas - TotalGas(table, st, stores[..i])
      invariant refund == TotalRefund(table, st, stores[..i])
      invariant storage == AfterStores(st, stores[..i])
    {
      assert stores[..i + 1][..i] == stores[..i];
      var (account, index) := stores[i].slot;
      var frame := new Interpreter(false, account, table, [stores[i].value, index], gasLeft, refund, storage);
      frame.SstoreEip1283(false);
      if frame.halted != Running {
        TotalGasGrows(table, st, stores, i + 1);
        ok := false;
        return;
      }
      gasLeft, refund, storage := frame.gas, frame.refund, frame.storage;
    }
    assert stores[..|stores|] == stores;
  }
}
