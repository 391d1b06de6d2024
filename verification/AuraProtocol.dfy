// One AuRa block, as it drives the rolling-finality tracker: the per-block context takes the
// schedule (src/evm_config.rs), the executor refreshes the validators and calls finalizeChange
// before the transactions, and detects events and pushes the signer after them (src/block.rs).

module AuraEvents {
  import opened Primitives

  // keccak256("InitiateChange(bytes32,address[])")
  const INITIATE_CHANGE_TOPIC: nat := 0x55252fa6eee4741b4e24a74a70e9c11fd2c2281df8d6ea13126ff845f7825c89

  datatype Log = Log(address: Address, topics: seq<nat>)

  datatype Receipt = Receipt(logs: seq<Log>)

  predicate IsInitiateChange(log: Log, contract: Address) {
    log.address == contract && |log.topics| > 0 && log.topics[0] == INITIATE_CHANGE_TOPIC
  }

  predicate LogsContainInitiateChange(logs: seq<Log>, contract: Address) {
    exists log :: log in logs && IsInitiateChange(log, contract)
  }

  predicate ReceiptsContainInitiateChange(receipts: seq<Receipt>, contract: Address) {
    exists receipt :: receipt in receipts && LogsContainInitiateChange(receipt.logs, contract)
  }

  /*** In terms of positions and the literal topic ***/

  // The log at position `i` comes from `contract` and has the event's topic first.
  ghost predicate EventLogAt(logs: seq<Log>, i: int, contract: Address) {
    && 0 <= i < |logs| && logs[i].address == contract && |logs[i].topics| > 0
    && logs[i].topics[0] == 0x55252fa6eee4741b4e24a74a70e9c11fd2c2281df8d6ea13126ff845f7825c89
  }

  ghost predicate EventLogIn(receipts: seq<Receipt>, i: int, j: int, contract: Address) {
    0 <= i < |receipts| && EventLogAt(receipts[i].logs, j, contract)
  }

  lemma LogsExact(logs: seq<Log>, contract: Address)
    ensures LogsContainInitiateChange(logs, contract) <==> exists i :: EventLogAt(logs, i, contract)
  {
    if LogsContainInitiateChange(logs, contract) {
      var log :| log in logs && IsInitiateChange(log, contract);
      var i :| 0 <= i < |logs| && logs[i] == log;
      assert EventLogAt(logs, i, contract);
    }
    if i :| EventLogAt(logs, i, contract) {
      assert logs[i] in logs && IsInitiateChange(logs[i], contract);
    }
  }

  lemma ReceiptsExact(receipts: seq<Receipt>, contract: Address)
    ensures ReceiptsContainInitiateChange(receipts, contract)
            <==> exists i, j :: EventLogIn(receipts, i, j, contract)
  {
    if ReceiptsContainInitiateChange(receipts, contract) {
      var receipt :| receipt in receipts && LogsContainInitiateChange(receipt.logs, contract);
      LogsExact(receipt.logs, contract);
      var i :| 0 <= i < |receipts| && receipts[i] == receipt;
      var j :| EventLogAt(receipt.logs, j, contract);
      assert EventLogIn(receipts, i, j, contract);
    }
    if i, j :| EventLogIn(receipts, i, j, contract) {
      LogsExact(receipts[i].logs, contract);
      assert receipts[i] in receipts && LogsContainInitiateChange(receipts[i].logs, contract);
    }
  }
}

module AuraProtocol {
  import opened Primitives
  import opened FinalityRules
  import opened ValidatorSets
  import opened AuraEvents
  import Abi = AbiAddressArray

  datatype Config = Config(sets: Sets, posdao: nat, merge: nat)

  // What a system call comes back with.
  datatype CallResult = EvmError | NotSuccess | Success(output: seq<byte>)

  // Everything about a block that the protocol does not decide itself. `executes` says whether the
  // transactions and system calls succeed, `settles` whether the balance increments do that follow
  // the protocol's own steps.
  datatype BlockInput = BlockInput(
    signer: Address,
    receipts: seq<Receipt>,
    rewardLogs: seq<Log>,
    executes: bool,
    settles: bool,
    initAnswer: CallResult,
    finalizeAnswer: CallResult,
    refreshAnswer: CallResult)

  datatype AuraCtx = AuraCtx(finalizeChange: Option<Address>, contract: Option<Address>)

  datatype SystemCall = FinalizeChange(contract: Address) | GetValidators(contract: Address)

  datatype Outcome = Outcome(tracker: Tracker, calls: seq<SystemCall>, ok: bool)

  /*** The context: where the schedule is taken ***/

  // The contract on which finalizeChange is due at block `n`.
  function FinalizeTarget(cfg: Config, t: Tracker, n: nat): Option<Address> {
    match BoundaryFinalize(cfg.sets, n)
    case Some(c) => Some(c)
    case None => if Due(t, n) then Some(t.scheduled.value.contract) else None
  }

  function AfterContext(cfg: Config, t: Tracker, n: nat): Tracker {
    if n < cfg.merge && BoundaryFinalize(cfg.sets, n).None? then Taken(t, n) else t
  }

  function ContextOf(cfg: Config, t: Tracker, n: nat): Option<AuraCtx> {
    if n < cfg.merge then Some(AuraCtx(FinalizeTarget(cfg, t, n), ContractAt(cfg.sets, n))) else None
  }

  /*** Before the transactions ***/

  function Refreshed(o: Outcome, contract: Address, answer: CallResult): Outcome {
    var calls := o.calls + [GetValidators(contract)];
    if answer.Success? && Abi.Decoded(answer.output).Some? then
      Outcome(WithValidators(o.tracker, Abi.Decoded(answer.output).value), calls, true)
    else Outcome(o.tracker, calls, false)
  }

  function Initialized(posdao: nat, t: Tracker, ctx: AuraCtx, n: nat, b: BlockInput): Outcome {
    if n >= posdao && ctx.contract.Some? && |t.validators| == 0 then
      Refreshed(Outcome(t, [], true), ctx.contract.value, b.initAnswer)
    else Outcome(t, [], true)
  }

  function PreExecuted(posdao: nat, t: Tracker, ctx: AuraCtx, n: nat, b: BlockInput): Outcome {
    var o := Initialized(posdao, t, ctx, n, b);
    if !o.ok || ctx.finalizeChange.None? then o
    else
      var c := ctx.finalizeChange.value;
      var called := Outcome(o.tracker, o.calls + [FinalizeChange(c)], !b.finalizeAnswer.EvmError?);
      if called.ok && n >= posdao then Refreshed(called, c, b.refreshAnswer) else called
  }

  /*** After the transactions ***/

  predicate EventDetected(b: BlockInput, contract: Address) {
    ReceiptsContainInitiateChange(b.receipts, contract) || LogsContainInitiateChange(b.rewardLogs, contract)
  }

  function EventRecorded(posdao: nat, t: Tracker, ctx: AuraCtx, n: nat, b: BlockInput): Tracker {
    match ctx.contract
    case Some(c) =>
      if !EventDetected(b, c) then t
      else if n >= posdao then WithPending(t, n, c)
      else WithSchedule(t, n + 1, c)
    case None => t
  }

  function Finished(posdao: nat, t: Tracker, ctx: AuraCtx, n: nat, b: BlockInput): Tracker {
    var t' := EventRecorded(posdao, t, ctx, n, b);
    if n >= posdao then Pushed(t', n, b.signer) else t'
  }

  /*** The whole block ***/

  // The tracker that a successful block pushes its signer onto.
  function BeforePush(cfg: Config, t: Tracker, n: nat, b: BlockInput): Tracker
    requires n < cfg.merge
  {
    var ctx := ContextOf(cfg, t, n).value;
    EventRecorded(cfg.posdao, PreExecuted(cfg.posdao, AfterContext(cfg, t, n), ctx, n, b).tracker, ctx, n, b)
  }

  function Executed(cfg: Config, t: Tracker, n: nat, b: BlockInput): Outcome {
    match ContextOf(cfg, t, n)
    case None => Outcome(t, [], b.executes && b.settles)
    case Some(ctx) =>
      var pre := PreExecuted(cfg.posdao, AfterContext(cfg, t, n), ctx, n, b);
      if !pre.ok || !b.executes then Outcome(pre.tracker, pre.calls, false)
      else Outcome(Finished(cfg.posdao, pre.tracker, ctx, n, b), pre.calls, b.settles)
  }
}

// The objects that carry this out.
module AuraExecution {
  import opened Primitives
  import opened FinalityRules
  import opened RollingFinalityTracker
  import opened ValidatorSets
  import opened AuraEvents
  import opened AuraProtocol
  import Abi = AbiAddressArray

  class GnosisEvmConfig {
    const config: Config
    const rollingFinality: RollingFinality

    constructor (config: Config, rollingFinality: RollingFinality)
      ensures this.config == config && this.rollingFinality == rollingFinality
    {
      this.config := config;
      this.rollingFinality := rollingFinality;
    }

    method ContextForBlock(n: nat) returns (ctx: Option<AuraCtx>)
      requires rollingFinality.Valid()
      modifies rollingFinality
      ensures rollingFinality.Valid()
      ensures ctx == ContextOf(config, old(rollingFinality.View()), n)
      ensures rollingFinality.View() == AfterContext(config, old(rollingFinality.View()), n)
      ensures ctx.Some? <==> n < config.merge
      ensures n >= config.merge ==> rollingFinality.View() == old(rollingFinality.View())
      ensures ctx.Some? ==> ctx.value.contract == ContractAt(config.sets, n)
    {
      if n >= config.merge {
        return None;
      }
      var finalizeChange := BoundaryFinalize(config.sets, n);
      if finalizeChange.None? {
        finalizeChange := rollingFinality.TakeFinalizeChange(n);
      }
      return Some(AuraCtx(finalizeChange, ContractAt(config.sets, n)));
    }
  }

  class GnosisBlockExecutor {
    const posdao: nat
    const ctx: Option<AuraCtx>
    const rollingFinality: RollingFinality
    const number: nat
    const input: BlockInput
    var systemCalls: seq<SystemCall>

    constructor (config: GnosisEvmConfig, ctx: Option<AuraCtx>, number: nat, input: BlockInput)
      ensures posdao == config.config.posdao && rollingFinality == config.rollingFinality
      ensures this.ctx == ctx && this.number == number && this.input == input
      ensures systemCalls == []
    {
      posdao, rollingFinality := config.config.posdao, config.rollingFinality;
      this.ctx, this.number, this.input := ctx, number, input;
      systemCalls := [];
    }

    ghost function Now(ok: bool): Outcome
      reads this, rollingFinality
    {
      Outcome(rollingFinality.View(), systemCalls, ok)
    }

    method RefreshValidatorsViaGetValidators(contract: Address, answer: CallResult) returns (ok: bool)
      requires rollingFinality.Valid()
      modifies this`systemCalls, rollingFinality
      ensures rollingFinality.Valid()
      ensures Now(ok) == Refreshed(old(Now(true)), contract, answer)
    {
      systemCalls := systemCalls + [GetValidators(contract)];
      if !answer.Success? {
        return false;
      }
      var decoded := Abi.DecodeAddressArray(answer.output);
      if decoded.Err? {
        return false;
      }
      rollingFinality.SetValidators(decoded.value);
      return true;
    }

    method ApplyPreExecutionChanges() returns (ok: bool)
      requires rollingFinality.Valid()
      requires systemCalls == []
      modifies this`systemCalls, rollingFinality
      ensures rollingFinality.Valid()
      ensures ctx.None? ==> Now(ok) == old(Now(true))
      ensures ctx.Some? ==> Now(ok) == PreExecuted(posdao, old(rollingFinality.View()), ctx.value, number, input)
    {
      if ctx.None? {
        return true;
      }
      var aura := ctx.value;
      var isPosdao := number >= posdao;
      if isPosdao && aura.contract.Some? {
        var needsInit := rollingFinality.ValidatorCount() == 0;
        if needsInit {
          ok := RefreshValidatorsViaGetValidators(aura.contract.value, input.initAnswer);
          if !ok {
            return;
          }
        }
      }
      if aura.finalizeChange.Some? {
        systemCalls := systemCalls + [FinalizeChange(aura.finalizeChange.value)];
        if input.finalizeAnswer.EvmError? {
          return false;
        }
        if isPosdao {
          ok := RefreshValidatorsViaGetValidators(aura.finalizeChange.value, input.refreshAnswer);
          return;
        }
      }
      return true;
    }

    // The AuRa part of `finish`.
    method Finish()
      requires rollingFinality.Valid()
      modifies rollingFinality
      ensures rollingFinality.Valid()
      ensures ctx.None? ==> rollingFinality.View() == old(rollingFinality.View())
      ensures ctx.Some? ==>
                rollingFinality.View() == Finished(posdao, old(rollingFinality.View()), ctx.value, number, input)
    {
      if ctx.None? {
        return;
      }
      var isPosdao := number >= posdao;
      if ctx.value.contract.Some? {
        var contract := ctx.value.contract.value;
        var inReceipts := ReceiptsContainInitiateChange(input.receipts, contract);
        var inReward := LogsContainInitiateChange(input.rewardLogs, contract);
        if inReceipts || inReward {
          if isPosdao {
            rollingFinality.AddPendingTransition(number, contract);
          } else {
            rollingFinality.SetImmediateFinalize(number + 1, contract);
          }
        }
      }
      if isPosdao {
        var _ := rollingFinality.Push(number, input.signer);
      }
    }
  }

  // Context, pre-execution, transactions, finish, balance increments: the order in which a block is
  // executed. A block that fails at the end leaves its event and its signer in the tracker.
  method ExecuteBlock(config: GnosisEvmConfig, n: nat, b: BlockInput) returns (ok: bool, calls: seq<SystemCall>)
    requires config.rollingFinality.Valid()
    modifies config.rollingFinality
    ensures config.rollingFinality.Valid()
    ensures Outcome(config.rollingFinality.View(), calls, ok)
            == Executed(config.config, old(config.rollingFinality.View()), n, b)
  {
    var ctx := config.ContextForBlock(n);
    var executor := new GnosisBlockExecutor(config, ctx, n, b);
    ok := executor.ApplyPreExecutionChanges();
    if ok && b.executes {
      executor.Finish();
      ok := b.settles;
    } else {
      ok := false;
    }
    calls := executor.systemCalls;
  }
}
