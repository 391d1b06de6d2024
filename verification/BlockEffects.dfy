// What one block does, in terms of its logs, the answers it gets, and the merge: the steps of
// src/block.rs and src/evm_config.rs seen from outside.
module BlockEffects {
  import opened Primitives
  import opened FinalityRules
  import opened ValidatorSets
  import opened AuraEvents
  import opened AuraProtocol
  import opened ProtocolRuns
  import opened FinalizeChangeSafety
  import Abi = AbiAddressArray

  /*** What a block records ***/

  // Some log of the block's receipts or of its reward call, at some position, comes from `c` and has
  // the InitiateChange topic first.
  ghost predicate Logged(b: BlockInput, c: Address) {
    (exists i, j :: EventLogIn(b.receipts, i, j, c)) || exists j :: EventLogAt(b.rewardLogs, j, c)
  }

  // It comes from the contract in force at block `n`.
  ghost predicate LoggedInForce(cfg: Config, n: nat, b: BlockInput, c: Address) {
    ContractAt(cfg.sets, n) == Some(c) && Logged(b, c)
  }

  lemma DetectedExact(b: BlockInput, c: Address)
    ensures EventDetected(b, c) <==> Logged(b, c)
  {
    ReceiptsExact(b.receipts, c);
    LogsExact(b.rewardLogs, c);
  }

  lemma EventExact(cfg: Config, r: Run, n: nat)
    requires r.Has(n)
    ensures HasEvent(cfg, r, n) <==> exists c :: LoggedInForce(cfg, n, r.Block(n), c)
  {
    match ContractAt(cfg.sets, n) {
      case Some(c) => DetectedExact(r.Block(n), c);
      case None =>
    }
    assert HasEvent(cfg, r, n) ==> LoggedInForce(cfg, n, r.Block(n), ContractAt(cfg.sets, n).value);
  }

  // From POSDAO on, a block adds itself to the pending transitions iff it logs the event, with the
  // contract in force, and adds nothing else. It is still pending afterwards unless it is final at once.
  lemma PendingRecordedExact(cfg: Config, r: Run, n: nat, c: Address)
    requires ValidRun(cfg, r) && r.Has(n) && cfg.posdao <= n
    requires Started(r)
    ensures n in r.Mid(n).pending && r.Mid(n).pending[n] == c <==> LoggedInForce(cfg, n, r.Block(n), c)
    ensures n in r.At(n + 1).pending && r.At(n + 1).pending[n] == c
            <==> LoggedInForce(cfg, n, r.Block(n), c) && n !in Numbers(r.Finalized(n))
    ensures forall k :: k != n ==> (k in r.Mid(n).pending <==> k in r.At(n).pending)
  {
    EventExact(cfg, r, n);
    PendingInvariant(cfg, r, n);
    MidTransitions(cfg, r, n);
    NextState(cfg, r, n);
    FinalizedIsBatch(cfg, r, n);
    PushedPending(r.Mid(n), n, r.Block(n).signer);
  }

  // Before POSDAO, it schedules a call for the next block iff it logs the event, and leaves the pending
  // transitions alone.
  lemma ScheduleRecordedExact(cfg: Config, r: Run, n: nat, c: Address)
    requires ValidRun(cfg, r) && r.Has(n) && n < cfg.posdao
    requires Started(r)
    ensures r.At(n + 1).scheduled == Some(Schedule(n + 1, c)) <==> LoggedInForce(cfg, n, r.Block(n), c)
    ensures r.At(n + 1).pending == r.At(n).pending
  {
    EventExact(cfg, r, n);
    NeverDeferred(cfg, r, n);
    MidTransitions(cfg, r, n);
    NextState(cfg, r, n);
  }

  /*** When a block succeeds, and what a failing one leaves ***/

  predicate Answers(a: CallResult) {
    a.Success? && Abi.Decoded(a.output).Some?
  }

  // The protocol's own calls succeed: getValidators answers with a list wherever it is asked, and
  // finalizeChange, when called, at least runs.
  predicate CallsSucceed(cfg: Config, t: Tracker, n: nat, b: BlockInput) {
    && (n >= cfg.posdao && t.validators == [] && ContractAt(cfg.sets, n).Some? ==> Answers(b.initAnswer))
    && (FinalizeTarget(cfg, t, n).Some? ==> !b.finalizeAnswer.EvmError?)
    && (FinalizeTarget(cfg, t, n).Some? && n >= cfg.posdao ==> Answers(b.refreshAnswer))
  }

  lemma SuccessExact(cfg: Config, t: Tracker, n: nat, b: BlockInput)
    requires n < cfg.merge
    ensures Executed(cfg, t, n, b).ok <==> CallsSucceed(cfg, t, n, b) && b.executes && b.settles
  {
  }

  // A block that fails before its end records no event and pushes no signer; what its calls did stays.
  // One that fails at the very end leaves what the successful block would.
  lemma FailedBlockLeaves(cfg: Config, t: Tracker, n: nat, b: BlockInput)
    requires n < cfg.merge && !Executed(cfg, t, n, b).ok
    ensures var t' := Executed(cfg, t, n, b).tracker;
            if CallsSucceed(cfg, t, n, b) && b.executes then
              t' == Executed(cfg, t, n, b.(settles := true)).tracker
            else
              && t'.pending == t.pending
              && t'.scheduled == (if TakesSchedule(cfg, t, n) then None else t.scheduled)
              && (t'.queue == t.queue || t'.queue == [])
  {
    var ctx, start := ContextOf(cfg, t, n).value, AfterContext(cfg, t, n);
    SuccessfulCalls(cfg, t, n, b);
    RefreshKeepsTransitions(cfg.posdao, start, ctx, n, b);
    if CallsSucceed(cfg, t, n, b) && b.executes {
      SettlesLast(cfg, t, n, b);
    } else {
      assert Executed(cfg, t, n, b).tracker == PreExecuted(cfg.posdao, start, ctx, n, b).tracker;
    }
  }

  lemma SuccessfulCalls(cfg: Config, t: Tracker, n: nat, b: BlockInput)
    requires n < cfg.merge
    ensures PreExecuted(cfg.posdao, AfterContext(cfg, t, n), ContextOf(cfg, t, n).value, n, b).ok
            <==> CallsSucceed(cfg, t, n, b)
  {
  }

  // Whether the balance increments succeed makes no difference to the tracker.
  lemma SettlesLast(cfg: Config, t: Tracker, n: nat, b: BlockInput)
    requires n < cfg.merge
    ensures Executed(cfg, t, n, b).tracker == Executed(cfg, t, n, b.(settles := true)).tracker
  {
  }

  /*** After the merge ***/

  // A block from the merge on is none of the protocol's business.
  lemma PostMergeBlock(cfg: Config, t: Tracker, n: nat, b: BlockInput)
    requires n >= cfg.merge
    ensures ContextOf(cfg, t, n).None? && AfterContext(cfg, t, n) == t
    ensures Executed(cfg, t, n, b) == Outcome(t, [], b.executes && b.settles)
  {
  }

  // Blocks `n`, `n + 1`, ... executed one after the other, whether they succeed or not.
  function ExecutedAll(cfg: Config, t: Tracker, n: nat, blocks: seq<BlockInput>): Outcome {
    if blocks == [] then Outcome(t, [], true)
    else
      var o := ExecutedAll(cfg, t, n, blocks[..|blocks| - 1]);
      var last := Executed(cfg, o.tracker, n + |blocks| - 1, blocks[|blocks| - 1]);
      Outcome(last.tracker, o.calls + last.calls, o.ok && last.ok)
  }

  // However many of them, the tracker stays what it was at the merge, and no system call is made.
  lemma {:induction false} PostMergeBlocks(cfg: Config, t: Tracker, n: nat, blocks: seq<BlockInput>)
    requires n >= cfg.merge
    ensures var o := ExecutedAll(cfg, t, n, blocks);
            && o.tracker == t && o.calls == []
            && (o.ok <==> forall b :: b in blocks ==> b.executes && b.settles)
  {
    if blocks != [] {
      var init, last := blocks[..|blocks| - 1], blocks[|blocks| - 1];
      PostMergeBlocks(cfg, t, n, init);
      PostMergeBlock(cfg, t, n + |init|, last);
      assert blocks == init + [last];
    }
  }
}
