// The main results about finalizeChange over whole runs.
module FinalizeChangeSafety {
  import opened Primitives
  import opened FinalityRules
  import opened ValidatorSets
  import opened AuraProtocol
  import opened ProtocolRuns
  import PendingLifecycle
  import Abi = AbiAddressArray

  /*** The system calls of a successful block ***/

  // The calls of a successful block, in order: to initialize, and for the finalize target.
  function Calls(init: Option<Address>, target: Option<Address>, posdao: bool): seq<SystemCall> {
    (match init case Some(c) => [GetValidators(c)] case None => [])
    + match target
      case Some(c) => [FinalizeChange(c)] + (if posdao then [GetValidators(c)] else [])
      case None => []
  }

  lemma CallsMeaning(init: Option<Address>, target: Option<Address>, posdao: bool, c: Address)
    ensures FinalizeChange(c) in Calls(init, target, posdao) <==> target == Some(c)
    ensures GetValidators(c) in Calls(init, target, posdao) <==> init == Some(c) || (posdao && target == Some(c))
  {
  }

  lemma CallsOfBlock(cfg: Config, t: Tracker, n: nat, b: BlockInput)
    requires n < cfg.merge
    requires Executed(cfg, t, n, b).ok
    ensures var init := if n >= cfg.posdao && t.validators == [] then ContractAt(cfg.sets, n) else None;
            Executed(cfg, t, n, b).calls == Calls(init, FinalizeTarget(cfg, t, n), n >= cfg.posdao)
  {
  }

  // A successful block calls finalizeChange exactly on its finalize target. From POSDAO on it calls
  // getValidators on that target, and on its own contract when there is no set yet; before POSDAO it
  // never does.
  lemma SystemCallsOfBlock(cfg: Config, t: Tracker, n: nat, b: BlockInput, c: Address)
    requires n < cfg.merge
    requires Executed(cfg, t, n, b).ok
    ensures FinalizeChange(c) in Executed(cfg, t, n, b).calls <==> FinalizeTarget(cfg, t, n) == Some(c)
    ensures GetValidators(c) in Executed(cfg, t, n, b).calls <==>
              n >= cfg.posdao
              && (FinalizeTarget(cfg, t, n) == Some(c) || (ContractAt(cfg.sets, n) == Some(c) && t.validators == []))
  {
    var init := if n >= cfg.posdao && t.validators == [] then ContractAt(cfg.sets, n) else None;
    CallsOfBlock(cfg, t, n, b);
    CallsMeaning(init, FinalizeTarget(cfg, t, n), n >= cfg.posdao, c);
  }

  // The set a block pushes onto: the answer given after finalizeChange wins over the initializing
  // one, which is only asked for when there was no set. Both are asked for from POSDAO on only.
  lemma ValidatorsInForce(cfg: Config, r: Run, n: nat)
    requires ValidRun(cfg, r) && r.Has(n)
    ensures var s, b := r.At(n), r.Block(n);
            if n >= cfg.posdao && FinalizeTarget(cfg, s, n).Some? then
              b.refreshAnswer.Success? && Some(r.Mid(n).validators) == Abi.Decoded(b.refreshAnswer.output)
            else if n >= cfg.posdao && s.validators == [] && ContractAt(cfg.sets, n).Some? then
              b.initAnswer.Success? && Some(r.Mid(n).validators) == Abi.Decoded(b.initAnswer.output)
            else r.Mid(n).validators == s.validators
  {
    assert BlockSucceeds(cfg, r, n);
  }

  /*** Attempting a block again ***/

  // After an attempt at block `n`, successful or not, a schedule that was due is gone, and a new one is
  // not due at `n`.
  lemma ScheduleAfterAttempt(cfg: Config, t: Tracker, n: nat, b: BlockInput)
    requires n < cfg.merge
    ensures var s := Executed(cfg, t, n, b).tracker.scheduled;
            || s == (if TakesSchedule(cfg, t, n) then None else t.scheduled)
            || (s.Some? && s.value.target == n + 1)
  {
    var ctx := ContextOf(cfg, t, n).value;
    var mid := BeforePush(cfg, t, n, b);
    RefreshKeepsTransitions(cfg.posdao, AfterContext(cfg, t, n), ctx, n, b);
    CommitSchedules(mid.pending, mid.scheduled, Batch(mid, n, b.signer), n + 1);
  }

  // An attempt leaves the finalize target of the next attempt at the same block as it was iff it took no
  // schedule. When it took one, only the boundary rule could make the next attempt call.
  lemma RetryExact(cfg: Config, t: Tracker, n: nat, b: BlockInput)
    requires n < cfg.merge
    ensures var t' := Executed(cfg, t, n, b).tracker;
            && (FinalizeTarget(cfg, t', n) == FinalizeTarget(cfg, t, n) <==> !TakesSchedule(cfg, t, n))
            && (TakesSchedule(cfg, t, n) ==> FinalizeTarget(cfg, t', n).None?)
  {
    ScheduleAfterAttempt(cfg, t, n, b);
  }

  // So a scheduled call is lost with a failing attempt: the successful one that follows does not make
  // it, although it would have in the place of the first.
  lemma FailedAttemptLosesCall(cfg: Config, t: Tracker, n: nat, failing: BlockInput, b: BlockInput, c: Address)
    requires n < cfg.merge && TakesSchedule(cfg, t, n)
    requires !Executed(cfg, t, n, failing).ok
    requires Executed(cfg, t, n, b).ok && Executed(cfg, Executed(cfg, t, n, failing).tracker, n, b).ok
    ensures FinalizeChange(t.scheduled.value.contract) in Executed(cfg, t, n, b).calls
    ensures FinalizeChange(c) !in Executed(cfg, Executed(cfg, t, n, failing).tracker, n, b).calls
  {
    RetryExact(cfg, t, n, failing);
    SystemCallsOfBlock(cfg, t, n, b, t.scheduled.value.contract);
    SystemCallsOfBlock(cfg, Executed(cfg, t, n, failing).tracker, n, b, c);
  }

  /*** Every call has a cause ***/

  // The scheduled call at block `n` to contract `c` is justified by event block `m`: either due
  // at `n`, or due at `n - 1` and delayed by the boundary call made there.
  ghost predicate Causes(cfg: Config, r: Run, m: nat, n: nat, c: Address)
    requires ValidRun(cfg, r) && r.Has(n)
  {
    || Justifies(cfg, r, m, n, c)
    || (n > r.first && BoundaryFinalize(cfg.sets, n - 1).Some? && Justifies(cfg, r, m, n - 1, c))
  }

  // Every finalizeChange call is a boundary call, or has an event block of the same contract as its
  // cause, or comes from the schedule that the run started with, at its first two blocks. An event
  // before POSDAO is that of the block before the call was due; from POSDAO on, a strict majority of
  // the validators signed blocks from the event block up to the parent of the block it was due at.
  lemma FinalizeChangeIsCaused(cfg: Config, r: Run, n: nat, c: Address)
    requires ValidRun(cfg, r) && r.Has(n)
    requires Started(r)
    requires FinalizeTarget(cfg, r.At(n), n) == Some(c)
    ensures BoundaryFinalize(cfg.sets, n) == Some(c)
            || match Origin(cfg, r, n)
               case Some(m) => Causes(cfg, r, m, n, c)
               case None => HeldFromStart(cfg, r, n, r.At(n).scheduled) && r.At(r.first).scheduled.value.contract == c
  {
    ScheduleInvariant(cfg, r, n);
  }

  /*** No event block causes two calls ***/

  ghost function CausesUsed(cfg: Config, r: Run, n: nat): set<nat>
    requires ValidRun(cfg, r) && r.first <= n <= r.End()
  {
    if n == r.first then {}
    else
      CausesUsed(cfg, r, n - 1) +
      match Origin(cfg, r, n - 1)
      case Some(m) => if TakesSchedule(cfg, r.At(n - 1), n - 1) then {m} else {}
      case None => {}
  }

  // Causes lie in the past and are no longer pending; the current one has not been used.
  ghost predicate UsedOk(used: set<nat>, origin: Option<nat>, pending: map<nat, Address>, n: nat) {
    && (forall m :: m in used ==> m < n && m !in pending && origin != Some(m))
    && (origin.Some? ==> origin.value < n && origin.value !in pending)
  }

  // One block in the abstract: the schedule's cause may be used up, and the block may move a
  // pending block to the schedule (`h`) or introduce itself (`n`).
  lemma UsedStep(used: set<nat>, origin: Option<nat>, pending: map<nat, Address>, n: nat, taken: bool,
                 used': set<nat>, origin': Option<nat>, pending': map<nat, Address>)
    requires UsedOk(used, origin, pending, n)
    requires forall k :: k in pending ==> k < n
    requires used' == used + (if taken && origin.Some? then {origin.value} else {})
    requires pending'.Keys <= pending.Keys + {n}
    requires origin'.Some? ==> origin'.value !in pending'
    requires || origin' == (if taken then None else origin)
             || (origin'.Some? && (origin'.value in pending || origin'.value == n))
    ensures UsedOk(used', origin', pending', n + 1)
  {
  }

  lemma UsedAfterBlock(cfg: Config, r: Run, n: nat)
    requires ValidRun(cfg, r) && r.Has(n)
    requires Started(r)
    requires UsedOk(CausesUsed(cfg, r, n), Origin(cfg, r, n), r.At(n).pending, n)
    ensures UsedOk(CausesUsed(cfg, r, n + 1), Origin(cfg, r, n + 1), r.At(n + 1).pending, n + 1)
  {
    PendingInvariant(cfg, r, n);
    MidTransitions(cfg, r, n);
    NextState(cfg, r, n);
    if n >= cfg.posdao {
      FinalizedIsBatch(cfg, r, n);
      PushedPending(r.Mid(n), n, r.Block(n).signer);
      HighestInMeaning(r.Mid(n).pending, r.Finalized(n));
    }
    UsedStep(CausesUsed(cfg, r, n), Origin(cfg, r, n), r.At(n).pending, n, TakesSchedule(cfg, r.At(n), n),
             CausesUsed(cfg, r, n + 1), Origin(cfg, r, n + 1), r.At(n + 1).pending);
  }

  lemma {:induction false} UsedInvariant(cfg: Config, r: Run, n: nat)
    requires ValidRun(cfg, r) && r.first <= n <= r.End()
    requires Started(r)
    ensures UsedOk(CausesUsed(cfg, r, n), Origin(cfg, r, n), r.At(n).pending, n)
  {
    if n > r.first {
      UsedInvariant(cfg, r, n - 1);
      UsedAfterBlock(cfg, r, n - 1);
    }
  }

  lemma {:induction false} UsedGrows(cfg: Config, r: Run, a: nat, b: nat)
    requires ValidRun(cfg, r) && r.first <= a <= b <= r.End()
    ensures CausesUsed(cfg, r, a) <= CausesUsed(cfg, r, b)
  {
    if a < b {
      UsedGrows(cfg, r, a, b - 1);
    }
  }

  // A scheduled call without an event block as its cause comes from what the run started with, and
  // no scheduled call precedes it.
  lemma CallFromStart(cfg: Config, r: Run, b: nat)
    requires ValidRun(cfg, r) && r.Has(b)
    requires Started(r)
    requires TakesSchedule(cfg, r.At(b), b) && Origin(cfg, r, b).None?
    ensures r.At(r.first).scheduled.Some?
    ensures forall a :: r.first <= a < b ==> BoundaryFinalize(cfg.sets, a).Some?
  {
    ScheduleInvariant(cfg, r, b);
  }

  lemma CauseUsed(cfg: Config, r: Run, a: nat, b: nat)
    requires ValidRun(cfg, r) && r.Has(a) && r.Has(b) && a < b
    requires TakesSchedule(cfg, r.At(a), a) && Origin(cfg, r, a).Some?
    ensures Origin(cfg, r, a).value in CausesUsed(cfg, r, b)
  {
    UsedGrows(cfg, r, a + 1, b);
  }

  // Two scheduled calls have different causes; at most the first comes from what the run started with.
  lemma EachEventCallsAtMostOnce(cfg: Config, r: Run, a: nat, b: nat)
    requires ValidRun(cfg, r) && r.Has(a) && r.Has(b) && a < b
    requires Started(r)
    requires TakesSchedule(cfg, r.At(a), a) && TakesSchedule(cfg, r.At(b), b)
    ensures Origin(cfg, r, b).Some? && Origin(cfg, r, a) != Origin(cfg, r, b)
    ensures r.At(r.first).scheduled.None? ==> Origin(cfg, r, a).Some?
  {
    if Origin(cfg, r, b).None? {
      CallFromStart(cfg, r, b);
    }
    if Origin(cfg, r, a).Some? {
      CauseUsed(cfg, r, a, b);
      UsedInvariant(cfg, r, b);
    } else {
      CallFromStart(cfg, r, a);
    }
  }

  /*** Exactly when calls are made ***/

  // The contract that block `n` schedules, if it schedules one: before POSDAO that of its own
  // event, from POSDAO on that of the highest pending block its push finalizes.
  ghost function Schedules(cfg: Config, r: Run, n: nat): Option<Address>
    requires ValidRun(cfg, r) && r.Has(n)
  {
    if n < cfg.posdao then
      if HasEvent(cfg, r, n) then ContractAt(cfg.sets, n) else None
    else
      match HighestIn(r.Mid(n).pending, r.Finalized(n))
      case Some(h) => Some(r.Mid(n).pending[h])
      case None => None
  }

  // `h` is the highest event block that block `n` finalizes.
  ghost predicate HighestEvent(cfg: Config, r: Run, n: nat, h: nat)
    requires ValidRun(cfg, r) && r.Has(n)
  {
    && h in Numbers(r.Finalized(n)) && r.Has(h) && HasEvent(cfg, r, h)
    && forall k :: k in Numbers(r.Finalized(n)) && r.Has(k) && HasEvent(cfg, r, k) ==> k <= h
  }

  // The event that block `n` schedules a call for: before POSDAO its own, from POSDAO on the
  // highest that it finalizes.
  ghost predicate SchedulingEvent(cfg: Config, r: Run, n: nat, h: nat)
    requires ValidRun(cfg, r) && r.Has(n)
  {
    if n < cfg.posdao then h == n && HasEvent(cfg, r, n) else HighestEvent(cfg, r, n, h)
  }

  // In terms of events: a block schedules a call on `c` iff it has a scheduling event of `c`.
  lemma SchedulesExact(cfg: Config, r: Run, n: nat, c: Address)
    requires ValidRun(cfg, r) && r.Has(n)
    requires Started(r)
    ensures Schedules(cfg, r, n) == Some(c)
            <==> exists h :: SchedulingEvent(cfg, r, n, h) && ContractAt(cfg.sets, h) == Some(c)
  {
    var pending, batch := r.Mid(n).pending, r.Finalized(n);
    HighestInMeaning(pending, batch);
    forall k | k in Numbers(batch)
      ensures cfg.posdao <= n && r.first <= k <= n && (HasEvent(cfg, r, k) <==> k in pending)
      ensures HasEvent(cfg, r, k) ==> ContractAt(cfg.sets, k) == Some(pending[k])
    {
      FinalizedEvents(cfg, r, n, k);
    }
    if n < cfg.posdao {
      assert HasEvent(cfg, r, n) ==> SchedulingEvent(cfg, r, n, n);
    } else if HighestIn(pending, batch).Some? {
      assert SchedulingEvent(cfg, r, n, HighestIn(pending, batch).value);
    }
  }

  lemma ScheduleAfterBlock(cfg: Config, r: Run, n: nat)
    requires ValidRun(cfg, r) && r.Has(n)
    requires r.At(r.first).queue == []
    ensures r.At(n + 1).scheduled ==
              match Schedules(cfg, r, n)
              case Some(c) => Some(Schedule(n + 1, c))
              case None => if TakesSchedule(cfg, r.At(n), n) then None else r.At(n).scheduled
  {
    MidTransitions(cfg, r, n);
    if n >= cfg.posdao {
      PosdaoSchedule(cfg, r, n);
    } else {
      NextState(cfg, r, n);
    }
  }

  // At the start of every block the schedule is absent or already due, so taking never defers.
  lemma {:induction false} NeverDeferred(cfg: Config, r: Run, n: nat)
    requires ValidRun(cfg, r) && r.first <= n <= r.End()
    requires Started(r)
    ensures r.At(n).scheduled.Some? ==> Due(r.At(n), n)
  {
    if n > r.first {
      NeverDeferred(cfg, r, n - 1);
      ScheduleAfterBlock(cfg, r, n - 1);
    }
  }

  // The schedule held at the start of a block: the one the run started with, the one made by the
  // block before, or either of them passed over by a boundary block.
  ghost function Held(cfg: Config, r: Run, n: nat): Option<Schedule>
    requires ValidRun(cfg, r) && r.first <= n <= r.End()
  {
    if n == r.first then r.At(n).scheduled
    else if Schedules(cfg, r, n - 1).Some? then Some(Schedule(n, Schedules(cfg, r, n - 1).value))
    else if BoundaryFinalize(cfg.sets, n - 1).None? then None
    else if n - 1 == r.first then r.At(n - 1).scheduled
    else if Schedules(cfg, r, n - 2).Some? then Some(Schedule(n - 1, Schedules(cfg, r, n - 2).value))
    else None
  }

  // The schedule is gone after a block that makes none, unless a boundary call passed over it.
  lemma DroppedAfterOrdinaryBlock(cfg: Config, r: Run, n: nat)
    requires ValidRun(cfg, r) && r.Has(n)
    requires Started(r)
    requires BoundaryFinalize(cfg.sets, n).None?
    requires Schedules(cfg, r, n).None?
    ensures r.At(n + 1).scheduled == None
  {
    ScheduleAfterBlock(cfg, r, n);
    NeverDeferred(cfg, r, n);
  }

  lemma PassedOverAtBoundary(cfg: Config, r: Run, n: nat)
    requires ValidRun(cfg, r) && r.Has(n)
    requires r.At(r.first).queue == []
    requires BoundaryFinalize(cfg.sets, n).Some?
    requires Schedules(cfg, r, n).None?
    ensures r.At(n + 1).scheduled == r.At(n).scheduled
  {
    ScheduleAfterBlock(cfg, r, n);
  }

  lemma MadeByBlock(cfg: Config, r: Run, n: nat)
    requires ValidRun(cfg, r) && r.Has(n)
    requires r.At(r.first).queue == []
    requires Schedules(cfg, r, n).Some?
    ensures r.At(n + 1).scheduled == Some(Schedule(n + 1, Schedules(cfg, r, n).value))
  {
    ScheduleAfterBlock(cfg, r, n);
  }

  // Before a boundary block, only the schedule of the block before it is held: two boundary calls
  // are never adjacent.
  lemma HeldAtBoundary(cfg: Config, r: Run, n: nat)
    requires ValidRun(cfg, r) && r.Has(n) && n > r.first
    requires Started(r)
    requires BoundaryFinalize(cfg.sets, n).Some?
    ensures r.At(n).scheduled ==
              match Schedules(cfg, r, n - 1)
              case Some(c) => Some(Schedule(n, c))
              case None => None
  {
    var boundary, made := BoundaryFinalize(cfg.sets, n - 1), Schedules(cfg, r, n - 1);
    if boundary.Some? {
      FiringsSeparated(cfg.sets, n - 1, n);
    }
    if made.Some? {
      MadeByBlock(cfg, r, n - 1);
    } else {
      DroppedAfterOrdinaryBlock(cfg, r, n - 1);
    }
  }

  lemma HeldExact(cfg: Config, r: Run, n: nat)
    requires ValidRun(cfg, r) && r.first <= n <= r.End()
    requires Started(r)
    ensures r.At(n).scheduled == Held(cfg, r, n)
  {
    if n > r.first {
      var made, boundary := Schedules(cfg, r, n - 1), BoundaryFinalize(cfg.sets, n - 1);
      if made.Some? {
        MadeByBlock(cfg, r, n - 1);
      } else if boundary.None? {
        DroppedAfterOrdinaryBlock(cfg, r, n - 1);
      } else {
        PassedOverAtBoundary(cfg, r, n - 1);
        if n - 1 > r.first {
          HeldAtBoundary(cfg, r, n - 1);
        }
      }
    }
  }

  // Main result: a schedule made at block n fires at n + 1, unless n + 1 is the block after a
  // list-to-contract boundary; then it fires at n + 2, unless block n + 1 has made a schedule of
  // its own. Nothing else fires, apart from the boundary calls.
  lemma ScheduleExact(cfg: Config, r: Run, n: nat)
    requires ValidRun(cfg, r) && r.Has(n)
    requires Started(r)
    ensures FinalizeTarget(cfg, r.At(n), n) ==
              match BoundaryFinalize(cfg.sets, n)
              case Some(c) => Some(c)
              case None => match Held(cfg, r, n) case Some(Schedule(_, c)) => Some(c) case None => None
  {
    NeverDeferred(cfg, r, n);
    HeldExact(cfg, r, n);
  }

  // Main result, in terms of events alone: away from list-to-contract boundaries, block `n + 1` calls
  // finalizeChange on `c` exactly if block `n` has a scheduling event of `c`.
  lemma CallExact(cfg: Config, r: Run, n: nat, c: Address)
    requires ValidRun(cfg, r) && r.Has(n) && r.Has(n + 1)
    requires Started(r)
    requires BoundaryFinalize(cfg.sets, n).None? && BoundaryFinalize(cfg.sets, n + 1).None?
    ensures FinalizeTarget(cfg, r.At(n + 1), n + 1) == Some(c)
            <==> exists h :: SchedulingEvent(cfg, r, n, h) && ContractAt(cfg.sets, h) == Some(c)
  {
    ScheduleExact(cfg, r, n + 1);
    SchedulesExact(cfg, r, n, c);
  }

  /*** Auto-discovery of validators ***/

  lemma SealOfBlock(cfg: Config, r: Run, n: nat)
    requires ValidRun(cfg, r) && r.Has(n)
    ensures var s, t := r.At(n), r.Mid(n);
            if n >= cfg.posdao
               && (FinalizeTarget(cfg, s, n).Some? || (ContractAt(cfg.sets, n).Some? && s.validators == []))
            then t.sealed
            else t.sealed == s.sealed && t.validators == s.validators
    ensures r.At(n + 1).sealed == r.Mid(n).sealed
    ensures n < cfg.posdao ==> r.At(n + 1).validators == r.Mid(n).validators
    ensures n >= cfg.posdao && !r.Mid(n).sealed ==> r.At(n + 1).validators != []
  {
    assert BlockSucceeds(cfg, r, n);
  }

  // The first POSDAO block of the run.
  function FirstPosdao(cfg: Config, r: Run): nat {
    if r.first < cfg.posdao then cfg.posdao else r.first
  }

  // Block `k` asks for the validators: as the first POSDAO block with a contract-typed set, as the
  // block after a list-to-contract boundary, or because a schedule is due.
  ghost predicate Refreshes(cfg: Config, r: Run, k: nat)
    requires ValidRun(cfg, r) && r.Has(k)
  {
    || (k == FirstPosdao(cfg, r) && ContractAt(cfg.sets, k).Some?)
    || BoundaryFinalize(cfg.sets, k).Some?
    || Due(r.At(k), k)
  }

  lemma {:induction false} UnseededUntilPosdao(cfg: Config, r: Run, n: nat)
    requires ValidRun(cfg, r) && r.first <= n <= r.End() && n <= FirstPosdao(cfg, r)
    requires r.At(r.first).validators == [] && !r.At(r.first).sealed
    ensures r.At(n).validators == [] && !r.At(n).sealed
  {
    if n > r.first {
      UnseededUntilPosdao(cfg, r, n - 1);
      SealOfBlock(cfg, r, n - 1);
    }
  }

  // Main result: a block's push happens on a sealed tracker iff a POSDAO block of the run up to it
  // has asked for the validators. Otherwise the push auto-discovers its signer.
  lemma {:induction false} SealedPushExact(cfg: Config, r: Run, n: nat)
    requires ValidRun(cfg, r) && r.Has(n) && n >= cfg.posdao
    requires r.At(r.first).validators == [] && !r.At(r.first).sealed
    ensures r.Mid(n).sealed <==> exists k :: FirstPosdao(cfg, r) <= k <= n && Refreshes(cfg, r, k)
  {
    var f := FirstPosdao(cfg, r);
    SealOfBlock(cfg, r, n);
    if n == f {
      UnseededUntilPosdao(cfg, r, n);
    } else {
      SealedPushExact(cfg, r, n - 1);
      SealOfBlock(cfg, r, n - 1);
    }
    assert r.Mid(n).sealed && (n == f || !r.Mid(n - 1).sealed) ==> Refreshes(cfg, r, n);
  }

  // The schedule that falls due at the first POSDAO block: what its parent scheduled for an event,
  // or what a boundary parent passed over.
  ghost predicate DueAtFirstPosdao(cfg: Config, r: Run)
    requires ValidRun(cfg, r) && r.Has(FirstPosdao(cfg, r))
  {
    Held(cfg, r, FirstPosdao(cfg, r)).Some?
  }

  // No schedule falls due later in a list-typed stretch that has been unsealed so far: there is no
  // contract that could log an event.
  lemma {:induction false} NothingPendingInLists(cfg: Config, r: Run, n: nat)
    requires ValidRun(cfg, r) && Started(r)
    requires FirstPosdao(cfg, r) <= n && r.Has(n)
    requires forall k :: FirstPosdao(cfg, r) <= k < n ==> ContractAt(cfg.sets, k).None?
    ensures forall k :: k in r.At(n).pending ==> k < r.first
    ensures n > FirstPosdao(cfg, r) ==> Schedules(cfg, r, n - 1).None? && Held(cfg, r, n).None?
  {
    PendingInvariant(cfg, r, n);
    if n > FirstPosdao(cfg, r) {
      var m := n - 1;
      NothingPendingInLists(cfg, r, m);
      MidTransitions(cfg, r, m);
      HighestInMeaning(r.Mid(m).pending, r.Finalized(m));
      FinalizedIsBatch(cfg, r, m);
      if Schedules(cfg, r, m).Some? {
        FinalizedOfRun(cfg, r, m, HighestIn(r.Mid(m).pending, r.Finalized(m)).value);
      }
    }
  }

  // With list-typed sets from the first POSDAO block to the parent of block `n`, its push is
  // unsealed, also at a block that switches to a contract, unless a schedule was due at the first
  // POSDAO block.
  lemma UnsealedInLists(cfg: Config, r: Run, n: nat)
    requires ValidRun(cfg, r) && r.Has(n) && n >= cfg.posdao
    requires Started(r) && r.At(r.first).validators == [] && !r.At(r.first).sealed
    requires ContractAt(cfg.sets, FirstPosdao(cfg, r)).None?
    requires forall k :: FirstPosdao(cfg, r) <= k < n ==> ContractAt(cfg.sets, k).None?
    ensures r.Mid(n).sealed <==> DueAtFirstPosdao(cfg, r)
  {
    var f := FirstPosdao(cfg, r);
    SealedPushExact(cfg, r, n);
    NeverDeferred(cfg, r, f);
    HeldExact(cfg, r, f);
    assert Refreshes(cfg, r, f) <==> DueAtFirstPosdao(cfg, r);
    forall k | f < k <= n ensures !Refreshes(cfg, r, k) {
      HeldExact(cfg, r, k);
      NothingPendingInLists(cfg, r, k);
    }
  }

  // A switch to a contract that stays for two blocks leaves no later push unsealed than that of the
  // switching block itself.
  lemma SealedFromBoundary(cfg: Config, r: Run, s: nat, n: nat)
    requires ValidRun(cfg, r) && r.Has(n) && n >= cfg.posdao
    requires r.At(r.first).validators == [] && !r.At(r.first).sealed
    requires FirstPosdao(cfg, r) < s < n
    requires ContractAt(cfg.sets, s - 1).None?
    requires ContractAt(cfg.sets, s).Some? && ContractAt(cfg.sets, s + 1) == ContractAt(cfg.sets, s)
    ensures r.Mid(n).sealed
  {
    SealedPushExact(cfg, r, n);
    assert Refreshes(cfg, r, s + 1);
  }

  // With contract-typed sets from POSDAO on, auto-discovery is unreachable, for a new tracker and
  // for a recovered one.
  lemma AutoDiscoveryUnreachable(cfg: Config, r: Run, n: nat)
    requires ValidRun(cfg, r) && r.Has(n) && n >= cfg.posdao
    requires PendingLifecycle.Initial(r.At(r.first)) && r.At(r.first).validators == []
    requires forall k :: r.Has(k) && cfg.posdao <= k ==> ContractAt(cfg.sets, k).Some?
    ensures r.Mid(n).sealed
  {
    assert Refreshes(cfg, r, FirstPosdao(cfg, r));
    SealedPushExact(cfg, r, n);
  }
}
