// Safety of finalizeChange over whole runs: sequences of consecutive successfully executed
// pre-merge blocks, with signers, events and contract answers as free inputs.
module ProtocolRuns {
  import opened Primitives
  import opened FinalityRules
  import opened ValidatorSets
  import opened AuraProtocol
  import FinalityHistory
  import PendingLifecycle

  // `states[i]` is the tracker at the start of block `first + i`, `mids[i]` the tracker that this
  // block pushes its signer onto, and `batches[i]` the blocks that the push finalizes.
  datatype Run = Run(
    first: nat,
    blocks: seq<BlockInput>,
    states: seq<Tracker>,
    mids: seq<Tracker>,
    batches: seq<seq<Entry>>)
  {
    ghost predicate Shaped() {
      |states| == |blocks| + 1 && |mids| == |batches| == |blocks|
    }

    function End(): nat {
      first + |blocks|
    }

    predicate Has(n: nat) {
      first <= n < End()
    }

    function Block(n: nat): BlockInput
      requires Has(n)
    {
      blocks[n - first]
    }

    // The tracker at the start of block `n`.
    function At(n: nat): Tracker
      requires |states| == |blocks| + 1
      requires first <= n <= End()
    {
      states[n - first]
    }

    function Mid(n: nat): Tracker
      requires |mids| == |blocks|
      requires Has(n)
    {
      mids[n - first]
    }

    function Finalized(n: nat): seq<Entry>
      requires |batches| == |blocks|
      requires Has(n)
    {
      batches[n - first]
    }
  }

  ghost predicate ValidRun(cfg: Config, r: Run) {
    && r.Shaped()
    && r.End() <= cfg.merge
    && forall n {:trigger BlockSucceeds(cfg, r, n)} :: r.Has(n) ==> BlockSucceeds(cfg, r, n)
  }

  ghost predicate BlockSucceeds(cfg: Config, r: Run, n: nat)
    requires r.Shaped() && r.End() <= cfg.merge
    requires r.Has(n)
  {
    var o := Executed(cfg, r.At(n), n, r.Block(n));
    && o.ok && o.tracker == r.At(n + 1)
    && r.Mid(n) == BeforePush(cfg, r.At(n), n, r.Block(n))
    && r.Finalized(n) == (if n >= cfg.posdao then Batch(r.Mid(n), n, r.Block(n).signer) else [])
  }

  // What every run of the program starts with, new or recovered (see FinalityRecovery): nothing is
  // queued, and whatever is pending or scheduled is older than the run.
  ghost predicate Started(r: Run)
    requires r.Shaped()
  {
    var t := r.At(r.first);
    && t.queue == []
    && (forall k :: k in t.pending ==> k < r.first)
    && (t.scheduled.Some? ==> t.scheduled.value.target <= r.first)
  }

  /*** What one block does, field by field ***/

  predicate TakesSchedule(cfg: Config, t: Tracker, n: nat) {
    BoundaryFinalize(cfg.sets, n).None? && Due(t, n)
  }

  // Refreshes only ever touch the validator set and clear the window.
  lemma RefreshKeepsTransitions(posdao: nat, t: Tracker, ctx: AuraCtx, n: nat, b: BlockInput)
    ensures var t' := PreExecuted(posdao, t, ctx, n, b).tracker;
            && t'.pending == t.pending && t'.scheduled == t.scheduled
            && (t' == t || (t'.sealed && t'.queue == [] && n >= posdao))
  {
  }

  predicate Event(cfg: Config, r: Run, n: nat, c: Address)
    requires r.Has(n)
  {
    ContractAt(cfg.sets, n) == Some(c) && EventDetected(r.Block(n), c)
  }

  predicate HasEvent(cfg: Config, r: Run, n: nat)
    requires r.Has(n)
  {
    ContractAt(cfg.sets, n).Some? && Event(cfg, r, n, ContractAt(cfg.sets, n).value)
  }

  // The state a block pushes onto, in terms of the state the block started from.
  lemma MidTransitions(cfg: Config, r: Run, n: nat)
    requires ValidRun(cfg, r) && r.Has(n)
    ensures r.Mid(n).pending == (if HasEvent(cfg, r, n) && n >= cfg.posdao
                                 then r.At(n).pending[n := ContractAt(cfg.sets, n).value]
                                 else r.At(n).pending)
    ensures r.Mid(n).scheduled == (if HasEvent(cfg, r, n) && n < cfg.posdao
                                   then Some(Schedule(n + 1, ContractAt(cfg.sets, n).value))
                                   else if TakesSchedule(cfg, r.At(n), n) then None
                                   else r.At(n).scheduled)
  {
    var s := r.At(n);
    assert BlockSucceeds(cfg, r, n);
    RefreshKeepsTransitions(cfg.posdao, AfterContext(cfg, s, n), ContextOf(cfg, s, n).value, n, r.Block(n));
  }

  lemma MidWindow(cfg: Config, r: Run, n: nat)
    requires ValidRun(cfg, r) && r.Has(n)
    ensures r.Mid(n).queue == [] || (r.Mid(n).queue == r.At(n).queue && r.Mid(n).validators == r.At(n).validators)
  {
    var s := r.At(n);
    assert BlockSucceeds(cfg, r, n);
    RefreshKeepsTransitions(cfg.posdao, AfterContext(cfg, s, n), ContextOf(cfg, s, n).value, n, r.Block(n));
  }

  lemma NextState(cfg: Config, r: Run, n: nat)
    requires ValidRun(cfg, r) && r.Has(n)
    ensures r.At(n + 1) == if n >= cfg.posdao then Pushed(r.Mid(n), n, r.Block(n).signer) else r.Mid(n)
  {
    assert BlockSucceeds(cfg, r, n);
  }

  /*** The queue ***/

  lemma FinalizedIsBatch(cfg: Config, r: Run, n: nat)
    requires ValidRun(cfg, r) && r.Has(n) && n >= cfg.posdao
    ensures r.Finalized(n) == Batch(r.Mid(n), n, r.Block(n).signer)
  {
    assert BlockSucceeds(cfg, r, n);
  }

  // Every entry is a POSDAO block of the run before `n`, with the signer of that block.
  ghost predicate EntriesOf(cfg: Config, r: Run, q: seq<Entry>, n: nat) {
    forall e :: e in q ==>
      r.Has(e.number) && cfg.posdao <= e.number < n && e.signer == r.Block(e.number).signer
  }

  ghost predicate QueueOk(cfg: Config, r: Run, t: Tracker, n: nat) {
    PendingLifecycle.Bounded(t) && PendingLifecycle.QueueBelow(t, n) && EntriesOf(cfg, r, t.queue, n)
  }

  lemma EmptyQueueOk(cfg: Config, r: Run, t: Tracker, n: nat)
    requires t.queue == []
    ensures QueueOk(cfg, r, t, n)
  {
  }

  lemma PushedEntries(t: Tracker, n: nat, a: Address, e: Entry)
    requires e in Pushed(t, n, a).queue
    ensures e in t.queue || e == Entry(n, a)
  {
  }

  lemma PushQueueOk(cfg: Config, r: Run, t: Tracker, n: nat)
    requires r.Has(n) && n >= cfg.posdao
    requires QueueOk(cfg, r, t, n)
    ensures QueueOk(cfg, r, Pushed(t, n, r.Block(n).signer), n + 1)
  {
    var a := r.Block(n).signer;
    PendingLifecycle.PushedBounded(t, n, a);
    PendingLifecycle.PushedQueueBelow(t, n, a);
    forall e | e in Pushed(t, n, a).queue
      ensures r.Has(e.number) && cfg.posdao <= e.number < n + 1 && e.signer == r.Block(e.number).signer
    {
      PushedEntries(t, n, a, e);
    }
  }

  lemma ExtendedQueueOk(cfg: Config, r: Run, t: Tracker, n: nat)
    requires r.Has(n) && n >= cfg.posdao
    requires QueueOk(cfg, r, t, n)
    ensures EntriesOf(cfg, r, t.queue + [Entry(n, r.Block(n).signer)], n + 1)
    ensures Increasing(t.queue + [Entry(n, r.Block(n).signer)])
  {
  }

  lemma MidQueueOk(cfg: Config, r: Run, n: nat)
    requires ValidRun(cfg, r) && r.Has(n)
    requires QueueOk(cfg, r, r.At(n), n)
    ensures QueueOk(cfg, r, r.Mid(n), n)
  {
    MidWindow(cfg, r, n);
    if r.Mid(n).queue == [] {
      EmptyQueueOk(cfg, r, r.Mid(n), n);
    }
  }

  lemma QueueOkLater(cfg: Config, r: Run, t: Tracker, n: nat)
    requires QueueOk(cfg, r, t, n)
    ensures QueueOk(cfg, r, t, n + 1)
  {
  }

  lemma NextQueueOk(cfg: Config, r: Run, n: nat)
    requires ValidRun(cfg, r) && r.Has(n)
    requires QueueOk(cfg, r, r.Mid(n), n)
    ensures QueueOk(cfg, r, r.At(n + 1), n + 1)
  {
    NextState(cfg, r, n);
    if n >= cfg.posdao {
      PushQueueOk(cfg, r, r.Mid(n), n);
    } else {
      QueueOkLater(cfg, r, r.Mid(n), n);
    }
  }

  lemma {:induction false} QueueInvariant(cfg: Config, r: Run, n: nat)
    requires ValidRun(cfg, r) && r.first <= n <= r.End()
    requires r.At(r.first).queue == []
    ensures QueueOk(cfg, r, r.At(n), n)
  {
    if n == r.first {
      EmptyQueueOk(cfg, r, r.At(n), n);
    } else {
      QueueInvariant(cfg, r, n - 1);
      MidQueueOk(cfg, r, n - 1);
      NextQueueOk(cfg, r, n - 1);
    }
  }

  /*** Pending transitions come from events ***/

  // A transition of the run itself comes from a POSDAO event block; older ones were there before.
  ghost predicate PendingInv(cfg: Config, r: Run, n: nat)
    requires ValidRun(cfg, r) && r.first <= n <= r.End()
  {
    forall k :: k in r.At(n).pending ==>
      k < n && (k >= r.first ==> r.Has(k) && cfg.posdao <= k && Event(cfg, r, k, r.At(n).pending[k]))
  }

  lemma PushedPending(t: Tracker, n: nat, a: Address)
    ensures Pushed(t, n, a).pending == t.pending - Numbers(Batch(t, n, a))
  {
    CommitPending(t.pending, t.scheduled, Batch(t, n, a), n + 1);
  }

  lemma {:induction false} PendingInvariant(cfg: Config, r: Run, n: nat)
    requires ValidRun(cfg, r) && r.first <= n <= r.End()
    requires Started(r)
    ensures PendingInv(cfg, r, n)
  {
    if n > r.first {
      var m := n - 1;
      PendingInvariant(cfg, r, m);
      MidTransitions(cfg, r, m);
      NextState(cfg, r, m);
      PushedPending(r.Mid(m), m, r.Block(m).signer);
    }
  }

  // Only blocks of the run are finalized in it.
  lemma FinalizedOfRun(cfg: Config, r: Run, n: nat, h: nat)
    requires ValidRun(cfg, r) && r.Has(n) && n >= cfg.posdao
    requires r.At(r.first).queue == []
    ensures h in Numbers(Batch(r.Mid(n), n, r.Block(n).signer)) ==> r.first <= h <= n
  {
    QueueInvariant(cfg, r, n);
    MidQueueOk(cfg, r, n);
    ExtendedQueueOk(cfg, r, r.Mid(n), n);
  }

  // Block `k` has been finalized before block `n`.
  ghost predicate FinalizedBefore(r: Run, k: nat, n: nat)
    requires r.Shaped() && n <= r.End()
  {
    exists j :: r.first <= j < n && k in Numbers(r.Finalized(j))
  }

  lemma FinalizedBeforeStep(cfg: Config, r: Run, n: nat, k: nat)
    requires ValidRun(cfg, r) && r.Has(n)
    ensures FinalizedBefore(r, k, n + 1) <==> FinalizedBefore(r, k, n) || k in Numbers(r.Finalized(n))
  {
  }

  lemma PendingAfterBlock(cfg: Config, r: Run, n: nat, k: nat)
    requires ValidRun(cfg, r) && r.Has(n)
    ensures k in r.At(n + 1).pending
            <==> (k in r.At(n).pending || (k == n && n >= cfg.posdao && HasEvent(cfg, r, n)))
                 && k !in Numbers(r.Finalized(n))
  {
    MidTransitions(cfg, r, n);
    NextState(cfg, r, n);
    assert BlockSucceeds(cfg, r, n);
    if n >= cfg.posdao {
      PushedPending(r.Mid(n), n, r.Block(n).signer);
    }
  }

  // A block is finalized at itself or later.
  lemma FinalizedLater(cfg: Config, r: Run, n: nat, k: nat)
    requires ValidRun(cfg, r) && r.first <= n <= r.End()
    requires r.At(r.first).queue == []
    ensures FinalizedBefore(r, k, n) ==> r.first <= k < n
  {
    if FinalizedBefore(r, k, n) {
      var j :| r.first <= j < n && k in Numbers(r.Finalized(j));
      assert BlockSucceeds(cfg, r, j);
      FinalizedOfRun(cfg, r, j, k);
    }
  }

  // Of the blocks of the run, pending are exactly the POSDAO event blocks not finalized yet.
  lemma {:induction false} PendingExact(cfg: Config, r: Run, n: nat, k: nat)
    requires ValidRun(cfg, r) && r.first <= n <= r.End()
    requires Started(r)
    requires r.first <= k
    ensures k in r.At(n).pending
            <==> k < n && cfg.posdao <= k && HasEvent(cfg, r, k) && !FinalizedBefore(r, k, n)
  {
    if n > r.first {
      PendingExact(cfg, r, n - 1, k);
      PendingAfterBlock(cfg, r, n - 1, k);
      FinalizedBeforeStep(cfg, r, n - 1, k);
      FinalizedLater(cfg, r, n - 1, k);
    }
  }

  // What a push leaves in the queue is not in its batch.
  lemma LeftOverNotInBatch(t: Tracker, n: nat, a: Address, e: Entry)
    requires PendingLifecycle.QueueBelow(t, n)
    requires e in Pushed(t, n, a).queue
    ensures e.number !in Numbers(Batch(t, n, a))
    ensures e in t.queue || e.number == n
  {
    if Counted(t, a) {
      var q, k := t.queue + [Entry(n, a)], Cut(|Admitted(t, a)|, t.queue + [Entry(n, a)]);
      assert Increasing(q);
      assert Pushed(t, n, a).queue == q[k..] && Batch(t, n, a) == q[..k];
    }
  }

  lemma QueuedAfterBlock(cfg: Config, r: Run, n: nat, e: Entry)
    requires ValidRun(cfg, r) && r.Has(n)
    requires r.At(r.first).queue == []
    requires e in r.At(n + 1).queue
    ensures e.number !in Numbers(r.Finalized(n))
    ensures e in r.At(n).queue || e.number == n
  {
    QueueInvariant(cfg, r, n);
    MidQueueOk(cfg, r, n);
    MidWindow(cfg, r, n);
    assert BlockSucceeds(cfg, r, n);
    if n >= cfg.posdao {
      LeftOverNotInBatch(r.Mid(n), n, r.Block(n).signer, e);
    }
  }

  // What is still queued has not been finalized.
  lemma {:induction false} QueuedNotFinalized(cfg: Config, r: Run, n: nat, e: Entry)
    requires ValidRun(cfg, r) && r.first <= n <= r.End()
    requires r.At(r.first).queue == []
    requires e in r.At(n).queue
    ensures !FinalizedBefore(r, e.number, n)
  {
    var m := n - 1;
    QueuedAfterBlock(cfg, r, m, e);
    FinalizedBeforeStep(cfg, r, m, e.number);
    if e in r.At(m).queue {
      QueuedNotFinalized(cfg, r, m, e);
    } else {
      FinalizedLater(cfg, r, m, e.number);
    }
  }

  // No block is finalized by two blocks of a run.
  lemma FinalizedOnceInRun(cfg: Config, r: Run, n: nat, k: nat)
    requires ValidRun(cfg, r) && r.Has(n)
    requires r.At(r.first).queue == []
    requires k in Numbers(r.Finalized(n))
    ensures !FinalizedBefore(r, k, n)
  {
    assert BlockSucceeds(cfg, r, n);
    MidWindow(cfg, r, n);
    FinalizedLater(cfg, r, n, k);
    var e :| e in r.Finalized(n) && e.number == k;
    assert e in r.Mid(n).queue || e == Entry(n, r.Block(n).signer);
    if e in r.Mid(n).queue {
      QueuedNotFinalized(cfg, r, n, e);
    }
  }

  // Of what a block finalizes, the event blocks are what is pending.
  lemma FinalizedEvents(cfg: Config, r: Run, n: nat, k: nat)
    requires ValidRun(cfg, r) && r.Has(n)
    requires Started(r)
    requires k in Numbers(r.Finalized(n))
    ensures cfg.posdao <= n && r.first <= k <= n
    ensures HasEvent(cfg, r, k) <==> k in r.Mid(n).pending
    ensures HasEvent(cfg, r, k) ==> ContractAt(cfg.sets, k) == Some(r.Mid(n).pending[k])
  {
    assert BlockSucceeds(cfg, r, n);
    FinalizedOfRun(cfg, r, n, k);
    FinalizedPosdao(cfg, r, n, k);
    FinalizedOnceInRun(cfg, r, n, k);
    PendingExact(cfg, r, n, k);
    PendingInvariant(cfg, r, n);
    MidTransitions(cfg, r, n);
  }

  lemma FinalizedPosdao(cfg: Config, r: Run, n: nat, k: nat)
    requires ValidRun(cfg, r) && r.Has(n) && n >= cfg.posdao
    requires r.At(r.first).queue == []
    ensures k in Numbers(Batch(r.Mid(n), n, r.Block(n).signer)) ==> cfg.posdao <= k
  {
    QueueInvariant(cfg, r, n);
    MidQueueOk(cfg, r, n);
    ExtendedQueueOk(cfg, r, r.Mid(n), n);
  }

  // What a block finalizes is queued when it starts, or is the block itself.
  lemma FinalizedFromQueue(cfg: Config, r: Run, n: nat, k: nat)
    requires ValidRun(cfg, r) && r.Has(n)
    ensures k in Numbers(r.Finalized(n)) ==> k == n || k in Numbers(r.Mid(n).queue)
  {
    assert BlockSucceeds(cfg, r, n);
  }

  // A block that is missing from the queue at a later block's push is never finalized any more: its
  // transition stays pending for ever.
  lemma {:induction false} UnqueuedStaysPending(cfg: Config, r: Run, n: nat, j: nat, k: nat)
    requires ValidRun(cfg, r) && r.Has(n) && n < j <= r.End()
    requires r.At(r.first).queue == []
    requires k < n && k !in Numbers(r.Mid(n).queue)
    ensures k !in Numbers(r.At(j).queue)
    ensures k in r.At(j).pending <==> k in r.At(n).pending
    ensures k in r.At(j).pending ==> r.At(j).pending[k] == r.At(n).pending[k]
    decreases j
  {
    var m := j - 1;
    if m > n {
      UnqueuedStaysPending(cfg, r, n, m, k);
      MidWindow(cfg, r, m);
    }
    FinalizedFromQueue(cfg, r, m, k);
    UnqueuedStep(cfg, r, m, k);
    PendingAfterBlock(cfg, r, m, k);
  }

  lemma UnqueuedStep(cfg: Config, r: Run, n: nat, k: nat)
    requires ValidRun(cfg, r) && r.Has(n)
    requires k < n && k !in Numbers(r.Mid(n).queue)
    ensures k !in Numbers(r.At(n + 1).queue)
    ensures k in r.At(n + 1).pending && k in r.At(n).pending ==> r.At(n + 1).pending[k] == r.At(n).pending[k]
  {
    MidTransitions(cfg, r, n);
    NextState(cfg, r, n);
    if n >= cfg.posdao {
      PushedPending(r.Mid(n), n, r.Block(n).signer);
      forall e | e in r.At(n + 1).queue ensures e.number != k {
        PushedEntries(r.Mid(n), n, r.Block(n).signer, e);
      }
    }
  }

  // In particular, a transition from before the run is never finalized in it.
  lemma OlderTransitionsStay(cfg: Config, r: Run, n: nat, k: nat)
    requires ValidRun(cfg, r) && r.first <= n <= r.End()
    requires r.At(r.first).queue == []
    requires k < r.first
    ensures k in r.At(n).pending <==> k in r.At(r.first).pending
    ensures k in r.At(n).pending ==> r.At(n).pending[k] == r.At(r.first).pending[k]
  {
    if n > r.first {
      MidWindow(cfg, r, r.first);
      UnqueuedStaysPending(cfg, r, r.first, n, k);
    }
  }

  // A POSDAO block that calls finalizeChange pushes onto an empty window.
  lemma CallClears(cfg: Config, r: Run, n: nat)
    requires ValidRun(cfg, r) && r.Has(n) && n >= cfg.posdao
    requires FinalizeTarget(cfg, r.At(n), n).Some?
    ensures r.Mid(n).queue == []
  {
    assert BlockSucceeds(cfg, r, n);
  }

  // So a finalizeChange call strands every older event that is still pending: it is never finalized.
  lemma CallStrandsOlderEvents(cfg: Config, r: Run, n: nat, j: nat, k: nat)
    requires ValidRun(cfg, r) && r.Has(n) && n < j <= r.End() && n >= cfg.posdao
    requires r.At(r.first).queue == []
    requires FinalizeTarget(cfg, r.At(n), n).Some?
    requires k < n && k in r.At(n).pending
    ensures k in r.At(j).pending && r.At(j).pending[k] == r.At(n).pending[k]
  {
    CallClears(cfg, r, n);
    UnqueuedStaysPending(cfg, r, n, j, k);
  }

  /*** Where the schedule comes from ***/

  // The event block that caused the schedule held at the start of block `n`; None for the schedule
  // that the run started with.
  ghost function Origin(cfg: Config, r: Run, n: nat): Option<nat>
    requires ValidRun(cfg, r) && r.first <= n <= r.End()
  {
    if n == r.first then None
    else
      var m := n - 1;
      var kept := if TakesSchedule(cfg, r.At(m), m) then None else Origin(cfg, r, m);
      if m < cfg.posdao then
        if HasEvent(cfg, r, m) then Some(m) else kept
      else
        var h := HighestIn(r.Mid(m).pending, r.Finalized(m));
        if h.Some? then h else kept
  }

  // Blocks `m` up to but not including `t`, with their signers.
  ghost function Stretch(r: Run, m: nat, t: nat): seq<Entry>
    requires r.first <= m <= t <= r.End()
  {
    seq(t - m, i requires 0 <= i < t - m => Entry(m + i, r.Block(m + i).signer))
  }

  // A strict majority of the validators in force at the start of block `t` signed blocks `m..t-1`.
  ghost predicate MajoritySince(cfg: Config, r: Run, m: nat, t: nat)
    requires ValidRun(cfg, r) && r.first <= m <= t <= r.End()
  {
    FinalityHistory.SignedByMajority(r.At(t).validators, Stretch(r, m, t))
  }

  // Event block `m` of contract `c` justifies a call scheduled for block `t`.
  ghost predicate Justifies(cfg: Config, r: Run, m: nat, t: nat, c: Address)
    requires ValidRun(cfg, r) && t <= r.End()
  {
    && r.Has(m) && m < t && Event(cfg, r, m, c)
    && (m < cfg.posdao ==> t == m + 1)
    && (m >= cfg.posdao ==> MajoritySince(cfg, r, m, t))
  }

  // The schedule that the run started with is held at the start of block `n`: at its first block,
  // or after it if a boundary call passed over it there.
  ghost predicate HeldFromStart(cfg: Config, r: Run, n: nat, scheduled: Option<Schedule>)
    requires ValidRun(cfg, r)
  {
    && scheduled.Some? && scheduled == r.At(r.first).scheduled
    && (n == r.first || (n == r.first + 1 && BoundaryFinalize(cfg.sets, r.first).Some?))
  }

  // A schedule held at the start of block `n` is due at `n`, or was due at `n - 1` and passed over
  // because that was the block after a list-to-contract boundary.
  ghost predicate ScheduleOk(cfg: Config, r: Run, n: nat, scheduled: Option<Schedule>, origin: Option<nat>)
    requires ValidRun(cfg, r) && n <= r.End()
  {
    match origin
    case None => scheduled.None? || HeldFromStart(cfg, r, n, scheduled)
    case Some(m) =>
      && scheduled.Some?
      && var Schedule(t, c) := scheduled.value;
         && (t == n || (t + 1 == n && BoundaryFinalize(cfg.sets, t).Some?))
         && Justifies(cfg, r, m, t, c)
  }

  ghost predicate ScheduleInv(cfg: Config, r: Run, n: nat)
    requires ValidRun(cfg, r) && r.first <= n <= r.End()
  {
    ScheduleOk(cfg, r, n, r.At(n).scheduled, Origin(cfg, r, n))
  }

  lemma StretchCoversSuffix(cfg: Config, r: Run, n: nat, q: seq<Entry>, i: nat)
    requires n < r.End()
    requires Increasing(q) && i < |q|
    requires EntriesOf(cfg, r, q, n + 1)
    ensures r.first <= q[i].number <= n
    ensures Signers(q[i..]) <= Signers(Stretch(r, q[i].number, n + 1))
  {
    assert q[i] in q;
    var h := q[i].number;
    var st := Stretch(r, h, n + 1);
    forall e | e in q[i..] ensures e in st {
      var j :| 0 <= j < |q[i..]| && q[i..][j] == e;
      assert q[i + j] == e && e in q;
      EntryInStretch(r, h, n, e);
    }
  }

  lemma EntryInStretch(r: Run, h: nat, n: nat, e: Entry)
    requires n < r.End() && r.first <= h <= e.number <= n
    requires e.signer == r.Block(e.number).signer
    ensures e in Stretch(r, h, n + 1)
  {
    assert Stretch(r, h, n + 1)[e.number - h] == e;
  }

  // A majority of a queue's suffix is a majority of the blocks since the suffix's first entry.
  lemma MajorityOfStretch(cfg: Config, r: Run, n: nat, q: seq<Entry>, i: nat, vs: seq<Address>)
    requires n < r.End()
    requires Increasing(q) && i < |q|
    requires EntriesOf(cfg, r, q, n + 1)
    requires Signers(q) <= Members(vs)
    requires Majority(|vs|, q[i..])
    ensures r.first <= q[i].number <= n
    ensures FinalityHistory.SignedByMajority(vs, Stretch(r, q[i].number, n + 1))
  {
    StretchCoversSuffix(cfg, r, n, q, i);
    PendingLifecycle.SignersOfSuffix(q, i);
    SubsetCardinality(Signers(q[i..]), Signers(Stretch(r, q[i].number, n + 1)) * Members(vs));
  }

  lemma AdmittedCovers(t: Tracker, e: Entry)
    requires Signers(t.queue) <= Members(t.validators)
    ensures Signers(t.queue + [e]) <= Members(Admitted(t, e.signer))
  {
    SignersConcat(t.queue, [e]);
  }

  // A batch entry was signed over by a majority, ending with the pushed block.
  lemma FinalizedByStretch(cfg: Config, r: Run, n: nat, t: Tracker, h: nat)
    requires r.Has(n) && n >= cfg.posdao
    requires QueueOk(cfg, r, t, n)
    requires h in Numbers(Batch(t, n, r.Block(n).signer))
    ensures r.first <= h <= n
    ensures FinalityHistory.SignedByMajority(Pushed(t, n, r.Block(n).signer).validators, Stretch(r, h, n + 1))
  {
    var e0 := Entry(n, r.Block(n).signer);
    var q, vs := t.queue + [e0], Admitted(t, e0.signer);
    ExtendedQueueOk(cfg, r, t, n);
    AdmittedCovers(t, e0);
    var batch := Batch(t, n, e0.signer);
    assert batch == q[..Cut(|vs|, q)];
    var e :| e in batch && e.number == h;
    var i :| 0 <= i < |batch| && batch[i] == e;
    MajorityBeforeCut(|vs|, q, i);
    MajorityOfStretch(cfg, r, n, q, i, vs);
  }

  // A schedule held where a boundary call fires is due right then: the block before fires none.
  lemma HeldAtFiring(cfg: Config, r: Run, n: nat, scheduled: Option<Schedule>, origin: Option<nat>)
    requires ValidRun(cfg, r) && r.Has(n)
    requires ScheduleOk(cfg, r, n, scheduled, origin)
    requires BoundaryFinalize(cfg.sets, n).Some?
    ensures origin.None? ==> scheduled.None? || (n == r.first && scheduled == r.At(n).scheduled)
    ensures origin.Some? ==> scheduled.Some? && scheduled.value.target == n
  {
    if n > 0 && BoundaryFinalize(cfg.sets, n - 1).Some? {
      FiringsSeparated(cfg.sets, n - 1, n);
    }
  }

  lemma DueOrPassedOver(cfg: Config, r: Run, n: nat)
    requires ValidRun(cfg, r) && r.Has(n)
    requires Started(r) && ScheduleInv(cfg, r, n)
    requires r.At(n).scheduled.Some? && !TakesSchedule(cfg, r.At(n), n)
    ensures BoundaryFinalize(cfg.sets, n).Some?
  {
  }

  // What is left of the schedule when block `n` does not make a new one.
  lemma KeptScheduleOk(cfg: Config, r: Run, n: nat)
    requires ValidRun(cfg, r) && r.Has(n)
    requires Started(r) && ScheduleInv(cfg, r, n)
    ensures if TakesSchedule(cfg, r.At(n), n) then ScheduleOk(cfg, r, n + 1, None, None)
            else ScheduleOk(cfg, r, n + 1, r.At(n).scheduled, Origin(cfg, r, n))
  {
    if r.At(n).scheduled.Some? && !TakesSchedule(cfg, r.At(n), n) {
      DueOrPassedOver(cfg, r, n);
      HeldAtFiring(cfg, r, n, r.At(n).scheduled, Origin(cfg, r, n));
    }
  }

  // A schedule made by a pre-POSDAO event.
  lemma EventScheduleOk(cfg: Config, r: Run, n: nat)
    requires ValidRun(cfg, r) && r.Has(n)
    requires n < cfg.posdao && HasEvent(cfg, r, n)
    ensures ScheduleOk(cfg, r, n + 1, Some(Schedule(n + 1, ContractAt(cfg.sets, n).value)), Some(n))
  {
  }

  // A schedule made by a finalized batch.
  lemma BatchScheduleOk(cfg: Config, r: Run, n: nat, h: nat)
    requires ValidRun(cfg, r) && r.Has(n) && n >= cfg.posdao
    requires QueueOk(cfg, r, r.Mid(n), n)
    requires h in Numbers(r.Finalized(n))
    requires r.Has(h) && h >= cfg.posdao && ContractAt(cfg.sets, h).Some?
    requires Event(cfg, r, h, ContractAt(cfg.sets, h).value)
    ensures ScheduleOk(cfg, r, n + 1, Some(Schedule(n + 1, ContractAt(cfg.sets, h).value)), Some(h))
  {
    FinalizedIsBatch(cfg, r, n);
    NextState(cfg, r, n);
    FinalizedByStretch(cfg, r, n, r.Mid(n), h);
  }

  // The pending transitions that block `n` pushes onto.
  lemma MidPending(cfg: Config, r: Run, n: nat, k: nat)
    requires ValidRun(cfg, r) && r.Has(n) && n >= cfg.posdao
    requires PendingInv(cfg, r, n)
    requires k in r.Mid(n).pending && k >= r.first
    ensures r.Has(k) && k >= cfg.posdao && Event(cfg, r, k, r.Mid(n).pending[k])
  {
    MidTransitions(cfg, r, n);
  }

  // The schedule after a POSDAO block.
  lemma PosdaoSchedule(cfg: Config, r: Run, n: nat)
    requires ValidRun(cfg, r) && r.Has(n) && n >= cfg.posdao
    requires r.At(r.first).queue == []
    ensures r.At(n + 1).scheduled ==
              match HighestIn(r.Mid(n).pending, r.Finalized(n))
              case Some(h) => Some(Schedule(n + 1, r.Mid(n).pending[h]))
              case None => r.Mid(n).scheduled
  {
    var t, a := r.Mid(n), r.Block(n).signer;
    NextState(cfg, r, n);
    QueueInvariant(cfg, r, n);
    MidQueueOk(cfg, r, n);
    FinalizedIsBatch(cfg, r, n);
    PendingLifecycle.PushedQueueBelow(t, n, a);
    CommitSchedule(t.pending, t.scheduled, Batch(t, n, a), n + 1);
  }

  lemma PosdaoScheduleStep(cfg: Config, r: Run, n: nat)
    requires ValidRun(cfg, r) && r.Has(n) && n >= cfg.posdao
    requires Started(r)
    requires ScheduleInv(cfg, r, n)
    ensures ScheduleInv(cfg, r, n + 1)
  {
    var h := HighestIn(r.Mid(n).pending, r.Finalized(n));
    PosdaoSchedule(cfg, r, n);
    HighestInMeaning(r.Mid(n).pending, r.Finalized(n));
    if h.Some? {
      QueueInvariant(cfg, r, n);
      MidQueueOk(cfg, r, n);
      PendingInvariant(cfg, r, n);
      FinalizedIsBatch(cfg, r, n);
      FinalizedOfRun(cfg, r, n, h.value);
      MidPending(cfg, r, n, h.value);
      BatchScheduleOk(cfg, r, n, h.value);
    } else {
      MidTransitions(cfg, r, n);
      KeptScheduleOk(cfg, r, n);
    }
  }

  lemma EarlyScheduleStep(cfg: Config, r: Run, n: nat)
    requires ValidRun(cfg, r) && r.Has(n) && n < cfg.posdao
    requires Started(r) && ScheduleInv(cfg, r, n)
    ensures ScheduleInv(cfg, r, n + 1)
  {
    MidTransitions(cfg, r, n);
    NextState(cfg, r, n);
    KeptScheduleOk(cfg, r, n);
    if HasEvent(cfg, r, n) {
      EventScheduleOk(cfg, r, n);
    }
  }

  lemma ScheduleStep(cfg: Config, r: Run, n: nat)
    requires ValidRun(cfg, r) && r.Has(n)
    requires Started(r)
    requires ScheduleInv(cfg, r, n)
    ensures ScheduleInv(cfg, r, n + 1)
  {
    if n >= cfg.posdao {
      PosdaoScheduleStep(cfg, r, n);
    } else {
      EarlyScheduleStep(cfg, r, n);
    }
  }

  lemma {:induction false} ScheduleInvariant(cfg: Config, r: Run, n: nat)
    requires ValidRun(cfg, r) && r.first <= n <= r.End()
    requires Started(r)
    ensures ScheduleInv(cfg, r, n)
  {
    if n > r.first {
      ScheduleInvariant(cfg, r, n - 1);
      ScheduleStep(cfg, r, n - 1);
    }
  }

  /*** Every sequence of successful executions is a run ***/

  function Start(first: nat, t: Tracker): Run {
    Run(first, [], [t], [], [])
  }

  // The run extended by one block.
  function Extended(cfg: Config, r: Run, b: BlockInput): Run
    requires r.Shaped() && r.End() < cfg.merge
  {
    var n, t := r.End(), r.At(r.End());
    var mid := BeforePush(cfg, t, n, b);
    Run(r.first, r.blocks + [b], r.states + [Executed(cfg, t, n, b).tracker], r.mids + [mid],
        r.batches + [if n >= cfg.posdao then Batch(mid, n, b.signer) else []])
  }

  lemma ExtendedKeepsBlock(cfg: Config, r: Run, b: BlockInput, n: nat)
    requires ValidRun(cfg, r) && r.End() < cfg.merge && r.Has(n)
    ensures BlockSucceeds(cfg, Extended(cfg, r, b), n)
  {
    var x := Extended(cfg, r, b);
    assert BlockSucceeds(cfg, r, n);
    assert x.Block(n) == r.Block(n) && x.At(n) == r.At(n) && x.At(n + 1) == r.At(n + 1);
    assert x.Mid(n) == r.Mid(n) && x.Finalized(n) == r.Finalized(n);
  }

  lemma ExtendedByBlock(cfg: Config, r: Run, b: BlockInput)
    requires r.Shaped() && r.End() < cfg.merge
    requires Executed(cfg, r.At(r.End()), r.End(), b).ok
    ensures BlockSucceeds(cfg, Extended(cfg, r, b), r.End())
  {
  }

  lemma ExtendedIsRun(cfg: Config, r: Run, b: BlockInput)
    requires ValidRun(cfg, r) && r.End() < cfg.merge
    requires Executed(cfg, r.At(r.End()), r.End(), b).ok
    ensures ValidRun(cfg, Extended(cfg, r, b))
    ensures ValidRun(cfg, Start(r.first, r.At(r.first)))
  {
    var x := Extended(cfg, r, b);
    forall n {:trigger BlockSucceeds(cfg, x, n)} | x.Has(n) ensures BlockSucceeds(cfg, x, n) {
      if r.Has(n) {
        ExtendedKeepsBlock(cfg, r, b, n);
      } else {
        ExtendedByBlock(cfg, r, b);
      }
    }
  }
}
