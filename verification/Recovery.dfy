// Rebuilding the tracker at startup by replaying headers and receipts (src/aura/recovery.rs), and
// when the replay of a truncated history agrees with the live run.
module FinalityRecovery {
  import opened Primitives
  import opened FinalityRules
  import opened RollingFinalityTracker
  import opened AuraEvents

  const RECONSTRUCTION_LOOKBACK: nat := 32

  // Read-only chain access: the beneficiary of each header at hand, and the receipts at hand.
  datatype Scanner = Scanner(headers: map<nat, Address>, receipts: map<nat, seq<Receipt>>)

  // The first block of the window, `head - 31` or the genesis block.
  function WindowStart(head: nat): nat {
    if head + 1 >= RECONSTRUCTION_LOOKBACK then head + 1 - RECONSTRUCTION_LOOKBACK else 0
  }

  // The window is the last 32 blocks up to the head.
  lemma WindowIsLast32(head: nat, n: nat)
    ensures WindowStart(head) <= n <= head <==> n <= head < n + 32
    ensures WindowStart(head) <= head
  {
  }

  // Distinct beneficiaries of the headers in [start, end), in order of appearance.
  function Discovered(scanner: Scanner, start: nat, end: nat): seq<Address>
    requires start <= end
  {
    if start == end then []
    else
      var d := Discovered(scanner, start, end - 1);
      if end - 1 in scanner.headers && scanner.headers[end - 1] !in d then d + [scanner.headers[end - 1]] else d
  }

  function ReceiptsAt(scanner: Scanner, n: nat): seq<Receipt> {
    if n in scanner.receipts then scanner.receipts[n] else []
  }

  // One block of the simulation: take, scan, push.
  function Scanned(scanner: Scanner, contract: Address, posdao: nat, t: Tracker, n: nat): Tracker {
    if !ReceiptsContainInitiateChange(ReceiptsAt(scanner, n), contract) then t
    else if n >= posdao then WithPending(t, n, contract)
    else WithSchedule(t, n + 1, contract)
  }

  function Simulated(scanner: Scanner, contract: Address, posdao: nat, t: Tracker, n: nat): Tracker {
    if n !in scanner.headers then Taken(t, n)
    else Pushed(Scanned(scanner, contract, posdao, Taken(t, n), n), n, scanner.headers[n])
  }

  // The simulation over [start, end).
  function Simulation(scanner: Scanner, contract: Address, posdao: nat, t: Tracker, start: nat, end: nat): Tracker
    requires start <= end
  {
    if start == end then t
    else Simulated(scanner, contract, posdao, Simulation(scanner, contract, posdao, t, start, end - 1), end - 1)
  }

  function SimulationStart(scanner: Scanner, start: nat, end: nat): Tracker
    requires start <= end
  {
    Tracker(Discovered(scanner, start, end), true, [], map[], None)
  }

  // The state the reconstruction ends with.
  function Reconstruction(scanner: Scanner, head: nat, contract: Address, posdao: nat): Tracker {
    var start := WindowStart(head);
    Simulation(scanner, contract, posdao, SimulationStart(scanner, start, head + 1), start, head + 1)
  }

  // The tracker that is handed on: what is pending and scheduled at the end, and nothing else.
  function Rebuilt(scanner: Scanner, head: nat, contract: Address, posdao: nat): Tracker {
    var sim := Reconstruction(scanner, head, contract, posdao);
    Recovered(sim.pending, sim.scheduled)
  }

  method DiscoverSigners(scanner: Scanner, start: nat, end: nat) returns (discovered: seq<Address>)
    requires start <= end
    ensures discovered == Discovered(scanner, start, end)
  {
    discovered := [];
    for n := start to end
      invariant discovered == Discovered(scanner, start, n)
    {
      if n in scanner.headers && scanner.headers[n] !in discovered {
        discovered := discovered + [scanner.headers[n]];
      }
    }
  }

  method SimulateBlock(scanner: Scanner, contract: Address, posdao: nat, sim: RollingFinality, n: nat)
    requires sim.Valid()
    modifies sim
    ensures sim.Valid()
    ensures sim.View() == Simulated(scanner, contract, posdao, old(sim.View()), n)
  {
    var _ := sim.TakeFinalizeChange(n);
    if n !in scanner.headers {
      return;
    }
    var receipts := ReceiptsAt(scanner, n);
    if ReceiptsContainInitiateChange(receipts, contract) {
      if n >= posdao {
        sim.AddPendingTransition(n, contract);
      } else {
        sim.SetImmediateFinalize(n + 1, contract);
      }
    }
    var _ := sim.Push(n, scanner.headers[n]);
  }

  method SimulateWindow(scanner: Scanner, contract: Address, posdao: nat, sim: RollingFinality, start: nat, end: nat)
    requires start <= end && sim.Valid()
    modifies sim
    ensures sim.Valid()
    ensures sim.View() == Simulation(scanner, contract, posdao, old(sim.View()), start, end)
  {
    for n := start to end
      invariant sim.Valid()
      invariant sim.View() == Simulation(scanner, contract, posdao, old(sim.View()), start, n)
    {
      SimulateBlock(scanner, contract, posdao, sim, n);
    }
  }

  method ReconstructFinalityState(scanner: Scanner, head: nat, validatorContract: Option<Address>, posdao: nat)
    returns (rf: RollingFinality)
    ensures fresh(rf) && rf.Valid()
    ensures rf.View() ==
              match validatorContract
              case None => Recovered(map[], None)
              case Some(contract) => Rebuilt(scanner, head, contract, posdao)
    ensures validatorContract.None? ==> rf.pendingTransitions == map[] && rf.finalizeChangeAt == None
    ensures rf.validators == [] && !rf.validatorsSealed && rf.headers == []
  {
    if validatorContract.None? {
      rf := new RollingFinality.FromRecovered(map[], None);
      return;
    }
    var contract, start := validatorContract.value, WindowStart(head);
    var discovered := DiscoverSigners(scanner, start, head + 1);
    var sim := new RollingFinality(discovered);
    sim.SetValidators(discovered);
    SimulateWindow(scanner, contract, posdao, sim, start, head + 1);
    rf := new RollingFinality.FromRecovered(sim.pendingTransitions, sim.finalizeChangeAt);
  }

  /*** What the first pass discovers ***/

  lemma {:induction false} DiscoveredExactly(scanner: Scanner, start: nat, end: nat, a: Address)
    requires start <= end
    ensures Distinct(Discovered(scanner, start, end))
    ensures a in Discovered(scanner, start, end)
            <==> exists n :: start <= n < end && n in scanner.headers && scanner.headers[n] == a
    ensures start < end ==> Discovered(scanner, start, end - 1) <= Discovered(scanner, start, end)
  {
    if start < end {
      DiscoveredExactly(scanner, start, end - 1, a);
    }
  }
}

// Truncated replay against the live run.
module RecoveryAgreement {
  import opened Primitives
  import opened FinalityRules
  import opened ValidatorSets
  import opened AuraEvents
  import opened AuraProtocol
  import opened ProtocolRuns
  import opened FinalityRecovery
  import opened FinalizeChangeSafety
  import opened FinalityInRuns
  import FinalityHistory
  import PendingLifecycle

  function Restricted(pending: map<nat, Address>, start: nat): map<nat, Address> {
    map k | k in pending && k >= start :: pending[k]
  }

  // The replay ends with the live run's schedule and its pending transitions of the window.
  ghost predicate ReplayAgrees(cfg: Config, r: Run, scanner: Scanner, c: Address, head: nat)
    requires ValidRun(cfg, r) && r.Has(head)
  {
    var rebuilt := Reconstruction(scanner, head, c, cfg.posdao);
    && rebuilt.scheduled == r.At(head + 1).scheduled
    && rebuilt.pending == Restricted(r.At(head + 1).pending, WindowStart(head))
  }

  // How the two queues differ: the live one may have older entries in front (`stale`), the simulated
  // one pre-POSDAO entries that the live tracker never pushed (`early`).
  datatype Split = Split(stale: seq<Entry>, early: seq<Entry>, common: seq<Entry>)

  ghost predicate Aligned(live: Tracker, sim: Tracker, s: Split, start: nat, n: nat) {
    && live.queue == s.stale + s.common
    && sim.queue == s.early + s.common
    && (forall e :: e in s.stale ==> e.number < start && e.number !in live.pending)
    && (forall e :: e in s.early ==> e.number < n && e.number !in sim.pending)
    && (forall e :: e in s.common ==> e.number >= start)
    && sim.pending == Restricted(live.pending, start)
  }

  /*** Pushing onto aligned trackers ***/

  lemma {:induction false} CommitConcat(pending: map<nat, Address>, scheduled: Option<Schedule>, a: seq<Entry>,
      b: seq<Entry>, target: nat)
    ensures var (p, s) := Commit(pending, scheduled, a, target);
            Commit(pending, scheduled, a + b, target) == Commit(p, s, b, target)
  {
    if b == [] {
      assert a + b == a;
    } else {
      assert (a + b)[..|a + b| - 1] == a + b[..|b| - 1];
      CommitConcat(pending, scheduled, a, b[..|b| - 1], target);
    }
  }

  // A prefix that hits no pending block does not matter.
  lemma CommitBehindPrefix(pending: map<nat, Address>, scheduled: Option<Schedule>, prefix: seq<Entry>,
      b: seq<Entry>, target: nat)
    requires forall e :: e in prefix ==> e.number !in pending
    ensures Commit(pending, scheduled, prefix + b, target) == Commit(pending, scheduled, b, target)
  {
    CommitNothing(pending, scheduled, prefix, target);
    CommitConcat(pending, scheduled, prefix, b, target);
  }

  // A batch of window blocks has the same effect on the restricted pending transitions.
  lemma {:induction false} CommitRestricted(pending: map<nat, Address>, scheduled: Option<Schedule>,
      batch: seq<Entry>, target: nat, start: nat)
    requires forall e :: e in batch ==> e.number >= start
    ensures var (p, s) := Commit(pending, scheduled, batch, target);
            Commit(Restricted(pending, start), scheduled, batch, target) == (Restricted(p, start), s)
  {
    if batch != [] {
      var init, last := batch[..|batch| - 1], batch[|batch| - 1];
      CommitRestricted(pending, scheduled, init, target, start);
      assert last in batch;
      var p := Commit(pending, scheduled, init, target).0;
      if last.number in p {
        assert Restricted(p - {last.number}, start) == Restricted(p, start) - {last.number};
      }
    }
  }

  // Pushing an entry behind a prefix that hits no pending block: the prefix loses some of its
  // front, and the rest of the queue and the transitions evolve as without the prefix.
  lemma PushBehindPrefix(t: Tracker, prefix: seq<Entry>, q: seq<Entry>, e: Entry) returns (prefix': seq<Entry>)
    requires e.signer in t.validators
    requires t.queue == prefix + q
    requires forall x :: x in prefix ==> x.number !in t.pending
    ensures forall x :: x in prefix' ==> x in prefix
    ensures var t', k := Pushed(t, e.number, e.signer), Cut(|t.validators|, q + [e]);
            && t'.validators == t.validators && t'.sealed == t.sealed
            && t'.queue == prefix' + (q + [e])[k..]
            && (t'.pending, t'.scheduled) == Commit(t.pending, t.scheduled, (q + [e])[..k], e.number + 1)
  {
    var v, qe := |t.validators|, q + [e];
    var all, k := prefix + qe, Cut(v, qe);
    var m := Cut(v, all);
    assert t.queue + [Entry(e.number, e.signer)] == all;
    CutBehindPrefix(v, prefix, qe);
    if k > 0 {
      prefix' := [];
      assert all[m..] == qe[k..] && all[..m] == prefix + qe[..k];
      CommitBehindPrefix(t.pending, t.scheduled, prefix, qe[..k], e.number + 1);
    } else {
      prefix' := prefix[m..];
      assert all[m..] == prefix' + qe && all[..m] == prefix[..m] + [];
      CommitBehindPrefix(t.pending, t.scheduled, prefix[..m], [], e.number + 1);
      assert qe[0..] == qe && qe[..0] == [];
    }
  }

  // Both trackers push the same block.
  lemma PushBoth(live: Tracker, sim: Tracker, s: Split, start: nat, n: nat, a: Address) returns (s': Split)
    requires Aligned(live, sim, s, start, n) && live.scheduled == sim.scheduled
    requires start <= n
    requires a in live.validators && a in sim.validators
    requires |live.validators| == |sim.validators|
    ensures var (live', sim') := (Pushed(live, n, a), Pushed(sim, n, a));
            && Aligned(live', sim', s', start, n + 1) && live'.scheduled == sim'.scheduled
            && sim'.validators == sim.validators && sim'.sealed == sim.sealed
  {
    var e := Entry(n, a);
    var qe, k := s.common + [e], Cut(|live.validators|, s.common + [e]);
    var stale' := PushBehindPrefix(live, s.stale, s.common, e);
    var early' := PushBehindPrefix(sim, s.early, s.common, e);
    CommitRestricted(live.pending, live.scheduled, qe[..k], n + 1, start);
    CommitPending(live.pending, live.scheduled, qe[..k], n + 1);
    CommitPending(sim.pending, sim.scheduled, qe[..k], n + 1);
    s' := Split(stale', early', qe[k..]);
  }

  // Before POSDAO only the simulation pushes; nothing it can finalize is pending.
  lemma PushSimulationOnly(live: Tracker, sim: Tracker, s: Split, start: nat, n: nat, a: Address) returns (s': Split)
    requires Aligned(live, sim, s, start, n) && live.scheduled == sim.scheduled
    requires live.queue == [] && n !in sim.pending
    requires a in sim.validators
    ensures var sim' := Pushed(sim, n, a);
            && Aligned(live, sim', s', start, n + 1) && live.scheduled == sim'.scheduled
            && sim'.validators == sim.validators && sim'.sealed == sim.sealed
  {
    var e := Entry(n, a);
    assert s.stale == [] && s.common == [];
    var early' := PushBehindPrefix(sim, s.early, [], e);
    var k := Cut(|sim.validators|, [] + [e]);
    var tail := ([] + [e])[k..];
    CommitNothing(sim.pending, sim.scheduled, ([] + [e])[..k], n + 1);
    s' := Split([], early' + tail, []);
  }

  /*** The window ***/

  // What the chain access shows of block `n`: its signer, its receipts, and in them any event of
  // contract `c` that the live run saw.
  ghost predicate Visible(r: Run, scanner: Scanner, c: Address, n: nat)
    requires r.Has(n)
  {
    && n in scanner.headers && scanner.headers[n] == r.Block(n).signer
    && ReceiptsAt(scanner, n) == r.Block(n).receipts
    && (LogsContainInitiateChange(r.Block(n).rewardLogs, c) ==> ReceiptsContainInitiateChange(r.Block(n).receipts, c))
  }

  // One contract and no list-to-contract boundary; the live tracker pushes onto a set that knows
  // the signer and is as large as the discovered one.
  ghost predicate Comparable(cfg: Config, r: Run, scanner: Scanner, c: Address, n: nat, size: nat)
    requires ValidRun(cfg, r) && r.Has(n)
  {
    && Visible(r, scanner, c, n)
    && ContractAt(cfg.sets, n) == Some(c) && BoundaryFinalize(cfg.sets, n).None?
    && (n >= cfg.posdao ==> r.Block(n).signer in r.Mid(n).validators && |r.Mid(n).validators| == size)
  }

  // The first block of the window that the run has.
  function WindowFirst(r: Run, start: nat): nat {
    if start < r.first then r.first else start
  }

  // The window from `start` to `head`. Its blocks from before the run, like the genesis block, have
  // left nothing: no event in their receipts, and no transition in the live tracker.
  ghost predicate Window(cfg: Config, r: Run, scanner: Scanner, c: Address, start: nat, head: nat) {
    && ValidRun(cfg, r) && Started(r)
    && start <= head && r.Has(head)
    && (forall n {:trigger Comparable(cfg, r, scanner, c, n, |Discovered(scanner, start, head + 1)|)} ::
          WindowFirst(r, start) <= n <= head ==>
            Comparable(cfg, r, scanner, c, n, |Discovered(scanner, start, head + 1)|))
    && (forall n :: start <= n < r.first ==> !ReceiptsContainInitiateChange(ReceiptsAt(scanner, n), c))
    && (forall k :: k in r.At(r.first).pending ==> k < start)
    // No block still queued at the start of the window is pending.
    && (start >= r.first ==> forall e :: e in r.At(start).queue ==> e.number !in r.At(start).pending)
  }

  // The two trackers at the same point of the same block.
  ghost predicate Agree(live: Tracker, sim: Tracker, s: Split, start: nat, n: nat) {
    Aligned(live, sim, s, start, n) && live.scheduled == sim.scheduled
  }

  lemma EmptySetEmptyWindow(t: Tracker)
    requires PendingLifecycle.Bounded(t)
    ensures t.validators == [] ==> t.queue == []
  {
    assert t.queue == [] || t.queue[0].signer in Signers(t.queue);
  }

  lemma RefreshClearsNoMore(posdao: nat, t: Tracker, ctx: AuraCtx, n: nat, b: BlockInput)
    requires t.validators == [] ==> t.queue == []
    requires ctx.finalizeChange.Some? ==> t.queue == []
    ensures PreExecuted(posdao, t, ctx, n, b).tracker.queue == t.queue
  {
  }

  // Refreshes do not clear more of the window than the take has: an empty set has an empty window.
  lemma MidQueueIsTaken(cfg: Config, r: Run, n: nat)
    requires ValidRun(cfg, r) && r.Has(n) && r.At(r.first).queue == []
    requires BoundaryFinalize(cfg.sets, n).None?
    ensures r.Mid(n).queue == Taken(r.At(n), n).queue
  {
    var t := r.At(n);
    QueueInvariant(cfg, r, n);
    assert BlockSucceeds(cfg, r, n);
    EmptySetEmptyWindow(t);
    RefreshClearsNoMore(cfg.posdao, AfterContext(cfg, t, n), ContextOf(cfg, t, n).value, n, r.Block(n));
  }

  // The event step, after both trackers have taken.
  lemma ScanBoth(cfg: Config, r: Run, scanner: Scanner, c: Address, n: nat, size: nat, sim: Tracker, s: Split,
      start: nat)
    requires ValidRun(cfg, r) && r.Has(n) && r.At(r.first).queue == []
    requires start <= n && Comparable(cfg, r, scanner, c, n, size)
    requires Agree(Taken(r.At(n), n), sim, s, start, n)
    ensures Agree(r.Mid(n), Scanned(scanner, c, cfg.posdao, sim, n), s, start, n)
  {
    MidTransitions(cfg, r, n);
    MidQueueIsTaken(cfg, r, n);
    assert HasEvent(cfg, r, n) <==> ReceiptsContainInitiateChange(ReceiptsAt(scanner, n), c);
    var p := r.At(n).pending;
    assert Restricted(p[n := c], start) == Restricted(p, start)[n := c];
  }

  // The take, at a later block: both trackers hold the same schedule.
  lemma TakeBoth(live: Tracker, sim: Tracker, s: Split, start: nat, n: nat) returns (s': Split)
    requires Agree(live, sim, s, start, n)
    ensures Agree(Taken(live, n), Taken(sim, n), s', start, n)
  {
    s' := if Due(live, n) then Split([], [], []) else s;
  }

  // The simulation of the window's blocks from before the run: it pushes, and nothing else.
  lemma {:induction false} SimulationBeforeRun(scanner: Scanner, c: Address, posdao: nat, t: Tracker, start: nat,
      end: nat)
    requires start <= end
    requires t.sealed && t.pending == map[] && t.scheduled.None?
    requires forall e :: e in t.queue ==> e.number < start
    requires forall n :: start <= n < end ==> !ReceiptsContainInitiateChange(ReceiptsAt(scanner, n), c)
    ensures var sim := Simulation(scanner, c, posdao, t, start, end);
            && sim.sealed && sim.validators == t.validators && sim.pending == map[] && sim.scheduled.None?
            && forall e :: e in sim.queue ==> e.number < end
  {
    if start < end {
      SimulationBeforeRun(scanner, c, posdao, t, start, end - 1);
      var sim, n := Simulation(scanner, c, posdao, t, start, end - 1), end - 1;
      if n in scanner.headers {
        CommitNothing(sim.pending, sim.scheduled, Batch(sim, n, scanner.headers[n]), end);
        forall e | e in Pushed(sim, n, scanner.headers[n]).queue ensures e.number < end {
          PushedEntries(sim, n, scanner.headers[n], e);
        }
      }
    }
  }

  // The take, at the first block of the window that the run has: whatever the live tracker holds is due.
  lemma TakeAtStart(cfg: Config, r: Run, scanner: Scanner, c: Address, start: nat, head: nat) returns (s: Split)
    requires Window(cfg, r, scanner, c, start, head)
    ensures var n, sim := WindowFirst(r, start), SimAt(cfg, scanner, c, start, head, WindowFirst(r, start));
            && Agree(Taken(r.At(n), n), Taken(sim, n), s, start, n)
            && sim.sealed && sim.validators == Discovered(scanner, start, head + 1)
  {
    var n := WindowFirst(r, start);
    var live, sim := r.At(n), SimAt(cfg, scanner, c, start, head, n);
    SimulationBeforeRun(scanner, c, cfg.posdao, SimulationStart(scanner, start, head + 1), start, n);
    NeverDeferred(cfg, r, n);
    QueueInvariant(cfg, r, n);
    PendingInvariant(cfg, r, n);
    s := Split(Taken(live, n).queue, sim.queue, []);
    assert Restricted(live.pending, start) == map[];
  }

  lemma NonemptyHasMember<T>(q: seq<T>)
    ensures q != [] ==> exists x :: x in q
  {
    if q != [] {
      assert q[0] in q;
    }
  }

  // Before POSDAO the live window is empty and the block is not pending.
  lemma EarlyMid(cfg: Config, r: Run, n: nat)
    requires ValidRun(cfg, r) && r.Has(n) && n < cfg.posdao
    requires Started(r)
    ensures r.Mid(n).queue == [] && n !in r.Mid(n).pending
  {
    QueueInvariant(cfg, r, n);
    PendingInvariant(cfg, r, n);
    MidQueueOk(cfg, r, n);
    MidTransitions(cfg, r, n);
    NonemptyHasMember(r.Mid(n).queue);
  }

  // The push, at any block of the window.
  lemma PushStep(cfg: Config, r: Run, scanner: Scanner, c: Address, n: nat, sim: Tracker, s: Split, start: nat)
    returns (s': Split)
    requires ValidRun(cfg, r) && r.Has(n) && Started(r)
    requires start <= n && Comparable(cfg, r, scanner, c, n, |sim.validators|)
    requires Agree(r.Mid(n), sim, s, start, n)
    requires r.Block(n).signer in sim.validators
    ensures var sim' := Pushed(sim, n, r.Block(n).signer);
            && Agree(r.At(n + 1), sim', s', start, n + 1)
            && sim'.validators == sim.validators && sim'.sealed == sim.sealed
  {
    NextState(cfg, r, n);
    if n >= cfg.posdao {
      s' := PushBoth(r.Mid(n), sim, s, start, n, r.Block(n).signer);
    } else {
      EarlyMid(cfg, r, n);
      s' := PushSimulationOnly(r.Mid(n), sim, s, start, n, r.Block(n).signer);
    }
  }

  ghost function SimAt(cfg: Config, scanner: Scanner, c: Address, start: nat, head: nat, n: nat): Tracker
    requires start <= n && start <= head
  {
    Simulation(scanner, c, cfg.posdao, SimulationStart(scanner, start, head + 1), start, n)
  }

  lemma WindowBlock(cfg: Config, r: Run, scanner: Scanner, c: Address, start: nat, head: nat, n: nat)
    requires Window(cfg, r, scanner, c, start, head) && WindowFirst(r, start) <= n <= head
    ensures Comparable(cfg, r, scanner, c, n, |Discovered(scanner, start, head + 1)|)
    ensures n in scanner.headers && scanner.headers[n] == r.Block(n).signer
    ensures r.Block(n).signer in Discovered(scanner, start, head + 1)
  {
    DiscoveredExactly(scanner, start, head + 1, r.Block(n).signer);
  }

  lemma {:induction false} ReplayAgreesUpTo(cfg: Config, r: Run, scanner: Scanner, c: Address, start: nat,
      head: nat, n: nat)
    returns (s: Split)
    requires Window(cfg, r, scanner, c, start, head)
    requires WindowFirst(r, start) <= n <= head
    ensures var sim := SimAt(cfg, scanner, c, start, head, n + 1);
            && Agree(r.At(n + 1), sim, s, start, n + 1)
            && sim.validators == Discovered(scanner, start, head + 1) && sim.sealed
    decreases n
  {
    var sim := SimAt(cfg, scanner, c, start, head, n);
    var size := |Discovered(scanner, start, head + 1)|;
    if n == WindowFirst(r, start) {
      s := TakeAtStart(cfg, r, scanner, c, start, head);
    } else {
      s := ReplayAgreesUpTo(cfg, r, scanner, c, start, head, n - 1);
      s := TakeBoth(r.At(n), sim, s, start, n);
    }
    WindowBlock(cfg, r, scanner, c, start, head, n);
    ScanBoth(cfg, r, scanner, c, n, size, Taken(sim, n), s, start);
    s := PushStep(cfg, r, scanner, c, n, Scanned(scanner, c, cfg.posdao, Taken(sim, n), n), s, start);
  }

  // Main result: replaying the window alone yields the live run's schedule and its pending
  // transitions of the window, also when POSDAO activates inside the window.
  lemma ReplayAgreesWithLive(cfg: Config, r: Run, scanner: Scanner, c: Address, head: nat)
    requires Window(cfg, r, scanner, c, WindowStart(head), head)
    ensures ReplayAgrees(cfg, r, scanner, c, head)
  {
    var _ := ReplayAgreesUpTo(cfg, r, scanner, c, WindowStart(head), head, head);
  }

  /*** Events that the receipts do not show ***/

  lemma {:induction false} NothingSimulated(scanner: Scanner, c: Address, posdao: nat, t: Tracker, start: nat, end: nat)
    requires start <= end
    requires t.pending == map[] && t.scheduled == None
    requires forall n :: start <= n < end ==> !ReceiptsContainInitiateChange(ReceiptsAt(scanner, n), c)
    ensures var sim := Simulation(scanner, c, posdao, t, start, end);
            sim.pending == map[] && sim.scheduled == None
  {
    if start < end {
      NothingSimulated(scanner, c, posdao, t, start, end - 1);
      var sim := Taken(Simulation(scanner, c, posdao, t, start, end - 1), end - 1);
      if end - 1 in scanner.headers {
        CommitNothing(sim.pending, sim.scheduled, Batch(sim, end - 1, scanner.headers[end - 1]), end);
      }
    }
  }

  // Without an event in the receipts of the window nothing is recovered: events older than the
  // window, and events that only the reward call logs.
  lemma NothingRecovered(scanner: Scanner, head: nat, c: Address, posdao: nat)
    requires forall n :: WindowStart(head) <= n <= head ==> !ReceiptsContainInitiateChange(ReceiptsAt(scanner, n), c)
    ensures var rebuilt := Reconstruction(scanner, head, c, posdao);
            rebuilt.pending == map[] && rebuilt.scheduled == None
  {
    var start := WindowStart(head);
    NothingSimulated(scanner, c, posdao, SimulationStart(scanner, start, head + 1), start, head + 1);
  }

  // Event block `m` has taken effect before block `head`: before POSDAO that is at once, from POSDAO
  // on it is when the block is final.
  ghost predicate SettledBefore(cfg: Config, r: Run, m: nat, head: nat)
    requires ValidRun(cfg, r) && r.Has(head)
  {
    if m < cfg.posdao then m < head else FinalizedBefore(r, m, head)
  }

  // Every event block of the window has taken effect before the head block.
  ghost predicate WindowSettled(cfg: Config, r: Run, head: nat)
    requires ValidRun(cfg, r) && r.Has(head)
  {
    forall m :: r.first <= m <= head && WindowStart(head) <= m && HasEvent(cfg, r, m) ==> SettledBefore(cfg, r, m, head)
  }

  // The head block finalizes no event block from before the window.
  ghost predicate NoOlderEventFinal(cfg: Config, r: Run, head: nat)
    requires ValidRun(cfg, r) && r.Has(head)
  {
    forall m :: m in Numbers(r.Finalized(head)) && r.Has(m) && m < WindowStart(head) ==> !HasEvent(cfg, r, m)
  }

  // The run has no transition of the window from before its start.
  ghost predicate NothingOlderPending(r: Run, head: nat)
    requires r.Shaped()
  {
    forall k :: k in r.At(r.first).pending ==> k < WindowStart(head)
  }

  lemma EventSchedules(cfg: Config, r: Run, n: nat, h: nat)
    requires ValidRun(cfg, r) && r.Has(n) && Started(r)
    requires SchedulingEvent(cfg, r, n, h)
    ensures Schedules(cfg, r, n).Some? && r.At(n + 1).scheduled.Some?
  {
    assert r.Has(h) && HasEvent(cfg, r, h);
    SchedulesExact(cfg, r, n, ContractAt(cfg.sets, h).value);
    ScheduleAfterBlock(cfg, r, n);
  }

  // Away from a boundary, the head block leaves no schedule iff it has no scheduling event.
  lemma NoScheduleExact(cfg: Config, r: Run, head: nat)
    requires ValidRun(cfg, r) && r.Has(head) && Started(r)
    requires BoundaryFinalize(cfg.sets, head).None?
    ensures r.At(head + 1).scheduled.None? <==> forall h :: !SchedulingEvent(cfg, r, head, h)
  {
    HeldExact(cfg, r, head + 1);
    forall h | SchedulingEvent(cfg, r, head, h) ensures Schedules(cfg, r, head).Some? {
      EventSchedules(cfg, r, head, h);
    }
    if Schedules(cfg, r, head).Some? {
      SchedulesExact(cfg, r, head, Schedules(cfg, r, head).value);
    }
  }

  // Only an unsettled event of the window, or an older one, can be scheduled by the head block.
  lemma SettledSchedulesNothing(cfg: Config, r: Run, head: nat, h: nat)
    requires ValidRun(cfg, r) && r.Has(head) && Started(r)
    requires WindowSettled(cfg, r, head) && NoOlderEventFinal(cfg, r, head)
    ensures !SchedulingEvent(cfg, r, head, h)
  {
    if SchedulingEvent(cfg, r, head, h) && head >= cfg.posdao {
      FinalizedEvents(cfg, r, head, h);
      FinalizedPosdao(cfg, r, head, h);
      FinalizedIsBatch(cfg, r, head);
      FinalizedOnceInRun(cfg, r, head, h);
    }
  }

  lemma SettledLeavesNothingPending(cfg: Config, r: Run, head: nat)
    requires ValidRun(cfg, r) && r.Has(head) && Started(r)
    requires WindowSettled(cfg, r, head) && NothingOlderPending(r, head)
    ensures Restricted(r.At(head + 1).pending, WindowStart(head)) == map[]
  {
    var left := Restricted(r.At(head + 1).pending, WindowStart(head));
    forall k | k in left ensures false {
      if k < r.first {
        OlderTransitionsStay(cfg, r, head + 1, k);
      } else {
        PendingExact(cfg, r, head + 1, k);
        FinalizedBeforeStep(cfg, r, head, k);
      }
    }
  }

  // An event block finalized by the head block makes it schedule a call.
  lemma FinalEventSchedules(cfg: Config, r: Run, head: nat, m: nat)
    requires ValidRun(cfg, r) && r.Has(head) && Started(r)
    requires m in Numbers(r.Finalized(head))
    ensures r.Has(m) && cfg.posdao <= head
    ensures HasEvent(cfg, r, m) ==> exists h :: SchedulingEvent(cfg, r, head, h)
  {
    FinalizedEvents(cfg, r, head, m);
    if HasEvent(cfg, r, m) {
      HighestInMeaning(r.Mid(head).pending, r.Finalized(head));
      var c := r.Mid(head).pending[HighestIn(r.Mid(head).pending, r.Finalized(head)).value];
      assert Schedules(cfg, r, head) == Some(c);
      SchedulesExact(cfg, r, head, c);
    }
  }

  lemma NoScheduleSettles(cfg: Config, r: Run, head: nat)
    requires ValidRun(cfg, r) && r.Has(head) && Started(r)
    requires forall h :: !SchedulingEvent(cfg, r, head, h)
    requires Restricted(r.At(head + 1).pending, WindowStart(head)) == map[]
    ensures WindowSettled(cfg, r, head) && NoOlderEventFinal(cfg, r, head) && NothingOlderPending(r, head)
  {
    forall k | k in r.At(r.first).pending ensures k < WindowStart(head) {
      OlderTransitionsStay(cfg, r, head + 1, k);
      assert k !in Restricted(r.At(head + 1).pending, WindowStart(head));
    }
    forall m | m in Numbers(r.Finalized(head)) ensures r.Has(m) && !HasEvent(cfg, r, m) {
      FinalEventSchedules(cfg, r, head, m);
    }
    forall m | r.first <= m <= head && WindowStart(head) <= m && HasEvent(cfg, r, m)
      ensures SettledBefore(cfg, r, m, head)
    {
      if m >= cfg.posdao {
        assert m !in Restricted(r.At(head + 1).pending, WindowStart(head));
        PendingExact(cfg, r, head + 1, m);
        FinalizedBeforeStep(cfg, r, head, m);
      } else {
        assert !SchedulingEvent(cfg, r, head, m);
      }
    }
  }

  // Main result: when the receipts of the window show no event, replay and live run agree exactly if
  // every event of the window has taken effect before the head block, no older event becomes final
  // with it, and the live run did not itself start with a transition of the window.
  lemma HiddenEventsExact(cfg: Config, r: Run, scanner: Scanner, c: Address, head: nat)
    requires ValidRun(cfg, r) && r.Has(head) && Started(r)
    requires BoundaryFinalize(cfg.sets, head).None?
    requires forall n :: WindowStart(head) <= n <= head ==> !ReceiptsContainInitiateChange(ReceiptsAt(scanner, n), c)
    ensures ReplayAgrees(cfg, r, scanner, c, head)
            <==> WindowSettled(cfg, r, head) && NoOlderEventFinal(cfg, r, head) && NothingOlderPending(r, head)
  {
    NothingRecovered(scanner, head, c, cfg.posdao);
    NoScheduleExact(cfg, r, head);
    if WindowSettled(cfg, r, head) && NoOlderEventFinal(cfg, r, head) && NothingOlderPending(r, head) {
      forall h: nat ensures !SchedulingEvent(cfg, r, head, h) {
        SettledSchedulesNothing(cfg, r, head, h);
      }
      SettledLeavesNothingPending(cfg, r, head);
    } else if ReplayAgrees(cfg, r, scanner, c, head) {
      NoScheduleSettles(cfg, r, head);
    }
  }

  // In particular, an event of the head block that only the reward call logs is always lost.
  lemma RewardOnlyEventIsLost(cfg: Config, r: Run, scanner: Scanner, c: Address, head: nat)
    requires ValidRun(cfg, r) && r.Has(head) && Started(r)
    requires HasEvent(cfg, r, head)
    requires forall n :: WindowStart(head) <= n <= head ==> !ReceiptsContainInitiateChange(ReceiptsAt(scanner, n), c)
    ensures !ReplayAgrees(cfg, r, scanner, c, head)
  {
    NothingRecovered(scanner, head, c, cfg.posdao);
    if head in Numbers(r.Finalized(head)) || head < cfg.posdao {
      if head >= cfg.posdao {
        FinalEventSchedules(cfg, r, head, head);
      } else {
        assert SchedulingEvent(cfg, r, head, head);
      }
      var h: nat :| SchedulingEvent(cfg, r, head, h);
      EventSchedules(cfg, r, head, h);
    } else {
      PendingExact(cfg, r, head + 1, head);
      FinalizedBeforeStep(cfg, r, head, head);
      FinalizedLater(cfg, r, head, head);
      assert head in Restricted(r.At(head + 1).pending, WindowStart(head));
    }
  }

  lemma SimulatedAdds(scanner: Scanner, c: Address, posdao: nat, t: Tracker, n: nat, k: nat)
    requires k in Simulated(scanner, c, posdao, t, n).pending && k !in t.pending
    ensures k == n && posdao <= n && ReceiptsContainInitiateChange(ReceiptsAt(scanner, n), c)
  {
    if n in scanner.headers {
      PushedPending(Scanned(scanner, c, posdao, Taken(t, n), n), n, scanner.headers[n]);
    }
  }

  lemma {:induction false} SimulatedPending(scanner: Scanner, c: Address, posdao: nat, t: Tracker, start: nat,
      end: nat, k: nat)
    requires start <= end && t.pending == map[]
    requires k in Simulation(scanner, c, posdao, t, start, end).pending
    ensures start <= k < end && posdao <= k && ReceiptsContainInitiateChange(ReceiptsAt(scanner, k), c)
  {
    if start < end {
      var sim := Simulation(scanner, c, posdao, t, start, end - 1);
      if k in sim.pending {
        SimulatedPending(scanner, c, posdao, t, start, end - 1, k);
      } else {
        SimulatedAdds(scanner, c, posdao, sim, end - 1, k);
      }
    }
  }

  // Whatever else the receipts show: one event of the window that they do not show and that is not
  // final by the head block makes the replay disagree.
  lemma HiddenPendingEventIsLost(cfg: Config, r: Run, scanner: Scanner, c: Address, head: nat, m: nat)
    requires ValidRun(cfg, r) && r.Has(head) && Started(r)
    requires r.first <= m <= head && WindowStart(head) <= m && cfg.posdao <= m
    requires HasEvent(cfg, r, m) && !ReceiptsContainInitiateChange(ReceiptsAt(scanner, m), c)
    requires !FinalizedBefore(r, m, head + 1)
    ensures !ReplayAgrees(cfg, r, scanner, c, head)
  {
    var start := WindowStart(head);
    PendingExact(cfg, r, head + 1, m);
    assert m in Restricted(r.At(head + 1).pending, start);
    if m in Reconstruction(scanner, head, c, cfg.posdao).pending {
      SimulatedPending(scanner, c, cfg.posdao, SimulationStart(scanner, start, head + 1), start, head + 1, m);
    }
  }

  // Through signers: a POSDAO event has taken effect before the head block iff, before any call after
  // it, there was a block by which a strict majority had signed from it on. With a sealed set and no
  // call, that is a majority of the blocks from it up to the parent of the head.
  lemma SettledBySigners(cfg: Config, r: Run, m: nat, head: nat)
    requires ValidRun(cfg, r) && r.first <= m <= head && r.Has(head) && cfg.posdao <= m
    requires r.At(r.first).queue == []
    ensures SettledBefore(cfg, r, m, head)
            <==> r.Block(m).signer in r.At(m + 1).validators
                 && exists j :: m <= j < head && NoCall(cfg, r, m, j) && MajorityFrom(r, m, j)
    ensures m < head && r.Mid(m).sealed && NoCall(cfg, r, m, head - 1) ==>
              (SettledBefore(cfg, r, m, head)
               <==> r.Block(m).signer in r.Mid(m).validators
                    && FinalityHistory.SignedByMajority(r.Mid(m).validators, Stretch(r, m, head)))
  {
    FinalizedBySigners(cfg, r, m, head);
    if m < head && r.Mid(m).sealed && NoCall(cfg, r, m, head - 1) {
      FinalizedBySealedSet(cfg, r, m, head);
    }
  }

  /*** After a restart ***/

  lemma {:induction false} SimulationIsPast(scanner: Scanner, c: Address, posdao: nat, t: Tracker, start: nat, end: nat)
    requires start <= end && t.scheduled.None? && t.pending == map[]
    ensures var sim := Simulation(scanner, c, posdao, t, start, end);
            && (forall k :: k in sim.pending ==> k < end)
            && (sim.scheduled.Some? ==> sim.scheduled.value.target <= end)
  {
    forall k | k in Simulation(scanner, c, posdao, t, start, end).pending ensures k < end {
      SimulatedPending(scanner, c, posdao, t, start, end, k);
    }
    if start < end {
      SimulationIsPast(scanner, c, posdao, t, start, end - 1);
      var sim, n := Simulation(scanner, c, posdao, t, start, end - 1), end - 1;
      if n in scanner.headers {
        var s := Scanned(scanner, c, posdao, Taken(sim, n), n);
        CommitSchedules(s.pending, s.scheduled, Batch(s, n, scanner.headers[n]), end);
      }
    }
  }

  // What the scan of a replayed block records, in terms of the receipts: a log at some position that
  // comes from the contract and has the topic first.
  lemma ScanExact(scanner: Scanner, c: Address, posdao: nat, t: Tracker, n: nat)
    ensures var t', logged := Scanned(scanner, c, posdao, t, n),
                              exists i, j :: EventLogIn(ReceiptsAt(scanner, n), i, j, c);
            && t'.pending == (if logged && n >= posdao then t.pending[n := c] else t.pending)
            && t'.scheduled == (if logged && n < posdao then Some(Schedule(n + 1, c)) else t.scheduled)
            && t'.queue == t.queue && t'.validators == t.validators && t'.sealed == t.sealed
  {
    ReceiptsExact(ReceiptsAt(scanner, n), c);
  }

  // A block whose header is missing neither records nor pushes: at most it takes a due schedule.
  lemma MissingHeaderOnlyTakes(scanner: Scanner, c: Address, posdao: nat, t: Tracker, n: nat)
    requires n !in scanner.headers
    ensures var t' := Simulated(scanner, c, posdao, t, n);
            && t'.pending == t.pending && t'.validators == t.validators && t'.sealed == t.sealed
            && if t.scheduled.Some? && t.scheduled.value.target <= n then t'.queue == [] && t'.scheduled.None?
               else t'.queue == t.queue && t'.scheduled == t.scheduled
  {
  }

  // Main result: where the replay agrees with the live run, a run `restarted` from the rebuilt tracker
  // starts with the live run's schedule and its pending transitions of the window, without validators,
  // unsealed and with an empty queue. So its first block calls finalizeChange exactly where the live
  // run's next block would.
  lemma RestartContinues(cfg: Config, r: Run, scanner: Scanner, c: Address, head: nat, restarted: Run)
    requires Window(cfg, r, scanner, c, WindowStart(head), head)
    requires restarted.Shaped() && restarted.first == head + 1
    requires restarted.At(head + 1) == Rebuilt(scanner, head, c, cfg.posdao)
    ensures var live, t := r.At(head + 1), restarted.At(head + 1);
            && t.scheduled == live.scheduled
            && (forall k :: k in t.pending <==> k in live.pending && head < k + 32)
            && (forall k :: k in t.pending ==> t.pending[k] == live.pending[k])
            && t.validators == [] && !t.sealed && t.queue == []
            && FinalizeTarget(cfg, t, head + 1) == FinalizeTarget(cfg, live, head + 1)
    ensures Started(restarted)
  {
    ReplayAgreesWithLive(cfg, r, scanner, c, head);
    RecoveredStarts(scanner, head, c, cfg.posdao, restarted);
    PendingInvariant(cfg, r, head + 1);
  }

  // A run after a restart starts as runs are assumed to, so what holds of runs holds of it.
  lemma RecoveredStarts(scanner: Scanner, head: nat, c: Address, posdao: nat, r: Run)
    requires r.Shaped() && r.first == head + 1
    requires r.At(r.first) == Rebuilt(scanner, head, c, posdao)
    ensures Started(r)
  {
    var start := WindowStart(head);
    SimulationIsPast(scanner, c, posdao, SimulationStart(scanner, start, head + 1), start, head + 1);
  }
}
