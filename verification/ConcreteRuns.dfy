// Short runs of blocks that a node can execute, showing that the surprising cases of the general
// results do occur: two calls after a list-to-contract boundary, pushes onto a set that is being
// discovered, an event that the replay sees and one that it does not, a call that is lost with a
// failing block, and an event that a call strands.
module ConcreteRuns {
  import opened Primitives
  import opened FinalityRules
  import opened ValidatorSets
  import opened AuraEvents
  import opened AuraProtocol
  import opened ProtocolRuns
  import opened FinalityRecovery
  import opened RecoveryAgreement
  import FinalizeChangeSafety
  import Abi = AbiAddressArray

  /*** Building blocks ***/

  function EventLog(c: Address): Log {
    Log(c, [INITIATE_CHANGE_TOPIC])
  }

  // A block that succeeds, and in which every getValidators call answers `validators`.
  function BlockBy(signer: Address, receipts: seq<Receipt>, rewardLogs: seq<Log>, validators: seq<Address>)
    : BlockInput
  {
    var answer := Success(Abi.Encode(validators));
    BlockInput(signer, receipts, rewardLogs, true, true, answer, answer, answer)
  }

  function Plain(signer: Address, validators: seq<Address>): BlockInput {
    BlockBy(signer, [], [], validators)
  }

  lemma NoEvents(signer: Address, validators: seq<Address>, c: Address)
    ensures !EventDetected(Plain(signer, validators), c)
  {
  }

  lemma RewardEvent(signer: Address, validators: seq<Address>, c: Address)
    ensures EventDetected(BlockBy(signer, [], [EventLog(c)], validators), c)
  {
    assert EventLog(c) in [EventLog(c)] && IsInitiateChange(EventLog(c), c);
  }

  lemma ReceiptEvent(signer: Address, validators: seq<Address>, c: Address)
    ensures EventDetected(BlockBy(signer, [Receipt([EventLog(c)])], [], validators), c)
  {
    var receipt := Receipt([EventLog(c)]);
    assert EventLog(c) in receipt.logs && IsInitiateChange(EventLog(c), c);
    assert receipt in [receipt] && LogsContainInitiateChange(receipt.logs, c);
  }

  // `x` is the run `r` extended by a block `b`, pushed onto `mid`, that leaves `t` behind.
  ghost predicate Grown(cfg: Config, r: Run, x: Run, b: BlockInput, mid: Tracker, t: Tracker) {
    && ValidRun(cfg, r) && ValidRun(cfg, x) && x.first == r.first
    && x.blocks == r.blocks + [b] && x.mids == r.mids + [mid] && x.states == r.states + [t]
  }

  lemma Extend(cfg: Config, r: Run, b: BlockInput) returns (x: Run)
    requires ValidRun(cfg, r) && r.End() < cfg.merge
    requires Executed(cfg, r.At(r.End()), r.End(), b).ok
    ensures var n, t := r.End(), r.At(r.End());
            Grown(cfg, r, x, b, BeforePush(cfg, t, n, b), Executed(cfg, t, n, b).tracker)
  {
    x := Extended(cfg, r, b);
    ExtendedIsRun(cfg, r, b);
  }

  lemma StartIsRun(cfg: Config, first: nat)
    requires first <= cfg.merge
    ensures var r := Start(first, Fresh([]));
            ValidRun(cfg, r) && r.End() == first && r.At(first) == Fresh([])
  {
  }

  /*** Kinds of blocks ***/

  // Before POSDAO a block only makes its call and schedules its event.
  lemma EarlyBlock(cfg: Config, r: Run, b: BlockInput, c: Address) returns (x: Run)
    requires ValidRun(cfg, r) && r.End() < cfg.merge && r.End() < cfg.posdao
    requires b.executes && b.settles && !b.finalizeAnswer.EvmError?
    requires ContractAt(cfg.sets, r.End()) == Some(c)
    ensures var n, t := r.End(), r.At(r.End());
            var mid := if EventDetected(b, c) then WithSchedule(AfterContext(cfg, t, n), n + 1, c)
                       else AfterContext(cfg, t, n);
            Grown(cfg, r, x, b, mid, mid)
            && Executed(cfg, t, n, b).calls
               == match FinalizeTarget(cfg, t, n) case Some(f) => [FinalizeChange(f)] case None => []
  {
    x := Extend(cfg, r, b);
  }

  // A POSDAO block without a call, an event or a refresh only pushes.
  lemma QuietBlock(cfg: Config, r: Run, b: BlockInput) returns (x: Run)
    requires ValidRun(cfg, r) && cfg.posdao <= r.End() < cfg.merge && b.executes && b.settles
    requires FinalizeTarget(cfg, r.At(r.End()), r.End()).None?
    requires match ContractAt(cfg.sets, r.End())
             case Some(c) => r.At(r.End()).validators != [] && !EventDetected(b, c)
             case None => true
    ensures var n, t := r.End(), r.At(r.End());
            Grown(cfg, r, x, b, t, Pushed(t, n, b.signer))
  {
    x := Extend(cfg, r, b);
  }

  // A POSDAO block that calls finalizeChange gets its set in answer.
  lemma CallingBlock(cfg: Config, r: Run, signer: Address, validators: seq<Address>, c: Address) returns (x: Run)
    requires ValidRun(cfg, r) && cfg.posdao <= r.End() < cfg.merge && |validators| < U64_BOUND
    requires ContractAt(cfg.sets, r.End()) == Some(c)
    requires r.At(r.End()).validators != [] && FinalizeTarget(cfg, r.At(r.End()), r.End()) == Some(c)
    ensures var n, t := r.End(), r.At(r.End());
            var mid := WithValidators(AfterContext(cfg, t, n), validators);
            Grown(cfg, r, x, Plain(signer, validators), mid, Pushed(mid, n, signer))
  {
    NoEvents(signer, validators, c);
    Abi.RoundTrip(validators, Abi.Encode(validators));
    x := Extend(cfg, r, Plain(signer, validators));
  }

  // A block that succeeds, whose set would be `validators`, and that has an event of `c`.
  predicate WithEvent(b: BlockInput, validators: seq<Address>, c: Address) {
    b.executes && b.settles && b.initAnswer == Success(Abi.Encode(validators)) && EventDetected(b, c)
  }

  lemma FirstBlockSteps(cfg: Config, n: nat, b: BlockInput, validators: seq<Address>, c: Address)
    requires cfg.posdao <= n < cfg.merge && |validators| < U64_BOUND
    requires BoundaryFinalize(cfg.sets, n).None? && ContractAt(cfg.sets, n) == Some(c)
    requires WithEvent(b, validators, c)
    ensures var mid, o := Tracker(validators, true, [], map[n := c], None), Executed(cfg, Fresh([]), n, b);
            BeforePush(cfg, Fresh([]), n, b) == mid && o.ok && o.tracker == Pushed(mid, n, b.signer)
  {
    Abi.RoundTrip(validators, Abi.Encode(validators));
    assert map[][n := c] == map[n := c];
  }

  // The first block of a run asks the contract for its set, and records its event.
  lemma FirstBlock(cfg: Config, n: nat, b: BlockInput, validators: seq<Address>, c: Address) returns (x: Run)
    requires cfg.posdao <= n < cfg.merge && |validators| < U64_BOUND
    requires BoundaryFinalize(cfg.sets, n).None? && ContractAt(cfg.sets, n) == Some(c)
    requires WithEvent(b, validators, c)
    ensures var mid := Tracker(validators, true, [], map[n := c], None);
            Grown(cfg, Start(n, Fresh([])), x, b, mid, Pushed(mid, n, b.signer))
  {
    FirstBlockSteps(cfg, n, b, validators, c);
    StartIsRun(cfg, n);
    x := Extend(cfg, Start(n, Fresh([])), b);
  }

  /*** Two calls after a list-to-contract boundary ***/

  function SwitchAt(n: nat, c: Address): Sets {
    map[0 := List([]), n := Contract(c)]
  }

  lemma SwitchMeaning(s: nat, c: Address, n: nat)
    requires s > 0
    ensures ContractAt(SwitchAt(s, c), n) == if n >= s then Some(c) else None
  {
    if n >= s {
      KindConstantBetweenActivations(SwitchAt(s, c), s, n);
    } else {
      KindConstantBetweenActivations(SwitchAt(s, c), 0, n);
    }
  }

  lemma SwitchFires(s: nat, c: Address, n: nat)
    requires s > 0 && n > 0
    ensures ContractAt(SwitchAt(s, c), n) == if n >= s then Some(c) else None
    ensures BoundaryFinalize(SwitchAt(s, c), n) == if n == s + 1 then Some(c) else None
  {
    SwitchMeaning(s, c, n);
    SwitchMeaning(s, c, n - 1);
    if n >= 2 {
      SwitchMeaning(s, c, n - 2);
    }
  }

  lemma EventAtSwitch(cfg: Config, c: Address, signer: Address) returns (r: Run)
    requires cfg == Config(SwitchAt(1, c), 100, 200)
    ensures ValidRun(cfg, r) && r.At(r.first) == Fresh([]) && r.first == 1
    ensures r.blocks == [BlockBy(signer, [Receipt([EventLog(c)])], [], [])]
    ensures r.At(2) == WithSchedule(Fresh([]), 2, c)
  {
    r := Start(1, Fresh([]));
    StartIsRun(cfg, 1);
    SwitchFires(1, c, 1);
    ReceiptEvent(signer, [], c);
    r := EarlyBlock(cfg, r, BlockBy(signer, [Receipt([EventLog(c)])], [], []), c);
  }

  // An event at the switching block 1, before POSDAO: block 2 calls because of the boundary, and
  // block 3 calls the same contract again because of the event.
  lemma BoundaryCallsTwice(cfg: Config, c: Address, signer: Address) returns (r: Run)
    requires cfg == Config(SwitchAt(1, c), 100, 200)
    ensures ValidRun(cfg, r) && r.At(r.first) == Fresh([]) && r.first == 1
    ensures r.blocks == [BlockBy(signer, [Receipt([EventLog(c)])], [], []), Plain(signer, []), Plain(signer, [])]
    ensures Executed(cfg, r.At(2), 2, r.Block(2)).calls == [FinalizeChange(c)]
    ensures Executed(cfg, r.At(3), 3, r.Block(3)).calls == [FinalizeChange(c)]
  {
    r := EventAtSwitch(cfg, c, signer);
    NoEvents(signer, [], c);
    SwitchFires(1, c, 2);
    r := EarlyBlock(cfg, r, Plain(signer, []), c);
    SwitchFires(1, c, 3);
    r := EarlyBlock(cfg, r, Plain(signer, []), c);
  }

  /*** Pushes onto a set that is being discovered ***/

  lemma TwoUnsealedPushes(cfg: Config, c: Address, signer: Address, b: BlockInput) returns (r: Run)
    requires cfg == Config(SwitchAt(2, c), 1, 200)
    requires b.signer == signer && b.executes && b.settles && !EventDetected(b, c)
    ensures ValidRun(cfg, r) && r.At(r.first) == Fresh([]) && r.first == 1 && r.blocks == [b, b]
    ensures r.Mid(1) == Fresh([]) && !r.Mid(2).sealed && r.Mid(2).validators == [signer]
    ensures r.At(3).validators == [signer] && r.At(3).pending == map[] && r.At(3).scheduled.None?
  {
    r := Start(1, Fresh([]));
    StartIsRun(cfg, 1);
    SwitchFires(2, c, 1);
    PushKeepsSet(Fresh([]), 1, signer);
    r := QuietBlock(cfg, r, b);
    SwitchFires(2, c, 2);
    PushKeepsSet(r.At(2), 2, signer);
    r := QuietBlock(cfg, r, b);
  }

  // POSDAO from block 1 on, a list until the switch at block 2: the pushes of blocks 1 and 2 discover
  // their signer, whatever the contract would answer; the boundary call of block 3 seals the set.
  lemma UnsealedUntilBoundary(cfg: Config, c: Address, signer: Address, validators: seq<Address>) returns (r: Run)
    requires cfg == Config(SwitchAt(2, c), 1, 200) && |validators| < U64_BOUND
    ensures ValidRun(cfg, r) && r.At(r.first) == Fresh([]) && r.first == 1
    ensures r.blocks == [Plain(signer, validators), Plain(signer, validators), Plain(signer, validators)]
    ensures r.Mid(1) == Fresh([]) && !r.Mid(2).sealed && r.Mid(2).validators == [signer]
    ensures r.Mid(3).sealed && r.Mid(3).validators == validators
  {
    NoEvents(signer, validators, c);
    r := TwoUnsealedPushes(cfg, c, signer, Plain(signer, validators));
    SwitchFires(2, c, 3);
    r := CallingBlock(cfg, r, signer, validators, c);
  }

  lemma PushKeepsSet(t: Tracker, n: nat, a: Address)
    requires !t.sealed && t.pending == map[]
    ensures var t' := Pushed(t, n, a);
            && !t'.sealed && t'.validators == Admitted(t, a)
            && t'.pending == map[] && t'.scheduled == t.scheduled
  {
    CommitNothing(t.pending, t.scheduled, Batch(t, n, a), n + 1);
  }

  /*** An event that the replay does not see ***/

  lemma OneContract(c: Address, n: nat)
    ensures ContractAt(map[0 := Contract(c)], n) == Some(c)
    ensures n > 0 ==> BoundaryFinalize(map[0 := Contract(c)], n).None?
  {
    KindConstantBetweenActivations(map[0 := Contract(c)], 0, n);
    if n > 0 {
      KindConstantBetweenActivations(map[0 := Contract(c)], 0, n - 1);
    }
  }

  // One contract `c` with validators `a` and `v`, and POSDAO from block 1 on. Block 1 is signed by `a`
  // and logs an event in its reward call. It is pending in the live run, and lost in the replay.
  lemma RewardEventLost(cfg: Config, c: Address, a: Address, v: Address, scanner: Scanner) returns (r: Run)
    requires cfg == Config(map[0 := Contract(c)], 1, 200) && scanner == Scanner(map[1 := a], map[1 := []])
    ensures ValidRun(cfg, r) && r.At(r.first) == Fresh([]) && r.first == 1
    ensures r.blocks == [BlockBy(a, [], [EventLog(c)], [a, v])]
    ensures r.At(2).pending == map[1 := c]
    ensures Reconstruction(scanner, 1, c, 1).pending == map[] && !ReplayAgrees(cfg, r, scanner, c, 1)
  {
    OneContract(c, 1);
    RewardEvent(a, [a, v], c);
    r := FirstBlock(cfg, 1, BlockBy(a, [], [EventLog(c)], [a, v]), [a, v], c);
    LoneSigner(r.Mid(1), 1, a);
    NothingRecovered(scanner, 1, c, 1);
    RewardOnlyEventIsLost(cfg, r, scanner, c, 1);
  }

  // One of two validators is no majority.
  lemma LoneSigner(t: Tracker, n: nat, a: Address)
    requires t.queue == [] && |t.validators| == 2 && a in t.validators
    ensures Pushed(t, n, a) == t.(queue := [Entry(n, a)])
  {
    assert [] + [Entry(n, a)] == [Entry(n, a)];
    assert Signers([Entry(n, a)]) == {a};
  }

  lemma EventByOnlyValidator(cfg: Config, c: Address, a: Address) returns (r: Run)
    requires cfg == Config(map[0 := Contract(c)], 1, 200)
    ensures ValidRun(cfg, r) && r.At(r.first) == Fresh([]) && r.first == 1
    ensures r.blocks == [BlockBy(a, [], [EventLog(c)], [a])]
    ensures HasEvent(cfg, r, 1) && r.At(2) == Tracker([a], true, [], map[], Some(Schedule(2, c)))
  {
    OneContract(c, 1);
    RewardEvent(a, [a], c);
    r := FirstBlock(cfg, 1, BlockBy(a, [], [EventLog(c)], [a]), [a], c);
    SoleSigner(r.Mid(1), 1, a);
  }

  // With `a` as the only validator, the event is final at once and calls in block 2, after which the
  // replay agrees again, without having seen it.
  lemma RewardEventSettled(cfg: Config, c: Address, a: Address, scanner: Scanner) returns (r: Run, s: Run)
    requires cfg == Config(map[0 := Contract(c)], 1, 200) && scanner == Scanner(map[1 := a, 2 := a], map[])
    ensures ValidRun(cfg, r) && r.At(r.first) == Fresh([]) && r.first == 1
    ensures ValidRun(cfg, s) && s.At(s.first) == Fresh([]) && s.first == 1
    ensures r.blocks == [BlockBy(a, [], [EventLog(c)], [a])] && s.blocks == r.blocks + [Plain(a, [a])]
    ensures FinalizeTarget(cfg, s.At(2), 2) == Some(c)
    ensures !ReplayAgrees(cfg, r, scanner, c, 1) && ReplayAgrees(cfg, s, scanner, c, 2)
  {
    r := EventByOnlyValidator(cfg, c, a);
    RewardOnlyEventIsLost(cfg, r, scanner, c, 1);
    OneContract(c, 2);
    s := CallingBlock(cfg, r, a, [a], c);
    SoleSigner(s.Mid(2), 2, a);
    NothingRecovered(scanner, 2, c, 1);
  }

  // A sole validator is a majority: its block is final, and its pending transition is scheduled.
  lemma SoleSigner(t: Tracker, n: nat, a: Address)
    requires t.queue == [] && t.validators == [a]
    ensures Pushed(t, n, a) == t.(pending := t.pending - {n},
                                  scheduled := if n in t.pending then Some(Schedule(n + 1, t.pending[n]))
                                               else t.scheduled)
  {
    var q := [Entry(n, a)];
    assert t.queue + q == q;
    assert Signers(q) == {a} && q[1..] == [];
    assert Signers([]) == {};
    assert Cut(1, q) == 1 && q[..1] == q;
    assert q[..0] == [];
    assert Commit(t.pending, t.scheduled, [], n + 1) == (t.pending, t.scheduled);
    assert n !in t.pending ==> t.pending - {n} == t.pending;
  }

  /*** An event that the replay does see ***/

  // The same with the event in the receipts: the replay from the genesis block recovers it. The
  // beneficiary `z` of the genesis block takes the place of the validator that has not signed yet.
  lemma ReceiptEventRecovered(cfg: Config, c: Address, a: Address, v: Address, z: Address, scanner: Scanner)
    returns (r: Run)
    requires cfg == Config(map[0 := Contract(c)], 1, 200) && a != v && z != a
    requires scanner == Scanner(map[0 := z, 1 := a], map[1 := [Receipt([EventLog(c)])]])
    ensures ValidRun(cfg, r) && r.At(r.first) == Fresh([]) && r.first == 1
    ensures r.blocks == [BlockBy(a, [Receipt([EventLog(c)])], [], [a, v])]
    ensures ReplayAgrees(cfg, r, scanner, c, 1) && Reconstruction(scanner, 1, c, 1).pending == map[1 := c]
  {
    OneContract(c, 1);
    ReceiptEvent(a, [a, v], c);
    r := FirstBlock(cfg, 1, BlockBy(a, [Receipt([EventLog(c)])], [], [a, v]), [a, v], c);
    LoneSigner(r.Mid(1), 1, a);
    GenesisDiscovered(scanner, z, a);
    OneBlockWindow(cfg, r, scanner, c, 2);
    ReplayAgreesWithLive(cfg, r, scanner, c, 1);
    assert Restricted(r.At(2).pending, 0) == r.At(2).pending;
  }

  lemma OneBlockWindow(cfg: Config, r: Run, scanner: Scanner, c: Address, size: nat)
    requires ValidRun(cfg, r) && r.At(r.first) == Fresh([]) && r.first == 1 && r.End() == 2
    requires !ReceiptsContainInitiateChange(ReceiptsAt(scanner, 0), c)
    requires size == |Discovered(scanner, 0, 2)| && Comparable(cfg, r, scanner, c, 1, size)
    ensures Window(cfg, r, scanner, c, 0, 1)
  {
  }

  lemma GenesisDiscovered(scanner: Scanner, z: Address, a: Address)
    requires scanner.headers == map[0 := z, 1 := a] && z != a
    ensures |Discovered(scanner, 0, 2)| == 2
  {
    assert Discovered(scanner, 0, 0) == [];
    assert Discovered(scanner, 0, 1) == [z];
  }

  /*** A call that is lost with a failing attempt ***/

  lemma EarlyEvent(cfg: Config, c: Address, signer: Address) returns (r: Run)
    requires cfg == Config(map[0 := Contract(c)], 100, 200)
    ensures ValidRun(cfg, r) && r.At(r.first) == Fresh([]) && r.first == 1
    ensures r.blocks == [BlockBy(signer, [Receipt([EventLog(c)])], [], [])]
    ensures r.At(2) == WithSchedule(Fresh([]), 2, c)
  {
    r := Start(1, Fresh([]));
    StartIsRun(cfg, 1);
    OneContract(c, 1);
    ReceiptEvent(signer, [], c);
    r := EarlyBlock(cfg, r, BlockBy(signer, [Receipt([EventLog(c)])], [], []), c);
  }

  // The event of block 1, before POSDAO, is due at block 2. When block 2 fails at first, because its
  // transactions do, the attempt that succeeds calls nothing.
  lemma CallLost(cfg: Config, c: Address, signer: Address) returns (r: Run)
    requires cfg == Config(map[0 := Contract(c)], 100, 200)
    ensures ValidRun(cfg, r) && r.At(r.first) == Fresh([]) && r.first == 1
    ensures r.blocks == [BlockBy(signer, [Receipt([EventLog(c)])], [], [])]
    ensures Executed(cfg, r.At(2), 2, Plain(signer, [])) == Outcome(Fresh([]), [FinalizeChange(c)], true)
    ensures var failed := Executed(cfg, r.At(2), 2, Plain(signer, []).(executes := false));
            && failed == Outcome(Fresh([]), [FinalizeChange(c)], false)
            && Executed(cfg, failed.tracker, 2, Plain(signer, [])) == Outcome(Fresh([]), [], true)
  {
    r := EarlyEvent(cfg, c, signer);
    OneContract(c, 2);
    NoEvents(signer, [], c);
  }

  // A restart between the event and the call keeps the call: the replay of block 1 ends with the
  // schedule, and so does the tracker that is rebuilt from it.
  lemma RestartKeepsCall(cfg: Config, c: Address, a: Address, scanner: Scanner, restarted: Run) returns (r: Run)
    requires cfg == Config(map[0 := Contract(c)], 100, 200)
    requires scanner == Scanner(map[1 := a], map[1 := [Receipt([EventLog(c)])]])
    requires restarted == Start(2, Rebuilt(scanner, 1, c, 100))
    ensures ValidRun(cfg, r) && r.At(r.first) == Fresh([]) && r.first == 1
    ensures r.blocks == [BlockBy(a, [Receipt([EventLog(c)])], [], [])]
    ensures restarted.At(2) == Recovered(map[], Some(Schedule(2, c)))
    ensures FinalizeTarget(cfg, restarted.At(2), 2) == FinalizeTarget(cfg, r.At(2), 2) == Some(c)
  {
    r := EarlyEvent(cfg, c, a);
    OneContract(c, 1);
    OneContract(c, 2);
    OneBlockWindow(cfg, r, scanner, c, |Discovered(scanner, 0, 2)|);
    RestartContinues(cfg, r, scanner, c, 1, restarted);
  }

  /*** Logs that are no events ***/

  // Another event of the contract, the topic in second place, and the topic from elsewhere.
  function OtherLogs(c: Address, other: Address): seq<Log> {
    [Log(c, [7]), Log(c, []), Log(c, [7, INITIATE_CHANGE_TOPIC]), Log(other, [INITIATE_CHANGE_TOPIC])]
  }

  lemma OtherLogsAreNoEvents(c: Address, other: Address)
    requires c != other
    ensures !LogsContainInitiateChange(OtherLogs(c, other), c)
  {
    assert INITIATE_CHANGE_TOPIC != 7;
    forall log | log in OtherLogs(c, other) ensures !IsInitiateChange(log, c) {
      assert log == Log(c, [7]) || log == Log(c, []) || log == Log(c, [7, INITIATE_CHANGE_TOPIC])
             || log == Log(other, [INITIATE_CHANGE_TOPIC]);
    }
  }

  // Such logs, in the receipts and in the reward call, record nothing: neither from POSDAO on, where the
  // block finds its set, nor before it.
  lemma OtherLogsIgnored(cfg: Config, early: Config, c: Address, other: Address, a: Address, v: Address, b: BlockInput)
    returns (r: Run, s: Run)
    requires c != other && a != v
    requires cfg == Config(map[0 := Contract(c)], 1, 200) && early == cfg.(posdao := 100)
    requires b == BlockBy(a, [Receipt(OtherLogs(c, other))], OtherLogs(c, other), [a, v])
    ensures ValidRun(cfg, r) && r.At(r.first) == Fresh([]) && r.first == 1 && r.blocks == [b]
    ensures ValidRun(early, s) && s.At(s.first) == Fresh([]) && s.first == 1 && s.blocks == [b]
    ensures r.At(2) == Tracker([a, v], true, [Entry(1, a)], map[], None)
    ensures s.At(2) == Fresh([])
  {
    OneContract(c, 1);
    OtherLogsAreNoEvents(c, other);
    assert !EventDetected(b, c);
    r := InitializingBlock(cfg, 1, b, [a, v], c);
    LoneSigner(r.Mid(1), 1, a);
    StartIsRun(early, 1);
    s := EarlyBlock(early, Start(1, Fresh([])), b, c);
  }

  // The first block of a run asks the contract for its set.
  lemma InitializingBlock(cfg: Config, n: nat, b: BlockInput, validators: seq<Address>, c: Address) returns (x: Run)
    requires cfg.posdao <= n < cfg.merge && |validators| < U64_BOUND
    requires BoundaryFinalize(cfg.sets, n).None? && ContractAt(cfg.sets, n) == Some(c)
    requires b.executes && b.settles && b.initAnswer == Success(Abi.Encode(validators)) && !EventDetected(b, c)
    ensures var mid := Tracker(validators, true, [], map[], None);
            Grown(cfg, Start(n, Fresh([])), x, b, mid, Pushed(mid, n, b.signer))
  {
    Abi.RoundTrip(validators, Abi.Encode(validators));
    StartIsRun(cfg, n);
    x := Extend(cfg, Start(n, Fresh([])), b);
  }

  /*** An event that a call strands ***/

  // A POSDAO block without a call or a refresh, with an event.
  lemma EventBlock(cfg: Config, r: Run, b: BlockInput, c: Address) returns (x: Run)
    requires ValidRun(cfg, r) && cfg.posdao <= r.End() < cfg.merge && b.executes && b.settles
    requires FinalizeTarget(cfg, r.At(r.End()), r.End()).None?
    requires ContractAt(cfg.sets, r.End()) == Some(c) && EventDetected(b, c)
    requires r.At(r.End()).validators != []
    ensures var n, mid := r.End(), WithPending(r.At(r.End()), r.End(), c);
            Grown(cfg, r, x, b, mid, Pushed(mid, n, b.signer))
  {
    x := Extend(cfg, r, b);
  }

  // The second of two validators makes the first one's block final, and schedules its transition.
  lemma SecondSigner(t: Tracker, n: nat, a: Address, v: Address, c: Address)
    requires t.validators == [a, v] && a != v
    requires t.queue == [Entry(n, a)] && t.pending == map[n := c, n + 1 := c]
    ensures Pushed(t, n + 1, v) == t.(queue := [Entry(n + 1, v)], pending := map[n + 1 := c],
                                      scheduled := Some(Schedule(n + 2, c)))
  {
    var q, first := [Entry(n, a), Entry(n + 1, v)], [Entry(n, a)];
    assert t.queue + [Entry(n + 1, v)] == q;
    assert Signers(q) == {a, v} && q[1..] == [Entry(n + 1, v)] && Signers(q[1..]) == {v};
    assert Cut(2, q[1..]) == 0 && Cut(2, q) == 1 && q[..1] == first;
    assert first[..0] == [];
    assert Commit(t.pending, t.scheduled, [], n + 2) == (t.pending, t.scheduled);
    assert t.pending - {n} == map[n + 1 := c];
  }

  lemma EventsInTurn(cfg: Config, c: Address, a: Address, v: Address) returns (r: Run)
    requires cfg == Config(map[0 := Contract(c)], 1, 200) && a != v
    ensures ValidRun(cfg, r) && r.At(r.first) == Fresh([]) && r.first == 1
    ensures r.blocks == [BlockBy(a, [], [EventLog(c)], [a, v]), BlockBy(v, [], [EventLog(c)], [a, v])]
    ensures r.At(3) == Tracker([a, v], true, [Entry(2, v)], map[2 := c], Some(Schedule(3, c)))
  {
    OneContract(c, 1);
    RewardEvent(a, [a, v], c);
    r := FirstBlock(cfg, 1, BlockBy(a, [], [EventLog(c)], [a, v]), [a, v], c);
    LoneSigner(r.Mid(1), 1, a);
    OneContract(c, 2);
    RewardEvent(v, [a, v], c);
    r := EventBlock(cfg, r, BlockBy(v, [], [EventLog(c)], [a, v]), c);
    assert r.Mid(2).pending == map[1 := c, 2 := c];
    SecondSigner(r.Mid(2), 1, a, v, c);
  }

  // Of the events of blocks 1 and 2, the first is final with block 2 and calls in block 3. The call
  // strands the second: however the run goes on, its transition stays pending.
  lemma SecondEventStranded(cfg: Config, c: Address, a: Address, v: Address) returns (r: Run)
    requires cfg == Config(map[0 := Contract(c)], 1, 200) && a != v
    ensures ValidRun(cfg, r) && r.At(r.first) == Fresh([]) && r.first == 1
    ensures r.blocks == [BlockBy(a, [], [EventLog(c)], [a, v]), BlockBy(v, [], [EventLog(c)], [a, v]), Plain(a, [a, v])]
    ensures FinalizeTarget(cfg, r.At(3), 3) == Some(c)
    ensures r.At(3).pending == r.At(4).pending == map[2 := c] && r.Mid(3).queue == []
  {
    r := EventsInTurn(cfg, c, a, v);
    OneContract(c, 3);
    r := CallingBlock(cfg, r, a, [a, v], c);
    LoneSigner(r.Mid(3), 3, a);
  }
}
