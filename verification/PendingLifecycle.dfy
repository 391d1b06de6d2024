// What arbitrary sequences of tracker operations keep, and how a pending transition ends.
module PendingLifecycle {
  import opened Primitives
  import opened FinalityRules

  datatype Op =
    | OpPush(number: nat, signer: Address)
    | OpSetImmediate(target: nat, contract: Address)
    | OpAddPending(block: nat, contract: Address)
    | OpTake(at: nat)
    | OpSetValidators(validators: seq<Address>)

  function Apply(t: Tracker, op: Op): Tracker {
    match op
    case OpPush(n, a) => Pushed(t, n, a)
    case OpSetImmediate(n, c) => WithSchedule(t, n, c)
    case OpAddPending(n, c) => WithPending(t, n, c)
    case OpTake(n) => Taken(t, n)
    case OpSetValidators(v) => WithValidators(t, v)
  }

  function AfterOps(t: Tracker, ops: seq<Op>): Tracker {
    if ops == [] then t else Apply(AfterOps(t, ops[..|ops| - 1]), ops[|ops| - 1])
  }

  // The two ways the program creates a tracker.
  predicate Initial(t: Tracker) {
    t == Fresh(t.validators) || t == Recovered(t.pending, t.scheduled)
  }

  // The append-only rule the tracker documents for its callers.
  predicate IncreasingPushes(ops: seq<Op>) {
    forall i, j :: 0 <= i < j < |ops| && ops[i].OpPush? && ops[j].OpPush? ==> ops[i].number < ops[j].number
  }

  ghost predicate Bounded(t: Tracker) {
    && Signers(t.queue) <= Members(t.validators)
    && 2 * |Signers(t.queue)| <= |t.validators|
  }

  lemma SignersOfSuffix(q: seq<Entry>, k: nat)
    requires k <= |q|
    ensures Signers(q[k..]) <= Signers(q)
  {
  }

  lemma PushedBounded(t: Tracker, n: nat, a: Address)
    requires Bounded(t)
    ensures Bounded(Pushed(t, n, a))
  {
    if Counted(t, a) {
      var q, vs := t.queue + [Entry(n, a)], Admitted(t, a);
      SignersConcat(t.queue, [Entry(n, a)]);
      CutStops(|vs|, q);
      SignersOfSuffix(q, Cut(|vs|, q));
      assert Signers(q) <= Members(vs);
    }
  }

  // After any operations at all, the queue's signers are validators and never a strict majority.
  lemma {:induction false} ReachableBounded(t: Tracker, ops: seq<Op>)
    requires Initial(t)
    ensures Bounded(AfterOps(t, ops))
  {
    if ops != [] {
      var init, last := ops[..|ops| - 1], ops[|ops| - 1];
      ReachableBounded(t, init);
      if last.OpPush? {
        PushedBounded(AfterOps(t, init), last.number, last.signer);
      }
    }
  }

  ghost predicate QueueBelow(t: Tracker, n: nat) {
    Increasing(t.queue) && forall e :: e in t.queue ==> e.number < n
  }

  ghost predicate PushesBelow(ops: seq<Op>, n: nat) {
    forall i :: 0 <= i < |ops| && ops[i].OpPush? ==> ops[i].number < n
  }

  lemma PushedQueueBelow(t: Tracker, n: nat, a: Address)
    requires QueueBelow(t, n)
    ensures QueueBelow(Pushed(t, n, a), n + 1)
    ensures Increasing(Batch(t, n, a))
  {
    if Counted(t, a) {
      var q, k := t.queue + [Entry(n, a)], Cut(|Admitted(t, a)|, t.queue + [Entry(n, a)]);
      assert Increasing(q);
      assert Pushed(t, n, a).queue == q[k..] && Batch(t, n, a) == q[..k];
    }
  }

  // With increasing pushes the queue is in increasing order, below any later push.
  lemma {:induction false} ReachableIncreasing(t: Tracker, ops: seq<Op>, n: nat)
    requires Initial(t)
    requires IncreasingPushes(ops) && PushesBelow(ops, n)
    ensures QueueBelow(AfterOps(t, ops), n)
  {
    if ops != [] {
      var init, last := ops[..|ops| - 1], ops[|ops| - 1];
      if last.OpPush? {
        ReachableIncreasing(t, init, last.number);
        PushedQueueBelow(AfterOps(t, init), last.number, last.signer);
      } else {
        ReachableIncreasing(t, init, n);
      }
    }
  }

  // A pending transition ends exactly with the push that finalizes its own block; clears,
  // refreshes and dropped signers leave it in place.
  lemma PendingEndsWithOwnFinalization(t: Tracker, op: Op, k: nat)
    requires k in t.pending
    ensures k !in Apply(t, op).pending
            <==> op.OpPush? && k in Numbers(Batch(t, op.number, op.signer))
    ensures k in Apply(t, op).pending && !(op.OpAddPending? && op.block == k)
            ==> Apply(t, op).pending[k] == t.pending[k]
  {
    if op.OpPush? {
      CommitPending(t.pending, t.scheduled, Batch(t, op.number, op.signer), op.number + 1);
    }
  }

  lemma {:induction false} PendingSurvives(t: Tracker, ops: seq<Op>, i: nat, k: nat)
    requires i <= |ops|
    requires k in AfterOps(t, ops[..i]).pending
    requires forall j :: i <= j < |ops| && ops[j].OpPush? ==>
               k !in Numbers(Batch(AfterOps(t, ops[..j]), ops[j].number, ops[j].signer))
    ensures k in AfterOps(t, ops).pending
    decreases |ops|
  {
    if i < |ops| {
      var init, last := ops[..|ops| - 1], ops[|ops| - 1];
      assert forall j :: 0 <= j <= |init| ==> init[..j] == ops[..j];
      PendingSurvives(t, init, i, k);
      assert ops[..|ops| - 1] == init;
      PendingEndsWithOwnFinalization(AfterOps(t, init), last, k);
    } else {
      assert ops[..i] == ops;
    }
  }

  // The schedule after a push: the contract of the highest-numbered pending block in its batch,
  // due at the next block; without such a block the schedule is kept.
  ghost predicate ScheduleAfterPush(s: Tracker, n: nat, a: Address) {
    var batch := Batch(s, n, a);
    if Numbers(batch) !! s.pending.Keys then Pushed(s, n, a).scheduled == s.scheduled
    else exists h :: HighestPending(s.pending, batch, h)
                     && Pushed(s, n, a).scheduled == Some(Schedule(n + 1, s.pending[h]))
  }

  lemma PushSchedulesHighest(s: Tracker, n: nat, a: Address)
    requires QueueBelow(s, n)
    ensures ScheduleAfterPush(s, n, a)
  {
    PushedQueueBelow(s, n, a);
    CommitSchedule(s.pending, s.scheduled, Batch(s, n, a), n + 1);
    HighestInMeaning(s.pending, Batch(s, n, a));
  }

  // In any history of increasing pushes, every push schedules by that rule.
  lemma BatchSchedulesHighest(t: Tracker, ops: seq<Op>, n: nat, a: Address)
    requires Initial(t)
    requires IncreasingPushes(ops) && PushesBelow(ops, n)
    ensures ScheduleAfterPush(AfterOps(t, ops), n, a)
  {
    ReachableIncreasing(t, ops, n);
    PushSchedulesHighest(AfterOps(t, ops), n, a);
  }
}
