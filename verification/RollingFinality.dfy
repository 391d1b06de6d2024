// The rolling-finality tracker of src/aura/finality.rs.
//
// FinalityRules gives the tracker's meaning: an abstract state without the signer counts,
// in which "how much of the queue is final" is defined by the longest suffix that no
// strict majority has signed. RollingFinality is the mutable object, which maintains the
// signer counts incrementally and is proved to implement those rules.

module FinalityRules {
  import opened Primitives

  datatype Entry = Entry(number: nat, signer: Address)

  datatype Schedule = Schedule(target: nat, contract: Address)

  datatype Tracker = Tracker(
    validators: seq<Address>,
    sealed: bool,
    queue: seq<Entry>,
    pending: map<nat, Address>,
    scheduled: Option<Schedule>)

  function Signers(q: seq<Entry>): set<Address> {
    set e | e in q :: e.signer
  }

  function Members(validators: seq<Address>): set<Address> {
    set v | v in validators
  }

  // The geth rule: twice the number of distinct signers exceeds the validator count.
  predicate Majority(validators: nat, q: seq<Entry>) {
    2 * |Signers(q)| > validators
  }

  // How many entries at the front of `q` are final: what is left is the longest suffix of
  // `q` that no majority has signed (see CutIsLeast).
  function Cut(validators: nat, q: seq<Entry>): (k: nat)
    ensures k <= |q|
  {
    if Majority(validators, q) then 1 + Cut(validators, q[1..]) else 0
  }

  // The effect of a batch of finalized entries on the pending transitions and the schedule.
  function Commit(pending: map<nat, Address>, scheduled: Option<Schedule>, batch: seq<Entry>, target: nat)
    : (map<nat, Address>, Option<Schedule>)
  {
    if batch == [] then (pending, scheduled)
    else
      var (p, s) := Commit(pending, scheduled, batch[..|batch| - 1], target);
      var n := batch[|batch| - 1].number;
      if n in p then (p - {n}, Some(Schedule(target, p[n]))) else (p, s)
  }

  predicate Counted(t: Tracker, signer: Address) {
    signer in t.validators || !t.sealed
  }

  function Admitted(t: Tracker, signer: Address): seq<Address> {
    if signer in t.validators then t.validators else t.validators + [signer]
  }

  function Batch(t: Tracker, number: nat, signer: Address): seq<Entry> {
    if !Counted(t, signer) then []
    else
      var q := t.queue + [Entry(number, signer)];
      q[..Cut(|Admitted(t, signer)|, q)]
  }

  function Pushed(t: Tracker, number: nat, signer: Address): Tracker {
    if !Counted(t, signer) then t
    else
      var q := t.queue + [Entry(number, signer)];
      var validators := Admitted(t, signer);
      var (pending, scheduled) := Commit(t.pending, t.scheduled, Batch(t, number, signer), number + 1);
      Tracker(validators, t.sealed, q[Cut(|validators|, q)..], pending, scheduled)
  }

  predicate Due(t: Tracker, number: nat) {
    t.scheduled.Some? && t.scheduled.value.target <= number
  }

  function Taken(t: Tracker, number: nat): Tracker {
    if Due(t, number) then t.(queue := [], scheduled := None) else t
  }

  function WithValidators(t: Tracker, validators: seq<Address>): Tracker {
    t.(validators := validators, sealed := true, queue := [])
  }

  function WithPending(t: Tracker, number: nat, contract: Address): Tracker {
    t.(pending := t.pending[number := contract])
  }

  function WithSchedule(t: Tracker, target: nat, contract: Address): Tracker {
    t.(scheduled := Some(Schedule(target, contract)))
  }

  function Fresh(validators: seq<Address>): Tracker {
    Tracker(validators, false, [], map[], None)
  }

  function Recovered(pending: map<nat, Address>, scheduled: Option<Schedule>): Tracker {
    Tracker([], false, [], pending, scheduled)
  }

  /*** Facts about signer sets and cuts ***/

  lemma SignersConcat(a: seq<Entry>, b: seq<Entry>)
    ensures Signers(a + b) == Signers(a) + Signers(b)
  {
  }

  lemma SubsetCardinality<T>(a: set<T>, b: set<T>)
    requires a <= b
    ensures |a| <= |b|
  {
    assert b == a + (b - a);
    assert |b| == |a| + |b - a|;
  }

  // A majority of a part is a majority of the whole.
  lemma MajorityGrows(validators: nat, a: seq<Entry>, b: seq<Entry>, c: seq<Entry>)
    requires Majority(validators, b)
    ensures Majority(validators, a + b + c)
  {
    SignersConcat(a, b);
    SignersConcat(a + b, c);
    SubsetCardinality(Signers(b), Signers(a + b + c));
  }

  lemma MajorityOfLongerSuffix(validators: nat, q: seq<Entry>, i: nat, j: nat)
    requires i <= j <= |q|
    requires Majority(validators, q[j..])
    ensures Majority(validators, q[i..])
  {
    assert q[i..] == q[i..j] + q[j..] + [];
    MajorityGrows(validators, q[i..j], q[j..], []);
  }

  lemma {:induction false} CutStops(validators: nat, q: seq<Entry>)
    ensures !Majority(validators, q[Cut(validators, q)..])
  {
    if Majority(validators, q) {
      CutStops(validators, q[1..]);
      assert q[Cut(validators, q)..] == q[1..][Cut(validators, q[1..])..];
    } else {
      assert q[0..] == q;
    }
  }

  lemma {:induction false} MajorityBeforeCut(validators: nat, q: seq<Entry>, i: nat)
    requires i < Cut(validators, q)
    ensures Majority(validators, q[i..])
  {
    if i > 0 {
      MajorityBeforeCut(validators, q[1..], i - 1);
      assert q[i..] == q[1..][i - 1..];
    } else {
      assert q[0..] == q;
    }
  }

  // The defining property: an entry stays unfinalized iff the suffix starting at it has no majority.
  lemma CutIsLeast(validators: nat, q: seq<Entry>, i: nat)
    requires i <= |q|
    ensures i < Cut(validators, q) <==> Majority(validators, q[i..])
  {
    if i < Cut(validators, q) {
      MajorityBeforeCut(validators, q, i);
    } else {
      CutStops(validators, q);
      if Majority(validators, q[i..]) {
        MajorityOfLongerSuffix(validators, q, Cut(validators, q), i);
      }
    }
  }

  // The cut is determined by where the majority stops.
  lemma CutUnique(validators: nat, q: seq<Entry>, k: nat)
    requires k <= |q|
    requires !Majority(validators, q[k..])
    requires k > 0 ==> Majority(validators, q[k - 1..])
    ensures Cut(validators, q) == k
  {
    CutIsLeast(validators, q, k);
    if k > 0 {
      CutIsLeast(validators, q, k - 1);
    }
  }

  lemma MajorityOfAppended(validators: nat, q: seq<Entry>, e: Entry)
    requires Majority(validators, q)
    ensures Majority(validators, q + [e])
  {
    SignersConcat(q, [e]);
    SubsetCardinality(Signers(q), Signers(q + [e]));
  }

  lemma SlicesOfExtension<T>(h: seq<T>, e: T, c: nat, k: nat)
    requires c <= |h| && k <= |h| - c + 1
    ensures (h + [e])[c + k..] == (h[c..] + [e])[k..]
    ensures (h + [e])[c..c + k] == (h[c..] + [e])[..k]
  {
  }

  lemma MajorityBeforeAppendedCut(validators: nat, h: seq<Entry>, e: Entry, c: nat)
    requires c == Cut(validators, h) && c > 0
    ensures Majority(validators, (h + [e])[c - 1..])
  {
    MajorityBeforeCut(validators, h, c - 1);
    MajorityOfAppended(validators, h[c - 1..], e);
    assert (h + [e])[c - 1..] == h[c - 1..] + [e];
  }

  // One entry before the remainder's cut, there is still a majority.
  lemma MajorityBeforeRemainder(validators: nat, h: seq<Entry>, e: Entry, c: nat, k: nat)
    requires c == Cut(validators, h) && k == Cut(validators, h[c..] + [e])
    requires c + k > 0
    ensures Majority(validators, (h + [e])[c + k - 1..])
  {
    if k > 0 {
      MajorityBeforeCut(validators, h[c..] + [e], k - 1);
      SlicesOfExtension(h, e, c, k - 1);
    } else {
      MajorityBeforeAppendedCut(validators, h, e, c);
    }
  }

  // Cutting twice: appending to a suffix that has already been cut gives the cut of the whole.
  lemma CutOfRemainder(validators: nat, h: seq<Entry>, e: Entry, c: nat, k: nat)
    requires c == Cut(validators, h) && k == Cut(validators, h[c..] + [e])
    ensures Cut(validators, h + [e]) == c + k
  {
    CutStops(validators, h[c..] + [e]);
    SlicesOfExtension(h, e, c, k);
    if c + k > 0 {
      MajorityBeforeRemainder(validators, h, e, c, k);
    }
    CutUnique(validators, h + [e], c + k);
  }

  lemma SliceBehindPrefix<T>(prefix: seq<T>, q: seq<T>, k: nat)
    requires k <= |q|
    ensures (prefix + q)[|prefix| + k..] == q[k..]
  {
  }

  lemma CutPastPrefix(validators: nat, prefix: seq<Entry>, q: seq<Entry>, k: nat)
    requires k == Cut(validators, q) && k > 0
    ensures Cut(validators, prefix + q) == |prefix| + k
  {
    CutStops(validators, q);
    MajorityBeforeCut(validators, q, k - 1);
    SliceBehindPrefix(prefix, q, k);
    SliceBehindPrefix(prefix, q, k - 1);
    CutUnique(validators, prefix + q, |prefix| + k);
  }

  // Entries put in front of a queue are only ever cut before the queue's own entries, and
  // do not change which of the queue's own entries are cut.
  lemma CutBehindPrefix(validators: nat, prefix: seq<Entry>, q: seq<Entry>)
    ensures var k := Cut(validators, q);
            var m := Cut(validators, prefix + q);
            if k > 0 then m == |prefix| + k else m <= |prefix|
  {
    if Cut(validators, q) > 0 {
      CutPastPrefix(validators, prefix, q, Cut(validators, q));
    } else {
      CutStops(validators, q);
      SliceBehindPrefix(prefix, q, 0);
      CutIsLeast(validators, prefix + q, |prefix|);
    }
  }

  /*** What a batch does to the pending transitions and the schedule ***/

  function Numbers(q: seq<Entry>): set<nat> {
    set e | e in q :: e.number
  }

  predicate Increasing(q: seq<Entry>) {
    forall i, j :: 0 <= i < j < |q| ==> q[i].number < q[j].number
  }

  // `h` is the highest number in the batch that has a pending transition.
  predicate HighestPending(pending: map<nat, Address>, batch: seq<Entry>, h: nat) {
    && h in pending && h in Numbers(batch)
    && forall n :: n in Numbers(batch) && n in pending ==> n <= h
  }

  lemma NumbersSnoc(q: seq<Entry>, e: Entry)
    ensures Numbers(q + [e]) == Numbers(q) + {e.number}
  {
  }

  lemma {:induction false} CommitPending(pending: map<nat, Address>, scheduled: Option<Schedule>,
      batch: seq<Entry>, target: nat)
    ensures Commit(pending, scheduled, batch, target).0 == pending - Numbers(batch)
  {
    if batch != [] {
      var init, last := batch[..|batch| - 1], batch[|batch| - 1];
      CommitPending(pending, scheduled, init, target);
      assert batch == init + [last];
      NumbersSnoc(init, last);
    }
  }

  lemma {:induction false} CommitNothing(pending: map<nat, Address>, scheduled: Option<Schedule>,
      batch: seq<Entry>, target: nat)
    requires Numbers(batch) !! pending.Keys
    ensures Commit(pending, scheduled, batch, target) == (pending, scheduled)
  {
    if batch != [] {
      var init, last := batch[..|batch| - 1], batch[|batch| - 1];
      assert batch == init + [last];
      NumbersSnoc(init, last);
      CommitNothing(pending, scheduled, init, target);
    }
  }

  lemma IncreasingSnoc(q: seq<Entry>, e: Entry)
    requires Increasing(q + [e])
    ensures Increasing(q)
    ensures forall n :: n in Numbers(q) ==> n < e.number
  {
    var all := q + [e];
    assert forall i :: 0 <= i < |q| ==> all[i] == q[i];
    assert all[|q|] == e;
  }

  // A batch keeps the schedule or makes one for its target.
  lemma {:induction false} CommitSchedules(pending: map<nat, Address>, scheduled: Option<Schedule>,
      batch: seq<Entry>, target: nat)
    ensures var s := Commit(pending, scheduled, batch, target).1;
            s == scheduled || (s.Some? && s.value.target == target)
  {
    if batch != [] {
      CommitSchedules(pending, scheduled, batch[..|batch| - 1], target);
    }
  }

  lemma {:induction false} CommitSchedulesHighest(pending: map<nat, Address>, scheduled: Option<Schedule>,
      batch: seq<Entry>, target: nat, h: nat)
    requires Increasing(batch)
    requires HighestPending(pending, batch, h)
    ensures Commit(pending, scheduled, batch, target).1 == Some(Schedule(target, pending[h]))
  {
    var init, last := batch[..|batch| - 1], batch[|batch| - 1];
    assert batch == init + [last];
    NumbersSnoc(init, last);
    IncreasingSnoc(init, last);
    CommitPending(pending, scheduled, init, target);
    if last.number != h {
      CommitSchedulesHighest(pending, scheduled, init, target, h);
    }
  }

  // The highest-numbered pending block in a batch, if the batch hits any.
  function HighestIn(pending: map<nat, Address>, batch: seq<Entry>): (r: Option<nat>)
    ensures r.Some? ==> r.value in pending
  {
    if batch == [] then None
    else
      var h, last := HighestIn(pending, batch[..|batch| - 1]), batch[|batch| - 1];
      if last.number in pending && (h.None? || h.value < last.number) then Some(last.number) else h
  }

  lemma {:induction false} HighestInMeaning(pending: map<nat, Address>, batch: seq<Entry>)
    ensures match HighestIn(pending, batch)
            case None => Numbers(batch) !! pending.Keys
            case Some(h) => HighestPending(pending, batch, h)
  {
    if batch != [] {
      var init, last := batch[..|batch| - 1], batch[|batch| - 1];
      assert batch == init + [last];
      NumbersSnoc(init, last);
      HighestInMeaning(pending, init);
    }
  }

  // With increasing block numbers, a batch schedules the contract of its highest-numbered pending
  // block, and keeps the schedule if it has none.
  lemma CommitSchedule(pending: map<nat, Address>, scheduled: Option<Schedule>, batch: seq<Entry>, target: nat)
    requires Increasing(batch)
    ensures Commit(pending, scheduled, batch, target).1 ==
              match HighestIn(pending, batch)
              case Some(h) => Some(Schedule(target, pending[h]))
              case None => scheduled
  {
    var h := HighestIn(pending, batch);
    HighestInMeaning(pending, batch);
    if h.Some? {
      CommitSchedulesHighest(pending, scheduled, batch, target, h.value);
    } else {
      CommitNothing(pending, scheduled, batch, target);
    }
  }
}

// The mutable tracker.
module RollingFinalityTracker {
  import opened Primitives
  import opened FinalityRules

  // Of the queue `q`, the pop loop has moved `popped` out, each entry of it under a majority, and
  // `left` is still there.
  ghost predicate PoppedTo(validators: nat, q: seq<Entry>, popped: seq<Entry>, left: seq<Entry>) {
    && q == popped + left
    && (popped != [] ==> Majority(validators, q[|popped| - 1..]))
  }

  lemma PopKeeps(validators: nat, q: seq<Entry>, popped: seq<Entry>, left: seq<Entry>)
    requires PoppedTo(validators, q, popped, left)
    requires left != [] && Majority(validators, left)
    ensures PoppedTo(validators, q, popped + [left[0]], left[1..])
  {
    assert q[|popped|..] == left;
  }

  lemma PoppedAll(validators: nat, q: seq<Entry>, popped: seq<Entry>, left: seq<Entry>)
    requires PoppedTo(validators, q, popped, left)
    requires !Majority(validators, left)
    ensures popped == q[..Cut(validators, q)] && left == q[Cut(validators, q)..]
  {
    assert q[|popped|..] == left && q[..|popped|] == popped;
    CutUnique(validators, q, |popped|);
  }

  ghost function Occurrences(q: seq<Entry>, a: Address): nat {
    if q == [] then 0
    else (if q[0].signer == a then 1 else 0) + Occurrences(q[1..], a)
  }

  lemma {:induction false} OccurrencesPositive(q: seq<Entry>, a: Address)
    ensures a in Signers(q) <==> Occurrences(q, a) > 0
  {
    if q != [] {
      OccurrencesPositive(q[1..], a);
      SignersConcat([q[0]], q[1..]);
      assert q == [q[0]] + q[1..];
    }
  }

  lemma {:induction false} OccurrencesSnoc(q: seq<Entry>, e: Entry, a: Address)
    ensures Occurrences(q + [e], a) == Occurrences(q, a) + (if e.signer == a then 1 else 0)
  {
    if q == [] {
      assert q + [e] == [e];
    } else {
      OccurrencesSnoc(q[1..], e, a);
      assert (q + [e])[1..] == q[1..] + [e];
    }
  }

  // `counts` holds exactly the signers of the queue, each with its positive number of entries.
  ghost predicate CountsQueue(counts: map<Address, nat>, q: seq<Entry>) {
    && counts.Keys == Signers(q)
    && forall a :: a in counts ==> counts[a] == Occurrences(q, a)
  }

  lemma CountsAfterAppend(counts: map<Address, nat>, q: seq<Entry>, e: Entry)
    requires CountsQueue(counts, q)
    ensures CountsQueue(counts[e.signer := (if e.signer in counts then counts[e.signer] else 0) + 1], q + [e])
  {
    var counts' := counts[e.signer := (if e.signer in counts then counts[e.signer] else 0) + 1];
    SignersConcat(q, [e]);
    assert counts'.Keys == Signers(q + [e]);
    forall a | a in counts' ensures counts'[a] == Occurrences(q + [e], a) {
      OccurrencesSnoc(q, e, a);
      OccurrencesPositive(q, a);
    }
  }

  lemma CountsAfterPop(counts: map<Address, nat>, q: seq<Entry>)
    requires CountsQueue(counts, q)
    requires q != []
    ensures q[0].signer in counts && counts[q[0].signer] > 0
    ensures var a := q[0].signer;
            CountsQueue(if counts[a] == 1 then counts - {a} else counts[a := counts[a] - 1], q[1..])
  {
    var a := q[0].signer;
    assert q[0] in q;
    var rest := q[1..];
    assert q == [q[0]] + rest;
    SignersConcat([q[0]], rest);
    OccurrencesPositive(rest, a);
    var counts' := if counts[a] == 1 then counts - {a} else counts[a := counts[a] - 1];
    assert counts'.Keys == Signers(rest);
  }

  class RollingFinality {
    var validators: seq<Address>
    var validatorsSealed: bool
    var headers: seq<Entry>
    var signCount: map<Address, nat>
    var pendingTransitions: map<nat, Address>
    var finalizeChangeAt: Option<Schedule>

    // The reachable-state invariant: the counts mirror the queue, whose signers are all
    // validators and never a strict majority.
    ghost predicate Valid()
      reads this
    {
      && CountsQueue(signCount, headers)
      && 2 * |signCount| <= |validators|
    }

    ghost function View(): (t: Tracker)
      reads this
      ensures t.validators == validators && t.sealed == validatorsSealed && t.queue == headers
      ensures t.pending == pendingTransitions && t.scheduled == finalizeChangeAt
    {
      Tracker(validators, validatorsSealed, headers, pendingTransitions, finalizeChangeAt)
    }

    constructor (validators: seq<Address>)
      ensures Valid()
      ensures View() == Fresh(validators)
      ensures this.validators == validators && !validatorsSealed
      ensures headers == [] && pendingTransitions == map[] && finalizeChangeAt == None
    {
      this.validators := validators;
      validatorsSealed := false;
      headers, signCount := [], map[];
      pendingTransitions, finalizeChangeAt := map[], None;
    }

    constructor FromRecovered(pending: map<nat, Address>, scheduled: Option<Schedule>)
      ensures Valid()
      ensures View() == Recovered(pending, scheduled)
      ensures validators == [] && !validatorsSealed && headers == []
      ensures pendingTransitions == pending && finalizeChangeAt == scheduled
    {
      validators := [];
      validatorsSealed := false;
      headers, signCount := [], map[];
      pendingTransitions, finalizeChangeAt := pending, scheduled;
    }

    predicate IsFinalized()
      reads this
    {
      |signCount| * 2 > |validators|
    }

    lemma CountsDecideMajority()
      requires CountsQueue(signCount, headers)
      ensures |signCount| == |Signers(headers)|
      ensures IsFinalized() <==> Majority(|validators|, headers)
    {
    }

    method Push(number: nat, signer: Address) returns (finalized: seq<Entry>)
      requires Valid()
      modifies this
      ensures Valid()
      ensures View() == Pushed(old(View()), number, signer)
      ensures finalized == Batch(old(View()), number, signer)
      ensures validatorsSealed == old(validatorsSealed)
      ensures validators == if signer in old(validators) || old(validatorsSealed) then old(validators)
                            else old(validators) + [signer]
      ensures finalized + headers == if signer !in old(validators) && old(validatorsSealed) then old(headers)
                                     else old(headers) + [Entry(number, signer)]
    {
      if signer !in validators {
        if !validatorsSealed {
          validators := validators + [signer];
        } else {
          return [];
        }
      }

      PushBack(Entry(number, signer));
      finalized := PopFinalized();
      ScheduleFinalized(finalized, number);
    }

    method PushBack(e: Entry)
      requires CountsQueue(signCount, headers)
      modifies `headers, `signCount
      ensures CountsQueue(signCount, headers)
      ensures headers == old(headers) + [e]
    {
      CountsAfterAppend(signCount, headers, e);
      signCount := signCount[e.signer := (if e.signer in signCount then signCount[e.signer] else 0) + 1];
      headers := headers + [e];
    }

    method PopFront() returns (front: Entry)
      requires CountsQueue(signCount, headers)
      requires headers != []
      modifies `headers, `signCount
      ensures CountsQueue(signCount, headers)
      ensures front == old(headers)[0] && headers == old(headers)[1..]
    {
      CountsAfterPop(signCount, headers);
      front := headers[0];
      headers := headers[1..];
      if front.signer in signCount {
        var count := signCount[front.signer] - 1;
        signCount := if count == 0 then signCount - {front.signer} else signCount[front.signer := count];
      }
    }

    // The pop loop of `push`.
    method PopFinalized() returns (finalized: seq<Entry>)
      requires CountsQueue(signCount, headers)
      modifies `headers, `signCount
      ensures Valid()
      ensures var k := Cut(|validators|, old(headers));
              finalized == old(headers)[..k] && headers == old(headers)[k..]
      ensures finalized + headers == old(headers)
    {
      ghost var q := headers;
      finalized := [];
      while IsFinalized()
        invariant CountsQueue(signCount, headers)
        invariant PoppedTo(|validators|, q, finalized, headers)
        decreases |headers|
      {
        CountsDecideMajority();
        if headers != [] {
          PopKeeps(|validators|, q, finalized, headers);
          var front := PopFront();
          finalized := finalized + [front];
        } else {
          assert false;
          break;
        }
      }
      CountsDecideMajority();
      PoppedAll(|validators|, q, finalized, headers);
    }

    // The transition loop of `push`.
    method ScheduleFinalized(finalized: seq<Entry>, number: nat)
      modifies `pendingTransitions, `finalizeChangeAt
      ensures (pendingTransitions, finalizeChangeAt) ==
              Commit(old(pendingTransitions), old(finalizeChangeAt), finalized, number + 1)
    {
      for i := 0 to |finalized|
        invariant (pendingTransitions, finalizeChangeAt) ==
                  Commit(old(pendingTransitions), old(finalizeChangeAt), finalized[..i], number + 1)
      {
        assert finalized[..i + 1][..i] == finalized[..i];
        var n := finalized[i].number;
        if n in pendingTransitions {
          finalizeChangeAt := Some(Schedule(number + 1, pendingTransitions[n]));
          pendingTransitions := pendingTransitions - {n};
        }
      }
      assert finalized[..|finalized|] == finalized;
    }

    method SetImmediateFinalize(target: nat, contract: Address)
      requires Valid()
      modifies this
      ensures Valid()
      ensures View() == WithSchedule(old(View()), target, contract)
      ensures finalizeChangeAt == Some(Schedule(target, contract))
      ensures unchanged(`validators, `validatorsSealed, `headers, `pendingTransitions)
    {
      finalizeChangeAt := Some(Schedule(target, contract));
    }

    method AddPendingTransition(number: nat, contract: Address)
      requires Valid()
      modifies this
      ensures Valid()
      ensures View() == WithPending(old(View()), number, contract)
      ensures pendingTransitions == old(pendingTransitions)[number := contract]
      ensures unchanged(`validators, `validatorsSealed, `headers, `finalizeChangeAt)
    {
      pendingTransitions := pendingTransitions[number := contract];
    }

    method TakeFinalizeChange(number: nat) returns (contract: Option<Address>)
      requires Valid()
      modifies this
      ensures Valid()
      ensures View() == Taken(old(View()), number)
      ensures contract == if Due(old(View()), number) then Some(old(finalizeChangeAt).value.contract) else None
      ensures contract.Some? <==> old(finalizeChangeAt).Some? && old(finalizeChangeAt).value.target <= number
      ensures if contract.Some? then headers == [] && finalizeChangeAt == None
              else unchanged(`headers, `finalizeChangeAt)
      ensures unchanged(`validators, `validatorsSealed, `pendingTransitions)
    {
      match finalizeChangeAt {
        case Some(Schedule(target, address)) =>
          if number >= target {
            finalizeChangeAt := None;
            headers, signCount := [], map[];
            return Some(address);
          }
        case None =>
      }
      return None;
    }

    method SetValidators(validators: seq<Address>)
      requires Valid()
      modifies this
      ensures Valid()
      ensures View() == WithValidators(old(View()), validators)
      ensures this.validators == validators && validatorsSealed && headers == []
      ensures unchanged(`pendingTransitions, `finalizeChangeAt)
    {
      this.validators := validators;
      validatorsSealed := true;
      headers, signCount := [], map[];
    }

    function ValidatorCount(): nat
      reads this
    {
      |validators|
    }
  }
}
