// End to end: when does the block of an InitiateChange event become final, and when is finalizeChange
// called for it?
module FinalityInRuns {
  import opened Primitives
  import opened FinalityRules
  import opened ValidatorSets
  import opened AuraProtocol
  import opened ProtocolRuns
  import opened FinalizeChangeSafety
  import opened FinalityHistory

  // No block after `m` up to `j` calls finalizeChange.
  ghost predicate NoCall(cfg: Config, r: Run, m: nat, j: nat)
    requires ValidRun(cfg, r) && r.first <= m && j < r.End()
  {
    forall k {:trigger FinalizeTarget(cfg, r.At(k), k)} :: m < k <= j ==> FinalizeTarget(cfg, r.At(k), k).None?
  }

  // By block `k`, a strict majority of the set then in force has signed from block `m` on.
  ghost predicate MajorityFrom(r: Run, m: nat, k: nat)
    requires r.Shaped() && r.first <= m <= k && r.Has(k)
  {
    SignedByMajority(r.At(k + 1).validators, Stretch(r, m, k + 1))
  }

  // Block `j` makes block `m` final: no call has come in between, the signer of `m` counts, and `j` is
  // the first block by which a strict majority has signed from `m` on.
  ghost predicate BecomesFinal(cfg: Config, r: Run, m: nat, j: nat)
    requires ValidRun(cfg, r) && r.first <= m <= j && r.Has(j)
  {
    && NoCall(cfg, r, m, j)
    && r.Block(m).signer in r.At(m + 1).validators
    && MajorityFrom(r, m, j)
    && forall k :: m <= k < j ==> !MajorityFrom(r, m, k)
  }

  /*** One push ***/

  lemma StretchSnoc(r: Run, a: nat, j: nat)
    requires r.first <= a <= j && r.Has(j)
    ensures Stretch(r, a, j + 1) == Stretch(r, a, j) + [Entry(j, r.Block(j).signer)]
  {
  }

  lemma KnownSnoc(validators: seq<Address>, p: seq<Entry>, e: Entry)
    ensures Known(validators, p + [e]) == Known(validators, p) + (if e.signer in validators then [e] else [])
  {
    var q := p + [e];
    assert q[..|q| - 1] == p;
  }

  // Every push counts for a set that has all its signers.
  lemma {:induction false} KnownAll(validators: seq<Address>, p: seq<Entry>)
    requires forall e :: e in p ==> e.signer in validators
    ensures Known(validators, p) == p
  {
    if p != [] {
      assert p == p[..|p| - 1] + [p[|p| - 1]];
      KnownAll(validators, p[..|p| - 1]);
    }
  }

  // Tracker `t` holds, behind older entries, all counting pushes of `p`. An unsealed set has seen all
  // their signers.
  ghost predicate Holds(t: Tracker, older: seq<Entry>, p: seq<Entry>) {
    && t.queue == older + Known(t.validators, p)
    && (!t.sealed ==> forall e :: e in p ==> e.signer in t.validators)
  }

  // What a counting push works on: the older entries, and all counting pushes including its own.
  lemma CountedQueue(t: Tracker, older: seq<Entry>, p: seq<Entry>, e: Entry, vs: seq<Address>)
    requires Holds(t, older, p)
    requires Counted(t, e.signer) && vs == Admitted(t, e.signer)
    ensures t.queue + [e] == older + Known(vs, p + [e])
    ensures !t.sealed ==> forall x :: x in p + [e] ==> x.signer in vs
  {
    KnownSnoc(vs, p, e);
    if !t.sealed {
      KnownAll(t.validators, p);
      KnownAll(vs, p);
    }
  }

  lemma PushedParts(t: Tracker, e: Entry, vs: seq<Address>, q: seq<Entry>, k: nat)
    requires Counted(t, e.signer) && vs == Admitted(t, e.signer)
    requires q == t.queue + [e] && k == Cut(|vs|, q)
    ensures var t' := Pushed(t, e.number, e.signer);
            t'.validators == vs && t'.sealed == t.sealed && t'.queue == q[k..]
    ensures Batch(t, e.number, e.signer) == q[..k]
  {
  }

  // Without a majority in `own`, only older entries are cut.
  lemma OlderCut(validators: nat, older: seq<Entry>, own: seq<Entry>)
    ensures var n := Cut(validators, older + own);
            if Majority(validators, own) then n > |older|
            else n <= |older| && (older + own)[n..] == older[n..] + own && (older + own)[..n] == older[..n]
  {
    assert (older + own)[|older|..] == own;
    CutIsLeast(validators, older + own, |older|);
  }

  lemma CountedPushKeeps(t: Tracker, older: seq<Entry>, p: seq<Entry>, e: Entry, vs: seq<Address>)
    returns (older': seq<Entry>)
    requires Holds(t, older, p)
    requires Counted(t, e.signer) && vs == Admitted(t, e.signer)
    requires !SignedByMajority(vs, p + [e])
    ensures Holds(Pushed(t, e.number, e.signer), older', p + [e])
    ensures forall x :: x in older' ==> x in older
    ensures forall x :: x in Batch(t, e.number, e.signer) ==> x in older
  {
    var own := Known(vs, p + [e]);
    var n := Cut(|vs|, older + own);
    CountedQueue(t, older, p, e, vs);
    PushedParts(t, e, vs, older + own, n);
    KnownSigners(vs, p + [e]);
    OlderCut(|vs|, older, own);
    older' := older[n..];
  }

  lemma UncountedPushKeeps(t: Tracker, older: seq<Entry>, p: seq<Entry>, e: Entry)
    requires Holds(t, older, p) && !Counted(t, e.signer)
    ensures Pushed(t, e.number, e.signer) == t && Batch(t, e.number, e.signer) == []
    ensures Holds(t, older, p + [e])
  {
    KnownSnoc(t.validators, p, e);
  }

  // Without a majority of the pushes of `p`, the push finalizes older entries only.
  lemma PushKeeps(t: Tracker, older: seq<Entry>, p: seq<Entry>, e: Entry) returns (older': seq<Entry>)
    requires Holds(t, older, p)
    requires !SignedByMajority(Pushed(t, e.number, e.signer).validators, p + [e])
    ensures Holds(Pushed(t, e.number, e.signer), older', p + [e])
    ensures forall x :: x in older' ==> x in older
    ensures forall x :: x in Batch(t, e.number, e.signer) ==> x in older
  {
    if Counted(t, e.signer) {
      older' := CountedPushKeeps(t, older, p, e, Admitted(t, e.signer));
    } else {
      UncountedPushKeeps(t, older, p, e);
      older' := older;
    }
  }

  // With a majority of the pushes of `p`, it finalizes at least the first of them that counts.
  lemma PushFinalizes(t: Tracker, older: seq<Entry>, p: seq<Entry>, e: Entry, vs: seq<Address>, first: Entry)
    requires Holds(t, older, p)
    requires Counted(t, e.signer) && vs == Admitted(t, e.signer)
    requires first == (p + [e])[0] && first.signer in vs
    requires SignedByMajority(vs, p + [e])
    ensures first in Batch(t, e.number, e.signer)
  {
    var own := Known(vs, p + [e]);
    var n := Cut(|vs|, older + own);
    CountedQueue(t, older, p, e, vs);
    PushedParts(t, e, vs, older + own, n);
    KnownSigners(vs, p + [e]);
    KnownFirst(vs, p + [e]);
    OlderCut(|vs|, older, own);
    assert (older + own)[..n][|older|] == first;
  }

  lemma {:induction false} KnownFirst(validators: seq<Address>, p: seq<Entry>)
    requires p != [] && p[0].signer in validators
    ensures Known(validators, p) != [] && Known(validators, p)[0] == p[0]
  {
    if |p| > 1 {
      KnownFirst(validators, p[..|p| - 1]);
    }
  }

  /*** Finality over whole runs ***/

  // Without a call and with a set, the window is neither cleared nor replaced.
  lemma QuietMid(cfg: Config, r: Run, n: nat)
    requires ValidRun(cfg, r) && r.Has(n)
    requires r.At(n).validators != [] && FinalizeTarget(cfg, r.At(n), n).None?
    ensures r.Mid(n).queue == r.At(n).queue && r.Mid(n).validators == r.At(n).validators
    ensures r.Mid(n).sealed == r.At(n).sealed
  {
    assert BlockSucceeds(cfg, r, n);
  }

  lemma PushOfBlock(cfg: Config, r: Run, k: nat)
    requires ValidRun(cfg, r) && r.Has(k) && cfg.posdao <= k
    ensures r.At(k + 1) == Pushed(r.Mid(k), k, r.Block(k).signer)
    ensures r.Finalized(k) == Batch(r.Mid(k), k, r.Block(k).signer)
    ensures forall a :: a in r.Mid(k).validators ==> a in r.At(k + 1).validators
  {
    assert BlockSucceeds(cfg, r, k);
  }

  // As long as no call clears the window and no majority has signed from `m` on, everything that
  // counts from `m` on is queued, behind entries older than `m`.
  lemma {:induction false} BehindOlder(cfg: Config, r: Run, m: nat, k: nat) returns (older: seq<Entry>)
    requires ValidRun(cfg, r) && r.first <= m <= k && r.Has(k) && cfg.posdao <= m
    requires r.At(r.first).queue == []
    requires NoCall(cfg, r, m, k) && r.Block(m).signer in r.At(m + 1).validators
    requires forall i :: m <= i < k ==> !MajorityFrom(r, m, i)
    ensures Holds(r.Mid(k), older, Stretch(r, m, k))
    ensures forall e :: e in older ==> e.number < m
    ensures m < k ==> r.Block(m).signer in r.At(k).validators && r.At(k).validators == r.Mid(k).validators
    decreases k
  {
    if k == m {
      assert Stretch(r, m, m) == [];
      older := r.Mid(m).queue;
      QueueInvariant(cfg, r, m);
      MidQueueOk(cfg, r, m);
    } else {
      older := BehindOlder(cfg, r, m, k - 1);
      older := BehindOlderStep(cfg, r, m, k - 1, older);
    }
  }

  // One block without a majority, after its push.
  lemma BehindOlderPush(cfg: Config, r: Run, m: nat, j: nat, older: seq<Entry>) returns (older': seq<Entry>)
    requires ValidRun(cfg, r) && r.first <= m <= j && r.Has(j) && cfg.posdao <= j
    requires !MajorityFrom(r, m, j)
    requires Holds(r.Mid(j), older, Stretch(r, m, j))
    ensures Holds(r.At(j + 1), older', Stretch(r, m, j + 1))
    ensures forall e :: e in older' ==> e in older
    ensures forall e :: e in r.Finalized(j) ==> e in older
  {
    PushOfBlock(cfg, r, j);
    StretchSnoc(r, m, j);
    older' := PushKeeps(r.Mid(j), older, Stretch(r, m, j), Entry(j, r.Block(j).signer));
  }

  lemma HoldsSameWindow(t: Tracker, t': Tracker, older: seq<Entry>, p: seq<Entry>)
    requires Holds(t, older, p)
    requires t'.queue == t.queue && t'.validators == t.validators && t'.sealed == t.sealed
    ensures Holds(t', older, p)
  {
  }

  lemma BehindOlderStep(cfg: Config, r: Run, m: nat, j: nat, older: seq<Entry>) returns (older': seq<Entry>)
    requires ValidRun(cfg, r) && r.first <= m <= j && r.Has(j) && r.Has(j + 1) && cfg.posdao <= m
    requires FinalizeTarget(cfg, r.At(j + 1), j + 1).None?
    requires r.Block(m).signer in (if m == j then r.At(m + 1) else r.Mid(j)).validators
    requires !MajorityFrom(r, m, j)
    requires Holds(r.Mid(j), older, Stretch(r, m, j))
    ensures Holds(r.Mid(j + 1), older', Stretch(r, m, j + 1))
    ensures forall e :: e in older' ==> e in older
    ensures r.Block(m).signer in r.At(j + 1).validators && r.At(j + 1).validators == r.Mid(j + 1).validators
  {
    PushOfBlock(cfg, r, j);
    older' := BehindOlderPush(cfg, r, m, j, older);
    QuietMid(cfg, r, j + 1);
    HoldsSameWindow(r.At(j + 1), r.Mid(j + 1), older', Stretch(r, m, j + 1));
  }

  // What block `j` finalizes, it finalizes with the block's own signer.
  lemma FinalizedEntry(cfg: Config, r: Run, j: nat, m: nat)
    requires ValidRun(cfg, r) && r.Has(j)
    requires r.At(r.first).queue == []
    ensures m in Numbers(r.Finalized(j)) ==> r.first <= m <= j && Entry(m, r.Block(m).signer) in r.Finalized(j)
  {
    assert BlockSucceeds(cfg, r, j);
    if j >= cfg.posdao {
      QueueInvariant(cfg, r, j);
      MidQueueOk(cfg, r, j);
      ExtendedQueueOk(cfg, r, r.Mid(j), j);
    }
  }

  // A block that is missing from the queue at some push is never finalized afterwards.
  lemma UnqueuedNotFinalized(cfg: Config, r: Run, n: nat, j: nat, k: nat)
    requires ValidRun(cfg, r) && r.Has(n) && n <= j && r.Has(j)
    requires r.At(r.first).queue == []
    requires k < n && k !in Numbers(r.Mid(n).queue)
    ensures k !in Numbers(r.Finalized(j))
  {
    if n < j {
      UnqueuedStaysPending(cfg, r, n, j, k);
      MidWindow(cfg, r, j);
    }
    FinalizedFromQueue(cfg, r, j, k);
  }

  // A call clears the window, so no block before it is finalized any more.
  lemma CallEndsFinality(cfg: Config, r: Run, m: nat, j: nat)
    requires ValidRun(cfg, r) && r.first <= m <= j && r.Has(j) && cfg.posdao <= m
    requires r.At(r.first).queue == []
    requires !NoCall(cfg, r, m, j)
    ensures m !in Numbers(r.Finalized(j))
  {
    var k :| m < k <= j && FinalizeTarget(cfg, r.At(k), k).Some?;
    CallClears(cfg, r, k);
    UnqueuedNotFinalized(cfg, r, k, j, m);
  }

  // A block whose signer does not count is never queued.
  lemma UncountedNotFinalized(cfg: Config, r: Run, m: nat, j: nat)
    requires ValidRun(cfg, r) && r.first <= m <= j && r.Has(j) && cfg.posdao <= m
    requires r.At(r.first).queue == []
    requires r.Block(m).signer !in r.At(m + 1).validators
    ensures m !in Numbers(r.Finalized(j))
  {
    QueueInvariant(cfg, r, m);
    MidQueueOk(cfg, r, m);
    PushOfBlock(cfg, r, m);
    if m < j {
      MidWindow(cfg, r, m + 1);
      UnqueuedNotFinalized(cfg, r, m + 1, j, m);
    }
  }

  // Without a majority so far, a push of a signer that does not count makes none.
  lemma UncountedPush(cfg: Config, r: Run, m: nat, j: nat)
    requires ValidRun(cfg, r) && r.first <= m < j && r.Has(j) && cfg.posdao <= m
    requires r.At(j).validators != [] && FinalizeTarget(cfg, r.At(j), j).None?
    requires !Counted(r.Mid(j), r.Block(j).signer)
    ensures MajorityFrom(r, m, j) <==> MajorityFrom(r, m, j - 1)
  {
    var vs := r.At(j).validators;
    QuietMid(cfg, r, j);
    PushOfBlock(cfg, r, j);
    StretchSnoc(r, m, j);
    KnownSnoc(vs, Stretch(r, m, j), Entry(j, r.Block(j).signer));
    KnownSigners(vs, Stretch(r, m, j));
    KnownSigners(vs, Stretch(r, m, j + 1));
    assert Known(vs, Stretch(r, m, j)) + [] == Known(vs, Stretch(r, m, j));
    assert r.At(j + 1).validators == vs && MajorityFrom(r, m, j - 1) == SignedByMajority(vs, Stretch(r, m, j));
  }

  // So the push by which the first majority has signed counts.
  lemma FirstMajorityCounts(cfg: Config, r: Run, m: nat, j: nat)
    requires ValidRun(cfg, r) && r.first <= m <= j && r.Has(j) && cfg.posdao <= m
    requires BecomesFinal(cfg, r, m, j)
    requires m < j ==> r.At(j).validators != []
    ensures Counted(r.Mid(j), r.Block(j).signer)
  {
    PushOfBlock(cfg, r, j);
    if m < j && !Counted(r.Mid(j), r.Block(j).signer) {
      UncountedPush(cfg, r, m, j);
    }
  }

  lemma FirstMajorityFinalizes(cfg: Config, r: Run, m: nat, j: nat)
    requires ValidRun(cfg, r) && r.first <= m <= j && r.Has(j) && cfg.posdao <= m
    requires r.At(r.first).queue == []
    requires BecomesFinal(cfg, r, m, j)
    ensures m in Numbers(r.Finalized(j))
  {
    var older := BehindOlder(cfg, r, m, j);
    FirstMajorityCounts(cfg, r, m, j);
    FirstSignerCounts(cfg, r, m, j);
    PushOfBlock(cfg, r, j);
    MajorityFinalizesFirst(r, m, j, r.Mid(j), older, Stretch(r, m, j));
  }

  lemma MajorityFinalizesFirst(r: Run, m: nat, j: nat, t: Tracker, older: seq<Entry>, p: seq<Entry>)
    requires r.Shaped() && r.first <= m <= j && r.Has(j)
    requires p == Stretch(r, m, j) && MajorityFrom(r, m, j)
    requires Holds(t, older, p) && Counted(t, r.Block(j).signer)
    requires r.At(j + 1) == Pushed(t, j, r.Block(j).signer)
    requires r.Block(m).signer in r.At(j + 1).validators
    ensures Entry(m, r.Block(m).signer) in Batch(t, j, r.Block(j).signer)
  {
    var e, vs := Entry(j, r.Block(j).signer), Admitted(t, r.Block(j).signer);
    LeavesAdmitted(t, j, e.signer);
    MajorityOfPushes(r, m, j, p, e, vs);
    PushFinalizes(t, older, p, e, vs, Entry(m, r.Block(m).signer));
  }

  lemma LeavesAdmitted(t: Tracker, n: nat, a: Address)
    requires Counted(t, a)
    ensures Pushed(t, n, a).validators == Admitted(t, a)
  {
  }

  lemma MajorityOfPushes(r: Run, m: nat, j: nat, p: seq<Entry>, e: Entry, vs: seq<Address>)
    requires r.Shaped() && r.first <= m <= j && r.Has(j)
    requires p == Stretch(r, m, j) && e == Entry(j, r.Block(j).signer)
    requires MajorityFrom(r, m, j) && r.At(j + 1).validators == vs
    ensures SignedByMajority(vs, p + [e]) && (p + [e])[0] == Entry(m, r.Block(m).signer)
  {
    StretchSnoc(r, m, j);
  }

  lemma FirstSignerCounts(cfg: Config, r: Run, m: nat, j: nat)
    requires ValidRun(cfg, r) && r.first <= m <= j && r.Has(j) && cfg.posdao <= m
    requires r.Block(m).signer in r.At(m + 1).validators
    requires m < j ==> r.Block(m).signer in r.Mid(j).validators
    ensures r.Block(m).signer in Pushed(r.Mid(j), j, r.Block(j).signer).validators
  {
    PushOfBlock(cfg, r, j);
  }

  lemma NoMajorityKeeps(cfg: Config, r: Run, m: nat, j: nat)
    requires ValidRun(cfg, r) && r.first <= m <= j && r.Has(j) && cfg.posdao <= m
    requires r.At(r.first).queue == []
    requires NoCall(cfg, r, m, j) && r.Block(m).signer in r.At(m + 1).validators
    requires forall i :: m <= i <= j ==> !MajorityFrom(r, m, i)
    ensures m !in Numbers(r.Finalized(j))
  {
    var older := BehindOlder(cfg, r, m, j);
    var _ := BehindOlderPush(cfg, r, m, j, older);
  }

  // The first block from `m` on by which a majority has signed.
  lemma {:induction false} FirstMajority(r: Run, m: nat, j: nat) returns (i: nat)
    requires r.Shaped() && r.first <= m <= j && r.Has(j)
    requires MajorityFrom(r, m, j)
    ensures m <= i <= j && MajorityFrom(r, m, i)
    ensures forall k :: m <= k < i ==> !MajorityFrom(r, m, k)
    decreases j
  {
    if k :| m <= k < j && MajorityFrom(r, m, k) {
      i := FirstMajority(r, m, k);
    } else {
      i := j;
    }
  }

  // Main result, for any run and any sets, sealed or being discovered: block `j` finalizes block `m`
  // exactly if it makes it final in the sense of BecomesFinal.
  lemma FinalityTimeInRun(cfg: Config, r: Run, m: nat, j: nat)
    requires ValidRun(cfg, r) && r.first <= m <= j && r.Has(j) && cfg.posdao <= m
    requires r.At(r.first).queue == []
    ensures m in Numbers(r.Finalized(j)) <==> BecomesFinal(cfg, r, m, j)
  {
    if !NoCall(cfg, r, m, j) {
      CallEndsFinality(cfg, r, m, j);
    } else if r.Block(m).signer !in r.At(m + 1).validators {
      UncountedNotFinalized(cfg, r, m, j);
    } else if BecomesFinal(cfg, r, m, j) {
      FirstMajorityFinalizes(cfg, r, m, j);
    } else if k :| m <= k <= j && MajorityFrom(r, m, k) {
      var i := FirstMajority(r, m, k);
      FirstMajorityFinalizes(cfg, r, m, i);
      if m in Numbers(r.Finalized(j)) {
        FinalizedOnceInRun(cfg, r, j, m);
      }
    } else {
      NoMajorityKeeps(cfg, r, m, j);
    }
  }

  // Whether a block has been finalized before block `n`, in terms of signers and calls.
  lemma FinalizedBySigners(cfg: Config, r: Run, m: nat, n: nat)
    requires ValidRun(cfg, r) && r.first <= m <= n <= r.End() && cfg.posdao <= m < r.End()
    requires r.At(r.first).queue == []
    ensures ProtocolRuns.FinalizedBefore(r, m, n)
            <==> r.Block(m).signer in r.At(m + 1).validators
                 && exists j :: m <= j < n && NoCall(cfg, r, m, j) && MajorityFrom(r, m, j)
  {
    if ProtocolRuns.FinalizedBefore(r, m, n) {
      var j :| r.first <= j < n && m in Numbers(r.Finalized(j));
      FinalizedEntry(cfg, r, j, m);
      FinalityTimeInRun(cfg, r, m, j);
    }
    if r.Block(m).signer in r.At(m + 1).validators {
      if k :| m <= k < n && NoCall(cfg, r, m, k) && MajorityFrom(r, m, k) {
        var j := FirstMajority(r, m, k);
        FinalityTimeInRun(cfg, r, m, j);
      }
    }
  }

  // Main result, in terms of signers and calls: an event stays pending exactly as long as there has not
  // been, before any call after it, a block by which a strict majority has signed from it on.
  lemma PendingBySigners(cfg: Config, r: Run, m: nat, n: nat)
    requires ValidRun(cfg, r) && r.first <= m < n <= r.End() && cfg.posdao <= m
    requires Started(r)
    ensures m in r.At(n).pending
            <==> HasEvent(cfg, r, m)
                 && !(r.Block(m).signer in r.At(m + 1).validators
                      && exists j :: m <= j < n && NoCall(cfg, r, m, j) && MajorityFrom(r, m, j))
  {
    PendingExact(cfg, r, n, m);
    FinalizedBySigners(cfg, r, m, n);
  }

  /*** A sealed set ***/

  // A majority of a stretch is a majority of a longer one.
  lemma {:induction false} LongerStretch(r: Run, validators: seq<Address>, m: nat, i: nat, j: nat)
    requires r.first <= m <= i <= j <= r.End()
    requires SignedByMajority(validators, Stretch(r, m, i))
    ensures SignedByMajority(validators, Stretch(r, m, j))
    decreases j
  {
    if i < j {
      var k := j - 1;
      LongerStretch(r, validators, m, i, k);
      StretchSnoc(r, m, k);
      SignersConcat(Stretch(r, m, k), [Entry(k, r.Block(k).signer)]);
      SubsetCardinality(Signers(Stretch(r, m, k)) * Members(validators),
                        Signers(Stretch(r, m, j)) * Members(validators));
    }
  }

  // Without a call, a sealed set stays in force.
  lemma {:induction false} SealedSetStays(cfg: Config, r: Run, m: nat, k: nat)
    requires ValidRun(cfg, r) && r.first <= m <= k && r.Has(k) && cfg.posdao <= m
    requires r.Mid(m).sealed && r.Mid(m).validators != [] && NoCall(cfg, r, m, k)
    ensures r.Mid(k).sealed && r.Mid(k).validators == r.At(k + 1).validators == r.Mid(m).validators
    decreases k
  {
    PushOfBlock(cfg, r, k);
    if m < k {
      SealedSetStays(cfg, r, m, k - 1);
      PushOfBlock(cfg, r, k - 1);
      QuietMid(cfg, r, k);
    }
  }

  // Block `j` is the first by which a strict majority of the set has signed a block from `m` on.
  ghost predicate MajorityReachedAt(r: Run, validators: seq<Address>, m: nat, j: nat)
    requires r.first <= m <= j && r.Has(j)
  {
    SignedByMajority(validators, Stretch(r, m, j + 1)) && !SignedByMajority(validators, Stretch(r, m, j))
  }

  // Block `k` leaves this set in force.
  ghost predicate Leaves(r: Run, k: nat, validators: seq<Address>)
    requires r.Shaped() && r.Has(k)
  {
    r.At(k + 1).validators == validators
  }

  lemma EmptyStretch(r: Run, validators: seq<Address>, m: nat)
    requires r.first <= m <= r.End()
    ensures !SignedByMajority(validators, Stretch(r, m, m))
  {
    assert Signers(Stretch(r, m, m)) == {};
  }

  // For a block pushed onto a sealed set, in closed form: its signer is in that set, and the majority
  // of that set is there after block `j` but not before.
  lemma FinalityTimeSealed(cfg: Config, r: Run, m: nat, j: nat)
    requires ValidRun(cfg, r) && r.first <= m <= j && r.Has(j) && cfg.posdao <= m
    requires r.At(r.first).queue == []
    requires r.Mid(m).sealed
    ensures m in Numbers(r.Finalized(j)) <==>
              NoCall(cfg, r, m, j) && r.Block(m).signer in r.Mid(m).validators
              && MajorityReachedAt(r, r.Mid(m).validators, m, j)
  {
    var vs := r.Mid(m).validators;
    FinalityTimeInRun(cfg, r, m, j);
    PushOfBlock(cfg, r, m);
    if NoCall(cfg, r, m, j) && r.Block(m).signer in vs {
      forall k | m <= k <= j ensures Leaves(r, k, vs) {
        SealedSetStays(cfg, r, m, k);
      }
      FirstMajorityByStretch(r, vs, m, j);
    }
  }

  lemma FirstMajorityByStretch(r: Run, validators: seq<Address>, m: nat, j: nat)
    requires r.Shaped() && r.first <= m <= j && r.Has(j)
    requires forall k :: m <= k <= j ==> Leaves(r, k, validators)
    ensures MajorityReachedAt(r, validators, m, j)
            <==> MajorityFrom(r, m, j) && forall k :: m <= k < j ==> !MajorityFrom(r, m, k)
  {
    EmptyStretch(r, validators, m);
    assert Leaves(r, j, validators);
    forall k | m <= k < j && MajorityFrom(r, m, k) ensures SignedByMajority(validators, Stretch(r, m, j)) {
      assert Leaves(r, k, validators);
      LongerStretch(r, validators, m, k + 1, j);
    }
    if m < j {
      assert Leaves(r, j - 1, validators);
      assert MajorityFrom(r, m, j - 1) == SignedByMajority(validators, Stretch(r, m, j));
    }
  }

  // As long as there is no call, a block pushed onto a sealed set is final before block `n` iff its
  // signer is in the set and a strict majority signed from it up to the parent of `n`.
  lemma FinalizedBySealedSet(cfg: Config, r: Run, m: nat, n: nat)
    requires ValidRun(cfg, r) && r.first <= m < n <= r.End() && cfg.posdao <= m
    requires r.At(r.first).queue == []
    requires r.Mid(m).sealed && NoCall(cfg, r, m, n - 1)
    ensures ProtocolRuns.FinalizedBefore(r, m, n)
            <==> r.Block(m).signer in r.Mid(m).validators
                 && SignedByMajority(r.Mid(m).validators, Stretch(r, m, n))
  {
    var vs := r.Mid(m).validators;
    FinalizedBySigners(cfg, r, m, n);
    PushOfBlock(cfg, r, m);
    if r.Block(m).signer in vs {
      forall j | m <= j < n && MajorityFrom(r, m, j) ensures SignedByMajority(vs, Stretch(r, m, n)) {
        SealedSetStays(cfg, r, m, j);
        LongerStretch(r, vs, m, j + 1, n);
      }
      SealedSetStays(cfg, r, m, n - 1);
      assert MajorityFrom(r, m, n - 1) == SignedByMajority(vs, Stretch(r, m, n));
    }
  }

  /*** An event takes effect one block after its block is final ***/

  lemma NothingScheduled(cfg: Config, r: Run, k: nat)
    requires ValidRun(cfg, r) && r.Has(k) && r.Has(k + 1)
    requires Started(r)
    requires FinalizeTarget(cfg, r.At(k + 1), k + 1).None?
    ensures Schedules(cfg, r, k).None?
  {
    if Schedules(cfg, r, k).Some? {
      MadeByBlock(cfg, r, k);
    }
  }

  // As long as no call is made after it, an event stays pending.
  lemma {:induction false} EventStillPending(cfg: Config, r: Run, m: nat, j: nat)
    requires ValidRun(cfg, r) && r.first <= m <= j && r.Has(j) && cfg.posdao <= m
    requires Started(r)
    requires HasEvent(cfg, r, m) && NoCall(cfg, r, m, j)
    ensures m in r.Mid(j).pending
    decreases j
  {
    MidTransitions(cfg, r, j);
    if m < j {
      var k := j - 1;
      EventStillPending(cfg, r, m, k);
      NothingScheduled(cfg, r, k);
      HighestInMeaning(r.Mid(k).pending, r.Finalized(k));
      NextState(cfg, r, k);
      FinalizedIsBatch(cfg, r, k);
      PushedPending(r.Mid(k), k, r.Block(k).signer);
    }
  }

  // `h` is the last of the event blocks that block `j` makes final.
  ghost predicate LastFinalEvent(cfg: Config, r: Run, j: nat, h: nat)
    requires ValidRun(cfg, r) && r.Has(j)
  {
    && r.first <= h <= j && cfg.posdao <= h && HasEvent(cfg, r, h) && BecomesFinal(cfg, r, h, j)
    && forall k :: h < k <= j && HasEvent(cfg, r, k) ==> !BecomesFinal(cfg, r, k, j)
  }

  lemma HighestIsLast(cfg: Config, r: Run, j: nat, h: nat)
    requires ValidRun(cfg, r) && r.Has(j) && cfg.posdao <= j
    requires Started(r)
    ensures HighestEvent(cfg, r, j, h) <==> LastFinalEvent(cfg, r, j, h)
  {
    forall k: nat | r.Has(k)
      ensures k in Numbers(r.Finalized(j)) <==> k <= j && cfg.posdao <= k && BecomesFinal(cfg, r, k, j)
    {
      FinalizedEntry(cfg, r, j, k);
      FinalizedIsBatch(cfg, r, j);
      FinalizedPosdao(cfg, r, j, k);
      if k <= j && cfg.posdao <= k {
        FinalityTimeInRun(cfg, r, k, j);
      }
    }
  }

  // Main result, in terms of signers, events and earlier calls: away from list-to-contract boundaries,
  // block `j + 1` calls finalizeChange on `c` iff the last event block that `j` makes final is one of `c`.
  lemma CallBySigners(cfg: Config, r: Run, j: nat, c: Address)
    requires ValidRun(cfg, r) && r.Has(j) && r.Has(j + 1) && cfg.posdao <= j
    requires Started(r)
    requires BoundaryFinalize(cfg.sets, j).None? && BoundaryFinalize(cfg.sets, j + 1).None?
    ensures FinalizeTarget(cfg, r.At(j + 1), j + 1) == Some(c)
            <==> exists h :: LastFinalEvent(cfg, r, j, h) && ContractAt(cfg.sets, h) == Some(c)
  {
    CallExact(cfg, r, j, c);
    forall h: nat ensures SchedulingEvent(cfg, r, j, h) <==> LastFinalEvent(cfg, r, j, h) {
      HighestIsLast(cfg, r, j, h);
    }
  }

  // For one event, also right after a boundary: when block `j` makes an event block `m` final, block
  // `j + 1` calls finalizeChange, on the contract of the last event block that `j` makes final.
  lemma EventTakesEffect(cfg: Config, r: Run, m: nat, j: nat)
    requires ValidRun(cfg, r) && r.first <= m <= j && r.Has(j + 1) && cfg.posdao <= m
    requires Started(r)
    requires HasEvent(cfg, r, m) && BecomesFinal(cfg, r, m, j)
    requires BoundaryFinalize(cfg.sets, j + 1).None?
    ensures exists h :: m <= h <= j && LastFinalEvent(cfg, r, j, h)
                        && FinalizeTarget(cfg, r.At(j + 1), j + 1) == ContractAt(cfg.sets, h)
  {
    FinalityTimeInRun(cfg, r, m, j);
    FinalizedEvents(cfg, r, j, m);
    HighestInMeaning(r.Mid(j).pending, r.Finalized(j));
    var h := HighestIn(r.Mid(j).pending, r.Finalized(j)).value;
    FinalizedEvents(cfg, r, j, h);
    MadeByBlock(cfg, r, j);
    SchedulesExact(cfg, r, j, r.Mid(j).pending[h]);
    var g: nat :| SchedulingEvent(cfg, r, j, g) && ContractAt(cfg.sets, g) == Some(r.Mid(j).pending[h]);
    HighestIsLast(cfg, r, j, g);
  }
}
