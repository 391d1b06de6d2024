// When exactly does a block become final? The incremental queue is compared with a definition
// over the whole history of pushes into a sealed tracker, between two clears of its window.
module FinalityHistory {
  import opened Primitives
  import opened FinalityRules

  // The tracker after a sequence of pushes.
  function AfterPushes(t: Tracker, pushes: seq<Entry>): Tracker {
    if pushes == [] then t
    else
      var last := pushes[|pushes| - 1];
      Pushed(AfterPushes(t, pushes[..|pushes| - 1]), last.number, last.signer)
  }

  // The blocks that push `j` returns as finalized.
  function BatchOf(t: Tracker, pushes: seq<Entry>, j: nat): seq<Entry>
    requires j < |pushes|
  {
    Batch(AfterPushes(t, pushes[..j]), pushes[j].number, pushes[j].signer)
  }

  // Everything finalized by the first `j` pushes, in the order it was returned.
  function FinalizedBefore(t: Tracker, pushes: seq<Entry>, j: nat): seq<Entry>
    requires j <= |pushes|
  {
    if j == 0 then [] else FinalizedBefore(t, pushes, j - 1) + BatchOf(t, pushes, j - 1)
  }

  // The pushes that count: those whose signer is in the sealed set.
  function Known(validators: seq<Address>, pushes: seq<Entry>): seq<Entry> {
    if pushes == [] then []
    else
      var last := pushes[|pushes| - 1];
      Known(validators, pushes[..|pushes| - 1]) + (if last.signer in validators then [last] else [])
  }

  // A strict majority of the validators signed among these pushes.
  ghost predicate SignedByMajority(validators: seq<Address>, pushes: seq<Entry>) {
    2 * |Signers(pushes) * Members(validators)| > |validators|
  }

  ghost predicate Window(t: Tracker) {
    t.sealed && t.queue == []
  }

  /*** The known pushes ***/

  lemma {:induction false} KnownConcat(validators: seq<Address>, a: seq<Entry>, b: seq<Entry>)
    ensures Known(validators, a + b) == Known(validators, a) + Known(validators, b)
  {
    if b == [] {
      assert a + b == a;
    } else {
      assert (a + b)[..|a + b| - 1] == a + b[..|b| - 1];
      KnownConcat(validators, a, b[..|b| - 1]);
    }
  }

  lemma {:induction false} KnownSigners(validators: seq<Address>, p: seq<Entry>)
    ensures Signers(Known(validators, p)) == Signers(p) * Members(validators)
    ensures Majority(|validators|, Known(validators, p)) <==> SignedByMajority(validators, p)
  {
    if p != [] {
      var init, last := p[..|p| - 1], p[|p| - 1];
      assert p == init + [last];
      KnownSigners(validators, init);
      SignersConcat(init, [last]);
      if last.signer in validators {
        SignersConcat(Known(validators, init), [last]);
        assert Known(validators, p) == Known(validators, init) + [last];
      } else {
        assert Known(validators, p) == Known(validators, init);
      }
    }
  }

  // An entry of a history with increasing numbers occurs among the known pushes of a part of it
  // iff it lies in that part and its signer is known.
  lemma {:induction false} KnownMembers(validators: seq<Address>, p: seq<Entry>, e: Entry)
    ensures e in Known(validators, p) <==> e in p && e.signer in validators
  {
    if p != [] {
      assert p == p[..|p| - 1] + [p[|p| - 1]];
      KnownMembers(validators, p[..|p| - 1], e);
    }
  }

  /*** The incremental queue is the longest suffix without a majority ***/

  lemma PushedQueue(t: Tracker, e: Entry, q: seq<Entry>, k: nat)
    requires t.sealed && e.signer in t.validators
    requires q == t.queue + [e] && k == Cut(|t.validators|, q)
    ensures var t' := Pushed(t, e.number, e.signer);
            t'.validators == t.validators && t'.sealed && t'.queue == q[k..]
    ensures Batch(t, e.number, e.signer) == q[..k]
  {
  }

  // One push, seen from a history `h` cut at `c`, of which the queue is the remainder.
  lemma PushOntoRemainder(t: Tracker, h: seq<Entry>, e: Entry, c: nat) returns (c': nat)
    requires t.sealed && e.signer in t.validators
    requires c == Cut(|t.validators|, h) && t.queue == h[c..]
    ensures c <= c' <= |h| + 1 && c' == Cut(|t.validators|, h + [e])
    ensures var t' := Pushed(t, e.number, e.signer);
            t'.validators == t.validators && t'.sealed && t'.queue == (h + [e])[c'..]
    ensures Batch(t, e.number, e.signer) == (h + [e])[c..c']
  {
    var q := h[c..] + [e];
    var k := Cut(|t.validators|, q);
    c' := c + k;
    CutOfRemainder(|t.validators|, h, e, c, k);
    PushedQueue(t, e, q, k);
    SlicesOfExtension(h, e, c, k);
  }

  lemma {:induction false} QueueIsLongestSuffix(t: Tracker, p: seq<Entry>)
    requires Window(t)
    ensures var t', h := AfterPushes(t, p), Known(t.validators, p);
            t'.validators == t.validators && t'.sealed && t'.queue == h[Cut(|t.validators|, h)..]
  {
    if p != [] {
      var init, last := p[..|p| - 1], p[|p| - 1];
      QueueIsLongestSuffix(t, init);
      var h, t0 := Known(t.validators, init), AfterPushes(t, init);
      if last.signer in t.validators {
        var _ := PushOntoRemainder(t0, h, last, Cut(|t.validators|, h));
        assert Known(t.validators, p) == h + [last];
      } else {
        assert Pushed(t0, last.number, last.signer) == t0;
        assert Known(t.validators, p) == h;
      }
    }
  }

  // Push `j` returns exactly the known pushes between the two cuts.
  lemma BatchBetweenCuts(t: Tracker, p: seq<Entry>, j: nat)
    requires Window(t)
    requires j < |p|
    ensures var h := Known(t.validators, p[..j + 1]);
            var c, c' := Cut(|t.validators|, Known(t.validators, p[..j])), Cut(|t.validators|, h);
            c <= c' && BatchOf(t, p, j) == h[c..c']
  {
    QueueIsLongestSuffix(t, p[..j]);
    assert p[..j + 1][..j] == p[..j];
    var h := Known(t.validators, p[..j]);
    if p[j].signer in t.validators {
      var _ := PushOntoRemainder(AfterPushes(t, p[..j]), h, p[j], Cut(|t.validators|, h));
      assert Known(t.validators, p[..j + 1]) == h + [p[j]];
    } else {
      assert Known(t.validators, p[..j + 1]) == h;
    }
  }

  lemma SlicesJoin<T>(h: seq<T>, prefix: nat, c: nat, c': nat)
    requires c <= prefix <= |h| && c <= c' <= |h|
    ensures h[..prefix][..c] + h[c..c'] == h[..c']
  {
  }

  // Blocks leave the window in the order they entered it: what has been finalized is the history
  // of known pushes up to its cut, and the queue is the rest of it.
  lemma {:induction false} FinalizedIsHistoryPrefix(t: Tracker, p: seq<Entry>, j: nat)
    requires Window(t)
    requires j <= |p|
    ensures var h := Known(t.validators, p[..j]);
            FinalizedBefore(t, p, j) == h[..Cut(|t.validators|, h)]
  {
    var v := t.validators;
    var h := Known(v, p[..j]);
    if j == 0 {
      assert p[..0] == [];
    } else {
      FinalizedIsHistoryPrefix(t, p, j - 1);
      BatchBetweenCuts(t, p, j - 1);
      var h0 := Known(v, p[..j - 1]);
      assert p[..j] == p[..j - 1] + [p[j - 1]];
      KnownConcat(v, p[..j - 1], [p[j - 1]]);
      assert h[..|h0|] == h0;
      SlicesJoin(h, |h0|, Cut(|v|, h0), Cut(|v|, h));
    }
  }

  lemma FinalizedThenQueueIsHistory(t: Tracker, p: seq<Entry>)
    requires Window(t)
    ensures FinalizedBefore(t, p, |p|) + AfterPushes(t, p).queue == Known(t.validators, p)
  {
    assert p[..|p|] == p;
    FinalizedIsHistoryPrefix(t, p, |p|);
    QueueIsLongestSuffix(t, p);
  }

  /*** Finality time ***/

  // Pushes of unknown signers are stutter steps.
  lemma UnknownSignerStutters(t: Tracker, number: nat, signer: Address)
    requires t.sealed
    ensures signer !in t.validators ==> Pushed(t, number, signer) == t && Batch(t, number, signer) == []
    ensures signer in t.validators ==> Pushed(t, number, signer).queue + Batch(t, number, signer) != t.queue
  {
  }

  // Among all pushes from the `i`-th on, `j` is the first by which a majority has signed.
  ghost predicate FirstMajority(validators: seq<Address>, p: seq<Entry>, i: nat, j: nat)
    requires i <= j < |p|
  {
    && SignedByMajority(validators, p[i..j + 1])
    && forall m :: i <= m <= j ==> !SignedByMajority(validators, p[i..m])
  }

  // The cut of the known history up to `j` lies beyond push `i` iff a majority signed from `i` on.
  lemma CutBeyond(validators: seq<Address>, p: seq<Entry>, i: nat, j: nat)
    requires i <= j <= |p|
    ensures |Known(validators, p[..i])| < Cut(|validators|, Known(validators, p[..j]))
            <==> SignedByMajority(validators, p[i..j])
  {
    assert p[..j] == p[..i] + p[i..j];
    KnownConcat(validators, p[..i], p[i..j]);
    var h, x := Known(validators, p[..j]), |Known(validators, p[..i])|;
    assert h[x..] == Known(validators, p[i..j]);
    KnownSigners(validators, p[i..j]);
    CutIsLeast(|validators|, h, x);
  }

  lemma SignedByMajorityGrows(validators: seq<Address>, p: seq<Entry>, i: nat, m: nat, j: nat)
    requires i <= m <= j <= |p|
    requires SignedByMajority(validators, p[i..m])
    ensures SignedByMajority(validators, p[i..j])
  {
    assert p[i..j] == p[i..m] + p[m..j];
    SignersConcat(p[i..m], p[m..j]);
    SubsetCardinality(Signers(p[i..m]) * Members(validators), Signers(p[i..j]) * Members(validators));
  }

  lemma FirstMajorityByEnds(validators: seq<Address>, p: seq<Entry>, i: nat, j: nat)
    requires i <= j < |p|
    ensures FirstMajority(validators, p, i, j)
            <==> SignedByMajority(validators, p[i..j + 1]) && !SignedByMajority(validators, p[i..j])
  {
    if !SignedByMajority(validators, p[i..j]) {
      forall m | i <= m <= j ensures !SignedByMajority(validators, p[i..m]) {
        if SignedByMajority(validators, p[i..m]) {
          SignedByMajorityGrows(validators, p, i, m, j);
        }
      }
    }
  }

  lemma IncreasingPositions(h: seq<Entry>, a: nat, b: nat, x: nat)
    requires Increasing(h)
    requires a <= b <= |h| && x < |h|
    ensures h[x] in h[a..b] <==> a <= x < b
  {
  }

  lemma {:induction false} KnownIncreasing(validators: seq<Address>, p: seq<Entry>)
    requires Increasing(p)
    ensures Increasing(Known(validators, p))
  {
    if p != [] {
      var init, last := p[..|p| - 1], p[|p| - 1];
      KnownIncreasing(validators, init);
      forall x | 0 <= x < |Known(validators, init)| ensures Known(validators, init)[x].number < last.number {
        KnownMembers(validators, init, Known(validators, init)[x]);
      }
    }
  }

  // Where push `i` stands among the known pushes up to `j`.
  lemma KnownPosition(validators: seq<Address>, p: seq<Entry>, i: nat, j: nat)
    requires i < j <= |p|
    requires p[i].signer in validators
    ensures var x := |Known(validators, p[..i])|;
            x < |Known(validators, p[..j])| && Known(validators, p[..j])[x] == p[i]
  {
    assert p[..j] == p[..i] + p[i..j];
    KnownConcat(validators, p[..i], p[i..j]);
    assert p[i..j] == [p[i]] + p[i + 1..j];
    KnownConcat(validators, [p[i]], p[i + 1..j]);
    assert Known(validators, [p[i]]) == [p[i]];
  }

  lemma KnownPrefixIncreasing(validators: seq<Address>, p: seq<Entry>, j: nat)
    requires Increasing(p) && j <= |p|
    ensures Increasing(Known(validators, p[..j]))
  {
    KnownIncreasing(validators, p[..j]);
  }

  lemma BatchMember(t: Tracker, p: seq<Entry>, i: nat, j: nat)
    requires Window(t)
    requires Increasing(p)
    requires i <= j < |p|
    requires p[i].signer in t.validators
    ensures p[i] in BatchOf(t, p, j)
            <==> SignedByMajority(t.validators, p[i..j + 1]) && !SignedByMajority(t.validators, p[i..j])
  {
    var v := t.validators;
    var h, x := Known(v, p[..j + 1]), |Known(v, p[..i])|;
    var c, c' := Cut(|v|, Known(v, p[..j])), Cut(|v|, h);
    KnownPrefixIncreasing(v, p, j + 1);
    KnownPosition(v, p, i, j + 1);
    BatchBetweenCuts(t, p, j);
    assert p[i] in BatchOf(t, p, j) <==> c <= x < c' by {
      IncreasingPositions(h, c, c', x);
    }
    CutBeyond(v, p, i, j);
    CutBeyond(v, p, i, j + 1);
  }

  // Main result. Over any history of increasing block numbers, block `i` is returned by push `j`
  // iff its signer is a validator and `j` is the first push by which a strict majority of the
  // validators has signed a block from `i` on.
  lemma FinalityTimeExact(t: Tracker, p: seq<Entry>, i: nat, j: nat)
    requires Window(t)
    requires Increasing(p)
    requires i < |p| && j < |p|
    ensures p[i] in BatchOf(t, p, j)
            <==> p[i].signer in t.validators && i <= j && FirstMajority(t.validators, p, i, j)
  {
    if p[i].signer in t.validators && i <= j {
      BatchMember(t, p, i, j);
      FirstMajorityByEnds(t.validators, p, i, j);
    } else {
      BatchBetweenCuts(t, p, j);
      KnownMembers(t.validators, p[..j + 1], p[i]);
    }
  }

  // The same, by the two stretches that end just before and at push `j`.
  lemma FinalityTimeByEnds(t: Tracker, p: seq<Entry>, i: nat, j: nat)
    requires Window(t)
    requires Increasing(p)
    requires i <= j < |p|
    ensures p[i] in BatchOf(t, p, j) <==>
              p[i].signer in t.validators
              && SignedByMajority(t.validators, p[i..j + 1]) && !SignedByMajority(t.validators, p[i..j])
  {
    FinalityTimeExact(t, p, i, j);
    FirstMajorityByEnds(t.validators, p, i, j);
  }

  /*** Before the set is sealed ***/

  // While signers are discovered, the set is what it started with and every signer pushed so far, each
  // once, in the order of their first pushes.
  lemma {:induction false} DiscoveryExact(t: Tracker, p: seq<Entry>, a: Address)
    requires !t.sealed && Distinct(t.validators)
    ensures !AfterPushes(t, p).sealed && Distinct(AfterPushes(t, p).validators)
    ensures a in AfterPushes(t, p).validators <==> a in t.validators || a in Signers(p)
    ensures p != [] ==> AfterPushes(t, p[..|p| - 1]).validators <= AfterPushes(t, p).validators
  {
    if p != [] {
      var init, last := p[..|p| - 1], p[|p| - 1];
      assert p == init + [last];
      SignersConcat(init, [last]);
      DiscoveryExact(t, init, a);
      DiscoveryExact(t, init, last.signer);
    }
  }

  // No block is finalized twice.
  lemma FinalizedOnce(t: Tracker, p: seq<Entry>, i: nat, j: nat, j': nat)
    requires Window(t)
    requires Increasing(p)
    requires i < |p| && j < |p| && j' < |p|
    requires p[i] in BatchOf(t, p, j) && p[i] in BatchOf(t, p, j')
    ensures j == j'
  {
    FinalityTimeExact(t, p, i, j);
    FinalityTimeExact(t, p, i, j');
  }
}
