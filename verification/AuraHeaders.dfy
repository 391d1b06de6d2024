// Header rules of pre-merge AuRa blocks (src/aura/mod.rs, src/aura/seal.rs): difficulty, steps and
// the round-robin proposer, over chains of validated headers.
module AuraHeaders {
  import opened Primitives
  import opened ValidatorSets

  const U128_MAX: nat := 0xffff_ffff_ffff_ffff_ffff_ffff_ffff_ffff

  // The header fields the rules look at. `author` is the outcome of recovering the seal's signer.
  datatype Header = Header(
    hash: nat,
    parentHash: nat,
    number: nat,
    timestamp: nat,
    baseFeeOk: bool,
    step: Option<nat>,
    difficulty: nat,
    author: Option<Address>)

  datatype HeaderError =
    | ParentMismatch
    | TimestampNotLater
    | BaseFeeMismatch
    | StepMissing
    | StepTooLarge
    | StepNotIncreasing
    | DifficultyMismatch
    | SealInvalid
    | EmptyValidatorList
    | ProposerMismatch

  /*** Difficulty ***/

  function WrappingAdd(a: nat, b: nat): nat {
    (a + b) % U256_BOUND
  }

  function WrappingSub(a: nat, b: nat): nat {
    (a - b) % U256_BOUND
  }

  // 2^128 - 1 + parentStep - currentStep, in wrapping 256-bit arithmetic.
  function AuraDifficulty(parentStep: u64, currentStep: u64): nat {
    WrappingSub(WrappingAdd(U128_MAX, parentStep), currentStep)
  }

  // For all u64 steps nothing wraps.
  lemma DifficultyDoesNotWrap(parentStep: u64, currentStep: u64)
    ensures AuraDifficulty(parentStep, currentStep) == U128_MAX + parentStep - currentStep
    ensures U128_MAX + 1 == 0x1_0000_0000_0000_0000_0000_0000_0000_0000
  {
  }

  /*** Validation against the parent ***/

  function StepOf(h: Header): Result<u64, HeaderError> {
    match h.step
    case None => Err(StepMissing)
    case Some(s) => if s < U64_BOUND then Ok(s) else Err(StepTooLarge)
  }

  function CheckProposer(sets: Sets, h: Header, step: u64): Result<u64, HeaderError> {
    match h.author
    case None => Err(SealInvalid)
    case Some(signer) =>
      match ListAt(sets, if h.number >= 1 then h.number - 1 else 0)
      case None => Ok(step)
      case Some(validators) =>
        match ExpectedProposer(step, validators)
        case None => Err(EmptyValidatorList)
        case Some(expected) => if signer == expected then Ok(step) else Err(ProposerMismatch)
  }

  // Accepts with the block's step, or rejects with the first check that fails.
  function ValidateAgainstParent(sets: Sets, h: Header, parent: Header): Result<u64, HeaderError> {
    if h.parentHash != parent.hash || h.number != parent.number + 1 then Err(ParentMismatch)
    else if h.timestamp <= parent.timestamp then Err(TimestampNotLater)
    else if !h.baseFeeOk then Err(BaseFeeMismatch)
    else
      match StepOf(h)
      case Err(e) => Err(e)
      case Ok(current) =>
        match StepOf(parent)
        case Err(e) => Err(e)
        case Ok(previous) =>
          if current <= previous then Err(StepNotIncreasing)
          else if h.difficulty != AuraDifficulty(previous, current) then Err(DifficultyMismatch)
          else CheckProposer(sets, h, current)
  }

  // The signer is the proposer of the list in force at the parent's block, if that set is a list.
  ghost predicate SealAcceptable(sets: Sets, h: Header, step: nat) {
    && h.author.Some?
    && forall k :: Activation(sets, if h.number >= 1 then h.number - 1 else 0, k) && sets[k].List? ==>
         |sets[k].addresses| > 0 && sets[k].addresses[step % |sets[k].addresses|] == h.author.value
  }

  lemma SealExact(sets: Sets, h: Header, step: u64)
    ensures CheckProposer(sets, h, step).Ok? <==> SealAcceptable(sets, h, step)
    ensures CheckProposer(sets, h, step).Ok? ==> CheckProposer(sets, h, step).value == step
  {
    var n := if h.number >= 1 then h.number - 1 else 0;
    if KindAt(sets, n).Some? {
      var k := ActivationExists(sets, n);
      LookupExact(sets, n, k);
      assert forall m :: Activation(sets, n, m) ==> m == k;
    }
  }

  // A header is accepted iff it follows its parent in hash, number and time, its base fee is right,
  // its u64 step is larger than its parent's, its weight makes up for the steps, and its seal is
  // acceptable.
  lemma AcceptanceExact(sets: Sets, h: Header, parent: Header)
    ensures ValidateAgainstParent(sets, h, parent).Ok? <==>
              && h.parentHash == parent.hash && h.number == parent.number + 1
              && h.timestamp > parent.timestamp && h.baseFeeOk
              && parent.step.Some? && h.step.Some?
              && parent.step.value < h.step.value < U64_BOUND
              && h.difficulty + (h.step.value - parent.step.value) == U128_MAX
              && SealAcceptable(sets, h, h.step.value)
    ensures ValidateAgainstParent(sets, h, parent).Ok? ==>
              Some(ValidateAgainstParent(sets, h, parent).value) == h.step
  {
    if StepOf(h).Ok? && StepOf(parent).Ok? {
      DifficultyDoesNotWrap(StepOf(parent).value, StepOf(h).value);
      SealExact(sets, h, StepOf(h).value);
    }
  }

  // The header follows its parent, at a later time and with the right base fee.
  predicate Follows(h: Header, parent: Header) {
    h.parentHash == parent.hash && h.number == parent.number + 1 && h.timestamp > parent.timestamp && h.baseFeeOk
  }

  // Both steps are there and fit into 64 bits.
  predicate StepsPresent(h: Header, parent: Header) {
    h.step.Some? && h.step.value < U64_BOUND && parent.step.Some? && parent.step.value < U64_BOUND
  }

  // Which error a rejected header gets: that of the first check that fails, in this order.
  lemma RejectionExact(sets: Sets, h: Header, parent: Header)
    ensures var r := ValidateAgainstParent(sets, h, parent);
            && (r == Err(ParentMismatch) <==> h.parentHash != parent.hash || h.number != parent.number + 1)
            && (r == Err(TimestampNotLater) <==>
                  h.parentHash == parent.hash && h.number == parent.number + 1 && h.timestamp <= parent.timestamp)
            && (r == Err(BaseFeeMismatch) <==> !h.baseFeeOk && Follows(h.(baseFeeOk := true), parent))
            && (r == Err(StepMissing) <==>
                  Follows(h, parent)
                  && (h.step.None? || (h.step.value < U64_BOUND && parent.step.None?)))
            && (r == Err(StepTooLarge) <==>
                  Follows(h, parent) && h.step.Some?
                  && (h.step.value >= U64_BOUND || (parent.step.Some? && parent.step.value >= U64_BOUND)))
            && (r == Err(StepNotIncreasing) <==>
                  Follows(h, parent) && StepsPresent(h, parent) && h.step.value <= parent.step.value)
            && (r == Err(DifficultyMismatch) <==>
                  Follows(h, parent) && StepsPresent(h, parent) && h.step.value > parent.step.value
                  && h.difficulty + (h.step.value - parent.step.value) != U128_MAX)
            && (r == Err(SealInvalid) <==>
                  Follows(h, parent) && StepsPresent(h, parent) && h.step.value > parent.step.value
                  && h.difficulty + (h.step.value - parent.step.value) == U128_MAX && h.author.None?)
  {
    if StepOf(h).Ok? && StepOf(parent).Ok? {
      DifficultyDoesNotWrap(StepOf(parent).value, StepOf(h).value);
    }
  }

  // An accepted parent makes an empty list and a wrong signer the only other causes.
  lemma ProposerErrors(sets: Sets, h: Header, parent: Header, k: nat)
    requires Activation(sets, if h.number >= 1 then h.number - 1 else 0, k)
    ensures var r := ValidateAgainstParent(sets, h, parent);
            && (r == Err(EmptyValidatorList) ==> sets[k] == List([]))
            && (r == Err(ProposerMismatch) ==>
                  && sets[k].List? && |sets[k].addresses| > 0 && h.step.Some?
                  && h.author.Some? && h.author.value != sets[k].addresses[h.step.value % |sets[k].addresses|])
  {
    LookupExact(sets, if h.number >= 1 then h.number - 1 else 0, k);
  }

  /*** Chains ***/

  // Every header after the first has been validated against the one before it.
  ghost predicate Chain(sets: Sets, hs: seq<Header>) {
    && |hs| >= 1 && StepOf(hs[0]).Ok?
    && forall i {:trigger Accepted(sets, hs, i)} :: 0 < i < |hs| ==> Accepted(sets, hs, i)
  }

  ghost predicate Accepted(sets: Sets, hs: seq<Header>, i: nat)
    requires 0 < i < |hs|
  {
    ValidateAgainstParent(sets, hs[i], hs[i - 1]).Ok?
  }

  // The step of header `i`; 0 where it has none.
  function Step(hs: seq<Header>, i: nat): nat
    requires i < |hs|
  {
    match StepOf(hs[i]) case Ok(s) => s case Err(_) => 0
  }

  function TotalDifficulty(hs: seq<Header>): nat {
    if |hs| <= 1 then 0 else TotalDifficulty(hs[..|hs| - 1]) + hs[|hs| - 1].difficulty
  }

  lemma ChainPrefix(sets: Sets, hs: seq<Header>, k: nat)
    requires Chain(sets, hs) && 0 < k <= |hs|
    ensures Chain(sets, hs[..k])
  {
    forall i | 0 < i < k ensures Accepted(sets, hs[..k], i) {
      assert Accepted(sets, hs, i);
    }
  }

  lemma ChainLink(sets: Sets, hs: seq<Header>, i: nat)
    requires Chain(sets, hs) && 0 < i < |hs|
    ensures Step(hs, i - 1) < Step(hs, i) < U64_BOUND
    ensures hs[i].difficulty == U128_MAX + Step(hs, i - 1) - Step(hs, i)
    ensures hs[i].number == hs[i - 1].number + 1
  {
    assert Accepted(sets, hs, i);
    DifficultyDoesNotWrap(Step(hs, i - 1), Step(hs, i));
  }

  // Telescoping: k validated blocks between steps s0 and s weigh k * (2^128 - 1) - (s - s0).
  lemma {:induction false} DifficultyTelescopes(sets: Sets, hs: seq<Header>)
    requires Chain(sets, hs)
    ensures TotalDifficulty(hs) == (|hs| - 1) * U128_MAX - (Step(hs, |hs| - 1) - Step(hs, 0))
    ensures Step(hs, 0) + (|hs| - 1) <= Step(hs, |hs| - 1) < U64_BOUND
  {
    if |hs| > 1 {
      var init := hs[..|hs| - 1];
      ChainPrefix(sets, hs, |hs| - 1);
      DifficultyTelescopes(sets, init);
      ChainLink(sets, hs, |hs| - 1);
    }
  }

  lemma HeavierArithmetic(k: nat, k': nat, d: nat, d': nat)
    requires d < U64_BOUND && d' < U64_BOUND
    ensures k * U128_MAX - d > k' * U128_MAX - d' <==> k > k' || (k == k' && d < d')
  {
  }

  // Fork choice by weight: from a common ancestor, a chain outweighs another iff it has more
  // blocks, or equally many and the smaller final step.
  lemma HeavierChain(sets: Sets, a: seq<Header>, b: seq<Header>)
    requires Chain(sets, a) && Chain(sets, b) && a[0] == b[0]
    ensures TotalDifficulty(a) > TotalDifficulty(b) <==>
              |a| > |b| || (|a| == |b| && Step(a, |a| - 1) < Step(b, |b| - 1))
  {
    DifficultyTelescopes(sets, a);
    DifficultyTelescopes(sets, b);
    HeavierArithmetic(|a| - 1, |b| - 1, Step(a, |a| - 1) - Step(a, 0), Step(b, |b| - 1) - Step(b, 0));
  }

  /*** Round robin ***/

  // All proposers of the chain are looked up in one list: it is in force at the first header's
  // block and no other set is activated before the last header's parent.
  ghost predicate OneListRegion(sets: Sets, hs: seq<Header>, validators: seq<Address>)
    requires |hs| >= 1
  {
    && (exists k :: Activation(sets, hs[0].number, k) && sets[k] == List(validators))
    && forall m :: hs[0].number < m < hs[0].number + |hs| - 1 ==> m !in sets
  }

  lemma {:induction false} ChainNumbers(sets: Sets, hs: seq<Header>, i: nat)
    requires Chain(sets, hs) && i < |hs|
    ensures hs[i].number == hs[0].number + i
  {
    if i > 0 {
      ChainNumbers(sets, hs, i - 1);
      ChainLink(sets, hs, i);
    }
  }

  lemma AuthorIsProposer(sets: Sets, hs: seq<Header>, validators: seq<Address>, i: nat)
    requires Chain(sets, hs) && OneListRegion(sets, hs, validators) && 0 < i < |hs|
    ensures |validators| > 0
    ensures hs[i].author == Some(validators[Step(hs, i) % |validators|])
  {
    var k :| Activation(sets, hs[0].number, k) && sets[k] == List(validators);
    LookupExact(sets, hs[0].number, k);
    ChainNumbers(sets, hs, i - 1);
    ChainLink(sets, hs, i);
    assert Accepted(sets, hs, i);
    KindConstantBetweenActivations(sets, hs[0].number, hs[i].number - 1);
  }

  lemma {:induction false} StepsIncrease(sets: Sets, hs: seq<Header>, i: nat, j: nat)
    requires Chain(sets, hs) && i <= j < |hs|
    ensures Step(hs, i) + (j - i) <= Step(hs, j)
  {
    if i < j {
      StepsIncrease(sets, hs, i, j - 1);
      ChainLink(sets, hs, j);
    }
  }

  lemma SameResidue(a: nat, b: nat, m: nat)
    requires m > 0 && a <= b
    ensures a % m == b % m <==> (b - a) % m == 0
  {
    var qa, qb := a / m, b / m;
    assert b - a == m * (qb - qa) + (b % m - a % m);
    if a % m == b % m {
      MultipleOf(b - a, m, qb - qa);
    } else if (b - a) % m == 0 {
      var q := (b - a) / m;
      assert b == m * (q + qa) + a % m;
      RemainderUnique(b, m, q + qa, a % m);
    }
  }

  lemma MultipleOf(x: nat, m: nat, q: int)
    requires m > 0 && x == m * q
    ensures x % m == 0
  {
    RemainderUnique(x, m, q, 0);
  }

  lemma ProductSign(m: nat, d: int)
    requires m > 0
    ensures d > 0 ==> m * d >= m
    ensures d < 0 ==> m * d <= -1 * m
  {
  }

  lemma RemainderUnique(x: nat, m: nat, q: int, r: nat)
    requires m > 0 && r < m && x == m * q + r
    ensures x % m == r
  {
    var d := x / m - q;
    assert m * d == r - x % m;
    ProductSign(m, d);
  }

  // In one list region with pairwise distinct validators, two blocks have the same signer iff
  // their steps differ by a multiple of the list's length.
  lemma SameSignerExact(sets: Sets, hs: seq<Header>, validators: seq<Address>, i: nat, j: nat)
    requires Chain(sets, hs) && OneListRegion(sets, hs, validators) && Distinct(validators)
    requires 0 < i < j < |hs|
    ensures |validators| > 0 && Step(hs, i) < Step(hs, j)
    ensures hs[i].author == hs[j].author <==> (Step(hs, j) - Step(hs, i)) % |validators| == 0
  {
    AuthorIsProposer(sets, hs, validators, i);
    AuthorIsProposer(sets, hs, validators, j);
    StepsIncrease(sets, hs, i, j);
    SameResidue(Step(hs, i), Step(hs, j), |validators|);
  }

  lemma SmallNotMultiple(d: nat, m: nat)
    requires 0 < d < m
    ensures d % m != 0
  {
  }

  // Blocks that span fewer steps than there are validators have different signers.
  lemma ShortSpanDifferentSigners(sets: Sets, hs: seq<Header>, validators: seq<Address>, i: nat, j: nat)
    requires Chain(sets, hs) && OneListRegion(sets, hs, validators) && Distinct(validators)
    requires 0 < i < j < |hs|
    requires Step(hs, j) - Step(hs, i) < |validators|
    ensures hs[i].author != hs[j].author
  {
    SameSignerExact(sets, hs, validators, i, j);
    SmallNotMultiple(Step(hs, j) - Step(hs, i), |validators|);
  }

  // So any run of blocks that spans fewer steps than there are validators has all-distinct signers.
  lemma ShortSpanDistinctSigners(sets: Sets, hs: seq<Header>, validators: seq<Address>, lo: nat, hi: nat)
    requires Chain(sets, hs) && OneListRegion(sets, hs, validators) && Distinct(validators)
    requires 0 < lo <= hi < |hs|
    requires Step(hs, hi) - Step(hs, lo) < |validators|
    ensures forall i, j :: lo <= i < j <= hi ==> hs[i].author != hs[j].author
  {
    forall i, j | lo <= i < j <= hi ensures hs[i].author != hs[j].author {
      StepsIncrease(sets, hs, lo, i);
      StepsIncrease(sets, hs, j, hi);
      ShortSpanDifferentSigners(sets, hs, validators, i, j);
    }
  }
}
