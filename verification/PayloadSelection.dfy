// The transaction-selection loop of the payload builder (src/payload.rs): three budgets, several
// ways to skip a transaction, and early exits. The stream is the sequence of transactions that the
// pool yields, whatever it makes of the signals it gets.
module PayloadSelection {
  import opened Primitives

  // EIP-7934.
  const MAX_RLP_BLOCK_SIZE: nat := 8_388_608

  const HEADER_OVERHEAD: nat := 1024

  datatype SidecarKind = Eip4844 | Eip7594

  datatype Sidecar = Sidecar(kind: SidecarKind, id: nat)

  datatype SidecarLookup = PoolError | Missing | Found(sidecar: Sidecar)

  datatype Execution = Success(gasUsed: nat) | NonceTooLow | InvalidTx | Fatal

  datatype Blobs = Blobs(count: nat, lookup: SidecarLookup)

  // A yielded transaction: what it declares, and what happens if the loop gets as far as asking for
  // its sidecar, executing it, or noticing a cancellation.
  datatype PoolTx = PoolTx(
    gasLimit: nat,
    rlpLength: nat,
    blobs: Option<Blobs>,
    tip: nat,
    cancelled: bool,
    execution: Execution)

  datatype Limits = Limits(blockGas: nat, maxBlobs: nat, isOsaka: bool, withdrawalsLength: nat)

  // EIP-7872: a user limit caps the protocol's maximum, but not below one.
  function EffectiveMaxBlobs(userLimit: Option<nat>, protocolMax: nat): nat {
    match userLimit
    case None => protocolMax
    case Some(u) =>
      var m := if u < protocolMax then u else protocolMax;
      if m < 1 then 1 else m
  }

  // Without a user limit it is the protocol's maximum; with one, the largest number within both limits,
  // and one if there is no positive one.
  lemma EffectiveMaxBlobsExact(userLimit: Option<nat>, protocolMax: nat, k: nat)
    ensures userLimit.None? ==> EffectiveMaxBlobs(userLimit, protocolMax) == protocolMax
    ensures userLimit.Some? && userLimit.value >= 1 && protocolMax >= 1 ==>
              (k <= EffectiveMaxBlobs(userLimit, protocolMax) <==> k <= userLimit.value && k <= protocolMax)
    ensures userLimit.Some? && (userLimit.value == 0 || protocolMax == 0) ==>
              EffectiveMaxBlobs(userLimit, protocolMax) == 1
  {
  }

  /*** Totals of a list of included transactions ***/

  function GasUsed(tx: PoolTx): nat {
    if tx.execution.Success? then tx.execution.gasUsed else 0
  }

  function BlobCount(tx: PoolTx): nat {
    if tx.blobs.Some? then tx.blobs.value.count else 0
  }

  function Gas(txs: seq<PoolTx>): nat {
    if txs == [] then 0 else Gas(txs[..|txs| - 1]) + GasUsed(txs[|txs| - 1])
  }

  function BlobTotal(txs: seq<PoolTx>): nat {
    if txs == [] then 0 else BlobTotal(txs[..|txs| - 1]) + BlobCount(txs[|txs| - 1])
  }

  function RlpTotal(txs: seq<PoolTx>): nat {
    if txs == [] then 0 else RlpTotal(txs[..|txs| - 1]) + txs[|txs| - 1].rlpLength
  }

  function Fees(txs: seq<PoolTx>): nat {
    if txs == [] then 0 else Fees(txs[..|txs| - 1]) + txs[|txs| - 1].tip * GasUsed(txs[|txs| - 1])
  }

  // The sidecars of the included blob transactions, in order.
  function Sidecars(txs: seq<PoolTx>): seq<Sidecar> {
    if txs == [] then []
    else
      var last := txs[|txs| - 1];
      Sidecars(txs[..|txs| - 1]) +
      if last.blobs.Some? && last.blobs.value.lookup.Found? then [last.blobs.value.lookup.sidecar] else []
  }

  // An included transaction adds its gas, its blobs, its length, its fee and its sidecar.
  lemma TotalsExact(txs: seq<PoolTx>, tx: PoolTx, gasUsed: nat)
    requires tx.execution == Success(gasUsed)
    ensures Gas([]) == BlobTotal([]) == RlpTotal([]) == Fees([]) == 0 && Sidecars([]) == []
    ensures Gas(txs + [tx]) == Gas(txs) + gasUsed
    ensures RlpTotal(txs + [tx]) == RlpTotal(txs) + tx.rlpLength
    ensures Fees(txs + [tx]) == Fees(txs) + tx.tip * gasUsed
    ensures tx.blobs.None? ==> BlobTotal(txs + [tx]) == BlobTotal(txs) && Sidecars(txs + [tx]) == Sidecars(txs)
    ensures tx.blobs.Some? ==> BlobTotal(txs + [tx]) == BlobTotal(txs) + tx.blobs.value.count
    ensures tx.blobs.Some? && tx.blobs.value.lookup.Found? ==>
              Sidecars(txs + [tx]) == Sidecars(txs) + [tx.blobs.value.lookup.sidecar]
  {
    assert (txs + [tx])[..|txs|] == txs;
  }

  /*** Which transactions are included ***/

  predicate GasFits(l: Limits, included: seq<PoolTx>, tx: PoolTx) {
    Gas(included) + tx.gasLimit <= l.blockGas
  }

  predicate SizeFits(l: Limits, included: seq<PoolTx>, tx: PoolTx) {
    l.isOsaka ==> RlpTotal(included) + tx.rlpLength + l.withdrawalsLength + HEADER_OVERHEAD <= MAX_RLP_BLOCK_SIZE
  }

  predicate BlobsFit(l: Limits, included: seq<PoolTx>, tx: PoolTx) {
    tx.blobs.Some? ==> BlobTotal(included) + tx.blobs.value.count <= l.maxBlobs
  }

  predicate SidecarUsable(l: Limits, tx: PoolTx) {
    tx.blobs.Some? ==>
      && tx.blobs.value.lookup.Found?
      && tx.blobs.value.lookup.sidecar.kind == if l.isOsaka then Eip7594 else Eip4844
  }

  // The transaction reaches execution.
  predicate Admitted(l: Limits, included: seq<PoolTx>, tx: PoolTx) {
    GasFits(l, included, tx) && SizeFits(l, included, tx) && BlobsFit(l, included, tx) && SidecarUsable(l, tx)
  }

  predicate Includes(l: Limits, included: seq<PoolTx>, tx: PoolTx) {
    Admitted(l, included, tx) && tx.execution.Success?
  }

  // The loop ends without a payload at this transaction.
  predicate Cancels(l: Limits, included: seq<PoolTx>, tx: PoolTx) {
    GasFits(l, included, tx) && tx.cancelled
  }

  predicate Fails(l: Limits, included: seq<PoolTx>, tx: PoolTx) {
    && GasFits(l, included, tx) && !tx.cancelled && SizeFits(l, included, tx) && BlobsFit(l, included, tx)
    && ((tx.blobs.Some? && tx.blobs.value.lookup.PoolError?) || (SidecarUsable(l, tx) && tx.execution.Fatal?))
  }

  // The included transactions: each is decided by the ones included before it.
  function Included(l: Limits, stream: seq<PoolTx>): seq<PoolTx> {
    if stream == [] then []
    else
      var p, tx := Included(l, stream[..|stream| - 1]), stream[|stream| - 1];
      if Includes(l, p, tx) then p + [tx] else p
  }

  // The pool is told to drop the transaction and its descendants: whenever it is not included,
  // unless only its nonce was too low.
  predicate Marks(l: Limits, included: seq<PoolTx>, tx: PoolTx) {
    !Includes(l, included, tx) && !(Admitted(l, included, tx) && tx.execution.NonceTooLow?)
  }

  ghost function Marked(l: Limits, stream: seq<PoolTx>): set<nat> {
    if stream == [] then {}
    else
      var init := stream[..|stream| - 1];
      Marked(l, init) + if Marks(l, Included(l, init), stream[|stream| - 1]) then {|stream| - 1} else {}
  }

  // The early exit that the loop takes, if any.
  ghost function Exit(l: Limits, stream: seq<PoolTx>): Option<Outcome> {
    if stream == [] then None
    else
      var init, tx := stream[..|stream| - 1], stream[|stream| - 1];
      if Exit(l, init).Some? then Exit(l, init)
      else if Cancels(l, Included(l, init), tx) then Some(Cancelled)
      else if Fails(l, Included(l, init), tx) then Some(Failed)
      else None
  }

  datatype Outcome =
    | Cancelled
    | Failed
    | Aborted(fees: nat)
    | Better(txs: seq<PoolTx>, fees: nat, sidecars: seq<Sidecar>)

  // The loop's variables, and the included transactions they account for.
  datatype Selection = Selection(
    txs: seq<PoolTx>, gas: nat, blobs: nat, rlpLength: nat, fees: nat, sidecars: seq<Sidecar>)

  ghost predicate Accounts(s: Selection) {
    && s.gas == Gas(s.txs) && s.blobs == BlobTotal(s.txs) && s.rlpLength == RlpTotal(s.txs)
    && s.fees == Fees(s.txs) && s.sidecars == Sidecars(s.txs)
  }

  datatype Verdict = Keep | Skip | SkipAndMark | Cancel | Fail

  // The budget and sidecar checks before execution.
  method Check(l: Limits, s: Selection, tx: PoolTx) returns (v: Verdict)
    requires Accounts(s)
    ensures v.Cancel? <==> Cancels(l, s.txs, tx)
    ensures v.Keep? <==> Admitted(l, s.txs, tx) && !tx.cancelled
    ensures v.Fail? <==> GasFits(l, s.txs, tx) && !tx.cancelled && SizeFits(l, s.txs, tx) && BlobsFit(l, s.txs, tx)
                         && tx.blobs.Some? && tx.blobs.value.lookup.PoolError?
    ensures !v.Skip?
  {
    if s.gas + tx.gasLimit > l.blockGas {
      return SkipAndMark;
    }
    if tx.cancelled {
      return Cancel;
    }
    if l.isOsaka && s.rlpLength + tx.rlpLength + l.withdrawalsLength + HEADER_OVERHEAD > MAX_RLP_BLOCK_SIZE {
      return SkipAndMark;
    }
    if tx.blobs.Some? {
      if s.blobs + tx.blobs.value.count > l.maxBlobs {
        return SkipAndMark;
      }
      var lookup := tx.blobs.value.lookup;
      if lookup.PoolError? {
        return Fail;
      }
      if lookup.Missing? {
        return SkipAndMark;
      }
      if l.isOsaka {
        return if lookup.sidecar.kind.Eip7594? then Keep else SkipAndMark;
      }
      return if lookup.sidecar.kind.Eip4844? then Keep else SkipAndMark;
    }
    return Keep;
  }

  // One turn of the loop.
  method Consider(l: Limits, s: Selection, tx: PoolTx) returns (v: Verdict, s': Selection)
    requires Accounts(s)
    ensures Accounts(s')
    ensures v.Cancel? <==> Cancels(l, s.txs, tx)
    ensures v.Fail? <==> Fails(l, s.txs, tx)
    ensures !v.Cancel? && !v.Fail? ==>
              && (v.Keep? <==> Includes(l, s.txs, tx))
              && (v.SkipAndMark? <==> Marks(l, s.txs, tx))
    ensures s'.txs == if v.Keep? then s.txs + [tx] else s.txs
  {
    s' := s;
    v := Check(l, s, tx);
    if !v.Keep? {
      return;
    }
    match tx.execution {
      case NonceTooLow => v := Skip;
      case InvalidTx => v := SkipAndMark;
      case Fatal => v := Fail;
      case Success(gasUsed) =>
        s' := s.(txs := s.txs + [tx], gas := s.gas + gasUsed, rlpLength := s.rlpLength + tx.rlpLength,
                 fees := s.fees + tx.tip * gasUsed);
        if tx.blobs.Some? {
          s' := s'.(blobs := s.blobs + tx.blobs.value.count, sidecars := s.sidecars + [tx.blobs.value.lookup.sidecar]);
        }
        assert s'.txs[..|s'.txs| - 1] == s.txs;
    }
  }

  lemma {:induction false} ExitStays(l: Limits, stream: seq<PoolTx>, k: nat)
    requires k <= |stream| && Exit(l, stream[..k]).Some?
    ensures Exit(l, stream) == Exit(l, stream[..k])
    decreases |stream|
  {
    if k < |stream| {
      var init := stream[..|stream| - 1];
      assert init[..k] == stream[..k];
      ExitStays(l, init, k);
    } else {
      assert stream[..k] == stream;
    }
  }

  method BuildPayload(l: Limits, stream: seq<PoolTx>, bestFees: Option<nat>)
    returns (outcome: Outcome, marked: set<nat>)
    ensures Exit(l, stream).Some? ==>
              && outcome == Exit(l, stream).value
              // What was marked up to the transaction that the loop exits at.
              && exists i :: 0 <= i < |stream| && Exit(l, stream[..i]).None? && Exit(l, stream[..i + 1]).Some?
                             && marked == Marked(l, stream[..i])
    ensures Exit(l, stream).None? ==>
              && marked == Marked(l, stream)
              && outcome == var txs := Included(l, stream);
                            if bestFees.Some? && Fees(txs) <= bestFees.value then Aborted(Fees(txs))
                            else Better(txs, Fees(txs), Sidecars(txs))
  {
    var s := Selection([], 0, 0, 0, 0, []);
    marked := {};
    for i := 0 to |stream|
      invariant Accounts(s) && s.txs == Included(l, stream[..i])
      invariant Exit(l, stream[..i]).None?
      invariant marked == Marked(l, stream[..i])
    {
      assert stream[..i + 1][..i] == stream[..i];
      var v;
      v, s := Consider(l, s, stream[i]);
      match v {
        case Cancel =>
          ExitStays(l, stream, i + 1);
          return Cancelled, marked;
        case Fail =>
          ExitStays(l, stream, i + 1);
          return Failed, marked;
        case SkipAndMark =>
          marked := marked + {i};
        case _ =>
      }
    }
    assert stream[..|stream|] == stream;
    if bestFees.Some? && s.fees <= bestFees.value {
      return Aborted(s.fees), marked;
    }
    return Better(s.txs, s.fees, s.sidecars), marked;
  }

  ghost predicate StopsAt(l: Limits, stream: seq<PoolTx>, i: nat)
    requires i < |stream|
  {
    Cancels(l, Included(l, stream[..i]), stream[i]) || Fails(l, Included(l, stream[..i]), stream[i])
  }

  lemma {:induction false} NoExitWithoutStop(l: Limits, stream: seq<PoolTx>, k: nat)
    requires k <= |stream|
    requires forall j :: 0 <= j < k ==> !StopsAt(l, stream, j)
    ensures Exit(l, stream[..k]).None?
  {
    if k > 0 {
      NoExitWithoutStop(l, stream, k - 1);
      assert !StopsAt(l, stream, k - 1);
      assert stream[..k][..k - 1] == stream[..k - 1];
    }
  }

  // The loop runs to its end if no transaction calls for an exit, and otherwise takes the exit that
  // the first such transaction calls for.
  lemma ExitIsFirstStop(l: Limits, stream: seq<PoolTx>, i: nat)
    requires i <= |stream|
    requires forall j :: 0 <= j < i ==> !StopsAt(l, stream, j)
    ensures i == |stream| ==> Exit(l, stream).None?
    ensures i < |stream| && StopsAt(l, stream, i) ==>
              Exit(l, stream) == Some(if Cancels(l, Included(l, stream[..i]), stream[i]) then Cancelled else Failed)
  {
    NoExitWithoutStop(l, stream, i);
    if i == |stream| {
      assert stream[..i] == stream;
    } else if StopsAt(l, stream, i) {
      assert stream[..i + 1][..i] == stream[..i];
      ExitStays(l, stream, i + 1);
    }
  }

  // A transaction is marked iff it is one to mark.
  lemma {:induction false} MarkedExactly(l: Limits, stream: seq<PoolTx>, i: nat)
    ensures i in Marked(l, stream) <==> i < |stream| && Marks(l, Included(l, stream[..i]), stream[i])
  {
    if stream != [] {
      var init := stream[..|stream| - 1];
      MarkedExactly(l, init, i);
      assert i <= |init| ==> init[..i] == stream[..i];
    }
  }

  /*** What holds of the included transactions ***/

  // Execution never uses more gas than the transaction's limit.
  predicate GasBounded(stream: seq<PoolTx>) {
    forall i :: 0 <= i < |stream| ==> GasUsed(stream[i]) <= stream[i].gasLimit
  }

  // All three budgets hold of every selection, whatever was skipped.
  lemma {:induction false} BudgetsHold(l: Limits, stream: seq<PoolTx>)
    requires GasBounded(stream)
    ensures var txs := Included(l, stream);
            && Gas(txs) <= l.blockGas
            && BlobTotal(txs) <= l.maxBlobs
            && (l.isOsaka && txs != [] ==>
                  RlpTotal(txs) + l.withdrawalsLength + HEADER_OVERHEAD <= MAX_RLP_BLOCK_SIZE)
  {
    if stream != [] {
      BudgetsHold(l, stream[..|stream| - 1]);
    }
  }

  // Where in the stream the included transactions come from.
  ghost function Positions(l: Limits, stream: seq<PoolTx>): seq<nat> {
    if stream == [] then []
    else
      var init := stream[..|stream| - 1];
      Positions(l, init) + if Includes(l, Included(l, init), stream[|stream| - 1]) then [|stream| - 1] else []
  }

  // The included list is a subsequence of the stream.
  lemma {:induction false} IncludedIsSubsequence(l: Limits, stream: seq<PoolTx>)
    ensures var p, txs := Positions(l, stream), Included(l, stream);
            && |p| == |txs|
            && (forall k :: 0 <= k < |p| ==> p[k] < |stream| && txs[k] == stream[p[k]])
            && (forall k, m :: 0 <= k < m < |p| ==> p[k] < p[m])
  {
    if stream != [] {
      IncludedIsSubsequence(l, stream[..|stream| - 1]);
    }
  }

  function BlobTxs(txs: seq<PoolTx>): seq<PoolTx> {
    if txs == [] then []
    else BlobTxs(txs[..|txs| - 1]) + if txs[|txs| - 1].blobs.Some? then [txs[|txs| - 1]] else []
  }

  // The sidecars match the included blob transactions one by one, in the fork's format.
  lemma {:induction false} SidecarsMatchBlobTxs(l: Limits, stream: seq<PoolTx>)
    ensures var txs := Included(l, stream);
            var blobTxs, sidecars := BlobTxs(txs), Sidecars(txs);
            && |sidecars| == |blobTxs|
            && forall k :: 0 <= k < |sidecars| ==>
                 && blobTxs[k].blobs.Some? && blobTxs[k].blobs.value.lookup == Found(sidecars[k])
                 && sidecars[k].kind == if l.isOsaka then Eip7594 else Eip4844
  {
    if stream != [] {
      SidecarsMatchBlobTxs(l, stream[..|stream| - 1]);
    }
  }

  // In the transaction's own terms: it fits into the three budgets behind what has been included.
  ghost predicate HasGas(l: Limits, before: seq<PoolTx>, tx: PoolTx) {
    Gas(before) + tx.gasLimit <= l.blockGas
  }

  ghost predicate HasRoom(l: Limits, before: seq<PoolTx>, tx: PoolTx) {
    && (l.isOsaka ==> RlpTotal(before) + tx.rlpLength + l.withdrawalsLength + 1024 <= 8_388_608)
    && (tx.blobs.Some? ==> BlobTotal(before) + tx.blobs.value.count <= l.maxBlobs)
  }

  // The pool has its sidecar, in the format of the fork.
  ghost predicate HasSidecar(l: Limits, tx: PoolTx) {
    match tx.blobs
    case None => true
    case Some(Blobs(_, lookup)) =>
      lookup.Found? && (if l.isOsaka then lookup.sidecar.kind.Eip7594? else lookup.sidecar.kind.Eip4844?)
  }

  // A transaction is marked iff it is not included, unless it got as far as failing for a nonce that
  // is too low.
  lemma MarkedForCause(l: Limits, stream: seq<PoolTx>, i: nat)
    requires i < |stream|
    ensures i in Marked(l, stream) <==>
              var before, tx := Included(l, stream[..i]), stream[i];
              && i !in Positions(l, stream)
              && !(tx.execution.NonceTooLow? && HasGas(l, before, tx) && HasRoom(l, before, tx) && HasSidecar(l, tx))
  {
    MarkedExactly(l, stream, i);
    PositionIncluded(l, stream, i);
  }

  // The loop exits at a transaction iff that fits the gas budget and the build is cancelled then, or it
  // fits all budgets and the pool fails to look up its sidecar or its execution fails fatally.
  lemma StopsForCause(l: Limits, stream: seq<PoolTx>, i: nat)
    requires i < |stream|
    ensures StopsAt(l, stream, i) <==>
              var before, tx := Included(l, stream[..i]), stream[i];
              && HasGas(l, before, tx)
              && (|| tx.cancelled
                  || (HasRoom(l, before, tx) && tx.blobs.Some? && tx.blobs.value.lookup.PoolError?)
                  || (HasRoom(l, before, tx) && HasSidecar(l, tx) && tx.execution.Fatal?))
    ensures Cancels(l, Included(l, stream[..i]), stream[i])
            <==> HasGas(l, Included(l, stream[..i]), stream[i]) && stream[i].cancelled
  {
  }

  // A transaction that would execute is left out only for lack of room or of a usable sidecar.
  lemma LeftOutForCause(l: Limits, stream: seq<PoolTx>, i: nat)
    requires i < |stream| && stream[i].execution.Success?
    ensures i !in Positions(l, stream) <==>
              var before, tx := Included(l, stream[..i]), stream[i];
              !HasGas(l, before, tx) || !HasRoom(l, before, tx) || !HasSidecar(l, tx)
  {
    PositionIncluded(l, stream, i);
  }

  lemma {:induction false} PositionIncluded(l: Limits, stream: seq<PoolTx>, i: nat)
    requires i < |stream|
    ensures i in Positions(l, stream) <==> Includes(l, Included(l, stream[..i]), stream[i])
  {
    var init := stream[..|stream| - 1];
    if i < |init| {
      PositionIncluded(l, init, i);
      assert init[..i] == stream[..i];
    } else {
      IncludedIsSubsequence(l, init);
    }
  }
}
