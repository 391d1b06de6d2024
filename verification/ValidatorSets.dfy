// Block-keyed validator sets (src/aura/validators.rs) and the detector of the first block after
// a list-to-contract boundary (src/evm_config.rs).
module ValidatorSets {
  import opened Primitives

  datatype Kind = List(addresses: seq<Address>) | Contract(address: Address)

  type Sets = map<nat, Kind>

  // The set with the highest activation block not above `n`.
  function KindAt(sets: Sets, n: nat): (k: Option<Kind>)
    ensures k.None? <==> forall m :: m in sets ==> m > n
  {
    if n in sets then Some(sets[n])
    else if n == 0 then None
    else KindAt(sets, n - 1)
  }

  function ListAt(sets: Sets, n: nat): Option<seq<Address>> {
    match KindAt(sets, n)
    case Some(List(addresses)) => Some(addresses)
    case _ => None
  }

  function ContractAt(sets: Sets, n: nat): Option<Address> {
    match KindAt(sets, n)
    case Some(Contract(address)) => Some(address)
    case _ => None
  }

  // Round-robin proposer; None for an empty list.
  function ExpectedProposer(step: nat, validators: seq<Address>): Option<Address> {
    if |validators| == 0 then None else Some(validators[step % |validators|])
  }

  // `k` is the highest activation block not above `n`.
  predicate Activation(sets: Sets, n: nat, k: nat) {
    k in sets && k <= n && forall m :: m in sets && m <= n ==> m <= k
  }

  lemma {:induction false} KindAtIsLatestActivation(sets: Sets, n: nat, k: nat)
    requires Activation(sets, n, k)
    ensures KindAt(sets, n) == Some(sets[k])
  {
    if n !in sets {
      KindAtIsLatestActivation(sets, n - 1, k);
    }
  }

  // The list or the contract at a block is the one of the latest activation entry, if that is of the
  // kind asked for.
  lemma LookupExact(sets: Sets, n: nat, k: nat)
    requires Activation(sets, n, k)
    ensures ListAt(sets, n) == match sets[k] case List(addresses) => Some(addresses) case Contract(_) => None
    ensures ContractAt(sets, n) == match sets[k] case Contract(address) => Some(address) case List(_) => None
  {
    KindAtIsLatestActivation(sets, n, k);
  }

  lemma {:induction false} ActivationExists(sets: Sets, n: nat) returns (k: nat)
    requires KindAt(sets, n).Some?
    ensures Activation(sets, n, k)
  {
    if n in sets {
      k := n;
    } else {
      k := ActivationExists(sets, n - 1);
    }
  }

  // The set changes only at activation blocks.
  lemma {:induction false} KindConstantBetweenActivations(sets: Sets, a: nat, b: nat)
    requires a <= b
    requires forall m :: a < m <= b ==> m !in sets
    ensures KindAt(sets, b) == KindAt(sets, a)
  {
    if a < b {
      KindConstantBetweenActivations(sets, a, b - 1);
    }
  }

  /*** compute_finalize_change_address_from_validators ***/

  function BoundaryFinalize(sets: Sets, n: nat): Option<Address> {
    if n == 0 then ContractAt(sets, 0)
    else
      match ContractAt(sets, n)
      case None => None
      case Some(current) =>
        if ContractAt(sets, n - 1) != Some(current) then None
        else if n >= 2 && ContractAt(sets, n - 2) != Some(current) then
          var prevWasList := n >= 2 && ContractAt(sets, n - 2).None?;
          if prevWasList then Some(current) else None
        else None
  }

  // It fires with `c` exactly on the second block of a region of contract `c` that follows a
  // block without a contract, and at genesis if that has contract `c`.
  lemma BoundaryExact(sets: Sets, n: nat, c: Address)
    ensures BoundaryFinalize(sets, 0) == ContractAt(sets, 0)
    ensures n >= 1 ==>
              (BoundaryFinalize(sets, n) == Some(c) <==>
                 n >= 2 && ContractAt(sets, n) == Some(c) && ContractAt(sets, n - 1) == Some(c)
                 && ContractAt(sets, n - 2) == None)
  {
  }

  // The activation entry that a firing at block `n` stems from.
  function FiringKey(n: nat): nat {
    if n == 0 then 0 else n - 1
  }

  lemma FiringAtContractEntry(sets: Sets, n: nat)
    requires BoundaryFinalize(sets, n).Some?
    ensures FiringKey(n) in sets && sets[FiringKey(n)] == Contract(BoundaryFinalize(sets, n).value)
  {
  }

  // Between two firings there is a block whose set is not a contract.
  lemma FiringsSeparated(sets: Sets, a: nat, b: nat)
    requires a < b
    requires BoundaryFinalize(sets, a).Some? && BoundaryFinalize(sets, b).Some?
    ensures a < b - 2 && ContractAt(sets, b - 2).None?
  {
  }

  ghost function Firings(sets: Sets, lo: nat, hi: nat): set<nat> {
    set n | lo <= n < hi && BoundaryFinalize(sets, n).Some?
  }

  ghost function ContractEntries(sets: Sets): set<nat> {
    set k | k in sets && sets[k].Contract?
  }

  lemma {:induction false} InjectiveImageFits(a: set<nat>, b: set<nat>)
    requires forall n :: n in a ==> FiringKey(n) in b
    requires forall n, m :: n in a && m in a && n != m ==> FiringKey(n) != FiringKey(m)
    ensures |a| <= |b|
  {
    if a != {} {
      var n :| n in a;
      InjectiveImageFits(a - {n}, b - {FiringKey(n)});
    }
  }

  // Over any range of blocks it fires at most once per contract entry.
  lemma FiringsAtMostContractEntries(sets: Sets, lo: nat, hi: nat)
    ensures |Firings(sets, lo, hi)| <= |ContractEntries(sets)|
  {
    forall n | n in Firings(sets, lo, hi) ensures FiringKey(n) in ContractEntries(sets) {
      FiringAtContractEntry(sets, n);
    }
    forall n, m | n in Firings(sets, lo, hi) && m in Firings(sets, lo, hi) && n != m
      ensures FiringKey(n) != FiringKey(m)
    {
      if n < m {
        FiringsSeparated(sets, n, m);
      } else {
        FiringsSeparated(sets, m, n);
      }
    }
    InjectiveImageFits(Firings(sets, lo, hi), ContractEntries(sets));
  }
}
