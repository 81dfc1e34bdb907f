/** The slot bookkeeping of a spin-summed second-quantized operator. An
    operator is a list of slots; each slot names one of the operator's
    indices (`a_`..`d_`, here positions in `indices`), carries an
    operator-info code and a spin code. Whether a slot is a creation
    (daggered) operator is fixed when the operator is built. */
module Operators {

  import opened Wrappers
  import opened Symbols

  /** Position of one of the operator's own indices (`a_`, `b_`, `c_`, `d_`). */
  type IndexRef = nat

  /** A spin object of the derivation, addressed by a stable handle. */
  type SpinRef = nat

  /** Operator-info codes. */
  const NoOperator: int := -1      // already contracted
  const LiveOperator: int := 0     // an operator still to be contracted
  const ActiveOperator: int := 2   // an active-space operator

  datatype Slot = Slot(index: IndexRef, info: int, spin: int)

  /** The convention every slot keeps: info is -1, 0 or 2, spin is 0 or 1,
      and the slot names one of the operator's indices. */
  predicate WellFormedSlot(s: Slot, nIndices: nat)
  {
    && (s.info == NoOperator || s.info == LiveOperator || s.info == ActiveOperator)
    && (s.spin == 0 || s.spin == 1)
    && s.index < nIndices
  }

  predicate WellFormedSlots(op: seq<Slot>, dagger: seq<bool>, nIndices: nat)
  {
    |dagger| == |op| && forall k :: 0 <= k < |op| ==> WellFormedSlot(op[k], nIndices)
  }

  /** Every slot's spin code is a position in the spin vector `rho_`: the
      slot's spin is `rho_[spin]`. */
  predicate SpinsInRange(op: seq<Slot>, nSpins: nat)
  {
    forall k :: 0 <= k < |op| ==> op[k].spin < nSpins
  }

  /** The kinds of slot the operator's counters count. */
  datatype Kind = GeneralOp | ActiveDagger | ActiveNoDagger | Dagger | NoDagger

  /** Whether slot `s`, daggered iff `d`, is one that the counter for `kind`
      counts. A general operator is a live slot whose index has the general
      range label "g"; the daggered and non-daggered counters count live
      slots, the active ones active slots. */
  predicate Counts(kind: Kind, s: Slot, d: bool, indices: seq<Index>)
  {
    match kind
    case GeneralOp => s.info == LiveOperator && s.index < |indices| && indices[s.index].range == "g"
    case ActiveDagger => s.info == ActiveOperator && d
    case ActiveNoDagger => s.info == ActiveOperator && !d
    case Dagger => s.info == LiveOperator && d
    case NoDagger => s.info == LiveOperator && !d
  }

  function Tally(kind: Kind, op: seq<Slot>, dagger: seq<bool>, indices: seq<Index>): nat
    requires |dagger| == |op|
  {
    if |op| == 0 then 0
    else
      Tally(kind, op[..|op| - 1], dagger[..|op| - 1], indices)
        + (if Counts(kind, op[|op| - 1], dagger[|op| - 1], indices) then 1 else 0)
  }

  /** A count is never larger than the number of slots. */
  lemma {:induction false} TallyBound(kind: Kind, op: seq<Slot>, dagger: seq<bool>, indices: seq<Index>)
    requires |dagger| == |op|
    ensures Tally(kind, op, dagger, indices) <= |op|
  {
    if |op| > 0 {
      TallyBound(kind, op[..|op| - 1], dagger[..|op| - 1], indices);
    }
  }

  /** A count is non-zero exactly when some slot of that kind exists. */
  lemma {:induction false} TallyPositive(kind: Kind, op: seq<Slot>, dagger: seq<bool>, indices: seq<Index>)
    requires |dagger| == |op|
    ensures Tally(kind, op, dagger, indices) > 0 <==>
      exists k :: 0 <= k < |op| && Counts(kind, op[k], dagger[k], indices)
  {
    if |op| > 0 {
      var n := |op| - 1;
      TallyPositive(kind, op[..n], dagger[..n], indices);
      if exists k :: 0 <= k < |op| && Counts(kind, op[k], dagger[k], indices) {
        var k :| 0 <= k < |op| && Counts(kind, op[k], dagger[k], indices);
        if k < n {
          assert op[..n][k] == op[k] && dagger[..n][k] == dagger[k];
        }
      }
      if exists k :: 0 <= k < n && Counts(kind, op[..n][k], dagger[..n][k], indices) {
        var k :| 0 <= k < n && Counts(kind, op[..n][k], dagger[..n][k], indices);
        assert Counts(kind, op[k], dagger[k], indices);
      }
    }
  }

  /** Replacing slot `k` changes each count by what the old slot took away
      and the new slot adds, and by nothing else. */
  lemma {:induction false} TallyUpdate(kind: Kind, op: seq<Slot>, dagger: seq<bool>, indices: seq<Index>, k: nat, s: Slot)
    requires |dagger| == |op| && k < |op|
    ensures Tally(kind, op[k := s], dagger, indices) + (if Counts(kind, op[k], dagger[k], indices) then 1 else 0)
         == Tally(kind, op, dagger, indices) + (if Counts(kind, s, dagger[k], indices) then 1 else 0)
  {
    var n := |op| - 1;
    var op' := op[k := s];
    if k == n {
      assert op'[..n] == op[..n];
    } else {
      assert op'[..n] == op[..n][k := s];
      TallyUpdate(kind, op[..n], dagger[..n], indices, k, s);
    }
  }

  /** Every slot is already contracted. */
  function AllContracted(op: seq<Slot>): bool
  {
    |op| == 0 || (op[0].info == NoOperator && AllContracted(op[1..]))
  }

  lemma {:induction false} AllContractedIff(op: seq<Slot>)
    ensures AllContracted(op) <==> forall k :: 0 <= k < |op| ==> op[k].info == NoOperator
  {
    if |op| > 0 {
      AllContractedIff(op[1..]);
      if forall k :: 0 <= k < |op| ==> op[k].info == NoOperator {
        assert forall k :: 0 <= k < |op| - 1 ==> op[1..][k].info == NoOperator;
      }
      if AllContracted(op) {
        forall k | 0 <= k < |op|
          ensures op[k].info == NoOperator
        {
          if k > 0 {
            assert op[k] == op[1..][k - 1];
          }
        }
      }
    }
  }

  /** With well-formed info codes, an operator is fully contracted exactly
      when it has neither live nor active slots, daggered or not. */
  lemma ContractedIffNothingLeft(op: seq<Slot>, dagger: seq<bool>, indices: seq<Index>)
    requires WellFormedSlots(op, dagger, |indices|)
    ensures AllContracted(op) <==>
      Tally(Dagger, op, dagger, indices) + Tally(NoDagger, op, dagger, indices)
        + Tally(ActiveDagger, op, dagger, indices) + Tally(ActiveNoDagger, op, dagger, indices) == 0
  {
    AllContractedIff(op);
    TallyPositive(Dagger, op, dagger, indices);
    TallyPositive(NoDagger, op, dagger, indices);
    TallyPositive(ActiveDagger, op, dagger, indices);
    TallyPositive(ActiveNoDagger, op, dagger, indices);
    if !AllContracted(op) {
      var k :| 0 <= k < |op| && op[k].info != NoOperator;
      assert WellFormedSlot(op[k], |indices|);
      if dagger[k] {
        assert Counts(Dagger, op[k], dagger[k], indices) || Counts(ActiveDagger, op[k], dagger[k], indices);
      } else {
        assert Counts(NoDagger, op[k], dagger[k], indices) || Counts(ActiveNoDagger, op[k], dagger[k], indices);
      }
    }
  }

  /** Slot `s` is a daggered operator that is neither active nor contracted. */
  predicate IsLiveDagger(s: Slot, d: bool)
  {
    d && s.info == LiveOperator
  }

  predicate HasLiveDagger(op: seq<Slot>, dagger: seq<bool>)
    requires |dagger| == |op|
  {
    exists k :: 0 <= k < |op| && IsLiveDagger(op[k], dagger[k])
  }

  lemma HasLiveDaggerTail(op: seq<Slot>, dagger: seq<bool>)
    requires |dagger| == |op| && |op| > 0
    requires HasLiveDagger(op, dagger) && !IsLiveDagger(op[0], dagger[0])
    ensures HasLiveDagger(op[1..], dagger[1..])
  {
  }

  /** Position of the first live daggered slot. */
  function FirstLiveDagger(op: seq<Slot>, dagger: seq<bool>): (k: nat)
    requires |dagger| == |op|
    requires HasLiveDagger(op, dagger)
    ensures k < |op| && IsLiveDagger(op[k], dagger[k])
    ensures forall j :: 0 <= j < k ==> !IsLiveDagger(op[j], dagger[j])
  {
    if IsLiveDagger(op[0], dagger[0]) then 0
    else
      HasLiveDaggerTail(op, dagger);
      var k := FirstLiveDagger(op[1..], dagger[1..]);
      assert forall j :: 1 <= j < k + 1 ==> op[j] == op[1..][j - 1] && dagger[j] == dagger[1..][j - 1];
      k + 1
  }

  /** Slot `k` with its info set to "already contracted". */
  function MarkContracted(op: seq<Slot>, k: nat): seq<Slot>
    requires k < |op|
  {
    op[k := op[k].(info := NoOperator)]
  }

  /** Contracting a live daggered slot takes exactly one from the daggered
      count, leaves the non-daggered and both active counts alone, and takes
      one from the general count exactly when the slot's index is general. */
  lemma MarkContractedCounts(op: seq<Slot>, dagger: seq<bool>, indices: seq<Index>, k: nat)
    requires |dagger| == |op| && k < |op| && IsLiveDagger(op[k], dagger[k])
    ensures Tally(Dagger, MarkContracted(op, k), dagger, indices) == Tally(Dagger, op, dagger, indices) - 1
    ensures Tally(NoDagger, MarkContracted(op, k), dagger, indices) == Tally(NoDagger, op, dagger, indices)
    ensures Tally(ActiveDagger, MarkContracted(op, k), dagger, indices) == Tally(ActiveDagger, op, dagger, indices)
    ensures Tally(ActiveNoDagger, MarkContracted(op, k), dagger, indices) == Tally(ActiveNoDagger, op, dagger, indices)
    ensures Tally(GeneralOp, MarkContracted(op, k), dagger, indices)
         == Tally(GeneralOp, op, dagger, indices) - (if Counts(GeneralOp, op[k], dagger[k], indices) then 1 else 0)
  {
    var s := op[k].(info := NoOperator);
    TallyUpdate(Dagger, op, dagger, indices, k, s);
    TallyUpdate(NoDagger, op, dagger, indices, k, s);
    TallyUpdate(ActiveDagger, op, dagger, indices, k, s);
    TallyUpdate(ActiveNoDagger, op, dagger, indices, k, s);
    TallyUpdate(GeneralOp, op, dagger, indices, k, s);
  }

  class Operator {

    /** The operator's own indices; a slot's `index` is a position here. */
    const indices: seq<Index>
    /** `dagger[k]`: slot k is a creation operator. Fixed at construction. */
    const dagger: seq<bool>
    /** The slot list `op_`. */
    var op: seq<Slot>
    /** The spin vector `rho_`. */
    var rho: seq<SpinRef>

    ghost predicate Valid()
      reads this
    {
      WellFormedSlots(op, dagger, |indices|) && SpinsInRange(op, |rho|)
    }

    /** An operator over the given indices, slots, creation flags and spins.
        Which slots the one- and two-body constructors lay out is not part
        of this model. */
    constructor (indices: seq<Index>, slots: seq<Slot>, dagger: seq<bool>, rho: seq<SpinRef>)
      requires WellFormedSlots(slots, dagger, |indices|) && SpinsInRange(slots, |rho|)
      ensures Valid()
      ensures this.indices == indices && this.op == slots && this.dagger == dagger && this.rho == rho
    {
      this.indices := indices;
      this.op := slots;
      this.dagger := dagger;
      this.rho := rho;
    }

    /** Labels of two index ranges can be contracted if they are equal or
        either is general. */
    static function Contractable(a: string, b: string): (r: bool)
      ensures a == b ==> r
      ensures a == "g" || b == "g" ==> r
      ensures r ==> a == b || a == "g" || b == "g"
    {
      a == b || a == "g" || b == "g"
    }

    /** The operator is completely contracted. */
    function Contracted(): (r: bool)
      reads this
      ensures r <==> forall k :: 0 <= k < |op| ==> op[k].info == NoOperator
    {
      AllContractedIff(op);
      AllContracted(op)
    }

    /** Number of general operators. */
    function NumGeneral(): (r: nat)
      reads this
      requires Valid()
      ensures r <= |op|
      ensures r > 0 <==> exists k :: 0 <= k < |op| && Counts(GeneralOp, op[k], dagger[k], indices)
    {
      TallyBound(GeneralOp, op, dagger, indices);
      TallyPositive(GeneralOp, op, dagger, indices);
      Tally(GeneralOp, op, dagger, indices)
    }

    /** The operator holds a general (Hamiltonian-like) operator. */
    function General(): (r: bool)
      reads this
      requires Valid()
      ensures r <==> exists k :: 0 <= k < |op| && Counts(GeneralOp, op[k], dagger[k], indices)
    {
      NumGeneral() != 0
    }

    /** Number of non-daggered active operators. */
    function NumActiveNoDagger(): (r: nat)
      reads this
      requires Valid()
      ensures r <= |op|
      ensures r > 0 <==> exists k :: 0 <= k < |op| && op[k].info == ActiveOperator && !dagger[k]
    {
      TallyBound(ActiveNoDagger, op, dagger, indices);
      TallyPositive(ActiveNoDagger, op, dagger, indices);
      Tally(ActiveNoDagger, op, dagger, indices)
    }

    /** Number of daggered active operators. */
    function NumActiveDagger(): (r: nat)
      reads this
      requires Valid()
      ensures r <= |op|
      ensures r > 0 <==> exists k :: 0 <= k < |op| && op[k].info == ActiveOperator && dagger[k]
    {
      TallyBound(ActiveDagger, op, dagger, indices);
      TallyPositive(ActiveDagger, op, dagger, indices);
      Tally(ActiveDagger, op, dagger, indices)
    }

    /** Number of non-daggered operators still to be contracted. */
    function NumNoDagger(): (r: nat)
      reads this
      requires Valid()
      ensures r <= |op|
      ensures r > 0 <==> exists k :: 0 <= k < |op| && op[k].info == LiveOperator && !dagger[k]
    {
      TallyBound(NoDagger, op, dagger, indices);
      TallyPositive(NoDagger, op, dagger, indices);
      Tally(NoDagger, op, dagger, indices)
    }

    /** Number of daggered operators still to be contracted. */
    function NumDagger(): (r: nat)
      reads this
      requires Valid()
      ensures r <= |op|
      ensures r > 0 <==> exists k :: 0 <= k < |op| && IsLiveDagger(op[k], dagger[k])
    {
      TallyBound(Dagger, op, dagger, indices);
      TallyPositive(Dagger, op, dagger, indices);
      Tally(Dagger, op, dagger, indices)
    }

    /** Spin `i` of `rho_`; `None` where the source's bounds-checked `at`
        throws. */
    function Rho(i: int): (r: Option<SpinRef>)
      reads this
      ensures r.Some? <==> 0 <= i < |rho|
      ensures r.Some? ==> r.value == rho[i]
    {
      if 0 <= i < |rho| then Some(rho[i]) else None
    }

    /** Replace spin `i`. */
    method SetRho(i: int, a: SpinRef)
      requires Valid()
      requires 0 <= i < |rho|
      modifies this
      ensures Valid()
      ensures rho == old(rho)[i := a] && op == old(op)
      ensures Rho(i) == Some(a)
      ensures forall j :: j != i ==> Rho(j) == old(Rho(j))
    {
      rho := rho[i := a];
    }

    /** Returns the index handle and spin code of the first daggered slot
        that is neither active nor contracted, and marks that slot as
        contracted. With no such slot the source raises a logic error; here
        the result is `None` and nothing changes. */
    method FirstDaggerNoActive() returns (r: Option<(IndexRef, int)>)
      requires Valid()
      modifies this
      ensures Valid() && rho == old(rho)
      ensures !HasLiveDagger(old(op), dagger) ==> r.None? && op == old(op)
      ensures HasLiveDagger(old(op), dagger) ==>
        var k := FirstLiveDagger(old(op), dagger);
        && r == Some((old(op)[k].index, old(op)[k].spin))
        && op == MarkContracted(old(op), k)
        && Rho(old(op)[k].spin).Some?
      ensures HasLiveDagger(old(op), dagger) ==>
        var k := FirstLiveDagger(old(op), dagger);
        && NumDagger() == old(NumDagger()) - 1
        && NumNoDagger() == old(NumNoDagger())
        && NumActiveDagger() == old(NumActiveDagger())
        && NumActiveNoDagger() == old(NumActiveNoDagger())
        && NumGeneral() == old(NumGeneral())
             - (if Counts(GeneralOp, old(op)[k], dagger[k], indices) then 1 else 0)
    {
      if !HasLiveDagger(op, dagger) {
        r := None;
        return;
      }
      var k := FirstLiveDagger(op, dagger);
      MarkContractedCounts(op, dagger, indices, k);
      r := Some((op[k].index, op[k].spin));
      op := MarkContracted(op, k);
    }
  }

  /** Contractability is reflexive and symmetric, allows any label against
      the general label, and refuses two distinct specific labels. */
  lemma ContractableLaws(a: string, b: string)
    ensures Operator.Contractable(a, a)
    ensures Operator.Contractable(a, b) == Operator.Contractable(b, a)
    ensures Operator.Contractable(a, "g") && Operator.Contractable("g", a)
    ensures a != b && a != "g" && b != "g" ==> !Operator.Contractable(a, b)
  {
  }
}
