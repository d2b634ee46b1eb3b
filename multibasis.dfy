/** Subspaces whose states carry a multiplicity of substates.

    Each state records the offset of its first substate and its number of
    substates; the subspace keeps the running total (its full dimension). */
module MultiBasis {
  import opened Basis

  /** The substate bookkeeping a multi-subspace adds to a subspace. */
  datatype MultiData = MultiData(stateOffsets: seq<int>, stateMultiplicities: seq<int>, fullDimension: int)

  type MultiSubspace<SL, L(==,!new)> = Subspace<SL, L, MultiData>
  type MultiSpace<SL(==,!new), L(==,!new)> = Space<SL, L, MultiData>

  /** Sum of a sequence of multiplicities. */
  function Sum(s: seq<int>): int
  {
    if s == [] then 0 else Sum(s[..|s| - 1]) + s[|s| - 1]
  }

  /** Invariant of a multi-subspace: one offset and one multiplicity per state,
      each offset the sum of the multiplicities before it, and the full
      dimension the sum of them all. */
  ghost predicate MultiValid<SL, L(!new)>(s: MultiSubspace<SL, L>)
  {
    && s.Valid()
    && |s.ext.stateOffsets| == |s.ext.stateMultiplicities| == s.Size()
    && (forall i :: 0 <= i < s.Size() ==> s.ext.stateOffsets[i] == Sum(s.ext.stateMultiplicities[..i]))
    && s.ext.fullDimension == Sum(s.ext.stateMultiplicities)
  }

  /** BaseMultiSubspace(): no states, full dimension 0. */
  function NewMultiSubspace<SL, L(==,!new)>(labels: SL): (r: MultiSubspace<SL, L>)
    ensures MultiValid(r) && r.Size() == 0 && r.labels == labels && r.ext.fullDimension == 0
  {
    NewSubspace(labels, MultiData([], [], 0))
  }

  /** PushStateLabels(labels, multiplicity): the base push, then the new
      state's offset is the old full dimension and the full dimension grows by
      the multiplicity. */
  function PushMultiStateLabels<SL, L(==,!new)>(s: MultiSubspace<SL, L>, stateLabels: L, multiplicity: int): (r: MultiSubspace<SL, L>)
    requires MultiValid(s)
    ensures MultiValid(r) && r.labels == s.labels
    ensures r.stateTable == s.stateTable + [stateLabels]
    ensures r.ext.stateOffsets == s.ext.stateOffsets + [s.ext.fullDimension]
    ensures r.ext.stateMultiplicities == s.ext.stateMultiplicities + [multiplicity]
    ensures r.ext.fullDimension == s.ext.fullDimension + multiplicity
  {
    var base := s.PushStateLabels(stateLabels);
    var ms := s.ext.stateMultiplicities + [multiplicity];
    assert ms[..|ms| - 1] == s.ext.stateMultiplicities;
    forall i | 0 <= i < |s.ext.stateMultiplicities|
      ensures ms[..i] == s.ext.stateMultiplicities[..i]
    {
    }
    base.(ext := MultiData(s.ext.stateOffsets + [s.ext.fullDimension], ms, s.ext.fullDimension + multiplicity))
  }

  /** BaseMultiState::offset(): where the state's substates start. */
  function Offset<SL, L(==,!new)>(state: State<SL, L, MultiData>): (r: int)
    requires state.Valid() && MultiValid(state.subspace)
    ensures r == Sum(state.subspace.ext.stateMultiplicities[..state.index])
  {
    state.subspace.ext.stateOffsets[state.index]
  }

  /** BaseMultiState::multiplicity(): how many substates the state has. */
  function Multiplicity<SL, L(==,!new)>(state: State<SL, L, MultiData>): (r: int)
    requires state.Valid() && MultiValid(state.subspace)
    ensures r == state.subspace.ext.stateMultiplicities[state.index]
  {
    state.subspace.ext.stateMultiplicities[state.index]
  }

  /** Substate accessors after a push: the pushed state has the given
      multiplicity and starts at the old full dimension, and every earlier
      state keeps its multiplicity and offset. */
  lemma PushedStateSubstates<SL, L(!new)>(s: MultiSubspace<SL, L>, stateLabels: L, multiplicity: int, i: nat)
    requires MultiValid(s) && i <= s.Size()
    ensures var r := PushMultiStateLabels(s, stateLabels, multiplicity);
            && State(r, i).Valid() && MultiValid(r)
            && (i == s.Size() ==> Multiplicity(State(r, i)) == multiplicity
                                  && Offset(State(r, i)) == s.ext.fullDimension)
            && (i < s.Size() ==> Multiplicity(State(r, i)) == Multiplicity(State(s, i))
                                 && Offset(State(r, i)) == Offset(State(s, i)))
  {
    var r := PushMultiStateLabels(s, stateLabels, multiplicity);
    assert r.ext.stateMultiplicities[..i] == s.ext.stateMultiplicities[..i];
  }

  /** Substate ranges tile the full dimension: each state's range ends where
      the next one starts, and the last one ends at the full dimension. */
  lemma SubstatesTile<SL, L(!new)>(s: MultiSubspace<SL, L>, i: nat)
    requires MultiValid(s) && i < s.Size()
    ensures i + 1 < s.Size() ==> s.ext.stateOffsets[i] + s.ext.stateMultiplicities[i] == s.ext.stateOffsets[i + 1]
    ensures i + 1 == s.Size() ==> s.ext.stateOffsets[i] + s.ext.stateMultiplicities[i] == s.ext.fullDimension
  {
    var ms := s.ext.stateMultiplicities;
    assert ms[..i + 1][..i] == ms[..i];
    assert ms[..s.Size()] == ms;
  }

  /** With every multiplicity 1, offsets are the state indices and the full
      dimension is the dimension. */
  lemma {:induction false} UnitMultiplicities(ms: seq<int>)
    requires forall i :: 0 <= i < |ms| ==> ms[i] == 1
    ensures Sum(ms) == |ms|
  {
    if ms != [] {
      UnitMultiplicities(ms[..|ms| - 1]);
    }
  }

  /** Sum of the full dimensions of the given multi-subspaces. */
  function TotalFull<SL, L(!new)>(ss: seq<MultiSubspace<SL, L>>): int
  {
    if ss == [] then 0 else TotalFull(ss[..|ss| - 1]) + ss[|ss| - 1].ext.fullDimension
  }

  /** TotalFullDimension: the loop over subspaces adding up full dimensions. */
  method TotalFullDimension<SL(==,!new), L(==,!new)>(space: MultiSpace<SL, L>) returns (d: int)
    ensures d == TotalFull(space.subspaces)
  {
    d := 0;
    var i := 0;
    while i < space.Size()
      invariant i <= space.Size()
      invariant d == TotalFull(space.subspaces[..i])
    {
      assert space.subspaces[..i + 1][..i] == space.subspaces[..i];
      d := d + space.GetSubspace(i).ext.fullDimension;
      i := i + 1;
    }
    assert space.subspaces[..i] == space.subspaces;
  }

  /** With unit multiplicities throughout, the total full dimension is the
      dimension of the space. */
  lemma {:induction false} TotalFullUnit<SL, L(!new)>(ss: seq<MultiSubspace<SL, L>>)
    requires forall k :: 0 <= k < |ss| ==> MultiValid(ss[k])
    requires forall k, i :: 0 <= k < |ss| && 0 <= i < |ss[k].ext.stateMultiplicities| ==> ss[k].ext.stateMultiplicities[i] == 1
    ensures TotalFull(ss) == TotalSize(ss)
  {
    if ss != [] {
      TotalFullUnit(ss[..|ss| - 1]);
      UnitMultiplicities(ss[|ss| - 1].ext.stateMultiplicities);
    }
  }
}
