/** Single-particle orbitals grouped by (species, l, j): OrbitalSubspaceLJPN
    and OrbitalSpaceLJPN.

    Within a subspace the state label is the radial quantum number n alone.
    As in OrbitalPN, j is held as 2j and weights are integers. */
module OrbitalLJPN {
  import opened Basis
  import opened SortedSets
  import opened OrbitalPN

  /** Subspace labels (species, l, j). */
  datatype LJPNLabels = LJPNLabels(species: OrbitalSpeciesPN, l: int, twoJ: int)

  /** The labels an orbital record belongs under. */
  function LabelsOf(o: OrbitalPNInfo): LJPNLabels
  {
    LJPNLabels(o.species, o.l, o.twoJ)
  }

  /** Twice the isospin projection of the subspace's species. */
  function TwiceTzOf(labels: LJPNLabels): int
  {
    TwiceTz(labels.species)
  }

  /** Parity grade g of the subspace: l mod 2. */
  function Grade(labels: LJPNLabels): int
  {
    labels.l % 2
  }

  /** Order of the label tuples in an ordered set: species, then l, then j. */
  predicate LJPNLess(a: LJPNLabels, b: LJPNLabels)
  {
    || SpeciesLess(a.species, b.species)
    || (a.species == b.species && (a.l < b.l || (a.l == b.l && a.twoJ < b.twoJ)))
  }

  lemma LJPNLessIsStrictOrder()
    ensures StrictOrder(LJPNLess)
  {
  }

  /** The fields OrbitalSubspaceLJPN adds to a subspace: per-state weights,
      the maximal weight and Nmax (-1 for a list-built subspace). */
  datatype OrbitalSubspaceLJPNData = OrbitalSubspaceLJPNData(weights: seq<int>, weightMax: int, nmax: int)

  type OrbitalSubspaceLJPN = Subspace<LJPNLabels, int, OrbitalSubspaceLJPNData>

  ghost predicate RadialValid(s: OrbitalSubspaceLJPN)
  {
    s.Valid() && |s.ext.weights| == s.Size()
  }

  /** OrbitalStateLJPN::OrbitalInfo for every state, in state order. */
  function SubspaceOrbitals(s: OrbitalSubspaceLJPN): (r: seq<OrbitalPNInfo>)
    requires RadialValid(s)
    ensures |r| == s.Size()
    ensures forall i :: 0 <= i < |r| ==> LabelsOf(r[i]) == s.labels
  {
    seq(s.Size(), i requires 0 <= i < s.Size() =>
      OrbitalPNInfo(s.labels.species, s.stateTable[i], s.labels.l, s.labels.twoJ, s.ext.weights[i]))
  }

  /** A state push as the constructors do it: the base push of n, then the
      weight appended to the weight table. */
  function PushRadial(s: OrbitalSubspaceLJPN, n: int, weight: int): (r: OrbitalSubspaceLJPN)
    requires RadialValid(s)
    ensures RadialValid(r) && r.labels == s.labels
    ensures r.stateTable == s.stateTable + [n] && r.ext == s.ext.(weights := s.ext.weights + [weight])
    ensures SubspaceOrbitals(r) == SubspaceOrbitals(s) + [OrbitalPNInfo(s.labels.species, n, s.labels.l, s.labels.twoJ, weight)]
  {
    var r := s.PushStateLabels(n);
    r.(ext := r.ext.(weights := r.ext.weights + [weight]))
  }

  /** OrbitalSubspaceLJPN::OrbitalInfo: the loop collecting the state records. */
  method SubspaceOrbitalInfo(s: OrbitalSubspaceLJPN) returns (orbitals: seq<OrbitalPNInfo>)
    requires RadialValid(s)
    ensures orbitals == SubspaceOrbitals(s)
    ensures forall i :: 0 <= i < |orbitals| ==>
      LabelsOf(orbitals[i]) == s.labels && orbitals[i].n == s.stateTable[i] && orbitals[i].weight == s.ext.weights[i]
  {
    orbitals := [];
    var i := 0;
    while i < s.Size()
      invariant i <= s.Size()
      invariant orbitals == SubspaceOrbitals(s)[..i]
    {
      orbitals := orbitals + [OrbitalPNInfo(s.labels.species, s.GetStateLabels(i), s.labels.l, s.labels.twoJ, s.ext.weights[i])];
      i := i + 1;
    }
  }

  ////////////////////////////////////////////////////////////////
  // Nmax-truncated radial enumeration
  ////////////////////////////////////////////////////////////////

  /** Number of radial states n >= 0 with 2n + l <= Nmax. */
  function RadialCount(l: int, Nmax: int): nat
  {
    if l > Nmax then 0 else (Nmax - l) / 2 + 1
  }

  /** n is below the count exactly when it is within the truncation. */
  lemma RadialCountSpec(l: int, Nmax: int, n: nat)
    ensures n < RadialCount(l, Nmax) <==> 2 * n + l <= Nmax
  {
    if l <= Nmax {
      var d := Nmax - l;
      assert d == 2 * (d / 2) + d % 2;
    }
  }

  /** States 0, 1, ..., count - 1: the label of each state is its index. */
  function RadialLabels(count: nat): seq<int>
  {
    seq(count, i => i)
  }

  /** Weight 2n + l of state n. */
  function RadialWeights(l: int, count: nat): seq<int>
  {
    seq(count, i => 2 * i + l)
  }

  /** The subspace the Nmax constructor builds for the given labels. */
  ghost predicate IsRadialSubspace(s: OrbitalSubspaceLJPN, Nmax: int)
  {
    && RadialValid(s)
    && s.stateTable == RadialLabels(RadialCount(s.labels.l, Nmax))
    && s.ext == OrbitalSubspaceLJPNData(RadialWeights(s.labels.l, RadialCount(s.labels.l, Nmax)), Nmax, Nmax)
  }

  /** OrbitalSubspaceLJPN(species, l, j, Nmax): n = 0, 1, ... while
      2n + l <= Nmax, weight 2n + l; weight_max and Nmax both Nmax. */
  method NewOrbitalSubspaceLJPN(species: OrbitalSpeciesPN, l: int, twoJ: int, Nmax: int) returns (s: OrbitalSubspaceLJPN)
    ensures s.labels == LJPNLabels(species, l, twoJ) && IsRadialSubspace(s, Nmax)
  {
    s := NewSubspace(LJPNLabels(species, l, twoJ), OrbitalSubspaceLJPNData([], Nmax, Nmax));
    var n := 0;
    while 2 * n + l <= Nmax
      invariant n <= RadialCount(l, Nmax)
      invariant RadialValid(s) && s.labels == LJPNLabels(species, l, twoJ)
      invariant s.stateTable == RadialLabels(n)
      invariant s.ext == OrbitalSubspaceLJPNData(RadialWeights(l, n), Nmax, Nmax)
      decreases RadialCount(l, Nmax) - n
    {
      RadialCountSpec(l, Nmax, n);
      assert RadialLabels(n + 1) == RadialLabels(n) + [n];
      assert RadialWeights(l, n + 1) == RadialWeights(l, n) + [2 * n + l];
      s := PushRadial(s, n, 2 * n + l);
      n := n + 1;
    }
    RadialCountSpec(l, Nmax, n);
  }

  /** In the Nmax subspace, state n holds label n with weight 2n + l, exactly
      for the n with 2n + l <= Nmax, and looking up label n gives back index n. */
  lemma RadialRoundTrip(s: OrbitalSubspaceLJPN, Nmax: int, n: nat)
    requires IsRadialSubspace(s, Nmax)
    ensures n < s.Size() <==> 2 * n + s.labels.l <= Nmax
    ensures n < s.Size() ==> s.GetStateLabels(n) == n && s.ext.weights[n] == 2 * n + s.labels.l
    ensures n < s.Size() ==> s.LookUpStateIndex(n) == Some(n)
    ensures n >= s.Size() ==> s.LookUpStateIndex(n) == None
  {
    RadialCountSpec(s.labels.l, Nmax, n);
    if n < s.Size() {
      LookUpRoundTrip(s, n);
    } else {
      assert n !in s.stateTable;
    }
  }

  ////////////////////////////////////////////////////////////////
  // list-driven subspace
  ////////////////////////////////////////////////////////////////

  /** Loop invariant of the list subspace constructor: the records with these
      labels seen so far, and their running max weight. */
  ghost predicate ListSubspaceSoFar(s: OrbitalSubspaceLJPN, labels: LJPNLabels, prefix: seq<OrbitalPNInfo>)
  {
    && RadialValid(s) && s.labels == labels && s.ext.nmax == -1
    && SubspaceOrbitals(s) == Filter(prefix, LabelsOf, labels)
    && s.ext.weightMax == MaxWeight(Filter(prefix, LabelsOf, labels))
  }

  lemma ListSubspaceStep(s: OrbitalSubspaceLJPN, labels: LJPNLabels, states: seq<OrbitalPNInfo>, i: nat)
    requires i < |states| && ListSubspaceSoFar(s, labels, states[..i])
    ensures LabelsOf(states[i]) != labels ==> ListSubspaceSoFar(s, labels, states[..i + 1])
    ensures LabelsOf(states[i]) == labels ==>
      var state := states[i];
      var t := PushRadial(s, state.n, state.weight);
      ListSubspaceSoFar(t.(ext := t.ext.(weightMax := if t.ext.weightMax < state.weight then state.weight else t.ext.weightMax)),
                        labels, states[..i + 1])
  {
    FilterPrefixStep(states, LabelsOf, labels, i);
    var state := states[i];
    if LabelsOf(state) == labels {
      assert OrbitalPNInfo(labels.species, state.n, labels.l, labels.twoJ, state.weight) == state;
      MaxWeightAppend(SubspaceOrbitals(s), state);
    }
  }

  /** OrbitalSubspaceLJPN(species, l, j, states): keeps n and the weight of
      every record with these labels, in input order; weight_max the running
      max from 0; Nmax -1. */
  method NewOrbitalSubspaceLJPNFromList(species: OrbitalSpeciesPN, l: int, twoJ: int, states: seq<OrbitalPNInfo>)
    returns (s: OrbitalSubspaceLJPN)
    ensures RadialValid(s) && s.labels == LJPNLabels(species, l, twoJ) && s.ext.nmax == -1
    ensures SubspaceOrbitals(s) == Filter(states, LabelsOf, LJPNLabels(species, l, twoJ))
    ensures s.ext.weightMax == MaxWeight(Filter(states, LabelsOf, LJPNLabels(species, l, twoJ)))
  {
    var labels := LJPNLabels(species, l, twoJ);
    s := NewSubspace(labels, OrbitalSubspaceLJPNData([], 0, -1));
    var i := 0;
    while i < |states|
      invariant i <= |states|
      invariant ListSubspaceSoFar(s, labels, states[..i])
    {
      ListSubspaceStep(s, labels, states, i);
      var state := states[i];
      if state.species == species && state.l == l && state.twoJ == twoJ {
        s := PushRadial(s, state.n, state.weight);
        s := s.(ext := s.ext.(weightMax := if s.ext.weightMax < state.weight then state.weight else s.ext.weightMax));
      }
      i := i + 1;
    }
    assert states[..i] == states;
  }

  ////////////////////////////////////////////////////////////////
  // space
  ////////////////////////////////////////////////////////////////

  /** OrbitalSpaceLJPN: the (species, l, j) subspaces together with
      weight_max and Nmax (-1 for a list-built space). */
  datatype OrbitalSpaceLJPN = OrbitalSpaceLJPN(
    base: Space<LJPNLabels, int, OrbitalSubspaceLJPNData>,
    weightMax: int,
    nmax: int)

  ghost predicate SpaceValid(sp: OrbitalSpaceLJPN)
  {
    sp.base.Valid() && forall i :: 0 <= i < |sp.base.subspaces| ==> RadialValid(sp.base.subspaces[i])
  }

  /** The subspaces flattened one after another. */
  function SpaceOrbitals(subspaces: seq<OrbitalSubspaceLJPN>): (r: seq<OrbitalPNInfo>)
    requires forall i :: 0 <= i < |subspaces| ==> RadialValid(subspaces[i])
    ensures |r| == TotalSize(subspaces)
  {
    if subspaces == [] then []
    else SpaceOrbitals(subspaces[..|subspaces| - 1]) + SubspaceOrbitals(subspaces[|subspaces| - 1])
  }

  lemma SpaceOrbitalsAppend(subspaces: seq<OrbitalSubspaceLJPN>, s: OrbitalSubspaceLJPN)
    requires forall i :: 0 <= i < |subspaces| ==> RadialValid(subspaces[i])
    requires RadialValid(s)
    ensures SpaceOrbitals(subspaces + [s]) == SpaceOrbitals(subspaces) + SubspaceOrbitals(s)
  {
    assert (subspaces + [s])[..|subspaces|] == subspaces;
  }

  /** OrbitalSpaceLJPN::OrbitalInfo: appends the subspaces' records in order. */
  method SpaceOrbitalInfo(sp: OrbitalSpaceLJPN) returns (orbitals: seq<OrbitalPNInfo>)
    requires SpaceValid(sp)
    ensures orbitals == SpaceOrbitals(sp.base.subspaces)
  {
    orbitals := [];
    var i := 0;
    while i < sp.base.Size()
      invariant i <= sp.base.Size()
      invariant orbitals == SpaceOrbitals(sp.base.subspaces[..i])
    {
      assert sp.base.subspaces[..i + 1][..i] == sp.base.subspaces[..i];
      var subspaceOrbitals := SubspaceOrbitalInfo(sp.base.GetSubspace(i));
      orbitals := orbitals + subspaceOrbitals;
      i := i + 1;
    }
    assert sp.base.subspaces[..i] == sp.base.subspaces;
  }

  ////////////////////////////////////////////////////////////////
  // Nmax-truncated space
  ////////////////////////////////////////////////////////////////

  /** The j loop for one l: 2j runs over 2l - 1 and 2l + 1, skipping negative
      values; these are the labels pushed before 2j reaches `twoJEnd`. */
  function JRun(species: OrbitalSpeciesPN, l: int, twoJEnd: int): seq<LJPNLabels>
    decreases twoJEnd - (2 * l - 1)
  {
    if twoJEnd <= 2 * l - 1 then []
    else JRun(species, l, twoJEnd - 2) + (if twoJEnd - 2 >= 0 then [LJPNLabels(species, l, twoJEnd - 2)] else [])
  }

  /** All labels of one l: the j loop run to completion. */
  function LBlock(species: OrbitalSpeciesPN, l: int): seq<LJPNLabels>
  {
    JRun(species, l, 2 * l + 3)
  }

  /** The l loop for one species: l = 0, ..., lEnd - 1. */
  function LRun(species: OrbitalSpeciesPN, lEnd: int): seq<LJPNLabels>
    decreases lEnd
  {
    if lEnd <= 0 then [] else LRun(species, lEnd - 1) + LBlock(species, lEnd - 1)
  }

  /** The species loop: each species with l = 0..Nmax. */
  function SpeciesRun(species: seq<OrbitalSpeciesPN>, Nmax: int): seq<LJPNLabels>
  {
    if species == [] then [] else SpeciesRun(species[..|species| - 1], Nmax) + LRun(species[|species| - 1], Nmax + 1)
  }

  /** Subspace labels of OrbitalSpaceLJPN(Nmax), in push order. */
  function OscillatorLJPNLabels(Nmax: int): seq<LJPNLabels>
  {
    SpeciesRun([Proton, Neutron], Nmax)
  }

  /** The labels of one l: (l, 2l - 1) when l >= 1, then (l, 2l + 1). */
  lemma LBlockShape(species: OrbitalSpeciesPN, l: int)
    requires l >= 0
    ensures LBlock(species, l) ==
      (if l >= 1 then [LJPNLabels(species, l, 2 * l - 1)] else []) + [LJPNLabels(species, l, 2 * l + 1)]
  {
    assert JRun(species, l, 2 * l - 1) == [];
    assert JRun(species, l, 2 * l + 1) == (if l >= 1 then [LJPNLabels(species, l, 2 * l - 1)] else []);
  }

  /** One species contributes 2 lEnd - 1 labels (one for l = 0, two for
      every other l). */
  lemma {:induction false} LRunLength(species: OrbitalSpeciesPN, lEnd: int)
    ensures |LRun(species, lEnd)| == if lEnd <= 0 then 0 else 2 * lEnd - 1
    decreases lEnd
  {
    if lEnd > 0 {
      LRunLength(species, lEnd - 1);
      LBlockShape(species, lEnd - 1);
    }
  }

  /** Labels pushed for one species: exactly 0 <= l < lEnd with
      2j = 2l +- 1 non-negative. */
  lemma {:induction false} LRunMembership(species: OrbitalSpeciesPN, lEnd: int, x: LJPNLabels)
    ensures x in LRun(species, lEnd) <==>
      x.species == species && 0 <= x.l < lEnd && x.twoJ >= 0 && (x.twoJ == 2 * x.l - 1 || x.twoJ == 2 * x.l + 1)
    decreases lEnd
  {
    if lEnd > 0 {
      var l := lEnd - 1;
      LRunMembership(species, l, x);
      LBlockShape(species, l);
      var prev, block := LRun(species, l), LBlock(species, l);
      assert LRun(species, lEnd) == prev + block;
      assert x in prev + block <==> x in prev || x in block;
    }
  }

  /** One species' labels are in ordered-set order. */
  lemma {:induction false} LRunSorted(species: OrbitalSpeciesPN, lEnd: int)
    ensures Sorted(LRun(species, lEnd), LJPNLess)
    decreases lEnd
  {
    if lEnd > 0 {
      var l := lEnd - 1;
      LRunSorted(species, l);
      LBlockShape(species, l);
      var prev, block := LRun(species, l), LBlock(species, l);
      forall i | 0 <= i < |prev| ensures prev[i].l < l && prev[i].species == species {
        LRunMembership(species, l, prev[i]);
      }
      var all := prev + block;
      assert LRun(species, lEnd) == all;
      forall i, j | 0 <= i < j < |all| ensures LJPNLess(all[i], all[j]) {
        if j < |prev| {
          assert all[i] == prev[i] && all[j] == prev[j];
        } else if i < |prev| {
          assert all[i] == prev[i] && all[j] == block[j - |prev|];
        } else {
          assert all[i] == block[i - |prev|] && all[j] == block[j - |prev|];
        }
      }
    }
  }

  /** The species loop runs protons, then neutrons. */
  lemma OscillatorLJPNLabelsSplit(Nmax: int)
    ensures OscillatorLJPNLabels(Nmax) == LRun(Proton, Nmax + 1) + LRun(Neutron, Nmax + 1)
  {
    assert [Proton, Neutron][..1] == [Proton];
    assert [Proton][..0] == [];
    assert SpeciesRun([Proton], Nmax) == SpeciesRun([], Nmax) + LRun(Proton, Nmax + 1);
  }

  /** OrbitalSpaceLJPN(Nmax) has 2 (2 Nmax + 1) subspaces for Nmax >= 0. */
  lemma OscillatorLJPNCount(Nmax: int)
    ensures |OscillatorLJPNLabels(Nmax)| == if Nmax < 0 then 0 else 2 * (2 * Nmax + 1)
  {
    OscillatorLJPNLabelsSplit(Nmax);
    LRunLength(Proton, Nmax + 1);
    LRunLength(Neutron, Nmax + 1);
  }

  /** OrbitalSpaceLJPN(Nmax) holds exactly the labels with 0 <= l <= Nmax and
      2j = 2l +- 1 >= 0, for both species. */
  lemma OscillatorLJPNMembership(Nmax: int, x: LJPNLabels)
    ensures x in OscillatorLJPNLabels(Nmax) <==>
      0 <= x.l <= Nmax && x.twoJ >= 0 && (x.twoJ == 2 * x.l - 1 || x.twoJ == 2 * x.l + 1)
  {
    OscillatorLJPNLabelsSplit(Nmax);
    LRunMembership(Proton, Nmax + 1, x);
    LRunMembership(Neutron, Nmax + 1, x);
    var p, n := LRun(Proton, Nmax + 1), LRun(Neutron, Nmax + 1);
    assert x in p + n <==> x in p || x in n;
  }

  /** OrbitalSpaceLJPN(Nmax) lists its subspaces in ordered-set order, hence
      without repetition. */
  lemma OscillatorLJPNSorted(Nmax: int)
    ensures Sorted(OscillatorLJPNLabels(Nmax), LJPNLess)
  {
    OscillatorLJPNLabelsSplit(Nmax);
    LRunSorted(Proton, Nmax + 1);
    LRunSorted(Neutron, Nmax + 1);
    var p, n := LRun(Proton, Nmax + 1), LRun(Neutron, Nmax + 1);
    var all := p + n;
    forall i, j | 0 <= i < j < |all| ensures LJPNLess(all[i], all[j]) {
      if j < |p| {
        assert all[i] == p[i] && all[j] == p[j];
      } else if i < |p| {
        LRunMembership(Proton, Nmax + 1, p[i]);
        LRunMembership(Neutron, Nmax + 1, n[j - |p|]);
        assert all[i] == p[i] && all[j] == n[j - |p|];
      } else {
        assert all[i] == n[i - |p|] && all[j] == n[j - |p|];
      }
    }
  }

  /** Loop invariant of the Nmax space constructor: the subspaces built so far
      carry the given labels and are all Nmax-truncated. */
  ghost predicate RadialSpaceSoFar(base: Space<LJPNLabels, int, OrbitalSubspaceLJPNData>, Nmax: int, labels: seq<LJPNLabels>)
  {
    && base.Valid() && base.SubspaceLabels() == labels
    && forall j :: 0 <= j < base.Size() ==> IsRadialSubspace(base.subspaces[j], Nmax)
  }

  /** One pass of the j loop: 2j = twoJ is pushed when it is not negative. */
  lemma RadialSpaceJStep(base: Space<LJPNLabels, int, OrbitalSubspaceLJPNData>, Nmax: int, prefix: seq<LJPNLabels>,
                         species: OrbitalSpeciesPN, l: int, twoJ: int, subspace: OrbitalSubspaceLJPN)
    requires twoJ >= 2 * l - 1
    requires RadialSpaceSoFar(base, Nmax, prefix + JRun(species, l, twoJ))
    requires subspace.labels == LJPNLabels(species, l, twoJ) && IsRadialSubspace(subspace, Nmax)
    ensures twoJ < 0 ==> RadialSpaceSoFar(base, Nmax, prefix + JRun(species, l, twoJ + 2))
    ensures twoJ >= 0 ==> RadialSpaceSoFar(base.PushSubspace(subspace), Nmax, prefix + JRun(species, l, twoJ + 2))
  {
    assert JRun(species, l, twoJ + 2) == JRun(species, l, twoJ) + (if twoJ >= 0 then [subspace.labels] else []);
    if twoJ >= 0 {
      var r := base.PushSubspace(subspace);
      assert prefix + JRun(species, l, twoJ + 2) == (prefix + JRun(species, l, twoJ)) + [subspace.labels];
      forall j | 0 <= j < r.Size() ensures IsRadialSubspace(r.subspaces[j], Nmax) {
        if j < base.Size() {
          assert r.subspaces[j] == base.subspaces[j];
        }
      }
    } else {
      assert JRun(species, l, twoJ) + [] == JRun(species, l, twoJ);
    }
  }

  /** The j loop of OrbitalSpaceLJPN(Nmax) for one (species, l): pushes the
      subspaces of 2j = 2l - 1 (skipped when negative) and 2j = 2l + 1. */
  method PushJSubspaces(base0: Space<LJPNLabels, int, OrbitalSubspaceLJPNData>, Nmax: int, ghost prefix: seq<LJPNLabels>,
                        species: OrbitalSpeciesPN, l: int)
    returns (base: Space<LJPNLabels, int, OrbitalSubspaceLJPNData>)
    requires l >= 0 && RadialSpaceSoFar(base0, Nmax, prefix)
    ensures RadialSpaceSoFar(base, Nmax, prefix + LBlock(species, l))
  {
    base := base0;
    var twoJ := 2 * l - 1;
    assert prefix + JRun(species, l, twoJ) == prefix;
    ghost var k := 0;
    while twoJ <= 2 * l + 1
      invariant 0 <= k <= 2 && twoJ == 2 * l - 1 + 2 * k
      invariant RadialSpaceSoFar(base, Nmax, prefix + JRun(species, l, twoJ))
      decreases 2 - k
    {
      var subspace := NewOrbitalSubspaceLJPN(species, l, twoJ, Nmax);
      RadialSpaceJStep(base, Nmax, prefix, species, l, twoJ, subspace);
      if twoJ >= 0 {
        base := base.PushSubspace(subspace);
      }
      twoJ := twoJ + 2;
      k := k + 1;
    }
  }

  lemma LRunAppend(prefix: seq<LJPNLabels>, species: OrbitalSpeciesPN, l: int)
    requires l >= 0
    ensures prefix + LRun(species, l + 1) == prefix + LRun(species, l) + LBlock(species, l)
  {
    assert LRun(species, l + 1) == LRun(species, l) + LBlock(species, l);
  }

  /** The l loop of OrbitalSpaceLJPN(Nmax) for one species: l = 0..Nmax. */
  method PushLSubspaces(base0: Space<LJPNLabels, int, OrbitalSubspaceLJPNData>, Nmax: int, ghost prefix: seq<LJPNLabels>,
                        species: OrbitalSpeciesPN)
    returns (base: Space<LJPNLabels, int, OrbitalSubspaceLJPNData>)
    requires RadialSpaceSoFar(base0, Nmax, prefix)
    ensures RadialSpaceSoFar(base, Nmax, prefix + LRun(species, Nmax + 1))
  {
    base := base0;
    var l := 0;
    assert prefix + LRun(species, 0) == prefix;
    while l <= Nmax
      invariant 0 <= l <= if Nmax < 0 then 0 else Nmax + 1
      invariant RadialSpaceSoFar(base, Nmax, prefix + LRun(species, l))
    {
      base := PushJSubspaces(base, Nmax, prefix + LRun(species, l), species, l);
      LRunAppend(prefix, species, l);
      l := l + 1;
    }
    assert LRun(species, l) == LRun(species, Nmax + 1);
  }

  /** OrbitalSpaceLJPN(Nmax): for protons then neutrons, l = 0..Nmax, and
      2j = 2l - 1 (skipped when negative) then 2l + 1, one Nmax-truncated
      subspace each; weight_max and Nmax both Nmax. */
  method NewOrbitalSpaceLJPN(Nmax: int) returns (sp: OrbitalSpaceLJPN)
    ensures SpaceValid(sp) && sp.weightMax == Nmax && sp.nmax == Nmax
    ensures sp.base.SubspaceLabels() == OscillatorLJPNLabels(Nmax)
    ensures forall i :: 0 <= i < sp.base.Size() ==> IsRadialSubspace(sp.base.subspaces[i], Nmax)
  {
    var speciesList := [Proton, Neutron];
    var base := NewSpace();
    var i := 0;
    while i < |speciesList|
      invariant i <= |speciesList|
      invariant RadialSpaceSoFar(base, Nmax, SpeciesRun(speciesList[..i], Nmax))
    {
      base := PushLSubspaces(base, Nmax, SpeciesRun(speciesList[..i], Nmax), speciesList[i]);
      assert speciesList[..i + 1][..i] == speciesList[..i];
      i := i + 1;
    }
    assert speciesList[..i] == speciesList;
    sp := OrbitalSpaceLJPN(base, Nmax, Nmax);
  }

  ////////////////////////////////////////////////////////////////
  // list-driven space
  ////////////////////////////////////////////////////////////////

  /** Subspace labels of the list constructor: the distinct (species, l, j)
      of the input in ordered-set order. */
  ghost predicate SortedLabelsOf(labels: seq<LJPNLabels>, states: seq<OrbitalPNInfo>)
  {
    && Sorted(labels, LJPNLess)
    && forall x :: x in labels <==> exists i :: 0 <= i < |states| && LabelsOf(states[i]) == x
  }

  /** The label-collection loop of the list constructor: inserts the labels
      of every record into an ordered set. */
  method CollectLabels(states: seq<OrbitalPNInfo>) returns (labelSet: seq<LJPNLabels>)
    ensures SortedLabelsOf(labelSet, states)
  {
    LJPNLessIsStrictOrder();
    labelSet := [];
    var i := 0;
    while i < |states|
      invariant i <= |states|
      invariant SortedLabelsOf(labelSet, states[..i])
    {
      assert states[..i + 1][..i] == states[..i];
      labelSet := Insert(labelSet, LJPNLabels(states[i].species, states[i].l, states[i].twoJ), LJPNLess);
      i := i + 1;
    }
    assert states[..i] == states;
  }

  /** Every subspace is the list-built subspace of its labels. */
  ghost predicate ListSubspaces(subspaces: seq<OrbitalSubspaceLJPN>, states: seq<OrbitalPNInfo>)
  {
    forall j :: 0 <= j < |subspaces| ==> ListSubspaceSoFar(subspaces[j], subspaces[j].labels, states)
  }

  lemma ListSubspacesAppend(subspaces: seq<OrbitalSubspaceLJPN>, s: OrbitalSubspaceLJPN, states: seq<OrbitalPNInfo>)
    requires ListSubspaces(subspaces, states) && ListSubspaceSoFar(s, s.labels, states)
    ensures ListSubspaces(subspaces + [s], states)
  {
    var t := subspaces + [s];
    forall j | 0 <= j < |t| ensures ListSubspaceSoFar(t[j], t[j].labels, states) {
      if j < |subspaces| {
        assert t[j] == subspaces[j];
      }
    }
  }

  /** w is the running max, from 0, of the subspaces' weight_max. */
  ghost predicate RunningMax(w: int, subspaces: seq<OrbitalSubspaceLJPN>)
  {
    && w >= 0
    && (forall j :: 0 <= j < |subspaces| ==> subspaces[j].ext.weightMax <= w)
    && (w == 0 || exists j :: 0 <= j < |subspaces| && subspaces[j].ext.weightMax == w)
  }

  lemma RunningMaxAppend(w: int, subspaces: seq<OrbitalSubspaceLJPN>, s: OrbitalSubspaceLJPN)
    requires RunningMax(w, subspaces)
    ensures RunningMax(if w < s.ext.weightMax then s.ext.weightMax else w, subspaces + [s])
  {
    var t := subspaces + [s];
    var v := if w < s.ext.weightMax then s.ext.weightMax else w;
    forall j | 0 <= j < |t| ensures t[j].ext.weightMax <= v {
      if j < |subspaces| {
        assert t[j] == subspaces[j];
      }
    }
    if v != 0 {
      if v == s.ext.weightMax {
        assert t[|subspaces|] == s;
      } else {
        var j :| 0 <= j < |subspaces| && subspaces[j].ext.weightMax == v;
        assert t[j] == subspaces[j];
      }
    }
  }

  /** Loop invariant of the list space constructor: one list-built subspace
      per label so far, their records grouped in label order, and the running
      max of their weight_max. */
  ghost predicate ListSpaceSoFar(base: Space<LJPNLabels, int, OrbitalSubspaceLJPNData>, weightMax: int,
                                 states: seq<OrbitalPNInfo>, labels: seq<LJPNLabels>)
  {
    && base.Valid() && base.SubspaceLabels() == labels
    && ListSubspaces(base.subspaces, states)
    && SpaceOrbitals(base.subspaces) == Grouped(states, LabelsOf, labels)
    && RunningMax(weightMax, base.subspaces)
  }

  lemma ListSpaceStep(base: Space<LJPNLabels, int, OrbitalSubspaceLJPNData>, weightMax: int,
                      states: seq<OrbitalPNInfo>, labels: seq<LJPNLabels>, subspace: OrbitalSubspaceLJPN)
    requires ListSpaceSoFar(base, weightMax, states, labels)
    requires ListSubspaceSoFar(subspace, subspace.labels, states)
    ensures ListSpaceSoFar(base.PushSubspace(subspace), if weightMax < subspace.ext.weightMax then subspace.ext.weightMax else weightMax,
                           states, labels + [subspace.labels])
  {
    SpaceOrbitalsAppend(base.subspaces, subspace);
    ListSubspacesAppend(base.subspaces, subspace, states);
    assert (labels + [subspace.labels])[..|labels|] == labels;
    RunningMaxAppend(weightMax, base.subspaces, subspace);
  }

  lemma ListSpaceDone(sp: OrbitalSpaceLJPN, states: seq<OrbitalPNInfo>, labels: seq<LJPNLabels>)
    requires ListSpaceSoFar(sp.base, sp.weightMax, states, labels) && SortedLabelsOf(labels, states)
    ensures SpaceValid(sp)
    ensures SortedLabelsOf(sp.base.SubspaceLabels(), states)
    ensures ListSubspaces(sp.base.subspaces, states)
    ensures SpaceOrbitals(sp.base.subspaces) == Grouped(states, LabelsOf, sp.base.SubspaceLabels())
    ensures RunningMax(sp.weightMax, sp.base.subspaces)
    ensures sp.weightMax == MaxWeight(states)
  {
    ListSpaceWeightMax(sp.base.subspaces, sp.weightMax, states, labels);
  }

  /** The running max of the list-built subspaces' weight_max is the max
      weight of all the input records: every record has its labels' subspace. */
  lemma ListSpaceWeightMax(subspaces: seq<OrbitalSubspaceLJPN>, w: int, states: seq<OrbitalPNInfo>, labels: seq<LJPNLabels>)
    requires |subspaces| == |labels| && forall j :: 0 <= j < |labels| ==> subspaces[j].labels == labels[j]
    requires ListSubspaces(subspaces, states) && RunningMax(w, subspaces)
    requires SortedLabelsOf(labels, states)
    ensures w == MaxWeight(states)
  {
    ListSpaceGroupsMax(subspaces, w, states, labels);
    forall i | 0 <= i < |states| ensures LabelsOf(states[i]) in labels {
    }
    GroupsMaxCovers(states, LabelsOf, labels);
  }

  lemma ListSpaceGroupsMax(subspaces: seq<OrbitalSubspaceLJPN>, w: int, states: seq<OrbitalPNInfo>, labels: seq<LJPNLabels>)
    requires |subspaces| == |labels| && forall j :: 0 <= j < |labels| ==> subspaces[j].labels == labels[j]
    requires ListSubspaces(subspaces, states) && RunningMax(w, subspaces)
    ensures w == GroupsMax(states, LabelsOf, labels)
  {
    var maxima := seq(|subspaces|, j requires 0 <= j < |subspaces| => subspaces[j].ext.weightMax);
    forall j | 0 <= j < |labels| ensures maxima[j] == MaxWeight(Filter(states, LabelsOf, labels[j])) {
      assert ListSubspaceSoFar(subspaces[j], subspaces[j].labels, states);
    }
    if w != 0 {
      var j :| 0 <= j < |subspaces| && subspaces[j].ext.weightMax == w;
      assert maxima[j] == w;
    }
    GroupsMaxOfMaxima(states, LabelsOf, labels, maxima, w);
  }

  /** OrbitalSpaceLJPN(states): one list-built subspace per distinct
      (species, l, j) in the input, in ordered-set order; weight_max the
      running max of the subspace maxima from 0; Nmax -1. */
  method NewOrbitalSpaceLJPNFromList(states: seq<OrbitalPNInfo>) returns (sp: OrbitalSpaceLJPN)
    ensures SpaceValid(sp) && sp.nmax == -1
    ensures SortedLabelsOf(sp.base.SubspaceLabels(), states)
    ensures ListSubspaces(sp.base.subspaces, states)
    ensures SpaceOrbitals(sp.base.subspaces) == Grouped(states, LabelsOf, sp.base.SubspaceLabels())
    ensures RunningMax(sp.weightMax, sp.base.subspaces)
    ensures sp.weightMax == MaxWeight(states)
  {
    var labelSet := CollectLabels(states);
    var base := NewSpace();
    var weightMax := 0;
    var k := 0;
    while k < |labelSet|
      invariant k <= |labelSet|
      invariant ListSpaceSoFar(base, weightMax, states, labelSet[..k])
    {
      var labels := labelSet[k];
      var subspace := NewOrbitalSubspaceLJPNFromList(labels.species, labels.l, labels.twoJ, states);
      ListSpaceStep(base, weightMax, states, labelSet[..k], subspace);
      PrefixSnoc(labelSet, k);
      base := base.PushSubspace(subspace);
      weightMax := if weightMax < subspace.ext.weightMax then subspace.ext.weightMax else weightMax;
      k := k + 1;
    }
    assert labelSet[..k] == labelSet;
    sp := OrbitalSpaceLJPN(base, weightMax, -1);
    ListSpaceDone(sp, states, labelSet);
  }

  /** The list-built space holds exactly the input records, regrouped by
      (species, l, j): its flattened records are a permutation of the input. */
  lemma ListSpacePermutation(states: seq<OrbitalPNInfo>, labels: seq<LJPNLabels>)
    requires SortedLabelsOf(labels, states)
    ensures multiset(Grouped(states, LabelsOf, labels)) == multiset(states)
  {
    LJPNLessIsStrictOrder();
    forall i, j | 0 <= i < j < |labels| ensures labels[i] != labels[j] {
      SortedDistinct(labels, LJPNLess, i, j);
    }
    forall i | 0 <= i < |states| ensures LabelsOf(states[i]) in labels {
    }
    GroupedPermutation(states, LabelsOf, labels);
  }
}
