/** Single-particle orbitals grouped by species: OrbitalSubspacePN and OrbitalSpacePN.

    Angular momenta j are half-integers and are held as 2j (`twoJ`); the
    isospin projection is held as 2 Tz. Orbital weights are integers here. */
module OrbitalPN {
  import opened Basis
  import opened SortedSets

  /** kP and kN, in that (enumeration) order. */
  datatype OrbitalSpeciesPN = Proton | Neutron

  /** Twice the isospin projection code: +1/2 for protons, -1/2 for neutrons. */
  function TwiceTz(species: OrbitalSpeciesPN): int
  {
    match species
    case Proton => 1
    case Neutron => -1
  }

  /** Order of species labels in an ordered set (kP before kN). */
  predicate SpeciesLess(a: OrbitalSpeciesPN, b: OrbitalSpeciesPN)
  {
    a.Proton? && b.Neutron?
  }

  lemma SpeciesLessIsStrictOrder()
    ensures StrictOrder(SpeciesLess)
  {
  }

  /** Flat record of one orbital: species, n, l, 2j and weight. */
  datatype OrbitalPNInfo = OrbitalPNInfo(species: OrbitalSpeciesPN, n: int, l: int, twoJ: int, weight: int)

  function SpeciesOf(o: OrbitalPNInfo): OrbitalSpeciesPN
  {
    o.species
  }

  /** State labels (n, l, j) of an orbital within its species subspace. */
  datatype NLJ = NLJ(n: int, l: int, twoJ: int)

  /** Oscillator quanta 2n + l of an orbital. */
  function Quanta(o: NLJ): int
  {
    2 * o.n + o.l
  }

  /** The fields OrbitalSubspacePN adds to a subspace: per-state weights, the
      maximal weight, the oscillator-like flag and Nmax (-1 when not
      oscillator-like). */
  datatype OrbitalSubspacePNData = OrbitalSubspacePNData(
    weights: seq<int>, weightMax: int, isOscillatorLike: bool, nmax: int)

  type OrbitalSubspacePN = Subspace<OrbitalSpeciesPN, NLJ, OrbitalSubspacePNData>

  ghost predicate OrbitalValid(s: OrbitalSubspacePN)
  {
    s.Valid() && |s.ext.weights| == s.Size()
  }

  /** OrbitalStatePN::OrbitalInfo: the flat record of state labels (n, l, j)
      in a subspace of the given species, with the given weight. */
  function Record(species: OrbitalSpeciesPN, nlj: NLJ, weight: int): OrbitalPNInfo
  {
    OrbitalPNInfo(species, nlj.n, nlj.l, nlj.twoJ, weight)
  }

  /** Records of a state table with its weights, in state order. */
  function Records(species: OrbitalSpeciesPN, ls: seq<NLJ>, ws: seq<int>): (r: seq<OrbitalPNInfo>)
    requires |ls| == |ws|
    ensures |r| == |ls|
  {
    seq(|ls|, i requires 0 <= i < |ls| => Record(species, ls[i], ws[i]))
  }

  lemma RecordsAppend(species: OrbitalSpeciesPN, ls: seq<NLJ>, ws: seq<int>, nlj: NLJ, w: int)
    requires |ls| == |ws|
    ensures Records(species, ls + [nlj], ws + [w]) == Records(species, ls, ws) + [Record(species, nlj, w)]
  {
  }

  /** The subspace flattened into orbital records, in state order. */
  function SubspaceOrbitals(s: OrbitalSubspacePN): (r: seq<OrbitalPNInfo>)
    requires OrbitalValid(s)
    ensures |r| == s.Size()
  {
    Records(s.labels, s.stateTable, s.ext.weights)
  }

  /** A state push as the constructors do it: the base push of the labels,
      then the weight appended to the weight table. */
  function PushOrbital(s: OrbitalSubspacePN, nlj: NLJ, weight: int): (r: OrbitalSubspacePN)
    requires OrbitalValid(s)
    ensures OrbitalValid(r) && r.labels == s.labels
    ensures r.stateTable == s.stateTable + [nlj] && r.ext == s.ext.(weights := s.ext.weights + [weight])
    ensures SubspaceOrbitals(r) == SubspaceOrbitals(s) + [Record(s.labels, nlj, weight)]
  {
    var r := s.PushStateLabels(nlj);
    RecordsAppend(s.labels, s.stateTable, s.ext.weights, nlj, weight);
    r.(ext := r.ext.(weights := r.ext.weights + [weight]))
  }

  /** OrbitalSubspacePN::OrbitalInfo: the loop collecting the state records. */
  method SubspaceOrbitalInfo(s: OrbitalSubspacePN) returns (orbitals: seq<OrbitalPNInfo>)
    requires OrbitalValid(s)
    ensures orbitals == SubspaceOrbitals(s)
    ensures forall i :: 0 <= i < |orbitals| ==>
      orbitals[i].species == s.labels && NLJ(orbitals[i].n, orbitals[i].l, orbitals[i].twoJ) == s.stateTable[i]
      && orbitals[i].weight == s.ext.weights[i]
  {
    orbitals := [];
    var i := 0;
    while i < s.Size()
      invariant i <= s.Size()
      invariant orbitals == SubspaceOrbitals(s)[..i]
    {
      orbitals := orbitals + [Record(s.labels, s.GetStateLabels(i), s.ext.weights[i])];
      i := i + 1;
    }
  }

  ////////////////////////////////////////////////////////////////
  // Nmax-truncated oscillator enumeration
  ////////////////////////////////////////////////////////////////

  /** The orbital with N oscillator quanta and angular momentum 2j = twoJ,
      with l and n recovered by the integer formulas
      l = (2j-1)/2 + (N + (2j-1)/2) mod 2 and n = (N - l)/2
      (all operands are non-negative, so the division rounds down). */
  function ShellOrbital(N: nat, twoJ: nat): NLJ
    requires twoJ >= 1
  {
    var l := (twoJ - 1) / 2 + (N + (twoJ - 1) / 2) % 2;
    NLJ((N - l) / 2, l, twoJ)
  }

  /** Shell N: 2j = 1, 3, ..., 2N+1, in that order. */
  function ShellLabels(N: nat): seq<NLJ>
  {
    seq(N + 1, k requires 0 <= k <= N => ShellOrbital(N, 2 * k + 1))
  }

  /** Weights of shell N: N for each of its N + 1 states. */
  function ShellWeights(N: nat): seq<int>
  {
    seq(N + 1, k => N)
  }

  /** States of the Nmax-truncated oscillator subspace: shells N = 0..Nmax. */
  function OscillatorLabels(Nmax: int): seq<NLJ>
    decreases Nmax + 1
  {
    if Nmax < 0 then [] else OscillatorLabels(Nmax - 1) + ShellLabels(Nmax)
  }

  /** Weights of the Nmax-truncated oscillator subspace: N for each state of shell N. */
  function OscillatorWeights(Nmax: int): seq<int>
    decreases Nmax + 1
  {
    if Nmax < 0 then [] else OscillatorWeights(Nmax - 1) + ShellWeights(Nmax)
  }

  /** The orbital records of the Nmax-truncated subspace of the given species. */
  function OscillatorOrbitals(species: OrbitalSpeciesPN, Nmax: int): seq<OrbitalPNInfo>
  {
    OscillatorLengths(Nmax);
    Records(species, OscillatorLabels(Nmax), OscillatorWeights(Nmax))
  }

  /** One weight per orbital; at least one orbital when Nmax >= 0. */
  lemma {:induction false} OscillatorLengths(Nmax: int)
    ensures |OscillatorWeights(Nmax)| == |OscillatorLabels(Nmax)|
    ensures Nmax >= 0 ==> |OscillatorLabels(Nmax)| > Nmax
    decreases Nmax + 1
  {
    if Nmax >= 0 {
      OscillatorLengths(Nmax - 1);
    }
  }

  /** Size: (Nmax+1)(Nmax+2)/2 orbitals, none for Nmax < 0. */
  lemma {:induction false} OscillatorSize(Nmax: int)
    ensures 2 * |OscillatorLabels(Nmax)| == if Nmax < 0 then 0 else (Nmax + 1) * (Nmax + 2)
    decreases Nmax + 1
  {
    if Nmax >= 0 {
      OscillatorSize(Nmax - 1);
    }
  }

  /** The oscillator relations of one orbital with weight w: 2n + l = w,
      n >= 0, l >= 0, l of the parity of w and 2j = 2l +- 1. */
  predicate OscillatorRelations(o: NLJ, w: int)
  {
    && Quanta(o) == w && o.n >= 0 && o.l >= 0 && (w - o.l) % 2 == 0
    && (o.twoJ == 2 * o.l + 1 || o.twoJ == 2 * o.l - 1)
  }

  /** Every orbital of shell N satisfies the oscillator relations with weight
      N, and the k-th one has 2j = 2k + 1. */
  lemma ShellOrbitalQuantumNumbers(N: nat, k: nat)
    requires k <= N
    ensures OscillatorRelations(ShellLabels(N)[k], N) && ShellLabels(N)[k].twoJ == 2 * k + 1
  {
    var l := (2 * k + 1 - 1) / 2 + (N + (2 * k + 1 - 1) / 2) % 2;
    assert (2 * k + 1 - 1) / 2 == k;
    if (N + k) % 2 == 0 {
      assert l == k && (N - k) % 2 == 0;
    } else {
      assert l == k + 1 && k < N && (N - (k + 1)) % 2 == 0;
    }
    assert ShellLabels(N)[k] == NLJ((N - l) / 2, l, 2 * k + 1);
  }

  /** Every orbital of the Nmax enumeration satisfies the oscillator relations
      with its weight, which is its number of quanta, 0 <= N <= Nmax. */
  lemma {:induction false} OscillatorQuantumNumbers(Nmax: int)
    ensures |OscillatorWeights(Nmax)| == |OscillatorLabels(Nmax)|
    ensures forall i :: 0 <= i < |OscillatorLabels(Nmax)| ==>
      OscillatorRelations(OscillatorLabels(Nmax)[i], OscillatorWeights(Nmax)[i])
    ensures forall i :: 0 <= i < |OscillatorWeights(Nmax)| ==> 0 <= OscillatorWeights(Nmax)[i] <= Nmax
    decreases Nmax + 1
  {
    OscillatorLengths(Nmax);
    if Nmax >= 0 {
      OscillatorQuantumNumbers(Nmax - 1);
      OscillatorLengths(Nmax - 1);
      var prev, prevW := OscillatorLabels(Nmax - 1), OscillatorWeights(Nmax - 1);
      var all, allW := OscillatorLabels(Nmax), OscillatorWeights(Nmax);
      forall i | 0 <= i < |all|
        ensures OscillatorRelations(all[i], allW[i]) && 0 <= allW[i] <= Nmax
      {
        if i < |prev| {
          assert all[i] == prev[i] && allW[i] == prevW[i];
          assert OscillatorRelations(prev[i], prevW[i]) && 0 <= prevW[i] <= Nmax - 1;
        } else {
          var k := i - |prev|;
          ShellOrbitalQuantumNumbers(Nmax, k);
          assert all[i] == ShellLabels(Nmax)[k];
          assert allW[i] == ShellWeights(Nmax)[k] == Nmax;
        }
      }
    }
  }

  /** Order of the Nmax enumeration: by quanta N, then by 2j. */
  predicate ShellOrderLess(a: NLJ, b: NLJ)
  {
    Quanta(a) < Quanta(b) || (Quanta(a) == Quanta(b) && a.twoJ < b.twoJ)
  }

  /** The Nmax enumeration is strictly increasing in (N, j); in particular its
      labels are pairwise distinct. */
  lemma {:induction false} OscillatorOrdered(Nmax: int)
    ensures forall i, j :: 0 <= i < j < |OscillatorLabels(Nmax)| ==>
      ShellOrderLess(OscillatorLabels(Nmax)[i], OscillatorLabels(Nmax)[j])
    ensures Distinct(OscillatorLabels(Nmax))
    decreases Nmax + 1
  {
    if Nmax >= 0 {
      OscillatorOrdered(Nmax - 1);
      OscillatorQuantumNumbers(Nmax - 1);
      var prev, all := OscillatorLabels(Nmax - 1), OscillatorLabels(Nmax);
      var shell := ShellLabels(Nmax);
      forall k | 0 <= k < |shell|
        ensures Quanta(shell[k]) == Nmax && shell[k].twoJ == 2 * k + 1
      {
        ShellOrbitalQuantumNumbers(Nmax, k);
      }
      forall i | 0 <= i < |prev|
        ensures Quanta(prev[i]) < Nmax
      {
        assert OscillatorRelations(prev[i], OscillatorWeights(Nmax - 1)[i]);
      }
      forall i, j | 0 <= i < j < |all|
        ensures ShellOrderLess(all[i], all[j])
      {
        if j < |prev| {
          assert all[i] == prev[i] && all[j] == prev[j];
        } else if i < |prev| {
          assert all[i] == prev[i] && all[j] == shell[j - |prev|];
        } else {
          assert all[i] == shell[i - |prev|] && all[j] == shell[j - |prev|];
        }
      }
    }
  }

  ////////////////////////////////////////////////////////////////
  // orbital subspace constructors
  ////////////////////////////////////////////////////////////////

  /** Largest weight among the records, and 0 when there is none larger
      (the running max starting from 0). */
  function MaxWeight(orbitals: seq<OrbitalPNInfo>): (r: int)
    ensures r >= 0
    ensures forall i :: 0 <= i < |orbitals| ==> orbitals[i].weight <= r
    ensures r == 0 || exists i :: 0 <= i < |orbitals| && orbitals[i].weight == r
  {
    if orbitals == [] then 0
    else
      var m, w := MaxWeight(orbitals[..|orbitals| - 1]), orbitals[|orbitals| - 1].weight;
      if m < w then w else m
  }

  lemma MaxWeightAppend(orbitals: seq<OrbitalPNInfo>, o: OrbitalPNInfo)
    ensures MaxWeight(orbitals + [o]) == if MaxWeight(orbitals) < o.weight then o.weight else MaxWeight(orbitals)
  {
    assert (orbitals + [o])[..|orbitals|] == orbitals;
  }

  /** OrbitalSubspacePN(species, Nmax): shells N = 0..Nmax, 2j = 1..2N+1 within
      each shell, weight N; flagged oscillator-like with this Nmax. */
  method NewOrbitalSubspacePN(species: OrbitalSpeciesPN, Nmax: int) returns (s: OrbitalSubspacePN)
    ensures OrbitalValid(s) && s.labels == species
    ensures s.stateTable == OscillatorLabels(Nmax)
    ensures s.ext == OrbitalSubspacePNData(OscillatorWeights(Nmax), Nmax, true, Nmax)
  {
    s := NewSubspace(species, OrbitalSubspacePNData([], Nmax, true, Nmax));
    var N := 0;
    while N <= Nmax
      invariant 0 <= N <= if Nmax < 0 then 0 else Nmax + 1
      invariant ShellsSoFar(s, species, Nmax, N, 0)
    {
      var twoJ := 1;
      ghost var k: nat := 0;
      while twoJ <= 2 * N + 1
        invariant twoJ == 2 * k + 1 && k <= N + 1
        invariant ShellsSoFar(s, species, Nmax, N, k)
      {
        var l := (twoJ - 1) / 2 + (N + (twoJ - 1) / 2) % 2;
        var n := (N - l) / 2;
        ShellPush(s, species, Nmax, N, k, twoJ, l, n);
        s := PushOrbital(s, NLJ(n, l, twoJ), N);
        twoJ := twoJ + 2;
        k := k + 1;
      }
      ShellDone(s, species, Nmax, N);
      N := N + 1;
    }
    assert OscillatorLabels(N - 1) == OscillatorLabels(Nmax) && OscillatorWeights(N - 1) == OscillatorWeights(Nmax);
  }

  /** Loop invariant of the Nmax subspace constructor: shells 0..N-1 and the
      first k states of shell N, with their weights. */
  ghost predicate ShellsSoFar(s: OrbitalSubspacePN, species: OrbitalSpeciesPN, Nmax: int, N: nat, k: nat)
  {
    && k <= N + 1
    && OrbitalValid(s) && s.labels == species
    && s.stateTable == OscillatorLabels(N - 1) + ShellLabels(N)[..k]
    && s.ext == OrbitalSubspacePNData(OscillatorWeights(N - 1) + ShellWeights(N)[..k], Nmax, true, Nmax)
  }

  /** One step of the inner loop: the k-th state of shell N is given by the
      integer formulas for l and n, and its push extends the prefix by one. */
  lemma ShellPush(s: OrbitalSubspacePN, species: OrbitalSpeciesPN, Nmax: int, N: nat, k: nat, twoJ: int, l: int, n: int)
    requires ShellsSoFar(s, species, Nmax, N, k) && k <= N && twoJ == 2 * k + 1
    requires l == (twoJ - 1) / 2 + (N + (twoJ - 1) / 2) % 2 && n == (N - l) / 2
    ensures ShellsSoFar(PushOrbital(s, NLJ(n, l, twoJ), N), species, Nmax, N, k + 1)
  {
    assert ShellLabels(N)[k] == ShellOrbital(N, twoJ);
    assert ShellLabels(N)[..k + 1] == ShellLabels(N)[..k] + [NLJ(n, l, twoJ)];
    assert ShellWeights(N)[..k + 1] == ShellWeights(N)[..k] + [N];
    var prefix, prefixW := OscillatorLabels(N - 1), OscillatorWeights(N - 1);
    assert prefix + ShellLabels(N)[..k + 1] == (prefix + ShellLabels(N)[..k]) + [NLJ(n, l, twoJ)];
    assert prefixW + ShellWeights(N)[..k + 1] == (prefixW + ShellWeights(N)[..k]) + [N];
  }

  /** End of a shell: the whole shell N is in, which is where shell N + 1 starts. */
  lemma ShellDone(s: OrbitalSubspacePN, species: OrbitalSpeciesPN, Nmax: int, N: nat)
    requires ShellsSoFar(s, species, Nmax, N, N + 1)
    ensures ShellsSoFar(s, species, Nmax, N + 1, 0)
  {
    assert ShellLabels(N)[..N + 1] == ShellLabels(N);
    assert ShellWeights(N)[..N + 1] == ShellWeights(N);
    assert OscillatorLabels(N) + ShellLabels(N + 1)[..0] == OscillatorLabels(N);
    assert OscillatorWeights(N) + ShellWeights(N + 1)[..0] == OscillatorWeights(N);
  }

  /** IsOscillatorLike_ as a condition on the flattened subspace: nonempty,
      non-negative maximal weight, and the same records as the Nmax = weight_max
      construction. */
  ghost predicate OscillatorLikeOrbitals(species: OrbitalSpeciesPN, orbitals: seq<OrbitalPNInfo>, weightMax: int)
  {
    |orbitals| > 0 && weightMax >= 0 && orbitals == OscillatorOrbitals(species, weightMax)
  }

  /** OrbitalSubspacePN::IsOscillatorLike_: compares against a reference
      subspace built by the Nmax constructor. */
  method IsOscillatorLikeSubspace(s: OrbitalSubspacePN) returns (b: bool)
    requires OrbitalValid(s)
    ensures b == OscillatorLikeOrbitals(s.labels, SubspaceOrbitals(s), s.ext.weightMax)
  {
    if s.Size() == 0 {
      return false;
    }
    var nmax := s.ext.weightMax;
    if nmax < 0 {
      return false;
    }
    var reference := NewOrbitalSubspacePN(s.labels, nmax);
    var referenceOrbitals := SubspaceOrbitalInfo(reference);
    var orbitals := SubspaceOrbitalInfo(s);
    OscillatorSize(nmax);
    assert referenceOrbitals == OscillatorOrbitals(s.labels, nmax);
    b := referenceOrbitals == orbitals;
  }

  /** OrbitalSubspacePN(species, states): keeps the records of this species in
      input order with their weights, weight_max the running max from 0, then
      sets the oscillator-like flag and Nmax (-1 when not oscillator-like). */
  method NewOrbitalSubspacePNFromList(species: OrbitalSpeciesPN, states: seq<OrbitalPNInfo>) returns (s: OrbitalSubspacePN)
    ensures OrbitalValid(s) && s.labels == species
    ensures SubspaceOrbitals(s) == Filter(states, SpeciesOf, species)
    ensures s.ext.weightMax == MaxWeight(Filter(states, SpeciesOf, species))
    ensures s.ext.isOscillatorLike == OscillatorLikeOrbitals(species, SubspaceOrbitals(s), s.ext.weightMax)
    ensures s.ext.nmax == if s.ext.isOscillatorLike then s.ext.weightMax else -1
  {
    s := NewSubspace(species, OrbitalSubspacePNData([], 0, false, -1));
    var i := 0;
    while i < |states|
      invariant i <= |states|
      invariant ListSubspaceSoFar(s, species, states[..i])
    {
      ListSubspaceStep(s, species, states, i);
      var state := states[i];
      if state.species == species {
        s := PushOrbital(s, NLJ(state.n, state.l, state.twoJ), state.weight);
        s := s.(ext := s.ext.(weightMax := if s.ext.weightMax < state.weight then state.weight else s.ext.weightMax));
      }
      i := i + 1;
    }
    assert states[..i] == states;
    var oscillatorLike := IsOscillatorLikeSubspace(s);
    s := s.(ext := s.ext.(isOscillatorLike := oscillatorLike, nmax := if oscillatorLike then s.ext.weightMax else -1));
  }

  /** Loop invariant of the list subspace constructor: the records of the
      species seen so far, and their running max weight. */
  ghost predicate ListSubspaceSoFar(s: OrbitalSubspacePN, species: OrbitalSpeciesPN, prefix: seq<OrbitalPNInfo>)
  {
    && OrbitalValid(s) && s.labels == species
    && SubspaceOrbitals(s) == Filter(prefix, SpeciesOf, species)
    && s.ext.weightMax == MaxWeight(Filter(prefix, SpeciesOf, species))
  }

  lemma ListSubspaceStep(s: OrbitalSubspacePN, species: OrbitalSpeciesPN, states: seq<OrbitalPNInfo>, i: nat)
    requires i < |states| && ListSubspaceSoFar(s, species, states[..i])
    ensures states[i].species != species ==> ListSubspaceSoFar(s, species, states[..i + 1])
    ensures states[i].species == species ==>
      var state := states[i];
      var t := PushOrbital(s, NLJ(state.n, state.l, state.twoJ), state.weight);
      ListSubspaceSoFar(t.(ext := t.ext.(weightMax := if t.ext.weightMax < state.weight then state.weight else t.ext.weightMax)),
                        species, states[..i + 1])
  {
    FilterPrefixStep(states, SpeciesOf, species, i);
    var state := states[i];
    if state.species == species {
      assert Record(species, NLJ(state.n, state.l, state.twoJ), state.weight) == state;
      MaxWeightAppend(SubspaceOrbitals(s), state);
    }
  }

  /** The records of the Nmax enumeration all have the given species, the
      largest weight Nmax, and there is at least one when Nmax >= 0. */
  lemma OscillatorOrbitalsShape(species: OrbitalSpeciesPN, Nmax: int)
    requires Nmax >= 0
    ensures |OscillatorOrbitals(species, Nmax)| > 0
    ensures Filter(OscillatorOrbitals(species, Nmax), SpeciesOf, species) == OscillatorOrbitals(species, Nmax)
    ensures MaxWeight(OscillatorOrbitals(species, Nmax)) == Nmax
  {
    var os, ws := OscillatorOrbitals(species, Nmax), OscillatorWeights(Nmax);
    OscillatorLengths(Nmax);
    OscillatorQuantumNumbers(Nmax);
    assert forall i :: 0 <= i < |os| ==> os[i].species == species;
    FilterSameKey(os, species);
    assert ws[|ws| - 1] == Nmax;
    forall i | 0 <= i < |os| ensures os[i].weight <= Nmax {
      assert os[i].weight == ws[i];
    }
    MaxWeightBounded(os, Nmax);
  }

  lemma MaxWeightBounded(os: seq<OrbitalPNInfo>, w: int)
    requires |os| > 0 && os[|os| - 1].weight == w && w >= 0
    requires forall i :: 0 <= i < |os| ==> os[i].weight <= w
    ensures MaxWeight(os) == w
  {
  }

  lemma {:induction false} FilterSameKey(os: seq<OrbitalPNInfo>, species: OrbitalSpeciesPN)
    requires forall i :: 0 <= i < |os| ==> os[i].species == species
    ensures Filter(os, SpeciesOf, species) == os
  {
    if os != [] {
      FilterSameKey(os[..|os| - 1], species);
      assert os == os[..|os| - 1] + [os[|os| - 1]];
    }
  }

  /** A list-built subspace is flagged oscillator-like exactly when its records
      are those of some Nmax >= 0 enumeration, and then its Nmax is that Nmax. */
  lemma OscillatorLikeIff(species: OrbitalSpeciesPN, states: seq<OrbitalPNInfo>)
    ensures var f := Filter(states, SpeciesOf, species);
      OscillatorLikeOrbitals(species, f, MaxWeight(f)) <==> exists Nmax :: Nmax >= 0 && f == OscillatorOrbitals(species, Nmax)
    ensures forall Nmax :: Nmax >= 0 && Filter(states, SpeciesOf, species) == OscillatorOrbitals(species, Nmax) ==>
      MaxWeight(Filter(states, SpeciesOf, species)) == Nmax
  {
    var f := Filter(states, SpeciesOf, species);
    forall Nmax | Nmax >= 0 && f == OscillatorOrbitals(species, Nmax)
      ensures MaxWeight(f) == Nmax && OscillatorLikeOrbitals(species, f, MaxWeight(f))
    {
      OscillatorOrbitalsShape(species, Nmax);
    }
  }

  /** The largest of the group max weights for the keys `keys`, 0 when none. */
  ghost function GroupsMax<K>(states: seq<OrbitalPNInfo>, key: OrbitalPNInfo -> K, keys: seq<K>): int
  {
    if keys == [] then 0
    else
      var m, g := GroupsMax(states, key, keys[..|keys| - 1]), MaxWeight(Filter(states, key, keys[|keys| - 1]));
      if m < g then g else m
  }

  /** The running max, from 0, of the per-group max weights is the max weight
      of all the records, when every record falls in one of the groups. */
  lemma GroupMaximaMax<K>(states: seq<OrbitalPNInfo>, key: OrbitalPNInfo -> K, keys: seq<K>, maxima: seq<int>, w: int)
    requires |maxima| == |keys|
    requires forall j {:trigger maxima[j]} :: 0 <= j < |keys| ==> maxima[j] == MaxWeight(Filter(states, key, keys[j]))
    requires forall i :: 0 <= i < |states| ==> key(states[i]) in keys
    requires w >= 0 && (forall j :: 0 <= j < |maxima| ==> maxima[j] <= w)
    requires w == 0 || exists j :: 0 <= j < |maxima| && maxima[j] == w
    ensures w == MaxWeight(states)
  {
    GroupsMaxOfMaxima(states, key, keys, maxima, w);
    GroupsMaxCovers(states, key, keys);
  }

  /** A running max of the group max weights is GroupsMax. */
  lemma GroupsMaxOfMaxima<K>(states: seq<OrbitalPNInfo>, key: OrbitalPNInfo -> K, keys: seq<K>, maxima: seq<int>, w: int)
    requires |maxima| == |keys|
    requires forall j {:trigger maxima[j]} :: 0 <= j < |keys| ==> maxima[j] == MaxWeight(Filter(states, key, keys[j]))
    requires w >= 0 && (forall j :: 0 <= j < |maxima| ==> maxima[j] <= w)
    requires w == 0 || exists j :: 0 <= j < |maxima| && maxima[j] == w
    ensures w == GroupsMax(states, key, keys)
  {
    GroupsMaxAttained(states, key, keys);
    if GroupsMax(states, key, keys) != 0 {
      var j :| 0 <= j < |keys| && GroupsMax(states, key, keys) == MaxWeight(Filter(states, key, keys[j]));
      assert maxima[j] <= w;
    }
    if w != 0 {
      var j :| 0 <= j < |maxima| && maxima[j] == w;
      GroupsMaxBound(states, key, keys, j);
    }
  }

  /** When every record falls in one of the groups, GroupsMax is the max weight. */
  lemma GroupsMaxCovers<K>(states: seq<OrbitalPNInfo>, key: OrbitalPNInfo -> K, keys: seq<K>)
    requires forall i :: 0 <= i < |states| ==> key(states[i]) in keys
    ensures GroupsMax(states, key, keys) == MaxWeight(states)
  {
    var m := MaxWeight(states);
    if m != 0 {
      var i :| 0 <= i < |states| && states[i].weight == m;
      var j :| 0 <= j < |keys| && keys[j] == key(states[i]);
      FilterMaxBounds(states, key, i);
      GroupsMaxBound(states, key, keys, j);
    }
    GroupsMaxBelow(states, key, keys);
  }

  /** Each group's max weight is at most GroupsMax. */
  lemma {:induction false} GroupsMaxBound<K>(states: seq<OrbitalPNInfo>, key: OrbitalPNInfo -> K, keys: seq<K>, j: nat)
    requires j < |keys|
    ensures MaxWeight(Filter(states, key, keys[j])) <= GroupsMax(states, key, keys)
  {
    if j < |keys| - 1 {
      GroupsMaxBound(states, key, keys[..|keys| - 1], j);
    }
  }

  /** GroupsMax is 0 or the max weight of one of the groups. */
  lemma {:induction false} GroupsMaxAttained<K>(states: seq<OrbitalPNInfo>, key: OrbitalPNInfo -> K, keys: seq<K>)
    ensures GroupsMax(states, key, keys) >= 0
    ensures GroupsMax(states, key, keys) == 0
            || exists j :: 0 <= j < |keys| && GroupsMax(states, key, keys) == MaxWeight(Filter(states, key, keys[j]))
  {
    if keys != [] {
      var p := keys[..|keys| - 1];
      GroupsMaxAttained(states, key, p);
      if GroupsMax(states, key, keys) != MaxWeight(Filter(states, key, keys[|keys| - 1])) && GroupsMax(states, key, keys) != 0 {
        var j :| 0 <= j < |p| && GroupsMax(states, key, p) == MaxWeight(Filter(states, key, p[j]));
        assert keys[j] == p[j];
      }
    }
  }

  /** GroupsMax never exceeds the max weight of all the records. */
  lemma {:induction false} GroupsMaxBelow<K>(states: seq<OrbitalPNInfo>, key: OrbitalPNInfo -> K, keys: seq<K>)
    ensures GroupsMax(states, key, keys) <= MaxWeight(states)
  {
    if keys != [] {
      GroupsMaxBelow(states, key, keys[..|keys| - 1]);
      GroupMaxAttained(states, key, keys[|keys| - 1]);
    }
  }

  /** A record's weight is at most the max weight of its group. */
  lemma FilterMaxBounds<K>(states: seq<OrbitalPNInfo>, key: OrbitalPNInfo -> K, i: nat)
    requires i < |states|
    ensures states[i].weight <= MaxWeight(Filter(states, key, key(states[i])))
  {
    var f := Filter(states, key, key(states[i]));
    FilterComplete(states, key, key(states[i]));
    var k :| 0 <= k < |f| && f[k] == states[i];
  }

  /** A group's max weight, when not 0, is the weight of some record. */
  lemma GroupMaxAttained<K>(states: seq<OrbitalPNInfo>, key: OrbitalPNInfo -> K, k: K)
    ensures MaxWeight(Filter(states, key, k)) <= MaxWeight(states)
  {
    var f := Filter(states, key, k);
    if MaxWeight(f) != 0 {
      var n :| 0 <= n < |f| && f[n].weight == MaxWeight(f);
      assert f[n] in states;
      var i :| 0 <= i < |states| && states[i] == f[n];
    }
  }

  ////////////////////////////////////////////////////////////////
  // orbital space
  ////////////////////////////////////////////////////////////////

  /** OrbitalSpacePN: the species subspaces together with weight_max, the
      oscillator-like flag and Nmax (-1 when not oscillator-like). */
  datatype OrbitalSpacePN = OrbitalSpacePN(
    base: Space<OrbitalSpeciesPN, NLJ, OrbitalSubspacePNData>,
    weightMax: int,
    isOscillatorLike: bool,
    nmax: int)

  ghost predicate SpaceValid(sp: OrbitalSpacePN)
  {
    sp.base.Valid() && forall i :: 0 <= i < |sp.base.subspaces| ==> OrbitalValid(sp.base.subspaces[i])
  }

  /** The subspaces flattened one after another. */
  function SpaceOrbitals(subspaces: seq<OrbitalSubspacePN>): (r: seq<OrbitalPNInfo>)
    requires forall i :: 0 <= i < |subspaces| ==> OrbitalValid(subspaces[i])
    ensures |r| == TotalSize(subspaces)
  {
    if subspaces == [] then []
    else SpaceOrbitals(subspaces[..|subspaces| - 1]) + SubspaceOrbitals(subspaces[|subspaces| - 1])
  }

  /** OrbitalSpacePN::OrbitalInfo: appends the subspaces' records in order. */
  method SpaceOrbitalInfo(sp: OrbitalSpacePN) returns (orbitals: seq<OrbitalPNInfo>)
    requires SpaceValid(sp)
    ensures orbitals == SpaceOrbitals(sp.base.subspaces)
  {
    orbitals := [];
    var i := 0;
    while i < sp.base.Size()
      invariant i <= sp.base.Size()
      invariant orbitals == SpaceOrbitals(sp.base.subspaces[..i])
    {
      assert sp.base.subspaces[..i + 1][..i] == sp.base.subspaces[..i];
      var subspaceOrbitals := SubspaceOrbitalInfo(sp.base.GetSubspace(i));
      orbitals := orbitals + subspaceOrbitals;
      i := i + 1;
    }
    assert sp.base.subspaces[..i] == sp.base.subspaces;
  }

  /** The subspace the Nmax constructor builds for its species. */
  ghost predicate IsOscillatorSubspace(s: OrbitalSubspacePN, Nmax: int)
  {
    && OrbitalValid(s)
    && s.stateTable == OscillatorLabels(Nmax)
    && s.ext == OrbitalSubspacePNData(OscillatorWeights(Nmax), Nmax, true, Nmax)
  }

  lemma OscillatorSubspaceOrbitals(s: OrbitalSubspacePN, Nmax: int)
    requires IsOscillatorSubspace(s, Nmax)
    ensures SubspaceOrbitals(s) == OscillatorOrbitals(s.labels, Nmax)
  {
  }

  lemma SpaceOrbitalsPair(a: OrbitalSubspacePN, b: OrbitalSubspacePN)
    requires OrbitalValid(a) && OrbitalValid(b)
    ensures SpaceOrbitals([a, b]) == SubspaceOrbitals(a) + SubspaceOrbitals(b)
  {
    assert [a, b][..1] == [a];
    assert [a][..0] == [];
  }

  lemma PrefixSnoc<T>(s: seq<T>, k: nat)
    requires k < |s|
    ensures s[..k + 1] == s[..k] + [s[k]]
  {
  }

  /** Loop invariant of the Nmax space constructor: the subspaces built so far
      carry the given labels and are all Nmax-truncated. */
  ghost predicate OscillatorSpaceSoFar(base: Space<OrbitalSpeciesPN, NLJ, OrbitalSubspacePNData>, Nmax: int, labels: seq<OrbitalSpeciesPN>)
  {
    && base.Valid() && base.SubspaceLabels() == labels
    && forall j :: 0 <= j < base.Size() ==> IsOscillatorSubspace(base.subspaces[j], Nmax)
  }

  lemma OscillatorSpaceStep(base: Space<OrbitalSpeciesPN, NLJ, OrbitalSubspacePNData>, Nmax: int, labels: seq<OrbitalSpeciesPN>, subspace: OrbitalSubspacePN)
    requires OscillatorSpaceSoFar(base, Nmax, labels) && IsOscillatorSubspace(subspace, Nmax)
    ensures OscillatorSpaceSoFar(base.PushSubspace(subspace), Nmax, labels + [subspace.labels])
  {
    var r := base.PushSubspace(subspace);
    forall j | 0 <= j < r.Size() ensures IsOscillatorSubspace(r.subspaces[j], Nmax) {
      if j < base.Size() {
        assert r.subspaces[j] == base.subspaces[j];
      }
    }
  }

  /** The Nmax space once both subspaces are in: valid, with the proton shells
      and then the neutron shells. */
  lemma OscillatorSpaceDone(base: Space<OrbitalSpeciesPN, NLJ, OrbitalSubspacePNData>, Nmax: int)
    requires OscillatorSpaceSoFar(base, Nmax, [Proton, Neutron])
    ensures SpaceValid(OrbitalSpacePN(base, Nmax, true, Nmax))
    ensures forall i :: 0 <= i < base.Size() ==> IsOscillatorSubspace(base.subspaces[i], Nmax)
    ensures SpaceOrbitals(base.subspaces) == OscillatorOrbitals(Proton, Nmax) + OscillatorOrbitals(Neutron, Nmax)
  {
    var subs := base.subspaces;
    assert subs == [subs[0], subs[1]];
    SpaceOrbitalsPair(subs[0], subs[1]);
    OscillatorSubspaceOrbitals(subs[0], Nmax);
    OscillatorSubspaceOrbitals(subs[1], Nmax);
  }

  /** OrbitalSpacePN(Nmax): a proton and a neutron Nmax-truncated subspace, in
      that order; weight_max = Nmax, oscillator-like with this Nmax. */
  method NewOrbitalSpacePN(Nmax: int) returns (sp: OrbitalSpacePN)
    ensures SpaceValid(sp)
    ensures sp.weightMax == Nmax && sp.isOscillatorLike && sp.nmax == Nmax
    ensures sp.base.SubspaceLabels() == [Proton, Neutron]
    ensures forall i :: 0 <= i < sp.base.Size() ==> IsOscillatorSubspace(sp.base.subspaces[i], Nmax)
    ensures SpaceOrbitals(sp.base.subspaces) == OscillatorOrbitals(Proton, Nmax) + OscillatorOrbitals(Neutron, Nmax)
  {
    var speciesList := [Proton, Neutron];
    var base := NewSpace();
    var i := 0;
    while i < |speciesList|
      invariant i <= |speciesList|
      invariant OscillatorSpaceSoFar(base, Nmax, speciesList[..i])
    {
      var subspace := NewOrbitalSubspacePN(speciesList[i], Nmax);
      OscillatorSpaceStep(base, Nmax, speciesList[..i], subspace);
      PrefixSnoc(speciesList, i);
      base := base.PushSubspace(subspace);
      i := i + 1;
    }
    assert speciesList[..i] == speciesList;
    OscillatorSpaceDone(base, Nmax);
    sp := OrbitalSpacePN(base, Nmax, true, Nmax);
  }

  /** OrbitalSpacePN::IsOscillatorLike_ as a condition on the subspaces. */
  ghost predicate SpaceOscillatorLike(subspaces: seq<OrbitalSubspacePN>)
  {
    && |subspaces| >= 1
    && (forall i :: 0 <= i < |subspaces| ==> subspaces[i].ext.isOscillatorLike)
    && (forall i :: 0 <= i < |subspaces| ==> subspaces[i].ext.nmax == subspaces[0].ext.nmax)
  }

  /** OrbitalSpacePN::IsOscillatorLike_: at least one subspace, every subspace
      oscillator-like, all with the Nmax of the first. */
  method IsOscillatorLikeSpace(base: Space<OrbitalSpeciesPN, NLJ, OrbitalSubspacePNData>) returns (b: bool)
    ensures b == SpaceOscillatorLike(base.subspaces)
  {
    if base.Size() < 1 {
      return false;
    }
    var i := 0;
    while i < base.Size()
      invariant i <= base.Size()
      invariant forall j :: 0 <= j < i ==> base.subspaces[j].ext.isOscillatorLike
    {
      if !base.GetSubspace(i).ext.isOscillatorLike {
        return false;
      }
      i := i + 1;
    }
    var nmax := base.GetSubspace(0).ext.nmax;
    i := 1;
    while i < base.Size()
      invariant 1 <= i <= base.Size()
      invariant forall j :: 0 <= j < i ==> base.subspaces[j].ext.nmax == nmax
    {
      if base.GetSubspace(i).ext.nmax != nmax {
        return false;
      }
      i := i + 1;
    }
    return true;
  }

  /** Subspace labels of the list constructor: the distinct species of the
      input in ordered-set order. */
  ghost predicate SortedSpeciesOf(labels: seq<OrbitalSpeciesPN>, states: seq<OrbitalPNInfo>)
  {
    && Sorted(labels, SpeciesLess)
    && forall x :: x in labels <==> exists i :: 0 <= i < |states| && states[i].species == x
  }

  /** The label-collection loop of the list constructor: inserts the species
      of every record into an ordered set. */
  method CollectSpecies(states: seq<OrbitalPNInfo>) returns (labelSet: seq<OrbitalSpeciesPN>)
    ensures SortedSpeciesOf(labelSet, states)
  {
    SpeciesLessIsStrictOrder();
    labelSet := [];
    var i := 0;
    while i < |states|
      invariant i <= |states|
      invariant SortedSpeciesOf(labelSet, states[..i])
    {
      assert states[..i + 1][..i] == states[..i];
      labelSet := Insert(labelSet, states[i].species, SpeciesLess);
      i := i + 1;
    }
    assert states[..i] == states;
  }

  /** The subspace the list constructor builds for its species: the input
      records of that species, their max weight, the oscillator-like flag and
      Nmax (-1 when not oscillator-like). */
  ghost predicate ListBuilt(s: OrbitalSubspacePN, states: seq<OrbitalPNInfo>)
  {
    && OrbitalValid(s)
    && SubspaceOrbitals(s) == Filter(states, SpeciesOf, s.labels)
    && s.ext.weightMax == MaxWeight(Filter(states, SpeciesOf, s.labels))
    && s.ext.isOscillatorLike == OscillatorLikeOrbitals(s.labels, SubspaceOrbitals(s), s.ext.weightMax)
    && s.ext.nmax == if s.ext.isOscillatorLike then s.ext.weightMax else -1
  }

  /** Every subspace is the list-built subspace of its species. */
  ghost predicate ListSubspaces(subspaces: seq<OrbitalSubspacePN>, states: seq<OrbitalPNInfo>)
  {
    forall j :: 0 <= j < |subspaces| ==> ListBuilt(subspaces[j], states)
  }

  lemma ListSubspacesAppend(subspaces: seq<OrbitalSubspacePN>, s: OrbitalSubspacePN, states: seq<OrbitalPNInfo>)
    requires ListSubspaces(subspaces, states)
    requires ListBuilt(s, states)
    ensures ListSubspaces(subspaces + [s], states)
  {
    var t := subspaces + [s];
    forall j | 0 <= j < |t|
      ensures ListBuilt(t[j], states)
    {
      if j < |subspaces| {
        assert t[j] == subspaces[j];
      }
    }
  }

  /** w is the running max, from 0, of the subspaces' weight_max. */
  ghost predicate RunningMax(w: int, subspaces: seq<OrbitalSubspacePN>)
  {
    && w >= 0
    && (forall j :: 0 <= j < |subspaces| ==> subspaces[j].ext.weightMax <= w)
    && (w == 0 || exists j :: 0 <= j < |subspaces| && subspaces[j].ext.weightMax == w)
  }

  lemma RunningMaxAppend(w: int, subspaces: seq<OrbitalSubspacePN>, s: OrbitalSubspacePN)
    requires RunningMax(w, subspaces)
    ensures RunningMax(if w < s.ext.weightMax then s.ext.weightMax else w, subspaces + [s])
  {
    var t := subspaces + [s];
    var v := if w < s.ext.weightMax then s.ext.weightMax else w;
    forall j | 0 <= j < |t| ensures t[j].ext.weightMax <= v {
      if j < |subspaces| {
        assert t[j] == subspaces[j];
      }
    }
    if v != 0 {
      if v == s.ext.weightMax {
        assert t[|subspaces|] == s;
      } else {
        var j :| 0 <= j < |subspaces| && subspaces[j].ext.weightMax == v;
        assert t[j] == subspaces[j];
      }
    }
  }

  lemma SpaceOrbitalsAppend(subspaces: seq<OrbitalSubspacePN>, s: OrbitalSubspacePN)
    requires forall i :: 0 <= i < |subspaces| ==> OrbitalValid(subspaces[i])
    requires OrbitalValid(s)
    ensures SpaceOrbitals(subspaces + [s]) == SpaceOrbitals(subspaces) + SubspaceOrbitals(s)
  {
    assert (subspaces + [s])[..|subspaces|] == subspaces;
  }

  /** Loop invariant of the list space constructor: one list-built subspace
      per label so far, their records grouped in label order, and the running
      max of their weight_max. */
  ghost predicate ListSpaceSoFar(base: Space<OrbitalSpeciesPN, NLJ, OrbitalSubspacePNData>, weightMax: int, states: seq<OrbitalPNInfo>, labels: seq<OrbitalSpeciesPN>)
  {
    && base.Valid() && base.SubspaceLabels() == labels
    && ListSubspaces(base.subspaces, states)
    && SpaceOrbitals(base.subspaces) == Grouped(states, SpeciesOf, labels)
    && RunningMax(weightMax, base.subspaces)
  }

  lemma ListSpaceStep(base: Space<OrbitalSpeciesPN, NLJ, OrbitalSubspacePNData>, weightMax: int, states: seq<OrbitalPNInfo>, labels: seq<OrbitalSpeciesPN>, subspace: OrbitalSubspacePN)
    requires ListSpaceSoFar(base, weightMax, states, labels)
    requires ListBuilt(subspace, states)
    ensures ListSpaceSoFar(base.PushSubspace(subspace), if weightMax < subspace.ext.weightMax then subspace.ext.weightMax else weightMax,
                           states, labels + [subspace.labels])
  {
    SpaceOrbitalsAppend(base.subspaces, subspace);
    ListSubspacesAppend(base.subspaces, subspace, states);
    assert (labels + [subspace.labels])[..|labels|] == labels;
    RunningMaxAppend(weightMax, base.subspaces, subspace);
  }

  lemma ListSpaceDone(sp: OrbitalSpacePN, states: seq<OrbitalPNInfo>, labels: seq<OrbitalSpeciesPN>)
    requires ListSpaceSoFar(sp.base, sp.weightMax, states, labels) && SortedSpeciesOf(labels, states)
    ensures SpaceValid(sp)
    ensures SortedSpeciesOf(sp.base.SubspaceLabels(), states)
    ensures ListSubspaces(sp.base.subspaces, states)
    ensures SpaceOrbitals(sp.base.subspaces) == Grouped(states, SpeciesOf, sp.base.SubspaceLabels())
    ensures RunningMax(sp.weightMax, sp.base.subspaces)
    ensures sp.weightMax == MaxWeight(states)
  {
    ListSpaceWeightMax(sp.base.subspaces, sp.weightMax, states, labels);
  }

  /** The running max of the list-built subspaces' weight_max is the max
      weight of all the input records: every record has its species' subspace. */
  lemma ListSpaceWeightMax(subspaces: seq<OrbitalSubspacePN>, w: int, states: seq<OrbitalPNInfo>, labels: seq<OrbitalSpeciesPN>)
    requires |subspaces| == |labels| && forall j :: 0 <= j < |labels| ==> subspaces[j].labels == labels[j]
    requires ListSubspaces(subspaces, states) && RunningMax(w, subspaces)
    requires SortedSpeciesOf(labels, states)
    ensures w == MaxWeight(states)
  {
    ListSpaceGroupsMax(subspaces, w, states, labels);
    forall i | 0 <= i < |states| ensures SpeciesOf(states[i]) in labels {
    }
    GroupsMaxCovers(states, SpeciesOf, labels);
  }

  lemma ListSpaceGroupsMax(subspaces: seq<OrbitalSubspacePN>, w: int, states: seq<OrbitalPNInfo>, labels: seq<OrbitalSpeciesPN>)
    requires |subspaces| == |labels| && forall j :: 0 <= j < |labels| ==> subspaces[j].labels == labels[j]
    requires ListSubspaces(subspaces, states) && RunningMax(w, subspaces)
    ensures w == GroupsMax(states, SpeciesOf, labels)
  {
    var maxima := seq(|subspaces|, j requires 0 <= j < |subspaces| => subspaces[j].ext.weightMax);
    forall j | 0 <= j < |labels| ensures maxima[j] == MaxWeight(Filter(states, SpeciesOf, labels[j])) {
      assert ListBuilt(subspaces[j], states);
    }
    if w != 0 {
      var j :| 0 <= j < |subspaces| && subspaces[j].ext.weightMax == w;
      assert maxima[j] == w;
    }
    GroupsMaxOfMaxima(states, SpeciesOf, labels, maxima, w);
  }

  /** OrbitalSpacePN(states): one list-built subspace per distinct species in
      the input, in species order; weight_max the running max of the subspace
      maxima from 0; then the oscillator-like flag and Nmax. */
  method NewOrbitalSpacePNFromList(states: seq<OrbitalPNInfo>) returns (sp: OrbitalSpacePN)
    ensures SpaceValid(sp)
    ensures SortedSpeciesOf(sp.base.SubspaceLabels(), states)
    ensures ListSubspaces(sp.base.subspaces, states)
    ensures SpaceOrbitals(sp.base.subspaces) == Grouped(states, SpeciesOf, sp.base.SubspaceLabels())
    ensures RunningMax(sp.weightMax, sp.base.subspaces)
    ensures sp.weightMax == MaxWeight(states)
    ensures sp.isOscillatorLike == SpaceOscillatorLike(sp.base.subspaces)
    ensures sp.nmax == if sp.isOscillatorLike then sp.weightMax else -1
  {
    var labelSet := CollectSpecies(states);
    var base := NewSpace();
    var weightMax := 0;
    var k := 0;
    while k < |labelSet|
      invariant k <= |labelSet|
      invariant ListSpaceSoFar(base, weightMax, states, labelSet[..k])
    {
      var subspace := NewOrbitalSubspacePNFromList(labelSet[k], states);
      ListSpaceStep(base, weightMax, states, labelSet[..k], subspace);
      PrefixSnoc(labelSet, k);
      base := base.PushSubspace(subspace);
      weightMax := if weightMax < subspace.ext.weightMax then subspace.ext.weightMax else weightMax;
      k := k + 1;
    }
    assert labelSet[..k] == labelSet;
    var oscillatorLike := IsOscillatorLikeSpace(base);
    sp := OrbitalSpacePN(base, weightMax, oscillatorLike, if oscillatorLike then weightMax else -1);
    ListSpaceDone(sp, states, labelSet);
  }

  /** The list-built space holds exactly the input records, regrouped by
      species: its flattened records are a permutation of the input. */
  lemma ListSpacePermutation(states: seq<OrbitalPNInfo>, labels: seq<OrbitalSpeciesPN>)
    requires SortedSpeciesOf(labels, states)
    ensures multiset(Grouped(states, SpeciesOf, labels)) == multiset(states)
  {
    SpeciesLessIsStrictOrder();
    forall i, j | 0 <= i < j < |labels| ensures labels[i] != labels[j] {
      SortedDistinct(labels, SpeciesLess, i, j);
    }
    forall i | 0 <= i < |states| ensures SpeciesOf(states[i]) in labels {
    }
    GroupedPermutation(states, SpeciesOf, labels);
  }
}
