/** Two-body states in jjJpn coupling over general proton and neutron orbitals.

    The header documents the labelling and the enumeration rules; the code
    that carries them out is not part of this model. The enumeration is
    therefore given here as a specification: a filter over pairs of orbital
    indices in lexicographic order for the states of a subspace, and a filter
    over (species, J, g) in lexicographic order for the subspaces of a space.
    The weight truncation test is a parameter. */
module JJJPNScheme {
  import opened Basis
  import opened SortedSets
  import opened PairEnumeration
  import opened OrbitalPN
  import opened OrbitalSectors

  ////////////////////////////////////////////////////////////////
  // WeightMax
  ////////////////////////////////////////////////////////////////

  /** Maximum one-body weights (indexed p, n) and two-body weights (indexed
      pp, nn, pn). */
  datatype WeightMax = WeightMax(oneBody: seq<int>, twoBody: seq<int>)

  predicate WeightMaxValid(w: WeightMax)
  {
    |w.oneBody| == 2 && |w.twoBody| == 3
  }

  /** Two-body species pp, nn, pn. */
  datatype TwoBodySpeciesPN = PP | NN | PN

  function SpeciesCode(species: OrbitalSpeciesPN): nat
  {
    match species
    case Proton => 0
    case Neutron => 1
  }

  function TwoBodySpeciesCode(species: TwoBodySpeciesPN): nat
  {
    match species
    case PP => 0
    case NN => 1
    case PN => 2
  }

  function OneBodyWeightMax(w: WeightMax, species: OrbitalSpeciesPN): int
    requires WeightMaxValid(w)
  {
    w.oneBody[SpeciesCode(species)]
  }

  function TwoBodyWeightMax(w: WeightMax, species: TwoBodySpeciesPN): int
    requires WeightMaxValid(w)
  {
    w.twoBody[TwoBodySpeciesCode(species)]
  }

  /** WeightMax(wp, wn, wpp, wnn, wpn): each argument becomes the limit of
      its own species. */
  function WeightMaxPN(wp: int, wn: int, wpp: int, wnn: int, wpn: int): (w: WeightMax)
    ensures WeightMaxValid(w)
    ensures OneBodyWeightMax(w, Proton) == wp && OneBodyWeightMax(w, Neutron) == wn
    ensures TwoBodyWeightMax(w, PP) == wpp && TwoBodyWeightMax(w, NN) == wnn && TwoBodyWeightMax(w, PN) == wpn
  {
    WeightMax([wp, wn], [wpp, wnn, wpn])
  }

  /** WeightMax(N1max, N2max): the oscillator truncation, the same limit for
      every one-body species and for every two-body species. */
  function WeightMaxOscillator(N1max: int, N2max: int): (w: WeightMax)
    ensures WeightMaxValid(w)
    ensures forall s: OrbitalSpeciesPN :: OneBodyWeightMax(w, s) == N1max
    ensures forall t: TwoBodySpeciesPN :: TwoBodyWeightMax(w, t) == N2max
  {
    WeightMax([N1max, N1max], [N2max, N2max, N2max])
  }

  /** The oscillator form is the five-argument form with equal limits. */
  lemma WeightMaxOscillatorIsUniform(N1max: int, N2max: int)
    ensures WeightMaxOscillator(N1max, N2max) == WeightMaxPN(N1max, N1max, N2max, N2max, N2max)
  {
  }

  ////////////////////////////////////////////////////////////////
  // species and labels
  ////////////////////////////////////////////////////////////////

  /** Orbital species of particle 1 and particle 2. */
  function Constituents(species: TwoBodySpeciesPN): (OrbitalSpeciesPN, OrbitalSpeciesPN)
  {
    match species
    case PP => (Proton, Proton)
    case NN => (Neutron, Neutron)
    case PN => (Proton, Neutron)
  }

  /** The Tz code of a two-body species (+1, -1, 0 for pp, nn, pn). */
  function TwoBodyTz(species: TwoBodySpeciesPN): int
  {
    match species
    case PP => 1
    case NN => -1
    case PN => 0
  }

  /** The Tz code is the sum of the constituents' Tz. */
  lemma TwoBodyTzIsSum(species: TwoBodySpeciesPN)
    ensures 2 * TwoBodyTz(species) == TwiceTz(Constituents(species).0) + TwiceTz(Constituents(species).1)
  {
  }

  /** pp and nn hold identical particles. */
  predicate Identical(species: TwoBodySpeciesPN)
  {
    species != PN
  }

  lemma IdenticalIffSameConstituents(species: TwoBodySpeciesPN)
    ensures Identical(species) <==> Constituents(species).0 == Constituents(species).1
  {
  }

  /** Subspace labels (species, J, g) and state labels (index1, index2). */
  type TwoBodySubspaceJJJPNLabels = (TwoBodySpeciesPN, int, int)
  type TwoBodyStateJJJPNLabels = (nat, nat)

  /** The field TwoBodySubspaceJJJPN adds to a subspace. */
  datatype TwoBodySubspaceData = TwoBodySubspaceData(weightMax: WeightMax)

  type TwoBodySubspaceJJJPN = Subspace<TwoBodySubspaceJJJPNLabels, TwoBodyStateJJJPNLabels, TwoBodySubspaceData>
  type TwoBodyStateJJJPN = State<TwoBodySubspaceJJJPNLabels, TwoBodyStateJJJPNLabels, TwoBodySubspaceData>

  function SubspaceSpecies(s: TwoBodySubspaceJJJPN): TwoBodySpeciesPN { s.labels.0 }
  function SubspaceJ(s: TwoBodySubspaceJJJPN): int { s.labels.1 }
  function SubspaceG(s: TwoBodySubspaceJJJPN): int { s.labels.2 }
  function SubspaceTz(s: TwoBodySubspaceJJJPN): int { TwoBodyTz(s.labels.0) }

  function Index1(state: TwoBodyStateJJJPN): nat
    requires state.Valid()
  {
    state.Labels().0
  }

  function Index2(state: TwoBodyStateJJJPN): nat
    requires state.Valid()
  {
    state.Labels().1
  }

  /** The accessors read back the labels a subspace was made with, and a
      state found by its labels (index1, index2) reads them back too. */
  lemma AccessorsRoundTrip(s: TwoBodySubspaceJJJPN, i1: nat, i2: nat)
    requires s.Valid() && s.ContainsState((i1, i2))
    ensures s.labels == (SubspaceSpecies(s), SubspaceJ(s), SubspaceG(s))
    ensures Index1(StateWith(s, (i1, i2))) == i1 && Index2(StateWith(s, (i1, i2))) == i2
  {
  }

  ////////////////////////////////////////////////////////////////
  // states of a subspace
  ////////////////////////////////////////////////////////////////

  /** The orbitals of each species, as their OrbitalInfo lists. */
  datatype OrbitalSets = OrbitalSets(protons: seq<OrbitalPNInfo>, neutrons: seq<OrbitalPNInfo>)
  {
    function Of(species: OrbitalSpeciesPN): seq<OrbitalPNInfo>
    {
      if species == Proton then protons else neutrons
    }
  }

  /** The truncation test on a pair of orbitals (not part of this model). */
  type WeightTest = (WeightMax, TwoBodySpeciesPN, OrbitalPNInfo, OrbitalPNInfo) -> bool

  /** Triangularity of (j1, j2, J), on 2j1 and 2j2. */
  predicate Triangle(twoJ1: int, twoJ2: int, J: int)
  {
    Abs(twoJ1 - twoJ2) <= 2 * J <= twoJ1 + twoJ2
  }

  /** The coupling conditions, which do not depend on the order of the orbitals:
      triangularity, parity g1 + g2 ~ g, and the truncation. */
  predicate Coupled(labels: TwoBodySubspaceJJJPNLabels, w: WeightMax, weightOk: WeightTest,
                    o1: OrbitalPNInfo, o2: OrbitalPNInfo)
  {
    && Triangle(o1.twoJ, o2.twoJ, labels.1)
    && (o1.l + o2.l - labels.2) % 2 == 0
    && weightOk(w, labels.0, o1, o2)
  }

  /** The documented state rule: coupling, and for pp/nn the canonical order
      index1 <= index2 with J even when index1 == index2. */
  predicate StateAllowed(labels: TwoBodySubspaceJJJPNLabels, w: WeightMax, weightOk: WeightTest,
                         o1: OrbitalPNInfo, o2: OrbitalPNInfo, index1: nat, index2: nat)
  {
    && (Identical(labels.0) ==> index1 <= index2)
    && Coupled(labels, w, weightOk, o1, o2)
    && (Identical(labels.0) && index1 == index2 ==> labels.1 % 2 == 0)
  }

  function StateAdmit(orbitals: OrbitalSets, labels: TwoBodySubspaceJJJPNLabels, w: WeightMax, weightOk: WeightTest): (nat, nat) -> bool
  {
    var o1, o2 := orbitals.Of(Constituents(labels.0).0), orbitals.Of(Constituents(labels.0).1);
    (i: nat, j: nat) => i < |o1| && j < |o2| && StateAllowed(labels, w, weightOk, o1[i], o2[j], i, j)
  }

  /** The states of a subspace: allowed (index1, index2), by increasing index1
      then index2. */
  function TwoBodyStates(orbitals: OrbitalSets, labels: TwoBodySubspaceJJJPNLabels, w: WeightMax, weightOk: WeightTest): seq<Pair>
  {
    LexPairs(|orbitals.Of(Constituents(labels.0).0)|, |orbitals.Of(Constituents(labels.0).1)|,
             StateAdmit(orbitals, labels, w, weightOk))
  }

  /** TwoBodySubspaceJJJPN(orbital_space, two_body_species, J, g, weight_max). */
  function NewTwoBodySubspaceJJJPN(orbitals: OrbitalSets, species: TwoBodySpeciesPN, J: int, g: int,
                                   w: WeightMax, weightOk: WeightTest): (s: TwoBodySubspaceJJJPN)
    ensures s.Valid() && s.labels == (species, J, g) && s.ext.weightMax == w
    ensures s.stateTable == TwoBodyStates(orbitals, (species, J, g), w, weightOk)
  {
    var s := NewSubspace((species, J, g), TwoBodySubspaceData(w)).PushAllStateLabels(TwoBodyStates(orbitals, (species, J, g), w, weightOk));
    assert [] + TwoBodyStates(orbitals, (species, J, g), w, weightOk) == TwoBodyStates(orbitals, (species, J, g), w, weightOk);
    s
  }

  /** A pair of orbital indices is a state iff both are in range and the
      state rule holds. */
  lemma TwoBodyStatesMembership(orbitals: OrbitalSets, labels: TwoBodySubspaceJJJPNLabels, w: WeightMax,
                                weightOk: WeightTest, p: Pair)
    ensures p in TwoBodyStates(orbitals, labels, w, weightOk)
            <==> && p.0 < |orbitals.Of(Constituents(labels.0).0)| && p.1 < |orbitals.Of(Constituents(labels.0).1)|
                 && StateAllowed(labels, w, weightOk, orbitals.Of(Constituents(labels.0).0)[p.0],
                                 orbitals.Of(Constituents(labels.0).1)[p.1], p.0, p.1)
  {
    var o1, o2 := orbitals.Of(Constituents(labels.0).0), orbitals.Of(Constituents(labels.0).1);
    LexPairsMembership(|o1|, |o2|, StateAdmit(orbitals, labels, w, weightOk), p);
  }

  /** States come in increasing (index1, index2) order, so every state's
      labels look up to its own index. */
  lemma TwoBodyStatesOrdered(orbitals: OrbitalSets, species: TwoBodySpeciesPN, J: int, g: int,
                             w: WeightMax, weightOk: WeightTest, index: nat)
    requires index < NewTwoBodySubspaceJJJPN(orbitals, species, J, g, w, weightOk).Size()
    ensures StrictlyIncreasing(NewTwoBodySubspaceJJJPN(orbitals, species, J, g, w, weightOk).stateTable)
    ensures var s := NewTwoBodySubspaceJJJPN(orbitals, species, J, g, w, weightOk);
            s.LookUpStateIndex(s.stateTable[index]) == Some(index)
  {
    var s := NewTwoBodySubspaceJJJPN(orbitals, species, J, g, w, weightOk);
    var o1, o2 := orbitals.Of(Constituents(species).0), orbitals.Of(Constituents(species).1);
    LexPairsIncreasing(|o1|, |o2|, StateAdmit(orbitals, (species, J, g), w, weightOk));
    FindDistinct(s.stateTable, s.lookup, index);
  }

  /** In a pp or nn subspace every state has index1 <= index2, and a state
      with index1 == index2 exists only for even J. */
  lemma IdenticalParticleStates(orbitals: OrbitalSets, labels: TwoBodySubspaceJJJPNLabels, w: WeightMax,
                                weightOk: WeightTest, p: Pair)
    requires Identical(labels.0) && p in TwoBodyStates(orbitals, labels, w, weightOk)
    ensures p.0 <= p.1
    ensures p.0 == p.1 ==> labels.1 % 2 == 0
  {
    TwoBodyStatesMembership(orbitals, labels, w, weightOk, p);
  }

  /** For identical particles and a truncation test symmetric in the two
      orbitals, of the two orderings (a, b) and (b, a) with a < b only (a, b)
      is kept, and it is kept exactly when the swapped orbitals (b, a) would
      couple: dropping (b, a) loses nothing. */
  lemma CanonicalOrderLosesNothing(orbitals: OrbitalSets, labels: TwoBodySubspaceJJJPNLabels, w: WeightMax,
                                   weightOk: WeightTest, a: nat, b: nat)
    requires Identical(labels.0)
    requires a < b < |orbitals.Of(Constituents(labels.0).0)|
    requires forall o1, o2 :: weightOk(w, labels.0, o1, o2) == weightOk(w, labels.0, o2, o1)
    ensures (b, a) !in TwoBodyStates(orbitals, labels, w, weightOk)
    ensures var o := orbitals.Of(Constituents(labels.0).0);
            (a, b) in TwoBodyStates(orbitals, labels, w, weightOk) <==> Coupled(labels, w, weightOk, o[b], o[a])
  {
    TwoBodyStatesMembership(orbitals, labels, w, weightOk, (a, b));
    TwoBodyStatesMembership(orbitals, labels, w, weightOk, (b, a));
    var o := orbitals.Of(Constituents(labels.0).0);
    assert Constituents(labels.0).0 == Constituents(labels.0).1;
    assert weightOk(w, labels.0, o[a], o[b]) == weightOk(w, labels.0, o[b], o[a]);
    assert (o[a].l + o[b].l - labels.2) == (o[b].l + o[a].l - labels.2);
  }

  ////////////////////////////////////////////////////////////////
  // subspaces of a space
  ////////////////////////////////////////////////////////////////

  /** kPN orders species {pp, nn, pn}; kTz orders them {pp, pn, nn}. */
  datatype TwoBodySpaceJJJPNOrdering = KPN | KTz

  function SpeciesRank(ordering: TwoBodySpaceJJJPNOrdering, species: TwoBodySpeciesPN): nat
  {
    match species
    case PP => 0
    case NN => if ordering == KPN then 1 else 2
    case PN => if ordering == KPN then 2 else 1
  }

  function SpeciesOrder(ordering: TwoBodySpaceJJJPNOrdering): (r: seq<TwoBodySpeciesPN>)
    ensures |r| == 3 && forall i :: 0 <= i < 3 ==> SpeciesRank(ordering, r[i]) == i
  {
    if ordering == KPN then [PP, NN, PN] else [PP, PN, NN]
  }

  /** Subspace order in a space: species by rank, then J, then g. */
  predicate SubspaceLess(ordering: TwoBodySpaceJJJPNOrdering, x: TwoBodySubspaceJJJPNLabels, y: TwoBodySubspaceJJJPNLabels)
  {
    || SpeciesRank(ordering, x.0) < SpeciesRank(ordering, y.0)
    || (x.0 == y.0 && (x.1 < y.1 || (x.1 == y.1 && x.2 < y.2)))
  }

  lemma SubspaceLessIsStrictOrder(ordering: TwoBodySpaceJJJPNOrdering)
    ensures StrictOrder((x, y) => SubspaceLess(ordering, x, y))
  {
    forall x: TwoBodySubspaceJJJPNLabels, y: TwoBodySubspaceJJJPNLabels
      ensures SpeciesRank(ordering, x.0) == SpeciesRank(ordering, y.0) ==> x.0 == y.0
    {
    }
  }

  /** The g = 0, 1 subspaces of one (species, J), kept when nonempty. */
  function GRun(species: TwoBodySpeciesPN, J: int, nonempty: TwoBodySubspaceJJJPNLabels -> bool): seq<TwoBodySubspaceJJJPNLabels>
  {
    (if nonempty((species, J, 0)) then [(species, J, 0)] else [])
    + (if nonempty((species, J, 1)) then [(species, J, 1)] else [])
  }

  /** The subspaces of one species with J < jEnd, by J then g. */
  function JRun(species: TwoBodySpeciesPN, jEnd: nat, nonempty: TwoBodySubspaceJJJPNLabels -> bool): seq<TwoBodySubspaceJJJPNLabels>
  {
    if jEnd == 0 then [] else JRun(species, jEnd - 1, nonempty) + GRun(species, jEnd - 1, nonempty)
  }

  /** The subspaces of the listed species, species by species, for J <= Jmax. */
  function SpeciesRun(order: seq<TwoBodySpeciesPN>, Jmax: int, nonempty: TwoBodySubspaceJJJPNLabels -> bool): seq<TwoBodySubspaceJJJPNLabels>
  {
    if order == [] then []
    else JRun(order[0], if Jmax < 0 then 0 else Jmax + 1, nonempty) + SpeciesRun(order[1..], Jmax, nonempty)
  }

  lemma GRunMembership(species: TwoBodySpeciesPN, J: int, nonempty: TwoBodySubspaceJJJPNLabels -> bool, x: TwoBodySubspaceJJJPNLabels)
    ensures x in GRun(species, J, nonempty) <==> x.0 == species && x.1 == J && (x.2 == 0 || x.2 == 1) && nonempty(x)
  {
  }

  lemma GRunOrdered(species: TwoBodySpeciesPN, J: int, nonempty: TwoBodySubspaceJJJPNLabels -> bool)
    ensures forall a, b :: 0 <= a < b < |GRun(species, J, nonempty)| ==> GRun(species, J, nonempty)[a].2 < GRun(species, J, nonempty)[b].2
  {
  }

  lemma {:induction false} JRunMembership(species: TwoBodySpeciesPN, jEnd: nat, nonempty: TwoBodySubspaceJJJPNLabels -> bool,
                                          x: TwoBodySubspaceJJJPNLabels)
    ensures x in JRun(species, jEnd, nonempty) <==> x.0 == species && 0 <= x.1 < jEnd && (x.2 == 0 || x.2 == 1) && nonempty(x)
  {
    if jEnd == 0 {
      assert JRun(species, jEnd, nonempty) == [];
    } else {
      var prefix, run := JRun(species, jEnd - 1, nonempty), GRun(species, jEnd - 1, nonempty);
      assert JRun(species, jEnd, nonempty) == prefix + run;
      JRunMembership(species, jEnd - 1, nonempty, x);
      GRunMembership(species, jEnd - 1, nonempty, x);
      assert x in prefix + run <==> x in prefix || x in run;
    }
  }

  /** Within one species, subspaces increase by J then g. */
  lemma {:induction false} JRunSorted(ordering: TwoBodySpaceJJJPNOrdering, species: TwoBodySpeciesPN, jEnd: nat,
                                      nonempty: TwoBodySubspaceJJJPNLabels -> bool)
    ensures Sorted(JRun(species, jEnd, nonempty), (x, y) => SubspaceLess(ordering, x, y))
  {
    if jEnd > 0 {
      JRunSorted(ordering, species, jEnd - 1, nonempty);
      var prefix, run := JRun(species, jEnd - 1, nonempty), GRun(species, jEnd - 1, nonempty);
      forall a | 0 <= a < |prefix| ensures prefix[a].0 == species && prefix[a].1 < jEnd - 1 {
        JRunMembership(species, jEnd - 1, nonempty, prefix[a]);
      }
      forall b | 0 <= b < |run| ensures run[b].0 == species && run[b].1 == jEnd - 1 {
        GRunMembership(species, jEnd - 1, nonempty, run[b]);
      }
      GRunOrdered(species, jEnd - 1, nonempty);
      var s := prefix + run;
      forall a, b | 0 <= a < b < |s| ensures SubspaceLess(ordering, s[a], s[b]) {
        if b < |prefix| {
          assert s[a] == prefix[a] && s[b] == prefix[b];
        } else if a >= |prefix| {
          assert s[a] == run[a - |prefix|] && s[b] == run[b - |prefix|];
        } else {
          assert s[a] == prefix[a] && s[b] == run[b - |prefix|];
        }
      }
    }
  }

  lemma {:induction false} SpeciesRunMembership(order: seq<TwoBodySpeciesPN>, Jmax: int,
                                                nonempty: TwoBodySubspaceJJJPNLabels -> bool, x: TwoBodySubspaceJJJPNLabels)
    ensures x in SpeciesRun(order, Jmax, nonempty) <==> x.0 in order && 0 <= x.1 <= Jmax && (x.2 == 0 || x.2 == 1) && nonempty(x)
    decreases |order|
  {
    if order != [] {
      SpeciesRunMembership(order[1..], Jmax, nonempty, x);
      JRunMembership(order[0], if Jmax < 0 then 0 else Jmax + 1, nonempty, x);
      assert x.0 in order <==> x.0 == order[0] || x.0 in order[1..] by {
        assert order == [order[0]] + order[1..];
      }
    }
  }

  /** Listed in increasing rank, the species give subspaces sorted by the
      space order. */
  lemma {:induction false} SpeciesRunSorted(ordering: TwoBodySpaceJJJPNOrdering, order: seq<TwoBodySpeciesPN>, Jmax: int,
                                            nonempty: TwoBodySubspaceJJJPNLabels -> bool)
    requires forall i, j :: 0 <= i < j < |order| ==> SpeciesRank(ordering, order[i]) < SpeciesRank(ordering, order[j])
    ensures Sorted(SpeciesRun(order, Jmax, nonempty), (x, y) => SubspaceLess(ordering, x, y))
    decreases |order|
  {
    if order != [] {
      var jEnd: nat := if Jmax < 0 then 0 else Jmax + 1;
      SpeciesRunSorted(ordering, order[1..], Jmax, nonempty);
      JRunSorted(ordering, order[0], jEnd, nonempty);
      var head, tail := JRun(order[0], jEnd, nonempty), SpeciesRun(order[1..], Jmax, nonempty);
      forall a | 0 <= a < |head| ensures head[a].0 == order[0] {
        JRunMembership(order[0], jEnd, nonempty, head[a]);
      }
      forall b | 0 <= b < |tail| ensures SpeciesRank(ordering, order[0]) < SpeciesRank(ordering, tail[b].0) {
        SpeciesRunMembership(order[1..], Jmax, nonempty, tail[b]);
        var k :| 0 <= k < |order[1..]| && order[1..][k] == tail[b].0;
        assert order[k + 1] == tail[b].0;
      }
      var s := head + tail;
      forall a, b | 0 <= a < b < |s| ensures SubspaceLess(ordering, s[a], s[b]) {
        if b < |head| {
          assert s[a] == head[a] && s[b] == head[b];
        } else if a >= |head| {
          assert s[a] == tail[a - |head|] && s[b] == tail[b - |head|];
        } else {
          assert s[a] == head[a] && s[b] == tail[b - |head|];
        }
      }
    }
  }

  /** The subspace labels of a space: species in the ordering's order, then
      J = 0..Jmax, then g = 0, 1, pruned to nonempty subspaces. */
  function SpaceLabels(ordering: TwoBodySpaceJJJPNOrdering, Jmax: int, nonempty: TwoBodySubspaceJJJPNLabels -> bool): seq<TwoBodySubspaceJJJPNLabels>
  {
    SpeciesRun(SpeciesOrder(ordering), Jmax, nonempty)
  }

  /** The space holds exactly the nonempty (species, J, g) with 0 <= J <= Jmax
      and g in {0, 1}, sorted by the ordering's species order, then J, then g. */
  lemma SpaceLabelsShape(ordering: TwoBodySpaceJJJPNOrdering, Jmax: int, nonempty: TwoBodySubspaceJJJPNLabels -> bool,
                         x: TwoBodySubspaceJJJPNLabels)
    ensures x in SpaceLabels(ordering, Jmax, nonempty) <==> 0 <= x.1 <= Jmax && (x.2 == 0 || x.2 == 1) && nonempty(x)
    ensures Sorted(SpaceLabels(ordering, Jmax, nonempty), (x, y) => SubspaceLess(ordering, x, y))
  {
    var order := SpeciesOrder(ordering);
    SpeciesRunMembership(order, Jmax, nonempty, x);
    assert x.0 in order by {
      assert order[SpeciesRank(ordering, x.0)] == x.0;
    }
    SpeciesRunSorted(ordering, order, Jmax, nonempty);
  }

  /** A nonempty subspace has J at most the largest 2j among the orbitals
      (triangularity: 2J <= 2j1 + 2j2), so once Jmax reaches that bound the
      space holds every nonempty (species, J, g) with J >= 0 and g in {0, 1}. */
  lemma NonemptySubspacesWithinJmax(ordering: TwoBodySpaceJJJPNOrdering, Jmax: int, orbitals: OrbitalSets,
                                    w: WeightMax, weightOk: WeightTest, x: TwoBodySubspaceJJJPNLabels)
    requires forall i :: 0 <= i < |orbitals.protons| ==> orbitals.protons[i].twoJ <= Jmax
    requires forall i :: 0 <= i < |orbitals.neutrons| ==> orbitals.neutrons[i].twoJ <= Jmax
    ensures NonemptySubspace(orbitals, w, weightOk)(x) ==> x.1 <= Jmax
    ensures x in SpaceLabels(ordering, Jmax, NonemptySubspace(orbitals, w, weightOk))
            <==> 0 <= x.1 && (x.2 == 0 || x.2 == 1) && NonemptySubspace(orbitals, w, weightOk)(x)
  {
    var states := TwoBodyStates(orbitals, x, w, weightOk);
    if |states| > 0 {
      var o1, o2 := orbitals.Of(Constituents(x.0).0), orbitals.Of(Constituents(x.0).1);
      TwoBodyStatesMembership(orbitals, x, w, weightOk, states[0]);
      assert Triangle(o1[states[0].0].twoJ, o2[states[0].1].twoJ, x.1);
    }
    SpaceLabelsShape(ordering, Jmax, NonemptySubspace(orbitals, w, weightOk), x);
  }

  /** The two orderings list the same subspaces; they differ only in putting
      pn before nn (kTz) or after it (kPN). */
  lemma OrderingsSameSubspaces(Jmax: int, nonempty: TwoBodySubspaceJJJPNLabels -> bool, x: TwoBodySubspaceJJJPNLabels)
    ensures x in SpaceLabels(KPN, Jmax, nonempty) <==> x in SpaceLabels(KTz, Jmax, nonempty)
    ensures SubspaceLess(KPN, (NN, 0, 0), (PN, 0, 0)) && SubspaceLess(KTz, (PN, 0, 0), (NN, 0, 0))
  {
    SpaceLabelsShape(KPN, Jmax, nonempty, x);
    SpaceLabelsShape(KTz, Jmax, nonempty, x);
  }

  /** TwoBodySpaceJJJPN: the subspaces together with weight_max and the ordering. */
  datatype TwoBodySpaceJJJPN = TwoBodySpaceJJJPN(
    base: Space<TwoBodySubspaceJJJPNLabels, TwoBodyStateJJJPNLabels, TwoBodySubspaceData>,
    weightMax: WeightMax,
    ordering: TwoBodySpaceJJJPNOrdering)

  function NonemptySubspace(orbitals: OrbitalSets, w: WeightMax, weightOk: WeightTest): TwoBodySubspaceJJJPNLabels -> bool
  {
    (x: TwoBodySubspaceJJJPNLabels) => |TwoBodyStates(orbitals, x, w, weightOk)| > 0
  }

  /** The subspace each label tuple stands for. */
  function SubspaceFor(orbitals: OrbitalSets, w: WeightMax, weightOk: WeightTest,
                       x: TwoBodySubspaceJJJPNLabels): TwoBodySubspaceJJJPN
  {
    NewTwoBodySubspaceJJJPN(orbitals, x.0, x.1, x.2, w, weightOk)
  }

  function SubspacesFor(orbitals: OrbitalSets, w: WeightMax, weightOk: WeightTest,
                        labels: seq<TwoBodySubspaceJJJPNLabels>): (r: seq<TwoBodySubspaceJJJPN>)
    ensures |r| == |labels|
  {
    seq(|labels|, i requires 0 <= i < |labels| => SubspaceFor(orbitals, w, weightOk, labels[i]))
  }

  lemma SubspacesForCons(orbitals: OrbitalSets, w: WeightMax, weightOk: WeightTest, labels: seq<TwoBodySubspaceJJJPNLabels>)
    requires labels != []
    ensures SubspacesFor(orbitals, w, weightOk, labels)
            == [SubspaceFor(orbitals, w, weightOk, labels[0])] + SubspacesFor(orbitals, w, weightOk, labels[1..])
  {
  }

  lemma AppendCons<T>(a: seq<T>, x: T, b: seq<T>, c: seq<T>)
    requires c == [x] + b
    ensures (a + [x]) + b == a + c
  {
  }

  function PushOne(base: Space<TwoBodySubspaceJJJPNLabels, TwoBodyStateJJJPNLabels, TwoBodySubspaceData>,
                   x: TwoBodySubspaceJJJPNLabels, orbitals: OrbitalSets, w: WeightMax, weightOk: WeightTest)
    : (r: Space<TwoBodySubspaceJJJPNLabels, TwoBodyStateJJJPNLabels, TwoBodySubspaceData>)
    requires base.Valid()
    ensures r.Valid() && r.subspaces == base.subspaces + [SubspaceFor(orbitals, w, weightOk, x)]
  {
    base.PushSubspace(SubspaceFor(orbitals, w, weightOk, x))
  }

  /** Pushes the subspaces with the given labels, in order. */
  function PushSubspaces(base: Space<TwoBodySubspaceJJJPNLabels, TwoBodyStateJJJPNLabels, TwoBodySubspaceData>,
                         labels: seq<TwoBodySubspaceJJJPNLabels>, orbitals: OrbitalSets, w: WeightMax, weightOk: WeightTest)
    : (r: Space<TwoBodySubspaceJJJPNLabels, TwoBodyStateJJJPNLabels, TwoBodySubspaceData>)
    requires base.Valid()
    ensures r.Valid() && r.subspaces == base.subspaces + SubspacesFor(orbitals, w, weightOk, labels)
    decreases |labels|
  {
    if labels == [] then base
    else
      var next := PushOne(base, labels[0], orbitals, w, weightOk);
      var r := PushSubspaces(next, labels[1..], orbitals, w, weightOk);
      SubspacesForCons(orbitals, w, weightOk, labels);
      AppendCons(base.subspaces, SubspaceFor(orbitals, w, weightOk, labels[0]),
                 SubspacesFor(orbitals, w, weightOk, labels[1..]), SubspacesFor(orbitals, w, weightOk, labels));
      r
  }

  /** TwoBodySpaceJJJPN(orbital_space, weight_max, ordering = kPN), with the
      J range of the enumeration given as Jmax. */
  function NewTwoBodySpaceJJJPN(orbitals: OrbitalSets, w: WeightMax, Jmax: int, weightOk: WeightTest,
                                ordering: TwoBodySpaceJJJPNOrdering := KPN): (sp: TwoBodySpaceJJJPN)
    ensures sp.base.Valid() && sp.weightMax == w && sp.ordering == ordering
    ensures sp.base.SubspaceLabels() == SpaceLabels(ordering, Jmax, NonemptySubspace(orbitals, w, weightOk))
    ensures sp.base.subspaces == SubspacesFor(orbitals, w, weightOk, sp.base.SubspaceLabels())
  {
    var labels := SpaceLabels(ordering, Jmax, NonemptySubspace(orbitals, w, weightOk));
    var base := PushSubspaces(NewSpace(), labels, orbitals, w, weightOk);
    assert [] + SubspacesFor(orbitals, w, weightOk, labels) == SubspacesFor(orbitals, w, weightOk, labels);
    assert base.SubspaceLabels() == labels;
    TwoBodySpaceJJJPN(base, w, ordering)
  }

  /** Every subspace of a space has at least one state, and each subspace's
      labels look up to its own index. */
  lemma SpaceSubspacesNonemptyAndIndexed(orbitals: OrbitalSets, w: WeightMax, Jmax: int, weightOk: WeightTest,
                                         ordering: TwoBodySpaceJJJPNOrdering, index: nat)
    requires index < NewTwoBodySpaceJJJPN(orbitals, w, Jmax, weightOk, ordering).base.Size()
    ensures var sp := NewTwoBodySpaceJJJPN(orbitals, w, Jmax, weightOk, ordering);
            sp.base.subspaces[index].Size() > 0
            && sp.base.LookUpSubspaceIndex(sp.base.subspaces[index].labels) == Some(index)
  {
    var sp := NewTwoBodySpaceJJJPN(orbitals, w, Jmax, weightOk, ordering);
    var ne := NonemptySubspace(orbitals, w, weightOk);
    var labels := sp.base.SubspaceLabels();
    var x := labels[index];
    assert x in labels;
    SpaceLabelsShape(ordering, Jmax, ne, x);
    SubspaceLessIsStrictOrder(ordering);
    forall i, j | 0 <= i < j < |labels| ensures labels[i] != labels[j] {
      SortedDistinct(labels, (x, y) => SubspaceLess(ordering, x, y), i, j);
    }
    FindDistinct(labels, sp.base.lookup, index);
  }

  /** The default ordering is kPN. */
  lemma DefaultOrderingIsPN(orbitals: OrbitalSets, w: WeightMax, Jmax: int, weightOk: WeightTest)
    ensures NewTwoBodySpaceJJJPN(orbitals, w, Jmax, weightOk).ordering == KPN
    ensures NewTwoBodySpaceJJJPN(orbitals, w, Jmax, weightOk) == NewTwoBodySpaceJJJPN(orbitals, w, Jmax, weightOk, KPN)
  {
  }

  ////////////////////////////////////////////////////////////////
  // sectors
  ////////////////////////////////////////////////////////////////

  /** TwoBodySectorsJJJPN: the sectors with the operator's J0, g0 and Tz0. */
  datatype TwoBodySectorsJJJPN = TwoBodySectorsJJJPN(
    base: Sectors<TwoBodySubspaceJJJPNLabels, TwoBodyStateJJJPNLabels, TwoBodySubspaceData>,
    J0: int, g0: int, Tz0: int)

  /** The pairs of a space admitted by the direction and an operator
      selection rule on the subspace labels (the rule is not part of this
      model). */
  function SectorAdmit(labels: seq<TwoBodySubspaceJJJPNLabels>, connected: (TwoBodySubspaceJJJPNLabels, TwoBodySubspaceJJJPNLabels) -> bool,
                       direction: SectorDirection): (nat, nat) -> bool
  {
    (i: nat, j: nat) => (direction == Both || i <= j) && i < |labels| && j < |labels| && connected(labels[i], labels[j])
  }

  function SectorKeysOf(labels: seq<TwoBodySubspaceJJJPNLabels>,
                        connected: (TwoBodySubspaceJJJPNLabels, TwoBodySubspaceJJJPNLabels) -> bool,
                        direction: SectorDirection): seq<SectorKey>
  {
    SectorKeys(LexPairs(|labels|, |labels|, SectorAdmit(labels, connected, direction)))
  }

  /** A key is enumerated iff it has multiplicity 1, names two subspaces of
      the space, passes the direction test and the selection rule. */
  lemma SectorKeysOfMembership(labels: seq<TwoBodySubspaceJJJPNLabels>,
                               connected: (TwoBodySubspaceJJJPNLabels, TwoBodySubspaceJJJPNLabels) -> bool,
                               direction: SectorDirection, key: SectorKey)
    ensures key in SectorKeysOf(labels, connected, direction) <==>
              && key.2 == DefaultMultiplicityIndex && key.0 < |labels| && key.1 < |labels|
              && (direction == Canonical ==> key.0 <= key.1)
              && connected(labels[key.0], labels[key.1])
  {
    var admit := SectorAdmit(labels, connected, direction);
    SectorKeysMembership(LexPairs(|labels|, |labels|, admit), key);
    LexPairsMembership(|labels|, |labels|, admit, (key.0, key.1));
  }

  /** TwoBodySectorsJJJPN(space, J0, g0, Tz0, sector_direction = kCanonical). */
  function NewTwoBodySectorsJJJPN(space: TwoBodySpaceJJJPN, J0: int, g0: int, Tz0: int,
                                  connected: (TwoBodySubspaceJJJPNLabels, TwoBodySubspaceJJJPNLabels) -> bool,
                                  direction: SectorDirection := Canonical): (r: TwoBodySectorsJJJPN)
    ensures r.J0 == J0 && r.g0 == g0 && r.Tz0 == Tz0
    ensures r.base.Valid() && r.base.braSpace == space.base && r.base.ketSpace == space.base
    ensures r.base.keys == SectorKeysOf(space.base.SubspaceLabels(), connected, direction)
  {
    var keys := SectorKeysOf(space.base.SubspaceLabels(), connected, direction);
    var s := NewSectors(space.base, space.base).PushAllSectors(keys);
    assert [] + keys == keys;
    TwoBodySectorsJJJPN(s, J0, g0, Tz0)
  }

  /** By default the sectors are canonical: every key is upper triangle. */
  lemma DefaultSectorsAreCanonical(space: TwoBodySpaceJJJPN, J0: int, g0: int, Tz0: int,
                                   connected: (TwoBodySubspaceJJJPNLabels, TwoBodySubspaceJJJPNLabels) -> bool, index: nat)
    requires index < NewTwoBodySectorsJJJPN(space, J0, g0, Tz0, connected).base.Size()
    ensures var keys := NewTwoBodySectorsJJJPN(space, J0, g0, Tz0, connected).base.keys;
            keys[index].0 <= keys[index].1
  {
    var keys := NewTwoBodySectorsJJJPN(space, J0, g0, Tz0, connected).base.keys;
    SectorKeysOfMembership(space.base.SubspaceLabels(), connected, Canonical, keys[index]);
  }
}
