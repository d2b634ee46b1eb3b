# Basis indexing for nuclear many-body calculations: a Dafny model

This project models the indexing layer of the `basis` library. That layer
organises the states of a quantum many-body basis in three tiers:

- A **subspace** holds a table of state labels and a reverse lookup from
  labels to indices.
- A **space** holds a list of subspaces and a reverse lookup from subspace
  labels to subspace indices.
- A **sectors** object holds a list of (bra subspace, ket subspace,
  multiplicity) keys. These index the blocks of an operator's matrix.

On top of these generic containers the model covers the following:

- multi-subspaces, whose states carry a number of substates;
- single-particle orbitals in the PN scheme, where a subspace is one species
  (proton or neutron) and holds orbitals (n, l, j);
- orbitals in the LJPN scheme, where a subspace is one (species, l, j) and its
  states are the radial quantum numbers n;
- orbital sectors, unconstrained or constrained by l0max and Tz0;
- the two-body jjJpn scheme: subspaces labelled by (pp|nn|pn, J, g), states
  that are pairs of orbital indices, space orderings kPN and kTz, and sectors;
- the resolution of a radial matrix element's (sector, bra, ket) indices from
  full orbital labels, and the look-up of the element.

The model works on values. A subspace, space or sectors object is a
datatype. Each push operation is a function that returns the updated value.
Each constructor that enumerates with loops is a `method` whose `while`
loops carry the partially built value. Each method is proved against a
specification function: an oscillator shell list, a lexicographic pair
enumeration, or a grouping of an input orbital list. Lemmas then prove what
the library promises about that function. These include membership in both
directions, strict lexicographic order, counts such as n(n+1)/2 canonical
sectors, index/label round trips, and permutation of the input orbitals.

Conventions used throughout:

- `kNone` is `Option.None`.
- An angular momentum j is held as the integer 2j.
- An isospin projection Tz of one nucleon is held as 2Tz: protons +1,
  neutrons -1.
- The two-body species codes are pp, nn and pn, with Tz = +1, -1 and 0.
- The grade g of an LJPN subspace is l mod 2.

## Model

| member | source | states |
|---|---|---|
| Basis.Find | basis.h:231-246 | the reverse lookup misses exactly when the label is absent; on a hit, the index holds that label and is the last such index (a later push overwrites the map entry) |
| Basis.IndexedByPush | basis.h:264-271 | after a push, the map still resolves every label in the table to its last occurrence, and the new label to the old size |
| Basis.FindDistinct | basis.h:231-246 | when labels are distinct, looking up the label at index i yields i |
| Basis.Subspace.LookUpStateIndex | basis.h:231-246 | the result is kNone iff the label is not in the table; otherwise it is an in-range index holding that label, with no later index holding it |
| Basis.Subspace.ContainsState | basis.h:224-229 | true iff the label is in the table, iff LookUpStateIndex finds it |
| Basis.Subspace.PushStateLabels | basis.h:264-271 | the label is appended and the size grows by one; the new label resolves to the old size; every other label resolves as before; subspace labels and extra data are unchanged |
| Basis.Subspace.PushAllStateLabels | basis.h:264-271 | pushing a list of labels appends exactly that list and keeps the subspace valid |
| Basis.NewSubspace | basis.h:184 | a new subspace is valid and empty and carries the given labels |
| Basis.LookUpRoundTrip | basis.h:209-246 | in a subspace with distinct labels, index to label to index returns the index |
| Basis.LabelsRoundTrip | basis.h:209-246 | a label present in the table resolves to an index whose label is that label |
| Basis.StateAt | basis.h:333-338 | a state made from an index is valid, and its labels are the table entry at that index |
| Basis.StateWith | basis.h:340-355 | a state made from labels has those labels, and its index is the one LookUpStateIndex returns (the source asserts the lookup succeeds) |
| Basis.TotalSizeAppend | basis.h:567-575 | the summed dimension of two concatenated subspace lists is the sum of their dimensions |
| Basis.Space.ContainsSubspace | basis.h:508-513 | true iff some subspace carries the labels |
| Basis.Space.LookUpSubspaceIndex | basis.h:515-533 | the result is kNone iff no subspace has the labels; otherwise it is an in-range index of a subspace with those labels, with no later one having them |
| Basis.Space.LookUpSubspace | basis.h:535-548 | for labels that are present (the source asserts this), the subspace returned carries those labels and belongs to the space |
| Basis.Space.PushSubspace | basis.h:582-598 | the subspace is appended; its labels resolve to the old size; all other labels resolve as before |
| Basis.Space.Dimension | basis.h:567-575 | the loop returns the sum of the subspace sizes |
| Basis.NewSpace | basis.h:491-502 | a new space is valid and empty |
| Basis.DimensionAfterPush | basis.h:567-598 | pushing a subspace raises the dimension by its size and the subspace count by one |
| Basis.SectorShape | basis.h:675-703 | a sector is diagonal iff its bra and ket indices are equal, and upper-triangle iff bra <= ket; diagonal implies upper-triangle |
| Basis.Sectors.GetSector | basis.h:762-775 | the sector at an index has that key, and its bra and ket subspaces are the ones the key's indices name in the bra and ket spaces |
| Basis.Sectors.LookUpSectorIndex | basis.h:789-814 | the result is kNone iff the key is absent; otherwise it is an in-range index holding that key, with no later index holding it |
| Basis.Sectors.ContainsSector | basis.h:777-787 | true iff the (bra, ket, multiplicity) key is present, with multiplicity 1 by default |
| Basis.Sectors.PushSector | basis.h:840-857 | the key is appended; it resolves to the old size; every other key resolves as before; the spaces are unchanged |
| Basis.Sectors.PushAllSectors | basis.h:840-857 | pushing a list of keys appends exactly that list |
| Basis.NewSectors | basis.h:746-756 | new sectors are empty and valid over the given bra and ket spaces (the same space for the one-space form) |
| Basis.SectorRoundTrip | basis.h:762-814 | with distinct keys, the key at an index resolves back to that index, and GetSector reproduces the key |
| MultiBasis.NewMultiSubspace | multibasis.h:66 | a new multi-subspace is empty with full dimension 0 |
| MultiBasis.PushMultiStateLabels | multibasis.h:93-104 | the state is pushed; its offset is the old full dimension; its multiplicity is recorded; the full dimension grows by the multiplicity |
| MultiBasis.Offset | multibasis.h:174-177 | a state's offset is the sum of the multiplicities of the states before it |
| MultiBasis.PushedStateSubstates | multibasis.h:93-104 | after a push, the new state's multiplicity is the one pushed and its offset is the old full dimension; every earlier state keeps its multiplicity and offset |
| MultiBasis.SubstatesTile | multibasis.h:93-104 | each state's substates end where the next state's begin, and the last one ends at the full dimension |
| MultiBasis.UnitMultiplicities | multibasis.h:93-104 | with every multiplicity 1, the multiplicities sum to the number of states |
| MultiBasis.TotalFullDimension | multibasis.h:216-224 | the loop returns the sum of the subspaces' full dimensions |
| MultiBasis.TotalFullUnit | multibasis.h:216-224 | with unit multiplicities, the total full dimension equals the plain dimension |
| SortedSets.Insert | nlj_orbital.cpp:449-455 | inserting into a sorted label set keeps it sorted and adds exactly the new element |
| SortedSets.SortedUnique | nlj_orbital.cpp:449-458 | two sorted sequences with the same members are equal, so the collected set is unique |
| SortedSets.Filter | nlj_orbital.cpp:256-263 | the selected orbitals come from the input and all carry the requested key |
| SortedSets.FilterComplete | nlj_orbital.cpp:256-263 | every input orbital with the key is selected, and no orbital is selected more often than it occurs |
| SortedSets.GroupedPermutation | nlj_orbital.cpp:445-466 | grouping the input by a list of keys covering them all is a permutation of the input |
| PairEnumeration.RowMembership | nlj_orbital.cpp:835-848 | a pair is in row i of the double loop iff its first index is i, its second is in range, and it is admitted |
| PairEnumeration.RowIncreasing | nlj_orbital.cpp:835-848 | a row is strictly increasing |
| PairEnumeration.LexPairsMembership | nlj_orbital.cpp:835-848 | a pair is enumerated iff both indices are in range and it is admitted |
| PairEnumeration.LexPairsIncreasing | nlj_orbital.cpp:899-916 | the enumeration is strictly lexicographically increasing, so it has no duplicates |
| PairEnumeration.RowCount | nlj_orbital.cpp:835-848 | an unrestricted row has n entries; a canonical row i has n - i entries |
| PairEnumeration.AllPairsCount | nlj_orbital.cpp:903-916 | the all-to-all enumeration has nb * nk pairs |
| PairEnumeration.UpperPairsCountGeneral | nlj_orbital.cpp:831-850 | with bra <= ket, an n1-by-n2 enumeration has n1*n2 - n1(n1-1)/2 pairs |
| PairEnumeration.UpperPairsCount | nlj_orbital.cpp:831-850 | canonical sectors over n subspaces number n(n+1)/2 |
| OrbitalPN.SpeciesLessIsStrictOrder | nlj_orbital.cpp:448-458 | proton < neutron is a strict order, the order of the species set |
| OrbitalPN.PushOrbital | nlj_orbital.cpp:216-239 | pushing an orbital appends its (n, l, j) and weight, and appends its record to the subspace's orbital list |
| OrbitalPN.SubspaceOrbitalInfo | nlj_orbital.cpp:364-376 | the loop returns one record per state, with the subspace's species, the state's (n, l, j) and its weight |
| OrbitalPN.OscillatorSize | nlj_orbital.cpp:216-239 | the Nmax oscillator subspace has (Nmax+1)(Nmax+2)/2 orbitals |
| OrbitalPN.OscillatorQuantumNumbers | nlj_orbital.cpp:216-239 | each oscillator orbital's weight N satisfies 2n + l = N with n, l >= 0, l of the parity of N and j = l +- 1/2; every weight lies in 0..Nmax |
| OrbitalPN.OscillatorOrdered | nlj_orbital.cpp:216-239 | the oscillator orbitals are ordered by N and then by j, and are distinct |
| OrbitalPN.MaxWeight | nlj_orbital.cpp:254-262 | the running maximum bounds every weight and is attained (or is 0 for an empty list) |
| OrbitalPN.NewOrbitalSubspacePN | nlj_orbital.cpp:216-240 | the Nmax constructor's states are the oscillator shells 0..Nmax; weights are N; weight_max = Nmax; oscillator-like with nmax = Nmax |
| OrbitalPN.IsOscillatorLikeSubspace | nlj_orbital.cpp:280-303 | the loop answers exactly whether the subspace is nonempty, has weight_max >= 0 and holds the same orbitals as the Nmax = weight_max constructor |
| OrbitalPN.NewOrbitalSubspacePNFromList | nlj_orbital.cpp:248-274 | the subspace holds exactly the input orbitals of its species, in input order; weight_max is their maximum weight; the oscillator-like flag is computed; nmax is weight_max when oscillator-like and -1 otherwise |
| OrbitalPN.OscillatorLikeIff | nlj_orbital.cpp:280-303 | the species' orbitals pass the oscillator-like test iff they are exactly the oscillator orbitals for some Nmax >= 0, and that Nmax is their maximum weight |
| OrbitalPN.SpaceOrbitalInfo | nlj_orbital.cpp:551-571 | the loop returns the subspaces' orbital lists concatenated in subspace order |
| OrbitalPN.NewOrbitalSpacePN | nlj_orbital.cpp:424-438 | the Nmax space has subspaces [proton, neutron], each an Nmax oscillator subspace; its orbitals are the proton and then the neutron oscillator orbitals; oscillator-like with nmax = Nmax |
| OrbitalPN.IsOscillatorLikeSpace | nlj_orbital.cpp:483-509 | the loop answers exactly whether there is at least one subspace and every subspace is oscillator-like with the first one's nmax |
| OrbitalPN.CollectSpecies | nlj_orbital.cpp:448-455 | the collected species are sorted, distinct, and are exactly the species present in the input |
| OrbitalPN.NewOrbitalSpacePNFromList | nlj_orbital.cpp:445-476 | subspaces appear per present species in sorted order; each holds that species' orbitals in input order, with its own weight_max, oscillator-like flag and nmax computed from them; the space's weight_max is the running maximum over subspaces and equals the maximum weight of all input orbitals; the oscillator-like flag and nmax follow from the subspaces |
| OrbitalPN.ListSpacePermutation | nlj_orbital.cpp:445-476 | the space's orbitals are a permutation of the input list |
| OrbitalPN.ListSpaceWeightMax | nlj_orbital.cpp:458-465 | the running maximum of the list-built subspaces' weight_max is the maximum weight of all input orbitals, since every orbital lands in its species' subspace |
| OrbitalPN.GroupMaximaMax | nlj_orbital.cpp:458-465 | when every record falls in one of the groups, the running maximum from 0 of the per-group maximum weights is the maximum weight of all records |
| OrbitalLJPN.LJPNLessIsStrictOrder | nlj_orbital.cpp:747-758 | the lexicographic order on (species, l, j) is a strict order |
| OrbitalLJPN.SubspaceOrbitals | nlj_orbital.cpp:681-693 | one record per state, each carrying the subspace's (species, l, j) |
| OrbitalLJPN.PushRadial | nlj_orbital.cpp:594-601 | pushing n appends it and its weight, and appends its record to the orbital list |
| OrbitalLJPN.SubspaceOrbitalInfo | nlj_orbital.cpp:681-693 | the loop returns one record per state with the subspace's (species, l, j), the state's n and its weight |
| OrbitalLJPN.RadialCountSpec | nlj_orbital.cpp:587-601 | the number of radial states is the number of n >= 0 with 2n + l <= Nmax |
| OrbitalLJPN.NewOrbitalSubspaceLJPN | nlj_orbital.cpp:587-602 | the Nmax constructor's states are n = 0, 1, ... with 2n + l <= Nmax, with weights 2n + l, and weight_max = nmax = Nmax |
| OrbitalLJPN.RadialRoundTrip | nlj_orbital.cpp:587-602 | in an Nmax subspace, n is a state iff 2n + l <= Nmax; then its index is n and its weight 2n + l; otherwise the lookup misses |
| OrbitalLJPN.NewOrbitalSubspaceLJPNFromList | nlj_orbital.cpp:613-627 | the subspace holds exactly the input orbitals with its (species, l, j), in input order; weight_max is their maximum weight; nmax is -1 |
| OrbitalLJPN.SpaceOrbitals | nlj_orbital.cpp:802-822 | the space's orbital list has one entry per state of the space |
| OrbitalLJPN.SpaceOrbitalsAppend | nlj_orbital.cpp:802-822 | appending a subspace appends its orbitals |
| OrbitalLJPN.SpaceOrbitalInfo | nlj_orbital.cpp:802-822 | the loop returns the subspaces' orbital lists concatenated |
| OrbitalLJPN.LBlockShape | nlj_orbital.cpp:719-735 | for one l, the subspaces are j = l - 1/2 (only when l >= 1) and then j = l + 1/2 |
| OrbitalLJPN.LRunLength | nlj_orbital.cpp:719-735 | l = 0..L-1 gives 2L - 1 subspaces |
| OrbitalLJPN.LRunMembership | nlj_orbital.cpp:719-735 | (species, l, j) is enumerated iff 0 <= l < L and j = l +- 1/2 >= 0 |
| OrbitalLJPN.LRunSorted | nlj_orbital.cpp:719-735 | the enumeration is sorted by (species, l, j) |
| OrbitalLJPN.OscillatorLJPNLabelsSplit | nlj_orbital.cpp:719-735 | the Nmax space lists all proton subspaces and then all neutron subspaces |
| OrbitalLJPN.OscillatorLJPNCount | nlj_orbital.cpp:719-735 | the Nmax space has 2(2 Nmax + 1) subspaces |
| OrbitalLJPN.OscillatorLJPNMembership | nlj_orbital.cpp:719-735 | (species, l, j) is a subspace iff 0 <= l <= Nmax and j = l +- 1/2 >= 0 |
| OrbitalLJPN.OscillatorLJPNSorted | nlj_orbital.cpp:719-735 | the Nmax space's subspaces are sorted by (species, l, j) |
| OrbitalLJPN.PushJSubspaces | nlj_orbital.cpp:728-732 | the loop over j for one l pushes exactly that l's subspaces, each an Nmax radial subspace |
| OrbitalLJPN.PushLSubspaces | nlj_orbital.cpp:727-733 | the loop over l for one species pushes that species' subspaces for l = 0..Nmax |
| OrbitalLJPN.NewOrbitalSpaceLJPN | nlj_orbital.cpp:719-735 | the Nmax space has exactly the oscillator (species, l, j) subspaces in sorted order, each an Nmax radial subspace; weight_max = nmax = Nmax |
| OrbitalLJPN.CollectLabels | nlj_orbital.cpp:747-754 | the collected (species, l, j) labels are sorted, distinct, and are exactly those present in the input |
| OrbitalLJPN.NewOrbitalSpaceLJPNFromList | nlj_orbital.cpp:742-768 | subspaces appear per present (species, l, j) in sorted order; each holds its orbitals in input order, with its own weight_max; the space's weight_max is the running maximum over subspaces and equals the maximum weight of all input orbitals; nmax is -1 |
| OrbitalLJPN.ListSpacePermutation | nlj_orbital.cpp:742-768 | the space's orbitals are a permutation of the input list |
| OrbitalLJPN.ListSpaceWeightMax | nlj_orbital.cpp:757-766 | the running maximum of the list-built subspaces' weight_max is the maximum weight of all input orbitals, since every orbital lands in its (species, l, j) subspace |
| OrbitalSectors.ParityRule | nlj_orbital.cpp:868-884 | the source's parity test, written with C++ truncating remainder on l0max, holds iff l_bra + l0max + l_ket is even |
| OrbitalSectors.SectorKeysMembership | nlj_orbital.cpp:835-848 | a key is pushed iff its multiplicity is 1 and its (bra, ket) pair is enumerated |
| OrbitalSectors.SectorKeysDistinct | nlj_orbital.cpp:835-848 | the pushed keys are distinct and within the spaces' subspace ranges |
| OrbitalSectors.PushRow | nlj_orbital.cpp:836-848 | the inner loop pushes the keys of exactly the admitted pairs of one bra row, in order |
| OrbitalSectors.PushPairs | nlj_orbital.cpp:835-849 | the nested loops push exactly the keys of the admitted pairs, in lexicographic order |
| OrbitalSectors.NewOrbitalSectorsLJPN | nlj_orbital.cpp:831-850 | the keys are all pairs of the space's subspaces, restricted to bra <= ket for kCanonical, in lexicographic order; no l0max or Tz0 is set |
| OrbitalSectors.NewOrbitalSectorsLJPNConstrained | nlj_orbital.cpp:862-893 | the keys are the pairs, in the chosen direction, with |delta l| <= l0max, |delta j| <= l0max and the parity rule; Tz0 is stored but not applied |
| OrbitalSectors.NewOrbitalSectorsLJPNBetween | nlj_orbital.cpp:903-916 | the keys are all (bra, ket) pairs across the two spaces, in lexicographic order |
| OrbitalSectors.NewOrbitalSectorsLJPNBetweenConstrained | nlj_orbital.cpp:928-957 | the keys are the pairs across the two spaces with |delta l| <= l0max, |delta j| <= l0max, |delta Tz| <= Tz0 and the parity rule |
| OrbitalSectors.AllSectors | nlj_orbital.cpp:831-850 | a key is present iff both indices are in range (and bra <= ket for kCanonical); there are n*n sectors for kBoth and n(n+1)/2 for kCanonical |
| OrbitalSectors.AllSectorsBetween | nlj_orbital.cpp:903-916 | a key is present iff both indices are in range; there are nb*nk sectors |
| OrbitalSectors.OneSpaceSectors | nlj_orbital.cpp:862-893 | a key is present iff it is in range, respects the direction, and passes the l, j and parity rules |
| OrbitalSectors.TwoSpaceSectors | nlj_orbital.cpp:928-957 | a key is present iff it is in range and passes the l, j, Tz and parity rules |
| OrbitalSectors.OneSpaceIgnoresTz0 | nlj_orbital.cpp:862-893 | the two-space constrained enumeration over one space is the one-space kBoth enumeration further restricted by the Tz rule: the one-space form does not apply Tz0 |
| OrbitalSectors.CanonicalIsUpperTriangle | nlj_orbital.cpp:871-874 | every canonical constrained sector is upper-triangle |
| OrbitalSectors.EnumeratedSectorsRoundTrip | basis.h:762-814 | enumerated sectors resolve: each key looks up to its own index, and GetSector reproduces it |
| JJJPNScheme.WeightMaxPN | jjjpn_scheme.h:133-141 | the five-weight constructor sets the proton and neutron one-body limits and the pp, nn, pn two-body limits |
| JJJPNScheme.WeightMaxOscillator | jjjpn_scheme.h:143-152 | the (N1max, N2max) constructor gives every species the one-body limit N1max and the two-body limit N2max |
| JJJPNScheme.WeightMaxOscillatorIsUniform | jjjpn_scheme.h:133-152 | the oscillator truncation is the five-weight one with equal entries |
| JJJPNScheme.TwoBodyTzIsSum | jjjpn_scheme.h:69-73 | a two-body species' Tz is the sum of its constituents' Tz |
| JJJPNScheme.IdenticalIffSameConstituents | jjjpn_scheme.h:110-120 | pp and nn, and only they, are identical-particle species |
| JJJPNScheme.AccessorsRoundTrip | jjjpn_scheme.h:213-264 | subspace labels are (species, J, g), read back by the accessors; a state's index1 and index2 read back its labels |
| JJJPNScheme.NewTwoBodySubspaceJJJPN | jjjpn_scheme.h:205-210 | the subspace carries (species, J, g) and the truncation, and its states are the admitted orbital-index pairs in lexicographic order |
| JJJPNScheme.TwoBodyStatesMembership | jjjpn_scheme.h:99-120 | (index1, index2) is a state iff both index their species' orbitals and pass the rules: triangle on (j1, j2, J), l1 + l2 of parity g, the weight test, index1 <= index2 and even J when index1 = index2 for pp and nn |
| JJJPNScheme.TwoBodyStatesOrdered | jjjpn_scheme.h:99-104 | states are strictly increasing in (index1, index2), and each resolves back to its own index |
| JJJPNScheme.IdenticalParticleStates | jjjpn_scheme.h:105-120 | in pp and nn subspaces, every state has index1 <= index2, and a state with index1 = index2 has even J |
| JJJPNScheme.CanonicalOrderLosesNothing | jjjpn_scheme.h:113-120 | in pp and nn, with a symmetric weight test, the swapped pair is never a state, and (a, b) with a < b is kept iff (b, a) would couple |
| JJJPNScheme.SpeciesOrder | jjjpn_scheme.h:275-279 | kPN orders species {pp, nn, pn} and kTz orders them {pp, pn, nn} |
| JJJPNScheme.SubspaceLessIsStrictOrder | jjjpn_scheme.h:84-93 | the order on (species, J, g) under either species ordering is strict |
| JJJPNScheme.GRunMembership | jjjpn_scheme.h:84-93 | for one (species, J), the subspaces are the nonempty ones with g in {0, 1} |
| JJJPNScheme.GRunOrdered | jjjpn_scheme.h:84-93 | for one (species, J), g increases |
| JJJPNScheme.JRunMembership | jjjpn_scheme.h:84-93 | for one species, the subspaces are the nonempty (J, g) with 0 <= J < the bound and g in {0, 1} |
| JJJPNScheme.JRunSorted | jjjpn_scheme.h:84-93 | for one species, subspaces increase in (J, g) |
| JJJPNScheme.SpeciesRunMembership | jjjpn_scheme.h:84-93 | across species, a subspace is listed iff its species is listed and it is nonempty with J in range and g in {0, 1} |
| JJJPNScheme.SpeciesRunSorted | jjjpn_scheme.h:84-93 | across species, subspaces follow the ordering's species order, then J, then g |
| JJJPNScheme.SpaceLabelsShape | jjjpn_scheme.h:84-93 | the space's subspace labels are exactly the nonempty (species, J, g) with 0 <= J <= Jmax and g in {0, 1}, sorted by the ordering |
| JJJPNScheme.NonemptySubspacesWithinJmax | jjjpn_scheme.h:84-105 | when every orbital has 2j <= Jmax, no nonempty subspace has J > Jmax (triangularity), so the space holds every nonempty (species, J, g) with J >= 0 and g in {0, 1} |
| JJJPNScheme.OrderingsSameSubspaces | jjjpn_scheme.h:275-279 | kPN and kTz give the same subspaces and differ only in placing nn before or after pn |
| JJJPNScheme.SubspacesFor | jjjpn_scheme.h:295-300 | one subspace is built per label |
| JJJPNScheme.PushSubspaces | jjjpn_scheme.h:295-300 | pushing labels appends exactly their subspaces and keeps the space valid |
| JJJPNScheme.NewTwoBodySpaceJJJPN | jjjpn_scheme.h:295-300 | the space's subspaces are those of SpaceLabels for the ordering, each built by the subspace constructor; truncation and ordering are stored |
| JJJPNScheme.SpaceSubspacesNonemptyAndIndexed | jjjpn_scheme.h:91 | every subspace of the space is nonempty and resolves back to its own index |
| JJJPNScheme.DefaultOrderingIsPN | jjjpn_scheme.h:295-299 | the default ordering is kPN |
| JJJPNScheme.SectorKeysOfMembership | jjjpn_scheme.h:339-346 | a sector key is present iff it is in range, respects the direction and the subspaces are connected |
| JJJPNScheme.NewTwoBodySectorsJJJPN | jjjpn_scheme.h:339-356 | J0, g0 and Tz0 are stored; the keys are the connected pairs of the space's subspaces in the chosen direction, in lexicographic order |
| JJJPNScheme.DefaultSectorsAreCanonical | jjjpn_scheme.h:339-343 | by default only upper-triangle sectors are enumerated |
| NljOperator.SectorFor | nlj_operator.cpp:30-37 | a sector is found iff both subspace lookups hit and their key is present; it is then the index of that key |
| NljOperator.StateIndexFor | nlj_operator.cpp:55-64 | the state index is n when n is below the subspace size, and kNone otherwise |
| NljOperator.MatrixElementIndicesLJPN | nlj_operator.cpp:14-68 | the sector is found iff both (species, l, j) lookups hit and the sector exists; a missing sector gives kNone for all three indices; otherwise each state index is n iff n is below its subspace's size, and kNone if not |
| NljOperator.RadialIndicesMeanLabels | nlj_operator.cpp:50-64 | for sectors over an Nmax space, the resolved state index equals the lookup of the label n, and is found iff 2n + l <= Nmax; the sector's subspaces carry the requested (species, l, j) |
| NljOperator.MatrixElementLJPN | nlj_operator.cpp:70-115 | the result is a failure iff the sector is missing; otherwise it is the matrix entry at the resolved sector, bra and ket |

## Left out

- Stream I/O is not modelled. This covers orbital file parsing, orbital definition strings, the `DebugStr` and `LabelStr` diagnostics, and the `<<`/`>>` operators. They are formatting, not indexing.
- Weights are `double` in the library and `int` here. The integrality test on the weight maximum that decides oscillator-likeness is folded into the integer weights.
- The hash-map option for lookups is not modelled. The model uses a Dafny `map`, which has the same lookup semantics.
- Shared pointers are not modelled. Spaces hold subspaces and sectors hold spaces by value; no aliasing is modelled.
- Deprecated accessors are not modelled. This includes the old `Subspace()`/`GetStateLabels()` spellings and the `PushSector(sector)` overload, which forwards to the key form.
- Basis.Space.GetSubspace, Basis.Sectors.GetSector: require an in-range index. The source's `.at()` (basis.h:554, 765) throws `std::out_of_range` on a bad index; the model does not capture that exception.
- `Basis.Sectors.GetSector` returns the sector by value, with the subspaces copied in rather than pointed to.
- `EmplaceSubspace` is the same push as `PushSubspace`, because the model has no in-place construction.
- `Basis.Space.LookUpSubspace` and `Basis.StateWith` require that the lookup succeeds. The source asserts this and aborts otherwise.
- Integer widths are not modelled. `std::size_t` and `int` indices are unbounded naturals, and `kNone` is `Option.None` rather than the largest `size_t`.
- nlj_orbital.h is not part of this model. The LJPN subspace accessors are taken as g = l mod 2 and j held as 2j; the PN species Tz is taken as ±1/2, as the code table in nlj_orbital.cpp:23 gives.
- proton_neutron.h is not part of this model. The two-body species codes are taken as pp, nn, pn with Tz = +1, -1, 0, as jjjpn_scheme.h:69-73 describes.
- The two-body enumeration code is not part of this model. `JJJPNScheme.NewTwoBodySubspaceJJJPN`, `JJJPNScheme.NewTwoBodySpaceJJJPN` and `JJJPNScheme.NewTwoBodySectorsJJJPN` follow the ordering and selection rules in the header's documentation, with three parameters:
  - the one-body and two-body weight test, a predicate on the truncation, species and two orbitals;
  - the J range, `Jmax`;
  - the sector selection rule for (J0, g0, Tz0), a predicate `connected` on a pair of subspace labels.
- The truncation-rank `WeightMax` constructor and its cutoff helper are not modelled. They live in code that is not part of this model.
- The orbital sets of the two-body constructors are given as `OrbitalSets`: per-species orbital lists standing for an `OrbitalSpacePN`'s subspaces.
- `NljOperator.MatrixElementLJPN` requires the state indices to be found whenever the sector is. The source prints a message for a missing state and then reads the matrix at `kNone`, which is out of bounds.
- `NljOperator.MatrixElementLJPN` returns `Failure` on a missing sector. The source prints to the error stream and exits the process.
- Matrices are sequences of rows rather than Eigen matrices, and their entries are of an arbitrary type `T` rather than `double`.
- The oscillator and sector constructors are split into helper methods. Each one holds one loop of the source's nest: `OrbitalLJPN.PushJSubspaces`, `OrbitalLJPN.PushLSubspaces`, `OrbitalSectors.PushRow` and `OrbitalSectors.PushPairs`.
- The per-state `OrbitalInfo` of a single orbital state is not a separate member (nlj_orbital.cpp:383-394 and 700-711). It is element i of `SubspaceOrbitals`.
