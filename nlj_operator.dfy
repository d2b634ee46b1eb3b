/** Resolution of a radial matrix element's (sector, bra state, ket state)
    indices from full orbital labels (species, n, l, j), and the look-up of
    the matrix element itself.

    In an LJPN subspace the state label n is taken to be the state index; the
    lemma `RadialIndicesMeanLabels` shows when that reading is sound. */
module NljOperator {
  import opened Basis
  import opened OrbitalPN
  import opened OrbitalLJPN
  import opened OrbitalSectors

  /** Full labels (species, n, l, j) of an orbital, j held as 2j. */
  datatype FullOrbitalLabels = FullOrbitalLabels(species: OrbitalSpeciesPN, n: int, l: int, twoJ: int)

  /** The (sector, bra state, ket state) indices; None stands for kNone. */
  datatype MatrixElementIndices = MatrixElementIndices(sector: Option<nat>, bra: Option<nat>, ket: Option<nat>)

  datatype Result<T> = Success(value: T) | Failure(error: string)

  function SubspaceLabelsOf(labels: FullOrbitalLabels): LJPNLabels
  {
    LJPNLabels(labels.species, labels.l, labels.twoJ)
  }

  /** The sector index for a bra and a ket subspace lookup. A missed subspace
      lookup yields kNone, which no sector key holds, so the sector lookup
      misses too. */
  function SectorFor(sectors: SectorsLJPN, braSubspace: Option<nat>, ketSubspace: Option<nat>): (r: Option<nat>)
    requires sectors.Valid()
    ensures r.Some? <==> braSubspace.Some? && ketSubspace.Some?
                         && (braSubspace.value, ketSubspace.value, DefaultMultiplicityIndex) in sectors.keys
    ensures r.Some? ==> r.value < sectors.Size()
                        && sectors.keys[r.value] == (braSubspace.value, ketSubspace.value, DefaultMultiplicityIndex)
  {
    if braSubspace.Some? && ketSubspace.Some? then
      sectors.LookUpSectorIndex((braSubspace.value, ketSubspace.value, DefaultMultiplicityIndex))
    else None
  }

  /** The radial index n as a state index of a subspace of the given size. */
  function StateIndexFor(n: nat, size: nat): (r: Option<nat>)
    ensures r.Some? <==> n < size
    ensures r.Some? ==> r.value == n
  {
    if n < size then Some(n) else None
  }

  /** MatrixElementIndicesLJPN: look up the bra and ket subspaces by
      (species, l, j) in their spaces, then the sector; on a missing sector
      all three indices are kNone; otherwise each state index is n when n is
      below the size of the sector's subspace, and kNone when it is not. */
  function MatrixElementIndicesLJPN(braSpace: OrbitalSpaceLJPN, ketSpace: OrbitalSpaceLJPN, sectors: SectorsLJPN,
                                    braLabels: FullOrbitalLabels, ketLabels: FullOrbitalLabels): (r: MatrixElementIndices)
    requires braSpace.base.Valid() && ketSpace.base.Valid()
    requires sectors.Valid() && sectors.Resolvable()
    requires braLabels.n >= 0 && ketLabels.n >= 0
    ensures var b := braSpace.base.LookUpSubspaceIndex(SubspaceLabelsOf(braLabels));
            var k := ketSpace.base.LookUpSubspaceIndex(SubspaceLabelsOf(ketLabels));
            && (r.sector.Some? <==> b.Some? && k.Some? && (b.value, k.value, DefaultMultiplicityIndex) in sectors.keys)
            && (r.sector.Some? ==> r.sector.value < sectors.Size()
                                   && sectors.keys[r.sector.value] == (b.value, k.value, DefaultMultiplicityIndex))
    ensures r.sector.None? ==> r.bra.None? && r.ket.None?
    ensures r.sector.Some? ==>
              && (r.bra.Some? <==> braLabels.n < sectors.GetSector(r.sector.value).braSubspace.Size())
              && (r.ket.Some? <==> ketLabels.n < sectors.GetSector(r.sector.value).ketSubspace.Size())
              && (r.bra.Some? ==> r.bra.value == braLabels.n)
              && (r.ket.Some? ==> r.ket.value == ketLabels.n)
  {
    var braSubspace := braSpace.base.LookUpSubspaceIndex(SubspaceLabelsOf(braLabels));
    var ketSubspace := ketSpace.base.LookUpSubspaceIndex(SubspaceLabelsOf(ketLabels));
    var sectorIndex := SectorFor(sectors, braSubspace, ketSubspace);
    if sectorIndex.None? then
      MatrixElementIndices(None, None, None)
    else
      var sector := sectors.GetSector(sectorIndex.value);
      MatrixElementIndices(sectorIndex,
                           StateIndexFor(braLabels.n, sector.braSubspace.Size()),
                           StateIndexFor(ketLabels.n, sector.ketSubspace.Size()))
  }

  /** When the sectors were built over the spaces the labels are looked up in,
      and those spaces come from the Nmax constructor, the resolved state
      index is the position of the state whose label is n, and kNone means
      that no state has label n. */
  lemma RadialIndicesMeanLabels(space: OrbitalSpaceLJPN, Nmax: int, sectors: SectorsLJPN,
                                braLabels: FullOrbitalLabels, ketLabels: FullOrbitalLabels)
    requires space.base.Valid() && forall j :: 0 <= j < space.base.Size() ==> IsRadialSubspace(space.base.subspaces[j], Nmax)
    requires sectors.Valid() && sectors.Resolvable()
    requires sectors.braSpace == space.base && sectors.ketSpace == space.base
    requires braLabels.n >= 0 && ketLabels.n >= 0
    ensures var r := MatrixElementIndicesLJPN(space, space, sectors, braLabels, ketLabels);
            r.sector.Some? ==>
              var sector := sectors.GetSector(r.sector.value);
              && sector.braSubspace.labels == SubspaceLabelsOf(braLabels)
              && sector.ketSubspace.labels == SubspaceLabelsOf(ketLabels)
              && sector.braSubspace.LookUpStateIndex(braLabels.n) == r.bra
              && sector.ketSubspace.LookUpStateIndex(ketLabels.n) == r.ket
              && (r.bra.Some? <==> 2 * braLabels.n + braLabels.l <= Nmax)
              && (r.ket.Some? <==> 2 * ketLabels.n + ketLabels.l <= Nmax)
  {
    var r := MatrixElementIndicesLJPN(space, space, sectors, braLabels, ketLabels);
    if r.sector.Some? {
      var sector := sectors.GetSector(r.sector.value);
      RadialRoundTrip(sector.braSubspace, Nmax, braLabels.n);
      RadialRoundTrip(sector.ketSubspace, Nmax, ketLabels.n);
    }
  }

  /** The matrices are shaped by the sectors: one per sector, with as many
      rows as the bra subspace has states and as many columns as the ket. */
  ghost predicate MatricesShaped<T>(sectors: SectorsLJPN, matrices: seq<seq<seq<T>>>)
    requires sectors.Resolvable()
  {
    && |matrices| == sectors.Size()
    && forall s :: 0 <= s < |matrices| ==>
         && |matrices[s]| == sectors.GetSector(s).braSubspace.Size()
         && forall b :: 0 <= b < |matrices[s]| ==> |matrices[s][b]| == sectors.GetSector(s).ketSubspace.Size()
  }

  /** MatrixElementLJPN: fails on a missing sector; otherwise reads the entry
      at the resolved state indices. The source only reports a missing state
      and then reads the matrix anyway, so here the state indices must be
      found whenever the sector is. */
  function MatrixElementLJPN<T>(braSpace: OrbitalSpaceLJPN, ketSpace: OrbitalSpaceLJPN, sectors: SectorsLJPN,
                                matrices: seq<seq<seq<T>>>, bra: FullOrbitalLabels, ket: FullOrbitalLabels): (r: Result<T>)
    requires braSpace.base.Valid() && ketSpace.base.Valid()
    requires sectors.Valid() && sectors.Resolvable() && MatricesShaped(sectors, matrices)
    requires bra.n >= 0 && ket.n >= 0
    requires var idx := MatrixElementIndicesLJPN(braSpace, ketSpace, sectors, bra, ket);
             idx.sector.Some? ==> idx.bra.Some? && idx.ket.Some?
    ensures var idx := MatrixElementIndicesLJPN(braSpace, ketSpace, sectors, bra, ket);
            && (r.Failure? <==> idx.sector.None?)
            && (r.Success? ==> r.value == matrices[idx.sector.value][bra.n][ket.n])
  {
    var idx := MatrixElementIndicesLJPN(braSpace, ketSpace, sectors, bra, ket);
    if idx.sector.None? then
      Failure("missing sector while looking up radial matrix element")
    else
      Success(matrices[idx.sector.value][idx.bra.value][idx.ket.value])
  }
}
