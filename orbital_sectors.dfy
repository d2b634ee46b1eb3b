/** OrbitalSectorsLJPN: sectors between (species, l, j) subspaces.

    The four constructors run the same nested bra/ket loop; they differ only in
    which pairs they admit. The loop is `PushPairs`, proved to push exactly
    the keys of `LexPairs(bra size, ket size, admit)`; each constructor passes
    its own admission rule, and the lemmas say which sectors each rule keeps. */
module OrbitalSectors {
  import opened Basis
  import opened PairEnumeration
  import opened OrbitalPN
  import opened OrbitalLJPN

  type SectorsLJPN = Sectors<LJPNLabels, int, OrbitalSubspaceLJPNData>

  /** The sectors together with the operator parameters the constrained
      constructors store (None for the all-to-all constructors). */
  datatype OrbitalSectorsLJPN = OrbitalSectorsLJPN(base: SectorsLJPN, l0max: Option<int>, tz0: Option<int>)

  function Abs(x: int): nat
  {
    if x < 0 then -x else x
  }

  /** C++ `a % 2`: the remainder takes the sign of the dividend. */
  function CRem2(a: int): int
  {
    if a >= 0 then a % 2 else -((-a) % 2)
  }

  /** The delta-l, delta-j and parity selection rules of the constrained
      constructors, with g0 = l0max % 2; j is compared through 2j. */
  predicate LJAllowed(bra: LJPNLabels, ket: LJPNLabels, l0max: int)
  {
    && Abs(bra.l - ket.l) <= l0max
    && Abs(bra.twoJ - ket.twoJ) <= 2 * l0max
    && CRem2(Grade(ket) + CRem2(l0max) + Grade(bra)) == 0
  }

  /** The delta-Tz rule of the two-space constrained constructor, on 2Tz. */
  predicate TzAllowed(bra: LJPNLabels, ket: LJPNLabels, tz0: int)
  {
    Abs(TwiceTzOf(bra) - TwiceTzOf(ket)) <= 2 * tz0
  }

  /** The parity rule says that l_bra + l0max + l_ket is even, whatever the
      signs involved. */
  lemma ParityRule(bra: LJPNLabels, ket: LJPNLabels, l0max: int)
    ensures CRem2(Grade(ket) + CRem2(l0max) + Grade(bra)) == 0 <==> (bra.l + l0max + ket.l) % 2 == 0
  {
    var g0 := CRem2(l0max);
    assert g0 == 0 || g0 == 1 || g0 == -1;
    assert (l0max - g0) % 2 == 0;
    var t := Grade(ket) + g0 + Grade(bra);
    assert (bra.l + l0max + ket.l) - t == (bra.l - Grade(bra)) + (ket.l - Grade(ket)) + (l0max - g0);
    assert (bra.l - Grade(bra)) % 2 == 0 && (ket.l - Grade(ket)) % 2 == 0;
  }

  ////////////////////////////////////////////////////////////////
  // admission rules
  ////////////////////////////////////////////////////////////////

  /** All-to-all over one space: every pair, or bra <= ket under kCanonical. */
  function DirectionAdmit(direction: SectorDirection): (nat, nat) -> bool
  {
    if direction == Canonical then UpperPairs() else AllPairs()
  }

  /** Constrained over one space: the direction test, then the l/j/parity rules. */
  function OneSpaceAdmit(labels: seq<LJPNLabels>, l0max: int, direction: SectorDirection): (nat, nat) -> bool
  {
    (i: nat, j: nat) => (direction == Both || i <= j) && i < |labels| && j < |labels| && LJAllowed(labels[i], labels[j], l0max)
  }

  /** Constrained between two spaces: the l/j/parity rules and the Tz rule. */
  function TwoSpaceAdmit(braLabels: seq<LJPNLabels>, ketLabels: seq<LJPNLabels>, l0max: int, tz0: int): (nat, nat) -> bool
  {
    (i: nat, j: nat) => i < |braLabels| && j < |ketLabels|
                        && LJAllowed(braLabels[i], ketLabels[j], l0max) && TzAllowed(braLabels[i], ketLabels[j], tz0)
  }

  ////////////////////////////////////////////////////////////////
  // keys pushed by the loop
  ////////////////////////////////////////////////////////////////

  /** The key the constructors push for a pair: default multiplicity 1. */
  function KeyOf(p: Pair): SectorKey
  {
    (p.0, p.1, DefaultMultiplicityIndex)
  }

  function SectorKeys(pairs: seq<Pair>): (r: seq<SectorKey>)
    ensures |r| == |pairs|
  {
    seq(|pairs|, i requires 0 <= i < |pairs| => KeyOf(pairs[i]))
  }

  lemma SectorKeysSnoc(pairs: seq<Pair>, p: Pair)
    ensures SectorKeys(pairs + [p]) == SectorKeys(pairs) + [KeyOf(p)]
  {
  }

  /** A key is pushed iff its multiplicity is the default and its pair is enumerated. */
  lemma SectorKeysMembership(pairs: seq<Pair>, key: SectorKey)
    ensures key in SectorKeys(pairs) <==> key.2 == DefaultMultiplicityIndex && (key.0, key.1) in pairs
  {
    var ks := SectorKeys(pairs);
    if key in ks {
      var i :| 0 <= i < |ks| && ks[i] == key;
      assert pairs[i] == (key.0, key.1);
    }
    if key.2 == DefaultMultiplicityIndex && (key.0, key.1) in pairs {
      var i :| 0 <= i < |pairs| && pairs[i] == (key.0, key.1);
      assert ks[i] == key;
    }
  }

  /** Enumerated keys are pairwise distinct and name subspaces in range. */
  lemma SectorKeysDistinct(nb: nat, nk: nat, admit: (nat, nat) -> bool)
    ensures Distinct(SectorKeys(LexPairs(nb, nk, admit)))
    ensures forall key :: key in SectorKeys(LexPairs(nb, nk, admit)) ==> key.0 < nb && key.1 < nk
  {
    var pairs := LexPairs(nb, nk, admit);
    var ks := SectorKeys(pairs);
    LexPairsIncreasing(nb, nk, admit);
    forall a, b | 0 <= a < b < |ks| ensures ks[a] != ks[b] {
      assert LexLess(pairs[a], pairs[b]);
    }
    forall key | key in ks ensures key.0 < nb && key.1 < nk {
      SectorKeysMembership(pairs, key);
      LexPairsMembership(nb, nk, admit, (key.0, key.1));
    }
  }

  ghost predicate SectorsSoFar(s: SectorsLJPN, s0: SectorsLJPN, pairs: seq<Pair>)
  {
    && s.Valid()
    && s.braSpace == s0.braSpace && s.ketSpace == s0.ketSpace
    && s.keys == s0.keys + SectorKeys(pairs)
  }

  lemma SectorPushStep(s: SectorsLJPN, s0: SectorsLJPN, pairs: seq<Pair>, p: Pair)
    requires SectorsSoFar(s, s0, pairs)
    ensures SectorsSoFar(s.PushSector(KeyOf(p)), s0, pairs + [p])
  {
    SectorKeysSnoc(pairs, p);
  }

  lemma RowPrefixStep(prefix: seq<Pair>, i: nat, j: nat, admit: (nat, nat) -> bool)
    ensures admit(i, j) ==> prefix + Row(i, j + 1, admit) == (prefix + Row(i, j, admit)) + [(i, j)]
    ensures !admit(i, j) ==> prefix + Row(i, j + 1, admit) == prefix + Row(i, j, admit)
  {
  }

  /** The inner (ket) loop for one bra index. */
  method PushRow(s1: SectorsLJPN, ghost s0: SectorsLJPN, ghost prefix: seq<Pair>,
                 i: nat, nk: nat, admit: (nat, nat) -> bool) returns (s: SectorsLJPN)
    requires SectorsSoFar(s1, s0, prefix)
    ensures SectorsSoFar(s, s0, prefix + Row(i, nk, admit))
  {
    s := s1;
    var j := 0;
    while j < nk
      invariant j <= nk
      invariant SectorsSoFar(s, s0, prefix + Row(i, j, admit))
    {
      RowPrefixStep(prefix, i, j, admit);
      if admit(i, j) {
        SectorPushStep(s, s0, prefix + Row(i, j, admit), (i, j));
        s := s.PushSector(KeyOf((i, j)));
      }
      j := j + 1;
    }
  }

  /** The nested bra/ket loop of every OrbitalSectorsLJPN constructor: pushes,
      in lexicographic (bra, ket) order, the admitted pairs with multiplicity 1. */
  method PushPairs(s0: SectorsLJPN, nb: nat, nk: nat, admit: (nat, nat) -> bool) returns (s: SectorsLJPN)
    requires s0.Valid()
    ensures s.Valid() && s.braSpace == s0.braSpace && s.ketSpace == s0.ketSpace
    ensures s.keys == s0.keys + SectorKeys(LexPairs(nb, nk, admit))
  {
    s := s0;
    assert s0.keys + SectorKeys([]) == s0.keys;
    var i := 0;
    while i < nb
      invariant i <= nb
      invariant SectorsSoFar(s, s0, LexPairs(i, nk, admit))
    {
      s := PushRow(s, s0, LexPairs(i, nk, admit), i, nk, admit);
      i := i + 1;
    }
  }

  ////////////////////////////////////////////////////////////////
  // the four constructors
  ////////////////////////////////////////////////////////////////

  /** OrbitalSectorsLJPN(space, sector_direction): all pairs of subspaces of
      one space, bra <= ket under kCanonical. */
  method NewOrbitalSectorsLJPN(space: OrbitalSpaceLJPN, direction: SectorDirection) returns (r: OrbitalSectorsLJPN)
    ensures r.base.Valid() && r.base.braSpace == space.base && r.base.ketSpace == space.base
    ensures r.base.keys == SectorKeys(LexPairs(space.base.Size(), space.base.Size(), DirectionAdmit(direction)))
    ensures r.l0max == None && r.tz0 == None
  {
    var n := space.base.Size();
    var s := PushPairs(NewSectors(space.base, space.base), n, n, DirectionAdmit(direction));
    r := OrbitalSectorsLJPN(s, None, None);
  }

  /** OrbitalSectorsLJPN(space, l0max, Tz0, sector_direction): pairs of one
      space passing the direction test and the l/j/parity rules; Tz0 is
      stored but not used as a filter. */
  method NewOrbitalSectorsLJPNConstrained(space: OrbitalSpaceLJPN, l0max: int, tz0: int, direction: SectorDirection)
    returns (r: OrbitalSectorsLJPN)
    ensures r.base.Valid() && r.base.braSpace == space.base && r.base.ketSpace == space.base
    ensures r.base.keys == OneSpaceKeys(space.base.SubspaceLabels(), l0max, direction)
    ensures r.l0max == Some(l0max) && r.tz0 == Some(tz0)
  {
    var labels := space.base.SubspaceLabels();
    var s := PushPairs(NewSectors(space.base, space.base), |labels|, |labels|, OneSpaceAdmit(labels, l0max, direction));
    r := OrbitalSectorsLJPN(s, Some(l0max), Some(tz0));
  }

  /** OrbitalSectorsLJPN(bra_space, ket_space): all pairs between two spaces. */
  method NewOrbitalSectorsLJPNBetween(braSpace: OrbitalSpaceLJPN, ketSpace: OrbitalSpaceLJPN) returns (r: OrbitalSectorsLJPN)
    ensures r.base.Valid() && r.base.braSpace == braSpace.base && r.base.ketSpace == ketSpace.base
    ensures r.base.keys == SectorKeys(LexPairs(braSpace.base.Size(), ketSpace.base.Size(), AllPairs()))
    ensures r.l0max == None && r.tz0 == None
  {
    var s := PushPairs(NewSectors(braSpace.base, ketSpace.base), braSpace.base.Size(), ketSpace.base.Size(), AllPairs());
    r := OrbitalSectorsLJPN(s, None, None);
  }

  /** OrbitalSectorsLJPN(bra_space, ket_space, l0max, Tz0): pairs between two
      spaces passing the l/j/parity rules and the Tz rule. */
  method NewOrbitalSectorsLJPNBetweenConstrained(braSpace: OrbitalSpaceLJPN, ketSpace: OrbitalSpaceLJPN, l0max: int, tz0: int)
    returns (r: OrbitalSectorsLJPN)
    ensures r.base.Valid() && r.base.braSpace == braSpace.base && r.base.ketSpace == ketSpace.base
    ensures r.base.keys == TwoSpaceKeys(braSpace.base.SubspaceLabels(), ketSpace.base.SubspaceLabels(), l0max, tz0)
    ensures r.l0max == Some(l0max) && r.tz0 == Some(tz0)
  {
    var braLabels := braSpace.base.SubspaceLabels();
    var ketLabels := ketSpace.base.SubspaceLabels();
    var s := PushPairs(NewSectors(braSpace.base, ketSpace.base), |braLabels|, |ketLabels|,
                       TwoSpaceAdmit(braLabels, ketLabels, l0max, tz0));
    r := OrbitalSectorsLJPN(s, Some(l0max), Some(tz0));
  }

  ////////////////////////////////////////////////////////////////
  // which sectors each constructor keeps
  ////////////////////////////////////////////////////////////////

  function OneSpaceKeys(labels: seq<LJPNLabels>, l0max: int, direction: SectorDirection): seq<SectorKey>
  {
    SectorKeys(LexPairs(|labels|, |labels|, OneSpaceAdmit(labels, l0max, direction)))
  }

  function TwoSpaceKeys(braLabels: seq<LJPNLabels>, ketLabels: seq<LJPNLabels>, l0max: int, tz0: int): seq<SectorKey>
  {
    SectorKeys(LexPairs(|braLabels|, |ketLabels|, TwoSpaceAdmit(braLabels, ketLabels, l0max, tz0)))
  }

  /** All-to-all over one space of n subspaces: every (bra, ket) in range,
      restricted to bra <= ket under kCanonical; n^2 or n(n+1)/2 of them. */
  lemma AllSectors(n: nat, direction: SectorDirection, key: SectorKey)
    ensures key in SectorKeys(LexPairs(n, n, DirectionAdmit(direction)))
            <==> key.2 == DefaultMultiplicityIndex && key.0 < n && key.1 < n && (direction == Canonical ==> key.0 <= key.1)
    ensures direction == Both ==> |SectorKeys(LexPairs(n, n, DirectionAdmit(direction)))| == n * n
    ensures direction == Canonical ==> 2 * |SectorKeys(LexPairs(n, n, DirectionAdmit(direction)))| == n * (n + 1)
  {
    SectorKeysMembership(LexPairs(n, n, DirectionAdmit(direction)), key);
    LexPairsMembership(n, n, DirectionAdmit(direction), (key.0, key.1));
    if direction == Both {
      AllPairsCount(n, n);
    } else {
      UpperPairsCount(n);
    }
  }

  /** All-to-all between two spaces: every (bra, ket) in range, nb * nk of them. */
  lemma AllSectorsBetween(nb: nat, nk: nat, key: SectorKey)
    ensures key in SectorKeys(LexPairs(nb, nk, AllPairs()))
            <==> key.2 == DefaultMultiplicityIndex && key.0 < nb && key.1 < nk
    ensures |SectorKeys(LexPairs(nb, nk, AllPairs()))| == nb * nk
  {
    SectorKeysMembership(LexPairs(nb, nk, AllPairs()), key);
    LexPairsMembership(nb, nk, AllPairs(), (key.0, key.1));
    AllPairsCount(nb, nk);
  }

  /** Constrained over one space: exactly the in-range pairs passing the
      direction test and the l/j/parity rules. */
  lemma OneSpaceSectors(labels: seq<LJPNLabels>, l0max: int, direction: SectorDirection, key: SectorKey)
    ensures key in OneSpaceKeys(labels, l0max, direction)
            <==> && key.2 == DefaultMultiplicityIndex && key.0 < |labels| && key.1 < |labels|
                 && (direction == Canonical ==> key.0 <= key.1)
                 && LJAllowed(labels[key.0], labels[key.1], l0max)
  {
    var admit := OneSpaceAdmit(labels, l0max, direction);
    SectorKeysMembership(LexPairs(|labels|, |labels|, admit), key);
    LexPairsMembership(|labels|, |labels|, admit, (key.0, key.1));
  }

  /** Constrained between two spaces: exactly the in-range pairs passing the
      l/j/parity rules and the Tz rule. */
  lemma TwoSpaceSectors(braLabels: seq<LJPNLabels>, ketLabels: seq<LJPNLabels>, l0max: int, tz0: int, key: SectorKey)
    ensures key in TwoSpaceKeys(braLabels, ketLabels, l0max, tz0)
            <==> && key.2 == DefaultMultiplicityIndex && key.0 < |braLabels| && key.1 < |ketLabels|
                 && LJAllowed(braLabels[key.0], ketLabels[key.1], l0max)
                 && TzAllowed(braLabels[key.0], ketLabels[key.1], tz0)
  {
    var admit := TwoSpaceAdmit(braLabels, ketLabels, l0max, tz0);
    SectorKeysMembership(LexPairs(|braLabels|, |ketLabels|, admit), key);
    LexPairsMembership(|braLabels|, |ketLabels|, admit, (key.0, key.1));
  }

  /** The one-space constrained constructor does not filter on Tz0: its
      sectors (kBoth) are those of the two-space constructor applied to the
      space twice, plus every pair that only the Tz rule rejects. */
  lemma OneSpaceIgnoresTz0(labels: seq<LJPNLabels>, l0max: int, tz0: int, key: SectorKey)
    ensures key in TwoSpaceKeys(labels, labels, l0max, tz0)
            <==> key in OneSpaceKeys(labels, l0max, Both) && key.0 < |labels| && key.1 < |labels|
                 && TzAllowed(labels[key.0], labels[key.1], tz0)
  {
    OneSpaceSectors(labels, l0max, Both, key);
    TwoSpaceSectors(labels, labels, l0max, tz0, key);
  }

  /** Under kCanonical every sector of the constrained one-space constructor is
      upper triangle. */
  lemma CanonicalIsUpperTriangle(labels: seq<LJPNLabels>, l0max: int, index: nat)
    requires index < |OneSpaceKeys(labels, l0max, Canonical)|
    ensures OneSpaceKeys(labels, l0max, Canonical)[index].0 <= OneSpaceKeys(labels, l0max, Canonical)[index].1
  {
    OneSpaceSectors(labels, l0max, Canonical, OneSpaceKeys(labels, l0max, Canonical)[index]);
  }

  /** Sectors pushed by the nested loop have distinct keys and name existing
      subspaces, so each key looks up to its own index and rebuilds its sector. */
  lemma EnumeratedSectorsRoundTrip(s: SectorsLJPN, admit: (nat, nat) -> bool, index: nat)
    requires s.Valid() && s.keys == SectorKeys(LexPairs(s.braSpace.Size(), s.ketSpace.Size(), admit))
    requires index < s.Size()
    ensures s.Resolvable() && Distinct(s.keys)
    ensures s.LookUpSectorIndex(s.keys[index]) == Some(index)
    ensures s.GetSector(index).Key() == s.keys[index]
  {
    SectorKeysDistinct(s.braSpace.Size(), s.ketSpace.Size(), admit);
    SectorRoundTrip(s, index);
  }
}
