/** Generic indexing of basis states: subspaces, states, spaces and sectors.

    A subspace is an append-only table of state labels with a reverse lookup;
    a space is an append-only list of subspaces with a reverse lookup by
    subspace labels; a sectors object is an append-only list of
    (bra, ket, multiplicity) keys over a pair of spaces, again with a reverse
    lookup. All three are values: a space holds copies of its subspaces and a
    sectors object holds copies of its two spaces. */
module Basis {

  /** Outcome of a reverse lookup; `None` stands for the sentinel basis::kNone. */
  datatype Option<T> = None | Some(value: T)

  /** `lookup` is the reverse index of `table`: its keys are exactly the entries
      of `table`, each mapped to the position of its last occurrence. */
  ghost predicate IndexedBy<K>(table: seq<K>, lookup: map<K, nat>)
  {
    && (forall k :: k in lookup ==> lookup[k] < |table| && table[lookup[k]] == k)
    && (forall i :: 0 <= i < |table| ==> table[i] in lookup && i <= lookup[table[i]])
  }

  /** The entries of `s` are pairwise distinct. */
  ghost predicate Distinct<K>(s: seq<K>)
  {
    forall i, j :: 0 <= i < j < |s| ==> s[i] != s[j]
  }

  /** Appending `x` at position |table| and pointing `lookup[x]` at it keeps the index. */
  lemma IndexedByPush<K>(table: seq<K>, lookup: map<K, nat>, x: K)
    requires IndexedBy(table, lookup)
    ensures IndexedBy(table + [x], lookup[x := |table|])
  {
    var t, m := table + [x], lookup[x := |table|];
    forall i | 0 <= i < |t|
      ensures t[i] in m && i <= m[t[i]]
    {
      if i < |table| && t[i] != x {
        assert t[i] == table[i];
      }
    }
  }

  /** Reverse lookup in an indexed table: the last position holding `k`, or None. */
  function Find<K>(table: seq<K>, lookup: map<K, nat>, k: K): (r: Option<nat>)
    requires IndexedBy(table, lookup)
    ensures r.None? <==> k !in table
    ensures r.Some? ==> r.value < |table| && table[r.value] == k
    ensures r.Some? ==> forall i :: r.value < i < |table| ==> table[i] != k
  {
    if k in lookup then Some(lookup[k]) else None
  }

  /** In a table without repeated entries, looking up the i-th entry gives back i. */
  lemma FindDistinct<K>(table: seq<K>, lookup: map<K, nat>, i: nat)
    requires IndexedBy(table, lookup) && Distinct(table) && i < |table|
    ensures Find(table, lookup, table[i]) == Some(i)
  {
  }

  ////////////////////////////////////////////////////////////////
  // subspace
  ////////////////////////////////////////////////////////////////

  /** BaseSubspace: subspace labels, the state table (index -> labels), its
      reverse lookup (labels -> index) and the dimension counter. The type
      parameter X carries the fields that a concrete subspace type adds. */
  datatype Subspace<SL, L(==,!new), X> = Subspace(
    labels: SL,
    dimension: nat,
    stateTable: seq<L>,
    lookup: map<L, nat>,
    ext: X)
  {
    /** Invariant kept by every push: the counter is the table length and the
        lookup is the reverse index of the table. */
    ghost predicate Valid()
    {
      dimension == |stateTable| && IndexedBy(stateTable, lookup)
    }

    function Size(): nat
    {
      dimension
    }

    function GetStateLabels(index: nat): L
      requires Valid() && index < Size()
    {
      stateTable[index]
    }

    /** Index of the state with the given labels, or None (never fails). */
    function LookUpStateIndex(stateLabels: L): (r: Option<nat>)
      requires Valid()
      ensures r.None? <==> stateLabels !in stateTable
      ensures r.Some? ==> r.value < Size() && GetStateLabels(r.value) == stateLabels
      ensures r.Some? ==> forall i :: r.value < i < Size() ==> GetStateLabels(i) != stateLabels
    {
      Find(stateTable, lookup, stateLabels)
    }

    function ContainsState(stateLabels: L): (b: bool)
      requires Valid()
      ensures b <==> stateLabels in stateTable
      ensures b <==> LookUpStateIndex(stateLabels).Some?
    {
      stateLabels in lookup
    }

    /** PushStateLabels: the new state gets index Size(), the lookup sends its
        labels there (overwriting an earlier entry with the same labels), and
        nothing else changes. */
    function PushStateLabels(stateLabels: L): (r: Subspace<SL, L, X>)
      requires Valid()
      ensures r.Valid() && r.labels == labels && r.ext == ext
      ensures r.Size() == Size() + 1 && r.stateTable == stateTable + [stateLabels]
      ensures r.LookUpStateIndex(stateLabels) == Some(Size())
      ensures forall l :: l != stateLabels ==> r.LookUpStateIndex(l) == LookUpStateIndex(l)
    {
      IndexedByPush(stateTable, lookup, stateLabels);
      this.(dimension := dimension + 1,
            stateTable := stateTable + [stateLabels],
            lookup := lookup[stateLabels := dimension])
    }

    /** Pushes the given labels one after another, in order. */
    function PushAllStateLabels(ls: seq<L>): (r: Subspace<SL, L, X>)
      requires Valid()
      ensures r.Valid() && r.labels == labels && r.ext == ext
      ensures r.stateTable == stateTable + ls
      decreases |ls|
    {
      if ls == [] then this
      else
        var r := PushStateLabels(ls[0]).PushAllStateLabels(ls[1..]);
        assert stateTable + [ls[0]] + ls[1..] == stateTable + ls;
        r
    }
  }

  /** Default constructor of a subspace: no states yet. */
  function NewSubspace<SL, L(==,!new), X>(labels: SL, ext: X): (r: Subspace<SL, L, X>)
    ensures r.Valid() && r.Size() == 0 && r.labels == labels && r.ext == ext
  {
    Subspace(labels, 0, [], map[], ext)
  }

  /** Round trip index -> labels -> index, when no labels were pushed twice. */
  lemma LookUpRoundTrip<SL, L(!new), X>(s: Subspace<SL, L, X>, index: nat)
    requires s.Valid() && Distinct(s.stateTable) && index < s.Size()
    ensures s.LookUpStateIndex(s.GetStateLabels(index)) == Some(index)
  {
    FindDistinct(s.stateTable, s.lookup, index);
  }

  /** Round trip labels -> index -> labels, for any labels present. */
  lemma LabelsRoundTrip<SL, L(!new), X>(s: Subspace<SL, L, X>, stateLabels: L)
    requires s.Valid() && stateLabels in s.stateTable
    ensures s.LookUpStateIndex(stateLabels).Some?
    ensures s.GetStateLabels(s.LookUpStateIndex(stateLabels).value) == stateLabels
  {
  }

  ////////////////////////////////////////////////////////////////
  // state
  ////////////////////////////////////////////////////////////////

  /** BaseState: a subspace together with an index into it. */
  datatype State<SL, L(==,!new), X> = State(subspace: Subspace<SL, L, X>, index: nat)
  {
    ghost predicate Valid()
    {
      subspace.Valid() && index < subspace.Size()
    }

    function Labels(): L
      requires Valid()
    {
      subspace.GetStateLabels(index)
    }
  }

  /** BaseState(subspace, index); the source asserts that the index is in range. */
  function StateAt<SL, L(==,!new), X>(subspace: Subspace<SL, L, X>, index: nat): (s: State<SL, L, X>)
    requires subspace.Valid() && index < subspace.Size()
    ensures s.Valid() && s.subspace == subspace && s.index == index
    ensures s.Labels() == subspace.stateTable[index]
  {
    State(subspace, index)
  }

  /** BaseState(subspace, labels): reverse lookup; the source asserts that it succeeds. */
  function StateWith<SL, L(==,!new), X>(subspace: Subspace<SL, L, X>, stateLabels: L): (s: State<SL, L, X>)
    requires subspace.Valid() && subspace.ContainsState(stateLabels)
    ensures s.Valid() && s.subspace == subspace && s.Labels() == stateLabels
    ensures Some(s.index) == subspace.LookUpStateIndex(stateLabels)
  {
    State(subspace, subspace.LookUpStateIndex(stateLabels).value)
  }

  ////////////////////////////////////////////////////////////////
  // space
  ////////////////////////////////////////////////////////////////

  /** Sum of the sizes of the given subspaces. */
  function TotalSize<SL, L(==,!new), X>(ss: seq<Subspace<SL, L, X>>): nat
  {
    if ss == [] then 0 else TotalSize(ss[..|ss| - 1]) + ss[|ss| - 1].Size()
  }

  lemma {:induction false} TotalSizeAppend<SL, L(!new), X>(ss: seq<Subspace<SL, L, X>>, tt: seq<Subspace<SL, L, X>>)
    ensures TotalSize(ss + tt) == TotalSize(ss) + TotalSize(tt)
    decreases |tt|
  {
    if tt != [] {
      var u := ss + tt;
      assert u[..|u| - 1] == ss + tt[..|tt| - 1];
      TotalSizeAppend(ss, tt[..|tt| - 1]);
    } else {
      assert ss + tt == ss;
    }
  }

  /** BaseSpace: the subspaces in order and the reverse lookup by subspace labels. */
  datatype Space<SL(==,!new), L(==,!new), X> = Space(subspaces: seq<Subspace<SL, L, X>>, lookup: map<SL, nat>)
  {
    function SubspaceLabels(): (r: seq<SL>)
      ensures |r| == |subspaces|
      ensures forall i :: 0 <= i < |subspaces| ==> r[i] == subspaces[i].labels
    {
      seq(|subspaces|, i requires 0 <= i < |subspaces| => subspaces[i].labels)
    }

    ghost predicate Valid()
    {
      && IndexedBy(SubspaceLabels(), lookup)
      && (forall i :: 0 <= i < |subspaces| ==> subspaces[i].Valid())
    }

    /** Number of subspaces. */
    function Size(): nat
    {
      |subspaces|
    }

    function GetSubspace(index: nat): Subspace<SL, L, X>
      requires index < Size()
    {
      subspaces[index]
    }

    function ContainsSubspace(subspaceLabels: SL): (b: bool)
      requires Valid()
      ensures b <==> subspaceLabels in SubspaceLabels()
    {
      subspaceLabels in lookup
    }

    /** Index of the subspace with the given labels, or None (never fails). */
    function LookUpSubspaceIndex(subspaceLabels: SL): (r: Option<nat>)
      requires Valid()
      ensures r.None? <==> !ContainsSubspace(subspaceLabels)
      ensures r.Some? ==> r.value < Size() && GetSubspace(r.value).labels == subspaceLabels
      ensures r.Some? ==> forall i :: r.value < i < Size() ==> GetSubspace(i).labels != subspaceLabels
    {
      var r := Find(SubspaceLabels(), lookup, subspaceLabels);
      assert r.Some? ==> SubspaceLabels()[r.value] == subspaceLabels;
      r
    }

    /** LookUpSubspace: the source asserts that the labels are present. */
    function LookUpSubspace(subspaceLabels: SL): (s: Subspace<SL, L, X>)
      requires Valid() && ContainsSubspace(subspaceLabels)
      ensures s.Valid() && s.labels == subspaceLabels && s in subspaces
    {
      GetSubspace(LookUpSubspaceIndex(subspaceLabels).value)
    }

    /** PushSubspace: the subspace gets index Size(), its labels are looked up
        there (overwriting an earlier entry with the same labels), and nothing
        else changes. */
    function PushSubspace(subspace: Subspace<SL, L, X>): (r: Space<SL, L, X>)
      requires Valid() && subspace.Valid()
      ensures r.Valid() && r.subspaces == subspaces + [subspace]
      ensures r.SubspaceLabels() == SubspaceLabels() + [subspace.labels]
      ensures r.LookUpSubspaceIndex(subspace.labels) == Some(Size())
      ensures forall sl :: sl != subspace.labels ==> r.LookUpSubspaceIndex(sl) == LookUpSubspaceIndex(sl)
    {
      var r := Space(subspaces + [subspace], lookup[subspace.labels := |subspaces|]);
      assert r.SubspaceLabels() == SubspaceLabels() + [subspace.labels];
      IndexedByPush(SubspaceLabels(), lookup, subspace.labels);
      r
    }

    /** Dimension: the total number of states, summed over the subspaces. */
    method Dimension() returns (d: nat)
      ensures d == TotalSize(subspaces)
    {
      d := 0;
      var i := 0;
      while i < |subspaces|
        invariant i <= |subspaces|
        invariant d == TotalSize(subspaces[..i])
      {
        assert subspaces[..i + 1][..i] == subspaces[..i];
        d := d + subspaces[i].Size();
        i := i + 1;
      }
      assert subspaces[..i] == subspaces;
    }
  }

  /** Default constructor of a space: no subspaces yet. */
  function NewSpace<SL(==,!new), L(==,!new), X>(): (r: Space<SL, L, X>)
    ensures r.Valid() && r.Size() == 0
  {
    Space([], map[])
  }

  /** Pushing a subspace raises the dimension by exactly its size. */
  lemma DimensionAfterPush<SL(!new), L(!new), X>(space: Space<SL, L, X>, subspace: Subspace<SL, L, X>)
    requires space.Valid() && subspace.Valid()
    ensures TotalSize(space.PushSubspace(subspace).subspaces) == TotalSize(space.subspaces) + subspace.Size()
    ensures space.PushSubspace(subspace).Size() == space.Size() + 1
  {
    TotalSizeAppend(space.subspaces, [subspace]);
    assert [subspace][..0] == [];
  }

  ////////////////////////////////////////////////////////////////
  // sectors
  ////////////////////////////////////////////////////////////////

  /** Sector key: (bra subspace index, ket subspace index, multiplicity index). */
  type SectorKey = (nat, nat, nat)

  /** Multiplicity index used when none is given. */
  const DefaultMultiplicityIndex: nat := 1

  /** kCanonical keeps only bra <= ket; kBoth keeps both directions. */
  datatype SectorDirection = Canonical | Both

  /** BaseSector: the key together with the bra and ket subspaces it names. */
  datatype Sector<SL, L(==,!new), X> = Sector(
    braSubspaceIndex: nat,
    ketSubspaceIndex: nat,
    braSubspace: Subspace<SL, L, X>,
    ketSubspace: Subspace<SL, L, X>,
    multiplicityIndex: nat)
  {
    function Key(): SectorKey
    {
      (braSubspaceIndex, ketSubspaceIndex, multiplicityIndex)
    }

    predicate IsDiagonal()
    {
      braSubspaceIndex == ketSubspaceIndex
    }

    predicate IsUpperTriangle()
    {
      braSubspaceIndex <= ketSubspaceIndex
    }
  }

  /** A sector is diagonal iff its key has equal bra and ket indices, and upper
      triangle iff bra <= ket; diagonal sectors are upper triangle. */
  lemma SectorShape<SL, L(!new), X>(s: Sector<SL, L, X>)
    ensures s.IsDiagonal() <==> s.Key().0 == s.Key().1
    ensures s.IsUpperTriangle() <==> s.Key().0 <= s.Key().1
    ensures s.IsDiagonal() ==> s.IsUpperTriangle()
  {
  }

  /** BaseSectors: copies of the bra and ket spaces, the keys in push order and
      their reverse lookup. */
  datatype Sectors<SL(==,!new), L(==,!new), X> = Sectors(
    braSpace: Space<SL, L, X>,
    ketSpace: Space<SL, L, X>,
    keys: seq<SectorKey>,
    lookup: map<SectorKey, nat>)
  {
    ghost predicate Valid()
    {
      IndexedBy(keys, lookup)
    }

    /** Every key names subspaces that exist in the stored spaces (not checked
        at push time; guaranteed by the enumerating constructors). */
    ghost predicate Resolvable()
    {
      forall i :: 0 <= i < |keys| ==> keys[i].0 < braSpace.Size() && keys[i].1 < ketSpace.Size()
    }

    /** Number of sectors. */
    function Size(): nat
    {
      |keys|
    }

    /** GetSector: rebuilds the sector view from the key and the stored spaces. */
    function GetSector(index: nat): (s: Sector<SL, L, X>)
      requires index < Size()
      requires keys[index].0 < braSpace.Size() && keys[index].1 < ketSpace.Size()
      ensures s.Key() == keys[index]
      ensures s.braSubspace == braSpace.GetSubspace(keys[index].0)
      ensures s.ketSubspace == ketSpace.GetSubspace(keys[index].1)
    {
      var key := keys[index];
      Sector(key.0, key.1, braSpace.GetSubspace(key.0), ketSpace.GetSubspace(key.1), key.2)
    }

    /** Index of the sector with the given key, or None (never fails). */
    function LookUpSectorIndex(key: SectorKey): (r: Option<nat>)
      requires Valid()
      ensures r.None? <==> key !in keys
      ensures r.Some? ==> r.value < Size() && keys[r.value] == key
      ensures r.Some? ==> forall i :: r.value < i < Size() ==> keys[i] != key
    {
      Find(keys, lookup, key)
    }

    function ContainsSector(braSubspaceIndex: nat, ketSubspaceIndex: nat,
                            multiplicityIndex: nat := DefaultMultiplicityIndex): (b: bool)
      requires Valid()
      ensures b <==> (braSubspaceIndex, ketSubspaceIndex, multiplicityIndex) in keys
    {
      (braSubspaceIndex, ketSubspaceIndex, multiplicityIndex) in lookup
    }

    /** PushSector: the key gets index Size(), the lookup sends it there, and
        nothing else changes. */
    function PushSector(key: SectorKey): (r: Sectors<SL, L, X>)
      requires Valid()
      ensures r.Valid() && r.braSpace == braSpace && r.ketSpace == ketSpace
      ensures r.keys == keys + [key]
      ensures r.LookUpSectorIndex(key) == Some(Size())
      ensures forall k :: k != key ==> r.LookUpSectorIndex(k) == LookUpSectorIndex(k)
    {
      IndexedByPush(keys, lookup, key);
      this.(keys := keys + [key], lookup := lookup[key := |keys|])
    }

    /** Pushes the given keys one after another, in order. */
    function PushAllSectors(ks: seq<SectorKey>): (r: Sectors<SL, L, X>)
      requires Valid()
      ensures r.Valid() && r.braSpace == braSpace && r.ketSpace == ketSpace
      ensures r.keys == keys + ks
      decreases |ks|
    {
      if ks == [] then this
      else
        var r := PushSector(ks[0]).PushAllSectors(ks[1..]);
        assert keys + [ks[0]] + ks[1..] == keys + ks;
        r
    }
  }

  /** BaseSectors(bra_space, ket_space): no sectors yet. */
  function NewSectors<SL(==,!new), L(==,!new), X>(braSpace: Space<SL, L, X>, ketSpace: Space<SL, L, X>): (r: Sectors<SL, L, X>)
    ensures r.Valid() && r.Size() == 0 && r.braSpace == braSpace && r.ketSpace == ketSpace
  {
    Sectors(braSpace, ketSpace, [], map[])
  }

  /** In a sectors object whose keys are distinct, the i-th key looks up to i,
      and the sector rebuilt from it has that key. */
  lemma SectorRoundTrip<SL(!new), L(!new), X>(sectors: Sectors<SL, L, X>, index: nat)
    requires sectors.Valid() && sectors.Resolvable() && Distinct(sectors.keys)
    requires index < sectors.Size()
    ensures sectors.LookUpSectorIndex(sectors.keys[index]) == Some(index)
    ensures sectors.GetSector(index).Key() == sectors.keys[index]
  {
    FindDistinct(sectors.keys, sectors.lookup, index);
  }
}
