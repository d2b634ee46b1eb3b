/** Lexicographic enumeration of index pairs.

    Every nested loop of the form `for i < n1 { for j < n2 { if admit(i, j)
    push (i, j) } }` in the basis constructors produces the sequence
    `LexPairs(n1, n2, admit)` defined here; the lemmas say which pairs it holds,
    in which order, and how many. */
module PairEnumeration {

  type Pair = (nat, nat)

  /** The pairs (i, j), j < n2, admitted by `admit`, in increasing j. */
  function Row(i: nat, n2: nat, admit: (nat, nat) -> bool): seq<Pair>
  {
    if n2 == 0 then []
    else Row(i, n2 - 1, admit) + (if admit(i, n2 - 1) then [(i, n2 - 1)] else [])
  }

  /** The pairs (i, j), i < n1, j < n2, admitted by `admit`, in row-major order. */
  function LexPairs(n1: nat, n2: nat, admit: (nat, nat) -> bool): seq<Pair>
  {
    if n1 == 0 then [] else LexPairs(n1 - 1, n2, admit) + Row(n1 - 1, n2, admit)
  }

  /** Strict lexicographic order on pairs. */
  predicate LexLess(p: Pair, q: Pair)
  {
    p.0 < q.0 || (p.0 == q.0 && p.1 < q.1)
  }

  ghost predicate StrictlyIncreasing(s: seq<Pair>)
  {
    forall a, b :: 0 <= a < b < |s| ==> LexLess(s[a], s[b])
  }

  /** Admits every pair (kBoth over one space, or two distinct spaces). */
  function AllPairs(): (nat, nat) -> bool
  {
    (i: nat, j: nat) => true
  }

  /** Admits i <= j (kCanonical over one space). */
  function UpperPairs(): (nat, nat) -> bool
  {
    (i: nat, j: nat) => i <= j
  }

  lemma {:induction false} RowMembership(i: nat, n2: nat, admit: (nat, nat) -> bool, p: Pair)
    ensures p in Row(i, n2, admit) <==> p.0 == i && p.1 < n2 && admit(p.0, p.1)
  {
    if n2 > 0 {
      RowMembership(i, n2 - 1, admit, p);
    }
  }

  lemma {:induction false} RowIncreasing(i: nat, n2: nat, admit: (nat, nat) -> bool)
    ensures StrictlyIncreasing(Row(i, n2, admit))
  {
    if n2 > 0 {
      RowIncreasing(i, n2 - 1, admit);
      var prefix := Row(i, n2 - 1, admit);
      forall a | 0 <= a < |prefix|
        ensures prefix[a].0 == i && prefix[a].1 < n2 - 1
      {
        RowMembership(i, n2 - 1, admit, prefix[a]);
      }
    }
  }

  /** Membership: exactly the admitted pairs in range. */
  lemma {:induction false} LexPairsMembership(n1: nat, n2: nat, admit: (nat, nat) -> bool, p: Pair)
    ensures p in LexPairs(n1, n2, admit) <==> p.0 < n1 && p.1 < n2 && admit(p.0, p.1)
  {
    if n1 == 0 {
      assert LexPairs(n1, n2, admit) == [];
    } else {
      var prefix, row := LexPairs(n1 - 1, n2, admit), Row(n1 - 1, n2, admit);
      assert LexPairs(n1, n2, admit) == prefix + row;
      LexPairsMembership(n1 - 1, n2, admit, p);
      RowMembership(n1 - 1, n2, admit, p);
      assert p in prefix + row <==> p in prefix || p in row;
      if p.0 < n1 - 1 {
        assert p !in row;
      } else if p.0 == n1 - 1 {
        assert p !in prefix;
      } else {
        assert p !in prefix && p !in row;
      }
    }
  }

  /** Order: row-major, strictly increasing, hence without repetitions. */
  lemma {:induction false} LexPairsIncreasing(n1: nat, n2: nat, admit: (nat, nat) -> bool)
    ensures StrictlyIncreasing(LexPairs(n1, n2, admit))
    ensures forall a, b :: 0 <= a < b < |LexPairs(n1, n2, admit)| ==> LexPairs(n1, n2, admit)[a] != LexPairs(n1, n2, admit)[b]
  {
    if n1 > 0 {
      LexPairsIncreasing(n1 - 1, n2, admit);
      RowIncreasing(n1 - 1, n2, admit);
      var prefix, row := LexPairs(n1 - 1, n2, admit), Row(n1 - 1, n2, admit);
      forall a | 0 <= a < |prefix|
        ensures prefix[a].0 < n1 - 1
      {
        LexPairsMembership(n1 - 1, n2, admit, prefix[a]);
      }
      forall b | 0 <= b < |row|
        ensures row[b].0 == n1 - 1
      {
        RowMembership(n1 - 1, n2, admit, row[b]);
      }
    }
  }

  lemma {:induction false} RowCount(i: nat, n2: nat)
    ensures |Row(i, n2, AllPairs())| == n2
    ensures |Row(i, n2, UpperPairs())| == if i <= n2 then n2 - i else 0
  {
    if n2 > 0 {
      RowCount(i, n2 - 1);
    }
  }

  /** Without a selection rule, every one of the n1 * n2 pairs is enumerated. */
  lemma {:induction false} AllPairsCount(n1: nat, n2: nat)
    ensures |LexPairs(n1, n2, AllPairs())| == n1 * n2
  {
    if n1 > 0 {
      AllPairsCount(n1 - 1, n2);
      RowCount(n1 - 1, n2);
      assert |LexPairs(n1, n2, AllPairs())| == |LexPairs(n1 - 1, n2, AllPairs())| + |Row(n1 - 1, n2, AllPairs())|;
      assert n1 * n2 == (n1 - 1) * n2 + n2;
    }
  }

  /** The arithmetic of one induction step of UpperPairsCountGeneral. */
  lemma UpperPairsStep(n1: int, n2: int, c: int)
    requires 2 * c == 2 * (n1 - 1) * n2 - (n1 - 1) * (n1 - 2)
    ensures 2 * (c + (n2 - (n1 - 1))) == 2 * n1 * n2 - n1 * (n1 - 1)
  {
    var p, q := n1 * n2, n1 * n1;
    assert (n1 - 1) * n2 == p - n2;
    assert (n1 - 1) * (n1 - 2) == q - 3 * n1 + 2;
    assert n1 * (n1 - 1) == q - n1;
  }

  lemma {:induction false} UpperPairsCountGeneral(n1: nat, n2: nat)
    requires n1 <= n2
    ensures 2 * |LexPairs(n1, n2, UpperPairs())| == 2 * n1 * n2 - n1 * (n1 - 1)
  {
    if n1 > 0 {
      var m := n1 - 1;
      UpperPairsCountGeneral(m, n2);
      RowCount(m, n2);
      var c := |LexPairs(m, n2, UpperPairs())|;
      assert |LexPairs(n1, n2, UpperPairs())| == c + (n2 - m);
      UpperPairsStep(n1, n2, c);
    }
  }

  /** Canonical (bra <= ket) pairs over n subspaces: n (n + 1) / 2 of them. */
  lemma UpperPairsCount(n: nat)
    ensures 2 * |LexPairs(n, n, UpperPairs())| == n * (n + 1)
  {
    UpperPairsCountGeneral(n, n);
  }
}
