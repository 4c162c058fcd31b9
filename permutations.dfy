// Reorderings of n items, shared by the card deck and the piece bags.

module Permutations {

  /** `perm` reorders n items: it lists each of 0 .. n-1 once. */
  predicate IsPermutation(perm: seq<int>, n: nat) {
    && |perm| == n
    && (forall i :: 0 <= i < n ==> 0 <= perm[i] < n)
    && (forall i, j :: 0 <= i < j < n ==> perm[i] != perm[j])
  }

  /** The integers 0 .. n-1. */
  function Below(n: nat): (r: set<int>)
    ensures forall k :: k in r <==> 0 <= k < n
  {
    if n == 0 then {} else Below(n - 1) + {n - 1}
  }

  /** The values a sequence of indices takes. */
  function Image(perm: seq<int>): set<int> {
    set i | 0 <= i < |perm| :: perm[i]
  }

  lemma {:induction false} BelowSize(n: nat)
    ensures |Below(n)| == n
  {
    if n > 0 {
      BelowSize(n - 1);
    }
  }

  /** A sequence without repetitions takes as many values as it has entries. */
  lemma {:induction false} ImageSize(perm: seq<int>)
    requires forall i, j :: 0 <= i < j < |perm| ==> perm[i] != perm[j]
    ensures |Image(perm)| == |perm|
  {
    if |perm| > 0 {
      var front := perm[..|perm| - 1];
      ImageSize(front);
      assert Image(perm) == Image(front) + {perm[|perm| - 1]} by {
        forall v | v in Image(perm) ensures v in Image(front) + {perm[|perm| - 1]} {
          var i :| 0 <= i < |perm| && perm[i] == v;
          if i < |perm| - 1 { assert front[i] == v; }
        }
        forall v | v in Image(front) ensures v in Image(perm) {
          var i :| 0 <= i < |front| && front[i] == v;
          assert perm[i] == v;
        }
      }
      assert perm[|perm| - 1] !in Image(front);
    }
  }

  /** Pigeonhole: a permutation of n items uses every position 0 .. n-1. */
  lemma PermutationCovers(perm: seq<int>, n: nat)
    requires IsPermutation(perm, n)
    ensures forall k :: 0 <= k < n ==> k in Image(perm)
  {
    ImageSize(perm);
    BelowSize(n);
    assert Image(perm) <= Below(n);
    assert |Below(n) - Image(perm)| == 0;
    assert Image(perm) == Below(n);
  }
}
