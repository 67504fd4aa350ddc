/** Slugs of asset categories: the first of base, base-2, base-3, ... that is not stored. */
module UniqueSlugs {
  import opened Decimal

  /** The k-th candidate, counting from zero. */
  function Candidate(base: string, k: nat): string {
    if k == 0 then base else base + "-" + Digits(k + 1)
  }

  lemma CandidatesDiffer(base: string, j: nat, k: nat)
    requires j != k
    ensures Candidate(base, j) != Candidate(base, k)
  {
    if j == 0 || k == 0 {
      assert |Candidate(base, j + k)| > |base|;
    } else {
      var n := |base + "-"|;
      assert Candidate(base, j)[n..] == Digits(j + 1);
      assert Candidate(base, k)[n..] == Digits(k + 1);
      if Digits(j + 1) == Digits(k + 1) {
        DigitsInjective(j + 1, k + 1);
      }
    }
  }

  /** The first k candidates are k different strings. */
  lemma {:induction false} CandidatesCount(base: string, k: nat) returns (first: set<string>)
    ensures |first| == k && forall c :: c in first <==> exists j :: 0 <= j < k && c == Candidate(base, j)
  {
    if k == 0 {
      first := {};
    } else {
      var earlier := CandidatesCount(base, k - 1);
      var next := Candidate(base, k - 1);
      forall j | 0 <= j < k - 1 ensures Candidate(base, j) != next {
        CandidatesDiffer(base, j, k - 1);
      }
      assert next !in earlier;
      first := earlier + {next};
      forall c ensures c in first <==> exists j :: 0 <= j < k && c == Candidate(base, j) {
        if j :| 0 <= j < k && c == Candidate(base, j) {
          assert j == k - 1 || c in earlier;
        }
      }
    }
  }

  lemma SubsetSize(a: set<string>, b: set<string>)
    requires a <= b
    ensures |a| <= |b|
  {
    assert b == a + (b - a);
  }

  /** k candidates can only all be stored if at least k slugs are. */
  lemma StoredCandidatesFit(stored: set<string>, base: string, k: nat)
    requires forall j :: 0 <= j < k ==> Candidate(base, j) in stored
    ensures k <= |stored|
  {
    var first := CandidatesCount(base, k);
    SubsetSize(first, stored);
  }

  class AssetCategories {
    var slugs: set<string>

    constructor ()
      ensures slugs == {}
    {
      slugs := {};
    }

    /** Terminates after at most one probe more than there are stored slugs, with the first free candidate. */
    method UniqueSlug(base: string) returns (candidate: string)
      ensures candidate !in slugs
      ensures exists k :: 0 <= k <= |slugs| && candidate == Candidate(base, k)
                && forall j :: 0 <= j < k ==> Candidate(base, j) in slugs
    {
      candidate := base;
      var index := 2;
      while candidate in slugs
        invariant index >= 2 && candidate == Candidate(base, index - 2)
        invariant forall j :: 0 <= j < index - 2 ==> Candidate(base, j) in slugs
        decreases |slugs| + 2 - index
      {
        StoredCandidatesFit(slugs, base, index - 1);
        candidate := base + "-" + Digits(index);
        index := index + 1;
      }
      StoredCandidatesFit(slugs, base, index - 2);
    }

    method Create(base: string) returns (slug: string)
      modifies this
      ensures slug !in old(slugs) && slugs == old(slugs) + {slug}
    {
      slug := UniqueSlug(base);
      slugs := slugs + {slug};
    }
  }
}
