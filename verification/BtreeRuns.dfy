/** Runs of equal slices in a sorted leaf. */
module BtreeRuns {
  import opened Varkey
  import opened BtreeModel

  /** First index of the run of equal slices that contains p. */
  function RunStart(s: seq<Slot>, p: nat): (q: nat)
    requires p < |s|
    ensures q <= p
    ensures forall i :: q <= i <= p ==> s[i].slice == s[p].slice
    ensures q > 0 ==> s[q - 1].slice != s[q].slice
  {
    if p > 0 && s[p - 1].slice == s[p].slice then RunStart(s, p - 1) else p
  }

  /** First index from p on at which a new run begins, or the end. */
  function RunEnd(s: seq<Slot>, p: nat): (q: nat)
    requires 1 <= p <= |s|
    ensures p <= q <= |s|
    ensures forall i :: p <= i < q ==> s[i].slice == s[p - 1].slice
    ensures q < |s| ==> s[q - 1].slice != s[q].slice
    decreases |s| - p
  {
    if p < |s| && s[p - 1].slice == s[p].slice then RunEnd(s, p + 1) else p
  }

  lemma {:induction false} RanksGrow(s: seq<Slot>, i: nat, j: nat)
    requires Sorted(s) && i <= j < |s|
    ensures s[i].Rank() + (j - i) <= s[j].Rank()
    decreases j
  {
    if i < j {
      RanksGrow(s, i, j - 1);
      assert s[j - 1].Rank() < s[j].Rank();
    }
  }

  /** One slice has at most ten entries in a leaf: lengths 0 to 9. */
  lemma RunLength(s: seq<Slot>, i: nat, j: nat)
    requires Sorted(s) && i <= j < |s|
    requires s[i].slice == s[j].slice && s[j].len <= 9
    ensures j - i <= 9
  {
    RanksGrow(s, i, j);
  }
}
