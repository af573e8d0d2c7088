/** The searches inside one node (bench/servers/silo/btree.h and the scan of
    FindRespLeafLowerBound in btree_impl.h), loops over the node's arrays. The ghost argument s
    is the slot sequence the arrays stand for. */
module BtreeSearch {
  import opened Options
  import opened Varkey
  import opened BtreeModel
  import opened BtreeRuns

  /** Ranks order by slice, then by length. */
  lemma RankLexicographic(x: Slot, slice: nat, len: nat)
    requires x.len <= 9 && len <= 9
    ensures x.Rank() < Rank(slice, len) <==> x.slice < slice || (x.slice == slice && x.len < len)
    ensures x.Rank() == Rank(slice, len) <==> x.slice == slice && x.len == len
  {
  }

  lemma PosUnique(s: seq<Slot>, r: nat, p: nat)
    requires Sorted(s) && p <= |s|
    requires p > 0 ==> s[p - 1].Rank() <= r
    requires p < |s| ==> r < s[p].Rank()
    ensures Pos(s, r) == p
  {
  }

  /** The first n cells show the slices and lengths of s, which is in strictly increasing order. */
  ghost predicate Shows(keys: array<nat>, lengths: array<nat>, n: nat, s: seq<Slot>)
    reads keys, lengths
  {
    && |s| == n <= keys.Length && n <= lengths.Length
    && forall i :: 0 <= i < n ==> s[i].slice == keys[i] && s[i].len == lengths[i] <= 9
  }

  /** Everything below lower is ranked less, everything from upper on more. */
  ghost predicate Bracket(s: seq<Slot>, rank: nat, lower: nat, upper: nat) {
    && lower <= upper <= |s|
    && (lower > 0 ==> s[lower - 1].Rank() < rank)
    && (upper < |s| ==> rank < s[upper].Rank())
  }

  /** `key_search` of a leaf: the slot of exactly this slice and length, or -1. */
  method KeySearch(keys: array<nat>, lengths: array<nat>, n: nat, slice: nat, len: nat, ghost s: seq<Slot>)
    returns (r: int)
    requires Shows(keys, lengths, n, s) && Sorted(s) && len <= 9
    ensures -1 <= r < n
    ensures r >= 0 ==> s[r].Rank() == Rank(slice, len) && Pos(s, Rank(slice, len)) == r + 1
    ensures r == -1 <==> At(s, Rank(slice, len)).None?
  {
    ghost var rank := Rank(slice, len);
    var lower, upper := 0, n;
    while lower < upper
      invariant 0 <= lower && 0 <= upper && Bracket(s, rank, lower, upper)
    {
      var i := (lower + upper) / 2;
      RankLexicographic(s[i], slice, len);
      if keys[i] < slice || (keys[i] == slice && lengths[i] < len) {
        lower := i + 1;
      } else if keys[i] == slice && lengths[i] == len {
        FoundAt(s, rank, i);
        return i;
      } else {
        upper := i;
      }
    }
    NotThere(s, rank, lower);
    return -1;
  }

  lemma FoundAt(s: seq<Slot>, rank: nat, i: nat)
    requires Sorted(s) && i < |s| && s[i].Rank() == rank
    ensures Pos(s, rank) == i + 1 && At(s, rank).Some?
  {
    PosUnique(s, rank, i + 1);
  }

  lemma NotThere(s: seq<Slot>, rank: nat, i: nat)
    requires Sorted(s) && Bracket(s, rank, i, i)
    ensures At(s, rank).None?
  {
    PosUnique(s, rank, i);
  }

  /** `key_lower_bound_search` of a leaf: the last slot ranked at most (slice, len), or -1. */
  method LowerBound(keys: array<nat>, lengths: array<nat>, n: nat, slice: nat, len: nat, ghost s: seq<Slot>)
    returns (r: int)
    requires Shows(keys, lengths, n, s) && Sorted(s) && len <= 9
    ensures -1 <= r < n
    ensures r + 1 == Pos(s, Rank(slice, len))
  {
    var lower, upper := 0, n;
    r := -1;
    while lower < upper
      invariant 0 <= lower && 0 <= upper && Bracket(s, Rank(slice, len), lower, upper) && r + 1 == lower
    {
      var i := (lower + upper) / 2;
      RankLexicographic(s[i], slice, len);
      if keys[i] < slice || (keys[i] == slice && lengths[i] < len) {
        r, lower := i, i + 1;
      } else if keys[i] == slice && lengths[i] == len {
        PosUnique(s, Rank(slice, len), i + 1);
        return i;
      } else {
        upper := i;
      }
    }
    PosUnique(s, Rank(slice, len), lower);
  }

  /** The scan has seen the slots before i, starting at ret. */
  ghost predicate Scanned(s: seq<Slot>, rank: nat, ret: int, i: int, idxMatch: int, idxLower: int) {
    && -1 <= ret <= idxLower < |s| && ret <= i <= |s|
    && (idxLower >= 0 ==> s[idxLower].Rank() <= rank)
    && (if i <= ret then idxLower == ret && idxMatch == -1
        else && idxLower < i
             && (idxLower + 1 < i ==> rank < s[idxLower + 1].Rank())
             && idxMatch == if idxLower >= 0 && s[idxLower].Rank() == rank then idxLower else -1)
  }

  lemma ScanStep(s: seq<Slot>, slice: nat, len: nat, ret: int, i: nat, m: int, lb: int)
    requires Sorted(s) && i < |s| && s[i].len <= 9 && len <= 9 && ret + 1 == Pos(s, Rank(slice, 0))
    requires Scanned(s, Rank(slice, len), ret, i, m, lb) && s[i].slice <= slice
    ensures
      if s[i].slice == slice && s[i].len <= len
      then Scanned(s, Rank(slice, len), ret, i + 1, if s[i].len == len then i else m, i)
      else Scanned(s, Rank(slice, len), ret, i + 1, m, lb)
  {
    RankLexicographic(s[i], slice, len);
    RankLexicographic(s[i], slice, 0);
  }

  lemma ScanDone(s: seq<Slot>, slice: nat, len: nat, ret: int, i: nat, m: int, lb: int)
    requires Sorted(s) && i <= |s| && len <= 9 && ret + 1 == Pos(s, Rank(slice, 0))
    requires Scanned(s, Rank(slice, len), ret, i, m, lb)
    requires i < |s| ==> slice < s[i].slice
    ensures lb + 1 == Pos(s, Rank(slice, len))
    ensures m == if At(s, Rank(slice, len)).Some? then lb else -1
  {
    PosUnique(s, Rank(slice, len), lb + 1);
  }

  /** The scan of `FindRespLeafLowerBound`, once the responsible leaf is found. */
  method FindLowerBound(keys: array<nat>, lengths: array<nat>, n: nat, slice: nat, len: nat, ghost s: seq<Slot>)
    returns (idxMatch: int, idxLower: int)
    requires Shows(keys, lengths, n, s) && Sorted(s) && len <= 9
    ensures -1 <= idxMatch < n
    ensures idxLower + 1 == Pos(s, Rank(slice, len))
    ensures idxMatch == if At(s, Rank(slice, len)).Some? then idxLower else -1
  {
    var ret := LowerBound(keys, lengths, n, slice, 0, s);
    idxMatch, idxLower := -1, ret;
    var i := if ret == -1 then 0 else ret;
    while i < n
      invariant 0 <= i && Scanned(s, Rank(slice, len), ret, i, idxMatch, idxLower)
    {
      if keys[i] <= slice { ScanStep(s, slice, len, ret, i, idxMatch, idxLower); }
      if keys[i] < slice {
      } else if keys[i] == slice {
        if lengths[i] <= len {
          idxLower := i;
          if lengths[i] == len { idxMatch := i; }
        }
      } else {
        break;
      }
      i := i + 1;
    }
    ScanDone(s, slice, len, ret, i, idxMatch, idxLower);
  }

  /** `key_lower_bound_search` of an internal node: the child to descend into is r + 1. */
  method ChildSearch(keys: array<nat>, n: nat, slice: nat) returns (r: int)
    requires n <= keys.Length && Ascending(keys[..n])
    ensures -1 <= r < n
    ensures r + 1 == ChildIdx(keys[..n], slice)
  {
    var lower, upper := 0, n;
    r := -1;
    ghost var s := keys[..n];
    while lower < upper
      invariant 0 <= lower <= upper <= n && r + 1 == lower
      invariant lower > 0 ==> s[lower - 1] < slice
      invariant upper < n ==> slice < s[upper]
    {
      var i := (lower + upper) / 2;
      assert s[i] == keys[i];
      if keys[i] == slice {
        ChildIdxUnique(s, slice, i + 1);
        return i;
      } else if keys[i] > slice {
        upper := i;
      } else {
        r, lower := i, i + 1;
      }
    }
    ChildIdxUnique(s, slice, lower);
  }

  // ---- the loops that look for the end of a run of equal slices ----

  ghost predicate ShowsSlices(keys: array<nat>, n: nat, s: seq<Slot>)
    reads keys
  {
    |s| == n <= keys.Length && forall i :: 0 <= i < n ==> s[i].slice == keys[i]
  }

  /** Left split point, and the steal point in a left sibling. */
  method FirstOfRun(keys: array<nat>, n: nat, start: nat, ghost s: seq<Slot>) returns (p: nat)
    requires ShowsSlices(keys, n, s) && start < n
    ensures p == RunStart(s, start)
  {
    p := start;
    var i: int := start - 1;
    while i >= 0
      invariant -1 <= i == p - 1 && p <= start && RunStart(s, start) == RunStart(s, p)
    {
      if keys[i] != keys[p] { break; }
      p := p - 1;
      i := i - 1;
    }
  }

  /** Right split point, and the steal point in a right sibling. */
  method EndOfRun(keys: array<nat>, n: nat, start: nat, ghost s: seq<Slot>) returns (p: nat)
    requires ShowsSlices(keys, n, s) && 1 <= start <= n
    ensures p == RunEnd(s, start)
  {
    p := start;
    var i := start - 1;
    while i < n - 1
      invariant 0 <= i == p - 1 && start <= p <= n && RunEnd(s, start) == RunEnd(s, p)
    {
      if keys[i] != keys[p] { break; }
      p := p + 1;
      i := i + 1;
    }
  }
}
