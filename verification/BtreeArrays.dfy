/** The array helpers of btree.h: loops that shift or copy a range of cells in place. */
module BtreeArrays {

  /** `sift_right`: [p, n) moves right by k positions. */
  method SiftRight<T>(a: array<T>, p: nat, n: nat, k: nat)
    requires p <= n && n + k <= a.Length
    modifies a
    ensures forall i :: 0 <= i < a.Length ==> a[i] == if p + k <= i < n + k then old(a[i - k]) else old(a[i])
  {
    if k == 0 { return; }
    var i := n + k - 1;
    while i > p + k - 1
      invariant p + k - 1 <= i <= n + k - 1
      invariant forall j :: 0 <= j < a.Length ==> a[j] == if i < j < n + k then old(a[j - k]) else old(a[j])
    {
      a[i] := a[i - k];
      i := i - 1;
    }
  }

  /** `sift_left`: [p + k, n) moves left by k positions; nothing happens when that is empty. */
  method SiftLeft<T>(a: array<T>, p: nat, n: nat, k: nat)
    requires n <= a.Length
    modifies a
    ensures forall i :: 0 <= i < a.Length ==> a[i] == if p <= i && i + k < n then old(a[i + k]) else old(a[i])
  {
    if p + k >= n { return; }
    var i := p;
    while i < n - k
      invariant p <= i <= n - k
      invariant forall j :: 0 <= j < a.Length ==> a[j] == if p <= j < i then old(a[j + k]) else old(a[j])
    {
      a[i] := a[i + k];
      i := i + 1;
    }
  }

  /** `copy_into`: source[p, n) to dest from position d on. */
  method CopyInto<T>(dest: array<T>, d: nat, source: array<T>, p: nat, n: nat)
    requires dest != source && p <= n <= source.Length && d + (n - p) <= dest.Length
    modifies dest
    ensures forall i :: 0 <= i < dest.Length ==>
        dest[i] == if d <= i < d + (n - p) then source[p + i - d] else old(dest[i])
  {
    var i := p;
    while i < n
      invariant p <= i <= n
      invariant forall j :: 0 <= j < dest.Length ==>
          dest[j] == if d <= j < d + (i - p) then source[p + j - d] else old(dest[j])
    {
      dest[d + i - p] := source[i];
      i := i + 1;
    }
  }

  /** A shift to the right, by parts. */
  lemma ShiftedRight<T>(s: seq<T>, t: seq<T>, p: nat, n: nat, k: nat)
    requires |t| == |s| && p <= n && n + k <= |s|
    requires forall i {:trigger t[i]} :: 0 <= i < |t| ==> t[i] == if p + k <= i < n + k then s[i - k] else s[i]
    ensures t[..p + k] == s[..p + k] && t[p + k..n + k] == s[p..n] && t[n + k..] == s[n + k..]
  {
  }

  lemma StoredInGap<T>(s: seq<T>, t: seq<T>, n: nat, pos: nat, x: T)
    requires |t| == |s| && pos <= n < |s|
    requires t[..pos + 1] == s[..pos + 1] && t[pos + 1..n + 1] == s[pos..n] && t[n + 1..] == s[n + 1..]
    ensures t[pos := x][..n + 1] == s[..pos] + [x] + s[pos..n] && t[pos := x][n + 1..] == s[n + 1..]
  {
    var r := t[pos := x];
    assert r[..pos] == t[..pos + 1][..pos] == s[..pos + 1][..pos];
    assert r[..n + 1] == r[..pos] + [x] + t[pos + 1..n + 1];
  }

  /** Shift right by one and store: x joins the first n cells at pos. */
  method InsertCell<T>(a: array<T>, n: nat, pos: nat, x: T)
    requires pos <= n < a.Length
    modifies a
    ensures a[..n + 1] == old(a[..pos]) + [x] + old(a[pos..n])
    ensures a[n + 1..] == old(a[n + 1..])
  {
    ghost var s := a[..];
    SiftRight(a, pos, n, 1);
    ghost var t := a[..];
    ShiftedRight(s, t, pos, n, 1);
    StoredInGap(s, t, n, pos, x);
    a[pos] := x;
    assert a[..] == t[pos := x];
  }

  /** Shift left by one: the cell at pos leaves the first n. */
  method RemoveCell<T>(a: array<T>, n: nat, pos: nat)
    requires pos < n <= a.Length
    modifies a
    ensures a[..n - 1] == old(a[..pos]) + old(a[pos + 1..n])
  {
    SiftLeft(a, pos, n, 1);
  }

  /** Store behind the first n cells. */
  method StoreCell<T>(a: array<T>, n: nat, x: T)
    requires n < a.Length
    modifies a
    ensures a[..n + 1] == old(a[..n]) + [x]
  {
    a[n] := x;
  }

  /** Copy behind the first d cells of dest. */
  method AppendCells<T>(dest: array<T>, d: nat, source: array<T>, p: nat, n: nat)
    requires dest != source && p <= n <= source.Length && d + (n - p) <= dest.Length
    modifies dest
    ensures dest[..d + (n - p)] == old(dest[..d]) + source[p..n]
  {
    CopyInto(dest, d, source, p, n);
  }

  /** Copy [p, n) of source to the front of dest, with x before the cell at pos. */
  method CopyWith<T>(dest: array<T>, source: array<T>, p: nat, pos: nat, n: nat, x: T)
    requires dest != source && p <= pos <= n <= source.Length && n - p + 1 <= dest.Length
    modifies dest
    ensures dest[..n - p + 1] == source[p..pos] + [x] + source[pos..n]
  {
    AppendCells(dest, 0, source, p, pos);
    assert dest[..0] + source[p..pos] == source[p..pos];
    StoreCell(dest, pos - p, x);
    AppendCells(dest, pos - p + 1, source, pos, n);
  }

  /** Copy the first n cells of source but pos behind the first d of dest. */
  method AppendAllBut<T>(dest: array<T>, d: nat, source: array<T>, pos: nat, n: nat)
    requires dest != source && pos < n <= source.Length && d + n - 1 <= dest.Length
    modifies dest
    ensures dest[..d + n - 1] == old(dest[..d]) + (source[..pos] + source[pos + 1..n])
  {
    AppendCells(dest, d, source, 0, pos);
    AppendCells(dest, d + pos, source, pos + 1, n);
  }

  /** The cell at pos leaves the first n and x comes in front. */
  method RotateIn<T>(a: array<T>, n: nat, pos: nat, x: T)
    requires pos < n <= a.Length
    modifies a
    ensures a[..n] == [x] + (old(a[..pos]) + old(a[pos + 1..n]))
  {
    ghost var s := a[..];
    SiftRight(a, 0, pos, 1);
    ghost var t := a[..];
    ShiftedRight(s, t, 0, pos, 1);
    Rotated(s, t, n, pos, x);
    a[0] := x;
    assert a[..] == t[0 := x];
  }

  lemma Rotated<T>(s: seq<T>, t: seq<T>, n: nat, pos: nat, x: T)
    requires |t| == |s| && pos < n <= |s| && t[1..pos + 1] == s[..pos] && t[pos + 1..] == s[pos + 1..]
    ensures t[0 := x][..n] == [x] + (s[..pos] + s[pos + 1..n])
  {
    var r := t[0 := x];
    assert r[pos + 1..n] == t[pos + 1..][..n - pos - 1] == s[pos + 1..][..n - pos - 1] == s[pos + 1..n];
    assert r[..n] == [x] + (t[1..pos + 1] + r[pos + 1..n]);
  }
}
