/** Byte-string keys of the silo B+-tree and their 8-byte slices
    (bench/servers/silo/varkey.h). */
module Varkey {

  type Byte = b: int | 0 <= b < 256

  type Key = seq<Byte>

  /** One more than the largest `key_slice` (a `uint64_t`). */
  const SLICE_LIMIT: nat := 0x1_0000_0000_0000_0000

  function Pow256(n: nat): (r: nat)
    ensures r >= 1
  {
    if n == 0 then 1 else 256 * Pow256(n - 1)
  }

  /** A byte string read as a big-endian number. */
  function BigEndian(s: seq<Byte>): (r: nat)
    ensures r < Pow256(|s|)
  {
    if s == [] then 0 else BigEndian(s[..|s| - 1]) * 256 + s[|s| - 1]
  }

  /** The first eight bytes, padded with zeros. */
  function Pad8(k: Key): (r: seq<Byte>)
    ensures |r| == 8
  {
    if |k| >= 8 then k[..8] else k + seq(8 - |k|, _ => 0)
  }

  function Slice(k: Key): (s: nat)
    ensures s < SLICE_LIMIT
  {
    assert Pow256(8) == SLICE_LIMIT by {
      assert Pow256(4) == 0x1_0000_0000;
    }
    BigEndian(Pad8(k))
  }

  /** Slice length as the tree stores it: 9 stands for "more than eight bytes". */
  function SliceLen(k: Key): (l: nat)
    ensures l <= 9
  {
    if |k| > 8 then 9 else |k|
  }

  /** `varkey::shift`. */
  function Shift(k: Key): Key
    requires |k| >= 8
  {
    k[8..]
  }

  /** The (slice, slice length) pair, packed so that the pair order is the integer order. */
  function Rank(slice: nat, len: nat): nat {
    10 * slice + len
  }

  function KeyRank(k: Key): nat {
    Rank(Slice(k), SliceLen(k))
  }

  lemma {:induction false} BigEndianInjective(a: seq<Byte>, b: seq<Byte>)
    requires |a| == |b|
    requires BigEndian(a) == BigEndian(b)
    ensures a == b
  {
    if a != [] {
      var n := |a| - 1;
      var x, y := BigEndian(a[..n]), BigEndian(b[..n]);
      assert x * 256 + a[n] == y * 256 + b[n];
      BigEndianInjective(a[..n], b[..n]);
      assert a == a[..n] + [a[n]] && b == b[..n] + [b[n]];
    }
  }

  /** Slice and length decide a short key, and the first eight bytes of a long one. */
  lemma RankDecidesPrefix(k: Key, k': Key)
    requires KeyRank(k) == KeyRank(k')
    ensures SliceLen(k) == SliceLen(k')
    ensures SliceLen(k) <= 8 ==> k == k'
    ensures SliceLen(k) == 9 ==> k[..8] == k'[..8]
    ensures SliceLen(k) == 9 && Shift(k) == Shift(k') ==> k == k'
  {
    assert Slice(k) == Slice(k') && SliceLen(k) == SliceLen(k');
    BigEndianInjective(Pad8(k), Pad8(k'));
    if |k| <= 8 {
      assert k == Pad8(k)[..|k|] && k' == Pad8(k')[..|k|];
    } else {
      assert k == k[..8] + k[8..] && k' == k'[..8] + k'[8..];
    }
  }

  // ---- the order of keys ----

  /** a and b differ first at i, where a is smaller. */
  predicate SmallerAt(a: seq<Byte>, b: seq<Byte>, i: nat) {
    i < |a| && i < |b| && a[..i] == b[..i] && a[i] < b[i]
  }

  /** The order of byte strings: first difference, a proper prefix first. */
  ghost predicate Before(k: Key, k': Key) {
    (exists i :: SmallerAt(k, k', i)) || (|k| < |k'| && k == k'[..|k|])
  }

  /** The numbers compare like the bytes. */
  lemma {:induction false} BigEndianOrder(a: seq<Byte>, b: seq<Byte>) returns (i: nat)
    requires |a| == |b| && BigEndian(a) < BigEndian(b)
    ensures SmallerAt(a, b, i)
  {
    var n := |a| - 1;
    var x, y := BigEndian(a[..n]), BigEndian(b[..n]);
    assert x * 256 + a[n] < y * 256 + b[n];
    if x == y {
      BigEndianInjective(a[..n], b[..n]);
      i := n;
    } else {
      i := BigEndianOrder(a[..n], b[..n]);
      assert a[..i] == a[..n][..i] && b[..i] == b[..n][..i];
    }
  }

  lemma PrefixOfPad(k: Key, i: nat)
    requires i <= |k| && i <= 8
    ensures Pad8(k)[..i] == k[..i]
  {
  }

  lemma SliceOrder(k: Key, k': Key)
    requires Slice(k) < Slice(k')
    ensures Before(k, k')
  {
    var i := BigEndianOrder(Pad8(k), Pad8(k'));
    var a, b := Pad8(k), Pad8(k');
    assert i < |k'|;
    if i < |k| {
      PrefixOfPad(k, i);
      PrefixOfPad(k', i);
      assert SmallerAt(k, k', i);
    } else {
      PrefixOfPad(k, |k|);
      PrefixOfPad(k', |k|);
      assert a[..|k|] == a[..i][..|k|] == b[..|k|];
    }
  }

  lemma RankOrder(k: Key, k': Key)
    requires KeyRank(k) < KeyRank(k')
    ensures Before(k, k')
  {
    if Slice(k) < Slice(k') {
      SliceOrder(k, k');
    } else {
      BigEndianInjective(Pad8(k), Pad8(k'));
      PrefixOfPad(k, |k|);
      PrefixOfPad(k', |k|);
    }
  }

  /** A first difference is the only one. */
  lemma OneDifference(a: seq<Byte>, b: seq<Byte>, i: nat)
    requires SmallerAt(a, b, i)
    ensures forall j: nat :: j < i ==> a[j] == b[j]
    ensures forall j: nat :: i < j <= |a| && j <= |b| ==> a[..j] != b[..j]
  {
    forall j: nat | j < i ensures a[j] == b[j] {
      assert a[j] == a[..i][j] && b[j] == b[..i][j];
    }
    forall j: nat | i < j <= |a| && j <= |b| ensures a[..j] != b[..j] {
      assert a[..j][i] == a[i] && b[..j][i] == b[i];
    }
  }

  lemma NotBoth(k: Key, k': Key)
    requires Before(k, k')
    ensures !Before(k', k) && k != k'
  {
    if i :| SmallerAt(k, k', i) {
      OneDifference(k, k', i);
    } else {
      assert forall j :: 0 <= j < |k| ==> k[j] == k'[..|k|][j] == k'[j];
    }
  }

  /** Keys with the same first eight bytes compare like what follows. */
  lemma ShiftOrder(k: Key, k': Key)
    requires |k| > 8 && |k'| > 8 && k[..8] == k'[..8]
    ensures Before(k, k') <==> Before(Shift(k), Shift(k'))
  {
    assert k == k[..8] + Shift(k) && k' == k[..8] + Shift(k');
    var p, s, s' := k[..8], Shift(k), Shift(k');
    assert forall i :: 0 <= i < 8 ==> k[i] == p[i] == k'[i];
    forall i: nat | SmallerAt(k, k', i) ensures SmallerAt(s, s', i - 8) {
      assert k[..i] == p + s[..i - 8] && k'[..i] == p + s'[..i - 8];
      assert s[..i - 8] == k[..i][8..] == s'[..i - 8];
    }
    forall i: nat | SmallerAt(s, s', i) ensures SmallerAt(k, k', i + 8) {
      assert k[..i + 8] == p + s[..i] == p + s'[..i] == k'[..i + 8];
    }
    if |k| < |k'| {
      assert k'[..|k|] == p + s'[..|s|] && s'[..|s|] == k'[..|k|][8..];
    }
  }

  /** The trees compare slices and slice lengths as numbers, and go to the next layer on equal ones with more
      than eight bytes: this is the order of the byte strings. */
  lemma RankFollowsBytes(k: Key, k': Key)
    ensures Before(k, k') <==>
      KeyRank(k) < KeyRank(k') || (KeyRank(k) == KeyRank(k') && |k| > 8 && Before(Shift(k), Shift(k')))
  {
    if KeyRank(k) < KeyRank(k') {
      RankOrder(k, k');
    } else if KeyRank(k') < KeyRank(k) {
      RankOrder(k', k);
      NotBoth(k', k);
    } else {
      RankDecidesPrefix(k, k');
      if |k| > 8 {
        ShiftOrder(k, k');
      } else if Before(k, k') {
        NotBoth(k, k');
      }
    }
  }
}
