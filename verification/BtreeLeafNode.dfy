/** `leaf_node` with its parallel arrays, searched and edited in place (bench/servers/silo/btree.h
    and the leaf halves of insert0 and remove0 in btree_impl.h). Every edit is tied to the
    operation on slot sequences that the tree proofs use. */
module BtreeLeafNode {
  import opened Varkey
  import opened BtreeModel
  import opened BtreeRuns
  import opened BtreeLeaf
  import opened BtreeArrays
  import opened BtreeSearch
  import I = BtreeInsert
  import R = BtreeRemove

  // ---- cells as values: what the array helpers do to them ----

  function ShiftRight(s: seq<Slot>, p: nat, m: nat, k: nat): seq<Slot>
    requires p <= m && m + k <= |s|
  {
    s[..p + k] + s[p..m] + s[m + k..]
  }

  function ShiftLeft(s: seq<Slot>, p: nat, m: nat, k: nat): seq<Slot>
    requires m <= |s|
  {
    if p + k >= m then s else s[..p] + s[p + k..m] + s[m - k..]
  }

  function Paste(s: seq<Slot>, d: nat, t: seq<Slot>): seq<Slot>
    requires d + |t| <= |s|
  {
    s[..d] + t + s[d + |t|..]
  }

  lemma InsertCells(s: seq<Slot>, n: nat, pos: nat, x: Slot)
    requires pos <= n < |s|
    ensures ShiftRight(s, pos, n, 1)[pos := x][..n + 1] == InsertAt(s[..n], pos, x)
  {
  }

  lemma RemoveCells(s: seq<Slot>, n: nat, pos: nat)
    requires pos < n <= |s|
    ensures ShiftLeft(s, pos, n, 1)[..n - 1] == RemoveAt(s[..n], pos)
  {
  }

  lemma TailCells(s: seq<Slot>, n: nat, t: seq<Slot>)
    requires n + |t| <= |s|
    ensures Paste(s, n, t)[..n + |t|] == s[..n] + t
  {
  }

  lemma DropCells(s: seq<Slot>, n: nat, p: nat)
    requires p < n <= |s|
    ensures ShiftLeft(s, 0, n, p)[..n - p] == s[p..n]
  {
  }

  lemma ShiftLeftAt(s: seq<Slot>, p: nat, m: nat, k: nat)
    requires m <= |s|
    ensures
      var t := ShiftLeft(s, p, m, k);
      |t| == |s| && forall i {:trigger t[i]} :: 0 <= i < |s| ==> t[i] == if p <= i && i + k < m then s[i + k] else s[i]
  {
    if p + k < m {
      var t := ShiftLeft(s, p, m, k);
      assert t[..p] == s[..p] && t[p..m - k] == s[p + k..m] && t[m - k..] == s[m - k..];
      forall i | 0 <= i < |s| ensures t[i] == if p <= i && i + k < m then s[i + k] else s[i] {
        if i < p {
          assert t[i] == t[..p][i];
        } else if i + k < m {
          assert t[i] == t[p..m - k][i - p];
        } else {
          assert t[i] == t[m - k..][i - (m - k)];
        }
      }
    }
  }

  lemma AppendTwice(t: seq<Slot>, n: nat, s: seq<Slot>, pos: nat)
    requires pos < |s| && n + |s| - 1 <= |t|
    ensures Paste(Paste(t, n, s[..pos]), n + pos, s[pos + 1..])[..n + |s| - 1] == t[..n] + RemoveAt(s, pos)
  {
    TailCells(t, n, s[..pos]);
    TailCells(Paste(t, n, s[..pos]), n + pos, s[pos + 1..]);
  }

  lemma FillCells(t: seq<Slot>, a: seq<Slot>, x: Slot, b: seq<Slot>)
    requires |a| + 1 + |b| <= |t|
    ensures Paste(Paste(t, 0, a)[|a| := x], |a| + 1, b)[..|a| + 1 + |b|] == a + [x] + b
  {
    TailCells(Paste(t, 0, a)[|a| := x], |a| + 1, b);
  }

  /** Making room for t in front while dropping slot pos. */
  lemma PrependCells(s: seq<Slot>, n: nat, pos: nat, t: seq<Slot>)
    requires pos < n && |t| >= 1 && n - 1 + |t| <= |s|
    ensures Paste(ShiftRight(ShiftRight(s, pos + 1, n, |t| - 1), 0, pos, |t|), 0, t)[..n - 1 + |t|] ==
            t + RemoveAt(s[..n], pos)
  {
    var k := |t|;
    var s1 := ShiftRight(s, pos + 1, n, k - 1);
    var s2 := ShiftRight(s1, 0, pos, k);
    assert |s1| == |s| && s1[..pos] == s[..pos] && s1[pos + k..n - 1 + k] == s[pos + 1..n] by {
      ShiftRightAt(s, pos + 1, n, k - 1);
    }
    assert |s2| == |s| && s2[k..k + pos] == s1[..pos] && s2[k + pos..n - 1 + k] == s1[pos + k..n - 1 + k] by {
      ShiftRightAt(s1, 0, pos, k);
    }
    PrependParts(s2, t, s[..n], pos);
  }

  lemma PrependParts(s2: seq<Slot>, t: seq<Slot>, s: seq<Slot>, pos: nat)
    requires pos < |s| && |t| - 1 + |s| <= |s2|
    requires s2[|t|..|t| + pos] == s[..pos] && s2[|t| + pos..|s| - 1 + |t|] == s[pos + 1..]
    ensures Paste(s2, 0, t)[..|s| - 1 + |t|] == t + RemoveAt(s, pos)
  {
    assert s2[|t|..|s| - 1 + |t|] == s2[|t|..|t| + pos] + s2[|t| + pos..|s| - 1 + |t|];
  }

  lemma ShiftRightAt(s: seq<Slot>, p: nat, m: nat, k: nat)
    requires p <= m && m + k <= |s|
    ensures
      var t := ShiftRight(s, p, m, k);
      |t| == |s| && forall i {:trigger t[i]} :: 0 <= i < |s| ==> t[i] == if p + k <= i < m + k then s[i - k] else s[i]
  {
  }

  class LeafNode {
    var minKey: nat
    var n: nat                       // key_slots_used
    const keys: array<nat>
    const lengths: array<nat>
    const values: array<Payload>
    const suffixes: array<Key>
    ghost var cells: seq<Slot>       // all fifteen cells, used or not

    ghost predicate Shape()
      reads this
    {
      && keys.Length == NKEYS && lengths.Length == NKEYS && values.Length == NKEYS && suffixes.Length == NKEYS
      && keys != lengths && n <= NKEYS && |cells| == NKEYS
    }

    ghost predicate Valid()
      reads this, keys, lengths, values, suffixes
    {
      && Shape()
      && forall i :: 0 <= i < NKEYS ==> cells[i] == Slot(keys[i], lengths[i], suffixes[i], values[i])
    }

    /** Two leaves share no array. */
    ghost predicate Apart(o: LeafNode) {
      && this != o && keys != o.keys && keys != o.lengths && lengths != o.keys && lengths != o.lengths
      && values != o.values && suffixes != o.suffixes
    }

    ghost function Contents(): seq<Slot>
      requires Shape()
      reads this
    {
      cells[..n]
    }

    ghost function Value(): Node
      requires Shape()
      reads this
    {
      Leaf(minKey, Contents())
    }

    constructor ()
      ensures Valid() && n == 0 && minKey == 0
      ensures fresh(this) && fresh(keys) && fresh(lengths) && fresh(values) && fresh(suffixes)
    {
      minKey, n := 0, 0;
      keys, lengths := new nat[NKEYS](_ => 0), new nat[NKEYS](_ => 0);
      values := new Payload[NKEYS](_ => Val(0));
      suffixes := new Key[NKEYS](_ => []);
      cells := seq(NKEYS, _ => Slot(0, 0, [], Val(0)));
    }

    // ---- one position in all arrays ----

    method Set(i: nat, x: Slot)
      requires Valid() && i < NKEYS
      modifies this`cells, keys, lengths, values, suffixes
      ensures Valid() && cells == old(cells)[i := x]
    {
      keys[i], lengths[i], values[i], suffixes[i] := x.slice, x.len, x.vn, x.suffix;
      cells := cells[i := x];
    }

    method Right(p: nat, m: nat, k: nat)
      requires Valid() && p <= m && m + k <= NKEYS
      modifies this`cells, keys, lengths, values, suffixes
      ensures Valid() && cells == ShiftRight(old(cells), p, m, k)
    {
      SiftRight(keys, p, m, k);
      SiftRight(values, p, m, k);
      SiftRight(lengths, p, m, k);
      SiftRight(suffixes, p, m, k);
      ShiftRightAt(cells, p, m, k);
      cells := ShiftRight(cells, p, m, k);
    }

    method Left(p: nat, m: nat, k: nat)
      requires Valid() && m <= NKEYS
      modifies this`cells, keys, lengths, values, suffixes
      ensures Valid() && cells == ShiftLeft(old(cells), p, m, k)
    {
      SiftLeft(keys, p, m, k);
      SiftLeft(values, p, m, k);
      SiftLeft(lengths, p, m, k);
      SiftLeft(suffixes, p, m, k);
      ShiftLeftAt(cells, p, m, k);
      cells := ShiftLeft(cells, p, m, k);
    }

    method CopyFrom(d: nat, o: LeafNode, p: nat, m: nat)
      requires Valid() && o.Valid() && Apart(o) && p <= m <= NKEYS && d + (m - p) <= NKEYS
      modifies this`cells, keys, lengths, values, suffixes
      ensures Valid() && cells == Paste(old(cells), d, o.cells[p..m])
    {
      CopyInto(keys, d, o.keys, p, m);
      CopyInto(values, d, o.values, p, m);
      CopyInto(lengths, d, o.lengths, p, m);
      CopyInto(suffixes, d, o.suffixes, p, m);
      cells := Paste(cells, d, o.cells[p..m]);
    }

    // ---- edits of insert0 and remove0 ----

    /** A new slot in a leaf with room. */
    method Insert(pos: nat, x: Slot)
      requires Valid() && pos <= n < NKEYS
      modifies this`n, this`cells, keys, lengths, values, suffixes
      ensures Valid() && Contents() == InsertAt(old(Contents()), pos, x)
    {
      InsertCells(cells, n, pos, x);
      Right(pos, n, 1);
      Set(pos, x);
      n := n + 1;
    }

    /** `remove_pos_from_leaf_node`. */
    method Remove(pos: nat)
      requires Valid() && pos < n
      modifies this`n, this`cells, keys, lengths, values, suffixes
      ensures Valid() && Contents() == RemoveAt(old(Contents()), pos)
    {
      RemoveCells(cells, n, pos);
      Left(pos, n, 1);
      n := n - 1;
    }

    /** Drop slot pos and append slots [p, m) of another leaf. */
    method Exchange(pos: nat, o: LeafNode, p: nat, m: nat)
      requires Valid() && o.Valid() && Apart(o) && pos < n && p <= m <= o.n && n - 1 + (m - p) <= NKEYS
      modifies this`n, this`cells, keys, lengths, values, suffixes
      ensures Valid() && Contents() == RemoveAt(old(Contents()), pos) + o.Contents()[p..m]
    {
      RemoveCells(cells, n, pos);
      Left(pos, n, 1);
      TailCells(cells, n - 1, o.cells[p..m]);
      CopyFrom(n - 1, o, p, m);
      n := n - 1 + (m - p);
    }

    /** Drop slot pos and take the first p slots of the right sibling, which keeps the rest. */
    method StealRight(pos: nat, right: LeafNode, p: nat)
      requires Valid() && right.Valid() && Apart(right) && pos < n && p < right.n && n - 1 + p <= NKEYS
      modifies this`n, this`cells, keys, lengths, values, suffixes
      modifies right, right.keys, right.lengths, right.values, right.suffixes
      ensures Valid() && Contents() == RemoveAt(old(Contents()), pos) + old(right.Contents())[..p]
      ensures right.Valid() && right.Contents() == old(right.Contents())[p..]
      ensures right.minKey == old(right.Contents())[p].slice
    {
      Exchange(pos, right, 0, p);
      DropCells(right.cells, right.n, p);
      right.Left(0, right.n, p);
      right.n := right.n - p;
      right.minKey := right.keys[0];
      assert right.Contents()[0].slice == right.keys[0];
    }

    /** Drop slot pos and take the slots of the left sibling from p on. */
    method StealLeft(pos: nat, left: LeafNode, p: nat)
      requires Valid() && left.Valid() && Apart(left) && pos < n && p < left.n && n - 1 + (left.n - p) <= NKEYS
      modifies this, keys, lengths, values, suffixes, left`n
      ensures Valid() && Contents() == old(left.Contents())[p..] + RemoveAt(old(Contents()), pos)
      ensures left.Valid() && left.Contents() == old(left.Contents())[..p]
      ensures minKey == old(left.Contents())[p].slice
    {
      var stolen := left.n - p;
      PrependCells(cells, n, pos, left.cells[p..left.n]);
      Right(pos + 1, n, stolen - 1);
      Right(0, pos, stolen);
      CopyFrom(0, left, left.n - stolen, left.n);
      left.n := left.n - stolen;
      n := n - 1 + stolen;
      minKey := keys[0];
      assert Contents()[0].slice == keys[0];
    }

    /** Hand all slots but pos over to the left sibling. */
    method MergeLeft(pos: nat, left: LeafNode)
      requires Valid() && left.Valid() && Apart(left) && left.Apart(this) && pos < n && left.n + (n - 1) <= NKEYS
      modifies left`n, left`cells, left.keys, left.lengths, left.values, left.suffixes
      ensures left.Valid() && left.Contents() == old(left.Contents()) + RemoveAt(Contents(), pos)
    {
      AppendTwice(left.cells, left.n, Contents(), pos);
      assert Contents()[..pos] == cells[0..pos] && Contents()[pos + 1..] == cells[pos + 1..n];
      left.CopyFrom(left.n, this, 0, pos);
      left.CopyFrom(left.n + pos, this, pos + 1, n);
      left.n := left.n + (n - 1);
    }

    /** Cut a full leaf at p; the new slot goes to the new leaf. */
    method SplitRight(pos: nat, x: Slot, p: nat, o: LeafNode)
      requires Valid() && o.Valid() && o.Apart(this) && n == NKEYS && 1 <= p <= pos <= NKEYS
      modifies this`n, this`cells, o, o.keys, o.lengths, o.values, o.suffixes
      ensures Valid() && Contents() == old(Contents())[..p]
      ensures o.Valid() && o.Contents() == old(Contents())[p..pos] + [x] + old(Contents())[pos..]
    {
      ghost var s := cells;
      assert Contents() == s;
      FillCells(o.cells, cells[p..pos], x, cells[pos..NKEYS]);
      o.CopyFrom(0, this, p, pos);
      o.Set(pos - p, x);
      o.CopyFrom(pos - p + 1, this, pos, NKEYS);
      n := p;
      o.n := NKEYS - p + 1;
    }

    /** Cut a full leaf at p; the new slot stays here. */
    method SplitLeft(pos: nat, x: Slot, p: nat, o: LeafNode)
      requires Valid() && o.Valid() && o.Apart(this) && n == NKEYS && pos <= p < NKEYS
      modifies this`n, this`cells, keys, lengths, values, suffixes, o, o.keys, o.lengths, o.values, o.suffixes
      ensures Valid() && Contents() == old(Contents())[..pos] + [x] + old(Contents())[pos..p]
      ensures o.Valid() && o.Contents() == old(Contents())[p..]
    {
      ghost var s := cells;
      assert Contents() == s && s[..p][..pos] == s[..pos] && s[..p][pos..] == s[pos..p];
      TailCells(o.cells, 0, cells[p..]);
      o.CopyFrom(0, this, p, NKEYS);
      InsertCells(cells, p, pos, x);
      Right(pos, p, 1);
      Set(pos, x);
      n := p + 1;
      o.n := NKEYS - p;
    }
  }
}
