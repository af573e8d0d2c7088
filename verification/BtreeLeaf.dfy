/** Lookup and order in a leaf under the edits the tree makes to it. */
module BtreeLeaf {
  import opened Options
  import opened Varkey
  import opened BtreeModel

  predicate Matches(x: Slot, k: Key) {
    x.slice == Slice(k) && x.len == SliceLen(k)
  }

  function SetSlot(n: Node, i: nat, x: Slot): Node
    requires n.Leaf? && i < |n.slots|
  {
    n.(slots := n.slots[i := x])
  }

  function InsertAt(s: seq<Slot>, pos: nat, x: Slot): seq<Slot>
    requires pos <= |s|
  {
    s[..pos] + [x] + s[pos..]
  }

  function RemoveAt(s: seq<Slot>, i: nat): seq<Slot>
    requires i < |s|
  {
    s[..i] + s[i + 1..]
  }

  lemma RankInjective(x: Slot, k: Key)
    requires x.len <= 9
    ensures x.Rank() == KeyRank(k) <==> x.slice == Slice(k) && x.len == SliceLen(k)
  {
  }

  lemma AtByMembership(s: seq<Slot>, t: seq<Slot>, r: nat)
    requires Sorted(s) && Sorted(t)
    requires forall x: Slot :: x.Rank() == r ==> (x in s <==> x in t)
    ensures At(s, r) == At(t, r)
  {
    AtIsMembership(s, r);
    AtIsMembership(t, r);
  }

  // ---- a slot joins ----

  lemma InsertMembers(s: seq<Slot>, pos: nat, x: Slot)
    requires pos <= |s|
    ensures forall y :: y in InsertAt(s, pos, x) <==> y == x || y in s
    ensures forall i :: 0 <= i < |s| + 1 ==>
      InsertAt(s, pos, x)[i] == if i < pos then s[i] else if i == pos then x else s[i - 1]
  {
    var t := InsertAt(s, pos, x);
    assert s == s[..pos] + s[pos..];
    forall i | 0 <= i < |s| + 1
      ensures t[i] == if i < pos then s[i] else if i == pos then x else s[i - 1]
    {
      assert i > pos ==> t[i] == s[pos..][i - pos - 1];
    }
  }

  lemma InsertedInOrder(s: seq<Slot>, pos: nat, x: Slot, i: nat, j: nat)
    requires Sorted(s) && pos <= |s| && i < j <= |s|
    requires pos > 0 ==> s[pos - 1].Rank() < x.Rank()
    requires pos < |s| ==> x.Rank() < s[pos].Rank()
    ensures InsertAt(s, pos, x)[i].Rank() < InsertAt(s, pos, x)[j].Rank()
  {
    var t := InsertAt(s, pos, x);
    assert i != pos ==> t[i] == s[if i < pos then i else i - 1];
    assert j != pos ==> t[j] == s[if j < pos then j else j - 1];
    if i < pos { assert s[i].Rank() <= s[pos - 1].Rank(); }
    if j > pos { assert s[pos].Rank() <= s[j - 1].Rank(); }
  }

  lemma InsertSorted(s: seq<Slot>, pos: nat, x: Slot)
    requires Sorted(s) && pos <= |s|
    requires pos > 0 ==> s[pos - 1].Rank() < x.Rank()
    requires pos < |s| ==> x.Rank() < s[pos].Rank()
    ensures Sorted(InsertAt(s, pos, x))
  {
    var t := InsertAt(s, pos, x);
    forall i, j | 0 <= i < j < |t| ensures t[i].Rank() < t[j].Rank() { InsertedInOrder(s, pos, x, i, j); }
  }

  lemma InsertRanked(s: seq<Slot>, pos: nat, x: Slot, lo: nat, hi: nat)
    requires Ranked(s, lo, hi) && pos <= |s| && lo <= x.slice < hi && x.len <= 9
    requires pos > 0 ==> s[pos - 1].Rank() < x.Rank()
    requires pos < |s| ==> x.Rank() < s[pos].Rank()
    ensures Ranked(InsertAt(s, pos, x), lo, hi)
  {
    InsertMembers(s, pos, x);
    InsertSorted(s, pos, x);
  }

  lemma AfterInsert(s: seq<Slot>, x: Slot, lo: nat, hi: nat, r: nat)
    requires SlotsOk(s, lo, hi) && lo <= x.slice < hi && SlotOk(x)
    requires At(s, x.Rank()).None?
    ensures SlotsOk(InsertAt(s, Pos(s, x.Rank()), x), lo, hi)
    ensures At(InsertAt(s, Pos(s, x.Rank()), x), r) == if r == x.Rank() then Some(x) else At(s, r)
  {
    var t := InsertAt(s, Pos(s, x.Rank()), x);
    InsertRanked(s, Pos(s, x.Rank()), x, lo, hi);
    InsertMembers(s, Pos(s, x.Rank()), x);
    if r == x.Rank() {
      AtIsMembership(t, r);
    } else {
      AtByMembership(s, t, r);
    }
  }

  // ---- a slot is replaced ----

  lemma AfterUpdate(s: seq<Slot>, i: nat, x: Slot, lo: nat, hi: nat, r: nat)
    requires SlotsOk(s, lo, hi) && i < |s|
    requires x.slice == s[i].slice && x.len == s[i].len && SlotOk(x)
    ensures SlotsOk(s[i := x], lo, hi)
    ensures At(s, x.Rank()) == Some(s[i])
    ensures At(s[i := x], r) == if r == x.Rank() then Some(x) else At(s, r)
  {
    var t := s[i := x];
    assert Ranked(t, lo, hi);
    AtIsMembership(s, x.Rank());
    assert t[i] == x;
    AtIsMembership(t, x.Rank());
    assert forall y :: y in t ==> y == x || y in s;
    if r != x.Rank() {
      assert forall y: Slot :: y.Rank() == r ==> (y in s <==> y in t) by {
        assert forall j :: 0 <= j < |s| && j != i ==> t[j] == s[j];
      }
      AtByMembership(s, t, r);
    }
  }

  // ---- a slot leaves ----

  lemma RemoveRanked(s: seq<Slot>, i: nat, lo: nat, hi: nat)
    requires Ranked(s, lo, hi) && i < |s|
    ensures Ranked(RemoveAt(s, i), lo, hi)
    ensures forall y :: y in RemoveAt(s, i) <==> y in s && y.Rank() != s[i].Rank()
  {
    var t := RemoveAt(s, i);
    assert forall j :: 0 <= j < |t| ==> t[j] == s[if j < i then j else j + 1];
    forall y | y in s && y.Rank() != s[i].Rank()
      ensures y in t
    {
      var j :| 0 <= j < |s| && s[j] == y;
      assert t[if j < i then j else j - 1] == y;
    }
  }

  lemma AfterRemove(s: seq<Slot>, i: nat, lo: nat, hi: nat, r: nat)
    requires SlotsOk(s, lo, hi) && i < |s|
    ensures SlotsOk(RemoveAt(s, i), lo, hi)
    ensures At(s, s[i].Rank()) == Some(s[i])
    ensures At(RemoveAt(s, i), r) == if r == s[i].Rank() then None else At(s, r)
  {
    var t := RemoveAt(s, i);
    RemoveRanked(s, i, lo, hi);
    AtIsMembership(s, s[i].Rank());
    AtIsMembership(t, r);
    if r != s[i].Rank() {
      AtByMembership(s, t, r);
    }
  }

  // ---- two leaves side by side ----

  /** A sorted slot sequence cut between two different slices: each side keeps its range. */
  lemma CutRanked(l: seq<Slot>, r: seq<Slot>, lo: nat, hi: nat)
    requires Ranked(l + r, lo, hi)
    requires |l| > 0 && |r| > 0 && l[|l| - 1].slice < r[0].slice
    ensures lo < r[0].slice < hi
    ensures Ranked(l, lo, r[0].slice) && Ranked(r, r[0].slice, hi)
  {
    var s := l + r;
    assert forall i :: 0 <= i < |l| ==> l[i] == s[i];
    assert forall i :: 0 <= i < |r| ==> r[i] == s[|l| + i];
    assert forall i :: 0 <= i < |l| ==> l[i].Rank() <= l[|l| - 1].Rank();
    assert forall i :: 0 <= i < |r| ==> r[0].Rank() <= r[i].Rank();
  }

  /** A lookup goes to the side the cut says. */
  lemma CutAt(l: seq<Slot>, r: seq<Slot>, lo: nat, m: nat, hi: nat, k: Key)
    requires Ranked(l + r, lo, hi) && Ranked(l, lo, m) && Ranked(r, m, hi)
    ensures At(l + r, KeyRank(k)) == if Slice(k) < m then At(l, KeyRank(k)) else At(r, KeyRank(k))
  {
    forall x: Slot | x.Rank() == KeyRank(k)
      ensures x in l + r <==> x in (if Slice(k) < m then l else r)
    {
      if x in l + r {
        RankInjective(x, k);
      }
    }
    AtByMembership(l + r, if Slice(k) < m then l else r, KeyRank(k));
  }

  /** t is cut into l and r at the slice of r[0]: both sides are well formed and a lookup
      of k in t goes to the side the cut says. */
  ghost predicate Halves(t: seq<Slot>, l: seq<Slot>, r: seq<Slot>, lo: nat, hi: nat, k: Key) {
    && |r| > 0
    && lo < r[0].slice < hi
    && SlotsOk(l, lo, r[0].slice) && SlotsOk(r, r[0].slice, hi)
    && At(t, KeyRank(k)) == if Slice(k) < r[0].slice then At(l, KeyRank(k)) else At(r, KeyRank(k))
  }

  lemma Cut(l: seq<Slot>, r: seq<Slot>, lo: nat, hi: nat, k: Key)
    requires SlotsOk(l + r, lo, hi)
    requires |l| > 0 && |r| > 0 && l[|l| - 1].slice < r[0].slice
    ensures Halves(l + r, l, r, lo, hi, k)
  {
    CutRanked(l, r, lo, hi);
    CutAt(l, r, lo, r[0].slice, hi, k);
  }

  /** Two leaves with adjacent ranges, one after the other. */
  lemma Join(l: seq<Slot>, r: seq<Slot>, lo: nat, m: nat, hi: nat, k: Key)
    requires SlotsOk(l, lo, m) && SlotsOk(r, m, hi) && lo <= m <= hi
    ensures SlotsOk(l + r, lo, hi)
    ensures At(l + r, KeyRank(k)) == if Slice(k) < m then At(l, KeyRank(k)) else At(r, KeyRank(k))
  {
    var s := l + r;
    assert Ranked(s, lo, hi) by {
      assert forall i, j :: 0 <= i < |l| && 0 <= j < |r| ==> l[i].Rank() < r[j].Rank();
    }
    CutAt(l, r, lo, m, hi, k);
  }

  ghost predicate KeepsShape(n: Node, m: Node, lo: nat, hi: nat) {
    NodeOk(m, lo, hi) && Height(m) == Height(n) && (Filled(n) ==> Filled(m))
  }

  lemma SetSlotOk(n: Node, i: nat, x: Slot, lo: nat, hi: nat)
    requires n.Leaf? && NodeOk(n, lo, hi) && i < |n.slots|
    requires x.slice == n.slots[i].slice && x.len == n.slots[i].len && SlotOk(x)
    ensures KeepsShape(n, SetSlot(n, i, x), lo, hi)
  {
    assert SlotsOk(n.slots, lo, hi);
    AfterUpdate(n.slots, i, x, lo, hi, 0);
    assert SlotsOk(n.slots[i := x], lo, hi);
  }

  /** Lookup in a leaf one of whose slots was replaced. */
  lemma GetAfterSetSlot(n: Node, i: nat, x: Slot, lo: nat, hi: nat, k': Key)
    requires n.Leaf? && NodeOk(n, lo, hi) && i < |n.slots|
    requires x.slice == n.slots[i].slice && x.len == n.slots[i].len && SlotOk(x)
    ensures Get(SetSlot(n, i, x), k') == if KeyRank(k') == x.Rank() then SlotGet(x, k') else Get(n, k')
    ensures KeyRank(k') == x.Rank() ==> Get(n, k') == SlotGet(n.slots[i], k')
  {
    assert SlotsOk(n.slots, lo, hi);
    AfterUpdate(n.slots, i, x, lo, hi, KeyRank(k'));
  }

  lemma LayerSlotOk(x: Slot, root: Node)
    requires x.len == 9 && x.slice < SLICE_LIMIT && NodeOk(root, 0, SLICE_LIMIT)
    ensures SlotOk(x.(vn := Layer(root)))
  {
  }
}
