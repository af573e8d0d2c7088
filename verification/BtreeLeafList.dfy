/** The doubly linked list that `prev_` and `next_` thread through the leaves of a layer
    (bench/servers/silo/btree_impl.h), changed in place. */
module BtreeLeafList {
  class Links {
    var prev: Links?
    var next: Links?
    var minKey: nat
    var deleting: bool

    constructor (min: nat)
      ensures prev == null && next == null && minKey == min && !deleting
    {
      prev, next, minKey, deleting := null, null, min, false;
    }
  }

  function At(s: seq<Links>, i: int): Links? {
    if 0 <= i < |s| then s[i] else null
  }

  /** Leaf i points to its neighbours in s. */
  ghost predicate Linked(s: seq<Links>, i: nat)
    requires i < |s|
    reads s
  {
    s[i].prev == At(s, i - 1) && s[i].next == At(s, i + 1)
  }

  /** The links thread exactly the leaves s, in order, both ways, and none is being deleted. */
  ghost predicate Threads(s: seq<Links>)
    reads s
  {
    && (forall i, j :: 0 <= i < j < |s| ==> s[i] != s[j])
    && (forall i :: 0 <= i < |s| ==> Linked(s, i))
    && (forall i :: 0 <= i < |s| ==> !s[i].deleting)
  }

  /** The deleted leaves, oldest first: each still points left, into the list or to a leaf that was
      deleted after it. */
  ghost predicate Buried(dead: seq<Links>, s: seq<Links>)
    reads dead
  {
    forall i :: 0 <= i < |dead| ==>
      && dead[i].deleting && dead[i] !in s && dead[i].prev != null
      && (dead[i].prev in s || dead[i].prev in dead[i + 1..])
  }

  ghost function Next(x: Links): set<Links>
    reads x
  {
    if x.next == null then {} else {x.next}
  }

  /** The pointer adjustment of a leaf split: the new leaf goes right behind the old one. */
  method LinkAfter(leaf: Links, added: Links, ghost s: seq<Links>, ghost i: nat)
    requires Threads(s) && i < |s| && s[i] == leaf && added !in s && !added.deleting
    modifies leaf`next, added`prev, added`next, Next(leaf)`prev
    ensures Threads(s[..i + 1] + [added] + s[i + 1..])
  {
    assert Linked(s, i);
    added.prev := leaf;
    added.next := leaf.next;
    if leaf.next != null {
      leaf.next.prev := added;
    }
    leaf.next := added;
    ghost var t := s[..i + 1] + [added] + s[i + 1..];
    forall j | 0 <= j < |t|
      ensures Linked(t, j)
    {
      if j <= i {
        assert old(Linked(s, j));
      } else if j > i + 1 {
        assert old(Linked(s, j - 1));
      }
    }
  }

  /** The pointer adjustment of a leaf merge, on either side: the right one of two neighbours
      leaves the list and is marked deleting. */
  method UnlinkNext(leaf: Links, gone: Links, ghost s: seq<Links>, ghost i: nat)
    requires Threads(s) && i + 1 < |s| && s[i] == leaf && s[i + 1] == gone
    modifies leaf`next, gone`deleting, Next(gone)`prev
    ensures Threads(s[..i + 1] + s[i + 2..]) && gone.deleting && gone.prev == leaf
  {
    assert Linked(s, i) && Linked(s, i + 1);
    leaf.next := gone.next;
    if gone.next != null {
      gone.next.prev := leaf;
    }
    gone.deleting := true;
    ghost var t := s[..i + 1] + s[i + 2..];
    forall j | 0 <= j < |t|
      ensures Linked(t, j) && !t[j].deleting
    {
      assert old(Linked(s, if j <= i then j else j + 1));
    }
  }

  /** The leaf that has just left the list joins the deleted ones. */
  lemma Bury(dead: seq<Links>, s: seq<Links>, i: nat)
    requires Buried(dead, s) && i + 1 < |s| && s[i + 1].deleting && s[i + 1].prev == s[i]
    requires forall i, j :: 0 <= i < j < |s| ==> s[i] != s[j]
    ensures Buried(dead + [s[i + 1]], s[..i + 1] + s[i + 2..])
  {
    var gone, t, dead' := s[i + 1], s[..i + 1] + s[i + 2..], dead + [s[i + 1]];
    assert forall j :: 0 <= j < |t| ==> t[j] == s[if j <= i then j else j + 1];
    assert t[i] == s[i];
    forall x | x in s ensures x == gone || x in t {
      var j :| 0 <= j < |s| && s[j] == x;
      if j != i + 1 { assert t[if j <= i then j else j - 1] == x; }
    }
    forall j | 0 <= j < |dead'|
      ensures dead'[j].deleting && dead'[j] !in t && dead'[j].prev != null
      ensures dead'[j].prev in t || dead'[j].prev in dead'[j + 1..]
    {
      if j < |dead| {
        assert dead'[j] == dead[j] && dead'[j + 1..] == dead[j + 1..] + [gone];
      }
    }
  }

  /** The leaves of a whole layer: strictly ascending min_keys, the first one unbounded below. */
  ghost predicate LayerLeaves(s: seq<Links>)
    reads s
  {
    && Threads(s) && s != [] && s[0].minKey == 0
    && (forall i, j :: 0 <= i < j < |s| ==> s[i].minKey < s[j].minKey)
  }

  ghost predicate Covers(s: seq<Links>, i: nat, k: nat)
    reads s
  {
    i < |s| && s[i].minKey <= k && (i + 1 < |s| ==> k < s[i + 1].minKey)
  }

  lemma {:induction false} SomeLeafCovers(s: seq<Links>, k: nat, n: nat) returns (i: nat)
    requires LayerLeaves(s) && 1 <= n <= |s|
    requires n < |s| ==> k < s[n].minKey
    ensures Covers(s, i, k)
  {
    if s[n - 1].minKey <= k {
      i := n - 1;
    } else {
      i := SomeLeafCovers(s, k, n - 1);
    }
  }

  /** The first part of FindRespLeafNode: from a deleted leaf go left until there is one that is not.
      There always is one to the left, so neither the move to the right nor the failing assertion
      behind it is reached. */
  method LeaveDeleted(start: Links, ghost s: seq<Links>, ghost dead: seq<Links>) returns (leaf: Links)
    requires Threads(s) && Buried(dead, s) && (start in s || start in dead)
    ensures leaf in s && (start in s ==> leaf == start)
  {
    leaf := start;
    ghost var d := 0;
    while leaf.deleting
      invariant d <= |dead| && (leaf in s || leaf in dead[d..]) && (start in s ==> leaf == start)
      decreases |dead| - d
    {
      ghost var i :| d <= i < |dead| && dead[i] == leaf;
      if leaf.prev != null {
        leaf := leaf.prev;
        d := i + 1;
      } else {
        assert false;
      }
    }
  }

  /** The way from leaf i to the one that covers k. */
  lemma Sideways(s: seq<Links>, i: nat, k: nat, target: nat)
    requires LayerLeaves(s) && Covers(s, target, k) && i < |s|
    ensures k < s[i].minKey ==> target < i
    ensures i + 1 < |s| && s[i + 1].minKey <= k ==> i < target
    ensures s[i].minKey <= k && !(i + 1 < |s| && s[i + 1].minKey <= k) ==> i == target
  {
  }

  /** The second part: step left or right until the leaf covers k. */
  method StepTo(start: Links, k: nat, ghost s: seq<Links>, ghost at: nat, ghost target: nat) returns (leaf: Links)
    requires LayerLeaves(s) && Covers(s, target, k) && at < |s| && s[at] == start
    ensures leaf == s[target]
  {
    leaf := start;
    ghost var i: nat := at;
    while true
      invariant i < |s| && s[i] == leaf
      decreases if i < target then target - i else i - target
    {
      assert Linked(s, i);
      Sideways(s, i, k, target);
      if k < leaf.minKey {
        if leaf.prev != null {
          leaf := leaf.prev;
          i := i - 1;
        }
      } else if leaf.next != null && leaf.next.minKey <= k {
        leaf := leaf.next;
        i := i + 1;
      } else {
        return;
      }
    }
  }

  /** FindRespLeafNode with no writers about: from any leaf of the layer, deleted ones included, the
      sideways walk ends in the one responsible for k, and at once if it starts there. */
  method FindRespLeaf(start: Links, k: nat, ghost s: seq<Links>, ghost dead: seq<Links>) returns (leaf: Links)
    requires LayerLeaves(s) && Buried(dead, s) && (start in s || start in dead)
    ensures exists i: nat :: Covers(s, i, k) && s[i] == leaf
    ensures forall i: nat :: Covers(s, i, k) ==> s[i] == leaf
  {
    ghost var target := SomeLeafCovers(s, k, |s|);
    leaf := LeaveDeleted(start, s, dead);
    ghost var at: nat :| at < |s| && s[at] == leaf;
    leaf := StepTo(leaf, k, s, at, target);
    forall i: nat | Covers(s, i, k) ensures i == target { Sideways(s, i, k, target); }
  }
}
