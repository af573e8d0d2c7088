/** The list of leaves belongs to the tree (bench/servers/silo/btree_impl.h): in every layer the
    `prev_` and `next_` links thread exactly the leaves of the tree, in order, with their min_keys.
    Each insert and removal restores this with the few stores the code makes. */
module BtreeThread {
  import opened Options
  import opened Varkey
  import opened BtreeModel
  import opened BtreeLinks
  import I = BtreeInsert
  import R = BtreeRemove
  import T = BtreeLeafList

  /** s carries the min_keys of the leaves all. */
  ghost predicate Carries(s: seq<T.Links>, all: seq<Node>)
    reads s
  {
    |s| == |all| && forall i :: 0 <= i < |s| ==> all[i].Leaf? && s[i].minKey == all[i].minKey
  }

  /** The links thread the leaves of the layer below root. */
  ghost predicate Threaded(root: Node, s: seq<T.Links>)
    reads s
  {
    T.Threads(s) && Carries(s, Leaves(root))
  }

  lemma {:induction false} Ascend(all: seq<Node>, lo: nat, hi: nat, i: nat, j: nat)
    requires Ranges(all, lo, hi) && i < j < |all|
    ensures all[i].minKey < all[j].minKey
    decreases j
  {
    assert all[j - 1].minKey < UpTo(all, j - 1, hi);
    if i < j - 1 {
      Ascend(all, lo, hi, i, j - 1);
    }
  }

  /** The leaves of a well-formed layer make the list one that FindRespLeafNode can walk. */
  lemma ThreadedLayer(root: Node, s: seq<T.Links>)
    requires NodeOk(root, 0, SLICE_LIMIT) && Threaded(root, s)
    ensures T.LayerLeaves(s)
  {
    LeafRanges(root, 0, SLICE_LIMIT);
    forall i, j | 0 <= i < j < |s| ensures s[i].minKey < s[j].minKey { Ascend(Leaves(root), 0, SLICE_LIMIT, i, j); }
  }

  /** The leaf that a descent ends in covers the slice in the list. */
  lemma RespCovers(root: Node, s: seq<T.Links>, slice: nat)
    requires NodeOk(root, 0, SLICE_LIMIT) && Threaded(root, s) && slice < SLICE_LIMIT
    ensures T.Covers(s, RespIdx(root, slice), slice)
  {
    RespLeafStays(root, 0, SLICE_LIMIT, slice);
  }

  // ---- inserts ----

  lemma RootedLeaves(res: I.InsertResult)
    ensures Leaves(I.Rooted(res)) == LeavesIn(res)
  {
    if res.Split? {
      LeavesTwo(res.left, res.right);
    }
  }

  /** What an insert makes of the responsible leaf: itself, or itself and a new one. */
  function LeafMade(root: Node, k: Key, v: Value, onlyIfAbsent: bool): (r: seq<Node>)
    requires NodeOk(root, 0, SLICE_LIMIT)
    ensures RespIdx(root, Slice(k)) < |Leaves(root)| && LeafOrPair(Leaves(root)[RespIdx(root, Slice(k))], r)
  {
    InsertSplices(root, k, v, onlyIfAbsent, 0, SLICE_LIMIT);
    var all, i := Leaves(root), RespIdx(root, Slice(k));
    LeafInsertLeaves(all[i], k, v, onlyIfAbsent, all[i].minKey, UpTo(all, i, SLICE_LIMIT));
    LeavesIn(I.Insert0(all[i], k, v, onlyIfAbsent, all[i].minKey, UpTo(all, i, SLICE_LIMIT)))
  }

  function InsertAfter(root: Node, k: Key, v: Value, onlyIfAbsent: bool): Node
    requires NodeOk(root, 0, SLICE_LIMIT)
  {
    I.Rooted(I.Insert0(root, k, v, onlyIfAbsent, 0, SLICE_LIMIT))
  }

  lemma InsertedLeaves(root: Node, k: Key, v: Value, onlyIfAbsent: bool)
    requires NodeOk(root, 0, SLICE_LIMIT)
    ensures NodeOk(InsertAfter(root, k, v, onlyIfAbsent), 0, SLICE_LIMIT)
    ensures Spliced(Leaves(root), Leaves(InsertAfter(root, k, v, onlyIfAbsent)), RespIdx(root, Slice(k)), 1,
                    LeafMade(root, k, v, onlyIfAbsent))
  {
    I.InsertPreserves(root, k, v, onlyIfAbsent, 0, SLICE_LIMIT);
    I.RootedCorrect(root, I.Insert0(root, k, v, onlyIfAbsent, 0, SLICE_LIMIT), k);
    InsertSplices(root, k, v, onlyIfAbsent, 0, SLICE_LIMIT);
    RootedLeaves(I.Insert0(root, k, v, onlyIfAbsent, 0, SLICE_LIMIT));
  }

  // ---- what splices of the leaves need of the list ----

  lemma CarriesSame(s: seq<T.Links>, all: seq<Node>, i: nat, m: Node, all': seq<Node>)
    requires Carries(s, all) && i < |s| && m.Leaf? && m.minKey == all[i].minKey && Spliced(all, all', i, 1, [m])
    ensures Carries(s, all')
  {
    forall j | 0 <= j < |s| ensures all'[j].Leaf? && s[j].minKey == all'[j].minKey {
      assert all'[j] == if j == i then m else all[j];
    }
  }

  lemma CarriesMore(s: seq<T.Links>, all: seq<Node>, i: nat, m: Node, n: Node, x: T.Links, all': seq<Node>)
    requires Carries(s, all) && i < |s| && m.Leaf? && m.minKey == all[i].minKey && Spliced(all, all', i, 1, [m, n])
    requires n.Leaf? && x.minKey == n.minKey
    ensures Carries(s[..i + 1] + [x] + s[i + 1..], all')
  {
    var s' := s[..i + 1] + [x] + s[i + 1..];
    forall j | 0 <= j < |s'| ensures all'[j].Leaf? && s'[j].minKey == all'[j].minKey {
      assert all'[j] == if j == i then m else if j == i + 1 then n else if j < i then all[j] else all[j - 1];
    }
  }

  lemma CarriesFewer(s: seq<T.Links>, all: seq<Node>, i: nat, m: Node, all': seq<Node>)
    requires Carries(s, all) && i + 1 < |s| && m.Leaf? && m.minKey == all[i].minKey && Spliced(all, all', i, 2, [m])
    ensures Carries(s[..i + 1] + s[i + 2..], all')
  {
    var s' := s[..i + 1] + s[i + 2..];
    forall j | 0 <= j < |s'| ensures all'[j].Leaf? && s'[j].minKey == all'[j].minKey {
      assert all'[j] == if j == i then m else if j < i then all[j] else all[j + 1];
    }
  }

  /** Before the one store of a steal: all but the leaf behind the moved boundary are right. */
  ghost predicate CarriesBut(s: seq<T.Links>, all: seq<Node>, but: nat)
    reads s
  {
    |s| == |all| && but < |s| && forall i :: 0 <= i < |s| ==>
      all[i].Leaf? && (i != but ==> s[i].minKey == all[i].minKey)
  }

  lemma CarriesMoved(s: seq<T.Links>, all: seq<Node>, i: nat, m: Node, n: Node, all': seq<Node>)
    requires Carries(s, all) && i + 1 < |s| && m.Leaf? && m.minKey == all[i].minKey && Spliced(all, all', i, 2, [m, n])
    requires n.Leaf?
    ensures CarriesBut(s, all', i + 1) && all'[i + 1] == n
  {
    forall j | 0 <= j < |s| ensures all'[j].Leaf? && (j != i + 1 ==> s[j].minKey == all'[j].minKey) {
      assert all'[j] == if j == i then m else if j == i + 1 then n else all[j];
    }
  }

  // ---- the stores ----

  /** A split: leaf i becomes m and a new leaf n. */
  method AddLeaf(leaf: T.Links, min: nat, ghost s: seq<T.Links>, ghost i: nat, ghost all: seq<Node>, ghost m: Node,
                 ghost n: Node, ghost all': seq<Node>) returns (added: T.Links)
    requires T.Threads(s) && Carries(s, all) && i < |s| && s[i] == leaf && Spliced(all, all', i, 1, [m, n])
    requires m.Leaf? && m.minKey == all[i].minKey && n.Leaf? && n.minKey == min
    modifies s
    ensures fresh(added)
    ensures var s' := s[..i + 1] + [added] + s[i + 1..]; T.Threads(s') && Carries(s', all')
  {
    assert T.Linked(s, i);
    added := new T.Links(min);
    T.LinkAfter(leaf, added, s, i);
    CarriesMore(s, all, i, m, n, added, all');
  }

  /** A merge: leaves i and i + 1 become m. */
  method DropLeaf(leaf: T.Links, gone: T.Links, ghost s: seq<T.Links>, ghost i: nat, ghost all: seq<Node>,
                  ghost m: Node, ghost all': seq<Node>)
    requires T.Threads(s) && Carries(s, all) && i + 1 < |s| && s[i] == leaf && s[i + 1] == gone
    requires Spliced(all, all', i, 2, [m]) && m.Leaf? && m.minKey == all[i].minKey
    modifies s
    ensures var s' := s[..i + 1] + s[i + 2..]; T.Threads(s') && Carries(s', all')
    ensures gone.deleting && gone.prev == leaf
  {
    assert T.Linked(s, i + 1);
    T.UnlinkNext(leaf, gone, s, i);
    CarriesFewer(s, all, i, m, all');
  }

  /** A steal: leaves i and i + 1 become m and n, whose min_key is stored. */
  method MoveBoundary(right: T.Links, min: nat, ghost s: seq<T.Links>, ghost i: nat, ghost all: seq<Node>,
                      ghost m: Node, ghost n: Node, ghost all': seq<Node>)
    requires T.Threads(s) && Carries(s, all) && i + 1 < |s| && s[i + 1] == right && Spliced(all, all', i, 2, [m, n])
    requires m.Leaf? && m.minKey == all[i].minKey && n.Leaf? && n.minKey == min
    modifies right`minKey
    ensures T.Threads(s) && Carries(s, all')
  {
    CarriesMoved(s, all, i, m, n, all');
    right.minKey := min;
    forall j | 0 <= j < |s| ensures T.Linked(s, j) { assert old(T.Linked(s, j)); }
  }

  // ---- a layer with its list ----

  class Layer {
    var root: Node
    var first: T.Links
    ghost var leaves: seq<Node>
    ghost var order: seq<T.Links>
    ghost var dead: seq<T.Links>    // deleted leaves that readers may still hold

    /** The list carries the leaves, and every deleted leaf leads back to it. */
    ghost predicate ListOk()
      reads this, order, dead
    {
      T.Threads(order) && Carries(order, leaves) && order != [] && order[0] == first && T.Buried(dead, order)
    }

    ghost predicate Valid()
      reads this, order, dead
    {
      NodeOk(root, 0, SLICE_LIMIT) && leaves == Leaves(root) && ListOk()
    }

    constructor ()
      ensures Valid() && root == Leaf(0, [])
    {
      var x := new T.Links(0);
      root, first, leaves, order, dead := Leaf(0, []), x, [Leaf(0, [])], [x], [];
      new;
      assert T.Linked(order, 0);
    }

    /** The leaf responsible for k, by the sideways walk from any leaf, even a deleted one. */
    method Find(start: T.Links, k: Key) returns (leaf: T.Links)
      requires Valid() && (start in order || start in dead)
      ensures RespIdx(root, Slice(k)) < |order| && leaf == order[RespIdx(root, Slice(k))]
    {
      ThreadedLayer(root, order);
      RespCovers(root, order, Slice(k));
      leaf := T.FindRespLeaf(start, Slice(k), order, dead);
    }

    /** An insert links at most one new leaf, right behind the responsible one. */
    method Insert(k: Key, v: Value, onlyIfAbsent: bool)
      requires Valid()
      modifies this, order
      ensures Valid() && root == InsertAfter(old(root), k, v, onlyIfAbsent)
      ensures Grown(old(order), LeafMade(old(root), k, v, onlyIfAbsent), RespIdx(old(root), Slice(k)), order)
    {
      var leaf := Find(first, k);
      var made, after := LeafMade(root, k, v, onlyIfAbsent), InsertAfter(root, k, v, onlyIfAbsent);
      InsertedLeaves(root, k, v, onlyIfAbsent);
      Adjust(leaf, made, RespIdx(root, Slice(k)), Leaves(after));
      root := after;
    }

    /** The responsible leaf becomes `made`. */
    method Adjust(leaf: T.Links, made: seq<Node>, ghost i: nat, ghost all': seq<Node>)
      requires ListOk() && i < |order| && order[i] == leaf
      requires LeafOrPair(leaves[i], made) && Spliced(leaves, all', i, 1, made)
      modifies this`order, this`leaves, order
      ensures ListOk() && leaves == all' && Grown(old(order), made, i, order)
    {
      if |made| == 1 {
        assert made == [made[0]];
        CarriesSame(order, leaves, i, made[0], all');
      } else {
        assert made == [made[0], made[1]];
        var added := AddLeaf(leaf, made[1].minKey, order, i, leaves, made[0], made[1], all');
        order := order[..i + 1] + [added] + order[i + 1..];
      }
      leaves := all';
    }

    /** A removal moves one min_key, unlinks one leaf, or leaves the list alone. */
    method Remove(k: Key)
      requires Valid()
      modifies this, order
      ensures Valid() && root == LayerAfter(old(root), k)
      ensures order == OrderAfter(old(order), LayerLeafResult(old(root), k), RespIdx(old(root), Slice(k)))
    {
      var leaf := Find(first, k);
      var res, after := LayerLeafResult(root, k), LayerAfter(root, k);
      RemovedChanges(root, k);
      RemovedOk(root, k);
      Settle(leaf, res, RespIdx(root, Slice(k)), Leaves(after));
      root := after;
    }

    /** The responsible leaf has the outcome `res`. */
    method Settle(leaf: T.Links, res: R.RemoveResult, ghost at: nat, ghost all': seq<Node>)
      requires ListOk() && at < |order| && order[at] == leaf && Changes(res, leaves, at, all')
      modifies this`order, this`leaves, this`dead, order
      ensures ListOk() && leaves == all' && order == OrderAfter(old(order), res, at)
    {
      assert T.Linked(order, at);
      match res {
        case StoleRight(l, nk, r, _) => MoveBoundary(leaf.next, nk, order, at, leaves, l, r, all');
        case StoleLeft(l, nk, r, _) => MoveBoundary(leaf, nk, order, at - 1, leaves, l, r, all');
        case MergedRight(l, _) => Bury(leaf, leaf.next, l, at, all');
        case MergedLeft(l, _) => Bury(leaf.prev, leaf, l, at - 1, all');
        case Removed(m, _) => CarriesSame(order, leaves, at, m, all');
        case NotFound =>
      }
      leaves := all';
    }

    /** Leaves i and i + 1 have become m. */
    method Bury(leaf: T.Links, gone: T.Links, ghost m: Node, ghost i: nat, ghost all': seq<Node>)
      requires ListOk() && i + 1 < |order| && order[i] == leaf && order[i + 1] == gone && Turns(leaves, i, 2, [m], all')
      modifies this`order, this`leaves, this`dead, order
      ensures ListOk() && leaves == all' && order == old(order)[..i + 1] + old(order)[i + 2..]
    {
      DropLeaf(leaf, gone, order, i, leaves, m, all');
      T.Bury(dead, order, i);
      dead := dead + [gone];
      order := order[..i + 1] + order[i + 2..];
      leaves := all';
    }
  }

  /** Leaves i.. of all become those of r, the first of which keeps its min_key. */
  ghost predicate Turns(all: seq<Node>, i: nat, d: nat, r: seq<Node>, all': seq<Node>) {
    && i + d <= |all| && d > 0 && Spliced(all, all', i, d, r)
    && r != [] && (forall j :: 0 <= j < |r| ==> r[j].Leaf?) && all[i].Leaf? && r[0].minKey == all[i].minKey
  }

  /** How the leaves change when the one at `at` has the outcome res. */
  ghost predicate Changes(res: R.RemoveResult, all: seq<Node>, at: nat, all': seq<Node>) {
    match res
    case NotFound => all' == all
    case Removed(m, _) => Turns(all, at, 1, [m], all')
    case StoleLeft(l, nk, r, _) => at > 0 && Turns(all, at - 1, 2, [l, r], all') && r.Leaf? && r.minKey == nk
    case StoleRight(l, nk, r, _) => Turns(all, at, 2, [l, r], all') && r.Leaf? && r.minKey == nk
    case MergedLeft(l, _) => at > 0 && Turns(all, at - 1, 2, [l], all')
    case MergedRight(l, _) => Turns(all, at, 2, [l], all')
    case Replaced(_, _) => false
  }

  lemma RemovedChanges(root: Node, k: Key)
    requires NodeOk(root, 0, SLICE_LIMIT)
    ensures Changes(LayerLeafResult(root, k), Leaves(root), RespIdx(root, Slice(k)), Leaves(LayerAfter(root, k)))
  {
    var res, s := LayerLeafResult(root, k), Slice(k);
    RemoveInLayer(root, k);
    DescendIdx(root, 0, SLICE_LIMIT, s);
    LocalChanges(res, Leaves(root), RespIdx(root, s), Leaves(LayerAfter(root, k)), Descend(root, s));
  }

  lemma LocalChanges(res: R.RemoveResult, all: seq<Node>, at: nat, all': seq<Node>, m: Node)
    requires Back(res) <= at && Bounded(res) && at < |all| && all[at] == m
    requires Local(all, all', at - Back(res), Touched(res), Become(res, m), at)
    ensures Changes(res, all, at, all')
  {
    var r := Become(res, m);
    assert forall j :: 0 <= j < |r| ==> r[j].Leaf?;
    if res.NotFound? {
      assert all[..at] + [all[at]] + all[at + 1..] == all;
    }
  }

  /** The list after leaf i has become `made`: a second leaf stands right behind the first. */
  ghost predicate Grown(s: seq<T.Links>, made: seq<Node>, i: nat, s': seq<T.Links>) {
    if |made| == 1 then s' == s
    else i < |s| && |s'| == |s| + 1 && s'[i + 1] !in s && s' == s[..i + 1] + [s'[i + 1]] + s[i + 1..]
  }

  lemma RemovedOk(root: Node, k: Key)
    requires NodeOk(root, 0, SLICE_LIMIT)
    ensures NodeOk(LayerAfter(root, k), 0, SLICE_LIMIT)
  {
    R.RemovePreserves(root, k, None, None, 0, SLICE_LIMIT, 0, 0);
  }

  /** The list after a removal with outcome res at leaf `at`: the right one of two merged leaves is
      gone. */
  ghost function OrderAfter(s: seq<T.Links>, res: R.RemoveResult, at: nat): seq<T.Links> {
    if res.MergedLeft? && 1 <= at < |s| then s[..at] + s[at + 1..]
    else if res.MergedRight? && at + 1 < |s| then s[..at + 1] + s[at + 2..]
    else s
  }
}
