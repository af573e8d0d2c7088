/** The leaf halves of `insert0` and `remove0` (bench/servers/silo/btree_impl.h) in place: search,
    then shift, split, steal or merge the arrays. Each ends in exactly the leaves that the
    value-level operations of the tree proofs compute. */
module BtreeLeafOps {
  import opened Options
  import opened Varkey
  import opened BtreeModel
  import opened BtreeRuns
  import opened BtreeLeaf
  import opened BtreeSearch
  import opened BtreeLeafNode
  import I = BtreeInsert
  import R = BtreeRemove

  lemma Shown(leaf: LeafNode)
    requires leaf.Valid() && forall i :: 0 <= i < leaf.n ==> leaf.Contents()[i].len <= 9
    ensures Shows(leaf.keys, leaf.lengths, leaf.n, leaf.Contents())
  {
    assert forall i :: 0 <= i < leaf.n ==> leaf.Contents()[i] == leaf.cells[i];
  }

  lemma ShownSlices(leaf: LeafNode)
    requires leaf.Valid()
    ensures ShowsSlices(leaf.keys, leaf.n, leaf.Contents())
  {
    assert forall i :: 0 <= i < leaf.n ==> leaf.Contents()[i] == leaf.cells[i];
  }

  /** The two loops that find the split point of a full leaf. */
  method FindSplitPoint(leaf: LeafNode) returns (p: nat)
    requires leaf.Valid() && leaf.n == NKEYS
    ensures p == I.SplitPoint(leaf.Contents())
  {
    ShownSlices(leaf);
    var l := FirstOfRun(leaf.keys, leaf.n, NKEYS / 2, leaf.Contents());
    var r := EndOfRun(leaf.keys, leaf.n, NKEYS / 2, leaf.Contents());
    if I.Min(l, NKEYS - l) < I.Min(r, NKEYS - r) {
      return r;
    } else {
      return l;
    }
  }

  /** Cut a full leaf next to its middle run and put x at pos. */
  method Cut(leaf: LeafNode, x: Slot, pos: nat, p: nat, o: LeafNode)
    requires leaf.Valid() && o.Valid() && o.Apart(leaf) && leaf.n == NKEYS && pos <= NKEYS && 1 <= p < NKEYS
    requires pos <= p || leaf.Contents()[p - 1].slice < x.slice
    modifies leaf`n, leaf`cells, leaf.keys, leaf.lengths, leaf.values, leaf.suffixes
    modifies o, o.keys, o.lengths, o.values, o.suffixes
    ensures leaf.Valid() && o.Valid()
    ensures (leaf.Contents(), o.Contents()) == I.CutWith(old(leaf.Contents()), x, pos, p)
  {
    assert leaf.Contents()[p - 1] == leaf.cells[p - 1];
    if p <= pos && leaf.keys[p - 1] != x.slice {
      leaf.SplitRight(pos, x, p, o);
    } else {
      leaf.SplitLeft(pos, x, p, o);
    }
  }

  /** How SplitLeaf computes its halves t. */
  ghost predicate SplitsInto(s: seq<Slot>, x: Slot, pos: nat, last: bool, t: (seq<Slot>, seq<Slot>)) {
    && |s| == NKEYS && pos <= NKEYS
    && if last && s[NKEYS - 1].slice < x.slice then t == (s, [x]) else
         var p := I.SplitPoint(s);
         1 <= p < NKEYS && (pos <= p || s[p - 1].slice < x.slice) && t == I.CutWith(s, x, pos, p)
  }

  lemma SplitLeafSplitsInto(s: seq<Slot>, x: Slot, last: bool)
    requires |s| == NKEYS && Sorted(s) && x.len <= 9
    requires forall i :: 0 <= i < |s| ==> s[i].len <= 9
    ensures SplitsInto(s, x, Pos(s, x.Rank()), last, I.SplitLeaf(s, x, last))
    ensures |I.SplitLeaf(s, x, last).1| > 0
  {
    I.PositionAtMostSplitPoint(s, x);
    I.SplitLeafCorrect(s, x, last);
  }

  /** A new leaf with one slot. */
  method OneSlot(x: Slot) returns (o: LeafNode)
    ensures o.Valid() && o.Contents() == [x]
    ensures fresh(o) && fresh(o.keys) && fresh(o.lengths) && fresh(o.values) && fresh(o.suffixes)
  {
    o := new LeafNode();
    o.Set(0, x);
    o.n := 1;
    assert o.Contents() == [x];
  }

  method Split(leaf: LeafNode, x: Slot, pos: nat, last: bool, ghost t: (seq<Slot>, seq<Slot>)) returns (o: LeafNode)
    requires leaf.Valid() && SplitsInto(leaf.Contents(), x, pos, last, t) && |t.1| > 0
    modifies leaf`n, leaf`cells, leaf.keys, leaf.lengths, leaf.values, leaf.suffixes
    ensures leaf.Valid() && o.Valid() && (leaf.Contents(), o.Contents()) == t && o.minKey == t.1[0].slice
  {
    assert leaf.Contents() == leaf.cells;
    if last && leaf.keys[NKEYS - 1] < x.slice {
      o := OneSlot(x);
    } else {
      o := CutNew(leaf, x, pos);
    }
    SetMin(o);
  }

  /** Cut next to the middle run into a new leaf. */
  method CutNew(leaf: LeafNode, x: Slot, pos: nat) returns (o: LeafNode)
    requires leaf.Valid() && leaf.n == NKEYS && pos <= NKEYS
    requires
      var p := I.SplitPoint(leaf.Contents());
      1 <= p < NKEYS && (pos <= p || leaf.Contents()[p - 1].slice < x.slice)
    modifies leaf`n, leaf`cells, leaf.keys, leaf.lengths, leaf.values, leaf.suffixes
    ensures leaf.Valid() && o.Valid() && fresh(o)
    ensures (leaf.Contents(), o.Contents()) ==
        I.CutWith(old(leaf.Contents()), x, pos, I.SplitPoint(old(leaf.Contents())))
  {
    o := new LeafNode();
    var p := FindSplitPoint(leaf);
    Cut(leaf, x, pos, p, o);
  }

  /** The first key becomes the leaf's min_key. */
  method SetMin(o: LeafNode)
    requires o.Valid() && o.n > 0
    modifies o`minKey
    ensures o.Valid() && o.Contents() == old(o.Contents()) && o.minKey == o.Contents()[0].slice
  {
    assert o.Contents()[0] == o.cells[0];
    o.minKey := o.keys[0];
  }

  /** Add a slot whose key the leaf does not hold; o is the new right half when the leaf was
      full. `last` says the leaf has no right neighbour. */
  method AddSlot(leaf: LeafNode, x: Slot, last: bool) returns (o: LeafNode?)
    requires leaf.Valid() && Sorted(leaf.Contents()) && x.len <= 9
    requires forall i :: 0 <= i < leaf.n ==> leaf.Contents()[i].len <= 9
    modifies leaf`n, leaf`cells, leaf.keys, leaf.lengths, leaf.values, leaf.suffixes
    ensures leaf.Valid() && (o == null <==> old(leaf.n) < NKEYS)
    ensures o == null ==> leaf.Contents() == InsertAt(old(leaf.Contents()), Pos(old(leaf.Contents()), x.Rank()), x)
    ensures o != null ==> o.Valid() && (leaf.Contents(), o.Contents()) == I.SplitLeaf(old(leaf.Contents()), x, last)
    ensures o != null ==> o.n > 0 && o.minKey == o.Contents()[0].slice
  {
    Shown(leaf);
    var m, lb := FindLowerBound(leaf.keys, leaf.lengths, leaf.n, x.slice, x.len, leaf.Contents());
    if leaf.n < NKEYS {
      leaf.Insert(lb + 1, x);
      o := null;
    } else {
      SplitLeafSplitsInto(leaf.Contents(), x, last);
      o := Split(leaf, x, lb + 1, last, I.SplitLeaf(leaf.Contents(), x, last));
    }
  }

  // ---- removal ----

  /** R_NONE_MOD and the four sibling outcomes; a steal reports the new separator. */
  datatype Status = Modified | StoleFromLeft(nk: nat) | StoleFromRight(nk: nat) | MergedWithLeft | MergedWithRight

  /** The status and the leaves are those of the value-level outcome. */
  ghost predicate RightOutcome(res: R.RemoveResult, st: Status, leaf: Node, right: Node, before: Node) {
    match res
    case StoleRight(m, nk, r, _) => st == StoleFromRight(nk) && leaf == m && right == r
    case Removed(m, _) => st == Modified && leaf == m && right == before
    case MergedRight(m, _) => st == MergedWithRight && leaf == m
    case _ => false
  }

  ghost predicate LeftOutcome(res: R.RemoveResult, st: Status, leaf: Node, left: Node, before: Node) {
    match res
    case StoleLeft(l, nk, m, _) => st == StoleFromLeft(nk) && leaf == m && left == l
    case Removed(m, _) => st == Modified && leaf == m && left == before
    case MergedLeft(l, _) => st == MergedWithLeft && left == l
    case _ => false
  }

  /** Where the first run of a leaf ends. */
  method FirstRun(leaf: LeafNode) returns (p: nat)
    requires leaf.Valid() && leaf.n > 0
    ensures p == RunEnd(leaf.Contents(), 1) && p <= leaf.n
  {
    ShownSlices(leaf);
    p := EndOfRun(leaf.keys, leaf.n, 1, leaf.Contents());
  }

  /** Where the last run of a leaf starts. */
  method LastRun(leaf: LeafNode) returns (p: nat)
    requires leaf.Valid() && leaf.n > 0
    ensures p == RunStart(leaf.Contents(), leaf.n - 1) && p < leaf.n
  {
    ShownSlices(leaf);
    p := FirstOfRun(leaf.keys, leaf.n, leaf.n - 1, leaf.Contents());
  }

  method RemoveTakingRight(leaf: LeafNode, i: nat, right: LeafNode, ghost was: Value) returns (st: Status)
    requires leaf.Valid() && right.Valid() && leaf.Apart(right) && i < leaf.n <= NMIN && right.n > 0
    modifies leaf`n, leaf`cells, leaf.keys, leaf.lengths, leaf.values, leaf.suffixes
    modifies right, right.keys, right.lengths, right.values, right.suffixes
    ensures leaf.Valid() && right.Valid()
    ensures RightOutcome(R.ExchangeRight(old(leaf.Value()), RemoveAt(old(leaf.Contents()), i), old(right.Value()),
                                         RunEnd(old(right.Contents()), 1), was),
                         st, leaf.Value(), right.Value(), old(right.Value()))
  {
    if right.n > NMIN {
      var p := FirstRun(right);
      if leaf.n - 1 + p <= NKEYS && p < right.n {
        leaf.StealRight(i, right, p);
        return StoleFromRight(right.minKey);
      } else if leaf.n - 1 + right.n > NKEYS {
        leaf.Remove(i);
        return Modified;
      }
    }
    assert right.Contents()[0..right.n] == right.Contents();
    leaf.Exchange(i, right, 0, right.n);
    return MergedWithRight;
  }

  method RemoveTakingLeft(leaf: LeafNode, i: nat, left: LeafNode, ghost was: Value) returns (st: Status)
    requires leaf.Valid() && left.Valid() && leaf.Apart(left) && left.Apart(leaf) && i < leaf.n <= NMIN && left.n > 0
    modifies leaf, leaf.keys, leaf.lengths, leaf.values, leaf.suffixes
    modifies left`n, left`cells, left.keys, left.lengths, left.values, left.suffixes
    ensures leaf.Valid() && left.Valid()
    ensures LeftOutcome(R.ExchangeLeft(old(leaf.Value()), RemoveAt(old(leaf.Contents()), i), old(left.Value()),
                                       RunStart(old(left.Contents()), old(left.n) - 1), was),
                        st, leaf.Value(), left.Value(), old(left.Value()))
  {
    ghost var before, rest, beside, run := leaf.Value(), RemoveAt(leaf.Contents(), i), left.Value(),
      RunStart(left.Contents(), left.n - 1);
    if left.n > NMIN {
      var p := LastRun(left);
      if leaf.n - 1 + (left.n - p) <= NKEYS && p > 0 {
        leaf.StealLeft(i, left, p);
        StealOutcome(before, rest, beside, run, was, leaf.Value(), left.Value());
        return StoleFromLeft(leaf.minKey);
      } else if left.n + (leaf.n - 1) > NKEYS {
        leaf.Remove(i);
        KeepOutcome(before, rest, beside, run, was, leaf.Value());
        return Modified;
      }
    }
    leaf.MergeLeft(i, left);
    MergeOutcome(before, rest, beside, run, was, leaf.Value(), left.Value());
    return MergedWithLeft;
  }

  lemma StealOutcome(n: Node, rest: seq<Slot>, left: Node, p: nat, was: Value, n': Node, left': Node)
    requires n.Leaf? && left.Leaf? && 0 < p < |left.slots|
    requires |left.slots| > NMIN && |rest| + (|left.slots| - p) <= NKEYS
    requires left' == left.(slots := left.slots[..p]) && n' == Leaf(left.slots[p].slice, left.slots[p..] + rest)
    ensures LeftOutcome(R.ExchangeLeft(n, rest, left, p, was), StoleFromLeft(n'.minKey), n', left', left)
  {
  }

  lemma KeepOutcome(n: Node, rest: seq<Slot>, left: Node, p: nat, was: Value, n': Node)
    requires n.Leaf? && left.Leaf? && p < |left.slots|
    requires |left.slots| > NMIN && !(|rest| + (|left.slots| - p) <= NKEYS && p > 0) && |left.slots| + |rest| > NKEYS
    requires n' == n.(slots := rest)
    ensures LeftOutcome(R.ExchangeLeft(n, rest, left, p, was), Modified, n', left, left)
  {
  }

  lemma MergeOutcome(n: Node, rest: seq<Slot>, left: Node, p: nat, was: Value, n': Node, left': Node)
    requires n.Leaf? && left.Leaf? && p < |left.slots|
    requires |left.slots| > NMIN ==>
        !(|rest| + (|left.slots| - p) <= NKEYS && p > 0) && |left.slots| + |rest| <= NKEYS
    requires left' == left.(slots := left.slots + rest)
    ensures LeftOutcome(R.ExchangeLeft(n, rest, left, p, was), MergedWithLeft, n', left', left)
  {
  }

  /** A neighbour under the same parent, if there is one. */
  ghost function Beside(o: LeafNode?): Option<Node>
    requires o != null ==> o.Shape()
    reads o
  {
    if o == null then None else Some(o.Value())
  }

  ghost predicate Neighbour(leaf: LeafNode, o: LeafNode?)
    reads Parts(o)
  {
    o != null ==> o.Valid() && leaf.Apart(o) && o.Apart(leaf) && o.n > 0
  }

  ghost function Parts(o: LeafNode?): set<object> {
    if o == null then {} else {o, o.keys, o.lengths, o.values, o.suffixes}
  }

  /** The outcome of a removal, on the leaf and on the one neighbour that takes part. */
  ghost predicate Outcome(res: R.RemoveResult, st: Status, leaf: Node, left: Option<Node>, right: Option<Node>,
                          before: (Option<Node>, Option<Node>))
  {
    match res
    case Removed(m, _) => st == Modified && leaf == m && (left, right) == before
    case StoleRight(m, nk, r, _) => st == StoleFromRight(nk) && leaf == m && right == Some(r) && left == before.0
    case MergedRight(m, _) => st == MergedWithRight && leaf == m && left == before.0
    case StoleLeft(l, nk, m, _) => st == StoleFromLeft(nk) && leaf == m && left == Some(l) && right == before.1
    case MergedLeft(l, _) => st == MergedWithLeft && left == Some(l) && right == before.1
    case _ => false
  }

  /** Remove slot i: a leaf that gets too small turns to its right neighbour, else to its left one. */
  method RemoveSlot(leaf: LeafNode, i: nat, left: LeafNode?, right: LeafNode?, ghost was: Value) returns (st: Status)
    requires leaf.Valid() && i < leaf.n && Neighbour(leaf, left) && Neighbour(leaf, right)
    requires left != null && right != null ==> left.Apart(right) && right.Apart(left)
    modifies Parts(leaf), Parts(left), Parts(right)
    ensures leaf.Valid() && (left != null ==> left.Valid()) && (right != null ==> right.Valid())
    ensures Outcome(R.RemoveFromLeaf(old(leaf.Value()), i, old(Beside(left)), old(Beside(right)), was), st,
                    leaf.Value(), Beside(left), Beside(right), (old(Beside(left)), old(Beside(right))))
  {
    if leaf.n > NMIN {
      leaf.Remove(i);
      return Modified;
    } else if right != null {
      st := RemoveTakingRight(leaf, i, right, was);
    } else if left != null {
      st := RemoveTakingLeft(leaf, i, left, was);
    } else {
      leaf.Remove(i);
      return Modified;
    }
  }
}
