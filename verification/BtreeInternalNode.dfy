/** `internal_node` with its key and child arrays, edited in place (the internal halves of insert0
    and remove0 in bench/servers/silo/btree_impl.h). A child pointer stands for the subtree below
    it. */
module BtreeInternalNode {
  import opened Options
  import opened Varkey
  import opened BtreeModel
  import opened BtreeKids
  import opened BtreeArrays
  import I = BtreeInsert
  import R = BtreeRemove

  class InternalNode {
    var n: nat                       // key_slots_used
    const keys: array<nat>
    const kids: array<Node>

    ghost predicate Valid()
      reads this
    {
      keys.Length == NKEYS && kids.Length == NKEYS + 1 && n <= NKEYS
    }

    ghost function Keys(): seq<nat>
      requires Valid()
      reads this, keys
    {
      keys[..n]
    }

    ghost function Kids(): seq<Node>
      requires Valid()
      reads this, kids
    {
      kids[..n + 1]
    }

    constructor ()
      ensures Valid() && fresh(this) && fresh(keys) && fresh(kids)
    {
      n := 0;
      keys := new nat[NKEYS](_ => 0);
      kids := new Node[NKEYS + 1](_ => Leaf(0, []));
    }

    /** A new separator and child in a node with room. */
    method Put(c: nat, mk: nat, b: Node)
      requires Valid() && c <= n < NKEYS
      modifies this`n, keys, kids
      ensures Valid()
      ensures Keys() == old(Keys())[..c] + [mk] + old(Keys())[c..]
      ensures Kids() == old(Kids())[..c + 1] + [b] + old(Kids())[c + 1..]
    {
      assert Keys()[..c] == keys[..c] && Keys()[c..] == keys[c..n];
      assert Kids()[..c + 1] == kids[..c + 1] && Kids()[c + 1..] == kids[c + 1..n + 1];
      InsertCell(keys, n, c, mk);
      InsertCell(kids, n + 1, c + 1, b);
      n := n + 1;
    }

    /** Case (1) of a split: the new separator goes into the old node. */
    method SplitLow(c: nat, mk: nat, b: Node) returns (o: InternalNode, up: nat)
      requires Valid() && n == NKEYS && c < NMIN
      modifies this`n, keys, kids
      ensures Valid() && o.Valid() && fresh(o) && up == old(Keys())[NMIN - 1]
      ensures Keys() == old(Keys())[..c] + [mk] + old(Keys())[c..NMIN - 1]
      ensures Kids() == old(Kids())[..c + 1] + [b] + old(Kids())[c + 1..NMIN]
      ensures o.Keys() == old(Keys())[NMIN..] && o.Kids() == old(Kids())[NMIN..]
    {
      o := new InternalNode();
      up := keys[NMIN - 1];
      assert Keys() == keys[..] && Kids() == kids[..];
      AppendCells(o.keys, 0, keys, NMIN, NKEYS);
      AppendCells(o.kids, 0, kids, NMIN, NKEYS + 1);
      o.n := NKEYS - NMIN;
      InsertCell(keys, NMIN - 1, c, mk);
      InsertCell(kids, NMIN, c + 1, b);
      n := NMIN;
    }

    /** Case (2): the new separator goes up. */
    method SplitMiddle(b: Node) returns (o: InternalNode)
      requires Valid() && n == NKEYS
      modifies this`n
      ensures Valid() && o.Valid() && fresh(o)
      ensures Keys() == old(Keys())[..NMIN] && Kids() == old(Kids())[..NMIN + 1]
      ensures o.Keys() == old(Keys())[NMIN..] && o.Kids() == [b] + old(Kids())[NMIN + 1..]
    {
      o := new InternalNode();
      assert Keys() == keys[..] && Kids() == kids[..];
      AppendCells(o.keys, 0, keys, NMIN, NKEYS);
      o.kids[0] := b;
      AppendCells(o.kids, 1, kids, NMIN + 1, NKEYS + 1);
      o.n := NKEYS - NMIN;
      n := NMIN;
    }

    /** Case (3): the new separator goes into the new node. */
    method SplitHigh(c: nat, mk: nat, b: Node) returns (o: InternalNode, up: nat)
      requires Valid() && n == NKEYS && NMIN < c <= NKEYS
      modifies this`n
      ensures Valid() && o.Valid() && fresh(o) && up == old(Keys())[NMIN]
      ensures Keys() == old(Keys())[..NMIN] && Kids() == old(Kids())[..NMIN + 1]
      ensures o.Keys() == old(Keys())[NMIN + 1..c] + [mk] + old(Keys())[c..]
      ensures o.Kids() == old(Kids())[NMIN + 1..c + 1] + [b] + old(Kids())[c + 1..]
    {
      o := new InternalNode();
      up := keys[NMIN];
      assert Keys() == keys[..] && Kids() == kids[..];
      CopyWith(o.keys, keys, NMIN + 1, c, NKEYS, mk);
      CopyWith(o.kids, kids, NMIN + 1, c + 1, NKEYS + 1, b);
      o.n := NKEYS - NMIN;
      n := NMIN;
    }

    // ---- after a merge below: separator dk and child dk + 1 go ----

    /** `remove_pos_from_internal_node`. */
    method Drop(dk: nat)
      requires Valid() && dk < n
      modifies this`n, keys, kids
      ensures Valid() && Keys() == DropKey(old(Keys()), dk)
      ensures Kids() == old(Kids())[..dk + 1] + old(Kids())[dk + 2..]
    {
      assert Keys()[..dk] == keys[..dk] && Keys()[dk + 1..] == keys[dk + 1..n];
      assert Kids()[..dk + 1] == kids[..dk + 1] && Kids()[dk + 2..] == kids[dk + 2..n + 1];
      RemoveCell(keys, n, dk);
      RemoveCell(kids, n + 1, dk + 1);
      n := n - 1;
    }

    ghost predicate Apart(o: InternalNode) { this != o && keys != o.keys && kids != o.kids }

    /** Drop, then take the right sibling's first child under the parent's separator. */
    method StealRight(dk: nat, max: nat, right: InternalNode) returns (up: nat)
      requires Valid() && right.Valid() && Apart(right) && dk < n && right.n > 0
      modifies this`n, keys, kids, right`n, right.keys, right.kids
      ensures Valid() && right.Valid() && up == old(right.Keys())[0]
      ensures Keys() == DropKey(old(Keys()), dk) + [max]
      ensures Kids() == old(Kids())[..dk + 1] + old(Kids())[dk + 2..] + [old(right.Kids())[0]]
      ensures right.Keys() == old(right.Keys())[1..] && right.Kids() == old(right.Kids())[1..]
    {
      Drop(dk);
      StoreCell(keys, n, max);
      StoreCell(kids, n + 1, right.kids[0]);
      n := n + 1;
      up := right.keys[0];
      right.DropFirst();
    }

    /** The first separator and child go. */
    method DropFirst()
      requires Valid() && n > 0
      modifies this`n, keys, kids
      ensures Valid() && Keys() == old(Keys())[1..] && Kids() == old(Kids())[1..]
    {
      assert Keys()[1..] == keys[1..n] && Kids()[1..] == kids[1..n + 1];
      RemoveCell(keys, n, 0);
      RemoveCell(kids, n + 1, 0);
      n := n - 1;
    }

    /** Drop, then take everything from the right sibling. */
    method MergeRight(dk: nat, max: nat, right: InternalNode)
      requires Valid() && right.Valid() && Apart(right) && dk < n && n + right.n <= NKEYS
      modifies this`n, keys, kids
      ensures Valid()
      ensures Keys() == DropKey(old(Keys()), dk) + [max] + right.Keys()
      ensures Kids() == old(Kids())[..dk + 1] + old(Kids())[dk + 2..] + right.Kids()
    {
      Drop(dk);
      StoreCell(keys, n, max);
      AppendCells(keys, n + 1, right.keys, 0, right.n);
      AppendCells(kids, n + 1, right.kids, 0, right.n + 1);
      n := n + 1 + right.n;
    }

    /** Drop, and put the left sibling's last child in front, under the parent's separator. */
    method StealLeft(dk: nat, min: nat, left: InternalNode) returns (up: nat)
      requires Valid() && left.Valid() && Apart(left) && dk < n && left.n > 0
      modifies keys, kids, left`n
      ensures Valid() && left.Valid() && left.n == old(left.n) - 1 && up == old(left.Keys())[left.n]
      ensures Keys() == [min] + DropKey(old(Keys()), dk)
      ensures Kids() == [old(left.Kids())[old(left.n)]] + (old(Kids())[..dk + 1] + old(Kids())[dk + 2..])
      ensures left.Keys() == old(left.Keys())[..left.n] && left.Kids() == old(left.Kids())[..left.n + 1]
    {
      assert Keys()[..dk] == keys[..dk] && Keys()[dk + 1..] == keys[dk + 1..n];
      assert Kids()[..dk + 1] == kids[..dk + 1] && Kids()[dk + 2..] == kids[dk + 2..n + 1];
      RotateIn(keys, n, dk, min);
      RotateIn(kids, n + 1, dk + 1, left.kids[left.n]);
      up := left.keys[left.n - 1];
      left.n := left.n - 1;
    }

    /** The separators of the merge: all but dk go behind the left sibling's and min. */
    method MergeKeys(dk: nat, min: nat, left: InternalNode)
      requires Valid() && left.Valid() && Apart(left) && left.Apart(this) && dk < n && left.n + n <= NKEYS
      modifies left.keys
      ensures left.keys[..left.n + n] == old(left.Keys()) + [min] + DropKey(Keys(), dk)
    {
      assert Keys()[..dk] == keys[..dk] && Keys()[dk + 1..] == keys[dk + 1..n];
      StoreCell(left.keys, left.n, min);
      AppendAllBut(left.keys, left.n + 1, keys, dk, n);
    }

    /** The children of the merge: all but dk + 1 go behind the left sibling's. */
    method MergeKids(dk: nat, left: InternalNode)
      requires Valid() && left.Valid() && Apart(left) && left.Apart(this) && dk < n && left.n + n <= NKEYS
      modifies left.kids
      ensures left.kids[..left.n + n + 1] == old(left.Kids()) + (Kids()[..dk + 1] + Kids()[dk + 2..])
    {
      assert Kids()[..dk + 1] == kids[..dk + 1] && Kids()[dk + 2..] == kids[dk + 2..n + 1];
      AppendAllBut(left.kids, left.n + 1, kids, dk + 1, n + 1);
    }

    /** Hand everything but separator dk and child dk + 1 over to the left sibling. */
    method MergeLeft(dk: nat, min: nat, left: InternalNode)
      requires Valid() && left.Valid() && Apart(left) && left.Apart(this) && dk < n && left.n + n <= NKEYS
      modifies left`n, left.keys, left.kids
      ensures left.Valid()
      ensures left.Keys() == old(left.Keys()) + [min] + DropKey(Keys(), dk)
      ensures left.Kids() == old(left.Kids()) + (Kids()[..dk + 1] + Kids()[dk + 2..])
    {
      MergeKeys(dk, min, left);
      MergeKids(dk, left);
      left.n := left.n + n;
    }

    ghost function Value(): Node
      requires Valid()
      reads this, keys, kids
    {
      Internal(Keys(), Kids())
    }
  }

  /** Child c, already split in place, gets its right half b: the three cases of insert0. */
  method PutChild(node: InternalNode, c: nat, mk: nat, b: Node) returns (o: InternalNode?, up: nat)
    requires node.Valid() && c <= node.n
    modifies node`n, node.keys, node.kids
    ensures node.Valid() && (o != null ==> o.Valid())
    ensures
      var before, a := old(node.Value()), old(node.Kids())[c];
      match I.PutInInternal(before.keys, before.kids, c, a, mk, b)
      case Mod(m) => o == null && node.Value() == m
      case Split(l, k, r) => o != null && node.Value() == l && up == k && o.Value() == r
      case _ => false
  {
    ghost var kids := node.Kids();
    assert kids[c := kids[c]] == kids;
    if node.n < NKEYS {
      node.Put(c, mk, b);
      o, up := null, 0;
    } else if c < NMIN {
      o, up := node.SplitLow(c, mk, b);
    } else if c == NMIN {
      o := node.SplitMiddle(b);
      up := mk;
    } else {
      o, up := node.SplitHigh(c, mk, b);
    }
  }

  datatype Status = Modified | StoleFromLeft(nk: nat) | StoleFromRight(nk: nat) | MergedWithLeft | MergedWithRight
    | Replaced

  /** Status and nodes are those of the value-level outcome. A merged-away node is not looked at. */
  ghost predicate Outcome(res: R.RemoveResult, st: Status, node: Node, left: Option<Node>, right: Option<Node>) {
    match res
    case Removed(m, _) => st == Modified && node == m
    case StoleLeft(l, nk, m, _) => st == StoleFromLeft(nk) && node == m && left == Some(l)
    case StoleRight(m, nk, r, _) => st == StoleFromRight(nk) && node == m && right == Some(r)
    case MergedLeft(l, _) => st == MergedWithLeft && left == Some(l)
    case MergedRight(m, _) => st == MergedWithRight && node == m
    case Replaced(m, _) => st == Replaced && node.Internal? && |node.kids| > 0 && node.kids[0] == m
    case NotFound => false
  }

  lemma FusedInPlace(kids: seq<Node>, j: nat)
    requires j + 1 < |kids|
    ensures FuseKids(kids, j, kids[j]) == kids[..j + 1] + kids[j + 2..]
  {
  }

  /** Children dk and dk + 1 have been merged into child dk: drop the separator between them and, when
      that leaves too few, steal from or merge with the right sibling. */
  method RebalanceRight(node: InternalNode, dk: nat, right: InternalNode, lo: nat, hi: nat, ghost left: Option<Node>,
                        ghost was: Value)
    returns (st: Status)
    requires node.Valid() && right.Valid() && node.Apart(right) && dk < node.n <= NMIN <= right.n
    requires left.Some? ==> left.value.Internal? && |left.value.kids| == |left.value.keys| + 1
    modifies node`n, node.keys, node.kids, right`n, right.keys, right.kids
    ensures node.Valid() && right.Valid()
    ensures Outcome(R.Rebalance(DropKey(old(node.Keys()), dk), FuseKids(old(node.Kids()), dk, old(node.Kids())[dk]),
                                left, Some(old(right.Value())), lo, hi, was),
                    st, node.Value(), left, Some(right.Value()))
  {
    FusedInPlace(node.Kids(), dk);
    if right.n > NMIN {
      var up := node.StealRight(dk, hi, right);
      st := StoleFromRight(up);
    } else {
      node.MergeRight(dk, hi, right);
      st := MergedWithRight;
    }
  }

  /** The same with a left sibling only. */
  method RebalanceLeft(node: InternalNode, dk: nat, left: InternalNode, lo: nat, hi: nat, ghost was: Value)
    returns (st: Status)
    requires node.Valid() && left.Valid() && node.Apart(left) && left.Apart(node) && dk < node.n <= NMIN <= left.n
    modifies node`n, node.keys, node.kids, left`n, left.keys, left.kids
    ensures node.Valid() && left.Valid()
    ensures Outcome(R.Rebalance(DropKey(old(node.Keys()), dk), FuseKids(old(node.Kids()), dk, old(node.Kids())[dk]),
                                Some(old(left.Value())), None, lo, hi, was),
                    st, node.Value(), Some(left.Value()), None)
  {
    FusedInPlace(node.Kids(), dk);
    if left.n > NMIN {
      var up := node.StealLeft(dk, lo, left);
      st := StoleFromLeft(up);
    } else {
      node.MergeLeft(dk, lo, left);
      st := MergedWithLeft;
    }
  }
}
