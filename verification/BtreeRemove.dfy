/** `remove0` and `remove_stable_location` (bench/servers/silo/btree_impl.h), run alone:
    plain removal, stealing from and merging with either neighbour, root replacement. */
module BtreeRemove {
  import opened Options
  import opened Varkey
  import opened BtreeModel
  import opened BtreeRuns
  import opened BtreeLeaf
  import opened BtreeKids

  /** R_NONE_NOMOD, R_NONE_MOD, the four sibling outcomes, R_REPLACE_NODE. Nodes that the code
      changes in place are returned; `was` is the removed value. */
  datatype RemoveResult =
    | NotFound
    | Removed(node: Node, was: Value)
    | StoleLeft(left: Node, nk: nat, node: Node, was: Value)
    | StoleRight(node: Node, nk: nat, right: Node, was: Value)
    | MergedLeft(left: Node, was: Value)
    | MergedRight(node: Node, was: Value)
    | Replaced(node: Node, was: Value)

  /** A leaf n that lost a slot, with a right neighbour whose first run ends at p: steal the run,
      go on underfull, or merge. */
  function ExchangeRight(n: Node, rest: seq<Slot>, right: Node, p: nat, was: Value): RemoveResult
    requires n.Leaf? && right.Leaf? && p <= |right.slots|
  {
    var r := right.slots;
    if |r| > NMIN && |rest| + p <= NKEYS && p < |r| then
      StoleRight(n.(slots := rest + r[..p]), r[p].slice, Leaf(r[p].slice, r[p..]), was)
    else if |r| > NMIN && |rest| + |r| > NKEYS then
      Removed(n.(slots := rest), was)
    else
      MergedRight(n.(slots := rest + r), was)
  }

  /** The same with a left neighbour whose last run starts at p. */
  function ExchangeLeft(n: Node, rest: seq<Slot>, left: Node, p: nat, was: Value): RemoveResult
    requires n.Leaf? && left.Leaf? && p < |left.slots|
  {
    var l := left.slots;
    if |l| > NMIN && |rest| + (|l| - p) <= NKEYS && p > 0 then
      StoleLeft(left.(slots := l[..p]), l[p].slice, Leaf(l[p].slice, l[p..] + rest), was)
    else if |l| > NMIN && |l| + |rest| > NKEYS then
      Removed(n.(slots := rest), was)
    else
      MergedLeft(left.(slots := l + rest), was)
  }

  function RemoveFromLeaf(n: Node, i: nat, left: Option<Node>, right: Option<Node>, was: Value): (r: RemoveResult)
    requires n.Leaf? && i < |n.slots|
    requires left.Some? ==> left.value.Leaf? && |left.value.slots| > 0
    requires right.Some? ==> right.value.Leaf? && |right.value.slots| > 0
    ensures Sided(r, left, right) && !r.NotFound? && !r.Replaced? && r.was == was
  {
    var rest := RemoveAt(n.slots, i);
    if |n.slots| > NMIN then
      Removed(n.(slots := rest), was)
    else if right.Some? then
      ExchangeRight(n, rest, right.value, RunEnd(right.value.slots, 1), was)
    else if left.Some? then
      ExchangeLeft(n, rest, left.value, RunStart(left.value.slots, |left.value.slots| - 1), was)
    else
      Removed(n.(slots := rest), was)
  }

  /** A sibling outcome needs that sibling; a root has none. */
  predicate Sided(r: RemoveResult, left: Option<Node>, right: Option<Node>) {
    && (r.StoleLeft? || r.MergedLeft? ==> left.Some?)
    && (r.StoleRight? || r.MergedRight? ==> right.Some?)
    && (r.Replaced? ==> left.None? && right.None?)
  }

  /** An internal node that just lost a separator and a child: fine, steal, merge, or give up
      the root. The range ends lo and hi are the parent's separators `*min_key`, `*max_key`. */
  function Rebalance(keys: seq<nat>, kids: seq<Node>, left: Option<Node>, right: Option<Node>,
                     lo: nat, hi: nat, was: Value): (r: RemoveResult)
    requires |kids| == |keys| + 1
    requires left.Some? ==> left.value.Internal? && |left.value.kids| == |left.value.keys| + 1
    requires right.Some? ==> right.value.Internal? && |right.value.kids| == |right.value.keys| + 1
    ensures Sided(r, left, right) && !r.NotFound? && r.was == was
  {
    if |keys| + 1 > NMIN then
      Removed(Internal(keys, kids), was)
    else if right.Some? then
      var r := right.value;
      if |r.keys| > NMIN then
        StoleRight(Internal(keys + [hi], kids + [r.kids[0]]), r.keys[0], Internal(r.keys[1..], r.kids[1..]), was)
      else
        MergedRight(Internal(keys + [hi] + r.keys, kids + r.kids), was)
    else if left.Some? then
      var l := left.value;
      var ln := |l.keys|;
      if ln > NMIN then
        StoleLeft(Internal(l.keys[..ln - 1], l.kids[..ln]), l.keys[ln - 1],
                  Internal([lo] + keys, [l.kids[ln]] + kids), was)
      else
        MergedLeft(Internal(l.keys + [lo] + keys, l.kids + kids), was)
    else if |keys| == 0 then
      Replaced(kids[0], was)
    else
      Removed(Internal(keys, kids), was)
  }

  /** Neighbours under the same parent: adjacent ranges, same height, filled, and then n is
      filled too. */
  ghost predicate SiblingsOk(n: Node, left: Option<Node>, right: Option<Node>, lo: nat, hi: nat, llo: nat, rhi: nat) {
    && (left.Some? ==>
          llo < lo && NodeOk(left.value, llo, lo) && Filled(left.value) && Height(left.value) == Height(n) && Filled(n))
    && (right.Some? ==>
          hi < rhi && NodeOk(right.value, hi, rhi) && Filled(right.value) && Height(right.value) == Height(n) &&
            Filled(n))
  }

  function Remove0(n: Node, k: Key, left: Option<Node>, right: Option<Node>,
                   lo: nat, hi: nat, ghost llo: nat, ghost rhi: nat): (r: RemoveResult)
    requires NodeOk(n, lo, hi) && lo <= Slice(k) < hi && SiblingsOk(n, left, right, lo, hi, llo, rhi)
    ensures Sided(r, left, right)
    decreases |k|, n
  {
    match n
    case Leaf(_, slots) =>
      var p := Pos(slots, KeyRank(k));
      if !(p > 0 && Matches(slots[p - 1], k)) then
        NotFound
      else
        assert SlotsOk(slots, lo, hi);
        var x := slots[p - 1];
        assert SlotOk(x);
        (match x.vn
         case Layer(root) =>
           (match Remove0(root, Shift(k), None, None, 0, SLICE_LIMIT, 0, 0)
            case Removed(m, was) => Removed(SetSlot(n, p - 1, x.(vn := Layer(m))), was)
            case Replaced(m, was) => Removed(SetSlot(n, p - 1, x.(vn := Layer(m))), was)
            case _ => NotFound)
         case Val(v) =>
           if |k| > 8 && x.suffix != Shift(k) then
             NotFound
           else
             RemoveFromLeaf(n, p - 1, left, right, v))
    case Internal(keys, kids) =>
      var c := ChildIdx(keys, Slice(k));
      assert KidsOk(keys, kids, lo, hi, Height(kids[0]));
      Shrink(n, c, Remove0(kids[c], k, LeftOf(kids, c), RightOf(kids, c), Lo(keys, c, lo), Hi(keys, c, hi),
                           LeftLo(keys, c, lo), RightHi(keys, c, hi)),
             left, right, lo, hi)
  }

  /** The neighbours of child c under the same parent, and the far ends of their ranges. */
  function LeftOf(kids: seq<Node>, c: nat): Option<Node>
    requires c < |kids|
  {
    if c == 0 then None else Some(kids[c - 1])
  }

  function RightOf(kids: seq<Node>, c: nat): Option<Node>
    requires c < |kids|
  {
    if c + 1 == |kids| then None else Some(kids[c + 1])
  }

  function LeftLo(keys: seq<nat>, c: nat, lo: nat): nat
    requires c <= |keys|
  {
    if c == 0 then 0 else Lo(keys, c - 1, lo)
  }

  function RightHi(keys: seq<nat>, c: nat, hi: nat): nat
    requires c <= |keys|
  {
    if c == |keys| then 0 else Hi(keys, c + 1, hi)
  }

  /** An internal node after child c has been removed from. */
  function Shrink(n: Node, c: nat, res: RemoveResult, left: Option<Node>, right: Option<Node>, lo: nat,
                  hi: nat): (r: RemoveResult)
    requires n.Internal? && |n.kids| == |n.keys| + 1 && c <= |n.keys|
    requires Sided(res, LeftOf(n.kids, c), RightOf(n.kids, c))
    requires |n.keys| > 0
    requires left.Some? ==> left.value.Internal? && |left.value.kids| == |left.value.keys| + 1
    requires right.Some? ==> right.value.Internal? && |right.value.kids| == |right.value.keys| + 1
    ensures Sided(r, left, right)
  {
    match res
    case NotFound => NotFound
    case Removed(m, was) => Removed(n.(kids := n.kids[c := m]), was)
    case StoleLeft(l, nk, m, was) =>
      Removed(Internal(n.keys[c - 1 := nk], n.kids[c - 1 := l][c := m]), was)
    case StoleRight(m, nk, r, was) =>
      Removed(Internal(n.keys[c := nk], n.kids[c := m][c + 1 := r]), was)
    case MergedLeft(l, was) =>
      Rebalance(DropKey(n.keys, c - 1), FuseKids(n.kids, c - 1, l), left, right, lo, hi, was)
    case MergedRight(m, was) =>
      Rebalance(DropKey(n.keys, c), FuseKids(n.kids, c, m), left, right, lo, hi, was)
  }

  // ---- remove0 keeps the tree invariant ----

  ghost predicate Good(m: Node, lo: nat, hi: nat, h: nat) {
    NodeOk(m, lo, hi) && Filled(m) && Height(m) == h
  }

  ghost predicate ResultOk(n: Node, res: RemoveResult, left: Option<Node>, right: Option<Node>,
                           lo: nat, hi: nat, llo: nat, rhi: nat)
  {
    var h := Height(n);
    match res
    case NotFound => true
    case Removed(m, _) => NodeOk(m, lo, hi) && Height(m) == h && (left.Some? || right.Some? ==> Filled(m))
    case StoleLeft(l, nk, m, _) => left.Some? && llo < nk < hi && Good(l, llo, nk, h) && Good(m, nk, hi, h)
    case StoleRight(m, nk, r, _) => right.Some? && lo < nk < rhi && Good(m, lo, nk, h) && Good(r, nk, rhi, h)
    case MergedLeft(l, _) => left.Some? && Good(l, llo, hi, h)
    case MergedRight(m, _) => right.Some? && Good(m, lo, rhi, h)
    case Replaced(m, _) => left.None? && right.None? && NodeOk(m, lo, hi)
  }

  // ---- remove0 refines map deletion ----

  function Minus(n: Node, k: Key, k': Key): Option<Value> {
    if k' == k then None else Get(n, k')
  }

  function GetOf(o: Option<Node>, k: Key): Option<Value> {
    if o.Some? then Get(o.value, k) else None
  }

  /** What lookup g of a key of slice s finds in the outcome, given what it should find in the
      left neighbour (gl), in the node itself (gn) and in the right neighbour (gr). */
  ghost predicate Agrees(res: RemoveResult, g: Node -> Option<Value>, s: nat, lo: nat, hi: nat,
                         gl: Option<Value>, gn: Option<Value>, gr: Option<Value>)
  {
    match res
    case NotFound => true
    case Removed(m, _) => g(m) == gn
    case Replaced(m, _) => g(m) == gn
    case StoleLeft(l, nk, m, _) => Side(s, nk, g(l), g(m)) == Side(s, lo, gl, gn)
    case StoleRight(m, nk, r, _) => Side(s, nk, g(m), g(r)) == Side(s, hi, gn, gr)
    case MergedLeft(l, _) => g(l) == Side(s, lo, gl, gn)
    case MergedRight(m, _) => g(m) == Side(s, hi, gn, gr)
  }

  /** The outcome for node n agrees at k' with the map without k, together with the neighbour
      it exchanged slots with; and the status says whether k was bound. */
  ghost predicate Refines(n: Node, res: RemoveResult, k: Key, left: Option<Node>, right: Option<Node>, lo: nat,
                          hi: nat, k': Key)
  {
    && Get(n, k) == (if res.NotFound? then None else Some(res.was))
    && Agrees(res, Look(k'), Slice(k'), lo, hi, GetOf(left, k'), Minus(n, k, k'), GetOf(right, k'))
  }

  // -- leaf --

  /** Removing slot i, before any exchange with the neighbours. */
  lemma RestGet(s: seq<Slot>, i: nat, k: Key, lo: nat, hi: nat, k': Key)
    requires SlotsOk(s, lo, hi) && i < |s| && Matches(s[i], k)
    requires s[i].vn.Val? && (|k| > 8 ==> s[i].suffix == Shift(k))
    ensures SlotsOk(RemoveAt(s, i), lo, hi)
    ensures LeafGet(RemoveAt(s, i), k') == if k' == k then None else LeafGet(s, k')
    ensures LeafGet(s, k) == Some(s[i].vn.v)
  {
    AfterRemove(s, i, lo, hi, KeyRank(k'));
    if KeyRank(k') == KeyRank(k) {
      RankDecidesPrefix(k, k');
      assert LeafGet(s, k') == SlotGet(s[i], k');
    }
  }

  lemma JoinGet(l: seq<Slot>, r: seq<Slot>, lo: nat, m: nat, hi: nat, k: Key)
    requires SlotsOk(l, lo, m) && SlotsOk(r, m, hi) && lo <= m <= hi
    ensures SlotsOk(l + r, lo, hi)
    ensures LeafGet(l + r, k) == if Slice(k) < m then LeafGet(l, k) else LeafGet(r, k)
  {
    Join(l, r, lo, m, hi, k);
  }

  lemma CutGet(l: seq<Slot>, r: seq<Slot>, lo: nat, hi: nat, k: Key)
    requires SlotsOk(l + r, lo, hi) && |l| > 0 && |r| > 0 && l[|l| - 1].slice < r[0].slice
    ensures lo < r[0].slice < hi
    ensures SlotsOk(l, lo, r[0].slice) && SlotsOk(r, r[0].slice, hi)
    ensures LeafGet(l + r, k) == if Slice(k) < r[0].slice then LeafGet(l, k) else LeafGet(r, k)
  {
    Cut(l, r, lo, hi, k);
  }

  lemma RunEndCut(r: seq<Slot>, lo: nat, hi: nat)
    requires Ranked(r, lo, hi) && |r| > 0 && RunEnd(r, 1) < |r|
    ensures r[RunEnd(r, 1) - 1].slice < r[RunEnd(r, 1)].slice
  {
    var p := RunEnd(r, 1);
    assert r[p - 1].Rank() < r[p].Rank();
  }

  lemma RunStartCut(l: seq<Slot>, lo: nat, hi: nat)
    requires Ranked(l, lo, hi) && |l| > 0 && RunStart(l, |l| - 1) > 0
    ensures l[RunStart(l, |l| - 1) - 1].slice < l[RunStart(l, |l| - 1)].slice
  {
    var p := RunStart(l, |l| - 1);
    assert l[p - 1].Rank() < l[p].Rank();
  }

  /** The right neighbour lends its first p slots. */
  lemma LendRight(rest: seq<Slot>, r: seq<Slot>, p: nat, lo: nat, hi: nat, rhi: nat, k: Key)
    requires SlotsOk(rest, lo, hi) && SlotsOk(r, hi, rhi) && lo <= hi <= rhi
    requires 0 < p < |r| && r[p - 1].slice < r[p].slice
    ensures lo < r[p].slice < rhi
    ensures SlotsOk(rest + r[..p], lo, r[p].slice) && SlotsOk(r[p..], r[p].slice, rhi)
    ensures (if Slice(k) < r[p].slice then LeafGet(rest + r[..p], k) else LeafGet(r[p..], k)) ==
            (if Slice(k) < hi then LeafGet(rest, k) else LeafGet(r, k))
  {
    var l' := rest + r[..p];
    assert l' + r[p..] == rest + r;
    JoinGet(rest, r, lo, hi, rhi, k);
    assert l'[|l'| - 1] == r[p - 1];
    CutGet(l', r[p..], lo, rhi, k);
  }

  /** The left neighbour lends its slots from p on. */
  lemma LendLeft(l: seq<Slot>, rest: seq<Slot>, p: nat, llo: nat, lo: nat, hi: nat, k: Key)
    requires SlotsOk(l, llo, lo) && SlotsOk(rest, lo, hi) && llo <= lo <= hi
    requires 0 < p < |l| && l[p - 1].slice < l[p].slice
    ensures llo < l[p].slice < hi
    ensures SlotsOk(l[..p], llo, l[p].slice) && SlotsOk(l[p..] + rest, l[p].slice, hi)
    ensures (if Slice(k) < l[p].slice then LeafGet(l[..p], k) else LeafGet(l[p..] + rest, k)) ==
            (if Slice(k) < lo then LeafGet(l, k) else LeafGet(rest, k))
  {
    var r' := l[p..] + rest;
    assert l[..p] + r' == l + rest;
    JoinGet(l, rest, llo, lo, hi, k);
    assert r'[0] == l[p];
    CutGet(l[..p], r', llo, hi, k);
  }

  lemma LeafOk(s: seq<Slot>, lo: nat, hi: nat)
    requires SlotsOk(s, lo, hi) && |s| <= NKEYS
    ensures NodeOk(Leaf(lo, s), lo, hi) && Height(Leaf(lo, s)) == 0
  {
  }

  lemma ExchangeRightOk(n: Node, rest: seq<Slot>, left: Option<Node>, right: Node, p: nat, was: Value,
                        lo: nat, hi: nat, llo: nat, rhi: nat)
    requires n.Leaf? && n.minKey == lo && SlotsOk(rest, lo, hi) && |rest| < NMIN && lo < hi < rhi
    requires right.Leaf? && SlotsOk(right.slots, hi, rhi) && 0 < p <= |right.slots| <= NKEYS
    requires p < |right.slots| ==> right.slots[p - 1].slice < right.slots[p].slice
    ensures ResultOk(n, ExchangeRight(n, rest, right, p, was), left, Some(right), lo, hi, llo, rhi)
  {
    var r := right.slots;
    if |r| > NMIN && |rest| + p <= NKEYS && p < |r| {
      LendRight(rest, r, p, lo, hi, rhi, []);
      LeafOk(rest + r[..p], lo, r[p].slice);
      LeafOk(r[p..], r[p].slice, rhi);
    } else if |r| > NMIN && |rest| + |r| > NKEYS {
      LeafOk(rest, lo, hi);
    } else {
      JoinGet(rest, r, lo, hi, rhi, []);
      LeafOk(rest + r, lo, rhi);
    }
  }

  lemma LeafNodeGet(m: nat, s: seq<Slot>, k: Key)
    ensures Look(k)(Leaf(m, s)) == Get(Leaf(m, s), k) == LeafGet(s, k)
  {
  }

  /** What an exchange with the right neighbour does to lookups. */
  lemma ExchangeRightGet(n: Node, rest: seq<Slot>, right: Node, p: nat, was: Value, lo: nat, hi: nat, rhi: nat,
                         gl: Option<Value>, k: Key)
    requires n.Leaf? && SlotsOk(rest, lo, hi) && lo < hi < rhi
    requires right.Leaf? && SlotsOk(right.slots, hi, rhi) && 0 < p <= |right.slots|
    requires p < |right.slots| ==> right.slots[p - 1].slice < right.slots[p].slice
    ensures Agrees(ExchangeRight(n, rest, right, p, was), Look(k), Slice(k), lo, hi, gl, LeafGet(rest, k),
        LeafGet(right.slots, k))
  {
    var r := right.slots;
    match ExchangeRight(n, rest, right, p, was)
    case StoleRight(m, nk, r', _) =>
      LendRight(rest, r, p, lo, hi, rhi, k);
      LeafNodeGet(m.minKey, rest + r[..p], k);
      LeafNodeGet(r'.minKey, r[p..], k);
    case Removed(m, _) =>
      LeafNodeGet(m.minKey, rest, k);
    case MergedRight(m, _) =>
      JoinGet(rest, r, lo, hi, rhi, k);
      LeafNodeGet(m.minKey, rest + r, k);
  }

  lemma ExchangeLeftOk(n: Node, rest: seq<Slot>, left: Node, p: nat, was: Value,
                       lo: nat, hi: nat, llo: nat, rhi: nat)
    requires n.Leaf? && n.minKey == lo && SlotsOk(rest, lo, hi) && |rest| < NMIN && llo < lo < hi
    requires left.Leaf? && left.minKey == llo && SlotsOk(left.slots, llo, lo) && p < |left.slots| <= NKEYS
    requires p > 0 ==> left.slots[p - 1].slice < left.slots[p].slice
    ensures ResultOk(n, ExchangeLeft(n, rest, left, p, was), Some(left), None, lo, hi, llo, rhi)
  {
    var l := left.slots;
    if |l| > NMIN && |rest| + (|l| - p) <= NKEYS && p > 0 {
      LendLeft(l, rest, p, llo, lo, hi, []);
      LeafOk(l[..p], llo, l[p].slice);
      LeafOk(l[p..] + rest, l[p].slice, hi);
    } else if |l| > NMIN && |l| + |rest| > NKEYS {
      LeafOk(rest, lo, hi);
    } else {
      JoinGet(l, rest, llo, lo, hi, []);
      LeafOk(l + rest, llo, hi);
    }
  }

  lemma ExchangeLeftGet(n: Node, rest: seq<Slot>, left: Node, p: nat, was: Value, lo: nat, hi: nat, llo: nat, k: Key)
    requires n.Leaf? && SlotsOk(rest, lo, hi) && llo < lo < hi
    requires left.Leaf? && SlotsOk(left.slots, llo, lo) && p < |left.slots|
    requires p > 0 ==> left.slots[p - 1].slice < left.slots[p].slice
    ensures Agrees(ExchangeLeft(n, rest, left, p, was), Look(k), Slice(k), lo, hi, LeafGet(left.slots, k),
        LeafGet(rest, k), None)
  {
    var l := left.slots;
    match ExchangeLeft(n, rest, left, p, was)
    case StoleLeft(l', nk, m, _) =>
      LendLeft(l, rest, p, llo, lo, hi, k);
      LeafNodeGet(l'.minKey, l[..p], k);
      LeafNodeGet(m.minKey, l[p..] + rest, k);
    case Removed(m, _) =>
      LeafNodeGet(m.minKey, rest, k);
    case MergedLeft(l', _) =>
      JoinGet(l, rest, llo, lo, hi, k);
      LeafNodeGet(l'.minKey, l + rest, k);
  }

  /** Taking the value out of slot i of a leaf. */
  lemma LeafRemoveOk(n: Node, i: nat, left: Option<Node>, right: Option<Node>, was: Value,
                     lo: nat, hi: nat, llo: nat, rhi: nat)
    requires n.Leaf? && NodeOk(n, lo, hi) && lo < hi && SiblingsOk(n, left, right, lo, hi, llo, rhi)
    requires i < |n.slots| && SlotsOk(RemoveAt(n.slots, i), lo, hi)
    requires left.Some? ==> LeafSibling(left.value, llo, lo)
    requires right.Some? ==> LeafSibling(right.value, hi, rhi)
    ensures ResultOk(n, RemoveFromLeaf(n, i, left, right, was), left, right, lo, hi, llo, rhi)
  {
    var rest := RemoveAt(n.slots, i);
    LeafOk(rest, lo, hi);
    if |n.slots| <= NMIN {
      if right.Some? {
        var r := right.value.slots;
        if RunEnd(r, 1) < |r| { RunEndCut(r, hi, rhi); }
        ExchangeRightOk(n, rest, left, right.value, RunEnd(r, 1), was, lo, hi, llo, rhi);
      } else if left.Some? {
        var l := left.value.slots;
        if RunStart(l, |l| - 1) > 0 { RunStartCut(l, llo, lo); }
        ExchangeLeftOk(n, rest, left.value, RunStart(l, |l| - 1), was, lo, hi, llo, rhi);
      }
    }
  }

  ghost predicate LeafSibling(m: Node, lo: nat, hi: nat) {
    m.Leaf? && |m.slots| > 0 && SlotsOk(m.slots, lo, hi)
  }

  lemma TakeFirstRun(n: Node, rest: seq<Slot>, right: Node, was: Value, lo: nat, hi: nat, rhi: nat,
                     gl: Option<Value>, k: Key)
    requires n.Leaf? && SlotsOk(rest, lo, hi) && lo < hi < rhi && LeafSibling(right, hi, rhi)
    ensures Agrees(ExchangeRight(n, rest, right, RunEnd(right.slots, 1), was), Look(k), Slice(k), lo, hi,
                   gl, LeafGet(rest, k), Get(right, k))
  {
    var r := right.slots;
    if RunEnd(r, 1) < |r| { RunEndCut(r, hi, rhi); }
    LeafNodeGet(right.minKey, r, k);
    ExchangeRightGet(n, rest, right, RunEnd(r, 1), was, lo, hi, rhi, gl, k);
  }

  lemma TakeLastRun(n: Node, rest: seq<Slot>, left: Node, was: Value, lo: nat, hi: nat, llo: nat, k: Key)
    requires n.Leaf? && SlotsOk(rest, lo, hi) && llo < lo < hi && LeafSibling(left, llo, lo)
    ensures Agrees(ExchangeLeft(n, rest, left, RunStart(left.slots, |left.slots| - 1), was), Look(k), Slice(k), lo, hi,
                   Get(left, k), LeafGet(rest, k), None)
  {
    var l := left.slots;
    if RunStart(l, |l| - 1) > 0 { RunStartCut(l, llo, lo); }
    LeafNodeGet(left.minKey, l, k);
    ExchangeLeftGet(n, rest, left, RunStart(l, |l| - 1), was, lo, hi, llo, k);
  }

  lemma LeafRemoveAgrees(n: Node, i: nat, left: Option<Node>, right: Option<Node>, was: Value,
                         lo: nat, hi: nat, llo: nat, rhi: nat, k: Key)
    requires n.Leaf? && lo < hi && i < |n.slots| && SlotsOk(RemoveAt(n.slots, i), lo, hi)
    requires left.Some? ==> llo < lo && LeafSibling(left.value, llo, lo)
    requires right.Some? ==> hi < rhi && LeafSibling(right.value, hi, rhi)
    ensures Agrees(RemoveFromLeaf(n, i, left, right, was), Look(k), Slice(k), lo, hi,
                   GetOf(left, k), LeafGet(RemoveAt(n.slots, i), k), GetOf(right, k))
  {
    var rest := RemoveAt(n.slots, i);
    LeafNodeGet(n.minKey, rest, k);
    if |n.slots| <= NMIN {
      if right.Some? {
        TakeFirstRun(n, rest, right.value, was, lo, hi, rhi, GetOf(left, k), k);
      } else if left.Some? {
        TakeLastRun(n, rest, left.value, was, lo, hi, llo, k);
      }
    }
  }

  lemma LeafRemoveRefines(n: Node, i: nat, k: Key, left: Option<Node>, right: Option<Node>,
                          lo: nat, hi: nat, llo: nat, rhi: nat, k': Key)
    requires n.Leaf? && SlotsOk(n.slots, lo, hi) && lo < hi
    requires i < |n.slots| && Matches(n.slots[i], k)
    requires n.slots[i].vn.Val? && (|k| > 8 ==> n.slots[i].suffix == Shift(k))
    requires left.Some? ==> llo < lo && LeafSibling(left.value, llo, lo)
    requires right.Some? ==> hi < rhi && LeafSibling(right.value, hi, rhi)
    ensures Refines(n, RemoveFromLeaf(n, i, left, right, n.slots[i].vn.v), k, left, right, lo, hi, k')
  {
    RestGet(n.slots, i, k, lo, hi, k');
    LeafNodeGet(n.minKey, n.slots, k);
    LeafNodeGet(n.minKey, n.slots, k');
    LeafRemoveAgrees(n, i, left, right, n.slots[i].vn.v, lo, hi, llo, rhi, k');
  }

  // -- internal nodes --

  /** Two adjacent nodes joined and cut again elsewhere: well formed, same lookups. */
  lemma RecutOk(ka: seq<nat>, ca: seq<Node>, m: nat, kb: seq<nat>, cb: seq<Node>,
                ka': seq<nat>, ca': seq<Node>, m': nat, kb': seq<nat>, cb': seq<Node>, lo: nat, hi: nat, h: nat)
    requires KidsOk(ka, ca, lo, m, h) && KidsOk(kb, cb, m, hi, h) && lo < m < hi
    requires |ca'| == |ka'| + 1 && ka + [m] + kb == ka' + [m'] + kb' && ca + cb == ca' + cb'
    ensures lo < m' < hi && KidsOk(ka', ca', lo, m', h) && KidsOk(kb', cb', m', hi, h)
  {
    KidsJoin(ka, ca, m, kb, cb, lo, hi, h);
    var keys, kids, j := ka' + [m'] + kb', ca' + cb', |ka'|;
    assert keys[..j] == ka' && keys[j] == m' && keys[j + 1..] == kb';
    assert kids[..j + 1] == ca' && kids[j + 1..] == cb';
    KidsCut(keys, kids, j, lo, hi, h);
  }

  lemma RecutGet(ka: seq<nat>, ca: seq<Node>, m: nat, kb: seq<nat>, cb: seq<Node>,
                 ka': seq<nat>, ca': seq<Node>, m': nat, kb': seq<nat>, cb': seq<Node>, g: Node -> Option<Value>,
                 s: nat)
    requires |ca| == |ka| + 1 && |cb| == |kb| + 1 && Ascending(ka + [m] + kb) && Routes(g, s)
    requires |ca'| == |ka'| + 1 && ka + [m] + kb == ka' + [m'] + kb' && ca + cb == ca' + cb'
    ensures Side(s, m', g(Internal(ka', ca')), g(Internal(kb', cb'))) ==
        Side(s, m, g(Internal(ka, ca)), g(Internal(kb, cb)))
  {
    JoinGetBy(ka, ca, m, kb, cb, g, s);
    JoinGetBy(ka', ca', m', kb', cb', g, s);
  }

  lemma JoinGetBy(ka: seq<nat>, ca: seq<Node>, m: nat, kb: seq<nat>, cb: seq<Node>, g: Node -> Option<Value>, s: nat)
    requires |ca| == |ka| + 1 && |cb| == |kb| + 1 && Ascending(ka + [m] + kb) && Routes(g, s)
    ensures g(Internal(ka + [m] + kb, ca + cb)) == Side(s, m, g(Internal(ka, ca)), g(Internal(kb, cb)))
  {
    RouteJoin(ka, ca, m, kb, cb, s);
  }

  /** A right neighbour lends its first child, a left neighbour its last. */
  lemma LendFirst(keys: seq<nat>, kids: seq<Node>, right: Node, hi: nat)
    requires right.Internal? && |right.keys| > 0 && |right.kids| == |right.keys| + 1
    ensures keys + [hi] + right.keys == (keys + [hi]) + [right.keys[0]] + right.keys[1..]
    ensures kids + right.kids == (kids + [right.kids[0]]) + right.kids[1..]
  {
  }

  lemma LendLast(keys: seq<nat>, kids: seq<Node>, left: Node, lo: nat)
    requires left.Internal? && |left.keys| > 0 && |left.kids| == |left.keys| + 1
    ensures
      var ln := |left.keys|;
      && left.keys + [lo] + keys == left.keys[..ln - 1] + [left.keys[ln - 1]] + ([lo] + keys)
      && left.kids + kids == left.kids[..ln] + ([left.kids[ln]] + kids)
  {
  }

  lemma RebalanceRightOk(n: Node, keys: seq<nat>, kids: seq<Node>, left: Option<Node>, right: Node,
                         lo: nat, hi: nat, llo: nat, rhi: nat, h: nat, was: Value)
    requires KidsOk(keys, kids, lo, hi, h) && lo < hi < rhi && |keys| + 1 == NMIN && Height(n) == h + 1
    requires left.Some? ==> left.value.Internal? && |left.value.kids| == |left.value.keys| + 1
    requires InternalSibling(right, hi, rhi, h)
    ensures ResultOk(n, Rebalance(keys, kids, left, Some(right), lo, hi, was), left, Some(right), lo, hi, llo, rhi)
  {
    if |right.keys| > NMIN {
      var ka, ca, kb, cb := keys + [hi], kids + [right.kids[0]], right.keys[1..], right.kids[1..];
      LendFirst(keys, kids, right, hi);
      RecutOk(keys, kids, hi, right.keys, right.kids, ka, ca, right.keys[0], kb, cb, lo, rhi, h);
      InternalOk(ka, ca, lo, right.keys[0], h);
      InternalOk(kb, cb, right.keys[0], rhi, h);
    } else {
      KidsJoin(keys, kids, hi, right.keys, right.kids, lo, rhi, h);
      InternalOk(keys + [hi] + right.keys, kids + right.kids, lo, rhi, h);
    }
  }

  lemma RebalanceLeftOk(n: Node, keys: seq<nat>, kids: seq<Node>, left: Node,
                        lo: nat, hi: nat, llo: nat, rhi: nat, h: nat, was: Value)
    requires KidsOk(keys, kids, lo, hi, h) && llo < lo < hi && |keys| + 1 == NMIN && Height(n) == h + 1
    requires InternalSibling(left, llo, lo, h)
    ensures ResultOk(n, Rebalance(keys, kids, Some(left), None, lo, hi, was), Some(left), None, lo, hi, llo, rhi)
  {
    var ln := |left.keys|;
    if ln > NMIN {
      var ka, ca, kb, cb := left.keys[..ln - 1], left.kids[..ln], [lo] + keys, [left.kids[ln]] + kids;
      LendLast(keys, kids, left, lo);
      RecutOk(left.keys, left.kids, lo, keys, kids, ka, ca, left.keys[ln - 1], kb, cb, llo, hi, h);
      InternalOk(ka, ca, llo, left.keys[ln - 1], h);
      InternalOk(kb, cb, left.keys[ln - 1], hi, h);
    } else {
      KidsJoin(left.keys, left.kids, lo, keys, kids, llo, hi, h);
      InternalOk(left.keys + [lo] + keys, left.kids + kids, llo, hi, h);
    }
  }

  ghost predicate InternalSibling(m: Node, lo: nat, hi: nat, h: nat) {
    m.Internal? && KidsOk(m.keys, m.kids, lo, hi, h) && NMIN <= |m.keys| <= NKEYS
  }

  /** Neighbours of an internal node, opened up. */
  ghost predicate InternalSiblings(left: Option<Node>, right: Option<Node>, lo: nat, hi: nat, llo: nat, rhi: nat,
                                   h: nat)
  {
    && (left.Some? ==> llo < lo && InternalSibling(left.value, llo, lo, h))
    && (right.Some? ==> hi < rhi && InternalSibling(right.value, hi, rhi, h))
  }

  lemma RebalanceOk(n: Node, keys: seq<nat>, kids: seq<Node>, left: Option<Node>, right: Option<Node>,
                    lo: nat, hi: nat, llo: nat, rhi: nat, h: nat, was: Value)
    requires KidsOk(keys, kids, lo, hi, h) && |keys| < NKEYS && lo < hi && Height(n) == h + 1
    requires InternalSiblings(left, right, lo, hi, llo, rhi, h)
    requires left.Some? || right.Some? ==> |keys| + 1 >= NMIN
    ensures ResultOk(n, Rebalance(keys, kids, left, right, lo, hi, was), left, right, lo, hi, llo, rhi)
  {
    if |keys| > 0 {
      InternalOk(keys, kids, lo, hi, h);
    }
    if |keys| + 1 <= NMIN {
      if right.Some? {
        RebalanceRightOk(n, keys, kids, left, right.value, lo, hi, llo, rhi, h, was);
      } else if left.Some? {
        RebalanceLeftOk(n, keys, kids, left.value, lo, hi, llo, rhi, h, was);
      }
    }
  }

  lemma JoinAscending(ka: seq<nat>, ca: seq<Node>, m: nat, kb: seq<nat>, cb: seq<Node>, lo: nat, hi: nat, h: nat)
    requires KidsOk(ka, ca, lo, m, h) && KidsOk(kb, cb, m, hi, h)
    ensures Ascending(ka + [m] + kb)
  {
  }

  ghost function By(g: Node -> Option<Value>, o: Option<Node>): Option<Value> {
    if o.Some? then g(o.value) else None
  }

  lemma RebalanceRightGet(keys: seq<nat>, kids: seq<Node>, left: Option<Node>, right: Node,
                          lo: nat, hi: nat, rhi: nat, h: nat, was: Value, g: Node -> Option<Value>, s: nat)
    requires KidsOk(keys, kids, lo, hi, h) && hi < rhi && InternalSibling(right, hi, rhi, h) && Routes(g, s)
    requires left.Some? ==> left.value.Internal? && |left.value.kids| == |left.value.keys| + 1
    ensures Agrees(Rebalance(keys, kids, left, Some(right), lo, hi, was), g, s, lo, hi,
                   By(g, left), g(Internal(keys, kids)), g(right))
  {
    JoinAscending(keys, kids, hi, right.keys, right.kids, lo, rhi, h);
    if |right.keys| > NMIN {
      LendFirst(keys, kids, right, hi);
      RecutGet(keys, kids, hi, right.keys, right.kids,
               keys + [hi], kids + [right.kids[0]], right.keys[0], right.keys[1..], right.kids[1..], g, s);
    } else {
      JoinGetBy(keys, kids, hi, right.keys, right.kids, g, s);
    }
  }

  lemma StealLastGet(keys: seq<nat>, kids: seq<Node>, left: Node, lo: nat, g: Node -> Option<Value>, s: nat)
    requires left.Internal? && |left.keys| > 0 && |left.kids| == |left.keys| + 1 && |kids| == |keys| + 1
    requires Ascending(left.keys + [lo] + keys) && Routes(g, s)
    ensures
      var ln := |left.keys|;
      Side(s, left.keys[ln - 1], g(Internal(left.keys[..ln - 1], left.kids[..ln])),
           g(Internal([lo] + keys, [left.kids[ln]] + kids))) == Side(s, lo, g(left), g(Internal(keys, kids)))
  {
    var ln := |left.keys|;
    LendLast(keys, kids, left, lo);
    RecutGet(left.keys, left.kids, lo, keys, kids,
             left.keys[..ln - 1], left.kids[..ln], left.keys[ln - 1], [lo] + keys, [left.kids[ln]] + kids, g, s);
  }

  lemma RebalanceLeftGet(keys: seq<nat>, kids: seq<Node>, left: Node,
                         lo: nat, hi: nat, llo: nat, h: nat, was: Value, g: Node -> Option<Value>, s: nat)
    requires KidsOk(keys, kids, lo, hi, h) && llo < lo && InternalSibling(left, llo, lo, h) && Routes(g, s)
    ensures Agrees(Rebalance(keys, kids, Some(left), None, lo, hi, was), g, s, lo, hi,
                   g(left), g(Internal(keys, kids)), None)
  {
    var ln := |left.keys|;
    JoinAscending(left.keys, left.kids, lo, keys, kids, llo, hi, h);
    if ln > NMIN {
      StealLastGet(keys, kids, left, lo, g, s);
    } else {
      JoinGetBy(left.keys, left.kids, lo, keys, kids, g, s);
    }
  }

  /** Rebalancing changes no lookup. */
  lemma RebalanceGet(keys: seq<nat>, kids: seq<Node>, left: Option<Node>, right: Option<Node>,
                     lo: nat, hi: nat, llo: nat, rhi: nat, h: nat, was: Value, g: Node -> Option<Value>, s: nat)
    requires KidsOk(keys, kids, lo, hi, h) && InternalSiblings(left, right, lo, hi, llo, rhi, h) && Routes(g, s)
    ensures Agrees(Rebalance(keys, kids, left, right, lo, hi, was), g, s, lo, hi,
                   By(g, left), g(Internal(keys, kids)), By(g, right))
  {
    if right.Some? {
      RebalanceRightGet(keys, kids, left, right.value, lo, hi, rhi, h, was, g, s);
    } else if left.Some? {
      RebalanceLeftGet(keys, kids, left.value, lo, hi, llo, h, was, g, s);
    }
  }

  lemma ShiftGet(keys: seq<nat>, kids: seq<Node>, j: nat, nk: nat, a: Node, b: Node, g: Node -> Option<Value>, s: nat)
    requires |kids| == |keys| + 1 && Ascending(keys) && j < |keys| && Routes(g, s)
    requires j > 0 ==> keys[j - 1] < nk
    requires j + 1 < |keys| ==> nk < keys[j + 1]
    ensures g(Internal(keys[j := nk], kids[j := a][j + 1 := b])) ==
            var i := ChildIdx(keys, s);
            if i == j || i == j + 1 then Side(s, nk, g(a), g(b)) else g(kids[i])
  {
    ChildIdxShift(keys, j, nk, s);
  }

  /** The same, told what each of the two children should hold. */
  lemma StealGet(keys: seq<nat>, kids: seq<Node>, j: nat, nk: nat, a: Node, b: Node, g: Node -> Option<Value>, s: nat,
                 ga: Option<Value>, gb: Option<Value>)
    requires |kids| == |keys| + 1 && Ascending(keys) && j < |keys| && Routes(g, s)
    requires j > 0 ==> keys[j - 1] < nk
    requires j + 1 < |keys| ==> nk < keys[j + 1]
    requires Side(s, nk, g(a), g(b)) == Side(s, keys[j], ga, gb)
    ensures g(Internal(keys[j := nk], kids[j := a][j + 1 := b])) ==
            var i := ChildIdx(keys, s);
            if i == j then ga else if i == j + 1 then gb else g(kids[i])
  {
    ShiftGet(keys, kids, j, nk, a, b, g, s);
  }

  lemma FuseGet(keys: seq<nat>, kids: seq<Node>, j: nat, m: Node, g: Node -> Option<Value>, s: nat,
                ga: Option<Value>, gb: Option<Value>)
    requires |kids| == |keys| + 1 && Ascending(keys) && j < |keys| && Routes(g, s)
    requires g(m) == Side(s, keys[j], ga, gb)
    ensures g(Internal(DropKey(keys, j), FuseKids(kids, j, m))) ==
            var i := ChildIdx(keys, s);
            if i == j then ga else if i == j + 1 then gb else g(kids[i])
  {
    var i, keys', kids' := ChildIdx(keys, s), DropKey(keys, j), FuseKids(kids, j, m);
    ChildIdxFuse(keys, j, s);
    assert g(Internal(keys', kids')) == g(kids'[if i <= j then i else i - 1]);
    assert i < j ==> kids'[i] == kids[i];
    assert i > j + 1 ==> kids'[i - 1] == kids[i];
  }

  /** What an internal node should hold after its child c has been removed from. */
  ghost function KidGet(n: Node, c: nat, gc: Option<Value>, g: Node -> Option<Value>, s: nat): Option<Value>
    requires n.Internal? && |n.kids| == |n.keys| + 1
  {
    var i := ChildIdx(n.keys, s);
    if i == c then gc else g(n.kids[i])
  }

  /** What Remove0 promises for child c of n. */
  ghost predicate KidRemoved(n: Node, c: nat, res: RemoveResult, lo: nat, hi: nat) {
    && n.Internal? && |n.kids| == |n.keys| + 1 && c < |n.kids|
    && Sided(res, LeftOf(n.kids, c), RightOf(n.kids, c))
    && ResultOk(n.kids[c], res, LeftOf(n.kids, c), RightOf(n.kids, c), Lo(n.keys, c, lo), Hi(n.keys, c, hi),
                LeftLo(n.keys, c, lo), RightHi(n.keys, c, hi))
  }

  lemma ShiftOk(keys: seq<nat>, kids: seq<Node>, j: nat, nk: nat, a: Node, b: Node, lo: nat, hi: nat, h: nat)
    requires 1 <= |keys| <= NKEYS && KidsOk(keys, kids, lo, hi, h) && j < |keys|
    requires Lo(keys, j, lo) < nk < Hi(keys, j + 1, hi)
    requires Good(a, Lo(keys, j, lo), nk, h) && Good(b, nk, Hi(keys, j + 1, hi), h)
    ensures
      var m := Internal(keys[j := nk], kids[j := a][j + 1 := b]);
      NodeOk(m, lo, hi) && Height(m) == h + 1
  {
    KidsShift(keys, kids, j, nk, a, b, lo, hi, h);
    InternalOk(keys[j := nk], kids[j := a][j + 1 := b], lo, hi, h);
  }

  lemma FuseOk(n: Node, j: nat, m: Node, was: Value, left: Option<Node>, right: Option<Node>,
               lo: nat, hi: nat, llo: nat, rhi: nat, h: nat)
    requires n.Internal? && 1 <= |n.keys| <= NKEYS && KidsOk(n.keys, n.kids, lo, hi, h) && lo < hi && Height(n) == h + 1
    requires j < |n.keys| && Good(m, Lo(n.keys, j, lo), Hi(n.keys, j + 1, hi), h)
    requires InternalSiblings(left, right, lo, hi, llo, rhi, h)
    requires left.Some? || right.Some? ==> |n.keys| >= NMIN
    ensures ResultOk(n, Rebalance(DropKey(n.keys, j), FuseKids(n.kids, j, m), left, right, lo, hi, was),
                     left, right, lo, hi, llo, rhi)
  {
    KidsFuse(n.keys, n.kids, j, m, lo, hi, h);
    RebalanceOk(n, DropKey(n.keys, j), FuseKids(n.kids, j, m), left, right, lo, hi, llo, rhi, h, was);
  }

  lemma ShrinkOk(n: Node, c: nat, res: RemoveResult, left: Option<Node>, right: Option<Node>,
                 lo: nat, hi: nat, llo: nat, rhi: nat, h: nat)
    requires n.Internal? && 1 <= |n.keys| <= NKEYS && KidsOk(n.keys, n.kids, lo, hi, h) && lo < hi && Height(n) == h + 1
    requires KidRemoved(n, c, res, lo, hi)
    requires InternalSiblings(left, right, lo, hi, llo, rhi, h)
    requires left.Some? || right.Some? ==> |n.keys| >= NMIN
    ensures ResultOk(n, Shrink(n, c, res, left, right, lo, hi), left, right, lo, hi, llo, rhi)
  {
    match res
    case NotFound =>
    case Removed(m, _) =>
      KidsReplace(n.keys, n.kids, c, m, lo, hi, h);
      InternalOk(n.keys, n.kids[c := m], lo, hi, h);
    case StoleLeft(l, nk, m, _) => ShiftOk(n.keys, n.kids, c - 1, nk, l, m, lo, hi, h);
    case StoleRight(m, nk, r, _) => ShiftOk(n.keys, n.kids, c, nk, m, r, lo, hi, h);
    case MergedLeft(_, _) => ShrinkMergedOk(n, c, res, left, right, lo, hi, llo, rhi, h);
    case MergedRight(_, _) => ShrinkMergedOk(n, c, res, left, right, lo, hi, llo, rhi, h);
  }

  lemma ShrinkMergedOk(n: Node, c: nat, res: RemoveResult, left: Option<Node>, right: Option<Node>,
                       lo: nat, hi: nat, llo: nat, rhi: nat, h: nat)
    requires n.Internal? && 1 <= |n.keys| <= NKEYS && KidsOk(n.keys, n.kids, lo, hi, h) && lo < hi && Height(n) == h + 1
    requires KidRemoved(n, c, res, lo, hi) && (res.MergedLeft? || res.MergedRight?)
    requires InternalSiblings(left, right, lo, hi, llo, rhi, h)
    requires left.Some? || right.Some? ==> |n.keys| >= NMIN
    ensures ResultOk(n, Shrink(n, c, res, left, right, lo, hi), left, right, lo, hi, llo, rhi)
  {
    match res
    case MergedLeft(l, was) => FuseOk(n, c - 1, l, was, left, right, lo, hi, llo, rhi, h);
    case MergedRight(m, was) => FuseOk(n, c, m, was, left, right, lo, hi, llo, rhi, h);
  }

  lemma FuseAgrees(n: Node, j: nat, m: Node, was: Value, left: Option<Node>, right: Option<Node>,
                   lo: nat, hi: nat, llo: nat, rhi: nat, h: nat, g: Node -> Option<Value>, s: nat,
                   ga: Option<Value>, gb: Option<Value>)
    requires n.Internal? && KidsOk(n.keys, n.kids, lo, hi, h) && Routes(g, s)
    requires j < |n.keys| && g(m) == Side(s, n.keys[j], ga, gb)
    requires j < |n.keys| && Good(m, Lo(n.keys, j, lo), Hi(n.keys, j + 1, hi), h)
    requires InternalSiblings(left, right, lo, hi, llo, rhi, h)
    ensures
      var i := ChildIdx(n.keys, s);
      Agrees(Rebalance(DropKey(n.keys, j), FuseKids(n.kids, j, m), left, right, lo, hi, was), g, s, lo, hi,
             By(g, left), if i == j then ga else if i == j + 1 then gb else g(n.kids[i]), By(g, right))
  {
    KidsFuse(n.keys, n.kids, j, m, lo, hi, h);
    FuseGet(n.keys, n.kids, j, m, g, s, ga, gb);
    RebalanceGet(DropKey(n.keys, j), FuseKids(n.kids, j, m), left, right, lo, hi, llo, rhi, h, was, g, s);
  }

  lemma ShrinkGet(n: Node, c: nat, res: RemoveResult, left: Option<Node>, right: Option<Node>,
                  lo: nat, hi: nat, llo: nat, rhi: nat, h: nat, g: Node -> Option<Value>, s: nat, gc: Option<Value>)
    requires n.Internal? && 1 <= |n.keys| <= NKEYS && KidsOk(n.keys, n.kids, lo, hi, h)
    requires KidRemoved(n, c, res, lo, hi) && InternalSiblings(left, right, lo, hi, llo, rhi, h) && Routes(g, s)
    requires Agrees(res, g, s, Lo(n.keys, c, lo), Hi(n.keys, c, hi), By(g, LeftOf(n.kids, c)), gc,
        By(g, RightOf(n.kids, c)))
    ensures Agrees(Shrink(n, c, res, left, right, lo, hi), g, s, lo, hi, By(g, left), KidGet(n, c, gc, g, s),
        By(g, right))
  {
    match res
    case NotFound =>
    case Removed(m, _) =>
      assert g(Internal(n.keys, n.kids[c := m])) == g(Child(n.keys, n.kids[c := m], s));
    case StoleLeft(l, nk, m, was) => StoleLeftGet(n, c, l, nk, m, was, left, right, lo, hi, g, s, gc);
    case StoleRight(m, nk, r, was) => StoleRightGet(n, c, m, nk, r, was, left, right, lo, hi, g, s, gc);
    case MergedLeft(l, was) => MergedLeftGet(n, c, l, was, left, right, lo, hi, llo, rhi, h, g, s, gc);
    case MergedRight(m, was) => MergedRightGet(n, c, m, was, left, right, lo, hi, llo, rhi, h, g, s, gc);
  }

  ghost predicate InternalSides(left: Option<Node>, right: Option<Node>) {
    && (left.Some? ==> left.value.Internal? && |left.value.kids| == |left.value.keys| + 1)
    && (right.Some? ==> right.value.Internal? && |right.value.kids| == |right.value.keys| + 1)
  }

  lemma StoleLeftGet(n: Node, c: nat, l: Node, nk: nat, m: Node, was: Value, left: Option<Node>, right: Option<Node>,
                     lo: nat, hi: nat, g: Node -> Option<Value>, s: nat, gc: Option<Value>)
    requires n.Internal? && |n.kids| == |n.keys| + 1 && Ascending(n.keys) && Routes(g, s) && InternalSides(left, right)
    requires 0 < c <= |n.keys| && Lo(n.keys, c - 1, lo) < nk < Hi(n.keys, c, hi)
    requires Side(s, nk, g(l), g(m)) == Side(s, n.keys[c - 1], g(n.kids[c - 1]), gc)
    ensures Agrees(Shrink(n, c, StoleLeft(l, nk, m, was), left, right, lo, hi), g, s, lo, hi, By(g, left),
                   KidGet(n, c, gc, g, s), By(g, right))
  {
    StealGet(n.keys, n.kids, c - 1, nk, l, m, g, s, g(n.kids[c - 1]), gc);
  }

  lemma StoleRightGet(n: Node, c: nat, m: Node, nk: nat, r: Node, was: Value, left: Option<Node>, right: Option<Node>,
                      lo: nat, hi: nat, g: Node -> Option<Value>, s: nat, gc: Option<Value>)
    requires n.Internal? && |n.kids| == |n.keys| + 1 && Ascending(n.keys) && Routes(g, s) && InternalSides(left, right)
    requires c < |n.keys| && Lo(n.keys, c, lo) < nk < Hi(n.keys, c + 1, hi)
    requires Side(s, nk, g(m), g(r)) == Side(s, n.keys[c], gc, g(n.kids[c + 1]))
    ensures Agrees(Shrink(n, c, StoleRight(m, nk, r, was), left, right, lo, hi), g, s, lo, hi, By(g, left),
                   KidGet(n, c, gc, g, s), By(g, right))
  {
    StealGet(n.keys, n.kids, c, nk, m, r, g, s, gc, g(n.kids[c + 1]));
  }

  lemma MergedLeftGet(n: Node, c: nat, l: Node, was: Value, left: Option<Node>, right: Option<Node>,
                      lo: nat, hi: nat, llo: nat, rhi: nat, h: nat, g: Node -> Option<Value>, s: nat, gc: Option<Value>)
    requires n.Internal? && 1 <= |n.keys| && KidsOk(n.keys, n.kids, lo, hi, h) && Routes(g, s)
    requires InternalSiblings(left, right, lo, hi, llo, rhi, h)
    requires 0 < c <= |n.keys| && Good(l, Lo(n.keys, c - 1, lo), Hi(n.keys, c, hi), h)
    requires g(l) == Side(s, n.keys[c - 1], g(n.kids[c - 1]), gc)
    ensures Agrees(Shrink(n, c, MergedLeft(l, was), left, right, lo, hi), g, s, lo, hi, By(g, left),
                   KidGet(n, c, gc, g, s), By(g, right))
  {
    FuseAgrees(n, c - 1, l, was, left, right, lo, hi, llo, rhi, h, g, s, g(n.kids[c - 1]), gc);
  }

  lemma MergedRightGet(n: Node, c: nat, m: Node, was: Value, left: Option<Node>, right: Option<Node>,
                       lo: nat, hi: nat, llo: nat, rhi: nat, h: nat, g: Node -> Option<Value>, s: nat,
                       gc: Option<Value>)
    requires n.Internal? && 1 <= |n.keys| && KidsOk(n.keys, n.kids, lo, hi, h) && Routes(g, s)
    requires InternalSiblings(left, right, lo, hi, llo, rhi, h)
    requires c < |n.keys| && Good(m, Lo(n.keys, c, lo), Hi(n.keys, c + 1, hi), h)
    requires g(m) == Side(s, n.keys[c], gc, g(n.kids[c + 1]))
    ensures Agrees(Shrink(n, c, MergedRight(m, was), left, right, lo, hi), g, s, lo, hi, By(g, left),
                   KidGet(n, c, gc, g, s), By(g, right))
  {
    FuseAgrees(n, c, m, was, left, right, lo, hi, llo, rhi, h, g, s, gc, g(n.kids[c + 1]));
  }

  // ---- the whole descent ----

  lemma LeafSiblings(n: Node, left: Option<Node>, right: Option<Node>, lo: nat, hi: nat, llo: nat, rhi: nat)
    requires n.Leaf? && SiblingsOk(n, left, right, lo, hi, llo, rhi)
    ensures left.Some? ==> LeafSibling(left.value, llo, lo)
    ensures right.Some? ==> LeafSibling(right.value, hi, rhi)
  {
  }

  lemma OpenSiblings(n: Node, left: Option<Node>, right: Option<Node>, lo: nat, hi: nat, llo: nat, rhi: nat)
    requires n.Internal? && NodeOk(n, lo, hi) && SiblingsOk(n, left, right, lo, hi, llo, rhi)
    ensures InternalSiblings(left, right, lo, hi, llo, rhi, Height(n.kids[0]))
  {
  }

  /** The leaf after the layer below slot i has been removed from. */
  function LayerResult(n: Node, i: nat, res: RemoveResult): RemoveResult
    requires n.Leaf? && i < |n.slots|
  {
    match res
    case Removed(m, was) => Removed(SetSlot(n, i, n.slots[i].(vn := Layer(m))), was)
    case Replaced(m, was) => Removed(SetSlot(n, i, n.slots[i].(vn := Layer(m))), was)
    case _ => NotFound
  }

  lemma LayerOk(n: Node, i: nat, res: RemoveResult, left: Option<Node>, right: Option<Node>,
                lo: nat, hi: nat, llo: nat, rhi: nat)
    requires n.Leaf? && NodeOk(n, lo, hi) && SiblingsOk(n, left, right, lo, hi, llo, rhi)
    requires i < |n.slots| && SlotOk(n.slots[i]) && n.slots[i].vn.Layer?
    requires ResultOk(n.slots[i].vn.root, res, None, None, 0, SLICE_LIMIT, 0, 0)
    ensures ResultOk(n, LayerResult(n, i, res), left, right, lo, hi, llo, rhi)
  {
    if res.Removed? || res.Replaced? {
      LayerSlotOk(n.slots[i], res.node);
      SetSlotOk(n, i, n.slots[i].(vn := Layer(res.node)), lo, hi);
    }
  }

  lemma LayerRefines(n: Node, i: nat, k: Key, res: RemoveResult, left: Option<Node>, right: Option<Node>,
                     lo: nat, hi: nat, k': Key)
    requires n.Leaf? && NodeOk(n, lo, hi) && i < |n.slots| && Matches(n.slots[i], k)
    requires |k| > 8 && SlotOk(n.slots[i]) && n.slots[i].vn.Layer?
    requires ResultOk(n.slots[i].vn.root, res, None, None, 0, SLICE_LIMIT, 0, 0)
    requires Refines(n.slots[i].vn.root, res, Shift(k), None, None, 0, SLICE_LIMIT,
                     if KeyRank(k') == KeyRank(k) && |k'| > 8 then Shift(k') else Shift(k))
    ensures Refines(n, LayerResult(n, i, res), k, left, right, lo, hi, k')
  {
    var x := n.slots[i];
    GetAfterSetSlot(n, i, x, lo, hi, k);
    if KeyRank(k') == KeyRank(k) {
      RankDecidesPrefix(k, k');
    }
    if res.Removed? || res.Replaced? {
      LayerSlotOk(x, res.node);
      GetAfterSetSlot(n, i, x.(vn := Layer(res.node)), lo, hi, k');
    }
  }

  lemma MissRefines(n: Node, k: Key, left: Option<Node>, right: Option<Node>, lo: nat, hi: nat, k': Key)
    requires Get(n, k).None?
    ensures Refines(n, NotFound, k, left, right, lo, hi, k')
  {
  }

  /** Every steal, merge and root replacement keeps the tree invariant. */
  lemma {:induction false} RemovePreserves(n: Node, k: Key, left: Option<Node>, right: Option<Node>,
                                           lo: nat, hi: nat, llo: nat, rhi: nat)
    requires NodeOk(n, lo, hi) && lo <= Slice(k) < hi && SiblingsOk(n, left, right, lo, hi, llo, rhi)
    ensures ResultOk(n, Remove0(n, k, left, right, lo, hi, llo, rhi), left, right, lo, hi, llo, rhi)
    decreases |k|, n
  {
    match n
    case Leaf(_, slots) =>
      var p := Pos(slots, KeyRank(k));
      if p > 0 && Matches(slots[p - 1], k) {
        LeafPreserves(n, p - 1, k, left, right, lo, hi, llo, rhi);
      }
    case Internal(keys, kids) =>
      var c, h := ChildIdx(keys, Slice(k)), Height(kids[0]);
      assert KidsOk(keys, kids, lo, hi, h);
      OpenSiblings(n, left, right, lo, hi, llo, rhi);
      RemovePreserves(kids[c], k, LeftOf(kids, c), RightOf(kids, c), Lo(keys, c, lo), Hi(keys, c, hi),
                      LeftLo(keys, c, lo), RightHi(keys, c, hi));
      ShrinkOk(n, c, Remove0(kids[c], k, LeftOf(kids, c), RightOf(kids, c), Lo(keys, c, lo), Hi(keys, c, hi),
                             LeftLo(keys, c, lo), RightHi(keys, c, hi)), left, right, lo, hi, llo, rhi, h);
  }

  lemma {:induction false} LeafPreserves(n: Node, i: nat, k: Key, left: Option<Node>, right: Option<Node>,
                                         lo: nat, hi: nat, llo: nat, rhi: nat)
    requires n.Leaf? && NodeOk(n, lo, hi) && lo <= Slice(k) < hi && SiblingsOk(n, left, right, lo, hi, llo, rhi)
    requires i < |n.slots| && Matches(n.slots[i], k) && Pos(n.slots, KeyRank(k)) == i + 1
    ensures ResultOk(n, Remove0(n, k, left, right, lo, hi, llo, rhi), left, right, lo, hi, llo, rhi)
    decreases |k|, n, 0
  {
    var x := n.slots[i];
    assert SlotsOk(n.slots, lo, hi) && SlotOk(x);
    LeafSiblings(n, left, right, lo, hi, llo, rhi);
    match x.vn
    case Layer(root) =>
      RemovePreserves(root, Shift(k), None, None, 0, SLICE_LIMIT, 0, 0);
      LayerOk(n, i, Remove0(root, Shift(k), None, None, 0, SLICE_LIMIT, 0, 0), left, right, lo, hi, llo, rhi);
    case Val(v) =>
      if !(|k| > 8 && x.suffix != Shift(k)) {
        AfterRemove(n.slots, i, lo, hi, 0);
        LeafRemoveOk(n, i, left, right, v, lo, hi, llo, rhi);
      }
  }

  /** `remove0` refines map deletion, at every key k'. */
  lemma {:induction false} RemoveRefines(n: Node, k: Key, left: Option<Node>, right: Option<Node>,
                                         lo: nat, hi: nat, llo: nat, rhi: nat, k': Key)
    requires NodeOk(n, lo, hi) && lo <= Slice(k) < hi && SiblingsOk(n, left, right, lo, hi, llo, rhi)
    ensures Refines(n, Remove0(n, k, left, right, lo, hi, llo, rhi), k, left, right, lo, hi, k')
    decreases |k|, n
  {
    match n
    case Leaf(_, slots) =>
      var p := Pos(slots, KeyRank(k));
      if p > 0 && Matches(slots[p - 1], k) {
        LeafRefines(n, p - 1, k, left, right, lo, hi, llo, rhi, k');
      } else {
        LeafNodeGet(n.minKey, slots, k);
      }
    case Internal(_, _) => KidRefines(n, k, left, right, lo, hi, llo, rhi, k');
  }

  lemma {:induction false} KidRefines(n: Node, k: Key, left: Option<Node>, right: Option<Node>,
                                      lo: nat, hi: nat, llo: nat, rhi: nat, k': Key)
    requires n.Internal? && NodeOk(n, lo, hi) && lo <= Slice(k) < hi && SiblingsOk(n, left, right, lo, hi, llo, rhi)
    ensures Refines(n, Remove0(n, k, left, right, lo, hi, llo, rhi), k, left, right, lo, hi, k')
    decreases |k|, n, 0
  {
    var keys, kids := n.keys, n.kids;
    var c := ChildIdx(keys, Slice(k));
    assert KidsOk(keys, kids, lo, hi, Height(kids[0]));
    OpenSiblings(n, left, right, lo, hi, llo, rhi);
    RemovePreserves(kids[c], k, LeftOf(kids, c), RightOf(kids, c), Lo(keys, c, lo), Hi(keys, c, hi),
                    LeftLo(keys, c, lo), RightHi(keys, c, hi));
    RemoveRefines(kids[c], k, LeftOf(kids, c), RightOf(kids, c), Lo(keys, c, lo), Hi(keys, c, hi),
                  LeftLo(keys, c, lo), RightHi(keys, c, hi), k');
    InternalRefines(n, c, k, Remove0(kids[c], k, LeftOf(kids, c), RightOf(kids, c), Lo(keys, c, lo), Hi(keys, c, hi),
                                     LeftLo(keys, c, lo), RightHi(keys, c, hi)), left, right, lo, hi, llo, rhi, k');
  }

  lemma InternalRefines(n: Node, c: nat, k: Key, res: RemoveResult, left: Option<Node>, right: Option<Node>,
                        lo: nat, hi: nat, llo: nat, rhi: nat, k': Key)
    requires n.Internal? && 1 <= |n.keys| <= NKEYS && |n.kids| == |n.keys| + 1
    requires KidsOk(n.keys, n.kids, lo, hi, Height(n.kids[0]))
    requires c == ChildIdx(n.keys, Slice(k)) && KidRemoved(n, c, res, lo, hi)
    requires InternalSiblings(left, right, lo, hi, llo, rhi, Height(n.kids[0]))
    requires Refines(n.kids[c], res, k, LeftOf(n.kids, c), RightOf(n.kids, c), Lo(n.keys, c, lo), Hi(n.keys, c, hi), k')
    ensures Refines(n, Shrink(n, c, res, left, right, lo, hi), k, left, right, lo, hi, k')
  {
    LookRoutes(k');
    ShrinkGet(n, c, res, left, right, lo, hi, llo, rhi, Height(n.kids[0]), Look(k'), Slice(k'),
      Minus(n.kids[c], k, k'));
    assert Get(n, k) == Get(n.kids[c], k);
    assert Get(n, k') == Get(n.kids[ChildIdx(n.keys, Slice(k'))], k');
  }

  lemma {:induction false} LeafRefines(n: Node, i: nat, k: Key, left: Option<Node>, right: Option<Node>,
                                       lo: nat, hi: nat, llo: nat, rhi: nat, k': Key)
    requires n.Leaf? && NodeOk(n, lo, hi) && lo <= Slice(k) < hi && SiblingsOk(n, left, right, lo, hi, llo, rhi)
    requires i < |n.slots| && Matches(n.slots[i], k) && Pos(n.slots, KeyRank(k)) == i + 1
    ensures Refines(n, Remove0(n, k, left, right, lo, hi, llo, rhi), k, left, right, lo, hi, k')
    decreases |k|, n, 0
  {
    var x := n.slots[i];
    assert SlotsOk(n.slots, lo, hi) && SlotOk(x);
    match x.vn
    case Layer(root) =>
      var l := Shift(k);
      RemovePreserves(root, l, None, None, 0, SLICE_LIMIT, 0, 0);
      RemoveRefines(root, l, None, None, 0, SLICE_LIMIT, 0, 0,
                    if KeyRank(k') == KeyRank(k) && |k'| > 8 then Shift(k') else l);
      LayerRefines(n, i, k, Remove0(root, l, None, None, 0, SLICE_LIMIT, 0, 0), left, right, lo, hi, k');
    case Val(v) =>
      if |k| > 8 && x.suffix != Shift(k) {
        GetAfterSetSlot(n, i, x, lo, hi, k);
        MissRefines(n, k, left, right, lo, hi, k');
      } else {
        LeafSiblings(n, left, right, lo, hi, llo, rhi);
        LeafRemoveRefines(n, i, k, left, right, lo, hi, llo, rhi, k');
      }
  }
}
