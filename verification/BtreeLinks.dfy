/** The leaves of a layer from left to right, and the `prev_`/`next_` links between them
    (bench/servers/silo/btree_impl.h): inserts and removes change the sequence of leaves by one local
    splice, which is what the pointer adjustments do to the list. */
module BtreeLinks {
  import opened Options
  import opened Varkey
  import opened BtreeModel
  import opened BtreeLeaf
  import opened BtreeKids
  import I = BtreeInsert
  import R = BtreeRemove

  function Leaves(n: Node): seq<Node>
    decreases n
  {
    match n
    case Leaf(_, _) => [n]
    case Internal(_, kids) => LeavesOf(kids)
  }

  function LeavesOf(kids: seq<Node>): seq<Node>
    decreases kids, |kids| + 1
  {
    FirstLeaves(kids, |kids|)
  }

  /** The leaves of the first j children. */
  function FirstLeaves(kids: seq<Node>, j: nat): seq<Node>
    requires j <= |kids|
    decreases kids, j
  {
    if j == 0 then [] else FirstLeaves(kids, j - 1) + Leaves(kids[j - 1])
  }

  lemma {:induction false} FirstLeavesPrefix(a: seq<Node>, b: seq<Node>, j: nat)
    requires j <= |a|
    ensures FirstLeaves(a + b, j) == FirstLeaves(a, j)
  {
    if j > 0 {
      FirstLeavesPrefix(a, b, j - 1);
    }
  }

  lemma {:induction false} FirstLeavesAppend(a: seq<Node>, b: seq<Node>, j: nat)
    requires j <= |b|
    ensures FirstLeaves(a + b, |a| + j) == FirstLeaves(a, |a|) + FirstLeaves(b, j)
  {
    if j == 0 {
      FirstLeavesPrefix(a, b, |a|);
    } else {
      FirstLeavesAppend(a, b, j - 1);
      assert (a + b)[|a| + j - 1] == b[j - 1];
    }
  }

  lemma LeavesAppend(a: seq<Node>, b: seq<Node>)
    ensures LeavesOf(a + b) == LeavesOf(a) + LeavesOf(b)
  {
    FirstLeavesAppend(a, b, |b|);
  }

  lemma LeavesOne(n: Node)
    ensures LeavesOf([n]) == Leaves(n)
  {
    assert FirstLeaves([n], 0) == [];
  }

  lemma Regroup<T>(a: seq<T>, b: seq<T>, c: seq<T>)
    ensures a + b + c == a + (b + c)
  {
  }

  lemma LeavesAppend3(a: seq<Node>, b: seq<Node>, c: seq<Node>)
    ensures LeavesOf(a + b + c) == LeavesOf(a) + LeavesOf(b) + LeavesOf(c)
  {
    LeavesAppend(a + b, c);
    LeavesAppend(a, b);
  }

  lemma Around<T>(s: seq<T>, i: nat, j: nat)
    requires i <= j <= |s|
    ensures s == s[..i] + s[i..j] + s[j..]
  {
  }

  /** The leaves around child c. */
  lemma LeavesAround(kids: seq<Node>, c: nat)
    requires c < |kids|
    ensures LeavesOf(kids) == LeavesOf(kids[..c]) + Leaves(kids[c]) + LeavesOf(kids[c + 1..])
  {
    Around(kids, c, c + 1);
    assert kids[c..c + 1] == [kids[c]];
    LeavesAppend3(kids[..c], [kids[c]], kids[c + 1..]);
    LeavesOne(kids[c]);
  }

  // ---- ranges ----

  /** Each leaf is responsible for the slices from its min_key up to the next leaf's. */
  ghost predicate Ranges(s: seq<Node>, lo: nat, hi: nat) {
    && s != [] && (forall i :: 0 <= i < |s| ==> s[i].Leaf?) && s[0].minKey == lo
    && (forall i :: 0 <= i < |s| ==> NodeOk(s[i], s[i].minKey, UpTo(s, i, hi)) && s[i].minKey < UpTo(s, i, hi))
  }

  function UpTo(s: seq<Node>, i: nat, hi: nat): nat
    requires i < |s| && forall j :: 0 <= j < |s| ==> s[j].Leaf?
  {
    if i + 1 < |s| then s[i + 1].minKey else hi
  }

  lemma RangesAppend(a: seq<Node>, b: seq<Node>, lo: nat, m: nat, hi: nat)
    requires Ranges(a, lo, m) && Ranges(b, m, hi)
    ensures Ranges(a + b, lo, hi)
  {
    var s := a + b;
    forall i | 0 <= i < |s| ensures NodeOk(s[i], s[i].minKey, UpTo(s, i, hi)) && s[i].minKey < UpTo(s, i, hi) {
      if i < |a| {
        assert UpTo(s, i, hi) == UpTo(a, i, m);
      } else {
        assert UpTo(s, i, hi) == UpTo(b, i - |a|, hi);
      }
    }
  }

  lemma {:induction false} LeafRanges(n: Node, lo: nat, hi: nat)
    requires NodeOk(n, lo, hi) && lo < hi
    ensures Ranges(Leaves(n), lo, hi)
    decreases n
  {
    match n
    case Leaf(_, _) =>
    case Internal(keys, kids) =>
      assert KidsOk(keys, kids, lo, hi, Height(kids[0]));
      KidRanges(keys, kids, lo, hi, Height(kids[0]), |kids|);
  }

  lemma FirstChild(kids: seq<Node>)
    requires kids != []
    ensures FirstLeaves(kids, 1) == Leaves(kids[0])
  {
    assert FirstLeaves(kids, 0) == [];
  }

  lemma {:induction false} KidRanges(keys: seq<nat>, kids: seq<Node>, lo: nat, hi: nat, h: nat, j: nat)
    requires KidsOk(keys, kids, lo, hi, h) && lo < hi && 1 <= j <= |kids|
    ensures Ranges(FirstLeaves(kids, j), lo, Hi(keys, j - 1, hi))
    decreases kids, 0, j
  {
    var c := j - 1;
    assert NodeOk(kids[c], Lo(keys, c, lo), Hi(keys, c, hi));
    LeafRanges(kids[c], Lo(keys, c, lo), Hi(keys, c, hi));
    if c > 0 {
      KidRanges(keys, kids, lo, hi, h, c);
      RangesAppend(FirstLeaves(kids, c), Leaves(kids[c]), lo, Lo(keys, c, lo), Hi(keys, c, hi));
    } else {
      FirstChild(kids);
    }
  }

  /** The leaf that a descent for slice s ends in. */
  function RespIdx(n: Node, s: nat): nat {
    match n
    case Leaf(_, _) => 0
    case Internal(keys, kids) =>
      var c := ChildIdx(keys, s);
      if c < |kids| then |LeavesOf(kids[..c])| + RespIdx(kids[c], s) else 0
  }

  ghost predicate Responsible(all: seq<Node>, i: nat, hi: nat, s: nat) {
    i < |all| && (forall j :: 0 <= j < |all| ==> all[j].Leaf?) && all[i].minKey <= s < UpTo(all, i, hi)
  }

  /** The leaf a descent ends in is responsible for the key: neither of the sideways moves of
      search_impl and FindRespLeafNode applies. */
  lemma {:induction false} RespLeafStays(n: Node, lo: nat, hi: nat, s: nat)
    requires NodeOk(n, lo, hi) && lo <= s < hi
    ensures Responsible(Leaves(n), RespIdx(n, s), hi, s)
    decreases n
  {
    match n
    case Leaf(_, _) =>
    case Internal(keys, kids) =>
      assert KidsOk(keys, kids, lo, hi, Height(kids[0]));
      var c := ChildIdx(keys, s);
      RespLeafStays(kids[c], Lo(keys, c, lo), Hi(keys, c, hi), s);
      LeafRanges(n, lo, hi);
      InChild(keys, kids, lo, hi, Height(kids[0]), c, RespIdx(kids[c], s), s);
  }

  /** The leaf a descent for slice s ends in, without its place. */
  function Descend(n: Node, s: nat): Node {
    if n.Leaf? || ChildIdx(n.keys, s) >= |n.kids| then n else Descend(n.kids[ChildIdx(n.keys, s)], s)
  }

  lemma {:induction false} DescendGet(n: Node, k: Key)
    ensures Get(n, k) == Get(Descend(n, Slice(k)), k)
  {
    if n.Internal? && ChildIdx(n.keys, Slice(k)) < |n.kids| {
      DescendGet(n.kids[ChildIdx(n.keys, Slice(k))], k);
    }
  }

  lemma {:induction false} DescendIdx(n: Node, lo: nat, hi: nat, s: nat)
    requires NodeOk(n, lo, hi) && lo <= s < hi
    ensures RespIdx(n, s) < |Leaves(n)| && Leaves(n)[RespIdx(n, s)] == Descend(n, s)
    decreases n
  {
    match n
    case Leaf(_, _) =>
    case Internal(keys, kids) =>
      assert KidsOk(keys, kids, lo, hi, Height(kids[0]));
      var c := ChildIdx(keys, s);
      DescendIdx(kids[c], Lo(keys, c, lo), Hi(keys, c, hi), s);
      LeafOfChild(kids, c, RespIdx(kids[c], s));
  }

  /** The responsible leaf alone decides a lookup. */
  lemma RespLeafDecides(n: Node, lo: nat, hi: nat, k: Key)
    requires NodeOk(n, lo, hi) && lo <= Slice(k) < hi
    ensures RespIdx(n, Slice(k)) < |Leaves(n)| && Get(n, k) == Get(Leaves(n)[RespIdx(n, Slice(k))], k)
  {
    DescendIdx(n, lo, hi, Slice(k));
    DescendGet(n, k);
  }

  lemma LeafOfChild(kids: seq<Node>, c: nat, j: nat)
    requires c < |kids| && j < |Leaves(kids[c])|
    ensures |LeavesOf(kids[..c])| + j < |LeavesOf(kids)|
    ensures LeavesOf(kids)[|LeavesOf(kids[..c])| + j] == Leaves(kids[c])[j]
  {
    LeavesAround(kids, c);
  }

  lemma InChild(keys: seq<nat>, kids: seq<Node>, lo: nat, hi: nat, h: nat, c: nat, j: nat, s: nat)
    requires KidsOk(keys, kids, lo, hi, h) && lo < hi && c < |kids|
    requires Responsible(Leaves(kids[c]), j, Hi(keys, c, hi), s) && Ranges(LeavesOf(kids), lo, hi)
    ensures Responsible(LeavesOf(kids), |LeavesOf(kids[..c])| + j, hi, s)
    ensures LeavesOf(kids)[|LeavesOf(kids[..c])| + j] == Leaves(kids[c])[j]
  {
    NextLeaf(keys, kids, lo, hi, h, c, j);
  }

  /** Leaf j of child c among all leaves, and where its range ends. */
  lemma NextLeaf(keys: seq<nat>, kids: seq<Node>, lo: nat, hi: nat, h: nat, c: nat, j: nat)
    requires KidsOk(keys, kids, lo, hi, h) && lo < hi && c < |kids| && j < |Leaves(kids[c])|
    requires Ranges(LeavesOf(kids), lo, hi)
    ensures
      var i := |LeavesOf(kids[..c])| + j;
      && i < |LeavesOf(kids)| && LeavesOf(kids)[i] == Leaves(kids[c])[j]
      && (forall q :: 0 <= q < |Leaves(kids[c])| ==> Leaves(kids[c])[q].Leaf?)
      && UpTo(LeavesOf(kids), i, hi) == UpTo(Leaves(kids[c]), j, Hi(keys, c, hi))
  {
    LeavesAround(kids, c);
    LeafRanges(kids[c], Lo(keys, c, lo), Hi(keys, c, hi));
    AfterChild(keys, kids, lo, hi, h, c);
    UpToMiddle(LeavesOf(kids[..c]), Leaves(kids[c]), LeavesOf(kids[c + 1..]), j, Hi(keys, c, hi), hi);
  }

  /** The leaves right of child c start where it ends. */
  lemma AfterChild(keys: seq<nat>, kids: seq<Node>, lo: nat, hi: nat, h: nat, c: nat)
    requires KidsOk(keys, kids, lo, hi, h) && lo < hi && c < |kids|
    ensures c + 1 < |kids| ==> Ranges(LeavesOf(kids[c + 1..]), Hi(keys, c, hi), hi)
    ensures c + 1 == |kids| ==> LeavesOf(kids[c + 1..]) == [] && Hi(keys, c, hi) == hi
  {
    if c + 1 < |kids| {
      var tail := kids[c + 1..];
      KidsCut(keys, kids, c, lo, hi, h);
      KidRanges(keys[c + 1..], tail, keys[c], hi, h, |tail|);
    }
  }

  lemma UpToMiddle(a: seq<Node>, b: seq<Node>, c: seq<Node>, j: nat, m: nat, hi: nat)
    requires j < |b| && forall i :: 0 <= i < |a + b + c| ==> (a + b + c)[i].Leaf?
    requires c == [] ==> m == hi
    requires c != [] ==> c[0].Leaf? && c[0].minKey == m
    ensures (a + b + c)[|a| + j] == b[j]
    ensures forall i :: 0 <= i < |b| ==> b[i].Leaf?
    ensures UpTo(a + b + c, |a| + j, hi) == UpTo(b, j, m)
  {
    forall i | 0 <= i < |b| ensures b[i].Leaf? {
      assert (a + b + c)[|a| + i] == b[i];
    }
    if j + 1 < |b| {
      assert (a + b + c)[|a| + j + 1] == b[j + 1];
    } else if c != [] {
      assert (a + b + c)[|a| + j + 1] == c[0];
    }
  }

  // ---- inserts ----

  /** t is s with d elements from i on replaced by r. */
  ghost predicate Spliced<T>(s: seq<T>, t: seq<T>, i: nat, d: nat, r: seq<T>) {
    i + d <= |s| && t == s[..i] + r + s[i + d..]
  }

  lemma Widen<T>(pre: seq<T>, s: seq<T>, t: seq<T>, post: seq<T>, i: nat, d: nat, r: seq<T>)
    requires Spliced(s, t, i, d, r)
    ensures Spliced(pre + s + post, pre + t + post, |pre| + i, d, r)
  {
    var w := pre + s + post;
    assert w[..|pre| + i] == pre + s[..i];
    assert w[|pre| + i + d..] == s[i + d..] + post;
  }

  function LeavesIn(res: I.InsertResult): seq<Node> {
    match res
    case NoMod(m, _) => Leaves(m)
    case Mod(m) => Leaves(m)
    case Split(a, _, b) => Leaves(a) + Leaves(b)
  }

  /** An internal node, split or not, keeps the leaves of the children it keeps. */
  lemma RebuildLeaves(n: Node, c: nat, res: I.InsertResult)
    requires n.Internal? && |n.kids| == |n.keys| + 1 && |n.keys| <= NKEYS && c < |n.kids|
    ensures LeavesIn(I.Rebuild(n, c, res)) == LeavesOf(n.kids[..c]) + LeavesIn(res) + LeavesOf(n.kids[c + 1..])
  {
    if res.Split? {
      var gc := GrowKids(n.kids, c, res.left, res.right);
      I.PutInInternalCut(n.keys, n.kids, c, res.left, res.mk, res.right);
      GrowLeaves(n.kids, c, res.left, res.right);
      if |n.keys| == NKEYS {
        LeavesAppend(gc[..NMIN + 1], gc[NMIN + 1..]);
        assert gc == gc[..NMIN + 1] + gc[NMIN + 1..];
      }
    } else {
      LeavesAround(n.kids[c := res.node], c);
    }
  }

  lemma GrowLeaves(kids: seq<Node>, c: nat, a: Node, b: Node)
    requires c < |kids|
    ensures LeavesOf(GrowKids(kids, c, a, b)) == LeavesOf(kids[..c]) + (Leaves(a) + Leaves(b)) + LeavesOf(kids[c + 1..])
  {
    assert GrowKids(kids, c, a, b) == kids[..c] + [a, b] + kids[c + 1..];
    LeavesAppend3(kids[..c], [a, b], kids[c + 1..]);
    LeavesTwo(a, b);
  }

  lemma LeavesTwo(a: Node, b: Node)
    ensures LeavesOf([a, b]) == Leaves(a) + Leaves(b)
  {
    assert [a, b] == [a] + [b];
    LeavesAppend([a], [b]);
    LeavesOne(a);
    LeavesOne(b);
  }

  /** An insert into a leaf leaves that leaf in place, with at most one new leaf right after it. */
  ghost predicate LeafOrPair(n: Node, r: seq<Node>) {
    && n.Leaf? && 1 <= |r| <= 2
    && (forall i :: 0 <= i < |r| ==> r[i].Leaf?)
    && r[0].minKey == n.minKey
  }

  lemma RebuildSplices(n: Node, c: nat, res: I.InsertResult, j: nat, r: seq<Node>)
    requires n.Internal? && |n.kids| == |n.keys| + 1 && |n.keys| <= NKEYS && c < |n.kids|
    requires Spliced(Leaves(n.kids[c]), LeavesIn(res), j, 1, r)
    ensures Spliced(Leaves(n), LeavesIn(I.Rebuild(n, c, res)), |LeavesOf(n.kids[..c])| + j, 1, r)
  {
    LeavesAround(n.kids, c);
    RebuildLeaves(n, c, res);
    Widen(LeavesOf(n.kids[..c]), Leaves(n.kids[c]), LeavesIn(res), LeavesOf(n.kids[c + 1..]), j, 1, r);
  }

  /** Inserting into a layer is inserting into the responsible leaf; all other leaves, and their
      order, stay. */
  lemma {:induction false} InsertSplices(n: Node, k: Key, v: Value, onlyIfAbsent: bool, lo: nat, hi: nat)
    requires NodeOk(n, lo, hi) && lo <= Slice(k) < hi
    ensures Responsible(Leaves(n), RespIdx(n, Slice(k)), hi, Slice(k)) && Ranges(Leaves(n), lo, hi)
    ensures
      var all, i := Leaves(n), RespIdx(n, Slice(k));
      Spliced(all, LeavesIn(I.Insert0(n, k, v, onlyIfAbsent, lo, hi)), i, 1,
              LeavesIn(I.Insert0(all[i], k, v, onlyIfAbsent, all[i].minKey, UpTo(all, i, hi))))
    decreases n
  {
    LeafRanges(n, lo, hi);
    RespLeafStays(n, lo, hi, Slice(k));
    match n
    case Leaf(_, _) =>
    case Internal(keys, kids) =>
      assert KidsOk(keys, kids, lo, hi, Height(kids[0]));
      var c := ChildIdx(keys, Slice(k));
      var lo', hi' := Lo(keys, c, lo), Hi(keys, c, hi);
      InsertSplices(kids[c], k, v, onlyIfAbsent, lo', hi');
      var res, own, j := I.Insert0(kids[c], k, v, onlyIfAbsent, lo', hi'), Leaves(kids[c]), RespIdx(kids[c], Slice(k));
      var r := LeavesIn(I.Insert0(own[j], k, v, onlyIfAbsent, own[j].minKey, UpTo(own, j, hi')));
      NextLeaf(keys, kids, lo, hi, Height(kids[0]), c, j);
      RebuildSplices(n, c, res, j, r);
  }

  /** The new leaf of a split goes right behind the one that was full. */
  lemma LeafInsertLeaves(n: Node, k: Key, v: Value, onlyIfAbsent: bool, lo: nat, hi: nat)
    requires n.Leaf? && NodeOk(n, lo, hi) && lo <= Slice(k) < hi
    ensures LeafOrPair(n, LeavesIn(I.Insert0(n, k, v, onlyIfAbsent, lo, hi)))
  {
    I.InsertPreserves(n, k, v, onlyIfAbsent, lo, hi);
    match I.Insert0(n, k, v, onlyIfAbsent, lo, hi)
    case NoMod(m, _) => assert m.Leaf?;
    case Mod(m) => assert m.Leaf?;
    case Split(a, _, b) => assert a.Leaf? && b.Leaf?;
  }

  /** A leaf is last in its layer exactly when its range has no upper end. */
  lemma LastLeafIff(n: Node, i: nat)
    requires NodeOk(n, 0, SLICE_LIMIT) && i < |Leaves(n)|
    ensures Ranges(Leaves(n), 0, SLICE_LIMIT)
    ensures UpTo(Leaves(n), i, SLICE_LIMIT) == SLICE_LIMIT <==> i == |Leaves(n)| - 1
  {
    LeafRanges(n, 0, SLICE_LIMIT);
    if i + 1 < |Leaves(n)| {
      MinKeyBelow(Leaves(n), 0, SLICE_LIMIT, i + 1);
    }
  }

  lemma {:induction false} MinKeyBelow(s: seq<Node>, lo: nat, hi: nat, i: nat)
    requires Ranges(s, lo, hi) && i < |s|
    ensures s[i].minKey < hi
    decreases |s| - i
  {
    assert s[i].minKey < UpTo(s, i, hi);
    if i + 1 < |s| {
      MinKeyBelow(s, lo, hi, i + 1);
    }
  }

  // ---- removals ----

  function Opt(o: Option<Node>): seq<Node> {
    if o.None? then [] else [o.value]
  }

  /** A node between its neighbours before, and what is there after a removal. */
  function InNodes(left: Option<Node>, n: Node, right: Option<Node>): seq<Node> {
    Opt(left) + [n] + Opt(right)
  }

  function OutNodes(res: R.RemoveResult, left: Option<Node>, n: Node, right: Option<Node>): seq<Node> {
    match res
    case NotFound => InNodes(left, n, right)
    case Removed(m, _) => InNodes(left, m, right)
    case StoleLeft(l, _, m, _) => [l, m] + Opt(right)
    case StoleRight(m, _, r, _) => Opt(left) + [m, r]
    case MergedLeft(l, _) => [l] + Opt(right)
    case MergedRight(m, _) => Opt(left) + [m]
    case Replaced(m, _) => InNodes(left, m, right)
  }

  /** One leaf is kept, or two adjacent leaves exchange entries, or the left one of two adjacent
      leaves takes over; `at` is among them. */
  ghost predicate Local(s: seq<Node>, t: seq<Node>, i: nat, d: nat, r: seq<Node>, at: nat) {
    && Spliced(s, t, i, d, r)
    && i <= at < i + d <= i + 2 && 1 <= |r| <= d
    && s[i].Leaf? && (forall j :: 0 <= j < |r| ==> r[j].Leaf?)
    && r[0].minKey == s[i].minKey
  }

  lemma WidenLocal(pre: seq<Node>, s: seq<Node>, t: seq<Node>, post: seq<Node>, i: nat, d: nat, r: seq<Node>, at: nat)
    requires Local(s, t, i, d, r, at)
    ensures Local(pre + s + post, pre + t + post, |pre| + i, d, r, |pre| + at)
  {
    Widen(pre, s, t, post, i, d, r);
    assert (pre + s + post)[|pre| + i] == s[i];
  }

  lemma {:induction false} FirstLeavesOfLeaves(s: seq<Node>, j: nat)
    requires j <= |s| && forall i :: 0 <= i < |s| ==> s[i].Leaf?
    ensures FirstLeaves(s, j) == s[..j]
  {
    if j > 0 {
      FirstLeavesOfLeaves(s, j - 1);
    }
  }

  lemma LeavesOfLeaves(s: seq<Node>)
    requires forall i :: 0 <= i < |s| ==> s[i].Leaf?
    ensures LeavesOf(s) == s
  {
    FirstLeavesOfLeaves(s, |s|);
  }

  /** The outcome hands out the children `kids` and those of the neighbours, in order. */
  ghost predicate Regrouped(res: R.RemoveResult, kids: seq<Node>, left: Option<Node>, right: Option<Node>) {
    && (left.Some? ==> left.value.Internal?) && (right.Some? ==> right.value.Internal?)
    && match res
       case NotFound => false
       case Removed(m, _) => m.Internal? && m.kids == kids
       case Replaced(m, _) => kids == [m]
       case StoleRight(m, _, r, _) =>
         right.Some? && m.Internal? && r.Internal? && m.kids + r.kids == kids + right.value.kids
       case MergedRight(m, _) => right.Some? && m.Internal? && m.kids == kids + right.value.kids
       case StoleLeft(l, _, m, _) =>
         left.Some? && l.Internal? && m.Internal? && l.kids + m.kids == left.value.kids + kids
       case MergedLeft(l, _) => left.Some? && l.Internal? && l.kids == left.value.kids + kids
  }

  lemma RebalanceRegroups(keys: seq<nat>, kids: seq<Node>, left: Option<Node>, right: Option<Node>, lo: nat, hi: nat,
                          was: Value)
    requires |kids| == |keys| + 1
    requires left.Some? ==> left.value.Internal? && |left.value.kids| == |left.value.keys| + 1
    requires right.Some? ==> right.value.Internal? && |right.value.kids| == |right.value.keys| + 1
    ensures Regrouped(R.Rebalance(keys, kids, left, right, lo, hi, was), kids, left, right)
  {
    if right.Some? {
      MoveFirst(kids, right.value.kids);
    } else if left.Some? {
      MoveLast(left.value.kids, kids);
    }
  }

  lemma MoveFirst<T>(a: seq<T>, b: seq<T>)
    requires b != []
    ensures (a + [b[0]]) + b[1..] == a + b
  {
  }

  lemma MoveLast<T>(a: seq<T>, b: seq<T>)
    requires a != []
    ensures a[..|a| - 1] + ([a[|a| - 1]] + b) == a + b
  {
  }

  /** Moving children between internal neighbours only regroups the leaves. */
  lemma RegroupedLeaves(res: R.RemoveResult, kids: seq<Node>, left: Option<Node>, n: Node, right: Option<Node>)
    requires Regrouped(res, kids, left, right)
    ensures LeavesOf(OutNodes(res, left, n, right)) == LeavesOf(Opt(left)) + LeavesOf(kids) + LeavesOf(Opt(right))
  {
    match res
    case Removed(m, _) => NodesLeaves(left, m, right);
    case Replaced(m, _) =>
      NodesLeaves(left, m, right);
      LeavesOne(m);
    case StoleRight(m, _, r, _) => RegroupRight(kids, left, right.value, m, r);
    case MergedRight(m, _) => FuseRight(kids, left, right.value, m);
    case StoleLeft(l, _, m, _) => RegroupLeft(kids, left.value, right, l, m);
    case MergedLeft(l, _) => FuseLeft(kids, left.value, right, l);
  }

  lemma NodesLeaves(left: Option<Node>, m: Node, right: Option<Node>)
    ensures LeavesOf(InNodes(left, m, right)) == LeavesOf(Opt(left)) + Leaves(m) + LeavesOf(Opt(right))
  {
    LeavesAppend3(Opt(left), [m], Opt(right));
    LeavesOne(m);
  }

  lemma RegroupRight(kids: seq<Node>, left: Option<Node>, right: Node, m: Node, r: Node)
    requires right.Internal? && m.Internal? && r.Internal?
    requires m.kids + r.kids == kids + right.kids
    ensures LeavesOf(Opt(left) + [m, r]) == LeavesOf(Opt(left)) + LeavesOf(kids) + LeavesOf([right])
  {
    LeavesAppend(Opt(left), [m, r]);
    LeavesTwo(m, r);
    LeavesAppend(m.kids, r.kids);
    LeavesAppend(kids, right.kids);
    LeavesOne(right);
    Regroup(LeavesOf(Opt(left)), LeavesOf(kids), LeavesOf([right]));
  }

  lemma FuseRight(kids: seq<Node>, left: Option<Node>, right: Node, m: Node)
    requires right.Internal? && m.Internal? && m.kids == kids + right.kids
    ensures LeavesOf(Opt(left) + [m]) == LeavesOf(Opt(left)) + LeavesOf(kids) + LeavesOf([right])
  {
    LeavesAppend(Opt(left), [m]);
    LeavesOne(m);
    LeavesAppend(kids, right.kids);
    LeavesOne(right);
    Regroup(LeavesOf(Opt(left)), LeavesOf(kids), LeavesOf([right]));
  }

  lemma RegroupLeft(kids: seq<Node>, left: Node, right: Option<Node>, l: Node, m: Node)
    requires left.Internal? && l.Internal? && m.Internal?
    requires l.kids + m.kids == left.kids + kids
    ensures LeavesOf([l, m] + Opt(right)) == LeavesOf([left]) + LeavesOf(kids) + LeavesOf(Opt(right))
  {
    LeavesAppend([l, m], Opt(right));
    LeavesTwo(l, m);
    LeavesAppend(l.kids, m.kids);
    LeavesAppend(left.kids, kids);
    LeavesOne(left);
  }

  lemma FuseLeft(kids: seq<Node>, left: Node, right: Option<Node>, l: Node)
    requires left.Internal? && l.Internal? && l.kids == left.kids + kids
    ensures LeavesOf([l] + Opt(right)) == LeavesOf([left]) + LeavesOf(kids) + LeavesOf(Opt(right))
  {
    LeavesAppend([l], Opt(right));
    LeavesOne(l);
    LeavesAppend(left.kids, kids);
    LeavesOne(left);
  }

  /** The children left and right of child c and its neighbours. */
  function Before(kids: seq<Node>, c: nat): seq<Node>
    requires c < |kids|
  {
    if c == 0 then [] else kids[..c - 1]
  }

  function After(kids: seq<Node>, c: nat): seq<Node>
    requires c < |kids|
  {
    if c + 1 == |kids| then [] else kids[c + 2..]
  }

  /** The children after a removal from child c. */
  function KidsOut(kids: seq<Node>, c: nat, res: R.RemoveResult): seq<Node>
    requires c < |kids|
  {
    Before(kids, c) + OutNodes(res, R.LeftOf(kids, c), kids[c], R.RightOf(kids, c)) + After(kids, c)
  }

  lemma SetOne<T>(s: seq<T>, c: nat, x: T)
    requires c < |s|
    ensures s[..c] + [x] + s[c + 1..] == s[c := x]
  {
  }

  lemma SetTwo<T>(s: seq<T>, c: nat, x: T, y: T)
    requires c + 1 < |s|
    ensures s[..c] + [x, y] + s[c + 2..] == s[c := x][c + 1 := y]
  {
  }

  lemma Behind<T>(s: seq<T>, c: nat)
    requires 0 < c <= |s|
    ensures s[..c - 1] + [s[c - 1]] == s[..c]
  {
  }

  lemma Ahead<T>(s: seq<T>, c: nat)
    requires c < |s|
    ensures [s[c]] + s[c + 1..] == s[c..]
  {
  }

  /** What lies left and right of child c, with and without its neighbours. */
  lemma Sides(kids: seq<Node>, c: nat)
    requires c < |kids|
    ensures Before(kids, c) + Opt(R.LeftOf(kids, c)) == kids[..c]
    ensures Opt(R.RightOf(kids, c)) + After(kids, c) == kids[c + 1..]
  {
    if c > 0 {
      Behind(kids, c);
    }
    if c + 1 < |kids| {
      Ahead(kids, c + 1);
    }
  }

  lemma Five<T>(a: seq<T>, b: seq<T>, m: seq<T>, d: seq<T>, e: seq<T>)
    ensures a + (b + m + d) + e == (a + b) + m + (d + e)
    ensures a + (b + m) + e == (a + b) + m + e
    ensures a + (m + d) + e == a + m + (d + e)
  {
  }

  lemma KidsOutKept(kids: seq<Node>, c: nat, res: R.RemoveResult, m: Node)
    requires c < |kids| && R.Sided(res, R.LeftOf(kids, c), R.RightOf(kids, c))
    requires if res.NotFound? then m == kids[c] else (res.Removed? || res.Replaced?) && res.node == m
    ensures KidsOut(kids, c, res) == kids[c := m]
  {
    Sides(kids, c);
    Five(Before(kids, c), Opt(R.LeftOf(kids, c)), [m], Opt(R.RightOf(kids, c)), After(kids, c));
    SetOne(kids, c, m);
  }

  lemma KidsOutLeft(kids: seq<Node>, c: nat, res: R.RemoveResult)
    requires c < |kids| && R.Sided(res, R.LeftOf(kids, c), R.RightOf(kids, c)) && (res.StoleLeft? || res.MergedLeft?)
    ensures res.StoleLeft? ==> KidsOut(kids, c, res) == kids[c - 1 := res.left][c := res.node]
    ensures res.MergedLeft? ==> KidsOut(kids, c, res) == FuseKids(kids, c - 1, res.left)
  {
    var m := if res.StoleLeft? then [res.left, res.node] else [res.left];
    Sides(kids, c);
    Five(Before(kids, c), Opt(R.LeftOf(kids, c)), m, Opt(R.RightOf(kids, c)), After(kids, c));
    if res.StoleLeft? { SetTwo(kids, c - 1, res.left, res.node); }
  }

  lemma KidsOutRight(kids: seq<Node>, c: nat, res: R.RemoveResult)
    requires c < |kids| && R.Sided(res, R.LeftOf(kids, c), R.RightOf(kids, c)) && (res.StoleRight? || res.MergedRight?)
    ensures res.StoleRight? ==> KidsOut(kids, c, res) == kids[c := res.node][c + 1 := res.right]
    ensures res.MergedRight? ==> KidsOut(kids, c, res) == FuseKids(kids, c, res.node)
  {
    var m := if res.StoleRight? then [res.node, res.right] else [res.node];
    Sides(kids, c);
    Five(Before(kids, c), Opt(R.LeftOf(kids, c)), m, Opt(R.RightOf(kids, c)), After(kids, c));
    if res.StoleRight? { SetTwo(kids, c, res.node, res.right); }
  }

  lemma KidsOutIs(kids: seq<Node>, c: nat, res: R.RemoveResult)
    requires c < |kids| && R.Sided(res, R.LeftOf(kids, c), R.RightOf(kids, c))
    ensures
      match res
      case NotFound => KidsOut(kids, c, res) == kids
      case Replaced(m, _) => KidsOut(kids, c, res) == kids[c := m]
      case Removed(m, _) => KidsOut(kids, c, res) == kids[c := m]
      case StoleLeft(l, _, m, _) => KidsOut(kids, c, res) == kids[c - 1 := l][c := m]
      case StoleRight(m, _, r, _) => KidsOut(kids, c, res) == kids[c := m][c + 1 := r]
      case MergedLeft(l, _) => KidsOut(kids, c, res) == FuseKids(kids, c - 1, l)
      case MergedRight(m, _) => KidsOut(kids, c, res) == FuseKids(kids, c, m)
  {
    match res
    case NotFound =>
      KidsOutKept(kids, c, res, kids[c]);
      assert kids[c := kids[c]] == kids;
    case Replaced(m, _) => KidsOutKept(kids, c, res, m);
    case Removed(m, _) => KidsOutKept(kids, c, res, m);
    case StoleLeft(_, _, _, _) => KidsOutLeft(kids, c, res);
    case MergedLeft(_, _) => KidsOutLeft(kids, c, res);
    case StoleRight(_, _, _, _) => KidsOutRight(kids, c, res);
    case MergedRight(_, _) => KidsOutRight(kids, c, res);
  }

  lemma ShrinkRegroups(n: Node, c: nat, res: R.RemoveResult, left: Option<Node>, right: Option<Node>, lo: nat, hi: nat)
    requires n.Internal? && |n.kids| == |n.keys| + 1 && c <= |n.keys| && |n.keys| > 0
    requires R.Sided(res, R.LeftOf(n.kids, c), R.RightOf(n.kids, c)) && !res.NotFound?
    requires left.Some? ==> left.value.Internal? && |left.value.kids| == |left.value.keys| + 1
    requires right.Some? ==> right.value.Internal? && |right.value.kids| == |right.value.keys| + 1
    ensures Regrouped(R.Shrink(n, c, res, left, right, lo, hi), KidsOut(n.kids, c, res), left, right)
  {
    KidsOutIs(n.kids, c, res);
    match res
    case MergedLeft(l, was) =>
      RebalanceRegroups(DropKey(n.keys, c - 1), FuseKids(n.kids, c - 1, l), left, right, lo, hi, was);
    case MergedRight(m, was) =>
      RebalanceRegroups(DropKey(n.keys, c), FuseKids(n.kids, c, m), left, right, lo, hi, was);
    case _ =>
  }

  /** An internal node after a removal from child c: its leaves change as those of c and its
      neighbours do. */
  lemma ShrinkLeaves(n: Node, c: nat, res: R.RemoveResult, left: Option<Node>, right: Option<Node>, lo: nat, hi: nat)
    requires n.Internal? && |n.kids| == |n.keys| + 1 && c <= |n.keys| && |n.keys| > 0
    requires R.Sided(res, R.LeftOf(n.kids, c), R.RightOf(n.kids, c))
    requires left.Some? ==> left.value.Internal? && |left.value.kids| == |left.value.keys| + 1
    requires right.Some? ==> right.value.Internal? && |right.value.kids| == |right.value.keys| + 1
    ensures Passes(n, c, left, right, res, R.Shrink(n, c, res, left, right, lo, hi))
  {
    if res.NotFound? {
      KidsOutIs(n.kids, c, res);
      NodesLeaves(left, n, right);
    } else {
      ShrinkRegroups(n, c, res, left, right, lo, hi);
      RegroupedLeaves(R.Shrink(n, c, res, left, right, lo, hi), KidsOut(n.kids, c, res), left, n, right);
    }
  }

  /** Removal from a leaf yields leaves, the leftmost one touched starting where it did. */
  ghost predicate LeafOutcome(n: Node, left: Option<Node>, right: Option<Node>, res: R.RemoveResult) {
    && n.Leaf? && (left.Some? ==> left.value.Leaf?) && (right.Some? ==> right.value.Leaf?)
    && match res
       case NotFound => true
       case Removed(m, _) => m.Leaf? && m.minKey == n.minKey
       case StoleLeft(l, nk, m, _) =>
         left.Some? && l.Leaf? && m.Leaf? && l.minKey == left.value.minKey && m.minKey == nk
       case StoleRight(m, nk, r, _) => right.Some? && r.Leaf? && m.Leaf? && m.minKey == n.minKey && r.minKey == nk
       case MergedLeft(l, _) => left.Some? && l.Leaf? && l.minKey == left.value.minKey
       case MergedRight(m, _) => right.Some? && m.Leaf? && m.minKey == n.minKey
       case Replaced(_, _) => false
  }

  lemma LeafRemoveOutcome(n: Node, k: Key, left: Option<Node>, right: Option<Node>, lo: nat, hi: nat, llo: nat,
                          rhi: nat)
    requires n.Leaf? && NodeOk(n, lo, hi) && lo <= Slice(k) < hi && R.SiblingsOk(n, left, right, lo, hi, llo, rhi)
    ensures LeafOutcome(n, left, right, R.Remove0(n, k, left, right, lo, hi, llo, rhi))
  {
    R.LeafSiblings(n, left, right, lo, hi, llo, rhi);
  }

  /** What the leaf's own outcome says about the list: how many leaves to the left it reaches, how
      many leaves it touches, and what they become. */
  function Back(res: R.RemoveResult): nat { if res.StoleLeft? || res.MergedLeft? then 1 else 0 }

  function Touched(res: R.RemoveResult): nat {
    if res.NotFound? || res.Removed? || res.Replaced? then 1 else 2
  }

  function Become(res: R.RemoveResult, n: Node): seq<Node> {
    match res
    case NotFound => [n]
    case Removed(m, _) => [m]
    case StoleLeft(l, _, m, _) => [l, m]
    case StoleRight(m, _, r, _) => [m, r]
    case MergedLeft(l, _) => [l]
    case MergedRight(m, _) => [m]
    case Replaced(m, _) => [m]
  }

  lemma LocalSwap(a: seq<Node>, m: seq<Node>, r: seq<Node>, b: seq<Node>, at: nat)
    requires 1 <= |r| <= |m| <= 2 && |a| <= at < |a| + |m|
    requires m[0].Leaf? && (forall j :: 0 <= j < |r| ==> r[j].Leaf?) && r[0].minKey == m[0].minKey
    ensures Local(a + m + b, a + r + b, |a|, |m|, r, at)
  {
    var s := a + m + b;
    assert s[..|a|] == a && s[|a| + |m|..] == b && s[|a|] == m[0];
  }

  lemma AtEnds<T>(m: seq<T>, b: seq<T>)
    ensures [] + m + b == m + b && m + b + [] == m + b
  {
  }

  lemma LeafLocal(n: Node, left: Option<Node>, right: Option<Node>, res: R.RemoveResult)
    requires LeafOutcome(n, left, right, res)
    ensures Back(res) <= |Opt(left)|
    ensures Local(InNodes(left, n, right), OutNodes(res, left, n, right), |Opt(left)| - Back(res), Touched(res),
                  Become(res, n), |Opt(left)|)
  {
    var a, b, r := Opt(left), Opt(right), Become(res, n);
    if Back(res) == 1 {
      LocalSwap([], a + [n], r, b, 1);
      AtEnds(a + [n], b);
      AtEnds(r, b);
    } else if Touched(res) == 2 {
      LocalSwap(a, [n] + b, r, [], |a|);
      Regroup(a, [n], b);
      AtEnds(a, [n] + b);
      AtEnds(a, r);
    } else {
      LocalSwap(a, [n], r, b, |a|);
    }
  }

  lemma LeafNodes(n: Node, left: Option<Node>, right: Option<Node>, res: R.RemoveResult)
    requires LeafOutcome(n, left, right, res)
    ensures forall i :: 0 <= i < |Opt(left)| ==> Opt(left)[i].Leaf?
    ensures var s := InNodes(left, n, right); forall i :: 0 <= i < |s| ==> s[i].Leaf?
    ensures var t := OutNodes(res, left, n, right); forall i :: 0 <= i < |t| ==> t[i].Leaf?
  {
  }

  /** The leaves around n change from before to after by one local splice at its leaf `at`. */
  ghost predicate Splices(n: Node, left: Option<Node>, right: Option<Node>, res: R.RemoveResult,
                          i: nat, d: nat, r: seq<Node>, at: nat)
  {
    LocalOf(d, r)(LeavesOf(InNodes(left, n, right)), LeavesOf(OutNodes(res, left, n, right)), i,
                  |LeavesOf(Opt(left))| + at)
  }

  /** Local as a property of the two sequences and the places. */
  ghost function LocalOf(d: nat, r: seq<Node>): (seq<Node>, seq<Node>, nat, nat) -> bool {
    (s: seq<Node>, t: seq<Node>, i: nat, at: nat) => Local(s, t, i, d, r, at)
  }

  lemma LeafSplices(n: Node, left: Option<Node>, right: Option<Node>, res: R.RemoveResult) returns (i: nat)
    requires LeafOutcome(n, left, right, res)
    ensures Splices(n, left, right, res, i, Touched(res), Become(res, n), 0) && i + Back(res) == |LeavesOf(Opt(left))|
  {
    LeafLocal(n, left, right, res);
    LeafNodes(n, left, right, res);
    var p, s, t := Opt(left), InNodes(left, n, right), OutNodes(res, left, n, right);
    assert LeavesOf(p) == p by { LeavesOfLeaves(p); }
    assert LeavesOf(s) == s by { LeavesOfLeaves(s); }
    assert LeavesOf(t) == t by { LeavesOfLeaves(t); }
    i := |p| - Back(res);
  }

  lemma WidenTwice(a: seq<Node>, pre: seq<Node>, s: seq<Node>, t: seq<Node>, post: seq<Node>, b: seq<Node>,
                   i: nat, d: nat, r: seq<Node>, at: nat)
    requires Local(s, t, i, d, r, at)
    ensures Local(a + (pre + s + post) + b, a + (pre + t + post) + b, |a| + |pre| + i, d, r, |a| + |pre| + at)
  {
    WidenLocal(pre, s, t, post, i, d, r, at);
    WidenLocal(a, pre + s + post, pre + t + post, b, |pre| + i, d, r, |pre| + at);
  }

  lemma KidsLeaves(kids: seq<Node>, c: nat, res: R.RemoveResult)
    requires c < |kids|
    ensures
      var l, r := R.LeftOf(kids, c), R.RightOf(kids, c);
      var pre, post := LeavesOf(Before(kids, c)), LeavesOf(After(kids, c));
      && LeavesOf(kids) == pre + LeavesOf(InNodes(l, kids[c], r)) + post
      && LeavesOf(KidsOut(kids, c, res)) == pre + LeavesOf(OutNodes(res, l, kids[c], r)) + post
      && |LeavesOf(kids[..c])| == |pre| + |LeavesOf(Opt(l))|
  {
    var l, r := R.LeftOf(kids, c), R.RightOf(kids, c);
    Sides(kids, c);
    KidsOutIs(kids, c, R.NotFound);
    LeavesAppend(Before(kids, c), Opt(l));
    LeavesAppend3(Before(kids, c), InNodes(l, kids[c], r), After(kids, c));
    LeavesAppend3(Before(kids, c), OutNodes(res, l, kids[c], r), After(kids, c));
  }

  /** The outcome `out` of n holds the children after a removal from child c. */
  ghost predicate Passes(n: Node, c: nat, left: Option<Node>, right: Option<Node>, res: R.RemoveResult,
                         out: R.RemoveResult)
    requires n.Internal? && c < |n.kids|
  {
    LeavesOf(OutNodes(out, left, n, right)) ==
    LeavesOf(Opt(left)) + LeavesOf(KidsOut(n.kids, c, res)) + LeavesOf(Opt(right))
  }

  /** s inside others. */
  function Inside(a: seq<Node>, pre: seq<Node>, s: seq<Node>, post: seq<Node>, b: seq<Node>): seq<Node> {
    a + (pre + s + post) + b
  }

  /** What holds of two sequences holds of them inside any others. */
  ghost predicate Widens(local: (seq<Node>, seq<Node>, nat, nat) -> bool) {
    forall a, pre, s, t, post, b, i: nat, at: nat
      {:trigger local(s, t, i, at), Inside(a, pre, s, post, b), Inside(a, pre, t, post, b)} ::
      local(s, t, i, at) ==>
        local(Inside(a, pre, s, post, b), Inside(a, pre, t, post, b), |a| + |pre| + i, |a| + |pre| + at)
  }

  lemma LocalWidens(d: nat, r: seq<Node>)
    ensures Widens(LocalOf(d, r))
  {
    forall a: seq<Node>, pre: seq<Node>, s: seq<Node>, t: seq<Node>, post: seq<Node>, b: seq<Node>, i: nat, at: nat
      | Local(s, t, i, d, r, at)
      ensures Local(Inside(a, pre, s, post, b), Inside(a, pre, t, post, b), |a| + |pre| + i, d, r, |a| + |pre| + at)
    {
      WidenTwice(a, pre, s, t, post, b, i, d, r, at);
    }
  }

  /** The leaves around child c, before and after, inside those around n. */
  lemma InternalLeaves(n: Node, c: nat, left: Option<Node>, right: Option<Node>, res: R.RemoveResult,
                       out: R.RemoveResult)
    requires n.Internal? && c < |n.kids| && Passes(n, c, left, right, res, out)
    ensures
      var l, r := R.LeftOf(n.kids, c), R.RightOf(n.kids, c);
      var a, pre, post, b := LeavesOf(Opt(left)), LeavesOf(Before(n.kids, c)), LeavesOf(After(n.kids, c)),
                             LeavesOf(Opt(right));
      && LeavesOf(InNodes(left, n, right)) == Inside(a, pre, LeavesOf(InNodes(l, n.kids[c], r)), post, b)
      && LeavesOf(OutNodes(out, left, n, right)) == Inside(a, pre, LeavesOf(OutNodes(res, l, n.kids[c], r)), post, b)
      && |LeavesOf(n.kids[..c])| == |pre| + |LeavesOf(Opt(l))|
  {
    NodesLeaves(left, n, right);
    KidsLeaves(n.kids, c, res);
  }

  /** What holds of the leaves around child c holds of the leaves around n. */
  lemma InternalWidens(n: Node, c: nat, left: Option<Node>, right: Option<Node>, res: R.RemoveResult,
                       out: R.RemoveResult, local: (seq<Node>, seq<Node>, nat, nat) -> bool, i: nat, at: nat)
    requires n.Internal? && c < |n.kids| && Passes(n, c, left, right, res, out) && Widens(local)
    requires
      var l, r := R.LeftOf(n.kids, c), R.RightOf(n.kids, c);
      local(LeavesOf(InNodes(l, n.kids[c], r)), LeavesOf(OutNodes(res, l, n.kids[c], r)), i,
            |LeavesOf(Opt(l))| + at)
    ensures local(LeavesOf(InNodes(left, n, right)), LeavesOf(OutNodes(out, left, n, right)),
                  |LeavesOf(Opt(left))| + |LeavesOf(Before(n.kids, c))| + i,
                  |LeavesOf(Opt(left))| + (|LeavesOf(n.kids[..c])| + at))
  {
    InternalLeaves(n, c, left, right, res, out);
  }

  lemma InternalSplices(n: Node, c: nat, left: Option<Node>, right: Option<Node>, res: R.RemoveResult,
                        out: R.RemoveResult, i: nat, d: nat, r: seq<Node>, at: nat)
    requires n.Internal? && c < |n.kids| && Passes(n, c, left, right, res, out)
    requires Splices(n.kids[c], R.LeftOf(n.kids, c), R.RightOf(n.kids, c), res, i, d, r, at)
    ensures Splices(n, left, right, out, |LeavesOf(Opt(left))| + |LeavesOf(Before(n.kids, c))| + i, d, r,
                    |LeavesOf(n.kids[..c])| + at)
  {
    LocalWidens(d, r);
    InternalWidens(n, c, left, right, res, out, LocalOf(d, r), i, at);
  }

  /** The internal case, once the child has done its part. */
  lemma ShrinkSplices(n: Node, c: nat, left: Option<Node>, right: Option<Node>, lo: nat, hi: nat, res: R.RemoveResult,
                      i: nat, d: nat, r: seq<Node>, at: nat) returns (i': nat)
    requires n.Internal? && |n.kids| == |n.keys| + 1 && c <= |n.keys| && |n.keys| > 0
    requires R.Sided(res, R.LeftOf(n.kids, c), R.RightOf(n.kids, c))
    requires left.Some? ==> left.value.Internal? && |left.value.kids| == |left.value.keys| + 1
    requires right.Some? ==> right.value.Internal? && |right.value.kids| == |right.value.keys| + 1
    requires Splices(n.kids[c], R.LeftOf(n.kids, c), R.RightOf(n.kids, c), res, i, d, r, at)
    ensures Splices(n, left, right, R.Shrink(n, c, res, left, right, lo, hi), i', d, r, |LeavesOf(n.kids[..c])| + at)
    ensures i' + |LeavesOf(Opt(R.LeftOf(n.kids, c)))| == |LeavesOf(Opt(left))| + |LeavesOf(n.kids[..c])| + i
  {
    KidsLeaves(n.kids, c, res);
    ShrinkLeaves(n, c, res, left, right, lo, hi);
    InternalSplices(n, c, left, right, res, R.Shrink(n, c, res, left, right, lo, hi), i, d, r, at);
    i' := |LeavesOf(Opt(left))| + |LeavesOf(Before(n.kids, c))| + i;
  }

  /** What `remove0` does at the responsible leaf, with the siblings it has there. */
  function LeafResult(n: Node, k: Key, left: Option<Node>, right: Option<Node>,
                      lo: nat, hi: nat, ghost llo: nat, ghost rhi: nat): R.RemoveResult
    requires NodeOk(n, lo, hi) && lo <= Slice(k) < hi && R.SiblingsOk(n, left, right, lo, hi, llo, rhi)
    decreases n
  {
    match n
    case Leaf(_, _) => R.Remove0(n, k, left, right, lo, hi, llo, rhi)
    case Internal(keys, kids) =>
      var c := ChildIdx(keys, Slice(k));
      assert KidsOk(keys, kids, lo, hi, Height(kids[0]));
      LeafResult(kids[c], k, R.LeftOf(kids, c), R.RightOf(kids, c), Lo(keys, c, lo), Hi(keys, c, hi),
                 R.LeftLo(keys, c, lo), R.RightHi(keys, c, hi))
  }

  /** A leaf outcome consists of leaves, and a moved boundary is the min_key of the leaf behind it. */
  predicate Bounded(res: R.RemoveResult) {
    && (res.StoleLeft? ==> res.node.Leaf? && res.node.minKey == res.nk)
    && (res.StoleRight? ==> res.right.Leaf? && res.right.minKey == res.nk)
    && !res.Replaced?
  }

  /** The removal of a key of slice s, with outcome `out` at n and `res` at the leaf. */
  ghost predicate Removes(n: Node, s: nat, left: Option<Node>, right: Option<Node>, out: R.RemoveResult,
                          res: R.RemoveResult, i: nat)
  {
    && Splices(n, left, right, out, i, Touched(res), Become(res, Descend(n, s)), RespIdx(n, s))
    && i + Back(res) == |LeavesOf(Opt(left))| + RespIdx(n, s) && Bounded(res)
  }

  lemma ShrinkRemoves(n: Node, s: nat, left: Option<Node>, right: Option<Node>, lo: nat, hi: nat,
                      out: R.RemoveResult, res: R.RemoveResult, i: nat) returns (i': nat)
    requires n.Internal? && |n.kids| == |n.keys| + 1 && |n.keys| > 0
    requires left.Some? ==> left.value.Internal? && |left.value.kids| == |left.value.keys| + 1
    requires right.Some? ==> right.value.Internal? && |right.value.kids| == |right.value.keys| + 1
    requires
      var c := ChildIdx(n.keys, s);
      && R.Sided(out, R.LeftOf(n.kids, c), R.RightOf(n.kids, c))
      && Removes(n.kids[c], s, R.LeftOf(n.kids, c), R.RightOf(n.kids, c), out, res, i)
    ensures Removes(n, s, left, right, R.Shrink(n, ChildIdx(n.keys, s), out, left, right, lo, hi), res, i')
  {
    var c := ChildIdx(n.keys, s);
    i' := ShrinkSplices(n, c, left, right, lo, hi, out, i, Touched(res), Become(res, Descend(n.kids[c], s)),
                        RespIdx(n.kids[c], s));
  }

  /** A removal touches the responsible leaf and at most one leaf next to it, as the outcome at that
      leaf says; at most one leaf goes, and then its left neighbour takes its place. */
  lemma {:induction false} RemoveSplices(n: Node, k: Key, left: Option<Node>, right: Option<Node>,
                                         lo: nat, hi: nat, llo: nat, rhi: nat)
    returns (i: nat)
    requires NodeOk(n, lo, hi) && lo <= Slice(k) < hi && R.SiblingsOk(n, left, right, lo, hi, llo, rhi)
    ensures Removes(n, Slice(k), left, right, R.Remove0(n, k, left, right, lo, hi, llo, rhi),
                    LeafResult(n, k, left, right, lo, hi, llo, rhi), i)
    decreases n
  {
    match n
    case Leaf(_, _) =>
      LeafRemoveOutcome(n, k, left, right, lo, hi, llo, rhi);
      i := LeafSplices(n, left, right, R.Remove0(n, k, left, right, lo, hi, llo, rhi));
    case Internal(keys, kids) =>
      assert KidsOk(keys, kids, lo, hi, Height(kids[0]));
      R.OpenSiblings(n, left, right, lo, hi, llo, rhi);
      var c := ChildIdx(keys, Slice(k));
      var lo', hi', llo', rhi' := Lo(keys, c, lo), Hi(keys, c, hi), R.LeftLo(keys, c, lo), R.RightHi(keys, c, hi);
      var l, r := R.LeftOf(kids, c), R.RightOf(kids, c);
      i := RemoveSplices(kids[c], k, l, r, lo', hi', llo', rhi');
      i := ShrinkRemoves(n, Slice(k), left, right, lo, hi, R.Remove0(kids[c], k, l, r, lo', hi', llo', rhi'),
                         LeafResult(kids[c], k, l, r, lo', hi', llo', rhi'), i);
  }

  function LayerLeafResult(root: Node, k: Key): R.RemoveResult
    requires NodeOk(root, 0, SLICE_LIMIT)
  {
    LeafResult(root, k, None, None, 0, SLICE_LIMIT, 0, 0)
  }

  /** The root of a layer after `remove0` on it. */
  function LayerAfter(root: Node, k: Key): Node
    requires NodeOk(root, 0, SLICE_LIMIT)
  {
    match R.Remove0(root, k, None, None, 0, SLICE_LIMIT, 0, 0)
    case Removed(m, _) => m
    case Replaced(m, _) => m
    case _ => root
  }

  /** The same for a whole layer: `remove0` on its root. */
  lemma RemoveInLayer(root: Node, k: Key)
    requires NodeOk(root, 0, SLICE_LIMIT)
    ensures LayerRemoves(root, Slice(k), LayerAfter(root, k), LayerLeafResult(root, k))
  {
    var out := R.Remove0(root, k, None, None, 0, SLICE_LIMIT, 0, 0);
    var i := RemoveSplices(root, k, None, None, 0, SLICE_LIMIT, 0, 0);
    assert OutNodes(out, None, root, None) == InNodes(None, LayerAfter(root, k), None);
    RemovesAlone(root, Slice(k), out, LayerAfter(root, k), LayerLeafResult(root, k), i);
  }

  /** The leaves of a layer change at the responsible leaf as its outcome says. */
  ghost predicate LayerRemoves(root: Node, s: nat, after: Node, res: R.RemoveResult) {
    && Back(res) <= RespIdx(root, s) && Bounded(res)
    && Local(Leaves(root), Leaves(after), RespIdx(root, s) - Back(res), Touched(res), Become(res, Descend(root, s)),
             RespIdx(root, s))
  }

  lemma RemovesAlone(root: Node, s: nat, out: R.RemoveResult, after: Node, res: R.RemoveResult, i: nat)
    requires Removes(root, s, None, None, out, res, i)
    requires OutNodes(out, None, root, None) == InNodes(None, after, None)
    ensures LayerRemoves(root, s, after, res)
  {
    AloneHolds(root, out, after, LocalOf(Touched(res), Become(res, Descend(root, s))), i, RespIdx(root, s));
  }

  /** What holds of the leaves around a root, which has no siblings, holds of the leaves below it. */
  lemma AloneHolds(root: Node, out: R.RemoveResult, after: Node, local: (seq<Node>, seq<Node>, nat, nat) -> bool,
                   i: nat, at: nat)
    requires OutNodes(out, None, root, None) == InNodes(None, after, None)
    requires local(LeavesOf(InNodes(None, root, None)), LeavesOf(OutNodes(out, None, root, None)), i,
                   |LeavesOf(Opt(None))| + at)
    ensures |LeavesOf(Opt(None))| == 0 && local(Leaves(root), Leaves(after), i, at)
  {
    AloneLeaves(root);
    AloneLeaves(after);
  }

  lemma AloneLeaves(n: Node)
    ensures LeavesOf(InNodes(None, n, None)) == Leaves(n) && LeavesOf(Opt(None)) == []
  {
    NodesLeaves(None, n, None);
    Alone(Leaves(n));
  }

  lemma Alone<T>(s: seq<T>)
    ensures [] + s + [] == s
  {
  }
}
