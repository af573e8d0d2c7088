/** `insert0` and `insert_stable_location` (bench/servers/silo/btree_impl.h), run alone:
    leaf splits, internal splits, root growth and the turn of a suffix into a layer. */
module BtreeInsert {
  import opened Options
  import opened Varkey
  import opened BtreeModel
  import opened BtreeRuns
  import opened BtreeLeaf
  import opened BtreeKids

  // ---- splitting a full leaf ----

  function Min(a: nat, b: nat): nat { if a < b then a else b }

  /** Where a full leaf is cut: the cut next to the middle run that balances best. */
  function SplitPoint(s: seq<Slot>): nat
    requires |s| == NKEYS
  {
    var l := RunStart(s, NKEYS / 2);
    var r := if s[NKEYS / 2 - 1].slice != s[NKEYS / 2].slice then NKEYS / 2 else RunEnd(s, NKEYS / 2);
    if Min(l, NKEYS - l) < Min(r, NKEYS - r) then r else l
  }

  /** The cut is proper and never separates equal slices: a slice has at most ten entries. */
  lemma SplitPointProper(s: seq<Slot>)
    requires |s| == NKEYS && Sorted(s)
    requires forall i :: 0 <= i < |s| ==> s[i].len <= 9
    ensures 1 <= SplitPoint(s) <= NKEYS - 1
    ensures s[SplitPoint(s) - 1].slice < s[SplitPoint(s)].slice
  {
    var l := RunStart(s, 7);
    var r := if s[6].slice != s[7].slice then 7 else RunEnd(s, 7);
    var p := SplitPoint(s);
    if l == 0 {
      RunLength(s, 0, r - 1);
    }
    if 0 < p < NKEYS {
      assert s[p - 1].Rank() < s[p].Rank();
    }
  }

  /** The doubt voiced at btree_impl.h:1191-1193 is unfounded: when the new key does not go to
      the right half, its position is at most the split point. */
  lemma PositionAtMostSplitPoint(s: seq<Slot>, x: Slot)
    requires |s| == NKEYS && Sorted(s) && x.len <= 9
    requires forall i :: 0 <= i < |s| ==> s[i].len <= 9
    ensures
      var p, pos := SplitPoint(s), Pos(s, x.Rank());
      1 <= p <= NKEYS - 1 && (pos <= p || s[p - 1].slice < x.slice)
  {
    SplitPointProper(s);
  }

  lemma CutRightOfNew(s: seq<Slot>, pos: nat, p: nat, x: Slot)
    requires p <= pos <= |s|
    ensures s[..p] + (s[p..pos] + [x] + s[pos..]) == InsertAt(s, pos, x)
  {
  }

  lemma CutLeftOfNew(s: seq<Slot>, pos: nat, p: nat, x: Slot)
    requires pos <= p <= |s|
    ensures (s[..pos] + [x] + s[pos..p]) + s[p..] == InsertAt(s, pos, x)
  {
  }

  /** Neither side is empty or overfull, and no slice is on both sides. */
  ghost predicate CleanCut(l: seq<Slot>, r: seq<Slot>, max: nat) {
    && 1 <= |l| <= max && 1 <= |r| <= max
    && l[|l| - 1].slice < r[0].slice
  }

  /** Both halves when s is cut at p and x joins it at pos. */
  function CutWith(s: seq<Slot>, x: Slot, pos: nat, p: nat): (seq<Slot>, seq<Slot>)
    requires 1 <= p < |s| && pos <= |s|
    requires pos <= p || s[p - 1].slice < x.slice
  {
    if p <= pos && s[p - 1].slice != x.slice then
      (s[..p], s[p..pos] + [x] + s[pos..])
    else
      (s[..pos] + [x] + s[pos..p], s[p..])
  }

  lemma CutWithCorrect(s: seq<Slot>, x: Slot, pos: nat, p: nat)
    requires 1 <= p < |s| && pos <= |s|
    requires pos <= p || s[p - 1].slice < x.slice
    requires s[p - 1].slice < s[p].slice
    requires pos > 0 ==> s[pos - 1].slice <= x.slice
    requires pos < |s| ==> x.slice <= s[pos].slice
    ensures
      var (l, r) := CutWith(s, x, pos, p);
      && l + r == InsertAt(s, pos, x)
      && CleanCut(l, r, |s|)
  {
    if p <= pos && s[p - 1].slice != x.slice {
      CutRightOfNew(s, pos, p, x);
      var r := s[p..pos] + [x] + s[pos..];
      assert r[0] == if p < pos then s[p] else x;
    } else {
      CutLeftOfNew(s, pos, p, x);
      var l := s[..pos] + [x] + s[pos..p];
      assert l[|l| - 1] == if pos < p then s[p - 1] else x;
    }
  }

  /** Both halves of a full leaf s after x joins it. `last` says `next_` is NULL. */
  function SplitLeaf(s: seq<Slot>, x: Slot, last: bool): (seq<Slot>, seq<Slot>)
    requires |s| == NKEYS && Sorted(s) && x.len <= 9
    requires forall i :: 0 <= i < |s| ==> s[i].len <= 9
  {
    if last && s[NKEYS - 1].slice < x.slice then
      (s, [x])
    else
      PositionAtMostSplitPoint(s, x);
      CutWith(s, x, Pos(s, x.Rank()), SplitPoint(s))
  }

  lemma PosSlices(s: seq<Slot>, x: Slot)
    requires x.len <= 9 && forall i :: 0 <= i < |s| ==> s[i].len <= 9
    ensures
      var pos := Pos(s, x.Rank());
      && (pos > 0 ==> s[pos - 1].slice <= x.slice)
      && (pos < |s| ==> x.slice <= s[pos].slice)
  {
  }

  /** Splitting loses nothing, overfills no side, empties no side, and no slice is on both sides. */
  lemma SplitLeafCorrect(s: seq<Slot>, x: Slot, last: bool)
    requires |s| == NKEYS && Sorted(s) && x.len <= 9
    requires forall i :: 0 <= i < |s| ==> s[i].len <= 9
    ensures
      var (l, r) := SplitLeaf(s, x, last);
      && l + r == InsertAt(s, Pos(s, x.Rank()), x)
      && CleanCut(l, r, NKEYS)
  {
    var pos := Pos(s, x.Rank());
    if last && s[NKEYS - 1].slice < x.slice {
      assert pos == NKEYS;
      assert InsertAt(s, NKEYS, x) == s + [x];
    } else {
      SplitPointProper(s);
      PositionAtMostSplitPoint(s, x);
      PosSlices(s, x);
      CutWithCorrect(s, x, pos, SplitPoint(s));
    }
  }

  // ---- insert0 ----

  /** I_NONE_NOMOD, I_NONE_MOD, I_SPLIT. */
  datatype InsertResult =
    | NoMod(node: Node, was: Value)
    | Mod(node: Node)
    | Split(left: Node, mk: nat, right: Node)

  function NewSlot(k: Key, v: Value): Slot {
    Slot(Slice(k), SliceLen(k), if |k| > 8 then Shift(k) else [], Val(v))
  }

  /** The first leaf of a new layer holds the old entry, cut down by one slice. */
  function NewLayer(x: Slot): Node {
    Leaf(0, [Slot(Slice(x.suffix), SliceLen(x.suffix), if |x.suffix| > 8 then Shift(x.suffix) else [], x.vn)])
  }

  /** Put a new slot into a leaf, splitting it when it is full. A leaf has no right neighbour
      exactly when its range has no upper end. */
  function PutInLeaf(n: Node, x: Slot, lo: nat, hi: nat): InsertResult
    requires n.Leaf? && NodeOk(n, lo, hi) && x.len <= 9
  {
    if |n.slots| < NKEYS then
      Mod(n.(slots := InsertAt(n.slots, Pos(n.slots, x.Rank()), x)))
    else
      assert SlotsOk(n.slots, lo, hi);
      SplitLeafCorrect(n.slots, x, hi == SLICE_LIMIT);
      var (l, r) := SplitLeaf(n.slots, x, hi == SLICE_LIMIT);
      Split(Leaf(n.minKey, l), r[0].slice, Leaf(r[0].slice, r))
  }

  /** Put the halves a, b of child c into an internal node, splitting it when it is full. */
  function PutInInternal(keys: seq<nat>, kids: seq<Node>, c: nat, a: Node, mk: nat, b: Node): InsertResult
    requires |kids| == |keys| + 1 && |keys| <= NKEYS && c < |kids|
  {
    var ch := kids[c := a];
    if |keys| < NKEYS then
      Mod(Internal(keys[..c] + [mk] + keys[c..], ch[..c + 1] + [b] + ch[c + 1..]))
    else if c < NMIN then
      Split(Internal(keys[..c] + [mk] + keys[c..NMIN - 1], ch[..c + 1] + [b] + ch[c + 1..NMIN]),
            keys[NMIN - 1],
            Internal(keys[NMIN..], ch[NMIN..]))
    else if c == NMIN then
      Split(Internal(keys[..NMIN], ch[..NMIN + 1]),
            mk,
            Internal(keys[NMIN..], [b] + ch[NMIN + 1..]))
    else
      Split(Internal(keys[..NMIN], ch[..NMIN + 1]),
            keys[NMIN],
            Internal(keys[NMIN + 1..c] + [mk] + keys[c..], ch[NMIN + 1..c + 1] + [b] + ch[c + 1..]))
  }

  /** An internal node after its child c has been inserted into. */
  function Rebuild(n: Node, c: nat, res: InsertResult): InsertResult
    requires n.Internal? && |n.kids| == |n.keys| + 1 && |n.keys| <= NKEYS && c < |n.kids|
  {
    match res
    case NoMod(m, was) => NoMod(n.(kids := n.kids[c := m]), was)
    case Mod(m) => Mod(n.(kids := n.kids[c := m]))
    case Split(a, mk, b) => PutInInternal(n.keys, n.kids, c, a, mk, b)
  }

  function Insert0(n: Node, k: Key, v: Value, onlyIfAbsent: bool, lo: nat, hi: nat): InsertResult
    requires NodeOk(n, lo, hi) && lo <= Slice(k) < hi
    decreases |k|, n
  {
    match n
    case Leaf(_, slots) =>
      var p := Pos(slots, KeyRank(k));
      if p > 0 && Matches(slots[p - 1], k) then
        InsertAtMatch(n, p - 1, k, v, onlyIfAbsent, lo, hi)
      else
        PutInLeaf(n, NewSlot(k, v), lo, hi)
    case Internal(keys, kids) =>
      var c := ChildIdx(keys, Slice(k));
      assert KidsOk(keys, kids, lo, hi, Height(kids[0]));
      Rebuild(n, c, Insert0(kids[c], k, v, onlyIfAbsent, Lo(keys, c, lo), Hi(keys, c, hi)))
  }

  /** The leaf has a slot of the same slice and length. */
  function InsertAtMatch(n: Node, i: nat, k: Key, v: Value, onlyIfAbsent: bool, lo: nat, hi: nat): InsertResult
    requires n.Leaf? && NodeOk(n, lo, hi) && i < |n.slots| && Matches(n.slots[i], k)
    decreases |k|, n, 0
  {
    var x := n.slots[i];
    assert SlotsOk(n.slots, lo, hi) && SlotOk(x);
    if |k| <= 8 || (x.vn.Val? && x.suffix == Shift(k)) then
      NoMod(if onlyIfAbsent then n else SetSlot(n, i, x.(vn := Val(v))), x.vn.v)
    else
      match x.vn
      case Layer(root) =>
        (match Insert0(root, Shift(k), v, onlyIfAbsent, 0, SLICE_LIMIT)
         case NoMod(m, was) => NoMod(SetSlot(n, i, x.(vn := Layer(m))), was)
         case Mod(m) => Mod(SetSlot(n, i, x.(vn := Layer(m))))
         case Split(a, mk, b) => Mod(SetSlot(n, i, x.(vn := Layer(Internal([mk], [a, b]))))))
      case Val(_) =>
        (match Insert0(NewLayer(x), Shift(k), v, onlyIfAbsent, 0, SLICE_LIMIT)
         case Mod(m) => Mod(SetSlot(n, i, x.(suffix := [], vn := Layer(m))))
         case other => other)    // ruled out by NewLayerTakesKey
  }

  /** Lookup g of a key of slice s in the outcome of an insert: a split routes by mk. */
  function InBy(res: InsertResult, g: Node -> Option<Value>, s: nat): Option<Value> {
    match res
    case NoMod(m, _) => g(m)
    case Mod(m) => g(m)
    case Split(a, mk, b) => Side(s, mk, g(a), g(b))
  }

  function GetIn(res: InsertResult, k: Key): Option<Value> {
    InBy(res, Look(k), Slice(k))
  }

  // ---- insert0 keeps the tree invariant ----

  ghost predicate ResultOk(n: Node, res: InsertResult, lo: nat, hi: nat) {
    match res
    case NoMod(m, _) => KeepsShape(n, m, lo, hi)
    case Mod(m) => KeepsShape(n, m, lo, hi)
    case Split(a, mk, b) =>
      && lo < mk < hi
      && NodeOk(a, lo, mk) && Filled(a) && Height(a) == Height(n)
      && NodeOk(b, mk, hi) && Filled(b) && Height(b) == Height(n)
  }

  /** The halves of a leaf split and what a lookup finds in them. */
  lemma SplitLeafHalves(s: seq<Slot>, x: Slot, lo: nat, hi: nat, last: bool, k: Key)
    requires Ranked(s, lo, hi) && |s| == NKEYS && x.len <= 9
    requires SlotsOk(InsertAt(s, Pos(s, x.Rank()), x), lo, hi)
    ensures
      var (l, r) := SplitLeaf(s, x, last);
      CleanCut(l, r, NKEYS) && Halves(InsertAt(s, Pos(s, x.Rank()), x), l, r, lo, hi, k)
  {
    SplitLeafCorrect(s, x, last);
    var (l, r) := SplitLeaf(s, x, last);
    CleanHalves(InsertAt(s, Pos(s, x.Rank()), x), l, r, lo, hi, k);
  }

  lemma CleanHalves(t: seq<Slot>, l: seq<Slot>, r: seq<Slot>, lo: nat, hi: nat, k: Key)
    requires t == l + r && SlotsOk(t, lo, hi) && CleanCut(l, r, NKEYS)
    ensures Halves(t, l, r, lo, hi, k)
  {
    Cut(l, r, lo, hi, k);
  }

  lemma SplitLeafOk(n: Node, x: Slot, lo: nat, hi: nat, k: Key)
    requires n.Leaf? && NodeOk(n, lo, hi) && |n.slots| == NKEYS && x.len <= 9
    requires SlotsOk(InsertAt(n.slots, Pos(n.slots, x.Rank()), x), lo, hi)
    ensures PutInLeaf(n, x, lo, hi).Split?
    ensures ResultOk(n, PutInLeaf(n, x, lo, hi), lo, hi)
    ensures GetIn(PutInLeaf(n, x, lo, hi), k) == Get(Leaf(lo, InsertAt(n.slots, Pos(n.slots, x.Rank()), x)), k)
  {
    assert SlotsOk(n.slots, lo, hi);
    SplitLeafHalves(n.slots, x, lo, hi, hi == SLICE_LIMIT, k);
    var (l, r) := SplitLeaf(n.slots, x, hi == SLICE_LIMIT);
    assert NodeOk(Leaf(lo, l), lo, r[0].slice) && NodeOk(Leaf(r[0].slice, r), r[0].slice, hi);
    assert LeafGet(InsertAt(n.slots, Pos(n.slots, x.Rank()), x), k) ==
           if Slice(k) < r[0].slice then LeafGet(l, k) else LeafGet(r, k);
  }

  lemma PutInLeafOk(n: Node, x: Slot, lo: nat, hi: nat)
    requires n.Leaf? && NodeOk(n, lo, hi) && SlotOk(x) && lo <= x.slice < hi
    requires At(n.slots, x.Rank()).None?
    ensures ResultOk(n, PutInLeaf(n, x, lo, hi), lo, hi)
  {
    assert SlotsOk(n.slots, lo, hi);
    AfterInsert(n.slots, x, lo, hi, 0);
    if |n.slots| == NKEYS {
      SplitLeafOk(n, x, lo, hi, []);
    }
  }

  /** The three cases of an internal split all cut the grown arrays at separator NMIN. */
  lemma PutInInternalCut(keys: seq<nat>, kids: seq<Node>, c: nat, a: Node, mk: nat, b: Node)
    requires |kids| == |keys| + 1 && |keys| <= NKEYS && c < |kids|
    ensures
      var gk, gc := GrowKeys(keys, c, mk), GrowKids(kids, c, a, b);
      PutInInternal(keys, kids, c, a, mk, b) ==
      if |keys| < NKEYS then Mod(Internal(gk, gc))
      else Split(Internal(gk[..NMIN], gc[..NMIN + 1]), gk[NMIN], Internal(gk[NMIN + 1..], gc[NMIN + 1..]))
  {
    var gk, gc := GrowKeys(keys, c, mk), GrowKids(kids, c, a, b);
    var ch := kids[c := a];
    assert gc == ch[..c + 1] + [b] + ch[c + 1..];
    if |keys| == NKEYS {
      InsertSlices(keys, c, mk, NMIN);
      InsertSlices(keys, c, mk, NMIN + 1);
      InsertSlices(ch, c + 1, b, NMIN + 1);
      assert c == NMIN ==> ch[NMIN + 1..c + 1] + [b] + ch[c + 1..] == [b] + ch[NMIN + 1..];
    }
  }

  /** Prefix and suffix of a sequence with one element added at c. */
  lemma InsertSlices<T>(s: seq<T>, c: nat, x: T, m: nat)
    requires c <= |s| && m <= |s|
    ensures
      var g := s[..c] + [x] + s[c..];
      && |g| == |s| + 1
      && (forall i :: 0 <= i < |g| ==> g[i] == if i < c then s[i] else if i == c then x else s[i - 1])
      && (c < m ==> g[..m] == s[..c] + [x] + s[c..m - 1] && g[m..] == s[m - 1..])
      && (c >= m ==> g[..m] == s[..m] && g[m..] == s[m..c] + [x] + s[c..])
  {
  }

  lemma HalvesOk(keys: seq<nat>, kids: seq<Node>, lo: nat, hi: nat, h: nat)
    requires KidsOk(keys, kids, lo, hi, h) && |keys| == NKEYS + 1
    ensures
      var a, b := Internal(keys[..NMIN], kids[..NMIN + 1]), Internal(keys[NMIN + 1..], kids[NMIN + 1..]);
      && lo < keys[NMIN] < hi
      && NodeOk(a, lo, keys[NMIN]) && Filled(a) && Height(a) == h + 1
      && NodeOk(b, keys[NMIN], hi) && Filled(b) && Height(b) == h + 1
  {
    KidsCut(keys, kids, NMIN, lo, hi, h);
    InternalOk(keys[..NMIN], kids[..NMIN + 1], lo, keys[NMIN], h);
    InternalOk(keys[NMIN + 1..], kids[NMIN + 1..], keys[NMIN], hi, h);
  }

  lemma PutInInternalOk(n: Node, c: nat, a: Node, mk: nat, b: Node, lo: nat, hi: nat)
    requires n.Internal? && NodeOk(n, lo, hi) && c < |n.kids|
    requires ResultOk(n.kids[c], Split(a, mk, b), Lo(n.keys, c, lo), Hi(n.keys, c, hi))
    ensures ResultOk(n, PutInInternal(n.keys, n.kids, c, a, mk, b), lo, hi)
  {
    var h := Height(n.kids[0]);
    assert KidsOk(n.keys, n.kids, lo, hi, h);
    PutInInternalCut(n.keys, n.kids, c, a, mk, b);
    var gk, gc := GrowKeys(n.keys, c, mk), GrowKids(n.kids, c, a, b);
    KidsGrow(n.keys, n.kids, c, mk, a, b, lo, hi, h);
    if |n.keys| == NKEYS {
      HalvesOk(gk, gc, lo, hi, h);
    } else {
      InternalOk(gk, gc, lo, hi, h);
    }
  }

  /** A slot of the new layer and the new key always differ, so the key is added there. */
  lemma {:induction false} NewLayerTakesKey(x: Slot, k: Key, v: Value, onlyIfAbsent: bool)
    requires x.vn.Val? && |x.suffix| >= 1 && |k| > 8 && x.suffix != Shift(k)
    ensures NodeOk(NewLayer(x), 0, SLICE_LIMIT)
    ensures Insert0(NewLayer(x), Shift(k), v, onlyIfAbsent, 0, SLICE_LIMIT).Mod?
    decreases |k|
  {
    var n, k' := NewLayer(x), Shift(k);
    var y := n.slots[0];
    assert SlotOk(y) && SlotsOk(n.slots, 0, SLICE_LIMIT);
    var p := Pos(n.slots, KeyRank(k'));
    if p > 0 && Matches(n.slots[p - 1], k') {
      RankDecidesPrefix(x.suffix, k');
      NewLayerTakesKey(y, k', v, onlyIfAbsent);
    }
  }

  lemma {:induction false} InsertPreserves(n: Node, k: Key, v: Value, onlyIfAbsent: bool, lo: nat, hi: nat)
    requires NodeOk(n, lo, hi) && lo <= Slice(k) < hi
    ensures ResultOk(n, Insert0(n, k, v, onlyIfAbsent, lo, hi), lo, hi)
    decreases |k|, n
  {
    match n
    case Leaf(_, slots) =>
      var p := Pos(slots, KeyRank(k));
      if p > 0 && Matches(slots[p - 1], k) {
        MatchPreserves(n, p - 1, k, v, onlyIfAbsent, lo, hi);
      } else {
        PutInLeafOk(n, NewSlot(k, v), lo, hi);
      }
    case Internal(_, _) => KidPreserves(n, k, v, onlyIfAbsent, lo, hi);
  }

  lemma {:induction false} KidPreserves(n: Node, k: Key, v: Value, onlyIfAbsent: bool, lo: nat, hi: nat)
    requires n.Internal? && NodeOk(n, lo, hi) && lo <= Slice(k) < hi
    ensures ResultOk(n, Insert0(n, k, v, onlyIfAbsent, lo, hi), lo, hi)
    decreases |k|, n, 0
  {
    var keys, kids, c := n.keys, n.kids, ChildIdx(n.keys, Slice(k));
    assert KidsOk(keys, kids, lo, hi, Height(kids[0]));
    InsertPreserves(kids[c], k, v, onlyIfAbsent, Lo(keys, c, lo), Hi(keys, c, hi));
    RebuildOk(n, c, Insert0(kids[c], k, v, onlyIfAbsent, Lo(keys, c, lo), Hi(keys, c, hi)), lo, hi);
  }

  lemma RebuildOk(n: Node, c: nat, res: InsertResult, lo: nat, hi: nat)
    requires n.Internal? && NodeOk(n, lo, hi) && c < |n.kids|
    requires ResultOk(n.kids[c], res, Lo(n.keys, c, lo), Hi(n.keys, c, hi))
    ensures ResultOk(n, Rebuild(n, c, res), lo, hi)
  {
    if res.Split? {
      PutInInternalOk(n, c, res.left, res.mk, res.right, lo, hi);
    } else {
      var h := Height(n.kids[0]);
      assert KidsOk(n.keys, n.kids, lo, hi, h);
      KidsReplace(n.keys, n.kids, c, res.node, lo, hi, h);
      InternalOk(n.keys, n.kids[c := res.node], lo, hi, h);
    }
  }

  lemma {:induction false} MatchPreserves(n: Node, i: nat, k: Key, v: Value, onlyIfAbsent: bool, lo: nat, hi: nat)
    requires n.Leaf? && NodeOk(n, lo, hi) && i < |n.slots| && Matches(n.slots[i], k)
    ensures ResultOk(n, InsertAtMatch(n, i, k, v, onlyIfAbsent, lo, hi), lo, hi)
    decreases |k|, n, 0
  {
    var x := n.slots[i];
    assert SlotsOk(n.slots, lo, hi) && SlotOk(x);
    if |k| <= 8 || (x.vn.Val? && x.suffix == Shift(k)) {
      SetSlotOk(n, i, x.(vn := Val(v)), lo, hi);
    } else {
      match x.vn
      case Layer(root) =>
        InsertPreserves(root, Shift(k), v, onlyIfAbsent, 0, SLICE_LIMIT);
        match Insert0(root, Shift(k), v, onlyIfAbsent, 0, SLICE_LIMIT) {
          case NoMod(m, _) => SetSlotOk(n, i, x.(vn := Layer(m)), lo, hi);
          case Mod(m) => SetSlotOk(n, i, x.(vn := Layer(m)), lo, hi);
          case Split(a, mk, b) =>
            NewRootOk(a, mk, b);
            SetSlotOk(n, i, x.(vn := Layer(Internal([mk], [a, b]))), lo, hi);
        }
      case Val(_) =>
        NewLayerTakesKey(x, k, v, onlyIfAbsent);
        InsertPreserves(NewLayer(x), Shift(k), v, onlyIfAbsent, 0, SLICE_LIMIT);
        var m := Insert0(NewLayer(x), Shift(k), v, onlyIfAbsent, 0, SLICE_LIMIT).node;
        SetSlotOk(n, i, x.(suffix := [], vn := Layer(m)), lo, hi);
    }
  }

  /** Root growth: the halves of a split root under a new root. */
  lemma NewRootOk(a: Node, mk: nat, b: Node)
    requires 0 < mk < SLICE_LIMIT && Height(a) == Height(b)
    requires NodeOk(a, 0, mk) && Filled(a) && NodeOk(b, mk, SLICE_LIMIT) && Filled(b)
    ensures NodeOk(Internal([mk], [a, b]), 0, SLICE_LIMIT)
  {
    var keys, kids := [mk], [a, b];
    assert forall i :: 0 <= i < 2 ==> NodeOk(kids[i], Lo(keys, i, 0), Hi(keys, i, SLICE_LIMIT));
    InternalOk(keys, kids, 0, SLICE_LIMIT, Height(a));
  }

  // ---- insert0 refines map update ----

  /** What a finite map holds at k' after key k, now bound to `was`, is inserted. */
  function MapAfter(was: Option<Value>, v: Value, onlyIfAbsent: bool): Option<Value> {
    if onlyIfAbsent && was.Some? then was else Some(v)
  }

  /** The outcome agrees with the updated map at k', and the status says whether k was bound. */
  ghost predicate Refines(n: Node, res: InsertResult, k: Key, v: Value, onlyIfAbsent: bool, k': Key) {
    && GetIn(res, k') == (if k' == k then MapAfter(Get(n, k), v, onlyIfAbsent) else Get(n, k'))
    && (res.NoMod? <==> Get(n, k).Some?)
    && (res.NoMod? ==> Get(n, k) == Some(res.was))
  }

  lemma LeafInsertGet(n: Node, k: Key, v: Value, lo: nat, hi: nat, k': Key)
    requires n.Leaf? && NodeOk(n, lo, hi) && lo <= Slice(k) < hi
    requires At(n.slots, KeyRank(k)).None?
    ensures SlotsOk(InsertAt(n.slots, Pos(n.slots, KeyRank(k)), NewSlot(k, v)), lo, hi)
    ensures Get(Leaf(lo, InsertAt(n.slots, Pos(n.slots, KeyRank(k)), NewSlot(k, v))), k') ==
            if k' == k then Some(v) else Get(n, k')
  {
    assert SlotsOk(n.slots, lo, hi);
    AfterInsert(n.slots, NewSlot(k, v), lo, hi, KeyRank(k'));
    var t := InsertAt(n.slots, Pos(n.slots, KeyRank(k)), NewSlot(k, v));
    if KeyRank(k') == KeyRank(k) {
      RankDecidesPrefix(k, k');
      assert LeafGet(t, k') == SlotGet(NewSlot(k, v), k');
    } else {
      assert LeafGet(t, k') == LeafGet(n.slots, k');
    }
  }

  lemma PutInLeafRefines(n: Node, k: Key, v: Value, onlyIfAbsent: bool, lo: nat, hi: nat, k': Key)
    requires n.Leaf? && NodeOk(n, lo, hi) && lo <= Slice(k) < hi
    requires At(n.slots, KeyRank(k)).None?
    ensures Refines(n, PutInLeaf(n, NewSlot(k, v), lo, hi), k, v, onlyIfAbsent, k')
  {
    LeafInsertGet(n, k, v, lo, hi, k');
    if |n.slots| == NKEYS {
      SplitLeafOk(n, NewSlot(k, v), lo, hi, k');
    }
  }

  lemma NewLayerHolds(x: Slot, k: Key)
    requires x.vn.Val? && |k| > 8
    ensures Get(NewLayer(x), Shift(k)) == SlotGet(x, k)
  {
    var n, k' := NewLayer(x), Shift(k);
    var y := n.slots[0];
    if KeyRank(k') == y.Rank() {
      RankDecidesPrefix(x.suffix, k');
      assert LeafGet(n.slots, k') == SlotGet(y, k');
    } else {
      assert LeafGet(n.slots, k') == None;
    }
  }

  lemma {:induction false} InsertRefines(n: Node, k: Key, v: Value, onlyIfAbsent: bool, lo: nat, hi: nat, k': Key)
    requires NodeOk(n, lo, hi) && lo <= Slice(k) < hi && lo <= Slice(k') < hi
    ensures Refines(n, Insert0(n, k, v, onlyIfAbsent, lo, hi), k, v, onlyIfAbsent, k')
    decreases |k|, n
  {
    if n.Leaf? {
      LeafRefines(n, k, v, onlyIfAbsent, lo, hi, k');
    } else {
      KidRefines(n, k, v, onlyIfAbsent, lo, hi, k');
    }
  }

  lemma {:induction false} LeafRefines(n: Node, k: Key, v: Value, onlyIfAbsent: bool, lo: nat, hi: nat, k': Key)
    requires n.Leaf? && NodeOk(n, lo, hi) && lo <= Slice(k) < hi
    ensures Refines(n, Insert0(n, k, v, onlyIfAbsent, lo, hi), k, v, onlyIfAbsent, k')
    decreases |k|, n, 2
  {
    var p := Pos(n.slots, KeyRank(k));
    if p > 0 && Matches(n.slots[p - 1], k) {
      MatchRefines(n, p - 1, k, v, onlyIfAbsent, lo, hi, k');
    } else {
      PutInLeafRefines(n, k, v, onlyIfAbsent, lo, hi, k');
    }
  }

  lemma {:induction false} KidRefines(n: Node, k: Key, v: Value, onlyIfAbsent: bool, lo: nat, hi: nat, k': Key)
    requires n.Internal? && NodeOk(n, lo, hi) && lo <= Slice(k) < hi && lo <= Slice(k') < hi
    ensures Refines(n, Insert0(n, k, v, onlyIfAbsent, lo, hi), k, v, onlyIfAbsent, k')
    decreases |k|, n, 0
  {
    var keys, kids := n.keys, n.kids;
    var c, c' := ChildIdx(keys, Slice(k)), ChildIdx(keys, Slice(k'));
    assert KidsOk(keys, kids, lo, hi, Height(kids[0]));
    InsertRefines(kids[c], k, v, onlyIfAbsent, Lo(keys, c, lo), Hi(keys, c, hi), if c' == c then k' else k);
    InsertPreserves(kids[c], k, v, onlyIfAbsent, Lo(keys, c, lo), Hi(keys, c, hi));
    InternalRefines(n, Insert0(kids[c], k, v, onlyIfAbsent, Lo(keys, c, lo), Hi(keys, c, hi)), k, v, onlyIfAbsent,
                    lo, hi, k');
  }

  /** The internal case, once the child has done its part. */
  lemma InternalRefines(n: Node, res: InsertResult, k: Key, v: Value, onlyIfAbsent: bool, lo: nat, hi: nat, k': Key)
    requires n.Internal? && |n.kids| == |n.keys| + 1 && |n.keys| <= NKEYS && Ascending(n.keys)
    requires
      var c := ChildIdx(n.keys, Slice(k));
      && (res.Split? ==> Lo(n.keys, c, lo) < res.mk < Hi(n.keys, c, hi))
      && Refines(n.kids[c], res, k, v, onlyIfAbsent, if ChildIdx(n.keys, Slice(k')) == c then k' else k)
    ensures Refines(n, Rebuild(n, ChildIdx(n.keys, Slice(k)), res), k, v, onlyIfAbsent, k')
  {
    var c, c' := ChildIdx(n.keys, Slice(k)), ChildIdx(n.keys, Slice(k'));
    assert Get(n, k) == Get(n.kids[c], k) && Get(n, k') == Get(n.kids[c'], k');
    if res.Split? {
      LookRoutes(k');
      PutInInternalGet(n.keys, n.kids, c, res.left, res.mk, res.right, Look(k'), Slice(k'));
    }
  }

  lemma PutInInternalGet(keys: seq<nat>, kids: seq<Node>, c: nat, a: Node, mk: nat, b: Node, g: Node -> Option<Value>,
                         s: nat)
    requires |kids| == |keys| + 1 && |keys| <= NKEYS && c < |kids| && Ascending(keys) && Routes(g, s)
    requires c > 0 ==> keys[c - 1] < mk
    requires c < |keys| ==> mk < keys[c]
    ensures !PutInInternal(keys, kids, c, a, mk, b).NoMod?
    ensures InBy(PutInInternal(keys, kids, c, a, mk, b), g, s) ==
            var i := ChildIdx(keys, s);
            if i == c then Side(s, mk, g(a), g(b)) else g(kids[i])
  {
    var gk, gc := GrowKeys(keys, c, mk), GrowKids(kids, c, a, b);
    PutInInternalCut(keys, kids, c, a, mk, b);
    RouteGrow(keys, kids, c, mk, a, b, s);
    if |keys| == NKEYS {
      GrowAscending(keys, c, mk);
      RouteCut(gk, gc, NMIN, s);
    }
  }

  /** The slot holds k itself. */
  lemma OverwriteRefines(n: Node, i: nat, k: Key, v: Value, onlyIfAbsent: bool, lo: nat, hi: nat, k': Key)
    requires n.Leaf? && NodeOk(n, lo, hi) && i < |n.slots| && Matches(n.slots[i], k) && SlotOk(n.slots[i])
    requires |k| <= 8 || (n.slots[i].vn.Val? && n.slots[i].suffix == Shift(k))
    ensures Refines(n, InsertAtMatch(n, i, k, v, onlyIfAbsent, lo, hi), k, v, onlyIfAbsent, k')
  {
    var x := n.slots[i];
    GetAfterSetSlot(n, i, x, lo, hi, k);
    GetAfterSetSlot(n, i, x.(vn := Val(v)), lo, hi, k');
    if KeyRank(k') == KeyRank(k) {
      RankDecidesPrefix(k, k');
    }
  }

  /** The slot answers the lookups of its rank as the layer below it does. */
  ghost predicate Below(n: Node, i: nat, k: Key, root: Node, k': Key)
    requires n.Leaf? && i < |n.slots|
  {
    && |k| > 8 && Get(n, k) == Get(root, Shift(k))
    && (KeyRank(k') == KeyRank(k) ==>
          |k'| > 8 && (k' == k <==> Shift(k') == Shift(k)) && SlotGet(n.slots[i], k') == Get(root, Shift(k')))
  }

  lemma BelowSlot(n: Node, i: nat, k: Key, lo: nat, hi: nat, root: Node, k': Key)
    requires n.Leaf? && NodeOk(n, lo, hi) && i < |n.slots| && Matches(n.slots[i], k) && SlotOk(n.slots[i])
    requires |k| > 8 && LayerOf(n.slots[i], root)
    ensures Below(n, i, k, root, k')
  {
    var x := n.slots[i];
    GetAfterSetSlot(n, i, x, lo, hi, k);
    if x.vn.Val? {
      NewLayerHolds(x, k);
    }
    if KeyRank(k') == KeyRank(k) {
      RankDecidesPrefix(k, k');
      if x.vn.Val? {
        NewLayerHolds(x, k');
      }
    }
  }

  lemma {:induction false} BelowRefines(n: Node, i: nat, k: Key, v: Value, onlyIfAbsent: bool, lo: nat, hi: nat,
                                        k': Key)
    requires n.Leaf? && NodeOk(n, lo, hi) && i < |n.slots| && Matches(n.slots[i], k) && SlotOk(n.slots[i])
    requires |k| > 8 && !(n.slots[i].vn.Val? && n.slots[i].suffix == Shift(k))
    ensures Refines(n, InsertAtMatch(n, i, k, v, onlyIfAbsent, lo, hi), k, v, onlyIfAbsent, k')
    decreases |k|, n, 0
  {
    var x, l := n.slots[i], Shift(k);
    var root := if x.vn.Layer? then x.vn.root else NewLayer(x);
    if x.vn.Val? {
      NewLayerTakesKey(x, k, v, onlyIfAbsent);
    }
    // lookups of k and k' below this slot, or of k alone when k' is elsewhere
    InsertRefines(root, l, v, onlyIfAbsent, 0, SLICE_LIMIT, if KeyRank(k') == KeyRank(k) then Shift(k') else l);
    InsertPreserves(root, l, v, onlyIfAbsent, 0, SLICE_LIMIT);
    MatchInLayer(n, i, k, v, onlyIfAbsent, lo, hi, root);
    BelowSlot(n, i, k, lo, hi, root, k');
    LayerRefines(n, i, k, v, onlyIfAbsent, lo, hi, k', root, Insert0(root, l, v, onlyIfAbsent, 0, SLICE_LIMIT));
  }

  lemma {:induction false} MatchRefines(n: Node, i: nat, k: Key, v: Value, onlyIfAbsent: bool, lo: nat, hi: nat,
                                        k': Key)
    requires n.Leaf? && NodeOk(n, lo, hi) && i < |n.slots| && Matches(n.slots[i], k)
    ensures Refines(n, InsertAtMatch(n, i, k, v, onlyIfAbsent, lo, hi), k, v, onlyIfAbsent, k')
    decreases |k|, n, 1
  {
    assert SlotsOk(n.slots, lo, hi) && SlotOk(n.slots[i]);
    if |k| <= 8 || (n.slots[i].vn.Val? && n.slots[i].suffix == Shift(k)) {
      OverwriteRefines(n, i, k, v, onlyIfAbsent, lo, hi, k');
    } else {
      BelowRefines(n, i, k, v, onlyIfAbsent, lo, hi, k');
    }
  }

  /** The layer below slot i before the insert. */
  ghost predicate LayerOf(x: Slot, root: Node) {
    if x.vn.Layer? then root == x.vn.root else root == NewLayer(x)
  }

  /** The root of the layer after the insert. */
  function Rooted(res: InsertResult): Node {
    match res
    case NoMod(m, _) => m
    case Mod(m) => m
    case Split(a, mk, b) => Internal([mk], [a, b])
  }

  lemma RootedCorrect(root: Node, res: InsertResult, k: Key)
    requires ResultOk(root, res, 0, SLICE_LIMIT)
    ensures NodeOk(Rooted(res), 0, SLICE_LIMIT)
    ensures Get(Rooted(res), k) == GetIn(res, k)
  {
    if res.Split? {
      NewRootOk(res.left, res.mk, res.right);
      NewRootGet(res.left, res.mk, res.right, k);
    }
  }

  /** The leaf after the layer below slot i has been inserted into. */
  function LayerResult(n: Node, i: nat, res: InsertResult): InsertResult
    requires n.Leaf? && i < |n.slots|
  {
    var x := n.slots[i];
    var y := (if x.vn.Layer? then x else x.(suffix := [])).(vn := Layer(Rooted(res)));
    if res.NoMod? then NoMod(SetSlot(n, i, y), res.was) else Mod(SetSlot(n, i, y))
  }

  lemma MatchInLayer(n: Node, i: nat, k: Key, v: Value, onlyIfAbsent: bool, lo: nat, hi: nat, root: Node)
    requires n.Leaf? && NodeOk(n, lo, hi) && i < |n.slots| && Matches(n.slots[i], k)
    requires |k| > 8 && LayerOf(n.slots[i], root) && NodeOk(root, 0, SLICE_LIMIT)
    requires !(n.slots[i].vn.Val? && n.slots[i].suffix == Shift(k))
    requires n.slots[i].vn.Val? ==> Insert0(root, Shift(k), v, onlyIfAbsent, 0, SLICE_LIMIT).Mod?
    ensures InsertAtMatch(n, i, k, v, onlyIfAbsent, lo, hi) ==
            LayerResult(n, i, Insert0(root, Shift(k), v, onlyIfAbsent, 0, SLICE_LIMIT))
  {
  }

  /** The layer case, once the layer has done its part. */
  lemma LayerRefines(n: Node, i: nat, k: Key, v: Value, onlyIfAbsent: bool, lo: nat, hi: nat, k': Key,
                     root: Node, res: InsertResult)
    requires n.Leaf? && NodeOk(n, lo, hi) && i < |n.slots| && Matches(n.slots[i], k)
    requires SlotOk(n.slots[i]) && Below(n, i, k, root, k')
    requires ResultOk(root, res, 0, SLICE_LIMIT)
    requires Refines(root, res, Shift(k), v, onlyIfAbsent, if KeyRank(k') == KeyRank(k) then Shift(k') else Shift(k))
    ensures Refines(n, LayerResult(n, i, res), k, v, onlyIfAbsent, k')
  {
    LayerSlotGet(n, i, k, lo, hi, k', root, res);
    GetAfterSetSlot(n, i, n.slots[i], lo, hi, k');
  }

  /** A lookup after the slot has got its new layer. */
  lemma LayerSlotGet(n: Node, i: nat, k: Key, lo: nat, hi: nat, k': Key, root: Node, res: InsertResult)
    requires n.Leaf? && NodeOk(n, lo, hi) && i < |n.slots| && Matches(n.slots[i], k) && SlotOk(n.slots[i])
    requires |k| > 8 && (KeyRank(k') == KeyRank(k) ==> |k'| > 8) && ResultOk(root, res, 0, SLICE_LIMIT)
    ensures GetIn(LayerResult(n, i, res), k') ==
            if KeyRank(k') == KeyRank(k) then GetIn(res, Shift(k')) else Get(n, k')
  {
    var x := n.slots[i];
    RootedCorrect(root, res, Shift(if KeyRank(k') == KeyRank(k) then k' else k));
    var y := (if x.vn.Layer? then x else x.(suffix := [])).(vn := Layer(Rooted(res)));
    LayerSlotOk(if x.vn.Layer? then x else x.(suffix := []), Rooted(res));
    GetAfterSetSlot(n, i, y, lo, hi, k');
  }

  lemma NewRootGet(a: Node, mk: nat, b: Node, k: Key)
    ensures Get(Internal([mk], [a, b]), k) == if Slice(k) < mk then Get(a, k) else Get(b, k)
  {
    ChildIdxUnique([mk], Slice(k), if Slice(k) < mk then 0 else 1);
  }
}
