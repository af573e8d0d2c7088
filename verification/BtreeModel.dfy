/** One node and one layer of the silo B+-tree as values
    (bench/servers/silo/btree.h, btree_impl.h): data model, tree invariant and lookup. */
module BtreeModel {
  import opened Options
  import opened Varkey

  const NKEYS: nat := 15    // NKeysPerNode
  const NMIN: nat := 7      // NMinKeysPerNode

  /** `value_type` is an opaque pointer. */
  type Value = nat

  datatype Payload = Val(v: Value) | Layer(root: Node)

  /** One leaf slot: key slice, slice length, suffix of a long key, value or next layer. */
  datatype Slot = Slot(slice: nat, len: nat, suffix: Key, vn: Payload) {
    function Rank(): nat { Varkey.Rank(slice, len) }
  }

  datatype Node =
    | Leaf(minKey: nat, slots: seq<Slot>)
    | Internal(keys: seq<nat>, kids: seq<Node>)

  // ---- searching inside one node ----

  ghost predicate Sorted(s: seq<Slot>) {
    forall i, j :: 0 <= i < j < |s| ==> s[i].Rank() < s[j].Rank()
  }

  ghost predicate Ascending(keys: seq<nat>) {
    forall i, j :: 0 <= i < j < |keys| ==> keys[i] < keys[j]
  }

  /** Number of leading slots ranked at most r: `lenlowerbound + 1`. */
  function Pos(s: seq<Slot>, r: nat): (p: nat)
    ensures p <= |s|
    ensures forall i :: 0 <= i < p ==> s[i].Rank() <= r
    ensures p < |s| ==> r < s[p].Rank()
  {
    PosFrom(s, r, 0)
  }

  function PosFrom(s: seq<Slot>, r: nat, j: nat): (p: nat)
    requires j <= |s|
    ensures j <= p <= |s|
    ensures forall i :: j <= i < p ==> s[i].Rank() <= r
    ensures p < |s| ==> r < s[p].Rank()
    decreases |s| - j
  {
    if j == |s| || r < s[j].Rank() then j else PosFrom(s, r, j + 1)
  }

  /** The slot ranked r, if any. */
  function At(s: seq<Slot>, r: nat): (o: Option<Slot>)
    ensures o.Some? ==> o.value in s && o.value.Rank() == r
  {
    var p := Pos(s, r);
    if p > 0 && s[p - 1].Rank() == r then Some(s[p - 1]) else None
  }

  lemma AtIsMembership(s: seq<Slot>, r: nat)
    requires Sorted(s)
    ensures forall x :: x in s && x.Rank() == r ==> At(s, r) == Some(x)
  {
    forall x | x in s && x.Rank() == r
      ensures At(s, r) == Some(x)
    {
      var i :| 0 <= i < |s| && s[i] == x;
      var p := Pos(s, r);
      assert i < p;
    }
  }

  /** Number of leading separators at most s: the child responsible for slice s. */
  function ChildIdx(keys: seq<nat>, s: nat): (c: nat)
    ensures c <= |keys|
    ensures forall i :: 0 <= i < c ==> keys[i] <= s
    ensures c < |keys| ==> s < keys[c]
  {
    ChildIdxFrom(keys, s, 0)
  }

  function ChildIdxFrom(keys: seq<nat>, s: nat, j: nat): (c: nat)
    requires j <= |keys|
    ensures j <= c <= |keys|
    ensures forall i :: j <= i < c ==> keys[i] <= s
    ensures c < |keys| ==> s < keys[c]
    decreases |keys| - j
  {
    if j == |keys| || s < keys[j] then j else ChildIdxFrom(keys, s, j + 1)
  }

  lemma ChildIdxUnique(keys: seq<nat>, s: nat, c: nat)
    requires Ascending(keys)
    requires c <= |keys|
    requires c > 0 ==> keys[c - 1] <= s
    requires c < |keys| ==> s < keys[c]
    ensures ChildIdx(keys, s) == c
  {
  }

  // ---- the tree invariant (node::invariant_checker) ----

  /** Lower end of the range of child i. */
  function Lo(keys: seq<nat>, i: nat, lo: nat): nat
    requires i <= |keys|
  {
    if i == 0 then lo else keys[i - 1]
  }

  /** Upper end (exclusive) of the range of child i. */
  function Hi(keys: seq<nat>, i: nat, hi: nat): nat
    requires i <= |keys|
  {
    if i == |keys| then hi else keys[i]
  }

  function Height(n: Node): nat {
    if n.Leaf? || |n.kids| == 0 then 0 else 1 + Height(n.kids[0])
  }

  /** Minimum fill of a node that is not the root of its layer. */
  predicate Filled(n: Node) {
    if n.Leaf? then |n.slots| >= 1 else |n.keys| >= NMIN
  }

  ghost predicate SlotOk(x: Slot)
    decreases x
  {
    && x.len <= 9
    && x.slice < SLICE_LIMIT
    && (x.vn.Layer? ==> x.len == 9 && NodeOk(x.vn.root, 0, SLICE_LIMIT))
    && (x.vn.Val? && x.len == 9 ==> |x.suffix| >= 1)
  }

  /** Strictly sorted slots with slices in [lo, hi). */
  ghost predicate Ranked(s: seq<Slot>, lo: nat, hi: nat) {
    Sorted(s) && forall i :: 0 <= i < |s| ==> lo <= s[i].slice < hi && s[i].len <= 9
  }

  ghost predicate SlotsOk(s: seq<Slot>, lo: nat, hi: nat)
    decreases s, 0
  {
    Ranked(s, lo, hi) && forall x :: x in s ==> SlotOk(x)
  }

  /** n is a well-formed (sub)tree responsible for the slices in [lo, hi). A missing bound of
      the code is 0 or SLICE_LIMIT here. */
  ghost predicate NodeOk(n: Node, lo: nat, hi: nat)
    decreases n
  {
    match n
    case Leaf(minKey, slots) =>
      minKey == lo && |slots| <= NKEYS && SlotsOk(slots, lo, hi)
    case Internal(keys, kids) =>
      1 <= |keys| <= NKEYS && |kids| == |keys| + 1 && KidsOk(keys, kids, lo, hi, Height(kids[0]))
  }

  /** Children of an internal node: ascending separators, each child in its own range, filled,
      and all of the same height h. */
  ghost predicate KidsOk(keys: seq<nat>, kids: seq<Node>, lo: nat, hi: nat, h: nat)
    decreases kids, 0
  {
    && |kids| == |keys| + 1
    && Ascending(keys)
    && (forall i :: 0 <= i < |keys| ==> lo < keys[i] < hi)
    && (forall i :: 0 <= i < |kids| ==>
          Filled(kids[i]) && Height(kids[i]) == h && NodeOk(kids[i], Lo(keys, i, lo), Hi(keys, i, hi)))
  }

  // ---- lookup ----

  /** `search_impl`: descend the layer, then compare the suffix or enter the next layer. */
  function Get(n: Node, k: Key): Option<Value>
    decreases |k|, n
  {
    match n
    case Leaf(_, slots) => LeafGet(slots, k)
    case Internal(keys, kids) =>
      var c := ChildIdx(keys, Slice(k));
      if c < |kids| then Get(kids[c], k) else None
  }

  function LeafGet(s: seq<Slot>, k: Key): Option<Value>
    decreases |k|, s
  {
    match At(s, KeyRank(k))
    case None => None
    case Some(x) => SlotGet(x, k)
  }

  function SlotGet(x: Slot, k: Key): Option<Value>
    decreases |k|, x
  {
    match x.vn
    case Layer(root) => if |k| > 8 then Get(root, Shift(k)) else None
    case Val(v) => if |k| > 8 && x.suffix != Shift(k) then None else Some(v)
  }
}
