/** The tree behind `btree<P>` (bench/servers/silo/btree.h, btree_impl.h): the root, its
    operations, and the theorem that any run of operations is a run on a finite map. */
module Btree {
  import opened Options
  import opened Varkey
  import opened BtreeModel
  import opened BtreeKids
  import opened BtreeLeaf
  import I = BtreeInsert
  import R = BtreeRemove

  datatype Op = Search(k: Key) | Insert(k: Key, v: Value) | InsertIfAbsent(k: Key, v: Value) | Remove(k: Key)

  /** The boolean an operation returns and the value it hands back, if any. */
  datatype Out = Out(ok: bool, was: Option<Value>)

  const EMPTY: Node := Leaf(0, [])

  ghost predicate Valid(root: Node) { NodeOk(root, 0, SLICE_LIMIT) }

  // ---- the operations on a root ----

  function InsertRoot(root: Node, k: Key, v: Value, onlyIfAbsent: bool): (Node, Out)
    requires Valid(root)
  {
    match I.Insert0(root, k, v, onlyIfAbsent, 0, SLICE_LIMIT)
    case NoMod(m, was) => (m, Out(false, Some(was)))
    case Mod(m) => (m, Out(true, None))
    case Split(a, mk, b) => (Internal([mk], [a, b]), Out(true, None))
  }

  function RemoveRoot(root: Node, k: Key): (Node, Out)
    requires Valid(root)
  {
    match R.Remove0(root, k, None, None, 0, SLICE_LIMIT, 0, 0)
    case Removed(m, was) => (m, Out(true, Some(was)))
    case Replaced(m, was) => (m, Out(true, Some(was)))
    case _ => (root, Out(false, None))
  }

  function Apply(root: Node, op: Op): (Node, Out)
    requires Valid(root)
  {
    match op
    case Search(k) => (root, Out(Get(root, k).Some?, Get(root, k)))
    case Insert(k, v) => InsertRoot(root, k, v, false)
    case InsertIfAbsent(k, v) => InsertRoot(root, k, v, true)
    case Remove(k) => RemoveRoot(root, k)
  }

  // ---- the same operations on a finite map ----

  function Bound<K, V>(m: map<K, V>, k: K): Option<V> {
    if k in m then Some(m[k]) else None
  }

  function MapApply(m: map<Key, Value>, op: Op): (map<Key, Value>, Out) {
    var was := Bound(m, op.k);
    match op
    case Search(k) => (m, Out(k in m, was))
    case Insert(k, v) => (m[k := v], Out(k !in m, was))
    case InsertIfAbsent(k, v) => (if k in m then m else m[k := v], Out(k !in m, was))
    case Remove(k) => (m - {k}, Out(k in m, was))
  }

  ghost predicate Represents(root: Node, m: map<Key, Value>) {
    Valid(root) && forall k :: Get(root, k) == Bound(m, k)
  }

  // ---- refinement ----

  lemma InsertStep(root: Node, k: Key, v: Value, onlyIfAbsent: bool, k': Key)
    requires Valid(root)
    ensures
      var (root', out) := InsertRoot(root, k, v, onlyIfAbsent);
      && Valid(root') && out == Out(Get(root, k).None?, Get(root, k))
      && Get(root', k') == if k' == k then I.MapAfter(Get(root, k), v, onlyIfAbsent) else Get(root, k')
  {
    var res := I.Insert0(root, k, v, onlyIfAbsent, 0, SLICE_LIMIT);
    I.InsertPreserves(root, k, v, onlyIfAbsent, 0, SLICE_LIMIT);
    I.InsertRefines(root, k, v, onlyIfAbsent, 0, SLICE_LIMIT, k');
    I.RootedCorrect(root, res, k');
    assert InsertRoot(root, k, v, onlyIfAbsent).0 == I.Rooted(res);
  }

  lemma RemoveStep(root: Node, k: Key, k': Key)
    requires Valid(root)
    ensures
      var (root', out) := RemoveRoot(root, k);
      && Valid(root') && out == Out(Get(root, k).Some?, Get(root, k))
      && Get(root', k') == if k' == k then None else Get(root, k')
  {
    R.RemovePreserves(root, k, None, None, 0, SLICE_LIMIT, 0, 0);
    R.RemoveRefines(root, k, None, None, 0, SLICE_LIMIT, 0, 0, k');
  }

  /** One operation on the tree does to the represented map what the map operation does, and
      returns the same. */
  lemma ApplyRefines(root: Node, m: map<Key, Value>, op: Op)
    requires Represents(root, m)
    ensures Represents(Apply(root, op).0, MapApply(m, op).0)
    ensures Apply(root, op).1 == MapApply(m, op).1
  {
    var root', m' := Apply(root, op).0, MapApply(m, op).0;
    StepAt(root, m, op, op.k);
    forall k ensures Get(root', k) == Bound(m', k) {
      StepAt(root, m, op, k);
    }
  }

  lemma StepAt(root: Node, m: map<Key, Value>, op: Op, k: Key)
    requires Valid(root) && Get(root, k) == Bound(m, k) && Get(root, op.k) == Bound(m, op.k)
    ensures Valid(Apply(root, op).0)
    ensures Apply(root, op).1 == MapApply(m, op).1
    ensures Get(Apply(root, op).0, k) == Bound(MapApply(m, op).0, k)
  {
    match op
    case Search(_) =>
    case Insert(_, v) => InsertStep(root, op.k, v, false, k);
    case InsertIfAbsent(_, v) => InsertStep(root, op.k, v, true, k);
    case Remove(_) => RemoveStep(root, op.k, k);
  }

  // ---- runs ----

  /** The outputs of the map specification. */
  function MapRun(m: map<Key, Value>, ops: seq<Op>): seq<Out>
    decreases |ops|
  {
    if ops == [] then [] else [MapApply(m, ops[0]).1] + MapRun(MapApply(m, ops[0]).0, ops[1..])
  }

  ghost function TreeRun(root: Node, ops: seq<Op>): seq<Out>
    requires Valid(root)
    decreases |ops|
  {
    if ops == [] then [] else
      var (root', out) := Apply(root, ops[0]);
      StepValid(root, ops[0]);
      [out] + TreeRun(root', ops[1..])
  }

  lemma StepValid(root: Node, op: Op)
    requires Valid(root)
    ensures Valid(Apply(root, op).0)
  {
    match op
    case Search(_) =>
    case Insert(k, v) => InsertStep(root, k, v, false, k);
    case InsertIfAbsent(k, v) => InsertStep(root, k, v, true, k);
    case Remove(k) => RemoveStep(root, k, k);
  }

  lemma {:induction false} RunRefines(root: Node, m: map<Key, Value>, ops: seq<Op>)
    requires Represents(root, m)
    ensures TreeRun(root, ops) == MapRun(m, ops)
    decreases |ops|
  {
    if ops != [] {
      ApplyRefines(root, m, ops[0]);
      RunRefines(Apply(root, ops[0]).0, MapApply(m, ops[0]).0, ops[1..]);
    }
  }

  lemma EmptyRepresents()
    ensures Represents(EMPTY, map[])
  {
    assert SlotsOk([], 0, SLICE_LIMIT);
    forall k ensures Get(EMPTY, k).None? {
      assert LeafGet([], k).None?;
    }
  }

  /** Any sequence of operations on a new tree returns what a finite map would. */
  lemma TreeIsMap(ops: seq<Op>)
    ensures Valid(EMPTY) && TreeRun(EMPTY, ops) == MapRun(map[], ops)
  {
    EmptyRepresents();
    RunRefines(EMPTY, map[], ops);
  }

  // ---- one level of a search ----

  lemma DescendStep(n: Node, lo: nat, hi: nat, k: Key)
    requires n.Internal? && NodeOk(n, lo, hi)
    ensures
      var c := ChildIdx(n.keys, Slice(k));
      c < |n.kids| && NodeOk(n.kids[c], Lo(n.keys, c, lo), Hi(n.keys, c, hi)) && Get(n, k) == Get(n.kids[c], k)
  {
    assert KidsOk(n.keys, n.kids, lo, hi, Height(n.kids[0]));
  }

  lemma LeafStep(n: Node, lo: nat, hi: nat, k: Key)
    requires n.Leaf? && NodeOk(n, lo, hi)
    ensures
      match BtreeModel.At(n.slots, KeyRank(k))
      case None => Get(n, k) == None
      case Some(x) =>
        && Get(n, k) == SlotGet(x, k)
        && (x.vn.Layer? ==> |k| > 8 && NodeOk(x.vn.root, 0, SLICE_LIMIT) && Get(n, k) == Get(x.vn.root, Shift(k)))
  {
    assert SlotsOk(n.slots, lo, hi);
    R.LeafNodeGet(n.minKey, n.slots, k);
    var x := BtreeModel.At(n.slots, KeyRank(k));
    if x.Some? {
      assert SlotOk(x.value);
      RankInjective(x.value, k);
    }
  }

  // ---- the tree as an object ----

  class Tree {
    var root: Node
    ghost var contents: map<Key, Value>

    ghost predicate Valid()
      reads this
    {
      Represents(root, contents)
    }

    constructor ()
      ensures Valid() && contents == map[]
    {
      EmptyRepresents();
      root, contents := EMPTY, map[];
    }

    /** `search_impl`: one cursor through internal nodes, leaves and layers. */
    method Search(k: Key) returns (found: bool, v: Value)
      requires Valid()
      ensures found == (k in contents)
      ensures found ==> v == contents[k]
    {
      var cur, kcur := root, k;
      ghost var lo: nat, hi: nat := 0, SLICE_LIMIT;
      v := 0;
      while true
        invariant Get(cur, kcur) == Bound(contents, k)
        invariant NodeOk(cur, lo, hi)
        decreases |kcur|, cur
      {
        match cur
        case Internal(keys, kids) =>
          var c := ChildIdx(keys, Slice(kcur));
          DescendStep(cur, lo, hi, kcur);
          cur, lo, hi := kids[c], Lo(keys, c, lo), Hi(keys, c, hi);
        case Leaf(_, slots) =>
          LeafStep(cur, lo, hi, kcur);
          var x := BtreeModel.At(slots, KeyRank(kcur));
          if x.None? {
            return false, 0;
          }
          match x.value.vn {
            case Val(w) =>
              if SliceLen(kcur) == 9 && x.value.suffix != Shift(kcur) {
                return false, 0;
              }
              return true, w;
            case Layer(next) =>
              cur, kcur, lo, hi := next, Shift(kcur), 0, SLICE_LIMIT;
          }
      }
    }

    /** `insert` and `insert_if_absent`. */
    method Insert(k: Key, v: Value, onlyIfAbsent: bool) returns (added: bool, was: Option<Value>)
      requires Valid()
      modifies this
      ensures Valid()
      ensures added == (k !in old(contents)) && was == Bound(old(contents), k)
      ensures contents == if onlyIfAbsent && !added then old(contents) else old(contents)[k := v]
    {
      ghost var op := if onlyIfAbsent then Op.InsertIfAbsent(k, v) else Op.Insert(k, v);
      ApplyRefines(root, contents, op);
      contents := MapApply(contents, op).0;
      var (root', out) := InsertRoot(root, k, v, onlyIfAbsent);
      root := root';
      added, was := out.ok, out.was;
    }

    method Remove(k: Key) returns (found: bool, was: Option<Value>)
      requires Valid()
      modifies this
      ensures Valid()
      ensures found == (k in old(contents)) && was == Bound(old(contents), k)
      ensures contents == old(contents) - {k}
    {
      ApplyRefines(root, contents, Op.Remove(k));
      contents := MapApply(contents, Op.Remove(k)).0;
      var (root', out) := RemoveRoot(root, k);
      root := root';
      found, was := out.ok, out.was;
    }
  }
}
