/** Routing among the children of internal nodes: what cutting, joining and editing the
    separator and child arrays does to the child responsible for a slice. */
module BtreeKids {
  import opened Options
  import opened Varkey
  import opened BtreeModel

  /** The child responsible for slice s. */
  function Child(keys: seq<nat>, kids: seq<Node>, s: nat): Node
    requires |kids| == |keys| + 1
  {
    kids[ChildIdx(keys, s)]
  }

  /** Cutting at separator j. */
  lemma RouteCut(keys: seq<nat>, kids: seq<Node>, j: nat, s: nat)
    requires |kids| == |keys| + 1 && Ascending(keys) && j < |keys|
    ensures Child(keys, kids, s) ==
            if s < keys[j] then Child(keys[..j], kids[..j + 1], s)
            else Child(keys[j + 1..], kids[j + 1..], s)
  {
    var c := ChildIdx(keys, s);
    if s < keys[j] {
      assert c <= j;
      ChildIdxUnique(keys[..j], s, c);
    } else {
      assert j < c;
      ChildIdxUnique(keys[j + 1..], s, c - (j + 1));
    }
  }

  /** Separators and children after child c became a, mk, b. */
  function GrowKeys(keys: seq<nat>, c: nat, mk: nat): seq<nat>
    requires c <= |keys|
  {
    keys[..c] + [mk] + keys[c..]
  }

  function GrowKids(kids: seq<Node>, c: nat, a: Node, b: Node): seq<Node>
    requires c < |kids|
  {
    kids[..c] + [a, b] + kids[c + 1..]
  }

  lemma ChildIdxGrow(keys: seq<nat>, c: nat, mk: nat, s: nat)
    requires Ascending(keys) && c <= |keys|
    requires c > 0 ==> keys[c - 1] < mk
    requires c < |keys| ==> mk < keys[c]
    ensures ChildIdx(GrowKeys(keys, c, mk), s) ==
            var i := ChildIdx(keys, s);
            if i < c then i else if i == c then (if s < mk then c else c + 1) else i + 1
  {
    var keys' := GrowKeys(keys, c, mk);
    GrowAscending(keys, c, mk);
    var i := ChildIdx(keys, s);
    if i < c {
      assert keys'[i] == keys[i];
      ChildIdxUnique(keys', s, i);
    } else if i == c {
      ChildIdxUnique(keys', s, if s < mk then c else c + 1);
    } else {
      assert keys'[i] == keys[i - 1];
      ChildIdxUnique(keys', s, i + 1);
    }
  }

  lemma RouteGrow(keys: seq<nat>, kids: seq<Node>, c: nat, mk: nat, a: Node, b: Node, s: nat)
    requires |kids| == |keys| + 1 && Ascending(keys) && c <= |keys|
    requires c > 0 ==> keys[c - 1] < mk
    requires c < |keys| ==> mk < keys[c]
    ensures Child(GrowKeys(keys, c, mk), GrowKids(kids, c, a, b), s) ==
            var i := ChildIdx(keys, s);
            if i == c then (if s < mk then a else b) else kids[i]
  {
    ChildIdxGrow(keys, c, mk, s);
    var kids' := GrowKids(kids, c, a, b);
    var i := ChildIdx(keys, s);
    assert i < c ==> kids'[i] == kids[i];
    assert i > c ==> kids'[i + 1] == kids[i];
  }

  lemma GrowAscending(keys: seq<nat>, c: nat, mk: nat)
    requires Ascending(keys) && c <= |keys|
    requires c > 0 ==> keys[c - 1] < mk
    requires c < |keys| ==> mk < keys[c]
    ensures Ascending(GrowKeys(keys, c, mk))
  {
    assert forall i :: 0 <= i < c ==> keys[i] <= keys[c - 1];
    assert forall i :: c <= i < |keys| ==> keys[c] <= keys[i];
  }

  lemma KidsCut(keys: seq<nat>, kids: seq<Node>, j: nat, lo: nat, hi: nat, h: nat)
    requires KidsOk(keys, kids, lo, hi, h) && j < |keys|
    ensures KidsOk(keys[..j], kids[..j + 1], lo, keys[j], h)
    ensures KidsOk(keys[j + 1..], kids[j + 1..], keys[j], hi, h)
  {
    var kb, cb := keys[j + 1..], kids[j + 1..];
    forall i | 0 <= i < |cb|
      ensures NodeOk(cb[i], Lo(kb, i, keys[j]), Hi(kb, i, hi))
    {
      assert cb[i] == kids[j + 1 + i];
      assert Lo(kb, i, keys[j]) == Lo(keys, j + 1 + i, lo);
      assert Hi(kb, i, hi) == Hi(keys, j + 1 + i, hi);
    }
    var ka, ca := keys[..j], kids[..j + 1];
    forall i | 0 <= i < |ca|
      ensures NodeOk(ca[i], Lo(ka, i, lo), Hi(ka, i, keys[j]))
    {
      assert Lo(ka, i, lo) == Lo(keys, i, lo);
      assert Hi(ka, i, keys[j]) == Hi(keys, i, hi);
    }
  }

  lemma KidsJoin(ka: seq<nat>, ca: seq<Node>, m: nat, kb: seq<nat>, cb: seq<Node>, lo: nat, hi: nat, h: nat)
    requires KidsOk(ka, ca, lo, m, h) && KidsOk(kb, cb, m, hi, h)
    requires lo < m < hi
    ensures KidsOk(ka + [m] + kb, ca + cb, lo, hi, h)
  {
    var keys, kids := ka + [m] + kb, ca + cb;
    forall i | 0 <= i < |kids|
      ensures NodeOk(kids[i], Lo(keys, i, lo), Hi(keys, i, hi))
    {
      if i < |ca| {
        assert Lo(keys, i, lo) == Lo(ka, i, lo);
        assert Hi(keys, i, hi) == Hi(ka, i, m);
      } else {
        assert Lo(keys, i, lo) == Lo(kb, i - |ca|, m);
        assert Hi(keys, i, hi) == Hi(kb, i - |ca|, hi);
      }
    }
  }

  lemma InternalOk(keys: seq<nat>, kids: seq<Node>, lo: nat, hi: nat, h: nat)
    requires 1 <= |keys| <= NKEYS && KidsOk(keys, kids, lo, hi, h)
    ensures NodeOk(Internal(keys, kids), lo, hi) && Height(Internal(keys, kids)) == h + 1
  {
  }

  /** Replacing child c by a well-formed child of the same range. */
  lemma KidsReplace(keys: seq<nat>, kids: seq<Node>, c: nat, a: Node, lo: nat, hi: nat, h: nat)
    requires KidsOk(keys, kids, lo, hi, h) && c < |kids|
    requires Filled(a) && Height(a) == h && NodeOk(a, Lo(keys, c, lo), Hi(keys, c, hi))
    ensures KidsOk(keys, kids[c := a], lo, hi, h)
  {
  }

  lemma KidsGrow(keys: seq<nat>, kids: seq<Node>, c: nat, mk: nat, a: Node, b: Node, lo: nat, hi: nat, h: nat)
    requires KidsOk(keys, kids, lo, hi, h) && c < |kids|
    requires Lo(keys, c, lo) < mk < Hi(keys, c, hi)
    requires Filled(a) && Height(a) == h && NodeOk(a, Lo(keys, c, lo), mk)
    requires Filled(b) && Height(b) == h && NodeOk(b, mk, Hi(keys, c, hi))
    ensures KidsOk(GrowKeys(keys, c, mk), GrowKids(kids, c, a, b), lo, hi, h)
  {
    var keys', kids' := GrowKeys(keys, c, mk), GrowKids(kids, c, a, b);
    GrowAscending(keys, c, mk);
    forall i | 0 <= i < |kids'|
      ensures Filled(kids'[i]) && Height(kids'[i]) == h
      ensures NodeOk(kids'[i], Lo(keys', i, lo), Hi(keys', i, hi))
    {
      if i < c {
        assert Lo(keys', i, lo) == Lo(keys, i, lo) && Hi(keys', i, hi) == Hi(keys, i, hi);
      } else if i > c + 1 {
        assert kids'[i] == kids[i - 1];
        assert Lo(keys', i, lo) == Lo(keys, i - 1, lo) && Hi(keys', i, hi) == Hi(keys, i - 1, hi);
      }
    }
  }

  // ---- the separator between children j and j + 1 moves ----

  lemma ShiftAscending(keys: seq<nat>, j: nat, nk: nat)
    requires Ascending(keys) && j < |keys|
    requires j > 0 ==> keys[j - 1] < nk
    requires j + 1 < |keys| ==> nk < keys[j + 1]
    ensures Ascending(keys[j := nk])
  {
    assert forall i :: 0 <= i < j ==> keys[i] <= keys[j - 1];
    assert forall i :: j < i < |keys| ==> keys[j + 1] <= keys[i];
  }

  lemma ChildIdxShift(keys: seq<nat>, j: nat, nk: nat, s: nat)
    requires Ascending(keys) && j < |keys|
    requires j > 0 ==> keys[j - 1] < nk
    requires j + 1 < |keys| ==> nk < keys[j + 1]
    ensures ChildIdx(keys[j := nk], s) ==
            var c := ChildIdx(keys, s);
            if c == j || c == j + 1 then (if s < nk then j else j + 1) else c
  {
    ShiftAscending(keys, j, nk);
    var c := ChildIdx(keys, s);
    ChildIdxUnique(keys[j := nk], s, if c == j || c == j + 1 then (if s < nk then j else j + 1) else c);
  }

  lemma KidsShift(keys: seq<nat>, kids: seq<Node>, j: nat, nk: nat, a: Node, b: Node, lo: nat, hi: nat, h: nat)
    requires KidsOk(keys, kids, lo, hi, h) && j < |keys|
    requires Lo(keys, j, lo) < nk < Hi(keys, j + 1, hi)
    requires Filled(a) && Height(a) == h && NodeOk(a, Lo(keys, j, lo), nk)
    requires Filled(b) && Height(b) == h && NodeOk(b, nk, Hi(keys, j + 1, hi))
    ensures KidsOk(keys[j := nk], kids[j := a][j + 1 := b], lo, hi, h)
  {
    var keys', kids' := keys[j := nk], kids[j := a][j + 1 := b];
    ShiftAscending(keys, j, nk);
    forall i | 0 <= i < |kids'|
      ensures Filled(kids'[i]) && Height(kids'[i]) == h && NodeOk(kids'[i], Lo(keys', i, lo), Hi(keys', i, hi))
    {
      if i < j || i > j + 1 {
        assert Lo(keys', i, lo) == Lo(keys, i, lo) && Hi(keys', i, hi) == Hi(keys, i, hi);
      }
    }
  }

  // ---- children j and j + 1 become one ----

  function DropKey(keys: seq<nat>, j: nat): seq<nat>
    requires j < |keys|
  {
    keys[..j] + keys[j + 1..]
  }

  /** Children j and j + 1 become m. */
  function FuseKids(kids: seq<Node>, j: nat, m: Node): seq<Node>
    requires j + 1 < |kids|
  {
    kids[..j] + [m] + kids[j + 2..]
  }

  lemma ChildIdxFuse(keys: seq<nat>, j: nat, s: nat)
    requires Ascending(keys) && j < |keys|
    ensures Ascending(DropKey(keys, j))
    ensures ChildIdx(DropKey(keys, j), s) == var c := ChildIdx(keys, s); if c <= j then c else c - 1
  {
    var keys', c := DropKey(keys, j), ChildIdx(keys, s);
    assert forall i :: 0 <= i < |keys'| ==> keys'[i] == keys[if i < j then i else i + 1];
    ChildIdxUnique(keys', s, if c <= j then c else c - 1);
  }

  lemma KidsFuse(keys: seq<nat>, kids: seq<Node>, j: nat, m: Node, lo: nat, hi: nat, h: nat)
    requires KidsOk(keys, kids, lo, hi, h) && j < |keys|
    requires Filled(m) && Height(m) == h && NodeOk(m, Lo(keys, j, lo), Hi(keys, j + 1, hi))
    ensures KidsOk(DropKey(keys, j), FuseKids(kids, j, m), lo, hi, h)
  {
    var keys', kids' := DropKey(keys, j), FuseKids(kids, j, m);
    assert forall i :: 0 <= i < |keys'| ==> keys'[i] == keys[if i < j then i else i + 1];
    forall i | 0 <= i < |kids'|
      ensures Filled(kids'[i]) && Height(kids'[i]) == h && NodeOk(kids'[i], Lo(keys', i, lo), Hi(keys', i, hi))
    {
      if i < j {
        assert kids'[i] == kids[i];
        assert Lo(keys', i, lo) == Lo(keys, i, lo) && Hi(keys', i, hi) == Hi(keys, i, hi);
      } else if i > j {
        assert kids'[i] == kids[i + 1];
        assert Lo(keys', i, lo) == Lo(keys, i + 1, lo) && Hi(keys', i, hi) == Hi(keys, i + 1, hi);
      }
    }
  }

  /** Two adjacent nodes ka/ca and kb/cb with separator m, seen as one. */
  lemma RouteJoin(ka: seq<nat>, ca: seq<Node>, m: nat, kb: seq<nat>, cb: seq<Node>, s: nat)
    requires |ca| == |ka| + 1 && |cb| == |kb| + 1 && Ascending(ka + [m] + kb)
    ensures Child(ka + [m] + kb, ca + cb, s) == if s < m then Child(ka, ca, s) else Child(kb, cb, s)
  {
    var keys, kids := ka + [m] + kb, ca + cb;
    assert keys[..|ka|] == ka && keys[|ka| + 1..] == kb && keys[|ka|] == m;
    assert kids[..|ka| + 1] == ca && kids[|ka| + 1..] == cb;
    RouteCut(keys, kids, |ka|, s);
  }

  // ---- lookup through internal nodes, for any lookup function g ----

  /** Two nodes side by side, the second from slice m on. */
  function Side(s: nat, m: nat, a: Option<Value>, b: Option<Value>): Option<Value> {
    if s < m then a else b
  }

  /** Lookup of k, as a function of the node. */
  function Look(k: Key): Node -> Option<Value> {
    n => Get(n, k)
  }

  /** Lookup g goes to the child responsible for slice s. */
  ghost predicate Routes(g: Node -> Option<Value>, s: nat) {
    forall keys, kids :: |kids| == |keys| + 1 ==> g(Internal(keys, kids)) == g(Child(keys, kids, s))
  }

  lemma LookRoutes(k: Key)
    ensures Routes(Look(k), Slice(k))
  {
  }
}
