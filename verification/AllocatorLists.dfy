/** ReleaseArenas of the arena allocator (bench/servers/silo/allocator.cc) in memory: the first word of
    a free chunk links it to the next, and the two loops rewrite these words in place. */
module AllocatorLists {
  import opened WaiterList
  import opened Allocator

  /** First and last chunk of a list; 0 is the null pointer. */
  datatype Ends = Ends(head: nat, tail: nat)

  type Table = seq<seq<Ends>>

  /** `arenas` of every CPU. */
  type Heads = seq<seq<nat>>

  function Last(s: seq<nat>): nat { if s == [] then 0 else s[|s| - 1] }

  ghost predicate HasEnds(link: map<nat, nat>, e: Ends, s: seq<nat>) {
    IsList(link, e.head, s) && e.tail == Last(s)
  }

  lemma KeepList(link: map<nat, nat>, head: nat, s: seq<nat>, x: nat, w: nat)
    requires IsList(link, head, s) && x !in s
    ensures IsList(link[x := w], head, s)
  {
    var link' := link[x := w];
    forall i | 0 <= i < |s| ensures LinkAt(link', s, i) { assert LinkAt(link, s, i); }
  }

  /** A chunk put in front of a list. */
  lemma ConsList(link: map<nat, nat>, e: Ends, s: seq<nat>, p: nat)
    requires HasEnds(link, e, s) && p !in s && 0 !in s
    ensures HasEnds(link[p := e.head], Ends(p, if e.tail == 0 then p else e.tail), [p] + s)
  {
    var link', t := link[p := e.head], [p] + s;
    if s != [] { assert s[|s| - 1] in s; }
    forall i | 0 <= i < |t| ensures LinkAt(link', t, i) {
      if i > 0 { assert LinkAt(link, s, i - 1); }
    }
  }

  /** The rest of a list after its first chunk. */
  lemma RestList(link: map<nat, nat>, head: nat, s: seq<nat>, k: nat)
    requires k < |s| && IsList(link, head, s[k..])
    ensures head == s[k] && head in link && IsList(link, link[head], s[k + 1..])
  {
    var t, r := s[k..], s[k + 1..];
    assert LinkAt(link, t, 0);
    forall i | 0 <= i < |r| ensures LinkAt(link, r, i) { assert LinkAt(link, t, i + 1); }
  }

  /** Storing the second head through the tail of the first list joins the two. */
  lemma JoinLists(link: map<nat, nat>, e: Ends, s: seq<nat>, head: nat, t: seq<nat>)
    requires HasEnds(link, e, s) && IsList(link, head, t) && s != [] && NoDup(s) && e.tail !in t
    ensures IsList(link[e.tail := head], e.head, s + t)
  {
    var link', r := link[e.tail := head], s + t;
    forall i | 0 <= i < |r| ensures LinkAt(link', r, i) {
      if i < |s| - 1 {
        assert LinkAt(link, s, i);
      } else if i >= |s| {
        assert LinkAt(link, t, i - |s|);
      }
    }
  }

  // -- the first loop: sort by home --

  ghost predicate TableShaped(l: Layout, m: Table) {
    |m| == l.ncpus && forall i :: 0 <= i < |m| ==> |m[i]| == MAX_ARENAS
  }

  ghost predicate HeadsShaped(l: Layout, heads: Heads) {
    |heads| == l.ncpus && forall i :: 0 <= i < |heads| ==> |heads[i]| == MAX_ARENAS
  }

  ghost predicate PileAt(l: Layout, link: map<nat, nat>, m: Table, lists: seq<seq<nat>>, a: nat, k: nat, i: nat, b: nat)
    requires l.maxpercore > 0 && |lists| == MAX_ARENAS && TableShaped(l, m) && i < l.ncpus && b < MAX_ARENAS
  {
    HasEnds(link, m[i][b], Pile(l, Taken(lists, a, k, b), i))
  }

  /** m has the ends of the lists of what has been taken, by home CPU and arena. */
  ghost predicate Piled(l: Layout, link: map<nat, nat>, m: Table, lists: seq<seq<nat>>, a: nat, k: nat)
    requires l.maxpercore > 0 && |lists| == MAX_ARENAS
  {
    TableShaped(l, m) && forall i, b :: 0 <= i < l.ncpus && 0 <= b < MAX_ARENAS ==>
      PileAt(l, link, m, lists, a, k, i, b)
  }

  /** The lists from arena a on are still as they were handed over. */
  ghost predicate Waiting(link: map<nat, nat>, arenas: seq<nat>, lists: seq<seq<nat>>, a: nat) {
    && |arenas| == MAX_ARENAS == |lists|
    && forall b :: a <= b < MAX_ARENAS ==> IsList(link, arenas[b], lists[b])
  }

  /** heads are the heads of the free lists. */
  ghost predicate Headed(l: Layout, link: map<nat, nat>, heads: Heads, free: Lists) {
    && HeadsShaped(l, heads) && Shaped(l, free)
    && forall i, b :: 0 <= i < l.ncpus && 0 <= b < MAX_ARENAS ==> IsList(link, heads[i][b], free[i][b])
  }

  /** The lists to release share no chunk with each other or with a free list, and hold no null. */
  ghost predicate Separate(l: Layout, lists: seq<seq<nat>>, free: Lists) {
    && l.memstart > 0 && l.maxpercore > 0 && |lists| == MAX_ARENAS && Shaped(l, free)
    && (forall a :: 0 <= a < MAX_ARENAS ==> NoDup(lists[a]))
    && (forall a, c {:trigger c in lists[a]} :: 0 <= a < MAX_ARENAS && c in lists[a] ==>
        c >= l.memstart && l.Cpu(c) < l.ncpus)
    && (forall a, b, c {:trigger c in lists[a], c in lists[b]} ::
          0 <= a < MAX_ARENAS && 0 <= b < MAX_ARENAS && a != b && c in lists[a] ==> c !in lists[b])
    && (forall a, i, b, c {:trigger c in lists[a], c in free[i][b]} ::
          0 <= a < MAX_ARENAS && 0 <= i < l.ncpus && 0 <= b < MAX_ARENAS && c in lists[a] ==> c !in free[i][b])
  }

  lemma KeepHeaded(l: Layout, link: map<nat, nat>, heads: Heads, free: Lists, lists: seq<seq<nat>>, a: nat, x: nat,
                   w: nat)
    requires l.maxpercore > 0 && Headed(l, link, heads, free) && Separate(l, lists, free) && a < MAX_ARENAS &&
        x in lists[a]
    ensures Headed(l, link[x := w], heads, free)
  {
    forall i, b | 0 <= i < l.ncpus && 0 <= b < MAX_ARENAS ensures IsList(link[x := w], heads[i][b], free[i][b]) {
      KeepList(link, heads[i][b], free[i][b], x, w);
    }
  }

  lemma KeepWaiting(l: Layout, link: map<nat, nat>, arenas: seq<nat>, lists: seq<seq<nat>>, free: Lists, a: nat,
                    x: nat, w: nat)
    requires l.maxpercore > 0 && Waiting(link, arenas, lists, a + 1) && Separate(l, lists, free) &&
        a < MAX_ARENAS && x in lists[a]
    ensures Waiting(link[x := w], arenas, lists, a + 1)
  {
    forall b | a + 1 <= b < MAX_ARENAS ensures IsList(link[x := w], arenas[b], lists[b]) {
      assert x !in lists[b];
      KeepList(link, arenas[b], lists[b], x, w);
    }
  }

  /** Where the walk through arena a stands. */
  ghost predicate Sorting(l: Layout, link: map<nat, nat>, m: Table, arenas: seq<nat>, lists: seq<seq<nat>>,
                          heads: Heads, free: Lists, a: nat, k: nat, p: nat)
    requires l.maxpercore > 0
  {
    && a < MAX_ARENAS && Waiting(link, arenas, lists, a + 1) && Headed(l, link, heads, free)
    && k <= |lists[a]| && IsList(link, p, lists[a][k..]) && Piled(l, link, m, lists, a, k)
  }

  /** The next chunk of the walk is in no pile yet. */
  lemma NotPiled(l: Layout, lists: seq<seq<nat>>, free: Lists, a: nat, k: nat, i: nat, b: nat)
    requires l.maxpercore > 0 && Separate(l, lists, free) && a < MAX_ARENAS && k < |lists[a]| && b < MAX_ARENAS
    ensures lists[a][k] !in Pile(l, Taken(lists, a, k, b), i) && 0 !in Pile(l, Taken(lists, a, k, b), i)
  {
    var c := lists[a][k];
    assert c in lists[a];
    PileElems(l, Taken(lists, a, k, b), i);
    if b < a { assert c !in lists[b]; }
  }

  lemma StepPile(l: Layout, link: map<nat, nat>, m: Table, lists: seq<seq<nat>>, free: Lists, a: nat, k: nat, i: nat,
                 b: nat)
    requires l.maxpercore > 0 && Separate(l, lists, free) && a < MAX_ARENAS && k < |lists[a]|
    requires Piled(l, link, m, lists, a, k) && i < l.ncpus && b < MAX_ARENAS
    ensures
      var p := lists[a][k];
      && p >= l.memstart && l.Cpu(p) < l.ncpus
      && var e := m[l.Cpu(p)][a];
         var e' := Ends(p, if e.tail == 0 then p else e.tail);
         HasEnds(link[p := e.head], if i == l.Cpu(p) && b == a then e' else m[i][b],
                 Pile(l, Taken(lists, a, k + 1, b), i))
  {
    var p := lists[a][k];
    assert p in lists[a];
    var e := m[l.Cpu(p)][a];
    assert PileAt(l, link, m, lists, a, k, i, b);
    NotPiled(l, lists, free, a, k, i, b);
    if b == a { PileSnoc(l, lists[a], k, i); }
    if i == l.Cpu(p) && b == a {
      ConsList(link, e, Pile(l, lists[a][..k], i), p);
    } else {
      KeepList(link, m[i][b].head, Pile(l, Taken(lists, a, k, b), i), p, e.head);
    }
  }

  lemma StepPiled(l: Layout, link: map<nat, nat>, m: Table, lists: seq<seq<nat>>, free: Lists, a: nat, k: nat,
                  m': Table)
    requires l.maxpercore > 0 && Separate(l, lists, free) && a < MAX_ARENAS && k < |lists[a]|
    requires Piled(l, link, m, lists, a, k)
    requires
      var p := lists[a][k];
      && p >= l.memstart && l.Cpu(p) < l.ncpus
      && var e := m[l.Cpu(p)][a];
         m' == m[l.Cpu(p) := m[l.Cpu(p)][a := Ends(p, if e.tail == 0 then p else e.tail)]]
    ensures Piled(l, link[lists[a][k] := m[l.Cpu(lists[a][k])][a].head], m', lists, a, k + 1)
  {
    var p := lists[a][k];
    var link' := link[p := m[l.Cpu(p)][a].head];
    var k' := k + 1;
    forall i, b | 0 <= i < l.ncpus && 0 <= b < MAX_ARENAS ensures PileAt(l, link', m', lists, a, k', i, b) {
      StepPile(l, link, m, lists, free, a, k, i, b);
    }
  }

  lemma NextArena(l: Layout, link: map<nat, nat>, m: Table, lists: seq<seq<nat>>, a: nat)
    requires l.maxpercore > 0 && |lists| == MAX_ARENAS && a < MAX_ARENAS && Piled(l, link, m, lists, a, |lists[a]|)
    ensures Piled(l, link, m, lists, a + 1, 0)
  {
    var a' := a + 1;
    forall i, b | 0 <= i < l.ncpus && 0 <= b < MAX_ARENAS ensures PileAt(l, link, m, lists, a', 0, i, b) {
      assert PileAt(l, link, m, lists, a, |lists[a]|, i, b);
      assert b == a ==> lists[a][..|lists[a]|] == lists[a];
    }
  }

  lemma NothingPiled(l: Layout, link: map<nat, nat>, m: Table, lists: seq<seq<nat>>)
    requires l.maxpercore > 0 && |lists| == MAX_ARENAS && m == seq(l.ncpus, _ => seq(MAX_ARENAS, _ => Ends(0, 0)))
    ensures Piled(l, link, m, lists, 0, 0)
  {
    forall i, b | 0 <= i < l.ncpus && 0 <= b < MAX_ARENAS ensures PileAt(l, link, m, lists, 0, 0, i, b) {
      assert m[i][b] == Ends(0, 0) && Taken(lists, 0, 0, b) == [];
    }
  }

  /** First half of ReleaseArenas: walk each released list, saving the link of a chunk before
      overwriting it, and put the chunk in front of the pile of its home CPU. */
  method SortByHome(l: Layout, link0: map<nat, nat>, arenas: seq<nat>, ghost lists: seq<seq<nat>>, ghost heads: Heads,
                    ghost free: Lists)
    returns (link: map<nat, nat>, m: Table)
    requires l.maxpercore > 0 && Separate(l, lists, free) && Waiting(link0, arenas, lists, 0) &&
        Headed(l, link0, heads, free)
    ensures Piled(l, link, m, lists, MAX_ARENAS, 0) && Headed(l, link, heads, free)
  {
    link, m := link0, seq(l.ncpus, _ => seq(MAX_ARENAS, _ => Ends(0, 0)));
    NothingPiled(l, link, m, lists);
    for a := 0 to MAX_ARENAS
      invariant Waiting(link, arenas, lists, a) && Headed(l, link, heads, free) && Piled(l, link, m, lists, a, 0)
    {
      link, m := SortArena(l, link, m, a, arenas, lists, heads, free);
    }
  }

  /** The walk through the list of arena a. */
  method SortArena(l: Layout, link0: map<nat, nat>, m0: Table, a: nat, arenas: seq<nat>, ghost lists: seq<seq<nat>>,
                   ghost heads: Heads, ghost free: Lists) returns (link: map<nat, nat>, m: Table)
    requires l.maxpercore > 0 && Separate(l, lists, free) && a < MAX_ARENAS
    requires Waiting(link0, arenas, lists, a) && Headed(l, link0, heads, free) && Piled(l, link0, m0, lists, a, 0)
    ensures Waiting(link, arenas, lists, a + 1) && Headed(l, link, heads, free) && Piled(l, link, m, lists, a + 1, 0)
  {
    link, m := link0, m0;
    var p: nat := arenas[a];
    ghost var k: nat := 0;
    assert lists[a][0..] == lists[a];
    while p != 0
      invariant Sorting(l, link, m, arenas, lists, heads, free, a, k, p)
      decreases |lists[a]| - k
    {
      assert k < |lists[a]|;
      RestList(link, p, lists[a], k);
      assert p in lists[a];
      var pnext := link[p];
      var cpu := l.Cpu(p);
      var e := m[cpu][a];
      ghost var m1 := m;
      KeepHeaded(l, link, heads, free, lists, a, p, e.head);
      KeepWaiting(l, link, arenas, lists, free, a, p, e.head);
      AheadOnly(lists[a], k);
      KeepList(link, pnext, lists[a][k + 1..], p, e.head);
      m := m[cpu := m[cpu][a := Ends(p, if e.tail == 0 then p else e.tail)]];
      StepPiled(l, link, m1, lists, free, a, k, m);
      link := link[p := e.head];
      p, k := pnext, k + 1;
    }
    NoneLeft(l, lists, free, a, k);
    NextArena(l, link, m, lists, a);
  }

  lemma AheadOnly(s: seq<nat>, k: nat)
    requires NoDup(s) && k < |s|
    ensures s[k] !in s[k + 1..]
  {
  }

  /** A list of chunks ends where the pointer is null. */
  lemma NoneLeft(l: Layout, lists: seq<seq<nat>>, free: Lists, a: nat, k: nat)
    requires l.maxpercore > 0 && Separate(l, lists, free) && a < MAX_ARENAS && k <= |lists[a]|
    requires lists[a][k..] == [] || lists[a][k..][0] == 0
    ensures k == |lists[a]|
  {
    assert forall c :: c in lists[a][k..] ==> c in lists[a];
    NullIsEmpty(lists[a][k..]);
  }

  lemma NullIsEmpty(s: seq<nat>)
    requires 0 !in s
    ensures (if s == [] then 0 else s[0]) == 0 <==> s == []
  {
    if s != [] { assert s[0] in s; }
  }

  // -- the second loop: splice --

  ghost predicate Done(i: nat, a: nat, j: nat, b: nat) { j < i || (j == i && b < a) }

  ghost predicate SplicedAt(l: Layout, link: map<nat, nat>, m: Table, lists: seq<seq<nat>>, heads: Heads, free: Lists,
                            i: nat, a: nat, j: nat, b: nat)
    requires l.maxpercore > 0 && |lists| == MAX_ARENAS && TableShaped(l, m) && HeadsShaped(l, heads) && Shaped(l, free)
    requires j < l.ncpus && b < MAX_ARENAS
  {
    if Done(i, a, j, b) then IsList(link, heads[j][b], Pile(l, lists[b], j) + free[j][b])
    else IsList(link, heads[j][b], free[j][b]) && HasEnds(link, m[j][b], Pile(l, lists[b], j))
  }

  /** Everything before CPU i, arena a is spliced, nothing from there on. */
  ghost predicate Splicing(l: Layout, link: map<nat, nat>, m: Table, lists: seq<seq<nat>>, heads: Heads, free: Lists,
                           i: nat, a: nat)
    requires l.maxpercore > 0 && |lists| == MAX_ARENAS
  {
    && TableShaped(l, m) && HeadsShaped(l, heads) && Shaped(l, free)
    && forall j, b :: 0 <= j < l.ncpus && 0 <= b < MAX_ARENAS ==> SplicedAt(l, link, m, lists, heads, free, i, a, j, b)
  }

  lemma StartSplicing(l: Layout, link: map<nat, nat>, m: Table, lists: seq<seq<nat>>, heads: Heads, free: Lists)
    requires l.maxpercore > 0 && |lists| == MAX_ARENAS
    requires Piled(l, link, m, lists, MAX_ARENAS, 0) && Headed(l, link, heads, free)
    ensures Splicing(l, link, m, lists, heads, free, 0, 0)
  {
    forall j, b | 0 <= j < l.ncpus && 0 <= b < MAX_ARENAS
      ensures SplicedAt(l, link, m, lists, heads, free, 0, 0, j, b)
    {
      assert PileAt(l, link, m, lists, MAX_ARENAS, 0, j, b);
    }
  }

  /** The tail of a pile is in no other pile and in no free list. */
  lemma TailApart(l: Layout, lists: seq<seq<nat>>, free: Lists, i: nat, a: nat, j: nat, b: nat)
    requires l.maxpercore > 0 && Separate(l, lists, free) && i < l.ncpus && a < MAX_ARENAS && j < l.ncpus &&
        b < MAX_ARENAS
    requires Pile(l, lists[a], i) != []
    ensures
      var x := Last(Pile(l, lists[a], i));
      && x !in free[j][b] && x in lists[a] && x != 0 && ((i, a) != (j, b) ==> x !in Pile(l, lists[b], j))
  {
    var x := Last(Pile(l, lists[a], i));
    assert x in Pile(l, lists[a], i);
    PileElems(l, lists[a], i);
    PileElems(l, lists[b], j);
    if a != b { assert x !in lists[b]; }
  }

  lemma StepSplice(l: Layout, link: map<nat, nat>, m: Table, lists: seq<seq<nat>>, heads: Heads, free: Lists, i: nat,
                   a: nat, j: nat, b: nat)
    requires l.maxpercore > 0 && Separate(l, lists, free) && i < l.ncpus && a < MAX_ARENAS && j < l.ncpus &&
        b < MAX_ARENAS
    requires Splicing(l, link, m, lists, heads, free, i, a) && m[i][a].head != 0
    ensures SplicedAt(l, link[m[i][a].tail := heads[i][a]], m, lists, heads[i := heads[i][a := m[i][a].head]], free,
        i, a + 1, j, b)
  {
    assert SplicedAt(l, link, m, lists, heads, free, i, a, i, a) &&
        SplicedAt(l, link, m, lists, heads, free, i, a, j, b);
    var e, w := m[i][a], heads[i][a];
    TailApart(l, lists, free, i, a, j, b);
    if (i, a) == (j, b) {
      PileElems(l, lists[a], i);
      JoinLists(link, e, Pile(l, lists[a], i), w, free[i][a]);
    } else if Done(i, a, j, b) {
      KeepList(link, heads[j][b], Pile(l, lists[b], j) + free[j][b], e.tail, w);
    } else {
      KeepList(link, heads[j][b], free[j][b], e.tail, w);
      KeepList(link, m[j][b].head, Pile(l, lists[b], j), e.tail, w);
    }
  }

  lemma StepSpliced(l: Layout, link: map<nat, nat>, m: Table, lists: seq<seq<nat>>, heads: Heads, free: Lists, i: nat,
                    a: nat)
    requires l.maxpercore > 0 && Separate(l, lists, free) && i < l.ncpus && a < MAX_ARENAS
    requires Splicing(l, link, m, lists, heads, free, i, a) && m[i][a].head != 0
    ensures Splicing(l, link[m[i][a].tail := heads[i][a]], m, lists, heads[i := heads[i][a := m[i][a].head]], free,
        i, a + 1)
  {
    var link', heads', a' := link[m[i][a].tail := heads[i][a]], heads[i := heads[i][a := m[i][a].head]], a + 1;
    forall j, b | 0 <= j < l.ncpus && 0 <= b < MAX_ARENAS
      ensures SplicedAt(l, link', m, lists, heads', free, i, a', j, b)
    {
      StepSplice(l, link, m, lists, heads, free, i, a, j, b);
    }
  }

  /** An empty pile needs nothing. */
  lemma StepSkip(l: Layout, link: map<nat, nat>, m: Table, lists: seq<seq<nat>>, heads: Heads, free: Lists, i: nat,
                 a: nat)
    requires l.maxpercore > 0 && Separate(l, lists, free) && i < l.ncpus && a < MAX_ARENAS
    requires Splicing(l, link, m, lists, heads, free, i, a) && m[i][a].head == 0
    ensures Splicing(l, link, m, lists, heads, free, i, a + 1)
  {
    assert SplicedAt(l, link, m, lists, heads, free, i, a, i, a);
    var s := Pile(l, lists[a], i);
    PileElems(l, lists[a], i);
    NullIsEmpty(s);
    assert s + free[i][a] == free[i][a];
    var a' := a + 1;
    forall j, b | 0 <= j < l.ncpus && 0 <= b < MAX_ARENAS
      ensures SplicedAt(l, link, m, lists, heads, free, i, a', j, b)
    {
      assert SplicedAt(l, link, m, lists, heads, free, i, a, j, b);
    }
  }

  lemma NextCpu(l: Layout, link: map<nat, nat>, m: Table, lists: seq<seq<nat>>, heads: Heads, free: Lists, i: nat)
    requires l.maxpercore > 0 && |lists| == MAX_ARENAS && Splicing(l, link, m, lists, heads, free, i, MAX_ARENAS)
    ensures Splicing(l, link, m, lists, heads, free, i + 1, 0)
  {
    var i' := i + 1;
    forall j, b | 0 <= j < l.ncpus && 0 <= b < MAX_ARENAS
      ensures SplicedAt(l, link, m, lists, heads, free, i', 0, j, b)
    {
      assert SplicedAt(l, link, m, lists, heads, free, i, MAX_ARENAS, j, b);
    }
  }

  lemma AllSpliced(l: Layout, link: map<nat, nat>, m: Table, lists: seq<seq<nat>>, heads: Heads, free: Lists)
    requires l.maxpercore > 0 && |lists| == MAX_ARENAS && Splicing(l, link, m, lists, heads, free, l.ncpus, 0)
    ensures Headed(l, link, heads, PutBack(l, lists, free))
  {
    forall j, b | 0 <= j < l.ncpus && 0 <= b < MAX_ARENAS
      ensures IsList(link, heads[j][b], PutBack(l, lists, free)[j][b])
    {
      assert SplicedAt(l, link, m, lists, heads, free, l.ncpus, 0, j, b);
    }
  }

  /** Second half: store the head of the free list through the tail of each pile. */
  method Splice(l: Layout, link0: map<nat, nat>, m: Table, heads0: Heads, ghost lists: seq<seq<nat>>, ghost free: Lists)
    returns (link: map<nat, nat>, heads: Heads)
    requires l.maxpercore > 0 && Separate(l, lists, free)
    requires Piled(l, link0, m, lists, MAX_ARENAS, 0) && Headed(l, link0, heads0, free)
    ensures Headed(l, link, heads, PutBack(l, lists, free))
  {
    link, heads := link0, heads0;
    StartSplicing(l, link, m, lists, heads, free);
    for i := 0 to l.ncpus
      invariant Splicing(l, link, m, lists, heads, free, i, 0)
    {
      for a := 0 to MAX_ARENAS
        invariant Splicing(l, link, m, lists, heads, free, i, a)
      {
        if m[i][a].head == 0 {
          StepSkip(l, link, m, lists, heads, free, i, a);
        } else {
          StepSpliced(l, link, m, lists, heads, free, i, a);
          link := link[m[i][a].tail := heads[i][a]];
          heads := heads[i := heads[i][a := m[i][a].head]];
        }
      }
      NextCpu(l, link, m, lists, heads, free, i);
    }
    AllSpliced(l, link, m, lists, heads, free);
  }
}
