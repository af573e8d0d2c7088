/** The arena allocator (bench/servers/silo/allocator.cc, allocator.h, without MEMCHECK_MAGIC): one
    region per CPU, huge pages carved into free lists of equal chunks, and a release that finds the
    home of a chunk by pointer arithmetic. Addresses are numbers. */
module Allocator {
  import opened WaiterList

  const ALIGN := 16                  // AllocAlignment
  const MAX_ARENAS := 32

  // ---- rounding ----

  /** `round_up` to a multiple of 16 by adding and masking. */
  function RoundUp16(t: nat): nat { (t + 15) / 16 * 16 }

  /** `ArenaSize`: allocation size and arena number; 0 bytes give arena -1, which is SIZE_MAX in C. */
  function ArenaSize(sz: nat): (nat, int) { (RoundUp16(sz), RoundUp16(sz) / ALIGN - 1) }

  /** Sizes 1 to 512, and no others, have an arena; its chunks hold the size with less than 16 bytes
      to spare. */
  lemma ArenaSizeFits(sz: nat)
    ensures var (alloc, arena) := ArenaSize(sz); 0 <= arena < MAX_ARENAS <==> 1 <= sz <= 512
    ensures var (alloc, arena) := ArenaSize(sz); sz <= alloc < sz + 16 && alloc % 16 == 0
    ensures 1 <= sz <= 512 ==> Unit(ArenaSize(sz).1) == ArenaSize(sz).0
  {
  }

  /** `iceil`. */
  function ICeil(x: nat, y: nat): nat
    requires y > 0
  {
    var m := x % y;
    x + if m != 0 then y - m else 0
  }

  lemma DivMod(x: nat, y: nat)
    requires y > 0
    ensures x == y * (x / y) + x % y && 0 <= x % y < y
  {
  }

  lemma MulMod(k: nat, y: nat, r: nat)
    requires y > 0 && r < y
    ensures (y * k + r) % y == r && (y * k + r) / y == k
  {
    var q := (y * k + r) / y;
    DivMod(y * k + r, y);
    if q < k { MulGap(y, q, k); }
    if k < q { MulGap(y, k, q); }
  }

  lemma MulGap(y: nat, i: nat, j: nat)
    requires i < j
    ensures y * i + y <= y * j
  {
    MulMono(y, i + 1, j);
    assert y * (i + 1) == y * i + y;
  }

  lemma MulMono(y: nat, i: nat, j: nat)
    requires i <= j
    ensures y * i <= y * j
  {
  }

  /** The least multiple of y from x on. */
  lemma ICeilIsLeast(x: nat, y: nat, z: nat)
    requires y > 0
    ensures x <= ICeil(x, y) < x + y && ICeil(x, y) % y == 0
    ensures x <= z && z % y == 0 ==> ICeil(x, y) <= z
  {
    DivMod(x, y);
    var q := x / y;
    if x % y != 0 {
      MulMod(q + 1, y, 0);
      assert ICeil(x, y) == y * (q + 1);
      if x <= z && z % y == 0 {
        DivMod(z, y);
        if z / y <= q { MulMono(y, z / y, q); } else { MulMono(y, q + 1, z / y); }
      }
    }
  }

  /** Distinct multiples of y are at least y apart. */
  lemma MultiplesApart(a: nat, b: nat, y: nat)
    requires y > 0 && a % y == 0 && b % y == 0 && a < b
    ensures a + y <= b
  {
    DivMod(a, y);
    DivMod(b, y);
    if a / y < b / y { MulMono(y, a / y + 1, b / y); } else { MulMono(y, b / y, a / y); }
  }

  // ---- carving a page ----

  /** The chunks c, c + unit, ... that end by end. */
  function Chunks(c: nat, unit: nat, end: nat): seq<nat>
    requires unit > 0
    decreases end - c
  {
    if c + unit <= end then [c] + Chunks(c + unit, unit, end) else []
  }

  lemma NextMultiple(c: nat, unit: nat)
    requires unit > 0 && c % unit == 0
    ensures (c + unit) % unit == 0
  {
    DivMod(c, unit);
    MulMod(c / unit + 1, unit, 0);
    assert c + unit == unit * (c / unit + 1);
  }

  /** From a multiple of unit on, the chunks are all the multiples that fit, each once. */
  lemma {:induction false} ChunksAre(c: nat, unit: nat, end: nat)
    requires unit > 0 && c % unit == 0
    ensures forall x :: x in Chunks(c, unit, end) <==> c <= x && x % unit == 0 && x + unit <= end
    ensures NoDup(Chunks(c, unit, end))
    decreases end - c
  {
    if c + unit <= end {
      var rest := Chunks(c + unit, unit, end);
      NextMultiple(c, unit);
      ChunksAre(c + unit, unit, end);
      forall x | c < x && x % unit == 0 ensures c + unit <= x { MultiplesApart(c, x, unit); }
      var s := [c] + rest;
      forall i, j | 0 <= i < j < |s| ensures s[i] != s[j] { assert s[j] == rest[j - 1] && s[j] in rest; }
    }
  }

  /** The words at the chunks of s link them into a null-terminated list. */
  ghost predicate IsList(link: map<nat, nat>, head: nat, s: seq<nat>) {
    && head == (if s == [] then 0 else s[0])
    && forall i :: 0 <= i < |s| ==> LinkAt(link, s, i)
  }

  /** The word at chunk i points to the next one, or is null. */
  ghost predicate LinkAt(link: map<nat, nat>, s: seq<nat>, i: nat)
    requires i < |s|
  {
    s[i] in link && link[s[i]] == if i + 1 < |s| then s[i + 1] else 0
  }

  ghost predicate Ascending(s: seq<nat>) { forall i, j :: 0 <= i < j < |s| ==> s[i] < s[j] }

  /** Linked up to the last element p of s, whose link is not written yet. */
  ghost predicate Linking(link: map<nat, nat>, s: seq<nat>, p: nat) {
    && s != [] && s[|s| - 1] == p && Ascending(s)
    && forall i :: 0 <= i < |s| - 1 ==> LinksOn(link, s, i)
  }

  ghost predicate LinksOn(link: map<nat, nat>, s: seq<nat>, i: nat)
    requires i + 1 < |s|
  {
    s[i] in link && link[s[i]] == s[i + 1]
  }

  lemma LinkNext(link: map<nat, nat>, s: seq<nat>, p: nat, next: nat)
    requires Linking(link, s, p) && p < next
    ensures Linking(link[p := next], s + [next], next)
  {
    var link', s' := link[p := next], s + [next];
    forall i | 0 <= i < |s'| - 1 ensures LinksOn(link', s', i) {
      if i < |s| - 1 { assert LinksOn(link, s, i); }
    }
  }

  lemma LinkEnd(link: map<nat, nat>, s: seq<nat>, p: nat)
    requires Linking(link, s, p)
    ensures IsList(link[p := 0], s[0], s)
  {
    var link' := link[p := 0];
    forall i | 0 <= i < |s| ensures LinkAt(link', s, i) {
      if i < |s| - 1 { assert LinksOn(link, s, i); }
    }
  }

  lemma MoreChunks(s: seq<nat>, next: nat, unit: nat, end: nat)
    requires unit > 0 && next + unit <= end
    ensures s + [next] + Chunks(next + unit, unit, end) == s + Chunks(next, unit, end)
  {
  }

  lemma LastIn(s: seq<nat>, t: seq<nat>)
    requires s != []
    ensures s[|s| - 1] in s + t
  {
  }

  /** Words outside all are as in link0. */
  ghost predicate OnlyWithin(link0: map<nat, nat>, link: map<nat, nat>, all: seq<nat>) {
    forall x :: x in link0 && x !in all ==> x in link && link[x] == link0[x]
  }

  /** The loop of `initialize_page` has linked the chunks s and stands at p, the last of them. */
  ghost predicate Carving(link0: map<nat, nat>, link: map<nat, nat>, s: seq<nat>, p: nat, first: nat, unit: nat,
                          end: nat)
    requires unit > 0
  {
    && Linking(link, s, p) && s[0] == first && s + Chunks(p + unit, unit, end) == Chunks(first, unit, end)
    && OnlyWithin(link0, link, Chunks(first, unit, end))
  }

  lemma CarveFirst(link: map<nat, nat>, first: nat, unit: nat, end: nat)
    requires unit > 0 && first + unit <= end
    ensures Carving(link, link, [first], first, first, unit, end)
  {
  }

  lemma KeepWithin(link0: map<nat, nat>, link: map<nat, nat>, all: seq<nat>, p: nat, w: nat)
    requires OnlyWithin(link0, link, all) && p in all
    ensures OnlyWithin(link0, link[p := w], all)
  {
  }

  lemma CarveNext(link0: map<nat, nat>, link: map<nat, nat>, s: seq<nat>, p: nat, first: nat, unit: nat, end: nat)
    requires unit > 0 && p + 2 * unit <= end && Carving(link0, link, s, p, first, unit, end)
    ensures Carving(link0, link[p := p + unit], s + [p + unit], p + unit, first, unit, end)
  {
    var next, all := p + unit, Chunks(first, unit, end);
    assert p in all by { LastIn(s, Chunks(next, unit, end)); }
    KeepWithin(link0, link, all, p, next);
    LinkNext(link, s, p, next);
    MoreChunks(s, next, unit, end);
  }

  lemma CarveLast(link0: map<nat, nat>, link: map<nat, nat>, s: seq<nat>, p: nat, first: nat, unit: nat, end: nat)
    requires unit > 0 && p + 2 * unit > end && Carving(link0, link, s, p, first, unit, end)
    ensures IsList(link[p := 0], first, Chunks(first, unit, end)) &&
        OnlyWithin(link0, link[p := 0], Chunks(first, unit, end))
  {
    assert s + [] == s;
    LastIn(s, []);
    LinkEnd(link, s, p);
  }

  /** `initialize_page`: link the chunks of the page into a list. */
  method InitializePage(page: nat, pagesize: nat, unit: nat, link0: map<nat, nat>)
    returns (first: nat, link: map<nat, nat>)
    requires unit > 0 && pagesize >= 2 * unit
    ensures first == ICeil(page, unit)
    ensures IsList(link, first, Chunks(first, unit, page + pagesize))
    ensures OnlyWithin(link0, link, Chunks(first, unit, page + pagesize))
  {
    link := link0;
    first := ICeil(page, unit);
    ICeilIsLeast(page, unit, page);
    CarveFirst(link, first, unit, page + pagesize);
    ghost var s: seq<nat> := [first];
    var p: nat, next: nat := first, first + unit;
    while next + unit <= page + pagesize
      invariant next == p + unit && next <= page + pagesize
      invariant Carving(link0, link, s, p, first, unit, page + pagesize)
      decreases page + pagesize - next
    {
      CarveNext(link0, link, s, p, first, unit, page + pagesize);
      link := link[p := next];
      s := s + [next];
      p := next;
      next := next + unit;
    }
    CarveLast(link0, link, s, p, first, unit, page + pagesize);
    link := link[p := 0];
  }

  // ---- regions and chunks ----

  function Unit(arena: nat): nat { (arena + 1) * ALIGN }

  /** The memory layout: ncpus regions of maxpercore bytes from memstart on, all huge-page aligned. */
  datatype Layout = Layout(memstart: nat, ncpus: nat, maxpercore: nat, huge: nat) {
    ghost predicate Ok() {
      && memstart > 0 && huge >= 2 * Unit(MAX_ARENAS - 1)
      && maxpercore > 0 && maxpercore % huge == 0 && memstart % huge == 0
    }
    /** Where the region of CPU i begins. */
    function Start(i: nat): nat { memstart + i * maxpercore }
    /** `PointerToCpu`. */
    function Cpu(p: nat): nat
      requires maxpercore > 0 && p >= memstart
    {
      (p - memstart) / maxpercore
    }
    function Page(p: nat): nat
      requires huge > 0
    {
      p - p % huge
    }
  }

  /** `Initialize`: round the region size and the start of the mapping x up to huge pages. */
  function MakeLayout(x: nat, ncpus: nat, maxpercore: nat, huge: nat): Layout
    requires huge > 0
  {
    Layout(ICeil(x, huge), ncpus, ICeil(maxpercore, huge), huge)
  }

  /** The regions lie inside the mapping, which has one huge page to spare. */
  lemma LayoutFits(x: nat, ncpus: nat, maxpercore: nat, huge: nat)
    requires x > 0 && maxpercore > 0 && huge >= 2 * Unit(MAX_ARENAS - 1)
    ensures
      var l := MakeLayout(x, ncpus, maxpercore, huge);
      && l.Ok() && x <= l.memstart && l.maxpercore >= maxpercore
      && l.Start(ncpus) <= x + ncpus * l.maxpercore + huge
  {
    ICeilIsLeast(x, huge, x);
    ICeilIsLeast(maxpercore, huge, maxpercore);
  }

  /** An address in CPU i's region belongs to CPU i. */
  lemma CpuOfRegion(l: Layout, p: nat, i: nat)
    requires l.Ok() && l.Start(i) <= p < l.Start(i + 1)
    ensures p >= l.memstart && l.Cpu(p) == i
  {
    assert (i + 1) * l.maxpercore == i * l.maxpercore + l.maxpercore;
    assert l.maxpercore * i == i * l.maxpercore;
    MulMod(i, l.maxpercore, p - l.memstart - i * l.maxpercore);
  }

  lemma PageBounds(l: Layout, p: nat)
    requires l.huge > 0
    ensures l.Page(p) <= p < l.Page(p) + l.huge && l.Page(p) % l.huge == 0
  {
    DivMod(p, l.huge);
    MulMod(p / l.huge, l.huge, 0);
  }

  /** c is a chunk of a managed page: pages says which arena each managed page belongs to. */
  predicate IsChunk(l: Layout, pages: map<nat, nat>, c: nat)
    requires l.huge > 0
  {
    && l.Page(c) in pages
    && c % Unit(pages[l.Page(c)]) == 0 && c + Unit(pages[l.Page(c)]) <= l.Page(c) + l.huge
  }

  function Arena(l: Layout, pages: map<nat, nat>, c: nat): nat
    requires l.huge > 0 && IsChunk(l, pages, c)
  {
    pages[l.Page(c)]
  }

  /** Managed pages are whole pages already handed out by their region. */
  ghost predicate PagesOk(l: Layout, begin: seq<nat>, pages: map<nat, nat>)
    requires l.Ok()
  {
    && |begin| == l.ncpus
    && (forall i :: 0 <= i < l.ncpus ==> l.Start(i) <= begin[i] <= l.Start(i + 1) && begin[i] % l.huge == 0)
    && (forall g :: g in pages ==>
          && g % l.huge == 0 && pages[g] < MAX_ARENAS && g >= l.memstart
          && l.Cpu(g) < l.ncpus && l.Start(l.Cpu(g)) <= g && g + l.huge <= begin[l.Cpu(g)])
  }

  /** Chunks are aligned to their unit, lie in their CPU's region, and never overlap. */
  lemma ChunksDisjoint(l: Layout, begin: seq<nat>, pages: map<nat, nat>, c: nat, d: nat)
    requires l.Ok() && PagesOk(l, begin, pages) && IsChunk(l, pages, c) && IsChunk(l, pages, d) && c < d
    ensures c + Unit(Arena(l, pages, c)) <= d
  {
    var g, h := l.Page(c), l.Page(d);
    PageBounds(l, c);
    PageBounds(l, d);
    if g == h {
      MultiplesApart(c, d, Unit(pages[g]));
    } else {
      if h < g { MultiplesApart(h, g, l.huge); } else { MultiplesApart(g, h, l.huge); }
    }
  }

  lemma ChunkInRegion(l: Layout, begin: seq<nat>, pages: map<nat, nat>, c: nat)
    requires l.Ok() && PagesOk(l, begin, pages) && IsChunk(l, pages, c)
    ensures c >= l.memstart && c > 0 && l.Cpu(c) < l.ncpus && l.Cpu(c) == l.Cpu(l.Page(c))
    ensures l.Start(l.Cpu(c)) <= c && c + Unit(Arena(l, pages, c)) <= begin[l.Cpu(c)] <= l.Start(l.Cpu(c) + 1)
    ensures c % Unit(Arena(l, pages, c)) == 0 && Unit(Arena(l, pages, c)) % ALIGN == 0
  {
    var g := l.Page(c);
    PageBounds(l, c);
    CpuOfRegion(l, c, l.Cpu(g));
  }

  // ---- the allocator ----

  /** The chunks of a freshly carved page. */
  lemma CarvedAreChunks(l: Layout, pages: map<nat, nat>, page: nat, arena: nat)
    requires l.Ok() && page % l.huge == 0 && arena < MAX_ARENAS
    ensures
      var s := Chunks(ICeil(page, Unit(arena)), Unit(arena), page + l.huge);
      NoDup(s) && forall c :: c in s <==> l.Page(c) == page && IsChunk(l, pages[page := arena], c)
  {
    var u := Unit(arena);
    var first := ICeil(page, u);
    ICeilIsLeast(page, u, page);
    ChunksAre(first, u, page + l.huge);
    var s, pages' := Chunks(first, u, page + l.huge), pages[page := arena];
    forall c ensures c in s <==> l.Page(c) == page && IsChunk(l, pages', c) {
      PageBounds(l, c);
      ICeilIsLeast(page, u, c);
      if c in s { SamePage(l, c, page); }
    }
  }

  lemma SamePage(l: Layout, c: nat, page: nat)
    requires l.huge > 0 && page % l.huge == 0 && page <= c < page + l.huge
    ensures l.Page(c) == page
  {
    DivMod(page, l.huge);
    MulMod(page / l.huge, l.huge, c - page);
  }

  /** Free lists by CPU and arena. */
  type Lists = seq<seq<seq<nat>>>

  predicate Shaped(l: Layout, free: Lists) {
    |free| == l.ncpus && forall i :: 0 <= i < |free| ==> |free[i]| == MAX_ARENAS
  }

  /** c lies in the list of its home CPU and arena. */
  predicate IsFree(l: Layout, pages: map<nat, nat>, free: Lists, c: nat)
    requires l.Ok() && IsChunk(l, pages, c) && c >= l.memstart && Shaped(l, free) && l.Cpu(c) < l.ncpus &&
        Arena(l, pages, c) < MAX_ARENAS
  {
    c in free[l.Cpu(c)][Arena(l, pages, c)]
  }

  /** Every list holds chunks of its own CPU and arena, each once. */
  ghost predicate ListsOk(l: Layout, pages: map<nat, nat>, free: Lists)
    requires l.Ok()
  {
    && Shaped(l, free)
    && (forall i, a :: 0 <= i < l.ncpus && 0 <= a < MAX_ARENAS ==> ListOk(l, pages, free[i][a], i, a))
  }

  ghost predicate ListOk(l: Layout, pages: map<nat, nat>, s: seq<nat>, i: nat, a: nat)
    requires l.Ok()
  {
    NoDup(s) && forall c :: c in s ==>
      IsChunk(l, pages, c) && c >= l.memstart && l.Cpu(c) == i && Arena(l, pages, c) == a
  }

  /** The chunks carved are exactly those free and those held, and none is both. */
  ghost predicate Conserved(l: Layout, begin: seq<nat>, pages: map<nat, nat>, free: Lists, held: set<nat>)
    requires l.Ok() && PagesOk(l, begin, pages) && ListsOk(l, pages, free)
  {
    && (forall c :: c in held ==> IsChunk(l, pages, c))
    && (forall c: nat | IsChunk(l, pages, c) :: InOne(l, begin, pages, free, held, c))
  }

  ghost predicate InOne(l: Layout, begin: seq<nat>, pages: map<nat, nat>, free: Lists, held: set<nat>, c: nat)
    requires l.Ok() && PagesOk(l, begin, pages) && ListsOk(l, pages, free) && IsChunk(l, pages, c)
  {
    ChunkInRegion(l, begin, pages, c);
    c in held <==> !IsFree(l, pages, free, c)
  }

  function Elems(s: seq<nat>): set<nat> { set c | c in s }

  /** Handing out a whole free list. */
  lemma TakeList(l: Layout, begin: seq<nat>, pages: map<nat, nat>, free: Lists, held: set<nat>, i: nat, a: nat)
    requires l.Ok() && PagesOk(l, begin, pages) && ListsOk(l, pages, free) && Conserved(l, begin, pages, free, held)
    requires i < l.ncpus && a < MAX_ARENAS
    ensures
      var free' := free[i := free[i][a := []]];
      ListsOk(l, pages, free') && Conserved(l, begin, pages, free', held + Elems(free[i][a])) &&
        Elems(free[i][a]) !! held
  {
    var s := free[i][a];
    var free' := free[i := free[i][a := []]];
    assert ListOk(l, pages, s, i, a);
    forall j, b | 0 <= j < l.ncpus && 0 <= b < MAX_ARENAS ensures ListOk(l, pages, free'[j][b], j, b) {
      assert ListOk(l, pages, free[j][b], j, b);
    }
    forall c: nat | IsChunk(l, pages, c) ensures InOne(l, begin, pages, free', held + Elems(s), c) {
      ChunkInRegion(l, begin, pages, c);
      assert InOne(l, begin, pages, free, held, c);
    }
    forall c | c in Elems(s) ensures c !in held {
      ChunkInRegion(l, begin, pages, c);
      assert InOne(l, begin, pages, free, held, c);
    }
  }

  /** Carving the next page of CPU i for arena a. */
  lemma CarvePage(l: Layout, begin: seq<nat>, pages: map<nat, nat>, free: Lists, held: set<nat>, i: nat, a: nat,
                  s: seq<nat>)
    requires l.Ok() && PagesOk(l, begin, pages) && ListsOk(l, pages, free) && Conserved(l, begin, pages, free, held)
    requires i < l.ncpus && a < MAX_ARENAS && begin[i] + l.huge <= l.Start(i + 1)
    requires s == Chunks(ICeil(begin[i], Unit(a)), Unit(a), begin[i] + l.huge)
    ensures
      var begin', pages' := begin[i := begin[i] + l.huge], pages[begin[i] := a];
      && PagesOk(l, begin', pages') && ListsOk(l, pages', free) && Conserved(l, begin', pages', free, held + Elems(s))
      && Elems(s) !! held
      && forall c :: c in s ==> IsChunk(l, pages', c) && l.Page(c) == begin[i] && c !in held
  {
    var page := begin[i];
    var begin', pages' := begin[i := page + l.huge], pages[page := a];
    CarvedAreChunks(l, pages, page, a);
    NewPagesOk(l, begin, pages, i, a);
    OldChunksStay(l, begin, pages, i, a);
    OldListsOk(l, begin, pages, free, i, a);
    forall c: nat | IsChunk(l, pages', c) ensures InOne(l, begin', pages', free, held + Elems(s), c) {
      CarvedInOne(l, begin, pages, free, held, i, a, s, c);
    }
  }

  lemma OldListsOk(l: Layout, begin: seq<nat>, pages: map<nat, nat>, free: Lists, i: nat, a: nat)
    requires l.Ok() && PagesOk(l, begin, pages) && ListsOk(l, pages, free)
    requires i < l.ncpus && a < MAX_ARENAS && begin[i] + l.huge <= l.Start(i + 1)
    ensures ListsOk(l, pages[begin[i] := a], free)
  {
    OldChunksStay(l, begin, pages, i, a);
    forall j, b | 0 <= j < l.ncpus && 0 <= b < MAX_ARENAS ensures ListOk(l, pages[begin[i] := a], free[j][b], j, b) {
      assert ListOk(l, pages, free[j][b], j, b);
    }
  }

  lemma CarvedInOne(l: Layout, begin: seq<nat>, pages: map<nat, nat>, free: Lists, held: set<nat>, i: nat, a: nat,
                    s: seq<nat>, c: nat)
    requires l.Ok() && PagesOk(l, begin, pages) && ListsOk(l, pages, free) && Conserved(l, begin, pages, free, held)
    requires i < l.ncpus && a < MAX_ARENAS && begin[i] + l.huge <= l.Start(i + 1)
    requires s == Chunks(ICeil(begin[i], Unit(a)), Unit(a), begin[i] + l.huge)
    requires PagesOk(l, begin[i := begin[i] + l.huge], pages[begin[i] := a]) && ListsOk(l, pages[begin[i] := a], free)
    requires IsChunk(l, pages[begin[i] := a], c)
    ensures InOne(l, begin[i := begin[i] + l.huge], pages[begin[i] := a], free, held + Elems(s), c)
  {
    var pages' := pages[begin[i] := a];
    CarvedAreChunks(l, pages, begin[i], a);
    OldChunksStay(l, begin, pages, i, a);
    ChunkInRegion(l, begin[i := begin[i] + l.huge], pages', c);
    assert ListOk(l, pages, free[l.Cpu(c)][Arena(l, pages', c)], l.Cpu(c), Arena(l, pages', c));
    if c !in s {
      assert IsChunk(l, pages, c);
      ChunkInRegion(l, begin, pages, c);
      assert InOne(l, begin, pages, free, held, c);
    }
  }

  lemma NewPagesOk(l: Layout, begin: seq<nat>, pages: map<nat, nat>, i: nat, a: nat)
    requires l.Ok() && PagesOk(l, begin, pages) && i < l.ncpus && a < MAX_ARENAS && begin[i] + l.huge <= l.Start(i + 1)
    ensures PagesOk(l, begin[i := begin[i] + l.huge], pages[begin[i] := a])
  {
    CpuOfRegion(l, begin[i], i);
    NextMultiple(begin[i], l.huge);
  }

  /** The page at region_begin was not managed before; other chunks are untouched. */
  lemma OldChunksStay(l: Layout, begin: seq<nat>, pages: map<nat, nat>, i: nat, a: nat)
    requires l.Ok() && PagesOk(l, begin, pages) && i < l.ncpus && a < MAX_ARENAS && begin[i] + l.huge <= l.Start(i + 1)
    ensures begin[i] !in pages
    ensures forall c :: l.Page(c) != begin[i] ==> (IsChunk(l, pages[begin[i] := a], c) <==> IsChunk(l, pages, c))
    ensures forall c :: IsChunk(l, pages, c) ==> l.Page(c) != begin[i] && IsChunk(l, pages[begin[i] := a], c)
  {
    if begin[i] in pages { CpuOfRegion(l, begin[i], i); }
  }

  // -- release --

  /** The chunks of list that are at home on CPU i, last one first. */
  function Pile(l: Layout, list: seq<nat>, i: nat): seq<nat>
    requires l.maxpercore > 0
  {
    if list == [] then [] else
      var p, c := Pile(l, list[..|list| - 1], i), list[|list| - 1];
      if c >= l.memstart && l.Cpu(c) == i then [c] + p else p
  }

  lemma {:induction false} PileElems(l: Layout, list: seq<nat>, i: nat)
    requires l.maxpercore > 0
    ensures forall c :: c in Pile(l, list, i) <==> c in list && c >= l.memstart && l.Cpu(c) == i
    ensures NoDup(list) ==> NoDup(Pile(l, list, i))
  {
    if list != [] {
      var n := |list| - 1;
      var c, p := list[n], Pile(l, list[..n], i);
      PileElems(l, list[..n], i);
      assert forall x :: x in list <==> x == c || x in list[..n];
      if c >= l.memstart && l.Cpu(c) == i {
        var r := [c] + p;
        assert forall j :: 0 < j < |r| ==> r[j] == p[j - 1] && p[j - 1] in p;
        if NoDup(list) {
          assert c !in list[..n];
          forall j, k | 0 <= j < k < |r| ensures r[j] != r[k] { assert r[k] == p[k - 1]; }
        }
      }
    }
  }

  /** Free lists after all of lists has been put back. */
  function PutBack(l: Layout, lists: seq<seq<nat>>, free: Lists): (r: Lists)
    requires l.maxpercore > 0 && Shaped(l, free) && |lists| == MAX_ARENAS
    ensures Shaped(l, r)
    ensures forall i, a :: 0 <= i < l.ncpus && 0 <= a < MAX_ARENAS ==> r[i][a] == Pile(l, lists[a], i) + free[i][a]
  {
    seq(l.ncpus, i requires 0 <= i < l.ncpus =>
      seq(MAX_ARENAS, a requires 0 <= a < MAX_ARENAS => Pile(l, lists[a], i) + free[i][a]))
  }

  /** What is released: held chunks, each in the list of its own arena. */
  ghost predicate Releasable(l: Layout, pages: map<nat, nat>, held: set<nat>, lists: seq<seq<nat>>)
    requires l.Ok()
  {
    && |lists| == MAX_ARENAS
    && (forall a :: 0 <= a < MAX_ARENAS ==> NoDup(lists[a]))
    && (forall a, c {:trigger c in lists[a]} :: 0 <= a < MAX_ARENAS && c in lists[a] ==>
          c in held && c >= l.memstart && l.Cpu(c) < l.ncpus && IsChunk(l, pages, c) && Arena(l, pages, c) == a)
  }

  lemma ReleasableAt(l: Layout, pages: map<nat, nat>, held: set<nat>, lists: seq<seq<nat>>, a: nat, k: nat)
    requires l.Ok() && Releasable(l, pages, held, lists) && a < MAX_ARENAS && k < |lists[a]|
    ensures lists[a][k] >= l.memstart && l.Cpu(lists[a][k]) < l.ncpus
  {
    var c := lists[a][k];
    assert c in lists[a];
  }

  function All(lists: seq<seq<nat>>): set<nat> { set a, c | 0 <= a < |lists| && c in lists[a] :: c }

  lemma ReleasedListOk(l: Layout, begin: seq<nat>, pages: map<nat, nat>, free: Lists, held: set<nat>,
                       lists: seq<seq<nat>>, i: nat, a: nat)
    requires l.Ok() && PagesOk(l, begin, pages) && ListsOk(l, pages, free) && Conserved(l, begin, pages, free, held)
    requires Releasable(l, pages, held, lists) && i < l.ncpus && a < MAX_ARENAS
    ensures ListOk(l, pages, Pile(l, lists[a], i) + free[i][a], i, a)
  {
    var p, f := Pile(l, lists[a], i), free[i][a];
    PileElems(l, lists[a], i);
    assert ListOk(l, pages, f, i, a);
    forall c | c in p ensures c !in f {
      assert InOne(l, begin, pages, free, held, c);
    }
    var r := p + f;
    forall j, k | 0 <= j < k < |r| ensures r[j] != r[k] {
      if j < |p| && |p| <= k { assert p[j] in p && f[k - |p|] in f; }
    }
  }

  lemma ReleaseOk(l: Layout, begin: seq<nat>, pages: map<nat, nat>, free: Lists, held: set<nat>, lists: seq<seq<nat>>)
    requires l.Ok() && PagesOk(l, begin, pages) && ListsOk(l, pages, free) && Conserved(l, begin, pages, free, held)
    requires Releasable(l, pages, held, lists)
    ensures
      var free' := PutBack(l, lists, free);
      ListsOk(l, pages, free') && Conserved(l, begin, pages, free', held - All(lists))
  {
    var free', held' := PutBack(l, lists, free), held - All(lists);
    forall i, a | 0 <= i < l.ncpus && 0 <= a < MAX_ARENAS ensures ListOk(l, pages, free'[i][a], i, a) {
      ReleasedListOk(l, begin, pages, free, held, lists, i, a);
    }
    forall c: nat | IsChunk(l, pages, c) ensures InOne(l, begin, pages, free', held', c) {
      ChunkInRegion(l, begin, pages, c);
      assert InOne(l, begin, pages, free, held, c);
      var a := Arena(l, pages, c);
      PileElems(l, lists[a], l.Cpu(c));
      assert c in All(lists) <==> c in lists[a];
    }
  }

  /** The part of arena b's list that has been taken when element k of arena a is next. */
  function Taken(lists: seq<seq<nat>>, a: nat, k: nat, b: nat): seq<nat>
    requires b < |lists|
  {
    if b < a then lists[b] else if b == a && k <= |lists[b]| then lists[b][..k] else []
  }

  lemma PileSnoc(l: Layout, list: seq<nat>, k: nat, i: nat)
    requires l.maxpercore > 0 && k < |list| && list[k] >= l.memstart
    ensures Pile(l, list[..k + 1], i) ==
        if l.Cpu(list[k]) == i then [list[k]] + Pile(l, list[..k], i) else Pile(l, list[..k], i)
  {
    assert list[..k + 1][..k] == list[..k];
  }

  lemma CarvedList(l: Layout, begin: seq<nat>, pages: map<nat, nat>, i: nat, a: nat, s: seq<nat>)
    requires l.Ok() && PagesOk(l, begin, pages) && i < l.ncpus && a < MAX_ARENAS && begin[i] + l.huge <= l.Start(i + 1)
    requires s == Chunks(ICeil(begin[i], Unit(a)), Unit(a), begin[i] + l.huge)
    ensures ListOk(l, pages[begin[i] := a], s, i, a) && begin[i] !in pages
  {
    var begin', pages' := begin[i := begin[i] + l.huge], pages[begin[i] := a];
    CarvedAreChunks(l, pages, begin[i], a);
    OldChunksStay(l, begin, pages, i, a);
    NewPagesOk(l, begin, pages, i, a);
    CpuOfRegion(l, begin[i], i);
    forall c | c in s ensures c >= l.memstart && l.Cpu(c) == i {
      ChunkInRegion(l, begin', pages', c);
    }
  }

  lemma AddMultiple(b: nat, n: nat, h: nat)
    requires h > 0 && b % h == 0
    ensures (b + n * h) % h == 0
  {
    DivMod(b, h);
    assert b + n * h == h * (b / h + n);
    MulMod(b / h + n, h, 0);
  }

  /** Chunk c and [p, q) do not overlap. */
  ghost predicate Apart(l: Layout, pages: map<nat, nat>, c: nat, p: nat, q: nat)
    requires l.huge > 0 && IsChunk(l, pages, c)
  {
    c + Unit(Arena(l, pages, c)) <= p || q <= c
  }

  lemma BumpOk(l: Layout, begin: seq<nat>, pages: map<nat, nat>, free: Lists, held: set<nat>, i: nat, q: nat)
    requires l.Ok() && PagesOk(l, begin, pages) && ListsOk(l, pages, free) && Conserved(l, begin, pages, free, held)
    requires i < l.ncpus && begin[i] <= q <= l.Start(i + 1) && q % l.huge == 0
    ensures PagesOk(l, begin[i := q], pages) && Conserved(l, begin[i := q], pages, free, held)
    ensures forall c: nat :: IsChunk(l, pages, c) ==> Apart(l, pages, c, begin[i], q)
  {
    BumpPages(l, begin, pages, i, q);
    forall c: nat | IsChunk(l, pages, c) ensures InOne(l, begin[i := q], pages, free, held, c) {
      assert InOne(l, begin, pages, free, held, c);
    }
    forall c: nat | IsChunk(l, pages, c) ensures Apart(l, pages, c, begin[i], q) {
      ChunkApart(l, begin, pages, c, i, q);
    }
  }

  lemma BumpPages(l: Layout, begin: seq<nat>, pages: map<nat, nat>, i: nat, q: nat)
    requires l.Ok() && PagesOk(l, begin, pages) && i < l.ncpus && begin[i] <= q <= l.Start(i + 1) && q % l.huge == 0
    ensures PagesOk(l, begin[i := q], pages)
  {
  }

  lemma StartMono(l: Layout, i: nat, j: nat)
    requires i <= j
    ensures l.Start(i) <= l.Start(j)
  {
    MulMono(l.maxpercore, i, j);
  }

  /** What a region hands out next overlaps no chunk. */
  lemma ChunkApart(l: Layout, begin: seq<nat>, pages: map<nat, nat>, c: nat, i: nat, q: nat)
    requires l.Ok() && PagesOk(l, begin, pages) && IsChunk(l, pages, c) && i < l.ncpus &&
        begin[i] <= q <= l.Start(i + 1)
    ensures Apart(l, pages, c, begin[i], q)
  {
    ChunkInRegion(l, begin, pages, c);
    var j := l.Cpu(c);
    if j < i { StartMono(l, j + 1, i); }
    if i < j { StartMono(l, i + 1, j); }
  }

  lemma StartAligned(l: Layout, i: nat)
    requires l.Ok()
    ensures l.Start(i) % l.huge == 0 && l.Start(i + 1) == l.Start(i) + l.maxpercore
  {
    var h, k, m := l.huge, l.maxpercore / l.huge, l.memstart / l.huge;
    DivMod(l.maxpercore, h);
    DivMod(l.memstart, h);
    assert l.Start(i) == h * m + i * (h * k) == h * (m + i * k);
    MulMod(m + i * k, h, 0);
  }
}
