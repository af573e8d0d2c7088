/** The arena allocator as an object (bench/servers/silo/allocator.cc): region bumps, heads of the free
    lists and the words that link them. */
module AllocatorHeap {
  import opened WaiterList
  import opened Allocator
  import opened AllocatorLists

  /** The lists to release are separate: held chunks are not free, and a chunk has one arena. */
  lemma ReleasableSeparate(l: Layout, begin: seq<nat>, pages: map<nat, nat>, free: Lists, held: set<nat>,
                           lists: seq<seq<nat>>)
    requires l.Ok() && PagesOk(l, begin, pages) && ListsOk(l, pages, free) && Conserved(l, begin, pages, free, held)
    requires Releasable(l, pages, held, lists)
    ensures Separate(l, lists, free)
  {
    forall a, i, b, c {:trigger c in lists[a], c in free[i][b]} |
      0 <= a < MAX_ARENAS && 0 <= i < l.ncpus && 0 <= b < MAX_ARENAS && c in lists[a]
      ensures c !in free[i][b]
    {
      assert ListOk(l, pages, free[i][b], i, b);
      assert InOne(l, begin, pages, free, held, c);
    }
  }

  /** Claiming a list leaves the others linked. */
  lemma ClaimHeaded(l: Layout, link: map<nat, nat>, heads: Heads, free: Lists, i: nat, a: nat)
    requires Headed(l, link, heads, free) && i < l.ncpus && a < MAX_ARENAS
    ensures Headed(l, link, heads[i := heads[i][a := 0]], free[i := free[i][a := []]])
  {
  }

  /** Writes to the words of chunks that are not free leave the free lists linked. */
  lemma OutsideHeaded(l: Layout, link: map<nat, nat>, heads: Heads, free: Lists, link': map<nat, nat>)
    requires Headed(l, link, heads, free)
    requires forall i, b, c {:trigger c in free[i][b]} ::
      0 <= i < l.ncpus && 0 <= b < MAX_ARENAS && c in free[i][b] && c in link ==> c in link' && link'[c] == link[c]
    ensures Headed(l, link', heads, free)
  {
    forall i, b | 0 <= i < l.ncpus && 0 <= b < MAX_ARENAS ensures IsList(link', heads[i][b], free[i][b]) {
      var s := free[i][b];
      forall j | 0 <= j < |s| ensures LinkAt(link', s, j) { assert LinkAt(link, s, j) && s[j] in free[i][b]; }
    }
  }

  lemma CarvedHeaded(l: Layout, link: map<nat, nat>, heads: Heads, free: Lists, link': map<nat, nat>, begin: seq<nat>,
                     pages: map<nat, nat>, i: nat, a: nat, s: seq<nat>)
    requires l.Ok() && PagesOk(l, begin, pages) && ListsOk(l, pages, free) && Headed(l, link, heads, free)
    requires i < l.ncpus && a < MAX_ARENAS && begin[i] + l.huge <= l.Start(i + 1)
    requires OnlyWithin(link, link', s) && forall c :: c in s ==> l.Page(c) == begin[i]
    ensures Headed(l, link', heads, free)
  {
    OldChunksStay(l, begin, pages, i, a);
    forall j, b, c {:trigger c in free[j][b]} | 0 <= j < l.ncpus && 0 <= b < MAX_ARENAS && c in free[j][b] && c in link
      ensures c in link' && link'[c] == link[c]
    {
      assert ListOk(l, pages, free[j][b], j, b);
    }
    OutsideHeaded(l, link, heads, free, link');
  }

  class Alloc {
    const l: Layout
    var begin: seq<nat>              // region_begin of each CPU
    var heads: Heads                 // arenas of each CPU; 0 is the null pointer
    var link: map<nat, nat>          // the first word of every chunk
    ghost var free: Lists            // the free lists
    ghost var pages: map<nat, nat>   // managed pages and their arena
    ghost var held: set<nat>         // chunks handed out and not released

    ghost predicate Valid()
      reads this
    {
      && l.Ok() && PagesOk(l, begin, pages) && ListsOk(l, pages, free) && Conserved(l, begin, pages, free, held)
      && Headed(l, link, heads, free)
    }

    constructor (x: nat, ncpus: nat, maxpercore: nat, huge: nat)
      requires x > 0 && maxpercore > 0 && huge >= 2 * Unit(MAX_ARENAS - 1)
      ensures Valid() && held == {} && pages == map[] && l == MakeLayout(x, ncpus, maxpercore, huge)
      ensures begin == seq(ncpus, i requires i >= 0 => l.Start(i))
    {
      LayoutFits(x, ncpus, maxpercore, huge);
      var layout := MakeLayout(x, ncpus, maxpercore, huge);
      l := layout;
      begin := seq(ncpus, i requires i >= 0 => layout.Start(i));
      heads, free := seq(ncpus, _ => seq(MAX_ARENAS, _ => 0)), seq(ncpus, _ => seq(MAX_ARENAS, _ => []));
      link, pages, held := map[], map[], {};
      new;
      forall i | 0 <= i < ncpus ensures l.Start(i) <= begin[i] <= l.Start(i + 1) && begin[i] % l.huge == 0 {
        StartAligned(l, i);
      }
    }

    /** `AllocateUnmanagedWithLock`: bump the region; false stands for running out of memory, where the
        program stops. */
    method AllocateUnmanaged(cpu: nat, pgs: nat) returns (p: nat, ok: bool)
      requires Valid() && cpu < l.ncpus
      modifies this`begin
      ensures Valid() && (ok <==> old(begin)[cpu] + pgs * l.huge <= l.Start(cpu + 1))
      ensures ok ==> p == old(begin)[cpu] && begin == old(begin)[cpu := p + pgs * l.huge]
      ensures !ok ==> begin == old(begin)
      ensures ok ==> forall c: nat :: IsChunk(l, pages, c) ==> Apart(l, pages, c, p, p + pgs * l.huge)
    {
      p := begin[cpu];
      var q := p + pgs * l.huge;
      if q > l.Start(cpu + 1) { return p, false; }
      AddMultiple(p, pgs, l.huge);
      BumpOk(l, begin, pages, free, held, cpu, q);
      begin := begin[cpu := q];
      ok := true;
    }

    /** The holder of a chunk may write to it. */
    method Store(c: nat, w: nat)
      requires Valid() && c in held
      modifies this`link
      ensures Valid() && link == old(link)[c := w]
    {
      forall i, b, d {:trigger d in free[i][b]} | 0 <= i < l.ncpus && 0 <= b < MAX_ARENAS && d in free[i][b]
        ensures d != c
      {
        assert ListOk(l, pages, free[i][b], i, b);
        assert InOne(l, begin, pages, free, held, d);
      }
      OutsideHeaded(l, link, heads, free, link[c := w]);
      link := link[c := w];
    }

    /** Claim the free list. */
    method Claim(cpu: nat, arena: nat) returns (p: nat, ghost s: seq<nat>)
      requires Valid() && cpu < l.ncpus && arena < MAX_ARENAS
      modifies this`heads, this`free, this`held
      ensures Valid() && p == old(heads)[cpu][arena] && s == old(free)[cpu][arena]
      ensures IsList(link, p, s) && ListOk(l, pages, s, cpu, arena)
      ensures held == old(held) + Elems(s) && Elems(s) !! old(held)
      ensures free == old(free)[cpu := old(free)[cpu][arena := []]]
    {
      p, s := heads[cpu][arena], free[cpu][arena];
      TakeList(l, begin, pages, free, held, cpu, arena);
      ClaimHeaded(l, link, heads, free, cpu, arena);
      assert ListOk(l, pages, s, cpu, arena);
      heads := heads[cpu := heads[cpu][arena := 0]];
      free := free[cpu := free[cpu][arena := []]];
      held := held + Elems(s);
    }

    /** Carve the next page of the region into a new list. */
    method Carve(cpu: nat, arena: nat) returns (p: nat, ghost s: seq<nat>)
      requires Valid() && cpu < l.ncpus && arena < MAX_ARENAS && begin[cpu] + l.huge <= l.Start(cpu + 1)
      modifies this`begin, this`link, this`pages, this`held
      ensures Valid() && IsList(link, p, s) && ListOk(l, pages, s, cpu, arena)
      ensures s == Chunks(ICeil(old(begin)[cpu], Unit(arena)), Unit(arena), old(begin)[cpu] + l.huge)
      ensures held == old(held) + Elems(s) && Elems(s) !! old(held)
      ensures pages == old(pages)[old(begin)[cpu] := arena] && old(begin)[cpu] !in old(pages)
      ensures begin == old(begin)[cpu := old(begin)[cpu] + l.huge] && s != []
    {
      var page, link' := begin[cpu], map[];
      p, link' := InitializePage(page, l.huge, Unit(arena), link);
      s := Chunks(p, Unit(arena), page + l.huge);
      CarvePage(l, begin, pages, free, held, cpu, arena, s);
      CarvedHeaded(l, link, heads, free, link', begin, pages, cpu, arena, s);
      CarvedList(l, begin, pages, cpu, arena, s);
      SomeChunk(l, page, arena);
      link, begin := link', begin[cpu := page + l.huge];
      pages, held := pages[page := arena], held + Elems(s);
    }

    /** `AllocateArenas`: the head of the CPU's free list, or of a freshly carved page; false stands for
        running out of memory. */
    method AllocateArenas(cpu: nat, arena: nat) returns (p: nat, ok: bool, ghost s: seq<nat>)
      requires Valid() && cpu < l.ncpus && arena < MAX_ARENAS
      modifies this
      ensures Valid()
      ensures ok <==> old(free)[cpu][arena] != [] || old(begin)[cpu] + l.huge <= l.Start(cpu + 1)
      ensures !ok ==> free == old(free) && held == old(held) && pages == old(pages) && begin == old(begin)
      ensures ok ==> s != [] && p == s[0] && IsList(link, p, s) && ListOk(l, pages, s, cpu, arena)
      ensures ok ==> held == old(held) + Elems(s) && Elems(s) !! old(held)
      ensures ok ==>
        var given, page := old(free)[cpu][arena], old(begin)[cpu];
        if given != [] then
          && s == given && free == old(free)[cpu := old(free)[cpu][arena := []]]
          && pages == old(pages) && begin == old(begin)
        else
          && s == Chunks(ICeil(page, Unit(arena)), Unit(arena), page + l.huge) && free == old(free)
          && pages == old(pages)[page := arena] && begin == old(begin)[cpu := page + l.huge]
    {
      FreeIsPositive(l, pages, free, cpu, arena);
      NullIsEmpty(free[cpu][arena]);
      if heads[cpu][arena] != 0 {
        p, s := Claim(cpu, arena);
        ok := true;
      } else if begin[cpu] + l.huge > l.Start(cpu + 1) {
        p, ok, s := 0, false, [];
      } else {
        p, s := Carve(cpu, arena);
        ok := true;
      }
    }

    /** `ReleaseArenas`: take the lists at `arenas` apart by home CPU, then put each pile in front of the
        free list of its CPU and arena. */
    method ReleaseArenas(arenas: seq<nat>, ghost lists: seq<seq<nat>>)
      requires Valid() && Releasable(l, pages, held, lists) && Waiting(link, arenas, lists, 0)
      modifies this
      ensures Valid() && held == old(held) - All(lists) && pages == old(pages) && begin == old(begin)
      ensures free == PutBack(l, lists, old(free))
    {
      ReleasableSeparate(l, begin, pages, free, held, lists);
      var sorted, m := SortByHome(l, link, arenas, lists, heads, free);
      ReleaseOk(l, begin, pages, free, held, lists);
      link, heads := Splice(l, sorted, m, heads, lists, free);
      free := PutBack(l, lists, free);
      held := held - All(lists);
    }
  }

  /** A page has room for a chunk of any arena. */
  lemma SomeChunk(l: Layout, page: nat, arena: nat)
    requires l.Ok() && arena < MAX_ARENAS
    ensures Chunks(ICeil(page, Unit(arena)), Unit(arena), page + l.huge) != []
  {
    ICeilIsLeast(page, Unit(arena), page);
  }

  lemma FreeIsPositive(l: Layout, pages: map<nat, nat>, free: Lists, i: nat, a: nat)
    requires l.Ok() && ListsOk(l, pages, free) && i < l.ncpus && a < MAX_ARENAS
    ensures 0 !in free[i][a]
  {
    assert ListOk(l, pages, free[i][a], i, a);
  }
}
