/** Which pages of a region are mapped (bench/servers/silo/allocator.cc): AllocateUnmanaged maps one huge
    page however many it hands out, FaultRegion maps all that is left. */
module AllocatorPages {
  class Region {
    const huge: nat
    const end: nat                // region_end
    var begin: nat                // region_begin
    var faulted: bool
    ghost var mapped: set<nat>    // addresses of mapped pages

    /** What is not handed out yet is all mapped, or, in a region not faulted, at most its first page. */
    ghost predicate Valid()
      reads this
    {
      && huge > 0 && begin <= end
      && (faulted ==> forall j: nat :: begin + j * huge < end ==> begin + j * huge in mapped)
      && (!faulted ==> forall q :: q in mapped ==> q <= begin)
    }

    constructor (begin: nat, end: nat, huge: nat)
      requires huge > 0 && begin <= end
      ensures Valid() && this.begin == begin && this.end == end && this.huge == huge && !faulted && mapped == {}
    {
      this.begin, this.end, this.huge, faulted, mapped := begin, end, huge, false, {};
    }

    ghost predicate AllMapped(p: nat, n: nat)
      reads this
    {
      forall j: nat :: j < n ==> p + j * huge in mapped
    }

    /** All n pages handed out are mapped exactly when the region was faulted or n is at most 1. */
    method AllocateUnmanaged(n: nat) returns (p: nat, ok: bool)
      requires Valid()
      modifies this`begin, this`mapped
      ensures Valid() && (ok <==> old(begin) + n * huge <= end)
      ensures ok ==> p == old(begin) && begin == p + n * huge
      ensures !ok ==> begin == old(begin) && mapped == old(mapped)
      ensures ok ==> mapped == if faulted then old(mapped) else old(mapped) + {p}
      ensures ok ==> (AllMapped(p, n) <==> faulted || n <= 1)
    {
      p := begin;
      if p + n * huge > end { return p, false; }
      ok := true;
      begin := p + n * huge;
      if !faulted {
        mapped := mapped + {p};
        if n >= 2 {
          assert p + 1 * huge !in mapped;
        } else {
          assert forall j: nat :: j < n ==> j * huge == 0;
        }
      } else {
        forall j: nat | j < n ensures p + j * huge in mapped { Below(j, n, huge); }
        forall j: nat | begin + j * huge < end ensures begin + j * huge in mapped {
          assert begin + j * huge == p + (n + j) * huge;
        }
      }
    }

    /** `FaultRegion`. */
    method FaultRegion()
      requires Valid()
      modifies this`faulted, this`mapped
      ensures Valid() && faulted
      ensures old(faulted) ==> mapped == old(mapped)
    {
      if faulted { return; }
      mapped := mapped + set j | 0 <= j < end - begin && begin + j * huge < end :: begin + j * huge;
      faulted := true;
      forall j: nat | begin + j * huge < end ensures begin + j * huge in mapped { AtMost(j, huge); }
    }
  }

  lemma Below(j: nat, n: nat, huge: nat)
    requires j < n && huge > 0
    ensures j * huge < n * huge
  {
  }

  lemma AtMost(j: nat, huge: nat)
    requires huge > 0
    ensures j <= j * huge
  {
  }
}
