/** Which bytes the allocator holds: its segments and the chunks mapped on their own. */
module Accounts {
  import opened Words
  import opened Bits
  import opened Layout
  import opened Heap
  import opened Kernel

  /** The pages behind a directly mapped chunk. */
  datatype Region = Region(base: int, size: nat)

  const MMAP_FOOT_PAD: int := 32

  /** From a directly mapped chunk to the end of its pages: it is not small, and fenceposts follow it. */
  const LEAST_REGION: int := 256 + MMAP_FOOT_PAD

  ghost predicate InRegions(mm: map<int, Region>, a: int)
  { exists p :: p in mm && mm[p].base <= a < mm[p].base + mm[p].size }

  /** The system's view and the allocator's agree. */
  ghost predicate Accounted(mapped: set<int>, segs: seq<Segment>, mm: map<int, Region>)
  { forall a :: a in mapped <==> InSegs(segs, a) || InRegions(mm, a) }

  /** The footprint does not grow past a limit that is set. */
  ghost predicate Heeded(before: nat, after: nat, limit: nat) { after > before && limit != 0 ==> after <= limit }

  ghost predicate Beside(b: int, n: nat, b': int, n': nat) { b + n <= b' || b' + n' <= b }

  /** Regions overlap neither each other nor a segment. */
  ghost predicate RegionsApart(mm: map<int, Region>, segs: seq<Segment>) {
    && (forall p, q {:trigger mm[p], mm[q]} :: p in mm && q in mm && p != q ==>
          Beside(mm[p].base, mm[p].size, mm[q].base, mm[q].size))
    && (forall p, k {:trigger mm[p], segs[k]} :: p in mm && 0 <= k < |segs| ==>
          Beside(mm[p].base, mm[p].size, segs[k].base, segs[k].size))
  }

  /** A directly mapped chunk: both in-use bits clear, prev_foot the offset from the start of its pages,
      and its size what is left of them but for the trailing fenceposts. */
  ghost predicate MappedChunk(w: Memory, p: int, r: Region) {
    && 0 < r.base <= p && p % 16 == 0 && p + LEAST_REGION <= r.base + r.size < LIMIT
    && (r.base + r.size) % 16 == 0
    && Rd(w, FootAt(p)) == p - r.base
    && Rd(w, HeadAt(p)) == r.base + r.size - MMAP_FOOT_PAD - p
    && Rd(w, HeadAt(r.base + r.size - MMAP_FOOT_PAD)) == FENCEPOST_HEAD
    && Rd(w, HeadAt(r.base + r.size - MMAP_FOOT_PAD) + 8) == 0
  }

  ghost predicate MappedChunks(w: Memory, mm: map<int, Region>)
  { forall p {:trigger MappedChunk(w, p, mm[p])} :: p in mm ==> MappedChunk(w, p, mm[p]) }

  /** Nothing lies below least_addr. */
  ghost predicate Bounded(least: int, segs: seq<Segment>, mm: map<int, Region>) {
    && least >= 0
    && (forall k :: 0 <= k < |segs| ==> 0 < least <= segs[k].base)
    && (forall p :: p in mm ==> 0 < least <= mm[p].base)
  }

  ghost predicate OnPages(page: nat, b: int, n: nat) { page > 0 && b % page == 0 && n % page == 0 }

  ghost predicate Paged(page: nat, segs: seq<Segment>, mm: map<int, Region>) requires page > 0 {
    && (forall k :: 0 <= k < |segs| ==> segs[k].base % page == 0 && segs[k].size % page == 0)
    && (forall p :: p in mm ==> mm[p].base % page == 0 && mm[p].size % page == 0)
  }

  /** Words of a directly mapped chunk that its owner may write. */
  ghost predicate InMappedPayload(mm: map<int, Region>, p: int, a: int)
  { p in mm && p + 16 <= a < mm[p].base + mm[p].size - MMAP_FOOT_PAD }

  /** Work inside the segments leaves directly mapped chunks alone. */
  lemma LocalKeepsMapped(w: Memory, w': Memory, segs: seq<Segment>, mm: map<int, Region>)
    requires Local(w, w', segs) && RegionsApart(mm, segs) && MappedChunks(w, mm)
    ensures MappedChunks(w', mm)
    ensures forall p, a :: InMappedPayload(mm, p, a) ==> Rd(w', a) == Rd(w, a)
  {
    forall p, a | p in mm && mm[p].base <= a < mm[p].base + mm[p].size && a > 0 ensures Rd(w', a) == Rd(w, a) {
      assert !InSegs(segs, a);
    }
    forall p | p in mm ensures MappedChunk(w', p, mm[p]) { assert MappedChunk(w, p, mm[p]); }
    forall p, a | InMappedPayload(mm, p, a) ensures Rd(w', a) == Rd(w, a) { assert MappedChunk(w, p, mm[p]); }
  }

  /** Fresh pages overlap nothing the allocator holds. */
  lemma FreshBeside(mapped: set<int>, segs: seq<Segment>, mm: map<int, Region>, b: int, n: nat)
    requires Accounted(mapped, segs, mm) && mapped !! Bytes(b, n) && n > 0
    requires forall k :: 0 <= k < |segs| ==> segs[k].size > 0
    requires forall p :: p in mm ==> mm[p].size > 0
    ensures forall k :: 0 <= k < |segs| ==> Beside(b, n, segs[k].base, segs[k].size)
    ensures forall p :: p in mm ==> Beside(b, n, mm[p].base, mm[p].size)
  {
    forall k | 0 <= k < |segs| ensures Beside(b, n, segs[k].base, segs[k].size) {
      var a := if b < segs[k].base then segs[k].base else b;
      assert a in Bytes(b, n) ==> a !in mapped;
      assert segs[k].base <= a < segs[k].base + segs[k].size ==> InSegs(segs, a);
    }
    forall p | p in mm ensures Beside(b, n, mm[p].base, mm[p].size) {
      var a := if b < mm[p].base then mm[p].base else b;
      assert a in Bytes(b, n) ==> a !in mapped;
      assert mm[p].base <= a < mm[p].base + mm[p].size ==> InRegions(mm, a);
    }
  }

  /** One more region. */
  lemma RegionAdded(mapped: set<int>, segs: seq<Segment>, mm: map<int, Region>, p: int, r: Region)
    requires Accounted(mapped, segs, mm) && RegionsApart(mm, segs) && p !in mm
    requires forall k :: 0 <= k < |segs| ==> Beside(r.base, r.size, segs[k].base, segs[k].size)
    requires forall q :: q in mm ==> Beside(r.base, r.size, mm[q].base, mm[q].size)
    ensures Accounted(mapped + Bytes(r.base, r.size), segs, mm[p := r]) && RegionsApart(mm[p := r], segs)
  {
    var mm' := mm[p := r];
    forall a ensures InRegions(mm', a) <==> InRegions(mm, a) || a in Bytes(r.base, r.size) {
      if InRegions(mm, a) {
        var q :| q in mm && mm[q].base <= a < mm[q].base + mm[q].size;
        assert q in mm' && mm'[q] == mm[q];
      }
      if a in Bytes(r.base, r.size) { assert p in mm' && mm'[p] == r; }
    }
  }

  /** One region less. */
  lemma RegionGone(mapped: set<int>, segs: seq<Segment>, mm: map<int, Region>, p: int)
    requires Accounted(mapped, segs, mm) && RegionsApart(mm, segs) && p in mm
    ensures Bytes(mm[p].base, mm[p].size) <= mapped
    ensures Accounted(mapped - Bytes(mm[p].base, mm[p].size), segs, mm - {p}) && RegionsApart(mm - {p}, segs)
  {
    var r, mm' := mm[p], mm - {p};
    forall a | a in Bytes(r.base, r.size) ensures a in mapped { assert InRegions(mm, a); }
    forall a ensures InRegions(mm', a) <==> InRegions(mm, a) && a !in Bytes(r.base, r.size) {
      if InRegions(mm', a) {
        var q :| q in mm' && mm'[q].base <= a < mm'[q].base + mm'[q].size;
        assert q in mm && mm[q] == mm'[q] && Beside(mm[p].base, mm[p].size, mm[q].base, mm[q].size);
      }
      if InRegions(mm, a) && a !in Bytes(r.base, r.size) {
        var q :| q in mm && mm[q].base <= a < mm[q].base + mm[q].size;
        assert q in mm';
      }
    }
    forall a | InSegs(segs, a) ensures a !in Bytes(r.base, r.size) {
      var k :| 0 <= k < |segs| && segs[k].base <= a < segs[k].base + segs[k].size;
      assert Beside(mm[p].base, mm[p].size, segs[k].base, segs[k].size);
    }
  }

  /** The segments cover more, or less, by the bytes of [b, b + n). */
  lemma SegmentsMore(mapped: set<int>, segs: seq<Segment>, segs': seq<Segment>, mm: map<int, Region>, b: int, n: nat)
    requires Accounted(mapped, segs, mm) && forall a :: InSegs(segs', a) <==> InSegs(segs, a) || b <= a < b + n
    ensures Accounted(mapped + Bytes(b, n), segs', mm)
  {}

  lemma SegmentsLess(mapped: set<int>, segs: seq<Segment>, segs': seq<Segment>, mm: map<int, Region>, b: int, n: nat)
    requires Accounted(mapped, segs, mm) && (forall a :: InSegs(segs', a) <==> InSegs(segs, a) && !(b <= a < b + n))
    requires forall a :: b <= a < b + n ==> InSegs(segs, a) && !InRegions(mm, a)
    ensures Bytes(b, n) <= mapped && Accounted(mapped - Bytes(b, n), segs', mm)
  {}

  /** No payload of a chunk in use, in a segment or on its own, differs. */
  ghost predicate Undisturbed(w: Memory, w': Memory, L: Layout, mm: map<int, Region>) {
    && (forall u, a :: InPayload(L, u, a) ==> Rd(w', a) == Rd(w, a))
    && (forall p, a :: InMappedPayload(mm, p, a) ==> Rd(w', a) == Rd(w, a))
  }

  lemma CountBound(m: set<int>, n: nat)
    requires forall a :: a in m ==> 0 < a <= n
    ensures |m| <= n
  {
    BytesCount(1, n);
    assert Bytes(1, n) == m + (Bytes(1, n) - m);
  }

  lemma MappedBelow(mapped: set<int>, segs: seq<Segment>, mm: map<int, Region>, w: Memory, n: nat)
    requires Accounted(mapped, segs, mm) && SegmentsApart(segs) && MappedChunks(w, mm) && n == LIMIT - 1
    ensures |mapped| < LIMIT
  {
    forall a | a in mapped ensures 0 < a <= n {
      if InSegs(segs, a) {
        var k :| 0 <= k < |segs| && segs[k].base <= a < segs[k].base + segs[k].size;
        assert segs[k] in segs;
      } else {
        var p :| p in mm && mm[p].base <= a < mm[p].base + mm[p].size;
        assert MappedChunk(w, p, mm[p]);
      }
    }
    CountBound(mapped, n);
  }

  /** The footprint check before a request to the system, in 64-bit arithmetic. */
  predicate WithinLimit(footprint: nat, size: nat, limit: nat)
  { limit == 0 || var fp := (footprint + size) % LIMIT; fp > footprint && fp <= limit }

  /** It passes just when there is no limit or the sum, which then did not wrap, stays within it. */
  lemma LimitExact(footprint: nat, size: nat, limit: nat)
    requires footprint < LIMIT && 0 < size < LIMIT && limit < LIMIT
    ensures WithinLimit(footprint, size, limit) <==> limit == 0 || footprint + size <= limit
  {}

  lemma RegionBounded(least: int, segs: seq<Segment>, mm: map<int, Region>, p: int, r: Region)
    requires Bounded(least, segs, mm) && r.base > 0
    ensures Bounded(if least == 0 || r.base < least then r.base else least, segs, mm[p := r])
  {}

  lemma RegionPaged(page: nat, segs: seq<Segment>, mm: map<int, Region>, p: int, r: Region)
    requires page > 0 && Paged(page, segs, mm) && r.base % page == 0 && r.size % page == 0
    ensures Paged(page, segs, mm[p := r])
  {}

  /** The allocator's view of its memory is sound and agrees with the system's. */
  ghost predicate BooksOk(w: Memory, mapped: set<int>, segs: seq<Segment>, mm: map<int, Region>, page: nat,
                          least: int) {
    && MappedChunks(w, mm) && RegionsApart(mm, segs) && Accounted(mapped, segs, mm)
    && page > 0 && Paged(page, segs, mm) && Bounded(least, segs, mm)
  }

  /** The system has mapped [b, b + n) in addition. */
  ghost predicate Granted(mapped: set<int>, mapped': set<int>, b: int, n: nat)
  { mapped !! Bytes(b, n) && mapped' == mapped + Bytes(b, n) }
}
