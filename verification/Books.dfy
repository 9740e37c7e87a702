/** The accounts when a segment is widened, added, shortened or dropped. */
module Books {
  import opened Words
  import opened Bits
  import opened Layout
  import opened LayoutFacts
  import opened Heap
  import opened Kernel
  import opened Accounts
  import opened Regions
  import opened Sizes

  /** Segment x is segs[k] and the bytes [b, b + n) next to it. */
  ghost predicate Widens(segs: seq<Segment>, k: nat, x: Segment, b: int, n: nat) {
    && k < |segs| && x.size == segs[k].size + n
    && ((x.base == segs[k].base && b == segs[k].base + segs[k].size) || (x.base == b && b + n == segs[k].base))
  }

  lemma WidenedBytes(segs: seq<Segment>, k: nat, x: Segment, b: int, n: nat)
    requires Widens(segs, k, x, b, n)
    ensures forall a :: InSegs(segs[k := x], a) <==> InSegs(segs, a) || b <= a < b + n
  {
    var segs' := segs[k := x];
    forall a ensures InSegs(segs', a) <==> InSegs(segs, a) || b <= a < b + n {
      if InSegs(segs, a) {
        var j :| 0 <= j < |segs| && segs[j].base <= a < segs[j].base + segs[j].size;
        assert segs'[j].base <= a < segs'[j].base + segs'[j].size;
      }
      if b <= a < b + n { assert segs'[k].base <= a < segs'[k].base + segs'[k].size; }
      if InSegs(segs', a) {
        var j :| 0 <= j < |segs'| && segs'[j].base <= a < segs'[j].base + segs'[j].size;
        if !(b <= a < b + n) { assert segs[j].base <= a < segs[j].base + segs[j].size; }
      }
    }
  }

  lemma WidenedApart(segs: seq<Segment>, k: nat, x: Segment, b: int, n: nat, mm: map<int, Region>)
    requires Widens(segs, k, x, b, n) && RegionsApart(mm, segs) && segs[k].size > 0 && n > 0
    requires forall p :: p in mm ==> mm[p].size > 0 && Beside(b, n, mm[p].base, mm[p].size)
    ensures RegionsApart(mm, segs[k := x])
  {
    var segs' := segs[k := x];
    forall p, j | p in mm && 0 <= j < |segs'| ensures Beside(mm[p].base, mm[p].size, segs'[j].base, segs'[j].size) {
      assert Beside(mm[p].base, mm[p].size, segs[j].base, segs[j].size);
    }
  }

  lemma WidenedSegments(segs: seq<Segment>, k: nat, x: Segment, b: int, n: nat)
    requires SegmentsApart(segs) && Widens(segs, k, x, b, n) && n > 0 && b > 0 && b + n < LIMIT && x.rec == segs[k].rec
    requires x.base == segs[k].base ==> k == 0
    requires forall j :: 0 <= j < |segs| ==> Beside(b, n, segs[j].base, segs[j].size)
    ensures SegmentsApart(segs[k := x])
  {
    var segs' := segs[k := x];
    forall j | 0 <= j < |segs'|
      ensures 0 < segs'[j].base < LimitOf(segs', j) <= segs'[j].base + segs'[j].size - 32
      ensures segs'[j].base + segs'[j].size < LIMIT
    {
      assert segs[j] in segs;
    }
    forall i, j | 0 <= i < |segs'| && 0 <= j < |segs'| ensures SegApart(segs', i, j) {
      assert SegApart(segs, i, j);
      Bounds(segs, i);
      Bounds(segs, j);
    }
  }

  lemma WidenedPaged(page: nat, segs: seq<Segment>, k: nat, x: Segment, b: int, n: nat, mm: map<int, Region>)
    requires page > 0 && Paged(page, segs, mm) && Widens(segs, k, x, b, n) && b % page == 0 && n % page == 0 && b >= 0
    ensures Paged(page, segs[k := x], mm)
  {
    SumMod(segs[k].size, n, page);
  }

  lemma SumMod(x: nat, y: nat, d: nat)
    requires d > 0 && x % d == 0 && y % d == 0
    ensures (x + y) % d == 0
  {
    var q, r := x / d, y / d;
    assert x == q * d && y == r * d;
    assert x + y == (q + r) * d;
    MultipleMod(q + r, d);
  }

  /** The books after the system granted [b, b + n) and segment k took it in. */
  lemma WidenedBooks(w: Memory, w': Memory, mapped: set<int>, mapped': set<int>, segs: seq<Segment>, k: nat, x: Segment,
                     b: int, n: nat, mm: map<int, Region>, page: nat, least: int)
    requires BooksOk(w, mapped, segs, mm, page, least) && Granted(mapped, mapped', b, n) && OnPages(page, b, n)
    requires 0 < b && n > 0
    requires Widens(segs, k, x, b, n) && SegmentsApart(segs) && Local(w, w', segs[k := x])
    ensures BooksOk(w', mapped', segs[k := x], mm, page, if b < least then b else least) && |mapped'| == |mapped| + n
    ensures forall p, a :: InMappedPayload(mm, p, a) ==> Rd(w', a) == Rd(w, a)
  {
    hide Local, Accounted, RegionsApart, Paged, Bounded, Granted, Bytes, Beside;
    Bounds(segs, k);
    FreshRoom(w, mapped, mapped', segs, mm, page, least, b, n);
    WidenedBytes(segs, k, x, b, n);
    SegmentsMore(mapped, segs, segs[k := x], mm, b, n);
    WidenedApart(segs, k, x, b, n, mm);
    WidenedPaged(page, segs, k, x, b, n, mm);
    WidenedBounded(segs, k, x, b, n, mm, least);
    LocalKeepsMapped(w, w', segs[k := x], mm);
  }

  lemma WidenedBounded(segs: seq<Segment>, k: nat, x: Segment, b: int, n: nat, mm: map<int, Region>, least: int)
    requires Widens(segs, k, x, b, n) && Bounded(least, segs, mm) && 0 < b
    ensures Bounded(if b < least then b else least, segs[k := x], mm)
  {
    assert segs[k].base >= least;
  }

  // ------------------------------------------------------------- a new segment

  lemma AddedBytes(segs: seq<Segment>, s: Spare, b: int, n: nat)
    requires |segs| > 0
    ensures forall a :: InSegs(Added(segs, s, b, n), a) <==> InSegs(segs, a) || b <= a < b + n
  {
    var segs' := Added(segs, s, b, n);
    forall a ensures InSegs(segs', a) <==> InSegs(segs, a) || b <= a < b + n {
      if InSegs(segs, a) {
        var j :| 0 <= j < |segs| && segs[j].base <= a < segs[j].base + segs[j].size;
        assert segs'[j + 1].base <= a < segs'[j + 1].base + segs'[j + 1].size;
      }
      if b <= a < b + n { assert segs'[0].base <= a < segs'[0].base + segs'[0].size; }
      if InSegs(segs', a) {
        var j :| 0 <= j < |segs'| && segs'[j].base <= a < segs'[j].base + segs'[j].size;
        if j > 0 { assert segs[j - 1].base <= a < segs[j - 1].base + segs[j - 1].size; }
      }
    }
  }

  lemma AddedBooks(w: Memory, w': Memory, mapped: set<int>, mapped': set<int>, segs: seq<Segment>, s: Spare,
                   b: int, n: nat, mm: map<int, Region>, page: nat, least: int)
    requires BooksOk(w, mapped, segs, mm, page, least) && Granted(mapped, mapped', b, n) && OnPages(page, b, n)
    requires 0 < b && n > 0
    requires |segs| > 0 && SegmentsApart(segs) && Local(w, w', Added(segs, s, b, n))
    ensures BooksOk(w', mapped', Added(segs, s, b, n), mm, page, if b < least then b else least)
    ensures |mapped'| == |mapped| + n
    ensures forall p, a :: InMappedPayload(mm, p, a) ==> Rd(w', a) == Rd(w, a)
  {
    hide Local, Accounted, RegionsApart, Paged, Bounded, Added, Granted, Bytes, Beside;
    RoomyRegions(w, mm, segs);
    FreshRoom(w, mapped, mapped', segs, mm, page, least, b, n);
    AddedBytes(segs, s, b, n);
    SegmentsMore(mapped, segs, Added(segs, s, b, n), mm, b, n);
    AddedPlaces(segs, s, b, n, mm, page, least);
    LocalKeepsMapped(w, w', Added(segs, s, b, n), mm);
  }

  lemma RoomyRegions(w: Memory, mm: map<int, Region>, segs: seq<Segment>)
    requires MappedChunks(w, mm) && SegmentsApart(segs)
    ensures (forall p :: p in mm ==> mm[p].size > 0) && forall j :: 0 <= j < |segs| ==> segs[j].size > 0
  {
    forall j | 0 <= j < |segs| ensures segs[j].size > 0 { Bounds(segs, j); }
    forall p | p in mm ensures mm[p].size > 0 { assert MappedChunk(w, p, mm[p]); }
  }

  /** Fresh bytes overlap nothing and are counted once. */
  lemma FreshRoom(w: Memory, mapped: set<int>, mapped': set<int>, segs: seq<Segment>, mm: map<int, Region>, page: nat,
                  least: int, b: int, n: nat)
    requires BooksOk(w, mapped, segs, mm, page, least) && Granted(mapped, mapped', b, n) && n > 0 && SegmentsApart(segs)
    ensures (forall k :: 0 <= k < |segs| ==> Beside(b, n, segs[k].base, segs[k].size))
    ensures (forall p :: p in mm ==> mm[p].size > 0 && Beside(b, n, mm[p].base, mm[p].size))
    ensures |mapped'| == |mapped| + n && mapped' == mapped + Bytes(b, n)
  {
    RoomyRegions(w, mm, segs);
    FreshBeside(mapped, segs, mm, b, n);
    MoreBytes(mapped, b, n);
  }

  lemma AddedPlaces(segs: seq<Segment>, s: Spare, b: int, n: nat, mm: map<int, Region>, page: nat, least: int)
    requires |segs| > 0 && page > 0 && RegionsApart(mm, segs) && Paged(page, segs, mm) && Bounded(least, segs, mm)
    requires OnPages(page, b, n) && 0 < b
    requires forall p :: p in mm ==> mm[p].size > 0 && Beside(b, n, mm[p].base, mm[p].size)
    ensures RegionsApart(mm, Added(segs, s, b, n)) && Paged(page, Added(segs, s, b, n), mm)
    ensures Bounded(if b < least then b else least, Added(segs, s, b, n), mm)
  {
    var segs' := Added(segs, s, b, n);
    assert segs'[0].base == b && segs'[0].size == n;
    forall j | 1 <= j < |segs'| ensures segs'[j].base == segs[j - 1].base && segs'[j].size == segs[j - 1].size {}
    forall p, j | p in mm && 0 <= j < |segs'| ensures Beside(mm[p].base, mm[p].size, segs'[j].base, segs'[j].size) {
      if j > 0 { assert Beside(mm[p].base, mm[p].size, segs[j - 1].base, segs[j - 1].size); }
    }
    assert segs[0].base >= least > 0;
  }

  lemma FirstBooks(w: Memory, w': Memory, mapped: set<int>, mapped': set<int>, b: int, n: nat, mm: map<int, Region>,
                   page: nat, least: int)
    requires BooksOk(w, mapped, [], mm, page, least) && Granted(mapped, mapped', b, n) && OnPages(page, b, n)
    requires 0 < b && n > 0
    requires Local(w, w', [Segment(b, n, 0)])
    ensures BooksOk(w', mapped', [Segment(b, n, 0)], mm, page, if least == 0 || b < least then b else least)
    ensures |mapped'| == |mapped| + n
    ensures forall p, a :: InMappedPayload(mm, p, a) ==> Rd(w', a) == Rd(w, a)
  {
    hide Local, Accounted, RegionsApart, Paged, Bounded, Granted, Bytes, Beside;
    var segs' := [Segment(b, n, 0)];
    NoSegments();
    FreshRoom(w, mapped, mapped', [], mm, page, least, b, n);
    FirstBytes(b, n);
    SegmentsMore(mapped, [], segs', mm, b, n);
    FirstPlaces(b, n, mm, page, least);
    LocalKeepsMapped(w, w', segs', mm);
  }

  lemma NoSegments() ensures SegmentsApart([]) {}

  lemma FirstBytes(b: int, n: nat)
    ensures forall a :: InSegs([Segment(b, n, 0)], a) <==> InSegs([], a) || b <= a < b + n
  {
    var segs' := [Segment(b, n, 0)];
    forall a ensures InSegs(segs', a) <==> InSegs([], a) || b <= a < b + n {
      if b <= a < b + n { assert segs'[0].base <= a; }
    }
  }

  lemma FirstPlaces(b: int, n: nat, mm: map<int, Region>, page: nat, least: int)
    requires page > 0 && RegionsApart(mm, []) && Paged(page, [], mm) && Bounded(least, [], mm) && OnPages(page, b, n)
    requires 0 < b
    requires forall p :: p in mm ==> mm[p].size > 0 && Beside(b, n, mm[p].base, mm[p].size)
    ensures RegionsApart(mm, [Segment(b, n, 0)]) && Paged(page, [Segment(b, n, 0)], mm)
    ensures Bounded(if least == 0 || b < least then b else least, [Segment(b, n, 0)], mm)
  {
    assert [Segment(b, n, 0)][0].base == b;
  }

  // ------------------------------------------------------------- less memory

  /** The end of segment 0 moves down from its size to n. */
  lemma ShrunkBytes(segs: seq<Segment>, n: nat)
    requires SegmentsApart(segs) && |segs| > 0 && n <= segs[0].size
    ensures forall a :: InSegs(Resized(segs, n), a) <==>
              InSegs(segs, a) && !(segs[0].base + n <= a < segs[0].base + segs[0].size)
    ensures forall a :: segs[0].base + n <= a < segs[0].base + segs[0].size ==> InSegs(segs, a)
  {
    var segs' := Resized(segs, n);
    forall a ensures InSegs(segs', a) <==> InSegs(segs, a) && !(segs[0].base + n <= a < segs[0].base + segs[0].size) {
      if InSegs(segs', a) {
        var j :| 0 <= j < |segs'| && segs'[j].base <= a < segs'[j].base + segs'[j].size;
        assert segs[j].base <= a < segs[j].base + segs[j].size && SegApart(segs, 0, j);
      }
      if InSegs(segs, a) && !(segs[0].base + n <= a < segs[0].base + segs[0].size) {
        var j :| 0 <= j < |segs| && segs[j].base <= a < segs[j].base + segs[j].size;
        assert segs'[j].base <= a < segs'[j].base + segs'[j].size;
      }
    }
  }

  lemma ShrunkSegments(segs: seq<Segment>, n: nat)
    requires SegmentsApart(segs) && |segs| > 0 && TOP_FOOT_SIZE < n <= segs[0].size
    ensures SegmentsApart(Resized(segs, n))
  {
    var segs' := Resized(segs, n);
    forall k | 0 <= k < |segs'|
      ensures 0 < segs'[k].base < LimitOf(segs', k) <= segs'[k].base + segs'[k].size - 32
      ensures segs'[k].base + segs'[k].size < LIMIT
    {
      assert segs[k] in segs;
    }
    forall i, j | 0 <= i < |segs'| && 0 <= j < |segs'| ensures SegApart(segs', i, j) { assert SegApart(segs, i, j); }
  }

  lemma RegionsOff(segs: seq<Segment>, mm: map<int, Region>, k: nat, a: int)
    requires RegionsApart(mm, segs) && k < |segs| && segs[k].base <= a < segs[k].base + segs[k].size
    ensures !InRegions(mm, a)
  {
    forall p | p in mm ensures !(mm[p].base <= a < mm[p].base + mm[p].size) {
      assert Beside(mm[p].base, mm[p].size, segs[k].base, segs[k].size);
    }
  }

  lemma ShrunkBooks(w: Memory, w': Memory, mapped: set<int>, segs: seq<Segment>, n: nat, mm: map<int, Region>,
                    page: nat, least: int)
    requires BooksOk(w, mapped, segs, mm, page, least) && SegmentsApart(segs) && |segs| > 0 && n <= segs[0].size
    requires n % page == 0
    requires Local(w, w', Resized(segs, n))
    ensures var gone := Bytes(segs[0].base + n, segs[0].size - n);
      && gone <= mapped && |mapped - gone| == |mapped| - (segs[0].size - n)
      && BooksOk(w', mapped - gone, Resized(segs, n), mm, page, least)
    ensures forall p, a :: InMappedPayload(mm, p, a) ==> Rd(w', a) == Rd(w, a)
  {
    hide Local, MappedChunks, SegmentsApart, RegionsApart, Paged, Bounded, Accounted, Bytes;
    var segs', b, t := Resized(segs, n), segs[0].base + n, segs[0].size - n;
    ShrunkBytes(segs, n);
    forall a | b <= a < b + t ensures InSegs(segs, a) && !InRegions(mm, a) { RegionsOff(segs, mm, 0, a); }
    SegmentsLess(mapped, segs, segs', mm, b, t);
    FewerBytes(mapped, b, t);
    ShrunkPlaces(segs, n, mm, page, least);
    LocalKeepsMapped(w, w', segs', mm);
  }

  lemma ShrunkPlaces(segs: seq<Segment>, n: nat, mm: map<int, Region>, page: nat, least: int)
    requires RegionsApart(mm, segs) && page > 0 && Paged(page, segs, mm) && Bounded(least, segs, mm)
    requires |segs| > 0 && n <= segs[0].size && n % page == 0
    ensures RegionsApart(mm, Resized(segs, n)) && Paged(page, Resized(segs, n), mm)
    ensures Bounded(least, Resized(segs, n), mm)
  {
    var segs' := Resized(segs, n);
    forall p, j | p in mm && 0 <= j < |segs'| ensures Beside(mm[p].base, mm[p].size, segs'[j].base, segs'[j].size) {
      assert Beside(mm[p].base, mm[p].size, segs[j].base, segs[j].size);
    }
  }

  lemma DroppedBytes(segs: seq<Segment>, k: nat)
    requires SegmentsApart(segs) && 1 <= k < |segs|
    ensures forall a :: InSegs(Shorter(segs, k), a) <==>
              InSegs(segs, a) && !(segs[k].base <= a < segs[k].base + segs[k].size)
  {
    var segs' := Shorter(segs, k);
    forall a ensures InSegs(segs', a) <==> InSegs(segs, a) && !(segs[k].base <= a < segs[k].base + segs[k].size) {
      if InSegs(segs', a) {
        var i: nat :| 0 <= i < |segs'| && segs'[i].base <= a < segs'[i].base + segs'[i].size;
        var j := if i < k then i else i + 1;
        DroppedAt(segs, k, j);
        assert segs[j].base <= a < segs[j].base + segs[j].size && SegApart(segs, k, j);
      }
      if InSegs(segs, a) && !(segs[k].base <= a < segs[k].base + segs[k].size) {
        var j: nat :| 0 <= j < |segs| && segs[j].base <= a < segs[j].base + segs[j].size;
        DroppedAt(segs, k, j);
        assert segs'[Shift(k, j)].base <= a < segs'[Shift(k, j)].base + segs'[Shift(k, j)].size;
      }
    }
  }

  lemma DroppedPlaces(segs: seq<Segment>, k: nat, mm: map<int, Region>, page: nat, least: int)
    requires RegionsApart(mm, segs) && page > 0 && Paged(page, segs, mm) && Bounded(least, segs, mm) && 1 <= k < |segs|
    ensures RegionsApart(mm, Shorter(segs, k)) && Paged(page, Shorter(segs, k), mm)
    ensures Bounded(least, Shorter(segs, k), mm)
  {
    var segs' := Shorter(segs, k);
    forall i | 0 <= i < |segs'| ensures Among(segs', i, segs) {
      var j := if i < k then i else i + 1;
      DroppedAt(segs, k, j);
      assert segs'[i] == segs[j];
    }
    FewerPlaces(segs, segs', mm, page, least);
  }

  ghost predicate Among(segs': seq<Segment>, i: int, segs: seq<Segment>) requires 0 <= i < |segs'|
  { exists j :: 0 <= j < |segs| && segs'[i] == segs[j] }

  lemma FewerPlaces(segs: seq<Segment>, segs': seq<Segment>, mm: map<int, Region>, page: nat, least: int)
    requires RegionsApart(mm, segs) && page > 0 && Paged(page, segs, mm) && Bounded(least, segs, mm)
    requires forall i :: 0 <= i < |segs'| ==> Among(segs', i, segs)
    ensures RegionsApart(mm, segs') && Paged(page, segs', mm) && Bounded(least, segs', mm)
  {
    hide Paged, RegionsApart, Bounded, Among;
    FewerPaged(segs, segs', mm, page);
    FewerApart(segs, segs', mm);
    FewerBounded(segs, segs', mm, least);
  }

  lemma FewerApart(segs: seq<Segment>, segs': seq<Segment>, mm: map<int, Region>)
    requires RegionsApart(mm, segs) && forall i :: 0 <= i < |segs'| ==> Among(segs', i, segs)
    ensures RegionsApart(mm, segs')
  {
    forall p, i | p in mm && 0 <= i < |segs'| ensures Beside(mm[p].base, mm[p].size, segs'[i].base, segs'[i].size) {
      assert Among(segs', i, segs);
      var j :| 0 <= j < |segs| && segs'[i] == segs[j];
      assert Beside(mm[p].base, mm[p].size, segs[j].base, segs[j].size);
    }
  }

  lemma FewerBounded(segs: seq<Segment>, segs': seq<Segment>, mm: map<int, Region>, least: int)
    requires Bounded(least, segs, mm) && forall i :: 0 <= i < |segs'| ==> Among(segs', i, segs)
    ensures Bounded(least, segs', mm)
  {
    if |segs'| > 0 {
      assert Among(segs', 0, segs);
      var j :| 0 <= j < |segs| && segs'[0] == segs[j];
      assert 0 < least <= segs[j].base;
    }
    forall i | 0 <= i < |segs'| ensures least <= segs'[i].base {
      assert Among(segs', i, segs);
      var j :| 0 <= j < |segs| && segs'[i] == segs[j];
      assert least <= segs[j].base;
    }
  }

  lemma FewerPaged(segs: seq<Segment>, segs': seq<Segment>, mm: map<int, Region>, page: nat)
    requires page > 0 && Paged(page, segs, mm) && forall i :: 0 <= i < |segs'| ==> Among(segs', i, segs)
    ensures Paged(page, segs', mm)
  {
    forall i | 0 <= i < |segs'| ensures segs'[i].base % page == 0 && segs'[i].size % page == 0 {
      assert Among(segs', i, segs);
      var j :| 0 <= j < |segs| && segs'[i] == segs[j];
      var s := segs[j];
      assert s.base % page == 0 && s.size % page == 0;
    }
  }

  lemma DroppedBooks(w: Memory, mapped: set<int>, segs: seq<Segment>, k: nat, mm: map<int, Region>, page: nat,
                     least: int)
    requires BooksOk(w, mapped, segs, mm, page, least) && SegmentsApart(segs) && 1 <= k < |segs|
    ensures var gone := Bytes(segs[k].base, segs[k].size);
      && gone <= mapped && |mapped - gone| == |mapped| - segs[k].size
      && BooksOk(w, mapped - gone, Shorter(segs, k), mm, page, least)
  {
    hide MappedChunks, SegmentsApart, RegionsApart, Paged, Bounded, Accounted, Bytes;
    DroppedBytes(segs, k);
    forall a | segs[k].base <= a < segs[k].base + segs[k].size
      ensures InSegs(segs, a) && !InRegions(mm, a)
    {
      RegionsOff(segs, mm, k, a);
    }
    SegmentsLess(mapped, segs, Shorter(segs, k), mm, segs[k].base, segs[k].size);
    FewerBytes(mapped, segs[k].base, segs[k].size);
    DroppedPlaces(segs, k, mm, page, least);
  }
}
