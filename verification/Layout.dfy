/** The chunks of the heap as a value: what the boundary tags describe. */
module Layout {
  import opened Bits

  datatype Chunk = Chunk(size: nat, inuse: bool, pinuse: bool)

  type Layout = map<int, Chunk>

  /** A segment obtained from the system. Chunks fill [base, limit). The segment holding top ends
      in top's foot; in every other one the chunk rec, which holds the segment record, comes last. */
  datatype Segment = Segment(base: int, size: nat, rec: int)

  const TOP_FOOT_SIZE: int := 80
  const RECORD_SIZE: int := 48
  const MIN_CHUNK_SIZE: int := 32

  function End(L: Layout, p: int): int requires p in L { p + L[p].size }

  /** Where the chunks of segment k end. The first segment in the list is the one with top. */
  function LimitOf(segs: seq<Segment>, k: nat): int requires k < |segs|
  { if k == 0 then segs[0].base + segs[0].size - TOP_FOOT_SIZE else segs[k].rec + RECORD_SIZE }

  ghost predicate IsLimit(segs: seq<Segment>, a: int) { exists k :: 0 <= k < |segs| && a == LimitOf(segs, k) }
  ghost predicate IsBase(segs: seq<Segment>, a: int) { exists k :: 0 <= k < |segs| && a == segs[k].base }

  /** Segments are disjoint, and chunks stop short of the segment's end. */
  ghost predicate SegmentsApart(segs: seq<Segment>) {
    && (forall k {:trigger segs[k]} :: 0 <= k < |segs| ==>
          && 0 < segs[k].base < LimitOf(segs, k) <= segs[k].base + segs[k].size - 32
          && segs[k].base + segs[k].size < LIMIT)
    && (forall j, k {:trigger SegApart(segs, j, k)} :: 0 <= j < |segs| && 0 <= k < |segs| ==> SegApart(segs, j, k))
  }

  ghost predicate SegApart(segs: seq<Segment>, j: nat, k: nat) requires j < |segs| && k < |segs| {
    j == k || segs[j].base + segs[j].size <= segs[k].base || segs[k].base + segs[k].size <= segs[j].base
  }

  /** [a, b) lies among the chunks of segment k. */
  ghost predicate Within(segs: seq<Segment>, k: nat, a: int, b: int)
  { k < |segs| && segs[k].base <= a && b <= LimitOf(segs, k) }

  ghost predicate Contained(segs: seq<Segment>, a: int, b: int) { exists k :: Within(segs, k, a, b) }

  ghost predicate ChunksApart(L: Layout, p: int, q: int) requires p in L && q in L
  { p == q || End(L, p) <= q || End(L, q) <= p }

  /** Each chunk is followed by another, which records its status, or by the segment's limit. */
  ghost predicate Followed(L: Layout, segs: seq<Segment>, p: int) requires p in L {
    if End(L, p) in L then L[End(L, p)].pinuse == L[p].inuse && !IsBase(segs, End(L, p)) else IsLimit(segs, End(L, p))
  }

  ghost predicate Disjoint(L: Layout)
  { forall p, q {:trigger ChunksApart(L, p, q)} :: p in L && q in L ==> ChunksApart(L, p, q) }

  ghost predicate Shaped(L: Layout)
  { forall p :: p in L ==> p > 0 && p % 16 == 0 && L[p].size > 0 && L[p].size % 16 == 0 }

  ghost predicate AllContained(L: Layout, segs: seq<Segment>)
  { forall p {:trigger Contained(segs, p, End(L, p))} :: p in L ==> Contained(segs, p, End(L, p)) }

  ghost predicate AllFollowed(L: Layout, segs: seq<Segment>)
  { forall p {:trigger Followed(L, segs, p)} :: p in L ==> Followed(L, segs, p) }

  ghost predicate Based(L: Layout, segs: seq<Segment>)
  { forall k :: 0 <= k < |segs| ==> segs[k].base in L && L[segs[k].base].pinuse }

  /** The chunks tile the segments. */
  ghost predicate Tiled(L: Layout, segs: seq<Segment>) {
    SegmentsApart(segs) && Shaped(L) && Disjoint(L) && AllContained(L, segs) && AllFollowed(L, segs) && Based(L, segs)
  }

  /** No two free chunks are adjacent. */
  ghost predicate Coalesced(L: Layout) { forall p {:trigger Isolated(L, p)} :: p in L ==> Isolated(L, p) }

  ghost predicate Isolated(L: Layout, p: int) requires p in L
  { !L[p].inuse ==> L[p].pinuse && (End(L, p) in L ==> L[End(L, p)].inuse) }

  // ------------------------------------------------------------------------- edits

  function NotePrev(L: Layout, p: int, inuse: bool): Layout
  { if p in L then L[p := L[p].(pinuse := inuse)] else L }

  /** The chunks from a up to b become one chunk. */
  ghost function Fuse(L: Layout, a: int, b: int, inuse: bool): Layout requires a in L
  {
    var run := Chunk(if b > a then b - a else 0, inuse, L[a].pinuse);
    NotePrev((map q | q in L && !(a < q < b) :: L[q])[a := run], b, inuse)
  }

  /** Chunk p becomes two of the same status, the first n bytes long. */
  ghost function Split(L: Layout, p: int, n: nat): Layout requires p in L && n < L[p].size
  { L[p := L[p].(size := n)][p + n := Chunk(L[p].size - n, L[p].inuse, L[p].inuse)] }

  /** b is a boundary after a, and no segment starts between them. */
  ghost predicate Spans(L: Layout, segs: seq<Segment>, a: int, b: int) {
    && a in L && a < b && b % 16 == 0 && Contained(segs, a, b)
    && (if b in L then !IsBase(segs, b) else IsLimit(segs, b))
    && (forall q :: q in L && a < q < b ==> !IsBase(segs, q))
  }

  lemma FuseTiled(L: Layout, segs: seq<Segment>, a: int, b: int, inuse: bool)
    requires Tiled(L, segs) && Spans(L, segs, a, b)
    ensures Tiled(Fuse(L, a, b, inuse), segs)
  {
    FuseDisjoint(L, a, b, inuse);
    FuseShaped(L, a, b, inuse);
    FuseContained(L, segs, a, b, inuse);
    FuseBased(L, segs, a, b, inuse);
    forall p | p in Fuse(L, a, b, inuse) ensures Followed(Fuse(L, a, b, inuse), segs, p) {
      FuseFollowed(L, segs, a, b, inuse, p);
    }
  }

  lemma FuseShaped(L: Layout, a: int, b: int, inuse: bool)
    requires Shaped(L) && a in L && a < b && b % 16 == 0
    ensures Shaped(Fuse(L, a, b, inuse))
  {}

  lemma FuseContained(L: Layout, segs: seq<Segment>, a: int, b: int, inuse: bool)
    requires AllContained(L, segs) && a in L && a < b && Contained(segs, a, b)
    ensures AllContained(Fuse(L, a, b, inuse), segs)
  {
    var L' := Fuse(L, a, b, inuse);
    forall p | p in L' ensures Contained(segs, p, End(L', p)) {
      if p != a { assert Contained(segs, p, End(L, p)); }
    }
  }

  lemma FuseBased(L: Layout, segs: seq<Segment>, a: int, b: int, inuse: bool)
    requires Based(L, segs) && Spans(L, segs, a, b)
    ensures Based(Fuse(L, a, b, inuse), segs)
  {
    var L' := Fuse(L, a, b, inuse);
    forall k | 0 <= k < |segs| ensures segs[k].base in L' && L'[segs[k].base].pinuse {
      assert IsBase(segs, segs[k].base);
    }
  }

  lemma FuseDisjoint(L: Layout, a: int, b: int, inuse: bool)
    requires Disjoint(L) && a in L && a < b
    ensures Disjoint(Fuse(L, a, b, inuse))
  {
    var L' := Fuse(L, a, b, inuse);
    forall p, q | p in L' && q in L' ensures ChunksApart(L', p, q) {
      assert ChunksApart(L, p, q) && ChunksApart(L, p, a) && ChunksApart(L, q, a);
    }
  }

  lemma FuseFollowed(L: Layout, segs: seq<Segment>, a: int, b: int, inuse: bool, p: int)
    requires Disjoint(L) && AllFollowed(L, segs) && Spans(L, segs, a, b) && p in Fuse(L, a, b, inuse)
    requires forall q :: q in L ==> L[q].size > 0
    ensures Followed(Fuse(L, a, b, inuse), segs, p)
  {
    assert Followed(L, segs, p) && ChunksApart(L, p, a);
    if b in L { assert ChunksApart(L, p, b); }
  }

  lemma SplitTiled(L: Layout, segs: seq<Segment>, p: int, n: nat)
    requires Tiled(L, segs) && p in L && 0 < n < L[p].size && n % 16 == 0
    ensures Tiled(Split(L, p, n), segs)
  {
    SplitDisjoint(L, p, n);
    SplitShaped(L, p, n);
    SplitContained(L, segs, p, n);
    InsideNotBase(L, segs, p, p + n);
    forall q | q in Split(L, p, n) ensures Followed(Split(L, p, n), segs, q) { SplitFollowed(L, segs, p, n, q); }
  }

  lemma SplitShaped(L: Layout, p: int, n: nat)
    requires Shaped(L) && p in L && 0 < n < L[p].size && n % 16 == 0
    ensures Shaped(Split(L, p, n))
  {
    Multiples16(p, n);
    Multiples16(L[p].size, n);
  }

  lemma Multiples16(a: int, b: int)
    requires a % 16 == 0 && b % 16 == 0
    ensures (a + b) % 16 == 0 && (a - b) % 16 == 0
  {
    assert a + b == 16 * (a / 16 + b / 16) && a - b == 16 * (a / 16 - b / 16);
  }

  lemma SplitContained(L: Layout, segs: seq<Segment>, p: int, n: nat)
    requires AllContained(L, segs) && p in L && 0 < n < L[p].size
    ensures AllContained(Split(L, p, n), segs)
  {
    var L' := Split(L, p, n);
    assert Contained(segs, p, End(L, p));
    PartContained(segs, p, End(L, p), p, p + n);
    PartContained(segs, p, End(L, p), p + n, End(L, p));
    forall q | q in L' ensures Contained(segs, q, End(L', q)) {
      if q in L && q != p && q != p + n { assert Contained(segs, q, End(L, q)); }
    }
  }

  lemma SplitDisjoint(L: Layout, p: int, n: nat)
    requires Disjoint(L) && p in L && 0 < n < L[p].size && forall q :: q in L ==> L[q].size > 0
    ensures Disjoint(Split(L, p, n)) && p + n !in L
  {
    var L' := Split(L, p, n);
    assert p + n in L ==> ChunksApart(L, p, p + n);
    forall q, r | q in L' && r in L' ensures ChunksApart(L', q, r) {
      if q in L { assert ChunksApart(L, q, p); }
      if r in L { assert ChunksApart(L, r, p); }
      if q in L && r in L { assert ChunksApart(L, q, r); }
    }
  }

  lemma SplitFollowed(L: Layout, segs: seq<Segment>, p: int, n: nat, q: int)
    requires Disjoint(L) && AllFollowed(L, segs) && p in L && 0 < n < L[p].size && q in Split(L, p, n)
    requires !IsBase(segs, p + n) && p + n !in L && forall r :: r in L ==> L[r].size > 0
    ensures Followed(Split(L, p, n), segs, q)
  {
    assert Followed(L, segs, p);
    if q in L { assert Followed(L, segs, q) && ChunksApart(L, q, p); }
    if End(L, p) in L { assert ChunksApart(L, p, End(L, p)); }
  }

  lemma PartContained(segs: seq<Segment>, a: int, b: int, c: int, d: int)
    requires Contained(segs, a, b) && a <= c && d <= b
    ensures Contained(segs, c, d)
  {
    var k :| Within(segs, k, a, b);
    assert Within(segs, k, c, d);
  }

  lemma InsideNotBase(L: Layout, segs: seq<Segment>, p: int, a: int)
    requires Disjoint(L) && Based(L, segs) && p in L && p < a < End(L, p) && forall q :: q in L ==> L[q].size > 0
    ensures !IsBase(segs, a)
  {
    assert a in L ==> ChunksApart(L, p, a);
  }
}
