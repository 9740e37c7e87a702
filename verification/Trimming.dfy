/** Memory back to the system: sys_trim and release_unused_segments. */
module Trimming {
  import opened Words
  import opened Bits
  import opened Sizes
  import opened Bins
  import opened Layout
  import opened LayoutFacts
  import opened Heap
  import opened Merging
  import opened Regions
  import opened Extending
  import opened Kernel
  import opened Accounts
  import opened Books
  import opened State
  import opened Freeing
  import opened Malloc
  import opened Direct
  import opened Growing

  /** How much of top is spare beyond pad, in whole units, keeping at least one byte. */
  function Extra(topsize: nat, pad: nat, unit: nat): nat requires pad < topsize && unit > 0
  { ExtraUnits(topsize - pad, unit); ((topsize - pad + (unit - 1)) / unit - 1) * unit }

  lemma ExtraUnits(d: nat, unit: nat)
    requires d > 0 && unit > 0
    ensures (d + (unit - 1)) / unit >= 1
  {
    var q := (d + (unit - 1)) / unit;
    assert d + (unit - 1) == q * unit + (d + (unit - 1)) % unit;
    assert q <= 0 ==> q * unit <= 0;
  }

  /** Trimming keeps more than pad bytes of top, and less than a unit more. */
  lemma ExtraFits(topsize: nat, pad: nat, unit: nat)
    requires pad < topsize && unit > 0
    ensures var e := Extra(topsize, pad, unit); e % unit == 0 && pad < topsize - e <= pad + unit
  {
    var d := topsize - pad;
    var q := (d + (unit - 1)) / unit;
    ExtraUnits(d, unit);
    assert d + (unit - 1) == q * unit + (d + (unit - 1)) % unit;
    assert (q - 1) * unit == q * unit - unit;
    MultipleMod(q - 1, unit);
  }

  /** The same in 64 bits, where the sum may wrap around. */
  function WrappedExtra(topsize: nat, pad: nat, unit: nat): nat requires pad < topsize && unit > 0
  { var q := (topsize - pad + (unit - 1)) % LIMIT / unit; (q - 1) % LIMIT * unit % LIMIT }

  /** For a unit that is a power of two, wrapping does no harm. */
  lemma ExtraExact(topsize: nat, pad: nat, unit: nat)
    requires pad < topsize < LIMIT && PowerOfTwo(unit) && unit <= HALF
    ensures WrappedExtra(topsize, pad, unit) == Extra(topsize, pad, unit)
  {
    var s := topsize - pad + (unit - 1);
    ExtraUnits(topsize - pad, unit);
    var c := Divides64(unit);
    if s < LIMIT { NoWrap(s, unit); } else { Wrapped(s, unit, c); }
  }

  lemma NoWrap(s: nat, unit: nat)
    requires s < LIMIT && unit > 0 && s / unit >= 1
    ensures (s % LIMIT / unit - 1) % LIMIT * unit % LIMIT == (s / unit - 1) * unit
  {
    var q := s / unit;
    assert s == q * unit + s % unit;
    UnitsBelow(q, unit, s);
    BelowMod(s);
    BelowMod(q - 1);
    BelowMod((q - 1) * unit);
  }

  lemma UnitsBelow(q: nat, unit: nat, s: nat)
    requires q >= 1 && unit > 0 && q * unit <= s
    ensures q - 1 <= (q - 1) * unit <= s
  {
    assert (q - 1) * unit == q * unit - unit;
    NoSmaller(q - 1, unit);
  }

  lemma {:induction false} NoSmaller(a: nat, b: nat)
    requires b >= 1
    ensures a <= a * b
  {
    if b > 1 {
      NoSmaller(a, b - 1);
      assert a * b == a * (b - 1) + a;
    }
  }

  lemma BelowMod(x: nat)
    requires x < LIMIT
    ensures x % LIMIT == x
  {}

  lemma Wrapped(s: nat, unit: nat, c: nat)
    requires unit > 0 && c * unit == LIMIT <= s < LIMIT + unit
    ensures (s % LIMIT / unit - 1) % LIMIT * unit % LIMIT == (s / unit - 1) * unit
  {
    var r := s - LIMIT;
    assert s % LIMIT == r && r / unit == 0;
    assert -1 % LIMIT == LIMIT - 1;
    assert unit <= LIMIT by { assert c >= 1; assert c * unit == unit + (c - 1) * unit; }
    assert (LIMIT - 1) * unit == LIMIT * (unit - 1) + (LIMIT - unit);
    ModOfMultiple(unit - 1, LIMIT - unit);
    DivIs(s, unit, c, r);
    assert (c - 1) * unit == LIMIT - unit;
  }

  lemma DivIs(s: nat, d: nat, q: nat, r: nat)
    requires d > 0 && s == q * d + r && r < d
    ensures s / d == q
  {
    var e := q - s / d;
    assert s == d * (s / d) + s % d;
    assert d * e == d * q - d * (s / d);
    assert (e >= 1 ==> d * e >= d) && (e <= -1 ==> d * e + d <= 0);
  }

  lemma Divides64(unit: nat) returns (c: nat)
    requires PowerOfTwo(unit) && unit <= HALF
    ensures c * unit == LIMIT
  {
    var k := PowerLog(unit);
    Pow2Values();
    if k > 64 { Pow2Mono(64, k); }
    Pow2Add(64 - k, k);
    c := Pow2(64 - k);
  }

  /** What is left of top: whole units beyond pad are gone, or all is as before and the system refused. */
  ghost predicate TopTrimmed(topsize: nat, topsize': nat, pad: nat, unit: nat, refused: bool) {
    || topsize' == topsize - (if pad < topsize && unit > 0 then Extra(topsize, pad, unit) else 0)
    || (topsize' == topsize && refused)
  }

  /** The record of a segment lies in segment i. */
  ghost predicate HoldsRecord(segs: seq<Segment>, i: nat) requires i < |segs|
  { exists k :: 1 <= k < |segs| && segs[i].base <= segs[k].rec + 16 < segs[i].base + segs[i].size }

  /** has_segment_link: whether a segment's record lies in segment i. */
  method HasSegmentLink(segs: seq<Segment>, i: nat) returns (found: bool)
    requires i < |segs|
    ensures found <==> HoldsRecord(segs, i)
  {
    var k := 1;
    while k < |segs|
      invariant 1 <= k && (|segs| >= 1 ==> k <= |segs|)
      invariant forall j :: 1 <= j < k ==> !(segs[i].base <= segs[j].rec + 16 < segs[i].base + segs[i].size)
    {
      if segs[i].base <= segs[k].rec + 16 < segs[i].base + segs[i].size { return true; }
      k := k + 1;
    }
    return false;
  }

  /** The top segment holds no record, so it is never pinned. */
  lemma TopUnpinned(L: Layout, segs: seq<Segment>, s: Spare)
    requires LayoutOk(L, segs, s) && |segs| > 0
    ensures !HoldsRecord(segs, 0)
  {
    hide Coalesced, AllFollowed, Based, MinSized;
    forall k | 1 <= k < |segs| ensures !(segs[0].base <= segs[k].rec + 16 < segs[0].base + segs[0].size) {
      var r := segs[k].rec;
      assert r in L && Contained(segs, r, End(L, r));
      RecordWithin(L, segs, k);
      Bounds(segs, k);
      assert segs[k] in segs && SegApart(segs, 0, k);
    }
  }

  /** The updates when the last t bytes of the top segment are gone. */
  method SetTrimmed(m: MState, t: nat)
    requires |m.segs| > 0 && m.top in m.L && t <= m.segs[0].size && t <= m.topsize && t <= m.footprint
    modifies m`segs, m`word, m`top, m`topsize, m`trimCheck, m`footprint, m`L
    ensures m.segs == Resized(old(m.segs), old(m.segs[0].size) - t) && m.footprint == old(m.footprint) - t
    ensures m.top == old(m.top) && m.topsize == old(m.topsize) - t && m.word == TopTags(old(m.word), m.top, m.topsize)
    ensures m.L == WithTop(old(m.L), m.top, m.topsize) && m.trimCheck == m.mp.trimThreshold
  {
    m.segs := m.segs[0 := m.segs[0].(size := m.segs[0].size - t)];
    m.footprint := m.footprint - t;
    InitTop(m, m.top, m.topsize - t);
    m.L := WithTop(m.L, m.top, m.topsize);
  }

  lemma TrimmedAll(w: Memory, L: Layout, segs: seq<Segment>, s: Spare, g: Index, t: nat, mm: map<int, Region>,
                   mapped: set<int>, mp: Params, least: int)
    requires LayoutOk(L, segs, s) && s.top != 0 && |segs| > 0 && Tagged(w, L, s.top) && Indexed(L, g.size, s, {})
    requires Structured(g) && Threaded(w, g) && Fenced(w, segs)
    requires ParamsOk(mp) && BooksOk(w, mapped, segs, mm, mp.page, least) && t < s.topsize && t % mp.page == 0
    ensures s.top in L && t <= segs[0].size
    ensures var n := s.topsize - t;
      var L', w' := WithTop(L, s.top, n), TopTags(w, s.top, n);
      var segs', s' := Resized(segs, segs[0].size - t), s.(topsize := n);
      var gone := Bytes(segs[0].base + (segs[0].size - t), t);
      && LayoutOk(L', segs', s') && Used(L') == Used(L) && Tagged(w', L', s.top) && Indexed(L', g.size, s', {})
      && Threaded(w', g) && Fenced(w', segs')
      && gone <= mapped && BooksOk(w', mapped - gone, segs', mm, mp.page, least) && |mapped - gone| == |mapped| - t
      && Undisturbed(w, w', L, mm)
  {
    hide LayoutOk, Structured, Threaded, Tagged, Indexed, BooksOk, Used, TopTags, WithTop, Spared, SegmentsApart,
      Undisturbed, Fenced;
    hide ParamsOk, LimitOf, Resized, Local, Bytes;
    TrimmedRoom(w, L, segs, s, t, mm, mapped, mp, least);
    var n := s.topsize - t;
    var segs' := Resized(segs, segs[0].size - t);
    ResizedState(w, L, segs, segs', s, n, g);
    SafeLocal(w, TopTags(w, s.top, n), L, WithTop(L, s.top, n), segs');
    ShrunkBooks(w, TopTags(w, s.top, n), mapped, segs, segs[0].size - t, mm, mp.page, least);
    UndisturbedBy(w, TopTags(w, s.top, n), L, WithTop(L, s.top, n), segs', mm);
  }

  lemma TrimmedRoom(w: Memory, L: Layout, segs: seq<Segment>, s: Spare, t: nat, mm: map<int, Region>, mapped: set<int>,
                    mp: Params, least: int)
    requires LayoutOk(L, segs, s) && s.top != 0 && |segs| > 0
    requires ParamsOk(mp) && BooksOk(w, mapped, segs, mm, mp.page, least) && t < s.topsize && t % mp.page == 0
    ensures s.top in L && t <= segs[0].size && SegmentsApart(segs)
    ensures var n := s.topsize - t;
      var segs' := Resized(segs, segs[0].size - t);
      && SegmentsApart(segs') && |segs'| == |segs| && segs' == Resized(segs, segs'[0].size)
      && (segs[0].size - t) % mp.page == 0
      && s.top + n == LimitOf(segs', 0) && n > 0 && n % 16 == 0
  {
    hide Coalesced, AllContained, AllFollowed, Based, Disjoint, MinSized, Recorded, BooksOk, SegmentsApart, ParamsOk;
    TopWithin(L, segs, s.top);
    Bounds(segs, 0);
    ShrunkSegments(segs, segs[0].size - t);
    TrimMods(w, segs, t, mm, mapped, mp, least);
    Multiples16(s.topsize, t);
    hide Shaped;
  }

  lemma TrimMods(w: Memory, segs: seq<Segment>, t: nat, mm: map<int, Region>, mapped: set<int>, mp: Params, least: int)
    requires ParamsOk(mp) && BooksOk(w, mapped, segs, mm, mp.page, least) && |segs| > 0 && t <= segs[0].size
    requires t % mp.page == 0
    ensures (segs[0].size - t) % mp.page == 0 && t % 16 == 0
  {
    hide MappedChunks, RegionsApart, Accounted, Bounded;
    DividesTrans(t, mp.page, 16);
    DiffMod(segs[0].size, t, mp.page);
  }

  /** The unmapping in sys_trim, and its updates if it succeeds. */
  method UnmapTail(m: MState, extra: nat) returns (released: nat)
    requires |m.segs| > 0 && m.top in m.L && extra <= m.segs[0].size && extra <= m.topsize && extra <= m.footprint
    requires Bytes(m.segs[0].base + (m.segs[0].size - extra), extra) <= m.os.mapped
    modifies m`segs, m`word, m`top, m`topsize, m`trimCheck, m`footprint, m`L, m.os
    ensures m.os.kept >= old(m.os.kept)
    ensures m.trimCheck == if released == 0 then old(m.trimCheck) else m.mp.trimThreshold
    ensures released == extra || m.os.kept > old(m.os.kept) || old(HoldsRecord(m.segs, 0))
    ensures released == 0 ==>
      && m.os.mapped == old(m.os.mapped) && m.segs == old(m.segs) && m.word == old(m.word) && m.top == old(m.top)
      && m.topsize == old(m.topsize) && m.footprint == old(m.footprint) && m.L == old(m.L)
    ensures released != 0 ==>
      && released == extra
      && m.os.mapped == old(m.os.mapped) - Bytes(old(m.segs[0].base + (m.segs[0].size - extra)), extra)
      && m.segs == Resized(old(m.segs), old(m.segs[0].size) - extra) && m.footprint == old(m.footprint) - extra
      && m.top == old(m.top) && m.topsize == old(m.topsize) - extra && m.word == TopTags(old(m.word), m.top, m.topsize)
      && m.L == WithTop(old(m.L), m.top, m.topsize)
  {
    released := 0;
    var pinned := HasSegmentLink(m.segs, 0);
    if m.segs[0].size >= extra && !pinned {
      var newsize := m.segs[0].size - extra;
      var ok := m.os.Munmap(m.segs[0].base + newsize, extra);
      if ok { released := extra; }
    }
    if released != 0 { SetTrimmed(m, released); }
  }

  /** The first part of sys_trim: give back whole units from the end of top. */
  method TrimTop(m: MState, pad: nat) returns (released: nat)
    requires m.Valid() && m.top != 0 && pad < m.topsize
    modifies m`segs, m`word, m`top, m`topsize, m`trimCheck, m`footprint, m`L, m.os
    ensures m.Valid() && m.footprint == old(m.footprint) - released && m.topsize == old(m.topsize) - released
    ensures m.top == old(m.top) && m.os.kept >= old(m.os.kept)
    ensures m.trimCheck == if released == 0 then old(m.trimCheck) else m.mp.trimThreshold
    ensures TopTrimmed(old(m.topsize), m.topsize, pad, m.mp.granularity, m.os.kept > old(m.os.kept))
    ensures pad < m.topsize && Live(m.L, m.segs) == Live(old(m.L), old(m.segs)) && Used(m.L) == Used(old(m.L))
    ensures Undisturbed(old(m.word), m.word, old(m.L), m.mm)
  {
    hide MState.HeapValid, MState.BooksValid, Undisturbed, Used, Live, Extra, ParamsOk;
    TrimReady(m);
    var extra := SpareTop(m.mp, m.topsize, pad);
    released := TrimBy(m, extra);
  }

  lemma TrimReady(m: MState)
    requires m.Valid() && m.top != 0
    ensures ParamsOk(m.mp) && m.topsize < LIMIT
  {
    TopBelow(m.L, m.segs, m.Spares());
  }

  /** The last t bytes of the top segment go back. */
  method TrimBy(m: MState, t: nat) returns (released: nat)
    requires m.Valid() && m.top != 0 && t < m.topsize && t % m.mp.page == 0
    modifies m`segs, m`word, m`top, m`topsize, m`trimCheck, m`footprint, m`L, m.os
    ensures m.Valid() && m.footprint == old(m.footprint) - released && m.topsize == old(m.topsize) - released
    ensures m.top == old(m.top) && m.os.kept >= old(m.os.kept)
    ensures m.trimCheck == if released == 0 then old(m.trimCheck) else m.mp.trimThreshold
    ensures released == t || (released == 0 && m.os.kept > old(m.os.kept))
    ensures Live(m.L, m.segs) == Live(old(m.L), old(m.segs)) && Used(m.L) == Used(old(m.L))
    ensures Undisturbed(old(m.word), m.word, old(m.L), m.mm)
  {
    hide Structured, Threaded, Mapped, LayoutOk, Tagged, Indexed, BooksOk, Undisturbed, Used, TopTags, WithTop, Live,
      Bytes, ParamsOk, SameRecords, Fenced, HoldsRecord, Resized, MState.Valid, MState.HeapValid, MState.BooksValid;
    ghost var w, L, segs, s := m.word, m.L, m.segs, m.Spares();
    released := 0;
    SafeNow(w, L, m.mm);
    ValidParts(m);
    TopThere(L, segs, s);
    TopUnpinned(L, segs, s);
    TrimmedAll(w, L, segs, s, m.g, t, m.mm, m.os.mapped, m.mp, m.least);
    released := UnmapTail(m, t);
    if released != 0 {
      ResizedRecords(segs, segs[0].size - t);
      SameLive(L, m.L, segs, m.segs);
    }
    ValidFrom(m);
  }

  lemma TopBelow(L: Layout, segs: seq<Segment>, s: Spare)
    requires LayoutOk(L, segs, s) && s.top != 0
    ensures s.topsize < LIMIT
  {
    ChunkBound(L, segs, s.top);
  }

  method SpareTop(mp: Params, topsize: nat, pad: nat) returns (extra: nat)
    requires ParamsOk(mp) && pad < topsize < LIMIT
    ensures extra % mp.granularity == 0 && mp.page > 0 && extra % mp.page == 0
    ensures extra == Extra(topsize, pad, mp.granularity) && pad < topsize - extra <= pad + mp.granularity
  {
    extra := WrappedExtra(topsize, pad, mp.granularity);
    ExtraExact(topsize, pad, mp.granularity);
    ExtraFits(topsize, pad, mp.granularity);
    ExtraOnPages(mp, extra);
  }

  lemma ExtraOnPages(mp: Params, extra: nat)
    requires ParamsOk(mp) && extra % mp.granularity == 0
    ensures extra % mp.page == 0
  {
    DividesTrans(extra, mp.granularity, mp.page);
  }

  // ------------------------------------------------------------- release_unused_segments

  /** Segment k is one free chunk but for the record and fenceposts at its very end. */
  ghost predicate Releasable(L: Layout, segs: seq<Segment>, k: nat)
  { Empty(L, segs, k) && segs[k].rec == segs[k].base + segs[k].size - TOP_FOOT_SIZE }

  ghost predicate NoneReleasable(L: Layout, segs: seq<Segment>)
  { forall k :: 1 <= k < |segs| ==> !Releasable(L, segs, k) }

  /** The test of release_unused_segments on the first chunk of segment k. */
  predicate LooksUnused(w: Memory, seg: Segment) {
    Rd(w, HeadAt(seg.base)) % 4 == 1 && seg.base + ChunkSize(w, seg.base) >= seg.base + seg.size - TOP_FOOT_SIZE
  }

  lemma LooksUnusedExact(w: Memory, L: Layout, segs: seq<Segment>, s: Spare, k: nat)
    requires LayoutOk(L, segs, s) && Tagged(w, L, s.top) && 1 <= k < |segs|
    ensures LooksUnused(w, segs[k]) <==> Releasable(L, segs, k)
  {
    hide Coalesced, MinSized, AllContained, AllFollowed, SegmentsApart;
    var p, r := segs[k].base, segs[k].rec;
    BaseWithin(L, segs, k);
    RecordWithin(L, segs, k);
    assert p in L && L[p].pinuse && r in L;
    HeadFields(w, p, L[p]);
    LimitRoom(segs, k);
    if LooksUnused(w, segs[k]) {
      assert ChunksApart(L, p, r);
    }
  }

  lemma LimitRoom(segs: seq<Segment>, k: nat)
    requires SegmentsApart(segs) && 1 <= k < |segs|
    ensures segs[k].rec + RECORD_SIZE <= segs[k].base + segs[k].size - 32
  {
    assert segs[k] in segs;
  }

  lemma DroppedState(w: Memory, L: Layout, segs: seq<Segment>, s: Spare, size: map<int, nat>, k: nat)
    requires LayoutOk(L, segs, s) && Tagged(w, L, s.top) && Empty(L, segs, k) && Indexed(L, size, s, {segs[k].base})
    requires s.dv != segs[k].base && Fenced(w, segs)
    ensures var L', segs' := Without(L, segs[k].base, segs[k].rec), Shorter(segs, k);
      && LayoutOk(L', segs', s) && Tagged(w, L', s.top) && Indexed(L', size, s, {}) && Fenced(w, segs')
      && Used(L') == Used(L) - {segs[k].rec} && Live(L', segs') == Live(L, segs)
  {
    hide Coalesced, MinSized, AllContained, AllFollowed, SegmentsApart, Based, Disjoint, Shaped, Fenced;
    var L', segs' := Without(L, segs[k].base, segs[k].rec), Shorter(segs, k);
    DroppedFenced(w, segs, k);
    DroppedLayout(L, segs, s, k);
    RecordsDiffer(L, segs, k);
    DroppedLive(L, L', segs, k);
    assert L[segs[k].rec].inuse;
  }

  lemma DroppedFenced(w: Memory, segs: seq<Segment>, k: nat)
    requires Fenced(w, segs) && 1 <= k < |segs|
    ensures Fenced(w, Shorter(segs, k))
  {
    var segs' := Shorter(segs, k);
    forall i | 0 <= i < |segs'| ensures Ended(w, segs', i) {
      var j := if i < k then i else i + 1;
      DroppedAt(segs, k, j);
      assert Ended(w, segs, j) && segs'[i] == segs[j] && LimitOf(segs', i) == LimitOf(segs, j) && (j == 0 <==> i == 0);
      forall a ensures PastLimit(segs', i, a) <==> PastLimit(segs, j, a) {}
    }
  }

  lemma RecordsDiffer(L: Layout, segs: seq<Segment>, k: nat)
    requires Tiled(L, segs) && Recorded(L, segs) && 1 <= k < |segs|
    ensures forall j :: 1 <= j < |segs| && j != k ==> segs[j].rec != segs[k].rec
  {
    RecordWithin(L, segs, k);
    forall j | 1 <= j < |segs| && j != k ensures segs[j].rec != segs[k].rec {
      RecordWithin(L, segs, j);
      assert SegApart(segs, j, k);
    }
  }

  lemma DroppedLive(L: Layout, L': Layout, segs: seq<Segment>, k: nat)
    requires 1 <= k < |segs| && Used(L') == Used(L) - {segs[k].rec}
    requires (forall j :: 1 <= j < |segs| && j != k ==> segs[j].rec != segs[k].rec)
    ensures Live(L', Shorter(segs, k)) == Live(L, segs)
  {
    var segs' := Shorter(segs, k);
    forall p | p != segs[k].rec ensures IsRecord(segs', p) <==> IsRecord(segs, p) {
      if IsRecord(segs, p) {
        var j: nat :| 1 <= j < |segs| && p == segs[j].rec;
        DroppedAt(segs, k, j);
        assert segs'[Shift(k, j)].rec == p;
      }
      if IsRecord(segs', p) {
        var i: nat :| 1 <= i < |segs'| && p == segs'[i].rec;
        DroppedAt(segs, k, if i < k then i else i + 1);
      }
    }
    assert IsRecord(segs, segs[k].rec);
    assert forall q :: q in L && L[q].inuse <==> q in Used(L);
    assert forall q :: q in L' && L'[q].inuse <==> q in Used(L');
  }

  /** Unmap segment k and forget it; its one free chunk is already out of the bins. */
  method UnmapSegment(m: MState, k: nat) returns (ok: bool)
    requires 1 <= k < |m.segs| && Bytes(m.segs[k].base, m.segs[k].size) <= m.os.mapped && m.segs[k].size <= m.footprint
    modifies m`segs, m`footprint, m`L, m.os
    ensures ok ==>
      && m.os.mapped == old(m.os.mapped) - Bytes(old(m.segs[k].base), old(m.segs[k].size))
      && m.segs == Shorter(old(m.segs), k) && m.footprint == old(m.footprint) - old(m.segs[k].size)
      && m.L == Without(old(m.L), old(m.segs[k].base), old(m.segs[k].rec))
    ensures m.os.kept == if ok then old(m.os.kept) else old(m.os.kept) + 1
    ensures !ok ==>
      m.os.mapped == old(m.os.mapped) && m.segs == old(m.segs) && m.footprint == old(m.footprint) && m.L == old(m.L)
  {
    ok := m.os.Munmap(m.segs[k].base, m.segs[k].size);
    if ok {
      m.footprint := m.footprint - m.segs[k].size;
      m.L := Without(m.L, m.segs[k].base, m.segs[k].rec);
      m.segs := m.segs[..k] + m.segs[k + 1..];
    }
  }

  /** Take the free chunk p out of the bins, or out of dv. */
  method Detach(m: MState, p: int, psize: nat)
    requires m.HeapValid() && p in m.L && !m.L[p].inuse && p != m.top && psize == m.L[p].size
    modifies m`word, m`smallmap, m`treemap, m`treebins, m`g, m`dv, m`dvsize
    ensures Loose(m, {p}) && m.dv != p && PayloadSafe(old(m.word), m.word, m.L, m.segs)
  {
    hide Structured, Threaded, Mapped, LayoutOk, Tagged, Indexed, PayloadSafe;
    ghost var s := m.Spares();
    SafeStill(m.word, m.L, m.segs);
    FreeChunkFacts(m.word, m.L, m.segs, s, p);
    if p == m.dv {
      DvLoosened(m.L, m.segs, m.g.size, s);
      m.dv, m.dvsize := 0, 0;
      assert m.Spares() == s.(dv := 0, dvsize := 0);
    } else {
      BinnedFree(m.L, m.g.size, s, p);
      TakeOut(m, p, psize, {});
      assert {} + {p} == {p};
    }
  }

  lemma BinnedFree(L: Layout, size: map<int, nat>, s: Spare, p: int)
    requires Indexed(L, size, s, {}) && p in L && !L[p].inuse && p != s.dv && p != s.top
    ensures p in size
  {}

  /** One segment in release_unused_segments. It goes only if it is wholly unused; if the system
      refuses, its chunk is binned again. */
  method TryRelease(m: MState, k: nat) returns (released: nat)
    requires m.Valid() && 1 <= k < |m.segs|
    modifies m`word, m`smallmap, m`treemap, m`treebins, m`g, m`dv, m`dvsize, m`segs, m`footprint, m`L, m.os
    ensures m.Valid() && m.footprint == old(m.footprint) - released
    ensures m.os.kept >= old(m.os.kept)
    ensures released == 0 ==>
      && m.segs == old(m.segs) && m.L == old(m.L)
      && (m.os.kept > old(m.os.kept) || !Releasable(m.L, m.segs, k))
    ensures released != 0 ==>
      && Releasable(old(m.L), old(m.segs), k) && m.segs == Shorter(old(m.segs), k)
      && m.L == Without(old(m.L), old(m.segs[k].base), old(m.segs[k].rec))
    ensures Live(m.L, m.segs) == Live(old(m.L), old(m.segs)) && Extends(Used(m.L), Used(old(m.L)))
    ensures Undisturbed(old(m.word), m.word, m.L, m.mm)
  {
    hide Structured, Threaded, Mapped, LayoutOk, Tagged, Indexed, BooksOk, Undisturbed, Used, Live, Bytes, ParamsOk,
      PayloadSafe, Releasable, LooksUnused, Without, Extends, Fenced;
    ghost var w, L, segs := m.word, m.L, m.segs;
    released := 0;
    SafeNow(w, L, m.mm);
    ExtendsRefl(L, L);
    LooksUnusedExact(w, L, segs, m.Spares(), k);
    if LooksUnused(m.word, m.segs[k]) {
      ReleasableFacts(w, L, segs, m.Spares(), m.os.mapped, m.mm, m.mp, m.least, k);
      var p, size := m.segs[k].base, m.segs[k].size;
      var psize := ChunkSize(m.word, p);
      Detach(m, p, psize);
      ghost var w1 := m.word;
      BooksAfter(w, w1, m.os.mapped, L, segs, m.mm, m.mp.page, m.least);
      DroppedState(w1, L, segs, m.Spares(), m.g.size, k);
      DroppedBooksOf(w1, L, segs, m.Spares(), m.os.mapped, k, m.mm, m.mp.page, m.least);
      var ok := UnmapSegment(m, k);
      if ok {
        released := size;
        FewerPayloads(w, w1, L, m.L, m.mm, segs[k].base, segs[k].rec);
      } else {
        PutAway(m, p, psize);
        BooksAfter(w1, m.word, m.os.mapped, L, segs, m.mm, m.mp.page, m.least);
        UndisturbedTwice(w, w1, m.word, L, m.mm);
      }
    }
  }

  lemma ReleasableFacts(w: Memory, L: Layout, segs: seq<Segment>, s: Spare, mapped: set<int>, mm: map<int, Region>,
                        mp: Params, least: int, k: nat)
    requires LayoutOk(L, segs, s) && Tagged(w, L, s.top) && Releasable(L, segs, k)
    requires BooksOk(w, mapped, segs, mm, mp.page, least) && ParamsOk(mp)
    ensures var p := segs[k].base;
      Empty(L, segs, k) && p in L && !L[p].inuse && p != s.top && L[p].size == ChunkSize(w, p) && segs[k].size > 0
  {
    hide Coalesced, MinSized, AllContained, AllFollowed, BooksOk;
    HeadFields(w, segs[k].base, L[segs[k].base]);
    Bounds(segs, k);
    assert IsLimit(segs, LimitOf(segs, 0));
    ChunkNotLimit2(L, segs, k, s);
  }

  lemma ChunkNotLimit2(L: Layout, segs: seq<Segment>, k: nat, s: Spare)
    requires Tiled(L, segs) && TopOk(L, segs, s) && Empty(L, segs, k)
    ensures segs[k].base != s.top
  {
    assert IsLimit(segs, LimitOf(segs, 0));
    ChunkNotLimit(L, segs, LimitOf(segs, 0));
  }

  lemma DroppedBooksOf(w: Memory, L: Layout, segs: seq<Segment>, s: Spare, mapped: set<int>, k: nat, mm: map<int,
                       Region>, page: nat, least: int)
    requires LayoutOk(L, segs, s) && BooksOk(w, mapped, segs, mm, page, least) && 1 <= k < |segs|
    ensures var gone := Bytes(segs[k].base, segs[k].size);
      && gone <= mapped && |mapped - gone| == |mapped| - segs[k].size
      && BooksOk(w, mapped - gone, Shorter(segs, k), mm, page, least)
      && segs[k].size <= |mapped|
  {
    hide Coalesced, MinSized, AllContained, AllFollowed, Disjoint, Recorded, BooksOk, Bytes, SegmentsApart;
    DroppedBooks(w, mapped, segs, k, mm, page, least);
  }

  lemma FewerPayloads(w: Memory, w1: Memory, L: Layout, L': Layout, mm: map<int, Region>, p: int, q: int)
    requires Undisturbed(w, w1, L, mm) && L' == Without(L, p, q)
    ensures Undisturbed(w, w1, L', mm) && Extends(Used(L'), Used(L))
  {
    forall u, a | InPayload(L', u, a) ensures Rd(w1, a) == Rd(w, a) { assert InPayload(L, u, a); }
  }

  lemma UndisturbedTwice(w: Memory, w1: Memory, w2: Memory, L: Layout, mm: map<int, Region>)
    requires Undisturbed(w, w1, L, mm) && Undisturbed(w1, w2, L, mm)
    ensures Undisturbed(w, w2, L, mm)
  {}

  lemma StillNot(L: Layout, segs: seq<Segment>, k: nat, j: nat)
    requires 1 <= j < k < |segs| && !Releasable(L, segs, j)
    ensures !Releasable(Without(L, segs[k].base, segs[k].rec), Shorter(segs, k), j)
  {
    DroppedAt(segs, k, j);
  }

  /** Writes that spare what is in use later spare it all along. */
  lemma UndisturbedSince(w: Memory, w1: Memory, w2: Memory, L1: Layout, L2: Layout, mm: map<int, Region>)
    requires Undisturbed(w, w1, L1, mm) && Undisturbed(w1, w2, L2, mm) && Extends(Used(L2), Used(L1))
    ensures Undisturbed(w, w2, L2, mm)
  {
    forall u, a | InPayload(L2, u, a) ensures Rd(w2, a) == Rd(w, a) {
      assert u in Used(L2) && u in Used(L1) && Used(L1)[u] == Used(L2)[u];
      assert InPayload(L1, u, a);
    }
  }

  lemma ExtendsTrans(L: Layout, L1: Layout, L2: Layout)
    requires Extends(Used(L2), Used(L1)) && Extends(Used(L1), Used(L))
    ensures Extends(Used(L2), Used(L))
  {}

  /** release_unused_segments. If the system refused nothing, no unused segment is left. */
  method ReleaseUnusedSegments(m: MState) returns (released: nat)
    requires m.Valid()
    modifies m`word, m`smallmap, m`treemap, m`treebins, m`g, m`dv, m`dvsize, m`segs, m`footprint, m`L, m`releaseChecks
    modifies m.os
    ensures m.Valid() && m.footprint == old(m.footprint) - released
    ensures Live(m.L, m.segs) == Live(old(m.L), old(m.segs)) && Extends(Used(m.L), Used(old(m.L)))
    ensures Undisturbed(old(m.word), m.word, m.L, m.mm)
    ensures m.os.kept >= old(m.os.kept)
    ensures m.os.kept == old(m.os.kept) ==> NoneReleasable(m.L, m.segs)
    ensures m.releaseChecks == Peak(MAX_RELEASE_CHECK_RATE, if old(m.segs) == [] then 0 else |old(m.segs)| - 1)
  {
    hide MState.HeapValid, BooksOk, Undisturbed, Used, Live, ParamsOk, Releasable, Extends;
    released := 0;
    var nsegs, k := 0, 1;
    SafeNow(m.word, m.L, m.mm);
    ExtendsRefl(m.L, m.L);
    while k < |m.segs|
      invariant m.Valid() && m.footprint == old(m.footprint) - released && 1 <= k
      invariant Live(m.L, m.segs) == Live(old(m.L), old(m.segs)) && Extends(Used(m.L), Used(old(m.L)))
      invariant Undisturbed(old(m.word), m.word, m.L, m.mm)
      invariant m.os.kept >= old(m.os.kept) && nsegs + |m.segs| - k == |old(m.segs)| - 1
      invariant if old(m.segs) == [] then m.segs == [] && k == 1 else k <= |m.segs|
      invariant m.os.kept == old(m.os.kept) ==> forall j :: 1 <= j < k && j < |m.segs| ==> !Releasable(m.L, m.segs, j)
      decreases |m.segs| - k
    {
      nsegs := nsegs + 1;
      ghost var w, L, segs := m.word, m.L, m.segs;
      var r := TryRelease(m, k);
      UndisturbedSince(old(m.word), w, m.word, L, m.L, m.mm);
      ExtendsTrans(old(m.L), L, m.L);
      released := released + r;
      if r == 0 {
        k := k + 1;
      } else {
        forall j | 1 <= j < k && !Releasable(L, segs, j)
          ensures !Releasable(m.L, m.segs, j)
        {
          StillNot(L, segs, k, j);
        }
      }
    }
    m.releaseChecks := if nsegs > MAX_RELEASE_CHECK_RATE then nsegs else MAX_RELEASE_CHECK_RATE;
  }

  /** No more trimming from free after a vain attempt. */
  method StopTrimming(m: MState)
    requires m.Valid()
    modifies m`trimCheck
    ensures m.Valid() && m.trimCheck == LIMIT - 1
  {
    m.trimCheck := LIMIT - 1;
  }

  /** sys_trim */
  method SysTrim(m: MState, pad: nat) returns (trimmed: bool)
    requires m.Valid() && pad < LIMIT
    modifies m`word, m`smallmap, m`treemap, m`treebins, m`g, m`dv, m`dvsize, m`top, m`topsize, m`trimCheck, m`segs
    modifies m`footprint, m`L, m`releaseChecks, m.os
    ensures m.Valid() && trimmed == (m.footprint < old(m.footprint)) && m.footprint <= old(m.footprint)
    ensures m.top == old(m.top) && m.os.kept >= old(m.os.kept)
    ensures pad < MAX_REQUEST ==>
      TopTrimmed(old(m.topsize), m.topsize, pad + TOP_FOOT_SIZE, m.mp.granularity, m.os.kept > old(m.os.kept))
    ensures pad < MAX_REQUEST && m.os.kept == old(m.os.kept) ==> NoneReleasable(m.L, m.segs)
    ensures m.topsize < old(m.topsize) ==> m.topsize > pad + TOP_FOOT_SIZE
    ensures m.trimCheck ==
              if m.topsize < old(m.topsize) then m.mp.trimThreshold
              else if pad < MAX_REQUEST && m.top != 0 && !trimmed && m.topsize > old(m.trimCheck) then LIMIT - 1
              else old(m.trimCheck)
    ensures Live(m.L, m.segs) == Live(old(m.L), old(m.segs)) && Extends(Used(m.L), Used(old(m.L)))
    ensures Undisturbed(old(m.word), m.word, m.L, m.mm)
  {
    hide MState.HeapValid, MState.BooksValid, Undisturbed, Used, Live, Extends, Extra, TopTrimmed, NoneReleasable;
    NoTopNoTrim(m);
    var released := 0;
    ghost var w, L := m.word, m.L;
    SafeNow(w, L, m.mm);
    ExtendsRefl(L, L);
    if pad < MAX_REQUEST && m.top != 0 {
      if m.topsize > pad + TOP_FOOT_SIZE {
        released := TrimTop(m, pad + TOP_FOOT_SIZE);
        SameExtends(L, m.L);
        UndisturbedSame(w, m.word, L, m.L, m.mm);
      }
      ghost var w1, L1 := m.word, m.L;
      ghost var kept := m.os.kept;
      var more := ReleaseUnusedSegments(m);
      TrimmedMore(old(m.topsize), m.topsize, pad + TOP_FOOT_SIZE, m.mp.granularity, kept > old(m.os.kept),
                  m.os.kept > old(m.os.kept));
      UndisturbedSince(w, w1, m.word, L1, m.L, m.mm);
      ExtendsTrans(L, L1, m.L);
      released := released + more;
      if released == 0 && m.topsize > m.trimCheck { StopTrimming(m); }
    }
    return released != 0;
  }

  lemma TrimmedMore(topsize: nat, topsize': nat, pad: nat, unit: nat, refused: bool, refused': bool)
    requires TopTrimmed(topsize, topsize', pad, unit, refused) && (refused ==> refused')
    ensures TopTrimmed(topsize, topsize', pad, unit, refused')
  {}

  lemma NoTopNoTrim(m: MState)
    requires m.Valid()
    ensures m.top == 0 ==> m.topsize == 0 && NoneReleasable(m.L, m.segs)
    ensures forall pad, refused :: pad >= m.topsize ==> TopTrimmed(m.topsize, m.topsize, pad, m.mp.granularity, refused)
  {}

  lemma SameExtends(L: Layout, L': Layout) requires Used(L) == Used(L') ensures Extends(Used(L'), Used(L)) {}

  lemma UndisturbedSame(w: Memory, w': Memory, L: Layout, L': Layout, mm: map<int, Region>)
    requires Undisturbed(w, w', L, mm) && Used(L) == Used(L')
    ensures Undisturbed(w, w', L', mm)
  {
    forall u, a | InPayload(L', u, a) ensures Rd(w', a) == Rd(w, a) {
      assert u in Used(L') && Used(L)[u] == Used(L')[u];
      assert InPayload(L, u, a);
    }
  }
}
