/** bulk_free: chunks that are neighbours in memory and in the array are joined before they are freed. */
module BulkFree {
  import opened Words
  import opened Bins
  import opened Layout
  import opened LayoutFacts
  import opened Heap
  import opened Merging
  import opened Resizing
  import opened Accounts
  import opened State
  import opened Direct
  import opened Growing
  import opened Trimming
  import opened Dlmalloc
  import opened Realloc

  /** The chunks an array of pointers names from index i on. */
  ghost function Named(a: seq<int>, i: nat): set<int>
  { set j | i <= j < |a| && a[j] != 0 :: a[j] - 16 }

  ghost predicate Distinct(a: seq<int>, i: nat)
  { forall j, k {:trigger a[j], a[k]} :: i <= j < k < |a| && a[j] != 0 ==> a[j] != a[k] }

  /** Of the chunks in use, all those outside r are as before, and those of r still in use are in todo. */
  ghost predicate Progress(u0: map<int, nat>, u: map<int, nat>, r: set<int>, todo: set<int>) {
    && (forall q :: q in u && q !in r ==> q in u0 && u0[q] == u[q])
    && (forall q :: q in u0 && q !in r ==> q in u)
    && (forall q :: q in u && q in r ==> q in todo)
    && todo <= r
  }

  lemma ProgressDone(u0: map<int, nat>, u: map<int, nat>, r: set<int>)
    requires Progress(u0, u, r, {})
    ensures u == u0 - r
  {
    forall q ensures q in u <==> q in u0 && q !in r {}
    assert forall q :: q in u ==> u[q] == u0[q];
  }

  lemma ProgressFreed(u0: map<int, nat>, u: map<int, nat>, u': map<int, nat>, r: set<int>, todo: set<int>, p: int)
    requires Progress(u0, u, r, todo + {p}) && u' == u - {p} && p !in todo
    ensures Progress(u0, u', r, todo)
  {}

  /** p takes in its neighbour n, which is also to be freed. */
  lemma ProgressJoined(u0: map<int, nat>, u: map<int, nat>, u': map<int, nat>, r: set<int>, todo: set<int>, p: int,
                       n: int, size: nat)
    requires Progress(u0, u, r, todo + {p, n}) && u' == (u - {n})[p := size] && p !in todo && n !in todo && p != n
    ensures Progress(u0, u', r, todo + {p})
  {}

  lemma {:induction false} NamedStep(a: seq<int>, i: nat)
    requires i < |a| && Distinct(a, i)
    ensures a[i] == 0 ==> Named(a, i) == Named(a, i + 1)
    ensures a[i] != 0 ==> Named(a, i) == Named(a, i + 1) + {a[i] - 16} && a[i] - 16 !in Named(a, i + 1)
    ensures Distinct(a, i + 1)
  {
    forall x ensures x in Named(a, i) <==> x in Named(a, i + 1) || (a[i] != 0 && x == a[i] - 16) {
      if x in Named(a, i) {
        var j :| i <= j < |a| && a[j] != 0 && x == a[j] - 16;
        if j > i { assert i + 1 <= j < |a| && a[j] != 0; }
      }
      if x in Named(a, i + 1) {
        var j :| i + 1 <= j < |a| && a[j] != 0 && x == a[j] - 16;
        assert i <= j < |a| && a[j] != 0;
      }
      if a[i] != 0 && x == a[i] - 16 { assert i <= i < |a| && a[i] != 0; }
    }
  }

  /** Every word held outside r is as it was, and still held. */
  ghost predicate KeptExcept(w: Memory, w': Memory, L: Layout, segs: seq<Segment>, mm: map<int, Region>, L': Layout,
                             segs': seq<Segment>, mm': map<int, Region>, r: set<int>)
  { forall u, a :: u !in r && Has(L, segs, mm, u, a) ==> Has(L', segs', mm', u, a) && Rd(w', a) == Rd(w, a) }

  lemma KeptExceptTrans(w: Memory, w1: Memory, w2: Memory, L: Layout, L1: Layout, L2: Layout, segs: seq<Segment>,
                        mm: map<int, Region>, mm1: map<int, Region>, mm2: map<int, Region>, r: set<int>)
    requires KeptExcept(w, w1, L, segs, mm, L1, segs, mm1, r) && KeptExcept(w1, w2, L1, segs, mm1, L2, segs, mm2, r)
    ensures KeptExcept(w, w2, L, segs, mm, L2, segs, mm2, r)
  {}

  /** The directly mapped chunks outside r are as before; of those in r only such are left as are still to be freed, or
      any if the system refused to take pages back. */
  ghost predicate SameDirect(mm0: map<int, Region>, mm: map<int, Region>, r: set<int>, todo: set<int>, refused: bool) {
    && (forall q :: q in mm ==> q in mm0 && mm[q] == mm0[q])
    && (forall q :: q in mm0 && q !in r ==> q in mm)
    && (forall q :: q in mm && q in r ==> q in todo || refused)
  }

  lemma DirectDone(mm0: map<int, Region>, mm: map<int, Region>, r: set<int>)
    requires SameDirect(mm0, mm, r, {}, false)
    ensures mm == mm0 - r
  {
    forall q ensures q in mm <==> q in mm0 && q !in r {}
    assert forall q :: q in mm ==> mm[q] == (mm0 - r)[q];
  }

  /** Chunk p has been disposed of. */
  lemma DirectFewer(mm0: map<int, Region>, mm: map<int, Region>, mm': map<int, Region>, r: set<int>, todo: set<int>,
                    todo': set<int>, p: int, refused: bool, refused': bool)
    requires SameDirect(mm0, mm, r, todo, refused) && p in r && todo <= todo' + {p}
    requires (mm' == mm - {p} || (mm' == mm && (p in mm ==> refused'))) && (refused ==> refused')
    ensures SameDirect(mm0, mm', r, todo', refused')
  {}

  lemma DirectSame(mm0: map<int, Region>, mm: map<int, Region>, r: set<int>, todo: set<int>, todo': set<int>,
                   refused: bool)
    requires SameDirect(mm0, mm, r, todo, refused) && forall q :: q in todo && q in mm ==> q in todo'
    ensures SameDirect(mm0, mm, r, todo', refused)
  {}

  /** Join the chunk after p, also in use, to p. */
  method JoinNext(m: MState, p: int, psize: nat, next: int)
    requires m.Valid() && p in Live(m.L, m.segs) && next in Live(m.L, m.segs) && psize == m.L[p].size
    requires next == p + psize
    modifies m`word, m`L
    ensures m.Valid() && Live(m.L, m.segs) == (Live(old(m.L), m.segs) - {next})[p := psize + old(m.L[next].size)]
    ensures KeptExcept(old(m.word), m.word, old(m.L), m.segs, m.mm, m.L, m.segs, m.mm, {p, next})
  {
    hide Structured, Threaded, Mapped, Indexed, LayoutOk, Tagged, BooksOk, ParamsOk, Used, KeptExcept, PayloadSafe;
    ghost var w, L := m.word, m.L;
    LiveSize(L, m.segs);
    JoinFacts(w, L, m.segs, m.Spares(), m.g.size, p, next);
    var newsize := ChunkSize(m.word, next) + psize;
    ExtendOver(m, p, newsize);
    JoinedLive(L, m.L, m.segs, p, next, newsize);
    JoinedKept(w, m.word, m.os.mapped, L, m.L, m.segs, m.mm, m.mp.page, m.least, p, next, newsize);
  }

  lemma JoinFacts(w: Memory, L: Layout, segs: seq<Segment>, s: Spare, size: map<int, nat>, p: int, next: int)
    requires LayoutOk(L, segs, s) && Tagged(w, L, s.top) && Indexed(L, size, s, {})
    requires p in Live(L, segs) && next in Live(L, segs) && next == End(L, p)
    ensures Joinable(L, segs, s, p) && Indexed(L, size, s, {next}) && ChunkSize(w, next) == L[next].size
  {
    hide Coalesced, AllContained, AllFollowed, Based, MinSized, Recorded, SegmentsApart, Disjoint;
    HeadSays(w, L, s.top, next);
  }

  lemma JoinedLive(L: Layout, L': Layout, segs: seq<Segment>, p: int, n: int, size: nat)
    requires p in Live(L, segs) && n in Live(L, segs) && Used(L') == (Used(L) - {n})[p := size]
    ensures Live(L', segs) == (Live(L, segs) - {n})[p := size]
  {
    assert forall q :: q in L && L[q].inuse <==> q in Used(L);
    assert forall q :: q in L' && L'[q].inuse <==> q in Used(L');
  }

  lemma JoinedKept(w: Memory, w': Memory, mapped: set<int>, L: Layout, L': Layout, segs: seq<Segment>, mm: map<int,
                   Region>, page: nat, least: int, p: int, n: int, size: nat)
    requires BooksOk(w, mapped, segs, mm, page, least) && PayloadSafe(w, w', L, segs)
    requires Live(L', segs) == (Live(L, segs) - {n})[p := size]
    ensures BooksOk(w', mapped, segs, mm, page, least) && KeptExcept(w, w', L, segs, mm, L', segs, mm, {p, n})
  {
    hide BooksOk, PayloadSafe, Undisturbed;
    BooksAfter(w, w', mapped, L, segs, mm, page, least);
    forall u, a | u !in {p, n} && Has(L, segs, mm, u, a) ensures Has(L', segs, mm, u, a) && Rd(w', a) == Rd(w, a) {
      HasSize(L, segs, u, a);
      HasSize(L', segs, u, a);
      HeldSame(w, w', L, segs, mm, u, a);
    }
  }

  lemma HeldSame(w: Memory, w': Memory, L: Layout, segs: seq<Segment>, mm: map<int, Region>, u: int, a: int)
    requires Undisturbed(w, w', L, mm) && Has(L, segs, mm, u, a)
    ensures Rd(w', a) == Rd(w, a)
  {}

  /** dispose_chunk of a chunk of either kind. */
  method DisposeOne(m: MState, p: int, psize: nat)
    requires m.Valid() && (p in Live(m.L, m.segs) || p in m.mm) && (p !in m.mm && p in m.L ==> psize == m.L[p].size)
    modifies m`word, m`smallmap, m`treemap, m`treebins, m`g, m`dv, m`dvsize, m`top, m`topsize, m`L, m`mm, m`footprint
    modifies m.os
    ensures m.Valid() && Live(m.L, m.segs) == Live(old(m.L), m.segs) - {p}
    ensures m.os.kept >= old(m.os.kept)
    ensures Released(old(m.mm), m.mm, old(m.os.mapped), m.os.mapped, p, m.os.kept > old(m.os.kept))
    ensures KeptExcept(old(m.word), m.word, old(m.L), m.segs, old(m.mm), m.L, m.segs, m.mm, {p})
  {
    hide MState.HeapValid, BooksOk, ParamsOk, KeptExcept, KeptBut, Live, Used, Undisturbed;
    ghost var w, L, mm := m.word, m.L, m.mm;
    HeadTells(m, p);
    if p in Live(m.L, m.segs) { LiveNotDirect(m, p); }
    if Rd(m.word, HeadAt(p)) % 4 == 0 {
      SafeNow(w, L, mm);
      var gone := ReleaseDirect(m, p);
      assert Live(L, m.segs) - {p} == Live(L, m.segs);
      KeptFrom(w, m.word, L, m.segs, mm, m.L, m.segs, m.mm, p);
    } else {
      var fate, total := FreeChunk(m, p, psize);
      KeptFrom(w, m.word, L, m.segs, mm, m.L, m.segs, m.mm, p);
    }
    ButIsExcept(w, m.word, L, m.segs, mm, m.L, m.mm, p);
  }

  lemma ButIsExcept(w: Memory, w': Memory, L: Layout, segs: seq<Segment>, mm: map<int, Region>, L': Layout,
                    mm': map<int, Region>, p: int)
    requires KeptBut(w, w', L, segs, mm, L', segs, mm', p)
    ensures KeptExcept(w, w', L, segs, mm, L', segs, mm', {p})
  {}

  lemma KeptWider(w: Memory, w': Memory, L: Layout, segs: seq<Segment>, mm: map<int, Region>, L': Layout, mm': map<int,
                  Region>, r: set<int>, r': set<int>)
    requires KeptExcept(w, w', L, segs, mm, L', segs, mm', r) && r <= r'
    ensures KeptExcept(w, w', L, segs, mm, L', segs, mm', r')
  {}

  /** All chunks still named are held. */
  ghost predicate AllHeld(m: MState, todo: set<int>)
    reads m`L, m`segs, m`mm
  { forall p :: p in todo ==> p in Live(m.L, m.segs) || p in m.mm }

  lemma NothingExcept(w: Memory, L: Layout, segs: seq<Segment>, mm: map<int, Region>, r: set<int>)
    ensures KeptExcept(w, w, L, segs, mm, L, segs, mm, r)
  {}

  /** What the array names does not change when the element before is cleared. */
  lemma SameNamed(s: seq<int>, s': seq<int>, i: nat)
    requires |s| == |s'| && i < |s| && s'[i + 1..] == s[i + 1..] && Distinct(s, i + 1)
    ensures Named(s', i + 1) == Named(s, i + 1) && Distinct(s', i + 1)
  {
    assert forall j :: i + 1 <= j < |s| ==> s[j] == s[i + 1..][j - (i + 1)] && s'[j] == s'[i + 1..][j - (i + 1)];
    var k := i + 1;
    forall x | x in Named(s, k)
      ensures x in Named(s', k)
    {
      var j :| k <= j < |s| && s[j] != 0 && x == s[j] - 16; assert s'[j] == s[j];
    }
    forall x | x in Named(s', k)
      ensures x in Named(s, k)
    {
      var j :| k <= j < |s| && s'[j] != 0 && x == s'[j] - 16; assert s'[j] == s[j];
    }
  }

  /** Putting p in the place of the chunk named first. */
  lemma RenamedFirst(s: seq<int>, s': seq<int>, i: nat, p: int)
    requires |s| == |s'| && i < |s| && s' == s[i := Mem(p)] && s[i] != 0 && Mem(p) != 0 && Distinct(s, i)
    requires p !in Named(s, i)
    ensures Named(s', i) == Named(s, i + 1) + {p} && Distinct(s', i) && p !in Named(s, i + 1)
    ensures s[i] - 16 !in Named(s, i + 1) && Named(s, i) == Named(s, i + 1) + {s[i] - 16}
  {
    NamedStep(s, i);
    forall k | i < k < |s| ensures s'[k] != Mem(p) { assert s[k] != 0 ==> s[k] - 16 in Named(s, i); }
    assert s'[i + 1..] == s[i + 1..];
    SameNamed(s, s', i);
    NamedStep(s', i);
  }

  /** When the chunk after p is held, both are chunks of a segment. */
  lemma NextHeld(m: MState, p: int, next: int)
    requires m.Valid() && (p in Live(m.L, m.segs) || p in m.mm) && next == p + ChunkSize(m.word, p)
    requires (next in Live(m.L, m.segs) || next in m.mm)
    ensures p !in m.mm && next !in m.mm && p in Live(m.L, m.segs) && next in Live(m.L, m.segs)
    ensures ChunkSize(m.word, p) == m.L[p].size > 0
  {
    hide MState.HeapValid, BooksOk, Live;
    HeadTells(m, p);
    if p in m.mm {
      DirectEnds(m, p, next);
    } else {
      NextPlace(m, p);
    }
  }

  lemma NextPlace(m: MState, p: int)
    requires m.Valid() && p in Live(m.L, m.segs)
    ensures p in m.L && p + m.L[p].size !in m.mm && m.L[p].size > 0
  {
    hide MState.BinsValid, Indexed, Tagged, Coalesced, AllContained, AllFollowed, Based, BooksOk;
    HasNext(m.L, m.segs, m.Spares(), p);
    ChunkNotDirect(m.word, m.os.mapped, m.L, m.segs, m.Spares(), m.mm, m.mp.page, m.least, p + m.L[p].size);
  }

  /** What follows a directly mapped chunk is its own fencepost, not a chunk. */
  lemma DirectEnds(m: MState, p: int, next: int)
    requires m.Valid() && p in m.mm && next == p + ChunkSize(m.word, p)
    ensures next !in m.mm && next !in Live(m.L, m.segs)
  {
    hide MState.HeapValid, Live;
    DirectWords(m.word, m.mm, p);
    assert MappedChunk(m.word, p, m.mm[p]);
    assert next in m.mm ==> MappedChunk(m.word, next, m.mm[next]);
    if next in Live(m.L, m.segs) { LiveAway(m, p, next); }
  }

  lemma LiveAway(m: MState, p: int, q: int)
    requires m.Valid() && p in m.mm && q in Live(m.L, m.segs)
    ensures !(m.mm[p].base <= q < m.mm[p].base + m.mm[p].size)
  {
    hide MState.BinsValid, Indexed, Tagged, Coalesced, AllFollowed, Based, Recorded, MinSized, Paged, Accounted,
      Bounded;
    assert Contained(m.segs, q, End(m.L, q));
    var k: nat :| Within(m.segs, k, q, End(m.L, q));
    Bounds(m.segs, k);
    assert Beside(m.mm[p].base, m.mm[p].size, m.segs[k].base, m.segs[k].size);
  }

  /** p and the chunk named at i are neighbours: p takes it in and its place in the array. */
  method JoinStep(m: MState, a: array<int>, i: nat, p: int, psize: nat, next: int, ghost u0: map<int, nat>,
                  ghost r: set<int>)
    requires m.Valid() && i < a.Length && Distinct(a[..], i) && AllHeld(m, Named(a[..], i)) && p !in Named(a[..], i)
    requires p > 0
    requires (p in Live(m.L, m.segs) || p in m.mm) && psize == ChunkSize(m.word, p) && next == p + psize
    requires a[i] == Mem(next) != 0
    requires Progress(u0, Live(m.L, m.segs), r, Named(a[..], i) + {p})
    modifies m`word, m`L, a
    ensures m.Valid() && Distinct(a[..], i) && AllHeld(m, Named(a[..], i))
    ensures Progress(u0, Live(m.L, m.segs), r, Named(a[..], i))
    ensures forall j :: 0 <= j < i ==> a[j] == old(a[j])
    ensures forall q :: q in old(Named(a[..], i)) + {p} && q in m.mm ==> q in Named(a[..], i)
    ensures KeptExcept(old(m.word), m.word, old(m.L), m.segs, m.mm, m.L, m.segs, m.mm, r)
  {
    hide MState.HeapValid, BooksOk, ParamsOk, KeptExcept, Live, Used, Distinct;
    ghost var w, L, s := m.word, m.L, a[..];
    assert next in Named(s, i);
    NextHeld(m, p, next);
    LiveSize(L, m.segs);
    JoinNext(m, p, psize, next);
    a[i] := Mem(p);
    RenamedFirst(s, a[..], i, p);
    assert Named(s, i) + {p} == Named(s, i + 1) + {p, next};
    ProgressJoined(u0, Live(L, m.segs), Live(m.L, m.segs), r, Named(s, i + 1), p, next, psize + L[next].size);
    KeptWider(w, m.word, L, m.segs, m.mm, m.L, m.mm, {p, next}, r);
  }

  /** One element of the array: free its chunk, or join it to the next one. */
  method BulkStep(m: MState, a: array<int>, i: nat, ghost u0: map<int, nat>, ghost mm0: map<int, Region>,
                  ghost r: set<int>, ghost refused: bool)
    requires m.Valid() && i < a.Length && Distinct(a[..], i) && AllHeld(m, Named(a[..], i))
    requires Progress(u0, Live(m.L, m.segs), r, Named(a[..], i))
    requires SameDirect(mm0, m.mm, r, Named(a[..], i), refused)
    modifies m`word, m`smallmap, m`treemap, m`treebins, m`g, m`dv, m`dvsize, m`top, m`topsize, m`L, m`mm, m`footprint
    modifies m.os, a
    ensures m.Valid() && Distinct(a[..], i + 1) && AllHeld(m, Named(a[..], i + 1)) && a[i] == 0
    ensures Progress(u0, Live(m.L, m.segs), r, Named(a[..], i + 1)) && m.os.kept >= old(m.os.kept)
    ensures SameDirect(mm0, m.mm, r, Named(a[..], i + 1), refused || m.os.kept > old(m.os.kept))
    ensures forall j :: 0 <= j < i ==> a[j] == old(a[j])
    ensures KeptExcept(old(m.word), m.word, old(m.L), m.segs, old(m.mm), m.L, m.segs, m.mm, r)
  {
    hide MState.HeapValid, MState.BooksValid, KeptExcept, Live, Used, SameDirect, Progress;
    ProgressWithin(u0, Live(m.L, m.segs), r, Named(a[..], i));
    ghost var w, L, mm, s0 := m.word, m.L, m.mm, a[..];
    ghost var todo := Named(s0, i + 1);
    NamedStep(s0, i);
    NothingExcept(w, L, m.segs, mm, r);
    var mem := a[i];
    if mem != 0 {
      var p := mem - 16;
      assert p in Named(s0, i);
      HeadTells(m, p);
      PositiveSize(m, p);
      var psize := ChunkSize(m.word, p);
      var next := p + psize;
      a[i] := 0;
      SameNamed(s0, a[..], i);
      if i + 1 < a.Length && a[i + 1] == Mem(next) {
        JoinStep(m, a, i + 1, p, psize, next, u0, r);
        DirectSame(mm0, mm, r, Named(s0, i), Named(a[..], i + 1), refused);
      } else {
        DisposeOne(m, p, psize);
        DirectFewer(mm0, mm, m.mm, r, Named(s0, i), todo, p, refused, refused || m.os.kept > old(m.os.kept));
        ProgressFreed(u0, Live(L, m.segs), Live(m.L, m.segs), r, todo, p);
        KeptWider(w, m.word, L, m.segs, mm, m.L, m.mm, {p}, r);
      }
    }
  }

  lemma PositiveSize(m: MState, p: int)
    requires m.Valid() && (p in Live(m.L, m.segs) || p in m.mm)
    ensures ChunkSize(m.word, p) >= 0 && p > 0
  {
    hide MState.HeapValid, BooksOk, Live;
    UsableWhole(m, p);
  }

  /** The loop of internal_bulk_free: just the chunks named in the array are gone, and its slots are cleared. */
  method BulkFreeLoop(m: MState, a: array<int>)
    requires m.Valid() && Distinct(a[..], 0) && AllHeld(m, Named(a[..], 0))
    modifies m`word, m`smallmap, m`treemap, m`treebins, m`g, m`dv, m`dvsize, m`top, m`topsize, m`L, m`mm, m`footprint
    modifies m.os, a
    ensures m.Valid() && Live(m.L, m.segs) == Live(old(m.L), m.segs) - old(Named(a[..], 0))
    ensures m.os.kept >= old(m.os.kept)
    ensures SameDirect(old(m.mm), m.mm, old(Named(a[..], 0)), {}, m.os.kept > old(m.os.kept))
    ensures forall i :: 0 <= i < a.Length ==> a[i] == 0
    ensures KeptExcept(old(m.word), m.word, old(m.L), m.segs, old(m.mm), m.L, m.segs, m.mm, old(Named(a[..], 0)))
  {
    hide MState.HeapValid, BooksOk, ParamsOk, KeptExcept, Live, Used, Distinct, Progress;
    ghost var w, L, mm, r, u0 := m.word, m.L, m.mm, Named(a[..], 0), Live(m.L, m.segs);
    NothingExcept(w, L, m.segs, mm, r);
    ProgressStart(u0, r);
    DirectStart(mm, r, false);
    var i := 0;
    while i < a.Length
      invariant i <= a.Length && m.Valid() && Distinct(a[..], i) && AllHeld(m, Named(a[..], i))
      invariant Progress(u0, Live(m.L, m.segs), r, Named(a[..], i)) && m.os.kept >= old(m.os.kept)
      invariant SameDirect(mm, m.mm, r, Named(a[..], i), m.os.kept > old(m.os.kept))
      invariant forall j :: 0 <= j < i ==> a[j] == 0
      invariant KeptExcept(w, m.word, L, m.segs, mm, m.L, m.segs, m.mm, r)
    {
      ghost var w1, L1, mm1 := m.word, m.L, m.mm;
      BulkStep(m, a, i, u0, mm, r, m.os.kept > old(m.os.kept));
      KeptExceptTrans(w, w1, m.word, L, L1, m.L, m.segs, mm, mm1, m.mm, r);
      i := i + 1;
    }
    assert Named(a[..], i) == {};
    ProgressDone(u0, Live(m.L, m.segs), r);
  }

  lemma ProgressWithin(u0: map<int, nat>, u: map<int, nat>, r: set<int>, todo: set<int>)
    requires Progress(u0, u, r, todo)
    ensures todo <= r
  {}

  lemma DirectStart(mm: map<int, Region>, r: set<int>, refused: bool) ensures SameDirect(mm, mm, r, r, refused) {}

  lemma ProgressStart(u0: map<int, nat>, r: set<int>) ensures Progress(u0, u0, r, r) {}

  /** internal_bulk_free */
  method BulkFree(m: MState, a: array<int>)
    requires m.Valid() && Distinct(a[..], 0) && AllHeld(m, Named(a[..], 0))
    modifies m`word, m`smallmap, m`treemap, m`treebins, m`g, m`dv, m`dvsize, m`top, m`topsize, m`trimCheck, m`segs, m`L
    modifies m`mm, m`footprint, m`releaseChecks, m.os, a
    ensures m.Valid() && Live(m.L, m.segs) == Live(old(m.L), old(m.segs)) - old(Named(a[..], 0))
    ensures m.os.kept >= old(m.os.kept)
    ensures SameDirect(old(m.mm), m.mm, old(Named(a[..], 0)), {}, m.os.kept > old(m.os.kept))
    ensures m.os.kept == old(m.os.kept) ==> m.mm == old(m.mm) - old(Named(a[..], 0))
    ensures
      m.topsize <= old(m.trimCheck) || m.topsize <= TOP_FOOT_SIZE + m.mp.granularity || m.os.kept > old(m.os.kept)
    ensures forall i :: 0 <= i < a.Length ==> a[i] == 0
    ensures KeptExcept(old(m.word), m.word, old(m.L), old(m.segs), old(m.mm), m.L, m.segs, m.mm, old(Named(a[..], 0)))
  {
    hide MState.HeapValid, BooksOk, ParamsOk, KeptExcept, Live, Used, Distinct, Undisturbed;
    ghost var w, L, segs, mm, r := m.word, m.L, m.segs, m.mm, Named(a[..], 0);
    BulkFreeLoop(m, a);
    if m.os.kept == old(m.os.kept) { DirectDone(mm, m.mm, r); }
    if m.topsize > m.trimCheck {
      ghost var w1, L1 := m.word, m.L;
      ghost var size := m.topsize;
      var trimmed := SysTrim(m, 0);
      UnitPositive(m);
      TrimmedSmall(size, m.topsize, TOP_FOOT_SIZE, m.mp.granularity, m.os.kept > old(m.os.kept));
      TrimKept(w, w1, m.word, L, L1, m.L, segs, m.segs, mm, m.mm, r);
    }
  }

  lemma TrimKept(w: Memory, w1: Memory, w2: Memory, L: Layout, L1: Layout, L2: Layout, segs: seq<Segment>,
                 segs2: seq<Segment>, mm: map<int, Region>, mm1: map<int, Region>, r: set<int>)
    requires KeptExcept(w, w1, L, segs, mm, L1, segs, mm1, r)
    requires Live(L2, segs2) == Live(L1, segs) && Undisturbed(w1, w2, L2, mm1)
    ensures KeptExcept(w, w2, L, segs, mm, L2, segs2, mm1, r)
  {
    forall u, a | u !in r && Has(L, segs, mm, u, a) ensures Has(L2, segs2, mm1, u, a) && Rd(w2, a) == Rd(w, a) {
      HasSize(L1, segs, u, a);
      HasSize(L2, segs2, u, a);
    }
  }

  /** The chunks named, freed one by one. */
  method FreeEach(m: MState, s: seq<int>)
    requires m.Valid() && Distinct(s, 0) && AllHeld(m, Named(s, 0))
    modifies m`word, m`smallmap, m`treemap, m`treebins, m`g, m`dv, m`dvsize, m`top, m`topsize, m`L, m`mm, m`footprint
    modifies m.os
    ensures m.Valid() && Live(m.L, m.segs) == Live(old(m.L), m.segs) - Named(s, 0)
    ensures m.os.kept >= old(m.os.kept)
    ensures SameDirect(old(m.mm), m.mm, Named(s, 0), {}, m.os.kept > old(m.os.kept))
    ensures KeptExcept(old(m.word), m.word, old(m.L), m.segs, old(m.mm), m.L, m.segs, m.mm, Named(s, 0))
  {
    hide MState.HeapValid, MState.BooksValid, BooksOk, ParamsOk, KeptExcept, Live, Used, Progress, SameDirect;
    ghost var w, L, mm, r, u0 := m.word, m.L, m.mm, Named(s, 0), Live(m.L, m.segs);
    NothingExcept(w, L, m.segs, mm, r);
    ProgressStart(u0, r);
    DirectStart(mm, r, m.os.kept > old(m.os.kept));
    var i := 0;
    while i < |s|
      invariant i <= |s| && m.Valid() && Distinct(s, i) && AllHeld(m, Named(s, i)) && Named(s, i) <= r
      invariant Progress(u0, Live(m.L, m.segs), r, Named(s, i)) && m.os.kept >= old(m.os.kept)
      invariant SameDirect(mm, m.mm, r, Named(s, i), m.os.kept > old(m.os.kept))
      invariant KeptExcept(w, m.word, L, m.segs, mm, m.L, m.segs, m.mm, r)
    {
      ghost var w1, L1, mm1, kept := m.word, m.L, m.mm, m.os.kept;
      NamedStep(s, i);
      if s[i] != 0 {
        var p := s[i] - 16;
        assert p in Named(s, i);
        HeadTells(m, p);
        PositiveSize(m, p);
        DisposeOne(m, p, ChunkSize(m.word, p));
        DirectFewer(mm, mm1, m.mm, r, Named(s, i), Named(s, i + 1), p, kept > old(m.os.kept),
                    m.os.kept > old(m.os.kept));
        ProgressFreed(u0, Live(L1, m.segs), Live(m.L, m.segs), r, Named(s, i + 1), p);
        KeptWider(w1, m.word, L1, m.segs, mm1, m.L, m.mm, {p}, r);
        KeptExceptTrans(w, w1, m.word, L, L1, m.L, m.segs, mm, mm1, m.mm, r);
      }
      i := i + 1;
    }
    assert Named(s, i) == {};
    ProgressDone(u0, Live(m.L, m.segs), r);
  }

  /** The loop of bulk_free and freeing one by one lead from the same layout to the same layout. */
  method BulkLikeEach(m: MState, m': MState, a: array<int>)
    requires m.Valid() && m'.Valid() && m != m' && m.os != m'.os
    requires m.L == m'.L && m.segs == m'.segs && m.mm == m'.mm && Distinct(a[..], 0) && AllHeld(m, Named(a[..], 0))
    modifies m`word, m`smallmap, m`treemap, m`treebins, m`g, m`dv, m`dvsize, m`top, m`topsize, m`L, m`mm, m`footprint
    modifies m'`word, m'`smallmap, m'`treemap, m'`treebins, m'`g, m'`dv, m'`dvsize, m'`top, m'`topsize, m'`L, m'`mm
    modifies m'`footprint, m.os, m'.os, a
    ensures m.Valid() && m'.Valid() && m.L == m'.L
    ensures Live(m.L, m.segs) == Live(old(m.L), m.segs) - old(Named(a[..], 0))
  {
    hide MState.HeapValid, BooksOk, ParamsOk, KeptExcept, Live, Used, SameDirect, Distinct;
    FreeEach(m', a[..]);
    BulkFreeLoop(m, a);
    FreedInAnyOrder(m, m');
  }

  /** The same chunks in use in the same segments: the same layout, whatever the order of frees and joins. */
  lemma FreedInAnyOrder(m: MState, m': MState)
    requires m.HeapValid() && m'.HeapValid() && m.segs == m'.segs && Live(m.L, m.segs) == Live(m'.L, m'.segs)
    ensures m.L == m'.L
  {
    hide MState.BinsValid, Indexed, Tagged, MinSized;
    LiveAndRecords(m.L, m'.L, m.segs);
    CoalescedUnique(m.L, m'.L, m.segs);
  }

  lemma LiveAndRecords(L: Layout, L': Layout, segs: seq<Segment>)
    requires Recorded(L, segs) && Recorded(L', segs) && Live(L, segs) == Live(L', segs)
    ensures Used(L) == Used(L')
  {
    forall p ensures p in Used(L) <==> p in Used(L') {
      LiveOrRecord(L, segs, p);
      LiveOrRecord(L', segs, p);
    }
    forall p | p in Used(L) ensures Used(L)[p] == Used(L')[p] {
      LiveOrRecord(L, segs, p);
      LiveOrRecord(L', segs, p);
      assert p in Live(L, segs) ==> Live(L, segs)[p] == Live(L', segs)[p];
    }
  }

  lemma LiveOrRecord(L: Layout, segs: seq<Segment>, p: int)
    requires Recorded(L, segs)
    ensures p in Used(L) <==> p in Live(L, segs) || IsRecord(segs, p)
    ensures IsRecord(segs, p) ==> p in L && L[p].size == RECORD_SIZE && p !in Live(L, segs)
    ensures p in Live(L, segs) ==> p in L && Live(L, segs)[p] == L[p].size
  {
    if IsRecord(segs, p) {
      var k :| 1 <= k < |segs| && p == segs[k].rec;
      assert segs[k].rec in L;
    }
  }
}
