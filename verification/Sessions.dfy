/** A caller's whole view: blocks with contents. Every run of allocator calls and writes keeps it. */
module Sessions {
  import opened Words
  import opened Bits
  import opened Sizes
  import opened Layout
  import opened Heap
  import opened Bins
  import opened Accounts
  import opened State
  import opened Growing
  import opened Trimming
  import opened Checks
  import opened Dlmalloc
  import opened Clients
  import opened Realloc
  import opened Memalign

  /** What the caller asked for and has written: word i of the block, where known. */
  datatype Block = Block(size: nat, data: map<nat, int>)

  /** The allocator has room for the block at p, and its memory holds what was written. */
  ghost predicate Holds(w: Memory, L: Layout, segs: seq<Segment>, mm: map<int, Region>, p: int, b: Block) {
    && Room(L, segs, mm, p, b.size)
    && (forall i :: i in b.data ==> 8 * i + 8 <= b.size && Rd(w, Mem(p) + 8 * i) == b.data[i])
  }

  ghost predicate HoldsAll(w: Memory, L: Layout, segs: seq<Segment>, mm: map<int, Region>, blocks: map<int, Block>)
  { forall p {:trigger Holds(w, L, segs, mm, p, blocks[p])} :: p in blocks ==> Holds(w, L, segs, mm, p, blocks[p]) }

  lemma HoldsHas(w: Memory, L: Layout, segs: seq<Segment>, mm: map<int, Region>, p: int, b: Block, i: nat)
    requires Holds(w, L, segs, mm, p, b) && i in b.data
    ensures Has(L, segs, mm, p, Mem(p) + 8 * i)
  {
    RoomHas(L, segs, mm, p, b.size, Mem(p) + 8 * i);
  }

  /** The block at p is as good as before if its words are. */
  lemma BlockKept(w: Memory, w': Memory, L: Layout, segs: seq<Segment>, mm: map<int, Region>, L': Layout,
                  segs': seq<Segment>, mm': map<int, Region>, p: int, b: Block)
    requires Holds(w, L, segs, mm, p, b) && Has(L, segs, mm, p, Mem(p)) && (p in mm' ==> p !in Live(L', segs'))
    requires forall a :: Has(L, segs, mm, p, a) ==> Has(L', segs', mm', p, a) && Rd(w', a) == Rd(w, a)
    ensures Holds(w', L', segs', mm', p, b)
  {
    forall i | i in b.data ensures Rd(w', Mem(p) + 8 * i) == b.data[i] { HoldsHas(w, L, segs, mm, p, b, i); }
    var n := if b.size > 0 then b.size else 1;
    if b.size > 0 { RoomHas(L, segs, mm, p, b.size, Mem(p) + b.size - 1); }
    HasRoom(L', segs', mm', p, n);
  }

  lemma HasRoom(L: Layout, segs: seq<Segment>, mm: map<int, Region>, p: int, n: nat)
    requires n > 0 && Has(L, segs, mm, p, Mem(p) + n - 1) && (p in mm ==> p !in Live(L, segs))
    ensures Room(L, segs, mm, p, n)
  {
    HasSize(L, segs, p, Mem(p) + n - 1);
  }

  /** Whoever has room in a heap in order holds at least one word. */
  lemma HeldFirst(m: MState, p: int, n: nat)
    requires m.Valid() && Room(m.L, m.segs, m.mm, p, n)
    ensures Has(m.L, m.segs, m.mm, p, Mem(p)) && (p in m.mm || p in Live(m.L, m.segs))
    ensures (p in m.mm ==> p !in Live(m.L, m.segs)) && p > 0
  {
    hide MState.HeapValid, BooksOk, Live;
    if p in Live(m.L, m.segs) { LiveNotDirect(m, p); }
    UsableWhole(m, p);
    SomeRoom(m, p);
    RoomHas(m.L, m.segs, m.mm, p, 8, Mem(p));
  }

  lemma SomeRoom(m: MState, p: int)
    requires m.Valid() && (p in Live(m.L, m.segs) || p in m.mm)
    ensures Room(m.L, m.segs, m.mm, p, 8)
  {
    hide MState.BinsValid, Indexed, Tagged, Coalesced, AllContained, AllFollowed, Based, Recorded;
    if p in m.mm { assert MappedChunk(m.word, p, m.mm[p]); }
  }

  /** Blocks other than x survive what keeps all words but those of x. */
  lemma BlocksKept(m: MState, w: Memory, L: Layout, segs: seq<Segment>, mm: map<int, Region>, blocks: map<int, Block>,
                   x: int)
    requires m.Valid() && HoldsAll(w, L, segs, mm, blocks) && KeptBut(w, m.word, L, segs, mm, m.L, m.segs, m.mm, x)
    requires forall p :: p in blocks ==> Has(L, segs, mm, p, Mem(p))
    ensures HoldsAll(m.word, m.L, m.segs, m.mm, blocks - {x})
  {
    hide MState.HeapValid, BooksOk, Live, Holds, Has;
    forall p | p in blocks && p != x ensures Holds(m.word, m.L, m.segs, m.mm, p, blocks[p]) {
      assert Holds(w, L, segs, mm, p, blocks[p]);
      if p in Live(m.L, m.segs) { LiveNotDirect(m, p); }
      BlockKept(w, m.word, L, segs, mm, m.L, m.segs, m.mm, p, blocks[p]);
    }
  }

  /** The part of a block's contents that n bytes can hold. */
  function Prefix(data: map<nat, int>, n: nat): map<nat, int> { map i | i in data && 8 * i + 8 <= n :: data[i] }

  lemma AllHaveFirst(m: MState, blocks: map<int, Block>)
    requires m.Valid() && HoldsAll(m.word, m.L, m.segs, m.mm, blocks)
    ensures forall p :: p in blocks ==>
      Has(m.L, m.segs, m.mm, p, Mem(p)) && p > 0 && (p in m.mm || p in Live(m.L, m.segs))
  {
    hide MState.HeapValid, BooksOk, Live, Has;
    forall p | p in blocks ensures Has(m.L, m.segs, m.mm, p, Mem(p)) && p > 0 && (p in m.mm || p in Live(m.L, m.segs)) {
      assert Holds(m.word, m.L, m.segs, m.mm, p, blocks[p]);
      HeldFirst(m, p, blocks[p].size);
    }
  }

  lemma AllKeptBut(w: Memory, w': Memory, L: Layout, segs: seq<Segment>, mm: map<int, Region>, L': Layout,
                   segs': seq<Segment>, mm': map<int, Region>, x: int)
    requires KeptAll(w, w', L, segs, mm, L', segs', mm')
    ensures KeptBut(w, w', L, segs, mm, L', segs', mm', x)
  {}

  /** One more block, with nothing written yet. */
  lemma BlockAdded(w: Memory, L: Layout, segs: seq<Segment>, mm: map<int, Region>, blocks: map<int, Block>, p: int,
                   b: Block)
    requires HoldsAll(w, L, segs, mm, blocks - {p}) && Holds(w, L, segs, mm, p, b)
    ensures HoldsAll(w, L, segs, mm, blocks[p := b])
  {
    var blocks' := blocks[p := b];
    forall q | q in blocks' ensures Holds(w, L, segs, mm, q, blocks'[q]) {
      if q != p { assert q in blocks - {p} && Holds(w, L, segs, mm, q, (blocks - {p})[q]); }
    }
  }

  lemma NewBlock(w: Memory, L: Layout, segs: seq<Segment>, mm: map<int, Region>, p: int, n: nat)
    requires Room(L, segs, mm, p, n)
    ensures Holds(w, L, segs, mm, p, Block(n, map[]))
  {}

  /** A caller's store into its own block. */
  method Store(m: MState, ghost p: int, ghost n: nat, a: int, v: int)
    requires m.Valid() && Room(m.L, m.segs, m.mm, p, n) && Mem(p) <= a < Mem(p) + n
    modifies m`word
    ensures m.Valid() && m.word == old(m.word)[a := v]
    ensures KeptBut(old(m.word), m.word, m.L, m.segs, m.mm, m.L, m.segs, m.mm, p)
  {
    hide Structured, Threaded, Mapped, LayoutOk, Tagged, Indexed, BooksOk, Room, KeptBut, ParamsOk;
    WriteHarmless(m, p, n, a, v);
    m.word := m.word[a := v];
  }

  /** What dlmalloc_set_footprint_limit stores for bytes; 0 stands for no limit. */
  function FootprintLimit(bytes: nat, granularity: nat): nat requires granularity > 0
  { if bytes == LIMIT - 1 then 0 else AlignUp(bytes, granularity) }

  lemma LimitFits(bytes: nat, granularity: nat)
    requires granularity > 0
    ensures FootprintLimit(bytes, granularity) < LIMIT
  {
    var t := (bytes + (granularity - 1)) % LIMIT;
    assert 0 <= t % granularity <= t;
  }

  lemma AlignUpLeast(bytes: nat, g: nat)
    requires 0 < g <= HALF && bytes < LIMIT
    ensures if bytes + g <= LIMIT then LeastMultiple(AlignUp(bytes, g), bytes, g) else AlignUp(bytes, g) == 0
  {
    var sum := bytes + (g - 1);
    if sum < LIMIT {
      DropRemainder(sum, g);
    } else {
      assert sum % LIMIT == sum - LIMIT < g;
    }
  }

  /** A limit of 0 bytes is meant to be the least there is, but turns the limit off: the value for it is overwritten.
      Other limits are off just when they are within a unit of 2^64. */
  lemma NoLimitAtZero(bytes: nat, granularity: nat)
    requires 0 < granularity <= HALF && bytes < LIMIT
    ensures FootprintLimit(bytes, granularity) == 0 <==> bytes == 0 || bytes + granularity > LIMIT || bytes == LIMIT - 1
    ensures FootprintLimit(bytes, granularity) != 0 ==>
      LeastMultiple(FootprintLimit(bytes, granularity), bytes, granularity)
  {
    AlignUpLeast(bytes, granularity);
    hide AlignUp;
    if bytes == 0 { ZeroLeast(AlignUp(bytes, granularity), granularity); }
  }

  lemma ZeroLeast(n: nat, g: nat)
    requires g > 0 && n % g == 0 && n < g
    ensures n == 0
  {}

  class Session {
    const m: MState
    /** The store of blocks the allocator is held against. */
    var blocks: map<int, Block>

    ghost predicate Inv()
      reads this, m, m.os
    {
      m.Valid() && HoldsAll(m.word, m.L, m.segs, m.mm, blocks)
    }

    constructor (m: MState)
      requires m.Valid()
      ensures Inv() && this.m == m && blocks == map[]
    {
      this.m := m;
      blocks := map[];
    }

    method Malloc(bytes: nat) returns (mem: int)
      requires Inv() && bytes < LIMIT
      modifies this, m, m.os
      ensures Inv()
      ensures m.footprintLimit == old(m.footprintLimit) && Heeded(old(m.footprint), m.footprint, m.footprintLimit)
      ensures mem == 0 ==> blocks == old(blocks)
      ensures mem != 0 ==> mem - 16 !in old(blocks) && blocks == old(blocks)[mem - 16 := Block(bytes, map[])]
      ensures mem == 0 ==>
        Barred(m.mp, m.footprint, m.footprintLimit, Padded(bytes)) || m.os.refusals > old(m.os.refusals)
      ensures bytes < MAX_REQUEST && old(Findable(m.g, m.L, m.Spares(), Padded(bytes))) ==>
        && mem != 0 && m.os.mapped == old(m.os.mapped) && m.os.refusals == old(m.os.refusals)
        && m.footprint == old(m.footprint) && m.segs == old(m.segs) && m.mm == old(m.mm)
    {
      hide MState.HeapValid, MState.BooksValid, HoldsAll, KeptAll, KeptBut, Live, Has, Room, Holds, Gained,
        MallocedChunkOk, NothingFits, Barred, Findable, ByPolicy, GrantSized;
      ghost var w, L, segs, mm := m.word, m.L, m.segs, m.mm;
      AllHaveFirst(m, blocks);
      mem := DlMalloc(m, bytes);
      if mem != 0 {
        var p := mem - 16;
        NewRoom(m, L, segs, mm, p, bytes);
        GainedFresh(m, L, segs, mm, p, bytes);
        AllKeptBut(w, m.word, L, segs, mm, m.L, m.segs, m.mm, p);
        BlocksKept(m, w, L, segs, mm, blocks, p);
        NewBlock(m.word, m.L, m.segs, m.mm, p, bytes);
        BlockAdded(m.word, m.L, m.segs, m.mm, blocks, p, Block(bytes, map[]));
        blocks := blocks[p := Block(bytes, map[])];
      }
    }

    method Free(p: int)
      requires Inv() && p in blocks
      modifies this, m, m.os
      ensures Inv() && blocks == old(blocks) - {p}
      ensures m.footprint <= old(m.footprint) && m.os.kept >= old(m.os.kept)
      ensures p in old(m.mm) && m.os.kept == old(m.os.kept) ==>
        m.mm == old(m.mm) - {p} && m.footprint == old(m.footprint) - old(m.mm[p].size)
      ensures m.footprintLimit == old(m.footprintLimit) && Heeded(old(m.footprint), m.footprint, m.footprintLimit)
    {
      hide MState.HeapValid, MState.BooksValid, HoldsAll, KeptBut, Live, Has, Room, Holds;
      ghost var w, L, segs, mm := m.word, m.L, m.segs, m.mm;
      AllHaveFirst(m, blocks);
      DlFree(m, Mem(p));
      BlocksKept(m, w, L, segs, mm, blocks, p);
      blocks := blocks - {p};
    }

    method Realloc(p: int, bytes: nat) returns (mem: int)
      requires Inv() && p in blocks && bytes < LIMIT
      modifies this, m, m.os
      ensures Inv()
      ensures m.footprintLimit == old(m.footprintLimit) && Heeded(old(m.footprint), m.footprint, m.footprintLimit)
      ensures mem == 0 ==> blocks == old(blocks)
      ensures mem != 0 ==>
        && (mem - 16 == p || mem - 16 !in old(blocks))
        && blocks == (old(blocks) - {p})[mem - 16 := Block(bytes, Prefix(old(blocks[p].data), bytes))]
      ensures mem == 0 ==>
        Barred(m.mp, m.footprint, m.footprintLimit, Padded(bytes)) || m.os.refusals > old(m.os.refusals)
      ensures bytes < MAX_REQUEST ==>
        && (p in old(m.mm) || p in old(m.L))
        && (mem == Mem(p) <==> InPlace(old(m.L), old(m.mm), old(m.top), p, Request2Size(bytes), m.mp.granularity))
    {
      hide MState.HeapValid, MState.BooksValid, HoldsAll, KeptBut, KeptAll, Live, Has, Room, Holds, Carried, Usable,
        Prefix, Barred, InPlace, SameBut, Gained, Request2Size, Padded;
      ghost var w, L, segs, mm := m.word, m.L, m.segs, m.mm;
      AllHaveFirst(m, blocks);
      BlockFits(m, blocks, p);
      mem := DlRealloc(m, Mem(p), bytes);
      if mem != 0 {
        var q, b := mem - 16, Block(bytes, Prefix(blocks[p].data, bytes));
        BlocksKept(m, w, L, segs, mm, blocks, p);
        BlockCarried(w, m.word, L, segs, mm, m.L, m.segs, m.mm, p, q, blocks[p], bytes);
        assert (blocks - {p}) - {q} == blocks - {p};
        BlockAdded(m.word, m.L, m.segs, m.mm, blocks - {p}, q, b);
        blocks := (blocks - {p})[q := b];
      }
    }

    method Memalign(alignment: nat, bytes: nat) returns (mem: int, ghost a: nat)
      requires Inv() && alignment <= HALF && bytes < LIMIT
      modifies this, m, m.os
      ensures Inv()
      ensures m.footprintLimit == old(m.footprintLimit) && Heeded(old(m.footprint), m.footprint, m.footprintLimit)
      ensures mem == 0 ==> blocks == old(blocks)
      ensures mem != 0 ==> mem - 16 !in old(blocks) && blocks == old(blocks)[mem - 16 := Block(bytes, map[])]
      ensures Rounded(alignment, a)
      ensures mem != 0 ==> mem % a == 0
      ensures mem == 0 ==>
        || bytes >= MAX_REQUEST - a || Barred(m.mp, m.footprint, m.footprintLimit, Padded(Widened(bytes, a)))
        || m.os.refusals > old(m.os.refusals)
    {
      hide MState.HeapValid, MState.BooksValid, HoldsAll, KeptBut, KeptAll, Live, Has, Room, Holds, Barred, Findable,
        Rounded, Padded, Widened;
      ghost var w, L, segs, mm := m.word, m.L, m.segs, m.mm;
      AllHaveFirst(m, blocks);
      mem, a := DlMemalign(m, alignment, bytes);
      if mem != 0 {
        var p := mem - 16;
        if p in Live(m.L, m.segs) { LiveNotDirect(m, p); }
        AllKeptBut(w, m.word, L, segs, mm, m.L, m.segs, m.mm, p);
        BlocksKept(m, w, L, segs, mm, blocks, p);
        NewBlock(m.word, m.L, m.segs, m.mm, p, bytes);
        BlockAdded(m.word, m.L, m.segs, m.mm, blocks, p, Block(bytes, map[]));
        blocks := blocks[p := Block(bytes, map[])];
      }
    }

    method Trim(pad: nat) returns (trimmed: bool)
      requires Inv() && pad < LIMIT
      modifies m, m.os
      ensures Inv() && blocks == old(blocks)
      ensures trimmed == (m.footprint < old(m.footprint)) && m.footprint <= old(m.footprint)
      ensures pad < MAX_REQUEST && m.os.kept == old(m.os.kept) ==> NoneReleasable(m.L, m.segs)
      ensures m.footprintLimit == old(m.footprintLimit) && Heeded(old(m.footprint), m.footprint, m.footprintLimit)
    {
      hide MState.HeapValid, MState.BooksValid, HoldsAll, KeptBut, Live, Has, Undisturbed, Extends, NoneReleasable,
        TopTrimmed;
      ghost var w, L, segs := m.word, m.L, m.segs;
      AllHaveFirst(m, blocks);
      trimmed := SysTrim(m, pad);
      KeptFrom(w, m.word, L, segs, m.mm, m.L, m.segs, m.mm, 0);
      BlocksKept(m, w, L, segs, m.mm, blocks, 0);
      assert blocks - {0} == blocks;
    }

    method Write(p: int, i: nat, v: int)
      requires Inv() && p in blocks && 8 * i + 8 <= blocks[p].size
      modifies this`blocks, m`word
      ensures Inv() && blocks == old(blocks)[p := old(blocks[p]).(data := old(blocks[p]).data[i := v])]
    {
      hide MState.HeapValid, MState.BooksValid, HoldsAll, KeptBut, Live, Has, Holds, Room, ClientWrote;
      ghost var w, n := m.word, blocks[p].size;
      AllHaveFirst(m, blocks);
      BlockOf(m, blocks, p);
      Store(m, p, n, Mem(p) + 8 * i, v);
      BlocksKept(m, w, m.L, m.segs, m.mm, blocks, p);
      BlockWritten(w, m.word, m.L, m.segs, m.mm, p, blocks[p], i, v);
      BlockAdded(m.word, m.L, m.segs, m.mm, blocks, p, blocks[p].(data := blocks[p].data[i := v]));
      blocks := blocks[p := blocks[p].(data := blocks[p].data[i := v])];
    }

    method SetFootprintLimit(bytes: nat)
      requires Inv() && bytes < LIMIT
      modifies m`footprintLimit
      ensures Inv() && m.footprintLimit == FootprintLimit(bytes, m.mp.granularity)
    {
      hide MState.HeapValid, BooksOk, HoldsAll, FootprintLimit;
      LimitFits(bytes, m.mp.granularity);
      m.footprintLimit := FootprintLimit(bytes, m.mp.granularity);
    }

    /** What was written last is what is read. */
    method Read(p: int, i: nat) returns (v: int)
      requires Inv() && p in blocks && i in blocks[p].data
      ensures v == blocks[p].data[i]
    {
      BlockOf(m, blocks, p);
      v := Rd(m.word, Mem(p) + 8 * i);
    }
  }

  lemma BlockOf(m: MState, blocks: map<int, Block>, p: int)
    requires HoldsAll(m.word, m.L, m.segs, m.mm, blocks) && p in blocks
    ensures Holds(m.word, m.L, m.segs, m.mm, p, blocks[p]) && Room(m.L, m.segs, m.mm, p, blocks[p].size)
  {
    assert Holds(m.word, m.L, m.segs, m.mm, p, blocks[p]);
  }

  lemma BlockFits(m: MState, blocks: map<int, Block>, p: int)
    requires m.Valid() && HoldsAll(m.word, m.L, m.segs, m.mm, blocks) && p in blocks
    ensures Holds(m.word, m.L, m.segs, m.mm, p, blocks[p]) && (p in m.mm || p in m.L)
    ensures blocks[p].size <= Usable(m.L, m.mm, p)
  {
    hide MState.HeapValid, MState.BooksValid;
    assert Holds(m.word, m.L, m.segs, m.mm, p, blocks[p]);
  }

  lemma BlockCarried(w: Memory, w': Memory, L: Layout, segs: seq<Segment>, mm: map<int, Region>, L': Layout,
                     segs': seq<Segment>, mm': map<int, Region>,
                     p: int, q: int, b: Block, bytes: nat)
    requires Holds(w, L, segs, mm, p, b) && (p in mm || p in L) && b.size <= Usable(L, mm, p)
    requires Room(L', segs', mm', q, bytes)
    requires Carried(w, w', p, q, Least(Usable(L, mm, p), bytes))
    ensures Holds(w', L', segs', mm', q, Block(bytes, Prefix(b.data, bytes)))
  {
    hide Room, Usable;
    forall i | i in Prefix(b.data, bytes) ensures Rd(w', Mem(q) + 8 * i) == Prefix(b.data, bytes)[i] {
      assert i in b.data && 8 * i < Least(Usable(L, mm, p), bytes);
    }
  }

  lemma WriteHarmless(m: MState, p: int, n: nat, a: int, v: int)
    requires m.Valid() && Room(m.L, m.segs, m.mm, p, n) && Mem(p) <= a < Mem(p) + n
    ensures var w' := m.word[a := v];
      && Tagged(w', m.L, m.top) && Threaded(w', m.g) && BooksOk(w', m.os.mapped, m.segs, m.mm, m.mp.page, m.least)
      && Fenced(w', m.segs)
      && KeptBut(m.word, w', m.L, m.segs, m.mm, m.L, m.segs, m.mm, p)
  {
    hide Structured, Threaded, Mapped, LayoutOk, Tagged, Indexed, BooksOk, Room, KeptBut, ClientWrote;
    var w' := m.word[a := v];
    CopyOwned(m.word, w', m.os.mapped, m.L, m.segs, m.Spares(), m.mm, m.mp.page, m.least, p, n);
    ClientsHarmless(m.word, w', m.os.mapped, m.L, m.segs, m.Spares(), m.g, m.mm, m.mp.page, m.least);
  }

  lemma BlockWritten(w: Memory, w': Memory, L: Layout, segs: seq<Segment>, mm: map<int, Region>, p: int, b: Block,
                     i: nat, v: int)
    requires Holds(w, L, segs, mm, p, b) && 8 * i + 8 <= b.size && w' == w[Mem(p) + 8 * i := v]
    ensures Holds(w', L, segs, mm, p, b.(data := b.data[i := v]))
  {}

  lemma GainedFresh(m: MState, L: Layout, segs: seq<Segment>, mm: map<int, Region>, p: int, bytes: nat)
    requires m.Valid() && Gained(Live(L, segs), Live(m.L, m.segs), mm, m.mm, p, Padded(bytes))
    ensures p !in mm && p !in Live(L, segs)
  {
    hide MState.HeapValid, BooksOk, Live;
    if p in Live(m.L, m.segs) { LiveNotDirect(m, p); }
  }

  datatype Op =
    | OpMalloc(bytes: nat)
    | OpFree(p: int)
    | OpRealloc(p: int, bytes: nat)
    | OpMemalign(alignment: nat, bytes: nat)
    | OpTrim(pad: nat)
    | OpLimit(bytes: nat)
    | OpWrite(p: int, i: nat, v: int)

  /** A call the interface allows. */
  predicate Legal(op: Op, blocks: map<int, Block>) {
    match op
    case OpMalloc(bytes) => bytes < LIMIT
    case OpFree(p) => p in blocks
    case OpRealloc(p, bytes) => p in blocks && bytes < LIMIT
    case OpMemalign(alignment, bytes) => alignment <= HALF && bytes < LIMIT
    case OpTrim(pad) => pad < LIMIT
    case OpLimit(bytes) => bytes < LIMIT
    case OpWrite(p, i, v) => p in blocks && 8 * i + 8 <= blocks[p].size
  }

  /** After any run of allowed calls and writes the heap is in order, every block has its room, and all that was
      written is still there. A footprint within a limit that is not changed has stayed within it. */
  method Run(s: Session, ops: seq<Op>)
    requires s.Inv()
    modifies s, s.m, s.m.os
    ensures s.Inv()
    ensures (forall op <- ops :: !op.OpLimit?) && 0 != old(s.m.footprintLimit) >= old(s.m.footprint) ==>
      s.m.footprint <= s.m.footprintLimit == old(s.m.footprintLimit)
  {
    hide Session.Inv;
    ghost var fixed := forall op <- ops :: !op.OpLimit?;
    ghost var within := 0 != s.m.footprintLimit >= s.m.footprint;
    ghost var limit := s.m.footprintLimit;
    for k := 0 to |ops|
      invariant s.Inv()
      invariant fixed && within ==> s.m.footprint <= s.m.footprintLimit == limit
    {
      if Legal(ops[k], s.blocks) {
        match ops[k]
        case OpMalloc(bytes) => var mem := s.Malloc(bytes);
        case OpFree(p) => s.Free(p);
        case OpRealloc(p, bytes) => var mem := s.Realloc(p, bytes);
        case OpMemalign(alignment, bytes) => var mem, a := s.Memalign(alignment, bytes);
        case OpTrim(pad) => var trimmed := s.Trim(pad);
        case OpLimit(bytes) => s.SetFootprintLimit(bytes);
        case OpWrite(p, i, v) => s.Write(p, i, v);
      }
    }
  }
}
