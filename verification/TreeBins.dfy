/** insert_large_chunk and unlink_large_chunk. */
module TreeBins {
  import opened Words
  import opened Bits
  import opened Binmaps
  import opened Rings
  import opened Bins
  import opened State

  /** What points at trie node x, the tree bin or the parent, points at r from now on. */
  method Reslot(m: MState, x: int, xp: int, r: int, ghost node: map<Home, int>, ghost h: Home)
    requires Linked(m.word, node) && Injective(node, m.g.size) && Spaced(m.g.size)
    requires h in node && node[h] == x && xp == Parent(m.word, x)
    requires h.b < 32 && TreeBin(m.word, x) == h.b
    requires |m.treebins| == 32 && m.treebins[h.b] == NodeAt(node, Tree(h.b, Root))
    modifies m`word, m`treemap, m`treebins
    ensures h.path.Root? ==>
      && m.word == old(m.word) && m.treebins == old(m.treebins)[h.b := r]
      && m.treemap == if r == 0 then old(m.treemap)[h.b := false] else old(m.treemap)
    ensures h.path.Step? ==>
      && Up(h) in node && m.word == old(m.word)[ChildAt(node[Up(h)], h.path.right) := r]
      && m.treebins == old(m.treebins) && m.treemap == old(m.treemap)
  {
    var i := TreeBin(m.word, x);
    assert NodeLinked(m.word, node, h);
    if x == m.treebins[i] {
      m.treebins := m.treebins[i := r];
      if r == 0 { m.treemap := Clear(m.treemap, i); }
    } else {
      assert NodeLinked(m.word, node, Up(h));
      if Child(m.word, xp, false) == x {
        m.word := m.word[ChildAt(xp, false) := r];
      } else {
        m.word := m.word[ChildAt(xp, true) := r];
      }
    }
  }

  /** Node r takes over the child of x on one side. */
  method Adopt(m: MState, x: int, r: int, right: bool)
    requires Spaced(m.g.size) && Roomy(m.g.size, r)
    requires Child(m.word, r, right) == 0
    requires var c := Child(m.word, x, right); c == 0 || Roomy(m.g.size, c)
    modifies m`word
    ensures Adopted(old(m.word), m.word, m.g.size, old(Child(m.word, x, right)), r, right)
  {
    var c := Child(m.word, x, right);
    if c != 0 {
      ghost var w := m.word;
      m.word := m.word[ChildAt(r, right) := c];
      StoreChild(w, m.word, m.g.size, r, right, c);
      ghost var w1 := m.word;
      m.word := m.word[ParentAt(c) := r];
      StoreParent(w1, m.word, m.g.size, c, r);
      OnlyBodiesTrans(w, w1, m.word, m.g.size);
    }
  }

  /** The rightmost descendant of x, which is a leaf, and the word that points at it. */
  method RightmostLeaf(m: MState, x: int, ghost node: map<Home, int>, ghost h: Home)
    returns (r: int, rp: int, ghost k: Home)
    requires Linked(m.word, node) && Injective(node, m.g.size) && Spaced(m.g.size)
    requires h in node && node[h] == x
    ensures r == 0 ==> Kid(h, false) !in node && Kid(h, true) !in node
    ensures r != 0 ==>
      && k in node && node[k] == r && k.b == h.b && k != h && Below(k.path, h.path)
      && k.path.Step? && Up(k) in node && rp == ChildAt(node[Up(k)], k.path.right)
      && Kid(k, false) !in node && Kid(k, true) !in node
  {
    k := h;
    assert NodeLinked(m.word, node, h);
    rp := ChildAt(x, true);
    r := Rd(m.word, rp);
    if r == 0 {
      rp := ChildAt(x, false);
      r := Rd(m.word, rp);
    }
    if r != 0 {
      k := Kid(h, Child(m.word, x, true) != 0);
      assert Depth(k.path) == Depth(h.path) + 1;
      while Child(m.word, r, true) != 0 || Child(m.word, r, false) != 0
        invariant k in node && node[k] == r && k.b == h.b && Below(k.path, h.path)
        invariant Depth(k.path) > Depth(h.path)
        invariant k.path.Step? && Up(k) in node && rp == ChildAt(node[Up(k)], k.path.right)
        invariant r > 0
        decreases |node| - Depth(k.path)
      {
        assert NodeLinked(m.word, node, k);
        var right := Child(m.word, r, true) != 0;
        k := Kid(k, right);
        rp := ChildAt(r, right);
        r := Rd(m.word, rp);
        DepthBound(m.word, node, k);
      }
      assert NodeLinked(m.word, node, k);
    }
  }

  /** Second half of unlink_large_chunk: r, a chunk without children, becomes the node at h. */
  method TakePlace(m: MState, x: int, xp: int, r: int, ghost node: map<Home, int>, ghost h: Home)
    requires Linked(m.word, node) && Injective(node, m.g.size) && Spaced(m.g.size)
    requires h in node && node[h] == x && xp == Parent(m.word, x)
    requires h.b < 32 && TreeBin(m.word, x) == h.b
    requires |m.treebins| == 32 && m.treebins[h.b] == NodeAt(node, Tree(h.b, Root))
    requires Roomy(m.g.size, r) && r !in node.Values
    requires Child(m.word, r, false) == 0 && Child(m.word, r, true) == 0
    modifies m`word, m`treemap, m`treebins
    ensures h.path.Step? ==> Up(h) in node
    ensures PlaceTaken(old(m.word), m.word, m.g.size, node, h, r)
    ensures SameRingWords(old(m.word), m.word, m.g.size)
    ensures m.treemap == old(m.treemap)
    ensures m.treebins == if h.path.Root? then old(m.treebins)[h.b := r] else old(m.treebins)
    ensures OnlyBodies(old(m.word), m.word, m.g.size)
  {
    ghost var w := m.word;
    assert NodeLinked(w, node, h);
    assert x in node.Values && (h.path.Step? ==> node[Up(h)] in node.Values);
    assert h.path.Step? ==> Depth(h.path) == Depth(Up(h).path) + 1;
    Reslot(m, x, xp, r, node, h);
    ghost var w1 := m.word;
    if h.path.Step? { StoreChild(w, w1, m.g.size, xp, h.path.right, r); }
    m.word := m.word[ParentAt(r) := xp];
    ghost var w2 := m.word;
    StoreParent(w1, w2, m.g.size, r, xp);
    Adopt(m, x, r, false);
    ghost var w3 := m.word;
    Adopt(m, x, r, true);
    Transplanted(w, w1, w2, w3, m.word, m.g.size, node, h, r);
  }

  /** What the invariant of the bins says, for proofs that need no more of it. */
  lemma BinFacts(w: Memory, g: Index, sm: Binmap, tm: Binmap, tb: seq<int>)
    requires Structured(g) && Threaded(w, g) && Mapped(sm, tm, tb, g)
    ensures Spaced(g.size) && Housed(g) && g.home.Keys == g.size.Keys && Linked(w, Nodes(g.rings)) && |tb| == 32
    ensures forall i :: 0 <= i < 32 ==>
      tb[i] == NodeAt(Nodes(g.rings), Tree(i, Root)) && (tm[i] <==> Tree(i, Root) in g.rings)
  {}

  /** unlink_large_chunk */
  method UnlinkLargeChunk(m: MState, x: int)
    requires m.BinsValid() && x in m.g.home && m.g.home[x].Tree?
    modifies m`word, m`treemap, m`treebins, m`g
    ensures m.BinsValid()
    ensures m.g.size == old(m.g.size) - {x}
    ensures OnlyBodies(old(m.word), m.word, old(m.g.size))
  {
    if Bk(m.word, x) != x { UnlinkChained(m, x); } else { UnlinkAlone(m, x); }
  }

  /** Same-size chunks are chained behind or before x: splice it out; r replaces it in the tree. */
  method UnlinkChained(m: MState, x: int)
    requires m.BinsValid() && x in m.g.home && m.g.home[x].Tree? && Bk(m.word, x) != x
    modifies m`word, m`treemap, m`treebins, m`g
    ensures m.BinsValid()
    ensures m.g.size == old(m.g.size) - {x}
    ensures OnlyBodies(old(m.word), m.word, old(m.g.size))
  {
    ghost var k := RingPosition(m.word, m.g, x);
    ghost var g, w := m.g, m.word;
    var xp := Parent(m.word, x);
    var f, r := Fd(m.word, x), Bk(m.word, x);
    m.word := m.word[BkAt(f) := r][FdAt(r) := f];
    Unchained(w, m.word, m.g, x, k);
    if xp != 0 {
      ReplaceBySuccessor(m, x, xp, r, w);
    } else {
      TailDropped(w, m.word, g, x, k);
      m.g := Dropped(g, x, Without(g.rings[g.home[x]], k));
    }
  }

  method ReplaceBySuccessor(m: MState, x: int, xp: int, r: int, ghost w: Memory)
    requires Structured(m.g) && Threaded(w, m.g) && Mapped(m.smallmap, m.treemap, m.treebins, m.g)
    requires HeadsChain(m.g, x) && m.g.home[x].b < 32
    requires r == m.g.rings[m.g.home[x]][|m.g.rings[m.g.home[x]]| - 1]
    requires xp == Parent(w, x) && TreeBin(w, x) == m.g.home[x].b
    requires Ring(m.word, Without(m.g.rings[m.g.home[x]], 0))
    requires forall h :: h in m.g.rings && h != m.g.home[x] ==> Ring(m.word, m.g.rings[h])
    requires SameTreeWords(w, m.word, m.g.size) && OnlyBodies(w, m.word, m.g.size)
    modifies m`word, m`treemap, m`treebins, m`g
    ensures m.BinsValid()
    ensures m.g.size == old(m.g.size) - {x}
    ensures OnlyBodies(w, m.word, old(m.g.size))
  {
    hide Structured, Threaded, Mapped, Spaced, Linked, Injective, PlaceTaken, OnlyBodies, SameTreeWords, Ring,
      SameRingWords, HeadDropped;
    ghost var g, w1, h, node, tb := m.g, m.word, m.g.home[x], Nodes(m.g.rings), m.treebins;
    BinFacts(w, g, m.smallmap, m.treemap, tb);
    SuccessorReady(w, w1, g, node, x, r);
    TakePlace(m, x, xp, r, node, h);
    SuccessorMoved(w, w1, m.word, g, m.smallmap, m.treemap, tb, m.treebins, x, r);
    m.g := HeadDropped(g, x);
  }

  lemma SuccessorMoved(w: Memory, w1: Memory, w2: Memory, g: Index, sm: Binmap, tm: Binmap, tb: seq<int>, tb': seq<int>,
                       x: int, r: int)
    requires Structured(g) && Threaded(w, g) && Mapped(sm, tm, tb, g) && HeadsChain(g, x) && g.home[x].b < 32
    requires r == g.rings[g.home[x]][|g.rings[g.home[x]]| - 1]
    requires Ring(w1, Without(g.rings[g.home[x]], 0))
    requires forall h :: h in g.rings && h != g.home[x] ==> Ring(w1, g.rings[h])
    requires SameTreeWords(w, w1, g.size) && OnlyBodies(w, w1, g.size)
    requires SameRingWords(w1, w2, g.size) && OnlyBodies(w1, w2, g.size)
    requires var h, node := g.home[x], Nodes(g.rings);
      && h in node && (h.path.Step? ==> Up(h) in node) && PlaceTaken(w1, w2, g.size, node, h, r)
      && tb' == if h.path.Root? then tb[h.b := r] else tb
    ensures var g' := HeadDropped(g, x);
      && Structured(g') && Threaded(w2, g') && Mapped(sm, tm, tb', g') && g'.size == g.size - {x}
      && OnlyBodies(w, w2, g.size)
  {
    OnlyBodiesTrans(w, w1, w2, g.size);
    hide Structured, Threaded, Mapped, PlaceTaken, OnlyBodies, SameTreeWords, SameRingWords, Ring;
    HeadDroppedThreaded(w, w1, w2, g, x, r);
    MappedAfterTaking(sm, tm, tb, tb', g, HeadDropped(g, x), g.home[x], r);
  }

  /** x is the only chunk of its size: a leaf below it replaces it, if there is one. */
  method UnlinkAlone(m: MState, x: int)
    requires m.BinsValid() && x in m.g.home && m.g.home[x].Tree? && Bk(m.word, x) == x
    modifies m`word, m`treemap, m`treebins, m`g
    ensures m.BinsValid()
    ensures m.g.size == old(m.g.size) - {x}
    ensures OnlyBodies(old(m.word), m.word, old(m.g.size))
  {
    hide Structured, Threaded, Mapped, Spaced, Housed, OnlyBodies, Vacated, Injective, Linked;
    ghost var _ := RingPosition(m.word, m.g, x);
    BinFacts(m.word, m.g, m.smallmap, m.treemap, m.treebins);
    ghost var g, w, h, node := m.g, m.word, m.g.home[x], Nodes(m.g.rings);
    NodesInjective(g);
    var xp := Parent(m.word, x);
    var r, rp, k := RightmostLeaf(m, x, node, h);
    if r == 0 {
      Reslot(m, x, xp, 0, node, h);
      LeafGone(w, m.word, g, m.smallmap, old(m.treemap), m.treemap, old(m.treebins), m.treebins, x);
      m.g := Vacated(g, x);
    } else {
      ReplaceByLeaf(m, x, xp, r, rp, node, h, k);
    }
  }

  method ReplaceByLeaf(m: MState, x: int, xp: int, r: int, rp: int,
                       ghost node: map<Home, int>, ghost h: Home, ghost k: Home)
    requires m.BinsValid() && node == Nodes(m.g.rings)
    requires x in m.g.home && m.g.home[x] == h && h.Tree? && h in node && m.g.rings[h] == [x]
    requires xp == Parent(m.word, x) && TreeBin(m.word, x) == h.b && h.b < 32
    requires k in node && node[k] == r && k.Tree? && k.b == h.b && k != h && Below(k.path, h.path)
    requires k.path.Step? && Up(k) in node && rp == ChildAt(node[Up(k)], k.path.right)
    requires Kid(k, false) !in node && Kid(k, true) !in node
    modifies m`word, m`treemap, m`treebins, m`g
    ensures m.BinsValid()
    ensures m.g.size == old(m.g.size) - {x}
    ensures OnlyBodies(old(m.word), m.word, old(m.g.size))
  {
    hide Structured, Threaded, Mapped, Moved, LeafUnder, PlaceTaken, Linked, Spaced, Injective, ChildSet, OnlyBodies,
      SameRingWords, Pruned;
    ghost var g, w, tb := m.g, m.word, m.treebins;
    m.word := m.word[rp := 0];
    ghost var w1 := m.word;
    LeafReady(w, w1, g, m.smallmap, m.treemap, tb, node, x, h, k);
    TakePlace(m, x, xp, r, Pruned(node, k), h);
    LeafMoved(w, w1, m.word, g, m.smallmap, m.treemap, tb, m.treebins, node, x, h, k);
    m.g := Moved(g, x, k);
  }

  lemma LeafMoved(w: Memory, w1: Memory, w2: Memory, g: Index, sm: Binmap, tm: Binmap, tb: seq<int>, tb': seq<int>,
                  node: map<Home, int>, x: int, h: Home, k: Home)
    requires Structured(g) && Threaded(w, g) && node == Nodes(g.rings) && LeafUnder(g, node, x, h, k)
    requires ChildSet(w, w1, g.size, node[Up(k)], k.path.right, 0) && OnlyBodies(w1, w2, g.size)
    requires PlaceTaken(w1, w2, g.size, Pruned(node, k), h, node[k]) && SameRingWords(w1, w2, g.size)
    requires Mapped(sm, tm, tb, g) && h.b < 32 && tb' == if h.path.Root? then tb[h.b := node[k]] else tb
    ensures var g' := Moved(g, x, k);
      && Structured(g') && Threaded(w2, g') && Mapped(sm, tm, tb', g') && g'.size == g.size - {x}
      && OnlyBodies(w, w2, g.size)
  {
    assert OnlyBodies(w, w1, g.size);
    OnlyBodiesTrans(w, w1, w2, g.size);
    hide Threaded, Mapped, PlaceTaken, OnlyBodies, ChildSet;
    MovedThreaded(w, w1, w2, g, node, x, h, k);
    MappedAfterMoving(sm, tm, tb, tb', g, node, x, h, k);
  }

  /** Where x stands on its ring, and what its words say about that. */
  lemma RingPosition(w: Memory, g: Index, x: int) returns (k: nat)
    requires Structured(g) && Threaded(w, g) && x in g.home && g.home[x].Tree?
    ensures g.home[x] in g.rings && g.home[x] in Nodes(g.rings)
    ensures var s := g.rings[g.home[x]];
      && k < |s| && s[k] == x && s[0] == Nodes(g.rings)[g.home[x]]
      && (Bk(w, x) == x <==> s == [x])
      && (Parent(w, x) == 0 <==> k > 0)
      && Fd(w, x) in g.size && Bk(w, x) in g.size
      && (k == 0 ==> Bk(w, x) == s[|s| - 1])
    ensures g.home[x].b < 32 && TreeBin(w, x) == g.home[x].b
    ensures Bk(w, Fd(w, x)) == x && Fd(w, Bk(w, x)) == x
  {
    var h := g.home[x];
    var s := g.rings[h];
    assert RingHoused(g, h) && Ring(w, s);
    k :| 0 <= k < |s| && s[k] == x;
    RingAgrees(w, s, k);
    assert s[Next(s, k)] in g.home && s[Prev(s, k)] in g.home;
    if k == 0 {
      NodesInjective(g);
      assert NodeLinked(w, Nodes(g.rings), h);
    } else {
      assert s[0] != s[k];
    }
  }

  /** A chain member can take the place of the node x in front of it. */
  lemma SuccessorReady(w: Memory, w1: Memory, g: Index, node: map<Home, int>, x: int, r: int)
    requires Structured(g) && Threaded(w, g) && HeadsChain(g, x) && node == Nodes(g.rings)
    requires r == g.rings[g.home[x]][|g.rings[g.home[x]]| - 1]
    requires SameTreeWords(w, w1, g.size)
    ensures Linked(w1, node) && Injective(node, g.size)
    ensures Roomy(g.size, r) && r !in node.Values
    ensures Child(w1, r, false) == 0 && Child(w1, r, true) == 0
    ensures Parent(w1, x) == Parent(w, x) && TreeBin(w1, x) == TreeBin(w, x)
  {
    assert Ring(w, g.rings[g.home[x]]);
    HeadDroppedIndex(g, x, r);
    NodesInjective(g);
    LinkedFrame(w, w1, node, g.size);
    TreeChunksRoomy(g);
    assert SameTree(w, w1, x) && SameTree(w, w1, r);
    assert node[g.home[x]] in node.Values;
  }

  lemma PrunedFacts(node: map<Home, int>, size: map<int, nat>, k: Home)
    requires Injective(node, size) && k in node
    ensures Injective(Pruned(node, k), size) && node[k] !in Pruned(node, k).Values && Roomy(size, node[k])
    ensures forall h :: h in node && h != k ==> h in Pruned(node, k) && Pruned(node, k)[h] == node[h]
    ensures forall h :: h in node ==> Roomy(size, node[h])
    ensures k.Tree? && (k.path.Step? ==> NodeAt(Pruned(node, k), Tree(k.b, Root)) == NodeAt(node, Tree(k.b, Root)))
  {}

  lemma LeafGone(w: Memory, w': Memory, g: Index, sm: Binmap, tm: Binmap, tm': Binmap, tb: seq<int>, tb': seq<int>,
                 x: int)
    requires Structured(g) && Threaded(w, g) && Mapped(sm, tm, tb, g) && x in g.home && g.home[x].Tree?
    requires g.rings[g.home[x]] == [x] && g.home[x].b < 32
    requires var h, node := g.home[x], Nodes(g.rings);
      && h in node && Kid(h, false) !in node && Kid(h, true) !in node
      && if h.path.Root? then w' == w && tb' == tb[h.b := 0] && tm' == tm[h.b := false]
         else Up(h) in node && w' == w[ChildAt(node[Up(h)], h.path.right) := 0] && tb' == tb && tm' == tm
    ensures var g' := Vacated(g, x);
      && Structured(g') && Threaded(w', g') && Mapped(sm, tm', tb', g') && g'.size == g.size - {x}
      && OnlyBodies(w, w', g.size)
  {
    BinFacts(w, g, sm, tm, tb);
    NodesInjective(g);
    hide Structured, Threaded, Mapped, Spaced, Housed, Linked;
    var h, node := g.home[x], Nodes(g.rings);
    if h.path.Step? { StoreChild(w, w', g.size, node[Up(h)], h.path.right, 0); }
    hide OnlyBodies, ChildSet, Injective;
    VacatedThreaded(w, w', g, x);
    MappedAfterVacating(sm, tm, tm', tb, tb', g, x);
  }

  /** The leaf at k, cut off, can take the place of the node x above it. */
  lemma LeafReady(w: Memory, w1: Memory, g: Index, sm: Binmap, tm: Binmap, tb: seq<int>, node: map<Home, int>, x: int,
                  h: Home, k: Home)
    requires Structured(g) && Threaded(w, g) && Mapped(sm, tm, tb, g) && node == Nodes(g.rings)
    requires x in g.home && g.home[x] == h && h.Tree? && h in node && h.b < 32 && h in g.rings && g.rings[h] == [x]
    requires k in node && k.b == h.b && k != h && Below(k.path, h.path) && k.path.Step? && Up(k) in node
    requires Kid(k, false) !in node && Kid(k, true) !in node
    requires w1 == w[ChildAt(node[Up(k)], k.path.right) := 0]
    ensures ChildSet(w, w1, g.size, node[Up(k)], k.path.right, 0)
    ensures LeafUnder(g, node, x, h, k) && Spaced(g.size)
    ensures Linked(w1, Pruned(node, k)) && Injective(Pruned(node, k), g.size)
    ensures Roomy(g.size, node[k]) && node[k] !in Pruned(node, k).Values
    ensures Child(w1, node[k], false) == 0 && Child(w1, node[k], true) == 0
    ensures Parent(w1, x) == Parent(w, x) && TreeBin(w1, x) == TreeBin(w, x)
    ensures |tb| == 32 && h in Pruned(node, k) && Pruned(node, k)[h] == x
    ensures tb[h.b] == NodeAt(Pruned(node, k), Tree(h.b, Root))
  {
    BinFacts(w, g, sm, tm, tb);
    hide Structured, Threaded, Mapped, Housed, Spaced;
    NodesInjective(g);
    PrunedFacts(node, g.size, k);
    StoreChild(w, w1, g.size, node[Up(k)], k.path.right, 0);
    LeafUnhooked(w, w1, g.size, node, k);
    assert NodeLinked(w, node, h) && NodeLinked(w, node, k);
    hide Linked, Injective, Pruned, OnlyBodies, SameRingWords;
    BelowDeeper(k.path, h.path);
    assert Depth(k.path) == Depth(Up(k).path) + 1;
  }

  lemma {:induction false} BelowDeeper(p: Path, q: Path)
    requires Below(p, q)
    ensures p == q || Depth(p) > Depth(q)
  {
    if p != q { BelowDeeper(p.up, q); }
  }

  /** The walk of insert_large_chunk: either the node t of the same size, or the node t
      whose child on the given side is free and is where the size belongs. */
  method FindSlot(m: MState, size: nat, i: nat, ghost node: map<Home, int>)
    returns (t: int, exact: bool, right: bool, ghost h: Home)
    requires Linked(m.word, node) && Injective(node, m.g.size) && Spaced(m.g.size) && Sized(m.word, m.g.size)
    requires size < LIMIT && i < 32 && |m.treebins| == 32
    requires Tree(i, Root) in node && m.treebins[i] == node[Tree(i, Root)]
    ensures h.Tree? && h.b == i && h in node && node[h] == t && t in m.g.size
    ensures Follows(SizeBits(size, i), h.path)
    ensures exact ==> m.g.size[t] == size
    ensures !exact ==>
      && Kid(h, right) !in node && Follows(SizeBits(size, i), Step(h.path, right))
      && Passed(m.g.size, node, size, i, h.path)
  {
    ghost var bits := SizeBits(size, i);
    t := m.treebins[i];
    h := Tree(i, Root);
    exact, right := false, false;
    var k := Bits.Shl(size, LeftShift(i));
    while true
      invariant h.Tree? && h.b == i && h in node && node[h] == t
      invariant Follows(bits, h.path) && k == Bits.Shl(bits, Depth(h.path)) && k < LIMIT
      invariant h.path.Step? ==> Passed(m.g.size, node, size, i, h.path.up)
      decreases |node| - Depth(h.path)
    {
      assert NodeLinked(m.word, node, h) && Roomy(m.g.size, t);
      DepthBound(m.word, node, h);
      if ChunkSize(m.word, t) != size {
        right := k >= HALF;
        StepFollows(bits, h.path);
        k := Shl1(k);
        var c := Child(m.word, t, right);
        if c == 0 { return; }
        t := c;
        h := Kid(h, right);
      } else {
        exact := true;
        return;
      }
    }
  }

  /** insert_large_chunk */
  method InsertLargeChunk(m: MState, x: int, size: nat)
    requires m.BinsValid() && Sized(m.word, m.g.size)
    requires x !in m.g.size && Spaced(m.g.size[x := size]) && 256 <= size < LIMIT
    modifies m`word, m`treemap, m`treebins, m`g
    ensures m.BinsValid()
    ensures m.g.size == old(m.g.size)[x := size]
    ensures OnlyBodies(old(m.word), m.word, m.g.size)
  {
    hide Structured, Threaded, Mapped, Spaced, Sized, OnlyBodies, Prepared;
    ghost var g, w := m.g, m.word;
    var i := TreeIndex(size);
    m.word := m.word[IndexAt(x) := i][ChildAt(x, true) := 0][ChildAt(x, false) := 0];
    ghost var w1 := m.word;
    PreparedIs(w, w1, g, x, size);
    if !m.treemap[i] {
      InsertRoot(m, x, size, i);
    } else {
      InsertInTree(m, x, size, i);
    }
    OnlyBodiesTrans(w, w1, m.word, g.size[x := size]);
  }

  lemma PreparedIs(w: Memory, w1: Memory, g: Index, x: int, size: nat)
    requires Structured(g) && Threaded(w, g) && Sized(w, g.size)
    requires x !in g.size && Spaced(g.size[x := size]) && 256 <= size < LIMIT
    requires w1 == w[IndexAt(x) := TreeIndex(size)][ChildAt(x, true) := 0][ChildAt(x, false) := 0]
    ensures Threaded(w1, g) && Sized(w1, g.size) && Prepared(w1, g, x, size) && OnlyBodies(w, w1, g.size[x := size])
  {
    hide Structured, Threaded, Spaced, Sized, OnlyBodies, SameRingWords, SameTreeWords;
    OwnBodyFrame(w, w1, g.size, x, size);
    OwnBodyThreaded(w, w1, g, x, size);
  }

  /** The bin is in use: x goes where the walk leads. */
  method InsertInTree(m: MState, x: int, size: nat, i: nat)
    requires m.BinsValid() && Sized(m.word, m.g.size) && Prepared(m.word, m.g, x, size)
    requires i == TreeIndex(size) && m.treemap[i]
    modifies m`word, m`treemap, m`treebins, m`g
    ensures m.BinsValid()
    ensures m.g.size == old(m.g.size)[x := size]
    ensures OnlyBodies(old(m.word), m.word, m.g.size)
  {
    ghost var node := Nodes(m.g.rings);
    BinFacts(m.word, m.g, m.smallmap, m.treemap, m.treebins);
    assert Tree(i, Root) in node;
    hide Structured, Threaded, Mapped, Spaced, Housed, Linked, Sized, OnlyBodies, Passed, SizeAbsent, Injective;
    NodesInjective(m.g);
    var t, exact, right, h := FindSlot(m, size, i, node);
    if !exact {
      WalkMissed(m.word, m.g, node, size, h, right);
      InsertLeaf(m, x, size, t, right, node, h);
    } else {
      InsertBehind(m, x, size, t, h);
    }
  }

  /** x holds the words that every insertion starts with. */
  ghost predicate Prepared(w: Memory, g: Index, x: int, size: nat) {
    && x !in g.size && Spaced(g.size[x := size]) && 256 <= size < LIMIT
    && TreeBin(w, x) == TreeIndex(size) && Child(w, x, false) == 0 && Child(w, x, true) == 0
  }

  /** The bin was empty: x becomes its root. */
  method InsertRoot(m: MState, x: int, size: nat, i: nat)
    requires m.BinsValid() && Prepared(m.word, m.g, x, size) && i == TreeIndex(size) && !m.treemap[i]
    modifies m`word, m`treemap, m`treebins, m`g
    ensures m.BinsValid()
    ensures m.g.size == old(m.g.size)[x := size]
    ensures OnlyBodies(old(m.word), m.word, m.g.size)
  {
    hide Structured, Threaded, Mapped, Spaced, Prepared, Joined, OnlyBodies;
    ghost var g, w, tm, tb, h := m.g, m.word, m.treemap, m.treebins, Tree(i, Root);
    BinFacts(w, g, m.smallmap, tm, tb);
    m.treemap := Mark(m.treemap, i);
    m.treebins := m.treebins[i := x];
    m.word := m.word[ParentAt(x) := TreeBinAt(i)][BkAt(x) := x][FdAt(x) := x];
    RootInserted(w, m.word, g, m.smallmap, tm, tb, x, size, i);
    m.g := Joined(g, x, size, h, [x]);
  }

  lemma RootInserted(w: Memory, w': Memory, g: Index, sm: Binmap, tm: Binmap, tb: seq<int>, x: int, size: nat, i: nat)
    requires Structured(g) && Threaded(w, g) && Mapped(sm, tm, tb, g) && Prepared(w, g, x, size)
    requires i == TreeIndex(size) && !tm[i] && w' == w[ParentAt(x) := TreeBinAt(i)][BkAt(x) := x][FdAt(x) := x]
    ensures var g' := Joined(g, x, size, Tree(i, Root), [x]);
      && Structured(g') && Threaded(w', g') && Mapped(sm, tm[i := true], tb[i := x], g')
      && g'.size == g.size[x := size] && OnlyBodies(w, w', g'.size)
  {
    BinFacts(w, g, sm, tm, tb);
    hide Structured, Threaded, Mapped, Spaced, Housed, Linked, Hung, OnlyBodies, SizeAbsent;
    RootHung(w, w', g, Nodes(g.rings), x, size, i);
    BinEmpty(w, g, i, size);
    HungThreaded(w, w', g, Nodes(g.rings), x, size, Tree(i, Root));
    MappedAfterRoot(sm, tm, tb, g, x, size, i);
  }

  /** No chunk of this size is in the tree: x becomes a leaf under t. */
  method InsertLeaf(m: MState, x: int, size: nat, t: int, right: bool, ghost node: map<Home, int>, ghost h: Home)
    requires m.BinsValid() && Prepared(m.word, m.g, x, size) && SizeAbsent(m.g, size)
    requires node == Nodes(m.g.rings) && h.Tree? && h in node && node[h] == t && Kid(h, right) !in node
    requires Fits(Kid(h, right), size)
    modifies m`word, m`treemap, m`treebins, m`g
    ensures m.BinsValid()
    ensures m.g.size == old(m.g.size)[x := size]
    ensures OnlyBodies(old(m.word), m.word, m.g.size)
  {
    hide Structured, Threaded, Mapped, Spaced, Prepared, Joined, OnlyBodies, SizeAbsent, Fits;
    ghost var g, w := m.g, m.word;
    m.word := m.word[ChildAt(t, right) := x];
    ghost var w1 := m.word;
    m.word := m.word[ParentAt(x) := t][BkAt(x) := x][FdAt(x) := x];
    LeafInserted(w, w1, m.word, g, m.smallmap, m.treemap, m.treebins, node, x, size, h, right);
    m.g := Joined(g, x, size, Kid(h, right), [x]);
  }

  lemma LeafInserted(w: Memory, w1: Memory, w': Memory, g: Index, sm: Binmap, tm: Binmap, tb: seq<int>,
                     node: map<Home, int>, x: int, size: nat, h: Home, right: bool)
    requires Structured(g) && Threaded(w, g) && Mapped(sm, tm, tb, g) && Prepared(w, g, x, size) && SizeAbsent(g, size)
    requires node == Nodes(g.rings) && h.Tree? && h in node && Kid(h, right) !in node && Fits(Kid(h, right), size)
    requires w1 == w[ChildAt(node[h], right) := x] && w' == w1[ParentAt(x) := node[h]][BkAt(x) := x][FdAt(x) := x]
    ensures var g' := Joined(g, x, size, Kid(h, right), [x]);
      && Structured(g') && Threaded(w', g') && Mapped(sm, tm, tb, g')
      && g'.size == g.size[x := size] && OnlyBodies(w, w', g'.size)
  {
    NoRingThere(g, node, Kid(h, right));
    hide Structured, Threaded, Mapped, Spaced, Housed, Linked, Hung, OnlyBodies, SizeAbsent;
    NodesInjective(g);
    LeafHung(w, w1, w', g, node, x, size, h, right);
    HungThreaded(w, w', g, node, x, size, Kid(h, right));
    MappedAfterLeaf(sm, tm, tb, g, x, size, Kid(h, right));
  }

  lemma NoRingThere(g: Index, node: map<Home, int>, h: Home)
    requires Structured(g) && node == Nodes(g.rings) && h.Tree? && h !in node
    ensures h !in g.rings
  {}

  /** t has the same size: x is chained behind it. */
  method InsertBehind(m: MState, x: int, size: nat, t: int, ghost h: Home)
    requires m.BinsValid() && Prepared(m.word, m.g, x, size)
    requires h in m.g.rings && h.Tree? && m.g.rings[h][0] == t && t in m.g.size && m.g.size[t] == size
    modifies m`word, m`treemap, m`treebins, m`g
    ensures m.BinsValid()
    ensures m.g.size == old(m.g.size)[x := size]
    ensures OnlyBodies(old(m.word), m.word, m.g.size)
  {
    assert |m.g.rings[h]| > 0;
    hide Structured, Threaded, Mapped, OnlyBodies, Prepared, Joined;
    ghost var g, w := m.g, m.word;
    var f := Fd(m.word, t);
    m.word := m.word[BkAt(f) := x][FdAt(t) := x][FdAt(x) := f][BkAt(x) := t][ParentAt(x) := 0];
    ChainInserted(w, m.word, g, m.smallmap, m.treemap, m.treebins, x, size, h);
    m.g := Joined(g, x, size, h, Inserted(g.rings[h], x));
  }

  lemma ChainInserted(w: Memory, w': Memory, g: Index, sm: Binmap, tm: Binmap, tb: seq<int>, x: int, size: nat, h: Home)
    requires Structured(g) && Threaded(w, g) && Mapped(sm, tm, tb, g) && Prepared(w, g, x, size)
    requires h in g.rings && h.Tree? && |g.rings[h]| > 0
    requires var t := g.rings[h][0];
      && t in g.size && g.size[t] == size
      && w' == w[BkAt(Fd(w, t)) := x][FdAt(t) := x][FdAt(x) := Fd(w, t)][BkAt(x) := t][ParentAt(x) := 0]
    ensures var g' := Joined(g, x, size, h, Inserted(g.rings[h], x));
      && Structured(g') && Threaded(w', g') && Mapped(sm, tm, tb, g')
      && g'.size == g.size[x := size] && OnlyBodies(w, w', g'.size)
  {
    var s := g.rings[h];
    assert RingHoused(g, h) && Ring(w, s);
    assert Fd(w, s[0]) == s[Next(s, 0)] && s[Next(s, 0)] in g.home;
    assert Fits(g.home[s[0]], g.size[s[0]]);
    hide Structured, Threaded, OnlyBodies, Spaced, SameTreeWords, Behind, Fits, Ring;
    BehindStores(w, w', g, x, size, s[0], Fd(w, s[0]));
    BehindThreaded(w, w', g, h, x, size);
  }
}
