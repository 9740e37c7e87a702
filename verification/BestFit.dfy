/** The searches of tmalloc_large and tmalloc_small. */
module BestFit {
  import opened Words
  import opened Bits
  import opened Binmaps
  import opened Bins
  import opened State

  /** A chunk of one of the tries. */
  ghost predicate InTree(g: Index, q: int) { q in g.home && g.home[q].Tree? }

  ghost predicate InBin(g: Index, q: int, b: nat) { InTree(g, q) && g.home[q].b == b }

  /** Every tree chunk is in the bin whose range holds its size. */
  ghost predicate WellBinned(g: Index) requires g.home.Keys == g.size.Keys
  { forall q :: InTree(g, q) ==> Bracketed(g.size[q], g.home[q].b) }

  lemma Below40WellBinned(g: Index)
    requires Structured(g) && forall q :: InTree(g, q) ==> g.size[q] < 0x100_0000_0000
    ensures WellBinned(g)
  {
    forall q | InTree(g, q) ensures Bracketed(g.size[q], g.home[q].b) {
      assert Fits(g.home[q], g.size[q]);
      TreeIndexBelow40(g.size[q]);
    }
  }

  /** Sizes on the two sides of a turn are ordered. */
  lemma TurnOrders(s: nat, t: nat, b: nat, p: Path)
    requires b < NTREEBINS && s < LIMIT && t < LIMIT && Bracketed(s, b) && Bracketed(t, b)
    requires Follows(SizeBits(s, b), Step(p, false)) && Follows(SizeBits(t, b), Step(p, true))
    ensures s < t
  {
    var v, w, d := SizeBits(s, b), SizeBits(t, b), Depth(p);
    forall j | 0 <= j < d ensures Msb(v, j) == Msb(w, j) { FollowsAgree(v, w, p, j); }
    FirstDifferenceOrders(v, w, d);
    if t < s { SizeBitsOrder(t, s, b); }
  }

  lemma {:induction false} FollowsAgree(v: nat, w: nat, p: Path, j: nat)
    requires v < LIMIT && w < LIMIT && Follows(v, p) && Follows(w, p) && j < Depth(p)
    ensures Msb(v, j) == Msb(w, j)
  {
    if j < Depth(p.up) { FollowsAgree(v, w, p.up, j); }
  }

  /** Higher bins hold larger sizes. */
  lemma {:induction false} BinsOrder(s: nat, t: nat, b: nat, c: nat)
    requires b < c < NTREEBINS && Bracketed(s, b) && Bracketed(t, c)
    ensures s < t
  {
    MinTreeSizeMono(b + 1, c);
  }

  lemma {:induction false} MinTreeSizeMono(b: nat, c: nat)
    requires b <= c
    ensures MinTreeSize(b) <= MinTreeSize(c)
    decreases c
  {
    if b < c {
      MinTreeSizeMono(b, c - 1);
      assert Pow2(c / 2 + 8) == 2 * Pow2(c / 2 + 7);
      if c % 2 == 0 { assert (c - 1) / 2 == c / 2 - 1; } else { assert (c - 1) / 2 == c / 2; }
    }
  }

  // ------------------------------------------------------------ the smallest in a subtree

  /** q is in the subtree rooted at h. */
  ghost predicate Under(g: Index, q: int, h: Home)
  { h.Tree? && InTree(g, q) && g.home[q].b == h.b && Below(g.home[q].path, h.path) }

  lemma {:induction false} BelowSplit(p: Path, q: Path)
    requires Below(p, q) && p != q
    ensures Below(p, Step(q, false)) || Below(p, Step(q, true))
  {
    if p.up != q { BelowSplit(p.up, q); } else { assert Below(p, p); }
  }

  lemma HomeOfNode(g: Index, node: map<Home, int>, h: Home)
    requires Structured(g) && node == Nodes(g.rings) && h in node
    ensures InTree(g, node[h]) && g.home[node[h]] == h
  {
    assert RingHoused(g, h);
    assert g.rings[h][0] in g.home;
  }

  lemma NodeOfHome(g: Index, node: map<Home, int>, q: int)
    requires Structured(g) && node == Nodes(g.rings) && InTree(g, q)
    ensures g.home[q] in node && node[g.home[q]] in g.size && g.size[node[g.home[q]]] == g.size[q]
  {
    assert g.home[q] in g.rings;
    HomeOfNode(g, node, g.home[q]);
    var n := node[g.home[q]];
    assert OneNode(g, n, q);
  }

  /** Chunks on the left of a place are smaller than those on its right. */
  lemma SidesOrder(g: Index, p: int, q: int, h: Home)
    requires Structured(g) && WellBinned(g) && h.Tree?
    requires Under(g, p, Kid(h, false)) && Under(g, q, Kid(h, true))
    ensures g.size[p] < g.size[q]
  {
    SidesOrderAt(g, p, q, h);
  }

  lemma SidesOrderAt(g: Index, p: int, q: int, h: Home)
    requires Structured(g) && h.Tree? && Under(g, p, Kid(h, false)) && Under(g, q, Kid(h, true))
    requires Bracketed(g.size[p], h.b) && Bracketed(g.size[q], h.b)
    ensures g.size[p] < g.size[q]
  {
    assert Fits(g.home[p], g.size[p]) && Fits(g.home[q], g.size[q]);
    FollowsUp(SizeBits(g.size[p], h.b), g.home[p].path, Step(h.path, false));
    FollowsUp(SizeBits(g.size[q], h.b), g.home[q].path, Step(h.path, true));
    TurnOrders(g.size[p], g.size[q], h.b, h.path);
  }

  /** Where chunk q, in the subtree at h, stands once the walk goes on to the leftmost child. */
  lemma LeftmostStep(w: Memory, g: Index, node: map<Home, int>, q: int, h: Home)
    requires Structured(g) && Linked(w, node) && WellBinned(g) && node == Nodes(g.rings) && h in node && Under(g, q, h)
    ensures h.Tree? && node[h] in g.size
    ensures || g.size[q] == g.size[node[h]]
            || (Kid(h, false) in node && Under(g, q, Kid(h, false)))
            || (Kid(h, true) in node && Under(g, q, Kid(h, true)) &&
                  (Kid(h, false) in node ==> node[Kid(h, false)] in g.size && g.size[node[Kid(h, false)]] < g.size[q]))
  {
    HomeOfNode(g, node, h);
    NodeOfHome(g, node, q);
    if g.home[q] != h {
      BelowSplit(g.home[q].path, h.path);
      if Below(g.home[q].path, Step(h.path, false)) {
        NodesAbove(w, node, g.home[q], Step(h.path, false));
      } else {
        NodesAbove(w, node, g.home[q], Step(h.path, true));
        if Kid(h, false) in node {
          HomeOfNode(g, node, Kid(h, false));
          SidesOrder(g, node[Kid(h, false)], q, h);
        }
      }
    }
  }

  /** The difference of two size_t values. */
  function Minus(a: nat, b: nat): nat requires a < LIMIT && b < LIMIT
  { if a >= b then a - b else LIMIT + a - b }

  /** What a search has so far: nothing, or a tree chunk that fits with rsize to spare. */
  ghost predicate Candidate(g: Index, nb: nat, v: int, rsize: nat) {
    if v == 0 then rsize == LIMIT - nb
    else InTree(g, v) && v in g.size && g.size[v] == nb + rsize
  }

  lemma KeysAgree(g: Index)
    requires Structured(g)
    ensures g.home.Keys == g.size.Keys
  {}

  lemma CandidateBound(g: Index, nb: nat, v: int, rsize: nat)
    requires Structured(g) && Candidate(g, nb, v, rsize)
    ensures nb + rsize <= LIMIT
  {
    if v != 0 { assert Fits(g.home[v], g.size[v]); }
  }

  ghost predicate AllFit(g: Index, h: Home, nb: nat) requires g.home.Keys == g.size.Keys
  { forall q :: Under(g, q, h) ==> nb <= g.size[q] }

  /** No chunk under h is smaller than bound. */
  ghost predicate NoneBelow(g: Index, h: Home, bound: nat) requires g.home.Keys == g.size.Keys
  { forall q :: Under(g, q, h) ==> bound <= g.size[q] }

  /** Chunks under h0 that can still beat the best are in the subtree at h. */
  ghost predicate Narrowed(g: Index, node: map<Home, int>, h0: Home, h: Home, best: nat)
    requires g.home.Keys == g.size.Keys
  {
    forall q :: Under(g, q, h0) ==>
      || best <= g.size[q] || Under(g, q, h)
      || (h in node && node[h] in g.size && g.size[node[h]] < g.size[q])
  }

  lemma NarrowStep(w: Memory, g: Index, node: map<Home, int>, h0: Home, h: Home, best: nat)
    requires Structured(g) && Linked(w, node) && WellBinned(g) && node == Nodes(g.rings) && h in node && h.Tree?
    requires Narrowed(g, node, h0, h, best)
    requires node[h] in g.size && best <= g.size[node[h]]
    ensures Kid(h, false) in node ==> Narrowed(g, node, h0, Kid(h, false), best)
    ensures Kid(h, false) !in node && Kid(h, true) in node ==> Narrowed(g, node, h0, Kid(h, true), best)
    ensures Kid(h, false) !in node && Kid(h, true) !in node ==> NoneBelow(g, h0, best)
  {
    forall q | Under(g, q, h0)
      ensures Kid(h, false) in node ==>
                || best <= g.size[q] || Under(g, q, Kid(h, false))
                || (node[Kid(h, false)] in g.size && g.size[node[Kid(h, false)]] < g.size[q])
      ensures Kid(h, false) !in node && Kid(h, true) in node ==> best <= g.size[q] || Under(g, q, Kid(h, true))
      ensures Kid(h, false) !in node && Kid(h, true) !in node ==> best <= g.size[q]
    {
      if Under(g, q, h) { LeftmostStep(w, g, node, q, h); }
    }
  }

  function LeftmostChild(w: Memory, t: int): int
  { if Child(w, t, false) != 0 then Child(w, t, false) else Child(w, t, true) }

  /** What the words of a trie node say. */
  lemma NodeWords(w: Memory, g: Index, node: map<Home, int>, h: Home)
    requires Structured(g) && Linked(w, node) && Sized(w, g.size) && node == Nodes(g.rings) && h in node
    ensures h.Tree? && Depth(h.path) < |node| && node[h] > 0
    ensures InTree(g, node[h]) && node[h] in g.size && g.home[node[h]] == h && Under(g, node[h], h)
    ensures ChunkSize(w, node[h]) == g.size[node[h]] && 256 <= g.size[node[h]] < LIMIT
    ensures forall b :: Child(w, node[h], b) == NodeAt(node, Kid(h, b))
    ensures forall b :: Kid(h, b) in node ==> node[Kid(h, b)] > 0
    ensures Kid(h, false) in node && Kid(h, true) in node ==> node[Kid(h, false)] != node[Kid(h, true)]
  {
    HomeOfNode(g, node, h);
    NodesInjective(g);
    assert NodeLinked(w, node, h);
    DepthBound(w, node, h);
    assert Fits(g.home[node[h]], g.size[node[h]]);
  }

  /** The loop that walks the leftmost children of t, keeping the best fit seen. */
  method WalkLeftmost(m: MState, t0: int, nb: nat, v0: int, rsize0: nat, ghost node: map<Home, int>, ghost h0: Home)
    returns (v: int, rsize: nat)
    requires Structured(m.g) && Linked(m.word, node) && Sized(m.word, m.g.size) && node == Nodes(m.g.rings)
    requires 0 < nb < LIMIT && Candidate(m.g, nb, v0, rsize0)
    requires t0 != 0 ==> h0 in node && node[h0] == t0
    ensures Candidate(m.g, nb, v, rsize) && rsize <= rsize0 && (v0 != 0 ==> v != 0)
    ensures t0 == 0 ==> v == v0 && rsize == rsize0
    ensures t0 != 0 && WellBinned(m.g) && AllFit(m.g, h0, nb) ==> NoneBelow(m.g, h0, nb + rsize)
  {
    hide Structured, Linked, Sized, WellBinned, NoneBelow;
    ghost var g, h := m.g, h0;
    KeysAgree(g);
    ghost var ok := WellBinned(g) && AllFit(g, h0, nb);
    var t := t0;
    v, rsize := v0, rsize0;
    if t != 0 { NodeWords(m.word, g, node, h); }
    while t != 0
      invariant Candidate(g, nb, v, rsize) && rsize <= rsize0 && (v0 != 0 ==> v != 0)
      invariant t0 == 0 ==> v == v0 && rsize == rsize0
      invariant t != 0 ==> h0.Tree? && h in node && h.Tree? && node[h] == t && Below(h.path, h0.path) && h.b == h0.b
      invariant t != 0 && ok ==> Narrowed(g, node, h0, h, nb + rsize)
      invariant t == 0 && t0 != 0 && ok ==> NoneBelow(g, h0, nb + rsize)
      decreases if t == 0 then 0 else |node| - Depth(h.path)
    {
      NodeWords(m.word, g, node, h);
      CandidateBound(g, nb, v, rsize);
      var trem := Minus(ChunkSize(m.word, t), nb);
      if trem < rsize {
        rsize := trem;
        v := t;
      }
      if ok {
        assert Under(g, t, h0);
        NarrowStep(m.word, g, node, h0, h, nb + rsize);
      }
      ghost var left := Kid(h, false) in node;
      t := LeftmostChild(m.word, t);
      if t != 0 {
        h := Kid(h, !left);
        NodeWords(m.word, g, node, h);
      }
    }
  }

  // ------------------------------------------------------- the walk towards a size

  /** q is no better than what the subtree at r offers. */
  ghost predicate Beaten(g: Index, node: map<Home, int>, r: Home, q: int) requires q in g.size
  { Under(g, q, r) || (r in node && node[r] in g.size && g.size[node[r]] < g.size[q]) }

  /** Chunk q of the bin is out of the race, unless it is in the subtree at h. */
  ghost predicate Sifted(g: Index, node: map<Home, int>, nb: nat, h: Home, r: Home, best: nat, q: int)
    requires q in g.size
  { g.size[q] < nb || best <= g.size[q] || Beaten(g, node, r, q) || Under(g, q, h) }

  ghost predicate AllSifted(g: Index, node: map<Home, int>, nb: nat, b: nat, h: Home, r: Home, best: nat)
    requires g.home.Keys == g.size.Keys
  { forall q :: InBin(g, q, b) ==> Sifted(g, node, nb, h, r, best, q) }

  lemma SiftedFor(g: Index, node: map<Home, int>, nb: nat, b: nat, h: Home, r: Home, best: nat, best': nat)
    requires g.home.Keys == g.size.Keys && AllSifted(g, node, nb, b, h, r, best) && best' <= best
    ensures AllSifted(g, node, nb, b, h, r, best')
  {}

  /** r is the right sibling of a turn to the left on the way to h. */
  ghost predicate Untaken(h: Home, r: Home) {
    && h.Tree? && r.Tree? && h.b == r.b && r.path.Step? && r.path.right
    && Below(h.path, Step(r.path.up, false))
  }

  /** From node h the walk turns as nb says; on a left turn a right child becomes the new r. */
  lemma SiftStep(w: Memory, g: Index, node: map<Home, int>, nb: nat, h: Home, r: Home, best: nat, q: int)
    requires Structured(g) && Linked(w, node) && Sized(w, g.size) && WellBinned(g) && node == Nodes(g.rings)
    requires h in node && h.Tree? && nb < LIMIT && Bracketed(nb, h.b) && h.b < NTREEBINS
    requires Follows(SizeBits(nb, h.b), h.path)
    requires InBin(g, q, h.b) && Sifted(g, node, nb, h, r, best, q)
    requires r in node ==> Untaken(h, r)
    requires node[h] in g.size && (g.size[node[h]] < nb || best <= g.size[node[h]])
    ensures var right := Msb(SizeBits(nb, h.b), Depth(h.path));
      var r' := if !right && Kid(h, true) in node then Kid(h, true) else r;
      Sifted(g, node, nb, Kid(h, right), r', best, q)
  {
    var right := Msb(SizeBits(nb, h.b), Depth(h.path));
    StepFollows(SizeBits(nb, h.b), h.path);
    assert Fits(g.home[q], g.size[q]);
    if !(g.size[q] < nb || best <= g.size[q]) {
      if Beaten(g, node, r, q) {
        if !right && Kid(h, true) in node { Outdone(w, g, node, h, r, q); }
      } else {
        LeftmostStep(w, g, node, q, h);
        if right && Under(g, q, Kid(h, false)) {
          FollowsUp(SizeBits(g.size[q], h.b), g.home[q].path, Step(h.path, false));
          TurnOrders(g.size[q], nb, h.b, h.path);
        }
      }
    }
  }

  /** A deeper untaken right child holds smaller sizes than the one before. */
  lemma Outdone(w: Memory, g: Index, node: map<Home, int>, h: Home, r: Home, q: int)
    requires Structured(g) && Linked(w, node) && WellBinned(g) && node == Nodes(g.rings)
    requires h in node && h.Tree? && Kid(h, true) in node && InBin(g, q, h.b) && Beaten(g, node, r, q)
    requires r in node ==> Untaken(h, r)
    ensures Beaten(g, node, Kid(h, true), q)
  {
    var n := node[Kid(h, true)];
    HomeOfNode(g, node, Kid(h, true));
    if Under(g, q, r) { NodesAbove(w, node, Tree(h.b, g.home[q].path), r.path); }
    assert r in node;
    var a := Tree(h.b, r.path.up);
    assert Under(g, n, Kid(a, false));
    HomeOfNode(g, node, r);
    if Under(g, q, r) {
      SidesOrder(g, n, q, a);
    } else {
      SidesOrder(g, n, node[r], a);
    }
  }

  lemma {:induction false} BelowRoot(p: Path)
    ensures Below(p, Root)
  {
    if p.Step? { BelowRoot(p.up); }
  }

  lemma AllSiftedInitially(g: Index, node: map<Home, int>, nb: nat, b: nat, best: nat)
    requires Structured(g)
    ensures AllSifted(g, node, nb, b, Tree(b, Root), Small(0), best)
  {
    forall q | InBin(g, q, b) ensures Sifted(g, node, nb, Tree(b, Root), Small(0), best, q) {
      BelowRoot(g.home[q].path);
    }
  }

  /** The place the walk turns to from h, and the least untaken subtree from then on. */
  ghost function Turned(node: map<Home, int>, h: Home, right: bool, r: Home): Home requires h.Tree?
  { if !right && Kid(h, true) in node then Kid(h, true) else r }

  lemma AllSiftedStep(w: Memory, g: Index, node: map<Home, int>, nb: nat, h: Home, r: Home, best: nat)
    requires Structured(g) && Linked(w, node) && Sized(w, g.size) && WellBinned(g) && node == Nodes(g.rings)
    requires h in node && h.Tree? && nb < LIMIT && Bracketed(nb, h.b) && h.b < NTREEBINS
    requires Follows(SizeBits(nb, h.b), h.path)
    requires AllSifted(g, node, nb, h.b, h, r, best)
    requires r in node ==> Untaken(h, r)
    requires node[h] in g.size && (g.size[node[h]] < nb || best <= g.size[node[h]])
    ensures var right := Msb(SizeBits(nb, h.b), Depth(h.path));
      AllSifted(g, node, nb, h.b, Kid(h, right), Turned(node, h, right, r), best)
  {
    var right := Msb(SizeBits(nb, h.b), Depth(h.path));
    forall q | InBin(g, q, h.b) ensures Sifted(g, node, nb, Kid(h, right), Turned(node, h, right, r), best, q) {
      SiftStep(w, g, node, nb, h, r, best, q);
    }
  }

  lemma SiftedAtEnd(w: Memory, g: Index, node: map<Home, int>, nb: nat, b: nat, h: Home, r: Home, best: nat)
    requires Structured(g) && Linked(w, node) && node == Nodes(g.rings) && h.Tree? && h !in node
    requires AllSifted(g, node, nb, b, h, r, best)
    ensures forall q :: InBin(g, q, b) ==> g.size[q] < nb || best <= g.size[q] || Beaten(g, node, r, q)
  {
    forall q | InBin(g, q, b) ensures g.size[q] < nb || best <= g.size[q] || Beaten(g, node, r, q) {
      assert Sifted(g, node, nb, h, r, best, q);
      if Under(g, q, h) {
        NodeOfHome(g, node, q);
        NodesAbove(w, node, g.home[q], h.path);
      }
    }
  }

  /** h lies on the path of nb in tree i, and k is the steering word from there on. */
  ghost predicate OnPath(nb: nat, i: nat, h: Home, k: nat) {
    && nb < LIMIT && i < NTREEBINS && h.Tree? && h.b == i && k < LIMIT
    && Follows(SizeBits(nb, i), h.path) && k == Bits.Shl(SizeBits(nb, i), Depth(h.path))
  }

  lemma OnPathStep(nb: nat, i: nat, h: Home, k: nat)
    requires OnPath(nb, i, h, k)
    ensures (k >= HALF) == Msb(SizeBits(nb, i), Depth(h.path))
    ensures OnPath(nb, i, Kid(h, k >= HALF), Shl1(k))
  {}

  /** What of bin i is left to look at when the walk is over. */
  ghost predicate Remaining(g: Index, node: map<Home, int>, nb: nat, i: nat, t: int, r: Home, best: nat)
    requires g.home.Keys == g.size.Keys
  {
    forall q :: InBin(g, q, i) ==>
      g.size[q] < nb || best <= g.size[q] || (t != 0 && Beaten(g, node, r, q))
  }

  /** The first loop of tmalloc_large: down the tree of nb's own bin. It ends with the best
      fit passed on the way and the least untaken subtree of larger sizes, if any. */
  method WalkToSize(m: MState, nb: nat, i: nat, ghost node: map<Home, int>)
    returns (t: int, v: int, rsize: nat, ghost r: Home, ghost h: Home)
    requires Structured(m.g) && Linked(m.word, node) && Sized(m.word, m.g.size) && node == Nodes(m.g.rings)
    requires 0 < nb < LIMIT && i < 32 && |m.treebins| == 32
    requires Tree(i, Root) in node && m.treebins[i] == node[Tree(i, Root)]
    ensures Candidate(m.g, nb, v, rsize) && (v != 0 ==> InBin(m.g, v, i))
    ensures t != 0 ==> r in node && node[r] == t
    ensures rsize > 0 && t != 0 ==> h.Tree? && h.b == i && Follows(SizeBits(nb, i), h.path) && Untaken(h, r)
    ensures WellBinned(m.g) && Bracketed(nb, i) && rsize > 0 ==> Remaining(m.g, node, nb, i, t, r, nb + rsize)
  {
    hide Structured, Linked, Sized, WellBinned, Bracketed, AllSifted, Untaken;
    ghost var g := m.g;
    KeysAgree(g);
    ghost var ok := WellBinned(g) && Bracketed(nb, i);
    h := Tree(i, Root);
    v, rsize := 0, LIMIT - nb;
    t := m.treebins[i];
    var k: nat := Bits.Shl(nb, LeftShift(i));
    var rst := 0;
    r := Small(0);
    NodeWords(m.word, g, node, h);
    AllSiftedInitially(g, node, nb, i, nb + rsize);
    while true
      invariant h in node && node[h] == t && t != 0 && OnPath(nb, i, h, k) && Depth(h.path) < |node|
      invariant Candidate(g, nb, v, rsize) && rsize > 0 && (v != 0 ==> InBin(g, v, i))
      invariant RestAt(node, h, r, rst)
      invariant ok ==> AllSifted(g, node, nb, i, h, r, nb + rsize)
      decreases |node| - Depth(h.path)
    {
      var size := NodeSize(m, t, node, h);
      CandidateBound(g, nb, v, rsize);
      var trem := Minus(size, nb);
      if trem < rsize {
        if ok { SiftedFor(g, node, nb, i, h, r, nb + rsize, nb + trem); }
        v := t;
        rsize := trem;
        if rsize == 0 { r := h; return; }
      }
      OnPathStep(nb, i, h, k);
      if ok { AllSiftedStep(m.word, g, node, nb, h, r, nb + rsize); }
      t, rst := Turn(m, t, k, rst, node, h, r);
      r, h := Turned(node, h, k >= HALF, r), Kid(h, k >= HALF);
      if t == 0 {
        if ok { SiftedAtEnd(m.word, g, node, nb, i, h, r, nb + rsize); }
        t := rst;
        return;
      }
      k := Shl1(k);
    }
  }

  /** rst is the node of the least untaken subtree, if there is one. */
  ghost predicate RestAt(node: map<Home, int>, h: Home, r: Home, rst: int)
  { if rst == 0 then r == Small(0) && r !in node else r in node && node[r] == rst && Untaken(h, r) }

  /** chunksize of a trie node. */
  method NodeSize(m: MState, t: int, ghost node: map<Home, int>, ghost h: Home) returns (size: nat)
    requires Structured(m.g) && Linked(m.word, node) && Sized(m.word, m.g.size) && node == Nodes(m.g.rings)
    requires h in node && node[h] == t
    ensures InTree(m.g, t) && m.g.home[t] == h && t in m.g.size && size == m.g.size[t] < LIMIT
  {
    NodeWords(m.word, m.g, node, h);
    size := ChunkSize(m.word, t);
  }

  /** One turn of the walk: follow the top bit of k, remember a right child not taken. */
  method Turn(m: MState, t: int, k: nat, rst: int, ghost node: map<Home, int>, ghost h: Home, ghost r: Home)
    returns (t': int, rst': int)
    requires Structured(m.g) && Linked(m.word, node) && Sized(m.word, m.g.size) && node == Nodes(m.g.rings)
    requires h in node && h.Tree? && node[h] == t && RestAt(node, h, r, rst)
    ensures var right := k >= HALF;
      && t' == NodeAt(node, Kid(h, right)) && (t' != 0 <==> Kid(h, right) in node)
      && RestAt(node, Kid(h, right), Turned(node, h, right, r), rst')
      && (t' != 0 ==> Depth(Kid(h, right).path) < |node|)
  {
    NodeWords(m.word, m.g, node, h);
    var rt := Child(m.word, t, true);
    t' := Child(m.word, t, k >= HALF);
    rst' := rst;
    if rt != 0 && rt != t' { rst' := rt; }
    if t' != 0 { DepthBound(m.word, node, Kid(h, k >= HALF)); }
  }

  // ------------------------------------------------------------- the whole searches

  /** v is a tree chunk of least size among those that fit nb; 0 if none fits. */
  ghost predicate IsBestFit(g: Index, nb: nat, v: int) requires g.home.Keys == g.size.Keys {
    if v == 0 then forall q :: InTree(g, q) ==> g.size[q] < nb
    else InTree(g, v) && nb <= g.size[v] && forall q :: InTree(g, q) && nb <= g.size[q] ==> g.size[v] <= g.size[q]
  }

  ghost predicate AllBelow40(g: Index) requires g.home.Keys == g.size.Keys
  { forall q :: InTree(g, q) ==> g.size[q] < 0x100_0000_0000 }

  /** Chunks under an untaken right child are larger than nb. */
  lemma UntakenFits(g: Index, nb: nat, h: Home, r: Home)
    requires Structured(g) && WellBinned(g) && h.Tree? && h.b < NTREEBINS && nb < LIMIT && Bracketed(nb, h.b)
    requires Follows(SizeBits(nb, h.b), h.path) && Untaken(h, r)
    ensures AllFit(g, r, nb)
  {
    FollowsUp(SizeBits(nb, h.b), h.path, Step(r.path.up, false));
    forall q | Under(g, q, r) ensures nb <= g.size[q] {
      assert Fits(g.home[q], g.size[q]);
      FollowsUp(SizeBits(g.size[q], h.b), g.home[q].path, r.path);
      TurnOrders(nb, g.size[q], h.b, r.path.up);
    }
  }

  /** Bins below i are too small and those above i larger than anything in i. */
  lemma OtherBins(g: Index, nb: nat, i: nat, q: int)
    requires Structured(g) && WellBinned(g) && i < NTREEBINS && Bracketed(nb, i) && InTree(g, q)
    ensures g.home[q].b < i ==> g.size[q] < nb
    ensures g.home[q].b > i ==> nb < g.size[q] && forall p :: InBin(g, p, i) ==> g.size[p] < g.size[q]
  {
    assert Fits(g.home[q], g.size[q]);
    if g.home[q].b < i { BinsOrder(g.size[q], nb, g.home[q].b, i); }
    if g.home[q].b > i {
      BinsOrder(nb, g.size[q], i, g.home[q].b);
      forall p | InBin(g, p, i) ensures g.size[p] < g.size[q] { BinsOrder(g.size[p], g.size[q], i, g.home[q].b); }
    }
  }

  /** Something in bin i fits: the smallest of the untaken subtree, or what the walk passed. */
  lemma BestInBin(g: Index, node: map<Home, int>, nb: nat, i: nat, t: int, v1: int, rs1: nat, r: Home, h: Home, v: int,
                  rs: nat)
    requires Structured(g) && WellBinned(g) && node == Nodes(g.rings) && i < NTREEBINS && 0 < nb < LIMIT
    requires Bracketed(nb, i)
    requires Candidate(g, nb, v1, rs1) && (v1 != 0 ==> InBin(g, v1, i)) && (t != 0 || v1 != 0)
    requires t != 0 ==> r in node && node[r] == t
    requires rs1 > 0 && t != 0 ==> h.Tree? && h.b == i && Follows(SizeBits(nb, i), h.path) && Untaken(h, r)
    requires rs1 > 0 ==> Remaining(g, node, nb, i, t, r, nb + rs1)
    requires Candidate(g, nb, v, rs) && rs <= rs1 && (v1 != 0 ==> v != 0)
    requires t != 0 && AllFit(g, r, nb) ==> NoneBelow(g, r, nb + rs)
    ensures IsBestFit(g, nb, v)
  {
    if rs1 > 0 {
      var c := v1;
      if t != 0 {
        UntakenFits(g, nb, h, r);
        HomeOfNode(g, node, r);
        assert Under(g, t, r);
        assert Fits(g.home[t], g.size[t]);
        if v1 == 0 { c := t; }
      }
      assert InBin(g, c, i) && nb + rs <= g.size[c];
      assert Fits(g.home[c], g.size[c]);
      forall q | InTree(g, q) && nb <= g.size[q] ensures nb + rs <= g.size[q] {
        OtherBins(g, nb, i, q);
      }
    }
  }

  lemma EmptyBin(w: Memory, g: Index, node: map<Home, int>, b: nat, q: int)
    requires Structured(g) && Linked(w, node) && node == Nodes(g.rings) && Tree(b, Root) !in node
    ensures !InBin(g, q, b)
  {
    if InBin(g, q, b) {
      NodeOfHome(g, node, q);
      RootAbove(w, node, g.home[q]);
    }
  }

  /** Bins i < j with nothing used between them, and nothing in i fits nb. */
  ghost predicate NextUsed(g: Index, node: map<Home, int>, nb: nat, i: nat,
                           j: nat) requires g.home.Keys == g.size.Keys {
    && i < j <= NTREEBINS
    && (forall q :: InBin(g, q, i) ==> g.size[q] < nb)
    && (forall b :: i < b < j ==> Tree(b, Root) !in node)
    && (j < NTREEBINS ==> Tree(j, Root) in node)
  }

  lemma OnlyFromNextUsed(w: Memory, g: Index, node: map<Home, int>, nb: nat, i: nat, j: nat, q: int)
    requires Structured(g) && WellBinned(g) && Linked(w, node) && node == Nodes(g.rings)
    requires Bracketed(nb, i) && NextUsed(g, node, nb, i, j) && InTree(g, q)
    ensures g.size[q] < nb || (j <= g.home[q].b < NTREEBINS && nb < g.size[q])
  {
    OtherBins(g, nb, i, q);
    assert Fits(g.home[q], g.size[q]);
    if i < g.home[q].b < j { EmptyBin(w, g, node, g.home[q].b, q); }
  }

  /** Nothing in bin i fits: the smallest of the next used bin, if there is one. */
  lemma BestAbove(w: Memory, g: Index, node: map<Home, int>, nb: nat, i: nat, j: nat, v: int, rs: nat)
    requires Structured(g) && WellBinned(g) && Linked(w, node) && node == Nodes(g.rings)
    requires 0 < nb < LIMIT && Bracketed(nb, i) && NextUsed(g, node, nb, i, j)
    requires Candidate(g, nb, v, rs)
    requires j == NTREEBINS ==> v == 0
    requires j < NTREEBINS && AllFit(g, Tree(j, Root), nb) ==> NoneBelow(g, Tree(j, Root), nb + rs)
    ensures IsBestFit(g, nb, v)
  {
    forall q | InTree(g, q)
      ensures g.size[q] < nb || (j < NTREEBINS && nb + rs <= g.size[q])
    {
      OnlyFromNextUsed(w, g, node, nb, i, j, q);
      if nb <= g.size[q] { LeastOfNextUsed(w, g, node, nb, i, j, nb + rs, q); }
    }
    if j < NTREEBINS {
      var c := node[Tree(j, Root)];
      HomeOfNode(g, node, Tree(j, Root));
      OnlyFromNextUsed(w, g, node, nb, i, j, c);
      assert Fits(g.home[c], g.size[c]);
    }
  }

  lemma LeastOfNextUsed(w: Memory, g: Index, node: map<Home, int>, nb: nat, i: nat, j: nat, least: nat, q: int)
    requires Structured(g) && WellBinned(g) && Linked(w, node) && node == Nodes(g.rings)
    requires Bracketed(nb, i) && NextUsed(g, node, nb, i, j) && j < NTREEBINS
    requires AllFit(g, Tree(j, Root), nb) ==> NoneBelow(g, Tree(j, Root), least)
    requires InTree(g, q) && nb <= g.size[q]
    ensures least <= g.size[q]
  {
    forall p | Under(g, p, Tree(j, Root)) ensures nb <= g.size[p] { OtherBins(g, nb, i, p); }
    assert NoneBelow(g, Tree(j, Root), least);
    OnlyFromNextUsed(w, g, node, nb, i, j, q);
    if g.home[q].b == j {
      BelowRoot(g.home[q].path);
      assert Under(g, q, Tree(j, Root));
    } else {
      var c := node[Tree(j, Root)];
      HomeOfNode(g, node, Tree(j, Root));
      assert Under(g, c, Tree(j, Root));
      BinsOrder(g.size[c], g.size[q], j, g.home[q].b);
    }
  }

  /** What the walk through the bin of nb, which may be empty, leaves behind. */
  ghost predicate Walked(g: Index, node: map<Home, int>, nb: nat, i: nat, t: int, v: int, rs: nat, r: Home, h: Home)
    requires g.home.Keys == g.size.Keys && nb < LIMIT && i < NTREEBINS
  {
    && Candidate(g, nb, v, rs) && (v != 0 ==> InBin(g, v, i))
    && (t != 0 ==> r in node && node[r] == t)
    && (rs > 0 && t != 0 ==> h.Tree? && h.b == i && Follows(SizeBits(nb, i), h.path) && Untaken(h, r))
    && (WellBinned(g) && Bracketed(nb, i) && rs > 0 ==> Remaining(g, node, nb, i, t, r, nb + rs))
  }

  lemma EmptyWalked(w: Memory, g: Index, node: map<Home, int>, nb: nat, i: nat)
    requires Structured(g) && Linked(w, node) && node == Nodes(g.rings) && 0 < nb < LIMIT && i < NTREEBINS
    requires Tree(i, Root) !in node
    ensures Walked(g, node, nb, i, 0, 0, LIMIT - nb, Small(0), Small(0))
  {
    forall q ensures !InBin(g, q, i) { EmptyBin(w, g, node, i, q); }
  }

  lemma LargeSearchBest(w: Memory, g: Index, node: map<Home, int>, nb: nat, i: nat, j: nat,
                        t: int, v1: int, rs1: nat, r: Home, h: Home, v: int, rs: nat)
    requires Structured(g) && AllBelow40(g) && Linked(w, node) && node == Nodes(g.rings)
    requires 256 <= nb < LIMIT && i == TreeIndex(nb) && Walked(g, node, nb, i, t, v1, rs1, r, h)
    requires Candidate(g, nb, v, rs) && rs <= rs1 && (v1 != 0 ==> v != 0)
    requires t != 0 && WellBinned(g) && AllFit(g, r, nb) ==> NoneBelow(g, r, nb + rs)
    requires t == 0 && v1 == 0 ==>
      && i < j <= NTREEBINS && (forall b :: i < b < j ==> Tree(b, Root) !in node)
      && (j < NTREEBINS ==> Tree(j, Root) in node)
      && (j == NTREEBINS ==> v == 0)
      && (j < NTREEBINS && WellBinned(g) && AllFit(g, Tree(j, Root), nb) ==> NoneBelow(g, Tree(j, Root), nb + rs))
    ensures IsBestFit(g, nb, v)
  {
    Below40WellBinned(g);
    if nb < 0x100_0000_0000 {
      TreeIndexBelow40(nb);
      if t != 0 || v1 != 0 {
        BestInBin(g, node, nb, i, t, v1, rs1, r, h, v, rs);
      } else {
        forall q | InBin(g, q, i) ensures g.size[q] < nb { assert Fits(g.home[q], g.size[q]); }
        BestAbove(w, g, node, nb, i, j, v, rs);
      }
    }
  }

  /** The search of tmalloc_large: exact best fit over all tree bins, if no chunk has 2^40 bytes. */
  method SearchLarge(m: MState, nb: nat) returns (v: int, rsize: nat)
    requires m.BinsValid() && Sized(m.word, m.g.size) && 256 <= nb < LIMIT
    ensures Candidate(m.g, nb, v, rsize)
    ensures AllBelow40(m.g) ==> IsBestFit(m.g, nb, v)
  {
    ghost var g, node := m.g, Nodes(m.g.rings);
    var i := TreeIndex(nb);
    var t := 0;
    ghost var r, h, j := Small(0), Small(0), NTREEBINS;
    v, rsize := 0, LIMIT - nb;
    if m.treebins[i] != 0 {
      t, v, rsize, r, h := WalkToSize(m, nb, i, node);
    } else {
      NodesInjective(g);
      EmptyWalked(m.word, g, node, nb, i);
    }
    ghost var t1, v1, rs1, r1 := t, v, rsize, r;
    if t == 0 && v == 0 {
      t, r, j := NextTree(m, i);
    }
    v, rsize := WalkLeftmost(m, t, nb, v, rsize, node, r);
    if AllBelow40(g) { LargeSearchBest(m.word, g, node, nb, i, j, t1, v1, rs1, r1, h, v, rsize); }
  }

  /** The root of the next non-empty tree bin above i. */
  method NextTree(m: MState, i: nat) returns (t: int, ghost r: Home, ghost j: nat)
    requires Structured(m.g) && Mapped(m.smallmap, m.treemap, m.treebins, m.g) && i < 32
    ensures i < j <= NTREEBINS && r == Tree(j, Root)
    ensures forall b :: i < b < j ==> Tree(b, Root) !in Nodes(m.g.rings)
    ensures if j == NTREEBINS then t == 0 else r in Nodes(m.g.rings) && Nodes(m.g.rings)[r] == t && t != 0
  {
    t, j := 0, NTREEBINS;
    var leftbits := And(LeftBits(Idx2Bit(i)), m.treemap);
    NextAbove(m.treemap, i);
    if leftbits != EMPTY {
      var k := Ctz(LeastBit(leftbits));
      t := m.treebins[k];
      j := k;
    }
    r := Tree(j, Root);
    NodesInjective(m.g);
  }

  /** The search of tmalloc_small: the smallest of all tree chunks. */
  method SearchSmall(m: MState, nb: nat) returns (v: int, rsize: nat)
    requires m.BinsValid() && Sized(m.word, m.g.size) && 0 < nb < 256 && m.treemap != EMPTY
    ensures v != 0 && Candidate(m.g, nb, v, rsize)
    ensures AllBelow40(m.g) ==> forall q :: InTree(m.g, q) ==> m.g.size[v] <= m.g.size[q]
  {
    ghost var g, node := m.g, Nodes(m.g.rings);
    LeastIndex(m.treemap);
    var i := Ctz(LeastBit(m.treemap));
    ghost var h := Tree(i, Root);
    var t := m.treebins[i];
    v := t;
    NodeWords(m.word, g, node, h);
    rsize := Minus(ChunkSize(m.word, t), nb);
    t := LeftmostChild(m.word, t);
    ghost var k := if t == 0 then h else Kid(h, Kid(h, false) !in node);
    v, rsize := WalkLeftmost(m, t, nb, v, rsize, node, k);
    if AllBelow40(g) { SmallSearchBest(m.word, g, node, nb, i, t, k, nb + rsize); }
  }

  lemma SmallSearchBest(w: Memory, g: Index, node: map<Home, int>, nb: nat, i: nat, t: int, k: Home, best: nat)
    requires Structured(g) && AllBelow40(g) && Linked(w, node) && Sized(w, g.size) && node == Nodes(g.rings)
    requires i < NTREEBINS && nb < 256 && Tree(i, Root) in node
    requires forall b :: 0 <= b < i ==> Tree(b, Root) !in node
    requires var h := Tree(i, Root); t == LeftmostChild(w, node[h]) && (t != 0 ==> k == Kid(h, Kid(h, false) !in node))
    requires node[Tree(i, Root)] in g.size ==> best <= g.size[node[Tree(i, Root)]]
    requires t != 0 && WellBinned(g) && AllFit(g, k, nb) ==> NoneBelow(g, k, best)
    ensures forall q :: InTree(g, q) ==> best <= g.size[q]
  {
    var h := Tree(i, Root);
    var c := node[h];
    Below40WellBinned(g);
    NodeWords(w, g, node, h);
    forall q | Under(g, q, k) ensures nb <= g.size[q] { assert Fits(g.home[q], g.size[q]); }
    forall q | InTree(g, q) ensures best <= g.size[q] {
      assert Fits(g.home[q], g.size[q]);
      if g.home[q].b < i {
        EmptyBin(w, g, node, g.home[q].b, q);
      } else if g.home[q].b > i {
        BinsOrder(g.size[c], g.size[q], i, g.home[q].b);
      } else {
        BelowRoot(g.home[q].path);
        assert Under(g, q, h);
        LeftmostStep(w, g, node, q, h);
        if Kid(h, false) in node {
          HomeOfNode(g, node, Kid(h, false));
          assert Under(g, node[Kid(h, false)], Kid(h, false));
        }
      }
    }
  }
}
