/** The free chunk index: small bins as rings, large bins as bitwise tries of rings. */
module Bins {
  import opened Words
  import opened Bits
  import opened Binmaps
  import opened Rings

  /** A place in a trie: the turns taken from the root. */
  datatype Path = Root | Step(up: Path, right: bool)

  /** Where a binned chunk is kept: the list of a small bin or a trie node. */
  datatype Home = Small(i: nat) | Tree(b: nat, path: Path)

  /** The index as a value: the ring at each used home, and the home and size of each chunk.
      The ring of a small bin starts with the bin header. */
  datatype Index = Index(rings: map<Home, seq<int>>, home: map<int, Home>, size: map<int, nat>)

  // Addresses inside malloc_state are below zero, apart from all mapped memory.
  function SmallBinAt(i: nat): int { -4096 + 16 * i }
  function TreeBinAt(i: nat): int { -2048 + 8 * i }

  function Depth(p: Path): nat { if p.Root? then 0 else 1 + Depth(p.up) }

  /** The turns of p are the leading bits of w. */
  ghost predicate Follows(w: nat, p: Path) requires w < LIMIT
  { p.Step? ==> Follows(w, p.up) && p.right == Msb(w, Depth(p.up)) }

  /** p is q or lies under q. */
  ghost predicate Below(p: Path, q: Path) { p == q || (p.Step? && Below(p.up, q)) }

  function Kid(h: Home, right: bool): Home requires h.Tree? { Tree(h.b, Step(h.path, right)) }
  function Up(h: Home): Home requires h.Tree? && h.path.Step? { Tree(h.b, h.path.up) }

  /** The trie nodes proper: the first chunk of each tree ring. */
  ghost function Nodes(rings: map<Home, seq<int>>): map<Home, int>
  { map h | h in rings && h.Tree? && |rings[h]| > 0 :: rings[h][0] }

  ghost function Pruned(node: map<Home, int>, h: Home): map<Home, int>
  { map k | k in node && k != h :: node[k] }

  ghost function NodeAt(node: map<Home, int>, h: Home): int { if h in node then node[h] else 0 }

  // ------------------------------------------------------------------ invariant

  /** Binned chunks are aligned, at least minimal, and do not overlap. */
  ghost predicate Spaced(size: map<int, nat>) {
    && (forall p :: p in size ==> p > 0 && p % 16 == 0 && size[p] >= 32 && p + size[p] < LIMIT)
    && (forall p, q {:trigger Apart(size, p, q)} :: p in size && q in size ==> Apart(size, p, q))
  }

  ghost predicate Apart(size: map<int, nat>, p: int, q: int) requires p in size && q in size
  { p == q || p + size[p] <= q || q + size[q] <= p }

  /** Each chunk is on exactly the ring its home names. */
  ghost predicate Housed(g: Index) {
    && g.home.Keys == g.size.Keys
    && (forall p :: p in g.home ==> g.home[p] in g.rings && p in g.rings[g.home[p]])
    && (forall h :: h in g.rings ==> |g.rings[h]| > 0)
    && (forall h {:trigger RingHoused(g, h)} :: h in g.rings ==> RingHoused(g, h))
  }

  ghost predicate RingHoused(g: Index, h: Home) requires h in g.rings {
    var s := g.rings[h];
    && |s| > 0
    && (h.Small? ==> h.i < 32 && |s| > 1 && s[0] == SmallBinAt(h.i))
    && (h.Tree? ==> h.b < NTREEBINS)
    && (forall i :: (if h.Small? then 1 else 0) <= i < |s| ==> s[i] in g.home && g.home[s[i]] == h)
  }

  /** A chunk of this size belongs at this home. */
  ghost predicate Fits(h: Home, size: nat) {
    match h
    case Small(i) => size == 8 * i && i < 32
    case Tree(b, path) =>
      256 <= size < LIMIT && b == TreeIndex(size) && Follows(SizeBits(size, b), path)
  }

  /** Chunks are where their sizes put them; one trie node per size. */
  ghost predicate Sorted(g: Index) requires g.home.Keys == g.size.Keys {
    && (forall p {:trigger Fits(g.home[p], g.size[p])} :: p in g.home ==> Fits(g.home[p], g.size[p]))
    && (forall p, q {:trigger OneNode(g, p, q)} ::
          p in g.home && q in g.home && g.home[p].Tree? && g.home[q].Tree? ==> OneNode(g, p, q))
  }

  ghost predicate OneNode(g: Index, p: int, q: int)
    requires g.home.Keys == g.size.Keys && p in g.home && q in g.home
  { g.size[p] == g.size[q] <==> g.home[p] == g.home[q] }

  ghost predicate Ringed(w: Memory,
                         g: Index) { forall h {:trigger Ring(w, g.rings[h])} :: h in g.rings ==> Ring(w, g.rings[h]) }

  /** Child and parent words agree with the trie, whose nodes are closed under Up. */
  ghost predicate Linked(w: Memory, node: map<Home, int>) {
    && (forall h :: h in node ==> h.Tree?)
    && (forall h {:trigger NodeLinked(w, node, h)} :: h in node ==> NodeLinked(w, node, h))
  }

  ghost predicate NodeLinked(w: Memory, node: map<Home, int>, h: Home) requires h in node && h.Tree? {
    && Child(w, node[h], false) == NodeAt(node, Kid(h, false))
    && Child(w, node[h], true) == NodeAt(node, Kid(h, true))
    && Parent(w, node[h]) == (if h.path.Root? then TreeBinAt(h.b) else NodeAt(node, Up(h)))
    && (h.path.Step? ==> Up(h) in node)
  }

  /** Tree chunks record their bin; those chained behind a node have no tree links. */
  ghost predicate Chained(w: Memory, g: Index) {
    forall p :: p in g.home && g.home[p].Tree? ==>
      && TreeBin(w, p) == g.home[p].b
      && (p != NodeAt(Nodes(g.rings), g.home[p]) ==> Unlinked(w, p))
  }

  ghost predicate Unlinked(w: Memory, p: int)
  { Parent(w, p) == 0 && Child(w, p, false) == 0 && Child(w, p, true) == 0 }

  /** The maps mark exactly the used bins, and each tree bin points at its root. */
  ghost predicate Mapped(smallmap: Binmap, treemap: Binmap, treebins: seq<int>, g: Index) {
    && |treebins| == NTREEBINS
    && (forall i :: 0 <= i < 32 ==> (smallmap[i] <==> Small(i) in g.rings))
    && (forall i :: 0 <= i < 32 ==> (treemap[i] <==> Tree(i, Root) in g.rings))
    && (forall i :: 0 <= i < 32 ==> treebins[i] == NodeAt(Nodes(g.rings), Tree(i, Root)))
  }

  ghost predicate Structured(g: Index) { Spaced(g.size) && Housed(g) && Sorted(g) }

  ghost predicate Threaded(w: Memory, g: Index)
  { Ringed(w, g) && Linked(w, Nodes(g.rings)) && Chained(w, g) }

  // ------------------------------------------------------------ trie link surgery

  /** Hanging x into the free slot h. */
  lemma LeafAdded(w: Memory, w': Memory, node: map<Home, int>, h: Home, x: int)
    requires Linked(w, node) && h.Tree? && h !in node && Kid(h, false) !in node && Kid(h, true) !in node
    requires h.path.Step? ==> Up(h) in node
    requires Child(w', x, false) == 0 && Child(w', x, true) == 0
    requires Parent(w', x) == if h.path.Root? then TreeBinAt(h.b) else node[Up(h)]
    requires forall k :: k in node ==> Parent(w', node[k]) == Parent(w, node[k])
    requires forall k, r :: k in node ==>
               Child(w', node[k], r) == if Kid(k, r) == h then x else Child(w, node[k], r)
    ensures Linked(w', node[h := x])
  {
    var node' := node[h := x];
    forall k | k in node' ensures NodeLinked(w', node', k) {
      if k != h { assert NodeLinked(w, node, k); }
    }
  }

  /** Dropping the leaf at h. */
  lemma LeafCut(w: Memory, w': Memory, node: map<Home, int>, h: Home)
    requires Linked(w, node) && h in node && Kid(h, false) !in node && Kid(h, true) !in node
    requires forall k :: k in node && k != h ==> Parent(w', node[k]) == Parent(w, node[k])
    requires forall k, r :: k in node && k != h ==>
               Child(w', node[k], r) == if Kid(k, r) == h then 0 else Child(w, node[k], r)
    ensures Linked(w', Pruned(node, h))
  {
    forall k | k in Pruned(node, h) ensures NodeLinked(w', Pruned(node, h), k) {
      assert NodeLinked(w, node, k);
    }
  }

  /** Chunk r takes the place of the node at h. */
  lemma NodeReplaced(w: Memory, w': Memory, node: map<Home, int>, h: Home, r: int)
    requires Linked(w, node) && h in node
    requires Parent(w', r) == Parent(w, node[h])
    requires forall b :: Child(w', r, b) == Child(w, node[h], b)
    requires forall k :: k in node && k != h ==>
               Parent(w', node[k]) == if k.path.Step? && Up(k) == h then r else Parent(w, node[k])
    requires forall k, b :: k in node && k != h ==>
               Child(w', node[k], b) == if Kid(k, b) == h then r else Child(w, node[k], b)
    ensures Linked(w', node[h := r])
  {
    var node' := node[h := r];
    assert forall b :: Depth(Kid(h, b).path) == Depth(h.path) + 1;
    assert h.path.Step? ==> Depth(Up(h).path) == Depth(h.path) - 1;
    forall k | k in node' ensures NodeLinked(w', node', k) {
      assert NodeLinked(w, node, k);
    }
  }

  // --------------------------------------------------------------- index surgery

  /** Chunk x of the given size joins the ring at h, as ring t. */
  ghost function Joined(g: Index, x: int, size: nat, h: Home, t: seq<int>): Index
  { Index(g.rings[h := t], g.home[x := h], g.size[x := size]) }

  lemma JoinedStructured(g: Index, x: int, size: nat, h: Home, t: seq<int>)
    requires Structured(g) && x !in g.size && Spaced(g.size[x := size]) && Fits(h, size)
    requires if h in g.rings then t == Inserted(g.rings[h], x)
             else if h.Small? then t == [SmallBinAt(h.i), x] else t == [x]
    requires h.Tree? ==> forall p :: p in g.home && g.home[p].Tree? ==>
               (g.size[p] == size <==> g.home[p] == h)
    ensures Structured(Joined(g, x, size, h, t))
  {
    JoinedHoused(g, x, size, h, t);
    var g' := Joined(g, x, size, h, t);
    forall p, q | p in g'.home && q in g'.home && g'.home[p].Tree? && g'.home[q].Tree? ensures OneNode(g', p, q) {
      if p != x && q != x { assert OneNode(g, p, q); }
    }
    forall p | p in g'.home ensures Fits(g'.home[p], g'.size[p]) {
      if p != x { assert Fits(g.home[p], g.size[p]); }
    }
  }

  lemma JoinedHoused(g: Index, x: int, size: nat, h: Home, t: seq<int>)
    requires Housed(g) && x !in g.size && (h.Small? ==> h.i < 32) && (h.Tree? ==> h.b < NTREEBINS)
    requires if h in g.rings then t == Inserted(g.rings[h], x)
             else if h.Small? then t == [SmallBinAt(h.i), x] else t == [x]
    ensures Housed(Joined(g, x, size, h, t))
  {
    var g' := Joined(g, x, size, h, t);
    assert h in g.rings ==> t[1] == x;
    forall k | k in g'.rings ensures RingHoused(g', k) {
      if k in g.rings { assert RingHoused(g, k); }
    }
    forall p | p in g.home ensures g'.home[p] in g'.rings && p in g'.rings[g'.home[p]] {
      if g.home[p] == h { InsertedKeeps(g.rings[h], x, p); }
    }
  }

  lemma InsertedKeeps(s: seq<int>, x: int, p: int)
    requires p in s
    ensures p in Inserted(s, x)
  {
    var i :| 0 <= i < |s| && s[i] == p;
    assert Inserted(s, x)[if i == 0 then 0 else i + 1] == p;
  }

  lemma SpacedWithout(size: map<int, nat>, x: int)
    requires Spaced(size)
    ensures Spaced(size - {x})
  {
    forall p, q | p in size - {x} && q in size - {x} ensures Apart(size - {x}, p, q) {
      assert Apart(size, p, q);
    }
  }

  /** Chunk x leaves its ring, of which t remains. */
  ghost function Dropped(g: Index, x: int, t: seq<int>): Index requires x in g.home
  { Index(g.rings[g.home[x] := t], g.home - {x}, g.size - {x}) }

  lemma DroppedStructured(g: Index, x: int, t: seq<int>)
    requires Structured(g) && x in g.home
    requires var s := g.rings[g.home[x]];
      && (forall i :: 0 <= i < |t| ==> t[i] in s && t[i] != x)
      && (forall p :: p in s && p != x ==> p in t)
      && (if g.home[x].Small? then |t| > 1 && t[0] == s[0] && Distinct(t) else |t| > 0)
    ensures Structured(Dropped(g, x, t))
  {
    var h := g.home[x];
    var g' := Dropped(g, x, t);
    assert RingHoused(g, h);
    forall k | k in g'.rings ensures RingHoused(g', k) {
      assert RingHoused(g, k);
    }
    SpacedWithout(g.size, x);
    forall p, q | p in g'.home && q in g'.home && g'.home[p].Tree? && g'.home[q].Tree? ensures OneNode(g', p, q) {
      assert OneNode(g, p, q);
    }
    forall p | p in g'.home ensures Fits(g'.home[p], g'.size[p]) { assert Fits(g.home[p], g.size[p]); }
  }

  /** The ring of x held only x and goes with it. */
  ghost function Vacated(g: Index, x: int): Index requires x in g.home
  { Index(g.rings - {g.home[x]}, g.home - {x}, g.size - {x}) }

  lemma VacatedStructured(g: Index, x: int)
    requires Structured(g) && x in g.home
    requires g.rings[g.home[x]] == if g.home[x].Small? then [SmallBinAt(g.home[x].i), x] else [x]
    ensures Structured(Vacated(g, x))
  {
    var h := g.home[x];
    var g' := Vacated(g, x);
    assert RingHoused(g, h);
    forall k | k in g'.rings ensures RingHoused(g', k) {
      assert RingHoused(g, k);
    }
    forall p | p in g'.home ensures g'.home[p] in g'.rings && p in g'.rings[g'.home[p]] {
      assert p in g.rings[g.home[p]];
    }
    SpacedWithout(g.size, x);
    forall p, q | p in g'.home && q in g'.home && g'.home[p].Tree? && g'.home[q].Tree? ensures OneNode(g', p, q) {
      assert OneNode(g, p, q);
    }
    forall p | p in g'.home ensures Fits(g'.home[p], g'.size[p]) { assert Fits(g.home[p], g.size[p]); }
  }

  /** Node x goes and the ring at r, below it, moves into its place. */
  ghost function Moved(g: Index, x: int, r: Home): Index
    requires x in g.home && r in g.rings
  {
    Index(g.rings[g.home[x] := g.rings[r]] - {r},
          map p | p in g.home && p != x :: if g.home[p] == r then g.home[x] else g.home[p],
          g.size - {x})
  }

  lemma MovedStructured(g: Index, x: int, r: Home)
    requires Structured(g) && x in g.home && g.home[x].Tree? && g.rings[g.home[x]] == [x]
    requires r in g.rings && r.Tree? && r != g.home[x]
    requires r.b == g.home[x].b && Below(r.path, g.home[x].path)
    ensures Structured(Moved(g, x, r))
  {
    var h := g.home[x];
    var g' := Moved(g, x, r);
    MovedHoused(g, x, r);
    SpacedWithout(g.size, x);
    forall p | p in g'.home ensures Fits(g'.home[p], g'.size[p]) && g.home[p] != h {
      assert Fits(g.home[p], g.size[p]);
      assert p in g.rings[g.home[p]];
      if g.home[p] == r { FollowsUp(SizeBits(g.size[p], r.b), r.path, h.path); }
    }
    forall p, q | p in g'.home && q in g'.home && g'.home[p].Tree? && g'.home[q].Tree? ensures OneNode(g', p, q) {
      assert OneNode(g, p, q);
    }
  }

  lemma MovedHoused(g: Index, x: int, r: Home)
    requires Housed(g) && x in g.home && g.home[x].Tree? && g.rings[g.home[x]] == [x]
    requires r in g.rings && r.Tree? && r != g.home[x]
    ensures Housed(Moved(g, x, r))
  {
    var h := g.home[x];
    var g' := Moved(g, x, r);
    assert RingHoused(g, h) && RingHoused(g, r);
    forall k | k in g'.rings ensures RingHoused(g', k) {
      assert RingHoused(g, k);
    }
    forall p | p in g'.home ensures g'.home[p] in g'.rings && p in g'.rings[g'.home[p]] {
      assert p in g.rings[g.home[p]];
    }
  }

  lemma {:induction false} FollowsUp(w: nat, p: Path, q: Path)
    requires w < LIMIT && Follows(w, p) && Below(p, q)
    ensures Follows(w, q)
  {
    if p != q { FollowsUp(w, p.up, q); }
  }

  // -------------------------------------------------------- stores to link words

  /** p is a binned chunk or the header of a small bin. */
  ghost predicate Linkable(size: map<int, nat>, p: int)
  { p in size || (-4096 <= p < -4096 + 16 * 32 && p % 16 == 0) }

  /** A chunk whose body has room for all tree words. */
  ghost predicate Roomy(size: map<int, nat>, p: int) { p in size && size[p] >= 256 }

  /** Tree words of roomy chunks are the same in both memories. */
  ghost predicate SameTreeWords(w: Memory, w': Memory, size: map<int, nat>) {
    forall p :: Roomy(size, p) ==> SameTree(w, w', p)
  }

  ghost predicate SameTree(w: Memory, w': Memory, p: int) {
    && Child(w', p, false) == Child(w, p, false) && Child(w', p, true) == Child(w, p, true)
    && Parent(w', p) == Parent(w, p) && TreeBin(w', p) == TreeBin(w, p)
  }

  ghost predicate SameRingWords(w: Memory, w': Memory, size: map<int, nat>) {
    forall p :: Linkable(size, p) ==> Fd(w', p) == Fd(w, p) && Bk(w', p) == Bk(w, p)
  }

  /** Only words of malloc_state and bodies of the given free chunks differ. */
  ghost predicate OnlyBodies(w: Memory, w': Memory, size: map<int, nat>) {
    forall a :: Rd(w', a) != Rd(w, a) ==> a < 0 || InBody(a, size)
  }

  ghost predicate InBody(a: int, size: map<int, nat>) {
    exists p :: p in size && p + 16 <= a < p + size[p]
  }

  lemma OnlyBodiesTrans(w: Memory, w1: Memory, w2: Memory, size: map<int, nat>)
    requires OnlyBodies(w, w1, size) && OnlyBodies(w1, w2, size)
    ensures OnlyBodies(w, w2, size)
  {
    forall a | Rd(w2, a) != Rd(w, a) ensures a < 0 || InBody(a, size) {
      assert Rd(w1, a) != Rd(w, a) || Rd(w2, a) != Rd(w1, a);
    }
  }

  /** A store to one word, in malloc_state or in the body of chunk p. */
  lemma StoreInBody(w: Memory, w': Memory, size: map<int, nat>, p: int, a: int, v: int)
    requires w' == w[a := v]
    requires a < 0 || (p in size && p + 16 <= a < p + size[p])
    ensures OnlyBodies(w, w', size)
  {}

  lemma StoreFdBk(w: Memory, w': Memory, size: map<int, nat>, r: int, f: int, u: int, v: int)
    requires Spaced(size) && Linkable(size, r) && Linkable(size, f)
    requires w' == w[FdAt(r) := u][BkAt(f) := v] || w' == w[BkAt(f) := v][FdAt(r) := u]
    ensures forall p :: Linkable(size, p) ==> Fd(w', p) == if p == r then u else Fd(w, p)
    ensures forall p :: Linkable(size, p) ==> Bk(w', p) == if p == f then v else Bk(w, p)
    ensures SameTreeWords(w, w', size) && OnlyBodies(w, w', size)
  {
    hide OnlyBodies, SameTree, InBody;
    forall p | Linkable(size, p)
      ensures p in size && r in size ==> Apart(size, p, r)
      ensures p in size && f in size ==> Apart(size, p, f) {}
    FdBkInBodies(w, w', size, r, f, u, v);
    forall p | Roomy(size, p) ensures SameTree(w, w', p) { FdBkOffTree(w, w', size, r, f, u, v, p); }
  }

  lemma FdBkOffTree(w: Memory, w': Memory, size: map<int, nat>, r: int, f: int, u: int, v: int, p: int)
    requires Spaced(size) && Linkable(size, r) && Linkable(size, f) && Roomy(size, p)
    requires w' == w[FdAt(r) := u][BkAt(f) := v] || w' == w[BkAt(f) := v][FdAt(r) := u]
    ensures SameTree(w, w', p)
  {
    assert r in size ==> Apart(size, p, r);
    assert f in size ==> Apart(size, p, f);
  }

  lemma FdBkInBodies(w: Memory, w': Memory, size: map<int, nat>, r: int, f: int, u: int, v: int)
    requires Spaced(size) && Linkable(size, r) && Linkable(size, f)
    requires w' == w[FdAt(r) := u][BkAt(f) := v] || w' == w[BkAt(f) := v][FdAt(r) := u]
    ensures OnlyBodies(w, w', size)
  {}

  /** Among binned chunks, the only link word to change is the given child word of n. */
  ghost predicate ChildSet(w: Memory, w': Memory, size: map<int, nat>, n: int, b: bool, v: int) {
    && OnlyBodies(w, w', size)
    && SameRingWords(w, w', size)
    && (forall p, c :: Roomy(size, p) ==> Child(w', p, c) == if p == n && c == b then v else Child(w, p, c))
    && (forall p :: Roomy(size, p) ==> Parent(w', p) == Parent(w, p) && TreeBin(w', p) == TreeBin(w, p))
  }

  lemma StoreChild(w: Memory, w': Memory, size: map<int, nat>, n: int, b: bool, v: int)
    requires Spaced(size) && Roomy(size, n) && w' == w[ChildAt(n, b) := v]
    ensures ChildSet(w, w', size, n, b, v)
  {
    forall p | Roomy(size, p) ensures Apart(size, p, n) {}
    forall p | Linkable(size, p) ensures p in size ==> Apart(size, p, n) {}
    StoreInBody(w, w', size, n, ChildAt(n, b), v);
  }

  ghost predicate ParentSet(w: Memory, w': Memory, size: map<int, nat>, n: int, v: int) {
    && OnlyBodies(w, w', size)
    && SameRingWords(w, w', size)
    && (forall p, c :: Roomy(size, p) ==> Child(w', p, c) == Child(w, p, c))
    && (forall p :: Roomy(size, p) ==>
          Parent(w', p) == (if p == n then v else Parent(w, p)) && TreeBin(w', p) == TreeBin(w, p))
  }

  lemma StoreParent(w: Memory, w': Memory, size: map<int, nat>, n: int, v: int)
    requires Spaced(size) && Roomy(size, n) && w' == w[ParentAt(n) := v]
    ensures ParentSet(w, w', size, n, v)
  {
    forall p | Roomy(size, p) ensures Apart(size, p, n) {}
    forall p | Linkable(size, p) ensures p in size ==> Apart(size, p, n) {}
    StoreInBody(w, w', size, n, ParentAt(n), v);
  }

  /** The child c of x on one side, if any, became a child of r. */
  ghost predicate Adopted(w: Memory, w': Memory, size: map<int, nat>, c: int, r: int, right: bool) {
    && OnlyBodies(w, w', size)
    && SameRingWords(w, w', size)
    && (forall p, b :: Roomy(size, p) ==> Child(w', p, b) == if p == r && b == right then c else Child(w, p, b))
    && (forall p :: Roomy(size, p) ==>
          Parent(w', p) == (if p == c then r else Parent(w, p)) && TreeBin(w', p) == TreeBin(w, p))
  }

  /** Distinct homes have distinct nodes, all with room for tree words. */
  ghost predicate Injective(node: map<Home, int>, size: map<int, nat>) {
    && (forall h :: h in node ==> h.Tree? && Roomy(size, node[h]))
    && (forall h, k :: h in node && k in node && node[h] == node[k] ==> h == k)
  }

  lemma NodesInjective(g: Index)
    requires Structured(g)
    ensures Injective(Nodes(g.rings), g.size)
  {
    var node := Nodes(g.rings);
    forall h | h in node ensures Roomy(g.size, node[h]) && g.home[node[h]] == h {
      assert RingHoused(g, h);
      var n := g.rings[h][0];
      assert n in g.home && g.home[n] == h;
      assert Fits(g.home[n], g.size[n]);
    }
  }

  lemma LinkedFrame(w: Memory, w': Memory, node: map<Home, int>, size: map<int, nat>)
    requires Linked(w, node) && Injective(node, size) && SameTreeWords(w, w', size)
    ensures Linked(w', node)
  {
    forall h | h in node ensures NodeLinked(w', node, h) {
      assert NodeLinked(w, node, h) && SameTree(w, w', node[h]);
    }
  }

  // ----------------------------------------------------------------- trie depth

  ghost function Ancestors(h: Home): (s: set<Home>)
    requires h.Tree?
    ensures |s| == Depth(h.path) + 1
    ensures forall k :: k in s ==> k.Tree? && Depth(k.path) <= Depth(h.path)
    decreases h.path
  {
    if h.path.Root? then {h} else Ancestors(Up(h)) + {h}
  }

  lemma {:induction false} AncestorsPresent(w: Memory, node: map<Home, int>, h: Home)
    requires Linked(w, node) && h in node
    ensures h.Tree? && Ancestors(h) <= node.Keys
    decreases h.path
  {
    assert NodeLinked(w, node, h);
    if h.path.Step? { AncestorsPresent(w, node, Up(h)); }
  }

  /** No trie node is deeper than there are nodes. */
  lemma DepthBound(w: Memory, node: map<Home, int>, h: Home)
    requires Linked(w, node) && h in node
    ensures h.Tree? && Depth(h.path) < |node|
  {
    AncestorsPresent(w, node, h);
    SubsetSize(Ancestors(h), node.Keys);
  }

  lemma {:induction false} SubsetSize(a: set<Home>, b: set<Home>)
    requires a <= b
    ensures |a| <= |b|
  {
    if a != {} {
      var x :| x in a;
      SubsetSize(a - {x}, b - {x});
    }
  }

  /** The tree words after r took the place of the node at h. */
  ghost predicate PlaceTaken(w: Memory, w': Memory, size: map<int, nat>, node: map<Home, int>, h: Home, r: int)
    requires h in node && h.Tree? && (h.path.Step? ==> Up(h) in node)
  {
    var x := node[h];
    && (forall p, b :: Roomy(size, p) ==>
          Child(w', p, b) == if p == r then Child(w, x, b)
                             else if h.path.Step? && p == node[Up(h)] && b == h.path.right then r
                             else Child(w, p, b))
    && (forall p :: Roomy(size, p) ==>
          && TreeBin(w', p) == TreeBin(w, p)
          && Parent(w', p) == if p == Child(w, x, false) || p == Child(w, x, true) then r
                              else if p == r then Parent(w, x) else Parent(w, p))
  }

  lemma PlaceTakenLinks(w: Memory, w': Memory, size: map<int, nat>, node: map<Home, int>, h: Home, r: int)
    requires Linked(w, node) && Injective(node, size) && Spaced(size) && h in node
    requires Roomy(size, r) && r !in node.Values
    requires h.path.Step? ==> Up(h) in node
    requires PlaceTaken(w, w', size, node, h, r)
    ensures Linked(w', node[h := r])
  {
    assert NodeLinked(w, node, h);
    forall k | k in node && k != h
      ensures Parent(w', node[k]) == if k.path.Step? && Up(k) == h then r else Parent(w, node[k])
      ensures forall b :: Child(w', node[k], b) == if Kid(k, b) == h then r else Child(w, node[k], b)
    {
      assert NodeLinked(w, node, k);
      assert node[k] in node.Values;
      assert k.path.Step? ==> k == Kid(Up(k), k.path.right);
    }
    NodeReplaced(w, w', node, h, r);
  }

  lemma Transplanted(w: Memory, w1: Memory, w2: Memory, w3: Memory, w4: Memory,
                     size: map<int, nat>, node: map<Home, int>, h: Home, r: int)
    requires h in node && h.Tree? && (h.path.Step? ==> Up(h) in node && node[Up(h)] != r && node[Up(h)] != node[h])
    requires Roomy(size, node[h]) && node[h] != r
    requires if h.path.Step? then ChildSet(w, w1, size, node[Up(h)], h.path.right, r)
             else w1 == w && OnlyBodies(w, w1, size)
    requires ParentSet(w1, w2, size, r, Parent(w, node[h]))
    requires Adopted(w2, w3, size, Child(w2, node[h], false), r, false)
    requires Adopted(w3, w4, size, Child(w3, node[h], true), r, true)
    ensures PlaceTaken(w, w4, size, node, h, r) && SameRingWords(w, w4, size) && OnlyBodies(w, w4, size)
  {
    OnlyBodiesTrans(w, w1, w2, size); OnlyBodiesTrans(w, w2, w3, size); OnlyBodiesTrans(w, w3, w4, size);
  }

  // ------------------------------------------- invariants across a whole unlinking

  lemma MembersLinkable(g: Index, h: Home)
    requires Housed(g) && h in g.rings
    ensures forall i :: 0 <= i < |g.rings[h]| ==> Linkable(g.size, g.rings[h][i])
  {
    assert RingHoused(g, h);
  }

  lemma RingedFrame(w: Memory, w': Memory, g: Index)
    requires Housed(g) && Ringed(w, g) && SameRingWords(w, w', g.size)
    ensures Ringed(w', g)
  {
    forall h | h in g.rings ensures Ring(w', g.rings[h]) {
      assert Ring(w, g.rings[h]);
      MembersLinkable(g, h);
      RingFrame(w, w', g.rings[h]);
    }
  }

  /** Splicing out x: its ring loses exactly x, other rings and all tree words stay. */
  lemma Unchained(w: Memory, w': Memory, g: Index, x: int, k: nat)
    requires Structured(g) && Ringed(w, g) && x in g.home
    requires var s := g.rings[g.home[x]]; |s| >= 2 && k < |s| && s[k] == x
    requires w' == w[BkAt(Fd(w, x)) := Bk(w, x)][FdAt(Bk(w, x)) := Fd(w, x)]
    ensures Ring(w', Without(g.rings[g.home[x]], k))
    ensures forall h :: h in g.rings && h != g.home[x] ==> Ring(w', g.rings[h])
    ensures SameTreeWords(w, w', g.size) && OnlyBodies(w, w', g.size)
  {
    var s, f, r := g.rings[g.home[x]], Fd(w, x), Bk(w, x);
    MembersLinkable(g, g.home[x]);
    assert Ring(w, s);
    assert f == s[Next(s, k)] && r == s[Prev(s, k)];
    StoreFdBk(w, w', g.size, r, f, f, r);
    RingRemove(w, w', s, k);
    forall h | h in g.rings && h != g.home[x] ensures Ring(w', g.rings[h]) {
      OtherRing(w, w', g, g.home[x], h, Next(s, k), Prev(s, k));
    }
    hide Structured, Ring, SameTreeWords, OnlyBodies;
  }

  /** A ring does not notice what happens to the links of two members of another. */
  lemma OtherRing(w: Memory, w': Memory, g: Index, k: Home, h: Home, i: nat, j: nat)
    requires Structured(g) && Ringed(w, g) && k in g.rings && h in g.rings && h != k && i < |g.rings[k]|
    requires j < |g.rings[k]|
    requires forall p :: Linkable(g.size, p) && p != g.rings[k][j] ==> Fd(w', p) == Fd(w, p)
    requires forall p :: Linkable(g.size, p) && p != g.rings[k][i] ==> Bk(w', p) == Bk(w, p)
    ensures Ring(w', g.rings[h])
  {
    assert Ring(w, g.rings[h]);
    MembersLinkable(g, h);
    RingsDisjoint(g, h, k);
    RingFrame(w, w', g.rings[h]);
  }

  lemma RingsDisjoint(g: Index, h: Home, k: Home)
    requires Structured(g) && h in g.rings && k in g.rings && h != k
    ensures forall i, j :: 0 <= i < |g.rings[h]| && 0 <= j < |g.rings[k]| ==> g.rings[h][i] != g.rings[k][j]
  {
    assert RingHoused(g, h) && RingHoused(g, k);
  }

  /** Leaving from behind the node of a chain. */
  lemma TailDropped(w: Memory, w': Memory, g: Index, x: int, k: nat)
    requires Structured(g) && Threaded(w, g) && x in g.home && g.home[x].Tree?
    requires var s := g.rings[g.home[x]]; |s| >= 2 && 0 < k < |s| && s[k] == x
    requires Ring(w', Without(g.rings[g.home[x]], k))
    requires forall h :: h in g.rings && h != g.home[x] ==> Ring(w', g.rings[h])
    requires SameTreeWords(w, w', g.size)
    ensures var g' := Dropped(g, x, Without(g.rings[g.home[x]], k));
      Structured(g') && Threaded(w', g') && Nodes(g'.rings) == Nodes(g.rings)
  {
    var h := g.home[x];
    var s := g.rings[h];
    var t := Without(s, k);
    var g' := Dropped(g, x, t);
    assert Ring(w, s);
    WithoutMembers(s, k);
    DroppedStructured(g, x, t);
    assert Nodes(g'.rings) == Nodes(g.rings);
    NodesInjective(g);
    LinkedFrame(w, w', Nodes(g.rings), g.size);
    TreeChunksRoomy(g);
  }

  lemma TreeChunksRoomy(g: Index)
    requires Structured(g)
    ensures forall p :: p in g.home && g.home[p].Tree? ==> Roomy(g.size, p)
  {
    forall p | p in g.home && g.home[p].Tree? ensures Roomy(g.size, p) {
      assert Fits(g.home[p], g.size[p]);
    }
  }

  lemma WithoutMembers(s: seq<int>, k: nat)
    requires k < |s| && Distinct(s)
    ensures var t := Without(s, k);
      && (forall i :: 0 <= i < |t| ==> t[i] in s && t[i] != s[k])
      && (forall p :: p in s && p != s[k] ==> p in t)
  {
    var t := Without(s, k);
    forall p | p in s && p != s[k] ensures p in t {
      var i :| 0 <= i < |s| && s[i] == p;
      assert t[if i < k then i else i - 1] == p;
    }
  }

  /** The node of a chain leaves and the last of the chain becomes the node. */
  ghost function HeadDropped(g: Index, x: int): Index
    requires x in g.home && g.home[x] in g.rings && |g.rings[g.home[x]]| >= 2
  { Dropped(g, x, Rotated(g.rings[g.home[x]][1..])) }

  ghost predicate HeadsChain(g: Index, x: int) {
    && x in g.home && g.home[x].Tree? && g.home[x] in g.rings
    && |g.rings[g.home[x]]| >= 2 && g.rings[g.home[x]][0] == x
  }

  lemma HeadDroppedIndex(g: Index, x: int, r: int)
    requires Structured(g) && HeadsChain(g, x) && Distinct(g.rings[g.home[x]])
    requires r == g.rings[g.home[x]][|g.rings[g.home[x]]| - 1]
    ensures Structured(HeadDropped(g, x))
    ensures Nodes(HeadDropped(g, x).rings) == Nodes(g.rings)[g.home[x] := r]
    ensures Roomy(g.size, r) && r !in Nodes(g.rings).Values && g.home[r] == g.home[x]
  {
    var h := g.home[x];
    var s := g.rings[h];
    assert RingHoused(g, h);
    RotatedMembers(s);
    DroppedStructured(g, x, Rotated(s[1..]));
    TreeChunksRoomy(g);
    assert s[0] != s[|s| - 1];
    ChainedNotNode(g, r);
  }

  lemma HeadDroppedRings(w1: Memory, w2: Memory, g: Index, x: int)
    requires Structured(g) && HeadsChain(g, x) && Structured(HeadDropped(g, x))
    requires Ring(w1, Without(g.rings[g.home[x]], 0))
    requires forall h :: h in g.rings && h != g.home[x] ==> Ring(w1, g.rings[h])
    requires SameRingWords(w1, w2, g.size)
    ensures Ringed(w2, HeadDropped(g, x))
  {
    var s, g' := g.rings[g.home[x]], HeadDropped(g, x);
    assert Without(s, 0) == s[1..];
    RingRotate(w1, s[1..]);
    forall k | k in g'.rings ensures Ring(w2, g'.rings[k]) {
      MembersLinkable(g', k);
      RingFrame(w1, w2, g'.rings[k]);
    }
  }

  lemma HeadDroppedThreaded(w: Memory, w1: Memory, w2: Memory, g: Index, x: int, r: int)
    requires Structured(g) && Threaded(w, g) && HeadsChain(g, x)
    requires r == g.rings[g.home[x]][|g.rings[g.home[x]]| - 1]
    requires Ring(w1, Without(g.rings[g.home[x]], 0))
    requires forall h :: h in g.rings && h != g.home[x] ==> Ring(w1, g.rings[h])
    requires SameTreeWords(w, w1, g.size) && SameRingWords(w1, w2, g.size)
    requires var h, node := g.home[x], Nodes(g.rings);
      && h in node && (h.path.Step? ==> Up(h) in node) && PlaceTaken(w1, w2, g.size, node, h, r)
    ensures Structured(HeadDropped(g, x)) && Threaded(w2, HeadDropped(g, x))
    ensures Nodes(HeadDropped(g, x).rings) == Nodes(g.rings)[g.home[x] := r]
  {
    var h, node, g' := g.home[x], Nodes(g.rings), HeadDropped(g, x);
    assert Ring(w, g.rings[h]);
    HeadDroppedIndex(g, x, r);
    HeadDroppedRings(w1, w2, g, x);
    NodesInjective(g); TreeChunksRoomy(g);
    LinkedFrame(w, w1, node, g.size);
    PlaceTakenLinks(w1, w2, g.size, node, h, r);
    PlaceTakenOthers(w1, w2, g.size, node, h, r);
    ChainedFrame(w1, w2, g, g', r);
  }

  lemma RotatedMembers(s: seq<int>)
    requires |s| >= 2 && Distinct(s)
    ensures var t := Rotated(s[1..]);
      && t[0] == s[|s| - 1]
      && (forall i :: 0 <= i < |t| ==> t[i] in s && t[i] != s[0])
      && (forall p :: p in s && p != s[0] ==> p in t)
  {
    var t := Rotated(s[1..]);
    forall i | 0 <= i < |t| ensures t[i] in s && t[i] != s[0] {
      assert t[i] == if i == 0 then s[|s| - 1] else s[i];
    }
    forall p | p in s && p != s[0] ensures p in t {
      var i :| 0 <= i < |s| && s[i] == p;
      assert t[if i == |s| - 1 then 0 else i] == p;
    }
  }

  lemma ChainedNotNode(g: Index, r: int)
    requires Structured(g) && r in g.home && g.home[r].Tree? && r != NodeAt(Nodes(g.rings), g.home[r])
    ensures r !in Nodes(g.rings).Values
  {
    var node := Nodes(g.rings);
    forall h | h in node ensures node[h] != r { assert RingHoused(g, h); assert g.rings[h][0] in g.home; }
  }

  /** Chunks that are neither node nor r keep their tree words when r takes the place of x. */
  lemma PlaceTakenOthers(w: Memory, w': Memory, size: map<int, nat>, node: map<Home, int>, h: Home, r: int)
    requires Linked(w, node) && Spaced(size) && h in node && (h.path.Step? ==> Up(h) in node)
    requires PlaceTaken(w, w', size, node, h, r)
    ensures forall p :: Roomy(size, p) && p != r && p !in node.Values ==> SameTree(w, w', p)
  {
    assert NodeLinked(w, node, h);
    assert forall k :: k in node ==> node[k] in node.Values;
  }

  /** Chained chunks stay so when their tree words do. */
  lemma ChainedFrame(w: Memory, w': Memory, g: Index, g': Index, r: int)
    requires Structured(g) && Chained(w, g)
    requires forall p :: p in g'.home && g'.home[p].Tree? ==>
      p in g.home && g.home[p].Tree? && g.home[p].b == g'.home[p].b
    requires forall p :: p in g'.home && g'.home[p].Tree? && p != NodeAt(Nodes(g'.rings), g'.home[p]) ==>
               p != r && p != NodeAt(Nodes(g.rings), g.home[p])
    requires forall p :: Roomy(g.size, p) ==> TreeBin(w', p) == TreeBin(w, p)
    requires forall p :: Roomy(g.size, p) && p != r && p !in Nodes(g.rings).Values ==> SameTree(w, w', p)
    ensures Chained(w', g')
  {
    TreeChunksRoomy(g);
    forall p | p in g'.home && g'.home[p].Tree? && p != NodeAt(Nodes(g'.rings), g'.home[p])
      ensures Unlinked(w', p)
    {
      ChainedNotNode(g, p);
      assert SameTree(w, w', p);
    }
  }

  /** The node at k, a leaf, was unhooked from its parent. */
  lemma LeafUnhooked(w: Memory, w': Memory, size: map<int, nat>, node: map<Home, int>, k: Home)
    requires Linked(w, node) && Injective(node, size) && k in node && k.path.Step? && Up(k) in node
    requires Kid(k, false) !in node && Kid(k, true) !in node
    requires ChildSet(w, w', size, node[Up(k)], k.path.right, 0)
    ensures Linked(w', Pruned(node, k))
  {
    assert forall j :: j in node && j.path.Step? ==> j == Kid(Up(j), j.path.right);
    LeafCut(w, w', node, k);
  }

  lemma VacatedThreaded(w: Memory, w': Memory, g: Index, x: int)
    requires Structured(g) && Threaded(w, g) && x in g.home && g.home[x].Tree? && g.rings[g.home[x]] == [x]
    requires var h, node := g.home[x], Nodes(g.rings);
      && h in node && Kid(h, false) !in node && Kid(h, true) !in node
      && if h.path.Root? then w' == w
         else Up(h) in node && ChildSet(w, w', g.size, node[Up(h)], h.path.right, 0)
    ensures Structured(Vacated(g, x)) && Threaded(w', Vacated(g, x))
    ensures Nodes(Vacated(g, x).rings) == Pruned(Nodes(g.rings), g.home[x])
  {
    var h, node, g' := g.home[x], Nodes(g.rings), Vacated(g, x);
    VacatedStructured(g, x);
    assert Nodes(g'.rings) == Pruned(node, h);
    NodesInjective(g);
    if h.path.Root? {
      LeafCut(w, w', node, h);
    } else {
      LeafUnhooked(w, w', g.size, node, h);
      RingedFrame(w, w', g);
      ChildSetOthers(w, w', g.size, node, Up(h), h.path.right, 0);
    }
    ChainedFrame(w, w', g, g', x);
  }

  lemma ChildSetOthers(w: Memory, w': Memory, size: map<int, nat>, node: map<Home, int>, k: Home, b: bool, v: int)
    requires k in node && ChildSet(w, w', size, node[k], b, v)
    ensures forall p :: Roomy(size, p) && p !in node.Values ==> SameTree(w, w', p)
  {
    assert node[k] in node.Values;
  }

  /** Chunk x alone is the node at h, and k is the place of a leaf under it. */
  ghost predicate LeafUnder(g: Index, node: map<Home, int>, x: int, h: Home, k: Home) {
    && x in g.home && g.home[x] == h && h.Tree? && k.Tree? && h in g.rings && g.rings[h] == [x]
    && h in node && k in node && k != h && k.b == h.b && Below(k.path, h.path)
    && k.path.Step? && Up(k) in node && Kid(k, false) !in node && Kid(k, true) !in node
    && (h.path.Step? ==> Up(h) in node && Up(h) != k)
  }

  lemma MovedThreaded(w: Memory, w1: Memory, w2: Memory, g: Index, node: map<Home, int>, x: int, h: Home, k: Home)
    requires Structured(g) && Threaded(w, g) && node == Nodes(g.rings) && LeafUnder(g, node, x, h, k)
    requires ChildSet(w, w1, g.size, node[Up(k)], k.path.right, 0)
    requires PlaceTaken(w1, w2, g.size, Pruned(node, k), h, node[k]) && SameRingWords(w1, w2, g.size)
    ensures Structured(Moved(g, x, k)) && Threaded(w2, Moved(g, x, k))
    ensures Nodes(Moved(g, x, k).rings) == Pruned(node, k)[h := node[k]]
  {
    MovedStructured(g, x, k);
    MovedNodes(g, node, x, h, k);
    MovedLinked(w, w1, w2, g, node, h, k);
    MovedRings(w, w1, w2, g, x, k);
    MovedChained(w, w1, w2, g, node, x, h, k);
  }

  lemma MovedNodes(g: Index, node: map<Home, int>, x: int, h: Home, k: Home)
    requires Housed(g) && node == Nodes(g.rings) && LeafUnder(g, node, x, h, k)
    ensures Nodes(Moved(g, x, k).rings) == Pruned(node, k)[h := node[k]]
  {
    assert RingHoused(g, k);
    assert Nodes(Moved(g, x, k).rings) == Pruned(node, k)[h := node[k]];
  }

  lemma MovedLinked(w: Memory, w1: Memory, w2: Memory, g: Index, node: map<Home, int>, h: Home, k: Home)
    requires Structured(g) && Linked(w, node) && node == Nodes(g.rings) && h in node && k in node && h != k
    requires k.path.Step? && Up(k) in node && Kid(k, false) !in node && Kid(k, true) !in node
    requires ChildSet(w, w1, g.size, node[Up(k)], k.path.right, 0)
    requires h.path.Step? ==> Up(h) in node && Up(h) != k
    requires PlaceTaken(w1, w2, g.size, Pruned(node, k), h, node[k])
    ensures Linked(w1, Pruned(node, k)) && Linked(w2, Pruned(node, k)[h := node[k]])
  {
    NodesInjective(g);
    LeafUnhooked(w, w1, g.size, node, k);
    PlaceTakenLinks(w1, w2, g.size, Pruned(node, k), h, node[k]);
  }

  lemma MovedRings(w: Memory, w1: Memory, w2: Memory, g: Index, x: int, k: Home)
    requires Structured(g) && Ringed(w, g) && x in g.home && k in g.rings
    requires SameRingWords(w, w1, g.size) && SameRingWords(w1, w2, g.size)
    ensures Ringed(w2, Moved(g, x, k))
  {
    RingedFrame(w, w1, g);
    RingedFrame(w1, w2, g);
  }

  lemma MovedOthers(w: Memory, w1: Memory, w2: Memory, size: map<int, nat>, node: map<Home, int>, h: Home, k: Home)
    requires Linked(w1, Pruned(node, k)) && Spaced(size) && h in node && k in node && h != k && h.Tree? && k.Tree?
    requires k.path.Step? && Up(k) in node
    requires ChildSet(w, w1, size, node[Up(k)], k.path.right, 0)
    requires h.path.Step? ==> Up(h) in node && Up(h) != k
    requires PlaceTaken(w1, w2, size, Pruned(node, k), h, node[k])
    ensures forall p :: Roomy(size, p) && p != node[k] && p !in node.Values ==> SameTree(w, w2, p)
    ensures forall p :: Roomy(size, p) ==> TreeBin(w2, p) == TreeBin(w, p)
  {
    ChildSetOthers(w, w1, size, node, Up(k), k.path.right, 0);
    PlaceTakenOthers(w1, w2, size, Pruned(node, k), h, node[k]);
    forall p | Roomy(size, p) && p != node[k] && p !in node.Values ensures SameTree(w, w2, p) {
      assert p !in Pruned(node, k).Values;
      assert SameTree(w, w1, p) && SameTree(w1, w2, p);
    }
  }

  lemma MovedChained(w: Memory, w1: Memory, w2: Memory, g: Index, node: map<Home, int>, x: int, h: Home, k: Home)
    requires Structured(g) && Chained(w, g) && node == Nodes(g.rings) && LeafUnder(g, node, x, h, k)
    requires Linked(w1, Pruned(node, k))
    requires ChildSet(w, w1, g.size, node[Up(k)], k.path.right, 0)
    requires PlaceTaken(w1, w2, g.size, Pruned(node, k), h, node[k])
    requires Nodes(Moved(g, x, k).rings) == Pruned(node, k)[h := node[k]]
    ensures Chained(w2, Moved(g, x, k))
  {
    MovedOthers(w, w1, w2, g.size, node, h, k);
    MovedMembers(g, node, x, h, k);
    ChainedFrame(w, w2, g, Moved(g, x, k), node[k]);
  }

  lemma MovedMembers(g: Index, node: map<Home, int>, x: int, h: Home, k: Home)
    requires Structured(g) && node == Nodes(g.rings) && LeafUnder(g, node, x, h, k)
    requires Nodes(Moved(g, x, k).rings) == Pruned(node, k)[h := node[k]]
    ensures var g' := Moved(g, x, k);
      forall p :: p in g'.home && g'.home[p].Tree? ==>
        && p in g.home && g.home[p].Tree? && g.home[p].b == g'.home[p].b
        && (p != NodeAt(Nodes(g'.rings), g'.home[p]) ==> p != node[k] && p != NodeAt(node, g.home[p]))
  {
    var g' := Moved(g, x, k);
    assert RingHoused(g, k);
    assert g.rings[k][0] in g.home && g.home[node[k]] == k;
    forall p | p in g'.home && g'.home[p].Tree?
      ensures p in g.home && g.home[p].Tree? && g.home[p].b == g'.home[p].b
      ensures p != NodeAt(Nodes(g'.rings), g'.home[p]) ==> p != node[k] && p != NodeAt(node, g.home[p])
    {
      assert p in g.rings[g.home[p]];
      if g.home[p] == k { assert g'.home[p] == h; }
    }
  }

  /** The node at h changed to r and perhaps a deeper one went: only a root shows in the bins. */
  lemma MappedAfterTaking(sm: Binmap, tm: Binmap, tb: seq<int>, tb': seq<int>, g: Index, g': Index, h: Home, r: int)
    requires Mapped(sm, tm, tb, g) && h.Tree? && h.b < 32 && h in g.rings
    requires tb' == if h.path.Root? then tb[h.b := r] else tb
    requires forall i :: Small(i) in g'.rings <==> Small(i) in g.rings
    requires forall i :: Tree(i, Root) in g'.rings <==> Tree(i, Root) in g.rings
    requires forall i :: NodeAt(Nodes(g'.rings), Tree(i, Root)) ==
               if Tree(i, Root) == h then r else NodeAt(Nodes(g.rings), Tree(i, Root))
    ensures Mapped(sm, tm, tb', g')
  {}

  lemma MappedAfterVacating(sm: Binmap, tm: Binmap, tm': Binmap, tb: seq<int>, tb': seq<int>, g: Index, x: int)
    requires Mapped(sm, tm, tb, g) && x in g.home && g.home[x].Tree? && g.home[x].b < 32
    requires var h := g.home[x];
      if h.path.Root? then tb' == tb[h.b := 0] && tm' == tm[h.b := false] else tb' == tb && tm' == tm
    ensures Mapped(sm, tm', tb', Vacated(g, x))
  {}

  lemma MappedAfterMoving(sm: Binmap, tm: Binmap, tb: seq<int>, tb': seq<int>, g: Index,
                          node: map<Home, int>, x: int, h: Home, k: Home)
    requires Housed(g) && Mapped(sm, tm, tb, g) && node == Nodes(g.rings) && LeafUnder(g, node, x, h, k)
    requires h.b < 32 && tb' == if h.path.Root? then tb[h.b := node[k]] else tb
    ensures Mapped(sm, tm, tb', Moved(g, x, k))
  {
    MovedNodes(g, node, x, h, k);
    MappedAfterTaking(sm, tm, tb, tb', g, Moved(g, x, k), h, node[k]);
  }

  // ------------------------------------------------------------ walking by size

  /** The head words of binned chunks carry their sizes. */
  ghost predicate Sized(w: Memory, size: map<int, nat>)
  { forall p :: p in size ==> ChunkSize(w, p) == size[p] }

  /** Two paths that follow the same word are comparable. */
  lemma {:induction false} FollowsComparable(w: nat, p: Path, q: Path)
    requires w < LIMIT && Follows(w, p) && Follows(w, q) && Depth(p) >= Depth(q)
    ensures Below(p, q)
    decreases p
  {
    if Depth(p) > Depth(q) {
      FollowsComparable(w, p.up, q);
    } else if p.Step? {
      FollowsComparable(w, p.up, q.up);
      SameDepthEqual(p.up, q.up);
    }
  }

  lemma {:induction false} SameDepthEqual(p: Path, q: Path)
    requires Below(p, q) && Depth(p) == Depth(q)
    ensures p == q
  {
    if p != q { BelowDepth(p.up, q); }
  }

  lemma {:induction false} BelowDepth(p: Path, q: Path)
    requires Below(p, q)
    ensures Depth(p) >= Depth(q)
  {
    if p != q { BelowDepth(p.up, q); }
  }

  /** Every place above a node holds a node. */
  lemma {:induction false} NodesAbove(w: Memory, node: map<Home, int>, h: Home, q: Path)
    requires Linked(w, node) && h in node && Below(h.path, q)
    ensures Tree(h.b, q) in node
    decreases h.path
  {
    if h.path != q {
      assert NodeLinked(w, node, h);
      NodesAbove(w, node, Up(h), q);
    }
  }

  /** No tree chunk has the given size. */
  ghost predicate SizeAbsent(g: Index, size: nat) requires g.home.Keys == g.size.Keys
  { forall p :: p in g.home && g.home[p].Tree? ==> g.size[p] != size }

  /** On the way to place p of tree b, no node up to and including p had the given size. */
  ghost predicate Passed(size: map<int, nat>, node: map<Home, int>, n: nat, b: nat, p: Path) {
    && (Tree(b, p) in node ==> node[Tree(b, p)] in size && size[node[Tree(b, p)]] != n)
    && (p.Step? ==> Passed(size, node, n, b, p.up))
  }

  lemma {:induction false} PassedAbove(size: map<int, nat>, node: map<Home, int>, n: nat, b: nat, p: Path, q: Path)
    requires Passed(size, node, n, b, p) && Below(p, q) && Tree(b, q) in node
    ensures node[Tree(b, q)] in size && size[node[Tree(b, q)]] != n
  {
    if p != q { PassedAbove(size, node, n, b, p.up, q); }
  }

  /** The walk for a size ended at node h, whose slot on that side is free. */
  lemma WalkMissed(w: Memory, g: Index, node: map<Home, int>, size: nat, h: Home, right: bool)
    requires Structured(g) && Linked(w, node) && node == Nodes(g.rings) && h in node && Kid(h, right) !in node
    requires 256 <= size < LIMIT && h.b == TreeIndex(size)
    requires Follows(SizeBits(size, h.b), Step(h.path, right))
    requires Passed(g.size, node, size, h.b, h.path)
    ensures SizeAbsent(g, size)
  {
    forall p | p in g.home && g.home[p].Tree? ensures g.size[p] != size {
      if g.size[p] == size {
        var k := g.home[p];
        assert Fits(k, size) by { assert Fits(g.home[p], g.size[p]); }
        assert k in node && node[k] in g.home && g.home[node[k]] == k by {
          assert RingHoused(g, k);
          assert g.rings[k][0] in g.home;
        }
        assert k == Tree(h.b, k.path);
        var n := node[k];
        assert n in g.home && g.home[n] == g.home[p];
        assert OneNode(g, n, p);
        var bits := SizeBits(size, h.b);
        if Depth(k.path) > Depth(h.path) {
          FollowsComparable(bits, k.path, Step(h.path, right));
          NodesAbove(w, node, k, Step(h.path, right));
        } else {
          FollowsComparable(bits, h.path, k.path);
          PassedAbove(g.size, node, size, h.b, h.path, k.path);
        }
        assert false;
      }
    }
  }

  lemma StepFollows(w: nat, p: Path)
    requires w < LIMIT && Follows(w, p)
    ensures Follows(w, Step(p, Msb(w, Depth(p))))
  {}

  // ------------------------------------------------ invariants across an insertion

  /** x, a fresh tree chunk without children, hangs in slot h as a ring of its own. */
  ghost predicate Hung(w: Memory, w': Memory, size: map<int, nat>, node: map<Home, int>, x: int, h: Home) {
    && h.Tree? && (h.path.Step? ==> Up(h) in node)
    && SameRingWords(w, w', size) && Fd(w', x) == x && Bk(w', x) == x
    && Child(w', x, false) == 0 && Child(w', x, true) == 0 && TreeBin(w', x) == h.b
    && Parent(w', x) == (if h.path.Root? then TreeBinAt(h.b) else node[Up(h)])
    && (forall p, c :: Roomy(size, p) ==>
          Child(w', p, c) == if h.path.Step? && p == node[Up(h)] && c == h.path.right then x else Child(w, p, c))
    && (forall p :: Roomy(size, p) ==> Parent(w', p) == Parent(w, p) && TreeBin(w', p) == TreeBin(w, p))
  }

  lemma HungThreaded(w: Memory, w': Memory, g: Index, node: map<Home, int>, x: int, size: nat, h: Home)
    requires Structured(g) && Threaded(w, g) && node == Nodes(g.rings)
    requires x !in g.size && Spaced(g.size[x := size]) && Fits(h, size) && SizeAbsent(g, size)
    requires h !in g.rings && Hung(w, w', g.size, node, x, h)
    ensures Structured(Joined(g, x, size, h, [x])) && Threaded(w', Joined(g, x, size, h, [x]))
    ensures Nodes(Joined(g, x, size, h, [x]).rings) == node[h := x]
  {
    var g' := Joined(g, x, size, h, [x]);
    assert forall p :: p in g.home && g.home[p].Tree? ==> g.home[p] != h;
    JoinedStructured(g, x, size, h, [x]);
    assert Nodes(g'.rings) == node[h := x];
    NodesInjective(g);
    HungLinked(w, w', g.size, node, x, h);
    RingedFrame(w, w', g);
    TreeChunksRoomy(g);
    HungChained(w, w', g, node, x, size, h);
    assert Ring(w', [x]);
    forall k | k in g'.rings ensures Ring(w', g'.rings[k]) {
      if k != h { assert Ring(w', g.rings[k]); }
    }
  }

  lemma KidHasParent(w: Memory, node: map<Home, int>, h: Home, right: bool)
    requires Linked(w, node) && h.Tree?
    ensures Kid(h, right) in node ==> h in node
  {
    if Kid(h, right) in node { assert NodeLinked(w, node, Kid(h, right)); }
  }

  lemma HungLinked(w: Memory, w': Memory, size: map<int, nat>, node: map<Home, int>, x: int, h: Home)
    requires Linked(w, node) && Injective(node, size) && h !in node && Hung(w, w', size, node, x, h)
    ensures Linked(w', node[h := x])
  {
    KidHasParent(w, node, h, false); KidHasParent(w, node, h, true);
    forall k, r | k in node ensures Child(w', node[k], r) == if Kid(k, r) == h then x else Child(w, node[k], r) {
      assert h.path.Step? ==> h == Kid(Up(h), h.path.right);
      assert Roomy(size, node[k]);
    }
    LeafAdded(w, w', node, h, x);
  }

  lemma HungChained(w: Memory, w': Memory, g: Index, node: map<Home, int>, x: int, size: nat, h: Home)
    requires Structured(g) && Chained(w, g) && node == Nodes(g.rings) && h !in g.rings && x !in g.size
    requires Hung(w, w', g.size, node, x, h) && Nodes(Joined(g, x, size, h, [x]).rings) == node[h := x]
    ensures Chained(w', Joined(g, x, size, h, [x]))
  {
    var g' := Joined(g, x, size, h, [x]);
    TreeChunksRoomy(g);
    forall p | p in g.home && g.home[p].Tree?
      ensures TreeBin(w', p) == g.home[p].b && (p != NodeAt(node[h := x], g.home[p]) ==> Unlinked(w', p))
    {
      assert g.home[p] != h;
      if p != NodeAt(node, g.home[p]) {
        ChainedNotNode(g, p);
        assert h.path.Step? ==> node[Up(h)] in node.Values;
      }
    }
  }

  /** x stands right behind t on its ring. */
  ghost predicate Behind(w: Memory, w': Memory, size: map<int, nat>, t: int, x: int) {
    && Fd(w', x) == Fd(w, t) && Bk(w', x) == t
    && (forall p :: Linkable(size, p) ==> Fd(w', p) == if p == t then x else Fd(w, p))
    && (forall p :: Linkable(size, p) ==> Bk(w', p) == if p == Fd(w, t) then x else Bk(w, p))
  }

  lemma BehindRinged(w: Memory, w': Memory, g: Index, h: Home, x: int, size: nat)
    requires Structured(g) && Ringed(w, g) && h in g.rings && !Linkable(g.size, x)
    requires Behind(w, w', g.size, g.rings[h][0], x)
    ensures Ringed(w', Joined(g, x, size, h, Inserted(g.rings[h], x)))
  {
    BehindOwn(w, w', g, h, x);
    forall k | k in g.rings && k != h ensures Ring(w', g.rings[k]) { BehindOther(w, w', g, h, k, x); }
  }

  lemma BehindOwn(w: Memory, w': Memory, g: Index, h: Home, x: int)
    requires Structured(g) && Ringed(w, g) && h in g.rings && !Linkable(g.size, x)
    requires Behind(w, w', g.size, g.rings[h][0], x)
    ensures Ring(w', Inserted(g.rings[h], x))
  {
    var s := g.rings[h];
    assert Ring(w, s);
    MembersLinkable(g, h);
    hide Structured, Ringed, Linkable, Inserted;
    RingInsert(w, w', s, x);
  }

  lemma BehindOther(w: Memory, w': Memory, g: Index, h: Home, k: Home, x: int)
    requires Structured(g) && Ringed(w, g) && h in g.rings && k in g.rings && k != h
    requires Behind(w, w', g.size, g.rings[h][0], x)
    ensures Ring(w', g.rings[k])
  {
    var s, t := g.rings[h], g.rings[k];
    assert Ring(w, s) && Ring(w, t);
    MembersLinkable(g, k);
    RingsDisjoint(g, k, h);
    RingAgrees(w, s, 0);
    hide Structured, Ringed, Linkable;
    forall i | 0 <= i < |t| ensures Fd(w', t[i]) == Fd(w, t[i]) && Bk(w', t[i]) == Bk(w, t[i]) {
      assert Linkable(g.size, t[i]) && t[i] != s[0] && t[i] != s[Next(s, 0)];
    }
    RingFrame(w, w', t);
  }

  lemma BehindThreaded(w: Memory, w': Memory, g: Index, h: Home, x: int, size: nat)
    requires Structured(g) && Threaded(w, g) && h in g.rings && h.Tree?
    requires x !in g.size && Spaced(g.size[x := size]) && Fits(h, size)
    requires var t := g.rings[h][0]; t in g.size && g.size[t] == size && Behind(w, w', g.size, t, x)
    requires SameTreeWords(w, w', g.size) && Unlinked(w', x) && TreeBin(w', x) == h.b
    ensures var g' := Joined(g, x, size, h, Inserted(g.rings[h], x));
      Structured(g') && Threaded(w', g') && Nodes(g'.rings) == Nodes(g.rings)
  {
    var s := g.rings[h];
    var g' := Joined(g, x, size, h, Inserted(s, x));
    assert RingHoused(g, h);
    assert x > 0 by { assert x in g.size[x := size]; }
    forall p | p in g.home && g.home[p].Tree? ensures g.size[p] == size <==> g.home[p] == h {
      assert OneNode(g, p, s[0]);
    }
    JoinedStructured(g, x, size, h, Inserted(s, x));
    BehindRinged(w, w', g, h, x, size);
    assert Nodes(g'.rings) == Nodes(g.rings);
    NodesInjective(g);
    LinkedFrame(w, w', Nodes(g.rings), g.size);
    TreeChunksRoomy(g);
  }

  /** Only words in the body of chunk x, n bytes long, differ. */
  ghost predicate OwnBody(w: Memory, w': Memory, x: int, n: nat)
  { forall a :: Rd(w', a) != Rd(w, a) ==> x + 16 <= a < x + n }

  lemma OwnBodyFrame(w: Memory, w': Memory, size: map<int, nat>, x: int, n: nat)
    requires Spaced(size[x := n]) && x !in size && OwnBody(w, w', x, n)
    ensures SameRingWords(w, w', size) && SameTreeWords(w, w', size)
    ensures OnlyBodies(w, w', size[x := n])
  {
    var size' := size[x := n];
    assert x in size' && size'[x] == n;
    forall p | Linkable(size, p) ensures p in size ==> size[p] >= 32 && (p + size[p] <= x || x + n <= p) {
      if p in size { assert p in size' && size'[p] == size[p] && Apart(size', p, x); }
    }
  }

  /** Stores into the body of a chunk outside the index do not disturb the index. */
  lemma OwnBodyThreaded(w: Memory, w': Memory, g: Index, x: int, n: nat)
    requires Structured(g) && Threaded(w, g) && Sized(w, g.size)
    requires Spaced(g.size[x := n]) && x !in g.size && OwnBody(w, w', x, n)
    ensures Threaded(w', g) && Sized(w', g.size)
  {
    OwnBodyFrame(w, w', g.size, x, n);
    RingedFrame(w, w', g);
    NodesInjective(g);
    LinkedFrame(w, w', Nodes(g.rings), g.size);
    TreeChunksRoomy(g);
    OwnBodyHeads(w, w', g.size, x, n);
  }

  lemma OwnBodyHeads(w: Memory, w': Memory, size: map<int, nat>, x: int, n: nat)
    requires Spaced(size[x := n]) && x !in size && OwnBody(w, w', x, n) && Sized(w, size)
    ensures Sized(w', size)
  {
    var size' := size[x := n];
    assert x in size' && size'[x] == n;
    forall p | p in size ensures ChunkSize(w', p) == size[p] {
      assert p in size' && size'[p] == size[p] && Apart(size', p, x);
      assert Rd(w', HeadAt(p)) == Rd(w, HeadAt(p));
    }
  }

  /** The last stores of an insertion: x, already cleared, is linked to itself and its parent. */
  lemma SelfLinked(w: Memory, w': Memory, size: map<int, nat>, x: int, n: nat, v: int)
    requires Spaced(size[x := n]) && x !in size && n >= 256
    requires w' == w[ParentAt(x) := v][BkAt(x) := x][FdAt(x) := x]
    ensures SameRingWords(w, w', size) && SameTreeWords(w, w', size) && OnlyBodies(w, w', size[x := n])
    ensures Fd(w', x) == x && Bk(w', x) == x && Parent(w', x) == v
    ensures Child(w', x, false) == Child(w, x, false) && Child(w', x, true) == Child(w, x, true)
    ensures TreeBin(w', x) == TreeBin(w, x)
  {
    OwnBodyFrame(w, w', size, x, n);
  }

  lemma {:induction false} RootAbove(w: Memory, node: map<Home, int>, h: Home)
    requires Linked(w, node) && h in node
    ensures Tree(h.b, Root) in node
    decreases h.path
  {
    assert NodeLinked(w, node, h);
    if h.path.Step? { RootAbove(w, node, Up(h)); }
  }

  /** Nothing of a size lives in a tree without root. */
  lemma BinEmpty(w: Memory, g: Index, i: nat, size: nat)
    requires Structured(g) && Linked(w, Nodes(g.rings)) && Tree(i, Root) !in g.rings
    requires 256 <= size < LIMIT && i == TreeIndex(size)
    ensures SizeAbsent(g, size)
  {
    forall p | p in g.home && g.home[p].Tree? ensures g.size[p] != size {
      assert Fits(g.home[p], g.size[p]);
      assert g.home[p] in Nodes(g.rings);
      RootAbove(w, Nodes(g.rings), g.home[p]);
    }
  }

  lemma MappedAfterRoot(sm: Binmap, tm: Binmap, tb: seq<int>, g: Index, x: int, size: nat, i: nat)
    requires Mapped(sm, tm, tb, g) && i < 32
    requires Nodes(Joined(g, x, size, Tree(i, Root), [x]).rings) == Nodes(g.rings)[Tree(i, Root) := x]
    ensures Mapped(sm, tm[i := true], tb[i := x], Joined(g, x, size, Tree(i, Root), [x]))
  {}

  lemma RootHung(w: Memory, w': Memory, g: Index, node: map<Home, int>, x: int, size: nat, i: nat)
    requires Spaced(g.size[x := size]) && x !in g.size && size >= 256
    requires TreeBin(w, x) == i && Child(w, x, false) == 0 && Child(w, x, true) == 0
    requires w' == w[ParentAt(x) := TreeBinAt(i)][BkAt(x) := x][FdAt(x) := x]
    ensures Hung(w, w', g.size, node, x, Tree(i, Root)) && OnlyBodies(w, w', g.size[x := size])
  {
    SelfLinked(w, w', g.size, x, size, TreeBinAt(i));
    forall p, c | Roomy(g.size, p) ensures Child(w', p, c) == Child(w, p, c) {
      assert SameTree(w, w', p);
    }
  }

  lemma LeafHung(w: Memory, w1: Memory, w': Memory, g: Index, node: map<Home, int>, x: int, size: nat, h: Home,
                 right: bool)
    requires Spaced(g.size[x := size]) && x !in g.size && size >= 256
    requires h.Tree? && h in node && Roomy(g.size, node[h])
    requires TreeBin(w, x) == h.b && Child(w, x, false) == 0 && Child(w, x, true) == 0
    requires w1 == w[ChildAt(node[h], right) := x]
    requires w' == w1[ParentAt(x) := node[h]][BkAt(x) := x][FdAt(x) := x]
    ensures Hung(w, w', g.size, node, x, Kid(h, right)) && OnlyBodies(w, w', g.size[x := size])
  {
    var size' := g.size[x := size];
    StoreChild(w, w1, size', node[h], right, x);
    SelfLinked(w1, w', g.size, x, size, node[h]);
    OnlyBodiesTrans(w, w1, w', size');
    assert Roomy(size', x) && Roomy(size', node[h]);
    forall p, c | Roomy(g.size, p)
      ensures Child(w', p, c) == if p == node[h] && c == right then x else Child(w, p, c)
      ensures Parent(w', p) == Parent(w, p) && TreeBin(w', p) == TreeBin(w, p)
    {
      assert Roomy(size', p) && SameTree(w1, w', p);
    }
    forall p | Linkable(g.size, p) ensures Fd(w', p) == Fd(w, p) && Bk(w', p) == Bk(w, p) {
      assert Linkable(size', p);
    }
  }

  lemma MappedAfterLeaf(sm: Binmap, tm: Binmap, tb: seq<int>, g: Index, x: int, size: nat, h: Home)
    requires Mapped(sm, tm, tb, g) && h.Tree? && h.path.Step?
    requires Nodes(Joined(g, x, size, h, [x]).rings) == Nodes(g.rings)[h := x]
    ensures Mapped(sm, tm, tb, Joined(g, x, size, h, [x]))
  {}

  lemma BehindStores(w: Memory, w': Memory, g: Index, x: int, size: nat, t: int, f: int)
    requires Spaced(g.size[x := size]) && x !in g.size && size >= 256 && t in g.size && f in g.size && f == Fd(w, t)
    requires w' == w[BkAt(f) := x][FdAt(t) := x][FdAt(x) := f][BkAt(x) := t][ParentAt(x) := 0]
    ensures Behind(w, w', g.size, t, x) && SameTreeWords(w, w', g.size) && OnlyBodies(w, w', g.size[x := size])
    ensures Parent(w', x) == 0 && TreeBin(w', x) == TreeBin(w, x)
    ensures Child(w', x, false) == Child(w, x, false) && Child(w', x, true) == Child(w, x, true)
  {
    var size' := g.size[x := size];
    var w1 := w[BkAt(f) := x][FdAt(t) := x];
    StoreFdBk(w, w1, size', t, f, x, x);
    OwnBodyFrame(w1, w', g.size, x, size);
    OnlyBodiesTrans(w, w1, w', size');
    forall p | Linkable(g.size, p) ensures Linkable(size', p) {}
    forall p | Roomy(g.size, p) ensures SameTree(w, w', p) {
      assert Roomy(size', p) && SameTree(w, w1, p) && SameTree(w1, w', p);
    }
    assert Roomy(size', x) && SameTree(w, w1, x);
  }

  // ------------------------------------------------------------------ small bins

  lemma SmallBehindThreaded(w: Memory, w': Memory, g: Index, i: nat, x: int, size: nat)
    requires Structured(g) && Threaded(w, g) && Small(i) in g.rings
    requires x !in g.size && Spaced(g.size[x := size]) && Fits(Small(i), size)
    requires Behind(w, w', g.size, SmallBinAt(i), x) && SameTreeWords(w, w', g.size)
    ensures var g' := Joined(g, x, size, Small(i), Inserted(g.rings[Small(i)], x));
      Structured(g') && Threaded(w', g') && Nodes(g'.rings) == Nodes(g.rings)
  {
    var h := Small(i);
    var s := g.rings[h];
    var g' := Joined(g, x, size, h, Inserted(s, x));
    assert RingHoused(g, h);
    assert x > 0 by { assert x in g.size[x := size]; }
    JoinedStructured(g, x, size, h, Inserted(s, x));
    BehindRinged(w, w', g, h, x, size);
    assert Nodes(g'.rings) == Nodes(g.rings);
    NodesInjective(g);
    LinkedFrame(w, w', Nodes(g.rings), g.size);
    TreeChunksRoomy(g);
  }

  /** An empty small bin gets its first chunk; the header links may be stale before. */
  lemma SmallFirstThreaded(w: Memory, w': Memory, g: Index, i: nat, x: int, size: nat)
    requires Structured(g) && Threaded(w, g) && Small(i) !in g.rings && i < 32
    requires x !in g.size && Spaced(g.size[x := size]) && Fits(Small(i), size)
    requires var b := SmallBinAt(i); Fd(w', b) == x && Bk(w', b) == x && Fd(w', x) == b && Bk(w', x) == b
    requires forall p :: Linkable(g.size, p) && p != SmallBinAt(i) ==> Fd(w', p) == Fd(w, p) && Bk(w', p) == Bk(w, p)
    requires SameTreeWords(w, w', g.size)
    ensures var g' := Joined(g, x, size, Small(i), [SmallBinAt(i), x]);
      Structured(g') && Threaded(w', g') && Nodes(g'.rings) == Nodes(g.rings)
  {
    var h, b := Small(i), SmallBinAt(i);
    var g' := Joined(g, x, size, h, [b, x]);
    assert x > 0 by { assert x in g.size[x := size]; }
    JoinedStructured(g, x, size, h, [b, x]);
    assert Nodes(g'.rings) == Nodes(g.rings);
    NodesInjective(g);
    LinkedFrame(w, w', Nodes(g.rings), g.size);
    TreeChunksRoomy(g);
    assert Ring(w', [b, x]);
    forall k | k in g.rings ensures Ring(w', g.rings[k]) { RingWithoutHeader(w, w', g, i, k); }
    hide Linked, Structured, Ring;
  }

  /** The header of an empty small bin is on no ring. */
  lemma RingWithoutHeader(w: Memory, w': Memory, g: Index, i: nat, k: Home)
    requires Structured(g) && Ringed(w, g) && Small(i) !in g.rings && i < 32 && k in g.rings
    requires forall p :: Linkable(g.size, p) && p != SmallBinAt(i) ==> Fd(w', p) == Fd(w, p) && Bk(w', p) == Bk(w, p)
    ensures Ring(w', g.rings[k])
  {
    MembersLinkable(g, k);
    assert Ring(w, g.rings[k]) && RingHoused(g, k);
    RingFrame(w, w', g.rings[k]);
  }

  /** Stores of insert_small_chunk: x between header b and its successor f. */
  lemma SmallStores(w: Memory, w': Memory, g: Index, x: int, size: nat, b: int, f: int)
    requires Spaced(g.size[x := size]) && x !in g.size && size >= 32
    requires Linkable(g.size, b) && Linkable(g.size, f)
    requires w' == w[FdAt(b) := x][BkAt(f) := x][FdAt(x) := f][BkAt(x) := b]
    ensures Fd(w', x) == f && Bk(w', x) == b
    ensures forall p :: Linkable(g.size, p) ==> Fd(w', p) == if p == b then x else Fd(w, p)
    ensures forall p :: Linkable(g.size, p) ==> Bk(w', p) == if p == f then x else Bk(w, p)
    ensures SameTreeWords(w, w', g.size)
  {
    var size' := g.size[x := size];
    var w1 := w[FdAt(b) := x][BkAt(f) := x];
    StoreFdBk(w, w1, size', b, f, x, x);
    OwnBodyFrame(w1, w', g.size, x, size);
    forall p | Linkable(g.size, p) ensures Linkable(size', p) {}
    forall p | Roomy(g.size, p) ensures SameTree(w, w', p) {
      assert Roomy(size', p) && SameTree(w, w1, p) && SameTree(w1, w', p);
    }
  }

  lemma SmallStoresBodies(w: Memory, w': Memory, g: Index, x: int, size: nat, b: int, f: int)
    requires Spaced(g.size[x := size]) && x !in g.size && size >= 32
    requires Linkable(g.size, b) && Linkable(g.size, f)
    requires w' == w[FdAt(b) := x][BkAt(f) := x][FdAt(x) := f][BkAt(x) := b]
    ensures OnlyBodies(w, w', g.size[x := size])
  {
    var size' := g.size[x := size];
    var w1 := w[FdAt(b) := x][BkAt(f) := x];
    StoreFdBk(w, w1, size', b, f, x, x);
    OwnBodyFrame(w1, w', g.size, x, size);
    OnlyBodiesTrans(w, w1, w', size');
  }

  lemma MappedAfterSmall(sm: Binmap, tm: Binmap, tb: seq<int>, g: Index, x: int, size: nat, i: nat, t: seq<int>)
    requires Mapped(sm, tm, tb, g) && i < 32
    requires Nodes(Joined(g, x, size, Small(i), t).rings) == Nodes(g.rings)
    ensures Mapped(sm[i := true], tm, tb, Joined(g, x, size, Small(i), t))
  {}

  /** The ring of small bin i once x is linked in at its front. */
  ghost function FrontOf(g: Index, i: nat, x: int): seq<int>
    requires Small(i) in g.rings ==> |g.rings[Small(i)]| > 0
  { if Small(i) in g.rings then Inserted(g.rings[Small(i)], x) else [SmallBinAt(i), x] }

  /** f is the first chunk of small bin i, the header itself if the bin is empty. */
  ghost predicate FirstOf(w: Memory, g: Index, i: nat, f: int)
  { f == if Small(i) in g.rings then Fd(w, SmallBinAt(i)) else SmallBinAt(i) }

  lemma SmallInserted(w: Memory, w': Memory, g: Index, i: nat, x: int, size: nat, f: int)
    requires Structured(g) && Threaded(w, g) && i < 32 && FirstOf(w, g, i, f)
    requires x !in g.size && Spaced(g.size[x := size]) && Fits(Small(i), size) && size >= 32
    requires var b := SmallBinAt(i); w' == w[FdAt(b) := x][BkAt(f) := x][FdAt(x) := f][BkAt(x) := b]
    ensures var g' := Joined(g, x, size, Small(i), FrontOf(g, i, x));
      && Structured(g') && Threaded(w', g') && Nodes(g'.rings) == Nodes(g.rings)
      && OnlyBodies(w, w', g.size[x := size])
  {
    var b := SmallBinAt(i);
    if Small(i) in g.rings {
      var s := g.rings[Small(i)];
      assert RingHoused(g, Small(i)) && Ring(w, s);
      assert f == s[Next(s, 0)];
      MembersLinkable(g, Small(i));
    }
    SmallStores(w, w', g, x, size, b, f);
    SmallStoresBodies(w, w', g, x, size, b, f);
    if Small(i) in g.rings {
      SmallBehindThreaded(w, w', g, i, x, size);
    } else {
      SmallFirstThreaded(w, w', g, i, x, size);
    }
  }

  /** Taking x out of its small bin; the last one leaves the header links alone. */
  lemma SmallRemoved(w: Memory, w': Memory, g: Index, x: int, i: nat, k: nat)
    requires Structured(g) && Threaded(w, g) && x in g.home && g.home[x] == Small(i)
    requires var s := g.rings[Small(i)]; |s| >= 3 && 0 < k < |s| && s[k] == x
    requires w' == w[BkAt(Fd(w, x)) := Bk(w, x)][FdAt(Bk(w, x)) := Fd(w, x)]
    ensures var g' := Dropped(g, x, Without(g.rings[Small(i)], k));
      && Structured(g') && Threaded(w', g') && Nodes(g'.rings) == Nodes(g.rings)
      && OnlyBodies(w, w', g.size)
  {
    var s := g.rings[Small(i)];
    var t := Without(s, k);
    var g' := Dropped(g, x, t);
    assert Ring(w, s) && RingHoused(g, Small(i));
    WithoutMembers(s, k);
    WithoutDistinct(s, k);
    Unchained(w, w', g, x, k);
    DroppedStructured(g, x, t);
    assert Nodes(g'.rings) == Nodes(g.rings);
    NodesInjective(g);
    LinkedFrame(w, w', Nodes(g.rings), g.size);
    TreeChunksRoomy(g);
  }

  lemma WithoutDistinct(s: seq<int>, k: nat)
    requires k < |s| && Distinct(s)
    ensures Distinct(Without(s, k))
  {}

  lemma SmallVacated(w: Memory, g: Index, x: int, i: nat)
    requires Structured(g) && Threaded(w, g) && x in g.home && g.home[x] == Small(i)
    requires g.rings[Small(i)] == [SmallBinAt(i), x]
    ensures var g' := Vacated(g, x);
      Structured(g') && Threaded(w, g') && Nodes(g'.rings) == Nodes(g.rings)
  {
    var g' := Vacated(g, x);
    VacatedStructured(g, x);
    assert Nodes(g'.rings) == Nodes(g.rings);
  }

  lemma MappedAfterSmallRemoval(sm: Binmap, tm: Binmap, tb: seq<int>, g: Index, g': Index, i: nat)
    requires Mapped(sm, tm, tb, g) && i < 32
    requires Nodes(g'.rings) == Nodes(g.rings)
    requires forall h :: h in g'.rings <==> h in g.rings && (h == Small(i) ==> Small(i) in g'.rings)
    ensures Mapped(if Small(i) in g'.rings then sm else sm[i := false], tm, tb, g')
  {}
}
