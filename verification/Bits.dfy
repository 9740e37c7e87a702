/** The size and bit arithmetic of the allocator's macros. */
module Bits {

  const LIMIT: int := 0x1_0000_0000_0000_0000   // 2^64: size_t values are below it
  const HALF: int := 0x8000_0000_0000_0000      // 2^63: the top bit of a size_t

  const MIN_LARGE_SIZE: int := 256
  const NTREEBINS: int := 32

  function Pow2(n: nat): (r: nat)
    ensures r > 0
  { if n == 0 then 1 else 2 * Pow2(n - 1) }

  lemma Pow2Step(n: nat) ensures Pow2(n + 1) == 2 * Pow2(n) {}

  lemma {:induction false} Pow2Add(a: nat, b: nat)
    ensures Pow2(a + b) == Pow2(a) * Pow2(b)
  {
    if a > 0 { Pow2Add(a - 1, b); }
  }

  /** The test (x & (x - 1)) == 0 on a positive size. */
  predicate PowerOfTwo(x: nat) { x == 1 || (x > 0 && x % 2 == 0 && PowerOfTwo(x / 2)) }

  lemma {:induction false} PowerIs(k: nat)
    ensures PowerOfTwo(Pow2(k))
  {
    if k > 0 { PowerIs(k - 1); }
  }

  lemma {:induction false} PowerLog(x: nat) returns (k: nat)
    requires PowerOfTwo(x)
    ensures x == Pow2(k)
  {
    if x == 1 { return 0; }
    k := PowerLog(x / 2);
    k := k + 1;
  }

  lemma PowerGap(j: nat, k: nat)
    requires Pow2(j) < Pow2(k)
    ensures 2 * Pow2(j) <= Pow2(k)
  {
    if k <= j { Pow2Mono(k, j); } else { Pow2Mono(j + 1, k); }
  }

  // ---------------------------------------------------------- shifts of a size_t

  /** w << 1 for a 64-bit word. */
  function Shl1(w: nat): (r: nat)
    requires w < LIMIT
    ensures r < LIMIT
  { if w >= HALF then 2 * w - LIMIT else 2 * w }

  /** w << n for a 64-bit word, one bit at a time. */
  function Shl(w: nat, n: nat): (r: nat)
    requires w < LIMIT
    ensures r < LIMIT
  { if n == 0 then w else Shl1(Shl(w, n - 1)) }

  /** Bit j of w counted from the top: the sign bit after j shifts. */
  predicate Msb(w: nat, j: nat) requires w < LIMIT { Shl(w, j) >= HALF }

  lemma {:induction false} ShlShl(w: nat, a: nat, b: nat)
    requires w < LIMIT
    ensures Shl(w, a + b) == Shl(Shl(w, a), b)
  {
    if b > 0 { ShlShl(w, a, b - 1); }
  }

  lemma {:induction false} ShlIsProduct(w: nat, n: nat)
    requires w < LIMIT
    ensures Shl(w, n) == (w * Pow2(n)) % LIMIT
  {
    if n > 0 {
      ShlIsProduct(w, n - 1);
      var x := w * Pow2(n - 1);
      assert w * Pow2(n) == 2 * x by { assert Pow2(n) == 2 * Pow2(n - 1); }
      DoubleMod(x, x % LIMIT, x / LIMIT);
    }
  }

  lemma DoubleMod(x: nat, r: nat, q: nat)
    requires x == q * LIMIT + r && r < LIMIT
    ensures (2 * x) % LIMIT == Shl1(r)
  {
    var q' := if r >= HALF then 2 * q + 1 else 2 * q;
    assert 2 * x == q' * LIMIT + Shl1(r);
    ModOfMultiple(q', Shl1(r));
  }

  lemma MsbTail(w: nat, j: nat)
    requires w < LIMIT
    ensures Msb(Shl1(w), j) == Msb(w, j + 1)
  {
    ShlShl(w, 1, j);
    assert Shl(w, 1) == Shl1(w);
  }

  /** Words that agree on their first d bits are ordered by bit d. */
  lemma {:induction false} FirstDifferenceOrders(v: nat, w: nat, d: nat)
    requires v < LIMIT && w < LIMIT
    requires forall j :: 0 <= j < d ==> Msb(v, j) == Msb(w, j)
    requires !Msb(v, d) && Msb(w, d)
    ensures v < w
    decreases d
  {
    if d > 0 {
      assert Msb(v, 0) == Msb(w, 0);
      forall j | 0 <= j < d
        ensures Msb(Shl1(v), j) == Msb(v, j + 1) && Msb(Shl1(w), j) == Msb(w, j + 1)
      {
        MsbTail(v, j); MsbTail(w, j);
      }
      FirstDifferenceOrders(Shl1(v), Shl1(w), d - 1);
    }
  }

  /** s >> n, one bit at a time. */
  function Shr(s: nat, n: nat): nat { if n == 0 then s else Shr(s, n - 1) / 2 }

  lemma {:induction false} ShrShr(s: nat, a: nat, b: nat)
    ensures Shr(s, a + b) == Shr(Shr(s, a), b)
  {
    if b > 0 { ShrShr(s, a, b - 1); }
  }

  /** The top two bits of s, when bit n + 1 is its highest. */
  lemma {:induction false} ShrTop(s: nat, n: nat)
    requires 2 * Pow2(n) <= s < 4 * Pow2(n)
    ensures Shr(s, n) == if s < 3 * Pow2(n) then 2 else 3
    decreases n
  {
    if n > 0 {
      ShrTop(s / 2, n - 1);
      ShrShr(s, 1, n - 1);
      assert Shr(s, 1) == s / 2;
    }
  }

  // ---------------------------------------------------------------- tree indices

  /** Position of the highest set bit: what 31 - __builtin_clz(x) yields. */
  function Log2(x: nat): (k: nat)
    requires x > 0
    ensures Pow2(k) <= x < Pow2(k + 1)
  { if x == 1 then 0 else 1 + Log2(x / 2) }

  /** compute_tree_index; the unsigned int X keeps only 32 bits of size >> 8. */
  function TreeIndex(size: nat): (i: nat)
    ensures i < NTREEBINS
  {
    var x := (size / 256) % 0x1_0000_0000;
    if x == 0 then 0
    else if x > 0xFFFF then NTREEBINS - 1
    else
      var k := Log2(x);
      Pow2Values(); Log2Below(x, 16);
      2 * k + Shr(size, k + 7) % 2
  }

  lemma {:induction false} Log2Below(x: nat, n: nat)
    requires 0 < x < Pow2(n)
    ensures Log2(x) < n
  {
    if x > 1 { Log2Below(x / 2, n - 1); }
  }

  /** minsize_for_tree_index */
  function MinTreeSize(i: nat): nat
  { Pow2(i / 2 + 8) + if i % 2 == 1 then Pow2(i / 2 + 7) else 0 }

  /** Bin i is the right one for size: the last bin has no upper end. */
  predicate Bracketed(size: nat, i: nat)
  { MinTreeSize(i) <= size && (i == NTREEBINS - 1 || size < MinTreeSize(i + 1)) }

  lemma TreeIndexBelow40(size: nat)
    requires MIN_LARGE_SIZE <= size < 0x100_0000_0000
    ensures Bracketed(size, TreeIndex(size))
  {
    hide Pow2, Shr, MinTreeSize, Log2;
    var x := size / 256;
    assert x % 0x1_0000_0000 == x;
    if x <= 0xFFFF { SplitPowerRange(size, Log2(x)); } else { SmallMinTreeSizes(31); }
  }

  /** A size compute_tree_index gets right: one below 2^40, or one whose bits 8 to 39, all that X keeps of it, are large
      enough for the last bin, which is where every size from 2^40 on belongs. */
  predicate IndexSound(size: nat) { size < 0x100_0000_0000 || (size / 256) % 0x1_0000_0000 >= 0xC000 }

  /** The 32-bit X cuts high bits off sizes from 2^40 on. */
  lemma TreeIndexBrackets(size: nat)
    requires size >= MIN_LARGE_SIZE
    ensures Bracketed(size, TreeIndex(size)) <==> IndexSound(size)
  {
    hide TreeIndex, MinTreeSize;
    if size < 0x100_0000_0000 {
      TreeIndexBelow40(size);
    } else {
      LastBin(size);
      SmallMinTreeSizes(31);
      SmallMinTreeSizes(TreeIndex(size) + 1);
    }
  }

  /** The last bin is for those X that have bits 15 and 14 set, or any above. */
  lemma LastBin(size: nat)
    ensures TreeIndex(size) == NTREEBINS - 1 <==> (size / 256) % 0x1_0000_0000 >= 0xC000
  {
    hide Pow2, Log2, Shr;
    var x := (size / 256) % 0x1_0000_0000;
    if 0x8000 <= x <= 0xFFFF {
      Pow2Values();
      Log2Is(x, 15);
      Bit22(size, x);
    } else if 0 < x < 0x8000 {
      Pow2Values();
      Log2Below(x, 15);
    }
  }

  lemma Bit22(size: nat, x: nat)
    requires x == (size / 256) % 0x1_0000_0000 && 0x8000 <= x <= 0xFFFF
    ensures Shr(size, 22) % 2 == if x >= 0xC000 then 1 else 0
  {
    hide Shr;
    var h, r := size / 256 / 0x1_0000_0000, size % 256;
    var top := if x >= 0xC000 then 3 else 2;
    var rest := (x - 0x4000 * top) * 256 + r;
    Pow2Values();
    assert size == (0x4_0000 * h + top) * Pow2(22) + rest;
    ShrIs(size, 22, 0x4_0000 * h + top, rest);
  }

  /** s >> n is the quotient by 2^n. */
  lemma {:induction false} ShrIs(s: nat, n: nat, q: nat, r: nat)
    requires s == q * Pow2(n) + r && r < Pow2(n)
    ensures Shr(s, n) == q
  {
    if n > 0 {
      var h := Pow2(n - 1);
      assert q * (2 * h) == (2 * q) * h;
      if r < h {
        ShrIs(s, n - 1, 2 * q, r);
      } else {
        assert (2 * q + 1) * h == (2 * q) * h + h;
        ShrIs(s, n - 1, 2 * q + 1, r - h);
      }
    }
  }

  /** The first size that goes wrong: it gets bin 0. */
  lemma TreeIndexWraps()
    ensures !Bracketed(0x100_0000_0000, TreeIndex(0x100_0000_0000))
  {
    hide Pow2, Log2, Shr, MinTreeSize;
    assert (0x100_0000_0000 / 256) % 0x1_0000_0000 == 0;
    TreeIndexBrackets(0x100_0000_0000);
  }

  /** ((y - c) >> 16) & b in 32 bits, for b a power of two. */
  function Borrow(y: nat, c: nat, b: nat): nat requires b > 0 { (y - c) % 0x1_0000_0000 / 0x10000 / b % 2 * b }

  function Times2(y: nat, n: nat): nat { y * Pow2(n) }

  /** The position of the highest set bit, as compilers without clz find it. */
  function PortableLog2(x: nat): int {
    var n := Borrow(x, 0x100, 8);
    var y := Times2(x, n);
    var k := Borrow(y, 0x1000, 4);
    var y := Times2(y, k);
    var n := n + k;
    var k := Borrow(y, 0x4000, 2);
    var y := Times2(y, k);
    var n := n + k;
    14 - n + y / 0x8000
  }

  /** compute_tree_index for those compilers; X is a size_t there. */
  function PortableTreeIndex(size: nat): int {
    var x := size / 256;
    if x == 0 then 0
    else if x > 0xFFFF then NTREEBINS - 1
    else
      var k := PortableLog2(x);
      2 * k + if k >= 0 then Shr(size, k + 7) % 2 else 0
  }

  lemma BorrowSigns(y: nat, c: nat, b: nat)
    requires y < 0x10000 && c <= 0x8000 && b in {2, 4, 8}
    ensures Borrow(y, c, b) == if y < c then b else 0
  {
    if y < c {
      assert (y - c) % 0x1_0000_0000 == 0x1_0000_0000 + y - c;
      assert (0x1_0000_0000 + y - c) / 0x10000 == 0xFFFF;
    }
  }

  lemma PortableLog2Is(x: nat)
    requires 0 < x <= 0xFFFF
    ensures PortableLog2(x) == Log2(x)
  {
    hide Borrow, Log2, Times2;
    Lifted(x, 0x100, 8);
    var y := Times2(x, Borrow(x, 0x100, 8));
    Lifted(y, 0x1000, 4);
    var z := Times2(y, Borrow(y, 0x1000, 4));
    Lifted(z, 0x4000, 2);
    HighestBit(Times2(z, Borrow(z, 0x4000, 2)));
  }

  /** A value below the bound is shifted up, which moves its highest bit by as much. */
  lemma Lifted(y: nat, c: nat, b: nat)
    requires 0 < y < 0x10000 && ((b == 8 && c == 0x100) || (b == 4 && c == 0x1000) || (b == 2 && c == 0x4000))
    ensures var z := Times2(y, Borrow(y, c, b));
      && z == (if y >= c then y else if b == 8 then 256 * y else if b == 4 then 16 * y else 4 * y)
      && Log2(z) == Log2(y) + Borrow(y, c, b)
  {
    assert Pow2(0) == 1 && Pow2(2) == 4 && Pow2(4) == 16 && Pow2(8) == 256;
    hide Borrow, Log2, Pow2;
    BorrowSigns(y, c, b);
    Log2Scaled(y);
    assert y * 1 == y && y * 4 == 4 * y && y * 16 == 16 * y && y * 256 == 256 * y;
  }

  lemma HighestBit(z: nat)
    requires 0x4000 <= z < 0x10000
    ensures Log2(z) == 14 + z / 0x8000
  {
    Pow2Values();
    assert Pow2(14) * 2 == Pow2(15);
    Log2Is(z, 14 + z / 0x8000);
  }

  /** Shifting left by n moves the highest bit by n. */
  lemma Log2Scaled(x: nat)
    requires x > 0
    ensures Log2(4 * x) == Log2(x) + 2 && Log2(16 * x) == Log2(x) + 4 && Log2(256 * x) == Log2(x) + 8
  {
    hide Log2, Pow2;
    Log2Double(x); Log2Double(2 * x); Log2Double(4 * x); Log2Double(8 * x);
    Log2Double(16 * x); Log2Double(32 * x); Log2Double(64 * x); Log2Double(128 * x);
  }

  lemma Log2Double(x: nat)
    requires x > 0
    ensures Log2(2 * x) == Log2(x) + 1
  {
    assert 2 * x / 2 == x;
  }

  /** The two forms of compute_tree_index agree on exactly the sizes the one with clz gets right. */
  lemma TreeIndexForms(size: nat)
    ensures PortableTreeIndex(size) == TreeIndex(size) <==> IndexSound(size)
  {
    hide Pow2, Log2, Shr, PortableLog2;
    var x := size / 256;
    LastBin(size);
    if size < 0x100_0000_0000 { assert x % 0x1_0000_0000 == x; }
    if 0 < x <= 0xFFFF { PortableLog2Is(x); }
  }

  lemma SplitPowerRange(size: nat, k: nat)
    requires Pow2(k) <= size / 256 < Pow2(k + 1)
    ensures var i := 2 * k + Shr(size, k + 7) % 2; MinTreeSize(i) <= size < MinTreeSize(i + 1)
  {
    var h := Pow2(k + 7);
    assert Pow2(k + 8) == 2 * h && Pow2(k + 9) == 4 * h;
    assert h == 128 * Pow2(k) by {
      assert h == 2 * Pow2(k + 6) == 4 * Pow2(k + 5) == 8 * Pow2(k + 4) == 16 * Pow2(k + 3);
      assert Pow2(k + 3) == 2 * Pow2(k + 2) == 4 * Pow2(k + 1);
    }
    ShrTop(size, k + 7);
    var i := 2 * k + Shr(size, k + 7) % 2;
    assert size < 3 * h ==> i / 2 == k && i % 2 == 0 && (i + 1) / 2 == k;
    assert size >= 3 * h ==> i / 2 == k && i % 2 == 1 && (i + 1) / 2 == k + 1 && (i + 1) % 2 == 0;
  }

  lemma Log2Is(x: nat, k: nat)
    requires Pow2(k) <= x < Pow2(k + 1)
    ensures Log2(x) == k
  {
    Log2Below(x, k + 1);
    if Log2(x) < k { Pow2Mono(Log2(x) + 1, k); }
  }

  lemma SmallMinTreeSizes(i: nat)
    requires i <= 32
    ensures MinTreeSize(i) <= 0x100_0000
    ensures i == 31 ==> MinTreeSize(i) == 0xC0_0000
  {
    Pow2Values();
    if i < 32 { Pow2Mono(i / 2 + 8, 23); assert Pow2(i / 2 + 8) == 2 * Pow2(i / 2 + 7); }
  }

  lemma {:induction false} Pow2Mono(a: nat, b: nat)
    requires a <= b
    ensures Pow2(a) <= Pow2(b)
  {
    if a < b { Pow2Mono(a, b - 1); }
  }

  lemma Pow2Values()
    ensures Pow2(7) == 128 && Pow2(8) == 256 && Pow2(15) == 0x8000 && Pow2(16) == 0x10000
    ensures Pow2(22) == 0x40_0000 && Pow2(23) == 0x80_0000 && Pow2(24) == 0x100_0000
    ensures Pow2(64) == LIMIT
  {
    assert Pow2(4) == 16;
    assert Pow2(8) == 256;
    Pow2Add(8, 7); Pow2Add(8, 8); Pow2Add(15, 7); Pow2Add(15, 8); Pow2Add(16, 8);
    Pow2Add(16, 16); Pow2Add(32, 32);
  }

  /** leftshift_for_tree_index */
  function LeftShift(i: nat): nat requires i < NTREEBINS
  { if i == NTREEBINS - 1 then 0 else 57 - i / 2 }

  /** The word whose bits, from the top, steer the walk through the tree of bin i. */
  function SizeBits(size: nat, i: nat): (w: nat)
    requires size < LIMIT && i < NTREEBINS
    ensures w < LIMIT
  { Shl(size, LeftShift(i)) }

  /** Within a bin, sizes are ordered as their steering words. */
  lemma SizeBitsOrder(s: nat, t: nat, i: nat)
    requires i < NTREEBINS && Bracketed(s, i) && Bracketed(t, i) && s < t < LIMIT
    ensures SizeBits(s, i) < SizeBits(t, i)
  {
    assert Shl(s, 0) == s && Shl(t, 0) == t;
    hide Pow2, MinTreeSize, Shl;
    if i < NTREEBINS - 1 {
      SizeBitsOffset(s, i);
      SizeBitsOffset(t, i);
      MulMono(s - MinTreeSize(i), t - MinTreeSize(i), Pow2(57 - i / 2));
    }
  }

  /** The steering word is what a size exceeds the least of its bin by, moved to the top. */
  lemma SizeBitsOffset(s: nat, i: nat)
    requires i < NTREEBINS - 1 && Bracketed(s, i) && s < LIMIT
    ensures SizeBits(s, i) == (s - MinTreeSize(i)) * Pow2(57 - i / 2)
  {
    hide Pow2, MinTreeSize, Shl;
    MinTreeSteps(i);
    ShlOffset(2 + i % 2, s - MinTreeSize(i), i / 2);
  }

  /** A bin covers a quarter of the sizes with its highest bit. */
  lemma MinTreeSteps(i: nat)
    ensures var q, h := 2 + i % 2, Pow2(i / 2 + 7); MinTreeSize(i) == q * h && MinTreeSize(i + 1) == q * h + h
  {
    var k := i / 2;
    var h := Pow2(k + 7);
    assert Pow2(k + 8) == 2 * h && Pow2(k + 9) == 4 * h;
    if i % 2 == 0 {
      assert (i + 1) / 2 == k && (2 + i % 2) * h == 2 * h;
    } else {
      assert (i + 1) / 2 == k + 1 && (2 + i % 2) * h == 3 * h;
    }
  }

  lemma MulMono(a: nat, b: nat, p: nat)
    requires a < b && p > 0
    ensures a * p < b * p
  {
    assert b * p == a * p + (b - a) * p;
  }

  /** Shifting a size left until only its offset within the bin is left. */
  lemma ShlOffset(q: nat, r: nat, k: nat)
    requires k <= 57 && r < Pow2(k + 7) && q * Pow2(k + 7) + r < LIMIT
    ensures Shl(q * Pow2(k + 7) + r, 57 - k) == r * Pow2(57 - k)
  {
    hide Shl, Pow2;
    var h, p, s := Pow2(k + 7), Pow2(57 - k), q * Pow2(k + 7) + r;
    assert h * p == LIMIT by { Pow2Add(k + 7, 57 - k); Pow2Values(); }
    assert s * p == q * LIMIT + r * p by { Regroup(q, h, r, p, LIMIT); }
    MulMono(r, h, p);
    ShlReduces(s, 57 - k, q, r * p);
  }

  lemma ShlReduces(s: nat, n: nat, q: nat, t: nat)
    requires s < LIMIT && t < LIMIT && s * Pow2(n) == q * LIMIT + t
    ensures Shl(s, n) == t
  {
    ShlIsProduct(s, n);
    ModOfMultiple(q, t);
  }

  lemma Regroup(q: nat, h: nat, r: nat, p: nat, m: nat)
    requires h * p == m
    ensures (q * h + r) * p == q * m + r * p
  {
    assert (q * h) * p == q * (h * p);
  }

  lemma ModOfMultiple(q: nat, r: nat)
    requires r < LIMIT
    ensures (q * LIMIT + r) % LIMIT == r
  {}
}
