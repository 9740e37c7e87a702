/** The 32-bit bin maps, as their bits from the lowest up, and the tricks that search them. */
module Binmaps {

  function Zeros(n: nat): (z: seq<bool>)
    ensures |z| == n && forall j :: 0 <= j < n ==> !z[j]
  { if n == 0 then [] else [false] + Zeros(n - 1) }

  type Binmap = m: seq<bool> | |m| == 32 witness Zeros(32)

  const EMPTY: Binmap := Zeros(32)

  function And(x: Binmap, y: Binmap): Binmap { seq(32, i requires 0 <= i < 32 => x[i] && y[i]) }
  function Or(x: Binmap, y: Binmap): Binmap { seq(32, i requires 0 <= i < 32 => x[i] || y[i]) }
  function Not(x: Binmap): Binmap { seq(32, i requires 0 <= i < 32 => !x[i]) }
  function ShiftUp(x: Binmap, n: nat): Binmap { seq(32, i requires 0 <= i < 32 => n <= i && x[i - n]) }
  function ShiftDown(x: Binmap, n: nat): Binmap { seq(32, i requires 0 <= i < 32 => i + n < 32 && x[i + n]) }

  /** Two's complement: invert and add one. */
  function Neg(x: Binmap): Binmap { Inc(Not(x)) }

  function Inc(s: seq<bool>): (t: seq<bool>)
    ensures |t| == |s|
  { if s == [] then [] else if s[0] then [false] + Inc(s[1..]) else [true] + s[1..] }

  function Idx2Bit(i: nat): Binmap requires i < 32 { EMPTY[i := true] }
  function LeastBit(x: Binmap): Binmap { And(x, Neg(x)) }
  function LeftBits(x: Binmap): Binmap { Or(ShiftUp(x, 1), Neg(ShiftUp(x, 1))) }

  function Mark(m: Binmap, i: nat): (r: Binmap)
    requires i < 32
    ensures r == m[i := true]
  { Or(m, Idx2Bit(i)) }

  function Clear(m: Binmap, i: nat): (r: Binmap)
    requires i < 32
    ensures r == m[i := false]
  { And(m, Not(Idx2Bit(i))) }

  /** k is the lowest index in x. */
  ghost predicate Lowest(x: Binmap, k: nat) { k < 32 && x[k] && forall j :: 0 <= j < k ==> !x[j] }

  /** __builtin_ctz */
  function Ctz(x: Binmap): (k: nat)
    requires x != EMPTY
    ensures Lowest(x, k)
  { NonEmpty(x); CtzFrom(x, 0) }

  function CtzFrom(x: Binmap, i: nat): (k: nat)
    requires i < 32 && (forall j :: 0 <= j < i ==> !x[j]) && exists j :: 0 <= j < 32 && x[j]
    ensures Lowest(x, k)
    decreases 32 - i
  { if x[i] then i else CtzFrom(x, i + 1) }

  lemma NonEmpty(x: Binmap)
    ensures x != EMPTY <==> exists j :: 0 <= j < 32 && x[j]
  {
    if forall j :: 0 <= j < 32 ==> !x[j] { assert x == EMPTY; }
  }

  lemma {:induction false} IncBits(s: seq<bool>, k: nat)
    requires k < |s| && !s[k] && forall j :: 0 <= j < k ==> s[j]
    ensures Inc(s) == seq(|s|, i requires 0 <= i < |s| => if i < k then false else if i == k then true else s[i])
  {
    if k > 0 { IncBits(s[1..], k - 1); }
  }

  lemma {:induction false} IncOnes(s: seq<bool>)
    requires forall j :: 0 <= j < |s| ==> s[j]
    ensures Inc(s) == seq(|s|, i => false)
  {
    if s != [] { IncOnes(s[1..]); }
  }

  /** x & -x keeps the lowest bit only. */
  lemma LeastBitIsolates(x: Binmap, k: nat)
    requires Lowest(x, k)
    ensures LeastBit(x) == Idx2Bit(k)
  {
    IncBits(Not(x), k);
  }

  /** left_bits of a single bit is the mask of everything above it. */
  lemma LeftBitsMask(i: nat, j: nat)
    requires i < 32 && j < 32
    ensures LeftBits(Idx2Bit(i))[j] <==> i < j
  {
    var y := ShiftUp(Idx2Bit(i), 1);
    if i == 31 { IncOnes(Not(y)); } else { IncBits(Not(y), i + 1); }
  }

  /** least_bit and compute_bit2idx on the map masked by left_bits: the next bin above i. */
  lemma NextAbove(m: Binmap, i: nat)
    requires i < 32
    ensures var l := And(LeftBits(Idx2Bit(i)), m);
      && (l == EMPTY <==> forall j :: i < j < 32 ==> !m[j])
      && (l != EMPTY ==>
            && LeastBit(l) != EMPTY
            && var k := Ctz(LeastBit(l)); i < k < 32 && m[k] && forall j :: i < j < k ==> !m[j])
  {
    var l := And(LeftBits(Idx2Bit(i)), m);
    forall j | 0 <= j < 32 ensures l[j] <==> i < j && m[j] { LeftBitsMask(i, j); }
    NonEmpty(l);
    if l != EMPTY { LeastIndex(l); }
  }

  lemma LeastIndex(x: Binmap)
    requires x != EMPTY
    ensures LeastBit(x) != EMPTY && Lowest(x, Ctz(LeastBit(x)))
  {
    var k := Ctz(x);
    LeastBitIsolates(x, k);
    assert LeastBit(x)[k];
    NonEmpty(LeastBit(x));
  }
}
