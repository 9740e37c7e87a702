/** Request padding and rounding, with the wraparound of 64-bit sizes. */
module Sizes {
  import opened Bits
  import opened Layout

  const MAX_REQUEST: int := LIMIT - 128
  const MAX_SMALL_REQUEST: int := 232
  const MIN_REQUEST: int := 23
  const SYS_ALLOC_PADDING: int := 96
  const MMAP_PADDING: int := 63

  /** The least multiple of the unit that is not below n. */
  ghost predicate LeastMultiple(size: int, n: nat, unit: nat) { unit > 0 && size % unit == 0 && n <= size < n + unit }

  /** pad_request */
  function PadRequest(bytes: nat): nat { var t := (bytes + 8 + 15) % LIMIT; t - t % 16 }

  /** request2size */
  function Request2Size(bytes: nat): nat { if bytes < MIN_REQUEST then MIN_CHUNK_SIZE else PadRequest(bytes) }

  /** A chunk of the padded size has room for the request in its payload, and wastes less than 32 bytes. */
  lemma RequestFits(bytes: nat)
    requires bytes < MAX_REQUEST
    ensures var nb := Request2Size(bytes);
      && bytes + 8 <= nb < LIMIT && nb % 16 == 0 && MIN_CHUNK_SIZE <= nb
      && (if bytes < MIN_REQUEST then nb == MIN_CHUNK_SIZE else nb < bytes + 8 + 16)
      && (nb < 256 <==> bytes <= MAX_SMALL_REQUEST)
  {}

  /** page_align and granularity_align: masking with -g, for g a power of two, drops the remainder. */
  function AlignUp(size: nat, g: nat): nat
    requires g > 0
  { var t := (size + (g - 1)) % LIMIT; t - t % g }

  lemma DropRemainder(t: nat, g: nat)
    requires g > 0
    ensures (t - t % g) % g == 0 && t - g < t - t % g <= t
  {
    var q := t / g;
    assert t - t % g == q * g;
    MultipleMod(q, g);
  }

  lemma DiffMod(x: nat, y: nat, d: nat)
    requires d > 0 && x % d == 0 && y % d == 0 && y <= x
    ensures (x - y) % d == 0
  {
    var q, r := x / d, y / d;
    assert x == q * d && y == r * d;
    assert x - y == (q - r) * d;
    assert q < r ==> (q - r) * d < 0;
    MultipleMod(q - r, d);
  }

  /** A positive multiple is at least the number itself. */
  lemma AtLeastOne(x: nat, d: nat)
    requires d > 0 && x > 0 && x % d == 0
    ensures x >= d
  {
    var q := x / d;
    assert x == d * q;
    assert q >= 1;
    assert d * q == d + d * (q - 1) && d * (q - 1) >= 0;
  }

  lemma MultipleMod(q: nat, g: nat)
    requires g > 0
    ensures (q * g) % g == 0
  {
    var x := q * g;
    var d := q - x / g;
    assert x == g * (x / g) + x % g;
    assert g * d == g * q - g * (x / g);
    assert (d >= 1 ==> g * d >= g) && (d <= -1 ==> g * d + g <= 0);
  }

  lemma DividesTrans(x: nat, g: nat, d: nat)
    requires d > 0 && g > 0 && g % d == 0 && x % g == 0
    ensures x % d == 0
  {
    var q, r := x / g, g / d;
    assert x == q * g && g == r * d;
    assert x == (q * r) * d;
    MultipleMod(q * r, d);
  }

  /** The wraparound test of sys_alloc and mmap_alloc is exact: the rounded size exceeds the request just
      when nothing wrapped, and then it covers the padding over the true integers. */
  lemma PaddingExact(nb: nat, pad: nat, g: nat)
    requires nb < LIMIT && 0 < pad <= 4096 && 0 < g <= HALF
    ensures var asize := AlignUp((nb + pad) % LIMIT, g);
      && asize % g == 0 && asize < LIMIT
      && (asize > nb <==> nb + pad + (g - 1) < LIMIT)
      && (asize > nb ==> nb + pad <= asize < nb + pad + g)
  {
    var s := (nb + pad) % LIMIT;
    var t := (s + (g - 1)) % LIMIT;
    DropRemainder(t, g);
    WrapCases(nb, pad, g, s, t);
  }

  lemma WrapCases(nb: nat, pad: nat, g: nat, s: nat, t: nat)
    requires nb < LIMIT && 0 < pad <= 4096 && 0 < g <= HALF
    requires s == (nb + pad) % LIMIT && t == (s + (g - 1)) % LIMIT
    ensures if nb + pad + (g - 1) < LIMIT then t == nb + pad + (g - 1) else t <= nb
  {}
}
