/** The system calls that give and take memory. Any answer the system may give is possible. */
module Kernel {
  import opened Bits

  /** The byte addresses from b on. */
  function Bytes(b: int, n: nat): (r: set<int>)
    ensures forall a :: a in r <==> b <= a < b + n
  { if n == 0 then {} else Bytes(b, n - 1) + {b + n - 1} }

  lemma {:induction false} BytesCount(b: int, n: nat)
    ensures |Bytes(b, n)| == n
  {
    if n > 0 { BytesCount(b, n - 1); }
  }

  lemma MoreBytes(m: set<int>, b: int, n: nat)
    requires m !! Bytes(b, n)
    ensures |m + Bytes(b, n)| == |m| + n
  {
    BytesCount(b, n);
  }

  lemma FewerBytes(m: set<int>, b: int, n: nat)
    requires Bytes(b, n) <= m
    ensures |m - Bytes(b, n)| == |m| - n
  {
    BytesCount(b, n);
    assert m == (m - Bytes(b, n)) + Bytes(b, n);
  }

  const FAIL: int := -1

  class System {
    const page: nat
    /** The bytes mapped for the allocator at present. */
    var mapped: set<int>
    /** How often the system did not grant memory. */
    ghost var refusals: nat
    /** How often it did not take memory back. */
    ghost var kept: nat

    /** mmap of anonymous memory: pages nobody uses, or failure. */
    method Mmap(size: nat) returns (b: int)
      requires size > 0 && page > 0
      modifies this
      ensures kept == old(kept)
      ensures b == FAIL ==> mapped == old(mapped) && refusals == old(refusals) + 1
      ensures b != FAIL ==>
        && refusals == old(refusals) && 0 < b && b % page == 0 && b + size < LIMIT
        && old(mapped) !! Bytes(b, size) && mapped == old(mapped) + Bytes(b, size)
    {
      b := *;
      if b <= 0 || b % page != 0 || b + size >= LIMIT || !(mapped !! Bytes(b, size)) {
        refusals := refusals + 1;
        return FAIL;
      }
      mapped := mapped + Bytes(b, size);
    }

    /** munmap, which may fail and then changes nothing. */
    method Munmap(b: int, size: nat) returns (ok: bool)
      requires Bytes(b, size) <= mapped
      modifies this
      ensures mapped == (if ok then old(mapped) - Bytes(b, size) else old(mapped)) && refusals == old(refusals)
      ensures kept == if ok then old(kept) else old(kept) + 1
    {
      ok := *;
      if ok {
        mapped := mapped - Bytes(b, size);
      } else {
        kept := kept + 1;
      }
    }
  }
}
