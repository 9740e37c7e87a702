/** The heap as one flat memory of 64-bit words at byte addresses, and the chunk
    records that the allocator overlays on it. */
module Words {

  type Memory = map<int, int>

  /** A word that was never stored reads as 0; nothing depends on which value it is. */
  function Rd(w: Memory, a: int): int { if a in w then w[a] else 0 }

  // Field addresses of malloc_chunk and malloc_tree_chunk.
  function FootAt(p: int): int { p }
  function HeadAt(p: int): int { p + 8 }
  function FdAt(p: int): int { p + 16 }
  function BkAt(p: int): int { p + 24 }
  function ChildAt(p: int, right: bool): int { if right then p + 40 else p + 32 }
  function ParentAt(p: int): int { p + 48 }
  function IndexAt(p: int): int { p + 56 }

  /** The head word without its three flag bits. */
  function ChunkSize(w: Memory, p: int): int { var h := Rd(w, HeadAt(p)); h - h % 8 }

  function Fd(w: Memory, p: int): int { Rd(w, FdAt(p)) }
  function Bk(w: Memory, p: int): int { Rd(w, BkAt(p)) }
  function Child(w: Memory, p: int, right: bool): int { Rd(w, ChildAt(p, right)) }
  function Parent(w: Memory, p: int): int { Rd(w, ParentAt(p)) }
  function TreeBin(w: Memory, p: int): int { Rd(w, IndexAt(p)) }
}
