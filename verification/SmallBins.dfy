/** insert_small_chunk and unlink_small_chunk. */
module SmallBins {
  import opened Words
  import opened Binmaps
  import opened Rings
  import opened Bins
  import opened State

  /** insert_small_chunk */
  method InsertSmallChunk(m: MState, p: int, size: nat)
    requires m.BinsValid() && p !in m.g.size && Spaced(m.g.size[p := size])
    requires 32 <= size < 256 && size % 16 == 0
    modifies m`word, m`smallmap, m`g
    ensures m.BinsValid()
    ensures m.g.size == old(m.g.size)[p := size]
    ensures OnlyBodies(old(m.word), m.word, m.g.size)
  {
    ghost var g, w, sm := m.g, m.word, m.smallmap;
    assert Mapped(sm, m.treemap, m.treebins, g);
    var i := size / 8;
    var b := SmallBinAt(i);
    var f := b;
    if !m.smallmap[i] {
      m.smallmap := Mark(m.smallmap, i);
    } else {
      f := Fd(m.word, b);
    }
    m.word := m.word[FdAt(b) := p][BkAt(f) := p][FdAt(p) := f][BkAt(p) := b];
    SmallInserted(w, m.word, g, i, p, size, f);
    m.g := Joined(g, p, size, Small(i), FrontOf(g, i, p));
    MappedAfterSmall(sm, m.treemap, m.treebins, g, p, size, i, FrontOf(g, i, p));
  }

  /** unlink_small_chunk, and unlink_first_small_chunk, where the chunk is the first. */
  method UnlinkSmallChunk(m: MState, p: int, size: nat)
    requires m.BinsValid() && p in m.g.home && m.g.home[p].Small? && m.g.size[p] == size
    modifies m`word, m`smallmap, m`g
    ensures m.BinsValid()
    ensures m.g.size == old(m.g.size) - {p}
    ensures OnlyBodies(old(m.word), m.word, old(m.g.size))
  {
    ghost var g, w, sm := m.g, m.word, m.smallmap;
    assert Mapped(sm, m.treemap, m.treebins, g);
    var i := size / 8;
    ghost var k := SmallPosition(w, g, p, i);
    var f, b := Fd(m.word, p), Bk(m.word, p);
    if b == f {
      m.smallmap := Clear(m.smallmap, i);
      SmallVacated(w, g, p, i);
      m.g := Vacated(g, p);
    } else {
      m.word := m.word[BkAt(f) := b][FdAt(b) := f];
      SmallRemoved(w, m.word, g, p, i, k);
      m.g := Dropped(g, p, Without(g.rings[Small(i)], k));
    }
    MappedAfterSmallRemoval(sm, m.treemap, m.treebins, g, m.g, i);
  }

  /** Where p stands in its bin. The runtime checks of the list links cannot fail. */
  lemma SmallPosition(w: Memory, g: Index, p: int, i: nat) returns (k: nat)
    requires Structured(g) && Threaded(w, g) && p in g.home && g.home[p].Small? && i == g.size[p] / 8
    ensures g.home[p] == Small(i) && i < 32 && Small(i) in g.rings
    ensures var s := g.rings[Small(i)];
      && |s| >= 2 && 0 < k < |s| && s[k] == p && s[0] == SmallBinAt(i)
      && (Fd(w, p) == Bk(w, p) <==> s == [SmallBinAt(i), p])
    ensures Bk(w, Fd(w, p)) == p && Fd(w, Bk(w, p)) == p
  {
    assert Fits(g.home[p], g.size[p]);
    var s := g.rings[Small(i)];
    assert RingHoused(g, Small(i)) && Ring(w, s);
    k :| 0 <= k < |s| && s[k] == p;
    assert s[0] < 0 < p;
    assert Fd(w, s[k]) == s[Next(s, k)] && Bk(w, s[k]) == s[Prev(s, k)];
    assert Bk(w, s[Next(s, k)]) == s[k] && Fd(w, s[Prev(s, k)]) == s[k];
  }
}
