/** What the layout pass promises of the file, said of sizes, kinds and writes alone. */
module ElfResult {
  import opened ElfLayout
  import opened ElfWriter

  // ------------------------------------------------------------- sums and packing

  function Sum(xs: seq<nat>): nat { if xs == [] then 0 else xs[0] + Sum(xs[1..]) }

  lemma {:induction false} SumAppend(xs: seq<nat>, ys: seq<nat>)
    ensures Sum(xs + ys) == Sum(xs) + Sum(ys)
  {
    if xs == [] {
      assert xs + ys == ys;
    } else {
      assert (xs + ys)[1..] == xs[1..] + ys;
      SumAppend(xs[1..], ys);
    }
  }

  /** The sizes of the listed sections, of which those with data in the file count nothing. */
  function Bare(list: seq<nat>, secs: seq<Section>): seq<nat> requires forall j :: 0 <= j < |list| ==> list[j] < |secs|
  { seq(|list|, j requires 0 <= j < |list| => if secs[list[j]].kind == Bits then 0 else secs[list[j]].size) }

  lemma {:induction false} MemoryOnlyIs(list: seq<nat>, secs: seq<Section>)
    requires Within(list, |secs|)
    ensures MemoryOnly(list, secs) == Sum(Bare(list, secs))
  {
    if list != [] {
      var n := |list| - 1;
      MemoryOnlyIs(list[..n], secs);
      assert Bare(list, secs) == Bare(list[..n], secs) + Bare(list, secs)[n..];
      SumAppend(Bare(list[..n], secs), Bare(list, secs)[n..]);
      assert Bare(list, secs)[n..] == [Bare(list, secs)[n]];
    }
  }

  function Unit(align: nat): nat { if align > 1 then align else 1 }

  /** x is the first place from a on with this alignment. */
  ghost predicate FirstFrom(a: nat, x: nat, align: nat) { a <= x < a + Unit(align) && x % Unit(align) == 0 }

  /** Section s starts at x, the first place from a on that suits it, and takes the file up to b. */
  ghost predicate Slot(a: nat, x: nat, b: nat, s: Section)
  { FirstFrom(a, x, s.align) && b == x + (if s.kind == Bits then s.size else 0) }

  /** The listed sections follow one another from lo to hi without any gap but for alignment; number j is at at[j]. */
  ghost predicate Packed(at: seq<nat>, ends: seq<nat>, list: seq<nat>, secs: seq<Section>, lo: nat, hi: nat) {
    && |at| == |list| && |ends| == |list| + 1 && ends[0] == lo && ends[|list|] == hi
    && (forall j :: 0 <= j < |list| ==> list[j] < |secs|)
    && forall j :: 0 <= j < |list| ==> Slot(ends[j], at[j], ends[j + 1], secs[list[j]])
  }

  ghost predicate IsPacked(list: seq<nat>, secs: seq<Section>, lo: nat, hi: nat)
  { exists at, ends :: Packed(at, ends, list, secs, lo, hi) }

  lemma AlignedIs(pos: nat, align: nat)
    ensures FirstFrom(pos, Aligned(pos, align), align)
  {}

  lemma {:induction false} DataEndPacked(pos: nat, list: seq<nat>, secs: seq<Section>)
    returns (at: seq<nat>, ends: seq<nat>)
    requires Within(list, |secs|)
    ensures Packed(at, ends, list, secs, pos, DataEnd(pos, list, secs))
    ensures forall j :: 0 <= j < |list| ==> at[j] == Aligned(DataEnd(pos, list[..j], secs), secs[list[j]].align)
  {
    if list == [] { return [], [pos]; }
    var n := |list| - 1;
    var last := secs[list[n]];
    var at0, ends0 := DataEndPacked(pos, list[..n], secs);
    var x := Aligned(ends0[n], last.align);
    AlignedIs(ends0[n], last.align);
    at, ends := at0 + [x], ends0 + [DataEnd(pos, list, secs)];
    forall j | 0 <= j < |list|
      ensures Slot(ends[j], at[j], ends[j + 1], secs[list[j]])
      ensures at[j] == Aligned(DataEnd(pos, list[..j], secs), secs[list[j]].align)
    {
      if j < n { assert list[..n][..j] == list[..j] && list[..n][j] == list[j]; }
    }
  }

  // ------------------------------------------------------------- segments

  /** The sizes of a segment: in the file, just what its sections take, packed from its offset on; in memory, also the
      sizes of those that have no data in the file. Its entry in the table says so. */
  ghost predicate RightSizes(file: seq<Write>, seg: Segment, seg': Segment, secs: seq<Section>, i: nat) {
    var list := Listed(seg);
    && (forall j :: 0 <= j < |list| ==> list[j] < |secs|)
    && seg'.memSize == seg'.fileSize + Sum(Bare(list, secs))
    && IsPacked(list, secs, seg'.offset, seg'.offset + seg'.fileSize)
    && exists a :: 0 <= a < |file| && file[a].what == SegmentEntry(i, seg'.offset, seg'.fileSize, seg'.memSize)
  }

  lemma SegmentSizes(file: seq<Write>, start: nat, segs: seq<Segment>, secs: seq<Section>, segs': seq<Segment>,
                     secs': seq<Section>, pos: nat, i: nat)
    requires BothPasses(start, segs, secs, segs', secs', pos) && SegmentsOnDisk(file, segs', |segs|) && i < |segs|
    ensures RightSizes(file, segs[i], segs'[i], secs, i)
  {
    hide Listed, DataEnd, MemoryOnly, LooseBelow, Loose, LooseSpot, Filled, SegmentsEnd, Packed;
    var from, mid := DataEnd(start, LooseBelow(segs, |secs|), secs), AllAfterLoose(start, segs, secs);
    var list := Listed(segs[i]);
    var lo := SegmentsEnd(from, segs, mid, i);
    assert segs'[i] == LaidOut(lo, segs[i], mid) && Within(list, |secs|);
    assert SameShapes(mid, secs);
    ShapesDecide(segs'[i].offset, list, mid, secs);
    MemoryOnlyIs(list, secs);
    var at, ends := DataEndPacked(segs'[i].offset, list, secs);
    assert Recorded(file, segs'[i], i);
  }

  /** Segments follow one another, each from the first place that suits it, and the first right after the sections that
      are in no segment. */
  lemma SegmentsPacked(start: nat, segs: seq<Segment>, secs: seq<Section>, segs': seq<Segment>, secs': seq<Section>,
                       pos: nat, i: nat)
    requires BothPasses(start, segs, secs, segs', secs', pos) && i < |segs|
    ensures |segs| <= |segs'|
    ensures i > 0 ==> FirstFrom(segs'[i - 1].offset + segs'[i - 1].fileSize, segs'[i].offset, segs[i].align)
    ensures i == 0 ==> exists e ::
      IsPacked(LooseBelow(segs, |secs|), secs, start, e) && FirstFrom(e, segs'[0].offset, segs[0].align)
  {
    hide Listed, DataEnd, MemoryOnly, LooseBelow, Loose, LooseSpot, Filled, Packed, Aligned;
    var from, mid := DataEnd(start, LooseBelow(segs, |secs|), secs), AllAfterLoose(start, segs, secs);
    var lo := SegmentsEnd(from, segs, mid, i);
    assert segs'[i] == LaidOut(lo, segs[i], mid);
    AlignedIs(lo, segs[i].align);
    if i > 0 {
      assert segs'[i - 1] == LaidOut(SegmentsEnd(from, segs, mid, i - 1), segs[i - 1], mid);
      EndsAt(from, segs, mid, i - 1);
    } else {
      var at, ends := DataEndPacked(start, LooseBelow(segs, |secs|), secs);
    }
  }

  // ------------------------------------------------------------- sections

  /** Sections in no segment are packed right after the tables, in their order. */
  lemma LoosePacked(start: nat, segs: seq<Segment>, secs: seq<Section>, segs': seq<Segment>, secs': seq<Section>,
                    pos: nat)
    returns (at: seq<nat>, ends: seq<nat>, e: nat)
    requires BothPasses(start, segs, secs, segs', secs', pos)
    ensures |secs'| == |secs| && Packed(at, ends, LooseBelow(segs, |secs|), secs, start, e)
    ensures forall j :: 0 <= j < |at| && LooseBelow(segs, |secs|)[j] != 0 ==>
      secs'[LooseBelow(segs, |secs|)[j]].offset == at[j]
  {
    var list, mid := LooseBelow(segs, |secs|), AllAfterLoose(start, segs, secs);
    e := DataEnd(start, list, secs);
    at, ends := DataEndPacked(start, list, secs);
    hide DataEnd, MemoryOnly, SegmentsEnd, Packed, Aligned, LaidOut;
    forall j | 0 <= j < |at| && list[j] != 0 ensures secs'[list[j]].offset == at[j] {
      LooseAt(segs, |secs|, j);
      LooseStays(e, segs, mid, segs', secs', pos, list[j]);
    }
  }

  /** Element j of the list is in no segment, and the list up to it is that of the sections below it. */
  lemma {:induction false} LooseAt(segs: seq<Segment>, n: nat, j: nat)
    requires j < |LooseBelow(segs, n)|
    ensures var k := LooseBelow(segs, n)[j];
      k < n && Loose(segs, k) && LooseBelow(segs, n)[..j] == LooseBelow(segs, k)
  {
    hide Loose;
    if j < |LooseBelow(segs, n - 1)| { LooseAt(segs, n - 1, j); }
  }

  lemma LooseStays(start: nat, segs: seq<Segment>, secs: seq<Section>, segs': seq<Segment>, secs': seq<Section>,
                   pos: nat, k: nat)
    requires Finished(start, segs, secs, segs', secs', pos, |segs|) && k < |secs| && Loose(segs, k)
    ensures |secs'| == |secs| && secs'[k] == secs[k]
  {
    hide Listed, AddressAfter;
    FinishedAt(start, segs, secs, segs', secs', pos, k);
  }

  /** A section keeps an address it had; otherwise it gets that of the first segment that lists it, if any does. */
  lemma AddressGiven(start: nat, segs: seq<Segment>, secs: seq<Section>, segs': seq<Segment>, secs': seq<Section>,
                     pos: nat, k: nat)
    requires BothPasses(start, segs, secs, segs', secs', pos) && k < |secs|
    ensures |secs'| == |secs|
    ensures secs[k].addressSet || Loose(segs, k) ==> secs'[k].address == secs[k].address
    ensures forall i ::
      0 <= i < |segs| && k in Listed(segs[i]) && (forall j :: 0 <= j < i ==> k !in Listed(segs[j])) ==>
      secs[k].addressSet || secs'[k].address == segs[i].vaddr
  {
    hide Listed, DataEnd, MemoryOnly, SegmentsEnd, LaidOut, LooseBelow, LooseSpot;
    var from, mid := DataEnd(start, LooseBelow(segs, |secs|), secs), AllAfterLoose(start, segs, secs);
    FinishedAt(from, segs, mid, segs', secs', pos, k);
    forall i | 0 <= i < |segs| && k in Listed(segs[i]) && forall j :: 0 <= j < i ==> k !in Listed(segs[j])
      ensures secs[k].addressSet || secs'[k].address == segs[i].vaddr
    {
      AddressFirst(mid[k], k, segs, i, |segs|);
    }
    AddressOwn(mid[k], k, segs, |segs|);
  }

  lemma {:induction false} AddressFirst(s: Section, k: nat, segs: seq<Segment>, i: nat, n: nat)
    requires i < n <= |segs| && k in Listed(segs[i]) && forall j :: 0 <= j < i ==> k !in Listed(segs[j])
    ensures s.addressSet || AddressAfter(s, k, segs, n) == (segs[i].vaddr, true)
    decreases n
  {
    hide Listed;
    if !s.addressSet {
      if n == i + 1 { AddressNone(s, k, segs, i); } else { AddressFirst(s, k, segs, i, n - 1); }
    }
  }

  lemma {:induction false} AddressNone(s: Section, k: nat, segs: seq<Segment>, n: nat)
    requires n <= |segs| && forall j :: 0 <= j < n ==> k !in Listed(segs[j])
    ensures AddressAfter(s, k, segs, n) == (s.address, s.addressSet)
  {
    hide Listed;
    if n > 0 { AddressNone(s, k, segs, n - 1); }
  }

  lemma {:induction false} AddressOwn(s: Section, k: nat, segs: seq<Segment>, n: nat)
    requires n <= |segs|
    ensures s.addressSet || Loose(segs, k) ==> AddressAfter(s, k, segs, n).0 == s.address
    ensures s.addressSet ==> AddressAfter(s, k, segs, n) == (s.address, true)
    ensures Loose(segs, k) ==> AddressAfter(s, k, segs, n) == (s.address, s.addressSet)
  {
    hide Listed;
    if n > 0 { AddressOwn(s, k, segs, n - 1); }
  }
}
