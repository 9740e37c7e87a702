/** The ELF writer's layout pass: every section and segment gets its place in the file and is written there. */
module ElfWriter {
  import opened ElfLayout

  /** The segments a 16-bit count reaches. */
  function Seen(segs: seq<Segment>): seq<Segment> { segs[..Half(|segs|)] }

  ghost predicate Loose(segs: seq<Segment>, k: nat) {
    forall i :: 0 <= i < |segs| ==> k !in Listed(segs[i])
  }

  /** The sections below n that are in no segment, in order. */
  ghost function LooseBelow(segs: seq<Segment>, n: nat): (list: seq<nat>)
    ensures Within(list, n)
  {
    if n == 0 then [] else LooseBelow(segs, n - 1) + if Loose(segs, n - 1) then [n - 1] else []
  }

  /** Where the data of the first n segments end. */
  ghost function SegmentsEnd(pos: nat, segs: seq<Segment>, secs: seq<Section>, n: nat): (e: nat)
    requires n <= |segs| && AllWithin(segs, |secs|)
    ensures e >= pos
  {
    if n == 0 then pos
    else DataEnd(Aligned(SegmentsEnd(pos, segs, secs, n - 1), segs[n - 1].align), Listed(segs[n - 1]), secs)
  }

  ghost predicate AllWithin(segs: seq<Segment>, n: nat) {
    forall i :: 0 <= i < |segs| ==> Within(Listed(segs[i]), n)
  }

  /** The last of the first n segments that lists the section, or -1. */
  ghost function LastListing(segs: seq<Segment>, k: nat, n: nat): (i: int)
    requires n <= |segs|
    ensures -1 <= i < n && (i >= 0 ==> k in Listed(segs[i])) && forall j :: i < j < n ==> k !in Listed(segs[j])
  {
    if n == 0 then -1 else if k in Listed(segs[n - 1]) then n - 1 else LastListing(segs, k, n - 1)
  }

  /** The address a section ends up with: its own, or that of the first of the segments that list it. */
  ghost function AddressAfter(s: Section, k: nat, segs: seq<Segment>, n: nat): (nat, bool)
    requires n <= |segs|
  {
    if n == 0 then (s.address, s.addressSet)
    else
      var before := AddressAfter(s, k, segs, n - 1);
      if before.1 || k !in Listed(segs[n - 1]) then before else (segs[n - 1].vaddr, true)
  }

  /** Where a section in no segment is put. */
  ghost function LooseSpot(pos: nat, segs: seq<Segment>, secs: seq<Section>, k: nat): nat requires k < |secs| {
    Aligned(DataEnd(pos, LooseBelow(segs, k), secs), secs[k].align)
  }

  /** A section as the first pass leaves it. */
  ghost function AfterLoose(pos: nat, segs: seq<Segment>, secs: seq<Section>, k: nat): Section requires k < |secs| {
    if k != 0 && Loose(segs, k) then secs[k].(offset := LooseSpot(pos, segs, secs, k)) else secs[k]
  }

  ghost function AllAfterLoose(pos: nat, segs: seq<Segment>, secs: seq<Section>): (mid: seq<Section>)
    ensures |mid| == |secs| && forall k :: 0 <= k < |secs| ==> mid[k] == AfterLoose(pos, segs, secs, k)
  { seq(|secs|, k requires 0 <= k < |secs| => AfterLoose(pos, segs, secs, k)) }

  lemma LooseMore(pos: nat, segs: seq<Segment>, secs: seq<Section>, k: nat)
    requires k < |secs|
    ensures DataEnd(pos, LooseBelow(segs, k + 1), secs) ==
              if Loose(segs, k) then LooseSpot(pos, segs, secs, k) + Extent(secs[k])
              else DataEnd(pos, LooseBelow(segs, k), secs)
  {
    if Loose(segs, k) {
      assert LooseBelow(segs, k + 1)[..|LooseBelow(segs, k)|] == LooseBelow(segs, k);
    } else {
      assert LooseBelow(segs, k + 1) == LooseBelow(segs, k);
    }
  }

  ghost predicate Inside(s: Section, seg: Segment) {
    seg.offset <= s.offset && s.offset + Extent(s) <= seg.offset + seg.fileSize
  }

  lemma DataEndMore(pos: nat, list: seq<nat>, secs: seq<Section>, j: nat)
    requires j < |list| && Within(list, |secs|)
    ensures Within(list[..j], |secs|) && Within(list[..j + 1], |secs|)
    ensures DataEnd(pos, list[..j + 1], secs) ==
              Aligned(DataEnd(pos, list[..j], secs), secs[list[j]].align) + Extent(secs[list[j]])
    ensures MemoryOnly(list[..j + 1], secs) ==
              MemoryOnly(list[..j], secs) + if secs[list[j]].kind.Bits? then 0 else secs[list[j]].size
  {
    assert list[..j + 1][..j] == list[..j];
  }

  /** A section whose data are written. */
  predicate HasData(s: Section) { s.kind.Bits? && s.size != 0 && s.loaded }

  /** What saving a section at this position appends to the file. */
  ghost function SavedAs(t: Tables, k: nat, s: Section, at: nat): seq<Write> {
    [Write(t.SectionAt(k), t.SectionAt(k + 1), SectionEntry(k, s.offset, s.address))] +
    if HasData(s) then [Write(at, at + s.size, Contents(k))] else []
  }

  lemma SectionPlaced(file: seq<Write>, t: Tables, k: nat, s: Section, at: nat, saved: nat, p: nat)
    requires Placed(file, t, saved, p) && t.End() <= p <= at && k < t.sections
    ensures Placed(file + SavedAs(t, k, s, at), t, saved, at + Extent(s))
  {
    assert saved <= t.segments;
    hide Placed;
    var writes := SavedAs(t, k, s, at);
    if |writes| == 1 {
      assert writes == [writes[0]];
      PlaceMore(file, writes[0], t, saved, p, saved, at + Extent(s));
    } else {
      PlaceMore(file, writes[0], t, saved, p, saved, at);
      PlaceMore(file + [writes[0]], writes[1], t, saved, at, saved, at + Extent(s));
      assert file + [writes[0]] + [writes[1]] == file + writes;
    }
  }

  /** A segment laid out from the first place it may start at. */
  ghost function LaidOut(pos: nat, seg: Segment, secs: seq<Section>): Segment
    requires Within(Listed(seg), |secs|)
  {
    var start := Aligned(pos, seg.align);
    var size := DataEnd(start, Listed(seg), secs) - start;
    seg.(offset := start, fileSize := size, memSize := size + MemoryOnly(Listed(seg), secs))
  }

  lemma {:induction false} ShapesDecide(pos: nat, list: seq<nat>, secs: seq<Section>, secs': seq<Section>)
    requires SameShapes(secs, secs') && Within(list, |secs|)
    ensures DataEnd(pos, list, secs) == DataEnd(pos, list, secs') && MemoryOnly(list, secs) == MemoryOnly(list, secs')
  {
    if list != [] { ShapesDecide(pos, list[..|list| - 1], secs, secs'); }
  }

  /** A section saved at this position as part of a segment with this address. */
  ghost function Member(s: Section, k: nat, vaddr: nat, at: nat): Section {
    Section(s.kind, s.size, s.align, s.loaded,
            if k == 0 then s.offset else at, if s.addressSet then s.address else vaddr, true)
  }

  /** This write is the last of the section's entry in the table. */
  ghost predicate Latest(file: seq<Write>, k: nat, a: int) {
    && 0 <= a < |file| && file[a].what.SectionEntry? && file[a].what.section == k
    && forall b :: a < b < |file| ==> !(file[b].what.SectionEntry? && file[b].what.section == k)
  }

  /** The file's table has the section's offset and address, and its data, if any, are in the file at that offset. */
  ghost predicate OnDisk(file: seq<Write>, s: Section, k: nat) {
    exists a :: Latest(file, k, a) && file[a].what == SectionEntry(k, s.offset, s.address) &&
      (k != 0 && HasData(s) ==>
         a + 1 < |file| && file[a + 1] == Write(s.offset, s.offset + s.size, Contents(k)))
  }

  ghost predicate SectionsOnDisk(file: seq<Write>, secs: seq<Section>, done: set<nat>) {
    forall k :: k in done && k < |secs| ==> OnDisk(file, secs[k], k)
  }

  /** Every data write is of all the data of a section, at a place aligned for it. */
  ghost predicate Fair(file: seq<Write>, secs: seq<Section>) {
    forall a :: 0 <= a < |file| && file[a].what.Contents? ==> FairWrite(file[a], secs)
  }

  ghost predicate FairWrite(w: Write, secs: seq<Section>) requires w.what.Contents? {
    && w.what.of < |secs|
    && var s := secs[w.what.of];
    HasData(s) && w.hi == w.lo + s.size && (s.align > 1 ==> w.lo % s.align == 0)
  }

  lemma FairMore(file: seq<Write>, t: Tables, secs: seq<Section>, k: nat, s: Section, at: nat)
    requires Fair(file, secs) && k < |secs| && SameShape(secs[k], s) && (s.align > 1 ==> at % s.align == 0)
    ensures Fair(file + SavedAs(t, k, s, at), secs[k := s])
  {}

  lemma FairStill(file: seq<Write>, secs: seq<Section>, secs': seq<Section>)
    requires Fair(file, secs) && SameShapes(secs, secs')
    ensures Fair(file, secs')
  {}

  /** The data of section k are written somewhere in [lo, hi). */
  ghost predicate Copied(file: seq<Write>, k: nat, lo: nat, hi: nat) {
    exists a :: 0 <= a < |file| && file[a].what == Contents(k) && lo <= file[a].lo && file[a].hi <= hi
  }

  ghost predicate CopiesIn(file: seq<Write>, secs: seq<Section>, list: seq<nat>, lo: nat, hi: nat) {
    forall j :: 0 <= j < |list| && list[j] < |secs| && HasData(secs[list[j]]) ==> Copied(file, list[j], lo, hi)
  }

  lemma CopiedStill(file: seq<Write>, file': seq<Write>, k: nat, lo: nat, hi: nat, hi': nat)
    requires Copied(file, k, lo, hi) && file <= file' && hi <= hi'
    ensures Copied(file', k, lo, hi')
  {
    var a :| 0 <= a < |file| && file[a].what == Contents(k) && lo <= file[a].lo && file[a].hi <= hi;
    assert file'[a] == file[a];
  }

  lemma CopiesStill(file: seq<Write>, file': seq<Write>, secs: seq<Section>, list: seq<nat>, lo: nat, hi: nat)
    requires CopiesIn(file, secs, list, lo, hi) && file <= file'
    ensures CopiesIn(file', secs, list, lo, hi)
  {
    forall j | 0 <= j < |list| && list[j] < |secs| && HasData(secs[list[j]]) ensures Copied(file', list[j], lo, hi) {
      CopiedStill(file, file', list[j], lo, hi, hi);
    }
  }

  /** One more section of the list is saved, behind the others. */
  lemma CopiesMore(file: seq<Write>, t: Tables, secs: seq<Section>, list: seq<nat>, j: nat, s: Section, lo: nat,
                   hi: nat,
                   at: nat)
    requires j < |list| && list[j] < |secs| && CopiesIn(file, secs, list[..j], lo, hi) && lo <= hi <= at
    requires SameShape(secs[list[j]], s)
    ensures CopiesIn(file + SavedAs(t, list[j], s, at), secs, list[..j + 1], lo, at + Extent(s))
  {
    var file' := file + SavedAs(t, list[j], s, at);
    forall m | 0 <= m < j + 1 && list[m] < |secs| && HasData(secs[list[m]])
      ensures Copied(file', list[m], lo, at + Extent(s))
    {
      if m < j {
        assert list[..j][m] == list[m];
        CopiedStill(file, file', list[m], lo, hi, at + Extent(s));
      } else {
        assert file'[|file| + 1].what == Contents(list[j]);
      }
    }
  }

  /** Each of the first n segments has inside it a copy of the data of every section it lists. */
  ghost predicate AllCopied(file: seq<Write>, segs: seq<Segment>, secs: seq<Section>, segs': seq<Segment>, n: nat) {
    && n <= |segs| <= |segs'|
    && forall i :: 0 <= i < n ==>
         CopiesIn(file, secs, Listed(segs[i]), segs'[i].offset, segs'[i].offset + segs'[i].fileSize)
  }

  lemma AllCopiedMore(file: seq<Write>, file': seq<Write>, segs: seq<Segment>, secs: seq<Section>, secs': seq<Section>,
                      segs': seq<Segment>, segs'': seq<Segment>, n: nat)
    requires AllCopied(file, segs, secs, segs', n) && n < |segs| && file <= file' && SameShapes(secs, secs')
    requires |segs''| == |segs'| && segs'' == segs'[n := segs''[n]]
    requires CopiesIn(file', secs', Listed(segs[n]), segs''[n].offset, segs''[n].offset + segs''[n].fileSize)
    ensures AllCopied(file', segs, secs, segs'', n + 1)
  {
    hide Listed;
    forall i | 0 <= i < n + 1
      ensures CopiesIn(file', secs, Listed(segs[i]), segs''[i].offset, segs''[i].offset + segs''[i].fileSize)
    {
      if i < n {
        CopiesStill(file, file', secs, Listed(segs[i]), segs'[i].offset, segs'[i].offset + segs'[i].fileSize);
      }
    }
  }

  /** The write has all data of section k, aligned, inside the segment. */
  ghost predicate AllOf(w: Write, k: nat, s: Section, seg: Segment) {
    && w.what == Contents(k) && w.hi == w.lo + s.size && (s.align > 1 ==> w.lo % s.align == 0)
    && seg.offset <= w.lo && w.hi <= seg.offset + seg.fileSize
  }

  /** What that says of one section: the segment holds all its data, aligned, in one piece. */
  lemma SegmentHoldsData(file: seq<Write>, segs: seq<Segment>, secs: seq<Section>, segs': seq<Segment>, i: nat, k: nat)
    requires AllCopied(file, segs, secs, segs', |segs|) && Fair(file, secs)
    requires i < |segs| && k in Listed(segs[i]) && k < |secs|
    requires secs[k].kind == Bits && secs[k].size > 0 && secs[k].loaded
    ensures exists a :: 0 <= a < |file| && AllOf(file[a], k, secs[k], segs'[i])
  {
    hide Listed;
    var list := Listed(segs[i]);
    var j :| 0 <= j < |list| && list[j] == k;
    var lo, hi := segs'[i].offset, segs'[i].offset + segs'[i].fileSize;
    assert CopiesIn(file, secs, list, lo, hi);
    assert Copied(file, list[j], lo, hi);
    var a :| 0 <= a < |file| && file[a].what == Contents(k) && lo <= file[a].lo && file[a].hi <= hi;
    assert FairWrite(file[a], secs);
  }

  ghost predicate Recorded(file: seq<Write>, seg: Segment, i: nat) {
    exists a :: 0 <= a < |file| && file[a].what == SegmentEntry(i, seg.offset, seg.fileSize, seg.memSize)
  }

  ghost predicate SegmentsOnDisk(file: seq<Write>, segs: seq<Segment>, saved: nat) {
    saved <= |segs| && forall i :: 0 <= i < saved ==> Recorded(file, segs[i], i)
  }

  lemma SegmentsKept(file: seq<Write>, more: seq<Write>, segs: seq<Segment>, saved: nat)
    requires SegmentsOnDisk(file, segs, saved)
    ensures SegmentsOnDisk(file + more, segs, saved)
  {
    forall i | 0 <= i < saved ensures Recorded(file + more, segs[i], i) {
      assert Recorded(file, segs[i], i);
      var a :| 0 <= a < |file| && file[a].what == SegmentEntry(i, segs[i].offset, segs[i].fileSize, segs[i].memSize);
      assert (file + more)[a] == file[a];
    }
  }

  lemma StillOnDisk(file: seq<Write>, more: seq<Write>, s: Section, k: nat)
    requires OnDisk(file, s, k)
    requires forall b :: 0 <= b < |more| ==> !(more[b].what.SectionEntry? && more[b].what.section == k)
    ensures OnDisk(file + more, s, k)
  {
    var a :| Latest(file, k, a) && file[a].what == SectionEntry(k, s.offset, s.address) &&
      (k != 0 && HasData(s) ==>
         a + 1 < |file| && file[a + 1] == Write(s.offset, s.offset + s.size, Contents(k)));
    assert Latest(file + more, k, a) && (a + 1 < |file| ==> (file + more)[a + 1] == file[a + 1]);
  }

  lemma SectionsKept(file: seq<Write>, t: Tables, secs: seq<Section>, done: set<nat>, k: nat, s: Section, at: nat)
    requires SectionsOnDisk(file, secs, done - {k}) && k < |secs| && (k != 0 ==> s.offset == at)
    ensures SectionsOnDisk(file + SavedAs(t, k, s, at), secs[k := s], done + {k})
  {
    var more := SavedAs(t, k, s, at);
    forall m | m in done + {k} && m < |secs|
      ensures OnDisk(file + more, secs[k := s][m], m)
    {
      if m == k {
        assert Latest(file + more, k, |file|);
        assert |more| > 1 ==> (file + more)[|file| + 1] == more[1];
      } else {
        assert OnDisk(file, secs[m], m);
        StillOnDisk(file, more, secs[m], m);
      }
    }
  }

  class Writer {
    const cls: Class
    var sections: seq<Section>
    var segments: seq<Segment>
    var segmentsOffset: nat
    var sectionsOffset: nat
    var segmentsNum: nat
    var sectionsNum: nat
    var pos: nat
    var file: seq<Write>
    ghost var done: set<nat>

    /** A file to be written. */
    constructor (cls: Class, sections: seq<Section>, segments: seq<Segment>)
      ensures this.cls == cls && this.sections == sections && this.segments == segments && file == [] && done == {}
    {
      this.cls, this.sections, this.segments, file, done := cls, sections, segments, [], {};
      segmentsOffset, sectionsOffset, segmentsNum, sectionsNum, pos := 0, 0, 0, 0, 0;
    }

    ghost function T(): Tables reads `segments, `sections { Tables(cls, Half(|segments|), |sections|) }

    ghost predicate Sound(saved: nat, at: nat) reads `segments, `sections, `file, `done {
      && Placed(file, T(), saved, at) && Settled(sections, done, T().End(), at) && T().End() <= at
      && SectionsOnDisk(file, sections, done) && SegmentsOnDisk(file, segments, saved) && Fair(file, sections)
    }

    ghost predicate SoundBut(saved: nat, at: nat, k: nat) reads `segments, `sections, `file, `done {
      && Placed(file, T(), saved, at) && Settled(sections, done, T().End(), at) && T().End() <= at
      && SectionsOnDisk(file, sections, done - {k}) && SegmentsOnDisk(file, segments, saved) && Fair(file, sections)
    }

    ghost predicate Headed() reads this {
      && segmentsNum == Half(|segments|) && sectionsNum == |sections|
      && sectionsOffset == T().SectionAt(0)
      && segmentsOffset == if segmentsNum == 0 then 0 else T().SegmentAt(0)
    }

    method FillFinalAttributes()
      requires |sections| < 65536
      modifies `segmentsOffset, `sectionsOffset, `segmentsNum, `sectionsNum
      ensures Headed()
    {
      segmentsNum := Half(|segments|);
      segmentsOffset := if segmentsNum == 0 then 0 else cls.HeaderSize();
      sectionsNum := Half(|sections|);
      sectionsOffset := cls.HeaderSize() + cls.SegmentEntrySize() * segmentsNum;
    }

    method SetCurrentFilePosition()
      requires Headed()
      modifies `pos
      ensures pos == T().End()
    {
      pos := cls.HeaderSize() + cls.SegmentEntrySize() * segmentsNum + cls.SectionEntrySize() * sectionsNum;
    }

    method SaveHeader()
      requires Headed() && pos == T().End() && file == [] && done == {}
      modifies `file
      ensures file == [Write(0, cls.HeaderSize(), FileHeader(segmentsOffset, sectionsOffset, segmentsNum, sectionsNum))]
      ensures Sound(0, pos)
    {
      file := [Write(0, cls.HeaderSize(), FileHeader(segmentsOffset, sectionsOffset, segmentsNum, sectionsNum))];
    }

    method SaveSection(k: nat, headerPosition: nat, at: nat, ghost saved: nat, ghost p: nat)
      requires k < |sections| && headerPosition == T().SectionAt(k) && SoundBut(saved, p, k) && p <= at
      requires sections[k].align > 1 ==> at % sections[k].align == 0
      modifies `sections, `file, `done
      ensures sections ==
                old(sections)[k := old(sections[k]).(offset := if k == 0 then old(sections[0].offset) else at)]
      ensures file == old(file) + SavedAs(T(), k, sections[k], at)
      ensures done == old(done) + {k}
      ensures Sound(saved, at + Extent(sections[k]))
    {
      hide Placed, Settled, SectionsOnDisk, SegmentsOnDisk, Fair;
      var s := sections[k];
      if k != 0 { s := s.(offset := at); }
      SectionPlaced(file, T(), k, s, at, saved, p);
      SettleMore(sections, sections[k := s], done, k, T().End(), p, at);
      SectionsKept(file, T(), sections, done, k, s, at);
      SegmentsKept(file, SavedAs(T(), k, s, at), segments, saved);
      FairMore(file, T(), sections, k, s, at);
      var entry := Write(headerPosition, headerPosition + cls.SectionEntrySize(), SectionEntry(k, s.offset, s.address));
      var data := if HasData(s) then [Write(at, at + s.size, Contents(k))] else [];
      Store(sections[k := s], file + ([entry] + data), done + {k});
    }

    method Store(secs: seq<Section>, written: seq<Write>, ghost saved: set<nat>)
      modifies `sections, `file, `done
      ensures sections == secs && file == written && done == saved
    {
      sections, file, done := secs, written, saved;
    }

    method IsSectionWithoutSegment(k: nat) returns (r: bool)
      ensures r == Loose(Seen(segments), k)
    {
      var found, j := false, 0;
      while !found && j < Half(|segments|)
        invariant j <= Half(|segments|)
        invariant found ==> !Loose(Seen(segments), k)
        invariant !found ==> forall i :: 0 <= i < j ==> k !in Listed(Seen(segments)[i])
      {
        var m := 0;
        assert Seen(segments)[j] == segments[j];
        while !found && m < |Listed(segments[j])|
          invariant m <= |Listed(segments[j])|
          invariant found ==> k in Listed(segments[j])
          invariant !found ==> k !in Listed(segments[j])[..m]
        {
          found := Listed(segments[j])[m] == k;
          m := m + 1;
        }
        j := j + 1;
      }
      r := !found;
    }

    method SaveLoose(k: nat)
      requires Headed() && k < |sections| && Sound(0, pos)
      modifies `sections, `file, `done, `pos
      ensures Headed() && Sound(0, pos) && done == old(done) + {k} && old(file) <= file
      ensures var at := Aligned(old(pos), old(sections[k].align));
        && pos == at + Extent(old(sections[k]))
        && sections == old(sections)[k := old(sections[k]).(offset := if k == 0 then old(sections[0].offset) else at)]
    {
      hide Placed, Settled, OnDisk, SegmentsOnDisk, Fair;
      ghost var before := pos;
      pos := Aligned(pos, sections[k].align);
      SaveSection(k, sectionsOffset + cls.SectionEntrySize() * k, pos, 0, before);
      if sections[k].kind.Bits? { pos := pos + sections[k].size; }
    }

    method SaveSectionsWithoutSegments()
      requires Headed() && Sound(0, pos) && done == {}
      modifies `sections, `file, `done, `pos
      ensures Headed() && Sound(0, pos) && old(file) <= file
      ensures pos == DataEnd(old(pos), LooseBelow(Seen(segments), |sections|), old(sections))
      ensures |sections| == |old(sections)|
      ensures forall k :: 0 <= k < |sections| ==> sections[k] == AfterLoose(old(pos), Seen(segments), old(sections), k)
      ensures forall k: nat :: k < |sections| ==> (k in done <==> Loose(Seen(segments), k))
    {
      hide Loose, LooseBelow, DataEnd, Aligned, Writer.Sound;
      ghost var secs, segs, start := sections, Seen(segments), pos;
      NoneBelow(start, segs, secs);
      var i := 0;
      while i < |sections|
        invariant i <= |sections| == |secs| && Headed() && Sound(0, pos) && old(file) <= file
        invariant pos == DataEnd(start, LooseBelow(segs, i), secs)
        invariant forall k :: 0 <= k < i ==> sections[k] == AfterLoose(start, segs, secs, k)
        invariant forall k :: i <= k < |sections| ==> sections[k] == secs[k]
        invariant forall k: nat :: k in done <==> k < i && Loose(segs, k)
      {
        LooseMore(start, segs, secs, i);
        var loose := IsSectionWithoutSegment(i);
        if loose {
          SaveLoose(i);
        }
        i := i + 1;
      }
    }

    /** Saves a section as part of a segment, whose address it gets if it has none. */
    method SaveMember(k: nat, vaddr: nat, at: nat, ghost saved: nat, ghost p: nat)
      requires Headed() && k < |sections| && Sound(saved, p) && p <= at
      requires sections[k].align > 1 ==> at % sections[k].align == 0
      modifies `sections, `file, `done
      ensures Headed() && |sections| == |old(sections)| && sections == old(sections)[k := sections[k]]
      ensures sections[k] == Member(old(sections[k]), k, vaddr, at)
      ensures done == old(done) + {k} && Sound(saved, at + Extent(sections[k]))
      ensures file == old(file) + SavedAs(T(), k, sections[k], at)
    {
      hide Placed, Settled, OnDisk, SegmentsOnDisk, Fair;
      if !sections[k].addressSet {
        ghost var was := sections;
        sections := sections[k := sections[k].(address := vaddr, addressSet := true)];
        SettledStill(was, sections, done, T().End(), p);
        FairStill(file, was, sections);
      }
      SaveSection(k, sectionsOffset + cls.SectionEntrySize() * k, at, saved, p);
    }

    /** The inner loop: a segment's sections, one after the other from its start on. */
    method SaveSectionsOf(i: nat, start: nat) returns (dataPos: nat, extra: nat)
      requires Headed() && i < Half(|segments|) && Within(Listed(segments[i]), |sections|) && Sound(i, start)
      modifies `sections, `file, `done
      ensures Headed() && Sound(i, dataPos) && start <= dataPos && old(file) <= file
      ensures dataPos == DataEnd(start, Listed(segments[i]), old(sections))
      ensures extra == MemoryOnly(Listed(segments[i]), old(sections))
      ensures Resaved(old(sections), sections, Listed(segments[i]), segments[i].vaddr, start, dataPos)
      ensures CopiesIn(file, old(sections), Listed(segments[i]), start, dataPos)
      ensures forall k: nat :: k in done <==> k in old(done) || k in Listed(segments[i])
    {
      hide DataEnd, MemoryOnly, Listed, Resaved, CopiesIn, Writer.Sound;
      ghost var secs, list := sections, Listed(segments[i]);
      dataPos, extra := start, 0;
      ResavedNone(start, secs, list, segments[i].vaddr);
      NoCopies(file, secs, list, start);
      var j := 0;
      while j < |Listed(segments[i])|
        invariant j <= |list| && Headed() && Sound(i, dataPos) && start <= dataPos && old(file) <= file
        invariant Within(list[..j], |secs|)
        invariant dataPos == DataEnd(start, list[..j], secs) && extra == MemoryOnly(list[..j], secs)
        invariant Resaved(secs, sections, list[..j], segments[i].vaddr, start, dataPos)
        invariant CopiesIn(file, secs, list[..j], start, dataPos)
        invariant forall k: nat :: k in done <==> k in old(done) || k in list[..j]
      {
        DataEndMore(start, list, secs, j);
        var k := Listed(segments[i])[j];
        ghost var was, from := sections, dataPos;
        ResavedShape(secs, was, list[..j], segments[i].vaddr, start, dataPos);
        assert SameShape(secs[k], was[k]);
        dataPos := Aligned(dataPos, sections[k].align);
        ghost var written := file;
        SaveMember(k, segments[i].vaddr, dataPos, i, from);
        CopiesMore(written, T(), secs, list, j, sections[k], start, from, dataPos);
        ResavedMore(secs, was, sections, list, j, segments[i].vaddr, start, from, dataPos);
        if sections[k].kind.Bits? {
          dataPos := dataPos + sections[k].size;
        } else {
          extra := extra + sections[k].size;
        }
        assert list[..j + 1] == list[..j] + [k];
        j := j + 1;
      }
      assert list[..j] == list;
    }

    /** One segment: its sections, then its own entry with the sizes they came to. */
    method SaveSegment(i: nat, headerPosition: nat)
      requires Headed() && i < Half(|segments|) && Within(Listed(segments[i]), |sections|) && Sound(i, pos)
      requires headerPosition == T().SegmentAt(i)
      modifies `sections, `segments, `file, `done, `pos
      ensures Headed() && Sound(i + 1, pos) && |sections| == |old(sections)| && old(file) <= file
      ensures segments == old(segments)[i := LaidOut(old(pos), old(segments[i]), old(sections))]
      ensures pos == segments[i].offset + segments[i].fileSize
      ensures Resaved(old(sections), sections, Listed(old(segments[i])), old(segments[i].vaddr),
                      segments[i].offset, pos)
      ensures CopiesIn(file, old(sections), Listed(old(segments[i])), segments[i].offset, pos)
      ensures forall k: nat :: k in done <==> k in old(done) || k in Listed(old(segments[i]))
    {
      hide Placed, Settled, DataEnd, MemoryOnly, Resaved, SectionsOnDisk, SegmentsOnDisk, Fair, CopiesIn;
      var start := Aligned(pos, segments[i].align);
      PlacedLater(file, T(), i, pos, start);
      SettledLater(sections, done, T().End(), pos, start);
      var dataPos, extra := SaveSectionsOf(i, start);
      var seg := segments[i].(offset := start, fileSize := dataPos - start, memSize := dataPos - start + extra);
      var entry := Write(headerPosition, headerPosition + cls.SegmentEntrySize(),
                         SegmentEntry(i, start, seg.fileSize, seg.memSize));
      PlaceMore(file, entry, T(), i, dataPos, i + 1, dataPos);
      ResavedShape(old(sections), sections, Listed(seg), seg.vaddr, start, dataPos);
      SectionsStill(file, entry, sections, done);
      SegmentsMore(file, entry, segments, i, seg);
      FairEntry(file, entry, sections);
      CopiesStill(file, file + [entry], old(sections), Listed(segments[i]), start, dataPos);
      StoreSegment(i, seg, entry, dataPos);
    }

    method StoreSegment(i: nat, seg: Segment, entry: Write, dataPos: nat)
      requires i < |segments|
      modifies `segments, `file, `pos
      ensures segments == old(segments)[i := seg] && file == old(file) + [entry] && pos == dataPos
    {
      segments, file, pos := segments[i := seg], file + [entry], dataPos;
    }

    method SaveSegmentsAndTheirSections()
      requires Headed() && AllWithin(Seen(segments), |sections|) && Sound(0, pos)
      modifies `sections, `segments, `file, `done, `pos
      ensures Headed() && Sound(Half(|segments|), pos) && old(file) <= file
      ensures Finished(old(pos), Seen(old(segments)), old(sections), segments, sections, pos, Half(|segments|))
      ensures |segments| == |old(segments)| && segments[Half(|segments|)..] == old(segments)[Half(|segments|)..]
      ensures AllCopied(file, Seen(old(segments)), old(sections), segments, Half(|segments|))
      ensures forall k: nat :: k in done <==> k in old(done) || !Loose(Seen(old(segments)), k)
    {
      hide Placed, Settled, Resaved, Finished, Listed, CopiesIn, Writer.Sound;
      ghost var start, segs, secs := pos, Seen(segments), sections;
      FinishedNone(start, segs, secs, segments);
      var headerPosition := segmentsOffset;
      var i := 0;
      while i < Half(|segments|)
        invariant i <= |segs| == Half(|segments|) && Headed() && Sound(i, pos) && old(file) <= file
        invariant |segments| == |old(segments)| && (i < |segs| ==> headerPosition == T().SegmentAt(i))
        invariant segments[i..] == old(segments)[i..]
        invariant Finished(start, segs, secs, segments, sections, pos, i)
        invariant AllCopied(file, segs, secs, segments, i)
        invariant forall k: nat :: k in done <==> k in old(done) || LastListing(segs, k, i) >= 0
      {
        ghost var segs', secs', pos', file' := segments, sections, pos, file;
        assert segments[i] == segments[i..][0] == old(segments)[i..][0] == segs[i];
        FinishedShape(start, segs, secs, segs', secs', pos', i);
        SaveSegment(i, headerPosition);
        FinishedMore(start, segs, secs, segs', secs', pos', segments, sections, pos, i);
        AllCopiedMore(file', file, segs, secs, secs', segs', segments, i);
        headerPosition := headerPosition + cls.SegmentEntrySize();
        i := i + 1;
      }
    }

    /** The whole pass. */
    method Save()
      requires |sections| < 65536 && AllWithin(Seen(segments), |sections|) && file == [] && done == {}
      modifies this
      ensures |sections| == |old(sections)| && |segments| == |old(segments)|
      ensures Sound(Half(|segments|), pos) && forall k: nat :: k in done <==> k < |sections|
      ensures |file| > 0 && file[0].what == FileHeader(segmentsOffset, sectionsOffset, Half(|segments|), |sections|)
      ensures BothPasses(T().End(), Seen(old(segments)), old(sections), segments, sections, pos)
      ensures AllCopied(file, Seen(old(segments)), old(sections), segments, Half(|segments|))
      ensures Fair(file, old(sections))
    {
      hide Placed, Settled, SectionsOnDisk, SegmentsOnDisk, Finished, Loose, LooseBelow, DataEnd, Fair, AllCopied,
        AllAfterLoose;
      FillFinalAttributes();
      SetCurrentFilePosition();
      SaveHeader();
      ghost var secs, segs, start := sections, Seen(segments), pos;
      SaveSectionsWithoutSegments();
      assert sections == AllAfterLoose(start, segs, secs);
      ghost var mid := sections;
      SaveSegmentsAndTheirSections();
      ShapesThrough(start, segs, secs, mid, segments, sections, pos, file);
      DoneWithin(sections, done, T().End(), pos);
    }
  }

  /** Sections in no segment are placed first, then the segments with theirs. */
  ghost predicate BothPasses(start: nat, segs: seq<Segment>, secs: seq<Section>, segs': seq<Segment>,
                             secs': seq<Section>, pos: nat) {
    Finished(DataEnd(start, LooseBelow(segs, |secs|), secs), segs, AllAfterLoose(start, segs, secs), segs', secs', pos,
             |segs|)
  }

  /** Both passes leave shapes alone, so what is said of them holds of the sections given. */
  lemma ShapesThrough(start: nat, segs: seq<Segment>, secs: seq<Section>, mid: seq<Section>, segs': seq<Segment>,
                      secs': seq<Section>, pos: nat, file: seq<Write>)
    requires |mid| == |secs| && forall k :: 0 <= k < |secs| ==> mid[k] == AfterLoose(start, segs, secs, k)
    requires Finished(DataEnd(start, LooseBelow(segs, |secs|), secs), segs, mid, segs', secs', pos, |segs|)
    requires AllCopied(file, segs, mid, segs', |segs|) && Fair(file, secs')
    ensures AllCopied(file, segs, secs, segs', |segs|) && Fair(file, secs)
  {
    hide Listed, LooseSpot, LaidOut, SegmentsEnd, Filled, Loose, FairWrite;
    FinishedSame(DataEnd(start, LooseBelow(segs, |secs|), secs), segs, mid, segs', secs', pos);
    assert SameShapes(secs', secs);
    FairStill(file, secs', secs);
    forall i | 0 <= i < |segs|
      ensures CopiesIn(file, secs, Listed(segs[i]), segs'[i].offset, segs'[i].offset + segs'[i].fileSize)
    {
      assert CopiesIn(file, mid, Listed(segs[i]), segs'[i].offset, segs'[i].offset + segs'[i].fileSize);
    }
  }

  lemma FairEntry(file: seq<Write>, w: Write, secs: seq<Section>)
    requires Fair(file, secs) && !w.what.Contents?
    ensures Fair(file + [w], secs)
  {}

  lemma NoCopies(file: seq<Write>, secs: seq<Section>, list: seq<nat>, start: nat)
    ensures CopiesIn(file, secs, list[..0], start, start)
  {}

  lemma DoneWithin(secs: seq<Section>, done: set<nat>, start: nat, pos: nat)
    requires Settled(secs, done, start, pos)
    ensures forall k :: k in done ==> k < |secs|
  {}

  /** The first n segments are laid out one after the other from start on, each section they list lies inside the last
      that lists it and has the address it should; sections they do not list are untouched. */
  ghost predicate Finished(start: nat, segs: seq<Segment>, secs: seq<Section>, segs': seq<Segment>, secs': seq<Section>,
                           pos: nat, n: nat) {
    && n <= |segs| <= |segs'| && AllWithin(segs, |secs|) && SameShapes(secs, secs')
    && pos == SegmentsEnd(start, segs, secs, n)
    && (forall i :: 0 <= i < n ==> segs'[i] == LaidOut(SegmentsEnd(start, segs, secs, i), segs[i], secs))
    && (forall k :: 0 <= k < |secs| ==> Filled(segs, secs[k], segs', secs'[k], k, n))
  }

  ghost predicate Filled(segs: seq<Segment>, s: Section, segs': seq<Segment>, s': Section, k: nat, n: nat)
    requires n <= |segs| <= |segs'|
  {
    var i := LastListing(segs, k, n);
    && (s'.address, s'.addressSet) == AddressAfter(s, k, segs, n)
    && (if i < 0 then s' == s else if k == 0 then s'.offset == s.offset else Inside(s', segs'[i]))
  }

  lemma FinishedNone(start: nat, segs: seq<Segment>, secs: seq<Section>, segs': seq<Segment>)
    requires AllWithin(segs, |secs|) && |segs| <= |segs'|
    ensures Finished(start, segs, secs, segs', secs, start, 0)
  {}

  lemma FinishedShape(start: nat, segs: seq<Segment>, secs: seq<Section>, segs': seq<Segment>, secs': seq<Section>,
                      pos: nat, n: nat)
    requires Finished(start, segs, secs, segs', secs', pos, n) && n < |segs|
    ensures SameShapes(secs, secs') && Within(Listed(segs[n]), |secs'|)
  {}

  lemma FinishedMore(start: nat, segs: seq<Segment>, secs: seq<Section>, segs': seq<Segment>, secs': seq<Section>,
                     pos': nat,
                     segs'': seq<Segment>, secs'': seq<Section>, pos'': nat, n: nat)
    requires Finished(start, segs, secs, segs', secs', pos', n) && n < |segs| && segs'[n] == segs[n]
    requires Within(Listed(segs[n]), |secs'|) && segs'' == segs'[n := LaidOut(pos', segs[n], secs')]
    requires pos'' == segs''[n].offset + segs''[n].fileSize
    requires Resaved(secs', secs'', Listed(segs[n]), segs[n].vaddr, segs''[n].offset, pos'')
    ensures Finished(start, segs, secs, segs'', secs'', pos'', n + 1)
  {
    ShapesDecide(Aligned(pos', segs[n].align), Listed(segs[n]), secs, secs');
    forall k | 0 <= k < |secs|
      ensures SameShape(secs[k], secs''[k])
      ensures Filled(segs, secs[k], segs'', secs''[k], k, n + 1)
    {
      FilledMore(segs, secs[k], segs', secs', segs'', secs'', pos'', k, n);
    }
    EndsAt(start, segs, secs, n);
    assert segs''[n] == LaidOut(pos', segs[n], secs);
    hide Filled, Resaved, Listed, LaidOut, SegmentsEnd;
  }

  lemma FilledMore(segs: seq<Segment>, s: Section, segs': seq<Segment>, secs': seq<Section>, segs'': seq<Segment>,
                   secs'': seq<Section>, pos'': nat, k: nat, n: nat)
    requires n < |segs| <= |segs'| == |segs''| && k < |secs'| && segs'' == segs'[n := segs''[n]]
    requires SameShape(s, secs'[k]) && Filled(segs, s, segs', secs'[k], k, n)
    requires pos'' == segs''[n].offset + segs''[n].fileSize
    requires Resaved(secs', secs'', Listed(segs[n]), segs[n].vaddr, segs''[n].offset, pos'')
    ensures SameShape(s, secs''[k]) && Filled(segs, s, segs'', secs''[k], k, n + 1)
  {
    hide Listed;
    assert SameShape(secs'[k], secs''[k]);
    assert k !in Listed(segs[n]) ==> secs''[k] == secs'[k];
  }

  lemma SettledStill(secs: seq<Section>, secs': seq<Section>, done: set<nat>, start: nat, pos: nat)
    requires Settled(secs, done, start, pos) && |secs'| == |secs|
    requires forall k :: 0 <= k < |secs| ==> SameShape(secs[k], secs'[k]) && secs'[k].offset == secs[k].offset
    ensures Settled(secs', done, start, pos)
  {}

  lemma SectionsStill(file: seq<Write>, w: Write, secs: seq<Section>, done: set<nat>)
    requires SectionsOnDisk(file, secs, done) && w.what.SegmentEntry?
    ensures SectionsOnDisk(file + [w], secs, done)
  {
    forall k | k in done && k < |secs| ensures OnDisk(file + [w], secs[k], k) {
      StillOnDisk(file, [w], secs[k], k);
    }
  }

  lemma SegmentsMore(file: seq<Write>, w: Write, segs: seq<Segment>, i: nat, seg: Segment)
    requires SegmentsOnDisk(file, segs, i) && i < |segs|
    requires w.what == SegmentEntry(i, seg.offset, seg.fileSize, seg.memSize)
    ensures SegmentsOnDisk(file + [w], segs[i := seg], i + 1)
  {
    SegmentsKept(file, [w], segs, i);
    assert (file + [w])[|file|] == w;
  }

  lemma PlacedLater(file: seq<Write>, t: Tables, saved: nat, pos: nat, pos': nat)
    requires Placed(file, t, saved, pos) && pos <= pos'
    ensures Placed(file, t, saved, pos')
  {}

  lemma SettledLater(secs: seq<Section>, done: set<nat>, start: nat, pos: nat, pos': nat)
    requires Settled(secs, done, start, pos) && pos <= pos'
    ensures Settled(secs, done, start, pos')
  {}

  /** The sections of this list have been given places between start and end, and addresses; the others are as
      before. */
  ghost predicate Resaved(secs: seq<Section>, secs': seq<Section>, list: seq<nat>, vaddr: nat, start: nat, end: nat) {
    && SameShapes(secs, secs')
    && (forall k :: 0 <= k < |secs| && k !in list ==> secs'[k] == secs[k])
    && (forall k :: 0 <= k < |secs| && k in list ==>
          && (if k == 0 then secs'[k].offset == secs[k].offset
              else start <= secs'[k].offset && secs'[k].offset + Extent(secs[k]) <= end)
          && secs'[k].addressSet && secs'[k].address == if secs[k].addressSet then secs[k].address else vaddr)
  }

  lemma ResavedNone(start: nat, secs: seq<Section>, list: seq<nat>, vaddr: nat)
    ensures Within(list[..0], |secs|) && DataEnd(start, list[..0], secs) == start && MemoryOnly(list[..0], secs) == 0
    ensures Resaved(secs, secs, list[..0], vaddr, start, start)
  {}

  lemma ResavedShape(secs: seq<Section>, secs': seq<Section>, list: seq<nat>, vaddr: nat, start: nat, end: nat)
    requires Resaved(secs, secs', list, vaddr, start, end)
    ensures SameShapes(secs, secs')
  {}

  lemma ResavedMore(secs: seq<Section>, was: seq<Section>, now: seq<Section>, list: seq<nat>, j: nat, vaddr: nat,
                    start: nat, end: nat, at: nat)
    requires j < |list| && list[j] < |secs| && Resaved(secs, was, list[..j], vaddr, start, end) && start <= end <= at
    requires |now| == |was| && now == was[list[j] := Member(was[list[j]], list[j], vaddr, at)]
    ensures Resaved(secs, now, list[..j + 1], vaddr, start, at + Extent(secs[list[j]]))
  {
    assert list[..j + 1] == list[..j] + [list[j]];
  }

  lemma NoneBelow(pos: nat, segs: seq<Segment>, secs: seq<Section>)
    ensures DataEnd(pos, LooseBelow(segs, 0), secs) == pos
  {}

  /** The data of section k are in the file, all of them, at its offset. */
  ghost predicate DataAt(file: seq<Write>, s: Section, k: nat)
  { exists a :: 0 <= a < |file| && file[a] == Write(s.offset, s.offset + s.size, Contents(k)) }

  /** A data write is of all the data of a section that has any in memory, at a place aligned for it. */
  ghost predicate WholeData(w: Write, secs: seq<Section>) requires w.what.Contents? {
    && w.what.of < |secs|
    && var s := secs[w.what.of];
    && s.kind == Bits && s.size > 0 && s.loaded
    && w.hi == w.lo + s.size && (s.align > 1 ==> w.lo % s.align == 0)
  }

  lemma OnDiskData(file: seq<Write>, s: Section, k: nat)
    requires OnDisk(file, s, k) && k != 0 && HasData(s)
    ensures DataAt(file, s, k)
  {
    var a :| Latest(file, k, a) && file[a].what == SectionEntry(k, s.offset, s.address) &&
      (k != 0 && HasData(s) ==>
         a + 1 < |file| && file[a + 1] == Write(s.offset, s.offset + s.size, Contents(k)));
    assert file[a + 1] == Write(s.offset, s.offset + s.size, Contents(k));
  }

  /** What the pass promises of the file it leaves: writes do not hit one another; every section's data lie at the
      offset in its entry, aligned, clear of the tables and of all other sections' data. */
  lemma FileInOrder(w: Writer, saved: nat)
    requires w.Sound(saved, w.pos) && forall k: nat :: k in w.done <==> k < |w.sections|
    ensures NoClobber(w.file)
    ensures forall a :: 0 <= a < |w.file| && w.file[a].what.Contents? ==> WholeData(w.file[a], w.sections)
    ensures forall k :: 0 < k < |w.sections| ==>
      var s := w.sections[k];
      s.kind == Bits && s.size > 0 && s.loaded ==> DataAt(w.file, s, k)
    ensures forall k :: 0 < k < |w.sections| ==>
      var s := w.sections[k];
      OnDisk(w.file, s, k) && w.T().End() <= s.offset && (s.align > 1 ==> s.offset % s.align == 0)
    ensures forall k, m :: 0 < k < |w.sections| && 0 < m < |w.sections| && k != m ==>
      var s, r := w.sections[k], w.sections[m];
      s.offset + Extent(s) <= r.offset || r.offset + Extent(r) <= s.offset
  {
    forall a | 0 <= a < |w.file| && w.file[a].what.Contents? ensures WholeData(w.file[a], w.sections) {
      assert FairWrite(w.file[a], w.sections);
    }
    hide OnDisk, DataAt;
    forall k | 0 < k < |w.sections| && HasData(w.sections[k]) ensures DataAt(w.file, w.sections[k], k) {
      OnDiskData(w.file, w.sections[k], k);
    }
  }

  /** What it promises of a segment: it is aligned, takes at least as much memory as file, and comes before later
      ones. */
  lemma SegmentsInOrder(start: nat, segs: seq<Segment>, secs: seq<Section>, segs': seq<Segment>, secs': seq<Section>,
                        pos: nat, i: nat)
    requires Finished(start, segs, secs, segs', secs', pos, |segs|) && i < |segs|
    ensures segs'[i].memSize >= segs'[i].fileSize && (segs[i].align > 1 ==> segs'[i].offset % segs[i].align == 0)
    ensures forall j :: i < j < |segs| ==> segs'[i].offset + segs'[i].fileSize <= segs'[j].offset
  {
    hide DataEnd, MemoryOnly, Filled, Listed, SegmentsEnd;
    forall j | i < j < |segs| ensures segs'[i].offset + segs'[i].fileSize <= segs'[j].offset {
      EndsGrow(start, segs, secs, i + 1, j);
      EndsAt(start, segs, secs, i);
      assert segs'[j] == LaidOut(SegmentsEnd(start, segs, secs, j), segs[j], secs);
    }
  }

  lemma EndsAt(start: nat, segs: seq<Segment>, secs: seq<Section>, i: nat)
    requires i < |segs| && AllWithin(segs, |secs|)
    ensures var seg := LaidOut(SegmentsEnd(start, segs, secs, i), segs[i], secs);
      seg.offset + seg.fileSize == SegmentsEnd(start, segs, secs, i + 1)
  {
    hide DataEnd, MemoryOnly, Listed;
  }

  lemma {:induction false} EndsGrow(start: nat, segs: seq<Segment>, secs: seq<Section>, m: nat, n: nat)
    requires m <= n <= |segs| && AllWithin(segs, |secs|)
    ensures SegmentsEnd(start, segs, secs, m) <= SegmentsEnd(start, segs, secs, n)
  {
    hide DataEnd, Listed;
    if m < n { EndsGrow(start, segs, secs, m, n - 1); }
  }

  /** The data of a section lie inside a segment that lists it, as the two tables have it, just when no later segment
      lists it too: the data are written for each of them, but the section's entry names the last place. */
  lemma HeldByLastListing(start: nat, segs: seq<Segment>, secs: seq<Section>, segs': seq<Segment>, secs': seq<Section>,
                          pos: nat,
                          i: nat, k: nat)
    requires Finished(start, segs, secs, segs', secs', pos, |segs|) && i < |segs|
    requires 0 < k < |secs| && k in Listed(segs[i]) && Extent(secs[k]) > 0
    ensures |segs| <= |segs'| && |secs'| == |secs|
    ensures Inside(secs'[k], segs'[i]) <==> forall j :: i < j < |segs| ==> k !in Listed(segs[j])
  {
    hide Finished, Listed, LastListing, AddressAfter;
    FinishedAt(start, segs, secs, segs', secs', pos, k);
    SegmentsInOrder(start, segs, secs, segs', secs', pos, i);
    assert Inside(secs'[k], segs'[LastListing(segs, k, |segs|)]);
  }

  /** So in a file with two segments that both list section 1, four bytes of data, its entry leads outside the first. */
  method ListedTwice() returns (w: Writer)
    ensures |w.sections| == 2 && |w.segments| == 2 && 1 in Listed(w.segments[0]) && HasData(w.sections[1])
    ensures !Inside(w.sections[1], w.segments[0])
  {
    var none := Section(Null, 0, 0, false, 0, 0, false);
    var data := Section(Bits, 4, 4, true, 0, 0, false);
    var seg := Segment(4096, 0, [1], 0, 0, 0);
    w := new Writer(Elf64, [none, data], [seg, seg]);
    ghost var segs, secs := Seen(w.segments), w.sections;
    assert Listed(seg) == [1] && segs == [seg, seg] && AllWithin(segs, 2);
    hide Listed, Seen, AllWithin, Writer.Sound, BothPasses, AllCopied, Fair, Inside;
    w.Save();
    OutsideFirst(w.T().End(), segs, secs, w.segments, w.sections, w.pos);
  }

  lemma OutsideFirst(start: nat, segs: seq<Segment>, secs: seq<Section>, segs': seq<Segment>, secs': seq<Section>,
                     pos: nat)
    requires |segs| == |segs'| == 2 && |secs| == |secs'| == 2 && HasData(secs[1])
    requires 1 in Listed(segs[0]) && 1 in Listed(segs[1])
    requires BothPasses(start, segs, secs, segs', secs', pos)
    ensures 1 in Listed(segs'[0]) && HasData(secs'[1]) && !Inside(secs'[1], segs'[0])
  {
    hide Listed, DataEnd, LooseBelow, LooseSpot, Loose, AllAfterLoose, Finished, Inside;
    var mid := AllAfterLoose(start, segs, secs);
    var from := DataEnd(start, LooseBelow(segs, |secs|), secs);
    FinishedSame(from, segs, mid, segs', secs', pos);
    assert SameShape(mid[1], secs'[1]) && SameShape(secs[1], mid[1]);
    HeldByLastListing(from, segs, mid, segs', secs', pos, 0, 1);
  }

  lemma FinishedSame(start: nat, segs: seq<Segment>, secs: seq<Section>, segs': seq<Segment>, secs': seq<Section>,
                     pos: nat)
    requires Finished(start, segs, secs, segs', secs', pos, |segs|)
    ensures |segs| <= |segs'| && SameShapes(secs, secs')
    ensures forall i :: 0 <= i < |segs| ==> Listed(segs'[i]) == Listed(segs[i])
  {
    hide Filled, SegmentsEnd, DataEnd, MemoryOnly;
  }

  lemma FinishedAt(start: nat, segs: seq<Segment>, secs: seq<Section>, segs': seq<Segment>, secs': seq<Section>,
                   pos: nat, k: nat)
    requires Finished(start, segs, secs, segs', secs', pos, |segs|) && k < |secs|
    ensures |segs| <= |segs'| && |secs'| == |secs|
    ensures Filled(segs, secs[k], segs', secs'[k], k, |segs|) && SameShape(secs[k], secs'[k])
  {
    hide Filled, SegmentsEnd, LaidOut, Listed;
  }
}
