/** Where the ELF writer puts things: file header, program header table, section header table, then section data. */
module ElfLayout {
  import opened Sizes

  datatype Kind = Null | NoBits | Bits

  /** A section's shape, and the offset and address that the writer fills in. */
  datatype Section = Section(kind: Kind, size: nat, align: nat, loaded: bool,
                             offset: nat, address: nat, addressSet: bool)

  datatype Segment = Segment(align: nat, vaddr: nat, sections: seq<nat>, offset: nat, fileSize: nat, memSize: nat)

  /** Counts are 16 bits wide. */
  function Half(n: nat): nat { n % 65536 }

  function Listed(seg: Segment): seq<nat> { seg.sections[..Half(|seg.sections|)] }

  /** Sizes of the file header and of the entries of the two tables. */
  datatype Class = Elf32 | Elf64 {
    function HeaderSize(): nat { if Elf32? then 52 else 64 }
    function SegmentEntrySize(): nat { if Elf32? then 32 else 56 }
    function SectionEntrySize(): nat { if Elf32? then 40 else 64 }
  }

  /** The bytes of the file a section's data take. */
  function Extent(s: Section): nat { if s.kind.Bits? then s.size else 0 }

  function Aligned(pos: nat, align: nat): (q: nat)
    ensures pos <= q && (align > 1 ==> q % align == 0 && q < pos + align) && (align <= 1 ==> q == pos)
  {
    if align > 1 && pos % align != 0 then
      RoundUp(pos, align);
      pos + (align - pos % align)
    else pos
  }

  lemma RoundUp(pos: nat, align: nat)
    requires align > 1
    ensures (pos + (align - pos % align)) % align == 0
  {
    var k := pos / align;
    assert pos == k * align + pos % align;
    assert pos + (align - pos % align) == (k + 1) * align;
    MultipleMod(k + 1, align);
  }

  ghost predicate Within(list: seq<nat>, n: nat) { forall i :: 0 <= i < |list| ==> list[i] < n }

  /** Where the data of these sections end when laid out one after the other from pos on. */
  ghost function DataEnd(pos: nat, list: seq<nat>, secs: seq<Section>): (e: nat)
    requires Within(list, |secs|)
    ensures e >= pos
  {
    if list == [] then pos
    else
      var last := secs[list[|list| - 1]];
      Aligned(DataEnd(pos, list[..|list| - 1], secs), last.align) + Extent(last)
  }

  /** The sizes of those sections that take room in memory only. */
  ghost function MemoryOnly(list: seq<nat>, secs: seq<Section>): nat
    requires Within(list, |secs|)
  {
    if list == [] then 0
    else
      var last := secs[list[|list| - 1]];
      MemoryOnly(list[..|list| - 1], secs) + if last.kind.Bits? then 0 else last.size
  }

  /** A write to the file, and what it writes. */
  datatype What = FileHeader(segmentsOffset: nat, sectionsOffset: nat, segmentsNum: nat, sectionsNum: nat)
                | SegmentEntry(segment: nat, segmentOffset: nat, fileSize: nat, memSize: nat)
                | SectionEntry(section: nat, offset: nat, address: nat)
                | Contents(of: nat)
  datatype Write = Write(lo: nat, hi: nat, what: What)

  ghost predicate Apart(v: Write, w: Write) { v.hi <= w.lo || w.hi <= v.lo }

  ghost predicate SameEntry(v: Write, w: Write) {
    v.what.SectionEntry? && w.what.SectionEntry? && v.what.section == w.what.section
  }

  /** No write hits what another one wrote, but for a section's entry in the table, which may be written anew. */
  ghost predicate NoClobber(file: seq<Write>) {
    forall a, b :: 0 <= a < b < |file| ==> Apart(file[a], file[b]) || SameEntry(file[a], file[b])
  }

  /** The tables of a file with so many segments and sections. */
  datatype Tables = Tables(cls: Class, segments: nat, sections: nat) {
    function SegmentAt(i: nat): nat { if cls.Elf32? then 52 + 32 * i else 64 + 56 * i }
    function SectionAt(k: nat): nat { SegmentAt(segments) + if cls.Elf32? then 40 * k else 64 * k }
    function End(): nat { SectionAt(sections) }
  }

  /** The place of a write, once so many segments are saved and data reach up to pos. */
  ghost predicate Spot(w: Write, t: Tables, saved: nat, pos: nat) {
    match w.what
    case FileHeader(_, _, _, _) => w.lo == 0 && w.hi == t.cls.HeaderSize()
    case SegmentEntry(i, _, _, _) => i < saved && w.lo == t.SegmentAt(i) && w.hi == t.SegmentAt(i + 1)
    case SectionEntry(k, _, _) => k < t.sections && w.lo == t.SectionAt(k) && w.hi == t.SectionAt(k + 1)
    case Contents(_) => t.End() <= w.lo <= w.hi <= pos
  }

  ghost predicate Placed(file: seq<Write>, t: Tables, saved: nat, pos: nat) {
    && saved <= t.segments
    && NoClobber(file)
    && forall a :: 0 <= a < |file| ==> Spot(file[a], t, saved, pos)
  }

  /** A write in a place of its own: another entry of a table, or data beyond all others. */
  lemma SpotsApart(v: Write, w: Write, t: Tables, saved: nat, pos: nat, saved': nat, pos': nat)
    requires Spot(v, t, saved, pos) && Spot(w, t, saved', pos') && saved <= t.segments && saved' <= t.segments
    requires
      || w.what.SectionEntry?
      || (w.what.SegmentEntry? && w.what.segment == saved)
      || (w.what.Contents? && w.lo >= pos)
    requires t.End() <= pos
    ensures Apart(v, w) || SameEntry(v, w)
  {}

  lemma PlaceMore(file: seq<Write>, w: Write, t: Tables, saved: nat, pos: nat, saved': nat, pos': nat)
    requires Placed(file, t, saved, pos) && saved <= saved' <= t.segments && pos <= pos' && Spot(w, t, saved', pos')
    requires
      || w.what.SectionEntry?
      || (w.what.SegmentEntry? && w.what.segment == saved)
      || (w.what.Contents? && w.lo >= pos)
    requires t.End() <= pos
    ensures Placed(file + [w], t, saved', pos')
  {
    forall a | 0 <= a < |file|
      ensures Apart(file[a], w) || SameEntry(file[a], w)
      ensures Spot(file[a], t, saved', pos')
    {
      SpotsApart(file[a], w, t, saved, pos, saved', pos');
    }
    hide Spot, Apart, SameEntry;
  }

  /** Sections saved so far: aligned, clear of the tables and of one another, and before pos. Section 0 keeps whatever
      offset it has. */
  ghost predicate Settled(secs: seq<Section>, done: set<nat>, start: nat, pos: nat) {
    && (forall k :: k in done ==> k < |secs|)
    && (forall k :: k in done && k != 0 ==>
          && start <= secs[k].offset && secs[k].offset + Extent(secs[k]) <= pos
          && (secs[k].align > 1 ==> secs[k].offset % secs[k].align == 0))
    && (forall k, m :: k in done && m in done && k != m && k != 0 && m != 0 ==>
          secs[k].offset + Extent(secs[k]) <= secs[m].offset || secs[m].offset + Extent(secs[m]) <= secs[k].offset)
  }

  ghost predicate SameShape(s: Section, s': Section) {
    s' == s.(offset := s'.offset, address := s'.address, addressSet := s'.addressSet)
  }

  ghost predicate SameShapes(secs: seq<Section>, secs': seq<Section>) {
    |secs| == |secs'| && forall k :: 0 <= k < |secs| ==> SameShape(secs[k], secs'[k])
  }

  lemma SettleMore(secs: seq<Section>, secs': seq<Section>, done: set<nat>, k: nat, start: nat, pos: nat, at: nat)
    requires Settled(secs, done, start, pos) && k < |secs| && start <= pos <= at
    requires |secs'| == |secs| && SameShape(secs[k], secs'[k]) && secs' == secs[k := secs'[k]]
    requires k != 0 ==> secs'[k].offset == at
    requires secs[k].align > 1 ==> at % secs[k].align == 0
    ensures Settled(secs', done + {k}, start, at + Extent(secs[k]))
  {}
}
