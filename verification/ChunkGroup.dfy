/**
 A file opened for reading: its chunks are sharded into 64 MiB sections, each with its own
 overlay (weed/filer/filechunk_section.go, weed/filer/filechunk_group.go).
 */
module ChunkGroups {
  import opened FileChunks
  import opened SweepLine
  import opened Manifest
  import opened Manifestize
  import opened ChunkViews
  import opened Compaction

  /** Sections are 2 * 1024 * 1024 * 32 bytes, 64 MiB, long. */
  function SectionStart(si: int): int { si * 0x400_0000 }

  function SectionIndex(o: int): int { o / 0x400_0000 }

  predicate InSection(si: int, o: int) { SectionStart(si) <= o < SectionStart(si + 1) }

  /** The chunk is filed under section `si`. */
  predicate FiledUnder(c: FileChunk, si: int) {
    SectionIndex(c.offset) <= si <= SectionIndex(c.Stop())
  }

  function SectionChunks(cs: seq<FileChunk>, si: int): seq<FileChunk> {
    Filter(cs, (c: FileChunk) => FiledUnder(c, si))
  }

  lemma SectionOf(o: int, si: int)
    ensures InSection(si, o) <==> SectionIndex(o) == si
  {
  }

  /** Sharding is faithful: on every offset of a section, the section's chunks alone decide the
      byte the way the whole file does. */
  lemma {:induction false} ShardingIsFaithful(cs: seq<FileChunk>, si: int, o: int)
    requires TieFree(cs) && InSection(si, o)
    ensures Newest(SectionChunks(cs, si), o) == Newest(cs, o)
  {
  }

  // ---------------------------------------------------------------------------------------
  // Bytes and times
  // ---------------------------------------------------------------------------------------

  type Volumes = Source -> bv8

  /** Holes read as zero. */
  function ByteFrom(src: Option<Source>, stored: Volumes): bv8 {
    if src.None? then 0 else stored(src.value)
  }

  function FileByte(cs: seq<FileChunk>, stored: Volumes, o: int): bv8 {
    ByteFrom(SourceAt(cs, o), stored)
  }

  function TimeFrom(src: Option<Source>): int {
    if src.None? then 0 else src.value.ts
  }

  /** The latest write time among the bytes of `[lo, hi)`, zero if there is none. */
  function MaxTime(cs: seq<FileChunk>, lo: int, hi: int): (r: int)
    ensures r >= 0
    decreases hi - lo
  {
    if lo >= hi then 0 else Max(MaxTime(cs, lo, hi - 1), TimeFrom(SourceAt(cs, hi - 1)))
  }

  lemma {:induction false} MaxTimeSplits(cs: seq<FileChunk>, lo: int, mid: int, hi: int)
    requires lo <= mid <= hi
    ensures MaxTime(cs, lo, hi) == Max(MaxTime(cs, lo, mid), MaxTime(cs, mid, hi))
    decreases hi - mid
  {
    if mid < hi {
      MaxTimeSplits(cs, lo, mid, hi - 1);
    }
  }

  lemma {:induction false} NoDataNoTime(cs: seq<FileChunk>, lo: int, hi: int)
    requires forall o :: lo <= o < hi ==> SourceAt(cs, o).None?
    ensures MaxTime(cs, lo, hi) == 0
    decreases hi - lo
  {
    if lo < hi {
      NoDataNoTime(cs, lo, hi - 1);
    }
  }

  // ---------------------------------------------------------------------------------------
  // One section
  // ---------------------------------------------------------------------------------------

  class FileChunkSection {
    const sectionIndex: int
    var chunks: seq<FileChunk>
    var visibleIntervals: Option<seq<VisibleInterval>>
    var chunkViews: seq<ChunkView>
    var isPrepared: bool

    ghost predicate Valid()
      reads this
    {
      && 0 <= sectionIndex && SectionStart(sectionIndex + 1) <= MAX_INT64
      && ValidChunks(chunks) && TieFree(chunks)
      && (visibleIntervals.Some? ==> isPrepared)
      && (isPrepared ==> forall o :: InSection(sectionIndex, o) ==> ViewedIn(chunkViews, o) == SourceAt(chunks, o))
    }

    constructor (si: int)
      requires 0 <= si && SectionStart(si + 1) <= MAX_INT64
      ensures Valid() && sectionIndex == si && chunks == [] && !isPrepared && visibleIntervals.None?
    {
      sectionIndex := si;
      chunks := [];
      visibleIntervals := None;
      chunkViews := [];
      isPrepared := false;
    }

    /** Builds the section's overlay once. Afterwards the views give, on the section, exactly
        what the section's chunks gave before hidden ones were dropped. */
    method SetupForRead()
      requires Valid()
      modifies this
      ensures Valid() && isPrepared
      ensures forall o :: InSection(sectionIndex, o) ==> Newest(chunks, o) == old(Newest(chunks, o))
    {
      if isPrepared {
        return;
      }
      var start, stop := SectionStart(sectionIndex), SectionStart(sectionIndex + 1);
      var visibles := ReadResolvedChunks(chunks, start, stop);
      var kept, garbage := SeparateGarbageChunks(visibles, chunks);
      var views := ViewFromVisibleIntervals(visibles, start, stop);
      PreparedSection(chunks, visibles, kept, views, start, stop);
      visibleIntervals := Some(visibles);
      chunks := kept;
      chunkViews := views;
      isPrepared := true;
    }

    /** Reads `buff[lo..hi]`, where `buff[i]` stands for file offset `base + i`. */
    method ReadDataAt(stored: Volumes, buff: array<bv8>, lo: nat, hi: nat, base: int) returns (n: int, ts: int)
      requires Valid() && lo <= hi <= buff.Length
      requires SectionStart(sectionIndex) <= base + lo && base + hi <= SectionStart(sectionIndex + 1)
      modifies this, buff
      ensures Valid() && isPrepared
      ensures forall o :: InSection(sectionIndex, o) ==> Newest(chunks, o) == old(Newest(chunks, o))
      ensures Filled(buff[..], lo, hi, base, chunks, stored)
      ensures Untouched(buff[..], old(buff[..]), lo, hi)
      ensures n == hi - lo && ts == MaxTime(chunks, base + lo, base + hi)
    {
      SetupForRead();
      n, ts := FillFromViews(chunkViews, chunks, stored, buff, lo, hi, base);
    }
  }

  ghost predicate Filled(buff: seq<bv8>, lo: int, hi: int, base: int, cs: seq<FileChunk>, stored: Volumes)
    requires 0 <= lo <= hi <= |buff|
  {
    forall i :: lo <= i < hi ==> buff[i] == FileByte(cs, stored, base + i)
  }

  predicate Untouched(buff: seq<bv8>, before: seq<bv8>, lo: int, hi: int) {
    |buff| == |before| && forall i :: 0 <= i < |buff| && !(lo <= i < hi) ==> buff[i] == before[i]
  }

  /** What the chunk reader does for a section: every byte of the slice from its view, zero on
      holes, and the newest write time seen. */
  method FillFromViews(views: seq<ChunkView>, ghost cs: seq<FileChunk>, stored: Volumes,
                       buff: array<bv8>, lo: nat, hi: nat, base: int) returns (n: int, ts: int)
    requires lo <= hi <= buff.Length
    requires forall o :: base + lo <= o < base + hi ==> ViewedIn(views, o) == SourceAt(cs, o)
    modifies buff
    ensures Filled(buff[..], lo, hi, base, cs, stored)
    ensures Untouched(buff[..], old(buff[..]), lo, hi)
    ensures n == hi - lo && ts == MaxTime(cs, base + lo, base + hi)
  {
    n, ts := 0, 0;
    for i := lo to hi
      invariant Filled(buff[..], lo, i, base, cs, stored)
      invariant Untouched(buff[..], old(buff[..]), lo, i)
      invariant n == i - lo && ts == MaxTime(cs, base + lo, base + i)
    {
      var src := ViewedIn(views, base + i);
      buff[i] := ByteFrom(src, stored);
      n := n + 1;
      ts := Max(ts, TimeFrom(src));
    }
  }

  lemma PreparedSection(before: seq<FileChunk>, visibles: seq<VisibleInterval>, kept: seq<FileChunk>,
                        views: seq<ChunkView>, start: int, stop: int)
    requires ValidChunks(before) && TieFree(before) && 0 <= start <= stop <= MAX_INT64
    requires Depicts(visibles, before, start, stop)
    requires kept == Filter(before, WithId(set v | v in visibles :: v.fileId))
    requires forall o :: ViewedIn(views, o) == if start <= o < RangeStop(start, stop) then SeenIn(visibles, o) else None
    ensures ValidChunks(kept) && TieFree(kept)
    ensures forall o :: start <= o < stop ==> Newest(kept, o) == Newest(before, o)
    ensures forall o :: start <= o < stop ==> ViewedIn(views, o) == SourceAt(kept, o)
  {
    FilterTieFree(before, WithId(set v | v in visibles :: v.fileId));
    forall o | start <= o < stop
      ensures Newest(kept, o) == Newest(before, o) && ViewedIn(views, o) == SourceAt(kept, o)
    {
      assert DepictsAt(visibles, before, o);
      KeptOnSection(before, visibles, o);
      DepictedSource(visibles, before, o);
    }
  }

  lemma KeptOnSection(before: seq<FileChunk>, visibles: seq<VisibleInterval>, o: int)
    requires TieFree(before) && DepictsAt(visibles, before, o)
    ensures Newest(Filter(before, WithId(set v | v in visibles :: v.fileId)), o) == Newest(before, o)
  {
  }

  // ---------------------------------------------------------------------------------------
  // Filing chunks under sections
  // ---------------------------------------------------------------------------------------

  /** Each manifest replaced by the chunks saved in it, one level only. */
  function OneLevel(cs: seq<FileChunk>): seq<FileChunk> {
    if cs == [] then []
    else
      var last := cs[|cs|-1];
      OneLevel(cs[..|cs|-1]) +
      (match last.body case Bytes => [last] case Saved(sub) => sub case Unreadable => [])
  }

  predicate AnyUnreadable(cs: seq<FileChunk>) {
    exists c :: c in cs && c.body.Unreadable?
  }

  /** Manifests that never nest are fully resolved by one level. */
  lemma {:induction false} OneLevelIsComplete(cs: seq<FileChunk>)
    requires Flat(cs)
    ensures OneLevel(cs) == Leaves(cs)
  {
    if cs != [] {
      var init, last := cs[..|cs|-1], cs[|cs|-1];
      assert cs == init + [last] && [last][1..] == [];
      OneLevelIsComplete(init);
      LeavesConcat(init, [last]);
      assert last in cs;
      if last.body.Saved? {
        LeavesOfData(last.body.chunks);
      }
    }
  }

  /** Every section a chunk is filed under ends inside int64. */
  predicate FitsSections(cs: seq<FileChunk>) {
    forall c <- cs :: SectionStart(SectionIndex(c.Stop()) + 1) <= MAX_INT64
  }

  type Sections = map<int, FileChunkSection>

  ghost function Content(sections: Sections, si: int): seq<FileChunk>
    reads sections.Values
  {
    if si in sections then sections[si].chunks else []
  }

  /** A section of this index that has not been read yet. */
  ghost predicate Blank(section: FileChunkSection, si: int)
    reads section
  {
    && section.sectionIndex == si && 0 <= si && SectionStart(si + 1) <= MAX_INT64
    && !section.isPrepared && section.visibleIntervals.None?
  }

  /** Section `si` holds the chunks of `cs` filed under it. */
  ghost predicate Files(sections: Sections, cs: seq<FileChunk>, si: int)
    reads sections.Values
  {
    && Content(sections, si) == SectionChunks(cs, si)
    && (si in sections ==> Blank(sections[si], si))
  }

  /** ... while `chunk` has reached the sections from `first` up to `next`. */
  ghost predicate FilesSoFar(sections: Sections, before: seq<FileChunk>, chunk: FileChunk, first: int, next: int, si: int)
    reads sections.Values
  {
    Files(sections, if first <= si < next then before + [chunk] else before, si)
  }

  lemma FiledOneMore(cs: seq<FileChunk>, c: FileChunk, si: int)
    ensures SectionChunks(cs + [c], si) == SectionChunks(cs, si) + if FiledUnder(c, si) then [c] else []
  {
  }

  /** Appends a chunk to one section, creating it if needed; other sections are untouched. */
  method AppendToSection(sections: Sections, si: int, chunk: FileChunk) returns (r: Sections)
    requires 0 <= si && SectionStart(si + 1) <= MAX_INT64
    requires forall k <- sections :: sections[k].sectionIndex == k
    requires si in sections ==> Blank(sections[si], si)
    modifies sections.Values
    ensures r.Keys == sections.Keys + {si}
    ensures forall k <- sections :: r[k] == sections[k]
    ensures forall k <- sections :: k != si ==> unchanged(sections[k])
    ensures forall k :: k != si ==> Content(r, k) == old(Content(sections, k))
    ensures si !in sections ==> fresh(r[si])
    ensures Blank(r[si], si) && Content(r, si) == old(Content(sections, si)) + [chunk]
  {
    r := sections;
    if si !in r {
      var section := new FileChunkSection(si);
      r := r[si := section];
    }
    r[si].chunks := r[si].chunks + [chunk];
  }

  method FileInOneSection(sections: Sections, ghost before: seq<FileChunk>, chunk: FileChunk, ghost first: int, si: int, ghost next: int)
    returns (r: Sections)
    requires 0 <= first <= si && FiledUnder(chunk, si) && next == si + 1 && SectionStart(si + 1) <= MAX_INT64
    requires forall k :: FilesSoFar(sections, before, chunk, first, si, k)
    modifies sections.Values
    ensures forall k :: FilesSoFar(r, before, chunk, first, next, k)
    ensures forall o <- r.Values :: o in sections.Values || fresh(o)
  {
    assert FilesSoFar(sections, before, chunk, first, si, si);
    forall k <- sections ensures sections[k].sectionIndex == k {
      assert FilesSoFar(sections, before, chunk, first, si, k);
    }
    ghost var content := Content(sections, si);
    r := AppendToSection(sections, si, chunk);
    forall o <- r.Values ensures o in sections.Values || fresh(o) {
      var k :| k in r && r[k] == o;
    }
    FiledThere(r, before, chunk, first, si, content);
    forall k ensures FilesSoFar(r, before, chunk, first, next, k) {
      assert old(FilesSoFar(sections, before, chunk, first, si, k));
      assert k != si ==> Content(r, k) == old(Content(sections, k));
    }
  }

  lemma FiledThere(r: Sections, before: seq<FileChunk>, chunk: FileChunk, first: int, si: int, content: seq<FileChunk>)
    requires si in r && Blank(r[si], si) && Content(r, si) == content + [chunk] && content == SectionChunks(before, si)
    requires first <= si && FiledUnder(chunk, si)
    ensures FilesSoFar(r, before, chunk, first, si + 1, si)
  {
    FiledOneMore(before, chunk, si);
  }

  /** Appends a chunk to every section it is filed under, creating sections as needed. */
  method FileChunkInSections(sections: Sections, chunk: FileChunk, ghost before: seq<FileChunk>) returns (r: Sections)
    requires chunk.Valid() && FitsSections([chunk])
    requires forall si :: Files(sections, before, si)
    modifies sections.Values
    ensures forall si :: Files(r, before + [chunk], si)
    ensures forall o <- r.Values :: o in sections.Values || fresh(o)
  {
    var first, last := SectionIndex(chunk.offset), SectionIndex(chunk.Stop());
    r := sections;
    assert chunk in [chunk];
    for si := first to last + 1
      invariant forall k :: FilesSoFar(r, before, chunk, first, si, k)
      invariant forall o <- r.Values :: o in sections.Values || fresh(o)
      modifies sections.Values
    {
      ghost var next := si + 1;
      r := FileInOneSection(r, before, chunk, first, si, next);
    }
    FiledEverywhere(r, before, chunk, last + 1);
  }

  lemma FiledEverywhere(sections: Sections, before: seq<FileChunk>, chunk: FileChunk, next: int)
    requires next == SectionIndex(chunk.Stop()) + 1
    requires forall k :: FilesSoFar(sections, before, chunk, SectionIndex(chunk.offset), next, k)
    ensures forall k :: Files(sections, before + [chunk], k)
  {
    forall k ensures Files(sections, before + [chunk], k) {
      FiledOneMore(before, chunk, k);
      assert FilesSoFar(sections, before, chunk, SectionIndex(chunk.offset), next, k);
    }
  }

  /** The sections decide every offset as the whole file does. */
  ghost predicate Faithful(sections: Sections, file: seq<FileChunk>, si: int)
    reads sections.Values
  {
    forall o :: InSection(si, o) ==> Newest(Content(sections, si), o) == Newest(file, o)
  }

  lemma FiledIsFaithful(sections: Sections, file: seq<FileChunk>, si: int)
    requires ValidChunks(file) && TieFree(file) && Files(sections, file, si)
    ensures Faithful(sections, file, si)
    ensures si in sections ==> sections[si].Valid() && sections[si].sectionIndex == si
  {
    forall o | InSection(si, o) ensures Newest(SectionChunks(file, si), o) == Newest(file, o) {
      ShardingIsFaithful(file, si, o);
    }
    FilterTieFree(file, (c: FileChunk) => FiledUnder(c, si));
  }
}
