/**
 Reading a file: clipping visible intervals to a read range, and the end-to-end view of a chunk
 list with manifests (weed/filer/filechunks.go).
 */
module ChunkViews {
  import opened FileChunks
  import opened SweepLine
  import opened Manifest

  datatype ChunkView = ChunkView(
    fileId: string, offsetInChunk: int, viewSize: int, viewOffset: int, chunkSize: int, ts: int)
  {
    predicate Contains(o: int) { viewOffset <= o < viewOffset + viewSize }

    function SourceOf(o: int): Source { Source(fileId, o - viewOffset + offsetInChunk, ts) }
  }

  // ---------------------------------------------------------------------------------------
  // What a list of intervals or views says about an offset
  // ---------------------------------------------------------------------------------------

  function SeenIn(vs: seq<VisibleInterval>, o: int): Option<Source> {
    if vs == [] then None
    else
      var rest := SeenIn(vs[..|vs|-1], o);
      if rest.Some? then rest
      else if vs[|vs|-1].Contains(o) then Some(vs[|vs|-1].SourceOf(o)) else None
  }

  function ViewedIn(vs: seq<ChunkView>, o: int): Option<Source> {
    if vs == [] then None
    else
      var rest := ViewedIn(vs[..|vs|-1], o);
      if rest.Some? then rest
      else if vs[|vs|-1].Contains(o) then Some(vs[|vs|-1].SourceOf(o)) else None
  }

  lemma {:induction false} SeenFacts(vs: seq<VisibleInterval>, o: int)
    ensures SeenIn(vs, o).Some? ==> exists v :: v in vs && v.Contains(o) && SeenIn(vs, o) == Some(v.SourceOf(o))
    ensures SeenIn(vs, o).None? ==> forall v <- vs :: !v.Contains(o)
  {
    if vs != [] {
      SeenFacts(vs[..|vs|-1], o);
      assert vs == vs[..|vs|-1] + [vs[|vs|-1]];
    }
  }

  /** Intervals that depict a chunk list give the position its newest chunk gives. */
  lemma {:induction false} DepictedSource(vs: seq<VisibleInterval>, cs: seq<FileChunk>, o: int)
    requires DepictsAt(vs, cs, o)
    ensures SeenIn(vs, o) == SourceAt(cs, o)
  {
    SeenFacts(vs, o);
    if SeenIn(vs, o).Some? {
      var v :| v in vs && v.Contains(o) && SeenIn(vs, o) == Some(v.SourceOf(o));
      assert Shows(v, Newest(cs, o).value);
    }
  }

  // ---------------------------------------------------------------------------------------
  // Clipping to a range
  // ---------------------------------------------------------------------------------------

  /** int64 addition. */
  function AddInt64(x: int, y: int): int {
    var z := x + y;
    if z > MAX_INT64 then z - 0x1_0000_0000_0000_0000
    else if z < MIN_INT64 then z + 0x1_0000_0000_0000_0000
    else z
  }

  /** Where a read range ends: an overflowing or unlimited size reads to the end of the file. */
  function RangeStop(offset: int, size: int): int {
    if offset + size > MAX_INT64 then MAX_INT64 else offset + size
  }

  /** The views repeat the intervals inside the range and show nothing outside it. */
  method ViewFromVisibleIntervals(visibles: seq<VisibleInterval>, offset: int, size: int)
    returns (chunkViews: seq<ChunkView>)
    requires 0 <= offset <= MAX_INT64 && 0 <= size <= MAX_INT64
    ensures forall o :: ViewedIn(chunkViews, o) ==
                        if offset <= o < RangeStop(offset, size) then SeenIn(visibles, o) else None
    ensures forall w <- chunkViews :: 0 < w.viewSize && offset <= w.viewOffset && w.viewOffset + w.viewSize <= RangeStop(offset, size)
  {
    var stop := AddInt64(offset, size);
    if size == MAX_INT64 {
      stop := MAX_INT64;
    }
    if stop < offset {
      stop := MAX_INT64;
    }
    assert stop == RangeStop(offset, size);
    chunkViews := [];
    for i := 0 to |visibles|
      invariant forall o :: ViewedIn(chunkViews, o) == if offset <= o < stop then SeenIn(visibles[..i], o) else None
      invariant forall w <- chunkViews :: 0 < w.viewSize && offset <= w.viewOffset && w.viewOffset + w.viewSize <= stop
    {
      var chunk := visibles[i];
      assert visibles[..i+1][..i] == visibles[..i];
      var chunkStart, chunkStop := Max(offset, chunk.start), Min(stop, chunk.stop);
      if chunkStart < chunkStop {
        var view := ChunkView(chunk.fileId, chunkStart - chunk.start + chunk.offsetInChunk,
                              chunkStop - chunkStart, chunkStart, chunk.chunkSize, chunk.ts);
        assert (chunkViews + [view])[..|chunkViews|] == chunkViews;
        chunkViews := chunkViews + [view];
      }
    }
    assert visibles[..|visibles|] == visibles;
  }

  // ---------------------------------------------------------------------------------------
  // End to end
  // ---------------------------------------------------------------------------------------

  /** What the source demands of a chunk list: sane bounds, manifests that span their content,
      and no two overlapping writes with one timestamp. */
  predicate WellFormed(chunks: seq<FileChunk>) {
    ValidTree(chunks) && Enclosing(chunks) && TieFree(Leaves(chunks))
  }

  lemma {:induction false} ReachedFacts(chunks: seq<FileChunk>, lo: int, hi: int)
    requires WellFormed(chunks)
    ensures var rs := Reached(chunks, lo, hi); ValidChunks(rs) && TieFree(rs)
    ensures forall c :: c in Reached(chunks, lo, hi) <==> c in Leaves(chunks) && c.Intersects(lo, hi)
  {
    PrunedResolution(chunks, lo, hi);
    ValidLeaves(chunks);
    FilterTieFree(Leaves(chunks), InRange(lo, hi));
  }

  /** The visible intervals of a chunk list, resolved for a range; nothing if a manifest is
      unreadable. They are exact on that range. */
  method NonOverlappingVisibleIntervals(chunks: seq<FileChunk>, startOffset: int, stopOffset: int)
    returns (visibles: seq<VisibleInterval>, failed: bool)
    requires WellFormed(chunks)
    ensures failed <==> !CanOpen(chunks, startOffset, stopOffset)
    ensures !failed ==> Ordered(visibles)
    ensures !failed ==> forall o :: DepictsAt(visibles, InWindow(Reached(chunks, startOffset, stopOffset), 0, MAX_INT64), o)
    ensures !failed ==> Depicts(visibles, Leaves(chunks), startOffset, stopOffset)
  {
    var dataChunks, manifestChunks;
    dataChunks, manifestChunks, failed := ResolveChunkManifest(chunks, startOffset, stopOffset);
    if failed {
      return [], true;
    }
    ReachedFacts(chunks, startOffset, stopOffset);
    visibles := ReadResolvedChunks(dataChunks, 0, MAX_INT64);
    ghost var kept := InWindow(dataChunks, 0, MAX_INT64);
    forall o | startOffset <= o < stopOffset ensures DepictsAt(visibles, Leaves(chunks), o) {
      assert DepictsAt(visibles, kept, o);
      NewestAgrees(Leaves(chunks), kept, o);
    }
  }

  /** At every offset of the read range the views give the file id, position and time that replaying
      the file would give, nothing on holes, and nothing outside the range. */
  ghost predicate Exact(views: seq<ChunkView>, cs: seq<FileChunk>, offset: int, size: int) {
    forall o :: ViewedIn(views, o) == if offset <= o < RangeStop(offset, size) then SourceAt(cs, o) else None
  }

  predicate EndsBefore(cs: seq<FileChunk>, offset: int) {
    forall c <- cs :: c.size == 0 || c.Stop() <= offset
  }

  /** Views of a range of the file. The range end is computed in int64 before manifests are
      resolved, so a range that overflows resolves to nothing: the views are exact if and only
      if the range does not overflow or the file has no byte from `offset` on. */
  method ViewFromChunks(chunks: seq<FileChunk>, offset: int, size: int) returns (views: seq<ChunkView>, failed: bool)
    requires WellFormed(chunks)
    requires 0 <= offset <= MAX_INT64 && 0 <= size <= MAX_INT64
    ensures failed <==> !CanOpen(chunks, offset, AddInt64(offset, size))
    ensures !failed ==>
              (Exact(views, Leaves(chunks), offset, size) <==>
               offset + size <= MAX_INT64 || EndsBefore(Leaves(chunks), offset))
  {
    var visibles;
    visibles, failed := NonOverlappingVisibleIntervals(chunks, offset, AddInt64(offset, size));
    if failed {
      return [], true;
    }
    views := ViewFromVisibleIntervals(visibles, offset, size);
    if offset + size <= MAX_INT64 {
      forall o | offset <= o < offset + size ensures SeenIn(visibles, o) == SourceAt(Leaves(chunks), o) {
        DepictedSource(visibles, Leaves(chunks), o);
      }
    } else {
      OverflowResolvesNothing(chunks, visibles, offset, size);
      EndsBeforeMeansNoSource(chunks, offset);
    }
  }

  lemma OverflowResolvesNothing(chunks: seq<FileChunk>, visibles: seq<VisibleInterval>, offset: int, size: int)
    requires WellFormed(chunks) && 0 <= offset <= MAX_INT64 && 0 <= size <= MAX_INT64 && offset + size > MAX_INT64
    requires forall o :: DepictsAt(visibles, InWindow(Reached(chunks, offset, AddInt64(offset, size)), 0, MAX_INT64), o)
    ensures forall o :: SeenIn(visibles, o).None?
  {
    ReachedFacts(chunks, offset, AddInt64(offset, size));
    var kept := InWindow(Reached(chunks, offset, AddInt64(offset, size)), 0, MAX_INT64);
    assert forall c :: c !in kept;
    forall o ensures SeenIn(visibles, o).None? {
      DepictedSource(visibles, kept, o);
      assert Newest(kept, o).None?;
    }
  }

  lemma {:induction false} EndsBeforeMeansNoSource(chunks: seq<FileChunk>, offset: int)
    requires WellFormed(chunks)
    ensures EndsBefore(Leaves(chunks), offset) <==>
            forall o :: offset <= o < MAX_INT64 ==> SourceAt(Leaves(chunks), o) == None
  {
    var cs := Leaves(chunks);
    ValidLeaves(chunks);
    if !EndsBefore(cs, offset) {
      var c :| c in cs && c.size != 0 && c.Stop() > offset;
      assert c.Valid() && c.Covers(c.Stop() - 1);
      assert SourceAt(cs, c.Stop() - 1).Some?;
    }
  }

  function SourceOfWrite(w: Option<FileChunk>, o: int): Option<Source> {
    if w.None? then None else Some(SourceIn(w.value, o))
  }

  /** Exact views are the replay: whatever timestamp order the writes are put in, each offset of
      the range shows the byte the last of them left there. */
  lemma {:induction false} ExactViewsReplay(views: seq<ChunkView>, cs: seq<FileChunk>, offset: int, size: int, writes: seq<FileChunk>, o: int)
    requires Exact(views, cs, offset, size) && TieFree(cs) && InTimeOrder(writes, cs)
    requires offset <= o < RangeStop(offset, size)
    ensures ViewedIn(views, o) == SourceOfWrite(Replay(writes, o), o)
  {
    ReplayMeetsNewest(writes, cs, o);
  }
}
