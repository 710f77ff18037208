/**
 Dropping hidden chunks (weed/filer/filechunks.go), and the clean-up a filer applies to the
 chunk list of an updated entry: compact what is outside the manifests, then fold it
 (weed/server/filer_grpc_server.go).
 */
module Compaction {
  import opened FileChunks
  import opened SweepLine
  import opened Manifest
  import opened Manifestize
  import opened ChunkViews

  /** Some byte of the file is read from `c`. */
  ghost predicate Visible(cs: seq<FileChunk>, c: FileChunk) {
    exists o :: Newest(cs, o) == Some(c)
  }

  ghost function VisibleIds(cs: seq<FileChunk>): set<string> {
    set c | c in cs && Visible(cs, c) :: c.fileId
  }

  function WithId(ids: set<string>): FileChunk -> bool {
    (c: FileChunk) => c.fileId in ids
  }

  function WithoutId(ids: set<string>): FileChunk -> bool {
    (c: FileChunk) => c.fileId !in ids
  }

  predicate DistinctIds(cs: seq<FileChunk>) {
    forall c <- cs, d <- cs :: c.fileId == d.fileId ==> c == d
  }

  /** The chunk list is split by whether a chunk's id is visible anywhere, order kept. */
  ghost predicate Compacted(chunks: seq<FileChunk>, compacted: seq<FileChunk>, garbage: seq<FileChunk>) {
    && compacted == Filter(chunks, WithId(VisibleIds(chunks)))
    && garbage == Filter(chunks, WithoutId(VisibleIds(chunks)))
  }

  /** Keeps the chunks whose id some interval names. */
  method SeparateGarbageChunks(visibles: seq<VisibleInterval>, chunks: seq<FileChunk>)
    returns (compacted: seq<FileChunk>, garbage: seq<FileChunk>)
    ensures var ids := set v | v in visibles :: v.fileId;
            compacted == Filter(chunks, WithId(ids)) && garbage == Filter(chunks, WithoutId(ids))
  {
    var fileIds: set<string> := {};
    for i := 0 to |visibles|
      invariant fileIds == set v | v in visibles[..i] :: v.fileId
    {
      fileIds := fileIds + {visibles[i].fileId};
    }
    assert visibles[..|visibles|] == visibles;
    compacted, garbage := [], [];
    for i := 0 to |chunks|
      invariant compacted == Filter(chunks[..i], WithId(fileIds)) && garbage == Filter(chunks[..i], WithoutId(fileIds))
    {
      assert chunks[..i+1][..i] == chunks[..i];
      if chunks[i].fileId in fileIds {
        compacted := compacted + [chunks[i]];
      } else {
        garbage := garbage + [chunks[i]];
      }
    }
    assert chunks[..|chunks|] == chunks;
  }

  lemma DepictedIds(visibles: seq<VisibleInterval>, kept: seq<FileChunk>, chunks: seq<FileChunk>)
    requires Ordered(visibles) && TieFree(chunks)
    requires forall o :: DepictsAt(visibles, kept, o)
    requires forall c :: c in kept <==> c in chunks && 0 < c.size
    ensures (set v | v in visibles :: v.fileId) == VisibleIds(chunks)
  {
    forall o ensures Newest(kept, o) == Newest(chunks, o) {
      NewestAgrees(chunks, kept, o);
    }
    forall v | v in visibles ensures v.fileId in VisibleIds(chunks) {
      assert DepictsAt(visibles, kept, v.start) && v.Contains(v.start);
      var c := Newest(chunks, v.start).value;
      assert Visible(chunks, c);
    }
    forall c | c in chunks && Visible(chunks, c) ensures exists v :: v in visibles && v.fileId == c.fileId {
      var o :| Newest(chunks, o) == Some(c);
      assert DepictsAt(visibles, kept, o);
      var v :| v in visibles && v.Contains(o);
    }
  }

  /** For a chunk list without manifests, drops exactly the chunks whose id is nowhere visible. */
  method CompactFileChunks(chunks: seq<FileChunk>) returns (compacted: seq<FileChunk>, garbage: seq<FileChunk>)
    requires NoManifest(chunks) && ValidChunks(chunks) && TieFree(chunks)
    ensures Compacted(chunks, compacted, garbage)
  {
    PlainChunks(chunks);
    var visibles, failed := NonOverlappingVisibleIntervals(chunks, 0, MAX_INT64);
    ghost var kept := InWindow(Reached(chunks, 0, MAX_INT64), 0, MAX_INT64);
    ReachedFacts(chunks, 0, MAX_INT64);
    DepictedIds(visibles, kept, chunks);
    compacted, garbage := SeparateGarbageChunks(visibles, chunks);
  }

  lemma {:induction false} PlainChunks(cs: seq<FileChunk>)
    requires NoManifest(cs) && ValidChunks(cs)
    ensures ValidTree(cs) && Enclosing(cs) && Leaves(cs) == cs
    ensures forall lo, hi :: CanOpen(cs, lo, hi)
  {
    LeavesOfData(cs);
    if cs != [] {
      assert cs[0] in cs && !cs[0].IsManifest() && cs[0].Valid();
      PlainChunks(cs[1..]);
    }
  }

  // ---------------------------------------------------------------------------------------
  // What compaction guarantees
  // ---------------------------------------------------------------------------------------

  lemma {:induction false} FilterSplits(cs: seq<FileChunk>, ids: set<string>)
    ensures multiset(cs) == multiset(Filter(cs, WithoutId(ids))) + multiset(Filter(cs, WithId(ids)))
  {
    if cs != [] {
      var init, last := cs[..|cs|-1], cs[|cs|-1];
      FilterSplits(init, ids);
      assert cs == init + [last];
      var out, kept := Filter(init, WithoutId(ids)), Filter(init, WithId(ids));
      if last.fileId in ids {
        assert Filter(cs, WithId(ids)) == kept + [last] && Filter(cs, WithoutId(ids)) == out;
      } else {
        assert Filter(cs, WithId(ids)) == kept && Filter(cs, WithoutId(ids)) == out + [last];
      }
    }
  }

  /** No byte changes: every offset still reads from the same chunk. */
  lemma {:induction false} CompactionKeepsBytes(chunks: seq<FileChunk>, compacted: seq<FileChunk>, garbage: seq<FileChunk>, o: int)
    requires TieFree(chunks) && Compacted(chunks, compacted, garbage)
    ensures Newest(compacted, o) == Newest(chunks, o)
  {
    FilterTieFree(chunks, WithId(VisibleIds(chunks)));
    var n := Newest(chunks, o);
    if n.Some? {
      assert Visible(chunks, n.value);
      assert n.value.fileId in VisibleIds(chunks);
      NewestUnique(compacted, o, n.value);
    } else {
      assert Newest(compacted, o).None?;
    }
  }

  /** Every byte of a dropped chunk is hidden by a newer chunk that is kept. */
  lemma GarbageIsHidden(chunks: seq<FileChunk>, compacted: seq<FileChunk>, garbage: seq<FileChunk>, g: FileChunk, o: int)
    requires TieFree(chunks) && Compacted(chunks, compacted, garbage)
    requires g in garbage && g.Covers(o)
    ensures HiddenBy(g, compacted, o)
  {
    CompactionKeepsBytes(chunks, compacted, garbage, o);
    var d := Newest(compacted, o).value;
    if d.ts == g.ts {
      TieFreeAt(chunks, d, g, o);
    }
  }

  /** With distinct ids nothing invisible is kept. */
  lemma KeptIsVisible(chunks: seq<FileChunk>, compacted: seq<FileChunk>, garbage: seq<FileChunk>)
    requires Compacted(chunks, compacted, garbage) && DistinctIds(chunks)
    ensures forall c :: c in compacted <==> c in chunks && Visible(chunks, c)
  {
  }

  lemma {:induction false} FilterAll(cs: seq<FileChunk>, keep: FileChunk -> bool)
    requires forall c <- cs :: keep(c)
    ensures Filter(cs, keep) == cs
  {
    if cs != [] {
      assert cs[|cs|-1] in cs;
      FilterAll(cs[..|cs|-1], keep);
    }
  }

  /** Compacting a compacted list drops nothing. */
  lemma CompactionIsIdempotent(chunks: seq<FileChunk>, compacted: seq<FileChunk>, garbage: seq<FileChunk>,
                               again: seq<FileChunk>, garbageAgain: seq<FileChunk>)
    requires TieFree(chunks) && Compacted(chunks, compacted, garbage)
    requires Compacted(compacted, again, garbageAgain)
    ensures again == compacted && garbageAgain == []
  {
    assert VisibleIds(compacted) == VisibleIds(chunks) by {
      forall o ensures Newest(compacted, o) == Newest(chunks, o) {
        CompactionKeepsBytes(chunks, compacted, garbage, o);
      }
      forall c ensures Visible(compacted, c) <==> Visible(chunks, c) {
      }
    }
    FilterAll(compacted, WithId(VisibleIds(compacted)));
    FilterNone(compacted, WithoutId(VisibleIds(compacted)));
  }

  // ---------------------------------------------------------------------------------------
  // Cleaning up an updated entry
  // ---------------------------------------------------------------------------------------

  /** Compacts the loose chunks, folds them, and puts the manifests back in front. Whether or
      not the fold succeeds, the file reads the same at every offset. */
  method CleanupChunks(save: Saver, chunks: seq<FileChunk>, mergeFactor: nat)
    returns (result: seq<FileChunk>, garbage: seq<FileChunk>)
    requires WellFormed(chunks) && ValidChunks(chunks) && mergeFactor > 0
    ensures forall o :: Newest(Leaves(result), o) == Newest(Leaves(chunks), o)
    ensures multiset(Leaves(chunks)) == multiset(garbage) + multiset(Leaves(result))
  {
    var manifestChunks, nonManifestChunks := SeparateManifestChunks(chunks);
    SplitLeaves(chunks);
    PartTieFree(Leaves(chunks), nonManifestChunks);
    var compacted;
    compacted, garbage := CompactFileChunks(nonManifestChunks);
    var folded, failed := DoMaybeManifestize(save, compacted, mergeFactor);
    result := manifestChunks + folded;
    KeepsAllButGarbage(chunks, compacted, garbage, folded, mergeFactor, failed);
    forall c, o | c in garbage && c.Covers(o) ensures HiddenBy(c, Leaves(result), o) {
      GarbageIsHidden(nonManifestChunks, compacted, garbage, c, o);
      StillThere(manifestChunks, compacted, folded, mergeFactor, failed);
    }
    DroppedPart(Leaves(chunks), Leaves(result), garbage);
  }

  lemma {:induction false} FoldedOrNot(compacted: seq<FileChunk>, folded: seq<FileChunk>, k: nat, failed: bool)
    requires NoManifest(compacted)
    requires if failed then folded == Data(compacted) else Folded(compacted, folded, k)
    ensures multiset(Leaves(folded)) == multiset(compacted)
  {
    LeavesOfData(compacted);
    if failed {
      FilterAll(compacted, (c: FileChunk) => !c.IsManifest());
    } else {
      FoldKeepsContent(compacted, folded, k);
    }
  }

  lemma {:induction false} StillThere(manifestChunks: seq<FileChunk>, compacted: seq<FileChunk>, folded: seq<FileChunk>, k: nat, failed: bool)
    requires NoManifest(compacted)
    requires if failed then folded == Data(compacted) else Folded(compacted, folded, k)
    ensures forall c <- compacted :: c in Leaves(manifestChunks + folded)
  {
    FoldedOrNot(compacted, folded, k, failed);
    LeavesConcat(manifestChunks, folded);
    SameElements(compacted, Leaves(folded));
  }

  lemma {:induction false} KeepsAllButGarbage(chunks: seq<FileChunk>, compacted: seq<FileChunk>, garbage: seq<FileChunk>,
                           folded: seq<FileChunk>, k: nat, failed: bool)
    requires Compacted(Data(chunks), compacted, garbage)
    requires if failed then folded == Data(compacted) else Folded(compacted, folded, k)
    ensures multiset(Leaves(chunks)) == multiset(garbage) + multiset(Leaves(Manifests(chunks) + folded))
  {
    SplitLeaves(chunks);
    FilterSplits(Data(chunks), VisibleIds(Data(chunks)));
    FoldedOrNot(compacted, folded, k, failed);
    LeavesConcat(Manifests(chunks), folded);
  }
}
