/**
 Chunk manifests: what they stand for, and unfolding them, optionally only for a range of the
 file (weed/filer/filechunk_manifest.go).
 */
module Manifest {
  import opened FileChunks

  // ---------------------------------------------------------------------------------------
  // The content of a manifest tree
  // ---------------------------------------------------------------------------------------

  /** All data chunks of a chunk list, manifests unfolded in place. */
  function Leaves(cs: seq<FileChunk>): seq<FileChunk>
    decreases cs
  {
    if cs == [] then [] else LeavesOf(cs[0]) + Leaves(cs[1..])
  }

  function LeavesOf(c: FileChunk): seq<FileChunk>
    decreases c
  {
    match c.body
    case Bytes => [c]
    case Unreadable => []
    case Saved(sub) => Leaves(sub)
  }

  /** The data chunks reached when every chunk outside `[lo, hi)` is skipped, at each level. */
  function Reached(cs: seq<FileChunk>, lo: int, hi: int): seq<FileChunk>
    decreases cs
  {
    if cs == [] then [] else ReachedOf(cs[0], lo, hi) + Reached(cs[1..], lo, hi)
  }

  function ReachedOf(c: FileChunk, lo: int, hi: int): seq<FileChunk>
    decreases c
  {
    if !c.Intersects(lo, hi) then []
    else match c.body
         case Bytes => [c]
         case Unreadable => []
         case Saved(sub) => Reached(sub, lo, hi)
  }

  /** The manifests opened on the way, each before its content. */
  function Opened(cs: seq<FileChunk>, lo: int, hi: int): seq<FileChunk>
    decreases cs
  {
    if cs == [] then [] else OpenedOf(cs[0], lo, hi) + Opened(cs[1..], lo, hi)
  }

  function OpenedOf(c: FileChunk, lo: int, hi: int): seq<FileChunk>
    decreases c
  {
    if !c.Intersects(lo, hi) then []
    else match c.body
         case Bytes => []
         case Unreadable => [c]
         case Saved(sub) => [c] + Opened(sub, lo, hi)
  }

  /** Every manifest that has to be opened can be read. */
  predicate CanOpen(cs: seq<FileChunk>, lo: int, hi: int)
    decreases cs
  {
    cs == [] || (CanOpenOne(cs[0], lo, hi) && CanOpen(cs[1..], lo, hi))
  }

  predicate CanOpenOne(c: FileChunk, lo: int, hi: int)
    decreases c
  {
    c.Intersects(lo, hi) ==>
      match c.body
      case Bytes => true
      case Unreadable => false
      case Saved(sub) => CanOpen(sub, lo, hi)
  }

  predicate Encloses(m: FileChunk, c: FileChunk) {
    m.offset <= c.offset && c.Stop() <= m.Stop()
  }

  /** Every manifest, at every level, spans its content. */
  predicate Enclosing(cs: seq<FileChunk>)
    decreases cs
  {
    cs == [] || (EnclosingOne(cs[0]) && Enclosing(cs[1..]))
  }

  predicate EnclosingOne(m: FileChunk)
    decreases m
  {
    m.body.Saved? ==> (forall c <- m.body.chunks :: Encloses(m, c)) && Enclosing(m.body.chunks)
  }

  predicate ValidTree(cs: seq<FileChunk>)
    decreases cs
  {
    cs == [] || (ValidTreeOne(cs[0]) && ValidTree(cs[1..]))
  }

  predicate ValidTreeOne(c: FileChunk)
    decreases c
  {
    c.Valid() && (c.body.Saved? ==> ValidTree(c.body.chunks))
  }

  // ---------------------------------------------------------------------------------------
  // Concatenation
  // ---------------------------------------------------------------------------------------

  lemma {:induction false} LeavesConcat(xs: seq<FileChunk>, ys: seq<FileChunk>)
    ensures Leaves(xs + ys) == Leaves(xs) + Leaves(ys)
  {
    if xs == [] {
      assert xs + ys == ys;
    } else {
      assert (xs + ys)[1..] == xs[1..] + ys;
      LeavesConcat(xs[1..], ys);
    }
  }

  lemma {:induction false} ReachedConcat(xs: seq<FileChunk>, ys: seq<FileChunk>, lo: int, hi: int)
    ensures Reached(xs + ys, lo, hi) == Reached(xs, lo, hi) + Reached(ys, lo, hi)
  {
    if xs == [] {
      assert xs + ys == ys;
    } else {
      assert (xs + ys)[1..] == xs[1..] + ys;
      ReachedConcat(xs[1..], ys, lo, hi);
    }
  }

  lemma {:induction false} OpenedConcat(xs: seq<FileChunk>, ys: seq<FileChunk>, lo: int, hi: int)
    ensures Opened(xs + ys, lo, hi) == Opened(xs, lo, hi) + Opened(ys, lo, hi)
  {
    if xs == [] {
      assert xs + ys == ys;
    } else {
      assert (xs + ys)[0] == xs[0] && (xs + ys)[1..] == xs[1..] + ys;
      OpenedConcat(xs[1..], ys, lo, hi);
    }
  }

  lemma {:induction false} CanOpenConcat(xs: seq<FileChunk>, ys: seq<FileChunk>, lo: int, hi: int)
    ensures CanOpen(xs + ys, lo, hi) <==> CanOpen(xs, lo, hi) && CanOpen(ys, lo, hi)
  {
    if xs == [] {
      assert xs + ys == ys;
    } else {
      assert (xs + ys)[0] == xs[0] && (xs + ys)[1..] == xs[1..] + ys;
      CanOpenConcat(xs[1..], ys, lo, hi);
    }
  }

  lemma {:induction false} EnclosingConcat(xs: seq<FileChunk>, ys: seq<FileChunk>)
    ensures Enclosing(xs + ys) <==> Enclosing(xs) && Enclosing(ys)
  {
    if xs == [] {
      assert xs + ys == ys;
    } else {
      assert (xs + ys)[0] == xs[0] && (xs + ys)[1..] == xs[1..] + ys;
      EnclosingConcat(xs[1..], ys);
    }
  }

  lemma {:induction false} ValidLeaves(cs: seq<FileChunk>)
    requires ValidTree(cs)
    ensures ValidChunks(Leaves(cs)) && NoManifest(Leaves(cs))
    decreases cs
  {
    if cs != [] {
      if cs[0].body.Saved? {
        ValidLeaves(cs[0].body.chunks);
      }
      ValidLeaves(cs[1..]);
    }
  }

  // ---------------------------------------------------------------------------------------
  // Range-limited resolution
  // ---------------------------------------------------------------------------------------

  lemma {:induction false} LeavesInside(cs: seq<FileChunk>, m: FileChunk)
    requires Enclosing(cs) && forall c <- cs :: Encloses(m, c)
    ensures forall c <- Leaves(cs) :: Encloses(m, c)
    decreases cs
  {
    if cs != [] {
      assert Encloses(m, cs[0]);
      LeavesInside(cs[1..], m);
      if cs[0].body.Saved? {
        LeavesInside(cs[0].body.chunks, cs[0]);
        assert LeavesOf(cs[0]) == Leaves(cs[0].body.chunks);
      }
      forall c <- LeavesOf(cs[0]) ensures Encloses(m, c) {
        assert Encloses(cs[0], c);
      }
    }
  }

  lemma {:induction false} FilterNone(cs: seq<FileChunk>, keep: FileChunk -> bool)
    requires forall c <- cs :: !keep(c)
    ensures Filter(cs, keep) == []
  {
    if cs != [] {
      FilterNone(cs[..|cs|-1], keep);
    }
  }

  function InRange(lo: int, hi: int): FileChunk -> bool {
    (c: FileChunk) => c.Intersects(lo, hi)
  }

  /** Nothing inside a manifest reaches into a range the manifest itself misses. */
  lemma {:induction false} OutsideManifest(m: FileChunk, lo: int, hi: int)
    requires m.body.Saved? && EnclosingOne(m) && !m.Intersects(lo, hi)
    ensures Filter(Leaves(m.body.chunks), InRange(lo, hi)) == []
  {
    LeavesInside(m.body.chunks, m);
    forall c <- Leaves(m.body.chunks) ensures !c.Intersects(lo, hi) {
      assert Encloses(m, c);
    }
    FilterNone(Leaves(m.body.chunks), InRange(lo, hi));
  }

  /** When manifests span their content, skipping manifests outside the range loses nothing
      and adds nothing: the result is the full content filtered by the range, in order. */
  lemma {:induction false} PrunedResolution(cs: seq<FileChunk>, lo: int, hi: int)
    requires Enclosing(cs)
    ensures Reached(cs, lo, hi) == Filter(Leaves(cs), InRange(lo, hi))
    decreases cs
  {
    if cs != [] {
      FilterAppend(LeavesOf(cs[0]), Leaves(cs[1..]), InRange(lo, hi));
      PrunedResolution(cs[1..], lo, hi);
      PrunedResolutionOne(cs[0], lo, hi);
    }
  }

  lemma {:induction false} PrunedResolutionOne(c: FileChunk, lo: int, hi: int)
    requires EnclosingOne(c)
    ensures ReachedOf(c, lo, hi) == Filter(LeavesOf(c), InRange(lo, hi))
    decreases c
  {
    match c.body
    case Bytes =>
      assert [c][..0] == [];
    case Unreadable =>
    case Saved(sub) =>
      if c.Intersects(lo, hi) {
        PrunedResolution(sub, lo, hi);
      } else {
        OutsideManifest(c, lo, hi);
      }
  }

  /** Over the whole file only empty chunks are left out. */
  lemma {:induction false} FullResolution(cs: seq<FileChunk>)
    requires Enclosing(cs) && ValidTree(cs)
    ensures forall c :: c in Reached(cs, 0, MAX_INT64) <==> c in Leaves(cs) && 0 < c.size
  {
    PrunedResolution(cs, 0, MAX_INT64);
    ValidLeaves(cs);
  }

  /** `ResolveChunkManifest` finds exactly the reachable chunks, and fails exactly when a
      manifest it has to open is unreadable. */
  method ResolveChunkManifest(chunks: seq<FileChunk>, startOffset: int, stopOffset: int)
    returns (dataChunks: seq<FileChunk>, manifestChunks: seq<FileChunk>, failed: bool)
    ensures failed <==> !CanOpen(chunks, startOffset, stopOffset)
    ensures !failed ==> dataChunks == Reached(chunks, startOffset, stopOffset)
    ensures !failed ==> manifestChunks == Opened(chunks, startOffset, stopOffset)
    ensures failed ==> manifestChunks == []
    ensures dataChunks <= Reached(chunks, startOffset, stopOffset)
    decreases chunks
  {
    dataChunks, manifestChunks := [], [];
    for i := 0 to |chunks|
      invariant dataChunks == Reached(chunks[..i], startOffset, stopOffset)
      invariant manifestChunks == Opened(chunks[..i], startOffset, stopOffset)
      invariant CanOpen(chunks[..i], startOffset, stopOffset)
    {
      var chunk := chunks[i];
      SplitAt(chunks, i, startOffset, stopOffset);
      if Max(chunk.offset, startOffset) >= Min(chunk.offset + chunk.size, stopOffset) {
        continue;
      }
      if !chunk.IsManifest() {
        dataChunks := dataChunks + [chunk];
        continue;
      }
      if chunk.body.Unreadable? {
        return dataChunks, [], true;
      }
      manifestChunks := manifestChunks + [chunk];
      var subDataChunks, subManifestChunks, subFailed :=
        ResolveChunkManifest(chunk.body.chunks, startOffset, stopOffset);
      if subFailed {
        return dataChunks, [], true;
      }
      dataChunks := dataChunks + subDataChunks;
      manifestChunks := manifestChunks + subManifestChunks;
    }
    assert chunks[..|chunks|] == chunks;
    return dataChunks, manifestChunks, false;
  }

  lemma {:induction false} SplitAt(chunks: seq<FileChunk>, i: nat, lo: int, hi: int)
    requires i < |chunks|
    ensures Reached(chunks[..i+1], lo, hi) == Reached(chunks[..i], lo, hi) + ReachedOf(chunks[i], lo, hi)
    ensures Opened(chunks[..i+1], lo, hi) == Opened(chunks[..i], lo, hi) + OpenedOf(chunks[i], lo, hi)
    ensures CanOpen(chunks[..i+1], lo, hi) <==> CanOpen(chunks[..i], lo, hi) && CanOpenOne(chunks[i], lo, hi)
    ensures Reached(chunks[..i], lo, hi) <= Reached(chunks, lo, hi)
    ensures CanOpen(chunks, lo, hi) ==> CanOpenOne(chunks[i], lo, hi)
  {
    var one := [chunks[i]];
    assert one[1..] == [];
    assert chunks[..i+1] == chunks[..i] + one;
    ReachedConcat(chunks[..i], one, lo, hi);
    OpenedConcat(chunks[..i], one, lo, hi);
    CanOpenConcat(chunks[..i], one, lo, hi);
    assert chunks == chunks[..i+1] + chunks[i+1..];
    ReachedConcat(chunks[..i+1], chunks[i+1..], lo, hi);
    CanOpenConcat(chunks[..i+1], chunks[i+1..], lo, hi);
  }
}
