/**
 Folding the data chunks of a file into manifest chunks, and the life of a file whose chunk
 list is folded again and again as it grows (weed/filer/filechunk_manifest.go).
 */
module Manifestize {
  import Curtains
  import opened FileChunks
  import opened Manifest

  /** The outcome of storing a serialized manifest: where it was stored, or nothing on failure.
      Fetching it later gives back the chunks that were saved. */
  datatype Upload = Upload(fileId: string, ts: int)

  type Saver = seq<FileChunk> -> Option<Upload>

  function Data(cs: seq<FileChunk>): seq<FileChunk> {
    Filter(cs, (c: FileChunk) => !c.IsManifest())
  }

  function Manifests(cs: seq<FileChunk>): seq<FileChunk> {
    Filter(cs, (c: FileChunk) => c.IsManifest())
  }

  /** No manifest holds a manifest. */
  predicate Flat(cs: seq<FileChunk>) {
    forall c <- cs :: c.body.Saved? ==> NoManifest(c.body.chunks)
  }

  // ---------------------------------------------------------------------------------------
  // What one fold does
  // ---------------------------------------------------------------------------------------

  /** `m` is a manifest of exactly `cs`, spanning them. */
  predicate Packs(m: FileChunk, cs: seq<FileChunk>) {
    m.body == Saved(cs) && forall c <- cs :: Encloses(m, c)
  }

  /** The extent of `m` is no wider than its content needs. */
  predicate Tight(m: FileChunk, cs: seq<FileChunk>) {
    (exists c <- cs :: c.offset == m.offset) && (exists c <- cs :: c.Stop() == m.Stop())
  }

  /** The manifests `ms` pack `cs` in runs of `k`, in order. */
  predicate PacksRuns(ms: seq<FileChunk>, cs: seq<FileChunk>, k: nat) {
    if ms == [] then cs == []
    else
      && k <= |cs| && Packs(ms[|ms|-1], cs[|cs|-k..])
      && PacksRuns(ms[..|ms|-1], cs[..|cs|-k], k)
  }

  /** `output` is `input` with as many full runs of `k` data chunks as possible packed, after
      the manifests already there and before the fewer than `k` chunks left over. */
  ghost predicate Folded(input: seq<FileChunk>, output: seq<FileChunk>, k: nat) {
    exists merged, packed :: FoldedAs(input, output, k, merged, packed)
  }

  ghost predicate FoldedAs(input: seq<FileChunk>, output: seq<FileChunk>, k: nat,
                           merged: seq<FileChunk>, packed: seq<FileChunk>) {
    var ds := Data(input);
    && packed <= ds && |ds| - |packed| < k
    && PacksRuns(merged, packed, k)
    && output == Manifests(input) + merged + ds[|packed|..]
  }

  /** Builds the manifest chunk; fails only if it cannot be stored. */
  method MergeIntoManifest(save: Saver, dataChunks: seq<FileChunk>) returns (r: Option<FileChunk>)
    requires dataChunks != [] && ValidChunks(dataChunks)
    ensures r.None? <==> save(dataChunks).None?
    ensures r.Some? ==> Packs(r.value, dataChunks) && Tight(r.value, dataChunks)
    ensures r.Some? ==> r.value.fileId == save(dataChunks).value.fileId && r.value.ts == save(dataChunks).value.ts
  {
    var minOffset, maxOffset := MAX_INT64, MIN_INT64;
    for i := 0 to |dataChunks|
      invariant forall c <- dataChunks[..i] :: minOffset <= c.offset && c.Stop() <= maxOffset
      invariant i == 0 ==> minOffset == MAX_INT64 && maxOffset == MIN_INT64
      invariant i > 0 ==> exists c <- dataChunks :: c.offset == minOffset
      invariant i > 0 ==> exists c <- dataChunks :: c.Stop() == maxOffset
    {
      var chunk := dataChunks[i];
      assert chunk.Valid();
      if minOffset > chunk.offset {
        minOffset := chunk.offset;
      }
      if maxOffset < chunk.size + chunk.offset {
        maxOffset := chunk.size + chunk.offset;
      }
    }
    assert dataChunks[..|dataChunks|] == dataChunks;
    var saved := save(dataChunks);
    if saved.None? {
      return None;
    }
    r := Some(FileChunk(saved.value.fileId, minOffset, maxOffset - minOffset, saved.value.ts, Saved(dataChunks)));
  }

  method SeparateManifestChunks(chunks: seq<FileChunk>)
    returns (manifestChunks: seq<FileChunk>, nonManifestChunks: seq<FileChunk>)
    ensures manifestChunks == Manifests(chunks) && nonManifestChunks == Data(chunks)
  {
    manifestChunks, nonManifestChunks := [], [];
    for i := 0 to |chunks|
      invariant manifestChunks == Manifests(chunks[..i]) && nonManifestChunks == Data(chunks[..i])
    {
      assert chunks[..i+1][..i] == chunks[..i];
      if chunks[i].IsManifest() {
        manifestChunks := manifestChunks + [chunks[i]];
      } else {
        nonManifestChunks := nonManifestChunks + [chunks[i]];
      }
    }
    assert chunks[..|chunks|] == chunks;
  }

  lemma {:induction false} PackOneMore(merged: seq<FileChunk>, packed: seq<FileChunk>, k: nat, m: FileChunk, run: seq<FileChunk>)
    requires PacksRuns(merged, packed, k) && Packs(m, run) && |run| == k
    ensures PacksRuns(merged + [m], packed + run, k)
  {
  }

  lemma SliceStep<T>(s: seq<T>, i: nat, k: nat)
    requires i + k <= |s|
    ensures s[..i] + s[i..i+k] == s[..i+k]
    ensures forall x <- s[i..i+k] :: x in s
  {
  }

  /** The manifests `merged` pack the first `i` of `cs`. */
  ghost predicate PackedTo(merged: seq<FileChunk>, cs: seq<FileChunk>, i: nat, k: nat)
    requires i <= |cs|
  {
    forall z :: Curtains.Opened(z) ==> PacksRuns(merged, cs[..i], k)
  }

  /** Merges one run. */
  method MergeRun(save: Saver, dataChunks: seq<FileChunk>, i: nat, k: nat, ghost merged: seq<FileChunk>) returns (m: Option<FileChunk>)
    requires k > 0 && i + k <= |dataChunks| && ValidChunks(dataChunks) && PackedTo(merged, dataChunks, i, k)
    ensures m.Some? ==> PackedTo(merged + [m.value], dataChunks, i + k, k)
    ensures (forall cs :: save(cs).Some?) ==> m.Some?
  {
    SliceStep(dataChunks, i, k);
    m := MergeIntoManifest(save, dataChunks[i..i+k]);
    if m.Some? {
      assert Curtains.Opened(0);
      PackOneMore(merged, dataChunks[..i], k, m.value, dataChunks[i..i+k]);
    }
  }

  /** Merges full runs of `mergeFactor` data chunks, leaving `remaining` unmerged. */
  method MergeRuns(save: Saver, dataChunks: seq<FileChunk>, mergeFactor: nat)
    returns (merged: seq<FileChunk>, remaining: nat, failed: bool)
    requires mergeFactor > 0 && ValidChunks(dataChunks)
    ensures remaining <= |dataChunks|
    ensures !failed ==> remaining < mergeFactor && PackedTo(merged, dataChunks, |dataChunks| - remaining, mergeFactor)
    ensures (forall cs :: save(cs).Some?) ==> !failed
  {
    merged, remaining := [], |dataChunks|;
    var i := 0;
    while i + mergeFactor <= |dataChunks|
      invariant 0 <= i <= |dataChunks| && remaining == |dataChunks| - i
      invariant PackedTo(merged, dataChunks, i, mergeFactor)
    {
      var m := MergeRun(save, dataChunks, i, mergeFactor, merged);
      if m.None? {
        return merged, remaining, true;
      }
      merged := merged + [m.value];
      remaining := remaining - mergeFactor;
      i := i + mergeFactor;
    }
    failed := false;
  }

  /** On success the chunk list is folded; on a failed save only the data chunks come back. */
  method DoMaybeManifestize(save: Saver, inputChunks: seq<FileChunk>, mergeFactor: nat)
    returns (chunks: seq<FileChunk>, failed: bool)
    requires mergeFactor > 0 && ValidChunks(inputChunks)
    ensures !failed ==> Folded(inputChunks, chunks, mergeFactor)
    ensures failed ==> chunks == Data(inputChunks)
    ensures (forall cs :: save(cs).Some?) ==> !failed
  {
    var manifests, dataChunks := SeparateManifestChunks(inputChunks);
    var merged, remaining;
    merged, remaining, failed := MergeRuns(save, dataChunks, mergeFactor);
    if failed {
      return dataChunks, true;
    }
    chunks := AppendRest(manifests + merged, dataChunks, |dataChunks| - remaining);
    assert Curtains.Opened(0);
    assert FoldedAs(inputChunks, chunks, mergeFactor, merged, dataChunks[..|dataChunks| - remaining]);
  }

  /** Appends the chunks from the `first` on. */
  method AppendRest(chunks: seq<FileChunk>, dataChunks: seq<FileChunk>, first: nat) returns (r: seq<FileChunk>)
    requires first <= |dataChunks|
    ensures r == chunks + dataChunks[first..]
  {
    r := chunks;
    for i := first to |dataChunks|
      invariant r == chunks + dataChunks[first..i]
    {
      r := r + [dataChunks[i]];
    }
  }

  // ---------------------------------------------------------------------------------------
  // A fold keeps the content
  // ---------------------------------------------------------------------------------------

  lemma {:induction false} LeavesOfData(cs: seq<FileChunk>)
    requires NoManifest(cs)
    ensures Leaves(cs) == cs && Enclosing(cs)
  {
    if cs != [] {
      assert !cs[0].IsManifest() && cs == [cs[0]] + cs[1..];
      LeavesOfData(cs[1..]);
    }
  }

  lemma {:induction false} PackedOne(m: FileChunk, cs: seq<FileChunk>)
    requires Packs(m, cs) && NoManifest(cs)
    ensures Leaves([m]) == cs && Enclosing([m])
  {
    assert [m][1..] == [];
    LeavesOfData(cs);
    assert Leaves([m]) == LeavesOf(m) + Leaves([m][1..]);
    assert EnclosingOne(m);
  }

  lemma {:induction false} PackedLeaves(ms: seq<FileChunk>, cs: seq<FileChunk>, k: nat)
    requires PacksRuns(ms, cs, k) && NoManifest(cs)
    ensures Leaves(ms) == cs && Enclosing(ms) && Flat(ms)
  {
    if ms != [] {
      var init, last := ms[..|ms|-1], ms[|ms|-1];
      var before, run := cs[..|cs|-k], cs[|cs|-k..];
      assert ms == init + [last];
      assert cs == before + run;
      PackedLeaves(init, before, k);
      PackedOne(last, run);
      LeavesConcat(init, [last]);
      EnclosingConcat(init, [last]);
    }
  }

  lemma {:induction false} SplitLeaves(cs: seq<FileChunk>)
    ensures multiset(Leaves(cs)) == multiset(Leaves(Manifests(cs))) + multiset(Data(cs))
    ensures Enclosing(cs) ==> Enclosing(Manifests(cs))
  {
    if cs != [] {
      var init, last := cs[..|cs|-1], cs[|cs|-1];
      assert cs == init + [last];
      assert [last][1..] == [];
      SplitLeaves(init);
      LeavesConcat(init, [last]);
      EnclosingConcat(init, [last]);
      if last.IsManifest() {
        LeavesConcat(Manifests(init), [last]);
        EnclosingConcat(Manifests(init), [last]);
      }
    }
  }

  lemma DataSplits(input: seq<FileChunk>, packed: seq<FileChunk>)
    requires packed <= Data(input)
    ensures NoManifest(packed) && NoManifest(Data(input)[|packed|..])
    ensures Data(input) == packed + Data(input)[|packed|..]
  {
    assert forall c <- packed :: c in Data(input);
    assert forall c <- Data(input)[|packed|..] :: c in Data(input);
  }

  lemma {:induction false} LeavesOfThree(xs: seq<FileChunk>, ys: seq<FileChunk>, zs: seq<FileChunk>)
    ensures Leaves(xs + ys + zs) == Leaves(xs) + Leaves(ys) + Leaves(zs)
  {
    LeavesConcat(xs + ys, zs);
    LeavesConcat(xs, ys);
  }

  lemma {:induction false} EnclosingOfThree(xs: seq<FileChunk>, ys: seq<FileChunk>, zs: seq<FileChunk>)
    ensures Enclosing(xs + ys + zs) <==> Enclosing(xs) && Enclosing(ys) && Enclosing(zs)
  {
    EnclosingConcat(xs + ys, zs);
    EnclosingConcat(xs, ys);
  }

  lemma ConcatAssociative<T>(xs: seq<T>, ys: seq<T>, zs: seq<T>)
    ensures xs + ys + zs == xs + (ys + zs)
  {
  }

  lemma {:induction false} FoldedLeaves(input: seq<FileChunk>, output: seq<FileChunk>, k: nat, merged: seq<FileChunk>, packed: seq<FileChunk>)
    requires FoldedAs(input, output, k, merged, packed)
    ensures Leaves(output) == Leaves(Manifests(input)) + Data(input)
  {
    var rest := Data(input)[|packed|..];
    DataSplits(input, packed);
    PackedLeaves(merged, packed, k);
    LeavesOfData(rest);
    LeavesOfThree(Manifests(input), merged, rest);
    ConcatAssociative(Leaves(Manifests(input)), packed, rest);
  }

  lemma {:induction false} FoldedShape(input: seq<FileChunk>, output: seq<FileChunk>, k: nat, merged: seq<FileChunk>, packed: seq<FileChunk>)
    requires FoldedAs(input, output, k, merged, packed)
    ensures Enclosing(Manifests(input)) ==> Enclosing(output)
    ensures Flat(input) ==> Flat(output)
  {
    var rest := Data(input)[|packed|..];
    DataSplits(input, packed);
    PackedLeaves(merged, packed, k);
    LeavesOfData(rest);
    EnclosingOfThree(Manifests(input), merged, rest);
  }

  /** After a fold the file holds the same data chunks, unfolded in a known order; nesting and
      extents stay as they should be. */
  lemma {:induction false} FoldKeepsContent(input: seq<FileChunk>, output: seq<FileChunk>, k: nat)
    requires Folded(input, output, k)
    ensures Leaves(output) == Leaves(Manifests(input)) + Data(input)
    ensures multiset(Leaves(output)) == multiset(Leaves(input))
    ensures Enclosing(input) ==> Enclosing(output)
    ensures Flat(input) ==> Flat(output)
  {
    var merged, packed :| FoldedAs(input, output, k, merged, packed);
    FoldedLeaves(input, output, k, merged, packed);
    FoldedShape(input, output, k, merged, packed);
    SplitLeaves(input);
  }

  /** ... so it reads the same at every offset. */
  lemma {:induction false} FoldKeepsBytes(input: seq<FileChunk>, output: seq<FileChunk>, k: nat, o: int)
    requires Folded(input, output, k) && TieFree(Leaves(input))
    ensures Newest(Leaves(output), o) == Newest(Leaves(input), o)
  {
    FoldKeepsContent(input, output, k);
    SameElements(Leaves(input), Leaves(output));
    NewestAgrees(Leaves(input), Leaves(output), o);
  }

  lemma SameElements(xs: seq<FileChunk>, ys: seq<FileChunk>)
    requires multiset(xs) == multiset(ys)
    ensures forall c :: c in xs <==> c in ys
  {
    assert forall c :: c in xs <==> c in multiset(xs);
    assert forall c :: c in ys <==> c in multiset(ys);
  }

  // ---------------------------------------------------------------------------------------
  // A growing file
  // ---------------------------------------------------------------------------------------

  /** What happens to a file's chunk list over time: new data is appended, or the list is
      folded with some merge factor. */
  datatype Change = Append(added: seq<FileChunk>) | Fold(result: seq<FileChunk>, mergeFactor: nat)

  function Apply(change: Change, cs: seq<FileChunk>): seq<FileChunk> {
    match change
    case Append(added) => cs + added
    case Fold(result, _) => result
  }

  ghost predicate Allowed(change: Change, cs: seq<FileChunk>) {
    match change
    case Append(added) => NoManifest(added)
    case Fold(result, k) => k > 0 && Folded(cs, result, k)
  }

  function After(changes: seq<Change>): seq<FileChunk> {
    if changes == [] then [] else Apply(changes[|changes|-1], After(changes[..|changes|-1]))
  }

  /** Every chunk ever appended. */
  function Written(changes: seq<Change>): seq<FileChunk> {
    if changes == [] then []
    else
      var last := changes[|changes|-1];
      Written(changes[..|changes|-1]) + (if last.Append? then last.added else [])
  }

  ghost predicate History(changes: seq<Change>) {
    changes == [] ||
    (&& History(changes[..|changes|-1])
     && Allowed(changes[|changes|-1], After(changes[..|changes|-1])))
  }

  /** However often and with whatever factors the list is folded, unfolding it gives back
      exactly the chunks written; manifests never nest and always span their content. */
  lemma {:induction false} GrowingFile(changes: seq<Change>)
    requires History(changes)
    ensures multiset(Leaves(After(changes))) == multiset(Written(changes))
    ensures Flat(After(changes)) && Enclosing(After(changes))
  {
    if changes != [] {
      var init, last := changes[..|changes|-1], changes[|changes|-1];
      GrowingFile(init);
      match last
      case Append(added) =>
        LeavesOfData(added);
        LeavesConcat(After(init), added);
        EnclosingConcat(After(init), added);
      case Fold(result, k) =>
        FoldKeepsContent(After(init), result, k);
    }
  }

  /** ... and the file reads as the replay of everything written, in timestamp order. */
  lemma {:induction false} GrowingFileBytes(changes: seq<Change>, writes: seq<FileChunk>, o: int)
    requires History(changes)
    requires InTimeOrder(writes, Written(changes)) && TieFree(Written(changes))
    ensures Newest(Leaves(After(changes)), o) == Replay(writes, o)
  {
    GrowingFile(changes);
    SameElements(Written(changes), Leaves(After(changes)));
    NewestAgrees(Written(changes), Leaves(After(changes)), o);
    ReplayMeetsNewest(writes, Written(changes), o);
  }

  // ---------------------------------------------------------------------------------------
  // A failed fold
  // ---------------------------------------------------------------------------------------

  /** A caller that goes on with the list returned by a failed fold keeps the file's content
      exactly when every byte held by an existing manifest is hidden by a newer data chunk
      outside the manifests: the manifests themselves are not returned. */
  lemma {:induction false} FailedFold(input: seq<FileChunk>)
    requires TieFree(Leaves(input))
    ensures (forall o :: Newest(Data(input), o) == Newest(Leaves(input), o))
       <==> (forall c, o :: c in Leaves(Manifests(input)) && c.Covers(o) ==> HiddenBy(c, Data(input), o))
  {
    SplitLeaves(input);
    DroppedPart(Leaves(input), Data(input), Leaves(Manifests(input)));
  }

  ghost predicate HiddenBy(c: FileChunk, cs: seq<FileChunk>, o: int) {
    exists d :: d in cs && d.Covers(o) && c.ts < d.ts
  }

  lemma PartsMembers(all: seq<FileChunk>, kept: seq<FileChunk>, dropped: seq<FileChunk>)
    requires multiset(all) == multiset(dropped) + multiset(kept)
    ensures forall c :: c in all <==> c in kept || c in dropped
    ensures multiset(kept) <= multiset(all)
  {
    forall c ensures c in all <==> c in kept || c in dropped {
      assert c in all <==> c in multiset(all);
      assert c in kept <==> c in multiset(kept);
      assert c in dropped <==> c in multiset(dropped);
    }
  }

  lemma {:induction false} DroppedPart(all: seq<FileChunk>, kept: seq<FileChunk>, dropped: seq<FileChunk>)
    requires TieFree(all) && multiset(all) == multiset(dropped) + multiset(kept)
    ensures (forall o :: Newest(kept, o) == Newest(all, o))
       <==> (forall c, o :: c in dropped && c.Covers(o) ==> HiddenBy(c, kept, o))
  {
    if forall o :: Newest(kept, o) == Newest(all, o) {
      forall c, o | c in dropped && c.Covers(o) ensures HiddenBy(c, kept, o) {
        SameMeansHidden(all, kept, dropped, c, o);
      }
    } else {
      var o :| Newest(kept, o) != Newest(all, o);
      DifferentMeansSeen(all, kept, dropped, o);
    }
  }

  lemma {:induction false} SameMeansHidden(all: seq<FileChunk>, kept: seq<FileChunk>, dropped: seq<FileChunk>, c: FileChunk, o: int)
    requires TieFree(all) && multiset(all) == multiset(dropped) + multiset(kept)
    requires Newest(kept, o) == Newest(all, o) && c in dropped && c.Covers(o)
    ensures HiddenBy(c, kept, o)
  {
    PartsMembers(all, kept, dropped);
    PartsDiffer(all, kept, dropped, c, Newest(kept, o).value, o);
  }

  lemma {:induction false} DifferentMeansSeen(all: seq<FileChunk>, kept: seq<FileChunk>, dropped: seq<FileChunk>, o: int)
    requires TieFree(all) && multiset(all) == multiset(dropped) + multiset(kept)
    requires Newest(kept, o) != Newest(all, o)
    ensures exists c :: c in dropped && c.Covers(o) && !HiddenBy(c, kept, o)
  {
    PartsMembers(all, kept, dropped);
    PartTieFree(all, kept);
    var n := Newest(all, o);
    assert n.None? ==> Newest(kept, o).None?;
    if n.value in kept {
      NewestUnique(kept, o, n.value);
    }
  }

  lemma PartTieFree(all: seq<FileChunk>, part: seq<FileChunk>)
    requires TieFree(all) && multiset(part) <= multiset(all)
    ensures TieFree(part)
  {
    forall i, j | 0 <= i < j < |part| && Overlap(part[i], part[j]) ensures part[i].ts != part[j].ts {
      TwoOccurrences(all, part, i, j);
    }
  }

  /** Two positions in a sub-multiset are two positions in the whole. */
  lemma TwoOccurrences(all: seq<FileChunk>, part: seq<FileChunk>, i: nat, j: nat)
    requires multiset(part) <= multiset(all) && i < j < |part|
    requires TieFree(all) && Overlap(part[i], part[j])
    ensures part[i].ts != part[j].ts
  {
    var c, d := part[i], part[j];
    assert c in multiset(all) && d in multiset(all);
    if c == d {
      assert part == part[..j] + [d] + part[j+1..];
      assert c in part[..j];
      TwoPlaces(all, c);
    }
  }

  lemma TwoPlaces(all: seq<FileChunk>, c: FileChunk)
    requires multiset(all)[c] >= 2
    ensures exists a, b :: 0 <= a < b < |all| && all[a] == c && all[b] == c
  {
    var a :| 0 <= a < |all| && all[a] == c;
    assert all == all[..a] + [c] + all[a+1..];
    if c in all[..a] {
      var b :| 0 <= b < a && all[..a][b] == c;
      assert all[b] == c;
    } else {
      assert c in all[a+1..];
      var b :| 0 <= b < |all[a+1..]| && all[a+1..][b] == c;
      assert all[a + 1 + b] == c;
    }
  }

  lemma PartsDiffer(all: seq<FileChunk>, kept: seq<FileChunk>, dropped: seq<FileChunk>, c: FileChunk, d: FileChunk, o: int)
    requires TieFree(all) && multiset(all) == multiset(dropped) + multiset(kept)
    requires c in dropped && d in kept && c.Covers(o) && d.Covers(o)
    ensures c.ts != d.ts
  {
    var part := [c] + [d];
    assert multiset(part) == multiset{c} + multiset{d};
    assert multiset{c} <= multiset(dropped) && multiset{d} <= multiset(kept);
    TwoOccurrences(all, part, 0, 1);
  }

  /** A file with one folded chunk and one loose chunk behind it: when the next save fails,
      the folded byte is gone from the returned list. */
  lemma {:induction false} FailedFoldLosesData(input: seq<FileChunk>)
    requires input == [FileChunk("m", 0, 1, 0, Saved([FileChunk("a", 0, 1, 1, Bytes)])), FileChunk("b", 1, 1, 2, Bytes)]
    ensures Newest(Leaves(input), 0).Some? && Newest(Data(input), 0).None?
  {
    var a, b := FileChunk("a", 0, 1, 1, Bytes), FileChunk("b", 1, 1, 2, Bytes);
    assert input[1..] == [b] && [b][1..] == [] && [a][1..] == [];
    assert Leaves(input) == LeavesOf(input[0]) + (LeavesOf(b) + Leaves([]));
    assert LeavesOf(input[0]) == Leaves([a]) == LeavesOf(a) + Leaves([]);
    assert a in Leaves(input) && a.Covers(0);
  }
}
