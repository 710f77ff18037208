/**
 The data model of a file's content: a bag of chunks, each a write of `size` bytes at
 `offset` made at time `ts`, and the one-line meaning of such a bag: replay the writes in
 timestamp order over an empty file.
 */
module FileChunks {

  const MAX_INT64: int := 0x7FFF_FFFF_FFFF_FFFF
  const MIN_INT64: int := -0x8000_0000_0000_0000

  datatype Option<+T> = None | Some(value: T)

  /** What a chunk's file id holds: plain file bytes, or a manifest, which is a saved list of
      chunks. A manifest that cannot be fetched or decoded is `Unreadable`. */
  datatype Body = Bytes | Saved(chunks: seq<FileChunk>) | Unreadable

  datatype FileChunk = FileChunk(fileId: string, offset: int, size: int, ts: int, body: Body) {
    predicate IsManifest() { !body.Bytes? }

    function Stop(): int { offset + size }

    /** Offsets, sizes and times are non-negative and their sums stay in int64. */
    predicate Valid() {
      0 <= offset && 0 <= size && Stop() <= MAX_INT64 && 0 <= ts <= MAX_INT64
    }

    predicate Covers(o: int) { offset <= o < Stop() }

    /** The chunk has a byte in `[lo, hi)`. */
    predicate Intersects(lo: int, hi: int) { Max(offset, lo) < Min(Stop(), hi) }
  }

  function Min(x: int, y: int): int { if x <= y then x else y }

  function Max(x: int, y: int): int { if x <= y then y else x }

  predicate ValidChunks(cs: seq<FileChunk>) {
    forall c <- cs :: c.Valid()
  }

  predicate NoManifest(cs: seq<FileChunk>) {
    forall c <- cs :: !c.IsManifest()
  }

  predicate Overlap(c: FileChunk, d: FileChunk) {
    Max(c.offset, d.offset) < Min(c.Stop(), d.Stop())
  }

  /** Two overlapping chunks never carry the same timestamp. */
  predicate TieFree(cs: seq<FileChunk>) {
    forall i, j :: 0 <= i < j < |cs| && Overlap(cs[i], cs[j]) ==> cs[i].ts != cs[j].ts
  }

  /** Where the byte at a file offset comes from: a position inside a stored chunk, and the
      time the chunk was written. */
  datatype Source = Source(fileId: string, position: int, ts: int)

  function SourceIn(c: FileChunk, o: int): Source { Source(c.fileId, o - c.offset, c.ts) }

  // ---------------------------------------------------------------------------------------
  // The meaning of a chunk list
  // ---------------------------------------------------------------------------------------

  /** Apply `writes` in order to an empty file; the write that decides the byte at `o`. */
  function Replay(writes: seq<FileChunk>, o: int): Option<FileChunk> {
    if writes == [] then None
    else if writes[|writes|-1].Covers(o) then Some(writes[|writes|-1])
    else Replay(writes[..|writes|-1], o)
  }

  /** `writes` is `cs` put in timestamp order. */
  ghost predicate InTimeOrder(writes: seq<FileChunk>, cs: seq<FileChunk>) {
    && multiset(writes) == multiset(cs)
    && forall i, j :: 0 <= i < j < |writes| ==> writes[i].ts <= writes[j].ts
  }

  /** `c` covers `o` and no chunk covering `o` is newer. */
  predicate NewestAt(cs: seq<FileChunk>, o: int, c: FileChunk) {
    c in cs && c.Covers(o) && forall d <- cs :: d.Covers(o) ==> d.ts <= c.ts
  }

  /** The newest chunk covering `o`, if any: an order-free form of `Replay`. */
  function Newest(cs: seq<FileChunk>, o: int): (r: Option<FileChunk>)
    ensures r.Some? ==> NewestAt(cs, o, r.value)
    ensures r.None? ==> forall c <- cs :: !c.Covers(o)
  {
    if cs == [] then None
    else
      var last, rest := cs[|cs|-1], Newest(cs[..|cs|-1], o);
      if last.Covers(o) && (rest.None? || rest.value.ts <= last.ts) then Some(last) else rest
  }

  function SourceAt(cs: seq<FileChunk>, o: int): Option<Source> {
    var n := Newest(cs, o);
    if n.None? then None else Some(SourceIn(n.value, o))
  }

  lemma TieFreeAt(cs: seq<FileChunk>, c: FileChunk, d: FileChunk, o: int)
    requires TieFree(cs) && c in cs && d in cs && c.Covers(o) && d.Covers(o) && c.ts == d.ts
    ensures c == d
  {
  }

  /** Without ties the newest covering chunk is unique. */
  lemma {:induction false} NewestUnique(cs: seq<FileChunk>, o: int, c: FileChunk)
    requires TieFree(cs) && NewestAt(cs, o, c)
    ensures Newest(cs, o) == Some(c)
  {
  }

  /** `Newest` depends only on which chunks cover the offset. */
  lemma {:induction false} NewestAgrees(xs: seq<FileChunk>, ys: seq<FileChunk>, o: int)
    requires TieFree(xs)
    requires forall c: FileChunk :: c.Covers(o) ==> (c in xs <==> c in ys)
    ensures Newest(ys, o) == Newest(xs, o)
  {
  }

  lemma {:induction false} ReplayIsNewest(writes: seq<FileChunk>, o: int)
    requires forall i, j :: 0 <= i < j < |writes| ==> writes[i].ts <= writes[j].ts
    ensures Replay(writes, o).Some? ==> NewestAt(writes, o, Replay(writes, o).value)
    ensures Replay(writes, o).None? ==> forall c <- writes :: !c.Covers(o)
  {
    if writes != [] {
      var init := writes[..|writes|-1];
      assert writes == init + [writes[|writes|-1]];
      if !writes[|writes|-1].Covers(o) {
        ReplayIsNewest(init, o);
      }
    }
  }

  /** The order-free reading is the replay: whatever timestamp order the writes are put in,
      the byte at every offset comes from the newest chunk covering it. */
  lemma {:induction false} ReplayMeetsNewest(writes: seq<FileChunk>, cs: seq<FileChunk>, o: int)
    requires InTimeOrder(writes, cs) && TieFree(cs)
    ensures Replay(writes, o) == Newest(cs, o)
  {
    assert forall c :: c in writes <==> c in multiset(writes);
    assert forall c :: c in cs <==> c in multiset(cs);
    ReplayIsNewest(writes, o);
    var r := Replay(writes, o);
    if r.Some? {
      NewestUnique(cs, o, r.value);
    }
  }

  // ---------------------------------------------------------------------------------------
  // Sublists
  // ---------------------------------------------------------------------------------------

  /** The chunks for which `keep` holds, in order. */
  function Filter(cs: seq<FileChunk>, keep: FileChunk -> bool): (r: seq<FileChunk>)
    ensures forall c :: c in r <==> c in cs && keep(c)
  {
    if cs == [] then []
    else
      var rest := Filter(cs[..|cs|-1], keep);
      if keep(cs[|cs|-1]) then rest + [cs[|cs|-1]] else rest
  }

  lemma {:induction false} FilterAppend(xs: seq<FileChunk>, ys: seq<FileChunk>, keep: FileChunk -> bool)
    ensures Filter(xs + ys, keep) == Filter(xs, keep) + Filter(ys, keep)
  {
    if ys == [] {
      assert xs + ys == xs;
    } else {
      var init := ys[..|ys|-1];
      assert (xs + ys)[..|xs + ys|-1] == xs + init;
      FilterAppend(xs, init, keep);
    }
  }

  /** Dropping elements keeps a list tie-free. */
  lemma {:induction false} FilterTieFree(cs: seq<FileChunk>, keep: FileChunk -> bool)
    requires TieFree(cs)
    ensures TieFree(Filter(cs, keep))
  {
    if cs != [] {
      var init, last := cs[..|cs|-1], cs[|cs|-1];
      FilterTieFree(init, keep);
      var f := Filter(init, keep);
      if keep(last) {
        forall i | 0 <= i < |f| && Overlap(f[i], last) ensures f[i].ts != last.ts {
          assert f[i] in init;
        }
      }
    }
  }
}
