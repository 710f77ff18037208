/**
 Reading a range of a sharded file, section by section or all sections at once
 (weed/filer/filechunk_group.go).
 */
module GroupReads {
  import opened FileChunks
  import opened Manifestize
  import opened ChunkViews
  import opened ChunkGroups

  // ---------------------------------------------------------------------------------------
  // Tiling a read range by sections
  // ---------------------------------------------------------------------------------------

  /** The part of the read range `[offset, offset + len)` that section `si` serves. */
  function RangeStart(offset: int, si: int): int { Max(offset, SectionStart(si)) }

  function RangeEnd(offset: int, len: int, si: int): int { Min(offset + len, SectionStart(si + 1)) }

  /** How far a read has come when the sections before `si` are done. */
  function Progress(offset: int, len: int, si: int): int {
    Min(Max(offset, SectionStart(si)), offset + len)
  }

  /** Every index of the buffer is served by exactly one of the sections from the first to the
      last, namely the one its file offset lies in. */
  lemma Tiling(offset: int, len: int, i: int, si: int)
    requires 0 <= offset && 0 <= i < len
    ensures RangeStart(offset, si) <= offset + i < RangeEnd(offset, len, si) <==> si == SectionIndex(offset + i)
    ensures SectionIndex(offset) <= SectionIndex(offset + i) <= SectionIndex(offset + len)
  {
  }

  lemma {:induction false} MaxTimeAgrees(xs: seq<FileChunk>, ys: seq<FileChunk>, lo: int, hi: int)
    requires forall o :: lo <= o < hi ==> Newest(xs, o) == Newest(ys, o)
    ensures MaxTime(xs, lo, hi) == MaxTime(ys, lo, hi)
    decreases hi - lo
  {
    if lo < hi {
      MaxTimeAgrees(xs, ys, lo, hi - 1);
    }
  }

  /** Section `si`, present or not, is in order and decides its offsets as the file does. */
  ghost predicate Serves(sections: Sections, file: seq<FileChunk>, si: int)
    reads sections.Values
  {
    && (si in sections ==> sections[si].Valid() && sections[si].sectionIndex == si)
    && Faithful(sections, file, si)
  }

  /** A non-empty range starts where the read has come to and carries it to its end. */
  lemma ProgressStep(offset: int, len: int, si: int)
    requires 0 <= offset && 0 <= len && SectionIndex(offset) <= si
    ensures RangeStart(offset, si) < RangeEnd(offset, len, si) ==>
              Progress(offset, len, si) == RangeStart(offset, si) && Progress(offset, len, si + 1) == RangeEnd(offset, len, si)
    ensures RangeStart(offset, si) >= RangeEnd(offset, len, si) ==> Progress(offset, len, si + 1) == Progress(offset, len, si)
    ensures offset <= Progress(offset, len, si) <= Progress(offset, len, si + 1) <= offset + len
  {
  }

  lemma ProgressEnds(offset: int, len: int)
    requires 0 <= offset && 0 <= len
    ensures Progress(offset, len, SectionIndex(offset)) == offset
    ensures Progress(offset, len, SectionIndex(offset + len) + 1) == offset + len
  {
  }

  lemma FilledOn(before: seq<bv8>, after: seq<bv8>, mid: nat, hi: nat, base: int, cs: seq<FileChunk>, stored: Volumes)
    requires mid <= hi <= |after| && Untouched(after, before, mid, hi)
    requires Filled(before, 0, mid, base, cs, stored) && Filled(after, mid, hi, base, cs, stored)
    ensures Filled(after, 0, hi, base, cs, stored)
  {
  }

  class ChunkGroup {
    var sections: Sections
    const concurrentReaders: int
    /** The data chunks the sections were built from. */
    ghost var file: seq<FileChunk>

    ghost predicate Valid()
      reads this, sections.Values
    {
      && ValidChunks(file) && TieFree(file)
      && forall si :: Serves(sections, file, si)
    }

    constructor (concurrentReaders: int)
      ensures Valid() && file == [] && sections == map[]
    {
      this.concurrentReaders :=
        if concurrentReaders <= 0 then 16 else if concurrentReaders > 128 then 128 else concurrentReaders;
      sections := map[];
      file := [];
      new;
      forall si ensures Serves(sections, file, si) {
      }
    }

    /** Re-shards the file. One level of manifests is resolved; an unreadable manifest leaves
        the group as it was. */
    method SetChunks(chunks: seq<FileChunk>) returns (failed: bool)
      requires var cs := OneLevel(chunks); ValidChunks(cs) && TieFree(cs) && FitsSections(cs)
      modifies this
      ensures failed <==> AnyUnreadable(chunks)
      ensures failed ==> sections == old(sections) && file == old(file)
      ensures !failed ==> Valid() && fresh(sections.Values) && file == OneLevel(chunks)
    {
      var dataChunks: seq<FileChunk> := [];
      for i := 0 to |chunks|
        invariant dataChunks == OneLevel(chunks[..i]) && !AnyUnreadable(chunks[..i])
      {
        var chunk := chunks[i];
        assert chunks[..i+1][..i] == chunks[..i];
        if !chunk.IsManifest() {
          dataChunks := dataChunks + [chunk];
          continue;
        }
        if chunk.body.Unreadable? {
          assert chunk in chunks;
          return true;
        }
        dataChunks := dataChunks + chunk.body.chunks;
      }
      assert chunks[..|chunks|] == chunks;
      var built := BuildSections(dataChunks);
      forall si ensures Serves(built, dataChunks, si) {
        FiledIsFaithful(built, dataChunks, si);
      }
      sections := built;
      file := dataChunks;
      return false;
    }

    /** Reads from a section that has chunks. */
    method ReadFound(stored: Volumes, buff: array<bv8>, lo: nat, hi: nat, offset: int, si: int) returns (n: int, ts: int)
      requires Valid() && si in sections && lo <= hi <= buff.Length
      requires SectionStart(si) <= offset + lo && offset + hi <= SectionStart(si + 1)
      modifies buff, sections[si]
      ensures Valid()
      ensures Filled(buff[..], lo, hi, offset, file, stored) && Untouched(buff[..], old(buff[..]), lo, hi)
      ensures n == hi - lo && ts == MaxTime(file, offset + lo, offset + hi)
    {
      assert Serves(sections, file, si);
      n, ts := sections[si].ReadDataAt(stored, buff, lo, hi, offset);
      SameOnRange(sections[si].chunks, file, stored, buff[..], lo, hi, offset);
      forall k ensures Serves(sections, file, k) {
        assert old(Serves(sections, file, k));
      }
    }

    /** Reads the part of the range that section `si` serves. A section without chunks is a
        hole and reads as zeros. */
    method ReadRange(stored: Volumes, fileSize: int, buff: array<bv8>, offset: int, si: int, lo: nat, hi: nat) returns (n: int, ts: int)
      requires Valid() && lo <= hi <= buff.Length && offset + hi <= fileSize
      requires SectionStart(si) <= offset + lo && offset + hi <= SectionStart(si + 1)
      modifies buff, sections.Values
      ensures Valid()
      ensures Filled(buff[..], lo, hi, offset, file, stored) && Untouched(buff[..], old(buff[..]), lo, hi)
      ensures n == hi - lo && ts == MaxTime(file, offset + lo, offset + hi)
    {
      if si !in sections {
        var rangeStop := Min(offset + hi, fileSize);
        ReadHole(stored, buff, lo, rangeStop - offset, offset, si);
        return rangeStop - (offset + lo), 0;
      }
      n, ts := ReadFound(stored, buff, lo, hi, offset, si);
    }

    /** Zero-fills the range of a section without chunks. */
    method ReadHole(ghost stored: Volumes, buff: array<bv8>, lo: nat, hi: nat, offset: int, ghost si: int)
      requires Valid() && lo <= hi <= buff.Length && si !in sections
      requires SectionStart(si) <= offset + lo && offset + hi <= SectionStart(si + 1)
      modifies buff
      ensures Valid()
      ensures Filled(buff[..], lo, hi, offset, file, stored) && Untouched(buff[..], old(buff[..]), lo, hi)
      ensures MaxTime(file, offset + lo, offset + hi) == 0
    {
      assert Serves(sections, file, si);
      ZeroFill(file, stored, buff, lo, hi, offset);
      NoDataNoTime(file, offset + lo, offset + hi);
    }

    /** One more section of a read that has come to `n` bytes. */
    method ReadNext(stored: Volumes, fileSize: int, buff: array<bv8>, offset: int, si: int, n: int, ts: int)
      returns (n': int, ts': int)
      requires Valid() && 0 <= offset && offset + buff.Length <= fileSize
      requires RangeStart(offset, si) < RangeEnd(offset, buff.Length, si)
      requires offset + n == RangeStart(offset, si)
      requires Filled(buff[..], 0, n, offset, file, stored) && ts == MaxTime(file, offset, offset + n)
      modifies buff, sections.Values
      ensures Valid() && offset + n' == RangeEnd(offset, buff.Length, si)
      ensures Filled(buff[..], 0, n', offset, file, stored) && ts' == MaxTime(file, offset, offset + n')
    {
      ghost var before := buff[..];
      var xn, xTs := ReadRange(stored, fileSize, buff, offset, si, n, RangeEnd(offset, buff.Length, si) - offset);
      FilledOn(before, buff[..], n, n + xn, offset, file, stored);
      MaxTimeSplits(file, offset, offset + n, offset + n + xn);
      return n + xn, Max(ts, xTs);
    }

    /** Section after section: the whole buffer is filled with the file's bytes. */
    method ReadDataAtSequential(stored: Volumes, fileSize: int, buff: array<bv8>, offset: int) returns (n: int, ts: int)
      requires Valid() && 0 <= offset && offset + buff.Length <= fileSize
      modifies buff, sections.Values
      ensures Valid()
      ensures Filled(buff[..], 0, buff.Length, offset, file, stored)
      ensures n == buff.Length && ts == MaxTime(file, offset, offset + buff.Length)
    {
      var first, last := SectionIndex(offset), SectionIndex(offset + buff.Length);
      n, ts := 0, 0;
      ProgressEnds(offset, buff.Length);
      for si := first to last + 1
        invariant Valid()
        invariant offset <= Progress(offset, buff.Length, si) <= offset + buff.Length
        invariant n == Progress(offset, buff.Length, si) - offset
        invariant Filled(buff[..], 0, n, offset, file, stored)
        invariant ts == MaxTime(file, offset, offset + n)
      {
        ProgressStep(offset, buff.Length, si);
        if RangeStart(offset, si) >= RangeEnd(offset, buff.Length, si) {
          continue;
        }
        n, ts := ReadNext(stored, fileSize, buff, offset, si, n, ts);
      }
    }

    /** A worker's view of its section before it writes any byte: the section is prepared and
        the worker's result is known. */
    method StartWorker(offset: int, si: int, lo: nat, hi: nat) returns (result: SectionResult)
      requires Valid() && si in sections && lo <= hi
      requires SectionStart(si) <= offset + lo && offset + hi <= SectionStart(si + 1)
      modifies sections[si]
      ensures Valid() && sections[si].isPrepared
      ensures result == SectionResult(hi - lo, MaxTime(file, offset + lo, offset + hi))
    {
      assert Serves(sections, file, si);
      sections[si].SetupForRead();
      forall k ensures Serves(sections, file, k) {
        assert old(Serves(sections, file, k));
      }
      assert Serves(sections, file, si);
      var ts := ScanTimes(sections[si].chunkViews, file, offset + lo, offset + hi);
      return SectionResult(hi - lo, ts);
    }

    /** Starts the worker of a section, or zero-fills the section's range on the spot if it has
        no chunks. */
    method StartSection(stored: Volumes, fileSize: int, buff: array<bv8>, offset: int, si: int, lo: nat, hi: nat) returns (result: SectionResult)
      requires Valid() && lo <= hi <= buff.Length && offset + hi <= fileSize
      requires SectionStart(si) <= offset + lo && offset + hi <= SectionStart(si + 1)
      modifies buff, sections.Values
      ensures Valid()
      ensures result == SectionResult(hi - lo, MaxTime(file, offset + lo, offset + hi))
      ensures si in sections ==> sections[si].isPrepared
      ensures si !in sections ==> Filled(buff[..], lo, hi, offset, file, stored)
      ensures Untouched(buff[..], old(buff[..]), lo, hi)
      ensures forall k <- sections :: old(sections[k].isPrepared) ==> sections[k].isPrepared
    {
      if si !in sections {
        var rangeStop := Min(offset + hi, fileSize);
        ReadHole(stored, buff, lo, rangeStop - offset, offset, si);
        return SectionResult(rangeStop - (offset + lo), 0);
      }
      result := StartWorker(offset, si, lo, hi);
    }

    /** Handles one section index of a parallel read. */
    method StartNext(stored: Volumes, fileSize: int, buff: array<bv8>, offset: int, si: int, ghost next: int) returns (result: SectionResult)
      requires Valid() && 0 <= offset && offset + buff.Length <= fileSize && next == si + 1
      requires forall k :: 0 <= k < buff.Length ==> ReadyBefore(sections, file, stored, buff[..], offset, k, si)
      modifies buff, sections.Values
      ensures Valid() && result == Expected(file, offset, buff.Length, si)
      ensures forall k :: 0 <= k < buff.Length ==> ReadyBefore(sections, file, stored, buff[..], offset, k, next)
    {
      var lo, hi := RangeStart(offset, si), RangeEnd(offset, buff.Length, si);
      result := SectionResult(0, 0);
      if lo < hi {
        result := StartSection(stored, fileSize, buff, offset, si, lo - offset, hi - offset);
      }
      forall k | 0 <= k < buff.Length ensures ReadyBefore(sections, file, stored, buff[..], offset, k, next) {
        Tiling(offset, buff.Length, k, si);
        assert old(ReadyBefore(sections, file, stored, buff[..], offset, k, si));
      }
    }

    /** Starts one worker per section with a non-empty range. */
    method StartWorkers(stored: Volumes, fileSize: int, buff: array<bv8>, offset: int) returns (results: seq<SectionResult>)
      requires Valid() && 0 <= offset && offset + buff.Length <= fileSize
      modifies buff, sections.Values
      ensures Valid()
      ensures |results| == SectionIndex(offset + buff.Length) - SectionIndex(offset) + 1
      ensures forall i :: 0 <= i < |results| ==> results[i] == Expected(file, offset, buff.Length, SectionIndex(offset) + i)
      ensures forall i :: 0 <= i < buff.Length ==> Ready(sections, file, stored, buff[..], offset, i)
    {
      var first, last := SectionIndex(offset), SectionIndex(offset + buff.Length);
      results := [];
      for si := first to last + 1
        invariant Valid() && |results| == si - first
        invariant forall k :: 0 <= k < |results| ==> results[k] == Expected(file, offset, buff.Length, first + k)
        invariant forall k :: 0 <= k < buff.Length ==> ReadyBefore(sections, file, stored, buff[..], offset, k, si)
      {
        var result := StartNext(stored, fileSize, buff, offset, si, si + 1);
        results := results + [result];
      }
      forall k | 0 <= k < buff.Length ensures Ready(sections, file, stored, buff[..], offset, k) {
        Tiling(offset, buff.Length, k, last);
        assert ReadyBefore(sections, file, stored, buff[..], offset, k, last + 1);
      }
    }

    /** A worker writes one byte, from its own section. */
    method WriteByte(stored: Volumes, buff: array<bv8>, offset: int, i: nat)
      requires Valid() && i < buff.Length && PreparedAt(sections, offset + i)
      modifies buff
      ensures Valid() && buff[..] == old(buff[..])[i := FileByte(file, stored, offset + i)]
    {
      var si := SectionIndex(offset + i);
      assert Serves(sections, file, si);
      SectionOf(offset + i, si);
      buff[i] := ByteFrom(ViewedIn(sections[si].chunkViews, offset + i), stored);
    }

    /** Writes the scheduled bytes. */
    method RunSchedule(stored: Volumes, buff: array<bv8>, offset: int, schedule: seq<nat>)
      requires Valid()
      requires forall i <- schedule :: i < buff.Length && PreparedAt(sections, offset + i)
      modifies buff
      ensures Valid() && Scheduled(buff[..], old(buff[..]), schedule, |schedule|, offset, file, stored)
    {
      for k := 0 to |schedule|
        invariant Valid()
        invariant Scheduled(buff[..], old(buff[..]), schedule, k, offset, file, stored)
      {
        assert schedule[k] in schedule;
        ScheduledStep(buff[..], old(buff[..]), schedule, k, offset, file, stored);
        WriteByte(stored, buff, offset, schedule[k]);
      }
    }

    /** All sections at once. `schedule` lists the buffer positions in the order in which the
        workers' writes reach memory: any interleaving, of any worker's bytes in any order, in
        which each byte of each section with chunks is written at least once. The outcome is
        that of the sequential read. */
    method ReadDataAtParallel(stored: Volumes, fileSize: int, buff: array<bv8>, offset: int, schedule: seq<nat>)
      returns (n: int, ts: int)
      requires Valid() && 0 <= offset && offset + buff.Length <= fileSize
      requires forall i <- schedule :: i < buff.Length && SectionIndex(offset + i) in sections
      requires forall i :: 0 <= i < buff.Length && SectionIndex(offset + i) in sections ==> i in schedule
      modifies buff, sections.Values
      ensures Valid()
      ensures Filled(buff[..], 0, buff.Length, offset, file, stored)
      ensures n == buff.Length && ts == MaxTime(file, offset, offset + buff.Length)
    {
      var results := StartWorkers(stored, fileSize, buff, offset);
      ghost var zeroed := buff[..];
      forall i <- schedule ensures PreparedAt(sections, offset + i) {
        assert Ready(sections, file, stored, zeroed, offset, i);
      }
      forall i | 0 <= i < buff.Length && i !in schedule ensures zeroed[i] == FileByte(file, stored, offset + i) {
        assert Ready(sections, file, stored, zeroed, offset, i);
      }
      RunSchedule(stored, buff, offset, schedule);
      AllWritten(buff[..], zeroed, schedule, offset, file, stored);
      ghost var marks := ResultsReport(file, offset, buff.Length, results);
      n, ts := Aggregate(file, offset, buff.Length, results, marks);
    }

    /** Chooses between the two; at or past the end of the file nothing is read. */
    method ReadDataAt(stored: Volumes, fileSize: int, buff: array<bv8>, offset: int, schedule: seq<nat>)
      returns (n: int, ts: int, eof: bool)
      requires Valid() && 0 <= offset && (offset < fileSize ==> offset + buff.Length <= fileSize)
      requires forall i <- schedule :: i < buff.Length && SectionIndex(offset + i) in sections
      requires forall i :: 0 <= i < buff.Length && SectionIndex(offset + i) in sections ==> i in schedule
      modifies buff, sections.Values
      ensures Valid()
      ensures offset >= fileSize ==> eof && n == 0 && ts == 0 && buff[..] == old(buff[..])
      ensures offset < fileSize ==>
                && Filled(buff[..], 0, buff.Length, offset, file, stored)
                && n == buff.Length && ts == MaxTime(file, offset, offset + buff.Length)
    {
      if offset >= fileSize {
        return 0, 0, true;
      }
      eof := false;
      var numSections := SectionIndex(offset + buff.Length) - SectionIndex(offset) + 1;
      if numSections <= 1 || concurrentReaders <= 1 {
        n, ts := ReadDataAtSequential(stored, fileSize, buff, offset);
      } else {
        n, ts := ReadDataAtParallel(stored, fileSize, buff, offset, schedule);
      }
    }
  }

  /** The first `k` scheduled positions hold the file's bytes, the others what they held before. */
  ghost predicate Scheduled(buff: seq<bv8>, before: seq<bv8>, schedule: seq<nat>, k: nat, offset: int, file: seq<FileChunk>, stored: Volumes)
    requires k <= |schedule| && |buff| == |before|
  {
    && (forall j :: 0 <= j < k ==> schedule[j] < |buff| && buff[schedule[j]] == FileByte(file, stored, offset + schedule[j]))
    && forall i :: 0 <= i < |buff| && i !in schedule[..k] ==> buff[i] == before[i]
  }

  lemma AllWritten(buff: seq<bv8>, before: seq<bv8>, schedule: seq<nat>, offset: int, file: seq<FileChunk>, stored: Volumes)
    requires |buff| == |before| && Scheduled(buff, before, schedule, |schedule|, offset, file, stored)
    requires forall i :: 0 <= i < |buff| && i !in schedule ==> before[i] == FileByte(file, stored, offset + i)
    ensures Filled(buff, 0, |buff|, offset, file, stored)
  {
    assert schedule[..|schedule|] == schedule;
    forall i | 0 <= i < |buff| ensures buff[i] == FileByte(file, stored, offset + i) {
      if i in schedule {
        var j :| 0 <= j < |schedule| && schedule[j] == i;
      }
    }
  }

  lemma ScheduledStep(buff: seq<bv8>, before: seq<bv8>, schedule: seq<nat>, k: nat, offset: int, file: seq<FileChunk>, stored: Volumes)
    requires k < |schedule| && |buff| == |before| && schedule[k] < |buff|
    requires Scheduled(buff, before, schedule, k, offset, file, stored)
    ensures Scheduled(buff[schedule[k] := FileByte(file, stored, offset + schedule[k])], before, schedule, k + 1, offset, file, stored)
  {
  }

  ghost predicate PreparedAt(sections: Sections, o: int)
    reads sections.Values
  {
    SectionIndex(o) in sections && sections[SectionIndex(o)].isPrepared
  }

  datatype SectionResult = SectionResult(n: int, ts: int)

  /** What the worker of section `si` reports. */
  function Expected(file: seq<FileChunk>, offset: int, len: int, si: int): SectionResult {
    var lo, hi := RangeStart(offset, si), RangeEnd(offset, len, si);
    if lo < hi then SectionResult(hi - lo, MaxTime(file, lo, hi)) else SectionResult(0, 0)
  }

  /** Buffer position `i` belongs to a prepared section, or to a hole already zero-filled. */
  ghost predicate Ready(sections: Sections, file: seq<FileChunk>, stored: Volumes, buff: seq<bv8>, offset: int, i: int)
    reads sections.Values
    requires 0 <= i < |buff|
  {
    if SectionIndex(offset + i) in sections then PreparedAt(sections, offset + i)
    else buff[i] == FileByte(file, stored, offset + i)
  }

  /** ... if it is served by a section before `si`. */
  ghost predicate ReadyBefore(sections: Sections, file: seq<FileChunk>, stored: Volumes, buff: seq<bv8>, offset: int, i: int, si: int)
    reads sections.Values
    requires 0 <= i < |buff|
  {
    SectionIndex(offset + i) < si ==> Ready(sections, file, stored, buff, offset, i)
  }

  method ScanTimes(views: seq<ChunkView>, ghost cs: seq<FileChunk>, lo: int, hi: int) returns (ts: int)
    requires lo <= hi
    requires forall o :: lo <= o < hi ==> ViewedIn(views, o) == SourceAt(cs, o)
    ensures ts == MaxTime(cs, lo, hi)
  {
    ts := 0;
    for o := lo to hi
      invariant ts == MaxTime(cs, lo, o)
    {
      ts := Max(ts, TimeFrom(ViewedIn(views, o)));
    }
  }

  /** `marks` cut `[offset, offset + len)` into the stretches the workers report on. */
  ghost predicate Reported(file: seq<FileChunk>, offset: int, len: int, results: seq<SectionResult>, marks: seq<int>) {
    && |marks| == |results| + 1 && marks[0] == offset && marks[|results|] == offset + len
    && forall i :: 0 <= i < |results| ==> offset <= marks[i] <= marks[i+1] && ReportedOne(file, results[i], marks[i], marks[i+1])
  }

  predicate ReportedOne(file: seq<FileChunk>, r: SectionResult, lo: int, hi: int) {
    r.n == hi - lo && r.ts == MaxTime(file, lo, hi)
  }

  function Marks(offset: int, len: int, first: int, count: nat): (marks: seq<int>)
    ensures |marks| == count && forall i :: 0 <= i < count ==> marks[i] == Progress(offset, len, first + i)
  {
    seq(count, i => Progress(offset, len, first + i))
  }

  lemma MarkedReport(file: seq<FileChunk>, offset: int, len: int, marks: seq<int>, r: SectionResult, i: nat)
    requires 0 <= offset && 0 <= len && i + 1 < |marks|
    requires marks == Marks(offset, len, SectionIndex(offset), |marks|)
    requires r == Expected(file, offset, len, SectionIndex(offset) + i)
    ensures offset <= marks[i] <= marks[i+1] && ReportedOne(file, r, marks[i], marks[i+1])
  {
  }

  lemma ResultsReport(file: seq<FileChunk>, offset: int, len: int, results: seq<SectionResult>) returns (marks: seq<int>)
    requires 0 <= offset && 0 <= len
    requires |results| == SectionIndex(offset + len) - SectionIndex(offset) + 1
    requires forall i :: 0 <= i < |results| ==> results[i] == Expected(file, offset, len, SectionIndex(offset) + i)
    ensures Reported(file, offset, len, results, marks)
  {
    marks := Marks(offset, len, SectionIndex(offset), |results| + 1);
    ProgressEnds(offset, len);
    forall i | 0 <= i < |results|
      ensures offset <= marks[i] <= marks[i+1] && ReportedOne(file, results[i], marks[i], marks[i+1])
    {
      MarkedReport(file, offset, len, marks, results[i], i);
    }
  }

  /** Adds up the workers' results. */
  method Aggregate(ghost file: seq<FileChunk>, ghost offset: int, ghost len: int, results: seq<SectionResult>, ghost marks: seq<int>)
    returns (n: int, ts: int)
    requires Reported(file, offset, len, results, marks)
    ensures n == len && ts == MaxTime(file, offset, offset + len)
  {
    n, ts := 0, 0;
    for i := 0 to |results|
      invariant offset + n == marks[i] && offset <= marks[i] && ts == MaxTime(file, offset, marks[i])
    {
      MaxTimeSplits(file, offset, marks[i], marks[i+1]);
      n := n + results[i].n;
      ts := Max(ts, results[i].ts);
    }
  }

  lemma {:induction false} SameOnRange(xs: seq<FileChunk>, ys: seq<FileChunk>, stored: Volumes, buff: seq<bv8>, lo: nat, hi: nat, base: int)
    requires lo <= hi <= |buff| && Filled(buff, lo, hi, base, xs, stored)
    requires forall o :: base + lo <= o < base + hi ==> Newest(xs, o) == Newest(ys, o)
    ensures Filled(buff, lo, hi, base, ys, stored) && MaxTime(xs, base + lo, base + hi) == MaxTime(ys, base + lo, base + hi)
  {
    MaxTimeAgrees(xs, ys, base + lo, base + hi);
  }

  method ZeroFill(ghost cs: seq<FileChunk>, ghost stored: Volumes, buff: array<bv8>, lo: nat, hi: nat, base: int)
    requires lo <= hi <= buff.Length
    requires forall o :: base + lo <= o < base + hi ==> SourceAt(cs, o).None?
    modifies buff
    ensures Filled(buff[..], lo, hi, base, cs, stored) && Untouched(buff[..], old(buff[..]), lo, hi)
  {
    for i := lo to hi
      invariant Filled(buff[..], lo, i, base, cs, stored) && Untouched(buff[..], old(buff[..]), lo, i)
    {
      buff[i] := 0;
    }
  }

  method BuildSections(dataChunks: seq<FileChunk>) returns (sections: Sections)
    requires ValidChunks(dataChunks) && FitsSections(dataChunks)
    ensures forall si :: Files(sections, dataChunks, si)
    ensures fresh(sections.Values)
  {
    sections := map[];
    for i := 0 to |dataChunks|
      invariant forall si :: Files(sections, dataChunks[..i], si)
      invariant fresh(sections.Values)
    {
      assert dataChunks[i] in dataChunks;
      sections := FileChunkInSections(sections, dataChunks[i], dataChunks[..i]);
      assert dataChunks[..i+1] == dataChunks[..i] + [dataChunks[i]];
    }
    assert dataChunks[..|dataChunks|] == dataChunks;
  }

  // ---------------------------------------------------------------------------------------
  // A file that was written, folded, sharded and read
  // ---------------------------------------------------------------------------------------

  /** The byte a replay of the writes leaves at an offset; zero on a hole. */
  function ReplayByte(writes: seq<FileChunk>, stored: Volumes, o: int): bv8 {
    var c := Replay(writes, o);
    ByteFrom(if c.Some? then Some(SourceIn(c.value, o)) else None, stored)
  }

  lemma {:induction false} GrownFile(changes: seq<Change>)
    requires History(changes)
    ensures multiset(OneLevel(After(changes))) == multiset(Written(changes))
    ensures forall c :: c in OneLevel(After(changes)) <==> c in Written(changes)
    ensures TieFree(Written(changes)) ==> TieFree(OneLevel(After(changes)))
  {
    GrowingFile(changes);
    OneLevelIsComplete(After(changes));
    SameElements(OneLevel(After(changes)), Written(changes));
    if TieFree(Written(changes)) {
      PartTieFree(Written(changes), OneLevel(After(changes)));
    }
  }

  lemma {:induction false} GroupHoldsReplayAt(changes: seq<Change>, writes: seq<FileChunk>, stored: Volumes, o: int)
    requires History(changes) && InTimeOrder(writes, Written(changes)) && TieFree(Written(changes))
    ensures FileByte(OneLevel(After(changes)), stored, o) == ReplayByte(writes, stored, o)
  {
    GrowingFile(changes);
    OneLevelIsComplete(After(changes));
    GrowingFileBytes(changes, writes, o);
  }

  /** The places of a buffer that some section serves. */
  method Served(sections: Sections, offset: int, length: nat) returns (schedule: seq<nat>)
    ensures forall i <- schedule :: i < length && SectionIndex(offset + i) in sections
    ensures forall i :: 0 <= i < length && SectionIndex(offset + i) in sections ==> i in schedule
  {
    schedule := [];
    for i := 0 to length
      invariant forall k <- schedule :: k < i && SectionIndex(offset + k) in sections
      invariant forall k :: 0 <= k < i && SectionIndex(offset + k) in sections ==> k in schedule
    {
      if SectionIndex(offset + i) in sections {
        schedule := schedule + [i];
      }
    }
  }

  /** Shards such a file. */
  method Shard(group: ChunkGroup, changes: seq<Change>) returns (failed: bool)
    requires History(changes) && ValidChunks(Written(changes)) && TieFree(Written(changes)) && FitsSections(Written(changes))
    modifies group
    ensures failed <==> AnyUnreadable(After(changes))
    ensures !failed ==> group.Valid() && fresh(group.sections.Values) && group.file == OneLevel(After(changes))
  {
    GrownFile(changes);
    failed := group.SetChunks(After(changes));
  }

  /** Reads a range of a sharded file. */
  method ReadRange(group: ChunkGroup, stored: Volumes, fileSize: int, buff: array<bv8>, offset: int) returns (n: int, ts: int)
    requires group.Valid() && 0 <= offset < fileSize && offset + buff.Length <= fileSize
    modifies buff, group.sections.Values
    ensures n == buff.Length && Filled(buff[..], 0, buff.Length, offset, group.file, stored)
  {
    var schedule := Served(group.sections, offset, buff.Length);
    var eof;
    n, ts, eof := group.ReadDataAt(stored, fileSize, buff, offset, schedule);
  }

  ghost predicate Replayed(buff: seq<bv8>, writes: seq<FileChunk>, stored: Volumes, offset: int) {
    forall i :: 0 <= i < |buff| ==> buff[i] == ReplayByte(writes, stored, offset + i)
  }

  ghost predicate SameBytes(cs: seq<FileChunk>, writes: seq<FileChunk>, stored: Volumes) {
    forall o :: FileByte(cs, stored, o) == ReplayByte(writes, stored, o)
  }

  /** Whatever was appended and however it was folded: a group built from the list has the bytes of
      the replay of everything written. */
  lemma {:induction false} GroupHoldsReplay(changes: seq<Change>, writes: seq<FileChunk>, stored: Volumes)
    requires History(changes) && InTimeOrder(writes, Written(changes)) && TieFree(Written(changes))
    ensures SameBytes(OneLevel(After(changes)), writes, stored)
  {
    forall o ensures FileByte(OneLevel(After(changes)), stored, o) == ReplayByte(writes, stored, o) {
      GroupHoldsReplayAt(changes, writes, stored, o);
    }
  }

  lemma {:induction false} FilledIsReplayed(buff: seq<bv8>, cs: seq<FileChunk>, writes: seq<FileChunk>, stored: Volumes, offset: int)
    requires SameBytes(cs, writes, stored) && Filled(buff, 0, |buff|, offset, cs, stored)
    ensures Replayed(buff, writes, stored, offset)
  {
  }

  /** Sharding such a file and reading a range of it fills the buffer with what the writes, replayed
      in the order of their timestamps, leave there. */
  method ReadGrownFile(
    group: ChunkGroup, changes: seq<Change>, ghost writes: seq<FileChunk>, stored: Volumes, fileSize: int, buff: array<bv8>, offset: int)
    returns (failed: bool, n: int, ts: int)
    requires History(changes) && InTimeOrder(writes, Written(changes))
    requires ValidChunks(Written(changes)) && TieFree(Written(changes)) && FitsSections(Written(changes))
    requires 0 <= offset < fileSize && offset + buff.Length <= fileSize
    modifies group, buff
    ensures failed <==> AnyUnreadable(After(changes))
    ensures !failed ==> n == buff.Length && Replayed(buff[..], writes, stored, offset)
  {
    failed := Shard(group, changes);
    if failed {
      return true, 0, 0;
    }
    n, ts := ReadRange(group, stored, fileSize, buff, offset);
    GroupHoldsReplay(changes, writes, stored);
    FilledIsReplayed(buff[..], OneLevel(After(changes)), writes, stored, offset);
  }
}
