/**
 The sweep line that turns a bag of overlapping chunks into a sorted list of visible
 intervals (weed/filer/filechunks_read.go).
 */
module SweepLine {
  import Curtains
  import opened FileChunks

  datatype VisibleInterval = VisibleInterval(
    start: int, stop: int, ts: int, fileId: string, offsetInChunk: int, chunkSize: int)
  {
    predicate Contains(o: int) { start <= o < stop }

    function SourceOf(o: int): Source { Source(fileId, o - start + offsetInChunk, ts) }
  }

  /** Non-empty intervals, in order, none reaching into the next. */
  predicate Ordered(vs: seq<VisibleInterval>) {
    && (forall v <- vs :: v.start < v.stop)
    && forall i, j :: 0 <= i < j < |vs| ==> vs[i].stop <= vs[j].start
  }

  /** `v` is a piece of chunk `c`, at the right distance from the chunk's start. */
  predicate Shows(v: VisibleInterval, c: FileChunk) {
    && v.fileId == c.fileId && v.ts == c.ts && v.chunkSize == c.size
    && v.offsetInChunk == v.start - c.offset
    && c.offset <= v.start && v.stop <= c.Stop()
  }

  /** At `o`, the intervals say exactly which chunk is newest. */
  predicate DepictsAt(vs: seq<VisibleInterval>, cs: seq<FileChunk>, o: int) {
    var n := Newest(cs, o);
    && (forall v <- vs :: v.Contains(o) ==> n.Some? && Shows(v, n.value))
    && (n.Some? ==> exists v :: v in vs && v.Contains(o))
  }

  ghost predicate Depicts(vs: seq<VisibleInterval>, cs: seq<FileChunk>, lo: int, hi: int) {
    forall o :: lo <= o < hi ==> DepictsAt(vs, cs, o)
  }

  // ---------------------------------------------------------------------------------------
  // Points
  // ---------------------------------------------------------------------------------------

  datatype Point = Point(x: int, ts: int, chunk: FileChunk, isStart: bool)

  function StartOf(c: FileChunk): Point { Point(c.offset, c.ts, c, true) }

  function EndOf(c: FileChunk): Point { Point(c.Stop(), c.ts, c, false) }

  function PointsOf(cs: seq<FileChunk>): (ps: seq<Point>)
    ensures forall p :: p in ps <==> p.chunk in cs && (p == StartOf(p.chunk) || p == EndOf(p.chunk))
  {
    if cs == [] then []
    else PointsOf(cs[..|cs|-1]) + [StartOf(cs[|cs|-1]), EndOf(cs[|cs|-1])]
  }

  /** By position, then by time, and for equal times an end before a start. */
  predicate Before(a: Point, b: Point) {
    a.x < b.x || (a.x == b.x && (a.ts < b.ts || (a.ts == b.ts && !a.isStart && b.isStart)))
  }

  predicate Sorted(ps: seq<Point>) {
    forall i, j :: 0 <= i < j < |ps| ==> !Before(ps[j], ps[i])
  }

  function InsertPoint(ps: seq<Point>, p: Point): (r: seq<Point>)
    requires Sorted(ps)
    ensures Sorted(r)
    ensures forall q :: q in r <==> q in ps || q == p
    ensures multiset(r) == multiset(ps) + multiset{p}
  {
    if ps == [] || !Before(p, ps[|ps|-1]) then
      AppendKeepsSorted(ps, p);
      ps + [p]
    else
      var init, last := ps[..|ps|-1], ps[|ps|-1];
      assert ps == init + [last];
      var r := InsertPoint(init, p);
      assert forall q <- r :: q in init || q == p;
      assert forall q <- init :: !Before(last, q);
      AppendKeepsSorted(r, last);
      r + [last]
  }

  lemma AppendKeepsSorted(ps: seq<Point>, p: Point)
    requires Sorted(ps) && forall q <- ps :: !Before(p, q)
    ensures Sorted(ps + [p])
  {
  }

  function SortPoints(ps: seq<Point>): (r: seq<Point>)
    ensures Sorted(r) && multiset(r) == multiset(ps)
  {
    if ps == [] then []
    else
      assert ps == ps[..|ps|-1] + [ps[|ps|-1]];
      InsertPoint(SortPoints(ps[..|ps|-1]), ps[|ps|-1])
  }

  // ---------------------------------------------------------------------------------------
  // The chunks that take part in a sweep
  // ---------------------------------------------------------------------------------------

  /** Non-empty, valid and tie-free; hence pairwise different. */
  predicate Sweepable(cs: seq<FileChunk>) {
    TieFree(cs) && forall c <- cs :: c.Valid() && 0 < c.size
  }

  lemma {:induction false} PointsDistinct(cs: seq<FileChunk>, p: Point)
    requires Sweepable(cs)
    ensures multiset(PointsOf(cs))[p] <= 1
  {
    if cs != [] {
      var init, last := cs[..|cs|-1], cs[|cs|-1];
      PointsDistinct(init, p);
      if last in init {
        assert Overlap(last, last);
        assert false;
      }
      assert p.chunk == last ==> p !in PointsOf(init);
    }
  }

  lemma TwiceInMultiset<T>(s: seq<T>, i: nat, j: nat)
    requires i < j < |s| && s[i] == s[j]
    ensures multiset(s)[s[i]] >= 2
  {
    assert s == s[..j] + [s[j]] + s[j+1..];
    assert s[i] in s[..j];
  }

  /** `points` are the end points of `cs` in sweep order. */
  ghost predicate SweepOrder(points: seq<Point>, cs: seq<FileChunk>) {
    && Sweepable(cs)
    && (forall p :: p in points <==> p in PointsOf(cs))
    && Strict(points)
  }

  predicate Strict(points: seq<Point>) {
    forall i, j :: 0 <= i < j < |points| ==> Before(points[i], points[j])
  }

  lemma EndPointsTakePart(points: seq<Point>, cs: seq<FileChunk>, c: FileChunk)
    requires SweepOrder(points, cs) && c in cs
    ensures StartOf(c) in points && EndOf(c) in points && 0 <= c.offset < c.Stop()
  {
  }

  lemma {:induction false} SameKeySamePoint(cs: seq<FileChunk>, p: Point, q: Point)
    requires Sweepable(cs) && p in PointsOf(cs) && q in PointsOf(cs)
    requires p.x == q.x && p.ts == q.ts && p.isStart == q.isStart
    ensures p == q
  {
  }

  lemma {:induction false} SortedPointsAreStrict(cs: seq<FileChunk>, points: seq<Point>)
    requires Sweepable(cs)
    requires Sorted(points) && multiset(points) == multiset(PointsOf(cs))
    ensures SweepOrder(points, cs)
  {
    var all := PointsOf(cs);
    assert forall p :: p in points <==> p in multiset(points);
    assert forall p :: p in all <==> p in multiset(all);
    forall i, j | 0 <= i < j < |points| ensures Before(points[i], points[j]) {
      if !Before(points[i], points[j]) {
        SameKeySamePoint(cs, points[i], points[j]);
        TwiceInMultiset(points, i, j);
        PointsDistinct(cs, points[i]);
      }
    }
  }

  // ---------------------------------------------------------------------------------------
  // Loop state: the queue of open chunks
  // ---------------------------------------------------------------------------------------

  predicate ByTime(queue: seq<Point>) {
    forall i, j :: 0 <= i < j < |queue| ==> queue[i].ts < queue[j].ts
  }

  /** After `i` points the queue holds the start points of exactly the chunks that have been
      opened and not yet closed, oldest first. */
  ghost predicate QueueInv(points: seq<Point>, i: nat, cs: seq<FileChunk>, queue: seq<Point>)
    requires i <= |points|
  {
    && ByTime(queue)
    && (forall p <- queue :: p.chunk in cs && p == StartOf(p.chunk))
    && forall c <- cs :: StartOf(c) in queue <==> StartOf(c) in points[..i] && EndOf(c) !in points[..i]
  }

  function Top(queue: seq<Point>): Option<FileChunk> {
    if queue == [] then None else Some(queue[|queue|-1].chunk)
  }

  function Position(points: seq<Point>, i: nat): int
    requires i <= |points|
  {
    if i == 0 then 0 else points[i-1].x
  }

  lemma PrefixMember(points: seq<Point>, i: nat, p: Point, k: nat)
    requires i <= |points| && k < |points| && points[k] == p
    requires Strict(points)
    ensures p in points[..i] <==> k < i
  {
  }

  /** Between two consecutive points, the points already handled are those on the left. */
  lemma HandledMeansLeft(points: seq<Point>, i: nat, p: Point, o: int)
    requires Strict(points) && i < |points| && p in points
    requires Position(points, i) <= o < points[i].x
    ensures p in points[..i] <==> p.x <= o
  {
  }

  /** ... so there a chunk covers an offset exactly when it is open. */
  lemma OpenMeansCovering(points: seq<Point>, i: nat, cs: seq<FileChunk>, c: FileChunk, o: int)
    requires SweepOrder(points, cs) && i < |points| && c in cs
    requires Position(points, i) <= o < points[i].x
    ensures c.Covers(o) <==> StartOf(c) in points[..i] && EndOf(c) !in points[..i]
  {
    EndPointsTakePart(points, cs, c);
    HandledMeansLeft(points, i, StartOf(c), o);
    HandledMeansLeft(points, i, EndOf(c), o);
  }

  /** ... so the newest chunk there is the tail of the queue. */
  lemma {:induction false} TailIsNewest(points: seq<Point>, i: nat, cs: seq<FileChunk>, queue: seq<Point>, o: int)
    requires SweepOrder(points, cs) && i < |points| && QueueInv(points, i, cs, queue)
    requires Position(points, i) <= o < points[i].x
    ensures Newest(cs, o) == Top(queue)
  {
    forall c <- cs ensures c.Covers(o) <==> StartOf(c) in queue {
      OpenMeansCovering(points, i, cs, c, o);
    }
    if queue != [] {
      var top := queue[|queue|-1];
      assert top in queue;
      forall d <- cs | d.Covers(o) ensures d.ts <= top.ts {
        assert StartOf(d) in queue;
      }
      NewestUnique(cs, o, top.chunk);
    }
  }

  // ---------------------------------------------------------------------------------------
  // Loop state: the intervals already emitted
  // ---------------------------------------------------------------------------------------

  /** Everything left of `prevX` is emitted; from there up to `x` the newest chunk is `top`. */
  ghost predicate VisibleInv(cs: seq<FileChunk>, vs: seq<VisibleInterval>, prevX: int, x: int, top: Option<FileChunk>) {
    && 0 <= prevX <= x
    && Ordered(vs) && (forall v <- vs :: v.stop <= prevX)
    && (forall o :: o < prevX ==> DepictsAt(vs, cs, o))
    && forall o :: prevX <= o < x ==> Newest(cs, o) == top
  }

  function AddToVisibles(vs: seq<VisibleInterval>, prevX: int, chunk: FileChunk, x: int): seq<VisibleInterval> {
    if prevX < x
    then vs + [VisibleInterval(prevX, x, chunk.ts, chunk.fileId, prevX - chunk.offset, chunk.size)]
    else vs
  }

  /** Emitting `[prevX, x)` as a piece of the tail chunk. */
  lemma Flush(cs: seq<FileChunk>, vs: seq<VisibleInterval>, prevX: int, x: int, chunk: FileChunk, top: Option<FileChunk>)
    requires VisibleInv(cs, vs, prevX, x, Some(chunk))
    ensures VisibleInv(cs, AddToVisibles(vs, prevX, chunk, x), x, x, top)
  {
    if prevX < x {
      var us := AddToVisibles(vs, prevX, chunk, x);
      var v := us[|us|-1];
      assert Newest(cs, prevX) == Some(chunk) && Newest(cs, x - 1) == Some(chunk);
      assert Shows(v, chunk);
      forall o | o < x ensures DepictsAt(us, cs, o) {
        assert DepictsAt(vs, cs, o) || (prevX <= o && v in us && v.Contains(o));
      }
    }
  }

  /** Nothing covers `[prevX, x)`. */
  lemma SkipHole(cs: seq<FileChunk>, vs: seq<VisibleInterval>, prevX: int, x: int, top: Option<FileChunk>)
    requires VisibleInv(cs, vs, prevX, x, None)
    ensures VisibleInv(cs, vs, x, x, top)
  {
  }

  // ---------------------------------------------------------------------------------------
  // Queue operations
  // ---------------------------------------------------------------------------------------

  /** While a start point is handled, no open chunk carries its timestamp. */
  lemma StartTimeIsFresh(points: seq<Point>, i: nat, cs: seq<FileChunk>, queue: seq<Point>, q: Point)
    requires SweepOrder(points, cs) && i < |points| && points[i].isStart && QueueInv(points, i, cs, queue)
    requires q in queue
    ensures q.ts != points[i].ts
  {
    PrefixMember(points, i, points[i], i);
    if q.ts == points[i].ts {
      OpenSpansPosition(points, i, cs, queue, q);
      assert points[i] in PointsOf(cs);
      TieFreeAt(cs, points[i].chunk, q.chunk, points[i].x);
    }
  }

  /** An open chunk with the time of the start point at hand would overlap it. */
  lemma OpenSpansPosition(points: seq<Point>, i: nat, cs: seq<FileChunk>, queue: seq<Point>, q: Point)
    requires SweepOrder(points, cs) && i < |points| && points[i].isStart && QueueInv(points, i, cs, queue)
    requires q in queue && q.ts == points[i].ts
    ensures q.chunk.Covers(points[i].x) && q in points[..i]
  {
    var d := q.chunk;
    assert EndOf(d) in points;
    var e :| 0 <= e < |points| && points[e] == EndOf(d);
    PrefixMember(points, i, EndOf(d), e);
    assert e != i && Before(points[i], EndOf(d));
    var s :| 0 <= s < i && points[s] == q;
    assert Before(q, points[i]);
  }

  lemma Opened(points: seq<Point>, i: nat, cs: seq<FileChunk>, queue: seq<Point>, newQueue: seq<Point>)
    requires SweepOrder(points, cs) && i < |points| && points[i].isStart && QueueInv(points, i, cs, queue)
    requires ByTime(newQueue) && forall q :: q in newQueue <==> q in queue || q == points[i]
    ensures QueueInv(points, i + 1, cs, newQueue)
  {
    assert points[i] in PointsOf(cs);
    assert points[..i+1] == points[..i] + [points[i]];
    forall c <- cs
      ensures StartOf(c) in newQueue <==> StartOf(c) in points[..i+1] && EndOf(c) !in points[..i+1]
    {
      if StartOf(c) == points[i] {
        assert EndOf(c) in points;
        var e :| 0 <= e < |points| && points[e] == EndOf(c);
        assert Before(StartOf(c), EndOf(c));
        PrefixMember(points, i + 1, EndOf(c), e);
      }
    }
  }

  lemma Closed(points: seq<Point>, i: nat, cs: seq<FileChunk>, queue: seq<Point>, newQueue: seq<Point>)
    requires SweepOrder(points, cs) && i < |points| && !points[i].isStart && QueueInv(points, i, cs, queue)
    requires ByTime(newQueue)
    requires forall q :: q in newQueue <==> q in queue && q != StartOf(points[i].chunk)
    ensures QueueInv(points, i + 1, cs, newQueue)
  {
    assert points[..i+1] == points[..i] + [points[i]];
    assert points[i] in PointsOf(cs);
  }

  /** The chunk being closed is open. */
  lemma ClosingIsOpen(points: seq<Point>, i: nat, cs: seq<FileChunk>, queue: seq<Point>)
    requires SweepOrder(points, cs) && i < |points| && !points[i].isStart && QueueInv(points, i, cs, queue)
    ensures StartOf(points[i].chunk) in queue
  {
    var c := points[i].chunk;
    assert points[i] in PointsOf(cs);
    assert StartOf(c) in points;
    var s :| 0 <= s < |points| && points[s] == StartOf(c);
    assert Before(StartOf(c), EndOf(c));
    PrefixMember(points, i, StartOf(c), s);
    PrefixMember(points, i, EndOf(c), i);
  }

  /** The queue with a point put before the first one of a later time; without a later one it stays
      as it is. */
  function InsertedByTime(queue: seq<Point>, point: Point): seq<Point> {
    if queue == [] then []
    else if queue[0].ts > point.ts then [point] + queue
    else [queue[0]] + InsertedByTime(queue[1..], point)
  }

  lemma {:induction false} InsertedAt(queue: seq<Point>, e: nat, point: Point)
    requires e < |queue| && queue[e].ts > point.ts && forall k :: 0 <= k < e ==> queue[k].ts <= point.ts
    ensures InsertedByTime(queue, point) == queue[..e] + [point] + queue[e..]
  {
    if e > 0 {
      InsertedAt(queue[1..], e - 1, point);
      assert queue == [queue[0]] + queue[1..];
    }
  }

  /** The queue without the last point of a time. */
  function RemovedByTime(queue: seq<Point>, ts: int): seq<Point> {
    if queue == [] then []
    else if queue[|queue|-1].ts == ts then queue[..|queue|-1]
    else RemovedByTime(queue[..|queue|-1], ts) + [queue[|queue|-1]]
  }

  lemma {:induction false} RemovedAt(queue: seq<Point>, e: nat, ts: int)
    requires e <= |queue| && (forall k :: e <= k < |queue| ==> queue[k].ts != ts) && (e > 0 ==> queue[e-1].ts == ts)
    ensures RemovedByTime(queue, ts) == if e == 0 then queue else queue[..e-1] + queue[e..]
  {
    if e < |queue| {
      var init, last := queue[..|queue|-1], queue[|queue|-1];
      RemovedAt(init, e, ts);
      if e > 0 {
        assert init[..e-1] == queue[..e-1] && init[e..] + [last] == queue[e..];
        assert init[..e-1] + init[e..] + [last] == queue[..e-1] + queue[e..];
      } else {
        assert init + [last] == queue;
      }
    }
  }

  /** Insert before the first element with a later time. */
  method InsertByTime(queue: seq<Point>, point: Point) returns (r: seq<Point>)
    ensures r == InsertedByTime(queue, point)
  {
    r := queue;
    var e := 0;
    while e < |queue|
      invariant 0 <= e <= |queue| && r == queue
      invariant forall k :: 0 <= k < e ==> queue[k].ts <= point.ts
    {
      if queue[e].ts > point.ts {
        r := queue[..e] + [point] + queue[e..];
        InsertedAt(queue, e, point);
        return;
      }
      e := e + 1;
    }
    NoneLater(queue, point);
  }

  lemma {:induction false} NoneLater(queue: seq<Point>, point: Point)
    requires forall k :: 0 <= k < |queue| ==> queue[k].ts <= point.ts
    ensures InsertedByTime(queue, point) == queue
  {
    if queue != [] {
      NoneLater(queue[1..], point);
    }
  }

  /** A point of a time of its own finds its place. */
  lemma {:induction false} InsertedFacts(queue: seq<Point>, point: Point)
    requires ByTime(queue) && queue != [] && point.ts < queue[|queue|-1].ts && forall q <- queue :: q.ts != point.ts
    ensures var r := InsertedByTime(queue, point);
            ByTime(r) && Top(r) == Top(queue) && forall q :: q in r <==> q in queue || q == point
  {
    var e := FirstLater(queue, point);
    InsertedAt(queue, e, point);
    Spliced(queue, e, point);
  }

  lemma FirstLater(queue: seq<Point>, point: Point) returns (e: nat)
    requires ByTime(queue) && queue != [] && point.ts < queue[|queue|-1].ts && forall q <- queue :: q.ts != point.ts
    ensures e < |queue| && queue[e].ts > point.ts && forall k :: 0 <= k < e ==> queue[k].ts < point.ts
  {
    e := 0;
    while queue[e].ts <= point.ts
      invariant e < |queue| && forall k :: 0 <= k < e ==> queue[k].ts < point.ts
      decreases |queue| - e
    {
      assert queue[e] in queue;
      e := e + 1;
    }
  }

  lemma Spliced(queue: seq<Point>, e: nat, point: Point)
    requires ByTime(queue) && e < |queue| && point.ts < queue[e].ts
    requires forall k :: 0 <= k < e ==> queue[k].ts < point.ts
    ensures var r := queue[..e] + [point] + queue[e..];
            ByTime(r) && Top(r) == Top(queue) && forall q :: q in r <==> q in queue || q == point
  {
  }

  /** Remove the element carrying `ts`, searching from the back. */
  method RemoveByTime(queue: seq<Point>, ts: int) returns (r: seq<Point>, isLast: bool)
    ensures r == RemovedByTime(queue, ts) && isLast == (queue == [] || queue[|queue|-1].ts == ts)
  {
    isLast := true;
    r := queue;
    var e := |queue|;
    while e > 0
      invariant 0 <= e <= |queue|
      invariant r == queue
      invariant forall k :: e <= k < |queue| ==> queue[k].ts != ts
      invariant isLast <==> e == |queue|
    {
      if queue[e-1].ts == ts {
        r := queue[..e-1] + queue[e..];
        break;
      }
      isLast := false;
      e := e - 1;
    }
    RemovedAt(queue, e, ts);
  }

  /** A point that is there is taken out. */
  lemma {:induction false} RemovedFacts(queue: seq<Point>, q: Point)
    requires ByTime(queue) && q in queue
    ensures var r := RemovedByTime(queue, q.ts);
            && ByTime(r) && (forall p :: p in r <==> p in queue && p.ts != q.ts)
            && (queue[|queue|-1].ts != q.ts ==> Top(r) == Top(queue))
  {
    var e :| 0 <= e < |queue| && queue[e] == q;
    RemovedAt(queue, e + 1, q.ts);
    CutOut(queue, e);
  }

  lemma CutOut(queue: seq<Point>, e: nat)
    requires ByTime(queue) && e < |queue|
    ensures var r := queue[..e] + queue[e+1..];
            && ByTime(r) && (forall q :: q in r <==> q in queue && q.ts != queue[e].ts)
            && (e < |queue| - 1 ==> Top(r) == Top(queue))
  {
  }

  // ---------------------------------------------------------------------------------------
  // The sweep
  // ---------------------------------------------------------------------------------------

  /** The chunks with a byte in the window: the only ones that take part. */
  function InWindow(cs: seq<FileChunk>, lo: int, hi: int): seq<FileChunk> {
    Filter(cs, (c: FileChunk) => c.Intersects(lo, hi))
  }

  lemma InWindowSweepable(cs: seq<FileChunk>, lo: int, hi: int)
    requires ValidChunks(cs) && TieFree(cs)
    ensures Sweepable(InWindow(cs, lo, hi))
  {
    FilterTieFree(cs, (c: FileChunk) => c.Intersects(lo, hi));
  }

  /** Inside the window nothing is lost by leaving the other chunks out. */
  lemma WindowIsEnough(vs: seq<VisibleInterval>, cs: seq<FileChunk>, lo: int, hi: int)
    requires TieFree(cs)
    requires forall o :: DepictsAt(vs, InWindow(cs, lo, hi), o)
    ensures Depicts(vs, cs, lo, hi)
  {
    forall o | lo <= o < hi ensures DepictsAt(vs, cs, o) {
      NewestAgrees(cs, InWindow(cs, lo, hi), o);
      assert DepictsAt(vs, InWindow(cs, lo, hi), o);
    }
  }

  /** What the sweep carries along. */
  datatype SweepState = SweepState(queue: seq<Point>, prevX: int, visibles: seq<VisibleInterval>)

  function SweepStep(s: SweepState, point: Point): SweepState {
    var SweepState(queue, prevX, visibles) := s;
    if point.isStart then
      if queue == [] then SweepState([point], point.x, visibles)
      else
        var top := queue[|queue|-1];
        if top.ts < point.ts then
          SweepState(queue + [point], point.x,
                     if point.x != prevX then AddToVisibles(visibles, prevX, top.chunk, point.x) else visibles)
        else SweepState(InsertedByTime(queue, point), prevX, visibles)
    else if queue != [] && queue[|queue|-1].ts == point.ts then
      SweepState(RemovedByTime(queue, point.ts), point.x, AddToVisibles(visibles, prevX, queue[|queue|-1].chunk, point.x))
    else SweepState(RemovedByTime(queue, point.ts), prevX, visibles)
  }

  /** The sweep as a fold over the points, whatever they are. */
  function SweepAll(points: seq<Point>): SweepState {
    if points == [] then SweepState([], 0, []) else SweepStep(SweepAll(points[..|points|-1]), points[|points|-1])
  }

  method CollectPoints(chunks: seq<FileChunk>, startOffset: int, stopOffset: int) returns (points: seq<Point>)
    ensures points == PointsOf(InWindow(chunks, startOffset, stopOffset))
  {
    points := [];
    for i := 0 to |chunks|
      invariant points == PointsOf(InWindow(chunks[..i], startOffset, stopOffset))
    {
      var chunk := chunks[i];
      assert chunks[..i+1][..i] == chunks[..i];
      var start, stop := Max(chunk.offset, startOffset), Min(chunk.offset + chunk.size, stopOffset);
      if start >= stop {
        continue;
      }
      points := points + [StartOf(chunk)];
      points := points + [EndOf(chunk)];
    }
    assert chunks[..|chunks|] == chunks;
  }

  /** For valid chunks of which overlapping ones differ in time, the visible intervals are in order
      and disjoint, and at every offset of the window they name the newest chunk covering it, at
      the right position, and nothing on a hole. Beyond the window they depict just the chunks that
      reach into it. */
  method ReadResolvedChunks(chunks: seq<FileChunk>, startOffset: int, stopOffset: int)
    returns (visibles: seq<VisibleInterval>)
    ensures visibles == SweepAll(SortPoints(PointsOf(InWindow(chunks, startOffset, stopOffset)))).visibles
    ensures ValidChunks(chunks) && TieFree(chunks) ==>
              && Ordered(visibles)
              && Depicts(visibles, chunks, startOffset, stopOffset)
              && forall o :: DepictsAt(visibles, InWindow(chunks, startOffset, stopOffset), o)
  {
    var points := CollectPoints(chunks, startOffset, stopOffset);
    points := SortPoints(points);
    visibles := SweepPoints(points);
    if ValidChunks(chunks) && TieFree(chunks) {
      ghost var cs := InWindow(chunks, startOffset, stopOffset);
      InWindowSweepable(chunks, startOffset, stopOffset);
      SortedPointsAreStrict(cs, points);
      SweepDepicts(points, cs);
      WindowIsEnough(visibles, chunks, startOffset, stopOffset);
    }
  }

  method SweepPoints(points: seq<Point>) returns (visibles: seq<VisibleInterval>)
    ensures visibles == SweepAll(points).visibles
  {
    var prevX := 0;
    var queue: seq<Point> := [];
    visibles := [];
    for i := 0 to |points|
      invariant SweepState(queue, prevX, visibles) == SweepAll(points[..i])
    {
      assert points[..i+1][..i] == points[..i];
      if points[i].isStart {
        queue, prevX, visibles := OpenChunk(queue, prevX, visibles, points[i]);
      } else {
        queue, prevX, visibles := CloseChunk(queue, prevX, visibles, points[i]);
      }
    }
    assert points[..|points|] == points;
  }

  /** A chunk opens. */
  method OpenChunk(queue: seq<Point>, prevX: int, visibles: seq<VisibleInterval>, point: Point)
    returns (queue': seq<Point>, prevX': int, visibles': seq<VisibleInterval>)
    requires point.isStart
    ensures SweepState(queue', prevX', visibles') == SweepStep(SweepState(queue, prevX, visibles), point)
  {
    queue', prevX', visibles' := queue, prevX, visibles;
    if queue != [] {
      var prevPoint := queue[|queue|-1];
      if point.x != prevX && prevPoint.ts < point.ts {
        visibles' := AddToVisibles(visibles, prevX, prevPoint.chunk, point.x);
        prevX' := point.x;
      }
    }
    if queue == [] || queue[|queue|-1].ts < point.ts {
      queue' := queue + [point];
      prevX' := point.x;
    } else {
      queue' := InsertByTime(queue, point);
    }
  }

  /** A chunk closes. */
  method CloseChunk(queue: seq<Point>, prevX: int, visibles: seq<VisibleInterval>, point: Point)
    returns (queue': seq<Point>, prevX': int, visibles': seq<VisibleInterval>)
    requires !point.isStart
    ensures SweepState(queue', prevX', visibles') == SweepStep(SweepState(queue, prevX, visibles), point)
  {
    var isLast;
    prevX', visibles' := prevX, visibles;
    queue', isLast := RemoveByTime(queue, point.ts);
    if isLast && queue != [] {
      visibles' := AddToVisibles(visibles, prevX, queue[|queue|-1].chunk, point.x);
      prevX' := point.x;
    }
  }

  /** The fold depicts the chunks. */
  lemma {:induction false} SweepDepicts(points: seq<Point>, cs: seq<FileChunk>)
    requires SweepOrder(points, cs)
    ensures Ordered(SweepAll(points).visibles)
    ensures forall o :: DepictsAt(SweepAll(points).visibles, cs, o)
  {
    SweepKeeps(points, |points|, cs);
    assert Curtains.Opened(0);
    assert points[..|points|] == points;
    var SweepState(queue, prevX, visibles) := SweepAll(points);
    SweepIsComplete(points, cs, queue, visibles, prevX);
  }

  ghost predicate SweepInv(points: seq<Point>, i: nat, cs: seq<FileChunk>, s: SweepState, x: int)
    requires i <= |points|
  {
    QueueInv(points, i, cs, s.queue) && VisibleInv(cs, s.visibles, s.prevX, x, Top(s.queue))
  }

  /** The invariant holds of the sweep over the first `i` points. */
  ghost predicate SweptTo(points: seq<Point>, i: nat, cs: seq<FileChunk>)
    requires i <= |points|
  {
    forall k :: Curtains.Opened(k) ==> SweepInv(points, i, cs, SweepAll(points[..i]), Position(points, i))
  }

  lemma {:induction false} SweptNext(points: seq<Point>, i: nat, cs: seq<FileChunk>)
    requires SweepOrder(points, cs) && i < |points| && SweptTo(points, i, cs)
    ensures SweptTo(points, i + 1, cs)
  {
    assert Curtains.Opened(0);
    assert points[..i + 1][..i] == points[..i];
    assert SweepAll(points[..i + 1]) == SweepStep(SweepAll(points[..i]), points[i]);
    SweepInvStep(points, i, cs, SweepAll(points[..i]));
  }

  lemma SweepInvStep(points: seq<Point>, i: nat, cs: seq<FileChunk>, s: SweepState)
    requires SweepOrder(points, cs) && i < |points| && SweepInv(points, i, cs, s, Position(points, i))
    ensures SweepInv(points, i + 1, cs, SweepStep(s, points[i]), Position(points, i + 1))
  {
    Advance(points, i, cs, s.queue, s.visibles, s.prevX);
    if points[i].isStart {
      StartKeeps(points, i, cs, s);
    } else {
      EndKeeps(points, i, cs, s);
    }
  }

  lemma {:induction false} SweepKeeps(points: seq<Point>, i: nat, cs: seq<FileChunk>)
    requires SweepOrder(points, cs) && i <= |points|
    ensures SweptTo(points, i, cs)
  {
    if i == 0 {
      SweptNone(points, cs);
    } else {
      SweepKeeps(points, i - 1, cs);
      SweptNext(points, i - 1, cs);
    }
  }

  lemma {:induction false} SweptNone(points: seq<Point>, cs: seq<FileChunk>)
    requires SweepOrder(points, cs)
    ensures SweptTo(points, 0, cs)
  {
    assert points[..0] == [];
  }

  lemma Advance(points: seq<Point>, i: nat, cs: seq<FileChunk>, queue: seq<Point>, vs: seq<VisibleInterval>, prevX: int)
    requires SweepOrder(points, cs) && i < |points| && QueueInv(points, i, cs, queue)
    requires VisibleInv(cs, vs, prevX, Position(points, i), Top(queue))
    ensures VisibleInv(cs, vs, prevX, points[i].x, Top(queue))
  {
    assert points[i] in PointsOf(cs);
    assert i > 0 ==> !Before(points[i], points[i-1]);
    forall o | Position(points, i) <= o < points[i].x ensures Newest(cs, o) == Top(queue) {
      TailIsNewest(points, i, cs, queue, o);
    }
  }

  lemma FreshTimes(points: seq<Point>, i: nat, cs: seq<FileChunk>, queue: seq<Point>)
    requires SweepOrder(points, cs) && i < |points| && points[i].isStart && QueueInv(points, i, cs, queue)
    ensures forall q <- queue :: q.ts != points[i].ts
  {
    forall q <- queue ensures q.ts != points[i].ts {
      StartTimeIsFresh(points, i, cs, queue, q);
    }
  }

  /** The chunk opens on top of the others, or where none is open. */
  lemma StartOnTop(points: seq<Point>, i: nat, cs: seq<FileChunk>, queue: seq<Point>)
    requires SweepOrder(points, cs) && i < |points| && points[i].isStart && QueueInv(points, i, cs, queue)
    requires queue == [] || queue[|queue|-1].ts < points[i].ts
    ensures QueueInv(points, i + 1, cs, queue + [points[i]]) && Top(queue + [points[i]]) == Some(points[i].chunk)
  {
    Opened(points, i, cs, queue, queue + [points[i]]);
  }

  /** It opens below a newer one. */
  lemma {:induction false} StartBelow(points: seq<Point>, i: nat, cs: seq<FileChunk>, queue: seq<Point>)
    requires SweepOrder(points, cs) && i < |points| && points[i].isStart && QueueInv(points, i, cs, queue)
    requires queue != [] && queue[|queue|-1].ts >= points[i].ts
    ensures var queue' := InsertedByTime(queue, points[i]); QueueInv(points, i + 1, cs, queue') && Top(queue') == Top(queue)
  {
    FreshTimes(points, i, cs, queue);
    assert queue[|queue|-1] in queue;
    InsertedFacts(queue, points[i]);
    Opened(points, i, cs, queue, InsertedByTime(queue, points[i]));
  }

  lemma StartKeeps(points: seq<Point>, i: nat, cs: seq<FileChunk>, s: SweepState)
    requires SweepOrder(points, cs) && i < |points| && points[i].isStart && SweepInv(points, i, cs, s, points[i].x)
    ensures SweepInv(points, i + 1, cs, SweepStep(s, points[i]), points[i].x)
  {
    var point := points[i];
    var SweepState(queue, prevX, visibles) := s;
    if queue == [] || queue[|queue|-1].ts < point.ts {
      StartAbove(points, i, cs, s);
    } else {
      StartBelow(points, i, cs, queue);
    }
  }

  lemma StartAbove(points: seq<Point>, i: nat, cs: seq<FileChunk>, s: SweepState)
    requires SweepOrder(points, cs) && i < |points| && points[i].isStart && SweepInv(points, i, cs, s, points[i].x)
    requires s.queue == [] || s.queue[|s.queue|-1].ts < points[i].ts
    ensures SweepInv(points, i + 1, cs, SweepStep(s, points[i]), points[i].x)
  {
    var point := points[i];
    var SweepState(queue, prevX, visibles) := s;
    StartOnTop(points, i, cs, queue);
    if queue == [] {
      SkipHole(cs, visibles, prevX, point.x, Some(point.chunk));
    } else if point.x != prevX {
      Flush(cs, visibles, prevX, point.x, queue[|queue|-1].chunk, Some(point.chunk));
    }
  }

  lemma EndKeeps(points: seq<Point>, i: nat, cs: seq<FileChunk>, s: SweepState)
    requires SweepOrder(points, cs) && i < |points| && !points[i].isStart && SweepInv(points, i, cs, s, points[i].x)
    ensures SweepInv(points, i + 1, cs, SweepStep(s, points[i]), points[i].x)
  {
    var point := points[i];
    var SweepState(queue, prevX, visibles) := s;
    ClosingIsOpen(points, i, cs, queue);
    assert points[i] in PointsOf(cs);
    RemovedFacts(queue, StartOf(point.chunk));
    var queue' := RemovedByTime(queue, point.ts);
    if queue[|queue|-1].ts == point.ts {
      Flush(cs, visibles, prevX, point.x, queue[|queue|-1].chunk, Top(queue'));
    }
    Closed(points, i, cs, queue, queue');
  }

  lemma AllClosed(points: seq<Point>, cs: seq<FileChunk>, queue: seq<Point>)
    requires SweepOrder(points, cs) && QueueInv(points, |points|, cs, queue)
    ensures queue == []
  {
    assert points[..|points|] == points;
    if queue != [] {
      var c := queue[0].chunk;
      EndPointsTakePart(points, cs, c);
    }
  }

  lemma NothingPastTheEnd(points: seq<Point>, cs: seq<FileChunk>, c: FileChunk, o: int)
    requires SweepOrder(points, cs) && c in cs && Position(points, |points|) <= o
    ensures !c.Covers(o)
  {
    assert EndOf(c) in points;
    var e :| 0 <= e < |points| && points[e] == EndOf(c);
    assert e < |points| - 1 ==> Before(points[e], points[|points|-1]);
  }

  lemma SweepIsComplete(points: seq<Point>, cs: seq<FileChunk>, queue: seq<Point>, vs: seq<VisibleInterval>, prevX: int)
    requires SweepOrder(points, cs) && QueueInv(points, |points|, cs, queue)
    requires VisibleInv(cs, vs, prevX, Position(points, |points|), Top(queue))
    ensures forall o :: DepictsAt(vs, cs, o)
  {
    AllClosed(points, cs, queue);
    forall o | prevX <= o ensures DepictsAt(vs, cs, o) {
      if Position(points, |points|) <= o {
        forall c <- cs ensures !c.Covers(o) {
          NothingPastTheEnd(points, cs, c, o);
        }
      }
      assert Newest(cs, o) == None;
    }
  }
}
