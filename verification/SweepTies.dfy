/**
 Why the sweep needs overlapping chunks to differ in time. Of two with equal times only the one
 that starts first is queued, and it leaves with the first end: what lies beyond is lost,
 whichever way the two overlap and however their points are put in order.
 */
module SweepTies {
  import opened FileChunks
  import opened SweepLine

  // ---------------------------------------------------------------------------------------
  // The order of the four points
  // ---------------------------------------------------------------------------------------

  lemma PointsOfTwo(c: FileChunk, d: FileChunk)
    ensures PointsOf([c, d]) == [StartOf(c), EndOf(c), StartOf(d), EndOf(d)]
  {
    assert [c, d][..1] == [c] && [c][..0] == [];
    assert PointsOf([c]) == [StartOf(c), EndOf(c)];
  }

  /** Two starts and two ends, in whatever order, are as many among the four points in order. */
  lemma NotThree(p: Point, q: Point, r: Point, s: Point, a: Point, b: Point, e: Point, f: Point)
    requires multiset{p, q, r, s} == multiset{a, b, e, f} && a.isStart && b.isStart && !e.isStart && !f.isStart
    ensures !(p.isStart && q.isStart && r.isStart) && (q.isStart || r.isStart || s.isStart)
  {
    var all := multiset{p, q, r, s};
    assert all[e] >= 1 && all[f] >= 1 && (e == f ==> all[e] >= 2);
    assert all[a] >= 1 && all[b] >= 1 && (a == b ==> all[a] >= 2);
  }

  lemma SamePairs(p: Point, q: Point, r: Point, s: Point, a: Point, b: Point, e: Point, f: Point)
    requires multiset{p, q, r, s} == multiset{a, b, e, f} && a.isStart && b.isStart && !e.isStart && !f.isStart
    requires p.isStart && q.isStart && !r.isStart && !s.isStart
    ensures ((p == a && q == b) || (p == b && q == a)) && ((r == e && s == f) || (r == f && s == e))
  {
    var all := multiset{p, q, r, s};
    assert p in all && q in all && (p == q ==> all[p] >= 2);
    assert r in all && s in all && (r == s ==> all[r] >= 2);
  }

  lemma FourPoints(ps: seq<Point>, all: multiset<Point>)
    requires multiset(ps) == all && |all| == 4
    ensures |ps| == 4 && multiset{ps[0], ps[1], ps[2], ps[3]} == all
  {
    assert |ps| == |multiset(ps)|;
    assert ps == [ps[0], ps[1], ps[2], ps[3]];
  }

  lemma TwoAndTwo(ps: seq<Point>, a: Point, b: Point, e: Point, f: Point)
    requires multiset(ps) == multiset{a, b, e, f} && a.isStart && b.isStart && !e.isStart && !f.isStart
    requires forall i, j :: 0 <= i < j < |ps| && ps[j].isStart ==> ps[i].isStart
    ensures |ps| == 4
    ensures (ps[0] == a && ps[1] == b) || (ps[0] == b && ps[1] == a)
    ensures (ps[2] == e && ps[3] == f) || (ps[2] == f && ps[3] == e)
  {
    FourPoints(ps, multiset{a, b, e, f});
    NotThree(ps[0], ps[1], ps[2], ps[3], a, b, e, f);
    SamePairs(ps[0], ps[1], ps[2], ps[3], a, b, e, f);
  }

  /** The end points of two chunks, in any order that a sort by position and time may leave. */
  ghost predicate Arranged(points: seq<Point>, c: FileChunk, d: FileChunk) {
    Sorted(points) && multiset(points) == multiset(PointsOf([c, d]))
  }

  predicate Tied(c: FileChunk, d: FileChunk) {
    c.ts == d.ts && c.offset < c.Stop() && d.offset < d.Stop() && c.offset < d.Stop() && d.offset < c.Stop()
  }

  lemma StartsFirst(points: seq<Point>, c: FileChunk, d: FileChunk, i: nat, j: nat)
    requires Tied(c, d) && Arranged(points, c, d) && i < j < |points| && points[j].isStart
    ensures points[i].isStart
  {
    PointsOfTwo(c, d);
    assert points[i] in multiset(points) && points[j] in multiset(points);
    assert points[i] in PointsOf([c, d]) && points[j] in PointsOf([c, d]);
  }

  /** One of the chunks' start points, and one of their end points. */
  predicate IsStart(p: Point, c: FileChunk, d: FileChunk) { p == StartOf(c) || p == StartOf(d) }

  predicate IsEnd(p: Point, c: FileChunk, d: FileChunk) { p == EndOf(c) || p == EndOf(d) }

  /** The chunk that starts first, or either of them, comes first; then the other one; then the
      ends. */
  lemma TieOrder(points: seq<Point>, c: FileChunk, d: FileChunk)
    requires Tied(c, d) && Arranged(points, c, d)
    ensures |points| == 4 && points[0].x == Min(c.offset, d.offset) && points[2].x == Min(c.Stop(), d.Stop())
    ensures IsStart(points[0], c, d) && IsStart(points[1], c, d) && IsEnd(points[2], c, d) && IsEnd(points[3], c, d)
  {
    PointsTogether(c, d);
    forall i, j | 0 <= i < j < |points| && points[j].isStart ensures points[i].isStart {
      StartsFirst(points, c, d, i, j);
    }
    TwoAndTwo(points, StartOf(c), StartOf(d), EndOf(c), EndOf(d));
    InOrder(points, 0, 1);
    InOrder(points, 2, 3);
  }

  lemma PointsTogether(c: FileChunk, d: FileChunk)
    ensures multiset(PointsOf([c, d])) == multiset{StartOf(c), StartOf(d), EndOf(c), EndOf(d)}
  {
    PointsOfTwo(c, d);
  }

  lemma InOrder(points: seq<Point>, i: nat, j: nat)
    requires Sorted(points) && i < j < |points|
    ensures points[i].x <= points[j].x
  {
  }

  // ---------------------------------------------------------------------------------------
  // The sweep over them
  // ---------------------------------------------------------------------------------------

  lemma {:induction false} SweepMore(points: seq<Point>, p: Point)
    ensures SweepAll(points + [p]) == SweepStep(SweepAll(points), p)
  {
  }

  lemma DroppedStart(a: Point, b: Point, x: int)
    requires a.isStart && b.isStart && a.ts == b.ts
    ensures SweepStep(SweepState([a], x, []), b) == SweepState([a], x, [])
  {
    NoneLater([a], b);
  }

  lemma ClosingLast(a: Point, e: Point, x: int)
    requires !e.isStart && a.ts == e.ts
    ensures SweepStep(SweepState([a], x, []), e) == SweepState([], e.x, AddToVisibles([], x, a.chunk, e.x))
  {
  }

  /** The second chunk is not queued, and once one of the two ends nothing is. */
  lemma {:induction false} SweepTie(a: Point, b: Point, e: Point, f: Point)
    requires a.isStart && b.isStart && !e.isStart && !f.isStart && a.ts == b.ts == e.ts
    ensures SweepAll([a, b, e, f]).visibles == AddToVisibles([], a.x, a.chunk, e.x)
  {
    SweepMore([], a);
    assert [] + [a] == [a];
    SweepMore([a], b);
    DroppedStart(a, b, a.x);
    SweepMore([a] + [b], e);
    ClosingLast(a, e, a.x);
    SweepMore([a] + [b] + [e], f);
    assert [a] + [b] + [e] + [f] == [a, b, e, f];
  }

  predicate ShownAt(vs: seq<VisibleInterval>, o: int) { exists v :: v in vs && v.Contains(o) }

  lemma OneVisible(x: FileChunk, stop: int)
    requires x.offset < stop <= x.Stop()
    ensures var vs := AddToVisibles([], x.offset, x, stop);
            |vs| == 1 && Shows(vs[0], x) && vs[0].start == x.offset && vs[0].stop == stop
  {
  }

  lemma TieVisible(points: seq<Point>, c: FileChunk, d: FileChunk) returns (x: FileChunk)
    requires Tied(c, d) && Arranged(points, c, d)
    ensures x in {c, d} && x.offset == Min(c.offset, d.offset)
    ensures var vs := SweepAll(points).visibles;
            |vs| == 1 && Shows(vs[0], x) && vs[0].start == x.offset && vs[0].stop == Min(c.Stop(), d.Stop())
  {
    TieOrder(points, c, d);
    var a, b, e, f := points[0], points[1], points[2], points[3];
    assert points == [a, b, e, f];
    SweepTie(a, b, e, f);
    x := a.chunk;
    OneVisible(x, e.x);
  }

  /** What is shown of two overlapping chunks of equal time: everything up to where the first of
      them ends, as a part of the one that starts first. */
  lemma {:induction false} TieShows(points: seq<Point>, c: FileChunk, d: FileChunk, o: int)
    requires Tied(c, d) && Arranged(points, c, d)
    ensures ShownAt(SweepAll(points).visibles, o) <==> Min(c.offset, d.offset) <= o < Min(c.Stop(), d.Stop())
    ensures forall v <- SweepAll(points).visibles ::
              exists x :: x in {c, d} && Shows(v, x) && x.offset == Min(c.offset, d.offset)
  {
    var x := TieVisible(points, c, d);
    assert SweepAll(points).visibles[0] in SweepAll(points).visibles;
  }

  predicate Covered(c: FileChunk, d: FileChunk, o: int) { c.Covers(o) || d.Covers(o) }

  /** Nothing of two overlapping chunks of equal time is lost if and only if they end together. */
  lemma {:induction false} NothingLostIffEndTogether(points: seq<Point>, c: FileChunk, d: FileChunk)
    requires Tied(c, d) && Arranged(points, c, d)
    ensures (forall o :: Covered(c, d, o) ==> ShownAt(SweepAll(points).visibles, o)) <==> c.Stop() == d.Stop()
  {
    var vs := SweepAll(points).visibles;
    forall o ensures ShownAt(vs, o) <==> Min(c.offset, d.offset) <= o < Min(c.Stop(), d.Stop()) {
      TieShows(points, c, d, o);
    }
    var last := Max(c.Stop(), d.Stop()) - 1;
    assert Covered(c, d, last);
    if c.Stop() == d.Stop() {
      forall o | Covered(c, d, o) ensures ShownAt(vs, o) {}
    }
  }

  /** The same of reading the two. */
  lemma ReadingLosesUnlessEndTogether(c: FileChunk, d: FileChunk)
    requires Tied(c, d)
    ensures (forall o :: Covered(c, d, o) ==> ShownAt(SweepAll(SortPoints(PointsOf([c, d]))).visibles, o)) <==> c.Stop() == d.Stop()
  {
    NothingLostIffEndTogether(SortPoints(PointsOf([c, d])), c, d);
  }
}
