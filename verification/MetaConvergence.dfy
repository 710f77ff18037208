/**
 The whole backup: a traversal, followed by replays that start or resume from offsets at or
 after `r` until the log is exhausted. What the backup then holds, at every path, and the exact
 condition under which it is the source: first for visits and replays of any kind, then for a
 traversal whose listings may be behind the log by a while.
 */
module MetaConvergence {
  import opened FileChunks
  import opened AbsoluteWrites
  import opened MetaBackup
  import opened MetaTraversal

  /** Every visit found an entry. */
  predicate Reads(h: History, visits: seq<Visit>) {
    forall v <- visits :: v.time <= |h.log| && v.path in h.At(v.time)
  }

  /** What the traversal inserts. */
  function TraverseWrites(j: Job, visits: seq<Visit>): seq<Op>
    requires Reads(j.h, visits)
  {
    if visits == [] then []
    else
      var v := visits[|visits|-1];
      TraverseWrites(j, visits[..|visits|-1]) +
      if j.shouldInclude(v.path) then [Put(v.path, j.h.At(v.time)[v.path])] else []
  }

  function LastVisit(visits: seq<Visit>, q: Path): (v: Option<Visit>)
    ensures v.Some? ==> v.value in visits && v.value.path == q
    ensures v.None? ==> forall w <- visits :: w.path != q
  {
    if visits == [] then None
    else
      assert visits == visits[..|visits|-1] + [visits[|visits|-1]];
      if visits[|visits|-1].path == q then Some(visits[|visits|-1]) else LastVisit(visits[..|visits|-1], q)
  }

  /** What the last visit to `q` read, or what was there before if `q` is excluded or was not
      visited. */
  function LastRead(j: Job, visits: seq<Visit>, before: Store, q: Path): Option<Entry>
    requires Reads(j.h, visits)
  {
    var v := LastVisit(visits, q);
    if j.shouldInclude(q) && v.Some? then Lookup(j.h.At(v.value.time), q) else Lookup(before, q)
  }

  lemma {:induction false} TraverseLeaves(j: Job, visits: seq<Visit>, m: Store, q: Path)
    requires Reads(j.h, visits)
    ensures Lookup(ApplyAll(TraverseWrites(j, visits), m), q) == LastRead(j, visits, m, q)
  {
    if visits != [] {
      var init, v := visits[..|visits|-1], visits[|visits|-1];
      assert v in visits;
      TraverseLeaves(j, init, m, q);
      var ops := TraverseWrites(j, init);
      if j.shouldInclude(v.path) {
        ApplyConcat(ops, [Put(v.path, j.h.At(v.time)[v.path])], m);
        OneMorePut(v.path, j.h.At(v.time)[v.path], ApplyAll(ops, m), q);
      } else {
        assert TraverseWrites(j, visits) == ops;
      }
    }
  }

  lemma {:induction false} OneMorePut(p: Path, e: Entry, m: Store, q: Path)
    ensures Lookup(ApplyAll([Put(p, e)], m), q) == if p == q then Some(e) else Lookup(m, q)
  {
  }

  lemma QuietPresence(b: Traversal, t: nat, q: Path)
    requires b.from <= t <= |b.h.log| && !b.h.Changes(b.from, |b.h.log|, q)
    ensures b.PresentAt(t, q) <==> q in b.h.At(|b.h.log|)
  {
    QuietPath(b.h, b.from, |b.h.log|, t, q);
  }

  /** A path the log does not write is there throughout, or never. */
  lemma QuietIsSteady(b: Traversal, q: Path)
    requires b.from <= |b.h.log| && !b.h.Changes(b.from, |b.h.log|, q)
    ensures b.Steady(q) <==> q in b.h.At(|b.h.log|)
  {
    forall t | b.from <= t <= |b.h.log| ensures b.PresentAt(t, q) <==> q in b.h.At(|b.h.log|) {
      QuietPresence(b, t, q);
    }
    assert b.PresentAt(|b.h.log|, q) <==> q in b.h.At(|b.h.log|);
  }

  // ---------------------------------------------------------------------------------------
  // Any visits, at any times, and any replay
  // ---------------------------------------------------------------------------------------

  /** The backup is the source: at every watched path it holds the source's entry if the path is
      included, and nothing otherwise. */
  ghost predicate Faithful(j: Job, backup: Store) {
    forall q :: InScope(j.root, q) ==> SameAt(j, backup, q)
  }

  ghost predicate SameAt(j: Job, backup: Store, q: Path) {
    Lookup(backup, q) == if j.shouldInclude(q) then Lookup(j.h.At(|j.h.log|), q) else None
  }

  lemma NothingLeft(h: History, q: Path)
    ensures !h.Changes(|h.log|, |h.log|, q)
  {
  }

  /** Whatever the visits read, and replaying whatever stretches: included paths last replayed as
      they are now, or never replayed and last read as they are now, are right; excluded paths are
      if the store had nothing there. */
  ghost predicate RightAt(j: Job, visits: seq<Visit>, passes: seq<Pass>, before: Store, q: Path)
    requires Reads(j.h, visits) && forall p <- passes :: p.from <= p.to <= |j.h.log|
  {
    var replay := LastReplay(j, passes, q);
    if !j.shouldInclude(q) then q !in before
    else if replay.Some? then Lookup(j.h.At(replay.value), q) == Lookup(j.h.At(|j.h.log|), q)
    else LastRead(j, visits, before, q) == Lookup(j.h.At(|j.h.log|), q)
  }

  ghost predicate RightEverywhere(j: Job, visits: seq<Visit>, passes: seq<Pass>, before: Store)
    requires Reads(j.h, visits) && forall p <- passes :: p.from <= p.to <= |j.h.log|
  {
    forall q :: InScope(j.root, q) ==> RightAt(j, visits, passes, before, q)
  }

  lemma {:induction false} FaithfulIffRight(j: Job, visits: seq<Visit>, passes: seq<Pass>, before: Store)
    requires j.Valid() && Reads(j.h, visits) && forall p <- passes :: p.from <= p.to <= |j.h.log|
    ensures Faithful(j, AfterPasses(j, passes, ApplyAll(TraverseWrites(j, visits), before))) <==>
            RightEverywhere(j, visits, passes, before)
  {
    var traversed := ApplyAll(TraverseWrites(j, visits), before);
    forall q | InScope(j.root, q)
      ensures SameAt(j, AfterPasses(j, passes, traversed), q) <==> RightAt(j, visits, passes, before, q)
    {
      PassesHold(j, passes, traversed, q);
      TraverseLeaves(j, visits, before, q);
    }
  }

  /** A path that the replay from `r` on does not make right: excluded, or not written since. */
  ghost predicate Unreplayed(j: Job, r: nat, q: Path)
    requires r <= |j.h.log|
  {
    InScope(j.root, q) && !(j.shouldInclude(q) && j.h.Changes(r, |j.h.log|, q))
  }

  /** What the traversal left there is what the source had after `r` events. */
  ghost predicate ReadRight(j: Job, visits: seq<Visit>, r: nat, before: Store, q: Path)
    requires Reads(j.h, visits) && r <= |j.h.log|
  {
    LastRead(j, visits, before, q) == if j.shouldInclude(q) then Lookup(j.h.At(r), q) else None
  }

  ghost predicate AllReadRight(j: Job, visits: seq<Visit>, r: nat, before: Store)
    requires Reads(j.h, visits) && r <= |j.h.log|
  {
    forall q :: Unreplayed(j, r, q) ==> ReadRight(j, visits, r, before, q)
  }

  lemma {:induction false} ReplayedAt(j: Job, visits: seq<Visit>, passes: seq<Pass>, r: nat, before: Store, q: Path)
    requires j.Valid() && Reads(j.h, visits) && r <= |j.h.log| && InScope(j.root, q)
    requires Resumes(j, passes, r) && Reached(passes, r) == |j.h.log|
    ensures Lookup(AfterPasses(j, passes, ApplyAll(TraverseWrites(j, visits), before)), q) ==
            if Unreplayed(j, r, q) then LastRead(j, visits, before, q) else Lookup(j.h.At(|j.h.log|), q)
  {
    NothingLeft(j.h, q);
    PassesSettle(j, passes, r, ApplyAll(TraverseWrites(j, visits), before), q);
    TraverseLeaves(j, visits, before, q);
  }

  /** Visits read at any times, and a replay of everything since any `r`, whatever the breaks: the
      backup is the source if and only if every path the replay does not write was last read as
      the source had it after `r` events. */
  lemma {:induction false} FaithfulIffReadRight(j: Job, visits: seq<Visit>, passes: seq<Pass>, r: nat, before: Store)
    requires j.Valid() && Reads(j.h, visits) && r <= |j.h.log|
    requires Resumes(j, passes, r) && Reached(passes, r) == |j.h.log|
    ensures Faithful(j, AfterPasses(j, passes, ApplyAll(TraverseWrites(j, visits), before))) <==>
            AllReadRight(j, visits, r, before)
  {
    var after := AfterPasses(j, passes, ApplyAll(TraverseWrites(j, visits), before));
    forall q | InScope(j.root, q)
      ensures SameAt(j, after, q) <==> (Unreplayed(j, r, q) ==> ReadRight(j, visits, r, before, q))
    {
      ReplayedAt(j, visits, passes, r, before, q);
      SourceAfter(j.h, r, |j.h.log|, q);
    }
  }

  // ---------------------------------------------------------------------------------------
  // A traversal, then a replay
  // ---------------------------------------------------------------------------------------

  /** A complete backup: traversed, then replayed from `r` to the end of the log. What the
      traversal read was at most as old as `b.from`. */
  ghost predicate Complete(j: Job, b: Traversal, run: seq<Bfs>, passes: seq<Pass>, r: nat) {
    && j.Valid() && b.Valid() && b.h == j.h && b.root == j.root
    && Run(b, run) && Done(run[|run|-1]) && b.from <= r <= |j.h.log|
    && Resumes(j, passes, r) && Reached(passes, r) == |j.h.log|
  }

  lemma VisitsAreReads(b: Traversal, run: seq<Bfs>)
    requires b.Valid() && Run(b, run)
    ensures b.VisitsOk(run[|run|-1]) && Reads(b.h, run[|run|-1].visits)
  {
    RunInv(b, run, |run| - 1);
    forall v <- run[|run|-1].visits ensures v.time <= |b.h.log| && v.path in b.h.At(v.time) {
      assert b.VisitOk(v);
    }
  }

  ghost predicate BackedUp(j: Job, b: Traversal, run: seq<Bfs>, passes: seq<Pass>, r: nat, before: Store, after: Store)
    requires Complete(j, b, run, passes, r)
  {
    VisitsAreReads(b, run);
    after == AfterPasses(j, passes, ApplyAll(TraverseWrites(j, run[|run|-1].visits), before))
  }

  /** A path the log leaves alone is last read as it is, if it is there. */
  lemma QuietRead(j: Job, b: Traversal, run: seq<Bfs>, m: Store, q: Path)
    requires b.Valid() && b.h == j.h && b.root == j.root && Run(b, run) && Done(run[|run|-1])
    requires InScope(j.root, q) && !j.h.Changes(b.from, |j.h.log|, q)
    requires b.VisitsOk(run[|run|-1]) && Reads(j.h, run[|run|-1].visits)
    ensures LastRead(j, run[|run|-1].visits, m, q) ==
            if j.shouldInclude(q) && q in j.h.At(|j.h.log|) then Lookup(j.h.At(|j.h.log|), q) else Lookup(m, q)
  {
    var s := run[|run|-1];
    var v := LastVisit(s.visits, q);
    QuietIsSteady(b, q);
    if b.Steady(q) {
      TraversalCovers(b, run, q);
      assert b.Visited(s, q);
    }
    if v.Some? {
      assert b.VisitOk(v.value);
      QuietPath(j.h, b.from, |j.h.log|, v.value.time, q);
    }
  }

  /** How a listing that was behind the log can do harm: `q` was written before `r` and not since. */
  ghost predicate Lagging(j: Job, b: Traversal, r: nat, q: Path)
    requires b.h == j.h && b.from <= r <= |j.h.log|
  {
    j.shouldInclude(q) && j.h.Changes(b.from, r, q) && !j.h.Changes(r, |j.h.log|, q)
  }

  /** What a complete backup holds at a watched path: what was last read there if listings may be
      behind the log at it; otherwise the source's entry if the path is included and is still there
      or was written since, and else whatever the backup store held before. */
  lemma BackupHolds(j: Job, b: Traversal, run: seq<Bfs>, passes: seq<Pass>, r: nat, before: Store, after: Store, q: Path)
    requires Complete(j, b, run, passes, r) && BackedUp(j, b, run, passes, r, before, after) && InScope(j.root, q)
    ensures Reads(j.h, run[|run|-1].visits)
    ensures var source := j.h.At(|j.h.log|);
            Lookup(after, q) == if Lagging(j, b, r, q) then LastRead(j, run[|run|-1].visits, before, q)
                                else if j.shouldInclude(q) && (q in source || j.h.Changes(r, |j.h.log|, q))
                                then Lookup(source, q) else Lookup(before, q)
  {
    VisitsAreReads(b, run);
    ReplayedAt(j, run[|run|-1].visits, passes, r, before, q);
    if j.shouldInclude(q) && !j.h.Changes(r, |j.h.log|, q) && !Lagging(j, b, r, q) {
      LoggedSplits(j.h, b.from, r, |j.h.log|);
      LastTouchConcat(j.h.Logged(b.from, r), j.h.Logged(r, |j.h.log|), q);
      QuietRead(j, b, run, before, q);
    }
  }

  /** Nothing in the store before the backup is stale: each watched entry is included, and is
      still at the source or was written since. */
  ghost predicate NothingStale(j: Job, from: nat, before: Store)
    requires from <= |j.h.log|
  {
    forall q <- before :: InScope(j.root, q) ==>
      j.shouldInclude(q) && (q in j.h.At(|j.h.log|) || j.h.Changes(from, |j.h.log|, q))
  }

  /** Where a listing may be behind the log, it was not. */
  ghost predicate NothingLags(j: Job, b: Traversal, run: seq<Bfs>, r: nat, before: Store)
    requires b.h == j.h && b.from <= r <= |j.h.log| && run != [] && Reads(j.h, run[|run|-1].visits)
  {
    forall q :: InScope(j.root, q) && Lagging(j, b, r, q) ==>
      LastRead(j, run[|run|-1].visits, before, q) == Lookup(j.h.At(r), q)
  }

  /** Nothing is stale at the paths where no listing may be behind. */
  ghost predicate NothingElseStale(j: Job, b: Traversal, r: nat, before: Store)
    requires b.h == j.h && b.from <= r <= |j.h.log|
  {
    forall q <- before :: InScope(j.root, q) && !Lagging(j, b, r, q) ==>
      j.shouldInclude(q) && (q in j.h.At(|j.h.log|) || j.h.Changes(r, |j.h.log|, q))
  }

  lemma BackupRightAt(j: Job, b: Traversal, run: seq<Bfs>, passes: seq<Pass>, r: nat, before: Store, after: Store, q: Path)
    requires Complete(j, b, run, passes, r) && BackedUp(j, b, run, passes, r, before, after) && InScope(j.root, q)
    ensures Reads(j.h, run[|run|-1].visits)
    ensures SameAt(j, after, q) <==>
            if Lagging(j, b, r, q) then LastRead(j, run[|run|-1].visits, before, q) == Lookup(j.h.At(r), q)
            else q in before ==> j.shouldInclude(q) && (q in j.h.At(|j.h.log|) || j.h.Changes(r, |j.h.log|, q))
  {
    BackupHolds(j, b, run, passes, r, before, after, q);
    SourceAfter(j.h, r, |j.h.log|, q);
  }

  /** A complete backup is the source if and only if nothing was stale and no listing lagged. */
  lemma BackupIff(j: Job, b: Traversal, run: seq<Bfs>, passes: seq<Pass>, r: nat, before: Store, after: Store)
    requires Complete(j, b, run, passes, r) && BackedUp(j, b, run, passes, r, before, after)
    ensures Reads(j.h, run[|run|-1].visits)
    ensures Faithful(j, after) <==> NothingElseStale(j, b, r, before) && NothingLags(j, b, run, r, before)
  {
    VisitsAreReads(b, run);
    forall q | InScope(j.root, q)
      ensures SameAt(j, after, q) <==>
              if Lagging(j, b, r, q) then LastRead(j, run[|run|-1].visits, before, q) == Lookup(j.h.At(r), q)
              else q in before ==> j.shouldInclude(q) && (q in j.h.At(|j.h.log|) || j.h.Changes(r, |j.h.log|, q))
    {
      BackupRightAt(j, b, run, passes, r, before, after, q);
    }
  }

  lemma NoLag(j: Job, b: Traversal, q: Path)
    requires b.h == j.h && b.from <= |j.h.log|
    ensures !Lagging(j, b, b.from, q)
  {
    assert j.h.Groups()[b.from..b.from] == [];
  }

  /** With listings never behind the log, it is the source if and only if nothing was stale. */
  lemma BackupIffNothingStale(j: Job, b: Traversal, run: seq<Bfs>, passes: seq<Pass>, before: Store, after: Store)
    requires Complete(j, b, run, passes, b.from) && BackedUp(j, b, run, passes, b.from, before, after)
    ensures Faithful(j, after) <==> NothingStale(j, b.from, before)
  {
    BackupIff(j, b, run, passes, b.from, before, after);
    forall q ensures !Lagging(j, b, b.from, q) {
      NoLag(j, b, q);
    }
  }

  /** So a first backup, into an empty store, then always is. */
  lemma FirstBackup(j: Job, b: Traversal, run: seq<Bfs>, passes: seq<Pass>, after: Store)
    requires Complete(j, b, run, passes, b.from) && BackedUp(j, b, run, passes, b.from, map[], after)
    ensures Faithful(j, after)
  {
    BackupIffNothingStale(j, b, run, passes, map[], after);
  }
}
