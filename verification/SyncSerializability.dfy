/**
 Serializability of the sync: an exact condition on the log, what it comes to where attempts at an
 event all write the same, and what file events need for it.
 */
module SyncSerializability {
  import opened Curtains
  import opened FileChunks
  import opened AbsoluteWrites
  import opened SyncEvents
  import opened Reachability
  import opened SyncScheduler
  import opened SyncInvariants
  import opened SyncTheorems
  import opened SyncNecessity

  /** Every drained run gives the sequential outcome. */
  ghost predicate Serializable(c: Sync) {
    forall run: seq<State> :: Run(c, run) && Drained(c, run[|run|-1]) ==> run[|run|-1].target == c.Sequential(|c.log|)
  }

  /** A sync is serializable, over all interleavings, retries and crashes, if and only if its log
      is safe, or nothing can ever be accepted. */
  lemma SerializableIffSafe(c: Sync)
    requires c.Valid()
    ensures Serializable(c) <==> c.limit == 0 || c.Safe()
  {
    if c.limit == 0 {
      forall run: seq<State> | Run(c, run) && Drained(c, run[|run|-1]) ensures run[|run|-1].target == c.Sequential(|c.log|) {
        NoRoom(c, run);
      }
    } else if c.Safe() {
      forall run: seq<State> | Run(c, run) && Drained(c, run[|run|-1]) ensures run[|run|-1].target == c.Sequential(|c.log|) {
        SerializableIfSafe(c, run);
      }
    } else {
      var q :| !c.SafeAt(q);
      var run := UnsafeRun(c, q);
    }
  }

  // ---------------------------------------------------------------------------------------
  // No room at all
  // ---------------------------------------------------------------------------------------

  ghost predicate Idle(c: Sync, s: State) {
    && s.active == map[] && s.watermark == c.offset && s.persisted == c.offset && s.target == c.initial
    && s.next <= |c.log| && forall i :: 0 <= i < s.next ==> c.log[i].IsEmpty()
  }

  lemma IdleStep(c: Sync, s: State, s': State)
    requires c.Valid() && c.limit == 0 && Idle(c, s) && Step(c, s, s')
    ensures Idle(c, s')
  {
    ResumeFacts(c.log, c.offset);
    assert c.log != [] ==> c.log[0] in c.log;
  }

  lemma {:induction false} AllEmpty(c: Sync, n: nat)
    requires n <= |c.log| && forall i :: 0 <= i < n ==> c.log[i].IsEmpty()
    ensures c.Sequential(n) == c.initial
  {
    if n > 0 {
      AllEmpty(c, n - 1);
      assert c.AllWrites(n) == c.AllWrites(n - 1);
    }
  }

  lemma NoRoom(c: Sync, run: seq<State>)
    requires c.Valid() && c.limit == 0 && Run(c, run) && Drained(c, run[|run|-1])
    ensures run[|run|-1].target == c.Sequential(|c.log|)
  {
    var inv := (s: State) => Idle(c, s);
    forall s, s' | inv(s) && StepsOf(c)(s, s') ensures inv(s') {
      IdleStep(c, s, s');
    }
    KeptAlong(StepsOf(c), inv, run, |run| - 1);
    AllEmpty(c, |c.log|);
  }

  // ---------------------------------------------------------------------------------------
  // When every attempt writes the same
  // ---------------------------------------------------------------------------------------

  /** Every attempt at an event sets out to write what the first one did. */
  ghost predicate Steady(c: Sync) {
    forall i, a :: 0 <= i < |c.log| && 0 <= a < c.attempts ==> c.Plan(i, a) == c.WritesOf(i)
  }

  /** No event can outlast the last event writing to one of its paths and leave something else there,
      with no more than `r` attempts begun until then. */
  ghost predicate PairwiseSafe(c: Sync, r: nat) {
    forall i, j, q :: 0 <= i < j < |c.log| && c.EventTouches(i, q) && c.LastToucher(j, q) && c.Outlasts(i, j, r) ==>
      Left(c.WritesOf(i), q) == Left(c.WritesOf(j), q)
  }

  lemma SteadyMust(c: Sync, i: nat, q: Path)
    requires c.Valid() && Steady(c) && i < |c.log|
    ensures c.MustTouch(i, q) <==> c.EventTouches(i, q)
  {
    assert c.Plan(i, 0) == c.WritesOf(i);
    assert c.MustTouch(i, q) ==> c.Touches(i, 0, q);
  }

  lemma {:induction false} OutlastsEarlier(c: Sync, i: nat, k: nat, j: nat, r: nat)
    requires i <= k <= j < |c.log| && c.Outlasts(i, j, r)
    ensures c.Outlasts(i, k, r)
    decreases j
  {
    if k < j {
      var o :| 0 <= o <= r && !c.HasToWait(j, i, o) && c.Outlasts(i, j - 1, o);
      OutlastsMore(c, i, j - 1, o, r);
      OutlastsEarlier(c, i, k, j - 1, r);
    }
  }

  lemma LastToucherOf(c: Sync, i: nat, q: Path) returns (j: nat)
    requires i < |c.log| && c.EventTouches(i, q)
    ensures i <= j < |c.log| && c.LastToucher(j, q) && Left(c.WritesOf(j), q) == c.Outcome(q)
  {
    j := LastBetween(c, i, |c.log|, q);
    SequentialAt(c, j, |c.log|, q);
  }

  /** What can stay is then what the event leaves. */
  lemma {:induction false} SteadyStay(c: Sync, i: nat, a: nat, op: Op, q: Path)
    requires c.Valid() && Steady(c) && c.CanStay(i, a, op, q)
    ensures c.EventTouches(i, q) && LastTouch(c.WritesOf(i), q) == Some(op)
  {
    LastTouchFacts(c.WritesOf(i), q);
    forall b: nat | b < c.attempts ensures c.Touches(i, b, q) <==> c.EventTouches(i, q) {
      assert c.Plan(i, b) == c.WritesOf(i);
    }
  }

  lemma SafeIfPairwise(c: Sync, q: Path)
    requires c.Valid() && Steady(c) && PairwiseSafe(c, c.attempts)
    ensures c.SafeAt(q)
  {
    if !c.MustTouchFrom(0, q) {
      forall i | 0 <= i < |c.log| ensures !c.EventTouches(i, q) {
        SteadyMust(c, i, q);
      }
      SequentialQuiet(c, 0, |c.log|, q);
      assert c.Sequential(0) == c.initial;
    }
    forall i, a, op | c.CanStay(i, a, op, q) && c.OutlastsRest(i, a, q) ensures op.Leaves() == c.Outcome(q) {
      StayIsOutcome(c, i, a, op, q);
    }
    forall i, a, op | c.WriteTo(i, a, op, q) ensures c.MustTouchFrom(i, q) {
      SteadyWrite(c, i, a, op, q);
    }
  }

  lemma SteadyWrite(c: Sync, i: nat, a: nat, op: Op, q: Path)
    requires c.Valid() && Steady(c) && c.WriteTo(i, a, op, q)
    ensures c.MustTouchFrom(i, q)
  {
    assert c.Plan(i, a) == c.WritesOf(i);
    LastTouchFacts(c.WritesOf(i), q);
    SteadyMust(c, i, q);
  }

  lemma StayIsOutcome(c: Sync, i: nat, a: nat, op: Op, q: Path)
    requires c.Valid() && Steady(c) && PairwiseSafe(c, c.attempts) && c.CanStay(i, a, op, q) && c.OutlastsRest(i, a, q)
    ensures op.Leaves() == c.Outcome(q)
  {
    SteadyStay(c, i, a, op, q);
    var j := LastToucherOf(c, i, q);
    if i < j {
      SteadyMust(c, j, q);
      OutlastsMore(c, i, j, a + 1, c.attempts);
    }
  }

  lemma {:induction false} PairwiseIfSafe(c: Sync, i: nat, j: nat, q: Path)
    requires c.Valid() && Steady(c) && c.SafeAt(q)
    requires i < j < |c.log| && c.EventTouches(i, q) && c.LastToucher(j, q) && c.Outlasts(i, j, c.attempts)
    ensures Left(c.WritesOf(i), q) == Left(c.WritesOf(j), q)
  {
    var a, op := c.attempts - 1, LastTouch(c.WritesOf(i), q).value;
    LastTouchFacts(c.WritesOf(i), q);
    assert c.Plan(i, a) == c.WritesOf(i);
    assert c.CanStay(i, a, op, q);
    forall k | i < k < |c.log| && c.MustTouch(k, q) ensures c.Outlasts(i, k, a + 1) {
      SteadyMust(c, k, q);
      assert k <= j;
      OutlastsEarlier(c, i, k, j, c.attempts);
    }
    SequentialAt(c, j, |c.log|, q);
  }

  /** Then the condition is one on pairs of events. */
  lemma SteadySafety(c: Sync)
    requires c.Valid() && Steady(c)
    ensures c.Safe() <==> PairwiseSafe(c, c.attempts)
  {
    if PairwiseSafe(c, c.attempts) {
      forall q ensures c.SafeAt(q) {
        SafeIfPairwise(c, q);
      }
    }
    if c.Safe() {
      forall i, j, q | 0 <= i < j < |c.log| && c.EventTouches(i, q) && c.LastToucher(j, q) && c.Outlasts(i, j, c.attempts)
        ensures Left(c.WritesOf(i), q) == Left(c.WritesOf(j), q)
      {
        PairwiseIfSafe(c, i, j, q);
      }
    }
  }

  // ---------------------------------------------------------------------------------------
  // When nothing is retried
  // ---------------------------------------------------------------------------------------

  /** Nothing from `lo` up to `hi` waits for event `i` with `r` attempts begun. */
  ghost predicate NoneWaits(c: Sync, i: nat, r: nat, lo: nat, hi: nat)
    requires i < |c.log| && hi < |c.log|
  {
    forall o :: Opened(o) ==> forall k :: lo < k <= hi ==> !c.HasToWait(k, i, r)
  }

  lemma NoneWaitsMore(c: Sync, i: nat, r: nat, lo: nat, hi: nat)
    requires i < |c.log| && lo <= hi < |c.log|
    ensures lo == hi ==> NoneWaits(c, i, r, lo, hi)
    ensures lo < hi ==> (NoneWaits(c, i, r, lo, hi) <==> NoneWaits(c, i, r, lo, hi - 1) && !c.HasToWait(hi, i, r))
  {
    assert Opened(0);
  }

  ghost predicate SwitchesAt(c: Sync, i: nat, m: nat, j: nat)
    requires i < |c.log| && j < |c.log|
  {
    i <= m <= j && NoneWaits(c, i, 0, i, m) && NoneWaits(c, i, 1, m, j)
  }

  ghost predicate Switches(c: Sync, i: nat, j: nat)
    requires i < |c.log| && j < |c.log|
  {
    exists m :: SwitchesAt(c, i, m, j)
  }

  /** With one attempt, an event can outlast others that do not wait for it as logged, and from some
      point on do not wait for it as overwritten. */
  lemma {:induction false} OutlastsOnce(c: Sync, i: nat, j: nat)
    requires i <= j < |c.log|
    ensures c.Outlasts(i, j, 1) <==> Switches(c, i, j)
    decreases j
  {
    if i == j {
      NoneWaitsMore(c, i, 0, i, i);
      NoneWaitsMore(c, i, 1, i, i);
      assert SwitchesAt(c, i, i, i);
    } else {
      OutlastsOnce(c, i, j - 1);
      OutlastsNever(c, i, j - 1);
      SwitchedBefore(c, i, j);
      if m :| SwitchesAt(c, i, m, j) {
        SwitchedNow(c, i, m, j);
      }
    }
  }

  lemma SwitchedBefore(c: Sync, i: nat, j: nat)
    requires i < j < |c.log| && (c.Outlasts(i, j - 1, 1) ==> Switches(c, i, j - 1))
    requires c.Outlasts(i, j - 1, 0) ==> NoneWaits(c, i, 0, i, j - 1)
    ensures c.Outlasts(i, j, 1) ==> Switches(c, i, j)
  {
    if c.Outlasts(i, j, 1) {
      var o :| 0 <= o <= 1 && !c.HasToWait(j, i, o) && c.Outlasts(i, j - 1, o);
      if o == 0 {
        SwitchHere(c, i, j);
      } else {
        var m :| SwitchesAt(c, i, m, j - 1);
        SwitchEarlier(c, i, m, j);
      }
    }
  }

  lemma SwitchHere(c: Sync, i: nat, j: nat)
    requires i < j < |c.log| && NoneWaits(c, i, 0, i, j - 1) && !c.HasToWait(j, i, 0)
    ensures SwitchesAt(c, i, j, j)
  {
    NoneWaitsMore(c, i, 0, i, j);
    NoneWaitsMore(c, i, 1, j, j);
  }

  lemma SwitchEarlier(c: Sync, i: nat, m: nat, j: nat)
    requires i < j < |c.log| && SwitchesAt(c, i, m, j - 1) && !c.HasToWait(j, i, 1)
    ensures SwitchesAt(c, i, m, j)
  {
    NoneWaitsMore(c, i, 1, m, j);
  }

  lemma SwitchedNow(c: Sync, i: nat, m: nat, j: nat)
    requires i < j < |c.log| && SwitchesAt(c, i, m, j)
    requires Switches(c, i, j - 1) ==> c.Outlasts(i, j - 1, 1)
    requires NoneWaits(c, i, 0, i, j - 1) ==> c.Outlasts(i, j - 1, 0)
    ensures c.Outlasts(i, j, 1)
  {
    if m == j {
      NoneWaitsMore(c, i, 0, i, j);
    } else {
      NoneWaitsMore(c, i, 1, m, j);
      assert SwitchesAt(c, i, m, j - 1);
    }
  }

  lemma {:induction false} OutlastsNever(c: Sync, i: nat, j: nat)
    requires i <= j < |c.log|
    ensures c.Outlasts(i, j, 0) <==> NoneWaits(c, i, 0, i, j)
    decreases j
  {
    NoneWaitsMore(c, i, 0, i, j);
    if i < j {
      OutlastsNever(c, i, j - 1);
    }
  }

  /** Without retries every attempt is the first. */
  lemma OneAttemptIsSteady(c: Sync)
    requires c.attempts == 1
    ensures Steady(c)
  {
  }

  // ---------------------------------------------------------------------------------------
  // When the events stay as they are
  // ---------------------------------------------------------------------------------------

  /** No worker changes the event it holds, as when the two directories are the same. */
  ghost predicate Unmoved(c: Sync) {
    forall e <- c.log :: c.worker.newParent(e) == e.newParentPath
  }

  lemma SameDirectory(c: Sync, directory: Path, signature: int, deleteFiles: bool)
    requires c.worker == WorkerOf(RouteBetween(directory, directory, signature, deleteFiles))
    ensures Unmoved(c)
  {
    forall p: Path | directory <= p ensures directory + p[|directory|..] == p {}
  }

  lemma {:induction false} UnmovedSeen(c: Sync, i: nat, r: nat)
    requires Unmoved(c) && i < |c.log|
    ensures c.Seen(i, r) == c.log[i] && c.Plan(i, r) == c.WritesOf(i)
  {
    if r > 0 {
      UnmovedSeen(c, i, r - 1);
      assert c.log[i] in c.log;
    }
  }

  lemma UnmovedIsSteady(c: Sync)
    requires Unmoved(c)
    ensures Steady(c)
  {
    forall i, a | 0 <= i < |c.log| && 0 <= a < c.attempts ensures c.Plan(i, a) == c.WritesOf(i) {
      UnmovedSeen(c, i, a);
    }
  }

  /** ... an event is outlasted by another if nothing in between waits for it. */
  lemma {:induction false} UnmovedOutlasts(c: Sync, i: nat, j: nat, r: nat)
    requires Unmoved(c) && i <= j < |c.log|
    ensures c.Outlasts(i, j, r) <==> NoneWaits(c, i, 0, i, j)
    decreases j
  {
    NoneWaitsMore(c, i, 0, i, j);
    if i < j {
      var p := j - 1;
      forall o: nat ensures c.HasToWait(j, i, o) <==> c.HasToWait(j, i, 0) {
        UnmovedSeen(c, i, o);
      }
      forall o: nat ensures c.Outlasts(i, p, o) <==> NoneWaits(c, i, 0, i, p) {
        UnmovedOutlasts(c, i, p, o);
      }
      assert !c.HasToWait(j, i, 0) && c.Outlasts(i, p, 0) ==> c.Outlasts(i, j, r);
    }
  }

  // ---------------------------------------------------------------------------------------
  // Files
  // ---------------------------------------------------------------------------------------

  ghost predicate Filers(c: Sync, route: Route) {
    c.worker == WorkerOf(route) && forall e <- c.log :: InPlace(e)
  }

  /** No two events share a path of which one of them thinks it is a directory. */
  ghost predicate NoDirectoryClash(log: seq<Event>) {
    forall i, j :: 0 <= i < j < |log| && !log[i].IsEmpty() && !log[j].IsEmpty() ==> !SamePathClash(log[j], log[i])
  }

  lemma WritesAre(c: Sync, route: Route, i: nat)
    requires Filers(c, route) && i < |c.log|
    ensures c.WritesOf(i) == Writes(c.log[i], route)
  {
  }

  lemma TouchersWait(c: Sync, route: Route, i: nat, j: nat, q: Path)
    requires Filers(c, route) && NoDirectoryClash(c.log) && i < j < |c.log| && c.EventTouches(i, q) && c.EventTouches(j, q)
    ensures c.HasToWait(j, i, 0)
  {
    WritesAre(c, route, i);
    WritesAre(c, route, j);
    assert c.log[i] in c.log && c.log[j] in c.log;
    UnorderedWritesClash(c.log[j], c.log[i], route, q);
  }

  /** That is enough for a log to be safe, if the events stay as they are. */
  lemma NoClashIsSafe(c: Sync, route: Route)
    requires c.Valid() && Filers(c, route) && Unmoved(c) && NoDirectoryClash(c.log)
    ensures c.Safe()
  {
    forall i, j, q | 0 <= i < j < |c.log| && c.EventTouches(i, q) && c.LastToucher(j, q) ensures !c.Outlasts(i, j, c.attempts) {
      TouchersWait(c, route, i, j, q);
      UnmovedOutlasts(c, i, j, c.attempts);
      NoneWaitsMore(c, i, 0, i, j);
    }
    UnmovedIsSteady(c);
    SteadySafety(c);
  }

  ghost predicate OnlyFiles(log: seq<Event>) {
    forall e <- log :: e.IsEmpty() || !ExtractPaths(e).isDirectory
  }

  lemma FilesDoNotClash(log: seq<Event>)
    requires OnlyFiles(log)
    ensures NoDirectoryClash(log)
  {
    forall i, j | 0 <= i < j < |log| && !log[i].IsEmpty() && !log[j].IsEmpty() ensures !SamePathClash(log[j], log[i]) {
      assert log[i] in log && log[j] in log;
    }
  }

  /** A sync of files between directories of the same path is serializable. */
  lemma FilesAreSerializable(c: Sync, route: Route)
    requires c.Valid() && Filers(c, route) && OnlyFiles(c.log) && Unmoved(c)
    ensures Serializable(c)
  {
    FilesDoNotClash(c.log);
    NoClashIsSafe(c, route);
    SerializableIffSafe(c);
  }

  /** Nothing is renamed, and what is replaced was a file too. */
  predicate StaysInPlace(e: Event) {
    e.oldEntry.Some? && e.newEntry.Some? ==> e.IsUpdate() && !e.oldEntry.value.isDirectory
  }

  /** An overwritten update still has the path it updates in its footprint. */
  lemma OverwrittenKeepsPath(a: Event, e: Event, route: Route, q: Path)
    requires InPlace(a) && InPlace(e) && StaysInPlace(e) && TouchedBy(Writes(a, route), q) && TouchedBy(Writes(e, route), q)
    requires !a.IsEmpty() && !e.IsEmpty() && !ExtractPaths(a).isDirectory && !ExtractPaths(e).isDirectory
    ensures ShouldWaitFor(a, e.(newParentPath := NewParent(e, route)))
  {
    LastTouchFacts(Writes(a, route), q);
    LastTouchFacts(Writes(e, route), q);
    var x :| x in Writes(a, route) && x.Touches(q);
    var y :| y in Writes(e, route) && y.Touches(q);
    WriteIsInFootprint(a, route, x);
    WriteIsInFootprint(e, route, y);
    var o := e.(newParentPath := NewParent(e, route));
    assert InFootprint(q, a) && q == ExtractPaths(e).path == ExtractPaths(o).path;
    PairMeets(a, o, q, q);
  }

  lemma {:induction false} NotOutlasted(c: Sync, i: nat, j: nat)
    requires i < j < |c.log| && c.HasToWait(j, i, 0) && c.HasToWait(j, i, 1)
    ensures !c.Outlasts(i, j, 1)
  {
  }

  lemma TouchersStillWait(c: Sync, route: Route, i: nat, j: nat, q: Path)
    requires Filers(c, route) && OnlyFiles(c.log) && (forall e <- c.log :: StaysInPlace(e))
    requires i < j < |c.log| && c.EventTouches(i, q) && c.EventTouches(j, q) && c.HasToWait(j, i, 0)
    ensures c.HasToWait(j, i, 1)
  {
    WritesAre(c, route, i);
    WritesAre(c, route, j);
    assert c.log[i] in c.log && c.log[j] in c.log;
    OverwrittenKeepsPath(c.log[j], c.log[i], route, q);
    assert c.Seen(i, 1) == c.log[i].(newParentPath := NewParent(c.log[i], route));
  }

  /** Between different directories it still is if nothing is renamed and nothing retried. */
  lemma FilesInPlaceAreSerializable(c: Sync, route: Route)
    requires c.Valid() && Filers(c, route) && OnlyFiles(c.log) && c.attempts == 1 && forall e <- c.log :: StaysInPlace(e)
    ensures Serializable(c)
  {
    FilesDoNotClash(c.log);
    forall i, j, q | 0 <= i < j < |c.log| && c.EventTouches(i, q) && c.LastToucher(j, q) ensures !c.Outlasts(i, j, 1) {
      TouchersWait(c, route, i, j, q);
      TouchersStillWait(c, route, i, j, q);
      NotOutlasted(c, i, j);
    }
    OneAttemptIsSteady(c);
    SteadySafety(c);
    SerializableIffSafe(c);
  }
}
