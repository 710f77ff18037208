/**
 Exactly which logs survive that jobs of old schedulers go on after the stream has broken, and
 which paths are right in any case.
 */
module SyncOldJobs {
  import opened Curtains
  import opened FileChunks
  import opened AbsoluteWrites
  import opened SyncEvents
  import opened Reachability
  import opened SyncScheduler
  import opened SyncTheorems
  import opened SyncNecessity
  import opened SyncSerializability
  import opened SyncReconnect

  // ---------------------------------------------------------------------------------------
  // Needed: a job of an old scheduler writes last
  // ---------------------------------------------------------------------------------------

  ghost predicate Streams(c: Sync, x: Process, x': Process) {
    forall k :: Opened(k) ==> Reachable(StreamStepsOf(c), x, x')
  }

  lemma StreamsOn(c: Sync, x: Process, x': Process, x'': Process)
    requires Streams(c, x, x') && Streams(c, x', x'')
    ensures Streams(c, x, x'')
  {
    assert Opened(0);
    ReachesTrans(StreamStepsOf(c), x, x', x'');
  }

  lemma StreamsByStep(c: Sync, x: Process, x': Process)
    requires StreamStep(c, x, x')
    ensures Streams(c, x, x')
  {
    ReachesSelf(StreamStepsOf(c), x);
    ReachesStep(StreamStepsOf(c), x, x, x');
  }

  /** What the scheduler can do, it can do beside old jobs. */
  lemma BesideOldJobs(c: Sync, s: State, s': State, jobs: multiset<Job>)
    requires Reaches(c, s, s')
    ensures Streams(c, Process(s, jobs), Process(s', jobs))
  {
    assert Opened(0);
    var p :| Chain(WorkOf(c), p) && p[0] == s && p[|p|-1] == s';
    var run := seq(|p|, i requires 0 <= i < |p| => Process(p[i], jobs));
    forall i | 0 <= i < |run| - 1 ensures StepAt(StreamStepsOf(c), run, i) {
      assert StepAt(WorkOf(c), p, i);
    }
    assert Chain(StreamStepsOf(c), run) && run[0] == Process(s, jobs) && run[|run|-1] == Process(s', jobs);
  }

  lemma StartsOver(c: Sync)
    requires c.Valid()
    ensures Resume(c.log, c.offset) == 0
  {
    ResumeFacts(c.log, c.offset);
    assert c.log != [] ==> c.log[0] in c.log;
  }

  /** Event `i` is taken up and the stream breaks before its worker begins. */
  lemma BreakAt(c: Sync, i: nat) returns (s: State)
    requires c.Valid() && 1 <= c.limit && i < |c.log| && !c.log[i].IsEmpty()
    ensures Streams(c, Process(Beginning(c), multiset{}), Process(s, multiset{Job(i, 0, 0)}))
    ensures s.next == 0 && s.active == map[]
  {
    var b := Beginning(c);
    var taken, before := TakeUp(c, i);
    StepOn(c, b, before, taken);
    BesideOldJobs(c, b, taken, multiset{});
    StartsOver(c);
    s := State(map[], c.offset, taken.target, c.offset, 0, 0, taken.target, []);
    assert JobsOf(taken) == multiset{Job(i, 0, 0)};
    var x, x' := Process(taken, multiset{}), Process(s, multiset{Job(i, 0, 0)});
    assert Reconnect(c, x, x');
    StreamsByStep(c, x, x');
    StreamsOn(c, Process(b, multiset{}), x, x');
  }

  /** ... and the new scheduler gets through the log meanwhile. */
  lemma TakenUpTwice(c: Sync, i: nat) returns (s: State)
    requires c.Valid() && 1 <= c.limit && i < |c.log| && !c.log[i].IsEmpty()
    ensures Streams(c, Process(Beginning(c), multiset{}), Process(s, multiset{Job(i, 0, 0)}))
    ensures Drained(c, s) && Marked(c, 0, |c.log|, s.watermark)
  {
    var again := BreakAt(c, i);
    var pick: Picks := (k: nat) => 0;
    s := Drain(c, again, pick);
    var jobs := multiset{Job(i, 0, 0)};
    BesideOldJobs(c, again, s, jobs);
    StreamsOn(c, Process(Beginning(c), multiset{}), Process(again, jobs), Process(s, jobs));
  }

  /** The old job begins attempts until `r` have begun. */
  lemma {:induction false} LateBegins(c: Sync, s: State, j: Job, r: nat)
    requires j.begun < r <= c.attempts
    ensures Streams(c, Process(s, multiset{j}), Process(s, multiset{Job(j.index, r, 0)}))
    decreases r
  {
    var x, last := Process(s, multiset{j}), if j.begun == r - 1 then j else Job(j.index, r - 1, 0);
    var y, y' := Process(s, multiset{last}), Process(s, multiset{Job(j.index, r, 0)});
    assert LateBegin(c, y, y', last);
    StreamsByStep(c, y, y');
    if j.begun < r - 1 {
      LateBegins(c, s, j, r - 1);
      StreamsOn(c, x, y, y');
    }
  }

  /** ... makes the first `n` writes of its attempt. */
  lemma {:induction false} LateWrites(c: Sync, s: State, i: nat, a: nat, n: nat) returns (s': State)
    requires i < |c.log| && a < c.attempts && n <= |c.Plan(i, a)|
    ensures s' == s.(target := ApplyAll(c.Plan(i, a)[..n], s.target))
    ensures Streams(c, Process(s, multiset{Job(i, a + 1, 0)}), Process(s', multiset{Job(i, a + 1, n)}))
  {
    var ws := c.Plan(i, a);
    var x := Process(s, multiset{Job(i, a + 1, 0)});
    s' := s.(target := ApplyAll(ws[..n], s.target));
    if n == 0 {
      assert s' == s;
      ReachesSelf(StreamStepsOf(c), x);
    } else {
      var mid := LateWrites(c, s, i, a, n - 1);
      assert ws[..n][..n - 1] == ws[..n - 1];
      var y, y' := Process(mid, multiset{Job(i, a + 1, n - 1)}), Process(s', multiset{Job(i, a + 1, n)});
      assert LateWrite(c, y, y', Job(i, a + 1, n - 1));
      StreamsByStep(c, y, y');
      StreamsOn(c, x, y, y');
    }
  }

  /** ... both. */
  lemma LateTry(c: Sync, s: State, j: Job, a: nat, n: nat) returns (s': State)
    requires j.index < |c.log| && j.begun <= a < c.attempts && n <= |c.Plan(j.index, a)|
    ensures s' == s.(target := ApplyAll(c.Plan(j.index, a)[..n], s.target))
    ensures Streams(c, Process(s, multiset{j}), Process(s', multiset{Job(j.index, a + 1, n)}))
  {
    LateBegins(c, s, j, a + 1);
    s' := LateWrites(c, s, j.index, a, n);
    StreamsOn(c, Process(s, multiset{j}), Process(s, multiset{Job(j.index, a + 1, 0)}), Process(s', multiset{Job(j.index, a + 1, n)}));
  }

  /** ... and ends. */
  lemma LateRun(c: Sync, s: State, j: Job, a: nat) returns (s': State)
    requires j.index < |c.log| && j.begun <= a < c.attempts
    ensures s' == s.(target := ApplyAll(c.Plan(j.index, a), s.target))
    ensures Streams(c, Process(s, multiset{j}), Process(s', multiset{}))
  {
    var ws := c.Plan(j.index, a);
    s' := LateTry(c, s, j, a, |ws|);
    assert ws[..|ws|] == ws;
    var y, done := Process(s', multiset{Job(j.index, a + 1, |ws|)}), Process(s', multiset{});
    assert LateEnd(c, y, done, Job(j.index, a + 1, |ws|));
    StreamsByStep(c, y, done);
    StreamsOn(c, Process(s, multiset{j}), y, done);
  }

  /** The old job writes `op` to `q` last, and ends. */
  lemma {:induction false} LateStay(c: Sync, s: State, i: nat, a: nat, op: Op, q: Path) returns (s': State)
    requires c.CanStay(i, a, op, q)
    ensures Streams(c, Process(s, multiset{Job(i, 0, 0)}), Process(s', multiset{}))
    ensures s' == s.(target := s'.target) && Lookup(s'.target, q) == op.Leaves()
  {
    var j, ws := Job(i, 0, 0), c.Plan(i, a);
    if LastTouch(ws, q) == Some(op) {
      s' := LateRun(c, s, j, a);
      LastWriteDecides(ws, s.target, q);
    } else {
      var b: nat :| a < b < c.attempts && !c.Touches(i, b, q);
      var n :| 0 <= n < |ws| && ws[n] == op;
      var mid := LateTry(c, s, j, a, n + 1);
      LastIsWritten(ws, n, s.target, q);
      s' := LateRun(c, mid, Job(i, a + 1, n + 1), b);
      LastWriteDecides(c.Plan(i, b), mid.target, q);
      StreamsOn(c, Process(s, multiset{j}), Process(mid, multiset{Job(i, a + 1, n + 1)}), Process(s', multiset{}));
    }
  }

  lemma StreamTo(c: Sync, s: State, q: Path)
    requires Streams(c, Process(Beginning(c), multiset{}), Process(s, multiset{})) && Drained(c, s)
    requires Lookup(s.target, q) != c.Outcome(q)
    ensures !SurvivesReconnects(c)
  {
    assert Opened(0);
    var x := Process(Beginning(c), multiset{});
    var run :| Chain(StreamStepsOf(c), run) && run[0] == x && run[|run|-1] == Process(s, multiset{});
    assert StreamRun(c, run) && AllDone(c, run[|run|-1]);
  }

  lemma UntouchedShows(c: Sync, q: Path)
    requires c.Valid() && 1 <= c.limit && !UntouchedIsRight(c, q)
    ensures !SurvivesReconnects(c)
  {
    var s := DrainAvoiding(c, Beginning(c), q);
    BesideOldJobs(c, Beginning(c), s, multiset{});
    StreamTo(c, s, q);
  }

  lemma DisagreementShows(c: Sync, i: nat, a: nat, op: Op, q: Path)
    requires c.Valid() && 1 <= c.limit && c.CanStay(i, a, op, q) && op.Leaves() != c.Outcome(q)
    ensures !SurvivesReconnects(c)
  {
    var x := Process(Beginning(c), multiset{});
    var s := TakenUpTwice(c, i);
    var s' := LateStay(c, s, i, a, op, q);
    StreamsOn(c, x, Process(s, multiset{Job(i, 0, 0)}), Process(s', multiset{}));
    StreamTo(c, s', q);
  }

  /** However often the stream breaks and whatever the schedulers do: every run in which all jobs
      end gives the sequential outcome if and only if the log agrees with itself. */
  lemma ReconnectsHarmlessIff(c: Sync)
    requires c.Valid() && 1 <= c.limit
    ensures SurvivesReconnects(c) <==> Agreeing(c)
  {
    if Agreeing(c) {
      forall run: seq<Process> | StreamRun(c, run) && AllDone(c, run[|run|-1])
        ensures run[|run|-1].current.target == c.Sequential(|c.log|)
      {
        AgreeingSurvives(c, run);
      }
    } else {
      var q :| !AgreeingAt(c, q);
      if !UntouchedIsRight(c, q) {
        UntouchedShows(c, q);
      } else {
        var i, a, op :| c.CanStay(i, a, op, q) && op.Leaves() != c.Outcome(q);
        DisagreementShows(c, i, a, op, q);
      }
    }
  }

  // ---------------------------------------------------------------------------------------
  // Needed: a job of an old scheduler is killed between two writes
  // ---------------------------------------------------------------------------------------

  ghost predicate Goes(c: Sync, x: Process, x': Process) {
    forall k :: Opened(k) ==> Reachable(ProcessStepsOf(c), x, x')
  }

  lemma GoesOn(c: Sync, x: Process, x': Process, x'': Process)
    requires Goes(c, x, x') && Goes(c, x', x'')
    ensures Goes(c, x, x'')
  {
    assert Opened(0);
    ReachesTrans(ProcessStepsOf(c), x, x', x'');
  }

  lemma GoesByStep(c: Sync, x: Process, x': Process)
    requires ProcessStep(c, x, x')
    ensures Goes(c, x, x')
  {
    ReachesSelf(ProcessStepsOf(c), x);
    ReachesStep(ProcessStepsOf(c), x, x, x');
  }

  lemma GoesByStream(c: Sync, x: Process, x': Process)
    requires Streams(c, x, x')
    ensures Goes(c, x, x')
  {
    assert Opened(0);
    ReachesMore(StreamStepsOf(c), ProcessStepsOf(c), x, x');
  }

  /** Once everything is persisted, a restarted process has nothing to write any more, whatever the
      old jobs had still to do. */
  lemma NothingToRedo(c: Sync, s: State, jobs: multiset<Job>, q: Path) returns (s': State)
    requires c.Valid() && 1 <= c.limit && Marked(c, 0, |c.log|, s.persisted)
    ensures Goes(c, Process(s, jobs), Process(s', multiset{})) && Drained(c, s')
    ensures Lookup(s'.target, q) == Lookup(s.target, q)
  {
    var mid := CrashResumes(c, s, |c.log|);
    NoneMustAgain(c, mid.next, |c.log|, q);
    s' := DrainAvoiding(c, mid, q);
    var x, y, z := Process(s, jobs), Process(mid, multiset{}), Process(s', multiset{});
    assert Restart(c, x, y);
    GoesByStep(c, x, y);
    BesideOldJobs(c, mid, s', multiset{});
    GoesByStream(c, y, z);
    GoesOn(c, x, y, z);
  }

  /** The new scheduler has got through the log and has said so. */
  lemma TakenUpAndPersisted(c: Sync, i: nat) returns (s: State)
    requires c.Valid() && 1 <= c.limit && i < |c.log| && !c.log[i].IsEmpty()
    ensures Streams(c, Process(Beginning(c), multiset{}), Process(s, multiset{Job(i, 0, 0)}))
    ensures Marked(c, 0, |c.log|, s.persisted)
  {
    var through := TakenUpTwice(c, i);
    s := Persist(c, through, |c.log|);
    var x, x' := Process(through, multiset{Job(i, 0, 0)}), Process(s, multiset{Job(i, 0, 0)});
    StreamsByStep(c, x, x');
    StreamsOn(c, Process(Beginning(c), multiset{}), x, x');
  }

  /** Some run with one restart ends with a write that an old job has just made. */
  lemma {:induction false} EarlyWriteShows(c: Sync, i: nat, a: nat, op: Op, q: Path)
    requires c.Valid() && 1 <= c.limit && c.WriteTo(i, a, op, q) && op.Leaves() != c.Outcome(q)
    ensures !SurvivesReconnectsAndCrashes(c)
  {
    var x := Process(Beginning(c), multiset{});
    var s := TakenUpAndPersisted(c, i);
    var ws := c.Plan(i, a);
    var n :| 0 <= n < |ws| && ws[n] == op;
    var s' := LateTry(c, s, Job(i, 0, 0), a, n + 1);
    LastIsWritten(ws, n, s.target, q);
    var y, y' := Process(s, multiset{Job(i, 0, 0)}), Process(s', multiset{Job(i, a + 1, n + 1)});
    StreamsOn(c, x, y, y');
    GoesByStream(c, x, y');
    var s'' := NothingToRedo(c, s', y'.earlier, q);
    GoesOn(c, x, y', Process(s'', multiset{}));
    ProcessTo(c, s'', q);
  }

  lemma ProcessTo(c: Sync, s: State, q: Path)
    requires Goes(c, Process(Beginning(c), multiset{}), Process(s, multiset{})) && Drained(c, s)
    requires Lookup(s.target, q) != c.Outcome(q)
    ensures !SurvivesReconnectsAndCrashes(c)
  {
    assert Opened(0);
    var x := Process(Beginning(c), multiset{});
    var run :| Chain(ProcessStepsOf(c), run) && run[0] == x && run[|run|-1] == Process(s, multiset{});
    assert ProcessRun(c, run) && AllDone(c, run[|run|-1]);
  }

  lemma UntouchedShowsToo(c: Sync, q: Path)
    requires c.Valid() && 1 <= c.limit && !UntouchedIsRight(c, q)
    ensures !SurvivesReconnectsAndCrashes(c)
  {
    var s := DrainAvoiding(c, Beginning(c), q);
    BesideOldJobs(c, Beginning(c), s, multiset{});
    GoesByStream(c, Process(Beginning(c), multiset{}), Process(s, multiset{}));
    ProcessTo(c, s, q);
  }

  /** With restarts of the process as well, the log has to agree write by write. */
  lemma ReconnectsAndCrashesHarmlessIff(c: Sync)
    requires c.Valid() && 1 <= c.limit
    ensures SurvivesReconnectsAndCrashes(c) <==> AgreeingAtOnce(c)
  {
    if AgreeingAtOnce(c) {
      forall run: seq<Process> | ProcessRun(c, run) && AllDone(c, run[|run|-1])
        ensures run[|run|-1].current.target == c.Sequential(|c.log|)
      {
        AgreeingAtOnceSurvives(c, run);
      }
    } else {
      var q :| !AtOnceAt(c, q);
      if !UntouchedIsRight(c, q) {
        UntouchedShowsToo(c, q);
      } else {
        var i, a, op :| c.WriteTo(i, a, op, q) && op.Leaves() != c.Outcome(q);
        EarlyWriteShows(c, i, a, op, q);
      }
    }
  }

  // ---------------------------------------------------------------------------------------
  // Consequences
  // ---------------------------------------------------------------------------------------

  /** No attempt writes to a place twice. */
  ghost predicate OncePerPlace(c: Sync) {
    forall i, a, op, q :: c.WriteTo(i, a, op, q) ==> LastTouch(c.Plan(i, a), q) == Some(op)
  }

  /** Then the two conditions are the same. */
  lemma OneConditionForBoth(c: Sync)
    requires OncePerPlace(c)
    ensures AgreeingAtOnce(c) <==> Agreeing(c)
  {
    forall q ensures AtOnceAt(c, q) <==> AgreeingAt(c, q) {
      assert forall i, a, op :: c.WriteTo(i, a, op, q) <==> c.CanStay(i, a, op, q);
    }
  }

  /** As long as nothing is renamed onto or below itself. */
  lemma {:induction false} PlainRenames(c: Sync, route: Route)
    requires c.worker == WorkerOf(route)
    requires forall i, a :: 0 <= i < |c.log| && 0 <= a < c.attempts && |c.Plan(i, a)| == 2 ==>
               !c.Plan(i, a)[0].Touches(c.Plan(i, a)[1].path)
    ensures OncePerPlace(c)
  {
    forall i, a, op, q | c.WriteTo(i, a, op, q) ensures LastTouch(c.Plan(i, a), q) == Some(op) {
      OnlyWrite(c.Plan(i, a), op, q);
    }
  }

  lemma {:induction false} OnlyWrite(ws: seq<Op>, op: Op, q: Path)
    requires |ws| <= 2 && op in ws && op.Touches(q) && (|ws| == 2 ==> !ws[0].Touches(ws[1].path) && ws[1].Put?)
    ensures LastTouch(ws, q) == Some(op)
  {
  }

  /** Where all attempts at an event write the same, the first condition is one on pairs of events. */
  ghost predicate PairwiseAgreeing(c: Sync) {
    forall i, j, q :: 0 <= i < j < |c.log| && c.EventTouches(i, q) && c.LastToucher(j, q) ==>
      Left(c.WritesOf(i), q) == Left(c.WritesOf(j), q)
  }

  lemma SteadyAgreement(c: Sync)
    requires c.Valid() && Steady(c)
    ensures Agreeing(c) <==> PairwiseAgreeing(c)
  {
    if PairwiseAgreeing(c) {
      forall q ensures AgreeingAt(c, q) {
        PairwiseAgreesAt(c, q);
      }
    }
    if Agreeing(c) {
      forall i, j, q | 0 <= i < j < |c.log| && c.EventTouches(i, q) && c.LastToucher(j, q)
        ensures Left(c.WritesOf(i), q) == Left(c.WritesOf(j), q)
      {
        assert AgreeingAt(c, q);
        LastTouchFacts(c.WritesOf(i), q);
        assert c.CanStay(i, 0, LastTouch(c.WritesOf(i), q).value, q);
        SequentialAt(c, j, |c.log|, q);
      }
    }
  }

  lemma PairwiseAgreesAt(c: Sync, q: Path)
    requires c.Valid() && Steady(c) && PairwiseAgreeing(c)
    ensures AgreeingAt(c, q)
  {
    if !c.MustTouchFrom(0, q) {
      forall i | 0 <= i < |c.log| ensures !c.EventTouches(i, q) {
        SteadyMust(c, i, q);
      }
      SequentialQuiet(c, 0, |c.log|, q);
      assert c.Sequential(0) == c.initial;
    }
    forall i, a, op | c.CanStay(i, a, op, q) ensures op.Leaves() == c.Outcome(q) {
      SteadyStay(c, i, a, op, q);
      var j := LastToucherOf(c, i, q);
    }
  }

  /** Two updates of one file, which crashes alone do not reorder between directories of the same path,
      can end with the first one's content after a broken stream. */
  lemma OldUpdateWins(c: Sync, i: nat, j: nat, q: Path, a: Entry, b: Entry)
    requires c.Valid() && 1 <= c.limit && i < j < |c.log| && c.LastToucher(j, q)
    requires c.WritesOf(i) == [Put(q, a)] && c.WritesOf(j) == [Put(q, b)] && a != b
    ensures !SurvivesReconnects(c) && !SurvivesReconnectsAndCrashes(c)
    ensures forall route :: Filers(c, route) && OnlyFiles(c.log) && Unmoved(c) ==> Serializable(c)
  {
    TwoUpdatesDisagree(c, i, j, q, a, b);
    ReconnectsHarmlessIff(c);
    ReconnectsAndCrashesHarmlessIff(c);
    forall route | Filers(c, route) && OnlyFiles(c.log) && Unmoved(c) ensures Serializable(c) {
      FilesAreSerializable(c, route);
    }
  }

  lemma TwoUpdatesDisagree(c: Sync, i: nat, j: nat, q: Path, a: Entry, b: Entry)
    requires c.Valid() && i < j < |c.log| && c.LastToucher(j, q)
    requires c.WritesOf(i) == [Put(q, a)] && c.WritesOf(j) == [Put(q, b)] && a != b
    ensures !AgreeingAt(c, q) && !AtOnceAt(c, q)
  {
    SequentialAt(c, j, |c.log|, q);
    assert Left(c.WritesOf(j), q) == Some(b);
    assert c.CanStay(i, 0, Put(q, a), q);
  }

  // ---------------------------------------------------------------------------------------
  // The damage is confined to what the old jobs write
  // ---------------------------------------------------------------------------------------

  /** The same state but for what is at other paths than `q`. */
  predicate Alike(s: State, s': State, q: Path) {
    s' == s.(target := s'.target, start := s'.start) && Lookup(s.target, q) == Lookup(s'.target, q)
  }

  /** A step of the scheduler can be made by one whose target differs elsewhere. */
  lemma AlikeWork(c: Sync, s: State, s': State, a: State, q: Path) returns (a': State)
    requires Work(c, s, s') && Alike(s, a, q)
    ensures Work(c, a, a') && Alike(s', a', q)
  {
    a' := s'.(target := a.target, start := a.start);
    if Accept(c, s, s') {
      assert Accept(c, a, a');
    } else if t :| Exec(c, s, s', t) {
      var op := c.Plan(s.active[t].index, s.active[t].begun - 1)[s.active[t].done];
      a' := a'.(target := op.Apply(a.target));
      assert Exec(c, a, a', t);
      OneWrite(op, s.target, q);
      OneWrite(op, a.target, q);
    } else if t :| Begin(c, s, s', t) {
      assert Begin(c, a, a', t);
    } else if t :| Finish(c, s, s', t) {
      assert Leave(a, a', t);
      assert Finish(c, a, a', t);
    } else {
      assert Checkpoint(a, a');
    }
  }

  /** No old job writes to `q`. */
  ghost predicate NoOldTouch(c: Sync, x: Process, q: Path) {
    forall j, a, op :: j in x.earlier ==> !c.WriteTo(j.index, a, op, q)
  }

  ghost predicate Mirrored(c: Sync, x: Process, q: Path) {
    exists a :: Alike(x.current, a, q) && Reachable(StepsOf(c), Beginning(c), a)
  }

  lemma StepMirrored(c: Sync, x: Process, x': Process, q: Path)
    requires ProcessStep(c, x, x') && NoOldTouch(c, x, q) && Mirrored(c, x, q)
    ensures Mirrored(c, x', q)
  {
    var a :| Alike(x.current, a, q) && Reachable(StepsOf(c), Beginning(c), a);
    if Work(c, x.current, x'.current) {
      var a' := AlikeWork(c, x.current, x'.current, a, q);
      ReachesStep(StepsOf(c), Beginning(c), a, a');
    } else if Crash(c, x.current, x'.current) {
      var a' := x'.current.(target := a.target, start := a.target);
      assert Crash(c, a, a');
      ReachesStep(StepsOf(c), Beginning(c), a, a');
    } else if j :| LateWrite(c, x, x', j) {
      var op := c.Plan(j.index, j.begun - 1)[j.done];
      OneWrite(op, x.current.target, q);
      assert !c.WriteTo(j.index, j.begun - 1, op, q);
      assert Alike(x'.current, a, q);
    }
  }

  ghost function SparingSteps(c: Sync, q: Path): (Process, Process) -> bool {
    (x: Process, x': Process) => ProcessStep(c, x, x') && NoOldTouch(c, x, q)
  }

  lemma SparingRun(c: Sync, run: seq<Process>, q: Path)
    requires ProcessRun(c, run) && forall x <- run :: NoOldTouch(c, x, q)
    ensures Chain(SparingSteps(c, q), run)
  {
    forall i | 0 <= i < |run| - 1 ensures StepAt(SparingSteps(c, q), run, i) {
      assert StepAt(ProcessStepsOf(c), run, i) && run[i] in run;
    }
  }

  lemma RunMirrored(c: Sync, run: seq<Process>, q: Path)
    requires Chain(SparingSteps(c, q), run) && run[0] == Process(Beginning(c), multiset{})
    ensures Mirrored(c, run[|run|-1], q)
  {
    var inv := (x: Process) => Mirrored(c, x, q);
    ReachesSelf(StepsOf(c), Beginning(c));
    assert Alike(run[0].current, Beginning(c), q);
    forall x, y | inv(x) && SparingSteps(c, q)(x, y) ensures inv(y) {
      StepMirrored(c, x, y, q);
    }
    KeptAlong(SparingSteps(c, q), inv, run, |run| - 1);
  }

  /** However often the stream breaks and the process restarts: once the log is drained, a safe path
      to which no job left running writes holds what applying all events in order leaves there. */
  lemma ReconnectConfinement(c: Sync, run: seq<Process>, q: Path)
    requires c.Valid() && ProcessRun(c, run) && Drained(c, run[|run|-1].current)
    requires c.SafeAt(q) && forall x <- run :: NoOldTouch(c, x, q)
    ensures Lookup(run[|run|-1].current.target, q) == Lookup(c.Sequential(|c.log|), q)
  {
    SparingRun(c, run, q);
    RunMirrored(c, run, q);
    var a :| Alike(run[|run|-1].current, a, q) && Reachable(StepsOf(c), Beginning(c), a);
    DrainedMirror(c, a, q);
  }

  lemma DrainedMirror(c: Sync, a: State, q: Path)
    requires c.Valid() && c.SafeAt(q) && Reachable(StepsOf(c), Beginning(c), a) && Drained(c, a)
    ensures Lookup(a.target, q) == Lookup(c.Sequential(|c.log|), q)
  {
    var plain :| Chain(StepsOf(c), plain) && plain[0] == Beginning(c) && plain[|plain|-1] == a;
    RunInv(c, plain, |plain| - 1);
    Settle(c, a, |c.log|, q, {});
  }
}
