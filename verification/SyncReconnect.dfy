/**
 A broken stream is not a crash: the subscription starts again with a new scheduler from the
 persisted offset, while the old scheduler's jobs go on in the same process
 (weed/command/filer_sync.go). A write of such a job may come after everything else, whatever
 the schedulers order. Exactly which logs come out right nevertheless.
 */
module SyncReconnect {
  import opened Curtains
  import opened FileChunks
  import opened AbsoluteWrites
  import opened Reachability
  import opened SyncScheduler
  import opened SyncInvariants
  import opened SyncTheorems
  import opened SyncGivingUp

  /** The current scheduler and the jobs of earlier ones. */
  datatype Process = Process(current: State, earlier: multiset<Job>)

  ghost function JobsOf(s: State): multiset<Job> {
    multiset(set t | t in s.active :: s.active[t])
  }

  /** A new scheduler takes over, the running jobs stay. */
  ghost predicate Reconnect(c: Sync, x: Process, x': Process) {
    Crash(c, x.current, x'.current) && x'.earlier == x.earlier + JobsOf(x.current)
  }

  /** An old job makes the next write of its attempt. */
  ghost predicate LateWrite(c: Sync, x: Process, x': Process, j: Job) {
    && j in x.earlier && j.index < |c.log| && 0 < j.begun <= c.attempts && j.done < |c.Plan(j.index, j.begun - 1)|
    && x'.earlier == x.earlier - multiset{j} + multiset{j.(done := j.done + 1)}
    && x'.current == x.current.(target := c.Plan(j.index, j.begun - 1)[j.done].Apply(x.current.target))
  }

  /** An old job begins its first or another attempt. */
  ghost predicate LateBegin(c: Sync, x: Process, x': Process, j: Job) {
    && j in x.earlier && j.begun < c.attempts && x'.current == x.current
    && x'.earlier == x.earlier - multiset{j} + multiset{j.(begun := j.begun + 1, done := 0)}
  }

  /** An old job that has made all its writes ends. */
  ghost predicate LateEnd(c: Sync, x: Process, x': Process, j: Job) {
    j in x.earlier && HasDone(c, j) && x'.current == x.current && x'.earlier == x.earlier - multiset{j}
  }

  /** A step of one process. */
  ghost predicate StreamStep(c: Sync, x: Process, x': Process) {
    || (Work(c, x.current, x'.current) && x'.earlier == x.earlier)
    || Reconnect(c, x, x')
    || (exists j :: LateWrite(c, x, x', j))
    || (exists j :: LateBegin(c, x, x', j))
    || exists j :: LateEnd(c, x, x', j)
  }

  /** The whole process stops, with the old jobs too, and is started again. */
  ghost predicate Restart(c: Sync, x: Process, x': Process) {
    Crash(c, x.current, x'.current) && x'.earlier == multiset{}
  }

  ghost predicate ProcessStep(c: Sync, x: Process, x': Process) {
    StreamStep(c, x, x') || Restart(c, x, x')
  }

  ghost function StreamStepsOf(c: Sync): (Process, Process) -> bool {
    (x: Process, x': Process) => StreamStep(c, x, x')
  }

  ghost function ProcessStepsOf(c: Sync): (Process, Process) -> bool {
    (x: Process, x': Process) => ProcessStep(c, x, x')
  }

  /** A run of one process. */
  ghost predicate StreamRun(c: Sync, run: seq<Process>) {
    Chain(StreamStepsOf(c), run) && run[0] == Process(Beginning(c), multiset{})
  }

  /** A run with restarts of the process. */
  ghost predicate ProcessRun(c: Sync, run: seq<Process>) {
    Chain(ProcessStepsOf(c), run) && run[0] == Process(Beginning(c), multiset{})
  }

  /** The log is exhausted and every job has ended, the old ones too. */
  predicate AllDone(c: Sync, x: Process) {
    Drained(c, x.current) && x.earlier == multiset{}
  }

  ghost predicate SurvivesReconnects(c: Sync) {
    forall run: seq<Process> :: StreamRun(c, run) && AllDone(c, run[|run|-1]) ==>
      run[|run|-1].current.target == c.Sequential(|c.log|)
  }

  ghost predicate SurvivesReconnectsAndCrashes(c: Sync) {
    forall run: seq<Process> :: ProcessRun(c, run) && AllDone(c, run[|run|-1]) ==>
      run[|run|-1].current.target == c.Sequential(|c.log|)
  }

  // ---------------------------------------------------------------------------------------
  // The conditions on the log
  // ---------------------------------------------------------------------------------------

  ghost predicate UntouchedIsRight(c: Sync, q: Path) {
    !c.MustTouchFrom(0, q) ==> Lookup(c.initial, q) == c.Outcome(q)
  }

  /** Whatever can stay at a path is what applying the log in order leaves there, and so is what was
      there before, if it can. */
  ghost predicate AgreeingAt(c: Sync, q: Path) {
    UntouchedIsRight(c, q) && forall i, a, op :: c.CanStay(i, a, op, q) ==> op.Leaves() == c.Outcome(q)
  }

  ghost predicate Agreeing(c: Sync) {
    forall q :: AgreeingAt(c, q)
  }

  /** ... even whatever is ever written there. */
  ghost predicate AtOnceAt(c: Sync, q: Path) {
    UntouchedIsRight(c, q) && forall i, a, op :: c.WriteTo(i, a, op, q) ==> op.Leaves() == c.Outcome(q)
  }

  ghost predicate AgreeingAtOnce(c: Sync) {
    forall q :: AtOnceAt(c, q)
  }

  // ---------------------------------------------------------------------------------------
  // What still has to be written
  // ---------------------------------------------------------------------------------------

  /** A job will still write to `q`, whichever attempt succeeds. */
  ghost predicate MustStill(c: Sync, j: Job, q: Path) {
    && j.index < |c.log|
    && (0 < j.begun ==> j.done <= |c.Plan(j.index, j.begun - 1)| && TouchedBy(c.Plan(j.index, j.begun - 1)[j.done..], q))
    && forall a: nat :: j.begun <= a < c.attempts ==> c.Touches(j.index, a, q)
  }

  /** An active job that will; strictly, one that would do so again after a crash. */
  ghost predicate ActiveMust(c: Sync, s: State, t: int, q: Path, strict: bool) {
    t in s.active && MustStill(c, s.active[t], q) && (strict ==> c.MustTouch(s.active[t].index, q))
  }

  /** What is at `q` is right, or the current scheduler will still write there. */
  ghost predicate OnTrack(c: Sync, s: State, q: Path, strict: bool) {
    || Lookup(s.target, q) == c.Outcome(q) || c.MustTouchFrom(s.next, q)
    || exists t :: ActiveMust(c, s, t, q, strict)
  }

  ghost predicate OldMust(c: Sync, jobs: multiset<Job>, j: Job, q: Path) {
    j in jobs && MustStill(c, j, q)
  }

  ghost predicate AnyOldMust(c: Sync, jobs: multiset<Job>, q: Path) {
    exists j :: OldMust(c, jobs, j, q)
  }

  lemma {:induction false} OneLess(ws: seq<Op>, d: nat, q: Path)
    requires d < |ws|
    ensures LastTouch(ws[d..], q) == if TouchedBy(ws[d + 1..], q) then LastTouch(ws[d + 1..], q)
                                     else if ws[d].Touches(q) then Some(ws[d]) else None
  {
    assert ws[d..] == [ws[d]] + ws[d + 1..];
    LastTouchConcat([ws[d]], ws[d + 1..], q);
    LastTouchAppend([], ws[d], q);
    assert [] + [ws[d]] == [ws[d]];
  }

  lemma {:induction false} RestDecides(ws: seq<Op>, d: nat, q: Path)
    requires d <= |ws| && TouchedBy(ws[d..], q)
    ensures LastTouch(ws, q) == LastTouch(ws[d..], q)
  {
    assert ws == ws[..d] + ws[d..];
    LastTouchConcat(ws[..d], ws[d..], q);
  }

  /** A write that nothing has to follow can stay. */
  lemma {:induction false} WriteStays(c: Sync, j: Job, q: Path)
    requires j.index < |c.log| && 0 < j.begun <= c.attempts && j.done < |c.Plan(j.index, j.begun - 1)|
    requires c.Plan(j.index, j.begun - 1)[j.done].Touches(q) && !MustStill(c, j.(done := j.done + 1), q)
    ensures c.CanStay(j.index, j.begun - 1, c.Plan(j.index, j.begun - 1)[j.done], q)
  {
    var ws := c.Plan(j.index, j.begun - 1);
    if !TouchedBy(ws[j.done + 1..], q) {
      OneLess(ws, j.done, q);
      RestDecides(ws, j.done, q);
    }
  }

  /** A write elsewhere changes nothing. */
  lemma {:induction false} WriteElsewhere(c: Sync, j: Job, q: Path)
    requires 0 < j.begun && MustStill(c, j, q) && j.done < |c.Plan(j.index, j.begun - 1)|
    requires !c.Plan(j.index, j.begun - 1)[j.done].Touches(q)
    ensures MustStill(c, j.(done := j.done + 1), q)
  {
    OneLess(c.Plan(j.index, j.begun - 1), j.done, q);
  }

  lemma BeginMust(c: Sync, j: Job, q: Path)
    requires MustStill(c, j, q) && j.begun < c.attempts
    ensures MustStill(c, j.(begun := j.begun + 1, done := 0), q)
  {
    var ws := c.Plan(j.index, j.begun);
    assert ws[0..] == ws;
    assert c.Touches(j.index, j.begun, q);
  }

  lemma TakenMust(c: Sync, i: nat, q: Path)
    requires i < |c.log| && c.MustTouch(i, q)
    ensures MustStill(c, Job(i, 0, 0), q)
  {
  }

  lemma DoneOwesNothing(c: Sync, j: Job, q: Path)
    requires HasDone(c, j)
    ensures !MustStill(c, j, q)
  {
    var ws := c.Plan(j.index, j.begun - 1);
    assert ws[|ws|..] == [];
  }

  /** What holds at `q` for runs with or without crashes of the process. */
  ghost predicate Right(c: Sync, q: Path, strict: bool) {
    if strict then AtOnceAt(c, q) else AgreeingAt(c, q)
  }

  lemma ExecOnTrack(c: Sync, s: State, s': State, t: int, q: Path, strict: bool)
    requires JobsInv(c, s) && Exec(c, s, s', t) && OnTrack(c, s, q, strict) && Right(c, q, strict)
    ensures OnTrack(c, s', q, strict)
  {
    assert JobOk(c, s, t);
    var j := s.active[t];
    var op := c.Plan(j.index, j.begun - 1)[j.done];
    OneWrite(op, s.target, q);
    if op.Touches(q) {
      assert c.WriteTo(j.index, j.begun - 1, op, q);
      if !strict && MustStill(c, j.(done := j.done + 1), q) {
        assert ActiveMust(c, s', t, q, strict);
      } else if !strict {
        WriteStays(c, j, q);
      }
    } else if u :| ActiveMust(c, s, u, q, strict) {
      if u == t {
        WriteElsewhere(c, j, q);
      }
      assert ActiveMust(c, s', u, q, strict);
    }
  }

  lemma BeginOnTrack(c: Sync, s: State, s': State, t: int, q: Path, strict: bool)
    requires Begin(c, s, s', t) && OnTrack(c, s, q, strict)
    ensures OnTrack(c, s', q, strict)
  {
    if u :| ActiveMust(c, s, u, q, strict) {
      if u == t {
        BeginMust(c, s.active[t], q);
      }
      assert ActiveMust(c, s', u, q, strict);
    }
  }

  lemma AcceptOnTrack(c: Sync, s: State, s': State, q: Path, strict: bool)
    requires c.Valid() && JobsInv(c, s) && Accept(c, s, s') && OnTrack(c, s, q, strict)
    ensures OnTrack(c, s', q, strict)
  {
    var e := c.log[s.next];
    if u :| ActiveMust(c, s, u, q, strict) {
      assert JobOk(c, s, u);
      assert ActiveMust(c, s', u, q, strict);
    } else if k :| s.next <= k < |c.log| && c.MustTouch(k, q) {
      if k == s.next {
        assert c.Touches(k, 0, q);
        TakenMust(c, k, q);
        assert ActiveMust(c, s', e.ts, q, strict);
      }
    }
  }

  lemma FinishOnTrack(c: Sync, s: State, s': State, t: int, q: Path, strict: bool)
    requires Finish(c, s, s', t) && OnTrack(c, s, q, strict)
    ensures OnTrack(c, s', q, strict)
  {
    DoneOwesNothing(c, s.active[t], q);
    if u :| ActiveMust(c, s, u, q, strict) {
      assert ActiveMust(c, s', u, q, strict);
    }
  }

  lemma WorkOnTrack(c: Sync, s: State, s': State, q: Path, strict: bool)
    requires c.Valid() && JobsInv(c, s) && Work(c, s, s') && OnTrack(c, s, q, strict) && Right(c, q, strict)
    ensures OnTrack(c, s', q, strict)
  {
    if Accept(c, s, s') {
      AcceptOnTrack(c, s, s', q, strict);
    } else if t :| Exec(c, s, s', t) {
      ExecOnTrack(c, s, s', t, q, strict);
    } else if t :| Begin(c, s, s', t) {
      BeginOnTrack(c, s, s', t, q, strict);
    } else if t :| Finish(c, s, s', t) {
      FinishOnTrack(c, s, s', t, q, strict);
    } else if u :| ActiveMust(c, s, u, q, strict) {
      assert ActiveMust(c, s', u, q, strict);
    }
  }

  /** A new scheduler resumes at or before everything that has not finished. */
  lemma ResumesBefore(c: Sync, s: State, s': State)
    requires c.Valid() && JobsAndMarks(c, s) && Crash(c, s, s')
    ensures s'.next <= s.next && forall t <- s.active :: s'.next <= s.active[t].index
  {
    ResumeFacts(c.log, s.persisted);
    assert 0 < s'.next ==> c.log[s'.next - 1].ts <= s.watermark;
    forall t <- s.active ensures s'.next <= s.active[t].index {
      assert JobOk(c, s, t);
    }
  }

  lemma StartsOnTrack(c: Sync, q: Path, strict: bool)
    requires c.Valid() && UntouchedIsRight(c, q)
    ensures JobsAndMarks(c, Beginning(c)) && OnTrack(c, Beginning(c), q, strict)
  {
    StartInv(c, Beginning(c), {});
  }

  // ---------------------------------------------------------------------------------------
  // Enough: every run of one process
  // ---------------------------------------------------------------------------------------

  ghost predicate Kept(c: Sync, x: Process, q: Path) {
    forall k :: Opened(k) ==>
      JobsAndMarks(c, x.current) && (OnTrack(c, x.current, q, false) || AnyOldMust(c, x.earlier, q))
  }

  lemma LateWriteKept(c: Sync, x: Process, x': Process, j: Job, q: Path)
    requires LateWrite(c, x, x', j) && Kept(c, x, q) && AgreeingAt(c, q)
    ensures Kept(c, x', q)
  {
    assert Opened(0);
    SameButTarget(c, x.current, x'.current);
    var op := c.Plan(j.index, j.begun - 1)[j.done];
    var j' := j.(done := j.done + 1);
    OneWrite(op, x.current.target, q);
    if op.Touches(q) {
      if MustStill(c, j', q) {
        assert OldMust(c, x'.earlier, j', q);
      } else {
        WriteStays(c, j, q);
      }
    } else if o :| OldMust(c, x.earlier, o, q) {
      if o == j {
        WriteElsewhere(c, j, q);
        assert OldMust(c, x'.earlier, j', q);
      } else {
        assert OldMust(c, x'.earlier, o, q);
      }
    } else if t :| ActiveMust(c, x.current, t, q, false) {
      assert ActiveMust(c, x'.current, t, q, false);
    }
  }

  lemma SameButTarget(c: Sync, s: State, s': State)
    requires JobsAndMarks(c, s) && s' == s.(target := s'.target)
    ensures JobsAndMarks(c, s')
  {
    forall t <- s'.active ensures JobOk(c, s', t) {
      assert JobOk(c, s, t);
    }
    SameJobs(c, s, s');
  }

  lemma LateBeginKept(c: Sync, x: Process, x': Process, j: Job, q: Path)
    requires LateBegin(c, x, x', j) && Kept(c, x, q)
    ensures Kept(c, x', q)
  {
    assert Opened(0);
    if o :| OldMust(c, x.earlier, o, q) {
      if o == j {
        BeginMust(c, j, q);
        assert OldMust(c, x'.earlier, j.(begun := j.begun + 1, done := 0), q);
      } else {
        assert OldMust(c, x'.earlier, o, q);
      }
    }
  }

  lemma LateEndKept(c: Sync, x: Process, x': Process, j: Job, q: Path)
    requires LateEnd(c, x, x', j) && Kept(c, x, q)
    ensures Kept(c, x', q)
  {
    assert Opened(0);
    DoneOwesNothing(c, j, q);
    if o :| OldMust(c, x.earlier, o, q) {
      assert OldMust(c, x'.earlier, o, q);
    }
  }

  lemma ReconnectKept(c: Sync, x: Process, x': Process, q: Path)
    requires c.Valid() && Reconnect(c, x, x') && Kept(c, x, q)
    ensures Kept(c, x', q)
  {
    assert Opened(0);
    CrashKeeps(c, x.current, x'.current);
    ResumesBefore(c, x.current, x'.current);
    if o :| OldMust(c, x.earlier, o, q) {
      assert OldMust(c, x'.earlier, o, q);
    } else if t :| ActiveMust(c, x.current, t, q, false) {
      assert x.current.active[t] in JobsOf(x.current);
      assert OldMust(c, x'.earlier, x.current.active[t], q);
    }
  }

  lemma WorkKept(c: Sync, x: Process, x': Process, q: Path)
    requires c.Valid() && Work(c, x.current, x'.current) && x'.earlier == x.earlier && Kept(c, x, q) && AgreeingAt(c, q)
    ensures Kept(c, x', q)
  {
    assert Opened(0);
    StepKeeps(c, x.current, x'.current);
    if OnTrack(c, x.current, q, false) {
      WorkOnTrack(c, x.current, x'.current, q, false);
    }
  }

  lemma StreamStepKept(c: Sync, x: Process, x': Process, q: Path)
    requires c.Valid() && StreamStep(c, x, x') && Kept(c, x, q) && AgreeingAt(c, q)
    ensures Kept(c, x', q)
  {
    if Work(c, x.current, x'.current) && x'.earlier == x.earlier {
      WorkKept(c, x, x', q);
    } else if Reconnect(c, x, x') {
      ReconnectKept(c, x, x', q);
    } else if j :| LateWrite(c, x, x', j) {
      LateWriteKept(c, x, x', j, q);
    } else if j :| LateBegin(c, x, x', j) {
      LateBeginKept(c, x, x', j, q);
    } else {
      var j :| LateEnd(c, x, x', j);
      LateEndKept(c, x, x', j, q);
    }
  }

  lemma StreamKept(c: Sync, run: seq<Process>, k: nat, q: Path)
    requires c.Valid() && AgreeingAt(c, q) && StreamRun(c, run) && k < |run|
    ensures Kept(c, run[k], q)
  {
    var inv := (x: Process) => Kept(c, x, q);
    StartsOnTrack(c, q, false);
    forall x, y | inv(x) && StreamStepsOf(c)(x, y) ensures inv(y) {
      StreamStepKept(c, x, y, q);
    }
    KeptAlong(StreamStepsOf(c), inv, run, k);
  }

  lemma KeptAllDone(c: Sync, x: Process, q: Path)
    requires Kept(c, x, q) && AllDone(c, x)
    ensures Lookup(x.current.target, q) == Lookup(c.Sequential(|c.log|), q)
  {
    assert Opened(0);
  }

  lemma AgreeingSurvives(c: Sync, run: seq<Process>)
    requires c.Valid() && Agreeing(c) && StreamRun(c, run) && AllDone(c, run[|run|-1])
    ensures run[|run|-1].current.target == c.Sequential(|c.log|)
  {
    var x := run[|run|-1];
    forall q ensures Lookup(x.current.target, q) == Lookup(c.Sequential(|c.log|), q) {
      assert AgreeingAt(c, q);
      StreamKept(c, run, |run| - 1, q);
      KeptAllDone(c, x, q);
    }
    SameLookups(x.current.target, c.Sequential(|c.log|));
  }

  // ---------------------------------------------------------------------------------------
  // Enough: with restarts of the process
  // ---------------------------------------------------------------------------------------

  ghost predicate KeptByCurrent(c: Sync, x: Process, q: Path) {
    forall k :: Opened(k) ==> JobsAndMarks(c, x.current) && OnTrack(c, x.current, q, true)
  }

  lemma LateWriteOnTrack(c: Sync, x: Process, x': Process, j: Job, q: Path)
    requires AtOnceAt(c, q) && LateWrite(c, x, x', j) && OnTrack(c, x.current, q, true)
    ensures OnTrack(c, x'.current, q, true)
  {
    var op := c.Plan(j.index, j.begun - 1)[j.done];
    OneWrite(op, x.current.target, q);
    if op.Touches(q) {
      assert c.WriteTo(j.index, j.begun - 1, op, q);
    } else if t :| ActiveMust(c, x.current, t, q, true) {
      assert ActiveMust(c, x'.current, t, q, true);
    }
  }

  /** A new process takes up again what has to be written and has not been. */
  lemma CrashOnTrack(c: Sync, s: State, s': State, q: Path)
    requires c.Valid() && JobsAndMarks(c, s) && Crash(c, s, s') && OnTrack(c, s, q, true)
    ensures OnTrack(c, s', q, true)
  {
    ResumesBefore(c, s, s');
  }

  lemma ProcessStepKept(c: Sync, x: Process, x': Process, q: Path)
    requires c.Valid() && AtOnceAt(c, q) && ProcessStep(c, x, x') && KeptByCurrent(c, x, q)
    ensures KeptByCurrent(c, x', q)
  {
    assert Opened(0);
    if Work(c, x.current, x'.current) {
      StepKeeps(c, x.current, x'.current);
      WorkOnTrack(c, x.current, x'.current, q, true);
    } else if Crash(c, x.current, x'.current) {
      CrashKeeps(c, x.current, x'.current);
      CrashOnTrack(c, x.current, x'.current, q);
    } else if j :| LateWrite(c, x, x', j) {
      SameButTarget(c, x.current, x'.current);
      LateWriteOnTrack(c, x, x', j, q);
    }
  }

  lemma ProcessKept(c: Sync, run: seq<Process>, k: nat, q: Path)
    requires c.Valid() && AtOnceAt(c, q) && ProcessRun(c, run) && k < |run|
    ensures KeptByCurrent(c, run[k], q)
  {
    var inv := (x: Process) => KeptByCurrent(c, x, q);
    StartsOnTrack(c, q, true);
    forall x, y | inv(x) && ProcessStepsOf(c)(x, y) ensures inv(y) {
      ProcessStepKept(c, x, y, q);
    }
    KeptAlong(ProcessStepsOf(c), inv, run, k);
  }

  lemma CurrentAllDone(c: Sync, x: Process, q: Path)
    requires KeptByCurrent(c, x, q) && Drained(c, x.current)
    ensures Lookup(x.current.target, q) == Lookup(c.Sequential(|c.log|), q)
  {
    assert Opened(0);
  }

  lemma AgreeingAtOnceSurvives(c: Sync, run: seq<Process>)
    requires c.Valid() && AgreeingAtOnce(c) && ProcessRun(c, run) && AllDone(c, run[|run|-1])
    ensures run[|run|-1].current.target == c.Sequential(|c.log|)
  {
    var x := run[|run|-1];
    forall q ensures Lookup(x.current.target, q) == Lookup(c.Sequential(|c.log|), q) {
      assert AtOnceAt(c, q);
      ProcessKept(c, run, |run| - 1, q);
      CurrentAllDone(c, x, q);
    }
    SameLookups(x.current.target, c.Sequential(|c.log|));
  }
}
