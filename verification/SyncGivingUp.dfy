/**
 A job whose writes keep failing is logged and dropped after its retries, like one that has
 finished (weed/command/filer_sync_jobs.go). What the watermark then still means, which paths
 are still right, and when the whole outcome is.
 */
module SyncGivingUp {
  import opened Curtains
  import opened FileChunks
  import opened AbsoluteWrites
  import opened SyncEvents
  import opened Reachability
  import opened SyncScheduler
  import opened SyncInvariants
  import opened SyncTheorems
  import opened SyncNecessity
  import opened SyncSerializability

  /** A step of the system, or a job that leaves whatever it has written. */
  ghost predicate StepOrGiveUp(c: Sync, s: State, s': State) {
    Step(c, s, s') || exists t :: Leave(s, s', t)
  }

  ghost function AllStepsOf(c: Sync): (State, State) -> bool {
    (s: State, s': State) => StepOrGiveUp(c, s, s')
  }

  ghost predicate AnyRun(c: Sync, run: seq<State>) {
    Chain(AllStepsOf(c), run) && Start(c, run[0])
  }

  ghost predicate JobsAndMarks(c: Sync, s: State) {
    JobsInv(c, s) && WaitInv(c, s) && MarkInv(c, s)
  }

  lemma AcceptKeeps(c: Sync, s: State, s': State)
    requires c.Valid() && JobsAndMarks(c, s) && Accept(c, s, s')
    ensures JobsAndMarks(c, s')
  {
    AcceptJobs(c, s, s');
    AcceptWaits(c, s, s');
    AcceptMark(c, s, s');
  }

  lemma CheckpointKeeps(c: Sync, s: State, s': State)
    requires c.Valid() && JobsAndMarks(c, s) && Checkpoint(s, s')
    ensures JobsAndMarks(c, s')
  {
  }

  lemma CrashKeeps(c: Sync, s: State, s': State)
    requires c.Valid() && JobsAndMarks(c, s) && Crash(c, s, s')
    ensures JobsAndMarks(c, s')
  {
    ResumeFacts(c.log, s.persisted);
  }

  lemma StepKeeps(c: Sync, s: State, s': State)
    requires c.Valid() && JobsAndMarks(c, s) && StepOrGiveUp(c, s, s')
    ensures JobsAndMarks(c, s')
  {
    if t :| Leave(s, s', t) {
      LeaveJobs(c, s, s', t);
    } else if Accept(c, s, s') {
      AcceptKeeps(c, s, s');
    } else if t :| Exec(c, s, s', t) {
      ExecJobs(c, s, s', t);
    } else if t :| Begin(c, s, s', t) {
      BeginJobs(c, s, s', t);
    } else if Checkpoint(s, s') {
      CheckpointKeeps(c, s, s');
    } else {
      CrashKeeps(c, s, s');
    }
  }

  lemma AnyRunKeeps(c: Sync, run: seq<State>, k: nat)
    requires c.Valid() && AnyRun(c, run) && k < |run|
    ensures JobsAndMarks(c, run[k])
  {
    var inv := (s: State) => JobsAndMarks(c, s);
    StartInv(c, run[0], {});
    forall s, s' | inv(s) && AllStepsOf(c)(s, s') ensures inv(s') {
      StepKeeps(c, s, s');
    }
    KeptAlong(AllStepsOf(c), inv, run, k);
  }

  /** The watermark stays sound in the sense that every event at or below it has been accepted and
      has left, and so do the limits on what runs together. */
  lemma AnyRunIsSound(c: Sync, run: seq<State>, k: nat)
    requires c.Valid() && AnyRun(c, run) && k < |run|
    ensures Sound(c, run[k])
  {
    AnyRunKeeps(c, run, k);
    InvIsSound(c, run[k]);
  }

  // ---------------------------------------------------------------------------------------
  // The damage is confined to what the lost events write
  // ---------------------------------------------------------------------------------------

  /** At the `k`-th step a job of event `i` leaves with some of its writes not made. */
  ghost predicate GivenUpAt(c: Sync, run: seq<State>, k: nat, i: nat)
    requires k < |run| - 1
  {
    exists t :: Leave(run[k], run[k+1], t) && run[k].active[t].index == i && !HasDone(c, run[k].active[t])
  }

  ghost predicate GivenUp(c: Sync, run: seq<State>, i: nat) {
    exists k :: 0 <= k < |run| - 1 && GivenUpAt(c, run, k, i)
  }

  /** The events of which some job was given up. */
  ghost function Lost(c: Sync, run: seq<State>): set<nat> {
    set i: nat | i < |c.log| && GivenUp(c, run, i)
  }

  /** A step in which only jobs of the events in `lost` are given up. */
  ghost predicate StepLosing(c: Sync, lost: set<nat>, s: State, s': State) {
    Step(c, s, s') || exists t :: Leave(s, s', t) && s.active[t].index in lost
  }

  ghost function StepsLosing(c: Sync, lost: set<nat>): (State, State) -> bool {
    (s: State, s': State) => StepLosing(c, lost, s, s')
  }

  ghost predicate StaysInv(c: Sync, s: State, lost: set<nat>) {
    forall k :: Opened(k) ==> Inv(c, s, lost)
  }

  lemma LosingStepInv(c: Sync, lost: set<nat>, s: State, s': State)
    requires c.Valid() && StepLosing(c, lost, s, s') && StaysInv(c, s, lost)
    ensures StaysInv(c, s', lost)
  {
    assert Opened(0);
    if Step(c, s, s') {
      StepInv(c, s, s', lost);
    } else {
      var t :| Leave(s, s', t) && s.active[t].index in lost;
      LeaveInv(c, s, s', t, lost);
    }
  }

  lemma LosingRunInv(c: Sync, lost: set<nat>, run: seq<State>, k: nat)
    requires c.Valid() && Chain(StepsLosing(c, lost), run) && Start(c, run[0]) && k < |run|
    ensures StaysInv(c, run[k], lost)
  {
    var inv := (s: State) => StaysInv(c, s, lost);
    StartInv(c, run[0], lost);
    forall s, s' | inv(s) && StepsLosing(c, lost)(s, s') ensures inv(s') {
      LosingStepInv(c, lost, s, s');
    }
    KeptAlong(StepsLosing(c, lost), inv, run, k);
  }

  lemma LosesOnlyLost(c: Sync, run: seq<State>, k: nat)
    requires c.Valid() && AnyRun(c, run) && k < |run| - 1
    ensures StepLosing(c, Lost(c, run), run[k], run[k+1])
  {
    AnyRunKeeps(c, run, k);
    assert StepAt(AllStepsOf(c), run, k);
    if !Step(c, run[k], run[k+1]) {
      var t :| Leave(run[k], run[k+1], t);
      LeaverIsLost(c, run, k, t);
    }
  }

  lemma LeaverIsLost(c: Sync, run: seq<State>, k: nat, t: int)
    requires k < |run| - 1 && JobsInv(c, run[k]) && Leave(run[k], run[k+1], t) && !Step(c, run[k], run[k+1])
    ensures run[k].active[t].index in Lost(c, run)
  {
    assert JobOk(c, run[k], t);
    assert !Finish(c, run[k], run[k+1], t);
    assert GivenUpAt(c, run, k, run[k].active[t].index);
    assert GivenUp(c, run, run[k].active[t].index);
  }

  lemma AnyRunLosesLost(c: Sync, run: seq<State>)
    requires c.Valid() && AnyRun(c, run)
    ensures Chain(StepsLosing(c, Lost(c, run)), run)
  {
    forall k | 0 <= k < |run| - 1 ensures StepAt(StepsLosing(c, Lost(c, run)), run, k) {
      LosesOnlyLost(c, run, k);
    }
  }

  /** Whatever is given up: once the log is drained, a safe path that no lost event writes to
      holds what applying all events in order leaves there. */
  lemma Confinement(c: Sync, run: seq<State>, q: Path)
    requires c.Valid() && AnyRun(c, run) && Drained(c, run[|run|-1])
    requires c.SafeAt(q) && c.Spared(Lost(c, run), q)
    ensures Lookup(run[|run|-1].target, q) == Lookup(c.Sequential(|c.log|), q)
  {
    AnyRunLosesLost(c, run);
    LosingRunInv(c, Lost(c, run), run, |run| - 1);
    assert Opened(0);
    Settle(c, run[|run|-1], |c.log|, q, Lost(c, run));
  }

  /** In a sync of files between directories of the same path every path is safe. */
  lemma FilesAreConfined(c: Sync, route: Route, run: seq<State>, q: Path)
    requires c.Valid() && Filers(c, route) && OnlyFiles(c.log) && Unmoved(c)
    requires AnyRun(c, run) && Drained(c, run[|run|-1]) && c.Spared(Lost(c, run), q)
    ensures Lookup(run[|run|-1].target, q) == Lookup(c.Sequential(|c.log|), q)
  {
    FilesDoNotClash(c.log);
    NoClashIsSafe(c, route);
    Confinement(c, run, q);
  }

  // ---------------------------------------------------------------------------------------
  // Runs that drop everything, or everything but the first writes of one event
  // ---------------------------------------------------------------------------------------

  ghost predicate Passes(c: Sync, s: State, s': State) {
    forall k :: Opened(k) ==> Reachable(AllStepsOf(c), s, s')
  }

  lemma PassesOn(c: Sync, s: State, s': State, s'': State)
    requires Passes(c, s, s') && Passes(c, s', s'')
    ensures Passes(c, s, s'')
  {
    assert Opened(0);
    ReachesTrans(AllStepsOf(c), s, s', s'');
  }

  lemma PassesByStep(c: Sync, s: State, s': State)
    requires StepOrGiveUp(c, s, s')
    ensures Passes(c, s, s')
  {
    ReachesSelf(AllStepsOf(c), s);
    ReachesStep(AllStepsOf(c), s, s, s');
  }

  lemma PassesByWork(c: Sync, s: State, s': State)
    requires Reaches(c, s, s')
    ensures Passes(c, s, s')
  {
    assert Opened(0);
    ReachesMore(WorkOf(c), AllStepsOf(c), s, s');
  }

  /** The next event is accepted, makes the first `n` writes of attempt `a` and is dropped. */
  lemma DropAfter(c: Sync, s: State, a: nat, n: nat) returns (s': State)
    requires c.Valid() && 1 <= c.limit && s.next < |c.log| && s.active == map[]
    requires a < c.attempts && n <= |c.Plan(s.next, a)|
    ensures Passes(c, s, s') && s'.next == s.next + 1 && s'.active == map[]
    ensures s'.target == ApplyAll(c.Plan(s.next, a)[..n], s.target)
    ensures s'.watermark == if c.log[s.next].IsEmpty() then s.watermark else c.log[s.next].ts
  {
    var e := c.log[s.next];
    var taken := AcceptNext(c, s, None);
    PassesByStep(c, s, taken);
    if e.IsEmpty() {
      s' := taken;
      assert c.Plan(s.next, a)[..n] == [];
    } else {
      s' := DropTaken(c, taken, s.next, a, n);
      PassesOn(c, s, taken, s');
    }
  }

  lemma DropTaken(c: Sync, taken: State, i: nat, a: nat, n: nat) returns (s': State)
    requires i < |c.log| && a < c.attempts && n <= |c.Plan(i, a)| && taken.active == map[c.log[i].ts := Job(i, 0, 0)]
    ensures Passes(c, taken, s') && s'.next == taken.next && s'.active == map[] && s'.watermark == c.log[i].ts
    ensures s'.target == ApplyAll(c.Plan(i, a)[..n], taken.target)
  {
    var ts := c.log[i].ts;
    var some := TryUpTo(c, taken, ts, a, n);
    PassesByWork(c, taken, some);
    s' := some.(active := map[], watermark := ts);
    assert some.active - {ts} == map[];
    assert Leave(some, s', ts);
    PassesByStep(c, some, s');
    PassesOn(c, taken, some, s');
  }

  /** All events up to `hi` are dropped with nothing written. */
  lemma {:induction false} DropUpTo(c: Sync, s: State, hi: nat) returns (s': State)
    requires c.Valid() && 1 <= c.limit && s.next <= hi <= |c.log| && s.active == map[]
    ensures Passes(c, s, s') && s'.next == hi && s'.active == map[] && s'.target == s.target
    ensures Marked(c, s.next, hi, s'.watermark)
    decreases hi
  {
    if hi == s.next {
      s' := s;
      ReachesSelf(AllStepsOf(c), s);
    } else {
      var mid := DropUpTo(c, s, hi - 1);
      s' := DropAfter(c, mid, 0, 0);
      assert c.Plan(hi - 1, 0)[..0] == [];
      MarkedMore(c, s.next, hi - 1, mid.watermark, s'.watermark);
      PassesOn(c, s, mid, s');
    }
  }

  lemma RunOf(c: Sync, s: State) returns (run: seq<State>)
    requires Passes(c, Beginning(c), s)
    ensures AnyRun(c, run) && run[|run|-1] == s
  {
    assert Opened(0);
    run :| Chain(AllStepsOf(c), run) && run[0] == Beginning(c) && run[|run|-1] == s;
  }

  /** Dropped events are lost for good: for every log, some run drains it, has its watermark past
      all its events, and leaves the target as it was. */
  lemma DroppedEventsAreLost(c: Sync) returns (run: seq<State>)
    requires c.Valid() && 1 <= c.limit
    ensures AnyRun(c, run)
    ensures var s := run[|run|-1];
            Drained(c, s) && s.target == c.initial && forall e <- c.log :: !e.IsEmpty() ==> e.ts <= s.watermark
  {
    var s := DropUpTo(c, Beginning(c), |c.log|);
    MarkedFacts(c, 0, |c.log|, s.watermark);
    run := RunOf(c, s);
  }

  /** ... and some run leaves there only the first `n` writes of attempt `a` at event `i`. */
  lemma OnlyTheFirstWrites(c: Sync, i: nat, a: nat, n: nat) returns (run: seq<State>)
    requires c.Valid() && 1 <= c.limit && i < |c.log| && a < c.attempts && n <= |c.Plan(i, a)|
    ensures AnyRun(c, run) && Drained(c, run[|run|-1])
    ensures run[|run|-1].target == ApplyAll(c.Plan(i, a)[..n], c.initial)
  {
    var before := DropUpTo(c, Beginning(c), i);
    var after := DropAfter(c, before, a, n);
    PassesOn(c, Beginning(c), before, after);
    var s := DropUpTo(c, after, |c.log|);
    PassesOn(c, Beginning(c), after, s);
    run := RunOf(c, s);
  }

  // ---------------------------------------------------------------------------------------
  // When giving up does no harm at all
  // ---------------------------------------------------------------------------------------

  /** Every write of every attempt at an event leaves what the target already had at the start. */
  ghost predicate Redundant(c: Sync) {
    forall i, a, op, q :: c.WriteTo(i, a, op, q) ==> op.Leaves() == Lookup(c.initial, q)
  }

  /** Every drained run, with jobs given up at will, gives the sequential outcome. */
  ghost predicate SurvivesGivingUp(c: Sync) {
    forall run: seq<State> :: AnyRun(c, run) && Drained(c, run[|run|-1]) ==> run[|run|-1].target == c.Sequential(|c.log|)
  }

  lemma RedundantWrite(c: Sync, i: nat, a: nat, op: Op)
    requires Redundant(c) && i < |c.log| && a < c.attempts && op in c.Plan(i, a)
    ensures op.Apply(c.initial) == c.initial
  {
    forall q ensures Lookup(op.Apply(c.initial), q) == Lookup(c.initial, q) {
      OneWrite(op, c.initial, q);
      assert op.Touches(q) ==> c.WriteTo(i, a, op, q);
    }
    SameLookups(op.Apply(c.initial), c.initial);
  }

  lemma {:induction false} RedundantWrites(c: Sync, i: nat, n: nat)
    requires c.Valid() && Redundant(c) && i < |c.log| && n <= |c.WritesOf(i)|
    ensures ApplyAll(c.WritesOf(i)[..n], c.initial) == c.initial
  {
    if n > 0 {
      RedundantWrites(c, i, n - 1);
      assert c.WritesOf(i)[..n][..n - 1] == c.WritesOf(i)[..n - 1];
      RedundantWrite(c, i, 0, c.WritesOf(i)[n - 1]);
    }
  }

  lemma {:induction false} RedundantLog(c: Sync, n: nat)
    requires c.Valid() && Redundant(c) && n <= |c.log|
    ensures c.Sequential(n) == c.initial
  {
    if n > 0 {
      RedundantLog(c, n - 1);
      var ws := c.WritesOf(n - 1);
      assert ws[..|ws|] == ws;
      RedundantWrites(c, n - 1, |ws|);
      ApplyConcat(c.AllWrites(n - 1), ws, c.initial);
    }
  }

  ghost predicate Unchanged(c: Sync, s: State) {
    JobsAndMarks(c, s) && s.target == c.initial
  }

  lemma RedundantExec(c: Sync, s: State, s': State, t: int)
    requires Redundant(c) && JobsInv(c, s) && s.target == c.initial && Exec(c, s, s', t)
    ensures s'.target == c.initial
  {
    assert JobOk(c, s, t);
    var Job(i, begun, done) := s.active[t];
    RedundantWrite(c, i, begun - 1, c.Plan(i, begun - 1)[done]);
  }

  /** Only a write changes the target. */
  lemma TargetKept(c: Sync, s: State, s': State)
    requires StepOrGiveUp(c, s, s') && forall t :: !Exec(c, s, s', t)
    ensures s'.target == s.target
  {
  }

  lemma RedundantStep(c: Sync, s: State, s': State)
    requires c.Valid() && Redundant(c) && Unchanged(c, s) && StepOrGiveUp(c, s, s')
    ensures Unchanged(c, s')
  {
    StepKeeps(c, s, s');
    if t :| Exec(c, s, s', t) {
      RedundantExec(c, s, s', t);
    } else {
      TargetKept(c, s, s');
    }
  }

  lemma RedundantRun(c: Sync, run: seq<State>, k: nat)
    requires c.Valid() && Redundant(c) && AnyRun(c, run) && k < |run|
    ensures run[k].target == c.initial
  {
    var inv := (s: State) => Unchanged(c, s);
    StartInv(c, run[0], {});
    forall s, s' | inv(s) && AllStepsOf(c)(s, s') ensures inv(s') {
      RedundantStep(c, s, s');
    }
    KeptAlong(AllStepsOf(c), inv, run, k);
  }

  /** An event that writes something new can end the run half done, and then its write shows or the
      sequential outcome does. */
  lemma {:induction false} NewWriteShows(c: Sync, i: nat, a: nat, op: Op, q: Path)
    requires c.Valid() && 1 <= c.limit && c.WriteTo(i, a, op, q) && op.Leaves() != Lookup(c.initial, q)
    ensures !SurvivesGivingUp(c)
  {
    var n :| 0 <= n < |c.Plan(i, a)| && c.Plan(i, a)[n] == op;
    var none := DroppedEventsAreLost(c);
    var some := OnlyTheFirstWrites(c, i, a, n + 1);
    LastIsWritten(c.Plan(i, a), n, c.initial, q);
    assert none[|none|-1].target != some[|some|-1].target;
  }

  /** Giving up is harmless, over all runs, if and only if every write is redundant. */
  lemma HarmlessIffRedundant(c: Sync)
    requires c.Valid() && 1 <= c.limit
    ensures SurvivesGivingUp(c) <==> Redundant(c)
  {
    if Redundant(c) {
      RedundantLog(c, |c.log|);
      forall run: seq<State> | AnyRun(c, run) && Drained(c, run[|run|-1]) ensures run[|run|-1].target == c.Sequential(|c.log|) {
        RedundantRun(c, run, |run| - 1);
      }
    } else {
      var i, a, op, q :| c.WriteTo(i, a, op, q) && op.Leaves() != Lookup(c.initial, q);
      NewWriteShows(c, i, a, op, q);
    }
  }
}
