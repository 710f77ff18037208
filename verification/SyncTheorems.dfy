/**
 What the sync guarantees over all runs: the watermark is sound, and in a run that has drained
 the log the target is, across any number of crashes, what applying the events one by one would
 give, provided no event can outlast a later one that writes the same place differently.
 */
module SyncTheorems {
  import opened AbsoluteWrites
  import opened SyncEvents
  import opened Reachability
  import opened SyncScheduler
  import opened SyncInvariants

  // ---------------------------------------------------------------------------------------
  // The sequential outcome
  // ---------------------------------------------------------------------------------------

  ghost predicate TouchedBetween(c: Sync, lo: nat, hi: nat, q: Path)
    requires hi <= |c.log|
  {
    exists i :: lo <= i < hi && c.EventTouches(i, q)
  }

  lemma {:induction false} LastBetween(c: Sync, lo: nat, hi: nat, q: Path) returns (j: nat)
    requires hi <= |c.log| && TouchedBetween(c, lo, hi, q)
    ensures lo <= j < hi && c.EventTouches(j, q) && !TouchedBetween(c, j + 1, hi, q)
  {
    if c.EventTouches(hi - 1, q) {
      j := hi - 1;
    } else {
      var i :| lo <= i < hi && c.EventTouches(i, q);
      assert i < hi - 1;
      j := LastBetween(c, lo, hi - 1, q);
      forall k | j + 1 <= k < hi ensures !c.EventTouches(k, q) {
        assert k < hi - 1 ==> !c.EventTouches(k, q);
      }
    }
  }

  /** Events that do not write `q` change nothing there. */
  lemma {:induction false} QuietStretch(c: Sync, lo: nat, hi: nat, q: Path)
    requires lo <= hi <= |c.log| && !TouchedBetween(c, lo, hi, q)
    ensures LastTouch(c.AllWrites(hi), q) == LastTouch(c.AllWrites(lo), q)
  {
    if lo < hi {
      assert !c.EventTouches(hi - 1, q);
      QuietStretch(c, lo, hi - 1, q);
      LastTouchConcat(c.AllWrites(hi - 1), c.WritesOf(hi - 1), q);
    }
  }

  lemma SequentialAt(c: Sync, j: nat, n: nat, q: Path)
    requires j < n <= |c.log| && c.EventTouches(j, q) && !TouchedBetween(c, j + 1, n, q)
    ensures Lookup(c.Sequential(n), q) == Left(c.WritesOf(j), q)
  {
    QuietStretch(c, j + 1, n, q);
    LastTouchConcat(c.AllWrites(j), c.WritesOf(j), q);
    assert c.AllWrites(j + 1) == c.AllWrites(j) + c.WritesOf(j);
    SequentialLookup(c, n, q);
  }

  lemma {:induction false} SequentialLookup(c: Sync, n: nat, q: Path)
    requires n <= |c.log|
    ensures LastTouch(c.AllWrites(n), q).Some? ==> Lookup(c.Sequential(n), q) == LastTouch(c.AllWrites(n), q).value.Leaves()
    ensures LastTouch(c.AllWrites(n), q).None? ==> Lookup(c.Sequential(n), q) == Lookup(c.initial, q)
  {
    LastWriteDecides(c.AllWrites(n), c.initial, q);
  }

  lemma SequentialQuiet(c: Sync, lo: nat, hi: nat, q: Path)
    requires lo <= hi <= |c.log| && !TouchedBetween(c, lo, hi, q)
    ensures Lookup(c.Sequential(hi), q) == Lookup(c.Sequential(lo), q)
  {
    QuietStretch(c, lo, hi, q);
    SequentialLookup(c, lo, q);
    SequentialLookup(c, hi, q);
  }

  // ---------------------------------------------------------------------------------------
  // Finished events have settled
  // ---------------------------------------------------------------------------------------

  /** The events from the resume point up to `b` have been accepted and have finished. */
  predicate FinishedUpTo(c: Sync, s: State, b: nat) {
    s.base <= b <= s.next <= |c.log| && forall i :: s.base <= i < b ==> c.log[i].ts !in s.active
  }

  lemma TraceTouch(c: Sync, s: State, n: nat, q: Path)
    requires TraceInv(c, s) && n < |s.trace| && s.trace[n].op.Touches(q)
    ensures s.base <= s.trace[n].index < s.next <= |c.log|
    ensures c.WriteTo(s.trace[n].index, s.trace[n].attempt, s.trace[n].op, q)
  {
    assert s.trace[n] in s.trace;
    assert TraceOk(c, s, s.trace[n]);
  }

  /** An event that has to write to a spared path is not among the lost ones. */
  lemma MustNotLost(c: Sync, k: nat, q: Path, lost: set<nat>)
    requires c.Valid() && k < |c.log| && c.MustTouch(k, q) && c.Spared(lost, q)
    ensures k !in lost
  {
    assert c.Touches(k, 0, q);
    LastTouchFacts(c.Plan(k, 0), q);
    assert c.WriteTo(k, 0, LastTouch(c.Plan(k, 0), q).value, q);
  }

  /** A finished event that has to write to `q` has left a write there in the history. */
  lemma FinishedHasWritten(c: Sync, s: State, k: nat, q: Path) returns (m: nat)
    requires s.base <= k < s.next <= |c.log| && AttemptOk(c, s, k) && c.log[k].ts !in s.active && c.MustTouch(k, q)
    ensures m < |s.trace| && s.trace[m].index == k && s.trace[m].op.Touches(q)
  {
    var b :| CompleteAfter(c, Own(s.trace, k), k, b);
    var w := MustHasWritten(c, Own(s.trace, k), k, b, q);
    OwnInTrace(s.trace, k, w);
    m :| m < |s.trace| && s.trace[m] == w;
  }

  lemma {:induction false} TargetAt(c: Sync, s: State, q: Path)
    requires s.target == ApplyAll(OpsOf(s.trace), s.start)
    ensures Lookup(s.target, q) == if LastTouch(OpsOf(s.trace), q).Some? then LastTouch(OpsOf(s.trace), q).value.Leaves() else Lookup(s.start, q)
  {
    LastWriteDecides(OpsOf(s.trace), s.start, q);
  }

  /** If the history has no write to `q`, no finished event had to make one. */
  lemma {:induction false} SettleQuiet(c: Sync, s: State, b: nat, q: Path, lost: set<nat>)
    requires c.Valid() && Inv(c, s, lost) && c.SafeAt(q) && c.Spared(lost, q) && FinishedUpTo(c, s, b)
    requires !c.MustTouchFrom(b, q) && LastTouch(OpsOf(s.trace), q).None?
    ensures Lookup(s.target, q) == c.Outcome(q)
  {
    if k :| s.base <= k < |c.log| && c.MustTouch(k, q) {
      NoneHadTo(c, s, b, k, q, lost);
    }
    TargetAt(c, s, q);
    assert SettledAt(c, s.start, s.base, q);
  }

  lemma {:induction false} NoneHadTo(c: Sync, s: State, b: nat, k: nat, q: Path, lost: set<nat>)
    requires c.Valid() && Inv(c, s, lost) && c.Spared(lost, q) && FinishedUpTo(c, s, b)
    requires !c.MustTouchFrom(b, q) && LastTouch(OpsOf(s.trace), q).None? && s.base <= k < |c.log|
    ensures !c.MustTouch(k, q)
  {
    if c.MustTouch(k, q) {
      MustNotLost(c, k, q, lost);
      var m := FinishedHasWritten(c, s, k, q);
      assert s.trace[m] in s.trace;
      OpInTrace(s.trace, s.trace[m].op);
      LastTouchFacts(OpsOf(s.trace), q);
    }
  }

  /** The last write in the history, if its event has finished: it can stay, and it comes after all
      later events that had to write there. */
  lemma SettleFinished(c: Sync, s: State, b: nat, q: Path, lost: set<nat>, n: nat)
    requires c.Valid() && Inv(c, s, lost) && c.Spared(lost, q) && FinishedUpTo(c, s, b) && !c.MustTouchFrom(b, q)
    requires LastAt(s.trace, q, n) && s.trace[n].index < b
    ensures c.CanStay(s.trace[n].index, s.trace[n].attempt, s.trace[n].op, q)
    ensures c.OutlastsRest(s.trace[n].index, s.trace[n].attempt, q)
  {
    TraceTouch(c, s, n, q);
    var w := s.trace[n];
    assert AttemptOk(c, s, w.index);
    var done :| CompleteAfter(c, Own(s.trace, w.index), w.index, done);
    var k := LastOfEvent(s.trace, q, n);
    LastCanStay(c, Own(s.trace, w.index), w.index, done, q, k);
    forall k | w.index < k < |c.log| && c.MustTouch(k, q) ensures c.Outlasts(w.index, k, w.attempt + 1) {
      Overtaken(c, s, b, q, lost, n, k);
    }
  }

  lemma {:induction false} Overtaken(c: Sync, s: State, b: nat, q: Path, lost: set<nat>, n: nat, k: nat)
    requires c.Valid() && Inv(c, s, lost) && c.Spared(lost, q) && FinishedUpTo(c, s, b) && !c.MustTouchFrom(b, q)
    requires LastAt(s.trace, q, n) && s.base <= s.trace[n].index < k < |c.log| && c.MustTouch(k, q)
    ensures c.Outlasts(s.trace[n].index, k, s.trace[n].attempt + 1)
  {
    MustNotLost(c, k, q, lost);
    assert k < b;
    assert AttemptOk(c, s, k);
    var m := FinishedHasWritten(c, s, k, q);
    assert m < n;
  }

  lemma {:induction false} SettleWritten(c: Sync, s: State, b: nat, q: Path, lost: set<nat>)
    requires c.Valid() && Inv(c, s, lost) && c.SafeAt(q) && c.Spared(lost, q) && FinishedUpTo(c, s, b)
    requires !c.MustTouchFrom(b, q) && LastTouch(OpsOf(s.trace), q).Some?
    ensures Lookup(s.target, q) == c.Outcome(q)
  {
    var n := LastInTrace(s.trace, q);
    TargetAt(c, s, q);
    TraceTouch(c, s, n, q);
    if s.trace[n].index < b {
      SettleFinished(c, s, b, q, lost, n);
    } else {
      assert !c.MustTouchFrom(s.trace[n].index, q);
    }
  }

  /** Where none of the rest of the log has to write, finished events have left the outcome. */
  lemma Settle(c: Sync, s: State, b: nat, q: Path, lost: set<nat>)
    requires c.Valid() && Inv(c, s, lost) && c.SafeAt(q) && c.Spared(lost, q) && FinishedUpTo(c, s, b)
    ensures SettledAt(c, s.target, b, q)
  {
    if !c.MustTouchFrom(b, q) {
      if LastTouch(OpsOf(s.trace), q).Some? {
        SettleWritten(c, s, b, q, lost);
      } else {
        SettleQuiet(c, s, b, q, lost);
      }
    }
  }

  // ---------------------------------------------------------------------------------------
  // Crashes, and whole runs
  // ---------------------------------------------------------------------------------------

  lemma {:induction false} ResumeFacts(log: seq<Event>, ts: int)
    requires forall i, j :: 0 <= i < j < |log| ==> log[i].ts < log[j].ts
    ensures forall i :: 0 <= i < Resume(log, ts) ==> log[i].ts <= ts
    ensures forall i :: Resume(log, ts) <= i < |log| ==> ts < log[i].ts
  {
    if log != [] {
      ResumeFacts(log[..|log|-1], ts);
    }
  }

  /** Everything before the point where a new process resumes has been accepted and has finished:
      nothing is skipped. */
  lemma NothingSkipped(c: Sync, s: State, s': State, lost: set<nat>)
    requires c.Valid() && Inv(c, s, lost) && Crash(c, s, s')
    ensures FinishedUpTo(c, s, s'.base)
    ensures forall i :: s.base <= i < s'.base && i !in lost ==> Completed(c, s, i)
  {
    ResumeFinished(c, s, s');
    forall i | s.base <= i < s'.base && i !in lost ensures Completed(c, s, i) {
      assert AttemptOk(c, s, i);
    }
  }

  lemma ResumeFinished(c: Sync, s: State, s': State)
    requires c.Valid() && JobsInv(c, s) && MarkInv(c, s) && Crash(c, s, s')
    ensures FinishedUpTo(c, s, s'.base)
  {
    ResumeFacts(c.log, s.persisted);
    assert s'.base < |c.log| ==> s.persisted < c.log[s'.base].ts;
    assert 0 < s'.base ==> c.log[s'.base - 1].ts <= s.watermark;
  }

  lemma CrashInv(c: Sync, s: State, s': State, lost: set<nat>)
    requires c.Valid() && Inv(c, s, lost) && Crash(c, s, s')
    ensures Inv(c, s', lost)
  {
    ResumeFacts(c.log, s.persisted);
    NothingSkipped(c, s, s', lost);
    forall q | c.SafeAt(q) && c.Spared(lost, q) ensures SettledAt(c, s'.start, s'.base, q) {
      Settle(c, s, s'.base, q, lost);
    }
  }

  lemma StepInv(c: Sync, s: State, s': State, lost: set<nat>)
    requires c.Valid() && Inv(c, s, lost) && Step(c, s, s')
    ensures Inv(c, s', lost) && s.persisted <= s'.persisted
    ensures s.watermark <= s'.watermark || Crash(c, s, s')
  {
    if Accept(c, s, s') {
      AcceptInv(c, s, s', lost);
    } else if t :| Exec(c, s, s', t) {
      ExecInv(c, s, s', t, lost);
    } else if t :| Begin(c, s, s', t) {
      BeginInv(c, s, s', t, lost);
    } else if t :| Finish(c, s, s', t) {
      LeaveInv(c, s, s', t, lost);
    } else if Checkpoint(s, s') {
      CheckpointInv(c, s, s', lost);
    } else {
      CrashInv(c, s, s', lost);
    }
  }

  lemma {:induction false} RunInv(c: Sync, run: seq<State>, k: nat)
    requires c.Valid() && Run(c, run) && k < |run|
    ensures Inv(c, run[k], {})
  {
    if k == 0 {
      StartInv(c, run[0], {});
    } else {
      RunInv(c, run, k - 1);
      assert StepAt(StepsOf(c), run, k - 1);
      StepInv(c, run[k-1], run[k], {});
    }
  }

  /** Each event at or below the watermark has been accepted and has finished, every running
      event is above it, at most `limit` events run, and each can outlast those accepted after it. */
  ghost predicate Sound(c: Sync, s: State) {
    && s.next <= |c.log| && |s.active| <= c.limit
    && (forall i :: 0 <= i < |c.log| && c.log[i].ts <= s.watermark ==> i < s.next && c.log[i].ts !in s.active)
    && (forall t <- s.active :: s.watermark < t && JobOk(c, s, t))
    && (forall t <- s.active, u <- s.active :: t < u ==>
          s.active[t].index < s.active[u].index < |c.log| &&
          c.Outlasts(s.active[t].index, s.active[u].index, s.active[t].begun))
  }

  lemma {:induction false} NoneHadToWait(c: Sync, s: State, t: int, u: int)
    requires c.Valid() && JobsInv(c, s) && WaitInv(c, s) && t in s.active && u in s.active && t < u
    ensures JobOk(c, s, t) && JobOk(c, s, u) && s.active[t].index < s.active[u].index
    ensures c.Outlasts(s.active[t].index, s.active[u].index, s.active[t].begun)
  {
  }

  lemma InvIsSound(c: Sync, s: State)
    requires c.Valid() && JobsInv(c, s) && WaitInv(c, s) && MarkInv(c, s)
    ensures Sound(c, s)
  {
    forall t <- s.active ensures s.watermark < t && JobOk(c, s, t) {
      assert JobOk(c, s, t);
    }
    forall t <- s.active, u <- s.active | t < u
      ensures s.active[t].index < s.active[u].index < |c.log|
      ensures c.Outlasts(s.active[t].index, s.active[u].index, s.active[t].begun)
    {
      NoneHadToWait(c, s, t, u);
    }
  }

  /** Every reachable state is sound. */
  lemma WatermarkIsSound(c: Sync, run: seq<State>, k: nat)
    requires c.Valid() && Run(c, run) && k < |run|
    ensures Sound(c, run[k])
  {
    RunInv(c, run, k);
    InvIsSound(c, run[k]);
  }

  /** What is persisted never decreases over a run, and the watermark only at a restart. */
  lemma MarksAdvance(c: Sync, run: seq<State>, k: nat)
    requires c.Valid() && Run(c, run) && k < |run| - 1
    ensures run[k].persisted <= run[k+1].persisted
    ensures run[k].watermark <= run[k+1].watermark || Crash(c, run[k], run[k+1])
  {
    RunInv(c, run, k);
    assert StepAt(StepsOf(c), run, k);
    StepInv(c, run[k], run[k+1], {});
  }

  /** Whatever the interleaving, the retries and the crashes: once the log is drained, the target
      is what applying all events one by one in arrival order gives. */
  lemma SerializableIfSafe(c: Sync, run: seq<State>)
    requires c.Valid() && c.Safe() && Run(c, run) && Drained(c, run[|run|-1])
    ensures run[|run|-1].target == c.Sequential(|c.log|)
  {
    var s := run[|run|-1];
    RunInv(c, run, |run| - 1);
    forall q ensures Lookup(s.target, q) == Lookup(c.Sequential(|c.log|), q) {
      Settle(c, s, |c.log|, q, {});
    }
    SameLookups(s.target, c.Sequential(|c.log|));
  }
}
