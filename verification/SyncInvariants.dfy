/**
 The invariant of the sync step system. Its last two parts say what the history of writes
 looks like: an earlier event writes after a later one only if the scheduler allows it to
 outlast that one, and a finished event's last attempt was complete.
 */
module SyncInvariants {
  import opened FileChunks
  import opened AbsoluteWrites
  import opened SyncScheduler

  function OpsOf(trace: seq<Write>): seq<Op> {
    if trace == [] then [] else OpsOf(trace[..|trace|-1]) + [trace[|trace|-1].op]
  }

  /** The writes of one event. */
  function Own(trace: seq<Write>, i: nat): seq<Write> {
    if trace == [] then []
    else
      var w := trace[|trace|-1];
      Own(trace[..|trace|-1], i) + if w.index == i then [w] else []
  }

  /** The writes `ops` as attempt `a` at event `i` makes them. */
  function Stamped(i: nat, a: nat, ops: seq<Op>): (ws: seq<Write>)
    ensures |ws| == |ops| && forall k :: 0 <= k < |ops| ==> ws[k] == Write(i, a, ops[k])
  {
    seq(|ops|, k requires 0 <= k < |ops| => Write(i, a, ops[k]))
  }

  ghost predicate TraceOk(c: Sync, s: State, w: Write) {
    s.base <= w.index < s.next <= |c.log| && w.attempt < c.attempts && w.op in c.Plan(w.index, w.attempt)
  }

  ghost predicate TraceInv(c: Sync, s: State) {
    forall w <- s.trace :: TraceOk(c, s, w)
  }

  /** Whenever an earlier event writes after a later one, it was allowed to outlast it. */
  ghost predicate OrderInv(c: Sync, s: State)
    requires TraceInv(c, s)
  {
    forall m, n :: 0 <= m < n < |s.trace| && s.trace[n].index < s.trace[m].index ==>
      TraceOk(c, s, s.trace[m]) && TraceOk(c, s, s.trace[n]) &&
      c.Outlasts(s.trace[n].index, s.trace[m].index, s.trace[n].attempt + 1)
  }

  /** An event's writes, with `begun` attempts begun and `done` writes made by the last: those, and
      before them only writes of earlier attempts. */
  predicate Tried(c: Sync, own: seq<Write>, i: nat, begun: nat, done: nat)
    requires i < |c.log|
  {
    if begun == 0 then own == [] && done == 0
    else
      && done <= |c.Plan(i, begun - 1)| && done <= |own|
      && own[|own|-done..] == Stamped(i, begun - 1, c.Plan(i, begun - 1)[..done])
      && forall w <- own[..|own|-done] :: w.attempt < begun - 1
  }

  predicate CompleteAfter(c: Sync, own: seq<Write>, i: nat, b: nat)
    requires i < |c.log|
  {
    0 < b <= c.attempts && Tried(c, own, i, b, |c.Plan(i, b - 1)|)
  }

  /** Some attempt at the event made all its writes, and no later one has begun. */
  ghost predicate Completed(c: Sync, s: State, i: nat)
    requires i < |c.log|
  {
    exists b :: CompleteAfter(c, Own(s.trace, i), i, b)
  }

  ghost predicate AttemptOk(c: Sync, s: State, i: nat)
    requires i < |c.log|
  {
    var t := c.log[i].ts;
    if t in s.active then Tried(c, Own(s.trace, i), i, s.active[t].begun, s.active[t].done)
    else Completed(c, s, i)
  }

  ghost predicate AttemptInv(c: Sync, s: State, lost: set<nat>)
    requires s.next <= |c.log|
  {
    forall i :: s.base <= i < s.next && i !in lost ==> AttemptOk(c, s, i)
  }

  /** Where none of the rest of the log has to write, `m` already has the outcome. */
  ghost predicate SettledAt(c: Sync, m: Store, b: nat, q: Path) {
    !c.MustTouchFrom(b, q) ==> Lookup(m, q) == c.Outcome(q)
  }

  ghost predicate TargetInv(c: Sync, s: State, lost: set<nat>) {
    && s.target == ApplyAll(OpsOf(s.trace), s.start)
    && forall q :: c.SafeAt(q) && c.Spared(lost, q) ==> SettledAt(c, s.start, s.base, q)
  }

  ghost predicate Inv(c: Sync, s: State, lost: set<nat>) {
    && JobsInv(c, s) && WaitInv(c, s) && MarkInv(c, s)
    && TraceInv(c, s) && OrderInv(c, s) && AttemptInv(c, s, lost) && TargetInv(c, s, lost)
  }

  // ---------------------------------------------------------------------------------------
  // Steps that write nothing
  // ---------------------------------------------------------------------------------------

  lemma StartInv(c: Sync, s: State, lost: set<nat>)
    requires c.Valid() && Start(c, s)
    ensures Inv(c, s, lost)
  {
  }

  lemma AcceptInv(c: Sync, s: State, s': State, lost: set<nat>)
    requires c.Valid() && Inv(c, s, lost) && Accept(c, s, s')
    ensures Inv(c, s', lost)
  {
    AcceptJobs(c, s, s');
    AcceptWaits(c, s, s');
    AcceptMark(c, s, s');
    AcceptAttempts(c, s, s', lost);
    AcceptTrace(c, s, s', lost);
  }

  lemma AcceptJobs(c: Sync, s: State, s': State)
    requires c.Valid() && JobsInv(c, s) && Accept(c, s, s')
    ensures JobsInv(c, s')
  {
    var e := c.log[s.next];
    forall t <- s'.active ensures JobOk(c, s', t) {
      AcceptJob(c, s, s', t);
    }
    if !e.IsEmpty() {
      OneMoreJob(s.active, e.ts, Job(s.next, 0, 0));
    }
  }

  lemma AcceptJob(c: Sync, s: State, s': State, t: int)
    requires JobsInv(c, s) && Accept(c, s, s') && t in s'.active
    ensures JobOk(c, s', t)
  {
    assert t in s.active ==> JobOk(c, s, t);
  }

  lemma OneMoreJob(active: map<int, Job>, t: int, j: Job)
    ensures |active[t := j]| <= |active| + 1
  {
    assert active[t := j].Keys == active.Keys + {t};
  }

  lemma AcceptWaits(c: Sync, s: State, s': State)
    requires c.Valid() && JobsInv(c, s) && WaitInv(c, s) && Accept(c, s, s')
    ensures s'.next <= |c.log| && WaitInv(c, s')
  {
    forall t, k | t in s'.active && s'.active[t].index <= k < s'.next
      ensures c.Outlasts(s'.active[t].index, k, s'.active[t].begun)
    {
      if k == s.next && s'.active[t].index < k {
        AcceptOutlasted(c, s, s', t);
      }
    }
  }

  /** What is accepted does not have to wait for what is active. */
  lemma {:induction false} AcceptOutlasted(c: Sync, s: State, s': State, t: int)
    requires c.Valid() && JobsInv(c, s) && WaitInv(c, s) && Accept(c, s, s') && t in s'.active && s'.active[t].index < s.next
    ensures c.Outlasts(s'.active[t].index, s.next, s'.active[t].begun)
  {
    assert t in s.active && s'.active[t] == s.active[t];
    var e := c.log[s.next];
    assert |s.active| > 0;
    var i, r := s.active[t].index, s.active[t].begun;
    assert JobOk(c, s, t);
    assert !c.HasToWait(s.next, i, r) && c.Outlasts(i, s.next - 1, r);
  }

  lemma AcceptMark(c: Sync, s: State, s': State)
    requires c.Valid() && JobsInv(c, s) && MarkInv(c, s) && Accept(c, s, s')
    ensures s'.base <= |c.log| && MarkInv(c, s')
  {
  }

  lemma AcceptTrace(c: Sync, s: State, s': State, lost: set<nat>)
    requires JobsInv(c, s) && TraceInv(c, s) && OrderInv(c, s) && TargetInv(c, s, lost) && Accept(c, s, s')
    ensures s'.base <= |c.log| && TraceInv(c, s') && OrderInv(c, s') && TargetInv(c, s', lost)
  {
    forall w <- s'.trace ensures TraceOk(c, s', w) {
      assert TraceOk(c, s, w);
    }
    forall m, n | 0 <= m < n < |s'.trace| && s'.trace[n].index < s'.trace[m].index
      ensures TraceOk(c, s', s'.trace[m]) && TraceOk(c, s', s'.trace[n])
      ensures c.Outlasts(s'.trace[n].index, s'.trace[m].index, s'.trace[n].attempt + 1)
    {
      assert s'.trace[m] in s'.trace && s'.trace[n] in s'.trace;
    }
  }

  lemma AcceptAttempts(c: Sync, s: State, s': State, lost: set<nat>)
    requires c.Valid() && Accept(c, s, s') && JobsInv(c, s) && TraceInv(c, s) && AttemptInv(c, s, lost)
    ensures s'.next <= |c.log| && AttemptInv(c, s', lost)
  {
    forall i | s'.base <= i < s'.next && i !in lost ensures AttemptOk(c, s', i) {
      if i < s.next {
        assert AttemptOk(c, s, i);
      } else {
        NotYetWritten(s.trace, i);
        assert c.log[i].IsEmpty() ==> c.Plan(i, 0) == [] && CompleteAfter(c, [], i, 1);
      }
    }
  }

  lemma {:induction false} NotYetWritten(trace: seq<Write>, i: nat)
    requires forall w <- trace :: w.index < i
    ensures Own(trace, i) == []
  {
    if trace != [] {
      assert trace[|trace|-1] in trace;
      NotYetWritten(trace[..|trace|-1], i);
    }
  }

  /** The part of a state the history is about. */
  predicate SameHistory(s: State, s': State) {
    s.base == s'.base && s.next == s'.next && s.start == s'.start && s.target == s'.target && s.trace == s'.trace
  }

  lemma HistoryKept(c: Sync, s: State, s': State, lost: set<nat>)
    requires s.base <= |c.log| && TraceInv(c, s) && OrderInv(c, s) && TargetInv(c, s, lost) && SameHistory(s, s')
    ensures TraceInv(c, s') && OrderInv(c, s') && TargetInv(c, s', lost)
  {
    forall w <- s'.trace ensures TraceOk(c, s', w) {
      assert TraceOk(c, s, w);
    }
    forall m, n | 0 <= m < n < |s'.trace| && s'.trace[n].index < s'.trace[m].index
      ensures TraceOk(c, s', s'.trace[m]) && TraceOk(c, s', s'.trace[n])
      ensures c.Outlasts(s'.trace[n].index, s'.trace[m].index, s'.trace[n].attempt + 1)
    {
      assert s'.trace[m] in s'.trace && s'.trace[n] in s'.trace;
    }
  }

  lemma BeginInv(c: Sync, s: State, s': State, t: int, lost: set<nat>)
    requires c.Valid() && Inv(c, s, lost) && Begin(c, s, s', t)
    ensures Inv(c, s', lost)
  {
    BeginJobs(c, s, s', t);
    HistoryKept(c, s, s', lost);
    BeginAttempts(c, s, s', t, lost);
  }

  lemma BeginJobs(c: Sync, s: State, s': State, t: int)
    requires c.Valid() && JobsInv(c, s) && WaitInv(c, s) && MarkInv(c, s) && Begin(c, s, s', t)
    ensures JobsInv(c, s') && WaitInv(c, s') && MarkInv(c, s')
  {
    forall u <- s'.active ensures JobOk(c, s', u) {
      BeginJob(c, s, s', t, u);
    }
    SameJobs(c, s, s');
  }

  lemma BeginJob(c: Sync, s: State, s': State, t: int, u: int)
    requires JobsInv(c, s) && Begin(c, s, s', t) && u in s'.active
    ensures JobOk(c, s', u)
  {
    assert u in s.active && JobOk(c, s, u);
  }

  lemma BeginAttempts(c: Sync, s: State, s': State, t: int, lost: set<nat>)
    requires c.Valid() && JobsInv(c, s) && AttemptInv(c, s, lost) && Begin(c, s, s', t)
    ensures s'.next <= |c.log| && AttemptInv(c, s', lost)
  {
    assert JobOk(c, s, t);
    forall i | s'.base <= i < s'.next && i !in lost ensures AttemptOk(c, s', i) {
      assert AttemptOk(c, s, i);
      if c.log[i].ts == t {
        assert i == s.active[t].index;
        TriedAgain(c, Own(s.trace, i), i, s.active[t].begun, s.active[t].done);
      }
    }
  }

  lemma TriedAgain(c: Sync, own: seq<Write>, i: nat, begun: nat, done: nat)
    requires i < |c.log| && Tried(c, own, i, begun, done)
    ensures Tried(c, own, i, begun + 1, 0)
  {
    assert own[..|own|-0] == own;
    if begun > 0 {
      assert own == own[..|own|-done] + own[|own|-done..];
    }
  }

  /** Jobs that only get on. */
  predicate SameEvents(s: State, s': State) {
    && s.active.Keys == s'.active.Keys
    && forall t <- s.active :: s'.active[t].index == s.active[t].index && s.active[t].begun <= s'.active[t].begun
  }

  lemma SameJobs(c: Sync, s: State, s': State)
    requires JobsInv(c, s) && WaitInv(c, s) && MarkInv(c, s) && SameEvents(s, s')
    requires s'.base == s.base && s'.next == s.next && s'.watermark == s.watermark && s'.persisted == s.persisted
    requires forall t <- s'.active :: JobOk(c, s', t)
    ensures JobsInv(c, s') && WaitInv(c, s') && MarkInv(c, s')
  {
    assert |s.active| == |s.active.Keys| == |s'.active.Keys| == |s'.active|;
    SameWaits(c, s, s');
    SameMarks(c, s, s');
  }

  lemma SameWaits(c: Sync, s: State, s': State)
    requires JobsInv(c, s) && WaitInv(c, s) && SameEvents(s, s') && s'.next == s.next
    ensures s'.next <= |c.log| && WaitInv(c, s')
  {
    forall t, k | t in s'.active && s'.active[t].index <= k < s'.next
      ensures c.Outlasts(s'.active[t].index, k, s'.active[t].begun)
    {
      assert t in s.active && JobOk(c, s, t);
      assert c.Outlasts(s.active[t].index, k, s.active[t].begun);
      OutlastsMore(c, s.active[t].index, k, s.active[t].begun, s'.active[t].begun);
    }
  }

  lemma SameMarks(c: Sync, s: State, s': State)
    requires s.base <= |c.log| && MarkInv(c, s) && s.active.Keys == s'.active.Keys
    requires s'.base == s.base && s'.next == s.next && s'.watermark == s.watermark && s'.persisted == s.persisted
    ensures MarkInv(c, s')
  {
  }

  lemma {:induction false} OutlastsMore(c: Sync, i: nat, j: nat, r: nat, r': nat)
    requires i <= j < |c.log| && c.Outlasts(i, j, r) && r <= r'
    ensures c.Outlasts(i, j, r')
  {
  }

  lemma CheckpointInv(c: Sync, s: State, s': State, lost: set<nat>)
    requires c.Valid() && Inv(c, s, lost) && Checkpoint(s, s')
    ensures Inv(c, s', lost) && s.persisted <= s'.persisted
  {
    forall u <- s'.active ensures JobOk(c, s', u) {
      assert JobOk(c, s, u);
    }
    HistoryKept(c, s, s', lost);
    forall i | s'.base <= i < s'.next && i !in lost ensures AttemptOk(c, s', i) {
      assert AttemptOk(c, s, i);
    }
  }

  /** A job leaves that has made all its writes, or whose event counts as lost. */
  lemma LeaveInv(c: Sync, s: State, s': State, t: int, lost: set<nat>)
    requires c.Valid() && Inv(c, s, lost) && Leave(s, s', t)
    requires Finish(c, s, s', t) || s.active[t].index in lost
    ensures Inv(c, s', lost) && s.watermark <= s'.watermark
  {
    LeaveJobs(c, s, s', t);
    HistoryKept(c, s, s', lost);
    LeaveAttempts(c, s, s', t, lost);
  }

  lemma LeaveAttempts(c: Sync, s: State, s': State, t: int, lost: set<nat>)
    requires c.Valid() && JobsInv(c, s) && AttemptInv(c, s, lost) && Leave(s, s', t)
    requires Finish(c, s, s', t) || s.active[t].index in lost
    ensures s'.next <= |c.log| && AttemptInv(c, s', lost)
  {
    assert JobOk(c, s, t);
    forall i | s'.base <= i < s'.next && i !in lost ensures AttemptOk(c, s', i) {
      assert AttemptOk(c, s, i);
      assert c.log[i].ts == t ==> i == s.active[t].index && CompleteAfter(c, Own(s.trace, i), i, s.active[t].begun);
    }
  }

  lemma LeaveJobs(c: Sync, s: State, s': State, t: int)
    requires c.Valid() && JobsInv(c, s) && WaitInv(c, s) && MarkInv(c, s) && Leave(s, s', t)
    ensures JobsInv(c, s') && WaitInv(c, s') && MarkInv(c, s') && s.watermark <= s'.watermark
  {
    FewerJobs(c, s, s', t);
    FewerWaits(c, s, s', t);
    LeaveMarks(c, s, s', t);
  }

  lemma FewerJobs(c: Sync, s: State, s': State, t: int)
    requires JobsInv(c, s) && Leave(s, s', t)
    ensures JobsInv(c, s')
  {
    assert s'.active.Keys == s.active.Keys - {t};
    assert |s'.active| == |s.active| - 1;
    forall u <- s'.active ensures JobOk(c, s', u) {
      assert JobOk(c, s, u);
    }
  }

  lemma FewerWaits(c: Sync, s: State, s': State, t: int)
    requires JobsInv(c, s) && WaitInv(c, s) && Leave(s, s', t)
    ensures s'.next <= |c.log| && WaitInv(c, s')
  {
    forall u, k | u in s'.active && s'.active[u].index <= k < s'.next
      ensures c.Outlasts(s'.active[u].index, k, s'.active[u].begun)
    {
      assert u in s.active && s.active[u] == s'.active[u];
    }
  }

  lemma LeaveMarks(c: Sync, s: State, s': State, t: int)
    requires c.Valid() && JobsInv(c, s) && MarkInv(c, s) && Leave(s, s', t)
    ensures s'.base <= |c.log| && MarkInv(c, s') && s.watermark <= s'.watermark
  {
    assert JobOk(c, s, t);
    forall i | 0 <= i < |c.log| && c.log[i].ts <= s'.watermark ensures i < s'.next && c.log[i].ts !in s'.active {
      LeaveMark(c, s, s', t, i);
    }
  }

  /** The leaving job may carry the watermark past other events only if they have left. */
  lemma LeaveMark(c: Sync, s: State, s': State, t: int, i: nat)
    requires c.Valid() && JobsInv(c, s) && MarkInv(c, s) && Leave(s, s', t)
    requires i < |c.log| && c.log[i].ts <= s'.watermark
    ensures i < s'.next && c.log[i].ts !in s'.active
  {
  }

  // ---------------------------------------------------------------------------------------
  // A write
  // ---------------------------------------------------------------------------------------

  lemma ExecInv(c: Sync, s: State, s': State, t: int, lost: set<nat>)
    requires c.Valid() && Inv(c, s, lost) && Exec(c, s, s', t)
    ensures Inv(c, s', lost)
  {
    ExecJobs(c, s, s', t);
    ExecTrace(c, s, s', t, lost);
    ExecOrder(c, s, s', t);
    forall k | s'.base <= k < s'.next && k !in lost ensures AttemptOk(c, s', k) {
      ExecAttempt(c, s, s', t, k);
    }
  }

  lemma ExecJobs(c: Sync, s: State, s': State, t: int)
    requires c.Valid() && JobsInv(c, s) && WaitInv(c, s) && MarkInv(c, s) && Exec(c, s, s', t)
    ensures JobsInv(c, s') && WaitInv(c, s') && MarkInv(c, s')
  {
    forall u <- s'.active ensures JobOk(c, s', u) {
      ExecJob(c, s, s', t, u);
    }
    SameJobs(c, s, s');
  }

  lemma ExecJob(c: Sync, s: State, s': State, t: int, u: int)
    requires JobsInv(c, s) && Exec(c, s, s', t) && u in s'.active
    ensures JobOk(c, s', u)
  {
    assert u in s.active && JobOk(c, s, u);
  }

  lemma ExecTrace(c: Sync, s: State, s': State, t: int, lost: set<nat>)
    requires c.Valid() && JobsInv(c, s) && TraceInv(c, s) && TargetInv(c, s, lost) && Exec(c, s, s', t)
    ensures TraceInv(c, s') && TargetInv(c, s', lost)
  {
    assert s'.trace[..|s'.trace|-1] == s.trace;
    assert OpsOf(s'.trace)[..|OpsOf(s.trace)|] == OpsOf(s.trace);
    forall x <- s'.trace ensures TraceOk(c, s', x) {
      ExecTraceOk(c, s, s', t, x);
    }
  }

  lemma ExecTraceOk(c: Sync, s: State, s': State, t: int, x: Write)
    requires JobsInv(c, s) && TraceInv(c, s) && Exec(c, s, s', t) && x in s'.trace
    ensures TraceOk(c, s', x)
  {
    assert JobOk(c, s, t);
    assert x in s.trace ==> TraceOk(c, s, x);
  }

  lemma ExecOrder(c: Sync, s: State, s': State, t: int)
    requires c.Valid() && JobsInv(c, s) && WaitInv(c, s) && TraceInv(c, s) && OrderInv(c, s)
    requires Exec(c, s, s', t) && TraceInv(c, s')
    ensures OrderInv(c, s')
  {
    forall m, n | 0 <= m < n < |s'.trace| && s'.trace[n].index < s'.trace[m].index
      ensures TraceOk(c, s', s'.trace[m]) && TraceOk(c, s', s'.trace[n])
      ensures c.Outlasts(s'.trace[n].index, s'.trace[m].index, s'.trace[n].attempt + 1)
    {
      assert s'.trace[m] in s'.trace && s'.trace[n] in s'.trace;
      if n < |s.trace| {
        assert s.trace[n] == s'.trace[n] && s.trace[m] == s'.trace[m];
      } else {
        assert TraceOk(c, s', s'.trace[m]);
        assert c.Outlasts(s.active[t].index, s'.trace[m].index, s.active[t].begun);
      }
    }
  }

  lemma ExecAttempt(c: Sync, s: State, s': State, t: int, k: nat)
    requires c.Valid() && JobsInv(c, s) && s.base <= k < s.next && AttemptOk(c, s, k) && Exec(c, s, s', t)
    ensures AttemptOk(c, s', k)
  {
    assert JobOk(c, s, t);
    var Job(i, begun, done) := s.active[t];
    assert s'.trace[..|s'.trace|-1] == s.trace;
    assert c.log[k].ts == t <==> k == i;
    if k == i {
      TriedMore(c, Own(s.trace, i), i, begun, done);
    } else {
      assert Own(s'.trace, k) == Own(s.trace, k);
    }
  }

  lemma TriedMore(c: Sync, own: seq<Write>, i: nat, begun: nat, done: nat)
    requires i < |c.log| && Tried(c, own, i, begun, done) && 0 < begun && done < |c.Plan(i, begun - 1)|
    ensures Tried(c, own + [Write(i, begun - 1, c.Plan(i, begun - 1)[done])], i, begun, done + 1)
  {
    var ops := c.Plan(i, begun - 1);
    var w := Write(i, begun - 1, ops[done]);
    var own' := own + [w];
    assert own'[..|own'|-(done + 1)] == own[..|own|-done];
    assert own'[|own'|-(done + 1)..] == own[|own|-done..] + [w];
    assert ops[..done + 1] == ops[..done] + [ops[done]];
    assert Stamped(i, begun - 1, ops[..done + 1]) == Stamped(i, begun - 1, ops[..done]) + [w];
  }

  // ---------------------------------------------------------------------------------------
  // Reading the history
  // ---------------------------------------------------------------------------------------

  /** The last write touching `q` in a trace. */
  ghost predicate LastAt(trace: seq<Write>, q: Path, n: nat) {
    n < |trace| && trace[n].op.Touches(q) && forall m :: n < m < |trace| ==> !trace[m].op.Touches(q)
  }

  lemma {:induction false} LastInTrace(trace: seq<Write>, q: Path) returns (n: nat)
    requires LastTouch(OpsOf(trace), q).Some?
    ensures LastAt(trace, q, n) && LastTouch(OpsOf(trace), q) == Some(trace[n].op)
  {
    var init, last := trace[..|trace|-1], trace[|trace|-1];
    LastTouchAppend(OpsOf(init), last.op, q);
    if last.op.Touches(q) {
      n := |trace| - 1;
    } else {
      n := LastInTrace(init, q);
      LastAtGrows(init, last, q, n);
      assert trace == init + [last];
    }
  }

  lemma LastAtGrows(trace: seq<Write>, w: Write, q: Path, n: nat)
    requires LastAt(trace, q, n) && !w.op.Touches(q)
    ensures LastAt(trace + [w], q, n) && (trace + [w])[n] == trace[n]
  {
  }

  /** ... is also its event's last write there. */
  lemma {:induction false} LastOfEvent(trace: seq<Write>, q: Path, n: nat) returns (k: nat)
    requires LastAt(trace, q, n)
    ensures LastAt(Own(trace, trace[n].index), q, k) && Own(trace, trace[n].index)[k] == trace[n]
  {
    var init, last, i := trace[..|trace|-1], trace[|trace|-1], trace[n].index;
    if n == |trace| - 1 {
      k := |Own(init, i)|;
    } else {
      assert init[n] == trace[n];
      k := LastOfEvent(init, q, n);
    }
  }

  lemma {:induction false} OwnInTrace(trace: seq<Write>, i: nat, w: Write)
    ensures w in Own(trace, i) <==> w in trace && w.index == i
  {
    if trace != [] {
      var init, last := trace[..|trace|-1], trace[|trace|-1];
      assert trace == init + [last];
      OwnInTrace(init, i, w);
    }
  }

  lemma {:induction false} OpInTrace(trace: seq<Write>, op: Op)
    ensures op in OpsOf(trace) <==> exists w :: w in trace && w.op == op
  {
    if trace != [] {
      var init, last := trace[..|trace|-1], trace[|trace|-1];
      assert trace == init + [last];
      OpInTrace(init, op);
    }
  }

  lemma {:induction false} LastStamped(i: nat, a: nat, ops: seq<Op>, q: Path, n: nat)
    requires LastAt(Stamped(i, a, ops), q, n)
    ensures LastTouch(ops, q) == Some(ops[n])
    decreases |ops|
  {
    if n < |ops| - 1 {
      var init := ops[..|ops|-1];
      assert !Stamped(i, a, ops)[|ops|-1].op.Touches(q);
      forall m | n < m < |init| ensures !Stamped(i, a, init)[m].op.Touches(q) {
        assert Stamped(i, a, init)[m] == Stamped(i, a, ops)[m];
      }
      assert Stamped(i, a, init)[n] == Stamped(i, a, ops)[n];
      LastStamped(i, a, init, q, n);
    }
  }

  /** The last write to `q`, if the last ones were those of attempt `a`: it is that attempt's, or the
      attempt has none. */
  lemma {:induction false} LastOfTried(own: seq<Write>, i: nat, a: nat, ops: seq<Op>, q: Path, k: nat)
    requires |ops| <= |own| && own[|own|-|ops|..] == Stamped(i, a, ops) && LastAt(own, q, k)
    ensures k >= |own| - |ops| ==> own[k].attempt == a && LastTouch(ops, q) == Some(own[k].op)
    ensures k < |own| - |ops| ==> !TouchedBy(ops, q) && own[k] in own[..|own|-|ops|]
  {
    var cut := |own| - |ops|;
    if k >= cut {
      LastInSuffix(own, cut, q, k);
      LastStamped(i, a, ops, q, k - cut);
    } else {
      assert own[..cut][k] == own[k];
      NoneStamped(own, i, a, ops, cut, q, k);
    }
  }

  /** The last write to `q` that a completed event has made can stay there. */
  lemma {:induction false} LastCanStay(c: Sync, own: seq<Write>, i: nat, b: nat, q: Path, k: nat)
    requires i < |c.log| && CompleteAfter(c, own, i, b) && LastAt(own, q, k)
    requires own[k].attempt < c.attempts && own[k].op in c.Plan(i, own[k].attempt)
    ensures c.CanStay(i, own[k].attempt, own[k].op, q)
  {
    var ops, last := c.Plan(i, b - 1), b - 1;
    assert ops[..|ops|] == ops;
    LastOfTried(own, i, last, ops, q, k);
    assert !TouchedBy(ops, q) ==> !c.Touches(i, last, q);
  }

  lemma LastInSuffix(own: seq<Write>, cut: nat, q: Path, k: nat)
    requires LastAt(own, q, k) && cut <= k
    ensures LastAt(own[cut..], q, k - cut) && own[cut..][k - cut] == own[k]
  {
  }

  lemma NoneStamped(own: seq<Write>, i: nat, a: nat, ops: seq<Op>, cut: nat, q: Path, k: nat)
    requires cut <= |own| && own[cut..] == Stamped(i, a, ops) && k < cut && LastAt(own, q, k)
    ensures !TouchedBy(ops, q)
  {
    LastTouchFacts(ops, q);
    forall m | 0 <= m < |ops| ensures !ops[m].Touches(q) {
      assert own[cut..][m] == own[cut + m];
    }
  }

  /** A completed event that has to write to `q` has done so. */
  lemma {:induction false} MustHasWritten(c: Sync, own: seq<Write>, i: nat, b: nat, q: Path) returns (w: Write)
    requires i < |c.log| && CompleteAfter(c, own, i, b) && c.MustTouch(i, q)
    ensures w in own && w.op.Touches(q)
  {
    var ops := c.Plan(i, b - 1);
    assert c.Touches(i, b - 1, q);
    LastTouchFacts(ops, q);
    var op :| op in ops && op.Touches(q);
    var m :| 0 <= m < |ops| && ops[m] == op;
    assert ops[..|ops|] == ops && own[|own|-|ops|..] == Stamped(i, b - 1, ops);
    w := Write(i, b - 1, op);
    assert own[|own|-|ops|..][m] == w;
  }
}
