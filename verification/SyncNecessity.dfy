/**
 The other half of serializability: whatever at a path is not safe, some run drains the log and
 leaves it there.
 */
module SyncNecessity {
  import opened Curtains
  import opened FileChunks
  import opened AbsoluteWrites
  import opened Reachability
  import opened SyncScheduler
  import opened SyncTheorems

  // ---------------------------------------------------------------------------------------
  // Building runs
  // ---------------------------------------------------------------------------------------

  ghost predicate Reaches(c: Sync, s: State, s': State) {
    forall k :: Opened(k) ==> Reachable(WorkOf(c), s, s')
  }

  lemma Stay(c: Sync, s: State)
    ensures Reaches(c, s, s)
  {
    ReachesSelf(WorkOf(c), s);
  }

  lemma StepOn(c: Sync, s: State, s': State, s'': State)
    requires Reaches(c, s, s') && Work(c, s', s'')
    ensures Reaches(c, s, s'')
  {
    assert Opened(0);
    ReachesStep(WorkOf(c), s, s', s'');
  }

  lemma GoOn(c: Sync, s: State, s': State, s'': State)
    requires Reaches(c, s, s') && Reaches(c, s', s'')
    ensures Reaches(c, s, s'')
  {
    assert Opened(0);
    ReachesTrans(WorkOf(c), s, s', s'');
  }

  /** The state with another job in place of an active one, and another target. */
  function With(s: State, t: int, j: Job): State { s.(active := s.active[t := j]) }

  /** An active job begins attempts until `r` have begun. */
  lemma {:induction false} BeginUpTo(c: Sync, s: State, t: int, r: nat) returns (s': State)
    requires t in s.active && r <= c.attempts
    requires s.active[t].begun < r || (s.active[t].begun == r && s.active[t].done == 0)
    ensures Reaches(c, s, s') && s' == With(s, t, Job(s.active[t].index, r, 0))
    decreases r
  {
    Stay(c, s);
    if s.active[t].begun == r {
      s' := s;
      assert s.active[t := Job(s.active[t].index, r, 0)] == s.active;
    } else if s.active[t].begun == r - 1 {
      s' := With(s, t, s.active[t].(begun := r, done := 0));
      assert Begin(c, s, s', t);
      StepOn(c, s, s, s');
    } else {
      var mid := BeginUpTo(c, s, t, r - 1);
      s' := With(mid, t, mid.active[t].(begun := r, done := 0));
      assert Begin(c, mid, s', t);
      StepOn(c, s, mid, s');
      assert s'.active == s.active[t := Job(s.active[t].index, r, 0)];
    }
  }

  /** Everything but the active jobs, the target and the history of writes. */
  predicate SamePlace(s: State, s': State) {
    s'.next == s.next && s'.persisted == s.persisted && s'.watermark == s.watermark
  }

  /** An active job makes the writes of its attempt up to the `n`-th. */
  lemma {:induction false} ExecUpTo(c: Sync, s: State, t: int, n: nat) returns (s': State)
    requires t in s.active && s.active[t].index < |c.log| && 0 < s.active[t].begun
    requires s.active[t].done <= n <= |c.Plan(s.active[t].index, s.active[t].begun - 1)|
    ensures Reaches(c, s, s') && SamePlace(s, s') && s'.active == s.active[t := s.active[t].(done := n)]
    ensures s'.target == ApplyAll(c.Plan(s.active[t].index, s.active[t].begun - 1)[s.active[t].done..n], s.target)
    decreases n - s.active[t].done
  {
    var Job(i, begun, done) := s.active[t];
    var ws := c.Plan(i, begun - 1);
    Stay(c, s);
    if done == n {
      s' := s;
      assert ws[done..n] == [];
      assert s.active == s.active[t := Job(i, begun, n)];
    } else {
      var mid := s.(active := s.active[t := Job(i, begun, done + 1)], target := ws[done].Apply(s.target),
                    trace := s.trace + [Write(i, begun - 1, ws[done])]);
      assert Exec(c, s, mid, t);
      StepOn(c, s, s, mid);
      s' := ExecUpTo(c, mid, t, n);
      GoOn(c, s, mid, s');
      OneWriteFirst(ws, done, n, s.target);
      assert s'.active == s.active[t := Job(i, begun, n)];
    }
  }

  lemma {:induction false} OneWriteFirst(ws: seq<Op>, k: nat, n: nat, m: Store)
    requires k < n <= |ws|
    ensures ApplyAll(ws[k..n], m) == ApplyAll(ws[k + 1..n], ws[k].Apply(m))
  {
    assert ws[k..n] == [ws[k]] + ws[k + 1..n];
    ApplyConcat([ws[k]], ws[k + 1..n], m);
    assert [ws[k]][..0] == [];
  }

  /** ... begins attempt `a` and makes its first `n` writes. */
  lemma TryUpTo(c: Sync, s: State, t: int, a: nat, n: nat) returns (s': State)
    requires t in s.active && s.active[t].index < |c.log| && a < c.attempts && n <= |c.Plan(s.active[t].index, a)|
    requires s.active[t].begun <= a || (s.active[t].begun == a + 1 && s.active[t].done == 0)
    ensures Reaches(c, s, s') && SamePlace(s, s') && s'.active == s.active[t := Job(s.active[t].index, a + 1, n)]
    ensures s'.target == ApplyAll(c.Plan(s.active[t].index, a)[..n], s.target)
  {
    var i := s.active[t].index;
    var mid := BeginUpTo(c, s, t, a + 1);
    s' := ExecUpTo(c, mid, t, n);
    GoOn(c, s, mid, s');
    assert c.Plan(i, a)[0..n] == c.Plan(i, a)[..n];
    assert s'.active == s.active[t := Job(i, a + 1, n)];
  }

  /** ... makes all its writes and finishes. */
  lemma RunJob(c: Sync, s: State, t: int, a: nat) returns (s': State)
    requires t in s.active && s.active[t].index < |c.log| && a < c.attempts
    requires s.active[t].begun <= a || (s.active[t].begun == a + 1 && s.active[t].done == 0)
    ensures Reaches(c, s, s') && s'.next == s.next && s'.active == s.active - {t} && s'.persisted == s.persisted
    ensures s'.target == ApplyAll(c.Plan(s.active[t].index, a), s.target)
    ensures s'.active == map[] ==> s'.watermark == t
  {
    var ws := c.Plan(s.active[t].index, a);
    var mid := TryUpTo(c, s, t, a, |ws|);
    assert ws[..|ws|] == ws;
    var rest := mid.active - {t};
    s' := mid.(active := rest, watermark := if forall u <- rest :: t <= u then t else mid.watermark);
    assert HasDone(c, mid.active[t]);
    assert Finish(c, mid, s', t);
    StepOn(c, s, mid, s');
    assert s'.active == s.active - {t};
  }

  /** At most one job is active, and its attempt has not written yet. */
  predicate Holding(c: Sync, s: State, held: Option<Job>) {
    match held
    case None => s.active == map[]
    case Some(j) =>
      j.index < |c.log| && j.index < s.next && !c.log[j.index].IsEmpty() && j.done == 0 && s.active == map[c.log[j.index].ts := j]
  }

  /** There is room, and the event need not wait for the one that is held. */
  predicate LetsPass(c: Sync, held: Option<Job>, k: nat)
    requires k < |c.log|
  {
    1 <= c.limit && (held.Some? ==> held.value.index < |c.log| && !c.HasToWait(k, held.value.index, held.value.begun))
  }

  /** The non-empty events from `lo` up to `hi` are at or below `mark`. */
  ghost predicate Marked(c: Sync, lo: nat, hi: nat, mark: int) {
    forall k :: Opened(k) ==> forall i :: lo <= i < hi <= |c.log| && !c.log[i].IsEmpty() ==> c.log[i].ts <= mark
  }

  lemma MarkedMore(c: Sync, lo: nat, hi: nat, mark: int, mark': int)
    requires c.Valid() && lo <= hi < |c.log| && Marked(c, lo, hi, mark)
    requires mark' == if c.log[hi].IsEmpty() then mark else c.log[hi].ts
    ensures Marked(c, lo, hi + 1, mark')
  {
    assert Opened(0);
  }

  lemma MarkedFacts(c: Sync, lo: nat, hi: nat, mark: int)
    requires Marked(c, lo, hi, mark) && hi <= |c.log|
    ensures forall i :: lo <= i < hi && !c.log[i].IsEmpty() ==> c.log[i].ts <= mark
  {
    assert Opened(0);
  }

  lemma AcceptNext(c: Sync, s: State, held: Option<Job>) returns (s': State)
    requires s.next < |c.log| && Holding(c, s, held) && LetsPass(c, held, s.next)
    ensures Work(c, s, s')
    ensures s' == s.(active := if c.log[s.next].IsEmpty() then s.active else s.active[c.log[s.next].ts := Job(s.next, 0, 0)],
                     next := s.next + 1)
  {
    var e := c.log[s.next];
    if e.IsEmpty() {
      s' := s.(next := s.next + 1);
    } else {
      s' := s.(active := s.active[e.ts := Job(s.next, 0, 0)], next := s.next + 1);
      assert Admits(c, s.active, e);
    }
    assert Accept(c, s, s');
  }

  /** The next event is accepted, tried `a` times in vain, written and finished while another one may
      be held. */
  lemma ProcessNext(c: Sync, s: State, held: Option<Job>, a: nat) returns (s': State)
    requires c.Valid() && s.next < |c.log| && Holding(c, s, held) && LetsPass(c, held, s.next) && a < c.attempts
    ensures Reaches(c, s, s') && s'.next == s.next + 1 && Holding(c, s', held) && s'.persisted == s.persisted
    ensures s'.target == ApplyAll(c.Plan(s.next, a), s.target)
    ensures held.None? ==> s'.watermark == if c.log[s.next].IsEmpty() then s.watermark else c.log[s.next].ts
  {
    var mid := AcceptNext(c, s, held);
    Stay(c, s);
    StepOn(c, s, s, mid);
    if c.log[s.next].IsEmpty() {
      s' := mid;
    } else {
      s' := RunNext(c, s, mid, held, a);
      GoOn(c, s, mid, s');
    }
  }

  lemma RunNext(c: Sync, s: State, mid: State, held: Option<Job>, a: nat) returns (s': State)
    requires c.Valid() && s.next < |c.log| && Holding(c, s, held) && a < c.attempts
    requires mid == s.(active := s.active[c.log[s.next].ts := Job(s.next, 0, 0)], next := s.next + 1)
    ensures Reaches(c, mid, s') && s'.next == s.next + 1 && Holding(c, s', held) && s'.persisted == s.persisted
    ensures s'.target == ApplyAll(c.Plan(s.next, a), s.target)
    ensures held.None? ==> s'.watermark == c.log[s.next].ts
  {
    var ts := c.log[s.next].ts;
    s' := RunJob(c, mid, ts, a);
    if held.Some? {
      assert c.log[held.value.index].ts < ts;
    }
    assert s'.active == s.active;
  }

  // ---------------------------------------------------------------------------------------
  // Stretches of the log
  // ---------------------------------------------------------------------------------------

  /** Which attempt at each event is the one that succeeds. */
  type Picks = nat -> nat

  ghost predicate Possible(c: Sync, pick: Picks) {
    forall i: nat :: i < |c.log| ==> pick(i) < c.attempts
  }

  function PickedGroups(c: Sync, pick: Picks): (gs: seq<seq<Op>>)
    ensures |gs| == |c.log| && forall i :: 0 <= i < |c.log| ==> gs[i] == c.Plan(i, pick(i))
  {
    seq(|c.log|, i requires 0 <= i < |c.log| => c.Plan(i, pick(i)))
  }

  /** The writes of the events from `lo` up to `hi`. */
  function WritesBetween(c: Sync, pick: Picks, lo: nat, hi: nat): seq<Op>
    requires lo <= hi <= |c.log|
  {
    Flatten(PickedGroups(c, pick)[lo..hi])
  }

  lemma {:induction false} OneMoreBetween(c: Sync, pick: Picks, lo: nat, hi: nat, m: Store)
    requires lo <= hi < |c.log|
    ensures ApplyAll(WritesBetween(c, pick, lo, hi + 1), m) ==
            ApplyAll(c.Plan(hi, pick(hi)), ApplyAll(WritesBetween(c, pick, lo, hi), m))
  {
    FlattenStep(PickedGroups(c, pick), lo, hi, m);
  }

  lemma {:induction false} NothingBetween(c: Sync, pick: Picks, lo: nat, m: Store)
    requires lo <= |c.log|
    ensures ApplyAll(WritesBetween(c, pick, lo, lo), m) == m
  {
    assert PickedGroups(c, pick)[lo..lo] == [];
  }

  /** The events up to `hi` have been processed since `s`. */
  ghost predicate Processed(c: Sync, s: State, s': State, pick: Picks, hi: nat) {
    forall k :: Opened(k) ==>
      && s.next <= hi <= |c.log| && s'.next == hi && Reaches(c, s, s') && Holding(c, s', None)
      && s'.target == ApplyAll(WritesBetween(c, pick, s.next, hi), s.target)
      && s'.persisted == s.persisted && Marked(c, s.next, hi, s'.watermark)
  }

  lemma ProcessedFacts(c: Sync, s: State, s': State, pick: Picks, hi: nat)
    requires Processed(c, s, s', pick, hi)
    ensures s.next <= hi <= |c.log| && s'.next == hi && Reaches(c, s, s') && Holding(c, s', None)
    ensures s'.target == ApplyAll(WritesBetween(c, pick, s.next, hi), s.target)
    ensures s'.persisted == s.persisted && Marked(c, s.next, hi, s'.watermark)
  {
    assert Opened(0);
  }

  lemma ProcessedNone(c: Sync, s: State, pick: Picks)
    requires s.next <= |c.log| && Holding(c, s, None)
    ensures Processed(c, s, s, pick, s.next)
  {
    Stay(c, s);
    NothingBetween(c, pick, s.next, s.target);
  }

  lemma ProcessedMore(c: Sync, s: State, mid: State, s': State, pick: Picks, hi: nat)
    requires c.Valid() && Processed(c, s, mid, pick, hi) && hi < |c.log|
    requires Reaches(c, mid, s') && s'.next == hi + 1 && Holding(c, s', None) && s'.persisted == mid.persisted
    requires s'.target == ApplyAll(c.Plan(hi, pick(hi)), mid.target)
    requires s'.watermark == if c.log[hi].IsEmpty() then mid.watermark else c.log[hi].ts
    ensures Processed(c, s, s', pick, hi + 1)
  {
    ProcessedFacts(c, s, mid, pick, hi);
    GoOn(c, s, mid, s');
    OneMoreBetween(c, pick, s.next, hi, s.target);
    MarkedMore(c, s.next, hi, mid.watermark, s'.watermark);
  }

  ghost predicate Fit(c: Sync, pick: Picks) {
    forall k :: Opened(k) ==> c.Valid() && 1 <= c.limit && Possible(c, pick)
  }

  ghost predicate ProcessedTo(c: Sync, s: State, pick: Picks, n: nat) {
    exists s' :: Processed(c, s, s', pick, n)
  }

  lemma ProcessedToNext(c: Sync, s: State, pick: Picks, n: nat)
    requires Fit(c, pick) && n < |c.log| && ProcessedTo(c, s, pick, n)
    ensures ProcessedTo(c, s, pick, n + 1)
  {
    assert Opened(0);
    var mid :| Processed(c, s, mid, pick, n);
    ProcessedFacts(c, s, mid, pick, n);
    var s' := ProcessNext(c, mid, None, pick(n));
    ProcessedMore(c, s, mid, s', pick, n);
  }

  lemma ProcessUpTo(c: Sync, s: State, pick: Picks, hi: nat) returns (s': State)
    requires c.Valid() && 1 <= c.limit && Possible(c, pick) && s.next <= hi <= |c.log| && Holding(c, s, None)
    ensures Processed(c, s, s', pick, hi)
  {
    ProcessedNone(c, s, pick);
    var p := (n: nat) => ProcessedTo(c, s, pick, n);
    forall n: nat | s.next <= n < hi && p(n) ensures p(n + 1) {
      ProcessedToNext(c, s, pick, n);
    }
    assert ProcessedTo(c, s, pick, s.next);
    Climb(p, s.next, hi);
    s' :| Processed(c, s, s', pick, hi);
  }

  /** The rest of the log is processed. */
  lemma Drain(c: Sync, s: State, pick: Picks) returns (s': State)
    requires c.Valid() && 1 <= c.limit && Possible(c, pick) && s.next <= |c.log| && Holding(c, s, None)
    ensures Reaches(c, s, s') && Drained(c, s') && Marked(c, s.next, |c.log|, s'.watermark)
    ensures s'.target == ApplyAll(WritesBetween(c, pick, s.next, |c.log|), s.target)
  {
    s' := ProcessUpTo(c, s, pick, |c.log|);
    ProcessedFacts(c, s, s', pick, |c.log|);
  }

  /** Event `i` is accepted and held until all up to `j` are done. */
  lemma {:induction false} HoldTo(c: Sync, s: State, i: nat, j: nat, r: nat) returns (s': State, held: Job)
    requires c.Valid() && 1 <= c.limit && s.next == i + 1 && Holding(c, s, Some(Job(i, 0, 0)))
    requires i <= j < |c.log| && r <= c.attempts && c.Outlasts(i, j, r)
    ensures Reaches(c, s, s') && s'.next == j + 1 && Holding(c, s', Some(held)) && held.index == i && held.begun <= r
    decreases j
  {
    if i == j {
      Stay(c, s);
      s', held := s, Job(i, 0, 0);
    } else {
      var o :| 0 <= o <= r && !c.HasToWait(j, i, o) && c.Outlasts(i, j - 1, o);
      var before, early := HoldTo(c, s, i, j - 1, o);
      held := Job(i, o, 0);
      s' := HoldOn(c, before, early, j, o);
      GoOn(c, s, before, s');
    }
  }

  /** ... one more event, after as many attempts as it takes. */
  lemma HoldOn(c: Sync, s: State, held: Job, j: nat, o: nat) returns (s': State)
    requires c.Valid() && 1 <= c.limit && s.next == j < |c.log| && Holding(c, s, Some(held))
    requires held.begun <= o <= c.attempts && !c.HasToWait(j, held.index, o)
    ensures Reaches(c, s, s') && s'.next == j + 1 && Holding(c, s', Some(Job(held.index, o, 0)))
  {
    var mid := BeginUpTo(c, s, c.log[held.index].ts, o);
    assert mid.active == map[c.log[held.index].ts := Job(held.index, o, 0)];
    s' := ProcessNext(c, mid, Some(Job(held.index, o, 0)), 0);
    GoOn(c, s, mid, s');
  }

  // ---------------------------------------------------------------------------------------
  // Keeping away from a path
  // ---------------------------------------------------------------------------------------

  /** An attempt that does not write to `q`, if there is one. */
  ghost function Avoiding(c: Sync, q: Path): Picks {
    (i: nat) => if i < |c.log| && !c.MustTouch(i, q) then Avoided(c, i, q) else 0
  }

  ghost function Avoided(c: Sync, i: nat, q: Path): (a: nat)
    requires i < |c.log| && !c.MustTouch(i, q)
    ensures a < c.attempts && !c.Touches(i, a, q)
  {
    var a: nat :| a < c.attempts && !c.Touches(i, a, q);
    a
  }

  lemma AvoidingIsPossible(c: Sync, q: Path)
    requires c.Valid()
    ensures Possible(c, Avoiding(c, q))
  {
  }

  lemma {:induction false} BetweenTouches(c: Sync, pick: Picks, lo: nat, hi: nat, q: Path)
    requires lo <= hi <= |c.log| && TouchedBy(WritesBetween(c, pick, lo, hi), q)
    ensures exists k :: lo <= k < hi && c.Touches(k, pick(k), q)
  {
    var gs := PickedGroups(c, pick)[lo..hi];
    FlattenTouches(gs, q);
    var k :| 0 <= k < |gs| && TouchedBy(gs[k], q);
    assert c.Touches(lo + k, pick(lo + k), q);
  }

  /** Events none of which has to write to `q` can leave it alone. */
  lemma {:induction false} AvoidsBetween(c: Sync, lo: nat, m: Store, q: Path)
    requires lo <= |c.log| && !c.MustTouchFrom(lo, q)
    ensures Lookup(ApplyAll(WritesBetween(c, Avoiding(c, q), lo, |c.log|), m), q) == Lookup(m, q)
  {
    var pick := Avoiding(c, q);
    if TouchedBy(WritesBetween(c, pick, lo, |c.log|), q) {
      BetweenTouches(c, pick, lo, |c.log|, q);
    }
    LastWriteDecides(WritesBetween(c, pick, lo, |c.log|), m, q);
  }

  /** The rest of the log is processed without touching `q`. */
  lemma DrainAvoiding(c: Sync, s: State, q: Path) returns (s': State)
    requires c.Valid() && 1 <= c.limit && s.next <= |c.log| && Holding(c, s, None) && !c.MustTouchFrom(s.next, q)
    ensures Reaches(c, s, s') && Drained(c, s') && Lookup(s'.target, q) == Lookup(s.target, q)
  {
    AvoidingIsPossible(c, q);
    s' := Drain(c, s, Avoiding(c, q));
    AvoidsBetween(c, s.next, s.target, q);
  }

  // ---------------------------------------------------------------------------------------
  // Runs that leave something at a path
  // ---------------------------------------------------------------------------------------

  ghost predicate CanLeave(c: Sync, q: Path, v: Option<Entry>) {
    exists run: seq<State> :: Run(c, run) && Drained(c, run[|run|-1]) && Lookup(run[|run|-1].target, q) == v
  }

  lemma RunTo(c: Sync, s: State, q: Path)
    requires Reaches(c, Beginning(c), s) && Drained(c, s)
    ensures CanLeave(c, q, Lookup(s.target, q))
  {
    assert Opened(0);
    ReachesMore(WorkOf(c), StepsOf(c), Beginning(c), s);
    var run :| Chain(StepsOf(c), run) && run[0] == Beginning(c) && run[|run|-1] == s;
    assert Run(c, run);
  }

  /** Nothing has to be written. */
  lemma NothingWritten(c: Sync, q: Path)
    requires c.Valid() && 1 <= c.limit && !c.MustTouchFrom(0, q)
    ensures CanLeave(c, q, Lookup(c.initial, q))
  {
    var s := DrainAvoiding(c, Beginning(c), q);
    RunTo(c, s, q);
  }

  /** Everything before event `i` is done, and `i` is taken up. */
  lemma TakeUp(c: Sync, i: nat) returns (s: State, before: State)
    requires c.Valid() && 1 <= c.limit && i < |c.log| && !c.log[i].IsEmpty()
    ensures Reaches(c, Beginning(c), before) && before.next == i && Holding(c, before, None)
    ensures before.persisted == c.offset && Marked(c, 0, i, before.watermark)
    ensures Work(c, before, s) && s.next == i + 1 && Holding(c, s, Some(Job(i, 0, 0))) && SameButActive(before, s)
  {
    var pick: Picks := (k: nat) => 0;
    before := ProcessUpTo(c, Beginning(c), pick, i);
    ProcessedFacts(c, Beginning(c), before, pick, i);
    s := AcceptNext(c, before, None);
    assert s.active == map[c.log[i].ts := Job(i, 0, 0)];
  }

  predicate SameButActive(s: State, s': State) {
    s'.watermark == s.watermark && s'.persisted == s.persisted && s'.target == s.target
  }

  /** The last event after `i` that has to write to `q`, or `i` itself. */
  lemma {:induction false} LastMust(c: Sync, i: nat, n: nat, q: Path) returns (j: nat)
    requires i < n <= |c.log|
    ensures i <= j < n && (j == i || c.MustTouch(j, q)) && forall k :: j < k < n ==> !c.MustTouch(k, q)
    decreases n
  {
    if n == i + 1 || c.MustTouch(n - 1, q) {
      j := n - 1;
    } else {
      j := LastMust(c, i, n - 1, q);
    }
  }

  /** A held job writes `op` to `q` last, and finishes. */
  lemma {:induction false} FinishWith(c: Sync, s: State, held: Job, a: nat, op: Op, q: Path) returns (s': State)
    requires Holding(c, s, Some(held)) && held.begun <= a + 1 && c.CanStay(held.index, a, op, q)
    ensures Reaches(c, s, s') && s'.next == s.next && Holding(c, s', None) && Lookup(s'.target, q) == op.Leaves()
  {
    var i, t := held.index, c.log[held.index].ts;
    var ws := c.Plan(i, a);
    if LastTouch(ws, q) == Some(op) {
      s' := RunJob(c, s, t, a);
      LastWriteDecides(ws, s.target, q);
    } else {
      var b: nat :| a < b < c.attempts && !c.Touches(i, b, q);
      var mid := WriteAt(c, s, held, a, op, q);
      s' := RunJob(c, mid, t, b);
      GoOn(c, s, mid, s');
      LastWriteDecides(c.Plan(i, b), mid.target, q);
    }
    assert s'.active == map[];
  }

  /** ... or writes it and is left at that. */
  lemma {:induction false} WriteAt(c: Sync, s: State, held: Job, a: nat, op: Op, q: Path) returns (s': State)
    requires Holding(c, s, Some(held)) && held.begun <= a + 1 && c.WriteTo(held.index, a, op, q)
    ensures Reaches(c, s, s') && SamePlace(s, s') && Lookup(s'.target, q) == op.Leaves()
    ensures s'.active.Keys == s.active.Keys && s'.active[c.log[held.index].ts].index == held.index
    ensures s'.active[c.log[held.index].ts].begun == a + 1
  {
    var i, t := held.index, c.log[held.index].ts;
    var ws := c.Plan(i, a);
    var n :| 0 <= n < |ws| && ws[n] == op;
    s' := TryUpTo(c, s, t, a, n + 1);
    LastIsWritten(ws, n, s.target, q);
  }

  lemma {:induction false} LastIsWritten(ws: seq<Op>, n: nat, m: Store, q: Path)
    requires n < |ws| && ws[n].Touches(q)
    ensures Lookup(ApplyAll(ws[..n + 1], m), q) == ws[n].Leaves()
  {
    assert ws[..n + 1][..n] == ws[..n];
    OneWrite(ws[n], ApplyAll(ws[..n], m), q);
  }

  /** An event that can outlast all that has to come after it. */
  lemma LateWriter(c: Sync, i: nat, a: nat, op: Op, q: Path)
    requires c.Valid() && 1 <= c.limit && c.CanStay(i, a, op, q) && c.OutlastsRest(i, a, q)
    ensures CanLeave(c, q, op.Leaves())
  {
    var b := Beginning(c);
    var taken, before := TakeUp(c, i);
    StepOn(c, b, before, taken);
    var j := LastMust(c, i, |c.log|, q);
    assert c.Outlasts(i, j, a + 1);
    var passed, held := HoldTo(c, taken, i, j, a + 1);
    GoOn(c, b, taken, passed);
    var late := FinishWith(c, passed, held, a, op, q);
    GoOn(c, b, passed, late);
    var s := DrainAvoiding(c, late, q);
    GoOn(c, b, late, s);
    RunTo(c, s, q);
  }

  // ---------------------------------------------------------------------------------------
  // A crash in between
  // ---------------------------------------------------------------------------------------

  /** What is done is persisted. */
  lemma Persist(c: Sync, s: State, n: nat) returns (s': State)
    requires c.Valid() && n <= |c.log| && Marked(c, 0, n, s.watermark)
    ensures Work(c, s, s') && s' == s.(persisted := s'.persisted) && Marked(c, 0, n, s'.persisted)
  {
    s' := s.(persisted := if s.watermark == 0 then s.persisted else s.watermark);
    assert Checkpoint(s, s');
    if s.watermark == 0 {
      MarkedFacts(c, 0, n, 0);
      forall i | 0 <= i < n ensures c.log[i].IsEmpty() {
        assert c.log[i] in c.log;
      }
    }
  }

  /** A new process resumes at or after everything persisted, and no non-empty event before `n` is
      left to it. */
  lemma CrashResumes(c: Sync, s: State, n: nat) returns (s': State)
    requires c.Valid() && n <= |c.log| && Marked(c, 0, n, s.persisted)
    ensures Crash(c, s, s') && s'.target == s.target && s'.next <= |c.log| && Holding(c, s', None)
    ensures forall i :: s'.next <= i < n ==> c.log[i].IsEmpty()
  {
    MarkedFacts(c, 0, n, s.persisted);
    ResumeFacts(c.log, s.persisted);
    var b := Resume(c.log, s.persisted);
    s' := State(map[], s.persisted, s.target, s.persisted, b, b, s.target, []);
  }

  /** An event that is killed after a write, when neither it nor a later one has to write there
      again. */
  lemma KilledWriter(c: Sync, i: nat, a: nat, op: Op, q: Path)
    requires c.Valid() && 1 <= c.limit && c.WriteTo(i, a, op, q) && !c.MustTouchFrom(i, q)
    ensures CanLeave(c, q, op.Leaves())
  {
    var b := Beginning(c);
    var taken, before := TakeUp(c, i);
    StepOn(c, b, before, taken);
    var saved := Persist(c, taken, i);
    StepOn(c, b, taken, saved);
    var half := WriteAt(c, saved, Job(i, 0, 0), a, op, q);
    GoOn(c, b, saved, half);
    var again := CrashResumes(c, half, i);
    NoneMustAgain(c, again.next, i, q);
    var s := DrainAvoiding(c, again, q);
    ThroughCrash(c, half, again, s);
    CanLeaveSo(c, s, q);
  }

  lemma NoneMustAgain(c: Sync, n: nat, i: nat, q: Path)
    requires c.Valid() && !c.MustTouchFrom(i, q) && forall k :: n <= k < i && k < |c.log| ==> c.log[k].IsEmpty()
    ensures !c.MustTouchFrom(n, q)
  {
    forall k | n <= k < |c.log| ensures !c.MustTouch(k, q) {
      assert k < i ==> !c.Touches(k, 0, q);
    }
  }

  ghost predicate Gets(c: Sync, s: State) {
    forall k :: Opened(k) ==> Reachable(StepsOf(c), Beginning(c), s)
  }

  lemma ThroughCrash(c: Sync, half: State, again: State, s: State)
    requires Reaches(c, Beginning(c), half) && Crash(c, half, again) && Reaches(c, again, s)
    ensures Gets(c, s)
  {
    assert Opened(0);
    ReachesMore(WorkOf(c), StepsOf(c), Beginning(c), half);
    ReachesStep(StepsOf(c), Beginning(c), half, again);
    ReachesMore(WorkOf(c), StepsOf(c), again, s);
    ReachesTrans(StepsOf(c), Beginning(c), again, s);
  }

  lemma CanLeaveSo(c: Sync, s: State, q: Path)
    requires Gets(c, s) && Drained(c, s)
    ensures CanLeave(c, q, Lookup(s.target, q))
  {
    assert Opened(0);
    var run :| Chain(StepsOf(c), run) && run[0] == Beginning(c) && run[|run|-1] == s;
    assert Run(c, run);
  }

  /** Whatever makes a path unsafe, some run leaves something else there than the outcome. */
  lemma UnsafeRun(c: Sync, q: Path) returns (run: seq<State>)
    requires c.Valid() && 1 <= c.limit && !c.SafeAt(q)
    ensures Run(c, run) && Drained(c, run[|run|-1]) && Lookup(run[|run|-1].target, q) != c.Outcome(q)
  {
    var v: Option<Entry>;
    if !c.MustTouchFrom(0, q) && Lookup(c.initial, q) != c.Outcome(q) {
      NothingWritten(c, q);
      v := Lookup(c.initial, q);
    } else if i, a, op :| c.CanStay(i, a, op, q) && c.OutlastsRest(i, a, q) && op.Leaves() != c.Outcome(q) {
      LateWriter(c, i, a, op, q);
      v := op.Leaves();
    } else {
      var i, a, op :| c.WriteTo(i, a, op, q) && !c.MustTouchFrom(i, q) && op.Leaves() != c.Outcome(q);
      KilledWriter(c, i, a, op, q);
      v := op.Leaves();
    }
    run :| Run(c, run) && Drained(c, run[|run|-1]) && Lookup(run[|run|-1].target, q) == v;
  }
}
