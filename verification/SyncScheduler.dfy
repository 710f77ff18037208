/**
 The parallel metadata sync as a step system: events are accepted from a log, run
 concurrently unless one has to wait for another, may be retried, and finish; the watermark is
 persisted from time to time; the process may crash and resume from what was persisted
 (weed/command/filer_sync_jobs.go, weed/command/filer_sync.go).
 */
module SyncScheduler {
  import opened FileChunks
  import opened AbsoluteWrites
  import opened SyncEvents
  import opened Reachability

  /** One sync: the source's log from the stored offset on, the concurrency limit, what a worker does
      about an event and how often it tries, and the target's content at the start. Places in the
      target are named by where they are in the source. */
  datatype Sync = Sync(log: seq<Event>, offset: int, limit: nat, worker: Worker, attempts: nat, initial: Store) {

    /** Timestamps are positive and strictly increase; a worker tries at least once. */
    ghost predicate Valid() {
      && 0 <= offset && (forall e <- log :: offset < e.ts) && 1 <= attempts
      && forall i, j :: 0 <= i < j < |log| ==> log[i].ts < log[j].ts
    }

    /** Event `i` after its worker has begun `r` attempts: each overwrites the event it works on. */
    function Seen(i: nat, r: nat): (e: Event)
      requires i < |log|
      ensures e.ts == log[i].ts && (e.IsEmpty() <==> log[i].IsEmpty())
    {
      if r == 0 then log[i] else var e := Seen(i, r - 1); e.(newParentPath := worker.newParent(e))
    }

    /** What attempt `a` sets out to write, from the event as it finds it. */
    function Plan(i: nat, a: nat): seq<Op>
      requires i < |log|
    {
      if log[i].IsEmpty() then [] else worker.writes(Seen(i, a))
    }

    function WritesOf(i: nat): seq<Op>
      requires i < |log|
    {
      Plan(i, 0)
    }

    /** The writes of each event. */
    function Groups(): (gs: seq<seq<Op>>)
      ensures |gs| == |log| && forall i :: 0 <= i < |log| ==> gs[i] == WritesOf(i)
    {
      seq(|log|, i requires 0 <= i < |log| => WritesOf(i))
    }

    /** All writes of the first `n` events, one event after the other. */
    function AllWrites(n: nat): seq<Op>
      requires n <= |log|
    {
      if n == 0 then [] else AllWrites(n - 1) + WritesOf(n - 1)
    }

    /** The target after applying the first `n` events one by one in arrival order. */
    function Sequential(n: nat): Store
      requires n <= |log|
    {
      ApplyAll(AllWrites(n), initial)
    }

    /** What applying the whole log in order leaves at `q`. */
    function Outcome(q: Path): Option<Entry> {
      Lookup(Sequential(|log|), q)
    }

    /** With event `i` running and `r` attempts begun, event `k` is held back. */
    predicate HasToWait(k: nat, i: nat, r: nat)
      requires k < |log| && i < |log|
    {
      !log[k].IsEmpty() && !log[i].IsEmpty() && (limit <= 1 || ShouldWaitFor(log[k], Seen(i, r)))
    }

    /** Event `i` can stay active until event `j` is accepted, with no more than `r` attempts begun by
        then. */
    ghost predicate Outlasts(i: nat, j: nat, r: nat)
      requires i <= j < |log|
    {
      i == j || exists o :: 0 <= o <= r && !HasToWait(j, i, o) && Outlasts(i, j - 1, o)
    }

    predicate EventTouches(i: nat, q: Path)
      requires i < |log|
    {
      TouchedBy(WritesOf(i), q)
    }

    ghost predicate TouchedFrom(b: nat, q: Path) {
      exists i :: b <= i < |log| && EventTouches(i, q)
    }

    ghost predicate LastToucher(j: nat, q: Path) {
      j < |log| && EventTouches(j, q) && !TouchedFrom(j + 1, q)
    }

    // -------------------------------------------------------------------------------------
    // Who writes last
    // -------------------------------------------------------------------------------------

    predicate Touches(i: nat, a: nat, q: Path)
      requires i < |log|
    {
      TouchedBy(Plan(i, a), q)
    }

    /** Every attempt at the event writes to `q`. */
    predicate MustTouch(i: nat, q: Path)
      requires i < |log|
    {
      forall a: nat :: a < attempts ==> Touches(i, a, q)
    }

    ghost predicate MustTouchFrom(b: nat, q: Path) {
      exists k :: b <= k < |log| && MustTouch(k, q)
    }

    /** A write that attempt `a` at event `i` makes to `q`. */
    predicate WriteTo(i: nat, a: nat, op: Op, q: Path) {
      i < |log| && a < attempts && op in Plan(i, a) && op.Touches(q)
    }

    /** ... that can be the last one there when the event is done: the last of its attempt, or a later
        attempt does not write there. */
    predicate CanStay(i: nat, a: nat, op: Op, q: Path) {
      && WriteTo(i, a, op, q)
      && (LastTouch(Plan(i, a), q) == Some(op) || exists b: nat :: a < b < attempts && !Touches(i, b, q))
    }

    /** What no event can leave at `q` but the outcome:
        - whatever can stay, of an event that can outlast all later ones that have to write there;
        - whatever a crash can leave half done, if neither its event nor a later one has to write
          there again;
        - and nothing at all, if no event has to write there. */
    ghost predicate SafeAt(q: Path) {
      && (!MustTouchFrom(0, q) ==> Lookup(initial, q) == Outcome(q))
      && (forall i, a, op :: CanStay(i, a, op, q) && OutlastsRest(i, a, q) ==> op.Leaves() == Outcome(q))
      && (forall i, a, op :: WriteTo(i, a, op, q) && !MustTouchFrom(i, q) ==> op.Leaves() == Outcome(q))
    }

    /** Attempt `a` at event `i` can come after every later event that has to write to `q`. */
    ghost predicate OutlastsRest(i: nat, a: nat, q: Path) {
      forall k :: i < k < |log| && MustTouch(k, q) ==> Outlasts(i, k, a + 1)
    }

    ghost predicate Safe() {
      forall q :: SafeAt(q)
    }

    /** None of the events in `lost` ever writes to `q`. */
    ghost predicate Spared(lost: set<nat>, q: Path) {
      forall i, a, op :: WriteTo(i, a, op, q) ==> i !in lost
    }
  }

  /** A running event, how many attempts have begun, and how many writes the current one has made. */
  datatype Job = Job(index: nat, begun: nat, done: nat)

  datatype Write = Write(index: nat, attempt: nat, op: Op)

  /** `active`, `watermark`, `target` and `persisted` are the system's; `next` is the position in
      the log. The rest is history: where the current process started in the log (`base`) and
      what the target was then (`start`), and the writes made since (`trace`). */
  datatype State = State(
    active: map<int, Job>, watermark: int, target: Store, persisted: int, next: nat,
    base: nat, start: Store, trace: seq<Write>)

  // ---------------------------------------------------------------------------------------
  // Steps
  // ---------------------------------------------------------------------------------------

  /** The number of events at or before a time: where a subscription since then resumes. */
  function Resume(log: seq<Event>, ts: int): (n: nat)
    ensures n <= |log|
  {
    if log == [] then 0
    else if log[|log|-1].ts <= ts then |log|
    else Resume(log[..|log|-1], ts)
  }

  function Beginning(c: Sync): State {
    State(map[], c.offset, c.initial, c.offset, 0, 0, c.initial, [])
  }

  ghost predicate Start(c: Sync, s: State) {
    s == Beginning(c)
  }

  /** There is room, and the event does not have to wait for any active one as it is now. */
  predicate Admits(c: Sync, active: map<int, Job>, e: Event) {
    && |active| < c.limit
    && forall t <- active :: active[t].index < |c.log| && !c.log[active[t].index].IsEmpty() && !e.IsEmpty()
                             && !ShouldWaitFor(e, c.Seen(active[t].index, active[t].begun))
  }

  ghost predicate Accept(c: Sync, s: State, s': State) {
    && s.next < |c.log|
    && var e := c.log[s.next];
       if e.IsEmpty() then s' == s.(next := s.next + 1)
       else Admits(c, s.active, e) && s' == s.(active := s.active[e.ts := Job(s.next, 0, 0)], next := s.next + 1)
  }

  /** The worker begins an attempt, the first or another one: it makes its plan and overwrites the
      event. */
  ghost predicate Begin(c: Sync, s: State, s': State, t: int) {
    && t in s.active && s.active[t].begun < c.attempts
    && s' == s.(active := s.active[t := s.active[t].(begun := s.active[t].begun + 1, done := 0)])
  }

  ghost predicate Exec(c: Sync, s: State, s': State, t: int) {
    && t in s.active
    && var Job(i, begun, done) := s.active[t];
       && i < |c.log| && 0 < begun && done < |c.Plan(i, begun - 1)|
       && var op := c.Plan(i, begun - 1)[done];
          s' == s.(active := s.active[t := Job(i, begun, done + 1)], target := op.Apply(s.target),
                   trace := s.trace + [Write(i, begun - 1, op)])
  }

  /** A job leaves. The watermark moves only if no older job is still active. */
  ghost predicate Leave(s: State, s': State, t: int) {
    && t in s.active
    && var rest := s.active - {t};
       s' == s.(active := rest, watermark := if forall u <- rest :: t <= u then t else s.watermark)
  }

  /** The job's attempt has made all its writes. */
  predicate HasDone(c: Sync, j: Job) {
    j.index < |c.log| && 0 < j.begun <= c.attempts && j.done == |c.Plan(j.index, j.begun - 1)|
  }

  ghost predicate Finish(c: Sync, s: State, s': State, t: int) {
    && t in s.active && HasDone(c, s.active[t])
    && Leave(s, s', t)
  }

  ghost predicate Checkpoint(s: State, s': State) {
    s' == s.(persisted := if s.watermark == 0 then s.persisted else s.watermark)
  }

  /** The process stops, with all its jobs, and is started again. */
  ghost predicate Crash(c: Sync, s: State, s': State) {
    var n := Resume(c.log, s.persisted);
    s' == State(map[], s.persisted, s.target, s.persisted, n, n, s.target, [])
  }

  /** A step of a running process. */
  ghost predicate Work(c: Sync, s: State, s': State) {
    || Accept(c, s, s')
    || (exists t :: Exec(c, s, s', t))
    || (exists t :: Begin(c, s, s', t))
    || (exists t :: Finish(c, s, s', t))
    || Checkpoint(s, s')
  }

  ghost predicate Step(c: Sync, s: State, s': State) {
    Work(c, s, s') || Crash(c, s, s')
  }

  ghost function StepsOf(c: Sync): (State, State) -> bool {
    (s: State, s': State) => Step(c, s, s')
  }

  ghost function WorkOf(c: Sync): (State, State) -> bool {
    (s: State, s': State) => Work(c, s, s')
  }

  ghost predicate Run(c: Sync, run: seq<State>) {
    Chain(StepsOf(c), run) && Start(c, run[0])
  }

  predicate Drained(c: Sync, s: State) {
    s.next == |c.log| && s.active == map[]
  }

  // ---------------------------------------------------------------------------------------
  // What every reachable state satisfies
  // ---------------------------------------------------------------------------------------

  ghost predicate JobsInv(c: Sync, s: State) {
    && s.base <= s.next <= |c.log| && |s.active| <= c.limit
    && forall t <- s.active :: JobOk(c, s, t)
  }

  predicate JobOk(c: Sync, s: State, t: int)
    requires t in s.active
  {
    var j := s.active[t];
    && s.base <= j.index < s.next <= |c.log| && c.log[j.index].ts == t && !c.log[j.index].IsEmpty()
    && j.begun <= c.attempts && j.done <= if j.begun == 0 then 0 else |c.Plan(j.index, j.begun - 1)|
  }

  /** Nothing accepted after a running job had to wait for it as it was then. */
  ghost predicate WaitInv(c: Sync, s: State)
    requires s.next <= |c.log|
  {
    forall t, k :: t in s.active && s.active[t].index <= k < s.next ==> c.Outlasts(s.active[t].index, k, s.active[t].begun)
  }

  /** Every event at or below the watermark has been accepted and has finished; what lies before
      the resume point is at or below what is persisted. */
  ghost predicate MarkInv(c: Sync, s: State)
    requires s.base <= |c.log|
  {
    && 0 <= s.persisted <= s.watermark
    && (forall i :: 0 <= i < s.base ==> c.log[i].ts <= s.persisted)
    && forall i :: 0 <= i < |c.log| && c.log[i].ts <= s.watermark ==> i < s.next && c.log[i].ts !in s.active
  }
}
