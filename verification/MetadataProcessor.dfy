/**
 The scheduler object itself (weed/command/filer_sync_jobs.go). Each method is one section
 under the object's lock, or what a worker does to the event it was given, and is a step of the
 step system.
 */
module MetadataProcessors {
  import opened Curtains
  import opened AbsoluteWrites
  import opened SyncEvents
  import opened SyncScheduler
  import opened SyncInvariants

  datatype Admission = Ignored | MustWait | Started

  predicate Mirrors(jobs: map<int, Event>, c: Sync, s: State) {
    && jobs.Keys == s.active.Keys
    && forall t <- s.active :: JobOk(c, s, t) && jobs[t] == c.Seen(s.active[t].index, s.active[t].begun)
  }

  ghost predicate Mirrored(jobs: map<int, Event>, c: Sync, s: State) {
    forall k :: Opened(k) ==> JobsInv(c, s) && Mirrors(jobs, c, s)
  }

  class MetadataProcessor {
    var activeJobs: map<int, Event>
    const concurrencyLimit: int
    var processedTsWatermark: int

    constructor (concurrency: int, offsetTsNs: int)
      ensures activeJobs == map[] && concurrencyLimit == concurrency && processedTsWatermark == offsetTsNs
    {
      activeJobs := map[];
      concurrencyLimit := concurrency;
      processedTsWatermark := offsetTsNs;
    }

    /** The object's fields are those of the step system's state. */
    ghost predicate Represents(c: Sync, s: State)
      reads this
    {
      concurrencyLimit == c.limit && processedTsWatermark == s.watermark && Mirrored(activeJobs, c, s)
    }

    /** Some active job makes the event wait. */
    method ConflictsWith(resp: Event) returns (conflict: bool)
      requires !resp.IsEmpty() && forall t <- activeJobs :: !activeJobs[t].IsEmpty()
      ensures conflict <==> exists t :: t in activeJobs && ShouldWaitFor(resp, activeJobs[t])
    {
      conflict := AnyToWaitFor(resp, activeJobs);
    }

    /** One look at the waiting condition: an empty event is ignored; an event is started exactly
        when the scheduler accepts it. */
    method AddSyncJob(resp: Event, ghost c: Sync, ghost s: State) returns (admission: Admission, ghost s': State)
      requires c.Valid() && Represents(c, s) && s.next < |c.log| && resp == c.log[s.next]
      modifies this
      ensures admission.Ignored? <==> resp.IsEmpty()
      ensures admission.MustWait? <==> !resp.IsEmpty() && !Admits(c, s.active, resp)
      ensures if admission.MustWait? then s' == s else Accept(c, s, s')
      ensures Represents(c, s')
      ensures activeJobs == if admission.Started? then old(activeJobs)[resp.ts := resp] else old(activeJobs)
      ensures processedTsWatermark == old(processedTsWatermark)
    {
      assert Opened(0);
      if resp.IsEmpty() {
        s' := s.(next := s.next + 1);
        assert Accept(c, s, s');
        AcceptJobs(c, s, s');
        return Ignored, s';
      }
      SameSize(activeJobs, s.active);
      var conflict := ConflictsWith(resp);
      if |activeJobs| >= concurrencyLimit || conflict {
        return MustWait, s;
      }
      s' := s.(active := s.active[resp.ts := Job(s.next, 0, 0)], next := s.next + 1);
      assert Accept(c, s, s');
      AcceptJobs(c, s, s');
      activeJobs := activeJobs[resp.ts := resp];
      return Started, s';
    }

    /** The worker begins an attempt. It works on the event the scheduler compares others with, and
        overwrites its new parent. */
    method BeginAttempt(ts: int, ghost c: Sync, ghost s: State, worker: Worker) returns (plan: seq<Op>, ghost s': State)
      requires c.Valid() && Represents(c, s) && worker == c.worker && ts in s.active && s.active[ts].begun < c.attempts
      modifies this`activeJobs
      ensures Begin(c, s, s', ts) && Represents(c, s') && ts in old(activeJobs) && s.active[ts].index < |c.log|
      ensures plan == c.Plan(s.active[ts].index, s.active[ts].begun)
      ensures activeJobs == old(activeJobs)[ts := old(activeJobs)[ts].(newParentPath := worker.newParent(old(activeJobs)[ts]))]
    {
      s' := BeginMirrors(c, s, ts, activeJobs);
      var resp := activeJobs[ts];
      plan := worker.writes(resp);
      activeJobs := activeJobs[ts := resp.(newParentPath := worker.newParent(resp))];
    }

    /** A job leaves, done or given up; if no active job is older, the watermark moves to it. */
    method FinishJob(resp: Event, ghost c: Sync, ghost s: State) returns (ghost s': State)
      requires c.Valid() && Represents(c, s) && resp.ts in s.active
      modifies this
      ensures Leave(s, s', resp.ts) && Represents(c, s')
      ensures HasDone(c, s.active[resp.ts]) ==> Finish(c, s, s', resp.ts)
      ensures activeJobs == old(activeJobs) - {resp.ts}
      ensures processedTsWatermark == if forall t <- activeJobs :: resp.ts <= t then resp.ts else old(processedTsWatermark)
    {
      s' := LeaveMirrors(c, s, resp.ts, activeJobs);
      activeJobs := activeJobs - {resp.ts};
      var isOldest := NoneOlder(resp.ts, activeJobs);
      if isOldest {
        processedTsWatermark := resp.ts;
      }
    }
  }

  lemma SameSize(jobs: map<int, Event>, active: map<int, Job>)
    requires jobs.Keys == active.Keys
    ensures |jobs| == |active|
  {
  }

  lemma LeaveMirrors(c: Sync, s: State, t: int, jobs: map<int, Event>) returns (s': State)
    requires Mirrored(jobs, c, s) && t in s.active
    ensures Leave(s, s', t) && Mirrored(jobs - {t}, c, s')
    ensures s'.watermark == if forall u <- jobs - {t} :: t <= u then t else s.watermark
  {
    assert Opened(0);
    var rest := s.active - {t};
    s' := s.(active := rest, watermark := if forall u <- rest :: t <= u then t else s.watermark);
    assert rest.Keys == s.active.Keys - {t} == (jobs - {t}).Keys;
    FewerJobs(c, s, s', t);
    FewerMirrored(c, s, s', t, jobs);
  }

  lemma FewerMirrored(c: Sync, s: State, s': State, t: int, jobs: map<int, Event>)
    requires Mirrors(jobs, c, s) && JobsInv(c, s') && Leave(s, s', t)
    ensures Mirrors(jobs - {t}, c, s')
  {
    assert s'.active.Keys == s.active.Keys - {t} == (jobs - {t}).Keys;
  }

  lemma BeginMirrors(c: Sync, s: State, t: int, jobs: map<int, Event>) returns (s': State)
    requires Mirrored(jobs, c, s) && t in s.active && s.active[t].begun < c.attempts
    ensures t in jobs && s.active[t].index < |c.log| && c.worker.writes(jobs[t]) == c.Plan(s.active[t].index, s.active[t].begun)
    ensures Begin(c, s, s', t) && Mirrored(jobs[t := jobs[t].(newParentPath := c.worker.newParent(jobs[t]))], c, s')
    ensures s'.watermark == s.watermark
  {
    assert Opened(0);
    assert JobOk(c, s, t);
    s' := s.(active := s.active[t := s.active[t].(begun := s.active[t].begun + 1, done := 0)]);
    assert |s'.active| == |s'.active.Keys| == |s.active.Keys| == |s.active|;
    forall u <- s'.active ensures JobOk(c, s', u) {
      BeginJob(c, s, s', t, u);
    }
    BegunMirrored(c, s, s', t, jobs);
  }

  lemma BegunMirrored(c: Sync, s: State, s': State, t: int, jobs: map<int, Event>)
    requires Mirrors(jobs, c, s) && JobsInv(c, s') && Begin(c, s, s', t) && t in jobs
    ensures Mirrors(jobs[t := jobs[t].(newParentPath := c.worker.newParent(jobs[t]))], c, s')
  {
  }

  lemma HasMember(s: set<int>)
    ensures s == {} || exists t :: t in s
  {
    if forall t :: t !in s {
      assert s == {};
    }
  }

  /** Looks at the jobs in any order until one has to be waited for. */
  method AnyToWaitFor(resp: Event, jobs: map<int, Event>) returns (conflict: bool)
    requires !resp.IsEmpty() && forall t <- jobs :: !jobs[t].IsEmpty()
    ensures conflict <==> exists t :: t in jobs && ShouldWaitFor(resp, jobs[t])
  {
    var left: set<int> := jobs.Keys;
    while left != {}
      invariant left <= jobs.Keys
      invariant forall t :: t in jobs && t !in left ==> !ShouldWaitFor(resp, jobs[t])
      decreases left
    {
      HasMember(left);
      var t: int :| t in left;
      if ShouldWaitFor(resp, jobs[t]) {
        return true;
      }
      left := left - {t};
    }
    return false;
  }

  method NoneOlder(ts: int, jobs: map<int, Event>) returns (isOldest: bool)
    ensures isOldest <==> forall t <- jobs :: ts <= t
  {
    isOldest := true;
    var left: set<int> := jobs.Keys;
    while left != {}
      invariant left <= jobs.Keys && isOldest
      invariant forall t :: t in jobs && t !in left ==> ts <= t
      decreases left
    {
      HasMember(left);
      var t: int :| t in left;
      if ts > t {
        isOldest := false;
        break;
      }
      left := left - {t};
    }
  }
}
