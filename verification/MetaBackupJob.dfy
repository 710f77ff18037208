/**
 The backup command itself (weed/command/filer_meta_backup.go): the handlers that change the
 backup store and the persisted offset, and the run that puts them together.
 */
module MetaBackupJobs {
  import opened FileChunks
  import opened AbsoluteWrites
  import opened SyncEvents
  import opened MetaBackup
  import opened MetaTraversal
  import opened MetaConvergence

  /** One connection: how many events it brings, after which of them the offset is persisted, and
      where the log ends when it is opened. */
  datatype Connection = Connection(count: nat, persistAfter: set<nat>, now: nat)

  /** A connection follows the log from the offset `o`, or from now if there is none, and leaves the
      offset `o'`. */
  predicate Follows(j: Job, c: Connection, o: Option<nat>, o': Option<nat>, pass: Pass) {
    && pass.from == (if o.Some? then o.value else c.now)
    && pass.to == Min(pass.from + c.count, |j.h.log|) && pass.from <= pass.to
    && (o' == o || (o'.Some? && pass.from < o'.value <= pass.to))
  }

  /** ... one connection after the other, `offsets` being what is persisted in between. */
  predicate FollowsAll(j: Job, connections: seq<Connection>, offsets: seq<Option<nat>>, passes: seq<Pass>) {
    && |passes| == |connections| && |offsets| == |connections| + 1
    && (forall p <- passes :: p.from <= p.to <= |j.h.log|)
    && forall i :: 0 <= i < |connections| ==> Follows(j, connections[i], offsets[i], offsets[i + 1], passes[i])
  }

  class MetaBackupJob {
    const job: Job
    var store: Store
    var offset: Option<nat>

    ghost predicate Valid()
      reads this`offset
    {
      offset.Some? ==> offset.value <= |job.h.log|
    }

    constructor (job: Job, store: Store)
      ensures this.job == job && this.store == store && offset == None
    {
      this.job := job;
      this.store := store;
      offset := None;
    }

    /** Handles one event of the stream. */
    method EachEntry(e: Event)
      modifies this`store
      ensures store == ApplyAll(Included(SourceWrites(e), job.shouldInclude), old(store))
    {
      EventApplied(e, job.shouldInclude, store);
      if e.IsEmpty() {
        return;
      }
      var oldPathExcluded := e.oldEntry.Some? && !job.shouldInclude(OldPath(e));
      var newPathExcluded := e.newEntry.Some? && !job.shouldInclude(NewPath(e));
      if e.IsCreate() {
        if newPathExcluded {
          return;
        }
        store := store[NewPath(e) := e.newEntry.value];
      } else if e.IsDelete() {
        if oldPathExcluded {
          return;
        }
        store := store - {OldPath(e)};
      } else if e.IsUpdate() {
        if newPathExcluded {
          return;
        }
        store := store[NewPath(e) := e.newEntry.value];
      } else {
        if !oldPathExcluded {
          store := store - {OldPath(e)};
        }
        if !newPathExcluded {
          store := store[NewPath(e) := e.newEntry.value];
        }
      }
    }

    /** Receives event `k`, if the filer sends it, and persists the offset if it is time to. */
    method Receive(k: nat, persist: bool)
      requires k < |job.h.log|
      modifies this`store, this`offset
      ensures store == ApplyAll(job.EventWrites(job.h.log[k]), old(store))
      ensures offset == if persist then Some(k + 1) else old(offset)
    {
      if Delivered(job.h.log[k], job.root) {
        EachEntry(job.h.log[k]);
      }
      if persist {
        offset := Some(k + 1);
      }
    }

    /** Receives the events from `from` up to `to`; `states` are the contents the store goes
        through. */
    method ReceiveAll(from: nat, to: nat, persistAfter: set<nat>, ghost states: nat -> Store)
      requires from <= to <= |job.h.log| && store == states(from)
      requires forall k :: from <= k < to ==> WritesStep(job.ReplayGroups(), k, states(k), states(k + 1))
      modifies this`store, this`offset
      ensures store == states(to)
      ensures offset == old(offset) || (offset.Some? && from < offset.value <= to)
    {
      var k := from;
      while k < to
        invariant from <= k <= to
        invariant store == states(k)
        invariant offset == old(offset) || (offset.Some? && from < offset.value <= k)
      {
        assert WritesStep(job.ReplayGroups(), k, states(k), states(k + 1));
        Receive(k, k in persistAfter);
        k := k + 1;
      }
    }

    /** Follows the log from the persisted offset, or from now if there is none. */
    method Stream(c: Connection) returns (pass: Pass)
      requires Valid() && c.now <= |job.h.log|
      modifies this`store, this`offset
      ensures Valid()
      ensures Follows(job, c, old(offset), offset, pass)
      ensures store == ApplyAll(job.Replayed(pass.from, pass.to), old(store))
    {
      var from := if offset.Some? then offset.value else c.now;
      var to := Min(from + c.count, |job.h.log|);
      StatesStep(job.ReplayGroups(), from, store);
      ReceiveAll(from, to, c.persistAfter, StatesFrom(job.ReplayGroups(), from, store));
      pass := Pass(from, to);
    }

    /** Inserts what the traversal visits. */
    method Traverse(visits: seq<Visit>)
      requires Reads(job.h, visits)
      modifies this`store
      ensures store == ApplyAll(TraverseWrites(job, visits), old(store))
    {
      var i := 0;
      while i < |visits|
        invariant 0 <= i <= |visits|
        invariant store == ApplyAll(TraverseWrites(job, visits[..i]), old(store))
      {
        TraverseStep(job, visits, i, old(store));
        if job.shouldInclude(visits[i].path) {
          store := store[visits[i].path := job.h.At(visits[i].time)[visits[i].path]];
        }
        i := i + 1;
      }
      assert visits[..|visits|] == visits;
    }

    /** Traverses if asked to or if nothing was backed up before, then streams for as many
        connections as come. The traversal began after `from` events; if that cannot be stored as
        the offset, the command goes on with the offset it had, or with none. */
    method RunBackup(restart: bool, from: nat, visits: seq<Visit>, offsetStored: bool, connections: seq<Connection>)
      returns (passes: seq<Pass>, ghost offsets: seq<Option<nat>>)
      requires Valid() && from <= |job.h.log| && Reads(job.h, visits)
      requires forall c <- connections :: c.now <= |job.h.log|
      modifies this`store, this`offset
      ensures Valid() && FollowsAll(job, connections, offsets, passes) && offsets[|connections|] == offset
      ensures var traversed := restart || old(offset).None?;
              && offsets[0] == (if traversed && offsetStored then Some(from) else old(offset))
              && store == AfterPasses(job, passes, if traversed then ApplyAll(TraverseWrites(job, visits), old(store)) else old(store))
      ensures offsets[0].Some? ==> Resumes(job, passes, offsets[0].value)
    {
      if restart || offset.None? {
        Traverse(visits);
        if offsetStored {
          offset := Some(from);
        }
      }
      passes, offsets := FollowForever(connections);
      if offsets[0].Some? {
        FollowsFromOffset(job, connections, offsets, passes);
      }
    }

    method FollowForever(connections: seq<Connection>) returns (passes: seq<Pass>, ghost offsets: seq<Option<nat>>)
      requires Valid() && forall c <- connections :: c.now <= |job.h.log|
      modifies this`store, this`offset
      ensures Valid() && FollowsAll(job, connections, offsets, passes)
      ensures offsets[0] == old(offset) && offsets[|connections|] == offset
      ensures store == AfterPasses(job, passes, old(store))
    {
      passes, offsets := [], [offset];
      var i := 0;
      while i < |connections|
        invariant 0 <= i <= |connections| && Valid() && FollowsAll(job, connections[..i], offsets, passes)
        invariant offsets[0] == old(offset) && offsets[i] == offset
        invariant store == AfterPasses(job, passes, old(store))
      {
        var pass := Stream(connections[i]);
        FollowsMore(job, connections, i, offsets, passes, offset, pass);
        AfterMore(job, passes, pass, old(store));
        passes, offsets := passes + [pass], offsets + [offset];
        i := i + 1;
      }
      assert connections[..i] == connections;
    }
  }

  lemma FollowsMore(j: Job, connections: seq<Connection>, i: nat, offsets: seq<Option<nat>>, passes: seq<Pass>, o: Option<nat>, pass: Pass)
    requires i < |connections| && FollowsAll(j, connections[..i], offsets, passes) && Follows(j, connections[i], offsets[i], o, pass)
    ensures FollowsAll(j, connections[..i + 1], offsets + [o], passes + [pass])
  {
    var cs := connections[..i + 1];
    forall k | 0 <= k < |cs| ensures Follows(j, cs[k], (offsets + [o])[k], (offsets + [o])[k + 1], (passes + [pass])[k]) {
      assert k < i ==> Follows(j, connections[..i][k], offsets[k], offsets[k + 1], passes[k]);
    }
  }

  /** Once an offset is persisted, it stays between where the first pass began and where the last
      one ended. */
  lemma {:induction false} OffsetsStay(j: Job, connections: seq<Connection>, offsets: seq<Option<nat>>, passes: seq<Pass>, a: nat, r: nat, i: nat)
    requires FollowsAll(j, connections, offsets, passes) && a <= i < |offsets|
    requires offsets[a].Some? && r <= offsets[a].value && (a > 0 ==> offsets[a].value <= passes[a-1].to)
    ensures offsets[i].Some? && r <= offsets[i].value && (i > 0 ==> offsets[i].value <= passes[i-1].to)
  {
    if i > a {
      OffsetsStay(j, connections, offsets, passes, a, r, i - 1);
      assert Follows(j, connections[i-1], offsets[i-1], offsets[i], passes[i-1]);
    }
  }

  lemma FollowsFromOffset(j: Job, connections: seq<Connection>, offsets: seq<Option<nat>>, passes: seq<Pass>)
    requires FollowsAll(j, connections, offsets, passes) && offsets[0].Some?
    ensures Resumes(j, passes, offsets[0].value)
  {
    forall i | 0 <= i < |passes|
      ensures offsets[0].value <= passes[i].from <= passes[i].to <= |j.h.log| && (i > 0 ==> passes[i].from <= passes[i-1].to)
    {
      OffsetsStay(j, connections, offsets, passes, 0, offsets[0].value, i);
      assert Follows(j, connections[i], offsets[i], offsets[i + 1], passes[i]);
    }
    assert passes != [] ==> Follows(j, connections[0], offsets[0], offsets[1], passes[0]);
  }

  /** Without an offset the replay begins where the first connection is opened, and goes on from
      there if that connection persists one. If it does not, the next one begins anew, and what was
      logged in between is never replayed. */
  lemma FollowsFromNow(j: Job, connections: seq<Connection>, offsets: seq<Option<nat>>, passes: seq<Pass>)
    requires FollowsAll(j, connections, offsets, passes) && offsets[0].None? && connections != []
    ensures passes[0].from == connections[0].now
    ensures |connections| == 1 || offsets[1].Some? ==> Resumes(j, passes, connections[0].now)
    ensures |connections| > 1 && offsets[1].None? ==> passes[1].from == connections[1].now
  {
    var r := connections[0].now;
    assert Follows(j, connections[0], offsets[0], offsets[1], passes[0]);
    assert |connections| > 1 ==> Follows(j, connections[1], offsets[1], offsets[2], passes[1]);
    if |connections| == 1 || offsets[1].Some? {
      forall i | 1 <= i < |passes|
        ensures r <= passes[i].from <= passes[i].to <= |j.h.log| && passes[i].from <= passes[i-1].to
      {
        OffsetsStay(j, connections, offsets, passes, 1, r, i);
        assert Follows(j, connections[i], offsets[i], offsets[i + 1], passes[i]);
      }
    }
  }

  lemma {:induction false} IncludedApply(init: seq<Op>, last: Op, shouldInclude: PathFilter, m: Store)
    ensures ApplyAll(Included(init + [last], shouldInclude), m) ==
            (var m' := ApplyAll(Included(init, shouldInclude), m); if shouldInclude(last.path) then last.Apply(m') else m')
  {
    assert (init + [last])[..|init|] == init;
    var kept := Included(init, shouldInclude);
    assert (kept + [last])[..|kept|] == kept && kept + [] == kept;
  }

  /** The included writes of an event, one by one. */
  lemma {:induction false} EventApplied(e: Event, shouldInclude: PathFilter, m: Store)
    ensures ApplyAll(Included(SourceWrites(e), shouldInclude), m) ==
            if e.IsEmpty() then m
            else if e.IsDelete() then if shouldInclude(OldPath(e)) then m - {OldPath(e)} else m
            else
              var m' := if !e.IsCreate() && !e.IsUpdate() && shouldInclude(OldPath(e)) then m - {OldPath(e)} else m;
              if shouldInclude(NewPath(e)) then m'[NewPath(e) := e.newEntry.value] else m'
  {
    var ops := SourceWrites(e);
    if |ops| == 1 {
      assert ops == [] + [ops[0]];
      IncludedApply([], ops[0], shouldInclude, m);
    } else if |ops| == 2 {
      assert ops == [ops[0]] + [ops[1]] && [ops[0]] == [] + [ops[0]];
      IncludedApply([], ops[0], shouldInclude, m);
      IncludedApply([ops[0]], ops[1], shouldInclude, m);
    }
  }

  predicate WritesStep(gs: seq<seq<Op>>, k: nat, m: Store, m': Store)
    requires k < |gs|
  {
    m' == ApplyAll(gs[k], m)
  }

  /** The contents of a store as groups of writes are applied, from group `a` on. */
  function StatesFrom(gs: seq<seq<Op>>, a: nat, m: Store): nat -> Store {
    k => if a <= k <= |gs| then ApplyAll(Flatten(gs[a..k]), m) else m
  }

  lemma StatesStep(gs: seq<seq<Op>>, a: nat, m: Store)
    requires a <= |gs|
    ensures StatesFrom(gs, a, m)(a) == m
    ensures forall k :: a <= k < |gs| ==> WritesStep(gs, k, StatesFrom(gs, a, m)(k), StatesFrom(gs, a, m)(k + 1))
  {
    assert gs[a..a] == [];
    forall k | a <= k < |gs| ensures WritesStep(gs, k, StatesFrom(gs, a, m)(k), StatesFrom(gs, a, m)(k + 1)) {
      FlattenStep(gs, a, k, m);
    }
  }

  lemma {:induction false} TraverseStep(j: Job, visits: seq<Visit>, i: nat, m: Store)
    requires Reads(j.h, visits) && i < |visits|
    ensures ApplyAll(TraverseWrites(j, visits[..i + 1]), m) ==
            (var before := ApplyAll(TraverseWrites(j, visits[..i]), m);
             if j.shouldInclude(visits[i].path) then before[visits[i].path := j.h.At(visits[i].time)[visits[i].path]] else before)
  {
    assert visits[..i + 1][..i] == visits[..i];
    var ops := TraverseWrites(j, visits[..i]);
    if j.shouldInclude(visits[i].path) {
      var put := Put(visits[i].path, j.h.At(visits[i].time)[visits[i].path]);
      assert (ops + [put])[..|ops|] == ops;
    } else {
      assert ops + [] == ops;
    }
  }

  lemma {:induction false} AfterMore(j: Job, passes: seq<Pass>, pass: Pass, m: Store)
    requires forall p <- passes + [pass] :: p.from <= p.to <= |j.h.log|
    ensures AfterPasses(j, passes + [pass], m) == ApplyAll(j.Replayed(pass.from, pass.to), AfterPasses(j, passes, m))
  {
  }
}
