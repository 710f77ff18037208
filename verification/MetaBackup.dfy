/**
 Backing up the metadata of a live filer (weed/command/filer_meta_backup.go): a traversal that
 is no snapshot, followed by a replay of everything logged since before it began.
 */
module MetaBackup {
  import opened FileChunks
  import opened AbsoluteWrites
  import opened SyncEvents

  // ---------------------------------------------------------------------------------------
  // Events, at the source and in the backup
  // ---------------------------------------------------------------------------------------

  /** What the event records about the source. */
  function SourceWrites(e: Event): seq<Op> {
    if e.IsEmpty() then []
    else if e.IsCreate() then [Put(NewPath(e), e.newEntry.value)]
    else if e.IsDelete() then [Remove(OldPath(e))]
    else if e.IsUpdate() then [Put(NewPath(e), e.newEntry.value)]
    else [Remove(OldPath(e)), Put(NewPath(e), e.newEntry.value)]
  }

  type PathFilter = Path -> bool

  function Included(ops: seq<Op>, shouldInclude: PathFilter): seq<Op> {
    if ops == [] then []
    else Included(ops[..|ops|-1], shouldInclude) + if shouldInclude(ops[|ops|-1].path) then [ops[|ops|-1]] else []
  }

  function PathPrefix(root: Path): Path {
    if root != "" && root[|root|-1] == '/' then root else root + "/"
  }

  predicate InScope(root: Path, q: Path) { PathPrefix(root) <= q }

  /** The filer sends an event if its path starts with the watched prefix, or would do so in the
      new parent directory. */
  predicate Delivered(e: Event, root: Path) {
    if e.IsEmpty() then false
    else
      var name := if e.oldEntry.Some? then e.oldEntry.value.name else e.newEntry.value.name;
      InScope(root, Child(e.directory, name)) || (e.newParentPath != "" && InScope(root, Child(e.newParentPath, name)))
  }

  predicate PlainName(name: string) { name != "" && '/' !in name }

  /** As the filer writes its log: names are plain, and an entry that is not renamed stays in its
      directory. */
  predicate WellFormed(e: Event) {
    && (e.oldEntry.Some? ==> PlainName(e.oldEntry.value.name))
    && (e.newEntry.Some? ==> PlainName(e.newEntry.value.name) && e.newParentPath != "")
    && (e.IsCreate() ==> e.newParentPath == e.directory)
  }

  /** A prefix that ends in a slash and fits `base` plus a plain name fits `base` alone. */
  lemma PrefixFitsBase(prefix: Path, base: Path, name: string, other: string)
    requires prefix != "" && prefix[|prefix|-1] == '/' && '/' !in name && prefix <= base + name
    ensures prefix <= base + other
  {
  }

  /** A watched path's parent directory is the root or below it, whatever the name. */
  lemma ScopeIgnoresName(root: Path, dir: Path, name: string, other: string)
    requires PlainName(name) && PlainName(other) && InScope(root, Child(dir, name))
    ensures InScope(root, Child(dir, other))
  {
    assert name[0] in name && other[0] in other;
    PrefixFitsBase(PathPrefix(root), PathPrefix(dir), name, other);
  }

  /** Everything that happens to a watched path is delivered. */
  lemma WatchedIsDelivered(e: Event, root: Path, q: Path)
    requires WellFormed(e) && TouchedBy(SourceWrites(e), q) && InScope(root, q)
    ensures Delivered(e, root)
  {
    LastTouchFacts(SourceWrites(e), q);
    var op :| op in SourceWrites(e) && op.Touches(q);
    if e.newEntry.Some? && e.oldEntry.Some? && op.Put? {
      ScopeIgnoresName(root, e.newParentPath, e.newEntry.value.name, e.oldEntry.value.name);
    }
  }

  lemma {:induction false} IncludedStep(init: seq<Op>, last: Op, shouldInclude: PathFilter, q: Path)
    requires !last.RemoveTree?
    requires LastTouch(Included(init, shouldInclude), q) == if shouldInclude(q) then LastTouch(init, q) else None
    ensures LastTouch(Included(init + [last], shouldInclude), q) == if shouldInclude(q) then LastTouch(init + [last], q) else None
  {
    assert (init + [last])[..|init|] == init;
    var kept := Included(init, shouldInclude);
    LastTouchAppend(init, last, q);
    LastTouchAppend(kept, last, q);
    assert Included(init + [last], shouldInclude) == kept + if shouldInclude(last.path) then [last] else [];
    assert kept + [] == kept;
  }

  lemma {:induction false} IncludedTouch(ops: seq<Op>, shouldInclude: PathFilter, q: Path)
    requires forall op <- ops :: !op.RemoveTree?
    ensures LastTouch(Included(ops, shouldInclude), q) == if shouldInclude(q) then LastTouch(ops, q) else None
  {
    if ops != [] {
      var init, last := ops[..|ops|-1], ops[|ops|-1];
      assert ops == init + [last] && last in ops;
      IncludedTouch(init, shouldInclude, q);
      IncludedStep(init, last, shouldInclude, q);
    }
  }

  // ---------------------------------------------------------------------------------------
  // The source over time
  // ---------------------------------------------------------------------------------------

  /** A filer's history: its content when the log begins, and the log. The source at time `n` is
      its content after `n` events. */
  datatype History = History(initial: Store, log: seq<Event>) {

    /** The writes of each event. */
    function Groups(): (gs: seq<seq<Op>>)
      ensures |gs| == |log| && forall i :: 0 <= i < |log| ==> gs[i] == SourceWrites(log[i])
    {
      seq(|log|, i requires 0 <= i < |log| => SourceWrites(log[i]))
    }

    function Logged(a: nat, b: nat): seq<Op>
      requires a <= b <= |log|
    {
      Flatten(Groups()[a..b])
    }

    function At(n: nat): Store
      requires n <= |log|
    {
      ApplyAll(Logged(0, n), initial)
    }

    ghost predicate Changes(a: nat, b: nat, q: Path)
      requires a <= b <= |log|
    {
      LastTouch(Logged(a, b), q).Some?
    }
  }

  lemma LoggedSplits(h: History, a: nat, m: nat, b: nat)
    requires a <= m <= b <= |h.log|
    ensures h.Logged(a, b) == h.Logged(a, m) + h.Logged(m, b)
  {
    var gs := h.Groups();
    assert gs[a..b] == gs[a..m] + gs[m..b];
    FlattenConcat(gs[a..m], gs[m..b]);
  }

  /** What the log writes to a path between two times decides what is there. */
  lemma {:induction false} SourceAfter(h: History, a: nat, b: nat, q: Path)
    requires a <= b <= |h.log|
    ensures Lookup(h.At(b), q) ==
            if h.Changes(a, b, q) then LastTouch(h.Logged(a, b), q).value.Leaves() else Lookup(h.At(a), q)
  {
    LoggedSplits(h, 0, a, b);
    LastTouchConcat(h.Logged(0, a), h.Logged(a, b), q);
    LastWriteDecides(h.Logged(0, b), h.initial, q);
    LastWriteDecides(h.Logged(0, a), h.initial, q);
  }

  lemma QuietPart(h: History, a: nat, m: nat, b: nat, q: Path)
    requires a <= m <= b <= |h.log| && !h.Changes(a, b, q)
    ensures !h.Changes(a, m, q) && !h.Changes(m, b, q)
  {
    LoggedSplits(h, a, m, b);
    LastTouchConcat(h.Logged(a, m), h.Logged(m, b), q);
  }

  /** A path the log does not write keeps its entry. */
  lemma QuietPath(h: History, a: nat, b: nat, t: nat, q: Path)
    requires a <= t <= b <= |h.log| && !h.Changes(a, b, q)
    ensures Lookup(h.At(t), q) == Lookup(h.At(b), q)
  {
    QuietPart(h, a, t, b, q);
    SourceAfter(h, t, b, q);
  }

  // ---------------------------------------------------------------------------------------
  // Replay
  // ---------------------------------------------------------------------------------------

  /** A backup job: the watched directory and the path filter. */
  datatype Job = Job(h: History, root: Path, shouldInclude: PathFilter) {

    function EventWrites(e: Event): seq<Op> {
      if Delivered(e, root) then Included(SourceWrites(e), shouldInclude) else []
    }

    function ReplayGroups(): (gs: seq<seq<Op>>)
      ensures |gs| == |h.log| && forall i :: 0 <= i < |h.log| ==> gs[i] == EventWrites(h.log[i])
    {
      seq(|h.log|, i requires 0 <= i < |h.log| => EventWrites(h.log[i]))
    }

    function Replayed(a: nat, b: nat): seq<Op>
      requires a <= b <= |h.log|
    {
      Flatten(ReplayGroups()[a..b])
    }

    predicate Valid() {
      forall e <- h.log :: WellFormed(e)
    }
  }

  lemma {:induction false} NotDelivered(e: Event, root: Path, q: Path)
    requires WellFormed(e) && InScope(root, q) && !Delivered(e, root)
    ensures LastTouch(SourceWrites(e), q).None?
  {
    if LastTouch(SourceWrites(e), q).Some? {
      WatchedIsDelivered(e, root, q);
    }
  }

  lemma {:induction false} EventTouch(j: Job, e: Event, q: Path)
    requires WellFormed(e) && InScope(j.root, q)
    ensures LastTouch(j.EventWrites(e), q) == if j.shouldInclude(q) then LastTouch(SourceWrites(e), q) else None
  {
    if Delivered(e, j.root) {
      IncludedTouch(SourceWrites(e), j.shouldInclude, q);
    } else {
      NotDelivered(e, j.root, q);
    }
  }

  /** On a watched path the replay writes last what the source wrote last, or nothing. */
  lemma {:induction false} ReplayTouch(j: Job, a: nat, b: nat, q: Path)
    requires j.Valid() && a <= b <= |j.h.log| && InScope(j.root, q)
    ensures LastTouch(j.Replayed(a, b), q) == if j.shouldInclude(q) then LastTouch(j.h.Logged(a, b), q) else None
  {
    var gs, gs' := j.h.Groups()[a..b], j.ReplayGroups()[a..b];
    forall k | 0 <= k < |gs| ensures LastTouch(gs'[k], q) == if j.shouldInclude(q) then LastTouch(gs[k], q) else None {
      assert WellFormed(j.h.log[a + k]);
      EventTouch(j, j.h.log[a + k], q);
    }
    FilteredFlatten(gs, gs', j.shouldInclude(q), q);
  }

  lemma {:induction false} FilteredFlatten(gs: seq<seq<Op>>, gs': seq<seq<Op>>, keep: bool, q: Path)
    requires |gs| == |gs'| && forall k :: 0 <= k < |gs| ==> LastTouch(gs'[k], q) == if keep then LastTouch(gs[k], q) else None
    ensures LastTouch(Flatten(gs'), q) == if keep then LastTouch(Flatten(gs), q) else None
  {
    if gs != [] {
      var n := |gs| - 1;
      FilteredFlatten(gs[..n], gs'[..n], keep, q);
      FilteredConcat(Flatten(gs[..n]), Flatten(gs'[..n]), gs[n], gs'[n], keep, q);
    }
  }

  lemma {:induction false} FilteredConcat(xs: seq<Op>, xs': seq<Op>, ys: seq<Op>, ys': seq<Op>, keep: bool, q: Path)
    requires LastTouch(xs', q) == if keep then LastTouch(xs, q) else None
    requires LastTouch(ys', q) == if keep then LastTouch(ys, q) else None
    ensures LastTouch(xs' + ys', q) == if keep then LastTouch(xs + ys, q) else None
  {
    LastTouchConcat(xs, ys, q);
    LastTouchConcat(xs', ys', q);
  }

  /** A stretch of replay, between a (re)start of the stream and the next one. */
  datatype Pass = Pass(from: nat, to: nat)

  function AfterPasses(j: Job, passes: seq<Pass>, m: Store): Store
    requires forall p <- passes :: p.from <= p.to <= |j.h.log|
  {
    if passes == [] then m
    else
      var p := passes[|passes|-1];
      ApplyAll(j.Replayed(p.from, p.to), AfterPasses(j, passes[..|passes|-1], m))
  }

  /** The first pass starts at `r`; each later one resumes from an offset that was persisted, so
      not beyond where an earlier one got to. */
  predicate Resumes(j: Job, passes: seq<Pass>, r: nat) {
    && (forall p <- passes :: r <= p.from <= p.to <= |j.h.log|)
    && (passes != [] ==> passes[0].from == r)
    && forall k :: 0 < k < |passes| ==> passes[k].from <= passes[k-1].to
  }

  function Reached(passes: seq<Pass>, r: nat): nat {
    if passes == [] then r else passes[|passes|-1].to
  }

  /** Wherever the replay has got to, the paths the rest of the log leaves alone are up to
      date. */
  lemma {:induction false} PassesSettle(j: Job, passes: seq<Pass>, r: nat, m: Store, q: Path)
    requires j.Valid() && Resumes(j, passes, r) && r <= |j.h.log| && InScope(j.root, q)
    requires !j.h.Changes(Reached(passes, r), |j.h.log|, q)
    ensures Lookup(AfterPasses(j, passes, m), q) ==
            if j.shouldInclude(q) && j.h.Changes(r, |j.h.log|, q) then Lookup(j.h.At(|j.h.log|), q) else Lookup(m, q)
  {
    var n := |j.h.log|;
    if passes != [] {
      var init, p := passes[..|passes|-1], passes[|passes|-1];
      assert p in passes;
      ReplayTouch(j, p.from, p.to, q);
      LastWriteDecides(j.Replayed(p.from, p.to), AfterPasses(j, init, m), q);
      if j.h.Changes(p.from, p.to, q) {
        PassDecides(j.h, r, p.from, p.to, q);
        if !j.shouldInclude(q) {
          PassesLeaveExcluded(j, init, r, m, q);
        }
      } else {
        EarlierPasses(j, passes, r, q);
        PassesSettle(j, init, r, m, q);
      }
    }
  }

  lemma {:induction false} PassDecides(h: History, r: nat, a: nat, b: nat, q: Path)
    requires r <= a <= b <= |h.log| && h.Changes(a, b, q) && !h.Changes(b, |h.log|, q)
    ensures h.Changes(r, |h.log|, q)
    ensures Lookup(h.At(|h.log|), q) == LastTouch(h.Logged(a, b), q).value.Leaves()
  {
    LoggedSplits(h, r, a, |h.log|);
    LoggedSplits(h, a, b, |h.log|);
    LastTouchConcat(h.Logged(a, b), h.Logged(b, |h.log|), q);
    LastTouchConcat(h.Logged(r, a), h.Logged(a, |h.log|), q);
    SourceAfter(h, a, |h.log|, q);
  }

  lemma EarlierPasses(j: Job, passes: seq<Pass>, r: nat, q: Path)
    requires Resumes(j, passes, r) && r <= |j.h.log| && passes != []
    requires !j.h.Changes(Reached(passes, r), |j.h.log|, q)
    requires var p := passes[|passes|-1]; p in passes && !j.h.Changes(p.from, p.to, q)
    ensures Resumes(j, passes[..|passes|-1], r) && !j.h.Changes(Reached(passes[..|passes|-1], r), |j.h.log|, q)
  {
    var init, p, n := passes[..|passes|-1], passes[|passes|-1], |j.h.log|;
    LoggedSplits(j.h, p.from, p.to, n);
    LastTouchConcat(j.h.Logged(p.from, p.to), j.h.Logged(p.to, n), q);
    if init != [] {
      assert init[|init|-1] == passes[|passes|-2] && passes[|passes|-2] in passes;
    }
    QuietPart(j.h, p.from, Reached(init, r), n, q);
  }

  lemma {:induction false} PassesLeaveExcluded(j: Job, passes: seq<Pass>, r: nat, m: Store, q: Path)
    requires j.Valid() && InScope(j.root, q) && !j.shouldInclude(q)
    requires forall p <- passes :: r <= p.from <= p.to <= |j.h.log|
    ensures Lookup(AfterPasses(j, passes, m), q) == Lookup(m, q)
  {
    if passes != [] {
      var init, p := passes[..|passes|-1], passes[|passes|-1];
      assert p in passes;
      PassesLeaveExcluded(j, init, r, m, q);
      ReplayTouch(j, p.from, p.to, q);
      LastWriteDecides(j.Replayed(p.from, p.to), AfterPasses(j, init, m), q);
    }
  }

  /** Where the last pass that writes `q` ended. */
  ghost function LastReplay(j: Job, passes: seq<Pass>, q: Path): (t: Option<nat>)
    requires forall p <- passes :: p.from <= p.to <= |j.h.log|
    ensures t.Some? ==> t.value <= |j.h.log|
  {
    if passes == [] then None
    else
      var p := passes[|passes|-1];
      assert p in passes;
      if j.h.Changes(p.from, p.to, q) then Some(p.to) else LastReplay(j, passes[..|passes|-1], q)
  }

  /** What passes leave, with gaps between them or without: at an included path the source's entry
      as of the last pass that writes there. */
  lemma {:induction false} PassesHold(j: Job, passes: seq<Pass>, m: Store, q: Path)
    requires j.Valid() && InScope(j.root, q) && forall p <- passes :: p.from <= p.to <= |j.h.log|
    ensures Lookup(AfterPasses(j, passes, m), q) ==
            if j.shouldInclude(q) && LastReplay(j, passes, q).Some? then Lookup(j.h.At(LastReplay(j, passes, q).value), q)
            else Lookup(m, q)
  {
    if passes != [] {
      var init, p := passes[..|passes|-1], passes[|passes|-1];
      assert p in passes;
      PassesHold(j, init, m, q);
      ReplayTouch(j, p.from, p.to, q);
      LastWriteDecides(j.Replayed(p.from, p.to), AfterPasses(j, init, m), q);
      SourceAfter(j.h, p.from, p.to, q);
    }
  }
}
