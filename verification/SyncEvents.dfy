/**
 Metadata events as a subscriber receives them, the paths they concern, the rule by which one
 event has to wait for another (weed/command/filer_sync_jobs.go, weed/pb/filer_pb), and what an
 event makes its worker write and overwrite (weed/command/filer_sync.go).
 */
module SyncEvents {
  import opened FileChunks
  import opened AbsoluteWrites

  datatype Event = Event(
    ts: int, directory: Path, oldEntry: Option<Entry>, newEntry: Option<Entry>, newParentPath: Path, signatures: seq<int>)
  {
    predicate IsEmpty() { newEntry.None? && oldEntry.None? }

    predicate IsCreate() { newEntry.Some? && oldEntry.None? }

    predicate IsDelete() { newEntry.None? && oldEntry.Some? }

    predicate IsUpdate() {
      newEntry.Some? && oldEntry.Some? && directory == newParentPath && newEntry.value.name == oldEntry.value.name
    }
  }

  function Child(dir: Path, name: string): Path {
    var noPrefix := if "/" <= name then name[1..] else name;
    if dir != "" && dir[|dir|-1] == '/' then dir + noPrefix else dir + "/" + noPrefix
  }

  /** The paths of an event: where it happens, and for a rename the new place. */
  datatype Footprint = Footprint(path: Path, newPath: Path, isDirectory: bool)

  function ExtractPaths(e: Event): Footprint
    requires !e.IsEmpty()
  {
    if e.IsCreate() then Footprint(Child(e.directory, e.newEntry.value.name), "", e.newEntry.value.isDirectory)
    else if e.IsDelete() then Footprint(Child(e.directory, e.oldEntry.value.name), "", e.oldEntry.value.isDirectory)
    else if e.IsUpdate() then Footprint(Child(e.directory, e.newEntry.value.name), "", e.newEntry.value.isDirectory)
    else Footprint(Child(e.directory, e.oldEntry.value.name), Child(e.newParentPath, e.newEntry.value.name),
                   e.oldEntry.value.isDirectory)
  }

  predicate PairShouldWaitFor(aPath: Path, bPath: Path, aIsDirectory: bool, bIsDirectory: bool) {
    if bIsDirectory then
      if aIsDirectory then IsUnder(aPath, bPath) || IsUnder(bPath, aPath) else IsUnder(aPath, bPath)
    else
      if aIsDirectory then IsUnder(bPath, aPath) else aPath == bPath
  }

  /** `a` may be scheduled, `b` is running: does `a` have to wait for `b`? */
  predicate ShouldWaitFor(a: Event, b: Event)
    requires !a.IsEmpty() && !b.IsEmpty()
  {
    var A, B := ExtractPaths(a), ExtractPaths(b);
    || PairShouldWaitFor(A.path, B.path, A.isDirectory, B.isDirectory)
    || (A.newPath != "" && PairShouldWaitFor(A.newPath, B.path, A.isDirectory, B.isDirectory))
    || (B.newPath != "" && PairShouldWaitFor(A.path, B.newPath, A.isDirectory, B.isDirectory))
    || (A.newPath != "" && B.newPath != "" && PairShouldWaitFor(A.newPath, B.newPath, A.isDirectory, B.isDirectory))
  }

  // ---------------------------------------------------------------------------------------
  // The effect of an event on the target
  // ---------------------------------------------------------------------------------------

  function OldPath(e: Event): Path
    requires e.oldEntry.Some?
  {
    Child(e.directory, e.oldEntry.value.name)
  }

  function NewPath(e: Event): Path
    requires e.newEntry.Some?
  {
    Child(e.newParentPath, e.newEntry.value.name)
  }

  /** What a sync takes: events carrying the target's own signature came from the target and are
      skipped, `accepts` says of which directories events are processed, `watched` which paths lie in
      the source directory, `rewrite` where a directory of the source lies in the target, and
      `deleteFiles` whether anything is ever deleted. */
  datatype Route = Route(
    signature: int, accepts: Path -> bool, watched: Path -> bool, rewrite: Path -> Path, deleteFiles: bool)
  {
    predicate Skips(e: Event) {
      e.IsEmpty() || (signature != 0 && signature in e.signatures) || !accepts(e.directory)
    }

    predicate MovesWithin(e: Event) {
      e.oldEntry.Some? && e.newEntry.Some? && watched(OldPath(e)) && watched(NewPath(e))
    }
  }

  /** A sync of one directory to another; the paths are clean and do not end in a slash. */
  function RouteBetween(source: Path, target: Path, signature: int, deleteFiles: bool): Route {
    Route(signature, (d: Path) => source <= d + "/", (p: Path) => source <= p,
          (p: Path) => if source <= p then target + p[|source|..] else p, deleteFiles)
  }

  function Removal(path: Path, isDirectory: bool): Op {
    if isDirectory then RemoveTree(path) else Remove(path)
  }

  function Removals(e: Event, route: Route): seq<Op>
    requires e.oldEntry.Some?
  {
    if route.deleteFiles && route.watched(OldPath(e)) then [Removal(OldPath(e), e.oldEntry.value.isDirectory)] else []
  }

  function Puts(e: Event, route: Route): seq<Op>
    requires e.newEntry.Some?
  {
    if route.watched(NewPath(e)) then [Put(NewPath(e), e.newEntry.value)] else []
  }

  /** The writes an event makes, in order, by where they are in the source. */
  function Writes(e: Event, route: Route): seq<Op> {
    if route.Skips(e) then []
    else if e.IsDelete() then Removals(e, route)
    else if e.IsCreate() || (route.MovesWithin(e) && OldPath(e) == NewPath(e)) then Puts(e, route)
    else Removals(e, route) + Puts(e, route)
  }

  /** The new parent that the worker leaves in the event it holds: of an update or a rename within the
      source directory it is replaced by its place in the target. */
  function NewParent(e: Event, route: Route): Path {
    if !route.Skips(e) && route.deleteFiles && route.MovesWithin(e) then route.rewrite(e.newParentPath) else e.newParentPath
  }

  /** What a worker does about an event: what it writes, and what it leaves as the event's new
      parent. */
  datatype Worker = Worker(writes: Event -> seq<Op>, newParent: Event -> Path)

  function WorkerOf(route: Route): Worker {
    Worker((e: Event) => Writes(e, route), (e: Event) => NewParent(e, route))
  }

  predicate InFootprint(p: Path, e: Event)
    requires !e.IsEmpty()
  {
    var f := ExtractPaths(e);
    p == f.path || (f.newPath != "" && p == f.newPath)
  }

  /** The events share a path and at least one of them is about a directory. */
  ghost predicate SamePathClash(a: Event, b: Event)
    requires !a.IsEmpty() && !b.IsEmpty()
  {
    && (exists p :: InFootprint(p, a) && InFootprint(p, b))
    && (ExtractPaths(a).isDirectory || ExtractPaths(b).isDirectory)
  }

  /** As the filer writes its log: an entry is created in the directory it is created in. */
  predicate InPlace(e: Event) { e.IsCreate() ==> e.newParentPath == e.directory }

  /** A write of an event is at a path of its footprint, and reaches below it only for a
      directory. */
  lemma WriteIsInFootprint(e: Event, route: Route, op: Op)
    requires InPlace(e) && op in Writes(e, route)
    ensures !e.IsEmpty() && InFootprint(op.path, e) && (op.RemoveTree? ==> ExtractPaths(e).isDirectory)
  {
  }

  lemma PairMeets(a: Event, b: Event, p: Path, q: Path)
    requires !a.IsEmpty() && !b.IsEmpty() && InFootprint(p, a) && InFootprint(q, b)
    requires PairShouldWaitFor(p, q, ExtractPaths(a).isDirectory, ExtractPaths(b).isDirectory)
    ensures ShouldWaitFor(a, b)
  {
  }

  /** Two events that write the same place without waiting for each other share a path of which
      one thinks it is a directory: a path does not count as lying under itself. */
  lemma UnorderedWritesClash(a: Event, b: Event, route: Route, q: Path)
    requires InPlace(a) && InPlace(b) && TouchedBy(Writes(a, route), q) && TouchedBy(Writes(b, route), q)
    ensures !a.IsEmpty() && !b.IsEmpty()
    ensures ShouldWaitFor(a, b) || SamePathClash(a, b)
  {
    LastTouchFacts(Writes(a, route), q);
    LastTouchFacts(Writes(b, route), q);
    var x :| x in Writes(a, route) && x.Touches(q);
    var y :| y in Writes(b, route) && y.Touches(q);
    WriteIsInFootprint(a, route, x);
    WriteIsInFootprint(b, route, y);
    if x.path == y.path {
      if !ExtractPaths(a).isDirectory && !ExtractPaths(b).isDirectory {
        PairMeets(a, b, x.path, y.path);
      }
    } else {
      if q != x.path && q != y.path {
        CommonDescendant(q, x.path, y.path);
      }
      assert PairShouldWaitFor(x.path, y.path, ExtractPaths(a).isDirectory, ExtractPaths(b).isDirectory);
      PairMeets(a, b, x.path, y.path);
    }
  }

  /** File events that write the same place wait for each other, as they are logged. */
  lemma FileEventsWait(a: Event, b: Event, route: Route, q: Path)
    requires InPlace(a) && InPlace(b) && TouchedBy(Writes(a, route), q) && TouchedBy(Writes(b, route), q)
    requires !a.IsEmpty() && !b.IsEmpty() && !ExtractPaths(a).isDirectory && !ExtractPaths(b).isDirectory
    ensures ShouldWaitFor(a, b)
  {
    UnorderedWritesClash(a, b, route, q);
  }
}
