/**
 Where the backup falls short of the source, and one place where it might seem to but does not.
 */
module MetaBackupGaps {
  import opened FileChunks
  import opened Reachability
  import opened AbsoluteWrites
  import opened SyncEvents
  import opened MetaBackup
  import opened MetaTraversal
  import opened MetaConvergence

  /** A handler that fails part-way and is retried until it succeeds leaves what one success
      would have left. */
  lemma {:induction false} RetryIsHarmless(ops: seq<Op>, k: nat, m: Store)
    requires k <= |ops|
    ensures ApplyAll(ops, ApplyAll(ops[..k], m)) == ApplyAll(ops, m)
  {
    forall q ensures Lookup(ApplyAll(ops, ApplyAll(ops[..k], m)), q) == Lookup(ApplyAll(ops, m), q) {
      LastWriteDecides(ops, ApplyAll(ops[..k], m), q);
      LastWriteDecides(ops, m, q);
      LastWriteDecides(ops[..k], m, q);
      assert ops == ops[..k] + ops[k..];
      LastTouchConcat(ops[..k], ops[k..], q);
    }
    SameLookups(ApplyAll(ops, ApplyAll(ops[..k], m)), ApplyAll(ops, m));
  }

  // ---------------------------------------------------------------------------------------
  // Writes outside the watched directory
  // ---------------------------------------------------------------------------------------

  predicate IsRename(e: Event) { e.oldEntry.Some? && e.newEntry.Some? && !e.IsUpdate() }

  /** The event moves something over the border of the watched directory, and `q` is the end
      outside. (A deletion could only if it carried a new parent directory.) */
  predicate CrossesAt(root: Path, e: Event, q: Path) {
    if IsRename(e) then (q == NewPath(e) && InScope(root, OldPath(e))) || (q == OldPath(e) && InScope(root, NewPath(e)))
    else e.IsDelete() && q == OldPath(e) && Delivered(e, root)
  }

  /** A rename is delivered if one of its ends is watched. */
  lemma RenameDelivered(e: Event, root: Path)
    requires WellFormed(e) && IsRename(e)
    ensures Delivered(e, root) <==> InScope(root, OldPath(e)) || InScope(root, NewPath(e))
  {
    var a, b := e.oldEntry.value.name, e.newEntry.value.name;
    if InScope(root, Child(e.newParentPath, a)) {
      ScopeIgnoresName(root, e.newParentPath, a, b);
    }
    if InScope(root, Child(e.newParentPath, b)) {
      ScopeIgnoresName(root, e.newParentPath, b, a);
    }
  }

  lemma {:induction false} SourceTouch(e: Event, q: Path)
    ensures TouchedBy(SourceWrites(e), q) <==>
            (e.newEntry.Some? && q == NewPath(e)) || (e.oldEntry.Some? && !e.IsUpdate() && q == OldPath(e))
  {
    LastTouchFacts(SourceWrites(e), q);
    var ops := SourceWrites(e);
    if e.newEntry.Some? {
      assert ops[|ops|-1] in ops;
    }
    if e.oldEntry.Some? && !e.IsUpdate() {
      assert ops[0] in ops;
    }
  }

  /** Replaying an event writes to a path outside the watched directory if and only if the path is
      included and the event crosses the border there: creations and updates never do, renames in
      either direction do. */
  lemma {:induction false} OutsideWriteIff(j: Job, e: Event, q: Path)
    requires WellFormed(e) && !InScope(j.root, q)
    ensures TouchedBy(j.EventWrites(e), q) <==> j.shouldInclude(q) && CrossesAt(j.root, e, q)
  {
    SourceTouch(e, q);
    if IsRename(e) {
      RenameDelivered(e, j.root);
    }
    IncludedTouch(SourceWrites(e), j.shouldInclude, q);
  }

  lemma {:induction false} FlattenTouchedBy(gs: seq<seq<Op>>, q: Path)
    ensures TouchedBy(Flatten(gs), q) <==> exists k :: 0 <= k < |gs| && TouchedBy(gs[k], q)
  {
    if gs != [] {
      var init, last := gs[..|gs|-1], gs[|gs|-1];
      FlattenTouchedBy(init, q);
      LastTouchConcat(Flatten(init), last, q);
      forall k | 0 <= k < |init| ensures init[k] == gs[k] {}
    }
  }

  ghost predicate CrossedBetween(j: Job, a: nat, b: nat, q: Path)
    requires a <= b <= |j.h.log|
  {
    exists i :: a <= i < b && CrossesAt(j.root, j.h.log[i], q)
  }

  /** So a replay leaves an outside path alone unless something crossed there, and what it writes
      there it never sees changing: what happens to the path outside is not delivered. */
  lemma {:induction false} OutsideAfterReplay(j: Job, a: nat, b: nat, m: Store, q: Path)
    requires j.Valid() && a <= b <= |j.h.log| && !InScope(j.root, q)
    ensures TouchedBy(j.Replayed(a, b), q) <==> j.shouldInclude(q) && CrossedBetween(j, a, b, q)
    ensures !(j.shouldInclude(q) && CrossedBetween(j, a, b, q)) ==>
              Lookup(ApplyAll(j.Replayed(a, b), m), q) == Lookup(m, q)
  {
    var gs := j.ReplayGroups()[a..b];
    FlattenTouchedBy(gs, q);
    forall k | 0 <= k < |gs| ensures TouchedBy(gs[k], q) <==> j.shouldInclude(q) && CrossesAt(j.root, j.h.log[a + k], q) {
      assert WellFormed(j.h.log[a + k]);
      OutsideWriteIff(j, j.h.log[a + k], q);
    }
    if i :| a <= i < b && CrossesAt(j.root, j.h.log[i], q) {
      assert gs[i - a] == j.EventWrites(j.h.log[i]);
    }
    LastWriteDecides(j.Replayed(a, b), m, q);
  }

  // ---------------------------------------------------------------------------------------
  // A replay that begins too late
  // ---------------------------------------------------------------------------------------

  /** What was read although it is not there any more when the replay begins, and is not written
      since, stays in the backup for good, also in a first one: because a listing was behind the log,
      or because the offset could not be stored and the stream starts from now. */
  lemma {:induction false} ReadTooEarlyStays(j: Job, b: Traversal, run: seq<Bfs>, passes: seq<Pass>, r: nat, after: Store, q: Path)
    requires Complete(j, b, run, passes, r) && BackedUp(j, b, run, passes, r, map[], after)
    requires InScope(j.root, q) && j.shouldInclude(q) && q !in j.h.At(r) && !j.h.Changes(r, |j.h.log|, q)
    requires LastVisit(run[|run|-1].visits, q).Some?
    ensures !Faithful(j, after)
  {
    VisitsAreReads(b, run);
    var visits := run[|run|-1].visits;
    FaithfulIffReadRight(j, visits, passes, r, map[]);
    assert Unreplayed(j, r, q);
    assert !ReadRight(j, visits, r, map[], q);
  }

  // ---------------------------------------------------------------------------------------
  // For instance
  // ---------------------------------------------------------------------------------------

  const GONE := Entry("f", false, "")

  /** One file, which is deleted. */
  ghost predicate OneDeletion(j: Job, b: Traversal) {
    && j.Valid() && j.root == "/" && (forall q :: j.shouldInclude(q)) && b == Traversal(j.h, "/", 0)
    && |j.h.log| == 1 && j.h.At(0) == map["/f" := GONE] && j.h.At(1) == map[]
  }

  lemma FilePaths()
    ensures Child("/", "f") == "/f" && "/" <= "/f" && PathPrefix("/") == "/"
    ensures '/' in "/f" && Parent("/f") == "/" && Name("/f") == "f" && PlainName("f")
  {
  }

  /** A log of one event. */
  lemma {:induction false} OneEvent(h: History, op: Op)
    requires |h.log| == 1 && SourceWrites(h.log[0]) == [op]
    ensures h.At(0) == h.initial && h.At(1) == op.Apply(h.initial)
  {
    var gs := h.Groups();
    assert gs[0..0] == [] && gs[0..1] == [[op]] && [[op]][..0] == [];
    assert Flatten([[op]]) == [op] && [op][..0] == [];
  }

  lemma HasOneDeletion() returns (j: Job, b: Traversal)
    ensures OneDeletion(j, b)
  {
    FilePaths();
    var e := Event(1, "/", Some(GONE), None, "", []);
    j := Job(History(map["/f" := GONE], [e]), "/", _ => true);
    b := Traversal(j.h, "/", 0);
    assert SourceWrites(e) == [Remove("/f")];
    OneEvent(j.h, Remove("/f"));
    assert map["/f" := GONE] - {"/f"} == map[];
  }

  lemma OnlyChild(other: string)
    requires IsChild(map["/f" := GONE], "/", other)
    ensures other == "f"
  {
    assert other[0] in other;
    assert "/" + other == "/f";
    assert ("/" + other)[1..] == "/f"[1..] == "f";
  }

  lemma OneFileShaped()
    ensures TreeShaped(map["/f" := GONE], "/") && TreeShaped(map[], "/")
  {
  }

  lemma OneDeletionShaped(j: Job, b: Traversal)
    requires OneDeletion(j, b)
    ensures b.Valid()
  {
    OneFileShaped();
    assert b.ShapedAt(0) && b.ShapedAt(1);
  }

  lemma SourceIsPage(b: Traversal, t: nat)
    requires b.from <= t <= |b.h.log|
    ensures b.Page(b.h.At(t)) && forall q :: b.ReadAt(b.h.At(t), q, t)
  {
    forall q ensures b.ReadAt(b.h.At(t), q, t) && b.Shown(b.h.At(t), q) {
      assert b.ReadAt(b.h.At(t), q, t);
    }
  }

  lemma OnlyNames()
    ensures NextName(map["/f" := GONE], "/", "", "f") && Exhausted(map["/f" := GONE], "/", "f")
  {
    FilePaths();
    forall other | IsChild(map["/f" := GONE], "/", other) ensures other == "f" {
      OnlyChild(other);
    }
  }

  lemma RootOpened(b: Traversal, s: Bfs, s': Bfs)
    requires s == Bfs(["/"], [], {}, []) && s' == Bfs([], [Listing("/", "")], {}, [])
    ensures StepsOf(b)(s, s')
  {
    assert b.Open(s, s');
  }

  lemma FileDelivered(j: Job, b: Traversal, s: Bfs, s': Bfs)
    requires OneDeletion(j, b)
    requires s == Bfs([], [Listing("/", "")], {}, []) && s' == Bfs([], [Listing("/", "f")], {}, [Visit("/f", 0)])
    ensures StepsOf(b)(s, s')
  {
    FilePaths();
    OnlyNames();
    SourceIsPage(b, 0);
    assert b.Deliver(s, s', 0, b.h.At(0), 0, "f");
  }

  lemma RootClosed(j: Job, b: Traversal, s: Bfs, s': Bfs)
    requires OneDeletion(j, b)
    requires s == Bfs([], [Listing("/", "f")], {}, [Visit("/f", 0)]) && s' == Bfs([], [], {"/"}, [Visit("/f", 0)])
    ensures StepsOf(b)(s, s')
  {
    OnlyNames();
    SourceIsPage(b, 0);
    assert b.Close(s, s', 0, b.h.At(0));
  }

  /** The traversal reads the file and is done. */
  lemma FileRead(j: Job, b: Traversal) returns (run: seq<Bfs>)
    requires OneDeletion(j, b)
    ensures Run(b, run) && Done(run[|run|-1]) && run[|run|-1].visits == [Visit("/f", 0)]
  {
    var s0 := Bfs(["/"], [], {}, []);
    var s1 := Bfs([], [Listing("/", "")], {}, []);
    var s2 := Bfs([], [Listing("/", "f")], {}, [Visit("/f", 0)]);
    var s3 := Bfs([], [], {"/"}, [Visit("/f", 0)]);
    RootOpened(b, s0, s1);
    FileDelivered(j, b, s1, s2);
    RootClosed(j, b, s2, s3);
    run := [s0, s1, s2, s3];
    FourStates(StepsOf(b), s0, s1, s2, s3);
  }

  lemma FourStates<T(!new)>(step: (T, T) -> bool, s0: T, s1: T, s2: T, s3: T)
    requires step(s0, s1) && step(s1, s2) && step(s2, s3)
    ensures Chain(step, [s0, s1, s2, s3])
  {
  }

  /** A file is read although its deletion is the one event logged when the replay begins. */
  lemma DeletedFileStays() returns (j: Job, b: Traversal, run: seq<Bfs>, passes: seq<Pass>, after: Store)
    ensures OneDeletion(j, b) && Complete(j, b, run, passes, 1) && BackedUp(j, b, run, passes, 1, map[], after)
    ensures !Faithful(j, after)
  {
    j, b := HasOneDeletion();
    OneDeletionShaped(j, b);
    run := FileRead(j, b);
    passes := [Pass(1, 1)];
    VisitsAreReads(b, run);
    after := AfterPasses(j, passes, ApplyAll(TraverseWrites(j, run[|run|-1].visits), map[]));
    FilePaths();
    NothingLeft(j.h, "/f");
    ReadTooEarlyStays(j, b, run, passes, 1, after, "/f");
  }
}
