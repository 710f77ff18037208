/**
 The breadth-first traversal of a live filer (weed/pb/filer_pb/filer_client_bfs.go) as a step
 system: several directories are listed at a time, page by page, while the source goes on
 changing. No two entries need have been read at the same time, not even those of one page: the
 filer logs an entry of a folder as deleted before it removes it from its store
 (weed/filer/filer_delete_entry.go), and inserts a new one before it logs it, so a page may be
 behind the log at one path and ahead of it at another.
 */
module MetaTraversal {
  import opened Names
  import opened Reachability
  import opened AbsoluteWrites
  import opened SyncEvents
  import opened MetaBackup

  // ---------------------------------------------------------------------------------------
  // Directories and paths
  // ---------------------------------------------------------------------------------------

  function LastSlash(q: Path): (k: nat)
    requires '/' in q
    ensures k < |q| && q[k] == '/' && '/' !in q[k + 1..]
  {
    if q[|q|-1] == '/' then |q| - 1
    else
      assert q == q[..|q|-1] + [q[|q|-1]];
      var k := LastSlash(q[..|q|-1]);
      assert q[k + 1..] == q[..|q|-1][k + 1..] + [q[|q|-1]];
      k
  }

  function Parent(q: Path): (d: Path)
    requires '/' in q
    ensures |d| < |q| || q == "/"
  {
    var k := LastSlash(q);
    if k == 0 then "/" else q[..k]
  }

  function Name(q: Path): string
    requires '/' in q
  {
    q[LastSlash(q) + 1..]
  }

  predicate Clean(d: Path) { d == "/" || (d != "" && d[|d|-1] != '/') }

  lemma ChildIsClean(root: Path, d: Path, name: string)
    requires PlainName(name) && Clean(d) && (d == root || InScope(root, d))
    ensures Clean(Child(d, name)) && InScope(root, Child(d, name))
  {
  }

  /** The entry is where entries are: directly in the root or in a directory of the store. */
  predicate Placed(m: Store, root: Path, q: Path) {
    && '/' in q && PlainName(Name(q)) && q == Child(Parent(q), Name(q))
    && (Parent(q) == root || (InScope(root, Parent(q)) && Parent(q) in m && m[Parent(q)].isDirectory))
  }

  predicate TreeShaped(m: Store, root: Path) {
    forall q <- m :: InScope(root, q) ==> Placed(m, root, q)
  }

  // ---------------------------------------------------------------------------------------
  // Traversing
  // ---------------------------------------------------------------------------------------

  /** An entry read at a time. */
  datatype Visit = Visit(path: Path, time: nat)

  /** A directory being listed: the names up to `cursor` have been delivered. */
  datatype Listing = Listing(dir: Path, cursor: string)

  /** `closed` is history: the directories whose listing is complete. */
  datatype Bfs = Bfs(queue: seq<Path>, open: seq<Listing>, closed: set<Path>, visits: seq<Visit>)

  predicate IsChild(m: Store, d: Path, name: string) { PlainName(name) && Child(d, name) in m }

  ghost predicate NextName(m: Store, d: Path, cursor: string, name: string) {
    && IsChild(m, d, name) && Before(cursor, name)
    && forall other :: IsChild(m, d, other) && Before(cursor, other) ==> !Before(other, name)
  }

  ghost predicate Exhausted(m: Store, d: Path, cursor: string) {
    forall other :: IsChild(m, d, other) ==> !Before(cursor, other)
  }

  /** A traversal of `root` that never reads an entry as it was before `from` events were logged. */
  datatype Traversal = Traversal(h: History, root: Path, from: nat) {

    ghost predicate Valid() {
      && from <= |h.log| && Clean(root)
      && forall t :: from <= t <= |h.log| ==> ShapedAt(t)
    }

    ghost predicate ShapedAt(t: nat) { t <= |h.log| && TreeShaped(h.At(t), root) }

    predicate Start(s: Bfs) { s == Bfs([root], [], {}, []) }

    predicate Open(s: Bfs, s': Bfs) {
      s.queue != [] && s' == s.(queue := s.queue[1..], open := s.open + [Listing(s.queue[0], "")])
    }

    /** `m` has at `q` what the source had there after `t` events. */
    ghost predicate ReadAt(m: Store, q: Path, t: nat) { from <= t <= |h.log| && Lookup(m, q) == Lookup(h.At(t), q) }

    ghost predicate Shown(m: Store, q: Path) { exists t :: ReadAt(m, q, t) }

    /** What a listing may be read from: each path as it was at some time. */
    ghost predicate Page(m: Store) {
      forall q :: Shown(m, q)
    }

    /** The next entry of a listing is handed out, as it was at time `t`. */
    ghost predicate Deliver(s: Bfs, s': Bfs, k: nat, m: Store, t: nat, name: string) {
      && k < |s.open| && Page(m)
      && var Listing(d, cursor) := s.open[k];
         var q := Child(d, name);
         && NextName(m, d, cursor, name) && ReadAt(m, q, t)
         && s' == s.(open := s.open[k := Listing(d, name)], visits := s.visits + [Visit(q, t)],
                     queue := if m[q].isDirectory then s.queue + [q] else s.queue)
    }

    ghost predicate Close(s: Bfs, s': Bfs, k: nat, m: Store) {
      && k < |s.open| && Page(m)
      && Exhausted(m, s.open[k].dir, s.open[k].cursor)
      && s' == s.(open := s.open[..k] + s.open[k + 1..], closed := s.closed + {s.open[k].dir})
    }

    ghost predicate Step(s: Bfs, s': Bfs) {
      || Open(s, s')
      || (exists k, m, t, name :: Deliver(s, s', k, m, t, name))
      || (exists k, m :: Close(s, s', k, m))
    }

    /** There throughout. */
    ghost predicate Steady(q: Path) {
      forall t :: from <= t <= |h.log| ==> PresentAt(t, q)
    }

    ghost predicate PresentAt(t: nat, q: Path) { t <= |h.log| && q in h.At(t) }

    ghost predicate DirectoryAt(t: nat, d: Path) { t <= |h.log| && d in h.At(t) && h.At(t)[d].isDirectory }

    // -------------------------------------------------------------------------------------
    // What every reachable state satisfies
    // -------------------------------------------------------------------------------------

    predicate GoodDir(d: Path) { Clean(d) && (d == root || InScope(root, d)) }

    predicate VisitOk(v: Visit) {
      from <= v.time <= |h.log| && v.path in h.At(v.time) && InScope(root, v.path)
    }

    predicate VisitsOk(s: Bfs) { forall v <- s.visits :: VisitOk(v) }

    ghost predicate Visited(s: Bfs, q: Path) { exists v :: v in s.visits && v.path == q }

    /** The traversal has seen that `d` is a directory. */
    ghost predicate Known(s: Bfs, d: Path) {
      d == root || exists v :: v in s.visits && SeenAsDirectory(v, d)
    }

    ghost predicate SeenAsDirectory(v: Visit, d: Path) { v.path == d && DirectoryAt(v.time, d) }

    ghost predicate Scheduled(s: Bfs, d: Path) {
      d in s.queue || d in s.closed || exists k :: 0 <= k < |s.open| && s.open[k].dir == d
    }

    ghost predicate DeliveredUpTo(s: Bfs, l: Listing) {
      forall name :: PlainName(name) && Steady(Child(l.dir, name)) && !Before(l.cursor, name) ==> Visited(s, Child(l.dir, name))
    }

    ghost predicate AllDelivered(s: Bfs, d: Path) {
      forall name :: PlainName(name) && Steady(Child(d, name)) ==> Visited(s, Child(d, name))
    }

    ghost predicate Inv(s: Bfs) {
      && VisitsOk(s)
      && (forall d <- s.queue :: GoodDir(d))
      && (forall l <- s.open :: GoodDir(l.dir) && DeliveredUpTo(s, l))
      && (forall d <- s.closed :: AllDelivered(s, d))
      && forall d :: Known(s, d) ==> Scheduled(s, d)
    }
  }

  lemma StartInv(b: Traversal, s: Bfs)
    requires b.Valid() && b.Start(s)
    ensures b.Inv(s)
  {
  }

  /** What has been delivered stays so. */
  lemma KeepsDelivered(b: Traversal, s: Bfs, s': Bfs, l: Listing)
    requires s.visits <= s'.visits && b.DeliveredUpTo(s, l)
    ensures b.DeliveredUpTo(s', l)
  {
  }

  lemma KeepsAllDelivered(b: Traversal, s: Bfs, s': Bfs, d: Path)
    requires s.visits <= s'.visits && b.AllDelivered(s, d)
    ensures b.AllDelivered(s', d)
  {
  }

  lemma KeepsVisited(b: Traversal, s: Bfs, s': Bfs, q: Path)
    requires s.visits <= s'.visits && b.Visited(s, q)
    ensures b.Visited(s', q)
  {
  }

  lemma OpenInv(b: Traversal, s: Bfs, s': Bfs)
    requires b.Valid() && b.Inv(s) && b.Open(s, s')
    ensures b.Inv(s')
  {
    var fresh' := Listing(s.queue[0], "");
    assert s.queue[0] in s.queue;
    forall l <- s'.open ensures b.GoodDir(l.dir) && b.DeliveredUpTo(s', l) {
      if l in s.open {
        assert b.DeliveredUpTo(s, l);
        KeepsDelivered(b, s, s', l);
      } else {
        assert l == fresh';
        assert forall name :: PlainName(name) ==> Before("", name);
      }
    }
    forall d <- s'.closed ensures b.AllDelivered(s', d) {
      assert b.AllDelivered(s, d);
      KeepsAllDelivered(b, s, s', d);
    }
    forall d | b.Known(s', d) ensures b.Scheduled(s', d) {
      assert b.Known(s, d);
      OpenSchedules(b, s, s', d);
    }
  }

  lemma OpenSchedules(b: Traversal, s: Bfs, s': Bfs, d: Path)
    requires b.Open(s, s') && b.Scheduled(s, d)
    ensures b.Scheduled(s', d)
  {
    if k :| 0 <= k < |s.open| && s.open[k].dir == d {
      assert s'.open[k].dir == d;
    } else if d == s.queue[0] {
      assert s'.open[|s.open|].dir == d;
    } else if d in s.queue {
      assert s.queue == [s.queue[0]] + s.queue[1..];
    }
  }

  /** What is there throughout is on every page. */
  lemma SteadyIsShown(b: Traversal, m: Store, q: Path)
    requires b.Page(m) && b.Steady(q)
    ensures q in m
  {
    assert b.Shown(m, q);
    var t :| b.ReadAt(m, q, t);
    assert b.PresentAt(t, q);
  }

  /** Delivering the next name completes the listing up to that name. */
  lemma DeliverCovers(b: Traversal, s: Bfs, s': Bfs, k: nat, m: Store, t: nat, name: string)
    requires b.Inv(s) && b.Deliver(s, s', k, m, t, name)
    ensures b.DeliveredUpTo(s', s'.open[k])
  {
    var l := s.open[k];
    assert l in s.open;
    assert b.DeliveredUpTo(s, l);
    forall other | PlainName(other) && b.Steady(Child(l.dir, other)) && !Before(name, other)
      ensures b.Visited(s', Child(l.dir, other))
    {
      if !Before(l.cursor, other) {
        KeepsVisited(b, s, s', Child(l.dir, other));
      } else {
        SteadyIsShown(b, m, Child(l.dir, other));
        BeforeTotal(name, other);
        assert s'.visits[|s.visits|] in s'.visits;
      }
    }
  }

  lemma DeliverSchedules(b: Traversal, s: Bfs, s': Bfs, k: nat, m: Store, t: nat, name: string, d: Path)
    requires b.Inv(s) && b.Deliver(s, s', k, m, t, name) && b.Known(s', d)
    ensures b.Scheduled(s', d)
  {
    var q := Child(s.open[k].dir, name);
    if b.Known(s, d) {
      assert b.Scheduled(s, d);
      if i :| 0 <= i < |s.open| && s.open[i].dir == d {
        assert s'.open[i].dir == d;
      }
    } else {
      var v :| v in s'.visits && b.SeenAsDirectory(v, d);
      assert v !in s.visits;
      assert v == Visit(q, t);
    }
  }

  lemma DeliverInv(b: Traversal, s: Bfs, s': Bfs, k: nat, m: Store, t: nat, name: string)
    requires b.Valid() && b.Inv(s) && b.Deliver(s, s', k, m, t, name)
    ensures b.Inv(s')
  {
    var dir := s.open[k].dir;
    var q := Child(dir, name);
    assert s.open[k] in s.open;
    ChildIsClean(b.root, dir, name);
    forall l <- s'.open ensures b.GoodDir(l.dir) && b.DeliveredUpTo(s', l) {
      if l == s'.open[k] {
        DeliverCovers(b, s, s', k, m, t, name);
      } else {
        assert l in s.open && b.DeliveredUpTo(s, l);
        KeepsDelivered(b, s, s', l);
      }
    }
    forall d <- s'.closed ensures b.AllDelivered(s', d) {
      assert b.AllDelivered(s, d);
      KeepsAllDelivered(b, s, s', d);
    }
    forall d | b.Known(s', d) ensures b.Scheduled(s', d) {
      DeliverSchedules(b, s, s', k, m, t, name, d);
    }
  }

  lemma CloseCovers(b: Traversal, s: Bfs, s': Bfs, k: nat, m: Store)
    requires b.Inv(s) && b.Close(s, s', k, m)
    ensures b.AllDelivered(s', s.open[k].dir)
  {
    var l := s.open[k];
    assert l in s.open;
    assert b.DeliveredUpTo(s, l);
    forall name | PlainName(name) && b.Steady(Child(l.dir, name)) ensures b.Visited(s', Child(l.dir, name)) {
      SteadyIsShown(b, m, Child(l.dir, name));
      KeepsVisited(b, s, s', Child(l.dir, name));
    }
  }

  lemma CloseSchedules(b: Traversal, s: Bfs, s': Bfs, k: nat, m: Store, d: Path)
    requires b.Close(s, s', k, m) && b.Scheduled(s, d)
    ensures b.Scheduled(s', d)
  {
    if i :| 0 <= i < |s.open| && s.open[i].dir == d {
      if i < k {
        assert s'.open[i].dir == d;
      } else if k < i {
        assert s'.open[i - 1].dir == d;
      }
    }
  }

  lemma CloseInv(b: Traversal, s: Bfs, s': Bfs, k: nat, m: Store)
    requires b.Valid() && b.Inv(s) && b.Close(s, s', k, m)
    ensures b.Inv(s')
  {
    forall l <- s'.open ensures b.GoodDir(l.dir) && b.DeliveredUpTo(s', l) {
      assert l in s.open && b.DeliveredUpTo(s, l);
      KeepsDelivered(b, s, s', l);
    }
    forall d <- s'.closed ensures b.AllDelivered(s', d) {
      if d == s.open[k].dir {
        CloseCovers(b, s, s', k, m);
      } else {
        assert b.AllDelivered(s, d);
        KeepsAllDelivered(b, s, s', d);
      }
    }
    forall d | b.Known(s', d) ensures b.Scheduled(s', d) {
      assert b.Known(s, d);
      CloseSchedules(b, s, s', k, m, d);
    }
  }

  ghost function StepsOf(b: Traversal): (Bfs, Bfs) -> bool {
    (s: Bfs, s': Bfs) => b.Step(s, s')
  }

  lemma StepInv(b: Traversal, s: Bfs, s': Bfs)
    requires b.Valid() && b.Inv(s) && b.Step(s, s')
    ensures b.Inv(s')
  {
    if b.Open(s, s') {
      OpenInv(b, s, s');
    } else if k, m, t, name :| b.Deliver(s, s', k, m, t, name) {
      DeliverInv(b, s, s', k, m, t, name);
    } else {
      var k, m :| b.Close(s, s', k, m);
      CloseInv(b, s, s', k, m);
    }
  }

  ghost predicate Run(b: Traversal, run: seq<Bfs>) {
    Chain(StepsOf(b), run) && b.Start(run[0])
  }

  predicate Done(s: Bfs) { s.queue == [] && s.open == [] }

  lemma {:induction false} RunInv(b: Traversal, run: seq<Bfs>, k: nat)
    requires b.Valid() && Run(b, run) && k < |run|
    ensures b.Inv(run[k])
  {
    if k == 0 {
      StartInv(b, run[0]);
    } else {
      RunInv(b, run, k - 1);
      assert StepAt(StepsOf(b), run, k - 1);
      StepInv(b, run[k-1], run[k]);
    }
  }

  /** A directory of a steady entry is steady, and is a directory whenever it is read. */
  lemma SteadyParent(b: Traversal, q: Path)
    requires b.Valid() && b.Steady(q) && InScope(b.root, q)
    ensures '/' in q && PlainName(Name(q)) && q == Child(Parent(q), Name(q))
    ensures Parent(q) != b.root ==> InScope(b.root, Parent(q)) && b.Steady(Parent(q)) && |Parent(q)| < |q|
    ensures Parent(q) != b.root ==> forall t :: b.from <= t <= |b.h.log| ==> b.DirectoryAt(t, Parent(q))
  {
    assert b.ShapedAt(b.from) && b.PresentAt(b.from, q);
    assert Placed(b.h.At(b.from), b.root, q);
    if Parent(q) != b.root {
      forall t | b.from <= t <= |b.h.log| ensures b.PresentAt(t, Parent(q)) && b.DirectoryAt(t, Parent(q)) {
        assert b.ShapedAt(t) && b.PresentAt(t, q);
        assert Placed(b.h.At(t), b.root, q);
      }
    }
  }

  /** A finished traversal has visited every entry that was there throughout, however the source
      changed and the listings interleaved. */
  lemma {:induction false} SteadyIsVisited(b: Traversal, s: Bfs, q: Path)
    requires b.Valid() && b.Inv(s) && Done(s) && b.Steady(q) && InScope(b.root, q)
    ensures b.Visited(s, q)
    decreases |q|
  {
    SteadyParent(b, q);
    var d := Parent(q);
    if d != b.root {
      SteadyIsVisited(b, s, d);
      var v :| v in s.visits && v.path == d;
      assert b.VisitOk(v);
      assert b.SeenAsDirectory(v, d);
    }
    assert b.Known(s, d);
    assert b.Scheduled(s, d);
    assert b.AllDelivered(s, d);
  }

  lemma TraversalCovers(b: Traversal, run: seq<Bfs>, q: Path)
    requires b.Valid() && Run(b, run) && Done(run[|run|-1])
    requires b.Steady(q) && InScope(b.root, q)
    ensures b.Visited(run[|run|-1], q)
  {
    RunInv(b, run, |run| - 1);
    SteadyIsVisited(b, run[|run|-1], q);
  }
}
