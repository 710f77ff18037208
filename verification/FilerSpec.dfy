/**
 What the filer's operations do to a store, as functions and predicates on values: looking an
 entry up, making the directories above it, and tidying up directories that have become empty.
 */
module FilerSpec {
  import opened FileChunks
  import opened Namespace

  /** A change announced to subscribers. */
  datatype Event = Event(path: Path, oldEntry: Option<Entry>, newEntry: Option<Entry>)

  /** `systemLog` are the paths of which no change is announced, `keepChunks` the folders under a
      rule that disables chunk deletion. */
  datatype Config = Config(
    buckets: Path, canDropWholeBucket: bool, validBucketName: string -> bool, maxNameLength: nat,
    systemLog: Path -> bool, keepChunks: Path -> bool)

  /** How a write to the underlying store turns out: `Reported` is stored all the same. */
  datatype Outcome = Stored | Lost | Reported

  /** The circumstances of one operation: when it happens and which store calls fail. */
  datatype Env = Env(now: int, write: Path -> Outcome, deleteOneFails: Path -> bool, deleteChildrenFails: Path -> bool)

  const ROOT := Entry(true, 0, 0, 0, false, false, "", 0, "", [])

  function Announce(c: Config, e: Event): seq<Event> {
    if c.systemLog(e.path) then [] else [e]
  }

  // ---------------------------------------------------------------------------------------
  // Looking up
  // ---------------------------------------------------------------------------------------

  /** What a lookup finds: an expired entry is not there. */
  function Found(m: Store, p: Path, now: int): Option<Entry> {
    if p == [] then Some(ROOT) else if p in m && !m[p].Expired(now) then Some(m[p]) else None
  }

  predicate Expiring(m: Store, p: Path, env: Env) {
    p != [] && p in m && m[p].Expired(env.now) && !env.deleteOneFails(p)
  }

  function AfterFind(m: Store, p: Path, env: Env): Store {
    if Expiring(m, p, env) then m - {p} else m
  }

  /** What a lookup announces: the removal of an expired file, if it is one of those kept for S3. */
  function FindNews(c: Config, m: Store, p: Path, env: Env): seq<Event> {
    if Expiring(m, p, env) && m[p].s3Expires && !m[p].isDirectory then Announce(c, Event(p, Some(m[p]), None)) else []
  }

  lemma FindKeepsTree(m: Store, p: Path, env: Env)
    requires Tree(m)
    ensures Tree(AfterFind(m, p, env))
  {
  }

  // ---------------------------------------------------------------------------------------
  // Making directories
  // ---------------------------------------------------------------------------------------

  /** The directory made on the way down to an entry. */
  function NewDirectory(entry: Entry, now: int): Entry {
    Entry(true, 0, now, now, false, false, "", 0, entry.owner, [])
  }

  /** How far down the path, up to `k` names, something is found. */
  function Deepest(m: Store, path: Path, k: nat, now: int): (d: nat)
    requires k <= |path|
    ensures d <= k && Found(m, path[..d], now).Some?
    ensures forall i :: d < i <= k ==> Found(m, path[..i], now).None?
  {
    if k == 0 || Found(m, path[..k], now).Some? then k else Deepest(m, path, k - 1, now)
  }

  predicate BucketNameOk(c: Config, path: Path) {
    |path| >= 2 && path[0] == "buckets" ==> "." <= path[1] || c.validBucketName(path[1])
  }

  /** The first `k` directories of the path can be had: the deepest one found is a directory, and
      those below it can be made. */
  predicate CanMake(c: Config, m: Store, path: Path, k: nat, env: Env)
    requires k <= |path|
  {
    var d := Deepest(m, path, k, env.now);
    && Found(m, path[..d], env.now).value.isDirectory
    && (d < k ==> BucketNameOk(c, path))
    && forall i :: d < i <= k ==> env.write(path[..i]) != Lost
  }

  /** `q` is one of the directories of the path below its first `d` and up to its first `k`. */
  predicate Between(path: Path, d: nat, k: nat, q: Path) {
    d < |q| <= k <= |path| && q == path[..|q|]
  }

  predicate Same(m: Store, m': Store, q: Path) {
    if q in m then q in m' && m'[q] == m[q] else q !in m'
  }

  /** What making directories left at the first `i` names of the path: the directory, or, if it
      did not come to that, what was there, or nothing where something had expired. */
  predicate MadeAt(m: Store, m': Store, path: Path, i: nat, entry: Entry, env: Env, ok: bool)
    requires i <= |path|
  {
    var q := path[..i];
    if ok then q in m' && m'[q] == NewDirectory(entry, env.now)
    else q !in m' || m'[q] == NewDirectory(entry, env.now) || Same(m, m', q)
  }

  /** Nothing but the directories that were missing is touched. */
  ghost predicate Made(m: Store, m': Store, path: Path, k: nat, entry: Entry, env: Env, ok: bool)
    requires k <= |path|
  {
    var d := Deepest(m, path, k, env.now);
    && (forall q :: !Between(path, d, k, q) ==> Same(m, m', q))
    && forall i :: d < i <= k ==> MadeAt(m, m', path, i, entry, env, ok)
  }

  lemma InsertKeepsTree(m: Store, q: Path, e: Entry)
    requires Tree(m) && q != [] && (|q| == 1 || (Parent(q) in m && m[Parent(q)].isDirectory))
    requires if e.isDirectory then e.ttl <= 0 else q in m ==> !m[q].isDirectory
    ensures Tree(m[q := e])
  {
  }

  // ---------------------------------------------------------------------------------------
  // Creating
  // ---------------------------------------------------------------------------------------

  /** The chunks of `xs` that are not among `ys`. */
  function Minus(xs: seq<string>, ys: seq<string>): (zs: seq<string>)
    ensures forall x :: x in zs <==> x in xs && x !in ys
  {
    if xs == [] then [] else (if xs[0] in ys then [] else [xs[0]]) + Minus(xs[1..], ys)
  }

  /** The entry as stored: a directory has no time to live, and an update keeps the creation
      time. */
  function AsStored(entry: Entry, oldEntry: Option<Entry>): Entry {
    var e := if entry.isDirectory then entry.(ttl := 0) else entry;
    if oldEntry.Some? then e.(crtime := oldEntry.value.crtime) else e
  }

  predicate CanCreate(
    c: Config, m: Store, path: Path, entry: Entry, oExcl: bool, skipParents: bool, maxNameLength: nat, env: Env)
  {
    || path == []
    || (&& (maxNameLength == 0 || |path[|path|-1]| <= maxNameLength)
        && env.write(path).Stored?
        && match Found(m, path, env.now)
           case Some(e) => !oExcl && e.isDirectory == entry.isDirectory
           case None => skipParents || CanMake(c, m, path, |path| - 1, env))
  }

  /** Nothing changes but the entry and, above it, what was missing. */
  ghost predicate OnlyAbove(m: Store, m': Store, path: Path, env: Env) {
    && (forall q :: q != path && !Under(q, path) ==> Same(m, m', q))
    && forall q :: Under(q, path) && q != [] && Found(m, q, env.now).Some? ==> Same(m, m', q)
  }

  /** What creating leaves at the path. */
  predicate CreatedAt(m: Store, m': Store, path: Path, entry: Entry, ok: bool, env: Env) {
    && (ok && path != [] ==> path in m' && m'[path] == AsStored(entry, Found(m, path, env.now)))
    && (!ok && path in m' && !env.write(path).Reported? ==> Same(m, m', path))
  }

  /** An update keeps a tree unless it gives a directory a time to live. */
  lemma UpdateKeepsTree(m: Store, path: Path, e: Entry)
    requires Tree(m) && path in m && m[path].isDirectory == e.isDirectory
    ensures Tree(m[path := e]) <==> (e.isDirectory ==> e.ttl <= 0)
  {
    assert Placed(m, path);
    var m' := m[path := e];
    if e.isDirectory && e.ttl > 0 {
      assert !Placed(m', path);
    } else {
      InsertKeepsTree(m, path, e);
    }
  }

  /** Without the directories above, a new entry keeps a tree only if its directory is there. */
  lemma SkippingParents(m: Store, path: Path, e: Entry)
    requires Tree(m) && path != [] && path !in m && (e.isDirectory ==> e.ttl <= 0)
    ensures Tree(m[path := e]) <==> |path| == 1 || (Parent(path) in m && m[Parent(path)].isDirectory)
  {
    var m' := m[path := e];
    if |path| == 1 || (Parent(path) in m && m[Parent(path)].isDirectory) {
      InsertKeepsTree(m, path, e);
    } else {
      assert !Placed(m', path);
    }
  }

  // ---------------------------------------------------------------------------------------
  // Tidying up
  // ---------------------------------------------------------------------------------------

  /** A directory may be tidied up: it is neither the root nor where to stop, lies below a given
      place to stop, and below the level of the buckets. */
  predicate Eligible(c: Config, stop: Option<Path>, q: Path) {
    && q != [] && stop != Some(q) && (stop.Some? && stop.value != [] ==> Under(stop.value, q))
    && |q| > |c.buckets| + 1
  }

  predicate HasNoChild(m: Store, q: Path) {
    forall r <- m :: !(|r| == |q| + 1 && Under(q, r))
  }

  /** The store without the directories of the path below its first `j`. */
  function Without(m: Store, path: Path, j: nat): Store {
    map q | q in m && !Between(path, j, |path|, q) :: m[q]
  }

  lemma RemoveEmpty(m: Store, p: Path)
    requires Tree(m) && HasNoChild(m, p)
    ensures Tree(m - {p})
  {
  }

  /** What tidying up removes at one level: something empty but for what it removed below. */
  predicate Tidied(c: Config, stop: Option<Path>, m: Store, path: Path, i: nat, env: Env)
    requires i <= |path|
  {
    && Eligible(c, stop, path[..i]) && Found(m, path[..i], env.now).Some? && !env.deleteOneFails(path[..i])
    && forall r <- m :: |r| == i + 1 && Under(path[..i], r) ==> Between(path, i, |path|, r)
  }

  /** Why it stopped after the first `j` names. */
  predicate Stopped(c: Config, stop: Option<Path>, m': Store, path: Path, j: nat, env: Env)
    requires j <= |path|
  {
    || !Eligible(c, stop, path[..j]) || !HasNoChild(m', path[..j])
    || Found(m', path[..j], env.now).None? || env.deleteOneFails(path[..j])
  }

  /** Tidying up removed the directories of the path below its first `j`, level by level, and
      then had to stop. */
  ghost predicate TidiedUp(c: Config, stop: Option<Path>, m: Store, m': Store, path: Path, j: nat, env: Env) {
    && j <= |path|
    && (m' == Without(m, path, j) || m' == AfterFind(Without(m, path, j), path[..j], env))
    && (forall i :: j < i <= |path| ==> Tidied(c, stop, m, path, i, env))
    && Stopped(c, stop, m', path, j, env)
    && (Tree(m) ==> Tree(m'))
  }

  lemma TidiedNothing(c: Config, stop: Option<Path>, m: Store, m': Store, path: Path, env: Env)
    requires m' == m || m' == AfterFind(m, path, env)
    requires Stopped(c, stop, m', path, |path|, env)
    ensures TidiedUp(c, stop, m, m', path, |path|, env)
  {
    assert path[..|path|] == path;
    assert Without(m, path, |path|) == m;
    if Tree(m) {
      FindKeepsTree(m, path, env);
    }
  }

  lemma TidiedOneMore(c: Config, stop: Option<Path>, m: Store, m': Store, path: Path, j: nat, env: Env)
    requires Eligible(c, stop, path) && HasNoChild(m, path) && Found(m, path, env.now).Some? && !env.deleteOneFails(path)
    requires TidiedUp(c, stop, m - {path}, m', Parent(path), j, env)
    ensures TidiedUp(c, stop, m, m', path, j, env)
  {
    var up := Parent(path);
    assert path[..|path|] == path && up[..j] == path[..j];
    forall q <- m ensures Between(path, j, |path|, q) <==> q == path || Between(up, j, |up|, q) {
      assert |q| <= |up| ==> up[..|q|] == path[..|q|];
    }
    assert Without(m, path, j) == Without(m - {path}, up, j);
    forall i | j < i <= |path| ensures Tidied(c, stop, m, path, i, env) {
      if i < |path| {
        assert Tidied(c, stop, m - {path}, up, i, env);
        assert up[..i] == path[..i];
        forall r <- m | |r| == i + 1 && Under(path[..i], r) ensures Between(path, i, |path|, r) {
          assert r != path ==> Between(up, i, |up|, r);
        }
      }
    }
    if Tree(m) {
      RemoveEmpty(m, path);
    }
  }

  /** Something removed below a directory shows that it is one. */
  lemma AboveTidied(c: Config, stop: Option<Path>, m: Store, path: Path, i: nat, env: Env)
    requires Tree(m) && 0 < i < |path| && Tidied(c, stop, m, path, i + 1, env)
    ensures path[..i] in m && m[path[..i]].isDirectory && m[path[..i]].ttl <= 0
  {
    assert path[..i + 1][..i] == path[..i];
    AncestorsPresent(m, path[..i], path[..i + 1]);
    assert Placed(m, path[..i]);
  }

  /** What tidying up removes was tidied: nothing expired on the way. */
  lemma RemovedIsTidied(c: Config, stop: Option<Path>, m: Store, m': Store, path: Path, j: nat, env: Env, q: Path)
    requires Tree(m) && TidiedUp(c, stop, m, m', path, j, env) && q in m && q !in m'
    requires path in m ==> m[path].isDirectory
    ensures Between(path, j, |path|, q) && Tidied(c, stop, m, path, |q|, env)
  {
    assert path[..|path|] == path;
    assert Placed(m, q);
    if j < |path| {
      assert Tidied(c, stop, m, path, j + 1, env);
      if j > 0 {
        AboveTidied(c, stop, m, path, j, env);
      }
    }
  }

  /** Everything tidied up lies on the way down to the path, is a directory if the path is one, was
      empty when it went, and lies strictly below where to stop and below the level of the
      buckets. */
  lemma TidiesDirectories(c: Config, stop: Option<Path>, m: Store, m': Store, path: Path, j: nat, env: Env, q: Path)
    requires Tree(m) && TidiedUp(c, stop, m, m', path, j, env) && q in m && q !in m'
    requires path in m ==> m[path].isDirectory
    ensures q == path || Under(q, path)
    ensures m[q].isDirectory && Eligible(c, stop, q)
    ensures forall r <- m' :: !Under(q, r)
  {
    assert path[..|path|] == path;
    RemovedIsTidied(c, stop, m, m', path, j, env, q);
    if |q| < |path| {
      assert Tidied(c, stop, m, path, |q| + 1, env);
      AboveTidied(c, stop, m, path, |q|, env);
    }
    forall r <- m' ensures !Under(q, r) {
      if Under(q, r) {
        AncestorsPresent(m', q, r);
      }
    }
  }

  /** The exception: nothing checks that the path given is a directory. A file there is deleted
      like an empty directory. */
  lemma TidyingDeletesFile(c: Config, stop: Option<Path>, m: Store, m': Store, path: Path, j: nat, env: Env)
    requires Tree(m) && TidiedUp(c, stop, m, m', path, j, env)
    requires path in m && !m[path].isDirectory && !m[path].Expired(env.now)
    ensures path !in m' <==> Eligible(c, stop, path) && !env.deleteOneFails(path)
  {
    assert path[..|path|] == path;
    if j < |path| {
      assert Between(path, j, |path|, path);
      assert Tidied(c, stop, m, path, |path|, env);
    } else {
      NothingBelowFile(m, path);
      assert m' == m by {
        assert Without(m, path, |path|) == m;
      }
    }
  }

  lemma NothingBelowFile(m: Store, path: Path)
    requires Tree(m) && path in m && !m[path].isDirectory
    ensures HasNoChild(m, path)
  {
  }
}
