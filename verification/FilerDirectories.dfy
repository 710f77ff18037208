/**
 Making the directories above a new entry (weed/filer/filer.go, `ensureParentDirectoryEntry`),
 one level at a time, on values.
 */
module FilerDirectories {
  import opened Curtains
  import opened FileChunks
  import opened Namespace
  import opened FilerSpec

  function MadeNews(c: Config, path: Path, k: nat, entry: Entry, env: Env): seq<Event>
    requires k <= |path|
  {
    if env.write(path[..k]).Stored? && !c.systemLog(path)
    then Announce(c, Event(path[..k], None, Some(NewDirectory(entry, env.now)))) else []
  }

  /** What is announced of the directories below the first `lo` names up to the first `hi`: on the way
      up, what is found to have expired; */
  function LookedUpNews(c: Config, m: Store, path: Path, lo: nat, hi: nat, env: Env): seq<Event>
    requires hi <= |path|
  {
    if hi <= lo then [] else FindNews(c, m, path[..hi], env) + LookedUpNews(c, m, path, lo, hi - 1, env)
  }

  /** on the way down, what is made. */
  function AllMadeNews(c: Config, path: Path, lo: nat, hi: nat, entry: Entry, env: Env): seq<Event>
    requires hi <= |path|
  {
    if hi <= lo then [] else AllMadeNews(c, path, lo, hi - 1, entry, env) + MadeNews(c, path, hi, entry, env)
  }

  /** How far down directories are made until a write is lost. */
  function MadeDownTo(path: Path, lo: nat, hi: nat, env: Env): (j: nat)
    requires lo <= hi <= |path|
    ensures lo <= j <= hi && forall i :: lo < i <= j ==> !env.write(path[..i]).Lost?
    ensures j < hi ==> env.write(path[..j + 1]).Lost?
    decreases hi - lo
  {
    if lo == hi || env.write(path[..lo + 1]).Lost? then lo else MadeDownTo(path, lo + 1, hi, env)
  }

  /** All that is announced, whether it succeeds or not. */
  function EnsureNews(c: Config, m: Store, path: Path, k: nat, entry: Entry, env: Env): seq<Event>
    requires k <= |path|
  {
    var d := Deepest(m, path, k, env.now);
    if d < k && !BucketNameOk(c, path) then FindNews(c, m, path[..k], env)
    else LookedUpNews(c, m, path, d, k, env) + DownNews(c, m, path, d, k, entry, env)
  }

  /** What is announced from the deepest thing found on down, if it is a directory. */
  function DownNews(c: Config, m: Store, path: Path, d: nat, k: nat, entry: Entry, env: Env): seq<Event>
    requires d <= k <= |path|
  {
    if Found(m, path[..d], env.now).Some? && Found(m, path[..d], env.now).value.isDirectory
    then AllMadeNews(c, path, d, MadeDownTo(path, d, k, env), entry, env) else []
  }

  lemma {:induction false} LookedUpAbove(c: Config, m: Store, m': Store, path: Path, lo: nat, hi: nat, env: Env)
    requires hi <= |path| && forall i :: 0 <= i <= hi ==> Same(m, m', path[..i])
    ensures LookedUpNews(c, m, path, lo, hi, env) == LookedUpNews(c, m', path, lo, hi, env)
  {
    if hi > lo {
      LookedUpAbove(c, m, m', path, lo, hi - 1, env);
      assert Same(m, m', path[..hi]);
    }
  }

  lemma {:induction false} MadeDownToMore(path: Path, lo: nat, hi: nat, env: Env)
    requires lo < hi <= |path|
    ensures var j := MadeDownTo(path, lo, hi - 1, env);
            MadeDownTo(path, lo, hi, env) == if j == hi - 1 && !env.write(path[..hi]).Lost? then hi else j
    decreases hi - lo
  {
    if lo + 1 < hi && !env.write(path[..lo + 1]).Lost? {
      MadeDownToMore(path, lo + 1, hi, env);
    }
  }

  lemma {:induction false} CanMakeIff(c: Config, m: Store, path: Path, k: nat, env: Env)
    requires k <= |path| && BucketNameOk(c, path)
    ensures var d := Deepest(m, path, k, env.now);
            CanMake(c, m, path, k, env) <==> Found(m, path[..d], env.now).value.isDirectory && MadeDownTo(path, d, k, env) == k
  {
    var j := MadeDownTo(path, Deepest(m, path, k, env.now), k, env);
    assert j < k ==> env.write(path[..j + 1]).Lost?;
  }

  lemma OtherLevels(m: Store, path: Path, k: nat, env: Env)
    requires 0 < k <= |path|
    ensures forall i :: 0 <= i < k ==> Same(m, AfterFind(m, path[..k], env), path[..i])
  {
  }

  lemma {:induction false} DownNewsMore(c: Config, m: Store, m': Store, path: Path, d: nat, k: nat, entry: Entry, env: Env)
    requires d < k <= |path| && Same(m, m', path[..d])
    ensures DownNews(c, m, path, d, k, entry, env) ==
            DownNews(c, m', path, d, k - 1, entry, env) +
            if Found(m', path[..d], env.now).Some? && Found(m', path[..d], env.now).value.isDirectory
               && MadeDownTo(path, d, k - 1, env) == k - 1 && !env.write(path[..k]).Lost?
            then MadeNews(c, path, k, entry, env) else []
  {
    MadeDownToMore(path, d, k, env);
  }

  lemma {:induction false} LookedUpMore(c: Config, m: Store, path: Path, d: nat, k: nat, env: Env)
    requires d < k <= |path|
    ensures LookedUpNews(c, m, path, d, k, env) ==
            FindNews(c, m, path[..k], env) + LookedUpNews(c, AfterFind(m, path[..k], env), path, d, k - 1, env)
  {
    OtherLevels(m, path, k, env);
    LookedUpAbove(c, m, AfterFind(m, path[..k], env), path, d, k - 1, env);
  }

  /** What looking up one level more adds. */
  lemma {:induction false} EnsureNewsMore(c: Config, m: Store, path: Path, k: nat, entry: Entry, env: Env)
    requires 0 < k <= |path| && Found(m, path[..k], env.now).None? && BucketNameOk(c, path)
    ensures var m' := AfterFind(m, path[..k], env);
            EnsureNews(c, m, path, k, entry, env) ==
            FindNews(c, m, path[..k], env) + EnsureNews(c, m', path, k - 1, entry, env) +
            if CanMake(c, m', path, k - 1, env) && !env.write(path[..k]).Lost? then MadeNews(c, path, k, entry, env) else []
  {
    var m' := AfterFind(m, path[..k], env);
    FindKeeps(m, path, k, env);
    var d := Deepest(m, path, k, env.now);
    OtherLevels(m, path, k, env);
    assert Same(m, m', path[..d]);
    LookedUpMore(c, m, path, d, k, env);
    DownNewsMore(c, m, m', path, d, k, entry, env);
    CanMakeIff(c, m', path, k - 1, env);
    Regrouped(FindNews(c, m, path[..k], env), LookedUpNews(c, m', path, d, k - 1, env),
              DownNews(c, m', path, d, k - 1, entry, env), MadeNews(c, path, k, entry, env));
  }

  lemma Regrouped(xs: seq<Event>, ys: seq<Event>, zs: seq<Event>, us: seq<Event>)
    ensures xs + ys + (zs + us) == xs + (ys + zs) + us
    ensures xs + ys + zs == xs + (ys + zs) + [] && xs + ys + [] == xs + (ys + []) + []
  {
  }

  lemma CanMakeMore(c: Config, m: Store, path: Path, k: nat, env: Env)
    requires 0 < k <= |path| && Found(m, path[..k], env.now).None? && BucketNameOk(c, path)
    ensures CanMake(c, m, path, k, env) <==>
            CanMake(c, AfterFind(m, path[..k], env), path, k - 1, env) && !env.write(path[..k]).Lost?
  {
  }

  lemma MadeFailed(m: Store, m': Store, path: Path, k: nat, entry: Entry, env: Env, ok: bool)
    requires 0 < k <= |path| && Found(m, path[..k], env.now).None?
    requires Made(AfterFind(m, path[..k], env), m', path, k - 1, entry, env, ok)
    ensures Made(m, m', path, k, entry, env, false)
  {
    FindKeeps(m, path, k, env);
    var d, m0 := Deepest(m, path, k, env.now), AfterFind(m, path[..k], env);
    assert !Between(path, d, k - 1, path[..k]);
    assert Same(m0, m', path[..k]);
    forall q | !Between(path, d, k, q) ensures Same(m, m', q) {
      assert Between(path, d, k, path[..k]);
      assert !Between(path, d, k - 1, q) && q != path[..k];
      assert Same(m0, m', q);
    }
    forall i | d < i <= k ensures MadeAt(m, m', path, i, entry, env, false) {
      assert i < k ==> MadeAt(m0, m', path, i, entry, env, ok);
      assert i < k ==> path[..i] != path[..k];
    }
  }

  /** All that making directories promises. */
  ghost predicate Ensured(
    c: Config, m: Store, m': Store, path: Path, k: nat, entry: Entry, env: Env, ok: bool, news: seq<Event>)
    requires k <= |path|
  {
    forall o :: Opened(o) ==>
      && ok == CanMake(c, m, path, k, env)
      && Made(m, m', path, k, entry, env, ok)
      && (ok && k > 0 ==> path[..k] in m' && m'[path[..k]].isDirectory)
      && news == EnsureNews(c, m, path, k, entry, env)
      && (Tree(m) ==> Tree(m'))
  }

  lemma EnsuredFound(c: Config, m: Store, path: Path, k: nat, entry: Entry, env: Env)
    requires k <= |path| && Found(m, path[..k], env.now).Some?
    ensures Ensured(c, m, m, path, k, entry, env, Found(m, path[..k], env.now).value.isDirectory, [])
  {
  }

  lemma EnsuredBadBucket(c: Config, m: Store, path: Path, k: nat, entry: Entry, env: Env)
    requires 0 < k <= |path| && Found(m, path[..k], env.now).None? && !BucketNameOk(c, path)
    ensures Ensured(c, m, AfterFind(m, path[..k], env), path, k, entry, env, false, FindNews(c, m, path[..k], env))
  {
  }

  lemma EnsuredFailed(c: Config, m: Store, m': Store, path: Path, k: nat, entry: Entry, env: Env, late: seq<Event>)
    requires 0 < k <= |path| && Found(m, path[..k], env.now).None? && BucketNameOk(c, path)
    requires Ensured(c, AfterFind(m, path[..k], env), m', path, k - 1, entry, env, false, late)
    ensures Ensured(c, m, m', path, k, entry, env, false, FindNews(c, m, path[..k], env) + late)
  {
    assert Opened(0);
    FindKeeps(m, path, k, env);
    CanMakeMore(c, m, path, k, env);
    MadeFailed(m, m', path, k, entry, env, false);
    EnsureNewsMore(c, m, path, k, entry, env);
  }

  lemma StillMissing(c: Config, m: Store, m': Store, path: Path, k: nat, entry: Entry, env: Env, late: seq<Event>)
    requires 0 < k <= |path| && Found(m, path[..k], env.now).None?
    requires Ensured(c, AfterFind(m, path[..k], env), m', path, k - 1, entry, env, true, late)
    ensures Found(m', path[..k], env.now).None? && !Expiring(m', path[..k], env)
  {
    assert Opened(0);
    FindKeeps(m, path, k, env);
    assert !Between(path, Deepest(m, path, k, env.now), k - 1, path[..k]);
    assert Same(AfterFind(m, path[..k], env), m', path[..k]);
  }

  lemma EnsuredMore(
    c: Config, m: Store, m': Store, path: Path, k: nat, entry: Entry, env: Env, early: seq<Event>, late: seq<Event>, made: seq<Event>)
    requires 0 < k <= |path| && Found(m, path[..k], env.now).None? && BucketNameOk(c, path)
    requires early == FindNews(c, m, path[..k], env) && made == MadeNews(c, path, k, entry, env)
    requires Ensured(c, AfterFind(m, path[..k], env), m', path, k - 1, entry, env, true, late)
    ensures var ok := !env.write(path[..k]).Lost?;
            Ensured(c, m, if ok then m'[path[..k] := NewDirectory(entry, env.now)] else m', path, k, entry, env, ok,
                    early + (late + made))
  {
    assert Opened(0);
    assert early + (late + made) == early + late + made;
    FindKeeps(m, path, k, env);
    CanMakeMore(c, m, path, k, env);
    EnsureNewsMore(c, m, path, k, entry, env);
    if env.write(path[..k]).Lost? {
      MadeFailed(m, m', path, k, entry, env, true);
    } else {
      MadeMore(m, m', path, k, entry, env);
      if Tree(m') {
        MadeKeepsTree(m', path, k, entry, env);
      }
    }
  }

  /** Expiring an entry does not change what is found above it. */
  lemma FindKeeps(m: Store, path: Path, k: nat, env: Env)
    requires 0 < k <= |path| && Found(m, path[..k], env.now).None?
    ensures var m' := AfterFind(m, path[..k], env);
            && Deepest(m', path, k - 1, env.now) == Deepest(m, path, k - 1, env.now) == Deepest(m, path, k, env.now)
            && (Tree(m) ==> Tree(m'))
  {
  }

  /** One directory more. */
  lemma MadeMore(m: Store, m': Store, path: Path, k: nat, entry: Entry, env: Env)
    requires 0 < k <= |path| && Found(m, path[..k], env.now).None?
    requires Made(AfterFind(m, path[..k], env), m', path, k - 1, entry, env, true)
    ensures Made(m, m'[path[..k] := NewDirectory(entry, env.now)], path, k, entry, env, true)
  {
    FindKeeps(m, path, k, env);
    var d := Deepest(m, path, k, env.now);
    var m'' := m'[path[..k] := NewDirectory(entry, env.now)];
    forall q | !Between(path, d, k, q) ensures Same(m, m'', q) {
      assert Between(path, d, k, path[..k]);
      assert !Between(path, d, k - 1, q) && q != path[..k];
      assert Same(AfterFind(m, path[..k], env), m', q);
    }
    forall i | d < i <= k ensures MadeAt(m, m'', path, i, entry, env, true) {
      assert i < k ==> MadeAt(AfterFind(m, path[..k], env), m', path, i, entry, env, true);
    }
  }

  lemma MadeKeepsTree(m: Store, path: Path, k: nat, entry: Entry, env: Env)
    requires Tree(m) && 0 < k <= |path| && (k > 1 ==> path[..k-1] in m && m[path[..k-1]].isDirectory)
    ensures Tree(m[path[..k] := NewDirectory(entry, env.now)])
  {
    assert Parent(path[..k]) == path[..k-1];
    InsertKeepsTree(m, path[..k], NewDirectory(entry, env.now));
  }

  /** The directories above are all that changes. */
  lemma EnsuredTouches(c: Config, m: Store, m': Store, path: Path, entry: Entry, env: Env, ok: bool, news: seq<Event>)
    requires path != [] && Ensured(c, m, m', path, |path| - 1, entry, env, ok, news)
    ensures OnlyAbove(m, m', path, env) && Same(m, m', path)
    ensures ok == CanMake(c, m, path, |path| - 1, env) && (Tree(m) ==> Tree(m'))
    ensures news == EnsureNews(c, m, path, |path| - 1, entry, env)
    ensures ok && |path| > 1 ==> path[..|path|-1] in m' && m'[path[..|path|-1]].isDirectory
  {
    assert Opened(0);
    var k := |path| - 1;
    var d := Deepest(m, path, k, env.now);
    forall q | !Under(q, path) ensures Same(m, m', q) {
      assert !Between(path, d, k, q);
    }
    forall q | Under(q, path) && q != [] && Found(m, q, env.now).Some? ensures Same(m, m', q) {
      assert q == path[..|q|];
      assert !Between(path, d, k, q);
    }
  }

  lemma OnlyAboveSelf(m: Store, path: Path, env: Env)
    ensures OnlyAbove(m, m, path, env)
  {
  }

  lemma OnlyAboveWrite(m: Store, m': Store, path: Path, e: Entry, env: Env)
    requires OnlyAbove(m, m', path, env)
    ensures OnlyAbove(m, m'[path := e], path, env)
  {
  }

  /** Whether what is at the path itself had expired does not matter above it. */
  lemma CanMakeAbove(c: Config, m: Store, path: Path, env: Env)
    requires path != []
    ensures CanMake(c, AfterFind(m, path, env), path, |path| - 1, env) == CanMake(c, m, path, |path| - 1, env)
  {
  }

  lemma OnlyAboveFind(m: Store, m': Store, path: Path, env: Env)
    requires OnlyAbove(AfterFind(m, path, env), m', path, env)
    ensures OnlyAbove(m, m', path, env)
  {
  }

  lemma {:induction false} EnsureNewsAbove(c: Config, m: Store, path: Path, entry: Entry, env: Env)
    requires path != []
    ensures EnsureNews(c, AfterFind(m, path, env), path, |path| - 1, entry, env) == EnsureNews(c, m, path, |path| - 1, entry, env)
  {
    var k := |path| - 1;
    var m' := AfterFind(m, path, env);
    assert path[..|path|] == path;
    OtherLevels(m, path, |path|, env);
    DeepestAbove(m, m', path, k, env);
    LookedUpAbove(c, m, m', path, Deepest(m, path, k, env.now), k, env);
    assert Same(m, m', path[..k]);
  }

  lemma {:induction false} DeepestAbove(m: Store, m': Store, path: Path, k: nat, env: Env)
    requires k <= |path| && forall i :: 0 <= i <= k ==> Same(m, m', path[..i])
    ensures Deepest(m, path, k, env.now) == Deepest(m', path, k, env.now)
    ensures Found(m, path[..Deepest(m, path, k, env.now)], env.now) == Found(m', path[..Deepest(m, path, k, env.now)], env.now)
  {
    assert Same(m, m', path[..k]);
    if k > 0 {
      DeepestAbove(m, m', path, k - 1, env);
    }
  }

  /** What putting an entry in place announces before the entry itself: that an expired one went, and
      what was done about the directories above. */
  function PutNews(c: Config, m: Store, path: Path, entry: Entry, skipParents: bool, env: Env): seq<Event>
    requires path != []
  {
    FindNews(c, m, path, env) +
    if Found(m, path, env.now).None? && !skipParents then EnsureNews(c, m, path, |path| - 1, entry, env) else []
  }

  lemma {:induction false} PutNewsOwner(c: Config, m: Store, path: Path, entry: Entry, other: Entry, skipParents: bool, env: Env)
    requires path != [] && entry.owner == other.owner
    ensures PutNews(c, m, path, entry, skipParents, env) == PutNews(c, m, path, other, skipParents, env)
  {
    EnsureNewsOwner(c, m, path, |path| - 1, entry, other, env);
  }

  lemma {:induction false} EnsureNewsOwner(c: Config, m: Store, path: Path, k: nat, entry: Entry, other: Entry, env: Env)
    requires k <= |path| && entry.owner == other.owner
    ensures EnsureNews(c, m, path, k, entry, env) == EnsureNews(c, m, path, k, other, env)
  {
    DownNewsOwner(c, m, path, Deepest(m, path, k, env.now), k, entry, other, env);
  }

  lemma {:induction false} DownNewsOwner(c: Config, m: Store, path: Path, d: nat, k: nat, entry: Entry, other: Entry, env: Env)
    requires d <= k <= |path| && entry.owner == other.owner
    ensures DownNews(c, m, path, d, k, entry, env) == DownNews(c, m, path, d, k, other, env)
  {
    MadeNewsOwner(c, path, d, MadeDownTo(path, d, k, env), entry, other, env);
  }

  lemma {:induction false} MadeNewsOwner(c: Config, path: Path, lo: nat, hi: nat, entry: Entry, other: Entry, env: Env)
    requires hi <= |path| && entry.owner == other.owner
    ensures AllMadeNews(c, path, lo, hi, entry, env) == AllMadeNews(c, path, lo, hi, other, env)
  {
    if hi > lo {
      MadeNewsOwner(c, path, lo, hi - 1, entry, other, env);
    }
  }

  ghost predicate InsertTold(c: Config, m: Store, path: Path, entry: Entry, skipParents: bool, env: Env, news: seq<Event>)
    requires path != []
  {
    forall k :: Opened(k) ==> news == if skipParents then [] else EnsureNews(c, m, path, |path| - 1, entry, env)
  }

  ghost predicate PutTold(c: Config, m: Store, path: Path, entry: Entry, skipParents: bool, env: Env, news: seq<Event>)
    requires path != []
  {
    forall k :: Opened(k) ==> news == PutNews(c, m, path, entry, skipParents, env)
  }

  lemma ToldAfterFind(c: Config, m: Store, path: Path, entry: Entry, skipParents: bool, env: Env, news: seq<Event>)
    requires path != [] && Found(m, path, env.now).None? && InsertTold(c, AfterFind(m, path, env), path, entry, skipParents, env, news)
    ensures PutTold(c, m, path, entry, skipParents, env, FindNews(c, m, path, env) + news)
  {
    assert Opened(0);
    EnsureNewsAbove(c, m, path, entry, env);
  }

  lemma ToldFound(c: Config, m: Store, path: Path, entry: Entry, skipParents: bool, env: Env)
    requires path != [] && Found(m, path, env.now).Some?
    ensures PutTold(c, m, path, entry, skipParents, env, FindNews(c, m, path, env))
  {
  }

  lemma ToldIs(c: Config, m: Store, path: Path, entry: Entry, other: Entry, skipParents: bool, env: Env, news: seq<Event>)
    requires path != [] && entry.owner == other.owner && PutTold(c, m, path, other, skipParents, env, news)
    ensures news == PutNews(c, m, path, entry, skipParents, env)
  {
    assert Opened(0);
    PutNewsOwner(c, m, path, entry, other, skipParents, env);
  }
}
