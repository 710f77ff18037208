/**
 The accounts of a recursive delete: each entry's removal is announced once, after everything
 below it, and each chunk of each file without hard links is handed over once
 (weed/filer/filer_delete_entry.go).
 */
module FilerAccounting {
  import opened Curtains
  import opened FileChunks
  import opened Names
  import opened Namespace
  import opened FilerSpec
  import opened FilerListing
  import opened FilerDeletion

  // ---------------------------------------------------------------------------------------
  // Announcements
  // ---------------------------------------------------------------------------------------

  /** The removal is to be announced: of a live entry always, of an expired one only if an S3 rule
      expired it and it could be deleted. */
  predicate Evented(c: Config, m: Store, q: Path, env: Env)
    requires q in m
  {
    !c.systemLog(q) && (m[q].Expired(env.now) ==> m[q].s3Expires && !m[q].isDirectory && !env.deleteOneFails(q))
  }

  /** All of the folder. */
  function Told(c: Config, m: Store, p: Path, env: Env): set<Path> {
    set q | q in m && AtOrUnder(p, q) && Evented(c, m, q, env)
  }

  /** What has been told of when the children in `done` have been dealt with. */
  predicate ToldSoFar(c: Config, m: Store, m': Store, p: Path, done: set<string>, q: Path, env: Env)
    requires q in m
  {
    && Under(p, q) && Evented(c, m, q, env)
    && (q[|p|] in done || (IsChildOf(p, q) && m[q].Expired(env.now) && q !in m'))
  }

  function ToldBy(c: Config, m: Store, m': Store, p: Path, done: set<string>, env: Env): set<Path> {
    set q | q in m && ToldSoFar(c, m, m', p, done, q, env)
  }

  /** A swept child has not been told of before, and is now. */
  lemma SweptIsTold(c: Config, m: Store, m': Store, m'': Store, p: Path, done: set<string>, q: Path, env: Env)
    requires Progress(c, m, m', p, done, env) && Swept(c, m', m'', p, env) && q in SweptNews(c, m', m'', p, env)
    ensures q in m && ToldSoFar(c, m, m'', p, done, q, env) && q !in ToldBy(c, m, m', p, done, env)
  {
    SweptEach(c, m', m'', p, q, env);
    NotDone(c, m, m', p, done, q, env);
  }

  lemma ToldSweep(c: Config, m: Store, m': Store, m'': Store, p: Path, done: set<string>, env: Env, a: seq<Event>, b: seq<Event>)
    requires Progress(c, m, m', p, done, env) && Swept(c, m', m'', p, env)
    requires Tells(a, m, ToldBy(c, m, m', p, done, env)) && Tells(b, m', SweptNews(c, m', m'', p, env))
    ensures Tells(a + b, m, ToldBy(c, m, m'', p, done, env))
  {
    var told, news := ToldBy(c, m, m', p, done, env), SweptNews(c, m', m'', p, env);
    forall q <- news ensures q in m && ToldSoFar(c, m, m'', p, done, q, env) && q !in told {
      SweptIsTold(c, m, m', m'', p, done, q, env);
    }
    ToldSweepSets(c, m, m', m'', p, done, env);
    TellsMore(a, b, m, m', told, news);
  }

  lemma ToldSweepSets(c: Config, m: Store, m': Store, m'': Store, p: Path, done: set<string>, env: Env)
    requires OnlyRemoves(m, m') && OnlyRemoves(m', m'')
    requires forall q <- SweptNews(c, m', m'', p, env) :: q in m && ToldSoFar(c, m, m'', p, done, q, env)
    ensures ToldBy(c, m, m'', p, done, env) == ToldBy(c, m, m', p, done, env) + SweptNews(c, m', m'', p, env)
  {
  }

  /** An expired child is not among those dealt with. */
  lemma NotDone(c: Config, m: Store, m': Store, p: Path, done: set<string>, q: Path, env: Env)
    requires Progress(c, m, m', p, done, env) && q in m && IsChildOf(p, q) && m[q].Expired(env.now)
    ensures q[|p|] !in done
  {
    ChildName(p, q);
  }

  /** What has been told of lies below other children. */
  lemma ToldElsewhere(c: Config, m: Store, m': Store, p: Path, done: set<string>, n: string, q: Path, env: Env)
    requires Progress(c, m, m', p, done, env) && HasChild(m', p, n) && !m'[p + [n]].Expired(env.now) && n !in done
    requires q in ToldBy(c, m, m', p, done, env)
    ensures q[|p|] != n
  {
    if IsChildOf(p, q) {
      ChildName(p, q);
    }
  }

  lemma BelowOthers(p: Path, q: Path, r: Path)
    requires Under(p, q) && Under(p, r) && q[|p|] != r[|p|]
    ensures Later(q, r)
  {
  }

  /** Below one child: all that there was of it is still there. */
  lemma ChildIntact(c: Config, m: Store, m': Store, p: Path, done: set<string>, n: string, q: Path, env: Env)
    requires Progress(c, m, m', p, done, env) && HasChild(m', p, n) && !m'[p + [n]].Expired(env.now) && n !in done
    requires q in m && Under(p, q) && q[|p|] == n
    ensures q in m' && m'[q] == m[q] && AtOrUnder(p + [n], q)
  {
    SameChild(p, q);
    if IsChildOf(p, q) {
      ChildName(p, q);
    }
  }

  lemma BelowChild(p: Path, n: string, q: Path)
    requires AtOrUnder(p + [n], q)
    ensures Under(p, q) && q[|p|] == n
  {
  }

  lemma ToldFolder(
    c: Config, m: Store, m': Store, m'': Store, p: Path, done: set<string>, n: string, env: Env, a: seq<Event>, b: seq<Event>)
    requires Progress(c, m, m', p, done, env) && HasChild(m', p, n) && !m'[p + [n]].Expired(env.now) && n !in done
    requires Confined(c, m', m'', p + [n], env)
    requires Tells(a, m, ToldBy(c, m, m', p, done, env)) && Tells(b, m', Told(c, m', p + [n], env))
    ensures Tells(a + b, m, ToldBy(c, m, m'', p, done + {n}, env))
  {
    var told, news := ToldBy(c, m, m', p, done, env), Told(c, m', p + [n], env);
    ToldFolderSets(c, m, m', m'', p, done, n, env);
    forall q <- told, r <- news ensures Later(q, r) {
      ToldElsewhere(c, m, m', p, done, n, q, env);
      BelowChild(p, n, r);
      BelowOthers(p, q, r);
    }
    TellsMore(a, b, m, m', told, news);
  }

  lemma ToldFolderEach(c: Config, m: Store, m': Store, m'': Store, p: Path, done: set<string>, n: string, q: Path, env: Env)
    requires Progress(c, m, m', p, done, env) && HasChild(m', p, n) && !m'[p + [n]].Expired(env.now) && n !in done
    requires Confined(c, m', m'', p + [n], env) && q in m
    ensures ToldSoFar(c, m, m'', p, done + {n}, q, env) <==>
            ToldSoFar(c, m, m', p, done, q, env) || (q in m' && AtOrUnder(p + [n], q) && Evented(c, m', q, env))
  {
    if AtOrUnder(p + [n], q) {
      BelowChild(p, n, q);
    }
    if Under(p, q) {
      if q[|p|] == n {
        ChildIntact(c, m, m', p, done, n, q, env);
      } else if q in m' {
        OtherStays(c, m', m'', p, n, q, env);
      }
    }
  }

  lemma ToldFolderSets(c: Config, m: Store, m': Store, m'': Store, p: Path, done: set<string>, n: string, env: Env)
    requires Progress(c, m, m', p, done, env) && HasChild(m', p, n) && !m'[p + [n]].Expired(env.now) && n !in done
    requires Confined(c, m', m'', p + [n], env)
    ensures ToldBy(c, m, m'', p, done + {n}, env) == ToldBy(c, m, m', p, done, env) + Told(c, m', p + [n], env)
  {
    forall q <- m ensures ToldSoFar(c, m, m'', p, done + {n}, q, env) <==>
                          ToldSoFar(c, m, m', p, done, q, env) || q in Told(c, m', p + [n], env)
    {
      ToldFolderEach(c, m, m', m'', p, done, n, q, env);
    }
  }

  /** Nothing lies below a file. */
  lemma OnlyTheFile(c: Config, m: Store, m': Store, p: Path, done: set<string>, n: string, q: Path, env: Env)
    requires Progress(c, m, m', p, done, env) && HasChild(m', p, n) && n !in done
    requires !m'[p + [n]].Expired(env.now) && !m'[p + [n]].isDirectory
    requires q in m && Under(p, q) && q[|p|] == n
    ensures q == p + [n]
  {
    ChildIntact(c, m, m', p, done, n, q, env);
    if Under(p + [n], q) {
      AncestorsPresent(m', p + [n], q);
    }
  }

  lemma ToldFileSets(c: Config, m: Store, m': Store, p: Path, done: set<string>, n: string, env: Env)
    requires Progress(c, m, m', p, done, env) && HasChild(m', p, n) && n !in done
    requires !m'[p + [n]].Expired(env.now) && !m'[p + [n]].isDirectory
    ensures ToldBy(c, m, m', p, done + {n}, env) == ToldBy(c, m, m', p, done, env) + if c.systemLog(p + [n]) then {} else {p + [n]}
  {
    ChildPath(p, n);
    forall q <- m ensures ToldSoFar(c, m, m', p, done + {n}, q, env) <==>
                          ToldSoFar(c, m, m', p, done, q, env) || (q == p + [n] && !c.systemLog(q))
    {
      if Under(p, q) && q[|p|] == n {
        OnlyTheFile(c, m, m', p, done, n, q, env);
      }
    }
  }

  lemma ToldFile(c: Config, m: Store, m': Store, p: Path, done: set<string>, n: string, env: Env, a: seq<Event>)
    requires Progress(c, m, m', p, done, env) && HasChild(m', p, n) && n !in done
    requires !m'[p + [n]].Expired(env.now) && !m'[p + [n]].isDirectory
    requires Tells(a, m, ToldBy(c, m, m', p, done, env))
    ensures Tells(a + Announce(c, Event(p + [n], Some(m'[p + [n]]), None)), m, ToldBy(c, m, m', p, done + {n}, env))
  {
    var q, told := p + [n], ToldBy(c, m, m', p, done, env);
    ToldFileSets(c, m, m', p, done, n, env);
    if c.systemLog(q) {
      assert told + {} == told && a + [] == a;
    } else {
      forall r <- told ensures Later(r, q) {
        ToldElsewhere(c, m, m', p, done, n, r, env);
        ChildPath(p, n);
        BelowOthers(p, r, q);
      }
      TellsAlso(a, m, told, q);
    }
  }

  lemma TellsAlso(a: seq<Event>, m: Store, told: set<Path>, q: Path)
    requires Tells(a, m, told) && q in m && forall r <- told :: Later(r, q)
    ensures Tells(a + [Event(q, Some(m[q]), None)], m, told + {q})
  {
    TellsOne(Event(q, Some(m[q]), None), m);
    TellsMore(a, [Event(q, Some(m[q]), None)], m, m, told, {q});
  }

  /** At the end the folder itself is told of. */
  lemma ToldEnd(c: Config, m: Store, m': Store, p: Path, done: set<string>, env: Env, a: seq<Event>)
    requires Progress(c, m, m', p, done, env) && AllDone(m', p, done, env)
    requires p in m && m[p].isDirectory && Tells(a, m, ToldBy(c, m, m', p, done, env))
    ensures Tells(a + Announce(c, Event(p, Some(m[p]), None)), m, Told(c, m, p, env))
  {
    var told := ToldBy(c, m, m', p, done, env);
    ToldEndSets(c, m, m', p, done, env);
    if c.systemLog(p) {
      assert told + {} == told && a + [] == a;
    } else {
      TellsAlso(a, m, told, p);
    }
  }

  lemma ToldEndSets(c: Config, m: Store, m': Store, p: Path, done: set<string>, env: Env)
    requires Progress(c, m, m', p, done, env) && AllDone(m', p, done, env) && p in m && m[p].isDirectory
    ensures Told(c, m, p, env) == ToldBy(c, m, m', p, done, env) + if c.systemLog(p) then {} else {p}
  {
    assert Placed(m, p);
    forall q <- m | Under(p, q) && Evented(c, m, q, env) ensures ToldSoFar(c, m, m', p, done, q, env) {
      AllTold(c, m, m', p, done, q, env);
    }
  }

  /** What has not been dealt with is an expired child that could not be deleted. */
  lemma LeftoverIsStuck(m: Store, p: Path, done: set<string>, q: Path, env: Env)
    requires Tree(m) && AllDone(m, p, done, env) && q in m && Under(p, q) && q[|p|] !in done
    ensures IsChildOf(p, q) && m[q].Expired(env.now) && env.deleteOneFails(q)
  {
    BelowHasChild(m, p, q);
    ChildPath(p, q[|p|]);
    assert Placed(m, p + [q[|p|]]);
    assert q[..|q|] == q;
  }

  lemma AllTold(c: Config, m: Store, m': Store, p: Path, done: set<string>, q: Path, env: Env)
    requires Progress(c, m, m', p, done, env) && AllDone(m', p, done, env)
    requires q in m && Under(p, q) && Evented(c, m, q, env)
    ensures ToldSoFar(c, m, m', p, done, q, env)
  {
    if q[|p|] !in done && q in m' {
      LeftoverIsStuck(m', p, done, q, env);
    }
  }

  // ---------------------------------------------------------------------------------------
  // Chunks
  // ---------------------------------------------------------------------------------------

  /** A file whose chunks go with it. */
  predicate Deletable(m: Store, q: Path, env: Env)
    requires q in m
  {
    !m[q].isDirectory && !m[q].Expired(env.now) && m[q].hardLinkId == ""
  }

  function Files(m: Store, p: Path, env: Env): set<Path> {
    set q | q in m && Under(p, q) && Deletable(m, q, env)
  }

  predicate FileSoFar(m: Store, p: Path, done: set<string>, q: Path, env: Env)
    requires q in m
  {
    Under(p, q) && q[|p|] in done && Deletable(m, q, env)
  }

  function FilesBy(m: Store, p: Path, done: set<string>, env: Env): set<Path> {
    set q | q in m && FileSoFar(m, p, done, q, env)
  }

  /** Just these, each once. */
  ghost predicate Lists(files: seq<Path>, all: set<Path>) {
    && (forall q :: q in files <==> q in all)
    && forall i, j :: 0 <= i < j < |files| ==> files[i] != files[j]
  }

  lemma ListsMore(a: seq<Path>, b: seq<Path>, x: set<Path>, y: set<Path>)
    requires Lists(a, x) && Lists(b, y) && x !! y
    ensures Lists(a + b, x + y)
  {
    var files := a + b;
    forall i, j | 0 <= i < j < |files| ensures files[i] != files[j] {
      if i < |a| && |a| <= j {
        assert files[i] in a && files[j] in b;
      }
    }
  }

  /** The chunks of the files, except where a rule keeps the chunks of a folder's files. */
  function ChunksOf(c: Config, m: Store, files: seq<Path>): seq<string> {
    if files == [] then []
    else
      var q := files[|files|-1];
      ChunksOf(c, m, files[..|files|-1]) + if q != [] && q in m && !c.keepChunks(Parent(q)) then m[q].chunks else []
  }

  lemma {:induction false} ChunksConcat(c: Config, m: Store, a: seq<Path>, b: seq<Path>)
    ensures ChunksOf(c, m, a + b) == ChunksOf(c, m, a) + ChunksOf(c, m, b)
  {
    if b == [] {
      assert a + b == a;
    } else {
      assert (a + b)[..|a + b|-1] == a + b[..|b|-1];
      ChunksConcat(c, m, a, b[..|b|-1]);
    }
  }

  lemma {:induction false} ChunksSame(c: Config, m: Store, m': Store, files: seq<Path>)
    requires OnlyRemoves(m, m') && forall q <- files :: q in m'
    ensures ChunksOf(c, m, files) == ChunksOf(c, m', files)
  {
    if files != [] {
      assert files[|files|-1] in files;
      ChunksSame(c, m, m', files[..|files|-1]);
    }
  }

  /** What has been handed over, with what is about to be, are the chunks of these files. */
  ghost predicate Handing(c: Config, m: Store, p: Path, files: seq<Path>, handed: seq<string>, pending: seq<string>) {
    multiset(handed) + multiset(if c.keepChunks(p) then [] else pending) == multiset(ChunksOf(c, m, files))
  }

  lemma HandFile(c: Config, m: Store, p: Path, n: string, files: seq<Path>, handed: seq<string>, pending: seq<string>)
    requires Handing(c, m, p, files, handed, pending) && HasChild(m, p, n)
    ensures Handing(c, m, p, files + [p + [n]], handed, pending + m[p + [n]].chunks)
  {
  }

  lemma {:induction false} HandFolder(c: Config, m: Store, m': Store, p: Path, files: seq<Path>, inner: seq<Path>,
    handed: seq<string>, more: seq<string>, pending: seq<string>)
    requires Handing(c, m, p, files, handed, pending) && OnlyRemoves(m, m') && forall q <- inner :: q in m'
    requires multiset(more) == multiset(ChunksOf(c, m', inner))
    ensures Handing(c, m, p, files + inner, handed + more, pending)
  {
    ChunksConcat(c, m, files, inner);
    ChunksSame(c, m, m', inner);
  }

  lemma FilesFileSets(c: Config, m: Store, m': Store, p: Path, done: set<string>, n: string, env: Env)
    requires Progress(c, m, m', p, done, env) && HasChild(m', p, n) && n !in done
    requires !m'[p + [n]].Expired(env.now) && !m'[p + [n]].isDirectory
    ensures FilesBy(m, p, done + {n}, env) == FilesBy(m, p, done, env) + if m'[p + [n]].hardLinkId == "" then {p + [n]} else {}
    ensures p + [n] !in FilesBy(m, p, done, env)
  {
    ChildPath(p, n);
    forall q <- m ensures FileSoFar(m, p, done + {n}, q, env) <==>
                          FileSoFar(m, p, done, q, env) || (q == p + [n] && m[q].hardLinkId == "")
    {
      if Under(p, q) && q[|p|] == n {
        OnlyTheFile(c, m, m', p, done, n, q, env);
      }
    }
  }

  lemma FilesFile(c: Config, m: Store, m': Store, p: Path, done: set<string>, n: string, env: Env, files: seq<Path>)
    requires Progress(c, m, m', p, done, env) && HasChild(m', p, n) && n !in done
    requires !m'[p + [n]].Expired(env.now) && !m'[p + [n]].isDirectory && Lists(files, FilesBy(m, p, done, env))
    ensures Lists(files + if m'[p + [n]].hardLinkId == "" then [p + [n]] else [], FilesBy(m, p, done + {n}, env))
  {
    var before := FilesBy(m, p, done, env);
    FilesFileSets(c, m, m', p, done, n, env);
    if m'[p + [n]].hardLinkId == "" {
      ListsMore(files, [p + [n]], before, {p + [n]});
    } else {
      assert before + {} == before && files + [] == files;
    }
  }

  lemma FilesFolder(c: Config, m: Store, m': Store, p: Path, done: set<string>, n: string, env: Env, files: seq<Path>, inner: seq<Path>)
    requires Progress(c, m, m', p, done, env) && HasChild(m', p, n) && n !in done
    requires !m'[p + [n]].Expired(env.now) && m'[p + [n]].isDirectory
    requires Lists(files, FilesBy(m, p, done, env)) && Lists(inner, Files(m', p + [n], env))
    ensures Lists(files + inner, FilesBy(m, p, done + {n}, env))
  {
    forall q <- m ensures q in FilesBy(m, p, done + {n}, env) <==> q in FilesBy(m, p, done, env) || q in Files(m', p + [n], env) {
      if AtOrUnder(p + [n], q) {
        BelowChild(p, n, q);
      }
      if Under(p, q) && q[|p|] == n {
        ChildIntact(c, m, m', p, done, n, q, env);
      }
    }
    forall q <- Files(m', p + [n], env) ensures q !in FilesBy(m, p, done, env) {
      BelowChild(p, n, q);
    }
    assert FilesBy(m, p, done + {n}, env) == FilesBy(m, p, done, env) + Files(m', p + [n], env);
    ListsMore(files, inner, FilesBy(m, p, done, env), Files(m', p + [n], env));
  }

  lemma FilesEnd(c: Config, m: Store, m': Store, p: Path, done: set<string>, env: Env, files: seq<Path>)
    requires Progress(c, m, m', p, done, env) && AllDone(m', p, done, env) && Lists(files, FilesBy(m, p, done, env))
    ensures Lists(files, Files(m, p, env))
  {
    forall q <- m | Under(p, q) && Deletable(m, q, env) ensures q[|p|] in done {
      if q[|p|] !in done && q in m' {
        LeftoverIsStuck(m', p, done, q, env);
      }
    }
    assert Files(m, p, env) == FilesBy(m, p, done, env);
  }

  // ---------------------------------------------------------------------------------------
  // A folder's deletion as a whole
  // ---------------------------------------------------------------------------------------

  /** No bucket of the folder is dropped at a stroke. */
  predicate NoDrop(c: Config, m: Store, p: Path) {
    c.canDropWholeBucket ==> forall q <- m :: AtOrUnder(p, q) ==> !IsBucket(c, q, m[q])
  }

  /** Under way: the children in `done` have been dealt with and accounted for. */
  ghost predicate Deleting(
    c: Config, m: Store, m': Store, p: Path, done: set<string>, env: Env, withChunks: bool,
    news: seq<Event>, files: seq<Path>, handed: seq<string>, pending: seq<string>)
  {
    && Progress(c, m, m', p, done, env)
    && (NoDrop(c, m, p) ==>
          && Tells(news, m, ToldBy(c, m, m', p, done, env))
          && if withChunks then Lists(files, FilesBy(m, p, done, env)) && Handing(c, m, p, files, handed, pending)
             else handed == [] && pending == [])
  }

  /** Done: nothing is left below the folder, and the accounts are complete. */
  ghost predicate Deleted(
    c: Config, m: Store, m': Store, p: Path, env: Env, withChunks: bool,
    news: seq<Event>, files: seq<Path>, handed: seq<string>)
  {
    && Confined(c, m, m', p, env)
    && (forall q <- m' :: !Under(p, q))
    && (NoDrop(c, m, p) ==>
          && Tells(news, m, Told(c, m, p, env))
          && if withChunks then Lists(files, Files(m, p, env)) && multiset(handed) == multiset(ChunksOf(c, m, files))
             else handed == [])
  }

  lemma DeletingSweep(
    c: Config, m: Store, m': Store, m'': Store, p: Path, done: set<string>, env: Env, withChunks: bool,
    news: seq<Event>, more: seq<Event>, files: seq<Path>, handed: seq<string>, pending: seq<string>)
    requires Deleting(c, m, m', p, done, env, withChunks, news, files, handed, pending)
    requires Swept(c, m', m'', p, env) && SweepTold(c, m', m'', p, env, more) && (p in m ==> m[p].isDirectory)
    ensures Deleting(c, m, m'', p, done, env, withChunks, news + more, files, handed, pending)
  {
    ProgressSweep(c, m, m', m'', p, done, env);
    if NoDrop(c, m, p) {
      ToldSweep(c, m, m', m'', p, done, env, news, more);
    }
  }

  predicate LiveChild(m: Store, p: Path, n: string, env: Env) {
    HasChild(m, p, n) && !m[p + [n]].Expired(env.now)
  }

  /** The entry as read when the page was listed. */
  predicate IsSub(m: Store, p: Path, n: string, subs: map<string, Entry>, env: Env) {
    LiveChild(m, p, n, env) && n in subs && m[p + [n]] == subs[n]
  }

  ghost predicate NoLive(m: Store, p: Path, env: Env) { forall n :: !LiveChild(m, p, n, env) }

  lemma {:induction false} HasName(m: Store, p: Path, n: string)
    requires Named(m) && HasChild(m, p, n)
    ensures Before("", n)
  {
  }

  /** An empty first page means that there is nothing live. */
  lemma EmptyPage(c: Config, m: Store, m': Store, p: Path, limit: nat, names: seq<string>, env: Env)
    requires Named(m) && Swept(c, m, m', p, env) && Listed(m', p, "", limit, names, env) && limit > 0
    ensures names == [] <==> NoLive(m, p, env)
  {
    if names == [] {
      forall n ensures !LiveChild(m, p, n, env) {
        if LiveChild(m, p, n, env) {
          LiveStays(c, m, m', p, n, env);
          HasName(m, p, n);
        }
      }
    } else {
      assert names[0] in names;
      assert LiveChild(m', p, names[0], env);
      assert LiveChild(m, p, names[0], env);
    }
  }

  /** What a listing of the folder says about a delete that is not recursive. */
  ghost predicate FirstPage(c: Config, m: Store, m': Store, p: Path, last: string, names: seq<string>, env: Env) {
    forall k :: Opened(k) ==> Swept(c, m, m', p, env) && (last == "" ==> (names == [] <==> NoLive(m, p, env)))
  }

  lemma FirstPageListed(c: Config, m: Store, m': Store, p: Path, last: string, names: seq<string>, env: Env)
    requires Named(m) && Swept(c, m, m', p, env) && Listed(m', p, last, PAGINATION_SIZE, names, env)
    ensures FirstPage(c, m, m', p, last, names, env)
  {
    if last == "" {
      EmptyPage(c, m, m', p, PAGINATION_SIZE, names, env);
    }
  }

  /** A delete that is not recursive succeeds if and only if nothing live is found, and removes no
      more than a listing does. */
  ghost predicate Shallow(c: Config, m: Store, m': Store, p: Path, ok: bool, env: Env) {
    forall k :: Opened(k) ==> Swept(c, m, m', p, env) && ok == NoLive(m, p, env)
  }

  lemma ShallowListed(c: Config, m: Store, m': Store, p: Path, names: seq<string>, env: Env)
    requires FirstPage(c, m, m', p, "", names, env)
    ensures Shallow(c, m, m', p, names == [], env)
  {
  }

  /** A folder's delete that is not recursive succeeds if and only if nothing live is in it and the
      store does not fail; otherwise it removes no more than a listing does. */
  ghost predicate ShallowFolder(c: Config, m: Store, m': Store, p: Path, ok: bool, env: Env) {
    forall k :: Opened(k) ==>
      && ok == (NoLive(m, p, env) && !env.deleteChildrenFails(p))
      && (!ok ==> Swept(c, m, m', p, env))
  }

  lemma ShallowEnds(c: Config, m: Store, m': Store, p: Path, ok: bool, env: Env)
    requires Shallow(c, m, m', p, ok, env)
    ensures !ok || env.deleteChildrenFails(p) ==> ShallowFolder(c, m, m', p, false, env)
    ensures ok && !env.deleteChildrenFails(p) ==> forall m'' :: ShallowFolder(c, m, m'', p, true, env)
  {
  }

  lemma DeletingFile(
    c: Config, m: Store, m': Store, p: Path, done: set<string>, n: string, env: Env, withChunks: bool,
    news: seq<Event>, files: seq<Path>, handed: seq<string>, pending: seq<string>)
    requires Deleting(c, m, m', p, done, env, withChunks, news, files, handed, pending)
    requires LiveChild(m', p, n, env) && !m'[p + [n]].isDirectory && n !in done
    ensures var e := m'[p + [n]];
            var own := e.hardLinkId == "" && withChunks;
            Deleting(c, m, m', p, done + {n}, env, withChunks, news + Announce(c, Event(p + [n], Some(e), None)),
                     files + (if own then [p + [n]] else []), handed, pending + if own then e.chunks else [])
  {
    var e := m'[p + [n]];
    ProgressFile(c, m, m', p, done, n, env);
    if NoDrop(c, m, p) {
      ToldFile(c, m, m', p, done, n, env, news);
      if withChunks {
        FilesFile(c, m, m', p, done, n, env, files);
        HandFile(c, m, p, n, files, handed, pending);
        assert pending + [] == pending && files + [] == files;
      }
    }
  }

  lemma NoDropBelow(c: Config, m: Store, m': Store, p: Path, n: string)
    requires NoDrop(c, m, p) && OnlyRemoves(m, m')
    ensures NoDrop(c, m', p + [n])
  {
  }

  lemma DeletingFolder(
    c: Config, m: Store, m': Store, m'': Store, p: Path, done: set<string>, n: string, env: Env, withChunks: bool,
    news: seq<Event>, files: seq<Path>, handed: seq<string>, pending: seq<string>,
    news': seq<Event>, files': seq<Path>, handed': seq<string>)
    requires Deleting(c, m, m', p, done, env, withChunks, news, files, handed, pending)
    requires LiveChild(m', p, n, env) && m'[p + [n]].isDirectory && n !in done
    requires Deleted(c, m', m'', p + [n], env, withChunks, news', files', handed')
    ensures Deleting(c, m, m'', p, done + {n}, env, withChunks, news + news', files + files', handed + handed', pending)
  {
    ProgressFolder(c, m, m', m'', p, done, n, env);
    if NoDrop(c, m, p) {
      NoDropBelow(c, m, m', p, n);
      ToldFolder(c, m, m', m'', p, done, n, env, news, news');
      if withChunks {
        FilesFolder(c, m, m', p, done, n, env, files, files');
        HandFolder(c, m, m', p, files, files', handed, handed', pending);
      }
    }
  }

  lemma DeletingEnd(
    c: Config, m: Store, m': Store, p: Path, done: set<string>, env: Env, withChunks: bool,
    news: seq<Event>, files: seq<Path>, handed: seq<string>, pending: seq<string>)
    requires Deleting(c, m, m', p, done, env, withChunks, news, files, handed, pending) && AllDone(m', p, done, env)
    requires p in m && m[p].isDirectory
    ensures Deleted(c, m, DropChildren(m', p), p, env, withChunks, news + Announce(c, Event(p, Some(m[p]), None)),
                    files, handed + if c.keepChunks(p) then [] else pending)
  {
    ProgressEnd(c, m, m', p, done, env);
    if NoDrop(c, m, p) {
      ToldEnd(c, m, m', p, done, env, news);
      if withChunks {
        FilesEnd(c, m, m', p, done, env, files);
      }
    }
  }

  // ---------------------------------------------------------------------------------------
  // The same, on logs that only grow
  // ---------------------------------------------------------------------------------------

  lemma Since<T>(a: seq<T>, b: seq<T>, c: seq<T>)
    requires a <= b <= c
    ensures a <= c && c[|a|..] == b[|a|..] + c[|b|..]
  {
  }

  /** The deletion of the folder is under way since the store was `m`, with these events and these
      chunks queued before. */
  ghost predicate DeletingFrom(
    c: Config, m: Store, early: seq<Event>, queued: seq<string>, m': Store, events: seq<Event>, deleted: seq<string>,
    p: Path, done: set<string>, env: Env, withChunks: bool, files: seq<Path>, pending: seq<string>)
  {
    forall k :: Opened(k) ==>
      && early <= events && queued <= deleted
      && Deleting(c, m, m', p, done, env, withChunks, events[|early|..], files, deleted[|queued|..], pending)
  }

  /** The folder has been deleted since. */
  ghost predicate DeletedFrom(
    c: Config, m: Store, early: seq<Event>, queued: seq<string>, m': Store, events: seq<Event>, deleted: seq<string>,
    p: Path, env: Env, withChunks: bool, files: seq<Path>)
  {
    forall k :: Opened(k) ==>
      && early <= events && queued <= deleted
      && Deleted(c, m, m', p, env, withChunks, events[|early|..], files, deleted[|queued|..])
  }

  lemma FromStart(c: Config, m: Store, events: seq<Event>, deleted: seq<string>, p: Path, env: Env, withChunks: bool)
    requires Tree(m)
    ensures DeletingFrom(c, m, events, deleted, m, events, deleted, p, {}, env, withChunks, [], [])
  {
  }

  lemma FromSweep(
    c: Config, m: Store, early: seq<Event>, queued: seq<string>, m': Store, events: seq<Event>, deleted: seq<string>,
    p: Path, done: set<string>, env: Env, withChunks: bool, files: seq<Path>, pending: seq<string>, m'': Store, events': seq<Event>)
    requires DeletingFrom(c, m, early, queued, m', events, deleted, p, done, env, withChunks, files, pending)
    requires Swept(c, m', m'', p, env) && events <= events' && SweepTold(c, m', m'', p, env, events'[|events|..])
    requires p in m ==> m[p].isDirectory
    ensures DeletingFrom(c, m, early, queued, m'', events', deleted, p, done, env, withChunks, files, pending)
  {
    assert Opened(0);
    Since(early, events, events');
    DeletingSweep(c, m, m', m'', p, done, env, withChunks, events[|early|..], events'[|events|..], files, deleted[|queued|..], pending);
  }

  lemma FromFile(
    c: Config, m: Store, early: seq<Event>, queued: seq<string>, m': Store, events: seq<Event>, deleted: seq<string>,
    p: Path, done: set<string>, n: string, env: Env, withChunks: bool, files: seq<Path>, pending: seq<string>)
    requires DeletingFrom(c, m, early, queued, m', events, deleted, p, done, env, withChunks, files, pending)
    requires LiveChild(m', p, n, env) && !m'[p + [n]].isDirectory && n !in done
    ensures var e := m'[p + [n]];
            var own := e.hardLinkId == "" && withChunks;
            DeletingFrom(c, m, early, queued, m', events + Announce(c, Event(p + [n], Some(e), None)), deleted, p, done + {n}, env, withChunks,
                         files + (if own then [p + [n]] else []), pending + if own then e.chunks else [])
  {
    assert Opened(0);
    var news := Announce(c, Event(p + [n], Some(m'[p + [n]]), None));
    Since(early, events, events + news);
    assert (events + news)[|events|..] == news;
    DeletingFile(c, m, m', p, done, n, env, withChunks, events[|early|..], files, deleted[|queued|..], pending);
  }

  lemma FromFolder(
    c: Config, m: Store, early: seq<Event>, queued: seq<string>, m': Store, events: seq<Event>, deleted: seq<string>,
    p: Path, done: set<string>, n: string, env: Env, withChunks: bool, files: seq<Path>, pending: seq<string>,
    m'': Store, events': seq<Event>, deleted': seq<string>, inner: seq<Path>)
    requires DeletingFrom(c, m, early, queued, m', events, deleted, p, done, env, withChunks, files, pending)
    requires LiveChild(m', p, n, env) && m'[p + [n]].isDirectory && n !in done
    requires DeletedFrom(c, m', events, deleted, m'', events', deleted', p + [n], env, withChunks, inner)
    ensures DeletingFrom(c, m, early, queued, m'', events', deleted', p, done + {n}, env, withChunks, files + inner, pending)
  {
    assert Opened(0);
    Since(early, events, events');
    Since(queued, deleted, deleted');
    DeletingFolder(c, m, m', m'', p, done, n, env, withChunks, events[|early|..], files, deleted[|queued|..], pending,
                   events'[|events|..], inner, deleted'[|deleted|..]);
  }

  lemma FromEnd(
    c: Config, m: Store, early: seq<Event>, queued: seq<string>, m': Store, events: seq<Event>, deleted: seq<string>,
    p: Path, done: set<string>, env: Env, withChunks: bool, files: seq<Path>, pending: seq<string>)
    requires DeletingFrom(c, m, early, queued, m', events, deleted, p, done, env, withChunks, files, pending)
    requires AllDone(m', p, done, env) && p in m && m[p].isDirectory
    ensures DeletedFrom(c, m, early, queued, DropChildren(m', p), events + Announce(c, Event(p, Some(m[p]), None)),
                        deleted + (if c.keepChunks(p) then [] else pending), p, env, withChunks, files)
    ensures Contained(c, m, DropChildren(m', p), p, env)
  {
    assert Opened(0);
    var news, own := Announce(c, Event(p, Some(m[p]), None)), if c.keepChunks(p) then [] else pending;
    Since(early, events, events + news);
    Since(queued, deleted, deleted + own);
    assert (events + news)[|events|..] == news && (deleted + own)[|deleted|..] == own;
    DeletingEnd(c, m, m', p, done, env, withChunks, events[|early|..], files, deleted[|queued|..], pending);
  }

  lemma FromDrop(c: Config, m: Store, events: seq<Event>, deleted: seq<string>, p: Path, env: Env, withChunks: bool)
    requires Tree(m) && p in m && IsBucket(c, p, m[p]) && c.canDropWholeBucket
    ensures DeletedFrom(c, m, events, deleted, DropAll(m, p), events + Announce(c, Event(p, Some(m[p]), None)), deleted, p, env, withChunks, [])
    ensures Contained(c, m, DropAll(m, p), p, env)
  {
    DropAllConfined(c, m, p, env);
    assert AtOrUnder(p, p);
    assert !NoDrop(c, m, p);
  }

  lemma FromConfined(
    c: Config, m: Store, early: seq<Event>, queued: seq<string>, m': Store, events: seq<Event>, deleted: seq<string>,
    p: Path, done: set<string>, env: Env, withChunks: bool, files: seq<Path>, pending: seq<string>)
    requires DeletingFrom(c, m, early, queued, m', events, deleted, p, done, env, withChunks, files, pending)
    ensures Contained(c, m, m', p, env) && Tree(m')
  {
    assert Opened(0);
  }

  /** What of the page is still to be dealt with. */
  ghost predicate PageLeft(m: Store, p: Path, names: seq<string>, subs: map<string, Entry>, done: set<string>, env: Env) {
    forall k :: Opened(k) ==> forall n <- names :: IsSub(m, p, n, subs, env) && n !in done
  }

  lemma PageLeftFirst(m: Store, p: Path, names: seq<string>, subs: map<string, Entry>, done: set<string>, env: Env)
    requires PageLeft(m, p, names, subs, done, env) && names != []
    ensures IsSub(m, p, names[0], subs, env) && names[0] !in done && PageLeft(m, p, names[1..], subs, done, env)
  {
    assert Opened(0);
    assert names[0] in names && names == [names[0]] + names[1..];
  }

  lemma PageLeftAfter(
    c: Config, m: Store, early: seq<Event>, queued: seq<string>, m': Store, m'': Store, events: seq<Event>, deleted: seq<string>,
    p: Path, done: set<string>, env: Env, withChunks: bool, files: seq<Path>, pending: seq<string>,
    names: seq<string>, n: string, subs: map<string, Entry>)
    requires DeletingFrom(c, m, early, queued, m'', events, deleted, p, done + {n}, env, withChunks, files, pending)
    requires Contained(c, m, m', p, env) && PageLeft(m', p, names, subs, done, env) && n !in names
    ensures PageLeft(m'', p, names, subs, done + {n}, env)
  {
  }

  // ---------------------------------------------------------------------------------------
  // Deleting an entry
  // ---------------------------------------------------------------------------------------

  /** The entry's own chunks, unless other hard links to them remain or a rule keeps them. */
  function OwnChunks(c: Config, p: Path, entry: Entry): seq<string> {
    if c.keepChunks(p) || (entry.hardLinkId != "" && entry.hardLinkCounter > 1) then [] else entry.chunks
  }

  /** The accounts of deleting an entry and all below it. */
  ghost predicate Accounted(
    c: Config, m: Store, p: Path, env: Env, withChunks: bool, news: seq<Event>, files: seq<Path>, handed: seq<string>)
    requires p in m
  {
    && Tells(news, m, Told(c, m, p, env))
    && if withChunks then
         Lists(files, Files(m, p, env)) && multiset(handed) == multiset(ChunksOf(c, m, files) + OwnChunks(c, p, m[p]))
       else handed == []
  }

  /** All that deleting an entry promises. */
  ghost predicate EntryDeleted(
    c: Config, m: Store, m': Store, p: Path, env: Env, withChunks: bool, news: seq<Event>, files: seq<Path>, handed: seq<string>)
    requires p in m
  {
    Removed(c, m, m', p, env) && (NoDrop(c, m, p) ==> Accounted(c, m, p, env, withChunks, news, files, handed))
  }

  ghost predicate DeletedSo(
    c: Config, m: Store, m': Store, p: Path, env: Env, withChunks: bool, news: seq<Event>, files: seq<Path>, handed: seq<string>)
    requires p in m
  {
    forall k :: Opened(k) ==> EntryDeleted(c, m, m', p, env, withChunks, news, files, handed)
  }

  lemma FolderEntryDeleted(
    c: Config, m: Store, early: seq<Event>, queued: seq<string>, m': Store, events: seq<Event>, deleted: seq<string>,
    p: Path, env: Env, withChunks: bool, files: seq<Path>)
    requires p in m && DeletedFrom(c, m, early, queued, m', events, deleted, p, env, withChunks, files)
    ensures early <= events && queued <= deleted
    ensures DeletedSo(c, m, m' - {p}, p, env, withChunks, events[|early|..], files,
                      deleted[|queued|..] + if withChunks then OwnChunks(c, p, m[p]) else [])
  {
    assert Opened(0);
    FolderRemoved(c, m, m', p, env);
  }

  lemma FileEntryDeleted(c: Config, m: Store, p: Path, env: Env, withChunks: bool)
    requires Tree(m) && p in m && !m[p].isDirectory && !m[p].Expired(env.now)
    ensures DeletedSo(c, m, m - {p}, p, env, withChunks, Announce(c, Event(p, Some(m[p]), None)), [],
                      if withChunks then OwnChunks(c, p, m[p]) else []) && Tree(m)
  {
    FileRemoved(c, m, p, env);
    assert Files(m, p, env) == {};
    if c.systemLog(p) {
      assert Told(c, m, p, env) == {};
    } else {
      assert Told(c, m, p, env) == {p};
      TellsOne(Event(p, Some(m[p]), None), m);
    }
    assert ChunksOf(c, m, []) + OwnChunks(c, p, m[p]) == OwnChunks(c, p, m[p]);
  }

  lemma {:induction false} HasDepth(m: Store) returns (depth: nat)
    ensures Bounded(m, depth)
    decreases |m|
  {
    if m == map[] {
      depth := 0;
    } else {
      var q :| q in m;
      var rest := HasDepth(m - {q});
      depth := Max(rest, |q|);
    }
  }
}
