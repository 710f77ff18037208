/**
 The filer: lookups that expire entries, creation with the directories above, listing, tidying
 up and recursive deletion, all on one store (weed/filer/filer.go,
 weed/filer/filer_delete_entry.go, weed/filer/filer_search.go).
 */
module Filers {
  import opened Curtains
  import opened FileChunks
  import opened Namespace
  import opened FilerSpec
  import opened FilerDirectories
  import opened FilerListing
  import opened FilerDeletion
  import opened FilerAccounting
  import opened FilerOrphans

  class Filer {
    const config: Config
    var store: Store
    var events: seq<Event>
    var deletedChunks: seq<string>
    var droppedCollections: seq<string>

    constructor (config: Config)
      ensures this.config == config && store == map[] && events == [] && deletedChunks == [] && droppedCollections == []
      ensures Tree(store) && Named(store)
    {
      this.config := config;
      store, events, deletedChunks, droppedCollections := map[], [], [], [];
    }

    // -------------------------------------------------------------------------------------
    // Looking up and deleting one entry
    // -------------------------------------------------------------------------------------

    /** Removes the entry itself; of a directory's removal nothing is announced here. */
    method DoDeleteEntry(p: Path, entry: Entry, env: Env) returns (ok: bool)
      modifies this`store, this`events
      ensures ok == !env.deleteOneFails(p)
      ensures store == if ok then old(store) - {p} else old(store)
      ensures events == old(events) + if ok && !entry.isDirectory then Announce(config, Event(p, Some(entry), None)) else []
    {
      if env.deleteOneFails(p) {
        return false;
      }
      store := store - {p};
      if !entry.isDirectory {
        events := events + Announce(config, Event(p, Some(entry), None));
      }
      return true;
    }

    method FindEntry(p: Path, env: Env) returns (entry: Option<Entry>)
      modifies this`store, this`events
      ensures entry == Found(old(store), p, env.now)
      ensures store == AfterFind(old(store), p, env)
      ensures events == old(events) + FindNews(config, old(store), p, env)
    {
      if p == [] {
        return Some(ROOT);
      }
      if p !in store {
        return None;
      }
      var e := store[p];
      if e.Expired(env.now) {
        if e.s3Expires {
          var _ := DoDeleteEntry(p, e, env);
        } else if !env.deleteOneFails(p) {
          store := store - {p};
        }
        return None;
      }
      return Some(e);
    }

    // -------------------------------------------------------------------------------------
    // Creating
    // -------------------------------------------------------------------------------------

    /** Writes to the underlying store. */
    method Write(p: Path, entry: Entry, env: Env) returns (ok: bool)
      modifies this`store
      ensures ok == env.write(p).Stored?
      ensures store == if env.write(p).Lost? then old(store) else old(store)[p := entry]
    {
      if !env.write(p).Lost? {
        store := store[p := entry];
      }
      return env.write(p).Stored?;
    }

    /** Makes one directory on the way down to `path`. */
    method MakeDirectory(entry: Entry, path: Path, k: nat, env: Env) returns (ok: bool)
      requires 0 < k <= |path| && Found(store, path[..k], env.now).None? && !Expiring(store, path[..k], env)
      modifies this`store, this`events
      ensures ok == !env.write(path[..k]).Lost?
      ensures store == if ok then old(store)[path[..k] := NewDirectory(entry, env.now)] else old(store)
      ensures events == old(events) + MadeNews(config, path, k, entry, env)
    {
      var dirPath := path[..k];
      var dir := NewDirectory(entry, env.now);
      var written := Write(dirPath, dir, env);
      if !written {
        var found := FindEntry(dirPath, env);
        return found.Some?;
      }
      if !config.systemLog(path) {
        events := events + Announce(config, Event(dirPath, None, Some(dir)));
      }
      return true;
    }

    /** Makes sure that the first `k` names of the path are directories. */
    method EnsureParents(entry: Entry, path: Path, k: nat, env: Env) returns (ok: bool, ghost news: seq<Event>)
      requires k < |path|
      modifies this`store, this`events
      ensures events == old(events) + news
      ensures Ensured(config, old(store), store, path, k, entry, env, ok, news)
      decreases k, 1
    {
      var found := FindEntry(path[..k], env);
      if found.Some? {
        EnsuredFound(config, store, path, k, entry, env);
        return found.value.isDirectory, [];
      }
      news := FindNews(config, old(store), path[..k], env);
      if !BucketNameOk(config, path) {
        EnsuredBadBucket(config, old(store), path, k, entry, env);
        return false, news;
      }
      ghost var late;
      ok, late := MakeMissing(entry, path, k, env, old(store), news);
      news := news + late;
    }

    /** Makes a directory that was not found, and those above it; `m` is the store before the lookup. */
    method MakeMissing(entry: Entry, path: Path, k: nat, env: Env, ghost m: Store, ghost early: seq<Event>)
      returns (ok: bool, ghost late: seq<Event>)
      requires 0 < k < |path| && Found(m, path[..k], env.now).None? && BucketNameOk(config, path)
      requires store == AfterFind(m, path[..k], env) && early == FindNews(config, m, path[..k], env)
      modifies this`store, this`events
      ensures events == old(events) + late
      ensures Ensured(config, m, store, path, k, entry, env, ok, early + late)
      decreases k, 0
    {
      ok, late := EnsureParents(entry, path, k - 1, env);
      if ok {
        ghost var made;
        ok, made := MakeLast(entry, path, k, env, m, early, late);
        late := late + made;
      } else {
        EnsuredFailed(config, m, store, path, k, entry, env, late);
      }
    }

    /** Makes it once those above are there. */
    method MakeLast(entry: Entry, path: Path, k: nat, env: Env, ghost m: Store, ghost early: seq<Event>, ghost above: seq<Event>)
      returns (ok: bool, ghost made: seq<Event>)
      requires 0 < k < |path| && Found(m, path[..k], env.now).None? && BucketNameOk(config, path)
      requires early == FindNews(config, m, path[..k], env)
      requires Ensured(config, AfterFind(m, path[..k], env), store, path, k - 1, entry, env, true, above)
      modifies this`store, this`events
      ensures events == old(events) + made
      ensures Ensured(config, m, store, path, k, entry, env, ok, early + (above + made))
    {
      StillMissing(config, m, store, path, k, entry, env, above);
      ok := MakeDirectory(entry, path, k, env);
      made := MadeNews(config, path, k, entry, env);
      EnsuredMore(config, m, old(store), path, k, entry, env, early, above, made);
    }

    /** Overwrites an entry; its kind must stay. */
    method UpdateEntry(path: Path, oldEntry: Option<Entry>, entry: Entry, env: Env) returns (ok: bool, updated: Entry)
      modifies this`store
      ensures updated == if oldEntry.Some? then entry.(crtime := oldEntry.value.crtime) else entry
      ensures ok == ((oldEntry.Some? ==> oldEntry.value.isDirectory == entry.isDirectory) && env.write(path).Stored?)
      ensures store == if (oldEntry.Some? && oldEntry.value.isDirectory != entry.isDirectory) || env.write(path).Lost?
                       then old(store) else old(store)[path := updated]
    {
      updated := entry;
      if oldEntry.Some? {
        updated := updated.(crtime := oldEntry.value.crtime);
        if oldEntry.value.isDirectory != entry.isDirectory {
          return false, updated;
        }
      }
      ok := Write(path, updated, env);
    }

    /** Inserts an entry that was not found, and what is missing above it. */
    method InsertNew(path: Path, entry: Entry, skipParents: bool, env: Env) returns (ok: bool, ghost news: seq<Event>)
      requires path != [] && Found(store, path, env.now).None? && (entry.isDirectory ==> entry.ttl <= 0)
      modifies this`store, this`events
      ensures ok == ((skipParents || CanMake(config, old(store), path, |path| - 1, env)) && env.write(path).Stored?)
      ensures events == old(events) + news && InsertTold(config, old(store), path, entry, skipParents, env, news)
      ensures OnlyAbove(old(store), store, path, env)
      ensures ok ==> path in store && store[path] == entry
      ensures !ok && !env.write(path).Reported? ==> Same(old(store), store, path)
      ensures Tree(old(store)) && !skipParents ==> Tree(store)
    {
      news := [];
      if !skipParents {
        ok, news := EnsureParents(entry, path, |path| - 1, env);
        EnsuredTouches(config, old(store), store, path, entry, env, ok, news);
        if !ok {
          return;
        }
      }
      ghost var m := store;
      ok := Write(path, entry, env);
      OnlyAboveWrite(old(store), m, path, entry, env);
      if Tree(m) && !skipParents {
        assert Parent(path) == path[..|path|-1];
        assert path in m ==> Placed(m, path);
        InsertKeepsTree(m, path, entry);
      }
    }

    /** Overwrites an entry that was found. */
    method ReplaceOld(path: Path, oldEntry: Entry, entry: Entry, env: Env) returns (ok: bool, updated: Entry)
      requires path in store && store[path] == oldEntry && (entry.isDirectory ==> entry.ttl <= 0)
      modifies this`store
      ensures ok == (oldEntry.isDirectory == entry.isDirectory && env.write(path).Stored?)
      ensures OnlyAbove(old(store), store, path, env)
      ensures updated == entry.(crtime := oldEntry.crtime)
      ensures ok ==> path in store && store[path] == updated
      ensures !ok && !env.write(path).Reported? ==> Same(old(store), store, path)
      ensures Tree(old(store)) ==> Tree(store)
    {
      ok, updated := UpdateEntry(path, Some(oldEntry), entry, env);
      OnlyAboveSelf(old(store), path, env);
      OnlyAboveWrite(old(store), old(store), path, updated, env);
      if Tree(old(store)) && oldEntry.isDirectory == entry.isDirectory {
        UpdateKeepsTree(old(store), path, updated);
      }
    }

    /** Inserts or overwrites, whichever it takes. */
    method Put(path: Path, entry: Entry, oExcl: bool, skipParents: bool, env: Env)
      returns (ok: bool, oldEntry: Option<Entry>, stored: Entry, ghost news: seq<Event>)
      requires path != [] && (entry.isDirectory ==> entry.ttl == 0)
      modifies this`store, this`events
      ensures ok == CanCreate(config, old(store), path, entry, oExcl, skipParents, 0, env)
      ensures oldEntry == Found(old(store), path, env.now)
      ensures OnlyAbove(old(store), store, path, env)
      ensures ok ==> stored == AsStored(entry, oldEntry) && path in store && store[path] == stored
      ensures !ok && path in store && !env.write(path).Reported? ==> Same(old(store), store, path)
      ensures events == old(events) + news && PutTold(config, old(store), path, entry, skipParents, env, news)
      ensures Tree(old(store)) && !skipParents ==> Tree(store)
    {
      stored := entry;
      oldEntry := FindEntry(path, env);
      ghost var early := FindNews(config, old(store), path, env);
      if oldEntry.None? {
        ghost var late;
        ok, late := PutNew(path, entry, skipParents, env, old(store));
        ToldAfterFind(config, old(store), path, entry, skipParents, env, late);
        news := early + late;
      } else {
        ToldFound(config, old(store), path, entry, skipParents, env);
        news := early;
        OnlyAboveSelf(store, path, env);
        ok := !oExcl;
        if !oExcl {
          ok, stored := ReplaceOld(path, oldEntry.value, entry, env);
        }
      }
    }

    /** Inserts where nothing was found; `m` is the store before the lookup. */
    method PutNew(path: Path, entry: Entry, skipParents: bool, env: Env, ghost m: Store) returns (ok: bool, ghost news: seq<Event>)
      requires path != [] && Found(m, path, env.now).None? && store == AfterFind(m, path, env) && (entry.isDirectory ==> entry.ttl == 0)
      modifies this`store, this`events
      ensures ok == ((skipParents || CanMake(config, m, path, |path| - 1, env)) && env.write(path).Stored?)
      ensures OnlyAbove(m, store, path, env)
      ensures ok ==> path in store && store[path] == entry
      ensures !ok && path in store && !env.write(path).Reported? ==> Same(m, store, path)
      ensures events == old(events) + news && InsertTold(config, old(store), path, entry, skipParents, env, news)
      ensures Tree(m) && !skipParents ==> Tree(store)
    {
      if Tree(m) {
        FindKeepsTree(m, path, env);
      }
      CanMakeAbove(config, m, path, env);
      ok, news := InsertNew(path, entry, skipParents, env);
      OnlyAboveFind(m, store, path, env);
    }

    method CreateEntry(path: Path, entry: Entry, oExcl: bool, skipParents: bool, maxNameLength: nat, env: Env)
      returns (ok: bool)
      modifies this`store, this`events, this`deletedChunks
      ensures ok == CanCreate(config, old(store), path, entry, oExcl, skipParents, maxNameLength, env)
      ensures OnlyAbove(old(store), store, path, env)
      ensures CreatedAt(old(store), store, path, entry, ok, env)
      ensures events == old(events) +
                (if path == [] || (maxNameLength != 0 && |path[|path|-1]| > maxNameLength) then []
                 else PutNews(config, old(store), path, entry, skipParents, env)) +
                if ok && path != [] then Announce(config, Event(path, Found(old(store), path, env.now), Some(store[path]))) else []
      ensures deletedChunks == old(deletedChunks) +
                if ok && path != [] && Found(old(store), path, env.now).Some?
                then Minus(Found(old(store), path, env.now).value.chunks, entry.chunks) else []
      ensures Tree(old(store)) && !skipParents ==> Tree(store)
    {
      OnlyAboveSelf(store, path, env);
      if path == [] {
        return true;
      }
      if maxNameLength != 0 && |path[|path|-1]| > maxNameLength {
        return false;
      }
      var e := if entry.isDirectory then entry.(ttl := 0) else entry;
      var oldEntry;
      ghost var owned, news := e, [];
      ok, oldEntry, e, news := Put(path, e, oExcl, skipParents, env);
      ToldIs(config, old(store), path, entry, owned, skipParents, env, news);
      if !ok {
        return;
      }
      events := events + Announce(config, Event(path, oldEntry, Some(e)));
      if oldEntry.Some? {
        deletedChunks := deletedChunks + Minus(oldEntry.value.chunks, e.chunks);
      }
    }

    // -------------------------------------------------------------------------------------
    // Tidying up
    // -------------------------------------------------------------------------------------

    method IsDirectoryEmpty(p: Path) returns (empty: bool)
      ensures empty == HasNoChild(store, p)
    {
      return forall r <- store :: !(|r| == |p| + 1 && Under(p, r));
    }

    /** Deletes a directory that has become empty, then the one above it, and so on up. Returns how
        many names of the path are left. */
    method DeleteEmptyParentDirectories(path: Path, stop: Option<Path>, env: Env) returns (ghost j: nat)
      modifies this`store, this`events
      ensures TidiedUp(config, stop, old(store), store, path, j, env)
      ensures old(events) <= events
      ensures Tree(old(store)) && (path in old(store) ==> old(store)[path].isDirectory) ==> events == old(events)
      decreases |path|
    {
      j := |path|;
      assert path[..|path|] == path;
      if path == [] || stop == Some(path) {
        TidiedNothing(config, stop, store, store, path, env);
        return;
      }
      if stop.Some? && stop.value != [] && !Under(stop.value, path) {
        TidiedNothing(config, stop, store, store, path, env);
        return;
      }
      if |path| <= |config.buckets| + 1 {
        TidiedNothing(config, stop, store, store, path, env);
        return;
      }
      var empty := IsDirectoryEmpty(path);
      if !empty {
        TidiedNothing(config, stop, store, store, path, env);
        return;
      }
      var entry := FindEntry(path, env);
      if entry.None? {
        assert Found(store, path, env.now).None?;
        TidiedNothing(config, stop, old(store), store, path, env);
        return;
      }
      var ok := DoDeleteEntry(path, entry.value, env);
      if !ok {
        TidiedNothing(config, stop, old(store), store, path, env);
        return;
      }
      if Tree(old(store)) {
        RemoveEmpty(old(store), path);
        assert Placed(old(store), path);
      }
      j := DeleteEmptyParentDirectories(Parent(path), stop, env);
      TidiedOneMore(config, stop, old(store), store, path, j, env);
    }

    // -------------------------------------------------------------------------------------
    // Listing
    // -------------------------------------------------------------------------------------

    /** The underlying store's listing. */
    method Scan(p: Path, start: string, limit: nat) returns (names: seq<string>)
      ensures Page(store, p, start, limit, names)
    {
      names := [];
      var last := start;
      while |names| < limit
        invariant |names| <= limit && Page(store, p, start, |names|, names)
        invariant last == if names == [] then start else names[|names|-1]
      {
        var next := NamesAfter(store, p, last);
        if next == {} {
          PageEnds(store, p, start, limit, names);
          return;
        }
        LeastExists(next);
        var n :| IsLeast(next, n);
        PageGrows(store, p, start, limit, names, n);
        names, last := names + [n], n;
      }
    }

    /** Deletes expired entries of a directory; only those expired by an S3 rule are announced. */
    method Purge(p: Path, names: seq<string>, s3: bool, env: Env)
      requires AllThere(store, p, names) && Distinct(names)
      modifies this`store, this`events
      ensures store == Dropped(old(store), p, names, env)
      ensures old(events) <= events
      ensures Tells(events[|old(events)|..], old(store), if s3 then DroppedNews(config, old(store), p, names, env) else {})
    {
      ghost var m, n0 := store, |events|;
      var i := 0;
      assert Dropped(m, p, [], env) == m;
      while i < |names|
        invariant 0 <= i <= |names|
        invariant store == Dropped(m, p, names[..i], env)
        invariant old(events) <= events
        invariant Tells(events[n0..], m, if s3 then DroppedNews(config, m, p, names[..i], env) else {})
      {
        ghost var before := events;
        assert names[..i + 1] == names[..i] + [names[i]] && names[i] in names && names[i] !in names[..i];
        PurgeOne(p, names[i], s3, env, m, names[..i], before[n0..]);
        assert events[n0..] == before[n0..] + events[|before|..];
        i := i + 1;
      }
      assert names[..|names|] == names;
    }

    /** Deletes one expired entry; those named `done` are gone, as `told`. */
    method PurgeOne(p: Path, n: string, s3: bool, env: Env, ghost m: Store, ghost done: seq<string>, ghost told: seq<Event>)
      requires AllThere(m, p, done + [n]) && n !in done && store == Dropped(m, p, done, env)
      requires Tells(told, m, if s3 then DroppedNews(config, m, p, done, env) else {})
      modifies this`store, this`events
      ensures store == Dropped(m, p, done + [n], env) && old(events) <= events
      ensures Tells(told + events[|old(events)|..], m, if s3 then DroppedNews(config, m, p, done + [n], env) else {})
    {
      assert n in done + [n];
      NotYetDropped(m, p, done, n, env);
      DropOneMore(m, p, done, n, env);
      if s3 {
        TellsDrop(config, m, p, done, n, env, told);
        var _ := DoDeleteEntry(p + [n], store[p + [n]], env);
      } else if !env.deleteOneFails(p + [n]) {
        store := store - {p + [n]};
      }
      assert !s3 ==> told + events[|old(events)|..] == told;
    }

    /** Tells the live entries of a page from the expired ones. */
    method Sort(p: Path, page: seq<string>, now: int) returns (valid: seq<string>, s3: seq<string>, ttl: seq<string>)
      requires AllThere(store, p, page)
      ensures valid == Pick(store, p, page, Live, now)
      ensures s3 == Pick(store, p, page, S3Expired, now) && ttl == Pick(store, p, page, TtlExpired, now)
      ensures |s3| + |ttl| == |page| - |valid|
    {
      valid, s3, ttl := [], [], [];
      var i := 0;
      while i < |page|
        invariant 0 <= i <= |page|
        invariant valid == Pick(store, p, page[..i], Live, now)
        invariant s3 == Pick(store, p, page[..i], S3Expired, now) && ttl == Pick(store, p, page[..i], TtlExpired, now)
        invariant |s3| + |ttl| == i - |valid|
      {
        var n := page[i];
        PickStep(store, p, page, i, Live, now);
        PickStep(store, p, page, i, S3Expired, now);
        PickStep(store, p, page, i, TtlExpired, now);
        match KindOf(store[p + [n]], now) {
          case Live => valid := valid + [n];
          case S3Expired => s3 := s3 + [n];
          case TtlExpired => ttl := ttl + [n];
        }
        i := i + 1;
      }
      assert page[..|page|] == page;
    }

    /** Deletes what has expired, first what did by an S3 rule. */
    method PurgeAll(p: Path, start: string, page: seq<string>, s3: seq<string>, ttl: seq<string>, env: Env)
      requires AllThere(store, p, page) && Ascending(start, page)
      requires s3 == Pick(store, p, page, S3Expired, env.now) && ttl == Pick(store, p, page, TtlExpired, env.now)
      modifies this`store, this`events
      ensures Swept(config, old(store), store, p, env)
      ensures forall n <- page :: HasChild(store, p, n) && old(store)[p + [n]].Expired(env.now) ==> env.deleteOneFails(p + [n])
      ensures old(events) <= events
      ensures Tells(events[|old(events)|..], old(store), SweptNews(config, old(store), store, p, env))
    {
      ghost var m := store;
      DroppingBothSweeps(config, m, p, page, env);
      PickAscending(m, p, start, page, S3Expired, env.now);
      PickAscending(m, p, start, page, TtlExpired, env.now);
      AscendingIsDistinct(start, s3);
      AscendingIsDistinct(start, ttl);
      Purge(p, s3, true, env);
      ghost var seen := events;
      Purge(p, ttl, false, env);
      NoNews(events[|seen|..], Dropped(m, p, s3, env));
      assert events == seen;
    }

    /** Tidies up after expired children; `m` is the store before they were swept out. */
    method TidyUp(p: Path, env: Env, ghost m: Store, ghost n: string)
      requires Swept(config, m, store, p, env) && HasChild(m, p, n) && m[p + [n]].Expired(env.now)
      modifies this`store, this`events
      ensures Swept(config, m, store, p, env) && OnlyRemoves(old(store), store)
      ensures SweptNews(config, m, store, p, env) == SweptNews(config, m, old(store), p, env)
      ensures old(events) <= events
      ensures Tree(m) && (p in m ==> m[p].isDirectory) ==> events == old(events)
    {
      ghost var j := DeleteEmptyParentDirectories(p, Some(config.buckets), env);
      TidiedOnlyRemoves(config, old(store), store, p, j, env);
      TidyingSweeps(config, m, old(store), store, p, n, env);
    }

    /** Removes what has expired, and the directory with it if that leaves it empty. */
    method Sweep(p: Path, start: string, page: seq<string>, valid: seq<string>, s3: seq<string>, ttl: seq<string>, env: Env)
      requires AllThere(store, p, page) && Ascending(start, page) && |s3| + |ttl| > 0
      requires s3 == Pick(store, p, page, S3Expired, env.now) && ttl == Pick(store, p, page, TtlExpired, env.now)
      modifies this`store, this`events
      ensures Swept(config, old(store), store, p, env)
      ensures forall n <- page :: HasChild(store, p, n) && old(store)[p + [n]].Expired(env.now) ==> env.deleteOneFails(p + [n])
      ensures old(events) <= events
      ensures SweepTold(config, old(store), store, p, env, events[|old(events)|..])
    {
      ghost var n := if s3 != [] then s3[0] else ttl[0];
      assert n in s3 || n in ttl;
      PickMembers(store, p, page, S3Expired, env.now);
      PickMembers(store, p, page, TtlExpired, env.now);
      PurgeAll(p, start, page, s3, ttl, env);
      if valid == [] && p != [] && start == "" {
        TidyUp(p, env, old(store), n);
      }
    }

    /** Lists one stretch of a directory and sweeps out what has expired. */
    method ListOnce(p: Path, start: string, limit: nat, env: Env)
      returns (valid: seq<string>, expired: nat, last: string, ghost names: seq<string>)
      modifies this`store, this`events
      ensures StretchDone(config, old(store), store, p, start, limit, names, env)
      ensures valid == Pick(old(store), p, names, Live, env.now) && expired == |names| - |valid|
      ensures last == if names == [] then "" else names[|names|-1]
      ensures old(events) <= events
      ensures SweepTold(config, old(store), store, p, env, events[|old(events)|..])
    {
      var page := Scan(p, start, limit);
      names := page;
      last := if page == [] then "" else page[|page|-1];
      var s3, ttl;
      valid, s3, ttl := Sort(p, page, env.now);
      expired := |s3| + |ttl|;
      PickMembers(store, p, page, S3Expired, env.now);
      PickMembers(store, p, page, TtlExpired, env.now);
      if expired > 0 {
        Sweep(p, start, page, valid, s3, ttl, env);
      }
    }

    /** Lists on until as many live entries as wanted are found or there are no more. */
    method ListValid(p: Path, start: string, limit: nat, env: Env) returns (valid: seq<string>)
      modifies this`store, this`events
      ensures Listed(store, p, start, limit, valid, env)
      ensures Swept(config, old(store), store, p, env)
      ensures old(events) <= events
      ensures SweepTold(config, old(store), store, p, env, events[|old(events)|..])
    {
      var expired, last;
      valid, expired, last := ListFirst(p, start, limit, env);
      valid := ListRest(p, start, limit, valid, expired, last, env, old(store), old(events));
    }

    method ListRest(p: Path, start: string, limit: nat, valid: seq<string>, expired: nat, last: string, env: Env,
                    ghost m: Store, ghost early: seq<Event>)
      returns (all: seq<string>)
      requires ListedUpTo(store, p, start, limit, valid, expired, last, env) && SweptSince(m, early, p, env)
      modifies this`store, this`events
      ensures Listed(store, p, start, limit, all, env) && SweptSince(m, early, p, env)
    {
      var missing, after := expired, last;
      all := valid;
      ghost var left := NamesAfter(store, p, after);
      while missing > 0
        invariant ListedUpTo(store, p, start, limit, all, missing, after, env) && SweptSince(m, early, p, env)
        invariant missing > 0 ==> left == NamesAfter(store, p, after)
        decreases left, missing
      {
        all, missing, after := ListOn(p, start, limit, all, missing, after, env, m, early);
        left := if missing > 0 then NamesAfter(store, p, after) else left;
      }
      ListedAll(store, p, start, limit, all, after, env);
    }

    /** All that happened since is a sweep of the directory. */
    ghost predicate SweptSince(m: Store, early: seq<Event>, p: Path, env: Env)
      reads this`store, this`events
    {
      && Swept(config, m, store, p, env)
      && early <= events && SweepTold(config, m, store, p, env, events[|early|..])
    }

    /** The first stretch. */
    method ListFirst(p: Path, start: string, limit: nat, env: Env) returns (valid: seq<string>, expired: nat, last: string)
      modifies this`store, this`events
      ensures ListedUpTo(store, p, start, limit, valid, expired, last, env)
      ensures SweptSince(old(store), old(events), p, env)
    {
      ghost var names;
      valid, expired, last, names := ListOnce(p, start, limit, env);
      FirstStretch(old(store), store, p, start, limit, names, env, config);
    }

    method ListOn(p: Path, start: string, limit: nat, valid: seq<string>, expired: nat, last: string, env: Env,
                  ghost m: Store, ghost early: seq<Event>)
      returns (valid': seq<string>, expired': nat, last': string)
      requires expired > 0 && ListedUpTo(store, p, start, limit, valid, expired, last, env)
      requires SweptSince(m, early, p, env)
      modifies this`store, this`events
      ensures ListedUpTo(store, p, start, limit, valid', expired', last', env)
      ensures SweptSince(m, early, p, env)
      ensures expired' > 0 ==> NamesAfter(store, p, last') < NamesAfter(old(store), p, last)
    {
      valid', expired', last' := ListMore(p, start, limit, valid, expired, last, env);
      SweepToldMore(config, m, old(store), store, p, env, old(events)[|early|..], events[|old(events)|..]);
      assert events[|early|..] == old(events)[|early|..] + events[|old(events)|..];
    }

    /** One more stretch. */
    method ListMore(p: Path, start: string, limit: nat, valid: seq<string>, expired: nat, last: string, env: Env)
      returns (valid': seq<string>, expired': nat, last': string)
      requires expired > 0 && ListedUpTo(store, p, start, limit, valid, expired, last, env)
      modifies this`store, this`events
      ensures ListedUpTo(store, p, start, limit, valid', expired', last', env)
      ensures Swept(config, old(store), store, p, env)
      ensures old(events) <= events && SweepTold(config, old(store), store, p, env, events[|old(events)|..])
      ensures expired' > 0 ==> NamesAfter(store, p, last') < NamesAfter(old(store), p, last)
    {
      var more;
      ghost var names;
      more, expired', last', names := ListOnce(p, last, expired, env);
      valid' := valid + more;
      NextStretch(old(store), store, p, start, limit, valid, expired, last, names, env, config);
      if expired' > 0 {
        StretchAdvances(old(store), store, p, last, expired, names);
      }
    }

    method ListDirectoryEntries(p: Path, start: string, limit: nat, env: Env) returns (entries: seq<string>)
      modifies this`store, this`events
      ensures Listed(store, p, start, limit, entries, env)
      ensures Swept(config, old(store), store, p, env)
      ensures old(events) <= events
      ensures SweepTold(config, old(store), store, p, env, events[|old(events)|..])
    {
      entries := ListValid(p, start, limit + 1, env);
      ListedCut(store, p, start, limit, entries, env);
      if |entries| >= limit + 1 {
        entries := entries[..limit];
      }
    }

    // -------------------------------------------------------------------------------------
    // Deleting
    // -------------------------------------------------------------------------------------

    /** The deletion of the folder is under way since the store was `m`. */
    ghost predicate DeletingSince(
      m: Store, early: seq<Event>, queued: seq<string>, p: Path, done: set<string>, env: Env, withChunks: bool,
      files: seq<Path>, pending: seq<string>)
      reads this
    {
      DeletingFrom(config, m, early, queued, store, events, deletedChunks, p, done, env, withChunks, files, pending)
    }

    /** The folder has been deleted since. */
    ghost predicate DeletedSince(
      m: Store, early: seq<Event>, queued: seq<string>, p: Path, env: Env, withChunks: bool, files: seq<Path>)
      reads this
    {
      DeletedFrom(config, m, early, queued, store, events, deletedChunks, p, env, withChunks, files)
    }

    /** Deals with one child of a folder. */
    method DeleteChild(
      p: Path, n: string, sub: Entry, ignoreErrors: bool, withChunks: bool, env: Env, pending: seq<string>,
      ghost depth: nat, ghost m: Store, ghost early: seq<Event>, ghost queued: seq<string>, ghost done: set<string>, ghost files: seq<Path>)
      returns (ok: bool, pending': seq<string>, ghost files': seq<Path>)
      requires |p| < depth && Bounded(store, depth) && Named(store)
      requires Clean(ignoreErrors, env) ==> DeletingSince(m, early, queued, p, done, env, withChunks, files, pending)
      requires Clean(ignoreErrors, env) || Pressed(config, m, p, ignoreErrors, env) ==>
                 LiveChild(store, p, n, env) && store[p + [n]] == sub && n !in done
      requires Thinning(config, m, store, p, done, ignoreErrors, env)
      modifies this`store, this`events, this`deletedChunks
      ensures OnlyRemoves(old(store), store)
      ensures Clean(ignoreErrors, env) && ok ==>
                DeletingSince(m, early, queued, p, done + {n}, env, withChunks, files', pending')
      ensures ok && Pressed(config, m, p, ignoreErrors, env) ==> Thinning(config, m, store, p, done + {n}, ignoreErrors, env)
      ensures Clean(ignoreErrors, env) ==> Contained(config, m, store, p, env)
      ensures (forall q :: !env.deleteChildrenFails(q)) || ignoreErrors ==> ok
      decreases depth - |p|, 0, 0
    {
      pending', files' := pending, files;
      if Clean(ignoreErrors, env) {
        FromConfined(config, m, early, queued, store, events, deletedChunks, p, done, env, withChunks, files, pending);
      }
      if sub.isDirectory {
        ghost var inner;
        ok, inner := DeleteFolder(p + [n], sub, true, ignoreErrors, withChunks, IsBucket(config, p + [n], sub), env, depth);
        if Clean(ignoreErrors, env) {
          ContainedInner(config, m, old(store), store, p, n, env);
          if ok {
            FromFolder(config, m, early, queued, old(store), old(events), old(deletedChunks), p, done, n, env, withChunks, files, pending,
                       store, events, deletedChunks, inner);
          }
        }
        if Pressed(config, m, p, ignoreErrors, env) {
          ThinFolder(config, m, old(store), store, p, done, n, ignoreErrors, env);
        }
        files' := files + inner;
        ok := ok || ignoreErrors;
      } else {
        ok := true;
        if Clean(ignoreErrors, env) {
          FromFile(config, m, early, queued, store, events, deletedChunks, p, done, n, env, withChunks, files, pending);
        }
        if Pressed(config, m, p, ignoreErrors, env) {
          ThinFile(config, m, store, p, done, n, ignoreErrors, env);
        }
        assert pending + [] == pending && files + [] == files;
        events := events + Announce(config, Event(p + [n], Some(sub), None));
        if sub.hardLinkId == "" && withChunks {
          pending' := pending + sub.chunks;
          files' := files + [p + [n]];
        }
      }
    }

    /** Deals with the first child left on a page. */
    method DeleteFirst(
      p: Path, names: seq<string>, subs: map<string, Entry>, ignoreErrors: bool, withChunks: bool, env: Env, pending: seq<string>,
      ghost depth: nat, ghost m: Store, ghost early: seq<Event>, ghost queued: seq<string>, ghost done: set<string>, ghost files: seq<Path>)
      returns (ok: bool, pending': seq<string>, ghost files': seq<Path>)
      requires |p| < depth && Bounded(store, depth) && Named(store) && names != [] && names[0] in subs && names[0] !in names[1..]
      requires Clean(ignoreErrors, env) ==> DeletingSince(m, early, queued, p, done, env, withChunks, files, pending)
      requires Clean(ignoreErrors, env) || Pressed(config, m, p, ignoreErrors, env) ==> PageLeft(store, p, names, subs, done, env)
      requires Thinning(config, m, store, p, done, ignoreErrors, env)
      modifies this`store, this`events, this`deletedChunks
      ensures OnlyRemoves(old(store), store)
      ensures Clean(ignoreErrors, env) && ok ==>
                DeletingSince(m, early, queued, p, done + {names[0]}, env, withChunks, files', pending')
      ensures (Clean(ignoreErrors, env) || Pressed(config, m, p, ignoreErrors, env)) && ok ==>
                PageLeft(store, p, names[1..], subs, done + {names[0]}, env)
      ensures ok ==> Thinning(config, m, store, p, done + {names[0]}, ignoreErrors, env)
      ensures Clean(ignoreErrors, env) ==> Contained(config, m, store, p, env)
      ensures (forall q :: !env.deleteChildrenFails(q)) || ignoreErrors ==> ok
      decreases depth - |p|, 0, 1
    {
      if Clean(ignoreErrors, env) || Pressed(config, m, p, ignoreErrors, env) {
        PageLeftFirst(store, p, names, subs, done, env);
      }
      if Clean(ignoreErrors, env) {
        FromConfined(config, m, early, queued, store, events, deletedChunks, p, done, env, withChunks, files, pending);
      }
      ok, pending', files' := DeleteChild(p, names[0], subs[names[0]], ignoreErrors, withChunks, env, pending, depth, m, early, queued, done, files);
      if Clean(ignoreErrors, env) && ok {
        PageLeftAfter(config, m, early, queued, old(store), store, events, deletedChunks, p, done, env, withChunks, files', pending',
                      names[1..], names[0], subs);
      }
      if Pressed(config, m, p, ignoreErrors, env) && ok {
        ThinPageLeft(config, m, old(store), store, p, done, names[0], ignoreErrors, env, names[1..], subs);
      }
    }

    /** Deals with the children on one page. */
    method DeletePage(
      p: Path, names: seq<string>, subs: map<string, Entry>, ignoreErrors: bool, withChunks: bool, env: Env, pending: seq<string>,
      ghost depth: nat, ghost m: Store, ghost early: seq<Event>, ghost queued: seq<string>, ghost done: set<string>, ghost files: seq<Path>)
      returns (ok: bool, pending': seq<string>, ghost files': seq<Path>)
      requires |p| < depth && Bounded(store, depth) && Named(store) && (forall n <- names :: n in subs) && Distinct(names)
      requires Clean(ignoreErrors, env) ==>
                 DeletingSince(m, early, queued, p, done, env, withChunks, files, pending) && Contained(config, m, store, p, env)
      requires PageLeft(store, p, names, subs, done, env) && Thinning(config, m, store, p, done, ignoreErrors, env)
      modifies this`store, this`events, this`deletedChunks
      ensures OnlyRemoves(old(store), store)
      ensures Clean(ignoreErrors, env) && ok ==>
                DeletingSince(m, early, queued, p, done + (set n | n in names), env, withChunks, files', pending')
      ensures ok ==> Thinning(config, m, store, p, done + (set n | n in names), ignoreErrors, env)
      ensures Clean(ignoreErrors, env) ==> Contained(config, m, store, p, env)
      ensures (forall q :: !env.deleteChildrenFails(q)) || ignoreErrors ==> ok
      decreases depth - |p|, 1
    {
      ok, pending', files' := true, pending, files;
      ghost var finished := done;
      var i := 0;
      assert names[0..] == names;
      while i < |names|
        invariant 0 <= i <= |names| && ok && OnlyRemoves(old(store), store)
        invariant finished == done + (set n | n in names[..i])
        invariant Clean(ignoreErrors, env) ==>
                    DeletingSince(m, early, queued, p, finished, env, withChunks, files', pending') &&
                    Contained(config, m, store, p, env)
        invariant Clean(ignoreErrors, env) || Pressed(config, m, p, ignoreErrors, env) ==>
                    PageLeft(store, p, names[i..], subs, finished, env)
        invariant Thinning(config, m, store, p, finished, ignoreErrors, env)
      {
        RestOfPage(names, i);
        ok, pending', files' :=
          DeleteFirst(p, names[i..], subs, ignoreErrors, withChunks, env, pending', depth, m, early, queued, finished, files');
        if !ok {
          return;
        }
        finished := finished + {names[i]};
        i := i + 1;
      }
      assert names[..|names|] == names;
    }

    /** Lists a page of the folder. */
    method ListPage(
      p: Path, ignoreErrors: bool, withChunks: bool, env: Env, last: string, ghost pending: seq<string>,
      ghost m: Store, ghost early: seq<Event>, ghost queued: seq<string>, ghost done: set<string>, ghost files: seq<Path>)
      returns (names: seq<string>, subs: map<string, Entry>)
      requires Named(store) && DoneUpTo(store, p, done, last, env)
      requires Clean(ignoreErrors, env) ==>
                 DeletingSince(m, early, queued, p, done, env, withChunks, files, pending) && p in m && m[p].isDirectory
      requires Thinning(config, m, store, p, done, ignoreErrors, env)
      modifies this`store, this`events
      ensures Listed(store, p, last, PAGINATION_SIZE, names, env)
      ensures OnlyRemoves(old(store), store) && FirstPage(config, old(store), store, p, last, names, env)
      ensures DoneUpTo(store, p, done, last, env)
      ensures Distinct(names) && (forall n <- names :: n in subs) && PageLeft(store, p, names, subs, done, env)
      ensures Thinning(config, m, store, p, done, ignoreErrors, env)
      ensures Clean(ignoreErrors, env) ==>
                DeletingSince(m, early, queued, p, done, env, withChunks, files, pending) && Contained(config, m, store, p, env)
    {
      names := ListDirectoryEntries(p, last, PAGINATION_SIZE, env);
      if Clean(ignoreErrors, env) {
        FromSweep(config, m, early, queued, old(store), old(events), deletedChunks, p, done, env, withChunks, files, pending, store, events);
        FromConfined(config, m, early, queued, store, events, deletedChunks, p, done, env, withChunks, files, pending);
      }
      ThinSweep(config, m, old(store), store, p, done, ignoreErrors, env);
      FirstPageListed(config, old(store), store, p, last, names, env);
      DoneShrinks(old(store), store, p, done, last, env);
      AscendingIsDistinct(last, names);
      if names != [] {
        DonePage(store, store, p, done, last, PAGINATION_SIZE, names, env);
      }
      subs := map n | n in names :: store[p + [n]];
    }

    /** Lists the next page and deals with it. */
    method DeleteNextPage(
      p: Path, ignoreErrors: bool, withChunks: bool, env: Env, last: string, pending: seq<string>, names: seq<string>, subs: map<string, Entry>,
      ghost depth: nat, ghost m: Store, ghost early: seq<Event>, ghost queued: seq<string>, ghost done: set<string>, ghost files: seq<Path>)
      returns (ok: bool, last': string, pending': seq<string>, ghost files': seq<Path>, ghost done': set<string>)
      requires |p| <= depth && Bounded(store, depth) && Named(store) && DoneUpTo(store, p, done, last, env)
      requires Listed(store, p, last, PAGINATION_SIZE, names, env)
      requires Distinct(names) && (forall n <- names :: n in subs) && PageLeft(store, p, names, subs, done, env)
      requires Clean(ignoreErrors, env) ==>
                 DeletingSince(m, early, queued, p, done, env, withChunks, files, pending) && Contained(config, m, store, p, env)
      requires Thinning(config, m, store, p, done, ignoreErrors, env)
      modifies this`store, this`events, this`deletedChunks
      ensures ok ==> Thinning(config, m, store, p, done', ignoreErrors, env)
      ensures OnlyRemoves(old(store), store) && (names == [] ==> ok && store == old(store))
      ensures Clean(ignoreErrors, env) && ok ==> DeletingSince(m, early, queued, p, done', env, withChunks, files', pending')
      ensures Clean(ignoreErrors, env) ==> Contained(config, m, store, p, env)
      ensures ok && |names| == PAGINATION_SIZE ==>
                DoneUpTo(store, p, done', last', env) && NamesAfter(store, p, last') < NamesAfter(old(store), p, last)
      ensures ok && |names| < PAGINATION_SIZE ==> AllDone(store, p, done', env)
      ensures (forall q :: !env.deleteChildrenFails(q)) || ignoreErrors ==> ok
      decreases depth - |p|, 2, 0
    {
      ok, last', pending', files', done' := true, last, pending, files, done + (set n | n in names);
      if names == [] {
        assert done' == done;
      } else {
        last' := names[|names|-1];
        assert HasChild(store, p, names[0]) by { assert names[0] in names; }
        ok, pending', files' := DeletePage(p, names, subs, ignoreErrors, withChunks, env, pending, depth, m, early, queued, done, files);
        if !ok {
          return;
        }
        DonePage(old(store), store, p, done, last, PAGINATION_SIZE, names, env);
        PageAdvances(old(store), store, p, last, PAGINATION_SIZE, names, env);
      }
      if |names| < PAGINATION_SIZE {
        DoneShortPage(old(store), store, p, done, last, PAGINATION_SIZE, names, env);
      }
    }

    /** Deals with all children, page by page. */
    method DeletePages(p: Path, recursive: bool, ignoreErrors: bool, withChunks: bool, env: Env, ghost depth: nat)
      returns (ok: bool, pending: seq<string>, ghost files: seq<Path>, ghost done: set<string>)
      requires |p| <= depth && Bounded(store, depth) && Named(store)
      requires Clean(ignoreErrors, env) ==> Tree(store) && p in store && store[p].isDirectory
      modifies this`store, this`events, this`deletedChunks
      ensures OnlyRemoves(old(store), store)
      ensures Clean(ignoreErrors, env) && ok ==>
                DeletingSince(old(store), old(events), old(deletedChunks), p, done, env, withChunks, files, pending)
      ensures ok ==> AllDone(store, p, done, env) && Thinning(config, old(store), store, p, done, ignoreErrors, env)
      ensures Clean(ignoreErrors, env) ==> Contained(config, old(store), store, p, env)
      ensures recursive && ((forall q :: !env.deleteChildrenFails(q)) || ignoreErrors) ==> ok
      ensures !recursive ==> Shallow(config, old(store), store, p, ok, env)
      decreases depth - |p|, 2
    {
      ok, pending, files, done := true, [], [], {};
      var last, more := "", true;
      if Clean(ignoreErrors, env) {
        FromStart(config, store, events, deletedChunks, p, env, withChunks);
        FromConfined(config, store, events, deletedChunks, store, events, deletedChunks, p, done, env, withChunks, files, pending);
      }
      DoneAtStart(store, p, env);
      ThinStart(config, store, p, ignoreErrors, env);
      while more
        invariant OnlyRemoves(old(store), store) && ok && Thinning(config, old(store), store, p, done, ignoreErrors, env)
        invariant Clean(ignoreErrors, env) ==>
                    DeletingSince(old(store), old(events), old(deletedChunks), p, done, env, withChunks, files, pending) &&
                    Contained(config, old(store), store, p, env)
        invariant if more then DoneUpTo(store, p, done, last, env) else AllDone(store, p, done, env)
        invariant !recursive ==> if more then last == "" && store == old(store) else Shallow(config, old(store), store, p, true, env)
        decreases more, NamesAfter(store, p, last)
      {
        ok, more, last, pending, files, done :=
          DeleteSome(p, recursive, ignoreErrors, withChunks, env, last, pending, depth, old(store), old(events), old(deletedChunks), done, files);
        if !ok {
          return;
        }
      }
    }

    /** One round: lists a page, and deals with it unless it shows that the folder is not empty. */
    method DeleteSome(
      p: Path, recursive: bool, ignoreErrors: bool, withChunks: bool, env: Env, last: string, pending: seq<string>,
      ghost depth: nat, ghost m: Store, ghost early: seq<Event>, ghost queued: seq<string>, ghost done: set<string>, ghost files: seq<Path>)
      returns (ok: bool, more: bool, last': string, pending': seq<string>, ghost files': seq<Path>, ghost done': set<string>)
      requires |p| <= depth && Bounded(store, depth) && Named(store) && DoneUpTo(store, p, done, last, env)
      requires Clean(ignoreErrors, env) ==>
                 DeletingSince(m, early, queued, p, done, env, withChunks, files, pending) && p in m && m[p].isDirectory
      requires !recursive ==> last == "" && store == m
      requires Thinning(config, m, store, p, done, ignoreErrors, env)
      modifies this`store, this`events, this`deletedChunks
      ensures OnlyRemoves(old(store), store)
      ensures Clean(ignoreErrors, env) && ok ==> DeletingSince(m, early, queued, p, done', env, withChunks, files', pending')
      ensures Clean(ignoreErrors, env) ==> Contained(config, m, store, p, env)
      ensures ok && more ==> DoneUpTo(store, p, done', last', env) && NamesAfter(store, p, last') < NamesAfter(old(store), p, last)
      ensures ok && !more ==> AllDone(store, p, done', env)
      ensures ok ==> Thinning(config, m, store, p, done', ignoreErrors, env)
      ensures recursive && ((forall q :: !env.deleteChildrenFails(q)) || ignoreErrors) ==> ok
      ensures !recursive ==> !more && Shallow(config, m, store, p, ok, env)
      decreases depth - |p|, 2, 1
    {
      var names, subs := ListPage(p, ignoreErrors, withChunks, env, last, pending, m, early, queued, done, files);
      ghost var listed := store;
      if !recursive {
        ShallowListed(config, old(store), store, p, names, env);
        if names != [] {
          return false, false, last, pending, files, done;
        }
      }
      ok, last', pending', files', done' :=
        DeleteNextPage(p, ignoreErrors, withChunks, env, last, pending, names, subs, depth, m, early, queued, done, files);
      more := |names| == PAGINATION_SIZE;
      if ok && more {
        StillFewer(old(store), listed, store, p, last, last');
      }
    }

    /** Deletes what is in a folder, not the folder itself; but it is announced here. */
    method DeleteFolder(
      p: Path, entry: Entry, recursive: bool, ignoreErrors: bool, withChunks: bool, isBucket: bool, env: Env, ghost depth: nat)
      returns (ok: bool, ghost files: seq<Path>)
      requires |p| <= depth && Bounded(store, depth) && Named(store) && isBucket == IsBucket(config, p, entry)
      requires Clean(ignoreErrors, env) ==> Tree(store) && p in store && store[p] == entry && entry.isDirectory
      modifies this`store, this`events, this`deletedChunks
      ensures OnlyRemoves(old(store), store)
      ensures Clean(ignoreErrors, env) && ok ==>
                DeletedSince(old(store), old(events), old(deletedChunks), p, env, withChunks, files)
      ensures Clean(ignoreErrors, env) ==> Contained(config, old(store), store, p, env)
      ensures recursive && (forall q :: !env.deleteChildrenFails(q)) ==> ok
      ensures !recursive && !(isBucket && config.canDropWholeBucket) ==> ShallowFolder(config, old(store), store, p, ok, env)
      ensures recursive && p in old(store) && old(store)[p] == entry && Pressed(config, old(store), p, ignoreErrors, env) ==>
                ok == !env.deleteChildrenFails(p) && store == Thinned(old(store), p, env)
      decreases depth - |p|, 3
    {
      if isBucket && config.canDropWholeBucket {
        if p in store && store[p] == entry {
          NotPressed(config, store, p, ignoreErrors, env);
        }
        ok := DropBucket(p, entry, ignoreErrors, withChunks, env);
        files := [];
        return;
      }
      var pending;
      ghost var done;
      ok, pending, files, done := DeletePages(p, recursive, ignoreErrors, withChunks, env, depth);
      PressedIgnores(config, old(store), p, ignoreErrors, env);
      if !recursive {
        ShallowEnds(config, old(store), store, p, ok, env);
      }
      if ok {
        if Pressed(config, old(store), p, ignoreErrors, env) {
          ThinEnd(config, old(store), store, p, done, ignoreErrors, env);
        }
        ok := FinishFolder(p, entry, ignoreErrors, withChunks, env, pending, old(store), old(events), old(deletedChunks), files, done);
      }
    }

    /** A store that can drop the whole bucket does so. */
    method DropBucket(p: Path, entry: Entry, ghost ignoreErrors: bool, ghost withChunks: bool, env: Env) returns (ok: bool)
      requires IsBucket(config, p, entry) && config.canDropWholeBucket
      requires Clean(ignoreErrors, env) ==> Tree(store) && p in store && store[p] == entry
      modifies this`store, this`events
      ensures ok == !env.deleteChildrenFails(p) && OnlyRemoves(old(store), store)
      ensures Clean(ignoreErrors, env) && ok ==>
                DeletedSince(old(store), old(events), deletedChunks, p, env, withChunks, [])
      ensures Clean(ignoreErrors, env) ==> Contained(config, old(store), store, p, env)
    {
      if env.deleteChildrenFails(p) {
        return false;
      }
      if Clean(ignoreErrors, env) {
        FromDrop(config, store, events, deletedChunks, p, env, withChunks);
      }
      store := DropAll(store, p);
      events := events + Announce(config, Event(p, Some(entry), None));
      return true;
    }

    /** Removes the children, announces the folder and hands over the chunks of its files. */
    method FinishFolder(
      p: Path, entry: Entry, ghost ignoreErrors: bool, ghost withChunks: bool, env: Env, pending: seq<string>,
      ghost m: Store, ghost early: seq<Event>, ghost queued: seq<string>, ghost files: seq<Path>, ghost done: set<string>)
      returns (ok: bool)
      requires Clean(ignoreErrors, env) ==>
                 && DeletingSince(m, early, queued, p, done, env, withChunks, files, pending) && Contained(config, m, store, p, env)
                 && AllDone(store, p, done, env) && p in m && m[p] == entry && entry.isDirectory
      modifies this`store, this`events, this`deletedChunks
      ensures ok == !env.deleteChildrenFails(p) && OnlyRemoves(old(store), store)
      ensures store == if ok then DropChildren(old(store), p) else old(store)
      ensures Clean(ignoreErrors, env) && ok ==> DeletedSince(m, early, queued, p, env, withChunks, files)
      ensures Clean(ignoreErrors, env) ==> Contained(config, m, store, p, env)
    {
      if env.deleteChildrenFails(p) {
        return false;
      }
      if Clean(ignoreErrors, env) {
        FromEnd(config, m, early, queued, store, events, deletedChunks, p, done, env, withChunks, files, pending);
      }
      store := DropChildren(store, p);
      events := events + Announce(config, Event(p, Some(entry), None));
      deletedChunks := deletedChunks + if config.keepChunks(p) then [] else pending;
      return true;
    }

    /** Empties a folder that is then ready to be deleted. */
    method EmptyFolder(p: Path, entry: Entry, recursive: bool, ignoreErrors: bool, withChunks: bool, env: Env)
      returns (ok: bool, ghost files: seq<Path>)
      requires Named(store) && p in store && store[p] == entry && entry.isDirectory
      requires Clean(ignoreErrors, env) ==> Tree(store)
      modifies this`store, this`events, this`deletedChunks
      ensures OnlyRemoves(old(store), store)
      ensures ok && Clean(ignoreErrors, env) ==>
                && old(events) <= events && old(deletedChunks) <= deletedChunks
                && DeletedSo(config, old(store), store - {p}, p, env, withChunks, events[|old(events)|..], files,
                                deletedChunks[|old(deletedChunks)|..] + if withChunks then OwnChunks(config, p, entry) else [])
      ensures Clean(ignoreErrors, env) ==> Contained(config, old(store), store, p, env)
      ensures !recursive && !NoLive(old(store), p, env) && !(IsBucket(config, p, entry) && config.canDropWholeBucket) ==>
                !ok && Swept(config, old(store), store, p, env)
      ensures recursive && (forall q :: !env.deleteChildrenFails(q)) ==> ok
      ensures recursive && Pressed(config, old(store), p, ignoreErrors, env) ==>
                ok == !env.deleteChildrenFails(p) && store == Thinned(old(store), p, env)
    {
      ghost var depth := HasDepth(store);
      ok, files := DeleteFolder(p, entry, recursive, ignoreErrors, withChunks, IsBucket(config, p, entry), env, depth);
      if ok && Clean(ignoreErrors, env) {
        FolderEntryDeleted(config, old(store), old(events), old(deletedChunks), store, events, deletedChunks, p, env, withChunks, files);
      }
      if !recursive {
        assert Opened(0);
      }
    }

    /** Deletes a found entry, with all below it if it is a folder. */
    method DeleteFound(p: Path, entry: Entry, recursive: bool, ignoreErrors: bool, withChunks: bool, env: Env)
      returns (ok: bool, ghost files: seq<Path>)
      requires Named(store) && p in store && store[p] == entry && !entry.Expired(env.now)
      requires Clean(ignoreErrors, env) ==> Tree(store)
      modifies this`store, this`events, this`deletedChunks
      ensures OnlyRemoves(old(store), store)
      ensures ok && Clean(ignoreErrors, env) ==>
                && old(events) <= events && old(deletedChunks) <= deletedChunks
                && DeletedSo(config, old(store), store, p, env, withChunks,
                                events[|old(events)|..], files, deletedChunks[|old(deletedChunks)|..])
      ensures !ok && Clean(ignoreErrors, env) ==> Contained(config, old(store), store, p, env)
      ensures !recursive && entry.isDirectory && !NoLive(old(store), p, env) && !(IsBucket(config, p, entry) && config.canDropWholeBucket) ==>
                !ok && Swept(config, old(store), store, p, env)
      ensures (recursive || !entry.isDirectory) && (forall q :: !env.deleteChildrenFails(q)) && !env.deleteOneFails(p) ==> ok
      ensures recursive && entry.isDirectory && Pressed(config, old(store), p, ignoreErrors, env) ==>
                && ok == (!env.deleteChildrenFails(p) && !env.deleteOneFails(p))
                && store == var left := Thinned(old(store), p, env); if ok then left - {p} else left
    {
      if entry.isDirectory {
        ok, files := EmptyFolder(p, entry, recursive, ignoreErrors, withChunks, env);
        if ok {
          ok := RemoveEmptied(p, entry, withChunks, env, Clean(ignoreErrors, env), old(store), old(events), old(deletedChunks), files);
        }
      } else {
        files := [];
        ok := DeleteFile(p, entry, ignoreErrors, withChunks, env);
      }
    }

    /** Removes a folder that has been emptied, of which `m`, `early` and `queued` were before. */
    method RemoveEmptied(
      p: Path, entry: Entry, withChunks: bool, env: Env, ghost clean: bool,
      ghost m: Store, ghost early: seq<Event>, ghost queued: seq<string>, ghost files: seq<Path>)
      returns (ok: bool)
      requires p in m && entry.isDirectory
      requires clean ==>
                 && early <= events && queued <= deletedChunks
                 && DeletedSo(config, m, store - {p}, p, env, withChunks, events[|early|..], files,
                              deletedChunks[|queued|..] + if withChunks then OwnChunks(config, p, entry) else [])
      modifies this`store, this`events, this`deletedChunks
      ensures ok == !env.deleteOneFails(p) && store == if ok then old(store) - {p} else old(store)
      ensures ok && clean ==>
                && early <= events && queued <= deletedChunks
                && DeletedSo(config, m, store, p, env, withChunks, events[|early|..], files, deletedChunks[|queued|..])
    {
      ok := FinishDelete(p, entry, withChunks, env);
      if ok && clean {
        Since(early, old(events), events);
        Since(queued, old(deletedChunks), deletedChunks);
      }
    }

    method DeleteFile(p: Path, entry: Entry, ignoreErrors: bool, withChunks: bool, env: Env) returns (ok: bool)
      requires p in store && store[p] == entry && !entry.Expired(env.now) && !entry.isDirectory
      requires Clean(ignoreErrors, env) ==> Tree(store)
      modifies this`store, this`events, this`deletedChunks
      ensures OnlyRemoves(old(store), store) && ok == !env.deleteOneFails(p)
      ensures ok && Clean(ignoreErrors, env) ==>
                && old(events) <= events && old(deletedChunks) <= deletedChunks
                && DeletedSo(config, old(store), store, p, env, withChunks,
                             events[|old(events)|..], [], deletedChunks[|old(deletedChunks)|..])
      ensures !ok && Clean(ignoreErrors, env) ==> Contained(config, old(store), store, p, env)
    {
      if Clean(ignoreErrors, env) {
        FileEntryDeleted(config, store, p, env, withChunks);
        NothingContained(config, store, p, env);
      }
      ok := FinishDelete(p, entry, withChunks, env);
    }

    /** Deletes the entry itself and hands over its chunks. */
    method FinishDelete(p: Path, entry: Entry, withChunks: bool, env: Env) returns (ok: bool)
      modifies this`store, this`events, this`deletedChunks
      ensures ok == !env.deleteOneFails(p)
      ensures store == if ok then old(store) - {p} else old(store)
      ensures old(events) <= events && old(deletedChunks) <= deletedChunks
      ensures ok ==> events[|old(events)|..] == if entry.isDirectory then [] else Announce(config, Event(p, Some(entry), None))
      ensures ok ==> deletedChunks[|old(deletedChunks)|..] == if withChunks then OwnChunks(config, p, entry) else []
    {
      ok := DoDeleteEntry(p, entry, env);
      if ok && withChunks {
        deletedChunks := deletedChunks + OwnChunks(config, p, entry);
      }
    }

    /** Deletes an entry, and all below it if asked to; an entry modified after the given time is left
        alone. */
    method DeleteEntry(
      p: Path, recursive: bool, ignoreErrors: bool, withChunks: bool, ifNotModifiedAfter: int, env: Env)
      returns (ok: bool, ghost files: seq<Path>)
      requires Named(store) && (Clean(ignoreErrors, env) ==> Tree(store))
      modifies this
      ensures OnlyRemoves(old(store), store)
      ensures Clean(ignoreErrors, env) ==> Tree(store)
      ensures p == [] || ToBeKept(old(store), p, ifNotModifiedAfter, env) ==>
                ok && store == old(store) && events == old(events) && deletedChunks == old(deletedChunks)
      ensures p != [] && Found(old(store), p, env.now).None? ==>
                !ok && store == AfterFind(old(store), p, env) && deletedChunks == old(deletedChunks)
      ensures ToBeDeleted(old(store), p, ifNotModifiedAfter, env) ==>
                var entry := old(store)[p];
                && (ok && Clean(ignoreErrors, env) ==>
                      && old(events) <= events && old(deletedChunks) <= deletedChunks
                      && EntryDeleted(config, old(store), store, p, env, withChunks && !IsBucket(config, p, entry),
                                      events[|old(events)|..], files, deletedChunks[|old(deletedChunks)|..]))
                && (!ok && Clean(ignoreErrors, env) ==> Confined(config, old(store), store, p, env))
                && (!recursive && entry.isDirectory && !NoLive(old(store), p, env) && !(IsBucket(config, p, entry) && config.canDropWholeBucket)
                    ==> !ok && Swept(config, old(store), store, p, env))
                && ((recursive || !entry.isDirectory) && (forall q :: !env.deleteChildrenFails(q)) && !env.deleteOneFails(p) ==> ok)
                && (recursive && entry.isDirectory && Pressed(config, old(store), p, ignoreErrors, env) ==>
                      && ok == (!env.deleteChildrenFails(p) && !env.deleteOneFails(p))
                      && store == var left := Thinned(old(store), p, env); if ok then left - {p} else left)
                && droppedCollections == old(droppedCollections) + if ok && IsBucket(config, p, entry) then [p[|p|-1]] else []
    {
      files := [];
      if p == [] {
        return true, [];
      }
      var entry := FindEntry(p, env);
      if entry.None? {
        if Tree(old(store)) {
          FindKeepsTree(old(store), p, env);
        }
        return false, [];
      }
      if ifNotModifiedAfter > 0 && entry.value.mtime > ifNotModifiedAfter {
        return true, [];
      }
      var isDeleteCollection := IsBucket(config, p, entry.value);
      ok, files := DeleteFound(p, entry.value, recursive, ignoreErrors, withChunks && !isDeleteCollection, env);
      assert Opened(0);
      if ok && isDeleteCollection {
        droppedCollections := droppedCollections + [p[|p|-1]];
      }
    }
  }

  predicate ToBeKept(m: Store, p: Path, ifNotModifiedAfter: int, env: Env) {
    p in m && p != [] && !m[p].Expired(env.now) && ifNotModifiedAfter > 0 && m[p].mtime > ifNotModifiedAfter
  }

  predicate ToBeDeleted(m: Store, p: Path, ifNotModifiedAfter: int, env: Env) {
    p in m && p != [] && !m[p].Expired(env.now) && !(ifNotModifiedAfter > 0 && m[p].mtime > ifNotModifiedAfter)
  }

  lemma RestOfPage(names: seq<string>, i: nat)
    requires Distinct(names) && i < |names|
    ensures names[i..][1..] == names[i + 1..] && names[i..][0] == names[i] && names[i] !in names[i + 1..]
    ensures names[..i + 1] == names[..i] + [names[i]]
  {
  }

  lemma StillFewer(m: Store, m': Store, m'': Store, p: Path, last: string, last': string)
    requires OnlyRemoves(m, m') && NamesAfter(m'', p, last') < NamesAfter(m', p, last)
    ensures NamesAfter(m'', p, last') < NamesAfter(m, p, last)
  {
  }

  // ---------------------------------------------------------------------------------------
  // Runs
  // ---------------------------------------------------------------------------------------

  datatype Command =
    | Create(path: Path, entry: Entry, oExcl: bool, maxNameLength: nat)
    | Delete(path: Path, recursive: bool, ignoreErrors: bool, withChunks: bool, ifNotModifiedAfter: int)
    | Find(path: Path)
    | List(path: Path, start: string, limit: nat)
    | Tidy(path: Path, stop: Option<Path>)

  /** The paths are paths, and no delete ignores a failing store. */
  ghost predicate Proper(command: Command, env: Env) {
    && (command.Create? ==> "" !in command.path)
    && (command.Delete? ==> Clean(command.ignoreErrors, env))
  }

  method Execute(f: Filer, command: Command, env: Env)
    requires Tree(f.store) && Named(f.store) && Proper(command, env)
    modifies f
    ensures Tree(f.store) && Named(f.store)
  {
    match command {
      case Create(path, entry, oExcl, maxNameLength) =>
        ghost var m := f.store;
        var _ := f.CreateEntry(path, entry, oExcl, false, maxNameLength, env);
        CreateKeepsNamed(m, f.store, path, env);
      case Delete(path, recursive, ignoreErrors, withChunks, ifNotModifiedAfter) =>
        var _, _ := f.DeleteEntry(path, recursive, ignoreErrors, withChunks, ifNotModifiedAfter, env);
      case Find(path) =>
        ghost var m := f.store;
        var _ := f.FindEntry(path, env);
        FindKeepsTree(m, path, env);
      case List(path, start, limit) =>
        var _ := f.ListDirectoryEntries(path, start, limit, env);
      case Tidy(path, stop) =>
        var _ := f.DeleteEmptyParentDirectories(path, stop, env);
    }
  }

  lemma CreateKeepsNamed(m: Store, m': Store, path: Path, env: Env)
    requires Named(m) && OnlyAbove(m, m', path, env) && "" !in path
    ensures Named(m')
  {
    forall q <- m' ensures "" !in q {
      if q != path && !Under(q, path) {
        assert Same(m, m', q);
      }
    }
  }

  /** A file in a folder in a folder: deleting the outer folder while ignoring that the children of
      the inner one cannot be removed succeeds, and leaves the file where no folder is. */
  method OrphanedFile(c: Config, env: Env) returns (f: Filer, ok: bool)
    requires !c.canDropWholeBucket && !env.deleteOneFails(["a"])
    requires env.deleteChildrenFails(["a", "b"]) && !env.deleteChildrenFails(["a"])
    ensures ok && f.store == map[["a", "b", "c"] := ROOT.(isDirectory := false)] && !Tree(f.store)
  {
    f := new Filer(c);
    var file := ROOT.(isDirectory := false);
    f.store := map[["a"] := ROOT, ["a", "b"] := ROOT, ["a", "b", "c"] := file];
    ghost var m := f.store;
    OrphanedStore(c, m, env);
    ghost var files;
    ok, files := f.DeleteEntry(["a"], true, true, false, 0, env);
  }

  /** The paths of that example. */
  lemma Nested(a: Path, b: Path, c: Path)
    requires a == ["a"] && b == ["a", "b"] && c == ["a", "b", "c"]
    ensures |a| == 1 && |b| == 2 && |c| == 3 && Parent(b) == a && Parent(c) == b && Under(a, b) && Under(a, c)
    ensures "" !in a && "" !in b && "" !in c
  {
  }

  lemma OrphanedTree(m: Store, a: Path, b: Path, c: Path)
    requires |a| == 1 && |b| == 2 && |c| == 3 && Parent(b) == a && Parent(c) == b
    requires m == map[a := ROOT, b := ROOT, c := ROOT.(isDirectory := false)]
    ensures Tree(m)
  {
  }

  lemma OrphanedLeft(m: Store, a: Path, b: Path, c: Path, env: Env)
    requires |a| == 1 && |b| == 2 && |c| == 3 && Parent(b) == a && Parent(c) == b && Under(a, b) && Under(a, c) && Tree(m)
    requires m == map[a := ROOT, b := ROOT, c := ROOT.(isDirectory := false)]
    requires env.deleteChildrenFails(b) && !env.deleteChildrenFails(a)
    ensures Thinned(m, a, env) - {a} == map[c := ROOT.(isDirectory := false)] && !Tree(Thinned(m, a, env) - {a})
  {
    OrphansRemain(m, a, env);
    assert Orphan(a, c, env);
  }

  lemma OrphanedStore(config: Config, m: Store, env: Env)
    requires !config.canDropWholeBucket && env.deleteChildrenFails(["a", "b"]) && !env.deleteChildrenFails(["a"])
    requires m == map[["a"] := ROOT, ["a", "b"] := ROOT, ["a", "b", "c"] := ROOT.(isDirectory := false)]
    ensures Tree(m) && Named(m) && Pressed(config, m, ["a"], true, env)
    ensures Thinned(m, ["a"], env) - {["a"]} == map[["a", "b", "c"] := ROOT.(isDirectory := false)]
    ensures !Tree(Thinned(m, ["a"], env) - {["a"]})
  {
    var a, b, c := ["a"], ["a", "b"], ["a", "b", "c"];
    Nested(a, b, c);
    OrphanedTree(m, a, b, c);
    PressedInTree(config, m, a, env);
    OrphanedLeft(m, a, b, c, env);
  }

  /** From an empty filer, every run of creating, deleting, looking up, listing and tidying up leaves
      a tree at each step, whatever expires on the way and whichever inserts fail. */
  method RunCommands(c: Config, commands: seq<(Command, Env)>) returns (f: Filer)
    requires forall x <- commands :: Proper(x.0, x.1)
    ensures fresh(f) && Tree(f.store) && Named(f.store)
  {
    f := new Filer(c);
    for i := 0 to |commands|
      invariant fresh(f) && Tree(f.store) && Named(f.store)
    {
      assert commands[i] in commands;
      Execute(f, commands[i].0, commands[i].1);
    }
  }
}
