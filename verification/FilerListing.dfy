/**
 Listing a directory, and what listing does on the side: entries that have expired are removed,
 and directories left empty by that are tidied up (weed/filer/filer.go,
 `doListDirectoryEntries`). Also how deletions are announced.
 */
module FilerListing {
  import opened FileChunks
  import opened Names
  import opened Namespace
  import opened FilerSpec

  // ---------------------------------------------------------------------------------------
  // Pages
  // ---------------------------------------------------------------------------------------

  predicate HasChild(m: Store, p: Path, n: string) { p + [n] in m }

  predicate IsChildOf(p: Path, q: Path) { |q| == |p| + 1 && Under(p, q) }

  lemma ChildPath(p: Path, n: string)
    ensures IsChildOf(p, p + [n]) && (p + [n])[|p|] == n
  {
  }

  lemma ChildName(p: Path, q: Path)
    requires IsChildOf(p, q)
    ensures q == p + [q[|p|]]
  {
  }

  predicate Ascending(start: string, names: seq<string>) {
    && (forall n <- names :: Before(start, n))
    && forall i, j :: 0 <= i < j < |names| ==> Before(names[i], names[j])
  }

  /** The names in a directory after `start`, in order, up to a limit. */
  ghost predicate Page(m: Store, p: Path, start: string, limit: nat, names: seq<string>) {
    && |names| <= limit && Ascending(start, names)
    && (forall n <- names :: HasChild(m, p, n))
    && forall n :: HasChild(m, p, n) && Before(start, n) && n !in names ==> |names| == limit && forall k <- names :: Before(k, n)
  }

  /** Names after one another are all different. */
  lemma AscendingIsDistinct(start: string, names: seq<string>)
    requires Ascending(start, names)
    ensures forall i, j :: 0 <= i < j < |names| ==> names[i] != names[j]
  {
    forall i, j | 0 <= i < j < |names| ensures names[i] != names[j] {
      if names[i] == names[j] {
        BeforeAsymmetric(names[i], names[j]);
      }
    }
  }

  function NamesAfter(m: Store, p: Path, start: string): (names: set<string>)
    ensures forall n :: n in names <==> HasChild(m, p, n) && Before(start, n)
  {
    var names := set q | q in m && IsChildOf(p, q) && Before(start, q[|p|]) :: q[|p|];
    assert forall n :: n in names <==> HasChild(m, p, n) && Before(start, n) by {
      forall n | HasChild(m, p, n) && Before(start, n) ensures n in names {
        ChildPath(p, n);
        assert (p + [n])[|p|] == n;
      }
      forall n | n in names ensures HasChild(m, p, n) && Before(start, n) {
        var q :| q in m && IsChildOf(p, q) && Before(start, q[|p|]) && q[|p|] == n;
        ChildName(p, q);
      }
    }
    names
  }

  predicate IsLeast(names: set<string>, n: string) {
    n in names && forall k <- names :: k == n || Before(n, k)
  }

  lemma {:induction false} LeastExists(names: set<string>)
    requires names != {}
    ensures exists n :: IsLeast(names, n)
    decreases |names|
  {
    var n :| n in names;
    var rest := names - {n};
    if rest == {} {
      assert names == {n};
      assert IsLeast(names, n);
    } else {
      LeastExists(rest);
      var k :| IsLeast(rest, k);
      BeforeTotal(n, k);
      if Before(n, k) {
        forall o <- names ensures o == n || Before(n, o) {
          if o != n && o != k {
            BeforeTransitive(n, k, o);
          }
        }
        assert IsLeast(names, n);
      } else {
        assert IsLeast(names, k);
      }
    }
  }

  /** The least name after the last one comes next. */
  lemma PageGrows(m: Store, p: Path, start: string, limit: nat, names: seq<string>, n: string)
    requires Page(m, p, start, |names|, names) && |names| < limit
    requires IsLeast(NamesAfter(m, p, if names == [] then start else names[|names|-1]), n)
    ensures Page(m, p, start, |names| + 1, names + [n])
  {
    var last := if names == [] then start else names[|names|-1];
    var all := names + [n];
    forall k <- names ensures Before(k, n) {
      var i :| 0 <= i < |names| && names[i] == k;
      if i < |names| - 1 {
        BeforeTransitive(k, last, n);
      }
    }
    assert Before(start, n) by {
      if names != [] {
        assert last in names;
        BeforeTransitive(start, last, n);
      }
    }
    forall k | HasChild(m, p, k) && Before(start, k) && k !in all ensures forall o <- all :: Before(o, k) {
      assert k !in names;
      assert names != [] ==> last in names;
      assert Before(last, k);
      assert k in NamesAfter(m, p, last);
    }
  }

  /** Nothing is left after the last one. */
  lemma PageEnds(m: Store, p: Path, start: string, limit: nat, names: seq<string>)
    requires Page(m, p, start, |names|, names) && |names| <= limit
    requires NamesAfter(m, p, if names == [] then start else names[|names|-1]) == {}
    ensures Page(m, p, start, limit, names)
  {
  }

  // ---------------------------------------------------------------------------------------
  // Announcing deletions
  // ---------------------------------------------------------------------------------------

  /** The news are the deletions of exactly these entries, each announced once, and none before
      anything below it. */
  ghost predicate Tells(news: seq<Event>, m: Store, gone: set<Path>) {
    && (forall e <- news :: e.path in gone && e.path in m && e == Event(e.path, Some(m[e.path]), None))
    && (forall q <- gone :: exists i :: 0 <= i < |news| && news[i].path == q)
    && forall i, j :: 0 <= i < j < |news| ==> Later(news[i].path, news[j].path)
  }

  predicate Later(p: Path, q: Path) { p != q && !Under(p, q) }

  lemma TellsMore(a: seq<Event>, b: seq<Event>, m: Store, m': Store, gone: set<Path>, gone': set<Path>)
    requires Tells(a, m, gone) && Tells(b, m', gone') && OnlyRemoves(m, m')
    requires forall p <- gone, q <- gone' :: Later(p, q)
    ensures Tells(a + b, m, gone + gone')
  {
    var news := a + b;
    forall q <- gone + gone' ensures exists i :: 0 <= i < |news| && news[i].path == q {
      if q in gone {
        var i :| 0 <= i < |a| && a[i].path == q;
        assert news[i].path == q;
      } else {
        var i :| 0 <= i < |b| && b[i].path == q;
        assert news[|a| + i].path == q;
      }
    }
    forall i, j | 0 <= i < j < |news| ensures Later(news[i].path, news[j].path) {
      if i < |a| && |a| <= j {
        assert a[i] in a && b[j - |a|] in b;
      }
    }
  }

  lemma TellsOne(e: Event, m: Store)
    requires e.path in m && e == Event(e.path, Some(m[e.path]), None)
    ensures Tells([e], m, {e.path})
  {
    assert [e][0].path == e.path;
  }

  lemma NoNews(news: seq<Event>, m: Store)
    requires Tells(news, m, {})
    ensures news == []
  {
    SomeElement(news);
  }

  lemma SomeElement(news: seq<Event>)
    ensures news == [] || exists e :: e in news
  {
    assert news != [] ==> news[0] in news;
  }

  // ---------------------------------------------------------------------------------------
  // Sweeping out what has expired
  // ---------------------------------------------------------------------------------------

  datatype Kind = Live | S3Expired | TtlExpired

  function KindOf(e: Entry, now: int): Kind {
    if !e.Expired(now) then Live else if e.s3Expires then S3Expired else TtlExpired
  }

  predicate AllThere(m: Store, p: Path, names: seq<string>) { forall n <- names :: HasChild(m, p, n) }

  predicate Distinct(names: seq<string>) { forall i, j :: 0 <= i < j < |names| ==> names[i] != names[j] }

  /** The entries of a page that are of a kind. */
  function Pick(m: Store, p: Path, names: seq<string>, kind: Kind, now: int): seq<string>
    requires AllThere(m, p, names)
  {
    if names == [] then []
    else
      var init, n := names[..|names|-1], names[|names|-1];
      assert n in names && HasChild(m, p, n);
      Pick(m, p, init, kind, now) + if KindOf(m[p + [n]], now) == kind then [n] else []
  }

  lemma {:induction false} PickMembers(m: Store, p: Path, names: seq<string>, kind: Kind, now: int)
    requires AllThere(m, p, names)
    ensures forall n :: n in Pick(m, p, names, kind, now) <==> n in names && HasChild(m, p, n) && KindOf(m[p + [n]], now) == kind
  {
    if names != [] {
      var init, n := names[..|names|-1], names[|names|-1];
      assert names == init + [n];
      PickMembers(m, p, init, kind, now);
    }
  }

  lemma {:induction false} PickStep(m: Store, p: Path, names: seq<string>, i: nat, kind: Kind, now: int)
    requires AllThere(m, p, names) && i < |names|
    ensures HasChild(m, p, names[i]) && AllThere(m, p, names[..i]) && AllThere(m, p, names[..i + 1])
    ensures Pick(m, p, names[..i + 1], kind, now) ==
            Pick(m, p, names[..i], kind, now) + if KindOf(m[p + [names[i]]], now) == kind then [names[i]] else []
  {
    assert names[i] in names;
    assert names[..i + 1][..i] == names[..i] && names[..i + 1][i] == names[i];
  }

  lemma {:induction false} PickAscending(m: Store, p: Path, start: string, names: seq<string>, kind: Kind, now: int)
    requires AllThere(m, p, names) && Ascending(start, names)
    ensures Ascending(start, Pick(m, p, names, kind, now))
  {
    if names != [] {
      var init, n := names[..|names|-1], names[|names|-1];
      PickAscending(m, p, start, init, kind, now);
      var picked := Pick(m, p, init, kind, now);
      PickMembers(m, p, init, kind, now);
      forall k <- picked ensures Before(k, n) {
        var i :| 0 <= i < |init| && init[i] == k;
        assert names[i] == k;
      }
    }
  }

  lemma {:induction false} PickCounts(m: Store, p: Path, names: seq<string>, now: int)
    requires AllThere(m, p, names)
    ensures |names| == |Pick(m, p, names, Live, now)| + |Pick(m, p, names, S3Expired, now)| + |Pick(m, p, names, TtlExpired, now)|
  {
    if names != [] {
      PickCounts(m, p, names[..|names|-1], now);
    }
  }

  /** The directory without some of its entries, except those that could not be deleted. */
  function Dropped(m: Store, p: Path, names: seq<string>, env: Env): Store {
    map q | q in m && !(IsChildOf(p, q) && q[|p|] in names && !env.deleteOneFails(q)) :: m[q]
  }

  /** Of these, the removals to be announced. */
  function DroppedNews(c: Config, m: Store, p: Path, names: seq<string>, env: Env): set<Path> {
    set n | n in names && HasChild(m, p, n) && !env.deleteOneFails(p + [n]) && !m[p + [n]].isDirectory && !c.systemLog(p + [n]) :: p + [n]
  }

  lemma DropOneMore(m: Store, p: Path, names: seq<string>, n: string, env: Env)
    ensures Dropped(m, p, names + [n], env) ==
            if env.deleteOneFails(p + [n]) then Dropped(m, p, names, env) else Dropped(m, p, names, env) - {p + [n]}
  {
    ChildPath(p, n);
    forall q | q in m && IsChildOf(p, q) ensures q[|p|] == n <==> q == p + [n] {
      ChildName(p, q);
    }
  }

  lemma NotYetDropped(m: Store, p: Path, names: seq<string>, n: string, env: Env)
    requires HasChild(m, p, n) && n !in names
    ensures HasChild(Dropped(m, p, names, env), p, n) && Dropped(m, p, names, env)[p + [n]] == m[p + [n]]
  {
  }

  lemma TellsDrop(c: Config, m: Store, p: Path, names: seq<string>, n: string, env: Env, news: seq<Event>)
    requires AllThere(m, p, names + [n]) && n !in names && Tells(news, m, DroppedNews(c, m, p, names, env))
    ensures HasChild(m, p, n)
    ensures Tells(news + if !env.deleteOneFails(p + [n]) && !m[p + [n]].isDirectory then Announce(c, Event(p + [n], Some(m[p + [n]]), None)) else [],
                  m, DroppedNews(c, m, p, names + [n], env))
  {
    assert n in names + [n];
    var gone, gone' := DroppedNews(c, m, p, names, env), DroppedNews(c, m, p, names + [n], env);
    if !env.deleteOneFails(p + [n]) && !m[p + [n]].isDirectory && !c.systemLog(p + [n]) {
      var e := Event(p + [n], Some(m[p + [n]]), None);
      assert gone' == gone + {p + [n]};
      TellsOne(e, m);
      forall q <- gone ensures Later(q, p + [n]) {
        var k :| k in names && q == p + [k];
        assert q[|p|] == k && (p + [n])[|p|] == n;
      }
      TellsMore(news, [e], m, m, gone, {p + [n]});
    } else {
      assert gone' == gone;
      assert news + [] == news;
    }
  }

  /** Listing a directory may only sweep away expired children and tidy up on the way down to the
      directory. */
  predicate SweptAway(c: Config, m: Store, p: Path, q: Path, env: Env)
    requires q in m
  {
    || (IsChildOf(p, q) && m[q].Expired(env.now) && !env.deleteOneFails(q))
    || ((q == p || Under(q, p)) && (Eligible(c, Some(c.buckets), q) || m[q].Expired(env.now)))
  }

  ghost predicate Swept(c: Config, m: Store, m': Store, p: Path, env: Env) {
    && OnlyRemoves(m, m')
    && (forall q <- m :: q in m' || SweptAway(c, m, p, q, env))
    && (Tree(m) ==> Tree(m'))
    && ((forall q <- m :: IsChildOf(p, q) ==> !m[q].Expired(env.now)) ==> m' == m)
  }

  lemma SweptTransitive(c: Config, m: Store, m': Store, m'': Store, p: Path, env: Env)
    requires Swept(c, m, m', p, env) && Swept(c, m', m'', p, env)
    ensures Swept(c, m, m'', p, env)
  {
  }

  /** The removals that sweeping announces. */
  function SweptNews(c: Config, m: Store, m': Store, p: Path, env: Env): set<Path> {
    set q | q in m && q !in m' && IsChildOf(p, q) && KindOf(m[q], env.now) == S3Expired && !m[q].isDirectory && !c.systemLog(q)
  }

  lemma SweptNewsMore(c: Config, m: Store, m': Store, m'': Store, p: Path, env: Env, a: seq<Event>, b: seq<Event>)
    requires OnlyRemoves(m, m') && OnlyRemoves(m', m'')
    requires Tells(a, m, SweptNews(c, m, m', p, env)) && Tells(b, m', SweptNews(c, m', m'', p, env))
    ensures Tells(a + b, m, SweptNews(c, m, m'', p, env))
  {
    var gone, gone' := SweptNews(c, m, m', p, env), SweptNews(c, m', m'', p, env);
    assert SweptNews(c, m, m'', p, env) == gone + gone';
    TellsMore(a, b, m, m', gone, gone');
  }

  /** Sweeping a directory of a tree announces just these. */
  ghost predicate SweepTold(c: Config, m: Store, m': Store, p: Path, env: Env, news: seq<Event>) {
    Tree(m) && (p in m ==> m[p].isDirectory) ==> Tells(news, m, SweptNews(c, m, m', p, env))
  }

  lemma SweepToldMore(c: Config, m: Store, m': Store, m'': Store, p: Path, env: Env, a: seq<Event>, b: seq<Event>)
    requires Swept(c, m, m', p, env) && Swept(c, m', m'', p, env)
    requires SweepTold(c, m, m', p, env, a) && SweepTold(c, m', m'', p, env, b)
    ensures Swept(c, m, m'', p, env) && SweepTold(c, m, m'', p, env, a + b)
  {
    SweptTransitive(c, m, m', m'', p, env);
    if Tree(m) && (p in m ==> m[p].isDirectory) {
      SweptNewsMore(c, m, m', m'', p, env, a, b);
    }
  }

  /** Dropping expired children is sweeping. */
  lemma DroppingSweeps(c: Config, m: Store, p: Path, names: seq<string>, env: Env)
    requires AllThere(m, p, names) && forall n <- names :: HasChild(m, p, n) && m[p + [n]].Expired(env.now)
    ensures Swept(c, m, Dropped(m, p, names, env), p, env)
  {
    var m' := Dropped(m, p, names, env);
    forall q | q in m && q !in m' ensures IsChildOf(p, q) && m[q].Expired(env.now) && !env.deleteOneFails(q) {
      ChildName(p, q);
    }
    if Tree(m) {
      forall q, r | q in m && r in m && q !in m' ensures !Under(q, r) {
        ExpiringIsLeaf(m, q, r);
      }
      PruningKeepsTree(m, m');
    }
    if forall q <- m :: IsChildOf(p, q) ==> !m[q].Expired(env.now) {
      assert m' == m;
    }
  }

  /** So is dropping first the ones and then the others. */
  lemma {:induction false} DroppingBothSweeps(c: Config, m: Store, p: Path, names: seq<string>, env: Env)
    requires AllThere(m, p, names)
    ensures var s3, ttl := Pick(m, p, names, S3Expired, env.now), Pick(m, p, names, TtlExpired, env.now);
            var m' := Dropped(Dropped(m, p, s3, env), p, ttl, env);
            && AllThere(m, p, s3) && AllThere(Dropped(m, p, s3, env), p, ttl)
            && Swept(c, m, m', p, env)
            && SweptNews(c, m, m', p, env) == DroppedNews(c, m, p, s3, env)
            && forall n <- names :: HasChild(m', p, n) && m[p + [n]].Expired(env.now) ==> env.deleteOneFails(p + [n])
  {
    var s3, ttl := Pick(m, p, names, S3Expired, env.now), Pick(m, p, names, TtlExpired, env.now);
    PickMembers(m, p, names, S3Expired, env.now);
    PickMembers(m, p, names, TtlExpired, env.now);
    var m1 := Dropped(m, p, s3, env);
    var m' := Dropped(m1, p, ttl, env);
    forall n <- ttl ensures HasChild(m1, p, n) && m1[p + [n]] == m[p + [n]] {
      NotYetDropped(m, p, s3, n, env);
    }
    DroppingSweeps(c, m, p, s3, env);
    DroppingSweeps(c, m1, p, ttl, env);
    SweptTransitive(c, m, m1, m', p, env);
    forall n <- names | HasChild(m', p, n) && m[p + [n]].Expired(env.now) ensures env.deleteOneFails(p + [n]) {
      ChildPath(p, n);
      assert n in s3 || n in ttl;
    }
    SameNews(c, m, p, s3, ttl, env);
  }

  lemma SameNews(c: Config, m: Store, p: Path, s3: seq<string>, ttl: seq<string>, env: Env)
    requires AllThere(m, p, s3) && AllThere(m, p, ttl)
    requires forall n <- s3 :: HasChild(m, p, n) && KindOf(m[p + [n]], env.now) == S3Expired
    requires forall n <- ttl :: HasChild(m, p, n) && KindOf(m[p + [n]], env.now) == TtlExpired
    ensures SweptNews(c, m, Dropped(Dropped(m, p, s3, env), p, ttl, env), p, env) == DroppedNews(c, m, p, s3, env)
  {
    var m' := Dropped(Dropped(m, p, s3, env), p, ttl, env);
    forall q ensures q in SweptNews(c, m, m', p, env) <==> q in DroppedNews(c, m, p, s3, env) {
      if q in SweptNews(c, m, m', p, env) {
        ChildName(p, q);
        assert q[|p|] in s3;
      }
      if q in DroppedNews(c, m, p, s3, env) {
        var n :| n in s3 && q == p + [n];
        ChildPath(p, n);
      }
    }
  }

  /** What tidying up removes lies on the way down. */
  lemma TidiedRemoves(c: Config, m: Store, m': Store, p: Path, j: nat, env: Env, q: Path)
    requires TidiedUp(c, Some(c.buckets), m, m', p, j, env) && q in m && q !in m'
    ensures (q == p || Under(q, p)) && SweptAway(c, m, p, q, env)
  {
    assert p[..|p|] == p;
    if Between(p, j, |p|, q) {
      assert Tidied(c, Some(c.buckets), m, p, |q|, env);
    } else {
      assert q == p[..j];
    }
  }

  lemma TidiedOnlyRemoves(c: Config, m: Store, m': Store, p: Path, j: nat, env: Env)
    requires TidiedUp(c, Some(c.buckets), m, m', p, j, env)
    ensures OnlyRemoves(m, m') && (Tree(m) ==> Tree(m'))
    ensures forall q <- m :: q in m' || ((q == p || Under(q, p)) && SweptAway(c, m, p, q, env))
  {
    forall q <- m ensures q in m' || ((q == p || Under(q, p)) && SweptAway(c, m, p, q, env)) {
      if q !in m' {
        TidiedRemoves(c, m, m', p, j, env, q);
      }
    }
  }

  /** Tidying up after expired children is part of the sweep. */
  lemma TidyingSweeps(c: Config, m: Store, m': Store, m'': Store, p: Path, n: string, env: Env)
    requires Swept(c, m, m', p, env) && HasChild(m, p, n) && m[p + [n]].Expired(env.now)
    requires OnlyRemoves(m', m'') && (Tree(m') ==> Tree(m''))
    requires forall q <- m' :: q in m'' || ((q == p || Under(q, p)) && SweptAway(c, m', p, q, env))
    ensures Swept(c, m, m'', p, env) && SweptNews(c, m, m'', p, env) == SweptNews(c, m, m', p, env)
  {
    ChildPath(p, n);
    forall q <- m ensures q in m'' || SweptAway(c, m, p, q, env) {
      assert q in m' || SweptAway(c, m, p, q, env);
    }
  }

  // ---------------------------------------------------------------------------------------
  // Listing
  // ---------------------------------------------------------------------------------------

  /** An expired entry that could not be deleted. */
  predicate Stuck(m: Store, p: Path, n: string, env: Env)
    requires HasChild(m, p, n)
  {
    m[p + [n]].Expired(env.now) && env.deleteOneFails(p + [n])
  }

  /** The live entries of a directory after `start`, in order, up to a limit. */
  ghost predicate Listed(m: Store, p: Path, start: string, limit: nat, names: seq<string>, env: Env) {
    && |names| <= limit && Ascending(start, names)
    && (forall n <- names :: HasChild(m, p, n) && !m[p + [n]].Expired(env.now))
    && forall n :: HasChild(m, p, n) && Before(start, n) && n !in names ==>
         Stuck(m, p, n, env) || (|names| == limit && forall k <- names :: Before(k, n))
  }

  /** All up to `last` is listed; `expired` more are to be looked for after it. */
  ghost predicate ListedUpTo(
    m: Store, p: Path, start: string, limit: nat, valid: seq<string>, expired: nat, last: string, env: Env)
  {
    && |valid| + expired <= limit && Ascending(start, valid)
    && (forall n <- valid :: HasChild(m, p, n) && !m[p + [n]].Expired(env.now))
    && (expired > 0 ==> (forall n <- valid :: n == last || Before(n, last)))
    && (forall n :: HasChild(m, p, n) && Before(start, n) && n !in valid ==>
          || Stuck(m, p, n, env)
          || (if expired > 0 then Before(last, n) else |valid| == limit && forall k <- valid :: Before(k, n)))
    && (expired > 0 ==> Before(start, last) && (|valid| + expired == limit || NamesAfter(m, p, last) == {}))
  }

  /** A live child stays when its directory is swept. */
  lemma LiveStays(c: Config, m: Store, m': Store, p: Path, n: string, env: Env)
    requires Swept(c, m, m', p, env) && HasChild(m, p, n) && !m[p + [n]].Expired(env.now)
    ensures HasChild(m', p, n) && m'[p + [n]] == m[p + [n]]
  {
  }

  /** What is on a page and still there is live, or stuck. */
  lemma {:induction false} PageSwept(m: Store, m': Store, p: Path, names: seq<string>, n: string, env: Env)
    requires AllThere(m, p, names) && OnlyRemoves(m, m') && n in names && HasChild(m', p, n)
    requires forall k <- names :: HasChild(m', p, k) && m[p + [k]].Expired(env.now) ==> env.deleteOneFails(p + [k])
    ensures n in Pick(m, p, names, Live, env.now) || Stuck(m', p, n, env)
  {
    PickMembers(m, p, names, Live, env.now);
  }

  lemma {:induction false} LastIsLargest(start: string, names: seq<string>, n: string)
    requires Ascending(start, names) && n in names
    ensures names != [] && (n == names[|names|-1] || Before(n, names[|names|-1]))
  {
  }

  ghost predicate StretchDone(c: Config, m: Store, m': Store, p: Path, start: string, limit: nat, names: seq<string>, env: Env) {
    && Page(m, p, start, limit, names) && AllThere(m, p, names) && Swept(c, m, m', p, env)
    && forall n <- names :: HasChild(m', p, n) && m[p + [n]].Expired(env.now) ==> env.deleteOneFails(p + [n])
  }

  /** A full page leaves only what comes after it; a short one leaves nothing. */
  lemma {:induction false} StretchLeaves(c: Config, m: Store, m': Store, p: Path, start: string, limit: nat, names: seq<string>, env: Env, n: string)
    requires StretchDone(c, m, m', p, start, limit, names, env) && HasChild(m', p, n) && Before(start, n)
    ensures || n in Pick(m, p, names, Live, env.now) || Stuck(m', p, n, env)
            || (|names| == limit && forall k <- names :: Before(k, n))
  {
    if n in names {
      PageSwept(m, m', p, names, n, env);
    }
  }

  lemma ShortPage(c: Config, m: Store, m': Store, p: Path, start: string, limit: nat, names: seq<string>, env: Env)
    requires StretchDone(c, m, m', p, start, limit, names, env) && names != [] && |names| < limit
    ensures NamesAfter(m', p, names[|names|-1]) == {}
  {
    var last := names[|names|-1];
    forall n ensures n !in NamesAfter(m', p, last) {
      if HasChild(m', p, n) && Before(last, n) {
        assert last in names;
        BeforeTransitive(start, last, n);
        if n in names {
          LastIsLargest(start, names, n);
          BeforeAsymmetric(last, n);
        }
      }
    }
  }

  /** The live entries of a page stay, in order, and end with the page. */
  lemma {:induction false} LivePage(c: Config, m: Store, m': Store, p: Path, start: string, limit: nat, names: seq<string>, env: Env)
    requires StretchDone(c, m, m', p, start, limit, names, env)
    ensures var live := Pick(m, p, names, Live, env.now);
            && |live| <= |names| && Ascending(start, live)
            && (forall n <- live :: HasChild(m', p, n) && !m'[p + [n]].Expired(env.now))
            && (forall n <- live :: n in names)
            && (names != [] ==> forall n <- live :: n == names[|names|-1] || Before(n, names[|names|-1]))
  {
    PickCounts(m, p, names, env.now);
    PickAscending(m, p, start, names, Live, env.now);
    PickMembers(m, p, names, Live, env.now);
    forall n <- Pick(m, p, names, Live, env.now)
      ensures HasChild(m', p, n) && !m'[p + [n]].Expired(env.now) && (n == names[|names|-1] || Before(n, names[|names|-1]))
    {
      LiveStays(c, m, m', p, n, env);
      LastIsLargest(start, names, n);
    }
  }

  lemma {:induction false} FirstStretch(m: Store, m': Store, p: Path, start: string, limit: nat, names: seq<string>, env: Env, c: Config)
    requires StretchDone(c, m, m', p, start, limit, names, env)
    ensures var valid := Pick(m, p, names, Live, env.now);
            |valid| <= |names| && ListedUpTo(m', p, start, limit, valid, |names| - |valid|, if names == [] then "" else names[|names|-1], env)
  {
    var valid := Pick(m, p, names, Live, env.now);
    var last := if names == [] then "" else names[|names|-1];
    LivePage(c, m, m', p, start, limit, names, env);
    forall n | HasChild(m', p, n) && Before(start, n) && n !in valid
      ensures Stuck(m', p, n, env) || (|names| == limit && (forall k <- names :: Before(k, n)) && (names != [] ==> Before(last, n)))
    {
      StretchLeaves(c, m, m', p, start, limit, names, env, n);
      assert names != [] ==> last in names;
    }
    if names != [] {
      assert last in names;
      if |names| < limit {
        ShortPage(c, m, m', p, start, limit, names, env);
      }
    }
  }

  lemma StretchAdvances(m: Store, m': Store, p: Path, last: string, limit: nat, names: seq<string>)
    requires Page(m, p, last, limit, names) && names != [] && OnlyRemoves(m, m')
    ensures NamesAfter(m', p, names[|names|-1]) < NamesAfter(m, p, last)
  {
    var last' := names[|names|-1];
    assert last' in names;
    forall n <- NamesAfter(m', p, last') ensures n in NamesAfter(m, p, last) {
      BeforeTransitive(last, last', n);
    }
    assert last' in NamesAfter(m, p, last);
    if Before(last', last') {
      BeforeAsymmetric(last', last');
    }
  }

  /** The next stretch carries on where the last one ended. */
  lemma {:induction false} NextStretch(
    m: Store, m': Store, p: Path, start: string, limit: nat, valid: seq<string>, expired: nat, last: string,
    names: seq<string>, env: Env, c: Config)
    requires expired > 0 && ListedUpTo(m, p, start, limit, valid, expired, last, env)
    requires StretchDone(c, m, m', p, last, expired, names, env)
    ensures var more := Pick(m, p, names, Live, env.now);
            && |more| <= |names|
            && ListedUpTo(m', p, start, limit, valid + more, |names| - |more|, if names == [] then "" else names[|names|-1], env)
  {
    var more := Pick(m, p, names, Live, env.now);
    LivePage(c, m, m', p, last, expired, names, env);
    NextAscending(start, last, valid, more);
    NextIsThere(c, m, m', p, valid, more, env);
    var all, last', expired' := valid + more, if names == [] then "" else names[|names|-1], |names| - |more|;
    if expired' > 0 {
      NextLast(start, last, valid, more, names);
      if |all| + expired' < limit {
        NextShort(c, m, m', p, start, limit, valid, expired, last, names, env);
      }
    }
    forall n | HasChild(m', p, n) && Before(start, n) && n !in all
      ensures || Stuck(m', p, n, env)
              || (if expired' > 0 then Before(last', n) else |all| == limit && forall k <- all :: Before(k, n))
    {
      NextLeaves(c, m, m', p, start, limit, valid, expired, last, names, env, n);
    }
  }

  lemma {:induction false} NextLast(start: string, last: string, valid: seq<string>, more: seq<string>, names: seq<string>)
    requires Before(start, last) && Ascending(last, names) && names != []
    requires forall n <- valid :: n == last || Before(n, last)
    requires forall n <- more :: n == names[|names|-1] || Before(n, names[|names|-1])
    ensures Before(start, names[|names|-1])
    ensures forall n <- valid + more :: n == names[|names|-1] || Before(n, names[|names|-1])
  {
    var last' := names[|names|-1];
    assert last' in names;
    BeforeTransitive(start, last, last');
    forall n <- valid ensures Before(n, last') {
      if n != last {
        BeforeTransitive(n, last, last');
      }
    }
  }

  lemma {:induction false} NextAscending(start: string, last: string, valid: seq<string>, more: seq<string>)
    requires Ascending(start, valid) && Ascending(last, more) && Before(start, last)
    requires forall n <- valid :: n == last || Before(n, last)
    ensures Ascending(start, valid + more)
  {
    forall n <- more ensures Before(start, n) && forall k <- valid :: Before(k, n) {
      BeforeTransitive(start, last, n);
      forall k <- valid ensures Before(k, n) {
        if k != last {
          BeforeTransitive(k, last, n);
        }
      }
    }
    var all := valid + more;
    forall i, j | 0 <= i < j < |all| ensures Before(all[i], all[j]) {
      if i < |valid| && |valid| <= j {
        assert all[i] in valid && all[j] in more;
      }
    }
  }

  lemma NextIsThere(c: Config, m: Store, m': Store, p: Path, valid: seq<string>, more: seq<string>, env: Env)
    requires Swept(c, m, m', p, env)
    requires forall n <- valid :: HasChild(m, p, n) && !m[p + [n]].Expired(env.now)
    requires forall n <- more :: HasChild(m', p, n) && !m'[p + [n]].Expired(env.now)
    ensures forall n <- valid + more :: HasChild(m', p, n) && !m'[p + [n]].Expired(env.now)
  {
  }

  lemma {:induction false} NextLeaves(
    c: Config, m: Store, m': Store, p: Path, start: string, limit: nat, valid: seq<string>, expired: nat, last: string,
    names: seq<string>, env: Env, n: string)
    requires expired > 0 && ListedUpTo(m, p, start, limit, valid, expired, last, env)
    requires StretchDone(c, m, m', p, last, expired, names, env)
    requires HasChild(m', p, n) && Before(start, n) && n !in valid + Pick(m, p, names, Live, env.now)
    ensures || Stuck(m', p, n, env)
            || (if |names| > |Pick(m, p, names, Live, env.now)| then Before(names[|names|-1], n)
                else |valid + Pick(m, p, names, Live, env.now)| == limit && forall k <- valid + Pick(m, p, names, Live, env.now) :: Before(k, n))
  {
    var more := Pick(m, p, names, Live, env.now);
    assert HasChild(m, p, n) && n !in valid;
    if Before(last, n) {
      assert n in NamesAfter(m, p, last);
      StretchLeaves(c, m, m', p, last, expired, names, env, n);
      LivePage(c, m, m', p, last, expired, names, env);
      if !Stuck(m', p, n, env) {
        assert names[|names|-1] in names;
        forall k <- valid ensures Before(k, n) {
          if k != last {
            BeforeTransitive(k, last, n);
          }
        }
      }
    } else {
      assert Stuck(m, p, n, env);
    }
  }

  lemma NextShort(
    c: Config, m: Store, m': Store, p: Path, start: string, limit: nat, valid: seq<string>, expired: nat, last: string,
    names: seq<string>, env: Env)
    requires expired > 0 && ListedUpTo(m, p, start, limit, valid, expired, last, env)
    requires StretchDone(c, m, m', p, last, expired, names, env) && names != [] && |valid| + |names| < limit
    ensures NamesAfter(m', p, names[|names|-1]) == {}
  {
    assert names[|names|-1] in names;
    assert names[|names|-1] in NamesAfter(m, p, last);
    ShortPage(c, m, m', p, last, expired, names, env);
  }

  lemma ListedAll(m: Store, p: Path, start: string, limit: nat, valid: seq<string>, last: string, env: Env)
    requires ListedUpTo(m, p, start, limit, valid, 0, last, env)
    ensures Listed(m, p, start, limit, valid, env)
  {
  }

  /** Cutting a listing off where the limit is. */
  lemma ListedCut(m: Store, p: Path, start: string, limit: nat, names: seq<string>, env: Env)
    requires Listed(m, p, start, limit + 1, names, env)
    ensures Listed(m, p, start, limit, if |names| >= limit + 1 then names[..limit] else names, env)
  {
  }
}
