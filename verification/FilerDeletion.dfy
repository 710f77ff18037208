/**
 Deleting a folder: what of it is gone after some of its children have been dealt with, what has
 been announced, and which chunks have been handed over (weed/filer/filer_delete_entry.go).
 */
module FilerDeletion {
  import opened Curtains
  import opened FileChunks
  import opened Names
  import opened Namespace
  import opened FilerSpec
  import opened FilerListing

  const PAGINATION_SIZE: nat := 1024

  predicate IsBucket(c: Config, p: Path, e: Entry) {
    e.isDirectory && p != [] && Parent(p) == c.buckets && !("." <= p[|p|-1])
  }

  predicate AtOrUnder(p: Path, q: Path) { q == p || Under(p, q) }

  // ---------------------------------------------------------------------------------------
  // What is removed
  // ---------------------------------------------------------------------------------------

  predicate NothingExpired(m: Store, p: Path, env: Env) {
    forall q <- m :: Under(p, q) ==> !m[q].Expired(env.now)
  }

  /** Only what lies below the folder goes, and, if anything below it had expired, empty
      directories on the way down to it. */
  ghost predicate Confined(c: Config, m: Store, m': Store, p: Path, env: Env) {
    && OnlyRemoves(m, m')
    && (forall q <- m :: q in m' || Under(p, q) || (AtOrUnder(q, p) && Eligible(c, Some(c.buckets), q)))
    && (NothingExpired(m, p, env) ==> forall q <- m :: q in m' || Under(p, q))
    && Tree(m')
  }

  ghost predicate Contained(c: Config, m: Store, m': Store, p: Path, env: Env) {
    forall k :: Opened(k) ==> Confined(c, m, m', p, env)
  }

  lemma NothingContained(c: Config, m: Store, p: Path, env: Env)
    requires Tree(m)
    ensures Contained(c, m, m, p, env)
  {
  }

  lemma ContainedInner(c: Config, m: Store, m': Store, m'': Store, p: Path, n: string, env: Env)
    requires Contained(c, m, m', p, env) && Contained(c, m', m'', p + [n], env)
    ensures Contained(c, m, m'', p, env)
  {
    assert Opened(0);
    InnerIsConfined(c, m', m'', p, n, env);
    ConfinedTransitive(c, m, m', m'', p, env);
  }

  lemma ConfinedTransitive(c: Config, m: Store, m': Store, m'': Store, p: Path, env: Env)
    requires Confined(c, m, m', p, env) && Confined(c, m', m'', p, env)
    ensures Confined(c, m, m'', p, env)
  {
  }

  /** A directory above something does not expire. */
  lemma AboveIsLive(m: Store, p: Path, q: Path, x: Path, env: Env)
    requires Tree(m) && x in m && Under(p, x) && q in m && AtOrUnder(q, p)
    ensures !m[q].Expired(env.now)
  {
    if q != p {
      UnderTransitive(q, p, x);
    }
    assert Placed(m, q);
    AncestorsPresent(m, q, x);
  }

  predicate SweptOrTidied(c: Config, m: Store, p: Path, q: Path, env: Env)
    requires q in m
  {
    ExpiredChild(m, p, q, env) || (AtOrUnder(q, p) && Eligible(c, Some(c.buckets), q))
  }

  lemma SweptEach(c: Config, m: Store, m': Store, p: Path, q: Path, env: Env)
    requires Tree(m) && Swept(c, m, m', p, env) && q in m && q !in m'
    ensures SweptOrTidied(c, m, p, q, env)
  {
    assert m' != m;
    var x :| x in m && IsChildOf(p, x) && m[x].Expired(env.now);
    if AtOrUnder(q, p) {
      AboveIsLive(m, p, q, x, env);
    }
    assert SweptAway(c, m, p, q, env);
  }

  /** Sweeping a directory of a tree. */
  lemma SweptIsConfined(c: Config, m: Store, m': Store, p: Path, env: Env)
    requires Tree(m) && Swept(c, m, m', p, env)
    ensures Confined(c, m, m', p, env)
    ensures forall q <- m :: q in m' || SweptOrTidied(c, m, p, q, env)
  {
    forall q <- m ensures q in m' || SweptOrTidied(c, m, p, q, env) {
      if q !in m' {
        SweptEach(c, m, m', p, q, env);
      }
    }
  }

  /** Deleting a folder within the folder. */
  lemma InnerIsConfined(c: Config, m: Store, m': Store, p: Path, n: string, env: Env)
    requires Confined(c, m, m', p + [n], env)
    ensures Confined(c, m, m', p, env)
  {
    ChildPath(p, n);
    forall q <- m ensures Under(p + [n], q) ==> Under(p, q) {
      if Under(p + [n], q) {
        UnderTransitive(p, p + [n], q);
      }
    }
    forall q <- m | AtOrUnder(q, p + [n]) ensures Under(p, q) || AtOrUnder(q, p) {
      if q != p + [n] {
        UnderNested(q, p, p + [n]);
        assert |q| <= |p|;
      }
    }
    assert NothingExpired(m, p, env) ==> NothingExpired(m, p + [n], env);
  }

  // ---------------------------------------------------------------------------------------
  // Progress through the children
  // ---------------------------------------------------------------------------------------

  /** The children in `done` have been dealt with: nothing is left below them, and nothing but
      expired children is missing elsewhere. */
  ghost predicate Progress(c: Config, m: Store, m': Store, p: Path, done: set<string>, env: Env) {
    && Tree(m) && Confined(c, m, m', p, env)
    && (forall n <- done :: HasChild(m, p, n) && !m[p + [n]].Expired(env.now))
    && (forall q <- m :: Under(p, q) && q[|p|] !in done ==> q in m' || ExpiredChild(m, p, q, env))
    && (forall q <- m' :: Under(p, q) && q[|p|] in done ==> IsChildOf(p, q))
  }

  predicate ExpiredChild(m: Store, p: Path, q: Path, env: Env)
    requires q in m
  {
    IsChildOf(p, q) && m[q].Expired(env.now) && !env.deleteOneFails(q)
  }

  lemma ProgressSweep(c: Config, m: Store, m': Store, m'': Store, p: Path, done: set<string>, env: Env)
    requires Progress(c, m, m', p, done, env) && Swept(c, m', m'', p, env)
    ensures Progress(c, m, m'', p, done, env)
  {
    SweptIsConfined(c, m', m'', p, env);
    ConfinedTransitive(c, m, m', m'', p, env);
    forall q <- m | Under(p, q) && q[|p|] !in done ensures q in m'' || ExpiredChild(m, p, q, env) {
      assert q in m' || ExpiredChild(m, p, q, env);
    }
  }

  /** A file needs no more than being ticked off. */
  lemma ProgressFile(c: Config, m: Store, m': Store, p: Path, done: set<string>, n: string, env: Env)
    requires Progress(c, m, m', p, done, env) && HasChild(m', p, n) && !m'[p + [n]].isDirectory && !m'[p + [n]].Expired(env.now)
    ensures Progress(c, m, m', p, done + {n}, env)
  {
    ChildPath(p, n);
    forall q <- m' | Under(p, q) && q[|p|] == n ensures IsChildOf(p, q) {
      BelowHasChild(m', p, q);
    }
  }

  /** Below the same child. */
  lemma SameChild(p: Path, q: Path)
    requires Under(p, q)
    ensures AtOrUnder(p + [q[|p|]], q)
  {
  }

  lemma OtherChild(p: Path, n: string, q: Path)
    requires Under(p, q) && q[|p|] != n
    ensures !AtOrUnder(p + [n], q) && !AtOrUnder(q, p + [n])
  {
  }

  /** Deleting below one child leaves the others alone. */
  lemma OtherStays(c: Config, m: Store, m': Store, p: Path, n: string, q: Path, env: Env)
    requires Confined(c, m, m', p + [n], env) && Under(p, q) && q[|p|] != n && q in m
    ensures q in m'
  {
    OtherChild(p, n, q);
  }

  lemma ProgressUntouched(c: Config, m: Store, m': Store, m'': Store, p: Path, done: set<string>, n: string, env: Env, q: Path)
    requires Progress(c, m, m', p, done, env) && Confined(c, m', m'', p + [n], env)
    requires q in m && Under(p, q) && q[|p|] !in done + {n}
    ensures q in m'' || ExpiredChild(m, p, q, env)
  {
    if q in m' {
      OtherStays(c, m', m'', p, n, q, env);
    }
  }

  lemma ProgressLeft(m: Store, m': Store, p: Path, done: set<string>, n: string, q: Path)
    requires OnlyRemoves(m, m') && forall r <- m :: Under(p, r) && r[|p|] in done ==> IsChildOf(p, r)
    requires forall r <- m' :: !Under(p + [n], r)
    requires q in m' && Under(p, q) && q[|p|] in done + {n}
    ensures IsChildOf(p, q)
  {
  }

  /** A folder is emptied. */
  lemma ProgressFolder(c: Config, m: Store, m': Store, m'': Store, p: Path, done: set<string>, n: string, env: Env)
    requires Progress(c, m, m', p, done, env) && HasChild(m', p, n) && !m'[p + [n]].Expired(env.now)
    requires Confined(c, m', m'', p + [n], env) && forall q <- m'' :: !Under(p + [n], q)
    ensures Progress(c, m, m'', p, done + {n}, env)
  {
    InnerIsConfined(c, m', m'', p, n, env);
    ConfinedTransitive(c, m, m', m'', p, env);
    forall q <- m | Under(p, q) && q[|p|] !in done + {n} ensures q in m'' || ExpiredChild(m, p, q, env) {
      ProgressUntouched(c, m, m', m'', p, done, n, env, q);
    }
    forall q <- m'' | Under(p, q) && q[|p|] in done + {n} ensures IsChildOf(p, q) {
      ProgressLeft(m', m'', p, done, n, q);
    }
  }

  /** Everything there is has been dealt with or is stuck. */
  predicate AllDone(m: Store, p: Path, done: set<string>, env: Env) {
    forall q <- m :: IsChildOf(p, q) ==> q[|p|] in done || (m[q].Expired(env.now) && env.deleteOneFails(q))
  }

  /** Then dropping the children empties the folder. */
  lemma ProgressEnd(c: Config, m: Store, m': Store, p: Path, done: set<string>, env: Env)
    requires Progress(c, m, m', p, done, env) && AllDone(m', p, done, env)
    ensures Confined(c, m, DropChildren(m', p), p, env)
    ensures forall q <- DropChildren(m', p) :: !Under(p, q)
  {
    var m'' := DropChildren(m', p);
    forall q <- m' | Under(p, q) ensures IsChildOf(p, q) {
      BelowHasChild(m', p, q);
      ChildPath(p, q[|p|]);
      if |q| > |p| + 1 {
        assert Placed(m', p + [q[|p|]]);
        assert q[|p|] in done;
      }
    }
    DropChildrenKeepsTree(m', p);
    ConfinedTransitive(c, m, m', m'', p, env);
  }

  /** A store that drops whole buckets empties one at a stroke. */
  function DropAll(m: Store, p: Path): Store {
    map q | q in m && !Under(p, q) :: m[q]
  }

  lemma DropAllConfined(c: Config, m: Store, p: Path, env: Env)
    requires Tree(m)
    ensures Confined(c, m, DropAll(m, p), p, env)
  {
    var m' := DropAll(m, p);
    forall q, r | q in m && r in m && q !in m' && Under(q, r) ensures r !in m' {
      UnderTransitive(p, q, r);
    }
    PruningKeepsTree(m, m');
  }

  // ---------------------------------------------------------------------------------------
  // Page by page
  // ---------------------------------------------------------------------------------------

  predicate StuckChild(m: Store, q: Path, env: Env)
    requires q in m
  {
    m[q].Expired(env.now) && env.deleteOneFails(q)
  }

  /** All children up to the name `last` have been dealt with, or are stuck, and no others. */
  ghost predicate DoneUpTo(m: Store, p: Path, done: set<string>, last: string, env: Env) {
    forall k :: Opened(k) ==> DoneTo(m, p, done, last, env)
  }

  predicate DoneTo(m: Store, p: Path, done: set<string>, last: string, env: Env) {
    && (forall n <- done :: n == last || Before(n, last))
    && forall q <- m :: IsChildOf(p, q) && !Before(last, q[|p|]) ==> q[|p|] in done || StuckChild(m, q, env)
  }

  lemma DoneAtStart(m: Store, p: Path, env: Env)
    requires Named(m)
    ensures DoneUpTo(m, p, {}, "", env)
  {
  }

  lemma DoneShrinks(m: Store, m': Store, p: Path, done: set<string>, last: string, env: Env)
    requires DoneUpTo(m, p, done, last, env) && OnlyRemoves(m, m')
    ensures DoneUpTo(m', p, done, last, env)
  {
  }

  /** What comes after `last` is listed, stuck, or comes after the listing. */
  lemma {:induction false} ListedOrStuck(m: Store, p: Path, last: string, limit: nat, names: seq<string>, q: Path, env: Env)
    requires Listed(m, p, last, limit, names, env) && q in m && IsChildOf(p, q) && Before(last, q[|p|])
    ensures q[|p|] in names || StuckChild(m, q, env) || (|names| == limit && forall k <- names :: Before(k, q[|p|]))
  {
    ChildName(p, q);
    assert HasChild(m, p, q[|p|]);
  }

  /** A page takes the mark to its last name. */
  lemma DonePage(m: Store, m': Store, p: Path, done: set<string>, last: string, limit: nat, names: seq<string>, env: Env)
    requires DoneUpTo(m, p, done, last, env) && Listed(m, p, last, limit, names, env) && names != [] && OnlyRemoves(m, m')
    ensures DoneUpTo(m', p, done + (set n | n in names), names[|names|-1], env)
    ensures forall n <- names :: n !in done
  {
    assert Opened(0);
    var last', done' := names[|names|-1], done + (set n | n in names);
    assert last' in names;
    forall n <- done' ensures n == last' || Before(n, last') {
      if n in done {
        if n != last {
          BeforeTransitive(n, last, last');
        }
      } else {
        LastIsLargest(last, names, n);
      }
    }
    forall q <- m' | IsChildOf(p, q) && !Before(last', q[|p|]) ensures q[|p|] in done' || StuckChild(m', q, env) {
      if Before(last, q[|p|]) {
        ListedOrStuck(m, p, last, limit, names, q, env);
      }
    }
    forall n <- names ensures n !in done {
      if n in done {
        BeforeAsymmetric(last, n);
      }
    }
  }

  /** A short page is the last one. */
  lemma DoneShortPage(m: Store, m': Store, p: Path, done: set<string>, last: string, limit: nat, names: seq<string>, env: Env)
    requires DoneUpTo(m, p, done, last, env) && Listed(m, p, last, limit, names, env) && |names| < limit && OnlyRemoves(m, m')
    ensures AllDone(m', p, done + (set n | n in names), env)
  {
    assert Opened(0);
    forall q <- m' | IsChildOf(p, q) ensures q[|p|] in done + (set n | n in names) || StuckChild(m', q, env) {
      if Before(last, q[|p|]) {
        ListedOrStuck(m, p, last, limit, names, q, env);
      }
    }
  }

  /** A full page leaves less to list. */
  lemma PageAdvances(m: Store, m': Store, p: Path, last: string, limit: nat, names: seq<string>, env: Env)
    requires Listed(m, p, last, limit, names, env) && names != [] && OnlyRemoves(m, m')
    ensures NamesAfter(m', p, names[|names|-1]) < NamesAfter(m, p, last)
  {
    var last' := names[|names|-1];
    assert last' in names && last' in NamesAfter(m, p, last);
    forall n <- NamesAfter(m', p, last') ensures n in NamesAfter(m, p, last) {
      BeforeTransitive(last, last', n);
    }
    if Before(last', last') {
      BeforeAsymmetric(last', last');
    }
  }

  /** Whether a store failure may go unnoticed. */
  ghost predicate Clean(ignoreErrors: bool, env: Env) {
    ignoreErrors ==> forall q :: !env.deleteChildrenFails(q)
  }

  ghost predicate Bounded(m: Store, depth: nat) { forall q <- m :: |q| <= depth }

  // ---------------------------------------------------------------------------------------
  // The entry and all below it
  // ---------------------------------------------------------------------------------------

  function WithoutTree(m: Store, p: Path): Store {
    map q | q in m && !AtOrUnder(p, q) :: m[q]
  }

  /** The entry and all its descendants are gone and nothing else is, except, if anything below it
      had expired, empty directories on the way down to it. */
  ghost predicate Removed(c: Config, m: Store, m': Store, p: Path, env: Env) {
    && OnlyRemoves(m, m')
    && (forall q <- m' :: !AtOrUnder(p, q))
    && (forall q <- m :: q in m' || AtOrUnder(p, q) || (Under(q, p) && Eligible(c, Some(c.buckets), q)))
    && (NothingExpired(m, p, env) ==> m' == WithoutTree(m, p))
    && Tree(m')
  }

  lemma FolderRemoved(c: Config, m: Store, m': Store, p: Path, env: Env)
    requires Confined(c, m, m', p, env) && forall q <- m' :: !Under(p, q)
    ensures Removed(c, m, m' - {p}, p, env)
  {
    RemoveLeaf(m', p);
    if NothingExpired(m, p, env) {
      assert m' - {p} == WithoutTree(m, p);
    }
  }

  lemma FileRemoved(c: Config, m: Store, p: Path, env: Env)
    requires Tree(m) && p in m && !m[p].isDirectory
    ensures Removed(c, m, m - {p}, p, env) && forall q <- m :: !Under(p, q)
  {
    forall q <- m ensures !Under(p, q) {
      if Under(p, q) {
        AncestorsPresent(m, p, q);
      }
    }
    RemoveLeaf(m, p);
    assert m - {p} == WithoutTree(m, p);
  }
}
