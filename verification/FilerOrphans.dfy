/**
 Deleting a folder while ignoring that the store may fail to remove the children of some folder
 within: what is left of it, exactly (weed/filer/filer_delete_entry.go). The failing folder
 itself goes with the children of the folder above, so what it could not let go of is orphaned.
 */
module FilerOrphans {
  import opened Curtains
  import opened Namespace
  import opened FilerSpec
  import opened FilerListing
  import opened FilerDeletion
  import opened FilerAccounting

  /** Below the folder the store is a tree. */
  predicate TreeBelow(m: Store, p: Path) {
    forall q <- m :: Under(p, q) && |q| > |p| + 1 ==> Parent(q) in m && m[Parent(q)].isDirectory
  }

  /** The delete goes on over errors, below the folder the store is a tree in which nothing has
      expired, and no bucket is dropped at a stroke. */
  ghost predicate Pressed(c: Config, m: Store, p: Path, ignoreErrors: bool, env: Env) {
    forall k :: Opened(k) ==> ignoreErrors && TreeBelow(m, p) && NothingExpired(m, p, env) && NoDrop(c, m, p)
  }

  lemma PressedInTree(c: Config, m: Store, p: Path, env: Env)
    requires Tree(m) && NothingExpired(m, p, env) && NoDrop(c, m, p)
    ensures Pressed(c, m, p, true, env)
  {
    forall q <- m | Under(p, q) && |q| > |p| + 1 ensures Parent(q) in m && m[Parent(q)].isDirectory {
      assert Placed(m, q);
    }
  }

  lemma PressedIgnores(c: Config, m: Store, p: Path, ignoreErrors: bool, env: Env)
    ensures Pressed(c, m, p, ignoreErrors, env) ==> ignoreErrors
  {
    assert Opened(0);
  }

  lemma NotPressed(c: Config, m: Store, p: Path, ignoreErrors: bool, env: Env)
    requires p in m && IsBucket(c, p, m[p]) && c.canDropWholeBucket
    ensures !Pressed(c, m, p, ignoreErrors, env)
  {
    assert Opened(0);
    assert AtOrUnder(p, p);
  }

  /** What is left of a folder: of each folder in it, and of itself, the children whose removal
      failed. */
  function Thinned(m: Store, p: Path, env: Env): Store {
    map q | q in m && !(Under(p, q) && !env.deleteChildrenFails(Parent(q))) :: m[q]
  }

  /** Under way: the same below the children in `done`, while the children are still all there. */
  predicate ThinnedAway(p: Path, done: set<string>, q: Path, env: Env) {
    Under(p, q) && |q| > |p| + 1 && q[|p|] in done && !env.deleteChildrenFails(Parent(q))
  }

  function ThinnedPart(m: Store, p: Path, done: set<string>, env: Env): Store {
    map q | q in m && !ThinnedAway(p, done, q, env) :: m[q]
  }

  ghost predicate Thinning(c: Config, m: Store, m': Store, p: Path, done: set<string>, ignoreErrors: bool, env: Env) {
    forall k :: Opened(k) ==> Pressed(c, m, p, ignoreErrors, env) ==> m' == ThinnedPart(m, p, done, env)
  }

  lemma ThinStart(c: Config, m: Store, p: Path, ignoreErrors: bool, env: Env)
    ensures Thinning(c, m, m, p, {}, ignoreErrors, env)
  {
    assert ThinnedPart(m, p, {}, env) == m;
  }

  lemma ThinSweep(c: Config, m: Store, m': Store, m'': Store, p: Path, done: set<string>, ignoreErrors: bool, env: Env)
    requires Thinning(c, m, m', p, done, ignoreErrors, env) && Swept(c, m', m'', p, env)
    ensures Thinning(c, m, m'', p, done, ignoreErrors, env)
  {
    assert Opened(0);
  }

  lemma {:induction false} NothingBelowFileThere(m: Store, p: Path, n: string, q: Path)
    requires TreeBelow(m, p) && p + [n] in m && !m[p + [n]].isDirectory && q in m && Under(p, q) && q[|p|] == n
    ensures |q| == |p| + 1
    decreases |q|
  {
    if |q| > |p| + 1 {
      var d := Parent(q);
      assert d[..|p|] == q[..|p|] && d[|p|] == q[|p|];
      assert |d| == |p| + 1 ==> d == p + [n];
      NothingBelowFileThere(m, p, n, d);
    }
  }

  lemma ThinFile(c: Config, m: Store, m': Store, p: Path, done: set<string>, n: string, ignoreErrors: bool, env: Env)
    requires Thinning(c, m, m', p, done, ignoreErrors, env) && p + [n] in m' && !m'[p + [n]].isDirectory
    ensures Thinning(c, m, m', p, done + {n}, ignoreErrors, env)
  {
    assert Opened(0);
    if Pressed(c, m, p, ignoreErrors, env) {
      forall q <- m ensures ThinnedAway(p, done + {n}, q, env) <==> ThinnedAway(p, done, q, env) {
        if Under(p, q) && q[|p|] == n {
          NothingBelowFileThere(m, p, n, q);
        }
      }
      assert ThinnedPart(m, p, done + {n}, env) == ThinnedPart(m, p, done, env);
    }
  }

  lemma BelowChild(p: Path, n: string, q: Path)
    ensures Under(p + [n], q) <==> Under(p, q) && |q| > |p| + 1 && q[|p|] == n
  {
    if Under(p, q) && |q| > |p| + 1 && q[|p|] == n {
      assert q[..|p| + 1] == q[..|p|] + [q[|p|]];
    }
    if Under(p + [n], q) {
      assert q[..|p|] == (p + [n])[..|p|];
    }
  }

  /** A child that has not been dealt with is as it was, and all below it. */
  lemma UntouchedBelow(m: Store, p: Path, done: set<string>, n: string, env: Env, q: Path)
    requires n !in done && Under(p, q) && q[|p|] == n
    ensures q in ThinnedPart(m, p, done, env) <==> q in m
  {
  }

  lemma PressedBelow(c: Config, m: Store, m': Store, p: Path, done: set<string>, n: string, ignoreErrors: bool, env: Env)
    requires Pressed(c, m, p, ignoreErrors, env) && Thinning(c, m, m', p, done, ignoreErrors, env) && n !in done
    ensures Pressed(c, m', p + [n], ignoreErrors, env)
  {
    assert Opened(0);
    NoDropBelow(c, m, m', p, n);
    forall q <- m' | Under(p + [n], q) ensures !m'[q].Expired(env.now) {
      BelowChild(p, n, q);
    }
    forall q <- m' | Under(p + [n], q) && |q| > |p| + 2 ensures Parent(q) in m' && m'[Parent(q)].isDirectory {
      BelowChild(p, n, q);
      var d := Parent(q);
      assert d[..|p|] == q[..|p|] && d[|p|] == q[|p|];
      UntouchedBelow(m, p, done, n, env, d);
    }
  }

  lemma ThinnedBoth(m: Store, p: Path, done: set<string>, n: string, env: Env)
    ensures Thinned(ThinnedPart(m, p, done, env), p + [n], env) == ThinnedPart(m, p, done + {n}, env)
  {
    forall q <- m ensures ThinnedAway(p, done + {n}, q, env) <==>
                          ThinnedAway(p, done, q, env) || (Under(p + [n], q) && !env.deleteChildrenFails(Parent(q))) {
      BelowChild(p, n, q);
    }
  }

  /** A folder is dealt with. */
  lemma ThinFolder(c: Config, m: Store, m': Store, m'': Store, p: Path, done: set<string>, n: string, ignoreErrors: bool, env: Env)
    requires Thinning(c, m, m', p, done, ignoreErrors, env) && n !in done
    requires Pressed(c, m', p + [n], ignoreErrors, env) ==> m'' == Thinned(m', p + [n], env)
    ensures Thinning(c, m, m'', p, done + {n}, ignoreErrors, env)
  {
    if Pressed(c, m, p, ignoreErrors, env) {
      PressedBelow(c, m, m', p, done, n, ignoreErrors, env);
      assert Opened(0);
      ThinnedBoth(m, p, done, n, env);
    }
  }

  lemma ThinEnd(c: Config, m: Store, m': Store, p: Path, done: set<string>, ignoreErrors: bool, env: Env)
    requires Pressed(c, m, p, ignoreErrors, env) && Thinning(c, m, m', p, done, ignoreErrors, env) && AllDone(m', p, done, env)
    ensures (if env.deleteChildrenFails(p) then m' else DropChildren(m', p)) == Thinned(m, p, env)
  {
    assert Opened(0);
    forall q <- m | Under(p, q) ensures q[|p|] in done {
      ChildIsThere(m, p, q);
      var d := p + [q[|p|]];
      ChildPath(p, q[|p|]);
      assert d in m' && !m'[d].Expired(env.now);
    }
    forall q <- m | Under(p, q) ensures |q| == |p| + 1 <==> Parent(q) == p {}
  }

  lemma {:induction false} ChildIsThere(m: Store, p: Path, q: Path)
    requires TreeBelow(m, p) && q in m && Under(p, q)
    ensures p + [q[|p|]] in m
    decreases |q|
  {
    if |q| == |p| + 1 {
      assert q == p + [q[|p|]];
    } else {
      var d := Parent(q);
      assert d[..|p|] == q[..|p|] && d[|p|] == q[|p|];
      ChildIsThere(m, p, d);
    }
  }

  lemma ThinPageLeft(
    c: Config, m: Store, m': Store, m'': Store, p: Path, done: set<string>, n: string, ignoreErrors: bool, env: Env,
    names: seq<string>, subs: map<string, Entry>)
    requires Pressed(c, m, p, ignoreErrors, env) && Thinning(c, m, m', p, done, ignoreErrors, env)
    requires Thinning(c, m, m'', p, done + {n}, ignoreErrors, env) && PageLeft(m', p, names, subs, done, env) && n !in names
    ensures PageLeft(m'', p, names, subs, done + {n}, env)
  {
    assert Opened(0);
    forall k <- names ensures p + [k] in m'' && m''[p + [k]] == m'[p + [k]] {
      assert IsSub(m', p, k, subs, env);
    }
  }

  // ---------------------------------------------------------------------------------------
  // What is left
  // ---------------------------------------------------------------------------------------

  /** An entry below the folder, but not directly in it, whose own folder's children could not be
      removed. */
  predicate Orphan(p: Path, q: Path, env: Env) {
    Under(p, q) && |q| > |p| + 1 && env.deleteChildrenFails(Parent(q))
  }

  /** After a successful delete exactly the orphans are left of the folder and all below it, and
      what remains is a tree if and only if there are none. */
  lemma OrphansRemain(m: Store, p: Path, env: Env)
    requires Tree(m) && p in m && !env.deleteChildrenFails(p)
    ensures var m' := Thinned(m, p, env) - {p};
            && OnlyRemoves(m, m')
            && (forall q <- m :: q in m' <==> !AtOrUnder(p, q) || Orphan(p, q, env))
            && (Tree(m') <==> forall q <- m :: !Orphan(p, q, env))
  {
    var m' := Thinned(m, p, env) - {p};
    forall q <- m ensures q in m' <==> !AtOrUnder(p, q) || Orphan(p, q, env) {
      assert Under(p, q) ==> (|q| == |p| + 1 <==> Parent(q) == p);
    }
    if forall q <- m :: !Orphan(p, q, env) {
      forall q, r | q in m && r in m && q !in m' && Under(q, r) ensures r !in m' {
        if q != p {
          UnderTransitive(p, q, r);
        }
      }
      PruningKeepsTree(m, m');
    } else {
      var q :| q in m && Orphan(p, q, env);
      assert Under(p, q[..|p| + 1]);
      if Tree(m') {
        AncestorsPresent(m', q[..|p| + 1], q);
      }
    }
  }
}
