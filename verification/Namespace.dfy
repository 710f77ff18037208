/**
 The filer's namespace as a value: paths are sequences of names, the store a map from path to
 entry, and a tree is a store in which every entry lies in a directory that is there and that
 never expires (weed/filer/filer.go, weed/filer/entry.go).
 */
module Namespace {

  /** The names on the way down from the root, which is the empty path and is never stored. No name
      is empty. */
  type Path = seq<string>

  datatype Entry = Entry(
    isDirectory: bool, ttl: int, crtime: int, mtime: int, s3Expires: bool, versioned: bool,
    hardLinkId: string, hardLinkCounter: int, owner: string, chunks: seq<string>)
  {
    predicate Expired(now: int) {
      && ttl > 0
      && if s3Expires then (if mtime == 0 then crtime else mtime) + ttl < now && !versioned else crtime + ttl < now
    }
  }

  type Store = map<Path, Entry>

  // ---------------------------------------------------------------------------------------
  // Paths
  // ---------------------------------------------------------------------------------------

  /** `q` lies strictly below `p`. */
  predicate Under(p: Path, q: Path) { |p| < |q| && q[..|p|] == p }

  function Parent(q: Path): Path
    requires q != []
  {
    q[..|q|-1]
  }

  lemma UnderTransitive(p: Path, q: Path, r: Path)
    requires Under(p, q) && Under(q, r)
    ensures Under(p, r)
  {
  }

  /** Two directories above the same path are nested. */
  lemma UnderNested(p: Path, q: Path, r: Path)
    requires Under(p, r) && Under(q, r)
    ensures p == q || Under(p, q) || Under(q, p)
  {
  }

  // ---------------------------------------------------------------------------------------
  // Trees
  // ---------------------------------------------------------------------------------------

  predicate Placed(m: Store, q: Path)
    requires q in m
  {
    && q != [] && (|q| == 1 || (Parent(q) in m && m[Parent(q)].isDirectory))
    && (m[q].isDirectory ==> m[q].ttl <= 0)
  }

  predicate Tree(m: Store) { forall q <- m :: Placed(m, q) }

  /** Every entry has a name. */
  predicate Named(m: Store) { forall q <- m :: "" !in q }

  /** Everything on the way down to an entry is there and is a directory. */
  lemma {:induction false} AncestorsPresent(m: Store, p: Path, q: Path)
    requires Tree(m) && q in m && Under(p, q) && p != []
    ensures p in m && m[p].isDirectory
    decreases |q|
  {
    assert Placed(m, q);
    if |p| < |q| - 1 {
      assert Parent(q)[..|p|] == q[..|p|];
      AncestorsPresent(m, p, Parent(q));
    } else {
      assert Parent(q) == p;
    }
  }

  /** A path with something below it has a child. */
  lemma BelowHasChild(m: Store, p: Path, q: Path)
    requires Tree(m) && q in m && Under(p, q)
    ensures q[..|p| + 1] in m && q[..|p| + 1] == p + [q[|p|]]
    ensures |q| > |p| + 1 ==> m[q[..|p| + 1]].isDirectory
  {
    assert q[..|p| + 1] == p + [q[|p|]];
    if |q| > |p| + 1 {
      AncestorsPresent(m, q[..|p| + 1], q);
    } else {
      assert q[..|p| + 1] == q;
    }
  }

  /** Nothing lies below an entry that can expire. */
  lemma ExpiringIsLeaf(m: Store, p: Path, q: Path)
    requires Tree(m) && p in m && m[p].ttl > 0 && q in m
    ensures !Under(p, q)
  {
    assert Placed(m, p);
    if Under(p, q) {
      AncestorsPresent(m, p, q);
    }
  }

  predicate OnlyRemoves(m: Store, m': Store) {
    forall q <- m' :: q in m && m'[q] == m[q]
  }

  /** With an entry everything below it goes. */
  predicate Downward(m: Store, m': Store) {
    forall q, r :: q in m && r in m && q !in m' && Under(q, r) ==> r !in m'
  }

  lemma PruningKeepsTree(m: Store, m': Store)
    requires Tree(m) && OnlyRemoves(m, m') && Downward(m, m')
    ensures Tree(m')
  {
  }

  /** Removing an entry with nothing below it keeps a tree. */
  lemma RemoveLeaf(m: Store, p: Path)
    requires Tree(m) && forall q <- m :: !Under(p, q)
    ensures Tree(m - {p})
  {
  }

  /** The store call behind a folder's deletion: it removes the folder's children and nothing
      deeper. */
  function DropChildren(m: Store, p: Path): Store {
    map q | q in m && !(|q| == |p| + 1 && Under(p, q)) :: m[q]
  }

  /** Which keeps a tree if and only if there is nothing deeper. */
  lemma DropChildrenKeepsTree(m: Store, p: Path)
    requires Tree(m)
    ensures Tree(DropChildren(m, p)) <==> forall q <- m :: Under(p, q) ==> |q| == |p| + 1
  {
    var m' := DropChildren(m, p);
    if forall q <- m :: Under(p, q) ==> |q| == |p| + 1 {
      forall q, r | q in m && r in m && q !in m' ensures !Under(q, r) {
        if Under(q, r) {
          UnderTransitive(p, q, r);
        }
      }
      PruningKeepsTree(m, m');
    } else {
      var q :| q in m && Under(p, q) && |q| != |p| + 1;
      DeeperIsOrphaned(m, p, q);
    }
  }

  lemma {:induction false} DeeperIsOrphaned(m: Store, p: Path, q: Path)
    requires Tree(m) && q in m && Under(p, q) && |q| > |p| + 1
    ensures !Tree(DropChildren(m, p))
    decreases |q|
  {
    assert Placed(m, q);
    var m' := DropChildren(m, p);
    var d := Parent(q);
    assert d[..|p|] == q[..|p|];
    assert Under(p, d);
    if |q| == |p| + 2 {
      assert d !in m' && q in m';
      assert !Placed(m', q);
    } else {
      DeeperIsOrphaned(m, p, d);
    }
  }
}
