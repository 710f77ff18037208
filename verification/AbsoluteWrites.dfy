/**
 A metadata store as a map from path to entry, and the absolute writes that events make to
 it. What a sequence of such writes leaves at a path is decided by the last one touching it.
 */
module AbsoluteWrites {
  import opened FileChunks

  type Path = string

  /** `p` lies strictly below `q` (weed/util/fullpath.go); everything lies below the root. */
  predicate IsUnder(p: Path, q: Path) {
    q == "/" || q + "/" <= p
  }

  /** Two directories above the same path are nested. */
  lemma CommonDescendant(p: Path, q: Path, r: Path)
    requires IsUnder(p, q) && IsUnder(p, r)
    ensures q == r || IsUnder(q, r) || IsUnder(r, q)
  {
    if q != "/" && r != "/" {
      var a, b := if |q| <= |r| then q else r, if |q| <= |r| then r else q;
      assert a + "/" == p[..|a| + 1] && b + "/" == p[..|b| + 1];
      assert b == p[..|b|];
      if |a| == |b| {
        assert a == p[..|a|];
      } else {
        assert a + "/" == b[..|a| + 1];
      }
    }
  }

  /** A stored entry; `attributes` stands for all it carries besides its kind. */
  datatype Entry = Entry(name: string, isDirectory: bool, attributes: string)

  type Store = map<Path, Entry>

  function Lookup(m: Store, q: Path): Option<Entry> {
    if q in m then Some(m[q]) else None
  }

  datatype Op =
    | Put(path: Path, entry: Entry)
    | Remove(path: Path)
    | RemoveTree(path: Path)
  {
    /** The write decides what is at `q`. */
    predicate Touches(q: Path) {
      q == path || (RemoveTree? && IsUnder(q, path))
    }

    function Leaves(): Option<Entry> {
      if Put? then Some(entry) else None
    }

    function Apply(m: Store): Store {
      match this
      case Put(p, e) => m[p := e]
      case Remove(p) => m - {p}
      case RemoveTree(p) => map q | q in m && !Touches(q) :: m[q]
    }
  }

  function ApplyAll(ops: seq<Op>, m: Store): Store {
    if ops == [] then m else ops[|ops|-1].Apply(ApplyAll(ops[..|ops|-1], m))
  }

  /** The last write touching `q`. */
  function LastTouch(ops: seq<Op>, q: Path): Option<Op> {
    if ops == [] then None
    else if ops[|ops|-1].Touches(q) then Some(ops[|ops|-1])
    else LastTouch(ops[..|ops|-1], q)
  }

  predicate TouchedBy(ops: seq<Op>, q: Path) { LastTouch(ops, q).Some? }

  lemma {:induction false} LastTouchFacts(ops: seq<Op>, q: Path)
    ensures TouchedBy(ops, q) <==> exists op :: op in ops && op.Touches(q)
    ensures TouchedBy(ops, q) ==> LastTouch(ops, q).value in ops && LastTouch(ops, q).value.Touches(q)
  {
    if ops != [] {
      LastTouchFacts(ops[..|ops|-1], q);
      assert ops == ops[..|ops|-1] + [ops[|ops|-1]];
    }
  }

  /** What the writes leave at a path they touch. */
  function Left(ops: seq<Op>, q: Path): Option<Entry>
    requires TouchedBy(ops, q)
  {
    LastTouch(ops, q).value.Leaves()
  }

  lemma OneWrite(op: Op, m: Store, q: Path)
    ensures Lookup(op.Apply(m), q) == if op.Touches(q) then op.Leaves() else Lookup(m, q)
  {
  }

  /** Later absolute writes decide. */
  lemma {:induction false} LastWriteDecides(ops: seq<Op>, m: Store, q: Path)
    ensures Lookup(ApplyAll(ops, m), q) == if TouchedBy(ops, q) then Left(ops, q) else Lookup(m, q)
  {
    if ops != [] {
      var init, last := ops[..|ops|-1], ops[|ops|-1];
      LastWriteDecides(init, m, q);
      OneWrite(last, ApplyAll(init, m), q);
    }
  }

  lemma {:induction false} LastTouchAppend(ops: seq<Op>, op: Op, q: Path)
    ensures LastTouch(ops + [op], q) == if op.Touches(q) then Some(op) else LastTouch(ops, q)
  {
  }

  lemma {:induction false} LastTouchConcat(xs: seq<Op>, ys: seq<Op>, q: Path)
    ensures LastTouch(xs + ys, q) == if TouchedBy(ys, q) then LastTouch(ys, q) else LastTouch(xs, q)
  {
    if ys == [] {
      assert xs + ys == xs;
    } else {
      var init := ys[..|ys|-1];
      assert (xs + ys)[..|xs + ys|-1] == xs + init;
      LastTouchConcat(xs, init, q);
    }
  }

  lemma {:induction false} ApplyConcat(xs: seq<Op>, ys: seq<Op>, m: Store)
    ensures ApplyAll(xs + ys, m) == ApplyAll(ys, ApplyAll(xs, m))
  {
    if ys == [] {
      assert xs + ys == xs;
    } else {
      assert (xs + ys)[..|xs + ys|-1] == xs + ys[..|ys|-1];
      ApplyConcat(xs, ys[..|ys|-1], m);
    }
  }

  /** Groups of writes, one after the other. */
  function Flatten(groups: seq<seq<Op>>): seq<Op> {
    if groups == [] then [] else Flatten(groups[..|groups|-1]) + groups[|groups|-1]
  }

  lemma {:induction false} FlattenConcat(xs: seq<seq<Op>>, ys: seq<seq<Op>>)
    ensures Flatten(xs + ys) == Flatten(xs) + Flatten(ys)
  {
    if ys == [] {
      assert xs + ys == xs;
    } else {
      var init, last := ys[..|ys|-1], ys[|ys|-1];
      assert (xs + ys)[..|xs + ys|-1] == xs + init;
      FlattenConcat(xs, init);
      Regroup(Flatten(xs), Flatten(init), last);
    }
  }

  lemma {:induction false} FlattenStep(gs: seq<seq<Op>>, a: nat, k: nat, m: Store)
    requires a <= k < |gs|
    ensures ApplyAll(Flatten(gs[a..k + 1]), m) == ApplyAll(gs[k], ApplyAll(Flatten(gs[a..k]), m))
  {
    assert gs[a..k + 1][..k - a] == gs[a..k];
    ApplyConcat(Flatten(gs[a..k]), gs[k], m);
  }

  lemma {:induction false} FlattenTouches(gs: seq<seq<Op>>, q: Path)
    requires TouchedBy(Flatten(gs), q)
    ensures exists k :: 0 <= k < |gs| && TouchedBy(gs[k], q)
  {
    var init, last := gs[..|gs|-1], gs[|gs|-1];
    LastTouchConcat(Flatten(init), last, q);
    if !TouchedBy(last, q) {
      FlattenTouches(init, q);
      var k :| 0 <= k < |init| && TouchedBy(init[k], q);
      assert gs[k] == init[k];
    }
  }

  lemma Regroup(xs: seq<Op>, ys: seq<Op>, zs: seq<Op>)
    ensures xs + ys + zs == xs + (ys + zs)
  {
  }

  lemma SameLookups(m: Store, n: Store)
    requires forall q :: Lookup(m, q) == Lookup(n, q)
    ensures m == n
  {
    forall q ensures q in m <==> q in n {
      assert Lookup(m, q) == Lookup(n, q);
    }
    forall q | q in m ensures m[q] == n[q] {
      assert Lookup(m, q) == Lookup(n, q);
    }
  }
}
