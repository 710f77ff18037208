/**
 Chains of steps of an arbitrary relation.
 */
module Reachability {

  ghost predicate Chain<T(!new)>(step: (T, T) -> bool, p: seq<T>) {
    p != [] && forall i :: 0 <= i < |p| - 1 ==> StepAt(step, p, i)
  }

  ghost predicate StepAt<T>(step: (T, T) -> bool, p: seq<T>, i: nat)
    requires i < |p| - 1
  {
    step(p[i], p[i+1])
  }

  ghost predicate Reachable<T(!new)>(step: (T, T) -> bool, s: T, s': T) {
    exists p :: Chain(step, p) && p[0] == s && p[|p|-1] == s'
  }

  lemma ReachesSelf<T(!new)>(step: (T, T) -> bool, s: T)
    ensures Reachable(step, s, s)
  {
    assert Chain(step, [s]);
  }

  lemma ReachesStep<T(!new)>(step: (T, T) -> bool, s: T, s': T, s'': T)
    requires Reachable(step, s, s') && step(s', s'')
    ensures Reachable(step, s, s'')
  {
    var p :| Chain(step, p) && p[0] == s && p[|p|-1] == s';
    var r := p + [s''];
    forall i | 0 <= i < |r| - 1 ensures StepAt(step, r, i) {
      assert i < |p| - 1 ==> StepAt(step, p, i);
    }
    assert Chain(step, r) && r[0] == s && r[|r|-1] == s'';
  }

  lemma ReachesTrans<T(!new)>(step: (T, T) -> bool, s: T, s': T, s'': T)
    requires Reachable(step, s, s') && Reachable(step, s', s'')
    ensures Reachable(step, s, s'')
  {
    var p :| Chain(step, p) && p[0] == s && p[|p|-1] == s';
    var r :| Chain(step, r) && r[0] == s' && r[|r|-1] == s'';
    var z := p[..|p|-1] + r;
    forall i | 0 <= i < |z| - 1 ensures StepAt(step, z, i) {
      if i < |p| - 1 {
        assert StepAt(step, p, i);
      } else {
        assert StepAt(step, r, i - (|p| - 1));
      }
    }
    assert Chain(step, z) && z[0] == s && z[|z|-1] == s'';
  }

  /** More steps reach no less. */
  lemma ReachesMore<T(!new)>(step: (T, T) -> bool, more: (T, T) -> bool, s: T, s': T)
    requires Reachable(step, s, s') && forall x, y :: step(x, y) ==> more(x, y)
    ensures Reachable(more, s, s')
  {
    var p :| Chain(step, p) && p[0] == s && p[|p|-1] == s';
    forall i | 0 <= i < |p| - 1 ensures StepAt(more, p, i) {
      assert StepAt(step, p, i);
    }
    assert Chain(more, p);
  }

  /** What every step keeps holds all along a chain. */
  lemma {:induction false} KeptAlong<T(!new)>(step: (T, T) -> bool, inv: T -> bool, p: seq<T>, k: nat)
    requires Chain(step, p) && k < |p| && inv(p[0]) && forall x, y :: inv(x) && step(x, y) ==> inv(y)
    ensures inv(p[k])
  {
    if k > 0 {
      KeptAlong(step, inv, p, k - 1);
      assert StepAt(step, p, k - 1);
    }
  }

  /** Counting up from `lo`. */
  lemma {:induction false} Climb(p: nat -> bool, lo: nat, hi: nat)
    requires lo <= hi && p(lo) && forall n: nat :: lo <= n < hi && p(n) ==> p(n + 1)
    ensures p(hi)
  {
    if lo < hi {
      Climb(p, lo, hi - 1);
    }
  }
}
