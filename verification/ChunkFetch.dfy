/**
 Downloading one chunk from its replicas: a download that breaks off is resumed on the next
 replica, skipping the bytes already written (weed/filer/filechunk_manifest.go). What the writer
 takes of each piece is its own affair; what follows from it for the bytes written is stated
 exactly.
 */
module ChunkFetch {
  import opened Curtains
  import opened FileChunks

  datatype Outcome = NoError | Cancelled | WriteFailed | Failed

  /** What one request to a replica delivers: the pieces of a prefix of the content, and how
      the stream ends. `accepts(i)` is how many bytes the writer takes when it is called for piece
      `i`; if they are fewer than it is given, it reports an error. */
  datatype Attempt<T> = Attempt(pieces: seq<seq<T>>, retryable: bool, outcome: Outcome, accepts: nat -> nat)

  function Concat<T>(pieces: seq<seq<T>>): seq<T> {
    if pieces == [] then [] else Concat(pieces[..|pieces|-1]) + pieces[|pieces|-1]
  }

  /** Replicas hold the same content and send it in order, in non-empty pieces; a stream that
      ends well has sent all of it and is not to be retried. */
  predicate Honest<T(==)>(a: Attempt<T>, content: seq<T>) {
    && Concat(a.pieces) <= content && (forall p <- a.pieces :: p != [])
    && (a.outcome.NoError? ==> Concat(a.pieces) == content && !a.retryable)
  }

  /** The state of a download. `output` is what the writer accepted, `totalWritten` the count
      kept across attempts, `localProcessed` the count within the current attempt, `ticks` the
      number of times the context has been asked whether it is cancelled. */
  datatype Download<T> = Download(output: seq<T>, totalWritten: nat, localProcessed: nat, ticks: nat, writeErr: bool)

  /** The handler of one received piece: bytes written by earlier attempts are skipped. */
  function OnPiece<T>(d: Download<T>, data: seq<T>, accepts: nat, cancelAt: nat): Download<T> {
    var e := d.(ticks := d.ticks + 1);
    if d.ticks >= cancelAt then e.(writeErr := true)
    else if d.totalWritten > d.localProcessed then
      var toBeSkipped := d.totalWritten - d.localProcessed;
      if |data| <= toBeSkipped then e.(localProcessed := d.localProcessed + |data|)
      else Write(e.(localProcessed := d.localProcessed + toBeSkipped), data[toBeSkipped..], accepts)
    else Write(e, data, accepts)
  }

  function Write<T>(d: Download<T>, data: seq<T>, accepts: nat): Download<T> {
    var writtenCount := Min(|data|, accepts);
    d.(output := d.output + data[..writtenCount], totalWritten := d.totalWritten + writtenCount,
       localProcessed := d.localProcessed + writtenCount, writeErr := writtenCount < |data|)
  }

  // ---------------------------------------------------------------------------------------
  // One request
  // ---------------------------------------------------------------------------------------

  /** Where piece `i` begins. */
  function Begin<T>(pieces: seq<seq<T>>, i: nat): nat
    requires i <= |pieces|
  {
    |Concat(pieces[..i])|
  }

  lemma {:induction false} PieceAt<T>(pieces: seq<seq<T>>, i: nat, content: seq<T>)
    requires i < |pieces| && Concat(pieces) <= content
    ensures Begin(pieces, i + 1) == Begin(pieces, i) + |pieces[i]| <= |content|
    ensures content[Begin(pieces, i)..Begin(pieces, i + 1)] == pieces[i]
  {
    assert pieces[..i+1][..i] == pieces[..i];
    ConcatPrefix(pieces, i + 1);
    var a, b := Concat(pieces[..i]), Concat(pieces[..i+1]);
    assert b == content[..|b|] && b == a + pieces[i];
    assert content[|a|..|b|] == b[|a|..] == pieces[i];
  }

  lemma {:induction false} ConcatPrefix<T>(pieces: seq<seq<T>>, k: nat)
    requires k <= |pieces|
    ensures Concat(pieces[..k]) <= Concat(pieces)
  {
    if k < |pieces| {
      assert pieces[..|pieces|-1][..k] == pieces[..k];
      ConcatPrefix(pieces[..|pieces|-1], k);
    } else {
      assert pieces[..k] == pieces;
    }
  }

  /** The download after `i` pieces: the context is asked before each read and by the handler. */
  function After<T>(start: Download<T>, a: Attempt<T>, i: nat, cancelAt: nat): Download<T>
    requires i <= |a.pieces|
  {
    if i == 0 then start
    else
      var d := After(start, a, i - 1, cancelAt);
      OnPiece(d.(ticks := d.ticks + 1), a.pieces[i-1], a.accepts(i - 1), cancelAt)
  }

  /** Of piece `i` the writer takes less than is new to it, having had the first `w` bytes. */
  predicate Refuses<T>(a: Attempt<T>, w: nat, i: nat)
    requires i < |a.pieces|
  {
    a.accepts(i) < Max(w, Begin(a.pieces, i + 1)) - Max(w, Begin(a.pieces, i))
  }

  /** The request gets as far as the handler of piece `i` before it is cancelled. */
  predicate Handled(ticks: nat, i: nat, cancelAt: nat) { ticks + 2 * i + 1 < cancelAt }

  /** Of what is handed to the writer, no byte is accepted after a refused one. */
  ghost predicate Steadfast<T>(a: Attempt<T>, w: nat, ticks: nat, cancelAt: nat) {
    forall i, j :: 0 <= i < j < |a.pieces| && Handled(ticks, j, cancelAt) && Refuses(a, w, i) ==> a.accepts(j) == 0
  }

  /** Up to here every new byte was accepted. */
  ghost predicate AllAccepted<T>(a: Attempt<T>, w: nat, i: nat)
    requires i <= |a.pieces|
  {
    forall k :: 0 <= k < i ==> !Refuses(a, w, k)
  }

  /** The first `w` bytes have been written. */
  predicate Sound<T(==)>(d: Download<T>, content: seq<T>) {
    d.output <= content && d.totalWritten == |d.output|
  }

  predicate Fresh<T(==)>(d: Download<T>, content: seq<T>) {
    Sound(d, content) && d.localProcessed == 0 && !d.writeErr
  }

  /** While nothing is refused, all that was sent is accounted for. */
  ghost predicate Going<T>(d: Download<T>, start: Download<T>, a: Attempt<T>, content: seq<T>, i: nat)
    requires i <= |a.pieces|
  {
    && Sound(d, content) && !d.writeErr && d.ticks == start.ticks + 2 * i
    && d.localProcessed == Begin(a.pieces, i) && d.totalWritten == Max(start.totalWritten, Begin(a.pieces, i))
  }

  /** After piece `f` was refused in part and nothing was accepted since. */
  ghost predicate Stuck<T>(d: Download<T>, start: Download<T>, a: Attempt<T>, content: seq<T>, f: nat, i: nat)
    requires f < i <= |a.pieces|
  {
    && Sound(d, content) && d.writeErr && d.ticks == start.ticks + 2 * i
    && d.localProcessed == d.totalWritten < Begin(a.pieces, f + 1)
    && AllAccepted(a, start.totalWritten, f) && Refuses(a, start.totalWritten, f)
    && forall k :: f < k < i ==> a.accepts(k) == 0
  }

  /** ... or something was. */
  ghost predicate Broken<T>(d: Download<T>, start: Download<T>, a: Attempt<T>, content: seq<T>, f: nat, g: nat, i: nat)
    requires f < g < i <= |a.pieces|
  {
    && d.totalWritten == |d.output| && d.localProcessed == d.totalWritten && d.ticks == start.ticks + 2 * i
    && Refuses(a, start.totalWritten, f) && a.accepts(g) > 0
    && (Distinct(content) ==> !(d.output <= content))
  }

  predicate Distinct<T(==)>(s: seq<T>) {
    forall i, j :: 0 <= i < j < |s| ==> s[i] != s[j]
  }

  lemma GoingOn<T>(d: Download<T>, start: Download<T>, a: Attempt<T>, content: seq<T>, i: nat, cancelAt: nat)
    requires Concat(a.pieces) <= content && i < |a.pieces| && Going(d, start, a, content, i) && AllAccepted(a, start.totalWritten, i)
    requires Handled(start.ticks, i, cancelAt)
    ensures var e := OnPiece(d.(ticks := d.ticks + 1), a.pieces[i], a.accepts(i), cancelAt);
            && (Refuses(a, start.totalWritten, i) ==> Stuck(e, start, a, content, i, i + 1))
            && (!Refuses(a, start.totalWritten, i) ==> Going(e, start, a, content, i + 1))
            && d.output <= e.output
  {
    PieceAt(a.pieces, i, content);
  }

  lemma StuckOn<T>(d: Download<T>, start: Download<T>, a: Attempt<T>, content: seq<T>, f: nat, i: nat, cancelAt: nat)
    requires Honest(a, content) && f < i < |a.pieces| && Stuck(d, start, a, content, f, i) && Handled(start.ticks, i, cancelAt)
    ensures var e := OnPiece(d.(ticks := d.ticks + 1), a.pieces[i], a.accepts(i), cancelAt);
            && (a.accepts(i) == 0 ==> Stuck(e, start, a, content, f, i + 1))
            && (a.accepts(i) > 0 ==> Broken(e, start, a, content, f, i, i + 1))
            && d.output <= e.output
  {
    PieceAt(a.pieces, i, content);
    BeginGrows(a.pieces, f + 1, i);
    assert a.pieces[i] in a.pieces;
    var e := OnPiece(d.(ticks := d.ticks + 1), a.pieces[i], a.accepts(i), cancelAt);
    assert e.output == d.output + a.pieces[i][..Min(|a.pieces[i]|, a.accepts(i))];
    if a.accepts(i) > 0 && Distinct(content) {
      var k := |d.output|;
      assert e.output[k] == a.pieces[i][0] == content[Begin(a.pieces, i)];
      assert content[k] != content[Begin(a.pieces, i)];
    }
  }

  lemma {:induction false} BeginGrows<T>(pieces: seq<seq<T>>, i: nat, j: nat)
    requires i <= j <= |pieces|
    ensures Begin(pieces, i) <= Begin(pieces, j)
  {
    assert pieces[..j][..i] == pieces[..i];
    ConcatPrefix(pieces[..j], i);
  }

  lemma BrokenOn<T>(d: Download<T>, start: Download<T>, a: Attempt<T>, content: seq<T>, f: nat, g: nat, i: nat, cancelAt: nat)
    requires f < g < i < |a.pieces| && Broken(d, start, a, content, f, g, i) && Handled(start.ticks, i, cancelAt)
    ensures var e := OnPiece(d.(ticks := d.ticks + 1), a.pieces[i], a.accepts(i), cancelAt);
            Broken(e, start, a, content, f, g, i + 1) && d.output <= e.output
  {
    var e := OnPiece(d.(ticks := d.ticks + 1), a.pieces[i], a.accepts(i), cancelAt);
    assert d.output <= e.output;
    assert e.output <= content ==> d.output <= content;
  }

  /** Where a request stands after `i` pieces that were all handled. */
  ghost predicate Somewhere<T>(d: Download<T>, start: Download<T>, a: Attempt<T>, content: seq<T>, i: nat)
    requires i <= |a.pieces|
  {
    forall k :: Opened(k) ==>
      || (Going(d, start, a, content, i) && AllAccepted(a, start.totalWritten, i))
      || (exists f :: 0 <= f < i && Stuck(d, start, a, content, f, i))
      || (exists f, g :: 0 <= f < g < i && Broken(d, start, a, content, f, g, i))
  }

  lemma SomewhereOn<T>(d: Download<T>, start: Download<T>, a: Attempt<T>, content: seq<T>, i: nat, cancelAt: nat)
    requires Honest(a, content) && i < |a.pieces| && Somewhere(d, start, a, content, i) && Handled(start.ticks, i, cancelAt)
    ensures var e := OnPiece(d.(ticks := d.ticks + 1), a.pieces[i], a.accepts(i), cancelAt);
            Somewhere(e, start, a, content, i + 1) && d.output <= e.output
  {
    assert Opened(0);
    if Going(d, start, a, content, i) && AllAccepted(a, start.totalWritten, i) {
      GoingOn(d, start, a, content, i, cancelAt);
    } else if f :| 0 <= f < i && Stuck(d, start, a, content, f, i) {
      StuckOn(d, start, a, content, f, i, cancelAt);
    } else {
      var f, g :| 0 <= f < g < i && Broken(d, start, a, content, f, g, i);
      BrokenOn(d, start, a, content, f, g, i, cancelAt);
    }
  }

  lemma {:induction false} HandledAfter<T>(start: Download<T>, a: Attempt<T>, content: seq<T>, i: nat, cancelAt: nat)
    requires Honest(a, content) && Fresh(start, content) && i <= |a.pieces| && (i > 0 ==> Handled(start.ticks, i - 1, cancelAt))
    ensures Somewhere(After(start, a, i, cancelAt), start, a, content, i) && start.output <= After(start, a, i, cancelAt).output
  {
    if i == 0 {
      AtFirst(start, a, content);
    } else {
      HandledAfter(start, a, content, i - 1, cancelAt);
      var d := After(start, a, i - 1, cancelAt);
      SomewhereOn(d, start, a, content, i - 1, cancelAt);
      assert After(start, a, i, cancelAt) == OnPiece(d.(ticks := d.ticks + 1), a.pieces[i-1], a.accepts(i - 1), cancelAt);
    }
  }

  lemma {:induction false} AtFirst<T>(start: Download<T>, a: Attempt<T>, content: seq<T>)
    requires Fresh(start, content)
    ensures Somewhere(start, start, a, content, 0)
  {
    assert a.pieces[..0] == [];
    assert Begin(a.pieces, 0) == 0;
  }

  /** Once cancelled, nothing is written any more. */
  lemma {:induction false} FrozenAfter<T>(start: Download<T>, a: Attempt<T>, k: nat, i: nat, cancelAt: nat)
    requires k <= i <= |a.pieces| && After(start, a, k, cancelAt).ticks + 1 >= cancelAt
    ensures var d, e := After(start, a, k, cancelAt), After(start, a, i, cancelAt);
            e.output == d.output && e.totalWritten == d.totalWritten && e.ticks + 1 >= cancelAt && (k < i ==> e.writeErr)
  {
    if k < i {
      FrozenAfter(start, a, k, i - 1, cancelAt);
    }
  }

  /** The number of pieces that are handled. */
  function HandledCount(n: nat, ticks: nat, cancelAt: nat): (k: nat)
    ensures k <= n && (k > 0 ==> Handled(ticks, k - 1, cancelAt)) && (k < n ==> !Handled(ticks, k, cancelAt))
  {
    if n == 0 || Handled(ticks, n - 1, cancelAt) then n else HandledCount(n - 1, ticks, cancelAt)
  }

  /** A request keeps what is written a prefix of the content if the writer accepts nothing after
      refusing something, and, of positions that can be told apart, only then. If everything was
      sent and nothing refused, the content is complete. */
  lemma {:induction false} RequestKeepsPrefixIff<T>(start: Download<T>, a: Attempt<T>, content: seq<T>, cancelAt: nat)
    requires Honest(a, content) && Fresh(start, content)
    ensures var d := After(start, a, |a.pieces|, cancelAt);
            && start.output <= d.output && d.totalWritten == |d.output|
            && (Steadfast(a, start.totalWritten, start.ticks, cancelAt) ==> Sound(d, content))
            && (Distinct(content) && d.output <= content ==> Steadfast(a, start.totalWritten, start.ticks, cancelAt))
            && (Steadfast(a, start.totalWritten, start.ticks, cancelAt) && !d.writeErr && Concat(a.pieces) == content ==>
                  d.output == content)
  {
    var n := |a.pieces|;
    var k := HandledCount(n, start.ticks, cancelAt);
    HandledAfter(start, a, content, k, cancelAt);
    var d := After(start, a, k, cancelAt);
    if k < n {
      AfterGrows(start, a, k, cancelAt);
      FrozenAfter(start, a, k, n, cancelAt);
    }
    assert a.pieces[..n] == a.pieces;
    SomewhereDecides(d, start, a, content, k, cancelAt);
  }

  lemma {:induction false} SomewhereDecides<T>(d: Download<T>, start: Download<T>, a: Attempt<T>, content: seq<T>, k: nat, cancelAt: nat)
    requires Honest(a, content) && k <= |a.pieces| && Somewhere(d, start, a, content, k)
    requires k > 0 ==> Handled(start.ticks, k - 1, cancelAt)
    requires k < |a.pieces| ==> !Handled(start.ticks, k, cancelAt)
    ensures d.totalWritten == |d.output|
    ensures Steadfast(a, start.totalWritten, start.ticks, cancelAt) ==> Sound(d, content)
    ensures Distinct(content) && d.output <= content ==> Steadfast(a, start.totalWritten, start.ticks, cancelAt)
    ensures Steadfast(a, start.totalWritten, start.ticks, cancelAt) && !d.writeErr && k == |a.pieces| ==>
              d.totalWritten == Max(start.totalWritten, Begin(a.pieces, k))
  {
    assert Opened(0);
    if Going(d, start, a, content, k) && AllAccepted(a, start.totalWritten, k) {
    } else if f :| 0 <= f < k && Stuck(d, start, a, content, f, k) {
    } else {
      var f, g :| 0 <= f < g < k && Broken(d, start, a, content, f, g, k);
      assert Handled(start.ticks, g, cancelAt);
    }
  }

  /** For instance, with a piece refused and the next one of the same request accepted there is a gap:
      the handler carries on as if the refused bytes had not been sent. */
  lemma {:induction false} RefusedThenAccepted(a: Attempt<int>)
    requires a.pieces == [[1], [2]] && a.accepts(0) == 0 && a.accepts(1) == 1 && !a.outcome.NoError?
    ensures !(After(Download([], 0, 0, 0, false), a, 2, 9).output <= [1, 2])
  {
    assert [[1], [2]][..0] == [] && [[1], [2]][..1] == [[1]] && [[1]][..0] == [];
    assert Concat([[1]]) == [1] && Concat(a.pieces) == [1, 2];
    assert Refuses(a, 0, 0) && Handled(0, 1, 9);
    RequestKeepsPrefixIff(Download([], 0, 0, 0, false), a, [1, 2], 9);
  }

  lemma {:induction false} AfterGrows<T>(start: Download<T>, a: Attempt<T>, i: nat, cancelAt: nat)
    requires i <= |a.pieces| && start.totalWritten == |start.output|
    ensures var d := After(start, a, i, cancelAt);
            start.output <= d.output && d.totalWritten == |d.output| && d.ticks == start.ticks + 2 * i
  {
    if i > 0 {
      AfterGrows(start, a, i - 1, cancelAt);
    }
  }

  /** The writer takes whatever it is given of the content. */
  predicate Willing<T>(a: Attempt<T>, content: seq<T>) {
    forall i: nat :: i < |a.pieces| ==> |content| <= a.accepts(i)
  }

  lemma {:induction false} WillingAfter<T>(start: Download<T>, a: Attempt<T>, content: seq<T>, i: nat, cancelAt: nat)
    requires Honest(a, content) && Willing(a, content) && i <= |a.pieces| && !start.writeErr
    ensures After(start, a, i, cancelAt).writeErr ==> After(start, a, i, cancelAt).ticks >= cancelAt
  {
    if i > 0 {
      WillingAfter(start, a, content, i - 1, cancelAt);
      PieceAt(a.pieces, i - 1, content);
    }
  }

  /** All of the content was sent, and the writer took the last it was given. */
  predicate Accepted<T(==)>(d: Download<T>, a: Attempt<T>, err: Outcome, content: seq<T>) {
    !d.writeErr && err == a.outcome && err != Cancelled && Concat(a.pieces) == content
  }

  /** One request. */
  method ReadUrlAsStream<T(==)>(attempt: Attempt<T>, ghost content: seq<T>, start: Download<T>, cancelAt: nat)
    returns (d: Download<T>, shouldRetry: bool, err: Outcome)
    requires Honest(attempt, content) && start.totalWritten == |start.output| && start.localProcessed == 0 && !start.writeErr
    ensures start.output <= d.output && d.totalWritten == |d.output|
    ensures d.output == After(start, attempt, |attempt.pieces|, cancelAt).output
    ensures Sound(start, content) ==>
              var steadfast := Steadfast(attempt, start.totalWritten, start.ticks, cancelAt);
              && (steadfast ==> d.output <= content) && (Distinct(content) && d.output <= content ==> steadfast)
              && (steadfast && Accepted(d, attempt, err, content) ==> d.output == content)
    ensures Willing(attempt, content) && d.writeErr ==> d.ticks >= cancelAt
    ensures err.NoError? ==> attempt.outcome.NoError? && !shouldRetry
  {
    var cancelled;
    StatesFollow(start, attempt, cancelAt);
    d, cancelled := ReadPieces(attempt, start, cancelAt, StatesOf(start, attempt, cancelAt));
    AfterGrows(start, attempt, |attempt.pieces|, cancelAt);
    if Sound(start, content) {
      RequestKeepsPrefixIff(start, attempt, content, cancelAt);
    }
    if Willing(attempt, content) {
      WillingAfter(start, attempt, content, |attempt.pieces|, cancelAt);
    }
    if cancelled {
      return d, false, Cancelled;
    }
    return d, attempt.retryable, attempt.outcome;
  }

  predicate PieceStep<T(==)>(a: Attempt<T>, i: nat, cancelAt: nat, d: Download<T>, d': Download<T>)
    requires i < |a.pieces|
  {
    d' == OnPiece(d.(ticks := d.ticks + 1), a.pieces[i], a.accepts(i), cancelAt)
  }

  predicate SameWritten<T(==)>(d: Download<T>, d': Download<T>) {
    d.output == d'.output && d.totalWritten == d'.totalWritten
  }

  /** The states a request goes through. */
  function StatesOf<T>(start: Download<T>, a: Attempt<T>, cancelAt: nat): nat -> Download<T> {
    (i: nat) => if i <= |a.pieces| then After(start, a, i, cancelAt) else start
  }

  lemma StatesFollow<T>(start: Download<T>, a: Attempt<T>, cancelAt: nat)
    ensures var states := StatesOf(start, a, cancelAt);
            && states(0) == start
            && (forall i :: 0 <= i < |a.pieces| ==> PieceStep(a, i, cancelAt, states(i), states(i + 1)))
            && forall i :: 0 <= i <= |a.pieces| && states(i).ticks >= cancelAt ==> SameWritten(states(|a.pieces|), states(i))
  {
    var states := StatesOf(start, a, cancelAt);
    forall i | 0 <= i <= |a.pieces| && states(i).ticks >= cancelAt ensures SameWritten(states(|a.pieces|), states(i)) {
      FrozenAfter(start, a, i, |a.pieces|, cancelAt);
    }
  }

  /** Reads until the stream ends or the context is found to be cancelled. */
  method ReadPieces<T(==)>(attempt: Attempt<T>, start: Download<T>, cancelAt: nat, ghost states: nat -> Download<T>)
    returns (d: Download<T>, cancelled: bool)
    requires states(0) == start
    requires forall i :: 0 <= i < |attempt.pieces| ==> PieceStep(attempt, i, cancelAt, states(i), states(i + 1))
    requires forall i :: 0 <= i <= |attempt.pieces| && states(i).ticks >= cancelAt ==>
               SameWritten(states(|attempt.pieces|), states(i))
    ensures SameWritten(states(|attempt.pieces|), d)
    ensures if cancelled then d.ticks >= cancelAt else d == states(|attempt.pieces|)
  {
    d := start;
    for i := 0 to |attempt.pieces|
      invariant d == states(i)
    {
      if d.ticks >= cancelAt {
        return d.(ticks := d.ticks + 1), true;
      }
      assert PieceStep(attempt, i, cancelAt, states(i), states(i + 1));
      d := OnPiece(d.(ticks := d.ticks + 1), attempt.pieces[i], attempt.accepts(i), cancelAt);
    }
    return d, false;
  }

  // ---------------------------------------------------------------------------------------
  // All replicas
  // ---------------------------------------------------------------------------------------

  const SECOND: int := 1_000_000_000
  const RETRY_WAIT_TIME: int := 6_000_000_000

  ghost predicate AllSteadfast<T>(attempts: (nat, nat) -> Attempt<T>, cancelAt: nat) {
    forall r, u, w, t :: Steadfast(attempts(r, u), w, t, cancelAt)
  }

  ghost predicate AllWilling<T>(attempts: (nat, nat) -> Attempt<T>, content: seq<T>) {
    forall r, u :: Willing(attempts(r, u), content)
  }

  /** What the requests so far have left. */
  ghost predicate Written<T>(d: Download<T>, content: seq<T>, complete: bool, steady: bool) {
    forall k :: Opened(k) ==>
      && d.totalWritten == |d.output|
      && (steady ==> d.output <= content && (complete ==> d.output == content))
      && (Distinct(content) && d.output <= content ==> steady)
  }

  lemma WrittenFacts<T>(d: Download<T>, content: seq<T>, complete: bool, steady: bool)
    requires Written(d, content, complete, steady)
    ensures d.totalWritten == |d.output|
    ensures steady ==> d.output <= content && (complete ==> d.output == content)
    ensures Distinct(content) && d.output <= content ==> steady
  {
    assert Opened(0);
  }

  lemma WrittenSame<T>(d: Download<T>, d': Download<T>, content: seq<T>, complete: bool, steady: bool)
    requires Written(d, content, complete, steady) && d'.output == d.output && d'.totalWritten == d.totalWritten
    ensures Written(d', content, complete, steady)
  {
    assert Opened(0);
  }

  /** One more request. */
  method FetchFrom<T(==)>(
    attempt: Attempt<T>, d: Download<T>, ghost content: seq<T>, cancelAt: nat, ghost complete: bool, ghost steady: bool)
    returns (d': Download<T>, shouldRetry: bool, err: Outcome, ghost complete': bool, ghost steady': bool)
    requires Honest(attempt, content) && Written(d, content, complete, steady)
    ensures Written(d', content, complete', steady')
    ensures steady' == (steady && Steadfast(attempt, d.totalWritten, d.ticks, cancelAt))
    ensures complete' == (complete || Accepted(d', attempt, err, content))
    ensures Willing(attempt, content) && d'.writeErr ==> d'.ticks >= cancelAt
    ensures err.NoError? ==> attempt.outcome.NoError? && !shouldRetry
  {
    WrittenFacts(d, content, complete, steady);
    d', shouldRetry, err := ReadUrlAsStream(attempt, content, d.(localProcessed := 0, writeErr := false), cancelAt);
    steady' := steady && Steadfast(attempt, d.totalWritten, d.ticks, cancelAt);
    complete' := complete || Accepted(d', attempt, err, content);
    assert d'.output <= content ==> d.output <= content;
  }

  /** The context is asked whether it is cancelled. */
  method Asked<T>(d: Download<T>, ghost content: seq<T>, ghost complete: bool, ghost steady: bool) returns (d': Download<T>)
    requires Written(d, content, complete, steady)
    ensures d' == d.(ticks := d.ticks + 1) && Written(d', content, complete, steady)
  {
    d' := d.(ticks := d.ticks + 1);
    WrittenSame(d, d', content, complete, steady);
  }

  /** All replicas in turn, in rounds with growing pauses. `attempts(round, url)` is what each
      request delivers; `steady` says whether the writer accepted nothing after a refused byte in
      any request that was made.
      - If it was, the bytes written are a prefix of the content without gap or repeat, and a
        request that is accepted in full leaves the whole content. If it was not, they are no
        prefix, of positions that can be told apart.
      - A success that is not complete means the last request had a piece refused: a refused
        piece is not reported when the stream itself ends well.
      - If the writer never refuses, there is no second round, however the requests fail. */
  method RetriedStreamFetch<T(==)>(attempts: (nat, nat) -> Attempt<T>, urls: nat, ghost content: seq<T>, cancelAt: nat)
    returns (output: seq<T>, totalWritten: nat, err: Outcome, writeErr: bool, rounds: nat,
             ghost fullyDelivered: bool, ghost steady: bool)
    requires forall r, u :: Honest(attempts(r, u), content)
    ensures totalWritten == |output|
    ensures steady ==> output <= content && (fullyDelivered ==> output == content)
    ensures Distinct(content) && output <= content ==> steady
    ensures AllSteadfast(attempts, cancelAt) ==> steady
    ensures err.NoError? && 0 < urls && !writeErr ==> fullyDelivered
    ensures err.NoError? && 0 < urls && steady && output != content ==> writeErr
    ensures AllWilling(attempts, content) ==> rounds <= 1
  {
    var d: Download<T> := Download([], 0, 0, 0, false);
    var shouldRetry := false;
    err, fullyDelivered, steady, writeErr, rounds := NoError, false, true, false, 0;
    var waitTime := SECOND;
    while waitTime < RETRY_WAIT_TIME
      invariant SECOND <= waitTime && (rounds == 0 ==> waitTime == SECOND) && Written(d, content, fullyDelivered, steady)
      invariant AllSteadfast(attempts, cancelAt) ==> steady
      invariant rounds > 0 ==> !err.NoError?
      invariant AllWilling(attempts, content) ==> rounds == 0
      decreases RETRY_WAIT_TIME - waitTime
    {
      var done := d.ticks >= cancelAt;
      d := Asked(d, content, fullyDelivered, steady);
      if done {
        WrittenFacts(d, content, fullyDelivered, steady);
        return d.output, d.totalWritten, Cancelled, false, rounds, fullyDelivered, steady;
      }
      rounds := rounds + 1;
      var retriedCnt := 0;
      for u := 0 to urls
        invariant retriedCnt == u && Written(d, content, fullyDelivered, steady)
        invariant AllSteadfast(attempts, cancelAt) ==> steady
        invariant u > 0 || rounds > 1 ==> !err.NoError?
      {
        done := d.ticks >= cancelAt;
        d := Asked(d, content, fullyDelivered, steady);
        if done {
          WrittenFacts(d, content, fullyDelivered, steady);
          return d.output, d.totalWritten, Cancelled, false, rounds, fullyDelivered, steady;
        }
        retriedCnt := retriedCnt + 1;
        var attempt := attempts(rounds - 1, u);
        assert Honest(attempts(rounds - 1, u), content);
        d, shouldRetry, err, fullyDelivered, steady := FetchFrom(attempt, d, content, cancelAt, fullyDelivered, steady);
        writeErr := d.writeErr;
        if !shouldRetry {
          break;
        }
        if d.writeErr {
          err := if d.ticks >= cancelAt then Cancelled else WriteFailed;
          break;
        }
        if err.NoError? {
          break;
        }
      }
      if retriedCnt == urls {
        break;
      }
      if !err.NoError? && shouldRetry {
        done := d.ticks >= cancelAt;
        d := Asked(d, content, fullyDelivered, steady);
        if done {
          WrittenFacts(d, content, fullyDelivered, steady);
          return d.output, d.totalWritten, Cancelled, false, rounds, fullyDelivered, steady;
        }
      } else {
        break;
      }
      waitTime := waitTime + waitTime / 2;
    }
    WrittenFacts(d, content, fullyDelivered, steady);
    return d.output, d.totalWritten, err, writeErr, rounds, fullyDelivered, steady;
  }
}
