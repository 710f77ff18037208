/**
 Syncs that are not serializable: directories on the same path, which do not wait for each other,
 and, between different directories, renames that are overtaken and attempts that are repeated
 (weed/command/filer_sync.go, weed/command/filer_sync_jobs.go).
 */
module SyncMoves {
  import opened FileChunks
  import opened AbsoluteWrites
  import opened SyncEvents
  import opened SyncScheduler
  import opened SyncTheorems
  import opened SyncSerializability

  lemma MustIsTouched(c: Sync, k: nat, q: Path)
    requires c.Valid() && k < |c.log| && c.MustTouch(k, q)
    ensures c.EventTouches(k, q)
  {
    assert c.Touches(k, 0, q);
  }

  /** Whatever workers do about events: an event that can outlast the last one writing to one of its
      paths must not leave something else there. */
  lemma {:induction false} OvertakenShows(c: Sync, i: nat, j: nat, q: Path)
    requires c.Valid() && 1 <= c.limit && i < j < |c.log| && c.EventTouches(i, q) && c.LastToucher(j, q)
    requires c.Outlasts(i, j, 1) && Left(c.WritesOf(i), q) != Left(c.WritesOf(j), q)
    ensures !Serializable(c)
  {
    var op := LastTouch(c.WritesOf(i), q).value;
    LastTouchFacts(c.WritesOf(i), q);
    assert c.CanStay(i, 0, op, q);
    forall k | i < k < |c.log| && c.MustTouch(k, q) ensures c.Outlasts(i, k, 1) {
      MustIsTouched(c, k, q);
      OutlastsEarlier(c, i, k, j, 1);
    }
    SequentialAt(c, j, |c.log|, q);
    assert !c.SafeAt(q);
    SerializableIffSafe(c);
  }

  /** An update that is tried again: its first attempt has replaced the new parent by its place in the
      target, which is not in the source directory, so the second one deletes the entry. */
  lemma UpdateRetriedIsDeletion(c: Sync, route: Route, j: nat)
    requires c.Valid() && Filers(c, route) && 1 <= c.limit && 2 <= c.attempts && j < |c.log|
    requires var e := c.log[j];
             && !route.Skips(e) && route.deleteFiles && route.MovesWithin(e) && OldPath(e) == NewPath(e)
             && !route.watched(Child(route.rewrite(e.newParentPath), e.newEntry.value.name))
             && c.LastToucher(j, OldPath(e))
    ensures !Serializable(c)
  {
    var e := c.log[j];
    var q := OldPath(e);
    var op := Removal(q, e.oldEntry.value.isDirectory);
    var again := e.(newParentPath := route.rewrite(e.newParentPath));
    assert c.WritesOf(j) == [Put(q, e.newEntry.value)];
    assert c.Seen(j, 1) == again && c.Plan(j, 1) == Writes(again, route) == [op];
    assert c.CanStay(j, 1, op, q);
    forall k | j < k < |c.log| ensures !c.MustTouch(k, q) {
      if c.MustTouch(k, q) {
        MustIsTouched(c, k, q);
      }
    }
    SequentialAt(c, j, |c.log|, q);
    assert !c.SafeAt(q);
    SerializableIffSafe(c);
  }

  // ---------------------------------------------------------------------------------------
  // Three logs
  // ---------------------------------------------------------------------------------------

  /** Creating a directory and deleting it again: the two events do not wait for each other, and the
      directory may survive. */
  lemma DirectoryCanSurvive(c: Sync, route: Route, d: Entry)
    requires c.Valid() && Filers(c, route) && 2 <= c.limit && d.isDirectory && d.name == "d" && |c.log| == 2
    requires c.log[0].directory == "/a" && c.log[0].oldEntry == None && c.log[0].newEntry == Some(d)
    requires c.log[1].directory == "/a" && c.log[1].oldEntry == Some(d) && c.log[1].newEntry == None
    requires !route.Skips(c.log[0]) && !route.Skips(c.log[1]) && route.deleteFiles && route.watched("/a/d")
    ensures !Serializable(c)
  {
    var q := "/a/d";
    assert "d"[0] == 'd' && "/a"[1] == 'a' && "/a" + "/" + "d" == q;
    assert Child("/a", "d") == q && !IsUnder(q, q);
    assert InPlace(c.log[0]) by { assert c.log[0] in c.log; }
    assert c.WritesOf(0) == [Put(q, d)] && c.WritesOf(1) == [RemoveTree(q)];
    assert c.EventTouches(0, q) && c.LastToucher(1, q);
    assert !ShouldWaitFor(c.log[1], c.log[0]);
    assert c.Outlasts(0, 1, 1) by {
      assert c.Seen(0, 0) == c.log[0] && !c.HasToWait(1, 0, 0) && c.Outlasts(0, 0, 0);
    }
    assert Left(c.WritesOf(0), q) == Some(d) && Left(c.WritesOf(1), q) == None;
    OvertakenShows(c, 0, 1, q);
  }

  function FromXToY(): Route { RouteBetween("/x", "/y", 0, true) }

  lemma XPaths()
    ensures Child("/x", "a") == "/x/a" && Child("/x", "b") == "/x/b" && Child("/y", "b") == "/y/b" && Child("/y", "a") == "/y/a"
    ensures "/x" <= "/x/a" && "/x" <= "/x/b" && !("/x" <= "/y/a") && "/x" <= "/x" && "/x" <= "/x" + "/" && "/y" + "/x"[2..] == "/y"
    ensures "/x/a" != "/x/b" && "/x/b" != "/y/b"
  {
    assert "a"[0] == 'a' && "b"[0] == 'b' && "/x"[1] == 'x' && "/y"[1] == 'y';
    assert "/x" + "/" + "a" == "/x/a" && "/x" + "/" + "b" == "/x/b" && "/y" + "/" + "b" == "/y/b" && "/y" + "/" + "a" == "/y/a";
    assert "/x/a"[3] == 'a' && "/x/b"[3] == 'b' && "/x/b"[1] == 'x' && "/y/b"[1] == 'y' && "/y/a"[1] == 'y';
    assert "/x/a"[..2] == "/x" && "/x/b"[..2] == "/x" && ("/x" + "/")[..2] == "/x" && "/x"[2..] == "";
  }

  /** A file renamed from a to b, and b deleted: once the rename's worker has started, the deletion does
      not wait for it any more, and the file may survive. */
  lemma RenamedFileCanSurvive(c: Sync, a: Entry, b: Entry)
    requires c.Valid() && 2 <= c.limit && c.worker == WorkerOf(FromXToY()) && |c.log| == 2
    requires a.name == "a" && b.name == "b" && !a.isDirectory && !b.isDirectory
    requires c.log[0].directory == "/x" && c.log[0].oldEntry == Some(a) && c.log[0].newEntry == Some(b) && c.log[0].newParentPath == "/x"
    requires c.log[1].directory == "/x" && c.log[1].oldEntry == Some(b) && c.log[1].newEntry == None
    ensures ShouldWaitFor(c.log[1], c.log[0]) && !Serializable(c)
  {
    XPaths();
    var q, route := "/x/b", FromXToY();
    var moved := c.log[0].(newParentPath := "/y");
    assert c.WritesOf(0) == [Remove("/x/a"), Put(q, b)] && c.WritesOf(1) == [Remove(q)];
    assert c.EventTouches(0, q) && c.LastToucher(1, q);
    assert c.Seen(0, 1) == moved;
    assert ExtractPaths(moved) == Footprint("/x/a", "/y/b", false) && ExtractPaths(c.log[1]) == Footprint(q, "", false);
    assert c.Outlasts(0, 1, 1) by {
      assert !c.HasToWait(1, 0, 1) && c.Outlasts(0, 0, 1);
    }
    assert Left(c.WritesOf(0), q) == Some(b) && Left(c.WritesOf(1), q) == None;
    OvertakenShows(c, 0, 1, q);
  }

  /** A file updated once, with an attempt that is repeated: it may be gone. */
  lemma UpdatedFileCanVanish(c: Sync, a: Entry)
    requires c.Valid() && 1 <= c.limit && 2 <= c.attempts && c.worker == WorkerOf(FromXToY()) && |c.log| == 1 && a.name == "a"
    requires c.log[0].directory == "/x" && c.log[0].newParentPath == "/x"
    requires c.log[0].oldEntry == Some(a) && c.log[0].newEntry == Some(a)
    ensures !Serializable(c)
  {
    XPaths();
    assert c.WritesOf(0) == [Put("/x/a", a)];
    assert c.LastToucher(0, "/x/a");
    UpdateRetriedIsDeletion(c, FromXToY(), 0);
  }
}
