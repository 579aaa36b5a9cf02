/** What a walk of the disk leaves in the files table. */
module Walking {
  import opened Bytes
  import opened Store
  import opened Indexing
  import opened History
  import opened Keeping

  /** Rows written since `start` are live and record what is on disk. */
  ghost predicate FreshAgrees(eng: Engine, db: DB, disk: map<Path, Text>, start: int) {
    forall f :: f in db.files && db.files[f].lastSeen >= start ==>
      db.files[f].deletedAt == None && db.files[f].path in disk && Records(eng, db.files[f], disk[db.files[f].path])
  }

  /** The paths seen since `start`. */
  function RecentPaths(db: DB, start: int): set<Path> {
    set f | f in db.files && db.files[f].lastSeen >= start :: db.files[f].path
  }

  function PathsOf(batch: seq<Seen>): set<Path> {
    set i | 0 <= i < |batch| :: batch[i].path
  }

  ghost predicate FromDisk(eng: Engine, disk: map<Path, Text>, batch: seq<Seen>) {
    forall i :: 0 <= i < |batch| ==>
      batch[i].path in disk && batch[i] == SeenOf(eng, batch[i].path, disk[batch[i].path])
  }

  lemma UpsertEffect(eng: Engine, db: DB, disk: map<Path, Text>, s: Seen, id: int, now: int, start: int)
    requires FreshAgrees(eng, db, disk, start) && now >= start && Resolves(db, s.path, id)
    requires s.path in disk && s == SeenOf(eng, s.path, disk[s.path])
    ensures var r := Upsert(db, s, id, now);
            FreshAgrees(eng, r, disk, start) && RecentPaths(r, start) == RecentPaths(db, start) + {s.path}
  {
    hide SeenOf;
    var r := Upsert(db, s, id, now);
    ClearTables(db, id);
    hide Clear;
    forall p
      ensures p in RecentPaths(r, start) <==> p in RecentPaths(db, start) + {s.path}
    {
      if p in RecentPaths(db, start) {
        var f :| f in db.files && db.files[f].lastSeen >= start && db.files[f].path == p;
        assert f in r.files && r.files[f].path == p && r.files[f].lastSeen >= start;
      }
      assert id in r.files && r.files[id].path == s.path && r.files[id].lastSeen >= start;
      if p in RecentPaths(r, start) {
        var f :| f in r.files && r.files[f].lastSeen >= start && r.files[f].path == p;
        if f != id { assert f in db.files && db.files[f] == r.files[f]; }
      }
    }
  }

  lemma {:induction false} FlushEffect(eng: Engine, db: DB, disk: map<Path, Text>, batch: seq<Seen>, ids: seq<int>,
                                       now: int, start: int)
    requires FreshAgrees(eng, db, disk, start) && now >= start && |ids| == |batch| && ResolvesAll(db, batch, ids, now)
    requires FromDisk(eng, disk, batch)
    ensures var r := UpsertAll(db, batch, ids, now);
            FreshAgrees(eng, r, disk, start) && RecentPaths(r, start) == RecentPaths(db, start) + PathsOf(batch)
  {
    hide FreshAgrees, RecentPaths, Upsert, Resolves, SeenOf;
    if batch == [] {
      assert PathsOf(batch) == {};
    } else {
      var n := |batch| - 1;
      FlushEffect(eng, db, disk, batch[..n], ids[..n], now, start);
      UpsertEffect(eng, UpsertAll(db, batch[..n], ids[..n], now), disk, batch[n], ids[n], now, start);
      PathsGrow(batch[..n], batch[n]);
      assert batch[..n] + [batch[n]] == batch;
    }
  }

  lemma PathsGrow(batch: seq<Seen>, s: Seen)
    ensures PathsOf(batch + [s]) == PathsOf(batch) + {s.path}
  {
    var all := batch + [s];
    forall p
      ensures p in PathsOf(all) <==> p in PathsOf(batch) + {s.path}
    {
      if p in PathsOf(batch) {
        var i :| 0 <= i < |batch| && batch[i].path == p;
        assert all[i].path == p;
      }
      assert all[|batch|].path == s.path;
    }
  }

  lemma HonestBatch(eng: Engine, disk: map<Path, Text>, batch: seq<Seen>)
    requires FromDisk(eng, disk, batch)
    ensures forall i :: 0 <= i < |batch| ==> Honest(eng, batch[i])
  {
    hide SeenOf;
  }

  /** After reconciliation the live files are exactly those the walk saw, as they are on disk. */
  lemma ReconcileEffect(eng: Engine, db: DB, disk: map<Path, Text>, start: int)
    requires FreshAgrees(eng, db, disk, start)
    ensures var r := Reconcile(db, start);
            && (forall f :: Live(r, f) ==> r.files[f].path in disk && Records(eng, r.files[f], disk[r.files[f].path]))
            && (forall f :: Live(r, f) ==> r.files[f].path in RecentPaths(db, start))
            && (forall p :: p in RecentPaths(db, start) ==> exists f :: Live(r, f) && r.files[f].path == p)
  {
    hide Records;
    var r := Reconcile(db, start);
    forall p | p in RecentPaths(db, start)
      ensures exists f :: Live(r, f) && r.files[f].path == p
    {
      var f :| f in db.files && db.files[f].lastSeen >= start && db.files[f].path == p;
      assert Live(r, f) && r.files[f].path == p;
    }
    forall f | Live(r, f)
      ensures r.files[f].path in disk && Records(eng, r.files[f], disk[r.files[f].path])
    {
      assert r.files[f] == db.files[f];
    }
  }

  // ---------------------------------------------------------------- what a walk leaves alone

  /** The part of the disk a walk sees: files that are neither ignored nor unreadable. */
  function Shown(eng: Engine, disk: map<Path, Text>, locked: set<Path>): map<Path, Text> {
    map p | p in disk && !eng.ignored(p) && p !in locked :: disk[p]
  }

  /** The row of `f` has the hash of the file on disk, if there is one. */
  ghost predicate Current(eng: Engine, db: DB, disk: map<Path, Text>, f: int) {
    f in db.files && (db.files[f].path in disk ==> db.files[f].sha == eng.hash(disk[db.files[f].path]))
  }

  /**
   Between `a` and `b` the walk took no file away, rewrote only the rows of files it saw, left the index of every
   file alone whose content is as it was, and no other file is done.
   */
  ghost predicate Undisturbed(eng: Engine, a: DB, b: DB, disk: map<Path, Text>, start: int) {
    && (forall f :: f in a.files ==>
          && f in b.files && b.files[f].path == a.files[f].path
          && (b.files[f].lastSeen < start ==> b.files[f] == a.files[f])
          && (Current(eng, a, disk, f) ==> Current(eng, b, disk, f) && SameRows(a, b, f)))
    && (forall f :: f in b.files ==> f in a.files || b.files[f].lastSeen >= start)
    && (forall f :: HasStatus(b, f, Embeddings, Done) ==> StillDone(a, b, f))
  }

  predicate StillDone(a: DB, b: DB, f: int) {
    f in a.files && f in b.files && HasStatus(a, f, Embeddings, Done) && b.files[f].sha == a.files[f].sha
  }

  lemma NothingDisturbed(eng: Engine, db: DB, disk: map<Path, Text>, start: int)
    requires Tidy(db)
    ensures Undisturbed(eng, db, db, disk, start)
  {
    hide SameRows, TidyFile;
    forall f
      ensures SameRows(db, db, f)
    {
      SameTables(db, db, f);
    }
  }

  lemma UndisturbedTrans(eng: Engine, a: DB, b: DB, c: DB, disk: map<Path, Text>, start: int)
    requires Undisturbed(eng, a, b, disk, start) && Undisturbed(eng, b, c, disk, start)
    ensures Undisturbed(eng, a, c, disk, start)
  {
    hide SameRows, Current;
    forall f | f in a.files
      ensures f in c.files && c.files[f].path == a.files[f].path
        && (c.files[f].lastSeen < start ==> c.files[f] == a.files[f])
        && (Current(eng, a, disk, f) ==> Current(eng, c, disk, f) && SameRows(a, c, f))
    {
      assert f in b.files;
      if Current(eng, a, disk, f) { SameTrans(a, b, c, f); }
    }
  }

  lemma UpsertUndisturbed(eng: Engine, db: DB, disk: map<Path, Text>, s: Seen, id: int, now: int, start: int)
    requires Tidy(db) && now >= start && Resolves(db, s.path, id)
    requires s.path in disk && s == SeenOf(eng, s.path, disk[s.path])
    ensures Undisturbed(eng, db, Upsert(db, s, id, now), disk, start)
  {
    var b := Upsert(db, s, id, now);
    ClearTables(db, id);
    hide Clear, SameRows, TidyFile;
    forall f | HasStatus(b, f, Embeddings, Done)
      ensures StillDone(db, b, f)
    {
      assert (f, Embeddings) in db.state;
    }
    forall f | f in db.files
      ensures f in b.files && b.files[f].path == db.files[f].path
        && (b.files[f].lastSeen < start ==> b.files[f] == db.files[f])
        && (Current(eng, db, disk, f) ==> Current(eng, b, disk, f) && SameRows(db, b, f))
    {
      if Current(eng, db, disk, f) { UpsertKeepsRows(db, s, id, now, f); }
    }
  }

  lemma {:induction false} FlushUndisturbed(eng: Engine, db: DB, disk: map<Path, Text>, batch: seq<Seen>, ids: seq<int>,
                                            now: int, start: int)
    requires Tidy(db) && now >= start && |ids| == |batch| && ResolvesAll(db, batch, ids, now)
    requires FromDisk(eng, disk, batch)
    ensures Undisturbed(eng, db, UpsertAll(db, batch, ids, now), disk, start)
  {
    hide Tidy, Upsert, Resolves, SeenOf, Undisturbed;
    if batch == [] {
      NothingDisturbed(eng, db, disk, start);
    } else {
      var n := |batch| - 1;
      var before := UpsertAll(db, batch[..n], ids[..n], now);
      FlushUndisturbed(eng, db, disk, batch[..n], ids[..n], now, start);
      UpsertAllKeepsTidy(db, batch[..n], ids[..n], now);
      UpsertUndisturbed(eng, before, disk, batch[n], ids[n], now, start);
      UndisturbedTrans(eng, db, before, UpsertAll(db, batch, ids, now), disk, start);
    }
  }

  /**
   The files table of `b` is that of `a` brought up to date with the disk at `start`: a row for every file on
   disk, as it is there, and every other row as it was but for the mark of its deletion.
   */
  ghost predicate Catalogued(eng: Engine, a: DB, b: DB, disk: map<Path, Text>, start: int) {
    && (forall f :: f in a.files ==> f in b.files && b.files[f].path == a.files[f].path)
    && (forall f :: f in b.files ==>
          if b.files[f].path in disk then
            b.files[f].lastSeen >= start && b.files[f].deletedAt == None
              && Records(eng, b.files[f], disk[b.files[f].path])
          else
            f in a.files && b.files[f] == a.files[f].(deletedAt := Deleted(a.files[f], start)))
    && (forall p :: p in disk ==> exists f :: f in b.files && b.files[f].path == p)
  }

  function Deleted(row: FileRow, start: int): Option<int> {
    if row.deletedAt == None then Some(start) else row.deletedAt
  }

  /** Every file whose content is as it was keeps its index. */
  ghost predicate KeepsCurrent(eng: Engine, a: DB, b: DB, disk: map<Path, Text>) {
    forall f :: Current(eng, a, disk, f) ==> SameRows(a, b, f)
  }

  lemma ReconcileCatalogues(eng: Engine, a: DB, w: DB, disk: map<Path, Text>, start: int)
    requires Linked(w) && Undisturbed(eng, a, w, disk, start) && FreshAgrees(eng, w, disk, start)
    requires RecentPaths(w, start) == disk.Keys
    ensures Catalogued(eng, a, Reconcile(w, start), disk, start)
  {
    RecentIsOnDisk(eng, w, disk, start);
    hide SameRows, Records, Current, RecentPaths, Linked;
    var b := Reconcile(w, start);
    assert forall f :: f in b.files <==> f in w.files;
    forall p | p in disk
      ensures exists f :: f in b.files && b.files[f].path == p
    {
      var f :| f in w.files && w.files[f].path == p;
      assert f in b.files && b.files[f].path == p;
    }
  }

  lemma RecentIsOnDisk(eng: Engine, w: DB, disk: map<Path, Text>, start: int)
    requires Linked(w) && RecentPaths(w, start) == disk.Keys
    ensures forall f :: f in w.files && w.files[f].path in disk ==> w.files[f].lastSeen >= start
    ensures forall p :: p in disk ==> exists f :: f in w.files && w.files[f].path == p
  {
    forall f | f in w.files && w.files[f].path in disk
      ensures w.files[f].lastSeen >= start
    {
      assert w.files[f].path in RecentPaths(w, start);
    }
    forall p | p in disk
      ensures exists f :: f in w.files && w.files[f].path == p
    {
      assert p in RecentPaths(w, start);
    }
  }

  /** The index of `f` was whole before and is of the content now on disk. */
  ghost predicate UpToDate(eng: Engine, db: DB, disk: map<Path, Text>, f: int) {
    && f in db.files && HasStatus(db, f, Embeddings, Done)
    && db.files[f].path in disk && db.files[f].sha == eng.hash(disk[db.files[f].path])
  }

  /** After the walk, of the files on disk those are done whose index is up to date. */
  lemma DoneIsUpToDate(eng: Engine, a: DB, w: DB, disk: map<Path, Text>, start: int, f: int)
    requires Undisturbed(eng, a, w, disk, start) && f in w.files && w.files[f].path in disk
    requires Records(eng, w.files[f], disk[w.files[f].path])
    ensures HasStatus(w, f, Embeddings, Done) <==> UpToDate(eng, a, disk, f)
  {
    if UpToDate(eng, a, disk, f) {
      assert Current(eng, a, disk, f);
      SameStatus(a, w, f);
    }
  }

  lemma ReconcileKeeps(eng: Engine, a: DB, w: DB, disk: map<Path, Text>, start: int)
    requires Undisturbed(eng, a, w, disk, start)
    ensures KeepsCurrent(eng, a, Reconcile(w, start), disk)
  {
    hide SameRows;
    forall f | Current(eng, a, disk, f)
      ensures SameRows(a, Reconcile(w, start), f)
    {
      SameTables(w, Reconcile(w, start), f);
      SameTrans(a, w, Reconcile(w, start), f);
    }
  }
}
