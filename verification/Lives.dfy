/**
 Several lives of the indexer on one database: each starts a new runner over the disk as it is
 then, and ends when its run returns or when it is killed after any commit.
 */
module Lives {
  import opened Bytes
  import opened Prose
  import opened Store
  import opened Indexing
  import opened History
  import opened Safety
  import opened Walking
  import opened Coverage
  import opened RunnerSteps
  import opened Pipeline

  /** A time after every walk so far. */
  method Now(db: DB) returns (t: int)
    ensures forall f :: f in db.files ==> db.files[f].lastSeen < t
  {
    t := *;
    var rest := db.files.Keys;
    while exists f :: f in rest
      invariant rest <= db.files.Keys
      invariant forall f :: f in db.files && f !in rest ==> db.files[f].lastSeen < t
      decreases |rest|
    {
      var f :| f in rest;
      rest := rest - {f};
      if db.files[f].lastSeen >= t { t := db.files[f].lastSeen + 1; }
    }
  }

  /** What a run finds: the contents of the files, and the paths that cannot be read. */
  datatype World = World(disk: map<Path, Text>, locked: set<Path>)

  /** No fingerprint, or the engine's own. */
  predicate OwnFingerprint(eng: Engine, db: DB) {
    db.fingerprint == None || db.fingerprint == Some(eng.fp)
  }

  lemma {:induction false} FingerprintStaysOwn(eng: Engine, dbs: seq<DB>, events: seq<Event>, i: nat)
    requires RunOf(eng, dbs, events) && OwnFingerprint(eng, dbs[0]) && i < |dbs|
    ensures OwnFingerprint(eng, dbs[i])
  {
    if i > 0 {
      FingerprintStaysOwn(eng, dbs, events, i - 1);
      NextKeepsOwn(eng, dbs[i - 1], dbs[i], events[i - 1]);
    }
  }

  lemma NextKeepsOwn(eng: Engine, a: DB, b: DB, e: Event)
    requires Next(eng, a, b, e) && OwnFingerprint(eng, a)
    ensures OwnFingerprint(eng, b)
  {
    match e
    case Walked(batch, ids, now) => UpsertAllKeepsFingerprint(a, batch, ids, now);
    case FileSkipped(f, c, why) => ClearTables(a, f);
    case _ =>
  }

  /** One life, cut off after any of its commits or not at all. */
  method Life(eng: Engine, wantedBatch: int, cfg: Config, before: DB, world: World) returns (after: DB)
    requires Injective(eng) && Tidy(before) && Faithful(eng, before) && OwnFingerprint(eng, before)
    ensures Tidy(after) && Faithful(eng, after) && OwnFingerprint(eng, after)
  {
    hide Injective, Tidy, Faithful, AllRight, Catalogued, StaleAttempted, Ledger;
    var start := Now(before);
    var calm: bool := *;
    var r := new Runner(eng, wantedBatch, cfg, before, calm);
    var ready: bool := *;
    var o, attempted, failed := r.Run(ready, world.disk, world.locked, start);
    assert r.dbs[0] == before;
    var commits: int := *;
    commits := if 0 <= commits < |r.dbs| then commits else |r.dbs| - 1;
    after := r.dbs[commits];
    HistoryStaysFaithful(eng, r.dbs, r.events, commits);
    FingerprintStaysOwn(eng, r.dbs, r.events, commits);
  }

  /** Any number of lives over any disks leave a tidy index in which every done file is as a rebuild would make it. */
  method ManyLives(eng: Engine, wantedBatch: int, cfg: Config, worlds: seq<World>) returns (db: DB)
    requires Injective(eng)
    ensures Tidy(db) && Faithful(eng, db) && OwnFingerprint(eng, db)
  {
    hide Injective, Tidy, Faithful;
    db := EMPTY;
    EmptyIsTidy(eng);
    for i := 0 to |worlds|
      invariant Tidy(db) && Faithful(eng, db) && OwnFingerprint(eng, db)
    {
      db := Life(eng, wantedBatch, cfg, db, worlds[i]);
    }
  }

  /** The index of `f` is what a from-scratch pass makes of the file on disk: indexed, or skipped. */
  ghost predicate AsFromScratch(eng: Engine, db: DB, f: int, disk: map<Path, Text>)
    requires f in db.files && db.files[f].path in disk
  {
    var path, c := db.files[f].path, disk[db.files[f].path];
    if HasStatus(db, f, Embeddings, Done) then
      Indexable(eng, path, c) && exists ns, cs :: Realizes(db, f, eng, Build(eng, path, c), ns, cs)
    else HasStatus(db, f, Embeddings, Skipped) && Judge(eng, path, c).Skip?
  }

  lemma SettledIsFromScratch(eng: Engine, db: DB, f: int, disk: map<Path, Text>)
    requires Injective(eng) && Faithful(eng, db) && OnDisk(eng, db, disk) && Live(db, f) && Settled(db, f)
    ensures AsFromScratch(eng, db, f, disk)
  {
    hide Realizes, Build, Judge, Indexable;
    var path, c := db.files[f].path, disk[db.files[f].path];
    assert FaithfulFile(eng, db, f);
    if HasStatus(db, f, Embeddings, Done) {
      var d, ns, cs :| Rebuilt(eng, db, f, d, ns, cs);
      assert eng.hash(c) == eng.hash(d);
    } else {
      var d :| Records(eng, db.files[f], d) && Judge(eng, path, d).Skip?;
      assert eng.hash(c) == eng.hash(d);
    }
  }

  /**
   Incremental equals rebuild, end to end: after any lives, however cut off and over whatever disks, a run that
   completes leaves exactly the files it can see on its disk live, each as a from-scratch pass over its content makes
   it, but for the files it counts as failed; and if no outside call fails it completes, and those are exactly the
   files whose content is refused.
   */
  method LivesThenRun(eng: Engine, wantedBatch: int, worlds: seq<World>, world: World, calm: bool)
    returns (o: Outcome, db: DB, failures: nat, ghost failed: set<int>)
    requires Injective(eng)
    ensures Tidy(db) && Faithful(eng, db)
    ensures o.Success? ==> |failed| == failures
    ensures o.Success? ==>
              LivePaths(db, set p | p in world.disk && !eng.ignored(p) && p !in world.locked)
    ensures o.Success? ==> AllRight(eng, calm, db, world.disk, failed)
    ensures o.Success? ==> forall f :: Live(db, f) && f !in failed ==>
              f in db.files && db.files[f].path in world.disk && AsFromScratch(eng, db, f, world.disk)
    ensures calm ==> o.Success?
  {
    hide Injective, Tidy, Faithful, OnDisk, Settled, AsFromScratch, AllRight, Catalogued, StaleAttempted, Ledger,
      LivePaths, Treated, RefusedAt;
    var before := ManyLives(eng, wantedBatch, DEFAULT_CONFIG, worlds);
    var start := Now(before);
    var r := new Runner(eng, wantedBatch, DEFAULT_CONFIG, before, calm);
    var attempted;
    o, attempted, failed := r.Run(true, world.disk, world.locked, start);
    db, failures := r.db, r.failedFiles;
    assert r.dbs[0] == before;
    HistoryStaysFaithful(eng, r.dbs, r.events, |r.events|);
    if o.Success? {
      forall f | Live(db, f) && f !in failed
        ensures f in db.files && db.files[f].path in world.disk && AsFromScratch(eng, db, f, world.disk)
      {
        LiveOnDisk(eng, db, world.disk, f);
        RightIsSettled(eng, calm, db, world.disk, failed, f);
        SettledIsFromScratch(eng, db, f, world.disk);
      }
    }
  }

  lemma RightIsSettled(eng: Engine, calm: bool, db: DB, disk: map<Path, Text>, failed: set<int>, f: int)
    requires AllRight(eng, calm, db, disk, failed) && Live(db, f) && f !in failed
    ensures Settled(db, f)
  {
    hide Treated, Settled, RefusedAt;
    TreatedSettles(eng, db, f, db.files[f].path, disk[db.files[f].path]);
  }
}
