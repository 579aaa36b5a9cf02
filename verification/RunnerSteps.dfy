/**
 What one step of the runner keeps, and what its whole history guarantees. The predicates are
 the contracts of the methods in Runner.dfy; the lemmas are the steps of their proofs.
 */
module RunnerSteps {
  import opened Bytes
  import opened Prose
  import opened CodeChunks
  import opened Store
  import opened Indexing
  import opened History
  import opened Safety
  import opened Keeping
  import opened Coverage
  import opened Staging
  import opened Walking

  /** Nothing but the rows of `f` changed. */
  ghost predicate OthersUntouched(a: DB, b: DB, f: int) {
    b.files == a.files && b.fingerprint == a.fingerprint && forall g :: g != f ==> SameRows(a, b, g)
  }

  ghost predicate AllDone(db: DB, f: int) {
    HasStatus(db, f, Structural, Done) && HasStatus(db, f, Chunker, Done) && HasStatus(db, f, Embeddings, Done)
  }

  /** All three passes of `f` have this status row. */
  ghost predicate AllMarked(db: DB, f: int, s: Status, why: Option<string>) {
    forall p :: p != NoPass ==> (f, p) in db.state && db.state[(f, p)] == StateRow(s, why)
  }

  /** A file that did not fail is indexed if it is to be indexed, and skipped with the reason if not. */
  ghost predicate Treated(eng: Engine, db: DB, f: int, path: Path, c: Text) {
    || (Wanted(eng, path, c) && AllDone(db, f) && Carries(eng, db, f, path, c))
    || exists why :: Unwanted(eng, path, c, why) && AllMarked(db, f, Skipped, why)
  }

  /** What a committed file transaction leaves behind for every file. */
  ghost predicate Committed(eng: Engine, a: DB, b: DB, f: int, path: Path, c: Text) {
    OthersUntouched(a, b, f) && Treated(eng, b, f, path, c)
  }

  /** Together the flushed rows and the waiting batch are the files seen so far. */
  ghost predicate Batched(eng: Engine, db: DB, shown: map<Path, Text>, start: int, batch: seq<Seen>, seen: set<Path>) {
    FromDisk(eng, shown, batch) && RecentPaths(db, start) + PathsOf(batch) == seen
  }

  /** The walk so far saw the files of the shown disk that are not in `rest`. */
  ghost predicate SeenSoFar(shown: map<Path, Text>, rest: set<Path>, seen: set<Path>) {
    forall p :: p in seen <==> p in shown && p !in rest
  }

  lemma SeenMore(shown: map<Path, Text>, rest: set<Path>, path: Path, seen: set<Path>, more: set<Path>)
    requires SeenSoFar(shown, rest, seen) && path in rest
    requires more == if path in shown then seen + {path} else seen
    ensures SeenSoFar(shown, rest - {path}, more) && |more| == |seen| + if path in shown then 1 else 0
  {
    assert path !in seen;
  }

  lemma SeenAll(shown: map<Path, Text>, rest: set<Path>, seen: set<Path>)
    requires SeenSoFar(shown, rest, seen) && forall p :: p !in rest
    ensures seen == shown.Keys && |seen| == |shown|
  {
    assert |shown.Keys| == |shown|;
  }

  /** Every live file is on disk as recorded. */
  ghost predicate OnDisk(eng: Engine, db: DB, disk: map<Path, Text>) {
    forall f :: Live(db, f) ==> db.files[f].path in disk && Records(eng, db.files[f], disk[db.files[f].path])
  }

  /** The live files are those at the paths `seen`. */
  ghost predicate LivePaths(db: DB, seen: set<Path>) {
    && (forall f :: Live(db, f) ==> db.files[f].path in seen)
    && (forall p :: p in seen ==> exists f :: Live(db, f) && db.files[f].path == p)
  }

  /**
   The outcome of an attempt at `f`: it failed, or its rows are as they should be. It failed if there is a reason in
   its content, and if no outside call fails only then, and the failure is on record.
   */
  ghost predicate Accounted(eng: Engine, calm: bool, db: DB, disk: map<Path, Text>, f: int, bad: bool) {
    && f in db.files && db.files[f].path in disk
    && var path, c := db.files[f].path, disk[db.files[f].path];
       && (!bad ==> Treated(eng, db, f, path, c) && RefusedAt(eng, path, c) == NoPass)
       && (calm && bad ==> RefusedAt(eng, path, c) != NoPass && HasStatus(db, f, RefusedAt(eng, path, c), Failed))
  }

  /** The books of a run: every attempted file is counted as failed or settled as it should be. */
  ghost predicate Ledger(eng: Engine, calm: bool, db: DB, disk: map<Path, Text>, attempted: set<int>, failed: set<int>,
                         count: nat)
  {
    && failed <= attempted && |failed| == count
    && forall f :: f in attempted ==> Accounted(eng, calm, db, disk, f, f in failed)
  }

  /** The processed files are the attempted ones, each once. */
  ghost predicate Once(processed: seq<int>, attempted: set<int>) {
    Distinct(processed) && forall f :: f in processed <==> f in attempted
  }

  /** Of the attempted files some may be left out, when a run is cancelled, but none is processed twice. */
  ghost predicate AtMostOnce(processed: seq<int>, attempted: set<int>) {
    Distinct(processed) && forall f :: f in processed ==> f in attempted
  }

  ghost predicate SettlesFile(e: Event, f: int) {
    (e.FileIndexed? || e.FileSkipped?) && e.file == f
  }

  /** The row recordFailure writes; an empty pass name stands for the first pass. */
  function FailedRow(db: DB, f: int, pass: Pass, message: string): DB {
    Mark(db, f, if pass == NoPass then Structural else pass, Failed, Some(message))
  }

  // ---------------------------------------------------------------- steps of the proofs

  lemma NothingChanged(db: DB, f: int)
    ensures OthersUntouched(db, db, f)
  {
    hide SameRows;
    forall g
      ensures SameRows(db, db, g)
    {
      SameTables(db, db, g);
    }
  }

  lemma FailureOnlyMarks(db: DB, f: int, pass: Pass, message: string)
    ensures OthersUntouched(db, FailedRow(db, f, pass, message), f)
    ensures FailedRow(db, f, pass, message) == db.(state := FailedRow(db, f, pass, message).state)
    ensures pass != NoPass ==> HasStatus(FailedRow(db, f, pass, message), f, pass, Failed)
  {
  }

  /** Only files of `touched` changed. */
  ghost predicate Spared(a: DB, b: DB, touched: set<int>) {
    b.files == a.files && b.fingerprint == a.fingerprint && forall g :: g !in touched ==> SameRows(a, b, g)
  }

  lemma NothingTouched(db: DB, touched: set<int>)
    ensures Spared(db, db, touched)
  {
    hide SameRows;
    forall g
      ensures SameRows(db, db, g)
    {
      SameTables(db, db, g);
    }
  }

  lemma SparedStep(a: DB, b: DB, c: DB, touched: set<int>, f: int)
    requires Spared(a, b, touched) && OthersUntouched(b, c, f)
    ensures Spared(a, c, touched + {f})
  {
    hide SameRows;
    forall g | g !in touched + {f}
      ensures SameRows(a, c, g)
    {
      SameTrans(a, b, c, g);
    }
  }

  lemma SparedTrans(a: DB, b: DB, c: DB, before: set<int>, after: set<int>)
    requires Spared(a, b, before) && Spared(b, c, after) && before <= after
    ensures Spared(a, c, after)
  {
    hide SameRows;
    forall g | g !in after
      ensures SameRows(a, c, g)
    {
      SameTrans(a, b, c, g);
    }
  }

  /** A file not touched is pending exactly when it was. */
  lemma SparedPending(a: DB, b: DB, touched: set<int>, f: int)
    requires Spared(a, b, touched) && f !in touched
    ensures IsPending(a, f) <==> IsPending(b, f)
  {
    SameStatus(a, b, f);
  }

  lemma SparedFingerprint(a: DB, b: DB, touched: set<int>)
    requires Spared(a, b, touched)
    ensures b.files == a.files && b.fingerprint == a.fingerprint
  {
  }

  lemma TreatedKept(eng: Engine, a: DB, b: DB, f: int, path: Path, c: Text)
    requires Treated(eng, a, f, path, c) && SameRows(a, b, f)
    ensures Treated(eng, b, f, path, c)
  {
    SameStatus(a, b, f);
    hide SameRows, Wanted, Unwanted, Carries;
    if Wanted(eng, path, c) && AllDone(a, f) && Carries(eng, a, f, path, c) {
      CarriesKept(eng, a, b, f, path, c);
    } else {
      var why :| Unwanted(eng, path, c, why) && AllMarked(a, f, Skipped, why);
      assert AllMarked(b, f, Skipped, why);
    }
  }

  lemma TreatedSettles(eng: Engine, db: DB, f: int, path: Path, c: Text)
    requires Treated(eng, db, f, path, c)
    ensures Settled(db, f)
  {
    hide Wanted, Unwanted, Carries;
  }

  lemma AccountedKept(eng: Engine, calm: bool, a: DB, b: DB, disk: map<Path, Text>, f: int, bad: bool)
    requires Accounted(eng, calm, a, disk, f, bad) && b.files == a.files && SameRows(a, b, f)
    ensures Accounted(eng, calm, b, disk, f, bad)
  {
    SameStatus(a, b, f);
    hide SameRows, Treated, RefusedAt;
    if !bad { TreatedKept(eng, a, b, f, a.files[f].path, disk[a.files[f].path]); }
  }

  lemma AllMarkedIs(db: DB, f: int, s: Status, why: Option<string>)
    ensures AllMarked(MarkAll(db, f, s, why), f, s, why)
  {
    forall p: Pass | p != NoPass
      ensures (f, p) in MarkAll(db, f, s, why).state && MarkAll(db, f, s, why).state[(f, p)] == StateRow(s, why)
    {
      match p case NoPass => case Structural => case Chunker => case Embeddings =>
    }
  }

  lemma OthersKept(a: DB, b: DB, f: int)
    requires Tidy(a) && Tidy(b) && AgreeElsewhere(a, b, f) && b.files == a.files && b.fingerprint == a.fingerprint
    ensures OthersUntouched(a, b, f)
  {
    hide Tidy, AgreeElsewhere, SameRows;
    forall g | g != f
      ensures SameRows(a, b, g)
    {
      AgreeKeepsRows(a, b, f, g);
    }
  }

  /** An indexing commit indexes a wanted file and leaves the others alone. */
  lemma IndexedCommits(eng: Engine, a: DB, b: DB, f: int, c: Text, ns: seq<int>, cs: seq<int>)
    requires Tidy(a) && Indexed(eng, a, b, f, c, ns, cs)
    ensures Committed(eng, a, b, f, a.files[f].path, c)
  {
    var path := a.files[f].path;
    IndexedKeepsTidy(eng, a, b, f, c, ns, cs);
    AllMarkedIs(Clear(a, f), f, Done, None);
    JudgeIs(eng, path, c);
    hide Tidy, AgreeElsewhere, Clear, MarkAll, Realizes, Build, Wanted, Carries, Judge, SymbolsOf, InRange;
    OthersKept(a, b, f);
    RealizedCarries(eng, b, f, path, c, ns, cs);
  }

  /** A skipping commit skips an unwanted file and leaves the others alone. */
  lemma SkippedCommits(eng: Engine, a: DB, b: DB, f: int, c: Text, why: Option<string>)
    requires Tidy(a) && Next(eng, a, b, FileSkipped(f, c, why))
    ensures Committed(eng, a, b, f, a.files[f].path, c)
  {
    var cleared := Clear(a, f);
    NextKeepsTidy(eng, a, b, FileSkipped(f, c, why));
    ClearTables(a, f);
    AllMarkedIs(cleared, f, Skipped, why);
    JudgeIs(eng, a.files[f].path, c);
    ClearAgrees(a, f);
    MarkAllAgrees(cleared, f, Skipped, why);
    AgreeTrans(a, cleared, b, f);
    assert b.files == a.files && b.fingerprint == a.fingerprint;
    hide Tidy, AgreeElsewhere, Clear, MarkAll, Wanted, Unwanted, Judge;
    OthersKept(a, b, f);
  }

  lemma OnceIsAtMostOnce(processed: seq<int>, attempted: set<int>)
    requires Once(processed, attempted)
    ensures AtMostOnce(processed, attempted)
  {
  }

  lemma OnceMore(processed: seq<int>, attempted: set<int>, id: int)
    requires Once(processed, attempted) && id !in attempted
    ensures Once(processed + [id], attempted + {id}) && AtMostOnce(processed + [id], attempted + {id})
    ensures AtMostOnce(processed, attempted + {id})
  {
  }

  /** Where the loops start: nothing added, embedded, seen or attempted yet. */
  lemma NothingYet(db: DB, f: int, ns: seq<int>, embed: Text -> Vector)
    ensures NodesAdded(db.nodes, db.nodes, f, [], []) && ChunksAdded(db.chunks, db.chunks, [], ns, [])
        && Pairs([], [], [])
    ensures PutVectors(db.vectors, embed, []) == db.vectors && Fits(embed, [])
    ensures PathsOf([]) == {}
  {
  }

  lemma NothingTried(eng: Engine, calm: bool, db: DB, disk: map<Path, Text>)
    ensures Ledger(eng, calm, db, disk, {}, {}, 0)
    ensures Once([], {}) && AtMostOnce([], {})
  {
  }

  lemma LiveOnDisk(eng: Engine, db: DB, disk: map<Path, Text>, f: int)
    requires OnDisk(eng, db, disk) && Live(db, f)
    ensures db.files[f].path in disk && Records(eng, db.files[f], disk[db.files[f].path])
  {
  }

  lemma OnDiskKept(eng: Engine, a: DB, b: DB, disk: map<Path, Text>)
    requires OnDisk(eng, a, disk) && b.files == a.files
    ensures OnDisk(eng, b, disk)
  {
    hide Records;
    forall f | Live(b, f)
      ensures b.files[f].path in disk && Records(eng, b.files[f], disk[b.files[f].path])
    {
      assert Live(a, f);
    }
  }

  lemma LedgerStep(eng: Engine, calm: bool, a: DB, b: DB, disk: map<Path, Text>, attempted: set<int>,
                   failedBefore: set<int>, failed: set<int>, id: int, before: nat, after: nat)
    requires Ledger(eng, calm, a, disk, attempted, failedBefore, before)
    requires id !in attempted && OthersUntouched(a, b, id)
    requires failed == if after == before then failedBefore else failedBefore + {id}
    requires after == before || after == before + 1
    requires Accounted(eng, calm, b, disk, id, after > before)
    ensures Ledger(eng, calm, b, disk, attempted + {id}, failed, after)
  {
    hide Accounted, SameRows;
    assert id !in failedBefore;
    forall f | f in attempted + {id}
      ensures Accounted(eng, calm, b, disk, f, f in failed)
    {
      if f != id { AccountedKept(eng, calm, a, b, disk, f, f in failedBefore); }
    }
  }

  lemma NothingBatched(eng: Engine, db: DB, shown: map<Path, Text>, start: int, batch: seq<Seen>)
    requires batch == [] && RecentPaths(db, start) == {}
    ensures Batched(eng, db, shown, start, batch, {})
  {
    hide RecentPaths;
  }

  lemma BatchMore(eng: Engine, db: DB, disk: map<Path, Text>, locked: set<Path>, start: int, batch: seq<Seen>,
                  seen: set<Path>, path: Path)
    requires Batched(eng, db, Shown(eng, disk, locked), start, batch, seen)
    requires path in disk && !eng.ignored(path) && path !in locked
    ensures Batched(eng, db, Shown(eng, disk, locked), start, batch + [SeenOf(eng, path, disk[path])], seen + {path})
    ensures path in Shown(eng, disk, locked)
  {
    hide RecentPaths, PathsOf;
    PathsGrow(batch, SeenOf(eng, path, disk[path]));
  }

  lemma NotShown(eng: Engine, disk: map<Path, Text>, locked: set<Path>, path: Path)
    requires eng.ignored(path) || path in locked
    ensures path !in Shown(eng, disk, locked)
  {
  }

  lemma BatchFlushed(eng: Engine, db: DB, shown: map<Path, Text>, start: int, seen: set<Path>)
    requires RecentPaths(db, start) == seen
    ensures Batched(eng, db, shown, start, [], seen)
  {
    hide RecentPaths;
  }

  lemma BatchedParts(eng: Engine, db: DB, shown: map<Path, Text>, start: int, batch: seq<Seen>, seen: set<Path>)
    requires Batched(eng, db, shown, start, batch, seen)
    ensures FromDisk(eng, shown, batch) && RecentPaths(db, start) + PathsOf(batch) == seen
  {
    hide FromDisk, RecentPaths, PathsOf;
  }

  lemma ShownIsOnDisk(eng: Engine, disk: map<Path, Text>, locked: set<Path>)
    ensures SeenSoFar(Shown(eng, disk, locked), disk.Keys, {})
  {
  }

  lemma NothingRecent(eng: Engine, db: DB, disk: map<Path, Text>, start: int)
    requires forall f :: f in db.files ==> db.files[f].lastSeen < start
    ensures FreshAgrees(eng, db, disk, start) && RecentPaths(db, start) == {}
  {
  }

  lemma UntouchedFiles(a: DB, b: DB, f: int)
    requires OthersUntouched(a, b, f)
    ensures b.files == a.files && b.fingerprint == a.fingerprint
  {
  }

  lemma OthersStayPending(a: DB, b: DB, f: int, g: int)
    requires OthersUntouched(a, b, f) && f != g && IsPending(a, g)
    ensures IsPending(b, g)
  {
    assert SameRows(a, b, g);
    SameStatus(a, b, g);
  }

  /** Distinct ids that were all attempted before cannot fill a fetch of |attempted| + 100. */
  lemma {:induction false} FetchedAll(ids: seq<int>, attempted: set<int>)
    requires Distinct(ids) && forall f :: f in ids ==> f in attempted
    ensures |ids| <= |attempted|
    decreases |ids|
  {
    if ids != [] {
      var n := |ids| - 1;
      assert forall f :: f in ids[..n] ==> f in attempted - {ids[n]};
      FetchedAll(ids[..n], attempted - {ids[n]});
      assert ids[n] in ids;
    }
  }

  ghost function PendingSet(db: DB): set<int> {
    set f | f in db.files && IsPending(db, f)
  }

  lemma AddedWerePending(start: DB, now: DB, before: set<int>, after: set<int>)
    requires Spared(start, now, before) && before <= PendingSet(start)
    requires forall f :: f in after - before ==> IsPending(now, f)
    ensures after <= PendingSet(start)
  {
    hide Spared;
    forall f | f in after
      ensures f in PendingSet(start)
    {
      if f !in before { SparedPending(start, now, before, f); }
    }
  }

  /** When nothing but attempted files is pending, those attempted are exactly the files that were pending. */
  lemma AllAttempted(start: DB, end: DB, attempted: set<int>)
    requires Spared(start, end, attempted) && attempted <= PendingSet(start)
    requires forall f :: IsPending(end, f) ==> f in attempted
    ensures forall f :: f in attempted <==> IsPending(start, f)
  {
    hide Spared;
    forall f | IsPending(start, f)
      ensures f in attempted
    {
      if f !in attempted { SparedPending(start, end, attempted, f); }
    }
  }

  lemma Shrinks<T>(live: set<T>, before: set<T>, after: set<T>)
    requires before < after <= live
    ensures |live - after| < |live - before|
  {
    var added := after - before;
    assert added != {};
    var f :| f in added;
    SubsetSize(live - after, live - before - {f});
  }

  lemma {:induction false} SubsetSize<T>(small: set<T>, big: set<T>)
    requires small <= big
    ensures |small| <= |big|
  {
    if small != {} {
      var x :| x in small;
      SubsetSize(small - {x}, big - {x});
    }
  }

  /** Brought up to date with what the walk is shown, the live files are those on the shown disk, as they are there. */
  lemma CataloguedLive(eng: Engine, a: DB, b: DB, disk: map<Path, Text>, locked: set<Path>, start: int)
    requires Catalogued(eng, a, b, Shown(eng, disk, locked), start)
    ensures OnDisk(eng, b, disk)
    ensures LivePaths(b, set p | p in disk && !eng.ignored(p) && p !in locked)
  {
    hide Records;
    var shown := Shown(eng, disk, locked);
    forall f | Live(b, f)
      ensures b.files[f].path in shown
    {
    }
    forall p | p in shown
      ensures exists f :: Live(b, f) && b.files[f].path == p
    {
      var f :| f in b.files && b.files[f].path == p;
      assert Live(b, f);
    }
  }

  lemma CataloguedKept(eng: Engine, a: DB, b: DB, c: DB, disk: map<Path, Text>, start: int)
    requires Catalogued(eng, a, b, disk, start) && c.files == b.files
    ensures Catalogued(eng, a, c, disk, start)
  {
    hide Records;
    forall p | p in disk
      ensures exists f :: f in c.files && c.files[f].path == p
    {
      var f :| f in b.files && b.files[f].path == p;
      assert f in c.files;
    }
  }

  /** The pending files of a catalogued state are the live ones whose index is not up to date. */
  ghost predicate PendingIsStale(eng: Engine, a: DB, b: DB, shown: map<Path, Text>) {
    forall f :: IsPending(b, f) <==> Live(b, f) && !UpToDate(eng, a, shown, f)
  }

  lemma StaleFilesPend(eng: Engine, a: DB, w: DB, shown: map<Path, Text>, start: int)
    requires Undisturbed(eng, a, w, shown, start) && Catalogued(eng, a, Reconcile(w, start), shown, start)
    ensures PendingIsStale(eng, a, Reconcile(w, start), shown)
  {
    var b := Reconcile(w, start);
    hide Undisturbed, Records, UpToDate;
    forall f | Live(b, f)
      ensures IsPending(b, f) <==> !UpToDate(eng, a, shown, f)
    {
      assert Records(eng, w.files[f], shown[w.files[f].path]) by { RowsRecord(eng, w, start, f, shown); }
      DoneIsUpToDate(eng, a, w, shown, start, f);
    }
  }

  lemma RowsRecord(eng: Engine, w: DB, start: int, f: int, shown: map<Path, Text>)
    requires f in w.files && w.files[f].path in shown
        && Records(eng, Reconcile(w, start).files[f], shown[w.files[f].path])
    ensures Records(eng, w.files[f], shown[w.files[f].path])
  {
  }

  /** A file up to date before the run is what its content asks for, and stays it. */
  lemma UpToDateTreated(eng: Engine, a: DB, b: DB, shown: map<Path, Text>, f: int)
    requires Injective(eng) && Faithful(eng, a) && Tidy(a) && UpToDate(eng, a, shown, f) && SameRows(a, b, f)
    ensures Treated(eng, b, f, a.files[f].path, shown[a.files[f].path])
    ensures RefusedAt(eng, a.files[f].path, shown[a.files[f].path]) == NoPass
  {
    var path, c := a.files[f].path, shown[a.files[f].path];
    assert FaithfulFile(eng, a, f) && TidyFile(a, f);
    hide Realizes, Indexable, Build, Judge, Wanted, Carries, SameRows, Linked;
    var d, ns, cs :| Rebuilt(eng, a, f, d, ns, cs);
    assert d == c by { assert eng.hash(d) == eng.hash(c); }
    IndexableMeans(eng, path, c);
    RealizedCarries(eng, a, f, path, c, ns, cs);
    TreatedKept(eng, a, b, f, path, c);
  }

  lemma IndexableMeans(eng: Engine, path: Path, c: Text)
    requires Indexable(eng, path, c)
    ensures Wanted(eng, path, c) && SymbolsOf(eng, path, c).Some? && InRange(c, SymbolsOf(eng, path, c).value)
    ensures RefusedAt(eng, path, c) == NoPass
  {
    JudgeIs(eng, path, c);
    hide Judge, Wanted, SymbolsOf, ChunkSpecs, NodeSpecs, InRange, RefusedAt;
    RefusedIs(eng, path, c);
    var syms := SymbolsOf(eng, path, c).value;
    assert Build(eng, path, c).chunks == ChunkSpecs(eng, path, c, syms);
    assert FitsSpecs(eng.embed, ChunkSpecs(eng, path, c, syms));
  }

  /** After a run every live file that did not fail is what its content asks for. */
  lemma EveryLiveFileIsRight(eng: Engine, calm: bool, a: DB, b: DB, disk: map<Path, Text>, locked: set<Path>,
                             attempted: set<int>, failed: set<int>, count: nat, f: int)
    requires Injective(eng) && Faithful(eng, a) && Tidy(a) && OnDisk(eng, b, disk) && Live(b, f) && f !in failed
    requires Ledger(eng, calm, b, disk, attempted, failed, count)
    requires f in attempted || (UpToDate(eng, a, Shown(eng, disk, locked), f) && SameRows(a, b, f)
      && a.files[f].path == b.files[f].path)
    ensures b.files[f].path in disk && Treated(eng, b, f, b.files[f].path, disk[b.files[f].path])
    ensures RefusedAt(eng, b.files[f].path, disk[b.files[f].path]) == NoPass
  {
    hide Treated, Faithful, Injective, Tidy, SameRows, RefusedAt;
    if f in attempted {
      assert Accounted(eng, calm, b, disk, f, false);
    } else {
      UpToDateTreated(eng, a, b, Shown(eng, disk, locked), f);
      assert f in a.files && a.files[f].path in Shown(eng, disk, locked);
    }
  }

  /**
   A run attempts exactly the live files whose index is not up to date; every other file whose content is as it was,
   deleted ones among them, keeps its index.
   */
  ghost predicate StaleAttempted(eng: Engine, a: DB, b: DB, shown: map<Path, Text>, attempted: set<int>) {
    && (forall f :: f in attempted <==> Live(b, f) && !UpToDate(eng, a, shown, f))
    && (forall f :: Current(eng, a, shown, f) && f !in attempted ==> SameRows(a, b, f))
  }

  /** The state in which the main loop starts. */
  ghost predicate Prepared(eng: Engine, a: DB, b: DB, shown: map<Path, Text>, start: int) {
    && Catalogued(eng, a, b, shown, start) && KeepsCurrent(eng, a, b, shown) && PendingIsStale(eng, a, b, shown)
    && b.fingerprint == Some(eng.fp)
  }

  lemma PreparedNow(eng: Engine, a: DB, walked: DB, b: DB, disk: map<Path, Text>, locked: set<Path>, start: int)
    requires var shown := Shown(eng, disk, locked);
             && Catalogued(eng, a, walked, shown, start) && KeepsCurrent(eng, a, walked, shown)
             && PendingIsStale(eng, a, walked, shown)
    requires b == walked.(fingerprint := Some(eng.fp))
    ensures Prepared(eng, a, b, Shown(eng, disk, locked), start) && OnDisk(eng, b, disk)
  {
    var shown := Shown(eng, disk, locked);
    CataloguedKept(eng, a, walked, b, shown, start);
    CataloguedLive(eng, a, b, disk, locked, start);
    hide Catalogued, OnDisk, SameRows, Current, UpToDate, Shown;
    forall f
      ensures IsPending(b, f) <==> Live(b, f) && !UpToDate(eng, a, shown, f)
    {
      assert IsPending(b, f) <==> IsPending(walked, f);
    }
    forall f | Current(eng, a, shown, f)
      ensures SameRows(a, b, f)
    {
      SameTables(walked, b, f);
      SameTrans(a, walked, b, f);
    }
  }

  lemma PreparedParts(eng: Engine, a: DB, b: DB, shown: map<Path, Text>, start: int)
    requires Prepared(eng, a, b, shown, start)
    ensures Catalogued(eng, a, b, shown, start) && b.fingerprint == Some(eng.fp)
  {
  }

  lemma StaleWereAttempted(eng: Engine, a: DB, walked: DB, b: DB, shown: map<Path, Text>, start: int,
                           attempted: set<int>)
    requires Prepared(eng, a, walked, shown, start) && Spared(walked, b, attempted)
    requires forall f :: f in attempted <==> IsPending(walked, f)
    ensures StaleAttempted(eng, a, b, shown, attempted)
  {
    hide SameRows, UpToDate, Current, Catalogued;
    forall f | Current(eng, a, shown, f) && f !in attempted
      ensures SameRows(a, b, f)
    {
      SameTrans(a, walked, b, f);
    }
  }

  /**
   Every live file that did not fail is indexed if its content is to be indexed, and skipped if not; a file whose
   content is refused failed, and if no outside call fails no other file did.
   */
  ghost predicate AllRight(eng: Engine, calm: bool, db: DB, disk: map<Path, Text>, failed: set<int>) {
    forall f :: Live(db, f) ==>
      && db.files[f].path in disk
      && var path, c := db.files[f].path, disk[db.files[f].path];
         && (f !in failed ==> Treated(eng, db, f, path, c) && RefusedAt(eng, path, c) == NoPass)
         && (calm && f in failed ==> RefusedAt(eng, path, c) != NoPass)
  }

  lemma LiveFilesAreRight(eng: Engine, calm: bool, a: DB, b: DB, disk: map<Path, Text>, locked: set<Path>, start: int,
                          attempted: set<int>, failed: set<int>, count: nat)
    requires Injective(eng) && Faithful(eng, a) && Tidy(a) && OnDisk(eng, b, disk)
    requires Ledger(eng, calm, b, disk, attempted, failed, count)
    requires StaleAttempted(eng, a, b, Shown(eng, disk, locked), attempted)
    requires Catalogued(eng, a, b, Shown(eng, disk, locked), start)
    ensures AllRight(eng, calm, b, disk, failed)
  {
    hide Treated, Faithful, Injective, Tidy, SameRows, RefusedAt, Ledger, OnDisk, Records;
    var shown := Shown(eng, disk, locked);
    forall f | Live(b, f)
      ensures b.files[f].path in disk
      ensures f !in failed ==>
          Treated(eng, b, f, b.files[f].path, disk[b.files[f].path])
            && RefusedAt(eng, b.files[f].path, disk[b.files[f].path]) == NoPass
      ensures calm && f in failed ==> RefusedAt(eng, b.files[f].path, disk[b.files[f].path]) != NoPass
    {
      LiveOnDisk(eng, b, disk, f);
      if f in failed {
        FailedIsAccounted(eng, calm, b, disk, attempted, failed, count, f);
      } else {
        if f !in attempted { assert Current(eng, a, shown, f); }
        EveryLiveFileIsRight(eng, calm, a, b, disk, locked, attempted, failed, count, f);
      }
    }
  }

  lemma FailedIsAccounted(eng: Engine, calm: bool, b: DB, disk: map<Path, Text>, attempted: set<int>, failed: set<int>,
                          count: nat, f: int)
    requires Ledger(eng, calm, b, disk, attempted, failed, count) && f in failed
    ensures Accounted(eng, calm, b, disk, f, true)
  {
  }

  /** What a completed run adds up to. */
  lemma RunEnds(eng: Engine, calm: bool, a: DB, walked: DB, b: DB, disk: map<Path, Text>, locked: set<Path>,
                start: int, attempted: set<int>, failed: set<int>, count: nat)
    requires Prepared(eng, a, walked, Shown(eng, disk, locked), start) && Spared(walked, b, attempted)
    requires forall f :: f in attempted <==> IsPending(walked, f)
    requires Ledger(eng, calm, b, disk, attempted, failed, count) && Tidy(a)
    ensures b.fingerprint == Some(eng.fp) && OnDisk(eng, b, disk)
    ensures LivePaths(b, set p | p in disk && !eng.ignored(p) && p !in locked)
    ensures Catalogued(eng, a, b, Shown(eng, disk, locked), start)
    ensures failed <= attempted && |failed| == count <= |attempted|
    ensures StaleAttempted(eng, a, b, Shown(eng, disk, locked), attempted)
    ensures Injective(eng) && Faithful(eng, a) ==> AllRight(eng, calm, b, disk, failed)
  {
    hide *;
    var shown := Shown(eng, disk, locked);
    PreparedParts(eng, a, walked, shown, start);
    SparedFingerprint(walked, b, attempted);
    CataloguedKept(eng, a, walked, b, shown, start);
    CataloguedLive(eng, a, b, disk, locked, start);
    LedgerCounts(eng, calm, b, disk, attempted, failed, count);
    StaleWereAttempted(eng, a, walked, b, shown, start, attempted);
    if Injective(eng) && Faithful(eng, a) {
      LiveFilesAreRight(eng, calm, a, b, disk, locked, start, attempted, failed, count);
    }
  }

  lemma LedgerCounts(eng: Engine, calm: bool, db: DB, disk: map<Path, Text>, attempted: set<int>, failed: set<int>,
                     count: nat)
    requires Ledger(eng, calm, db, disk, attempted, failed, count)
    ensures failed <= attempted && |failed| == count <= |attempted|
  {
    hide Accounted;
    SubsetSize(failed, attempted);
  }

  lemma PassesStage(eng: Engine, cleared: DB, built: DB, chunked: DB, tx: DB, f: int, path: Path, c: Text,
                    syms: seq<Symbol>, ns: seq<int>, cs: seq<int>, chunks: seq<PendingChunk>)
    requires Cleared(cleared, f) && InRange(c, syms)
    requires built == cleared.(nodes := built.nodes, state := cleared.state[(f, Structural) := DONE])
    requires NodesAdded(cleared.nodes, built.nodes, f, NodeSpecs(eng, path, c, syms), ns)
    requires chunked == built.(chunks := chunked.chunks, state := built.state[(f, Chunker) := DONE])
    requires ChunksAdded(built.chunks, chunked.chunks, ChunkSpecs(eng, path, c, syms), ns, cs)
    requires Pairs(chunks, ChunkSpecs(eng, path, c, syms), cs)
    requires tx ==
        chunked.(vectors := PutVectors(chunked.vectors, eng.embed, chunks),
                 state := chunked.state[(f, Embeddings) := DONE])
    ensures Staged(cleared, tx, f, eng, FileIndex(NodeSpecs(eng, path, c, syms), ChunkSpecs(eng, path, c, syms)), ns,
                   cs)
    ensures tx.state == MarkAll(cleared, f, Done, None).state
  {
    hide NodeSpecs, ChunkSpecs, NodesAdded;
    var specs := ChunkSpecs(eng, path, c, syms);
    assert cleared.vectors.Keys == cleared.chunks.Keys && Distinct(cs);
    forall j | 0 <= j < |cs|
      ensures cs[j] !in cleared.vectors
    {
      assert cs[j] !in cleared.chunks.Keys;
    }
    hide ChunksAdded, Distinct;
    PutVectorsRows(cleared.vectors, eng.embed, chunks, specs, cs);
  }

  /** The finished transaction of a pending file is a legal commit, and settles the file. */
  lemma FinishedTransaction(eng: Engine, db: DB, cleared: DB, tx: DB, f: int, c: Text, syms: seq<Symbol>, ns: seq<int>,
                            cs: seq<int>)
    requires Tidy(db) && IsPending(db, f) && Records(eng, db.files[f], c) && db.fingerprint == Some(eng.fp)
    requires Judge(eng, db.files[f].path, c) == Process && cleared == Clear(db, f)
    requires SymbolsOf(eng, db.files[f].path, c) == Some(syms) && InRange(c, syms)
    requires FitsSpecs(eng.embed, ChunkSpecs(eng, db.files[f].path, c, syms))
    requires Staged(cleared, tx, f, eng,
                    FileIndex(NodeSpecs(eng, db.files[f].path, c, syms), ChunkSpecs(eng, db.files[f].path, c, syms)),
                      ns, cs)
    requires tx.state == MarkAll(cleared, f, Done, None).state
    ensures Next(eng, db, tx, FileIndexed(f, c, ns, cs)) && Committed(eng, db, tx, f, db.files[f].path, c)
  {
    hide Clear, Judge, Records, SymbolsOf, ChunkSpecs, NodeSpecs, NodesAdded, ChunksAdded, Tidy, Indexable, Build,
      MarkAll, FitsSpecs, Indexed, Committed;
    PartsAreIndexable(eng, db.files[f].path, c, syms);
    StagedIsIndexed(eng, db, tx, f, c, ns, cs);
    IndexedCommits(eng, db, tx, f, c, ns, cs);
  }

  lemma PartsAreIndexable(eng: Engine, path: Path, c: Text, syms: seq<Symbol>)
    requires Judge(eng, path, c) == Process && SymbolsOf(eng, path, c) == Some(syms) && InRange(c, syms)
    requires FitsSpecs(eng.embed, ChunkSpecs(eng, path, c, syms))
    ensures Indexable(eng, path, c)
    ensures Build(eng, path, c) == FileIndex(NodeSpecs(eng, path, c, syms), ChunkSpecs(eng, path, c, syms))
  {
    hide ChunkSpecs, NodeSpecs, Judge;
  }

  ghost predicate Fits(embed: Text -> Vector, batch: seq<PendingChunk>) {
    forall j :: 0 <= j < |batch| ==> |embed(batch[j].text)| == DIMENSION
  }

  lemma PairsFit(embed: Text -> Vector, batch: seq<PendingChunk>, specs: seq<ChunkSpec>, cs: seq<int>)
    requires Pairs(batch, specs, cs)
    ensures Fits(embed, batch) <==> FitsSpecs(embed, specs)
  {
    assert forall j :: 0 <= j < |specs| ==> batch[j] == PendingChunk(cs[j], specs[j].text);
    if Fits(embed, batch) {
      forall j | 0 <= j < |specs|
        ensures |embed(specs[j].text)| == DIMENSION
      {
        assert batch[j].text == specs[j].text;
      }
    }
  }

  lemma FitsJoin(embed: Text -> Vector, a: seq<PendingChunk>, b: seq<PendingChunk>)
    ensures Fits(embed, a + b) <==> Fits(embed, a) && Fits(embed, b)
  {
    if Fits(embed, a + b) {
      assert forall j :: 0 <= j < |a| ==> (a + b)[j] == a[j];
      assert forall j :: 0 <= j < |b| ==> (a + b)[|a| + j] == b[j];
    }
  }

  lemma FitsSlice(embed: Text -> Vector, chunks: seq<PendingChunk>, i: nat, j: nat)
    requires i <= j <= |chunks| && Fits(embed, chunks)
    ensures Fits(embed, chunks[i..j])
  {
  }

  /** The first `sent` chunks are embedded and written. */
  ghost predicate Sent(running: DB, after: DB, embed: Text -> Vector, chunks: seq<PendingChunk>, sent: nat) {
    && sent <= |chunks| && Fits(embed, chunks[..sent])
    && after == running.(vectors := PutVectors(running.vectors, embed, chunks[..sent]))
  }

  lemma NothingSent(running: DB, embed: Text -> Vector, chunks: seq<PendingChunk>)
    ensures Sent(running, running, embed, chunks, 0)
  {
  }

  lemma SentMore(running: DB, before: DB, after: DB, embed: Text -> Vector, chunks: seq<PendingChunk>, sent: nat,
                 j: nat)
    requires Sent(running, before, embed, chunks, sent) && sent <= j <= |chunks| && Fits(embed, chunks[sent..j])
    requires after == before.(vectors := PutVectors(before.vectors, embed, chunks[sent..j]))
    ensures Sent(running, after, embed, chunks, j)
  {
    hide PutVectors, Fits;
    BatchesJoin(running.vectors, embed, chunks[..sent], chunks[sent..j]);
    FitsJoin(embed, chunks[..sent], chunks[sent..j]);
    assert chunks[..sent] + chunks[sent..j] == chunks[..j];
  }

  lemma SentAll(tx: DB, running: DB, sent: DB, after: DB, embed: Text -> Vector, chunks: seq<PendingChunk>, f: int)
    requires running == Mark(tx, f, Embeddings, Running, None) && Sent(running, sent, embed, chunks, |chunks|)
    requires after == Mark(sent, f, Embeddings, Done, None)
    ensures after == tx.(vectors := PutVectors(tx.vectors, embed, chunks), state := tx.state[(f, Embeddings) := DONE])
    ensures Fits(embed, chunks)
  {
    hide PutVectors, Fits;
    assert chunks[..|chunks|] == chunks;
  }

  /** The node every chunk of a symbol, or of a file without symbols, hangs on. */
  ghost predicate NodeIds(syms: seq<Symbol>, symNodes: map<Symbol, int>, fileNode: int, ns: seq<int>) {
    if syms == [] then ns == [fileNode] else SymbolIds(syms, symNodes, ns)
  }

  lemma NoSymbolsInRange(c: Text, syms: seq<Symbol>)
    requires syms == []
    ensures InRange(c, syms)
  {
  }

  lemma AddPair(out: seq<PendingChunk>, specs: seq<ChunkSpec>, cs: seq<int>, id: int, spec: ChunkSpec)
    requires Pairs(out, specs, cs)
    ensures Pairs(out + [PendingChunk(id, spec.text)], specs + [spec], cs + [id])
  {
  }

  lemma RunGrows(eng: Engine, dbs: seq<DB>, events: seq<Event>, next: DB, e: Event)
    requires RunOf(eng, dbs, events) && Next(eng, dbs[|events|], next, e)
    ensures RunOf(eng, dbs + [next], events + [e])
  {
    hide Next;
    forall i | 0 <= i < |events| + 1
      ensures Next(eng, (dbs + [next])[i], (dbs + [next])[i + 1], (events + [e])[i])
    {
      if i < |events| { assert Next(eng, dbs[i], dbs[i + 1], events[i]); }
    }
  }

  lemma RecordsClass(eng: Engine, row: FileRow, c: Text)
    requires Records(eng, row, c)
    ensures row.cls == eng.classify(row.path, c).1 && row.mime == eng.classify(row.path, c).0
    ensures row.size == |c| && row.sha == eng.hash(c)
  {
  }

  /** symNodes maps every symbol to the node of its last occurrence. */
  ghost predicate SymbolIds(syms: seq<Symbol>, symNodes: map<Symbol, int>, ns: seq<int>) {
    |ns| == |syms| && forall s :: s in syms ==> s in symNodes && symNodes[s] == ns[LastIndex(syms, s)]
  }

  lemma AddSymbolId(syms: seq<Symbol>, symNodes: map<Symbol, int>, ns: seq<int>, s: Symbol, id: int)
    requires |ns| == |syms| && SymbolIds(syms, symNodes, ns)
    ensures SymbolIds(syms + [s], symNodes[s := id], ns + [id])
  {
    var all := syms + [s];
    forall t | t in all
      ensures t in symNodes[s := id] && symNodes[s := id][t] == (ns + [id])[LastIndex(all, t)]
    {
      assert all[..|all| - 1] == syms;
    }
  }

  /** Marking a pass running, inserting nodes and marking it done leaves the nodes and one status row. */
  lemma StructuralMarks(tx: DB, running: DB, inserted: DB, after: DB, f: int)
    requires running == Mark(tx, f, Structural, Running, None) && inserted == running.(nodes := inserted.nodes)
    requires after == Mark(inserted, f, Structural, Done, None)
    ensures after == tx.(nodes := inserted.nodes, state := tx.state[(f, Structural) := DONE])
    ensures running.nodes == tx.nodes && after.nodes == inserted.nodes
  {
  }

  lemma ChunkerMarks(tx: DB, running: DB, inserted: DB, after: DB, f: int)
    requires running == Mark(tx, f, Chunker, Running, None) && inserted == running.(chunks := inserted.chunks)
    requires after == Mark(inserted, f, Chunker, Done, None)
    ensures after == tx.(chunks := inserted.chunks, state := tx.state[(f, Chunker) := DONE])
    ensures running.chunks == tx.chunks && after.chunks == inserted.chunks
  {
  }

  lemma OneNode(nodes: map<int, NodeRow>, f: int, spec: NodeSpec, id: int)
    requires id !in nodes
    ensures NodesAdded(nodes, nodes[id := NodeRow(f, spec.name, spec.kind)], f, [spec], [id])
  {
    AddNode(nodes, nodes, f, [], [], id, spec);
    assert [] + [spec] == [spec] && [] + [id] == [id];
  }

  lemma FileNodeSpec(eng: Engine, path: Path, c: Text)
    ensures NodeSpecs(eng, path, c, []) == [NodeSpec(eng.baseName(path), FileNode(eng.classify(path, c).0))]
  {
  }

  // ---------------------------------------------------------------- what the runs add up to

  /** Every state a runner ever commits is tidy and faithful, if the one it started from was. */
  lemma HistoryStaysFaithful(eng: Engine, dbs: seq<DB>, events: seq<Event>, i: nat)
    requires RunOf(eng, dbs, events) && Tidy(dbs[0]) && Faithful(eng, dbs[0]) && Injective(eng) && i < |dbs|
    ensures Tidy(dbs[i]) && Faithful(eng, dbs[i])
  {
    hide Tidy, Faithful, Injective, RunOf;
    RunOfIsRun(eng, dbs, events);
    EveryStateTidy(dbs, events, seq(|events|, k => eng), i);
    EveryStateFaithful(eng, dbs, events, seq(|events|, k => eng), i);
  }

  /**
   Two completed runs over one disk, whatever came before each of them, leave the same index for
   every path they both settled: done in both or in neither, with rows of one and the same index.
   */
  lemma CompletedRunsAgree(eng: Engine, disk: map<Path, Text>, a: DB, f: int, b: DB, g: int)
    requires Injective(eng) && Faithful(eng, a) && Faithful(eng, b) && OnDisk(eng, a, disk) && OnDisk(eng, b, disk)
    requires Live(a, f) && Live(b, g) && a.files[f].path == b.files[g].path && Settled(a, f) && Settled(b, g)
    ensures HasStatus(a, f, Embeddings, Done) <==> HasStatus(b, g, Embeddings, Done)
    ensures HasStatus(a, f, Embeddings, Done) ==>
              exists idx, ns, cs, ms, ds :: Realizes(a, f, eng, idx, ns, cs) && Realizes(b, g, eng, idx, ms, ds)
  {
    hide Faithful, Injective, OnDisk, Realizes, Settled, Records;
    LiveOnDisk(eng, a, disk, f);
    LiveOnDisk(eng, b, disk, g);
    RecordsClass(eng, a.files[f], disk[a.files[f].path]);
    RecordsClass(eng, b.files[g], disk[b.files[g].path]);
    IncrementalEqualsRebuild(eng, a, f, b, g);
  }

  /** A done file has all three passes done, carries no failed row, and each of its chunks is embedded. */
  lemma DoneFileIsWhole(db: DB, f: int)
    requires Tidy(db) && HasStatus(db, f, Embeddings, Done)
    ensures forall p :: (f, p) in db.state ==> db.state[(f, p)] == StateRow(Done, db.state[(f, p)].error)
    ensures forall c :: OwnsChunk(db, f, c) ==> c in db.vectors
  {
    assert TidyFile(db, f);
    forall p | (f, p) in db.state
      ensures db.state[(f, p)].status == Done
    {
      match p case NoPass => case Structural => case Chunker => case Embeddings =>
    }
    forall c | OwnsChunk(db, f, c)
      ensures c in db.vectors
    {
      assert c in db.chunks.Keys;
    }
  }
}
