/**
 Safety over whole runs: in every committed state a done file carries exactly what a
 from-scratch pass over its recorded content would make, and vectors of two fingerprints never mix.
 */
module Safety {
  import opened Bytes
  import opened Store
  import opened Indexing
  import opened History

  // ---------------------------------------------------------------- incremental equals rebuild

  ghost predicate Recorded(eng: Engine, db: DB, f: int)
    requires f in db.files
  {
    exists c :: Records(eng, db.files[f], c)
  }

  /** The rows of `f` are those a from-scratch pass over content `c` makes. */
  ghost predicate Rebuilt(eng: Engine, db: DB, f: int, c: Text, ns: seq<int>, cs: seq<int>)
    requires f in db.files
  {
    && Records(eng, db.files[f], c) && Indexable(eng, db.files[f].path, c)
    && Realizes(db, f, eng, Build(eng, db.files[f].path, c), ns, cs)
  }

  ghost predicate RightlySkipped(eng: Engine, db: DB, f: int)
    requires f in db.files
  {
    exists c :: Records(eng, db.files[f], c) && Judge(eng, db.files[f].path, c).Skip?
  }

  ghost predicate FaithfulFile(eng: Engine, db: DB, f: int)
    requires f in db.files
  {
    && Recorded(eng, db, f)
    && (HasStatus(db, f, Embeddings, Done) ==> exists c, ns, cs :: Rebuilt(eng, db, f, c, ns, cs))
    && (HasStatus(db, f, Embeddings, Skipped) ==> RightlySkipped(eng, db, f))
  }

  ghost predicate Faithful(eng: Engine, db: DB) {
    forall f :: f in db.files ==> FaithfulFile(eng, db, f)
  }

  /** A file keeps its chunk rows and vectors whatever happens to another file. */
  lemma OthersKeepChunks(a: DB, b: DB, f: int, g: int, c: int)
    requires Linked(a) && Linked(b) && g != f && AgreeElsewhere(a, b, f)
    ensures OwnsChunk(a, g, c) <==> OwnsChunk(b, g, c)
    ensures OwnsChunk(a, g, c) ==> c in b.chunks && a.chunks[c] == b.chunks[c]
    ensures OwnsChunk(a, g, c) && c in a.vectors ==> c in b.vectors && a.vectors[c] == b.vectors[c]
  {
    OthersKeepRows(a, b, f, g);
    ClearTables(a, f);
    ClearTables(b, f);
    hide Clear;
    assert OwnsChunk(a, g, c) ==> c in Clear(a, f).chunks;
    assert OwnsChunk(b, g, c) ==> c in Clear(b, f).chunks;
    assert OwnsChunk(a, g, c) && c in a.vectors ==> c in Clear(a, f).vectors;
  }

  lemma NodesKept(a: DB, b: DB, g: int, specs: seq<NodeSpec>, ns: seq<int>)
    requires HasNodes(a, g, specs, ns)
    requires forall n :: OwnsNode(a, g, n) <==> OwnsNode(b, g, n)
    requires forall n :: OwnsNode(a, g, n) && n in b.nodes ==> a.nodes[n] == b.nodes[n]
    ensures HasNodes(b, g, specs, ns)
  {
    forall i | 0 <= i < |ns|
      ensures ns[i] in b.nodes && a.nodes[ns[i]] == b.nodes[ns[i]]
    {
      assert OwnsNode(a, g, ns[i]) && OwnsNode(b, g, ns[i]);
    }
  }

  lemma ChunksKept(a: DB, b: DB, g: int, eng: Engine, specs: seq<ChunkSpec>, ns: seq<int>, cs: seq<int>)
    requires HasChunks(a, g, specs, ns, cs) && HasVectors(a, eng, specs, cs, |cs|)
    requires forall c :: OwnsChunk(a, g, c) <==> OwnsChunk(b, g, c)
    requires forall c :: OwnsChunk(a, g, c) && c in b.chunks ==> a.chunks[c] == b.chunks[c]
    requires forall c :: OwnsChunk(a, g, c) && c in a.vectors ==> c in b.vectors && a.vectors[c] == b.vectors[c]
    ensures HasChunks(b, g, specs, ns, cs) && HasVectors(b, eng, specs, cs, |cs|)
  {
    forall j | 0 <= j < |cs|
      ensures cs[j] in b.chunks && a.chunks[cs[j]] == b.chunks[cs[j]]
      ensures cs[j] in b.vectors && a.vectors[cs[j]] == b.vectors[cs[j]]
    {
      assert OwnsChunk(a, g, cs[j]) && OwnsChunk(b, g, cs[j]);
    }
  }

  lemma OthersKeepIndex(a: DB, b: DB, f: int, g: int, eng: Engine, idx: FileIndex, ns: seq<int>, cs: seq<int>)
    requires Linked(a) && Linked(b) && g != f && AgreeElsewhere(a, b, f)
    requires Realizes(a, g, eng, idx, ns, cs)
    ensures Realizes(b, g, eng, idx, ns, cs)
  {
    hide Clear, Linked, HasNodes, HasChunks, HasVectors, OwnsNode, OwnsChunk;
    OthersKeepRows(a, b, f, g);
    NodesKept(a, b, g, idx.nodes, ns);
    forall c { OthersKeepChunks(a, b, f, g, c); }
    ChunksKept(a, b, g, eng, idx.chunks, ns, cs);
  }

  /** A file whose row, statuses and rows are untouched is as faithful as before. */
  lemma UntouchedStaysFaithful(eng: Engine, a: DB, b: DB, f: int, g: int)
    requires Linked(a) && Linked(b) && g != f && AgreeElsewhere(a, b, f)
    requires g in a.files && g in b.files && a.files[g] == b.files[g] && FaithfulFile(eng, a, g)
    ensures FaithfulFile(eng, b, g)
  {
    OthersKeepRows(a, b, f, g);
    hide Clear, Records, Indexable, Build, Realizes, HasStatus, Judge;
    assert Recorded(eng, b, g) by { assert Recorded(eng, a, g); }
    assert HasStatus(a, g, Embeddings, Skipped) <==> HasStatus(b, g, Embeddings, Skipped);
    assert HasStatus(a, g, Embeddings, Done) <==> HasStatus(b, g, Embeddings, Done);
    if HasStatus(b, g, Embeddings, Done) {
      var c, ns, cs :| Rebuilt(eng, a, g, c, ns, cs);
      OthersKeepIndex(a, b, f, g, eng, Build(eng, a.files[g].path, c), ns, cs);
      assert Rebuilt(eng, b, g, c, ns, cs);
    }
    if HasStatus(b, g, Embeddings, Skipped) {
      var c :| Records(eng, a.files[g], c) && Judge(eng, a.files[g].path, c).Skip?;
      assert Records(eng, b.files[g], c);
    }
  }

  lemma OneFileChanged(eng: Engine, a: DB, b: DB, f: int)
    requires Faithful(eng, a) && Linked(a) && Linked(b) && AgreeElsewhere(a, b, f)
    requires b.files.Keys == a.files.Keys + {f} && forall g :: g in a.files && g != f ==> a.files[g] == b.files[g]
    requires FaithfulFile(eng, b, f)
    ensures Faithful(eng, b)
  {
    hide AgreeElsewhere, Linked, FaithfulFile;
    forall g | g in b.files
      ensures FaithfulFile(eng, b, g)
    {
      if g != f {
        assert g in a.files && FaithfulFile(eng, a, g);
        UntouchedStaysFaithful(eng, a, b, f, g);
      }
    }
  }

  /** A file that is neither done nor skipped is faithful as soon as its row records some content. */
  lemma UnfinishedIsFaithful(eng: Engine, db: DB, f: int)
    requires f in db.files && Recorded(eng, db, f)
    requires !HasStatus(db, f, Embeddings, Done) && !HasStatus(db, f, Embeddings, Skipped)
    ensures FaithfulFile(eng, db, f)
  {
  }

  /** The same content again: the walker's row says what it said before. */
  lemma SameShaStaysFaithful(eng: Engine, a: DB, b: DB, s: Seen, id: int, now: int)
    requires Injective(eng) && id in a.files && FaithfulFile(eng, a, id) && Honest(eng, s)
    requires a.files[id].path == s.path && a.files[id].sha == s.sha
    requires b == a.(files := a.files[id := FileRow(s.path, s.sha, s.size, s.mime, s.cls, now, None)])
    ensures FaithfulFile(eng, b, id)
  {
    var c :| Records(eng, a.files[id], c);
    var d :| s == SeenOf(eng, s.path, d);
    assert eng.hash(c) == eng.hash(d);
    assert c == d;
    assert Records(eng, b.files[id], c);
    hide SeenOf, Indexable, Build, Judge;
    assert Recorded(eng, b, id);
    if HasStatus(b, id, Embeddings, Done) {
      assert HasStatus(a, id, Embeddings, Done);
      var e, ns, cs :| Rebuilt(eng, a, id, e, ns, cs);
      assert e == c by { SameRecord(eng, a.files[id], c, e); }
      RealizesIgnoresFiles(a, b, id, eng, Build(eng, s.path, c), ns, cs);
      assert Rebuilt(eng, b, id, c, ns, cs);
    }
    if HasStatus(b, id, Embeddings, Skipped) {
      assert HasStatus(a, id, Embeddings, Skipped);
      var e :| Records(eng, a.files[id], e) && Judge(eng, a.files[id].path, e).Skip?;
      assert e == c by { SameRecord(eng, a.files[id], c, e); }
      assert RightlySkipped(eng, b, id);
    }
  }

  lemma SameRecord(eng: Engine, row: FileRow, c: Text, d: Text)
    requires Injective(eng) && Records(eng, row, c) && Records(eng, row, d)
    ensures c == d
  {
    assert eng.hash(c) == eng.hash(d);
  }

  lemma RealizesIgnoresFiles(a: DB, b: DB, f: int, eng: Engine, idx: FileIndex, ns: seq<int>, cs: seq<int>)
    requires Realizes(a, f, eng, idx, ns, cs)
    requires b.nodes == a.nodes && b.chunks == a.chunks && b.vectors == a.vectors
    ensures Realizes(b, f, eng, idx, ns, cs)
  {
    hide Distinct;
    assert forall n :: OwnsNode(a, f, n) <==> OwnsNode(b, f, n);
    assert forall c :: OwnsChunk(a, f, c) <==> OwnsChunk(b, f, c);
  }

  // ---------------------------------------------------------------- every commit

  /** Clearing a file that has no rows changes nothing. */
  lemma ClearNothing(x: DB, f: int)
    requires forall n :: n in x.nodes ==> x.nodes[n].file != f
    requires forall k :: k in x.state ==> k.0 != f
    ensures Clear(x, f) == x
  {
    var y := Clear(x, f);
    assert y.nodes == x.nodes;
    assert y.chunks == x.chunks;
    assert y.vectors == x.vectors;
    assert y.state == x.state;
  }

  lemma ClearAgrees(db: DB, f: int)
    ensures AgreeElsewhere(db, Clear(db, f), f)
  {
    ClearTables(db, f);
    hide Clear;
    ClearNothing(Clear(db, f), f);
  }

  lemma AgreeIgnoresFiles(a: DB, b: DB, r: DB, f: int)
    requires AgreeElsewhere(a, b, f)
    requires r.state == b.state && r.nodes == b.nodes && r.chunks == b.chunks && r.vectors == b.vectors
    ensures AgreeElsewhere(a, r, f)
  {
    ClearTables(b, f);
    ClearTables(r, f);
    assert Clear(r, f).state == Clear(b, f).state;
    assert Clear(r, f).nodes == Clear(b, f).nodes;
    assert Clear(r, f).chunks == Clear(b, f).chunks;
    assert Clear(r, f).vectors == Clear(b, f).vectors;
  }

  lemma MarkAgrees(db: DB, f: int, p: Pass, s: Status, error: Option<string>)
    ensures AgreeElsewhere(db, Mark(db, f, p, s, error), f)
  {
    hide Clear;
    var r := Mark(db, f, p, s, error);
    var x, y := Clear(db, f), Clear(r, f);
    ClearIgnoresState(db, r, f);
    ClearTables(db, f);
    ClearTables(r, f);
    assert y.state.Keys == x.state.Keys && y.state == x.state;
  }

  lemma ClearIgnoresState(a: DB, b: DB, f: int)
    requires b == a.(state := b.state)
    ensures Clear(b, f) == Clear(a, f).(state := Clear(b, f).state)
  {
    var x, y := DropVectors(a, f), DropVectors(b, f);
    assert x.vectors == y.vectors;
    assert DropNodes(DropState(x, f), f).nodes == DropNodes(DropState(y, f), f).nodes;
    assert DropNodes(DropState(x, f), f).chunks == DropNodes(DropState(y, f), f).chunks;
  }

  lemma AgreeTrans(a: DB, b: DB, c: DB, f: int)
    requires AgreeElsewhere(a, b, f) && AgreeElsewhere(b, c, f)
    ensures AgreeElsewhere(a, c, f)
  {
  }

  lemma MarkAllAgrees(db: DB, f: int, s: Status, error: Option<string>)
    ensures AgreeElsewhere(db, MarkAll(db, f, s, error), f)
  {
    hide AgreeElsewhere;
    var one := Mark(db, f, Structural, s, error);
    var two := Mark(one, f, Chunker, s, error);
    MarkAgrees(db, f, Structural, s, error);
    MarkAgrees(one, f, Chunker, s, error);
    MarkAgrees(two, f, Embeddings, s, error);
    AgreeTrans(db, one, two, f);
    AgreeTrans(db, two, MarkAll(db, f, s, error), f);
  }

  lemma UpsertStaysFaithful(eng: Engine, db: DB, s: Seen, id: int, now: int)
    requires Injective(eng) && Faithful(eng, db) && Tidy(db) && Resolves(db, s.path, id) && Honest(eng, s)
    ensures Faithful(eng, Upsert(db, s, id, now))
  {
    var b := Upsert(db, s, id, now);
    UpsertKeepsTidy(db, s, id, now);
    ClearTables(db, id);
    ClearAgrees(db, id);
    ClearKeepsTidy(db, id);
    assert AgreeElsewhere(db, db, id);
    if id in db.files && db.files[id].sha == s.sha {
      SameShaStaysFaithful(eng, db, b, s, id, now);
      AgreeIgnoresFiles(db, db, b, id);
    } else {
      hide Clear, AgreeElsewhere;
      var base := if id in db.files then Clear(db, id) else db;
      AgreeIgnoresFiles(db, base, b, id);
      var c :| s == SeenOf(eng, s.path, c);
      assert Records(eng, b.files[id], c);
      UnfinishedIsFaithful(eng, b, id);
    }
    OneFileChanged(eng, db, b, id);
  }

  lemma {:induction false} UpsertAllStaysFaithful(eng: Engine, db: DB, batch: seq<Seen>, ids: seq<int>, now: int)
    requires Injective(eng) && Faithful(eng, db) && Tidy(db) && |ids| == |batch| && ResolvesAll(db, batch, ids, now)
    requires forall i :: 0 <= i < |batch| ==> Honest(eng, batch[i])
    ensures Faithful(eng, UpsertAll(db, batch, ids, now))
  {
    hide Tidy, Upsert, Resolves, Faithful, Honest;
    if batch != [] {
      var n := |batch| - 1;
      UpsertAllStaysFaithful(eng, db, batch[..n], ids[..n], now);
      UpsertAllKeepsTidy(db, batch[..n], ids[..n], now);
      UpsertStaysFaithful(eng, UpsertAll(db, batch[..n], ids[..n], now), batch[n], ids[n], now);
    }
  }

  /** Rewriting a row without touching what it records. */
  lemma RelabelledStaysFaithful(eng: Engine, a: DB, b: DB, f: int)
    requires f in a.files && f in b.files && FaithfulFile(eng, a, f)
    requires forall c :: Records(eng, a.files[f], c) ==> Records(eng, b.files[f], c)
    requires a.files[f].path == b.files[f].path
    requires b.state == a.state && b.nodes == a.nodes && b.chunks == a.chunks && b.vectors == a.vectors
    ensures FaithfulFile(eng, b, f)
  {
    hide Records, Build, Judge, Realizes;
    assert Recorded(eng, b, f) by { var c :| Records(eng, a.files[f], c); assert Records(eng, b.files[f], c); }
    assert HasStatus(a, f, Embeddings, Done) == HasStatus(b, f, Embeddings, Done);
    if HasStatus(b, f, Embeddings, Done) {
      var c, ns, cs :| Rebuilt(eng, a, f, c, ns, cs);
      RealizesIgnoresFiles(a, b, f, eng, Build(eng, a.files[f].path, c), ns, cs);
      assert Rebuilt(eng, b, f, c, ns, cs);
    }
    assert HasStatus(a, f, Embeddings, Skipped) == HasStatus(b, f, Embeddings, Skipped);
    if HasStatus(b, f, Embeddings, Skipped) {
      var c :| Records(eng, a.files[f], c) && Judge(eng, a.files[f].path, c).Skip?;
      assert Records(eng, b.files[f], c);
    }
  }

  lemma ReconcileStaysFaithful(eng: Engine, db: DB, start: int)
    requires Faithful(eng, db)
    ensures Faithful(eng, Reconcile(db, start))
  {
    hide FaithfulFile;
    var b := Reconcile(db, start);
    forall f | f in b.files
      ensures FaithfulFile(eng, b, f)
    {
      assert f in db.files && FaithfulFile(eng, db, f);
      RelabelledStaysFaithful(eng, db, b, f);
    }
  }

  lemma FingerprintStaysFaithful(eng: Engine, db: DB, fp: Option<Fingerprint>)
    requires Faithful(eng, db)
    ensures Faithful(eng, db.(fingerprint := fp))
  {
    hide FaithfulFile;
    var b := db.(fingerprint := fp);
    forall f | f in b.files
      ensures FaithfulFile(eng, b, f)
    {
      assert FaithfulFile(eng, db, f);
      RelabelledStaysFaithful(eng, db, b, f);
    }
  }

  lemma IndexedStaysFaithful(eng: Engine, a: DB, b: DB, f: int, c: Text, ns: seq<int>, cs: seq<int>)
    requires Faithful(eng, a) && Tidy(a) && Indexed(eng, a, b, f, c, ns, cs)
    ensures Faithful(eng, b)
  {
    IndexedKeepsTidy(eng, a, b, f, c, ns, cs);
    hide AgreeElsewhere, Records, Indexable, Build, Realizes, TidyFile, Linked;
    assert Rebuilt(eng, b, f, c, ns, cs);
    assert Recorded(eng, b, f);
    assert (f, Embeddings) in b.state && b.state[(f, Embeddings)] == DONE;
    assert FaithfulFile(eng, b, f);
    hide Clear, FaithfulFile, Faithful;
    OneFileChanged(eng, a, b, f);
  }

  lemma SkippedStaysFaithful(eng: Engine, a: DB, f: int, c: Text, why: Option<string>)
    requires Faithful(eng, a) && Tidy(a) && f in a.files && !HasStatus(a, f, Embeddings, Done)
    requires Records(eng, a.files[f], c) && Judge(eng, a.files[f].path, c) == Skip(why)
    ensures Faithful(eng, MarkAll(Clear(a, f), f, Skipped, why))
  {
    var base := Clear(a, f);
    var b := MarkAll(base, f, Skipped, why);
    ClearTables(a, f);
    ClearKeepsTidy(a, f);
    ClearAgrees(a, f);
    MarkAllAgrees(base, f, Skipped, why);
    SkipKeepsTidy(base, f, why);
    hide Clear, AgreeElsewhere, Records, Judge, TidyFile;
    AgreeTrans(a, base, b, f);
    assert RightlySkipped(eng, b, f);
    assert FaithfulFile(eng, b, f);
    OneFileChanged(eng, a, b, f);
  }

  lemma FailedStaysFaithful(eng: Engine, a: DB, f: int, p: Pass, error: string)
    requires Faithful(eng, a) && Tidy(a) && f in a.files && !HasStatus(a, f, Embeddings, Done) && p != NoPass
    ensures Faithful(eng, Mark(a, f, p, Failed, Some(error)))
  {
    var b := Mark(a, f, p, Failed, Some(error));
    MarkAgrees(a, f, p, Failed, Some(error));
    MarkKeepsTidy(a, f, p, Failed, Some(error));
    hide Clear, AgreeElsewhere, Records, Judge, TidyFile;
    assert FaithfulFile(eng, a, f);
    assert Recorded(eng, b, f) && !HasStatus(b, f, Embeddings, Done);
    assert HasStatus(b, f, Embeddings, Skipped) ==> HasStatus(a, f, Embeddings, Skipped);
    assert FaithfulFile(eng, b, f);
    OneFileChanged(eng, a, b, f);
  }

  lemma NextStaysFaithful(eng: Engine, a: DB, b: DB, e: Event)
    requires Injective(eng) && Faithful(eng, a) && Tidy(a) && Next(eng, a, b, e)
    ensures Faithful(eng, b)
  {
    hide Tidy, Faithful, Clear, UpsertAll, ResolvesAll, Reconcile, MarkAll, Mark, Indexed, Injective, Records, Judge,
      Honest;
    match e
    case Walked(batch, ids, now) => UpsertAllStaysFaithful(eng, a, batch, ids, now);
    case Reconciled(start) => ReconcileStaysFaithful(eng, a, start);
    case Fingerprinted => FingerprintStaysFaithful(eng, a, Some(eng.fp));
    case FileIndexed(f, c, ns, cs) => IndexedStaysFaithful(eng, a, b, f, c, ns, cs);
    case FileSkipped(f, c, why) => SkippedStaysFaithful(eng, a, f, c, why);
    case FileFailed(f, p, error) => FailedStaysFaithful(eng, a, f, p, error);
  }

  // ---------------------------------------------------------------- every run

  /** A fresh index is where every run may start. */
  lemma EmptyIsTidy(eng: Engine)
    ensures Tidy(EMPTY) && Faithful(eng, EMPTY)
  {
    forall f
      ensures TidyFile(EMPTY, f)
    {
    }
  }

  /** Referential integrity in every committed state, whatever engines took turns. */
  lemma {:induction false} EveryStateTidy(dbs: seq<DB>, events: seq<Event>, engs: seq<Engine>, i: nat)
    requires IsRun(dbs, events, engs) && Tidy(dbs[0]) && i < |dbs|
    ensures Tidy(dbs[i])
    decreases i
  {
    hide Tidy, Next;
    if i > 0 {
      EveryStateTidy(dbs, events, engs, i - 1);
      NextKeepsTidy(engs[i - 1], dbs[i - 1], dbs[i - 1 + 1], events[i - 1]);
    }
  }

  /** Incremental equals rebuild: with one engine, every file of every committed state is faithful. */
  lemma {:induction false} EveryStateFaithful(eng: Engine, dbs: seq<DB>, events: seq<Event>, engs: seq<Engine>, i: nat)
    requires IsRun(dbs, events, engs) && Tidy(dbs[0]) && Faithful(eng, dbs[0]) && Injective(eng) && i < |dbs|
    requires forall k :: 0 <= k < |engs| ==> engs[k] == eng
    ensures Faithful(eng, dbs[i])
    decreases i
  {
    hide Tidy, Next, Faithful, Injective;
    if i > 0 {
      EveryStateTidy(dbs, events, engs, i - 1);
      EveryStateFaithful(eng, dbs, events, engs, i - 1);
      NextStaysFaithful(engs[i - 1], dbs[i - 1], dbs[i - 1 + 1], events[i - 1]);
    }
  }

  // ---------------------------------------------------------------- two databases over the same files

  /** Every attempt at `f` settled: it was indexed or skipped, and did not fail. */
  predicate Settled(db: DB, f: int) {
    || HasStatus(db, f, Embeddings, Done)
    || (HasStatus(db, f, Structural, Skipped) && HasStatus(db, f, Chunker, Skipped)
      && HasStatus(db, f, Embeddings, Skipped))
  }

  /**
   However the two databases came about, a settled file with the same path and sha256 in both is
   done in both or in neither, and where done its rows realize one and the same index.
   */
  lemma IncrementalEqualsRebuild(eng: Engine, a: DB, f: int, b: DB, g: int)
    requires Injective(eng) && Faithful(eng, a) && Faithful(eng, b)
    requires f in a.files && g in b.files && a.files[f].path == b.files[g].path && a.files[f].sha == b.files[g].sha
    requires Settled(a, f) && Settled(b, g)
    ensures HasStatus(a, f, Embeddings, Done) <==> HasStatus(b, g, Embeddings, Done)
    ensures HasStatus(a, f, Embeddings, Done) ==>
              exists idx, ns, cs, ms, ds :: Realizes(a, f, eng, idx, ns, cs) && Realizes(b, g, eng, idx, ms, ds)
  {
    hide Realizes, Build, Judge;
    assert FaithfulFile(eng, a, f) && FaithfulFile(eng, b, g);
    var path := a.files[f].path;
    if HasStatus(a, f, Embeddings, Done) && HasStatus(b, g, Embeddings, Done) {
      var c, ns, cs :| Rebuilt(eng, a, f, c, ns, cs);
      var d, ms, ds :| Rebuilt(eng, b, g, d, ms, ds);
      assert eng.hash(c) == eng.hash(d);
      assert Realizes(a, f, eng, Build(eng, path, c), ns, cs) && Realizes(b, g, eng, Build(eng, path, c), ms, ds);
    }
    if HasStatus(a, f, Embeddings, Done) { DoneIsNotSkipped(eng, a, f, b, g); }
    if HasStatus(b, g, Embeddings, Done) { DoneIsNotSkipped(eng, b, g, a, f); }
  }

  /** No content is both indexed and skipped. */
  lemma DoneIsNotSkipped(eng: Engine, a: DB, f: int, b: DB, g: int)
    requires Injective(eng) && f in a.files && g in b.files && FaithfulFile(eng, a, f) && FaithfulFile(eng, b, g)
    requires a.files[f].path == b.files[g].path && a.files[f].sha == b.files[g].sha
    requires HasStatus(a, f, Embeddings, Done)
    ensures !HasStatus(b, g, Embeddings, Skipped)
  {
    hide Realizes, Build, Judge;
    var path := a.files[f].path;
    var c, ns, cs :| Rebuilt(eng, a, f, c, ns, cs);
    forall d | Records(eng, b.files[g], d)
      ensures !Judge(eng, path, d).Skip?
    {
      assert eng.hash(c) == eng.hash(d);
    }
    assert !RightlySkipped(eng, b, g);
  }
}
