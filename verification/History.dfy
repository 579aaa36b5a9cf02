/**
 The states an indexer ever commits. Every committed transaction is one event; a run is any
 sequence of events, so it covers per-file failures, panics, cancellation and a process killed
 between any two commits, over any number of runs with any disk edits between them.
 */
module History {
  import opened Bytes
  import opened Store
  import opened Indexing

  datatype Event =
    | Walked(batch: seq<Seen>, ids: seq<int>, now: int)
    | Reconciled(start: int)
    | Fingerprinted
    | FileIndexed(file: int, content: Text, ns: seq<int>, cs: seq<int>)
    | FileSkipped(file: int, content: Text, why: Option<string>)
    | FileFailed(file: int, pass: Pass, error: string)

  const DONE := StateRow(Done, None)

  function MarkAll(db: DB, f: int, s: Status, error: Option<string>): DB {
    Mark(Mark(Mark(db, f, Structural, s, error), f, Chunker, s, error), f, Embeddings, s, error)
  }

  /** A visited file carries the hash, size and class of some content. */
  ghost predicate Honest(eng: Engine, s: Seen) {
    exists c :: s == SeenOf(eng, s.path, c)
  }

  /** The committed outcome of indexing pending file `f` with content `c`. */
  ghost predicate Indexed(eng: Engine, a: DB, b: DB, f: int, c: Text, ns: seq<int>, cs: seq<int>) {
    && IsPending(a, f) && Records(eng, a.files[f], c) && a.fingerprint == Some(eng.fp)
    && Indexable(eng, a.files[f].path, c)
    && b.files == a.files && b.fingerprint == a.fingerprint
    && AgreeElsewhere(a, b, f)
    && b.state == MarkAll(Clear(a, f), f, Done, None).state
    && b.vectors.Keys <= b.chunks.Keys
    && Realizes(b, f, eng, Build(eng, a.files[f].path, c), ns, cs)
  }

  /** One commit of an indexer running engine `eng`. */
  ghost predicate Next(eng: Engine, a: DB, b: DB, e: Event) {
    match e
    case Walked(batch, ids, now) =>
      && |ids| == |batch| && ResolvesAll(a, batch, ids, now) && b == UpsertAll(a, batch, ids, now)
      && forall i :: 0 <= i < |batch| ==> Honest(eng, batch[i])
    case Reconciled(start) => b == Reconcile(a, start)
    case Fingerprinted => a.fingerprint == None && b == a.(fingerprint := Some(eng.fp))
    case FileIndexed(f, c, ns, cs) => Indexed(eng, a, b, f, c, ns, cs)
    case FileSkipped(f, c, why) =>
      && IsPending(a, f) && Records(eng, a.files[f], c) && a.fingerprint == Some(eng.fp)
      && Judge(eng, a.files[f].path, c) == Skip(why)
      && b == MarkAll(Clear(a, f), f, Skipped, why)
    case FileFailed(f, p, error) =>
      IsPending(a, f) && p != NoPass && b == Mark(a, f, p, Failed, Some(error))
  }

  /** A run: engine `engs[i]` made the commit from `dbs[i]` to `dbs[i + 1]`. */
  ghost predicate IsRun(dbs: seq<DB>, events: seq<Event>, engs: seq<Engine>) {
    && |dbs| == |events| + 1 && |engs| == |events|
    && forall i :: 0 <= i < |events| ==> Next(engs[i], dbs[i], dbs[i + 1], events[i])
  }

  /** A run of one engine. */
  ghost predicate RunOf(eng: Engine, dbs: seq<DB>, events: seq<Event>) {
    && |dbs| == |events| + 1
    && forall i :: 0 <= i < |events| ==> Next(eng, dbs[i], dbs[i + 1], events[i])
  }

  lemma RunOfIsRun(eng: Engine, dbs: seq<DB>, events: seq<Event>)
    requires RunOf(eng, dbs, events)
    ensures IsRun(dbs, events, seq(|events|, i => eng))
  {
    hide Next;
  }

  // ---------------------------------------------------------------- clearing a file

  lemma ClearTables(db: DB, f: int)
    ensures var r := Clear(db, f);
            && r.files == db.files && r.fingerprint == db.fingerprint
            && (forall n :: n in r.nodes <==> n in db.nodes && db.nodes[n].file != f)
            && (forall n :: n in r.nodes ==> r.nodes[n] == db.nodes[n])
            && (forall c :: c in r.chunks <==> c in db.chunks && !OwnsChunk(db, f, c))
            && (forall c :: c in r.chunks ==> r.chunks[c] == db.chunks[c])
            && (forall c :: c in r.vectors <==> c in db.vectors && !OwnsChunk(db, f, c))
            && (forall c :: c in r.vectors ==> r.vectors[c] == db.vectors[c])
            && (forall k :: k in r.state <==> k in db.state && k.0 != f)
            && (forall k :: k in r.state ==> r.state[k] == db.state[k])
  {
  }

  /** A file whose nodes were all there before, in a state with the same passes done, is as tidy as before. */
  lemma TidyFileKept(a: DB, b: DB, g: int)
    requires TidyFile(a, g)
    requires HasStatus(a, g, Embeddings, Done) <==> HasStatus(b, g, Embeddings, Done)
    requires HasStatus(a, g, Embeddings, Done) ==> forall p :: HasStatus(a, g, p, Done) ==> HasStatus(b, g, p, Done)
    requires !HasStatus(a, g, Embeddings, Done) ==> forall n :: OwnsNode(b, g, n) ==> OwnsNode(a, g, n)
    ensures TidyFile(b, g)
  {
  }

  lemma ClearKeepsTidy(db: DB, f: int)
    requires Tidy(db)
    ensures Tidy(Clear(db, f)) && !HasStatus(Clear(db, f), f, Embeddings, Done)
  {
    var r := Clear(db, f);
    ClearTables(db, f);
    hide Clear;
    forall g
      ensures TidyFile(r, g)
    {
      assert TidyFile(db, g);
      if g != f {
        assert forall n :: OwnsNode(r, g, n) ==> OwnsNode(db, g, n);
        TidyFileKept(db, r, g);
      }
    }
    forall c
      ensures c in r.vectors.Keys <==> c in r.chunks.Keys
    {
      assert c in db.vectors.Keys <==> c in db.chunks.Keys;
    }
    assert r.vectors.Keys == r.chunks.Keys;
  }

  /** Rewriting the row of a file, or adding one, leaves the rest alone. */
  lemma PutRowKeepsTidy(db: DB, id: int, row: FileRow)
    requires Tidy(db) && Resolves(db, row.path, id)
    ensures Tidy(db.(files := db.files[id := row]))
  {
    var r := db.(files := db.files[id := row]);
    forall g
      ensures TidyFile(r, g)
    {
      assert TidyFile(db, g);
      assert forall n :: OwnsNode(r, g, n) ==> OwnsNode(db, g, n);
      TidyFileKept(db, r, g);
    }
  }

  lemma UpsertKeepsTidy(db: DB, s: Seen, id: int, now: int)
    requires Tidy(db) && Resolves(db, s.path, id)
    ensures Tidy(Upsert(db, s, id, now))
  {
    var row := FileRow(s.path, s.sha, s.size, s.mime, s.cls, now, None);
    ClearKeepsTidy(db, id);
    ClearTables(db, id);
    hide Clear, Tidy;
    if id in db.files && db.files[id].sha != s.sha {
      PutRowKeepsTidy(Clear(db, id), id, row);
    } else {
      PutRowKeepsTidy(db, id, row);
    }
  }

  lemma {:induction false} UpsertAllKeepsFingerprint(db: DB, batch: seq<Seen>, ids: seq<int>, now: int)
    requires |ids| == |batch|
    ensures UpsertAll(db, batch, ids, now).fingerprint == db.fingerprint
  {
    if batch != [] {
      var n := |batch| - 1;
      UpsertAllKeepsFingerprint(db, batch[..n], ids[..n], now);
    }
  }

  lemma {:induction false} UpsertAllKeepsTidy(db: DB, batch: seq<Seen>, ids: seq<int>, now: int)
    requires Tidy(db) && |ids| == |batch| && ResolvesAll(db, batch, ids, now)
    ensures Tidy(UpsertAll(db, batch, ids, now))
  {
    hide Tidy, Upsert, Resolves;
    if batch != [] {
      var n := |batch| - 1;
      UpsertAllKeepsTidy(db, batch[..n], ids[..n], now);
      UpsertKeepsTidy(UpsertAll(db, batch[..n], ids[..n], now), batch[n], ids[n], now);
    }
  }

  lemma ReconcileKeepsTidy(db: DB, start: int)
    requires Tidy(db)
    ensures Tidy(Reconcile(db, start))
  {
    var r := Reconcile(db, start);
    forall g
      ensures TidyFile(r, g)
    {
      assert TidyFile(db, g);
      assert forall n :: OwnsNode(r, g, n) ==> OwnsNode(db, g, n);
      TidyFileKept(db, r, g);
    }
  }

  lemma MarkKeepsTidy(db: DB, f: int, p: Pass, s: Status, error: Option<string>)
    requires Tidy(db) && f in db.files && !HasStatus(db, f, Embeddings, Done)
    requires p != NoPass && s != Running && s != Done
    ensures Tidy(Mark(db, f, p, s, error)) && !HasStatus(Mark(db, f, p, s, error), f, Embeddings, Done)
  {
    var r := Mark(db, f, p, s, error);
    forall g
      ensures TidyFile(r, g)
    {
      assert TidyFile(db, g);
      assert forall n :: OwnsNode(r, g, n) ==> OwnsNode(db, g, n);
      TidyFileKept(db, r, g);
    }
  }

  lemma SkipKeepsTidy(db: DB, f: int, why: Option<string>)
    requires Tidy(db) && f in db.files && !HasStatus(db, f, Embeddings, Done)
    ensures Tidy(MarkAll(db, f, Skipped, why))
  {
    hide Tidy, Mark;
    MarkFiles(db, f, Structural, Skipped, why);
    MarkKeepsTidy(db, f, Structural, Skipped, why);
    var one := Mark(db, f, Structural, Skipped, why);
    MarkFiles(one, f, Chunker, Skipped, why);
    MarkKeepsTidy(one, f, Chunker, Skipped, why);
    MarkKeepsTidy(Mark(one, f, Chunker, Skipped, why), f, Embeddings, Skipped, why);
  }

  lemma MarkFiles(db: DB, f: int, p: Pass, s: Status, error: Option<string>)
    ensures Mark(db, f, p, s, error).files == db.files
  {
  }

  /** A file other than `f` keeps all of its rows when the two states agree with `f` cleared. */
  lemma OthersKeepRows(a: DB, b: DB, f: int, g: int)
    requires Linked(a) && g != f && AgreeElsewhere(a, b, f)
    ensures forall p, s :: HasStatus(a, g, p, s) <==> HasStatus(b, g, p, s)
    ensures forall n :: OwnsNode(a, g, n) <==> OwnsNode(b, g, n)
    ensures forall n :: OwnsNode(a, g, n) && n in b.nodes ==> a.nodes[n] == b.nodes[n]
  {
    ClearTables(a, f);
    ClearTables(b, f);
    hide Clear;
    var k := (p: Pass) => (g, p);
    forall p, s
      ensures HasStatus(a, g, p, s) <==> HasStatus(b, g, p, s)
    {
      assert k(p) in a.state <==> k(p) in Clear(a, f).state;
      assert k(p) in b.state <==> k(p) in Clear(b, f).state;
    }
    forall n
      ensures (OwnsNode(a, g, n) <==> OwnsNode(b, g, n))
          && (OwnsNode(a, g, n) && n in b.nodes ==> a.nodes[n] == b.nodes[n])
    {
      assert OwnsNode(a, g, n) ==> n in Clear(a, f).nodes;
      assert OwnsNode(b, g, n) ==> n in Clear(b, f).nodes;
    }
  }

  /** Rewriting the rows of one file keeps every other row linked. */
  lemma RowsStayLinked(a: DB, b: DB, f: int)
    requires Tidy(a) && f in a.files && b.files == a.files && AgreeElsewhere(a, b, f)
    requires b.vectors.Keys <= b.chunks.Keys && forall c :: OwnsChunk(b, f, c) ==> c in b.vectors
    ensures forall n :: n in b.nodes ==> b.nodes[n].file in b.files
    ensures forall c :: c in b.chunks ==> b.chunks[c].node in b.nodes
    ensures b.vectors.Keys == b.chunks.Keys
  {
    ClearKeepsTidy(a, f);
    ClearTables(a, f);
    ClearTables(b, f);
    hide Clear;
    forall k | k in b.chunks
      ensures b.chunks[k].node in b.nodes && k in b.vectors
    {
      if !OwnsChunk(b, f, k) {
        assert k in Clear(b, f).chunks;
        assert k in Clear(a, f).vectors.Keys;
      }
    }
    forall n | n in b.nodes
      ensures b.nodes[n].file in b.files
    {
      if !OwnsNode(b, f, n) { assert n in Clear(b, f).nodes; }
    }
  }

  lemma DoneIsTidy(a: DB, b: DB, f: int)
    requires Tidy(a) && f in a.files && b.files == a.files && AgreeElsewhere(a, b, f)
    requires b.state == MarkAll(Clear(a, f), f, Done, None).state
    ensures forall k :: k in b.state ==> k.0 in b.files && k.1 != NoPass && b.state[k].status != Running
    ensures forall g :: TidyFile(b, g)
  {
    ClearTables(a, f);
    hide Clear;
    assert (f, Embeddings) in b.state && (f, Structural) in b.state && (f, Chunker) in b.state;
    forall g
      ensures TidyFile(b, g)
    {
      assert TidyFile(a, g);
      if g != f {
        OthersKeepRows(a, b, f, g);
        TidyFileKept(a, b, g);
      }
    }
  }

  lemma IndexedKeepsTidy(eng: Engine, a: DB, b: DB, f: int, c: Text, ns: seq<int>, cs: seq<int>)
    requires Tidy(a) && Indexed(eng, a, b, f, c, ns, cs)
    ensures Tidy(b)
  {
    hide Clear, Build, Records, Indexable, HasNodes, MarkAll, TidyFile;
    assert forall k :: OwnsChunk(b, f, k) ==> k in cs;
    assert forall k :: k in cs ==> k in b.vectors;
    hide Realizes, HasChunks, HasVectors, OwnsChunk;
    RowsStayLinked(a, b, f);
    DoneIsTidy(a, b, f);
  }

  lemma NextKeepsTidy(eng: Engine, a: DB, b: DB, e: Event)
    requires Tidy(a) && Next(eng, a, b, e)
    ensures Tidy(b)
  {
    hide Tidy, Clear, UpsertAll, ResolvesAll, Reconcile, MarkAll, Mark, Indexed;
    match e
    case Walked(batch, ids, now) => UpsertAllKeepsTidy(a, batch, ids, now);
    case Reconciled(start) => ReconcileKeepsTidy(a, start);
    case Fingerprinted => FingerprintKeepsTidy(a, Some(eng.fp));
    case FileIndexed(f, c, ns, cs) => IndexedKeepsTidy(eng, a, b, f, c, ns, cs);
    case FileSkipped(f, c, why) =>
      ClearKeepsTidy(a, f);
      ClearTables(a, f);
      SkipKeepsTidy(Clear(a, f), f, why);
    case FileFailed(f, p, error) => MarkKeepsTidy(a, f, p, Failed, Some(error));
  }

  lemma FingerprintKeepsTidy(db: DB, fp: Option<Fingerprint>)
    requires Tidy(db)
    ensures Tidy(db.(fingerprint := fp))
  {
    var r := db.(fingerprint := fp);
    forall g
      ensures TidyFile(r, g)
    {
      assert TidyFile(db, g);
      assert forall n :: OwnsNode(r, g, n) ==> OwnsNode(db, g, n);
      TidyFileKept(db, r, g);
    }
  }

  /**
   The order of the deletes matters: once the nodes are gone the vectors of their chunks can no
   longer be found, and every one of them is left behind without a chunk.
   */
  lemma NodesFirstOrphansVectors(db: DB, f: int, c: int)
    requires Tidy(db) && OwnsChunk(db, f, c)
    ensures var wrong := DropVectors(DropState(DropNodes(db, f), f), f);
            c in wrong.vectors && c !in wrong.chunks && !Tidy(wrong)
    ensures c !in Clear(db, f).vectors
  {
  }
}
