/**
 The pipeline runner (internal/v3/pipeline/runner.go), with the walker it starts
 (internal/v3/walker/walker.go) and the guarded vector writer it ends in
 (internal/v3/embed/writer.go). A transaction is a copy of the database that is committed or
 thrown away; every commit is recorded in the ghost history as a step `History.Next` allows.
 */
module Pipeline {
  import opened Bytes
  import opened Prose
  import opened CodeChunks
  import opened Store
  import opened Indexing
  import opened History
  import opened Safety
  import opened Coverage
  import opened Staging
  import opened Walking
  import opened RunnerSteps

  /** How a fallible call ends. A panic unwinds to processOneFile. */
  datatype Outcome = Success | Error(message: string) | Panic(message: string)

  type Int8 = x: int | -128 <= x < 128

  /** Go's int8(b) and byte(v): the same eight bits read the other way. */
  function ToInt8(b: Byte): (v: Int8)
    ensures (v - b) % 256 == 0
  {
    if b < 128 then b else b - 256
  }

  function ToByte(v: Int8): (b: Byte)
    ensures (v - b) % 256 == 0
  {
    if v >= 0 then v else v + 256
  }

  datatype EmbedPair = EmbedPair(id: int, vector: seq<Int8>)

  function Int8s(blob: Vector): (v: seq<Int8>)
    ensures |v| == |blob| && Blob(v) == blob
  {
    if blob == [] then [] else Int8s(blob[..|blob| - 1]) + [ToInt8(blob[|blob| - 1])]
  }

  function Blob(v: seq<Int8>): (blob: Vector)
    ensures |blob| == |v|
  {
    if v == [] then [] else Blob(v[..|v| - 1]) + [ToByte(v[|v| - 1])]
  }

  /** Codes written as bytes read back as the same codes. */
  lemma {:induction false} CodesSurvive(v: seq<Int8>)
    ensures Int8s(Blob(v)) == v
    decreases |v|
  {
    if v != [] {
      var n := |v| - 1;
      CodesSurvive(v[..n]);
      assert Blob(v)[..n] == Blob(v[..n]);
      assert ToInt8(ToByte(v[n])) == v[n];
    }
  }

  /** A fallible call: it may succeed, fail or panic, but for a runner in a calm environment it succeeds. */
  method Try(calm: bool) returns (o: Outcome)
    ensures calm ==> o.Success?
  {
    o := *;
    if calm { o := Success; }
  }

  /** A row id not in use, one past the largest, as SQLite picks it. */
  method NextRowId(keys: set<int>) returns (id: int)
    ensures id !in keys
  {
    var rest := keys;
    id := 1;
    while exists k :: k in rest
      invariant forall k :: k in keys && k !in rest ==> k < id
      decreases |rest|
    {
      var k :| k in rest;
      if k >= id { id := k + 1; }
      rest := rest - {k};
    }
  }

  method BytesToInt8(b: Vector) returns (out: seq<Int8>)
    ensures out == Int8s(b)
  {
    out := [];
    for i := 0 to |b|
      invariant out == Int8s(b[..i])
    {
      out := out + [ToInt8(b[i])];
      assert b[..i + 1][..i] == b[..i];
    }
    assert b[..|b|] == b;
  }

  method ToBlob(v: seq<Int8>) returns (blob: Vector)
    ensures blob == Blob(v)
  {
    blob := [];
    for k := 0 to |v|
      invariant blob == Blob(v[..k])
    {
      blob := blob + [ToByte(v[k])];
      assert v[..k + 1][..k] == v[..k];
    }
    assert v[..|v|] == v;
  }

  lemma PutOne(vectors: map<int, Vector>, embed: Text -> Vector, batch: seq<PendingChunk>, i: nat)
    requires i < |batch|
    ensures PutVectors(vectors, embed, batch[..i + 1]) ==
        PutVectors(vectors, embed, batch[..i])[batch[i].id := embed(batch[i].text)]
  {
    assert batch[..i + 1][..i] == batch[..i];
  }

  /** Writer.WriteBatch: one row per pair, inside the file's transaction. */
  method WriteBatch(calm: bool, tx: DB, pairs: seq<EmbedPair>, ghost embed: Text -> Vector,
                    ghost batch: seq<PendingChunk>)
    returns (o: Outcome, after: DB)
    requires |pairs| == |batch|
    requires forall j :: 0 <= j < |pairs| ==> pairs[j] == EmbedPair(batch[j].id, Int8s(embed(batch[j].text)))
    ensures o.Success? ==> after == tx.(vectors := PutVectors(tx.vectors, embed, batch))
    ensures o.Success? ==> Fits(embed, batch)
    ensures calm && Fits(embed, batch) ==> o.Success?
  {
    after := tx;
    o := Try(calm);
    if !o.Success? { return; }
    assert Written(tx, after, embed, batch[..0]);
    hide Written, Blob, Int8s;
    for i := 0 to |pairs|
      invariant o.Success?
      invariant Written(tx, after, embed, batch[..i])
      invariant forall j :: 0 <= j < i ==> |embed(batch[j].text)| == DIMENSION
    {
      var p := pairs[i];
      if |p.vector| != DIMENSION {
        return Error("vector length"), after;
      }
      var blob := ToBlob(p.vector);
      assert blob == embed(batch[i].text);
      o := Try(calm);
      if !o.Success? { return; }
      WriteOne(tx, after, embed, batch, i);
      after := after.(vectors := after.vectors[p.id := blob]);
    }
    WrittenAll(tx, after, embed, batch);
  }

  /** `after` is `tx` with the vectors of the batch. */
  ghost predicate Written(tx: DB, after: DB, embed: Text -> Vector, batch: seq<PendingChunk>) {
    after == tx.(vectors := PutVectors(tx.vectors, embed, batch))
  }

  lemma WriteOne(tx: DB, after: DB, embed: Text -> Vector, batch: seq<PendingChunk>, i: nat)
    requires i < |batch| && Written(tx, after, embed, batch[..i])
    ensures Written(tx, after.(vectors := after.vectors[batch[i].id := embed(batch[i].text)]), embed, batch[..i + 1])
  {
    PutOne(tx.vectors, embed, batch, i);
    hide PutVectors;
  }

  lemma WrittenAll(tx: DB, after: DB, embed: Text -> Vector, batch: seq<PendingChunk>)
    requires Written(tx, after, embed, batch[..|batch|])
    ensures after == tx.(vectors := PutVectors(tx.vectors, embed, batch))
  {
    hide PutVectors;
    assert batch[..|batch|] == batch;
  }

  /** markStatusTx: the upsert of one pipeline_state row inside a transaction. */
  method MarkStatus(calm: bool, tx: DB, f: int, p: Pass, s: Status, error: Option<string>)
    returns (o: Outcome, after: DB)
    ensures o.Success? ==> after == Mark(tx, f, p, s, error)
    ensures calm ==> o.Success?
  {
    o := Try(calm);
    after := tx;
    if o.Success? { after := after.(state := after.state[(f, p) := StateRow(s, error)]); }
  }

  const DEFAULT_EMBED_BATCH: nat := 32
  const PENDING_FETCH_SIZE: nat := 100
  const WALK_BATCH: nat := 100

  class Runner {
    const eng: Engine
    const wantedBatch: int
    const calm: bool  // no outside call fails and nothing cancels the run
    var db: DB
    var cancelled: bool
    var cfg: Config
    var currentPass: Pass
    var embedBuf: seq<PendingChunk>
    var failedFiles: nat
    var dbs: seq<DB>  // what was durable after each commit
    ghost var events: seq<Event>
    ghost var processed: seq<int>

    /** The database is the last state of a history of legal commits. */
    ghost predicate Valid()
      reads this`db, this`dbs, this`events
    {
      RunOf(eng, dbs, events) && dbs[|events|] == db && Tidy(db)
    }

    /** The history only grows. */
    twostate predicate Later()
      reads this`dbs, this`events
    {
      old(dbs) <= dbs && old(events) <= events
    }

    /** One transaction was committed, and it is file `f` indexed or skipped. */
    twostate predicate OneCommit(f: int)
      reads this`db, this`dbs, this`events
    {
      dbs == old(dbs) + [db] && exists e :: events == old(events) + [e] && SettlesFile(e, f)
    }

    twostate predicate NoCommit()
      reads this`db, this`dbs, this`events
    {
      db == old(db) && dbs == old(dbs) && events == old(events)
    }

    constructor (eng: Engine, wantedBatch: int, cfg: Config, db: DB, calm: bool)
      requires Tidy(db)
      ensures Valid() && this.eng == eng && this.wantedBatch == wantedBatch && this.cfg == cfg && this.db == db
      ensures this.calm == calm
      ensures dbs == [db] && events == [] && processed == [] && !cancelled
    {
      this.eng, this.wantedBatch, this.cfg, this.db, this.calm := eng, wantedBatch, cfg, db, calm;
      cancelled, currentPass, embedBuf, failedFiles := false, NoPass, [], 0;
      dbs, events, processed := [db], [], [];
    }

    function BatchSize(): (n: nat)
      ensures n >= 1
    {
      if wantedBatch > 0 then wantedBatch else DEFAULT_EMBED_BATCH
    }

    /** ctx.Err(): once cancelled, always cancelled. */
    method Cancelled() returns (c: bool)
      modifies this`cancelled
      ensures c == cancelled && (old(cancelled) ==> cancelled) && (calm && !old(cancelled) ==> !cancelled)
    {
      var now: bool := *;
      cancelled := cancelled || (now && !calm);
      c := cancelled;
    }

    /** The one place where a transaction becomes visible. */
    method Commit(next: DB, ghost e: Event)
      requires Valid() && Next(eng, db, next, e)
      modifies this`db, this`dbs, this`events
      ensures Valid() && Later() && db == next && dbs == old(dbs) + [next] && events == old(events) + [e]
    {
      NextKeepsTidy(eng, db, next, e);
      RunGrows(eng, dbs, events, next, e);
      db, dbs, events := next, dbs + [next], events + [e];
    }

    // -------------------------------------------------------------- one file

    /** The three defensive deletes. */
    method Cleanup(f: int) returns (o: Outcome, tx: DB)
      ensures o.Success? ==> tx == Clear(db, f)
      ensures calm ==> o.Success?
    {
      tx := db;
      o := Try(calm);
      if !o.Success? { return; }
      tx := DropVectors(tx, f);
      o := Try(calm);
      if !o.Success? { return; }
      tx := DropState(tx, f);
      o := Try(calm);
      if !o.Success? { return; }
      tx := DropNodes(tx, f);
    }

    /** Marks all three passes skipped and commits. */
    method SkipFile(f: int, cleared: DB, why: Option<string>, ghost c: Text) returns (o: Outcome)
      requires Valid() && IsPending(db, f) && Records(eng, db.files[f], c) && db.fingerprint == Some(eng.fp)
      requires Judge(eng, db.files[f].path, c) == Skip(why) && cleared == Clear(db, f)
      modifies this`db, this`dbs, this`events
      ensures Valid() && Later()
      ensures if o.Success? then Committed(eng, old(db), db, f, old(db).files[f].path, c)
          && OneCommit(f) else NoCommit()
      ensures calm ==> o.Success?
    {
      ClearTables(db, f);
      hide Clear, Judge, Records, RunOf, Tidy, Committed;
      var tx := cleared;
      o, tx := MarkStatus(calm, tx, f, Structural, Skipped, why);
      if !o.Success? { return; }
      o, tx := MarkStatus(calm, tx, f, Chunker, Skipped, why);
      if !o.Success? { return; }
      o, tx := MarkStatus(calm, tx, f, Embeddings, Skipped, why);
      if !o.Success? { return; }
      o := Try(calm);
      if o.Success? {
        assert Next(eng, db, tx, FileSkipped(f, c, why));
        SkippedCommits(eng, db, tx, f, c, why);
        Commit(tx, FileSkipped(f, c, why));
        assert SettlesFile(FileSkipped(f, c, why), f);
      }
    }

    /** Inserts a node row and returns its id. */
    method InsertNode(tx: DB, row: NodeRow) returns (o: Outcome, after: DB, id: int)
      ensures o.Success? ==> id !in tx.nodes && after == tx.(nodes := tx.nodes[id := row])
      ensures calm ==> o.Success?
    {
      id := NextRowId(tx.nodes.Keys);
      o := Try(calm);
      after := if o.Success? then tx.(nodes := tx.nodes[id := row]) else tx;
    }

    method InsertChunk(tx: DB, row: ChunkRow) returns (o: Outcome, after: DB, id: int)
      ensures o.Success? ==> id !in tx.chunks && after == tx.(chunks := tx.chunks[id := row])
      ensures calm ==> o.Success?
    {
      id := NextRowId(tx.chunks.Keys);
      o := Try(calm);
      after := if o.Success? then tx.(chunks := tx.chunks[id := row]) else tx;
    }

    /** runStructural: symbol nodes, or one file node. */
    method RunStructural(f: int, row: FileRow, tx: DB, c: Text)
      returns (o: Outcome, after: DB, syms: seq<Symbol>, symNodes: map<Symbol, int>, fileNode: int, ghost ns: seq<int>)
      requires Records(eng, row, c)
      ensures o.Success? ==>
                && SymbolsOf(eng, row.path, c) == Some(syms)
                && after == tx.(nodes := after.nodes, state := tx.state[(f, Structural) := DONE])
                && NodesAdded(tx.nodes, after.nodes, f, NodeSpecs(eng, row.path, c, syms), ns)
                && NodeIds(syms, symNodes, fileNode, ns)
      ensures calm && SymbolsOf(eng, row.path, c).Some? ==> o.Success?
    {
      hide NodesAdded, Records, NodeSpecs, SymbolIds, LastIndex, Mark;
      syms, symNodes, fileNode, ns := [], map[], 0, [];
      o, after := MarkStatus(calm, tx, f, Structural, Running, None);
      if !o.Success? { return; }
      ghost var running := after;
      assert row.cls == eng.classify(row.path, c).1
        && row.mime == eng.classify(row.path, c).0 by { RecordsClass(eng, row, c); }
      var lang := if row.cls == Code then eng.grammar(row.path) else None;
      assert lang == Lang(eng, row.path, c);
      if lang.Some? {
        o := Try(calm);
        if !o.Success? { return; }
        var extracted := eng.extract(lang.value, c);
        if extracted == None { return Error("extract"), after, syms, symNodes, fileNode, ns; }
        syms := extracted.value;
      }
      if syms != [] {
        o, after, symNodes, ns := InsertSymbols(f, row.path, after, c, syms, lang.value);
        if !o.Success? { return; }
      } else {
        var was := after;
        o, after, fileNode := InsertNode(after, NodeRow(f, eng.baseName(row.path), FileNode(row.mime)));
        if !o.Success? { return; }
        ns := [fileNode];
        OneNode(was.nodes, f, NodeSpec(eng.baseName(row.path), FileNode(row.mime)), fileNode);
        FileNodeSpec(eng, row.path, c);
      }
      ghost var inserted := after;
      o, after := MarkStatus(calm, after, f, Structural, Done, None);
      if o.Success? { StructuralMarks(tx, running, inserted, after, f); }
    }

    /** The insert loop of runStructural. */
    method InsertSymbols(f: int, path: Path, tx: DB, c: Text, syms: seq<Symbol>, lang: Text)
      returns (o: Outcome, after: DB, symNodes: map<Symbol, int>, ghost ns: seq<int>)
      requires syms != [] && Lang(eng, path, c) == Some(lang)
      ensures o.Success? ==>
                && after == tx.(nodes := after.nodes)
                && NodesAdded(tx.nodes, after.nodes, f, NodeSpecs(eng, path, c, syms), ns)
                && SymbolIds(syms, symNodes, ns)
      ensures calm ==> o.Success?
    {
      hide NodesAdded;
      NothingYet(tx, f, [], eng.embed);
      o, after, symNodes, ns := Success, tx, map[], [];
      ghost var specs := NodeSpecs(eng, path, c, syms);
      for i := 0 to |syms|
        invariant o.Success? && after == tx.(nodes := after.nodes)
        invariant NodesAdded(tx.nodes, after.nodes, f, specs[..i], ns) && |ns| == i
        invariant SymbolIds(syms[..i], symNodes, ns)
      {
        var s := syms[i];
        var id: int;
        ghost var was := after;
        o, after, id := InsertNode(after, NodeRow(f, s.name, SymbolNode(lang, s)));
        if !o.Success? { return; }
        AddNode(tx.nodes, was.nodes, f, specs[..i], ns, id, specs[i]);
        assert specs[..i] + [specs[i]] == specs[..i + 1];
        AddSymbolId(syms[..i], symNodes, ns, s, id);
        assert syms[..i] + [s] == syms[..i + 1];
        symNodes, ns := symNodes[s := id], ns + [id];
      }
      assert specs[..|syms|] == specs && syms[..|syms|] == syms;
    }

    /** runChunker: a chunk row for every chunk of every symbol, or of the text as prose. */
    method RunChunker(f: int, row: FileRow, tx: DB, c: Text, syms: seq<Symbol>, symNodes: map<Symbol, int>,
                      fileNode: int, ghost ns: seq<int>)
      returns (o: Outcome, after: DB, out: seq<PendingChunk>, ghost cs: seq<int>)
      requires Records(eng, row, c) && NodeIds(syms, symNodes, fileNode, ns) && cfg == DEFAULT_CONFIG
      ensures o.Success? ==>
                && InRange(c, syms)
                && after == tx.(chunks := after.chunks, state := tx.state[(f, Chunker) := DONE])
                && ChunksAdded(tx.chunks, after.chunks, ChunkSpecs(eng, row.path, c, syms), ns, cs)
                && Pairs(out, ChunkSpecs(eng, row.path, c, syms), cs)
      ensures calm && InRange(c, syms) ==> o.Success?
    {
      hide ChunksAdded, Records, ChunkSpecs, InRange, NodeIds, Pairs, AllSymbolChunks, ProseTrace, Chunks, Mark,
        SymbolsCovered;
      out, cs := [], [];
      o, after := MarkStatus(calm, tx, f, Chunker, Running, None);
      if !o.Success? { return; }
      ghost var running := after;
      if syms != [] {
        if !InRange(c, syms) { return Panic("slice bounds out of range"), after, out, cs; }
        var chunks := ChunkCode(c, syms, cfg, eng.count);
        o, after, out, cs := InsertCodeChunks(after, c, syms, symNodes, fileNode, chunks, row.path, ns);
      } else {
        assert InRange(c, syms) by { NoSymbolsInRange(c, syms); }
        RecordsClass(eng, row, c);
        var chunks := ChunkProse(c, cfg, eng.count);
        o, after, out, cs := InsertProseChunks(after, c, row.cls, fileNode, chunks, row.path, symNodes, ns);
      }
      if !o.Success? { return; }
      ghost var inserted := after;
      o, after := MarkStatus(calm, after, f, Chunker, Done, None);
      if o.Success? { ChunkerMarks(tx, running, inserted, after, f); }
    }

    method InsertCodeChunks(tx: DB, c: Text, syms: seq<Symbol>, symNodes: map<Symbol, int>, fileNode: int,
                            chunks: seq<CodeChunk>,
                            ghost path: Path, ghost ns: seq<int>)
      returns (o: Outcome, after: DB, out: seq<PendingChunk>, ghost cs: seq<int>)
      requires syms != [] && InRange(c, syms) && NodeIds(syms, symNodes, fileNode, ns)
      requires chunks == AllSymbolChunks(c, syms, DEFAULT_CONFIG, eng.count)
      ensures o.Success? ==>
                && after == tx.(chunks := after.chunks)
                && ChunksAdded(tx.chunks, after.chunks, ChunkSpecs(eng, path, c, syms), ns, cs)
                && Pairs(out, ChunkSpecs(eng, path, c, syms), cs)
      ensures calm ==> o.Success?
    {
      hide ChunksAdded, AllSymbolChunks, Pairs;
      NothingYet(tx, 0, ns, eng.embed);
      o, after, out, cs := Success, tx, [], [];
      ghost var specs := ChunkSpecs(eng, path, c, syms);
      for i := 0 to |chunks|
        invariant o.Success? && after == tx.(chunks := after.chunks)
        invariant ChunksAdded(tx.chunks, after.chunks, specs[..i], ns, cs)
        invariant Pairs(out, specs[..i], cs)
      {
        var k := chunks[i];
        var kind := if k.start != k.sym.start || k.end != k.sym.end then CodeFallback else CodeAst;
        CodeChunksInside(c, syms, DEFAULT_CONFIG, eng.count, i);
        if k.sym !in symNodes { return Error("chunk for unknown symbol"), after, out, cs; }
        assert specs[i] == CodeSpec(syms, k);
        assert RowOf(specs[i], ns) == ChunkRow(symNodes[k.sym], k.text, k.start, k.end, k.tokens, kind);
        ghost var was := after;
        var id: int;
        o, after, id := InsertChunk(after, ChunkRow(symNodes[k.sym], k.text, k.start, k.end, k.tokens, kind));
        if !o.Success? { return; }
        AddChunk(tx.chunks, was.chunks, specs[..i], ns, cs, id, specs[i]);
        AddPair(out, specs[..i], cs, id, specs[i]);
        assert specs[..i] + [specs[i]] == specs[..i + 1];
        out, cs := out + [PendingChunk(id, k.text)], cs + [id];
      }
      assert specs[..|chunks|] == specs;
    }

    method InsertProseChunks(tx: DB, c: Text, cls: ContentClass, fileNode: int, chunks: seq<Chunk>,
                             ghost path: Path, ghost symNodes: map<Symbol, int>, ghost ns: seq<int>)
      returns (o: Outcome, after: DB, out: seq<PendingChunk>, ghost cs: seq<int>)
      requires NodeIds([], symNodes, fileNode, ns) && cls == eng.classify(path, c).1
      requires chunks == Chunks(ProseTrace(c, DEFAULT_CONFIG, eng.count))
      ensures o.Success? ==>
                && after == tx.(chunks := after.chunks)
                && ChunksAdded(tx.chunks, after.chunks, ChunkSpecs(eng, path, c, []), ns, cs)
                && Pairs(out, ChunkSpecs(eng, path, c, []), cs)
      ensures calm ==> o.Success?
    {
      hide ChunksAdded, ProseTrace, Pairs;
      NothingYet(tx, 0, ns, eng.embed);
      o, after, out, cs := Success, tx, [], [];
      var kind := if cls == Code then CodeFallback else ProseKind;
      ghost var specs := ChunkSpecs(eng, path, c, []);
      for i := 0 to |chunks|
        invariant o.Success? && after == tx.(chunks := after.chunks)
        invariant ChunksAdded(tx.chunks, after.chunks, specs[..i], ns, cs)
        invariant Pairs(out, specs[..i], cs)
      {
        var k := chunks[i];
        assert specs[i] == ProseSpec(cls, k);
        ghost var was := after;
        var id: int;
        o, after, id := InsertChunk(after, ChunkRow(fileNode, k.text, k.start, k.end, k.tokens, kind));
        if !o.Success? { return; }
        AddChunk(tx.chunks, was.chunks, specs[..i], ns, cs, id, specs[i]);
        AddPair(out, specs[..i], cs, id, specs[i]);
        assert specs[..i] + [specs[i]] == specs[..i + 1];
        out, cs := out + [PendingChunk(id, k.text)], cs + [id];
      }
      assert specs[..|chunks|] == specs;
    }

    /** flushEmbedBatch: embeds what is buffered and writes it; the buffer is empty afterwards. */
    method FlushEmbedBatch(tx: DB) returns (o: Outcome, after: DB)
      modifies this`embedBuf
      ensures o.Success? ==> embedBuf == [] && after == tx.(vectors := PutVectors(tx.vectors, eng.embed, old(embedBuf)))
      ensures o.Success? ==> Fits(eng.embed, old(embedBuf))
      ensures calm && Fits(eng.embed, old(embedBuf)) ==> o.Success?
    {
      o, after := Success, tx;
      if |embedBuf| == 0 { return; }
      var pairs := [];
      for i := 0 to |embedBuf|
        invariant embedBuf == old(embedBuf) && |pairs| == i && o.Success?
        invariant forall j :: 0 <= j < i ==> pairs[j] == EmbedPair(embedBuf[j].id, Int8s(eng.embed(embedBuf[j].text)))
      {
        o := Try(calm);
        if !o.Success? { return; }
        var vec := BytesToInt8(eng.embed(embedBuf[i].text));
        pairs := pairs + [EmbedPair(embedBuf[i].id, vec)];
      }
      o, after := WriteBatch(calm, tx, pairs, eng.embed, embedBuf);
      if !o.Success? { return; }
      embedBuf := [];
    }

    /** The embeddings pass: buffered in batches of any size, drained at the end. */
    method RunEmbeddings(f: int, tx: DB, chunks: seq<PendingChunk>) returns (o: Outcome, after: DB)
      requires embedBuf == []
      modifies this`embedBuf
      ensures o.Success? ==>
                && after == tx.(vectors := PutVectors(tx.vectors, eng.embed, chunks),
                                state := tx.state[(f, Embeddings) := DONE])
                && Fits(eng.embed, chunks)
      ensures calm && Fits(eng.embed, chunks) ==> o.Success?
    {
      hide PutVectors, Fits, Mark, Sent;
      o, after := MarkStatus(calm, tx, f, Embeddings, Running, None);
      if !o.Success? { return; }
      ghost var running, sent := after, 0;
      NothingSent(running, eng.embed, chunks);
      for i := 0 to |chunks|
        invariant o.Success? && sent <= i && embedBuf == chunks[sent..i]
        invariant Sent(running, after, eng.embed, chunks, sent)
      {
        embedBuf := embedBuf + [chunks[i]];
        OneLonger(chunks, sent, i);
        if |embedBuf| >= BatchSize() {
          if Fits(eng.embed, chunks) { FitsSlice(eng.embed, chunks, sent, i + 1); }
          ghost var before := after;
          o, after := FlushEmbedBatch(after);
          if !o.Success? { return; }
          SentMore(running, before, after, eng.embed, chunks, sent, i + 1);
          sent := i + 1;
        }
      }
      if Fits(eng.embed, chunks) { FitsSlice(eng.embed, chunks, sent, |chunks|); }
      ghost var before := after;
      o, after := FlushEmbedBatch(after);
      if !o.Success? { return; }
      SentMore(running, before, after, eng.embed, chunks, sent, |chunks|);
      ghost var drained := after;
      o, after := MarkStatus(calm, after, f, Embeddings, Done, None);
      if o.Success? { SentAll(tx, running, drained, after, eng.embed, chunks, f); }
    }

    /** The three passes over readable content, inside the transaction. */
    method RunPasses(f: int, row: FileRow, cleared: DB, c: Text)
      returns (o: Outcome, tx: DB, ghost syms: seq<Symbol>, ghost ns: seq<int>, ghost cs: seq<int>)
      requires Records(eng, row, c) && Cleared(cleared, f) && cfg == DEFAULT_CONFIG && embedBuf == []
      requires Judge(eng, row.path, c) == Process
      modifies this`currentPass, this`embedBuf
      ensures currentPass != NoPass
      ensures o.Success? ==> RefusedAt(eng, row.path, c) == NoPass
      ensures calm && !o.Success? ==> currentPass == RefusedAt(eng, row.path, c)
      ensures o.Success? ==>
                && SymbolsOf(eng, row.path, c) == Some(syms) && InRange(c, syms)
                && FitsSpecs(eng.embed, ChunkSpecs(eng, row.path, c, syms))
                && Staged(cleared, tx, f, eng,
                          FileIndex(NodeSpecs(eng, row.path, c, syms), ChunkSpecs(eng, row.path, c, syms)), ns, cs)
                && tx.state == MarkAll(cleared, f, Done, None).state
    {
      hide Records, NodesAdded, ChunksAdded, NodeSpecs, ChunkSpecs, SymbolsOf, Cleared, Pairs, InRange, NodeIds, Fits,
        FitsSpecs, Staged, MarkAll, Judge, RefusedAt;
      RefusedIs(eng, row.path, c);
      currentPass := Structural;
      var symbols, symNodes, fileNode;
      syms, ns, cs := [], [], [];
      o, tx, symbols, symNodes, fileNode, ns := RunStructural(f, row, cleared, c);
      if !o.Success? { return; }
      syms := symbols;
      currentPass := Chunker;
      var chunks;
      ghost var built := tx;
      o, tx, chunks, cs := RunChunker(f, row, tx, c, symbols, symNodes, fileNode, ns);
      if !o.Success? { return; }
      currentPass := Embeddings;
      ghost var chunked := tx;
      PairsFit(eng.embed, chunks, ChunkSpecs(eng, row.path, c, syms), cs);
      o, tx := RunEmbeddings(f, tx, chunks);
      if !o.Success? { return; }
      PassesStage(eng, cleared, built, chunked, tx, f, row.path, c, syms, ns, cs, chunks);
    }

    /** Runs the passes and commits their transaction. */
    method IndexFile(f: int, row: FileRow, cleared: DB, c: Text) returns (o: Outcome)
      requires Valid() && IsPending(db, f) && row == db.files[f] && Records(eng, row, c)
          && db.fingerprint == Some(eng.fp)
      requires Judge(eng, row.path, c) == Process && cleared == Clear(db, f) && cfg == DEFAULT_CONFIG && embedBuf == []
      modifies this`db, this`dbs, this`events, this`currentPass, this`embedBuf
      ensures Valid() && Later() && currentPass != NoPass
      ensures if o.Success? then Committed(eng, old(db), db, f, row.path, c) && OneCommit(f) else NoCommit()
      ensures o.Success? ==> RefusedAt(eng, row.path, c) == NoPass
      ensures calm && !o.Success? ==> currentPass == RefusedAt(eng, row.path, c)
    {
      hide Records, NodeSpecs, ChunkSpecs, SymbolsOf, Judge, Clear, InRange, Next, RunOf, Tidy, Staged, MarkAll,
        Cleared, FitsSpecs, Committed, RefusedAt;
      CleanSlate(db, f);
      var tx;
      ghost var syms, ns, cs;
      o, tx, syms, ns, cs := RunPasses(f, row, cleared, c);
      if !o.Success? { return; }
      o := Try(calm);
      if !o.Success? { return; }
      FinishedTransaction(eng, db, cleared, tx, f, c, syms, ns, cs);
      Commit(tx, FileIndexed(f, c, ns, cs));
      assert SettlesFile(FileIndexed(f, c, ns, cs), f);
    }

    /** runPerFile: one file through structural, chunker and embeddings in a single transaction. */
    method RunPerFile(f: int, row: FileRow, disk: map<Path, Text>) returns (o: Outcome)
      requires Valid() && IsPending(db, f) && row == db.files[f] && db.fingerprint == Some(eng.fp)
          && cfg == DEFAULT_CONFIG
      requires row.path in disk && Records(eng, row, disk[row.path])
      modifies this`db, this`dbs, this`events, this`currentPass, this`embedBuf
      ensures Valid() && Later() && (old(currentPass) != NoPass ==> currentPass != NoPass)
      ensures if o.Success? then Committed(eng, old(db), db, f, row.path, disk[row.path])
          && OneCommit(f) else NoCommit()
      ensures o.Success? ==> RefusedAt(eng, row.path, disk[row.path]) == NoPass
      ensures calm && !o.Success? ==> currentPass == RefusedAt(eng, row.path, disk[row.path]) != NoPass
    {
      hide Records, Clear, RunOf, Tidy, Committed, Next, MarkAll, SettlesFile, RefusedAt;
      embedBuf := [];
      ghost var c := disk[row.path];
      RecordsClass(eng, row, c);
      NotRefused(eng, row.path, c);
      o := Try(calm);
      if !o.Success? { return; }
      var cleared;
      o, cleared := Cleanup(f);
      if !o.Success? { return; }
      if row.cls != Code && row.cls != Document {
        o := SkipFile(f, cleared, None, c);
      } else if row.cls == Document && eng.binaryDocument(row.path) {
        o := SkipFile(f, cleared, Some("binary_document_pending_m2"), c);
      } else {
        currentPass := Structural;
        if row.size > MAX_READ_BYTES { return Error("oversize"); }
        o := Try(calm);
        if !o.Success? { return; }
        var content := disk[row.path];
        if IsBinary(content) {
          o := SkipFile(f, cleared, Some("binary_content_detected"), c);
        } else {
          o := IndexFile(f, row, cleared, content);
        }
      }
    }

    /** recordFailure: a failed row outside the rolled-back transaction, if it can be written at all. */
    method RecordFailure(f: int, pass: Pass, message: string)
      requires Valid() && IsPending(db, f)
      modifies this`db, this`dbs, this`events, this`failedFiles
      ensures Valid() && Later() && failedFiles == old(failedFiles) + 1
      ensures db == old(db) || db == FailedRow(old(db), f, pass, message)
      ensures calm ==> db == FailedRow(old(db), f, pass, message)
    {
      failedFiles := failedFiles + 1;
      var p := if pass == NoPass then Structural else pass;
      var o := Try(calm);
      if o.Success? {
        assert FailedRow(db, f, pass, message) == Mark(db, f, p, Failed, Some(message));
        Commit(Mark(db, f, p, Failed, Some(message)), FileFailed(f, p, message));
      }
    }

    /** processOneFile: runPerFile with panic recovery and failure recording. */
    method ProcessOneFile(f: int, disk: map<Path, Text>)
      requires Valid() && IsPending(db, f) && db.fingerprint == Some(eng.fp) && cfg == DEFAULT_CONFIG
      requires db.files[f].path in disk && Records(eng, db.files[f], disk[db.files[f].path])
      modifies this`db, this`dbs, this`events, this`currentPass, this`embedBuf, this`failedFiles, this`cancelled,
        this`processed
      ensures Valid() && Later() && OthersUntouched(old(db), db, f) && (old(cancelled) ==> cancelled)
      ensures processed == old(processed) + [f]
      ensures failedFiles == old(failedFiles) || failedFiles == old(failedFiles) + 1
      ensures failedFiles > old(failedFiles) ==> db == old(db).(state := db.state)
      ensures !cancelled ==> Accounted(eng, calm, db, disk, f, failedFiles > old(failedFiles))
      ensures calm && !old(cancelled) ==> !cancelled
    {
      hide Records, RunOf, Tidy, Next, Mark, OthersUntouched, Valid, Treated, RefusedAt;
      NothingChanged(db, f);
      processed := processed + [f];
      currentPass := Structural;
      var o := Try(calm);
      if o.Success? {
        var row := db.files[f];
        o := RunPerFile(f, row, disk);
      }
      if o.Success? {
        UntouchedFiles(old(db), db, f);
        return;
      }
      if o.Error? {
        var gone := Cancelled();
        if gone { return; }
      }
      FailureOnlyMarks(db, f, currentPass, o.message);
      RecordFailure(f, currentPass, o.message);
    }

    // -------------------------------------------------------------- the walk

    /** The row an upsert lands on: the row of that path, or a new id. */
    method ResolvePath(tx: DB, path: Path) returns (id: int)
      ensures Resolves(tx, path, id)
    {
      var rest := tx.files.Keys;
      while exists k :: k in rest
        invariant forall k :: k in tx.files && k !in rest ==> tx.files[k].path != path
        invariant rest <= tx.files.Keys
        decreases |rest|
      {
        var k :| k in rest;
        if tx.files[k].path == path { return k; }
        rest := rest - {k};
      }
      id := NextRowId(tx.files.Keys);
    }

    /** One batch of upserts in a transaction of its own. */
    method FlushWalk(batch: seq<Seen>, ghost shown: map<Path, Text>, start: int) returns (o: Outcome)
      requires Valid() && FreshAgrees(eng, db, shown, start) && FromDisk(eng, shown, batch)
      modifies this`db, this`dbs, this`events
      ensures Valid() && Later() && db.fingerprint == old(db.fingerprint)
      ensures FreshAgrees(eng, db, shown, start) && Undisturbed(eng, old(db), db, shown, start)
      ensures calm ==> o.Success?
      ensures o.Success? ==> RecentPaths(db, start) == RecentPaths(old(db), start) + PathsOf(batch)
    {
      hide RunOf, Tidy, FreshAgrees, FromDisk, Upsert, Resolves, RecentPaths, PathsOf, Honest, Undisturbed;
      o := Success;
      NothingDisturbed(eng, db, shown, start);
      if batch == [] {
        NothingYet(db, 0, [], eng.embed);
        return;
      }
      o := Try(calm);
      if !o.Success? { return; }
      var tx, later: nat := db, *;
      var now := start + later;
      ghost var ids := [];
      for i := 0 to |batch|
        invariant o.Success? && |ids| == i && tx == UpsertAll(db, batch[..i], ids, now)
        invariant ResolvesAll(db, batch[..i], ids, now)
        invariant db == old(db) && dbs == old(dbs) && events == old(events)
      {
        o := Try(calm);
        if !o.Success? { return; }
        var id := ResolvePath(tx, batch[i].path);
        assert batch[..i + 1][..i] == batch[..i] && (ids + [id])[..i] == ids;
        ids := ids + [id];
        tx := Upsert(tx, batch[i], id, now);
      }
      assert batch[..|batch|] == batch;
      o := Try(calm);
      if !o.Success? { return; }
      FlushEffect(eng, db, shown, batch, ids, now, start);
      FlushUndisturbed(eng, db, shown, batch, ids, now, start);
      HonestBatch(eng, shown, batch);
      UpsertAllKeepsFingerprint(db, batch, ids, now);
      Commit(tx, Walked(batch, ids, now));
    }

    /** One file of the walk: skipped, or batched for the next flush. */
    method Visit(path: Path, batch0: seq<Seen>, disk: map<Path, Text>, locked: set<Path>, start: int,
                 ghost rest: set<Path>, ghost seen0: set<Path>)
      returns (o: Outcome, batch: seq<Seen>, more: nat, ghost seen: set<Path>)
      requires Valid() && path in disk && path in rest && SeenSoFar(Shown(eng, disk, locked), rest, seen0)
      requires var shown := Shown(eng, disk, locked);
               FreshAgrees(eng, db, shown, start) && Batched(eng, db, shown, start, batch0, seen0)
      modifies this`db, this`dbs, this`events, this`cancelled
      ensures Valid() && Later() && db.fingerprint == old(db.fingerprint) && (old(cancelled) ==> cancelled)
      ensures var shown := Shown(eng, disk, locked);
              && FreshAgrees(eng, db, shown, start) && Undisturbed(eng, old(db), db, shown, start)
              && (o.Success? ==> Batched(eng, db, shown, start, batch, seen))
              && (o.Success? ==> SeenSoFar(shown, rest - {path}, seen) && |seen| == |seen0| + more)
      ensures calm && !old(cancelled) ==> o.Success? && !cancelled
    {
      hide Valid, FreshAgrees, RecentPaths, PathsOf, Undisturbed, Tidy, SeenSoFar, Batched, FromDisk, Shown, SeenOf;
      o, batch, seen, more := Success, batch0, seen0, 0;
      ghost var shown := Shown(eng, disk, locked);
      assert Tidy(db) by { ValidIsTidy(); }
      NothingDisturbed(eng, db, shown, start);
      var gone := Cancelled();
      if gone { return Error("context canceled"), batch, more, seen; }
      if eng.ignored(path) || path in locked {
        NotShown(eng, disk, locked, path);
        SeenMore(shown, rest, path, seen, seen);
        return;
      }
      BatchMore(eng, db, disk, locked, start, batch, seen, path);
      SeenMore(shown, rest, path, seen, seen + {path});
      batch := batch + [SeenOf(eng, path, disk[path])];
      seen, more := seen + {path}, 1;
      if |batch| >= WALK_BATCH {
        BatchedParts(eng, db, shown, start, batch, seen);
        o := FlushWalk(batch, shown, start);
        batch := [];
        if o.Success? { BatchFlushed(eng, db, shown, start, seen); }
      }
    }

    lemma ValidIsTidy()
      requires Valid()
      ensures Tidy(db)
    {
    }

    /** Walk: every file shown, that is readable and not ignored, is upserted, in batches, in any order. */
    method Walk(disk: map<Path, Text>, locked: set<Path>, start: int) returns (o: Outcome, count: nat)
      requires Valid() && FreshAgrees(eng, db, Shown(eng, disk, locked), start) && RecentPaths(db, start) == {}
      modifies this`db, this`dbs, this`events, this`cancelled
      ensures Valid() && Later() && db.fingerprint == old(db.fingerprint) && (old(cancelled) ==> cancelled)
      ensures FreshAgrees(eng, db, Shown(eng, disk, locked), start)
      ensures Undisturbed(eng, old(db), db, Shown(eng, disk, locked), start)
      ensures o.Success? ==>
          RecentPaths(db, start) == Shown(eng, disk, locked).Keys && count == |Shown(eng, disk, locked)|
      ensures calm && !old(cancelled) ==> o.Success? && !cancelled
    {
      hide Valid, FreshAgrees, RecentPaths, PathsOf, FromDisk, Batched, Undisturbed, Shown, Tidy;
      ghost var shown := Shown(eng, disk, locked);
      var batch: seq<Seen> := [];
      var rest := disk.Keys;
      ghost var seen := {};
      o, count := Success, 0;
      NothingBatched(eng, db, shown, start, batch);
      ShownIsOnDisk(eng, disk, locked);
      hide SeenSoFar;
      assert Tidy(db) by { ValidIsTidy(); }
      NothingDisturbed(eng, db, shown, start);
      while exists p :: p in rest
        invariant o.Success? && rest <= disk.Keys && Valid() && Later() && db.fingerprint == old(db.fingerprint)
        invariant FreshAgrees(eng, db, shown, start) && Batched(eng, db, shown, start, batch, seen)
            && (old(cancelled) ==> cancelled)
        invariant Undisturbed(eng, old(db), db, shown, start) && SeenSoFar(shown, rest, seen) && count == |seen|
        invariant calm && !old(cancelled) ==> !cancelled
        decreases |rest|
      {
        var path :| path in rest;
        ghost var was := db;
        var more;
        o, batch, more, seen := Visit(path, batch, disk, locked, start, rest, seen);
        rest := rest - {path};
        count := count + more;
        UndisturbedTrans(eng, old(db), was, db, shown, start);
        if !o.Success? { return; }
      }
      BatchedParts(eng, db, shown, start, batch, seen);
      SeenAll(shown, rest, seen);
      ghost var was := db;
      o := FlushWalk(batch, shown, start);
      UndisturbedTrans(eng, old(db), was, db, shown, start);
    }

    /** Files the walk did not see are marked deleted. */
    method MarkDeleted(disk: map<Path, Text>, locked: set<Path>, start: int, ghost before: DB) returns (o: Outcome)
      requires Valid() && FreshAgrees(eng, db, Shown(eng, disk, locked), start)
      requires RecentPaths(db, start) == Shown(eng, disk, locked).Keys
      requires Undisturbed(eng, before, db, Shown(eng, disk, locked), start)
      modifies this`db, this`dbs, this`events
      ensures Valid() && Later() && db.fingerprint == old(db.fingerprint)
      ensures var shown := Shown(eng, disk, locked);
              o.Success? ==>
                Catalogued(eng, before, db, shown, start) && KeepsCurrent(eng, before, db, shown)
                  && PendingIsStale(eng, before, db, shown)
      ensures calm ==> o.Success?
    {
      hide RunOf, FreshAgrees, RecentPaths, Undisturbed, Catalogued, KeepsCurrent, PendingIsStale, TidyFile, Linked;
      o := Try(calm);
      if !o.Success? { return; }
      ghost var shown := Shown(eng, disk, locked);
      ReconcileCatalogues(eng, before, db, shown, start);
      ReconcileKeeps(eng, before, db, shown, start);
      StaleFilesPend(eng, before, db, shown, start);
      Commit(Reconcile(db, start), Reconciled(start));
    }

    /** EnsureFingerprint: refuse another configuration's index, write the row of a fresh one. */
    method EnsureFingerprint() returns (o: Outcome)
      requires Valid()
      modifies this`db, this`dbs, this`events
      ensures Valid() && Later() && db == old(db).(fingerprint := db.fingerprint)
      ensures o.Success? ==> db.fingerprint == Some(eng.fp)
      ensures old(db.fingerprint) != None ==> db == old(db)
      ensures old(db.fingerprint) != None && old(db.fingerprint) != Some(eng.fp) ==> !o.Success?
      ensures calm && (old(db.fingerprint) == None || old(db.fingerprint) == Some(eng.fp)) ==> o.Success?
    {
      hide RunOf, Tidy;
      o := Try(calm);
      if !o.Success? { return; }
      if db.fingerprint.Some? && db.fingerprint.value != eng.fp { return Error("embedding_fingerprint mismatch"); }
      o := Try(calm);
      if !o.Success? { return; }
      if db.fingerprint.None? {
        o := Try(calm);
        if !o.Success? { return; }
        Commit(db.(fingerprint := Some(eng.fp)), Fingerprinted);
      }
    }

    // -------------------------------------------------------------- the main loop

    /** PendingFiles: any `limit` of the pending files, or all of them if they are fewer. */
    method PendingFiles(limit: nat) returns (o: Outcome, ids: seq<int>)
      ensures o.Success? ==> Distinct(ids) && (forall f :: f in ids ==> IsPending(db, f))
      ensures o.Success? && |ids| < limit ==> forall f :: IsPending(db, f) ==> f in ids
      ensures o.Success? ==> |ids| <= limit
      ensures calm ==> o.Success?
    {
      ids := [];
      o := Try(calm);
      if !o.Success? { return; }
      var rest := set f | f in db.files && IsPending(db, f);
      while |ids| < limit && exists f :: f in rest
        invariant Distinct(ids) && |ids| <= limit
        invariant forall f :: IsPending(db, f) <==> f in rest || f in ids
        invariant forall f :: f in rest ==> f !in ids
        decreases |rest|
      {
        var f :| f in rest;
        rest := rest - {f};
        ids := ids + [f];
      }
    }

    /** One pending file of the main loop, with the cancellation checks around it. */
    method ProcessNext(id: int, disk: map<Path, Text>, ghost attempted: set<int>, ghost failed0: set<int>)
      returns (gone: bool, ghost failed: set<int>)
      requires Valid() && db.fingerprint == Some(eng.fp) && cfg == DEFAULT_CONFIG && OnDisk(eng, db, disk)
      requires IsPending(db, id) && id !in attempted && Ledger(eng, calm, db, disk, attempted, failed0, failedFiles)
      requires Once(processed, attempted)
      modifies this`db, this`dbs, this`events, this`currentPass, this`embedBuf, this`failedFiles, this`cancelled,
        this`processed
      ensures Valid() && Later() && (old(cancelled) ==> cancelled) && OthersUntouched(old(db), db, id)
      ensures AtMostOnce(processed, attempted + {id}) && (!gone ==> Once(processed, attempted + {id}))
      ensures OnDisk(eng, db, disk) && failedFiles <= old(failedFiles) + 1
      ensures !gone ==> Ledger(eng, calm, db, disk, attempted + {id}, failed, failedFiles)
      ensures calm && !old(cancelled) ==> !gone && !cancelled
    {
      hide Valid, OnDisk, Ledger, Once, AtMostOnce, OthersUntouched, Accounted;
      NothingChanged(db, id);
      OnceMore(processed, attempted, id);
      failed := failed0;
      gone := Cancelled();
      if gone { return; }
      LiveOnDisk(eng, db, disk, id);
      ProcessOneFile(id, disk);
      UntouchedFiles(old(db), db, id);
      OnDiskKept(eng, old(db), db, disk);
      gone := Cancelled();
      if !gone {
        failed := if failedFiles == old(failedFiles) then failed0 else failed0 + {id};
        LedgerStep(eng, calm, old(db), db, disk, attempted, failed0, failed, id, old(failedFiles), failedFiles);
      }
    }

    /** One turn of the main loop over a fetched batch. */
    method ProcessBatch(ids: seq<int>, attempted0: set<int>, disk: map<Path, Text>, ghost failed0: set<int>)
      returns (o: Outcome, attempted: set<int>, progressed: bool, ghost failed: set<int>)
      requires Valid() && db.fingerprint == Some(eng.fp) && cfg == DEFAULT_CONFIG && OnDisk(eng, db, disk)
      requires Distinct(ids) && forall f :: f in ids ==> IsPending(db, f)
      requires Ledger(eng, calm, db, disk, attempted0, failed0, failedFiles) && Once(processed, attempted0)
      modifies this`db, this`dbs, this`events, this`currentPass, this`embedBuf, this`failedFiles, this`cancelled,
        this`processed
      ensures Valid() && Later() && (old(cancelled) ==> cancelled) && OnDisk(eng, db, disk)
      ensures Spared(old(db), db, attempted)
      ensures attempted0 <= attempted && forall f :: f in attempted - attempted0 ==> f in ids
      ensures o.Success? ==>
          Ledger(eng, calm, db, disk, attempted, failed, failedFiles) && forall f :: f in ids ==> f in attempted
      ensures !progressed ==> attempted == attempted0 && db == old(db)
      ensures progressed ==> attempted0 < attempted
      ensures AtMostOnce(processed, attempted) && (o.Success? ==> Once(processed, attempted))
      ensures calm && !old(cancelled) ==> o.Success? && !cancelled
    {
      hide Valid, OnDisk, Ledger, OthersUntouched, IsPending, Once, AtMostOnce, Spared;
      OnceIsAtMostOnce(processed, attempted0);
      NothingTouched(db, attempted0);
      o, attempted, progressed, failed := Success, attempted0, false, failed0;
      for i := 0 to |ids|
        invariant o.Success? && Valid() && Later() && (old(cancelled) ==> cancelled) && OnDisk(eng, db, disk)
        invariant Ledger(eng, calm, db, disk, attempted, failed, failedFiles) && Spared(old(db), db, attempted)
        invariant db.fingerprint == old(db.fingerprint)
        invariant attempted0 <= attempted && forall f :: f in attempted - attempted0 ==> f in ids
        invariant forall j :: 0 <= j < i ==> ids[j] in attempted
        invariant forall j :: i <= j < |ids| ==> IsPending(db, ids[j])
        invariant !progressed ==> attempted == attempted0 && db == old(db)
        invariant progressed ==> attempted0 < attempted
        invariant Once(processed, attempted) && AtMostOnce(processed, attempted)
        invariant calm && !old(cancelled) ==> !cancelled
      {
        var id := ids[i];
        if id !in attempted {
          ghost var was := db;
          var gone;
          gone, failed := ProcessNext(id, disk, attempted, failed);
          SparedStep(old(db), was, db, attempted, id);
          UntouchedFiles(was, db, id);
          attempted, progressed := attempted + {id}, true;
          if gone { return Error("context canceled"), attempted, progressed, failed; }
          forall j | i < j < |ids|
            ensures IsPending(db, ids[j])
          {
            OthersStayPending(was, db, id, ids[j]);
          }
        }
      }
    }

    /** Run's main loop: it stops when a fetch brings nothing that was not attempted before. */
    method WorkThrough(disk: map<Path, Text>) returns (o: Outcome, attempted: set<int>, ghost failed: set<int>)
      requires Valid() && db.fingerprint == Some(eng.fp) && cfg == DEFAULT_CONFIG && OnDisk(eng, db, disk)
          && processed == []
      modifies this`db, this`dbs, this`events, this`currentPass, this`embedBuf, this`failedFiles, this`cancelled,
        this`processed
      ensures Valid() && Later() && (old(cancelled) ==> cancelled) && OnDisk(eng, db, disk)
      ensures Spared(old(db), db, attempted)
      ensures AtMostOnce(processed, attempted) && (o.Success? ==> Once(processed, attempted))
      ensures o.Success? ==> Ledger(eng, calm, db, disk, attempted, failed, failedFiles)
      ensures o.Success? ==> forall f :: IsPending(db, f) ==> f in attempted
      ensures o.Success? ==> forall f :: f in attempted <==> IsPending(old(db), f)
      ensures calm && !old(cancelled) ==> o.Success? && !cancelled
    {
      hide Valid, OnDisk, Ledger, Once, AtMostOnce, PendingSet, IsPending, Spared;
      o, attempted, failed := Success, {}, {};
      failedFiles := 0;
      NothingTried(eng, calm, db, disk);
      NothingTouched(db, attempted);
      ghost var stale := PendingSet(db);
      while true
        invariant o.Success? && Valid() && Later() && (old(cancelled) ==> cancelled) && OnDisk(eng, db, disk)
        invariant Spared(old(db), db, attempted) && db.fingerprint == old(db.fingerprint)
        invariant attempted <= stale && Ledger(eng, calm, db, disk, attempted, failed, failedFiles)
        invariant Once(processed, attempted) && AtMostOnce(processed, attempted)
        invariant calm && !old(cancelled) ==> !cancelled
        decreases |stale - attempted|
      {
        var gone := Cancelled();
        if gone { return Error("context canceled"), attempted, failed; }
        var ids;
        o, ids := PendingFiles(|attempted| + PENDING_FETCH_SIZE);
        if !o.Success? { return; }
        var progressed;
        ghost var before, dbBefore := attempted, db;
        o, attempted, progressed, failed := ProcessBatch(ids, attempted, disk, failed);
        SparedTrans(old(db), dbBefore, db, before, attempted);
        SparedFingerprint(old(db), db, attempted);
        AddedWerePending(old(db), dbBefore, before, attempted);
        if !o.Success? { return; }
        if !progressed {
          FetchedAll(ids, attempted);
          AllAttempted(old(db), db, attempted);
          return;
        }
        Shrinks(stale, before, attempted);
      }
    }

    /** Nothing stands in the way of a run: the caller's parts are there, and the fingerprint is not another's. */
    predicate CanRun(ready: bool)
      reads this
    {
      && !cancelled && ready && (cfg == Config(0, 0, 0, 0) || cfg == DEFAULT_CONFIG)
      && (db.fingerprint == None || db.fingerprint == Some(eng.fp))
    }

    /** The steps of Run before its main loop. */
    method Prepare(disk: map<Path, Text>, locked: set<Path>, start: int) returns (o: Outcome)
      requires Valid() && forall f :: f in db.files ==> db.files[f].lastSeen < start
      modifies this`db, this`dbs, this`events, this`cancelled
      ensures Valid() && Later() && (old(cancelled) ==> cancelled)
      ensures o.Success? ==>
          Prepared(eng, old(db), db, Shown(eng, disk, locked), start) && OnDisk(eng, db, disk)
      ensures calm && !old(cancelled) && (old(db).fingerprint == None || old(db).fingerprint == Some(eng.fp)) ==>
          o.Success? && !cancelled
    {
      hide Valid, OnDisk, FreshAgrees, RecentPaths, LivePaths, Live, Undisturbed, Catalogued, KeepsCurrent,
        PendingIsStale, Shown, Prepared;
      ghost var shown := Shown(eng, disk, locked);
      NothingRecent(eng, db, shown, start);
      var count;
      o, count := Walk(disk, locked, start);
      if !o.Success? { return; }
      o := MarkDeleted(disk, locked, start, old(db));
      if !o.Success? { return; }
      ghost var walked := db;
      o := EnsureFingerprint();
      if !o.Success? { return; }
      o := Try(calm);
      if !o.Success? { return; }
      PreparedNow(eng, old(db), walked, db, disk, locked, start);
    }

    /**
     Run: walk, mark deleted files, check the fingerprint, then index every pending file. The disk is given as the
     contents of its files, `locked` as the paths that cannot be read.
     */
    method Run(ready: bool, disk: map<Path, Text>, locked: set<Path>, start: int)
      returns (o: Outcome, attempted: set<int>, ghost failed: set<int>)
      requires Valid() && forall f :: f in db.files ==> db.files[f].lastSeen < start
      modifies this
      ensures Valid() && Later() && (old(cancelled) ==> cancelled)
      ensures o.Success? ==> db.fingerprint == Some(eng.fp) && OnDisk(eng, db, disk)
      ensures o.Success? ==> LivePaths(db, set p | p in disk && !eng.ignored(p) && p !in locked)
      ensures o.Success? ==> Catalogued(eng, old(db), db, Shown(eng, disk, locked), start)
      ensures o.Success? ==> failed <= attempted && |failed| == failedFiles <= |attempted|
      ensures o.Success? ==> Ledger(eng, calm, db, disk, attempted, failed, failedFiles)
      ensures o.Success? ==> StaleAttempted(eng, old(db), db, Shown(eng, disk, locked), attempted)
      ensures o.Success? && Injective(eng) && Faithful(eng, old(db)) ==> AllRight(eng, calm, db, disk, failed)
      ensures AtMostOnce(processed, attempted) && (o.Success? ==> Once(processed, attempted))
      ensures calm && old(CanRun(ready)) ==> o.Success? && !cancelled
    {
      hide Valid, OnDisk, Ledger, FreshAgrees, RecentPaths, LivePaths, Settled, IsPending, Live, Once, AtMostOnce,
        Undisturbed, Catalogued, KeepsCurrent, PendingIsStale, StaleAttempted, AllRight, Spared, Shown, Tidy,
          Injective, Faithful;
      attempted, failed, processed := {}, {}, [];
      assert Tidy(db) by { ValidIsTidy(); }
      ghost var a := db;
      NothingTried(eng, calm, db, disk);
      if !ready { return Error("runner init"), attempted, failed; }
      if cfg == Config(0, 0, 0, 0) { cfg := DEFAULT_CONFIG; }
      if cfg != DEFAULT_CONFIG { return Error("chunking config"), attempted, failed; }
      o := Prepare(disk, locked, start);
      if !o.Success? { return; }
      ghost var walked := db;
      o, attempted, failed := WorkThrough(disk);
      if !o.Success? { return; }
      RunEnds(eng, calm, a, walked, db, disk, locked, start, attempted, failed, failedFiles);
    }
  }
}
