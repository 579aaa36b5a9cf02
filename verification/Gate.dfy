/**
 The server's read-side gate (internal/v3/embed/compat.go, internal/v3/grpc/server.go): a server
 that starts ungated searches vectors of its own quantization mode only, for good, exactly when
 the fingerprint row existed when it started.
 */
module Gate {
  import opened Bytes
  import opened Prose
  import opened Store
  import opened Indexing
  import opened History
  import opened Safety
  import opened Staging
  import opened RunnerSteps
  import opened Fingerprints

  /** What reading the fingerprint row gives: a row, no row, or a fault of the table. */
  datatype Reading = Row(fp: Fingerprint) | NoRow | Fault(message: string)

  function Read(db: DB): Reading {
    match db.fingerprint
    case Some(fp) => Row(fp)
    case None => NoRow
  }

  /** SemanticIndexCompatible: fails open on a missing row only, and closed on any fault. */
  function SemanticIndexCompatible(r: Reading, mode: string): (res: (bool, string))
    ensures res.0 <==> (r.NoRow? || (r.Row? && r.fp.mode == mode))
    ensures r.Fault? ==> !res.0
  {
    match r
    case NoRow => (true, "")
    case Fault(message) => (false, "unreadable fingerprint: " + message)
    case Row(fp) => if fp.mode != mode then (false, fp.mode) else (true, "")
  }

  /** Every vector a search would meet was made by a model of the server's mode, from the text of its chunk. */
  ghost predicate RightVectors(db: DB, mode: string, models: Models) {
    forall c :: c in db.vectors ==> c in db.chunks && RightVector(db.vectors[c], db.chunks[c].text, mode, models)
  }

  ghost predicate RightVector(v: Vector, t: Text, mode: string, models: Models) {
    exists fp: Fingerprint :: fp.mode == mode && v == models(fp)(t)
  }

  ghost predicate AllEmbed(engs: seq<Engine>, models: Models) {
    forall k :: 0 <= k < |engs| ==> Embeds(engs[k], models)
  }

  /** However the indexers run on, a search meets vectors of the mode only. */
  ghost predicate SafeForever(db: DB, mode: string, models: Models) {
    forall dbs, events, engs :: IsRun(dbs, events, engs) && dbs[0] == db && AllEmbed(engs, models) ==>
      RightVectors(dbs[|events|], mode, models)
  }

  // ---------------------------------------------------------------- with a row

  lemma RowIsSafe(db: DB, mode: string, models: Models)
    requires db.fingerprint.Some? && db.fingerprint.value.mode == mode && Pure(db, models)
    ensures SafeForever(db, mode, models)
  {
    hide Next, Embeds;
    forall dbs, events, engs | IsRun(dbs, events, engs) && dbs[0] == db && AllEmbed(engs, models)
      ensures RightVectors(dbs[|events|], mode, models)
    {
      RunIsSafe(dbs, events, engs, mode, models);
    }
  }

  lemma RunIsSafe(dbs: seq<DB>, events: seq<Event>, engs: seq<Engine>, mode: string, models: Models)
    requires IsRun(dbs, events, engs) && AllEmbed(engs, models) && Pure(dbs[0], models)
    requires dbs[0].fingerprint.Some? && dbs[0].fingerprint.value.mode == mode
    ensures RightVectors(dbs[|events|], mode, models)
  {
    FingerprintIsForever(dbs, events, engs, 0, |events|);
    VectorsNeverMixed(dbs, events, engs, models, |events|);
    var end := dbs[|events|];
    hide IsRun;
    forall c | c in end.vectors
      ensures c in end.chunks && RightVector(end.vectors[c], end.chunks[c].text, mode, models)
    {
      assert end.fingerprint.value.mode == mode;
    }
  }

  // ---------------------------------------------------------------- without a row

  function Zeros(t: Text): (v: Vector)
    ensures |v| == DIMENSION && v[0] == 0
  {
    seq(DIMENSION, i => 0)
  }

  function Ones(t: Text): (v: Vector)
    ensures |v| == DIMENSION && v[0] == 1
  {
    seq(DIMENSION, i => 1)
  }

  /** Models that tell the server's mode from every other. */
  function TwoModels(mode: string): Models {
    (fp: Fingerprint) => if fp.mode == mode then Zeros else Ones
  }

  const CONTENT: Text := [97]
  const PATH: Path := [47, 97]

  function Nothing(t: Text): nat {
    0
  }

  /** An indexer of another mode, to which every file is a short document; its hash is the constant `sha`. */
  function OtherEngine(mode: string, sha: Text): Engine {
    Engine(
      t => sha, (p, t) => ([], Document), p => false, p => false, p => p, p => None, (l, t) => None,
      Nothing, Ones, Fingerprint("", "", DIMENSION, "", mode + "'"))
  }

  lemma OtherEngineEmbeds(mode: string, sha: Text)
    ensures Embeds(OtherEngine(mode, sha), TwoModels(mode))
  {
    assert |mode + "'"| == |mode| + 1;
  }

  lemma FreshId(used: set<int>) returns (id: int)
    ensures id !in used
  {
    var rest := used;
    id := 1;
    while exists k :: k in rest
      invariant rest <= used
      invariant forall k :: k in used && k !in rest ==> k < id
      decreases |rest|
    {
      var k :| k in rest;
      if k >= id { id := k + 1; }
      rest := rest - {k};
    }
  }

  /** Before there is a fingerprint row, there are no vectors. */
  lemma {:induction false} NoRowNoVectors(dbs: seq<DB>, events: seq<Event>, engs: seq<Engine>, i: nat)
    requires IsRun(dbs, events, engs) && i < |dbs| && dbs[0].vectors == map[]
    ensures dbs[i].fingerprint.None? ==> forall c :: c !in dbs[i].vectors
    decreases i
  {
    if i > 0 && dbs[i].fingerprint.None? {
      var eng, a, b, e := engs[i - 1], dbs[i - 1], dbs[i - 1 + 1], events[i - 1];
      assert Next(eng, a, b, e);
      hide Next, IsRun;
      if a.fingerprint.Some? { NextKeepsFingerprint(eng, a, b, e); }
      NoRowNoVectors(dbs, events, engs, i - 1);
      var models: Models := fp => eng.embed;
      assert Embeds(eng, models) && Pure(a, models);
      NextKeepsPure(eng, a, b, e, models);
    }
  }

  /** The one chunk of the file. */
  function OneChunk(): ChunkSpec {
    ChunkSpec(0, CONTENT, 0, 1, 0, ProseKind)
  }

  lemma OneChunkFile(mode: string, sha: Text)
    ensures var eng := OtherEngine(mode, sha);
            && Indexable(eng, PATH, CONTENT)
            && Build(eng, PATH, CONTENT) == FileIndex([NodeSpec(PATH, FileNode([]))], [OneChunk()])
  {
    var eng := OtherEngine(mode, sha);
    assert !Blank(CONTENT);
    assert ProseTrace(CONTENT, DEFAULT_CONFIG, Nothing) == [Traced(Chunk(CONTENT, 0, 1, 0), 0, false)];
    hide TracedSplit, Blank;
    assert SymbolsOf(eng, PATH, CONTENT) == Some([]);
    assert ChunkSpecs(eng, PATH, CONTENT, []) == [OneChunk()];
  }

  /** A walk that finds just this file is one upsert. */
  lemma OneVisit(eng: Engine, db: DB, s: Seen, id: int)
    requires Resolves(db, s.path, id) && Honest(eng, s)
    ensures Next(eng, db, Upsert(db, s, id, 0), Walked([s], [id], 0))
  {
    hide Upsert, Resolves, Honest;
    assert [s][..0] == [] && [id][..0] == [];
    assert UpsertAll(db, [], [], 0) == db && ResolvesAll(db, [], [], 0);
    assert UpsertAll(db, [s], [id], 0) == Upsert(db, s, id, 0);
    assert ResolvesAll(db, [s], [id], 0);
  }

  /** The row of the path, if there is one, and a hash it does not have. */
  lemma PathRow(db: DB) returns (sha: Text, id: int)
    ensures Resolves(db, PATH, id) && (id in db.files ==> db.files[id].sha != sha)
  {
    if f :| f in db.files && db.files[f].path == PATH {
      id, sha := f, db.files[f].sha + [0];
      assert |sha| == |db.files[f].sha| + 1;
    } else {
      id := FreshId(db.files.Keys);
      sha := [];
    }
  }

  /** The walk that finds the file: it is pending afterwards, and recorded. */
  lemma FileFound(db: DB, mode: string) returns (sha: Text, id: int, after: DB)
    requires Tidy(db)
    ensures var eng := OtherEngine(mode, sha);
            && Next(eng, db, after, Walked([SeenOf(eng, PATH, CONTENT)], [id], 0))
            && IsPending(after, id) && Records(eng, after.files[id], CONTENT) && after.files[id].path == PATH
            && after.fingerprint == db.fingerprint
  {
    sha, id := PathRow(db);
    var eng := OtherEngine(mode, sha);
    var s := SeenOf(eng, PATH, CONTENT);
    after := Upsert(db, s, id, 0);
    assert Honest(eng, s);
    OneVisit(eng, db, s, id);
    ClearTables(db, id);
    hide Clear, Next, Resolves;
  }

  /** The file is indexed, and the vector of the other mode is stored. */
  lemma FileIsIndexed(db: DB, mode: string, sha: Text, id: int) returns (n: int, ch: int, after: DB)
    requires Tidy(db) && IsPending(db, id) && Records(OtherEngine(mode, sha), db.files[id], CONTENT)
        && db.files[id].path == PATH
    requires db.fingerprint == Some(OtherEngine(mode, sha).fp)
    ensures Next(OtherEngine(mode, sha), db, after, FileIndexed(id, CONTENT, [n], [ch]))
    ensures ch in after.vectors && after.vectors[ch] == Ones(CONTENT) && ch in after.chunks
        && after.chunks[ch].text == CONTENT
  {
    var eng := OtherEngine(mode, sha);
    var base := Clear(db, id);
    CleanSlate(db, id);
    n := FreshId(base.nodes.Keys);
    ch := FreshId(base.chunks.Keys);
    var node, chunk := NodeSpec(PATH, FileNode([])), OneChunk();
    after := DB(base.files, MarkAll(base, id, Done, None).state, base.nodes[n := NodeRow(id, node.name, node.kind)],
                base.chunks[ch := RowOf(chunk, [n])], base.vectors[ch := Ones(CONTENT)], base.fingerprint);
    OneChunkFile(mode, sha);
    ClearTables(db, id);
    hide Clear, Indexable, Build, Records, Tidy, MarkAll, IsPending, Staged, Next, Cleared;
    OneFileStaged(base, after, id, eng, node, chunk, n, ch);
    StagedIsIndexed(eng, db, after, id, CONTENT, [n], [ch]);
  }

  lemma OneFileStaged(base: DB, after: DB, id: int, eng: Engine, node: NodeSpec, chunk: ChunkSpec, n: int, ch: int)
    requires n !in base.nodes && ch !in base.chunks && chunk.node == 0
    requires after == base.(state := after.state, nodes := base.nodes[n := NodeRow(id, node.name, node.kind)],
                            chunks := base.chunks[ch := RowOf(chunk, [n])],
                            vectors := base.vectors[ch := eng.embed(chunk.text)]) && ch !in base.vectors
    ensures Staged(base, after, id, eng, FileIndex([node], [chunk]), [n], [ch])
  {
    hide NodesAdded, ChunksAdded;
    OneNode(base.nodes, id, node, n);
    OneRow(base.chunks, ch, chunk, n);
  }

  lemma OneRow(chunks: map<int, ChunkRow>, ch: int, spec: ChunkSpec, n: int)
    requires ch !in chunks && spec.node == 0
    ensures ChunksAdded(chunks, chunks[ch := RowOf(spec, [n])], [spec], [n], [ch])
  {
    assert ChunksAdded(chunks, chunks, [], [n], []);
    AddChunk(chunks, chunks, [], [n], [], ch, spec);
    assert [] + [spec] == [spec] && [] + [ch] == [ch];
  }

  lemma OnesAreWrong(mode: string, t: Text)
    ensures !RightVector(Ones(t), t, mode, TwoModels(mode))
  {
    hide Ones, Zeros;
    assert Ones(t)[0] != Zeros(t)[0];
  }

  lemma ThreeSteps(eng: Engine, a: DB, b: DB, c: DB, d: DB, e: Event, f: Event, g: Event, models: Models)
    requires Next(eng, a, b, e) && Next(eng, b, c, f) && Next(eng, c, d, g) && Embeds(eng, models)
    ensures IsRun([a, b, c, d], [e, f, g], [eng, eng, eng]) && AllEmbed([eng, eng, eng], models)
  {
    hide Next, Embeds;
  }

  /** The row of the other mode is written. */
  lemma RowWritten(db: DB, mode: string, sha: Text)
    requires Tidy(db) && db.fingerprint.None?
    ensures var eng := OtherEngine(mode, sha);
            Next(eng, db, db.(fingerprint := Some(eng.fp)), Fingerprinted) && Tidy(db.(fingerprint := Some(eng.fp)))
  {
    var eng := OtherEngine(mode, sha);
    NextKeepsTidy(eng, db, db.(fingerprint := Some(eng.fp)), Fingerprinted);
  }

  lemma SameRow(mode: string, sha: Text)
    ensures OtherEngine(mode, sha).fp == OtherEngine(mode, []).fp
  {
  }

  lemma WrongVector(db: DB, ch: int, mode: string)
    requires ch in db.vectors && db.vectors[ch] == Ones(CONTENT) && ch in db.chunks && db.chunks[ch].text == CONTENT
    ensures !RightVectors(db, mode, TwoModels(mode))
  {
    hide Ones, RightVector;
    OnesAreWrong(mode, CONTENT);
  }

  /** From a state without a row, an indexer of another mode writes the row, finds the file and stores its vector. */
  lemma NoRowIsUnsafe(db: DB, mode: string)
    requires Tidy(db) && db.fingerprint.None?
    ensures !SafeForever(db, mode, TwoModels(mode))
  {
    hide *;
    RowWritten(db, mode, []);
    var printed := db.(fingerprint := Some(OtherEngine(mode, []).fp));
    var sha, id, found := FileFound(printed, mode);
    var eng := OtherEngine(mode, sha);
    SameRow(mode, sha);
    RowWritten(db, mode, sha);
    var walked := Walked([SeenOf(eng, PATH, CONTENT)], [id], 0);
    NextKeepsTidy(eng, printed, found, walked);
    var n, ch, after := FileIsIndexed(found, mode, sha, id);
    OtherEngineEmbeds(mode, sha);
    var indexed := FileIndexed(id, CONTENT, [n], [ch]);
    ThreeSteps(eng, db, printed, found, after, Fingerprinted, walked, indexed, TwoModels(mode));
    WrongVector(after, ch, mode);
    RunRefutes(db, mode, TwoModels(mode), [db, printed, found, after], [Fingerprinted, walked, indexed],
               [eng, eng, eng]);
  }

  lemma RunRefutes(db: DB, mode: string, models: Models, dbs: seq<DB>, events: seq<Event>, engs: seq<Engine>)
    requires IsRun(dbs, events, engs) && dbs[0] == db && AllEmbed(engs, models)
        && !RightVectors(dbs[|events|], mode, models)
    ensures !SafeForever(db, mode, models)
  {
    hide Next, Embeds, RightVectors;
  }

  /**
   In any state an index gets to, a server that starts ungated only ever meets vectors of its own
   mode, whatever the models and however indexers of any configuration run on, if and only if the
   fingerprint row existed when it started.
   */
  lemma GateSoundIff(dbs: seq<DB>, events: seq<Event>, engs: seq<Engine>, mode: string)
    requires IsRun(dbs, events, engs) && dbs[0] == EMPTY
    requires SemanticIndexCompatible(Read(dbs[|events|]), mode).0
    ensures var db := dbs[|events|];
            (forall models :: Pure(db, models) ==> SafeForever(db, mode, models)) <==> db.fingerprint.Some?
  {
    var db := dbs[|events|];
    EmptyIsTidy(OtherEngine(mode, []));
    EveryStateTidy(dbs, events, engs, |events|);
    NoRowNoVectors(dbs, events, engs, |events|);
    hide IsRun, SafeForever, Tidy;
    if db.fingerprint.Some? {
      forall models | Pure(db, models)
        ensures SafeForever(db, mode, models)
      {
        RowIsSafe(db, mode, models);
      }
    } else {
      NoRowIsUnsafe(db, mode);
      assert Pure(db, TwoModels(mode));
    }
  }
}
