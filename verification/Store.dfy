/**
 The index database as the indexer uses it (internal/v3/store): its tables, the row operations
 the pipeline and the walker issue, and the foreign-key cascades and trigger behind them.
 A `DB` value is one committed state; a transaction works on a copy.
 */
module Store {
  import opened Bytes
  import opened CodeChunks

  type Path = Text
  type Vector = seq<Byte>

  const DIMENSION: nat := 384

  datatype ContentClass = Code | Document | Image | Media | Data | Unknown

  /** The passes the runner checkpoints; `NoPass` is the empty pass name. */
  datatype Pass = NoPass | Structural | Chunker | Embeddings

  datatype Status = Pending | Running | Done | Failed | Skipped

  datatype FileRow = FileRow(path: Path, sha: Text, size: nat, mime: Text, cls: ContentClass,
                             lastSeen: int, deletedAt: Option<int>)

  datatype StateRow = StateRow(status: Status, error: Option<string>)

  datatype NodeKind = SymbolNode(lang: Text, sym: Symbol) | FileNode(mime: Text)

  datatype NodeRow = NodeRow(file: int, name: Text, kind: NodeKind)

  datatype ChunkKind = ProseKind | CodeAst | CodeFallback

  datatype ChunkRow = ChunkRow(node: int, text: Text, start: nat, end: nat, tokens: nat, kind: ChunkKind)

  datatype Fingerprint = Fingerprint(model: string, version: string, dimension: nat, policy: string, mode: string)

  datatype DB = DB(files: map<int, FileRow>, state: map<(int, Pass), StateRow>, nodes: map<int, NodeRow>,
                   chunks: map<int, ChunkRow>, vectors: map<int, Vector>, fingerprint: Option<Fingerprint>)

  const EMPTY := DB(map[], map[], map[], map[], map[], None)

  // ---------------------------------------------------------------- queries

  predicate HasStatus(db: DB, f: int, p: Pass, s: Status) {
    (f, p) in db.state && db.state[(f, p)].status == s
  }

  predicate Live(db: DB, f: int) {
    f in db.files && db.files[f].deletedAt == None
  }

  /** What PendingFiles(PassEmbeddings) selects. */
  predicate IsPending(db: DB, f: int) {
    Live(db, f) && !HasStatus(db, f, Embeddings, Done)
  }

  predicate OwnsNode(db: DB, f: int, n: int) {
    n in db.nodes && db.nodes[n].file == f
  }

  predicate OwnsChunk(db: DB, f: int, c: int) {
    c in db.chunks && OwnsNode(db, f, db.chunks[c].node)
  }

  // ---------------------------------------------------------------- row operations

  /** DELETE FROM embeddings for the chunks of file `f`. */
  function DropVectors(db: DB, f: int): DB {
    db.(vectors := map c | c in db.vectors && !OwnsChunk(db, f, c) :: db.vectors[c])
  }

  /** DELETE FROM pipeline_state for file `f`. */
  function DropState(db: DB, f: int): DB {
    db.(state := map k | k in db.state && k.0 != f :: db.state[k])
  }

  /** DELETE FROM nodes for file `f`; the chunks go by ON DELETE CASCADE, the vectors do not. */
  function DropNodes(db: DB, f: int): DB {
    db.(nodes := map n | n in db.nodes && !OwnsNode(db, f, n) :: db.nodes[n],
        chunks := map c | c in db.chunks && !OwnsChunk(db, f, c) :: db.chunks[c])
  }

  /** The three deletes in the order of the runner's cleanup and of the sha256 trigger. */
  function Clear(db: DB, f: int): DB {
    DropNodes(DropState(DropVectors(db, f), f), f)
  }

  /** The two states have the same rows outside file `f`. */
  predicate AgreeElsewhere(a: DB, b: DB, f: int) {
    var x, y := Clear(a, f), Clear(b, f);
    x.state == y.state && x.nodes == y.nodes && x.chunks == y.chunks && x.vectors == y.vectors
  }

  function Mark(db: DB, f: int, p: Pass, s: Status, error: Option<string>): DB {
    db.(state := db.state[(f, p) := StateRow(s, error)])
  }

  /** What the walker knows of a visited file. */
  datatype Seen = Seen(path: Path, sha: Text, size: nat, mime: Text, cls: ContentClass)

  /** The id an upsert of `path` resolves to: the row of that path, or any unused id. */
  predicate Resolves(db: DB, path: Path, id: int) {
    if id in db.files then db.files[id].path == path
    else forall g :: g in db.files ==> db.files[g].path != path
  }

  /** INSERT ... ON CONFLICT(path) DO UPDATE, with the BEFORE UPDATE OF sha256 trigger. */
  function Upsert(db: DB, s: Seen, id: int, now: int): DB {
    var row := FileRow(s.path, s.sha, s.size, s.mime, s.cls, now, None);
    var base := if id in db.files && db.files[id].sha != s.sha then Clear(db, id) else db;
    base.(files := base.files[id := row])
  }

  /** One flushed batch of the walker: its upserts in order, in one transaction. */
  function UpsertAll(db: DB, batch: seq<Seen>, ids: seq<int>, now: int): DB
    requires |ids| == |batch|
  {
    if batch == [] then db
    else
      var n := |batch| - 1;
      Upsert(UpsertAll(db, batch[..n], ids[..n], now), batch[n], ids[n], now)
  }

  predicate ResolvesAll(db: DB, batch: seq<Seen>, ids: seq<int>, now: int)
    requires |ids| == |batch|
  {
    batch == [] ||
    var n := |batch| - 1;
    && ResolvesAll(db, batch[..n], ids[..n], now)
    && Resolves(UpsertAll(db, batch[..n], ids[..n], now), batch[n].path, ids[n])
  }

  /** Deletion reconciliation: live files this walk did not see are marked deleted. */
  function Reconcile(db: DB, start: int): DB {
    db.(files := map f | f in db.files ::
          if db.files[f].lastSeen < start && db.files[f].deletedAt == None
          then db.files[f].(deletedAt := Some(start)) else db.files[f])
  }

  // ---------------------------------------------------------------- referential integrity

  /** What the foreign keys, the unique path and the status values of every committed state keep. */
  ghost predicate Linked(db: DB) {
    && (forall n :: n in db.nodes ==> db.nodes[n].file in db.files)
    && (forall c :: c in db.chunks ==> db.chunks[c].node in db.nodes)
    && (forall k :: k in db.state ==> k.0 in db.files && k.1 != NoPass && db.state[k].status != Running)
    && (forall f, g :: f in db.files && g in db.files && db.files[f].path == db.files[g].path ==> f == g)
  }

  /** A done file has all three passes done; any other file has no rows. */
  ghost predicate TidyFile(db: DB, f: int) {
    if HasStatus(db, f, Embeddings, Done) then HasStatus(db, f, Structural, Done) && HasStatus(db, f, Chunker, Done)
    else forall n :: !OwnsNode(db, f, n)
  }

  ghost predicate Tidy(db: DB) {
    && Linked(db)
    && db.vectors.Keys == db.chunks.Keys
    && forall f :: TidyFile(db, f)
  }
}
