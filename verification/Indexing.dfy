/**
 What a from-scratch pass over one file's content makes: the specification the indexing
 pipeline (internal/v3/pipeline/runner.go) is held to.
 */
module Indexing {
  import opened Bytes
  import opened Prose
  import opened CodeChunks
  import opened Store

  /**
   Everything an indexer binary brings with it. The functions stand for foreign code: the file
   hash, the MIME classifier, the grammars, the token counter and the embedding model.
   */
  datatype Engine = Engine(
    hash: Text -> Text,
    classify: (Path, Text) -> (Text, ContentClass),
    ignored: Path -> bool,
    binaryDocument: Path -> bool,
    baseName: Path -> Text,
    grammar: Path -> Option<Text>,
    extract: (Text, Text) -> Option<seq<Symbol>>,
    count: Counter,
    embed: Text -> Vector,
    fp: Fingerprint)

  /** No two contents share a sha256. */
  ghost predicate Injective(eng: Engine) {
    forall a, b :: eng.hash(a) == eng.hash(b) ==> a == b
  }

  const MAX_READ_BYTES: nat := 32 * 1024 * 1024

  function SeenOf(eng: Engine, path: Path, c: Text): Seen {
    var (mime, cls) := eng.classify(path, c);
    Seen(path, eng.hash(c), |c|, mime, cls)
  }

  /** The row records content `c`. */
  predicate Records(eng: Engine, row: FileRow, c: Text) {
    Seen(row.path, row.sha, row.size, row.mime, row.cls) == SeenOf(eng, row.path, c)
  }

  // ---------------------------------------------------------------- skipping

  datatype Verdict = Process | Skip(why: Option<string>) | Oversize

  predicate IsBinary(c: Text) {
    0 in c
  }

  /** Which way runPerFile goes before any pass runs. */
  function Judge(eng: Engine, path: Path, c: Text): Verdict {
    var cls := eng.classify(path, c).1;
    if cls != Code && cls != Document then Skip(None)
    else if cls == Document && eng.binaryDocument(path) then Skip(Some("binary_document_pending_m2"))
    else if |c| > MAX_READ_BYTES then Oversize
    else if IsBinary(c) then Skip(Some("binary_content_detected"))
    else Process
  }

  // ---------------------------------------------------------------- the index of a file

  datatype NodeSpec = NodeSpec(name: Text, kind: NodeKind)

  /** A chunk row with its node given by position. */
  datatype ChunkSpec = ChunkSpec(node: nat, text: Text, start: nat, end: nat, tokens: nat, kind: ChunkKind)

  function Lang(eng: Engine, path: Path, c: Text): Option<Text> {
    if eng.classify(path, c).1 == Code then eng.grammar(path) else None
  }

  /** The symbols of a file; None when the grammar reports an error. */
  function SymbolsOf(eng: Engine, path: Path, c: Text): Option<seq<Symbol>> {
    match Lang(eng, path, c)
    case None => Some([])
    case Some(lang) => eng.extract(lang, c)
  }

  /** symNodes is keyed by the symbol itself: of equal symbols the last one inserted wins. */
  function LastIndex(syms: seq<Symbol>, s: Symbol): (i: nat)
    requires s in syms
    ensures i < |syms| && syms[i] == s && forall j :: i < j < |syms| ==> syms[j] != s
  {
    if syms[|syms| - 1] == s then |syms| - 1 else LastIndex(syms[..|syms| - 1], s)
  }

  function NodeSpecs(eng: Engine, path: Path, c: Text, syms: seq<Symbol>): (specs: seq<NodeSpec>)
    ensures |specs| == if syms == [] then 1 else |syms|
  {
    if syms == [] then [NodeSpec(eng.baseName(path), FileNode(eng.classify(path, c).0))]
    else
      var lang := Lang(eng, path, c);
      var name := if lang.Some? then lang.value else [];
      seq(|syms|, i requires 0 <= i < |syms| => NodeSpec(syms[i].name, SymbolNode(name, syms[i])))
  }

  function CodeSpec(syms: seq<Symbol>, k: CodeChunk): ChunkSpec
    requires k.sym in syms
  {
    ChunkSpec(LastIndex(syms, k.sym), k.text, k.start, k.end, k.tokens,
              if k.start != k.sym.start || k.end != k.sym.end then CodeFallback else CodeAst)
  }

  function ProseSpec(cls: ContentClass, k: Chunk): ChunkSpec {
    ChunkSpec(0, k.text, k.start, k.end, k.tokens, if cls == Code then CodeFallback else ProseKind)
  }

  function ChunkSpecs(eng: Engine, path: Path, c: Text, syms: seq<Symbol>): seq<ChunkSpec>
    requires InRange(c, syms)
  {
    if syms == [] then
      var ks := Chunks(ProseTrace(c, DEFAULT_CONFIG, eng.count));
      seq(|ks|, i requires 0 <= i < |ks| => ProseSpec(eng.classify(path, c).1, ks[i]))
    else
      var ks := AllSymbolChunks(c, syms, DEFAULT_CONFIG, eng.count);
      seq(|ks|, i requires 0 <= i < |ks| =>
        CodeChunksInside(c, syms, DEFAULT_CONFIG, eng.count, i);
        CodeSpec(syms, ks[i]))
  }

  /** A from-scratch pass succeeds on content `c`. */
  ghost predicate Indexable(eng: Engine, path: Path, c: Text) {
    && Judge(eng, path, c) == Process
    && SymbolsOf(eng, path, c).Some?
    && InRange(c, SymbolsOf(eng, path, c).value)
    && forall i :: 0 <= i < |Build(eng, path, c).chunks| ==>
      |eng.embed(Build(eng, path, c).chunks[i].text)| == DIMENSION
  }

  datatype FileIndex = FileIndex(nodes: seq<NodeSpec>, chunks: seq<ChunkSpec>)

  function Build(eng: Engine, path: Path, c: Text): FileIndex
    requires SymbolsOf(eng, path, c).Some? && InRange(c, SymbolsOf(eng, path, c).value)
  {
    var syms := SymbolsOf(eng, path, c).value;
    FileIndex(NodeSpecs(eng, path, c, syms), ChunkSpecs(eng, path, c, syms))
  }

  // ---------------------------------------------------------------- rows that realize an index

  ghost predicate Distinct(ids: seq<int>) {
    forall i, j :: 0 <= i < j < |ids| ==> ids[i] != ids[j]
  }

  /** The nodes of file `f` are `specs`, under the row ids `ns`. */
  ghost predicate HasNodes(db: DB, f: int, specs: seq<NodeSpec>, ns: seq<int>) {
    && |ns| == |specs| && Distinct(ns)
    && (forall n :: OwnsNode(db, f, n) <==> n in ns)
    && (forall i :: 0 <= i < |ns| ==> ns[i] in db.nodes && db.nodes[ns[i]] == NodeRow(f, specs[i].name, specs[i].kind))
  }

  /** The chunks of file `f` are `specs`, under the row ids `cs`. */
  ghost predicate HasChunks(db: DB, f: int, specs: seq<ChunkSpec>, ns: seq<int>, cs: seq<int>) {
    && |cs| == |specs| && Distinct(cs)
    && (forall c :: OwnsChunk(db, f, c) <==> c in cs)
    && (forall j :: 0 <= j < |cs| ==>
      cs[j] in db.chunks && specs[j].node < |ns| && db.chunks[cs[j]] == RowOf(specs[j], ns))
  }

  function RowOf(k: ChunkSpec, ns: seq<int>): ChunkRow
    requires k.node < |ns|
  {
    ChunkRow(ns[k.node], k.text, k.start, k.end, k.tokens, k.kind)
  }

  /** The first `n` chunks are embedded, each with the vector of its own text. */
  ghost predicate HasVectors(db: DB, eng: Engine, specs: seq<ChunkSpec>, cs: seq<int>, n: nat) {
    |cs| == |specs| && n <= |cs|
    && forall j :: 0 <= j < n ==> cs[j] in db.vectors && db.vectors[cs[j]] == eng.embed(specs[j].text)
  }

  /** File `f` carries exactly the rows of `idx`, up to row ids. */
  ghost predicate Realizes(db: DB, f: int, eng: Engine, idx: FileIndex, ns: seq<int>, cs: seq<int>) {
    && HasNodes(db, f, idx.nodes, ns)
    && HasChunks(db, f, idx.chunks, ns, cs)
    && HasVectors(db, eng, idx.chunks, cs, |cs|)
  }
}
