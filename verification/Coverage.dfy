/**
 What a reader may expect of the index of a file, said without the passes that make it: which
 files are indexed at all, and what the rows of an indexed file hold.
 */
module Coverage {
  import opened Bytes
  import opened Prose
  import opened ProseLayout
  import opened ProseTheorems
  import opened ProseShape
  import opened CodeChunks
  import opened Store
  import opened Indexing
  import opened Keeping

  // ---------------------------------------------------------------- which files are indexed

  /** Code, and documents whose bytes are text. */
  ghost predicate TextFile(eng: Engine, path: Path, c: Text) {
    var cls := eng.classify(path, c).1;
    cls == Code || (cls == Document && !eng.binaryDocument(path))
  }

  /** The files to be indexed: of a textual class, at most 32 MiB, and without a NUL byte. */
  ghost predicate Wanted(eng: Engine, path: Path, c: Text) {
    TextFile(eng, path, c) && |c| <= 33_554_432 && 0 !in c
  }

  /** The files to be skipped, and the reason their status rows give. */
  ghost predicate Unwanted(eng: Engine, path: Path, c: Text, why: Option<string>) {
    var cls := eng.classify(path, c).1;
    if cls == Image || cls == Media || cls == Data || cls == Unknown then why == None
    else if cls == Document && eng.binaryDocument(path) then why == Some("binary_document_pending_m2")
    else |c| <= 33_554_432 && 0 in c && why == Some("binary_content_detected")
  }

  lemma JudgeIs(eng: Engine, path: Path, c: Text)
    ensures Judge(eng, path, c) == Process <==> Wanted(eng, path, c)
    ensures forall why :: Judge(eng, path, c) == Skip(why) <==> Unwanted(eng, path, c, why)
    ensures Judge(eng, path, c) == Oversize <==> TextFile(eng, path, c) && |c| > 33_554_432
  {
  }

  /** All chunks have vectors of the right length. */
  ghost predicate FitsSpecs(embed: Text -> Vector, specs: seq<ChunkSpec>) {
    forall j :: 0 <= j < |specs| ==> |embed(specs[j].text)| == DIMENSION
  }

  /**
   The pass at which the content of a file makes its indexing fail, `NoPass` if it does not: the file is too large
   or its grammar reports an error, a symbol lies outside the text, or a vector has the wrong length.
   */
  ghost function RefusedAt(eng: Engine, path: Path, c: Text): Pass {
    var found := if eng.classify(path, c).1 == Code
      && eng.grammar(path).Some? then eng.extract(eng.grammar(path).value, c)
                 else Some([]);
    if TextFile(eng, path, c) && |c| > 33_554_432 then Structural
    else if !Wanted(eng, path, c) then NoPass
    else if found == None then Structural
    else if !InRange(c, found.value) then Chunker
    else if !FitsSpecs(eng.embed, ChunkSpecs(eng, path, c, found.value)) then Embeddings
    else NoPass
  }

  lemma RefusedIs(eng: Engine, path: Path, c: Text)
    requires Judge(eng, path, c) == Process
    ensures SymbolsOf(eng, path, c) == None ==> RefusedAt(eng, path, c) == Structural
    ensures forall syms :: SymbolsOf(eng, path, c) == Some(syms) ==>
              RefusedAt(eng, path, c) ==
                (if !InRange(c, syms) then Chunker
                 else if FitsSpecs(eng.embed, ChunkSpecs(eng, path, c, syms)) then NoPass else Embeddings)
  {
    JudgeIs(eng, path, c);
    hide Judge, ChunkSpecs, InRange, FitsSpecs, Wanted;
  }

  lemma NotRefused(eng: Engine, path: Path, c: Text)
    ensures Judge(eng, path, c).Skip? ==> RefusedAt(eng, path, c) == NoPass
    ensures Judge(eng, path, c) == Oversize <==> RefusedAt(eng, path, c) == Structural && |c| > 33_554_432
  {
    hide ChunkSpecs, InRange, FitsSpecs;
  }

  // ---------------------------------------------------------------- what an indexed file holds

  function RowTexts(rows: seq<ChunkRow>): (texts: seq<Text>)
    ensures |texts| == |rows| && forall i :: 0 <= i < |rows| ==> texts[i] == rows[i].text
  {
    seq(|rows|, i requires 0 <= i < |rows| => rows[i].text)
  }

  /** A file indexed as prose: one file node, and chunks of it that cover the text. */
  ghost predicate ProseRows(eng: Engine, path: Path, c: Text, nodes: seq<NodeRow>, ns: seq<int>, f: int,
                            rows: seq<ChunkRow>)
  {
    && |nodes| == |ns| == 1 && nodes[0] == NodeRow(f, eng.baseName(path), FileNode(eng.classify(path, c).0))
    && (forall i :: 0 <= i < |rows| ==> ProseRow(eng, path, c, ns[0], rows[i]))
    && (forall i, j :: 0 <= i < j < |rows| ==> rows[i].end <= rows[j].start)
    && Covers(c, RowTexts(rows)) && Shaped(RowTexts(rows), c, SEPARATORS, DEFAULT_CONFIG, eng.count)
  }

  ghost predicate ProseRow(eng: Engine, path: Path, c: Text, node: int, row: ChunkRow) {
    && row.node == node && row.tokens == eng.count(row.text) && row.end == row.start + |row.text|
    && (exists at :: row.start <= at && Holds(c, at, row.text))
    && row.kind == if eng.classify(path, c).1 == Code then CodeFallback else ProseKind
  }

  /** A file indexed by symbols: a node for each, and chunks that cover every one of them in turn. */
  ghost predicate CodeRows(eng: Engine, lang: Text, syms: seq<Symbol>, c: Text, nodes: seq<NodeRow>, ns: seq<int>,
                           f: int,
                           rows: seq<ChunkRow>)
  {
    && |nodes| == |ns| == |syms| && InRange(c, syms)
    && (forall i :: 0 <= i < |syms| ==> nodes[i] == NodeRow(f, syms[i].name, SymbolNode(lang, syms[i])))
    && exists chunks: seq<CodeChunk> ::
         |chunks| == |rows| && SymbolsCovered(c, syms, chunks, DEFAULT_CONFIG, eng.count)
           && forall i :: 0 <= i < |rows| ==> CodeRow(syms, ns, chunks[i], rows[i])
  }

  /** Of equal symbols the last one has the chunks. */
  ghost predicate CodeRow(syms: seq<Symbol>, ns: seq<int>, k: CodeChunk, row: ChunkRow) {
    && |ns| == |syms|
    && (exists m :: 0 <= m < |syms| && syms[m] == k.sym && row.node == ns[m]
          && forall j :: m < j < |syms| ==> syms[j] != k.sym)
    && row.text == k.text && row.start == k.start && row.end == k.end && row.tokens == k.tokens
    && row.kind == if k.start == k.sym.start && k.end == k.sym.end then CodeAst else CodeFallback
  }

  /** File `f` owns the nodes `ns` and the chunks `cs`, and each of these has the vector of its text. */
  ghost predicate Owns(eng: Engine, db: DB, f: int, ns: seq<int>, cs: seq<int>) {
    && Distinct(ns) && Distinct(cs)
    && (forall n :: n in db.nodes && db.nodes[n].file == f <==> n in ns)
    && (forall k :: k in db.chunks && db.chunks[k].node in ns <==> k in cs)
    && (forall j :: 0 <= j < |cs| ==>
          cs[j] in db.chunks && cs[j] in db.vectors && db.vectors[cs[j]] == eng.embed(db.chunks[cs[j]].text))
  }

  /** The rows with the given ids, which are there. */
  ghost predicate Rows<R>(table: map<int, R>, ids: seq<int>, rows: seq<R>) {
    |rows| == |ids| && forall i :: 0 <= i < |ids| ==> ids[i] in table && table[ids[i]] == rows[i]
  }

  /** The rows a reader expects of content `c`: by symbols if a grammar finds some in code, or else as prose. */
  ghost predicate Holding(eng: Engine, path: Path, c: Text, nodes: seq<NodeRow>, ns: seq<int>, f: int,
                          rows: seq<ChunkRow>)
  {
    if eng.classify(path, c).1 == Code && eng.grammar(path).Some? then
      var found := eng.extract(eng.grammar(path).value, c);
      && found.Some?
      && if found.value == [] then ProseRows(eng, path, c, nodes, ns, f, rows)
         else CodeRows(eng, eng.grammar(path).value, found.value, c, nodes, ns, f, rows)
    else ProseRows(eng, path, c, nodes, ns, f, rows)
  }

  /** File `f` carries the index of content `c`. */
  ghost predicate Carries(eng: Engine, db: DB, f: int, path: Path, c: Text) {
    exists ns, cs, nodes, rows ::
      Owns(eng, db, f, ns, cs) && Rows(db.nodes, ns, nodes) && Rows(db.chunks, cs, rows)
        && Holding(eng, path, c, nodes, ns, f, rows)
  }

  lemma ProseRowsHold(eng: Engine, path: Path, c: Text, nodes: seq<NodeRow>, ns: seq<int>, f: int, rows: seq<ChunkRow>)
    requires |nodes| == |ns| == 1 && nodes[0] == NodeRow(f, eng.baseName(path), FileNode(eng.classify(path, c).0))
    requires InRange(c, []) && |rows| == |ChunkSpecs(eng, path, c, [])|
    requires forall j :: 0 <= j < |rows| ==>
               ChunkSpecs(eng, path, c, [])[j].node < |ns| && rows[j] == RowOf(ChunkSpecs(eng, path, c, [])[j], ns)
    ensures ProseRows(eng, path, c, nodes, ns, f, rows)
  {
    hide ProseTrace, Covers, Shaped;
    var items := ProseTrace(c, DEFAULT_CONFIG, eng.count);
    assert RowTexts(rows) == ChunkTexts(items);
    ChunkingLosesOnlySeparators(c, DEFAULT_CONFIG, eng.count);
    ChunksAreShaped(c, DEFAULT_CONFIG, eng.count);
    TokensCounted(c, DEFAULT_CONFIG, eng.count);
    forall i | 0 <= i < |rows|
      ensures ProseRow(eng, path, c, ns[0], rows[i])
    {
      ChunkOffset(c, DEFAULT_CONFIG, eng.count, i);
      assert Holds(c, items[i].at, rows[i].text);
    }
    forall i, j | 0 <= i < j < |rows|
      ensures rows[i].end <= rows[j].start
    {
      ChunksInOrder(c, DEFAULT_CONFIG, eng.count, i, j);
    }
  }

  lemma CodeRowsHold(eng: Engine, path: Path, lang: Text, syms: seq<Symbol>, c: Text, nodes: seq<NodeRow>, ns: seq<int>,
                     f: int, rows: seq<ChunkRow>)
    requires syms != [] && InRange(c, syms) && |nodes| == |ns| == |syms| && Lang(eng, path, c) == Some(lang)
    requires forall i :: 0 <= i < |ns| ==>
               var spec := NodeSpecs(eng, path, c, syms)[i]; nodes[i] == NodeRow(f, spec.name, spec.kind)
    requires |rows| == |ChunkSpecs(eng, path, c, syms)|
    requires forall j :: 0 <= j < |rows| ==>
               ChunkSpecs(eng, path, c, syms)[j].node < |ns| && rows[j] == RowOf(ChunkSpecs(eng, path, c, syms)[j], ns)
    ensures CodeRows(eng, lang, syms, c, nodes, ns, f, rows)
  {
    hide AllSymbolChunks, SymbolsCovered;
    var chunks := AllSymbolChunks(c, syms, DEFAULT_CONFIG, eng.count);
    NoSymbolIsLost(c, syms, DEFAULT_CONFIG, eng.count);
    forall j | 0 <= j < |rows|
      ensures CodeRow(syms, ns, chunks[j], rows[j])
    {
      CodeChunksInside(c, syms, DEFAULT_CONFIG, eng.count, j);
      assert ChunkSpecs(eng, path, c, syms)[j] == CodeSpec(syms, chunks[j]);
    }
  }

  lemma RealizedOwns(eng: Engine, db: DB, f: int, idx: FileIndex, ns: seq<int>, cs: seq<int>)
    requires Realizes(db, f, eng, idx, ns, cs)
    ensures Owns(eng, db, f, ns, cs)
  {
    hide Distinct;
    assert forall n :: OwnsNode(db, f, n) <==> n in ns;
    assert forall k :: OwnsChunk(db, f, k) <==> k in cs;
    assert forall k :: OwnsChunk(db, f, k) <==> k in db.chunks && db.chunks[k].node in ns;
  }

  lemma RealizedRows(eng: Engine, db: DB, f: int, idx: FileIndex, ns: seq<int>, cs: seq<int>)
    returns (nodes: seq<NodeRow>, rows: seq<ChunkRow>)
    requires Realizes(db, f, eng, idx, ns, cs)
    ensures Rows(db.nodes, ns, nodes) && Rows(db.chunks, cs, rows) && |ns| == |idx.nodes| && |cs| == |idx.chunks|
    ensures forall i :: 0 <= i < |ns| ==> nodes[i] == NodeRow(f, idx.nodes[i].name, idx.nodes[i].kind)
    ensures forall j :: 0 <= j < |cs| ==> idx.chunks[j].node < |ns| && rows[j] == RowOf(idx.chunks[j], ns)
  {
    nodes := seq(|ns|, i requires 0 <= i < |ns| => NodeRow(f, idx.nodes[i].name, idx.nodes[i].kind));
    rows := seq(|cs|, j requires 0 <= j < |cs| => RowOf(idx.chunks[j], ns));
  }

  lemma BuiltHolds(eng: Engine, path: Path, c: Text, nodes: seq<NodeRow>, ns: seq<int>, f: int, rows: seq<ChunkRow>)
    requires SymbolsOf(eng, path, c).Some? && InRange(c, SymbolsOf(eng, path, c).value)
    requires var idx := Build(eng, path, c);
             && |nodes| == |ns| == |idx.nodes| && |rows| == |idx.chunks|
             && (forall i :: 0 <= i < |ns| ==> nodes[i] == NodeRow(f, idx.nodes[i].name, idx.nodes[i].kind))
             && forall j :: 0 <= j < |rows| ==> idx.chunks[j].node < |ns| && rows[j] == RowOf(idx.chunks[j], ns)
    ensures Holding(eng, path, c, nodes, ns, f, rows)
  {
    var syms := SymbolsOf(eng, path, c).value;
    hide NodeSpecs, ChunkSpecs, ProseRows, CodeRows, RowOf, InRange;
    if syms == [] {
      FileNodeIs(eng, path, c);
      ProseRowsHold(eng, path, c, nodes, ns, f, rows);
    } else {
      CodeRowsHold(eng, path, Lang(eng, path, c).value, syms, c, nodes, ns, f, rows);
    }
  }

  /** Whatever realizes the index of content `c` holds what a reader expects of it. */
  lemma RealizedCarries(eng: Engine, db: DB, f: int, path: Path, c: Text, ns: seq<int>, cs: seq<int>)
    requires SymbolsOf(eng, path, c).Some? && InRange(c, SymbolsOf(eng, path, c).value)
    requires Realizes(db, f, eng, Build(eng, path, c), ns, cs)
    ensures Carries(eng, db, f, path, c)
  {
    hide Realizes, Owns, Rows, Build, Holding, InRange, SymbolsOf;
    RealizedOwns(eng, db, f, Build(eng, path, c), ns, cs);
    var nodes, rows := RealizedRows(eng, db, f, Build(eng, path, c), ns, cs);
    assert |nodes| == |ns| && |rows| == |cs| by { RowsAreAll(db.nodes, ns, nodes); RowsAreAll(db.chunks, cs, rows); }
    BuiltHolds(eng, path, c, nodes, ns, f, rows);
  }

  lemma RowsAreAll<R>(table: map<int, R>, ids: seq<int>, rows: seq<R>)
    requires Rows(table, ids, rows)
    ensures |rows| == |ids|
  {
  }

  lemma FileNodeIs(eng: Engine, path: Path, c: Text)
    ensures NodeSpecs(eng, path, c, []) == [NodeSpec(eng.baseName(path), FileNode(eng.classify(path, c).0))]
  {
  }

  lemma RowsKept<R>(a: map<int, R>, b: map<int, R>, ids: seq<int>, rows: seq<R>)
    requires Rows(a, ids, rows) && forall i :: 0 <= i < |ids| ==> ids[i] in b && b[ids[i]] == a[ids[i]]
    ensures Rows(b, ids, rows)
  {
  }

  lemma OwnsKept(eng: Engine, a: DB, b: DB, f: int, ns: seq<int>, cs: seq<int>)
    requires Owns(eng, a, f, ns, cs) && SameRows(a, b, f)
    ensures Owns(eng, b, f, ns, cs)
    ensures forall i :: 0 <= i < |ns| ==> ns[i] in a.nodes && ns[i] in b.nodes && b.nodes[ns[i]] == a.nodes[ns[i]]
    ensures forall j :: 0 <= j < |cs| ==> cs[j] in a.chunks && cs[j] in b.chunks && b.chunks[cs[j]] == a.chunks[cs[j]]
  {
    hide Distinct;
    forall n
      ensures OwnsNode(a, f, n) <==> n in ns
      ensures n in b.nodes && b.nodes[n].file == f <==> n in ns
    {
      assert OwnsNode(a, f, n) <==> OwnsNode(b, f, n);
    }
    forall k
      ensures OwnsChunk(a, f, k) <==> k in cs
      ensures k in b.chunks && b.chunks[k].node in ns <==> k in cs
    {
      assert OwnsChunk(a, f, k) <==> OwnsChunk(b, f, k);
    }
    assert forall i :: 0 <= i < |ns| ==> OwnsNode(a, f, ns[i]);
    assert forall j :: 0 <= j < |cs| ==> OwnsChunk(a, f, cs[j]);
  }

  /** Whoever keeps the rows of a file keeps its index. */
  lemma CarriesKept(eng: Engine, a: DB, b: DB, f: int, path: Path, c: Text)
    requires Carries(eng, a, f, path, c) && SameRows(a, b, f)
    ensures Carries(eng, b, f, path, c)
  {
    hide Holding, Rows, Owns, SameRows;
    var ns, cs, nodes, rows :|
      Owns(eng, a, f, ns, cs) && Rows(a.nodes, ns, nodes) && Rows(a.chunks, cs, rows)
        && Holding(eng, path, c, nodes, ns, f, rows);
    OwnsKept(eng, a, b, f, ns, cs);
    RowsKept(a.nodes, b.nodes, ns, nodes);
    RowsKept(a.chunks, b.chunks, cs, rows);
  }
}
