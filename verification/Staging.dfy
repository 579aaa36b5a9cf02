/**
 How a per-file transaction grows: rows are added to the cleared database one at a time, under
 fresh row ids, and the finished transaction is a legal `FileIndexed` commit.
 */
module Staging {
  import opened Bytes
  import opened Store
  import opened Indexing
  import opened History
  import opened Safety

  /** `tx` is `base` with nodes `specs` of file `f` added under the unused ids `ns`. */
  ghost predicate NodesAdded(base: map<int, NodeRow>, now: map<int, NodeRow>, f: int, specs: seq<NodeSpec>,
                             ns: seq<int>) {
    && |ns| == |specs| && Distinct(ns)
    && (forall i :: 0 <= i < |ns| ==>
      ns[i] !in base && ns[i] in now && now[ns[i]] == NodeRow(f, specs[i].name, specs[i].kind))
    && (forall n :: n in now <==> n in base || n in ns)
    && (forall n :: n in base ==> now[n] == base[n])
  }

  ghost predicate ChunksAdded(base: map<int, ChunkRow>, now: map<int, ChunkRow>, specs: seq<ChunkSpec>, ns: seq<int>,
                              cs: seq<int>) {
    && |cs| == |specs| && Distinct(cs)
    && (forall j :: 0 <= j < |cs| ==>
      specs[j].node < |ns| && cs[j] !in base && cs[j] in now && now[cs[j]] == RowOf(specs[j], ns))
    && (forall c :: c in now <==> c in base || c in cs)
    && (forall c :: c in base ==> now[c] == base[c])
  }

  lemma AddNode(base: map<int, NodeRow>, now: map<int, NodeRow>, f: int, specs: seq<NodeSpec>, ns: seq<int>, id: int,
                spec: NodeSpec)
    requires NodesAdded(base, now, f, specs, ns) && id !in now
    ensures NodesAdded(base, now[id := NodeRow(f, spec.name, spec.kind)], f, specs + [spec], ns + [id])
  {
    assert forall i :: 0 <= i < |ns| ==> ns[i] in ns;
  }

  lemma AddChunk(base: map<int, ChunkRow>, now: map<int, ChunkRow>, specs: seq<ChunkSpec>, ns: seq<int>, cs: seq<int>,
                 id: int, spec: ChunkSpec)
    requires ChunksAdded(base, now, specs, ns, cs) && id !in now && spec.node < |ns|
    ensures ChunksAdded(base, now[id := RowOf(spec, ns)], specs + [spec], ns, cs + [id])
  {
    assert forall j :: 0 <= j < |cs| ==> cs[j] in cs;
  }

  // ---------------------------------------------------------------- vectors

  datatype PendingChunk = PendingChunk(id: int, text: Text)

  /** The embeddings table after embedding the chunks one by one. */
  function PutVectors(vectors: map<int, Vector>, embed: Text -> Vector, batch: seq<PendingChunk>): map<int, Vector> {
    if batch == [] then vectors
    else PutVectors(vectors, embed, batch[..|batch| - 1])[batch[|batch| - 1].id := embed(batch[|batch| - 1].text)]
  }

  /** Batching does not matter: two batches write what one long one writes. */
  lemma {:induction false} BatchesJoin(vectors: map<int, Vector>, embed: Text -> Vector, a: seq<PendingChunk>,
                                       b: seq<PendingChunk>)
    ensures PutVectors(PutVectors(vectors, embed, a), embed, b) == PutVectors(vectors, embed, a + b)
    decreases |b|
  {
    if b == [] {
      assert a + b == a;
    } else {
      var n := |b| - 1;
      BatchesJoin(vectors, embed, a, b[..n]);
      assert (a + b)[..|a + b| - 1] == a + b[..n];
    }
  }

  ghost predicate Pairs(batch: seq<PendingChunk>, specs: seq<ChunkSpec>, cs: seq<int>) {
    && |batch| == |cs| == |specs|
    && forall j :: 0 <= j < |cs| ==> batch[j] == PendingChunk(cs[j], specs[j].text)
  }

  /** One vector per chunk, each of its own text; nothing else is touched. */
  lemma {:induction false} PutVectorsRows(vectors: map<int, Vector>, embed: Text -> Vector, batch: seq<PendingChunk>,
                                          specs: seq<ChunkSpec>, cs: seq<int>)
    requires Pairs(batch, specs, cs) && Distinct(cs) && forall j :: 0 <= j < |cs| ==> cs[j] !in vectors
    ensures var r := PutVectors(vectors, embed, batch);
            && (forall j :: 0 <= j < |cs| ==> cs[j] in r && r[cs[j]] == embed(specs[j].text))
            && (forall c :: c in r <==> c in vectors || c in cs)
            && (forall c :: c in vectors ==> r[c] == vectors[c])
    decreases |batch|
  {
    if batch != [] {
      var n := |batch| - 1;
      PutVectorsRows(vectors, embed, batch[..n], specs[..n], cs[..n]);
      assert cs == cs[..n] + [cs[n]];
      assert cs[n] in cs && cs[n] !in vectors;
    }
  }

  // ---------------------------------------------------------------- the finished transaction

  /** `base` is a tidy database without rows of `f`. */
  ghost predicate Cleared(base: DB, f: int) {
    Linked(base) && base.vectors.Keys == base.chunks.Keys && (forall n :: !OwnsNode(base, f, n))
      && (forall k :: k in base.state ==> k.0 != f)
  }

  ghost predicate Staged(base: DB, tx: DB, f: int, eng: Engine, idx: FileIndex, ns: seq<int>, cs: seq<int>) {
    && tx.files == base.files && tx.fingerprint == base.fingerprint
    && NodesAdded(base.nodes, tx.nodes, f, idx.nodes, ns)
    && ChunksAdded(base.chunks, tx.chunks, idx.chunks, ns, cs)
    && (forall j :: 0 <= j < |cs| ==> cs[j] in tx.vectors && tx.vectors[cs[j]] == eng.embed(idx.chunks[j].text))
    && (forall c :: c in tx.vectors <==> c in base.vectors || c in cs)
    && (forall c :: c in base.vectors ==> tx.vectors[c] == base.vectors[c])
  }

  lemma StagedOwns(base: DB, tx: DB, f: int, eng: Engine, idx: FileIndex, ns: seq<int>, cs: seq<int>)
    requires Cleared(base, f) && Staged(base, tx, f, eng, idx, ns, cs)
    ensures forall n :: OwnsNode(tx, f, n) <==> n in ns
    ensures forall c :: OwnsChunk(tx, f, c) <==> c in cs
  {
    forall n
      ensures OwnsNode(tx, f, n) <==> n in ns
    {
      assert !OwnsNode(base, f, n);
    }
    forall c
      ensures OwnsChunk(tx, f, c) <==> c in cs
    {
      if c in base.chunks { assert base.chunks[c].node in base.nodes && base.chunks[c].node !in ns; }
    }
  }

  lemma StagedRealizes(base: DB, tx: DB, f: int, eng: Engine, idx: FileIndex, ns: seq<int>, cs: seq<int>)
    requires Cleared(base, f) && Staged(base, tx, f, eng, idx, ns, cs)
    ensures Realizes(tx, f, eng, idx, ns, cs)
  {
    StagedOwns(base, tx, f, eng, idx, ns, cs);
    hide OwnsNode, OwnsChunk, Cleared;
  }

  lemma NothingOwned(base: DB, f: int)
    requires Cleared(base, f)
    ensures forall n :: n in base.nodes ==> base.nodes[n].file != f
    ensures forall k :: k in base.state ==> k.0 != f
  {
    assert forall n :: n in base.nodes ==> !OwnsNode(base, f, n);
  }

  lemma StagedAgrees(base: DB, tx: DB, f: int, eng: Engine, idx: FileIndex, ns: seq<int>, cs: seq<int>)
    requires Cleared(base, f) && Staged(base, tx, f, eng, idx, ns, cs)
    requires forall k: (int, Pass) :: k.0 != f ==>
        (k in tx.state <==> k in base.state) && (k in base.state ==> tx.state[k] == base.state[k])
    ensures AgreeElsewhere(base, tx, f)
  {
    hide Clear, Cleared, Staged, OwnsChunk;
    NothingOwned(base, f);
    ClearNothing(base, f);
    StagedTables(base, tx, f, eng, idx, ns, cs);
    ClearTables(tx, f);
    var y := Clear(tx, f);
    assert y.nodes == base.nodes by {
      assert forall n :: n in y.nodes <==> n in base.nodes;
      assert forall n :: n in y.nodes ==> y.nodes[n] == base.nodes[n];
    }
    assert y.chunks == base.chunks by {
      assert forall n :: n in y.chunks <==> n in base.chunks;
      assert forall n :: n in y.chunks ==> y.chunks[n] == base.chunks[n];
    }
    assert y.vectors == base.vectors by {
      assert forall n :: n in y.vectors <==> n in base.vectors;
      assert forall n :: n in y.vectors ==> y.vectors[n] == base.vectors[n];
    }
    assert y.state == base.state by { assert forall n :: n in y.state <==> n in base.state; }
  }

  /** The rows that are not of file `f` are exactly those of `base`. */
  lemma StagedTables(base: DB, tx: DB, f: int, eng: Engine, idx: FileIndex, ns: seq<int>, cs: seq<int>)
    requires Cleared(base, f) && Staged(base, tx, f, eng, idx, ns, cs)
    ensures forall n :: n in base.nodes <==> n in tx.nodes && tx.nodes[n].file != f
    ensures forall n :: n in base.nodes ==> tx.nodes[n] == base.nodes[n]
    ensures forall c :: c in base.chunks <==> c in tx.chunks && !OwnsChunk(tx, f, c)
    ensures forall c :: c in base.chunks ==> tx.chunks[c] == base.chunks[c]
    ensures forall c :: c in base.vectors <==> c in tx.vectors && !OwnsChunk(tx, f, c)
    ensures forall c :: c in base.vectors ==> tx.vectors[c] == base.vectors[c]
  {
    StagedOwns(base, tx, f, eng, idx, ns, cs);
    assert forall c :: c in base.vectors.Keys <==> c in base.chunks.Keys;
    assert forall n :: n in base.nodes ==> !OwnsNode(base, f, n);
    hide OwnsChunk;
    forall n
      ensures n in base.nodes <==> n in tx.nodes && tx.nodes[n].file != f
    {
      assert OwnsNode(tx, f, n) <==> n in ns;
    }
    assert forall c :: c in base.chunks ==> c !in cs;
  }

  lemma CleanSlate(db: DB, f: int)
    requires Tidy(db)
    ensures Cleared(Clear(db, f), f)
  {
    ClearKeepsTidy(db, f);
    ClearTables(db, f);
    hide Clear;
  }

  /** Committing a fully staged transaction is a legal step of the history. */
  lemma StagedIsIndexed(eng: Engine, db: DB, tx: DB, f: int, c: Text, ns: seq<int>, cs: seq<int>)
    requires Tidy(db) && IsPending(db, f) && Records(eng, db.files[f], c) && db.fingerprint == Some(eng.fp)
    requires Indexable(eng, db.files[f].path, c)
    requires Staged(Clear(db, f), tx, f, eng, Build(eng, db.files[f].path, c), ns, cs)
    requires tx.state == MarkAll(Clear(db, f), f, Done, None).state
    ensures Next(eng, db, tx, FileIndexed(f, c, ns, cs))
  {
    hide Clear, Realizes, Build, Records, AgreeElsewhere, MarkAll, Cleared, Tidy, SymbolsOf, Judge;
    var base := Clear(db, f);
    var idx := Build(eng, db.files[f].path, c);
    CleanSlate(db, f);
    ClearTables(db, f);
    ClearAgrees(db, f);
    StagedRealizes(base, tx, f, eng, idx, ns, cs);
    StagedKeys(base, tx, f, eng, idx, ns, cs);
    DoneState(base, tx, f);
    StagedAgrees(base, tx, f, eng, idx, ns, cs);
    AgreeTrans(db, base, tx, f);
  }

  lemma StagedKeys(base: DB, tx: DB, f: int, eng: Engine, idx: FileIndex, ns: seq<int>, cs: seq<int>)
    requires Cleared(base, f) && Staged(base, tx, f, eng, idx, ns, cs)
    ensures tx.vectors.Keys <= tx.chunks.Keys
  {
    forall k | k in tx.vectors.Keys
      ensures k in tx.chunks.Keys
    {
      assert k in base.vectors.Keys ==> k in base.chunks.Keys;
    }
  }

  lemma DoneState(base: DB, tx: DB, f: int)
    requires tx.state == MarkAll(base, f, Done, None).state
    ensures forall k: (int, Pass) :: k.0 != f ==>
        (k in tx.state <==> k in base.state) && (k in base.state ==> tx.state[k] == base.state[k])
  {
  }
}
