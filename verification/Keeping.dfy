/** What a commit leaves alone: the rows of the other files, and of every file whose content is as it was. */
module Keeping {
  import opened Store
  import opened History
  import opened Safety

  /** Two states have the same status rows, nodes, chunks and vectors of file `f`. */
  ghost predicate SameRows(a: DB, b: DB, f: int) {
    && (forall k: (int, Pass) :: k.0 == f ==>
          (k in a.state <==> k in b.state) && (k in a.state ==> a.state[k] == b.state[k]))
    && (forall n :: (OwnsNode(a, f, n) <==> OwnsNode(b, f, n)) && (OwnsNode(a, f, n) ==> a.nodes[n] == b.nodes[n]))
    && (forall c :: (OwnsChunk(a, f, c) <==> OwnsChunk(b, f, c)) && (OwnsChunk(a, f, c) ==> SameChunk(a, b, c)))
  }

  predicate SameChunk(a: DB, b: DB, c: int)
    requires c in a.chunks
  {
    && c in b.chunks && a.chunks[c] == b.chunks[c]
    && (c in a.vectors <==> c in b.vectors) && (c in a.vectors ==> a.vectors[c] == b.vectors[c])
  }

  lemma SameTables(a: DB, b: DB, f: int)
    requires a.state == b.state && a.nodes == b.nodes && a.chunks == b.chunks && a.vectors == b.vectors
    ensures SameRows(a, b, f)
  {
  }

  lemma SameTrans(a: DB, b: DB, c: DB, f: int)
    requires SameRows(a, b, f) && SameRows(b, c, f)
    ensures SameRows(a, c, f)
  {
  }

  lemma SameStatus(a: DB, b: DB, f: int)
    requires SameRows(a, b, f)
    ensures forall p, s :: HasStatus(a, f, p, s) <==> HasStatus(b, f, p, s)
    ensures forall p :: (f, p) in a.state ==> (f, p) in b.state && a.state[(f, p)] == b.state[(f, p)]
  {
    hide OwnsNode, OwnsChunk;
    forall p, s
      ensures HasStatus(a, f, p, s) <==> HasStatus(b, f, p, s)
    {
      var k := (f, p);
      assert k.0 == f;
    }
    forall p | (f, p) in a.state
      ensures (f, p) in b.state && a.state[(f, p)] == b.state[(f, p)]
    {
      var k := (f, p);
      assert k.0 == f;
    }
  }

  /** A transaction on file `f` keeps the rows of any other file. */
  lemma AgreeKeepsRows(a: DB, b: DB, f: int, g: int)
    requires Tidy(a) && Tidy(b) && g != f && AgreeElsewhere(a, b, f)
    ensures SameRows(a, b, g)
  {
    OthersKeepRows(a, b, f, g);
    AgreeKeepsState(a, b, f, g);
    hide Clear, AgreeElsewhere;
    forall c
      ensures (OwnsChunk(a, g, c) <==> OwnsChunk(b, g, c)) && (OwnsChunk(a, g, c) ==> SameChunk(a, b, c))
    {
      OthersKeepChunks(a, b, f, g, c);
      assert c in a.vectors.Keys <==> c in a.chunks.Keys;
      assert c in b.vectors.Keys <==> c in b.chunks.Keys;
    }
  }

  lemma AgreeKeepsState(a: DB, b: DB, f: int, g: int)
    requires g != f && AgreeElsewhere(a, b, f)
    ensures forall k: (int, Pass) :: k.0 == g ==>
              (k in a.state <==> k in b.state) && (k in a.state ==> a.state[k] == b.state[k])
  {
    ClearTables(a, f);
    ClearTables(b, f);
    hide Clear;
    forall k: (int, Pass) | k.0 == g
      ensures (k in a.state <==> k in b.state) && (k in a.state ==> a.state[k] == b.state[k])
    {
      assert k in Clear(a, f).state <==> k in a.state;
      assert k in Clear(b, f).state <==> k in b.state;
    }
  }

  lemma ClearKeepsRows(db: DB, f: int, g: int)
    requires g != f
    ensures SameRows(db, Clear(db, f), g)
  {
    ClearTables(db, f);
    hide Clear;
  }

  /** An upsert keeps the rows of every file but one whose hash it changes. */
  lemma UpsertKeepsRows(db: DB, s: Seen, id: int, now: int, g: int)
    requires g in db.files && (g != id || db.files[id].sha == s.sha)
    ensures SameRows(db, Upsert(db, s, id, now), g)
  {
    hide SameRows;
    var b := Upsert(db, s, id, now);
    if id in db.files && db.files[id].sha != s.sha {
      ClearKeepsRows(db, id, g);
      SameTables(Clear(db, id), b, g);
      SameTrans(db, Clear(db, id), b, g);
    } else {
      SameTables(db, b, g);
    }
  }
}
