/**
 The fingerprint guard (internal/v3/embed/writer.go, internal/v3/store/fingerprint.go): the
 vectors of two embedding schemes never meet in one index.
 */
module Fingerprints {
  import opened Bytes
  import opened Store
  import opened Indexing
  import opened History

  /** A fingerprint names an embedding function. */
  type Models = Fingerprint -> (Text -> Vector)

  ghost predicate Embeds(eng: Engine, models: Models) {
    forall t :: eng.embed(t) == models(eng.fp)(t)
  }

  /** Every stored vector is what the model of the stored fingerprint makes of its chunk. */
  ghost predicate Pure(db: DB, models: Models) {
    match db.fingerprint
    case None => forall c :: c !in db.vectors
    case Some(fp) => forall c :: c in db.vectors ==> c in db.chunks && db.vectors[c] == models(fp)(db.chunks[c].text)
  }

  // ---------------------------------------------------------------- every commit keeps vectors pure

  lemma ClearKeepsPure(db: DB, f: int, models: Models)
    requires Pure(db, models)
    ensures Pure(Clear(db, f), models)
  {
    ClearTables(db, f);
    hide Clear;
  }

  lemma {:induction false} UpsertAllKeepsPure(db: DB, batch: seq<Seen>, ids: seq<int>, now: int, models: Models)
    requires Pure(db, models) && |ids| == |batch|
    ensures Pure(UpsertAll(db, batch, ids, now), models) && UpsertAll(db, batch, ids, now).fingerprint == db.fingerprint
  {
    if batch != [] {
      var n := |batch| - 1;
      UpsertAllKeepsPure(db, batch[..n], ids[..n], now, models);
      var mid := UpsertAll(db, batch[..n], ids[..n], now);
      ClearKeepsPure(mid, ids[n], models);
      ClearTables(mid, ids[n]);
    }
  }

  lemma IndexedKeepsPure(eng: Engine, a: DB, b: DB, f: int, c: Text, ns: seq<int>, cs: seq<int>, models: Models)
    requires Pure(a, models) && Indexed(eng, a, b, f, c, ns, cs) && Embeds(eng, models)
    ensures Pure(b, models)
  {
    ClearKeepsPure(a, f, models);
    ClearTables(a, f);
    ClearTables(b, f);
    hide Clear, Build, HasNodes, Records, Indexable, MarkAll;
    forall k | k in b.vectors
      ensures k in b.chunks && b.vectors[k] == models(eng.fp)(b.chunks[k].text)
    {
      if OwnsChunk(b, f, k) {
        assert k in cs;
      } else {
        assert k in Clear(b, f).vectors;
      }
    }
  }

  lemma NextKeepsPure(eng: Engine, a: DB, b: DB, e: Event, models: Models)
    requires Pure(a, models) && Next(eng, a, b, e) && Embeds(eng, models)
    ensures Pure(b, models)
    ensures a.fingerprint.Some? ==> b.fingerprint == a.fingerprint
  {
    hide UpsertAll, ResolvesAll, Indexed, Clear;
    match e
    case Walked(batch, ids, now) => UpsertAllKeepsPure(a, batch, ids, now, models);
    case FileIndexed(f, c, ns, cs) =>
      IndexedKeepsPure(eng, a, b, f, c, ns, cs, models);
      IndexedKeepsFingerprint(eng, a, b, f, c, ns, cs);
    case FileSkipped(f, c, why) =>
      ClearKeepsPure(a, f, models);
      ClearTables(a, f);
    case _ =>
  }

  lemma IndexedKeepsFingerprint(eng: Engine, a: DB, b: DB, f: int, c: Text, ns: seq<int>, cs: seq<int>)
    requires Indexed(eng, a, b, f, c, ns, cs)
    ensures b.fingerprint == a.fingerprint == Some(eng.fp)
  {
  }

  /**
   Vectors are never mixed: indexers with any configurations take turns on one index, and in every
   committed state all vectors are of the model the stored fingerprint names.
   */
  lemma {:induction false} VectorsNeverMixed(dbs: seq<DB>, events: seq<Event>, engs: seq<Engine>, models: Models,
                                             i: nat)
    requires IsRun(dbs, events, engs) && Pure(dbs[0], models) && i < |dbs|
    requires forall k :: 0 <= k < |engs| ==> Embeds(engs[k], models)
    ensures Pure(dbs[i], models)
    decreases i
  {
    hide Pure, Next, Embeds;
    if i > 0 {
      VectorsNeverMixed(dbs, events, engs, models, i - 1);
      NextKeepsPure(engs[i - 1], dbs[i - 1], dbs[i - 1 + 1], events[i - 1], models);
    }
  }

  lemma NextKeepsFingerprint(eng: Engine, a: DB, b: DB, e: Event)
    requires Next(eng, a, b, e) && a.fingerprint.Some?
    ensures b.fingerprint == a.fingerprint
  {
    hide Clear, ResolvesAll, UpsertAll;
    match e
    case Walked(batch, ids, now) => UpsertAllKeepsFingerprint(a, batch, ids, now);
    case FileIndexed(f, c, ns, cs) => IndexedKeepsFingerprint(eng, a, b, f, c, ns, cs);
    case FileSkipped(f, c, why) => ClearTables(a, f);
    case _ =>
  }

  /** A fingerprint row once written never changes. */
  lemma {:induction false} FingerprintIsForever(dbs: seq<DB>, events: seq<Event>, engs: seq<Engine>, i: nat, j: nat)
    requires IsRun(dbs, events, engs) && i <= j < |dbs| && dbs[i].fingerprint.Some?
    ensures dbs[j].fingerprint == dbs[i].fingerprint
    decreases j
  {
    hide Next;
    if i < j {
      FingerprintIsForever(dbs, events, engs, i, j - 1);
      NextKeepsFingerprint(engs[j - 1], dbs[j - 1], dbs[j - 1 + 1], events[j - 1]);
    }
  }
}
