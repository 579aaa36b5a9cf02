/**
 The schema migration runner (migrate.go). A database is a schema and the cell that holds
 schema_version; a script is any action on both; every script and its version update commit
 together. A call may be cut off before any commit, by an error or a crash.
 */
module Migrate {
  import opened Bytes

  /** What a read of config.schema_version meets. */
  datatype Cell = NoTable | NoRow | Blank | Number(n: int) | Malformed

  datatype Db<S> = Db(schema: S, cell: Cell)

  /** A script: its numeric prefix and its action, which can fail. */
  datatype Script<!S> = Script(version: int, effect: Db<S> -> Option<Db<S>>)

  /** A directory entry; the script is None when the name has no .sql suffix or no numeric prefix. */
  datatype File<!S> = File(script: Option<Script<S>>)

  ghost predicate DistinctVersions<S>(files: seq<File<S>>) {
    forall i, j :: 0 <= i < j < |files| && files[i].script.Some? && files[j].script.Some? ==>
      files[i].script.value.version != files[j].script.value.version
  }

  /** readSchemaVersion, for a readable cell. */
  function Version(cell: Cell): int
    requires !cell.Malformed?
  {
    if cell.Number? then cell.n else 0
  }

  ghost predicate Ascending<S(!new)>(list: seq<Script<S>>) {
    forall i, j :: 0 <= i < j < |list| ==> list[i].version < list[j].version
  }

  ghost predicate Holds<S(!new)>(files: seq<File<S>>, s: Script<S>) {
    exists i :: 0 <= i < |files| && files[i].script == Some(s)
  }

  /** The scripts above `current`, each once, in ascending order. */
  ghost predicate IsPending<S(!new)>(files: seq<File<S>>, current: int, list: seq<Script<S>>) {
    Ascending(list) && forall s :: s in list <==> Holds(files, s) && s.version > current
  }

  ghost predicate NonDescending<S(!new)>(list: seq<Script<S>>) {
    forall i, j :: 0 <= i < j < |list| ==> list[i].version <= list[j].version
  }

  /** The scripts above `current` in directory order. */
  function Newer<S>(files: seq<File<S>>, current: int): seq<Script<S>> {
    if files == [] then []
    else
      var n := |files| - 1;
      match files[n].script
      case None => Newer(files[..n], current)
      case Some(s) => if s.version > current then Newer(files[..n], current) + [s] else Newer(files[..n], current)
  }

  /** A sorted list of them, which is `IsPending` when no two files share a version. */
  ghost predicate Pends<S(!new)>(files: seq<File<S>>, current: int, list: seq<Script<S>>) {
    && NonDescending(list) && multiset(list) == multiset(Newer(files, current))
    && (DistinctVersions(files) ==> IsPending(files, current, list))
  }

  /**
   One transaction: the script, then the version update, which needs the table and reaches only a row that is there.
   */
  function Apply<S>(db: Db<S>, s: Script<S>): Option<Db<S>> {
    match s.effect(db)
    case None => None
    case Some(next) =>
      if next.cell.NoTable? then None
      else if next.cell.NoRow? then Some(next)
      else Some(next.(cell := Number(s.version)))
  }

  /** The scripts applied one after the other, each once. */
  function ApplyAll<S>(db: Db<S>, list: seq<Script<S>>): Option<Db<S>>
    decreases |list|
  {
    if list == [] then Some(db)
    else
      match ApplyAll(db, list[..|list| - 1])
      case None => None
      case Some(next) => Apply(next, list[|list| - 1])
  }

  /** What one call can do: apply a front part of the pending scripts, all of them if it completes. */
  ghost predicate Call<S(!new)>(files: seq<File<S>>, before: Db<S>, after: Db<S>, ok: bool) {
    if before.cell.Malformed? then after == before && !ok
    else
      exists list, n ::
        Pends(files, Version(before.cell), list) && Did(before, list, n, after) && (ok ==> n == |list|)
  }

  ghost predicate Did<S(!new)>(before: Db<S>, list: seq<Script<S>>, n: int, after: Db<S>) {
    0 <= n <= |list| && ApplyAll(before, list[..n]) == Some(after)
  }

  /** The outcome of a fallible call outside the model; in a calm environment none fails. */
  method Try(calm: bool) returns (ok: bool)
    ensures calm ==> ok
  {
    ok := *;
    if calm { ok := true; }
  }

  method ListPending<S(!new)>(files: seq<File<S>>, current: int) returns (out: seq<Script<S>>)
    ensures Pends(files, current, out)
  {
    out := [];
    for i := 0 to |files|
      invariant Pends(files[..i], current, out)
    {
      match files[i].script
      case None =>
        PendsStill(files, i, current, out);
      case Some(s) =>
        if s.version > current {
          ghost var before := out;
          out := Insert(out, s);
          PendsMore(files, i, current, before, s, out);
        } else {
          PendsStill(files, i, current, out);
        }
    }
    assert files[..|files|] == files;
  }

  lemma {:induction false} PendsStill<S(!new)>(files: seq<File<S>>, i: nat, current: int, out: seq<Script<S>>)
    requires i < |files| && (files[i].script.Some? ==> files[i].script.value.version <= current)
    requires Pends(files[..i], current, out)
    ensures Pends(files[..i + 1], current, out)
  {
    assert files[..i + 1][..i] == files[..i];
    assert Newer(files[..i + 1], current) == Newer(files[..i], current);
    hide Newer, NonDescending, Ascending, Holds;
    OneFile(files, i);
    if DistinctVersions(files[..i + 1]) { FrontDistinct(files, i); }
  }

  lemma {:induction false} PendsMore<S(!new)>(files: seq<File<S>>, i: nat, current: int, out: seq<Script<S>>,
                                              s: Script<S>, more: seq<Script<S>>)
    requires i < |files| && files[i].script == Some(s) && s.version > current && Pends(files[..i], current, out)
    requires NonDescending(more) && multiset(more) == multiset(out) + multiset{s}
    requires forall o :: o in more <==> o in out || o == s
    requires Ascending(out) && (forall o :: o in out ==> o.version != s.version) ==> Ascending(more)
    ensures Pends(files[..i + 1], current, more)
  {
    assert files[..i + 1][..i] == files[..i];
    assert Newer(files[..i + 1], current) == Newer(files[..i], current) + [s];
    hide Newer, NonDescending;
    if DistinctVersions(files[..i + 1]) {
      FrontDistinct(files, i);
      hide Ascending, Holds;
      OneFile(files, i);
      NoneShares(files[..i + 1], i, current, out);
    }
  }

  lemma {:induction false} FrontDistinct<S(!new)>(files: seq<File<S>>, i: nat)
    requires i < |files| && DistinctVersions(files[..i + 1])
    ensures DistinctVersions(files[..i])
  {
    var front, more := files[..i], files[..i + 1];
    assert forall j :: 0 <= j < i ==> front[j] == more[j];
  }

  lemma {:induction false} NoneShares<S(!new)>(files: seq<File<S>>, i: nat, current: int, out: seq<Script<S>>)
    requires i < |files| && files[i].script.Some? && DistinctVersions(files)
    requires forall s :: s in out <==> Holds(files[..i], s) && s.version > current
    ensures forall o :: o in out ==> o.version != files[i].script.value.version
  {
    forall o | o in out
      ensures o.version != files[i].script.value.version
    {
      var j :| 0 <= j < i && files[..i][j].script == Some(o);
      assert files[j].script == Some(o);
    }
  }

  lemma {:induction false} OneFile<S(!new)>(files: seq<File<S>>, i: nat)
    requires i < |files|
    ensures forall s :: Holds(files[..i + 1], s) <==> Holds(files[..i], s) || files[i].script == Some(s)
  {
    var front, more := files[..i], files[..i + 1];
    forall s
      ensures Holds(more, s) <==> Holds(front, s) || files[i].script == Some(s)
    {
      if Holds(front, s) {
        var j :| 0 <= j < |front| && front[j].script == Some(s);
        assert more[j].script == Some(s);
      }
      if files[i].script == Some(s) { assert more[i].script == Some(s); }
      if Holds(more, s) {
        var j :| 0 <= j < |more| && more[j].script == Some(s);
        assert j < i ==> front[j].script == Some(s);
      }
    }
  }

  /** sort.Slice by version, as an insertion. */
  method Insert<S(!new)>(list: seq<Script<S>>, s: Script<S>) returns (out: seq<Script<S>>)
    requires NonDescending(list)
    ensures NonDescending(out) && multiset(out) == multiset(list) + multiset{s}
    ensures forall o :: o in out <==> o in list || o == s
    ensures Ascending(list) && (forall o :: o in list ==> o.version != s.version) ==> Ascending(out)
  {
    hide Ascending, NonDescending;
    var p := 0;
    while p < |list| && list[p].version < s.version
      invariant p <= |list| && forall i :: 0 <= i < p ==> list[i].version < s.version
    {
      p := p + 1;
    }
    out := list[..p] + [s] + list[p..];
    Inserted(list, s, p);
    if Ascending(list) && forall o :: o in list ==> o.version != s.version { InsertedOnce(list, s, p); }
    assert list == list[..p] + list[p..];
  }

  lemma {:induction false} Inserted<S(!new)>(list: seq<Script<S>>, s: Script<S>, p: nat)
    requires NonDescending(list) && p <= |list|
    requires (forall i :: 0 <= i < p ==> list[i].version < s.version) && (p < |list| ==> list[p].version >= s.version)
    ensures NonDescending(list[..p] + [s] + list[p..])
  {
    var out := list[..p] + [s] + list[p..];
    forall i, j | 0 <= i < j < |out|
      ensures out[i].version <= out[j].version
    {
      if p < j { assert out[j] == list[j - 1] && list[p].version <= list[j - 1].version; }
    }
  }

  lemma {:induction false} InsertedOnce<S(!new)>(list: seq<Script<S>>, s: Script<S>, p: nat)
    requires Ascending(list) && p <= |list| && (forall o :: o in list ==> o.version != s.version)
    requires (forall i :: 0 <= i < p ==> list[i].version < s.version) && (p < |list| ==> list[p].version >= s.version)
    ensures Ascending(list[..p] + [s] + list[p..])
  {
    var out := list[..p] + [s] + list[p..];
    forall i, j | 0 <= i < j < |out|
      ensures out[i].version < out[j].version
    {
      if p < j { assert list[j - 1] in list && out[j] == list[j - 1] && list[p].version <= list[j - 1].version; }
    }
  }

  class Database<S(!new)> {
    var db: Db<S>
    var backup: Option<Db<S>>

    constructor (db: Db<S>)
      ensures this.db == db && backup == None
    {
      this.db, backup := db, None;
    }

    /** Migrate: a call that returns early, or is killed, has done what it had committed. */
    method Migrate(files: seq<File<S>>, snapshot: bool, calm: bool) returns (ok: bool)
      modifies this
      ensures Call(files, old(db), db, ok)
      ensures calm && NoScriptFails(files, old(db)) ==> ok
      ensures backup == old(backup) || backup == None || backup == Some(old(db))
      ensures snapshot && db != old(db) && !old(db).cell.Malformed? && Version(old(db).cell) > 0 ==>
          backup == Some(old(db))
    {
      ghost var before := db;
      var readable := Try(calm);
      if db.cell.Malformed? { return false; }
      var current := Version(db.cell);
      var pending := ListPending(files, current);
      NothingDone(db, pending);
      if !readable || |pending| == 0 { return readable; }
      if snapshot && current > 0 {
        var removed := Try(calm);
        if removed { backup := None; }
        var saved := Try(calm);
        if !saved { return false; }
        backup := Some(db);
      }
      for i := 0 to |pending|
        invariant Did(before, pending, i, db)
        invariant snapshot && current > 0 ==> backup == Some(before)
        invariant backup == old(backup) || backup == None || backup == Some(before)
      {
        if NoScriptFails(files, before) { ScriptSucceeds(files, before, pending, i, db); }
        var next := pending[i].effect(db);
        var committed := Try(calm);
        if !committed || next.None? || next.value.cell.NoTable? { return false; }
        OneApplied(before, pending, i, db);
        db := if next.value.cell.NoRow? then next.value else next.value.(cell := Number(pending[i].version));
      }
      return true;
    }
  }

  /** The version can be read, and all pending scripts can be applied one after the other. */
  ghost predicate NoScriptFails<S(!new)>(files: seq<File<S>>, db: Db<S>) {
    !db.cell.Malformed? && forall list :: Pends(files, Version(db.cell), list) ==> ApplyAll(db, list).Some?
  }

  lemma {:induction false} ScriptSucceeds<S(!new)>(files: seq<File<S>>, before: Db<S>, list: seq<Script<S>>, i: nat,
                                                  db: Db<S>)
    requires NoScriptFails(files, before) && Pends(files, Version(before.cell), list)
    requires i < |list| && Did(before, list, i, db)
    ensures Apply(db, list[i]).Some?
  {
    hide Pends, Apply;
    if ApplyAll(before, list[..i + 1]) == None { FailureStays(before, list, i + 1); }
    assert list[..i + 1][..i] == list[..i];
  }

  lemma {:induction false} FailureStays<S(!new)>(db: Db<S>, list: seq<Script<S>>, n: nat)
    requires n <= |list| && ApplyAll(db, list[..n]) == None
    ensures ApplyAll(db, list) == None
    decreases |list| - n
  {
    if n < |list| {
      assert list[..n + 1][..n] == list[..n];
      FailureStays(db, list, n + 1);
    } else {
      assert list[..n] == list;
    }
  }

  lemma {:induction false} NothingDone<S(!new)>(db: Db<S>, list: seq<Script<S>>)
    ensures Did(db, list, 0, db)
  {
  }

  lemma {:induction false} OneApplied<S(!new)>(before: Db<S>, list: seq<Script<S>>, n: int, db: Db<S>)
    requires Did(before, list, n, db) && n < |list|
    ensures forall next :: Apply(db, list[n]) == Some(next) ==> Did(before, list, n + 1, next)
  {
    assert list[..n + 1][..n] == list[..n];
  }

  // ---------------------------------------------------------------- resuming

  /** The scripts of all releases, above version 0 and ascending. */
  ghost predicate Releases<S(!new)>(all: seq<Script<S>>) {
    Ascending(all) && forall i :: 0 <= i < |all| ==> all[i].version > 0
  }

  /** A binary that ships the first m of them, perhaps beside scripts numbered 0 or lower. */
  ghost predicate Ships<S(!new)>(files: seq<File<S>>, all: seq<Script<S>>, m: int) {
    DistinctVersions(files) && 0 <= m <= |all| && forall s :: s in all[..m] <==> Holds(files, s) && s.version > 0
  }

  /** Wherever the chain of scripts gets to from the start, a config row is there to take the version. */
  ghost predicate KeepsRow<S(!new)>(start: Db<S>, all: seq<Script<S>>) {
    forall k, db :: 0 < k && Did(start, all, k, db) ==> !db.cell.NoRow?
  }

  /** The first k scripts have been applied once each in ascending order, and schema_version names the last. */
  ghost predicate At<S(!new)>(start: Db<S>, all: seq<Script<S>>, k: int, db: Db<S>) {
    Did(start, all, k, db) && db.cell == if k == 0 then NoTable else Number(all[k - 1].version)
  }

  lemma {:induction false} AscendingUnique<S(!new)>(a: seq<Script<S>>, b: seq<Script<S>>)
    requires Ascending(a) && Ascending(b) && forall s :: s in a <==> s in b
    ensures a == b
    decreases |a|
  {
    BothEmpty(a, b);
    if a != [] && b != [] {
      assert a[0] in b && b[0] in a;
      assert a[0] == b[0];
      forall s
        ensures s in a[1..] <==> s in b[1..]
      {
        InRest(a, s);
        InRest(b, s);
      }
      AscendingUnique(a[1..], b[1..]);
      assert a == [a[0]] + a[1..] && b == [b[0]] + b[1..];
    }
  }

  lemma {:induction false} BothEmpty<S(!new)>(a: seq<Script<S>>, b: seq<Script<S>>)
    requires forall s :: s in a <==> s in b
    ensures a == [] <==> b == []
  {
    if a != [] { assert a[0] in a; }
    if b != [] { assert b[0] in b; }
  }

  lemma {:induction false} InRest<S(!new)>(a: seq<Script<S>>, s: Script<S>)
    requires Ascending(a) && a != []
    ensures s in a[1..] <==> s in a && s != a[0]
  {
    assert a == [a[0]] + a[1..];
  }

  /** What is pending for a binary that ships the first m scripts. */
  function Rest<S>(all: seq<Script<S>>, k: nat, m: nat): seq<Script<S>>
    requires k <= |all| && m <= |all|
  {
    if k <= m then all[k..m] else []
  }

  /** Past the first k scripts, the pending ones are the others that the binary ships. */
  lemma {:induction false} PendingIsRest<S(!new)>(files: seq<File<S>>, all: seq<Script<S>>, k: nat, m: nat,
                                                  list: seq<Script<S>>)
    requires Releases(all) && k <= |all| && Ships(files, all, m)
    requires IsPending(files, if k == 0 then 0 else all[k - 1].version, list)
    ensures list == Rest(all, k, m)
  {
    RestIsPending(files, all, k, m);
    AscendingUnique(list, Rest(all, k, m));
  }

  lemma {:induction false} RestIsPending<S(!new)>(files: seq<File<S>>, all: seq<Script<S>>, k: nat, m: nat)
    requires Releases(all) && k <= |all| && Ships(files, all, m)
    ensures IsPending(files, if k == 0 then 0 else all[k - 1].version, Rest(all, k, m))
  {
    RestAscends(all, k, m);
    hide Ascending, Rest;
    var current, rest := if k == 0 then 0 else all[k - 1].version, Rest(all, k, m);
    forall s
      ensures s in rest <==> Holds(files, s) && s.version > current
    {
      if s in rest { RestPends(files, all, k, m, s); }
      if Holds(files, s) && s.version > current { PendingInRest(files, all, k, m, s); }
    }
  }

  lemma {:induction false} RestAscends<S(!new)>(all: seq<Script<S>>, k: nat, m: nat)
    requires Releases(all) && k <= |all| && m <= |all|
    ensures Ascending(Rest(all, k, m))
  {
  }

  lemma {:induction false} PendingInRest<S(!new)>(files: seq<File<S>>, all: seq<Script<S>>, k: nat, m: nat,
                                                  s: Script<S>)
    requires Releases(all) && k <= |all| && Ships(files, all, m)
    requires Holds(files, s) && s.version > if k == 0 then 0 else all[k - 1].version
    ensures s in Rest(all, k, m)
  {
    assert s in all[..m];
    var i :| 0 <= i < m && all[i] == s;
    assert i >= k;
    assert Rest(all, k, m)[i - k] == s;
  }

  lemma {:induction false} RestPends<S(!new)>(files: seq<File<S>>, all: seq<Script<S>>, k: nat, m: nat, s: Script<S>)
    requires Releases(all) && k <= |all| && Ships(files, all, m) && s in Rest(all, k, m)
    ensures Holds(files, s) && s.version > if k == 0 then 0 else all[k - 1].version
  {
    var rest := Rest(all, k, m);
    var i :| 0 <= i < |rest| && rest[i] == s;
    assert all[..m][k + i] == s;
  }

  lemma {:induction false} ApplyJoined<S(!new)>(db: Db<S>, a: seq<Script<S>>, b: seq<Script<S>>)
    ensures ApplyAll(db, a + b) == match ApplyAll(db, a) case None => None case Some(next) => ApplyAll(next, b)
    decreases |b|
  {
    if b == [] {
      assert a + b == a;
    } else {
      var n := |b| - 1;
      assert (a + b)[..|a + b| - 1] == a + b[..n];
      ApplyJoined(db, a, b[..n]);
    }
  }

  lemma {:induction false} LastStep<S(!new)>(start: Db<S>, all: seq<Script<S>>, k: nat, db: Db<S>)
    requires Did(start, all, k, db) && k > 0
    ensures db.cell.NoRow? || db.cell == Number(all[k - 1].version)
  {
    assert all[..k][..k - 1] == all[..k - 1];
  }

  /**
   One call, however it ends, goes from one step of the chain to a later one, and completing it means all that was
   shipped.
   */
  lemma {:induction false} CallResumes<S(!new)>(start: Db<S>, all: seq<Script<S>>, k: nat, m: nat, files: seq<File<S>>,
                                                before: Db<S>, after: Db<S>, ok: bool)
    requires Releases(all) && KeepsRow(start, all) && At(start, all, k, before) && Ships(files, all, m)
    requires Call(files, before, after, ok)
    ensures exists k' :: k <= k' && At(start, all, k', after) && (ok ==> k' == if k <= m then m else k)
  {
    assert m <= |all| && DistinctVersions(files);
    hide KeepsRow, Releases, Ships, IsPending, ApplyAll, Did, At, NonDescending, DistinctVersions, Newer;
    var list, n :| Pends(files, Version(before.cell), list) && Did(before, list, n, after) && (ok ==> n == |list|);
    PendingIsRest(files, all, k, m, list);
    Resumed(start, all, k, m, before, n, after);
    assert At(start, all, k + n, after);
  }

  lemma {:induction false} Resumed<S(!new)>(start: Db<S>, all: seq<Script<S>>, k: nat, m: nat, before: Db<S>, n: int,
                                            after: Db<S>)
    requires KeepsRow(start, all) && At(start, all, k, before) && m <= |all| && Did(before, Rest(all, k, m), n, after)
    ensures 0 <= n <= |Rest(all, k, m)| && At(start, all, k + n, after)
  {
    var list := Rest(all, k, m);
    assert all[..k + n] == all[..k] + list[..n];
    ApplyJoined(start, all[..k], list[..n]);
    if n > 0 {
      LastStep(start, all, k + n, after);
      assert Did(start, all, k + n, after) && !after.cell.NoRow?;
    }
  }

  /** A sequence of calls: by which files, of which release, and whether the call completed. */
  datatype Attempt<!S> = Attempt(files: seq<File<S>>, m: nat, ok: bool)

  ghost predicate IsRun<S(!new)>(all: seq<Script<S>>, dbs: seq<Db<S>>, calls: seq<Attempt<S>>) {
    && |dbs| == |calls| + 1 && dbs[0].cell == NoTable
    && forall i :: 0 <= i < |calls| ==>
      Ships(calls[i].files, all, calls[i].m) && Call(calls[i].files, dbs[i], dbs[i + 1], calls[i].ok)
  }

  /**
   Any calls by any releases, old or new, each cut off anywhere, leave exactly the scripts up
   to schema_version, applied once each in ascending order.
   */
  lemma {:induction false} EveryRunIsAChain<S(!new)>(all: seq<Script<S>>, dbs: seq<Db<S>>, calls: seq<Attempt<S>>,
                                                     i: nat)
    requires Releases(all) && IsRun(all, dbs, calls) && KeepsRow(dbs[0], all) && i < |dbs|
    ensures exists k :: At(dbs[0], all, k, dbs[i]) && forall j :: 0 <= j < i && calls[j].ok ==> k >= calls[j].m
    decreases i
  {
    hide KeepsRow, Releases, Ships, Call;
    if i == 0 {
      NothingDone(dbs[0], all);
      assert At(dbs[0], all, 0, dbs[0]);
    } else {
      EveryRunIsAChain(all, dbs, calls, i - 1);
      var k :| At(dbs[0], all, k, dbs[i - 1]) && forall j :: 0 <= j < i - 1 && calls[j].ok ==> k >= calls[j].m;
      var call := calls[i - 1];
      CallResumes(dbs[0], all, k, call.m, call.files, dbs[i - 1], dbs[i], call.ok);
    }
  }

  /**
   Once some call of the newest release completed, the database is what one uninterrupted call makes, and it stays so.
   */
  lemma {:induction false} CompletedIsWhole<S(!new)>(all: seq<Script<S>>, dbs: seq<Db<S>>, calls: seq<Attempt<S>>,
                                                     done: nat, i: nat)
    requires Releases(all) && IsRun(all, dbs, calls) && KeepsRow(dbs[0], all)
    requires done < i < |dbs| && calls[done].ok && calls[done].m == |all|
    ensures ApplyAll(dbs[0], all) == Some(dbs[i])
  {
    hide KeepsRow, Releases, Ships, Call;
    EveryRunIsAChain(all, dbs, calls, i);
    var k :| At(dbs[0], all, k, dbs[i]) && forall j :: 0 <= j < i && calls[j].ok ==> k >= calls[j].m;
    assert all[..k] == all;
  }

  /**
   An interrupted upgrade starts again just after the scripts already applied, if and only if the config row is kept.
   */
  lemma {:induction false} ResumesIff<S(!new)>(start: Db<S>, all: seq<Script<S>>, files: seq<File<S>>)
    requires Releases(all) && Ships(files, all, |all|)
    ensures KeepsRow(start, all) <==>
            forall k, db :: 0 < k && Did(start, all, k, db) ==>
              !db.cell.Malformed? && IsPending(files, Version(db.cell), all[k..])
  {
    hide Releases, Ships;
    forall k, db | 0 < k && Did(start, all, k, db)
      ensures !db.cell.NoRow? <==> !db.cell.Malformed? && IsPending(files, Version(db.cell), all[k..])
    {
      LastStep(start, all, k, db);
      if db.cell.NoRow? {
        if IsPending(files, 0, all[k..]) { PendingIsRest(files, all, 0, |all|, all[k..]); }
      } else {
        RestIsPending(files, all, k, |all|);
      }
    }
  }

  /** The shape of the shipped scripts: the first makes the table and its row, the others leave the cell alone. */
  ghost predicate FirstMakesRow<S(!new)>(all: seq<Script<S>>) {
    && (forall db, next :: all != [] && all[0].effect(db) == Some(next) ==> next.cell.Blank? || next.cell.Number?)
    && (forall i, db, next :: 0 < i < |all| && all[i].effect(db) == Some(next) ==> next.cell == db.cell)
  }

  lemma {:induction false} ShippedScriptsKeepRow<S(!new)>(start: Db<S>, all: seq<Script<S>>)
    requires FirstMakesRow(all)
    ensures KeepsRow(start, all)
  {
    forall k, db | 0 < k && Did(start, all, k, db)
      ensures !db.cell.NoRow?
    {
      RowAfter(start, all, k, db);
    }
  }

  lemma {:induction false} RowAfter<S(!new)>(start: Db<S>, all: seq<Script<S>>, k: nat, db: Db<S>)
    requires FirstMakesRow(all) && 0 < k && Did(start, all, k, db)
    ensures db.cell.Number?
    decreases k
  {
    assert all[..k][..k - 1] == all[..k - 1];
    var before := ApplyAll(start, all[..k - 1]).value;
    if k > 1 {
      assert Did(start, all, k - 1, before);
      RowAfter(start, all, k - 1, before);
    }
  }

  // ---------------------------------------------------------------- when the row is missing

  /** Makes the table if it is not there, leaves out the row, and notes in the schema that it ran. */
  function MakeTableOnly(db: Db<seq<int>>): Option<Db<seq<int>>> {
    Some(Db(db.schema + [1], if db.cell.NoTable? then NoRow else db.cell))
  }

  const TABLE_ONLY := Script(1, MakeTableOnly)

  lemma OneFilePends()
    ensures Pends([File(Some(TABLE_ONLY))], 0, [TABLE_ONLY])
  {
    var files := [File(Some(TABLE_ONLY))];
    assert files[0].script == Some(TABLE_ONLY);
    assert IsPending(files, 0, [TABLE_ONLY]);
    assert files[..0] == [] && Newer(files, 0) == [] + [TABLE_ONLY] == [TABLE_ONLY];
  }

  lemma OneRun(schema: seq<int>, cell: Cell)
    requires cell.NoTable? || cell.NoRow?
    ensures Did(Db(schema, cell), [TABLE_ONLY], 1, Db(schema + [1], NoRow))
  {
    assert [TABLE_ONLY][..1] == [TABLE_ONLY] && [TABLE_ONLY][..0] == [];
  }

  /** A first script that makes the table but not its row is applied again by the next call, although both complete. */
  lemma RowlessScriptRunsTwice()
    ensures var files, start: Db<seq<int>> := [File(Some(TABLE_ONLY))], Db([], NoTable);
            && !KeepsRow(start, [TABLE_ONLY])
            && Call(files, start, Db([1], NoRow), true)
            && Call(files, Db([1], NoRow), Db([1, 1], NoRow), true)
  {
    OneFilePends();
    hide Pends, Did;
    OneRun([], NoTable);
    OneRun([1], NoRow);
    assert [] + [1] == [1] && [1] + [1] == [1, 1];
  }
}
