/** Reciprocal rank fusion (internal/v3/grpc/tools/search_broadly.go), over exact reals. */
module Fusion {
  import opened Bytes

  /** The hydrated form of a node, carried along untouched. */
  datatype Hydrated = Hydrated(path: Text, name: Text)

  datatype ScoredNode = ScoredNode(node: int, hydrated: Option<Hydrated>)

  datatype FusedHit = FusedHit(node: int, hydrated: Option<Hydrated>, score: real, matched: seq<string>)

  type Lists = map<string, seq<ScoredNode>>

  const RRF_K: nat := 60

  /** What an entry at `rank` adds to its node's score. */
  function Weight(k: nat, rank: nat): (w: real)
    ensures w > 0.0 && w * ((k + rank + 1) as real) == 1.0
  {
    1.0 / ((k + rank + 1) as real)
  }

  // ---------------------------------------------------------------- the score a node deserves

  /** What the first `n` entries of a list add to the score of `id`. */
  function ListScore(list: seq<ScoredNode>, id: int, n: nat, k: nat): (s: real)
    requires n <= |list|
    ensures s >= 0.0
  {
    if n == 0 then 0.0
    else ListScore(list, id, n - 1, k) + (if list[n - 1].node == id then Weight(k, n - 1) else 0.0)
  }

  /** The same over the lists of the sources `keys`. */
  ghost function Score(lists: Lists, keys: set<string>, id: int, k: nat): (s: real)
    requires keys <= lists.Keys
    ensures s >= 0.0
    decreases |keys|
  {
    if keys == {} then 0.0
    else
      var src :| src in keys;
      ListScore(lists[src], id, |lists[src]|, k) + Score(lists, keys - {src}, id, k)
  }

  /** A node met once in a list gets the weight of its rank there; one not met gets nothing. */
  lemma {:induction false} MetOnce(list: seq<ScoredNode>, id: int, r: nat, n: nat, k: nat)
    requires n <= |list| && forall i :: 0 <= i < n && i != r ==> list[i].node != id
    ensures ListScore(list, id, n, k) == if r < n && list[r].node == id then Weight(k, r) else 0.0
  {
    if n > 0 { MetOnce(list, id, r, n - 1, k); }
  }

  /** The order of the sources does not matter. */
  lemma {:induction false} ScoreSplit(lists: Lists, keys: set<string>, src: string, id: int, k: nat)
    requires src in keys && keys <= lists.Keys
    ensures Score(lists, keys, id, k) == ListScore(lists[src], id, |lists[src]|, k) + Score(lists, keys - {src}, id, k)
    decreases |keys|
  {
    var pick :| pick in keys
      && Score(lists, keys, id, k) == ListScore(lists[pick], id, |lists[pick]|, k) + Score(lists, keys - {pick}, id, k);
    if pick != src {
      ScoreSplit(lists, keys - {pick}, src, id, k);
      ScoreSplit(lists, keys - {src}, pick, id, k);
      assert keys - {pick} - {src} == keys - {src} - {pick};
    }
  }

  /** `id` occurs among the first `n` entries. */
  ghost predicate Occurs(list: seq<ScoredNode>, id: int, n: nat)
    requires n <= |list|
  {
    exists r :: 0 <= r < n && list[r].node == id
  }

  ghost predicate OccursIn(lists: Lists, keys: set<string>, id: int)
    requires keys <= lists.Keys
  {
    exists src :: src in keys && Occurs(lists[src], id, |lists[src]|)
  }

  /** How often `id` occurs among the first `n` entries. */
  function Count(list: seq<ScoredNode>, id: int, n: nat): (c: nat)
    requires n <= |list|
  {
    if n == 0 then 0 else Count(list, id, n - 1) + (if list[n - 1].node == id then 1 else 0)
  }

  // ---------------------------------------------------------------- fusing

  /** Entry `r` of source `s` has been gone through. */
  ghost predicate Visited(lists: Lists, done: set<string>, src: string, n: nat, s: string, r: int) {
    s in lists && 0 <= r < |lists[s]| && (s in done || (s == src && r < n))
  }

  /** The node keeps the hydrated form of one of its visited entries, if any of them has one. */
  ghost predicate Hydrates(lists: Lists, done: set<string>, src: string, n: nat, id: int, h: Option<Hydrated>) {
    && (h.Some? ==>
      exists s, r :: Visited(lists, done, src, n, s, r) && lists[s][r].node == id && lists[s][r].hydrated == h)
    && (h.None? ==> forall s, r :: Visited(lists, done, src, n, s, r) && lists[s][r].node == id ==>
      lists[s][r].hydrated.None?)
  }

  /** How often source `s` must be listed among the matches of `id`. */
  function Matches(lists: Lists, done: set<string>, src: string, n: nat, id: int, s: string): nat
    requires done <= lists.Keys && src in lists && n <= |lists[src]|
  {
    if s in done then Count(lists[s], id, |lists[s]|) else if s == src then Count(lists[src], id, n) else 0
  }

  /** The state after the sources `done` and the first `n` entries of `src`. */
  ghost predicate Tallied(lists: Lists, k: nat, done: set<string>, src: string, n: nat, scores: map<int, FusedHit>)
    requires done <= lists.Keys && src in lists && n <= |lists[src]|
  {
    && (forall id :: id in scores <==> OccursIn(lists, done, id) || Occurs(lists[src], id, n))
    && (forall id :: id in scores ==>
          && scores[id].node == id
          && scores[id].score == Score(lists, done, id, k) + ListScore(lists[src], id, n, k)
          && Hydrates(lists, done, src, n, id, scores[id].hydrated)
          && forall s :: multiset(scores[id].matched)[s] == Matches(lists, done, src, n, id, s))
  }

  /** What one entry does to its node's hit. */
  function Credit(scores: map<int, FusedHit>, entry: ScoredNode, src: string, w: real): FusedHit {
    var h := if entry.node in scores then scores[entry.node] else FusedHit(entry.node, entry.hydrated, 0.0, []);
    FusedHit(h.node, if h.hydrated == None && entry.hydrated != None then entry.hydrated else h.hydrated,
             h.score + w, h.matched + [src])
  }

  lemma TallyStep(lists: Lists, k: nat, done: set<string>, src: string, n: nat, scores: map<int, FusedHit>)
    requires done <= lists.Keys && src in lists && src !in done && n < |lists[src]|
        && Tallied(lists, k, done, src, n, scores)
    ensures var entry := lists[src][n];
            Tallied(lists, k, done, src, n + 1, scores[entry.node := Credit(scores, entry, src, Weight(k, n))])
  {
    hide Weight, Hydrates;
    var list := lists[src];
    var hit := Credit(scores, list[n], src, Weight(k, n));
    var after := scores[list[n].node := hit];
    forall id
      ensures Occurs(list, id, n + 1) <==> Occurs(list, id, n) || id == hit.node
    {
      if id == hit.node { assert list[n].node == id; }
    }
    if hit.node !in scores { Unseen(lists, k, done, src, n, hit.node); }
    forall id | id in after
      ensures Hydrates(lists, done, src, n + 1, id, after[id].hydrated)
    {
      HydrateStep(lists, done, src, n, scores, id, k);
    }
  }

  lemma HydrateStep(lists: Lists, done: set<string>, src: string, n: nat, scores: map<int, FusedHit>, id: int, k: nat)
    requires done <= lists.Keys && src in lists && src !in done && n < |lists[src]|
        && Tallied(lists, k, done, src, n, scores)
    requires id in scores || id == lists[src][n].node
    ensures var entry := lists[src][n];
            Hydrates(lists, done, src, n + 1, id,
                     scores[entry.node := Credit(scores, entry, src, Weight(k, n))][id].hydrated)
  {
    hide Weight, Score, ListScore, Matches;
    var entry := lists[src][n];
    forall s, r
      ensures Visited(lists, done, src, n + 1, s, r) <==> Visited(lists, done, src, n, s, r) || (s == src && r == n)
    {
    }
    assert Visited(lists, done, src, n + 1, src, n);
    if id !in scores {
      forall s, r | Visited(lists, done, src, n, s, r)
        ensures lists[s][r].node != id
      {
      }
    }
  }

  /** A node that has not occurred has no score and no count. */
  lemma {:induction false} Unseen(lists: Lists, k: nat, done: set<string>, src: string, n: nat, id: int)
    requires done <= lists.Keys && src in lists && n <= |lists[src]|
    requires !OccursIn(lists, done, id) && !Occurs(lists[src], id, n)
    ensures Score(lists, done, id, k) == 0.0 && ListScore(lists[src], id, n, k) == 0.0 && Count(lists[src], id, n) == 0
    ensures forall s :: s in done ==> Count(lists[s], id, |lists[s]|) == 0
    decreases |done|
  {
    UnseenInList(lists[src], id, n, k);
    forall s | s in done
      ensures Count(lists[s], id, |lists[s]|) == 0 && ListScore(lists[s], id, |lists[s]|, k) == 0.0
    {
      UnseenInList(lists[s], id, |lists[s]|, k);
    }
    if done != {} {
      var s :| s in done;
      ScoreSplit(lists, done, s, id, k);
      Unseen(lists, k, done - {s}, src, n, id);
    }
  }

  lemma {:induction false} UnseenInList(list: seq<ScoredNode>, id: int, n: nat, k: nat)
    requires n <= |list| && !Occurs(list, id, n)
    ensures ListScore(list, id, n, k) == 0.0 && Count(list, id, n) == 0
  {
    if n > 0 {
      assert list[n - 1].node != id;
      assert !Occurs(list, id, n - 1);
      UnseenInList(list, id, n - 1, k);
    }
  }

  /** The state between two sources. */
  ghost predicate TalliedAll(lists: Lists, k: nat, done: set<string>, scores: map<int, FusedHit>)
    requires done <= lists.Keys
  {
    && (forall id :: id in scores <==> OccursIn(lists, done, id))
    && (forall id :: id in scores ==> RightHit(lists, k, done, scores[id]) && scores[id].node == id)
  }

  /** A hit carries the score, the matches and a hydrated form of its node over the sources `done`. */
  ghost predicate RightHit(lists: Lists, k: nat, done: set<string>, h: FusedHit)
    requires done <= lists.Keys
  {
    && h.score == Score(lists, done, h.node, k)
    && (forall s :: multiset(h.matched)[s] == (if s in done then Count(lists[s], h.node, |lists[s]|) else 0))
    && Hydrates(lists, done, "", 0, h.node, h.hydrated)
  }

  lemma HydratesSame(lists: Lists, done: set<string>, src: string, n: nat, done2: set<string>, src2: string, n2: nat,
                     id: int, h: Option<Hydrated>)
    requires Hydrates(lists, done, src, n, id, h)
    requires forall s, r :: Visited(lists, done, src, n, s, r) <==> Visited(lists, done2, src2, n2, s, r)
    ensures Hydrates(lists, done2, src2, n2, id, h)
  {
  }

  lemma StartList(lists: Lists, k: nat, done: set<string>, src: string, scores: map<int, FusedHit>)
    requires done <= lists.Keys && src in lists && src !in done && TalliedAll(lists, k, done, scores)
    ensures Tallied(lists, k, done, src, 0, scores)
  {
    hide Score, Hydrates;
    forall id | id in scores
      ensures Hydrates(lists, done, src, 0, id, scores[id].hydrated)
      ensures forall s :: multiset(scores[id].matched)[s] == Matches(lists, done, src, 0, id, s)
    {
      assert RightHit(lists, k, done, scores[id]);
      HydratesSame(lists, done, "", 0, done, src, 0, id, scores[id].hydrated);
    }
  }

  lemma FinishList(lists: Lists, k: nat, done: set<string>, src: string, scores: map<int, FusedHit>)
    requires done <= lists.Keys && src in lists && src !in done && Tallied(lists, k, done, src, |lists[src]|, scores)
    ensures TalliedAll(lists, k, done + {src}, scores)
  {
    hide Score, Hydrates;
    var all := done + {src};
    forall id
      ensures OccursIn(lists, all, id) <==> OccursIn(lists, done, id) || Occurs(lists[src], id, |lists[src]|)
    {
      if Occurs(lists[src], id, |lists[src]|) { assert src in all; }
      if OccursIn(lists, done, id) {
        var s :| s in done && Occurs(lists[s], id, |lists[s]|);
        assert s in all;
      }
    }
    forall id | id in scores
      ensures RightHit(lists, k, all, scores[id])
    {
      ScoreSplit(lists, all, src, id, k);
      assert all - {src} == done;
      HydratesSame(lists, done, src, |lists[src]|, all, "", 0, id, scores[id].hydrated);
    }
  }

  /** The tally loop of rrfFuse: the sources come in whatever order the map yields. */
  method Tally(lists: Lists, k: nat) returns (scores: map<int, FusedHit>)
    ensures TalliedAll(lists, k, lists.Keys, scores)
  {
    hide Tallied, TalliedAll;
    scores := map[];
    NothingTallied(lists, k);
    var rest := lists.Keys;
    while exists src :: src in rest
      invariant rest <= lists.Keys && TalliedAll(lists, k, lists.Keys - rest, scores)
      decreases |rest|
    {
      var src :| src in rest;
      var list := lists[src];
      ghost var done := lists.Keys - rest;
      StartList(lists, k, done, src, scores);
      for rank := 0 to |list|
        invariant Tallied(lists, k, done, src, rank, scores)
      {
        TallyStep(lists, k, done, src, rank, scores);
        scores := scores[list[rank].node := Credit(scores, list[rank], src, Weight(k, rank))];
      }
      FinishList(lists, k, done, src, scores);
      rest := rest - {src};
      assert lists.Keys - rest == done + {src};
    }
    assert lists.Keys - rest == lists.Keys;
  }

  lemma NothingTallied(lists: Lists, k: nat)
    ensures TalliedAll(lists, k, lists.Keys - lists.Keys, map[])
  {
  }

  // ---------------------------------------------------------------- sorting

  predicate Before(a: FusedHit, b: FusedHit) {
    a.score > b.score || (a.score == b.score && a.node < b.node)
  }

  ghost predicate Ordered(hits: seq<FusedHit>) {
    forall i, j :: 0 <= i < j < |hits| ==> Before(hits[i], hits[j])
  }

  ghost predicate DistinctNodes(hits: seq<FusedHit>) {
    forall i, j :: 0 <= i < j < |hits| ==> hits[i].node != hits[j].node
  }

  /** Insertion of one hit into an ordered sequence. */
  method Insert(sorted: seq<FusedHit>, h: FusedHit) returns (out: seq<FusedHit>)
    requires Ordered(sorted) && forall i :: 0 <= i < |sorted| ==> sorted[i].node != h.node
    ensures Ordered(out) && |out| == |sorted| + 1
    ensures forall x :: x in out <==> x in sorted || x == h
  {
    hide Ordered, Before;
    var p := 0;
    while p < |sorted| && Before(sorted[p], h)
      invariant p <= |sorted| && forall i :: 0 <= i < p ==> Before(sorted[i], h)
    {
      p := p + 1;
    }
    out := sorted[..p] + [h] + sorted[p..];
    Inserted(sorted, h, p);
    assert sorted == sorted[..p] + sorted[p..];
  }

  lemma Inserted(sorted: seq<FusedHit>, h: FusedHit, p: nat)
    requires Ordered(sorted) && p <= |sorted| && forall i :: 0 <= i < |sorted| ==> sorted[i].node != h.node
    requires (forall i :: 0 <= i < p ==> Before(sorted[i], h)) && (p < |sorted| ==> !Before(sorted[p], h))
    ensures Ordered(sorted[..p] + [h] + sorted[p..])
  {
    var out := sorted[..p] + [h] + sorted[p..];
    forall i, j | 0 <= i < j < |out|
      ensures Before(out[i], out[j])
    {
      if p < j {
        assert out[j] == sorted[j - 1] && (p < j - 1 ==> Before(sorted[p], sorted[j - 1]));
      }
    }
  }

  method SortHits(hits: seq<FusedHit>) returns (out: seq<FusedHit>)
    requires DistinctNodes(hits)
    ensures Ordered(out) && |out| == |hits| && forall x :: x in out <==> x in hits
  {
    out := [];
    assert Ordered(out);
    hide Ordered;
    for i := 0 to |hits|
      invariant Ordered(out) && |out| == i
      invariant forall x :: x in out <==> x in hits[..i]
    {
      forall j | 0 <= j < |out|
        ensures out[j].node != hits[i].node
      {
        assert out[j] in hits[..i];
      }
      out := Insert(out, hits[i]);
      assert hits[..i + 1] == hits[..i] + [hits[i]];
    }
    assert hits[..|hits|] == hits;
  }

  /**
   What fusing promises: every node of any list once, each with its right score, matches and
   hydrated form, strictly ordered by score descending and then node id ascending.
   */
  ghost predicate IsFusion(lists: Lists, k: nat, out: seq<FusedHit>) {
    && Ordered(out)
    && (forall id :: OccursIn(lists, lists.Keys, id) <==> exists i :: 0 <= i < |out| && out[i].node == id)
    && (forall i :: 0 <= i < |out| ==> RightHit(lists, k, lists.Keys, out[i]))
  }

  method RrfFuse(lists: Lists, k: nat) returns (out: seq<FusedHit>)
    ensures IsFusion(lists, k, out)
  {
    hide RightHit, OccursIn, Ordered;
    var scores := Tally(lists, k);
    var hits := [];
    var rest := scores.Keys;
    while exists id :: id in rest
      invariant rest <= scores.Keys && DistinctNodes(hits)
      invariant forall i :: 0 <= i < |hits| ==>
          hits[i].node in scores && hits[i].node !in rest && hits[i] == scores[hits[i].node]
      invariant forall id :: id in scores && id !in rest ==> scores[id] in hits
      decreases |rest|
    {
      var id :| id in rest;
      rest := rest - {id};
      hits := hits + [scores[id]];
    }
    out := SortHits(hits);
    forall id
      ensures OccursIn(lists, lists.Keys, id) <==> exists i :: 0 <= i < |out| && out[i].node == id
    {
      if id in scores {
        assert scores[id] in out;
        var i :| 0 <= i < |out| && out[i] == scores[id];
        assert out[i].node == id;
      }
      if i :| 0 <= i < |out| && out[i].node == id {
        assert out[i] in hits;
      }
    }
    forall i | 0 <= i < |out|
      ensures RightHit(lists, k, lists.Keys, out[i])
    {
      assert out[i] in hits;
    }
  }

  /** The result limit of SearchBroadly: 20 unless asked for, never more than 100, and else what was asked for. */
  function Limit(maxResults: int): (m: nat)
    ensures 1 <= m <= 100 && (1 <= maxResults <= 100 <==> m == maxResults) && (maxResults <= 0 ==> m == 20)
    ensures maxResults >= 100 ==> m == 100
  {
    if maxResults <= 0 then 20 else if maxResults > 100 then 100 else maxResults
  }

  /**
   The best `max` nodes of the lists, ranked: at most `max`, each with its score; any node left
   out ranks behind all of them, and none is left out while there is room.
   */
  ghost predicate IsTop(lists: Lists, k: nat, max: nat, kept: seq<FusedHit>) {
    && Ordered(kept) && |kept| <= max
    && (forall i :: 0 <= i < |kept| ==>
      OccursIn(lists, lists.Keys, kept[i].node) && RightHit(lists, k, lists.Keys, kept[i]))
    && (forall id :: OccursIn(lists, lists.Keys, id) && !HasNode(kept, id) ==>
          |kept| == max && forall i :: 0 <= i < |kept| ==> Ranks(lists, k, kept[i].node, id))
  }

  ghost predicate HasNode(hits: seq<FusedHit>, id: int) {
    exists i :: 0 <= i < |hits| && hits[i].node == id
  }

  /** The fusion step of SearchBroadly and the cut that follows it. */
  method FuseTop(lists: Lists, maxResults: int) returns (kept: seq<FusedHit>)
    ensures IsTop(lists, RRF_K, Limit(maxResults), kept)
  {
    var max := Limit(maxResults);
    kept := RrfFuse(lists, RRF_K);
    CutIsTop(lists, RRF_K, max, kept);
    if |kept| > max { kept := kept[..max]; }
  }

  lemma CutIsTop(lists: Lists, k: nat, max: nat, fused: seq<FusedHit>)
    requires IsFusion(lists, k, fused)
    ensures IsTop(lists, k, max, if |fused| > max then fused[..max] else fused)
  {
    hide Score, OccursIn, Hydrates;
    var kept := if |fused| > max then fused[..max] else fused;
    assert forall i :: 0 <= i < |kept| ==> kept[i] == fused[i];
    forall id | OccursIn(lists, lists.Keys, id) && !HasNode(kept, id)
      ensures |kept| == max && forall i :: 0 <= i < |kept| ==> Ranks(lists, k, kept[i].node, id)
    {
      var j :| 0 <= j < |fused| && fused[j].node == id;
      FusionRanks(lists, k, fused);
      forall i | 0 <= i < |kept|
        ensures Ranks(lists, k, kept[i].node, id)
      {
        assert Ranks(lists, k, Nodes(fused)[i], Nodes(fused)[j]);
      }
    }
  }

  // ---------------------------------------------------------------- what fusing guarantees

  /** The node ids of a fusion, in order. */
  function Nodes(out: seq<FusedHit>): (ids: seq<int>)
    ensures |ids| == |out| && forall i :: 0 <= i < |out| ==> ids[i] == out[i].node
  {
    seq(|out|, i requires 0 <= i < |out| => out[i].node)
  }

  /** `id` of score x comes before `other` of score y. */
  ghost predicate Ranks(lists: Lists, k: nat, id: int, other: int) {
    var x, y := Score(lists, lists.Keys, id, k), Score(lists, lists.Keys, other, k);
    x > y || (x == y && id < other)
  }

  ghost predicate RankedBy(lists: Lists, k: nat, ids: seq<int>) {
    forall i, j :: 0 <= i < j < |ids| ==> Ranks(lists, k, ids[i], ids[j])
  }

  /** A strictly ranked sequence is determined by its members. */
  lemma {:induction false} RankedUnique(lists: Lists, k: nat, a: seq<int>, b: seq<int>)
    requires RankedBy(lists, k, a) && RankedBy(lists, k, b) && forall id :: id in a <==> id in b
    ensures a == b
    decreases |a|
  {
    hide Score;
    if a == [] {
      assert forall i :: 0 <= i < |b| ==> b[i] !in a;
    } else {
      assert a[0] in a && a[0] in b;
      assert b[0] in a;
      assert a[0] == b[0] by {
        var i :| 0 <= i < |a| && a[i] == b[0];
        var j :| 0 <= j < |b| && b[j] == a[0];
      }
      forall id
        ensures id in a[1..] <==> id in b[1..]
      {
        NotAgain(lists, k, a, id);
        NotAgain(lists, k, b, id);
      }
      RankedUnique(lists, k, a[1..], b[1..]);
    }
  }

  lemma NotAgain(lists: Lists, k: nat, ids: seq<int>, id: int)
    requires RankedBy(lists, k, ids) && ids != []
    ensures id in ids[1..] <==> id in ids && id != ids[0]
  {
    hide Score;
    assert ids == [ids[0]] + ids[1..];
    if id in ids[1..] {
      var i :| 0 <= i < |ids| - 1 && ids[1..][i] == id;
      assert Ranks(lists, k, ids[0], ids[i + 1]);
    }
  }

  lemma FusionRanks(lists: Lists, k: nat, out: seq<FusedHit>)
    requires IsFusion(lists, k, out)
    ensures RankedBy(lists, k, Nodes(out))
  {
    hide Score, Hydrates;
    forall i, j | 0 <= i < j < |out|
      ensures Ranks(lists, k, Nodes(out)[i], Nodes(out)[j])
    {
      assert RightHit(lists, k, lists.Keys, out[i]) && RightHit(lists, k, lists.Keys, out[j]);
      assert Before(out[i], out[j]);
    }
  }

  /** The iteration order of the Go map does not show: any two fusions list the same nodes with the same scores. */
  lemma FusionIgnoresMapOrder(lists: Lists, k: nat, a: seq<FusedHit>, b: seq<FusedHit>)
    requires IsFusion(lists, k, a) && IsFusion(lists, k, b)
    ensures Nodes(a) == Nodes(b)
    ensures forall i :: 0 <= i < |a| ==> a[i].score == b[i].score && multiset(a[i].matched) == multiset(b[i].matched)
  {
    hide Score, Hydrates, Ordered, OccursIn;
    FusionRanks(lists, k, a);
    FusionRanks(lists, k, b);
    forall id
      ensures id in Nodes(a) <==> id in Nodes(b)
    {
      assert id in Nodes(a) <==> OccursIn(lists, lists.Keys, id);
      assert id in Nodes(b) <==> OccursIn(lists, lists.Keys, id);
    }
    RankedUnique(lists, k, Nodes(a), Nodes(b));
    forall i | 0 <= i < |a|
      ensures a[i].score == b[i].score && multiset(a[i].matched) == multiset(b[i].matched)
    {
      assert Nodes(a)[i] == Nodes(b)[i];
      assert RightHit(lists, k, lists.Keys, a[i]) && RightHit(lists, k, lists.Keys, b[i]);
    }
  }

  lemma EarlierWeighsMore(k: nat, r: nat, t: nat)
    requires r < t
    ensures Weight(k, r) > Weight(k, t)
  {
    var x, y := (k + r + 1) as real, (k + t + 1) as real;
    assert 1.0 / x - 1.0 / y == (y - x) / (x * y);
  }

  /** `b` is beaten by `a` in a list: b occurs at most once, and a somewhere ahead of it. */
  ghost predicate Beats(list: seq<ScoredNode>, a: int, b: int) {
    && (forall r, t :: 0 <= r < t < |list| ==> list[r].node != b || list[t].node != b)
    && (forall t :: 0 <= t < |list| && list[t].node == b ==> exists r :: 0 <= r < t && list[r].node == a)
  }

  lemma {:induction false} ScoreOfOne(list: seq<ScoredNode>, id: int, t: nat, n: nat, k: nat)
    requires t < n <= |list| && list[t].node == id
    ensures ListScore(list, id, n, k) >= Weight(k, t)
    ensures (forall r :: 0 <= r < n && r != t ==> list[r].node != id) ==> ListScore(list, id, n, k) == Weight(k, t)
  {
    hide Weight;
    if t == n - 1 {
      if forall r :: 0 <= r < n && r != t ==> list[r].node != id {
        assert !Occurs(list, id, n - 1);
        UnseenInList(list, id, n - 1, k);
      }
    } else {
      ScoreOfOne(list, id, t, n - 1, k);
    }
  }

  lemma BeatenInList(list: seq<ScoredNode>, a: int, b: int, k: nat)
    requires Beats(list, a, b)
    ensures ListScore(list, a, |list|, k) >= ListScore(list, b, |list|, k)
    ensures Occurs(list, b, |list|) ==> ListScore(list, a, |list|, k) > ListScore(list, b, |list|, k)
  {
    if Occurs(list, b, |list|) {
      var t :| 0 <= t < |list| && list[t].node == b;
      var r :| 0 <= r < t && list[r].node == a;
      ScoreOfOne(list, b, t, |list|, k);
      ScoreOfOne(list, a, r, |list|, k);
      EarlierWeighsMore(k, r, t);
    } else {
      UnseenInList(list, b, |list|, k);
    }
  }

  lemma {:induction false} BeatenOverall(lists: Lists, keys: set<string>, a: int, b: int, k: nat)
    requires keys <= lists.Keys && forall src :: src in lists ==> Beats(lists[src], a, b)
    ensures Score(lists, keys, a, k) >= Score(lists, keys, b, k)
    ensures OccursIn(lists, keys, b) ==> Score(lists, keys, a, k) > Score(lists, keys, b, k)
    decreases |keys|
  {
    hide ListScore, Beats, Occurs;
    if keys != {} {
      var src :| src in keys;
      if OccursIn(lists, keys, b) {
        var s :| s in keys && Occurs(lists[s], b, |lists[s]|);
        src := s;
      }
      ScoreSplit(lists, keys, src, a, k);
      ScoreSplit(lists, keys, src, b, k);
      BeatenInList(lists[src], a, b, k);
      BeatenOverall(lists, keys - {src}, a, b, k);
    }
  }

  /** A node that beats another in every list precedes it in the fusion. */
  lemma BeatingEverywherePrecedes(lists: Lists, k: nat, out: seq<FusedHit>, i: nat, j: nat)
    requires IsFusion(lists, k, out) && i < |out| && j < |out|
    requires forall src :: src in lists ==> Beats(lists[src], out[i].node, out[j].node)
    ensures i < j
  {
    hide Score, Hydrates, Beats, OccursIn;
    assert RightHit(lists, k, lists.Keys, out[i]) && RightHit(lists, k, lists.Keys, out[j]);
    assert OccursIn(lists, lists.Keys, out[j].node);
    BeatenOverall(lists, lists.Keys, out[i].node, out[j].node, k);
    assert out[i].score > out[j].score;
  }

  // ---------------------------------------------------------------- mass

  /** The weight of all entries of a list, and of all lists. */
  function ListMass(n: nat, k: nat): real {
    if n == 0 then 0.0 else ListMass(n - 1, k) + Weight(k, n - 1)
  }

  ghost function Mass(lists: Lists, keys: set<string>, k: nat): real
    requires keys <= lists.Keys
    decreases |keys|
  {
    if keys == {} then 0.0
    else
      var src :| src in keys;
      ListMass(|lists[src]|, k) + Mass(lists, keys - {src}, k)
  }

  lemma {:induction false} MassSplit(lists: Lists, keys: set<string>, src: string, k: nat)
    requires src in keys && keys <= lists.Keys
    ensures Mass(lists, keys, k) == ListMass(|lists[src]|, k) + Mass(lists, keys - {src}, k)
    decreases |keys|
  {
    var pick :| pick in keys && Mass(lists, keys, k) == ListMass(|lists[pick]|, k) + Mass(lists, keys - {pick}, k);
    if pick != src {
      MassSplit(lists, keys - {pick}, src, k);
      MassSplit(lists, keys - {src}, pick, k);
      assert keys - {pick} - {src} == keys - {src} - {pick};
    }
  }

  /** The scores of the first `m` of `ids`, over one list and over all of them. */
  function ListTotal(list: seq<ScoredNode>, ids: seq<int>, m: nat, n: nat, k: nat): real
    requires m <= |ids| && n <= |list|
  {
    if m == 0 then 0.0 else ListTotal(list, ids, m - 1, n, k) + ListScore(list, ids[m - 1], n, k)
  }

  ghost function Total(lists: Lists, keys: set<string>, ids: seq<int>, m: nat, k: nat): real
    requires keys <= lists.Keys && m <= |ids|
  {
    if m == 0 then 0.0 else Total(lists, keys, ids, m - 1, k) + Score(lists, keys, ids[m - 1], k)
  }

  /** One more entry adds its weight to exactly one of distinct ids, if it is among them. */
  lemma {:induction false} EntryCountsOnce(list: seq<ScoredNode>, ids: seq<int>, m: nat, n: nat, k: nat)
    requires m <= |ids| && 1 <= n <= |list| && forall i, j :: 0 <= i < j < |ids| ==> ids[i] != ids[j]
    ensures ListTotal(list, ids, m, n, k) ==
        ListTotal(list, ids, m, n - 1, k) + (if list[n - 1].node in ids[..m] then Weight(k, n - 1) else 0.0)
  {
    hide Weight;
    if m > 0 {
      EntryCountsOnce(list, ids, m - 1, n, k);
      assert ids[..m] == ids[..m - 1] + [ids[m - 1]];
      assert list[n - 1].node == ids[m - 1] ==> list[n - 1].node !in ids[..m - 1];
    }
  }

  lemma {:induction false} ListMassSpread(list: seq<ScoredNode>, ids: seq<int>, n: nat, k: nat)
    requires n <= |list| && forall i, j :: 0 <= i < j < |ids| ==> ids[i] != ids[j]
    requires forall r :: 0 <= r < |list| ==> list[r].node in ids
    ensures ListTotal(list, ids, |ids|, n, k) == ListMass(n, k)
  {
    if n == 0 {
      NothingSpread(list, ids, |ids|, k);
    } else {
      ListMassSpread(list, ids, n - 1, k);
      EntryCountsOnce(list, ids, |ids|, n, k);
      assert ids[..|ids|] == ids;
    }
  }

  lemma {:induction false} NothingSpread(list: seq<ScoredNode>, ids: seq<int>, m: nat, k: nat)
    requires m <= |ids|
    ensures ListTotal(list, ids, m, 0, k) == 0.0
  {
    if m > 0 { NothingSpread(list, ids, m - 1, k); }
  }

  lemma {:induction false} TotalSplit(lists: Lists, keys: set<string>, src: string, ids: seq<int>, m: nat, k: nat)
    requires src in keys && keys <= lists.Keys && m <= |ids|
    ensures Total(lists, keys, ids, m, k) ==
        ListTotal(lists[src], ids, m, |lists[src]|, k) + Total(lists, keys - {src}, ids, m, k)
  {
    if m > 0 {
      TotalSplit(lists, keys, src, ids, m - 1, k);
      ScoreSplit(lists, keys, src, ids[m - 1], k);
    }
  }

  lemma {:induction false} MassSpread(lists: Lists, keys: set<string>, ids: seq<int>, k: nat)
    requires keys <= lists.Keys && forall i, j :: 0 <= i < j < |ids| ==> ids[i] != ids[j]
    requires forall id :: OccursIn(lists, lists.Keys, id) ==> id in ids
    ensures Total(lists, keys, ids, |ids|, k) == Mass(lists, keys, k)
    decreases |keys|
  {
    if keys == {} {
      NoSources(lists, ids, |ids|, k);
    } else {
      var src :| src in keys;
      forall r | 0 <= r < |lists[src]|
        ensures lists[src][r].node in ids
      {
        assert Occurs(lists[src], lists[src][r].node, |lists[src]|);
        assert OccursIn(lists, lists.Keys, lists[src][r].node);
      }
      hide OccursIn;
      MassSpread(lists, keys - {src}, ids, k);
      MassSplit(lists, keys, src, k);
      TotalSplit(lists, keys, src, ids, |ids|, k);
      ListMassSpread(lists[src], ids, |lists[src]|, k);
    }
  }

  lemma {:induction false} NoSources(lists: Lists, ids: seq<int>, m: nat, k: nat)
    requires m <= |ids|
    ensures Total(lists, {}, ids, m, k) == 0.0
  {
    if m > 0 { NoSources(lists, ids, m - 1, k); }
  }

  function SumOfScores(out: seq<FusedHit>, m: nat): real
    requires m <= |out|
  {
    if m == 0 then 0.0 else SumOfScores(out, m - 1) + out[m - 1].score
  }

  lemma {:induction false} SumIsTotal(lists: Lists, k: nat, out: seq<FusedHit>, m: nat)
    requires m <= |out| && forall i :: 0 <= i < |out| ==> RightHit(lists, k, lists.Keys, out[i])
    ensures SumOfScores(out, m) == Total(lists, lists.Keys, Nodes(out), m, k)
  {
    hide Score, Hydrates;
    if m > 0 { SumIsTotal(lists, k, out, m - 1); }
  }

  /** No score is lost or made up: the scores of a fusion add up to the weights of all entries of all lists. */
  lemma MassIsConserved(lists: Lists, k: nat, out: seq<FusedHit>)
    requires IsFusion(lists, k, out)
    ensures SumOfScores(out, |out|) == Mass(lists, lists.Keys, k)
  {
    hide RightHit, Score, Mass, Total, OccursIn;
    SumIsTotal(lists, k, out, |out|);
    FusionRanks(lists, k, out);
    forall i, j | 0 <= i < j < |out|
      ensures Nodes(out)[i] != Nodes(out)[j]
    {
      assert Ranks(lists, k, Nodes(out)[i], Nodes(out)[j]);
    }
    forall id | OccursIn(lists, lists.Keys, id)
      ensures id in Nodes(out)
    {
      var i :| 0 <= i < |out| && out[i].node == id;
      assert Nodes(out)[i] == id;
    }
    MassSpread(lists, lists.Keys, Nodes(out), k);
  }
}
