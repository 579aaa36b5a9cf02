/** The ranking metrics of the retrieval harness (scripts/retrieval-harness.go), over exact reals. */
module Ndcg {
  import opened Bytes

  datatype Judgment = Judgment(path: Text, grade: nat)

  /** The discount of a position; the harness uses 1 / log2(i + 2). */
  type Discount = nat -> real

  ghost predicate Decreasing(d: Discount) {
    forall i: nat, j: nat :: i <= j ==> d(i) >= d(j) >= 0.0
  }

  function Pow2(g: nat): (p: nat)
    ensures p >= 1
  {
    if g == 0 then 1 else 2 * Pow2(g - 1)
  }

  /** 2^grade - 1 */
  function Gain(g: nat): (v: real)
    ensures v >= 0.0 && (g == 0 ==> v == 0.0)
  {
    (Pow2(g) - 1) as real
  }

  /** One grade more doubles the gain and adds one. */
  lemma GainDoubles(g: nat)
    ensures Gain(g + 1) == 2.0 * Gain(g) + 1.0
  {
    assert Pow2(g + 1) == 2 * Pow2(g);
  }

  lemma {:induction false} GainGrows(g: nat, h: nat)
    requires g <= h
    ensures Gain(g) <= Gain(h)
    decreases h
  {
    if g < h { GainGrows(g, h - 1); }
  }

  /** The discounted gain of the first `n` positions; positions past the end add nothing. */
  function Dcg(grades: seq<nat>, n: nat, d: Discount): real {
    if n == 0 then 0.0
    else Dcg(grades, n - 1, d) + (if n <= |grades| then Gain(grades[n - 1]) * d(n - 1) else 0.0)
  }

  /** The plain gain of the first `n` positions. */
  function Gains(grades: seq<nat>, n: nat): real {
    if n == 0 then 0.0
    else Gains(grades, n - 1) + (if n <= |grades| then Gain(grades[n - 1]) else 0.0)
  }

  // ---------------------------------------------------------------- for every discount at once

  /** At every cut-off the ideal order has gathered at least as much. */
  ghost predicate Ahead(ideal: seq<nat>, actual: seq<nat>, k: nat) {
    forall m :: 0 <= m <= k ==> Gains(actual, m) <= Gains(ideal, m)
  }

  function Step(m: nat): Discount {
    i => if i < m then 1.0 else 0.0
  }

  lemma {:induction false} StepDcg(grades: seq<nat>, n: nat, m: nat)
    requires m <= n
    ensures Dcg(grades, n, Step(m)) == Gains(grades, m)
  {
    if n == m {
      StepDcgBelow(grades, n, m);
    } else {
      StepDcg(grades, n - 1, m);
    }
  }

  lemma {:induction false} StepDcgBelow(grades: seq<nat>, n: nat, m: nat)
    requires n <= m
    ensures Dcg(grades, n, Step(m)) == Gains(grades, n)
  {
    if n > 0 { StepDcgBelow(grades, n - 1, m); }
  }

  lemma Weigh(a: real, d: real, e: real)
    requires a >= 0.0 && d >= e
    ensures a * d >= a * e
  {
  }

  /** One position further in the summation by parts. */
  lemma PartsStep(lead: real, x: real, y: real, before: real, weight: real, sofar: real)
    requires lead >= 0.0 && before >= weight && sofar >= lead * before
    ensures sofar + x * weight - y * weight >= (lead + x - y) * weight
  {
    Weigh(lead, before, weight);
    assert (lead + x - y) * weight == lead * weight + x * weight - y * weight;
  }

  /** What position `n` of a ranking gains. */
  function At(grades: seq<nat>, n: nat): real
    requires n >= 1
  {
    if n <= |grades| then Gain(grades[n - 1]) else 0.0
  }

  lemma OneFurther(grades: seq<nat>, n: nat, d: Discount)
    requires n >= 1
    ensures Dcg(grades, n, d) == Dcg(grades, n - 1, d) + At(grades, n) * d(n - 1)
    ensures Gains(grades, n) == Gains(grades, n - 1) + At(grades, n)
  {
  }

  /** The lead of the ideal ranking at a cut-off. */
  function Lead(ideal: seq<nat>, actual: seq<nat>, n: nat): real {
    Gains(ideal, n) - Gains(actual, n)
  }

  /** The discounted lead. */
  function DiscountedLead(ideal: seq<nat>, actual: seq<nat>, n: nat, d: Discount): real {
    Dcg(ideal, n, d) - Dcg(actual, n, d)
  }

  lemma LeadStep(ideal: seq<nat>, actual: seq<nat>, n: nat, d: Discount, before: real)
    requires n >= 1 && Lead(ideal, actual, n - 1) >= 0.0 && before >= d(n - 1)
    requires DiscountedLead(ideal, actual, n - 1, d) >= Lead(ideal, actual, n - 1) * before
    ensures DiscountedLead(ideal, actual, n, d) >= Lead(ideal, actual, n) * d(n - 1)
  {
    hide Gain, Dcg, Gains, At;
    OneFurther(ideal, n, d);
    OneFurther(actual, n, d);
    PartsStep(Lead(ideal, actual, n - 1), At(ideal, n), At(actual, n), before, d(n - 1),
              DiscountedLead(ideal, actual, n - 1, d));
    assert Lead(ideal, actual, n) == Lead(ideal, actual, n - 1) + At(ideal, n) - At(actual, n);
  }

  /** Summation by parts: the lead at a cut-off, discounted, bounds the discounted lead from below. */
  lemma {:induction false} LeadCarriesOver(ideal: seq<nat>, actual: seq<nat>, n: nat, d: Discount)
    requires Decreasing(d) && Ahead(ideal, actual, n) && n >= 1
    ensures DiscountedLead(ideal, actual, n, d) >= Lead(ideal, actual, n) * d(n - 1)
  {
    hide Gain;
    assert Gains(actual, n - 1) <= Gains(ideal, n - 1);
    if n == 1 {
      assert DiscountedLead(ideal, actual, 0, d) == 0.0 && Lead(ideal, actual, 0) == 0.0;
      LeadStep(ideal, actual, n, d, d(n - 1));
    } else {
      assert d(n - 2) >= d(n - 1);
      LeadCarriesOver(ideal, actual, n - 1, d);
      hide Dcg, Gains, DiscountedLead;
      LeadStep(ideal, actual, n, d, d(n - 2));
    }
  }

  lemma AheadIsEnough(ideal: seq<nat>, actual: seq<nat>, k: nat, d: Discount)
    requires Ahead(ideal, actual, k) && Decreasing(d)
    ensures Dcg(actual, k, d) <= Dcg(ideal, k, d)
  {
    if k > 0 {
      LeadCarriesOver(ideal, actual, k, d);
      assert d(k - 1) >= d(k - 1) >= 0.0;
      assert Gains(actual, k) <= Gains(ideal, k);
      assert Lead(ideal, actual, k) >= 0.0;
      hide Dcg, Gains, Lead;
      Weigh(Lead(ideal, actual, k), d(k - 1), 0.0);
    }
  }

  lemma AheadIsNeeded(ideal: seq<nat>, actual: seq<nat>, k: nat, m: nat)
    requires m <= k && forall d: Discount :: Decreasing(d) ==> Dcg(actual, k, d) <= Dcg(ideal, k, d)
    ensures Gains(actual, m) <= Gains(ideal, m)
  {
    StepDcg(ideal, k, m);
    StepDcg(actual, k, m);
    assert Decreasing(Step(m));
  }

  /**
   The ideal ranking is at least as good under every non-increasing discount, if and only if it has
   gathered at least as much plain gain at every cut-off.
   */
  lemma BoundedIffAhead(ideal: seq<nat>, actual: seq<nat>, k: nat)
    ensures (forall d: Discount :: Decreasing(d) ==> Dcg(actual, k, d) <= Dcg(ideal, k, d)) <==> Ahead(ideal, actual, k)
  {
    hide Dcg, Gains, Decreasing;
    if Ahead(ideal, actual, k) {
      forall d: Discount | Decreasing(d)
        ensures Dcg(actual, k, d) <= Dcg(ideal, k, d)
      {
        AheadIsEnough(ideal, actual, k, d);
      }
    }
    if forall d: Discount :: Decreasing(d) ==> Dcg(actual, k, d) <= Dcg(ideal, k, d) {
      forall m: nat | m <= k
        ensures Gains(actual, m) <= Gains(ideal, m)
      {
        AheadIsNeeded(ideal, actual, k, m);
      }
    }
  }

  // ---------------------------------------------------------------- when nothing is lost

  ghost predicate StrictlyDecreasing(d: Discount) {
    (forall i: nat, j: nat :: i < j ==> d(i) > d(j)) && forall i: nat :: d(i) > 0.0
  }

  /** Both rankings have gathered the same at every cut-off below `n`. */
  ghost predicate LevelBelow(ideal: seq<nat>, actual: seq<nat>, n: nat) {
    forall m: nat :: m < n ==> Lead(ideal, actual, m) == 0.0
  }

  /** What the discounted lead has over the lead discounted, one position further. */
  lemma SlackStep(lead: real, x: real, y: real, before: real, weight: real, sofar: real)
    ensures (sofar + x * weight - y * weight) - (lead + x - y) * weight ==
        (sofar - lead * before) + lead * (before - weight)
  {
    assert (lead + x - y) * weight == lead * weight + x * weight - y * weight;
    assert lead * (before - weight) == lead * before - lead * weight;
  }

  lemma BothZero(a: real, lead: real, gap: real)
    requires a >= 0.0 && lead >= 0.0 && gap > 0.0 && a + lead * gap == 0.0
    ensures a == 0.0 && lead == 0.0
  {
  }

  /** Under a strictly decreasing discount, no slack means no lead at any earlier cut-off. */
  lemma {:induction false} NoSlackIsLevel(ideal: seq<nat>, actual: seq<nat>, n: nat, d: Discount)
    requires StrictlyDecreasing(d) && Ahead(ideal, actual, n) && n >= 1
    requires DiscountedLead(ideal, actual, n, d) == Lead(ideal, actual, n) * d(n - 1)
    ensures LevelBelow(ideal, actual, n)
  {
    assert Lead(ideal, actual, 0) == 0.0;
    if n > 1 {
      assert Decreasing(d);
      LeadCarriesOver(ideal, actual, n - 1, d);
      assert Gains(actual, n - 1) <= Gains(ideal, n - 1);
      assert d(n - 2) > d(n - 1);
      LastSlack(ideal, actual, n, d);
      NoSlackIsLevel(ideal, actual, n - 1, d);
    }
  }

  lemma LastSlack(ideal: seq<nat>, actual: seq<nat>, n: nat, d: Discount)
    requires n >= 2 && d(n - 2) > d(n - 1) && Lead(ideal, actual, n - 1) >= 0.0
    requires DiscountedLead(ideal, actual, n - 1, d) >= Lead(ideal, actual, n - 1) * d(n - 2)
    requires DiscountedLead(ideal, actual, n, d) == Lead(ideal, actual, n) * d(n - 1)
    ensures Lead(ideal, actual, n - 1) == 0.0
    ensures DiscountedLead(ideal, actual, n - 1, d) == Lead(ideal, actual, n - 1) * d(n - 2)
  {
    hide Gain, Dcg, Gains, At;
    var lead, sofar := Lead(ideal, actual, n - 1), DiscountedLead(ideal, actual, n - 1, d);
    OneFurther(ideal, n, d);
    OneFurther(actual, n, d);
    SlackStep(lead, At(ideal, n), At(actual, n), d(n - 2), d(n - 1), sofar);
    assert Lead(ideal, actual, n) == lead + At(ideal, n) - At(actual, n);
    BothZero(sofar - lead * d(n - 2), lead, d(n - 2) - d(n - 1));
  }

  /** Position by position the rankings gain the same. */
  ghost predicate SameGains(ideal: seq<nat>, actual: seq<nat>, k: nat) {
    forall n :: 1 <= n <= k ==> At(ideal, n) == At(actual, n)
  }

  lemma {:induction false} SameGainsSameDcg(ideal: seq<nat>, actual: seq<nat>, k: nat, d: Discount)
    requires SameGains(ideal, actual, k)
    ensures Dcg(ideal, k, d) == Dcg(actual, k, d)
  {
    if k > 0 {
      SameGainsSameDcg(ideal, actual, k - 1, d);
      OneFurther(ideal, k, d);
      OneFurther(actual, k, d);
    }
  }

  /** A ranking that is nowhere ahead of the ideal one reaches its score exactly when it gains the same everywhere. */
  lemma EqualIff(ideal: seq<nat>, actual: seq<nat>, k: nat, d: Discount)
    requires StrictlyDecreasing(d) && Ahead(ideal, actual, k)
    ensures Dcg(actual, k, d) == Dcg(ideal, k, d) <==> SameGains(ideal, actual, k)
  {
    if SameGains(ideal, actual, k) { SameGainsSameDcg(ideal, actual, k, d); }
    if Dcg(actual, k, d) == Dcg(ideal, k, d) && k > 0 {
      assert Decreasing(d);
      LeadCarriesOver(ideal, actual, k, d);
      assert Gains(actual, k) <= Gains(ideal, k);
      BothZero(0.0 - Lead(ideal, actual, k) * d(k - 1), Lead(ideal, actual, k), d(k - 1));
      NoSlackIsLevel(ideal, actual, k, d);
      forall n | 1 <= n <= k
        ensures At(ideal, n) == At(actual, n)
      {
        OneFurther(ideal, n, d);
        OneFurther(actual, n, d);
        assert Lead(ideal, actual, n) == 0.0 && Lead(ideal, actual, n - 1) == 0.0;
      }
    }
  }

  // ---------------------------------------------------------------- picking distinct grades

  ghost predicate Descending(s: seq<nat>) {
    forall i, j :: 0 <= i < j < |s| ==> s[i] >= s[j]
  }

  function Total(x: seq<nat>): (t: real)
    ensures t >= 0.0
  {
    if x == [] then 0.0 else Gain(x[0]) + Total(x[1..])
  }

  /** All but the element at `i`. */
  function Without(x: seq<nat>, i: nat): (rest: seq<nat>)
    requires i < |x|
    ensures |rest| == |x| - 1
  {
    x[..i] + x[i + 1..]
  }

  lemma {:induction false} TotalWithout(x: seq<nat>, i: nat)
    requires i < |x|
    ensures Total(x) == Gain(x[i]) + Total(Without(x, i))
    decreases |x|
  {
    hide Gain;
    var rest := Without(x, i);
    if i == 0 {
      assert rest == x[1..];
    } else {
      TotalWithout(x[1..], i - 1);
      assert rest == [x[0]] + Without(x[1..], i - 1);
      assert rest[1..] == Without(x[1..], i - 1);
    }
  }

  lemma MultisetWithout(x: seq<nat>, i: nat)
    requires i < |x|
    ensures multiset(Without(x, i)) == multiset(x) - multiset{x[i]}
  {
    assert x == x[..i] + [x[i]] + x[i + 1..];
  }

  /** Which of the picked grades to compare with the highest grade. */
  function Opponent(s: seq<nat>, x: seq<nat>): (i: nat)
    requires s != [] && x != []
    ensures i < |x| && (s[0] in x ==> x[i] == s[0])
  {
    if s[0] in x then IndexIn(x, s[0]) else 0
  }

  /** `x` is picked from `s`. */
  ghost predicate Within(x: seq<nat>, s: seq<nat>) {
    multiset(x) <= multiset(s)
  }

  lemma NothingToPick(x: seq<nat>, s: seq<nat>)
    requires Within(x, s)
    ensures s == [] ==> x == []
  {
    if x != [] { assert x[0] in multiset(x); }
  }

  lemma RestDescends(s: seq<nat>)
    requires Descending(s) && s != []
    ensures Descending(s[1..])
  {
  }

  lemma OpponentFits(s: seq<nat>, x: seq<nat>)
    requires s != [] && x != [] && Descending(s) && Within(x, s)
    ensures var i := Opponent(s, x);
            x[i] <= s[0] && Within(Without(x, i), s[1..])
  {
    var i := Opponent(s, x);
    assert x[i] <= s[0] by {
      assert x[i] in multiset(x);
      assert x[i] in s;
    }
    assert s[0] !in x ==> s[0] !in multiset(x);
    hide Descending, Opponent, Without;
    MultisetWithout(x, i);
    MultisetWithout(s, 0);
    FirstOut(s);
  }

  lemma FirstOut(s: seq<nat>)
    requires s != []
    ensures Without(s, 0) == s[1..]
  {
  }

  /** Any `m` of the grades gain at most what the `m` highest gain. */
  lemma {:induction false} TopGainsMost(s: seq<nat>, x: seq<nat>, m: nat)
    requires Descending(s) && Within(x, s) && |x| <= m
    ensures Total(x) <= Gains(s, m)
    decreases |s|
  {
    assert Total([]) == 0.0;
    hide *;
    NothingToPick(x, s);
    if x == [] {
      GainsNonNegative(s, m);
    } else {
      var i := Opponent(s, x);
      OpponentFits(s, x);
      TotalWithout(x, i);
      RestDescends(s);
      TopGainsMost(s[1..], Without(x, i), m - 1);
      GainGrows(x[i], s[0]);
      GainsShift(s, m);
    }
  }

  function IndexIn(x: seq<nat>, v: nat): (i: nat)
    requires v in x
    ensures i < |x| && x[i] == v
  {
    if x[0] == v then 0 else 1 + IndexIn(x[1..], v)
  }

  lemma {:induction false} GainsNonNegative(s: seq<nat>, m: nat)
    ensures Gains(s, m) >= 0.0
  {
    if m > 0 { GainsNonNegative(s, m - 1); }
  }

  lemma {:induction false} GainsShift(s: seq<nat>, m: nat)
    requires s != [] && m >= 1
    ensures Gains(s, m) == Gain(s[0]) + Gains(s[1..], m - 1)
    decreases m
  {
    hide Gain;
    if m > 1 {
      GainsShift(s, m - 1);
    } else {
      assert Gains(s, 0) == 0.0;
    }
  }

  /** The grades left over when the positions `used` are taken. */
  function Left(grades: seq<nat>, used: set<nat>): multiset<nat> {
    if grades == [] then multiset{}
    else
      var n := |grades| - 1;
      Left(grades[..n], used) + (if n in used then multiset{} else multiset{grades[n]})
  }

  lemma {:induction false} TakeOne(grades: seq<nat>, used: set<nat>, p: nat)
    requires p < |grades| && p !in used
    ensures Left(grades, used) == Left(grades, used + {p}) + multiset{grades[p]}
    decreases |grades|
  {
    var n := |grades| - 1;
    if p < n { TakeOne(grades[..n], used, p); } else { TakeNone(grades[..n], used, p); }
  }

  lemma {:induction false} TakeNone(grades: seq<nat>, used: set<nat>, p: nat)
    requires p >= |grades|
    ensures Left(grades, used) == Left(grades, used + {p})
    decreases |grades|
  {
    if grades != [] { TakeNone(grades[..|grades| - 1], used, p); }
  }

  lemma {:induction false} LeftAll(grades: seq<nat>)
    ensures Left(grades, {}) == multiset(grades)
    decreases |grades|
  {
    if grades != [] {
      var n := |grades| - 1;
      LeftAll(grades[..n]);
      assert grades == grades[..n] + [grades[n]];
    }
  }

  // ---------------------------------------------------------------- hits and judgments

  predicate Matches(hit: Text, path: Text): (m: bool)
    ensures m <==> exists k :: OccursAt(hit, path, k)
  {
    Index(hit, path) >= 0
  }

  /** The best grade among the matching judgments, 0 if none matches. */
  ghost predicate IsRelevance(hit: Text, grades: map<Text, nat>, r: nat) {
    && (forall p :: p in grades && Matches(hit, p) ==> grades[p] <= r)
    && (r == 0 || exists p :: p in grades && Matches(hit, p) && grades[p] == r)
  }

  method HitRelevance(hit: Text, grades: map<Text, nat>) returns (best: nat)
    ensures IsRelevance(hit, grades, best)
  {
    best := 0;
    var rest := grades.Keys;
    while exists p :: p in rest
      invariant rest <= grades.Keys
      invariant forall p :: p in grades && p !in rest && Matches(hit, p) ==> grades[p] <= best
      invariant best == 0 || exists p :: p in grades && Matches(hit, p) && grades[p] == best
      decreases |rest|
    {
      var p :| p in rest;
      rest := rest - {p};
      if Matches(hit, p) && grades[p] > best { best := grades[p]; }
    }
  }

  /** The grade map: of judgments with the same path the last one wins. */
  function GradeMap(judgments: seq<Judgment>): map<Text, nat> {
    if judgments == [] then map[]
    else
      var n := |judgments| - 1;
      GradeMap(judgments[..n])[judgments[n].path := judgments[n].grade]
  }

  predicate IsLastOn(judgments: seq<Judgment>, p: Text, i: int) {
    0 <= i < |judgments| && judgments[i].path == p && forall j :: i < j < |judgments| ==> judgments[j].path != p
  }

  /** The grade of a path is that of the last judgment on it. */
  lemma {:induction false} LastGradeWins(judgments: seq<Judgment>, p: Text, i: nat)
    requires IsLastOn(judgments, p, i)
    ensures p in GradeMap(judgments) && GradeMap(judgments)[p] == judgments[i].grade
    decreases |judgments|
  {
    var n := |judgments| - 1;
    if i < n {
      assert judgments[n].path != p;
      LastGradeWins(judgments[..n], p, i);
    }
  }

  /** Only judged paths have a grade. */
  lemma {:induction false} GradedIsJudged(judgments: seq<Judgment>, p: Text) returns (i: nat)
    requires p in GradeMap(judgments)
    ensures IsLastOn(judgments, p, i)
    decreases |judgments|
  {
    var n := |judgments| - 1;
    i := n;
    if judgments[n].path != p {
      i := GradedIsJudged(judgments[..n], p);
      assert forall j :: 0 <= j < n ==> judgments[..n][j] == judgments[j];
    }
  }

  function Grades(judgments: seq<Judgment>): (g: seq<nat>)
    ensures |g| == |judgments| && forall i :: 0 <= i < |g| ==> g[i] == judgments[i].grade
  {
    seq(|judgments|, i requires 0 <= i < |judgments| => judgments[i].grade)
  }

  /** `rels` are the relevances of the first hits. */
  ghost predicate AreRelevances(hits: seq<Text>, judgments: seq<Judgment>, rels: seq<nat>) {
    |rels| <= |hits| && forall i :: 0 <= i < |rels| ==> IsRelevance(hits[i], GradeMap(judgments), rels[i])
  }

  /** sort.Reverse(sort.IntSlice(grades)): an insertion into descending order. */
  method SortDescending(grades: seq<nat>) returns (s: seq<nat>)
    ensures Descending(s) && multiset(s) == multiset(grades)
  {
    s := [];
    for i := 0 to |grades|
      invariant Descending(s) && multiset(s) == multiset(grades[..i])
    {
      s := InsertDescending(s, grades[i]);
      assert grades[..i + 1] == grades[..i] + [grades[i]];
    }
    assert grades[..|grades|] == grades;
  }

  method InsertDescending(s: seq<nat>, g: nat) returns (out: seq<nat>)
    requires Descending(s)
    ensures Descending(out) && multiset(out) == multiset(s) + multiset{g}
  {
    hide Descending;
    var p := 0;
    while p < |s| && s[p] >= g
      invariant p <= |s| && forall j :: 0 <= j < p ==> s[j] >= g
    {
      p := p + 1;
    }
    out := s[..p] + [g] + s[p..];
    InsertedDescending(s, g, p);
    assert s == s[..p] + s[p..];
  }

  lemma InsertedDescending(s: seq<nat>, g: nat, p: nat)
    requires Descending(s) && p <= |s| && (forall j :: 0 <= j < p ==> s[j] >= g) && (p < |s| ==> s[p] < g)
    ensures Descending(s[..p] + [g] + s[p..])
  {
  }

  function Min(a: nat, b: nat): nat {
    if a < b then a else b
  }

  /** The relevances of the first k hits and the grades in ideal order. */
  ghost predicate Rankings(hits: seq<Text>, judgments: seq<Judgment>, k: nat, rels: seq<nat>, ideal: seq<nat>) {
    && AreRelevances(hits, judgments, rels) && |rels| == Min(k, |hits|)
    && Descending(ideal) && multiset(ideal) == multiset(Grades(judgments))
  }

  ghost predicate IsNdcg(hits: seq<Text>, judgments: seq<Judgment>, k: nat, d: Discount, ndcg: real) {
    exists rels, ideal :: Rankings(hits, judgments, k, rels, ideal)
      && ndcg == if Dcg(ideal, k, d) == 0.0 then 0.0 else Dcg(rels, k, d) / Dcg(ideal, k, d)
  }

  method NdcgAtK(hits: seq<Text>, judgments: seq<Judgment>, k: nat, d: Discount) returns (ndcg: real)
    ensures IsNdcg(hits, judgments, k, d, ndcg)
  {
    hide IsRelevance, Gain;
    var gradeMap: map<Text, nat> := map[];
    for i := 0 to |judgments|
      invariant gradeMap == GradeMap(judgments[..i])
    {
      gradeMap := gradeMap[judgments[i].path := judgments[i].grade];
      assert judgments[..i + 1][..i] == judgments[..i];
    }
    assert judgments[..|judgments|] == judgments;
    var dcg := 0.0;
    ghost var rels := [];
    var n := Min(k, |hits|);
    for i := 0 to n
      invariant |rels| == i && AreRelevances(hits, judgments, rels) && dcg == Dcg(rels, i, d)
    {
      var rel := HitRelevance(hits[i], gradeMap);
      DcgPrefix(rels, rels + [rel], i, d);
      rels := rels + [rel];
      dcg := dcg + Gain(rel) * d(i);
    }
    DcgPast(rels, n, k, d);
    var sorted := SortDescending(Grades(judgments));
    var idcg := 0.0;
    var m := Min(k, |sorted|);
    for i := 0 to m
      invariant idcg == Dcg(sorted, i, d)
    {
      idcg := idcg + Gain(sorted[i]) * d(i);
    }
    DcgPast(sorted, m, k, d);
    assert Rankings(hits, judgments, k, rels, sorted);
    ndcg := if idcg == 0.0 then 0.0 else dcg / idcg;
  }

  lemma {:induction false} DcgPrefix(a: seq<nat>, b: seq<nat>, n: nat, d: Discount)
    requires a <= b && n <= |a|
    ensures Dcg(a, n, d) == Dcg(b, n, d)
  {
    if n > 0 { DcgPrefix(a, b, n - 1, d); }
  }

  /** Positions past the end add nothing. */
  lemma {:induction false} DcgPast(grades: seq<nat>, n: nat, k: nat, d: Discount)
    requires n <= k && (n == k || n == |grades|)
    ensures Dcg(grades, k, d) == Dcg(grades, n, d)
    decreases k
  {
    if n < k { DcgPast(grades, n, k - 1, d); }
  }

  // ---------------------------------------------------------------- NDCG is at most 1

  /** No judgment is matched by two of the first `n` hits. */
  ghost predicate OneHitEach(hits: seq<Text>, judgments: seq<Judgment>, n: nat) {
    forall i, j, q :: 0 <= i < j < n && j < |hits| && 0 <= q < |judgments| ==>
      !(Matches(hits[i], judgments[q].path) && Matches(hits[j], judgments[q].path))
  }

  function Positives(x: seq<nat>): seq<nat> {
    if x == [] then [] else Positives(x[..|x| - 1]) + (if x[|x| - 1] == 0 then [] else [x[|x| - 1]])
  }

  lemma {:induction false} TotalAppend(x: seq<nat>, g: nat)
    ensures Total(x + [g]) == Total(x) + Gain(g)
    decreases |x|
  {
    hide Gain;
    if x == [] {
      assert x + [g] == [g] && [g][1..] == [];
    } else {
      TotalAppend(x[1..], g);
      assert (x + [g])[1..] == x[1..] + [g];
    }
  }

  /** Hits without relevance gain nothing. */
  lemma {:induction false} PositivesGain(rels: seq<nat>, m: nat)
    requires m <= |rels|
    ensures Gains(rels, m) == Total(Positives(rels[..m])) && |Positives(rels[..m])| <= m
  {
    hide Gain;
    if m > 0 {
      PositivesGain(rels, m - 1);
      assert rels[..m][..m - 1] == rels[..m - 1];
      if rels[m - 1] == 0 {
        assert Positives(rels[..m]) == Positives(rels[..m - 1]);
      } else {
        TotalAppend(Positives(rels[..m - 1]), rels[m - 1]);
      }
    }
  }

  lemma {:induction false} GradeMapAt(judgments: seq<Judgment>, p: Text) returns (j: nat)
    requires p in GradeMap(judgments)
    ensures j < |judgments| && judgments[j].path == p && judgments[j].grade == GradeMap(judgments)[p]
    decreases |judgments|
  {
    var n := |judgments| - 1;
    if judgments[n].path == p { j := n; } else { j := GradeMapAt(judgments[..n], p); }
  }

  /** Every judgment in `used` was matched by one of the first `m` hits. */
  ghost predicate UsedBy(hits: seq<Text>, judgments: seq<Judgment>, used: set<nat>, m: nat)
    requires m <= |hits|
  {
    forall j :: j in used ==> j < |judgments| && Hit(hits, m, judgments[j].path)
  }

  /** A relevant hit claims a judgment no earlier hit matched. */
  lemma ClaimOne(hits: seq<Text>, judgments: seq<Judgment>, rels: seq<nat>, i: nat, used: set<nat>) returns (j: nat)
    requires AreRelevances(hits, judgments, rels) && i < |rels| && OneHitEach(hits, judgments, |rels|) && rels[i] != 0
    requires UsedBy(hits, judgments, used, i)
    ensures j < |judgments| && j !in used && judgments[j].grade == rels[i] && Matches(hits[i], judgments[j].path)
  {
    hide Matches, GradeMap;
    assert IsRelevance(hits[i], GradeMap(judgments), rels[i]);
    var p :| p in GradeMap(judgments) && Matches(hits[i], p) && GradeMap(judgments)[p] == rels[i];
    j := GradeMapAt(judgments, p);
    assert !Hit(hits, i, p) by {
      forall h | 0 <= h < i
        ensures !Matches(hits[h], p)
      {
      }
    }
  }

  lemma UsedGrows(hits: seq<Text>, judgments: seq<Judgment>, used: set<nat>, m: nat, j: nat)
    requires m < |hits| && UsedBy(hits, judgments, used, m) && j < |judgments| && Matches(hits[m], judgments[j].path)
    ensures UsedBy(hits, judgments, used, m + 1) && UsedBy(hits, judgments, used + {j}, m + 1)
  {
    hide Matches;
    HitGrows(hits, m);
  }

  lemma HitGrows(hits: seq<Text>, m: nat)
    requires m < |hits|
    ensures forall p :: Hit(hits, m + 1, p) <==> Hit(hits, m, p) || Matches(hits[m], p)
  {
    hide Matches;
    forall p
      ensures Hit(hits, m + 1, p) <==> Hit(hits, m, p) || Matches(hits[m], p)
    {
      if Matches(hits[m], p) { assert Hit(hits, m + 1, p); }
    }
  }

  /** The grades the hits claim belong to different judgments. */
  lemma {:induction false} ClaimedGrades(hits: seq<Text>, judgments: seq<Judgment>, rels: seq<nat>, m: nat)
    returns (used: set<nat>)
    requires AreRelevances(hits, judgments, rels) && m <= |rels| && OneHitEach(hits, judgments, |rels|)
    ensures multiset(Positives(rels[..m])) + Left(Grades(judgments), used) == multiset(Grades(judgments))
    ensures UsedBy(hits, judgments, used, m)
  {
    hide Matches, OneHitEach, IsRelevance, GradeMap, Left;
    if m == 0 {
      used := {};
      LeftAll(Grades(judgments));
    } else {
      used := ClaimedGrades(hits, judgments, rels, m - 1);
      assert rels[..m][..m - 1] == rels[..m - 1];
      HitGrows(hits, m - 1);
      if rels[m - 1] == 0 {
        assert Positives(rels[..m]) == Positives(rels[..m - 1]);
      } else {
        var j := ClaimOne(hits, judgments, rels, m - 1, used);
        assert Positives(rels[..m]) == Positives(rels[..m - 1]) + [rels[m - 1]];
        hide Positives, UsedBy;
        TakeOne(Grades(judgments), used, j);
        UsedGrows(hits, judgments, used, m - 1, j);
        used := used + {j};
      }
    }
  }

  lemma IdealIsAhead(hits: seq<Text>, judgments: seq<Judgment>, rels: seq<nat>, ideal: seq<nat>, k: nat)
    requires AreRelevances(hits, judgments, rels) && |rels| == Min(k, |hits|) && OneHitEach(hits, judgments, |rels|)
    requires Descending(ideal) && multiset(ideal) == multiset(Grades(judgments))
    ensures Ahead(ideal, rels, k)
  {
    hide Left;
    forall m: nat | m <= k
      ensures Gains(rels, m) <= Gains(ideal, m)
    {
      var n := Min(m, |rels|);
      var used := ClaimedGrades(hits, judgments, rels, n);
      PositivesGain(rels, n);
      GainsPast(rels, n, m);
      TopGainsMost(ideal, Positives(rels[..n]), m);
    }
  }

  lemma {:induction false} GainsPast(grades: seq<nat>, n: nat, k: nat)
    requires n <= k && (n == k || n == |grades|)
    ensures Gains(grades, k) == Gains(grades, n)
    decreases k
  {
    if n < k { GainsPast(grades, n, k - 1); }
  }

  lemma {:induction false} DcgNonNegative(grades: seq<nat>, n: nat, d: Discount)
    requires Decreasing(d)
    ensures Dcg(grades, n, d) >= 0.0
  {
    if n > 0 {
      DcgNonNegative(grades, n - 1, d);
      assert d(n - 1) >= d(n - 1) >= 0.0;
      if n <= |grades| { Weigh(Gain(grades[n - 1]), d(n - 1), 0.0); }
    }
  }

  lemma Quotient(x: real, y: real)
    requires x >= 0.0 && y > 0.0
    ensures x / y >= 0.0 && (x / y <= 1.0 <==> x <= y)
  {
  }

  /**
   NDCG at k of hits that match each judgment at most once is between 0 and 1, for every
   non-negative, non-increasing discount.
   */
  lemma NdcgAtMostOne(hits: seq<Text>, judgments: seq<Judgment>, k: nat, d: Discount, ndcg: real)
    requires IsNdcg(hits, judgments, k, d, ndcg) && OneHitEach(hits, judgments, Min(k, |hits|)) && Decreasing(d)
    ensures 0.0 <= ndcg <= 1.0
  {
    hide Dcg, Decreasing, AreRelevances, OneHitEach;
    var rels, ideal :| Rankings(hits, judgments, k, rels, ideal)
      && ndcg == if Dcg(ideal, k, d) == 0.0 then 0.0 else Dcg(rels, k, d) / Dcg(ideal, k, d);
    IdealIsAhead(hits, judgments, rels, ideal, k);
    AheadIsEnough(ideal, rels, k, d);
    DcgNonNegative(rels, k, d);
    DcgNonNegative(ideal, k, d);
    if Dcg(ideal, k, d) != 0.0 { Quotient(Dcg(rels, k, d), Dcg(ideal, k, d)); }
  }

  lemma {:induction false} IdealIsUnique(a: seq<nat>, b: seq<nat>)
    requires Descending(a) && Descending(b) && Within(a, b) && Within(b, a)
    ensures a == b
    decreases |a|
  {
    hide *;
    NothingToPick(a, b);
    NothingToPick(b, a);
    if a != [] {
      FirstBelow(a, b);
      FirstBelow(b, a);
      RestDescends(a);
      RestDescends(b);
      RestWithin(a, b);
      RestWithin(b, a);
      IdealIsUnique(a[1..], b[1..]);
      assert a == [a[0]] + a[1..] && b == [b[0]] + b[1..];
    }
  }

  lemma FirstBelow(x: seq<nat>, s: seq<nat>)
    requires Descending(s) && Within(x, s) && x != []
    ensures s != [] && x[0] <= s[0]
  {
    assert x[0] in multiset(x);
    assert x[0] in s;
  }

  lemma RestWithin(x: seq<nat>, s: seq<nat>)
    requires Within(x, s) && x != [] && s != [] && x[0] == s[0]
    ensures Within(x[1..], s[1..])
  {
    hide Without;
    MultisetWithout(x, 0);
    MultisetWithout(s, 0);
    FirstOut(x);
    FirstOut(s);
  }

  /** The hits and judgments leave no choice of relevances or ideal order. */
  lemma RankingsAreUnique(hits: seq<Text>, judgments: seq<Judgment>, k: nat,
                          rels: seq<nat>, ideal: seq<nat>, rels': seq<nat>, ideal': seq<nat>)
    requires Rankings(hits, judgments, k, rels, ideal) && Rankings(hits, judgments, k, rels', ideal')
    ensures rels == rels' && ideal == ideal'
  {
    IdealIsUnique(ideal, ideal');
    hide Matches, Descending, GradeMap;
    forall i | 0 <= i < |rels|
      ensures rels[i] == rels'[i]
    {
      assert IsRelevance(hits[i], GradeMap(judgments), rels[i]) && IsRelevance(hits[i], GradeMap(judgments), rels'[i]);
    }
  }

  /**
   Of hits that match each judgment at most once, NDCG at k is 1 exactly when at every position up
   to k they gain what the grade-sorted order gains there, for every strictly decreasing discount.
   */
  lemma NdcgIsOneIff(hits: seq<Text>, judgments: seq<Judgment>, k: nat, d: Discount, ndcg: real, rels: seq<nat>,
                     ideal: seq<nat>)
    requires IsNdcg(hits, judgments, k, d, ndcg) && OneHitEach(hits, judgments, Min(k, |hits|)) && StrictlyDecreasing(d)
    requires Rankings(hits, judgments, k, rels, ideal) && Dcg(ideal, k, d) > 0.0
    ensures ndcg == 1.0 <==> SameGains(ideal, rels, k)
  {
    hide Dcg, AreRelevances, OneHitEach, Descending, SameGains;
    var rels', ideal' :| Rankings(hits, judgments, k, rels', ideal')
      && ndcg == if Dcg(ideal', k, d) == 0.0 then 0.0 else Dcg(rels', k, d) / Dcg(ideal', k, d);
    RankingsAreUnique(hits, judgments, k, rels, ideal, rels', ideal');
    IdealIsAhead(hits, judgments, rels, ideal, k);
    EqualIff(ideal, rels, k, d);
    IsWhole(Dcg(rels, k, d), Dcg(ideal, k, d));
  }

  lemma IsWhole(x: real, y: real)
    requires y > 0.0
    ensures x / y == 1.0 <==> x == y
  {
  }

  /** Two hits on one judgment: NDCG at 2 exceeds 1, whatever the discount. */
  lemma RepeatedHitsExceedOne(d: Discount)
    requires d(0) > 0.0 && d(1) > 0.0
    ensures exists ndcg :: IsNdcg([[97], [97]], [Judgment([97], 1)], 2, d, ndcg) && ndcg > 1.0
  {
    var a: Text := [97];
    var hits, judgments := [a, a], [Judgment(a, 1)];
    assert judgments[..0] == [];
    assert GradeMap(judgments) == map[a := 1];
    assert Matches(a, a);
    assert Pow2(1) == 2 by { assert Pow2(0) == 1; }
    assert Gain(1) == 1.0;
    assert Grades(judgments) == [1];
    assert Rankings(hits, judgments, 2, [1, 1], [1]);
    hide Rankings, GradeMap, Matches;
    var x, y := Dcg([1, 1], 2, d), Dcg([1], 2, d);
    assert Dcg([1, 1], 1, d) == d(0) && Dcg([1], 1, d) == d(0);
    Quotient(x, y);
    assert IsNdcg(hits, judgments, 2, d, x / y);
  }

  // ---------------------------------------------------------------- recall

  /** The distinct paths judged relevant. */
  function Relevant(judgments: seq<Judgment>): (paths: set<Text>)
    ensures forall p :: p in paths <==>
              exists i :: 0 <= i < |judgments| && judgments[i].path == p && judgments[i].grade > 0
  {
    set i | 0 <= i < |judgments| && judgments[i].grade > 0 :: judgments[i].path
  }

  /** The relevant paths some of the first `n` hits matches. */
  function Found(hits: seq<Text>, relevant: set<Text>, n: nat): set<Text>
    requires n <= |hits|
  {
    set p | p in relevant && Hit(hits, n, p)
  }

  predicate Hit(hits: seq<Text>, n: nat, p: Text)
    requires n <= |hits|
  {
    exists i :: 0 <= i < n && Matches(hits[i], p)
  }

  /** No hit matches two relevant paths. */
  ghost predicate Unambiguous(hits: seq<Text>, relevant: set<Text>) {
    forall i, p, q :: 0 <= i < |hits| && p in relevant && q in relevant ==>
      Matches(hits[i], p) && Matches(hits[i], q) ==> p == q
  }

  /**
   Which relevant path each hit is credited with: one it matches that no earlier hit was credited with, or none when
   there is no such path.
   */
  ghost predicate IsPicking(hits: seq<Text>, all: set<Text>, picks: seq<Option<Text>>) {
    && |picks| <= |hits|
    && forall i :: 0 <= i < |picks| ==> IsPick(hits[i], all, picks[..i], picks[i])
  }

  ghost predicate IsPick(hit: Text, all: set<Text>, before: seq<Option<Text>>, pick: Option<Text>) {
    match pick
    case Some(p) => p in all && Matches(hit, p) && pick !in before
    case None => forall p :: p in all && Matches(hit, p) ==> Some(p) in before
  }

  function Picked(picks: seq<Option<Text>>): (paths: set<Text>)
    ensures forall p :: p in paths <==> Some(p) in picks
  {
    set i | 0 <= i < |picks| && picks[i].Some? :: picks[i].value
  }

  lemma OnePick(hits: seq<Text>, all: set<Text>, picks: seq<Option<Text>>, pick: Option<Text>)
    requires IsPicking(hits, all, picks) && |picks| < |hits| && IsPick(hits[|picks|], all, picks, pick)
    ensures IsPicking(hits, all, picks + [pick])
    ensures Picked(picks + [pick]) == if pick.Some? then Picked(picks) + {pick.value} else Picked(picks)
  {
    var more := picks + [pick];
    hide IsPick, Picked;
    forall i | 0 <= i < |more|
      ensures IsPick(hits[i], all, more[..i], more[i])
    {
      if i < |picks| {
        assert more[..i] == picks[..i];
      } else {
        assert more[..i] == picks;
      }
    }
    forall p
      ensures Some(p) in more <==> Some(p) in picks || pick == Some(p)
    {
    }
  }

  /** What is credited is found; with unambiguous hits all that is found is credited. */
  lemma PickedIsFound(hits: seq<Text>, all: set<Text>, picks: seq<Option<Text>>)
    requires IsPicking(hits, all, picks)
    ensures Picked(picks) <= Found(hits, all, |picks|)
    ensures Unambiguous(hits, all) ==> Picked(picks) == Found(hits, all, |picks|)
  {
    hide Matches;
    forall p | p in Picked(picks)
      ensures p in Found(hits, all, |picks|)
    {
      var i :| 0 <= i < |picks| && picks[i] == Some(p);
      assert IsPick(hits[i], all, picks[..i], picks[i]);
      assert Hit(hits, |picks|, p);
    }
    if Unambiguous(hits, all) {
      forall p | p in Found(hits, all, |picks|)
        ensures p in Picked(picks)
      {
        var i :| 0 <= i < |picks| && Matches(hits[i], p);
        assert IsPick(hits[i], all, picks[..i], picks[i]);
        match picks[i]
        case Some(q) => assert p == q;
        case None => assert Some(p) in picks[..i];
      }
    }
  }

  /**
   recallAtK: every hit is credited with one relevant path at most and every path counted once. Which one a hit that
   matches several is credited with is the map's choice; for unambiguous hits there is none.
   */
  method RecallAtK(hits: seq<Text>, judgments: seq<Judgment>, k: nat)
    returns (recall: real, ghost picks: seq<Option<Text>>)
    ensures 0.0 <= recall <= 1.0
    ensures Relevant(judgments) == {} ==> recall == 0.0
    ensures IsPicking(hits, Relevant(judgments), picks) && |picks| == Min(k, |hits|)
    ensures Relevant(judgments) != {} ==> recall == |Picked(picks)| as real / |Relevant(judgments)| as real
    ensures Relevant(judgments) != {} && Unambiguous(hits, Relevant(judgments)) ==>
              recall == |Found(hits, Relevant(judgments), Min(k, |hits|))| as real / |Relevant(judgments)| as real
  {
    hide Matches, Unambiguous, Found, IsPicking, Picked, Relevant;
    var relevant := Relevant(judgments);
    var n := Min(k, |hits|);
    ghost var all := relevant;
    if |relevant| == 0 {
      NobodyPicked(hits, all, n);
      return 0.0, seq(n, i => None);
    }
    var found := 0;
    picks := [];
    NothingPicked(hits, all);
    for i := 0 to n
      invariant |picks| == i && IsPicking(hits, all, picks) && relevant == all - Picked(picks) && Picked(picks) <= all
      invariant found == |Picked(picks)|
    {
      ghost var open, pick := relevant, None;
      if p :| p in relevant && Matches(hits[i], p) {
        found := found + 1;
        relevant := relevant - {p};
        pick := Some(p);
      }
      CreditStep(hits, all, picks, open, pick);
      picks := picks + [pick];
    }
    PickedIsFound(hits, all, picks);
    SizesAdd(all, Picked(picks));
    recall := found as real / (found + |relevant|) as real;
    Quotient(found as real, (found + |relevant|) as real);
  }

  /** A hit is credited with a path still open, if it matches one. */
  lemma CreditStep(hits: seq<Text>, all: set<Text>, picks: seq<Option<Text>>, open: set<Text>, pick: Option<Text>)
    requires IsPicking(hits, all, picks) && |picks| < |hits| && open == all - Picked(picks) && Picked(picks) <= all
    requires match pick
             case Some(p) => p in open && Matches(hits[|picks|], p)
             case None => forall p :: p in open ==> !Matches(hits[|picks|], p)
    ensures IsPicking(hits, all, picks + [pick]) && Picked(picks + [pick]) <= all
    ensures (if pick.Some? then open - {pick.value} else open) == all - Picked(picks + [pick])
    ensures |Picked(picks + [pick])| == |Picked(picks)| + if pick.Some? then 1 else 0
  {
    hide Matches, IsPicking;
    assert IsPick(hits[|picks|], all, picks, pick);
    OnePick(hits, all, picks, pick);
  }

  lemma SizesAdd<T>(all: set<T>, part: set<T>)
    requires part <= all
    ensures |all| == |part| + |all - part|
  {
    assert all == part + (all - part);
  }

  lemma NobodyPicked(hits: seq<Text>, all: set<Text>, n: nat)
    requires all == {} && n <= |hits|
    ensures IsPicking(hits, all, seq(n, i => None))
  {
  }

  lemma NothingPicked(hits: seq<Text>, all: set<Text>)
    ensures IsPicking(hits, all, []) && Picked([]) == {}
  {
  }
}
