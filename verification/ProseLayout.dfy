/**
 Where the chunks of a text lie in it: in order, with only droppable text between them,
 and with reported offsets that never run ahead of the true ones.
 */
module ProseLayout {
  import opened Bytes
  import opened Prose

  // ---------------------------------------------------------------- what may be dropped

  function GapWidth(g: Text): (w: nat)
    ensures w <= |g|
  {
    if SpaceWidth(g) > 0 then SpaceWidth(g)
    else if |g| >= 2 && g[0] == 46 && g[1] == 32 then 2
    else 0
  }

  /** Dropped text: white-space runes and whole ". " separators, nothing else. */
  predicate Gap(g: Text)
    decreases |g|
  {
    g == [] || (GapWidth(g) > 0 && Gap(g[GapWidth(g)..]))
  }

  lemma {:induction false} GapAppend(a: Text, b: Text)
    requires Gap(a) && Gap(b)
    ensures Gap(a + b)
    decreases |a|
  {
    hide GapWidth;
    if a == [] {
      assert a + b == b;
    } else {
      GapAppend(a[GapWidth(a)..], b);
      SameGapWidth(a, b);
      GapFirst(a + b);
    }
  }

  lemma SameGapWidth(a: Text, b: Text)
    requires GapWidth(a) > 0
    ensures GapWidth(a + b) == GapWidth(a) && (a + b)[GapWidth(a)..] == a[GapWidth(a)..] + b
  {
  }

  lemma GapFirst(g: Text)
    requires GapWidth(g) > 0 && Gap(g[GapWidth(g)..])
    ensures Gap(g)
  {
  }

  lemma {:induction false} BlankIsGap(s: Text)
    requires Blank(s)
    ensures Gap(s)
    decreases |s|
  {
    if s != [] { BlankIsGap(s[SpaceWidth(s)..]); }
  }

  ghost predicate Droppable(seps: seq<Text>) {
    AllNonEmpty(seps) && forall i :: 0 <= i < |seps| ==> Gap(seps[i])
  }

  lemma SeparatorsAreGaps()
    ensures Droppable(SEPARATORS)
  {
    assert Gap(PARAGRAPH[1..]) by { assert PARAGRAPH[1..] == [10]; assert PARAGRAPH[1..][1..] == []; }
    assert Gap(LINE) by { assert LINE[1..] == []; }
    assert Gap(SENTENCE) by { assert SENTENCE[2..] == []; }
    assert Gap(WORD) by { assert WORD[1..] == []; }
  }

  /** The printable ASCII byte a gap can hold is a full stop in front of a space. */
  lemma {:induction false} OnlyStopsAreDropped(g: Text, i: nat)
    requires Gap(g) && i < |g| && 33 <= g[i] < 127
    ensures g[i] == 46 && i + 1 < |g| && g[i + 1] == 32
    decreases |g|
  {
    var w := GapWidth(g);
    if i >= w { OnlyStopsAreDropped(g[w..], i - w); }
  }

  // ---------------------------------------------------------------- places in the input

  /** `t` stands in `source` at `i`. */
  ghost predicate Holds(source: Text, i: int, t: Text) {
    0 <= i && i + |t| <= |source| && source[i..i + |t|] == t
  }

  /** Nothing but dropped text stands in source[i..j]. */
  ghost predicate Skips(source: Text, i: int, j: int) {
    0 <= i <= j <= |source| && Gap(source[i..j])
  }

  lemma SkipsForward(source: Text, i: int, j: int)
    requires Skips(source, i, j)
    ensures 0 <= i <= j <= |source|
  {
  }

  lemma SkipsNothing(source: Text, i: nat)
    requires i <= |source|
    ensures Skips(source, i, i)
  {
    assert source[i..i] == [];
  }

  lemma SkipsOn(source: Text, i: nat, j: nat, k: nat)
    requires Skips(source, i, j) && Skips(source, j, k)
    ensures Skips(source, i, k)
  {
    hide Gap;
    GapAppend(source[i..j], source[j..k]);
    assert source[i..k] == source[i..j] + source[j..k];
  }

  lemma SkipsText(source: Text, i: nat, t: Text)
    requires Holds(source, i, t) && Gap(t)
    ensures Skips(source, i, i + |t|) && i + |t| <= |source|
  {
  }

  lemma HoldsOn(source: Text, i: nat, a: Text, b: Text)
    requires Holds(source, i, a) && Holds(source, i + |a|, b)
    ensures Holds(source, i, a + b)
  {
    assert source[i..i + |a + b|] == source[i..i + |a|] + source[i + |a|..i + |a| + |b|];
  }

  lemma HoldsInside(source: Text, i: nat, t: Text, k: nat, p: Text)
    requires Holds(source, i, t) && Holds(t, k, p)
    ensures Holds(source, i + k, p)
  {
    assert forall j :: 0 <= j < |p| ==> source[i + k + j] == t[k + j] == p[j] by {
      forall j | 0 <= j < |p|
        ensures source[i + k + j] == t[k + j] == p[j]
      {
        assert source[i..i + |t|][k + j] == source[i + k + j];
        assert t[k..k + |p|][j] == t[k + j];
      }
    }
  }

  lemma HoldsApart(source: Text, i: nat, t: Text, k: nat)
    requires Holds(source, i, t) && k <= |t|
    ensures Holds(source, i, t[..k]) && Holds(source, i + k, t[k..])
  {
    assert source[i..i + k] == source[i..i + |t|][..k];
    assert source[i + k..i + |t|] == source[i..i + |t|][k..];
  }

  // ---------------------------------------------------------------- layout

  /**
   `items` lie in order in source[lo..hi], gaps between them, and their reported ranges lie in
   order in [from, to]. A reported start is at least `lag` before the true place.
   */
  ghost predicate Layout(source: Text, lo: nat, hi: nat, from: nat, to: nat, lag: int, items: seq<Traced>)
    decreases |items|
  {
    lo <= hi && from <= to &&
    if items == [] then Skips(source, lo, hi)
    else
      var c, at := items[0].chunk, items[0].at;
      && Skips(source, lo, at) && Holds(source, at, c.text) && at + |c.text| <= hi
      && from <= c.start && c.end == c.start + |c.text| <= to
      && at - c.start >= lag
      && Layout(source, at + |c.text|, hi, c.end, to, lag, items[1..])
  }

  lemma LayoutGap(source: Text, lo: nat, mid: nat, hi: nat, from: nat, m: nat, to: nat, lag: int, items: seq<Traced>)
    requires Skips(source, lo, mid) && lo <= mid && from <= m
    requires Layout(source, mid, hi, m, to, lag, items)
    ensures Layout(source, lo, hi, from, to, lag, items)
  {
    hide Skips, Holds;
    if items == [] { SkipsOn(source, lo, mid, hi); } else { SkipsOn(source, lo, mid, items[0].at); }
  }

  lemma {:induction false} LayoutAppend(source: Text, lo: nat, mid: nat, hi: nat, from: nat, m: nat, to: nat, lag: int,
                                        a: seq<Traced>, b: seq<Traced>)
    requires Layout(source, lo, mid, from, m, lag, a)
    requires Layout(source, mid, hi, m, to, lag, b)
    ensures Layout(source, lo, hi, from, to, lag, a + b)
    decreases |a|
  {
    hide Skips, Holds;
    if a == [] {
      assert a + b == b;
      LayoutGap(source, lo, mid, hi, from, m, to, lag, b);
    } else {
      LayoutAppend(source, a[0].at + |a[0].chunk.text|, mid, hi, a[0].chunk.end, m, to, lag, a[1..], b);
      assert (a + b)[1..] == a[1..] + b;
    }
  }

  lemma {:induction false} LayoutWeaken(source: Text, lo: nat, hi: nat, from: nat, to: nat, lag: int, less: int,
                                        items: seq<Traced>)
    requires Layout(source, lo, hi, from, to, lag, items) && less <= lag
    ensures Layout(source, lo, hi, from, to, less, items)
    decreases |items|
  {
    hide Skips, Holds;
    if items != [] {
      LayoutWeaken(source, items[0].at + |items[0].chunk.text|, hi, items[0].chunk.end, to, lag, less, items[1..]);
    }
  }

  // ---------------------------------------------------------------- one separator level

  lemma {:induction false} PositionShift(parts: seq<Text>, i: nat, sep: Text)
    requires 1 <= i <= |parts|
    ensures PositionOf(parts, i, sep) == |parts[0]| + |sep| + PositionOf(parts[1..], i - 1, sep)
  {
    if i > 1 { PositionShift(parts, i - 1, sep); }
  }

  /** Part `i` stands at its position in the joined text, with a separator behind it unless it is the last. */
  lemma {:induction false} JoinAt(parts: seq<Text>, sep: Text, i: nat)
    requires i < |parts|
    ensures Holds(Join(parts, sep), PositionOf(parts, i, sep), parts[i])
    ensures i + 1 == |parts| ==> PositionOf(parts, i, sep) + |parts[i]| == |Join(parts, sep)|
    ensures i + 1 < |parts| ==> Holds(Join(parts, sep), PositionOf(parts, i, sep) + |parts[i]|, sep)
    decreases i
  {
    hide *;
    if |parts| == 1 || i == 0 {
      FirstPart(parts, sep);
    } else {
      JoinHead(parts, sep);
      JoinAt(parts[1..], sep, i - 1);
      PositionShift(parts, i, sep);
      var rest, k := Join(parts[1..], sep), PositionOf(parts[1..], i - 1, sep);
      HoldsInside(Join(parts, sep), |parts[0]| + |sep|, rest, k, parts[i]);
      if i + 1 < |parts| {
        HoldsInside(Join(parts, sep), |parts[0]| + |sep|, rest, k + |parts[i]|, sep);
      }
    }
  }

  lemma FirstPart(parts: seq<Text>, sep: Text)
    requires parts != []
    ensures PositionOf(parts, 0, sep) == 0 && Holds(Join(parts, sep), 0, parts[0])
    ensures |parts| == 1 ==> |parts[0]| == |Join(parts, sep)|
    ensures |parts| > 1 ==> Holds(Join(parts, sep), |parts[0]|, sep)
  {
    if |parts| > 1 { JoinHead(parts, sep); }
  }

  lemma JoinHead(parts: seq<Text>, sep: Text)
    requires |parts| > 1
    ensures var t := Join(parts, sep);
            && Holds(t, 0, parts[0]) && Holds(t, |parts[0]|, sep)
            && Holds(t, |parts[0]| + |sep|, Join(parts[1..], sep))
            && |t| == |parts[0]| + |sep| + |Join(parts[1..], sep)|
  {
  }

  /** A buffer seen as an item, for `Layout`. */
  function AsItems(bufs: seq<Buffer>): (items: seq<Traced>)
    ensures |items| == |bufs|
  {
    if bufs == [] then []
    else
      var b := bufs[0];
      [Traced(Chunk(b.text, b.start, b.start + |b.text|, 0), b.at, false)] + AsItems(bufs[1..])
  }

  /**
   The state of the separator loop in front of part `i`: what was flushed ends at `done`
   (reported: `from`), and the text in hand ends one separator in front of part `i`.
   */
  ghost predicate InHand(source: Text, lo: nat, hi: nat, parts: seq<Text>, sep: Text, i: nat, cur: Buffer,
                         offset: nat, done: nat, from: nat)
  {
    && 0 <= i <= |parts| && |parts| >= 1
    && Holds(source, lo, Join(parts, sep)) && hi == lo + |Join(parts, sep)|
    && lo <= done && from <= cur.start
    && cur.start - offset <= (if i < |parts| then PositionOf(parts, i, sep) else |Join(parts, sep)|)
    && (cur.text == [] ==> Skips(source, done, if i < |parts| then lo + PositionOf(parts, i, sep) else hi))
    && (cur.text != [] ==>
          && cur.at + |cur.text| + |sep| == lo + PositionOf(parts, i, sep)
          && Skips(source, done, cur.at) && Holds(source, cur.at, cur.text)
          && cur.at - cur.start >= lo - offset)
  }

  lemma HoldsEnds(source: Text, i: int, t: Text)
    requires Holds(source, i, t)
    ensures 0 <= i && i + |t| <= |source|
  {
  }

  lemma PartInSource(source: Text, lo: nat, parts: seq<Text>, sep: Text, i: nat)
    requires i < |parts| && Holds(source, lo, Join(parts, sep))
    ensures var k := lo + PositionOf(parts, i, sep);
            && Holds(source, k, parts[i]) && k + |parts[i]| <= lo + |Join(parts, sep)|
            && (i + 1 == |parts| ==> k + |parts[i]| == lo + |Join(parts, sep)|)
            && (i + 1 < |parts| ==> Holds(source, k + |parts[i]|, sep))
  {
    hide *;
    JoinAt(parts, sep, i);
    var t, k := Join(parts, sep), PositionOf(parts, i, sep);
    HoldsEnds(t, k, parts[i]);
    HoldsInside(source, lo, t, k, parts[i]);
    if i + 1 < |parts| { HoldsInside(source, lo, t, k + |parts[i]|, sep); }
  }

  /** The separator in front of part `i`. */
  lemma SeparatorInSource(source: Text, lo: nat, parts: seq<Text>, sep: Text, i: nat)
    requires 1 <= i < |parts| && Holds(source, lo, Join(parts, sep))
    ensures Holds(source, lo + PositionOf(parts, i, sep) - |sep|, sep)
  {
    PartInSource(source, lo, parts, sep, i - 1);
  }

  lemma HoldsThree(source: Text, i: nat, a: Text, b: Text, c: Text)
    requires Holds(source, i, a) && Holds(source, i + |a|, b) && Holds(source, i + |a| + |b|, c)
    ensures Holds(source, i, a + b + c)
  {
    hide Holds;
    HoldsOn(source, i, a, b);
    HoldsOn(source, i, a + b, c);
  }

  /** Taking part `i` in hand, either joined on to the text in hand or opening a new buffer. */
  lemma NextHand(source: Text, lo: nat, hi: nat, parts: seq<Text>, sep: Text, i: nat, next: Buffer,
                 offset: nat, done: nat, from: nat)
    requires i < |parts| && Holds(source, lo, Join(parts, sep)) && hi == lo + |Join(parts, sep)| && Gap(sep)
    requires lo <= done && from <= next.start && next.start - offset <= PositionOf(parts, i, sep)
    requires next.text == [] ==> parts[i] == [] && Skips(source, done, lo + PositionOf(parts, i, sep))
    requires next.text != [] ==>
               && next.at + |next.text| == lo + PositionOf(parts, i, sep) + |parts[i]|
               && Skips(source, done, next.at) && Holds(source, next.at, next.text)
               && next.at - next.start >= lo - offset
    ensures InHand(source, lo, hi, parts, sep, i + 1, next, offset, done, from)
  {
    hide Holds, Join, Skips, Gap;
    PartInSource(source, lo, parts, sep, i);
    var k := lo + PositionOf(parts, i, sep);
    if next.text == [] && i + 1 < |parts| {
      SkipsText(source, k, sep);
      SkipsOn(source, done, k, k + |sep|);
    }
  }

  lemma GroupLayoutEnd(source: Text, lo: nat, hi: nat, parts: seq<Text>, sep: Text, cur: Buffer,
                       offset: nat, done: nat, from: nat, cfg: Config, count: Counter)
    requires InHand(source, lo, hi, parts, sep, |parts|, cur, offset, done, from)
    ensures Layout(source, done, hi, from, offset + (hi - lo), lo - offset,
                   AsItems(Group(parts, sep, |parts|, cur, offset, lo, cfg, count)))
  {
    var bufs := Group(parts, sep, |parts|, cur, offset, lo, cfg, count);
    if cur.text != [] {
      PartInSource(source, lo, parts, sep, |parts| - 1);
      SkipsNothing(source, hi);
      assert bufs == [cur] && AsItems(bufs)[1..] == [];
    }
  }

  /** A flushed buffer goes in front of what the loop still flushes. */
  lemma FlushedLayout(source: Text, lo: nat, hi: nat, parts: seq<Text>, sep: Text, i: nat, cur: Buffer, next: Buffer,
                      offset: nat, done: nat, from: nat, cfg: Config, count: Counter)
    requires i < |parts| && cur.text != [] && count(cur.text + sep + parts[i]) > cfg.target
    requires next == Buffer(parts[i], offset + PositionOf(parts, i, sep), lo + PositionOf(parts, i, sep), parts[i])
    requires lo <= done <= hi && from <= cur.start && cur.at - cur.start >= lo - offset
    requires Skips(source, done, cur.at) && Holds(source, cur.at, cur.text)
    requires Layout(source, cur.at + |cur.text|, hi, cur.start + |cur.text|, offset + (hi - lo), lo - offset,
                    AsItems(Group(parts, sep, i + 1, next, offset, lo, cfg, count)))
    ensures Layout(source, done, hi, from, offset + (hi - lo), lo - offset,
                   AsItems(Group(parts, sep, i, cur, offset, lo, cfg, count)))
  {
    hide Holds, Skips, PositionOf, Group;
    var tail := Group(parts, sep, i + 1, next, offset, lo, cfg, count);
    GroupFlush(parts, sep, i, cur, next, offset, lo, cfg, count);
    assert AsItems([cur] + tail)[1..] == AsItems(tail);
  }

  /** Flushing keeps the loop state, and says where the flushed text stands. */
  lemma HandFlush(source: Text, lo: nat, hi: nat, parts: seq<Text>, sep: Text, i: nat, cur: Buffer, next: Buffer,
                  offset: nat, done: nat, from: nat)
    requires InHand(source, lo, hi, parts, sep, i, cur, offset, done, from) && Gap(sep)
    requires i < |parts| && cur.text != []
    requires next == Buffer(parts[i], offset + PositionOf(parts, i, sep), lo + PositionOf(parts, i, sep), parts[i])
    ensures lo <= done <= hi && from <= cur.start && cur.at - cur.start >= lo - offset
    ensures Skips(source, done, cur.at) && Holds(source, cur.at, cur.text)
    ensures InHand(source, lo, hi, parts, sep, i + 1, next, offset, cur.at + |cur.text|, cur.start + |cur.text|)
  {
    hide Holds, Join, Skips, Gap;
    var end := cur.at + |cur.text|;
    SkipsForward(source, done, cur.at);
    PartInSource(source, lo, parts, sep, i);
    SeparatorInSource(source, lo, parts, sep, i);
    SkipsText(source, end, sep);
    NextHand(source, lo, hi, parts, sep, i, next, offset, end, cur.start + |cur.text|);
  }

  lemma HandJoin(source: Text, lo: nat, hi: nat, parts: seq<Text>, sep: Text, i: nat, cur: Buffer, next: Buffer,
                 offset: nat, done: nat, from: nat)
    requires InHand(source, lo, hi, parts, sep, i, cur, offset, done, from) && Gap(sep) && i < |parts|
    requires next == cur.(text := if cur.text == [] then parts[i] else cur.text + sep + parts[i],
                          at := if cur.text == [] then lo + PositionOf(parts, i, sep) else cur.at)
    ensures InHand(source, lo, hi, parts, sep, i + 1, next, offset, done, from)
  {
    hide Holds, Join, Skips, Gap;
    if cur.text != [] { SkipsForward(source, done, cur.at); }
    assert i == 0 ==> PositionOf(parts, i, sep) == 0;
    hide PositionOf;
    PartInSource(source, lo, parts, sep, i);
    if cur.text != [] {
      SeparatorInSource(source, lo, parts, sep, i);
      HoldsThree(source, cur.at, cur.text, sep, parts[i]);
    }
    NextHand(source, lo, hi, parts, sep, i, next, offset, done, from);
  }

  /** From part `i` on, the loop emits buffers that lie in order between `done` and the end. */
  lemma {:induction false} GroupLayout(source: Text, lo: nat, hi: nat, parts: seq<Text>, sep: Text, i: nat, cur: Buffer,
                                       offset: nat, done: nat, from: nat, cfg: Config, count: Counter)
    requires InHand(source, lo, hi, parts, sep, i, cur, offset, done, from) && Gap(sep)
    ensures Layout(source, done, hi, from, offset + (hi - lo), lo - offset,
                   AsItems(Group(parts, sep, i, cur, offset, lo, cfg, count)))
    decreases |parts| - i, 1
  {
    assert i <= |parts|;
    hide *;
    if i == |parts| {
      GroupLayoutEnd(source, lo, hi, parts, sep, cur, offset, done, from, cfg, count);
    } else if cur.text != [] && count(cur.text + sep + parts[i]) > cfg.target {
      FlushTurn(source, lo, hi, parts, sep, i, cur, offset, done, from, cfg, count);
    } else {
      JoinTurn(source, lo, hi, parts, sep, i, cur, offset, done, from, cfg, count);
    }
  }

  lemma {:induction false} FlushTurn(source: Text, lo: nat, hi: nat, parts: seq<Text>, sep: Text, i: nat, cur: Buffer,
                                     offset: nat, done: nat, from: nat, cfg: Config, count: Counter)
    requires InHand(source, lo, hi, parts, sep, i, cur, offset, done, from) && Gap(sep)
    requires i < |parts| && cur.text != [] && count(cur.text + sep + parts[i]) > cfg.target
    ensures Layout(source, done, hi, from, offset + (hi - lo), lo - offset,
                   AsItems(Group(parts, sep, i, cur, offset, lo, cfg, count)))
    decreases |parts| - i, 0
  {
    hide *;
    var here := PositionOf(parts, i, sep);
    var next := Buffer(parts[i], offset + here, lo + here, parts[i]);
    HandFlush(source, lo, hi, parts, sep, i, cur, next, offset, done, from);
    GroupLayout(source, lo, hi, parts, sep, i + 1, next, offset, cur.at + |cur.text|, cur.start + |cur.text|, cfg,
                count);
    FlushedLayout(source, lo, hi, parts, sep, i, cur, next, offset, done, from, cfg, count);
  }

  lemma {:induction false} JoinTurn(source: Text, lo: nat, hi: nat, parts: seq<Text>, sep: Text, i: nat, cur: Buffer,
                                    offset: nat, done: nat, from: nat, cfg: Config, count: Counter)
    requires InHand(source, lo, hi, parts, sep, i, cur, offset, done, from) && Gap(sep)
    requires i < |parts| && (cur.text == [] || count(cur.text + sep + parts[i]) <= cfg.target)
    ensures Layout(source, done, hi, from, offset + (hi - lo), lo - offset,
                   AsItems(Group(parts, sep, i, cur, offset, lo, cfg, count)))
    decreases |parts| - i, 0
  {
    hide *;
    var here := PositionOf(parts, i, sep);
    var next := cur.(text := if cur.text == [] then parts[i] else cur.text + sep + parts[i],
                     at := if cur.text == [] then lo + here else cur.at);
    HandJoin(source, lo, hi, parts, sep, i, cur, next, offset, done, from);
    GroupLayout(source, lo, hi, parts, sep, i + 1, next, offset, done, from, cfg, count);
    JoinStep(parts, sep, i, cur, next, offset, lo, cfg, count);
  }

  /** The loop starts with nothing in hand. */
  lemma FirstHand(source: Text, lo: nat, parts: seq<Text>, sep: Text, offset: nat)
    requires parts != [] && Holds(source, lo, Join(parts, sep))
    ensures InHand(source, lo, lo + |Join(parts, sep)|, parts, sep, 0, Buffer([], offset, lo, parts[0]), offset, lo,
                   offset)
  {
    assert lo <= |source|;
    hide Holds, Join, Skips;
    SkipsNothing(source, lo);
  }

  /** The buffers of a separator level lie in order in the text they were split from. */
  lemma BuffersLayout(source: Text, lo: nat, text: Text, sep: Text, offset: nat, cfg: Config, count: Counter)
    requires sep != [] && Gap(sep) && Holds(source, lo, text)
    ensures Layout(source, lo, lo + |text|, offset, offset + |text|, lo - offset,
                   AsItems(Buffers(text, sep, offset, lo, cfg, count)))
  {
    hide *;
    var parts := SplitOn(text, sep);
    BuffersAre(text, sep, offset, lo, cfg, count);
    FirstHand(source, lo, parts, sep, offset);
    GroupLayout(source, lo, lo + |text|, parts, sep, 0, Buffer([], offset, lo, parts[0]), offset, lo, offset, cfg,
                count);
  }

  lemma BuffersAre(text: Text, sep: Text, offset: nat, at: nat, cfg: Config, count: Counter)
    requires sep != []
    ensures var parts := SplitOn(text, sep);
            Buffers(text, sep, offset, at, cfg, count) ==
              Group(parts, sep, 0, Buffer([], offset, at, parts[0]), offset, at, cfg, count)
  {
  }

  // ---------------------------------------------------------------- the whole recursion

  /** Any text of the input is split into pieces that lie in it in order. */
  lemma {:induction false} SplitLayout(source: Text, lo: nat, text: Text, offset: nat, seps: seq<Text>, cfg: Config,
                                       count: Counter)
    requires cfg.target <= cfg.max + 1 && Droppable(seps) && Holds(source, lo, text)
    ensures Layout(source, lo, lo + |text|, offset, offset + |text|, lo - offset,
                   TracedSplit(text, offset, lo, seps, cfg, count))
    decreases |seps|, |text| + 1, 1
  {
    hide Layout, Holds, Skips, Gap;
    if Blank(text) {
      BlankIsGap(text);
      SkipsText(source, lo, text);
      EmptyLayout(source, lo, lo + |text|, offset, offset + |text|, lo - offset);
    } else if count(text) <= cfg.max {
      WholeLayout(source, Traced(Chunk(text, offset, offset + |text|, count(text)), lo, false));
    } else if seps == [] {
      HardLayout(source, lo, text, offset, cfg, count);
    } else {
      hide Buffers, SplitAll;
      BuffersLayout(source, lo, text, seps[0], offset, cfg, count);
      SplitAllLayout(source, lo, lo + |text|, offset, offset + |text|, lo - offset,
                     Buffers(text, seps[0], offset, lo, cfg, count), seps[1..], cfg, count);
    }
  }

  lemma {:induction false} HardLayout(source: Text, lo: nat, text: Text, offset: nat, cfg: Config, count: Counter)
    requires cfg.target <= cfg.max + 1 && Holds(source, lo, text) && !Blank(text) && count(text) > cfg.max
    ensures Layout(source, lo, lo + |text|, offset, offset + |text|, lo - offset,
                   TracedSplit(text, offset, lo, [], cfg, count))
    decreases 0, |text| + 1, 0
  {
    hide Layout, Holds, Skips, Gap, TracedSplit, HardPiece;
    HardStep(text, offset, lo, cfg, count);
    var item := HardPiece(text, offset, lo, cfg, count);
    var cut := |item.chunk.text|;
    HoldsApart(source, lo, text, cut);
    SplitLayout(source, lo + cut, text[cut..], offset + cut, [], cfg, count);
    ItemLayout(source, lo, item, lo + |text|, offset + |text|, lo - offset,
               TracedSplit(text[cut..], offset + cut, lo + cut, [], cfg, count));
  }

  lemma WholeLayout(source: Text, item: Traced)
    requires Holds(source, item.at, item.chunk.text) && item.chunk.end == item.chunk.start + |item.chunk.text|
    ensures Layout(source, item.at, item.at + |item.chunk.text|, item.chunk.start, item.chunk.end,
                   item.at - item.chunk.start, [item])
  {
    SkipsNothing(source, item.at + |item.chunk.text|);
    SkipsNothing(source, item.at);
    hide Skips, Holds;
    assert [item][1..] == [];
  }

  lemma EmptyLayout(source: Text, lo: nat, hi: nat, from: nat, to: nat, lag: int)
    requires Skips(source, lo, hi) && from <= to
    ensures Layout(source, lo, hi, from, to, lag, [])
  {
  }

  lemma ItemLayout(source: Text, lo: nat, item: Traced, hi: nat, to: nat, lag: int, rest: seq<Traced>)
    requires item.at == lo && Holds(source, lo, item.chunk.text)
    requires item.chunk.end == item.chunk.start + |item.chunk.text| && lo - item.chunk.start >= lag
    requires Layout(source, lo + |item.chunk.text|, hi, item.chunk.end, to, lag, rest)
    ensures Layout(source, lo, hi, item.chunk.start, to, lag, [item] + rest)
  {
    SkipsNothing(source, lo);
    hide Skips, Holds;
    assert ([item] + rest)[1..] == rest;
  }

  /** The pieces of the first buffer take its place in front of the pieces of the others. */
  lemma FirstSplit(source: Text, lo: nat, hi: nat, from: nat, to: nat, lag: int, b: Buffer, first: seq<Traced>,
                   rest: seq<Traced>)
    requires Skips(source, lo, b.at) && from <= b.start && b.at - b.start >= lag
    requires Layout(source, b.at, b.at + |b.text|, b.start, b.start + |b.text|, b.at - b.start, first)
    requires Layout(source, b.at + |b.text|, hi, b.start + |b.text|, to, lag, rest)
    ensures Layout(source, lo, hi, from, to, lag, first + rest)
  {
    SkipsForward(source, lo, b.at);
    hide Layout, Skips;
    var end, stop := b.at + |b.text|, b.start + |b.text|;
    LayoutWeaken(source, b.at, end, b.start, stop, b.at - b.start, lag, first);
    LayoutGap(source, lo, b.at, end, from, b.start, stop, lag, first);
    LayoutAppend(source, lo, end, hi, from, stop, to, lag, first, rest);
  }

  /** Splitting every buffer further keeps the layout. */
  lemma {:induction false} SplitAllLayout(source: Text, lo: nat, hi: nat, from: nat, to: nat, lag: int,
                                          bufs: seq<Buffer>,
                                          seps: seq<Text>, cfg: Config, count: Counter)
    requires cfg.target <= cfg.max + 1 && Droppable(seps) && Layout(source, lo, hi, from, to, lag, AsItems(bufs))
    ensures Layout(source, lo, hi, from, to, lag, SplitAll(bufs, seps, cfg, count))
    decreases |seps| + 1, 0, |bufs|
  {
    hide *;
    NoneEmpty(seps);
    if bufs == [] {
      NoBuffers(source, lo, hi, from, to, lag, seps, cfg, count);
    } else {
      var b, others := bufs[0], bufs[1..];
      var first := TracedSplit(b.text, b.start, b.at, seps, cfg, count);
      var rest := SplitAll(others, seps, cfg, count);
      assert SplitAll(bufs, seps, cfg, count) == first + rest by { SplitAllStep(bufs, seps, cfg, count); }
      FirstBuffer(source, lo, hi, from, to, lag, bufs);
      SplitLayout(source, b.at, b.text, b.start, seps, cfg, count);
      SplitAllLayout(source, b.at + |b.text|, hi, b.start + |b.text|, to, lag, others, seps, cfg, count);
      FirstSplit(source, lo, hi, from, to, lag, b, first, rest);
    }
  }

  lemma NoneEmpty(seps: seq<Text>)
    requires Droppable(seps)
    ensures AllNonEmpty(seps)
  {
  }

  lemma NoBuffers(source: Text, lo: nat, hi: nat, from: nat, to: nat, lag: int, seps: seq<Text>, cfg: Config,
                  count: Counter)
    requires cfg.target <= cfg.max + 1 && AllNonEmpty(seps) && Layout(source, lo, hi, from, to, lag, AsItems([]))
    ensures Layout(source, lo, hi, from, to, lag, SplitAll([], seps, cfg, count))
  {
    hide TracedSplit, Skips;
  }

  lemma FirstBuffer(source: Text, lo: nat, hi: nat, from: nat, to: nat, lag: int, bufs: seq<Buffer>)
    requires bufs != [] && Layout(source, lo, hi, from, to, lag, AsItems(bufs))
    ensures var b := bufs[0];
            && Skips(source, lo, b.at) && Holds(source, b.at, b.text) && from <= b.start && b.at - b.start >= lag
            && Layout(source, b.at + |b.text|, hi, b.start + |b.text|, to, lag, AsItems(bufs[1..]))
  {
    hide Skips, Holds;
    assert AsItems(bufs)[1..] == AsItems(bufs[1..]);
  }

  lemma SplitAllStep(bufs: seq<Buffer>, seps: seq<Text>, cfg: Config, count: Counter)
    requires cfg.target <= cfg.max + 1 && AllNonEmpty(seps) && bufs != []
    ensures SplitAll(bufs, seps, cfg, count)
         == TracedSplit(bufs[0].text, bufs[0].start, bufs[0].at, seps, cfg, count) +
           SplitAll(bufs[1..], seps, cfg, count)
  {
    hide TracedSplit;
  }

  lemma SplitLayoutWhole(text: Text, seps: seq<Text>, cfg: Config, count: Counter)
    requires cfg.target <= cfg.max + 1 && Droppable(seps)
    ensures Layout(text, 0, |text|, 0, |text|, 0, TracedSplit(text, 0, 0, seps, cfg, count))
  {
    assert Holds(text, 0, text);
    hide Gap, Layout, TracedSplit, Holds;
    SplitLayout(text, 0, text, 0, seps, cfg, count);
  }

  lemma WholeInputLayout(text: Text, cfg: Config, count: Counter)
    requires cfg.target <= cfg.max + 1
    ensures Layout(text, 0, |text|, 0, |text|, 0, ProseTrace(text, cfg, count))
  {
    hide Gap, Layout, TracedSplit, Droppable;
    SeparatorsAreGaps();
    SplitLayoutWhole(text, SEPARATORS, cfg, count);
  }
}
