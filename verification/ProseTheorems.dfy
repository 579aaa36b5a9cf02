/** What prose chunking keeps: text, order, offsets, budgets and encoding. */
module ProseTheorems {
  import opened Bytes
  import opened Prose
  import opened ProseLayout

  // ---------------------------------------------------------------- nothing but separators is lost

  /** g0 + t1 + g1 + ... + tn + gn */
  function Weave(gaps: seq<Text>, texts: seq<Text>): Text
    requires |gaps| == |texts| + 1
  {
    if texts == [] then gaps[0] else gaps[0] + texts[0] + Weave(gaps[1..], texts[1..])
  }

  /** The text is `texts` in order, with nothing but droppable text around and between them. */
  ghost predicate Covers(text: Text, texts: seq<Text>) {
    exists gaps: seq<Text> ::
      |gaps| == |texts| + 1 && Weave(gaps, texts) == text && forall i :: 0 <= i < |gaps| ==> Gap(gaps[i])
  }

  function ChunkTexts(items: seq<Traced>): (texts: seq<Text>)
    ensures |texts| == |items| && forall i :: 0 <= i < |items| ==> texts[i] == items[i].chunk.text
  {
    seq(|items|, i requires 0 <= i < |items| => items[i].chunk.text)
  }

  lemma {:induction false} LayoutWeave(source: Text, lo: nat, hi: nat, from: nat, to: nat, lag: int, items: seq<Traced>)
    returns (gaps: seq<Text>)
    requires Layout(source, lo, hi, from, to, lag, items)
    ensures lo <= hi <= |source|
    ensures |gaps| == |items| + 1 && forall i :: 0 <= i < |gaps| ==> Gap(gaps[i])
    ensures Weave(gaps, ChunkTexts(items)) == source[lo..hi]
    decreases |items|
  {
    hide Gap;
    if items == [] {
      gaps := [source[lo..hi]];
    } else {
      var at, end := items[0].at, items[0].at + |items[0].chunk.text|;
      var rest := LayoutWeave(source, end, hi, items[0].chunk.end, to, lag, items[1..]);
      gaps := [source[lo..at]] + rest;
      assert ChunkTexts(items)[1..] == ChunkTexts(items[1..]);
      hide Layout, Weave, ChunkTexts;
      assert gaps[1..] == rest;
      assert source[lo..hi] == source[lo..at] + source[at..end] + source[end..hi];
    }
  }

  /** The input is the chunk texts in order, with droppable text around and between them. */
  lemma ChunkingLosesOnlySeparators(text: Text, cfg: Config, count: Counter)
    requires cfg.target <= cfg.max + 1
    ensures Covers(text, ChunkTexts(ProseTrace(text, cfg, count)))
  {
    hide Gap, Layout, Weave, TracedSplit;
    WholeInputLayout(text, cfg, count);
    var gaps := LayoutWeave(text, 0, |text|, 0, |text|, 0, ProseTrace(text, cfg, count));
    assert text[0..|text|] == text;
  }

  // ---------------------------------------------------------------- offsets

  lemma {:induction false} LayoutAt(source: Text, lo: nat, hi: nat, from: nat, to: nat, lag: int, items: seq<Traced>,
                                    i: nat)
    requires Layout(source, lo, hi, from, to, lag, items) && i < |items|
    ensures var c, at := items[i].chunk, items[i].at;
            && lo <= at && at + |c.text| <= hi && Holds(source, at, c.text)
            && from <= c.start && c.end == c.start + |c.text| <= to && at - c.start >= lag
    ensures lo <= hi && from <= to
    decreases i
  {
    hide Holds;
    if i > 0 {
      LayoutAt(source, items[0].at + |items[0].chunk.text|, hi, items[0].chunk.end, to, lag, items[1..], i - 1);
    }
  }

  lemma {:induction false} LayoutOrder(source: Text, lo: nat, hi: nat, from: nat, to: nat, lag: int, items: seq<Traced>,
                                       i: nat, j: nat)
    requires Layout(source, lo, hi, from, to, lag, items) && i < j < |items|
    ensures items[i].chunk.end <= items[j].chunk.start && items[i].at + |items[i].chunk.text| <= items[j].at
    decreases i
  {
    hide Holds, Skips;
    var end := items[0].at + |items[0].chunk.text|;
    if i == 0 {
      LayoutAt(source, end, hi, items[0].chunk.end, to, lag, items[1..], j - 1);
    } else {
      LayoutOrder(source, end, hi, items[0].chunk.end, to, lag, items[1..], i - 1, j - 1);
    }
  }

  /**
   Every reported range lies in the input and is as long as its text, and the text really stands
   at the reported start plus a drift that is never negative.
   */
  lemma ChunkOffset(text: Text, cfg: Config, count: Counter, i: nat)
    requires cfg.target <= cfg.max + 1 && i < |ProseTrace(text, cfg, count)|
    ensures var it := ProseTrace(text, cfg, count)[i];
            && it.chunk.end == it.chunk.start + |it.chunk.text| <= |text|
            && it.chunk.start <= it.at && it.at + |it.chunk.text| <= |text|
            && text[it.at..it.at + |it.chunk.text|] == it.chunk.text
  {
    hide Layout, TracedSplit;
    WholeInputLayout(text, cfg, count);
    LayoutAt(text, 0, |text|, 0, |text|, 0, ProseTrace(text, cfg, count), i);
  }

  /** Reported ranges, like the true ones, are in order and disjoint. */
  lemma ChunksInOrder(text: Text, cfg: Config, count: Counter, i: nat, j: nat)
    requires cfg.target <= cfg.max + 1 && i < j < |ProseTrace(text, cfg, count)|
    ensures var items := ProseTrace(text, cfg, count);
            && items[i].chunk.end <= items[j].chunk.start
            && items[i].at + |items[i].chunk.text| <= items[j].at
  {
    hide Layout, TracedSplit;
    WholeInputLayout(text, cfg, count);
    LayoutOrder(text, 0, |text|, 0, |text|, 0, ProseTrace(text, cfg, count), i, j);
  }
}
