/** The shape of prose chunking: what is cut where, stated without the loop that does it. */
module ProseShape {
  import opened Bytes
  import opened Utf8
  import opened Prose
  import opened ProseDrift
  import opened ProseTheorems

  // ---------------------------------------------------------------- whole parts

  /** The parts without the empty ones they begin with. */
  function Lead(parts: seq<Text>): (rest: seq<Text>)
    ensures rest == [] || rest[0] != []
    ensures rest == [] <==> forall p :: p in parts ==> p == []
  {
    if parts == [] then []
    else if parts[0] == [] then
      assert forall p :: p in parts <==> p == parts[0] || p in parts[1..];
      Lead(parts[1..])
    else
      assert parts[0] in parts;
      parts
  }

  /**
   From part `r` on the texts are runs of whole parts joined up again, in order and without gaps but for empty parts.
   Only a single part goes over the target, and no run could have taken the part that follows it.
   */
  ghost predicate Greedy(texts: seq<Text>, parts: seq<Text>, r: nat, sep: Text, target: nat, count: Counter)
    decreases |texts|
  {
    if texts == [] then r <= |parts| && forall i :: r <= i < |parts| ==> parts[i] == []
    else
      exists j: nat ::
        IsRun(texts[0], parts, r, j, sep, target, count) && Greedy(texts[1..], parts, j, sep, target, count)
  }

  ghost predicate IsRun(text: Text, parts: seq<Text>, i: nat, j: nat, sep: Text, target: nat, count: Counter) {
    && i < j <= |parts| && text != [] && text == Join(Lead(parts[i..j]), sep)
    && (count(text) <= target || text == parts[j - 1])
    && (j < |parts| ==> count(text + sep + parts[j]) > target)
  }

  function TextsOf(bufs: seq<Buffer>): (texts: seq<Text>)
    ensures |texts| == |bufs| && forall k :: 0 <= k < |bufs| ==> texts[k] == bufs[k].text
  {
    seq(|bufs|, k requires 0 <= k < |bufs| => bufs[k].text)
  }

  lemma {:induction false} JoinMore(parts: seq<Text>, p: Text, sep: Text)
    requires parts != []
    ensures Join(parts + [p], sep) == Join(parts, sep) + sep + p
  {
    if |parts| == 1 {
      assert (parts + [p])[1..] == [p];
    } else {
      assert (parts + [p])[1..] == parts[1..] + [p];
      JoinMore(parts[1..], p, sep);
    }
  }

  lemma {:induction false} LeadMore(parts: seq<Text>, p: Text)
    ensures Lead(parts + [p]) == if Lead(parts) == [] then Lead([p]) else Lead(parts) + [p]
  {
    if parts == [] {
      assert parts + [p] == [p];
    } else {
      assert (parts + [p])[1..] == parts[1..] + [p];
      LeadMore(parts[1..], p);
      if parts[0] == [] { assert Lead(parts) == Lead(parts[1..]); }
    }
  }

  lemma LeadOne(p: Text, sep: Text)
    ensures Join(Lead([p]), sep) == p
  {
    assert [p][1..] == [];
  }

  /** The text in hand before part `i`, in a run that began at part `r`. */
  ghost predicate RunInHand(text: Text, parts: seq<Text>, r: nat, i: nat, sep: Text, target: nat, count: Counter) {
    && r <= i <= |parts| && text == Join(Lead(parts[r..i]), sep)
    && (text == [] <==> Lead(parts[r..i]) == [])
    && (text != [] ==> count(text) <= target || text == parts[i - 1])
  }

  lemma RunGoesOn(text: Text, parts: seq<Text>, r: nat, i: nat, sep: Text, target: nat, count: Counter)
    requires i < |parts| && RunInHand(text, parts, r, i, sep, target, count)
    requires text == [] || count(text + sep + parts[i]) <= target
    ensures RunInHand(if text == [] then parts[i] else text + sep + parts[i], parts, r, i + 1, sep, target, count)
  {
    var run, p := parts[r..i], parts[i];
    assert parts[r..i + 1] == run + [p];
    LeadMore(run, p);
    LeadOne(p, sep);
    if text != [] { JoinMore(Lead(run), p, sep); }
  }

  lemma RunBegins(parts: seq<Text>, i: nat, sep: Text, target: nat, count: Counter)
    requires i < |parts|
    ensures RunInHand(parts[i], parts, i, i + 1, sep, target, count)
  {
    assert parts[i..i + 1] == [parts[i]];
    LeadOne(parts[i], sep);
  }

  lemma {:induction false} GroupGreedy(parts: seq<Text>, sep: Text, r: nat, i: nat, cur: Buffer, offset: nat, at: nat,
                                       cfg: Config, count: Counter)
    requires RunInHand(cur.text, parts, r, i, sep, cfg.target, count)
    ensures Greedy(TextsOf(Group(parts, sep, i, cur, offset, at, cfg, count)), parts, r, sep, cfg.target, count)
    decreases |parts| - i, 1
  {
    if i == |parts| {
      RunEnds(parts, sep, r, cur, offset, at, cfg, count);
    } else {
      assert i < |parts|;
      hide *;
      if cur.text != [] && count(cur.text + sep + parts[i]) > cfg.target {
        GreedyFlush(parts, sep, r, i, cur, offset, at, cfg, count);
      } else {
        GreedyJoin(parts, sep, r, i, cur, offset, at, cfg, count);
      }
    }
  }

  lemma {:induction false} GreedyFlush(parts: seq<Text>, sep: Text, r: nat, i: nat, cur: Buffer, offset: nat, at: nat,
                                       cfg: Config, count: Counter)
    requires RunInHand(cur.text, parts, r, i, sep, cfg.target, count) && i < |parts|
    requires cur.text != [] && count(cur.text + sep + parts[i]) > cfg.target
    ensures Greedy(TextsOf(Group(parts, sep, i, cur, offset, at, cfg, count)), parts, r, sep, cfg.target, count)
    decreases |parts| - i, 0
  {
    hide *;
    var here := PositionOf(parts, i, sep);
    var next := Buffer(parts[i], offset + here, at + here, parts[i]);
    RunBegins(parts, i, sep, cfg.target, count);
    GroupGreedy(parts, sep, i, i + 1, next, offset, at, cfg, count);
    GroupFlush(parts, sep, i, cur, next, offset, at, cfg, count);
    RunFlushed(parts, sep, r, i, cur, Group(parts, sep, i + 1, next, offset, at, cfg, count), cfg, count);
  }

  lemma {:induction false} GreedyJoin(parts: seq<Text>, sep: Text, r: nat, i: nat, cur: Buffer, offset: nat, at: nat,
                                      cfg: Config, count: Counter)
    requires RunInHand(cur.text, parts, r, i, sep, cfg.target, count) && i < |parts|
    requires cur.text == [] || count(cur.text + sep + parts[i]) <= cfg.target
    ensures Greedy(TextsOf(Group(parts, sep, i, cur, offset, at, cfg, count)), parts, r, sep, cfg.target, count)
    decreases |parts| - i, 0
  {
    hide *;
    var here := PositionOf(parts, i, sep);
    var next := cur.(text := if cur.text == [] then parts[i] else cur.text + sep + parts[i],
                     at := if cur.text == [] then at + here else cur.at);
    RunGoesOn(cur.text, parts, r, i, sep, cfg.target, count);
    JoinStep(parts, sep, i, cur, next, offset, at, cfg, count);
    GroupGreedy(parts, sep, r, i + 1, next, offset, at, cfg, count);
  }

  lemma RunEnds(parts: seq<Text>, sep: Text, r: nat, cur: Buffer, offset: nat, at: nat, cfg: Config, count: Counter)
    requires RunInHand(cur.text, parts, r, |parts|, sep, cfg.target, count)
    ensures Greedy(TextsOf(Group(parts, sep, |parts|, cur, offset, at, cfg, count)), parts, r, sep, cfg.target, count)
  {
    hide Join;
    var run := parts[r..|parts|];
    if cur.text == [] {
      forall i | r <= i < |parts|
        ensures parts[i] == []
      {
        assert run[i - r] in run;
      }
    } else {
      assert r < |parts|;
      assert IsRun(cur.text, parts, r, |parts|, sep, cfg.target, count);
      assert TextsOf([cur])[1..] == [];
      assert Greedy([], parts, |parts|, sep, cfg.target, count);
    }
  }

  lemma RunFlushed(parts: seq<Text>, sep: Text, r: nat, i: nat, cur: Buffer, tail: seq<Buffer>, cfg: Config,
                   count: Counter)
    requires i < |parts| && RunInHand(cur.text, parts, r, i, sep, cfg.target, count) && cur.text != []
    requires count(cur.text + sep + parts[i]) > cfg.target
    requires Greedy(TextsOf(tail), parts, i, sep, cfg.target, count)
    ensures Greedy(TextsOf([cur] + tail), parts, r, sep, cfg.target, count)
  {
    hide Join, Lead;
    assert r < i;
    assert IsRun(cur.text, parts, r, i, sep, cfg.target, count);
    assert TextsOf([cur] + tail)[1..] == TextsOf(tail);
  }

  /** Only a single part goes over the target. */
  lemma {:induction false} GreedyFits(texts: seq<Text>, parts: seq<Text>, r: nat, sep: Text, target: nat,
                                      count: Counter,
                                      k: nat)
    requires Greedy(texts, parts, r, sep, target, count) && k < |texts|
    ensures count(texts[k]) <= target || texts[k] in parts
    decreases k
  {
    hide Lead, Join;
    var j: nat :| IsRun(texts[0], parts, r, j, sep, target, count) && Greedy(texts[1..], parts, j, sep, target, count);
    if k > 0 { GreedyFits(texts[1..], parts, j, sep, target, count, k - 1); }
  }

  /** The separator loop packs greedily. */
  lemma BuffersAreGreedy(text: Text, sep: Text, offset: nat, at: nat, cfg: Config, count: Counter)
    requires sep != []
    ensures Greedy(TextsOf(Buffers(text, sep, offset, at, cfg, count)), SplitOn(text, sep), 0, sep, cfg.target, count)
  {
    hide Greedy, Group;
    var parts := SplitOn(text, sep);
    assert parts[0..0] == [];
    GroupGreedy(parts, sep, 0, 0, Buffer([], offset, at, parts[0]), offset, at, cfg, count);
  }

  // ---------------------------------------------------------------- the whole recursion

  /**
   The chunk texts `out` of a text: none if it is blank; itself if it is within the budget; else those of its greedy
   runs at the first separator, in order; and with no separator left a front up to the cut, and those of what is left.
   */
  ghost predicate Shaped(out: seq<Text>, text: Text, seps: seq<Text>, cfg: Config, count: Counter)
    requires AllNonEmpty(seps)
    decreases |seps|, |text|
  {
    if Blank(text) then out == []
    else if count(text) <= cfg.max then out == [text]
    else if seps == [] then
      out != [] && IsCut(text, cfg.target, count(text), |out[0]|) && out[0] <= text
        && Shaped(out[1..], text[|out[0]|..], [], cfg, count)
    else
      exists texts, groups ::
        && Greedy(texts, SplitOn(text, seps[0]), 0, seps[0], cfg.target, count)
        && Concat(groups) == out && AllShaped(groups, texts, seps[1..], cfg, count)
  }

  ghost predicate AllShaped(groups: seq<seq<Text>>, texts: seq<Text>, seps: seq<Text>, cfg: Config, count: Counter)
    requires AllNonEmpty(seps)
    decreases |seps| + 1, 0
  {
    |groups| == |texts| && forall k :: 0 <= k < |texts| ==> Shaped(groups[k], texts[k], seps, cfg, count)
  }

  lemma TextsAppend(a: seq<Traced>, b: seq<Traced>)
    ensures ChunkTexts(a + b) == ChunkTexts(a) + ChunkTexts(b)
  {
  }

  lemma {:induction false} SplitIsShaped(text: Text, offset: nat, at: nat, seps: seq<Text>, cfg: Config, count: Counter)
    requires cfg.target <= cfg.max + 1 && AllNonEmpty(seps)
    ensures Shaped(ChunkTexts(TracedSplit(text, offset, at, seps, cfg, count)), text, seps, cfg, count)
    decreases |seps|, |text|, 1
  {
    if Blank(text) || count(text) <= cfg.max {
      hide SplitAll, Buffers, CutAt, HardPiece;
    } else if seps == [] {
      HardIsShaped(text, offset, at, cfg, count);
    } else {
      var sep := seps[0];
      var bufs := Buffers(text, sep, offset, at, cfg, count);
      SplitStep(text, offset, at, seps, cfg, count);
      hide Buffers, SplitAll, TracedSplit;
      BuffersAreGreedy(text, sep, offset, at, cfg, count);
      var groups := AllSplitIsShaped(bufs, seps[1..], cfg, count);
      hide Greedy, Concat;
      assert Greedy(TextsOf(bufs), SplitOn(text, seps[0]), 0, seps[0], cfg.target, count);
    }
  }

  lemma {:induction false} HardIsShaped(text: Text, offset: nat, at: nat, cfg: Config, count: Counter)
    requires cfg.target <= cfg.max + 1 <= count(text) && !Blank(text)
    ensures Shaped(ChunkTexts(TracedSplit(text, offset, at, [], cfg, count)), text, [], cfg, count)
    decreases 0, |text|, 0
  {
    hide TracedSplit, CutAt, IsCut, Blank, Shaped;
    HardStep(text, offset, at, cfg, count);
    CutIsFirst(text, cfg, count(text));
    var piece := HardPiece(text, offset, at, cfg, count);
    var cut := |piece.chunk.text|;
    var rest := TracedSplit(text[cut..], offset + cut, at + cut, [], cfg, count);
    SplitIsShaped(text[cut..], offset + cut, at + cut, [], cfg, count);
    ShapedOnto(piece, rest, text, cfg, count);
  }

  lemma ShapedOnto(piece: Traced, rest: seq<Traced>, text: Text, cfg: Config, count: Counter)
    requires cfg.target <= cfg.max + 1 <= count(text) && !Blank(text) && text != []
    requires var cut := CutAt(text, cfg, count(text));
             IsCut(text, cfg.target, count(text), cut) && piece.chunk.text == text[..cut]
               && Shaped(ChunkTexts(rest), text[cut..], [], cfg, count)
    ensures Shaped(ChunkTexts([piece] + rest), text, [], cfg, count)
  {
    hide IsCut, CutAt, Blank;
    assert ChunkTexts([piece] + rest)[1..] == ChunkTexts(rest);
  }

  lemma {:induction false} AllSplitIsShaped(bufs: seq<Buffer>, seps: seq<Text>, cfg: Config, count: Counter)
    returns (groups: seq<seq<Text>>)
    requires cfg.target <= cfg.max + 1 && AllNonEmpty(seps)
    ensures AllShaped(groups, TextsOf(bufs), seps, cfg, count)
    ensures Concat(groups) == ChunkTexts(SplitAll(bufs, seps, cfg, count))
    decreases |seps| + 1, 0, |bufs|
  {
    if bufs == [] {
      groups := [];
    } else {
      hide Shaped, TracedSplit;
      var b := bufs[0];
      SplitIsShaped(b.text, b.start, b.at, seps, cfg, count);
      var rest := AllSplitIsShaped(bufs[1..], seps, cfg, count);
      var first := TracedSplit(b.text, b.start, b.at, seps, cfg, count);
      groups := [ChunkTexts(first)] + rest;
      assert groups[1..] == rest;
      TextsAppend(first, SplitAll(bufs[1..], seps, cfg, count));
      forall k | 0 <= k < |bufs|
        ensures Shaped(groups[k], bufs[k].text, seps, cfg, count)
      {
        if k > 0 { assert groups[k] == rest[k - 1] && TextsOf(bufs[1..])[k - 1] == bufs[k].text; }
      }
    }
  }

  /** The texts of the chunks are cut as little as the budget allows, at the first separator that serves. */
  lemma ChunksAreShaped(text: Text, cfg: Config, count: Counter)
    requires cfg.target <= cfg.max + 1
    ensures Shaped(ChunkTexts(ProseTrace(text, cfg, count)), text, SEPARATORS, cfg, count)
  {
    hide TracedSplit, Shaped;
    SplitIsShaped(text, 0, 0, SEPARATORS, cfg, count);
  }

  // ---------------------------------------------------------------- white space

  /** The code point of the character `s` begins with. */
  function Rune(s: Text): int
    requires CharWidth(s) > 0
  {
    match CharWidth(s)
    case 1 => s[0]
    case 2 => 0x40 * (s[0] as int - 0xC0) + Low(s[1])
    case 3 => 0x1000 * (s[0] as int - 0xE0) + 0x40 * Low(s[1]) + Low(s[2])
    case _ => 0x4_0000 * (s[0] as int - 0xF0) + 0x1000 * Low(s[1]) + 0x40 * Low(s[2]) + Low(s[3])
  }

  /** The six bits of a continuation byte. */
  function Low(b: int): int {
    b - 0x80
  }

  /** The code points with the Unicode property White_Space. */
  predicate WhiteSpace(c: int) {
    9 <= c <= 13 || c == 32 || c == 0x85 || c == 0xA0 || c == 0x1680 || 0x2000 <= c <= 0x200A || c == 0x2028
      || c == 0x2029 || c == 0x202F || c == 0x205F || c == 0x3000
  }

  lemma SpaceIff(s: Text)
    requires CharWidth(s) > 0
    ensures SpaceWidth(s) == if WhiteSpace(Rune(s)) then CharWidth(s) else 0
  {
    match CharWidth(s)
    case 1 =>
    case 2 =>
    case 3 =>
    case _ => assert Rune(s) >= 0x1_0000;
  }
}
