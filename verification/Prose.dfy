/**
 The recursive prose chunker (internal/v3/chunker/prose.go) and the per-symbol code
 chunker built on it (internal/v3/chunker/ast.go).

 `TracedSplit` is the specification: it makes the source's decisions and, beside the
 offsets the source reports, keeps for every chunk the place `at` where its text really
 stands in the input, and whether the hard cut made it.
 */
module Prose {
  import opened Bytes
  import opened Utf8

  datatype Config = Config(target: nat, min: nat, max: nat, overlap: nat)

  /** The token counter: an arbitrary total function of the text. */
  type Counter = Text -> nat

  datatype Chunk = Chunk(text: Text, start: nat, end: nat, tokens: nat)

  const DEFAULT_CONFIG := Config(200, 80, 260, 30)

  const PARAGRAPH: Text := [10, 10]
  const LINE: Text := [10]
  const SENTENCE: Text := [46, 32]
  const WORD: Text := [32]
  const SEPARATORS: seq<Text> := [PARAGRAPH, LINE, SENTENCE, WORD]

  // ---------------------------------------------------------------- library calls

  /** Bytes of the white-space rune `s` begins with (unicode.IsSpace), 0 if none. */
  function SpaceWidth(s: Text): (w: nat)
    ensures w <= |s|
  {
    if |s| >= 1 && (9 <= s[0] <= 13 || s[0] == 32) then 1
    else if |s| >= 2 && s[0] == 0xC2 && (s[1] == 0x85 || s[1] == 0xA0) then 2
    else if |s| >= 3 && s[0] == 0xE1 && s[1] == 0x9A && s[2] == 0x80 then 3
    else if |s| >= 3 && s[0] == 0xE2 && s[1] == 0x80
      && (0x80 <= s[2] <= 0x8A || s[2] == 0xA8 || s[2] == 0xA9 || s[2] == 0xAF) then 3
    else if |s| >= 3 && s[0] == 0xE2 && s[1] == 0x81 && s[2] == 0x9F then 3
    else if |s| >= 3 && s[0] == 0xE3 && s[1] == 0x80 && s[2] == 0x80 then 3
    else 0
  }

  /** strings.TrimSpace(s) == "" */
  predicate Blank(s: Text)
    decreases |s|
  {
    s == [] || (SpaceWidth(s) > 0 && Blank(s[SpaceWidth(s)..]))
  }

  function Join(parts: seq<Text>, sep: Text): Text {
    if parts == [] then []
    else if |parts| == 1 then parts[0]
    else parts[0] + sep + Join(parts[1..], sep)
  }

  /** strings.Split for a non-empty separator. */
  function SplitOn(s: Text, sep: Text): (parts: seq<Text>)
    requires sep != []
    ensures |parts| >= 1
    ensures Join(parts, sep) == s
    ensures forall p :: p in parts ==> Index(p, sep) < 0
    decreases |s|
  {
    var k := Index(s, sep);
    if k < 0 then [s]
    else
      var rest := SplitOn(s[k + |sep|..], sep);
      assert s == s[..k] + sep + s[k + |sep|..];
      assert ([s[..k]] + rest)[1..] == rest;
      NotBefore(s, sep);
      [s[..k]] + rest
  }

  lemma NotBefore(s: Text, sep: Text)
    requires sep != [] && Index(s, sep) >= 0
    ensures Index(s[..Index(s, sep)], sep) < 0
  {
    hide Index;
    var front := s[..Index(s, sep)];
    forall j | OccursAt(front, sep, j)
      ensures OccursAt(s, sep, j)
    {
      assert front[j..j + |sep|] == s[j..j + |sep|];
    }
  }

  /** Where part `i` begins in the joined text. */
  function PositionOf(parts: seq<Text>, i: nat, sep: Text): nat
    requires i <= |parts|
  {
    if i == 0 then 0 else PositionOf(parts, i - 1, sep) + |parts[i - 1]| + |sep|
  }

  // ---------------------------------------------------------------- specification

  /**
   The text collected so far in one turn of the separator loop: the offset the source
   records for it, where its text really begins, and the part it was opened with.
   */
  datatype Buffer = Buffer(text: Text, start: nat, at: nat, first: Text)

  datatype Traced = Traced(chunk: Chunk, at: nat, hard: bool)

  /** The buffers the separator loop flushes, from part `i` on with `buf` in hand. */
  function Group(parts: seq<Text>, sep: Text, i: nat, buf: Buffer, offset: nat, at: nat, cfg: Config, count: Counter)
    : (bufs: seq<Buffer>)
    requires i <= |parts|
    decreases |parts| - i
  {
    if i == |parts| then
      if buf.text == [] then [] else [buf]
    else
      var p := parts[i];
      var here := PositionOf(parts, i, sep);
      var candidate := if buf.text == [] then p else buf.text + sep + p;
      if count(candidate) > cfg.target && buf.text != [] then
        [buf] + Group(parts, sep, i + 1, Buffer(p, offset + here, at + here, p), offset, at, cfg, count)
      else
        Group(parts, sep, i + 1,
              buf.(text := candidate, at := if buf.text == [] then at + here else buf.at),
              offset, at, cfg, count)
  }

  /** The buffers of one separator level over `text`. */
  function Buffers(text: Text, sep: Text, offset: nat, at: nat, cfg: Config, count: Counter): (bufs: seq<Buffer>)
    requires sep != []
  {
    var parts := SplitOn(text, sep);
    Group(parts, sep, 0, Buffer([], offset, at, parts[0]), offset, at, cfg, count)
  }

  /** utf8 alignment: the first rune start at or after `k`, or the end of the text. */
  function Align(text: Text, k: nat): (m: nat)
    requires k <= |text|
    ensures k <= m <= |text|
    ensures m < |text| ==> RuneStart(text[m])
    ensures forall j :: k <= j < m ==> !RuneStart(text[j])
    decreases |text| - k
  {
    if k < |text| && !RuneStart(text[k]) then Align(text, k + 1) else k
  }

  /** The length of the front part, in proportion to the tokens. */
  function RawCut(len: nat, target: nat, toks: nat): nat
    requires toks > 0
  {
    len * target / toks
  }

  /** Where the hard cut falls in a text whose token count is over the budget. */
  function CutAt(text: Text, cfg: Config, toks: nat): (cut: nat)
    requires cfg.target <= cfg.max + 1 <= toks && text != []
    ensures 1 <= cut <= |text|
    ensures cut < |text| ==> RuneStart(text[cut])
  {
    var raw := RawCut(|text|, cfg.target, toks);
    CutInside(|text|, cfg.target, toks);
    Align(text, if raw < 1 then 1 else raw)
  }

  /**
   The cut is the first rune start, past the first byte, whose share of the text is that of the target among the
   tokens once rounded up by a byte, or else the end of the text.
   */
  ghost predicate IsCut(text: Text, target: nat, toks: nat, cut: nat) {
    && 1 <= cut <= |text| && (cut < |text| ==> RuneStart(text[cut])) && (cut + 1) * toks > |text| * target
    && forall j :: 1 <= j < cut && (j + 1) * toks > |text| * target ==> !RuneStart(text[j])
  }

  lemma CutIsFirst(text: Text, cfg: Config, toks: nat)
    requires cfg.target <= cfg.max + 1 <= toks && text != []
    ensures IsCut(text, cfg.target, toks, CutAt(text, cfg, toks))
  {
    var raw := RawCut(|text|, cfg.target, toks);
    var cut := CutAt(text, cfg, toks);
    CutInside(|text|, cfg.target, toks);
    FloorIff(|text| * cfg.target, toks, cut);
    forall j | 1 <= j < cut && (j + 1) * toks > |text| * cfg.target
      ensures !RuneStart(text[j])
    {
      FloorIff(|text| * cfg.target, toks, j);
    }
  }

  /** A whole number reaches a quotient rounded down exactly when one more passes the quotient. */
  lemma FloorIff(n: nat, d: nat, j: nat)
    requires d > 0
    ensures j >= n / d <==> (j + 1) * d > n
  {
    var q := n / d;
    assert n == q * d + n % d;
    if j >= q {
      ProductsOrdered(q + 1, j + 1, d);
    } else {
      ProductsOrdered(j + 1, q, d);
    }
  }

  lemma CutInside(len: nat, target: nat, toks: nat)
    requires target <= toks && toks > 0
    ensures RawCut(len, target, toks) <= len
  {
    var q := len * target / toks;
    ProductsOrdered(target, toks, len);
    assert q * toks <= len * target;
    if q > len { ProductsOrdered(len + 1, q, toks); }
  }

  lemma ProductsOrdered(a: nat, b: nat, c: nat)
    requires a <= b
    ensures c * a <= c * b
  {
  }

  predicate AllNonEmpty(seps: seq<Text>) {
    forall i :: 0 <= i < |seps| ==> seps[i] != []
  }

  /** The piece the hard cut takes off the front of an oversize text. */
  function HardPiece(text: Text, offset: nat, at: nat, cfg: Config, count: Counter): (item: Traced)
    requires cfg.target <= cfg.max + 1 <= count(text) && text != []
    ensures item.at == at && item.hard && item.chunk.start == offset
    ensures 1 <= |item.chunk.text| <= |text| && item.chunk.text == text[..|item.chunk.text|]
    ensures item.chunk.end == offset + |item.chunk.text| && item.chunk.tokens == count(item.chunk.text)
  {
    var cut := CutAt(text, cfg, count(text));
    Traced(Chunk(text[..cut], offset, offset + cut, count(text[..cut])), at, true)
  }

  function TracedSplit(text: Text, offset: nat, at: nat, seps: seq<Text>, cfg: Config, count: Counter)
    : (out: seq<Traced>)
    requires cfg.target <= cfg.max + 1
    requires AllNonEmpty(seps)
    decreases |seps|, |text| + 1, 0
  {
    if Blank(text) then []
    else
      var toks := count(text);
      if toks <= cfg.max then
        [Traced(Chunk(text, offset, offset + |text|, toks), at, false)]
      else if seps == [] then
        HardTrace(text, offset, at, cfg, count)
      else
        SplitAll(Buffers(text, seps[0], offset, at, cfg, count), seps[1..], cfg, count)
  }

  /** A piece off the front, then the rest again. */
  function HardTrace(text: Text, offset: nat, at: nat, cfg: Config, count: Counter): (out: seq<Traced>)
    requires cfg.target <= cfg.max + 1 <= count(text) && text != []
    decreases 0, |text|, 1
  {
    var piece := HardPiece(text, offset, at, cfg, count);
    var cut := |piece.chunk.text|;
    [piece] + TracedSplit(text[cut..], offset + cut, at + cut, [], cfg, count)
  }

  lemma HardStep(text: Text, offset: nat, at: nat, cfg: Config, count: Counter)
    requires cfg.target <= cfg.max + 1 <= count(text) && !Blank(text)
    ensures text != []
    ensures var item := HardPiece(text, offset, at, cfg, count);
            var cut := |item.chunk.text|;
            TracedSplit(text, offset, at, [], cfg, count) ==
              [item] + TracedSplit(text[cut..], offset + cut, at + cut, [], cfg, count)
  {
    ToHardTrace(text, offset, at, cfg, count);
    hide TracedSplit, HardPiece, CutAt, Blank;
  }

  lemma ToHardTrace(text: Text, offset: nat, at: nat, cfg: Config, count: Counter)
    requires cfg.target <= cfg.max + 1 <= count(text) && !Blank(text)
    ensures text != [] && TracedSplit(text, offset, at, [], cfg, count) == HardTrace(text, offset, at, cfg, count)
  {
    assert text != [];
    hide HardTrace, Blank;
  }

  /** Every buffer in turn, split at the remaining separators. */
  function SplitAll(bufs: seq<Buffer>, seps: seq<Text>, cfg: Config, count: Counter): (out: seq<Traced>)
    requires cfg.target <= cfg.max + 1
    requires AllNonEmpty(seps)
    decreases |seps| + 1, 0, |bufs|
  {
    if bufs == [] then []
    else TracedSplit(bufs[0].text, bufs[0].start, bufs[0].at, seps, cfg, count) + SplitAll(bufs[1..], seps, cfg, count)
  }

  function Chunks(items: seq<Traced>): (chunks: seq<Chunk>)
    ensures |chunks| == |items|
    ensures forall i :: 0 <= i < |items| ==> chunks[i] == items[i].chunk
  {
    seq(|items|, i requires 0 <= i < |items| => items[i].chunk)
  }

  // ---------------------------------------------------------------- the chunker

  method PartPosition(parts: seq<Text>, i: nat, sep: Text) returns (n: nat)
    requires i <= |parts|
    ensures n == PositionOf(parts, i, sep)
  {
    n := 0;
    for j := 0 to i
      invariant n == PositionOf(parts, j, sep)
    {
      n := n + |parts[j]| + |sep|;
    }
  }

  method HardCut(text: Text, cfg: Config, toks: nat) returns (cut: nat)
    requires cfg.target <= cfg.max + 1 <= toks && text != []
    ensures cut == CutAt(text, cfg, toks) && IsCut(text, cfg.target, toks, cut)
  {
    CutIsFirst(text, cfg, toks);
    hide IsCut;
    CutInside(|text|, cfg.target, toks);
    cut := |text| * cfg.target / toks;
    if cut < 1 { cut := 1; }
    ghost var raw := cut;
    while cut < |text| && !RuneStart(text[cut])
      invariant raw <= cut <= |text|
      invariant Align(text, cut) == Align(text, raw)
    {
      cut := cut + 1;
    }
  }

  /** What the rest of the loop will emit, after part `i` is flushed on or joined on. */
  lemma FlushStep(parts: seq<Text>, sep: Text, i: nat, cur: Buffer, next: Buffer, offset: nat, at: nat,
                  seps: seq<Text>, cfg: Config, count: Counter)
    requires cfg.target <= cfg.max + 1 && AllNonEmpty(seps) && i < |parts|
    requires cur.text != [] && count(cur.text + sep + parts[i]) > cfg.target
    requires next == Buffer(parts[i], offset + PositionOf(parts, i, sep), at + PositionOf(parts, i, sep), parts[i])
    ensures Chunks(SplitAll(Group(parts, sep, i, cur, offset, at, cfg, count), seps, cfg, count))
         == Chunks(TracedSplit(cur.text, cur.start, cur.at, seps, cfg, count))
          + Chunks(SplitAll(Group(parts, sep, i + 1, next, offset, at, cfg, count), seps, cfg, count))
  {
    var tail := Group(parts, sep, i + 1, next, offset, at, cfg, count);
    var bufs := Group(parts, sep, i, cur, offset, at, cfg, count);
    assert bufs == [cur] + tail;
    assert bufs[0] == cur && bufs[1..] == tail;
  }

  /** Flushing puts the buffer in hand in front of what the loop still flushes. */
  lemma GroupFlush(parts: seq<Text>, sep: Text, i: nat, cur: Buffer, next: Buffer, offset: nat, at: nat, cfg: Config,
                   count: Counter)
    requires i < |parts| && cur.text != [] && count(cur.text + sep + parts[i]) > cfg.target
    requires next == Buffer(parts[i], offset + PositionOf(parts, i, sep), at + PositionOf(parts, i, sep), parts[i])
    ensures Group(parts, sep, i, cur, offset, at, cfg, count) ==
        [cur] + Group(parts, sep, i + 1, next, offset, at, cfg, count)
  {
    hide PositionOf;
  }

  lemma JoinStep(parts: seq<Text>, sep: Text, i: nat, cur: Buffer, next: Buffer, offset: nat, at: nat, cfg: Config,
                 count: Counter)
    requires i < |parts|
    requires cur.text == [] || count(cur.text + sep + parts[i]) <= cfg.target
    requires next == cur.(text := if cur.text == [] then parts[i] else cur.text + sep + parts[i],
                          at := if cur.text == [] then at + PositionOf(parts, i, sep) else cur.at)
    ensures Group(parts, sep, i, cur, offset, at, cfg, count) == Group(parts, sep, i + 1, next, offset, at, cfg, count)
  {
  }

  lemma LastStep(parts: seq<Text>, sep: Text, cur: Buffer, offset: nat, at: nat, seps: seq<Text>, cfg: Config,
                 count: Counter)
    requires cfg.target <= cfg.max + 1 && AllNonEmpty(seps)
    ensures Chunks(SplitAll(Group(parts, sep, |parts|, cur, offset, at, cfg, count), seps, cfg, count))
         == if cur.text == [] then [] else Chunks(TracedSplit(cur.text, cur.start, cur.at, seps, cfg, count))
  {
    var last := TracedSplit(cur.text, cur.start, cur.at, seps, cfg, count);
    assert SplitAll([cur], seps, cfg, count) == last + SplitAll([], seps, cfg, count) == last;
  }

  /** recursiveSplit; `at` is where `text` really stands in the input. */
  method RecursiveSplit(text: Text, offset: nat, seps: seq<Text>, cfg: Config, count: Counter, ghost at: nat)
    returns (out: seq<Chunk>)
    requires cfg.target <= cfg.max + 1
    requires AllNonEmpty(seps)
    ensures out == Chunks(TracedSplit(text, offset, at, seps, cfg, count))
    decreases |seps|, |text|, 1
  {
    hide SplitAll, Buffers, CutAt;
    if Blank(text) { return []; }
    var toks := count(text);
    if toks <= cfg.max {
      out := [Chunk(text, offset, offset + |text|, toks)];
    } else if seps == [] {
      out := HardSplit(text, offset, cfg, count, at);
    } else {
      out := SplitAtSeparator(text, offset, seps[0], seps[1..], cfg, count, at);
    }
  }

  /** The hard cut of recursiveSplit: a piece off the front, then the rest again. */
  method HardSplit(text: Text, offset: nat, cfg: Config, count: Counter, ghost at: nat) returns (out: seq<Chunk>)
    requires cfg.target <= cfg.max + 1 <= count(text) && !Blank(text)
    ensures out == Chunks(TracedSplit(text, offset, at, [], cfg, count))
    decreases 0, |text|, 0
  {
    hide TracedSplit, Chunks;
    HardStep(text, offset, at, cfg, count);
    var cut := HardCut(text, cfg, count(text));
    var left, right := text[..cut], text[cut..];
    var rest := RecursiveSplit(right, offset + cut, [], cfg, count, at + cut);
    out := [Chunk(left, offset, offset + cut, count(left))] + rest;
  }

  /** The separator loop of recursiveSplit. */
  method SplitAtSeparator(text: Text, offset: nat, sep: Text, seps: seq<Text>, cfg: Config, count: Counter,
                          ghost at: nat)
    returns (out: seq<Chunk>)
    requires cfg.target <= cfg.max + 1
    requires sep != [] && AllNonEmpty(seps)
    ensures out == Chunks(SplitAll(Buffers(text, sep, offset, at, cfg, count), seps, cfg, count))
    decreases |seps| + 1, |text|, 0
  {
    hide Group, SplitAll, TracedSplit, Chunks, SplitOn;
    var parts := SplitOn(text, sep);
    out := [];
    var buf, bufStart := [], offset;
    ghost var cur := Buffer([], offset, at, parts[0]);
    ghost var all := Chunks(SplitAll(Group(parts, sep, 0, cur, offset, at, cfg, count), seps, cfg, count));
    for i := 0 to |parts|
      invariant buf == cur.text && bufStart == cur.start
      invariant all == out + Chunks(SplitAll(Group(parts, sep, i, cur, offset, at, cfg, count), seps, cfg, count))
    {
      var p := parts[i];
      var candidate := if buf == [] then p else buf + sep + p;
      ghost var here := PositionOf(parts, i, sep);
      if count(candidate) > cfg.target && |buf| > 0 {
        var flushed := RecursiveSplit(buf, bufStart, seps, cfg, count, cur.at);
        ghost var next := Buffer(p, offset + here, at + here, p);
        FlushStep(parts, sep, i, cur, next, offset, at, seps, cfg, count);
        out := out + flushed;
        var pos := PartPosition(parts, i, sep);
        buf, bufStart, cur := p, offset + pos, next;
      } else {
        ghost var next := cur.(text := candidate, at := if buf == [] then at + here else cur.at);
        JoinStep(parts, sep, i, cur, next, offset, at, cfg, count);
        buf, cur := candidate, next;
      }
    }
    LastStep(parts, sep, cur, offset, at, seps, cfg, count);
    if |buf| > 0 {
      var flushed := RecursiveSplit(buf, bufStart, seps, cfg, count, cur.at);
      out := out + flushed;
    }
  }

  method ChunkProse(text: Text, cfg: Config, count: Counter) returns (out: seq<Chunk>)
    requires cfg.target <= cfg.max + 1
    ensures out == Chunks(ProseTrace(text, cfg, count))
  {
    out := RecursiveSplit(text, 0, SEPARATORS, cfg, count, 0);
  }

  function ProseTrace(text: Text, cfg: Config, count: Counter): (items: seq<Traced>)
    requires cfg.target <= cfg.max + 1
  {
    TracedSplit(text, 0, 0, SEPARATORS, cfg, count)
  }
}
