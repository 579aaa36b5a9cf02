/**
 When the chunker keeps its promise that each piece fits within MaxTokens. It recurses along
 separators as long as there are any; the hard cut that comes last does not look at the count
 of what it cuts off.
 */
module ProseLimits {
  import opened Bytes
  import opened Utf8
  import opened Prose
  import opened ProseBudget
  import opened ProseDrift

  /** The proportional cut falls inside every text over the budget if and only if the target is at most one above it. */
  lemma CutInsideIff(cfg: Config)
    ensures (forall len: nat, toks: nat :: toks > cfg.max ==> RawCut(len, cfg.target, toks) <= len) <==>
        cfg.target <= cfg.max + 1
  {
    if cfg.target <= cfg.max + 1 {
      forall len: nat, toks: nat | toks > cfg.max
        ensures RawCut(len, cfg.target, toks) <= len
      {
        CutInside(len, cfg.target, toks);
      }
    } else {
      var n := cfg.max + 1;
      Quotient(n, n * cfg.target, cfg.target);
      assert RawCut(n, cfg.target, n) == cfg.target;
    }
  }

  /** Every chunk of the text is within MaxTokens. */
  ghost predicate Fits(text: Text, cfg: Config, count: Counter)
    requires cfg.target <= cfg.max
  {
    var items := ProseTrace(text, cfg, count);
    forall i :: 0 <= i < |items| ==> items[i].chunk.tokens <= cfg.max
  }

  /** For this counter and config, the proportional cut leaves no front part over the budget. */
  ghost predicate HardCutFits(cfg: Config, count: Counter)
    requires cfg.target <= cfg.max
  {
    forall r, cut :: Oversize(r, cfg, count, SEPARATORS) && IsCut(r, cfg.target, count(r), cut) ==>
      count(r[..cut]) <= cfg.max
  }

  lemma NoneOccurs(r: Text)
    requires FreeOf(r, SEPARATORS)
    ensures Index(r, PARAGRAPH) < 0 && Index(r, LINE) < 0 && Index(r, SENTENCE) < 0 && Index(r, WORD) < 0
  {
    hide Index;
    assert SEPARATORS[0] == PARAGRAPH && SEPARATORS[1] == LINE && SEPARATORS[2] == SENTENCE && SEPARATORS[3] == WORD;
  }

  /** A text over the budget and without separators goes to the hard cut whole. */
  lemma OnlyHardCuts(r: Text, cfg: Config, count: Counter)
    requires cfg.target <= cfg.max && Oversize(r, cfg, count, SEPARATORS)
    ensures ProseTrace(r, cfg, count) == TracedSplit(r, 0, 0, [], cfg, count)
  {
    NoneOccurs(r);
    hide Index, Blank, TracedSplit, FreeOf;
    PassThrough(r, WORD, [], 0, 0, cfg, count);
    PassThrough(r, SENTENCE, [WORD], 0, 0, cfg, count);
    PassThrough(r, LINE, [SENTENCE, WORD], 0, 0, cfg, count);
    PassThrough(r, PARAGRAPH, [LINE, SENTENCE, WORD], 0, 0, cfg, count);
    assert [WORD] + [] == [WORD];
    Levels();
  }

  lemma HardFirst(r: Text, cfg: Config, count: Counter)
    requires cfg.target <= cfg.max && Oversize(r, cfg, count, SEPARATORS)
    ensures var items := ProseTrace(r, cfg, count);
            items != [] && items[0] == HardPiece(r, 0, 0, cfg, count)
  {
    hide ProseTrace, TracedSplit, CutAt;
    OnlyHardCuts(r, cfg, count);
    HardStep(r, 0, 0, cfg, count);
  }

  /**
   Every chunk of every text is within MaxTokens if and only if the hard cut never leaves too
   much in front: a condition on the configuration and the counter alone.
   */
  lemma FitsIff(cfg: Config, count: Counter)
    requires cfg.target <= cfg.max
    ensures (forall text :: Fits(text, cfg, count)) <==> HardCutFits(cfg, count)
  {
    hide ProseTrace, CutAt, FreeOf, Blank;
    if forall text :: Fits(text, cfg, count) {
      forall r, cut | Oversize(r, cfg, count, SEPARATORS) && IsCut(r, cfg.target, count(r), cut)
        ensures count(r[..cut]) <= cfg.max
      {
        FrontFits(r, cut, cfg, count);
      }
    }
    if HardCutFits(cfg, count) {
      forall text
        ensures Fits(text, cfg, count)
      {
        CutsFit(text, cfg, count);
      }
    }
  }

  lemma CutIsUnique(text: Text, target: nat, toks: nat, a: nat, b: nat)
    requires IsCut(text, target, toks, a) && IsCut(text, target, toks, b)
    ensures a == b
  {
  }

  lemma FrontFits(r: Text, cut: nat, cfg: Config, count: Counter)
    requires cfg.target <= cfg.max && Oversize(r, cfg, count, SEPARATORS) && Fits(r, cfg, count)
    requires IsCut(r, cfg.target, count(r), cut)
    ensures count(r[..cut]) <= cfg.max
  {
    HardFirst(r, cfg, count);
    CutIsFirst(r, cfg, count(r));
    CutIsUnique(r, cfg.target, count(r), cut, CutAt(r, cfg, count(r)));
    assert ProseTrace(r, cfg, count)[0].chunk.tokens <= cfg.max;
  }

  lemma CutsFit(text: Text, cfg: Config, count: Counter)
    requires cfg.target <= cfg.max && HardCutFits(cfg, count)
    ensures Fits(text, cfg, count)
  {
    ChunksAreSound(text, cfg, count);
    hide ProseTrace, Oversize, CutAt, FreeOf, Blank;
    var items := ProseTrace(text, cfg, count);
    forall i | 0 <= i < |items|
      ensures items[i].chunk.tokens <= cfg.max
    {
      assert Sound(items[i], Valid(text), cfg, count, SEPARATORS);
    }
  }

  /** A counter of bytes meets the promise on well-formed text when MaxTokens leaves room for rune alignment. */
  lemma BytesFit(text: Text, cfg: Config, count: Counter)
    requires cfg.target <= cfg.max && Valid(text) && CountsBytes(count)
    requires cfg.max >= Least(cfg) + 3
    ensures Fits(text, cfg, count)
  {
    ChunksAreSound(text, cfg, count);
    hide ProseTrace, FromCut, FreeOf, Blank, Valid;
    var items := ProseTrace(text, cfg, count);
    forall i | 0 <= i < |items|
      ensures items[i].chunk.tokens <= cfg.max
    {
      assert Sound(items[i], Valid(text), cfg, count, SEPARATORS);
    }
  }

  /** With a counter of bytes a text without separators comes in no more chunks than pieces of the target size. */
  lemma PieceCount(text: Text, cfg: Config, count: Counter)
    requires cfg.target <= cfg.max && FreeOf(text, SEPARATORS) && CountsBytes(count)
    ensures |ProseTrace(text, cfg, count)| <= (|text| + Least(cfg) - 1) / Least(cfg)
  {
    if Blank(text) || count(text) <= cfg.max {
      FewChunks(text, cfg, count);
      hide *;
      Ceiling(|text|, Least(cfg), |ProseTrace(text, cfg, count)|);
    } else {
      OnlyHardCuts(text, cfg, count);
      hide *;
      PiecesReach(text, 0, 0, cfg, count);
      Ceiling(|text|, Least(cfg), |ProseTrace(text, cfg, count)|);
    }
  }

  lemma FewChunks(text: Text, cfg: Config, count: Counter)
    requires cfg.target <= cfg.max && (Blank(text) || count(text) <= cfg.max)
    ensures |ProseTrace(text, cfg, count)| <= 1 && (text == [] ==> |ProseTrace(text, cfg, count)| == 0)
    ensures Least(cfg) >= 1
  {
    assert Blank([]);
    hide SplitAll, Buffers, CutAt, HardPiece;
  }

  lemma Ceiling(len: nat, least: nat, n: nat)
    requires least >= 1 && (n == 0 || (n == 1 && len > 0) || (n - 1) * least < len)
    ensures n <= (len + least - 1) / least
  {
    if n > 0 {
      assert n * least == (n - 1) * least + least;
      FloorIff(len + least - 1, least, n - 1);
    }
  }

  lemma {:induction false} PiecesReach(text: Text, offset: nat, at: nat, cfg: Config, count: Counter)
    requires cfg.target <= cfg.max < count(text) && CountsBytes(count) && !Blank(text)
    ensures (|TracedSplit(text, offset, at, [], cfg, count)| - 1) * Least(cfg) < |text| && Least(cfg) >= 1
    decreases |text|
  {
    hide *;
    var cut := OneCut(text, offset, at, cfg, count);
    var rest := text[cut..];
    if Blank(rest) || count(rest) <= cfg.max {
      LastPiece(rest, offset + cut, at + cut, cfg, count);
    } else {
      PiecesReach(rest, offset + cut, at + cut, cfg, count);
    }
    OneMore(|text|, cut, Least(cfg), |TracedSplit(rest, offset + cut, at + cut, [], cfg, count)|);
  }

  lemma OneCut(text: Text, offset: nat, at: nat, cfg: Config, count: Counter) returns (cut: nat)
    requires cfg.target <= cfg.max < count(text) && CountsBytes(count) && !Blank(text)
    ensures 1 <= Least(cfg) <= cut <= |text| && AllNonEmpty([])
    ensures |TracedSplit(text, offset, at, [], cfg, count)| ==
            1 + |TracedSplit(text[cut..], offset + cut, at + cut, [], cfg, count)|
  {
    hide TracedSplit, Blank, CutAt;
    HardStep(text, offset, at, cfg, count);
    assert HardPiece(text, offset, at, cfg, count).chunk.text == text[..CutAt(text, cfg, count(text))];
    hide HardPiece;
    ByteCutLeast(text, cfg, count);
    cut := |HardPiece(text, offset, at, cfg, count).chunk.text|;
  }

  lemma OneMore(len: nat, cut: nat, least: nat, n: nat)
    requires 1 <= least <= cut <= len
    requires (n - 1) * least < len - cut || n == 0 || (n == 1 && cut < len)
    ensures n * least < len
  {
    assert n * least == (n - 1) * least + least;
  }

  lemma LastPiece(text: Text, offset: nat, at: nat, cfg: Config, count: Counter)
    requires cfg.target <= cfg.max && (Blank(text) || count(text) <= cfg.max)
    ensures |TracedSplit(text, offset, at, [], cfg, count)| <= (if text == [] then 0 else 1)
  {
    assert Blank([]);
  }

  /** One two-byte rune over a budget of one byte: a chunk of two tokens against MaxTokens 1. */
  lemma RuneExceedsBudget()
    ensures var text: Text := [0xC3, 0xA9];
            && Valid(text) && !Fits(text, ONE_BYTE, ByteCount)
            && ProseTrace(text, ONE_BYTE, ByteCount)[0] == Traced(Chunk(text, 0, 2, 2), 0, true)
  {
    var text: Text := [0xC3, 0xA9];
    var cfg, count := ONE_BYTE, ByteCount;
    assert Oversize(text, cfg, count, SEPARATORS) by { NoSeparator(text); }
    HardFirst(text, cfg, count);
    assert CutAt(text, cfg, 2) == 2;
    assert text[..2] == text;
  }

  lemma NoSeparator(text: Text)
    requires text == [0xC3, 0xA9]
    ensures !Blank(text) && FreeOf(text, SEPARATORS)
  {
    forall i | 0 <= i < 4
      ensures Index(text, SEPARATORS[i]) < 0
    {
      assert SEPARATORS[i][0] in [10, 46, 32];
    }
  }
}
