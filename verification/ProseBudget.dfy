/** Token budgets, encoding, and where the hard cut may fall. */
module ProseBudget {
  import opened Bytes
  import opened Utf8
  import opened Prose
  import opened ProseLayout

  ghost predicate CountsBytes(count: Counter) {
    forall s: Text :: count(s) == |s|
  }

  /** None of `seps` occurs in `t`. */
  ghost predicate FreeOf(t: Text, seps: seq<Text>) {
    forall i :: 0 <= i < |seps| ==> Index(t, seps[i]) < 0
  }

  /** A text the hard cut has to deal with: over the budget, and no separator left to split it at. */
  ghost predicate Oversize(r: Text, cfg: Config, count: Counter, seps: seq<Text>) {
    r != [] && !Blank(r) && count(r) > cfg.max && FreeOf(r, seps)
  }

  /** `t` is what the hard cut takes off the front of some such text. */
  ghost predicate FromCut(t: Text, cfg: Config, count: Counter, seps: seq<Text>) {
    exists r :: Oversize(r, cfg, count, seps) && IsCut(r, cfg.target, count(r), |t|) && t == r[..|t|]
  }

  /**
   What is promised of every chunk. Only a chunk the hard cut made may be over the budget, and
   it comes from a run of text without any separator. With a counter that counts bytes, on
   well-formed text, such a piece reaches its target and goes over it by at most three bytes of alignment.
   */
  ghost predicate Sound(it: Traced, utf8: bool, cfg: Config, count: Counter, seps: seq<Text>) {
    && it.chunk.tokens == count(it.chunk.text) && it.chunk.text != []
    && (utf8 ==> Valid(it.chunk.text))
    && (!it.hard ==> it.chunk.tokens <= cfg.max && !Blank(it.chunk.text))
    && (it.hard ==> FreeOf(it.chunk.text, seps) && FromCut(it.chunk.text, cfg, count, seps))
    && (it.hard && CountsBytes(count) ==> |it.chunk.text| >= Least(cfg))
    && (it.hard && utf8 && CountsBytes(count) ==> |it.chunk.text| <= Least(cfg) + 3)
  }

  /** The bytes a piece of the hard cut should have. */
  function Least(cfg: Config): nat {
    if cfg.target < 1 then 1 else cfg.target
  }

  ghost predicate AllSound(items: seq<Traced>, utf8: bool, cfg: Config, count: Counter, seps: seq<Text>) {
    forall i :: 0 <= i < |items| ==> Sound(items[i], utf8, cfg, count, seps)
  }

  lemma SoundAppend(a: seq<Traced>, b: seq<Traced>, utf8: bool, cfg: Config, count: Counter, seps: seq<Text>)
    requires AllSound(a, utf8, cfg, count, seps) && AllSound(b, utf8, cfg, count, seps)
    ensures AllSound(a + b, utf8, cfg, count, seps)
  {
  }

  // ---------------------------------------------------------------- parts

  /** A separator that does not occur in a text does not occur in a stretch of it. */
  lemma FreeInside(t: Text, k: nat, p: Text, seps: seq<Text>)
    requires Holds(t, k, p) && FreeOf(t, seps)
    ensures FreeOf(p, seps)
  {
    forall i | 0 <= i < |seps|
      ensures Index(p, seps[i]) < 0
    {
      var j := Index(p, seps[i]);
      if j >= 0 {
        HoldsInside(t, k, p, j, seps[i]);
        assert OccursAt(t, seps[i], k + j);
      }
    }
  }

  predicate Ascii(s: Text) {
    forall i :: 0 <= i < |s| ==> s[i] < 0x80
  }

  lemma {:induction false} AsciiIsValid(s: Text)
    requires Ascii(s)
    ensures Valid(s)
    decreases |s|
  {
    if s != [] { AsciiIsValid(s[1..]); }
  }

  lemma {:induction false} DropAscii(s: Text, k: nat)
    requires Valid(s) && k <= |s| && Ascii(s[..k])
    ensures Valid(s[k..])
    decreases k
  {
    if k == 0 {
      assert s[0..] == s;
    } else {
      assert s[..k][0] == s[0];
      assert s[1..][..k - 1] == s[..k][1..];
      DropAscii(s[1..], k - 1);
      assert s[1..][k - 1..] == s[k..];
    }
  }

  ghost predicate AllValid(parts: seq<Text>) {
    forall i :: 0 <= i < |parts| ==> Valid(parts[i])
  }

  /** Splitting well-formed text at an ASCII separator leaves well-formed parts. */
  lemma {:induction false} PartsValid(s: Text, sep: Text)
    requires sep != [] && Ascii(sep) && Valid(s)
    ensures AllValid(SplitOn(s, sep))
    decreases |s|
  {
    hide Valid;
    var k := Index(s, sep);
    if k >= 0 {
      assert s[k..][..|sep|] == s[k..k + |sep|] == sep;
      assert s[k] == sep[0];
      ValidCut(s, k);
      DropAscii(s[k..], |sep|);
      assert s[k..][|sep|..] == s[k + |sep|..];
      PartsValid(s[k + |sep|..], sep);
    }
  }

  /** What the separator loop guarantees of a buffer. */
  ghost predicate GoodBuffer(t: Text, utf8: bool, cfg: Config, count: Counter, seps: seq<Text>) {
    (utf8 ==> Valid(t)) && (count(t) <= cfg.target || FreeOf(t, seps))
  }

  ghost predicate GoodParts(parts: seq<Text>, utf8: bool, seps: seq<Text>) {
    forall i :: 0 <= i < |parts| ==> (utf8 ==> Valid(parts[i])) && FreeOf(parts[i], seps)
  }

  ghost predicate GoodBuffers(bufs: seq<Buffer>, utf8: bool, cfg: Config, count: Counter, seps: seq<Text>) {
    forall k :: 0 <= k < |bufs| ==> GoodBuffer(bufs[k].text, utf8, cfg, count, seps)
  }

  lemma FlushedGood(parts: seq<Text>, sep: Text, i: nat, cur: Buffer, next: Buffer, offset: nat, at: nat,
                    utf8: bool, cfg: Config, count: Counter, seps: seq<Text>)
    requires i < |parts| && cur.text != [] && count(cur.text + sep + parts[i]) > cfg.target
    requires next == Buffer(parts[i], offset + PositionOf(parts, i, sep), at + PositionOf(parts, i, sep), parts[i])
    requires GoodBuffer(cur.text, utf8, cfg, count, seps)
    requires GoodBuffers(Group(parts, sep, i + 1, next, offset, at, cfg, count), utf8, cfg, count, seps)
    ensures GoodBuffers(Group(parts, sep, i, cur, offset, at, cfg, count), utf8, cfg, count, seps)
  {
    hide GoodBuffer, Group, PositionOf;
    GroupFlush(parts, sep, i, cur, next, offset, at, cfg, count);
  }

  lemma PartGood(parts: seq<Text>, i: nat, utf8: bool, cfg: Config, count: Counter, seps: seq<Text>)
    requires i < |parts| && GoodParts(parts, utf8, seps)
    ensures GoodBuffer(parts[i], utf8, cfg, count, seps) && (utf8 ==> Valid(parts[i]))
  {
  }

  lemma JoinedGood(t: Text, sep: Text, p: Text, utf8: bool, cfg: Config, count: Counter, seps: seq<Text>)
    requires GoodBuffer(t, utf8, cfg, count, seps) && Valid(sep) && (utf8 ==> Valid(p))
    requires count(t + sep + p) <= cfg.target
    ensures GoodBuffer(t + sep + p, utf8, cfg, count, seps)
  {
    hide Valid, FreeOf;
    if utf8 {
      ValidAppend(t, sep);
      ValidAppend(t + sep, p);
    }
  }

  lemma {:induction false} GroupGood(parts: seq<Text>, sep: Text, i: nat, cur: Buffer, offset: nat, at: nat,
                                     utf8: bool, cfg: Config, count: Counter, seps: seq<Text>)
    requires i <= |parts| && GoodParts(parts, utf8, seps) && Valid(sep)
    requires cur.text != [] ==> GoodBuffer(cur.text, utf8, cfg, count, seps)
    ensures GoodBuffers(Group(parts, sep, i, cur, offset, at, cfg, count), utf8, cfg, count, seps)
    decreases |parts| - i
  {
    if i < |parts| {
      hide *;
      PartGood(parts, i, utf8, cfg, count, seps);
      var p := parts[i];
      var here := PositionOf(parts, i, sep);
      if cur.text != [] && count(cur.text + sep + p) > cfg.target {
        var next := Buffer(p, offset + here, at + here, p);
        GroupGood(parts, sep, i + 1, next, offset, at, utf8, cfg, count, seps);
        FlushedGood(parts, sep, i, cur, next, offset, at, utf8, cfg, count, seps);
      } else {
        var next := cur.(text := if cur.text == [] then p else cur.text + sep + p,
                         at := if cur.text == [] then at + here else cur.at);
        if cur.text != [] { JoinedGood(cur.text, sep, p, utf8, cfg, count, seps); }
        GroupGood(parts, sep, i + 1, next, offset, at, utf8, cfg, count, seps);
        JoinStep(parts, sep, i, cur, next, offset, at, cfg, count);
      }
    }
  }

  /** The parts of a text free of `done`, split at `sep`, are free of both and well-formed. */
  lemma PartsGood(text: Text, sep: Text, done: seq<Text>, utf8: bool)
    requires sep != [] && Ascii(sep) && FreeOf(text, done) && (utf8 ==> Valid(text))
    ensures GoodParts(SplitOn(text, sep), utf8, done + [sep])
  {
    hide SplitOn, Valid;
    var parts := SplitOn(text, sep);
    if utf8 { PartsValid(text, sep); }
    forall i | 0 <= i < |parts|
      ensures FreeOf(parts[i], done + [sep])
    {
      JoinAt(parts, sep, i);
      FreeInside(text, PositionOf(parts, i, sep), parts[i], done);
      assert parts[i] in parts;
    }
  }

  // ---------------------------------------------------------------- the whole recursion

  ghost predicate Usable(seps: seq<Text>) {
    AllNonEmpty(seps) && forall i :: 0 <= i < |seps| ==> Ascii(seps[i])
  }

  lemma {:induction false} SplitSound(text: Text, offset: nat, at: nat, done: seq<Text>, seps: seq<Text>,
                                      utf8: bool, cfg: Config, count: Counter)
    requires cfg.target <= cfg.max && Usable(seps)
    requires GoodBuffer(text, utf8, cfg, count, done)
    ensures AllSound(TracedSplit(text, offset, at, seps, cfg, count), utf8, cfg, count, done + seps)
    decreases |seps|, |text| + 1, 1
  {
    hide SplitAll, Buffers, Valid, FreeOf, CutAt;
    if Blank(text) || count(text) <= cfg.max {
    } else if seps == [] {
      assert done + [] == done;
      HardSound(text, offset, at, done, utf8, cfg, count);
    } else {
      SeparatorSound(text, offset, at, done, seps, utf8, cfg, count);
    }
  }

  lemma {:induction false} SeparatorSound(text: Text, offset: nat, at: nat, done: seq<Text>, seps: seq<Text>,
                                          utf8: bool, cfg: Config, count: Counter)
    requires cfg.target <= cfg.max && Usable(seps) && seps != []
    requires (utf8 ==> Valid(text)) && FreeOf(text, done)
    ensures AllSound(SplitAll(Buffers(text, seps[0], offset, at, cfg, count), seps[1..], cfg, count), utf8, cfg, count,
                     done + seps)
    decreases |seps|, |text| + 1, 0
  {
    hide Valid, FreeOf, SplitOn, Group, AllSound, SplitAll, GoodParts, GoodBuffers;
    var sep, rest := seps[0], seps[1..];
    var parts := SplitOn(text, sep);
    var cur := Buffer([], offset, at, parts[0]);
    AsciiIsValid(sep);
    PartsGood(text, sep, done, utf8);
    GroupGood(parts, sep, 0, cur, offset, at, utf8, cfg, count, done + [sep]);
    SplitAllSound(Buffers(text, sep, offset, at, cfg, count), done + [sep], rest, utf8, cfg, count);
    assert done + [sep] + rest == done + seps;
  }

  lemma {:induction false} SplitAllSound(bufs: seq<Buffer>, done: seq<Text>, seps: seq<Text>, utf8: bool, cfg: Config,
                                         count: Counter)
    requires cfg.target <= cfg.max && Usable(seps)
    requires GoodBuffers(bufs, utf8, cfg, count, done)
    ensures AllSound(SplitAll(bufs, seps, cfg, count), utf8, cfg, count, done + seps)
    decreases |seps| + 1, 0, |bufs|
  {
    if bufs != [] {
      hide TracedSplit, GoodBuffer, Sound;
      var b := bufs[0];
      SplitSound(b.text, b.start, b.at, done, seps, utf8, cfg, count);
      SplitAllSound(bufs[1..], done, seps, utf8, cfg, count);
      SoundAppend(TracedSplit(b.text, b.start, b.at, seps, cfg, count), SplitAll(bufs[1..], seps, cfg, count), utf8,
                  cfg, count, done + seps);
    }
  }

  lemma {:induction false} HardSound(text: Text, offset: nat, at: nat, done: seq<Text>, utf8: bool, cfg: Config,
                                     count: Counter)
    requires cfg.target <= cfg.max < count(text) && !Blank(text)
    requires (utf8 ==> Valid(text)) && FreeOf(text, done)
    ensures AllSound(TracedSplit(text, offset, at, [], cfg, count), utf8, cfg, count, done)
    decreases 0, |text| + 1, 0
  {
    hide TracedSplit, Valid, FreeOf, Sound;
    HardStep(text, offset, at, cfg, count);
    var piece := HardPiece(text, offset, at, cfg, count);
    var cut := |piece.chunk.text|;
    PieceSound(text, offset, at, done, utf8, cfg, count);
    SplitSound(text[cut..], offset + cut, at + cut, done, [], utf8, cfg, count);
    assert done + [] == done;
    SoundAppend([piece], TracedSplit(text[cut..], offset + cut, at + cut, [], cfg, count), utf8, cfg, count, done);
  }

  lemma PieceSound(text: Text, offset: nat, at: nat, done: seq<Text>, utf8: bool, cfg: Config, count: Counter)
    requires cfg.target <= cfg.max < count(text) && text != [] && !Blank(text)
    requires (utf8 ==> Valid(text)) && FreeOf(text, done)
    ensures var piece := HardPiece(text, offset, at, cfg, count);
            Sound(piece, utf8, cfg, count, done) && (utf8 ==> Valid(text[|piece.chunk.text|..]))
              && FreeOf(text[|piece.chunk.text|..], done)
  {
    var piece := HardPiece(text, offset, at, cfg, count);
    var cut := |piece.chunk.text|;
    assert Holds(text, 0, text[..cut]) && Holds(text, cut, text[cut..]);
    FreeInside(text, 0, text[..cut], done);
    FreeInside(text, cut, text[cut..], done);
    assert Oversize(text, cfg, count, done);
    CutIsFirst(text, cfg, count(text));
    if CountsBytes(count) {
      ByteCutLeast(text, cfg, count);
      if utf8 { ByteCut(text, cfg, count); }
    }
    if utf8 { ValidCut(text, cut); }
  }

  lemma MulAtLeast(a: nat, d: int)
    requires d >= 1
    ensures a * d >= a
  {
    assert a * d == a + a * (d - 1);
  }

  lemma Quotient(a: nat, n: int, b: int)
    requires a > 0 && n == a * b
    ensures n / a == b
  {
    var d := b - n / a;
    assert a * d == n % a;
    if d >= 1 { MulAtLeast(a, d); }
    if d <= -1 { MulAtLeast(a, -d); }
  }

  /** With a counter of bytes the cut reaches the target. */
  lemma ByteCutLeast(text: Text, cfg: Config, count: Counter)
    requires cfg.target <= cfg.max + 1 <= count(text) && text != [] && CountsBytes(count)
    ensures CutAt(text, cfg, count(text)) >= Least(cfg)
  {
    hide CutAt;
    CutIsFirst(text, cfg, count(text));
    assert count(text) == |text|;
    hide *;
    ReachesTarget(CutAt(text, cfg, |text|), |text|, cfg);
  }

  lemma ReachesTarget(cut: nat, len: nat, cfg: Config)
    requires cut >= 1 && (cut + 1) * len > len * cfg.target
    ensures cut >= Least(cfg)
  {
    if cut + 1 <= cfg.target { ProductsOrdered(cut + 1, cfg.target, len); }
  }

  lemma ByteCut(text: Text, cfg: Config, count: Counter)
    requires cfg.target <= cfg.max < count(text) && text != [] && Valid(text) && CountsBytes(count)
    ensures CutAt(text, cfg, count(text)) <= Least(cfg) + 3
  {
    assert count(text) == |text|;
    Quotient(|text|, |text| * cfg.target, cfg.target);
    var k := Least(cfg);
    assert CutAt(text, cfg, |text|) == Align(text, k);
    hide CutAt, Align;
    var m := RunsOfTails(text, k);
  }

  /**
   Every chunk carries its own token count; a chunk not made by the hard cut is within MaxTokens
   and not blank; a hard-cut piece holds no separator at all; well-formed text gives well-formed chunks.
   */
  lemma ChunksAreSound(text: Text, cfg: Config, count: Counter)
    requires cfg.target <= cfg.max
    ensures AllSound(ProseTrace(text, cfg, count), Valid(text), cfg, count, SEPARATORS)
  {
    hide TracedSplit, Valid, AllSound;
    assert [] + SEPARATORS == SEPARATORS;
    SplitSound(text, 0, 0, [], SEPARATORS, Valid(text), cfg, count);
  }
}
