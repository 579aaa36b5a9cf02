/**
 When the offsets of prose chunks are exact. A buffer opened by an empty part (a leading or
 doubled separator) keeps the offset of that part although the separator behind it is dropped,
 so everything split from the buffer is reported too early. Nothing else moves an offset.
 */
module ProseDrift {
  import opened Bytes
  import opened Prose

  /** Some buffer that yields a chunk, at any separator level, was opened by an empty part. */
  ghost predicate Drifts(text: Text, offset: nat, at: nat, seps: seq<Text>, cfg: Config, count: Counter)
    requires cfg.target <= cfg.max + 1 && AllNonEmpty(seps)
    decreases |seps|, 1, 0
  {
    !Blank(text) && count(text) > cfg.max && seps != []
    && AnyDrifts(Buffers(text, seps[0], offset, at, cfg, count), seps[1..], cfg, count)
  }

  ghost predicate AnyDrifts(bufs: seq<Buffer>, seps: seq<Text>, cfg: Config, count: Counter)
    requires cfg.target <= cfg.max + 1 && AllNonEmpty(seps)
    decreases |seps| + 1, 0, |bufs|
  {
    bufs != []
    && (|| (bufs[0].first == [] && TracedSplit(bufs[0].text, bufs[0].start, bufs[0].at, seps, cfg, count) != [])
        || Drifts(bufs[0].text, bufs[0].start, bufs[0].at, seps, cfg, count)
        || AnyDrifts(bufs[1..], seps, cfg, count))
  }

  ghost predicate LagsBy(items: seq<Traced>, lag: int) {
    forall i :: 0 <= i < |items| ==> items[i].at - items[i].chunk.start == lag
  }

  ghost predicate LagsAtLeast(items: seq<Traced>, lag: int) {
    forall i :: 0 <= i < |items| ==> items[i].at - items[i].chunk.start >= lag
  }

  lemma LagsAppend(a: seq<Traced>, b: seq<Traced>, lag: int)
    ensures LagsBy(a + b, lag) <==> LagsBy(a, lag) && LagsBy(b, lag)
    ensures LagsAtLeast(a, lag) && LagsAtLeast(b, lag) ==> LagsAtLeast(a + b, lag)
  {
    assert forall i :: 0 <= i < |a| ==> (a + b)[i] == a[i];
    assert forall i :: 0 <= i < |b| ==> (a + b)[|a| + i] == b[i];
  }

  /** A buffer's offset is early exactly when an empty part opened it. */
  ghost predicate BufferLags(b: Buffer, lag: int) {
    b.at - b.start >= lag && (b.at - b.start == lag <==> b.first != [])
  }

  ghost predicate BuffersLag(bufs: seq<Buffer>, lag: int) {
    forall k :: 0 <= k < |bufs| ==> BufferLags(bufs[k], lag)
  }

  lemma {:induction false} GroupLags(parts: seq<Text>, sep: Text, i: nat, cur: Buffer, offset: nat, at: nat,
                                     cfg: Config, count: Counter)
    requires i <= |parts| && sep != []
    requires cur.text != [] ==> BufferLags(cur, at - offset)
    requires cur.text == [] ==>
               || (cur.first == [] && i > 0 && cur.start < offset + PositionOf(parts, i, sep))
               || (i == 0 && |parts| > 0 && cur.first == parts[0] && cur.start == offset)
    ensures BuffersLag(Group(parts, sep, i, cur, offset, at, cfg, count), at - offset)
    decreases |parts| - i
  {
    if i < |parts| {
      var p := parts[i];
      var here := PositionOf(parts, i, sep);
      if cur.text != [] && count(cur.text + sep + p) > cfg.target {
        var next := Buffer(p, offset + here, at + here, p);
        GroupLags(parts, sep, i + 1, next, offset, at, cfg, count);
      } else {
        var next := cur.(text := if cur.text == [] then p else cur.text + sep + p,
                         at := if cur.text == [] then at + here else cur.at);
        GroupLags(parts, sep, i + 1, next, offset, at, cfg, count);
      }
    }
  }

  lemma BuffersAreLate(text: Text, sep: Text, offset: nat, at: nat, cfg: Config, count: Counter)
    requires sep != []
    ensures BuffersLag(Buffers(text, sep, offset, at, cfg, count), at - offset)
  {
    hide SplitOn, Group, BuffersLag;
    var parts := SplitOn(text, sep);
    GroupLags(parts, sep, 0, Buffer([], offset, at, parts[0]), offset, at, cfg, count);
  }

  lemma {:induction false} DriftIff(text: Text, offset: nat, at: nat, seps: seq<Text>, cfg: Config, count: Counter)
    requires cfg.target <= cfg.max + 1 && AllNonEmpty(seps)
    ensures LagsAtLeast(TracedSplit(text, offset, at, seps, cfg, count), at - offset)
    ensures LagsBy(TracedSplit(text, offset, at, seps, cfg, count), at - offset) <==>
        !Drifts(text, offset, at, seps, cfg, count)
    decreases |seps|, |text| + 1, 1
  {
    hide SplitAll, Buffers, AnyDrifts, CutAt;
    if Blank(text) || count(text) <= cfg.max {
    } else if seps == [] {
      HardDrift(text, offset, at, cfg, count);
    } else {
      BuffersAreLate(text, seps[0], offset, at, cfg, count);
      AnyDriftIff(Buffers(text, seps[0], offset, at, cfg, count), at - offset, seps[1..], cfg, count);
    }
  }

  lemma {:induction false} HardDrift(text: Text, offset: nat, at: nat, cfg: Config, count: Counter)
    requires cfg.target <= cfg.max + 1 <= count(text) && !Blank(text)
    ensures LagsBy(TracedSplit(text, offset, at, [], cfg, count), at - offset)
    decreases 0, |text| + 1, 0
  {
    hide TracedSplit, LagsBy;
    HardStep(text, offset, at, cfg, count);
    var piece := HardPiece(text, offset, at, cfg, count);
    var cut := |piece.chunk.text|;
    var rest := TracedSplit(text[cut..], offset + cut, at + cut, [], cfg, count);
    DriftIff(text[cut..], offset + cut, at + cut, [], cfg, count);
    assert LagsBy([piece], at - offset) by { OneLags(piece); }
    LagsAppend([piece], rest, at - offset);
  }

  lemma OneLags(item: Traced)
    ensures LagsBy([item], item.at - item.chunk.start)
  {
  }

  lemma {:induction false} AnyDriftIff(bufs: seq<Buffer>, lag: int, seps: seq<Text>, cfg: Config, count: Counter)
    requires cfg.target <= cfg.max + 1 && AllNonEmpty(seps) && BuffersLag(bufs, lag)
    ensures LagsAtLeast(SplitAll(bufs, seps, cfg, count), lag)
    ensures LagsBy(SplitAll(bufs, seps, cfg, count), lag) <==> !AnyDrifts(bufs, seps, cfg, count)
    decreases |seps| + 1, 0, |bufs|
  {
    if bufs != [] {
      hide TracedSplit, Drifts;
      var b := bufs[0];
      var first := TracedSplit(b.text, b.start, b.at, seps, cfg, count);
      assert BufferLags(b, lag);
      DriftIff(b.text, b.start, b.at, seps, cfg, count);
      AnyDriftIff(bufs[1..], lag, seps, cfg, count);
      LagsAppend(first, SplitAll(bufs[1..], seps, cfg, count), lag);
      if first != [] { assert first[0].at - first[0].chunk.start >= b.at - b.start; }
    }
  }

  /**
   The reported offsets of a prose text are all exact if and only if no buffer that yields a
   chunk was opened by an empty part.
   */
  lemma OffsetsExactIff(text: Text, cfg: Config, count: Counter)
    requires cfg.target <= cfg.max + 1
    ensures var items := ProseTrace(text, cfg, count);
            (forall i :: 0 <= i < |items| ==> items[i].chunk.start == items[i].at) <==>
              !Drifts(text, 0, 0, SEPARATORS, cfg, count)
  {
    hide TracedSplit, Drifts;
    DriftIff(text, 0, 0, SEPARATORS, cfg, count);
    var items := ProseTrace(text, cfg, count);
    assert LagsBy(items, 0) <==> (forall i :: 0 <= i < |items| ==> items[i].chunk.start == items[i].at);
  }

  const ONE_BYTE := Config(1, 0, 1, 0)

  function ByteCount(s: Text): nat {
    |s|
  }

  lemma SpaceAText()
    ensures var text: Text := [32, 97]; !Blank(text) && text[1..] == [97] && !Blank([97])
  {
    var text: Text := [32, 97];
    assert text[1..] == [97];
  }

  /** A separator that does not occur leaves an oversize text whole for the next level. */
  lemma PassThrough(text: Text, sep: Text, seps: seq<Text>, offset: nat, at: nat, cfg: Config, count: Counter)
    requires cfg.target <= cfg.max + 1 <= count(text) && sep != [] && AllNonEmpty(seps) && !Blank(text)
    requires Index(text, sep) < 0
    ensures TracedSplit(text, offset, at, [sep] + seps, cfg, count) == TracedSplit(text, offset, at, seps, cfg, count)
  {
    assert text != [] by { assert Blank([]); }
    hide Blank, Index;
    var cur := Buffer([], offset, at, text);
    var whole := cur.(text := text);
    assert SplitOn(text, sep) == [text];
    assert PositionOf([text], 0, sep) == 0;
    assert Group([text], sep, 1, whole, offset, at, cfg, count) == [whole];
    assert Group([text], sep, 0, cur, offset, at, cfg, count) == [whole];
    hide Group, SplitOn, TracedSplit;
    assert SplitAll([], seps, cfg, count) == [];
    assert [whole][1..] == [];
    assert SplitAll([whole], seps, cfg, count) == TracedSplit(text, offset, at, seps, cfg, count);
    SplitStep(text, offset, at, [sep] + seps, cfg, count);
    assert ([sep] + seps)[1..] == seps;
  }

  lemma SplitStep(text: Text, offset: nat, at: nat, seps: seq<Text>, cfg: Config, count: Counter)
    requires cfg.target <= cfg.max + 1 <= count(text) && AllNonEmpty(seps) && seps != [] && !Blank(text)
    ensures TracedSplit(text, offset, at, seps, cfg, count) ==
        SplitAll(Buffers(text, seps[0], offset, at, cfg, count), seps[1..], cfg, count)
  {
    hide Buffers, SplitAll;
  }

  lemma WordLevel()
    ensures var text: Text := [32, 97];
            TracedSplit(text, 0, 0, [WORD], ONE_BYTE, ByteCount) == [Traced(Chunk([97], 0, 1, 1), 1, false)]
  {
    var text: Text := [32, 97];
    var cfg, count := ONE_BYTE, ByteCount;
    SpaceAText();
    assert WORD <= text;
    var empty, a: Text := [], [97];
    assert Index(a, WORD) < 0 && text[..0] == empty && text[1..] == a;
    assert SplitOn(text, WORD) == [empty, a];
    var parts := [empty, a];
    hide Blank, Index, SplitOn;
    assert PositionOf(parts, 1, WORD) == 1;
    var cur, last := Buffer([], 0, 0, empty), Buffer(a, 0, 1, empty);
    assert Group(parts, WORD, 2, last, 0, 0, cfg, count) == [last];
    assert Group(parts, WORD, 1, cur, 0, 0, cfg, count) == [last];
    assert Group(parts, WORD, 0, cur, 0, 0, cfg, count) == [last];
    hide Group;
    assert TracedSplit(a, 0, 1, [], cfg, count) == [Traced(Chunk(a, 0, 1, 1), 1, false)];
    hide TracedSplit;
    assert SplitAll([], [], cfg, count) == [];
    assert [last][1..] == [];
    assert SplitAll([last], [], cfg, count) == [Traced(Chunk(a, 0, 1, 1), 1, false)];
    SplitStep(text, 0, 0, [WORD], cfg, count);
    assert [WORD][1..] == [];
  }

  lemma Levels()
    ensures AllNonEmpty([WORD]) && AllNonEmpty([SENTENCE, WORD]) && AllNonEmpty([LINE, SENTENCE, WORD])
    ensures [SENTENCE] + [WORD] == [SENTENCE, WORD] && [LINE] + [SENTENCE, WORD] == [LINE, SENTENCE, WORD]
    ensures [PARAGRAPH] + [LINE, SENTENCE, WORD] == SEPARATORS
  {
  }

  lemma OnlyASpace()
    ensures var text: Text := [32, 97];
            ByteCount(text) == 2 && Index(text, SENTENCE) < 0 && Index(text, LINE) < 0 && Index(text, PARAGRAPH) < 0
  {
    hide Index;
    var text: Text := [32, 97];
    NotAt(text, SENTENCE);
    NotAt(text, LINE);
    NotAt(text, PARAGRAPH);
  }

  lemma NotAt(text: Text, sep: Text)
    requires sep != [] && forall i :: 0 <= i < |text| ==> text[i] != sep[0]
    ensures Index(text, sep) < 0
  {
    hide Index;
    if Index(text, sep) >= 0 { StartsLike(text, sep, Index(text, sep)); }
  }

  lemma StartsLike(text: Text, sep: Text, i: nat)
    requires OccursAt(text, sep, i) && sep != []
    ensures i < |text| && text[i] == sep[0]
  {
    assert text[i..i + |sep|][0] == text[i];
  }

  /** " a" over a budget of one byte: the chunk "a" is reported at 0, where the input has a space. */
  lemma LeadingSpaceDrifts()
    ensures var text: Text := [32, 97];
            var items := ProseTrace(text, ONE_BYTE, ByteCount);
            items == [Traced(Chunk([97], 0, 1, 1), 1, false)] && text[0..1] != [97]
  {
    hide TracedSplit;
    var text: Text := [32, 97];
    assert ProseTrace(text, ONE_BYTE, ByteCount) == TracedSplit(text, 0, 0, SEPARATORS, ONE_BYTE, ByteCount);
    assert text[0..1] == [32] && text[0..1][0] != [97][0];
    WordLevel();
    SpaceAText();
    OnlyASpace();
    Levels();
    hide *;
    PassThrough(text, SENTENCE, [WORD], 0, 0, ONE_BYTE, ByteCount);
    PassThrough(text, LINE, [SENTENCE, WORD], 0, 0, ONE_BYTE, ByteCount);
    PassThrough(text, PARAGRAPH, [LINE, SENTENCE, WORD], 0, 0, ONE_BYTE, ByteCount);
  }
}
