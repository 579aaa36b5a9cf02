/**
 A condition on the text alone under which every offset is exact, for every configuration and
 counter: it does not begin with a separator, and no separator follows another one directly.
 */
module ProseTight {
  import opened Bytes
  import opened Prose
  import opened ProseLayout
  import opened ProseBudget
  import opened ProseDrift
  import opened ProseShape

  const NEWLINE: Byte := 10
  const BLANK: Byte := 32
  const STOP: Byte := 46

  /** A separator begins at `p`. */
  predicate Stops(text: Text, p: nat)
    requires p < |text|
  {
    text[p] == NEWLINE || text[p] == BLANK || (text[p] == STOP && p + 1 < |text| && text[p + 1] == BLANK)
  }

  /** The second line break of an empty line that no third one goes before. */
  predicate EndsParagraph(text: Text, p: nat)
    requires p < |text|
  {
    p >= 2 && text[p] == text[p - 1] == NEWLINE && text[p - 2] != NEWLINE
  }

  /** No separator begins where the text does or where a separator ends; an empty line counts as one. */
  predicate Tight(text: Text) {
    forall p :: 0 <= p < |text| && (p == 0 || text[p - 1] == NEWLINE || text[p - 1] == BLANK) && Stops(text, p) ==>
      EndsParagraph(text, p)
  }

  /** `sep` is separator `n` of the list, and the text holds none of those before it. */
  ghost predicate AtLevel(text: Text, n: nat, sep: Text) {
    n < 4 && sep == SEPARATORS[n] && FreeOf(text, SEPARATORS[..n])
  }

  /** Right behind a separator of the level at hand, no other one begins. */
  lemma NothingStopsBehind(text: Text, n: nat, sep: Text, a: nat)
    requires Tight(text) && AtLevel(text, n, sep) && a < |text|
    requires a == 0 || (a >= |sep| && Holds(text, a - |sep|, sep))
    ensures !Stops(text, a)
  {
    assert n >= 1 ==> SEPARATORS[..n][0] == PARAGRAPH && Index(text, PARAGRAPH) < 0;
    if a > 0 {
      assert text[a - 1] == text[a - |sep|..a][|sep| - 1] == sep[|sep| - 1];
      if n == 0 {
        assert text[a - 2] == text[a - 2..a][0] == NEWLINE;
      } else if n == 1 && text[a] == NEWLINE {
        EmptyLine(text, a);
      }
    }
  }

  lemma EmptyLine(text: Text, a: nat)
    requires 1 <= a < |text| && text[a - 1] == text[a] == NEWLINE
    ensures OccursAt(text, PARAGRAPH, a - 1)
  {
    assert text[a - 1..a + 1] == [NEWLINE, NEWLINE];
  }

  /** Where part `i` begins: at the front, or right behind a separator. */
  lemma PartBegins(parts: seq<Text>, sep: Text, i: nat)
    requires i < |parts|
    ensures var t, a := Join(parts, sep), PositionOf(parts, i, sep);
            && Holds(t, a, parts[i]) && (i + 1 < |parts| ==> Holds(t, a + |parts[i]|, sep))
            && (i == 0 ==> a == 0) && (i > 0 ==> a >= |sep| && Holds(t, a - |sep|, sep))
            && a + |parts[i]| <= |t|
  {
    JoinAt(parts, sep, i);
    assert PositionOf(parts, i, sep) + |parts[i]| <= |Join(parts, sep)|;
    hide Join, Holds;
    if i > 0 { JoinAt(parts, sep, i - 1); }
  }

  /** A piece of a tight text that begins where no separator does is tight. */
  lemma PieceIsTight(text: Text, a: nat, t: Text)
    requires Tight(text) && Holds(text, a, t) && (t != [] ==> !Stops(text, a))
    ensures Tight(t)
  {
    assert forall p :: 0 <= p < |t| ==> t[p] == text[a + p];
    forall p | 0 <= p < |t| && (p == 0 || t[p - 1] == NEWLINE || t[p - 1] == BLANK) && Stops(t, p)
      ensures EndsParagraph(t, p)
    {
      assert Stops(text, a + p);
      assert p != 0;
      assert EndsParagraph(text, a + p);
      assert p != 1;
    }
  }

  /** Splitting a tight text leaves tight parts, none of them empty but perhaps the last. */
  lemma PartIsTight(text: Text, n: nat, sep: Text, parts: seq<Text>, i: nat)
    requires Tight(text) && AtLevel(text, n, sep) && i < |parts| && Join(parts, sep) == text
    ensures Tight(parts[i]) && (i + 1 < |parts| ==> parts[i] != [])
  {
    hide *;
    PartBegins(parts, sep, i);
    var a := PositionOf(parts, i, sep);
    if a < |text| {
      NothingStopsBehind(text, n, sep, a);
      PieceIsTight(text, a, parts[i]);
      if i + 1 < |parts| && parts[i] == [] { SeparatorStops(text, n, sep, a); }
    } else {
      EmptyIsTight(text, n, sep, a, parts[i], i + 1 < |parts|);
    }
  }

  lemma EmptyIsTight(text: Text, n: nat, sep: Text, a: nat, t: Text, more: bool)
    requires AtLevel(text, n, sep) && a >= |text| && a + |t| <= |text| && (more ==> Holds(text, a + |t|, sep))
    ensures Tight(t) && !more
  {
  }

  lemma SeparatorStops(text: Text, n: nat, sep: Text, a: nat)
    requires AtLevel(text, n, sep) && Holds(text, a, sep)
    ensures a < |text| && Stops(text, a)
  {
    assert forall j :: 0 <= j < |sep| ==> text[a + j] == text[a..a + |sep|][j] == sep[j];
  }

  ghost predicate Opened(bufs: seq<Buffer>) {
    forall k :: 0 <= k < |bufs| ==> bufs[k].first != []
  }

  /** Without empty parts but perhaps the last, no buffer that comes to something was opened by one. */
  lemma {:induction false} OpenersAreNotEmpty(parts: seq<Text>, sep: Text, i: nat, cur: Buffer, offset: nat, at: nat,
                                              cfg: Config, count: Counter)
    requires i <= |parts| && forall k :: 0 <= k < |parts| - 1 ==> parts[k] != []
    requires cur.first == [] ==> i == |parts| && cur.text == []
    ensures Opened(Group(parts, sep, i, cur, offset, at, cfg, count))
    decreases |parts| - i
  {
    if i < |parts| {
      var here := PositionOf(parts, i, sep);
      if cur.text != [] && count(cur.text + sep + parts[i]) > cfg.target {
        var next := Buffer(parts[i], offset + here, at + here, parts[i]);
        OpenersAreNotEmpty(parts, sep, i + 1, next, offset, at, cfg, count);
      } else {
        var next := cur.(text := if cur.text == [] then parts[i] else cur.text + sep + parts[i],
                         at := if cur.text == [] then at + here else cur.at);
        OpenersAreNotEmpty(parts, sep, i + 1, next, offset, at, cfg, count);
        JoinStep(parts, sep, i, cur, next, offset, at, cfg, count);
      }
    }
  }

  /** The buffers of a tight text: opened by text, and within the budget or single tight parts. */
  ghost predicate TightBuffers(bufs: seq<Buffer>, n: nat, cfg: Config, count: Counter)
    requires n < 4
  {
    forall k :: 0 <= k < |bufs| ==>
      bufs[k].first != []
        && (count(bufs[k].text) <= cfg.max || (Tight(bufs[k].text) && FreeOf(bufs[k].text, SEPARATORS[..n + 1])))
  }

  ghost predicate TightParts(parts: seq<Text>) {
    parts != [] && parts[0] != []
    && forall i :: 0 <= i < |parts| ==> Tight(parts[i]) && (i + 1 < |parts| ==> parts[i] != [])
  }

  lemma PartsAreTight(text: Text, n: nat, sep: Text, parts: seq<Text>)
    requires Tight(text) && AtLevel(text, n, sep) && text != [] && parts != [] && Join(parts, sep) == text
    ensures TightParts(parts)
  {
    assert |parts| == 1 ==> Join(parts, sep) == parts[0];
    hide Tight, AtLevel, Join;
    forall i | 0 <= i < |parts|
      ensures Tight(parts[i]) && (i + 1 < |parts| ==> parts[i] != [])
    {
      PartIsTight(text, n, sep, parts, i);
    }
  }

  lemma BuffersAreTight(text: Text, n: nat, offset: nat, at: nat, cfg: Config, count: Counter)
    requires cfg.target <= cfg.max && Tight(text) && n < 4 && AtLevel(text, n, SEPARATORS[n]) && !Blank(text)
    ensures TightBuffers(Buffers(text, SEPARATORS[n], offset, at, cfg, count), n, cfg, count)
  {
    var sep := SEPARATORS[n];
    var parts := SplitOn(text, sep);
    assert SEPARATORS[..n + 1] == SEPARATORS[..n] + [sep];
    assert text != [] by { assert Blank([]); }
    PartsAreTight(text, n, sep, parts);
    assert sep != [] && Ascii(sep) && FreeOf(text, SEPARATORS[..n]);
    PartsGood(text, sep, SEPARATORS[..n], false);
    hide FreeOf, Tight, Join, SplitOn, TightParts, GoodParts, Blank;
    TightPartsGroup(parts, sep, offset, at, n, cfg, count);
  }

  lemma TightPartsGroup(parts: seq<Text>, sep: Text, offset: nat, at: nat, n: nat, cfg: Config, count: Counter)
    requires cfg.target <= cfg.max && n < 4 && TightParts(parts) && GoodParts(parts, false, SEPARATORS[..n + 1])
    ensures TightBuffers(Group(parts, sep, 0, Buffer([], offset, at, parts[0]), offset, at, cfg, count), n, cfg, count)
  {
    hide FreeOf, Tight, Group;
    OpenersAreNotEmpty(parts, sep, 0, Buffer([], offset, at, parts[0]), offset, at, cfg, count);
    var bufs := Group(parts, sep, 0, Buffer([], offset, at, parts[0]), offset, at, cfg, count);
    assert parts[0..0] == [];
    GroupGreedy(parts, sep, 0, 0, Buffer([], offset, at, parts[0]), offset, at, cfg, count);
    hide Greedy;
    forall k | 0 <= k < |bufs|
      ensures count(bufs[k].text) <= cfg.target || bufs[k].text in parts
    {
      GreedyFits(TextsOf(bufs), parts, 0, sep, cfg.target, count, k);
    }
  }

  lemma {:induction false} TightNeverDrifts(text: Text, offset: nat, at: nat, n: nat, cfg: Config, count: Counter)
    requires cfg.target <= cfg.max && n <= 4 && AllNonEmpty(SEPARATORS[n..])
    requires count(text) <= cfg.max || (Tight(text) && FreeOf(text, SEPARATORS[..n]))
    ensures !Drifts(text, offset, at, SEPARATORS[n..], cfg, count)
    decreases 4 - n, 1, 0
  {
    hide AnyDrifts, Buffers, FreeOf, Tight;
    if n < 4 && count(text) > cfg.max && !Blank(text) {
      var bufs := Buffers(text, SEPARATORS[n], offset, at, cfg, count);
      BuffersAreTight(text, n, offset, at, cfg, count);
      NoneDrifts(bufs, n, cfg, count);
      assert SEPARATORS[n..][0] == SEPARATORS[n] && SEPARATORS[n..][1..] == SEPARATORS[n + 1..];
    }
  }

  lemma {:induction false} NoneDrifts(bufs: seq<Buffer>, n: nat, cfg: Config, count: Counter)
    requires cfg.target <= cfg.max && n < 4 && AllNonEmpty(SEPARATORS[n + 1..]) && TightBuffers(bufs, n, cfg, count)
    ensures !AnyDrifts(bufs, SEPARATORS[n + 1..], cfg, count)
    decreases 4 - n, 0, |bufs|
  {
    if bufs != [] {
      hide Drifts, Tight, FreeOf;
      TightNeverDrifts(bufs[0].text, bufs[0].start, bufs[0].at, n + 1, cfg, count);
      NoneDrifts(bufs[1..], n, cfg, count);
    }
  }

  /** Every offset of a tight text is exact, whatever the configuration and the counter. */
  lemma TightOffsetsAreExact(text: Text, cfg: Config, count: Counter)
    requires cfg.target <= cfg.max && Tight(text)
    ensures var items := ProseTrace(text, cfg, count);
            forall i :: 0 <= i < |items| ==> items[i].chunk.start == items[i].at
  {
    hide Drifts, ProseTrace, Tight;
    assert SEPARATORS[0..] == SEPARATORS && SEPARATORS[..0] == [];
    TightNeverDrifts(text, 0, 0, 0, cfg, count);
    OffsetsExactIff(text, cfg, count);
  }
}
