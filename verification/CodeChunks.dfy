/** One chunk per symbol, or prose chunks of its body (internal/v3/chunker/ast.go). */
module CodeChunks {
  import opened Bytes
  import opened Utf8
  import opened Prose
  import opened ProseLayout
  import opened ProseBudget
  import opened ProseTheorems
  import opened ProseShape

  datatype Symbol = Symbol(kind: Text, name: Text, start: nat, end: nat, lineStart: int, lineEnd: int, signature: Text)

  datatype CodeChunk = CodeChunk(sym: Symbol, text: Text, start: nat, end: nat, tokens: nat)

  /** The source slice of every symbol exists; Go panics on the slice expression otherwise. */
  predicate InRange(source: Text, syms: seq<Symbol>) {
    forall i :: 0 <= i < |syms| ==> syms[i].start <= syms[i].end <= |source|
  }

  function Body(source: Text, s: Symbol): Text
    requires s.start <= s.end <= |source|
  {
    source[s.start..s.end]
  }

  function Shifted(s: Symbol, c: Chunk): CodeChunk {
    CodeChunk(s, c.text, s.start + c.start, s.start + c.end, c.tokens)
  }

  function ShiftAll(s: Symbol, cs: seq<Chunk>): (out: seq<CodeChunk>)
    ensures |out| == |cs|
    ensures forall i :: 0 <= i < |cs| ==> out[i] == Shifted(s, cs[i])
  {
    if cs == [] then [] else [Shifted(s, cs[0])] + ShiftAll(s, cs[1..])
  }

  function SymbolChunks(source: Text, s: Symbol, cfg: Config, count: Counter): seq<CodeChunk>
    requires cfg.target <= cfg.max + 1 && s.start <= s.end <= |source|
  {
    var body := Body(source, s);
    if count(body) <= cfg.max then [CodeChunk(s, body, s.start, s.end, count(body))]
    else ShiftAll(s, Chunks(ProseTrace(body, cfg, count)))
  }

  function AllSymbolChunks(source: Text, syms: seq<Symbol>, cfg: Config, count: Counter): seq<CodeChunk>
    requires cfg.target <= cfg.max + 1 && InRange(source, syms)
  {
    if syms == [] then []
    else AllSymbolChunks(source, syms[..|syms| - 1], cfg, count) + SymbolChunks(source, syms[|syms| - 1], cfg, count)
  }

  method ChunkCode(source: Text, syms: seq<Symbol>, cfg: Config, count: Counter) returns (out: seq<CodeChunk>)
    requires cfg.target <= cfg.max + 1 && InRange(source, syms)
    ensures out == AllSymbolChunks(source, syms, cfg, count)
    ensures SymbolsCovered(source, syms, out, cfg, count)
  {
    hide SymbolsCovered;
    out := [];
    for i := 0 to |syms|
      invariant out == AllSymbolChunks(source, syms[..i], cfg, count)
    {
      hide SymbolChunks;
      var own := ChunkSymbol(source, syms[i], cfg, count);
      assert syms[..i + 1][..i] == syms[..i];
      out := out + own;
    }
    assert syms[..|syms|] == syms;
    NoSymbolIsLost(source, syms, cfg, count);
  }

  lemma SymbolChunksAre(source: Text, s: Symbol, cfg: Config, count: Counter)
    requires cfg.target <= cfg.max + 1 && s.start <= s.end <= |source|
    ensures var body := source[s.start..s.end];
            && SymbolChunks(source, s, cfg, count) ==
               (if count(body) <= cfg.max then [CodeChunk(s, body, s.start, s.end, count(body))]
                else ShiftAll(s, Chunks(ProseTrace(body, cfg, count))))
            && forall c :: Shifted(s, c) == CodeChunk(s, c.text, s.start + c.start, s.start + c.end, c.tokens)
  {
  }

  /** One turn of the symbol loop. */
  method ChunkSymbol(source: Text, s: Symbol, cfg: Config, count: Counter) returns (out: seq<CodeChunk>)
    requires cfg.target <= cfg.max + 1 && s.start <= s.end <= |source|
    ensures out == SymbolChunks(source, s, cfg, count)
  {
    SymbolChunksAre(source, s, cfg, count);
    hide *;
    var body := source[s.start..s.end];
    var toks := count(body);
    if toks <= cfg.max {
      return [CodeChunk(s, body, s.start, s.end, toks)];
    }
    var subs := ChunkProse(body, cfg, count);
    out := ShiftChunks(s, subs);
  }

  /** The inner loop: prose chunks of a symbol's body, moved to where the symbol stands. */
  method ShiftChunks(s: Symbol, subs: seq<Chunk>) returns (out: seq<CodeChunk>)
    ensures out == ShiftAll(s, subs)
  {
    ghost var all := ShiftAll(s, subs);
    hide ShiftAll;
    out := [];
    for j := 0 to |subs|
      invariant |all| == |subs| && out == all[0..j]
    {
      var c := subs[j];
      OneLonger(all, 0, j);
      out := out + [CodeChunk(s, c.text, s.start + c.start, s.start + c.end, c.tokens)];
    }
    assert all[0..|subs|] == all;
  }

  /**
   The range of a chunk is inside its own symbol's, and its text stands in the source, inside the
   symbol, at or after the reported start; a symbol within the budget is exactly one exact slice.
   */
  ghost predicate InsideSymbol(source: Text, c: CodeChunk, cfg: Config, count: Counter) {
    && c.sym.start <= c.start && c.end == c.start + |c.text| <= c.sym.end <= |source|
    && (exists at :: c.start <= at && at + |c.text| <= c.sym.end && Holds(source, at, c.text))
    && (count(Body(source, c.sym)) <= cfg.max ==>
      c.start == c.sym.start && c.end == c.sym.end && c.text == Body(source, c.sym))
  }

  lemma SymbolChunksInside(source: Text, s: Symbol, cfg: Config, count: Counter, i: nat)
    requires cfg.target <= cfg.max + 1 && s.start <= s.end <= |source| && i < |SymbolChunks(source, s, cfg, count)|
    ensures SymbolChunks(source, s, cfg, count)[i].sym == s
    ensures InsideSymbol(source, SymbolChunks(source, s, cfg, count)[i], cfg, count)
  {
    hide ProseTrace;
    var body := Body(source, s);
    var c := SymbolChunks(source, s, cfg, count)[i];
    if count(body) <= cfg.max {
      assert Holds(source, s.start, c.text);
    } else {
      ChunkOffset(body, cfg, count, i);
      var it := ProseTrace(body, cfg, count)[i];
      HoldsInside(source, s.start, body, it.at, it.chunk.text);
    }
  }

  lemma {:induction false} CodeChunksInside(source: Text, syms: seq<Symbol>, cfg: Config, count: Counter, i: nat)
    requires cfg.target <= cfg.max + 1 && InRange(source, syms) && i < |AllSymbolChunks(source, syms, cfg, count)|
    ensures AllSymbolChunks(source, syms, cfg, count)[i].sym in syms
    ensures InsideSymbol(source, AllSymbolChunks(source, syms, cfg, count)[i], cfg, count)
  {
    hide SymbolChunks, InsideSymbol;
    var n := |syms| - 1;
    var front := AllSymbolChunks(source, syms[..n], cfg, count);
    if i < |front| {
      CodeChunksInside(source, syms[..n], cfg, count, i);
    } else {
      SymbolChunksInside(source, syms[n], cfg, count, i - |front|);
    }
  }

  // ---------------------------------------------------------------- nothing is lost

  function TextsIn(own: seq<CodeChunk>): (texts: seq<Text>)
    ensures |texts| == |own| && forall i :: 0 <= i < |own| ==> texts[i] == own[i].text
  {
    seq(|own|, i requires 0 <= i < |own| => own[i].text)
  }

  /**
   The chunks of one symbol: they cover its source slice, in order and without overlap. A symbol within the budget
   is one chunk; any other is cut up as prose is, so all of it that is not white space or a separator is in a chunk.
   */
  ghost predicate OfSymbol(source: Text, s: Symbol, own: seq<CodeChunk>, cfg: Config, count: Counter)
    requires s.start <= s.end <= |source|
  {
    && (forall i :: 0 <= i < |own| ==> own[i].sym == s && InsideSymbol(source, own[i], cfg, count))
    && (cfg.target <= cfg.max ==> forall i :: 0 <= i < |own| ==> own[i].tokens == count(own[i].text))
    && (forall i, j :: 0 <= i < j < |own| ==> own[i].end <= own[j].start)
    && Covers(source[s.start..s.end], TextsIn(own))
    && (if count(source[s.start..s.end]) <= cfg.max then |own| == 1
        else Shaped(TextsIn(own), source[s.start..s.end], SEPARATORS, cfg, count))
  }

  /** The chunks come symbol by symbol, in the order of the symbols. */
  ghost predicate SymbolsCovered(source: Text, syms: seq<Symbol>, out: seq<CodeChunk>, cfg: Config, count: Counter)
    requires InRange(source, syms)
  {
    exists groups: seq<seq<CodeChunk>> ::
      |groups| == |syms| && Concat(groups) == out
        && forall k :: 0 <= k < |syms| ==> OfSymbol(source, syms[k], groups[k], cfg, count)
  }

  lemma SliceCovered(t: Text)
    ensures Covers(t, [t])
  {
    var gaps: seq<Text> := [[], []];
    assert [t][1..] == [] && gaps[1..] == [[]];
    assert Weave(gaps, [t]) == t;
    assert forall i :: 0 <= i < |gaps| ==> Gap(gaps[i]);
  }

  lemma TokensCounted(text: Text, cfg: Config, count: Counter)
    requires cfg.target <= cfg.max
    ensures var items := ProseTrace(text, cfg, count);
            forall i :: 0 <= i < |items| ==> items[i].chunk.tokens == count(items[i].chunk.text)
  {
    hide ProseTrace, Valid, FreeOf, FromCut;
    ChunksAreSound(text, cfg, count);
  }

  lemma SymbolIsCovered(source: Text, s: Symbol, cfg: Config, count: Counter)
    requires cfg.target <= cfg.max + 1 && s.start <= s.end <= |source|
    ensures OfSymbol(source, s, SymbolChunks(source, s, cfg, count), cfg, count)
  {
    var own := SymbolChunks(source, s, cfg, count);
    var body := Body(source, s);
    forall i | 0 <= i < |own|
      ensures own[i].sym == s && InsideSymbol(source, own[i], cfg, count)
    {
      SymbolChunksInside(source, s, cfg, count, i);
    }
    hide InsideSymbol, ProseTrace, Shaped;
    if count(body) <= cfg.max {
      SliceCovered(body);
      assert TextsIn(own) == [body];
    } else {
      var items := ProseTrace(body, cfg, count);
      assert TextsIn(own) == ChunkTexts(items);
      ChunkingLosesOnlySeparators(body, cfg, count);
      ChunksAreShaped(body, cfg, count);
      if cfg.target <= cfg.max { TokensCounted(body, cfg, count); }
      forall i, j | 0 <= i < j < |own|
        ensures own[i].end <= own[j].start
      {
        ChunksInOrder(body, cfg, count, i, j);
      }
    }
  }

  lemma {:induction false} NoSymbolIsLost(source: Text, syms: seq<Symbol>, cfg: Config, count: Counter)
    requires cfg.target <= cfg.max + 1 && InRange(source, syms)
    ensures SymbolsCovered(source, syms, AllSymbolChunks(source, syms, cfg, count), cfg, count)
  {
    hide SymbolChunks, OfSymbol;
    if syms == [] {
      var none: seq<seq<CodeChunk>> := [];
      assert Concat(none) == [];
    } else {
      var n := |syms| - 1;
      NoSymbolIsLost(source, syms[..n], cfg, count);
      var groups: seq<seq<CodeChunk>> :|
        |groups| == n && Concat(groups) == AllSymbolChunks(source, syms[..n], cfg, count)
        && forall k :: 0 <= k < n ==> OfSymbol(source, syms[..n][k], groups[k], cfg, count);
      var own := SymbolChunks(source, syms[n], cfg, count);
      SymbolIsCovered(source, syms[n], cfg, count);
      ConcatAppend(groups, [own]);
      ConcatOne(own);
      var more := groups + [own];
      forall k | 0 <= k < |syms|
        ensures OfSymbol(source, syms[k], more[k], cfg, count)
      {
        if k < n { assert syms[k] == syms[..n][k]; }
      }
    }
  }
}
