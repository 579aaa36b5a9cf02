/**
 The BERT tokenizer (berttok.go): added tokens are cut out of the raw text, every gap is
 normalized and cut into words and punctuation, every word is spelled greedily from the
 vocabulary, and the result is framed to the model's fixed length. Strings are sequences
 of runes; the character classes and the normalizer are parameters.
 */
module BertTok {
  import opened Bytes

  type Rune = int
  type Runes = seq<Rune>

  datatype Added = Added(content: Runes, id: int)

  datatype Tokenizer = Tokenizer(
    vocab: map<Runes, int>, added: seq<Added>,
    cls: int, sep: int, unk: int, pad: int,
    contPrefix: Runes, maxInputChar: int, maxSeqLen: int,
    normalize: Runes -> Runes, isSpace: Rune -> bool, isPunct: Rune -> bool)

  datatype Segment = Plain(text: Runes) | Special(id: int)

  const BLANK: Rune := 32

  /** What New guarantees and Encode relies on: no empty added token, a blank is a space, room for the frame. */
  ghost predicate Valid(t: Tokenizer) {
    NoEmptyToken(t.added) && t.isSpace(BLANK) && t.maxSeqLen >= 2
  }

  ghost predicate NoEmptyToken(added: seq<Added>) {
    forall i :: 0 <= i < |added| ==> added[i].content != []
  }

  // ---------------------------------------------------------------- added tokens

  /** No added token starts in the first n runes of `rest`. */
  ghost predicate NoneBefore(added: seq<Added>, rest: Runes, n: int) {
    forall i, k :: 0 <= i < |added| && OccursAt(rest, added[i].content, k) ==> k >= n
  }

  /** Token i is at the front of `rest`, no token there is longer, and none as long is listed before it. */
  ghost predicate Chosen(added: seq<Added>, rest: Runes, i: int) {
    && 0 <= i < |added| && added[i].content <= rest
    && forall j :: 0 <= j < |added| && added[j].content <= rest ==>
         |added[j].content| <= |added[i].content| && (|added[j].content| == |added[i].content| ==> i <= j)
  }

  /** The segment standing at the front of `rest` and spelled `s`. */
  ghost predicate Fits(added: seq<Added>, rest: Runes, seg: Segment, s: Runes) {
    match seg
    case Plain(text) => text == s && s != [] && NoneBefore(added, rest, |s|)
    case Special(id) => exists i :: Chosen(added, rest, i) && added[i].id == id && added[i].content == s
  }

  /** The segments spell the text, each fits where it stands, and no gap follows a gap. */
  ghost predicate Segmented(added: seq<Added>, text: Runes, segs: seq<Segment>, spelled: seq<Runes>) {
    && |segs| == |spelled| && Concat(spelled) == text
    && forall i :: 0 <= i < |segs| ==>
         Fits(added, Concat(spelled[i..]), segs[i], spelled[i])
           && (segs[i].Plain? && i + 1 < |segs| ==> segs[i + 1].Special?)
  }

  /** The split of a whole text; without added tokens it is the text itself, even an empty one. */
  ghost predicate IsSplit(added: seq<Added>, text: Runes, segs: seq<Segment>, spelled: seq<Runes>) {
    if added == [] then segs == [Plain(text)] && spelled == [text] else Segmented(added, text, segs, spelled)
  }

  ghost predicate Splits(added: seq<Added>, text: Runes, segs: seq<Segment>) {
    exists spelled :: IsSplit(added, text, segs, spelled)
  }

  /** The state of the search for the next added token after the first n tokens of the list. */
  ghost predicate BestOf(added: seq<Added>, text: Runes, n: int, at: int, best: int)
    requires 0 <= n <= |added|
  {
    if at < 0 then forall j, k :: 0 <= j < n ==> !OccursAt(text, added[j].content, k)
    else
      && 0 <= best < n && OccursAt(text, added[best].content, at)
      && (forall j, k :: 0 <= j < n && OccursAt(text, added[j].content, k) ==> k >= at)
      && (forall j :: 0 <= j < n && OccursAt(text, added[j].content, at) ==>
           |added[j].content| <= |added[best].content| && (|added[j].content| == |added[best].content| ==> best <= j))
  }

  method FindNext(added: seq<Added>, text: Runes) returns (at: int, best: int)
    requires NoEmptyToken(added)
    ensures -1 <= at && BestOf(added, text, |added|, at, best)
    ensures at >= 0 ==> 0 <= best < |added| && 0 < |added[best].content| <= |text| - at
  {
    at, best := -1, 0;
    for n := 0 to |added|
      invariant -1 <= at && BestOf(added, text, n, at, best)
    {
      var idx := Index(text, added[n].content);
      if idx >= 0 && (at == -1 || idx < at || (idx == at && |added[n].content| > |added[best].content|)) {
        at, best := idx, n;
      }
    }
  }

  method SplitOnAddedTokens(t: Tokenizer, text: Runes) returns (segs: seq<Segment>, ghost spelled: seq<Runes>)
    requires NoEmptyToken(t.added)
    ensures IsSplit(t.added, text, segs, spelled)
    ensures Splits(t.added, text, segs)
  {
    if |t.added| == 0 {
      assert IsSplit(t.added, text, [Plain(text)], [text]);
      return [Plain(text)], [text];
    }
    segs, spelled := [], [];
    var rest := text;
    assert [] + text == text;
    assert Progress(t.added, text, rest, segs, spelled);
    hide *;
    while rest != []
      invariant Progress(t.added, text, rest, segs, spelled)
      decreases |rest|
    {
      var at, best := FindNext(t.added, rest);
      if at == -1 {
        LastGap(t.added, text, rest, segs, spelled, best);
        segs, spelled := segs + [Plain(rest)], spelled + [rest];
        rest := [];
        break;
      }
      var size := |t.added[best].content|;
      NextToken(t.added, text, rest, segs, spelled, at, best);
      if at > 0 {
        segs, spelled := segs + [Plain(rest[..at])], spelled + [rest[..at]];
      }
      segs, spelled := segs + [Special(t.added[best].id)], spelled + [t.added[best].content];
      rest := rest[at + size..];
    }
    AllSplit(t.added, text, segs, spelled);
  }

  /** What is done so far fits, given the text still to come. */
  ghost predicate AllFit(added: seq<Added>, rest: Runes, segs: seq<Segment>, spelled: seq<Runes>) {
    && |segs| == |spelled|
    && forall i :: 0 <= i < |segs| ==>
         Fits(added, Concat(spelled[i..]) + rest, segs[i], spelled[i])
           && (segs[i].Plain? && i + 1 < |segs| ==> segs[i + 1].Special?)
  }

  /** The loop's invariant: only a finished text ends in a gap. */
  ghost predicate Progress(added: seq<Added>, text: Runes, rest: Runes, segs: seq<Segment>, spelled: seq<Runes>) {
    && AllFit(added, rest, segs, spelled) && Concat(spelled) + rest == text
    && (rest != [] && segs != [] ==> segs[|segs| - 1].Special?)
  }

  /** One segment more. */
  lemma Append(added: seq<Added>, text: Runes, rest: Runes, segs: seq<Segment>, spelled: seq<Runes>, seg: Segment,
               s: Runes, rest': Runes)
    requires AllFit(added, rest, segs, spelled) && Concat(spelled) + rest == text && rest == s + rest'
    requires Fits(added, rest, seg, s) && (segs != [] && segs[|segs| - 1].Plain? ==> seg.Special?)
    ensures AllFit(added, rest', segs + [seg], spelled + [s]) && Concat(spelled + [s]) + rest' == text
  {
    hide Fits, Concat;
    Regroup(spelled, s, rest');
    forall i | 0 <= i <= |segs|
      ensures Fits(added, Concat((spelled + [s])[i..]) + rest', (segs + [seg])[i], (spelled + [s])[i])
    {
      if i < |segs| {
        assert (spelled + [s])[i..] == spelled[i..] + [s];
        Regroup(spelled[i..], s, rest');
      } else {
        assert (spelled + [s])[i..] == [s];
        ConcatOne(s);
      }
    }
  }

  lemma Regroup(spelled: seq<Runes>, s: Runes, rest: Runes)
    ensures Concat(spelled + [s]) + rest == Concat(spelled) + (s + rest)
  {
    ConcatOne(s);
    ConcatAppend(spelled, [s]);
    assert Concat(spelled) + s + rest == Concat(spelled) + (s + rest);
  }

  lemma LastGap(added: seq<Added>, text: Runes, rest: Runes, segs: seq<Segment>, spelled: seq<Runes>, best: int)
    requires Progress(added, text, rest, segs, spelled) && rest != [] && BestOf(added, rest, |added|, -1, best)
    ensures Progress(added, text, [], segs + [Plain(rest)], spelled + [rest])
  {
    assert rest == rest + [];
    assert Fits(added, rest, Plain(rest), rest);
    Append(added, text, rest, segs, spelled, Plain(rest), rest, []);
  }

  lemma NextToken(added: seq<Added>, text: Runes, rest: Runes, segs: seq<Segment>, spelled: seq<Runes>, at: nat,
                  best: int)
    requires Progress(added, text, rest, segs, spelled) && rest != [] && BestOf(added, rest, |added|, at, best)
    ensures var tok := added[best];
            var segs' := (if at > 0 then segs + [Plain(rest[..at])] else segs) + [Special(tok.id)];
            var spelled' := (if at > 0 then spelled + [rest[..at]] else spelled) + [tok.content];
            Progress(added, text, rest[at + |tok.content|..], segs', spelled')
  {
    var tok := added[best];
    var tail := rest[at..];
    var after := rest[at + |tok.content|..];
    assert rest == rest[..at] + tail && tail == tok.content + after;
    ChosenAt(added, rest, at, best);
    assert Fits(added, tail, Special(tok.id), tok.content);
    if at > 0 {
      assert Fits(added, rest, Plain(rest[..at]), rest[..at]);
      Append(added, text, rest, segs, spelled, Plain(rest[..at]), rest[..at], tail);
      Append(added, text, tail, segs + [Plain(rest[..at])], spelled + [rest[..at]], Special(tok.id), tok.content,
             after);
    } else {
      assert tail == rest;
      Append(added, text, rest, segs, spelled, Special(tok.id), tok.content, after);
    }
  }

  lemma ChosenAt(added: seq<Added>, rest: Runes, at: nat, best: int)
    requires BestOf(added, rest, |added|, at, best)
    ensures at <= |rest| && Chosen(added, rest[at..], best)
  {
    forall j | 0 <= j < |added|
      ensures added[j].content <= rest[at..] <==> OccursAt(rest, added[j].content, at)
    {
      var c := added[j].content;
      if at + |c| <= |rest| { assert rest[at..][..|c|] == rest[at..at + |c|]; }
    }
  }

  lemma AllSplit(added: seq<Added>, text: Runes, segs: seq<Segment>, spelled: seq<Runes>)
    requires Progress(added, text, [], segs, spelled) && added != []
    ensures IsSplit(added, text, segs, spelled) && Splits(added, text, segs)
  {
    hide Fits;
    assert forall s: Runes :: s + [] == s;
  }

  /** An added token never occurs inside a gap. */
  lemma NoTokenInGap(added: seq<Added>, text: Runes, segs: seq<Segment>, spelled: seq<Runes>, g: int, i: int, k: int)
    requires NoEmptyToken(added) && IsSplit(added, text, segs, spelled)
    requires 0 <= g < |segs| && segs[g].Plain? && 0 <= i < |added|
    ensures !OccursAt(segs[g].text, added[i].content, k)
  {
    var rest := Concat(spelled[g..]);
    assert Fits(added, rest, segs[g], spelled[g]);
    assert rest == spelled[g] + Concat(spelled[g..][1..]);
    if OccursAt(spelled[g], added[i].content, k) {
      assert rest[k..k + |added[i].content|] == spelled[g][k..k + |added[i].content|];
      assert OccursAt(rest, added[i].content, k);
    }
  }

  /** The front segment is determined by the text: leftmost, then longest, then first listed. */
  lemma FrontIsUnique(added: seq<Added>, text: Runes, a: seq<Segment>, sa: seq<Runes>, b: seq<Segment>, sb: seq<Runes>)
    requires NoEmptyToken(added) && Segmented(added, text, a, sa) && Segmented(added, text, b, sb) && a != [] && b != []
    ensures a[0] == b[0] && sa[0] == sb[0]
  {
    assert sa[0..] == sa && sb[0..] == sb;
    assert Fits(added, text, a[0], sa[0]) && Fits(added, text, b[0], sb[0]);
    if a[0].Special? && b[0].Special? {
      var i :| Chosen(added, text, i) && added[i].id == a[0].id && added[i].content == sa[0];
      var j :| Chosen(added, text, j) && added[j].id == b[0].id && added[j].content == sb[0];
      assert i == j;
    } else if a[0].Special? {
      TokenInFront(added, text, a, sa, 0);
    } else if b[0].Special? {
      TokenInFront(added, text, b, sb, 0);
    } else {
      GapEnds(added, text, a, sa, b, sb);
      GapEnds(added, text, b, sb, a, sa);
      assert sa[0] == text[..|sa[0]|] && sb[0] == text[..|sb[0]|];
    }
  }

  /** A special segment is an occurrence of its token where it stands. */
  lemma TokenInFront(added: seq<Added>, text: Runes, segs: seq<Segment>, spelled: seq<Runes>, g: int)
    requires Segmented(added, text, segs, spelled) && 0 <= g < |segs| && segs[g].Special?
    ensures exists i :: 0 <= i < |added| && OccursAt(Concat(spelled[g..]), added[i].content, 0)
  {
    var rest := Concat(spelled[g..]);
    assert Fits(added, rest, segs[g], spelled[g]);
    var i :| Chosen(added, rest, i) && added[i].id == segs[g].id && added[i].content == spelled[g];
    assert OccursAt(rest, added[i].content, 0);
  }

  lemma GapEnds(added: seq<Added>, text: Runes, a: seq<Segment>, sa: seq<Runes>, b: seq<Segment>, sb: seq<Runes>)
    requires Segmented(added, text, a, sa) && Segmented(added, text, b, sb) && a != [] && b != [] && a[0].Plain?
        && b[0].Plain?
    ensures |sb[0]| <= |sa[0]|
  {
    assert sa[0..] == sa && sb[0..] == sb;
    assert Fits(added, text, b[0], sb[0]);
    assert text == sa[0] + Concat(sa[1..]) && text == sb[0] + Concat(sb[1..]);
    if |a| > 1 {
      TokenInFront(added, text, a, sa, 1);
      var tail := Concat(sa[1..]);
      var i :| 0 <= i < |added| && OccursAt(tail, added[i].content, 0);
      var n := |added[i].content|;
      assert text[|sa[0]|..|sa[0]| + n] == tail[0..n];
      assert OccursAt(text, added[i].content, |sa[0]|);
    } else {
      assert sa[1..] == [];
    }
  }

  /** A text splits in exactly one way, so the split does not depend on the search that found it. */
  lemma {:induction false} SplitIsUnique(added: seq<Added>, text: Runes, a: seq<Segment>, sa: seq<Runes>,
                                         b: seq<Segment>, sb: seq<Runes>)
    requires NoEmptyToken(added) && IsSplit(added, text, a, sa) && IsSplit(added, text, b, sb)
    ensures a == b && sa == sb
    decreases |a|
  {
    hide Fits;
    if added != [] {
      if a == [] || b == [] {
        EmptySplit(added, text, a, sa);
        EmptySplit(added, text, b, sb);
      } else {
        FrontIsUnique(added, text, a, sa, b, sb);
        RestOfSplit(added, text, a, sa);
        RestOfSplit(added, text, b, sb);
        assert text == sa[0] + Concat(sa[1..]) && text == sb[0] + Concat(sb[1..]);
        assert Concat(sa[1..]) == text[|sa[0]|..] == Concat(sb[1..]);
        SplitIsUnique(added, Concat(sa[1..]), a[1..], sa[1..], b[1..], sb[1..]);
        assert a == [a[0]] + a[1..] && b == [b[0]] + b[1..] && sa == [sa[0]] + sa[1..] && sb == [sb[0]] + sb[1..];
      }
    }
  }

  lemma EmptySplit(added: seq<Added>, text: Runes, segs: seq<Segment>, spelled: seq<Runes>)
    requires NoEmptyToken(added) && Segmented(added, text, segs, spelled)
    ensures text == [] <==> segs == []
  {
    if segs != [] {
      assert spelled[0..] == spelled;
      assert Fits(added, text, segs[0], spelled[0]);
      assert spelled[0] != [];
      assert text == spelled[0] + Concat(spelled[1..]);
    }
  }

  lemma RestOfSplit(added: seq<Added>, text: Runes, segs: seq<Segment>, spelled: seq<Runes>)
    requires Segmented(added, text, segs, spelled) && segs != []
    ensures Segmented(added, Concat(spelled[1..]), segs[1..], spelled[1..])
  {
    hide Fits;
    forall i | 0 <= i < |segs| - 1
      ensures Fits(added, Concat(spelled[1..][i..]), segs[1..][i], spelled[1..][i])
    {
      assert spelled[1..][i..] == spelled[i + 1..];
    }
  }

  // ---------------------------------------------------------------- words and punctuation

  predicate Ordinary(t: Tokenizer, r: Rune) {
    !t.isSpace(r) && !t.isPunct(r)
  }

  /** The number of ordinary runes in front. */
  function Run(t: Tokenizer, s: Runes): (n: nat)
    ensures n <= |s|
    ensures forall i :: 0 <= i < n ==> Ordinary(t, s[i])
    ensures n < |s| ==> !Ordinary(t, s[n])
  {
    if s == [] || !Ordinary(t, s[0]) then 0 else 1 + Run(t, s[1..])
  }

  /**
   The tokens of a text, read off in one pass: spaces are skipped, punctuation stands alone, the rest goes in runs.
   */
  function Tokens(t: Tokenizer, s: Runes): seq<Runes>
    decreases |s|
  {
    if s == [] then []
    else if t.isSpace(s[0]) then Tokens(t, s[1..])
    else if t.isPunct(s[0]) then [[s[0]]] + Tokens(t, s[1..])
    else [s[..Run(t, s)]] + Tokens(t, s[Run(t, s)..])
  }

  /** A run of ordinary runes up to something else is one token. */
  lemma RunToken(t: Tokenizer, run: Runes, rest: Runes)
    requires run != [] && (forall i :: 0 <= i < |run| ==> Ordinary(t, run[i])) && (rest != [] ==> !Ordinary(t, rest[0]))
    ensures Tokens(t, run + rest) == [run] + Tokens(t, rest)
  {
    var s := run + rest;
    var n := Run(t, s);
    assert Ordinary(t, s[0]);
    assert forall i :: 0 <= i < |run| ==> s[i] == run[i];
    assert rest != [] ==> s[|run|] == rest[0];
    assert s[..n] == run && s[n..] == rest;
  }

  /** The leading non-space runes. */
  function WordLength(t: Tokenizer, s: Runes): (n: nat)
    ensures n <= |s|
    ensures forall i :: 0 <= i < n ==> !t.isSpace(s[i])
    ensures n < |s| ==> t.isSpace(s[n])
  {
    if s == [] || t.isSpace(s[0]) then 0 else 1 + WordLength(t, s[1..])
  }

  /** strings.Fields. */
  function Fields(t: Tokenizer, s: Runes): (words: seq<Runes>)
    ensures forall w :: w in words ==> forall i :: 0 <= i < |w| ==> !t.isSpace(w[i])
    decreases |s|
  {
    if s == [] then []
    else if t.isSpace(s[0]) then Fields(t, s[1..])
    else [s[..WordLength(t, s)]] + Fields(t, s[WordLength(t, s)..])
  }

  method SplitOnPunct(t: Tokenizer, word: Runes) returns (out: seq<Runes>)
    requires forall i :: 0 <= i < |word| ==> !t.isSpace(word[i])
    ensures out == Tokens(t, word)
  {
    hide Tokens;
    out := [];
    var cur: Runes := [];
    assert [] + word[0..] == word;
    for i := 0 to |word|
      invariant Tokens(t, word) == out + Tokens(t, cur + word[i..])
      invariant forall k :: 0 <= k < |cur| ==> Ordinary(t, cur[k])
    {
      var r := word[i];
      assert word[i..] == [r] + word[i + 1..];
      if t.isPunct(r) {
        if |cur| > 0 {
          RunToken(t, cur, word[i..]);
          out := out + [cur];
          cur := [];
        }
        assert [] + word[i..] == word[i..] && [] + word[i + 1..] == word[i + 1..];
        PunctToken(t, r, word[i + 1..]);
        out := out + [[r]];
      } else {
        assert cur + word[i..] == (cur + [r]) + word[i + 1..];
        cur := cur + [r];
      }
    }
    assert cur + word[|word|..] == cur + [] == cur;
    NoToken(t);
    if |cur| > 0 {
      RunToken(t, cur, []);
      out := out + [cur];
    }
  }

  lemma PunctToken(t: Tokenizer, r: Rune, rest: Runes)
    requires t.isPunct(r) && !t.isSpace(r)
    ensures Tokens(t, [r] + rest) == [[r]] + Tokens(t, rest)
  {
    assert ([r] + rest)[1..] == rest;
  }

  lemma NoToken(t: Tokenizer)
    ensures Tokens(t, []) == []
  {
  }

  /** A space ends a token, so texts split there split into their tokens. */
  lemma {:induction false} TokensAtSpace(t: Tokenizer, a: Runes, b: Runes)
    requires b != [] ==> t.isSpace(b[0])
    ensures Tokens(t, a + b) == Tokens(t, a) + Tokens(t, b)
    decreases |a|
  {
    var s := a + b;
    if a == [] {
      assert s == b;
    } else if !Ordinary(t, a[0]) {
      assert s[1..] == a[1..] + b;
      TokensAtSpace(t, a[1..], b);
    } else {
      var n := Run(t, a);
      assert a == a[..n] + a[n..] && s == a[..n] + (a[n..] + b);
      RunToken(t, a[..n], a[n..] + b);
      TokensAtSpace(t, a[n..], b);
    }
  }

  lemma {:induction false} TokensByField(t: Tokenizer, s: Runes)
    ensures Tokens(t, s) == ByField(t, Fields(t, s))
    decreases |s|
  {
    if s != [] {
      if t.isSpace(s[0]) {
        TokensByField(t, s[1..]);
      } else {
        var n := WordLength(t, s);
        assert s == s[..n] + s[n..];
        TokensAtSpace(t, s[..n], s[n..]);
        TokensByField(t, s[n..]);
        assert Fields(t, s)[1..] == Fields(t, s[n..]);
      }
    }
  }

  function ByField(t: Tokenizer, words: seq<Runes>): seq<Runes> {
    if words == [] then [] else Tokens(t, words[0]) + ByField(t, words[1..])
  }

  method BasicTokenize(t: Tokenizer, s: Runes) returns (out: seq<Runes>)
    ensures out == Tokens(t, s)
  {
    out := [];
    var words := Fields(t, s);
    TokensByField(t, s);
    for i := 0 to |words|
      invariant Tokens(t, s) == out + ByField(t, words[i..])
    {
      assert words[i..][1..] == words[i + 1..];
      assert words[i] in words;
      var tokens := SplitOnPunct(t, words[i]);
      out := out + tokens;
    }
  }

  /** A token: one punctuation rune, or a run of ordinary runes. */
  predicate IsToken(t: Tokenizer, w: Runes) {
    && w != [] && (forall i :: 0 <= i < |w| ==> !t.isSpace(w[i]))
    && ((|w| == 1 && t.isPunct(w[0])) || forall i :: 0 <= i < |w| ==> !t.isPunct(w[i]))
  }

  function NonSpace(t: Tokenizer, s: Runes): Runes {
    if s == [] then [] else (if t.isSpace(s[0]) then [] else [s[0]]) + NonSpace(t, s[1..])
  }

  lemma {:induction false} NonSpaceRun(t: Tokenizer, s: Runes, n: nat)
    requires n <= |s| && forall i :: 0 <= i < n ==> !t.isSpace(s[i])
    ensures NonSpace(t, s) == s[..n] + NonSpace(t, s[n..])
  {
    if n > 0 {
      NonSpaceRun(t, s[1..], n - 1);
      assert s[1..][n - 1..] == s[n..] && s[..n] == [s[0]] + s[1..][..n - 1];
    } else {
      assert s[0..] == s;
    }
  }

  /** Tokens are well formed and together hold every non-space rune of the text, in order. */
  lemma {:induction false} TokensKeepRunes(t: Tokenizer, s: Runes)
    ensures forall w :: w in Tokens(t, s) ==> IsToken(t, w)
    ensures Concat(Tokens(t, s)) == NonSpace(t, s)
    decreases |s|
  {
    if s != [] {
      if !Ordinary(t, s[0]) {
        TokensKeepRunes(t, s[1..]);
        if !t.isSpace(s[0]) { assert Tokens(t, s)[1..] == Tokens(t, s[1..]); }
      } else {
        var n := Run(t, s);
        TokensKeepRunes(t, s[n..]);
        NonSpaceRun(t, s, n);
        assert Tokens(t, s)[1..] == Tokens(t, s[n..]);
      }
    }
  }

  /** strings.Join with a blank. */
  function JoinBlank(words: seq<Runes>): Runes {
    if words == [] then [] else if |words| == 1 then words[0] else words[0] + [BLANK] + JoinBlank(words[1..])
  }

  /** Tokens joined with blanks and tokenized again are the same tokens. */
  lemma {:induction false} Retokenize(t: Tokenizer, words: seq<Runes>)
    requires t.isSpace(BLANK) && forall w :: w in words ==> IsToken(t, w)
    ensures Tokens(t, JoinBlank(words)) == words
  {
    if words != [] {
      var w := words[0];
      assert IsToken(t, w);
      OneToken(t, w);
      if |words| > 1 {
        var tail := [BLANK] + JoinBlank(words[1..]);
        assert JoinBlank(words) == w + tail;
        TokensAtSpace(t, w, tail);
        assert tail[1..] == JoinBlank(words[1..]);
        Retokenize(t, words[1..]);
      }
      assert words == [w] + words[1..];
    }
  }

  lemma OneToken(t: Tokenizer, w: Runes)
    requires IsToken(t, w)
    ensures Tokens(t, w) == [w]
  {
    if t.isPunct(w[0]) {
      assert w == [w[0]] && w[1..] == [];
    } else {
      RunToken(t, w, []);
      assert w + [] == w;
    }
  }

  /** basicTokenize is a fixed point of joining with blanks and tokenizing again. */
  lemma TokenizeIsStable(t: Tokenizer, s: Runes)
    requires t.isSpace(BLANK)
    ensures Tokens(t, JoinBlank(Tokens(t, s))) == Tokens(t, s)
  {
    TokensKeepRunes(t, s);
    Retokenize(t, Tokens(t, s));
  }

  // ---------------------------------------------------------------- WordPiece

  /** The vocabulary key of word[start..end]: past the front it carries the continuation prefix. */
  function Piece(t: Tokenizer, word: Runes, start: nat, end: nat): Runes
    requires start <= end <= |word|
  {
    if start > 0 then t.contPrefix + word[start..end] else word[start..end]
  }

  predicate Known(t: Tokenizer, word: Runes, start: nat, end: nat)
    requires start <= end <= |word|
  {
    Piece(t, word, start, end) in t.vocab
  }

  /** The piece from start to end is in the vocabulary and no longer one is. */
  predicate Longest(t: Tokenizer, word: Runes, start: nat, end: nat) {
    && start < end <= |word| && Known(t, word, start, end)
    && forall e :: end < e <= |word| ==> !Known(t, word, start, e)
  }

  predicate Stuck(t: Tokenizer, word: Runes, start: nat) {
    start < |word| && forall e :: start < e <= |word| ==> !Known(t, word, start, e)
  }

  /** The cuts of a greedy walk: from each cut the longest match leads to the next. */
  predicate IsWalk(t: Tokenizer, word: Runes, cuts: seq<nat>) {
    && cuts != [] && cuts[0] == 0
    && forall i :: 0 <= i < |cuts| - 1 ==> Longest(t, word, cuts[i], cuts[i + 1])
  }

  predicate Spells(t: Tokenizer, word: Runes, cuts: seq<nat>) {
    IsWalk(t, word, cuts) && cuts[|cuts| - 1] == |word|
  }

  /** Over-long, or the greedy walk gets stuck. */
  ghost predicate Unknown(t: Tokenizer, word: Runes) {
    |word| > t.maxInputChar || exists cuts :: IsWalk(t, word, cuts) && Stuck(t, word, cuts[|cuts| - 1])
  }

  /** The ids of the pieces between the cuts. */
  function Ids(t: Tokenizer, word: Runes, cuts: seq<nat>): (ids: seq<int>)
    requires IsWalk(t, word, cuts)
    ensures |ids| == |cuts| - 1
    ensures forall i :: 0 <= i < |ids| ==> ids[i] == t.vocab[Piece(t, word, cuts[i], cuts[i + 1])]
  {
    if |cuts| == 1 then []
    else
      var front := cuts[..|cuts| - 1];
      assert Longest(t, word, cuts[|cuts| - 2], cuts[|cuts| - 1]);
      Ids(t, word, front) + [t.vocab[Piece(t, word, cuts[|cuts| - 2], cuts[|cuts| - 1])]]
  }

  /** One greedy step more. */
  lemma OneStep(t: Tokenizer, word: Runes, cuts: seq<nat>, end: nat)
    requires IsWalk(t, word, cuts) && Longest(t, word, cuts[|cuts| - 1], end)
    ensures IsWalk(t, word, cuts + [end])
    ensures Ids(t, word, cuts + [end]) == Ids(t, word, cuts) + [t.vocab[Piece(t, word, cuts[|cuts| - 1], end)]]
  {
    assert (cuts + [end])[..|cuts|] == cuts;
  }

  lemma {:induction false} WalksAgree(t: Tokenizer, word: Runes, a: seq<nat>, b: seq<nat>, i: nat)
    requires IsWalk(t, word, a) && IsWalk(t, word, b) && i < |a| && i < |b|
    ensures a[i] == b[i]
  {
    if i > 0 {
      WalksAgree(t, word, a, b, i - 1);
      assert Longest(t, word, a[i - 1], a[i]) && Longest(t, word, b[i - 1], b[i]);
    }
  }

  lemma GoesOn(t: Tokenizer, word: Runes, cuts: seq<nat>, i: nat)
    requires IsWalk(t, word, cuts) && i < |cuts| - 1
    ensures cuts[i] < |word|
  {
    assert Longest(t, word, cuts[i], cuts[i + 1]);
  }

  /** A word spelled to its end is never stuck as well, and there is one way only to spell it. */
  lemma SpelledOnce(t: Tokenizer, word: Runes, cuts: seq<nat>, other: seq<nat>)
    requires Spells(t, word, cuts) && IsWalk(t, word, other)
    ensures !Stuck(t, word, other[|other| - 1])
    ensures Spells(t, word, other) ==> other == cuts
  {
    var n := if |other| < |cuts| then |other| else |cuts|;
    forall i | 0 <= i < n
      ensures other[i] == cuts[i]
    {
      WalksAgree(t, word, other, cuts, i);
    }
    if |other| < |cuts| { assert Longest(t, word, cuts[n - 1], cuts[n]); }
    if |other| > |cuts| { GoesOn(t, word, other, n - 1); }
  }

  /** Every walk goes on to the end of the word or to a place where it is stuck. */
  lemma {:induction false} WalkEnds(t: Tokenizer, word: Runes, cuts: seq<nat>)
    requires IsWalk(t, word, cuts) && cuts[|cuts| - 1] <= |word|
    ensures exists all :: IsWalk(t, word, all) && (Spells(t, word, all) || Stuck(t, word, all[|all| - 1]))
    decreases |word| - cuts[|cuts| - 1]
  {
    var start := cuts[|cuts| - 1];
    if start < |word| && !Stuck(t, word, start) {
      LongestExists(t, word, start, |word|);
      var end :| Longest(t, word, start, end);
      OneStep(t, word, cuts, end);
      WalkEnds(t, word, cuts + [end]);
    } else {
      assert Spells(t, word, cuts) || Stuck(t, word, start);
    }
  }

  lemma {:induction false} LongestExists(t: Tokenizer, word: Runes, start: nat, end: nat)
    requires start < end <= |word| && !Stuck(t, word, start) && forall e :: end < e <= |word| ==>
        !Known(t, word, start, e)
    ensures exists e :: Longest(t, word, start, e)
    decreases end
  {
    if Known(t, word, start, end) {
      assert Longest(t, word, start, end);
    } else if end - 1 > start {
      LongestExists(t, word, start, end - 1);
    }
  }

  /** Exactly one of the two: the word is unknown, or some walk spells it. */
  lemma UnknownOrSpelled(t: Tokenizer, word: Runes)
    ensures Unknown(t, word) <==> |word| > t.maxInputChar || !exists cuts :: Spells(t, word, cuts)
  {
    WalkEnds(t, word, [0]);
    if cuts :| Spells(t, word, cuts) {
      forall other | IsWalk(t, word, other)
        ensures !Stuck(t, word, other[|other| - 1])
      {
        SpelledOnce(t, word, cuts, other);
      }
    }
  }

  /** What WordPiece gives for a word. */
  ghost function WordIds(t: Tokenizer, word: Runes): seq<int> {
    if Unknown(t, word) then [t.unk]
    else
      UnknownOrSpelled(t, word);
      var cuts :| Spells(t, word, cuts);
      Ids(t, word, cuts)
  }

  lemma WordIdsAre(t: Tokenizer, word: Runes, cuts: seq<nat>)
    requires Spells(t, word, cuts) && |word| <= t.maxInputChar
    ensures !Unknown(t, word) && WordIds(t, word) == Ids(t, word, cuts)
  {
    UnknownOrSpelled(t, word);
    forall other | Spells(t, word, other)
      ensures other == cuts
    {
      SpelledOnce(t, word, cuts, other);
    }
  }

  /** The text of a list of ids: every piece but the first without its continuation prefix. */
  function Text(names: map<int, Runes>, skip: nat, ids: seq<int>): Runes {
    if ids == [] then []
    else
      var n := |ids| - 1;
      Text(names, skip, ids[..n]) + Bare(names, if n > 0 then skip else 0, ids[n])
  }

  function Bare(names: map<int, Runes>, skip: nat, id: int): Runes {
    if id in names && skip <= |names[id]| then names[id][skip..] else []
  }

  /** `names` is an inverse of the vocabulary. */
  ghost predicate Names(t: Tokenizer, names: map<int, Runes>) {
    forall key :: key in t.vocab ==> t.vocab[key] in names && names[t.vocab[key]] == key
  }

  /** The inverse vocabulary takes the ids of a spelled word back to the word. */
  lemma SpellBack(t: Tokenizer, word: Runes, cuts: seq<nat>, names: map<int, Runes>)
    requires Spells(t, word, cuts) && Names(t, names)
    ensures Text(names, |t.contPrefix|, Ids(t, word, cuts)) == word
  {
    SpellPrefix(t, word, cuts, names);
    assert word[..|word|] == word;
  }

  lemma {:induction false} SpellPrefix(t: Tokenizer, word: Runes, cuts: seq<nat>, names: map<int, Runes>)
    requires IsWalk(t, word, cuts) && Names(t, names)
    ensures cuts[|cuts| - 1] <= |word| && Text(names, |t.contPrefix|, Ids(t, word, cuts)) == word[..cuts[|cuts| - 1]]
    decreases |cuts|
  {
    if |cuts| == 1 {
      assert word[..0] == [];
    } else {
      assert |cuts| > 1;
      hide *;
      var n := |cuts| - 1;
      var start, end := cuts[n - 1], cuts[n];
      LastCut(t, word, cuts);
      var front, last := Ids(t, word, cuts[..n]), t.vocab[Piece(t, word, start, end)];
      SpellPrefix(t, word, cuts[..n], names);
      OneMore(names, |t.contPrefix|, front, last);
      assert word[..end] == word[..start] + word[start..end];
    }
  }

  lemma LastCut(t: Tokenizer, word: Runes, cuts: seq<nat>)
    requires IsWalk(t, word, cuts) && |cuts| > 1
    ensures var n := |cuts| - 1;
            var start, end := cuts[n - 1], cuts[n];
            && IsWalk(t, word, cuts[..n]) && start < end <= |word| && (start > 0 <==> n > 1)
            && Known(t, word, start, end) && Piece(t, word, start, end) in t.vocab
            && Ids(t, word, cuts) == Ids(t, word, cuts[..n]) + [t.vocab[Piece(t, word, start, end)]]
            && (Ids(t, word, cuts[..n]) == [] <==> n == 1)
  {
    var n := |cuts| - 1;
    Starts(t, word, cuts, n - 1);
    assert Longest(t, word, cuts[n - 1], cuts[n]);
  }

  lemma OneMore(names: map<int, Runes>, skip: nat, ids: seq<int>, id: int)
    ensures Text(names, skip, ids + [id]) == Text(names, skip, ids) + Bare(names, if ids == [] then 0 else skip, id)
  {
    assert (ids + [id])[..|ids|] == ids;
  }

  lemma Starts(t: Tokenizer, word: Runes, cuts: seq<nat>, i: nat)
    requires IsWalk(t, word, cuts) && i < |cuts|
    ensures cuts[i] > 0 <==> i > 0
  {
    if i > 0 { assert Longest(t, word, cuts[i - 1], cuts[i]); }
  }

  /** [UNK] alone means unknown, unless the word is itself spelled like a vocabulary entry with that id. */
  lemma UnkMeansUnknown(t: Tokenizer, word: Runes)
    requires word !in t.vocab || t.vocab[word] != t.unk
    ensures WordIds(t, word) == [t.unk] <==> Unknown(t, word)
  {
    UnknownOrSpelled(t, word);
    if !Unknown(t, word) {
      var cuts :| Spells(t, word, cuts);
      WordIdsAre(t, word, cuts);
      if |cuts| == 2 {
        assert Longest(t, word, cuts[0], cuts[1]);
        assert Piece(t, word, 0, |word|) == word;
      }
    }
  }

  method WordPiece(t: Tokenizer, word: Runes) returns (ids: seq<int>, ghost cuts: seq<nat>)
    ensures ids == WordIds(t, word)
    ensures if Unknown(t, word) then ids == [t.unk] else Spells(t, word, cuts) && ids == Ids(t, word, cuts)
  {
    cuts := [0];
    if |word| > t.maxInputChar { return [t.unk], cuts; }
    ids := [];
    var start := 0;
    while start < |word|
      invariant IsWalk(t, word, cuts) && cuts[|cuts| - 1] == start <= |word|
      invariant ids == Ids(t, word, cuts)
    {
      var end := |word|;
      var id := 0;
      var found := false;
      while start < end
        invariant start <= end <= |word| && !found
        invariant forall e :: end < e <= |word| ==> !Known(t, word, start, e)
      {
        var sub := word[start..end];
        if start > 0 { sub := t.contPrefix + sub; }
        if sub in t.vocab {
          id := t.vocab[sub];
          found := true;
          break;
        }
        end := end - 1;
      }
      if !found {
        assert Stuck(t, word, start);
        return [t.unk], cuts;
      }
      OneStep(t, word, cuts, end);
      cuts := cuts + [end];
      ids := ids + [id];
      start := end;
    }
    WordIdsAre(t, word, cuts);
  }

  // ---------------------------------------------------------------- Encode

  ghost function AllIds(t: Tokenizer, words: seq<Runes>): seq<int> {
    if words == [] then [] else AllIds(t, words[..|words| - 1]) + WordIds(t, words[|words| - 1])
  }

  ghost function SegmentIds(t: Tokenizer, seg: Segment): seq<int> {
    match seg
    case Special(id) => [id]
    case Plain(text) => AllIds(t, Tokens(t, t.normalize(text)))
  }

  /** The ids of all segments in order, before truncation. */
  ghost function Content(t: Tokenizer, segs: seq<Segment>): seq<int> {
    if segs == [] then [] else Content(t, segs[..|segs| - 1]) + SegmentIds(t, segs[|segs| - 1])
  }

  function Repeat(x: int, n: nat): (s: seq<int>)
    ensures |s| == n && forall i :: 0 <= i < n ==> s[i] == x
  {
    seq(n, i => x)
  }

  /** The prefix of the content for which the frame has room. */
  function Kept(content: seq<int>, room: nat): (kept: seq<int>)
    ensures |kept| <= room && kept <= content && (|content| <= room ==> kept == content)
  {
    if |content| > room then content[..room] else content
  }

  /**
   The model's input: always maxSeqLen ids, CLS, what fits of the content, SEP, padding; the mask marks all but the
   padding.
   */
  ghost predicate Framed(t: Tokenizer, content: seq<int>, ids: seq<int>, mask: seq<int>)
    requires t.maxSeqLen >= 2
  {
    var kept := Kept(content, t.maxSeqLen - 2);
    var padding := t.maxSeqLen - 2 - |kept|;
    && ids == [t.cls] + kept + [t.sep] + Repeat(t.pad, padding)
    && mask == Repeat(1, |kept| + 2) + Repeat(0, padding)
  }

  method Encode(t: Tokenizer, text: Runes)
    returns (ids: array<int>, mask: array<int>, typeIds: array<int>, ghost segs: seq<Segment>,
             ghost spelled: seq<Runes>)
    requires Valid(t)
    ensures fresh(ids) && fresh(mask) && fresh(typeIds)
    ensures IsSplit(t.added, text, segs, spelled)
    ensures Framed(t, Content(t, segs), ids[..], mask[..]) && typeIds[..] == Repeat(0, t.maxSeqLen)
    ensures EncodesAll(t, segs, Content(t, segs))
  {
    var content := [];
    var cut;
    cut, spelled := SplitOnAddedTokens(t, text);
    segs := cut;
    for i := 0 to |cut|
      invariant content == Content(t, segs[..i])
    {
      assert segs[..i + 1][..i] == segs[..i];
      match cut[i]
      case Special(id) => content := content + [id];
      case Plain(gap) =>
        var found := GapIds(t, gap);
        content := content + found;
    }
    assert segs[..|segs|] == segs;
    ContentEncodes(t, segs);
    ids, mask, typeIds := Frame(t, content);
  }

  method Frame(t: Tokenizer, content: seq<int>) returns (ids: array<int>, mask: array<int>, typeIds: array<int>)
    requires t.maxSeqLen >= 2
    ensures fresh(ids) && fresh(mask) && fresh(typeIds)
    ensures Framed(t, content, ids[..], mask[..]) && typeIds[..] == Repeat(0, t.maxSeqLen)
  {
    var kept := content;
    if |content| > t.maxSeqLen - 2 { kept := content[..t.maxSeqLen - 2]; }
    ids, mask := new int[t.maxSeqLen](_ => 0), new int[t.maxSeqLen](_ => 0);
    typeIds := new int[t.maxSeqLen](_ => 0);
    for i := 0 to t.maxSeqLen
      invariant ids.Length == mask.Length == typeIds.Length == t.maxSeqLen
      invariant forall k :: 0 <= k < t.maxSeqLen ==> typeIds[k] == 0
      invariant forall k :: i <= k < t.maxSeqLen ==> mask[k] == 0
      invariant forall k :: 0 <= k < i ==>
        && ids[k] == (if k == 0 then t.cls else if k <= |kept| then kept[k - 1] else if k == |kept| + 1 then t.sep
          else t.pad)
        && mask[k] == (if k <= |kept| + 1 then 1 else 0)
    {
      if i == 0 {
        ids[i], mask[i] := t.cls, 1;
      } else if i <= |kept| {
        ids[i], mask[i] := kept[i - 1], 1;
      } else if i == |kept| + 1 {
        ids[i], mask[i] := t.sep, 1;
      } else {
        ids[i] := t.pad;
      }
    }
  }

  method GapIds(t: Tokenizer, gap: Runes) returns (ids: seq<int>)
    ensures ids == AllIds(t, Tokens(t, t.normalize(gap)))
  {
    ids := [];
    var words := BasicTokenize(t, t.normalize(gap));
    for i := 0 to |words|
      invariant ids == AllIds(t, words[..i])
    {
      assert words[..i + 1][..i] == words[..i];
      var piece, _ := WordPiece(t, words[i]);
      ids := ids + piece;
    }
    assert words[..|words|] == words;
  }

  // ---------------------------------------------------------------- what an encoding says

  /** A known word is the ids of the pieces of its greedy spelling, an unknown one a single [UNK]. */
  ghost predicate EncodesWord(t: Tokenizer, word: Runes, ids: seq<int>) {
    if Unknown(t, word) then ids == [t.unk] else exists cuts :: Spells(t, word, cuts) && ids == Ids(t, word, cuts)
  }

  /** The words of a normalized gap one after the other: together they are its runes other than spaces, in order. */
  ghost predicate EncodesGap(t: Tokenizer, gap: Runes, ids: seq<int>) {
    exists words: seq<Runes>, groups: seq<seq<int>> ::
      && words == Tokens(t, t.normalize(gap)) && Concat(words) == NonSpace(t, t.normalize(gap))
      && EncodesWords(t, words, groups) && Concat(groups) == ids
  }

  ghost predicate EncodesWords(t: Tokenizer, words: seq<Runes>, groups: seq<seq<int>>) {
    |groups| == |words| && forall i :: 0 <= i < |words| ==> EncodesWord(t, words[i], groups[i])
  }

  ghost predicate EncodesSegment(t: Tokenizer, seg: Segment, ids: seq<int>) {
    match seg
    case Special(id) => ids == [id]
    case Plain(gap) => EncodesGap(t, gap, ids)
  }

  /** Every segment in its place: the id of an added token, or the words of a gap. */
  ghost predicate EncodesAll(t: Tokenizer, segs: seq<Segment>, ids: seq<int>) {
    exists parts: seq<seq<int>> ::
      |parts| == |segs| && Concat(parts) == ids && forall i :: 0 <= i < |segs| ==> EncodesSegment(t, segs[i], parts[i])
  }

  lemma WordEncodes(t: Tokenizer, word: Runes)
    ensures EncodesWord(t, word, WordIds(t, word))
  {
    UnknownOrSpelled(t, word);
  }

  lemma {:induction false} WordsEncode(t: Tokenizer, words: seq<Runes>) returns (groups: seq<seq<int>>)
    ensures EncodesWords(t, words, groups) && Concat(groups) == AllIds(t, words)
    decreases |words|
  {
    hide EncodesWord, WordIds;
    if words == [] {
      groups := [];
    } else {
      var n := |words| - 1;
      var front := WordsEncode(t, words[..n]);
      var last := WordIds(t, words[n]);
      WordEncodes(t, words[n]);
      ConcatAppend(front, [last]);
      ConcatOne(last);
      groups := front + [last];
      forall i | 0 <= i < |words|
        ensures EncodesWord(t, words[i], groups[i])
      {
        if i < n { assert words[i] == words[..n][i]; }
      }
    }
  }

  lemma SegmentEncodes(t: Tokenizer, seg: Segment)
    ensures EncodesSegment(t, seg, SegmentIds(t, seg))
  {
    match seg
    case Special(id) =>
    case Plain(gap) =>
      var words := Tokens(t, t.normalize(gap));
      TokensKeepRunes(t, t.normalize(gap));
      var groups := WordsEncode(t, words);
  }

  lemma {:induction false} ContentEncodes(t: Tokenizer, segs: seq<Segment>)
    ensures EncodesAll(t, segs, Content(t, segs))
    decreases |segs|
  {
    hide EncodesSegment, SegmentIds;
    if segs == [] {
      var none: seq<seq<int>> := [];
      assert Concat(none) == [];
    } else {
      var n := |segs| - 1;
      ContentEncodes(t, segs[..n]);
      var front: seq<seq<int>> :| |front| == n && Concat(front) == Content(t, segs[..n])
        && forall i :: 0 <= i < n ==> EncodesSegment(t, segs[..n][i], front[i]);
      var last := SegmentIds(t, segs[n]);
      SegmentEncodes(t, segs[n]);
      ConcatAppend(front, [last]);
      ConcatOne(last);
      var parts := front + [last];
      forall i | 0 <= i < |segs|
        ensures EncodesSegment(t, segs[i], parts[i])
      {
        if i < n { assert segs[i] == segs[..n][i]; }
      }
    }
  }

  /** The words the groups of ids are the names of, one after the other. */
  function ReadBack(names: map<int, Runes>, skip: nat, groups: seq<seq<int>>): Runes {
    if groups == [] then [] else Text(names, skip, groups[0]) + ReadBack(names, skip, groups[1..])
  }

  lemma {:induction false} TextPrefix(names: map<int, Runes>, skip: nat, ids: seq<int>, k: nat)
    requires k <= |ids|
    ensures Text(names, skip, ids[..k]) <= Text(names, skip, ids)
    decreases |ids|
  {
    if k < |ids| {
      var n := |ids| - 1;
      TextPrefix(names, skip, ids[..n], k);
      assert ids[..n][..k] == ids[..k];
    } else {
      assert ids[..k] == ids;
    }
  }

  /** The first ids of a row of words read back to the beginning of it. */
  lemma {:induction false} FrontReadsBack(names: map<int, Runes>, skip: nat, groups: seq<seq<int>>, k: nat)
    returns (front: seq<seq<int>>)
    requires k <= |Concat(groups)|
    ensures Concat(front) == Concat(groups)[..k] && ReadBack(names, skip, front) <= ReadBack(names, skip, groups)
    ensures k == |Concat(groups)| ==> front == groups
  {
    if groups == [] {
      front := [];
    } else if k < |groups[0]| || (k == |groups[0]| && k < |Concat(groups)|) {
      front := [groups[0][..k]];
      ConcatOne(groups[0][..k]);
      TextPrefix(names, skip, groups[0], k);
      assert front[1..] == [];
      assert ReadBack(names, skip, front) == Text(names, skip, groups[0][..k]) + ReadBack(names, skip, []);
    } else {
      var rest := FrontReadsBack(names, skip, groups[1..], k - |groups[0]|);
      front := [groups[0]] + rest;
      assert front[1..] == rest;
    }
  }

  lemma {:induction false} KnownReadBack(t: Tokenizer, words: seq<Runes>, groups: seq<seq<int>>, names: map<int, Runes>)
    requires EncodesWords(t, words, groups) && Names(t, names) && forall w :: w in words ==> !Unknown(t, w)
    ensures ReadBack(names, |t.contPrefix|, groups) == Concat(words)
    decreases |words|
  {
    if words != [] {
      hide Unknown, Spells, Ids, Text;
      assert EncodesWord(t, words[0], groups[0]) && words[0] in words;
      var cuts :| Spells(t, words[0], cuts) && groups[0] == Ids(t, words[0], cuts);
      SpellBack(t, words[0], cuts, names);
      KnownReadBack(t, words[1..], groups[1..], names);
    }
  }

  lemma FrameParts(t: Tokenizer, content: seq<int>, ids: seq<int>, mask: seq<int>) returns (n: nat)
    requires t.maxSeqLen >= 2 && Framed(t, content, ids, mask)
    ensures n <= |content| && n + 2 <= |ids| && (|content| + 2 <= t.maxSeqLen ==> n == |content|)
    ensures ids[0] == t.cls && ids[1..n + 1] == content[..n] && ids[n + 1] == t.sep
    ensures forall i :: n + 2 <= i < |ids| ==> ids[i] == t.pad
  {
    n := |Kept(content, t.maxSeqLen - 2)|;
  }

  /**
   The ids between CLS and SEP of a text without added tokens, all of whose words are known, read back through the
   inverse vocabulary to the beginning of its runes other than spaces, and to all of them when they fit.
   */
  lemma EncodingReadsBack(t: Tokenizer, gap: Runes, content: seq<int>, ids: seq<int>, mask: seq<int>,
                          names: map<int, Runes>)
    returns (n: nat, groups: seq<seq<int>>)
    requires t.maxSeqLen >= 2 && EncodesAll(t, [Plain(gap)], content) && Framed(t, content, ids, mask)
    requires Names(t, names) && forall w :: w in Tokens(t, t.normalize(gap)) ==> !Unknown(t, w)
    ensures n + 2 <= |ids| && ids[0] == t.cls && ids[1..n + 1] == Concat(groups) && ids[n + 1] == t.sep
    ensures forall i :: n + 2 <= i < |ids| ==> ids[i] == t.pad
    ensures ReadBack(names, |t.contPrefix|, groups) <= NonSpace(t, t.normalize(gap))
    ensures |content| + 2 <= t.maxSeqLen ==> ReadBack(names, |t.contPrefix|, groups) == NonSpace(t, t.normalize(gap))
  {
    hide Tokens, Unknown, NonSpace, Names, EncodesWords, Framed, Text;
    n := FrameParts(t, content, ids, mask);
    var parts: seq<seq<int>> :| |parts| == 1 && Concat(parts) == content && EncodesSegment(t, Plain(gap), parts[0]);
    assert parts == [parts[0]];
    ConcatOne(parts[0]);
    var words: seq<Runes>, all: seq<seq<int>> :|
      && words == Tokens(t, t.normalize(gap)) && Concat(words) == NonSpace(t, t.normalize(gap))
      && EncodesWords(t, words, all) && Concat(all) == content;
    KnownReadBack(t, words, all, names);
    groups := FrontReadsBack(names, |t.contPrefix|, all, n);
  }

  /** The encoding is a function of the text, of the fixed length. */
  lemma EncodingIsUnique(t: Tokenizer, text: Runes, a: seq<Segment>, sa: seq<Runes>, b: seq<Segment>, sb: seq<Runes>,
                         ids: seq<int>, mask: seq<int>, ids': seq<int>, mask': seq<int>)
    requires Valid(t) && IsSplit(t.added, text, a, sa) && IsSplit(t.added, text, b, sb)
    requires Framed(t, Content(t, a), ids, mask) && Framed(t, Content(t, b), ids', mask')
    ensures ids == ids' && mask == mask' && |ids| == |mask| == t.maxSeqLen
  {
    hide IsSplit;
    SplitIsUnique(t.added, text, a, sa, b, sb);
  }
}
