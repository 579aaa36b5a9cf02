/** Well-formed UTF-8, section 4 of RFC 3629. */
module Utf8 {
  import opened Bytes

  predicate Tail(b: Byte) {
    0x80 <= b < 0xC0
  }

  /** utf8.RuneStart: every byte that is not a continuation byte. */
  predicate RuneStart(b: Byte) {
    !Tail(b)
  }

  /** The number of bytes of the character `s` begins with; 0 when `s` begins with none. */
  function CharWidth(s: Text): (w: nat)
    ensures w <= |s| && w <= 4
  {
    if |s| >= 1 && s[0] < 0x80 then 1
    else if |s| >= 2 && 0xC2 <= s[0] < 0xE0 && Tail(s[1]) then 2
    else if |s| >= 3 && 0xE0 <= s[0] < 0xF0 && Tail(s[1]) && Tail(s[2])
      && (s[0] == 0xE0 ==> s[1] >= 0xA0) && (s[0] == 0xED ==> s[1] < 0xA0) then 3
    else if |s| >= 4 && 0xF0 <= s[0] < 0xF5 && Tail(s[1]) && Tail(s[2]) && Tail(s[3])
      && (s[0] == 0xF0 ==> s[1] >= 0x90) && (s[0] == 0xF4 ==> s[1] < 0x90) then 4
    else 0
  }

  predicate Valid(s: Text)
    decreases |s|
  {
    s == [] || (CharWidth(s) > 0 && Valid(s[CharWidth(s)..]))
  }

  lemma {:induction false} ValidAppend(a: Text, b: Text)
    requires Valid(a) && Valid(b)
    ensures Valid(a + b)
    decreases |a|
  {
    if a == [] {
      assert a + b == b;
    } else {
      var w := CharWidth(a);
      assert CharWidth(a + b) == w;
      assert (a + b)[w..] == a[w..] + b;
      ValidAppend(a[w..], b);
    }
  }

  /** Cutting well-formed text in front of a byte that starts a rune (or at its end) leaves two well-formed texts. */
  lemma {:induction false} ValidCut(s: Text, k: nat)
    requires Valid(s) && k <= |s|
    requires k < |s| ==> RuneStart(s[k])
    ensures Valid(s[..k]) && Valid(s[k..])
    decreases |s|
  {
    if k == 0 {
      assert s[0..] == s;
    } else {
      var w := CharWidth(s);
      assert w <= k;
      ValidCut(s[w..], k - w);
      assert s[w..][k - w..] == s[k..];
      assert s[..k][w..] == s[w..][..k - w];
      assert CharWidth(s[..k]) == w;
    }
  }

  /** In well-formed text a continuation run is at most three bytes long. */
  lemma {:induction false} RunsOfTails(s: Text, k: nat) returns (m: nat)
    requires Valid(s) && k <= |s|
    ensures k <= m <= k + 3 && m <= |s|
    ensures m < |s| ==> RuneStart(s[m])
    decreases |s|
  {
    if k == |s| || RuneStart(s[k]) {
      m := k;
    } else {
      var w := CharWidth(s);
      if k < w {
        m := w;
        if w < |s| { assert CharWidth(s[w..]) > 0; }
      } else {
        m := RunsOfTails(s[w..], k - w);
        m := m + w;
      }
    }
  }
}
