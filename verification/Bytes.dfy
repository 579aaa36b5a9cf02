/**
 Byte strings as the Go code handles them: a `string` or `[]byte` is a sequence of
 bytes, indexed and sliced by byte position.
 */
module Bytes {

  type Byte = x: int | 0 <= x < 256
  type Text = seq<Byte>

  datatype Option<+T> = None | Some(value: T)

  ghost predicate OccursAt<T>(s: seq<T>, sub: seq<T>, i: int) {
    0 <= i && i + |sub| <= |s| && s[i..i + |sub|] == sub
  }

  /** strings.Index: the leftmost place where `sub` occurs in `s`, or -1. */
  function Index<T(==)>(s: seq<T>, sub: seq<T>): (i: int)
    ensures -1 <= i
    ensures i >= 0 ==> OccursAt(s, sub, i)
    ensures forall j :: OccursAt(s, sub, j) ==> 0 <= i <= j
  {
    if sub <= s then
      assert OccursAt(s, sub, 0);
      0
    else if s == [] then -1
    else
      var k := Index(s[1..], sub);
      assert forall j :: OccursAt(s, sub, j) ==> j >= 1 && OccursAt(s[1..], sub, j - 1) by {
        forall j | OccursAt(s, sub, j)
          ensures j >= 1 && OccursAt(s[1..], sub, j - 1)
        {
          assert s[j..j + |sub|] == s[j..][..|sub|];
          if j >= 1 { assert s[1..][j - 1..j - 1 + |sub|] == s[j..j + |sub|]; }
        }
      }
      assert k >= 0 ==> OccursAt(s, sub, k + 1) by {
        if k >= 0 { assert s[1..][k..k + |sub|] == s[k + 1..k + 1 + |sub|]; }
      }
      if k < 0 then -1 else k + 1
  }

  /** The parts one after the other. */
  function Concat<T>(parts: seq<seq<T>>): seq<T> {
    if parts == [] then [] else parts[0] + Concat(parts[1..])
  }

  lemma {:induction false} ConcatAppend<T>(a: seq<seq<T>>, b: seq<seq<T>>)
    ensures Concat(a + b) == Concat(a) + Concat(b)
  {
    if a == [] {
      assert a + b == b;
    } else {
      assert (a + b)[1..] == a[1..] + b;
      ConcatAppend(a[1..], b);
    }
  }

  lemma ConcatOne<T>(part: seq<T>)
    ensures Concat([part]) == part
  {
    assert [part][1..] == [];
  }

  lemma OneLonger<T>(s: seq<T>, i: nat, j: nat)
    requires i <= j < |s|
    ensures s[i..j] + [s[j]] == s[i..j + 1]
  {
  }
}
