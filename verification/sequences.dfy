/** Small facts about sequence concatenation that the scan and loader
    proofs use at fixed points, to keep each proof obligation small. */
module Sequences {

  lemma AppendEmpty<T>(a: seq<T>)
    ensures a + [] == a
  {
  }

  lemma AppendAssoc<T>(a: seq<T>, b: seq<T>, c: seq<T>)
    ensures a + (b + c) == (a + b) + c
  {
  }

  lemma ConsAppend<T>(s: seq<T>, t: seq<T>)
    requires |s| > 0
    ensures [s[0]] + (s[1..] + t) == s + t
  {
    assert s == [s[0]] + s[1..];
  }
}
