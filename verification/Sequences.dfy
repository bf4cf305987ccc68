/** Facts about sequences that are used in several places. */
module Sequences {

  /** The end of a concatenation is the end of its second part. */
  lemma {:induction false} LastOfConcat<T>(a: seq<T>, b: seq<T>)
    requires b != []
    ensures (a + b)[..|a + b| - 1] == a + b[..|b| - 1] && (a + b)[|a + b| - 1] == b[|b| - 1]
  {
  }

  lemma {:induction false} LastOfSnoc<T>(a: seq<T>, x: T)
    ensures (a + [x])[..|a|] == a && (a + [x])[|a|] == x && |a + [x]| == |a| + 1
  {
  }

  lemma {:induction false} ConcatAssociates<T>(a: seq<T>, b: seq<T>, c: seq<T>)
    ensures a + b + c == a + (b + c)
  {
  }

  /** What comes from a position on, and what comes after it. */
  lemma {:induction false} RestFrom<T>(s: seq<T>, c: nat)
    requires c < |s|
    ensures s[c..] != [] && s[c..][0] == s[c] && s[c..][1..] == s[c + 1..]
  {
  }

  lemma {:induction false} RestAfter<T>(s: seq<T>, c: nat)
    requires c < |s|
    ensures c + 1 < |s| ==> s[c + 1..] != [] && s[c + 1..][0] == s[c + 1] && s[c + 1..][1..] == s[c + 2..]
    ensures c + 1 == |s| ==> s[c + 1..] == []
  {
  }
}
