/** Sequences without repetition, and small facts about concatenation that larger proofs are slow to find. */
module Sequences {
  predicate NoDuplicates<T(==)>(s: seq<T>) {
    forall i, j :: 0 <= i < j < |s| ==> s[i] != s[j]
  }

  lemma Associates<T>(a: seq<T>, b: seq<T>, c: seq<T>)
    ensures a + b + c == a + (b + c)
  {
  }

  lemma Slices3<T>(a: seq<T>, b: seq<T>, c: seq<T>)
    ensures var s := a + (b + c); s[..|a|] == a && s[|a|..|a| + |b|] == b && s[|a| + |b|..] == c
  {
  }

  lemma Associates4<T>(x: seq<T>, a: seq<T>, b: seq<T>, c: seq<T>)
    ensures x + a + b + c == x + (a + b + c)
    ensures x + a + b + c == x + (a + (b + c))
  {
  }

  lemma Associates5<T>(x: seq<T>, a: seq<T>, b: seq<T>, c: seq<T>, d: seq<T>)
    ensures x + a + b + c + d == x + (a + b + c + d)
  {
  }

  lemma Associates6<T>(x: seq<T>, a: seq<T>, b: seq<T>, c: seq<T>, d: seq<T>, e: seq<T>)
    ensures x + a + b + c + d + e == x + (a + b + c + d + e)
    ensures x + a + b + c + d + e == x + (a + (b + (c + (d + e))))
  {
  }

  lemma Push2<T>(x: seq<T>, a: T, b: T)
    ensures x + [a] + [b] == x + [a, b]
  {
  }

  lemma Push4<T>(x: seq<T>, a: T, b: T, c: T, d: T)
    ensures x + [a] + [b] + [c] + [d] == x + [a, b, c, d]
  {
  }

  lemma Push6<T>(x: seq<T>, a: T, b: T, c: T, d: T, e: T, f: T)
    ensures x + [a] + [b] + [c] + [d] + [e] + [f] == x + [a, b, c, d, e, f]
  {
  }

  /** Equal sums with equally long heads have equal parts. */
  lemma Peel<T>(a: seq<T>, b: seq<T>, restA: seq<T>, restB: seq<T>)
    requires |a| == |b| && a + restA == b + restB
    ensures a == b && restA == restB
  {
    assert (a + restA)[..|a|] == a && (b + restB)[..|b|] == b;
    assert (a + restA)[|a|..] == restA && (b + restB)[|b|..] == restB;
  }
}
