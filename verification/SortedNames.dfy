/** Ordered sets of names: strings in lexicographic order, and the sorted sequence of a set. */
module SortedNames {
  predicate Leq(a: string, b: string) {
    a == "" || (b != "" && (a[0] < b[0] || (a[0] == b[0] && Leq(a[1..], b[1..]))))
  }

  /** A name that starts another comes first; otherwise the first character that differs decides. */
  lemma {:induction false} LeqMeaning(common: string, a: char, restA: string, b: char, restB: string)
    ensures Leq(common, common + restA)
    ensures a < b ==>
      Leq(common + [a] + restA, common + [b] + restB) && !Leq(common + [b] + restB, common + [a] + restA)
  {
    if common != "" {
      LeqMeaning(common[1..], a, restA, b, restB);
      assert (common + restA)[1..] == common[1..] + restA;
      assert (common + [a] + restA)[1..] == common[1..] + [a] + restA;
      assert (common + [b] + restB)[1..] == common[1..] + [b] + restB;
    }
  }

  lemma {:induction false} LeqTotal(a: string, b: string)
    ensures Leq(a, b) || Leq(b, a)
    ensures Leq(a, b) && Leq(b, a) ==> a == b
  {
    if a != "" && b != "" && a[0] == b[0] {
      LeqTotal(a[1..], b[1..]);
      assert a == [a[0]] + a[1..] && b == [b[0]] + b[1..];
    }
  }

  lemma {:induction false} LeqTransitive(a: string, b: string, c: string)
    requires Leq(a, b) && Leq(b, c)
    ensures Leq(a, c)
  {
    if a != "" && a[0] == b[0] && b[0] == c[0] {
      LeqTransitive(a[1..], b[1..], c[1..]);
    }
  }

  predicate IsLeast(least: string, names: set<string>) {
    least in names && forall name :: name in names ==> Leq(least, name)
  }

  lemma LeastExists(names: set<string>)
    requires names != {}
    ensures exists least :: IsLeast(least, names)
  {
    var some :| some in names;
    var rest := names - {some};
    if rest == {} {
      LeqTotal(some, some);
      assert names == {some} && IsLeast(some, names);
    } else {
      LeastExists(rest);
      var restLeast :| IsLeast(restLeast, rest);
      LeqTotal(some, restLeast);
      var least := if Leq(some, restLeast) then some else restLeast;
      forall name | name in names ensures Leq(least, name) {
        if name == some {
          LeqTotal(some, some);
        } else if least == some {
          LeqTransitive(some, restLeast, name);
        }
      }
      assert IsLeast(least, names);
    }
  }

  lemma LeastUnique(a: string, b: string, names: set<string>)
    requires IsLeast(a, names) && IsLeast(b, names)
    ensures a == b
  {
    LeqTotal(a, b);
  }

  function Least(names: set<string>): (least: string)
    requires names != {}
    ensures IsLeast(least, names)
  {
    LeastExists(names);
    assert forall a, b :: IsLeast(a, names) && IsLeast(b, names) ==> a == b by {
      forall a, b | IsLeast(a, names) && IsLeast(b, names) ensures a == b { LeastUnique(a, b, names); }
    }
    var least :| IsLeast(least, names);
    least
  }

  /** The elements of a set in increasing order, as an ordered set iterates. */
  function Sorted(names: set<string>): (sorted: seq<string>)
    ensures forall name :: name in sorted <==> name in names
    ensures forall i, j :: 0 <= i < j < |sorted| ==> Leq(sorted[i], sorted[j]) && sorted[i] != sorted[j]
  {
    if names == {} then []
    else
      var least := Least(names);
      [least] + Sorted(names - {least})
  }
}
