/** The pieces of the Fisher-Yates shuffles both card services run over
    their deck lists: a random index from a raw draw, the element swap,
    and the facts that a swap keeps the same cards, each once. */
module Shuffles {

  /** A random index below n from a raw draw: the 32-bit
      RandomNumberGenerator value reduced modulo n. */
  function Pick(draw: nat, n: nat): (k: nat)
    requires n > 0
    ensures k < n
  {
    draw % n
  }

  /** (s[i], s[j]) = (s[j], s[i]) */
  function Swap<T>(s: seq<T>, i: nat, j: nat): (r: seq<T>)
    requires i < |s| && j < |s|
    ensures |r| == |s|
  {
    s[i := s[j]][j := s[i]]
  }

  lemma SwapPermutes<T>(s: seq<T>, i: nat, j: nat)
    requires i < |s| && j < |s|
    ensures multiset(Swap(s, i, j)) == multiset(s)
  {
  }

  predicate Distinct<T(==)>(s: seq<T>)
  {
    forall i, j :: 0 <= i < j < |s| ==> s[i] != s[j]
  }

  lemma SwapKeepsDistinct<T>(s: seq<T>, i: nat, j: nat)
    requires i < |s| && j < |s| && Distinct(s)
    ensures Distinct(Swap(s, i, j))
  {
    var r := Swap(s, i, j);
    forall x, y | 0 <= x < y < |r|
      ensures r[x] != r[y]
    {
      var px := if x == i then j else if x == j then i else x;
      var py := if y == i then j else if y == j then i else y;
      assert r[x] == s[px] && r[y] == s[py];
      assert px != py;
      if px < py { } else { }
    }
  }

  /** The in-place swap on the deck's backing array. */
  method SwapAt<T>(a: array<T>, i: nat, j: nat)
    requires i < a.Length && j < a.Length
    modifies a
    ensures a[..] == Swap(old(a[..]), i, j)
  {
    a[i], a[j] := a[j], a[i];
  }
}
