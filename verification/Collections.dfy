/**
  Notions about sequences, sets and numbers that several modules share.
 */
module Collections {

  ghost predicate Distinct<T>(xs: seq<T>) {
    forall i, j :: 0 <= i < j < |xs| ==> xs[i] != xs[j]
  }

  function Elements<T>(xs: seq<T>): set<T> {
    set x | x in xs
  }

  lemma ElementsOfAppend<T>(xs: seq<T>, x: T)
    ensures Elements(xs + [x]) == Elements(xs) + {x}
    ensures Distinct(xs) && x !in Elements(xs) ==> Distinct(xs + [x])
  {
    assert forall y :: y in xs <==> y in Elements(xs);
  }

  lemma SubsetSize<T>(s: set<T>, t: set<T>)
    requires s <= t
    ensures |s| <= |t|
  {
    assert t == s + (t - s);
    assert |t| == |s| + |t - s|;
  }

  lemma ScaleUp(x: int, y: int, k: int)
    requires x <= y && 0 <= k
    ensures x * k <= y * k
  {
  }
}
