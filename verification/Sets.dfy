/** Facts about finite sets. */
module Sets {

  lemma SubsetSize<T>(x: set<T>, y: set<T>)
    requires x <= y
    ensures |x| <= |y|
  {
    assert y == x + (y - x);
  }

  lemma UnionAssoc<T>(x: set<T>, y: set<T>, z: set<T>)
    ensures x + (y + z) == (x + y) + z
  {}
}
