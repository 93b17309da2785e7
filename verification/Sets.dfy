/** Sizes of sets. */
module Sets {

  lemma SubsetSize<T>(small: set<T>, big: set<T>)
    requires small <= big
    ensures |big - small| == |big| - |small|
    ensures |small| <= |big|
  {
    assert big == small + (big - small);
  }
}
