/** Facts about finite sets shared by the registries' counting arguments. */
module Sets {

  /** A subset is no larger than the set that contains it. */
  lemma SubsetCard<T>(a: set<T>, b: set<T>)
    requires a <= b
    ensures |a| <= |b|
  {
    assert b == a + (b - a);
  }
}
