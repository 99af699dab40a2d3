// What several modules need of machine words and of finite sets.
module Basics {
  const TWO_64: nat := 0x1_0000_0000_0000_0000

  lemma SubsetSmaller(a: set<nat>, b: set<nat>)
    requires a <= b
    ensures |a| <= |b|
  {
    assert b == a + (b - a);
  }

  lemma SameSizeSubset(a: set<nat>, b: set<nat>)
    requires a <= b && |a| == |b|
    ensures a == b
  {
    assert b == a + (b - a);
  }

  lemma SingletonOf(w: set<nat>, r: nat)
    requires r in w && |w| == 1
    ensures w == {r}
  {
    assert |w - {r}| == 0;
  }
}
