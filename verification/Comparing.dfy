/** Chains of comparisons, as `cmp.Or(cmp.Compare(...), ...)` builds them. */
module Comparing {
  import Text

  /** `cmp.Or`: the first comparison that decides. */
  function Or(c: int, d: int): int { if c != 0 then c else d }

  /** `cmp.Compare` on integers. */
  function CompareInt(a: int, b: int): int {
    if a < b then -1 else if a > b then 1 else 0
  }

  /** What three comparisons x:y, y:z and x:z of one weak order satisfy. */
  predicate Consistent(xy: int, yz: int, xz: int) {
    xy <= 0 && yz <= 0 ==> xz <= 0 && (xz == 0 ==> xy == 0 && yz == 0)
  }

  lemma TextConsistent(x: string, y: string, z: string)
    ensures Consistent(Text.Compare(x, y), Text.Compare(y, z), Text.Compare(x, z))
  {
    if Text.Compare(x, y) <= 0 && Text.Compare(y, z) <= 0 {
      Text.CompareTransitive(x, y, z);
    }
  }
}
