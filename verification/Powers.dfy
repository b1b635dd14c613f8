/** Powers of two, as both backoffs use them. */
module Powers {

  function Pow2(k: nat): (p: int)
    ensures p >= 1
  {
    if k == 0 then 1 else 2 * Pow2(k - 1)
  }

  lemma PowersDouble(k: nat)
    ensures Pow2(0) == 1 && Pow2(k + 1) == Pow2(k) + Pow2(k)
  {}
}
