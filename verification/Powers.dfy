/** Powers of two, and what halving and doubling do. */
module Powers {

  function Pow2(n: nat): (p: nat)
    ensures p > 0
  {
    if n == 0 then 1 else 2 * Pow2(n - 1)
  }

  lemma Doubled(h: int)
    ensures 2 * h / 2 == h && 2 * h % 2 == 0 && (2 * h + 1) / 2 == h && (2 * h + 1) % 2 == 1
  {
  }

  lemma DoubleTimes(p: int, q: int)
    ensures 2 * p * q == 2 * (p * q)
  {
  }

  lemma Halved(r: int, half: int)
    requires r < 2 * half
    ensures r / 2 < half && 2 * (r / 2) <= r <= 2 * (r / 2) + 1
  {
  }

  lemma EvenBelow(r: int, half: int)
    requires r < 2 * half && r % 2 == 0
    ensures r + 1 < 2 * half
  {
  }

  lemma SameParts(a: int, b: int)
    requires a / 2 == b / 2 && a % 2 == b % 2
    ensures a == b
  {
  }
}
