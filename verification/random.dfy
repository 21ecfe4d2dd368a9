/** `Math.random()` and the `Math.floor(Math.random() * m)` idiom run.mjs uses for every sleep. */
module Random {

  /** A fraction `num / den`. */
  datatype Draw = Draw(num: nat, den: nat)

  /** One value of `Math.random()`: a fraction in [0, 1). */
  type UnitDraw = d: Draw | d.num < d.den witness Draw(0, 1)

  /** `Math.floor(r * m)` for a draw `r` and a whole `m >= 0`: below `m`, and 0 when `m` is 0. */
  function Scale(r: UnitDraw, m: nat): (k: nat)
    ensures m == 0 ==> k == 0
    ensures m > 0 ==> k < m
  {
    ScaleBelow(r.num, r.den, m);
    r.num * m / r.den
  }

  lemma ScaleBelow(num: nat, den: nat, m: nat)
    requires num < den
    ensures m == 0 ==> num * m / den == 0
    ensures m > 0 ==> num * m / den < m
  {
    if m > 0 {
      assert num * m < den * m;
    }
  }
}
