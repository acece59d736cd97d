/** `Math.random()` and what the simulator does with it. */
module RandomDraw {

  /** A result of `Math.random()`. */
  type Random = r: real | 0.0 <= r < 1.0 witness 0.0

  /** `Math.floor(random() * n)`. */
  function FloorShare(r: Random, n: int): (k: int)
    ensures n > 0 ==> 0 <= k < n
    ensures n <= 0 ==> n <= k <= 0
  {
    var product := r * n as real;
    ShareBounds(r, n as real);
    product.Floor
  }

  lemma ShareBounds(r: real, n: real)
    requires 0.0 <= r < 1.0
    ensures n > 0.0 ==> 0.0 <= r * n < n
    ensures n <= 0.0 ==> n <= r * n <= 0.0
  {
    if n > 0.0 {
      assert (1.0 - r) * n > 0.0;
    } else {
      assert (1.0 - r) * n <= 0.0;
      assert r * n <= 0.0;
    }
  }

  /** A random element. */
  function Pick<T>(s: seq<T>, r: Random): (x: T)
    requires s != []
    ensures x in s
  {
    s[FloorShare(r, |s|)]
  }

  /** Every whole number below `n` is the share of some draw. */
  lemma EveryShareIsDrawn(n: int, k: int) returns (r: Random)
    requires 0 <= k < n
    ensures FloorShare(r, n) == k
  {
    ShareOf(k as real, n as real);
    r := k as real / n as real;
  }

  lemma ShareOf(x: real, n: real)
    requires 0.0 <= x < n
    ensures 0.0 <= x / n < 1.0 && x / n * n == x
  {
  }

  /** Every element is picked by some draw. */
  lemma EveryElementIsPicked<T>(s: seq<T>, x: T) returns (r: Random)
    requires x in s
    ensures Pick(s, r) == x
  {
    var k :| 0 <= k < |s| && s[k] == x;
    r := EveryShareIsDrawn(|s|, k);
  }
}
