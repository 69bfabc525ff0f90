/** Small shared vocabulary: JavaScript's `null`/`undefined` as `Option`,
    the `x || default` idiom on counts and strings, and `Math.round` of a
    quotient of naturals. */
module Common {

  datatype Option<+T> = None | Some(value: T)

  /** `count || 0` on a count the backend may return as null. */
  function OrZero(c: Option<nat>): (r: nat)
    ensures c.None? ==> r == 0
    ensures c.Some? ==> r == c.value
  {
    match c
    case None => 0
    case Some(n) => n
  }

  /** `s || ""` on an optional string: both null and the empty string give "". */
  function OrEmpty(s: Option<string>): (r: string)
    ensures s.None? ==> r == ""
    ensures s.Some? ==> r == s.value
  {
    match s
    case None => ""
    case Some(v) => v
  }

  /** `Math.round(t / p)` for naturals: the nearest natural to t/p, halves
      rounded up. In exact arithmetic this is floor((2t + p) / (2p)). */
  function MathRound(t: nat, p: nat): (r: nat)
    requires p > 0
    ensures 2 * p * r <= 2 * t + p < 2 * p * r + 2 * p
  {
    var n, d := 2 * t + p, 2 * p;
    var q := n / d;
    assert n == d * q + n % d;
    assert 2 * p * q == d * q;
    q
  }

  /** The rounding is determined by its bracketing property: whatever
      natural r satisfies it is MathRound(t, p). */
  lemma MathRoundUnique(t: nat, p: nat, r: nat)
    requires p > 0
    requires 2 * p * r <= 2 * t + p < 2 * p * r + 2 * p
    ensures r == MathRound(t, p)
  {
    var m := MathRound(t, p);
    if r < m {
      MulMono(2 * p, r + 1, m);
    } else if m < r {
      MulMono(2 * p, m + 1, r);
    }
  }

  lemma MulMono(k: nat, a: nat, b: nat)
    requires a <= b
    ensures k * a <= k * b
  {
  }
}
