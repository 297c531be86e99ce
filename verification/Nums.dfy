/** Small numeric vocabulary shared by every model: Python's `abs`, `min`, `max`,
    `math.floor`, `math.ceil` and `round` on exact reals, and optional values. */
module Nums {
  datatype Option<+T> = None | Some(value: T)

  function Abs(x: real): real {
    if x < 0.0 then -x else x
  }

  function Max(x: real, y: real): real {
    if x < y then y else x
  }

  function Min(x: real, y: real): real {
    if y < x then y else x
  }

  function MaxInt(x: int, y: int): int {
    if x < y then y else x
  }

  function MinInt(x: int, y: int): int {
    if y < x then y else x
  }

  function Floor(x: real): int {
    x.Floor
  }

  function Ceil(x: real): int {
    -(-x).Floor
  }

  /** Python 3 `round(x)`: nearest integer, halves to the even neighbour. */
  function Round(x: real): int {
    var f := x.Floor;
    var d := x - f as real;
    if d < 0.5 then f
    else if d > 0.5 then f + 1
    else if f % 2 == 0 then f
    else f + 1
  }

  lemma RoundIsNearest(x: real, k: int)
    ensures Abs(Round(x) as real - x) <= 0.5
    ensures Abs(Round(x) as real - x) <= Abs(k as real - x)
  {
    var f := x.Floor;
    if k <= f {
      assert k as real <= f as real;
    } else {
      assert k as real >= (f + 1) as real;
    }
  }

  predicate Whole(x: real) {
    x.Floor as real == x
  }

  lemma IntsAreWhole(n: int)
    ensures Whole(n as real)
  {
  }

  /** A value just between two integers goes to the even one. */
  lemma RoundTies(n: int)
    ensures Round(n as real + 0.5) == if n % 2 == 0 then n else n + 1
  {
  }

  lemma RoundMonotone(x: real, y: real)
    requires x <= y
    ensures Round(x) <= Round(y)
  {
  }

  lemma MulAtLeast(d: int, k: int)
    requires k >= 1
    ensures d >= 1 ==> d * k >= k
    ensures d <= -1 ==> d * k <= -k
  {
  }

  lemma ModIs(a: int, q: int, r: int, k: int)
    requires k >= 1 && a == q * k + r && 0 <= r < k
    ensures a % k == r
  {
    var d := q - a / k;
    assert d * k == a % k - r;
    MulAtLeast(d, k);
  }
}
