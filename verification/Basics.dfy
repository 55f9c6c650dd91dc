/** Shared vocabulary: optional values and the two roundings Python performs. */
module Basics {

  datatype Option<+T> = None | Some(value: T)

  /** Python's round(x): to the nearest integer, a tie going to the even neighbour. */
  function RoundHalfEven(x: real): (n: int)
    ensures -0.5 <= x - n as real <= 0.5
    ensures x == n as real - 0.5 || x == n as real + 0.5 ==> n % 2 == 0
  {
    var below := x.Floor;
    var rest := x - below as real;
    if rest < 0.5 then below
    else if rest > 0.5 then below + 1
    else if below % 2 == 0 then below
    else below + 1
  }

  /** The two clauses above leave one candidate, and rounding keeps the order of its arguments. */
  lemma RoundingIsMonotone(x: real, y: real)
    requires x <= y
    ensures RoundHalfEven(x) <= RoundHalfEven(y)
  {
  }

  /** Python's round(x, 3), kept as a count of thousandths. */
  function Millis(x: real): int {
    RoundHalfEven(x * 1000.0)
  }

  /** Python's round(x, 3) as a number. */
  function Rounded(x: real): real {
    Millis(x) as real / 1000.0
  }

  /** The number itself is within half a thousandth, a tie going to the even one. */
  lemma RoundedIsNearest(x: real) returns (n: int)
    ensures Rounded(x) * 1000.0 == n as real
    ensures -0.5 <= 1000.0 * x - n as real <= 0.5
    ensures 1000.0 * x == n as real - 0.5 || 1000.0 * x == n as real + 0.5 ==> n % 2 == 0
  {
    n := Millis(x);
  }

  /** Python's xs[:k], negative k included. */
  function Upto<T>(xs: seq<T>, k: int): seq<T> {
    if k >= |xs| then xs else if k >= 0 then xs[..k] else if -k >= |xs| then [] else xs[..|xs| + k]
  }

  /** A cut keeps a prefix: the first k, or with a negative k all but the last -k. */
  lemma UptoIsPrefix<T>(xs: seq<T>, k: int)
    ensures Upto(xs, k) <= xs
    ensures k >= 0 ==> |Upto(xs, k)| == (if k <= |xs| then k else |xs|)
    ensures k < 0 ==> |Upto(xs, k)| == (if -k <= |xs| then |xs| + k else 0)
  {
  }

  lemma Undivided(a: real, b: real)
    requires b != 0.0
    ensures (a / b) * b == a
  {
  }
}
