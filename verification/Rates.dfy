/** Threshold arithmetic of the overload and recovery tests, over exact rates.

    A single report compares a ratio with a rate; a batched report inverts the
    comparison and computes how many results would reach the rate. */
module Rates {
  type Rate = r: real | 0.0 < r < 1.0 witness 0.5

  /** `part * 1.0 / (part + rest)`. */
  function Share(part: nat, rest: nat): real
    requires part + rest > 0
  {
    part as real / (part + rest) as real
  }

  /** The number of results the batched reports ask for: a truncated quotient,
      increased by one when it falls short of the rate. With no results on
      either side the ratio is 0/0, which no comparison in the code accepts. */
  function Needed(rate: Rate, other: nat): nat {
    var n := Odds(rate, other).Floor;
    FloorOfOdds(rate, other, 0);
    if n + other > 0 && Share(n, other) < rate then n + 1 else n
  }

  /** The count that reaches the rate exactly, as a real number. */
  function Odds(rate: Rate, other: nat): real {
    rate * other as real / (1.0 - rate)
  }

  /** The least count whose share is strictly above the rate: the point at
      which the test of a single report first fires. */
  function FirstOver(rate: Rate, other: nat): nat {
    FloorOfOdds(rate, other, 0);
    Odds(rate, other).Floor + 1
  }

  lemma FloorOfOdds(rate: Rate, other: nat, n: nat)
    ensures Odds(rate, other) >= 0.0
    ensures n > Odds(rate, other).Floor <==> n as real > Odds(rate, other)
  {
    var q, d := Odds(rate, other), 1.0 - rate;
    assert q * d == rate * other as real >= 0.0;
  }

  /** Cross-multiplication with the positive number 1 - rate. */
  lemma OddsCross(rate: Rate, other: nat, n: nat)
    ensures n as real > Odds(rate, other) <==> n as real * (1.0 - rate) > rate * other as real
    ensures n as real >= Odds(rate, other) <==> n as real * (1.0 - rate) >= rate * other as real
  {
    var q, d := Odds(rate, other), 1.0 - rate;
    assert q * d == rate * other as real;
    var x := n as real;
    if x > q { assert (x - q) * d > 0.0; }
    if x < q { assert (q - x) * d > 0.0; }
  }

  lemma ShareCross(rate: Rate, part: nat, rest: nat)
    requires part + rest > 0
    ensures Share(part, rest) > rate <==> part as real * (1.0 - rate) > rate * rest as real
    ensures Share(part, rest) >= rate <==> part as real * (1.0 - rate) >= rate * rest as real
  {
    var s, t, p := Share(part, rest), (part + rest) as real, part as real;
    assert s * t == p;
    assert p * (1.0 - rate) - rate * rest as real == s * t - rate * t == (s - rate) * t;
    if s > rate { assert (s - rate) * t > 0.0; }
    if s < rate { assert (rate - s) * t > 0.0; }
  }

  /** The single report's test, `part / (part + rest) > rate`, first fires at `FirstOver`. */
  lemma ShareAboveRate(rate: Rate, part: nat, rest: nat)
    requires part + rest > 0
    ensures Share(part, rest) > rate <==> part >= FirstOver(rate, rest)
  {
    ShareCross(rate, part, rest);
    OddsCross(rate, rest, part);
    FloorOfOdds(rate, rest, part);
  }

  /** Truncate-then-increase computes the least count that reaches the rate:
      for every n, n is at least `Needed` exactly when n/(n + other) >= rate. */
  lemma NeededIsLeast(rate: Rate, other: nat, n: nat)
    ensures n >= Needed(rate, other) <==> n as real * (1.0 - rate) >= rate * other as real
    ensures n + other > 0 ==> (n >= Needed(rate, other) <==> Share(n, other) >= rate)
  {
    var q := Odds(rate, other);
    FloorOfOdds(rate, other, n);
    OddsCross(rate, other, n);
    var m := q.Floor;
    OddsCross(rate, other, m);
    if m + other > 0 { ShareCross(rate, m, other); }
    if n + other > 0 { ShareCross(rate, n, other); }
    assert n >= Needed(rate, other) <==> n as real >= q by {
      assert m as real <= q < m as real + 1.0;
      if m as real == q {
      } else if m + other > 0 {
        assert Needed(rate, other) == m + 1;
      }
    }
  }

  /** The two tests differ by at most one result, and by none unless the rate is hit exactly. */
  lemma NeededVersusFirstOver(rate: Rate, other: nat)
    ensures Needed(rate, other) <= FirstOver(rate, other) <= Needed(rate, other) + 1
    ensures FirstOver(rate, other) == Needed(rate, other)
       <==> Needed(rate, other) as real * (1.0 - rate) > rate * other as real
  {
    var need := Needed(rate, other);
    NeededIsLeast(rate, other, FirstOver(rate, other));
    NeededIsLeast(rate, other, need);
    OddsCross(rate, other, need);
    OddsCross(rate, other, FirstOver(rate, other));
    FloorOfOdds(rate, other, need);
  }
}
