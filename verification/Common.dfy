/** Vocabulary shared by the models. Instants and durations are integers counting
    nanoseconds, as in Go's `time` package. */
module Common {

  datatype Option<+T> = None | Some(value: T)

  const SECOND: int := 1_000_000_000
  const MINUTE: int := 60 * SECOND

  function Max(a: int, b: int): int {
    if a < b then b else a
  }

  function Min(a: int, b: int): int {
    if a < b then a else b
  }

  /** Go's integer division truncates toward zero. */
  function TruncDiv(a: int, b: int): int
    requires b > 0
  {
    if a >= 0 then a / b else -((-a) / b)
  }

  lemma MulMono(n: int, x: int, y: int)
    requires 0 <= n && x <= y
    ensures n * x <= n * y
  {
  }

  /** The integer quotient is the largest number of whole `n`s that fit. */
  lemma QuotientBounds(a: int, n: int, q: int)
    requires n > 0
    ensures n * q <= a <==> q <= a / n
  {
    assert n * (a / n) <= a < n * (a / n) + n;
    if q <= a / n {
      MulMono(n, q, a / n);
    } else {
      MulMono(n, a / n + 1, q);
    }
  }

  lemma QuotientMono(a: int, b: int, n: int)
    requires n > 0 && a <= b
    ensures a / n <= b / n
  {
    QuotientBounds(a, n, a / n);
    QuotientBounds(b, n, a / n);
  }

  lemma QuotientIs(a: int, n: int, q: int, m: int)
    requires 0 <= m < n && a == n * q + m
    ensures a / n == q && a % n == m
  {
    assert n * (q + 1) == n * q + n;
    QuotientBounds(a, n, q);
    QuotientBounds(a, n, q + 1);
  }

  lemma QuotientBetween(a: int, n: int, lo: int, hi: int)
    requires n > 0 && n * lo <= a <= n * hi
    ensures lo <= a / n <= hi
  {
    QuotientBounds(a, n, lo);
    QuotientBounds(a, n, hi + 1);
    assert n * (hi + 1) == n * hi + n;
  }

  lemma MulNegate(n: int, x: int)
    ensures n * (-x) == -(n * x)
  {
  }

  /** A truncated average stays between the bounds on the terms. */
  lemma TruncDivBetween(total: int, n: int, lo: int, hi: int)
    requires n > 0
    requires n * lo <= total <= n * hi
    ensures lo <= TruncDiv(total, n) <= hi
  {
    if total >= 0 {
      QuotientBetween(total, n, lo, hi);
    } else {
      MulNegate(n, lo);
      MulNegate(n, hi);
      QuotientBetween(-total, n, -hi, -lo);
    }
  }

  /** It drops the fraction, on either side of zero. */
  lemma TruncDivDropsFraction(a: int, b: int)
    requires b > 0
    ensures TruncDiv(-a, b) == -TruncDiv(a, b)
    ensures a >= 0 ==> b * TruncDiv(a, b) <= a < b * (TruncDiv(a, b) + 1)
  {
    if a >= 0 {
      QuotientBounds(a, b, a / b);
      QuotientBounds(a, b, a / b + 1);
    }
  }

  function Sum(s: seq<int>): int {
    if s == [] then 0 else Sum(s[..|s| - 1]) + s[|s| - 1]
  }

  lemma {:induction false} SumBetween(s: seq<int>, lo: int, hi: int)
    requires forall x :: x in s ==> lo <= x <= hi
    ensures |s| * lo <= Sum(s) <= |s| * hi
  {
    if s == [] {
    } else {
      var n := |s| - 1;
      assert s[n] in s;
      forall x | x in s[..n]
        ensures lo <= x <= hi
      {
        assert x in s;
      }
      SumBetween(s[..n], lo, hi);
      assert |s| * lo == n * lo + lo && |s| * hi == n * hi + hi;
    }
  }
}
