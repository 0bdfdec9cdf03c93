/** Python's integer division, ceiling and slicing rules, written out for Dafny's unbounded ints. */
module PyOps {

  function Max(a: int, b: int): int { if a >= b then a else b }
  function Min(a: int, b: int): int { if a <= b then a else b }

  /** Python `a // b`: rounds toward negative infinity (Dafny's `/` is Euclidean). */
  function FloorDiv(a: int, b: int): (q: int)
    requires b != 0
    ensures b * q <= a < b * q + b || b * q + b < a <= b * q
  {
    if b > 0 then a / b else (-a) / (-b)
  }

  /** `math.ceil(a / b)`, taken exactly (the source divides in floating point). */
  function CeilDiv(a: int, b: int): (q: int)
    requires b != 0
  {
    -FloorDiv(-a, b)
  }

  /** Division is determined by its quotient-remainder decomposition. */
  lemma DivUnique(x: int, b: int, q: int, r: int)
    requires b > 0 && 0 <= r < b && x == q * b + r
    ensures x / b == q
  {
    var q', r' := x / b, x % b;
    assert x == q' * b + r';
    assert (q - q') * b == r' - r;
    if q > q' {
      MulAtLeast(q - q', b);
    } else if q < q' {
      MulAtLeast(q' - q, b);
    }
  }

  lemma MulAtLeast(d: int, b: int)
    requires d >= 1 && b > 0
    ensures d * b >= b
  {
  }

  lemma CeilDivPositive(a: int, b: int)
    requires a >= 0 && b >= 1
    ensures CeilDiv(a, b) == (a + b - 1) / b
    ensures CeilDiv(a, b) * b >= a
    ensures (CeilDiv(a, b) - 1) * b < a
  {
    var q, r := (a + b - 1) / b, (a + b - 1) % b;
    assert a + b - 1 == q * b + r;
    assert -a == (-q) * b + (b - 1 - r);
    DivUnique(-a, b, -q, b - 1 - r);
    assert FloorDiv(-a, b) == -q;
    assert (q - 1) * b == q * b - b;
  }

  /** Where a (possibly negative) slice bound lands in a sequence of length `n`. */
  function SliceBound(i: int, n: nat): (r: nat)
    ensures r <= n
  {
    if i < 0 then (if i + n < 0 then 0 else i + n) else if i > n then n else i
  }

  /** Python `s[lo:hi]` for a list: negative bounds count from the end, out-of-range ones are clipped. */
  function PySlice<T>(s: seq<T>, lo: int, hi: int): (r: seq<T>)
    ensures |r| <= |s|
  {
    var a := SliceBound(lo, |s|);
    var b := SliceBound(hi, |s|);
    if a < b then s[a..b] else []
  }

  lemma PySliceNonNegative<T>(s: seq<T>, lo: int, hi: int)
    requires 0 <= lo <= hi
    ensures PySlice(s, lo, hi) == s[Min(lo, |s|)..Min(hi, |s|)]
    ensures |PySlice(s, lo, hi)| <= hi - lo
  {
  }

  /** Python `s[i]`: negative indices count from the end; `None` models IndexError. */
  function PyIndex<T>(s: seq<T>, i: int): (r: T)
    requires -|s| <= i < |s|
    ensures r == s[if i >= 0 then i else i + |s|]
  {
    if i >= 0 then s[i] else s[i + |s|]
  }

  /** Regrouping a concatenation: what a loop has appended so far, one more step, and the rest. */
  lemma AppendStep<T>(done: seq<T>, step: seq<T>, rest: seq<T>, all: seq<T>)
    requires done + (step + rest) == all
    ensures (done + step) + rest == all
  {
  }
}
