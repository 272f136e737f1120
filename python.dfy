/** The Python built-ins the weather tools lean on, over the values they meet:
    list indexing with negative indices, slicing, substring search, `round`,
    floor modulo and `float()` on numbers and strings. */
module Python {

  datatype Option<T> = None | Some(value: T)

  /** A dynamically typed value as the tools pass it around: a JSON number,
      a string (most often the "N/A" default) or Python's None. A number is
      an exact real: the rounding of IEEE doubles is not modelled. */
  datatype Value = Num(x: real) | Str(s: string) | NoneValue

  /** `sub in s` on strings. */
  predicate Contains(s: string, sub: string)
    decreases |s|
  {
    |sub| <= |s| && (s[..|sub|] == sub || Contains(s[1..], sub))
  }

  lemma {:induction false} ContainsAt(s: string, sub: string, i: nat)
    requires i + |sub| <= |s| && s[i..i + |sub|] == sub
    ensures Contains(s, sub)
    decreases i
  {
    if i > 0 {
      assert s[1..][i - 1..i - 1 + |sub|] == s[i..i + |sub|];
      ContainsAt(s[1..], sub, i - 1);
    }
  }

  lemma {:induction false} ContainsWitness(s: string, sub: string) returns (i: nat)
    requires Contains(s, sub)
    ensures i + |sub| <= |s| && s[i..i + |sub|] == sub
    decreases |s|
  {
    if s[..|sub|] == sub {
      i := 0;
    } else {
      var j := ContainsWitness(s[1..], sub);
      assert s[1..][j..j + |sub|] == s[j + 1..j + 1 + |sub|];
      i := j + 1;
    }
  }

  /** `xs[i]` on a list: a negative index counts from the end, and None
      stands for the IndexError raised outside -|xs| .. |xs|-1. */
  function Index<T>(xs: seq<T>, i: int): (r: Option<T>)
    ensures r.Some? <==> -|xs| <= i < |xs|
    ensures 0 <= i < |xs| ==> r == Some(xs[i])
    ensures -|xs| <= i < 0 ==> r == Some(xs[|xs| + i])
  {
    if 0 <= i < |xs| then Some(xs[i])
    else if -|xs| <= i < 0 then Some(xs[|xs| + i])
    else None
  }

  /** `xs[:n]` for a non-negative n. */
  function Prefix<T>(xs: seq<T>, n: nat): (r: seq<T>)
    ensures |r| == if n <= |xs| then n else |xs|
    ensures r <= xs
  {
    if n <= |xs| then xs[..n] else xs
  }

  function Min(a: int, b: int): int { if a <= b then a else b }

  /** Python's `x % m` for a positive m, on exact reals: the remainder
      takes the sign of m, so it lies in [0, m), and x differs from it by a
      whole multiple of m. The two facts together leave one possible value. */
  function FloorMod(x: real, m: real): (r: real)
    requires m > 0.0
    ensures 0.0 <= r < m
    ensures ((x - r) / m).Floor as real == (x - r) / m
  {
    var q := (x / m).Floor;
    FloorBounds(x / m);
    DivMulBounds(x, m, q);
    var r := x - m * (q as real);
    assert x - r == m * (q as real);
    MulDiv(m, q as real);
    assert (x - r) / m == q as real;
    r
  }

  lemma MulDiv(m: real, k: real)
    requires m > 0.0
    ensures (m * k) / m == k
  {
  }

  lemma FloorBounds(y: real)
    ensures y.Floor as real <= y < y.Floor as real + 1.0
  {
  }

  lemma DivMulBounds(x: real, m: real, q: int)
    requires m > 0.0
    requires q as real <= x / m < q as real + 1.0
    ensures m * (q as real) <= x < m * (q as real) + m
  {
    var y, k := x / m, q as real;
    DivTimes(x, m);
    assert m * y == x;
    MulMonotone(m, k, y);
    assert m * k <= x;
    var k1 := k + 1.0;
    MulStrict(m, y, k1);
    assert x < m * k1;
    MulSucc(m, k);
    assert m * k1 == m * k + m;
    assert x < m * k + m;
  }

  lemma DivTimes(x: real, m: real)
    requires m > 0.0
    ensures m * (x / m) == x
  {
  }

  lemma MulSucc(m: real, k: real)
    ensures m * (k + 1.0) == m * k + m
  {
  }

  lemma MulMonotone(m: real, a: real, b: real)
    requires m > 0.0 && a <= b
    ensures m * a <= m * b
  {
  }

  lemma MulStrict(m: real, a: real, b: real)
    requires m > 0.0 && a < b
    ensures m * a < m * b
  {
  }

  /** Python 3's `round(x)` to an int: to the nearest integer, ties to the
      even neighbour. */
  function Round(x: real): (r: int)
    ensures -0.5 <= x - r as real <= 0.5
    ensures x - r as real == 0.5 || x - r as real == -0.5 ==> r % 2 == 0
  {
    var f := x.Floor;
    FloorBounds(x);
    var frac := x - f as real;
    if frac < 0.5 then f
    else if frac > 0.5 then f + 1
    else if f % 2 == 0 then f
    else f + 1
  }

  predicate IsDigit(c: char) { '0' <= c <= '9' }

  predicate AllDigits(s: string) { forall i | 0 <= i < |s| :: IsDigit(s[i]) }

  /** The number a run of decimal digits spells. */
  function DigitsValue(s: string): nat
    requires AllDigits(s)
    decreases |s|
  {
    if s == [] then 0
    else 10 * DigitsValue(s[..|s| - 1]) + (s[|s| - 1] as int - '0' as int)
  }

  function Pow10(n: nat): (r: nat)
    ensures r > 0
  {
    if n == 0 then 1 else 10 * Pow10(n - 1)
  }

  /** The first position of c in s. */
  function Find(s: string, c: char): (r: Option<nat>)
    ensures r.None? <==> c !in s
    ensures r.Some? ==> r.value < |s| && s[r.value] == c && c !in s[..r.value]
  {
    if s == [] then None
    else if s[0] == c then Some(0)
    else
      match Find(s[1..], c)
      case None => None
      case Some(k) =>
        assert s[..k + 1] == [s[0]] + s[1..][..k];
        Some(k + 1)
  }

  /** Digits with at most one decimal point and at least one digit: the
      unsigned numerals `float()` accepts ("12", "12.5", "5.", ".5"). */
  function ParseUnsigned(s: string): Option<real> {
    match Find(s, '.')
    case None =>
      if s != [] && AllDigits(s) then Some(DigitsValue(s) as real) else None
    case Some(k) =>
      var whole, frac := s[..k], s[k + 1..];
      if AllDigits(whole) && AllDigits(frac) && |whole| + |frac| > 0 then
        Some(DigitsValue(whole) as real + DigitsValue(frac) as real / Pow10(|frac|) as real)
      else None
  }

  /** `float(s)` on a string: an optional sign and a decimal numeral; None
      stands for the ValueError. */
  function ParseFloat(s: string): Option<real> {
    if |s| > 0 && s[0] == '-' then
      match ParseUnsigned(s[1..])
      case None => None
      case Some(x) => Some(-x)
    else if |s| > 0 && s[0] == '+' then ParseUnsigned(s[1..])
    else ParseUnsigned(s)
  }

  /** `float(v)`: numbers convert to themselves, strings are parsed, and
      None (a TypeError) does not convert. */
  function ToFloat(v: Value): Option<real> {
    match v
    case Num(x) => Some(x)
    case Str(s) => ParseFloat(s)
    case NoneValue => None
  }

  /** `str(n)` for a natural number. */
  function IntegerText(n: nat): (r: string)
    ensures r != [] && AllDigits(r)
  {
    if n < 10 then [('0' as int + n) as char]
    else IntegerText(n / 10) + [('0' as int + n % 10) as char]
  }

  /** `float(str(n)) == n` on exact reals: an integer written in decimal
      reads back as itself. */
  lemma {:induction false} ParseIntegerText(n: nat)
    ensures ParseFloat(IntegerText(n)) == Some(n as real)
  {
    DigitsOfIntegerText(n);
    var s := IntegerText(n);
    assert s[0] != '-' && s[0] != '+' by { assert IsDigit(s[0]); }
  }

  lemma {:induction false} DigitsOfIntegerText(n: nat)
    ensures DigitsValue(IntegerText(n)) == n
  {
    if n >= 10 {
      DigitsOfIntegerText(n / 10);
      var s := IntegerText(n);
      assert s[..|s| - 1] == IntegerText(n / 10);
    }
  }
}
