/** Small vocabulary shared by every module: optional values and decimal numerals. */
module Common {

  datatype Option<T> = None | Some(value: T) {
    function GetOr(default: T): T { if Some? then value else default }

    /** SQL's COALESCE(this, other), and Python's `this if this is not None else other`. */
    function OrElse(other: Option<T>): Option<T> {
      if Some? then this else other
    }
  }

  function LowerChar(c: char): char { if 'A' <= c <= 'Z' then (c as int + 32) as char else c }

  /** ASCII lower case. */
  function Lower(s: string): string { seq(|s|, i requires 0 <= i < |s| => LowerChar(s[i])) }

  /** Nearest integer, ties to the even neighbour, as Python's `round`. */
  function RoundHalfEven(v: real): int {
    var f := v.Floor;
    var d := v - f as real;
    if d < 0.5 then f else if d > 0.5 then f + 1 else if f % 2 == 0 then f else f + 1
  }

  lemma Scaled(p: real, q: real, factor: real)
    requires factor > 0.0
    ensures p <= q ==> p * factor <= q * factor
    ensures p < q ==> p * factor < q * factor
  {
    if p < q {
      assert (q - p) * factor > 0.0;
    }
  }

  /** A quotient compares with a bound as its numerator does with the scaled bound. */
  lemma QuotientCompares(a: real, b: real, bound: real)
    requires b > 0.0
    ensures a / b < bound <==> a < bound * b
    ensures a / b > bound <==> a > bound * b
  {
    var q := a / b;
    assert q * b == a;
    if q < bound {
      Scaled(q, bound, b);
    } else if bound < q {
      Scaled(bound, q, b);
    }
  }

  const DIGITS := "0123456789"

  /** The decimal numeral that `str(n)` and `f"{n}"` print. */
  function Numeral(n: nat): string {
    if n < 10 then [DIGITS[n]] else Numeral(n / 10) + [DIGITS[n % 10]]
  }

  function DigitValue(c: char): nat {
    if '0' <= c <= '9' then (c - '0') as nat else 0
  }

  function ReadNumeral(s: string): nat {
    if s == "" then 0 else 10 * ReadNumeral(s[..|s| - 1]) + DigitValue(s[|s| - 1])
  }

  lemma DigitRoundTrip(d: nat)
    requires d < 10
    ensures DigitValue(DIGITS[d]) == d
  {
  }

  lemma {:induction false} NumeralRoundTrip(n: nat)
    ensures ReadNumeral(Numeral(n)) == n
  {
    DigitRoundTrip(n % 10);
    if n < 10 {
      assert Numeral(n)[..0] == "";
    } else {
      NumeralRoundTrip(n / 10);
      assert Numeral(n)[..|Numeral(n)| - 1] == Numeral(n / 10);
    }
  }

  /** Numbered names such as `fold_gutter_3` never collide. */
  lemma NumeralInjective(m: nat, n: nat)
    requires Numeral(m) == Numeral(n)
    ensures m == n
  {
    NumeralRoundTrip(m);
    NumeralRoundTrip(n);
  }
}
