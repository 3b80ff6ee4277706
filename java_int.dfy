/**
 * The Java integer operations the login header uses: narrowing a `long` to
 * an `int`, `int` division (which truncates toward zero) and
 * `Integer.toString`, with the parse that inverts it.
 */
module JavaInt {
  import opened Wrappers

  const INT_MIN: int := -0x8000_0000
  const INT_MAX: int := 0x7fff_ffff
  const TWO_32: int := 0x1_0000_0000

  predicate InIntRange(x: int)
  {
    INT_MIN <= x <= INT_MAX
  }

  /** `(int) x` for a long `x`: keeps the low 32 bits, read as two's complement. */
  function NarrowToInt(x: int): (r: int)
    ensures InIntRange(r)
    ensures (x - r) % TWO_32 == 0
    ensures InIntRange(x) ==> r == x
  {
    var low := x % TWO_32;
    if low > INT_MAX then low - TWO_32 else low
  }

  /** Java's `a / b` for a positive divisor: the quotient rounded toward zero. */
  function Quot(a: int, b: int): (q: int)
    requires b > 0
    ensures 0 <= a ==> 0 <= a - q * b < b
    ensures a < 0 ==> -b < a - q * b <= 0
  {
    if a >= 0 then a / b else -((-a) / b)
  }

  function DigitChar(d: int): (c: char)
    requires 0 <= d < 10
    ensures '0' <= c <= '9'
  {
    ('0' as int + d) as char
  }

  function DigitValue(c: char): (d: int)
    requires '0' <= c <= '9'
    ensures 0 <= d < 10
  {
    c as int - '0' as int
  }

  predicate AllDigits(s: string)
  {
    forall i :: 0 <= i < |s| ==> '0' <= s[i] <= '9'
  }

  /** The decimal digits of `n`, most significant first, with no leading zero. */
  function NatToDecimal(n: nat): (s: string)
    ensures |s| >= 1 && AllDigits(s)
    ensures s[0] == '0' ==> n == 0
  {
    if n < 10 then [DigitChar(n)] else NatToDecimal(n / 10) + [DigitChar(n % 10)]
  }

  /** `Integer.toString`: a minus sign for a negative number, then its digits. */
  function DecimalString(n: int): (s: string)
    ensures n < 0 ==> |s| >= 2 && s[0] == '-' && AllDigits(s[1..]) && s[1] != '0'
    ensures n >= 0 ==> |s| >= 1 && AllDigits(s) && (s[0] == '0' ==> n == 0)
  {
    if n < 0 then "-" + NatToDecimal(-n) else NatToDecimal(n)
  }

  function ParseDigits(s: string): nat
    requires |s| >= 1 && AllDigits(s)
  {
    if |s| == 1 then DigitValue(s[0])
    else ParseDigits(s[..|s| - 1]) * 10 + DigitValue(s[|s| - 1])
  }

  /** How a client reads the header back: an optional minus sign followed by at least one digit. */
  function ParseDecimal(s: string): Option<int>
  {
    if |s| >= 2 && s[0] == '-' && AllDigits(s[1..]) then Some(-(ParseDigits(s[1..]) as int))
    else if |s| >= 1 && AllDigits(s) then Some(ParseDigits(s))
    else None
  }

  lemma {:induction false} ParseNatToDecimal(n: nat)
    ensures ParseDigits(NatToDecimal(n)) == n
  {
    if n >= 10 {
      var s := NatToDecimal(n);
      assert s[..|s| - 1] == NatToDecimal(n / 10);
      ParseNatToDecimal(n / 10);
    }
  }

  /** Reading `Integer.toString(n)` back gives `n`, for every `n`. */
  lemma DecimalRoundTrip(n: int)
    ensures ParseDecimal(DecimalString(n)) == Some(n)
  {
    if n < 0 {
      var s := DecimalString(n);
      assert s[1..] == NatToDecimal(-n);
      ParseNatToDecimal(-n);
    } else {
      ParseNatToDecimal(n);
    }
  }
}
