/** JavaScript number conversions: `parseInt` (without a radix argument),
    `Number.prototype.toString` on integers, and `Math.ceil(a / b)`. */
module Numbers {
  import opened Wrappers
  import Text

  predicate IsDecimalDigit(c: char) {
    '0' <= c <= '9'
  }

  predicate IsHexDigit(c: char) {
    IsDecimalDigit(c) || 'a' <= c <= 'f' || 'A' <= c <= 'F'
  }

  predicate IsDigit(c: char, radix: nat) {
    if radix == 16 then IsHexDigit(c) else IsDecimalDigit(c)
  }

  function DigitValue(c: char): nat {
    if IsDecimalDigit(c) then c as int - '0' as int
    else if 'a' <= c <= 'f' then c as int - 'a' as int + 10
    else if 'A' <= c <= 'F' then c as int - 'A' as int + 10
    else 0
  }

  /** Length of the longest prefix of `s` made of digits in `radix`. */
  function DigitRun(s: string, radix: nat): (n: nat)
    ensures n <= |s|
    ensures forall k :: 0 <= k < n ==> IsDigit(s[k], radix)
    ensures n < |s| ==> !IsDigit(s[n], radix)
  {
    if s == [] || !IsDigit(s[0], radix) then 0 else 1 + DigitRun(s[1..], radix)
  }

  /** The value of a string of digits, most significant first. */
  function DigitsValue(s: string, radix: nat): nat {
    if s == [] then 0 else DigitsValue(s[..|s| - 1], radix) * radix + DigitValue(s[|s| - 1])
  }

  /** The magnitude read after the sign: a `0x`/`0X` prefix selects radix 16. */
  function ParseMagnitude(u: string): Option<nat> {
    var hex := |u| >= 2 && u[0] == '0' && (u[1] == 'x' || u[1] == 'X');
    var radix := if hex then 16 else 10;
    var body := if hex then u[2..] else u;
    var n := DigitRun(body, radix);
    if n == 0 then None else Some(DigitsValue(body[..n], radix))
  }

  /** JavaScript `parseInt(s)`: skip leading white space, read an optional sign
      and the longest run of digits; `None` stands for `NaN`. */
  function ParseInt(s: string): Option<int> {
    ParseSigned(s[Text.LeadingSpace(s)..])
  }

  /** `parseInt` once leading white space is gone. */
  function ParseSigned(t: string): Option<int> {
    if t != [] && (t[0] == '-' || t[0] == '+') then
      match ParseMagnitude(t[1..])
      case None => None
      case Some(m) => var v: int := m; Some(if t[0] == '-' then -v else v)
    else
      match ParseMagnitude(t)
      case None => None
      case Some(m) => Some(m)
  }

  function DigitChar(d: nat): char
    requires d < 10
  {
    ('0' as int + d) as char
  }

  /** Decimal digits of a natural number, without leading zeros. */
  function NatDigits(n: nat): (s: string)
    ensures |s| >= 1
    ensures forall k :: 0 <= k < |s| ==> IsDecimalDigit(s[k])
  {
    if n < 10 then [DigitChar(n)] else NatDigits(n / 10) + [DigitChar(n % 10)]
  }

  /** `n.toString()` for an integer `n`. */
  function IntToString(n: int): string {
    if n < 0 then "-" + NatDigits(-n) else NatDigits(n)
  }

  lemma {:induction false} NatDigitsValue(n: nat)
    ensures DigitsValue(NatDigits(n), 10) == n
  {
    if n >= 10 {
      var s := NatDigits(n);
      assert s[..|s| - 1] == NatDigits(n / 10);
      NatDigitsValue(n / 10);
    }
  }

  lemma DigitRunAll(s: string)
    requires forall k :: 0 <= k < |s| ==> IsDecimalDigit(s[k])
    ensures DigitRun(s, 10) == |s|
  {
  }

  /** `parseInt` reads back what `toString` writes. */
  lemma ParseIntOfToString(n: int)
    ensures ParseInt(IntToString(n)) == Some(n)
  {
    var s := IntToString(n);
    var d := NatDigits(if n < 0 then -n else n);
    assert Text.LeadingSpace(s) == 0;
    assert s[0..] == s;
    assert ParseInt(s) == ParseSigned(s);
    DigitRunAll(d);
    assert d[..|d|] == d;
    NatDigitsValue(if n < 0 then -n else n);
    if n < 0 {
      assert s[1..] == d;
    }
  }

  /** `Math.ceil(a / b)` for a positive divisor. */
  function CeilDiv(a: int, b: int): (q: int)
    requires b > 0
    ensures b * (q - 1) < a <= b * q
    ensures a >= 0 ==> q >= 0
  {
    if a % b == 0 then a / b else a / b + 1
  }
}
