/** The text side of the `enable` and `dr_mode` attributes: the decimal line a
    show handler prints with `sprintf(buf, "%d\n", val)`, and reading such a
    line back as a value, which is what a store of that text hands over. */
module Mag3110Sysfs {

  /** The result of parsing a decimal control value: `None` when it does not parse. */
  datatype Option<T> = None | Some(value: T)

  predicate IsDigit(c: char) {
    '0' <= c <= '9'
  }

  predicate AllDigits(s: string) {
    forall i :: 0 <= i < |s| ==> IsDigit(s[i])
  }

  /** The character of one decimal digit. */
  function DigitChar(d: nat): (c: char)
    requires d < 10
    ensures IsDigit(c) && c as int - '0' as int == d
  {
    ('0' as int + d) as char
  }

  /** The digits `%d` prints for a non-negative value: at least one, and no
      leading zero. */
  function DecimalDigits(n: nat): (s: string)
    ensures 1 <= |s| && AllDigits(s)
    ensures |s| > 1 ==> s[0] != '0'
    decreases n
  {
    if n < 10 then [DigitChar(n)] else DecimalDigits(n / 10) + [DigitChar(n % 10)]
  }

  /** The value of a string of decimal digits, most significant first. */
  function DigitsValue(s: string): nat
    requires AllDigits(s)
    decreases |s|
  {
    if |s| == 0 then 0 else DigitsValue(s[..|s| - 1]) * 10 + (s[|s| - 1] as int - '0' as int)
  }

  /** The line a show handler prints for a value: its digits and a newline. */
  function DecimalLine(n: nat): (s: string)
    ensures 2 <= |s| && s[|s| - 1] == '\n'
    ensures AllDigits(s[..|s| - 1])
  {
    DecimalDigits(n) + "\n"
  }

  /** Reading a control line as a decimal value: one or more digits, followed
      by at most one newline. Anything else does not parse. */
  function ParseDecimal(s: string): (r: Option<nat>)
    ensures r.Some? ==> 1 <= |s| && IsDigit(s[0])
  {
    var body := if |s| > 0 && s[|s| - 1] == '\n' then s[..|s| - 1] else s;
    if |body| > 0 && AllDigits(body) then Some(DigitsValue(body)) else None
  }

  /** Reading the printed digits gives the value back. */
  lemma {:induction false} DigitsValueOfDecimal(n: nat)
    ensures DigitsValue(DecimalDigits(n)) == n
    decreases n
  {
    if n >= 10 {
      var s := DecimalDigits(n / 10);
      DigitsValueOfDecimal(n / 10);
      var t := s + [DigitChar(n % 10)];
      assert t[..|t| - 1] == s;
    }
  }

  /** What a show handler prints parses back to the value it showed. */
  lemma ParseDecimalLine(n: nat)
    ensures ParseDecimal(DecimalLine(n)) == Some(n)
  {
    var s := DecimalLine(n);
    assert s[..|s| - 1] == DecimalDigits(n);
    DigitsValueOfDecimal(n);
  }
}
