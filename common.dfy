/** Values and request-field conventions shared by the attendance and fruit-process handlers. */
module Common {

  datatype Option<+T> = None | Some(value: T)

  /** JavaScript truthiness of a request field that should hold a string:
      a missing field, `null` and the empty string are all falsy. */
  predicate Present(s: Option<string>) {
    s.Some? && s.value != ""
  }

  predicate IsDigit(c: char) {
    '0' <= c <= '9'
  }

  predicate AllDigits(s: string) {
    forall i :: 0 <= i < |s| ==> IsDigit(s[i])
  }

  function DigitValue(c: char): (v: nat)
    requires IsDigit(c)
    ensures v <= 9
  {
    c as int - '0' as int
  }

  function DigitChar(v: nat): (c: char)
    requires v <= 9
    ensures IsDigit(c) && DigitValue(c) == v
  {
    ('0' as int + v) as char
  }

  /** Length of the run of ASCII digits at the start of `s`. */
  function DigitRunLength(s: string): (n: nat)
    ensures n <= |s|
    ensures AllDigits(s[..n])
    ensures n < |s| ==> !IsDigit(s[n])
  {
    if s == [] || !IsDigit(s[0]) then 0
    else
      var n := 1 + DigitRunLength(s[1..]);
      assert s[..n] == [s[0]] + s[1..][..n - 1];
      n
  }

  /** Decimal value of a string of digits, most significant digit first. */
  function DigitsValue(s: string): nat
    requires AllDigits(s)
  {
    if s == [] then 0 else DigitsValue(s[..|s| - 1]) * 10 + DigitValue(s[|s| - 1])
  }

  function Pow10(n: nat): (p: nat)
    ensures p >= 1
  {
    if n == 0 then 1 else 10 * Pow10(n - 1)
  }

  /** A string of `n` digits denotes a number below 10 to the `n`. */
  lemma {:induction false} DigitsValueBound(s: string)
    requires AllDigits(s)
    ensures DigitsValue(s) < Pow10(|s|)
  {
    if s != [] {
      DigitsValueBound(s[..|s| - 1]);
    }
  }

  /** How MySQL reads a query-string parameter compared with an integer
      expression such as `MONTH(horario_entrada) = ?`: the value of its
      leading run of digits, 0 when it has none ("05" is 5, "abc" is 0). */
  function LeadingNumber(s: string): (n: nat)
    ensures s == [] || !IsDigit(s[0]) ==> n == 0
    ensures n < Pow10(DigitRunLength(s))
  {
    DigitsValueBound(s[..DigitRunLength(s)]);
    DigitsValue(s[..DigitRunLength(s)])
  }

  /** Two-digit, zero-padded decimal text of `n`. */
  function TwoDigits(n: nat): (s: string)
    requires n <= 99
    ensures |s| == 2 && AllDigits(s)
  {
    [DigitChar(n / 10), DigitChar(n % 10)]
  }

  /** Four-digit, zero-padded decimal text of `n`. */
  function FourDigits(n: nat): (s: string)
    requires n <= 9999
    ensures |s| == 4 && AllDigits(s)
  {
    TwoDigits(n / 100) + TwoDigits(n % 100)
  }

  lemma TwoDigitsValue(n: nat)
    requires n <= 99
    ensures DigitsValue(TwoDigits(n)) == n
  {
    var s := TwoDigits(n);
    assert s[..|s| - 1] == [s[0]];
    assert [s[0]][..0] == [];
    assert DigitsValue([s[0]]) == n / 10;
  }

  lemma FourDigitsValue(n: nat)
    requires n <= 9999
    ensures DigitsValue(FourDigits(n)) == n
  {
    var s := FourDigits(n);
    TwoDigitsValue(n / 100);
    TwoDigitsValue(n % 100);
    assert s[..3][..2] == TwoDigits(n / 100);
    assert s[..3] == s[..|s| - 1];
  }

  /** Two digits of text are the two-digit text of their value. */
  lemma TwoDigitsOfValue(t: string)
    requires |t| == 2 && AllDigits(t)
    ensures DigitsValue(t) <= 99 && TwoDigits(DigitsValue(t)) == t
  {
    var a, b := DigitValue(t[0]), DigitValue(t[1]);
    assert t[..1] == [t[0]] && t[..1][..0] == [];
    assert DigitsValue(t[..1]) == a;
    assert DigitsValue(t) == 10 * a + b;
    assert DigitChar(a) == t[0] && DigitChar(b) == t[1];
  }

  /** Four digits of text are the four-digit text of their value. */
  lemma FourDigitsOfValue(t: string)
    requires |t| == 4 && AllDigits(t)
    ensures DigitsValue(t) <= 9999 && FourDigits(DigitsValue(t)) == t
  {
    var hi, lo := t[..2], t[2..];
    TwoDigitsOfValue(hi);
    TwoDigitsOfValue(lo);
    assert t[..3][..2] == hi;
    assert DigitsValue(t[..3]) == DigitsValue(hi) * 10 + DigitValue(t[2]);
    assert lo[..1] == [t[2]] && lo[1] == t[3];
    assert DigitsValue(lo[..1]) == DigitValue(t[2]) by {
      assert lo[..1][..0] == [];
    }
    var n := DigitsValue(t);
    assert n == DigitsValue(hi) * 100 + DigitsValue(lo);
    assert n / 100 == DigitsValue(hi) && n % 100 == DigitsValue(lo);
    assert t == hi + lo;
  }

  /** Reading digit text back as a number gives the number written. */
  lemma LeadingNumberOfDigits(s: string)
    requires AllDigits(s)
    ensures LeadingNumber(s) == DigitsValue(s)
  {
    var n := DigitRunLength(s);
    assert s[..n] == s;
  }

  /** `s.padStart(width, '0')`: zeros in front up to `width` characters. */
  function PadStart(s: string, width: nat): (r: string)
    ensures |r| == if |s| >= width then |s| else width
    ensures r[|r| - |s|..] == s
    ensures forall i :: 0 <= i < |r| - |s| ==> r[i] == '0'
  {
    if |s| >= width then s else seq(width - |s|, _ => '0') + s
  }
}
