/**
 * The small part of JavaScript's value semantics that the widget relies on:
 * nullable values, number-to-string conversion, `Number()` applied to a string,
 * and the string methods `slice(-2)`, `substring` and `split`.
 * Numbers are modelled as mathematical integers.
 */
module JsValues {

  /** A value that may be `null` or `undefined`. */
  datatype Option<+T> = None | Some(value: T)

  /** `Array(n)` accepts the lengths 0 <= n < 2^32 and throws a RangeError for any other. */
  const MaxArrayLength: int := 0x1_0000_0000

  predicate IsDigit(c: char) {
    '0' <= c <= '9'
  }

  predicate AllDigits(s: string) {
    forall i :: 0 <= i < |s| ==> IsDigit(s[i])
  }

  function DigitChar(d: int): (c: char)
    requires 0 <= d < 10
    ensures IsDigit(c)
  {
    ('0' as int + d) as char
  }

  function DigitValue(c: char): (d: int)
    requires IsDigit(c)
    ensures 0 <= d < 10 && DigitChar(d) == c
  {
    c as int - '0' as int
  }

  /** The decimal text of a non-negative number, as `String(n)` gives it. */
  function NatToString(n: nat): (s: string)
    ensures 1 <= |s| && AllDigits(s)
    ensures n < 10 <==> |s| == 1
    decreases n
  {
    if n < 10 then [DigitChar(n)] else NatToString(n / 10) + [DigitChar(n % 10)]
  }

  /** The decimal text of any integer, with a leading minus sign when negative. */
  function IntToString(n: int): string
  {
    if n < 0 then "-" + NatToString(-n) else NatToString(n)
  }

  /** A negative number's text is a minus sign before the text of its magnitude. */
  lemma IntToStringSign(n: int)
    ensures n >= 0 ==> IntToString(n) == NatToString(n)
    ensures n < 0 ==> IntToString(n) == "-" + NatToString(-n)
  {
  }

  /** The value of a string of decimal digits (0 for the empty string). */
  function DigitsValue(s: string): (v: nat)
    requires AllDigits(s)
  {
    if s == [] then 0 else DigitsValue(s[..|s| - 1]) * 10 + DigitValue(s[|s| - 1])
  }

  /**
   * `Number(s)` for the strings the widget meets: the empty string is 0, an
   * optionally signed run of decimal digits is its value, anything else is NaN (None).
   */
  function NumberOf(s: string): (r: Option<int>)
    ensures AllDigits(s) ==> r == Some(DigitsValue(s))
  {
    if AllDigits(s) then Some(DigitsValue(s))
    else if |s| > 1 && (s[0] == '-' || s[0] == '+') && AllDigits(s[1..]) then
      var v: int := DigitsValue(s[1..]);
      Some(if s[0] == '-' then -v else v)
    else None
  }

  /** `s.slice(-2)`: the last two characters, or the whole string when shorter. */
  function LastTwo(s: string): (r: string)
    ensures |r| == if |s| < 2 then |s| else 2
    ensures r == s[|s| - |r|..]
  {
    if |s| <= 2 then s else s[|s| - 2..]
  }

  /** The widget's padding idiom `("0" + n).slice(-2)`. */
  function PadTwo(n: int): string
  {
    LastTwo("0" + IntToString(n))
  }

  /** `s.substring(start, end)`: both bounds clamped to the string, swapped if reversed. */
  function Substring(s: string, start: int, end: int): (r: string)
    ensures |r| <= |s|
    ensures 0 <= start <= end <= |s| ==> r == s[start..end]
  {
    var a := if start < 0 then 0 else if start > |s| then |s| else start;
    var b := if end < 0 then 0 else if end > |s| then |s| else end;
    if a <= b then s[a..b] else s[b..a]
  }

  /** `s.split(sep)` for a one-character separator. */
  function Split(s: string, sep: char): (parts: seq<string>)
    ensures 1 <= |parts|
  {
    if s == [] then [""]
    else if s[0] == sep then [""] + Split(s[1..], sep)
    else
      var rest := Split(s[1..], sep);
      [[s[0]] + rest[0]] + rest[1..]
  }

  // ---------------------------------------------------------------------------
  // Lemmas

  /** Reading the decimal text of `n` back with `Number()` gives `n`. */
  lemma {:induction false} NatToStringRoundTrip(n: nat)
    ensures DigitsValue(NatToString(n)) == n
    decreases n
  {
    var s := NatToString(n);
    if n >= 10 {
      NatToStringRoundTrip(n / 10);
      assert s[..|s| - 1] == NatToString(n / 10);
      assert DigitValue(s[|s| - 1]) == n % 10;
    } else {
      assert s[..|s| - 1] == [];
    }
  }

  /** The last character of the decimal text of `n` is its units digit. */
  lemma NatToStringLastDigit(n: nat)
    ensures NatToString(n)[|NatToString(n)| - 1] == DigitChar(n % 10)
  {
  }

  /** `("0" + n).slice(-2)` is the tens digit followed by the units digit of `n`. */
  lemma {:induction false} PadTwoDigits(n: nat)
    ensures PadTwo(n) == [DigitChar(n / 10 % 10), DigitChar(n % 10)]
  {
    var s := "0" + IntToString(n);
    assert IntToString(n) == NatToString(n);
    if n < 10 {
      assert n / 10 == 0 && n % 10 == n;
      assert NatToString(n) == [DigitChar(n)];
      assert s == [DigitChar(0), DigitChar(n)];
    } else {
      var t := NatToString(n / 10);
      NatToStringLastDigit(n / 10);
      assert NatToString(n) == t + [DigitChar(n % 10)];
      assert s == "0" + t + [DigitChar(n % 10)];
      assert |s| >= 3;
      assert LastTwo(s) == s[|s| - 2..];
      assert s[|s| - 2] == t[|t| - 1];
      assert s[|s| - 1] == DigitChar(n % 10);
    }
  }

  /** The value of a two-digit string. */
  lemma TwoDigitsValue(tens: int, units: int)
    requires 0 <= tens < 10 && 0 <= units < 10
    ensures AllDigits([DigitChar(tens), DigitChar(units)])
    ensures DigitsValue([DigitChar(tens), DigitChar(units)]) == tens * 10 + units
  {
    var p := [DigitChar(tens), DigitChar(units)];
    var q := p[..1];
    assert q == [DigitChar(tens)];
    assert q[..0] == [];
    assert DigitsValue(q) == DigitsValue(q[..0]) * 10 + DigitValue(q[0]);
    assert DigitsValue(q) == tens;
    assert DigitsValue(p) == DigitsValue(q) * 10 + DigitValue(p[1]);
  }

  /** A string without the separator splits into itself. */
  lemma {:induction false} SplitNoSeparator(s: string, sep: char)
    requires sep !in s
    ensures Split(s, sep) == [s]
  {
    if s != [] {
      assert sep !in s[1..];
      SplitNoSeparator(s[1..], sep);
      assert [s[0]] + s[1..] == s;
    }
  }

  /** Joining two separator-free strings with the separator and splitting recovers them. */
  lemma {:induction false} SplitJoined(a: string, b: string, sep: char)
    requires sep !in a && sep !in b
    ensures Split(a + [sep] + b, sep) == [a, b]
  {
    if a == [] {
      assert a + [sep] + b == [sep] + b;
      assert (a + [sep] + b)[1..] == b;
      SplitNoSeparator(b, sep);
    } else {
      assert (a + [sep] + b)[1..] == a[1..] + [sep] + b;
      assert sep !in a[1..];
      SplitJoined(a[1..], b, sep);
      assert [a[0]] + a[1..] == a;
    }
  }
}
