/** `Number(compareLag_) || 0` in transformProps: the control's
    value converted to a number, with NaN and zero both read as 0. */
module CompareLag {
  import opened Wrappers

  /** What the form's `compareLag` field may hold. Numbers are integral:
      a fractional lag would index the series with a fraction. */
  datatype LagInput =
    | Unset          // the field is undefined
    | Number(n: int) // a number
    | NotANumber     // NaN
    | Text(s: string) // the text typed into the control

  /** ECMAScript's WhiteSpace and LineTerminator code points, which
      `Number` strips from both ends of a string. */
  predicate IsWhiteSpace(c: char) {
    c in {'\t', '\n', '\U{000B}', '\U{000C}', '\r', ' ', '\U{00A0}', '\U{1680}',
          '\U{2028}', '\U{2029}', '\U{202F}', '\U{205F}', '\U{3000}', '\U{FEFF}'}
    || ('\U{2000}' <= c <= '\U{200A}')
  }

  predicate IsDigit(c: char) {
    '0' <= c <= '9'
  }

  predicate AllDigits(s: string) {
    forall i :: 0 <= i < |s| ==> IsDigit(s[i])
  }

  /** `s` without its leading and trailing white space. */
  function Trim(s: string): (r: string)
    ensures |r| <= |s|
    ensures |r| > 0 ==> !IsWhiteSpace(r[0]) && !IsWhiteSpace(r[|r| - 1])
    ensures (|s| == 0 || (!IsWhiteSpace(s[0]) && !IsWhiteSpace(s[|s| - 1]))) ==> r == s
  {
    if |s| == 0 then s
    else if IsWhiteSpace(s[0]) then Trim(s[1..])
    else if IsWhiteSpace(s[|s| - 1]) then Trim(s[..|s| - 1])
    else s
  }

  /** The value of a string of decimal digits, most significant first. */
  function DigitsValue(ds: string): nat
    requires AllDigits(ds)
  {
    if |ds| == 0 then 0
    else DigitsValue(ds[..|ds| - 1]) * 10 + (ds[|ds| - 1] as int - '0' as int)
  }

  /** `Number(s)` for a string: empty or blank text is 0, an optionally
      signed run of decimal digits is its value, anything else is NaN
      (`None`). */
  function NumberOfText(s: string): Option<int> {
    var t := Trim(s);
    if |t| == 0 then Some(0)
    else if (t[0] == '-' || t[0] == '+') && |t| > 1 && AllDigits(t[1..]) then
      var magnitude: int := DigitsValue(t[1..]);
      Some(if t[0] == '-' then -magnitude else magnitude)
    else if AllDigits(t) then Some(DigitsValue(t))
    else None
  }

  /** `Number(compareLag_) || 0`: NaN (and zero) become 0. A lag other
      than 0 only ever comes from a number or from text that reads as that
      number; undefined and NaN give 0. */
  function LagOf(lag: LagInput): (r: int)
    ensures r != 0 ==> (lag.Number? && r == lag.n) || (lag.Text? && NumberOfText(lag.s) == Some(r))
    ensures lag.Unset? || lag.NotANumber? ==> r == 0
  {
    match lag
    case Unset => 0
    case NotANumber => 0
    case Number(n) => n
    case Text(s) => NumberOfText(s).GetOr(0)
  }

  /** The decimal digits of `n`, as a number control would show it. */
  function NatText(n: nat): (r: string)
    ensures |r| > 0 && AllDigits(r)
  {
    if n < 10 then ["0123456789"[n]]
    else NatText(n / 10) + ["0123456789"[n % 10]]
  }

  /** The decimal text of `n`, with a leading `-` when negative. */
  function IntText(n: int): string {
    if n < 0 then "-" + NatText(-n) else NatText(n)
  }

  lemma {:induction false} NatTextValue(n: nat)
    ensures DigitsValue(NatText(n)) == n
  {
    var r := NatText(n);
    if n >= 10 {
      NatTextValue(n / 10);
      assert r[..|r| - 1] == NatText(n / 10);
    }
  }

  /** Typing a whole number into the control sets exactly that lag. */
  lemma LagOfIntText(n: int)
    ensures LagOf(Text(IntText(n))) == n
  {
    var t := IntText(n);
    if n < 0 {
      var ds := NatText(-n);
      assert t == "-" + ds;
      DigitNotSpace(ds[|ds| - 1]);
      assert t[|t| - 1] == ds[|ds| - 1];
      assert Trim(t) == t;
      assert t[1..] == ds;
      NatTextValue(-n);
    } else {
      DigitNotSpace(t[0]);
      DigitNotSpace(t[|t| - 1]);
      assert Trim(t) == t;
      NatTextValue(n);
    }
  }

  /** A character that appears in no numeric literal `Number` accepts:
      not white space, not an ASCII letter (exponents, `0x`/`0o`/`0b`
      prefixes, hexadecimal digits, `Infinity`), not a digit, a sign or a
      decimal point. */
  predicate NeverNumeric(c: char) {
    !IsWhiteSpace(c) && !IsDigit(c) && c != '.' && c != '+' && c != '-'
    && !('a' <= c <= 'z') && !('A' <= c <= 'Z')
  }

  /** Text holding a character that no numeric literal contains is NaN to
      `Number`, so it leaves the lag at 0, as undefined and NaN do: the
      percent change is then never computed. */
  lemma LagOfNonNumeric(s: string)
    requires exists i :: 0 <= i < |s| && NeverNumeric(s[i])
    ensures LagOf(Text(s)) == 0
  {
    var i :| 0 <= i < |s| && NeverNumeric(s[i]);
    TrimKeeps(s, i);
  }

  lemma DigitNotSpace(c: char)
    requires IsDigit(c)
    ensures !IsWhiteSpace(c)
  {
  }

  /** A character that is not white space survives trimming. */
  lemma {:induction false} TrimKeeps(s: string, i: nat)
    requires i < |s| && !IsWhiteSpace(s[i])
    ensures exists k :: 0 <= k < |Trim(s)| && Trim(s)[k] == s[i]
  {
    if IsWhiteSpace(s[0]) {
      assert s[1..][i - 1] == s[i];
      assert Trim(s) == Trim(s[1..]);
      TrimKeeps(s[1..], i - 1);
    } else if IsWhiteSpace(s[|s| - 1]) {
      assert s[..|s| - 1][i] == s[i];
      assert Trim(s) == Trim(s[..|s| - 1]);
      TrimKeeps(s[..|s| - 1], i);
    } else {
      assert Trim(s)[i] == s[i];
    }
  }
}
