/** Python's `int(s)` (base 10) and `str(n)` for integers, on ASCII text. */
module PyInt {
  import opened Results

  predicate IsDigit(c: char) {
    '0' <= c <= '9'
  }

  function DigitValue(c: char): nat
    requires IsDigit(c)
  {
    c as int - '0' as int
  }

  function DigitChar(d: nat): (c: char)
    requires d < 10
    ensures IsDigit(c) && DigitValue(c) == d
  {
    ('0' as int + d) as char
  }

  /** The ASCII characters `int()` skips around the number of an ASCII
      text: space and tab to carriage return. The information separators
      `\x1c` to `\x1f`, which `str.isspace` accepts, are not skipped. */
  predicate IsWhitespace(c: char) {
    c == ' ' || '\t' <= c <= '\r'
  }

  function TrimStart(s: string): string {
    if |s| > 0 && IsWhitespace(s[0]) then TrimStart(s[1..]) else s
  }

  function TrimEnd(s: string): string {
    if |s| > 0 && IsWhitespace(s[|s| - 1]) then TrimEnd(s[..|s| - 1]) else s
  }

  /** Groups of decimal digits separated by single underscores, the form
      `int()` accepts after the optional sign. */
  predicate IsDigitRun(s: string) {
    && |s| > 0
    && IsDigit(s[0])
    && IsDigit(s[|s| - 1])
    && (forall i :: 0 <= i < |s| ==> IsDigit(s[i]) || s[i] == '_')
    && (forall i :: 0 <= i < |s| - 1 ==> !(s[i] == '_' && s[i + 1] == '_'))
  }

  /** The decimal value of the digits of `s`, underscores ignored. */
  function RunValue(s: string): nat {
    if |s| == 0 then 0
    else
      var c := s[|s| - 1];
      if IsDigit(c) then RunValue(s[..|s| - 1]) * 10 + DigitValue(c)
      else RunValue(s[..|s| - 1])
  }

  /** What `int()` accepts once the surrounding whitespace is gone: a digit
      run, optionally after one `+` or `-`. */
  predicate IsIntLiteral(t: string) {
    IsDigitRun(t) || (|t| > 0 && (t[0] == '+' || t[0] == '-') && IsDigitRun(t[1..]))
  }

  /** `int(s)`: `None` where Python raises `ValueError`. */
  function ParseInt(s: string): (r: Option<int>)
    ensures r.Some? <==> IsIntLiteral(TrimEnd(TrimStart(s)))
    ensures r.Some? && r.value < 0 ==> TrimEnd(TrimStart(s))[0] == '-'
  {
    var t := TrimEnd(TrimStart(s));
    if |t| > 0 && (t[0] == '+' || t[0] == '-') then
      if IsDigitRun(t[1..]) then
        var v: int := RunValue(t[1..]);
        Some(if t[0] == '-' then -v else v)
      else None
    else if IsDigitRun(t) then Some(RunValue(t))
    else None
  }

  /** `str(n)` for a natural number: its canonical decimal digits. */
  function NatToString(n: nat): (s: string)
    ensures |s| > 0
  {
    if n < 10 then [DigitChar(n)] else NatToString(n / 10) + [DigitChar(n % 10)]
  }

  /** `str(n)`. */
  function IntToString(n: int): (s: string)
    ensures |s| > 0 && (s[0] == '-' <==> n < 0)
  {
    if n < 0 then "-" + NatToString(-n)
    else
      assert NatToString(n)[0] != '-' by {
        NatToStringDigits(n);
      }
      NatToString(n)
  }

  /** The text of a natural number is digits only, without a leading zero
      unless the number is zero. */
  lemma {:induction false} NatToStringDigits(n: nat)
    ensures forall i :: 0 <= i < |NatToString(n)| ==> IsDigit(NatToString(n)[i])
    ensures NatToString(n)[0] != '0' || NatToString(n) == "0"
    decreases n
  {
    if n >= 10 {
      NatToStringDigits(n / 10);
      var s := NatToString(n);
      assert s[0] == NatToString(n / 10)[0];
    }
  }

  lemma IntToStringHasNoDot(n: int)
    ensures '.' !in IntToString(n)
  {
    if n < 0 {
      NatToStringDigits(-n);
      assert IntToString(n)[1..] == NatToString(-n);
    } else {
      NatToStringDigits(n);
    }
  }

  lemma {:induction false} RunValueOfNatToString(n: nat)
    ensures RunValue(NatToString(n)) == n
    decreases n
  {
    if n >= 10 {
      var s := NatToString(n);
      RunValueOfNatToString(n / 10);
      assert s[..|s| - 1] == NatToString(n / 10);
    }
  }

  /** The digits of a natural number are a digit run with that value, and
      there is no whitespace to strip around them. */
  lemma NatToStringReads(n: nat)
    ensures IsDigitRun(NatToString(n))
    ensures RunValue(NatToString(n)) == n
    ensures TrimEnd(TrimStart(NatToString(n))) == NatToString(n)
  {
    NatToStringDigits(n);
    RunValueOfNatToString(n);
  }

  lemma ParseIntUnsigned(t: string)
    requires IsDigitRun(t) && TrimEnd(TrimStart(t)) == t
    ensures ParseInt(t) == Some(RunValue(t))
  {
  }

  lemma ParseIntNegative(digits: string)
    requires IsDigitRun(digits)
    ensures ParseInt("-" + digits) == Some(-(RunValue(digits) as int))
  {
    var t := "-" + digits;
    assert t[1..] == digits;
    assert TrimStart(t) == t;
    assert TrimEnd(t) == t by {
      assert t[|t| - 1] == digits[|digits| - 1];
    }
  }

  /** Reading back what `str` wrote gives the number: `int(str(n)) == n`. */
  lemma ParseIntRoundTrip(n: int)
    ensures ParseInt(IntToString(n)) == Some(n)
  {
    if n < 0 {
      NatToStringReads(-n);
      ParseIntNegative(NatToString(-n));
    } else {
      NatToStringReads(n);
      ParseIntUnsigned(NatToString(n));
    }
  }

  lemma {:induction false} RunValueLeadingZero(s: string)
    ensures RunValue("0" + s) == RunValue(s)
    decreases |s|
  {
    if |s| > 0 {
      var t := "0" + s;
      assert t[..|t| - 1] == "0" + s[..|s| - 1];
      RunValueLeadingZero(s[..|s| - 1]);
    } else {
      assert ("0" + s)[..0] == "";
    }
  }

  /** After `TrimStart` the text does not begin with whitespace. */
  lemma {:induction false} TrimStartLeaves(s: string)
    ensures |TrimStart(s)| > 0 ==> !IsWhitespace(TrimStart(s)[0])
    decreases |s|
  {
    if |s| > 0 && IsWhitespace(s[0]) {
      TrimStartLeaves(s[1..]);
    }
  }

  /** `TrimEnd` keeps a prefix that does not end in whitespace. */
  lemma {:induction false} TrimEndLeaves(s: string)
    ensures TrimEnd(s) <= s
    ensures |TrimEnd(s)| > 0 ==> !IsWhitespace(TrimEnd(s)[|TrimEnd(s)| - 1])
    decreases |s|
  {
    if |s| > 0 && IsWhitespace(s[|s| - 1]) {
      TrimEndLeaves(s[..|s| - 1]);
    }
  }

  /** Stripping the whitespace around a text a second time changes nothing. */
  lemma TrimTwice(s: string)
    ensures var t := TrimEnd(TrimStart(s)); TrimEnd(TrimStart(t)) == t
  {
    var u := TrimStart(s);
    var t := TrimEnd(u);
    TrimStartLeaves(s);
    TrimEndLeaves(u);
    if |t| > 0 {
      assert t[0] == u[0];
      assert TrimStart(t) == t;
    }
  }

  /** `int()` gives the same result with or without the whitespace around
      the number. */
  lemma ParseIntIgnoresWhitespace(s: string)
    ensures ParseInt(s) == ParseInt(TrimEnd(TrimStart(s)))
  {
    TrimTwice(s);
  }

  /** A digit run has no whitespace to strip. */
  lemma DigitRunTrimmed(d: string)
    requires IsDigitRun(d)
    ensures TrimEnd(TrimStart(d)) == d
  {
    assert TrimStart(d) == d;
  }

  /** A `+` sign does not change the value: `int('+' + d) == int(d)`. */
  lemma ParseIntPlusSign(d: string)
    requires IsDigitRun(d)
    ensures ParseInt("+" + d) == ParseInt(d) == Some(RunValue(d))
  {
    var t := "+" + d;
    assert t[1..] == d;
    assert TrimStart(t) == t;
    assert TrimEnd(t) == t by {
      assert t[|t| - 1] == d[|d| - 1];
    }
    DigitRunTrimmed(d);
  }

  /** An underscore contributes no digit to the value. */
  lemma {:induction false} RunValueSkipsUnderscore(x: string, y: string)
    ensures RunValue(x + "_" + y) == RunValue(x + y)
    decreases |y|
  {
    if |y| == 0 {
      assert (x + "_" + y)[..|x|] == x;
      assert x + y == x;
    } else {
      var y' := y[..|y| - 1];
      assert (x + "_" + y)[..|x + "_" + y| - 1] == x + "_" + y';
      assert (x + y)[..|x + y| - 1] == x + y';
      RunValueSkipsUnderscore(x, y');
    }
  }

  /** Two digit runs joined by one underscore form a digit run. */
  lemma DigitRunUnderscore(a: string, b: string)
    requires IsDigitRun(a) && IsDigitRun(b)
    ensures IsDigitRun(a + "_" + b)
  {
    var u := a + "_" + b;
    forall i | 0 <= i < |u| ensures IsDigit(u[i]) || u[i] == '_' {
      if i < |a| { assert u[i] == a[i]; } else if i > |a| { assert u[i] == b[i - |a| - 1]; }
    }
    forall i | 0 <= i < |u| - 1 ensures !(u[i] == '_' && u[i + 1] == '_') {
      if i < |a| - 1 { assert u[i] == a[i] && u[i + 1] == a[i + 1]; }
      else if i == |a| - 1 { assert u[i] == a[|a| - 1]; }
      else if i == |a| { assert u[i + 1] == b[0]; }
      else { assert u[i] == b[i - |a| - 1] && u[i + 1] == b[i - |a|]; }
    }
  }

  /** Two digit runs side by side form a digit run. */
  lemma DigitRunConcat(a: string, b: string)
    requires IsDigitRun(a) && IsDigitRun(b)
    ensures IsDigitRun(a + b)
  {
    var j := a + b;
    forall i | 0 <= i < |j| ensures IsDigit(j[i]) || j[i] == '_' {
      if i < |a| { assert j[i] == a[i]; } else { assert j[i] == b[i - |a|]; }
    }
    forall i | 0 <= i < |j| - 1 ensures !(j[i] == '_' && j[i + 1] == '_') {
      if i < |a| - 1 { assert j[i] == a[i] && j[i + 1] == a[i + 1]; }
      else if i == |a| - 1 { assert j[i] == a[|a| - 1]; }
      else { assert j[i] == b[i - |a|] && j[i + 1] == b[i - |a| + 1]; }
    }
  }

  /** An underscore between two digit runs does not change the value:
      `int('3_0') == int('30')`. */
  lemma ParseIntUnderscore(a: string, b: string)
    requires IsDigitRun(a) && IsDigitRun(b)
    ensures ParseInt(a + "_" + b) == ParseInt(a + b) == Some(RunValue(a + b))
  {
    DigitRunUnderscore(a, b);
    DigitRunConcat(a, b);
    DigitRunTrimmed(a + "_" + b);
    DigitRunTrimmed(a + b);
    RunValueSkipsUnderscore(a, b);
  }

  /** `int()` discards leading zeros, so the text of a number is not
      recovered by `str(int(text))` when it had any. */
  lemma LeadingZeroDropped(s: string)
    requires IsDigitRun(s)
    ensures ParseInt("0" + s) == ParseInt(s)
    ensures IntToString(ParseInt("0" + s).value) != "0" + s
  {
    var t := "0" + s;
    assert TrimStart(t) == t;
    assert TrimStart(s) == s;
    assert t[1..] == s;
    RunValueLeadingZero(s);
    assert IsDigitRun(t);
    NatToStringDigits(RunValue(s));
    assert IntToString(ParseInt(t).value) == NatToString(RunValue(s));
  }
}
