/**
  Decimal text of integers as the .NET runtime produces and reads it: `ToString()`
  and string interpolation of `uint`/`int` values, and `int.TryParse(string, out int)`
  with its default number style (surrounding white space and one leading sign allowed).
*/
module Decimal {
  import opened Base

  predicate IsDigit(c: char)
  {
    '0' <= c <= '9'
  }

  predicate AllDigits(s: string)
  {
    forall k :: 0 <= k < |s| ==> IsDigit(s[k])
  }

  function DigitChar(d: nat): (c: char)
    requires d < 10
    ensures IsDigit(c)
  {
    ['0', '1', '2', '3', '4', '5', '6', '7', '8', '9'][d]
  }

  function DigitValue(c: char): (d: nat)
    requires IsDigit(c)
    ensures d < 10 && DigitChar(d) == c
  {
    (c as int - '0' as int)
  }

  /** Shortest decimal text of `n`: no sign and no leading zero. */
  function NatToDecimal(n: nat): (s: string)
    ensures |s| >= 1 && AllDigits(s)
    ensures s[0] == '0' ==> n == 0 && |s| == 1
  {
    if n < 10 then [DigitChar(n)] else NatToDecimal(n / 10) + [DigitChar(n % 10)]
  }

  /** Value of a string of decimal digits, most significant first. */
  function DigitsValue(s: string): nat
    requires AllDigits(s)
  {
    if s == [] then 0 else DigitsValue(s[..|s| - 1]) * 10 + DigitValue(s[|s| - 1])
  }

  lemma {:induction false} DigitsValueOfDecimal(n: nat)
    ensures DigitsValue(NatToDecimal(n)) == n
  {
    var s := NatToDecimal(n);
    if n < 10 {
      assert s[..0] == [];
    } else {
      DigitsValueOfDecimal(n / 10);
      assert s[..|s| - 1] == NatToDecimal(n / 10);
    }
  }

  /** `ToString()` of a signed integer. */
  function IntToDecimal(i: int): string
  {
    if i < 0 then "-" + NatToDecimal(-i) else NatToDecimal(i)
  }

  /** The characters .NET's number parser skips before and after the digits. */
  predicate IsNumberWhiteSpace(c: char)
  {
    c == ' ' || '\t' <= c <= '\r'
  }

  predicate AllWhiteSpace(s: string)
  {
    forall k :: 0 <= k < |s| ==> IsNumberWhiteSpace(s[k])
  }

  /** Drops the leading white space, and only that. */
  function TrimStart(s: string): (r: string)
    ensures |r| <= |s| && r == s[|s| - |r|..]
    ensures AllWhiteSpace(s[..|s| - |r|])
    ensures r != [] ==> !IsNumberWhiteSpace(r[0])
  {
    if s != [] && IsNumberWhiteSpace(s[0]) then
      var r := TrimStart(s[1..]);
      assert s[..|s| - |r|] == [s[0]] + s[1..][..|s| - 1 - |r|];
      r
    else s
  }

  /** Drops the trailing white space, and only that. */
  function TrimEnd(s: string): (r: string)
    ensures |r| <= |s| && r == s[..|r|]
    ensures AllWhiteSpace(s[|r|..])
    ensures r != [] ==> !IsNumberWhiteSpace(r[|r| - 1])
  {
    if s != [] && IsNumberWhiteSpace(s[|s| - 1]) then
      var r := TrimEnd(s[..|s| - 1]);
      assert s[|r|..] == s[..|s| - 1][|r|..] + [s[|s| - 1]];
      r
    else s
  }

  lemma {:induction false} TrimStartAfterWhiteSpace(w: string, s: string)
    requires AllWhiteSpace(w) && (s == [] || !IsNumberWhiteSpace(s[0]))
    ensures TrimStart(w + s) == s
  {
    if w != [] {
      assert (w + s)[1..] == w[1..] + s;
      TrimStartAfterWhiteSpace(w[1..], s);
    } else {
      assert w + s == s;
    }
  }

  lemma {:induction false} TrimEndBeforeWhiteSpace(s: string, w: string)
    requires AllWhiteSpace(w) && (s == [] || !IsNumberWhiteSpace(s[|s| - 1]))
    ensures TrimEnd(s + w) == s
  {
    if w != [] {
      assert (s + w)[..|s + w| - 1] == s + w[..|w| - 1];
      TrimEndBeforeWhiteSpace(s, w[..|w| - 1]);
    } else {
      assert s + w == s;
    }
  }

  /** A 32-bit signed value, if `v` is in range. */
  function ToInt32(v: int): (r: Option<int32>)
    ensures r.Some? <==> -0x8000_0000 <= v < 0x8000_0000
    ensures r.Some? ==> r.value as int == v
  {
    if -0x8000_0000 <= v < 0x8000_0000 then Some(v as int32) else None
  }

  /** Signed decimal without surrounding white space: an optional sign and at least one digit. */
  function ParseSigned(t: string): Option<int32>
  {
    if |t| >= 2 && t[0] == '-' && AllDigits(t[1..]) then ToInt32(-(DigitsValue(t[1..]) as int))
    else if |t| >= 2 && t[0] == '+' && AllDigits(t[1..]) then ToInt32(DigitsValue(t[1..]))
    else if |t| >= 1 && AllDigits(t) then ToInt32(DigitsValue(t))
    else None
  }

  /**
    `int.TryParse(s, out v)`: `Some(v)` when it returns true. When it returns false
    the out-parameter is 0; callers model that with `TryParseOrZero`.
  */
  function TryParseInt32(s: string): Option<int32>
  {
    ParseSigned(TrimEnd(TrimStart(s)))
  }

  /** The sign `int.TryParse` accepts in front of the digits: none, `+` or `-`. */
  predicate IsSign(sign: string)
  {
    sign == "" || sign == "+" || sign == "-"
  }

  /** The value of `sign` followed by the digits `d`. */
  function SignedValue(sign: string, d: string): int
    requires AllDigits(d)
  {
    if sign == "-" then -(DigitsValue(d) as int) else DigitsValue(d) as int
  }

  lemma ParseSignedOf(sign: string, d: string)
    requires IsSign(sign) && |d| >= 1 && AllDigits(d)
    ensures ParseSigned(sign + d) == ToInt32(SignedValue(sign, d))
  {
    var t := sign + d;
    if sign == "" {
      assert t == d;
    } else {
      assert t[0] == sign[0] && t[1..] == d;
    }
  }

  /**
    `int.TryParse` accepts white space, an optional sign, at least one digit
    and white space, giving the signed value when it fits in an `int` and
    failing when it does not.
  */
  lemma TryParseAccepts(lead: string, sign: string, d: string, trail: string)
    requires AllWhiteSpace(lead) && AllWhiteSpace(trail) && IsSign(sign)
    requires |d| >= 1 && AllDigits(d)
    ensures TryParseInt32(lead + sign + d + trail) == ToInt32(SignedValue(sign, d))
  {
    var core := sign + d;
    assert !IsNumberWhiteSpace(core[0]) by {
      if sign == "" { assert core[0] == d[0]; } else { assert core[0] == sign[0]; }
    }
    assert core[|core| - 1] == d[|d| - 1];
    assert lead + sign + d + trail == lead + (core + trail);
    TrimStartAfterWhiteSpace(lead, core + trail);
    TrimEndBeforeWhiteSpace(core, trail);
    ParseSignedOf(sign, d);
  }

  /** Text `ParseSigned` accepts is an optional sign followed by digits. */
  lemma ParseSignedShape(t: string)
    requires ParseSigned(t).Some?
    ensures var sign := if t[0] == '-' || t[0] == '+' then t[..1] else "";
            && IsSign(sign) && |t| > |sign| && AllDigits(t[|sign|..])
            && ParseSigned(t) == ToInt32(SignedValue(sign, t[|sign|..]))
  {
    if t[0] == '-' || t[0] == '+' {
      assert t[..1] == [t[0]];
    } else {
      assert t[0..] == t;
    }
  }

  /**
    Conversely, text `int.TryParse` accepts is white space, an optional sign,
    digits and white space, and its value is the signed value of those digits.
  */
  lemma TryParseOnlyShape(s: string) returns (lead: string, sign: string, d: string, trail: string)
    requires TryParseInt32(s).Some?
    ensures s == lead + sign + d + trail
    ensures AllWhiteSpace(lead) && AllWhiteSpace(trail) && IsSign(sign) && |d| >= 1 && AllDigits(d)
    ensures TryParseInt32(s) == ToInt32(SignedValue(sign, d))
  {
    var u := TrimStart(s);
    var t := TrimEnd(u);
    lead := s[..|s| - |u|];
    trail := u[|t|..];
    ParseSignedShape(t);
    sign := if t[0] == '-' || t[0] == '+' then t[..1] else "";
    d := t[|sign|..];
    Reassemble(s, lead, u, t, trail, sign, d);
  }

  lemma Reassemble(s: string, lead: string, u: string, t: string, trail: string, sign: string, d: string)
    requires |u| <= |s| && u == s[|s| - |u|..] && lead == s[..|s| - |u|]
    requires |t| <= |u| && t == u[..|t|] && trail == u[|t|..]
    requires |sign| <= |t| && sign == t[..|sign|] && d == t[|sign|..]
    ensures s == lead + sign + d + trail
  {
    assert s == lead + u;
    assert u == t + trail;
    assert t == sign + d;
  }

  /** The characters that may occur in text `int.TryParse` accepts. */
  predicate IsNumberChar(c: char)
  {
    IsDigit(c) || IsNumberWhiteSpace(c) || c == '+' || c == '-'
  }

  predicate AllNumberChars(s: string)
  {
    forall i :: 0 <= i < |s| ==> IsNumberChar(s[i])
  }

  lemma NumberCharsAppend(a: string, b: string)
    requires AllNumberChars(a) && AllNumberChars(b)
    ensures AllNumberChars(a + b)
  {
    forall i | 0 <= i < |a + b|
      ensures IsNumberChar((a + b)[i])
    {
      if i >= |a| {
        assert (a + b)[i] == b[i - |a|];
      }
    }
  }

  lemma AcceptedChars(s: string)
    requires TryParseInt32(s).Some?
    ensures AllNumberChars(s)
  {
    var lead, sign, d, trail := TryParseOnlyShape(s);
    assert AllNumberChars(lead) && AllNumberChars(sign) && AllNumberChars(d) && AllNumberChars(trail);
    NumberCharsAppend(lead, sign);
    NumberCharsAppend(lead + sign, d);
    NumberCharsAppend(lead + sign + d, trail);
  }

  /** A character that is neither a digit, a sign nor white space makes `int.TryParse` fail. */
  lemma TryParseRejectsOtherChars(s: string, i: nat)
    requires i < |s| && !IsNumberChar(s[i])
    ensures TryParseInt32(s) == None
  {
    if TryParseInt32(s).Some? {
      AcceptedChars(s);
    }
  }

  /** The value `int.TryParse(s, out v)` leaves in `v`. */
  function TryParseOrZero(s: string): (v: int32)
    ensures TryParseInt32(s).Some? ==> v == TryParseInt32(s).value
    ensures TryParseInt32(s).None? ==> v == 0
  {
    match TryParseInt32(s)
    case Some(x) => x
    case None => 0
  }

  /** A sign and digits, with nothing around them, parse to their signed value. */
  lemma TryParseOfSignedDigits(sign: string, d: string)
    requires IsSign(sign) && |d| >= 1 && AllDigits(d)
    ensures TryParseInt32(sign + d) == ToInt32(SignedValue(sign, d))
  {
    var core := sign + d;
    assert !IsNumberWhiteSpace(core[0]) by {
      if sign == "" { assert core[0] == d[0]; } else { assert core[0] == sign[0]; }
    }
    assert core[|core| - 1] == d[|d| - 1];
    assert TrimStart(core) == core;
    assert TrimEnd(core) == core;
    ParseSignedOf(sign, d);
  }

  /** Every 32-bit integer survives a trip through its decimal text. */
  lemma {:induction false} TryParseOfDecimal(x: int32)
    ensures TryParseInt32(IntToDecimal(x as int)) == Some(x)
  {
    var n: nat := if x < 0 then -(x as int) else x as int;
    var sign := if x < 0 then "-" else "";
    var d := NatToDecimal(n);
    DigitsValueOfDecimal(n);
    TryParseOfSignedDigits(sign, d);
    assert IntToDecimal(x as int) == sign + d;
  }

  /** The digits a message carries after a known prefix recover the number written there. */
  lemma DecimalAfterPrefix(prefix: string, n: nat, suffix: string)
    ensures var m := prefix + NatToDecimal(n) + suffix;
            var d := m[|prefix|..|m| - |suffix|];
            && |d| >= 1 && AllDigits(d) && DigitsValue(d) == n
            && (d[0] == '0' ==> |d| == 1)
  {
    var m := prefix + NatToDecimal(n) + suffix;
    assert m[|prefix|..|m| - |suffix|] == NatToDecimal(n);
    DigitsValueOfDecimal(n);
  }
}
