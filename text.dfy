/**
 * Character-level helpers shared by the request decoder and the command line:
 * C strings (text up to the first NUL, with NUL read past the end) and the
 * decimal integers that `std::istringstream >> int` accepts when the whole
 * string must be consumed.
 */
module Text {
  import opened Wrappers

  const MinInt32: int := -0x8000_0000
  const MaxInt32: int := 0x7FFF_FFFF

  /** The C string a `char *` holding s denotes: everything before the first NUL. */
  function CStr(s: string): (r: string)
    ensures |r| <= |s| && r == s[..|r|]
    ensures forall i | 0 <= i < |r| :: r[i] != '\0'
    ensures |r| < |s| ==> s[|r|] == '\0'
    decreases |s|
  {
    if s == [] || s[0] == '\0' then [] else [s[0]] + CStr(s[1..])
  }

  /** `str[i]` on a C string: the terminating NUL, and nothing past it, reads as '\0'. */
  function CharAt(s: string, i: nat): (c: char)
    ensures c == '\0' <==> i >= |CStr(s)|
  {
    var t := CStr(s);
    if i < |t| then t[i] else '\0'
  }

  /** `&str[k]` on a C string: the C string from position k on (empty past the terminator). */
  function SuffixFrom(s: string, k: nat): (r: string)
    ensures k <= |CStr(s)| ==> r == CStr(s)[k..]
    ensures k > |CStr(s)| ==> r == []
  {
    var t := CStr(s);
    if k <= |t| then t[k..] else []
  }

  /** `s.rfind(prefix, 0) == 0`. */
  predicate StartsWith(s: string, prefix: string) {
    |prefix| <= |s| && s[..|prefix|] == prefix
  }

  predicate IsDigit(c: char) {
    '0' <= c <= '9'
  }

  predicate AllDigits(ds: string) {
    forall i | 0 <= i < |ds| :: IsDigit(ds[i])
  }

  function DigitChar(d: nat): (c: char)
    requires d < 10
    ensures IsDigit(c)
  {
    ('0' as int + d) as char
  }

  /** The value of a string of decimal digits, most significant first. */
  function DigitsValue(ds: string): nat
    requires AllDigits(ds)
    decreases |ds|
  {
    if ds == [] then 0 else 10 * DigitsValue(ds[..|ds| - 1]) + (ds[|ds| - 1] as int - '0' as int)
  }

  /**
   * The integer that `std::istringstream(s) >> value` reads when it must also
   * reach the end of s: an optional sign, at least one digit, and a value that
   * fits an `int` (an out-of-range value sets failbit).
   */
  function ParseInt(s: string): (r: Option<int>)
    ensures r.Some? ==> MinInt32 <= r.value <= MaxInt32
    ensures r.Some? ==> s != [] && forall i | 0 < i < |s| :: IsDigit(s[i])
    ensures r.Some? ==> IsDigit(s[0]) || s[0] == '-' || s[0] == '+'
    ensures r.Some? ==> |s| >= 1 && IsDigit(s[|s| - 1])
  {
    var signed := |s| > 0 && (s[0] == '-' || s[0] == '+');
    var ds := if signed then s[1..] else s;
    if ds == [] || !AllDigits(ds) then None
    else
      var v: int := if signed && s[0] == '-' then 0 - DigitsValue(ds) as int else DigitsValue(ds) as int;
      if MinInt32 <= v <= MaxInt32 then Some(v) else None
  }

  /** A sign with no digit after it is not a number. */
  lemma ParseIntLoneSign()
    ensures ParseInt("+") == None && ParseInt("-") == None && ParseInt("") == None
  {
  }

  /** The shortest decimal text of n: digits, most significant first. */
  function NatDigits(n: nat): (ds: string)
    ensures |ds| > 0 && AllDigits(ds)
    decreases n
  {
    if n < 10 then [DigitChar(n)] else NatDigits(n / 10) + [DigitChar(n % 10)]
  }

  /** The decimal text of n, with a leading '-' when negative. */
  function ToDecimal(n: int): string {
    if n < 0 then "-" + NatDigits(-n) else NatDigits(n)
  }

  lemma {:induction false} NatDigitsValue(n: nat)
    ensures DigitsValue(NatDigits(n)) == n
    decreases n
  {
    if n >= 10 {
      NatDigitsValue(n / 10);
      var ds := NatDigits(n);
      assert ds[..|ds| - 1] == NatDigits(n / 10);
    }
  }

  /** A string without a NUL is its own C string. */
  lemma {:induction false} CStrWithoutNul(s: string)
    requires forall i | 0 <= i < |s| :: s[i] != '\0'
    ensures CStr(s) == s
    decreases |s|
  {
    if s != [] {
      CStrWithoutNul(s[1..]);
    }
  }

  /** The decimal text of an integer holds no NUL. */
  lemma ToDecimalWithoutNul(n: int)
    ensures forall i | 0 <= i < |ToDecimal(n)| :: ToDecimal(n)[i] != '\0'
  {
    var ds := NatDigits(if n < 0 then -n else n);
    assert forall i | 0 <= i < |ds| :: IsDigit(ds[i]);
  }

  /** The value a sign ("", "+" or "-") followed by decimal digits denotes. */
  function SignedValue(sign: string, ds: string): int
    requires AllDigits(ds)
  {
    if sign == "-" then 0 - DigitsValue(ds) else DigitsValue(ds)
  }

  /**
   * The converse of ParseInt's contract: a sign followed by at least one digit
   * is read exactly when its value fits an `int`, and then as that value, so
   * leading zeros, a '+' and "-0" are all accepted.
   */
  lemma ParseIntSignedDigits(sign: string, ds: string)
    requires sign == "" || sign == "+" || sign == "-"
    requires ds != [] && AllDigits(ds)
    ensures ParseInt(sign + ds).Some? <==> MinInt32 <= SignedValue(sign, ds) <= MaxInt32
    ensures ParseInt(sign + ds).Some? ==> ParseInt(sign + ds).value == SignedValue(sign, ds)
  {
    var s := sign + ds;
    if sign == "" {
      assert s == ds && IsDigit(s[0]);
    } else {
      assert s[0] == sign[0] && s[1..] == ds;
    }
  }

  /** A leading zero does not change the value of a run of digits. */
  lemma {:induction false} DigitsValueLeadingZero(ds: string)
    requires AllDigits(ds)
    ensures DigitsValue("0" + ds) == DigitsValue(ds)
    decreases |ds|
  {
    if ds != [] {
      var t := "0" + ds;
      assert t[..|t| - 1] == "0" + ds[..|ds| - 1];
      assert t[|t| - 1] == ds[|ds| - 1];
      DigitsValueLeadingZero(ds[..|ds| - 1]);
    }
  }

  /** Leading zeros after the sign are skipped: "0130" reads as 130 and "-007" as -7. */
  lemma ParseIntLeadingZero(sign: string, ds: string)
    requires sign == "" || sign == "+" || sign == "-"
    requires ds != [] && AllDigits(ds)
    ensures ParseInt(sign + "0" + ds) == ParseInt(sign + ds)
  {
    assert sign + "0" + ds == sign + ("0" + ds);
    assert AllDigits("0" + ds) by {
      forall i | 0 <= i < |"0" + ds| ensures IsDigit(("0" + ds)[i]) {
        if i > 0 { assert ("0" + ds)[i] == ds[i - 1]; }
      }
    }
    DigitsValueLeadingZero(ds);
    ParseIntSignedDigits(sign, "0" + ds);
    ParseIntSignedDigits(sign, ds);
  }

  /** A leading zero is skipped: "0130" reads as 130. */
  lemma ParseIntLeadingZeroExample()
    ensures ParseInt("0130") == Some(130)
  {
    var ds := "130";
    assert DigitsValue("1") == 1 by { assert "1"[..0] == ""; }
    assert DigitsValue("13") == 13 by { assert "13"[..1] == "1"; }
    assert DigitsValue(ds) == 130 by { assert ds[..2] == "13"; }
    ParseIntLeadingZero("", ds);
    ParseIntSignedDigits("", ds);
    assert "" + ds == ds && "" + "0" + ds == "0130";
  }

  /** A '+' sign is accepted: "+7" reads as 7. */
  lemma ParseIntPlusExample()
    ensures ParseInt("+7") == Some(7)
  {
    assert "7"[..0] == "";
    ParseIntSignedDigits("+", "7");
    assert "+" + "7" == "+7";
  }

  /** A negative zero is accepted: "-0" reads as 0. */
  lemma ParseIntMinusZeroExample()
    ensures ParseInt("-0") == Some(0)
  {
    assert "0"[..0] == "";
    ParseIntSignedDigits("-", "0");
    assert "-" + "0" == "-0";
  }

  /** Reading back the decimal text of any `int` gives that int. */
  lemma ParseIntToDecimal(n: int)
    requires MinInt32 <= n <= MaxInt32
    ensures ParseInt(ToDecimal(n)) == Some(n)
  {
    if n < 0 {
      var ds := NatDigits(-n);
      NatDigitsValue(-n);
      assert ToDecimal(n) == "-" + ds;
      ParseIntSignedDigits("-", ds);
    } else {
      var ds := NatDigits(n);
      NatDigitsValue(n);
      assert ToDecimal(n) == ds && "" + ds == ds;
      ParseIntSignedDigits("", ds);
    }
  }
}
