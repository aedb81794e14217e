/**
 * The number parsing the scripts and the table/chart helpers apply to the
 * scraped strings ("1,234kg", "52,000원"): `parseFloat` on decimal
 * notation, the cleaning step of `parseNumber`, and the
 * `parseFloat(s.replace(/,/g, "")) || 0` idiom. Values are exact reals;
 * rounding to binary floating point is not modelled.
 */
module Numbers {
  import opened Wrappers
  import opened Strings
  import opened Sorting

  /** Whitespace prefix that `parseFloat` skips. */
  function TrimStart(s: string): (r: string)
    ensures |r| <= |s| && r == s[|s| - |r|..]
    ensures |r| > 0 ==> !IsJsWhitespace(r[0])
  {
    if |s| > 0 && IsJsWhitespace(s[0]) then TrimStart(s[1..]) else s
  }

  /** Digits, then optionally '.' and fraction digits, with at least one digit; the rest is ignored. */
  function ParseUnsigned(u: string): Option<real> {
    var ip := LeadingDigits(u);
    UnsignedParts(ip, u[|ip|..])
  }

  /** The digits after a decimal point that starts `rest`, if it does. */
  function FractionDigits(rest: string): (fp: string)
    ensures AllDigits(fp)
  {
    if |rest| > 0 && rest[0] == '.' then LeadingDigits(rest[1..]) else ""
  }

  function UnsignedParts(ip: string, rest: string): Option<real>
    requires AllDigits(ip)
  {
    var fp := FractionDigits(rest);
    if |ip| == 0 && |fp| == 0 then None
    else Some(DigitsValue(ip) as real + FractionValue(fp))
  }

  /** Value of the digits after the decimal point: "25" is 0.25. */
  function FractionValue(fp: string): (r: real)
    requires AllDigits(fp)
    ensures 0.0 <= r <= 1.0
  {
    if |fp| == 0 then 0.0 else (DigitValue(fp[0]) as real + FractionValue(fp[1..])) / 10.0
  }

  /**
   * `parseFloat(s)` restricted to decimal notation: optional leading
   * whitespace and an optional sign before `ParseUnsigned`. None is NaN.
   */
  function ParseFloat(s: string): Option<real> {
    var t := TrimStart(s);
    if |t| > 0 && t[0] == '-' then
      (match ParseUnsigned(t[1..]) case Some(v) => Some(-v) case None => None)
    else if |t| > 0 && t[0] == '+' then ParseUnsigned(t[1..])
    else ParseUnsigned(t)
  }

  lemma ParseUnsignedOfDigits(ds: string, rest: string)
    requires |ds| > 0 && AllDigits(ds)
    requires |rest| == 0 || (!IsDigit(rest[0]) && rest[0] != '.')
    ensures ParseUnsigned(ds + rest) == Some(DigitsValue(ds) as real)
  {
    var u := ds + rest;
    LeadingDigitsOfDigits(ds, rest);
    assert u[|ds|..] == rest;
    UnsignedPartsWhole(ds, rest);
  }

  lemma UnsignedPartsWhole(ds: string, rest: string)
    requires |ds| > 0 && AllDigits(ds)
    requires |rest| == 0 || rest[0] != '.'
    ensures UnsignedParts(ds, rest) == Some(DigitsValue(ds) as real)
  {
    assert FractionDigits(rest) == "";
  }

  /** A digit is not whitespace. */
  lemma DigitNotWhitespace(c: char)
    requires IsDigit(c)
    ensures !IsJsWhitespace(c)
  {
  }

  lemma TrimStartAtDigit(t: string)
    requires |t| > 0 && IsDigit(t[0])
    ensures TrimStart(t) == t
  {
    DigitNotWhitespace(t[0]);
  }

  /** A run of digits followed by anything that cannot continue a number parses as that integer. */
  lemma ParseFloatOfDigits(ds: string, rest: string)
    requires |ds| > 0 && AllDigits(ds)
    requires |rest| == 0 || (!IsDigit(rest[0]) && rest[0] != '.')
    ensures ParseFloat(ds + rest) == Some(DigitsValue(ds) as real)
  {
    var t := ds + rest;
    assert t[0] == ds[0];
    TrimStartAtDigit(t);
    ParseUnsignedOfDigits(ds, rest);
  }

  /** A string of digits alone parses as its value. */
  lemma ParseFloatOfAllDigits(ds: string)
    requires |ds| > 0 && AllDigits(ds)
    ensures ParseFloat(ds) == Some(DigitsValue(ds) as real)
  {
    ParseFloatOfDigits(ds, "");
    assert ds + "" == ds;
  }

  /** Characters that survive `replace(/[\s,]/g, "")`. */
  predicate Kept(c: char) {
    !IsJsWhitespace(c) && c != ','
  }

  /** `replace(/(kg|원)$/g, "")`: drop one trailing unit. */
  function StripUnit(t: string): (r: string)
    ensures |r| <= |t| && r == t[..|r|]
    ensures r != t ==> t[|r|..] == "kg" || t[|r|..] == "원"
  {
    if |t| >= 2 && t[|t| - 2..] == "kg" then t[..|t| - 2]
    else if |t| >= 1 && t[|t| - 1] == '원' then t[..|t| - 1]
    else t
  }

  /** The cleaning step of `parseNumber`. */
  function CleanNumber(s: string): (r: string)
    ensures forall i :: 0 <= i < |r| ==> Kept(r[i])
    ensures |r| <= |s|
  {
    StripUnit(Filter(s, Kept))
  }

  /**
   * `parseNumber(str)`: 0 for a missing or empty string and for anything
   * that does not parse after cleaning.
   */
  function ParseNumber(str: Option<string>): real {
    if str.None? || str.value == "" then 0.0
    else ParseFloat(CleanNumber(str.value)).GetOr(0.0)
  }

  /** Cleaning a digit string followed by a unit leaves just the digits. */
  /** Digits followed by a unit contain no whitespace and no ','. */
  lemma DigitsWithUnitKept(ds: string, unit: string)
    requires AllDigits(ds)
    requires unit == "" || unit == "kg" || unit == "원"
    ensures Filter(ds + unit, Kept) == ds + unit
  {
    var s := ds + unit;
    forall i | 0 <= i < |s| ensures Kept(s[i]) {
      if i < |ds| {
        assert IsDigit(s[i]);
      }
    }
    FilterAll(s, Kept);
  }

  /** A digit string has no unit to strip. */
  lemma StripUnitOfDigits(ds: string)
    requires AllDigits(ds)
    ensures StripUnit(ds) == ds
  {
    if |ds| >= 1 {
      assert IsDigit(ds[|ds| - 1]);
    }
    if |ds| >= 2 {
      assert ds[|ds| - 2..][1] == ds[|ds| - 1];
    }
  }

  /** A trailing "kg" is stripped. */
  lemma StripUnitKg(ds: string)
    ensures StripUnit(ds + "kg") == ds
  {
    var s := ds + "kg";
    assert s[|s| - 2..] == "kg" && s[..|s| - 2] == ds;
  }

  /** A trailing '원' is stripped. */
  lemma StripUnitWon(ds: string)
    ensures StripUnit(ds + "원") == ds
  {
    var s := ds + "원";
    if |s| >= 2 {
      assert s[|s| - 2..][1] == '원';
    }
    assert s[..|s| - 1] == ds;
  }

  lemma CleanDigitsWithUnit(ds: string, unit: string)
    requires AllDigits(ds)
    requires unit == "" || unit == "kg" || unit == "원"
    ensures CleanNumber(ds + unit) == ds
  {
    DigitsWithUnitKept(ds, unit);
    if unit == "" {
      assert ds + unit == ds;
      StripUnitOfDigits(ds);
    } else if unit == "kg" {
      StripUnitKg(ds);
    } else {
      StripUnitWon(ds);
    }
  }

  /** A non-empty string that cleans to a run of digits parses as their value. */
  lemma ParseNumberOfCleanDigits(s: string, ds: string)
    requires s != "" && CleanNumber(s) == ds
    requires |ds| > 0 && AllDigits(ds)
    ensures ParseNumber(Some(s)) == DigitsValue(ds) as real
  {
    ParseFloatOfAllDigits(ds);
  }

  /** A digit string written with an optional unit parses as its value. */
  lemma ParseNumberOfDigits(ds: string, unit: string)
    requires |ds| > 0 && AllDigits(ds)
    requires unit == "" || unit == "kg" || unit == "원"
    ensures ParseNumber(Some(ds + unit)) == DigitsValue(ds) as real
  {
    CleanDigitsWithUnit(ds, unit);
    ParseNumberOfCleanDigits(ds + unit, ds);
  }

  /** An integer written with an optional unit parses back to itself. */
  lemma ParseNumberOfInteger(n: nat, unit: string)
    requires unit == "" || unit == "kg" || unit == "원"
    ensures ParseNumber(Some(NatToString(n) + unit)) == n as real
  {
    ParseNumberOfDigits(NatToString(n), unit);
    NatToStringRoundTrip(n);
  }

  /** Whitespace and thousands separators never change the parsed value. */
  lemma ParseNumberIgnoresSeparators(s: string)
    ensures ParseNumber(Some(s)) == ParseNumber(Some(Filter(s, Kept)))
  {
    var f := Filter(s, Kept);
    FilterIdempotent(s, Kept);
    if s != "" && f == "" {
      assert CleanNumber(s) == "";
      assert ParseFloat("") == None;
    }
  }

  predicate NoDigits(s: string) {
    forall i :: 0 <= i < |s| ==> !IsDigit(s[i])
  }

  /** Every suffix of a digit-free string is digit-free and starts no digit run. */
  lemma NoDigitsSuffix(u: string, k: nat)
    requires NoDigits(u) && k <= |u|
    ensures NoDigits(u[k..]) && LeadingDigits(u[k..]) == ""
  {
    assert forall i :: 0 <= i < |u[k..]| ==> u[k..][i] == u[k + i];
  }

  /** Without a digit there is no number: NaN. */
  lemma ParseFloatNeedsDigit(s: string)
    requires NoDigits(s)
    ensures ParseFloat(s) == None
  {
    var t := TrimStart(s);
    NoDigitsSuffix(s, |s| - |t|);
    if |t| > 0 {
      NoDigitsSuffix(t, 1);
      if |t| > 1 {
        NoDigitsSuffix(t, 2);
        assert t[1..][1..] == t[2..];
      }
    }
  }

  /**
   * `parseNumber` falls back to 0 for a missing string, an empty string,
   * and a string with no digit at all.
   */
  lemma ParseNumberDefaults(s: string)
    ensures ParseNumber(None) == 0.0 && ParseNumber(Some("")) == 0.0
    ensures NoDigits(s) ==> ParseNumber(Some(s)) == 0.0
  {
    if NoDigits(s) && s != "" {
      var f := Filter(s, Kept);
      var c := CleanNumber(s);
      assert NoDigits(c) by {
        forall i | 0 <= i < |c| ensures !IsDigit(c[i]) {
          assert c[i] == f[i];
          assert f[i] in s;
        }
      }
      ParseFloatNeedsDigit(c);
    }
  }

  /** `parseFloat(s.replace(/,/g, "")) || 0`: NaN (and zero) become 0. */
  function LooseNumber(s: string): (r: real)
    ensures r != 0.0 ==> ParseFloat(RemoveAll(s, ',')) == Some(r)
  {
    match ParseFloat(RemoveAll(s, ','))
    case Some(v) => v
    case None => 0.0
  }
}
