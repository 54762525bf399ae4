/** Decimal strings: the grammar -?digits(.digits)?, the parser and the printer (scripts/bybit-probe/decimal.ts). */
module DecimalText {
  import opened Common
  import opened Decimals
  import opened StepRounding

  // ---------------------------------------------------------------- digits

  predicate IsDigit(c: char) {
    '0' <= c <= '9'
  }

  predicate AllDigits(s: string) {
    forall i :: 0 <= i < |s| ==> IsDigit(s[i])
  }

  /** The number a digit string spells. */
  function Number(s: string): nat
    requires AllDigits(s)
  {
    if s == "" then 0 else 10 * Number(s[..|s| - 1]) + (s[|s| - 1] as int - '0' as int)
  }

  function Digits(n: nat): (s: string)
    ensures s != "" && AllDigits(s)
  {
    var last := ['0' + (n % 10) as char];
    if n < 10 then last else Digits(n / 10) + last
  }

  function Zeros(n: nat): (s: string)
    ensures |s| == n && AllDigits(s)
  {
    if n == 0 then "" else Zeros(n - 1) + "0"
  }

  /** How many digits `s` starts with. */
  function DigitRun(s: string): (n: nat)
    ensures n <= |s| && AllDigits(s[..n]) && (n < |s| ==> !IsDigit(s[n]))
  {
    if s != "" && IsDigit(s[0]) then
      var rest := DigitRun(s[1..]);
      assert s[..rest + 1] == [s[0]] + s[1..][..rest];
      rest + 1
    else 0
  }

  lemma {:induction false} NumberOfDigits(n: nat)
    ensures Number(Digits(n)) == n
  {
    if n >= 10 {
      NumberOfDigits(n / 10);
      var s := Digits(n);
      assert s[..|s| - 1] == Digits(n / 10);
    }
  }

  lemma {:induction false} LeadingZeros(n: nat, s: string)
    requires AllDigits(s)
    ensures AllDigits(Zeros(n) + s) && Number(Zeros(n) + s) == Number(s)
    decreases |s|, n
  {
    var z := Zeros(n) + s;
    if s != "" {
      LeadingZeros(n, s[..|s| - 1]);
      assert z[..|z| - 1] == Zeros(n) + s[..|s| - 1];
    } else if n > 0 {
      LeadingZeros(n - 1, s);
      assert z[..|z| - 1] == Zeros(n - 1) + s;
    }
  }

  /** A fraction's digits count tenths, hundredths and so on. */
  lemma {:induction false} WholeAndFraction(whole: string, fraction: string)
    requires AllDigits(whole) && AllDigits(fraction)
    ensures AllDigits(whole + fraction)
    ensures Value(Decimal(Number(whole + fraction), |fraction|))
            == Number(whole) as real + Value(Decimal(Number(fraction), |fraction|))
    decreases |fraction|
  {
    if fraction == "" {
      assert whole + fraction == whole;
    } else {
      var k := |fraction| - 1;
      var shorter, digit := fraction[..k], fraction[k] as int - '0' as int;
      WholeAndFraction(whole, shorter);
      assert (whole + fraction)[..|whole + fraction| - 1] == whole + shorter;
      TenfoldValue(Number(whole + shorter), k);
      TenfoldValue(Number(shorter), k);
      OneScale(10 * Number(whole + shorter), digit, k + 1);
      OneScale(10 * Number(shorter), digit, k + 1);
    }
  }

  // ---------------------------------------------------------------- parser

  function Signed(negative: bool, n: int): int {
    if negative then -n else n
  }

  /** The whole and fraction groups of an unsigned decimal string. */
  function MatchGroups(body: string): (r: Result<(string, string), ProbeError>)
    ensures r.Ok? ==> AllDigits(r.value.0) && AllDigits(r.value.1) && AllDigits(r.value.0 + r.value.1)
  {
    var w := DigitRun(body);
    if w == 0 then Err(MalformedDecimal)
    else if w == |body| then Ok((body[..w], ""))
    else
      var fraction := body[w + 1..];
      if body[w] == '.' && fraction != "" && DigitRun(fraction) == |fraction| then
        assert fraction[..|fraction|] == fraction;
        Ok((body[..w], fraction))
      else Err(MalformedDecimal)
  }

  function ParseUnsigned(body: string, negative: bool): Result<Decimal, ProbeError> {
    var (whole, fraction) :- MatchGroups(body);
    Ok(Normalized(Signed(negative, Number(whole + fraction)), |fraction|))
  }

  function ParseDecimal(s: string): Result<Decimal, ProbeError> {
    if s != "" && s[0] == '-' then ParseUnsigned(s[1..], true) else ParseUnsigned(s, false)
  }

  function PointAnd(fraction: string): string {
    if fraction == "" then "" else "." + fraction
  }

  /** `s` is an optional minus, whole digits, and either nothing or a point and fraction digits. */
  ghost predicate Spells(s: string, negative: bool, whole: string, fraction: string) {
    && AllDigits(whole) && AllDigits(fraction) && whole != ""
    && s == (if negative then "-" + (whole + PointAnd(fraction)) else whole + PointAnd(fraction))
  }

  lemma {:induction false} RunOfDigits(digits: string, rest: string)
    requires AllDigits(digits) && (rest != "" ==> !IsDigit(rest[0]))
    ensures DigitRun(digits + rest) == |digits|
  {
    if digits == "" {
      assert digits + rest == rest;
    } else {
      RunOfDigits(digits[1..], rest);
      assert (digits + rest)[1..] == digits[1..] + rest;
    }
  }

  lemma GroupsOfBody(whole: string, fraction: string)
    requires AllDigits(whole) && AllDigits(fraction) && whole != ""
    ensures MatchGroups(whole + PointAnd(fraction)) == Ok((whole, fraction))
  {
    var body := whole + PointAnd(fraction);
    RunOfDigits(whole, PointAnd(fraction));
    RunOfDigits(fraction, "");
    assert fraction + "" == fraction && body[..|whole|] == whole;
    assert fraction != "" ==> body[|whole| + 1..] == fraction;
  }

  lemma BodyOfGroups(body: string)
    requires MatchGroups(body).Ok?
    ensures var (whole, fraction) := MatchGroups(body).value;
            whole != "" && body == whole + PointAnd(fraction)
  {
  }

  lemma SpelledIsParsed(s: string, negative: bool, whole: string, fraction: string)
    requires Spells(s, negative, whole, fraction)
    ensures AllDigits(whole + fraction)
    ensures ParseDecimal(s) == Ok(Normalized(Signed(negative, Number(whole + fraction)), |fraction|))
  {
    hide MatchGroups, Normalized, Number, PointAnd;
    GroupsOfBody(whole, fraction);
    if negative {
      assert s[1..] == whole + PointAnd(fraction);
    }
  }

  lemma ParsedIsSpelled(s: string)
    requires ParseDecimal(s).Ok?
    ensures exists negative, whole, fraction :: Spells(s, negative, whole, fraction)
  {
    hide MatchGroups, Normalized, Number, PointAnd;
    var negative := s != "" && s[0] == '-';
    var body := if negative then s[1..] else s;
    BodyOfGroups(body);
    var (whole, fraction) := MatchGroups(body).value;
    assert negative ==> s == "-" + body;
    assert Spells(s, negative, whole, fraction);
  }

  /** The number that groups of digits stand for. */
  ghost function Spelled(negative: bool, whole: string, fraction: string): real
    requires AllDigits(whole) && AllDigits(fraction)
  {
    var n := Number(whole) as real + Value(Decimal(Number(fraction), |fraction|));
    if negative then -n else n
  }

  lemma SpelledValue(s: string, negative: bool, whole: string, fraction: string)
    requires Spells(s, negative, whole, fraction)
    ensures ParseDecimal(s).Ok? && IsNormal(ParseDecimal(s).value)
    ensures Value(ParseDecimal(s).value) == Spelled(negative, whole, fraction)
  {
    hide Value, Normalized, Number, ParseDecimal, IsNormal;
    SpelledIsParsed(s, negative, whole, fraction);
    WholeAndFraction(whole, fraction);
    var c, k := Number(whole + fraction), |fraction|;
    NormalizedIsExact(Signed(negative, c), k);
    NegateIsExact(Decimal(c, k));
  }

  /**
   * The parser accepts exactly the grammar, and gives the number the string spells, in normal
   * form: whole part plus tenths, hundredths and so on, negated after a minus.
   */
  lemma ParseDecimalMeaning(s: string)
    ensures ParseDecimal(s).Ok? <==> exists negative, whole, fraction :: Spells(s, negative, whole, fraction)
    ensures forall negative, whole, fraction :: Spells(s, negative, whole, fraction) ==>
      && IsNormal(ParseDecimal(s).value)
      && Value(ParseDecimal(s).value) == Spelled(negative, whole, fraction)
  {
    hide ParseDecimal, IsNormal, Value, Spelled;
    if ParseDecimal(s).Ok? {
      ParsedIsSpelled(s);
    }
    forall negative, whole, fraction | Spells(s, negative, whole, fraction)
      ensures ParseDecimal(s).Ok? && IsNormal(ParseDecimal(s).value)
      ensures Value(ParseDecimal(s).value) == Spelled(negative, whole, fraction)
    {
      SpelledValue(s, negative, whole, fraction);
    }
  }

  // --------------------------------------------------------------- printer

  /** The digits padded so that at least one stands before the point. */
  function Padded(digits: string, scale: nat): (s: string)
    requires AllDigits(digits) && digits != ""
    ensures AllDigits(s) && |s| > scale
  {
    if |digits| <= scale then Zeros(scale + 1 - |digits|) + digits else digits
  }

  /** The last `scale` digits behind a point, a minus in front. */
  function Layout(negative: bool, padded: string, scale: nat): string
    requires |padded| > scale
  {
    var splitAt := |padded| - scale;
    var text := if scale == 0 then padded else padded[..splitAt] + ("." + padded[splitAt..]);
    if negative then "-" + text else text
  }

  function ToDecimalString(d: Decimal): string {
    if d.coefficient == 0 then "0"
    else if d.coefficient < 0 then Layout(true, Padded(Digits(-d.coefficient), d.scale), d.scale)
    else Layout(false, Padded(Digits(d.coefficient), d.scale), d.scale)
  }

  lemma LayoutSpells(negative: bool, padded: string, scale: nat)
    requires AllDigits(padded) && |padded| > scale
    ensures Spells(Layout(negative, padded, scale), negative, padded[..|padded| - scale], padded[|padded| - scale..])
  {
    var whole, fraction := padded[..|padded| - scale], padded[|padded| - scale..];
    assert scale == 0 ==> padded == whole + PointAnd(fraction);
  }

  lemma PaddingKeepsNumber(n: nat, scale: nat)
    ensures Number(Padded(Digits(n), scale)) == n
  {
    NumberOfDigits(n);
    if |Digits(n)| <= scale {
      LeadingZeros(scale + 1 - |Digits(n)|, Digits(n));
    }
  }

  lemma ParseOfLayout(negative: bool, n: nat, scale: nat)
    ensures ParseDecimal(Layout(negative, Padded(Digits(n), scale), scale)) == Ok(Normalized(Signed(negative, n), scale))
  {
    hide Normalized, Number, Digits, Padded, ParseDecimal, Layout, Spells;
    var padded := Padded(Digits(n), scale);
    var splitAt := |padded| - scale;
    LayoutSpells(negative, padded, scale);
    SpelledIsParsed(Layout(negative, padded, scale), negative, padded[..splitAt], padded[splitAt..]);
    assert padded[..splitAt] + padded[splitAt..] == padded;
    PaddingKeepsNumber(n, scale);
  }

  /** Parsing what was printed gives back the number, in normal form, for every representation. */
  lemma ParseOfPrint(d: Decimal)
    ensures ParseDecimal(ToDecimalString(d)) == Ok(Normalized(d.coefficient, d.scale))
  {
    if d.coefficient == 0 {
      assert "0" + PointAnd("") == "0" && "0" + "" == "0";
      SpelledIsParsed("0", false, "0", "");
    } else {
      hide Normalized, ParseDecimal, Layout;
      ParseOfLayout(d.coefficient < 0, if d.coefficient < 0 then -d.coefficient else d.coefficient, d.scale);
    }
  }

  /** A normalised decimal survives the round trip unchanged. */
  lemma RoundTrip(d: Decimal)
    requires IsNormal(d)
    ensures ParseDecimal(ToDecimalString(d)) == Ok(d)
  {
    ParseOfPrint(d);
    NormalizedIsExact(d.coefficient, d.scale);
    NormalFormIsUnique(Normalized(d.coefficient, d.scale), d);
  }

  /** Two strings print alike after parsing exactly when they spell the same number; printing again changes nothing. */
  lemma PrintedFormDecidesValue(s: string, t: string)
    requires ParseDecimal(s).Ok? && ParseDecimal(t).Ok?
    ensures var a, b := ParseDecimal(s).value, ParseDecimal(t).value;
            && (ToDecimalString(a) == ToDecimalString(b) <==> Value(a) == Value(b))
            && ParseDecimal(ToDecimalString(a)) == Ok(a)
  {
    var a, b := ParseDecimal(s).value, ParseDecimal(t).value;
    ParsedIsNormal(s);
    ParsedIsNormal(t);
    RoundTrip(a);
    RoundTrip(b);
    if Value(a) == Value(b) {
      NormalFormIsUnique(a, b);
    }
  }

  lemma ParsedIsNormal(s: string)
    requires ParseDecimal(s).Ok?
    ensures IsNormal(ParseDecimal(s).value)
  {
    ParsedIsSpelled(s);
    ParseDecimalMeaning(s);
  }
}
