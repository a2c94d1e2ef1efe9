/** Money arithmetic: decimal texts to micro-dollars with ceiling rounding, and token costs. */
module Pricing {
  import opened Results
  import opened Decimal

  const SCALE: nat := 1_000_000
  const MAX_SAFE_INTEGER: int := 9_007_199_254_740_991

  /** `r` is the least integer that is at least `numerator / denominator`. */
  predicate IsCeiling(r: int, numerator: int, denominator: int) {
    (r - 1) * denominator < numerator <= r * denominator
  }

  function CeilDiv(numerator: nat, denominator: nat): (r: nat)
    requires denominator > 0
    ensures IsCeiling(r, numerator, denominator)
  {
    var r := (numerator + denominator - 1) / denominator;
    assert numerator + denominator - 1 == r * denominator + (numerator + denominator - 1) % denominator;
    assert (r - 1) * denominator == r * denominator - denominator;
    r
  }

  lemma CeilingIsUnique(r: int, n: int, d: int, r': int, n': int, d': int)
    requires d > 0 && d' > 0
    requires IsCeiling(r, n, d) && IsCeiling(r', n', d')
    requires n * d' == n' * d
    ensures r == r'
  {
    CeilingOrder(r, n, d, r', n', d');
    CeilingOrder(r', n', d', r, n, d);
  }

  /** Ceilings keep the order of the fractions. */
  lemma CeilingOrder(r: int, n: int, d: int, r': int, n': int, d': int)
    requires d > 0 && d' > 0
    requires IsCeiling(r, n, d) && IsCeiling(r', n', d')
    requires n * d' <= n' * d
    ensures r <= r'
  {
    calc {
      (r - 1) * (d * d');
    ==  { MulRegroup(r - 1, d, d'); }
      (r - 1) * d * d';
    <  { MulStrict((r - 1) * d, n, d'); }
      n * d';
    <=
      n' * d;
    <=  { MulOrder(n', r' * d', d); }
      r' * d' * d;
    ==  { MulRegroup(r', d', d); }
      r' * (d' * d);
    ==  { MulSwap(d, d'); }
      r' * (d * d');
    }
    MulPositive(d, d');
    MulCancel(r - 1, r', d * d');
  }

  lemma MulRegroup(a: int, b: int, c: int)
    ensures a * (b * c) == a * b * c
  {
  }

  lemma MulSwap(a: int, b: int)
    ensures a * b == b * a
  {
  }

  lemma MulPositive(a: int, b: int)
    requires a > 0 && b > 0
    ensures a * b > 0
  {
  }

  lemma MulCancel(a: int, b: int, c: int)
    requires a * c < b * c && c > 0
    ensures a < b
  {
  }

  lemma MulOrder(a: int, b: int, c: int)
    requires a <= b && c >= 0
    ensures a * c <= b * c
  {
  }

  lemma MulStrict(a: int, b: int, c: int)
    requires a < b && c > 0
    ensures a * c < b * c
  {
  }

  // ----- price texts: digits with at most six decimals -----

  /** Digits, then optionally a dot and one to six more digits, scaled by a million. */
  function DecimalToScaled(text: string): Result<nat> {
    var w := DigitSpan(text);
    if w == 0 then Err("INVALID_PRICE")
    else if w == |text| then Ok(Value(text[..w]) * SCALE + Value(PadEnd("", 6)))
    else
      var fraction := text[w + 1..];
      if text[w] == '.' && AllDigits(fraction) && 1 <= |fraction| <= 6
      then Ok(Value(text[..w]) * SCALE + Value(PadEnd(fraction, 6)))
      else Err("INVALID_PRICE")
  }

  // ----- provider cost texts: digits, optional decimals, optional exponent -----

  datatype Parts = Parts(whole: string, fraction: string, exponent: int)

  predicate WellFormed(p: Parts) {
    AllDigits(p.whole) && AllDigits(p.fraction)
  }

  function ParseExponent(text: string): Option<int> {
    if text == "" then Some(0)
    else if text[0] != 'e' && text[0] != 'E' then None
    else
      var signed := |text| > 1 && (text[1] == '+' || text[1] == '-');
      var digits := if signed then text[2..] else text[1..];
      if digits == "" || !AllDigits(digits) then None
      else
        var magnitude: int := Value(digits);
        Some(if signed && text[1] == '-' then -magnitude else magnitude)
  }

  function Match(text: string): (p: Option<Parts>)
    ensures p.Some? ==> WellFormed(p.value)
  {
    var w := DigitSpan(text);
    if w == 0 then None
    else
      var rest := text[w..];
      var f := if rest != "" && rest[0] == '.' then DigitSpan(rest[1..]) else 0;
      if rest != "" && rest[0] == '.' && f == 0 then None
      else
        var fraction := if f > 0 then rest[1..][..f] else "";
        var exponent := ParseExponent(if f > 0 then rest[1..][f..] else rest);
        if exponent.None? then None else Some(Parts(text[..w], fraction, exponent.value))
  }

  /** `digits` times ten to `power`, rounded up. */
  function ScaleUp(digits: nat, power: int): nat {
    if power >= 0 then digits * Pow10(power) else CeilDiv(digits, Pow10(-power))
  }

  function UsdToMicros(text: string): Result<nat> {
    match Match(text)
    case None => Err("INVALID_PROVIDER_COST")
    case Some(p) =>
      if p.exponent < -100 || p.exponent > 100 then Err("INVALID_PROVIDER_COST")
      else Ok(MicrosOf(p))
  }

  function MicrosOf(p: Parts): nat
    requires WellFormed(p)
  {
    ScaleUp(Value(p.whole + p.fraction), 6 + p.exponent - |p.fraction|)
  }

  /** The rational number a cost text denotes, in micros, as numerator and denominator. */
  function Numerator(p: Parts): nat
    requires WellFormed(p) && p.exponent >= -100
  {
    Value(p.whole + p.fraction) * Pow10(106 + p.exponent)
  }

  function Denominator(p: Parts): nat {
    Pow10(100 + |p.fraction|)
  }

  lemma CeilingScales(r: int, n: int, d: int, k: int)
    requires IsCeiling(r, n, d) && k > 0
    ensures IsCeiling(r, n * k, d * k)
  {
    MulStrict((r - 1) * d, n, k);
    MulOrder(n, r * d, k);
    MulRegroup(r - 1, d, k);
    MulRegroup(r, d, k);
  }

  lemma ScaleUpIsCeiling(digits: nat, exponent: int, decimals: nat)
    requires exponent >= -100
    ensures IsCeiling(ScaleUp(digits, 6 + exponent - decimals), digits * Pow10(106 + exponent), Pow10(100 + decimals))
  {
    var power := 6 + exponent - decimals;
    if power >= 0 {
      Pow10Sum(power, 100 + decimals);
      MulRegroup(digits, Pow10(power), Pow10(100 + decimals));
      WholeIsCeiling(digits * Pow10(power), Pow10(100 + decimals));
    } else {
      Pow10Sum(-power, 106 + exponent);
      CeilingScales(CeilDiv(digits, Pow10(-power)), digits, Pow10(-power), Pow10(106 + exponent));
    }
  }

  /** Every accepted cost text becomes the exact ceiling, in micros, of the number it denotes. */
  lemma UsdToMicrosIsCeiling(text: string)
    ensures UsdToMicros(text).Ok? <==> Match(text).Some? && -100 <= Match(text).value.exponent <= 100
    ensures UsdToMicros(text).Ok? ==>
              IsCeiling(UsdToMicros(text).value, Numerator(Match(text).value), Denominator(Match(text).value))
  {
    if Match(text).Some? && Match(text).value.exponent >= -100 {
      PartsCeiling(Match(text).value);
    }
  }

  lemma PartsCeiling(p: Parts)
    requires WellFormed(p) && p.exponent >= -100
    ensures IsCeiling(MicrosOf(p), Numerator(p), Denominator(p))
  {
    ScaleUpIsCeiling(Value(p.whole + p.fraction), p.exponent, |p.fraction|);
  }

  lemma WholeIsCeiling(r: int, d: int)
    requires d > 0
    ensures IsCeiling(r, r * d, d)
  {
  }

  /** Two accepted texts that denote the same number, however written, cost the same. */
  lemma UsdToMicrosDependsOnValue(text: string, other: string)
    requires UsdToMicros(text).Ok? && UsdToMicros(other).Ok?
    requires Match(text).Some? && WellFormed(Match(text).value) && Match(text).value.exponent >= -100
    requires Match(other).Some? && WellFormed(Match(other).value) && Match(other).value.exponent >= -100
    requires Numerator(Match(text).value) * Denominator(Match(other).value)
             == Numerator(Match(other).value) * Denominator(Match(text).value)
    ensures UsdToMicros(text) == UsdToMicros(other)
  {
    UsdToMicrosIsCeiling(text);
    UsdToMicrosIsCeiling(other);
    var p, q := Match(text).value, Match(other).value;
    CeilingIsUnique(UsdToMicros(text).value, Numerator(p), Denominator(p), UsdToMicros(other).value, Numerator(q),
                    Denominator(q));
  }

  // ----- printing USDC amounts -----

  function MicrosToUsdc(micros: nat): string {
    Print(micros / SCALE) + ("." + PadStart(Print(micros % SCALE), 6))
  }

  lemma FractionText(n: nat)
    requires n < SCALE
    ensures var s := PadStart(Print(n), 6); AllDigits(s) && |s| == 6 && Value(s) == n
  {
    PowerOfScale();
    PrintLength(n, 6);
    ValueOfPrint(n);
    ValueOfConcat(Zeros(6 - |Print(n)|), Print(n));
    ValueOfZeros(6 - |Print(n)|);
  }

  lemma Cut(a: string, b: string)
    ensures (a + b)[..|a|] == a && (a + b)[|a|..] == b
  {
  }

  lemma FixedPointSpan(whole: string, fraction: string)
    requires AllDigits(whole) && AllDigits(fraction)
    ensures var text := whole + ("." + fraction);
            && DigitSpan(text) == |whole|
            && text[..|whole|] == whole
            && text[|whole|..] == "." + fraction
            && text[|whole| + 1..] == fraction
            && ("." + fraction)[1..] == fraction
            && DigitSpan(fraction) == |fraction|
  {
    var tail := "." + fraction;
    DigitSpanOfConcat(whole, tail);
    DigitSpanOfConcat(fraction, "");
    assert fraction + "" == fraction;
    Cut(whole, tail);
    Cut(".", fraction);
    assert (whole + tail)[|whole| + 1..] == tail[1..];
  }

  /** How both parsers see a text of digits, a dot and six digits. */
  lemma FixedPointText(whole: string, fraction: string)
    requires AllDigits(whole) && whole != "" && AllDigits(fraction) && |fraction| == 6
    ensures Match(whole + ("." + fraction)) == Some(Parts(whole, fraction, 0))
    ensures DecimalToScaled(whole + ("." + fraction)) == Ok(Value(whole) * SCALE + Value(fraction))
  {
    FixedPointMatch(whole, fraction);
    FixedPointScaled(whole, fraction);
  }

  lemma FixedPointMatch(whole: string, fraction: string)
    requires AllDigits(whole) && whole != "" && AllDigits(fraction) && |fraction| == 6
    ensures Match(whole + ("." + fraction)) == Some(Parts(whole, fraction, 0))
  {
    FixedPointSpan(whole, fraction);
    assert fraction[..6] == fraction && fraction[6..] == "";
  }

  lemma FixedPointScaled(whole: string, fraction: string)
    requires AllDigits(whole) && whole != "" && AllDigits(fraction) && |fraction| == 6
    ensures DecimalToScaled(whole + ("." + fraction)) == Ok(Value(whole) * SCALE + Value(fraction))
  {
    var text := whole + ("." + fraction);
    FixedPointSpan(whole, fraction);
    assert text[|whole|] == '.';
    ScaledOf(text, whole, fraction);
  }

  lemma ScaledOf(text: string, whole: string, fraction: string)
    requires AllDigits(whole) && whole != "" && AllDigits(fraction) && |fraction| == 6
    requires |whole| < |text| && DigitSpan(text) == |whole| && text[..|whole|] == whole
    requires text[|whole|] == '.' && text[|whole| + 1..] == fraction
    ensures DecimalToScaled(text) == Ok(Value(whole) * SCALE + Value(fraction))
  {
  }

  lemma FixedPointAmount(text: string, whole: string, fraction: string)
    requires AllDigits(whole) && whole != "" && AllDigits(fraction) && |fraction| == 6
    requires text == whole + ("." + fraction)
    ensures UsdToMicros(text) == Ok(Value(whole) * SCALE + Value(fraction))
    ensures DecimalToScaled(text) == Ok(Value(whole) * SCALE + Value(fraction))
  {
    FixedPointText(whole, fraction);
    PartsAmount(whole, fraction);
  }

  lemma PartsAmount(whole: string, fraction: string)
    requires AllDigits(whole) && AllDigits(fraction) && |fraction| == 6
    ensures MicrosOf(Parts(whole, fraction, 0)) == Value(whole) * SCALE + Value(fraction)
  {
    ValueOfConcat(whole, fraction);
    PowerOfScale();
    assert Pow10(0) == 1;
  }

  lemma PrintedText(micros: nat) returns (whole: string, fraction: string)
    ensures AllDigits(whole) && whole != "" && AllDigits(fraction) && |fraction| == 6
    ensures MicrosToUsdc(micros) == whole + ("." + fraction)
    ensures Value(whole) * SCALE + Value(fraction) == micros
  {
    whole, fraction := Print(micros / SCALE), PadStart(Print(micros % SCALE), 6);
    FractionText(micros % SCALE);
    ValueOfPrint(micros / SCALE);
  }

  /** Both parsers read a printed amount back exactly. */
  lemma PrintedAmountParsesBack(micros: nat)
    ensures UsdToMicros(MicrosToUsdc(micros)) == Ok(micros)
    ensures DecimalToScaled(MicrosToUsdc(micros)) == Ok(micros)
  {
    var whole, fraction := PrintedText(micros);
    FixedPointAmount(MicrosToUsdc(micros), whole, fraction);
  }

  lemma PowerOfScale()
    ensures Pow10(6) == SCALE
  {
    assert Pow10(3) == 1000;
    Pow10Sum(3, 3);
  }

  /** Printing amounts is injective, so equal receipts carry equal amounts. */
  lemma PrintedAmountsDiffer(a: nat, b: nat)
    requires MicrosToUsdc(a) == MicrosToUsdc(b)
    ensures a == b
  {
    PrintedAmountParsesBack(a);
    PrintedAmountParsesBack(b);
  }

  // ----- token costs -----

  datatype TokenPrice = TokenPrice(inputUsdPerMillion: string, outputUsdPerMillion: string)

  function TokenCost(tokens: int, usdPerMillion: string): Result<nat> {
    if tokens < 0 || tokens > MAX_SAFE_INTEGER then Err("INVALID_TOKEN_COUNT")
    else
      match DecimalToScaled(usdPerMillion)
      case Err(code) => Err(code)
      case Ok(scaled) => Ok(CeilDiv(tokens * scaled, SCALE))
  }

  function Cost(inputTokens: int, outputTokens: int, price: TokenPrice): Result<nat> {
    match TokenCost(inputTokens, price.inputUsdPerMillion)
    case Err(code) => Err(code)
    case Ok(input) =>
      match TokenCost(outputTokens, price.outputUsdPerMillion)
      case Err(code) => Err(code)
      case Ok(output) => Ok(input + output)
  }

  lemma TokenCostMonotone(fewer: int, more: int, usdPerMillion: string)
    requires 0 <= fewer <= more
    requires TokenCost(more, usdPerMillion).Ok?
    ensures TokenCost(fewer, usdPerMillion).Ok?
    ensures TokenCost(fewer, usdPerMillion).value <= TokenCost(more, usdPerMillion).value
  {
    var scaled := DecimalToScaled(usdPerMillion).value;
    MulOrder(fewer, more, scaled);
    MulOrder(fewer * scaled, more * scaled, SCALE);
    CeilingOrder(CeilDiv(fewer * scaled, SCALE), fewer * scaled, SCALE, CeilDiv(more * scaled, SCALE), more * scaled,
                 SCALE);
  }

  /** Usage within its bounds costs no more than the bounds, so the worst-case reservation covers it. */
  lemma CostMonotone(input: int, output: int, maxInput: int, maxOutput: int, price: TokenPrice)
    requires 0 <= input <= maxInput && 0 <= output <= maxOutput
    requires Cost(maxInput, maxOutput, price).Ok?
    ensures Cost(input, output, price).Ok?
    ensures Cost(input, output, price).value <= Cost(maxInput, maxOutput, price).value
  {
    TokenCostMonotone(input, maxInput, price.inputUsdPerMillion);
    TokenCostMonotone(output, maxOutput, price.outputUsdPerMillion);
  }
}
