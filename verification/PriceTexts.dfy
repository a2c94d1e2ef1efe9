/** What price and cost texts mean: every accepted text, the amount it gives, and why any other text is refused. */
module PriceTexts {
  import opened Results
  import opened Decimal
  import opened Pricing

  // ----- prices per million tokens -----

  /** Digits, or digits, a dot and one to six digits. */
  predicate PriceText(text: string, whole: string, fraction: string) {
    && AllDigits(whole) && whole != "" && AllDigits(fraction) && |fraction| <= 6
    && text == if fraction == "" then whole else whole + ("." + fraction)
  }

  lemma PaddedFraction(fraction: string)
    requires AllDigits(fraction) && |fraction| <= 6
    ensures AllDigits(PadEnd(fraction, 6))
    ensures Value(PadEnd(fraction, 6)) == Value(fraction) * Pow10(6 - |fraction|)
  {
    var k := 6 - |fraction|;
    assert PadEnd(fraction, 6) == fraction + Zeros(k);
    ValueOfConcat(fraction, Zeros(k));
    ValueOfZeros(k);
  }

  lemma PaddedValue(whole: string, fraction: string)
    requires AllDigits(whole) && AllDigits(fraction) && |fraction| <= 6
    ensures AllDigits(PadEnd(fraction, 6))
    ensures Value(whole) * SCALE + Value(PadEnd(fraction, 6)) == Value(whole + fraction) * Pow10(6 - |fraction|)
  {
    PaddedFraction(fraction);
    ValueOfConcat(whole, fraction);
    ScaleSplits(|fraction|);
    Regroup(Value(whole), Value(fraction), Pow10(|fraction|), Pow10(6 - |fraction|), Value(whole + fraction),
            Value(PadEnd(fraction, 6)));
  }

  lemma ScaleSplits(k: nat)
    requires k <= 6
    ensures Pow10(k) * Pow10(6 - k) == SCALE
  {
    PowerOfScale();
    Pow10Sum(k, 6 - k);
  }

  lemma Regroup(w: int, f: int, p: int, q: int, joined: int, padded: int)
    requires p * q == SCALE && joined == w * p + f && padded == f * q
    ensures w * SCALE + padded == joined * q
  {
    assert w * (p * q) == w * p * q;
  }

  lemma PriceSpan(text: string, whole: string, fraction: string)
    requires PriceText(text, whole, fraction)
    ensures DigitSpan(text) == |whole| && text[..|whole|] == whole
    ensures fraction != "" ==> |whole| < |text| && text[|whole|] == '.' && text[|whole| + 1..] == fraction
    ensures fraction == "" ==> |whole| == |text|
  {
    if fraction == "" {
      DigitSpanOfConcat(whole, "");
      assert whole + "" == whole;
    } else {
      FixedPointSpan(whole, fraction);
    }
  }

  lemma ScaledFrom(text: string, whole: string, fraction: string)
    requires PriceText(text, whole, fraction) && DigitSpan(text) == |whole| && text[..|whole|] == whole
    requires fraction != "" ==> |whole| < |text| && text[|whole|] == '.' && text[|whole| + 1..] == fraction
    requires fraction == "" ==> |whole| == |text|
    ensures AllDigits(PadEnd(fraction, 6))
    ensures DecimalToScaled(text) == Ok(Value(whole) * SCALE + Value(PadEnd(fraction, 6)))
  {
  }

  lemma PriceTextScaled(text: string, whole: string, fraction: string)
    requires PriceText(text, whole, fraction)
    ensures DecimalToScaled(text) == Ok(Value(whole + fraction) * Pow10(6 - |fraction|))
  {
    PriceSpan(text, whole, fraction);
    ScaledFrom(text, whole, fraction);
    PaddedValue(whole, fraction);
  }

  lemma ScaledIsPriceText(text: string) returns (whole: string, fraction: string)
    requires DecimalToScaled(text).Ok?
    ensures PriceText(text, whole, fraction)
  {
    var w := DigitSpan(text);
    if w == |text| {
      whole, fraction := text, "";
      assert text[..w] == text;
    } else {
      whole, fraction := text[..w], text[w + 1..];
      Rejoin(text, w);
    }
  }

  lemma Rejoin(text: string, w: nat)
    requires w < |text|
    ensures text == text[..w] + ([text[w]] + text[w + 1..])
  {
  }

  lemma CeilingCancels(r: int, n: int, d: int, k: int)
    requires IsCeiling(r, n * k, d * k) && k > 0
    ensures IsCeiling(r, n, d)
  {
    MulRegroup(r - 1, d, k);
    MulRegroup(r, d, k);
    MulCancel((r - 1) * d, n, k);
    if r * d < n {
      MulStrict(r * d, n, k);
    }
  }

  /**
    A token count in range at a price text costs the least number of micro-dollars that is at least the count times
    the price: the digits of the text without the dot, over ten to the number of decimals.
   */
  lemma TokenCostIs(tokens: int, text: string, whole: string, fraction: string)
    requires 0 <= tokens <= 9_007_199_254_740_991 && PriceText(text, whole, fraction)
    ensures TokenCost(tokens, text).Ok?
    ensures IsCeiling(TokenCost(tokens, text).value, tokens * Value(whole + fraction), Pow10(|fraction|))
  {
    PriceTextScaled(text, whole, fraction);
    var value, k := Value(whole + fraction), 6 - |fraction|;
    PowerOfScale();
    Pow10Sum(|fraction|, k);
    MulRegroup(tokens, value, Pow10(k));
    CeilingCancels(TokenCost(tokens, text).value, tokens * value, Pow10(|fraction|), Pow10(k));
  }

  /** Nothing else has a cost: a count out of range is refused first, then any other text. */
  lemma TokenCostOkIff(tokens: int, text: string)
    ensures TokenCost(tokens, text).Ok? <==>
              && 0 <= tokens <= 9_007_199_254_740_991
              && exists whole, fraction :: PriceText(text, whole, fraction)
    ensures !(0 <= tokens <= 9_007_199_254_740_991) ==> TokenCost(tokens, text) == Err("INVALID_TOKEN_COUNT")
    ensures 0 <= tokens <= 9_007_199_254_740_991 && TokenCost(tokens, text).Err? ==>
              TokenCost(tokens, text) == Err("INVALID_PRICE")
  {
    if DecimalToScaled(text).Ok? {
      var whole, fraction := ScaledIsPriceText(text);
    }
    if whole, fraction :| PriceText(text, whole, fraction) {
      PriceTextScaled(text, whole, fraction);
    }
  }

  /** A call costs the input tokens at the input price and the output tokens at the output price, each rounded up. */
  lemma CostIs(input: int, output: int, price: TokenPrice, w: string, f: string, v: string, g: string)
    returns (inputMicros: nat, outputMicros: nat)
    requires 0 <= input <= 9_007_199_254_740_991 && 0 <= output <= 9_007_199_254_740_991
    requires PriceText(price.inputUsdPerMillion, w, f) && PriceText(price.outputUsdPerMillion, v, g)
    ensures Cost(input, output, price) == Ok(inputMicros + outputMicros)
    ensures IsCeiling(inputMicros, input * Value(w + f), Pow10(|f|))
    ensures IsCeiling(outputMicros, output * Value(v + g), Pow10(|g|))
  {
    inputMicros := TokenMicros(input, price.inputUsdPerMillion, w, f);
    outputMicros := TokenMicros(output, price.outputUsdPerMillion, v, g);
    CostAdds(input, output, price);
  }

  lemma TokenMicros(tokens: int, text: string, whole: string, fraction: string) returns (micros: nat)
    requires 0 <= tokens <= 9_007_199_254_740_991 && PriceText(text, whole, fraction)
    ensures TokenCost(tokens, text) == Ok(micros)
    ensures IsCeiling(micros, tokens * Value(whole + fraction), Pow10(|fraction|))
  {
    TokenCostIs(tokens, text, whole, fraction);
    micros := TokenCost(tokens, text).value;
  }

  lemma CostAdds(input: int, output: int, price: TokenPrice)
    requires TokenCost(input, price.inputUsdPerMillion).Ok? && TokenCost(output, price.outputUsdPerMillion).Ok?
    ensures Cost(input, output, price)
            == Ok(TokenCost(input, price.inputUsdPerMillion).value + TokenCost(output, price.outputUsdPerMillion).value)
  {
  }

  lemma CostOkIff(input: int, output: int, price: TokenPrice)
    ensures Cost(input, output, price).Ok? <==>
              && 0 <= input <= 9_007_199_254_740_991 && 0 <= output <= 9_007_199_254_740_991
              && (exists w, f :: PriceText(price.inputUsdPerMillion, w, f))
              && (exists w, f :: PriceText(price.outputUsdPerMillion, w, f))
  {
    TokenCostOkIff(input, price.inputUsdPerMillion);
    TokenCostOkIff(output, price.outputUsdPerMillion);
  }

  // ----- provider cost texts -----

  /** `e` or `E`, a sign or none, and digits. */
  predicate Marked(text: string, exponent: int, mark: char, sign: string, digits: string) {
    && (mark == 'e' || mark == 'E') && (sign == "" || sign == "+" || sign == "-") && digits != "" && AllDigits(digits)
    && text == [mark] + (sign + digits)
    && exponent == Value(digits) * (if sign == "-" then -1 else 1)
  }

  /** An exponent, or nothing. */
  ghost predicate ExponentText(text: string, exponent: int) {
    (text == "" && exponent == 0) || exists mark, sign, digits :: Marked(text, exponent, mark, sign, digits)
  }

  /** Digits, then a dot and digits or nothing, then an exponent or nothing. */
  ghost predicate CostText(text: string, whole: string, fraction: string, exponent: int) {
    && AllDigits(whole) && whole != "" && AllDigits(fraction)
    && exists tail :: ExponentText(tail, exponent)
                      && text == whole + if fraction == "" then tail else "." + (fraction + tail)
  }

  lemma ExponentParses(text: string, exponent: int)
    requires ExponentText(text, exponent)
    ensures ParseExponent(text) == Some(exponent) && (text == "" || text[0] == 'e' || text[0] == 'E')
  {
    if text != "" {
      var mark, sign, digits :| Marked(text, exponent, mark, sign, digits);
      assert text[1..] == sign + digits && IsDigit(digits[0]);
      if sign == "" {
        assert text[1..] == digits && text[1] == digits[0];
      } else {
        assert text[1] == sign[0] && text[2..] == digits;
      }
    }
  }

  lemma ParsedIsExponent(text: string)
    requires ParseExponent(text).Some?
    ensures ExponentText(text, ParseExponent(text).value)
  {
    if text != "" {
      var signed := |text| > 1 && (text[1] == '+' || text[1] == '-');
      var sign, digits := if signed then [text[1]] else "", if signed then text[2..] else text[1..];
      assert text == [text[0]] + (sign + digits);
      assert Marked(text, ParseExponent(text).value, text[0], sign, digits);
    }
  }

  /** The text after the whole digits. */
  function Rest(fraction: string, tail: string): string {
    if fraction == "" then tail else "." + (fraction + tail)
  }

  lemma RestSplits(fraction: string, tail: string)
    requires AllDigits(fraction) && (tail == "" || tail[0] == 'e' || tail[0] == 'E')
    ensures var rest := Rest(fraction, tail);
            && (rest == "" || !IsDigit(rest[0]))
            && (fraction == "" ==> rest == "" || rest[0] != '.')
            && (fraction != "" ==> rest[0] == '.' && DigitSpan(rest[1..]) == |fraction|
                                   && rest[1..][..|fraction|] == fraction && rest[1..][|fraction|..] == tail)
  {
    if fraction != "" {
      DigitSpanOfConcat(fraction, tail);
      assert Rest(fraction, tail)[1..] == fraction + tail;
    }
  }

  lemma MatchFrom(text: string, whole: string, fraction: string, tail: string, exponent: int)
    requires AllDigits(whole) && whole != "" && AllDigits(fraction)
    requires DigitSpan(text) == |whole| && text[..|whole|] == whole && text[|whole|..] == Rest(fraction, tail)
    requires var rest := Rest(fraction, tail);
             && (fraction == "" ==> rest == "" || rest[0] != '.')
             && (fraction != "" ==> rest[0] == '.' && DigitSpan(rest[1..]) == |fraction|
                                    && rest[1..][..|fraction|] == fraction && rest[1..][|fraction|..] == tail)
    requires ParseExponent(tail) == Some(exponent)
    ensures Match(text) == Some(Parts(whole, fraction, exponent))
  {
  }

  lemma CostTextMatches(text: string, whole: string, fraction: string, exponent: int)
    requires CostText(text, whole, fraction, exponent)
    ensures Match(text) == Some(Parts(whole, fraction, exponent))
  {
    var tail :| ExponentText(tail, exponent) && text == whole + Rest(fraction, tail);
    ExponentParses(tail, exponent);
    RestSplits(fraction, tail);
    DigitSpanOfConcat(whole, Rest(fraction, tail));
    Cut(whole, Rest(fraction, tail));
    MatchFrom(text, whole, fraction, tail, exponent);
  }

  lemma ShowCostText(text: string, w: nat, fraction: string, tail: string, exponent: int)
    requires 0 < w <= |text| && AllDigits(text[..w]) && AllDigits(fraction)
    requires text[w..] == Rest(fraction, tail) && ExponentText(tail, exponent)
    ensures CostText(text, text[..w], fraction, exponent)
  {
    assert text == text[..w] + text[w..];
  }

  /** The text after the whole digits, taken apart as the expression does. */
  lemma RestIsRejoined(rest: string, f: nat)
    requires rest != "" && rest[0] == '.' && f <= |rest| - 1
    ensures rest == "." + (rest[1..][..f] + rest[1..][f..])
  {
  }

  lemma MatchIsCostText(text: string)
    requires Match(text).Some?
    ensures var p := Match(text).value; CostText(text, p.whole, p.fraction, p.exponent)
  {
    var w := DigitSpan(text);
    var rest := text[w..];
    if rest != "" && rest[0] == '.' {
      var f := DigitSpan(rest[1..]);
      RestIsRejoined(rest, f);
      ParsedIsExponent(rest[1..][f..]);
      ShowCostText(text, w, rest[1..][..f], rest[1..][f..], Match(text).value.exponent);
    } else {
      ParsedIsExponent(rest);
      ShowCostText(text, w, "", rest, Match(text).value.exponent);
    }
  }

  /**
    A provider cost text is accepted exactly when it is such a text with an exponent between -100 and 100, and gives
    the least number of micro-dollars that is at least the number it denotes.
   */
  lemma UsdToMicrosIs(text: string, whole: string, fraction: string, exponent: int)
    requires CostText(text, whole, fraction, exponent)
    ensures UsdToMicros(text).Ok? <==> -100 <= exponent <= 100
    ensures UsdToMicros(text).Ok? ==>
              IsCeiling(UsdToMicros(text).value, Value(whole + fraction) * Pow10(106 + exponent),
                        Pow10(100 + |fraction|))
    ensures UsdToMicros(text).Err? ==> UsdToMicros(text) == Err("INVALID_PROVIDER_COST")
  {
    CostTextMatches(text, whole, fraction, exponent);
    if -100 <= exponent <= 100 {
      PartsCeiling(Parts(whole, fraction, exponent));
    }
  }

  lemma UsdToMicrosOkIff(text: string)
    ensures UsdToMicros(text).Ok? <==>
              exists whole, fraction, exponent :: CostText(text, whole, fraction, exponent) && -100 <= exponent <= 100
  {
    if Match(text).Some? {
      MatchIsCostText(text);
    }
    if whole, fraction, exponent :| CostText(text, whole, fraction, exponent) && -100 <= exponent <= 100 {
      CostTextMatches(text, whole, fraction, exponent);
    }
  }
}
