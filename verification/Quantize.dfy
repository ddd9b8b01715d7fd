/** Quantity quantisation of the Binance client: TruncateToStepSize, the step-size table and the
    quantity checks of PlaceMarketOrder. */
module Quantize {

  import opened Decimals
  import opened DecimalText
  import opened Options
  import Strings

  // The number of fractional digits TruncateToStepSize reads off the step's text.
  function DecimalPlaces(step: Dec): nat {
    var text := ToString(step);
    var idx := IndexOf(text, '.');
    if idx == -1 then 0
    else
      var trimmed := TrimRightZeros(text[idx + 1..]);
      if |trimmed| == 0 then |text[idx + 1..]| else |trimmed|
  }

  function TruncateToStepSize(qty: Dec, step: Dec): (Dec, string) {
    if !IsPositive(step) then (qty, ToString(qty))
    else
      var steps := Floor(Div(qty, step));
      var quantized := Mul(steps, step);
      (quantized, StringFixed(quantized, DecimalPlaces(step)))
  }

  function GetDefaultStepSize(symbol: string): Dec {
    match Strings.ToUpper(Strings.TrimSpace(symbol))
    case "BTCUSDT" => Dec(1000, -8)
    case "ETHUSDT" => Dec(10000, -8)
    case "SOLUSDT" => Dec(1000000, -8)
    case "BNBUSDT" => Dec(100000, -8)
    case "DOGEUSDT" => Dec(100000000, -8)
    case "ADAUSDT" => Dec(10000000, -8)
    case "XRPUSDT" => Dec(10000000, -8)
    case _ => Dec(10000, -8)
  }

  // The quantity checks of PlaceMarketOrder; None is ErrInvalidQuantity.
  function OrderQuantity(symbol: string, qty: Dec): Option<(Dec, string)> {
    if !IsPositive(qty) then None
    else
      var (quantized, text) := TruncateToStepSize(qty, GetDefaultStepSize(symbol));
      if !IsPositive(quantized) then None else Some((quantized, text))
  }

  // ---------- what quantisation does to the number ----------

  ghost predicate IsMultiple(x: real, k: int, step: real) {
    x == k as real * step
  }

  // qty in steps, as a real
  ghost function Ratio(qty: Dec, step: Dec): real
    requires V(step) > 0.0
  {
    V(qty) / V(step)
  }

  ghost function Steps(qty: Dec, step: Dec): int
    requires V(step) > 0.0
  {
    RoundTo(Ratio(qty, step), DIVISION_PRECISION).Floor
  }

  lemma QuantizedValue(qty: Dec, step: Dec)
    requires V(step) > 0.0
    ensures V(TruncateToStepSize(qty, step).0) == Steps(qty, step) as real * V(step)
    ensures V(qty) == Ratio(qty, step) * V(step)
  {
    hide V, RoundTo, Div, Floor, Mul, ToString, StringFixed;
    assert IsPositive(step);
    DivBack(V(qty), V(step));
  }

  lemma IntOnGrid(n: int, p: nat)
    ensures OnGrid(n as real, p)
  {
    hide Shift, Pow10;
    ShiftInt(n, p);
    ShiftBack(n as real, p);
    assert n as real == Units(n * Pow10(p), p);
  }

  // Rounding crosses an integer from below exactly when x is within half a unit of it.
  lemma RoundBelowInt(x: real, n: int, p: int)
    requires p >= 0
    requires 0.0 <= x < n as real
    ensures RoundTo(x, p) < n as real <==> x < n as real - HalfUnit(p)
    ensures RoundTo(x, p) <= n as real
  {
    hide Shift, Pow10;
    IntOnGrid(n, p);
    RoundFixed(n as real, p);
    RoundMono(x, n as real, p);
    var y := Shift(x, p);
    var m := n * Pow10(p);
    ShiftInt(n, p);
    ShiftMono(0.0, x, p);
    ShiftLinear(0.0, 0.0, p);
    ShiftMono(RoundInt(y) as real, m as real, -p);
    ShiftBack(n as real, p);
    assert RoundTo(x, p) < n as real <==> RoundInt(y) < m;
    assert RoundInt(y) < m <==> y < m as real - 0.5;
    ShiftLinear(m as real, 0.5, -p);
    ShiftMono(y, m as real - 0.5, -p);
    ShiftBack(x, p);
  }

  // Two-sided bound: at most one step below the request, and above it by at most the error that
  // the division's sixteenth digit can hide.
  lemma QuantizationBound(qty: Dec, step: Dec)
    requires V(step) > 0.0
    ensures var z := V(TruncateToStepSize(qty, step).0);
            V(qty) - V(step) < z <= V(qty) + HalfUnit(DIVISION_PRECISION) * V(step)
  {
    hide V, HalfUnit, RoundTo, OnGrid, TruncateToStepSize;
    QuantizedValue(qty, step);
    var x, k, p := Ratio(qty, step), Steps(qty, step), DIVISION_PRECISION;
    RoundNear(x, p);
    if x >= (k + 1) as real {
      IntOnGrid(k + 1, p);
      RoundFixed((k + 1) as real, p);
      RoundMono((k + 1) as real, x, p);
      assert false;
    }
    ScaleBounds(k as real, x, HalfUnit(p), V(step));
  }

  lemma ScaleBounds(k: real, x: real, h: real, s: real)
    requires s > 0.0 && x - 1.0 < k <= x + h
    ensures x * s - s < k * s <= x * s + h * s
  {
    MulMono(x - 1.0, k, s);
    MulMono(k, x + h, s);
  }

  // The part of a step that is left over stays clear of the next multiple by more than half a unit
  // of the sixteenth digit of the quotient.
  ghost predicate LeavesMargin(qty: Dec, step: Dec)
    requires V(step) > 0.0
  {
    Ratio(qty, step) - Ratio(qty, step).Floor as real < 1.0 - HalfUnit(DIVISION_PRECISION)
  }

  // TruncateToStepSize truncates if and only if the leftover leaves that margin; otherwise it
  // rounds up, above the requested quantity.
  lemma TruncatesExactly(qty: Dec, step: Dec)
    requires V(step) > 0.0 && V(qty) >= 0.0
    ensures var z := V(TruncateToStepSize(qty, step).0);
            var n := Ratio(qty, step).Floor;
            && (z <= V(qty) <==> LeavesMargin(qty, step))
            && z == (if LeavesMargin(qty, step) then n else n + 1) as real * V(step)
  {
    hide V, HalfUnit, RoundTo, OnGrid, TruncateToStepSize;
    QuantizedValue(qty, step);
    var x, k, p := Ratio(qty, step), Steps(qty, step), DIVISION_PRECISION;
    var n := x.Floor;
    NonNegativeRatio(V(qty), V(step));
    IntOnGrid(n, p);
    RoundFixed(n as real, p);
    RoundMono(n as real, x, p);
    RoundBelowInt(x, n + 1, p);
    assert k == if LeavesMargin(qty, step) then n else n + 1;
    MulMono(k as real, x, V(step));
  }

  lemma NonNegativeRatio(x: real, y: real)
    requires x >= 0.0 && y > 0.0
    ensures x / y >= 0.0
  {
    MulMono(0.0, x / y, y);
  }

  lemma HalfUnit16()
    ensures HalfUnit(16) < 0.5
    ensures HalfUnit(16) > 0.0
  {
    hide Shift, Pow10;
    HalfUnitPositive(16);
    ShiftDown(0.5, 16);
    PowGrows(15);
    DivShrinks(0.5, Pow10(16) as real);
  }

  lemma PowGrows(n: nat)
    ensures Pow10(n + 1) >= 10
  {
  }

  lemma DivShrinks(x: real, y: real)
    requires x > 0.0 && y > 1.0
    ensures x / y < x
  {
    MulMono(x / y, x, y);
    MulMono(1.0, y, x);
  }

  // When qty/step has at most sixteen fractional digits the result is exactly the truncation.
  lemma ShortQuotientTruncates(qty: Dec, step: Dec)
    requires V(step) > 0.0 && V(qty) >= 0.0
    requires OnGrid(Ratio(qty, step), DIVISION_PRECISION)
    ensures V(TruncateToStepSize(qty, step).0) == Ratio(qty, step).Floor as real * V(step) <= V(qty)
  {
    hide V, HalfUnit, RoundTo, OnGrid, TruncateToStepSize;
    var x := Ratio(qty, step);
    TruncatesExactly(qty, step);
    RoundFixed(x, DIVISION_PRECISION);
    NonNegativeRatio(V(qty), V(step));
    RoundBelowInt(x, x.Floor + 1, DIVISION_PRECISION);
  }

  // A quantity just under one step, by less than the quotient's sixteenth digit, is sent as one
  // whole step: more than was asked for.
  lemma RoundsUpExample()
    ensures var (qty, step) := (Dec(99999999999999999, -17), Dec(1, 0));
            V(step) > 0.0 && V(qty) < V(step) && V(TruncateToStepSize(qty, step).0) == V(step)
  {
    hide V, Pow10, RoundTo, ToString, StringFixed, DecimalPlaces;
    var qty, step := Dec(99999999999999999, -17), Dec(1, 0);
    PowersUsed();
    assert Cmp(qty, step) < 0;
    SignOf(step);
    var ratio := Div(qty, step);
    assert ratio == Dec(10000000000000000, -16);
    assert Floor(ratio) == Dec(1, 0);
    assert TruncateToStepSize(qty, step).0 == Dec(1, 0);
  }

  lemma PowersUsed()
    ensures Pow10(1) == 10 && Pow10(16) == 10000000000000000 && Pow10(17) == 100000000000000000
  {
  }

  lemma MultipleOfStep(x: real, k: int, step: real)
    requires step > 0.0 && IsMultiple(x, k, step)
    ensures RoundTo(x / step, DIVISION_PRECISION).Floor == k
  {
    hide RoundTo, OnGrid;
    DivUnique(k as real, step, x);
    IntOnGrid(k, DIVISION_PRECISION);
    RoundFixed(k as real, DIVISION_PRECISION);
  }

  lemma Idempotent(qty: Dec, step: Dec)
    requires V(step) > 0.0
    ensures var z := TruncateToStepSize(qty, step).0;
            V(TruncateToStepSize(z, step).0) == V(z)
  {
    hide V, RoundTo, TruncateToStepSize;
    var z := TruncateToStepSize(qty, step).0;
    QuantizedValue(qty, step);
    QuantizedValue(z, step);
    MultipleOfStep(V(z), Steps(qty, step), V(step));
  }

  lemma Monotone(a: Dec, b: Dec, step: Dec)
    requires V(step) > 0.0 && V(a) <= V(b)
    ensures V(TruncateToStepSize(a, step).0) <= V(TruncateToStepSize(b, step).0)
  {
    hide V, RoundTo, TruncateToStepSize;
    QuantizedValue(a, step);
    QuantizedValue(b, step);
    MulMono(Ratio(a, step), Ratio(b, step), V(step));
    RoundMono(Ratio(a, step), Ratio(b, step), DIVISION_PRECISION);
    MulMono(Steps(a, step) as real, Steps(b, step) as real, V(step));
  }

  // ---------- the quantity text sent to the exchange ----------

  // A step never has more fractional digits than DecimalPlaces reads off its text.
  lemma StepOnItsGrid(step: Dec)
    ensures OnGrid(V(step), DecimalPlaces(step))
  {
    hide V, OnGrid, ToString, TrimRightZeros, AllDigits;
    StringParses(step);
    var text := ToString(step);
    var parsed := Parse(text).value;
    var idx := IndexOf(text, '.');
    OnOwnGrid(parsed);
    if idx != -1 {
      var fraction := text[idx + 1..];
      var trimmed := TrimRightZeros(fraction);
      if |trimmed| != 0 {
        TrailingZerosOffGrid(text, idx, parsed);
      }
    }
  }

  lemma TrailingZerosOffGrid(text: string, idx: nat, parsed: Dec)
    requires idx < |text| && idx == IndexOf(text, '.') && Parse(text) == Some(parsed)
    ensures OnGrid(V(parsed), |TrimRightZeros(text[idx + 1..])|)
  {
    hide V, OnGrid, Pow10, ParseInt, IndexOf, TrimRightZeros;
    var fraction := text[idx + 1..];
    var t := TrimRightZeros(fraction);
    var j := |fraction| - |t|;
    var kept := text[..idx] + t;
    assert text[..idx] + fraction == kept + Zeros(j);
    var m := ParseTrimmed(kept, j);
    assert parsed == Dec(m * Pow10(j), -|fraction|);
    RescaleDownExact(Dec(m, -|t|), -|fraction|);
    OnOwnGrid(Dec(m, -|t|));
  }

  lemma ParseTrimmed(kept: string, j: nat) returns (m: int)
    requires ParseInt(kept + Zeros(j)).Some?
    ensures ParseInt(kept + Zeros(j)).value == m * Pow10(j)
  {
    hide Pow10, Number;
    var s := kept + Zeros(j);
    var signed := s[0] == '-' || s[0] == '+';
    if kept == "" {
      assert s == Zeros(j);
      NumberZeros(j);
      m := 0;
    } else {
      var digits := if signed then kept[1..] else kept;
      assert (if signed then s[1..] else s) == digits + Zeros(j);
      assert forall i :: 0 <= i < |digits| ==> digits[i] == (digits + Zeros(j))[i];
      NumberConcat(digits, Zeros(j));
      NumberZeros(j);
      NonNegative(Number(digits), Pow10(j));
      m := if s[0] == '-' then -Number(digits) else Number(digits);
    }
  }

  lemma ShiftMultiple(k: int, j: int, e: int)
    ensures k as real * Shift(j as real, e) == Shift((k * j) as real, e)
  {
    hide Ten;
    Assoc(k as real, j as real, Ten(e));
  }

  lemma GridMultiple(x: real, k: int, step: real, p: int)
    requires OnGrid(step, p) && IsMultiple(x, k, step)
    ensures OnGrid(x, p)
  {
    hide Shift;
    var j :| step == Units(j, p);
    ShiftMultiple(k, j, -p);
    assert x == Units(k * j, p);
  }

  // The fixed-point text parses back to exactly the quantized number, for every positive step.
  lemma QuantityTextParses(qty: Dec, step: Dec)
    requires V(step) > 0.0
    ensures var (z, text) := TruncateToStepSize(qty, step);
            Parse(text).Some? && V(Parse(text).value) == V(z)
  {
    hide V, OnGrid, RoundTo, DecimalPlaces, StringFixed, Parse, Div, Floor, Mul, Round;
    var (z, text) := TruncateToStepSize(qty, step);
    var places := DecimalPlaces(step);
    QuantizedOnGrid(qty, step);
    RoundFixed(V(z), places);
    StringFixedParses(z, places);
    assert text == StringFixed(z, places);
  }

  lemma QuantizedOnGrid(qty: Dec, step: Dec)
    requires V(step) > 0.0
    ensures OnGrid(V(TruncateToStepSize(qty, step).0), DecimalPlaces(step))
  {
    hide V, OnGrid, DecimalPlaces, TruncateToStepSize;
    QuantizedValue(qty, step);
    StepOnItsGrid(step);
    GridMultiple(V(TruncateToStepSize(qty, step).0), Steps(qty, step), V(step), DecimalPlaces(step));
  }

  lemma DefaultStepPositive(symbol: string)
    ensures V(GetDefaultStepSize(symbol)) > 0.0
  {
    hide V;
    SignOf(GetDefaultStepSize(symbol));
  }

  // Every quantity sent is a positive whole number of steps, its text denotes exactly that number,
  // and it exceeds the request by at most half a unit of the quotient's last digit. A positive
  // request is refused exactly when it is more than that short of one step.
  lemma OrderQuantitySound(symbol: string, qty: Dec)
    requires V(qty) > 0.0
    ensures var step := GetDefaultStepSize(symbol);
            var sent := OrderQuantity(symbol, qty);
            && V(step) > 0.0
            && (sent.None? <==> Ratio(qty, step) < 1.0 - HalfUnit(DIVISION_PRECISION))
            && (sent.Some? ==>
                  && (exists k: int :: k >= 1 && IsMultiple(V(sent.value.0), k, V(step)))
                  && Parse(sent.value.1).Some?
                  && V(Parse(sent.value.1).value) == V(sent.value.0)
                  && V(qty) - V(step) < V(sent.value.0) <= V(qty) + HalfUnit(DIVISION_PRECISION) * V(step))
  {
    hide V, OnGrid, RoundTo, HalfUnit, TruncateToStepSize, GetDefaultStepSize, Parse;
    var step := GetDefaultStepSize(symbol);
    DefaultStepPositive(symbol);
    var z := TruncateToStepSize(qty, step).0;
    assert IsPositive(qty);
    TruncatesExactly(qty, step);
    var x, n := Ratio(qty, step), Ratio(qty, step).Floor;
    NonNegativeRatio(V(qty), V(step));
    QuantizationBound(qty, step);
    QuantityTextParses(qty, step);
    HalfUnit16();
    var k := if LeavesMargin(qty, step) then n else n + 1;
    assert IsMultiple(V(z), k, V(step));
    MulMono(0.0, k as real, V(step));
    assert k >= 1 <==> !(x < 1.0 - HalfUnit(DIVISION_PRECISION));
  }

  // ---------- the exchange's own numbers ----------

  // Step and fractional digits of each symbol, recognised in any case and among blanks
  ghost predicate ExchangeRule(symbol: string, unit: real, places: int) {
    if Strings.Normalizes(symbol, "BTCUSDT") then unit == 0.00001 && places == 5
    else if Strings.Normalizes(symbol, "ETHUSDT") then unit == 0.0001 && places == 4
    else if Strings.Normalizes(symbol, "SOLUSDT") then unit == 0.01 && places == 2
    else if Strings.Normalizes(symbol, "BNBUSDT") then unit == 0.001 && places == 3
    else if Strings.Normalizes(symbol, "DOGEUSDT") then unit == 1.0 && places == 0
    else if Strings.Normalizes(symbol, "ADAUSDT") then unit == 0.1 && places == 1
    else if Strings.Normalizes(symbol, "XRPUSDT") then unit == 0.1 && places == 1
    else unit == 0.0001 && places == 4
  }

  ghost predicate HasPlaces(text: string, places: int) {
    Parse(text).Some? && Parse(text).value.exp == -places
  }

  // A positive whole number of units, written with just the digits the unit has; never one unit below
  // the request, and above it by the margin at most
  ghost predicate SentInUnits(z: Dec, text: string, qty: Dec, unit: real, places: int) {
    && (exists k: int :: k >= 1 && IsMultiple(V(z), k, unit))
    && HasPlaces(text, places) && V(Parse(text).value) == V(z)
    && V(qty) - unit < V(z) <= V(qty) + HalfUnit(DIVISION_PRECISION) * unit
  }

  // What is sent, in the exchange's units. A request is refused exactly when it is not positive or is
  // short of one unit by more than the margin.
  lemma SentInExchangeUnits(symbol: string, qty: Dec, unit: real, places: int)
    requires ExchangeRule(symbol, unit, places)
    ensures var sent := OrderQuantity(symbol, qty);
            && (sent.None? <==> V(qty) <= 0.0 || V(qty) < unit - HalfUnit(DIVISION_PRECISION) * unit)
            && (sent.Some? ==> SentInUnits(sent.value.0, sent.value.1, qty, unit, places))
  {
    hide V, HalfUnit, OrderQuantity, GetDefaultStepSize, Parse, Ratio, DecimalPlaces, ExchangeRule, RoundTo;
    var step := GetDefaultStepSize(symbol);
    StepInUnits(symbol, unit, places);
    if V(qty) <= 0.0 {
      Refusal(symbol, qty);
    } else {
      OrderQuantitySound(symbol, qty);
      QuantizedValue(qty, step);
      RatioBelow(V(qty), unit, Ratio(qty, step), HalfUnit(DIVISION_PRECISION));
      if OrderQuantity(symbol, qty).Some? {
        var (z, text) := OrderQuantity(symbol, qty).value;
        SentPlaces(symbol, qty, z, text);
      }
    }
  }

  lemma Refusal(symbol: string, qty: Dec)
    ensures V(qty) <= 0.0 ==> OrderQuantity(symbol, qty).None?
  {
    hide V, TruncateToStepSize, GetDefaultStepSize;
  }

  lemma RatioBelow(q: real, unit: real, x: real, h: real)
    requires unit > 0.0 && q == x * unit
    ensures x < 1.0 - h <==> q < unit - h * unit
  {
    MulMono(x, 1.0 - h, unit);
    assert (1.0 - h) * unit == unit - h * unit;
  }

  lemma SentPlaces(symbol: string, qty: Dec, z: Dec, text: string)
    requires OrderQuantity(symbol, qty) == Some((z, text))
    ensures HasPlaces(text, DecimalPlaces(GetDefaultStepSize(symbol)))
  {
    hide V, HasPlaces, DecimalPlaces, GetDefaultStepSize, TruncateToStepSize;
    DefaultStepPositive(symbol);
    TextPlaces(qty, GetDefaultStepSize(symbol));
  }

  lemma TextPlaces(qty: Dec, step: Dec)
    requires V(step) > 0.0
    ensures HasPlaces(TruncateToStepSize(qty, step).1, DecimalPlaces(step))
  {
    hide V, Parse, DecimalPlaces, StringFixed, Div, Floor, Mul, Round;
    StringFixedParses(TruncateToStepSize(qty, step).0, DecimalPlaces(step));
  }

  lemma StepInUnits(symbol: string, unit: real, places: int)
    requires ExchangeRule(symbol, unit, places)
    ensures V(GetDefaultStepSize(symbol)) == unit > 0.0
    ensures DecimalPlaces(GetDefaultStepSize(symbol)) == places
  {
    hide V, DecimalPlaces, Pow10, Strings.Normalizes, Strings.ToUpper, Strings.TrimSpace;
    PowersOfTen();
    Strings.UpperTrimIff(symbol, "BTCUSDT");
    Strings.UpperTrimIff(symbol, "ETHUSDT");
    Strings.UpperTrimIff(symbol, "SOLUSDT");
    Strings.UpperTrimIff(symbol, "BNBUSDT");
    Strings.UpperTrimIff(symbol, "DOGEUSDT");
    Strings.UpperTrimIff(symbol, "ADAUSDT");
    Strings.UpperTrimIff(symbol, "XRPUSDT");
    EightDecimals(1000, 0.00001, 5);
    EightDecimals(10000, 0.0001, 4);
    EightDecimals(1000000, 0.01, 2);
    EightDecimals(100000, 0.001, 3);
    EightDecimals(100000000, 1.0, 0);
    EightDecimals(10000000, 0.1, 1);
  }

  lemma PowersOfTen()
    ensures Pow10(0) == 1 && Pow10(1) == 10 && Pow10(2) == 100 && Pow10(3) == 1000 && Pow10(4) == 10000
    ensures Pow10(5) == 100000 && Pow10(6) == 1000000 && Pow10(7) == 10000000 && Pow10(8) == 100000000
  {
  }

  // One unit of the given places, written with eight decimals as in the table
  lemma EightDecimals(c: int, unit: real, places: int)
    requires 0 <= places <= 8 && c == Pow10(8 - places) && unit == 1.0 / Pow10(places) as real
    ensures V(Dec(c, -8)) == unit && DecimalPlaces(Dec(c, -8)) == places
  {
    hide V, DecimalPlaces, ToString, Pow10;
    RescaleDownExact(Dec(1, -places), -8);
    ShiftDown(1.0, places);
    TextOfRescaled(Dec(1, -places), -8);
    UnitPlaces(places);
    SameText(Dec(c, -8), Dec(1, -places));
    UnitValue(places);
  }

  lemma UnitValue(places: int)
    ensures V(Dec(1, -places)) == Shift(1.0, -places)
  {
    hide Shift;
  }

  lemma SameText(a: Dec, b: Dec)
    requires ToString(a) == ToString(b)
    ensures DecimalPlaces(a) == DecimalPlaces(b)
  {
    hide ToString;
  }

  lemma UnitPlaces(places: int)
    requires places >= 0
    ensures DecimalPlaces(Dec(1, -places)) == places
  {
    hide IndexOf, TrimRightZeros;
    if places == 0 {
      assert ToString(Dec(1, 0)) == "1";
    } else {
      var fraction := Zeros(places - 1) + "1";
      assert Digits(1) == "1";
      NothingToTrim(fraction);
      assert ToString(Dec(1, -places)) == "0" + ['.'] + fraction;
      IndexOfIs("0", '.', fraction);
    }
  }

  lemma NothingToTrim(s: string)
    requires s != "" && s[|s| - 1] != '0'
    ensures TrimRightZeros(s) == s
  {
  }

  // A step that is not positive leaves the quantity as it is, in value and in text.
  lemma NoStep(qty: Dec, step: Dec)
    requires V(step) <= 0.0
    ensures var (z, text) := TruncateToStepSize(qty, step);
            V(z) == V(qty) && Parse(text).Some? && V(Parse(text).value) == V(qty)
  {
    hide V, Parse, ToString;
    StringParses(qty);
  }
}
