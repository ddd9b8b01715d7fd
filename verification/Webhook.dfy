/** handleBinanceOrderWebhook: how an exchange execution report becomes a FillEvent. */
module Webhook {

  import opened Decimals
  import opened Options
  import opened Orders
  import opened FillArithmetic
  import opened Settlement

  // The fields the handler reads; each decimal is what NewFromString made of its text.
  datatype Report = Report(
    executionType: string,
    orderStatus: string,
    poid: string,
    lastQty: Option<Dec>,
    cumulativeQty: Option<Dec>,
    lastPrice: Option<Dec>,
    cumulativeQuote: Option<Dec>)

  datatype Normalized = Ignored | BadQuantity | Event(event: FillEvent)

  predicate Usable(d: Option<Dec>) {
    d.Some? && !IsZero(d.value)
  }

  predicate IsTrade(r: Report) {
    r.executionType == "TRADE" || r.orderStatus == "FILLED" || r.orderStatus == "PARTIALLY_FILLED"
  }

  // The report's own last quantity and price when usable; else the cumulative quantity, and the
  // cumulative quote quantity spread over whatever quantity was chosen.
  ghost predicate NormalizedAs(r: Report, n: Normalized) {
    if !IsTrade(r) then n.Ignored?
    else if !Usable(r.lastQty) && r.cumulativeQty == None then n.BadQuantity?
    else
      && n.Event?
      && n.event.provider == "BINANCE" && n.event.poid == r.poid && n.event.status == r.orderStatus
      && n.event.qty == (if Usable(r.lastQty) then r.lastQty.value else r.cumulativeQty.value)
      && (Usable(r.lastPrice) ==> n.event.price == r.lastPrice.value)
      && (!Usable(r.lastPrice) && r.cumulativeQuote.Some? && V(n.event.qty) > 0.0 ==>
            V(n.event.price) == RoundTo(V(r.cumulativeQuote.value) / V(n.event.qty), DIVISION_PRECISION))
      && (!Usable(r.lastPrice) && (r.cumulativeQuote == None || V(n.event.qty) <= 0.0) ==> V(n.event.price) == 0.0)
  }

  method Normalize(r: Report) returns (n: Normalized)
    ensures NormalizedAs(r, n)
    ensures n.Ignored? <==> r.executionType != "TRADE" && r.orderStatus !in {"FILLED", "PARTIALLY_FILLED"}
    ensures n.BadQuantity? <==>
              !n.Ignored? && r.cumulativeQty == None && (r.lastQty == None || V(r.lastQty.value) == 0.0)
  {
    hide V, RoundTo;
    if r.executionType != "TRADE" && r.orderStatus != "FILLED" && r.orderStatus != "PARTIALLY_FILLED" {
      return Ignored;
    }
    var lastQty := if r.lastQty.Some? then r.lastQty.value else ZERO;
    if r.lastQty == None || IsZero(lastQty) {
      if r.cumulativeQty == None {
        return BadQuantity;
      }
      lastQty := r.cumulativeQty.value;
    }
    var lastPrice := if r.lastPrice.Some? then r.lastPrice.value else ZERO;
    SignOf(ZERO);
    if r.lastPrice == None || IsZero(lastPrice) {
      if r.cumulativeQuote.Some? && IsPositive(lastQty) {
        lastPrice := Div(r.cumulativeQuote.value, lastQty);
      }
    }
    return Event(FillEvent("BINANCE", r.poid, r.orderStatus, lastQty, lastPrice));
  }

  // When the price falls back, the amount sent to Livro is the cumulative quote quantity, up to the
  // division's error on each unit and one rounding to four decimals.
  lemma FallbackSettlesCumulativeQuote(r: Report, n: Normalized, o: Order)
    requires NormalizedAs(r, n) && n.Event? && !Usable(r.lastPrice) && r.cumulativeQuote.Some?
    requires V(n.event.qty) > 0.0 && V(o.filled) >= 0.0
    ensures var amount := Denoted(FigureText(EntryOf(DirectLivro, o, NextFill(o, n.event), n.event)));
            var bound := HalfUnit(DIVISION_PRECISION) * V(n.event.qty) + HalfUnit(4);
            -bound <= amount - V(r.cumulativeQuote.value) <= bound
  {
    hide V, RoundTo, HalfUnit, EntryOf, NextFill, Denoted, Near;
    var q, z, p := V(n.event.qty), V(r.cumulativeQuote.value), V(n.event.price);
    RoundNear(z / q, DIVISION_PRECISION);
    ScaleError(p, z / q, HalfUnit(DIVISION_PRECISION), q, z);
    SettledAmount(o, n.event);
    NearTurnover(n.event, z, HalfUnit(DIVISION_PRECISION));
  }

  // The cumulative quote quantity is the turnover of earlier executions plus this one's, quantity
  // times its true price. The price fallback settles this execution's own turnover if and only if
  // the earlier turnover is below half a unit of the sixteenth digit on each unit executed now: in
  // practice, if this is the first execution.
  lemma FallbackPriceIffFirst(r: Report, n: Normalized, o: Order, price: real, earlier: real)
    requires NormalizedAs(r, n) && n.Event? && !Usable(r.lastPrice) && r.cumulativeQuote.Some?
    requires V(n.event.qty) > 0.0 && V(o.filled) >= 0.0
    requires price >= 0.0 && OnGrid(price, DIVISION_PRECISION) && earlier >= 0.0
    requires V(r.cumulativeQuote.value) == earlier + V(n.event.qty) * price
    ensures V(NextFill(o, n.event).fiat) == V(n.event.qty) * price
            <==> earlier < HalfUnit(DIVISION_PRECISION) * V(n.event.qty)
  {
    hide V, RoundTo, HalfUnit, OnGrid, Div, Add, Mul, Cmp;
    var q := V(n.event.qty);
    PlannedQuantity(o, n.event);
    Share(earlier, q, price, V(r.cumulativeQuote.value));
    RoundExcess(price, earlier / q, DIVISION_PRECISION);
    ShareBelow(earlier, q, HalfUnit(DIVISION_PRECISION));
    CancelFactor(q, V(n.event.price), price);
  }

  lemma Share(earlier: real, q: real, price: real, z: real)
    requires q > 0.0 && earlier >= 0.0 && z == earlier + q * price
    ensures z / q == price + earlier / q && earlier / q >= 0.0
  {
    assert (price + earlier / q) * q == z;
    DivUnique(price + earlier / q, q, z);
  }

  lemma ShareBelow(earlier: real, q: real, h: real)
    requires q > 0.0
    ensures earlier / q < h <==> earlier < h * q
  {
    assert earlier / q * q == earlier;
    MulMono(h, earlier / q, q);
    MulMono(earlier / q, h, q);
  }

  lemma CancelFactor(q: real, a: real, b: real)
    requires q > 0.0
    ensures q * a == q * b <==> a == b
  {
    MulMono(a, b, q);
    MulMono(b, a, q);
  }

  // After any sizable executions of an order confirmed unfilled, falling back to the cumulative quantity
  // brings the stored quantity to the exchange's cumulative quantity, as the column holds it, if and
  // only if there were none.
  lemma FallbackQuantityIffFirst(r: Report, n: Normalized, o: Order, es: seq<FillEvent>)
    requires NormalizedAs(r, n) && n.Event? && !Usable(r.lastQty)
    requires V(n.event.qty) > 0.0 && Stored(o) && V(o.filled) == 0.0 && AllSizable(es)
    ensures r.cumulativeQty.Some? && V(AfterFills(o, es).filled) >= 0.0
    ensures V(AfterFill(AfterFills(o, es), n.event).filled) == RoundTo(V(r.cumulativeQty.value), QUANTITY_SCALE)
            <==> es == []
  {
    hide V, RoundTo, HalfUnit, OnGrid, AfterFill, AfterFills;
    FillAddsRounded(AfterFills(o, es), n.event);
    assert es[..|es|] == es && es[..0] == [];
    NoFills(o);
    if es != [] {
      FilledIncreases(o, es, 0, |es|);
    }
  }
}
