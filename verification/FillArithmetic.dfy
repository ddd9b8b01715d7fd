/** What one fill does to an order row (the arithmetic of ProcessFill), and what any sequence of
    fills of one order adds up to. */
module FillArithmetic {

  import opened Decimals
  import opened Orders
  import Strings

  datatype FillEvent = FillEvent(provider: string, poid: string, status: string, qty: Dec, price: Dec)

  // What ProcessFill computes before it settles: cumulative quantity and average price, unrounded
  // by the columns, the new status and the exact fiat value of this execution.
  datatype Plan = Plan(filled: Dec, avg: Dec, status: Status, fiat: Dec)

  predicate ValidEvent(e: FillEvent) {
    IsPositive(e.qty) && IsPositive(e.price)
  }

  function NextFill(o: Order, e: FillEvent): Plan
    requires V(o.filled) >= 0.0 && V(e.qty) > 0.0
  {
    var fiat := Mul(e.qty, e.price);
    var filled := Add(o.filled, e.qty);
    var avg := if IsZero(o.filled) then e.price else Div(Add(Mul(o.filled, o.avg), fiat), filled);
    var status := if Strings.EqualFold(e.status, "FILLED") || Cmp(filled, o.target) >= 0 then Filled else Partial;
    Plan(filled, avg, status, fiat)
  }

  // The row UpdateOrderFill leaves, with the columns' rounding
  function AfterFill(o: Order, e: FillEvent): Order
    requires V(o.filled) >= 0.0 && V(e.qty) > 0.0
  {
    var p := NextFill(o, e);
    o.(status := p.status, filled := Quantity(p.filled), avg := Price(p.avg))
  }

  // Stored quantities are on the column's grid and not negative.
  ghost predicate Stored(o: Order) {
    && V(o.filled) >= 0.0
    && OnGrid(V(o.filled), QUANTITY_SCALE)
    && OnGrid(V(o.target), QUANTITY_SCALE)
  }

  // An execution with at most eight quantity decimals
  ghost predicate Execution(e: FillEvent) {
    ValidEvent(e) && OnGrid(V(e.qty), QUANTITY_SCALE)
  }

  // An execution the quantity column does not round away, whatever its decimals
  ghost predicate Sizable(e: FillEvent) {
    ValidEvent(e) && V(e.qty) >= HalfUnit(QUANTITY_SCALE)
  }

  lemma ExecutionIsSizable(e: FillEvent)
    requires Execution(e)
    ensures Sizable(e)
  {
    hide V, RoundTo, HalfUnit, OnGrid;
    ZeroOnGrid(QUANTITY_SCALE);
    RoundFixed(V(e.qty), QUANTITY_SCALE);
    RoundExcess(0.0, V(e.qty), QUANTITY_SCALE);
  }

  // Rounding to a column keeps non-negative quantities non-negative.
  lemma RoundNonNegative(x: real, p: int)
    requires x >= 0.0
    ensures RoundTo(x, p) >= 0.0
  {
    hide Shift, RoundTo, OnGrid;
    ZeroOnGrid(p);
    RoundFixed(0.0, p);
    RoundMono(0.0, x, p);
  }

  lemma ZeroOnGrid(p: int)
    ensures OnGrid(0.0, p)
  {
    hide Shift;
    ShiftLinear(0.0, 0.0, -p);
    assert 0.0 == Units(0, p);
  }

  lemma StoredStays(o: Order, e: FillEvent)
    requires Stored(o) && V(e.qty) > 0.0
    ensures Stored(AfterFill(o, e))
  {
    hide V, RoundTo, OnGrid, Div, Add, Mul, Cmp;
    var p := NextFill(o, e);
    RoundNonNegative(V(p.filled), QUANTITY_SCALE);
    RoundFixed(V(p.filled), QUANTITY_SCALE);
  }

  // ---------- conservation ----------

  // The stored quantity grows by exactly the executed quantity if and only if that quantity has at
  // most eight decimals.
  lemma ConservesIff(o: Order, e: FillEvent)
    requires Stored(o) && V(e.qty) > 0.0
    ensures V(AfterFill(o, e).filled) == V(o.filled) + V(e.qty) <==> OnGrid(V(e.qty), QUANTITY_SCALE)
  {
    hide V, RoundTo, OnGrid, Div, Add, Mul, Cmp;
    var total := V(o.filled) + V(e.qty);
    assert V(NextFill(o, e).filled) == total;
    RoundFixed(total, QUANTITY_SCALE);
    if OnGrid(total, QUANTITY_SCALE) {
      GridAdd(total, V(o.filled), QUANTITY_SCALE);
      assert total - V(o.filled) == V(e.qty);
    }
    if OnGrid(V(e.qty), QUANTITY_SCALE) {
      GridAdd(V(o.filled), V(e.qty), QUANTITY_SCALE);
    }
  }

  // What the stored average says was paid for the stored quantity
  ghost function Cost(o: Order): real {
    V(o.filled) * V(o.avg)
  }

  ghost function Turnover(e: FillEvent): real {
    V(e.qty) * V(e.price)
  }

  ghost function TotalQty(es: seq<FillEvent>): real {
    if es == [] then 0.0 else TotalQty(es[..|es| - 1]) + V(es[|es| - 1].qty)
  }

  ghost function TotalFiat(es: seq<FillEvent>): real {
    if es == [] then 0.0 else TotalFiat(es[..|es| - 1]) + Turnover(es[|es| - 1])
  }

  ghost predicate ValidEvents(es: seq<FillEvent>) {
    forall i :: 0 <= i < |es| ==> ValidEvent(es[i])
  }

  ghost predicate Executions(es: seq<FillEvent>)
    ensures Executions(es) ==> ValidEvents(es)
  {
    forall i :: 0 <= i < |es| ==> Execution(es[i])
  }

  ghost predicate AllSizable(es: seq<FillEvent>)
    ensures AllSizable(es) ==> ValidEvents(es)
  {
    forall i :: 0 <= i < |es| ==> Sizable(es[i])
  }

  // The row after the fills es, one after the other
  ghost function AfterFills(o: Order, es: seq<FillEvent>): (r: Order)
    requires Stored(o) && ValidEvents(es)
    ensures Stored(r)
    decreases |es|
  {
    if es == [] then o
    else
      var last := es[|es| - 1];
      var before := AfterFills(o, es[..|es| - 1]);
      assert ValidEvent(last);
      StoredStays(before, last);
      AfterFill(before, last)
  }

  lemma NoFills(o: Order)
    requires Stored(o)
    ensures ValidEvents([]) && AfterFills(o, []) == o
  {
  }

  // The quantities as the column takes them
  ghost function TotalRounded(es: seq<FillEvent>): real {
    if es == [] then 0.0 else TotalRounded(es[..|es| - 1]) + RoundTo(V(es[|es| - 1].qty), QUANTITY_SCALE)
  }

  // One fill adds its quantity, rounded to the column.
  lemma FillAddsRounded(o: Order, e: FillEvent)
    requires Stored(o) && V(e.qty) > 0.0
    ensures V(AfterFill(o, e).filled) == V(o.filled) + RoundTo(V(e.qty), QUANTITY_SCALE)
  {
    hide V, RoundTo, OnGrid, Div, Add, Mul, Cmp;
    PlannedQuantity(o, e);
    RoundExcess(V(o.filled), V(e.qty), QUANTITY_SCALE);
  }

  // Stored quantity = quantity at the start + everything executed as the column takes it, whatever
  // the quantities and prices.
  lemma {:induction false} RoundedConservation(o: Order, es: seq<FillEvent>)
    requires Stored(o) && ValidEvents(es)
    ensures V(AfterFills(o, es).filled) == V(o.filled) + TotalRounded(es)
    decreases |es|
  {
    hide V, OnGrid, RoundTo, AfterFill;
    if es != [] {
      RoundedConservation(o, es[..|es| - 1]);
      FillAddsRounded(AfterFills(o, es[..|es| - 1]), es[|es| - 1]);
    }
  }

  // Stored quantity = quantity at the start + everything executed, when this has at most eight
  // decimals each time.
  lemma {:induction false} Conservation(o: Order, es: seq<FillEvent>)
    requires Stored(o) && Executions(es)
    ensures V(AfterFills(o, es).filled) == V(o.filled) + TotalQty(es)
    decreases |es|
  {
    hide V, OnGrid, AfterFill;
    if es != [] {
      Conservation(o, es[..|es| - 1]);
      assert Execution(es[|es| - 1]);
      ConservesIff(AfterFills(o, es[..|es| - 1]), es[|es| - 1]);
    }
  }

  // No fill decreases the stored quantity, and a sizable one increases it.
  lemma {:induction false} FilledIncreases(o: Order, es: seq<FillEvent>, i: nat, j: nat)
    requires Stored(o) && ValidEvents(es) && i < j <= |es|
    ensures V(AfterFills(o, es[..i]).filled) <= V(AfterFills(o, es[..j]).filled)
    ensures Sizable(es[j - 1]) ==> V(AfterFills(o, es[..i]).filled) < V(AfterFills(o, es[..j]).filled)
    decreases j
  {
    hide V, OnGrid, RoundTo, HalfUnit, AfterFill;
    var e := es[j - 1];
    assert ValidEvent(e);
    assert es[..j][..j - 1] == es[..j - 1];
    FillAddsRounded(AfterFills(o, es[..j - 1]), e);
    RoundNonNegative(V(e.qty), QUANTITY_SCALE);
    ZeroOnGrid(QUANTITY_SCALE);
    RoundExcess(0.0, V(e.qty), QUANTITY_SCALE);
    if i < j - 1 {
      FilledIncreases(o, es, i, j - 1);
    }
  }

  // ---------- the average price ----------

  // Division error of one step, before the column rounds
  lemma AverageNear(o: Order, e: FillEvent)
    requires Stored(o) && V(e.qty) > 0.0 && V(o.filled) > 0.0
    ensures var exact := Cost(o) + Turnover(e);
            var x := exact / (V(o.filled) + V(e.qty));
            && V(NextFill(o, e).avg) == RoundTo(x, DIVISION_PRECISION)
            && V(AfterFill(o, e).avg) == RoundTo(RoundTo(x, DIVISION_PRECISION), PRICE_SCALE)
  {
    hide V, RoundTo, OnGrid, Cmp;
    assert !IsZero(o.filled);
    var p := NextFill(o, e);
    var turnover := Add(Mul(o.filled, o.avg), p.fiat);
    var exact := Cost(o) + Turnover(e);
    RoundSame(V(turnover) / V(p.filled), exact / (V(o.filled) + V(e.qty)), DIVISION_PRECISION);
  }

  lemma RoundSame(x: real, y: real, p: int)
    requires x == y
    ensures RoundTo(x, p) == RoundTo(y, p)
  {
  }

  lemma ScaleError(a: real, x: real, err: real, f: real, exact: real)
    requires f > 0.0 && x == exact / f && -err <= a - x <= err
    ensures Near(a, f, exact, err)
  {
    assert x * f == exact;
    MulMono(a - x, err, f);
    MulMono(-err, a - x, f);
  }

  ghost function StepError(): real {
    HalfUnit(PRICE_SCALE) + HalfUnit(DIVISION_PRECISION)
  }

  // The average times the quantity is within err per unit of the exact turnover.
  ghost predicate Near(avg: real, filled: real, exact: real, err: real) {
    -(err * filled) <= avg * filled - exact <= err * filled
  }

  // The quotient of the two, unrounded
  lemma UnroundedNear(o: Order, e: FillEvent, f: real, exact: real, x: real)
    requires Stored(o) && V(e.qty) > 0.0
    requires f == V(o.filled) + V(e.qty) && exact == Cost(o) + Turnover(e) && x == exact / f
    ensures -HalfUnit(DIVISION_PRECISION) <= V(NextFill(o, e).avg) - x <= HalfUnit(DIVISION_PRECISION)
  {
    hide V, RoundTo, OnGrid, HalfUnit, Div, Add, Mul, Cmp;
    if V(o.filled) > 0.0 {
      AverageNear(o, e);
      RoundNear(x, DIVISION_PRECISION);
    } else {
      assert IsZero(o.filled);
      HalfUnitPositive(DIVISION_PRECISION);
      ZeroTimes(V(o.filled), V(o.avg));
      DivUnique(V(e.price), f, exact);
    }
  }

  // One fill moves average * quantity away from the exact turnover by at most one column half-unit
  // and one division half-unit per unit of quantity; without the column, by the latter alone.
  lemma AverageStep(o: Order, e: FillEvent)
    requires Stored(o) && V(e.qty) > 0.0
    ensures var exact := Cost(o) + Turnover(e);
            var f := V(o.filled) + V(e.qty);
            && Near(V(NextFill(o, e).avg), f, exact, HalfUnit(DIVISION_PRECISION))
            && Near(V(AfterFill(o, e).avg), f, exact, StepError())
  {
    hide V, RoundTo, OnGrid, HalfUnit, NextFill;
    var exact := Cost(o) + Turnover(e);
    var f := V(o.filled) + V(e.qty);
    var x := exact / f;
    UnroundedNear(o, e, f, exact, x);
    RoundNear(V(NextFill(o, e).avg), PRICE_SCALE);
    ScaleError(V(NextFill(o, e).avg), x, HalfUnit(DIVISION_PRECISION), f, exact);
    ScaleError(V(AfterFill(o, e).avg), x, StepError(), f, exact);
  }

  lemma ZeroTimes(x: real, y: real)
    requires x == 0.0
    ensures x * y == 0.0
  {
  }

  // Sum of the cumulative quantities after each fill
  ghost function SumOfFilled(o: Order, es: seq<FillEvent>): real
    requires Stored(o) && Executions(es)
  {
    if es == [] then 0.0
    else SumOfFilled(o, es[..|es| - 1]) + V(AfterFills(o, es).filled)
  }

  // Drift: after any fills, average * quantity differs from the exact turnover by at most one step
  // error per unit of every cumulative quantity passed through.
  lemma {:induction false} AverageDrift(o: Order, es: seq<FillEvent>)
    requires Stored(o) && Executions(es)
    ensures var drift := Cost(AfterFills(o, es)) - (Cost(o) + TotalFiat(es));
            var bound := StepError() * SumOfFilled(o, es);
            -bound <= drift <= bound
    decreases |es|
  {
    hide V, OnGrid, HalfUnit, StepError, AfterFill, NextFill, AfterFills, Near, Cost, Turnover;
    if es == [] {
      NoFills(o);
      ZeroTimes(SumOfFilled(o, es), StepError());
    } else {
      var e, init := es[|es| - 1], es[..|es| - 1];
      assert Execution(e);
      AverageDrift(o, init);
      LastFill(o, es);
      AverageStep(AfterFills(o, init), e);
      ConservesIff(AfterFills(o, init), e);
      DriftStep(AfterFills(o, init), AfterFills(o, es), e, Cost(o) + TotalFiat(init), StepError(),
                SumOfFilled(o, init));
      assert SumOfFilled(o, es) == SumOfFilled(o, init) + V(AfterFills(o, es).filled);
    }
  }

  lemma LastFill(o: Order, es: seq<FillEvent>)
    requires Stored(o) && ValidEvents(es) && es != []
    ensures V(AfterFills(o, es[..|es| - 1]).filled) >= 0.0 && V(es[|es| - 1].qty) > 0.0
    ensures AfterFills(o, es) == AfterFill(AfterFills(o, es[..|es| - 1]), es[|es| - 1])
  {
    hide V, OnGrid, AfterFill;
    assert ValidEvent(es[|es| - 1]);
  }

  lemma DriftStep(before: Order, after: Order, e: FillEvent, exact: real, err: real, sum: real)
    requires V(after.filled) == V(before.filled) + V(e.qty)
    requires -(err * sum) <= Cost(before) - exact <= err * sum
    requires Near(V(after.avg), V(before.filled) + V(e.qty), Cost(before) + Turnover(e), err)
    ensures var sum' := sum + V(after.filled);
            -(err * sum') <= Cost(after) - (exact + Turnover(e)) <= err * sum'
  {
    hide V, Turnover;
    DriftSum(Cost(before), exact, Turnover(e), V(after.avg), V(after.filled), err, sum);
    assert Cost(after) == V(after.avg) * V(after.filled);
  }

  lemma DriftSum(cost: real, exact: real, turnover: real, a': real, f': real, err: real, sum: real)
    requires -(err * sum) <= cost - exact <= err * sum
    requires Near(a', f', cost + turnover, err)
    ensures -(err * (sum + f')) <= a' * f' - (exact + turnover) <= err * (sum + f')
  {
    assert err * (sum + f') == err * sum + err * f';
  }

  lemma {:induction false} SumOfFilledBound(o: Order, es: seq<FillEvent>)
    requires Stored(o) && Executions(es)
    ensures SumOfFilled(o, es) <= |es| as real * V(AfterFills(o, es).filled)
    decreases |es|
  {
    hide V, OnGrid, AfterFill;
    if es != [] {
      var init := es[..|es| - 1];
      SumOfFilledBound(o, init);
      assert es[..|es|] == es;
      assert ValidEvents(es);
      FilledIncreases(o, es, |es| - 1, |es|);
      GrowingSum(|init|, V(AfterFills(o, init).filled), V(AfterFills(o, es).filled), SumOfFilled(o, init));
    }
  }

  lemma GrowingSum(n: nat, f: real, f': real, sum: real)
    requires sum <= n as real * f && f <= f'
    ensures sum + f' <= (n + 1) as real * f'
  {
    assert n as real * f <= n as real * f';
  }

  // After n >= 1 fills from zero the stored average is within n step errors of the true VWAP.
  lemma VwapWithinSteps(o: Order, es: seq<FillEvent>)
    requires Stored(o) && Executions(es) && V(o.filled) == 0.0 && es != []
    ensures TotalQty(es) > 0.0
    ensures var drift := V(AfterFills(o, es).avg) - TotalFiat(es) / TotalQty(es);
            -(|es| as real * StepError()) <= drift <= |es| as real * StepError()
  {
    hide V, OnGrid, HalfUnit, StepError, AfterFill, AfterFills, SumOfFilled, TotalQty, TotalFiat;
    AverageDrift(o, es);
    SumOfFilledBound(o, es);
    Conservation(o, es);
    assert es[..|es|] == es && es[..0] == [];
    assert Execution(es[|es| - 1]);
    ExecutionIsSizable(es[|es| - 1]);
    FilledIncreases(o, es, 0, |es|);
    Conservation(o, []);
    TotalOfNone();
    ZeroTimes(V(o.filled), V(o.avg));
    StepErrorPositive();
    DivideDrift(V(AfterFills(o, es).avg), TotalQty(es), TotalFiat(es), StepError(), SumOfFilled(o, es), |es| as real);
  }

  lemma TotalOfNone()
    ensures TotalQty([]) == 0.0
  {
  }

  lemma StepErrorPositive()
    ensures StepError() > 0.0
  {
    hide Shift;
    HalfUnitPositive(PRICE_SCALE);
    HalfUnitPositive(DIVISION_PRECISION);
  }

  lemma DivideDrift(a: real, f: real, exact: real, err: real, sum: real, n: real)
    requires f > 0.0 && err > 0.0 && sum <= n * f
    requires -(err * sum) <= a * f - exact <= err * sum
    ensures -(n * err) <= a - exact / f <= n * err
  {
    var x := exact / f;
    assert x * f == exact;
    MulMono(sum, n * f, err);
    assert err * (n * f) == n * err * f;
    MulMono(a - x, n * err, f);
    MulMono(-(n * err), a - x, f);
  }

  // ---------- the price hull ----------

  // All fill prices lie in [lo, hi], bounds with at most sixteen decimals.
  ghost predicate PricesWithin(es: seq<FillEvent>, lo: real, hi: real) {
    && OnGrid(lo, DIVISION_PRECISION) && OnGrid(hi, DIVISION_PRECISION)
    && forall i :: 0 <= i < |es| ==> lo <= V(es[i].price) <= hi
  }

  // An average of values bounded below by a sixteen-decimal number stays above its rounding.
  lemma RoundedAverageAbove(x: real, m: real)
    requires x >= m && OnGrid(m, DIVISION_PRECISION)
    ensures RoundTo(RoundTo(x, DIVISION_PRECISION), PRICE_SCALE) >= RoundTo(m, PRICE_SCALE)
  {
    hide RoundTo, OnGrid;
    RoundFixed(m, DIVISION_PRECISION);
    RoundMono(m, x, DIVISION_PRECISION);
    RoundMono(m, RoundTo(x, DIVISION_PRECISION), PRICE_SCALE);
  }

  lemma RoundedAverageBelow(x: real, m: real)
    requires x <= m && OnGrid(m, DIVISION_PRECISION)
    ensures RoundTo(RoundTo(x, DIVISION_PRECISION), PRICE_SCALE) <= RoundTo(m, PRICE_SCALE)
  {
    hide RoundTo, OnGrid;
    RoundFixed(m, DIVISION_PRECISION);
    RoundMono(x, m, DIVISION_PRECISION);
    RoundMono(RoundTo(x, DIVISION_PRECISION), m, PRICE_SCALE);
  }

  // min(m, round(m)) and max(m, round(m)) round like m and have sixteen decimals.
  lemma RoundsAlike(m: real)
    requires OnGrid(m, DIVISION_PRECISION)
    ensures var r := RoundTo(m, PRICE_SCALE);
            OnGrid(r, DIVISION_PRECISION) && RoundTo(r, PRICE_SCALE) == r
  {
    hide RoundTo, OnGrid;
    RoundFixed(m, PRICE_SCALE);
    RoundFixed(RoundTo(m, PRICE_SCALE), PRICE_SCALE);
    GridRefines(RoundTo(m, PRICE_SCALE), PRICE_SCALE, DIVISION_PRECISION);
  }

  lemma Scaled(lo: real, a: real, f: real)
    requires lo <= a && f > 0.0
    ensures lo * f <= f * a
  {
    MulMono(lo, a, f);
  }

  lemma CancelLeft(lo: real, x: real, w: real)
    requires w > 0.0 && lo * w <= x * w
    ensures lo <= x
  {
    MulMono(lo, x, w);
  }

  // A weighted average lies between its two values.
  lemma AverageAtLeast(f: real, a: real, q: real, p: real, w: real, lo: real, x: real)
    requires f > 0.0 && q > 0.0 && w == f + q && lo <= a && lo <= p && x * w == f * a + q * p
    ensures lo <= x
  {
    Scaled(lo, a, f);
    Scaled(lo, p, q);
    Distribute(lo, f, q, w);
    CancelLeft(lo, x, w);
  }

  lemma AverageAtMost(f: real, a: real, q: real, p: real, w: real, hi: real, x: real)
    requires f > 0.0 && q > 0.0 && w == f + q && a <= hi && p <= hi && x * w == f * a + q * p
    ensures x <= hi
  {
    Scaled(-hi, -a, f);
    Scaled(-hi, -p, q);
    Distribute(hi, f, q, w);
    CancelLeft(x, hi, w);
  }

  lemma Distribute(x: real, f: real, q: real, w: real)
    requires w == f + q
    ensures x * w == x * f + x * q
  {
  }

  lemma HullStep(o: Order, e: FillEvent, lo: real, hi: real)
    requires Stored(o) && V(e.qty) > 0.0 && lo <= V(e.price) <= hi
    requires OnGrid(lo, DIVISION_PRECISION) && OnGrid(hi, DIVISION_PRECISION)
    requires V(o.filled) > 0.0 ==> RoundTo(lo, PRICE_SCALE) <= V(o.avg) <= RoundTo(hi, PRICE_SCALE)
    ensures RoundTo(lo, PRICE_SCALE) <= V(AfterFill(o, e).avg) <= RoundTo(hi, PRICE_SCALE)
  {
    hide V, RoundTo, OnGrid, Div, Add, Mul, Cmp;
    if V(o.filled) > 0.0 {
      AverageNear(o, e);
      RoundsAlike(lo);
      RoundsAlike(hi);
      var rl, rh := RoundTo(lo, PRICE_SCALE), RoundTo(hi, PRICE_SCALE);
      var l, h := if lo < rl then lo else rl, if hi < rh then rh else hi;
      var x := (Cost(o) + Turnover(e)) / (V(o.filled) + V(e.qty));
      var w := V(o.filled) + V(e.qty);
      DivBack(Cost(o) + Turnover(e), w);
      AverageAtLeast(V(o.filled), V(o.avg), V(e.qty), V(e.price), w, l, x);
      AverageAtMost(V(o.filled), V(o.avg), V(e.qty), V(e.price), w, h, x);
      RoundedAverageAbove(x, l);
      RoundedAverageBelow(x, h);
    } else {
      assert IsZero(o.filled);
      RoundMono(lo, V(e.price), PRICE_SCALE);
      RoundMono(V(e.price), hi, PRICE_SCALE);
    }
  }

  // The stored average always lies between the four-decimal roundings of any sixteen-decimal bounds
  // of the prices seen: in particular of the smallest and the largest price.
  lemma {:induction false} AverageInHull(o: Order, es: seq<FillEvent>, lo: real, hi: real)
    requires Stored(o) && ValidEvents(es) && V(o.filled) == 0.0 && es != []
    requires PricesWithin(es, lo, hi)
    ensures RoundTo(lo, PRICE_SCALE) <= V(AfterFills(o, es).avg) <= RoundTo(hi, PRICE_SCALE)
    decreases |es|
  {
    hide V, RoundTo, OnGrid, AfterFill;
    var e, init := es[|es| - 1], es[..|es| - 1];
    assert ValidEvent(e);
    var before := AfterFills(o, init);
    if init == [] {
      assert before == o;
    } else {
      AverageInHull(o, init, lo, hi);
    }
    HullStep(before, e, lo, hi);
  }

  // ---------- completion ----------

  lemma FilledToTarget(o: Order, e: FillEvent)
    requires Stored(o) && V(e.qty) > 0.0
    ensures V(NextFill(o, e).filled) >= V(o.target) ==>
      && NextFill(o, e).status == Filled
      && V(AfterFill(o, e).filled) >= V(AfterFill(o, e).target)
    ensures V(o.filled) >= V(o.target) ==> V(NextFill(o, e).filled) >= V(o.target)
  {
    hide V, RoundTo, OnGrid, Div, Mul;
    RoundFixed(V(o.target), QUANTITY_SCALE);
    if V(NextFill(o, e).filled) >= V(o.target) {
      RoundMono(V(o.target), V(NextFill(o, e).filled), QUANTITY_SCALE);
    }
  }

  // Once a fill reaches the target, that fill and every later one leave the row FILLED.
  lemma {:induction false} CompletionStable(o: Order, es: seq<FillEvent>, k: nat, j: nat)
    requires Stored(o) && ValidEvents(es) && k < j <= |es|
    requires V(AfterFills(o, es[..k]).filled) + V(es[k].qty) >= V(o.target)
    ensures AfterFills(o, es[..j]).status == Filled
    ensures V(AfterFills(o, es[..j]).filled) >= V(o.target) == V(AfterFills(o, es[..j]).target)
    decreases j
  {
    hide V, OnGrid, NextFill, AfterFill;
    var e := es[j - 1];
    assert ValidEvent(e);
    assert es[..j][..j - 1] == es[..j - 1];
    var before := AfterFills(o, es[..j - 1]);
    TargetStays(o, es[..j - 1]);
    if k < j - 1 {
      CompletionStable(o, es, k, j - 1);
    }
    CompletingFill(before, e);
  }

  lemma CompletingFill(o: Order, e: FillEvent)
    requires Stored(o) && V(e.qty) > 0.0 && V(o.filled) + V(e.qty) >= V(o.target)
    ensures NextFill(o, e).status == AfterFill(o, e).status == Filled
    ensures AfterFill(o, e).target == o.target && V(AfterFill(o, e).filled) >= V(o.target)
  {
    hide V, OnGrid;
    PlannedQuantity(o, e);
    FilledToTarget(o, e);
  }

  // The status is FILLED exactly when the event says so or the target is reached, else PARTIAL.
  lemma FilledIff(o: Order, e: FillEvent)
    requires V(o.filled) >= 0.0 && V(e.qty) > 0.0
    ensures NextFill(o, e).status == Filled <==>
              Strings.EqualFold(e.status, "FILLED") || V(o.filled) + V(e.qty) >= V(o.target)
    ensures NextFill(o, e).status in {Filled, Partial}
  {
    hide V, Div, Mul;
  }

  lemma PlannedQuantity(o: Order, e: FillEvent)
    requires V(o.filled) >= 0.0 && V(e.qty) > 0.0
    ensures V(NextFill(o, e).filled) == V(o.filled) + V(e.qty)
    ensures V(NextFill(o, e).fiat) == Turnover(e)
  {
    hide V;
  }

  lemma {:induction false} TargetStays(o: Order, es: seq<FillEvent>)
    requires Stored(o) && ValidEvents(es)
    ensures var r := AfterFills(o, es);
            r == o.(status := r.status, filled := r.filled, avg := r.avg)
    decreases |es|
  {
    hide V, OnGrid, NextFill;
    if es != [] {
      TargetStays(o, es[..|es| - 1]);
      assert ValidEvent(es[|es| - 1]);
    }
  }
}
