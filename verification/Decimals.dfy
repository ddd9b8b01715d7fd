/** Exact decimals as shopspring/decimal v1.4.0 represents them: a coefficient and a power of ten.
    Every operation is modelled on the representation, and its postcondition says what it does to
    the denoted real number. `RoundTo` is the one notion of rounding (half away from zero) that the
    library's `Div` and `Round` and PostgreSQL's NUMERIC columns share.

    All multiplication by a power of ten goes through `Shift`; lemmas say `hide Shift` so that the
    solver works from its algebra and not from nonlinear arithmetic. */
module Decimals {

  datatype Dec = Dec(coef: int, exp: int)

  const ZERO := Dec(0, 0)

  // decimal.DivisionPrecision
  const DIVISION_PRECISION := 16

  // ---------- powers of ten ----------

  function Pow10(n: nat): (p: int)
    ensures p >= 1
  {
    if n == 0 then 1 else 10 * Pow10(n - 1)
  }

  function Ten(e: int): (t: real)
    ensures t > 0.0
    decreases if e < 0 then -e else e
  {
    if e == 0 then 1.0 else if e > 0 then 10.0 * Ten(e - 1) else Ten(e + 1) / 10.0
  }

  // x with its decimal point moved e places.
  function Shift(x: real, e: int): real {
    x * Ten(e)
  }

  lemma TenStep(e: int)
    ensures Ten(0) == 1.0
    ensures Ten(e + 1) == 10.0 * Ten(e)
  {
  }

  lemma {:induction false} TenAdd(a: int, b: int)
    ensures Ten(a + b) == Ten(a) * Ten(b)
    decreases if b < 0 then -b else b
  {
    hide Ten;
    TenStep(b);
    if b > 0 {
      TenAdd(a, b - 1);
      TenStep(a + (b - 1));
      TenStep(b - 1);
      assert a + (b - 1) + 1 == a + b;
    } else if b < 0 {
      TenAdd(a, b + 1);
      TenStep(a + b);
    }
  }

  lemma {:induction false} TenIsPow10(n: nat)
    ensures Ten(n) == Pow10(n) as real
  {
    if n > 0 {
      TenIsPow10(n - 1);
    }
  }

  lemma MulMono(a: real, b: real, t: real)
    requires t > 0.0
    ensures a <= b <==> a * t <= b * t
    ensures a < b <==> a * t < b * t
  {
    if a < b {
      assert (b - a) * t > 0.0;
    } else if b < a {
      assert (a - b) * t > 0.0;
    }
  }

  lemma Assoc(x: real, y: real, z: real)
    ensures x * y * z == x * (y * z)
  {
  }

  lemma Interchange(w: real, x: real, y: real, z: real)
    ensures w * x * (y * z) == w * y * (x * z)
  {
  }

  lemma ShiftZero(x: real)
    ensures Shift(x, 0) == x
  {
  }

  lemma ShiftShift(x: real, a: int, b: int)
    ensures Shift(Shift(x, a), b) == Shift(x, a + b)
  {
    hide Ten;
    TenAdd(a, b);
    Assoc(x, Ten(a), Ten(b));
  }

  lemma ShiftUp(x: real, e: int)
    ensures Shift(x, e + 1) == 10.0 * Shift(x, e)
  {
    hide Ten;
    TenStep(e);
  }

  lemma ShiftMono(x: real, y: real, e: int)
    ensures x <= y <==> Shift(x, e) <= Shift(y, e)
    ensures x < y <==> Shift(x, e) < Shift(y, e)
  {
    hide Ten;
    MulMono(x, y, Ten(e));
  }

  lemma ShiftLinear(x: real, y: real, e: int)
    ensures Shift(x + y, e) == Shift(x, e) + Shift(y, e)
    ensures Shift(x - y, e) == Shift(x, e) - Shift(y, e)
    ensures Shift(-x, e) == -Shift(x, e)
    ensures Shift(0.0, e) == 0.0
  {
    hide Ten;
  }

  lemma ShiftMul(x: real, y: real, a: int, b: int)
    ensures Shift(x, a) * Shift(y, b) == Shift(x * y, a + b)
  {
    hide Ten;
    TenAdd(a, b);
    Interchange(x, Ten(a), y, Ten(b));
  }

  lemma ShiftInt(k: int, n: nat)
    ensures Shift(k as real, n) == (k * Pow10(n)) as real
  {
    hide Ten, Pow10;
    TenIsPow10(n);
  }

  lemma ShiftDown(x: real, n: int)
    requires n >= 0
    ensures Shift(x, -n) == x / Pow10(n) as real
  {
    hide Ten, Pow10;
    var y := Shift(x, -n);
    ShiftShift(x, -n, n);
    ShiftZero(x);
    TenIsPow10(n);
    assert y * Pow10(n) as real == x;
  }

  // ---------- denotation ----------

  function V(d: Dec): real {
    Shift(d.coef as real, d.exp)
  }

  // k units of 10^-p
  function Units(k: int, p: int): real {
    Shift(k as real, -p)
  }

  // Half of one unit of 10^-p
  function HalfUnit(p: int): real {
    Shift(0.5, -p)
  }

  // x has at most p fractional digits.
  ghost predicate OnGrid(x: real, p: int) {
    exists k: int :: x == Units(k, p)
  }

  lemma SameExp(a: Dec, b: Dec)
    requires a.exp == b.exp
    ensures V(a) == V(b) <==> a.coef == b.coef
    ensures V(a) < V(b) <==> a.coef < b.coef
  {
    hide Shift;
    ShiftMono(a.coef as real, b.coef as real, a.exp);
    ShiftMono(b.coef as real, a.coef as real, a.exp);
  }

  lemma SignOf(d: Dec)
    ensures V(d) > 0.0 <==> d.coef > 0
    ensures V(d) == 0.0 <==> d.coef == 0
  {
    hide Shift;
    ShiftLinear(0.0, 0.0, d.exp);
    SameExp(d, Dec(0, d.exp));
    SameExp(Dec(0, d.exp), d);
  }

  lemma HalfUnitPositive(p: int)
    ensures HalfUnit(p) > 0.0
  {
    hide Shift;
    ShiftMono(0.0, 0.5, -p);
    ShiftLinear(0.0, 0.0, -p);
  }

  // ---------- rounding on the reals ----------

  function RoundInt(x: real): int {
    if x >= 0.0 then (x + 0.5).Floor else -((-x + 0.5).Floor)
  }

  // x rounded half away from zero to p fractional digits.
  function RoundTo(x: real, p: int): real {
    Units(RoundInt(Shift(x, p)), p)
  }

  lemma RoundIntMono(x: real, y: real)
    requires x <= y
    ensures RoundInt(x) <= RoundInt(y)
  {
  }

  lemma RoundIntOfInt(k: int)
    ensures RoundInt(k as real) == k
  {
  }

  lemma ShiftBack(x: real, p: int)
    ensures Shift(Shift(x, p), -p) == x == Shift(Shift(x, -p), p)
  {
    hide Shift;
    ShiftShift(x, p, -p);
    ShiftShift(x, -p, p);
    ShiftZero(x);
  }

  lemma RoundNear(x: real, p: int)
    ensures -HalfUnit(p) <= RoundTo(x, p) - x <= HalfUnit(p)
  {
    hide Shift;
    var y := Shift(x, p);
    var k := RoundInt(y) as real;
    ShiftBack(x, p);
    ShiftLinear(k, y, -p);
    ShiftLinear(0.5, 0.5, -p);
    ShiftMono(k - y, 0.5, -p);
    ShiftMono(-0.5, k - y, -p);
  }

  lemma RoundMono(x: real, y: real, p: int)
    requires x <= y
    ensures RoundTo(x, p) <= RoundTo(y, p)
  {
    hide Shift;
    ShiftMono(x, y, p);
    RoundIntMono(Shift(x, p), Shift(y, p));
    ShiftMono(RoundInt(Shift(x, p)) as real, RoundInt(Shift(y, p)) as real, -p);
  }

  lemma DivBack(x: real, y: real)
    requires y != 0.0
    ensures x / y * y == x
  {
  }

  // Rounding is the identity on the grid, and only there.
  lemma RoundFixed(x: real, p: int)
    ensures RoundTo(x, p) == x <==> OnGrid(x, p)
    ensures OnGrid(RoundTo(x, p), p)
  {
    hide Shift;
    if OnGrid(x, p) {
      var k :| x == Units(k, p);
      ShiftBack(k as real, p);
      RoundIntOfInt(k);
    }
  }

  lemma GridAdd(x: real, y: real, p: int)
    requires OnGrid(x, p) && OnGrid(y, p)
    ensures OnGrid(x + y, p) && OnGrid(x - y, p)
  {
    hide Shift;
    var j :| x == Units(j, p);
    var k :| y == Units(k, p);
    ShiftLinear(j as real, k as real, -p);
    assert x + y == Units(j + k, p);
    assert x - y == Units(j - k, p);
  }

  // Rounding something past a number on the grid rounds the excess alone, and rounds it away exactly
  // when it is below half a unit.
  lemma RoundExcess(x: real, d: real, p: int)
    requires x >= 0.0 && OnGrid(x, p) && d >= 0.0
    ensures RoundTo(x + d, p) == x + RoundTo(d, p)
    ensures RoundTo(d, p) == 0.0 <==> d < HalfUnit(p)
  {
    hide Shift;
    var k :| x == Units(k, p);
    var y := Shift(d, p);
    ShiftBack(k as real, p);
    ShiftBack(0.5, p);
    ShiftLinear(x, d, p);
    ShiftLinear(k as real, RoundInt(y) as real, -p);
    ShiftMono(0.0, x, p);
    ShiftMono(0.0, d, p);
    ShiftMono(d, HalfUnit(p), p);
    ShiftLinear(0.0, 0.0, p);
    ShiftLinear(0.0, 0.0, -p);
    assert RoundInt(k as real + y) == k + RoundInt(y);
    ShiftMono(RoundInt(y) as real, 0.0, -p);
    ShiftMono(0.0, RoundInt(y) as real, -p);
  }

  // Half goes away from zero on either side.
  lemma RoundOdd(x: real, p: int)
    ensures RoundTo(-x, p) == -RoundTo(x, p)
  {
    hide Shift;
    ShiftLinear(x, x, p);
    ShiftLinear(RoundInt(Shift(x, p)) as real, 0.0, -p);
    assert RoundInt(-Shift(x, p)) == -RoundInt(Shift(x, p));
  }

  // Rounding takes away less than half a unit of a non-negative number.
  lemma RoundAbove(d: real, p: int)
    requires d >= 0.0
    ensures RoundTo(d, p) > d - HalfUnit(p)
  {
    hide Shift;
    var y := Shift(d, p);
    ShiftBack(d, p);
    ShiftMono(0.0, d, p);
    ShiftLinear(0.0, 0.0, p);
    ShiftLinear(y, 0.5, -p);
    ShiftMono(y - 0.5, RoundInt(y) as real, -p);
  }

  // A coarser grid lies inside a finer one.
  lemma GridRefines(x: real, p: int, q: int)
    requires OnGrid(x, p) && p <= q
    ensures OnGrid(x, q)
  {
    hide Shift, Pow10;
    var k :| x == Units(k, p);
    ShiftShift(k as real, q - p, -q);
    ShiftInt(k, q - p);
    assert x == Units(k * Pow10(q - p), q);
  }

  lemma OnOwnGrid(d: Dec)
    ensures OnGrid(V(d), -d.exp)
  {
    hide Shift;
    assert V(d) == Units(d.coef, -d.exp);
  }

  // ---------- the library's operations ----------

  // big.Int.Quo truncates toward zero.
  function Quo(a: int, b: int): int
    requires b > 0
  {
    if a >= 0 then a / b else -((-a) / b)
  }

  function Rescale(d: Dec, exp: int): (r: Dec)
    ensures r.exp == exp
    ensures exp <= d.exp ==> V(r) == V(d)
  {
    if d.exp == exp then d
    else if exp > d.exp then Dec(Quo(d.coef, Pow10(exp - d.exp)), exp)
    else RescaleDownExact(d, exp); Dec(d.coef * Pow10(d.exp - exp), exp)
  }

  lemma RescaleDownExact(d: Dec, exp: int)
    requires exp <= d.exp
    ensures V(Dec(d.coef * Pow10(d.exp - exp), exp)) == V(d)
  {
    hide Shift, Pow10;
    ShiftInt(d.coef, d.exp - exp);
    ShiftShift(d.coef as real, d.exp - exp, exp);
  }

  function Add(a: Dec, b: Dec): (r: Dec)
    ensures V(r) == V(a) + V(b)
    ensures r.exp == if a.exp <= b.exp then a.exp else b.exp
  {
    var exp := if a.exp < b.exp then a.exp else b.exp;
    var x, y := Rescale(a, exp), Rescale(b, exp);
    ShiftLinear(x.coef as real, y.coef as real, exp);
    Dec(x.coef + y.coef, exp)
  }

  function Mul(a: Dec, b: Dec): (r: Dec)
    ensures V(r) == V(a) * V(b)
  {
    ShiftMul(a.coef as real, b.coef as real, a.exp, b.exp);
    Dec(a.coef * b.coef, a.exp + b.exp)
  }

  function Cmp(a: Dec, b: Dec): (c: int)
    ensures c < 0 <==> V(a) < V(b)
    ensures c == 0 <==> V(a) == V(b)
  {
    var exp := if a.exp < b.exp then a.exp else b.exp;
    var x, y := Rescale(a, exp), Rescale(b, exp);
    SameExp(x, y);
    x.coef - y.coef
  }

  predicate IsPositive(d: Dec)
    ensures IsPositive(d) <==> V(d) > 0.0
  {
    SignOf(d);
    d.coef > 0
  }

  predicate IsZero(d: Dec)
    ensures IsZero(d) <==> V(d) == 0.0
  {
    SignOf(d);
    d.coef == 0
  }

  function Floor(d: Dec): (r: Dec)
    ensures V(r) == V(d).Floor as real
  {
    FloorExact(d);
    if d.exp >= 0 then d else Dec(d.coef / Pow10(-d.exp), 0)
  }

  lemma FloorExact(d: Dec)
    ensures d.exp >= 0 ==> V(d) == V(d).Floor as real
    ensures d.exp < 0 ==> V(Dec(d.coef / Pow10(-d.exp), 0)) == V(d).Floor as real
  {
    hide Shift, Pow10;
    if d.exp >= 0 {
      ShiftInt(d.coef, d.exp);
    } else {
      FloorQuotient(d.coef, Pow10(-d.exp));
      ShiftDown(d.coef as real, -d.exp);
      ShiftZero((d.coef / Pow10(-d.exp)) as real);
    }
  }

  // The real quotient in terms of the Euclidean quotient and remainder.
  lemma Quotient(a: int, b: int)
    requires b > 0
    ensures 0.0 <= a as real / b as real - (a / b) as real < 1.0
    ensures (a as real / b as real - (a / b) as real) * b as real == (a % b) as real
  {
    var x, q, r := a as real / b as real, a / b, a % b;
    assert a == q * b + r;
    assert x * b as real == a as real;
    MulMono(x - q as real, 1.0, b as real);
    MulMono(0.0, x - q as real, b as real);
  }

  lemma FloorQuotient(a: int, b: int)
    requires b > 0
    ensures (a as real / b as real).Floor == a / b
  {
    Quotient(a, b);
  }

  // The rounding step of DivRound: the truncated quotient, moved one unit away from zero
  // when twice the remainder reaches the divisor.
  function QuoHalfAway(a: int, b: int): int
    requires b > 0
  {
    var q := Quo(a, b);
    var r := a - q * b;
    if 2 * (if r < 0 then -r else r) < b then q else if a < 0 then q - 1 else q + 1
  }

  lemma HalfUpQuotient(n: nat, b: int)
    requires b > 0
    ensures (n as real / b as real + 0.5).Floor == if 2 * (n % b) < b then n / b else n / b + 1
  {
    Quotient(n, b);
    var f := n as real / b as real - (n / b) as real;
    HalfUp(f, n / b, b, n % b);
    assert n as real / b as real + 0.5 == (n / b) as real + f + 0.5;
  }

  // A fraction f of b, added to a whole q, rounds up exactly when it is at least half of b.
  lemma HalfUp(f: real, q: int, b: int, r: int)
    requires b > 0 && 0.0 <= f < 1.0 && f * b as real == r as real
    ensures (q as real + f + 0.5).Floor == if 2 * r < b then q else q + 1
  {
    BelowHalf(f, b as real, r as real);
    var x := q as real + f + 0.5;
    if 2 * r < b {
      assert q as real <= x < (q + 1) as real;
    } else {
      assert (q + 1) as real <= x < (q + 2) as real;
    }
  }

  lemma BelowHalf(f: real, b: real, r: real)
    requires b > 0.0 && f * b == r
    ensures f < 0.5 <==> 2.0 * r < b
  {
    MulMono(f, 0.5, b);
    assert 0.5 * b == b / 2.0;
  }

  lemma NegateQuotient(n: int, b: int)
    requires b > 0
    ensures (-n) as real / b as real == -(n as real / b as real)
  {
  }

  lemma DivMod(n: int, b: int)
    requires b > 0
    ensures n - n / b * b == n % b
    ensures -n - -(n / b) * b == -(n % b)
  {
  }

  lemma QuoHalfAwayRounds(a: int, b: int)
    requires b > 0
    ensures QuoHalfAway(a, b) == RoundInt(a as real / b as real)
  {
    var n := if a < 0 then -a else a;
    var x := n as real / b as real;
    HalfUpQuotient(n, b);
    Quotient(n, b);
    DivMod(n, b);
    NegateQuotient(n, b);
    assert RoundInt(-x) == -RoundInt(x) || x == 0.0;
  }

  // Numerator and (positive) denominator of a/b in units of 10^-p, as QuoRem scales them.
  function ScaledNumerator(a: Dec, b: Dec, p: int): int {
    var e := a.exp - b.exp + p;
    var n := if e < 0 then a.coef else a.coef * Pow10(e);
    if b.coef < 0 then -n else n
  }

  function ScaledDenominator(a: Dec, b: Dec, p: int): (d: int)
    requires b.coef != 0
    ensures d > 0
  {
    var e := a.exp - b.exp + p;
    var m := if b.coef < 0 then -b.coef else b.coef;
    if e < 0 then Positive(m, Pow10(-e)); m * Pow10(-e) else m
  }

  lemma Positive(m: int, n: int)
    requires m > 0 && n > 0
    ensures m * n > 0
  {
  }

  lemma DivUnique(q: real, y: real, x: real)
    requires y != 0.0 && q * y == x
    ensures q == x / y
  {
  }

  lemma ShiftDiv(x: real, y: real, a: int, b: int)
    requires y != 0.0
    ensures Shift(y, b) != 0.0
    ensures Shift(x, a) / Shift(y, b) == Shift(x / y, a - b)
  {
    hide Shift;
    ShiftMono(y, 0.0, b);
    ShiftMono(0.0, y, b);
    ShiftLinear(0.0, 0.0, b);
    var q := x / y;
    ShiftMul(q, y, a - b, b);
    var p := q * y;
    assert p == x;
    assert Shift(q, a - b) * Shift(y, b) == Shift(p, a);
    DivUnique(Shift(q, a - b), Shift(y, b), Shift(x, a));
  }

  // The ratio of the coefficients, shifted by the difference of the exponents
  lemma RatioShift(a: Dec, b: Dec, p: int)
    requires b.coef != 0
    ensures V(b) != 0.0
    ensures Shift(V(a) / V(b), p) == Shift(a.coef as real / b.coef as real, a.exp - b.exp + p)
  {
    hide Shift;
    ShiftDiv(a.coef as real, b.coef as real, a.exp, b.exp);
    ShiftShift(a.coef as real / b.coef as real, a.exp - b.exp, p);
  }

  lemma ScaledRatio(a: Dec, b: Dec, p: int)
    requires b.coef != 0
    ensures V(b) != 0.0
    ensures ScaledNumerator(a, b, p) as real / ScaledDenominator(a, b, p) as real
         == Shift(V(a) / V(b), p)
  {
    hide Shift, Pow10, V;
    var e := a.exp - b.exp + p;
    var ac, bc := a.coef as real, b.coef as real;
    var s := if b.coef < 0 then -1.0 else 1.0;
    RatioShift(a, b, p);
    if e < 0 {
      var t := Pow10(-e) as real;
      ShiftDown(ac / bc, -e);
      DivDiv(ac, bc, t);
      SignedDivide(s, ac, bc * t);
    } else {
      ShiftDiv(ac, bc, e, 0);
      ShiftInt(a.coef, e);
      ShiftZero(bc);
      SignedDivide(s, (a.coef * Pow10(e)) as real, bc);
    }
  }

  lemma SignedDivide(s: real, x: real, y: real)
    requires y != 0.0 && (s == 1.0 || s == -1.0)
    ensures x / y == (s * x) / (s * y)
  {
    assert x / y * y == x;
    DivUnique(x / y, s * y, s * x);
  }

  lemma DivDiv(x: real, y: real, z: real)
    requires y != 0.0 && z != 0.0
    ensures y * z != 0.0
    ensures x / y / z == x / (y * z)
  {
    var q := x / y / z;
    assert q * z == x / y;
    assert q * z * y == x;
    assert q * (y * z) == q * z * y;
    DivUnique(q, y * z, x);
  }

  // Decimal.DivRound: the quotient rounded half away from zero to p fractional digits.
  function DivRound(a: Dec, b: Dec, p: int): (r: Dec)
    requires V(b) != 0.0
    ensures r.exp == -p
    ensures V(r) == RoundTo(V(a) / V(b), p)
  {
    SignOf(b);
    DivRoundExact(a, b, p);
    Dec(QuoHalfAway(ScaledNumerator(a, b, p), ScaledDenominator(a, b, p)), -p)
  }

  lemma DivRoundExact(a: Dec, b: Dec, p: int)
    requires b.coef != 0
    ensures V(b) != 0.0
    ensures V(Dec(QuoHalfAway(ScaledNumerator(a, b, p), ScaledDenominator(a, b, p)), -p))
         == RoundTo(V(a) / V(b), p)
  {
    hide Shift, ScaledNumerator, ScaledDenominator, QuoHalfAway;
    ScaledRatio(a, b, p);
    QuoHalfAwayRounds(ScaledNumerator(a, b, p), ScaledDenominator(a, b, p));
  }

  function Div(a: Dec, b: Dec): (r: Dec)
    requires V(b) != 0.0
    ensures r.exp == -16
    ensures V(r) == RoundTo(V(a) / V(b), 16)
  {
    DivRound(a, b, DIVISION_PRECISION)
  }

  // Decimal.Round: keep one digit more than asked, add five of those units and drop the digit.
  function Round(d: Dec, places: int): (r: Dec)
    ensures r.exp == -places
    ensures V(r) == RoundTo(V(d), places)
  {
    if d.exp == -places then
      OnOwnGrid(d);
      RoundFixed(V(d), places);
      d
    else
      RoundViaDigit(d, places);
      Dec(HalfUpLastDigit(Rescale(d, -places - 1).coef), -places)
  }

  function HalfUpLastDigit(c: int): int {
    if c < 0 then -((5 - c) / 10) else (c + 5) / 10
  }

  lemma RoundViaDigit(d: Dec, p: int)
    ensures V(Dec(HalfUpLastDigit(Rescale(d, -p - 1).coef), -p)) == RoundTo(V(d), p)
  {
    hide Shift, Rescale;
    var t := Rescale(d, -p - 1);
    var y := Shift(V(d), p);
    var z := if d.coef < 0 then -y else y;
    var q := if d.coef < 0 then -t.coef else t.coef;
    var f := TruncatedTail(d, p);
    HalfUpDigit(q, z, f);
    SignOf(d);
    ShiftMono(0.0, V(d), p);
    ShiftMono(V(d), 0.0, p);
    ShiftLinear(0.0, 0.0, p);
    assert RoundInt(y) == HalfUpLastDigit(t.coef);
  }

  // Truncating to p+1 digits keeps a whole number q of tenths of units and leaves a tail f < 1.
  lemma TruncatedTail(d: Dec, p: int) returns (f: real)
    ensures var t := Rescale(d, -p - 1);
            var q := if d.coef < 0 then -t.coef else t.coef;
            var y := Shift(V(d), p);
            var z := if d.coef < 0 then -y else y;
            q >= 0 && 0.0 <= f < 1.0 && 10.0 * z == q as real + f
  {
    hide Shift, Pow10;
    var t := Rescale(d, -p - 1);
    var m := -p - 1 - d.exp;
    ShiftShift(d.coef as real, d.exp, p);
    ShiftUp(d.coef as real, d.exp + p);
    assert d.exp + p + 1 == -m;
    if m <= 0 {
      f := 0.0;
      ShiftInt(d.coef, -m);
      ShiftZero(d.coef as real);
      NonNegative(if d.coef < 0 then -d.coef else d.coef, Pow10(-m));
    } else {
      var n := if d.coef < 0 then -d.coef else d.coef;
      var b := Pow10(m);
      Quotient(n, b);
      NegateQuotient(n, b);
      ShiftDown(d.coef as real, m);
      f := n as real / b as real - (n / b) as real;
    }
  }

  lemma NonNegative(m: int, n: int)
    requires m >= 0 && n > 0
    ensures m * n >= 0
    ensures (-m) * n == -(m * n)
  {
  }

  // Rounding on the first dropped digit agrees with rounding on all of them.
  lemma HalfUpDigit(q: int, z: real, f: real)
    requires q >= 0 && 0.0 <= f < 1.0
    requires 10.0 * z == q as real + f
    ensures (q + 5) / 10 == (z + 0.5).Floor
  {
    var k, r := (q + 5) / 10, (q + 5) % 10;
    assert q + 5 == 10 * k + r;
    assert z + 0.5 - k as real < 1.0;
  }
}
