/** Decimal.String, Decimal.StringFixed and NewFromString (without scientific notation), digit by
    digit, and the round trips between them. */
module DecimalText {

  import opened Decimals
  import opened Options

  // ---------- digit strings ----------

  predicate AllDigits(s: string) {
    forall i :: 0 <= i < |s| ==> '0' <= s[i] <= '9'
  }

  function DigitChar(d: nat): (c: char)
    requires d < 10
    ensures '0' <= c <= '9'
    ensures c as int - '0' as int == d
  {
    '0' + d as char
  }

  // big.Int.String of a non-negative integer
  function Digits(n: nat): (s: string)
    ensures |s| > 0 && AllDigits(s)
  {
    if n < 10 then [DigitChar(n)] else Digits(n / 10) + [DigitChar(n % 10)]
  }

  // The integer a digit string denotes; "" denotes 0.
  function Number(s: string): (n: int)
    requires AllDigits(s)
    ensures n >= 0
  {
    if s == [] then 0
    else 10 * Number(s[..|s| - 1]) + (s[|s| - 1] as int - '0' as int)
  }

  function Zeros(k: nat): (s: string)
    ensures |s| == k && AllDigits(s)
    ensures forall i :: 0 <= i < k ==> s[i] == '0'
  {
    seq(k, i => '0')
  }

  lemma {:induction false} NumberDigits(n: nat)
    ensures Number(Digits(n)) == n
  {
    var s := Digits(n);
    if n >= 10 {
      assert s[..|s| - 1] == Digits(n / 10);
      NumberDigits(n / 10);
    }
  }

  lemma DigitsConcat(a: string, b: string)
    requires AllDigits(a) && AllDigits(b)
    ensures AllDigits(a + b)
  {
  }

  lemma PowTimes(n: int, k: nat)
    ensures n * Pow10(k + 1) == 10 * (n * Pow10(k))
    ensures n * Pow10(0) == n
  {
  }

  lemma {:induction false} NumberConcat(a: string, b: string)
    requires AllDigits(a) && AllDigits(b)
    ensures AllDigits(a + b)
    ensures Number(a + b) == Number(a) * Pow10(|b|) + Number(b)
    decreases |b|
  {
    hide Pow10;
    DigitsConcat(a, b);
    var s := a + b;
    PowTimes(Number(a), if b == [] then 0 else |b| - 1);
    if b == [] {
      assert s == a;
    } else {
      assert s[..|s| - 1] == a + b[..|b| - 1];
      NumberConcat(a, b[..|b| - 1]);
    }
  }

  lemma {:induction false} NumberZeros(k: nat)
    ensures Number(Zeros(k)) == 0
  {
    if k > 0 {
      assert Zeros(k)[..k - 1] == Zeros(k - 1);
      NumberZeros(k - 1);
    }
  }

  // strings.TrimRight(s, "0")
  function TrimRightZeros(s: string): (t: string)
    ensures |t| <= |s| && s == t + Zeros(|s| - |t|)
    ensures AllDigits(s) ==> AllDigits(t)
  {
    if s != [] && s[|s| - 1] == '0' then
      var t := TrimRightZeros(s[..|s| - 1]);
      OneMoreZero(s, t);
      t
    else s
  }

  lemma OneMoreZero(s: string, t: string)
    requires s != "" && s[|s| - 1] == '0' && |t| < |s|
    requires s[..|s| - 1] == t + Zeros(|s| - 1 - |t|)
    ensures s == t + Zeros(|s| - |t|)
  {
    var z := t + Zeros(|s| - |t|);
    forall i | 0 <= i < |s| ensures s[i] == z[i] {
      if i < |s| - 1 {
        assert s[i] == s[..|s| - 1][i];
      }
    }
  }

  // strings.Index(s, string(c))
  function IndexOf(s: string, c: char): (i: int)
    ensures -1 <= i < |s|
    ensures i >= 0 ==> s[i] == c && c !in s[..i]
    ensures i < 0 <==> c !in s
  {
    if s == [] then -1
    else if s[0] == c then 0
    else
      var i := IndexOf(s[1..], c);
      assert s == [s[0]] + s[1..];
      assert i >= 0 ==> s[..i + 1] == [s[0]] + s[1..][..i];
      if i < 0 then -1 else i + 1
  }

  // ---------- printing ----------

  function Abs(k: int): (n: int)
    ensures n >= 0
  {
    if k < 0 then -k else k
  }

  function Sign(k: int): string {
    if k < 0 then "-" else ""
  }

  // Integer and fractional digits of |coef| * 10^-k, k > 0
  function Split(coef: int, k: nat): (parts: (string, string))
    ensures |parts.0| > 0 && |parts.1| == k
    ensures AllDigits(parts.0) && AllDigits(parts.1)
  {
    var str := Digits(Abs(coef));
    if |str| > k then (str[..|str| - k], str[|str| - k..])
    else ("0", Zeros(k - |str|) + str)
  }

  function Join(intPart: string, fraction: string): string {
    if fraction == "" then intPart else intPart + "." + fraction
  }

  // Decimal.string(trimTrailingZeros)
  function Text(d: Dec, trim: bool): string {
    if d.exp >= 0 then Sign(d.coef) + Digits(Abs(d.coef) * Pow10(d.exp))
    else
      var (intPart, fraction) := Split(d.coef, -d.exp);
      Sign(d.coef) + Join(intPart, if trim then TrimRightZeros(fraction) else fraction)
  }

  function ToString(d: Dec): string {
    Text(d, true)
  }

  function StringFixed(d: Dec, places: nat): string {
    Text(Round(d, places), false)
  }

  // ---------- parsing ----------

  function ParseInt(s: string): Option<int> {
    var negative := s != "" && s[0] == '-';
    var digits := if s != "" && (s[0] == '-' || s[0] == '+') then s[1..] else s;
    if digits == "" || !AllDigits(digits) then None
    else Some(if negative then -Number(digits) else Number(digits))
  }

  function Parse(s: string): Option<Dec> {
    var dot := IndexOf(s, '.');
    if dot < 0 then
      match ParseInt(s)
      case None => None
      case Some(k) => Some(Dec(k, 0))
    else if '.' in s[dot + 1..] then None
    else
      match ParseInt(s[..dot] + s[dot + 1..])
      case None => None
      case Some(k) => Some(Dec(k, -|s[dot + 1..]|))
  }

  // ---------- round trips ----------

  lemma DigitsHaveNoDot(s: string)
    requires AllDigits(s)
    ensures '.' !in s
  {
  }

  lemma ParseSigned(k: int, digits: string)
    requires digits != "" && AllDigits(digits)
    ensures ParseInt(Sign(k) + digits) == Some(Signed(k, Number(digits)))
  {
    var s := Sign(k) + digits;
    if k < 0 {
      assert s[1..] == digits;
    } else {
      assert s == digits;
    }
  }

  lemma IndexOfIs(head: string, c: char, tail: string)
    requires c !in head
    ensures IndexOf(head + [c] + tail, c) == |head|
  {
    var s := head + [c] + tail;
    assert s[|head|] == c;
    assert forall i :: 0 <= i < |head| ==> s[i] == head[i];
  }

  function Signed(k: int, n: int): int {
    if k < 0 then -n else n
  }

  lemma ParseJoined(k: int, intPart: string, fraction: string)
    requires intPart != "" && AllDigits(intPart) && AllDigits(fraction)
    ensures AllDigits(intPart + fraction)
    ensures Parse(Sign(k) + Join(intPart, fraction))
         == Some(Dec(Signed(k, Number(intPart + fraction)), -|fraction|))
  {
    hide Number, ParseInt, AllDigits, Signed, Parse;
    DigitsConcat(intPart, fraction);
    DigitsHaveNoDot(intPart);
    DigitsHaveNoDot(fraction);
    ParseSigned(k, intPart + fraction);
    var head := Sign(k) + intPart;
    assert '.' !in head;
    assert head + fraction == Sign(k) + (intPart + fraction);
    if fraction == "" {
      assert intPart + fraction == intPart;
      ParseWithoutDot(head);
    } else {
      ParseAtDot(head, fraction);
      assert Sign(k) + Join(intPart, fraction) == head + ['.'] + fraction;
    }
  }

  lemma ParseWithoutDot(head: string)
    requires '.' !in head
    ensures Parse(head) == match ParseInt(head) case None => None case Some(k) => Some(Dec(k, 0))
  {
    hide ParseInt;
  }

  lemma ParseAtDot(head: string, fraction: string)
    requires '.' !in head && '.' !in fraction
    ensures Parse(head + ['.'] + fraction) ==
              match ParseInt(head + fraction)
              case None => None
              case Some(k) => Some(Dec(k, -|fraction|))
  {
    hide ParseInt;
    var s := head + ['.'] + fraction;
    IndexOfIs(head, '.', fraction);
    assert s[..|head|] == head && s[|head| + 1..] == fraction;
  }

  lemma SplitNumber(coef: int, k: nat)
    ensures var (i, f) := Split(coef, k); AllDigits(i + f) && Number(i + f) == Abs(coef)
  {
    hide Pow10, Number, Digits;
    var str := Digits(Abs(coef));
    var (i, f) := Split(coef, k);
    NumberDigits(Abs(coef));
    if |str| > k {
      assert i + f == str;
    } else {
      var zeros := Zeros(k - |str| + 1);
      NumberZeros(k - |str| + 1);
      assert i + f == zeros + str;
      NumberConcat(zeros, str);
    }
  }

  // Fixed-point text of a decimal with no positive exponent parses back to the same representation.
  lemma FixedTextParses(d: Dec)
    requires d.exp <= 0
    ensures Parse(Text(d, false)) == Some(d)
  {
    hide Pow10, Number, Digits, Parse, Split;
    if d.exp == 0 {
      var n := Abs(d.coef);
      var digits := Digits(n);
      NumberDigits(n);
      PowTimes(n, 0);
      ParseJoined(d.coef, digits, "");
      assert digits + "" == digits;
    } else {
      var (i, f) := Split(d.coef, -d.exp);
      SplitNumber(d.coef, -d.exp);
      ParseJoined(d.coef, i, f);
    }
  }

  // StringFixed(places) parses back to exactly Round(places).
  lemma StringFixedParses(d: Dec, places: nat)
    ensures Parse(StringFixed(d, places)) == Some(Round(d, places))
  {
    FixedTextParses(Round(d, places));
  }

  // String() parses back to the same number, with as many fractional digits as the text shows.
  lemma StringParses(d: Dec)
    ensures var p := Parse(ToString(d)); p.Some? && V(p.value) == V(d)
  {
    hide V, Pow10, Number, Digits, Parse, Split, TrimRightZeros;
    if d.exp >= 0 {
      var n := Abs(d.coef) * Pow10(d.exp);
      NonNegative(Abs(d.coef), Pow10(d.exp));
      NumberDigits(n);
      ParseJoined(d.coef, Digits(n), "");
      assert Digits(n) + "" == Digits(n);
      RescaleDownExact(d, 0);
    } else {
      var (i, f) := Split(d.coef, -d.exp);
      SplitNumber(d.coef, -d.exp);
      var t := TrimRightZeros(f);
      var j := |f| - |t|;
      ParseJoined(d.coef, i, t);
      NumberZeros(j);
      NumberConcat(i + t, Zeros(j));
      assert i + f == i + t + Zeros(j);
      var p := Dec(Signed(d.coef, Number(i + t)), -|t|);
      assert Parse(ToString(d)) == Some(p);
      NonNegative(Number(i + t), Pow10(j));
      assert p.coef * Pow10(j) == d.coef;
      RescaleDownExact(p, d.exp);
    }
  }

  // Different numbers print differently.
  lemma ToStringInjective(a: Dec, b: Dec)
    requires ToString(a) == ToString(b)
    ensures V(a) == V(b)
  {
    hide V;
    StringParses(a);
    StringParses(b);
  }

  // ---------- one text for each number ----------

  lemma TrimOneZero(s: string)
    ensures TrimRightZeros(s + "0") == TrimRightZeros(s)
  {
    assert (s + "0")[..|s|] == s;
  }

  lemma DigitsTimesTen(n: nat)
    requires n > 0
    ensures Digits(10 * n) == Digits(n) + "0"
  {
  }

  lemma ScaledSplit(c: int, k: nat)
    ensures var (i, f) := Split(10 * c, k + 1);
            if k == 0 then (i, f) == (Digits(Abs(c)), "0") else (i, f) == (Split(c, k).0, Split(c, k).1 + "0")
  {
    hide Digits;
    assert Abs(10 * c) == 10 * Abs(c);
    if c == 0 {
      DigitsOfZero();
      assert Zeros(k) + "0" == if k == 0 then "0" else Zeros(k - 1) + "0" + "0";
    } else {
      DigitsTimesTen(Abs(c));
      var str := Digits(Abs(c));
      if |str| > k {
        assert (str + "0")[..|str| - k] == str[..|str| - k];
        assert (str + "0")[|str| - k..] == str[|str| - k..] + "0";
      } else {
        assert Zeros(k - |str|) + (str + "0") == Zeros(k - |str|) + str + "0";
      }
    }
  }

  lemma DigitsOfZero()
    ensures Digits(0) == "0"
  {
  }

  // One more zero in the coefficient is one more zero in the fraction, which is trimmed away.
  lemma TextOfScaled(c: int, e: int)
    ensures ToString(Dec(10 * c, e - 1)) == ToString(Dec(c, e))
  {
    hide Digits, Pow10, Split, TrimRightZeros;
    assert Abs(10 * c) == 10 * Abs(c);
    if e > 0 {
      PowTimes(Abs(c), e - 1);
      TenTimes(Abs(c), Pow10(e - 1));
    } else {
      ScaledSplit(c, -e);
      TrimOneZero(if e == 0 then "" else Split(c, -e).1);
      TrimNothing();
      PowTimes(Abs(c), 0);
      assert "" + "0" == "0";
    }
  }

  lemma TenTimes(n: int, p: int)
    ensures 10 * n * p == 10 * (n * p)
  {
  }

  lemma TrimNothing()
    ensures TrimRightZeros("") == ""
  {
  }

  lemma {:induction false} TextOfRescaled(d: Dec, e: int)
    requires e <= d.exp
    ensures ToString(Dec(d.coef * Pow10(d.exp - e), e)) == ToString(d)
    decreases d.exp - e
  {
    hide Pow10, ToString;
    if e == d.exp {
      PowTimes(d.coef, 0);
    } else {
      TextOfRescaled(d, e + 1);
      PowTimes(d.coef, d.exp - e - 1);
      TextOfScaled(d.coef * Pow10(d.exp - (e + 1)), e + 1);
    }
  }

  // Two decimals print alike exactly when they denote the same number.
  lemma ToStringIffSameNumber(a: Dec, b: Dec)
    ensures ToString(a) == ToString(b) <==> V(a) == V(b)
  {
    hide V, ToString, Pow10;
    var e := if a.exp <= b.exp then a.exp else b.exp;
    TextOfRescaled(a, e);
    TextOfRescaled(b, e);
    RescaleDownExact(a, e);
    RescaleDownExact(b, e);
    SameExp(Dec(a.coef * Pow10(a.exp - e), e), Dec(b.coef * Pow10(b.exp - e), e));
    if ToString(a) == ToString(b) {
      ToStringInjective(a, b);
    }
  }

  // ---------- layout ----------

  // A fixed-point text has exactly the given number of digits behind its point.
  lemma FixedLayout(d: Dec, places: nat)
    ensures var text := StringFixed(d, places);
            if places == 0 then '.' !in text
            else |text| > places + 1 && text[|text| - places - 1] == '.' && AllDigits(text[|text| - places..])
  {
    hide Pow10, Digits, Split;
    var r := Round(d, places);
    if places == 0 {
      DigitsHaveNoDot(Digits(Abs(r.coef) * Pow10(0)));
    } else {
      var (whole, fraction) := Split(r.coef, places);
      var text := Sign(r.coef) + whole + ['.'] + fraction;
      assert StringFixed(d, places) == text;
      assert text[|text| - places..] == fraction;
    }
  }

  // The shortest text has no zero at the end of its fraction.
  lemma ShortestLayout(d: Dec)
    ensures var text := ToString(d); '.' in text ==> text[|text| - 1] != '0' && text[|text| - 1] != '.'
  {
    hide Pow10, Digits, Split, TrimRightZeros;
    if d.exp >= 0 {
      DigitsHaveNoDot(Digits(Abs(d.coef) * Pow10(d.exp)));
    } else {
      var (whole, fraction) := Split(d.coef, -d.exp);
      DigitsHaveNoDot(whole);
      TrimmedEnd(fraction);
      DigitsHaveNoDot(TrimRightZeros(fraction));
    }
  }

  lemma {:induction false} TrimmedEnd(s: string)
    ensures var t := TrimRightZeros(s); t != "" ==> t[|t| - 1] != '0'
    decreases |s|
  {
    if s != "" && s[|s| - 1] == '0' {
      TrimmedEnd(s[..|s| - 1]);
    }
  }
}
