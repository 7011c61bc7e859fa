/** Amounts of money. The server stores them as .NET decimals; the form reads them from
    text with parseFloat and prints them with toFixed(2). The model keeps every amount
    exact, as a decimal fraction mantissa / 10^scale, and rounds only where the code
    rounds. */
module Money {
  import opened Strings

  /** The number mantissa / 10^scale. */
  datatype Decimal = Decimal(mantissa: int, scale: nat)

  function Pow10(n: nat): (r: int)
    ensures r >= 1
  {
    if n == 0 then 1 else 10 * Pow10(n - 1)
  }

  /** The integer nearest to num / den, a tie going away from zero: what toFixed does
      when it picks the larger of two equally near candidates for the magnitude. */
  function RoundHalfAwayFromZero(num: int, den: int): (r: int)
    requires den > 0
    ensures num >= 0 ==> r >= 0 && 2 * den * r - den <= 2 * num < 2 * den * r + den
    ensures num < 0 ==> r <= 0 && 2 * den * r - den < 2 * num <= 2 * den * r + den
  {
    if num >= 0 then (2 * num + den) / (2 * den)
    else -((2 * -num + den) / (2 * den))
  }

  /** k * a grows with a, in steps of k. */
  lemma MulStep(k: int, a: int, b: int)
    requires k > 0 && a < b
    ensures k * a + k <= k * b
  {
    var d := b - a;
    assert k * b == k * a + k * d;
    MulAtLeast(k, d);
  }

  lemma {:induction false} MulAtLeast(k: int, d: int)
    requires k > 0 && d >= 1
    ensures k * d >= k
    decreases d
  {
    if d > 1 {
      MulAtLeast(k, d - 1);
      assert k * d == k * (d - 1) + k;
    }
  }

  /** Two integers whose rounding windows, each of width 2 * den and closed at most at
      one end, both contain x are the same integer. */
  lemma RoundUnique(x: int, den: int, r: int, s: int)
    requires den > 0
    requires 2 * den * r - den <= x <= 2 * den * r + den
    requires 2 * den * s - den <= x <= 2 * den * s + den
    requires x != 2 * den * r + den || x != 2 * den * s - den
    requires x != 2 * den * s + den || x != 2 * den * r - den
    ensures r == s
  {
    if r < s {
      MulStep(2 * den, r, s);
    } else if s < r {
      MulStep(2 * den, s, r);
    }
  }

  /** Rounding keeps order: a larger fraction over the same denominator never rounds to
      a smaller integer. */
  lemma RoundMonotone(a: int, b: int, den: int)
    requires den > 0 && a <= b
    ensures RoundHalfAwayFromZero(a, den) <= RoundHalfAwayFromZero(b, den)
  {
    var ra, rb := RoundHalfAwayFromZero(a, den), RoundHalfAwayFromZero(b, den);
    if rb < ra {
      MulStep(2 * den, rb, ra);
    }
  }

  /** Euclidean division is determined by quotient and remainder. */
  lemma DivUnique(x: int, d: int, q: int, r: int)
    requires d > 0 && x == d * q + r && 0 <= r < d
    ensures x / d == q
  {
    var q' := x / d;
    assert x == d * q' + x % d;
    if q' < q {
      MulStep(d, q', q);
    } else if q < q' {
      MulStep(d, q, q');
    }
  }

  /** A common positive factor of dividend and divisor cancels. */
  lemma DivCancel(a: int, b: int, k: int)
    requires b > 0 && k > 0
    ensures (a * k) / (b * k) == a / b
  {
    var q, r := a / b, a % b;
    assert a == b * q + r;
    assert a * k == (b * k) * q + r * k;
    MulStep(k, r, b);
    assert r * k + k <= b * k;
    DivUnique(a * k, b * k, q, r * k);
  }

  /** Scaling a fraction's numerator and denominator by the same positive factor does
      not change how it rounds. */
  lemma RoundScale(num: int, den: int, k: int)
    requires den > 0 && k > 0
    ensures RoundHalfAwayFromZero(num * k, den * k) == RoundHalfAwayFromZero(num, den)
  {
    assert 2 * (den * k) == (2 * den) * k;
    if num >= 0 {
      assert 2 * (num * k) + den * k == (2 * num + den) * k;
      DivCancel(2 * num + den, 2 * den, k);
    } else {
      assert 2 * -(num * k) + den * k == (2 * -num + den) * k;
      DivCancel(2 * -num + den, 2 * den, k);
    }
  }

  /** An amount in whole cents, rounded as toFixed(2) rounds it. */
  function Cents(d: Decimal): int {
    RoundHalfAwayFromZero(d.mantissa * 100, Pow10(d.scale))
  }

  /** An amount with at most two decimals is a whole number of cents already. */
  lemma CentsExact(d: Decimal)
    requires d.scale <= 2
    ensures Cents(d) * Pow10(d.scale) == d.mantissa * 100
  {
    var p := Pow10(d.scale);
    var c := d.mantissa * Pow10(2 - d.scale);
    assert p * Pow10(2 - d.scale) == 100 by {
      if d.scale == 0 { } else if d.scale == 1 { } else { }
    }
    assert d.mantissa * 100 == c * p;
    RoundScale(c, 1, p);
    assert RoundHalfAwayFromZero(c, 1) == c;
  }

  // ---------------------------------------------------------------------------
  // Reading an amount: parseFloat

  /** The longest prefix made of digits. */
  function DigitPrefix(s: string): (r: string)
    ensures r <= s && AllDigits(r)
    ensures |r| < |s| ==> !IsDigit(s[|r|])
  {
    if s != [] && IsDigit(s[0]) then [s[0]] + DigitPrefix(s[1..]) else []
  }

  /** parseFloat on the text of an amount: leading whitespace is skipped, an optional
      sign, digits with an optional fractional part and an optional exponent part
      follow, and whatever comes after the longest such prefix is ignored; without a
      digit the result is NaN, here None. The word Infinity is not modelled. */
  function ParseAmount(s: string): (r: Option<Decimal>)
    ensures r.Some? <==> HasLeadingNumber(s)
  {
    ParseTrimmed(TrimStart(s))
  }

  lemma LeadingNumberHasDigit(s: string)
    ensures HasLeadingNumber(s) ==> exists i :: 0 <= i < |s| && IsDigit(s[i])
  {
    var t := TrimStart(s);
    var u := SplitSign(t).1;
    if StartsWithNumber(u) {
      var i := if IsDigit(u[0]) then 0 else 1;
      var k := |s| - |t| + (|t| - |u|) + i;
      assert s[k] == u[i];
    }
  }

  /** A digit, or a '.' and a digit, at the start of u. */
  predicate StartsWithNumber(u: string) {
    u != [] && (IsDigit(u[0]) || (|u| >= 2 && u[0] == '.' && IsDigit(u[1])))
  }

  /** After the leading whitespace and an optional sign, the text starts a number:
      what parseFloat needs not to give NaN. */
  predicate HasLeadingNumber(s: string) {
    StartsWithNumber(SplitSign(TrimStart(s)).1)
  }

  /** parseFloat after the leading whitespace: an optional sign, then the number. */
  function ParseTrimmed(t: string): Option<Decimal> {
    var (negative, u) := SplitSign(t);
    ApplySign(negative, ParseUnsigned(u))
  }

  /** Whether t starts with '-', and t without its leading '+' or '-'. */
  function SplitSign(t: string): (r: (bool, string))
    ensures r.0 <==> t != [] && t[0] == '-'
    ensures r.1 == if t != [] && (t[0] == '-' || t[0] == '+') then t[1..] else t
  {
    if t != [] && t[0] == '-' then (true, t[1..])
    else if t != [] && t[0] == '+' then (false, t[1..])
    else (false, t)
  }

  /** A number with its sign applied; NaN stays NaN. */
  function ApplySign(negative: bool, n: Option<Decimal>): (r: Option<Decimal>)
    ensures r.Some? <==> n.Some?
    ensures r.Some? ==> r.value.scale == n.value.scale
    ensures r.Some? ==> r.value.mantissa == if negative then -n.value.mantissa else n.value.mantissa
  {
    if negative && n.Some? then Some(Decimal(-n.value.mantissa, n.value.scale)) else n
  }

  /** Digits with an optional fractional part, then an optional exponent part; NaN
      (None) when there is no digit before the exponent. */
  function ParseUnsigned(u: string): Option<Decimal> {
    match Significand(u)
    case None => None
    case Some(r) => Some(Scaled(r.value, Exponent(r.rest)))
  }

  /** A number read from the front of a text, and the text after it. */
  datatype Read = Read(value: Decimal, rest: string)

  /** The digits before and after an optional '.', as a decimal whose scale is the
      number of digits after the '.'; None when there is no digit. */
  function Significand(u: string): (r: Option<Read>)
    ensures r.Some? ==> |r.value.rest| < |u|
    ensures r.Some? <==> StartsWithNumber(u)
  {
    var whole := DigitPrefix(u);
    var rest := u[|whole|..];
    var dotted := rest != [] && rest[0] == '.';
    var fraction := if dotted then DigitPrefix(rest[1..]) else [];
    if whole == [] && fraction == [] then None
    else Some(Read(Decimal(DigitsValue(whole + fraction), |fraction|), rest[if dotted then 1 + |fraction| else 0..]))
  }

  /** The exponent part at the start of t: 'e' or 'E', an optional sign and at least
      one digit. Without one (a bare "e" included) the exponent is 0. */
  function Exponent(t: string): (e: int)
    ensures (t == [] || (t[0] != 'e' && t[0] != 'E')) ==> e == 0
  {
    if t != [] && (t[0] == 'e' || t[0] == 'E') then
      var s := t[1..];
      var signed := s != [] && (s[0] == '+' || s[0] == '-');
      var digits := DigitPrefix(if signed then s[1..] else s);
      if digits == [] then 0
      else if signed && s[0] == '-' then 0 - DigitsValue(digits) as int
      else DigitsValue(digits)
    else 0
  }

  /** d times 10^e, exactly: a positive exponent uses up the scale first and then
      appends zeros to the mantissa, a negative one adds to the scale. */
  function Scaled(d: Decimal, e: int): (r: Decimal)
    ensures e == 0 ==> r == d
    ensures e >= 0 ==> r.scale <= d.scale
  {
    if e < 0 then Decimal(d.mantissa, d.scale + -e)
    else if e <= d.scale then Decimal(d.mantissa, d.scale - e)
    else Decimal(ShiftLeft(d.mantissa, e - d.scale), 0)
  }

  /** m with k zeros appended. */
  function ShiftLeft(m: int, k: nat): int {
    if k == 0 then m else 10 * ShiftLeft(m, k - 1)
  }

  lemma {:induction false} ShiftLeftIsProduct(m: int, k: nat)
    ensures ShiftLeft(m, k) == m * Pow10(k)
  {
    if k > 0 {
      ShiftLeftIsProduct(m, k - 1);
      assert 10 * (m * Pow10(k - 1)) == m * (10 * Pow10(k - 1));
    }
  }

  lemma {:induction false} Pow10Add(a: nat, b: nat)
    ensures Pow10(a + b) == Pow10(a) * Pow10(b)
  {
    if a > 0 {
      Pow10Add(a - 1, b);
      assert Pow10(a + b) == 10 * Pow10(a - 1 + b);
    }
  }

  /** Scaling keeps the value: r = d * 10^e, written with the scales cleared. */
  lemma ScaledValue(d: Decimal, e: int)
    ensures var r := Scaled(d, e);
      if e >= 0 then r.mantissa * Pow10(d.scale) == d.mantissa * Pow10(e) * Pow10(r.scale)
      else r.mantissa * Pow10(d.scale) * Pow10(-e) == d.mantissa * Pow10(r.scale)
  {
    if e < 0 {
      ScaledDown(d.mantissa, d.scale, -e);
    } else if e <= d.scale {
      ScaledWithinScale(d.mantissa, d.scale - e, e);
    } else {
      ScaledBeyondScale(d.mantissa, d.scale, e - d.scale);
    }
  }

  lemma ScaledDown(m: int, s: nat, k: nat)
    ensures m * Pow10(s) * Pow10(k) == m * Pow10(s + k)
  {
    Pow10Add(s, k);
    assert m * Pow10(s) * Pow10(k) == m * (Pow10(s) * Pow10(k));
  }

  lemma ScaledWithinScale(m: int, s: nat, e: nat)
    ensures m * Pow10(s + e) == m * Pow10(e) * Pow10(s)
  {
    Pow10Add(s, e);
    assert m * Pow10(e) * Pow10(s) == m * (Pow10(s) * Pow10(e));
  }

  lemma ScaledBeyondScale(m: int, s: nat, k: nat)
    ensures ShiftLeft(m, k) * Pow10(s) == m * Pow10(s + k) * Pow10(0)
  {
    ShiftLeftIsProduct(m, k);
    Pow10Add(k, s);
    assert m * Pow10(k) * Pow10(s) == m * (Pow10(k) * Pow10(s));
  }

  /** The number input accepts exponent notation, which parseFloat reads: "1e3" is a
      thousand, "2.5E-1" a quarter, and a bare "e" is ignored. */
  lemma ExponentExamples()
    ensures ParseAmount("1e3") == Some(Decimal(1000, 0))
    ensures ParseAmount("2.5E-1") == Some(Decimal(25, 2))
    ensures ParseAmount("7e") == Some(Decimal(7, 0))
  {
    ThousandText();
    QuarterText();
    BareE();
  }

  lemma ThousandText()
    ensures ParseAmount("1e3") == Some(Decimal(1000, 0))
  {
    var t := "1e3";
    TrimStartNoSpace(t);
    assert ParseTrimmed(t) == ParseUnsigned(t);
    WholeThenTail("1", "e3");
    assert "1" + "e3" == t;
    assert DigitsValue("1") == 1 by { assert "1"[..0] == []; }
    assert "1" + [] == "1";
    WholeThenTail("3", "");
    assert "3" + "" == "3";
    assert DigitsValue("3") == 3 by { assert "3"[..0] == []; }
    assert Exponent("e3") == 3 by { assert "e3"[1..] == "3"; }
    assert Pow10(3) == 1000;
  }

  lemma QuarterText()
    ensures ParseAmount("2.5E-1") == Some(Decimal(25, 2))
  {
    var t := "2.5E-1";
    TrimStartNoSpace(t);
    assert ParseTrimmed(t) == ParseUnsigned(t);
    QuarterSignificand();
    MinusOneExponent();
  }

  lemma MinusOneExponent()
    ensures Exponent("E-1") == -1
  {
    assert "E-1"[1..] == "-1" && "-1"[1..] == "1";
    WholeThenTail("1", "");
    assert "1" + "" == "1";
    assert DigitsValue("1") == 1 by { assert "1"[..0] == []; }
  }

  lemma QuarterSignificand()
    ensures Significand("2.5E-1") == Some(Read(Decimal(25, 1), "E-1"))
  {
    var t := "2.5E-1";
    WholeThenTail("2", ".5E-1");
    assert "2" + ".5E-1" == t;
    WholeThenTail("5", "E-1");
    assert ".5E-1"[1..] == "5" + "E-1";
    assert ".5E-1"[2..] == "E-1";
    DigitsValueAppend1("2", '5');
    assert "2" + ['5'] == "2" + "5" == "25";
    assert DigitsValue("2") == 2 by { assert "2"[..0] == []; }
  }

  lemma BareE()
    ensures ParseAmount("7e") == Some(Decimal(7, 0))
  {
    var t := "7e";
    TrimStartNoSpace(t);
    assert ParseTrimmed(t) == ParseUnsigned(t);
    SevenSignificand();
    assert Exponent("e") == 0 by { assert "e"[1..] == []; }
  }

  lemma SevenSignificand()
    ensures Significand("7e") == Some(Read(Decimal(7, 0), "e"))
  {
    WholeThenTail("7", "e");
    assert "7" + "e" == "7e";
    assert "7" + [] == "7";
    assert DigitsValue("7") == 7 by { assert "7"[..0] == []; }
  }


  /** `parseFloat(text) || 0`: an unreadable amount becomes zero, a readable one is
      kept, and the text toFixed(2) prints for an amount is read back as that amount. */
  function AmountOrZero(s: string): (r: Decimal)
    ensures !HasLeadingNumber(s) ==> r == Decimal(0, 0)
    ensures HasLeadingNumber(s) ==> Some(r) == ParseAmount(s)
    ensures forall cents :: s == ToFixed2(cents) ==> r == Decimal(cents, 2)
  {
    ParseToFixed2All();
    ParseAmount(s).GetOr(Decimal(0, 0))
  }

  // ---------------------------------------------------------------------------
  // Printing an amount: toFixed(2)

  /** The text toFixed(2) prints for a whole number of cents. */
  function ToFixed2(cents: int): (r: string)
    ensures |r| >= 4
    ensures r[0] == '-' <==> cents < 0
    ensures r[|r| - 3] == '.' && IsDigit(r[|r| - 2]) && IsDigit(r[|r| - 1])
  {
    var m := if cents < 0 then -cents else cents;
    NatToStringDigits(m / 100);
    DigitCharValue(m % 100 / 10);
    DigitCharValue(m % 10);
    assert IsDigit(NatToString(m / 100)[0]);
    (if cents < 0 then "-" else "") + FixedDigits(m)
  }

  /** The digits of a non-negative number of cents, with two decimals. */
  function FixedDigits(m: nat): string {
    NatToString(m / 100) + "." + [DigitChar(m % 100 / 10), DigitChar(m % 10)]
  }

  lemma {:induction false} DigitPrefixAppend(a: string, b: string)
    requires AllDigits(a)
    ensures DigitPrefix(a + b) == a + DigitPrefix(b)
  {
    if a != [] {
      assert (a + b)[0] == a[0] && IsDigit(a[0]);
      assert (a + b)[1..] == a[1..] + b;
      assert DigitPrefix(a + b) == [a[0]] + DigitPrefix(a[1..] + b);
      DigitPrefixAppend(a[1..], b);
      assert [a[0]] + a[1..] == a;
      assert [a[0]] + (a[1..] + DigitPrefix(b)) == ([a[0]] + a[1..]) + DigitPrefix(b);
    } else {
      assert a + b == b;
    }
  }

  lemma DigitsValueAppend2(a: string, x: char, y: char)
    requires AllDigits(a) && IsDigit(x) && IsDigit(y)
    ensures AllDigits(a + [x, y])
    ensures DigitsValue(a + [x, y]) == DigitsValue(a) * 100 + DigitValue(x) * 10 + DigitValue(y)
  {
    assert (a + [x, y])[..|a| + 1] == a + [x];
    assert (a + [x])[..|a|] == a;
  }

  /** Digits, optionally a '.' and more digits, and nothing after: the number is read
      as it is written, with no exponent. */
  lemma ReadPlain(whole: string, fraction: string, dotted: bool)
    requires AllDigits(whole) && AllDigits(fraction) && (whole != [] || fraction != [])
    requires !dotted ==> fraction == []
    ensures AllDigits(whole + fraction)
    ensures ParseUnsigned(whole + (if dotted then "." + fraction else ""))
      == Some(Decimal(DigitsValue(whole + fraction), |fraction|))
  {
    var tail := if dotted then "." + fraction else "";
    var u := whole + tail;
    WholeThenTail(whole, tail);
    assert AllDigits(whole + fraction) by {
      forall i | 0 <= i < |whole + fraction| ensures IsDigit((whole + fraction)[i]) {
        if i >= |whole| { assert (whole + fraction)[i] == fraction[i - |whole|]; }
      }
    }
    if dotted {
      WholeThenTail(fraction, "");
      assert tail[1..] == fraction + "";
      assert tail[1 + |fraction|..] == [];
    } else {
      assert whole + [] == whole;
    }
    assert Significand(u) == Some(Read(Decimal(DigitsValue(whole + fraction), |fraction|), []));
  }

  lemma ParseFixedDigits(m: nat)
    ensures ParseUnsigned(FixedDigits(m)) == Some(Decimal(m, 2))
  {
    var whole := NatToString(m / 100);
    var d1, d2 := DigitChar(m % 100 / 10), DigitChar(m % 10);
    NatToStringDigits(m / 100);
    DigitCharValue(m % 100 / 10);
    DigitCharValue(m % 10);
    assert FixedDigits(m) == whole + ("." + [d1, d2]);
    assert AllDigits([d1, d2]);
    ReadPlain(whole, [d1, d2], true);
    FixedValue(m);
  }

  /** The digits FixedDigits prints, without the '.', spell m. */
  lemma FixedValue(m: nat)
    ensures var digits := NatToString(m / 100) + [DigitChar(m % 100 / 10), DigitChar(m % 10)];
      AllDigits(digits) && DigitsValue(digits) == m
  {
    var whole := NatToString(m / 100);
    var d1, d2 := DigitChar(m % 100 / 10), DigitChar(m % 10);
    NatToStringDigits(m / 100);
    DigitCharValue(m % 100 / 10);
    DigitCharValue(m % 10);
    DigitsValueAppend2(whole, d1, d2);
    CentDigits(m);
  }

  /** Reading back what toFixed(2) printed gives the same number of cents: the round trip
      the edit screen makes when it puts a stored amount back into the text field. */
  lemma ParseToFixed2(cents: int)
    ensures ParseAmount(ToFixed2(cents)) == Some(Decimal(cents, 2))
  {
    var m := if cents < 0 then -cents else cents;
    var body := FixedDigits(m);
    ParseFixedDigits(m);
    NatToStringDigits(m / 100);
    assert body[0] == NatToString(m / 100)[0];
    ParseSigned(cents < 0, body);
  }

  lemma ParseToFixed2All()
    ensures forall cents :: ParseAmount(ToFixed2(cents)) == Some(Decimal(cents, 2))
  {
    forall cents ensures ParseAmount(ToFixed2(cents)) == Some(Decimal(cents, 2)) {
      ParseToFixed2(cents);
    }
  }

  /** Leading whitespace does not change what parseFloat reads. */
  lemma ParseAmountSkipsSpace(c: char, s: string)
    requires IsJsSpace(c)
    ensures ParseAmount([c] + s) == ParseAmount(s)
  {
    assert ([c] + s)[1..] == s;
  }

  // ---------------------------------------------------------------------------
  // Printing an amount: Number.prototype.toString

  /** The text `amount.toString()` prints for a JSON number holding a whole number of
      cents: no trailing zeros in the fraction, and no '.' when there is no fraction. */
  function NumberText(cents: int): (r: string)
    ensures |r| >= 1
  {
    (if cents < 0 then "-" else "") + NumberDigits(if cents < 0 then -cents else cents)
  }

  function NumberDigits(m: nat): string {
    NatToString(m / 100)
    + (if m % 100 == 0 then ""
       else if m % 10 == 0 then "." + [DigitChar(m % 100 / 10)]
       else "." + [DigitChar(m % 100 / 10), DigitChar(m % 10)])
  }

  lemma DigitsValueAppend1(a: string, x: char)
    requires AllDigits(a) && IsDigit(x)
    ensures AllDigits(a + [x])
    ensures DigitsValue(a + [x]) == DigitsValue(a) * 10 + DigitValue(x)
  {
    assert (a + [x])[..|a|] == a;
  }

  /** The number NumberDigits prints, in cents. */
  lemma ParseNumberDigits(m: nat)
    ensures ParseUnsigned(NumberDigits(m)).Some?
    ensures Cents(ParseUnsigned(NumberDigits(m)).value) == m
  {
    CentDigits(m);
    if m % 100 == 0 {
      WholeNumberCents(m);
    } else if m % 10 == 0 {
      OneDecimalCents(m);
    } else {
      TwoDecimalsCents(m);
    }
  }

  lemma WholeNumberCents(m: nat)
    requires m % 100 == 0 && m == 100 * (m / 100)
    ensures ParseUnsigned(NumberDigits(m)).Some? && Cents(ParseUnsigned(NumberDigits(m)).value) == m
  {
    ParseWholeNumber(m);
    CentsExact(Decimal(m / 100, 0));
  }

  lemma OneDecimalCents(m: nat)
    requires m % 100 != 0 && m % 10 == 0 && m == 100 * (m / 100) + 10 * (m % 100 / 10)
    ensures ParseUnsigned(NumberDigits(m)).Some? && Cents(ParseUnsigned(NumberDigits(m)).value) == m
  {
    var q, t := m / 100, m % 100 / 10;
    ParseOneDecimal(m);
    CentsExact(Decimal(q * 10 + t, 1));
    assert (q * 10 + t) * 100 == (100 * q + 10 * t) * 10;
  }

  lemma TwoDecimalsCents(m: nat)
    requires m % 100 != 0 && m % 10 != 0
    ensures ParseUnsigned(NumberDigits(m)).Some? && Cents(ParseUnsigned(NumberDigits(m)).value) == m
  {
    assert NumberDigits(m) == FixedDigits(m);
    ParseFixedDigits(m);
    TwoDecimalsAreCents(m);
  }

  lemma TwoDecimalsAreCents(m: int)
    ensures Cents(Decimal(m, 2)) == m
  {
    CentsExact(Decimal(m, 2));
    assert Pow10(2) == 100;
  }

  /** The last two digits of m: m is 100 q + 10 t + u, and its last two digits are both
      zero exactly when m is a multiple of 100. */
  lemma CentDigits(m: nat)
    ensures m == 100 * (m / 100) + 10 * (m % 100 / 10) + m % 10
    ensures m % 10 == m % 100 % 10
    ensures m % 100 == 0 <==> m % 100 / 10 == 0 && m % 10 == 0
  {
    var q, r := m / 100, m % 100;
    assert m == 100 * q + r;
    assert r == 10 * (r / 10) + r % 10;
    assert m == 10 * (10 * q + r / 10) + r % 10;
    DivUnique(m, 10, 10 * q + r / 10, r % 10);
  }

  /** Digits, then text that does not start with a digit: the digits are the whole
      part and the rest follows them. */
  lemma WholeThenTail(whole: string, tail: string)
    requires AllDigits(whole) && (tail != [] ==> !IsDigit(tail[0]))
    ensures DigitPrefix(whole + tail) == whole && (whole + tail)[|whole|..] == tail
  {
    DigitPrefixAppend(whole, tail);
  }

  lemma ParseWholeNumber(m: nat)
    requires m % 100 == 0
    ensures ParseUnsigned(NumberDigits(m)) == Some(Decimal(m / 100, 0))
  {
    var whole := NatToString(m / 100);
    NatToStringDigits(m / 100);
    assert NumberDigits(m) == whole + "";
    ReadPlain(whole, [], false);
    assert whole + [] == whole;
  }

  lemma ParseOneDecimal(m: nat)
    requires m % 100 != 0 && m % 10 == 0
    ensures ParseUnsigned(NumberDigits(m)) == Some(Decimal(m / 100 * 10 + m % 100 / 10, 1))
  {
    var whole := NatToString(m / 100);
    NatToStringDigits(m / 100);
    DigitCharValue(m % 100 / 10);
    var d1 := DigitChar(m % 100 / 10);
    OneDecimalText(m);
    ReadPlain(whole, [d1], true);
    OneDecimalValue(m);
  }

  lemma OneDecimalText(m: nat)
    requires m % 100 != 0 && m % 10 == 0
    ensures NumberDigits(m) == NatToString(m / 100) + ("." + [DigitChar(m % 100 / 10)])
  {
  }

  lemma OneDecimalValue(m: nat)
    ensures var digits := NatToString(m / 100) + [DigitChar(m % 100 / 10)];
      AllDigits(digits) && DigitsValue(digits) == m / 100 * 10 + m % 100 / 10
  {
    NatToStringDigits(m / 100);
    DigitCharValue(m % 100 / 10);
    DigitsValueAppend1(NatToString(m / 100), DigitChar(m % 100 / 10));
  }

  /** parseFloat reads back the number toString printed: the round trip the edit
      screen makes when it puts a stored amount into its text field. */
  lemma ParseNumberText(cents: int)
    ensures ParseAmount(NumberText(cents)).Some?
    ensures Cents(ParseAmount(NumberText(cents)).value) == cents
  {
    var m := if cents < 0 then -cents else cents;
    ParseNumberDigits(m);
    NumberDigitsStart(m);
    SignedRoundTrip(cents < 0, NumberDigits(m), m);
  }

  /** A sign in front of digits that read as m cents reads as -m cents. */
  lemma SignedRoundTrip(negative: bool, body: string, m: int)
    requires body != [] && IsDigit(body[0])
    requires ParseUnsigned(body).Some? && Cents(ParseUnsigned(body).value) == m
    ensures ParseAmount((if negative then "-" else "") + body).Some?
    ensures Cents(ParseAmount((if negative then "-" else "") + body).value) == if negative then -m else m
  {
    var d := ParseUnsigned(body).value;
    ParseSigned(negative, body);
    SignedCents(negative, d);
  }

  lemma SignedCents(negative: bool, d: Decimal)
    ensures Cents(ApplySign(negative, Some(d)).value) == if negative then -Cents(d) else Cents(d)
  {
    if negative {
      CentsNegate(d);
    }
  }

  lemma NumberDigitsStart(m: nat)
    ensures NumberDigits(m) != [] && IsDigit(NumberDigits(m)[0])
  {
    var whole := NatToString(m / 100);
    NatToStringDigits(m / 100);
    var tail := if m % 100 == 0 then "" else if m % 10 == 0 then "." + [DigitChar(m % 100 / 10)]
      else "." + [DigitChar(m % 100 / 10), DigitChar(m % 10)];
    assert NumberDigits(m) == whole + tail;
    assert (whole + tail)[0] == whole[0];
  }

  /** A whole number as its decimal digits is read back as itself. */
  lemma ParseWhole(n: nat)
    ensures ParseAmount(NatToString(n)) == Some(Decimal(n, 0))
  {
    var t := NatToString(n);
    NatToStringDigits(n);
    assert ParseUnsigned(t) == Some(Decimal(n, 0)) by {
      ReadPlain(t, [], false);
      assert t + [] == t;
    }
    assert ParseAmount(t) == ApplySign(false, ParseUnsigned(t)) by {
      ParseSigned(false, t);
      assert "" + t == t;
    }
  }

  /** Text that starts with a digit, after an optional '-': the sign negates what the
      digits say. */
  lemma ParseSigned(negative: bool, body: string)
    requires body != [] && IsDigit(body[0])
    ensures ParseAmount((if negative then "-" else "") + body) == ApplySign(negative, ParseUnsigned(body))
  {
    var t := (if negative then "-" else "") + body;
    TrimStartNoSpace(t);
    if negative {
      assert t[1..] == body;
    } else {
      assert t == body;
    }
    assert SplitSign(t) == (negative, body);
  }

  /** Rounding to cents is symmetric about zero. */
  lemma CentsNegate(d: Decimal)
    ensures Cents(Decimal(-d.mantissa, d.scale)) == -Cents(d)
  {
    var p := Pow10(d.scale);
    if d.mantissa > 0 {
      assert -d.mantissa * 100 == -(d.mantissa * 100);
    } else if d.mantissa < 0 {
      assert -d.mantissa * 100 == -(d.mantissa * 100);
    }
  }
}
