/** Six-decimal number text, on whole millionths: printed with std::fixed, stripped of trailing zeros and
    of a bare dot. */
module NumberFormat {
  import opened Text
  import Decimal

  const MILLION := 1000000

  /** A Lua number: not finite, or a whole number of millionths. */
  datatype Number = NonFinite | Millionths(m: int)

  function Abs(m: int): nat {
    if m < 0 then -m else m
  }

  /** The last k decimal digits of n, leading zeros included. */
  function Padded(n: nat, k: nat): (s: string)
    ensures |s| == k && Decimal.AllDigits(s)
  {
    if k == 0 then "" else Padded(n / 10, k - 1) + [Decimal.DigitChar(n % 10)]
  }

  function Sign(m: int): string {
    if m < 0 then "-" else ""
  }

  function Whole(m: int): string {
    Sign(m) + Decimal.Digits(Abs(m) / MILLION)
  }

  /** std::fixed with a precision of six. */
  function Fixed(m: int): string {
    Whole(m) + "." + Padded(Abs(m) % MILLION, 6)
  }

  function StripZeros(s: string): (r: string)
    ensures r <= s
  {
    if s != "" && s[|s| - 1] == '0' then StripZeros(s[..|s| - 1]) else s
  }

  function WithFraction(whole: string, fraction: string): string {
    if fraction == "" then whole else whole + "." + fraction
  }

  /** The canonical text: no fraction at all, or one that does not end in a zero. */
  function TextOf(m: int): string {
    WithFraction(Whole(m), StripZeros(Padded(Abs(m) % MILLION, 6)))
  }

  // ---------- the stripping loop ----------

  lemma {:induction false} StripStopsAtDot(a: string, digits: string)
    ensures StripZeros(a + "." + digits) == a + "." + StripZeros(digits)
  {
    var s := a + "." + digits;
    if digits != "" {
      assert s[|s| - 1] == digits[|digits| - 1];
      if digits[|digits| - 1] == '0' {
        assert s[..|s| - 1] == a + "." + digits[..|digits| - 1];
        StripStopsAtDot(a, digits[..|digits| - 1]);
      }
    } else {
      assert s == a + "." && StripZeros(digits) == "";
    }
  }

  /** Main result: the loop and the two corrections after it produce the canonical text. */
  method FormatNumber(value: Number) returns (formatted: string)
    ensures formatted == if value.NonFinite? then "nan" else TextOf(value.m)
  {
    if value.NonFinite? {
      return "nan";
    }
    ghost var whole, digits := Whole(value.m), Padded(Abs(value.m) % MILLION, 6);
    formatted := Fixed(value.m);
    while formatted != "" && formatted[|formatted| - 1] == '0'
      invariant StripZeros(formatted) == StripZeros(Fixed(value.m))
      decreases |formatted|
    {
      formatted := formatted[..|formatted| - 1];
    }
    StripStopsAtDot(whole, digits);
    assert formatted == whole + "." + StripZeros(digits);
    assert Decimal.AllDigits(StripZeros(digits));
    if formatted != "" && formatted[|formatted| - 1] == '.' {
      formatted := formatted[..|formatted| - 1];
    }
    if formatted == "" {
      formatted := "0";
    }
  }

  // ---------- reading it back ----------

  function Dot(s: string): (n: nat)
    ensures n <= |s| && (n < |s| ==> s[n] == '.') && forall i :: 0 <= i < n ==> s[i] != '.'
  {
    if s == "" || s[0] == '.' then 0 else 1 + Dot(s[1..])
  }

  /** The digits before and after the dot. */
  function Assemble(whole: string, fraction: string): Option<int> {
    if whole == "" || !Decimal.AllDigits(whole) || !Decimal.AllDigits(fraction) || |fraction| > 6 then None
    else Some(Decimal.Value(whole) * MILLION + Decimal.Value(fraction) * Decimal.Pow10(6 - |fraction|))
  }

  /** Digits, and optionally a dot and up to six digits; the value is in millionths. */
  function ParseUnsigned(body: string): Option<int> {
    var d := Dot(body);
    Assemble(body[..d], if d < |body| then body[d + 1..] else "")
  }

  /** The same with an optional minus in front. */
  function Parse(text: string): Option<int> {
    if text != "" && text[0] == '-' then
      match ParseUnsigned(text[1..]) case Some(v) => Some(-v) case None => None
    else
      match ParseUnsigned(text) case Some(v) => Some(v) case None => None
  }

  lemma LastDigit(n: nat, p: nat)
    requires n < 10 * p
    ensures n / 10 < p && n == 10 * (n / 10) + n % 10
  {
  }

  lemma {:induction false} ValueOfPadded(n: nat, k: nat)
    requires n < Decimal.Pow10(k)
    ensures Decimal.Value(Padded(n, k)) == n
  {
    if k > 0 {
      LastDigit(n, Decimal.Pow10(k - 1));
      ValueOfPadded(n / 10, k - 1);
      Decimal.OneMoreDigit(Padded(n / 10, k - 1), n % 10);
    }
  }

  lemma TimesTen(v: nat, p: nat)
    ensures 10 * (v * p) == v * (10 * p)
  {
  }

  lemma {:induction false} ValueOfStripped(s: string)
    requires Decimal.AllDigits(s)
    ensures Decimal.Value(s) == Decimal.Value(StripZeros(s)) * Decimal.Pow10(|s| - |StripZeros(s)|)
  {
    if s != "" && s[|s| - 1] == '0' {
      var t := s[..|s| - 1];
      ValueOfStripped(t);
      TimesTen(Decimal.Value(StripZeros(t)), Decimal.Pow10(|t| - |StripZeros(t)|));
    }
  }

  /** What the parser reads from the stripped fraction of f millionths. */
  lemma FractionValue(f: nat)
    requires f < MILLION
    ensures var r := StripZeros(Padded(f, 6));
            Decimal.AllDigits(r) && Decimal.Value(r) * Decimal.Pow10(6 - |r|) == f
  {
    assert Decimal.Pow10(6) == MILLION by {
      assert Decimal.Pow10(3) == 1000;
    }
    ValueOfPadded(f, 6);
    ValueOfStripped(Padded(f, 6));
  }

  lemma {:induction false} DotAfter(whole: string, rest: string)
    requires '.' !in whole && (rest == "" || rest[0] == '.')
    ensures Dot(whole + rest) == |whole|
  {
    if whole == "" {
      assert whole + rest == rest;
    } else {
      DotAfter(whole[1..], rest);
      assert (whole + rest)[1..] == whole[1..] + rest;
    }
  }

  lemma DotOf(whole: string, fraction: string)
    requires '.' !in whole
    ensures var t := WithFraction(whole, fraction);
            Dot(t) == |whole| && t[..|whole|] == whole
            && (fraction == "" ==> |t| == |whole|)
            && (fraction != "" ==> |whole| < |t| && t[|whole| + 1..] == fraction)
  {
    DotAfter(whole, if fraction == "" then "" else "." + fraction);
    assert WithFraction(whole, fraction) == whole + (if fraction == "" then "" else "." + fraction);
  }

  lemma ParseParts(whole: string, fraction: string)
    requires whole != "" && Decimal.AllDigits(whole) && Decimal.AllDigits(fraction) && |fraction| <= 6
    ensures ParseUnsigned(WithFraction(whole, fraction)) == Assemble(whole, fraction)
  {
    DotOf(whole, fraction);
  }

  lemma AssembleParts(whole: string, fraction: string, w: nat, f: nat)
    requires whole != "" && Decimal.AllDigits(whole) && Decimal.AllDigits(fraction) && |fraction| <= 6
    requires Decimal.Value(whole) == w && Decimal.Value(fraction) * Decimal.Pow10(6 - |fraction|) == f
    ensures Assemble(whole, fraction) == Some(w * MILLION + f)
  {
  }

  /** The digits that FormatNumber prints stand for the number of millionths. */
  lemma AssembleDigits(n: nat)
    ensures Assemble(Decimal.Digits(n / MILLION), StripZeros(Padded(n % MILLION, 6))) == Some(n)
  {
    FractionValue(n % MILLION);
    Decimal.ValueOfDigits(n / MILLION);
    AssembleParts(Decimal.Digits(n / MILLION), StripZeros(Padded(n % MILLION, 6)), n / MILLION, n % MILLION);
  }

  lemma NoSignInFront(digits: string, fraction: string)
    requires digits != "" && Decimal.AllDigits(digits)
    ensures WithFraction(digits, fraction)[0] != '-'
  {
    assert WithFraction(digits, fraction)[0] == digits[0];
  }

  lemma SignInFront(sign: string, digits: string, fraction: string)
    ensures WithFraction(sign + digits, fraction) == sign + WithFraction(digits, fraction)
  {
  }

  /** The digits without a sign are read back, and do not look like they had one. */
  lemma BodyParses(n: nat, digits: string, fraction: string)
    requires digits == Decimal.Digits(n / MILLION) && fraction == StripZeros(Padded(n % MILLION, 6))
    ensures var body := WithFraction(digits, fraction);
            ParseUnsigned(body) == Some(n) && body != "" && body[0] != '-'
  {
    FractionValue(n % MILLION);
    AssembleDigits(n);
    ParseParts(digits, fraction);
    NoSignInFront(digits, fraction);
  }

  lemma ParseSigned(m: int, body: string)
    requires ParseUnsigned(body) == Some(Abs(m)) && body != "" && body[0] != '-'
    ensures Parse(Sign(m) + body) == Some(m)
  {
    if m < 0 {
      assert ("-" + body)[1..] == body;
    } else {
      assert "" + body == body;
    }
  }

  /** Main result: the decimal parser undoes the formatting. */
  lemma ParseUndoesFormat(m: int)
    ensures Parse(TextOf(m)) == Some(m)
  {
    var digits := Decimal.Digits(Abs(m) / MILLION);
    var fraction := StripZeros(Padded(Abs(m) % MILLION, 6));
    BodyParses(Abs(m), digits, fraction);
    SignInFront(Sign(m), digits, fraction);
    ParseSigned(m, WithFraction(digits, fraction));
  }

  /** Distinct values have distinct texts. */
  lemma FormatIsInjective(m: int, n: int)
    requires TextOf(m) == TextOf(n)
    ensures m == n
  {
    ParseUndoesFormat(m);
    ParseUndoesFormat(n);
  }

  lemma {:induction false} StrippedEndsNonZero(s: string)
    ensures var r := StripZeros(s); r == "" || r[|r| - 1] != '0'
  {
    if s != "" && s[|s| - 1] == '0' {
      StrippedEndsNonZero(s[..|s| - 1]);
    }
  }

  /** Main result: the text ends neither in a bare dot nor in a fractional zero, and the digits before
      the dot are exactly those of the whole part, so its zeros are kept. A minus stands in front of the
      negative numbers only, and no zero in front of another digit of the whole part. */
  lemma TextIsCanonical(m: int)
    ensures var t, d := TextOf(m), Dot(TextOf(m));
            t[..d] == Whole(m) && (d < |t| ==> d + 1 < |t| && t[|t| - 1] != '0')
    ensures TextOf(m) != "" && (TextOf(m)[0] == '-' <==> m < 0)
    ensures TextOf(m)[0] == '0' <==> 0 <= m < 1000000
  {
    var fraction := StripZeros(Padded(Abs(m) % MILLION, 6));
    StrippedEndsNonZero(Padded(Abs(m) % MILLION, 6));
    DotOf(Whole(m), fraction);
    assert TextOf(m) == WithFraction(Whole(m), fraction);
    assert TextOf(m)[0] == Whole(m)[0];
    assert Whole(m)[0] == if m < 0 then '-' else Decimal.Digits(m / MILLION)[0];
  }
}
