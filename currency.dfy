/**
 * Worksheet values and the numeric conversions the filler applies to them:
 * `_parse_currency`, Python's `round()` and `int()` on floats, and the
 * two-decimal rendering `f"{x:,.2f}".replace(",", "")`. Amounts are `real`.
 */
module Currency {
  import opened Text

  /** A cell's value as the workbook reader hands it over. */
  datatype CellValue =
    | Blank                               // None
    | Number(value: real, shown: string)  // int or float; `shown` is its str()
    | Date(shown: string)                 // a date or datetime; `shown` is its str()
    | Text(text: string)                  // a str

  /** Index of the first '.' in `s`, or `|s|` when there is none. */
  function DotIndex(s: string): (k: nat)
    ensures k <= |s|
    ensures k < |s| ==> s[k] == '.'
  {
    if s == [] || s[0] == '.' then 0 else 1 + DotIndex(s[1..])
  }

  /** Past a stretch without a point, the first point is where `rest` has it. */
  lemma {:induction false} DotIndexAfter(w: string, rest: string)
    requires '.' !in w
    ensures DotIndex(w + rest) == |w| + DotIndex(rest)
  {
    if w != [] {
      assert (w + rest)[1..] == w[1..] + rest;
      DotIndexAfter(w[1..], rest);
    } else {
      assert w + rest == rest;
    }
  }

  /**
   * `float(s)` on the decimal numerals: an optional sign, digits, and an
   * optional point with more digits, with at least one digit in all.
   * Anything else is `None` (the `ValueError` branch).
   */
  function ParseDecimal(s: string): Option<real>
  {
    var signed := s != [] && (s[0] == '-' || s[0] == '+');
    match ParseUnsigned(if signed then s[1..] else s)
    case Some(m) => Some(if signed && s[0] == '-' then -m else m)
    case None => None
  }

  /** A numeral without its sign: digits, then optionally '.' and digits. */
  function ParseUnsigned(body: string): Option<real>
  {
    var k := DotIndex(body);
    var whole := body[..k];
    var frac := if k < |body| then body[k + 1..] else [];
    if AllDigits(whole) && AllDigits(frac) && |whole| + |frac| > 0 then
      Some(DigitsValue(whole) as real + FractionValue(frac))
    else None
  }

  /** The value of the digits after the point: ".25" is 1/4. */
  function FractionValue(frac: string): (v: real)
    requires AllDigits(frac)
    ensures 0.0 <= v <= 1.0
  {
    if frac == [] then 0.0 else (DigitValue(frac[0]) as real + FractionValue(frac[1..])) / 10.0
  }

  /** Two digits after the point are that many hundredths. */
  lemma TwoDigitFraction(frac: string)
    requires |frac| == 2 && AllDigits(frac)
    ensures FractionValue(frac) == DigitsValue(frac) as real / 100.0
  {
    var d0, d1 := DigitValue(frac[0]), DigitValue(frac[1]);
    assert frac[1..][1..] == [];
    assert FractionValue(frac[1..]) == d1 as real / 10.0;
    assert FractionValue(frac) == d0 as real / 10.0 + d1 as real / 100.0;
    assert frac[..1][..0] == [];
    assert DigitsValue(frac[..1]) == d0;
    assert DigitsValue(frac) == d0 * 10 + d1;
  }

  /** The text `_parse_currency` hands to `float()`: stripped, without "$" and ",". */
  function CurrencyText(t: string): string
  {
    Strip(RemoveChar(RemoveChar(Strip(t), '$'), ','))
  }

  /**
   * `_parse_currency`: never fails. Numbers pass through; `None`, dates,
   * blank text, a lone "-" and text that is not a numeral after "$" and ","
   * are removed all read as 0.
   */
  function ParseCurrency(v: CellValue): (r: real)
    ensures v.Number? ==> r == v.value
    ensures v.Blank? || v.Date? ==> r == 0.0
  {
    match v
    case Blank => 0.0
    case Number(x, _) => x
    case Date(_) => 0.0
    case Text(t) =>
      var s := CurrencyText(t);
      if s == "" || s == "-" then 0.0
      else match ParseDecimal(s)
        case Some(x) => x
        case None => 0.0
  }

  /** The text without "$" and ",", before any stripping. */
  function Unseparated(t: string): string
  {
    RemoveChar(RemoveChar(t, '$'), ',')
  }

  /** Stripping before the removals changes nothing: the final strip takes the same whitespace. */
  lemma CurrencyTextUnseparated(t: string)
    ensures CurrencyText(t) == Strip(Unseparated(t))
  {
    var p, q := StripSplit(t);
    var m := Strip(t);
    UnseparatedAppend(p + m, q);
    UnseparatedAppend(p, m);
    UnseparatedSpace(p);
    UnseparatedSpace(q);
    StripPadded(p, Unseparated(m), q);
  }

  lemma UnseparatedAppend(a: string, b: string)
    ensures Unseparated(a + b) == Unseparated(a) + Unseparated(b)
  {
    RemoveCharAppend(a, b, '$');
    RemoveCharAppend(RemoveChar(a, '$'), RemoveChar(b, '$'), ',');
  }

  lemma UnseparatedSpace(p: string)
    requires AllSpace(p)
    ensures Unseparated(p) == p
  {
    assert '$' !in p && ',' !in p by {
      assert !IsSpace('$') && !IsSpace(',');
    }
    RemoveCharAbsent(p, '$');
    RemoveCharAbsent(p, ',');
  }

  /**
   * A "$" or "," anywhere in the text leaves `_parse_currency`'s value as it
   * is: "$ 1,132,090", "1132,090" and "$1132090" all read 1132090.
   */
  lemma CurrencyIgnoresSeparators(a: string, c: char, b: string)
    requires c == '$' || c == ','
    ensures ParseCurrency(Text(a + [c] + b)) == ParseCurrency(Text(a + b))
  {
    UnseparatedAppend(a + [c], b);
    UnseparatedAppend(a, [c]);
    UnseparatedAppend(a, b);
    assert Unseparated([c]) == [] by {
      RemoveCharSingle(c, '$');
      RemoveCharSingle(c, ',');
      assert RemoveChar([], ',') == [];
    }
    assert CurrencyText(a + [c] + b) == CurrencyText(a + b) by {
      CurrencyTextUnseparated(a + [c] + b);
      CurrencyTextUnseparated(a + b);
      assert Unseparated(a) + [] == Unseparated(a);
    }
    SameCurrencyText(a + [c] + b, a + b);
  }

  /** Texts that clean to the same text read the same. */
  lemma SameCurrencyText(x: string, y: string)
    requires CurrencyText(x) == CurrencyText(y)
    ensures ParseCurrency(Text(x)) == ParseCurrency(Text(y))
  {
  }

  /** Whitespace around the text leaves `_parse_currency`'s value as it is. */
  lemma CurrencyIgnoresPadding(p: string, t: string, q: string)
    requires AllSpace(p) && AllSpace(q)
    ensures ParseCurrency(Text(p + t + q)) == ParseCurrency(Text(t))
  {
    UnseparatedAppend(p + t, q);
    UnseparatedAppend(p, t);
    UnseparatedSpace(p);
    UnseparatedSpace(q);
    assert CurrencyText(p + t + q) == CurrencyText(t) by {
      StripPadded(p, Unseparated(t), q);
      CurrencyTextUnseparated(p + t + q);
      CurrencyTextUnseparated(t);
    }
    SameCurrencyText(p + t + q, t);
  }

  /** Digits grouped by threes with ",", as Excel shows them. */
  function GroupThousands(ds: string): (g: string)
    requires AllDigits(ds)
    ensures |ds| > 0 ==> |g| > 0 && g[|g| - 1] == ds[|ds| - 1] && g[0] == ds[0]
    decreases |ds|
  {
    if |ds| <= 3 then ds else GroupThousands(ds[..|ds| - 3]) + "," + ds[|ds| - 3..]
  }

  /** Removing the separators from the grouped digits gives the digits back. */
  lemma {:induction false} UngroupThousands(ds: string)
    requires AllDigits(ds)
    ensures RemoveChar(GroupThousands(ds), ',') == ds
    decreases |ds|
  {
    if |ds| <= 3 {
      RemoveCharAbsent(ds, ',');
    } else {
      var pre, post := ds[..|ds| - 3], ds[|ds| - 3..];
      var g := GroupThousands(pre);
      assert RemoveChar(g, ',') == pre by { UngroupThousands(pre); }
      assert RemoveChar(post, ',') == post by { RemoveCharAbsent(post, ','); }
      assert GroupThousands(ds) == (g + ",") + post by { GroupThousandsStep(ds); }
      RemoveSeparator(g, post);
      assert ds == pre + post;
    }
  }

  lemma GroupThousandsStep(ds: string)
    requires AllDigits(ds) && |ds| > 3
    ensures GroupThousands(ds) == (GroupThousands(ds[..|ds| - 3]) + ",") + ds[|ds| - 3..]
  {
  }

  lemma RemoveSeparator(g: string, post: string)
    requires RemoveChar(post, ',') == post
    ensures RemoveChar((g + ",") + post, ',') == RemoveChar(g, ',') + post
  {
    RemoveCharAppend(g + ",", post, ',');
    RemoveCharAppend(g, [','], ',');
    RemoveCharSingle(',', ',');
  }

  lemma {:induction false} GroupThousandsNoDollar(ds: string)
    requires AllDigits(ds)
    ensures '$' !in GroupThousands(ds)
    decreases |ds|
  {
    if |ds| > 3 {
      GroupThousandsNoDollar(ds[..|ds| - 3]);
      GroupThousandsStep(ds);
    }
  }

  /** A peso amount as the workbook displays it: "$ 1,132,090" or "$ -1,500". */
  function PesoText(n: int): string
  {
    "$ " + (if n < 0 then "-" else "") + GroupThousands(NatToDecimal(if n < 0 then -n else n))
  }

  /** A run of digits has no point, so all of it is the whole part. */
  lemma UnsignedWhole(ds: string)
    requires ds != [] && AllDigits(ds)
    ensures ParseUnsigned(ds) == Some(DigitsValue(ds) as real)
  {
    assert DotIndex(ds) == |ds| by {
      DigitsNoPoint(ds);
      DotIndexAfter(ds, []);
      assert ds + [] == ds;
    }
    assert ds[..|ds|] == ds;
  }

  lemma DigitsNoPoint(ds: string)
    requires AllDigits(ds)
    ensures '.' !in ds
  {
  }

  /** The first point after a stretch without one is at the stretch's end. */
  lemma DotAt(whole: string, frac: string)
    requires '.' !in whole
    ensures DotIndex(whole + "." + frac) == |whole|
  {
    assert whole + "." + frac == whole + ("." + frac);
    DotIndexAfter(whole, "." + frac);
  }

  /** A numeral with its point at `k` reads as the parts on either side. */
  lemma UnsignedAt(body: string, k: nat)
    requires k < |body| && DotIndex(body) == k
    requires AllDigits(body[..k]) && AllDigits(body[k + 1..]) && k > 0
    ensures ParseUnsigned(body) == Some(DigitsValue(body[..k]) as real + FractionValue(body[k + 1..]))
  {
  }

  /** Digits, a point and digits: the whole part plus the fraction. */
  lemma UnsignedPoint(whole: string, frac: string)
    requires whole != [] && AllDigits(whole) && AllDigits(frac)
    ensures ParseUnsigned(whole + "." + frac) == Some(DigitsValue(whole) as real + FractionValue(frac))
  {
    var body := whole + "." + frac;
    DigitsNoPoint(whole);
    DotAt(whole, frac);
    PointParts(whole, frac);
    UnsignedAt(body, |whole|);
  }

  /** The text on either side of the point that joins `whole` and `frac`. */
  lemma PointParts(whole: string, frac: string)
    ensures (whole + "." + frac)[..|whole|] == whole && (whole + "." + frac)[|whole| + 1..] == frac
  {
  }

  /** A leading "-" negates what the rest reads as. */
  lemma NegatedValue(body: string)
    requires body != [] && IsDigit(body[0])
    ensures ParseUnsigned(body).Some? ==> ParseDecimal(['-'] + body) == Some(-ParseUnsigned(body).value)
    ensures ParseUnsigned(body).None? ==> ParseDecimal(['-'] + body).None?
  {
    assert (['-'] + body)[1..] == body;
  }

  /** Without a sign, the numeral reads as its unsigned value. */
  lemma PlainValue(body: string)
    requires body != [] && IsDigit(body[0])
    ensures ParseDecimal(body) == ParseUnsigned(body)
  {
  }

  lemma PesoTextStrip(t: string, sign: string, g: string)
    requires t == "$ " + sign + g
    requires g != [] && IsDigit(g[|g| - 1])
    ensures Strip(t) == t
  {
    assert t[0] == '$';
    assert t[|t| - 1] == g[|g| - 1];
    StripUnchanged(t);
  }

  lemma DollarSpace()
    ensures RemoveChar("$ ", '$') == " "
  {
    assert "$ " == ['$'] + [' '];
    RemoveCharAppend(['$'], [' '], '$');
    RemoveCharSingle('$', '$');
    RemoveCharSingle(' ', '$');
  }

  /** The stripped text without "$" is what the "," removal starts from. */
  lemma CurrencyTextOf(t: string, u: string)
    requires Strip(t) == t && RemoveChar(t, '$') == u
    ensures CurrencyText(t) == Strip(RemoveChar(u, ','))
  {
  }

  lemma NoDollarSign(sign: string)
    requires sign == "" || sign == "-"
    ensures '$' !in sign
  {
  }

  lemma PesoTextDollar(sign: string, g: string)
    requires sign == "" || sign == "-"
    requires g != [] && IsDigit(g[|g| - 1]) && '$' !in g
    ensures CurrencyText("$ " + sign + g) == Strip(RemoveChar(" " + sign + g, ','))
  {
    var t := "$ " + sign + g;
    PesoTextStrip(t, sign, g);
    DollarSpace();
    NoDollarSign(sign);
    RemoveCharPrefix("$ ", " ", sign, g, '$');
    CurrencyTextOf(t, " " + sign + g);
  }

  lemma PesoTextComma(sign: string, g: string, ds: string)
    requires sign == "" || sign == "-"
    requires ds != [] && IsDigit(ds[0]) && IsDigit(ds[|ds| - 1]) && RemoveChar(g, ',') == ds
    ensures Strip(RemoveChar(" " + sign + g, ',')) == sign + ds
  {
    var u := sign + ds;
    assert RemoveChar(" " + sign + g, ',') == [' '] + u by {
      RemoveCharAppend(" " + sign, g, ',');
      NoCommaSign(sign);
      RemoveCharAbsent(" " + sign, ',');
      assert " " + sign + ds == [' '] + u;
    }
    assert u != [] && !IsSpace(u[0]) && !IsSpace(u[|u| - 1]) by {
      assert u[0] == '-' || u[0] == ds[0];
      assert u[|u| - 1] == ds[|ds| - 1];
    }
    StripLeadingSpace(u);
  }

  lemma NoCommaSign(sign: string)
    requires sign == "" || sign == "-"
    ensures ',' !in " " + sign
  {
  }

  /** What `_parse_currency` hands to `float()` for a peso text. */
  lemma PesoCurrencyText(sign: string, ds: string)
    requires sign == "" || sign == "-"
    requires ds != [] && AllDigits(ds)
    ensures CurrencyText("$ " + sign + GroupThousands(ds)) == sign + ds
  {
    var g := GroupThousands(ds);
    GroupThousandsNoDollar(ds);
    UngroupThousands(ds);
    PesoTextDollar(sign, g);
    PesoTextComma(sign, g, ds);
  }

  /** A signed run of digits reads as its value. */
  lemma SignedDigits(sign: string, ds: string)
    requires sign == "" || sign == "-"
    requires ds != [] && AllDigits(ds)
    ensures ParseDecimal(sign + ds) == Some(if sign == "-" then -(DigitsValue(ds) as real) else DigitsValue(ds) as real)
  {
    if sign == "-" {
      NegativeDigits(ds);
      assert sign + ds == ['-'] + ds;
    } else {
      PositiveDigits(ds);
      assert sign + ds == ds;
    }
  }

  lemma NegativeDigits(ds: string)
    requires ds != [] && AllDigits(ds)
    ensures ParseDecimal(['-'] + ds) == Some(-(DigitsValue(ds) as real))
  {
    UnsignedWhole(ds);
    NegatedValue(ds);
  }

  lemma PositiveDigits(ds: string)
    requires ds != [] && AllDigits(ds)
    ensures ParseDecimal(ds) == Some(DigitsValue(ds) as real)
  {
    UnsignedWhole(ds);
    PlainValue(ds);
  }

  /** A text whose cleaned form is a numeral other than "-" reads as that numeral. */
  lemma ReadsAs(t: string, x: real)
    requires CurrencyText(t) != "" && CurrencyText(t) != "-"
    requires ParseDecimal(CurrencyText(t)) == Some(x)
    ensures ParseCurrency(Text(t)) == x
  {
  }

  /** Blank text, a lone "-" and text `float()` rejects all read as 0.0. */
  lemma OddTextReadsZero(t: string)
    requires CurrencyText(t) == "" || CurrencyText(t) == "-" || ParseDecimal(CurrencyText(t)).None?
    ensures ParseCurrency(Text(t)) == 0.0
  {
  }

  /** The "$ -" that Excel shows for a zero amount reads as 0.0. */
  lemma DollarDashReadsZero()
    ensures CurrencyText("$ -") == "-"
    ensures ParseCurrency(Text("$ -")) == 0.0
  {
    assert Strip("$ -") == "$ -" by { StripUnchanged("$ -"); }
    assert RemoveChar("$ -", '$') == " -";
    assert RemoveChar(" -", ',') == " -";
    assert Strip(" -") == "-" by { assert " -" == [' '] + "-"; StripLeadingSpace("-"); }
  }

  lemma NotSignAlone(sign: string, ds: string)
    requires sign == "" || sign == "-"
    requires ds != [] && IsDigit(ds[0])
    ensures sign + ds != "" && sign + ds != "-"
  {
    var s := sign + ds;
    if sign == "-" {
      assert |s| == 1 + |ds|;
    } else {
      assert s == ds;
    }
  }

  /** A grouped peso text of the digits `ds` reads as their signed value. */
  lemma PesoReads(sign: string, ds: string, t: string, x: real)
    requires sign == "" || sign == "-"
    requires ds != [] && AllDigits(ds)
    requires t == "$ " + sign + GroupThousands(ds)
    requires x == if sign == "-" then -(DigitsValue(ds) as real) else DigitsValue(ds) as real
    ensures ParseCurrency(Text(t)) == x
  {
    var s := sign + ds;
    assert CurrencyText(t) == s by { PesoCurrencyText(sign, ds); }
    assert ParseDecimal(s) == Some(x) by { SignedDigits(sign, ds); }
    assert s != "" && s != "-" by { NotSignAlone(sign, ds); }
    ReadsAs(t, x);
  }

  /** `float(str(i))` is `i`, and `str(i)` is "0" only for 0. */
  lemma IntToDecimalReads(i: int)
    ensures ParseDecimal(IntToDecimal(i)) == Some(i as real)
    ensures IntToDecimal(i) == "0" <==> i == 0
  {
    if i < 0 {
      var m: nat := -i;
      NatToDecimalValue(m);
      assert IntToDecimal(i) == ['-'] + NatToDecimal(m);
      NegativeDigits(NatToDecimal(m));
    } else {
      NatToDecimalValue(i);
      PositiveDigits(NatToDecimal(i));
      NatToDecimalZero(i);
    }
  }

  /** `str(n)` is "0" only for 0. */
  lemma NatToDecimalZero(n: nat)
    ensures NatToDecimal(n) == "0" <==> n == 0
  {
    NatToDecimalValue(n);
    if NatToDecimal(n) == "0" {
      assert DigitsValue("0") == 0 by {
        assert "0"[..0] == [];
      }
    }
  }

  /**
   * `_parse_currency` reads back every whole peso amount written the way
   * Excel shows currency, with "$" and thousands separators.
   */
  lemma PesoTextRoundTrip(n: int)
    ensures ParseCurrency(Text(PesoText(n))) == n as real
  {
    var m: nat := if n < 0 then -n else n;
    NatToDecimalValue(m);
    if n < 0 {
      PesoReads("-", NatToDecimal(m), PesoText(n), n as real);
    } else {
      PesoReads("", NatToDecimal(m), PesoText(n), n as real);
    }
  }

  /**
   * Python's `round(x)` on a float: the nearest integer, ties to the even
   * one. So `int(round(8.5))` is 8 and `int(round(9.5))` is 10.
   */
  function RoundHalfEven(x: real): (r: int)
    ensures -0.5 <= r as real - x <= 0.5
    ensures x - x.Floor as real == 0.5 ==> r % 2 == 0
  {
    var f := x.Floor;
    var d := x - f as real;
    if d < 0.5 then f
    else if d > 0.5 then f + 1
    else if f % 2 == 0 then f else f + 1
  }

  /** An integer closer than one half to `x` is `round(x)`. */
  lemma RoundIsNearest(x: real, k: int)
    requires -0.5 < k as real - x < 0.5
    ensures RoundHalfEven(x) == k
  {
  }

  /** Python's `int(x)` on a float: truncation toward zero. */
  function Trunc(x: real): (r: int)
    ensures 0.0 <= x ==> 0 <= r && r as real <= x < r as real + 1.0
    ensures x < 0.0 ==> r <= 0 && r as real - 1.0 < x <= r as real
  {
    if x >= 0.0 then x.Floor else -((-x).Floor)
  }

  /** Hundredths of `x`, rounded as `format(x, ".2f")` rounds. */
  function Cents(x: real): int
  {
    RoundHalfEven(x * 100.0)
  }

  /** `f"{x:,.2f}".replace(",", "")`: sign, whole part, point, two digits. */
  function FormatFixed2(x: real): string
  {
    FormatCents(x < 0.0, Cents(x))
  }

  /** A sign when `negative`, then the hundredths `c` without their sign. */
  function FormatCents(negative: bool, c: int): string
  {
    (if negative then "-" else "") + FixedDigits(if c < 0 then -c else c)
  }

  /** Hundredths `a` as digits, a point and exactly two more digits. */
  function FixedDigits(a: nat): string
  {
    assert Pow10(2) == 100;
    NatToDecimal(a / 100) + "." + ZeroPad(a % 100, 2)
  }

  /**
   * The two-decimal text reads back as the rounded amount, which lies within
   * half a cent of `x`.
   */
  lemma FormatFixed2RoundTrip(x: real)
    ensures ParseDecimal(FormatFixed2(x)) == Some(Cents(x) as real / 100.0)
    ensures -0.005 <= Cents(x) as real / 100.0 - x <= 0.005
  {
    CentsSign(x);
    FormatCentsRoundTrip(x < 0.0, Cents(x));
  }

  /** Hundredths written with the sign they have read back as themselves. */
  lemma FormatCentsRoundTrip(negative: bool, c: int)
    requires negative ==> c <= 0
    requires !negative ==> c >= 0
    ensures ParseDecimal(FormatCents(negative, c)) == Some(c as real / 100.0)
  {
    if negative {
      var a: nat := -c;
      assert FormatCents(negative, c) == ['-'] + FixedDigits(a);
      NegativeCents(a);
      assert -(a as real / 100.0) == c as real / 100.0 by {
        assert a as real == -(c as real);
      }
    } else {
      assert FormatCents(negative, c) == FixedDigits(c);
      PositiveCents(c);
    }
  }

  lemma NegativeCents(a: nat)
    ensures ParseDecimal(['-'] + FixedDigits(a)) == Some(-(a as real / 100.0))
  {
    FixedBody(a);
    FixedDigitsShape(a);
    NegatedValue(FixedDigits(a));
  }

  lemma PositiveCents(c: nat)
    ensures ParseDecimal(FixedDigits(c)) == Some(c as real / 100.0)
  {
    FixedBody(c);
    FixedDigitsShape(c);
    PlainValue(FixedDigits(c));
  }

  /** The hundredths text starts with a digit. */
  lemma FixedDigitsShape(a: nat)
    ensures FixedDigits(a) != [] && IsDigit(FixedDigits(a)[0])
  {
    var whole := NatToDecimal(a / 100);
    assert FixedDigits(a)[0] == whole[0];
  }

  /** The rounded hundredths keep the sign of `x` and lie within half a cent of it. */
  lemma CentsSign(x: real)
    ensures x < 0.0 ==> Cents(x) <= 0
    ensures x >= 0.0 ==> Cents(x) >= 0
    ensures -0.005 <= Cents(x) as real / 100.0 - x <= 0.005
  {
  }

  /** Hundredths written as whole part, point and two digits read back. */
  lemma FixedBody(a: nat)
    ensures ParseUnsigned(FixedDigits(a)) == Some(a as real / 100.0)
  {
    var whole, frac := NatToDecimal(a / 100), ZeroPad(a % 100, 2);
    UnsignedPoint(whole, frac);
    NatToDecimalValue(a / 100);
    TwoDigitFraction(frac);
    CentsSplit(a);
  }

  lemma CentsSplit(a: nat)
    ensures (a / 100) as real + (a % 100) as real / 100.0 == a as real / 100.0
  {
  }
}
