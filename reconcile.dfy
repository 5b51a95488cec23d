/**
 * The arithmetic decisions of the filler, once the label map has been read:
 * the Excel "Total de ingresos" lookup chain and the "ingresos a disminuir"
 * / "ingresos adicionales" choices of `fill_isr_ingresos_form`, the
 * "Total percibidos" rows, `fill_obligation_section`, and the submission
 * gate `check_totals` with its summary reader.
 */
module Reconcile {
  import opened Text
  import opened Currency
  import opened Impuestos
  import opened Locators

  /** `label_map.get(label)`. */
  function Get(lm: map<string, real>, l: string): Option<real>
  {
    if l in lm then Some(lm[l]) else None
  }

  /**
   * `_parse_currency` on what the label map holds: always a float or
   * `None`, so a float passes through and `None` reads as 0.
   */
  function Amount(v: Option<real>): real
  {
    match v
    case None => 0.0
    case Some(x) => x
  }

  function Abs(x: real): real
  {
    if x < 0.0 then -x else x
  }

  // ---------------------------------------------------------------------
  // The Excel total of "ingresos" (fill_isr_ingresos_form)
  // ---------------------------------------------------------------------

  const TotalAcumulados: string := "Total de ingresos acumulados"
  const NominalesFacturados: string := "Ingresos nominales facturados"

  /** The labels tried for the Excel total, in order. */
  const ExcelTotalLabels: seq<string> := [BaseGravable, IngresosCobrados, TotalAcumulados, NominalesFacturados]

  /** `used_key`: the first label present in the map, even with value 0.0. */
  function ExcelTotalKey(lm: map<string, real>): Option<string>
  {
    if BaseGravable in lm then Some(BaseGravable)
    else if IngresosCobrados in lm then Some(IngresosCobrados)
    else if TotalAcumulados in lm then Some(TotalAcumulados)
    else if NominalesFacturados in lm then Some(NominalesFacturados)
    else None
  }

  /** `excel_total_cobrados_raw`: the value under the same chain. */
  function ExcelTotalRaw(lm: map<string, real>): Option<real>
  {
    var v1, v2, v3, v4 := Get(lm, BaseGravable), Get(lm, IngresosCobrados), Get(lm, TotalAcumulados), Get(lm, NominalesFacturados);
    if v1.Some? then v1 else if v2.Some? then v2 else if v3.Some? then v3 else v4
  }

  /** `excel_total_cobrados`. */
  function ExcelTotal(lm: map<string, real>): real
  {
    Amount(ExcelTotalRaw(lm))
  }

  /**
   * Label `i` of the chain is used exactly when it is present and no
   * earlier one is, and then the total is its value, whatever that value
   * is (presence decides, not truthiness).
   */
  lemma ExcelTotalFirstPresent(lm: map<string, real>, i: nat)
    requires i < |ExcelTotalLabels|
    ensures ExcelTotalKey(lm) == Some(ExcelTotalLabels[i]) <==>
      ExcelTotalLabels[i] in lm && forall j :: 0 <= j < i ==> ExcelTotalLabels[j] !in lm
    ensures ExcelTotalKey(lm) == Some(ExcelTotalLabels[i]) ==> ExcelTotal(lm) == lm[ExcelTotalLabels[i]]
  {
    var labels := ExcelTotalLabels;
    assert |labels[0]| == 34 && |labels[1]| == 49 && |labels[2]| == 28 && |labels[3]| == 29;
    if ExcelTotalKey(lm) == Some(labels[i]) {
      forall j | 0 <= j < i
        ensures labels[j] !in lm
      {
        assert |labels[j]| != |labels[i]|;
      }
    }
    if labels[i] in lm && forall j :: 0 <= j < i ==> labels[j] !in lm {
      if i > 0 { assert labels[0] !in lm; }
      if i > 1 { assert labels[1] !in lm; }
      if i > 2 { assert labels[2] !in lm; }
    }
  }

  /** With none of the four labels, no key is used and the total is 0. */
  lemma ExcelTotalAbsent(lm: map<string, real>)
    requires forall j :: 0 <= j < |ExcelTotalLabels| ==> ExcelTotalLabels[j] !in lm
    ensures ExcelTotalKey(lm) == None && ExcelTotal(lm) == 0.0
  {
    assert ExcelTotalLabels[0] !in lm && ExcelTotalLabels[1] !in lm;
    assert ExcelTotalLabels[2] !in lm && ExcelTotalLabels[3] !in lm;
  }

  /** The key reported and the value used always come from the same label. */
  lemma ExcelTotalKeyAgrees(lm: map<string, real>)
    ensures ExcelTotalKey(lm).Some? <==> ExcelTotalRaw(lm).Some?
    ensures ExcelTotalKey(lm).Some? ==> ExcelTotalRaw(lm) == Some(lm[ExcelTotalKey(lm).value])
  {
  }

  // ---------------------------------------------------------------------
  // "¿Tienes ingresos a disminuir?" and "¿Tienes ingresos adicionales?"
  // ---------------------------------------------------------------------

  /** The dropdown option for a decision. */
  function SiNo(b: bool): string
  {
    if b then "Sí" else "No"
  }

  /**
   * The two choices and the amounts typed into their pop-ups: the decrease
   * amount is `str(int(round(diff)))`, the increase amount
   * `f"{diff:,.2f}"` without commas.
   */
  datatype IngresosPlan = IngresosPlan(
    disminuir: bool,
    importeDisminuir: Option<string>,
    adicionales: bool,
    importeAdicionales: Option<string>)

  /**
   * The plan for the SAT "Total de ingresos efectivamente cobrados" and the
   * Excel total. The threshold is a fixed 1 peso, not the configured tolerance.
   */
  function PlanIngresos(sat: real, excel: real): IngresosPlan
  {
    var diferencia := sat - excel;
    var adicional := excel - sat;
    IngresosPlan(
      diferencia > 1.0,
      if diferencia > 1.0 then Some(IntToDecimal(RoundHalfEven(diferencia))) else None,
      adicional > 1.0,
      if adicional > 1.0 then Some(FormatFixed2(adicional)) else None)
  }

  /**
   * The decisions: "a disminuir" is Sí exactly when SAT exceeds Excel by
   * more than 1, "adicionales" exactly when Excel exceeds SAT by more than
   * 1; so never both, and both No within one peso.
   */
  lemma ExclusiveDecisions(sat: real, excel: real)
    ensures PlanIngresos(sat, excel).disminuir <==> sat - excel > 1.0
    ensures PlanIngresos(sat, excel).adicionales <==> excel - sat > 1.0
    ensures !(PlanIngresos(sat, excel).disminuir && PlanIngresos(sat, excel).adicionales)
    ensures Abs(sat - excel) <= 1.0 ==> SiNo(PlanIngresos(sat, excel).disminuir) == "No" && SiNo(PlanIngresos(sat, excel).adicionales) == "No"
    ensures PlanIngresos(sat, excel).importeDisminuir.Some? <==> PlanIngresos(sat, excel).disminuir
    ensures PlanIngresos(sat, excel).importeAdicionales.Some? <==> PlanIngresos(sat, excel).adicionales
  {
  }

  /**
   * The decrease amount is a whole number of pesos, at least 1, and the
   * nearest to the difference (rounded, not truncated).
   */
  lemma DecreaseAmount(sat: real, excel: real)
    requires PlanIngresos(sat, excel).disminuir
    ensures var t := PlanIngresos(sat, excel).importeDisminuir.value;
      AllDigits(t) && DigitsValue(t) >= 1 &&
      -0.5 <= DigitsValue(t) as real - (sat - excel) <= 0.5
  {
    var r := RoundHalfEven(sat - excel);
    assert r >= 1;
    NatToDecimalValue(r);
  }

  /** A difference of 8178.81 is entered as 8179, not as 8178. */
  lemma DecreaseRoundsUp(sat: real, excel: real)
    requires sat - excel == 8178.81
    ensures PlanIngresos(sat, excel).importeDisminuir == Some("8179")
  {
    RoundIsNearest(8178.81, 8179);
    assert NatToDecimal(8179) == "8179" by {
      assert NatToDecimal(8) == "8";
      assert NatToDecimal(81) == "81";
      assert NatToDecimal(817) == "817";
    }
  }

  /**
   * The increase amount, read back as a number, is within half a cent of
   * the difference.
   */
  lemma IncreaseAmount(sat: real, excel: real)
    requires PlanIngresos(sat, excel).adicionales
    ensures var t := PlanIngresos(sat, excel).importeAdicionales.value;
      ParseDecimal(t).Some? && -0.005 <= ParseDecimal(t).value - (excel - sat) <= 0.005
  {
    var d := excel - sat;
    assert PlanIngresos(sat, excel).importeAdicionales == Some(FormatFixed2(d));
    FormatFixed2RoundTrip(d);
  }

  // ---------------------------------------------------------------------
  // "Total percibidos" rows
  // ---------------------------------------------------------------------

  /** Excel label and the SAT "Concepto" option it is entered under. */
  const PercibidosEntries: seq<(string, string)> := [
    ("Actividad empresarial", "Actividad empresarial"),
    ("Actividad profesional (honorarios)", "Servicios profesionales (Honorarios)"),
    ("Uso o goce temporal de bienes (arrendamiento)", "Uso o goce temporal de bienes")
  ]

  /** One row of the pop-up: a Concepto and its Importe text. */
  datatype Concepto = Concepto(concepto: string, importe: string)

  /**
   * The row for one entry: none when the label is absent or its amount is
   * under half a cent in size; otherwise the amount in whole pesos.
   */
  function PercibidoRow(lm: map<string, real>, entry: (string, string)): Option<Concepto>
  {
    if entry.0 !in lm then None
    else
      var parsed := Amount(Get(lm, entry.0));
      if Abs(parsed) < 0.005 then None
      else Some(Concepto(entry.1, IntToDecimal(RoundHalfEven(parsed))))
  }

  /** The row each entry produces, position by position. */
  function PercibidoOptions(lm: map<string, real>, entries: seq<(string, string)>): (os: seq<Option<Concepto>>)
    ensures |os| == |entries|
    ensures forall k :: 0 <= k < |entries| ==> os[k] == PercibidoRow(lm, entries[k])
  {
    seq(|entries|, k requires 0 <= k < |entries| => PercibidoRow(lm, entries[k]))
  }

  /** The rows added, in entry order. */
  function PercibidosRows(lm: map<string, real>, entries: seq<(string, string)>): (rows: seq<Concepto>)
    ensures |rows| <= |entries|
  {
    Somes(PercibidoOptions(lm, entries))
  }

  /** The present values of a sequence of options, in order. */
  function Somes<T>(os: seq<Option<T>>): (r: seq<T>)
    ensures |r| <= |os|
  {
    if os == [] then []
    else
      var last := os[|os| - 1];
      Somes(os[..|os| - 1]) + (if last.Some? then [last.value] else [])
  }

  lemma SomesSnoc<T>(os: seq<Option<T>>, o: Option<T>)
    ensures Somes(os + [o]) == Somes(os) + (if o.Some? then [o.value] else [])
  {
    assert (os + [o])[..|os|] == os;
  }

  /** A value is among the present ones exactly when some position holds it. */
  lemma {:induction false} SomesIff<T>(os: seq<Option<T>>, c: T)
    ensures c in Somes(os) <==> exists k :: 0 <= k < |os| && os[k] == Some(c)
  {
    if os != [] {
      var n := |os| - 1;
      var init := os[..n];
      SomesIff(init, c);
      if exists k :: 0 <= k < |os| && os[k] == Some(c) {
        var k :| 0 <= k < |os| && os[k] == Some(c);
        if k < n {
          assert init[k] == os[k];
        }
      }
      if c in Somes(init) {
        var k :| 0 <= k < |init| && init[k] == Some(c);
        assert os[k] == init[k];
      }
    }
  }

  /** The loop over `total_percibidos_entries`. */
  method AddPercibidos(lm: map<string, real>, entries: seq<(string, string)>) returns (rows: seq<Concepto>)
    ensures rows == PercibidosRows(lm, entries)
  {
    rows := [];
    for k := 0 to |entries|
      invariant rows == PercibidosRows(lm, entries[..k])
    {
      var excelLabel, satConcepto := entries[k].0, entries[k].1;
      assert PercibidoOptions(lm, entries[..k + 1]) == PercibidoOptions(lm, entries[..k]) + [PercibidoRow(lm, entries[k])];
      SomesSnoc(PercibidoOptions(lm, entries[..k]), PercibidoRow(lm, entries[k]));
      if excelLabel !in lm {
        continue;
      }
      var parsed := Amount(Get(lm, excelLabel));
      if Abs(parsed) < 0.005 {
        continue;
      }
      rows := rows + [Concepto(satConcepto, IntToDecimal(RoundHalfEven(parsed)))];
    }
    assert entries[..|entries|] == entries;
  }

  /**
   * A row is added exactly for the entries that produce one, whichever
   * position they have.
   */
  lemma PercibidosRowsIff(lm: map<string, real>, entries: seq<(string, string)>, c: Concepto)
    ensures c in PercibidosRows(lm, entries) <==>
      exists k :: 0 <= k < |entries| && PercibidoRow(lm, entries[k]) == Some(c)
  {
    var os := PercibidoOptions(lm, entries);
    SomesIff(os, c);
    if exists k :: 0 <= k < |entries| && PercibidoRow(lm, entries[k]) == Some(c) {
      var k :| 0 <= k < |entries| && PercibidoRow(lm, entries[k]) == Some(c);
      assert os[k] == Some(c);
    }
  }

  /**
   * A row's Importe reads back as the entry's amount to within half a peso,
   * and it is "0" exactly when the amount is at most half a peso in size.
   */
  lemma PercibidoImporte(lm: map<string, real>, entry: (string, string), c: Concepto)
    requires PercibidoRow(lm, entry) == Some(c)
    ensures entry.0 in lm && c.concepto == entry.1
    ensures ParseDecimal(c.importe).Some?
    ensures -0.5 <= ParseDecimal(c.importe).value - lm[entry.0] <= 0.5
    ensures c.importe == "0" <==> -0.5 <= lm[entry.0] <= 0.5
  {
    var x := lm[entry.0];
    var r := RoundHalfEven(x);
    assert c.importe == IntToDecimal(r);
    IntToDecimalReads(r);
    if -0.5 <= x <= 0.5 {
      assert r == 0;
    }
  }

  /**
   * An amount of at least half a cent but at most half a peso still adds a
   * row, with Importe "0".
   */
  lemma PercibidoZeroImporte(lm: map<string, real>, entry: (string, string))
    requires entry.0 in lm && 0.005 <= lm[entry.0] <= 0.5
    ensures PercibidoRow(lm, entry) == Some(Concepto(entry.1, "0"))
  {
    var r := RoundHalfEven(lm[entry.0]);
    assert r == 0;
  }

  // ---------------------------------------------------------------------
  // fill_obligation_section
  // ---------------------------------------------------------------------

  /** The ISR labels `run` fills, in order. */
  const IsrLabels: seq<string> := [
    "Ingresos nominales facturados",
    "Total de ingresos acumulados",
    "Base gravable del pago provisional",
    "Impuesto del periodo",
    "Total ISR retenido del periodo",
    "ISR a cargo"
  ]

  /** The IVA labels `run` fills, in order. */
  const IvaLabels: seq<string> := [
    "Actividades gravadas a la tasa del 16%",
    "Actividades gravadas a la tasa del 8%",
    "Actividades gravadas a la tasa del 0% otros",
    "Actividades exentas",
    "Actividades no objeto de impuesto",
    "IVA a cargo a la tasa del 16% y 8%",
    "Total IVA Trasladado",
    "IVA retenido a favor",
    "IVA acreditable del periodo",
    "Cantidad a cargo",
    "IVA a cargo",
    "IVA a favor"
  ]

  /** The `_try_fill` calls made, in order: labels present with a non-zero value. */
  function ObligationFills(lm: map<string, real>, labels: seq<string>): seq<(string, real)>
  {
    if labels == [] then []
    else
      var l := labels[|labels| - 1];
      ObligationFills(lm, labels[..|labels| - 1]) +
        (if l in lm && lm[l] != 0.0 then [(l, lm[l])] else [])
  }

  /**
   * `fill_obligation_section`: each label with a value other than 0.0 is
   * offered to `_try_fill`; `tried` lists those calls. Whether a fill
   * succeeds does not change what is tried next.
   */
  method FillObligationSection(p: Page, mapping: map<string, seq<string>>, lm: map<string, real>, labels: seq<string>)
    returns (tried: seq<(string, real)>)
    ensures tried == ObligationFills(lm, labels)
  {
    tried := [];
    for k := 0 to |labels|
      invariant tried == ObligationFills(lm, labels[..k])
    {
      var l := labels[k];
      assert labels[..k + 1][..k] == labels[..k];
      var value := Get(lm, l);
      if value.None? {
        continue;
      }
      if value.value == 0.0 {
        continue;
      }
      var _, _ := TryFill(p, mapping, l, false);
      tried := tried + [(l, value.value)];
    }
    assert labels[..|labels|] == labels;
  }

  /**
   * A label is offered, with its map value, exactly when it is one of the
   * labels, present in the map, and not 0.0.
   */
  lemma {:induction false} ObligationFillsIff(lm: map<string, real>, labels: seq<string>, l: string, v: real)
    ensures (l, v) in ObligationFills(lm, labels) <==> l in labels && l in lm && lm[l] != 0.0 && v == lm[l]
  {
    if labels != [] {
      var init := labels[..|labels| - 1];
      ObligationFillsIff(lm, init, l, v);
      assert labels == init + [labels[|labels| - 1]];
    }
  }

  // ---------------------------------------------------------------------
  // check_totals
  // ---------------------------------------------------------------------

  /** `re.sub(r"[^\d.]", "", s)`: keep digits and points. */
  function DigitsAndPoints(s: string): (r: string)
    ensures forall i :: 0 <= i < |r| ==> IsDigit(r[i]) || r[i] == '.'
  {
    if s == [] then []
    else (if IsDigit(s[0]) || s[0] == '.' then [s[0]] else []) + DigitsAndPoints(s[1..])
  }

  /** The substitution works character by character: it distributes over concatenation. */
  lemma {:induction false} DigitsAndPointsAppend(a: string, b: string)
    ensures DigitsAndPoints(a + b) == DigitsAndPoints(a) + DigitsAndPoints(b)
  {
    if a != [] {
      assert (a + b)[1..] == a[1..] + b;
      DigitsAndPointsAppend(a[1..], b);
    } else {
      assert a + b == b;
    }
  }

  /** A digit or a point is kept, and any other character is dropped. */
  lemma DigitsAndPointsChar(c: char)
    ensures DigitsAndPoints([c]) == if IsDigit(c) || c == '.' then [c] else []
  {
    assert [c][1..] == [];
  }

  /** So every digit and point of the text survives, in order, and nothing else does. */
  lemma {:induction false} DigitsAndPointsKeepsNumerals(s: string)
    ensures (forall i :: 0 <= i < |s| ==> IsDigit(s[i]) || s[i] == '.') ==> DigitsAndPoints(s) == s
    ensures (forall i :: 0 <= i < |s| ==> !IsDigit(s[i]) && s[i] != '.') ==> DigitsAndPoints(s) == []
  {
    if s != [] {
      DigitsAndPointsKeepsNumerals(s[1..]);
      assert s == [s[0]] + s[1..];
      DigitsAndPointsAppend([s[0]], s[1..]);
      DigitsAndPointsChar(s[0]);
      if forall i :: 0 <= i < |s| ==> IsDigit(s[i]) || s[i] == '.' {
        assert forall i :: 0 <= i < |s[1..]| ==> IsDigit(s[1..][i]) || s[1..][i] == '.' by {
          forall i | 0 <= i < |s[1..]| ensures IsDigit(s[1..][i]) || s[1..][i] == '.' {
            assert s[1..][i] == s[i + 1];
          }
        }
      }
      if forall i :: 0 <= i < |s| ==> !IsDigit(s[i]) && s[i] != '.' {
        assert forall i :: 0 <= i < |s[1..]| ==> !IsDigit(s[1..][i]) && s[1..][i] != '.' by {
          forall i | 0 <= i < |s[1..]| ensures !IsDigit(s[1..][i]) && s[1..][i] != '.' {
            assert s[1..][i] == s[i + 1];
          }
        }
      }
    }
  }

  /**
   * One selector of `_read_summary`: no match, a text that cannot be read,
   * nothing numeric left, or a `float()` that fails all give no reading.
   */
  function SummaryReading(p: Page, sel: string): Option<real>
  {
    var t := Css(sel);
    if Count(p, t) == 0 || t !in p.texts then None
    else
      var n := DigitsAndPoints(RemoveChar(p.texts[t], ','));
      if n == [] then None else ParseDecimal(n)
  }

  function SummaryOutcomes(p: Page, sels: seq<string>): (bs: seq<bool>)
    ensures |bs| == |sels|
  {
    seq(|sels|, i requires 0 <= i < |sels| => SummaryReading(p, sels[i]).Some?)
  }

  /** The first reading in selector order, or 0.0. */
  function SummaryValue(p: Page, sels: seq<string>): real
  {
    match FirstTrue(SummaryOutcomes(p, sels))
    case Some(i) => SummaryReading(p, sels[i]).value
    case None => 0.0
  }

  /** `_read_summary`. */
  method ReadSummary(p: Page, mapping: map<string, seq<string>>, key: string) returns (v: real)
    ensures v == SummaryValue(p, SelectorsOf(mapping, key))
  {
    var selectors := SelectorsOf(mapping, key);
    if selectors == [] {
      return 0.0;
    }
    ghost var bs := SummaryOutcomes(p, selectors);
    for i := 0 to |selectors|
      invariant forall j :: 0 <= j < i ==> !bs[j]
    {
      var reading := SummaryReading(p, selectors[i]);
      if reading.Some? {
        FirstTrueAt(bs, i);
        return reading.value;
      }
    }
    return 0.0;
  }

  /** A digits-and-points text reads as a number that is never negative. */
  lemma UnsignedReading(n: string)
    requires n != [] && forall i :: 0 <= i < |n| ==> IsDigit(n[i]) || n[i] == '.'
    ensures ParseDecimal(n).Some? ==> ParseDecimal(n).value >= 0.0
  {
    assert n[0] != '-' && n[0] != '+';
  }

  /** A summary amount is never negative: a minus sign on the page is dropped. */
  lemma SummaryNonNegative(p: Page, sels: seq<string>)
    ensures SummaryValue(p, sels) >= 0.0
  {
    var r := FirstTrue(SummaryOutcomes(p, sels));
    if r.Some? {
      var t := Css(sels[r.value]);
      UnsignedReading(DigitsAndPoints(RemoveChar(p.texts[t], ',')));
    }
  }

  const IsrKey: string := "_summary_isr_a_pagar"
  const IvaKey: string := "_summary_iva_a_pagar"
  const TotalKey: string := "_summary_total_a_pagar"

  /** ISR, IVA and total, as compared. */
  datatype Totals = Totals(isr: real, iva: real, total: real)

  /** The Excel side: "ISR a cargo", "IVA a cargo" (missing reads as 0) and their sum. */
  function ExcelTotals(lm: map<string, real>): Totals
  {
    var isr := Amount(Get(lm, "ISR a cargo"));
    var iva := Amount(Get(lm, "IVA a cargo"));
    Totals(isr, iva, isr + iva)
  }

  /** The SAT side: a total that reads 0 while a part does not is replaced by the sum of the parts. */
  function SatTotals(isr: real, iva: real, total: real): Totals
  {
    if total == 0.0 && (isr != 0.0 || iva != 0.0) then Totals(isr, iva, isr + iva)
    else Totals(isr, iva, total)
  }

  /** Each pair is within the tolerance, inclusive. */
  predicate TotalsAgree(sat: Totals, excel: Totals, tolerance: int)
  {
    Abs(sat.isr - excel.isr) <= tolerance as real &&
    Abs(sat.iva - excel.iva) <= tolerance as real &&
    Abs(sat.total - excel.total) <= tolerance as real
  }

  /**
   * `check_totals`: reads the three SAT amounts and compares them with the
   * Excel ones; `sat` and `excel` are the figures its message reports.
   */
  method CheckTotals(p: Page, mapping: map<string, seq<string>>, lm: map<string, real>, tolerance: int)
    returns (ok: bool, sat: Totals, excel: Totals)
    ensures excel == ExcelTotals(lm)
    ensures sat == SatTotals(SummaryValue(p, SelectorsOf(mapping, IsrKey)),
      SummaryValue(p, SelectorsOf(mapping, IvaKey)), SummaryValue(p, SelectorsOf(mapping, TotalKey)))
    ensures ok == TotalsAgree(sat, excel, tolerance)
  {
    var excelIsr := Amount(Get(lm, "ISR a cargo"));
    var excelIva := Amount(Get(lm, "IVA a cargo"));
    excel := Totals(excelIsr, excelIva, excelIsr + excelIva);
    sat := ReadSatTotals(p, mapping);
    var okIsr := Abs(sat.isr - excel.isr) <= tolerance as real;
    var okIva := Abs(sat.iva - excel.iva) <= tolerance as real;
    var okTotal := Abs(sat.total - excel.total) <= tolerance as real;
    ok := okIsr && okIva && okTotal;
  }

  /** The three SAT summary amounts, with the total replaced when it reads 0 but a part does not. */
  method ReadSatTotals(p: Page, mapping: map<string, seq<string>>) returns (sat: Totals)
    ensures sat == SatTotals(SummaryValue(p, SelectorsOf(mapping, IsrKey)),
      SummaryValue(p, SelectorsOf(mapping, IvaKey)), SummaryValue(p, SelectorsOf(mapping, TotalKey)))
  {
    var satIsr := ReadSummary(p, mapping, IsrKey);
    var satIva := ReadSummary(p, mapping, IvaKey);
    var satTotal := ReadSummary(p, mapping, TotalKey);
    if satTotal == 0.0 && (satIsr != 0.0 || satIva != 0.0) {
      satTotal := satIsr + satIva;
    }
    sat := Totals(satIsr, satIva, satTotal);
  }

  /** A difference of exactly the tolerance still passes. */
  lemma ToleranceInclusive(lm: map<string, real>, tolerance: nat)
    ensures TotalsAgree(SatTotals(ExcelTotals(lm).isr + tolerance as real, ExcelTotals(lm).iva,
      ExcelTotals(lm).total + tolerance as real), ExcelTotals(lm), tolerance)
  {
    var e := ExcelTotals(lm);
    if e.total + tolerance as real == 0.0 && (e.isr + tolerance as real != 0.0 || e.iva != 0.0) {
      assert e.isr + tolerance as real + e.iva == e.total + tolerance as real;
    }
  }

  /**
   * SAT parts equal to the Excel ones pass even when the SAT total field
   * reads 0: the total is then taken as the sum of the parts.
   */
  lemma ZeroTotalReplaced(lm: map<string, real>, tolerance: nat)
    ensures TotalsAgree(SatTotals(ExcelTotals(lm).isr, ExcelTotals(lm).iva, 0.0), ExcelTotals(lm), tolerance)
  {
  }

  /** Missing "ISR a cargo" and "IVA a cargo" compare as 0. */
  lemma MissingExcelIsZero(lm: map<string, real>)
    requires "ISR a cargo" !in lm && "IVA a cargo" !in lm
    ensures ExcelTotals(lm) == Totals(0.0, 0.0, 0.0)
  {
  }

  /** Passing at one tolerance means passing at any larger one. */
  lemma ToleranceMonotone(sat: Totals, excel: Totals, t1: int, t2: int)
    requires t1 <= t2 && TotalsAgree(sat, excel, t1)
    ensures TotalsAgree(sat, excel, t2)
  {
  }

  /** A negative tolerance rejects everything. */
  lemma NegativeToleranceRejects(sat: Totals, excel: Totals, tolerance: int)
    requires tolerance < 0
    ensures !TotalsAgree(sat, excel, tolerance)
  {
  }
}
