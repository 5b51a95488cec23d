/**
 * `fill_initial_form`: the values chosen for the "Configuración de la
 * declaración" dropdowns and the order in which they are filled.
 */
module InitialForm {
  import opened Text
  import opened Currency
  import opened Impuestos

  /** `_SAT_PERIODICIDAD_VALUE.get(p, "M")`: the option value for a periodicity number. */
  function PeriodicidadCode(p: int): string
  {
    match p
    case 1 => "M"   // Mensual
    case 3 => "T"   // Trimestral
    case 4 => "Q"   // Cuatrimestral
    case 5 => "S"   // Semestral (A)
    case 6 => "L"   // Semestral (B) Liquidación
    case 7 => "J"   // Ajuste
    case 8 => "Y"   // Del Ejercicio
    case 9 => "N"   // Sin Periodo
    case _ => "M"
  }

  /** The periodicity numbers the table knows. */
  predicate KnownPeriodicidad(p: int)
  {
    p == 1 || 3 <= p <= 9
  }

  /** Reading an option value back as its periodicity number. */
  function PeriodicidadNumber(code: string): Option<int>
  {
    if code == "M" then Some(1)
    else if code == "T" then Some(3)
    else if code == "Q" then Some(4)
    else if code == "S" then Some(5)
    else if code == "L" then Some(6)
    else if code == "J" then Some(7)
    else if code == "Y" then Some(8)
    else if code == "N" then Some(9)
    else None
  }

  /** `_SAT_PERIODO_LABEL.get(month, "Enero")`. */
  function PeriodoLabel(month: int): string
  {
    match month
    case 1 => "Enero"
    case 2 => "Febrero"
    case 3 => "Marzo"
    case 4 => "Abril"
    case 5 => "Mayo"
    case 6 => "Junio"
    case 7 => "Julio"
    case 8 => "Agosto"
    case 9 => "Septiembre"
    case 10 => "Octubre"
    case 11 => "Noviembre"
    case 12 => "Diciembre"
    case _ => "Enero"
  }

  /** The month a Spanish month name stands for. */
  function MonthOfLabel(name: string): Option<int>
  {
    if name == "Enero" then Some(1)
    else if name == "Febrero" then Some(2)
    else if name == "Marzo" then Some(3)
    else if name == "Abril" then Some(4)
    else if name == "Mayo" then Some(5)
    else if name == "Junio" then Some(6)
    else if name == "Julio" then Some(7)
    else if name == "Agosto" then Some(8)
    else if name == "Septiembre" then Some(9)
    else if name == "Octubre" then Some(10)
    else if name == "Noviembre" then Some(11)
    else if name == "Diciembre" then Some(12)
    else None
  }

  /** The four dropdowns of the form. */
  datatype Field = Ejercicio | Periodicidad | Periodo | Tipo

  /**
   * One dropdown fill: the labels tried next to the control, in order, the
   * value chosen, and whether the `initial_*` mapping selectors are tried
   * when no label works.
   */
  datatype Fill = Fill(field: Field, labels: seq<string>, value: string, mappingFallback: bool)

  /**
   * The fills `fill_initial_form` performs, in order: Ejercicio when the
   * year is known, Periodicidad, Periodo when the month is known, then Tipo.
   * The periodicity is truncated with `int()` before the table lookup.
   */
  function InitialFills(year: Option<int>, month: Option<int>, periodicidad: real, tipo: string): seq<Fill>
  {
    (if year.Some? then [Fill(Ejercicio, ["Ejercicio"], IntToDecimal(year.value), true)] else [])
    + [Fill(Periodicidad, ["Periodicidad"], PeriodicidadCode(Trunc(periodicidad)), false)]
    + (if month.Some? then [Fill(Periodo, ["Periodo", "Período"], PeriodoLabel(month.value), true)] else [])
    + [Fill(Tipo, ["Tipo de declaración", "Tipo de Declaración"], tipo, true)]
  }

  /** The fills for what `read_impuestos` returned. */
  function FillsFor(data: ImpuestosData): seq<Fill>
  {
    InitialFills(data.year, data.month, data.periodicidad, data.tipoDeclaracion)
  }

  function FieldsOf(fills: seq<Fill>): (fs: seq<Field>)
    ensures |fs| == |fills| && forall i :: 0 <= i < |fills| ==> fs[i] == fills[i].field
  {
    seq(|fills|, i requires 0 <= i < |fills| => fills[i].field)
  }

  /**
   * The order is fixed: Ejercicio, Periodicidad, Periodo, Tipo, where
   * Ejercicio is left out without a year and Periodo without a month.
   */
  lemma FillOrder(year: Option<int>, month: Option<int>, periodicidad: real, tipo: string)
    ensures FieldsOf(InitialFills(year, month, periodicidad, tipo)) ==
      (if year.Some? then [Ejercicio] else []) + [Periodicidad] +
      (if month.Some? then [Periodo] else []) + [Tipo]
  {
  }

  /**
   * Periodicidad and Tipo are always filled, Tipo last; Ejercicio and
   * Periodo exactly when the year and the month are known.
   */
  lemma AlwaysFilled(year: Option<int>, month: Option<int>, periodicidad: real, tipo: string)
    ensures var fs := FieldsOf(InitialFills(year, month, periodicidad, tipo));
      Periodicidad in fs && fs[|fs| - 1] == Tipo &&
      (Ejercicio in fs <==> year.Some?) && (Periodo in fs <==> month.Some?)
  {
    FillOrder(year, month, periodicidad, tipo);
  }

  /** Every periodicity number of the table maps to its own option value. */
  lemma PeriodicidadRoundTrip(p: int)
    requires KnownPeriodicidad(p)
    ensures PeriodicidadNumber(PeriodicidadCode(p)) == Some(p)
  {
  }

  /** Numbers the table does not know fall back to "M" (Mensual). */
  lemma PeriodicidadDefault(p: int)
    requires !KnownPeriodicidad(p)
    ensures PeriodicidadCode(p) == "M"
  {
  }

  /** A periodicity of 3.7 selects Trimestral: `int()` truncates. */
  lemma PeriodicidadTruncates()
    ensures PeriodicidadCode(Trunc(3.7)) == "T"
  {
    assert Trunc(3.7) == 3;
  }

  /** Months 1..12 map to their Spanish names and back. */
  lemma MonthRoundTrip(month: int)
    requires 1 <= month <= 12
    ensures MonthOfLabel(PeriodoLabel(month)) == Some(month)
  {
  }

  /** Any other month, such as the 13 of a "202313_" file, selects "Enero". */
  lemma MonthDefault(month: int)
    requires month < 1 || month > 12
    ensures PeriodoLabel(month) == "Enero"
  {
  }

  /**
   * For a workbook named "YYYYMM_...", the form is filled with that year
   * and that month's name, then Periodicidad and Tipo "Normal".
   */
  lemma FillsFromFileName(ws: Worksheet, year: nat, month: nat, rest: string)
    requires 1000 <= year < Pow10(4) && 1 <= month <= 12
    ensures var fills := FillsFor(ReadImpuestosSpec(ws, ZeroPad(year, 4) + ZeroPad(month, 2) + ['_'] + rest));
      |fills| == 4 &&
      fills[0] == Fill(Ejercicio, ["Ejercicio"], NatToDecimal(year), true) &&
      fills[2].value == PeriodoLabel(month) && MonthOfLabel(fills[2].value) == Some(month) &&
      fills[3].field == Tipo && fills[3].value == "Normal"
  {
    var name := ZeroPad(year, 4) + ZeroPad(month, 2) + ['_'] + rest;
    var data := ReadImpuestosSpec(ws, name);
    PeriodRoundTrip(year, month, rest);
    ReadImpuestosPeriod(ws, name);
    PeriodFills(data, year, month);
  }

  /** The fills for a known year and month. */
  lemma PeriodFills(data: ImpuestosData, year: nat, month: nat)
    requires data.year == Some(year as int) && data.month == Some(month as int)
    requires 1 <= month <= 12
    ensures var fills := FillsFor(data);
      |fills| == 4 &&
      fills[0] == Fill(Ejercicio, ["Ejercicio"], NatToDecimal(year), true) &&
      fills[2].value == PeriodoLabel(month) && MonthOfLabel(fills[2].value) == Some(month) &&
      fills[3].field == Tipo && fills[3].value == data.tipoDeclaracion
  {
    MonthRoundTrip(month);
  }
}
