/**
 * `read_impuestos`: the label map read from the Impuestos sheet.
 *
 * Rows 4..29 (ISR) and 33..58 (IVA) are scanned in order. Every row offers a
 * label in column D with its value in E; a row whose E text is not
 * number-like also offers a label in E with its value in F. A label whose
 * value cell is empty is queued, and the queued cells are resolved after
 * the scan by following simple references (`=F8`, `=+F8`) through the
 * formula view of the sheet. The period comes from a `YYYYMM_` file name.
 */
module Impuestos {
  import opened Text
  import opened Currency
  import opened CellRefs

  /** A cell address `(row, col)`, both 1-based. */
  type Cell = (int, int)

  /**
   * The sheet as the two openpyxl views show it: `data` holds cached values
   * (`data_only=True`, a formula without a cache reads as empty) and
   * `formulas` the stored content (`data_only=False`, formulas as text).
   * Empty cells are absent from the maps.
   */
  datatype Worksheet = Worksheet(data: map<Cell, CellValue>, formulas: map<Cell, CellValue>)

  function DataAt(ws: Worksheet, k: Cell): CellValue
  {
    if k in ws.data then ws.data[k] else Blank
  }

  function FormulaAt(ws: Worksheet, k: Cell): CellValue
  {
    if k in ws.formulas then ws.formulas[k] else Blank
  }

  const ColD: int := 4
  const ColE: int := 5
  const ColF: int := 6

  /** `ISR_RANGE` and `IVA_RANGE`, both ends included. */
  const Ranges: seq<(int, int)> := [(4, 29), (33, 58)]

  const BaseGravable: string := "Base gravable del pago provisional"
  const IngresosCobrados: string := "Ingresos cobrados y amparados por factura del mes"

  /** `str(_cell_value(cell)).strip()`, or `None` for an empty cell. */
  function ShownText(v: CellValue): Option<string>
  {
    match v
    case Blank => None
    case Number(_, shown) => Some(Strip(shown))
    case Date(shown) => Some(Strip(shown))
    case Text(t) => Some(Strip(t))
  }

  /**
   * The label `add_label_value` keeps: none for an empty cell, a zero number
   * (falsy in Python) or blank text; otherwise the stripped text.
   */
  function LabelOf(v: CellValue): (l: Option<string>)
    ensures l.Some? ==> l.value != [] && ShownText(v) == l
    ensures v.Text? ==> (l.Some? <==> Strip(v.text) != [])
  {
    match v
    case Blank => None
    case Number(x, shown) => if x == 0.0 || Strip(shown) == [] then None else Some(Strip(shown))
    case Date(shown) => if Strip(shown) == [] then None else Some(Strip(shown))
    case Text(t) => if Strip(t) == [] then None else Some(Strip(t))
  }

  predicate NumberLikeChar(ch: char)
  {
    IsDigit(ch) || IsSpace(ch) || ch == '$' || ch == ',' || ch == '.' || ch == '-'
  }

  /** The `^[\d\s\$,.\-]+$` test that keeps amounts in column E from being read as labels. */
  predicate NumberLike(s: string)
  {
    s != [] && forall i :: 0 <= i < |s| ==> NumberLikeChar(s[i])
  }

  /** The E/F layout applies to a row whose E cell shows text that is not number-like. */
  predicate OffersLabelInE(v: CellValue)
  {
    ShownText(v).Some? && ShownText(v).value != [] && !NumberLike(ShownText(v).value)
  }

  /**
   * How `add_label_value` reads a value cell: `None` (queue the cell) when it
   * is empty or blank text, the number itself, or `_parse_currency` of it.
   */
  function ValueOf(raw: CellValue): (r: Option<real>)
    ensures r.None? <==> raw.Blank? || (raw.Text? && Strip(raw.text) == [])
    ensures raw.Number? ==> r == Some(raw.value)
    ensures raw.Date? ==> r == Some(0.0)
  {
    match raw
    case Blank => None
    case Number(x, _) => Some(x)
    case Date(_) => Some(ParseCurrency(raw))
    case Text(t) => if Strip(t) == [] then None else Some(ParseCurrency(raw))
  }

  /**
   * One `add_label_value` call that got past its label guard: the label, the
   * position of the value cell and what `_cell_value` read there.
   */
  datatype Entry = Entry(key: string, row: int, col: int, value: Option<real>)

  /** Layout 1: the label in column D, its value in column E. */
  function LayoutDE(ws: Worksheet, row: int): seq<Entry>
  {
    var d := DataAt(ws, (row, ColD));
    if LabelOf(d).Some? then [Entry(LabelOf(d).value, row, ColE, ValueOf(DataAt(ws, (row, ColE))))] else []
  }

  /** Layout 2: the label in column E, its value in column F, when E shows text that is not number-like. */
  function LayoutEF(ws: Worksheet, row: int): seq<Entry>
  {
    var e := DataAt(ws, (row, ColE));
    if OffersLabelInE(e) && LabelOf(e).Some? then [Entry(LabelOf(e).value, row, ColF, ValueOf(DataAt(ws, (row, ColF))))] else []
  }

  /** The entries one row contributes: D/E first, then E/F. */
  function RowEntries(ws: Worksheet, row: int): seq<Entry>
  {
    LayoutDE(ws, row) + LayoutEF(ws, row)
  }

  /**
   * A row gives at most two labelled values, both on that row: one valued in
   * column E and one valued in column F whose label is not number-like.
   */
  lemma RowEntriesShape(ws: Worksheet, row: int)
    ensures |RowEntries(ws, row)| <= 2
    ensures forall e :: e in RowEntries(ws, row) ==> e.row == row && e.key != []
    ensures forall e :: e in RowEntries(ws, row) ==> e.col == ColE || (e.col == ColF && !NumberLike(e.key))
  {
    var a, b := LayoutDE(ws, row), LayoutEF(ws, row);
    assert forall e :: e in a ==> e.row == row && e.key != [] && e.col == ColE;
    assert forall e :: e in b ==> e.row == row && e.key != [] && e.col == ColF && !NumberLike(e.key) by {
      if b != [] {
        var v := DataAt(ws, (row, ColE));
        assert LabelOf(v).value == ShownText(v).value;
      }
    }
    assert forall e :: e in a + b ==> e in a || e in b;
  }

  /** `range(lo, hi)` */
  function Interval(lo: int, hi: int): (s: seq<int>)
    ensures |s| == if hi <= lo then 0 else hi - lo
    ensures forall i :: 0 <= i < |s| ==> s[i] == lo + i
    decreases hi - lo
  {
    if hi <= lo then [] else Interval(lo, hi - 1) + [hi - 1]
  }

  /** The rows of the ranges, in order. */
  function RowsOf(ranges: seq<(int, int)>): seq<int>
  {
    if ranges == [] then []
    else RowsOf(ranges[..|ranges| - 1]) + Interval(ranges[|ranges| - 1].0, ranges[|ranges| - 1].1 + 1)
  }

  /** The entries of the rows, in scan order. */
  function EntriesOf(ws: Worksheet, rows: seq<int>): seq<Entry>
  {
    if rows == [] then [] else EntriesOf(ws, rows[..|rows| - 1]) + RowEntries(ws, rows[|rows| - 1])
  }

  /** `label_map` and `formula_cells` during the scan. */
  datatype Scan = Scan(labels: map<string, real>, pending: seq<Entry>)

  const EmptyScan: Scan := Scan(map[], [])

  /** One entry: its value is stored under its label, or the cell is queued. */
  function AddEntry(st: Scan, e: Entry): Scan
  {
    if e.value.Some? then Scan(st.labels[e.key := e.value.value], st.pending)
    else Scan(st.labels, st.pending + [e])
  }

  function ScanFrom(st: Scan, es: seq<Entry>): Scan
  {
    if es == [] then st else AddEntry(ScanFrom(st, es[..|es| - 1]), es[|es| - 1])
  }

  /** The closure `add_label_value` with the `label_map` and `formula_cells` it fills. */
  class LabelReader {
    var labelMap: map<string, real>
    var formulaCells: seq<Entry>

    function State(): Scan
      reads this
    {
      Scan(labelMap, formulaCells)
    }

    constructor ()
      ensures State() == EmptyScan
    {
      labelMap := map[];
      formulaCells := [];
    }

    /** `add_label_value(label, raw, row, col)` */
    method AddLabelValue(labelCell: CellValue, raw: CellValue, row: int, col: int)
      modifies this
      ensures LabelOf(labelCell).None? ==> State() == old(State())
      ensures LabelOf(labelCell).Some? ==>
        State() == AddEntry(old(State()), Entry(LabelOf(labelCell).value, row, col, ValueOf(raw)))
    {
      var l := LabelOf(labelCell);
      if l.None? {
        return;
      }
      var v := ValueOf(raw);
      if v.Some? {
        labelMap := labelMap[l.value := v.value];
      } else {
        formulaCells := formulaCells + [Entry(l.value, row, col, v)];
      }
    }

    /** `label_map[label] = val` for a resolved cell, with the "Base gravable" fallback. */
    method StoreResolved(key: string, v: real)
      modifies this
      ensures labelMap == Store(old(labelMap), key, v)
      ensures formulaCells == old(formulaCells)
    {
      labelMap := labelMap[key := v];
      if v == 0.0 && key == BaseGravable {
        if IngresosCobrados in labelMap && labelMap[IngresosCobrados] != 0.0 {
          labelMap := labelMap[key := labelMap[IngresosCobrados]];
        }
      }
    }
  }

  /** A cached value that is formula text does not count as a cached value. */
  predicate IsFormulaText(v: CellValue)
  {
    v.Text? && Strip(v.text) != [] && Strip(v.text)[0] == '='
  }

  /** A cell whose cached value `_cell_display_value` takes as it is. */
  predicate HasCachedValue(ws: Worksheet, k: Cell)
  {
    DataAt(ws, k) != Blank && !IsFormulaText(DataAt(ws, k))
  }

  /** What `_cell_display_value` does at a cell it has not visited yet. */
  datatype Step = Shown(shown: CellValue) | Follow(next: Cell) | Stop

  /**
   * One step at an unvisited cell: a cached value wins; otherwise the
   * formula view decides. Only a formula cell is followed.
   */
  function NextStep(ws: Worksheet, k: Cell): (s: Step)
    ensures s.Follow? ==> k in ws.formulas
  {
    if HasCachedValue(ws, k) then Shown(DataAt(ws, k)) else FormulaStep(FormulaAt(ws, k))
  }

  /** A number in the formula view is shown, a simple reference is followed, anything else shows nothing. */
  function FormulaStep(f: CellValue): (s: Step)
    ensures s.Follow? ==> f.Text?
  {
    if f.Number? then Shown(f) else RefStep(FormulaRef(f))
  }

  /** `if ref:` on what `_parse_cell_ref` returned. */
  function RefStep(ref: Option<Cell>): Step
  {
    match ref
    case Some(k2) => Follow(k2)
    case None => Stop
  }

  /** Rows the sheet reader accepts: `ws.cell(row=0, ...)` raises `ValueError`. */
  predicate OnSheet(k: Cell)
  {
    k.0 >= 1
  }

  /**
   * `_cell_display_value(r, c, visited)`, as the cell value whose
   * `_parse_currency` it returns, or `None` where it raises: a revisited cell
   * shows nothing (0.0), and reading an unvisited cell in row 0 (`=A0`
   * parses as a reference) raises. Each reference followed visits one more
   * formula cell, so the chase ends even on a reference cycle.
   */
  function Chase(ws: Worksheet, k: Cell, visited: set<Cell>): Option<CellValue>
    decreases ws.formulas.Keys - visited
  {
    if k in visited then Some(Blank)
    else if !OnSheet(k) then None
    else match NextStep(ws, k)
      case Shown(v) => Some(v)
      case Follow(k2) => Chase(ws, k2, visited + {k})
      case Stop => Some(Blank)
  }

  /** The chase at an unvisited cell on the sheet: one step, then what it leads to. */
  function ChaseAt(ws: Worksheet, k: Cell, visited: set<Cell>): Option<CellValue>
    requires k !in visited && OnSheet(k)
  {
    match NextStep(ws, k)
    case Shown(v) => Some(v)
    case Follow(k2) => Chase(ws, k2, visited + {k})
    case Stop => Some(Blank)
  }

  /**
   * `_cell_display_value`, its recursion unrolled into a loop over one
   * `visited` set; `None` where it raises.
   */
  method DisplayValue(ws: Worksheet, k: Cell) returns (v: Option<real>)
    ensures v.None? <==> Chase(ws, k, {}).None?
    ensures v.Some? ==> v.value == ParseCurrency(Chase(ws, k, {}).value)
  {
    var visited: set<Cell> := {};
    var cur := k;
    while true
      invariant Chase(ws, cur, visited) == Chase(ws, k, {})
      decreases ws.formulas.Keys - visited
    {
      if cur in visited {
        return Some(0.0);
      }
      if cur.0 < 1 {
        return None;
      }
      assert Chase(ws, cur, visited) == ChaseAt(ws, cur, visited);
      var raw := DataAt(ws, cur);
      if raw != Blank && !IsFormulaText(raw) {
        assert NextStep(ws, cur) == Shown(raw);
        return Some(ParseCurrency(raw));
      }
      var formula := FormulaAt(ws, cur);
      assert NextStep(ws, cur) == FormulaStep(formula);
      if formula.Number? {
        return Some(formula.value);
      }
      if !formula.Text? {
        return Some(0.0);
      }
      var ref := ParseCellRef(formula.text);
      assert FormulaStep(formula) == RefStep(ref);
      if ref.None? {
        return Some(0.0);
      }
      visited := visited + {cur};
      cur := ref.value;
    }
  }

  /**
   * What the resolution loop finds for one queued cell: no simple reference,
   * the display value of the referenced cell, or an exception on the way.
   */
  datatype Found = NoRef | Found(value: real) | Raised

  /** The display value of the cell a queued cell's formula refers to, when it is a simple reference. */
  function ReferencedValue(ws: Worksheet, e: Entry): Found
  {
    match FormulaRef(FormulaAt(ws, (e.row, e.col)))
    case None => NoRef
    case Some(c) =>
      match Chase(ws, c, {})
      case None => Raised
      case Some(v) => Found(ParseCurrency(v))
  }

  /** The cell a formula view value names, when it is text that is a simple reference. */
  function FormulaRef(f: CellValue): Option<Cell>
  {
    if f.Text? then CellRefOf(f.text) else None
  }

  /**
   * `label_map[label] = val`, then the "Base gravable" fallback: a 0.0 for
   * "Base gravable del pago provisional" gives way to a non-zero
   * "Ingresos cobrados y amparados por factura del mes".
   */
  function Store(lm: map<string, real>, key: string, v: real): map<string, real>
  {
    var lm1 := lm[key := v];
    if v == 0.0 && key == BaseGravable && IngresosCobrados in lm1 && lm1[IngresosCobrados] != 0.0
    then lm1[key := lm1[IngresosCobrados]]
    else lm1
  }

  /**
   * A store adds its label and leaves every other label as it was; the label
   * gets the value, or the "Ingresos cobrados" value when the fallback applies.
   */
  lemma StoreSpec(lm: map<string, real>, key: string, v: real)
    ensures key in Store(lm, key, v)
    ensures forall l :: l != key ==> (l in Store(lm, key, v) <==> l in lm)
    ensures forall l :: l != key && l in lm ==> Store(lm, key, v)[l] == lm[l]
    ensures Store(lm, key, v)[key] == v
      || (v == 0.0 && key == BaseGravable && IngresosCobrados in lm && Store(lm, key, v)[key] == lm[IngresosCobrados] != 0.0)
  {
  }

  /** What the resolution loop found for one queued cell, under its label. */
  datatype Lookup = Lookup(key: string, found: Found)

  function LookupOf(ws: Worksheet, e: Entry): Lookup
  {
    Lookup(e.key, ReferencedValue(ws, e))
  }

  /** The lookups for the queued cells, in queue order. */
  function Lookups(ws: Worksheet, pending: seq<Entry>): seq<Lookup>
  {
    seq(|pending|, i requires 0 <= i < |pending| => LookupOf(ws, pending[i]))
  }

  /** One lookup: a found value is stored under the label, otherwise nothing changes. */
  function Resolve(lm: map<string, real>, x: Lookup): map<string, real>
  {
    match x.found
    case Found(v) => Store(lm, x.key, v)
    case _ => lm
  }

  /** The lookups in order, none of them stopping the loop. */
  function ResolveRun(lm: map<string, real>, xs: seq<Lookup>): map<string, real>
  {
    if xs == [] then lm
    else Resolve(ResolveRun(lm, xs[..|xs| - 1]), xs[|xs| - 1])
  }

  /** The number of lookups before the first one that raised, or all of them. */
  function Completed(xs: seq<Lookup>): (n: nat)
    ensures n <= |xs|
  {
    if xs == [] then 0
    else if xs[0].found.Raised? then 0
    else 1 + Completed(xs[1..])
  }

  /** No lookup before `Completed(xs)` raised, and the one at it did. */
  lemma {:induction false} CompletedSpec(xs: seq<Lookup>)
    ensures forall j :: 0 <= j < Completed(xs) ==> !xs[j].found.Raised?
    ensures Completed(xs) < |xs| ==> xs[Completed(xs)].found.Raised?
  {
    if xs != [] && !xs[0].found.Raised? {
      CompletedSpec(xs[1..]);
      forall j | 0 <= j < Completed(xs)
        ensures !xs[j].found.Raised?
      {
        if j > 0 {
          assert xs[j] == xs[1..][j - 1];
        }
      }
    }
  }

  /**
   * The resolution loop inside its `try`: the first lookup that raises
   * leaves the loop, and the labels stored before it stay.
   */
  function ResolveAll(lm: map<string, real>, xs: seq<Lookup>): map<string, real>
  {
    ResolveRun(lm, xs[..Completed(xs)])
  }

  /** `re.match(r"^(\d{4})(\d{2})_", basename)`: year and month, not range-checked. */
  function PeriodOf(name: string): Option<(int, int)>
  {
    if |name| >= 7 && AllDigits(name[..4]) && AllDigits(name[4..6]) && name[6] == '_'
    then Some((DigitsValue(name[..4]), DigitsValue(name[4..6])))
    else None
  }

  /** `label_map.get("Periodicidad") or 1`: absent and 0.0 both give 1. */
  function PeriodicidadOf(lm: map<string, real>): real
  {
    if "Periodicidad" in lm && lm["Periodicidad"] != 0.0 then lm["Periodicidad"] else 1.0
  }

  datatype ImpuestosData = ImpuestosData(
    labelMap: map<string, real>,
    year: Option<int>,
    month: Option<int>,
    periodicidad: real,
    tipoDeclaracion: string)

  /** What `read_impuestos` returns for a sheet and the workbook's base name. */
  function ReadImpuestosSpec(ws: Worksheet, fileName: string): ImpuestosData
  {
    var st := ScanFrom(EmptyScan, EntriesOf(ws, RowsOf(Ranges)));
    var lm := ResolveAll(st.labels, Lookups(ws, st.pending));
    var period := PeriodOf(fileName);
    ImpuestosData(
      lm,
      if period.Some? then Some(period.value.0) else None,
      if period.Some? then Some(period.value.1) else None,
      PeriodicidadOf(lm),
      "Normal")
  }

  /** The scan of one row, as the loop body of `read_impuestos` does it. */
  method ReadRow(ws: Worksheet, reader: LabelReader, row: int)
    modifies reader
    ensures reader.State() == ScanFrom(old(reader.State()), RowEntries(ws, row))
  {
    ghost var st := reader.State();
    var labelD := DataAt(ws, (row, ColD));
    var valueE := DataAt(ws, (row, ColE));
    reader.AddLabelValue(labelD, valueE, row, ColE);
    ghost var first := LayoutDE(ws, row);
    assert reader.State() == ScanFrom(st, first) by {
      assert first != [] ==> first[..0] == [];
    }
    var labelE := valueE;
    var valueF := DataAt(ws, (row, ColF));
    ghost var second := LayoutEF(ws, row);
    if OffersLabelInE(labelE) {
      reader.AddLabelValue(labelE, valueF, row, ColF);
    }
    assert reader.State() == ScanFrom(ScanFrom(st, first), second) by {
      assert second != [] ==> second[..0] == [];
    }
    ScanFromAppend(st, first, second);
  }

  /** The inner row loop of `read_impuestos`: rows `lo..hi`, both included, in order. */
  method ReadRows(ws: Worksheet, reader: LabelReader, lo: int, hi: int)
    modifies reader
    ensures reader.State() == ScanFrom(old(reader.State()), EntriesOf(ws, Interval(lo, hi + 1)))
  {
    ghost var st := reader.State();
    if hi < lo {
      assert Interval(lo, hi + 1) == [];
      return;
    }
    for row := lo to hi + 1
      invariant reader.State() == ScanFrom(st, EntriesOf(ws, Interval(lo, row)))
    {
      ghost var rows := Interval(lo, row);
      ReadRow(ws, reader, row);
      assert Interval(lo, row + 1) == rows + [row];
      EntriesStep(ws, rows, row);
      ScanFromAppend(st, EntriesOf(ws, rows), RowEntries(ws, row));
    }
  }

  /**
   * The lookup of the resolution loop of `read_impuestos` for one queued
   * cell: its formula, the reference it names, and that cell's display value.
   */
  method ReferencedDisplay(ws: Worksheet, e: Entry) returns (rv: Found)
    ensures rv == ReferencedValue(ws, e)
  {
    var formula := FormulaAt(ws, (e.row, e.col));
    if !formula.Text? {
      return NoRef;
    }
    var ref := ParseCellRef(formula.text);
    if ref.None? {
      return NoRef;
    }
    var v := DisplayValue(ws, ref.value);
    if v.None? {
      return Raised;
    }
    return Found(v.value);
  }

  /** One queued cell of the resolution loop of `read_impuestos`, once its lookup is known. */
  method ResolveEntry(reader: LabelReader, key: string, found: Found)
    modifies reader
    ensures reader.labelMap == Resolve(old(reader.labelMap), Lookup(key, found))
    ensures reader.formulaCells == old(reader.formulaCells)
  {
    if found.Found? {
      reader.StoreResolved(key, found.value);
    }
  }

  /** The two row loops of `read_impuestos`, one range after the other. */
  method ScanRanges(ws: Worksheet, reader: LabelReader)
    modifies reader
    ensures reader.State() == ScanFrom(old(reader.State()), EntriesOf(ws, RowsOf(Ranges)))
  {
    ghost var st := reader.State();
    for k := 0 to |Ranges|
      invariant reader.State() == ScanFrom(st, EntriesOf(ws, RowsOf(Ranges[..k])))
    {
      var (lo, hi) := Ranges[k];
      ReadRows(ws, reader, lo, hi);
      RangesStep(ws, k);
      ScanFromAppend(st, EntriesOf(ws, RowsOf(Ranges[..k])), EntriesOf(ws, Interval(lo, hi + 1)));
    }
    assert Ranges[..|Ranges|] == Ranges;
  }

  /** The entries of the first `k + 1` ranges are those of the first `k`, then those of range `k`. */
  lemma RangesStep(ws: Worksheet, k: int)
    requires 0 <= k < |Ranges|
    ensures EntriesOf(ws, RowsOf(Ranges[..k + 1]))
         == EntriesOf(ws, RowsOf(Ranges[..k])) + EntriesOf(ws, Interval(Ranges[k].0, Ranges[k].1 + 1))
  {
    var before, rows := RowsOf(Ranges[..k]), Interval(Ranges[k].0, Ranges[k].1 + 1);
    assert RowsOf(Ranges[..k + 1]) == before + rows by {
      assert Ranges[..k + 1][..k] == Ranges[..k];
    }
    EntriesAppend(ws, before, rows);
  }

  /**
   * The resolution loop of `read_impuestos` over the queued cells, inside
   * its `try`: an exception ends the loop.
   */
  method ResolvePending(ws: Worksheet, reader: LabelReader, pending: seq<Entry>)
    modifies reader
    ensures reader.labelMap == ResolveAll(old(reader.labelMap), Lookups(ws, pending))
  {
    ghost var lm0 := reader.labelMap;
    ghost var xs := Lookups(ws, pending);
    var j := 0;
    while j < |pending|
      invariant j <= Completed(xs)
      invariant reader.labelMap == ResolveRun(lm0, xs[..j])
    {
      var found := ReferencedDisplay(ws, pending[j]);
      LookupAt(ws, pending, j, found);
      if found.Raised? {
        StopAt(lm0, xs, j);
        return;
      }
      ResolveEntry(reader, pending[j].key, found);
      RunStep(lm0, xs, j);
      CompletedPast(xs, j);
      j := j + 1;
    }
    StopAt(lm0, xs, j);
  }

  /** Where the loop leaves, at the first lookup that raised or at the end, it has built `ResolveAll`. */
  lemma StopAt(lm: map<string, real>, xs: seq<Lookup>, j: int)
    requires 0 <= j <= Completed(xs)
    requires j == |xs| || xs[j].found.Raised?
    ensures ResolveAll(lm, xs) == ResolveRun(lm, xs[..j])
  {
    CompletedSpec(xs);
  }

  /** A lookup at or before `Completed(xs)` that did not raise lies before it. */
  lemma CompletedPast(xs: seq<Lookup>, j: int)
    requires 0 <= j <= Completed(xs) && j < |xs| && !xs[j].found.Raised?
    ensures j + 1 <= Completed(xs)
  {
    CompletedSpec(xs);
  }

  /** One more lookup extends the run by one step. */
  lemma RunStep(lm: map<string, real>, xs: seq<Lookup>, j: int)
    requires 0 <= j < |xs|
    ensures ResolveRun(lm, xs[..j + 1]) == Resolve(ResolveRun(lm, xs[..j]), xs[j])
  {
    assert xs[..j + 1][..j] == xs[..j];
  }

  /** The lookup the loop makes for queued cell `j`. */
  lemma LookupAt(ws: Worksheet, pending: seq<Entry>, j: int, found: Found)
    requires 0 <= j < |pending| && found == ReferencedValue(ws, pending[j])
    ensures Lookups(ws, pending)[j] == Lookup(pending[j].key, found)
  {
  }

  /** `read_impuestos`, with the workbook as a sheet and its base name. */
  method ReadImpuestos(ws: Worksheet, fileName: string) returns (r: ImpuestosData)
    ensures r == ReadImpuestosSpec(ws, fileName)
  {
    var reader := new LabelReader();
    ScanRanges(ws, reader);
    ResolvePending(ws, reader, reader.formulaCells);
    var lm := reader.labelMap;
    var period := PeriodOf(fileName);
    var year := if period.Some? then Some(period.value.0) else None;
    var month := if period.Some? then Some(period.value.1) else None;
    r := ImpuestosData(lm, year, month, PeriodicidadOf(lm), "Normal");
  }

  /** The entries of two runs of rows are those of the first, then those of the second. */
  lemma {:induction false} EntriesAppend(ws: Worksheet, a: seq<int>, b: seq<int>)
    ensures EntriesOf(ws, a + b) == EntriesOf(ws, a) + EntriesOf(ws, b)
    decreases |b|
  {
    if b == [] {
      assert a + b == a;
    } else {
      var pre, last := b[..|b| - 1], b[|b| - 1];
      var x, y, z := EntriesOf(ws, a), EntriesOf(ws, pre), RowEntries(ws, last);
      assert EntriesOf(ws, a + b) == EntriesOf(ws, a + pre) + z by {
        assert (a + b)[..|a + b| - 1] == a + pre;
      }
      assert EntriesOf(ws, a + pre) == x + y by {
        EntriesAppend(ws, a, pre);
      }
      ConcatAssoc(x, y, z);
    }
  }

  lemma ConcatAssoc<T>(x: seq<T>, y: seq<T>, z: seq<T>)
    ensures (x + y) + z == x + (y + z)
  {
  }

  lemma EntriesStep(ws: Worksheet, rows: seq<int>, row: int)
    ensures EntriesOf(ws, rows + [row]) == EntriesOf(ws, rows) + RowEntries(ws, row)
  {
    assert (rows + [row])[..|rows|] == rows;
  }

  /** Scanning two runs of entries is scanning the first, then the second. */
  lemma {:induction false} ScanFromAppend(st: Scan, a: seq<Entry>, b: seq<Entry>)
    ensures ScanFrom(st, a + b) == ScanFrom(ScanFrom(st, a), b)
    decreases |b|
  {
    if b == [] {
      assert a + b == a;
    } else {
      assert (a + b)[..|a + b| - 1] == a + b[..|b| - 1];
      ScanFromAppend(st, a, b[..|b| - 1]);
    }
  }

  /** Entry `e` stores a value under `l`. */
  predicate SetsLabel(e: Entry, l: string)
  {
    e.key == l && e.value.Some?
  }

  /** A label is in the map exactly when some entry gave it a value. */
  lemma {:induction false} ScanLabels(es: seq<Entry>, l: string)
    ensures l in ScanFrom(EmptyScan, es).labels <==> exists i :: 0 <= i < |es| && SetsLabel(es[i], l)
  {
    if es != [] {
      var pre, last := es[..|es| - 1], es[|es| - 1];
      ScanLabels(pre, l);
      AddEntryLabels(ScanFrom(EmptyScan, pre), last, l);
      SetsLabelSnoc(es, pre, l);
    }
  }

  /** One scan step adds exactly the label of the entry it read a value for. */
  lemma AddEntryLabels(st: Scan, x: Entry, l: string)
    ensures l in AddEntry(st, x).labels <==> l in st.labels || SetsLabel(x, l)
  {
  }

  /** Some entry of `es` sets `l` when one before the last does, or the last does. */
  lemma SetsLabelSnoc(es: seq<Entry>, pre: seq<Entry>, l: string)
    requires es != [] && pre == es[..|es| - 1]
    ensures (exists i :: 0 <= i < |es| && SetsLabel(es[i], l)) <==>
            (exists i :: 0 <= i < |pre| && SetsLabel(pre[i], l)) || SetsLabel(es[|es| - 1], l)
  {
    if exists i :: 0 <= i < |pre| && SetsLabel(pre[i], l) {
      var i :| 0 <= i < |pre| && SetsLabel(pre[i], l);
      assert SetsLabel(es[i], l);
    }
    if exists i :: 0 <= i < |es| && SetsLabel(es[i], l) {
      var i :| 0 <= i < |es| && SetsLabel(es[i], l);
      if i < |pre| {
        assert SetsLabel(pre[i], l);
      }
    }
  }

  /** Later rows overwrite earlier ones: a label holds the value of the last entry that set it. */
  lemma {:induction false} ScanLastWins(es: seq<Entry>, i: int)
    requires 0 <= i < |es| && es[i].value.Some?
    requires forall j :: i < j < |es| ==> !SetsLabel(es[j], es[i].key)
    ensures es[i].key in ScanFrom(EmptyScan, es).labels
    ensures ScanFrom(EmptyScan, es).labels[es[i].key] == es[i].value.value
  {
    var pre := es[..|es| - 1];
    if i < |es| - 1 {
      assert pre[i] == es[i];
      forall j | i < j < |pre|
        ensures !SetsLabel(pre[j], pre[i].key)
      {
        assert pre[j] == es[j];
      }
      ScanLastWins(pre, i);
      assert !SetsLabel(es[|es| - 1], es[i].key);
    }
  }

  /** The queue holds exactly the entries without a value. */
  lemma {:induction false} ScanPending(es: seq<Entry>, e: Entry)
    ensures e in ScanFrom(EmptyScan, es).pending <==> e in es && e.value.None?
  {
    if es != [] {
      var pre, last := es[..|es| - 1], es[|es| - 1];
      ScanPending(pre, e);
      assert e in es <==> e in pre || e == last by {
        assert es == pre + [last];
      }
      AddEntryPending(ScanFrom(EmptyScan, pre), last, e);
    }
  }

  /** One scan step queues exactly the entry it could not read a value for. */
  lemma AddEntryPending(st: Scan, x: Entry, e: Entry)
    ensures e in AddEntry(st, x).pending <==> e in st.pending || (e == x && x.value.None?)
  {
  }

  /** A set of cells on the sheet without cached values whose formulas all refer into the set. */
  predicate ClosedCycle(ws: Worksheet, cells: set<Cell>)
  {
    forall c :: c in cells ==> OnSheet(c) && NextStep(ws, c).Follow? && NextStep(ws, c).next in cells
  }

  /** A reference cycle of any length, F8 `=F9` with F9 `=F8` among them, displays as 0.0. */
  lemma {:induction false} CycleIsZero(ws: Worksheet, cells: set<Cell>, k: Cell, visited: set<Cell>)
    requires ClosedCycle(ws, cells) && k in cells
    ensures Chase(ws, k, visited) == Some(Blank)
    decreases ws.formulas.Keys - visited
  {
    if k !in visited {
      CycleIsZero(ws, cells, NextStep(ws, k).next, visited + {k});
    }
  }

  /**
   * The chase follows a cell exactly when the cell has no cached value and
   * its formula is text that parses as a simple reference.
   */
  lemma FollowsReference(ws: Worksheet, k: Cell, k2: Cell)
    ensures NextStep(ws, k) == Follow(k2) <==> !HasCachedValue(ws, k) && FormulaRef(FormulaAt(ws, k)) == Some(k2)
  {
  }

  /** A cell that the chase follows shows what the referenced cell shows. */
  lemma ChaseFollows(ws: Worksheet, k: Cell, visited: set<Cell>, k2: Cell)
    requires k !in visited && OnSheet(k) && NextStep(ws, k) == Follow(k2)
    ensures Chase(ws, k, visited) == Chase(ws, k2, visited + {k})
  {
  }

  /** A cached value that is not formula text is shown as it is, whatever the formula view holds. */
  lemma CachedValueWins(ws: Worksheet, k: Cell, visited: set<Cell>)
    requires k !in visited && OnSheet(k) && k in ws.data && ws.data[k] != Blank && !IsFormulaText(ws.data[k])
    ensures Chase(ws, k, visited) == Some(ws.data[k])
  {
  }

  /** An unvisited cell in row 0, the target of a formula such as `=A0`, raises when read. */
  lemma RowZeroRaises(ws: Worksheet, k: Cell, visited: set<Cell>)
    requires k !in visited && k.0 == 0
    ensures Chase(ws, k, visited).None?
  {
  }

  /** Two cells that refer to each other, with no cached value, display as 0.0. */
  lemma TwoCellCycle(ws: Worksheet, a: Cell, b: Cell)
    requires OnSheet(a) && OnSheet(b)
    requires NextStep(ws, a) == Follow(b) && NextStep(ws, b) == Follow(a)
    ensures Chase(ws, a, {}) == Some(Blank) && Chase(ws, b, {}) == Some(Blank)
  {
    if a != b {
      CycleStep(ws, a, b);
      CycleStep(ws, b, a);
    } else {
      SelfReference(ws, a);
    }
  }

  /** From `a`, the chase goes to `b` and back to the visited `a`. */
  lemma CycleStep(ws: Worksheet, a: Cell, b: Cell)
    requires a != b && OnSheet(a) && OnSheet(b)
    requires NextStep(ws, a) == Follow(b) && NextStep(ws, b) == Follow(a)
    ensures Chase(ws, a, {}) == Some(Blank)
  {
    ChaseFollows(ws, a, {}, b);
    BackToStart(ws, a, b, {} + {a});
  }

  /** A cell whose formula refers to itself shows nothing. */
  lemma SelfReference(ws: Worksheet, a: Cell)
    requires OnSheet(a) && NextStep(ws, a) == Follow(a)
    ensures Chase(ws, a, {}) == Some(Blank)
  {
  }

  /** The second step of a two-cell cycle leads back to a cell already visited. */
  lemma BackToStart(ws: Worksheet, a: Cell, b: Cell, visited: set<Cell>)
    requires a in visited && b !in visited && OnSheet(b) && NextStep(ws, b) == Follow(a)
    ensures Chase(ws, b, visited) == Some(Blank)
  {
  }

  /**
   * Where a display value comes from: an exception, 0.0, the cached value of
   * some cell, or a number in the formula view.
   */
  lemma {:induction false} ChaseOrigin(ws: Worksheet, k: Cell, visited: set<Cell>)
    ensures var v := Chase(ws, k, visited);
      v.None? || v == Some(Blank)
      || (exists c :: c in ws.data && v == Some(ws.data[c]))
      || (exists c :: c in ws.formulas && ws.formulas[c].Number? && v == Some(ws.formulas[c]))
    decreases ws.formulas.Keys - visited
  {
    if k !in visited && OnSheet(k) && NextStep(ws, k).Follow? {
      ChaseOrigin(ws, NextStep(ws, k).next, visited + {k});
    } else if k !in visited && OnSheet(k) && HasCachedValue(ws, k) {
      assert k in ws.data;
    }
  }

  /** Labels no lookup carries keep their scanned value. */
  lemma ResolveKeepsOthers(lm: map<string, real>, xs: seq<Lookup>, l: string)
    requires forall i :: 0 <= i < |xs| ==> xs[i].key != l
    ensures l in ResolveAll(lm, xs) <==> l in lm
    ensures l in lm ==> ResolveAll(lm, xs)[l] == lm[l]
  {
    RunKeepsOthers(lm, xs[..Completed(xs)], l);
  }

  lemma {:induction false} RunKeepsOthers(lm: map<string, real>, xs: seq<Lookup>, l: string)
    requires forall i :: 0 <= i < |xs| ==> xs[i].key != l
    ensures l in ResolveRun(lm, xs) <==> l in lm
    ensures l in lm ==> ResolveRun(lm, xs)[l] == lm[l]
  {
    if xs != [] {
      var pre, last := xs[..|xs| - 1], xs[|xs| - 1];
      var m := ResolveRun(lm, pre);
      assert (l in m <==> l in lm) && (l in lm ==> m[l] == lm[l]) by {
        assert forall i :: 0 <= i < |pre| ==> pre[i] == xs[i];
        RunKeepsOthers(lm, pre, l);
      }
      ResolveOther(m, last, l);
    }
  }

  /** A lookup leaves the labels of other cells as they were. */
  lemma ResolveOther(lm: map<string, real>, x: Lookup, l: string)
    requires x.key != l
    ensures l in Resolve(lm, x) <==> l in lm
    ensures l in lm ==> Resolve(lm, x)[l] == lm[l]
  {
    if x.found.Found? {
      StoreSpec(lm, x.key, x.found.value);
    }
  }

  /** A lookup that found a value, with no lookup before it raising, leaves its label in the map. */
  lemma ResolveAddsFound(lm: map<string, real>, xs: seq<Lookup>, i: int)
    requires 0 <= i < |xs| && xs[i].found.Found?
    requires forall j :: 0 <= j < i ==> !xs[j].found.Raised?
    ensures xs[i].key in ResolveAll(lm, xs)
  {
    var n := Completed(xs);
    CompletedSpec(xs);
    assert i < n;
    assert xs[..n][i] == xs[i];
    RunAddsFound(lm, xs[..n], i);
  }

  lemma {:induction false} RunAddsFound(lm: map<string, real>, xs: seq<Lookup>, i: int)
    requires 0 <= i < |xs| && xs[i].found.Found?
    ensures xs[i].key in ResolveRun(lm, xs)
  {
    var pre, last := xs[..|xs| - 1], xs[|xs| - 1];
    var m := ResolveRun(lm, pre);
    if i == |xs| - 1 {
      StoreSpec(m, last.key, last.found.value);
    } else {
      assert xs[i].key in m by {
        assert pre[i] == xs[i];
        RunAddsFound(lm, pre, i);
      }
      ResolveKeeps(m, last, xs[i].key);
    }
  }

  /** A lookup never removes a label. */
  lemma ResolveKeeps(lm: map<string, real>, x: Lookup, l: string)
    requires l in lm
    ensures l in Resolve(lm, x)
  {
    if x.found.Found? {
      StoreSpec(lm, x.key, x.found.value);
    }
  }

  /**
   * A queued cell whose formula is a simple reference that displays without
   * raising ends up in the map, when no queued cell before it raised.
   */
  lemma ResolveAddsReferenced(ws: Worksheet, lm: map<string, real>, pending: seq<Entry>, i: int)
    requires 0 <= i < |pending|
    requires FormulaRef(FormulaAt(ws, (pending[i].row, pending[i].col))).Some?
    requires Chase(ws, FormulaRef(FormulaAt(ws, (pending[i].row, pending[i].col))).value, {}).Some?
    requires forall j :: 0 <= j < i ==> ReferencedValue(ws, pending[j]) != Raised
    ensures pending[i].key in ResolveAll(lm, Lookups(ws, pending))
  {
    var xs := Lookups(ws, pending);
    assert xs[i] == LookupOf(ws, pending[i]);
    forall j | 0 <= j < i
      ensures !xs[j].found.Raised?
    {
      assert xs[j] == LookupOf(ws, pending[j]);
    }
    ResolveAddsFound(lm, xs, i);
  }

  /**
   * A lookup that raises ends the loop: the map is the one the lookups
   * before it built, and no later queued cell is stored.
   */
  lemma ResolveStopsAtRaise(lm: map<string, real>, xs: seq<Lookup>, i: int)
    requires 0 <= i < |xs| && xs[i].found.Raised?
    ensures ResolveAll(lm, xs) == ResolveAll(lm, xs[..i])
  {
    var n := Completed(xs);
    CompletedPrefix(xs, i);
    assert xs[..i][..n] == xs[..n];
  }

  /** Cutting the lookups at a raising one keeps the same completed prefix. */
  lemma {:induction false} CompletedPrefix(xs: seq<Lookup>, i: int)
    requires 0 <= i < |xs| && xs[i].found.Raised?
    ensures Completed(xs) <= i && Completed(xs[..i]) == Completed(xs)
  {
    if i > 0 && !xs[0].found.Raised? {
      assert xs[..i][1..] == xs[1..][..i - 1];
      CompletedPrefix(xs[1..], i - 1);
    }
  }

  /**
   * A queued cell whose formula refers to row 0, such as `=A0`, raises: the
   * labels map is the one the queued cells before it built, so neither it
   * nor any later queued cell is stored.
   */
  lemma RowZeroReferenceAborts(ws: Worksheet, lm: map<string, real>, pending: seq<Entry>, i: int)
    requires 0 <= i < |pending|
    requires FormulaRef(FormulaAt(ws, (pending[i].row, pending[i].col))).Some?
    requires FormulaRef(FormulaAt(ws, (pending[i].row, pending[i].col))).value.0 == 0
    ensures ReferencedValue(ws, pending[i]) == Raised
    ensures ResolveAll(lm, Lookups(ws, pending)) == ResolveAll(lm, Lookups(ws, pending[..i]))
  {
    var c := FormulaRef(FormulaAt(ws, (pending[i].row, pending[i].col))).value;
    RowZeroRaises(ws, c, {});
    var xs := Lookups(ws, pending);
    assert xs[i].found.Raised? by {
      assert xs[i] == LookupOf(ws, pending[i]);
    }
    ResolveStopsAtRaise(lm, xs, i);
    LookupsPrefix(ws, pending, i);
  }

  /** The lookups of a prefix of the queue are that prefix of the lookups. */
  lemma LookupsPrefix(ws: Worksheet, pending: seq<Entry>, i: int)
    requires 0 <= i <= |pending|
    ensures Lookups(ws, pending)[..i] == Lookups(ws, pending[..i])
  {
  }

  /**
   * The "Base gravable" fallback: a reference that displays as 0.0 takes the
   * non-zero "Ingresos cobrados ..." value already in the map.
   */
  lemma BaseGravableFallback(lm: map<string, real>)
    requires IngresosCobrados in lm && lm[IngresosCobrados] != 0.0
    ensures Store(lm, BaseGravable, 0.0)[BaseGravable] == lm[IngresosCobrados]
  {
    assert |BaseGravable| != |IngresosCobrados|;
  }

  /** The period and the declaration type `read_impuestos` returns depend on the file name alone. */
  lemma ReadImpuestosPeriod(ws: Worksheet, name: string)
    ensures var data := ReadImpuestosSpec(ws, name);
      data.year == (if PeriodOf(name).Some? then Some(PeriodOf(name).value.0) else None) &&
      data.month == (if PeriodOf(name).Some? then Some(PeriodOf(name).value.1) else None) &&
      data.tipoDeclaracion == "Normal"
  {
  }

  /** The year and month read from a name are at most four and two digits: the month is not checked against 1..12. */
  lemma PeriodBounds(name: string)
    requires PeriodOf(name).Some?
    ensures 0 <= PeriodOf(name).value.0 < 10000 && 0 <= PeriodOf(name).value.1 < 100
  {
    DigitsValueBound(name[..4]);
    DigitsValueBound(name[4..6]);
    assert Pow10(4) == 10000 && Pow10(2) == 100;
  }

  /** A `YYYYMM_` name written from a year and a month reads back as them. */
  lemma PeriodRoundTrip(year: nat, month: nat, rest: string)
    requires year < Pow10(4) && month < Pow10(2)
    ensures PeriodOf(ZeroPad(year, 4) + ZeroPad(month, 2) + ['_'] + rest) == Some((year, month))
  {
    var y, m := ZeroPad(year, 4), ZeroPad(month, 2);
    var name := y + m + ['_'] + rest;
    assert name[..4] == y;
    assert name[4..6] == m;
    assert name[6] == '_';
  }

  /** Names that do not start with six digits and "_" give no period. */
  lemma NoPeriod(name: string)
    requires |name| < 7 || !AllDigits(name[..6]) || name[6] != '_'
    ensures PeriodOf(name).None?
  {
    if |name| >= 7 && AllDigits(name[..4]) && AllDigits(name[4..6]) {
      forall i | 0 <= i < 6
        ensures IsDigit(name[..6][i])
      {
        if i < 4 {
          assert name[..6][i] == name[..4][i];
        } else {
          assert name[..6][i] == name[4..6][i - 4];
        }
      }
    }
  }

  /** The rows scanned are 4..29 and 33..58, in that order. */
  lemma ScannedRows()
    ensures RowsOf(Ranges) == Interval(4, 30) + Interval(33, 59)
  {
    assert Ranges[..1] == [(4, 29)];
    assert Ranges[..1][..0] == [];
  }
}
