# SAT declaration filler — verified model of its decision logic

`sat_declaration_filler.py` drives the SAT (Mexican tax authority) portal
with a browser to file a monthly ISR/IVA declaration from an Excel
"Hoja de Trabajo". Around the browser calls it holds a layer of
deterministic logic, and this project models that layer in Dafny:

- **Worksheet values and cell references** (`Currency`, `CellRefs`):
  - `_parse_currency` and `_cell_value`;
  - Python's `round()` and `int()` on amounts;
  - the two-decimal rendering used for typed amounts;
  - `_parse_cell_ref` and `_row_col_to_a1`, which use bijective base-26
    column letters.
- **`read_impuestos`** (`Impuestos`):
  - The label map is read from the ISR rows 4..29 and the IVA rows 33..58.
    There are two layouts: D/E on every row, and E/F when the E cell shows
    text that is not number-like.
  - Value cells that are empty are queued.
  - The queued cells are resolved by the cycle-safe reference chase
    `_cell_display_value`. A reference to row 0 (`=A0`) makes the sheet
    reader raise, and the `try` around the loop then ends the resolution:
    that queued cell and every later one are not stored.
  - The "Base gravable" fallback applies during resolution.
  - The period comes from a `YYYYMM_` file name.
  - The sheet is a pair of maps from `(row, col)` to cell values: the cached
    view and the formula view.
  - The scan is a class (`LabelReader`) whose `labelMap` and `formulaCells`
    fields are updated in place, as the closure `add_label_value` does.
- **Selector loops** (`Locators`):
  - `load_mapping`'s key filter;
  - the first-success-wins loops of `_try_fill` and `_try_click`, including
    the .cer/.key file-input rule.
  - The browser is a `Page` value that says which selector matches can be
    acted on.
- **`_check_sat_page_error`** (`PageError`): an HTTP status of 400 or more
  first, then the first error phrase in tuple order.
- **`fill_initial_form`** (`InitialForm`): the periodicity and month lookup
  tables and the fixed fill order Ejercicio → Periodicidad → Periodo → Tipo.
- **`fill_isr_ingresos_form`, `fill_obligation_section` and `check_totals`**
  (`Reconcile`):
  - the Excel-total label chain;
  - the Sí/No decisions with their corrective amounts;
  - the "Total percibidos" rows;
  - the obligation-section skip rule;
  - the summary reader;
  - the tolerance gate.
- **`_click_capturar_next_to_label`** (`Capturar`): the choice of CAPTURAR
  control over ancestor levels 1..9. The levels are numbered as
  `(ancestor::*)[i]` numbers them, in document order: level 1 is the root
  element and the walk goes inwards (see "## Findings").
- **The attempt loop of `run`** (`Supervisor`):
  - a class `Runner` with the run context and an event log;
  - at most two sessions, a teardown on every attempt;
  - a retry only after an exception, including one raised by the pause
    right after a successful send, so the declaration can be sent twice.

Amounts are `real`. Python's `float()` is modelled on decimal numerals.
Where the code and its comments or documentation disagree, the model
follows the code:

- **Decrease amount.** The comment at line 1459 says 8178.81 becomes 8178,
  but `int(round(diff))` gives 8179. `DecreaseRoundsUp` states the code's
  result.
- **Month from the file name.** The month is not range-checked. A
  `202313_` name gives month 13, and the initial form then selects
  "Enero" (`PeriodBounds`, `MonthDefault`).
- **Total percibidos.** The comment says an entry is skipped when its value
  is zero. In the code, an amount between 0.005 and 0.5 still adds a row,
  with Importe "0" (`PercibidoZeroImporte`).
- **Summary amounts.** `_read_summary` drops every character but digits and
  points, so a minus sign on the page is lost and a summary amount is never
  negative (`SummaryNonNegative`).

## Model

| member | source | states |
|---|---|---|
| CellRefs.LetterValue | sat_declaration_filler.py:88-89 | a column letter is worth 1..26 (`ord(c) - ord("A") + 1`) |
| CellRefs.ColumnLetters | sat_declaration_filler.py:96-99 | the `divmod` loop's letters are all column letters, and there are none exactly for column 0 |
| CellRefs.ColumnNumberOfLetters | sat_declaration_filler.py:87-99 | the letters written for a column number read back as that number |
| CellRefs.ColumnLettersOfNumber | sat_declaration_filler.py:87-99 | letters read as a number are written back as the same letters: the base-26 numbering is bijective |
| CellRefs.ColumnOf | sat_declaration_filler.py:87-89 | the accumulator loop `col = col * 26 + letter` computes the column number, at least 1 for a non-empty column |
| CellRefs.ParseCellRef | sat_declaration_filler.py:78-90 | `_parse_cell_ref` returns the reference the normalised text denotes, with row >= 0 and column >= 1, or nothing |
| CellRefs.RowColToA1 | sat_declaration_filler.py:93-100 | `_row_col_to_a1` writes the column letters (or "A" for column 0) followed by the row |
| CellRefs.SplitLettersDigits | sat_declaration_filler.py:82-90 | letters followed by digits match `^([A-Z]+)(\d+)$` and give (row, column) |
| CellRefs.A1Shape | sat_declaration_filler.py:93-100 | for a column >= 1 the reference is letters then the row's digits |
| CellRefs.RoundTrip | sat_declaration_filler.py:78-100 | for every row >= 0 and column >= 1, parsing the written reference gives back (row, column) |
| CellRefs.ColumnZeroIsA | sat_declaration_filler.py:100 | column 0 is written as "A" and so reads back as column 1 |
| CellRefs.PrefixAndCaseAccepted | sat_declaration_filler.py:81 | leading "=" and "+" and lower-case letters are accepted: `=+f8` names row 8, column 6 |
| CellRefs.UpperLower | sat_declaration_filler.py:81 | upper-casing a lower-cased reference restores it |
| Currency.ParseCurrency | sat_declaration_filler.py:51-66 | a number passes through, and None or a date reads as 0.0; it never fails |
| Currency.ReadsAs | sat_declaration_filler.py:60-65 | text whose cleaned form is a numeral other than "-" reads as what `float()` gives for it |
| Currency.OddTextReadsZero | sat_declaration_filler.py:60-66 | blank text, a lone "-" and text `float()` rejects read as 0.0 instead of failing |
| Currency.DollarDashReadsZero | sat_declaration_filler.py:52-63 | the docstring's "$ -" cleans to "-" and reads as 0.0 |
| Currency.CurrencyTextUnseparated | sat_declaration_filler.py:60 | stripping before removing "$" and "," changes nothing: the final `strip()` removes the same whitespace |
| Currency.CurrencyIgnoresSeparators | sat_declaration_filler.py:60-66 | a "$" or "," inserted anywhere in a text leaves `_parse_currency`'s value unchanged |
| Currency.CurrencyIgnoresPadding | sat_declaration_filler.py:60-66 | whitespace around a text leaves `_parse_currency`'s value unchanged |
| Currency.FractionValue | sat_declaration_filler.py:64 | digits after the point are worth between 0 and 1 |
| Currency.TwoDigitFraction | sat_declaration_filler.py:64 | two digits after the point are that many hundredths |
| Currency.GroupThousands | sat_declaration_filler.py:60 | grouping digits with "," keeps the first and last digit |
| Currency.UngroupThousands | sat_declaration_filler.py:60 | removing the "," separators gives the digits back |
| Currency.NegatedValue | sat_declaration_filler.py:64 | a leading "-" negates the value `float()` gives the rest |
| Currency.SignedDigits | sat_declaration_filler.py:64 | a signed run of digits reads as its signed value |
| Currency.IntToDecimalReads | sat_declaration_filler.py:1737 | `float(str(i))` is `i` for every integer, and `str(i)` is "0" only for 0 |
| Currency.PesoReads | sat_declaration_filler.py:51-66 | a "$ " peso text with grouped digits reads as its signed value |
| Currency.PesoTextRoundTrip | sat_declaration_filler.py:51-66 | every whole amount displayed as "$ 1,132,090" or "$ -1,500" reads back as itself |
| Currency.RoundHalfEven | sat_declaration_filler.py:1460 | `round()` is within one half of its argument, and an exact tie goes to the even integer |
| Currency.RoundIsNearest | sat_declaration_filler.py:1460 | an integer closer than one half to x is `round(x)` |
| Currency.Trunc | sat_declaration_filler.py:2093 | `int()` truncates toward zero: within one unit of x, on x's side of zero |
| Currency.FormatFixed2RoundTrip | sat_declaration_filler.py:1652 | `f"{x:,.2f}"` without commas reads back as the rounded hundredths, within half a cent of x |
| Currency.FormatCentsRoundTrip | sat_declaration_filler.py:1652 | a signed hundredths text reads back as its value |
| Currency.CentsSign | sat_declaration_filler.py:1652 | the rounded hundredths keep x's sign and lie within half a cent of x |
| Impuestos.LabelOf | sat_declaration_filler.py:179-181 | a label is kept only when it is non-blank, and it is the stripped shown text |
| Impuestos.ValueOf | sat_declaration_filler.py:182-188 | a value cell is queued exactly when it is empty or blank text; a number passes through, and a date reads as 0.0 |
| Impuestos.RowEntriesShape | sat_declaration_filler.py:191-205 | a row gives at most two labelled values on that row: one in E, and one in F under a label that is not number-like |
| Impuestos.Interval | sat_declaration_filler.py:192 | `range(lo, hi)` lists lo, lo+1, ... in order |
| Impuestos.LabelReader.constructor | sat_declaration_filler.py:176-177 | the label map and the formula-cell queue start empty |
| Impuestos.LabelReader.AddLabelValue | sat_declaration_filler.py:179-189 | without a label nothing changes; otherwise the value is stored under the label, or the cell is queued |
| Impuestos.LabelReader.StoreResolved | sat_declaration_filler.py:239-245 | the resolved value is stored with the "Base gravable" fallback, and the queue is unchanged |
| Impuestos.NextStep | sat_declaration_filler.py:215-226 | the chase moves on only from a cell that has a formula |
| Impuestos.FormulaStep | sat_declaration_filler.py:220-226 | only text in the formula view is followed as a reference |
| Impuestos.DisplayValue | sat_declaration_filler.py:209-227 | `_cell_display_value` with its visited set raises exactly when the chase reaches an unvisited row-0 cell, and otherwise is `_parse_currency` of what the chase shows |
| Impuestos.StoreSpec | sat_declaration_filler.py:239-245 | a store sets its label and leaves every other label alone; the value is kept unless the fallback applies |
| Impuestos.ReadRow | sat_declaration_filler.py:193-205 | one row scan adds the row's D/E entry and then its E/F entry |
| Impuestos.ReadRows | sat_declaration_filler.py:192-205 | the row loop scans rows lo..hi in order |
| Impuestos.ScanRanges | sat_declaration_filler.py:191-205 | the ISR range is scanned, then the IVA range |
| Impuestos.ReferencedDisplay | sat_declaration_filler.py:234-238 | a queued cell's lookup: no reference, the display value of the cell its formula names, or `Raised` when that chase raises |
| Impuestos.ResolveEntry | sat_declaration_filler.py:237-245 | a found value is stored under the queued cell's label with the fallback; no reference leaves the map alone; the queue is unchanged |
| Impuestos.ResolvePending | sat_declaration_filler.py:229-248 | the loop applies the lookups of the queued cells in order and stops at the first one that raises, keeping what was stored before it |
| Impuestos.ReadImpuestos | sat_declaration_filler.py:162-317 | `read_impuestos` returns the scanned label map with the queued cells resolved up to the first lookup that raises, and the period, periodicity and type of the specification |
| Impuestos.ScanLabels | sat_declaration_filler.py:179-205 | a label is in the map exactly when some entry gave it a value |
| Impuestos.ScanLastWins | sat_declaration_filler.py:184-187 | later rows overwrite earlier ones: a label holds its last value |
| Impuestos.ScanPending | sat_declaration_filler.py:188-189 | the queue holds exactly the entries without a value |
| Impuestos.CycleIsZero | sat_declaration_filler.py:209-214 | any closed reference cycle of cells on the sheet without cached values displays as 0.0, from any visited set |
| Impuestos.TwoCellCycle | sat_declaration_filler.py:209-227 | F8 `=F9` with F9 `=F8` displays 0.0 from either cell |
| Impuestos.SelfReference | sat_declaration_filler.py:209-227 | a cell that refers to itself displays 0.0 |
| Impuestos.FollowsReference | sat_declaration_filler.py:215-226 | a cell is followed exactly when it has no cached value and its formula is a simple reference |
| Impuestos.ChaseFollows | sat_declaration_filler.py:223-226 | a followed cell on the sheet shows what the referenced cell shows, with the cell now visited |
| Impuestos.CachedValueWins | sat_declaration_filler.py:215-218 | on a cell on the sheet, a cached value that is not formula text wins over the formula view |
| Impuestos.RowZeroRaises | sat_declaration_filler.py:212-215 | an unvisited cell in row 0 raises when it is read |
| Impuestos.ChaseOrigin | sat_declaration_filler.py:209-227 | a chase raises, or displays 0.0, a cached value of some cell, or a number from the formula view |
| Impuestos.ResolveKeepsOthers | sat_declaration_filler.py:233-245 | labels no queued cell carries keep their scanned value |
| Impuestos.ResolveAddsFound | sat_declaration_filler.py:233-248 | a lookup that found a value, with no lookup before it raising, leaves its label in the map |
| Impuestos.ResolveAddsReferenced | sat_declaration_filler.py:233-248 | a queued cell whose formula is a simple reference that displays without raising ends up in the map, when no queued cell before it raised |
| Impuestos.ResolveStopsAtRaise | sat_declaration_filler.py:233-248 | a lookup that raises ends the loop: the map is the one the lookups before it built |
| Impuestos.RowZeroReferenceAborts | sat_declaration_filler.py:229-248 | a queued cell whose formula names row 0 raises, and neither it nor any later queued cell is stored |
| Impuestos.BaseGravableFallback | sat_declaration_filler.py:241-245 | a 0.0 "Base gravable" takes a non-zero "Ingresos cobrados ..." value |
| Impuestos.ReadImpuestosPeriod | sat_declaration_filler.py:292-305 | year, month and declaration type ("Normal") depend on the file name alone |
| Impuestos.PeriodBounds | sat_declaration_filler.py:295-298 | the year has at most four digits and the month at most two; the month is not checked against 1..12 |
| Impuestos.PeriodRoundTrip | sat_declaration_filler.py:292-298 | a name written as `YYYYMM_...` reads back as that year and month |
| Impuestos.NoPeriod | sat_declaration_filler.py:293-296 | a name that does not start with six digits and "_" gives no period |
| Impuestos.ScannedRows | sat_declaration_filler.py:191-192 | the rows scanned are 4..29, then 33..58 |
| Locators.LoadMapping | sat_declaration_filler.py:387 | the kept keys are exactly those without the "_comment" prefix whose value is a list, with the values unchanged |
| Locators.FirstTrue | sat_declaration_filler.py:445-499 | the first success wins: no earlier one succeeds, and none means no success at all |
| Locators.TryFill | sat_declaration_filler.py:432-499 | `_try_fill` succeeds at the first selector, in mapping order, that takes the value |
| Locators.FillOne | sat_declaration_filler.py:446-498 | one selector takes the value under the file-input rule or as a locator or label |
| Locators.TryClick | sat_declaration_filler.py:537-552 | `_try_click` clicks the first selector whose first match is clickable |
| Locators.FirstTrueAt | sat_declaration_filler.py:445-499 | a success with only failures before it is the one used |
| Locators.FillSucceedsIff | sat_declaration_filler.py:432-499 | `_try_fill` succeeds exactly when some selector of the key takes the value |
| Locators.KeyFileNeedsTwoInputs | sat_declaration_filler.py:448-452 | the .key file skips the file-input selector when fewer than two inputs exist |
| Locators.FileInputChoice | sat_declaration_filler.py:448-455 | the .cer file goes to the first file input and the .key file to the second |
| Locators.CommentKeysInert | sat_declaration_filler.py:387 | a "_comment" key has no selectors, so no fill or click is tried for it |
| PageError.FirstPhrase | sat_declaration_filler.py:529-533 | the phrase found is contained in the body, no earlier phrase is, and none found means none is contained |
| PageError.CheckPageError | sat_declaration_filler.py:519-534 | `_check_sat_page_error` reports the status first, then the first phrase in the lower-cased body |
| PageError.FirstPhraseAt | sat_declaration_filler.py:529-533 | a contained phrase with none before it is the one reported |
| PageError.StatusFirst | sat_declaration_filler.py:524-525 | a status of 400 or more is reported whatever the body says |
| PageError.PhraseReportedIff | sat_declaration_filler.py:519-534 | without a failing status, phrase i is reported exactly when the body contains it and none before it |
| PageError.PhrasesDistinct | sat_declaration_filler.py:503-516 | no phrase is listed twice |
| PageError.FineIff | sat_declaration_filler.py:519-534 | without a failing status, nothing is reported exactly when no phrase occurs |
| PageError.LongerPhraseFirst | sat_declaration_filler.py:503-534 | "servidor no disponible" is reported ahead of the shorter "no disponible" |
| InitialForm.FillOrder | sat_declaration_filler.py:2109-2145 | the order is Ejercicio (with a year), Periodicidad, Periodo (with a month), then Tipo |
| InitialForm.AlwaysFilled | sat_declaration_filler.py:2109-2145 | Periodicidad is always filled and Tipo is last; Ejercicio and Periodo are filled exactly when the year and month are known |
| InitialForm.PeriodicidadRoundTrip | sat_declaration_filler.py:412-421 | every periodicity of the table has its own option value |
| InitialForm.PeriodicidadDefault | sat_declaration_filler.py:2096 | a periodicity missing from the table selects "M" |
| InitialForm.PeriodicidadTruncates | sat_declaration_filler.py:2093-2096 | 3.7 selects "T": `int()` truncates before the lookup |
| InitialForm.MonthRoundTrip | sat_declaration_filler.py:426-429 | months 1..12 map to their Spanish names, and the names map back |
| InitialForm.MonthDefault | sat_declaration_filler.py:2126 | any other month selects "Enero" |
| InitialForm.FillsFromFileName | sat_declaration_filler.py:2109-2145 | a `YYYYMM_` workbook fills that year, that month's name and Tipo "Normal" |
| InitialForm.PeriodFills | sat_declaration_filler.py:2109-2145 | with a known year and month there are four fills, with the year, the month's name and the type |
| Reconcile.ExcelTotalFirstPresent | sat_declaration_filler.py:1257-1270 | label i is used exactly when it is present and no earlier one is, and then the total is its value (presence, not truthiness) |
| Reconcile.ExcelTotalAbsent | sat_declaration_filler.py:1263-1270 | with none of the four labels present, no key is used and the total is 0 |
| Reconcile.ExcelTotalKeyAgrees | sat_declaration_filler.py:1263-1269 | the reported key and the value used come from the same label |
| Reconcile.ExclusiveDecisions | sat_declaration_filler.py:1431-1635 | "a disminuir" is Sí exactly when SAT − Excel > 1 and "adicionales" exactly when Excel − SAT > 1; never both; an amount exactly when Sí |
| Reconcile.DecreaseAmount | sat_declaration_filler.py:1460-1461 | the decrease amount is whole pesos, at least 1, and within one half of the difference |
| Reconcile.DecreaseRoundsUp | sat_declaration_filler.py:1459-1461 | a difference of 8178.81 is entered as "8179" |
| Reconcile.IncreaseAmount | sat_declaration_filler.py:1652 | the increase amount reads back within half a cent of the difference |
| Reconcile.PercibidosRows | sat_declaration_filler.py:1728-1738 | no more rows than entries |
| Reconcile.AddPercibidos | sat_declaration_filler.py:1728-1738 | the entry loop adds the rows of the entries, in entry order |
| Reconcile.PercibidosRowsIff | sat_declaration_filler.py:1728-1738 | a row is added exactly when some entry produces it |
| Reconcile.PercibidoImporte | sat_declaration_filler.py:1729-1737 | a row's Importe reads back within half a peso of the entry's amount, and it is "0" exactly when the amount is at most half a peso in size |
| Reconcile.PercibidoZeroImporte | sat_declaration_filler.py:1736-1738 | an amount from 0.005 to 0.5 still adds a row, with Importe "0" |
| Reconcile.FillObligationSection | sat_declaration_filler.py:2149-2160 | `fill_obligation_section` offers to `_try_fill`, in order, the labels present with a value other than 0.0 |
| Reconcile.ObligationFillsIff | sat_declaration_filler.py:2153-2159 | a label is offered with its value exactly when it is listed, present, and not 0.0 |
| Reconcile.DigitsAndPoints | sat_declaration_filler.py:2185 | only digits and points are kept |
| Reconcile.DigitsAndPointsAppend | sat_declaration_filler.py:2185 | the substitution works character by character: it distributes over concatenation |
| Reconcile.DigitsAndPointsChar | sat_declaration_filler.py:2185 | a digit or a point is kept, and any other character is dropped |
| Reconcile.DigitsAndPointsKeepsNumerals | sat_declaration_filler.py:2185 | a text of digits and points is kept whole, and a text without any becomes empty |
| Reconcile.ReadSummary | sat_declaration_filler.py:2174-2190 | `_read_summary` returns the first selector's reading, or 0.0 |
| Reconcile.UnsignedReading | sat_declaration_filler.py:2185-2187 | a digits-and-points text reads as a non-negative number |
| Reconcile.SummaryNonNegative | sat_declaration_filler.py:2174-2190 | a summary amount is never negative |
| Reconcile.CheckTotals | sat_declaration_filler.py:2163-2208 | `check_totals` is ok exactly when ISR, IVA and total each agree within the tolerance; Excel total = ISR + IVA; a zero SAT total with a non-zero part is replaced by the sum |
| Reconcile.ReadSatTotals | sat_declaration_filler.py:2192-2196 | the three SAT amounts, with the zero-total replacement |
| Reconcile.ToleranceInclusive | sat_declaration_filler.py:2198-2200 | a difference of exactly the tolerance passes |
| Reconcile.ZeroTotalReplaced | sat_declaration_filler.py:2195-2200 | SAT parts equal to Excel's pass even when the SAT total reads 0 |
| Reconcile.MissingExcelIsZero | sat_declaration_filler.py:2169-2171 | missing "ISR a cargo" and "IVA a cargo" compare as 0 |
| Reconcile.ToleranceMonotone | sat_declaration_filler.py:2198-2201 | passing at a tolerance means passing at any larger one |
| Reconcile.NegativeToleranceRejects | sat_declaration_filler.py:2198-2201 | a negative tolerance rejects everything |
| Capturar.PickRow | sat_declaration_filler.py:1098-1109 | the chosen candidate's row names the label (ignoring case) and is not the "¿Tienes" question, and every candidate before it was passed over |
| Capturar.LevelPick | sat_declaration_filler.py:1091-1109 | a level's choice is one of its candidates |
| Capturar.Reached | sat_declaration_filler.py:1084 | at most nine levels are tried |
| Capturar.PickRowScan | sat_declaration_filler.py:1098-1109 | the row scan returns the row choice |
| Capturar.PickRowAfter | sat_declaration_filler.py:1098-1109 | after passed-over candidates, the scan goes on from there |
| Capturar.ClickCapturar | sat_declaration_filler.py:1074-1119 | `_click_capturar_next_to_label` walks the levels root first, as `(ancestor::*)[i]` numbers them, clicks at the first level whose choice is clickable, and reports it |
| Capturar.ChoiceBounds | sat_declaration_filler.py:1084-1116 | the control clicked is at a level 1..9 that exists, and exists there |
| Capturar.DeepLevelsIgnored | sat_declaration_filler.py:1084 | ancestors beyond the ninth are never looked at |
| Capturar.NoLabelNoClick | sat_declaration_filler.py:1077-1083 | without the requested occurrence of the label, or when it never shows, nothing is clicked |
| Capturar.ChosenRowMatches | sat_declaration_filler.py:1097-1107 | in a level with several candidates, the one clicked has a row that names the label and is not the question row |
| Capturar.SoleCandidateTaken | sat_declaration_filler.py:1094-1095 | a level with exactly one clickable candidate, after levels that click nothing, is where the click happens |
| Capturar.RootFirstTakesOtherRow | sat_declaration_filler.py:1084-1093 | as written, with the label in the second of two "IVA" rows, the root level holds both CAPTURARs and the first row's is clicked; nearest first, the label's own row's is |
| Capturar.NearestSoleCandidateTaken | sat_declaration_filler.py:1084-1095 | nearest first, when the nearest ancestor holding a CAPTURAR holds exactly one that can be clicked, that one is clicked |
| Supervisor.Runner.constructor | sat_declaration_filler.py:2496 | no run context, nothing done yet |
| Supervisor.Runner.TearDown | sat_declaration_filler.py:2565-2569 | the `finally` block clears the run context |
| Supervisor.Runner.RunAttempt | sat_declaration_filler.py:2497-2577 | one attempt logs its events and clears the run context; it returns exactly when it reached a `return`, and an exception after a successful send is logged as a failure |
| Supervisor.Runner.Run | sat_declaration_filler.py:2496-2578 | `run` logs attempt 0 and, only after it raised (also after a send, when the pause that follows raises), a pause and attempt 1; the run context ends clear |
| Supervisor.LaunchesAppend | sat_declaration_filler.py:2496-2502 | sessions opened over two stretches add up |
| Supervisor.AttemptLaunches | sat_declaration_filler.py:2498-2502 | an attempt opens at most one session |
| Supervisor.AtMostTwoSessions | sat_declaration_filler.py:2496-2578 | at most two browser sessions are opened |
| Supervisor.TeardownEveryAttempt | sat_declaration_filler.py:2565-2569 | every attempt that opened a session tears it down, and only those do |
| Supervisor.NoRetryAfterTotals | sat_declaration_filler.py:2552-2564 | a first attempt that returns, after a failed totals check, a failed send, or a send and pause that went through, is the whole run, and its result is check ok and send ok |
| Supervisor.SendOnlyAfterTotalsOk | sat_declaration_filler.py:2552-2561 | a send happens only right after a passing totals check |
| Supervisor.SentYetFailed | sat_declaration_filler.py:2559-2577 | a run that succeeds has sent; a run that sent yet returns False had the pause after a successful send raise, with no success after it |
| Supervisor.SecondSendPossible | sat_declaration_filler.py:2559-2575 | when the pause after a send raises on attempt 0, the retry can send the declaration a second time; a run can send and still return False |
| Supervisor.RetryOnlyAfterException | sat_declaration_filler.py:2570-2575 | the retry happens only after attempt 0 raised (before the totals check, in the send, or in the pause after it), and that failure is logged |

## Left out

- Playwright. Locators, XPath, `wait_for`, timeouts, clicks, `select_option`,
  scrolling, and dialog and iframe discovery are all left out. Each selector,
  candidate or page state is an input (`Page`, `LabelView`, `Outcome`).
  What the model keeps is which selector or control is chosen, and in what
  order.
- `_fill_select_next_to_label` and `_fill_select_by_mapping` are left out.
  `InitialFills` lists the labels each dropdown tries, the value, and
  whether the mapping selectors are the fallback. Which of them succeeds
  is not modelled.
- `_read_sat_total_ingresos_cobrados` is left out. The SAT total compared
  in `PlanIngresos` is a parameter.
- Workbook I/O (openpyxl) is left out. `read_impuestos` receives the two
  views of the sheet as maps and the workbook's base name. A missing sheet
  (`ValueError`) and a failing second load are not modelled; an exception
  inside the resolution loop is (`Found.Raised`).
- The xlcalculator evaluator and its daemon thread (107-145, 253-280) are
  left out. The model follows the path where the evaluator is unavailable.
- The pyodbc e.firma lookup, reading the configuration and mapping files,
  `os.path.isfile`, and `main`'s argument parsing are left out. They are
  I/O adapters. `load_mapping` is modelled from the decoded JSON on.
- Wall-clock polling and the pause before the retry are left out.
  `RETRY_WAIT_SECONDS` is an event (`Waited`) with no duration.
- The SIGINT handler, logging, debug prints and the text of the returned
  messages are left out. `check_totals` returns the compared figures
  instead of its message.
- `_check_sat_page_error` does not model the text of what it reports. The
  model returns the status or the phrase, not the formatted string.
- `float()` is modelled only on decimal numerals. Exponents, `inf`, `nan`,
  underscores, and Unicode digits and spaces are left out, as is IEEE
  binary rounding. Amounts are exact reals, and `f"{x:,.2f}"` rounds the
  exact value half to even.
- `lower()` covers ASCII and Latin-1 capitals, and `upper()` ASCII letters
  only. Python's full Unicode case mapping is not modelled.
- CellRefs.ParseCellRef: `upper()` is modelled on ASCII letters only, so
  `'ß'.upper() == 'SS'` (which makes `=ß5` the reference row 5, column 513)
  is not modelled; `\d` is modelled on ASCII 0-9, while Python's `\d`
  also matches other Unicode decimal digits.
- Impuestos.RowEntriesShape: the number-like test at line 204 uses ASCII
  digits; other Unicode decimal digits that `\d` matches are not modelled.
- Reconcile.DigitsAndPoints: the `[^\d.]` at line 2185 is modelled with ASCII digits; other
  Unicode decimal digits, which Python's `\d` keeps, are not modelled.
- Impuestos.ReadImpuestosPeriod: the `\d{4}` and `\d{2}` of the file-name
  pattern at line 295 are modelled on ASCII digits only.
- Impuestos.DisplayValue: Python's recursion limit is not modelled. A
  reference chain deeper than about a thousand cells raises
  `RecursionError`, which ends the resolution loop like any exception; the
  model follows chains of any length. Only row 0 counts as off the sheet:
  openpyxl releases that also refuse rows above 1048576 are not modelled.
- Currency.ParseCurrency: a number shown as a label or text carries its
  `str()` form as given by the reader. The model does not compute Python's
  `str(float)`.
- The "-" test in the Total percibidos loop is not modelled. Label-map
  values are always floats, so that branch cannot be reached; the map is
  modelled as `map<string, real>`.
- Supervisor.Runner.Run: the teardown (`logout_sat`, closing the context
  and browser) is modelled as not raising. `logout_sat` swallows its own
  errors, and a failing `close()` is not modelled.
- Capturar.ClickCapturar: a row whose `inner_text` raises gives up the
  level (`Unreadable`). Other exceptions inside a level are modelled as the
  candidate not being clickable.
- The ISR and IVA label lists that `run` passes to `fill_obligation_section`
  are constants (`Reconcile.IsrLabels`, `Reconcile.IvaLabels`). The steps
  between login and the totals check are one `Outcome` per attempt.

## Findings

| source | as written | input that shows it | evidently intended | confidence | as-written member | corrected member |
|---|---|---|---|---|---|---|
| sat_declaration_filler.py:1084-1093 | `(ancestor::*)[i]` numbers the ancestors in document order, so level 1 is the root element, which holds every CAPTURAR on the page, and the walk goes from the root inwards | two "IVA" rows with one CAPTURAR each and the label in the second row: the root level holds both, and the first row's CAPTURAR is clicked | the nearest container first (`ancestor::*[i]`), as the comment at line 1093 describes, so the container holding only the label row's CAPTURAR wins (`Capturar.NearestChoice`) | not executed | Capturar.RootFirstTakesOtherRow | Capturar.NearestSoleCandidateTaken |
