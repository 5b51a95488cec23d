/**
 * Excel A1 cell references: `_parse_cell_ref` and `_row_col_to_a1`.
 * Columns are written in bijective base 26 (A = 1, Z = 26, AA = 27).
 */
module CellRefs {
  import opened Text

  predicate IsColumnLetter(ch: char)
  {
    'A' <= ch <= 'Z'
  }

  predicate AllLetters(s: string)
  {
    forall i :: 0 <= i < |s| ==> IsColumnLetter(s[i])
  }

  /** `ord(c) - ord("A") + 1` */
  function LetterValue(ch: char): (v: nat)
    requires IsColumnLetter(ch)
    ensures 1 <= v <= 26
  {
    ch as int - 'A' as int + 1
  }

  /** The column number the accumulator `col = col * 26 + letter` reaches. */
  function ColumnNumber(letters: string): nat
    requires AllLetters(letters)
  {
    if letters == [] then 0
    else ColumnNumber(letters[..|letters| - 1]) * 26 + LetterValue(letters[|letters| - 1])
  }

  /** The letters `divmod(c - 1, 26)` produces, most significant first. */
  function ColumnLetters(col: nat): (s: string)
    ensures AllLetters(s)
    ensures col == 0 <==> s == []
    decreases col
  {
    if col == 0 then ""
    else ColumnLetters((col - 1) / 26) + [('A' as int + (col - 1) % 26) as char]
  }

  /** Letters to number and back: every column number has its letters. */
  lemma {:induction false} ColumnNumberOfLetters(col: nat)
    ensures ColumnNumber(ColumnLetters(col)) == col
    decreases col
  {
    if col != 0 {
      ColumnNumberOfLetters((col - 1) / 26);
      var s := ColumnLetters(col);
      assert s[..|s| - 1] == ColumnLetters((col - 1) / 26);
    }
  }

  /** Number to letters and back: the letters of a column are unique (the base is bijective). */
  lemma {:induction false} ColumnLettersOfNumber(letters: string)
    requires AllLetters(letters)
    ensures ColumnLetters(ColumnNumber(letters)) == letters
  {
    if letters != [] {
      var pre := letters[..|letters| - 1];
      var v := LetterValue(letters[|letters| - 1]);
      ColumnLettersOfNumber(pre);
      var col := ColumnNumber(letters);
      assert col == ColumnNumber(pre) * 26 + v;
      assert (col - 1) / 26 == ColumnNumber(pre) && (col - 1) % 26 == v - 1;
      assert letters == pre + [letters[|letters| - 1]];
    }
  }

  /** Number of leading column letters of `s`. */
  function LetterPrefixLength(s: string): (k: nat)
    ensures k <= |s| && AllLetters(s[..k])
    ensures k < |s| ==> !IsColumnLetter(s[k])
  {
    if s != [] && IsColumnLetter(s[0]) then
      var k := 1 + LetterPrefixLength(s[1..]);
      assert s[..k] == [s[0]] + s[1..][..k - 1];
      k
    else 0
  }

  /** `formula.strip().lstrip("=+").strip().upper()` */
  function Normalize(formula: string): string
  {
    Upper(Strip(LStripChars(Strip(formula), {'=', '+'})))
  }

  /** The `^([A-Z]+)(\d+)$` match on an already normalised text. */
  function SplitRef(s: string): Option<(int, int)>
  {
    var k := LetterPrefixLength(s);
    if 0 < k < |s| && AllDigits(s[k..]) then Some((DigitsValue(s[k..]), ColumnNumber(s[..k])))
    else None
  }

  /**
   * What `_parse_cell_ref` returns: `(row, col)` when the normalised text is
   * one or more letters followed by one or more digits, and nothing else.
   */
  function CellRefOf(formula: string): Option<(int, int)>
  {
    SplitRef(Normalize(formula))
  }

  /** The column accumulator loop of `_parse_cell_ref`. */
  method ColumnOf(letters: string) returns (col: nat)
    requires AllLetters(letters)
    ensures col == ColumnNumber(letters)
    ensures letters != [] ==> col >= 1
  {
    col := 0;
    for i := 0 to |letters|
      invariant col == ColumnNumber(letters[..i])
    {
      assert letters[..i + 1][..i] == letters[..i];
      col := col * 26 + LetterValue(letters[i]);
    }
    assert letters[..|letters|] == letters;
  }

  /** `_parse_cell_ref` */
  method ParseCellRef(formula: string) returns (r: Option<(int, int)>)
    ensures r == CellRefOf(formula)
    ensures r.Some? ==> r.value.0 >= 0 && r.value.1 >= 1
  {
    var s := Normalize(formula);
    var k := LetterPrefixLength(s);
    if !(0 < k < |s| && AllDigits(s[k..])) {
      return None;
    }
    var col := ColumnOf(s[..k]);
    r := Some((DigitsValue(s[k..]), col));
  }

  /** `_row_col_to_a1(row, col)`: column 0 has no letters and falls back to "A". */
  function A1(row: int, col: nat): string
  {
    (if col == 0 then "A" else ColumnLetters(col)) + IntToDecimal(row)
  }

  /**
   * `_row_col_to_a1`: the `divmod` loop prepends one letter per step. A
   * negative column never ends the loop in the source, so it is excluded.
   */
  method RowColToA1(row: int, col: int) returns (s: string)
    requires col >= 0
    ensures s == A1(row, col)
  {
    var c := col;
    var letters := "";
    while c != 0
      invariant 0 <= c <= col
      invariant ColumnLetters(c) + letters == ColumnLetters(col)
      decreases c
    {
      var q, r := (c - 1) / 26, (c - 1) % 26;
      var ch := ('A' as int + r) as char;
      assert ColumnLetters(c) == ColumnLetters(q) + [ch];
      assert ColumnLetters(q) + ([ch] + letters) == (ColumnLetters(q) + [ch]) + letters;
      letters := [ch] + letters;
      c := q;
    }
    assert letters == ColumnLetters(col) by { assert ColumnLetters(0) + letters == letters; }
    s := (if letters == "" then "A" else letters) + IntToDecimal(row);
  }

  /** Letters and digits are left alone by `upper()`. */
  lemma UpperUnchanged(s: string)
    requires forall i :: 0 <= i < |s| ==> IsColumnLetter(s[i]) || IsDigit(s[i])
    ensures Upper(s) == s
  {
  }

  /** Letters followed by digits split back into the column and row they denote. */
  lemma SplitLettersDigits(letters: string, digits: string)
    requires letters != [] && AllLetters(letters)
    requires digits != [] && AllDigits(digits)
    ensures SplitRef(letters + digits) == Some((DigitsValue(digits), ColumnNumber(letters)))
  {
    var s := letters + digits;
    LetterPrefixOf(letters, digits);
    assert s[..|letters|] == letters && s[|letters|..] == digits;
  }

  /** What `_row_col_to_a1` writes for a column >= 1: letters, then the row's digits. */
  lemma A1Shape(row: nat, col: nat)
    requires col >= 1
    ensures var s := A1(row, col);
      && s != [] && IsColumnLetter(s[0]) && IsDigit(s[|s| - 1])
      && (forall i :: 0 <= i < |s| ==> IsColumnLetter(s[i]) || IsDigit(s[i]))
      && SplitRef(s) == Some((row, col))
  {
    var letters, digits := ColumnLetters(col), NatToDecimal(row);
    var s := A1(row, col);
    assert s == letters + digits;
    SplitLettersDigits(letters, digits);
    NatToDecimalValue(row);
    ColumnNumberOfLetters(col);
  }

  /**
   * Round trip: a reference written by `_row_col_to_a1` parses back to the
   * same row and column, for every row >= 0 and column >= 1.
   */
  lemma RoundTrip(row: nat, col: nat)
    requires col >= 1
    ensures CellRefOf(A1(row, col)) == Some((row, col))
  {
    var s := A1(row, col);
    A1Shape(row, col);
    assert [] + s == s;
    NormalizePrefixed([], s);
  }

  lemma {:induction false} LetterPrefixOf(letters: string, rest: string)
    requires AllLetters(letters)
    requires rest != [] ==> !IsColumnLetter(rest[0])
    ensures LetterPrefixLength(letters + rest) == |letters|
  {
    if letters != [] {
      assert (letters + rest)[1..] == letters[1..] + rest;
      LetterPrefixOf(letters[1..], rest);
    } else {
      assert letters + rest == rest;
    }
  }

  /** Column 0 is written as column A, so it reads back as column 1. */
  lemma ColumnZeroIsA(row: nat)
    ensures CellRefOf(A1(row, 0)) == Some((row, 1))
  {
    assert A1(row, 0) == A1(row, 1);
    RoundTrip(row, 1);
  }

  /**
   * Leading "=" and "+" and lower-case letters are accepted: `=+f8`, `=F8`
   * and `+f8` all name row 8, column 6.
   */
  lemma PrefixAndCaseAccepted(prefix: string, row: nat, col: nat)
    requires col >= 1
    requires forall i :: 0 <= i < |prefix| ==> prefix[i] in {'=', '+'}
    ensures CellRefOf(prefix + A1(row, col)) == Some((row, col))
    ensures CellRefOf(prefix + Lower(A1(row, col))) == Some((row, col))
  {
    var s := A1(row, col);
    A1Shape(row, col);
    assert Normalize(prefix + s) == s by { NormalizePrefixed(prefix, s); }
    assert Normalize(prefix + Lower(s)) == s by { NormalizeLowerPrefixed(prefix, s); }
  }

  lemma NormalizePrefixed(prefix: string, s: string)
    requires forall i :: 0 <= i < |prefix| ==> prefix[i] in {'=', '+'}
    requires s != [] && IsColumnLetter(s[0]) && IsDigit(s[|s| - 1])
    requires forall i :: 0 <= i < |s| ==> IsColumnLetter(s[i]) || IsDigit(s[i])
    ensures Normalize(prefix + s) == s
  {
    assert (prefix + s) != [] && !IsSpace((prefix + s)[0]) && !IsSpace((prefix + s)[|prefix + s| - 1])
      && !IsSpace(s[0]) && s[0] !in {'=', '+'} && !IsSpace(s[|s| - 1]) by { PrefixedEnds(prefix, s); }
    assert Normalize(prefix + s) == Upper(Strip(LStripChars(prefix + s, {'=', '+'}))) by {
      NormalizeStripped(prefix + s);
    }
    assert Strip(LStripChars(prefix + s, {'=', '+'})) == s by { StripLStrip(prefix, s); }
    UpperUnchanged(s);
  }

  lemma NormalizeLowerPrefixed(prefix: string, s: string)
    requires forall i :: 0 <= i < |prefix| ==> prefix[i] in {'=', '+'}
    requires s != [] && IsColumnLetter(s[0]) && IsDigit(s[|s| - 1])
    requires forall i :: 0 <= i < |s| ==> IsColumnLetter(s[i]) || IsDigit(s[i])
    ensures Normalize(prefix + Lower(s)) == s
  {
    var low := Lower(s);
    var f := prefix + low;
    assert f != [] && !IsSpace(f[0]) && !IsSpace(f[|f| - 1])
      && !IsSpace(low[0]) && low[0] !in {'=', '+'} && !IsSpace(low[|low| - 1]) by {
      LowerEnds(s);
      PrefixedEnds(prefix, low);
    }
    assert Normalize(f) == Upper(Strip(LStripChars(f, {'=', '+'}))) by { NormalizeStripped(f); }
    assert Strip(LStripChars(f, {'=', '+'})) == low by { StripLStrip(prefix, low); }
    UpperLower(s);
  }

  /** The ends of `prefix + t` that `strip()` and `lstrip("=+")` look at. */
  lemma PrefixedEnds(prefix: string, t: string)
    requires forall i :: 0 <= i < |prefix| ==> prefix[i] in {'=', '+'}
    requires t != [] && ('a' <= t[0] <= 'z' || IsColumnLetter(t[0])) && IsDigit(t[|t| - 1])
    ensures var f := prefix + t; f != [] && !IsSpace(f[0]) && !IsSpace(f[|f| - 1])
    ensures !IsSpace(t[0]) && t[0] !in {'=', '+'} && !IsSpace(t[|t| - 1])
  {
  }

  lemma LowerEnds(s: string)
    requires s != [] && IsColumnLetter(s[0]) && IsDigit(s[|s| - 1])
    ensures var low := Lower(s); low != [] && 'a' <= low[0] <= 'z' && IsDigit(low[|low| - 1])
  {
  }

  lemma UpperLower(s: string)
    requires forall i :: 0 <= i < |s| ==> IsColumnLetter(s[i]) || IsDigit(s[i])
    ensures Upper(Lower(s)) == s
  {
  }

  /** A text with no surrounding whitespace skips the first `strip()`. */
  lemma NormalizeStripped(f: string)
    requires f != [] && !IsSpace(f[0]) && !IsSpace(f[|f| - 1])
    ensures Normalize(f) == Upper(Strip(LStripChars(f, {'=', '+'})))
  {
    StripUnchanged(f);
  }

  lemma StripLStrip(prefix: string, low: string)
    requires forall i :: 0 <= i < |prefix| ==> prefix[i] in {'=', '+'}
    requires low != [] && !IsSpace(low[0]) && low[0] !in {'=', '+'} && !IsSpace(low[|low| - 1])
    ensures Strip(LStripChars(prefix + low, {'=', '+'})) == low
  {
    LStripPrefix(prefix, low, {'=', '+'});
    StripUnchanged(low);
  }

  lemma {:induction false} LStripPrefix(prefix: string, rest: string, chars: set<char>)
    requires forall i :: 0 <= i < |prefix| ==> prefix[i] in chars
    requires rest != [] ==> rest[0] !in chars
    ensures LStripChars(prefix + rest, chars) == rest
  {
    if prefix != [] {
      assert (prefix + rest)[1..] == prefix[1..] + rest;
      LStripPrefix(prefix[1..], rest, chars);
    } else {
      assert prefix + rest == rest;
    }
  }
}
