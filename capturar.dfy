/**
 * `_click_capturar_next_to_label`: which CAPTURAR control is clicked for a
 * label. Ancestor levels 1..9 of the label element are tried, numbered as
 * `(ancestor::*)[i]` numbers them: in document order, so level 1 is the
 * root element and the walk goes inwards towards the label. A level with
 * exactly one CAPTURAR uses it, and a level with several uses the first
 * whose table row mentions the label and is not the "¿Tienes ...?"
 * question row. `NearestChoice` is the nearest-first walk the code's
 * comments describe.
 */
module Capturar {
  import opened Text
  import opened Locators

  /** The text of a candidate's nearest `tr` ancestor. */
  datatype RowText =
    | NoRow               // no `tr` ancestor: the candidate is passed over
    | Row(text: string)   // `inner_text()` of the row ("" for None)
    | Unreadable          // `inner_text()` raises: the whole level is given up

  /** A CAPTURAR link or button: its row, and whether waiting for it and clicking it succeed. */
  datatype Candidate = Candidate(row: RowText, clickable: bool)

  /**
   * The page around the label: how many elements match the label text
   * (case-insensitively), whether the chosen one becomes visible, and for
   * each ancestor level 1, 2, ... that exists, the CAPTURAR candidates in it.
   * Level `i` is `(ancestor::*)[i]`: level 1 is the root element, which
   * holds every CAPTURAR on the page, and the last level is the label's parent.
   */
  datatype LabelView = LabelView(matches: nat, visible: bool, levels: seq<seq<Candidate>>)

  /** `range(1, 10)`: the ancestor levels tried. */
  const MaxLevel: nat := 9

  const Question: string := "¿Tienes"

  /** The row names the label (ignoring case) and is not the question row. */
  predicate RowMatches(row: string, labelText: string)
  {
    Contains(Lower(row), Lower(labelText)) && !Contains(row, Question)
  }

  /** The scan passes over this candidate and goes on to the next. */
  predicate PassedOver(c: Candidate, labelText: string)
  {
    c.row.NoRow? || (c.row.Row? && !RowMatches(c.row.text, labelText))
  }

  function Offset(o: Option<nat>, d: nat): Option<nat>
  {
    match o
    case Some(i) => Some(i + d)
    case None => None
  }

  /** Among several candidates: the first whose row matches, unless the scan hits an unreadable row first. */
  function PickRow(cands: seq<Candidate>, labelText: string): (r: Option<nat>)
    ensures r.Some? ==> r.value < |cands| && cands[r.value].row.Row? && RowMatches(cands[r.value].row.text, labelText)
    ensures r.Some? ==> forall j :: 0 <= j < r.value ==> PassedOver(cands[j], labelText)
  {
    if cands == [] then None
    else match cands[0].row
      case Unreadable => None
      case Row(t) => if RowMatches(t, labelText) then Some(0) else Offset(PickRow(cands[1..], labelText), 1)
      case NoRow => Offset(PickRow(cands[1..], labelText), 1)
  }

  /** The candidate a level offers: none, the sole one, or the row match. */
  function LevelPick(cands: seq<Candidate>, labelText: string): (r: Option<nat>)
    ensures r.Some? ==> r.value < |cands|
  {
    if |cands| == 0 then None
    else if |cands| == 1 then Some(0)
    else PickRow(cands, labelText)
  }

  /** The level ends the search: its candidate is clicked. */
  predicate LevelClicks(cands: seq<Candidate>, labelText: string)
  {
    LevelPick(cands, labelText).Some? && cands[LevelPick(cands, labelText).value].clickable
  }

  /** The levels the loop reaches: at most nine, and none past a missing ancestor. */
  function Reached(levels: seq<seq<Candidate>>): (lv: seq<seq<Candidate>>)
    ensures |lv| <= MaxLevel
  {
    if |levels| <= MaxLevel then levels else levels[..MaxLevel]
  }

  function LevelOutcomes(lv: seq<seq<Candidate>>, labelText: string): (bs: seq<bool>)
    ensures |bs| == |lv|
  {
    seq(|lv|, i requires 0 <= i < |lv| => LevelClicks(lv[i], labelText))
  }

  /** The walk over levels in the order given: the first level that clicks, and the position it clicks. */
  function Walk(levels: seq<seq<Candidate>>, labelText: string): Option<(nat, nat)>
  {
    var lv := Reached(levels);
    match FirstTrue(LevelOutcomes(lv, labelText))
    case Some(i) => Some((i + 1, LevelPick(lv[i], labelText).value))
    case None => None
  }

  /** The control clicked: its level (1-based) and its position among the level's candidates. */
  function Choice(view: LabelView, labelText: string, occurrence: nat): Option<(nat, nat)>
  {
    if view.matches <= occurrence || !view.visible then None
    else Walk(view.levels, labelText)
  }

  /** The ancestor levels nearest first: the label's parent, then its parent, up to the root. */
  function NearestFirst(levels: seq<seq<Candidate>>): (r: seq<seq<Candidate>>)
    ensures |r| == |levels|
    ensures forall i :: 0 <= i < |levels| ==> r[i] == levels[|levels| - 1 - i]
  {
    if levels == [] then [] else NearestFirst(levels[1..]) + [levels[0]]
  }

  /**
   * The walk as the comments in `_click_capturar_next_to_label` intend it:
   * the nearest container first (`ancestor::*[i]`), so a container holding
   * just the CAPTURAR of the label's own row wins over a larger one.
   */
  function NearestChoice(view: LabelView, labelText: string, occurrence: nat): Option<(nat, nat)>
  {
    if view.matches <= occurrence || !view.visible then None
    else Walk(NearestFirst(view.levels), labelText)
  }

  /** The row scan of a level with several candidates. */
  method PickRowScan(cands: seq<Candidate>, labelText: string) returns (r: Option<nat>)
    ensures r == PickRow(cands, labelText)
  {
    for j := 0 to |cands|
      invariant forall k :: 0 <= k < j ==> PassedOver(cands[k], labelText)
    {
      PickRowAfter(cands, labelText, j);
      match cands[j].row {
        case Unreadable =>
          return None;
        case Row(t) =>
          if RowMatches(t, labelText) {
            return Some(j);
          }
        case NoRow =>
      }
    }
    PickRowAfter(cands, labelText, |cands|);
    return None;
  }

  /** After a stretch of passed-over candidates, the scan goes on from there. */
  lemma {:induction false} PickRowAfter(cands: seq<Candidate>, labelText: string, j: nat)
    requires j <= |cands|
    requires forall k :: 0 <= k < j ==> PassedOver(cands[k], labelText)
    ensures PickRow(cands, labelText) == Offset(PickRow(cands[j..], labelText), j)
  {
    if j > 0 {
      assert PassedOver(cands[0], labelText);
      assert cands[1..][j - 1..] == cands[j..];
      PickRowAfter(cands[1..], labelText, j - 1);
    } else {
      assert cands[0..] == cands;
      assert Offset(PickRow(cands, labelText), 0) == PickRow(cands, labelText);
    }
  }

  /**
   * `_click_capturar_next_to_label`: walks the ancestor levels and clicks
   * the chosen CAPTURAR; `chosen` is its level and position.
   */
  method ClickCapturar(view: LabelView, labelText: string, occurrence: nat) returns (clicked: bool, chosen: Option<(nat, nat)>)
    ensures chosen == Choice(view, labelText, occurrence)
    ensures clicked <==> chosen.Some?
  {
    if view.matches <= occurrence || !view.visible {
      return false, None;
    }
    ghost var lv := Reached(view.levels);
    ghost var bs := LevelOutcomes(lv, labelText);
    var i := 1;
    while i <= MaxLevel
      invariant 1 <= i <= MaxLevel + 1
      invariant forall k :: 0 <= k < i - 1 && k < |lv| ==> !bs[k]
    {
      if i > |view.levels| {
        break;
      }
      assert lv[i - 1] == view.levels[i - 1];
      var cands := view.levels[i - 1];
      var n := |cands|;
      if n == 0 {
        i := i + 1;
        continue;
      }
      var pick: Option<nat>;
      if n == 1 {
        pick := Some(0);
      } else {
        pick := PickRowScan(cands, labelText);
      }
      if pick.None? {
        i := i + 1;
        continue;
      }
      if cands[pick.value].clickable {
        FirstTrueAt(bs, i - 1);
        return true, Some((i, pick.value));
      }
      i := i + 1;
    }
    assert forall k :: 0 <= k < |lv| ==> !bs[k];
    return false, None;
  }

  /** The control clicked is in one of the first nine levels and exists there. */
  lemma ChoiceBounds(view: LabelView, labelText: string, occurrence: nat)
    requires Choice(view, labelText, occurrence).Some?
    ensures var (level, j) := Choice(view, labelText, occurrence).value;
      1 <= level <= MaxLevel && level <= |view.levels| && j < |view.levels[level - 1]|
  {
    var lv := Reached(view.levels);
    var i := FirstTrue(LevelOutcomes(lv, labelText)).value;
    assert lv[i] == view.levels[i];
  }

  /** Ancestors beyond the ninth are never looked at. */
  lemma DeepLevelsIgnored(view: LabelView, labelText: string, occurrence: nat, deeper: seq<seq<Candidate>>)
    requires |view.levels| >= MaxLevel
    ensures Choice(view.(levels := view.levels + deeper), labelText, occurrence) == Choice(view, labelText, occurrence)
  {
    assert Reached(view.levels + deeper) == Reached(view.levels);
  }

  /** Without the requested occurrence of the label, or when it never shows, nothing is clicked. */
  lemma NoLabelNoClick(view: LabelView, labelText: string, occurrence: nat)
    requires view.matches <= occurrence || !view.visible
    ensures Choice(view, labelText, occurrence).None?
  {
  }

  /**
   * In a level with several candidates, the one clicked is in a row that
   * names the label and is not the "¿Tienes ...?" question.
   */
  lemma ChosenRowMatches(view: LabelView, labelText: string, occurrence: nat)
    requires Choice(view, labelText, occurrence).Some?
    requires |view.levels[Choice(view, labelText, occurrence).value.0 - 1]| > 1
    ensures var (level, j) := Choice(view, labelText, occurrence).value;
      view.levels[level - 1][j].row.Row? &&
      Contains(Lower(view.levels[level - 1][j].row.text), Lower(labelText)) &&
      !Contains(view.levels[level - 1][j].row.text, Question)
  {
    var lv := Reached(view.levels);
    var i := FirstTrue(LevelOutcomes(lv, labelText)).value;
    assert lv[i] == view.levels[i];
  }

  /**
   * A level with exactly one clickable candidate, after levels that click
   * nothing, is where the click happens, whatever that candidate's row says.
   */
  lemma SoleCandidateTaken(view: LabelView, labelText: string, occurrence: nat, i: nat)
    requires view.matches > occurrence && view.visible
    requires i < |view.levels| && i < MaxLevel
    requires |view.levels[i]| == 1 && view.levels[i][0].clickable
    requires forall k :: 0 <= k < i ==> !LevelClicks(view.levels[k], labelText)
    ensures Choice(view, labelText, occurrence) == Some((i + 1, 0))
  {
    WalkSole(view.levels, labelText, i);
  }

  lemma WalkSole(levels: seq<seq<Candidate>>, labelText: string, i: nat)
    requires i < |levels| && i < MaxLevel
    requires |levels[i]| == 1 && levels[i][0].clickable
    requires forall k :: 0 <= k < i ==> !LevelClicks(levels[k], labelText)
    ensures Walk(levels, labelText) == Some((i + 1, 0))
  {
    var lv := Reached(levels);
    var bs := LevelOutcomes(lv, labelText);
    forall k | 0 <= k < i
      ensures !bs[k]
    {
      assert lv[k] == levels[k];
    }
    assert lv[i] == levels[i];
    FirstTrueAt(bs, i);
  }

  /**
   * The walk as written takes the root first: with the label in the second
   * of two "IVA" rows, whose own container holds only that row's CAPTURAR,
   * the root level already holds both, and the first row's CAPTURAR is
   * clicked. Nearest first, the label's own row is clicked.
   */
  lemma RootFirstTakesOtherRow()
    ensures var first, own := Candidate(Row("IVA 8%"), true), Candidate(Row("IVA 0%"), true);
      var view := LabelView(2, true, [[first, own], [own]]);
      Choice(view, "IVA", 1) == Some((1, 0)) && view.levels[0][0] == first &&
      NearestChoice(view, "IVA", 1) == Some((1, 0)) && NearestFirst(view.levels)[0][0] == own
  {
    var first, own := Candidate(Row("IVA 8%"), true), Candidate(Row("IVA 0%"), true);
    var levels := [[first, own], [own]];
    assert RowMatches("IVA 8%", "IVA") by {
      NamesIva("IVA 8%");
    }
    assert LevelPick(levels[0], "IVA") == Some(0);
    assert LevelClicks(levels[0], "IVA");
    FirstTrueAt(LevelOutcomes(levels, "IVA"), 0);
    var near := NearestFirst(levels);
    assert near[0] == [own];
    assert LevelClicks(near[0], "IVA");
    FirstTrueAt(LevelOutcomes(near, "IVA"), 0);
  }

  /** A short row that starts with "IVA" names the label "IVA" and is not the question row. */
  lemma NamesIva(row: string)
    requires |row| < |Question| && StartsWith(row, "IVA")
    ensures RowMatches(row, "IVA")
  {
    assert Lower("IVA") == "iva";
    assert StartsWith(Lower(row), "iva") by {
      assert Lower(row)[..3] == Lower(row[..3]);
    }
    ContainsAt(row, Question);
  }

  /**
   * Nearest first, the nearest ancestor holding a CAPTURAR decides: when it
   * holds exactly one and it can be clicked, that one is clicked.
   */
  lemma NearestSoleCandidateTaken(view: LabelView, labelText: string, occurrence: nat, i: nat)
    requires view.matches > occurrence && view.visible
    requires i < |view.levels| && i < MaxLevel
    requires |NearestFirst(view.levels)[i]| == 1 && NearestFirst(view.levels)[i][0].clickable
    requires forall k :: 0 <= k < i ==> NearestFirst(view.levels)[k] == []
    ensures NearestChoice(view, labelText, occurrence) == Some((i + 1, 0))
  {
    var near := NearestFirst(view.levels);
    forall k | 0 <= k < i
      ensures !LevelClicks(near[k], labelText)
    {
    }
    WalkSole(near, labelText, i);
  }
}
