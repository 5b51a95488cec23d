/**
 * The selector layer of the filler: `load_mapping`'s key filter and the
 * first-success-wins loops of `_try_fill` and `_try_click`.
 *
 * The browser is replaced by a `Page` value that says, for each target, how
 * many elements it matches and which of those can be waited for and acted
 * on without raising. Timeouts and the actions themselves are not modelled;
 * what is modelled is which selector, in mapping order, receives the action.
 */
module Locators {
  import opened Text

  /** What a selector string asks the page for. */
  datatype Target =
    | Css(selector: string)   // `scope.locator(sel)`
    | ByLabel(text: string)   // `scope.get_by_label(text, exact=False)`

  /**
   * The page as the selector loops observe it. `counts` is `loc.count()`
   * (absent: 0); `(t, i)` is in `usable` when the `i`-th match of `t` becomes
   * visible or attached and takes the action without raising; `texts` is
   * `text_content()` of the first match (absent: the call raises; a `None`
   * content already reads as "").
   */
  datatype Page = Page(counts: map<Target, nat>, usable: set<(Target, nat)>, texts: map<Target, string>)

  function Count(p: Page, t: Target): nat
  {
    if t in p.counts then p.counts[t] else 0
  }

  /** The `i`-th match of `t` exists and can be acted on. */
  predicate Usable(p: Page, t: Target, i: nat)
  {
    i < Count(p, t) && (t, i) in p.usable
  }

  /** A value of the mapping file as `json.load` returns it. */
  datatype Json = JList(items: seq<string>) | JOther

  const CommentPrefix: string := "_comment"

  /**
   * `load_mapping`: keep the entries whose key does not start with
   * "_comment" and whose value is a list.
   */
  function LoadMapping(data: map<string, Json>): (m: map<string, seq<string>>)
    ensures forall k :: k in m <==> k in data && !StartsWith(k, CommentPrefix) && data[k].JList?
    ensures forall k :: k in m ==> m[k] == data[k].items
  {
    map k | k in data && !StartsWith(k, CommentPrefix) && data[k].JList? :: data[k].items
  }

  /** `mapping.get(key)`, with a missing key as no selectors. */
  function SelectorsOf(mapping: map<string, seq<string>>, key: string): seq<string>
  {
    if key in mapping then mapping[key] else []
  }

  /** The index of the first `true`, if any. */
  function FirstTrue(bs: seq<bool>): (r: Option<nat>)
    ensures r.Some? ==> r.value < |bs| && bs[r.value]
    ensures r.Some? ==> forall j :: 0 <= j < r.value ==> !bs[j]
    ensures r.None? <==> forall j :: 0 <= j < |bs| ==> !bs[j]
  {
    if bs == [] then None
    else if bs[0] then Some(0)
    else match FirstTrue(bs[1..])
      case Some(i) => Some(i + 1)
      case None => None
  }

  const FileInput: string := "input[type='file']"
  const CerFileKey: string := "_login_cer_file_input"
  const KeyFileKey: string := "_login_key_file_input"
  const LabelPrefix: string := "label="

  /** `label=<text>` selects by visible label; anything else is a locator. */
  function TargetOf(sel: string): Target
  {
    if StartsWith(sel, LabelPrefix) then ByLabel(Strip(sel[|LabelPrefix|..])) else Css(sel)
  }

  /**
   * One iteration of `_try_fill`'s loop: does `sel` take the value? The
   * e.firma page has two unnamed file inputs: the .cer goes to the first
   * and the .key to the second, and the .key skips the selector when fewer
   * than two inputs are there.
   */
  predicate FillWorks(p: Page, key: string, isFile: bool, sel: string)
  {
    if isFile && sel == FileInput && (key == CerFileKey || key == KeyFileKey) then
      if Count(p, Css(sel)) < 2 && key == KeyFileKey then false
      else Usable(p, Css(sel), if key == CerFileKey then 0 else 1)
    else
      Usable(p, TargetOf(sel), 0)
  }

  function FillOutcomes(p: Page, key: string, isFile: bool, sels: seq<string>): (bs: seq<bool>)
    ensures |bs| == |sels|
  {
    seq(|sels|, i requires 0 <= i < |sels| => FillWorks(p, key, isFile, sels[i]))
  }

  /**
   * `_try_fill`: the selectors of `key` are tried in order and the first
   * one that takes the value wins; `used` is its position.
   */
  method TryFill(p: Page, mapping: map<string, seq<string>>, key: string, isFile: bool)
    returns (ok: bool, used: Option<nat>)
    ensures used == FirstTrue(FillOutcomes(p, key, isFile, SelectorsOf(mapping, key)))
    ensures ok <==> used.Some?
  {
    var selectors := SelectorsOf(mapping, key);
    if selectors == [] {
      return false, None;
    }
    ghost var bs := FillOutcomes(p, key, isFile, selectors);
    for i := 0 to |selectors|
      invariant forall j :: 0 <= j < i ==> !bs[j]
    {
      var filled := FillOne(p, key, isFile, selectors[i]);
      if filled {
        FirstTrueAt(bs, i);
        return true, Some(i);
      }
    }
    return false, None;
  }

  /** The body of `_try_fill`'s loop for one selector; `false` is a `continue`. */
  method FillOne(p: Page, key: string, isFile: bool, sel: string) returns (filled: bool)
    ensures filled == FillWorks(p, key, isFile, sel)
  {
    if isFile && sel == FileInput && (key == CerFileKey || key == KeyFileKey) {
      if Count(p, Css(sel)) < 2 && key == KeyFileKey {
        return false;
      }
      var index: nat := if key == CerFileKey then 0 else 1;
      return Usable(p, Css(sel), index);
    }
    var target := TargetOf(sel);
    if Count(p, target) == 0 {
      return false;
    }
    return Usable(p, target, 0);
  }

  /** `_try_click`'s test of one selector: the first match is clickable. */
  predicate ClickWorks(p: Page, sel: string)
  {
    Usable(p, Css(sel), 0)
  }

  function ClickOutcomes(p: Page, sels: seq<string>): (bs: seq<bool>)
    ensures |bs| == |sels|
  {
    seq(|sels|, i requires 0 <= i < |sels| => ClickWorks(p, sels[i]))
  }

  /** `_try_click`: the first selector whose first match can be clicked. */
  method TryClick(p: Page, mapping: map<string, seq<string>>, key: string)
    returns (ok: bool, used: Option<nat>)
    ensures used == FirstTrue(ClickOutcomes(p, SelectorsOf(mapping, key)))
    ensures ok <==> used.Some?
  {
    var selectors := SelectorsOf(mapping, key);
    if selectors == [] {
      return false, None;
    }
    ghost var bs := ClickOutcomes(p, selectors);
    for i := 0 to |selectors|
      invariant forall j :: 0 <= j < i ==> !bs[j]
    {
      var target := Css(selectors[i]);
      if Count(p, target) == 0 {
        continue;
      }
      if Usable(p, target, 0) {
        FirstTrueAt(bs, i);
        return true, Some(i);
      }
    }
    return false, None;
  }

  /** A `true` with only `false` before it is the first one. */
  lemma {:induction false} FirstTrueAt(bs: seq<bool>, i: nat)
    requires i < |bs| && bs[i]
    requires forall j :: 0 <= j < i ==> !bs[j]
    ensures FirstTrue(bs) == Some(i)
  {
    if i > 0 {
      assert !bs[0];
      FirstTrueAt(bs[1..], i - 1);
    }
  }

  /**
   * `_try_fill` succeeds exactly when some selector of the key takes the
   * value, and the one that does is the earliest such.
   */
  lemma FillSucceedsIff(p: Page, mapping: map<string, seq<string>>, key: string, isFile: bool)
    ensures FirstTrue(FillOutcomes(p, key, isFile, SelectorsOf(mapping, key))).Some? <==>
      exists i :: 0 <= i < |SelectorsOf(mapping, key)| && FillWorks(p, key, isFile, SelectorsOf(mapping, key)[i])
  {
    var sels := SelectorsOf(mapping, key);
    var bs := FillOutcomes(p, key, isFile, sels);
    if exists i :: 0 <= i < |sels| && FillWorks(p, key, isFile, sels[i]) {
      var i :| 0 <= i < |sels| && FillWorks(p, key, isFile, sels[i]);
      assert bs[i];
    }
  }

  /** The .key file never goes to a page with a single file input. */
  lemma KeyFileNeedsTwoInputs(p: Page)
    requires Count(p, Css(FileInput)) < 2
    ensures !FillWorks(p, KeyFileKey, true, FileInput)
  {
  }

  /** The .cer file goes to the first file input, the .key file to the second. */
  lemma FileInputChoice(p: Page)
    ensures FillWorks(p, CerFileKey, true, FileInput) == Usable(p, Css(FileInput), 0)
    ensures FillWorks(p, KeyFileKey, true, FileInput) == Usable(p, Css(FileInput), 1)
  {
  }

  /**
   * A "_comment..." entry of the mapping file never drives an action:
   * after `load_mapping` it has no selectors to try.
   */
  lemma CommentKeysInert(data: map<string, Json>, p: Page, key: string, isFile: bool)
    requires StartsWith(key, CommentPrefix)
    ensures FirstTrue(FillOutcomes(p, key, isFile, SelectorsOf(LoadMapping(data), key))) == None
    ensures FirstTrue(ClickOutcomes(p, SelectorsOf(LoadMapping(data), key))) == None
  {
    assert key !in LoadMapping(data);
  }
}
