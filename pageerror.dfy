/**
 * `_check_sat_page_error`: is the SAT portal showing an error page? An HTTP
 * status of 400 or more is reported first; otherwise the body text,
 * lower-cased, is scanned for the known error phrases in their fixed order.
 */
module PageError {
  import opened Text

  /** `_SAT_ERROR_PHRASES`, in tuple order. */
  const ErrorPhrases: seq<string> := [
    "500",
    "internal server error",
    "error del servidor",
    "servidor no disponible",
    "no disponible",
    "service unavailable",
    "unavailable",
    "error http",
    "mantenimiento",
    "maintenance",
    "try again later",
    "intente más tarde"
  ]

  /** What the check reports; `Fine` is the `None` return. */
  datatype Verdict =
    | HttpStatus(status: int)  // "SAT returned HTTP <status>"
    | Phrase(phrase: string)   // "SAT page shows error: found '<phrase>' on page"
    | Fine

  /** Position of the first phrase of `phrases` contained in `text`. */
  function FirstPhrase(text: string, phrases: seq<string>): (r: Option<nat>)
    ensures r.Some? ==> r.value < |phrases| && Contains(text, phrases[r.value])
    ensures r.Some? ==> forall j :: 0 <= j < r.value ==> !Contains(text, phrases[j])
    ensures r.None? <==> forall j :: 0 <= j < |phrases| ==> !Contains(text, phrases[j])
  {
    if phrases == [] then None
    else if Contains(text, phrases[0]) then Some(0)
    else match FirstPhrase(text, phrases[1..])
      case Some(i) => Some(i + 1)
      case None => None
  }

  /**
   * The verdict for a navigation status (if any) and the page body; a body
   * that could not be read is `None` and counts as no error.
   */
  function PageVerdict(status: Option<int>, body: Option<string>): Verdict
  {
    if status.Some? && status.value >= 400 then HttpStatus(status.value)
    else if body.None? then Fine
    else match FirstPhrase(Lower(body.value), ErrorPhrases)
      case Some(i) => Phrase(ErrorPhrases[i])
      case None => Fine
  }

  /** `_check_sat_page_error` with its phrase loop. */
  method CheckPageError(status: Option<int>, body: Option<string>) returns (v: Verdict)
    ensures v == PageVerdict(status, body)
  {
    if status.Some? && status.value >= 400 {
      return HttpStatus(status.value);
    }
    if body.None? {
      return Fine;
    }
    var text := Lower(body.value);
    for i := 0 to |ErrorPhrases|
      invariant forall j :: 0 <= j < i ==> !Contains(text, ErrorPhrases[j])
    {
      if Contains(text, ErrorPhrases[i]) {
        FirstPhraseAt(text, ErrorPhrases, i);
        return Phrase(ErrorPhrases[i]);
      }
    }
    return Fine;
  }

  /** A contained phrase with none contained before it is the first one. */
  lemma {:induction false} FirstPhraseAt(text: string, phrases: seq<string>, i: nat)
    requires i < |phrases| && Contains(text, phrases[i])
    requires forall j :: 0 <= j < i ==> !Contains(text, phrases[j])
    ensures FirstPhrase(text, phrases) == Some(i)
  {
    if i > 0 {
      assert !Contains(text, phrases[0]);
      FirstPhraseAt(text, phrases[1..], i - 1);
    }
  }

  /** A failing status is reported whatever the body says. */
  lemma StatusFirst(status: int, body: Option<string>)
    requires status >= 400
    ensures PageVerdict(Some(status), body) == HttpStatus(status)
  {
  }

  /**
   * Without a failing status, phrase `i` is reported exactly when the
   * lower-cased body contains it and none of the phrases before it.
   */
  lemma PhraseReportedIff(status: Option<int>, body: string, i: nat)
    requires status.None? || status.value < 400
    requires i < |ErrorPhrases|
    ensures PageVerdict(status, Some(body)) == Phrase(ErrorPhrases[i]) <==>
      Contains(Lower(body), ErrorPhrases[i]) &&
      forall j :: 0 <= j < i ==> !Contains(Lower(body), ErrorPhrases[j])
  {
    var r := FirstPhrase(Lower(body), ErrorPhrases);
    if Contains(Lower(body), ErrorPhrases[i]) && forall j :: 0 <= j < i ==> !Contains(Lower(body), ErrorPhrases[j]) {
      FirstPhraseAt(Lower(body), ErrorPhrases, i);
    }
    if PageVerdict(status, Some(body)) == Phrase(ErrorPhrases[i]) {
      PhrasesDistinct(r.value, i);
    }
  }

  /** No phrase is listed twice. */
  lemma PhrasesDistinct(i: nat, j: nat)
    requires i < |ErrorPhrases| && j < |ErrorPhrases|
    requires ErrorPhrases[i] == ErrorPhrases[j]
    ensures i == j
  {
  }

  /** Without a failing status, the page is fine exactly when no phrase occurs. */
  lemma FineIff(status: Option<int>, body: string)
    requires status.None? || status.value < 400
    ensures PageVerdict(status, Some(body)) == Fine <==>
      forall j :: 0 <= j < |ErrorPhrases| ==> !Contains(Lower(body), ErrorPhrases[j])
  {
  }

  /**
   * Order matters: a body saying "servidor no disponible" is reported with
   * that phrase, never with the shorter "no disponible" it also contains.
   */
  lemma LongerPhraseFirst(status: Option<int>, body: string)
    requires status.None? || status.value < 400
    requires Contains(Lower(body), "servidor no disponible")
    ensures PageVerdict(status, Some(body)) != Phrase("no disponible")
  {
    assert ErrorPhrases[3] == "servidor no disponible";
    assert ErrorPhrases[4] == "no disponible";
    PhraseReportedIff(status, body, 4);
  }
}
