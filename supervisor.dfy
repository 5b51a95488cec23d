/**
 * The attempt loop of `run`: at most two browser sessions, each torn down
 * in a `finally` (log out, clear the run context, close context and
 * browser); an exception leads to one retry, while a failed totals check
 * or a failed send ends the run at once. What each attempt runs into is an
 * input: the browser, the portal and the declaration steps are not modelled.
 */
module Supervisor {
  import opened Text

  /** How one attempt goes, as far as `run` can tell. */
  datatype Outcome =
    | LaunchFails                         // launching the browser or opening the page raises: no `finally` yet
    | FlowRaises                          // a step from login up to `check_totals` raises
    | SendRaises                          // the totals check passes, then `send_declaration` raises
    | SentThenRaises                      // `send_declaration` returns True, then the pause after it raises
    | Reached(totalsOk: bool, sent: bool) // the attempt returns: `totalsOk` from `check_totals`, `sent` from `send_declaration`

  /** What the run does, in order. */
  datatype Event =
    | Launched(attempt: nat)   // browser, context and page open; the run context is set
    | Checked(ok: bool)        // `check_totals` returned
    | SendTried(ok: bool)      // `send_declaration` returned `ok`
    | TornDown(attempt: nat)   // the `finally` block ran
    | Failed(attempt: nat)     // the exception was logged
    | Waited                   // the pause before the retry

  /** The events of one attempt. */
  function AttemptEvents(a: nat, o: Outcome): seq<Event>
  {
    match o
    case LaunchFails => [Failed(a)]
    case FlowRaises => [Launched(a), TornDown(a), Failed(a)]
    case SendRaises => [Launched(a), Checked(true), TornDown(a), Failed(a)]
    case SentThenRaises => [Launched(a), Checked(true), SendTried(true), TornDown(a), Failed(a)]
    case Reached(totalsOk, sent) =>
      [Launched(a), Checked(totalsOk)] + (if totalsOk then [SendTried(sent)] else []) + [TornDown(a)]
  }

  /** The attempt returns from `run` instead of raising. */
  predicate Returns(o: Outcome)
  {
    o.Reached?
  }

  /** What a returning attempt makes `run` return. */
  predicate Success(o: Outcome)
  {
    o.Reached? && o.totalsOk && o.sent
  }

  /** The whole run: attempt 0, and attempt 1 only after attempt 0 raised. */
  function RunEvents(first: Outcome, second: Outcome): seq<Event>
  {
    AttemptEvents(0, first) + (if Returns(first) then [] else [Waited] + AttemptEvents(1, second))
  }

  function RunResult(first: Outcome, second: Outcome): bool
  {
    if Returns(first) then Success(first) else Returns(second) && Success(second)
  }

  class Runner {
    /** `_run_context`: the attempt whose page is open, if any. */
    var runContext: Option<nat>
    /** Everything the run has done so far. */
    var log: seq<Event>

    constructor()
      ensures runContext.None? && log == []
    {
      runContext := None;
      log := [];
    }

    /** The `finally` block of an attempt. */
    method TearDown(a: nat)
      modifies this
      ensures runContext.None? && log == old(log) + [TornDown(a)]
    {
      runContext := None;
      log := log + [TornDown(a)];
    }

    /** One iteration of the attempt loop; `returned` says whether `run` returns with `ok`. */
    method RunAttempt(a: nat, o: Outcome) returns (returned: bool, ok: bool)
      modifies this
      requires runContext.None?
      ensures runContext.None?
      ensures log == old(log) + AttemptEvents(a, o)
      ensures returned == Returns(o) && ok == Success(o)
    {
      if o.LaunchFails? {
        log := log + [Failed(a)];
        return false, false;
      }
      runContext := Some(a);
      log := log + [Launched(a)];
      if o.FlowRaises? {
        TearDown(a);
        log := log + [Failed(a)];
        return false, false;
      }
      var totalsOk := if o.Reached? then o.totalsOk else true;
      log := log + [Checked(totalsOk)];
      if !totalsOk {
        TearDown(a);
        return true, false;
      }
      if o.SendRaises? {
        TearDown(a);
        log := log + [Failed(a)];
        return false, false;
      }
      var sent := if o.Reached? then o.sent else true;
      log := log + [SendTried(sent)];
      if !sent {
        TearDown(a);
        return true, false;
      }
      if o.SentThenRaises? {
        TearDown(a);
        log := log + [Failed(a)];
        return false, false;
      }
      TearDown(a);
      return true, true;
    }

    /** `run`'s loop over `range(2)`; `outcomes(a)` is how attempt `a` goes. */
    method Run(outcomes: nat -> Outcome) returns (ok: bool)
      modifies this
      requires runContext.None?
      ensures runContext.None?
      ensures log == old(log) + RunEvents(outcomes(0), outcomes(1))
      ensures ok == RunResult(outcomes(0), outcomes(1))
    {
      var returned, result := RunAttempt(0, outcomes(0));
      if returned {
        return result;
      }
      log := log + [Waited];
      returned, result := RunAttempt(1, outcomes(1));
      if returned {
        return result;
      }
      return false;
    }
  }

  /** How many browser sessions a list of events opens. */
  function Launches(events: seq<Event>): nat
  {
    if events == [] then 0
    else Launches(events[..|events| - 1]) + (if events[|events| - 1].Launched? then 1 else 0)
  }

  lemma {:induction false} LaunchesAppend(a: seq<Event>, b: seq<Event>)
    ensures Launches(a + b) == Launches(a) + Launches(b)
    decreases |b|
  {
    if b == [] {
      assert a + b == a;
    } else {
      var n := |b| - 1;
      assert (a + b)[..|a + b| - 1] == a + b[..n];
      LaunchesAppend(a, b[..n]);
    }
  }

  lemma AttemptLaunches(a: nat, o: Outcome)
    ensures Launches(AttemptEvents(a, o)) <= 1
  {
    var es := AttemptEvents(a, o);
    if o.LaunchFails? {
      assert es[..0] == [];
    } else {
      assert es == [Launched(a)] + es[1..];
      LaunchesAppend([Launched(a)], es[1..]);
      assert [Launched(a)][..0] == [];
      NoLaunches(es[1..]);
    }
  }

  /** Events with no `Launched` in them open no session. */
  lemma {:induction false} NoLaunches(events: seq<Event>)
    requires forall i :: 0 <= i < |events| ==> !events[i].Launched?
    ensures Launches(events) == 0
  {
    if events != [] {
      NoLaunches(events[..|events| - 1]);
    }
  }

  /** At most two browser sessions are opened. */
  lemma AtMostTwoSessions(first: Outcome, second: Outcome)
    ensures Launches(RunEvents(first, second)) <= 2
  {
    AttemptLaunches(0, first);
    AttemptLaunches(1, second);
    if Returns(first) {
      assert RunEvents(first, second) == AttemptEvents(0, first) + [];
      LaunchesAppend(AttemptEvents(0, first), []);
    } else {
      LaunchesAppend(AttemptEvents(0, first), [Waited] + AttemptEvents(1, second));
      LaunchesAppend([Waited], AttemptEvents(1, second));
      assert [Waited][..0] == [];
    }
  }

  /** Every attempt that opened a session tears it down, and only those do. */
  lemma TeardownEveryAttempt(first: Outcome, second: Outcome, a: nat)
    ensures Launched(a) in RunEvents(first, second) <==> TornDown(a) in RunEvents(first, second)
  {
    AttemptTeardown(0, first, a);
    AttemptTeardown(1, second, a);
    if !Returns(first) {
      var es0, es1 := AttemptEvents(0, first), AttemptEvents(1, second);
      assert RunEvents(first, second) == es0 + ([Waited] + es1);
    }
  }

  /** Within one attempt, a session is opened exactly when it is torn down. */
  lemma AttemptTeardown(b: nat, o: Outcome, a: nat)
    ensures Launched(a) in AttemptEvents(b, o) <==> TornDown(a) in AttemptEvents(b, o)
  {
  }

  /**
   * A first attempt that returns, after the totals check failed, the send
   * failed or the send went through, is the whole run: no retry.
   */
  lemma NoRetryAfterTotals(first: Outcome, second: Outcome)
    requires first.Reached?
    ensures RunEvents(first, second) == AttemptEvents(0, first)
    ensures Waited !in RunEvents(first, second) && Launched(1) !in RunEvents(first, second)
    ensures RunResult(first, second) == (first.totalsOk && first.sent)
  {
  }

  /**
   * A run that succeeds has sent the declaration, and one that sent it yet
   * returns False had the pause after a successful send raise, with no
   * success after it.
   */
  lemma SentYetFailed(first: Outcome, second: Outcome)
    ensures RunResult(first, second) ==> SendTried(true) in RunEvents(first, second)
    ensures SendTried(true) in RunEvents(first, second) && !RunResult(first, second) <==>
      (first.SentThenRaises? && !Success(second)) || (!Returns(first) && second.SentThenRaises?)
  {
  }

  /** The declaration is sent only right after a totals check that passed. */
  lemma SendOnlyAfterTotalsOk(first: Outcome, second: Outcome)
    ensures var es := RunEvents(first, second);
      forall i :: 0 <= i < |es| && es[i].SendTried? ==> i > 0 && es[i - 1] == Checked(true)
  {
    var es0 := AttemptEvents(0, first);
    var es := RunEvents(first, second);
    AttemptSendAfterCheck(0, first);
    if Returns(first) {
      assert es == es0 + [];
    } else {
      var es1 := AttemptEvents(1, second);
      AttemptSendAfterCheck(1, second);
      assert es == es0 + ([Waited] + es1);
      forall i | 0 <= i < |es| && es[i].SendTried?
        ensures i > 0 && es[i - 1] == Checked(true)
      {
        if i < |es0| {
          assert es[i] == es0[i] && es[i - 1] == es0[i - 1];
        } else {
          var k := i - |es0| - 1;
          assert k >= 0 && es[i] == es1[k];
          assert es[i - 1] == es1[k - 1];
        }
      }
    }
  }

  /** Within one attempt, a send comes right after a totals check that passed. */
  lemma AttemptSendAfterCheck(a: nat, o: Outcome)
    ensures var es := AttemptEvents(a, o);
      !es[0].SendTried? &&
      forall i :: 0 <= i < |es| && es[i].SendTried? ==> i > 0 && es[i - 1] == Checked(true)
  {
  }

  /**
   * When the pause after a successful send raises on the first attempt, the
   * retry can send the declaration a second time.
   */
  lemma SecondSendPossible()
    ensures multiset(RunEvents(SentThenRaises, Reached(true, true)))[SendTried(true)] == 2
    ensures RunResult(SentThenRaises, Reached(true, true))
    ensures !RunResult(SentThenRaises, FlowRaises) && SendTried(true) in RunEvents(SentThenRaises, FlowRaises)
  {
    var e0 := AttemptEvents(0, SentThenRaises);
    var e1 := AttemptEvents(1, Reached(true, true));
    assert e0 == [Launched(0), Checked(true)] + [SendTried(true)] + [TornDown(0), Failed(0)];
    assert e1 == [Launched(1), Checked(true)] + [SendTried(true)] + [TornDown(1)];
    assert RunEvents(SentThenRaises, Reached(true, true)) == e0 + [Waited] + e1;
  }

  /** The retry happens only after the first attempt raised, and the run context is then clear. */
  lemma RetryOnlyAfterException(first: Outcome, second: Outcome)
    requires Waited in RunEvents(first, second)
    ensures first.LaunchFails? || first.FlowRaises? || first.SendRaises? || first.SentThenRaises?
    ensures Failed(0) in RunEvents(first, second)
  {
  }
}
