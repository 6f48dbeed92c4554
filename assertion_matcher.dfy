/**
 * `AssertionMatcher`: an argument matcher that runs an assertion-style
 * consumer on the argument. A consumer that returns means "matches"; an
 * `AssertionError` or any `Exception` means "does not match" and its message
 * is kept for the mismatch report, overwriting the previous one.
 */
module AssertionMatchers {
  import opened Throwables
  import opened Fixtures

  /** The fixed text in front of the recorded message in `toString()`. */
  const ReportPrefix: string := "AssertionMatcher reported: "

  /** The throwables `catch (AssertionError | Exception e)` intercepts. */
  predicate Caught(e: Throwable) {
    e.kind == AssertionError || e.kind.IsException()
  }

  /** What `matches` returns or throws, given how the consumer ended. */
  function MatchResult(outcome: Outcome<()>): (r: Outcome<bool>)
    ensures r == Returned(true) <==> outcome.Returned?
    ensures r == Returned(false) <==> outcome.Threw? && Caught(outcome.thrown)
    ensures r.Threw? <==> outcome.Threw? && !Caught(outcome.thrown)
    ensures r.Threw? ==> r.thrown == outcome.thrown
  {
    match outcome
    case Returned(_) => Returned(true)
    case Threw(e) => if Caught(e) then Returned(false) else Threw(e)
  }

  /** The value of `errorMessage` after one call of `matches`, given its value before. */
  function NextErrorMessage(errorMessage: Option<string>, outcome: Outcome<()>): (m: Option<string>)
    ensures outcome.Threw? && Caught(outcome.thrown) ==> m == outcome.thrown.message
    ensures !(outcome.Threw? && Caught(outcome.thrown)) ==> m == errorMessage
  {
    match outcome
    case Returned(_) => errorMessage
    case Threw(e) => if Caught(e) then e.message else errorMessage
  }

  /** `toString()` for a given value of `errorMessage`. */
  function Report(errorMessage: Option<string>): (s: string)
    ensures ReportPrefix <= s
    ensures errorMessage.Some? ==> s[|ReportPrefix|..] == errorMessage.value
    ensures errorMessage.None? ==> s == "AssertionMatcher reported: null"
  {
    ReportPrefix + ValueOf(errorMessage)
  }

  class AssertionMatcher<T> {
    /** The assertion to run on each argument; fixed at construction. */
    const consumer: T -> Outcome<()>
    /** The message of the most recent caught failure; `None` is Java's `null`. */
    var errorMessage: Option<string>

    constructor (consumer: T -> Outcome<()>)
      ensures this.consumer == consumer
      ensures errorMessage.None?
    {
      this.consumer := consumer;
      errorMessage := None;
    }

    /**
     * `matches(argument)`: true when the consumer returns, false (recording
     * the failure's message) when it throws an `AssertionError` or an
     * `Exception`; anything else the consumer throws propagates and leaves
     * the recorded message as it was.
     */
    method Matches(argument: T) returns (r: Outcome<bool>)
      modifies this
      ensures r == Returned(true) <==> consumer(argument).Returned?
      ensures r == Returned(false) <==> consumer(argument).Threw? && Caught(consumer(argument).thrown)
      ensures r.Threw? ==> r.thrown == consumer(argument).thrown && !Caught(r.thrown)
      ensures r == Returned(false) ==> errorMessage == consumer(argument).thrown.message
      ensures r != Returned(false) ==> errorMessage == old(errorMessage)
      ensures r == MatchResult(consumer(argument))
      ensures errorMessage == NextErrorMessage(old(errorMessage), consumer(argument))
    {
      var outcome := consumer(argument);
      match outcome {
        case Returned(_) =>
          r := Returned(true);
        case Threw(e) =>
          if Caught(e) {
            errorMessage := e.message;
            r := Returned(false);
          } else {
            r := Threw(e);
          }
      }
    }

    /** `toString()`: the prefix followed by the last recorded message, or "null" before any failure. */
    function ToString(): (s: string)
      reads this
      ensures ReportPrefix <= s
      ensures s == Report(errorMessage)
    {
      Report(errorMessage)
    }
  }

  /** `errorMessage` after `matches` has been called once for each outcome, in order. */
  function ErrorMessageAfter(errorMessage: Option<string>, outcomes: seq<Outcome<()>>): Option<string>
    decreases |outcomes|
  {
    if outcomes == [] then errorMessage
    else ErrorMessageAfter(NextErrorMessage(errorMessage, outcomes[0]), outcomes[1..])
  }

  /** The last caught failure among the outcomes, searched from the end. */
  function LastCaught(outcomes: seq<Outcome<()>>): (e: Option<Throwable>)
    ensures e.Some? ==> Caught(e.value) && Threw(e.value) in outcomes
    ensures e.Some? ==> exists i :: 0 <= i < |outcomes| && outcomes[i] == Threw(e.value) &&
                          forall j :: i < j < |outcomes| ==> !(outcomes[j].Threw? && Caught(outcomes[j].thrown))
    ensures e.None? ==> forall o :: o in outcomes && o.Threw? ==> !Caught(o.thrown)
  {
    if outcomes == [] then None
    else
      var last := outcomes[|outcomes| - 1];
      if last.Threw? && Caught(last.thrown) then Some(last.thrown)
      else
        var e := LastCaught(outcomes[..|outcomes| - 1]);
        assert outcomes == outcomes[..|outcomes| - 1] + [last];
        e
  }

  /** Appending one call to a run of calls applies one more step at the end. */
  lemma {:induction false} ErrorMessageAfterAppend(errorMessage: Option<string>, outcomes: seq<Outcome<()>>, o: Outcome<()>)
    ensures ErrorMessageAfter(errorMessage, outcomes + [o]) == NextErrorMessage(ErrorMessageAfter(errorMessage, outcomes), o)
    decreases |outcomes|
  {
    if outcomes == [] {
      assert [] + [o] == [o];
    } else {
      assert (outcomes + [o])[1..] == outcomes[1..] + [o];
      ErrorMessageAfterAppend(NextErrorMessage(errorMessage, outcomes[0]), outcomes[1..], o);
    }
  }

  /**
   * Failures overwrite, never append: after any run of calls the recorded
   * message is exactly the message of the last caught failure, and the
   * initial value survives only when no call failed.
   */
  lemma {:induction false} ErrorMessageIsLastFailure(errorMessage: Option<string>, outcomes: seq<Outcome<()>>)
    ensures LastCaught(outcomes).Some? ==> ErrorMessageAfter(errorMessage, outcomes) == LastCaught(outcomes).value.message
    ensures LastCaught(outcomes).None? ==> ErrorMessageAfter(errorMessage, outcomes) == errorMessage
    decreases |outcomes|
  {
    if outcomes != [] {
      var init := outcomes[..|outcomes| - 1];
      var last := outcomes[|outcomes| - 1];
      assert outcomes == init + [last];
      ErrorMessageAfterAppend(errorMessage, init, last);
      ErrorMessageIsLastFailure(errorMessage, init);
    }
  }

  /** Two failures in a row: only the second message remains. */
  lemma {:induction false} SecondFailureOverwritesFirst(errorMessage: Option<string>, e1: Throwable, e2: Throwable)
    requires Caught(e1) && Caught(e2)
    ensures ErrorMessageAfter(errorMessage, [Threw(e1), Threw(e2)]) == e2.message
  {
    var outcomes: seq<Outcome<()>> := [Threw(e1), Threw(e2)];
    ErrorMessageIsLastFailure(errorMessage, outcomes);
  }

  /** After a failed assertion with a message, the report holds both the prefix and that message. */
  lemma {:induction false} ReportShowsFailure(errorMessage: Option<string>, e: Throwable)
    requires Caught(e) && e.message.Some?
    ensures Contains(Report(NextErrorMessage(errorMessage, Threw(e))), ReportPrefix)
    ensures Contains(Report(NextErrorMessage(errorMessage, Threw(e))), e.message.value)
  {
    var s := Report(e.message);
    assert ReportPrefix <= s[0..];
    assert e.message.value <= s[|ReportPrefix|..];
  }

  /** The assertion `assertThat(sc.getMinimumRange()).isLessThan(bound)`, failing with AssertJ's message. */
  function MinimumRangeLessThan(bound: int): ShipSearchCriteria -> Outcome<()>
  {
    (sc: ShipSearchCriteria) =>
      if sc.minimumRange < bound then Returned(())
      else Threw(Throwable(AssertionError, "java.lang.AssertionError", Some(LessThanFailure(sc.minimumRange, bound)), None))
  }

  /**
   * The tests' scenarios on one criterion with minimum range 1000: an
   * assertion "less than 2000" matches, an assertion "less than 50" does not,
   * and the report is then the prefix followed directly by the assertion's
   * own message.
   */
  method MinimumRangeScenario() returns (lessThan2000: Outcome<bool>, lessThan50: Outcome<bool>, report: string)
    ensures lessThan2000 == Returned(true)
    ensures lessThan50 == Returned(false)
    ensures report == ReportPrefix + "\nExpecting:\n <1000>\nto be less than:\n <50> "
  {
    var criteria := ShipSearchCriteria(1000, 4);
    var passing := new AssertionMatcher(MinimumRangeLessThan(2000));
    lessThan2000 := passing.Matches(criteria);
    var failing := new AssertionMatcher(MinimumRangeLessThan(50));
    lessThan50 := failing.Matches(criteria);
    report := failing.ToString();
    LessThanFailureOf1000And50();
  }
}
