/**
 * `LambdaMatcher`: an immutable argument matcher built from a boolean
 * predicate and a description. Matching returns the predicate's answer; an
 * `Exception` from the predicate is rethrown wrapped in a new
 * `RuntimeException`, and anything else it throws propagates unchanged. The
 * description given at construction is its `toString()`.
 */
module LambdaMatchers {
  import opened Throwables
  import opened Fixtures

  /** The description the factories without a description argument supply. */
  const DefaultDescription: string := "Inline lambda expression - add description in code to get more detailed error message"

  /**
   * The matcher's state: the predicate and the description, both final.
   * The outer matcher and the anonymous backend matcher it forwards to are
   * one value here, since the outer one only forwards both operations.
   */
  datatype LambdaMatcher<!T> = LambdaMatcher(lambda: T -> Outcome<bool>, description: string)
  {
    /** `matches(item)`, returning the predicate's answer or throwing. */
    function Matches(item: T): (r: Outcome<bool>)
      ensures r.Returned? <==> lambda(item).Returned?
      ensures lambda(item).Returned? ==> r.value == lambda(item).value
      ensures lambda(item).Threw? && lambda(item).thrown.kind.IsException() ==>
                r.thrown.kind == UncheckedException && r.thrown.cause == Some(lambda(item).thrown)
                && r.thrown.className == RuntimeExceptionClass
                && r.thrown.message == Some(ThrowableToString(lambda(item).thrown))
      ensures lambda(item).Threw? && !lambda(item).thrown.kind.IsException() ==> r.thrown == lambda(item).thrown
      ensures r.Threw? ==> (r.thrown == lambda(item).thrown <==> !lambda(item).thrown.kind.IsException())
    {
      match lambda(item)
      case Returned(b) => Returned(b)
      case Threw(e) => if e.kind.IsException() then Threw(WrapInRuntimeException(e)) else Threw(e)
    }

    /** `toString()`: the description fixed at construction. */
    function ToString(): (s: string)
      ensures s == description
    {
      description
    }
  }

  /** `argLambda(lambda)`: the matcher `argThat` registers, with the default description. */
  function ArgLambda<T>(lambda: T -> Outcome<bool>): (m: LambdaMatcher<T>)
    ensures m.ToString() == DefaultDescription && m.lambda == lambda
  {
    ArgLambdaDescribed(lambda, DefaultDescription)
  }

  /** `argLambda(lambda, description)`: the matcher `argThat` registers. */
  function ArgLambdaDescribed<T>(lambda: T -> Outcome<bool>, description: string): (m: LambdaMatcher<T>)
    ensures m.ToString() == description && m.lambda == lambda
  {
    LambdaMatcher(lambda, description)
  }

  /**
   * `CheckedPredicate.uncheck()`: calls the checked predicate and rethrows
   * whatever `Exception` it throws as that same instance; other throwables
   * are not caught. Either way the checked predicate's answer, or the very
   * throwable it threw, passes through.
   */
  function Uncheck<T(!new)>(checked: T -> Outcome<bool>): (p: T -> Outcome<bool>)
    ensures forall item :: p(item) == checked(item)
  {
    (item: T) =>
      match checked(item)
      case Returned(b) => Returned(b)
      case Threw(e) => Threw(e)
  }

  /** `argLambdaChecked(lambda)`: the checked predicate, unchecked, with the default description. */
  function ArgLambdaChecked<T(!new)>(checked: T -> Outcome<bool>): (m: LambdaMatcher<T>)
    ensures m.ToString() == DefaultDescription && m.lambda == Uncheck(checked)
  {
    ArgLambda(Uncheck(checked))
  }

  /** `argLambdaChecked(lambda, description)`: the checked predicate, unchecked, with the given description. */
  function ArgLambdaCheckedDescribed<T(!new)>(checked: T -> Outcome<bool>, description: string): (m: LambdaMatcher<T>)
    ensures m.ToString() == description && m.lambda == Uncheck(checked)
  {
    LambdaMatcher(Uncheck(checked), description)
  }

  /**
   * A checked predicate behaves as its unchecked form: the same answer on
   * success, and on an `Exception` a `RuntimeException` whose cause is that
   * very exception, whose message holds the exception's own message.
   */
  lemma {:induction false} CheckedBehavesAsUnchecked<T(!new)>(checked: T -> Outcome<bool>, description: string, item: T)
    ensures ArgLambdaChecked(checked).Matches(item) == ArgLambda(checked).Matches(item)
    ensures ArgLambdaCheckedDescribed(checked, description).Matches(item)
         == ArgLambdaDescribed(checked, description).Matches(item)
    ensures checked(item).Returned? ==> ArgLambdaCheckedDescribed(checked, description).Matches(item) == checked(item)
    ensures checked(item).Threw? && checked(item).thrown.kind.IsException() && checked(item).thrown.message.Some? ==>
              var r := ArgLambdaCheckedDescribed(checked, description).Matches(item);
              r.Threw? && r.thrown.kind == UncheckedException && r.thrown.cause == Some(checked(item).thrown)
              && r.thrown.message.Some? && Contains(r.thrown.message.value, checked(item).thrown.message.value)
  {
    if checked(item).Threw? && checked(item).thrown.kind.IsException() && checked(item).thrown.message.Some? {
      ThrowableToStringContainsMessage(checked(item).thrown);
    }
  }

  /**
   * The tests' scenarios on one criterion with minimum range 1000 and 4
   * phasers: "closer than 2000 and more than 2 phasers" matches; "closer
   * than 100" does not, and its description is reported verbatim; a checked
   * predicate throwing an `IOException` surfaces as a `RuntimeException`
   * caused by it whose message carries the exception's text.
   */
  lemma MinimumRangeScenarios()
    ensures var criteria := ShipSearchCriteria(1000, 4);
            var m := ArgLambda((c: ShipSearchCriteria) => Returned(c.minimumRange < 2000 && c.numberOfPhasers > 2));
            m.Matches(criteria) == Returned(true)
    ensures var criteria := ShipSearchCriteria(1000, 4);
            var m := ArgLambdaDescribed((c: ShipSearchCriteria) => Returned(c.minimumRange < 100), "minimum range closer than 100");
            m.Matches(criteria) == Returned(false) && m.ToString() == "minimum range closer than 100"
    ensures var criteria := ShipSearchCriteria(1000, 4);
            var io := Throwable(CheckedException, "java.io.IOException", Some("Unexpected checked exception"), None);
            var r := ArgLambdaChecked((c: ShipSearchCriteria) => Threw(io)).Matches(criteria);
            r.Threw? && r.thrown.kind == UncheckedException && r.thrown.cause == Some(io)
            && r.thrown.message.Some? && Contains(r.thrown.message.value, "Unexpected checked exception")
  {
    var io := Throwable(CheckedException, "java.io.IOException", Some("Unexpected checked exception"), None);
    ThrowableToStringContainsMessage(io);
  }
}
