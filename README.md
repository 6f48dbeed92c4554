# mockito-java8 matchers and default answer, modelled in Dafny

This project models the three pieces of the mockito-java8 library that have
behaviour of their own:

- **`AssertionMatcher`**: an argument matcher that runs an assertion-style
  consumer on the call argument. If the consumer returns, `matches` returns
  true. If it throws an `AssertionError` or any `Exception`, `matches`
  returns false and records the throwable's message in the mutable field
  `errorMessage`, overwriting the previous one. Any other throwable
  propagates. `toString()` is `"AssertionMatcher reported: "` followed by
  the recorded message, or `"null"` while the recorded message is null. It is modelled as a
  class (`AssertionMatchers.AssertionMatcher`) with a constant `consumer` and
  a mutable `errorMessage`.
- **`LambdaMatcher`**: an immutable matcher built from a boolean predicate
  and a description. `matches` returns the predicate's answer. An
  `Exception` from the predicate is rethrown as a new `RuntimeException`
  whose cause is that same exception. An `Error` propagates unchanged.
  `toString()` is the description. The `argLambda` and `argLambdaChecked`
  factories without a description supply a fixed default. It is modelled as
  a datatype with pure member functions (`LambdaMatchers`).
- **`ReturnsJava8EmptyValues`**: the default answer for unstubbed calls. It
  uses the delegate's value when that is non-null. Otherwise it returns
  `Optional.empty()` when the method returns `Optional`, and null for any
  other return type. It is modelled as a datatype whose only field is the
  delegate, an arbitrary function (`DefaultAnswers`).

Java's throwables, `null` strings and the outcome of a call into user code
are modelled once, in module `Throwables`. A user lambda is a total Dafny
function from the argument to an `Outcome`: `Returned(value)` or
`Threw(throwable)`. A throwable carries its place in the hierarchy (`Kind`,
which decides which `catch` clause takes it), its class name, its possibly
null message and its cause. Two throwables are the same instance exactly
when they are equal values.

Two facts about the source shape the model:

- The report prefix is the literal `"AssertionMatcher reported: "`
  (`AssertionMatcher.java:71`).
- `AssertionMatcher.matches` catches every `Exception`, checked or
  unchecked, and turns it into a non-match (`AssertionMatcher.java:63`).
  `AssertionMatcherTest.java` also calls an `assertArgChecked`, which this
  version of `AssertionMatcher.java` does not define, so it is not modelled.

## Model

| member | source | states |
|---|---|---|
| `Throwables.ValueOf` | src/main/java/info/solidsoft/mockito/java8/AssertionMatcher.java:71 | Appending a possibly-null message to a string appends the message itself, or the text "null" when the message is null. |
| `Throwables.ValueOfInjective` | src/main/java/info/solidsoft/mockito/java8/AssertionMatcher.java:71 | Two rendered messages are equal exactly when the messages are equal, except that null and the text "null" render alike (both directions). |
| `Throwables.ThrowableToString` | src/main/java/info/solidsoft/mockito/java8/LambdaMatcher.java:89 | The text of a throwable starts with its class name and continues with ": " and its message, or is the class name alone when the message is null. |
| `Throwables.ThrowableToStringContainsMessage` | src/test/java/info/solidsoft/mockito/java8/LambdaMatcherTest.java:173-176 | A throwable's non-null message occurs inside its text. |
| `Throwables.WrapInRuntimeException` | src/main/java/info/solidsoft/mockito/java8/LambdaMatcher.java:89 | The wrapper is an unchecked exception, its cause is exactly the wrapped exception, it is a different throwable from it, and it is a `java.lang.RuntimeException`, and its message is exactly the cause's `toString()`. |
| `AssertionMatchers.MatchResult` | src/main/java/info/solidsoft/mockito/java8/AssertionMatcher.java:59-66 | `matches` returns true exactly when the consumer returns. It returns false exactly when the consumer throws an `AssertionError` or an `Exception`. It throws exactly when the consumer throws anything else, and then it throws that same throwable. |
| `AssertionMatchers.NextErrorMessage` | src/main/java/info/solidsoft/mockito/java8/AssertionMatcher.java:63-64 | A caught failure replaces the recorded message with the failure's own message. Any other outcome, including a success, leaves the previous message in place. |
| `AssertionMatchers.Report` | src/main/java/info/solidsoft/mockito/java8/AssertionMatcher.java:70-72 | The report starts with the fixed prefix and the rest is exactly the recorded message. Before any failure it is exactly "AssertionMatcher reported: null". |
| `AssertionMatchers.AssertionMatcher.constructor` | src/main/java/info/solidsoft/mockito/java8/AssertionMatcher.java:50-55 | The consumer is the one given and stays fixed. No message is recorded yet. |
| `AssertionMatchers.AssertionMatcher.Matches` | src/main/java/info/solidsoft/mockito/java8/AssertionMatcher.java:59-67 | True exactly on normal completion. False exactly on a caught `AssertionError` or `Exception`, and the field then holds that throwable's message. Other throwables propagate unchanged and leave the field as it was. A success keeps a stale message. |
| `AssertionMatchers.AssertionMatcher.ToString` | src/main/java/info/solidsoft/mockito/java8/AssertionMatcher.java:70-72 | Reads the object only and changes nothing. The result starts with the prefix and is the report of the current message. |
| `AssertionMatchers.ErrorMessageIsLastFailure` | src/main/java/info/solidsoft/mockito/java8/AssertionMatcher.java:59-66 | After any sequence of calls, the recorded message is the message of the last caught failure, searched from the end. The initial value survives only when no call was a caught failure. Failures overwrite and never append. |
| `AssertionMatchers.SecondFailureOverwritesFirst` | src/main/java/info/solidsoft/mockito/java8/AssertionMatcher.java:64 | After failures with messages m1 and then m2, the recorded message is m2. |
| `AssertionMatchers.ReportShowsFailure` | src/test/java/info/solidsoft/mockito/java8/AssertionMatcherTest.java:57-78 | After a failed assertion with a message, the report contains both the prefix and that message. |
| `AssertionMatchers.MinimumRangeScenario` | src/test/java/info/solidsoft/mockito/java8/AssertionMatcherTest.java:41-78 | For a criterion with minimum range 1000, the assertion "less than 2000" matches. The assertion "less than 50" does not match, and the report then contains the prefix and the assertion's "Expecting: <1000> to be less than: <50>" message, with the message directly after the prefix, so the report equals the prefix followed by that message. |
| `Fixtures.LessThanFailureOf1000And50` | src/test/java/info/solidsoft/mockito/java8/AssertionMatcherTest.java:63-73 | The failure text of asserting 1000 to be less than 50 is exactly "\nExpecting:\n <1000>\nto be less than:\n <50> ". |
| `LambdaMatchers.LambdaMatcher.Matches` | src/main/java/info/solidsoft/mockito/java8/LambdaMatcher.java:82-103 | It returns exactly when the predicate returns, and with the predicate's answer. An `Exception` surfaces as a new `java.lang.RuntimeException` whose cause is that same exception and whose message is that exception's `toString()`. Anything else propagates as the same throwable. The thrown throwable is the predicate's own exactly when that throwable is not an `Exception`. |
| `LambdaMatchers.LambdaMatcher.ToString` | src/main/java/info/solidsoft/mockito/java8/LambdaMatcher.java:93-108 | The description is given back exactly as it was at construction. |
| `LambdaMatchers.ArgLambda` | src/main/java/info/solidsoft/mockito/java8/LambdaMatcher.java:110-112 | The registered matcher runs the given predicate and is described by the fixed default description. |
| `LambdaMatchers.ArgLambdaDescribed` | src/main/java/info/solidsoft/mockito/java8/LambdaMatcher.java:114-116 | The registered matcher runs the given predicate and is described by the given description. |
| `LambdaMatchers.Uncheck` | src/main/java/info/solidsoft/mockito/java8/CheckedPredicate.java:15-31 | On every item, the unchecked form of a checked predicate gives the same answer, or throws the very same throwable. |
| `LambdaMatchers.ArgLambdaChecked` | src/main/java/info/solidsoft/mockito/java8/LambdaMatcher.java:118-120 | The matcher runs the unchecked form of the checked predicate and is described by the fixed default description. |
| `LambdaMatchers.ArgLambdaCheckedDescribed` | src/main/java/info/solidsoft/mockito/java8/LambdaMatcher.java:122-124 | The matcher runs the unchecked form of the checked predicate and is described by the given description. |
| `LambdaMatchers.CheckedBehavesAsUnchecked` | src/main/java/info/solidsoft/mockito/java8/LambdaMatcher.java:118-124 | The matchers of both checked factories match like the matchers of the corresponding unchecked factories. A checked exception surfaces as an unchecked exception caused by that same exception, and its message contains the exception's message. |
| `LambdaMatchers.MinimumRangeScenarios` | src/test/java/info/solidsoft/mockito/java8/LambdaMatcherTest.java:101-177 | For the criterion (1000, 4), "range < 2000 and phasers > 2" matches. "Range < 100" does not match and reports its description verbatim. A checked predicate that throws an `IOException` surfaces as an unchecked exception caused by it, whose message carries "Unexpected checked exception". |
| `DefaultAnswers.ReturnsJava8EmptyValues.Answer` | src/main/java/info/solidsoft/mockito/java8/internal/stubbing/defaultanswers/ReturnsJava8EmptyValues.java:20-29 | A non-null delegate value is returned unchanged, and a throwing delegate propagates. A null from the delegate becomes `Optional.empty()` for an `Optional` return type and null otherwise. The result is null exactly when the delegate gave null and the type is not `Optional`. |
| `DefaultAnswers.ReturnsJava8EmptyValues.ReturnValueFor` | src/main/java/info/solidsoft/mockito/java8/internal/stubbing/defaultanswers/ReturnsJava8EmptyValues.java:31-37 | The result is `Optional.empty()` exactly for the `Optional` class and null exactly for every other class. |
| `DefaultAnswers.DelegateWinsOverOptional` | src/main/java/info/solidsoft/mockito/java8/internal/stubbing/defaultanswers/ReturnsJava8EmptyValues.java:22-28 | For an `Optional` return type, a non-null delegate value wins over the empty-`Optional` fallback, and a delegate that does not throw never leads to null. |
| `DefaultAnswers.AnswerDependsOnDelegateAndReturnType` | src/main/java/info/solidsoft/mockito/java8/internal/stubbing/defaultanswers/ReturnsJava8EmptyValues.java:18-29 | The answer is stateless. It depends only on what the delegate yields and on the method's return type. |
| `DefaultAnswers.FixtureScenarios` | src/test/java/info/solidsoft/mockito/java8/internal/stubbing/defaultanswers/ReturnsJava8EmptyValuesMockTest.java:13-35 | A `List`-returning method gets the delegate's empty list, and an `Optional`-returning method gets `Optional.empty()`. |

## Left out

- Registration with Mockito: every factory passes its matcher to Mockito's `argThat`. `assertArg` then returns a placeholder from `LambdaAwareHandyReturnValues`, which uses runtime reflection and Mockito's default values (`AssertionMatcher.java:75-76`). `argLambda` and `argLambdaChecked` return whatever `argThat` returns (`LambdaMatcher.java:110-124`). In the model every factory returns the matcher itself, and neither `argThat` nor `LambdaAwareHandyReturnValues` is part of this model.
- The delegation interfaces under `api/` and the `Mockito8` constant only forward to Mockito and have no logic of their own.
- `ReturnsMoreEmptyValues`, the delegate, is Mockito code. It is an arbitrary function of the invocation here.
- `CheckedConsumer`, `ThrowingPredicate`, `ThrowingConsumer` and `SneakyThrow` only pass a result, or the same exception, through. The `Outcome` of a lambda already covers that. `CheckedPredicate.uncheck` is modelled as `LambdaMatchers.Uncheck`.
- Lambdas are modelled as deterministic functions without side effects. A Java consumer or predicate that keeps state between calls is not captured.
- Exception identity is value equality. Stack traces, suppressed exceptions and localized messages are not modelled.
- A return type is either exactly `Optional` (`OptionalClass`) or some other class. `OtherClass` names are never `java.util.Optional`: the name is informative only and nothing reads it. Class loading and reflection are not modelled.
- The AssertJ failure text is built by `Fixtures.LessThanFailure` only for the `isLessThan` assertion the tests use. AssertJ itself is not part of this model.
- The serialization id of `ReturnsJava8EmptyValues` is not modelled.
- A null description, whose `toString()` would be null (`LambdaMatcher.java:95,107`), and a null checked predicate, which makes `argLambdaChecked` throw a `NullPointerException` at `lambda.uncheck()` before any matcher exists (`LambdaMatcher.java:119,123`), are not modelled: descriptions are plain strings and predicates are total functions.
- Thread safety of `errorMessage`: the source makes no promise about concurrent use.
- The forwarding from the outer `LambdaMatcher` to its anonymous backend matcher: the two are modelled as one value. The outer one only forwards `matches` and `toString`, so nothing observable is lost.
