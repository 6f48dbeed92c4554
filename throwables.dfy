/**
 * The small part of Java's throwable hierarchy and string conversion that the
 * matchers and the default answer depend on: which catch clause a throwable
 * falls into, its (possibly null) message, its cause, how the JDK renders it
 * as text, and the outcome of calling a user-supplied lambda.
 */
module Throwables {

  /** Java's `null`-able reference: `None` stands for `null`. */
  datatype Option<+T> = None | Some(value: T)

  /**
   * Where a throwable sits in `java.lang.Throwable`'s hierarchy, as far as a
   * `catch` clause can tell: an `AssertionError` (or a subclass), any other
   * `Error`, a `RuntimeException` (unchecked), any other `Exception`
   * (checked), or a direct subclass of `Throwable` that is neither.
   */
  datatype Kind =
    | AssertionError
    | OtherError
    | UncheckedException
    | CheckedException
    | OtherThrowable
  {
    /** `e instanceof Exception` */
    predicate IsException() {
      this == UncheckedException || this == CheckedException
    }
  }

  /**
   * A thrown object: its catch classification, its runtime class name, the
   * message `getMessage()` returns (possibly `null`) and `getCause()`.
   * Two throwables are the same instance exactly when they are equal values.
   */
  datatype Throwable = Throwable(kind: Kind, className: string, message: Option<string>, cause: Option<Throwable>)

  /** How a call into user code ended: it returned a value or it threw. */
  datatype Outcome<+R> = Returned(value: R) | Threw(thrown: Throwable)

  /** `s` occurs somewhere inside `text`. */
  predicate Contains(text: string, s: string) {
    exists i :: 0 <= i <= |text| && s <= text[i..]
  }

  /** `String.valueOf(s)`, which is also what `"..." + s` appends: `null` becomes the text "null". */
  function ValueOf(s: Option<string>): (r: string)
    ensures s.Some? ==> r == s.value
    ensures s.None? ==> r == "null"
  {
    match s
    case None => "null"
    case Some(text) => text
  }

  /**
   * String concatenation with a possibly-null right operand can tell every
   * pair of messages apart except `null` and the four-letter text "null".
   */
  lemma ValueOfInjective(a: Option<string>, b: Option<string>)
    ensures ValueOf(a) == ValueOf(b) <==> a == b || (a.None? && b == Some("null")) || (a == Some("null") && b.None?)
  {
  }

  /** `Throwable.toString()`: the class name, then ": " and the message when the message is not null. */
  function ThrowableToString(e: Throwable): (r: string)
    ensures e.className <= r
    ensures e.message.None? ==> r == e.className
    ensures e.message.Some? ==> r[|e.className|..] == ": " + e.message.value
  {
    match e.message
    case None => e.className
    case Some(m) => e.className + ": " + m
  }

  /** The message of a throwable occurs in its `toString()`. */
  lemma {:induction false} ThrowableToStringContainsMessage(e: Throwable)
    requires e.message.Some?
    ensures Contains(ThrowableToString(e), e.message.value)
  {
    var r := ThrowableToString(e);
    var i := |e.className| + 2;
    assert r[i..] == e.message.value;
  }

  const RuntimeExceptionClass: string := "java.lang.RuntimeException"

  /**
   * `new RuntimeException(cause)`: an unchecked exception whose cause is
   * `cause` itself and whose message is `cause.toString()`.
   */
  function WrapInRuntimeException(cause: Throwable): (r: Throwable)
    ensures r.kind == UncheckedException && r.kind.IsException()
    ensures r.className == RuntimeExceptionClass
    ensures r.message == Some(ThrowableToString(cause))
    ensures r.cause == Some(cause)
    ensures r != cause
    ensures r.message.Some? && cause.className <= r.message.value
  {
    Throwable(UncheckedException, RuntimeExceptionClass, Some(ThrowableToString(cause)), Some(cause))
  }
}
