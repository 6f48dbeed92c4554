/**
 * `ReturnsJava8EmptyValues`: Mockito's default answer for unstubbed calls,
 * extended to `Optional`. The delegate's value is used when it is not null;
 * otherwise a method returning `Optional` gets `Optional.empty()` and any
 * other method gets null.
 */
module DefaultAnswers {
  import opened Throwables

  /** The declared return type of a mocked method, as far as the fallback looks at it. */
  datatype JavaClass = OptionalClass | OtherClass(name: string)

  /** A value an answer may produce: null, `Optional.empty()`, or some other object. */
  datatype Value<V> = Null | EmptyOptional | Instance(v: V)

  /** The call being answered: the invoked method's name and return type, and the arguments. */
  datatype Invocation<A> = Invocation(methodName: string, returnType: JavaClass, arguments: seq<A>)

  /**
   * The answer object. Its only field is the final delegate (Mockito's
   * `ReturnsMoreEmptyValues`), modelled as an arbitrary function of the
   * invocation that returns a value or throws.
   */
  datatype ReturnsJava8EmptyValues<!A, V> = ReturnsJava8EmptyValues(delegate: Invocation<A> -> Outcome<Value<V>>)
  {
    /** `answer(invocation)`. */
    function Answer(invocation: Invocation<A>): (r: Outcome<Value<V>>)
      ensures delegate(invocation).Threw? ==> r == delegate(invocation)
      ensures delegate(invocation).Returned? && delegate(invocation).value != Null ==> r == delegate(invocation)
      ensures delegate(invocation) == Returned(Null) ==>
                r == Returned(if invocation.returnType == OptionalClass then EmptyOptional else Null)
      ensures r == Returned(Null) <==> delegate(invocation) == Returned(Null) && invocation.returnType != OptionalClass
    {
      match delegate(invocation)
      case Threw(e) => Threw(e)
      case Returned(defaultReturnValue) =>
        if defaultReturnValue != Null then Returned(defaultReturnValue)
        else Returned(ReturnValueFor(invocation.returnType))
    }

    /** `returnValueFor(type)`: `Optional.empty()` for `Optional`, null for every other type. */
    function ReturnValueFor(t: JavaClass): (r: Value<V>)
      ensures r == EmptyOptional <==> t == OptionalClass
      ensures r == Null <==> t != OptionalClass
    {
      if t == OptionalClass then EmptyOptional else Null
    }
  }

  /**
   * The delegate is consulted first: a method returning `Optional` whose
   * delegate supplies a non-null value gets that value, never the empty
   * `Optional` fallback; and when the delegate does not throw, a method
   * returning `Optional` never receives null.
   */
  lemma {:induction false} DelegateWinsOverOptional<A, V>(answer: ReturnsJava8EmptyValues<A, V>, invocation: Invocation<A>)
    requires invocation.returnType == OptionalClass
    requires answer.delegate(invocation).Returned?
    ensures answer.Answer(invocation).Returned? && answer.Answer(invocation).value != Null
    ensures answer.delegate(invocation).value != Null ==> answer.Answer(invocation) == answer.delegate(invocation)
  {
  }

  /**
   * No state is kept between calls: the answer depends only on what the
   * delegate yields and on the invoked method's return type.
   */
  lemma {:induction false} AnswerDependsOnDelegateAndReturnType<A, V>(
    a1: ReturnsJava8EmptyValues<A, V>, i1: Invocation<A>,
    a2: ReturnsJava8EmptyValues<A, V>, i2: Invocation<A>)
    requires a1.delegate(i1) == a2.delegate(i2)
    requires i1.returnType == i2.returnType
    ensures a1.Answer(i1) == a2.Answer(i2)
  {
  }

  /** A fixture with two unstubbed methods, as in the default answer's tests. */
  function FixtureDelegate(invocation: Invocation<int>): Outcome<Value<seq<int>>>
  {
    if invocation.methodName == "returnGenericClass" then Returned(Instance([])) else Returned(Null)
  }

  /**
   * The tests' scenarios: a method returning a `List` gets the delegate's
   * empty list, and a method returning `Optional`, for which the delegate
   * has nothing, gets `Optional.empty()`.
   */
  lemma FixtureScenarios()
    ensures ReturnsJava8EmptyValues(FixtureDelegate).Answer(Invocation("returnGenericClass", OtherClass("java.util.List"), []))
         == Returned(Instance([]))
    ensures ReturnsJava8EmptyValues(FixtureDelegate).Answer(Invocation("returnOptional", OptionalClass, []))
         == Returned(EmptyOptional)
  {
  }
}
