/**
 * The domain object the library's tests match against, and the failure text
 * an AssertJ `isLessThan` assertion produces for it.
 */
module Fixtures {

  /** A shipping-range search criterion. */
  datatype ShipSearchCriteria = ShipSearchCriteria(minimumRange: int, numberOfPhasers: int)

  /** The decimal digits of `n`, most significant first. */
  function NatToDecimal(n: nat): string
    decreases n
  {
    var digit := ('0' as int + n % 10) as char;
    if n < 10 then [digit] else NatToDecimal(n / 10) + [digit]
  }

  /** The decimal text of `i`, with a leading '-' when it is negative. */
  function IntToDecimal(i: int): string
  {
    if i < 0 then "-" + NatToDecimal(-i) else NatToDecimal(i)
  }

  /** The message of a failed `assertThat(actual).isLessThan(bound)`. */
  function LessThanFailure(actual: int, bound: int): string
  {
    "\nExpecting:\n <" + IntToDecimal(actual) + ">\nto be less than:\n <" + IntToDecimal(bound) + "> "
  }

  /** The decimal texts of the scenario's two numbers. */
  lemma DecimalsOf1000And50()
    ensures IntToDecimal(1000) == "1000" && IntToDecimal(50) == "50"
  {
    assert NatToDecimal(1) == "1";
    assert NatToDecimal(10) == "10";
    assert NatToDecimal(100) == "100";
    assert NatToDecimal(5) == "5";
  }

  /** The failure text of the tests' scenario: range 1000 asserted to be less than 50. */
  lemma LessThanFailureOf1000And50()
    ensures LessThanFailure(1000, 50) == "\nExpecting:\n <1000>\nto be less than:\n <50> "
  {
    DecimalsOf1000And50();
  }
}
