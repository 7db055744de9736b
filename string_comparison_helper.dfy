/**
 * The StringComparison enumeration (held as its integer value, since any
 * integer can be cast to it), its membership test and validation, and the
 * ordinal comparisons the mappings perform under a comparison mode.
 */
module StringComparisonHelper {
  import opened Common

  const CurrentCulture := 0
  const CurrentCultureIgnoreCase := 1
  const InvariantCulture := 2
  const InvariantCultureIgnoreCase := 3
  const Ordinal := 4
  const OrdinalIgnoreCase := 5

  /** IsDefined: the value is one of the six named members. */
  function IsDefined(value: int): (r: bool)
    ensures r <==> 0 <= value <= 5
  {
    if value != CurrentCulture && value != CurrentCultureIgnoreCase && value != InvariantCulture
       && value != InvariantCultureIgnoreCase && value != Ordinal
    then value == OrdinalIgnoreCase
    else true
  }

  /** Validate: an InvalidEnumArgumentException naming the parameter and value, or nothing. */
  function Validate(value: int, parameterName: string): (error: Option<Exception>)
    ensures error.Some? <==> !IsDefined(value)
    ensures error.Some? ==> error.value == InvalidEnumArgument(parameterName, value)
  {
    if !IsDefined(value) then Some(InvalidEnumArgument(parameterName, value)) else None
  }

  /** Whether a comparison mode ignores case. */
  predicate IgnoresCase(comparison: int)
  {
    comparison == CurrentCultureIgnoreCase || comparison == InvariantCultureIgnoreCase || comparison == OrdinalIgnoreCase
  }

  /** string.Equals(a, b, comparison). */
  predicate StringEquals(a: string, b: string, comparison: int)
  {
    if IgnoresCase(comparison) then EqualsIgnoreCase(a, b) else a == b
  }

  /** a.IndexOf(part, comparison) != -1. */
  predicate StringContains(a: string, part: string, comparison: int)
  {
    ContainsSubstring(a, part, IgnoresCase(comparison))
  }
}
