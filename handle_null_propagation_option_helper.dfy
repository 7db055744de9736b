/**
 * The HandleNullPropagationOption enumeration (held as its integer value)
 * and its membership test and validation.
 */
module HandleNullPropagationOptionHelper {
  import opened Common

  const Default := 0
  const True := 1
  const False := 2

  /** IsDefined: the value is Default, True or False. */
  function IsDefined(value: int): (r: bool)
    ensures r <==> value == Default || value == True || value == False
    ensures r <==> 0 <= value <= 2
  {
    if value != Default && value != True then value == False else true
  }

  /** Validate: an InvalidEnumArgumentException naming the parameter and value, or nothing. */
  function Validate(value: int, parameterName: string): (error: Option<Exception>)
    ensures error.Some? <==> !IsDefined(value)
    ensures error.Some? ==> error.value == InvalidEnumArgument(parameterName, value)
  {
    if !IsDefined(value) then Some(InvalidEnumArgument(parameterName, value)) else None
  }
}
