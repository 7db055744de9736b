/**
 * The status fields of a response: a status code guarded to 0..999 and a
 * reason phrase that may not contain a line break and falls back to the
 * standard phrase when unset.
 */
module HttpResponseMessage {
  import opened Common
  import HttpStatusDescription

  /** Whether s contains a carriage return or a line feed. */
  function ContainsNewLineCharacter(s: string): (r: bool)
    ensures r <==> exists i :: 0 <= i < |s| && (s[i] == '\r' || s[i] == '\n')
  {
    if s == [] then false
    else if s[0] == '\r' || s[0] == '\n' then true
    else
      var rest := ContainsNewLineCharacter(s[1..]);
      assert forall i :: 1 <= i < |s| ==> s[i] == s[1..][i - 1];
      rest
  }

  class Response {
    var statusCode: int
    /** The explicitly set reason phrase, or None (null). */
    var statusDescription: Option<string>

    ghost predicate Valid()
      reads this
    {
      0 <= statusCode <= 999 &&
      (statusDescription.Some? ==> !ContainsNewLineCharacter(statusDescription.value))
    }

    constructor ()
      ensures Valid()
      ensures statusCode == 0 && statusDescription.None?
    {
      statusCode := 0;
      statusDescription := None;
    }

    /** The StatusCode setter: values outside 0..999 are rejected and the old code is kept. */
    method SetStatusCode(value: int) returns (error: Option<Exception>)
      requires Valid()
      modifies this
      ensures Valid()
      ensures error.Some? <==> value < 0 || value > 999
      ensures error.Some? ==> error.value == ArgumentOutOfRange("value") && statusCode == old(statusCode)
      ensures error.None? ==> statusCode == value
      ensures statusDescription == old(statusDescription)
    {
      if value < 0 || value > 999 {
        return Some(ArgumentOutOfRange("value"));
      }
      statusCode := value;
      return None;
    }

    /** The StatusDescription getter: the explicit phrase, else the standard phrase of the code. */
    function StatusDescription(): (r: Option<string>)
      reads this
      ensures statusDescription.Some? ==> r == statusDescription
      ensures statusDescription.None? ==> r == HttpStatusDescription.Phrase(statusCode)
    {
      HttpStatusDescription.GetAgreesWithPhrases(statusCode);
      if statusDescription.Some? then statusDescription else HttpStatusDescription.Get(statusCode)
    }

    /** The StatusDescription setter: a phrase with CR or LF is rejected; None restores the fallback. */
    method SetStatusDescription(value: Option<string>) returns (error: Option<Exception>)
      requires Valid()
      modifies this
      ensures Valid()
      ensures error.Some? <==> value.Some? && ContainsNewLineCharacter(value.value)
      ensures error.Some? ==> error.value == Format && statusDescription == old(statusDescription)
      ensures error.None? ==> statusDescription == value
      ensures statusCode == old(statusCode)
    {
      if value.Some? && ContainsNewLineCharacter(value.value) {
        return Some(Format);
      }
      statusDescription := value;
      return None;
    }
  }

  /** Clearing the phrase makes the getter report the standard phrase of the current code again. */
  method ClearingDescriptionRestoresFallback(response: Response)
    requires response.Valid()
    modifies response
    ensures response.StatusDescription() == HttpStatusDescription.Phrase(response.statusCode)
  {
    var error := response.SetStatusDescription(None);
  }
}
