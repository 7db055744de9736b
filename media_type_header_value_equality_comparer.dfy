/**
 * Equality of media types used to match a media range against Accept
 * values: same media type ignoring case, and every parameter of the first
 * value found (name and value ignoring case) among those of the second.
 */
module MediaTypeHeaderValueEqualityComparer {
  import opened Common
  import opened MediaTypes

  /** The first parameter of qs equal to p, or None (FirstOrDefault). */
  function FirstEqualParameter(p: NameValue, qs: seq<NameValue>): (r: Option<NameValue>)
    ensures r.Some? ==> r.value in qs && ParameterEquals(p, r.value)
    ensures r.None? <==> forall j :: 0 <= j < |qs| ==> !ParameterEquals(p, qs[j])
  {
    if qs == [] then None
    else if ParameterEquals(p, qs[0]) then Some(qs[0])
    else
      var r := FirstEqualParameter(p, qs[1..]);
      assert forall j :: 1 <= j < |qs| ==> qs[j] == qs[1..][j - 1];
      r
  }

  /** Whether every parameter in ps has an equal parameter in qs (the foreach with early return). */
  function AllParametersFound(ps: seq<NameValue>, qs: seq<NameValue>): (r: bool)
    ensures r <==> forall i :: 0 <= i < |ps| ==> exists j :: 0 <= j < |qs| && ParameterEquals(ps[i], qs[j])
  {
    if ps == [] then true
    else if FirstEqualParameter(ps[0], qs).None? then false
    else
      var r := AllParametersFound(ps[1..], qs);
      assert forall i :: 1 <= i < |ps| ==> ps[i] == ps[1..][i - 1];
      r
  }

  function Equals(m1: MediaTypeHeaderValue, m2: MediaTypeHeaderValue): (r: bool)
    ensures r <==> (EqualsIgnoreCase(m1.mediaType, m2.mediaType) &&
      forall i :: 0 <= i < |m1.parameters| ==> exists j :: 0 <= j < |m2.parameters| && ParameterEquals(m1.parameters[i], m2.parameters[j]))
  {
    EqualsIgnoreCase(m1.mediaType, m2.mediaType) && AllParametersFound(m1.parameters, m2.parameters)
  }

  /** The hash: the string hash (a parameter here) of the upper-cased media type. */
  function GetHashCode(m: MediaTypeHeaderValue, stringHash: string -> int): int
  {
    stringHash(Upper(m.mediaType))
  }

  lemma EqualsIsReflexive(m: MediaTypeHeaderValue)
    ensures Equals(m, m)
  {
    forall i | 0 <= i < |m.parameters|
      ensures exists j :: 0 <= j < |m.parameters| && ParameterEquals(m.parameters[i], m.parameters[j])
    {
      assert ParameterEquals(m.parameters[i], m.parameters[i]);
    }
  }

  /** Values the comparer equates hash equally, whatever the string hash. */
  lemma EqualValuesHashEqually(m1: MediaTypeHeaderValue, m2: MediaTypeHeaderValue, stringHash: string -> int)
    requires Equals(m1, m2)
    ensures GetHashCode(m1, stringHash) == GetHashCode(m2, stringHash)
  {
  }

  /** The parameter test is a subset test, so the relation is not symmetric. */
  lemma EqualsIsNotSymmetric()
    ensures var plain := MediaTypeHeaderValue("text/plain", [], None);
      var withCharSet := MediaTypeHeaderValue("text/plain", [NameValue("charset", Some("utf-8"))], None);
      Equals(plain, withCharSet) && !Equals(withCharSet, plain)
  {
  }
}
