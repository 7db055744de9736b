/**
 * Shared vocabulary of the model: optional values (the CLR's null), the
 * exceptions the framework raises, results that carry them, and the ordinal
 * string helpers (case-insensitive comparison, white space, trimming) that
 * the CLR string API provides.
 */
module Common {

  /** A reference that may be null. */
  datatype Option<+T> = None | Some(value: T)
  {
    predicate IsFailure() { None? }

    function PropagateFailure<U>(): Option<U>
      requires None?
    {
      None
    }

    function Extract(): T
      requires Some?
    {
      value
    }

    function GetOr(default: T): T
    {
      if Some? then value else default
    }
  }

  /** The exceptions the modelled code throws, by CLR exception class. */
  datatype Exception =
    | ArgumentNull(param: string)
    | Argument(param: string)
    | ArgumentOutOfRange(param: string)
    | InvalidEnumArgument(param: string, value: int)
    | InvalidOperation
    | Format
    | Overflow
    | NullReference
    | IndexOutOfRange
    | KeyNotFound
    | AmbiguousMatch
    | NotImplemented
    | InvalidCast
      /** A parse error at a character offset of the expression text. */
    | ParseError(pos: int, reason: ParseReason)
      /** A parse or format error re-raised naming the query option ($filter, $skip, ...) it came from. */
    | ClauseError(option: string, inner: Exception)
      /** A negative count given to a query option that takes a count. */
    | PositiveIntegerExpected(option: string, expression: string)
    | HttpError(status: int)

  /** Why the expression parser or a query option rejected its input. */
  datatype ParseReason =
    | UnterminatedStringLiteral
    | InvalidCharacter(c: char)
    | DigitExpected
    | SyntaxError
    | IdentifierExpected
    | OpenParenExpected
    | CloseParenOrCommaExpected
    | CloseParenOrOperatorExpected
    | CloseBracketOrCommaExpected
    | ExpressionExpected
    | ExpressionTypeMismatch
    | InvalidIntegerLiteral
    | InvalidRealLiteral
    | InvalidHexLiteral
    | InvalidTypeCreationExpression
    | TypeValueFormat
    | IncompatibleOperand
    | IncompatibleOperands
    | UnknownIdentifier
    | UnknownPropertyOrField
    | NoApplicableMethod
    | AmbiguousMethodInvocation
    | MethodIsVoid
    | NoApplicableAggregate
    | NoApplicableIndexer
    | AmbiguousIndexerInvocation
    | CannotIndexMultiDimArray
    | InvalidIndex
    | DuplicateIdentifier

  /** The value of an operation that can throw. */
  datatype Result<+T> = Ok(value: T) | Err(error: Exception)
  {
    predicate IsFailure() { Err? }

    function PropagateFailure<U>(): Result<U>
      requires Err?
    {
      Err(error)
    }

    function Extract(): T
      requires Ok?
    {
      value
    }
  }

  /** Upper-cases an ASCII letter and leaves every other character alone. */
  function UpperChar(c: char): (r: char)
    ensures 'a' <= c <= 'z' ==> r as int == c as int - 32
    ensures !('a' <= c <= 'z') ==> r == c
  {
    if 'a' <= c <= 'z' then (c as int - 32) as char else c
  }

  function Upper(s: string): (r: string)
    ensures |r| == |s|
    ensures forall i :: 0 <= i < |s| ==> r[i] == UpperChar(s[i])
  {
    if s == [] then [] else [UpperChar(s[0])] + Upper(s[1..])
  }

  /** Ordinal comparison ignoring case (ASCII case folding). */
  predicate EqualsIgnoreCase(a: string, b: string)
  {
    Upper(a) == Upper(b)
  }

  lemma EqualsIgnoreCaseIsEquivalence(a: string, b: string, c: string)
    ensures EqualsIgnoreCase(a, a)
    ensures EqualsIgnoreCase(a, b) ==> EqualsIgnoreCase(b, a)
    ensures EqualsIgnoreCase(a, b) && EqualsIgnoreCase(b, c) ==> EqualsIgnoreCase(a, c)
  {
  }

  /** Characters for which the CLR's char.IsWhiteSpace holds. */
  predicate IsWhiteSpace(c: char)
  {
    ('\t' <= c <= '\r') || c == ' ' || c == '\U{85}' || c == '\U{A0}' || c == '\U{1680}'
    || ('\U{2000}' <= c <= '\U{200A}') || c == '\U{2028}' || c == '\U{2029}'
    || c == '\U{202F}' || c == '\U{205F}' || c == '\U{3000}'
  }

  /** string.IsNullOrWhiteSpace. */
  predicate IsNullOrWhiteSpace(s: Option<string>)
  {
    s.None? || forall i :: 0 <= i < |s.value| ==> IsWhiteSpace(s.value[i])
  }

  /** string.IsNullOrEmpty. */
  predicate IsNullOrEmpty(s: Option<string>)
  {
    s.None? || s.value == ""
  }

  function TrimStartWhere(s: string, drop: char -> bool): (r: string)
    ensures |r| <= |s| && r == s[|s| - |r|..]
    ensures r != [] ==> !drop(r[0])
    ensures forall i :: 0 <= i < |s| - |r| ==> drop(s[i])
  {
    if s != [] && drop(s[0]) then TrimStartWhere(s[1..], drop) else s
  }

  function TrimEndWhere(s: string, drop: char -> bool): (r: string)
    ensures |r| <= |s| && r == s[..|r|]
    ensures r != [] ==> !drop(r[|r| - 1])
    ensures forall i :: |r| <= i < |s| ==> drop(s[i])
  {
    if s != [] && drop(s[|s| - 1]) then TrimEndWhere(s[..|s| - 1], drop) else s
  }

  /** string.Trim(): drops white space at both ends. */
  function Trim(s: string): (r: string)
    ensures r != [] ==> !IsWhiteSpace(r[0]) && !IsWhiteSpace(r[|r| - 1])
  {
    TrimEndWhere(TrimStartWhere(s, IsWhiteSpace), IsWhiteSpace)
  }

  /** Index of the first occurrence of c, or -1 (string.IndexOf(char)). */
  function IndexOfChar(s: string, c: char): (r: int)
    ensures -1 <= r < |s|
    ensures r >= 0 ==> s[r] == c && forall i :: 0 <= i < r ==> s[i] != c
    ensures r == -1 ==> forall i :: 0 <= i < |s| ==> s[i] != c
  {
    if s == [] then -1
    else if s[0] == c then 0
    else var k := IndexOfChar(s[1..], c); if k == -1 then -1 else k + 1
  }

  predicate ContainsChar(s: string, c: char)
  {
    exists i :: 0 <= i < |s| && s[i] == c
  }

  /** Whether `part` occurs in `s` at offset k, comparing characters with `eq`. */
  predicate OccursAt(s: string, part: string, k: int, ignoreCase: bool)
  {
    0 <= k && k + |part| <= |s| &&
    (if ignoreCase then EqualsIgnoreCase(s[k..k + |part|], part) else s[k..k + |part|] == part)
  }

  /** string.IndexOf(part, comparison) != -1, for an ordinal comparison. */
  predicate ContainsSubstring(s: string, part: string, ignoreCase: bool)
  {
    exists k :: 0 <= k <= |s| && OccursAt(s, part, k, ignoreCase)
  }

  predicate StartsWithIgnoreCase(s: string, prefix: string)
  {
    |prefix| <= |s| && EqualsIgnoreCase(s[..|prefix|], prefix)
  }

  /** The index of the first element satisfying p (FirstOrDefault over a predicate). */
  function FirstIndex<T>(s: seq<T>, p: T -> bool): (r: Option<nat>)
    ensures r.Some? ==> r.value < |s| && p(s[r.value]) && forall j :: 0 <= j < r.value ==> !p(s[j])
    ensures r.None? <==> forall j :: 0 <= j < |s| ==> !p(s[j])
  {
    if s == [] then None
    else if p(s[0]) then Some(0)
    else
      var r := FirstIndex(s[1..], p);
      assert forall j :: 1 <= j < |s| ==> s[j] == s[1..][j - 1];
      if r.None? then None else Some(r.value + 1)
  }

  /** The elements satisfying p, in order (Where over a predicate). */
  function Filter<T>(s: seq<T>, p: T -> bool): (r: seq<T>)
    ensures |r| <= |s|
    ensures forall i :: 0 <= i < |r| ==> r[i] in s && p(r[i])
    ensures forall i :: 0 <= i < |s| && p(s[i]) ==> s[i] in r
  {
    if s == [] then []
    else
      var init := s[..|s| - 1];
      assert s == init + [s[|s| - 1]];
      Filter(init, p) + (if p(s[|s| - 1]) then [s[|s| - 1]] else [])
  }

  /** Concatenation associates. */
  lemma AppendAssociates<T>(a: seq<T>, b: seq<T>, c: seq<T>)
    ensures (a + b) + c == a + (b + c)
  {
  }

  /** A non-empty sequence is its prefix without the last element, then that element. */
  lemma PrefixThenLast<T>(s: seq<T>)
    requires |s| > 0
    ensures s[..|s| - 1] + [s[|s| - 1]] == s
  {
  }

  /** An element is kept exactly when it occurs in the input and satisfies p. */
  lemma FilterMembership<T>(s: seq<T>, p: T -> bool, x: T)
    ensures x in Filter(s, p) <==> x in s && p(x)
  {
    var r := Filter(s, p);
    if x in r {
      var i :| 0 <= i < |r| && r[i] == x;
    }
    if x in s && p(x) {
      var i :| 0 <= i < |s| && s[i] == x;
    }
  }

  /** Filter over a concatenation is the concatenation of the filtered parts. */
  lemma {:induction false} FilterAppend<T>(a: seq<T>, b: seq<T>, p: T -> bool)
    ensures Filter(a + b, p) == Filter(a, p) + Filter(b, p)
    decreases |b|
  {
    if b == [] {
      assert a + b == a;
    } else {
      var init := b[..|b| - 1];
      assert (a + b)[..|a + b| - 1] == a + init;
      assert (a + b)[|a + b| - 1] == b[|b| - 1];
      FilterAppend(a, init, p);
    }
  }

  /** The first occurrence of every element, in order (Distinct, and the set part of Union and Except). */
  function Distinct<T(==)>(s: seq<T>): (r: seq<T>)
    ensures |r| <= |s|
    ensures forall i :: 0 <= i < |r| ==> r[i] in s
    ensures forall i :: 0 <= i < |s| ==> s[i] in r
    ensures forall i, j :: 0 <= i < j < |r| ==> r[i] != r[j]
  {
    if s == [] then []
    else
      var init := s[..|s| - 1];
      assert s == init + [s[|s| - 1]];
      var d := Distinct(init);
      if s[|s| - 1] in d then d else d + [s[|s| - 1]]
  }

  /** Distinct keeps every element and adds none. */
  lemma DistinctMembership<T>(s: seq<T>, x: T)
    ensures x in Distinct(s) <==> x in s
  {
    var r := Distinct(s);
    if x in r {
      var i :| 0 <= i < |r| && r[i] == x;
    }
    if x in s {
      var i :| 0 <= i < |s| && s[i] == x;
    }
  }

  /** A sequence without repeated elements is its own Distinct. */
  lemma {:induction false} DistinctOfDistinct<T>(s: seq<T>)
    requires forall i, j :: 0 <= i < j < |s| ==> s[i] != s[j]
    ensures Distinct(s) == s
    decreases |s|
  {
    if s != [] {
      var init := s[..|s| - 1];
      DistinctOfDistinct(init);
      assert s[|s| - 1] !in init;
      assert s == init + [s[|s| - 1]];
    }
  }
}
