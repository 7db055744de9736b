/**
 * The lexical rules of RFC 2616 section 2.2 used by the header parsers:
 * token characters, linear white space, numbers, quoted pairs, quoted
 * strings and (nested) comments, plus the check for folded header values.
 */
module HttpRuleParser {
  import opened Common

  /** Outcome of one of the length scanners. */
  datatype HttpParseResult = Parsed | NotParsed | InvalidFormat

  const MaxNestedCount := 5

  /** The separators of RFC 2616 section 2.2, which a token may not contain. */
  const Separators: string := "()<>@,;:\\\"/[]?={}"

  /** A visible ASCII character (0x21..0x7E) that is not a separator. */
  predicate IsTokenChar(c: char)
  {
    '!' <= c <= '~' && c !in Separators
  }

  /** Fills the 128-entry lookup table that IsTokenChar reads. */
  method CreateTokenChars() returns (table: array<bool>)
    ensures fresh(table) && table.Length == 0x80
    ensures forall i :: 0 <= i < 0x80 ==> table[i] == IsTokenChar(i as char)
  {
    table := new bool[0x80](_ => false);
    var i := 0x21;
    while i < 0x7f
      invariant 0x21 <= i <= 0x7f
      invariant forall k :: 0 <= k < 0x80 ==> table[k] == (0x21 <= k < i)
    {
      table[i] := true;
      i := i + 1;
    }
    var j := 0;
    while j < |Separators|
      invariant 0 <= j <= |Separators|
      invariant forall k :: 0 <= k < 0x80 ==> table[k] == (0x21 <= k < 0x7f && (k as char) !in Separators[..j])
    {
      assert Separators[..j + 1] == Separators[..j] + [Separators[j]];
      table[Separators[j] as int] := false;
      j := j + 1;
    }
    assert Separators[..j] == Separators;
  }

  /** Length of the longest run of token characters starting at startIndex. */
  method GetTokenLength(input: string, startIndex: nat) returns (r: nat)
    ensures startIndex >= |input| ==> r == 0
    ensures startIndex < |input| ==> startIndex + r <= |input|
    ensures forall i :: startIndex <= i < startIndex + r ==> IsTokenChar(input[i])
    ensures startIndex + r < |input| ==> !IsTokenChar(input[startIndex + r])
  {
    if startIndex >= |input| {
      return 0;
    }
    var i := startIndex;
    while i < |input|
      invariant startIndex <= i <= |input|
      invariant forall k :: startIndex <= k < i ==> IsTokenChar(input[k])
    {
      if !IsTokenChar(input[i]) {
        return i - startIndex;
      }
      i := i + 1;
    }
    return |input| - startIndex;
  }

  predicate IsSpaceOrTab(c: char) { c == ' ' || c == '\t' }

  /** CR LF followed by a space or tab starts at index k (a folded line). */
  predicate FoldAt(s: string, k: int)
  {
    0 <= k && k + 2 < |s| && s[k] == '\r' && s[k + 1] == '\n' && IsSpaceOrTab(s[k + 2])
  }

  /** s is linear white space: spaces, tabs and folds (CR LF SP/HT). */
  predicate IsLinearWhiteSpace(s: string)
    decreases |s|
  {
    s == [] ||
    (IsSpaceOrTab(s[0]) && IsLinearWhiteSpace(s[1..])) ||
    (|s| >= 3 && s[0] == '\r' && s[1] == '\n' && IsSpaceOrTab(s[2]) && IsLinearWhiteSpace(s[3..]))
  }

  lemma LinearWhiteSpaceAppend(s: string, i: nat, j: nat, n: nat)
    requires i <= j && j + n <= |s| && IsLinearWhiteSpace(s[i..j])
    requires (n == 1 && IsSpaceOrTab(s[j])) || (n == 3 && FoldAt(s, j))
    ensures IsLinearWhiteSpace(s[i..j + n])
    decreases j - i
  {
    var t := s[i..j + n];
    if i == j {
      assert t[n..] == [];
    } else if IsSpaceOrTab(s[i]) && IsLinearWhiteSpace(s[i..j][1..]) {
      assert s[i..j][1..] == s[i + 1..j];
      LinearWhiteSpaceAppend(s, i + 1, j, n);
      assert t[1..] == s[i + 1..j + n];
    } else {
      assert s[i..j][3..] == s[i + 3..j];
      LinearWhiteSpaceAppend(s, i + 3, j, n);
      assert t[3..] == s[i + 3..j + n];
    }
  }

  /**
   * Length of the linear white space at startIndex: spaces, tabs and folds
   * (CR LF followed by a space or tab, three characters each).
   */
  method GetWhitespaceLength(input: string, startIndex: nat) returns (r: nat)
    ensures startIndex >= |input| ==> r == 0
    ensures startIndex < |input| ==> startIndex + r <= |input| && IsLinearWhiteSpace(input[startIndex..startIndex + r])
    ensures startIndex + r < |input| ==> !IsSpaceOrTab(input[startIndex + r]) && !FoldAt(input, startIndex + r)
  {
    if startIndex >= |input| {
      return 0;
    }
    var num := startIndex;
    while num < |input|
      invariant startIndex <= num <= |input|
      invariant IsLinearWhiteSpace(input[startIndex..num])
    {
      var ch := input[num];
      if ch == ' ' || ch == '\t' {
        LinearWhiteSpaceAppend(input, startIndex, num, 1);
        num := num + 1;
      } else {
        if ch == '\r' && num + 2 < |input| && input[num + 1] == '\n' {
          if input[num + 2] == ' ' || input[num + 2] == '\t' {
            LinearWhiteSpaceAppend(input, startIndex, num, 3);
            num := num + 3;
            continue;
          }
        }
        return num - startIndex;
      }
    }
    return |input| - startIndex;
  }

  predicate IsDigit(c: char) { '0' <= c <= '9' }

  /** Number of '.' characters in s. */
  function DotCount(s: string): nat
  {
    if s == [] then 0 else (if s[0] == '.' then 1 else 0) + DotCount(s[1..])
  }

  lemma DotCountAppend(s: string, c: char)
    ensures DotCount(s + [c]) == DotCount(s) + (if c == '.' then 1 else 0)
  {
    if s != [] {
      assert (s + [c])[1..] == s[1..] + [c];
      DotCountAppend(s[1..], c);
    } else {
      assert (s + [c])[1..] == [];
    }
  }

  /**
   * Length of the number at startIndex: digits with at most one '.', the
   * '.' only when allowDecimal; 0 when the input starts with '.'.
   */
  method GetNumberLength(input: string, startIndex: nat, allowDecimal: bool) returns (r: nat)
    requires startIndex < |input|
    ensures input[startIndex] == '.' ==> r == 0
    ensures startIndex + r <= |input|
    ensures forall i :: startIndex <= i < startIndex + r ==> IsDigit(input[i]) || input[i] == '.'
    ensures DotCount(input[startIndex..startIndex + r]) <= (if allowDecimal then 1 else 0)
    ensures startIndex + r < |input| && input[startIndex] != '.' ==>
      !IsDigit(input[startIndex + r]) &&
      (input[startIndex + r] == '.' ==> DotCount(input[startIndex..startIndex + r]) == (if allowDecimal then 1 else 0))
  {
    var num := startIndex;
    var haveDot := !allowDecimal;
    if input[num] == '.' {
      return 0;
    }
    while num < |input|
      invariant startIndex <= num <= |input|
      invariant forall i :: startIndex <= i < num ==> IsDigit(input[i]) || input[i] == '.'
      invariant DotCount(input[startIndex..num]) == (if allowDecimal && haveDot then 1 else 0)
      invariant !allowDecimal ==> haveDot
    {
      var ch := input[num];
      assert input[startIndex..num + 1] == input[startIndex..num] + [ch];
      DotCountAppend(input[startIndex..num], ch);
      if '0' <= ch <= '9' {
        num := num + 1;
      } else if !(haveDot || ch != '.') {
        haveDot := true;
        num := num + 1;
      } else {
        break;
      }
    }
    return num - startIndex;
  }

  /** A quoted pair: '\' followed by an ASCII character, always 2 long. */
  method GetQuotedPairLength(input: string, startIndex: nat) returns (result: HttpParseResult, length: nat)
    requires startIndex < |input|
    ensures result == Parsed <==> input[startIndex] == '\\' && startIndex + 2 <= |input| && input[startIndex + 1] <= '\U{7F}'
    ensures result == NotParsed <==> input[startIndex] != '\\'
    ensures length == if result == Parsed then 2 else 0
  {
    length := 0;
    if input[startIndex] != '\\' {
      return NotParsed, 0;
    }
    if startIndex + 2 > |input| || input[startIndex + 1] > '\U{7F}' {
      return InvalidFormat, 0;
    }
    return Parsed, 2;
  }

  /** The quoted-pair test of the expression scanner, which needs two more characters after the backslash. */
  predicate QuotedPairAt(s: string, num: nat)
  {
    num + 2 < |s| && s[num] == '\\' && s[num + 1] <= '\U{7F}'
  }

  /**
   * The expression scanner (comments, quoted strings) exactly as written:
   * after a nested expression it tests the next character only against
   * closeChar and otherwise skips it, and it reads past the end of the input
   * when the nested expression closes at the last character.
   */
  function ExpressionLengthAsWritten(s: string, start: nat, openChar: char, closeChar: char, nesting: bool, depth: int): (r: Result<(HttpParseResult, int)>)
    requires start < |s|
    ensures r.Ok? && r.value.0 == Parsed ==> 2 <= r.value.1 && start + r.value.1 <= |s|
    ensures r.Ok? && r.value.0 != Parsed ==> r.value.1 == 0
    decreases |s| - start, 1, 0
  {
    if s[start] != openChar then Ok((NotParsed, 0))
    else ExpressionLoopAsWritten(s, start, start + 1, openChar, closeChar, nesting, depth)
  }

  function ExpressionLoopAsWritten(s: string, start: nat, num: nat, openChar: char, closeChar: char, nesting: bool, depth: int): (r: Result<(HttpParseResult, int)>)
    requires start < num <= |s|
    ensures r.Ok? && r.value.0 == Parsed ==> 2 <= r.value.1 && start + r.value.1 <= |s|
    ensures r.Ok? && r.value.0 != Parsed ==> r.value.1 == 0
    decreases |s| - start, 0, |s| - num
  {
    if num >= |s| then Ok((InvalidFormat, 0))
    else if QuotedPairAt(s, num) then ExpressionLoopAsWritten(s, start, num + 2, openChar, closeChar, nesting, depth)
    else if nesting && s[num] == openChar then
      if depth + 1 > MaxNestedCount then Ok((InvalidFormat, 0))
      else
        var inner := ExpressionLengthAsWritten(s, num, openChar, closeChar, nesting, depth + 1);
        if inner.Err? then inner
        else if inner.value.0 == Parsed then
          var next := num + inner.value.1;
          if next >= |s| then Err(IndexOutOfRange)
          else if s[next] == closeChar then Ok((Parsed, next - start + 1))
          else ExpressionLoopAsWritten(s, start, next + 1, openChar, closeChar, nesting, depth)
        else if inner.value.0 == InvalidFormat then Ok((InvalidFormat, 0))
        else if s[num] == closeChar then Ok((Parsed, num - start + 1))
        else ExpressionLoopAsWritten(s, start, num + 1, openChar, closeChar, nesting, depth)
    else if s[num] == closeChar then Ok((Parsed, num - start + 1))
    else ExpressionLoopAsWritten(s, start, num + 1, openChar, closeChar, nesting, depth)
  }

  /** "((a)(b))" is one comment of 8 characters, but the scanner as written skips the second '(' and stops at 7. */
  lemma SecondNestedCommentMisread()
    ensures ExpressionLengthAsWritten("((a)(b))", 0, '(', ')', true, 0) == Ok((Parsed, 7))
  {
    var s := "((a)(b))";
    assert ExpressionLengthAsWritten(s, 1, '(', ')', true, 1) == Ok((Parsed, 3));
    assert ExpressionLoopAsWritten(s, 0, 5, '(', ')', true, 0) == Ok((Parsed, 7));
  }

  /** "((a)" is an unterminated comment, but the scanner as written indexes past the end instead of reporting InvalidFormat. */
  lemma UnterminatedNestedCommentOverruns()
    ensures ExpressionLengthAsWritten("((a)", 0, '(', ')', true, 0) == Err(IndexOutOfRange)
  {
    var s := "((a)";
    assert ExpressionLengthAsWritten(s, 1, '(', ')', true, 1) == Ok((Parsed, 3));
  }

  /**
   * The expression scanner with the evident intent: after a nested
   * expression scanning simply continues with the next character.
   */
  function ExpressionLength(s: string, start: nat, openChar: char, closeChar: char, nesting: bool, depth: int): (r: (HttpParseResult, int))
    requires start < |s|
    ensures r.0 == Parsed ==> 2 <= r.1 && start + r.1 <= |s| && s[start] == openChar && s[start + r.1 - 1] == closeChar
    ensures r.0 != Parsed ==> r.1 == 0
    ensures r.0 == NotParsed <==> s[start] != openChar
    decreases |s| - start, 1, 0
  {
    if s[start] != openChar then (NotParsed, 0)
    else ExpressionLoop(s, start, start + 1, openChar, closeChar, nesting, depth)
  }

  function ExpressionLoop(s: string, start: nat, num: nat, openChar: char, closeChar: char, nesting: bool, depth: int): (r: (HttpParseResult, int))
    requires start < num <= |s|
    ensures r.0 == Parsed ==> num - start < r.1 && start + r.1 <= |s| && s[start + r.1 - 1] == closeChar
    ensures r.0 != Parsed ==> r.1 == 0 && r.0 == InvalidFormat
    decreases |s| - start, 0, |s| - num
  {
    if num >= |s| then (InvalidFormat, 0)
    else if QuotedPairAt(s, num) then ExpressionLoop(s, start, num + 2, openChar, closeChar, nesting, depth)
    else if nesting && s[num] == openChar then
      if depth + 1 > MaxNestedCount then (InvalidFormat, 0)
      else
        var inner := ExpressionLength(s, num, openChar, closeChar, nesting, depth + 1);
        if inner.0 == Parsed then
          if num + inner.1 < |s| then ExpressionLoop(s, start, num + inner.1, openChar, closeChar, nesting, depth)
          else (InvalidFormat, 0)
        else (InvalidFormat, 0)
    else if s[num] == closeChar then (Parsed, num - start + 1)
    else ExpressionLoop(s, start, num + 1, openChar, closeChar, nesting, depth)
  }

  /** The corrected scanner reads "((a)(b))" as one comment of 8 characters. */
  lemma SecondNestedCommentRead()
    ensures ExpressionLength("((a)(b))", 0, '(', ')', true, 0) == (Parsed, 8)
  {
    var s := "((a)(b))";
    assert ExpressionLength(s, 1, '(', ')', true, 1) == (Parsed, 3);
    assert ExpressionLength(s, 4, '(', ')', true, 1) == (Parsed, 3);
    assert ExpressionLoop(s, 0, 4, '(', ')', true, 0) == (Parsed, 8);
  }

  /** The corrected scanner reports "((a)" as InvalidFormat. */
  lemma UnterminatedNestedCommentRejected()
    ensures ExpressionLength("((a)", 0, '(', ')', true, 0) == (InvalidFormat, 0)
  {
    var s := "((a)";
    assert ExpressionLength(s, 1, '(', ')', true, 1) == (Parsed, 3);
  }

  /**
   * The corrected scanner, in the source's own form: a loop that advances
   * num, a recursive call per nested expression, and nestedCount passed by
   * reference and restored on every exit.
   */
  method GetExpressionLength(input: string, startIndex: nat, openChar: char, closeChar: char, supportsNesting: bool, nestedCount: int)
    returns (result: HttpParseResult, length: int, nestedCountOut: int)
    requires startIndex < |input|
    ensures nestedCountOut == nestedCount
    ensures (result, length) == ExpressionLength(input, startIndex, openChar, closeChar, supportsNesting, nestedCount)
    decreases |input| - startIndex
  {
    nestedCountOut := nestedCount;
    length := 0;
    if input[startIndex] != openChar {
      return NotParsed, 0, nestedCountOut;
    }
    var num := startIndex + 1;
    while num < |input|
      invariant startIndex < num <= |input|
      invariant nestedCountOut == nestedCount
      invariant ExpressionLoop(input, startIndex, num, openChar, closeChar, supportsNesting, nestedCount)
             == ExpressionLength(input, startIndex, openChar, closeChar, supportsNesting, nestedCount)
      decreases |input| - num
    {
      if num + 2 < |input| {
        var pair, pairLength := GetQuotedPairLength(input, num);
        if pair == Parsed {
          num := num + pairLength;
          continue;
        }
      }
      if supportsNesting && input[num] == openChar {
        nestedCountOut := nestedCountOut + 1;
        if nestedCountOut > MaxNestedCount {
          nestedCountOut := nestedCountOut - 1;
          return InvalidFormat, 0, nestedCountOut;
        }
        var inner, innerLength, restored := GetExpressionLength(input, num, openChar, closeChar, supportsNesting, nestedCountOut);
        nestedCountOut := restored - 1;
        if inner != Parsed || num + innerLength >= |input| {
          return InvalidFormat, 0, nestedCountOut;
        }
        num := num + innerLength;
        continue;
      }
      if input[num] == closeChar {
        return Parsed, num - startIndex + 1, nestedCountOut;
      }
      num := num + 1;
    }
    return InvalidFormat, 0, nestedCountOut;
  }

  /** A comment: '(' ... ')' with nesting up to five levels. */
  method GetCommentLength(input: string, startIndex: nat) returns (result: HttpParseResult, length: int)
    requires startIndex < |input|
    ensures (result, length) == ExpressionLength(input, startIndex, '(', ')', true, 0)
    ensures result == Parsed ==> input[startIndex + length - 1] == ')'
  {
    var nested;
    result, length, nested := GetExpressionLength(input, startIndex, '(', ')', true, 0);
  }

  /** A quoted string: the same scan with '"' at both ends and no nesting. */
  method GetQuotedStringLength(input: string, startIndex: nat) returns (result: HttpParseResult, length: int)
    requires startIndex < |input|
    ensures (result, length) == ExpressionLength(input, startIndex, '"', '"', false, 0)
    ensures result == Parsed ==> length >= 2 && input[startIndex + length - 1] == '"'
  {
    var nested;
    result, length, nested := GetExpressionLength(input, startIndex, '"', '"', false, 0);
  }

  /** A quoted string scan ends at the first '"' that is not part of a quoted pair. */
  lemma {:induction false} QuotedStringEndsAtFirstUnescapedQuote(s: string, start: nat, num: nat)
    requires start < num <= |s|
    requires forall k :: num <= k < |s| ==> s[k] != '\\'
    ensures var r := ExpressionLoop(s, start, num, '"', '"', false, 0);
      r.0 == Parsed <==> exists k :: num <= k < |s| && s[k] == '"'
    ensures var r := ExpressionLoop(s, start, num, '"', '"', false, 0);
      r.0 == Parsed ==> forall k :: num <= k < start + r.1 - 1 ==> s[k] != '"'
    decreases |s| - num
  {
    if num < |s| && s[num] != '"' {
      QuotedStringEndsAtFirstUnescapedQuote(s, start, num + 1);
    }
  }

  /** A CR LF pair at index k that ends the value or is not followed by a space or tab. */
  predicate InvalidNewLineAt(value: string, k: int)
  {
    0 <= k && k + 1 < |value| && value[k] == '\r' && value[k + 1] == '\n'
    && (k + 2 == |value| || !IsSpaceOrTab(value[k + 2]))
  }

  /**
   * Whether a header value holds a line break that is not a fold: some CR LF
   * at or after startIndex ends the value or is followed by something other
   * than a space or tab.
   */
  method ContainsInvalidNewLine(value: string, startIndex: nat) returns (r: bool)
    ensures r <==> exists k :: startIndex <= k && InvalidNewLineAt(value, k)
  {
    var i := startIndex;
    while i < |value|
      invariant startIndex <= i
      invariant forall k :: startIndex <= k < i ==> !InvalidNewLineAt(value, k)
      decreases |value| - i
    {
      if value[i] == '\r' {
        var num2 := i + 1;
        if num2 < |value| && value[num2] == '\n' {
          i := num2 + 1;
          if i == |value| {
            assert InvalidNewLineAt(value, i - 2);
            return true;
          }
          var ch := value[i];
          if ch != ' ' && ch != '\t' {
            assert InvalidNewLineAt(value, i - 2);
            return true;
          }
        }
      }
      i := i + 1;
    }
    return false;
  }

  /**
   * Length of the host at startIndex: the run up to a space, tab, CR or ','.
   * A '/' anywhere in it, an empty run, or a run that is neither an allowed
   * token nor a valid host name (the URI parser's verdict, a parameter here)
   * gives 0 and no host.
   */
  method GetHostLength(input: string, startIndex: nat, allowToken: bool, isValidHostName: string -> bool)
    returns (length: nat, host: Option<string>)
    ensures length == 0 <==> host.None?
    ensures length > 0 ==> startIndex + length <= |input| && host == Some(input[startIndex..startIndex + length])
    ensures length > 0 ==> forall i :: startIndex <= i < startIndex + length ==>
      input[i] != '/' && input[i] != ' ' && input[i] != '\t' && input[i] != '\r' && input[i] != ','
    ensures length > 0 ==> (allowToken && forall i :: startIndex <= i < startIndex + length ==> IsTokenChar(input[i]))
                           || isValidHostName(input[startIndex..startIndex + length])
    ensures length > 0 && startIndex + length < |input| ==> input[startIndex + length] in {' ', '\t', '\r', ','}
  {
    host := None;
    if startIndex >= |input| {
      return 0, None;
    }
    var num := startIndex;
    var allToken := true;
    while num < |input|
      invariant startIndex <= num <= |input|
      invariant forall i :: startIndex <= i < num ==>
        input[i] != '/' && input[i] != ' ' && input[i] != '\t' && input[i] != '\r' && input[i] != ','
      invariant allToken <==> forall i :: startIndex <= i < num ==> IsTokenChar(input[i])
    {
      var c := input[num];
      if c == '/' {
        return 0, None;
      }
      if c == ' ' || c == '\t' || c == '\r' || c == ',' {
        break;
      }
      allToken := allToken && IsTokenChar(c);
      num := num + 1;
    }
    var len := num - startIndex;
    if len == 0 {
      return 0, None;
    }
    var str := input[startIndex..startIndex + len];
    if !((allowToken && allToken) || isValidHostName(str)) {
      return 0, None;
    }
    return len, Some(str);
  }
}
