/**
 * The values of the literals of the query expression language: quoted
 * strings, integers with the type the parser gives them, real numbers,
 * the hex text of binary literals, and the integer parsing of the CLR's
 * invariant culture that the parser and the $skip/$top options use.
 *
 * Floating-point, decimal, date, time and Guid parsing belong to the
 * runtime and are parameters (Runtime); integers are parsed here.
 */
module QueryLiterals {
  import opened Common
  import opened ClrTypes
  import opened QueryExpressions
  import opened QueryLexer

  /** How a runtime parse of a typed value ended. */
  datatype ParseOutcome =
    | Parsed
      /** The text is not in the format of the type (FormatException). */
    | FormatFailure
      /** Any other exception the runtime parser throws (an OverflowException, say). */
    | OtherFailure(error: Exception)

  /**
   * The parts of the runtime the parser consults and the model does not
   * define: Unicode character classes, float/double/decimal parsing under
   * NumberStyles.Number (parseNumber) and under the real-literal styles
   * (parseReal), and the parsing of dates, times, offsets and Guids.
   */
  datatype Runtime = Runtime(
    classes: CharClasses,
    parseNumber: (ClrType, string) -> bool,
    parseReal: (ClrType, string) -> bool,
    parseTyped: (ClrType, string) -> ParseOutcome)

  // ---------------------------------------------------------------------------
  // String literals

  /** string.Replace(pattern, replacement): ordinal, left to right, non-overlapping. */
  function Replace(s: string, pattern: string, replacement: string): (r: string)
    requires |pattern| > 0
    decreases |s|
  {
    if |s| < |pattern| then s
    else if s[..|pattern|] == pattern then replacement + Replace(s[|pattern|..], pattern, replacement)
    else [s[0]] + Replace(s[1..], pattern, replacement)
  }

  /** Where the pattern does not occur, Replace changes nothing. */
  lemma {:induction false} ReplaceWithoutOccurrence(s: string, pattern: string, replacement: string)
    requires |pattern| > 0
    requires forall k :: !OccursAt(s, pattern, k, false)
    ensures Replace(s, pattern, replacement) == s
    decreases |s|
  {
    if |s| >= |pattern| {
      assert !OccursAt(s, pattern, 0, false);
      assert s[0..|pattern|] == s[..|pattern|];
      forall k
        ensures !OccursAt(s[1..], pattern, k, false)
      {
        if OccursAt(s[1..], pattern, k, false) {
          assert s[1..][k..k + |pattern|] == s[k + 1..k + 1 + |pattern|];
          assert OccursAt(s, pattern, k + 1, false);
        }
      }
      ReplaceWithoutOccurrence(s[1..], pattern, replacement);
      assert [s[0]] + s[1..] == s;
    }
  }

  /** Replacing a single character by another maps every character. */
  lemma {:induction false} ReplaceCharacter(s: string, c: char, d: char)
    ensures |Replace(s, [c], [d])| == |s|
    ensures forall k :: 0 <= k < |s| ==> Replace(s, [c], [d])[k] == (if s[k] == c then d else s[k])
    decreases |s|
  {
    if |s| >= 1 {
      ReplaceCharacter(s[1..], c, d);
    }
  }

  /**
   * ParseStringLiteral: the token text without its outer quotes, with \\
   * turned into \ and then the escaped quote (\' or \") of the literal's own
   * kind into the bare quote. A doubled quote is kept as two quotes.
   * A text shorter than two characters fails as Substring does.
   */
  function StringLiteralValue(tokenText: string): (r: Result<string>)
    ensures r.Err? <==> |tokenText| < 2
    ensures r.Err? ==> r.error == ArgumentOutOfRange("length")
    ensures r.Ok? ==> |r.value| <= |tokenText| - 2
  {
    if |tokenText| < 2 then Err(ArgumentOutOfRange("length"))
    else
      var body := tokenText[1..|tokenText| - 1];
      var unescaped := Replace(body, "\\\\", "\\");
      LengthOfReplaceShrinks(body, "\\\\", "\\");
      if tokenText[0] == '\'' then
        LengthOfReplaceShrinks(unescaped, "\\'", "'");
        Ok(Replace(unescaped, "\\'", "'"))
      else
        LengthOfReplaceShrinks(unescaped, "\\\"", "\"");
        Ok(Replace(unescaped, "\\\"", "\""))
  }

  /** Replacing a pattern by something no longer than it does not lengthen the text. */
  lemma {:induction false} LengthOfReplaceShrinks(s: string, pattern: string, replacement: string)
    requires 0 < |replacement| <= |pattern|
    ensures |Replace(s, pattern, replacement)| <= |s|
    decreases |s|
  {
    if |s| >= |pattern| {
      if s[..|pattern|] == pattern {
        LengthOfReplaceShrinks(s[|pattern|..], pattern, replacement);
      } else {
        LengthOfReplaceShrinks(s[1..], pattern, replacement);
      }
    }
  }

  /** A literal without backslashes is its body. */
  lemma PlainStringLiteral(body: string, q: char)
    requires q == '\'' || q == '"'
    requires forall k :: 0 <= k < |body| ==> body[k] != '\\'
    ensures StringLiteralValue([q] + body + [q]) == Ok(body)
  {
    var t := [q] + body + [q];
    assert t[1..|t| - 1] == body;
    NoBackslashNoPattern(body, "\\\\");
    ReplaceWithoutOccurrence(body, "\\\\", "\\");
    NoBackslashNoPattern(body, "\\'");
    ReplaceWithoutOccurrence(body, "\\'", "'");
    NoBackslashNoPattern(body, "\\\"");
    ReplaceWithoutOccurrence(body, "\\\"", "\"");
  }

  /** A string without backslashes contains no pattern that starts with one. */
  lemma NoBackslashNoPattern(s: string, pattern: string)
    requires |pattern| > 0 && pattern[0] == '\\'
    requires forall k :: 0 <= k < |s| ==> s[k] != '\\'
    ensures forall k :: !OccursAt(s, pattern, k, false)
  {
    forall k
      ensures !OccursAt(s, pattern, k, false)
    {
    }
  }

  /** 'it\'s' has the value it's, and "a\\b" the value a\b. */
  lemma EscapedStringLiterals()
    ensures StringLiteralValue("'it\\'s'") == Ok("it's")
    ensures StringLiteralValue("\"a\\\\b\"") == Ok("a\\b")
  {
    EscapedQuote();
    EscapedBackslash();
  }

  /** An escaped single quote loses its backslash. */
  lemma EscapedQuote()
    ensures StringLiteralValue("'it\\'s'") == Ok("it's")
  {
    EscapedQuoteBetween("it", "s");
    assert ['\''] + ("it" + ("\\'" + "s")) + ['\''] == "'it\\'s'";
    assert "it" + ("'" + "s") == "it's";
  }

  /** A doubled backslash becomes one. */
  lemma EscapedBackslash()
    ensures StringLiteralValue("\"a\\\\b\"") == Ok("a\\b")
  {
    EscapedBackslashBetween("a", "b");
    assert ['"'] + ("a" + ("\\\\" + "b")) + ['"'] == "\"a\\\\b\"";
    assert "a" + ("\\" + "b") == "a\\b";
  }

  /** Between parts without backslashes, \' in a single-quoted literal is a bare quote. */
  lemma EscapedQuoteBetween(a: string, b: string)
    requires forall k :: 0 <= k < |a| ==> a[k] != '\\'
    requires forall k :: 0 <= k < |b| ==> b[k] != '\\'
    ensures StringLiteralValue(['\''] + (a + ("\\'" + b)) + ['\'']) == Ok(a + ("'" + b))
  {
    var body := a + ("\\'" + b);
    var t := ['\''] + body + ['\''];
    assert t[1..|t| - 1] == body;
    ReplaceAfterPlain(a, "\\'" + b, "\\\\", "\\");
    ReplaceMissAt("\\'" + b, "\\\\", "\\");
    assert ("\\'" + b)[1..] == ['\''] + b;
    ReplaceAfterPlain(['\''] + b, [], "\\\\", "\\");
    assert ['\''] + b + [] == ['\''] + b && ['\\'] + (['\''] + b) == "\\'" + b;
    assert Replace(body, "\\\\", "\\") == body;
    ReplaceAfterPlain(a, "\\'" + b, "\\'", "'");
    ReplaceAtPattern("\\'", b, "'");
    ReplaceAfterPlain(b, [], "\\'", "'");
    assert b + [] == b;
  }

  /** Between parts without backslashes or double quotes, \\ in a double-quoted literal is one backslash. */
  lemma EscapedBackslashBetween(a: string, b: string)
    requires forall k :: 0 <= k < |a| ==> a[k] != '\\'
    requires forall k :: 0 <= k < |b| ==> b[k] != '\\' && b[k] != '"'
    ensures StringLiteralValue(['"'] + (a + ("\\\\" + b)) + ['"']) == Ok(a + ("\\" + b))
  {
    var body := a + ("\\\\" + b);
    var t := ['"'] + body + ['"'];
    assert t[1..|t| - 1] == body;
    ReplaceAfterPlain(a, "\\\\" + b, "\\\\", "\\");
    ReplaceAtPattern("\\\\", b, "\\");
    ReplaceAfterPlain(b, [], "\\\\", "\\");
    assert b + [] == b;
    var unescaped := a + ("\\" + b);
    ReplaceAfterPlain(a, "\\" + b, "\\\"", "\"");
    if b == [] {
      assert Replace("\\" + b, "\\\"", "\"") == "\\" + b;
    } else {
      assert ("\\" + b)[1] == b[0] != "\\\""[1];
      ReplaceMissAt("\\" + b, "\\\"", "\"");
      assert ("\\" + b)[1..] == b;
      ReplaceAfterPlain(b, [], "\\\"", "\"");
      assert ['\\'] + b == "\\" + b;
    }
  }

  /** A character that cannot start the pattern is kept, and the rest replaced. */
  lemma ReplaceSkipsChar(c: char, rest: string, pattern: string, replacement: string)
    requires |pattern| > 0 && c != pattern[0]
    ensures Replace([c] + rest, pattern, replacement) == [c] + Replace(rest, pattern, replacement)
  {
    var s := [c] + rest;
    assert s[1..] == rest;
    if |s| >= |pattern| {
      assert s[..|pattern|][0] == c;
    } else {
      assert Replace(rest, pattern, replacement) == rest;
    }
  }

  /** Where the text does not start with the pattern, its first character is kept. */
  lemma ReplaceMissAt(s: string, pattern: string, replacement: string)
    requires |pattern| > 0 && s != []
    requires |s| < |pattern| || (exists k :: 0 <= k < |pattern| && s[k] != pattern[k])
    ensures Replace(s, pattern, replacement) == [s[0]] + Replace(s[1..], pattern, replacement)
  {
    if |s| >= |pattern| {
      var k :| 0 <= k < |pattern| && s[k] != pattern[k];
      assert s[..|pattern|][k] != pattern[k];
    } else {
      assert Replace(s[1..], pattern, replacement) == s[1..];
      assert [s[0]] + s[1..] == s;
    }
  }

  /** A text starting with the pattern gets the replacement, then the rest replaced. */
  lemma ReplaceAtPattern(pattern: string, rest: string, replacement: string)
    requires |pattern| > 0
    ensures Replace(pattern + rest, pattern, replacement) == replacement + Replace(rest, pattern, replacement)
  {
    var s := pattern + rest;
    assert s[..|pattern|] == pattern && s[|pattern|..] == rest;
  }

  /** A prefix without backslashes is kept as it is by a pattern that starts with one. */
  lemma {:induction false} ReplaceAfterPlain(a: string, rest: string, pattern: string, replacement: string)
    requires |pattern| > 0 && pattern[0] == '\\'
    requires forall k :: 0 <= k < |a| ==> a[k] != '\\'
    ensures Replace(a + rest, pattern, replacement) == a + Replace(rest, pattern, replacement)
    decreases |a|
  {
    if a == [] {
      assert a + rest == rest;
    } else {
      ReplaceSkipsChar(a[0], a[1..] + rest, pattern, replacement);
      assert [a[0]] + (a[1..] + rest) == a + rest;
      ReplaceAfterPlain(a[1..], rest, pattern, replacement);
      AppendAssociates([a[0]], a[1..], Replace(rest, pattern, replacement));
      assert [a[0]] + a[1..] == a;
    }
  }

  /** A doubled quote inside a literal stays doubled in its value. */
  lemma DoubledQuoteIsKept()
    ensures StringLiteralValue("'it''s'") == Ok("it''s")
  {
    PlainStringLiteral("it''s", '\'');
    assert ['\''] + "it''s" + ['\''] == "'it''s'";
  }

  // ---------------------------------------------------------------------------
  // Integer text, as Int32.Parse and friends read it under the invariant culture

  /** The white space the CLR's number parser skips: tab to carriage return, and space. */
  predicate IsNumberWhite(c: char)
  {
    c == ' ' || ('\t' <= c <= '\r')
  }

  /** The first offset from i that is not number white space. */
  function SkipNumberWhite(s: string, i: nat): (r: nat)
    requires i <= |s|
    ensures i <= r <= |s| && (r < |s| ==> !IsNumberWhite(s[r]))
    ensures forall k :: i <= k < r ==> IsNumberWhite(s[k])
    decreases |s| - i
  {
    if i < |s| && IsNumberWhite(s[i]) then SkipNumberWhite(s, i + 1) else i
  }

  /** The first offset from i that is not an ASCII digit. */
  function DigitsEnd(s: string, i: nat): (r: nat)
    requires i <= |s|
    ensures i <= r <= |s| && (r < |s| ==> !IsAsciiDigit(s[r]))
    ensures forall k :: i <= k < r ==> IsAsciiDigit(s[k])
    decreases |s| - i
  {
    if i < |s| && IsAsciiDigit(s[i]) then DigitsEnd(s, i + 1) else i
  }

  /** The value of a run of ASCII digits, most significant first. */
  function DigitsValue(s: string): nat
    requires forall k :: 0 <= k < |s| ==> IsAsciiDigit(s[k])
  {
    if s == [] then 0
    else
      assert IsAsciiDigit(s[|s| - 1]);
      10 * DigitsValue(s[..|s| - 1]) + (s[|s| - 1] as int - '0' as int)
  }

  /** The decimal digits of a natural number, without leading zeros. */
  function NatToDigits(n: nat): (r: string)
    ensures |r| >= 1 && forall k :: 0 <= k < |r| ==> IsAsciiDigit(r[k])
    ensures DigitsValue(r) == n
  {
    var last := [('0' as int + n % 10) as char];
    if n < 10 then last
    else
      var r := NatToDigits(n / 10) + last;
      assert r[..|r| - 1] == NatToDigits(n / 10);
      r
  }

  /** Int64.ToString() under the invariant culture: a minus sign for negative numbers, then the digits. */
  function IntegerText(n: int): (r: string)
    ensures |r| >= 1
  {
    if n < 0 then "-" + NatToDigits(-n) else NatToDigits(n)
  }

  /** Whether every character from offset i on is '\0' (which the CLR's parser accepts as trailing). */
  predicate TrailingNulls(s: string, i: nat)
  {
    forall k :: i <= k < |s| ==> s[k] == '\0'
  }

  /**
   * The integer the CLR's parser reads under the invariant culture, with
   * leading and trailing white space allowed or not (NumberStyles.Integer
   * or NumberStyles.None) and a leading sign allowed or not; none when the
   * text is not in that format. Range checks are the caller's.
   */
  function ParseIntegerText(s: string, allowWhite: bool, allowSign: bool): (r: Option<int>)
  {
    var a := if allowWhite then SkipNumberWhite(s, 0) else 0;
    var signed := allowSign && a < |s| && (s[a] == '+' || s[a] == '-');
    var b := if signed then a + 1 else a;
    var c := DigitsEnd(s, b);
    var d := if allowWhite then SkipNumberWhite(s, c) else c;
    if c == b || !TrailingNulls(s, d) then None
    else
      var magnitude := DigitsValue(s[b..c]);
      var value: int := if signed && s[a] == '-' then -(magnitude as int) else magnitude;
      Some(value)
  }

  /** Text that is only digits is read as their value, under every style. */
  lemma ParseDigits(s: string, allowWhite: bool, allowSign: bool)
    requires |s| >= 1 && forall k :: 0 <= k < |s| ==> IsAsciiDigit(s[k])
    ensures ParseIntegerText(s, allowWhite, allowSign) == Some(DigitsValue(s))
  {
    assert SkipNumberWhite(s, 0) == 0 by { assert !IsNumberWhite(s[0]); }
    DigitsRunToEnd(s, 0);
    assert s[0..|s|] == s;
  }

  lemma {:induction false} DigitsRunToEnd(s: string, i: nat)
    requires i <= |s| && forall k :: i <= k < |s| ==> IsAsciiDigit(s[k])
    ensures DigitsEnd(s, i) == |s|
    decreases |s| - i
  {
    if i < |s| {
      DigitsRunToEnd(s, i + 1);
    }
  }

  /** Round trip: reading back the invariant-culture text of an integer gives the integer. */
  lemma ParseIntegerTextOfIntegerText(n: int, allowWhite: bool)
    ensures ParseIntegerText(IntegerText(n), allowWhite, true) == Some(n)
    ensures n >= 0 ==> ParseIntegerText(IntegerText(n), allowWhite, false) == Some(n)
  {
    if n >= 0 {
      ParseDigits(NatToDigits(n), allowWhite, true);
      ParseDigits(NatToDigits(n), allowWhite, false);
    } else {
      var s := IntegerText(n);
      var digits := NatToDigits(-n);
      assert s[1..] == digits;
      assert SkipNumberWhite(s, 0) == 0 by { assert !IsNumberWhite(s[0]); }
      DigitsRunToEnd(s, 1);
      assert s[1..|s|] == digits;
    }
  }

  /** Without the sign style a sign makes the text unreadable. */
  lemma SignNeedsSignStyle(s: string, allowWhite: bool)
    requires |s| >= 1 && (s[0] == '-' || s[0] == '+')
    ensures ParseIntegerText(s, allowWhite, false).None?
  {
    assert allowWhite ==> SkipNumberWhite(s, 0) == 0 by {
      if allowWhite { assert !IsNumberWhite(s[0]); }
    }
  }

  // ---------------------------------------------------------------------------
  // Integer literals

  /**
   * The first half of ParseIntegerLiteral: the token text read as an
   * unsigned 64-bit number, or as a signed 64-bit number when it starts
   * with '-' (the parser glues a preceding minus onto the literal). An
   * unreadable or out-of-range literal is an error at the token.
   */
  function IntegerLiteralValue(text: string, pos: int): (r: Result<int>)
    ensures r.Ok? ==> |text| >= 1
    ensures r.Ok? && text[0] == '-' ==> InRange(r.value, Int64)
    ensures r.Ok? && text[0] != '-' ==> InRange(r.value, UInt64)
    ensures r.Err? ==> r.error == (if text == [] then IndexOutOfRange else ParseError(pos, InvalidIntegerLiteral))
  {
    if text == [] then Err(IndexOutOfRange)
    else if text[0] != '-' then
      match ParseIntegerText(text, false, false)
        case Some(n) => if InRange(n, UInt64) then Ok(n) else Err(ParseError(pos, InvalidIntegerLiteral))
        case None => Err(ParseError(pos, InvalidIntegerLiteral))
    else
      match ParseIntegerText(text, false, true)
        case Some(n) => if InRange(n, Int64) then Ok(n) else Err(ParseError(pos, InvalidIntegerLiteral))
        case None => Err(ParseError(pos, InvalidIntegerLiteral))
  }

  /** The unchecked conversion (long)n of an unsigned 64-bit value. */
  function ToInt64Unchecked(n: int): (r: int)
    requires InRange(n, UInt64)
    ensures InRange(r, Int64)
    ensures (r - n) % 0x1_0000_0000_0000_0000 == 0
  {
    if n <= MaxValue(Int64) then n else n - 0x1_0000_0000_0000_0000
  }

  /**
   * The second half of ParseIntegerLiteral: the value and type of the
   * literal's constant, given whether the next token is the suffix L or l.
   * With the suffix the constant is a long; without it a non-negative
   * literal takes the first of int, uint, long and ulong that holds it, and
   * a negative one int or long.
   */
  function IntegerLiteralConstant(negative: bool, n: int, longSuffix: bool): (r: (int, ClrType))
    requires negative ==> InRange(n, Int64)
    requires !negative ==> InRange(n, UInt64)
    ensures IsIntegral(r.1) && InRange(r.0, r.1)
    ensures longSuffix ==> r.1 == Int64 && (r.0 - n) % 0x1_0000_0000_0000_0000 == 0
    ensures !longSuffix ==> r.0 == n
    ensures !longSuffix && negative ==> (r.1 == Int32 <==> InRange(n, Int32)) && (r.1 == Int64 <==> !InRange(n, Int32))
    ensures !longSuffix && !negative ==>
      && (r.1 == Int32 <==> InRange(n, Int32))
      && (r.1 == UInt32 <==> !InRange(n, Int32) && InRange(n, UInt32))
      && (r.1 == Int64 <==> !InRange(n, UInt32) && InRange(n, Int64))
      && (r.1 == UInt64 <==> !InRange(n, Int64))
  {
    if longSuffix then
      (if negative then (n, Int64) else (ToInt64Unchecked(n), Int64))
    else if negative then
      (if n >= MinValue(Int32) && n <= MaxValue(Int32) then (n, Int32) else (n, Int64))
    else if n <= 0x7FFF_FFFF then (n, Int32)
    else if n <= 0xFFFF_FFFF then (n, UInt32)
    else if n <= 0x7FFF_FFFF_FFFF_FFFF then (n, Int64)
    else (n, UInt64)
  }

  /** The literal's type holds its value, and no earlier type of the order int, uint, long, ulong does. */
  lemma LiteralTypeIsSmallest(n: int)
    requires InRange(n, UInt64)
    ensures var t := IntegerLiteralConstant(false, n, false).1;
      var order := [Int32, UInt32, Int64, UInt64];
      exists k :: 0 <= k < 4 && order[k] == t && InRange(n, t) && forall j :: 0 <= j < k ==> !InRange(n, order[j])
  {
    var t := IntegerLiteralConstant(false, n, false).1;
    var order := [Int32, UInt32, Int64, UInt64];
    if t == Int32 { assert order[0] == t; }
    else if t == UInt32 { assert order[1] == t; }
    else if t == Int64 { assert order[2] == t; }
    else { assert order[3] == t; }
  }

  /** Round trip: the text of a 64-bit value is a literal of that value. */
  lemma IntegerLiteralOfIntegerText(n: int, pos: int)
    requires (n >= 0 && InRange(n, UInt64)) || (n < 0 && InRange(n, Int64))
    ensures IntegerLiteralValue(IntegerText(n), pos) == Ok(n)
  {
    ParseIntegerTextOfIntegerText(n, false);
  }

  /** 2147483648 is a uint, 4294967296 a long, and 5L a long. */
  lemma IntegerLiteralExamples()
    ensures IntegerLiteralConstant(false, 0x8000_0000, false) == (0x8000_0000, UInt32)
    ensures IntegerLiteralConstant(false, 0x1_0000_0000, false) == (0x1_0000_0000, Int64)
    ensures IntegerLiteralConstant(false, 5, true) == (5, Int64)
    ensures IntegerLiteralConstant(true, -5, false) == (-5, Int32)
  {
  }

  // ---------------------------------------------------------------------------
  // ParseNumber: reading a literal's text as a value of another numeric type

  /** Whether a type code is of an integral type, and that type. */
  function IntegralOfCode(code: TypeCode): (r: Option<ClrType>)
    ensures r.Some? ==> IsIntegral(r.value) && GetTypeCode(r.value) == code
  {
    match code
      case SByteCode => Some(SByte)
      case ByteCode => Some(Byte)
      case Int16Code => Some(Int16)
      case UInt16Code => Some(UInt16)
      case Int32Code => Some(Int32)
      case UInt32Code => Some(UInt32)
      case Int64Code => Some(Int64)
      case UInt64Code => Some(UInt64)
      case _ => None
  }

  predicate IsSigned(t: ClrType)
  {
    t.SByte? || t.Int16? || t.Int32? || t.Int64?
  }

  /**
   * ParseNumber: the literal text read as a value of the type (or of T for
   * Nullable<T>), keyed by its type code: integral types through the
   * integer parser, with a sign allowed exactly for the signed ones, and
   * floating-point and decimal types through the runtime. Any other type,
   * or text that does not fit, gives none.
   */
  function ParseNumber(rt: Runtime, text: string, t: ClrType): (r: Option<Value>)
    ensures r.Some? && IntegralOfCode(GetTypeCode(GetNonNullableType(t))).Some? ==>
      var u := IntegralOfCode(GetTypeCode(GetNonNullableType(t))).value;
      r.value.IntegerValue? && InRange(r.value.n, u)
    ensures r.Some? && IntegralOfCode(GetTypeCode(GetNonNullableType(t))).None? ==>
      r.value == HostValue(text) && GetTypeCode(GetNonNullableType(t)) in {SingleCode, DoubleCode, DecimalCode}
  {
    var code := GetTypeCode(GetNonNullableType(t));
    match IntegralOfCode(code)
      case Some(u) =>
        (match ParseIntegerText(text, false, IsSigned(u))
           case Some(n) => if InRange(n, u) then Some(IntegerValue(n)) else None
           case None => None)
      case None =>
        var host := match code
          case SingleCode => Some(Single)
          case DoubleCode => Some(Double)
          case DecimalCode => Some(Decimal)
          case _ => None;
        if host.Some? && rt.parseNumber(host.value, text) then Some(HostValue(text)) else None
  }

  /** Round trip: the text of a value of an integral type parses back to that value, for the type and for its nullable. */
  lemma ParseNumberOfIntegerText(rt: Runtime, n: int, t: ClrType)
    requires IsIntegral(t) && InRange(n, t)
    ensures ParseNumber(rt, IntegerText(n), t) == Some(IntegerValue(n))
    ensures ParseNumber(rt, IntegerText(n), Nullable(t)) == Some(IntegerValue(n))
  {
    ParseIntegerTextOfIntegerText(n, false);
    IntegralCodeRoundTrip(t);
    assert !IsSigned(t) ==> n >= 0;
    ParseIntegralNumber(rt, IntegerText(n), t, n);
    ParseIntegralNumber(rt, IntegerText(n), Nullable(t), n);
  }

  /** An integral type, and its nullable, are keyed by that type's own code. */
  lemma IntegralCodeRoundTrip(t: ClrType)
    requires IsIntegral(t)
    ensures IntegralOfCode(GetTypeCode(GetNonNullableType(t))) == Some(t)
    ensures IntegralOfCode(GetTypeCode(GetNonNullableType(Nullable(t)))) == Some(t)
  {
  }

  /** For a type keyed as integral type u, text the integer parser reads as n in range of u is n. */
  lemma ParseIntegralNumber(rt: Runtime, text: string, t: ClrType, n: int)
    requires IsIntegral(GetNonNullableType(t))
    requires IntegralOfCode(GetTypeCode(GetNonNullableType(t))) == Some(GetNonNullableType(t))
    requires ParseIntegerText(text, false, IsSigned(GetNonNullableType(t))) == Some(n)
    requires InRange(n, GetNonNullableType(t))
    ensures ParseNumber(rt, text, t) == Some(IntegerValue(n))
  {
  }

  /** Types that are not numeric read nothing. */
  lemma ParseNumberOfNonNumeric(rt: Runtime, text: string)
    ensures ParseNumber(rt, text, String).None? && ParseNumber(rt, text, Boolean).None?
    ensures ParseNumber(rt, text, DateTime).None? && ParseNumber(rt, text, Char).None?
  {
  }

  // ---------------------------------------------------------------------------
  // Real literals

  /**
   * ParseRealLiteral: a trailing F, M or D (either case) picks float,
   * decimal or double and is dropped before parsing; otherwise the whole
   * text is a double. Text the runtime cannot read is an error at the token.
   */
  function RealLiteral(rt: Runtime, text: string, pos: int): (r: Result<(Value, ClrType)>)
    ensures r.Ok? ==> r.value.1 in {Single, Double, Decimal} && r.value.0.HostValue?
    ensures r.Err? ==> r.error == (if text == [] then IndexOutOfRange else ParseError(pos, InvalidRealLiteral))
    ensures r.Ok? && text != [] && text[|text| - 1] in "FfMmDd" ==> r.value.0 == HostValue(text[..|text| - 1])
    ensures r.Ok? && text != [] && text[|text| - 1] !in "FfMmDd" ==> r.value == (HostValue(text), Double)
  {
    if text == [] then Err(IndexOutOfRange)
    else
      var last := text[|text| - 1];
      var prefix := text[..|text| - 1];
      var (t, body) :=
        if last == 'F' || last == 'f' then (Single, prefix)
        else if last == 'M' || last == 'm' then (Decimal, prefix)
        else if last == 'D' || last == 'd' then (Double, prefix)
        else (Double, text);
      if rt.parseReal(t, body) then Ok((HostValue(body), t)) else Err(ParseError(pos, InvalidRealLiteral))
  }

  // ---------------------------------------------------------------------------
  // Binary literals: pairs of hex digits

  predicate IsHexDigit(c: char)
  {
    IsAsciiDigit(c) || ('a' <= c <= 'f') || ('A' <= c <= 'F')
  }

  function HexDigitValue(c: char): (r: nat)
    requires IsHexDigit(c)
    ensures r < 16
  {
    if IsAsciiDigit(c) then c as int - '0' as int
    else if 'a' <= c <= 'f' then c as int - 'a' as int + 10
    else c as int - 'A' as int + 10
  }

  /** The hex digit of a value below 16, in upper case. */
  function HexDigitOf(v: nat): (r: char)
    requires v < 16
    ensures IsHexDigit(r) && HexDigitValue(r) == v
  {
    if v < 10 then ('0' as int + v) as char else ('A' as int + v - 10) as char
  }

  /**
   * Byte.Parse(pair, NumberStyles.HexNumber) on two characters: hex digits
   * with leading and trailing number white space allowed, and trailing
   * '\0' accepted; none for anything else.
   */
  function HexPair(a: char, b: char): (r: Option<int>)
    ensures r.Some? ==> 0 <= r.value < 256
    ensures IsHexDigit(a) && IsHexDigit(b) ==> r == Some(16 * HexDigitValue(a) + HexDigitValue(b))
    ensures !IsHexDigit(a) && !IsHexDigit(b) ==> r.None?
  {
    if IsHexDigit(a) && IsHexDigit(b) then Some(16 * HexDigitValue(a) + HexDigitValue(b))
    else if IsHexDigit(a) && (IsNumberWhite(b) || b == '\0') then Some(HexDigitValue(a))
    else if IsNumberWhite(a) && IsHexDigit(b) then Some(HexDigitValue(b))
    else None
  }

  /**
   * The bytes of a binary literal's text, two characters per byte. Odd
   * length is InvalidHexLiteral and a pair that is not hex is a format
   * error, both at the given offset (the string literal's).
   */
  function BinaryLiteral(s: string, pos: int): (r: Result<seq<int>>)
    ensures r.Ok? ==> |s| % 2 == 0 && |r.value| == |s| / 2
    ensures r.Ok? ==> forall k :: 0 <= k < |r.value| ==> HexPair(s[2 * k], s[2 * k + 1]) == Some(r.value[k])
    ensures |s| % 2 != 0 ==> r == Err(ParseError(pos, InvalidHexLiteral))
    ensures |s| % 2 == 0 && r.Err? ==>
      r.error == ParseError(pos, TypeValueFormat) && exists k :: 0 <= k < |s| / 2 && HexPair(s[2 * k], s[2 * k + 1]).None?
  {
    if |s| % 2 != 0 then Err(ParseError(pos, InvalidHexLiteral)) else HexPairs(s, pos)
  }

  function HexPairs(s: string, pos: int): (r: Result<seq<int>>)
    requires |s| % 2 == 0
    ensures r.Ok? ==> |r.value| == |s| / 2
    ensures r.Ok? ==> forall k :: 0 <= k < |r.value| ==> HexPair(s[2 * k], s[2 * k + 1]) == Some(r.value[k])
    ensures r.Err? ==>
      r.error == ParseError(pos, TypeValueFormat) && exists k :: 0 <= k < |s| / 2 && HexPair(s[2 * k], s[2 * k + 1]).None?
    decreases |s|
  {
    if s == [] then Ok([])
    else
      match HexPair(s[0], s[1])
        case None =>
          assert HexPair(s[2 * 0], s[2 * 0 + 1]).None?;
          Err(ParseError(pos, TypeValueFormat))
        case Some(b) =>
          var rest := HexPairs(s[2..], pos);
          if rest.Err? then
            var k :| 0 <= k < |s[2..]| / 2 && HexPair(s[2..][2 * k], s[2..][2 * k + 1]).None?;
            assert HexPair(s[2 * (k + 1)], s[2 * (k + 1) + 1]).None?;
            Err(ParseError(pos, TypeValueFormat))
          else
            var r := [b] + rest.value;
            HexPairsShift(s, rest.value);
            assert HexPair(s[2 * 0], s[2 * 0 + 1]) == Some(r[0]);
            Ok(r)
  }

  /** The pairs of s after its first pair are the pairs of s[2..], one index further on. */
  lemma HexPairsShift(s: string, tail: seq<int>)
    requires |s| >= 2 && |tail| == (|s| - 2) / 2
    requires forall k :: 0 <= k < |tail| ==> HexPair(s[2..][2 * k], s[2..][2 * k + 1]) == Some(tail[k])
    ensures forall k :: 1 <= k <= |tail| ==> HexPair(s[2 * k], s[2 * k + 1]) == Some(tail[k - 1])
  {
    forall k | 1 <= k <= |tail|
      ensures HexPair(s[2 * k], s[2 * k + 1]) == Some(tail[k - 1])
    {
      assert s[2..][2 * (k - 1)] == s[2 * k] && s[2..][2 * (k - 1) + 1] == s[2 * k + 1];
    }
  }

  /** The upper-case hex text of a byte sequence. */
  function HexText(bytes: seq<int>): (r: string)
    requires forall k :: 0 <= k < |bytes| ==> 0 <= bytes[k] < 256
    ensures |r| == 2 * |bytes|
  {
    if bytes == [] then []
    else [HexDigitOf(bytes[0] / 16), HexDigitOf(bytes[0] % 16)] + HexText(bytes[1..])
  }

  /** Round trip: the hex text of bytes reads back as those bytes. */
  lemma {:induction false} BinaryLiteralOfHexText(bytes: seq<int>, pos: int)
    requires forall k :: 0 <= k < |bytes| ==> 0 <= bytes[k] < 256
    ensures HexPairs(HexText(bytes), pos) == Ok(bytes)
    ensures BinaryLiteral(HexText(bytes), pos) == Ok(bytes)
  {
    if bytes != [] {
      var s := HexText(bytes);
      assert s[2..] == HexText(bytes[1..]);
      BinaryLiteralOfHexText(bytes[1..], pos);
      assert [bytes[0]] + bytes[1..] == bytes;
    }
  }

  // ---------------------------------------------------------------------------
  // Convert.ToInt32(string, InvariantCulture), used by the skip and top options

  /**
   * Convert.ToInt32 of a possibly null string: null is 0; otherwise the
   * text is read with white space and a sign allowed; text in another
   * format is a FormatException and a number outside int an OverflowException.
   */
  function ConvertToInt32(s: Option<string>): (r: Result<int>)
    ensures s.None? ==> r == Ok(0)
    ensures r.Ok? ==> InRange(r.value, Int32)
    ensures r.Err? ==> r.error == Format || r.error == Overflow
    ensures s.Some? ==> (r.Ok? || r.error == Overflow <==> ParseIntegerText(s.value, true, true).Some?)
  {
    match s
      case None => Ok(0)
      case Some(text) =>
        match ParseIntegerText(text, true, true)
          case None => Err(Format)
          case Some(n) => if InRange(n, Int32) then Ok(n) else Err(Overflow)
  }

  /** Round trip: the text of an int converts back to it, and a larger number overflows. */
  lemma ConvertToInt32OfIntegerText(n: int)
    ensures InRange(n, Int32) ==> ConvertToInt32(Some(IntegerText(n))) == Ok(n)
    ensures !InRange(n, Int32) ==> ConvertToInt32(Some(IntegerText(n))) == Err(Overflow)
  {
    ParseIntegerTextOfIntegerText(n, true);
  }
}
