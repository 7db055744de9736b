/**
 * The scanner half of the expression parser as the object it is: the
 * text, the scanning offset textPos, the current character ch and the
 * current token, advanced in place by NextChar and NextToken. Each method
 * is proved to do what the scanning functions of QueryLexer describe, so
 * the grammar, which reads tokens through those functions, sees the
 * tokens this object produces.
 */
module ExpressionScanner {
  import opened Common
  import opened QueryLexer

  class ExpressionParser {
    const text: string
    const cc: CharClasses
    var textPos: nat
    var ch: char
    var token: Token

    /** The current character is the one at textPos, or '\0' at the end of the text. */
    ghost predicate Valid()
      reads this
    {
      textPos <= |text| && ch == CharAt(text, textPos)
    }

    /** The scanner part of the constructor: the text, offset 0 and no token yet. */
    constructor(expression: string, classes: CharClasses)
      ensures text == expression && cc == classes
      ensures Valid() && textPos == 0 && token == Token(Unknown, "", 0)
    {
      text := expression;
      cc := classes;
      textPos := 0;
      ch := CharAt(expression, 0);
      token := Token(Unknown, "", 0);
    }

    /** SetTextPos: move to an offset and load its character. */
    method SetTextPos(pos: nat)
      requires pos <= |text|
      modifies this
      ensures Valid() && textPos == pos && token == old(token)
    {
      textPos := pos;
      ch := if textPos < |text| then text[textPos] else '\0';
    }

    /** NextChar: one character on, staying at the end once there. */
    method NextChar()
      requires Valid()
      modifies this
      ensures Valid() && textPos == Advance(text, old(textPos)) && token == old(token)
    {
      if textPos < |text| {
        textPos := textPos + 1;
      }
      ch := if textPos < |text| then text[textPos] else '\0';
    }

    /** The white-space loop at the head of NextToken. */
    method SkipWhiteSpaces()
      requires Valid()
      modifies this
      ensures Valid() && textPos == SkipWhiteSpace(text, old(textPos)) && token == old(token)
    {
      while IsWhiteSpace(ch)
        invariant Valid() && token == old(token)
        invariant SkipWhiteSpace(text, textPos) == SkipWhiteSpace(text, old(textPos))
        decreases |text| - textPos
      {
        NextChar();
      }
    }

    /** A loop that steps over the characters of a class that does not hold '\0'. */
    method SkipClass(inClass: char -> bool)
      requires Valid() && !inClass('\0')
      modifies this
      ensures Valid() && textPos == SkipWhile(text, old(textPos), inClass) && token == old(token)
    {
      while inClass(ch)
        invariant Valid() && token == old(token)
        invariant SkipWhile(text, textPos, inClass) == SkipWhile(text, old(textPos), inClass)
        decreases |text| - textPos
      {
        NextChar();
      }
    }

    /** ValidateDigit, then the do-while loop over the digits after that digit. */
    method ScanDigits() returns (err: Option<Exception>)
      requires Valid()
      modifies this
      ensures Valid() && token == old(token)
      ensures var d := DigitRun(cc, text, old(textPos));
        && (d.Ok? ==> err.None? && textPos == d.value)
        && (d.Err? ==> err == Some(d.error))
    {
      if !IsDigit(cc, ch) {
        return Some(ParseError(textPos, DigitExpected));
      }
      NextChar();
      SkipClass(DigitClass(cc));
      err := None;
    }

    /** The fraction branch of a numeric literal, from its '.'. */
    method ScanFraction() returns (r: Result<TokenId>)
      requires Valid() && textPos < |text|
      modifies this
      ensures Valid() && token == old(token)
      ensures var s := FractionPart(cc, text, old(textPos));
        && (s.Ok? ==> r == Ok(s.value.id) && textPos == s.value.end)
        && (s.Err? ==> r == Err(s.error))
    {
      NextChar();
      var err := ScanDigits();
      r := if err.Some? then Err(err.value) else Ok(RealLiteral);
    }

    /** The exponent branch of a numeric literal, from its 'E' or 'e'. */
    method ScanExponent() returns (r: Result<TokenId>)
      requires Valid() && textPos < |text|
      modifies this
      ensures Valid() && token == old(token)
      ensures var s := ExponentPart(cc, text, old(textPos));
        && (s.Ok? ==> r == Ok(s.value.id) && textPos == s.value.end)
        && (s.Err? ==> r == Err(s.error))
    {
      NextChar();
      if ch == '+' || ch == '-' {
        NextChar();
      }
      var err := ScanDigits();
      r := if err.Some? then Err(err.value) else Ok(RealLiteral);
    }

    /** The numeric-literal branch of NextToken, from its first digit. */
    method ScanNumberHere() returns (r: Result<TokenId>)
      requires Valid() && textPos < |text| && IsDigit(cc, ch)
      modifies this
      ensures Valid() && token == old(token)
      ensures var s := ScanNumber(cc, text, old(textPos));
        && (s.Ok? ==> r == Ok(s.value.id) && textPos == s.value.end)
        && (s.Err? ==> r == Err(s.error))
    {
      ghost var start := textPos;
      NextChar();
      SkipClass(DigitClass(cc));
      ghost var digits := Scan(IntegerLiteral, textPos);
      var id := IntegerLiteral;
      if ch == '.' {
        var f := ScanFraction();
        if f.Err? {
          return f;
        }
        id := f.value;
      }
      ghost var fraction := Scan(id, textPos);
      assert (if CharAt(text, digits.end) == '.' then FractionPart(cc, text, digits.end) else Ok(digits)) == Ok(fraction);
      if ch == 'E' || ch == 'e' {
        var e := ScanExponent();
        if e.Err? {
          return e;
        }
        id := e.value;
      }
      ghost var exponent := Scan(id, textPos);
      assert (if CharAt(text, fraction.end) == 'E' || CharAt(text, fraction.end) == 'e'
              then ExponentPart(cc, text, fraction.end) else Ok(fraction)) == Ok(exponent);
      if ch in "FfMmDd" {
        id := RealLiteral;
        NextChar();
      }
      r := Ok(id);
    }

    /** The inner loop of a quoted literal: up to the quote q or the end, a backslash skipping the next character. */
    method ScanQuoteBody(q: char)
      requires Valid()
      modifies this
      ensures Valid() && textPos == QuoteBodyEnd(text, old(textPos), q) && token == old(token)
    {
      while textPos < |text| && ch != q
        invariant Valid() && token == old(token)
        invariant QuoteBodyEnd(text, textPos, q) == QuoteBodyEnd(text, old(textPos), q)
        decreases |text| - textPos
      {
        if ch == '\\' {
          NextChar();
        }
        NextChar();
      }
    }

    /** The quoted-literal branch of NextToken, from its opening quote. */
    method ScanQuoted() returns (err: Option<Exception>)
      requires Valid() && textPos < |text| && (ch == '"' || ch == '\'')
      modifies this
      ensures Valid() && token == old(token)
      ensures var e := QuotedLiteralEnd(text, old(textPos), old(ch));
        && (e.Ok? ==> err.None? && textPos == e.value)
        && (e.Err? ==> err == Some(e.error))
    {
      var q := ch;
      while true
        invariant Valid() && token == old(token)
        invariant textPos < |text| && text[textPos] == q
        invariant QuotedLiteralEnd(text, textPos, q) == QuotedLiteralEnd(text, old(textPos), q)
        decreases |text| - textPos
      {
        NextChar();
        ScanQuoteBody(q);
        if textPos == |text| {
          return Some(ParseError(textPos, UnterminatedStringLiteral));
        }
        NextChar();
        if ch != q {
          return None;
        }
      }
    }

    /** The switch of NextToken: the kind of the token at the current offset and the offset after it. */
    method ScanHere() returns (r: Result<TokenId>)
      requires Valid()
      modifies this
      ensures Valid() && token == old(token)
      ensures var s := ScanFrom(cc, text, old(textPos));
        && (s.Ok? ==> r == Ok(s.value.id) && textPos == s.value.end)
        && (s.Err? ==> r == Err(s.error))
    {
      var c := ch;
      if c == '[' || c == ']' || c == '?' || c == '%' || c == '(' || c == ')' || c == ',' || c == '-' || c == '/' || c == ':' {
        NextChar();
        r := Ok(match c
          case '[' => OpenBracket
          case ']' => CloseBracket
          case '?' => Question
          case '%' => Percent
          case '(' => OpenParen
          case ')' => CloseParen
          case ',' => Comma
          case '-' => Minus
          case '/' => Dot
          case _ => Colon);
      } else if c == '|' || c == '&' {
        NextChar();
        if ch == c {
          NextChar();
          r := Ok(if c == '|' then DoubleBar else DoubleAmphersand);
        } else {
          r := Ok(if c == '|' then Bar else Amphersand);
        }
      } else if c == '"' || c == '\'' {
        var err := ScanQuoted();
        r := if err.Some? then Err(err.value) else Ok(StringLiteral);
      } else if IsIdentifierStart(cc, c) || c == '@' || c == '_' {
        NextChar();
        SkipClass(IdentifierPartClass(cc));
        r := Ok(Identifier);
      } else if IsDigit(cc, c) {
        r := ScanNumberHere();
      } else if textPos != |text| {
        r := Err(ParseError(textPos, InvalidCharacter(c)));
      } else {
        r := Ok(End);
      }
    }

    /**
     * NextToken: skip white space, scan one token and make it the current
     * token, its text taken from the source and reclassified; the token
     * and the new offset are those of ScanToken, and a scanning error is
     * ScanToken's error.
     */
    method NextToken() returns (err: Option<Exception>)
      requires Valid()
      modifies this
      ensures Valid()
      ensures var s := ScanToken(cc, text, old(textPos));
        && (s.Ok? ==> err.None? && token == s.value.0 && textPos == s.value.1)
        && (s.Err? ==> err == Some(s.error))
    {
      SkipWhiteSpaces();
      var start := textPos;
      var id := ScanHere();
      if id.Err? {
        return Some(id.error);
      }
      var raw := Token(id.value, text[start..textPos], start);
      token := Token(ReclassifyToken(raw), raw.text, start);
      err := None;
    }
  }
}
