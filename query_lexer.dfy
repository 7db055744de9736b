/**
 * The tokenizer of the query expression language ($filter and $orderby
 * text), stated as a function from the text and a scanning offset to the
 * next token and the offset after it. The expression parser's scanner
 * (ExpressionParser.NextToken) is proved to compute exactly this.
 *
 * Operators are words: the only symbols the scanner knows are brackets,
 * parentheses, comma, minus, colon, question mark, '|', '&', '%', and '/',
 * which is the member-access separator of the URL syntax. Comparison and
 * arithmetic operators are identifiers reclassified afterwards by a
 * case-sensitive table.
 */
module QueryLexer {
  import opened Common

  /** The token kinds, in the declaration order of the source enumeration. */
  datatype TokenId =
    | Unknown | End | Identifier | StringLiteral | IntegerLiteral | RealLiteral
    | Exclamation | Percent | Amphersand | OpenParen | CloseParen | Asterisk | Plus | Comma | Minus | Dot
    | Slash | Colon | LessThan | Equal | GreaterThan | Question | OpenBracket | CloseBracket | Bar
    | ExclamationEqual | DoubleAmphersand | LessThanEqual | LessGreater | DoubleEqual | GreaterThanEqual | DoubleBar

  /** A token: its kind, its text and the offset where it starts. */
  datatype Token = Token(id: TokenId, text: string, pos: int)

  /**
   * The Unicode character classes the scanner asks about, for characters
   * outside ASCII: letters and letter numbers (identifier starts), the
   * identifier-part categories, and decimal digits. ASCII characters are
   * classified below and do not consult these.
   */
  datatype CharClasses = CharClasses(letter: char -> bool, identifierPart: char -> bool, digit: char -> bool)

  predicate IsAsciiLetter(c: char)
  {
    ('a' <= c <= 'z') || ('A' <= c <= 'Z')
  }

  predicate IsAsciiDigit(c: char)
  {
    '0' <= c <= '9'
  }

  /** IsIdentifierStart: the categories Lu, Ll, Lt, Lm, Lo and Nl; in ASCII, the letters. */
  predicate IsIdentifierStart(cc: CharClasses, c: char)
  {
    if c < '\U{80}' then IsAsciiLetter(c) else cc.letter(c)
  }

  /** IsIdentifierPart: letters, marks, digits, letter numbers, format characters and connectors; in ASCII, letters, digits and '_'. */
  predicate IsIdentifierPart(cc: CharClasses, c: char)
  {
    if c < '\U{80}' then IsAsciiLetter(c) || IsAsciiDigit(c) || c == '_' else cc.identifierPart(c)
  }

  /** char.IsDigit: the category Nd; in ASCII, '0' to '9'. */
  predicate IsDigit(cc: CharClasses, c: char)
  {
    if c < '\U{80}' then IsAsciiDigit(c) else cc.digit(c)
  }

  /** The words that are operators, and the token each becomes. */
  function OperatorWord(text: string): Option<TokenId>
  {
    if text == "add" then Some(Plus)
    else if text == "and" then Some(DoubleAmphersand)
    else if text == "div" then Some(Slash)
    else if text == "sub" then Some(Minus)
    else if text == "mul" then Some(Asterisk)
    else if text == "mod" then Some(Percent)
    else if text == "ne" then Some(ExclamationEqual)
    else if text == "not" then Some(Exclamation)
    else if text == "le" then Some(LessThanEqual)
    else if text == "lt" then Some(LessThan)
    else if text == "eq" then Some(DoubleEqual)
    else if text == "ge" then Some(GreaterThanEqual)
    else if text == "gt" then Some(GreaterThan)
    else None
  }

  /**
   * ReclassifyToken: an identifier spelled exactly as an operator word
   * becomes that operator; every other token keeps its kind.
   */
  function ReclassifyToken(t: Token): (r: TokenId)
    ensures r != t.id ==> t.id == Identifier && OperatorWord(t.text).Some? && r == OperatorWord(t.text).value
    ensures t.id == Identifier && OperatorWord(t.text).Some? ==> r == OperatorWord(t.text).value && r != Identifier
    ensures r == Identifier <==> t.id == Identifier && OperatorWord(t.text).None?
  {
    if t.id == Identifier && OperatorWord(t.text).Some? then OperatorWord(t.text).value else t.id
  }

  /**
   * The table is case-sensitive and has no entry for "or": "or", "AND"
   * and "Eq" stay identifiers (the logical parsers still accept "or" and
   * "AND" by comparing identifiers ignoring case), while "and" and "eq"
   * become operators.
   */
  lemma ReclassificationIsCaseSensitive(pos: int)
    ensures ReclassifyToken(Token(Identifier, "or", pos)) == Identifier
    ensures ReclassifyToken(Token(Identifier, "AND", pos)) == Identifier
    ensures ReclassifyToken(Token(Identifier, "Eq", pos)) == Identifier
    ensures ReclassifyToken(Token(Identifier, "and", pos)) == DoubleAmphersand
    ensures ReclassifyToken(Token(Identifier, "eq", pos)) == DoubleEqual
    ensures ReclassifyToken(Token(StringLiteral, "eq", pos)) == StringLiteral
  {
  }

  /** The scanner's current character: the character at the offset, or '\0' at the end. */
  function CharAt(text: string, i: nat): char
  {
    if i < |text| then text[i] else '\0'
  }

  /** NextChar: one position on, never past the end. */
  function Advance(text: string, i: nat): (r: nat)
    ensures r == if i < |text| then i + 1 else i
  {
    if i < |text| then i + 1 else i
  }

  /** The first offset from i that is not white space ('\0' at the end is not). */
  function SkipWhiteSpace(text: string, i: nat): (r: nat)
    requires i <= |text|
    ensures i <= r <= |text| && !IsWhiteSpace(CharAt(text, r))
    ensures forall k :: i <= k < r ==> IsWhiteSpace(text[k])
    decreases |text| - i
  {
    if IsWhiteSpace(CharAt(text, i)) then SkipWhiteSpace(text, i + 1) else i
  }

  /** The first offset from i whose character is outside a class that does not hold '\0'. */
  function SkipWhile(text: string, i: nat, inClass: char -> bool): (r: nat)
    requires i <= |text| && !inClass('\0')
    ensures i <= r <= |text| && !inClass(CharAt(text, r))
    ensures forall k :: i <= k < r ==> inClass(text[k])
    decreases |text| - i
  {
    if inClass(CharAt(text, i)) then SkipWhile(text, i + 1, inClass) else i
  }

  /**
   * The inner loop of a quoted literal: from i up to the next quote
   * character q or the end of the text; a backslash makes the scanner
   * step over the character after it.
   */
  function QuoteBodyEnd(text: string, i: nat, q: char): (r: nat)
    requires i <= |text|
    ensures i <= r <= |text|
    ensures r < |text| ==> text[r] == q
    decreases |text| - i
  {
    if i < |text| && text[i] != q then
      QuoteBodyEnd(text, if text[i] == '\\' then Advance(text, i + 1) else i + 1, q)
    else i
  }

  /**
   * The end of a quoted literal whose opening quote q is at i: the body up
   * to the next q, and again while that q is followed by another q (a
   * doubled quote continues the literal). Reaching the end of the text
   * first is an error at the end of the text.
   */
  function QuotedLiteralEnd(text: string, i: nat, q: char): (r: Result<nat>)
    requires i < |text| && q != '\0'
    ensures r.Ok? ==> i + 2 <= r.value <= |text| && text[r.value - 1] == q && CharAt(text, r.value) != q
    ensures r.Err? ==> r.error == ParseError(|text|, UnterminatedStringLiteral)
    decreases |text| - i
  {
    var e := QuoteBodyEnd(text, i + 1, q);
    if e == |text| then Err(ParseError(|text|, UnterminatedStringLiteral))
    else if CharAt(text, e + 1) == q then QuotedLiteralEnd(text, e + 1, q)
    else Ok(e + 1)
  }

  /** A token kind and the offset just after the token. */
  datatype Scan = Scan(id: TokenId, end: nat)

  /** The digit class of the scanner's number loops. */
  function DigitClass(cc: CharClasses): char -> bool
  {
    c => IsDigit(cc, c)
  }

  /** ValidateDigit at offset i, then the run of digits after that digit. */
  function DigitRun(cc: CharClasses, text: string, i: nat): (r: Result<nat>)
    requires i <= |text|
    ensures r.Ok? ==> i < r.value <= |text| && !IsDigit(cc, CharAt(text, r.value))
    ensures r.Err? ==> r.error == ParseError(i, DigitExpected)
  {
    if !IsDigit(cc, CharAt(text, i)) then Err(ParseError(i, DigitExpected))
    else Ok(SkipWhile(text, i + 1, DigitClass(cc)))
  }

  /** A '.' at offset dot and the digits after it make a real literal. */
  function FractionPart(cc: CharClasses, text: string, dot: nat): (r: Result<Scan>)
    requires dot < |text|
    ensures r.Ok? ==> r.value.id == RealLiteral && dot + 1 < r.value.end <= |text|
    ensures r.Err? ==> r.error == ParseError(dot + 1, DigitExpected)
  {
    var e :- DigitRun(cc, text, dot + 1);
    Ok(Scan(RealLiteral, e))
  }

  /** An 'E' or 'e' at offset e, an optional sign and digits make a real literal. */
  function ExponentPart(cc: CharClasses, text: string, e: nat): (r: Result<Scan>)
    requires e < |text|
    ensures r.Ok? ==> r.value.id == RealLiteral && e + 1 < r.value.end <= |text|
    ensures r.Err? ==> r.error.ParseError? && r.error.reason == DigitExpected && e + 1 <= r.error.pos <= |text|
  {
    var k := if CharAt(text, e + 1) == '+' || CharAt(text, e + 1) == '-' then e + 2 else e + 1;
    var d :- DigitRun(cc, text, k);
    Ok(Scan(RealLiteral, d))
  }

  /**
   * A numeric literal starting with a digit at start: digits, then an
   * optional fraction, an optional exponent and an optional F, M or D
   * suffix (either case); any of the last three makes it a real literal.
   */
  function ScanNumber(cc: CharClasses, text: string, start: nat): (r: Result<Scan>)
    requires start < |text| && IsDigit(cc, text[start])
    ensures r.Ok? ==> start < r.value.end <= |text| && (r.value.id == IntegerLiteral || r.value.id == RealLiteral)
    ensures r.Err? ==> r.error.ParseError? && r.error.reason == DigitExpected && start < r.error.pos <= |text|
  {
    var digits := Scan(IntegerLiteral, SkipWhile(text, start + 1, DigitClass(cc)));
    var fraction :- if CharAt(text, digits.end) == '.' then FractionPart(cc, text, digits.end) else Ok(digits);
    var exponent :- if CharAt(text, fraction.end) == 'E' || CharAt(text, fraction.end) == 'e'
                    then ExponentPart(cc, text, fraction.end) else Ok(fraction);
    if CharAt(text, exponent.end) in "FfMmDd" then Ok(Scan(RealLiteral, exponent.end + 1)) else Ok(exponent)
  }

  /** The kinds the scanner itself produces, before reclassification. */
  predicate IsScannedKind(id: TokenId)
  {
    id in {End, Identifier, StringLiteral, IntegerLiteral, RealLiteral, Percent, Amphersand, DoubleAmphersand,
           OpenParen, CloseParen, Comma, Minus, Dot, Colon, Question, OpenBracket, CloseBracket, Bar, DoubleBar}
  }

  /** The identifier-part class of the scanner's identifier loop. */
  function IdentifierPartClass(cc: CharClasses): char -> bool
  {
    c => IsIdentifierPart(cc, c) || c == '_'
  }

  /**
   * The token that starts at a non-white-space offset: End exactly at the
   * end of the text, an error for a character that starts no token.
   */
  function ScanFrom(cc: CharClasses, text: string, start: nat): (r: Result<Scan>)
    requires start <= |text|
    ensures r.Ok? ==> IsScannedKind(r.value.id) && start <= r.value.end <= |text|
    ensures r.Ok? ==> (r.value.id == End <==> start == |text|)
    ensures r.Ok? && start < |text| ==> start < r.value.end
    ensures start == |text| ==> r == Ok(Scan(End, start))
    ensures r.Err? ==> r.error.ParseError? && start <= r.error.pos <= |text|
  {
    var c := CharAt(text, start);
    if c == '[' then Ok(Scan(OpenBracket, start + 1))
    else if c == ']' then Ok(Scan(CloseBracket, start + 1))
    else if c == '|' then (if CharAt(text, start + 1) == '|' then Ok(Scan(DoubleBar, start + 2)) else Ok(Scan(Bar, start + 1)))
    else if c == '?' then Ok(Scan(Question, start + 1))
    else if c == '"' || c == '\'' then
      var e :- QuotedLiteralEnd(text, start, c);
      Ok(Scan(StringLiteral, e))
    else if c == '%' then Ok(Scan(Percent, start + 1))
    else if c == '&' then (if CharAt(text, start + 1) == '&' then Ok(Scan(DoubleAmphersand, start + 2)) else Ok(Scan(Amphersand, start + 1)))
    else if c == '(' then Ok(Scan(OpenParen, start + 1))
    else if c == ')' then Ok(Scan(CloseParen, start + 1))
    else if c == ',' then Ok(Scan(Comma, start + 1))
    else if c == '-' then Ok(Scan(Minus, start + 1))
    else if c == '/' then Ok(Scan(Dot, start + 1))
    else if c == ':' then Ok(Scan(Colon, start + 1))
    else if IsIdentifierStart(cc, c) || c == '@' || c == '_' then
      Ok(Scan(Identifier, SkipWhile(text, start + 1, IdentifierPartClass(cc))))
    else if IsDigit(cc, c) then ScanNumber(cc, text, start)
    else if start != |text| then Err(ParseError(start, InvalidCharacter(c)))
    else Ok(Scan(End, start))
  }

  /**
   * NextToken from a scanning offset: skip white space, scan one token,
   * take its text from the source and reclassify it. The token lies
   * between the offset and the returned end; End is returned exactly when
   * only white space remains, and every other token is non-empty.
   */
  function ScanToken(cc: CharClasses, text: string, pos: nat): (r: Result<(Token, nat)>)
    requires pos <= |text|
    ensures r.Ok? ==> pos <= r.value.0.pos <= r.value.1 <= |text| && r.value.0.text == text[r.value.0.pos..r.value.1]
    ensures r.Ok? && r.value.0.id != End ==> r.value.0.pos < r.value.1
    ensures r.Ok? && r.value.0.id == End ==> r.value.1 == |text| && r.value.0.text == []
    ensures r.Ok? && r.value.0.id == End <==> forall k :: pos <= k < |text| ==> IsWhiteSpace(text[k])
    ensures r.Err? ==> r.error.ParseError? && pos <= r.error.pos <= |text|
  {
    var start := SkipWhiteSpace(text, pos);
    var scan :- ScanFrom(cc, text, start);
    var raw := Token(scan.id, text[start..scan.end], start);
    Ok((Token(ReclassifyToken(raw), raw.text, start), scan.end))
  }

  /** The scanner never yields Unknown, Equal or LessGreater: "=" and "<>" are not operators of the language. */
  lemma ScannedKinds(cc: CharClasses, text: string, pos: nat)
    requires pos <= |text| && ScanToken(cc, text, pos).Ok?
    ensures ScanToken(cc, text, pos).value.0.id !in {Unknown, Equal, LessGreater}
  {
    var start := SkipWhiteSpace(text, pos);
    var scan := ScanFrom(cc, text, start).value;
    var raw := Token(scan.id, text[start..scan.end], start);
    assert IsScannedKind(scan.id);
    if scan.id == Identifier {
      assert OperatorWord(raw.text).Some? ==> OperatorWord(raw.text).value !in {Unknown, Equal, LessGreater};
    }
  }

  /** '/' scans as the member-access token Dot. */
  lemma SlashIsDot(cc: CharClasses, text: string, pos: nat)
    requires pos <= |text|
    requires SkipWhiteSpace(text, pos) < |text| && text[SkipWhiteSpace(text, pos)] == '/'
    ensures var start := SkipWhiteSpace(text, pos); ScanToken(cc, text, pos) == Ok((Token(Dot, "/", start), start + 1))
  {
    var start := SkipWhiteSpace(text, pos);
    assert text[start..start + 1] == "/";
  }

  /** The characters that begin no token. */
  predicate StartsNoToken(cc: CharClasses, c: char)
  {
    && c !in "[]|?\"'%&(),-/:@_"
    && !IsIdentifierStart(cc, c) && !IsDigit(cc, c)
  }

  /** A character that begins no token is an error at its own offset, naming it. */
  lemma InvalidCharacterIsReported(cc: CharClasses, text: string, pos: nat)
    requires pos <= |text|
    requires SkipWhiteSpace(text, pos) < |text| && StartsNoToken(cc, text[SkipWhiteSpace(text, pos)])
    ensures var start := SkipWhiteSpace(text, pos); ScanToken(cc, text, pos) == Err(ParseError(start, InvalidCharacter(text[start])))
  {
  }

  /** "=", "<", ">", "!", "*", "+" and "." begin no token. */
  lemma SymbolsAreInvalidCharacters(cc: CharClasses)
    ensures forall c :: c in "=<>!*+." ==> StartsNoToken(cc, c)
  {
  }

  /** A quoted literal that is not closed is an error at the end of the text. */
  lemma UnterminatedLiteralFailsAtEnd(cc: CharClasses, text: string, pos: nat)
    requires pos <= |text|
    requires SkipWhiteSpace(text, pos) < |text|
    requires text[SkipWhiteSpace(text, pos)] == '\'' || text[SkipWhiteSpace(text, pos)] == '"'
    requires ScanToken(cc, text, pos).Err?
    ensures ScanToken(cc, text, pos).error == ParseError(|text|, UnterminatedStringLiteral)
  {
  }

  /** A doubled quote does not end a literal: 'it''s' is one string literal token. */
  lemma DoubledQuoteContinuesLiteral(cc: CharClasses)
    ensures ScanToken(cc, "'it''s'", 0) == Ok((Token(StringLiteral, "'it''s'", 0), 7))
  {
    var text := "'it''s'";
    assert QuoteBodyEnd(text, 6, '\'') == 6;
    assert QuoteBodyEnd(text, 5, '\'') == 6;
    assert QuoteBodyEnd(text, 4, '\'') == 4;
    assert QuoteBodyEnd(text, 3, '\'') == 3;
    assert QuoteBodyEnd(text, 1, '\'') == 3;
    assert QuotedLiteralEnd(text, 4, '\'') == Ok(7);
    assert QuotedLiteralEnd(text, 0, '\'') == Ok(7);
    assert text[0..7] == text;
  }

  lemma ScanName(cc: CharClasses)
    ensures ScanToken(cc, "Name eq 'x'", 0) == Ok((Token(Identifier, "Name", 0), 4))
  {
    var text := "Name eq 'x'";
    NameScansAsIdentifier(cc);
    assert SkipWhiteSpace(text, 0) == 0;
    assert text[0..4] == "Name";
    assert OperatorWord("Name").None?;
  }

  lemma NameScansAsIdentifier(cc: CharClasses)
    ensures ScanFrom(cc, "Name eq 'x'", 0) == Ok(Scan(Identifier, 4))
  {
    var text := "Name eq 'x'";
    var part := IdentifierPartClass(cc);
    assert !part(text[4]);
    assert SkipWhile(text, 4, part) == 4;
    assert part(text[3]) && part(text[2]) && part(text[1]);
    assert SkipWhile(text, 1, part) == 4;
  }

  lemma ScanEq(cc: CharClasses)
    ensures ScanToken(cc, "Name eq 'x'", 4) == Ok((Token(DoubleEqual, "eq", 5), 7))
  {
    var text := "Name eq 'x'";
    var part := IdentifierPartClass(cc);
    assert SkipWhiteSpace(text, 5) == 5;
    assert SkipWhiteSpace(text, 4) == 5;
    assert !part(text[7]);
    assert SkipWhile(text, 7, part) == 7;
    assert part(text[6]);
    assert SkipWhile(text, 6, part) == 7;
    assert text[5..7] == "eq";
  }

  lemma ScanQuoted(cc: CharClasses)
    ensures ScanToken(cc, "Name eq 'x'", 7) == Ok((Token(StringLiteral, "'x'", 8), 11))
  {
    var text := "Name eq 'x'";
    assert SkipWhiteSpace(text, 8) == 8;
    assert SkipWhiteSpace(text, 7) == 8;
    assert QuoteBodyEnd(text, 10, '\'') == 10;
    assert QuoteBodyEnd(text, 9, '\'') == 10;
    assert QuotedLiteralEnd(text, 8, '\'') == Ok(11);
    assert text[8..11] == "'x'";
  }
}
