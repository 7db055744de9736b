/**
 * The expression parser's grammar: a recursive-descent parser over the
 * tokens of the lexer, from the logical-or level down to primaries, with
 * the member, method, aggregate and indexer lookups and the operator
 * promotions it performs on the way, and the two entry points Parse (an
 * expression of a required type) and ParseOrdering (a comma-separated
 * ordering list). Each parse function takes the parser's state (the
 * scanning offset and the current token) and returns the expression with
 * the state after it, or the exception the parser throws.
 */
module ExpressionGrammar {
  import opened Common
  import opened ClrTypes
  import opened QueryExpressions
  import opened ExpressionConversions
  import opened QueryLexer
  import opened QueryLiterals
  import opened QueryPromotion
  import opened DynamicExpression

  /** QueryResolver.ResolveMember: a member access the host supplies for a type and a name the type does not declare. */
  type Resolver = (ClrType, string, Option<Expr>) -> Option<Expr>

  /**
   * What the parser reads but never changes: the text, the runtime and
   * reflection it consults, the named parameters (symbols), the implicit
   * parameter it, and the optional resolver.
   */
  datatype Context = Context(
    text: string,
    cc: CharClasses,
    rt: Runtime,
    schema: Schema,
    symbols: seq<ParamDecl>,
    it: Option<ParamDecl>,
    resolver: Option<Resolver>)

  /** The parser's position: the scanning offset after the current token, and the current token. */
  datatype PState = PState(pos: nat, token: Token)

  type Parsed<T> = Result<(T, PState)>

  predicate Valid(ctx: Context, st: PState)
  {
    st.pos <= |ctx.text|
  }

  /** The input left: the unscanned characters, plus one while the current token is not End. */
  function Rem(text: string, st: PState): nat
  {
    (if st.pos <= |text| then |text| - st.pos else 0) + (if st.token.id == End then 0 else 1)
  }

  /** NextToken: the next token after the current one; the input left shrinks unless the current token is End. */
  function NextTok(ctx: Context, st: PState): (r: Result<PState>)
    requires Valid(ctx, st)
    ensures r.Ok? ==> Valid(ctx, r.value) && Rem(ctx.text, r.value) <= Rem(ctx.text, st)
    ensures r.Ok? && st.token.id != End ==> Rem(ctx.text, r.value) < Rem(ctx.text, st)
    ensures r.Ok? ==> ScanToken(ctx.cc, ctx.text, st.pos) == Ok((r.value.token, r.value.pos))
  {
    var (token, end) :- ScanToken(ctx.cc, ctx.text, st.pos);
    Ok(PState(end, token))
  }

  function Fail<T>(pos: int, reason: ParseReason): Result<T>
  {
    Err(ParseError(pos, reason))
  }

  /** TokenIdentifierIs: the current token is an identifier equal to the word ignoring case. */
  predicate TokenIdentifierIs(st: PState, word: string)
  {
    st.token.id == Identifier && EqualsIgnoreCase(word, st.token.text)
  }

  // ---------------------------------------------------------------------------
  // Keywords and mapped functions

  /** What a keyword stands for: a constant, or a type whose value follows as a string. */
  datatype Keyword = KeywordConstant(value: Expr) | KeywordType(t: ClrType)

  /** The shared constants of the keywords true, false and null. */
  const TrueLiteral := Const(BoolValue(true), Boolean)
  const FalseLiteral := Const(BoolValue(false), Boolean)
  const NullKeyword := Constant(NullValue, Object, NullLiteral)

  /** The keyword table, looked up ignoring case. */
  function KeywordOf(text: string): (r: Option<Keyword>)
    ensures r.Some? && r.value.KeywordType? ==> r.value.t in {ByteArray, TimeSpan, DateTime, DateTimeOffset, Guid}
  {
    if EqualsIgnoreCase(text, "true") then Some(KeywordConstant(TrueLiteral))
    else if EqualsIgnoreCase(text, "false") then Some(KeywordConstant(FalseLiteral))
    else if EqualsIgnoreCase(text, "null") then Some(KeywordConstant(NullKeyword))
    else if EqualsIgnoreCase(text, "binary") || EqualsIgnoreCase(text, "X") then Some(KeywordType(ByteArray))
    else if EqualsIgnoreCase(text, "time") then Some(KeywordType(TimeSpan))
    else if EqualsIgnoreCase(text, "datetime") then Some(KeywordType(DateTime))
    else if EqualsIgnoreCase(text, "datetimeoffset") then Some(KeywordType(DateTimeOffset))
    else if EqualsIgnoreCase(text, "guid") then Some(KeywordType(Guid))
    else None
  }

  /**
   * A function name of the query language bound to a member of string,
   * DateTime or Math: whether it is static, whether it is a method, and
   * whether its first two arguments are swapped before the call.
   */
  datatype Mapped = Mapped(mappedType: ClrType, memberName: string, isStatic: bool, isMethod: bool, swapsArguments: bool)

  /** MapFunction: the string, date and math function tables, matched case-sensitively. */
  function MapFunction(name: string): (r: Option<Mapped>)
    ensures r.Some? && r.value.swapsArguments ==> name == "substringof" && r.value.memberName == "Contains"
    ensures r.Some? && r.value.isStatic ==> r.value.isMethod
  {
    if name == "startswith" then Some(Mapped(String, "StartsWith", false, true, false))
    else if name == "endswith" then Some(Mapped(String, "EndsWith", false, true, false))
    else if name == "length" then Some(Mapped(String, "Length", false, false, false))
    else if name == "toupper" then Some(Mapped(String, "ToUpper", false, true, false))
    else if name == "tolower" then Some(Mapped(String, "ToLower", false, true, false))
    else if name == "substringof" then Some(Mapped(String, "Contains", false, true, true))
    else if name == "indexof" then Some(Mapped(String, "IndexOf", false, true, false))
    else if name == "replace" then Some(Mapped(String, "Replace", false, true, false))
    else if name == "substring" then Some(Mapped(String, "Substring", false, true, false))
    else if name == "trim" then Some(Mapped(String, "Trim", false, true, false))
    else if name == "concat" then Some(Mapped(String, "Concat", true, true, false))
    else if name == "day" then Some(Mapped(DateTime, "Day", false, false, false))
    else if name == "month" then Some(Mapped(DateTime, "Month", false, false, false))
    else if name == "year" then Some(Mapped(DateTime, "Year", false, false, false))
    else if name == "hour" then Some(Mapped(DateTime, "Hour", false, false, false))
    else if name == "minute" then Some(Mapped(DateTime, "Minute", false, false, false))
    else if name == "second" then Some(Mapped(DateTime, "Second", false, false, false))
    else if name == "round" then Some(Mapped(MathType, "Round", true, true, false))
    else if name == "floor" then Some(Mapped(MathType, "Floor", true, true, false))
    else if name == "ceiling" then Some(Mapped(MathType, "Ceiling", true, true, false))
    else None
  }

  /**
   * The instance and the arguments of a mapped call with an argument
   * list: after the optional swap of the first two, the first argument is
   * the instance and is dropped from the arguments, unless the member is
   * static, when there is no instance. Too few arguments index past the
   * end of the array.
   */
  function MappedArguments(m: Mapped, args: seq<Expr>): (r: Result<(Option<Expr>, seq<Expr>)>)
    ensures r.Err? <==> |args| == 0 || (m.swapsArguments && |args| < 2)
    ensures r.Err? ==> r.error == IndexOutOfRange
    ensures r.Ok? && !m.swapsArguments && !m.isStatic ==> r.value == (Some(args[0]), args[1..])
    ensures r.Ok? && m.isStatic && !m.swapsArguments ==> r.value == (None, args)
  {
    var mapped :-
      if !m.swapsArguments then Ok(args)
      else if |args| < 2 then Err(IndexOutOfRange)
      else Ok([args[1], args[0]] + args[2..]);
    if |mapped| == 0 then Err(IndexOutOfRange)
    else if !m.isStatic then Ok((Some(mapped[0]), mapped[1..]))
    else Ok((None, mapped))
  }

  /** substringof(a, b) asks whether b contains a: the call is b.Contains(a). */
  lemma SubstringOfSwapsArguments(a: Expr, b: Expr, rest: seq<Expr>)
    ensures MapFunction("substringof").Some?
    ensures MappedArguments(MapFunction("substringof").value, [a, b] + rest) == Ok((Some(b), [a] + rest))
  {
    var m := MapFunction("substringof").value;
    assert ([b, a] + rest)[1..] == [a] + rest;
  }

  // ---------------------------------------------------------------------------
  // Node factories (the checks Expression.Property, Field and Call make)

  /** Whether an instance suits a member: none for a static one, one of an assignable type otherwise. */
  predicate SuitsInstance(instance: Option<Expr>, declaringType: ClrType, isStatic: bool)
  {
    if isStatic then instance.None?
    else instance.Some? && IsAssignableFrom(declaringType, TypeOf(instance.value))
  }

  /** Expression.Property / Expression.Field: the member access, or an argument error for an unsuitable instance. */
  function MemberNode(instance: Option<Expr>, m: MemberRef): (r: Result<Expr>)
    ensures r.Ok? <==> SuitsInstance(instance, m.declaringType, m.isStatic)
    ensures r.Ok? ==> r.value == MemberAccess(instance, m) && TypeOf(r.value) == m.memberType
    ensures r.Err? ==> r.error == Argument("instance")
  {
    if SuitsInstance(instance, m.declaringType, m.isStatic) then Ok(MemberAccess(instance, m))
    else Err(Argument("instance"))
  }

  /** Expression.Call: the call, or an argument error for an unsuitable instance. */
  function CallNode(instance: Option<Expr>, m: MethodRef, args: seq<Expr>): (r: Result<Expr>)
    ensures r.Ok? <==> SuitsInstance(instance, m.declaringType, m.isStatic)
    ensures r.Ok? ==> r.value == Call(instance, m, args) && TypeOf(r.value) == m.returnType
    ensures r.Err? ==> r.error == Argument("instance")
  {
    if SuitsInstance(instance, m.declaringType, m.isStatic) then Ok(Call(instance, m, args))
    else Err(Argument("instance"))
  }

  // ---------------------------------------------------------------------------
  // Operator nodes

  /** String.Compare(string, string) and the two String.Concat overloads the parser calls. */
  const StringCompare := MethodRef(String, "Compare", [], [ParameterInfo(String, false), ParameterInfo(String, false)], Int32, true)
  const ConcatStrings := MethodRef(String, "Concat", [], [ParameterInfo(String, false), ParameterInfo(String, false)], String, true)
  const ConcatObjects := MethodRef(String, "Concat", [], [ParameterInfo(Object, false), ParameterInfo(Object, false)], String, true)

  /** GenerateStringConcat: String.Concat(object, object), value-typed operands boxed to object first. */
  function StringConcat(left: Expr, right: Expr): (r: Expr)
    ensures r.Call? && r.callee == ConcatObjects && |r.args| == 2 && TypeOf(r) == String
    ensures TypeOf(r.args[0]) == (if IsValueType(TypeOf(left)) then Object else TypeOf(left))
    ensures TypeOf(r.args[1]) == (if IsValueType(TypeOf(right)) then Object else TypeOf(right))
  {
    var l := if IsValueType(TypeOf(left)) then Convert(left, Object) else left;
    var r := if IsValueType(TypeOf(right)) then Convert(right, Object) else right;
    Call(None, ConcatObjects, [l, r])
  }

  /** Whether a type is DateTime or DateTimeOffset, possibly nullable. */
  predicate IsDateLike(t: ClrType)
  {
    GetNonNullableType(t) in {DateTime, DateTimeOffset}
  }

  /** The type of an arithmetic node: a difference of two dates is a time span, anything else has the left operand's type. */
  function ArithmeticType(op: BinaryOp, left: ClrType, right: ClrType): (r: ClrType)
    ensures op != Subtract ==> r == left
    ensures op == Subtract && IsDateLike(left) && IsDateLike(right) ==>
      r == (if IsNullableType(left) then Nullable(TimeSpan) else TimeSpan)
  {
    if op == Subtract && IsDateLike(left) && IsDateLike(right) then
      (if IsNullableType(left) then Nullable(TimeSpan) else TimeSpan)
    else left
  }

  /** GenerateAdd: two strings are concatenated with String.Concat(string, string), anything else is added. */
  function AddNode(left: Expr, right: Expr): (r: Expr)
    ensures TypeOf(left) == String && TypeOf(right) == String ==> r == Call(None, ConcatStrings, [left, right])
    ensures !(TypeOf(left) == String && TypeOf(right) == String) ==> r == Binary(Add, left, right, TypeOf(left))
  {
    if TypeOf(left) == String && TypeOf(right) == String then Call(None, ConcatStrings, [left, right])
    else Binary(Add, left, right, ArithmeticType(Add, TypeOf(left), TypeOf(right)))
  }

  /**
   * One step of ParseAdditive: + with a string operand concatenates, +
   * otherwise adds after promoting to an IAddSignatures signature, -
   * subtracts after promoting to an ISubtractSignatures signature, and &
   * concatenates.
   */
  function AdditiveNode(rt: Runtime, op: Token, left: Expr, right: Expr): (r: Result<Expr>)
    requires op.id in {Plus, Minus, Amphersand}
    ensures op.id == Amphersand ==> r == Ok(StringConcat(left, right))
    ensures op.id == Plus && (TypeOf(left) == String || TypeOf(right) == String) ==> r == Ok(StringConcat(left, right))
    ensures op.id == Minus && r.Ok? ==>
      && r.value.Binary? && r.value.op == Subtract
      && PromoteOperands(rt, SignatureGroups(ISubtractSignatures, "F"), [left, right]) == Ok(Some([r.value.left, r.value.right]))
    ensures r.Err? ==> r.error == ParseError(op.pos, IncompatibleOperands) || IsLiteral(left) || IsLiteral(right)
  {
    if op.id == Plus then
      if TypeOf(left) == String || TypeOf(right) == String then Ok(StringConcat(left, right))
      else
        var (l, r) :- CheckAndPromoteOperands(rt, IAddSignatures, op.pos, left, right);
        Ok(AddNode(l, r))
    else if op.id == Minus then
      var (l, r) :- CheckAndPromoteOperands(rt, ISubtractSignatures, op.pos, left, right);
      Ok(Binary(Subtract, l, r, ArithmeticType(Subtract, TypeOf(l), TypeOf(r))))
    else Ok(StringConcat(left, right))
  }

  /** The operator of a multiplicative token: the word mod and % take the remainder. */
  function MultiplicativeOp(id: TokenId): (r: BinaryOp)
    ensures r in {Multiply, Divide, Modulo}
  {
    if id == Asterisk then Multiply
    else if id == Slash then Divide
    else Modulo
  }

  /** The operator of a comparison token. */
  function ComparisonOp(id: TokenId): (r: BinaryOp)
    ensures IsComparison(r)
    ensures IsEquality(r) <==> id in {TokenId.Equal, DoubleEqual, ExclamationEqual, LessGreater}
  {
    if id == TokenId.Equal || id == DoubleEqual then BinaryOp.Equal
    else if id == ExclamationEqual || id == LessGreater then NotEqual
    else if id == TokenId.LessThan then BinaryOp.LessThan
    else if id == LessThanEqual then LessThanOrEqual
    else if id == TokenId.GreaterThan then BinaryOp.GreaterThan
    else GreaterThanOrEqual
  }

  predicate IsEquality(op: BinaryOp)
  {
    op.Equal? || op.NotEqual?
  }

  predicate IsComparison(op: BinaryOp)
  {
    op.Equal? || op.NotEqual? || op.LessThan? || op.LessThanOrEqual? || op.GreaterThan? || op.GreaterThanOrEqual?
  }

  predicate IsComparisonToken(id: TokenId)
  {
    id in {TokenId.Equal, DoubleEqual, ExclamationEqual, LessGreater, TokenId.GreaterThan, GreaterThanEqual, TokenId.LessThan, LessThanEqual}
  }

  /**
   * ConvertEnumExpression: an operand of an enumeration type becomes its
   * underlying integral type, nullable when the operand is nullable or the
   * other operand is a null constant.
   */
  function ConvertEnum(e: Expr, other: Expr): (r: Expr)
    ensures !IsEnumType(TypeOf(e)) ==> r == e
    ensures IsEnumType(TypeOf(e)) ==>
      && r.Convert? && r.operand == e
      && var u := GetNonNullableType(TypeOf(e)).underlying;
         TypeOf(r) == (if IsNullableType(TypeOf(e)) || (other.Constant? && other.value.NullValue?) then Nullable(u) else u)
  {
    if !IsEnumType(TypeOf(e)) then e
    else
      var u := GetNonNullableType(TypeOf(e)).underlying;
      if IsNullableType(TypeOf(e)) || (other.Constant? && other.value.NullValue?) then Convert(e, Nullable(u))
      else Convert(e, u)
  }

  /**
   * The operands of a comparison after it has made them fit: for = and !=
   * between two reference types, the operand of the more general type
   * keeps it and the other is converted to it (incompatible types are an
   * error); otherwise enumerations become their underlying types and both
   * are promoted to a signature of IEqualitySignatures or
   * IRelationalSignatures.
   */
  function ComparisonOperands(rt: Runtime, op: Token, left: Expr, right: Expr): (r: Result<(Expr, Expr)>)
    requires IsComparisonToken(op.id)
    ensures r.Ok? && IsEquality(ComparisonOp(op.id)) && !IsValueType(TypeOf(left)) && !IsValueType(TypeOf(right)) ==>
      && TypeOf(r.value.0) == TypeOf(r.value.1)
      && (r.value.0 == left || r.value.1 == right)
    ensures r.Err? && IsEquality(ComparisonOp(op.id)) && !IsValueType(TypeOf(left)) && !IsValueType(TypeOf(right)) ==>
      r.error == ParseError(op.pos, IncompatibleOperands)
      && !IsAssignableFrom(TypeOf(left), TypeOf(right)) && !IsAssignableFrom(TypeOf(right), TypeOf(left))
  {
    var equality := IsEquality(ComparisonOp(op.id));
    var signatures := if equality then IEqualitySignatures else IRelationalSignatures;
    if equality && !IsValueType(TypeOf(left)) && !IsValueType(TypeOf(right)) then
      if TypeOf(left) == TypeOf(right) then Ok((left, right))
      else if IsAssignableFrom(TypeOf(left), TypeOf(right)) then Ok((left, Convert(right, TypeOf(left))))
      else if IsAssignableFrom(TypeOf(right), TypeOf(left)) then Ok((Convert(left, TypeOf(right)), right))
      else Fail(op.pos, IncompatibleOperands)
    else if IsEnumType(TypeOf(left)) || IsEnumType(TypeOf(right)) then
      var l := ConvertEnum(left, right);
      var r := ConvertEnum(right, l);
      CheckAndPromoteOperands(rt, signatures, op.pos, l, r)
    else CheckAndPromoteOperands(rt, signatures, op.pos, left, right)
  }

  /**
   * The comparison node: an ordering of two strings compares
   * String.Compare(left, right) with zero; anything else compares the
   * operands. String.Compare needs a string on the right.
   */
  function ComparisonNode(op: BinaryOp, left: Expr, right: Expr): (r: Result<Expr>)
    requires IsComparison(op)
    ensures r.Ok? ==> r.value.Binary? && r.value.op == op && TypeOf(r.value) == Boolean
    ensures IsEquality(op) || TypeOf(left) != String ==> r == Ok(Binary(op, left, right, Boolean))
    ensures !IsEquality(op) && TypeOf(left) == String && TypeOf(right) == String ==>
      r == Ok(Binary(op, Call(None, StringCompare, [left, right]), Const(IntegerValue(0), Int32), Boolean))
    ensures r.Err? <==> !IsEquality(op) && TypeOf(left) == String && TypeOf(right) != String
  {
    if !IsEquality(op) && TypeOf(left) == String then
      if TypeOf(right) == String then Ok(Binary(op, Call(None, StringCompare, [left, right]), Const(IntegerValue(0), Int32), Boolean))
      else Err(ArgumentNull("method"))
    else Ok(Binary(op, left, right, Boolean))
  }

  // ---------------------------------------------------------------------------
  // Aggregates

  /** Enumerable.Average's result type for a selector type. */
  function AverageType(t: ClrType): (r: ClrType)
    ensures t in {Int32, Int64, Double} ==> r == Double
    ensures t in {Nullable(Int32), Nullable(Int64), Nullable(Double)} ==> r == Nullable(Double)
    ensures t !in {Int32, Int64, Double, Nullable(Int32), Nullable(Int64), Nullable(Double)} ==> r == t
  {
    if t in {Int32, Int64, Double} then Double
    else if t in {Nullable(Int32), Nullable(Int64), Nullable(Double)} then Nullable(Double)
    else t
  }

  /** The result type of an aggregate of Enumerable over elements, with the selector's result type when it has one. */
  function AggregateType(name: string, elementType: ClrType, selector: Option<ClrType>): ClrType
  {
    if name in {"All", "Any"} then Boolean
    else if name == "Count" then Int32
    else if name == "Where" then Sequence(IEnumerableOf, elementType)
    else if selector.None? then elementType
    else if name == "Average" then AverageType(selector.value)
    else selector.value
  }

  /**
   * The aggregate call: the Enumerable method of the signature's name,
   * instantiated with the element type (and for Min and Max the selector
   * type), over the instance and, when there is an argument, the lambda of
   * it over the fresh parameter.
   */
  function AggregateCall(instance: Expr, elementType: ClrType, name: string, param: ParamDecl, args: seq<Expr>): (r: Result<Expr>)
    requires param.paramType == elementType
    ensures r.Ok? ==>
      && r.value.Call? && r.value.instance.None? && r.value.callee.declaringType == EnumerableType
      && r.value.callee.name == name && |r.value.args| >= 1 && r.value.args[0] == instance
    ensures r.Ok? && args == [] ==> r.value.args == [instance] && TypeOf(r.value) == AggregateType(name, elementType, None)
    ensures r.Ok? && args != [] ==>
      && r.value.args == [instance, Expr.Lambda([param], args[0], Func([elementType, TypeOf(args[0])]))]
      && TypeOf(r.value) == AggregateType(name, elementType, Some(TypeOf(args[0])))
    ensures r.Err? <==> name in {"Min", "Max"} && args == []
  {
    var typeArgs :-
      if name in {"Min", "Max"} then
        (if args == [] then Err(IndexOutOfRange) else Ok([elementType, TypeOf(args[0])]))
      else Ok([elementType]);
    var source := ParameterInfo(Sequence(IEnumerableOf, elementType), false);
    if args == [] then
      Ok(Call(None, MethodRef(EnumerableType, name, typeArgs, [source], AggregateType(name, elementType, None), true), [instance]))
    else
      OneParameterLambda(args[0], param);
      var selector := DynamicExpression.Lambda(args[0], Some([param])).value;
      var selectorType := ParameterInfo(Func([elementType, TypeOf(args[0])]), false);
      Ok(Call(None, MethodRef(EnumerableType, name, typeArgs, [source, selectorType],
                              AggregateType(name, elementType, Some(TypeOf(args[0]))), true), [instance, selector]))
  }

  // ---------------------------------------------------------------------------
  // Literals and type constructions (no recursion into the grammar)

  /** ParseIntegerLiteral: the literal's value and type; a following L or l token makes it a long. */
  function ParseIntegerLiteral(ctx: Context, st: PState): (r: Parsed<Expr>)
    requires Valid(ctx, st)
    ensures r.Ok? ==> Valid(ctx, r.value.1) && Rem(ctx.text, r.value.1) < Rem(ctx.text, st)
    ensures r.Ok? ==> IsLiteral(r.value.0) && r.value.0.origin == Literal(st.token.text) && IsIntegral(TypeOf(r.value.0))
    ensures r.Ok? ==> r.value.0.value.IntegerValue? && InRange(r.value.0.value.n, TypeOf(r.value.0))
    ensures st.token.id != IntegerLiteral ==> r == Fail(st.token.pos, SyntaxError)
  {
    if st.token.id != IntegerLiteral then Fail(st.token.pos, SyntaxError)
    else
      var text := st.token.text;
      var n :- IntegerLiteralValue(text, st.token.pos);
      var st1 :- NextTok(ctx, st);
      var longSuffix := st1.token.text == "L" || st1.token.text == "l";
      var st2 :- if longSuffix then NextTok(ctx, st1) else Ok(st1);
      var (v, t) := IntegerLiteralConstant(text[0] == '-', n, longSuffix);
      Ok((Constant(IntegerValue(v), t, Literal(text)), st2))
  }

  /** ParseRealLiteral: the literal's value as float, decimal or double by its suffix. */
  function ParseRealLiteral(ctx: Context, st: PState): (r: Parsed<Expr>)
    requires Valid(ctx, st)
    ensures r.Ok? ==> Valid(ctx, r.value.1) && Rem(ctx.text, r.value.1) < Rem(ctx.text, st)
    ensures r.Ok? ==>
      && IsLiteral(r.value.0) && r.value.0.origin == Literal(st.token.text)
      && TypeOf(r.value.0) in {Single, Double, Decimal}
    ensures st.token.id != TokenId.RealLiteral ==> r == Fail(st.token.pos, SyntaxError)
  {
    if st.token.id != TokenId.RealLiteral then Fail(st.token.pos, SyntaxError)
    else
      var (v, t) :- QueryLiterals.RealLiteral(ctx.rt, st.token.text, st.token.pos);
      var st1 :- NextTok(ctx, st);
      Ok((Constant(v, t, Literal(st.token.text)), st1))
  }

  /** ParseStringLiteral: the unescaped text between the quotes, a literal whose text is that value. */
  function ParseStringLiteral(ctx: Context, st: PState): (r: Parsed<Expr>)
    requires Valid(ctx, st)
    ensures r.Ok? ==> Valid(ctx, r.value.1) && Rem(ctx.text, r.value.1) < Rem(ctx.text, st)
    ensures r.Ok? ==>
      && StringLiteralValue(st.token.text).Ok?
      && r.value.0 == Constant(StringValue(StringLiteralValue(st.token.text).value), String, Literal(StringLiteralValue(st.token.text).value))
    ensures st.token.id != StringLiteral ==> r == Fail(st.token.pos, SyntaxError)
  {
    if st.token.id != StringLiteral then Fail(st.token.pos, SyntaxError)
    else
      var s :- StringLiteralValue(st.token.text);
      var st1 :- NextTok(ctx, st);
      Ok((Constant(StringValue(s), String, Literal(s)), st1))
  }

  /** The runtime's parse of a keyword type's string, as the try block sees it: a format failure is a parse error at the string. */
  function TypedValue(rt: Runtime, t: ClrType, s: string, pos: int): (r: Result<()>)
    ensures t !in {Guid, DateTimeOffset, TimeSpan, ByteArray} ==> r.Ok?
    ensures t == ByteArray ==> (r.Ok? <==> BinaryLiteral(s, pos).Ok?)
  {
    if t in {Guid, DateTimeOffset, TimeSpan} then
      match rt.parseTyped(t, s)
        case Parsed => Ok(())
        case FormatFailure => Fail(pos, TypeValueFormat)
        case OtherFailure(e) => Err(e)
    else if t == ByteArray then
      var _ :- BinaryLiteral(s, pos);
      Ok(())
    else Ok(())
  }

  /**
   * ParseTypeConstruction: a type keyword followed by a string. Only
   * datetime yields a value (a constant of the parsed date); for the other
   * types the string is parsed, its errors reported, and then the
   * construction is rejected anyway. Without a string it is rejected at
   * the keyword.
   */
  function ParseTypeConstruction(ctx: Context, st: PState, t: ClrType): (r: Parsed<Expr>)
    requires Valid(ctx, st)
    ensures r.Ok? ==> Valid(ctx, r.value.1) && Rem(ctx.text, r.value.1) < Rem(ctx.text, st)
    ensures r.Ok? ==> t == DateTime && r.value.0.Constant? && r.value.0.value.HostValue? && TypeOf(r.value.0) == DateTime
  {
    var pos := st.token.pos;
    var st1 :- NextTok(ctx, st);
    if st1.token.id != StringLiteral then Fail(pos, InvalidTypeCreationExpression)
    else
      var (literal, st2) :- ParseStringLiteral(ctx, st1);
      var s := literal.value.s;
      if t == DateTime then
        match ctx.rt.parseTyped(DateTime, s)
          case Parsed => Ok((Const(HostValue(s), DateTime), st2))
          case FormatFailure => Fail(st1.token.pos, TypeValueFormat)
          case OtherFailure(e) => Err(e)
      else
        var _ :- TypedValue(ctx.rt, t, s, st1.token.pos);
        Fail(st1.token.pos, InvalidTypeCreationExpression)
  }

  // ---------------------------------------------------------------------------
  // Lookups used by the grammar

  /** GetIdentifier: the current identifier's text, a leading @ dropped from a longer one. */
  function GetIdentifier(st: PState): (r: Result<string>)
    ensures r.Ok? <==> st.token.id == Identifier
    ensures r.Ok? && |st.token.text| > 1 && st.token.text[0] == '@' ==> r.value == st.token.text[1..]
    ensures r.Ok? && !(|st.token.text| > 1 && st.token.text[0] == '@') ==> r.value == st.token.text
    ensures r.Err? ==> r.error == ParseError(st.token.pos, IdentifierExpected)
  {
    if st.token.id != Identifier then Fail(st.token.pos, IdentifierExpected)
    else if |st.token.text| > 1 && st.token.text[0] == '@' then Ok(st.token.text[1..])
    else Ok(st.token.text)
  }

  /** The filter that keeps the symbols with a name, ignoring case. */
  function SymbolNamed(name: string): ParamDecl -> bool
  {
    (p: ParamDecl) => EqualsIgnoreCase(p.name, name)
  }

  /** A member the type does not declare: the resolver's answer, or an unknown-member error at the name. */
  function ResolveMember(ctx: Context, t: ClrType, name: string, instance: Option<Expr>, pos: int): (r: Result<Expr>)
    ensures r.Ok? <==> ctx.resolver.Some? && ctx.resolver.value(t, name, instance).Some?
    ensures r.Ok? ==> r.value == ctx.resolver.value(t, name, instance).value
    ensures r.Err? ==> r.error == ParseError(pos, UnknownPropertyOrField)
  {
    if ctx.resolver.Some? && ctx.resolver.value(t, name, instance).Some? then Ok(ctx.resolver.value(t, name, instance).value)
    else Fail(pos, UnknownPropertyOrField)
  }

  /**
   * The member a mapped function stands for. A method is looked up on
   * the mapped type's walk with the arguments (none without an argument
   * list): no applicable method is an error at the name, and a void one
   * too. A property or field is looked up by name, then asked of the
   * resolver.
   */
  function MappedMember(ctx: Context, m: Mapped, pos: int, instance: Option<Expr>, args: Option<seq<Expr>>): (r: Result<Expr>)
    ensures r.Ok? && m.isMethod ==> r.value.Call? && r.value.callee.returnType != Void && r.value.instance == instance
    ensures r.Ok? && m.isMethod ==>
      var f := FindMethod(ctx.rt, TypeGroups(ctx.schema, m.mappedType, m.memberName, m.isStatic), args);
      f.Ok? && f.value.count == 1 && r.value.callee == f.value.callee.value && Some(r.value.args) == f.value.args
    ensures m.isMethod && FindMethod(ctx.rt, TypeGroups(ctx.schema, m.mappedType, m.memberName, m.isStatic), args) == Ok(Found(0, None, args)) ==>
      r == Fail(pos, NoApplicableMethod)
    ensures r.Ok? && !m.isMethod && FindPropertyOrField(ctx.schema, m.mappedType, m.memberName, m.isStatic).Some? ==>
      r.value == MemberAccess(instance, FindPropertyOrField(ctx.schema, m.mappedType, m.memberName, m.isStatic).value)
  {
    if m.isMethod then
      var f :- FindMethod(ctx.rt, TypeGroups(ctx.schema, m.mappedType, m.memberName, m.isStatic), args);
      FindMethodCount(ctx.rt, TypeGroups(ctx.schema, m.mappedType, m.memberName, m.isStatic), args);
      if f.count == 0 then Fail(pos, NoApplicableMethod)
      else if f.count == 1 then
        if f.callee.value.returnType == Void then Fail(pos, MethodIsVoid)
        else CallNode(instance, f.callee.value, f.args.value)
      else Fail(pos, AmbiguousMethodInvocation)
    else
      match FindPropertyOrField(ctx.schema, m.mappedType, m.memberName, m.isStatic)
        case None => ResolveMember(ctx, m.mappedType, m.memberName, instance, pos)
        case Some(member) => MemberNode(instance, member)
  }

  /**
   * The node of an element access: a one-dimensional array indexed by
   * one argument promoted exactly to int, or the call of the unique
   * applicable indexer getter of the type's walk.
   */
  function ElementAccessNode(ctx: Context, e: Expr, args: seq<Expr>, pos: int): (r: Result<Expr>)
    ensures TypeOf(e).ArrayOf? && (TypeOf(e).rank != 1 || |args| != 1) ==> r == Fail(pos, CannotIndexMultiDimArray)
    ensures r.Ok? && TypeOf(e).ArrayOf? ==>
      && r.value.ArrayIndex? && r.value == ArrayIndex(e, r.value.index, TypeOf(e).element) && TypeOf(r.value.index) == Int32
      && PromoteExpression(ctx.rt, args[0], Int32, true) == Ok(Some(r.value.index))
    ensures r.Ok? && !TypeOf(e).ArrayOf? ==>
      var f := FindMethod(ctx.rt, IndexerGroups(ctx.schema, TypeOf(e)), Some(args));
      && f.Ok? && f.value.count == 1
      && r.value == Call(Some(e), f.value.callee.value, f.value.args.value)
  {
    var t := TypeOf(e);
    if t.ArrayOf? then
      if t.rank != 1 || |args| != 1 then Fail(pos, CannotIndexMultiDimArray)
      else
        var index :- PromoteExpression(ctx.rt, args[0], Int32, true);
        if index.None? then Fail(pos, InvalidIndex)
        else
          ExactPromotionHasTheType(ctx.rt, args[0], Int32);
          Ok(ArrayIndex(e, index.value, t.element))
    else
      var f :- FindMethod(ctx.rt, IndexerGroups(ctx.schema, t), Some(args));
      FindMethodCount(ctx.rt, IndexerGroups(ctx.schema, t), Some(args));
      if f.count == 0 then Fail(pos, NoApplicableIndexer)
      else if f.count == 1 then CallNode(Some(e), f.callee.value, f.args.value)
      else Fail(pos, AmbiguousIndexerInvocation)
  }

  // ---------------------------------------------------------------------------
  // The grammar. Every parse function that succeeds leaves a valid state
  // and consumes input, except the loop continuations (the ...Rest
  // functions), which may consume nothing. Termination is on the input
  // left, then on the grammar level.

  /** ParseExpression: a logical-or expression. */
  function ParseExpression(ctx: Context, st: PState): (r: Parsed<Expr>)
    requires Valid(ctx, st)
    ensures r.Ok? ==> Valid(ctx, r.value.1) && Rem(ctx.text, r.value.1) < Rem(ctx.text, st)
    decreases Rem(ctx.text, st), 20
  {
    ParseLogicalOr(ctx, st)
  }

  function ParseLogicalOr(ctx: Context, st: PState): (r: Parsed<Expr>)
    requires Valid(ctx, st)
    ensures r.Ok? ==> Valid(ctx, r.value.1) && Rem(ctx.text, r.value.1) < Rem(ctx.text, st)
    decreases Rem(ctx.text, st), 19
  {
    var (left, st1) :- ParseLogicalAnd(ctx, st);
    LogicalOrRest(ctx, left, st1)
  }

  /** The loop of ParseLogicalOr: while the token is || or the word or, promote to ILogicalSignatures and join with OrElse. */
  function LogicalOrRest(ctx: Context, left: Expr, st: PState): (r: Parsed<Expr>)
    requires Valid(ctx, st)
    ensures r.Ok? ==> Valid(ctx, r.value.1) && Rem(ctx.text, r.value.1) <= Rem(ctx.text, st)
    ensures !(st.token.id == DoubleBar || TokenIdentifierIs(st, "or")) ==> r == Ok((left, st))
    decreases Rem(ctx.text, st), 18
  {
    if st.token.id == DoubleBar || TokenIdentifierIs(st, "or") then
      var op := st.token;
      var st1 :- NextTok(ctx, st);
      var (right, st2) :- ParseLogicalAnd(ctx, st1);
      var (l, r) :- CheckAndPromoteOperands(ctx.rt, ILogicalSignatures, op.pos, left, right);
      LogicalOrRest(ctx, Binary(OrElse, l, r, TypeOf(l)), st2)
    else Ok((left, st))
  }

  function ParseLogicalAnd(ctx: Context, st: PState): (r: Parsed<Expr>)
    requires Valid(ctx, st)
    ensures r.Ok? ==> Valid(ctx, r.value.1) && Rem(ctx.text, r.value.1) < Rem(ctx.text, st)
    decreases Rem(ctx.text, st), 17
  {
    var (left, st1) :- ParseComparison(ctx, st);
    LogicalAndRest(ctx, left, st1)
  }

  /** The loop of ParseLogicalAnd: while the token is && (or and) or the word and in any case, join with AndAlso. */
  function LogicalAndRest(ctx: Context, left: Expr, st: PState): (r: Parsed<Expr>)
    requires Valid(ctx, st)
    ensures r.Ok? ==> Valid(ctx, r.value.1) && Rem(ctx.text, r.value.1) <= Rem(ctx.text, st)
    ensures !(st.token.id == DoubleAmphersand || TokenIdentifierIs(st, "and")) ==> r == Ok((left, st))
    decreases Rem(ctx.text, st), 16
  {
    if st.token.id == DoubleAmphersand || TokenIdentifierIs(st, "and") then
      var op := st.token;
      var st1 :- NextTok(ctx, st);
      var (right, st2) :- ParseComparison(ctx, st1);
      var (l, r) :- CheckAndPromoteOperands(ctx.rt, ILogicalSignatures, op.pos, left, right);
      LogicalAndRest(ctx, Binary(AndAlso, l, r, TypeOf(l)), st2)
    else Ok((left, st))
  }

  function ParseComparison(ctx: Context, st: PState): (r: Parsed<Expr>)
    requires Valid(ctx, st)
    ensures r.Ok? ==> Valid(ctx, r.value.1) && Rem(ctx.text, r.value.1) < Rem(ctx.text, st)
    decreases Rem(ctx.text, st), 15
  {
    var (left, st1) :- ParseAdditive(ctx, st);
    ComparisonRest(ctx, left, st1)
  }

  /** The loop of ParseComparison: while the token is a comparison, fit the operands and compare them. */
  function ComparisonRest(ctx: Context, left: Expr, st: PState): (r: Parsed<Expr>)
    requires Valid(ctx, st)
    ensures r.Ok? ==> Valid(ctx, r.value.1) && Rem(ctx.text, r.value.1) <= Rem(ctx.text, st)
    ensures !IsComparisonToken(st.token.id) ==> r == Ok((left, st))
    decreases Rem(ctx.text, st), 14
  {
    if IsComparisonToken(st.token.id) then
      var op := st.token;
      var st1 :- NextTok(ctx, st);
      var (right, st2) :- ParseAdditive(ctx, st1);
      var (l, r) :- ComparisonOperands(ctx.rt, op, left, right);
      var e :- ComparisonNode(ComparisonOp(op.id), l, r);
      ComparisonRest(ctx, e, st2)
    else Ok((left, st))
  }

  function ParseAdditive(ctx: Context, st: PState): (r: Parsed<Expr>)
    requires Valid(ctx, st)
    ensures r.Ok? ==> Valid(ctx, r.value.1) && Rem(ctx.text, r.value.1) < Rem(ctx.text, st)
    decreases Rem(ctx.text, st), 13
  {
    var (left, st1) :- ParseMultiplicative(ctx, st);
    AdditiveRest(ctx, left, st1)
  }

  /** The loop of ParseAdditive: while the token is +, - or &, build the sum, difference or concatenation. */
  function AdditiveRest(ctx: Context, left: Expr, st: PState): (r: Parsed<Expr>)
    requires Valid(ctx, st)
    ensures r.Ok? ==> Valid(ctx, r.value.1) && Rem(ctx.text, r.value.1) <= Rem(ctx.text, st)
    ensures st.token.id !in {Plus, Minus, Amphersand} ==> r == Ok((left, st))
    decreases Rem(ctx.text, st), 12
  {
    if st.token.id in {Plus, Minus, Amphersand} then
      var op := st.token;
      var st1 :- NextTok(ctx, st);
      var (right, st2) :- ParseMultiplicative(ctx, st1);
      var e :- AdditiveNode(ctx.rt, op, left, right);
      AdditiveRest(ctx, e, st2)
    else Ok((left, st))
  }

  function ParseMultiplicative(ctx: Context, st: PState): (r: Parsed<Expr>)
    requires Valid(ctx, st)
    ensures r.Ok? ==> Valid(ctx, r.value.1) && Rem(ctx.text, r.value.1) < Rem(ctx.text, st)
    decreases Rem(ctx.text, st), 11
  {
    var (left, st1) :- ParseUnary(ctx, st);
    MultiplicativeRest(ctx, left, st1)
  }

  /** The loop of ParseMultiplicative: while the token is *, /, % or the word mod, promote to IArithmeticSignatures and combine. */
  function MultiplicativeRest(ctx: Context, left: Expr, st: PState): (r: Parsed<Expr>)
    requires Valid(ctx, st)
    ensures r.Ok? ==> Valid(ctx, r.value.1) && Rem(ctx.text, r.value.1) <= Rem(ctx.text, st)
    ensures !(st.token.id in {Asterisk, Slash, Percent} || TokenIdentifierIs(st, "mod")) ==> r == Ok((left, st))
    decreases Rem(ctx.text, st), 10
  {
    if st.token.id in {Asterisk, Slash, Percent} || TokenIdentifierIs(st, "mod") then
      var op := st.token;
      var st1 :- NextTok(ctx, st);
      var (right, st2) :- ParseUnary(ctx, st1);
      var (l, r) :- CheckAndPromoteOperands(ctx.rt, IArithmeticSignatures, op.pos, left, right);
      MultiplicativeRest(ctx, Binary(MultiplicativeOp(op.id), l, r, TypeOf(l)), st2)
    else Ok((left, st))
  }

  /**
   * ParseUnary: a minus, ! (or not) or the word not in any case before a
   * unary expression negates it after promotion to INegationSignatures or
   * INotSignatures. A minus directly before a numeric literal is folded
   * into the literal, which then starts at the minus.
   */
  function ParseUnary(ctx: Context, st: PState): (r: Parsed<Expr>)
    requires Valid(ctx, st)
    ensures r.Ok? ==> Valid(ctx, r.value.1) && Rem(ctx.text, r.value.1) < Rem(ctx.text, st)
    decreases Rem(ctx.text, st), 9
  {
    if st.token.id != Minus && st.token.id != Exclamation && !TokenIdentifierIs(st, "not") then ParsePrimary(ctx, st)
    else
      var op := st.token;
      var st1 :- NextTok(ctx, st);
      if op.id == Minus && (st1.token.id == IntegerLiteral || st1.token.id == TokenId.RealLiteral) then
        ParsePrimary(ctx, st1.(token := st1.token.(text := "-" + st1.token.text, pos := op.pos)))
      else
        var (operand, st2) :- ParseUnary(ctx, st1);
        if op.id == Minus then
          var e :- CheckAndPromoteOperand(ctx.rt, INegationSignatures, op.pos, operand);
          Ok((Unary(Negate, e), st2))
        else
          var e :- CheckAndPromoteOperand(ctx.rt, INotSignatures, op.pos, operand);
          Ok((Unary(Not, e), st2))
  }

  /** ParsePrimary: a primary start followed by any number of member accesses and element accesses. */
  function ParsePrimary(ctx: Context, st: PState): (r: Parsed<Expr>)
    requires Valid(ctx, st)
    ensures r.Ok? ==> Valid(ctx, r.value.1) && Rem(ctx.text, r.value.1) < Rem(ctx.text, st)
    decreases Rem(ctx.text, st), 8
  {
    var (e, st1) :- ParsePrimaryStart(ctx, st);
    PrimaryRest(ctx, e, st1)
  }

  /** The loop of ParsePrimary: a dot (written /) and a member, or a bracketed index. */
  function PrimaryRest(ctx: Context, e: Expr, st: PState): (r: Parsed<Expr>)
    requires Valid(ctx, st)
    ensures r.Ok? ==> Valid(ctx, r.value.1) && Rem(ctx.text, r.value.1) <= Rem(ctx.text, st)
    ensures st.token.id !in {Dot, OpenBracket} ==> r == Ok((e, st))
    decreases Rem(ctx.text, st), 7
  {
    if st.token.id == Dot then
      var st1 :- NextTok(ctx, st);
      var (e1, st2) :- ParseMemberAccess(ctx, st1, e);
      PrimaryRest(ctx, e1, st2)
    else if st.token.id == OpenBracket then
      var (e1, st1) :- ParseElementAccess(ctx, st, e);
      PrimaryRest(ctx, e1, st1)
    else Ok((e, st))
  }

  /** ParsePrimaryStart: an identifier, a literal or a parenthesized expression; anything else is an error at the token. */
  function ParsePrimaryStart(ctx: Context, st: PState): (r: Parsed<Expr>)
    requires Valid(ctx, st)
    ensures r.Ok? ==> Valid(ctx, r.value.1) && Rem(ctx.text, r.value.1) < Rem(ctx.text, st)
    ensures st.token.id !in {Identifier, StringLiteral, IntegerLiteral, TokenId.RealLiteral, OpenParen} ==>
      r == Fail(st.token.pos, ExpressionExpected)
    decreases Rem(ctx.text, st), 6
  {
    if st.token.id == Identifier then ParseIdentifier(ctx, st)
    else if st.token.id == StringLiteral then ParseStringLiteral(ctx, st)
    else if st.token.id == IntegerLiteral then ParseIntegerLiteral(ctx, st)
    else if st.token.id == TokenId.RealLiteral then ParseRealLiteral(ctx, st)
    else if st.token.id == OpenParen then ParseParenExpression(ctx, st)
    else Fail(st.token.pos, ExpressionExpected)
  }

  /**
   * ParseIdentifier: a keyword (ignoring case) first, then a symbol
   * (ignoring case), then a mapped function (case-sensitive), and
   * otherwise a member of the implicit parameter it; without it the name
   * is unknown.
   */
  function ParseIdentifier(ctx: Context, st: PState): (r: Parsed<Expr>)
    requires Valid(ctx, st)
    ensures r.Ok? ==> Valid(ctx, r.value.1) && Rem(ctx.text, r.value.1) < Rem(ctx.text, st)
    decreases Rem(ctx.text, st), 5
  {
    if st.token.id != Identifier then Fail(st.token.pos, SyntaxError)
    else
      match KeywordOf(st.token.text)
        case Some(KeywordType(t)) => ParseTypeConstruction(ctx, st, t)
        case Some(KeywordConstant(e)) =>
          var st1 :- NextTok(ctx, st);
          Ok((e, st1))
        case None =>
          match FirstIndex(ctx.symbols, SymbolNamed(st.token.text))
            case Some(i) =>
              var st1 :- NextTok(ctx, st);
              Ok((Parameter(ctx.symbols[i]), st1))
            case None =>
              match MapFunction(st.token.text)
                case Some(m) => ParseMappedFunction(ctx, st, m)
                case None =>
                  if ctx.it.None? then Fail(st.token.pos, UnknownIdentifier)
                  else ParseMemberAccess(ctx, st, Parameter(ctx.it.value))
  }

  /**
   * ParseMappedFunction: the name, then optionally an argument list whose
   * first argument is the instance of a non-static member; the member is
   * looked up on the mapped type.
   */
  function ParseMappedFunction(ctx: Context, st: PState, m: Mapped): (r: Parsed<Expr>)
    requires Valid(ctx, st) && st.token.id == Identifier
    ensures r.Ok? ==> Valid(ctx, r.value.1) && Rem(ctx.text, r.value.1) < Rem(ctx.text, st)
    decreases Rem(ctx.text, st), 4
  {
    var pos := st.token.pos;
    var st1 :- NextTok(ctx, st);
    if st1.token.id == OpenParen then
      var (args, st2) :- ParseArgumentList(ctx, st1);
      var (instance, rest) :- MappedArguments(m, args);
      var e :- MappedMember(ctx, m, pos, instance, Some(rest));
      Ok((e, st2))
    else
      var e :- MappedMember(ctx, m, pos, None, None);
      Ok((e, st1))
  }

  /**
   * ParseMemberAccess: a name after an instance. With an argument list it
   * is an aggregate over the instance's element type (strings are not
   * sequences here); otherwise a property or field of the instance's
   * type, or the resolver's member.
   */
  function ParseMemberAccess(ctx: Context, st: PState, instance: Expr): (r: Parsed<Expr>)
    requires Valid(ctx, st)
    ensures r.Ok? ==> Valid(ctx, r.value.1) && Rem(ctx.text, r.value.1) < Rem(ctx.text, st)
    ensures st.token.id != Identifier ==> r == Fail(st.token.pos, IdentifierExpected)
    decreases Rem(ctx.text, st), 4
  {
    var t := TypeOf(instance);
    var pos := st.token.pos;
    var name :- GetIdentifier(st);
    var st1 :- NextTok(ctx, st);
    if st1.token.id == OpenParen then
      if t != String && EnumerableElementType(t).Some? then
        ParseAggregate(ctx, st1, instance, EnumerableElementType(t).value, name, pos)
      else Fail(pos, UnknownIdentifier)
    else
      var e :-
        match FindPropertyOrField(ctx.schema, t, name, false)
          case None => ResolveMember(ctx, t, name, Some(instance), pos)
          case Some(member) => MemberNode(Some(instance), member);
      Ok((e, st1))
  }

  /**
   * ParseAggregate: the argument list is parsed with it standing for a
   * fresh unnamed parameter of the element type; the aggregate must be
   * the unique applicable IEnumerableSignatures method of the name.
   */
  function ParseAggregate(ctx: Context, st: PState, instance: Expr, elementType: ClrType, name: string, errorPos: int): (r: Parsed<Expr>)
    requires Valid(ctx, st)
    ensures r.Ok? ==> Valid(ctx, r.value.1) && Rem(ctx.text, r.value.1) < Rem(ctx.text, st)
    ensures r.Ok? ==> r.value.0.Call? && r.value.0.callee.declaringType == EnumerableType
    decreases Rem(ctx.text, st), 3
  {
    var param := ParamDecl("", elementType);
    var (args, st1) :- ParseArgumentList(ctx.(it := Some(param)), st);
    var f :- FindMethod(ctx.rt, SignatureGroups(IEnumerableSignatures, name), Some(args));
    FindMethodCount(ctx.rt, SignatureGroups(IEnumerableSignatures, name), Some(args));
    if f.count != 1 then Fail(errorPos, NoApplicableAggregate)
    else
      var call :- AggregateCall(instance, elementType, f.callee.value.name, param, f.args.value);
      Ok((call, st1))
  }

  /** ParseArgumentList: ( arguments ) or ( ). */
  function ParseArgumentList(ctx: Context, st: PState): (r: Parsed<seq<Expr>>)
    requires Valid(ctx, st)
    ensures r.Ok? ==> Valid(ctx, r.value.1) && Rem(ctx.text, r.value.1) < Rem(ctx.text, st)
    ensures st.token.id != OpenParen ==> r == Fail(st.token.pos, OpenParenExpected)
    decreases Rem(ctx.text, st), 2
  {
    if st.token.id != OpenParen then Fail(st.token.pos, OpenParenExpected)
    else
      var st1 :- NextTok(ctx, st);
      var none: seq<Expr> := [];
      var (args, st2) :- if st1.token.id != CloseParen then ParseArguments(ctx, st1) else Ok((none, st1));
      if st2.token.id != CloseParen then Fail(st2.token.pos, CloseParenOrCommaExpected)
      else
        var st3 :- NextTok(ctx, st2);
        Ok((args, st3))
  }

  /** ParseArguments: one or more expressions separated by commas. */
  function ParseArguments(ctx: Context, st: PState): (r: Parsed<seq<Expr>>)
    requires Valid(ctx, st)
    ensures r.Ok? ==> Valid(ctx, r.value.1) && Rem(ctx.text, r.value.1) < Rem(ctx.text, st)
    ensures r.Ok? ==> |r.value.0| >= 1
    decreases Rem(ctx.text, st), 21
  {
    var (e, st1) :- ParseExpression(ctx, st);
    if st1.token.id != Comma then Ok(([e], st1))
    else
      var st2 :- NextTok(ctx, st1);
      var (rest, st3) :- ParseArguments(ctx, st2);
      Ok(([e] + rest, st3))
  }

  /** ParseElementAccess: [ arguments ] after an expression. */
  function ParseElementAccess(ctx: Context, st: PState, e: Expr): (r: Parsed<Expr>)
    requires Valid(ctx, st)
    ensures r.Ok? ==> Valid(ctx, r.value.1) && Rem(ctx.text, r.value.1) < Rem(ctx.text, st)
    decreases Rem(ctx.text, st), 3
  {
    var pos := st.token.pos;
    if st.token.id != OpenBracket then Fail(pos, OpenParenExpected)
    else
      var st1 :- NextTok(ctx, st);
      var (args, st2) :- ParseArguments(ctx, st1);
      if st2.token.id != CloseBracket then Fail(st2.token.pos, CloseBracketOrCommaExpected)
      else
        var st3 :- NextTok(ctx, st2);
        var node :- ElementAccessNode(ctx, e, args, pos);
        Ok((node, st3))
  }

  /** ParseParenExpression: ( expression ). */
  function ParseParenExpression(ctx: Context, st: PState): (r: Parsed<Expr>)
    requires Valid(ctx, st)
    ensures r.Ok? ==> Valid(ctx, r.value.1) && Rem(ctx.text, r.value.1) < Rem(ctx.text, st)
    decreases Rem(ctx.text, st), 2
  {
    if st.token.id != OpenParen then Fail(st.token.pos, OpenParenExpected)
    else
      var st1 :- NextTok(ctx, st);
      var (e, st2) :- ParseExpression(ctx, st1);
      if st2.token.id != CloseParen then Fail(st2.token.pos, CloseParenOrOperatorExpected)
      else
        var st3 :- NextTok(ctx, st2);
        Ok((e, st3))
  }

  // ---------------------------------------------------------------------------
  // Entry points

  /**
   * Parse: an expression that must make up the whole text; with a result
   * type it is promoted exactly to that type, and one that does not
   * promote is a type mismatch at the start of the expression.
   */
  function Parse(ctx: Context, st: PState, resultType: Option<ClrType>): (r: Result<Expr>)
    requires Valid(ctx, st)
    ensures r.Ok? ==> ParseExpression(ctx, st).Ok? && ParseExpression(ctx, st).value.1.token.id == End
    ensures r.Ok? && resultType.None? ==> r.value == ParseExpression(ctx, st).value.0
    ensures r.Ok? && resultType.Some? ==>
      && TypeOf(r.value) == resultType.value
      && PromoteExpression(ctx.rt, ParseExpression(ctx, st).value.0, resultType.value, true) == Ok(Some(r.value))
    ensures (&& ParseExpression(ctx, st).Ok? && resultType.Some?
             && PromoteExpression(ctx.rt, ParseExpression(ctx, st).value.0, resultType.value, true) == Ok(None)) ==>
      r == Fail(st.token.pos, ExpressionTypeMismatch)
  {
    var (e, st1) :- ParseExpression(ctx, st);
    var result :- if resultType.None? then Ok(e) else PromoteToResult(ctx.rt, e, resultType.value, st.token.pos);
    if st1.token.id != End then Fail(st1.token.pos, SyntaxError)
    else Ok(result)
  }

  /** The exact promotion of a parsed expression to the requested result type. */
  function PromoteToResult(rt: Runtime, e: Expr, t: ClrType, pos: int): (r: Result<Expr>)
    ensures r.Ok? ==> TypeOf(r.value) == t && PromoteExpression(rt, e, t, true) == Ok(Some(r.value))
    ensures PromoteExpression(rt, e, t, true) == Ok(None) ==> r == Fail(pos, ExpressionTypeMismatch)
  {
    var promoted :- PromoteExpression(rt, e, t, true);
    if promoted.None? then Fail(pos, ExpressionTypeMismatch)
    else
      ExactPromotionHasTheType(rt, e, t);
      Ok(promoted.value)
  }

  /** DynamicOrdering: a key selector and its direction. */
  datatype Ordering = Ordering(selector: Expr, ascending: bool)

  /** The optional direction word after an ordering key: asc and ascending keep it ascending, desc and descending make it descending. */
  function OrderingDirection(ctx: Context, st: PState): (r: Result<(bool, PState)>)
    requires Valid(ctx, st)
    ensures r.Ok? ==> Valid(ctx, r.value.1) && Rem(ctx.text, r.value.1) <= Rem(ctx.text, st)
    ensures r.Ok? ==> (r.value.0 <==> !(TokenIdentifierIs(st, "desc") || TokenIdentifierIs(st, "descending")))
    ensures !IsDirectionWord(st) ==> r == Ok((true, st))
  {
    if TokenIdentifierIs(st, "asc") || TokenIdentifierIs(st, "ascending") then
      var st1 :- NextTok(ctx, st);
      Ok((true, st1))
    else if TokenIdentifierIs(st, "desc") || TokenIdentifierIs(st, "descending") then
      var st1 :- NextTok(ctx, st);
      Ok((false, st1))
    else Ok((true, st))
  }

  predicate IsDirectionWord(st: PState)
  {
    TokenIdentifierIs(st, "asc") || TokenIdentifierIs(st, "ascending")
    || TokenIdentifierIs(st, "desc") || TokenIdentifierIs(st, "descending")
  }

  /**
   * The loop of ParseOrdering: a key and its direction, then either a
   * comma and more keys, or the end of the text.
   */
  function ParseOrderingFrom(ctx: Context, st: PState): (r: Parsed<seq<Ordering>>)
    requires Valid(ctx, st)
    ensures r.Ok? ==> |r.value.0| >= 1 && r.value.1.token.id == End
    decreases Rem(ctx.text, st)
  {
    var (selector, st1) :- ParseExpression(ctx, st);
    var (ascending, st2) :- OrderingDirection(ctx, st1);
    if st2.token.id != Comma then
      if st2.token.id != End then Fail(st2.token.pos, SyntaxError)
      else Ok(([Ordering(selector, ascending)], st2))
    else
      var st3 :- NextTok(ctx, st2);
      var (rest, st4) :- ParseOrderingFrom(ctx, st3);
      Ok(([Ordering(selector, ascending)] + rest, st4))
  }

  /** ParseOrdering: the keys of an ordering list, which must make up the whole text. */
  function ParseOrdering(ctx: Context, st: PState): (r: Result<seq<Ordering>>)
    requires Valid(ctx, st)
    ensures r.Ok? ==> |r.value| >= 1
    ensures r.Ok? <==> ParseOrderingFrom(ctx, st).Ok?
  {
    var (orderings, _) :- ParseOrderingFrom(ctx, st);
    Ok(orderings)
  }

  /**
   * The orderings in text order: the first is the first key with the
   * direction written after it (ascending unless desc or descending), and
   * when there are more, a comma follows and they are the ordering list of
   * the rest of the text; a single ordering ends the text.
   */
  lemma {:induction false} OrderingTerms(ctx: Context, st: PState)
    requires Valid(ctx, st) && ParseOrderingFrom(ctx, st).Ok?
    ensures var list := ParseOrderingFrom(ctx, st).value.0;
      var e := ParseExpression(ctx, st);
      && e.Ok? && list[0].selector == e.value.0
      && (list[0].ascending <==> !(TokenIdentifierIs(e.value.1, "desc") || TokenIdentifierIs(e.value.1, "descending")))
      && var d := OrderingDirection(ctx, e.value.1);
         && d.Ok?
         && (|list| == 1 <==> d.value.1.token.id == End)
         && (|list| > 1 ==>
               && d.value.1.token.id == Comma && NextTok(ctx, d.value.1).Ok?
               && ParseOrderingFrom(ctx, NextTok(ctx, d.value.1).value).Ok?
               && list[1..] == ParseOrderingFrom(ctx, NextTok(ctx, d.value.1).value).value.0)
  {
    var e := ParseExpression(ctx, st);
    var d := OrderingDirection(ctx, e.value.1);
    var st2 := d.value.1;
    if st2.token.id == Comma {
      var st3 := NextTok(ctx, st2).value;
      var rest := ParseOrderingFrom(ctx, st3).value.0;
      assert ParseOrderingFrom(ctx, st).value.0 == [Ordering(e.value.0, d.value.0)] + rest;
    }
  }

  // ---------------------------------------------------------------------------
  // Construction

  /**
   * ProcessParameters: the named parameters become symbols, in order, a
   * name repeated (ignoring case) being a duplicate-identifier error; a
   * single unnamed parameter becomes it.
   */
  function ProcessParameters(ps: seq<ParamDecl>): (r: Result<(seq<ParamDecl>, Option<ParamDecl>)>)
    ensures r.Ok? ==> r.value.0 == NamedParameters(ps)
    ensures r.Ok? ==> forall i, j :: 0 <= i < j < |r.value.0| ==> !EqualsIgnoreCase(r.value.0[i].name, r.value.0[j].name)
    ensures r.Ok? ==> r.value.1 == (if |ps| == 1 && ps[0].name == "" then Some(ps[0]) else None)
    ensures r.Err? ==> r.error == ParseError(0, DuplicateIdentifier)
  {
    var symbols :- AddSymbols([], ps);
    Ok((symbols, if |ps| == 1 && ps[0].name == "" then Some(ps[0]) else None))
  }

  /** Whether no two symbols share a name, ignoring case. */
  predicate DistinctNames(symbols: seq<ParamDecl>)
  {
    forall i, j :: 0 <= i < j < |symbols| ==> !EqualsIgnoreCase(symbols[i].name, symbols[j].name)
  }

  /** The AddSymbol loop of ProcessParameters from a table of symbols already added. */
  function AddSymbols(symbols: seq<ParamDecl>, ps: seq<ParamDecl>): (r: Result<seq<ParamDecl>>)
    requires DistinctNames(symbols)
    ensures r.Ok? ==> r.value == symbols + NamedParameters(ps) && DistinctNames(r.value)
    ensures r.Err? ==> r.error == ParseError(0, DuplicateIdentifier)
    decreases |ps|
  {
    if ps == [] then
      assert symbols + NamedParameters(ps) == symbols;
      Ok(symbols)
    else if ps[0].name == "" then
      assert NamedParameters(ps) == NamedParameters(ps[1..]);
      AddSymbols(symbols, ps[1..])
    else if FirstIndex(symbols, SymbolNamed(ps[0].name)).Some? then Fail(0, DuplicateIdentifier)
    else
      var added := symbols + [ps[0]];
      AddDistinctName(symbols, ps[0]);
      var r := AddSymbols(added, ps[1..]);
      assert NamedParameters(ps) == [ps[0]] + NamedParameters(ps[1..]);
      AppendAssociates(symbols, [ps[0]], NamedParameters(ps[1..]));
      r
  }

  /** The parameters that have a name, in order. */
  function NamedParameters(ps: seq<ParamDecl>): (r: seq<ParamDecl>)
    ensures forall p :: p in r <==> p in ps && p.name != ""
  {
    if ps == [] then []
    else (if ps[0].name != "" then [ps[0]] else []) + NamedParameters(ps[1..])
  }

  /** A symbol whose name no symbol already has keeps the names distinct. */
  lemma AddDistinctName(symbols: seq<ParamDecl>, p: ParamDecl)
    requires DistinctNames(symbols) && FirstIndex(symbols, SymbolNamed(p.name)).None?
    ensures DistinctNames(symbols + [p])
  {
    var added := symbols + [p];
    forall i, j | 0 <= i < j < |added| ensures !EqualsIgnoreCase(added[i].name, added[j].name) {
      if j == |symbols| {
        assert !SymbolNamed(p.name)(symbols[i]);
        EqualsIgnoreCaseIsEquivalence(added[i].name, p.name, p.name);
      }
    }
  }

  /**
   * The ExpressionParser constructor: a missing expression is an
   * argument-null error; the parameters (if any) give the symbols and it;
   * scanning starts at offset 0 with the first token read.
   */
  function StartParser(parameters: Option<seq<ParamDecl>>, expression: Option<string>, cc: CharClasses, rt: Runtime,
                       schema: Schema, resolver: Option<Resolver>): (r: Result<(Context, PState)>)
    ensures expression.None? ==> r == Err(ArgumentNull("expression"))
    ensures r.Ok? ==> Valid(r.value.0, r.value.1) && expression == Some(r.value.0.text)
    ensures r.Ok? ==> ScanToken(cc, expression.value, 0) == Ok((r.value.1.token, r.value.1.pos))
    ensures r.Ok? && parameters.None? ==> r.value.0.symbols == [] && r.value.0.it.None?
    ensures r.Ok? && parameters.Some? ==> ProcessParameters(parameters.value) == Ok((r.value.0.symbols, r.value.0.it))
  {
    if expression.None? then Err(ArgumentNull("expression"))
    else
      var (symbols, it) :- if parameters.None? then Ok(([], None)) else ProcessParameters(parameters.value);
      var ctx := Context(expression.value, cc, rt, schema, symbols, it, resolver);
      var st :- NextTok(ctx, PState(0, Token(Unknown, "", 0)));
      Ok((ctx, st))
  }

  // ---------------------------------------------------------------------------
  // Properties of the grammar

  /**
   * The identifier x (in either case) is the binary-literal keyword, even
   * when a parameter or a member has that name, and a binary literal never
   * yields a value: x can never be parsed.
   */
  lemma XIsNeverAName(ctx: Context, st: PState)
    requires Valid(ctx, st) && st.token.id == Identifier && st.token.text in {"x", "X"}
    ensures ParseIdentifier(ctx, st).Err?
  {
    KeywordOfX(st.token.text);
    TypeKeywordFails(ctx, st, ByteArray);
  }

  /** A type keyword other than datetime never parses: only DateTime has a text constructor. */
  lemma TypeKeywordFails(ctx: Context, st: PState, t: ClrType)
    requires Valid(ctx, st) && st.token.id == Identifier
    requires KeywordOf(st.token.text) == Some(KeywordType(t)) && t != DateTime
    ensures ParseIdentifier(ctx, st).Err?
  {
    assert ParseIdentifier(ctx, st) == ParseTypeConstruction(ctx, st, t);
  }

  /** X, in either case, is the binary keyword: no earlier keyword has one letter. */
  lemma KeywordOfX(text: string)
    requires text == "x" || text == "X"
    ensures KeywordOf(text) == Some(KeywordType(ByteArray))
  {
    assert Upper(text)[0] == UpperChar(text[0]) == 'X';
    assert Upper(text) == "X";
    assert Upper("X") == "X" by { assert Upper("X")[0] == UpperChar('X'); }
    assert EqualsIgnoreCase(text, "X");
    assert !EqualsIgnoreCase(text, "true") && !EqualsIgnoreCase(text, "false");
    assert !EqualsIgnoreCase(text, "null") && !EqualsIgnoreCase(text, "binary");
  }

  /**
   * A bare name that is no keyword, symbol or mapped function is a
   * member of it: the property or field the type of it declares under that
   * name (ignoring case).
   */
  lemma NameIsMemberOfIt(ctx: Context, st: PState, p: ParamDecl, m: MemberRef)
    requires Valid(ctx, st) && st.token.id == Identifier
    requires !(|st.token.text| > 1 && st.token.text[0] == '@')
    requires KeywordOf(st.token.text).None? && MapFunction(st.token.text).None?
    requires forall q :: q in ctx.symbols ==> !EqualsIgnoreCase(q.name, st.token.text)
    requires ctx.it == Some(p)
    requires FindPropertyOrField(ctx.schema, p.paramType, st.token.text, false) == Some(m)
    requires !m.isStatic && IsAssignableFrom(m.declaringType, p.paramType)
    requires NextTok(ctx, st).Ok? && NextTok(ctx, st).value.token.id != OpenParen
    ensures ParseIdentifier(ctx, st) == Ok((MemberAccess(Some(Parameter(p)), m), NextTok(ctx, st).value))
  {
    NoSymbolNamed(ctx.symbols, st.token.text);
    BareNameIsMemberAccess(ctx, st, p);
    PropertyOfIt(ctx, st, p, m);
  }

  /** A name naming an instance property or field of the type of it, on it. */
  lemma PropertyOfIt(ctx: Context, st: PState, p: ParamDecl, m: MemberRef)
    requires Valid(ctx, st) && st.token.id == Identifier
    requires !(|st.token.text| > 1 && st.token.text[0] == '@')
    requires FindPropertyOrField(ctx.schema, p.paramType, st.token.text, false) == Some(m)
    requires !m.isStatic && IsAssignableFrom(m.declaringType, p.paramType)
    requires NextTok(ctx, st).Ok? && NextTok(ctx, st).value.token.id != OpenParen
    ensures ParseMemberAccess(ctx, st, Parameter(p)) == Ok((MemberAccess(Some(Parameter(p)), m), NextTok(ctx, st).value))
  {
    assert TypeOf(Parameter(p)) == p.paramType;
    assert SuitsInstance(Some(Parameter(p)), m.declaringType, m.isStatic);
    PropertyAccess(ctx, st, Parameter(p), m);
  }

  /** No symbol is found under a name no symbol has, ignoring case. */
  lemma NoSymbolNamed(symbols: seq<ParamDecl>, name: string)
    requires forall q :: q in symbols ==> !EqualsIgnoreCase(q.name, name)
    ensures FirstIndex(symbols, SymbolNamed(name)).None?
  {
    forall j | 0 <= j < |symbols| ensures !SymbolNamed(name)(symbols[j]) {
      assert symbols[j] in symbols;
    }
  }

  /** A bare name that is no keyword, symbol or mapped function is parsed as a member access on it. */
  lemma BareNameIsMemberAccess(ctx: Context, st: PState, p: ParamDecl)
    requires Valid(ctx, st) && st.token.id == Identifier
    requires !(|st.token.text| > 1 && st.token.text[0] == '@')
    requires KeywordOf(st.token.text).None? && MapFunction(st.token.text).None?
    requires FirstIndex(ctx.symbols, SymbolNamed(st.token.text)).None?
    requires ctx.it == Some(p)
    ensures ParseIdentifier(ctx, st) == ParseMemberAccess(ctx, st, Parameter(p))
  {
  }

  /** A name after an instance, not followed by an argument list, that names a property or field of the instance's type. */
  lemma PropertyAccess(ctx: Context, st: PState, instance: Expr, m: MemberRef)
    requires Valid(ctx, st) && st.token.id == Identifier
    requires !(|st.token.text| > 1 && st.token.text[0] == '@')
    requires FindPropertyOrField(ctx.schema, TypeOf(instance), st.token.text, false) == Some(m)
    requires SuitsInstance(Some(instance), m.declaringType, m.isStatic)
    requires NextTok(ctx, st).Ok? && NextTok(ctx, st).value.token.id != OpenParen
    ensures ParseMemberAccess(ctx, st, instance) == Ok((MemberAccess(Some(instance), m), NextTok(ctx, st).value))
  {
  }
}
