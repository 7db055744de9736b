/**
 * Type promotion and overload resolution of the expression parser: how an
 * expression is made to fit a parameter type (PromoteExpression), which
 * candidate methods accept a list of arguments (IsApplicable), which of
 * them is better (IsBetterThan over CompareConversions), and the search
 * through a type and its base types for the first group of methods that
 * yields a candidate (FindMethod). Operators are resolved the same way,
 * against the signature interfaces.
 */
module QueryPromotion {
  import opened Common
  import opened ClrTypes
  import opened QueryExpressions
  import opened ExpressionConversions
  import opened QueryLiterals

  /**
   * Reflection over the types an expression can mention: the types
   * SelfAndBaseTypes walks (the class chain, or the interface closure of an
   * interface), and the public members each type declares itself, static
   * or instance, in declaration order. Indexers are the getters of a
   * type's default-member properties.
   */
  datatype Schema = Schema(
    selfAndBaseTypes: ClrType -> seq<ClrType>,
    members: (ClrType, bool) -> seq<MemberRef>,
    methods: (ClrType, bool) -> seq<MethodRef>,
    indexers: ClrType -> seq<MethodRef>)

  // ---------------------------------------------------------------------------
  // PromoteExpression

  /** Whether an expression is a constant the parser registered as a literal of the text. */
  predicate IsLiteral(e: Expr)
  {
    e.Constant? && e.origin.Literal?
  }

  /** Whether an expression is the shared node of the keyword null. */
  predicate IsNullLiteral(e: Expr)
  {
    e.Constant? && e.origin.NullLiteral?
  }

  /**
   * Enum.Parse(enumType, text) on the text of an integer literal: the
   * number converted to the enumeration's underlying type, which fails
   * with an OverflowException when it does not fit. Text that is not a
   * number would be looked up as a member name and is rejected here.
   */
  function EnumParse(u: ClrType, text: string): (r: Result<Value>)
    requires u.Enum?
    ensures r.Ok? ==> r.value.IntegerValue? && ParseIntegerText(text, true, true) == Some(r.value.n)
    ensures r.Err? ==> r.error == Overflow || r.error == Argument("value")
  {
    match IntegralOfCode(GetTypeCode(u))
      case Some(t) =>
        (match ParseIntegerText(text, true, true)
           case Some(n) => if InRange(n, t) then Ok(IntegerValue(n)) else Err(Overflow)
           case None => Err(Argument("value")))
      case None => Err(Argument("value"))
  }

  /** Convert.ToChar of an integral value: a UTF-16 code unit, or an OverflowException. */
  function ToChar(v: Value): (r: Result<Value>)
    ensures r.Ok? ==> r.value.CharValue? && 0 <= r.value.code <= 0xFFFF && v == IntegerValue(r.value.code)
    ensures v.IntegerValue? && !(0 <= v.n <= 0xFFFF) ==> r == Err(Overflow)
  {
    match v
      case IntegerValue(n) => if 0 <= n <= 0xFFFF then Ok(CharValue(n)) else Err(Overflow)
      case _ => Err(InvalidCast)
  }

  /**
   * ParseEnum: the member of an enumeration whose name equals the text
   * ignoring case (the first one declared); none for other types.
   */
  function ParseEnum(name: string, t: ClrType): (r: Option<Value>)
    ensures r.Some? ==> t.Enum? && r.value.EnumMember? && r.value.name in t.members && EqualsIgnoreCase(r.value.name, name)
    ensures t.Enum? && (exists m :: m in t.members && EqualsIgnoreCase(m, name)) ==> r.Some?
  {
    if t.Enum? then
      match FirstIndex(t.members, m => EqualsIgnoreCase(m, name))
        case Some(i) => Some(EnumMember(t.members[i]))
        case None => None
    else None
  }

  /**
   * The value a literal takes when promoted to a type (or to T of
   * Nullable<T>), keyed by the literal's own type: an integer literal
   * becomes an enumeration value, a char or another numeric type read from
   * its text; a double literal becomes a decimal; a string literal names an
   * enumeration member. None when no such reading applies.
   */
  function LiteralValueFor(rt: Runtime, e: Expr, t: ClrType): (r: Result<Option<Value>>)
    requires IsLiteral(e)
    ensures r.Err? ==> r.error in {Overflow, Argument("value"), InvalidCast}
  {
    var u := GetNonNullableType(t);
    var text := e.origin.text;
    match GetTypeCode(e.constType)
      case Int32Code | UInt32Code | Int64Code | UInt64Code =>
        if u.Enum? then
          var v :- EnumParse(u, text);
          Ok(Some(v))
        else if u.Char? then
          var v :- ToChar(e.value);
          Ok(Some(v))
        else Ok(ParseNumber(rt, text, u))
      case DoubleCode => if u.Decimal? then Ok(ParseNumber(rt, text, u)) else Ok(None)
      case StringCode => Ok(ParseEnum(text, u))
      case _ => Ok(None)
  }

  /**
   * PromoteExpression: the expression made to fit the type, or none.
   * An expression of the type is kept; the null literal becomes a typed
   * null for reference and nullable types; a literal may be re-read as a
   * constant of the type; otherwise the type must be compatible, and the
   * expression is converted, except that a reference type target keeps
   * the expression itself unless the fit must be exact. Only re-reading a
   * literal can throw.
   */
  function PromoteExpression(rt: Runtime, e: Expr, t: ClrType, exact: bool): (r: Result<Option<Expr>>)
    ensures TypeOf(e) == t ==> r == Ok(Some(e))
    ensures r.Ok? && r.value.Some? ==> TypeOf(r.value.value) == t || (r.value.value == e && !IsValueType(t) && !exact)
    ensures r.Err? ==> IsLiteral(e) && r.error in {Overflow, Argument("value"), InvalidCast}
    ensures !IsLiteral(e) && !IsNullLiteral(e) && TypeOf(e) != t ==>
      r.Ok? && (r.value.Some? <==> IsCompatibleWith(TypeOf(e), t))
    ensures r.Ok? && r.value.Some? && !r.value.value.Constant? && r.value.value != e ==> r.value.value == Convert(e, t)
  {
    if TypeOf(e) == t then Ok(Some(e))
    else if IsNullLiteral(e) && (!IsValueType(t) || IsNullableType(t)) then Ok(Some(Constant(NullValue, t, Built)))
    else
      var literal :- if IsLiteral(e) then LiteralValueFor(rt, e, t) else Ok(None);
      if literal.Some? then Ok(Some(Constant(literal.value, t, Built)))
      else if !IsCompatibleWith(TypeOf(e), t) then Ok(None)
      else if !IsValueType(t) && !exact then Ok(Some(e))
      else Ok(Some(Convert(e, t)))
  }

  /** An exact promotion always has the requested type. */
  lemma ExactPromotionHasTheType(rt: Runtime, e: Expr, t: ClrType)
    requires PromoteExpression(rt, e, t, true).Ok? && PromoteExpression(rt, e, t, true).value.Some?
    ensures TypeOf(PromoteExpression(rt, e, t, true).value.value) == t
  {
  }

  /** The null literal promotes to a typed null exactly for reference and nullable types. */
  lemma NullLiteralPromotion(rt: Runtime, t: ClrType, exact: bool)
    requires t != Object
    ensures PromoteExpression(rt, Constant(NullValue, Object, NullLiteral), t, exact)
      == Ok(if !IsValueType(t) || IsNullableType(t) then Some(Constant(NullValue, t, Built)) else None)
  {
  }

  /** An integer literal re-read as a long keeps its value. */
  lemma IntLiteralToLong(rt: Runtime, n: int, pos: int)
    requires InRange(n, Int32)
    ensures PromoteExpression(rt, Constant(IntegerValue(n), Int32, Literal(IntegerText(n))), Int64, false)
      == Ok(Some(Constant(IntegerValue(n), Int64, Built)))
  {
    ParseNumberOfIntegerText(rt, n, Int64);
  }

  /** An integer literal outside the code units of char does not promote to char: an OverflowException. */
  lemma LargeLiteralToCharOverflows(rt: Runtime, n: int, text: string)
    requires InRange(n, Int32) && n > 0xFFFF
    ensures PromoteExpression(rt, Constant(IntegerValue(n), Int32, Literal(text)), Char, false) == Err(Overflow)
  {
  }

  // ---------------------------------------------------------------------------
  // IsApplicable

  /** A candidate method and the arguments promoted to its parameters (MethodData). */
  datatype Candidate = Candidate(callee: MethodRef, args: seq<Expr>)

  /**
   * The IsApplicable loop: each argument, in order, promoted (not
   * exactly) to its parameter's type; an out parameter or an argument
   * that does not promote ends it with none, and an exception from a
   * promotion ends it with that exception.
   */
  function PromoteArguments(rt: Runtime, ps: seq<ParameterInfo>, args: seq<Expr>): (r: Result<Option<seq<Expr>>>)
    requires |ps| == |args|
    ensures r.Ok? && r.value.Some? ==> |r.value.value| == |args|
    ensures r.Ok? && r.value.Some? ==> forall i :: 0 <= i < |args| ==>
      !ps[i].isOut && PromoteExpression(rt, args[i], ps[i].parameterType, false) == Ok(Some(r.value.value[i]))
    ensures r.Ok? && r.value.None? ==>
      exists i :: 0 <= i < |args| && (ps[i].isOut || PromoteExpression(rt, args[i], ps[i].parameterType, false) == Ok(None))
    ensures r.Err? ==> exists i :: 0 <= i < |args| && PromoteExpression(rt, args[i], ps[i].parameterType, false) == Err(r.error)
    decreases |args|
  {
    if args == [] then Ok(Some([]))
    else if ps[0].isOut then Ok(None)
    else
      var first :- PromoteExpression(rt, args[0], ps[0].parameterType, false);
      if first.None? then Ok(None)
      else
        var rest := PromoteArguments(rt, ps[1..], args[1..]);
        if rest.Err? then
          var k :| 0 <= k < |args[1..]| && PromoteExpression(rt, args[1..][k], ps[1..][k].parameterType, false) == Err(rest.error);
          assert PromoteExpression(rt, args[k + 1], ps[k + 1].parameterType, false) == Err(rest.error);
          Err(rest.error)
        else if rest.value.None? then
          var k :| 0 <= k < |args[1..]| &&
            (ps[1..][k].isOut || PromoteExpression(rt, args[1..][k], ps[1..][k].parameterType, false) == Ok(None));
          assert ps[k + 1].isOut || PromoteExpression(rt, args[k + 1], ps[k + 1].parameterType, false) == Ok(None);
          Ok(None)
        else
          var promoted := [first.value] + rest.value.value;
          assert forall i :: 1 <= i < |args| ==> promoted[i] == rest.value.value[i - 1] && args[i] == args[1..][i - 1] && ps[i] == ps[1..][i - 1];
          Ok(Some(promoted))
  }

  /**
   * IsApplicable: a method applies when it has as many parameters as
   * there are arguments and every argument promotes to its parameter; the
   * result is the promoted arguments. A null argument array throws.
   */
  function IsApplicable(rt: Runtime, m: MethodRef, args: Option<seq<Expr>>): (r: Result<Option<seq<Expr>>>)
    ensures args.None? ==> r == Err(NullReference)
    ensures args.Some? && |m.parameters| != |args.value| ==> r == Ok(None)
    ensures r.Ok? && r.value.Some? ==> args.Some? && |m.parameters| == |args.value| == |r.value.value|
  {
    match args
      case None => Err(NullReference)
      case Some(a) => if |m.parameters| != |a| then Ok(None) else PromoteArguments(rt, m.parameters, a)
  }

  /** A method whose parameter types are the argument types applies with the arguments unchanged. */
  lemma {:induction false} ExactArgumentsApply(rt: Runtime, m: MethodRef, args: seq<Expr>)
    requires |m.parameters| == |args|
    requires forall i :: 0 <= i < |args| ==> !m.parameters[i].isOut && m.parameters[i].parameterType == TypeOf(args[i])
    ensures IsApplicable(rt, m, Some(args)) == Ok(Some(args))
  {
    ExactArgumentsPromote(rt, m.parameters, args);
  }

  lemma {:induction false} ExactArgumentsPromote(rt: Runtime, ps: seq<ParameterInfo>, args: seq<Expr>)
    requires |ps| == |args|
    requires forall i :: 0 <= i < |args| ==> !ps[i].isOut && ps[i].parameterType == TypeOf(args[i])
    ensures PromoteArguments(rt, ps, args) == Ok(Some(args))
    decreases |args|
  {
    if args != [] {
      ExactArgumentsPromote(rt, ps[1..], args[1..]);
      assert [args[0]] + args[1..] == args;
    }
  }

  // ---------------------------------------------------------------------------
  // IsBetterThan

  /**
   * How the conversion of each argument to the first candidate's parameter
   * compares with its conversion to the second's (CompareConversions, one
   * entry per argument).
   */
  function Comparisons(argTypes: seq<ClrType>, p1: seq<ClrType>, p2: seq<ClrType>): (r: seq<int>)
    requires |p1| == |argTypes| && |p2| == |argTypes|
    ensures |r| == |argTypes|
    ensures forall k :: 0 <= k < |r| ==> r[k] == CompareConversions(argTypes[k], p1[k], p2[k])
  {
    seq(|argTypes|, k requires 0 <= k < |argTypes| => CompareConversions(argTypes[k], p1[k], p2[k]))
  }

  /** Swapping the candidates negates every comparison. */
  lemma ComparisonsSwap(argTypes: seq<ClrType>, p1: seq<ClrType>, p2: seq<ClrType>)
    requires |p1| == |argTypes| && |p2| == |argTypes|
    ensures forall k :: 0 <= k < |argTypes| ==> Comparisons(argTypes, p2, p1)[k] == -Comparisons(argTypes, p1, p2)[k]
  {
    forall k | 0 <= k < |argTypes|
      ensures Comparisons(argTypes, p2, p1)[k] == -Comparisons(argTypes, p1, p2)[k]
    {
      CompareConversionsAntisymmetric(argTypes[k], p1[k], p2[k]);
    }
  }

  /**
   * IsBetterThan as its loop runs: no argument position where the first
   * candidate's conversion is worse, and at least one where it is better.
   */
  predicate IsBetterThan(argTypes: seq<ClrType>, p1: seq<ClrType>, p2: seq<ClrType>)
    requires |p1| == |argTypes| && |p2| == |argTypes|
  {
    BetterFrom(Comparisons(argTypes, p1, p2), 0, false)
  }

  /** The loop from position i, with flag recording a strictly better position so far. */
  predicate BetterFrom(cmp: seq<int>, i: nat, flag: bool)
    requires i <= |cmp|
    decreases |cmp| - i
  {
    if i == |cmp| then flag
    else if cmp[i] < 0 then false
    else BetterFrom(cmp, i + 1, flag || cmp[i] > 0)
  }

  /** The loop agrees with its meaning: never worse, somewhere better. */
  lemma {:induction false} BetterFromMeaning(cmp: seq<int>, i: nat, flag: bool)
    requires i <= |cmp|
    ensures BetterFrom(cmp, i, flag) <==>
      (forall k :: i <= k < |cmp| ==> cmp[k] >= 0) && (flag || exists k :: i <= k < |cmp| && cmp[k] > 0)
    decreases |cmp| - i
  {
    if i < |cmp| {
      BetterFromMeaning(cmp, i + 1, flag || cmp[i] > 0);
    }
  }

  /** IsBetterThan means: never a worse conversion, and somewhere a better one. */
  lemma BetterThanMeaning(argTypes: seq<ClrType>, p1: seq<ClrType>, p2: seq<ClrType>)
    requires |p1| == |argTypes| && |p2| == |argTypes|
    ensures IsBetterThan(argTypes, p1, p2) <==>
      (forall k :: 0 <= k < |argTypes| ==> CompareConversions(argTypes[k], p1[k], p2[k]) >= 0)
      && (exists k :: 0 <= k < |argTypes| && CompareConversions(argTypes[k], p1[k], p2[k]) > 0)
  {
    BetterFromMeaning(Comparisons(argTypes, p1, p2), 0, false);
  }

  /** No candidate is better than another that is better than it. */
  lemma BetterIsAsymmetric(argTypes: seq<ClrType>, p1: seq<ClrType>, p2: seq<ClrType>)
    requires |p1| == |argTypes| && |p2| == |argTypes|
    ensures !(IsBetterThan(argTypes, p1, p2) && IsBetterThan(argTypes, p2, p1))
  {
    var c12 := Comparisons(argTypes, p1, p2);
    var c21 := Comparisons(argTypes, p2, p1);
    BetterFromMeaning(c12, 0, false);
    BetterFromMeaning(c21, 0, false);
    ComparisonsSwap(argTypes, p1, p2);
    if BetterFrom(c12, 0, false) {
      var k :| 0 <= k < |c12| && c12[k] > 0;
      assert c21[k] < 0;
    }
  }

  // ---------------------------------------------------------------------------
  // FindBestMethod

  /** The types of a list of expressions. */
  function TypesOf(args: seq<Expr>): (r: seq<ClrType>)
    ensures |r| == |args| && forall i :: 0 <= i < |args| ==> r[i] == TypeOf(args[i])
  {
    seq(|args|, i requires 0 <= i < |args| => TypeOf(args[i]))
  }

  /** The applicable candidates among the methods, in order; the first exception a check throws ends the search. */
  function Applicable(rt: Runtime, methods: seq<MethodRef>, args: Option<seq<Expr>>): (r: Result<seq<Candidate>>)
    ensures r.Ok? ==> forall c :: c in r.value ==> c.callee in methods && IsApplicable(rt, c.callee, args) == Ok(Some(c.args))
    ensures r.Ok? ==> forall m :: m in methods ==> IsApplicable(rt, m, args).Ok?
    ensures r.Ok? ==> forall m :: m in methods && IsApplicable(rt, m, args).value.Some? ==>
      Candidate(m, IsApplicable(rt, m, args).value.value) in r.value
    ensures r.Err? ==> exists m :: m in methods && IsApplicable(rt, m, args) == Err(r.error)
    ensures |methods| == 0 ==> r == Ok([])
    decreases |methods|
  {
    if methods == [] then Ok([])
    else
      var first :- IsApplicable(rt, methods[0], args);
      var rest :- Applicable(rt, methods[1..], args);
      Ok(if first.Some? then [Candidate(methods[0], first.value)] + rest else rest)
  }

  /** Whether every candidate takes as many arguments as there are. */
  predicate SameArity(cs: seq<Candidate>, n: nat)
  {
    forall c :: c in cs ==> |c.callee.parameters| == n
  }

  /**
   * better[i][j]: whether candidate i is better than candidate j for the
   * argument types (IsBetterThan on their parameter types). The relation
   * is asymmetric.
   */
  function BetterMatrix(argTypes: seq<ClrType>, cs: seq<Candidate>): (better: seq<seq<bool>>)
    requires SameArity(cs, |argTypes|)
    ensures IsSquare(better, |cs|) && IsAsymmetric(better)
    ensures forall i, j :: 0 <= i < |cs| && 0 <= j < |cs| ==>
      (better[i][j] <==> IsBetterThan(argTypes, ParameterTypes(cs[i].callee), ParameterTypes(cs[j].callee)))
  {
    var better := seq(|cs|, i requires 0 <= i < |cs| =>
      seq(|cs|, j requires 0 <= j < |cs| =>
        assert cs[i] in cs && cs[j] in cs;
        IsBetterThan(argTypes, ParameterTypes(cs[i].callee), ParameterTypes(cs[j].callee))));
    forall i, j | 0 <= i < |cs| && 0 <= j < |cs| && i != j
      ensures !(better[i][j] && better[j][i])
    {
      assert cs[i] in cs && cs[j] in cs;
      BetterIsAsymmetric(argTypes, ParameterTypes(cs[i].callee), ParameterTypes(cs[j].callee));
    }
    better
  }

  /** A relation on n candidates given as an n by n matrix. */
  predicate IsSquare(better: seq<seq<bool>>, n: nat)
  {
    |better| == n && forall i :: 0 <= i < n ==> |better[i]| == n
  }

  /** No two different candidates are each better than the other. */
  predicate IsAsymmetric(better: seq<seq<bool>>)
    requires IsSquare(better, |better|)
  {
    forall i, j :: 0 <= i < |better| && 0 <= j < |better| && i != j ==> !(better[i][j] && better[j][i])
  }

  /** Whether candidate i is better than every other candidate. */
  predicate IsBestAt(better: seq<seq<bool>>, i: nat)
    requires IsSquare(better, |better|) && i < |better|
  {
    forall j :: 0 <= j < |better| && j != i ==> better[i][j]
  }

  /** The positions from i on of the candidates better than every other, in order. */
  function BestFrom(better: seq<seq<bool>>, i: nat): (r: seq<nat>)
    requires IsSquare(better, |better|) && i <= |better|
    ensures forall x :: x in r ==> i <= x < |better| && IsBestAt(better, x)
    ensures forall k :: i <= k < |better| && IsBestAt(better, k) ==> k in r
    ensures r == [] <==> forall k :: i <= k < |better| ==> !IsBestAt(better, k)
    decreases |better| - i
  {
    if i == |better| then []
    else if IsBestAt(better, i) then [i] + BestFrom(better, i + 1)
    else BestFrom(better, i + 1)
  }

  /** Under an asymmetric relation, a candidate better than every other leaves no other such candidate. */
  lemma BestIsUnique(better: seq<seq<bool>>, i: nat)
    requires IsSquare(better, |better|) && IsAsymmetric(better) && i < |better| && IsBestAt(better, i)
    ensures forall k :: 0 <= k < |better| && k != i ==> !IsBestAt(better, k)
  {
    forall k | 0 <= k < |better| && k != i
      ensures !IsBestAt(better, k)
    {
      assert better[i][k] && !better[k][i];
    }
  }

  /** So at most one candidate is best, and the narrowing keeps at most one. */
  lemma {:induction false} BestFromAtMostOne(better: seq<seq<bool>>, i: nat)
    requires IsSquare(better, |better|) && IsAsymmetric(better) && i <= |better|
    ensures |BestFrom(better, i)| <= 1
    decreases |better| - i
  {
    if i < |better| {
      BestFromAtMostOne(better, i + 1);
      if IsBestAt(better, i) {
        BestIsUnique(better, i);
      }
    }
  }

  /** The result of a method search: how many candidates remained, the method when one did, and the arguments after it. */
  datatype Found = Found(count: nat, callee: Option<MethodRef>, args: Option<seq<Expr>>)

  /**
   * The candidates left after narrowing: all applicable ones, or when
   * several apply, those better than every other, of which there is at
   * most one.
   */
  function Narrowed(argTypes: seq<ClrType>, applicable: seq<Candidate>): (r: seq<Candidate>)
    requires SameArity(applicable, |argTypes|)
    ensures |applicable| <= 1 ==> r == applicable
    ensures |r| <= 1 && forall c :: c in r ==> c in applicable
    ensures |applicable| > 1 ==>
      (|r| == 1 <==> exists k :: 0 <= k < |applicable| && IsBestAt(BetterMatrix(argTypes, applicable), k))
    ensures |applicable| > 1 && |r| == 1 ==>
      exists k :: 0 <= k < |applicable| && IsBestAt(BetterMatrix(argTypes, applicable), k) && r[0] == applicable[k]
  {
    if |applicable| > 1 then
      var better := BetterMatrix(argTypes, applicable);
      var best := BestFrom(better, 0);
      BestFromAtMostOne(better, 0);
      if |best| == 1 then
        assert best[0] in best;
        [applicable[best[0]]]
      else
        assert forall k :: 0 <= k < |applicable| ==> !IsBestAt(better, k) by {
          forall k | 0 <= k < |applicable| && IsBestAt(better, k) ensures false {
          }
        }
        []
    else applicable
  }

  /**
   * FindBestMethod: the applicable candidates, narrowed when several
   * apply to those better than every other. When exactly one remains the
   * arguments become its promoted arguments; otherwise they are left alone
   * and no method is returned. The count is that of the candidates left.
   */
  function FindBestMethod(rt: Runtime, methods: seq<MethodRef>, args: Option<seq<Expr>>): (r: Result<Found>)
    ensures r.Ok? ==> r.value.count <= 1
    ensures r.Ok? && r.value.count == 1 ==>
      r.value.callee.Some? && r.value.callee.value in methods && args.Some?
      && IsApplicable(rt, r.value.callee.value, args) == Ok(r.value.args)
    ensures r.Ok? && r.value.count != 1 ==> r.value.callee.None? && r.value.args == args
    ensures |methods| == 0 ==> r == Ok(Found(0, None, args))
    ensures r.Err? ==> exists m :: m in methods && IsApplicable(rt, m, args) == Err(r.error)
  {
    var applicable :- Applicable(rt, methods, args);
    if applicable == [] then Ok(Found(0, None, args))
    else
      assert applicable[0] in applicable;
      var argTypes := TypesOf(args.value);
      var best := Narrowed(argTypes, applicable);
      if |best| == 1 then
        assert best[0] in applicable;
        Ok(Found(1, Some(best[0].callee), Some(best[0].args)))
      else Ok(Found(0, None, args))
  }

  /** With one applicable method, it is chosen and the arguments become its promoted ones. */
  lemma SingleApplicableIsChosen(rt: Runtime, methods: seq<MethodRef>, args: seq<Expr>, c: Candidate)
    requires Applicable(rt, methods, Some(args)) == Ok([c])
    ensures FindBestMethod(rt, methods, Some(args)) == Ok(Found(1, Some(c.callee), Some(c.args)))
  {
  }

  /**
   * With several applicable candidates, one is chosen exactly when it is
   * better than every other; when none is, nothing is chosen (an ambiguous
   * call counts as no applicable method).
   */
  lemma ChosenIsBetterThanTheRest(rt: Runtime, methods: seq<MethodRef>, args: seq<Expr>)
    requires Applicable(rt, methods, Some(args)).Ok? && |Applicable(rt, methods, Some(args)).value| > 1
    ensures var cs := Applicable(rt, methods, Some(args)).value;
      var f := FindBestMethod(rt, methods, Some(args));
      SameArity(cs, |args|) && f.Ok? &&
      (f.value.count == 1 <==> exists k :: 0 <= k < |cs| && IsBestAt(BetterMatrix(TypesOf(args), cs), k)) &&
      (f.value.count == 1 ==>
        exists k :: 0 <= k < |cs| && IsBestAt(BetterMatrix(TypesOf(args), cs), k)
          && f.value.callee == Some(cs[k].callee) && f.value.args == Some(cs[k].args))
  {
    var cs := Applicable(rt, methods, Some(args)).value;
    assert SameArity(cs, |args|);
  }

  // ---------------------------------------------------------------------------
  // FindMethod and the method groups it walks

  /** FindBestMethod on each group, in order. */
  function Searches(rt: Runtime, groups: seq<seq<MethodRef>>, args: Option<seq<Expr>>): (r: seq<Result<Found>>)
    ensures |r| == |groups|
    ensures forall k :: 0 <= k < |groups| ==> r[k] == FindBestMethod(rt, groups[k], args)
  {
    seq(|groups|, k requires 0 <= k < |groups| => FindBestMethod(rt, groups[k], args))
  }

  /**
   * FindMethod over the method groups of the types it walks, in order:
   * the result of the first group whose count is not zero, or a count of
   * zero with the arguments unchanged; an exception from a group ends the
   * walk.
   */
  function FindMethod(rt: Runtime, groups: seq<seq<MethodRef>>, args: Option<seq<Expr>>): (r: Result<Found>)
    ensures var searches := Searches(rt, groups, args);
      FirstMatch(searches, 0, r)
  {
    FirstFound(Searches(rt, groups, args), args, 0)
  }

  /**
   * What the walk returns from position i on: the first failure or
   * non-zero count, every earlier group having had a count of zero.
   */
  ghost predicate FirstMatch(searches: seq<Result<Found>>, i: nat, r: Result<Found>)
  {
    exists k :: FirstMatchAt(searches, i, k, r)
  }

  /** The walk stops at position k with result r. */
  predicate FirstMatchAt(searches: seq<Result<Found>>, i: nat, k: nat, r: Result<Found>)
  {
    && i <= k <= |searches|
    && (forall j :: i <= j < k ==> searches[j].Ok? && searches[j].value.count == 0)
    && (if k == |searches| then r.Ok? && r.value.count == 0 else r == searches[k] && (r.Err? || r.value.count != 0))
  }

  /** The walk of FindMethod from group i on. */
  function FirstFound(searches: seq<Result<Found>>, args: Option<seq<Expr>>, i: nat): (r: Result<Found>)
    requires i <= |searches|
    ensures FirstMatch(searches, i, r)
    ensures r.Ok? && r.value.count == 0 ==> r.value == Found(0, None, args)
    decreases |searches| - i
  {
    if i == |searches| then
      assert FirstMatchAt(searches, i, i, Ok(Found(0, None, args)));
      Ok(Found(0, None, args))
    else if searches[i].Err? || searches[i].value.count != 0 then
      assert FirstMatchAt(searches, i, i, searches[i]);
      searches[i]
    else
      var r := FirstFound(searches, args, i + 1);
      var k :| FirstMatchAt(searches, i + 1, k, r);
      assert FirstMatchAt(searches, i, k, r);
      r
  }

  /**
   * What FindMethod returns: the result of the first group whose search
   * throws or finds a method, every group before it having found none; or,
   * when no group finds one, a count of zero with the arguments unchanged.
   * The count is never more than one.
   */
  lemma FindMethodMeaning(rt: Runtime, groups: seq<seq<MethodRef>>, args: Option<seq<Expr>>)
    ensures var r := FindMethod(rt, groups, args);
      exists k :: 0 <= k <= |groups|
        && (forall j :: 0 <= j < k ==> FindBestMethod(rt, groups[j], args) == Ok(Found(0, None, args)))
        && (k < |groups| ==> r == FindBestMethod(rt, groups[k], args) && (r.Err? || r.value.count == 1))
        && (k == |groups| ==> r == Ok(Found(0, None, args)))
  {
    var searches := Searches(rt, groups, args);
    var r := FindMethod(rt, groups, args);
    var k :| FirstMatchAt(searches, 0, k, r);
    assert forall j :: 0 <= j < k ==> FindBestMethod(rt, groups[j], args) == Ok(Found(0, None, args));
    if k == |searches| {
      assert r == FirstFound(searches, args, 0);
    }
  }

  /** A search that succeeds finds at most one method, and with it the promoted arguments. */
  lemma FindMethodCount(rt: Runtime, groups: seq<seq<MethodRef>>, args: Option<seq<Expr>>)
    ensures var r := FindMethod(rt, groups, args);
      r.Ok? ==>
        && r.value.count <= 1
        && (r.value.count == 1 ==> r.value.callee.Some? && r.value.args.Some? && args.Some?)
        && (r.value.count != 1 ==> r.value.callee.None? && r.value.args == args)
  {
    FindMethodMeaning(rt, groups, args);
  }

  /** Whether a member name matches ignoring case (Type.FilterNameIgnoreCase). */
  predicate NameMatches(name: string, candidate: string)
  {
    EqualsIgnoreCase(candidate, name)
  }

  /** The filter that keeps the methods with a name. */
  function MethodNamed(name: string): MethodRef -> bool
  {
    (m: MethodRef) => NameMatches(name, m.name)
  }

  /** The filter that keeps the properties and fields with a name. */
  function MemberNamed(name: string): MemberRef -> bool
  {
    (m: MemberRef) => NameMatches(name, m.name)
  }

  /** The methods named (ignoring case) on each interface of a signature interface's walk, in walk order. */
  function SignatureGroups(i: SignatureInterface, name: string): (r: seq<seq<MethodRef>>)
    ensures |r| == |SelfAndBaseInterfaces(i)|
    ensures forall k :: 0 <= k < |r| ==> r[k] == Filter(DeclaredSignatures(SelfAndBaseInterfaces(i)[k]), MethodNamed(name))
  {
    var walk := SelfAndBaseInterfaces(i);
    seq(|walk|, k requires 0 <= k < |walk| => Filter(DeclaredSignatures(walk[k]), MethodNamed(name)))
  }

  /** The methods named (ignoring case), static or instance, declared on each type of a type's walk. */
  function TypeGroups(schema: Schema, t: ClrType, name: string, staticAccess: bool): (r: seq<seq<MethodRef>>)
    ensures |r| == |schema.selfAndBaseTypes(t)|
  {
    var walk := schema.selfAndBaseTypes(t);
    seq(|walk|, k requires 0 <= k < |walk| => Filter(schema.methods(walk[k], staticAccess), MethodNamed(name)))
  }

  /** The indexer getters declared on each type of a type's walk (FindIndexer). */
  function IndexerGroups(schema: Schema, t: ClrType): (r: seq<seq<MethodRef>>)
    ensures |r| == |schema.selfAndBaseTypes(t)|
  {
    var walk := schema.selfAndBaseTypes(t);
    seq(|walk|, k requires 0 <= k < |walk| => schema.indexers(walk[k]))
  }

  /**
   * FindPropertyOrField: on the first type of the walk that declares a
   * property or field with the name (ignoring case), static or instance
   * as asked, the first such member.
   */
  function FindPropertyOrField(schema: Schema, t: ClrType, name: string, staticAccess: bool): (r: Option<MemberRef>)
    ensures r.Some? ==> EqualsIgnoreCase(r.value.name, name)
    ensures r.Some? ==> exists u :: u in schema.selfAndBaseTypes(t) && r.value in schema.members(u, staticAccess)
  {
    FirstMember(schema, schema.selfAndBaseTypes(t), name, staticAccess)
  }

  function FirstMember(schema: Schema, walk: seq<ClrType>, name: string, staticAccess: bool): (r: Option<MemberRef>)
    ensures r.Some? ==> EqualsIgnoreCase(r.value.name, name)
    ensures r.Some? ==> exists u :: u in walk && r.value in schema.members(u, staticAccess)
    ensures r.None? ==> forall u, m :: u in walk && m in schema.members(u, staticAccess) ==> !EqualsIgnoreCase(m.name, name)
    decreases |walk|
  {
    if walk == [] then None
    else
      var declared := Filter(schema.members(walk[0], staticAccess), MemberNamed(name));
      if declared != [] then
        assert declared[0] in schema.members(walk[0], staticAccess);
        Some(declared[0])
      else
        var r := FirstMember(schema, walk[1..], name, staticAccess);
        assert forall m :: m in schema.members(walk[0], staticAccess) ==> !EqualsIgnoreCase(m.name, name) by {
          forall m | m in schema.members(walk[0], staticAccess) ensures !EqualsIgnoreCase(m.name, name) {
            FilterMembership(schema.members(walk[0], staticAccess), MemberNamed(name), m);
          }
        }
        if r.Some? then
          var u :| u in walk[1..] && r.value in schema.members(u, staticAccess);
          r
        else r
  }

  // ---------------------------------------------------------------------------
  // CheckAndPromoteOperand(s)

  /**
   * The operator search shared by CheckAndPromoteOperand(s): the operands
   * promoted by the unique applicable signature of the first group that
   * has one, or none when no group has exactly one.
   */
  function PromoteOperands(rt: Runtime, groups: seq<seq<MethodRef>>, operands: seq<Expr>): (r: Result<Option<seq<Expr>>>)
    ensures r.Ok? && r.value.Some? ==>
      exists k, m :: 0 <= k < |groups| && m in groups[k] && IsApplicable(rt, m, Some(operands)) == Ok(r.value)
    ensures r.Ok? && r.value.Some? ==> |r.value.value| == |operands|
    ensures r.Err? ==> exists k :: 0 <= k < |operands| && IsLiteral(operands[k])
  {
    var f := FindMethod(rt, groups, Some(operands));
    FindMethodMeaning(rt, groups, Some(operands));
    var k :| 0 <= k <= |groups|
      && (forall j :: 0 <= j < k ==> FindBestMethod(rt, groups[j], Some(operands)) == Ok(Found(0, None, Some(operands))))
      && (k < |groups| ==> f == FindBestMethod(rt, groups[k], Some(operands)) && (f.Err? || f.value.count == 1))
      && (k == |groups| ==> f == Ok(Found(0, None, Some(operands))));
    if f.Err? then
      var m :| m in groups[k] && IsApplicable(rt, m, Some(operands)) == Err(f.error);
      var i :| 0 <= i < |operands| && PromoteExpression(rt, operands[i], m.parameters[i].parameterType, false) == Err(f.error);
      Err(f.error)
    else if f.value.count != 1 then Ok(None)
    else Ok(f.value.args)
  }

  /**
   * CheckAndPromoteOperand: the operand promoted by the unique applicable
   * signature F(x) of the operator's signature interface; any other count
   * is an incompatible-operand error at the operator.
   */
  function CheckAndPromoteOperand(rt: Runtime, i: SignatureInterface, errorPos: int, operand: Expr): (r: Result<Expr>)
    ensures r.Ok? ==> PromoteOperands(rt, SignatureGroups(i, "F"), [operand]) == Ok(Some([r.value]))
    ensures r.Err? ==> r.error == ParseError(errorPos, IncompatibleOperand) || IsLiteral(operand)
  {
    PromoteSingle(PromoteOperands(rt, SignatureGroups(i, "F"), [operand]), [operand], errorPos)
  }

  /** The operand out of the operator search over one operand. */
  function PromoteSingle(promoted: Result<Option<seq<Expr>>>, operands: seq<Expr>, errorPos: int): (r: Result<Expr>)
    requires |operands| == 1
    requires promoted.Ok? && promoted.value.Some? ==> |promoted.value.value| == |operands|
    requires promoted.Err? ==> exists k :: 0 <= k < |operands| && IsLiteral(operands[k])
    ensures r.Ok? ==> promoted == Ok(Some([r.value]))
    ensures r.Err? ==> r.error == ParseError(errorPos, IncompatibleOperand) || IsLiteral(operands[0])
  {
    if promoted.Err? then Err(promoted.error)
    else if promoted.value.None? then Err(ParseError(errorPos, IncompatibleOperand))
    else
      var args := promoted.value.value;
      assert args == [args[0]];
      Ok(args[0])
  }

  /**
   * CheckAndPromoteOperands: both operands promoted by the unique
   * applicable signature F(x, y); any other count is an
   * incompatible-operands error at the operator.
   */
  function CheckAndPromoteOperands(rt: Runtime, i: SignatureInterface, errorPos: int, left: Expr, right: Expr): (r: Result<(Expr, Expr)>)
    ensures r.Ok? ==> PromoteOperands(rt, SignatureGroups(i, "F"), [left, right]) == Ok(Some([r.value.0, r.value.1]))
    ensures r.Err? ==> r.error == ParseError(errorPos, IncompatibleOperands) || IsLiteral(left) || IsLiteral(right)
  {
    PromotePair(PromoteOperands(rt, SignatureGroups(i, "F"), [left, right]), [left, right], errorPos)
  }

  /** The pair out of the operator search over two operands. */
  function PromotePair(promoted: Result<Option<seq<Expr>>>, operands: seq<Expr>, errorPos: int): (r: Result<(Expr, Expr)>)
    requires |operands| == 2
    requires promoted.Ok? && promoted.value.Some? ==> |promoted.value.value| == |operands|
    requires promoted.Err? ==> exists k :: 0 <= k < |operands| && IsLiteral(operands[k])
    ensures r.Ok? ==> promoted == Ok(Some([r.value.0, r.value.1]))
    ensures r.Err? ==> r.error == ParseError(errorPos, IncompatibleOperands) || IsLiteral(operands[0]) || IsLiteral(operands[1])
  {
    if promoted.Err? then
      var k :| 0 <= k < |operands| && IsLiteral(operands[k]);
      assert k == 0 || k == 1;
      Err(promoted.error)
    else if promoted.value.None? then Err(ParseError(errorPos, IncompatibleOperands))
    else
      var args := promoted.value.value;
      assert args == [args[0], args[1]];
      Ok((args[0], args[1]))
  }

  /**
   * A candidate whose parameter types are exactly the argument types is
   * better than every candidate with other parameter types: an exact
   * signature always wins.
   */
  lemma ExactMatchIsBest(argTypes: seq<ClrType>, cs: seq<Candidate>, i: nat)
    requires SameArity(cs, |argTypes|) && i < |cs|
    requires ParameterTypes(cs[i].callee) == argTypes
    requires forall j :: 0 <= j < |cs| && j != i ==> ParameterTypes(cs[j].callee) != argTypes
    ensures IsBestAt(BetterMatrix(argTypes, cs), i)
  {
    forall j | 0 <= j < |cs| && j != i
      ensures IsBetterThan(argTypes, argTypes, ParameterTypes(cs[j].callee))
    {
      var pj := ParameterTypes(cs[j].callee);
      assert cs[j] in cs;
      BetterThanMeaning(argTypes, argTypes, pj);
      var k :| 0 <= k < |argTypes| && pj[k] != argTypes[k];
      assert CompareConversions(argTypes[k], argTypes[k], pj[k]) > 0;
    }
  }
}
