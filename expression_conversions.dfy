/**
 * The implicit-conversion rules of the expression parser: the numeric kind
 * of a type, which types an operand may be converted to, which of two
 * conversions is better, and the signature interfaces that list the
 * operand types each operator accepts.
 */
module ExpressionConversions {
  import opened Common
  import opened ClrTypes
  import opened QueryExpressions

  /** Nullable.GetUnderlyingType-aware Type.IsEnum. */
  predicate IsEnumType(t: ClrType)
  {
    GetNonNullableType(t).Enum?
  }

  /**
   * 1 for char and the floating-point and decimal types, 2 for the signed
   * integral types, 3 for the unsigned ones and 0 for everything else,
   * including enumerations; a nullable type has the kind of its underlying
   * type.
   */
  function GetNumericTypeKind(t: ClrType): (r: int)
    ensures 0 <= r <= 3
    ensures r == 2 <==> (var u := GetNonNullableType(t); u.SByte? || u.Int16? || u.Int32? || u.Int64?)
    ensures r == 3 <==> (var u := GetNonNullableType(t); u.Byte? || u.UInt16? || u.UInt32? || u.UInt64?)
    ensures r == 1 <==> (var u := GetNonNullableType(t); u.Char? || u.Single? || u.Double? || u.Decimal?)
  {
    var u := GetNonNullableType(t);
    if u.Enum? then 0
    else match GetTypeCode(u)
      case CharCode => 1
      case SingleCode => 1
      case DoubleCode => 1
      case DecimalCode => 1
      case SByteCode => 2
      case Int16Code => 2
      case Int32Code => 2
      case Int64Code => 2
      case ByteCode => 3
      case UInt16Code => 3
      case UInt32Code => 3
      case UInt64Code => 3
      case _ => 0
  }

  predicate IsSignedIntegralType(t: ClrType)
  {
    GetNumericTypeKind(t) == 2
  }

  predicate IsUnsignedIntegralType(t: ClrType)
  {
    GetNumericTypeKind(t) == 3
  }

  /** The widening table: the target type codes each numeric source type code converts to. */
  predicate Widens(from: TypeCode, to: TypeCode)
  {
    match from
      case SByteCode => to in {SByteCode, Int16Code, Int32Code, Int64Code, SingleCode, DoubleCode, DecimalCode}
      case ByteCode => to in {ByteCode, Int16Code, UInt16Code, Int32Code, UInt32Code, Int64Code, UInt64Code,
                               SingleCode, DoubleCode, DecimalCode}
      case Int16Code => to in {Int16Code, Int32Code, Int64Code, SingleCode, DoubleCode, DecimalCode}
      case UInt16Code => to in {UInt16Code, Int32Code, UInt32Code, Int64Code, UInt64Code, SingleCode, DoubleCode, DecimalCode}
      case Int32Code => to in {Int32Code, Int64Code, SingleCode, DoubleCode, DecimalCode}
      case UInt32Code => to in {UInt32Code, Int64Code, UInt64Code, SingleCode, DoubleCode, DecimalCode}
      case Int64Code => to in {Int64Code, SingleCode, DoubleCode, DecimalCode}
      case UInt64Code => to in {UInt64Code, SingleCode, DoubleCode, DecimalCode}
      case SingleCode => to in {SingleCode, DoubleCode}
      case _ => false
  }

  /** The type codes the widening table has a row for. */
  predicate HasWideningRow(code: TypeCode)
  {
    code in {SByteCode, ByteCode, Int16Code, UInt16Code, Int32Code, UInt32Code, Int64Code, UInt64Code, SingleCode}
  }

  /** The type code the conversion table looks at: enumerations count as Object. */
  function TableCode(t: ClrType): TypeCode
  {
    if t.Enum? then ObjectCode else GetTypeCode(t)
  }

  /**
   * Whether an operand of the source type may be implicitly converted to
   * the target type: identity; reference assignability for reference
   * targets; otherwise the widening table between the underlying types,
   * which a nullable source may use only towards a nullable target; types
   * without a row convert only to themselves (or their nullable form).
   */
  predicate IsCompatibleWith(source: ClrType, target: ClrType)
  {
    if source == target then true
    else if !IsValueType(target) then IsAssignableFrom(target, source)
    else
      var s := GetNonNullableType(source);
      var t := GetNonNullableType(target);
      if s == source || t != target then
        var code := TableCode(s);
        if HasWideningRow(code) then Widens(code, TableCode(t)) else s == t
      else false
  }

  /** Every type converts to itself. */
  lemma CompatibleIsReflexive(t: ClrType)
    ensures IsCompatibleWith(t, t)
  {
  }

  /** A nullable operand never converts to a non-nullable value type. */
  lemma NullableNeverToNonNullableValue(source: ClrType, target: ClrType)
    requires IsNullableType(source) && IsValueType(target) && !IsNullableType(target)
    ensures !IsCompatibleWith(source, target)
  {
  }

  /** int widens to long, float, double and decimal, and to no other non-nullable value type. */
  lemma Int32Widening(target: ClrType)
    requires IsValueType(target) && !IsNullableType(target) && !target.Enum? && !target.Named?
    ensures IsCompatibleWith(Int32, target) <==> target in {Int32, Int64, Single, Double, Decimal}
  {
  }

  /** A non-nullable operand converts to T? exactly when it converts to T. */
  lemma LiftedConversion(source: ClrType, target: ClrType)
    requires !IsNullableType(source) && !IsNullableType(target) && IsValueType(target) && source != Nullable(target)
    ensures IsCompatibleWith(source, Nullable(target)) <==> IsCompatibleWith(source, target)
  {
  }

  /** Types without a widening row (bool, char, double, decimal, DateTime, ...) convert only to themselves. */
  lemma NoRowMeansIdentity(source: ClrType, target: ClrType)
    requires !IsNullableType(source) && !IsNullableType(target) && IsValueType(target)
    requires !HasWideningRow(TableCode(source))
    ensures IsCompatibleWith(source, target) <==> source == target
  {
  }

  /**
   * Which of two parameter types is the better target for an argument of
   * type s: 1 for t1, -1 for t2, 0 for neither. An exact match wins, then
   * the type that converts to the other, then signed over unsigned.
   */
  function CompareConversions(s: ClrType, t1: ClrType, t2: ClrType): (r: int)
    ensures -1 <= r <= 1
    ensures t1 == t2 ==> r == 0
    ensures t1 != t2 && s == t1 ==> r == 1
    ensures t1 != t2 && s == t2 ==> r == -1
  {
    if t1 != t2 then
      if s == t1 then 1
      else if s == t2 then -1
      else
        var c12 := IsCompatibleWith(t1, t2);
        var c21 := IsCompatibleWith(t2, t1);
        if c12 && !c21 then 1
        else if c21 && !c12 then -1
        else if IsSignedIntegralType(t1) && IsUnsignedIntegralType(t2) then 1
        else if IsSignedIntegralType(t2) && IsUnsignedIntegralType(t1) then -1
        else 0
    else 0
  }

  /** Swapping the two candidates negates the comparison. */
  lemma CompareConversionsAntisymmetric(s: ClrType, t1: ClrType, t2: ClrType)
    ensures CompareConversions(s, t2, t1) == -CompareConversions(s, t1, t2)
  {
  }

  /** The interfaces whose methods F(...) list the operand types an operator accepts. */
  datatype SignatureInterface =
    | IArithmeticSignatures | IAddSignatures | ISubtractSignatures | IRelationalSignatures
    | IEqualitySignatures | ILogicalSignatures | INegationSignatures | INotSignatures | IEnumerableSignatures

  /** The interfaces each signature interface extends, in declaration order. */
  function BaseInterfaces(i: SignatureInterface): (r: seq<SignatureInterface>)
    ensures forall j :: j in r ==> Rank(j) < Rank(i)
  {
    match i
      case IAddSignatures => [IArithmeticSignatures]
      case ISubtractSignatures => [IAddSignatures, IArithmeticSignatures]
      case IRelationalSignatures => [IArithmeticSignatures]
      case IEqualitySignatures => [IRelationalSignatures, IArithmeticSignatures]
      case _ => []
  }

  /** The depth of an interface in the hierarchy, which bounds the interface walk. */
  function Rank(i: SignatureInterface): nat
  {
    match i
      case ISubtractSignatures => 2
      case IEqualitySignatures => 2
      case IAddSignatures => 1
      case IRelationalSignatures => 1
      case _ => 0
  }

  /** The CLR type of a signature interface. */
  function InterfaceType(i: SignatureInterface): ClrType
  {
    Named(match i
            case IArithmeticSignatures => "IArithmeticSignatures"
            case IAddSignatures => "IAddSignatures"
            case ISubtractSignatures => "ISubtractSignatures"
            case IRelationalSignatures => "IRelationalSignatures"
            case IEqualitySignatures => "IEqualitySignatures"
            case ILogicalSignatures => "ILogicalSignatures"
            case INegationSignatures => "INegationSignatures"
            case INotSignatures => "INotSignatures"
            case IEnumerableSignatures => "IEnumerableSignatures",
          false, true, [])
  }

  /**
   * AddInterface: the interface is appended unless already present, then
   * each interface it extends is added the same way, depth first.
   */
  function AddInterface(types: seq<SignatureInterface>, i: SignatureInterface): (r: seq<SignatureInterface>)
    ensures i in r
    ensures |types| <= |r| && r[..|types|] == types
    decreases Rank(i), 1
  {
    if i in types then types
    else
      var r := AddInterfaces(types + [i], BaseInterfaces(i), Rank(i));
      assert r[..|types| + 1][|types|] == i;
      r
  }

  /** AddInterface applied to each interface of a list in order. */
  function AddInterfaces(types: seq<SignatureInterface>, list: seq<SignatureInterface>, bound: nat): (r: seq<SignatureInterface>)
    requires forall j :: j in list ==> Rank(j) < bound
    ensures |types| <= |r| && r[..|types|] == types
    decreases bound, 0, |list|
  {
    if list == [] then types
    else
      var next := AddInterface(types, list[0]);
      var r := AddInterfaces(next, list[1..], bound);
      assert r[..|types|] == next[..|next|][..|types|];
      r
  }

  /** SelfAndBaseTypes of an interface: the interface walk from an empty list. */
  function SelfAndBaseInterfaces(i: SignatureInterface): (r: seq<SignatureInterface>)
    ensures |r| >= 1 && r[0] == i
  {
    var r := AddInterface([], i);
    assert r[..0] == [];
    if r[0] == i then r else AddInterfaceStartsWithItself(i); r
  }

  /** On an empty list the walk starts with the interface itself. */
  lemma AddInterfaceStartsWithItself(i: SignatureInterface)
    ensures |AddInterface([], i)| >= 1 && AddInterface([], i)[0] == i
  {
    var r := AddInterfaces([i], BaseInterfaces(i), Rank(i));
    assert r[..1] == [i];
  }

  /** The interface walks the operators use, in the order FindMethod searches them. */
  lemma InterfaceSearchOrder()
    ensures SelfAndBaseInterfaces(ISubtractSignatures) == [ISubtractSignatures, IAddSignatures, IArithmeticSignatures]
    ensures SelfAndBaseInterfaces(IEqualitySignatures) == [IEqualitySignatures, IRelationalSignatures, IArithmeticSignatures]
    ensures SelfAndBaseInterfaces(IAddSignatures) == [IAddSignatures, IArithmeticSignatures]
    ensures SelfAndBaseInterfaces(IRelationalSignatures) == [IRelationalSignatures, IArithmeticSignatures]
    ensures SelfAndBaseInterfaces(ILogicalSignatures) == [ILogicalSignatures]
  {
    WalkTwoBases(ISubtractSignatures, IAddSignatures, IArithmeticSignatures);
    WalkTwoBases(IEqualitySignatures, IRelationalSignatures, IArithmeticSignatures);
    WalkOneBase([], IAddSignatures, IArithmeticSignatures);
    WalkOneBase([], IRelationalSignatures, IArithmeticSignatures);
    WalkLeaf([], ILogicalSignatures);
  }

  /** An interface extending nothing is appended on its own. */
  lemma WalkLeaf(types: seq<SignatureInterface>, i: SignatureInterface)
    requires BaseInterfaces(i) == [] && i !in types
    ensures AddInterface(types, i) == types + [i]
  {
    assert AddInterfaces(types + [i], [], Rank(i)) == types + [i];
  }

  /** An interface extending one leaf is appended, then the leaf after it. */
  lemma WalkOneBase(types: seq<SignatureInterface>, i: SignatureInterface, base: SignatureInterface)
    requires BaseInterfaces(i) == [base] && BaseInterfaces(base) == []
    requires i !in types && base !in types && base != i
    ensures AddInterface(types, i) == types + [i, base]
  {
    var t := types + [i];
    WalkLeaf(t, base);
    assert [base][1..] == [];
    assert AddInterfaces(t + [base], [], Rank(i)) == t + [base];
    assert AddInterfaces(t, [base], Rank(i)) == t + [base];
    assert t + [base] == types + [i, base];
  }

  /**
   * An interface extending b1 then b2, where b1 itself extends b2: the
   * walk from an empty list through b1 already adds b2, so b2 is not
   * added twice.
   */
  lemma WalkTwoBases(i: SignatureInterface, b1: SignatureInterface, b2: SignatureInterface)
    requires BaseInterfaces(i) == [b1, b2] && BaseInterfaces(b1) == [b2] && BaseInterfaces(b2) == []
    ensures AddInterface([], i) == [i, b1, b2]
  {
    var t2 := [i, b1, b2];
    WalkAppendsThenBases([], i);
    assert [] + [i] == [i];
    AddInterfacesPair([i], b1, b2, Rank(i));
    WalkOneBase([i], b1, b2);
    assert [i] + [b1, b2] == t2;
    AddInterfacesSingle(t2, b2, Rank(i));
    AlreadyAdded(t2, b2);
  }

  /** A new interface is appended, then the interfaces it extends are walked. */
  lemma WalkAppendsThenBases(types: seq<SignatureInterface>, i: SignatureInterface)
    requires i !in types
    ensures AddInterface(types, i) == AddInterfaces(types + [i], BaseInterfaces(i), Rank(i))
  {
  }

  /** The walk over a list of one interface is the walk over that interface. */
  lemma AddInterfacesSingle(types: seq<SignatureInterface>, j: SignatureInterface, bound: nat)
    requires Rank(j) < bound
    ensures AddInterfaces(types, [j], bound) == AddInterface(types, j)
  {
    assert [j][1..] == [];
  }

  /** The walk over a list of two interfaces walks the first, then the second from there. */
  lemma AddInterfacesPair(types: seq<SignatureInterface>, j: SignatureInterface, k: SignatureInterface, bound: nat)
    requires Rank(j) < bound && Rank(k) < bound
    ensures AddInterfaces(types, [j, k], bound) == AddInterfaces(AddInterface(types, j), [k], bound)
  {
    assert [j, k][1..] == [k];
  }

  /** An interface already in the list is not added again. */
  lemma AlreadyAdded(types: seq<SignatureInterface>, j: SignatureInterface)
    requires j in types
    ensures AddInterface(types, j) == types
  {
  }

  /** One operator signature F(x) or F(x, y) declared on an interface. */
  function Signature(i: SignatureInterface, operands: seq<ClrType>): (r: MethodRef)
    ensures r.name == "F" && !r.isStatic && ParameterTypes(r) == operands
    ensures forall k :: 0 <= k < |r.parameters| ==> !r.parameters[k].isOut
  {
    MethodRef(InterfaceType(i), "F", [], seq(|operands|, k requires 0 <= k < |operands| => ParameterInfo(operands[k], false)), Void, false)
  }

  /** One aggregate signature of IEnumerableSignatures, such as Sum(int selector). */
  function Aggregate(name: string, operands: seq<ClrType>): (r: MethodRef)
    ensures r.name == name && !r.isStatic && ParameterTypes(r) == operands
    ensures forall k :: 0 <= k < |r.parameters| ==> !r.parameters[k].isOut
  {
    MethodRef(InterfaceType(IEnumerableSignatures), name, [], seq(|operands|, k requires 0 <= k < |operands| => ParameterInfo(operands[k], false)), Void, false)
  }

  function Pairs(i: SignatureInterface, types: seq<ClrType>): (r: seq<MethodRef>)
    ensures |r| == |types|
    ensures forall k :: 0 <= k < |r| ==> r[k] == Signature(i, [types[k], types[k]])
  {
    seq(|types|, k requires 0 <= k < |types| => Signature(i, [types[k], types[k]]))
  }

  function Singles(i: SignatureInterface, types: seq<ClrType>): (r: seq<MethodRef>)
    ensures |r| == |types|
    ensures forall k :: 0 <= k < |r| ==> r[k] == Signature(i, [types[k]])
  {
    seq(|types|, k requires 0 <= k < |types| => Signature(i, [types[k]]))
  }

  /** The methods each signature interface declares itself, in declaration order. */
  function DeclaredSignatures(i: SignatureInterface): seq<MethodRef>
  {
    match i
      case IArithmeticSignatures =>
        Pairs(i, [Decimal, Double, Int32, Nullable(Decimal), Nullable(Double), Int64, Nullable(Int32), Nullable(Int64),
                  Nullable(Single), Nullable(UInt32), Nullable(UInt64), Single, UInt32, UInt64])
      case IAddSignatures =>
        [Signature(i, [DateTime, TimeSpan]), Signature(i, [Nullable(DateTime), Nullable(TimeSpan)]),
         Signature(i, [Nullable(DateTimeOffset), Nullable(TimeSpan)]), Signature(i, [Nullable(TimeSpan), Nullable(TimeSpan)]),
         Signature(i, [DateTimeOffset, TimeSpan]), Signature(i, [TimeSpan, TimeSpan])]
      case ISubtractSignatures =>
        Pairs(i, [DateTime, Nullable(DateTime), DateTimeOffset, Nullable(DateTimeOffset)])
      case IRelationalSignatures =>
        Pairs(i, [Nullable(Char), Char, DateTime, Nullable(DateTime), Nullable(DateTimeOffset), Nullable(TimeSpan),
                  DateTimeOffset, String, TimeSpan])
      case IEqualitySignatures =>
        Pairs(i, [Boolean, Nullable(Boolean), Guid, Nullable(Guid)])
      case ILogicalSignatures =>
        Pairs(i, [Boolean, Nullable(Boolean)])
      case INegationSignatures =>
        Singles(i, [Decimal, Double, Int32, Nullable(Decimal), Int64, Nullable(Double), Nullable(Int32), Nullable(Int64),
                    Nullable(Single), Single])
      case INotSignatures =>
        Singles(i, [Boolean, Nullable(Boolean)])
      case IEnumerableSignatures =>
        [Aggregate("All", [Boolean]), Aggregate("Any", []), Aggregate("Any", [Boolean]),
         Aggregate("Average", [Nullable(Decimal)]), Aggregate("Average", [Decimal]), Aggregate("Average", [Double]),
         Aggregate("Average", [Nullable(Int64)]), Aggregate("Average", [Int32]), Aggregate("Average", [Nullable(Single)]),
         Aggregate("Average", [Int64]), Aggregate("Average", [Nullable(Double)]), Aggregate("Average", [Nullable(Int32)]),
         Aggregate("Average", [Single]), Aggregate("Count", []), Aggregate("Count", [Boolean]),
         Aggregate("Max", [Object]), Aggregate("Min", [Object]),
         Aggregate("Sum", [Nullable(Decimal)]), Aggregate("Sum", [Decimal]), Aggregate("Sum", [Nullable(Double)]),
         Aggregate("Sum", [Nullable(Int32)]), Aggregate("Sum", [Nullable(Int64)]), Aggregate("Sum", [Double]),
         Aggregate("Sum", [Int32]), Aggregate("Sum", [Int64]), Aggregate("Sum", [Nullable(Single)]),
         Aggregate("Sum", [Single]), Aggregate("Where", [Boolean])]
  }
}
