/**
 * LINQ expression trees as the query compiler builds them, the queries
 * that carry them, and the factory checks the compiler relies on.
 * Reference identity of nodes is not modelled: two nodes are the same
 * when they are built from the same parts, except that a constant records
 * whether it came from a literal of the parsed text (the compiler keeps a
 * table of those, keyed by the node).
 */
module QueryExpressions {
  import opened Common
  import opened ClrTypes

  /** Where a constant node came from. */
  datatype Origin =
    | Built
      /** A numeric or string literal of the parsed text, with its text. */
    | Literal(text: string)
      /** The shared node of the keyword null. */
    | NullLiteral

  /** The data source behind a constant queryable. */
  datatype Source =
      /** An empty array of the element type, as a queryable (Array.CreateInstance(t, 0).AsQueryable()). */
    | EmptyArray(elementType: ClrType)
      /** The queryable an action returned. */
    | DataSource(id: nat, elementType: ClrType)

  /** The value of a constant node; the node's type says which CLR type holds it. */
  datatype Value =
    | NullValue
    | BoolValue(b: bool)
      /** A value of an integral or enumeration type. */
    | IntegerValue(n: int)
      /** A UTF-16 code unit. */
    | CharValue(code: int)
    | StringValue(s: string)
    | BytesValue(bytes: seq<int>)
      /** A floating-point, decimal, date, time or Guid value the runtime parsed from this text. */
    | HostValue(text: string)
      /** The enumeration member with this name. */
    | EnumMember(name: string)
      /** An IQueryable over a data source. */
    | SourceValue(source: Source)

  datatype BinaryOp =
    | Add | Subtract | Multiply | Divide | Modulo
    | Equal | NotEqual | LessThan | LessThanOrEqual | GreaterThan | GreaterThanOrEqual
    | AndAlso | OrElse

  datatype UnaryOp = Negate | Not

  /** A lambda parameter (ParameterExpression). */
  datatype ParamDecl = ParamDecl(name: string, paramType: ClrType)

  /** A property or field. */
  datatype MemberRef = MemberRef(declaringType: ClrType, name: string, memberType: ClrType, isProperty: bool, isStatic: bool)

  datatype ParameterInfo = ParameterInfo(parameterType: ClrType, isOut: bool)

  /** A method, with the type arguments it was instantiated with. */
  datatype MethodRef = MethodRef(declaringType: ClrType, name: string, typeArgs: seq<ClrType>,
                                 parameters: seq<ParameterInfo>, returnType: ClrType, isStatic: bool)

  datatype Expr =
    | Constant(value: Value, constType: ClrType, origin: Origin)
    | Parameter(decl: ParamDecl)
    | MemberAccess(instance: Option<Expr>, member: MemberRef)
    | Call(instance: Option<Expr>, callee: MethodRef, args: seq<Expr>)
    | Convert(operand: Expr, toType: ClrType)
    | Binary(op: BinaryOp, left: Expr, right: Expr, resultType: ClrType)
    | Unary(uop: UnaryOp, operand: Expr)
    | ArrayIndex(array: Expr, index: Expr, elementType: ClrType)
    | Lambda(parameters: seq<ParamDecl>, body: Expr, delegateType: ClrType)
    | Quote(lambda: Expr)

  /** Expression.Type. */
  function TypeOf(e: Expr): ClrType
  {
    match e
      case Constant(_, t, _) => t
      case Parameter(p) => p.paramType
      case MemberAccess(_, m) => m.memberType
      case Call(_, m, _) => m.returnType
      case Convert(_, t) => t
      case Binary(_, _, _, t) => t
      case Unary(_, x) => TypeOf(x)
      case ArrayIndex(_, _, t) => t
      case Lambda(_, _, t) => t
      case Quote(l) => ExpressionOf(TypeOf(l))
  }

  /** The parameter types of a method, in order. */
  function ParameterTypes(m: MethodRef): (r: seq<ClrType>)
    ensures |r| == |m.parameters|
    ensures forall i :: 0 <= i < |r| ==> r[i] == m.parameters[i].parameterType
  {
    seq(|m.parameters|, i requires 0 <= i < |m.parameters| => m.parameters[i].parameterType)
  }

  /** A constant node of the given type, not from a literal. */
  function Const(v: Value, t: ClrType): (r: Expr)
    ensures TypeOf(r) == t && r.Constant? && r.origin.Built?
  {
    Constant(v, t, Built)
  }

  /** The integral types, whose constants hold IntegerValue. */
  predicate IsIntegral(t: ClrType)
  {
    t.SByte? || t.Byte? || t.Int16? || t.UInt16? || t.Int32? || t.UInt32? || t.Int64? || t.UInt64?
  }

  /** The smallest and largest value of an integral type. */
  function MinValue(t: ClrType): int
    requires IsIntegral(t)
  {
    match t
      case SByte => -0x80
      case Int16 => -0x8000
      case Int32 => -0x8000_0000
      case Int64 => -0x8000_0000_0000_0000
      case _ => 0
  }

  function MaxValue(t: ClrType): int
    requires IsIntegral(t)
  {
    match t
      case SByte => 0x7F
      case Byte => 0xFF
      case Int16 => 0x7FFF
      case UInt16 => 0xFFFF
      case Int32 => 0x7FFF_FFFF
      case UInt32 => 0xFFFF_FFFF
      case Int64 => 0x7FFF_FFFF_FFFF_FFFF
      case _ => 0xFFFF_FFFF_FFFF_FFFF
  }

  /** Whether an integer is a value of an integral type. */
  predicate InRange(n: int, t: ClrType)
    requires IsIntegral(t)
  {
    MinValue(t) <= n <= MaxValue(t)
  }

  /** IQueryable<T>. */
  function QueryableOf(t: ClrType): (r: ClrType)
    ensures r.Sequence? && r.elementType == t
  {
    Sequence(IQueryableOf, t)
  }

  /**
   * The T of the IQueryable<T> a type is or implements (FindGenericType
   * over IQueryable<>), or none.
   */
  function QueryableElementType(t: ClrType): (r: Option<ClrType>)
    ensures t.Sequence? && !t.kind.IEnumerableOf? ==> r == Some(t.elementType)
    ensures t.Sequence? && t.kind.IEnumerableOf? ==> r.None?
    ensures !t.Sequence? && !t.Named? ==> r.None?
    decreases t
  {
    match t
      case Sequence(kind, e) => if kind.IEnumerableOf? then None else Some(e)
      case Named(_, _, _, supertypes) => FirstQueryableElementType(supertypes)
      case _ => None
  }

  /** The first supertype, depth first, that yields a queryable element type. */
  function FirstQueryableElementType(supertypes: seq<ClrType>): (r: Option<ClrType>)
    decreases supertypes
  {
    if supertypes == [] then None
    else
      var first := QueryableElementType(supertypes[0]);
      if first.Some? then first else FirstQueryableElementType(supertypes[1..])
  }

  /** An IQueryable's provider, by identity. */
  datatype Provider = Provider(id: nat)

  /** An IQueryable: its provider, its element type and its expression. */
  datatype Query = Query(provider: Provider, elementType: ClrType, expression: Expr)

  /** A query whose expression is a queryable of its element type, as every provider builds them. */
  predicate ValidQuery(q: Query)
  {
    QueryableElementType(TypeOf(q.expression)) == Some(q.elementType)
  }

  /**
   * IQueryProvider.CreateQuery(expression): a query over the expression,
   * whose element type is read off the expression's type; an expression
   * that is not a queryable is rejected.
   */
  function CreateQuery(provider: Provider, e: Expr): (r: Result<Query>)
    ensures r.Ok? <==> QueryableElementType(TypeOf(e)).Some?
    ensures r.Ok? ==> ValidQuery(r.value) && r.value.provider == provider && r.value.expression == e
    ensures r.Err? ==> r.error == Argument("expression")
  {
    match QueryableElementType(TypeOf(e))
      case Some(t) => Ok(Query(provider, t, e))
      case None => Err(Argument("expression"))
  }

  /** The queryable over a data source, as a constant node. */
  function SourceQuery(provider: Provider, source: Source): (r: Query)
    ensures ValidQuery(r) && r.elementType == source.elementType
    ensures r.expression == Const(SourceValue(source), QueryableOf(source.elementType))
  {
    Query(provider, source.elementType, Const(SourceValue(source), QueryableOf(source.elementType)))
  }

  /** A static method of System.Linq.Queryable taking a source and further arguments. */
  function QueryableMethod(name: string, typeArgs: seq<ClrType>, sourceType: ClrType, more: seq<ClrType>,
                           returnType: ClrType): (r: MethodRef)
    ensures r.declaringType == QueryableType && r.name == name && r.isStatic
    ensures |r.parameters| == 1 + |more| && r.parameters[0].parameterType == sourceType && r.returnType == returnType
  {
    var others := seq(|more|, i requires 0 <= i < |more| => ParameterInfo(more[i], false));
    MethodRef(QueryableType, name, typeArgs, [ParameterInfo(sourceType, false)] + others, returnType, true)
  }
}
