/**
 * The CLR types the model reasons about, as a closed set: the built-in
 * value types, string and object, enumerations, Nullable<T>, arrays, the
 * generic sequence interfaces, delegate types, and named types that list
 * their own supertypes. Reflection questions (is it a value type, what is
 * its type code, is one type assignable from another) are answered from
 * the structure of the type.
 */
module ClrTypes {
  import opened Common

  /** The generic interfaces the query code walks: IEnumerable<T>, IQueryable<T>, IOrderedQueryable<T>. */
  datatype SequenceKind = IEnumerableOf | IQueryableOf | IOrderedQueryableOf

  datatype ClrType =
    | Boolean | Char | SByte | Byte | Int16 | UInt16 | Int32 | UInt32 | Int64 | UInt64 | IntPtr | UIntPtr
    | Single | Double | Decimal
    | String | DateTime | DateTimeOffset | TimeSpan | Guid
    | Object | Void
      /** An enumeration: its name, its underlying integral type and the names of its members. */
    | Enum(name: string, underlying: ClrType, members: seq<string>)
    | Nullable(underlyingType: ClrType)
    | ArrayOf(element: ClrType, rank: nat)
    | Sequence(kind: SequenceKind, elementType: ClrType)
      /** Func<T1, ..., TResult>: the parameter types followed by the result type. */
    | Func(typeArgs: seq<ClrType>)
      /** Expression<TDelegate>, the type of a quoted lambda. */
    | ExpressionOf(delegateType: ClrType)
      /** Any other type: a class, struct or interface with the supertypes it declares. */
    | Named(name: string, isValue: bool, isInterface: bool, supertypes: seq<ClrType>)

  /** byte[], the type of binary literals. */
  const ByteArray := ArrayOf(Byte, 1)

  /** The static classes whose methods the query code calls. */
  const MathType := Named("System.Math", false, false, [])
  const EnumerableType := Named("System.Linq.Enumerable", false, false, [])
  const QueryableType := Named("System.Linq.Queryable", false, false, [])

  /** Type.IsPrimitive. */
  predicate IsPrimitive(t: ClrType)
  {
    t.Boolean? || t.Char? || t.SByte? || t.Byte? || t.Int16? || t.UInt16? || t.Int32? || t.UInt32?
    || t.Int64? || t.UInt64? || t.IntPtr? || t.UIntPtr? || t.Single? || t.Double?
  }

  /** Type.IsValueType. */
  predicate IsValueType(t: ClrType)
  {
    IsPrimitive(t) || t.Decimal? || t.DateTime? || t.DateTimeOffset? || t.TimeSpan? || t.Guid?
    || t.Void? || t.Enum? || t.Nullable? || (t.Named? && t.isValue)
  }

  /** Type.IsEnum. */
  predicate IsEnum(t: ClrType)
  {
    t.Enum?
  }

  /** Nullable.GetUnderlyingType(t) != null. */
  predicate IsNullableType(t: ClrType)
  {
    t.Nullable?
  }

  /** The type itself, or T for Nullable<T>. */
  function GetNonNullableType(t: ClrType): (r: ClrType)
    ensures !IsNullableType(t) ==> r == t
    ensures IsNullableType(t) ==> r == t.underlyingType
  {
    if t.Nullable? then t.underlyingType else t
  }

  /** System.TypeCode. */
  datatype TypeCode =
    | EmptyCode | ObjectCode | DBNullCode | BooleanCode | CharCode | SByteCode | ByteCode | Int16Code | UInt16Code
    | Int32Code | UInt32Code | Int64Code | UInt64Code | SingleCode | DoubleCode | DecimalCode | DateTimeCode | StringCode

  /** Type.GetTypeCode: an enumeration reports the code of its underlying type. */
  function GetTypeCode(t: ClrType): (r: TypeCode)
    ensures t.Nullable? || t.Guid? || t.TimeSpan? || t.DateTimeOffset? || t.Object? ==> r == ObjectCode
    decreases t
  {
    match t
      case Boolean => BooleanCode
      case Char => CharCode
      case SByte => SByteCode
      case Byte => ByteCode
      case Int16 => Int16Code
      case UInt16 => UInt16Code
      case Int32 => Int32Code
      case UInt32 => UInt32Code
      case Int64 => Int64Code
      case UInt64 => UInt64Code
      case Single => SingleCode
      case Double => DoubleCode
      case Decimal => DecimalCode
      case DateTime => DateTimeCode
      case String => StringCode
      case Enum(_, underlying, _) => (if underlying.Enum? then ObjectCode else GetTypeCode(underlying))
      case _ => ObjectCode
  }

  /**
   * The element type T when t is, implements or derives from IEnumerable<T>
   * (FindGenericType(typeof(IEnumerable<>), t)); string is IEnumerable<char>.
   */
  function EnumerableElementType(t: ClrType): (r: Option<ClrType>)
    ensures t.Sequence? ==> r == Some(t.elementType)
    ensures t.ArrayOf? && t.rank == 1 ==> r == Some(t.element)
    ensures t.String? ==> r == Some(Char)
    ensures IsValueType(t) && !t.Named? ==> r.None?
    decreases t
  {
    match t
      case Sequence(_, e) => Some(e)
      case ArrayOf(e, rank) => if rank == 1 then Some(e) else None
      case String => Some(Char)
      case Named(_, _, _, supertypes) => FirstElementType(supertypes)
      case _ => None
  }

  /** The first supertype, depth first, that yields an element type. */
  function FirstElementType(supertypes: seq<ClrType>): (r: Option<ClrType>)
    decreases supertypes
  {
    if supertypes == [] then None
    else
      var first := EnumerableElementType(supertypes[0]);
      if first.Some? then first else FirstElementType(supertypes[1..])
  }

  /**
   * target.IsAssignableFrom(source): identity; anything into object; T into
   * Nullable<T>; sequences and one-dimensional arrays into the sequence
   * interfaces they implement (covariantly for reference element types);
   * and a named type into every supertype it declares, transitively.
   */
  predicate IsAssignableFrom(target: ClrType, source: ClrType)
    decreases source, target
  {
    if target == source || target.Object? then true
    else if target.Nullable? then target.underlyingType == source
    else match source
      case Sequence(kind, e) =>
        && target.Sequence? && KindImplements(kind, target.kind)
        && (target.elementType == e || (!IsValueType(e) && !IsValueType(target.elementType) && IsAssignableFrom(target.elementType, e)))
      case ArrayOf(e, rank) =>
        || (target.ArrayOf? && target.rank == rank && !IsValueType(e) && !IsValueType(target.element)
            && IsAssignableFrom(target.element, e))
        || (&& rank == 1 && target.Sequence? && target.kind.IEnumerableOf?
            && (target.elementType == e || (!IsValueType(e) && !IsValueType(target.elementType) && IsAssignableFrom(target.elementType, e))))
      case String =>
        target.Sequence? && target.kind.IEnumerableOf? && target.elementType.Char?
      case Named(_, _, _, supertypes) =>
        exists s :: s in supertypes && IsAssignableFrom(target, s)
      case _ => false
  }

  /** IOrderedQueryable<T> extends IQueryable<T>, which extends IEnumerable<T>. */
  predicate KindImplements(source: SequenceKind, target: SequenceKind)
  {
    source == target || target.IEnumerableOf? || (source.IOrderedQueryableOf? && target.IQueryableOf?)
  }

  /** Every type is assignable to itself and to object, and Nullable<T> accepts T. */
  lemma AssignableBasics(t: ClrType, u: ClrType)
    ensures IsAssignableFrom(t, t)
    ensures IsAssignableFrom(Object, t)
    ensures IsAssignableFrom(Nullable(t), t)
    ensures IsAssignableFrom(Sequence(IEnumerableOf, u), Sequence(IOrderedQueryableOf, u))
    ensures !IsValueType(t) && t != Object ==> !IsAssignableFrom(t, Int32)
  {
  }
}
