/**
 * Classification of parameter types (which types bind from simple route or
 * query values) and the typed filtering of attribute arrays.
 */
module TypeHelper {
  import opened Common
  import opened ClrTypes

  /**
   * A type that binds from a single string value: the primitives, string,
   * DateTime, decimal, Guid, DateTimeOffset and TimeSpan.
   */
  predicate IsSimpleType(t: ClrType)
  {
    IsPrimitive(t) || t.String? || t.DateTime? || t.Decimal? || t.Guid? || t.DateTimeOffset? || t.TimeSpan?
  }

  /** Nullable<T> is simple when T is; other types are tested as they are. */
  predicate IsNullableSimpleType(t: ClrType)
  {
    if t.Nullable? then IsSimpleType(t.underlyingType) else IsSimpleType(t)
  }

  /** The type is a Nullable<T>. */
  predicate IsTypeNullable(t: ClrType)
  {
    IsNullableType(t)
  }

  /**
   * Simple types are value types or string; enumerations, object, arrays,
   * the sequence interfaces, delegates and user-defined types never are,
   * and neither is Nullable<T> itself.
   */
  lemma SimpleTypesAreBuiltInScalars(t: ClrType)
    ensures IsSimpleType(t) ==> IsValueType(t) || t == String
    ensures t.Enum? || t.Object? || t.Void? || t.ArrayOf? || t.Sequence? || t.Func? || t.Named? || t.Nullable?
            ==> !IsSimpleType(t)
  {
  }

  /**
   * Every non-enumeration type whose type code is a specific one (not
   * Object, Empty or DBNull) is simple; the converse fails only for
   * IntPtr, UIntPtr, Guid, DateTimeOffset and TimeSpan.
   */
  lemma TypeCodeCharacterisation(t: ClrType)
    ensures !t.Enum? && GetTypeCode(t) !in {ObjectCode, EmptyCode, DBNullCode} ==> IsSimpleType(t)
    ensures IsSimpleType(t) && GetTypeCode(t) == ObjectCode
            <==> t in {IntPtr, UIntPtr, Guid, DateTimeOffset, TimeSpan}
  {
  }

  /** IsNullableSimpleType is IsSimpleType after removing one Nullable layer, and extends it. */
  lemma NullableSimpleUnwrapsOnce(t: ClrType)
    ensures IsNullableSimpleType(t) <==> IsSimpleType(GetNonNullableType(t))
    ensures IsSimpleType(t) ==> IsNullableSimpleType(t) && IsNullableSimpleType(Nullable(t))
    ensures IsTypeNullable(t) <==> GetNonNullableType(t) != t
  {
    if t.Nullable? {
      assert t.underlyingType < t;
    }
  }

  /** A runtime object: its runtime type and an identity distinguishing instances. */
  datatype Obj = Obj(runtimeType: ClrType, identity: nat)

  /** `o as T` succeeds: the object is non-null and its runtime type is assignable to T. */
  predicate IsInstanceOf(o: Option<Obj>, t: ClrType)
  {
    o.Some? && IsAssignableFrom(t, o.value.runtimeType)
  }

  /** The elements of `objects` that are instances of `t`, in order. */
  function InstancesOf(t: ClrType, objects: seq<Option<Obj>>): (r: seq<Obj>)
    ensures |r| <= |objects|
    ensures forall x :: x in r ==> IsAssignableFrom(t, x.runtimeType) && Some(x) in objects
    ensures forall i :: 0 <= i < |objects| && IsInstanceOf(objects[i], t) ==> objects[i].value in r
  {
    if objects == [] then []
    else
      var rest := InstancesOf(t, objects[1..]);
      assert forall i :: 1 <= i < |objects| ==> objects[i] == objects[1..][i - 1];
      if IsInstanceOf(objects[0], t) then [objects[0].value] + rest else rest
  }

  /** InstancesOf over a concatenation is the concatenation of the results. */
  lemma {:induction false} InstancesOfAppend(t: ClrType, a: seq<Option<Obj>>, b: seq<Option<Obj>>)
    ensures InstancesOf(t, a + b) == InstancesOf(t, a) + InstancesOf(t, b)
    decreases a
  {
    if a == [] {
      assert a + b == b;
    } else {
      assert (a + b)[1..] == a[1..] + b;
      InstancesOfAppend(t, a[1..], b);
    }
  }

  /** The instances keep their relative order: the result is a subsequence of the input. */
  lemma {:induction false} InstancesOfIsOrderedSubsequence(t: ClrType, objects: seq<Option<Obj>>)
    ensures IsSubsequence(InstancesOf(t, objects), objects)
    decreases objects
  {
    if objects != [] {
      InstancesOfIsOrderedSubsequence(t, objects[1..]);
    }
  }

  /** `sub` can be obtained from `s` by deleting elements (nulls included) and unwrapping the rest. */
  predicate IsSubsequence(sub: seq<Obj>, s: seq<Option<Obj>>)
    decreases s
  {
    if sub == [] then true
    else if s == [] then false
    else if s[0] == Some(sub[0]) then IsSubsequence(sub[1..], s[1..])
    else IsSubsequence(sub, s[1..])
  }

  /**
   * The typed copy of an attribute array: a single pass that appends every
   * element of reference type `t` (`where T : class`) to a new list.
   */
  method OfType(t: ClrType, objects: array<Option<Obj>>) returns (r: seq<Obj>)
    requires !IsValueType(t)
    ensures r == InstancesOf(t, objects[..])
  {
    var list: seq<Obj> := [];
    var itemCount := 0;
    for i := 0 to objects.Length
      invariant list == InstancesOf(t, objects[..i])
      invariant itemCount == |list|
    {
      assert objects[..i + 1] == objects[..i] + [objects[i]];
      InstancesOfAppend(t, objects[..i], [objects[i]]);
      if IsInstanceOf(objects[i], t) {
        list := list + [objects[i].value];
        itemCount := itemCount + 1;
      }
    }
    assert objects[..objects.Length] == objects[..];
    r := list;
  }
}
