/**
 * The query rebaser. A query built by the deserializer sits over a
 * placeholder source (a constant queryable, an empty array); composing it
 * onto the real query walks the placeholder query's tree and, at every
 * method call whose first argument is a constant queryable, rebuilds the
 * call with the real query's expression in that place. The result is
 * created through the real query's provider.
 */
module QueryComposer {
  import opened Common
  import opened ClrTypes
  import opened QueryExpressions
  import opened DynamicQueryable

  /** A constant whose value is a non-null IQueryable: the placeholder (or any other source) a call starts from. */
  predicate IsQueryableConstant(e: Expr)
  {
    e.Constant? && e.value.SourceValue?
  }

  /**
   * An argument fits a parameter when their types are reference-assignable:
   * the same type, or both reference types with the parameter's assignable
   * from the argument's.
   */
  predicate ArgumentFits(parameterType: ClrType, argument: Expr)
  {
    var t := TypeOf(argument);
    parameterType == t || (!IsValueType(parameterType) && !IsValueType(t) && IsAssignableFrom(parameterType, t))
  }

  /** Every argument fits the parameter in its position. */
  predicate ArgumentsFit(m: MethodRef, args: seq<Expr>)
    requires |args| == |m.parameters|
  {
    forall i :: 0 <= i < |args| ==> ArgumentFits(m.parameters[i].parameterType, args[i])
  }

  /**
   * Expression.Call(method, arguments) for a static call: an instance
   * method, a wrong number of arguments or an argument that does not fit
   * its parameter is an argument error.
   */
  function StaticCall(m: MethodRef, args: seq<Expr>): (r: Result<Expr>)
    ensures r.Ok? <==> m.isStatic && |args| == |m.parameters| && ArgumentsFit(m, args)
    ensures r.Ok? ==> r.value == Call(None, m, args) && TypeOf(r.value) == m.returnType
    ensures r.Err? ==> r.error == Argument("")
  {
    if !m.isStatic || |args| != |m.parameters| || !ArgumentsFit(m, args) then Err(Argument(""))
    else Ok(Call(None, m, args))
  }

  /**
   * Whether visiting the tree re-roots anything: some method call reached
   * by the visit has a constant queryable as its first argument. The visit
   * does not go below such a call.
   */
  predicate Reroots(e: Expr)
    decreases e
  {
    match e
      case Constant(_, _, _) => false
      case Parameter(_) => false
      case MemberAccess(instance, _) => instance.Some? && Reroots(instance.value)
      case Call(instance, _, args) =>
        || (|args| > 0 && IsQueryableConstant(args[0]))
        || (instance.Some? && Reroots(instance.value))
        || RerootsAny(args)
      case Convert(operand, _) => Reroots(operand)
      case Binary(_, left, right, _) => Reroots(left) || Reroots(right)
      case Unary(_, operand) => Reroots(operand)
      case ArrayIndex(a, index, _) => Reroots(a) || Reroots(index)
      case Lambda(_, body, _) => Reroots(body)
      case Quote(l) => Reroots(l)
  }

  /** Some expression of the list re-roots something. */
  predicate RerootsAny(es: seq<Expr>)
    decreases es
  {
    es != [] && (Reroots(es[0]) || RerootsAny(es[1..]))
  }

  /**
   * The visitor over the placeholder query's tree. A method call whose
   * first argument is a constant queryable becomes the static call of the
   * same method on root followed by the other arguments as they were (not
   * visited); every other node is rebuilt from its visited children, in
   * the order the expression visitor visits them (an instance before the
   * arguments). Rebuilding keeps every node's type.
   */
  function Rewrite(root: Expr, e: Expr): (r: Result<Expr>)
    ensures r.Ok? ==> TypeOf(r.value) == TypeOf(e)
    ensures r.Err? ==> r.error == Argument("")
    ensures !Reroots(e) ==> r == Ok(e)
    decreases e
  {
    match e
      case Constant(_, _, _) => Ok(e)
      case Parameter(_) => Ok(e)
      case MemberAccess(instance, member) =>
        var i :- RewriteOption(root, instance);
        Ok(MemberAccess(i, member))
      case Call(instance, m, args) =>
        if |args| > 0 && IsQueryableConstant(args[0]) then StaticCall(m, [root] + args[1..])
        else
          var i :- RewriteOption(root, instance);
          var a :- RewriteList(root, args);
          Ok(Call(i, m, a))
      case Convert(operand, t) =>
        var o :- Rewrite(root, operand);
        Ok(Convert(o, t))
      case Binary(op, left, right, t) =>
        var l :- Rewrite(root, left);
        var x :- Rewrite(root, right);
        Ok(Binary(op, l, x, t))
      case Unary(op, operand) =>
        var o :- Rewrite(root, operand);
        Ok(Unary(op, o))
      case ArrayIndex(a, index, t) =>
        var x :- Rewrite(root, a);
        var i :- Rewrite(root, index);
        Ok(ArrayIndex(x, i, t))
      case Lambda(ps, body, t) =>
        var b :- Rewrite(root, body);
        Ok(Expr.Lambda(ps, b, t))
      case Quote(l) =>
        var x :- Rewrite(root, l);
        Ok(Quote(x))
  }

  /** The visitor over an optional child (a call's or member's instance). */
  function RewriteOption(root: Expr, o: Option<Expr>): (r: Result<Option<Expr>>)
    ensures r.Ok? ==> (r.value.Some? <==> o.Some?) && (o.Some? ==> TypeOf(r.value.value) == TypeOf(o.value))
    ensures r.Err? ==> r.error == Argument("")
    ensures (o.None? || !Reroots(o.value)) ==> r == Ok(o)
    decreases o
  {
    match o
      case None => Ok(None)
      case Some(x) =>
        var y :- Rewrite(root, x);
        Ok(Some(y))
  }

  /** The visitor over a list of children, in order; the first failure stops it. */
  function RewriteList(root: Expr, es: seq<Expr>): (r: Result<seq<Expr>>)
    ensures r.Ok? ==> |r.value| == |es| && forall i :: 0 <= i < |es| ==> TypeOf(r.value[i]) == TypeOf(es[i])
    ensures r.Err? ==> r.error == Argument("")
    ensures !RerootsAny(es) ==> r == Ok(es)
    decreases es
  {
    if es == [] then Ok([])
    else
      assert es == [es[0]] + es[1..];
      var first :- Rewrite(root, es[0]);
      var rest :- RewriteList(root, es[1..]);
      Ok([first] + rest)
  }

  /**
   * Rebase: the placeholder query's tree visited with the source's
   * expression as root, made into a query by the source's provider. The
   * element type is read off the rewritten tree, whose type is the
   * placeholder query's, so a well-formed query keeps its element type.
   */
  function Rebase(source: Query, query: Query): (r: Result<Query>)
    ensures var e := Rewrite(source.expression, query.expression);
      && (e.Err? ==> r == Err(e.error))
      && (e.Ok? ==> r == CreateQuery(source.provider, e.value))
    ensures ValidQuery(query) ==> (r.Ok? <==> Rewrite(source.expression, query.expression).Ok?)
    ensures r.Ok? ==> ValidQuery(r.value) && r.value.provider == source.provider
    ensures r.Ok? && ValidQuery(query) ==> r.value.elementType == query.elementType
  {
    var e :- Rewrite(source.expression, query.expression);
    CreateQuery(source.provider, e)
  }

  /** Compose: the placeholder query rebased onto the source. */
  function Compose(source: Query, query: Query): (r: Result<Query>)
    ensures r == Rebase(source, query)
    ensures r.Ok? ==> r.value.provider == source.provider
  {
    Rebase(source, query)
  }

  // What rebasing does to a chain of calls over a placeholder

  /**
   * A chain of static calls over the placeholder p: each call's first
   * argument is the next call down, the innermost's is p itself, and no
   * other argument re-roots anything. The deserializer's Where, OrderBy,
   * ThenBy, Skip and Take calls over an empty-array placeholder have this
   * shape.
   */
  predicate ChainOver(e: Expr, p: Expr)
    decreases e
  {
    && e.Call? && e.instance.None? && |e.args| > 0
    && !RerootsAny(e.args[1..])
    && (e.args[0] == p || ChainOver(e.args[0], p))
  }

  /**
   * The chain with root grafted in place of its placeholder: the innermost
   * call made again, as a static call, on root, and every call above it
   * over the call below, its other arguments unchanged.
   */
  function Graft(e: Expr, p: Expr, root: Expr): (r: Result<Expr>)
    requires ChainOver(e, p)
    ensures r.Ok? ==> r.value.Call? && r.value.callee == e.callee && TypeOf(r.value) == TypeOf(e)
    decreases e
  {
    if e.args[0] == p then StaticCall(e.callee, [root] + e.args[1..])
    else
      var inner :- Graft(e.args[0], p, root);
      Ok(Call(None, e.callee, [inner] + e.args[1..]))
  }

  /**
   * Rebasing a chain over a constant queryable placeholder grafts the root
   * in place of the placeholder, and changes nothing else.
   */
  lemma {:induction false} RewriteOfChain(e: Expr, p: Expr, root: Expr)
    requires IsQueryableConstant(p) && ChainOver(e, p)
    ensures Rewrite(root, e) == Graft(e, p, root)
    decreases e
  {
    var args := e.args;
    if args[0] != p {
      RewriteOfChain(args[0], p, root);
      assert !IsQueryableConstant(args[0]);
      RewriteListSplit(root, args);
    }
  }

  /** Visiting a list whose tail re-roots nothing visits its head and keeps the tail. */
  lemma RewriteListSplit(root: Expr, es: seq<Expr>)
    requires |es| > 0 && !RerootsAny(es[1..])
    ensures var h := Rewrite(root, es[0]);
      RewriteList(root, es) == if h.Err? then Err(h.error) else Ok([h.value] + es[1..])
  {
  }

  /**
   * Rebasing is not idempotent: when the source's own expression is a call
   * over a constant queryable (here Take(5) over a data source), a second
   * rebase of the result re-roots that constant too, and the Take appears
   * twice.
   */
  lemma RebaseTwiceDiffers()
    ensures var data := SourceQuery(Provider(0), DataSource(0, Int32)).expression;
      var source := Query(Provider(0), Int32, IntPage("Take", data, 5));
      var placeholder := SourceQuery(Provider(1), EmptyArray(Int32)).expression;
      var once := Rebase(source, Query(Provider(1), Int32, IntPage("Skip", placeholder, 1)));
      && once == Ok(Query(Provider(0), Int32, IntPage("Skip", IntPage("Take", data, 5), 1)))
      && Rebase(source, once.value) == Ok(Query(Provider(0), Int32, IntPage("Skip", IntPage("Take", IntPage("Take", data, 5), 5), 1)))
      && Rebase(source, once.value) != once
  {
    var data := SourceQuery(Provider(0), DataSource(0, Int32)).expression;
    var root := IntPage("Take", data, 5);
    var source := Query(Provider(0), Int32, root);
    var placeholder := SourceQuery(Provider(1), EmptyArray(Int32)).expression;
    RerootIntPage("Skip", placeholder, root, 1);
    RebasedIntPage(source, Query(Provider(1), Int32, IntPage("Skip", placeholder, 1)), IntPage("Skip", root, 1));
    var once := Query(Provider(0), Int32, IntPage("Skip", root, 1));
    RerootIntPage("Take", data, root, 5);
    VisitIntPage("Skip", root, root, 1);
    RebasedIntPage(source, once, IntPage("Skip", IntPage("Take", root, 5), 1));
    assert IntPage("Take", root, 5) != root;
    assert IntPage("Skip", IntPage("Take", root, 5), 1).args[0] != once.expression.args[0];
  }

  /** A rebase whose rewritten expression is an int page is the query over that page, on the source's provider. */
  lemma RebasedIntPage(source: Query, query: Query, e: Expr)
    requires Rewrite(source.expression, query.expression) == Ok(e) && TypeOf(e) == QueryableOf(Int32)
    ensures Rebase(source, query) == Ok(Query(source.provider, Int32, e))
  {
    assert QueryableElementType(TypeOf(e)) == Some(Int32);
  }

  /** A Skip or Take of an int count directly over a constant queryable is re-rooted. */
  lemma RerootIntPage(name: string, c: Expr, root: Expr, n: int)
    requires IsQueryableConstant(c) && TypeOf(root) == QueryableOf(Int32)
    ensures Rewrite(root, IntPage(name, c, n)) == Ok(IntPage(name, root, n))
  {
    var e := IntPage(name, c, n);
    var m := e.callee;
    assert m.parameters[1].parameterType == Int32;
    assert ArgumentFits(m.parameters[0].parameterType, root);
    assert [root] + e.args[1..] == [root, Const(IntegerValue(n), Int32)];
  }

  /** A Skip or Take over anything but a constant queryable is rebuilt over its visited source. */
  lemma VisitIntPage(name: string, e: Expr, root: Expr, n: int)
    requires !IsQueryableConstant(e) && Rewrite(root, e).Ok?
    ensures Rewrite(root, IntPage(name, e, n)) == Ok(IntPage(name, Rewrite(root, e).value, n))
  {
    var p := IntPage(name, e, n);
    assert !Reroots(Const(IntegerValue(n), Int32));
    RewriteListSplit(root, p.args);
    assert [Rewrite(root, e).value] + p.args[1..] == [Rewrite(root, e).value, Const(IntegerValue(n), Int32)];
  }

  /** Queryable.Skip or Queryable.Take over IQueryable<int> with an int count. */
  function IntPage(name: string, e: Expr, n: int): (r: Expr)
    ensures TypeOf(r) == QueryableOf(Int32)
  {
    Call(None, QueryableMethod(name, [Int32], QueryableOf(Int32), [Int32], QueryableOf(Int32)), [e, Const(IntegerValue(n), Int32)])
  }

  // Rebasing the deserializer's paging

  /** Skip and Take over a placeholder, or over a chain on it, extend the chain by one call. */
  lemma PagingExtendsChain(q: Query, p: Expr, n: int)
    requires q.expression == p || ChainOver(q.expression, p)
    requires InRange(n, Int32)
    ensures ChainOver(Skip(Some(q), n).value.expression, p)
    ensures ChainOver(Take(Some(q), n).value.expression, p)
  {
    assert !RerootsAny([Const(IntegerValue(n), Int32)]);
    assert Skip(Some(q), n).value.expression.args[1..] == [Const(IntegerValue(n), Int32)];
    assert Take(Some(q), n).value.expression.args[1..] == [Const(IntegerValue(n), Int32)];
  }

  /**
   * Skip then Take built over a placeholder of the source's element type
   * and composed onto the source is the same query as Skip then Take built
   * over the source directly, provided the source's expression can stand
   * where an IQueryable of its element type is expected.
   */
  lemma ComposePaging(source: Query, placeholder: Query, skip: int, top: int)
    requires ValidQuery(source) && IsQueryableConstant(placeholder.expression)
    requires placeholder.elementType == source.elementType
    requires InRange(skip, Int32) && InRange(top, Int32)
    requires ArgumentFits(QueryableOf(source.elementType), source.expression)
    ensures Compose(source, Page(placeholder, skip, top)) == Ok(Page(source, skip, top))
  {
    var skipped := Skip(Some(placeholder), skip).value;
    var paged := Take(Some(skipped), top).value;
    PagingExtendsChain(placeholder, placeholder.expression, skip);
    PagingExtendsChain(skipped, placeholder.expression, top);
    RewriteOfChain(paged.expression, placeholder.expression, source.expression);
    var m := skipped.expression.callee;
    assert m.parameters[1].parameterType == Int32;
    assert [source.expression] + skipped.expression.args[1..] == [source.expression, Const(IntegerValue(skip), Int32)];
    assert Graft(skipped.expression, placeholder.expression, source.expression)
        == Ok(Skip(Some(source), skip).value.expression);
    assert [Skip(Some(source), skip).value.expression] + paged.expression.args[1..]
        == Take(Some(Skip(Some(source), skip).value), top).value.expression.args;
  }
}
