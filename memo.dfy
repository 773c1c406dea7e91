/** The control flow the three memoizers share (Check, ExecuteAndCache,
    FuncCache): validate fn, look the key up, and on a miss call fn and
    store its result; plus reflectValue, which copies a value into *result.
    Each of them recovers from any panic and then returns a nil error. */
module Memo {
  import opened GoModel

  const FnMustBeFunction: string := "fn must be a function"

  /** The error a memoizer returns: its own message, or fn's error verbatim. */
  datatype MemoError<E> = Message(text: string) | Upstream(err: E)

  /** What one memoized call did: the error it returned, whether fn was
      called, the value handed to the store's Set, and what *result holds
      afterwards, seen as a Go `any` (None: *result was not assigned). */
  datatype Outcome<T, E> = Outcome(err: Option<MemoError<E>>, invoked: bool,
                                   stored: Option<Any<T>>, written: Option<Any<T>>)

  /** reflectValue on a Value whose kind is that of x itself: a pointer is
      dereferenced, any other value is copied. None stands for the panic of
      Set on a zero reflect.Value, which a nil interface or a nil pointer
      produces. */
  function ReflectValue<T>(x: Any<T>): (r: Option<Any<T>>)
    ensures r.Some? <==> x.Value? || (x.Pointer? && x.target.Some?)
    ensures r.Some? ==> r.value.Value?
    ensures x.Value? ==> r == Some(x)
    ensures x.Pointer? && x.target.Some? ==> r == Some(Value(x.target.value))
  {
    match x
    case Nil => None
    case Value(_) => Some(x)
    case Pointer(p) => if p.Some? then Some(Value(p.value)) else None
  }

  /** reflectValue on res[0] of reflect.Call, whose kind is fn's declared
      result kind. An interface kind is neither a pointer nor a zero Value,
      so whatever fn returned through it is written as is, nil included;
      any other declared kind is the kind of the value itself. */
  function ReflectResult<T>(anyResult: bool, x: Any<T>): Option<Any<T>> {
    if anyResult then Some(x) else ReflectValue(x)
  }

  /** One memoized call, given what the store's Get answered for its key
      (`found`, `cached`; ignored unless fn is a function).
      - nil fn: reflect.TypeOf(nil).Kind() panics, recovered: nil error;
      - fn not a function: "fn must be a function";
      - hit: *result := reflectValue(cached), on the cached value's own kind,
        and fn is not called;
      - miss: fn is called; its error is returned as is; otherwise the value
        is stored and then written through result, reflected on fn's
        declared result kind; a panic in the call or in reflectValue is
        recovered and yields a nil error. */
  function Decide<P, T, E>(fn: Callable<P, T, E>, params: seq<P>, found: bool, cached: Any<T>)
    : (o: Outcome<T, E>)
    ensures o.invoked <==> fn.Func? && !found
    ensures o.err == Some(Message(FnMustBeFunction)) <==> fn.NotFunc?
    ensures fn.NilFunc? ==> o == Outcome(None, false, None, None)
    ensures o.err.Some? ==> o.stored.None? && o.written.None?
    ensures o.stored.Some? ==> o.invoked && fn.call(params) == Returned(o.stored.value, None)
    ensures o.err.Some? && o.err.value.Upstream? ==>
              o.invoked && fn.call(params).Returned? && fn.call(params).err == Some(o.err.value.err)
    ensures fn.Func? && found ==> o.err.None? && o.stored.None? && o.written == ReflectValue(cached)
    ensures o.invoked && fn.call(params).Returned? && fn.call(params).err.None? ==>
              o.err.None? && o.stored == Some(fn.call(params).value)
              && (fn.anyResult ==> o.written == Some(fn.call(params).value))
              && (!fn.anyResult ==> o.written == ReflectValue(fn.call(params).value))
    ensures o.invoked && fn.call(params).Panicked? ==> o == Outcome(None, true, None, None)
    ensures o.written.Some? && !o.written.value.Value? ==> o.invoked && fn.anyResult
  {
    match fn
    case NilFunc => Outcome(None, false, None, None)
    case NotFunc => Outcome(Some(Message(FnMustBeFunction)), false, None, None)
    case Func(_, call, anyResult) =>
      if found then Outcome(None, false, None, ReflectValue(cached))
      else match call(params)
        case Panicked => Outcome(None, true, None, None)
        case Returned(v, Some(e)) => Outcome(Some(Upstream(e)), true, None, None)
        case Returned(v, None) => Outcome(None, true, Some(v), ReflectResult(anyResult, v))
  }

  /** A nil error does not mean *result was assigned: a panic while calling
      fn is swallowed by the deferred recover. */
  lemma NilErrorWithoutResult<P, T, E>(name: GoString, call: seq<P> -> CallOutcome<T, E>,
                                       anyResult: bool, params: seq<P>)
    requires call(params).Panicked?
    ensures var o := Decide(Func(name, call, anyResult), params, false, Nil);
            o.err.None? && o.written.None? && o.stored.None?
  {
  }

  /** For fn whose first result is declared `any`, a miss and the hit that
      follows it write different things: a pointer returned by fn is
      written as the pointer on the miss and dereferenced on the hit, since
      the hit reflects on the cached value's own kind. */
  lemma AnyResultPointerDereferencedOnlyOnHit<P, T, E>(name: GoString, call: seq<P> -> CallOutcome<T, E>,
                                                      params: seq<P>, x: T)
    requires call(params) == Returned(Pointer(Some(x)), None)
    ensures var miss := Decide(Func(name, call, true), params, false, Nil);
            var hit := Decide(Func(name, call, true), params, true, miss.stored.value);
            miss.written == Some(Pointer(Some(x))) && hit.written == Some(Value(x))
  {
  }

  /** For fn whose first result is declared `any`, a nil result is written
      as nil on the miss, and cached; the hit that follows panics on it
      (recovered: nil error) and leaves *result unassigned. */
  lemma AnyResultNilPanicsOnlyOnHit<P, T, E>(name: GoString, call: seq<P> -> CallOutcome<T, E>,
                                            params: seq<P>)
    requires call(params) == Returned(Nil, None)
    ensures var miss := Decide(Func(name, call, true), params, false, Nil);
            var hit := Decide(Func(name, call, true), params, true, miss.stored.value);
            miss.err.None? && miss.stored == Some(Nil) && miss.written == Some(Nil)
            && hit.err.None? && hit.written.None?
  {
  }

  /** For fn whose first result has a concrete declared type, the hit that
      follows a successful miss writes what the miss wrote. */
  lemma ConcreteResultHitWritesSame<P, T, E>(name: GoString, call: seq<P> -> CallOutcome<T, E>,
                                            params: seq<P>)
    requires call(params).Returned? && call(params).err.None?
    ensures var miss := Decide(Func(name, call, false), params, false, Nil);
            var hit := Decide(Func(name, call, false), params, true, miss.stored.value);
            hit.written == miss.written
  {
  }
}
