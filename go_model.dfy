/** The Go values the cache works with: bytes, byte strings, 64-bit integers,
    instants and durations, the `any` interface, and the callables handed to
    the memoizers. */
module GoModel {

  /** A Go `byte`. */
  type byte = x: int | 0 <= x < 256

  /** A Go `string` is an immutable sequence of bytes, not of code points. */
  type GoString = seq<byte>

  /** A Go `int64`. */
  type int64 = x: int | -0x8000_0000_0000_0000 <= x < 0x8000_0000_0000_0000

  /** A `time.Time`, as nanoseconds on one clock. */
  type Time = int

  /** A `time.Duration`, in nanoseconds (it may be negative). */
  type Duration = int

  datatype Option<T> = None | Some(value: T)

  predicate IsAscii(s: string) {
    forall i | 0 <= i < |s| :: s[i] as int < 128
  }

  /** The bytes of a Go string literal written in ASCII. */
  function Ascii(s: string): (r: GoString)
    requires IsAscii(s)
    ensures |r| == |s|
    ensures forall i | 0 <= i < |s| :: r[i] == s[i] as int
  {
    if s == [] then [] else [s[0] as int] + Ascii(s[1..])
  }

  /** A Go `any` holding a value of type T: the nil interface, a value that
      is not a pointer, or a pointer, which may itself be nil. */
  datatype Any<T> = Nil | Value(v: T) | Pointer(target: Option<T>)

  /** What a wrapped function returned through reflect.Call: its first
      result and, when its second result is a non-nil error, that error; or
      the call panicked (wrong arity, wrong argument types, a panic inside). */
  datatype CallOutcome<T, E> = Returned(value: Any<T>, err: Option<E>) | Panicked

  /** The `fn any` argument of the memoizers: the nil interface, a value whose
      kind is not Func, or a function with its runtime name. `anyResult` says
      whether fn's first result is declared with an interface type (such as
      `any`): reflect.Call then hands back a Value of kind Interface, whatever
      fn returned through it. A first result declared with a concrete type
      is never the nil interface; a pointer type gives a Pointer. */
  datatype Callable<!P, T, E> =
    | NilFunc
    | NotFunc
    | Func(name: GoString, call: seq<P> -> CallOutcome<T, E>, anyResult: bool)
}
