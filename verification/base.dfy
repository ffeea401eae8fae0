/** Shared vocabulary: optional values, results with an error channel, spans
    into a line, and the 64-bit unsigned arithmetic the parsers rely on. */
module Base {

  datatype Option<+T> = None | Some(value: T)

  datatype Result<+T, +E> = Success(value: T) | Failure(error: E) {
    predicate IsFailure() { Failure? }

    function PropagateFailure<U>(): Result<U, E>
      requires Failure?
    {
      Failure(error)
    }

    function Extract(): T
      requires Success?
    {
      value
    }
  }

  /** 2^64: the modulus of the source's uint64_t / size_t arithmetic. */
  const TwoTo64: int := 0x1_0000_0000_0000_0000

  /** The values of a `uint64_t`. */
  type U64 = n: nat | n < TwoTo64

  /** A uint64 counter converted to the 64-bit hash domain (size_t wrap-around). */
  function ToU64(n: nat): bv64
  {
    (n % TwoTo64) as bv64
  }

  /** A view into a line: `len` characters starting at `start`. */
  datatype Span = Span(start: nat, len: nat) {
    function End(): nat { start + len }
  }

  predicate SpanIn(sp: Span, s: string)
  {
    sp.start + sp.len <= |s|
  }

  function SpanText(s: string, sp: Span): (r: string)
    requires SpanIn(sp, s)
    ensures |r| == sp.len
  {
    s[sp.start .. sp.start + sp.len]
  }

  /** A floating-point value as the parsers see it: a finite number or NaN. */
  datatype FloatValue = Num(x: real) | NaN

  function Mul(a: real, b: FloatValue): FloatValue
  {
    match b
    case Num(x) => Num(a * x)
    case NaN => NaN
  }
}
