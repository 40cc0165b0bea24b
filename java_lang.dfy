/**
 * The few Java platform notions the proxy's core relies on: doubles that may be
 * NaN or infinite, nullable references, exceptions, instants and 32-bit ints.
 */
module JavaLang {

  /** A Java `double`. `Finite(v)` carries the exact value of the double's shortest
      decimal string (the digits `Double.toString` and `BigDecimal.valueOf` see). */
  datatype Double = NaN | PosInf | NegInf | Finite(value: real)

  /** A Java reference that may be `null`. */
  datatype Option<+T> = None | Some(value: T)

  /** A value or a thrown exception. */
  datatype Result<+T, +E> = Ok(value: T) | Err(error: E)

  /** A `java.time.Instant` or a monotonic clock reading, in nanoseconds. */
  type Instant = int

  /** The unchecked exceptions that the core throws, or that reach it from the HTTP client. */
  datatype Exception =
    | IllegalArgumentException(message: string)
    | ArrayIndexOutOfBoundsException(index: int, length: int)
    /** Spring's `ResourceAccessException`: an I/O failure such as a timeout or a refused connection. */
    | ResourceAccessException(message: string)
    /** Spring's `HttpClientErrorException`: the upstream answered with a 4xx status. */
    | HttpClientErrorException(statusCode: int)
    /** Spring's `HttpServerErrorException`: the upstream answered with a 5xx status. */
    | HttpServerErrorException(statusCode: int)
    /** Any other `RuntimeException`, by class name and message. */
    | OtherException(className: string, message: string)

  const TwoTo31: int := 0x8000_0000
  const TwoTo32: int := 0x1_0000_0000

  predicate IsInt32(x: int) {
    -TwoTo31 <= x < TwoTo31
  }

  /** Java `int` arithmetic: the value congruent to `x` modulo 2^32 in the signed 32-bit range. */
  function WrapInt32(x: int): (r: int)
    ensures IsInt32(r)
    ensures (r - x) % TwoTo32 == 0
    ensures IsInt32(x) ==> r == x
  {
    (x + TwoTo31) % TwoTo32 - TwoTo31
  }
}
