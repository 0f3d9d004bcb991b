/** Shared value types: optional values, the outcome of an awaited call, and the
    availability of the database behind the ORM repositories. */
module Common {

  datatype Option<+T> = None | Some(value: T)

  /** What an awaited call produced: a value, or the message of the exception it threw. */
  datatype Outcome<+T> = Value(value: T) | Thrown(message: string)

  /** The database connection. While it is failing, every repository call throws
      the connection's error message and changes nothing. */
  datatype Connection = Healthy | Failing(message: string)

  function Min(a: int, b: int): int { if a <= b then a else b }

  function DigitChar(d: nat): char
    requires d < 10
  {
    "0123456789"[d]
  }

  function NaturalDigits(n: nat): string
    decreases n
  {
    if n < 10 then [DigitChar(n)] else NaturalDigits(n / 10) + [DigitChar(n % 10)]
  }

  /** An integer as a JavaScript template literal prints it. */
  function DecimalString(n: int): string
  {
    if n < 0 then "-" + NaturalDigits(-n) else NaturalDigits(n)
  }
}
