/** Values shared by every part of the model: optional values, the outcome of a
    call into a foreign library, and the three ways a Python call can end
    (it returns, it raises an HTTPException, or it raises anything else). */
module Common {

  /** A byte of an upload or of a file on disk. */
  type byte = x: int | 0 <= x < 256

  datatype Option<T> = None | Some(value: T) {
    function GetOr(default: T): T {
      match this
      case Some(v) => v
      case None => default
    }
  }

  /** What a call into a library the model treats as a black box does:
      it produces a value or raises an exception whose text is `reason`. */
  datatype LibOutcome<T> = Produced(value: T) | Raised(reason: string)

  /** FastAPI's HTTPException: a status code and a detail message. */
  datatype HttpError = HttpError(status: nat, detail: string)

  /** How a Python call ends: a returned value, an HTTPException, or some
      other exception (named by its message), which FastAPI turns into a
      plain 500 response when nothing catches it. */
  datatype Outcome<T> = Returned(value: T) | Http(error: HttpError) | Fault(message: string)
  {
    /** Re-types a failure so that it can be returned by a caller with a
        different result type. */
    function Propagate<U>(): (r: Outcome<U>)
      requires !Returned?
      ensures Http? ==> r == Http(error)
      ensures Fault? ==> r == Fault(message)
    {
      match this
      case Http(e) => Http(e)
      case Fault(m) => Fault(m)
    }
  }

  /** The decimal digits of `n`, as Python's `str(n)` writes them. */
  function Decimal(n: nat): (s: string)
    ensures |s| >= 1
    ensures forall k :: 0 <= k < |s| ==> '0' <= s[k] <= '9'
  {
    if n < 10 then [Digit(n)] else Decimal(n / 10) + [Digit(n % 10)]
  }

  function Digit(d: nat): (c: char)
    requires d < 10
    ensures '0' <= c <= '9'
    ensures c as int - '0' as int == d
  {
    ['0', '1', '2', '3', '4', '5', '6', '7', '8', '9'][d]
  }

  /** The number a string of decimal digits stands for, as `int(s)` reads it. */
  function DecimalValue(s: string): int
  {
    if s == [] then 0 else DecimalValue(s[..|s| - 1]) * 10 + (s[|s| - 1] as int - '0' as int)
  }

  /** `int(str(n)) == n`: the digits `Decimal` writes give back the number. */
  lemma {:induction false} DecimalRoundTrip(n: nat)
    ensures DecimalValue(Decimal(n)) == n
  {
    if n >= 10 {
      var s := Decimal(n);
      assert s[..|s| - 1] == Decimal(n / 10);
      DecimalRoundTrip(n / 10);
    }
  }

  /** How many decimal digits `s` starts with. */
  function LeadingDigits(s: string): nat
  {
    if s == [] || !('0' <= s[0] <= '9') then 0 else 1 + LeadingDigits(s[1..])
  }

  /** A run of digits followed by something that starts with a non-digit
      can be measured back from the joined string. */
  lemma {:induction false} DigitsThenOther(digits: string, rest: string)
    requires forall k :: 0 <= k < |digits| ==> '0' <= digits[k] <= '9'
    requires rest != [] && !('0' <= rest[0] <= '9')
    ensures LeadingDigits(digits + rest) == |digits|
  {
    if digits != [] {
      assert (digits + rest)[1..] == digits[1..] + rest;
      DigitsThenOther(digits[1..], rest);
    }
  }

  /** Different numbers are written differently. */
  lemma DecimalInjective(a: nat, b: nat)
    ensures Decimal(a) == Decimal(b) <==> a == b
  {
    DecimalRoundTrip(a);
    DecimalRoundTrip(b);
  }

  /** `str(e)` of an HTTPException as recent Starlette versions render it:
      the status code, a colon, and the detail. */
  function Render(e: HttpError): (s: string)
    ensures |s| >= |e.detail|
    ensures s[|s| - |e.detail|..] == e.detail
  {
    Decimal(e.status) + ": " + e.detail
  }
}
