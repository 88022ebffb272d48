/** Shared vocabulary of the SWV analysis model: optional values, the
    failures a per-file analysis can raise, and decimal digit strings. */
module Base {

  datatype Option<+T> = None | Some(value: T)

  /** Each exception the per-file pipeline can raise, one constructor per
      originating stage. */
  datatype Error =
    | ReadFailure          // readFile: the text file could not be opened, decoded or parsed
    | NonNumericColumn     // processData onwards: a column read as text meets arithmetic
    | WindowExceedsTrace   // savgol_filter: the 11-sample window is longer than the trace
    | EmptySearchRegion    // np.argmax over an empty search slice
    | GradientTooShort     // np.gradient over a search slice of fewer than 2 samples
    | EmptyPotentials      // potentialValues[-1] on an empty array

  /** A short description standing for the text of the raised exception. */
  function Describe(e: Error): string
  {
    match e
    case ReadFailure => "file could not be read"
    case NonNumericColumn => "bad operand type for unary -: 'str'"
    case WindowExceedsTrace => "window_length must be less than or equal to the size of x"
    case EmptySearchRegion => "attempt to get argmax of an empty sequence"
    case GradientTooShort => "array too small to calculate a numerical gradient"
    case EmptyPotentials => "index -1 is out of bounds for axis 0 with size 0"
  }

  /** Success or the exception that stopped the computation; usable with `:-`. */
  datatype Result<+T> = Success(value: T) | Failure(error: Error) {
    predicate IsFailure() { Failure? }
    function PropagateFailure<U>(): Result<U>
      requires Failure?
    {
      Failure(error)
    }
    function Extract(): T
      requires Success?
    {
      value
    }
  }

  /** `[0-9]`: an ASCII decimal digit. */
  predicate IsDigit(c: char)
  {
    '0' <= c <= '9'
  }

  predicate AllDigits(s: string)
  {
    forall i :: 0 <= i < |s| ==> IsDigit(s[i])
  }

  /** Python's `int(s)` on a string of ASCII digits (leading zeros allowed). */
  function DigitsValue(s: string): nat
    requires AllDigits(s)
  {
    if |s| == 0 then 0
    else DigitsValue(s[..|s| - 1]) * 10 + (s[|s| - 1] as int - '0' as int)
  }

  /** A two-digit string denotes a number below 100. */
  lemma TwoDigitsBelowHundred(s: string)
    requires |s| == 2 && AllDigits(s)
    ensures DigitsValue(s) <= 99
  {
    var head := s[..1];
    assert head[..0] == [];
    assert DigitsValue(head) == head[0] as int - '0' as int <= 9;
    assert DigitsValue(s) == DigitsValue(head) * 10 + (s[1] as int - '0' as int);
  }

  /** The longest prefix of `s` made of digits: what a greedy `\d+` or
      `[0-9]+` consumes. */
  function LeadingDigits(s: string): (d: string)
    ensures |d| <= |s| && d == s[..|d|] && AllDigits(d)
    ensures |d| < |s| ==> !IsDigit(s[|d|])
  {
    if |s| == 0 || !IsDigit(s[0]) then []
    else [s[0]] + LeadingDigits(s[1..])
  }

  /** When `d` is an entire digit run followed by a non-digit (or nothing),
      the greedy run is exactly `d`. */
  lemma {:induction false} LeadingDigitsOfRun(d: string, t: string)
    requires AllDigits(d)
    requires |t| == 0 || !IsDigit(t[0])
    ensures LeadingDigits(d + t) == d
  {
    if |d| > 0 {
      assert (d + t)[1..] == d[1..] + t;
      LeadingDigitsOfRun(d[1..], t);
    } else {
      assert d + t == t;
    }
  }

  /** The length of the longest suffix of `s` made of digits. */
  function TrailingDigitCount(s: string): (k: nat)
    ensures k <= |s|
    ensures forall i :: |s| - k <= i < |s| ==> IsDigit(s[i])
    ensures k < |s| ==> !IsDigit(s[|s| - k - 1])
  {
    if |s| == 0 || !IsDigit(s[|s| - 1]) then 0
    else TrailingDigitCount(s[..|s| - 1]) + 1
  }

  /** A digit run after a non-digit is exactly the trailing run. */
  lemma {:induction false} TrailingDigitsOfRun(t: string, d: string)
    requires AllDigits(d)
    requires |t| > 0 && !IsDigit(t[|t| - 1])
    ensures TrailingDigitCount(t + d) == |d|
  {
    if |d| > 0 {
      assert (t + d)[..|t + d| - 1] == t + d[..|d| - 1];
      TrailingDigitsOfRun(t, d[..|d| - 1]);
    } else {
      assert t + d == t;
    }
  }

  /** The product of two positive reals is positive. */
  lemma PositiveProduct(x: real, y: real)
    requires 0.0 < x && 0.0 < y
    ensures 0.0 < x * y
  {
  }
}
