/** Shared vocabulary of the model: nullable values, the exceptions the driver
    raises (as values), and the string predicates of the .NET base library that
    the driver relies on. */
module Common {

  /** A value that may be `null` in the driver. */
  datatype Option<+T> = None | Some(value: T)

  /** The exceptions the modelled code throws, as values. Messages are kept
      where the driver writes them itself. */
  datatype Error =
    | ArgumentNull(paramName: string)                 // ArgumentNullException
    | ArgumentEmpty(paramName: string)                // "must not be empty" check
    | Argument(message: string, argumentName: Option<string>) // ArgumentException
    | ArgumentType(paramName: string)                 // argument of the wrong runtime type
    | NotSupported(message: string)                   // NotSupportedException
    | InvalidOperation                                // InvalidOperationException from LINQ to Objects
    | Overflow                                        // OverflowException from LINQ to Objects
    | InvalidCast                                     // InvalidCastException
    | FormatError(message: string)                    // FormatException
    | Failure(message: string)                        // plain System.Exception
    | NullReference                                   // NullReferenceException

  /** An operation that returns a value or throws. */
  datatype Result<+T> = Ok(value: T) | Err(error: Error)

  /** An operation without a return value that may throw. */
  datatype Outcome = Pass | Fail(error: Error)

  /** `char.IsWhiteSpace`: the Unicode space, line and paragraph separators and
      the control characters U+0009..U+000D and U+0085. */
  predicate IsWhiteSpace(c: char)
  {
    || c == ' ' || ('\t' <= c <= '\r') || c == '\U{0085}' || c == '\U{00A0}'
    || c == '\U{1680}' || ('\U{2000}' <= c <= '\U{200A}') || c == '\U{2028}' || c == '\U{2029}'
    || c == '\U{202F}' || c == '\U{205F}' || c == '\U{3000}'
  }

  /** `string.IsNullOrWhiteSpace`. */
  predicate IsNullOrWhiteSpace(s: Option<string>)
  {
    s.None? || forall i :: 0 <= i < |s.value| ==> IsWhiteSpace(s.value[i])
  }

  /** ASCII lower-casing of one character. */
  function ToLowerAscii(c: char): (r: char)
    ensures 'A' <= c <= 'Z' ==> 'a' <= r <= 'z'
    ensures !('A' <= c <= 'Z') ==> r == c
  {
    if 'A' <= c <= 'Z' then (c as int + 32) as char else c
  }

  /** ASCII lower-casing of a string. */
  function ToLower(s: string): (r: string)
    ensures |r| == |s|
    ensures forall i :: 0 <= i < |s| ==> r[i] == ToLowerAscii(s[i])
  {
    if s == [] then [] else [ToLowerAscii(s[0])] + ToLower(s[1..])
  }

  /** `a.Equals(b, StringComparison.InvariantCultureIgnoreCase)` for strings
      whose case variants are ASCII letters. */
  predicate EqualsIgnoreCase(a: string, b: string)
  {
    ToLower(a) == ToLower(b)
  }

  /** A prefix one longer is the shorter prefix and the next element. */
  lemma PrefixSnoc<T>(s: seq<T>, i: nat)
    requires i < |s|
    ensures s[..i + 1] == s[..i] + [s[i]]
  {
  }
}
