/**
 * The slice of the Java platform the model relies on: references that may be
 * null as `Option`, exceptions as values, `java.lang.Class` as a tag carrying
 * its names, and an ASCII model of `String.toUpperCase`.
 */
module JavaLang {

  /** A reference that may be null. */
  datatype Option<+T> = None | Some(value: T)

  /** A value, or the exception raised while computing it. */
  datatype Result<+T, +E> = Success(value: T) | Failure(error: E)

  /** How a `void` method ended: normally, or by throwing. */
  datatype Outcome<+E> = Pass | Fail(error: E)

  /** The runtime exceptions the modelled code raises or records. */
  datatype Exc =
    | NullPointer
    | StringIndexOutOfBounds
    | IndexOutOfBounds
    | Sql(code: int)        // raised by the JDBC driver
    | Raised(name: string)  // raised by code the model treats as opaque

  /**
   * A `java.lang.Class`. Within one class loader a class is identified by its
   * binary `name` (`getName()`), so `type == Long.class` is a comparison of
   * names. The other strings are what `getSimpleName()`,
   * `getCanonicalName()` and `toString()` return.
   */
  datatype ClassTag = ClassTag(name: string, simpleName: string, canonicalName: string, display: string)

  function Min(a: int, b: int): int { if a <= b then a else b }

  function Max(a: int, b: int): int { if a <= b then b else a }

  /** Upper-casing of one character, restricted to ASCII letters. */
  function UpperChar(c: char): (u: char)
    ensures 'a' <= c <= 'z' ==> 'A' <= u <= 'Z' && u as int == c as int - 32
    ensures !('a' <= c <= 'z') ==> u == c
  {
    if 'a' <= c <= 'z' then (c as int - 32) as char else c
  }

  /** `String.toUpperCase()` on ASCII text. */
  function ToUpper(s: string): (r: string)
    ensures |r| == |s|
    ensures forall i :: 0 <= i < |s| ==> r[i] == UpperChar(s[i])
  {
    seq(|s|, i requires 0 <= i < |s| => UpperChar(s[i]))
  }

  /** Upper-casing twice is upper-casing once. */
  lemma ToUpperIdempotent(s: string)
    ensures ToUpper(ToUpper(s)) == ToUpper(s)
  {
  }
}
