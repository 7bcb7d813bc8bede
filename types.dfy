/** Value types shared by every part of the Clide model. */
module ClideTypes {

  /** A C# reference that may be null, such as a string property nobody assigned. */
  datatype Nullable<T> = Null | NonNull(value: T)

  /** The text C# string concatenation produces for a possibly null string: null reads as "". */
  function TextOf(s: Nullable<string>): string
  {
    if s.Null? then "" else s.value
  }

  /** A callback delegate (an `Action<...>`), known only by its identity. */
  datatype Handler = Handler(id: nat)

  /** `Char.IsLetterOrDigit`, restricted to the ASCII letters and digits of the wire format. */
  predicate IsLetterOrDigit(c: char)
  {
    ('a' <= c <= 'z') || ('A' <= c <= 'Z') || ('0' <= c <= '9')
  }
}
