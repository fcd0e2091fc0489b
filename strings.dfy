/** The text type used by the lexer: the characters of a `String` and its
    length. The buffer behind it is NUL-terminated, so the character at index
    `Length()` exists and is `'\0'`; the lexer relies on that. */
module Strings {

  datatype String = String(cString: seq<char>)
  {
    function Length(): nat
    {
      |cString|
    }

    /** The characters followed by the terminating NUL. */
    function Terminated(): (t: seq<char>)
      ensures |t| == Length() + 1
      ensures t[Length()] == '\0'
      ensures t[..Length()] == cString
    {
      cString + ['\0']
    }

    /** The character at index `i` of the NUL-terminated buffer, so that
        index `Length()` reads the terminator. */
    function At(i: nat): (c: char)
      requires i <= Length()
      ensures c == Terminated()[i]
    {
      if i < |cString| then cString[i] else '\0'
    }
  }

  /** The nil string, modelled as the empty text. */
  const NilString: String := String([])
}
