/** Numeric-literal suffixes: the kinds a number literal can be given, the
    lookup from a suffix to its kind and the display name of each kind. */
module Numbers {

  import opened Maybes

  datatype NumSpec =
    | CChar | CInt | CSize
    | Int8 | Int16 | Int32 | Int64
    | Uint8 | Uint16 | Uint32 | Uint64
    | Float32 | Float64

  /** The suffix that denotes each kind: the reference table `ParseNumSuffix`
      is measured against. */
  function Suffix(n: NumSpec): string
  {
    match n
    case CChar => "c"
    case CInt => "i"
    case CSize => "s"
    case Int8 => "i8"
    case Int16 => "i16"
    case Int32 => "i32"
    case Int64 => "i64"
    case Uint8 => "u8"
    case Uint16 => "u16"
    case Uint32 => "u32"
    case Uint64 => "u64"
    case Float32 => "f32"
    case Float64 => "f64"
  }

  /** The kind a suffix denotes, if it is one of the thirteen known suffixes.
      The comparison is exact: a prefix or an extension of a suffix is not one. */
  function ParseNumSuffix(suffix: string): (r: Maybe<NumSpec>)
    ensures forall n :: r == Just(n) <==> Suffix(n) == suffix
  {
    if suffix == "c" then Just(CChar)
    else if suffix == "i" then Just(CInt)
    else if suffix == "s" then Just(CSize)
    else if suffix == "u8" then Just(Uint8)
    else if suffix == "u16" then Just(Uint16)
    else if suffix == "u32" then Just(Uint32)
    else if suffix == "u64" then Just(Uint64)
    else if suffix == "i8" then Just(Int8)
    else if suffix == "i16" then Just(Int16)
    else if suffix == "i32" then Just(Int32)
    else if suffix == "i64" then Just(Int64)
    else if suffix == "f32" then Just(Float32)
    else if suffix == "f64" then Just(Float64)
    else Nothing
  }

  /** The display name of a kind: never empty. */
  function ShowNumSpec(numSpec: NumSpec): (name: string)
    ensures |name| > 0
  {
    match numSpec
    case CChar => "Char"
    case CInt => "Int"
    case CSize => "Size"
    case Int8 => "Int8"
    case Int16 => "Int16"
    case Int32 => "Int32"
    case Int64 => "Int64"
    case Uint8 => "Uint8"
    case Uint16 => "Uint16"
    case Uint32 => "Uint32"
    case Uint64 => "Uint64"
    case Float32 => "Float32"
    case Float64 => "Float64"
  }

  /** Every kind is produced by its own suffix and by no other string, and no
      two strings produce the same kind. */
  lemma ParseNumSuffixExact(n: NumSpec, s: string, t: string)
    ensures ParseNumSuffix(Suffix(n)) == Just(n)
    ensures ParseNumSuffix(s) == Just(n) ==> s == Suffix(n)
    ensures ParseNumSuffix(s).Just? && ParseNumSuffix(s) == ParseNumSuffix(t) ==> s == t
  {
  }

  /** No two kinds share a display name. */
  lemma ShowNumSpecInjective(a: NumSpec, b: NumSpec)
    ensures ShowNumSpec(a) == ShowNumSpec(b) ==> a == b
  {
  }

  /** Strings that are not exactly a suffix give nothing. */
  lemma ParseNumSuffixRejects()
    ensures ParseNumSuffix("u") == Nothing
    ensures ParseNumSuffix("u8x") == Nothing
    ensures ParseNumSuffix("") == Nothing
    ensures ParseNumSuffix("I32") == Nothing
  {
  }

  /** Looking a suffix up and showing the kind gives a fixed name. */
  lemma SuffixNames()
    ensures ShowNumSpec(ParseNumSuffix("i").value) == "Int"
    ensures ShowNumSpec(ParseNumSuffix("i32").value) == "Int32"
    ensures ShowNumSpec(ParseNumSuffix("c").value) == "Char"
    ensures ShowNumSpec(ParseNumSuffix("s").value) == "Size"
    ensures ShowNumSpec(ParseNumSuffix("u64").value) == "Uint64"
    ensures ShowNumSpec(ParseNumSuffix("f32").value) == "Float32"
  {
  }
}
