/** The runtime values the adapter handles: boxed .NET objects as they arrive
    in an `object[]`, with opaque floating-point and date payloads, and the
    culture-dependent conversions the code relies on. */
module Values {
  import opened Wrappers

  /** `System.Int32`. */
  newtype int32 = x: int | -0x8000_0000 <= x < 0x8000_0000

  /** `System.Double`, kept as its IEEE 754 bit pattern; no arithmetic is performed. */
  datatype Float64 = Float64(bits: bv64)

  /** `System.Single`, kept as its IEEE 754 bit pattern. */
  datatype Float32 = Float32(bits: bv32)

  /** `System.DateTime`, kept as its tick count. */
  datatype DateTime = DateTime(ticks: int)

  /** A boxed value as the adapter inspects it with `GetType()`. */
  datatype Obj =
    | NullObj                      // a null reference
    | DBNullObj                    // DBNull.Value
    | EnumObj(name: string)        // a value of some enum type; `name` is its ToString()
    | DateTimeObj(t: DateTime)
    | IntObj(i: int32)
    | FloatObj(f: Float32)
    | DoubleObj(d: Float64)
    | BytesObj(bytes: seq<bv8>)
    | StringObj(s: string)
    | OtherObj                     // any other runtime type (long, bool, decimal, ...)

  /** The conversions that depend on the current culture, given as parameters:
      `DateTime.TryParseExact(s, "yyyy-MM-dd hh:mm:ss", ...)`,
      `ToString("yyyy-MM-dd hh:mm:ss")`, `ToString("dd.MM.yyyy, hh:mm:ss.000")`,
      `int.ToString()` (whose negative sign is the culture's) and
      `double.ToString()`. */
  datatype Culture = Culture(
    parseExact: string -> Option<DateTime>,
    storedText: DateTime -> string,
    boundText: DateTime -> string,
    intText: int32 -> string,
    doubleText: Float64 -> string)
}
