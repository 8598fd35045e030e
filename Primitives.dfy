/** Values shared by every layer: the C# `int`, nullable references, results and string length. */
module Primitives {

  /** The C# `int`: every id and every integer request field has this range. */
  newtype Int32 = x: int | -0x8000_0000 <= x < 0x8000_0000

  const MaxInt32: int := 0x7FFF_FFFF

  /** A reference that may be null (`string?` in a request). */
  datatype Option<+T> = None | Some(value: T)

  /** Either a value or an error; the model's stand-in for a thrown exception. */
  datatype Result<+T, +E> = Ok(value: T) | Err(error: E)

  /** The number of UTF-16 code units `c` takes in a .NET string. */
  function Utf16Units(c: char): nat
  {
    if c as int > 0xFFFF then 2 else 1
  }

  /** `string.Length` in .NET, which is also what an `nvarchar(n)` column bounds. */
  function Utf16Length(s: string): (n: nat)
    ensures |s| <= n <= 2 * |s|
    ensures n == 0 <==> s == []
  {
    if s == [] then 0 else Utf16Units(s[0]) + Utf16Length(s[1..])
  }
}
