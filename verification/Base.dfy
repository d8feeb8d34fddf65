/** Types shared by the models: options, results, object keys, byte strings and joining. */
module Base {

  datatype Option<+T> = None | Some(value: T)

  datatype Result<+T, +E> = Ok(value: T) | Err(error: E)

  /** An object-store key. */
  type Key = string

  /** Raw bytes, one `char` per byte; text the program writes is read back unchanged. */
  type Bytes = string

  const U32_MODULUS: nat := 0x1_0000_0000

  /** Rust's `as u32` on an unsigned value. */
  function AsU32(n: nat): (r: nat)
    ensures r < U32_MODULUS && (n < U32_MODULUS ==> r == n)
  {
    n % U32_MODULUS
  }

  /** `char::is_whitespace`. */
  predicate IsWhitespace(c: char) {
    var n := c as int;
    || 9 <= n <= 13 || n == 32 || n == 0x85 || n == 0xA0 || n == 0x1680 || 0x2000 <= n <= 0x200A
    || n == 0x2028 || n == 0x2029 || n == 0x202F || n == 0x205F || n == 0x3000
  }

  /** `join(sep)`. */
  function JoinWith(parts: seq<string>, sep: string): string {
    if parts == [] then "" else
    if |parts| == 1 then parts[0] else JoinWith(parts[..|parts| - 1], sep) + sep + parts[|parts| - 1]
  }

  lemma JoinAdd(parts: seq<string>, part: string, sep: string)
    ensures JoinWith(parts + [part], sep) == if parts == [] then part else JoinWith(parts, sep) + sep + part
  {
    assert (parts + [part])[..|parts|] == parts;
  }
}
