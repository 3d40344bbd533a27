/** Bytes, and how many values a field of several bytes can hold. */
module Bytes {
  type Byte = b: int | 0 <= b < 256

  function Power256(k: nat): nat {
    if k == 0 then 1 else 256 * Power256(k - 1)
  }

  /** The number a field of bytes stands for, least significant first. */
  function ValueOf(s: seq<Byte>): nat {
    if s == [] then 0 else s[0] + 256 * ValueOf(s[1..])
  }
}
