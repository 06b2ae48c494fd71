/** Bytes, UTF-8 strings and the failure-compatible wrappers used everywhere else. */
module Bytes {

  type byte = b: int | 0 <= b < 256

  function Min(a: int, b: int): int { if a <= b then a else b }

  function Max(a: int, b: int): int { if a <= b then b else a }

  const U64_MODULUS: nat := 0x1_0000_0000_0000_0000
  const I64_MODULUS: nat := 0x8000_0000_0000_0000

  datatype Option<+T> = None | Some(value: T) {
    predicate IsFailure() {
      None?
    }

    function PropagateFailure<U>(): Option<U>
      requires None?
    {
      None
    }

    function Extract(): T
      requires Some?
    {
      value
    }
  }

  datatype Result<+T, +E> = Success(value: T) | Failure(error: E) {
    predicate IsFailure() {
      Failure?
    }

    function PropagateFailure<U>(): Result<U, E>
      requires Failure?
    {
      Failure(error)
    }

    function Extract(): T
      requires Success?
    {
      value
    }
  }

  predicate Continuation(b: byte) {
    0x80 <= b <= 0xBF
  }

  /** Length of the well-formed UTF-8 sequence at the head of `s`, or 0 if there is none. */
  function Utf8HeadLength(s: seq<byte>): (n: nat)
    ensures n <= |s| && n <= 4
  {
    if |s| >= 1 && s[0] <= 0x7F then 1
    else if |s| >= 2 && 0xC2 <= s[0] <= 0xDF && Continuation(s[1]) then 2
    else if |s| >= 3 && 0xE0 <= s[0] <= 0xEF
            && (if s[0] == 0xE0 then 0xA0 <= s[1] <= 0xBF
                else if s[0] == 0xED then 0x80 <= s[1] <= 0x9F
                else Continuation(s[1]))
            && Continuation(s[2]) then 3
    else if |s| >= 4 && 0xF0 <= s[0] <= 0xF4
            && (if s[0] == 0xF0 then 0x90 <= s[1] <= 0xBF
                else if s[0] == 0xF4 then 0x80 <= s[1] <= 0x8F
                else Continuation(s[1]))
            && Continuation(s[2]) && Continuation(s[3]) then 4
    else 0
  }

  /** Well-formed UTF-8 (Unicode table 3-7): the check a Rust string carries in its type. */
  predicate ValidUtf8(s: seq<byte>) {
    s == [] || (Utf8HeadLength(s) > 0 && ValidUtf8(s[Utf8HeadLength(s)..]))
  }

  type Utf8 = s: seq<byte> | ValidUtf8(s) witness []
}
