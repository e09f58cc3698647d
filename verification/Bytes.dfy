// Bytes and the small sequence vocabulary shared by the other modules.
module Bytes {

  type Byte = b: int | 0 <= b < 256

  const NUL: Byte := 0
  const BACKSPACE: Byte := 8
  const TAB: Byte := 9
  const NEWLINE: Byte := 10
  const RETURN: Byte := 13
  const SPACE: Byte := 32

  datatype Option<+T> = None | Some(value: T)

  function Fill(n: nat, b: Byte): (s: seq<Byte>)
    ensures |s| == n
  {
    seq(n, _ => b)
  }

  function Min(a: int, b: int): int {
    if a < b then a else b
  }
}
