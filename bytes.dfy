/** The scanned string as the C code sees it: a sequence of bytes. */
module Bytes {

  /** A byte, written as the character whose code it is, so that Ruby string
      literals of the documentation read as they do in the source. */
  type byte = c: char | c as int < 256

  type Text = seq<byte>

  const NEWLINE: byte := '\n'

  function Min(a: int, b: int): (m: int)
    ensures m <= a && m <= b && (m == a || m == b)
  {
    if a <= b then a else b
  }
}
