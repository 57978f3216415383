/** strscan_peek and extract_beg_len on the host's 64-bit signed `long`:
    both clamp a length by testing `curr + len > S_LEN`, and that sum can
    wrap around. */
module PeekOverflow {
  import opened Bytes

  const LONG_MIN: int := -0x8000_0000_0000_0000
  const LONG_MAX: int := 0x7fff_ffff_ffff_ffff
  const LONG_RANGE: int := 0x1_0000_0000_0000_0000

  /** A mathematical integer reduced to the 64-bit two's complement range,
      as a wrapping addition leaves it. */
  function WrapLong(x: int): (w: int)
    ensures LONG_MIN <= w <= LONG_MAX
    ensures (w - x) % LONG_RANGE == 0
    ensures LONG_MIN <= x <= LONG_MAX ==> w == x
  {
    (x - LONG_MIN) % LONG_RANGE + LONG_MIN
  }

  /** The length strscan_peek hands to rb_str_new when the pointer is
      before the end: peek clamps once, extract_beg_len clamps again, each
      test computed in wrapping `long` arithmetic. */
  function PeekLengthAsWritten(strLen: int, curr: int, n: int): (len: int)
    requires 0 <= curr < strLen <= LONG_MAX && LONG_MIN <= n <= LONG_MAX
    ensures curr + n <= LONG_MAX ==> len == Min(n, strLen - curr)
  {
    var l1 := if WrapLong(curr + n) > strLen then strLen - curr else n;
    if WrapLong(curr + l1) > strLen then strLen - curr else l1
  }

  /** The clamp keeps a non-negative request inside the string exactly when
      curr + n does not overflow; past that point the whole request goes
      through unclamped. */
  lemma {:induction false} PeekClampFailsOnOverflow(strLen: int, curr: int, n: int)
    requires 0 <= curr < strLen <= LONG_MAX && 0 <= n <= LONG_MAX
    ensures PeekLengthAsWritten(strLen, curr, n) <= strLen - curr <==> curr + n <= LONG_MAX
    ensures curr + n > LONG_MAX ==> PeekLengthAsWritten(strLen, curr, n) == n
  {
    if curr + n > LONG_MAX {
      assert WrapLong(curr + n) == curr + n - LONG_RANGE;
    }
  }

  /** On a two-byte string with the pointer after the first byte,
      peek(LONG_MAX) asks rb_str_new for LONG_MAX bytes where one is left. */
  lemma PeekOverflowCounterexample()
    ensures PeekLengthAsWritten(2, 1, LONG_MAX) == LONG_MAX
    ensures PeekLengthAsWritten(2, 1, LONG_MAX) > 2 - 1
  {
    PeekClampFailsOnOverflow(2, 1, LONG_MAX);
  }
}
