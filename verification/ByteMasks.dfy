/**
 The 8-bit masks of cantal_history/src/deltabuf.rs, as the program writes them, against the
 arithmetic reading that module `DeltaCodec` uses.
 */
module ByteMasks {
  import opened DeltaCodec

  const SIGN_BIT: bv8 := 0x20
  const SPECIAL_BIT: bv8 := 0x40
  const SPECIAL_BITS: bv8 := 0xE0
  const SPECIAL_MASK: bv8 := 0x1F
  const SKIP_BITS: bv8 := 0x60
  const ZERO_BITS: bv8 := 0x40
  const CONTINUATION_BIT: bv8 := 0x80
  const CONTINUATION_MASK: bv8 := 0x7F

  function ToByte(b: bv8): Byte {
    b as int
  }

  /** Every test and extraction on a byte read from the deque. */
  lemma MasksRead(b: bv8)
    ensures (b & CONTINUATION_BIT != 0) == IsContinuation(ToByte(b))
    ensures (b & SPECIAL_BIT != 0) == IsSpecial(ToByte(b))
    ensures (b & SIGN_BIT != 0) == IsNegative(ToByte(b))
    ensures (b & SPECIAL_BITS == SKIP_BITS) == (Tag(ToByte(b)) == SKIP_TAG)
    ensures (b & SPECIAL_BITS == ZERO_BITS) == (Tag(ToByte(b)) == ZERO_TAG)
    ensures ToByte(b & SPECIAL_MASK) == Count(ToByte(b))
    ensures ToByte(b & CONTINUATION_MASK) == ToByte(b) % 128
  {}

  /** Every byte put together from parts. */
  lemma MasksWrite(n: bv8)
    ensures n < 32 ==> ToByte(SKIP_BITS | n) == RunByte(SKIP_TAG, ToByte(n))
    ensures n < 32 ==> ToByte(n | ZERO_BITS) == RunByte(ZERO_TAG, ToByte(n))
    ensures n < 32 ==> ToByte(SIGN_BIT | n) == 32 + ToByte(n)
    ensures n < 128 ==> ToByte(n | CONTINUATION_BIT) == 128 + ToByte(n)
  {}

  /** A skip run of any length, also one that does not fit. */
  lemma MasksSkip(n: bv8)
    ensures ToByte(SKIP_BITS | n) == SkipByte(ToByte(n))
  {
    var low := n & SPECIAL_MASK;
    SkipParts(n);
    MasksRead(n);
    MasksWrite(low);
    MasksWrite(SKIP_BITS | low);
  }

  lemma SkipParts(n: bv8)
    ensures var low := n & SPECIAL_MASK;
      && low < 32 && SKIP_BITS | low < 128
      && SKIP_BITS | n == if n & CONTINUATION_BIT != 0 then (SKIP_BITS | low) | CONTINUATION_BIT else SKIP_BITS | low
  {}

  /** The byte a truncation leaves: tag kept, count lowered. */
  lemma MasksLower(b: bv8, drop: bv8)
    requires drop <= b & SPECIAL_MASK
    ensures ToByte((b & SPECIAL_BITS) | ((b & SPECIAL_MASK) - drop)) == ToByte(b) - ToByte(drop)
  {}
}
