/**
 The byte format of the compressed integer history (cantal_history/src/deltabuf.rs).

 The front of the deque holds the newest data.  One item is either

  - a difference: continuation bytes `1ddddddd` (most significant first), then `00sddddd`
    where `s` is the sign and the low five bits of the magnitude come last;
  - a run of 1..31 zero differences: `010nnnnn`;
  - a run of 1..31 skipped ages: `011nnnnn`.

 Machine integers are mathematical integers here; every operation that can wrap says so
 with `Wrap`.  Shifts and masks of 64-bit values are written with `*`, `/` and `%`; for the
 8-bit masks module `ByteMasks` proves the two readings equal.
 */
module DeltaCodec {

  type Byte = b: int | 0 <= b < 256

  /** The two integer types a buffer is used with. */
  datatype Width = U64 | I64

  const TWO_63: int := 0x8000_0000_0000_0000
  const TWO_64: int := 0x1_0000_0000_0000_0000

  function MaxOf(w: Width): int {
    if w == U64 then TWO_64 - 1 else TWO_63 - 1
  }

  function MinOf(w: Width): int {
    if w == U64 then 0 else -TWO_63
  }

  predicate InRange(w: Width, x: int) {
    MinOf(w) <= x <= MaxOf(w)
  }

  /** The value an overflowing operation leaves in a `u64` or an `i64`. */
  function Wrap(w: Width, x: int): int {
    var m := x % TWO_64;
    if w == I64 && m >= TWO_63 then m - TWO_64 else m
  }

  datatype Delta = Positive(x: int) | Negative(x: int) | Skip

  // The byte layout, as masks of the source read as arithmetic.

  const ZERO_TAG: int := 2
  const SKIP_TAG: int := 3
  const RUN_MAX: int := 31

  predicate IsContinuation(b: Byte) { b >= 128 }

  predicate IsSpecial(b: Byte) { b / 64 % 2 == 1 }

  predicate IsNegative(b: Byte) { b / 32 % 2 == 1 }

  function Tag(b: Byte): int { b / 32 }

  function Count(b: Byte): int { b % 32 }

  function RunByte(tag: int, n: int): Byte
    requires (tag == ZERO_TAG || tag == SKIP_TAG) && 0 <= n <= RUN_MAX
  {
    32 * tag + n
  }

  // ---------------------------------------------------------------- encoding

  /** The magnitude and the sign bit of a difference, as the subtraction really leaves them. */
  function Magnitude(w: Width, prev: int, next: int): int {
    Wrap(w, if prev > next then prev - next else next - prev)
  }

  /** Continuation bytes for `d`, most significant first; none for zero or a wrapped (negative) value. */
  function Groups(d: int): seq<Byte>
    decreases if d > 0 then d else 0
  {
    if d <= 0 then [] else Groups(d / 128) + [128 + d % 128]
  }

  function Varint(negative: bool, d: int): seq<Byte> {
    Groups(d / 32) + [(if negative then 32 else 0) + d % 32]
  }

  /** Skipped ages: the run pushed first ends up last. */
  function SkipRuns(n: nat): seq<Byte> {
    if n == 0 then [] else
      var c := if n < RUN_MAX then n else RUN_MAX;
      SkipRuns(n - c) + [RunByte(SKIP_TAG, c)]
  }

  function PushDelta(w: Width, bytes: seq<Byte>, prev: int, next: int): seq<Byte> {
    var d := Magnitude(w, prev, next);
    if d != 0 then
      Varint(prev > next, d) + bytes
    else if |bytes| > 0 && Tag(bytes[0]) == ZERO_TAG && Count(bytes[0]) < RUN_MAX then
      [RunByte(ZERO_TAG, Count(bytes[0]) + 1)] + bytes[1..]
    else
      [RunByte(ZERO_TAG, 1)] + bytes
  }

  /** The buffer after one push: skips first, so that they sit behind the difference. */
  function Pushed(w: Width, bytes: seq<Byte>, prev: int, next: int, ageDiff: nat): seq<Byte> {
    if ageDiff == 0 then bytes
    else PushDelta(w, SkipRuns(ageDiff - 1) + bytes, prev, next)
  }

  // ---------------------------------------------------------------- decoding

  function Repeat<T>(x: T, n: nat): (r: seq<T>)
    ensures |r| == n
    ensures forall i | 0 <= i < n :: r[i] == x
  {
    seq(n, i => x)
  }

  /** `acc << k | low` where `factor` is the shift read as a multiplication and `low` is below it. */
  function ShiftIn(w: Width, acc: int, factor: int, low: int): int {
    Wrap(w, acc * factor) + low
  }

  function RunOf(b: Byte): seq<Delta> {
    Repeat(if Tag(b) == SKIP_TAG then Skip else Positive(0), Count(b))
  }

  function DiffOf(b: Byte, d: int): Delta {
    if IsNegative(b) then Negative(d) else Positive(d)
  }

  /** What the iterator yields from `bytes` when `acc` holds the continuation bits read so far. */
  function Decode(w: Width, bytes: seq<Byte>, acc: int): seq<Delta> {
    if bytes == [] then []
    else if IsContinuation(bytes[0]) then
      Decode(w, bytes[1..], ShiftIn(w, acc, 128, bytes[0] % 128))
    else if IsSpecial(bytes[0]) then
      RunOf(bytes[0]) + Decode(w, bytes[1..], 0)
    else
      [DiffOf(bytes[0], ShiftIn(w, acc, 32, Count(bytes[0])))] + Decode(w, bytes[1..], 0)
  }

  function Deltas(w: Width, bytes: seq<Byte>): seq<Delta> {
    Decode(w, bytes, 0)
  }

  /**
   Well-formed bytes after a prefix that left `acc` pending (`open` when continuation bytes
   precede): no empty run, no run or end of buffer inside a difference, nothing shifted out.
   */
  predicate WellFormedFrom(w: Width, bytes: seq<Byte>, acc: int, open: bool) {
    if bytes == [] then !open
    else if IsContinuation(bytes[0]) then
      var a := acc * 128 + bytes[0] % 128;
      a <= MaxOf(w) && WellFormedFrom(w, bytes[1..], a, true)
    else if IsSpecial(bytes[0]) then
      !open && Count(bytes[0]) > 0 && WellFormedFrom(w, bytes[1..], 0, false)
    else
      acc * 32 + Count(bytes[0]) <= MaxOf(w) && WellFormedFrom(w, bytes[1..], 0, false)
  }

  predicate WellFormed(w: Width, bytes: seq<Byte>) {
    WellFormedFrom(w, bytes, 0, false)
  }

  // ---------------------------------------------------------------- one push

  /** The difference as a reader should get it back. */
  function ExactDelta(prev: int, next: int): Delta {
    if prev > next then Negative(prev - next) else Positive(next - prev)
  }

  /** The difference as the buffer keeps it: a magnitude beyond the type keeps five bits only. */
  function StoredDelta(w: Width, prev: int, next: int): Delta {
    var d := Magnitude(w, prev, next);
    var kept := if d < 0 then d % 32 else d;
    if prev > next then Negative(kept) else Positive(kept)
  }

  predicate Representable(w: Width, prev: int, next: int) {
    (if prev > next then prev - next else next - prev) <= MaxOf(w)
  }

  lemma WrapInRange(w: Width, x: int)
    requires 0 <= x <= MaxOf(w)
    ensures Wrap(w, x) == x
  {}

  function CountByte(b: Byte): nat {
    if IsContinuation(b) then 0 else if IsSpecial(b) then Count(b) else 1
  }

  /** The first byte read: what it yields and what it leaves pending. */
  function FirstDeltas(w: Width, b: Byte, acc: int): seq<Delta> {
    if IsContinuation(b) then []
    else if IsSpecial(b) then RunOf(b)
    else [DiffOf(b, ShiftIn(w, acc, 32, Count(b)))]
  }

  function Pending(b: Byte, acc: int): int {
    if IsContinuation(b) then acc * 128 + b % 128 else 0
  }

  predicate ByteFits(w: Width, b: Byte, acc: int, open: bool) {
    if IsContinuation(b) then Pending(b, acc) <= MaxOf(w)
    else if IsSpecial(b) then !open && Count(b) > 0
    else acc * 32 + Count(b) <= MaxOf(w)
  }

  lemma DecodeStep(w: Width, b: Byte, tail: seq<Byte>, acc: int, open: bool)
    requires 0 <= acc <= MaxOf(w)
    ensures |FirstDeltas(w, b, acc)| == CountByte(b)
    ensures WellFormedFrom(w, [b] + tail, acc, open)
       <==> ByteFits(w, b, acc, open) && WellFormedFrom(w, tail, Pending(b, acc), IsContinuation(b))
    ensures ByteFits(w, b, acc, open) ==> 0 <= Pending(b, acc) <= MaxOf(w)
    ensures ByteFits(w, b, acc, open) ==>
      Decode(w, [b] + tail, acc) == FirstDeltas(w, b, acc) + Decode(w, tail, Pending(b, acc))
  {
    assert ([b] + tail)[1..] == tail;
    if IsContinuation(b) && ByteFits(w, b, acc, open) {
      WrapInRange(w, acc * 128);
    }
  }

  /** Reading the continuation bytes of `d` rebuilds `d`. */
  lemma {:induction false} ReadGroups(w: Width, d: int, tail: seq<Byte>)
    requires 0 <= d <= MaxOf(w)
    ensures Decode(w, Groups(d) + tail, 0) == Decode(w, tail, d)
    ensures WellFormedFrom(w, Groups(d) + tail, 0, false) == WellFormedFrom(w, tail, d, d > 0)
    decreases d
  {
    hide Decode, WellFormedFrom;
    if d == 0 {
      assert Groups(d) + tail == tail;
    } else {
      var b: Byte := 128 + d % 128;
      assert Groups(d) + tail == Groups(d / 128) + ([b] + tail);
      ReadGroups(w, d / 128, [b] + tail);
      DecodeStep(w, b, tail, d / 128, d / 128 > 0);
      assert [] + Decode(w, tail, d) == Decode(w, tail, d);
    }
  }

  lemma ReadVarint(w: Width, negative: bool, d: int, tail: seq<Byte>)
    requires 0 <= d <= MaxOf(w)
    ensures Decode(w, Varint(negative, d) + tail, 0)
         == [if negative then Negative(d) else Positive(d)] + Decode(w, tail, 0)
    ensures WellFormed(w, Varint(negative, d) + tail) == WellFormed(w, tail)
  {
    hide Decode, WellFormedFrom, Groups;
    var b: Byte := (if negative then 32 else 0) + d % 32;
    assert Varint(negative, d) + tail == Groups(d / 32) + ([b] + tail);
    ReadGroups(w, d / 32, [b] + tail);
    ReadLastByte(w, negative, d / 32, d % 32, d / 32 > 0, tail);
    assert d / 32 * 32 + d % 32 == d;
  }

  /** The byte that ends a difference. */
  lemma LastByte(negative: bool, low: int)
    requires 0 <= low < 32
    ensures var b: Byte := (if negative then 32 else 0) + low;
      !IsContinuation(b) && !IsSpecial(b) && IsNegative(b) == negative && Count(b) == low
  {}

  lemma ReadLastByte(w: Width, negative: bool, acc: int, low: int, open: bool, tail: seq<Byte>)
    requires 0 <= low < 32 && 0 <= acc && acc * 32 + low <= MaxOf(w)
    ensures var b: Byte := (if negative then 32 else 0) + low; var d := acc * 32 + low;
      && Decode(w, [b] + tail, acc) == [if negative then Negative(d) else Positive(d)] + Decode(w, tail, 0)
      && WellFormedFrom(w, [b] + tail, acc, open) == WellFormedFrom(w, tail, 0, false)
  {
    var b: Byte := (if negative then 32 else 0) + low;
    LastByte(negative, low);
    WrapInRange(w, acc * 32);
    hide IsContinuation, IsSpecial, IsNegative, Count, Wrap, Decode, WellFormedFrom;
    assert FirstDeltas(w, b, acc) == [if negative then Negative(acc * 32 + low) else Positive(acc * 32 + low)];
    DecodeStep(w, b, tail, acc, open);
  }

  lemma ReadRun(w: Width, tag: int, n: nat, tail: seq<Byte>)
    requires (tag == ZERO_TAG || tag == SKIP_TAG) && 0 < n <= RUN_MAX
    ensures Deltas(w, [RunByte(tag, n)] + tail)
         == Repeat(if tag == SKIP_TAG then Skip else Positive(0), n) + Deltas(w, tail)
    ensures WellFormed(w, [RunByte(tag, n)] + tail) == WellFormed(w, tail)
  {
    hide Decode, WellFormedFrom;
    var b := RunByte(tag, n);
    assert Tag(b) == tag && Count(b) == n && IsSpecial(b) && !IsContinuation(b);
    DecodeStep(w, b, tail, 0, false);
  }

  lemma RepeatSum<T>(x: T, m: nat, n: nat)
    ensures Repeat(x, m) + Repeat(x, n) == Repeat(x, m + n)
  {}

  lemma {:induction false} ReadSkipRuns(w: Width, n: nat, tail: seq<Byte>)
    ensures Deltas(w, SkipRuns(n) + tail) == Repeat(Skip, n) + Deltas(w, tail)
    ensures WellFormed(w, SkipRuns(n) + tail) == WellFormed(w, tail)
    decreases n
  {
    if n == 0 {
      assert SkipRuns(n) + tail == tail;
    } else {
      var c := if n < RUN_MAX then n else RUN_MAX;
      var rest := [RunByte(SKIP_TAG, c)] + tail;
      assert SkipRuns(n) + tail == SkipRuns(n - c) + rest;
      ReadSkipRuns(w, n - c, rest);
      ReadRun(w, SKIP_TAG, c, tail);
      RepeatSum(Skip, n - c, c);
      assert Repeat(Skip, n - c) + (Repeat(Skip, c) + Deltas(w, tail)) == Repeat(Skip, n) + Deltas(w, tail);
    }
  }

  /** A magnitude that wrapped below zero: one byte, five bits. */
  lemma ReadWrapped(w: Width, negative: bool, d: int, tail: seq<Byte>)
    requires d < 0
    ensures Deltas(w, Varint(negative, d) + tail)
         == [if negative then Negative(d % 32) else Positive(d % 32)] + Deltas(w, tail)
    ensures WellFormed(w, Varint(negative, d) + tail) == WellFormed(w, tail)
  {
    ReadLastByte(w, negative, 0, d % 32, false, tail);
    hide Decode, WellFormedFrom;
    assert Varint(negative, d) == [(if negative then 32 else 0) + d % 32];
  }

  /** One more zero in a run that has room for it. */
  lemma ReadZeroMerge(w: Width, bytes: seq<Byte>)
    requires |bytes| > 0 && Tag(bytes[0]) == ZERO_TAG && Count(bytes[0]) < RUN_MAX
    requires WellFormed(w, bytes)
    ensures WellFormed(w, [RunByte(ZERO_TAG, Count(bytes[0]) + 1)] + bytes[1..])
    ensures Deltas(w, [RunByte(ZERO_TAG, Count(bytes[0]) + 1)] + bytes[1..]) == [Positive(0)] + Deltas(w, bytes)
  {
    hide Decode;
    var n := Count(bytes[0]);
    assert IsSpecial(bytes[0]) && !IsContinuation(bytes[0]);
    assert bytes == [RunByte(ZERO_TAG, n)] + bytes[1..];
    ReadRun(w, ZERO_TAG, n, bytes[1..]);
    ReadRun(w, ZERO_TAG, n + 1, bytes[1..]);
    RepeatSum(Positive(0), 1, n);
    var rest := Deltas(w, bytes[1..]);
    assert Repeat(Positive(0), 1) == [Positive(0)];
    assert [Positive(0)] + (Repeat(Positive(0), n) + rest) == [Positive(0)] + Repeat(Positive(0), n) + rest;
  }

  lemma {:induction false} ReadPushDelta(w: Width, bytes: seq<Byte>, prev: int, next: int)
    requires InRange(w, prev) && InRange(w, next)
    requires WellFormed(w, bytes)
    ensures WellFormed(w, PushDelta(w, bytes, prev, next))
    ensures Deltas(w, PushDelta(w, bytes, prev, next)) == [StoredDelta(w, prev, next)] + Deltas(w, bytes)
  {
    var d := Magnitude(w, prev, next);
    if d > 0 {
      ReadVarint(w, prev > next, d, bytes);
    } else if d < 0 {
      ReadWrapped(w, prev > next, d, bytes);
    } else {
      assert prev == next;
      if |bytes| > 0 && Tag(bytes[0]) == ZERO_TAG && Count(bytes[0]) < RUN_MAX {
        ReadZeroMerge(w, bytes);
      } else {
        ReadRun(w, ZERO_TAG, 1, bytes);
        assert Repeat(Positive(0), 1) == [Positive(0)];
      }
    }
  }

  /** One push, seen through the decoder. */
  lemma PushDecodes(w: Width, bytes: seq<Byte>, prev: int, next: int, ageDiff: nat)
    requires InRange(w, prev) && InRange(w, next)
    requires WellFormed(w, bytes)
    requires ageDiff >= 1
    ensures WellFormed(w, Pushed(w, bytes, prev, next, ageDiff))
    ensures Deltas(w, Pushed(w, bytes, prev, next, ageDiff))
         == [StoredDelta(w, prev, next)] + Repeat(Skip, ageDiff - 1) + Deltas(w, bytes)
  {
    hide Decode, WellFormedFrom, PushDelta, SkipRuns, StoredDelta;
    var skipped := SkipRuns(ageDiff - 1) + bytes;
    ReadSkipRuns(w, ageDiff - 1, bytes);
    ReadPushDelta(w, skipped, prev, next);
    assert [StoredDelta(w, prev, next)] + (Repeat(Skip, ageDiff - 1) + Deltas(w, bytes))
        == [StoredDelta(w, prev, next)] + Repeat(Skip, ageDiff - 1) + Deltas(w, bytes);
  }

  lemma StoredIsExactIffRepresentable(w: Width, prev: int, next: int)
    requires InRange(w, prev) && InRange(w, next)
    ensures StoredDelta(w, prev, next) == ExactDelta(prev, next) <==> Representable(w, prev, next)
  {
    var d := if prev > next then prev - next else next - prev;
    if Representable(w, prev, next) {
      WrapInRange(w, d);
    } else {
      assert Wrap(w, d) == d - TWO_64;
    }
  }

  lemma HeadDecides<T>(x: T, y: T, s: seq<T>, t: seq<T>)
    ensures [x] + s + t == [y] + s + t <==> x == y
  {
    assert ([x] + s + t)[0] == x && ([y] + s + t)[0] == y;
  }

  /** A difference survives exactly when it fits the type it is computed in. */
  lemma PushIsExactIffRepresentable(w: Width, bytes: seq<Byte>, prev: int, next: int, ageDiff: nat)
    requires InRange(w, prev) && InRange(w, next)
    requires WellFormed(w, bytes)
    requires ageDiff >= 1
    ensures Representable(w, prev, next) ==>
      Deltas(w, Pushed(w, bytes, prev, next, ageDiff))
        == [ExactDelta(prev, next)] + Repeat(Skip, ageDiff - 1) + Deltas(w, bytes)
    ensures !Representable(w, prev, next) ==>
      Deltas(w, Pushed(w, bytes, prev, next, ageDiff))
        != [ExactDelta(prev, next)] + Repeat(Skip, ageDiff - 1) + Deltas(w, bytes)
  {
    StoredIsExactIffRepresentable(w, prev, next);
    PushDecodes(w, bytes, prev, next, ageDiff);
    HeadDecides(StoredDelta(w, prev, next), ExactDelta(prev, next), Repeat(Skip, ageDiff - 1), Deltas(w, bytes));
  }

  /**
   The length of the next skip run as the loop computes it, through `i64` and back to `u8`.
   An age difference of 2^63 or more turns negative on the way.
   */
  function SkipChunk(ageDiff: int): (cd: int)
    requires 0 < ageDiff < TWO_64
    ensures 0 <= cd < 256 && cd <= ageDiff
  {
    var signed := Wrap(I64, ageDiff);
    (if signed < RUN_MAX then signed else RUN_MAX) % 256
  }

  lemma SkipChunkBelow(left: int)
    requires 0 < left < TWO_63
    ensures SkipChunk(left) == if left < RUN_MAX then left else RUN_MAX
  {
    WrapInRange(I64, left);
    hide Wrap;
  }

  /** From 2^63 on a run takes off the low byte only. */
  lemma SkipChunkAbove(left: int)
    requires TWO_63 <= left < TWO_64
    ensures SkipChunk(left) == left % 256 && left - SkipChunk(left) >= TWO_63
  {
    assert Wrap(I64, left) == left - TWO_64;
    hide Wrap;
    LowBytes(left, 0x0100_0000_0000_0000);
    LowByteLeft(left, 0x0080_0000_0000_0000);
  }

  lemma LowBytes(x: int, n: int)
    ensures (x - 256 * n) % 256 == x % 256
  {
    assert x - 256 * n == 256 * (x / 256 - n) + x % 256;
  }

  lemma LowByteLeft(x: int, n: int)
    requires x >= 256 * n
    ensures x - x % 256 >= 256 * n
  {
    assert x == 256 * (x / 256) + x % 256;
  }

  /** One run comes out right below 2^63 and, above it, only for one low byte in 256. */
  lemma SkipChunkIsMinimum(ageDiff: int)
    requires 0 < ageDiff < TWO_64
    ensures SkipChunk(ageDiff) == (if ageDiff < RUN_MAX then ageDiff else RUN_MAX)
       <==> ageDiff < TWO_63 || ageDiff % 256 == RUN_MAX
  {
    if ageDiff < TWO_63 {
      SkipChunkBelow(ageDiff);
    } else {
      SkipChunkAbove(ageDiff);
    }
    hide SkipChunk;
  }

  /** `SKIP_BITS | cd`, also for a length that does not fit its five bits. */
  function SkipByte(cd: int): Byte
    requires 0 <= cd < 256
  {
    cd / 128 * 128 + 96 + cd % 32
  }

  /** What the skip loop has left to do, and the bytes it has made. */
  datatype SkipState = SkipState(left: int, bytes: seq<Byte>)

  function SkipTurn(s: SkipState): (s': SkipState)
    requires 0 <= s.left < TWO_64
    ensures 0 <= s'.left <= s.left
  {
    if s.left == 0 then s
    else
      var cd := SkipChunk(s.left);
      SkipState(s.left - cd, [SkipByte(cd)] + s.bytes)
  }

  function SkipTurns(left: int, bytes: seq<Byte>, turns: nat): (s: SkipState)
    requires 0 <= left < TWO_64
    ensures 0 <= s.left <= left
  {
    if turns == 0 then SkipState(left, bytes) else SkipTurn(SkipTurns(left, bytes, turns - 1))
  }

  lemma SkipTurnBelow(s: SkipState)
    requires 0 < s.left < TWO_63
    ensures var s' := SkipTurn(s);
      s'.left < s.left && SkipRuns(s'.left) + s'.bytes == SkipRuns(s.left) + s.bytes
  {
    var cd := SkipChunk(s.left);
    SkipChunkBelow(s.left);
    assert SkipByte(cd) == RunByte(SKIP_TAG, cd);
    assert SkipRuns(s.left) == SkipRuns(s.left - cd) + [RunByte(SKIP_TAG, cd)];
    hide SkipRuns, SkipChunk, SkipByte, RunByte;
    assert SkipRuns(s.left) + s.bytes == SkipRuns(s.left - cd) + ([RunByte(SKIP_TAG, cd)] + s.bytes);
  }

  lemma {:induction false} SkipTurnsBelow(left: int, bytes: seq<Byte>, turns: nat)
    requires 0 <= left < TWO_63
    ensures var s := SkipTurns(left, bytes, turns);
      && SkipRuns(s.left) + s.bytes == SkipRuns(left) + bytes
      && (s.left == 0 || s.left <= left - turns)
  {
    if turns > 0 {
      hide SkipRuns, SkipChunk;
      SkipTurnsBelow(left, bytes, turns - 1);
      var s := SkipTurns(left, bytes, turns - 1);
      if s.left > 0 {
        SkipTurnBelow(s);
      }
    }
  }

  lemma {:induction false} SkipTurnsAbove(left: int, bytes: seq<Byte>, turns: nat)
    requires TWO_63 <= left < TWO_64
    ensures SkipTurns(left, bytes, turns).left >= TWO_63
  {
    if turns > 0 {
      hide SkipChunk;
      SkipTurnsAbove(left, bytes, turns - 1);
      SkipChunkAbove(SkipTurns(left, bytes, turns - 1).left);
    }
  }

  /** The skip loop ends, with exactly the right runs in front, if and only if it starts below 2^63. */
  lemma SkipLoopEndsIff(left: int, bytes: seq<Byte>)
    requires 0 <= left < TWO_64
    ensures (exists turns: nat :: SkipTurns(left, bytes, turns).left == 0) <==> left < TWO_63
    ensures forall turns: nat :: SkipTurns(left, bytes, turns).left == 0 ==>
      SkipTurns(left, bytes, turns).bytes == SkipRuns(left) + bytes
  {
    hide SkipTurns;
    if left < TWO_63 {
      SkipTurnsBelow(left, bytes, left);
      forall turns: nat | SkipTurns(left, bytes, turns).left == 0
        ensures SkipTurns(left, bytes, turns).bytes == SkipRuns(left) + bytes
      {
        SkipTurnsBelow(left, bytes, turns);
        assert SkipRuns(0) + SkipTurns(left, bytes, turns).bytes == SkipTurns(left, bytes, turns).bytes;
      }
    } else {
      forall turns: nat ensures SkipTurns(left, bytes, turns).left >= TWO_63 {
        SkipTurnsAbove(left, bytes, turns);
      }
    }
  }

  // ---------------------------------------------------------------- any number of pushes

  /** A sample written `gap` ages after the one before it. */
  datatype Write = Write(value: int, gap: nat)

  function Replay(w: Width, first: int, writes: seq<Write>): (bytes: seq<Byte>) {
    if writes == [] then [] else
      var k := |writes| - 1;
      Pushed(w, Replay(w, first, writes[..k]), TipAfter(first, writes[..k]), writes[k].value, writes[k].gap)
  }

  function TipAfter(first: int, writes: seq<Write>): int {
    if writes == [] then first else writes[|writes| - 1].value
  }

  /** Newest first: each exact difference, then one `Skip` for every age passed over. */
  function Trail(first: int, writes: seq<Write>): seq<Delta> {
    if writes == [] then [] else
      var k := |writes| - 1;
      var gap := writes[k].gap;
      [ExactDelta(TipAfter(first, writes[..k]), writes[k].value)]
      + Repeat(Skip, if gap > 0 then gap - 1 else 0) + Trail(first, writes[..k])
  }

  ghost predicate Writable(w: Width, first: int, writes: seq<Write>) {
    && InRange(w, first)
    && forall k | 0 <= k < |writes| ::
         && InRange(w, writes[k].value) && writes[k].gap >= 1
         && Representable(w, TipAfter(first, writes[..k]), writes[k].value)
  }

  /** The codec inverts: every sequence of pushes is read back, newest first. */
  lemma {:induction false} ReplayDecodes(w: Width, first: int, writes: seq<Write>)
    requires Writable(w, first, writes)
    ensures WellFormed(w, Replay(w, first, writes))
    ensures Deltas(w, Replay(w, first, writes)) == Trail(first, writes)
  {
    if writes != [] {
      var k := |writes| - 1;
      var before := writes[..k];
      WritableBefore(w, first, writes);
      ReplayDecodes(w, first, before);
      hide WellFormed, Deltas, Pushed, Writable, ExactDelta, InRange, Representable;
      var prev, next, gap := TipAfter(first, before), writes[k].value, writes[k].gap;
      PushIsExactIffRepresentable(w, Replay(w, first, before), prev, next, gap);
      PushDecodes(w, Replay(w, first, before), prev, next, gap);
    } else {
      hide Writable;
    }
  }

  lemma WritableBefore(w: Width, first: int, writes: seq<Write>)
    requires Writable(w, first, writes) && writes != []
    ensures var k := |writes| - 1; var prev := TipAfter(first, writes[..k]);
      && Writable(w, first, writes[..k])
      && InRange(w, prev) && InRange(w, writes[k].value) && writes[k].gap >= 1
      && Representable(w, prev, writes[k].value)
  {
    hide InRange, Representable;
    var k := |writes| - 1;
    var before := writes[..k];
    forall j | 0 <= j < k ensures before[j] == writes[j] && before[..j] == writes[..j] {}
    if k > 0 {
      assert before[k - 1] == writes[k - 1];
    }
  }

  // ---------------------------------------------------------------- size

  function CeilDiv(a: nat, b: nat): nat
    requires b > 0
  {
    (a + b - 1) / b
  }

  lemma {:induction false} SkipRunsSize(n: nat)
    ensures |SkipRuns(n)| == CeilDiv(n, RUN_MAX)
    decreases n
  {
    if n > 0 {
      SkipRunsSize(n - (if n < RUN_MAX then n else RUN_MAX));
    }
  }

  /** Seven bits to a byte, by repeated division. */
  lemma {:induction false} GroupsSize(d: int)
    requires d < 0x0800_0000_0000_0000
    ensures |Groups(d)| <= 9
  {
    var d1 := d / 128; var d2 := d1 / 128; var d3 := d2 / 128; var d4 := d3 / 128;
    var d5 := d4 / 128; var d6 := d5 / 128; var d7 := d6 / 128; var d8 := d7 / 128;
    assert d4 < 0x8000_0000;
    assert d8 < 8;
    GroupsStep(d); GroupsStep(d1); GroupsStep(d2); GroupsStep(d3); GroupsStep(d4);
    GroupsStep(d5); GroupsStep(d6); GroupsStep(d7); GroupsStep(d8);
    assert d8 / 128 <= 0;
    GroupsStep(d8 / 128);
  }

  lemma GroupsStep(d: int)
    ensures |Groups(d)| == if d <= 0 then 0 else |Groups(d / 128)| + 1
  {}

  /** One push costs a byte for every 31 skipped ages and at most ten more. */
  lemma PushSize(w: Width, bytes: seq<Byte>, prev: int, next: int, ageDiff: nat)
    requires InRange(w, prev) && InRange(w, next)
    requires ageDiff >= 1
    ensures |bytes| <= |Pushed(w, bytes, prev, next, ageDiff)|
                    <= |bytes| + CeilDiv(ageDiff - 1, 31) + 10
  {
    SkipRunsSize(ageDiff - 1);
    var d := Magnitude(w, prev, next);
    assert d < TWO_64;
    assert d / 32 < 0x0800_0000_0000_0000;
    GroupsSize(d / 32);
  }

  /** The buffer after `n` samples equal to the first one, each one age later. */
  function EqualPushes(w: Width, v: int, n: nat): seq<Byte> {
    if n == 0 then [] else Pushed(w, EqualPushes(w, v, n - 1), v, v, 1)
  }

  function ZeroRuns(n: nat): seq<Byte>
    requires n > 0
  {
    [RunByte(ZERO_TAG, (n - 1) % RUN_MAX + 1)] + Repeat(RunByte(ZERO_TAG, RUN_MAX), (n - 1) / RUN_MAX)
  }

  lemma {:induction false} EqualPushesShape(w: Width, v: int, n: nat)
    requires InRange(w, v) && n > 0
    ensures EqualPushes(w, v, n) == ZeroRuns(n)
  {
    PushEqual(w, EqualPushes(w, v, n - 1), v);
    if n > 1 {
      EqualPushesShape(w, v, n - 1);
      OneMoreZero(n);
    }
  }

  lemma PushEqual(w: Width, bytes: seq<Byte>, v: int)
    requires InRange(w, v)
    ensures Pushed(w, bytes, v, v, 1) ==
      if |bytes| > 0 && Tag(bytes[0]) == ZERO_TAG && Count(bytes[0]) < RUN_MAX
      then [RunByte(ZERO_TAG, Count(bytes[0]) + 1)] + bytes[1..]
      else [RunByte(ZERO_TAG, 1)] + bytes
  {
    assert SkipRuns(0) + bytes == bytes;
  }

  lemma OneMoreZero(n: nat)
    requires n > 1
    ensures var z := ZeroRuns(n - 1);
      Tag(z[0]) == ZERO_TAG && Count(z[0]) == (n - 2) % RUN_MAX + 1
      && ZeroRuns(n) == if Count(z[0]) < RUN_MAX then [RunByte(ZERO_TAG, Count(z[0]) + 1)] + z[1..]
                        else [RunByte(ZERO_TAG, 1)] + z
  {
    var z := ZeroRuns(n - 1);
    var full := RunByte(ZERO_TAG, RUN_MAX);
    assert Tag(z[0]) == ZERO_TAG && Count(z[0]) == (n - 2) % RUN_MAX + 1;
    if (n - 2) % RUN_MAX + 1 == RUN_MAX {
      assert (n - 1) / RUN_MAX == (n - 2) / RUN_MAX + 1 && (n - 1) % RUN_MAX == 0;
      assert z == Repeat(full, (n - 1) / RUN_MAX);
    } else {
      assert (n - 1) / RUN_MAX == (n - 2) / RUN_MAX && (n - 1) % RUN_MAX == (n - 2) % RUN_MAX + 1;
    }
  }

  /** A constant series costs one byte for 31 samples. */
  lemma EqualPushesSize(w: Width, v: int, n: nat)
    requires InRange(w, v)
    ensures |EqualPushes(w, v, n)| == CeilDiv(n, 31)
  {
    if n > 0 {
      EqualPushesShape(w, v, n);
    }
  }

  /**
   The format on examples: a rise of 990 after two skipped ages, a fall of 99995, an equal sample behind
   nothing, a run or a full run, and forty skipped ages in two runs.
   */
  lemma FormatExamples()
    ensures Pushed(U64, [], 10, 1000, 3) == [0x9E, 0x1E, 0x62]
    ensures Pushed(U64, [], 100000, 5, 1) == [0x98, 0xB4, 0x3B]
    ensures Pushed(U64, [], 5, 5, 1) == [0x41] && Pushed(U64, [0x41], 5, 5, 1) == [0x42]
    ensures Pushed(U64, [0x5F], 5, 5, 1) == [0x41, 0x5F]
    ensures SkipRuns(40) == [0x69, 0x7F]
  {
    assert SkipRuns(2) == [0x62] && SkipRuns(9) == [0x69] by { assert SkipRuns(0) == []; }
    assert Groups(0) == [] && Groups(30) == [0x9E];
    assert Groups(24) == [0x98] && Groups(3124) == [0x98, 0xB4];
    hide Groups, SkipRuns;
    assert Varint(false, 990) == [0x9E, 0x1E] && Varint(true, 99995) == [0x98, 0xB4, 0x3B];
  }

  // ---------------------------------------------------------------- truncation

  function Total(bytes: seq<Byte>): nat {
    if bytes == [] then 0 else CountByte(bytes[0]) + Total(bytes[1..])
  }

  lemma {:induction false} TotalIsLength(w: Width, bytes: seq<Byte>, acc: int)
    ensures |Decode(w, bytes, acc)| == Total(bytes)
    decreases |bytes|
  {
    if bytes != [] {
      var next := if IsContinuation(bytes[0]) then ShiftIn(w, acc, 128, bytes[0] % 128) else 0;
      TotalIsLength(w, bytes[1..], next);
    }
  }

  lemma {:induction false} TotalStep(bytes: seq<Byte>, k: nat)
    requires k < |bytes|
    ensures Total(bytes[..k + 1]) == Total(bytes[..k]) + CountByte(bytes[k])
  {
    if k == 0 {
      assert bytes[..1][1..] == [] && bytes[..0] == [];
    } else {
      TotalStep(bytes[1..], k - 1);
      assert bytes[1..][..k] == bytes[..k + 1][1..] && bytes[1..][..k - 1] == bytes[..k][1..];
    }
  }

  /** The first `k` bytes with `drop` taken off the run they end in. */
  function Cut(bytes: seq<Byte>, k: nat, drop: nat): seq<Byte>
    requires 0 < k <= |bytes| && drop <= bytes[k - 1]
  {
    bytes[..k - 1] + [bytes[k - 1] - drop]
  }

  /** `k` and `drop` name a place where a buffer may be cut. */
  predicate CutPoint(bytes: seq<Byte>, k: nat, drop: nat) {
    && 0 < k <= |bytes|
    && !IsContinuation(bytes[k - 1])
    && (drop > 0 ==> IsSpecial(bytes[k - 1]) && drop < Count(bytes[k - 1]))
  }

  lemma CutByte(b: Byte, drop: nat)
    requires !IsContinuation(b)
    requires drop > 0 ==> IsSpecial(b) && drop < Count(b)
    ensures drop <= b
    ensures Tag(b - drop) == Tag(b) && Count(b - drop) == Count(b) - drop
    ensures IsSpecial(b - drop) == IsSpecial(b) && !IsContinuation(b - drop)
  {}

  lemma CutHead(w: Width, b: Byte, tail: seq<Byte>, acc: int, open: bool, drop: nat)
    requires WellFormedFrom(w, [b] + tail, acc, open)
    requires CutPoint([b] + tail, 1, drop)
    ensures drop <= b && drop <= CountByte(b)
    ensures WellFormedFrom(w, [b - drop], acc, open)
    ensures CountByte(b) <= |Decode(w, [b] + tail, acc)|
    ensures Decode(w, [b - drop], acc) == Decode(w, [b] + tail, acc)[..CountByte(b) - drop]
  {
    CutByte(b, drop);
    var c: Byte := b - drop;
    assert ([b] + tail)[1..] == tail && [c][1..] == [];
    if IsSpecial(b) {
      var x := if Tag(b) == SKIP_TAG then Skip else Positive(0);
      assert Decode(w, [c], acc) == Repeat(x, Count(b) - drop) + [];
    }
  }

  /** Cutting there leaves a well-formed buffer holding a prefix of the differences. */
  lemma {:induction false} CutDecodes(w: Width, bytes: seq<Byte>, acc: int, open: bool, k: nat, drop: nat)
    requires 0 <= acc <= MaxOf(w)
    requires WellFormedFrom(w, bytes, acc, open)
    requires CutPoint(bytes, k, drop)
    ensures drop <= bytes[k - 1] && drop <= Total(bytes[..k]) <= |Decode(w, bytes, acc)|
    ensures WellFormedFrom(w, Cut(bytes, k, drop), acc, open)
    ensures Decode(w, Cut(bytes, k, drop), acc) == Decode(w, bytes, acc)[..Total(bytes[..k]) - drop]
    decreases k
  {
    hide Decode, WellFormedFrom, FirstDeltas, Pending, ByteFits;
    var b, tail := bytes[0], bytes[1..];
    assert bytes == [b] + tail;
    if k == 1 {
      CutHead(w, b, tail, acc, open, drop);
      assert bytes[..1] == [b] && [b][1..] == [];
      assert Cut(bytes, k, drop) == [b - drop];
    } else {
      var next := Pending(b, acc);
      DecodeStep(w, b, tail, acc, open);
      CutDecodes(w, tail, next, IsContinuation(b), k - 1, drop);
      var cut := Cut(tail, k - 1, drop);
      DecodeStep(w, b, cut, acc, open);
      assert Cut(bytes, k, drop) == [b] + cut;
      assert bytes[..k][0] == b && bytes[..k][1..] == tail[..k - 1];
      assert Total(bytes[..k]) == CountByte(b) + Total(tail[..k - 1]);
    }
  }
}
