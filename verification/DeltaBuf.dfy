/** The delta buffer, updated in place, and its iterator (cantal_history/src/deltabuf.rs). */
module DeltaBuffers {
  import opened Wrappers
  import opened DeltaCodec

  /** Where a truncation cuts, or how many differences there are when it does not. */
  datatype CutResult = CutHere(limitBytes: nat, truncateNum: nat) | TooShort(numCurrent: nat)

  class DeltaBuf {
    const w: Width
    var bytes: seq<Byte>  // the deque, front first

    ghost predicate Valid()
      reads this
    {
      WellFormed(w, bytes)
    }

    /** The differences held, newest first. */
    ghost function Contents(): seq<Delta>
      reads this
    {
      Deltas(w, bytes)
    }

    constructor (w: Width)
      ensures Valid() && this.w == w && bytes == [] && Contents() == []
    {
      this.w := w;
      bytes := [];
    }

    /** Bytes written out earlier, taken back. */
    constructor FromBytes(w: Width, bytes: seq<Byte>)
      requires WellFormed(w, bytes)
      ensures Valid() && this.w == w && this.bytes == bytes
    {
      this.w := w;
      this.bytes := bytes;
    }

    /** An age difference above 2^63 makes the skip loop run for ever: `SkipLoopEndsIff`. */
    method Push(oldValue: int, newValue: int, ageDiff: nat)
      requires Valid()
      requires InRange(w, oldValue) && InRange(w, newValue)
      requires ageDiff <= TWO_63
      modifies this
      ensures Valid()
      ensures bytes == Pushed(w, old(bytes), oldValue, newValue, ageDiff)
      ensures Contents() == if ageDiff == 0 then old(Contents()) else
        [StoredDelta(w, oldValue, newValue)] + Repeat(Skip, ageDiff - 1) + old(Contents())
    {
      if ageDiff == 0 {
        return;
      }
      hide Decode, WellFormedFrom, StoredDelta;
      PushDecodes(w, bytes, oldValue, newValue, ageDiff);
      PushSkips(ageDiff - 1);
      PushDifference(oldValue, newValue);
    }

    method PushSkips(ageDiff: nat)
      requires ageDiff < TWO_63
      modifies this
      ensures bytes == SkipRuns(ageDiff) + old(bytes)
    {
      var left := ageDiff;
      while left > 0
        invariant 0 <= left < TWO_63
        invariant SkipRuns(left) + bytes == SkipRuns(ageDiff) + old(bytes)
      {
        var cd := SkipChunk(left);
        SkipChunkIsMinimum(left);
        assert SkipRuns(left) + bytes == SkipRuns(left - cd) + ([RunByte(SKIP_TAG, cd)] + bytes);
        bytes := [RunByte(SKIP_TAG, cd)] + bytes;
        left := left - cd;
      }
    }

    method PushDifference(oldValue: int, newValue: int)
      modifies this
      ensures bytes == PushDelta(w, old(bytes), oldValue, newValue)
    {
      var negative := oldValue > newValue;
      var delta := Wrap(w, if negative then oldValue - newValue else newValue - oldValue);
      if delta == 0 {
        if |bytes| > 0 && Tag(bytes[0]) == ZERO_TAG {
          var oldVal := Count(bytes[0]);
          if oldVal < RUN_MAX {
            bytes := bytes[0 := RunByte(ZERO_TAG, oldVal + 1)];
            assert bytes == [RunByte(ZERO_TAG, oldVal + 1)] + old(bytes)[1..];
            return;
          }
        }
        bytes := [RunByte(ZERO_TAG, 1)] + bytes;
        return;
      }
      PushVarint(negative, delta);
    }

    method PushVarint(negative: bool, magnitude: int)
      modifies this
      ensures bytes == Varint(negative, magnitude) + old(bytes)
    {
      ghost var whole := Varint(negative, magnitude) + bytes;
      var delta := magnitude;
      var low: Byte := (if negative then 32 else 0) + delta % 32;
      bytes := [low] + bytes;
      delta := delta / 32;
      assert Groups(delta) + bytes == whole;
      while delta > 0
        invariant Groups(delta) + bytes == whole
      {
        assert Groups(delta) + bytes == Groups(delta / 128) + ([128 + delta % 128] + bytes);
        bytes := [128 + delta % 128] + bytes;
        delta := delta / 128;
      }
      assert Groups(delta) == [];
    }

    method Truncate(limit: nat) returns (kept: nat)
      requires Valid()
      modifies this
      ensures Valid()
      ensures kept == if limit < |old(Contents())| then limit else |old(Contents())|
      ensures Contents() == old(Contents())[..kept]
      ensures |bytes| <= |old(bytes)|
    {
      if limit == 0 {
        bytes := [];
        return 0;
      }
      hide Decode, WellFormedFrom, Total;
      TotalIsLength(w, bytes, 0);
      var cut := TruncateBytes(limit);
      match cut
      case CutHere(limitBytes, truncateNum) =>
        CutDecodes(w, bytes, 0, false, limitBytes, truncateNum);
        CutAt(limitBytes, truncateNum);
        kept := limit;
      case TooShort(numCurrent) =>
        kept := numCurrent;
    }

    method CutAt(limitBytes: nat, truncateNum: nat)
      requires CutPoint(bytes, limitBytes, truncateNum)
      modifies this
      ensures truncateNum <= old(bytes)[limitBytes - 1]
      ensures bytes == Cut(old(bytes), limitBytes, truncateNum)
    {
      CutByte(bytes[limitBytes - 1], truncateNum);
      if truncateNum > 0 {
        var b := bytes[limitBytes - 1];
        // the two checks the program makes in debug builds
        assert !IsContinuation(b);
        assert Count(b) > truncateNum;
        bytes := bytes[limitBytes - 1 := b - b % 32 + (Count(b) - truncateNum)];
      }
      assert bytes[..limitBytes] == Cut(old(bytes), limitBytes, truncateNum);
      PopBackTo(limitBytes);
    }

    method PopBackTo(limitBytes: nat)
      requires limitBytes <= |bytes|
      modifies this
      ensures bytes == old(bytes[..limitBytes])
    {
      while |bytes| > limitBytes
        invariant limitBytes <= |bytes| && bytes[..limitBytes] == old(bytes[..limitBytes])
      {
        bytes := bytes[..|bytes| - 1];
      }
    }

    /** The byte to cut after and what to take off the run it holds. */
    method TruncateBytes(limit: nat) returns (r: CutResult)
      requires Valid()
      requires limit > 0
      ensures r.TooShort? <==> |Contents()| < limit
      ensures r.TooShort? ==> r.numCurrent == |Contents()|
      ensures r.CutHere? ==>
        && CutPoint(bytes, r.limitBytes, r.truncateNum)
        && Total(bytes[..r.limitBytes]) - r.truncateNum == limit
    {
      TotalIsLength(w, bytes, 0);
      var counter := 0;
      for idx := 0 to |bytes|
        invariant counter == Total(bytes[..idx]) < limit
      {
        var byte := bytes[idx];
        TotalStep(bytes, idx);
        TotalOfPrefix(bytes, idx + 1);
        if IsContinuation(byte) {
          continue;
        }
        if IsSpecial(byte) {
          var cnt := Count(byte);
          var newCnt := counter + cnt;
          if newCnt == limit {
            return CutHere(idx + 1, 0);
          } else if newCnt > limit {
            return CutHere(idx + 1, cnt - (limit - counter));
          } else {
            counter := newCnt;
          }
        } else {
          counter := counter + 1;
          if counter >= limit {
            return CutHere(idx + 1, 0);
          }
        }
      }
      assert bytes[..|bytes|] == bytes;
      return TooShort(counter);
    }

    method Iterate() returns (it: DeltaIter)
      requires Valid()
      ensures fresh(it) && it.Valid() && it.w == w && it.Remaining() == Contents()
    {
      it := new DeltaIter(w, bytes);
    }
  }

  lemma {:induction false} TotalOfPrefix(bytes: seq<Byte>, k: nat)
    requires k <= |bytes|
    ensures Total(bytes[..k]) <= Total(bytes)
    decreases |bytes| - k
  {
    if k < |bytes| {
      TotalStep(bytes, k);
      TotalOfPrefix(bytes, k + 1);
    } else {
      assert bytes[..k] == bytes;
    }
  }

  lemma RepeatHead(x: Delta, n: nat, rest: seq<Delta>)
    requires n > 0
    ensures Repeat(x, n) + rest == [x] + (Repeat(x, n - 1) + rest)
    ensures n == 1 ==> Repeat(x, n) + rest == [x] + ([] + rest)
  {}

  lemma DecodeEnd(w: Width, acc: int, open: bool)
    ensures Decode(w, [], acc) == []
    ensures WellFormedFrom(w, [], acc, open) == !open
  {}

  datatype DequeItem = Empty | Gaps(n: nat) | Zeros(n: nat) | Diff(d: Delta)

  ghost function Queued(item: DequeItem): seq<Delta> {
    match item
    case Empty => []
    case Gaps(n) => Repeat(Skip, n)
    case Zeros(n) => Repeat(Positive(0), n)
    case Diff(d) => [d]
  }

  class DeltaIter {
    const w: Width
    var iter: seq<Byte>  // the bytes not read yet
    var queue: DequeItem

    ghost predicate Valid()
      reads this
    {
      && WellFormed(w, iter)
      && (queue.Gaps? ==> queue.n > 0)
      && (queue.Zeros? ==> queue.n > 0)
    }

    /** The differences still to come. */
    ghost function Remaining(): seq<Delta>
      reads this
    {
      Queued(queue) + Deltas(w, iter)
    }

    constructor (w: Width, bytes: seq<Byte>)
      requires WellFormed(w, bytes)
      ensures Valid() && this.w == w && Remaining() == Deltas(w, bytes)
    {
      this.w := w;
      iter := bytes;
      queue := Empty;
    }

    method RefillQueue()
      requires Valid() && queue == Empty
      modifies this
      ensures Valid() && Remaining() == old(Remaining())
      ensures queue == Empty <==> old(iter) == []
    {
      hide Decode, WellFormedFrom;
      var delta := 0;
      ghost var open := false;
      ghost var todo := Remaining();
      assert todo == Decode(w, iter, delta);
      while true
        invariant queue == Empty
        invariant 0 <= delta <= MaxOf(w)
        invariant WellFormedFrom(w, iter, delta, open)
        invariant Decode(w, iter, delta) == todo
        invariant !open ==> iter == old(iter)
        decreases |iter|
      {
        if iter == [] {
          DecodeEnd(w, delta, open);
          return;
        }
        var byte := iter[0];
        DecodeStep(w, byte, iter[1..], delta, open);
        assert iter == [byte] + iter[1..];
        iter := iter[1..];
        if IsContinuation(byte) {
          delta := ShiftIn(w, delta, 128, byte % 128);
          open := true;
        } else if IsSpecial(byte) {
          if Tag(byte) == SKIP_TAG {
            queue := Gaps(Count(byte));
            return;
          } else if Tag(byte) == ZERO_TAG {
            queue := Zeros(Count(byte));
            return;
          } else {
            assert false;
          }
        } else {
          delta := ShiftIn(w, delta, 32, Count(byte));
          queue := Diff(if IsNegative(byte) then Negative(delta) else Positive(delta));
          return;
        }
      }
    }

    method Next() returns (r: Option<Delta>)
      requires Valid()
      modifies this
      ensures Valid()
      ensures r == None <==> old(Remaining()) == []
      ensures r == None ==> Remaining() == []
      ensures r.Some? ==> old(Remaining()) == [r.value] + Remaining()
    {
      hide Decode, WellFormedFrom, Repeat;
      if queue == Empty || queue == Gaps(0) || queue == Zeros(0) {
        RefillQueue();
      }
      DecodeEnd(w, 0, false);
      match queue
      case Empty =>
        r := None;
      case Diff(x) =>
        queue, r := Empty, Some(x);
      case Gaps(n) =>
        queue, r := if n == 1 then Empty else Gaps(n - 1), Some(Skip);
        RepeatHead(Skip, n, Deltas(w, iter));
      case Zeros(n) =>
        queue, r := if n == 1 then Empty else Zeros(n - 1), Some(Positive(0));
        RepeatHead(Positive(0), n, Deltas(w, iter));
    }
  }

  /** `deltas().collect()`: the iterator yields the contents and then ends. */
  method Collect(buf: DeltaBuf) returns (out: seq<Delta>)
    requires buf.Valid()
    ensures out == buf.Contents()
  {
    var it := buf.Iterate();
    out := [];
    ghost var all := buf.Contents();
    while true
      invariant it.Valid() && fresh(it)
      invariant out + it.Remaining() == all
      decreases |it.Remaining()|
    {
      ghost var before := it.Remaining();
      var r := it.Next();
      match r
      case None =>
        return;
      case Some(d) =>
        assert out + before == out + [d] + it.Remaining();
        out := out + [d];
    }
  }
}
