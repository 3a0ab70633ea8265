/** Writing one stored history to bytes and reading it back (cantal_history/src/backlog.rs, module `serde`). */
module Persistence {
  import opened Wrappers
  import opened DeltaCodec
  import opened Backlogs
  import opened Cbor

  /** What a stored history consists of. */
  datatype Stored =
    | DeltaStored(w: Width, tip: int, age: nat, bytes: seq<Byte>)
    | FloatStored(bits: nat, age: nat, buf: seq<nat>)

  predicate Encodable(s: Stored) {
    match s
    case DeltaStored(w, tip, age, bytes) => InRange(w, tip) && age < TWO_64 && |bytes| < TWO_64
    case FloatStored(bits, age, buf) =>
      bits < TWO_64 && age < TWO_64 && |buf| * 8 < TWO_64 && forall i | 0 <= i < |buf| :: buf[i] < TWO_64
  }

  // ---------------------------------------------------------------- encoding

  function EncodeInt(tip: int): seq<Byte>
    requires -TWO_63 <= tip < TWO_64
  {
    if tip >= 0 then Head(UNSIGNED, tip) else Head(NEGATIVE, -1 - tip)
  }

  const DOUBLE: Byte := 0xFB

  function EncodeDouble(bits: nat): seq<Byte> {
    [DOUBLE] + BigEndian(bits, 8)
  }

  function Floats(buf: seq<nat>): (r: seq<Byte>)
    ensures |r| == |buf| * 8
  {
    if buf == [] then [] else Floats(buf[..|buf| - 1]) + BigEndian(buf[|buf| - 1], 8)
  }

  function Blob(b: seq<Byte>): seq<Byte>
    requires |b| < TWO_64
  {
    TypeLen(BYTES, |b|) + b
  }

  function Encode(s: Stored): seq<Byte>
    requires Encodable(s)
  {
    match s
    case DeltaStored(_, tip, age, bytes) =>
      Head(ARRAY, 3) + (EncodeInt(tip) + (Head(UNSIGNED, age) + Blob(bytes)))
    case FloatStored(bits, age, buf) =>
      Head(ARRAY, 3) + (EncodeDouble(bits) + (Head(UNSIGNED, age) + Blob(Floats(buf))))
  }

  /** An integer history at 10 written at age 1000, with two bytes behind it; and a float one at 1.5. */
  lemma StoredExamples()
    ensures Encode(DeltaStored(I64, 10, 1000, [0x41, 0x07])) == [0x83, 0x0A, 0x19, 0x03, 0xE8, 0x42, 0x41, 0x07]
    ensures Encode(DeltaStored(I64, -1000, 3, [])) == [0x83, 0x39, 0x03, 0xE7, 0x03, 0x40]
    ensures Encode(FloatStored(0x3FF8_0000_0000_0000, 3, []))
         == [0x83, 0xFB, 0x3F, 0xF8, 0, 0, 0, 0, 0, 0, 0x03, 0x40]
  {
    StandardExamples();
    ExampleDouble();
    hide BigEndian;
  }

  lemma ExampleDouble()
    ensures BigEndian(0x3FF8_0000_0000_0000, 8) == [0x3F, 0xF8, 0, 0, 0, 0, 0, 0]
  {
    BigEndianStep(0x3FF8_0000_0000_0000, 8); BigEndianStep(0x3F_F800_0000_0000, 7);
    BigEndianStep(0x3FF8_0000_0000, 6); BigEndianStep(0x3F_F800_0000, 5);
    BigEndianStep(0x3FF8_0000, 4); BigEndianStep(0x3F_F800, 3);
    BigEndianStep(0x3FF8, 2); BigEndianStep(0x3F, 1);
    assert BigEndian(0, 0) == [];
    hide BigEndian;
  }

  // ---------------------------------------------------------------- decoding

  function ReadInt(w: Width, s: seq<Byte>): Option<(int, seq<Byte>)> {
    match ReadHead(s)
    case None => None
    case Some((m, n, rest)) =>
      if m == UNSIGNED && n <= MaxOf(w) then Some((n, rest))
      else if m == NEGATIVE && -1 - n >= MinOf(w) then Some((-1 - n, rest))
      else None
  }

  function ReadDouble(s: seq<Byte>): Option<(nat, seq<Byte>)> {
    if |s| < 9 || s[0] != DOUBLE then None else Some((FromBigEndian(s[1..9]), s[9..]))
  }

  function ReadFloats(b: seq<Byte>): seq<nat>
    requires |b| % 8 == 0
  {
    if b == [] then [] else [FromBigEndian(b[..8])] + ReadFloats(b[8..])
  }

  datatype Shape = Delta(w: Width) | Double

  /** The age and the byte string that end every stored history. */
  function ReadTail(s: seq<Byte>): Option<(nat, seq<Byte>, seq<Byte>)> {
    match ReadInt(U64, s)
    case None => None
    case Some((age, rest)) =>
      match ReadString(BYTES, rest)
      case None => None
      case Some((b, rest')) => if age < 0 then None else Some((age, b, rest'))
  }

  function Decode(shape: Shape, s: seq<Byte>): Option<(Stored, seq<Byte>)> {
    match ReadHead(s)
    case None => None
    case Some((m, n, rest)) =>
      if m != ARRAY || n != 3 then None else
        match shape
        case Delta(w) =>
          (match ReadInt(w, rest)
           case None => None
           case Some((tip, rest')) =>
             match ReadTail(rest')
             case None => None
             case Some((age, b, rest'')) => Some((DeltaStored(w, tip, age, b), rest'')))
        case Double =>
          (match ReadDouble(rest)
           case None => None
           case Some((bits, rest')) =>
             match ReadTail(rest')
             case None => None
             case Some((age, b, rest'')) =>
               if |b| % 8 > 0 then None else Some((FloatStored(bits, age, ReadFloats(b)), rest'')))
  }

  // ---------------------------------------------------------------- round trip

  lemma IntReads(w: Width, x: int, rest: seq<Byte>)
    requires InRange(w, x)
    ensures ReadInt(w, EncodeInt(x) + rest) == Some((x, rest))
  {
    hide ReadHead, Head;
    if x >= 0 {
      HeadReads(UNSIGNED, x, rest);
    } else {
      HeadReads(NEGATIVE, -1 - x, rest);
    }
  }

  lemma DoubleReads(bits: nat, rest: seq<Byte>)
    requires bits < TWO_64
    ensures ReadDouble(EncodeDouble(bits) + rest) == Some((bits, rest))
  {
    Powers();
    BigEndianInverts(bits, 8);
    hide BigEndian, FromBigEndian, Pow256;
    var s := EncodeDouble(bits) + rest;
    assert s[1..9] == BigEndian(bits, 8) && s[9..] == rest;
  }

  lemma TailReads(age: nat, b: seq<Byte>, rest: seq<Byte>)
    requires age < TWO_64 && |b| < TWO_64
    ensures ReadTail(Head(UNSIGNED, age) + Blob(b) + rest) == Some((age, b, rest))
  {
    IntReads(U64, age, Blob(b) + rest);
    TypeLenReads(BYTES, |b|, b + rest);
    StringReads(BYTES, TypeLen(BYTES, |b|), b, rest);
    hide ReadInt, ReadString, Head, TypeLen, ReadHead;
    assert Head(UNSIGNED, age) + Blob(b) + rest == Head(UNSIGNED, age) + (Blob(b) + rest);
  }

  lemma {:induction false} FloatsRead(buf: seq<nat>, more: seq<Byte>)
    requires |more| % 8 == 0
    requires forall i | 0 <= i < |buf| :: buf[i] < TWO_64
    ensures |Floats(buf) + more| % 8 == 0
    ensures ReadFloats(Floats(buf) + more) == buf + ReadFloats(more)
    decreases |buf|
  {
    if buf == [] {
      assert Floats(buf) + more == more;
    } else {
      var n := |buf| - 1;
      var last := BigEndian(buf[n], 8);
      FloatsRead(buf[..n], last + more);
      Powers();
      BigEndianInverts(buf[n], 8);
      hide BigEndian, FromBigEndian, Pow256;
      assert Floats(buf) + more == Floats(buf[..n]) + (last + more);
      assert (last + more)[..8] == last && (last + more)[8..] == more;
      assert ReadFloats(last + more) == [buf[n]] + ReadFloats(more);
    }
  }

  /** Whatever follows, decoding gives back the tip, the age and the same buffer in the same order. */
  lemma RoundTrip(s: Stored, rest: seq<Byte>)
    requires Encodable(s)
    ensures Decode(if s.FloatStored? then Double else Delta(s.w), Encode(s) + rest) == Some((s, rest))
  {
    match s
    case DeltaStored(w, tip, age, bytes) =>
      var tail := Head(UNSIGNED, age) + Blob(bytes);
      Regroup(Head(ARRAY, 3), EncodeInt(tip), tail, rest);
      HeadReads(ARRAY, 3, EncodeInt(tip) + (tail + rest));
      IntReads(w, tip, tail + rest);
      TailReads(age, bytes, rest);
      hide ReadHead, ReadInt, ReadTail, Head, Blob, EncodeInt;
    case FloatStored(bits, age, buf) =>
      var tail := Head(UNSIGNED, age) + Blob(Floats(buf));
      Regroup(Head(ARRAY, 3), EncodeDouble(bits), tail, rest);
      HeadReads(ARRAY, 3, EncodeDouble(bits) + (tail + rest));
      DoubleReads(bits, tail + rest);
      TailReads(age, Floats(buf), rest);
      FloatsRead(buf, []);
      assert Floats(buf) + [] == Floats(buf) && ReadFloats([]) == [];
      assert |Floats(buf)| % 8 == 0 && ReadFloats(Floats(buf)) == buf;
      hide ReadHead, ReadDouble, ReadTail, Head, Blob, EncodeDouble, Floats, ReadFloats;
  }

  lemma Regroup(a: seq<Byte>, b: seq<Byte>, c: seq<Byte>, d: seq<Byte>)
    ensures a + (b + c) + d == a + (b + (c + d))
  {}

  // ---------------------------------------------------------------- the store's own loops

  ghost function StoredDeltas(inner: DeltaInner): Stored
    reads inner, inner.buf
  {
    DeltaStored(inner.w, inner.tip, inner.age, inner.buf.bytes)
  }

  /** `write_bytes`: the head, then one byte at a time. */
  method WriteBytes(bytes: seq<Byte>) returns (out: seq<Byte>)
    requires |bytes| < TWO_64
    ensures out == Blob(bytes)
  {
    out := TypeLen(BYTES, |bytes|);
    for i := 0 to |bytes|
      invariant out == TypeLen(BYTES, |bytes|) + bytes[..i]
    {
      out := out + [bytes[i]];
    }
    assert bytes[..|bytes|] == bytes;
  }

  method WriteFloats(buf: seq<nat>) returns (out: seq<Byte>)
    requires |buf| * 8 < TWO_64
    ensures out == Blob(Floats(buf))
  {
    out := TypeLen(BYTES, |buf| * 8);
    for i := 0 to |buf|
      invariant out == TypeLen(BYTES, |buf| * 8) + Floats(buf[..i])
    {
      assert buf[..i + 1][..i] == buf[..i];
      out := out + BigEndian(buf[i], 8);
    }
    assert buf[..|buf|] == buf;
  }

  method EncodeDeltaInner(inner: DeltaInner) returns (out: seq<Byte>)
    requires inner.Valid() && Encodable(StoredDeltas(inner))
    ensures out == Encode(StoredDeltas(inner))
  {
    hide Head, EncodeInt, Blob, TypeLen;
    var blob := WriteBytes(inner.buf.bytes);
    out := Head(ARRAY, 3) + EncodeInt(inner.tip) + Head(UNSIGNED, inner.age) + blob;
    RegroupFour(Head(ARRAY, 3), EncodeInt(inner.tip), Head(UNSIGNED, inner.age), blob);
  }

  method EncodeFloatInner(inner: FloatInner) returns (out: seq<Byte>)
    requires 0 <= inner.tip && forall i | 0 <= i < |inner.buf| :: inner.buf[i] >= 0
    requires Encodable(FloatStored(inner.tip, inner.age, inner.buf))
    ensures out == Encode(FloatStored(inner.tip, inner.age, inner.buf))
  {
    hide Head, EncodeDouble, Blob, TypeLen, Floats;
    var blob := WriteFloats(inner.buf);
    out := Head(ARRAY, 3) + EncodeDouble(inner.tip) + Head(UNSIGNED, inner.age) + blob;
    RegroupFour(Head(ARRAY, 3), EncodeDouble(inner.tip), Head(UNSIGNED, inner.age), blob);
  }

  lemma RegroupFour(a: seq<Byte>, b: seq<Byte>, c: seq<Byte>, d: seq<Byte>)
    ensures a + b + c + d == a + (b + (c + d))
  {}

  /** `read_f64` in a loop over the byte string. */
  method DecodeFloats(b: seq<Byte>) returns (r: Option<seq<nat>>)
    ensures r == None <==> |b| % 8 > 0
    ensures r.Some? ==> r.value == ReadFloats(b)
  {
    if |b| % 8 > 0 {
      return None;
    }
    var num := |b| / 8;
    var buf: seq<nat> := [];
    for i := 0 to num
      invariant ReadFloats(b) == buf + ReadFloats(b[8 * i..])
    {
      assert b[8 * i..][..8] == b[8 * i..8 * i + 8] && b[8 * i..][8..] == b[8 * (i + 1)..];
      buf := buf + [FromBigEndian(b[8 * i..8 * i + 8])];
    }
    assert b[8 * num..] == [];
    r := Some(buf);
  }

  /** Saving a history and loading it again gives an equal one, and leaves what follows it unread. */
  method SaveAndLoad(inner: DeltaInner, rest: seq<Byte>) returns (copy: DeltaInner, unread: seq<Byte>)
    requires inner.Valid() && Encodable(StoredDeltas(inner))
    ensures copy.Valid() && copy.State() == inner.State() && StoredDeltas(copy) == StoredDeltas(inner)
    ensures unread == rest
  {
    hide Head, EncodeInt, Blob, ReadHead, ReadInt, ReadTail;
    var out := EncodeDeltaInner(inner);
    RoundTrip(StoredDeltas(inner), rest);
    var loaded := Decode(Delta(inner.w), out + rest);
    var (stored, left) := loaded.value;
    copy := new DeltaInner.Unpack(inner.w, stored.tip, stored.age, stored.bytes);
    unread := left;
  }

  /** The same for floats; the buffer's order is kept. */
  method SaveAndLoadFloats(inner: FloatInner, rest: seq<Byte>) returns (copy: FloatInner, unread: seq<Byte>)
    requires 0 <= inner.tip && forall i | 0 <= i < |inner.buf| :: inner.buf[i] >= 0
    requires Encodable(FloatStored(inner.tip, inner.age, inner.buf))
    ensures fresh(copy) && copy.State() == inner.State()
    ensures unread == rest
  {
    hide Head, EncodeDouble, Blob, ReadHead, ReadDouble, ReadTail, Floats, ReadFloats;
    var out := EncodeFloatInner(inner);
    RoundTrip(FloatStored(inner.tip, inner.age, inner.buf), rest);
    var loaded := Decode(Double, out + rest);
    var (stored, left) := loaded.value;
    copy := new FloatInner.Unpack(stored.bits, stored.age, stored.buf);
    unread := left;
  }
}
