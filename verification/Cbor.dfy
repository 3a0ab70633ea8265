/** Heads of CBOR items (RFC 8949, section 3): the writer of the history store and a standard reader. */
module Cbor {
  import opened Wrappers
  import opened DeltaCodec

  const UNSIGNED: int := 0
  const NEGATIVE: int := 1
  const BYTES: int := 2
  const TEXT: int := 3
  const ARRAY: int := 4
  const MAP: int := 5

  function BigEndian(x: nat, n: nat): (r: seq<Byte>)
    ensures |r| == n
  {
    if n == 0 then [] else BigEndian(x / 256, n - 1) + [x % 256]
  }

  function FromBigEndian(s: seq<Byte>): nat {
    if s == [] then 0 else FromBigEndian(s[..|s| - 1]) * 256 + s[|s| - 1]
  }

  function Pow256(n: nat): nat {
    if n == 0 then 1 else 256 * Pow256(n - 1)
  }

  lemma {:induction false} BigEndianInverts(x: nat, n: nat)
    requires x < Pow256(n)
    ensures FromBigEndian(BigEndian(x, n)) == x
  {
    if n > 0 {
      BigEndianInverts(x / 256, n - 1);
      var s := BigEndian(x, n);
      assert s[..n - 1] == BigEndian(x / 256, n - 1);
    }
  }

  lemma Powers()
    ensures Pow256(1) == 0x100 && Pow256(2) == 0x1_0000 && Pow256(4) == 0x1_0000_0000 && Pow256(8) == TWO_64
  {
    assert Pow256(0) == 1;
    assert Pow256(1) == 0x100;
    assert Pow256(2) == 0x1_0000;
    assert Pow256(3) == 0x100_0000;
    assert Pow256(4) == 0x1_0000_0000;
    assert Pow256(5) == 0x100_0000_0000;
    assert Pow256(6) == 0x1_0000_0000_0000;
    assert Pow256(7) == 0x100_0000_0000_0000;
  }

  function WideHead(major: int, info: int, x: nat, n: nat): seq<Byte>
    requires 0 <= major < 8 && 24 <= info < 28
  {
    [32 * major + info] + BigEndian(x, n)
  }

  /** `type_len`: the four-byte form starts at 0x100000, not at 0x10000. */
  function TypeLen(major: int, x: nat): seq<Byte>
    requires 0 <= major < 8 && x < TWO_64
  {
    if x <= 23 then [32 * major + x]
    else if x <= 0xFF then WideHead(major, 24, x, 1)
    else if x <= 0xFFFF then WideHead(major, 25, x, 2)
    else if 0x10_0000 <= x <= 0xFFFF_FFFF then WideHead(major, 26, x, 4)
    else WideHead(major, 27, x, 8)
  }

  /** The shortest head, as the CBOR library writes it. */
  function Head(major: int, x: nat): seq<Byte>
    requires 0 <= major < 8 && x < TWO_64
  {
    if x <= 23 then [32 * major + x]
    else if x <= 0xFF then WideHead(major, 24, x, 1)
    else if x <= 0xFFFF then WideHead(major, 25, x, 2)
    else if x <= 0xFFFF_FFFF then WideHead(major, 26, x, 4)
    else WideHead(major, 27, x, 8)
  }

  lemma BigEndianStep(x: nat, n: nat)
    requires n > 0
    ensures BigEndian(x, n) == BigEndian(x / 256, n - 1) + [x % 256]
  {}

  /** Some of the encodings that appendix A of RFC 8949 gives. */
  lemma StandardExamples()
    ensures Head(UNSIGNED, 10) == [0x0A] && Head(UNSIGNED, 24) == [0x18, 0x18]
    ensures Head(UNSIGNED, 1000) == [0x19, 0x03, 0xE8] && Head(NEGATIVE, 999) == [0x39, 0x03, 0xE7]
    ensures Head(UNSIGNED, 1000000) == [0x1A, 0x00, 0x0F, 0x42, 0x40]
    ensures Head(ARRAY, 3) == [0x83] && TypeLen(BYTES, 4) == [0x44] && Head(MAP, 1) == [0xA1]
  {
    BigEndianStep(24, 1);
    BigEndianStep(1000, 2); BigEndianStep(3, 1);
    BigEndianStep(999, 2);
    BigEndianStep(1000000, 4); BigEndianStep(3906, 3); BigEndianStep(15, 2); BigEndianStep(0, 1);
    assert BigEndian(0, 0) == [];
    hide BigEndian;
  }

  function HeadWidth(info: int): int {
    if info == 24 then 1 else if info == 25 then 2 else if info == 26 then 4 else if info == 27 then 8 else -1
  }

  /** A standard reader: major type, argument and what follows. */
  function ReadHead(s: seq<Byte>): Option<(int, nat, seq<Byte>)> {
    if s == [] then None else
      var major, info := s[0] / 32, s[0] % 32;
      if info < 24 then Some((major, info, s[1..]))
      else
        var n := HeadWidth(info);
        if n < 0 || |s| < 1 + n then None
        else Some((major, FromBigEndian(s[1..1 + n]), s[1 + n..]))
  }

  lemma ReadWideHead(major: int, info: int, x: nat, n: nat, rest: seq<Byte>)
    requires 0 <= major < 8 && 24 <= info < 28 && n == HeadWidth(info) && x < Pow256(n)
    ensures ReadHead(WideHead(major, info, x, n) + rest) == Some((major, x, rest))
  {
    var s := WideHead(major, info, x, n) + rest;
    BigEndianInverts(x, n);
    hide BigEndian, FromBigEndian, Pow256;
    assert s[0] == 32 * major + info;
    assert s[1..1 + n] == BigEndian(x, n);
    assert s[1 + n..] == rest;
  }

  lemma ReadShortHead(major: int, x: nat, rest: seq<Byte>)
    requires 0 <= major < 8 && x <= 23
    ensures ReadHead([32 * major + x] + rest) == Some((major, x, rest))
  {
    var s := [32 * major + x] + rest;
    assert s[1..] == rest;
  }

  /** The reader inverts the store's head for every `u64`. */
  lemma TypeLenReads(major: int, x: nat, rest: seq<Byte>)
    requires 0 <= major < 8 && x < TWO_64
    ensures ReadHead(TypeLen(major, x) + rest) == Some((major, x, rest))
  {
    Powers();
    hide Pow256, WideHead, ReadHead;
    if x <= 23 { ReadShortHead(major, x, rest); }
    else if x <= 0xFF { ReadWideHead(major, 24, x, 1, rest); }
    else if x <= 0xFFFF { ReadWideHead(major, 25, x, 2, rest); }
    else if 0x10_0000 <= x <= 0xFFFF_FFFF { ReadWideHead(major, 26, x, 4, rest); }
    else { ReadWideHead(major, 27, x, 8, rest); }
  }

  lemma HeadReads(major: int, x: nat, rest: seq<Byte>)
    requires 0 <= major < 8 && x < TWO_64
    ensures ReadHead(Head(major, x) + rest) == Some((major, x, rest))
  {
    Powers();
    hide Pow256, WideHead, ReadHead;
    if x <= 23 { ReadShortHead(major, x, rest); }
    else if x <= 0xFF { ReadWideHead(major, 24, x, 1, rest); }
    else if x <= 0xFFFF { ReadWideHead(major, 25, x, 2, rest); }
    else if x <= 0xFFFF_FFFF { ReadWideHead(major, 26, x, 4, rest); }
    else { ReadWideHead(major, 27, x, 8, rest); }
  }

  /** The store's head is the shortest one except in the range its third case leaves out. */
  lemma TypeLenIsShortest(major: int, x: nat)
    requires 0 <= major < 8 && x < TWO_64
    ensures TypeLen(major, x) == Head(major, x) <==> !(0x1_0000 <= x < 0x10_0000)
    ensures |Head(major, x)| <= |TypeLen(major, x)|
  {
    if 0x1_0000 <= x < 0x10_0000 {
      assert |TypeLen(major, x)| == 9 && |Head(major, x)| == 5;
    }
  }

  // ---------------------------------------------------------------- strings of bytes

  function ReadString(major: int, s: seq<Byte>): Option<(seq<Byte>, seq<Byte>)> {
    match ReadHead(s)
    case None => None
    case Some((m, n, rest)) => if m != major || n > |rest| then None else Some((rest[..n], rest[n..]))
  }

  lemma StringReads(major: int, head: seq<Byte>, body: seq<Byte>, rest: seq<Byte>)
    requires ReadHead(head + (body + rest)) == Some((major, |body|, body + rest))
    ensures ReadString(major, head + body + rest) == Some((body, rest))
  {
    assert head + body + rest == head + (body + rest);
    assert (body + rest)[..|body|] == body && (body + rest)[|body|..] == rest;
  }

  function Text(t: seq<Byte>): seq<Byte>
    requires |t| < TWO_64
  {
    Head(TEXT, |t|) + t
  }

  lemma TextReads(t: seq<Byte>, rest: seq<Byte>)
    requires |t| < TWO_64
    ensures ReadString(TEXT, Text(t) + rest) == Some((t, rest))
  {
    HeadReads(TEXT, |t|, t + rest);
    StringReads(TEXT, Head(TEXT, |t|), t, rest);
  }
}
