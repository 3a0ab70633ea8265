/**
 The values file a Python process lays out (py3/cantal.py) and the walk the Rust reader makes over
 it (cantal_values/src/lib.rs).
 */
module MmapLayout {

  // ---------------------------------------------------------------- writer

  datatype Kind = CounterValue | FloatValue | IntegerValue | StateValue

  /** A declared value; counters and levels take eight bytes, a state its header and its text. */
  datatype Item = Item(kind: Kind, size: nat)

  datatype Line = Pad(n: nat) | Entry(item: Item)

  predicate Declared(v: Item) {
    if v.kind == StateValue then v.size >= 8 else v.size == 8
  }

  /** Values as the sort leaves them, by size. */
  predicate Sorted(values: seq<Item>) {
    && (forall v | v in values :: Declared(v))
    && (forall i, j | 0 <= i < j < |values| :: values[i].size <= values[j].size)
  }

  /** Bitwise and of two naturals. */
  function And(a: nat, b: nat): nat {
    if a == 0 || b == 0 then 0 else (a % 2) * (b % 2) + 2 * And(a / 2, b / 2)
  }

  predicate PowerOfTwo(n: nat) {
    n == 1 || (n > 1 && n % 2 == 0 && PowerOfTwo(n / 2))
  }

  /** The test the layout makes means what its comment says. */
  lemma {:induction false} AndTestsPower(n: nat)
    requires n > 0
    ensures And(n, n - 1) == 0 <==> PowerOfTwo(n)
  {
    if n > 1 {
      if n % 2 == 0 {
        AndTestsPower(n / 2);
        assert (n - 1) / 2 == n / 2 - 1 && (n - 1) % 2 == 1;
      } else {
        assert (n - 1) / 2 == n / 2;
        AndSelf(n / 2);
      }
    }
  }

  lemma {:induction false} AndSelf(n: nat)
    ensures And(n, n) == n
  {
    if n > 0 {
      AndSelf(n / 2);
    }
  }

  /** Padding in front of the first value of a size. */
  function Padding(offset: nat, size: nat): nat
    requires size > 0
  {
    if And(size, size - 1) == 0 then (if offset % size != 0 then size - offset % size else 0)
    else if size % 8 == 0 then (if offset % 8 != 0 then size - offset % 8 else 0)
    else 0
  }

  /** Padding in front of value `i`: only where a new size starts. */
  function PaddingAt(values: seq<Item>, offset: nat, i: nat): nat
    requires Sorted(values) && i < |values|
  {
    assert values[i] in values;
    if i > 0 && values[i - 1].size == values[i].size then 0 else Padding(offset, values[i].size)
  }

  /** Where value `i` starts; at the end, the size of the file. */
  function End(values: seq<Item>, n: nat): nat
    requires Sorted(values) && n <= |values|
  {
    if n == 0 then 0 else Offset(values, n - 1) + values[n - 1].size
  }

  function Offset(values: seq<Item>, i: nat): nat
    requires Sorted(values) && i < |values|
    decreases i, 1
  {
    var e := if i == 0 then 0 else Offset(values, i - 1) + values[i - 1].size;
    e + PaddingAt(values, e, i)
  }

  /** The metadata lines of the first `n` values. */
  function Scheme(values: seq<Item>, n: nat): seq<Line>
    requires Sorted(values) && n <= |values|
  {
    if n == 0 then [] else
      var pad := PaddingAt(values, End(values, n - 1), n - 1);
      Scheme(values, n - 1) + (if pad > 0 then [Pad(pad)] else []) + [Entry(values[n - 1])]
  }

  lemma NothingLaidOut(values: seq<Item>)
    requires Sorted(values)
    ensures Scheme(values, 0) == [] && End(values, 0) == 0
  {}

  lemma EndStep(values: seq<Item>, i: nat)
    requires Sorted(values) && i < |values|
    ensures End(values, i + 1) == Offset(values, i) + values[i].size
  {}

  /** The lines of one more value. */
  lemma SchemeStep(values: seq<Item>, i: nat)
    requires Sorted(values) && i < |values|
    ensures var pad := Offset(values, i) - End(values, i);
      && pad >= 0
      && Scheme(values, i + 1) == Scheme(values, i) + (if pad > 0 then [Pad(pad)] else []) + [Entry(values[i])]
  {
    hide Sorted, PaddingAt;
  }

  method PadFor(offset: nat, size: nat) returns (pad: nat)
    requires size > 0
    ensures pad == Padding(offset, size)
  {
    pad := 0;
    if And(size, size - 1) == 0 {
      if offset % size != 0 {
        pad := size - offset % size;
      }
    } else if size % 8 == 0 {
      if offset % 8 != 0 {
        pad := size - offset % 8;
      }
    }
  }

  /** The nested loops: one turn of the outer one for every size. */
  method Start(values: seq<Item>) returns (offsets: seq<nat>, scheme: seq<Line>, size: nat)
    requires Sorted(values)
    ensures |offsets| == |values| && forall i | 0 <= i < |values| :: offsets[i] == Offset(values, i)
    ensures scheme == Scheme(values, |values|)
    ensures size == End(values, |values|)
  {
    hide Padding, PaddingAt, Sorted, Offset, End, Scheme;
    offsets, scheme := [], [];
    NothingLaidOut(values);
    var offset, i := 0, 0;
    while i < |values|
      invariant i <= |values| && |offsets| == i
      invariant forall j | 0 <= j < i :: offsets[j] == Offset(values, j)
      invariant scheme == Scheme(values, i) && offset == End(values, i)
      invariant 0 < i < |values| ==> values[i - 1].size != values[i].size
    {
      var groupSize := values[i].size;
      ghost var first := i;
      OffsetFromEnd(values, i);
      SchemeStep(values, i);
      var pad := PadFor(offset, groupSize);
      if pad > 0 {
        offset := offset + pad;
        scheme := scheme + [Pad(pad)];
      }
      while i < |values| && values[i].size == groupSize
        invariant first <= i <= |values| && |offsets| == i
        invariant forall j | 0 <= j < i :: offsets[j] == Offset(values, j)
        invariant first < i ==> values[i - 1].size == groupSize
        invariant i < |values| && (i == first || values[i].size == groupSize) ==>
          offset == Offset(values, i) && scheme + [Entry(values[i])] == Scheme(values, i + 1)
        invariant i > first ==> scheme == Scheme(values, i) && offset == End(values, i)
      {
        if i + 1 < |values| {
          OffsetFromEnd(values, i + 1);
          SchemeStep(values, i + 1);
        }
        EndStep(values, i);
        offsets := offsets + [offset];
        offset := offset + groupSize;
        scheme := scheme + [Entry(values[i])];
        i := i + 1;
      }
    }
    size := offset;
  }

  // ---------------------------------------------------------------- what the layout guarantees

  lemma MulGe(a: int, m: int)
    requires a >= 1 && m > 0
    ensures a * m >= m
  {}

  lemma MulLe(a: int, m: int)
    requires a <= -1 && m > 0
    ensures a * m <= -m
  {}

  lemma MulSub(q: int, d: int, m: int)
    ensures (q - d) * m == q * m - d * m
  {}

  lemma QuotientUnique(q: int, r: int, d: int, s: int, m: int)
    requires m > 0 && 0 <= r < m && 0 <= s < m && q * m + r == d * m + s
    ensures q == d && r == s
  {
    MulSub(q, d, m);
    if q > d { MulGe(q - d, m); }
    if q < d { MulLe(q - d, m); }
  }

  lemma DivRem(x: nat, m: nat)
    requires m > 0
    ensures x == x / m * m + x % m && 0 <= x % m < m
  {}

  lemma MultipleMod(q: nat, m: nat)
    requires m > 0
    ensures q * m % m == 0
  {
    MulNat(q, m);
    DivRem(q * m, m);
    QuotientUnique(q, 0, q * m / m, q * m % m, m);
  }

  lemma MulNat(q: nat, m: nat)
    ensures q * m >= 0
  {}

  /** The next multiple, and the one after it. */
  lemma NextMultiple(offset: nat, m: nat)
    requires m > 0
    ensures (offset + (m - offset % m)) % m == 0
    ensures offset % m == 0 ==> (offset + m) % m == 0
  {
    DivRem(offset, m);
    var q := offset / m;
    MulSub(q + 1, q, m);
    assert offset + (m - offset % m) == (q + 1) * m;
    MultipleMod(q + 1, m);
  }

  lemma ToNextMultiple(offset: nat, m: nat)
    requires m > 0
    ensures var pad := if offset % m != 0 then m - offset % m else 0;
      0 <= pad < m && (offset + pad) % m == 0
  {
    DivRem(offset, m);
    NextMultiple(offset, m);
  }

  lemma ToNextEighth(offset: nat, size: nat)
    requires size > 0 && size % 8 == 0
    ensures var pad := if offset % 8 != 0 then size - offset % 8 else 0;
      0 <= pad < size && (offset + pad) % 8 == 0
  {}

  lemma PaddingBounds(offset: nat, size: nat)
    requires size > 0
    ensures Padding(offset, size) < size
    ensures PowerOfTwo(size) ==> (offset + Padding(offset, size)) % size == 0
    ensures !PowerOfTwo(size) && size % 8 == 0 ==> (offset + Padding(offset, size)) % 8 == 0
  {
    AndTestsPower(size);
    hide And, PowerOfTwo;
    if PowerOfTwo(size) {
      ToNextMultiple(offset, size);
    } else if size % 8 == 0 {
      ToNextEighth(offset, size);
    }
  }

  /** `pad` is the padding that takes `offset` to the next multiple of `m`, none when it is one. */
  predicate JustAligns(offset: nat, m: nat, pad: int)
    requires m > 0
  {
    0 <= pad < m && (offset + pad) % m == 0
  }

  /**
   A power of two is padded as little as aligns it.  Another multiple of eight gets, when it needs any,
   its whole size less eight more than would do; any other size gets none.
   */
  lemma PaddingWastes(offset: nat, size: nat)
    requires size > 0
    ensures PowerOfTwo(size) ==> JustAligns(offset, size, Padding(offset, size))
    ensures !PowerOfTwo(size) && size % 8 == 0 ==>
      && (offset % 8 == 0 ==> Padding(offset, size) == 0)
      && (offset % 8 != 0 ==> JustAligns(offset, 8, Padding(offset, size) - (size - 8)))
    ensures !PowerOfTwo(size) && size % 8 != 0 ==> Padding(offset, size) == 0
  {
    AndTestsPower(size);
    hide And, PowerOfTwo, JustAligns;
    NextAligns(offset, size);
    NextAligns(offset, 8);
    if !PowerOfTwo(size) && size % 8 == 0 && offset % 8 != 0 {
      assert Padding(offset, size) - (size - 8) == 8 - offset % 8;
    }
  }

  lemma NextAligns(offset: nat, m: nat)
    requires m > 0
    ensures JustAligns(offset, m, if offset % m != 0 then m - offset % m else 0)
  {
    ToNextMultiple(offset, m);
  }

  /** Ranges follow one another: no two values overlap, and all lie in the file. */
  lemma {:induction false} RangesDisjoint(values: seq<Item>, i: nat, j: nat)
    requires Sorted(values) && i < j < |values|
    ensures Offset(values, i) + values[i].size <= Offset(values, j)
    decreases j
  {
    hide Padding, PaddingAt, Sorted;
    if i + 1 < j {
      RangesDisjoint(values, i, j - 1);
    }
  }

  lemma {:induction false} RangeInFile(values: seq<Item>, i: nat)
    requires Sorted(values) && i < |values|
    ensures Offset(values, i) + values[i].size <= End(values, |values|)
  {
    EndStep(values, |values| - 1);
    hide Padding, PaddingAt, Sorted, Offset, End;
    if i + 1 < |values| {
      RangesDisjoint(values, i, |values| - 1);
    }
  }

  /** Power-of-two sizes are aligned to themselves, other multiples of eight to eight. */
  predicate AlignedAt(offset: nat, size: nat)
    requires size > 0
  {
    && (PowerOfTwo(size) ==> offset % size == 0)
    && (!PowerOfTwo(size) && size % 8 == 0 ==> offset % 8 == 0)
  }

  lemma AlignedNext(offset: nat, size: nat)
    requires size > 0 && AlignedAt(offset, size)
    ensures AlignedAt(offset + size, size)
  {
    hide PowerOfTwo;
    NextMultiple(offset, size);
  }

  lemma {:induction false} Aligned(values: seq<Item>, i: nat)
    requires Sorted(values) && i < |values|
    ensures values[i].size > 0 && AlignedAt(Offset(values, i), values[i].size)
    decreases i
  {
    OffsetFromEnd(values, i);
    PaddingBounds(End(values, i), values[i].size);
    hide Padding, PaddingAt, PowerOfTwo, Sorted, Offset, End;
    if i > 0 && values[i - 1].size == values[i].size {
      Aligned(values, i - 1);
      hide AlignedAt;
      AlignedNext(Offset(values, i - 1), values[i].size);
    }
  }

  lemma OffsetFromEnd(values: seq<Item>, i: nat)
    requires Sorted(values) && i < |values|
    ensures values[i].size > 0
    ensures if i > 0 && values[i - 1].size == values[i].size
      then Offset(values, i) == Offset(values, i - 1) + values[i].size && Offset(values, i) == End(values, i)
      else Offset(values, i) == End(values, i) + Padding(End(values, i), values[i].size)
  {
    assert values[i] in values;
    hide Padding;
  }

  function TotalPadding(values: seq<Item>, n: nat): nat
    requires Sorted(values) && n <= |values|
  {
    if n == 0 then 0 else TotalPadding(values, n - 1) + PaddingAt(values, End(values, n - 1), n - 1)
  }

  /** Each size once. */
  function DistinctSizes(values: seq<Item>, n: nat): nat
    requires n <= |values|
  {
    if n == 0 then 0
    else DistinctSizes(values, n - 1)
         + (if n > 1 && values[n - 2].size == values[n - 1].size then 0 else values[n - 1].size)
  }

  function TotalSize(values: seq<Item>, n: nat): nat
    requires n <= |values|
  {
    if n == 0 then 0 else TotalSize(values, n - 1) + values[n - 1].size
  }

  /** The file is the values and the padding, and the padding is less than each size taken once. */
  lemma {:induction false} PaddingIsSmall(values: seq<Item>, n: nat)
    requires Sorted(values) && n <= |values|
    ensures End(values, n) == TotalSize(values, n) + TotalPadding(values, n)
    ensures n > 0 ==> TotalPadding(values, n) < DistinctSizes(values, n)
  {
    hide Padding;
    if n > 0 {
      PaddingIsSmall(values, n - 1);
      assert values[n - 1] in values;
      PaddingBounds(End(values, n - 1), values[n - 1].size);
    }
  }
}
