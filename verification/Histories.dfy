/**
 One key's history as plain data: the newest value, the age it was written at and what the
 buffer yields behind it (cantal_history/src/backlog.rs).  The classes of module `Backlogs`
 are proved against these functions.
 */
module Histories {
  import opened Wrappers
  import opened DeltaCodec

  /** A 64-bit float is its bit pattern; only the NaN test looks inside. */
  predicate IsNaN(bits: int) {
    bits / 0x10_0000_0000_0000 % 2048 == 2047 && bits % 0x10_0000_0000_0000 != 0
  }

  const NAN: int := 0x7FF8_0000_0000_0000

  /** Positive infinity: the largest pattern, sign aside, that is a number. */
  const INFINITY: int := 0x7FF0_0000_0000_0000

  /** A 64-bit pattern is a NaN exactly when it lies, its sign taken off, above infinity. */
  lemma NaNIsAboveInfinity(bits: int)
    requires 0 <= bits < TWO_64
    ensures IsNaN(bits) <==> bits % TWO_63 > INFINITY
  {
    var top, low := bits / 0x10_0000_0000_0000, bits % 0x10_0000_0000_0000;
    SignOff(bits, top, low);
  }

  lemma SignOff(bits: int, top: int, low: int)
    requires 0 <= top < 4096 && 0 <= low < 0x10_0000_0000_0000 && bits == top * 0x10_0000_0000_0000 + low
    ensures bits % TWO_63 == top % 2048 * 0x10_0000_0000_0000 + low
  {
    if top >= 2048 {
      assert top % 2048 == top - 2048;
      assert bits == TWO_63 + ((top - 2048) * 0x10_0000_0000_0000 + low);
    }
  }

  datatype TipValue = Counter(n: int) | Integer(n: int) | Float(bits: int) | State(time: int, text: string)

  /** What a sample of each kind may hold. */
  predicate Storable(v: TipValue) {
    match v
    case Counter(n) => InRange(U64, n)
    case Integer(n) => InRange(I64, n)
    case Float(bits) => InRange(U64, bits)
    case State(_, _) => false
  }

  datatype Series =
    | IntSeries(w: Width, tip: int, age: nat, deltas: seq<Delta>)
    | FloatSeries(tip: int, age: nat, buf: seq<int>)

  function NewSeries(v: TipValue, age: nat): Series
    requires Storable(v)
  {
    match v
    case Counter(n) => IntSeries(U64, n, age, [])
    case Integer(n) => IntSeries(I64, n, age, [])
    case Float(bits) => FloatSeries(bits, age, [])
  }

  /** A value goes on only when its kind is the one already stored. */
  predicate SameKind(s: Series, v: TipValue) {
    match v
    case Counter(_) => s.IntSeries? && s.w == U64
    case Integer(_) => s.IntSeries? && s.w == I64
    case Float(_) => s.FloatSeries?
    case State(_, _) => false
  }

  function Number(v: TipValue): int
    requires !v.State?
  {
    if v.Float? then v.bits else v.n
  }

  function PushedDeltas(w: Width, deltas: seq<Delta>, prev: int, next: int, ageDiff: nat): seq<Delta> {
    if ageDiff == 0 then deltas
    else [StoredDelta(w, prev, next)] + Repeat(Skip, ageDiff - 1) + deltas
  }

  /** The float buffer puts the gap in front of the old value. */
  function PushedFloats(buf: seq<int>, prev: int, ageDiff: nat): seq<int> {
    Repeat(NAN, if ageDiff > 1 then ageDiff - 1 else 0) + ([prev] + buf)
  }

  /** A push older than the newest value changes nothing. */
  function PushNumber(s: Series, x: int, age: nat): Series {
    if age < s.age then s else
      match s
      case IntSeries(w, tip, a, deltas) => IntSeries(w, x, age, PushedDeltas(w, deltas, tip, x, age - a))
      case FloatSeries(tip, a, buf) => FloatSeries(x, age, PushedFloats(buf, tip, age - a))
  }

  function Take<T>(s: seq<T>, n: int): seq<T> {
    if n <= 0 then [] else if n <= |s| then s[..n] else s
  }

  /** Forget everything at or before `trimAge`; `None` when that includes the newest value. */
  function Trim(s: Series, trimAge: nat): Option<Series> {
    if s.age <= trimAge then None
    else match s
      case IntSeries(_, _, a, deltas) => Some(s.(deltas := Take(deltas, a - trimAge - 1)))
      case FloatSeries(_, a, buf) => Some(s.(buf := Take(buf, a - trimAge - 1)))
  }

  // ---------------------------------------------------------------- reading a history

  /** One step of the running value; machine arithmetic may wrap. */
  function Back(w: Width, tip: int, d: Delta): int {
    match d
    case Positive(x) => Wrap(w, tip - x)
    case Negative(x) => Wrap(w, tip + x)
    case Skip => tip
  }

  /** A value above its successor (a counter reset) reads as missing. */
  function Shown(w: Width, tip: int, d: Delta): Option<int> {
    if d.Positive? then Some(Back(w, tip, d)) else None
  }

  function Walk(w: Width, tip: int, deltas: seq<Delta>): (r: seq<Option<int>>)
    ensures |r| == |deltas|
    decreases |deltas|
  {
    if deltas == [] then [] else
      [Shown(w, tip, deltas[0])] + Walk(w, Back(w, tip, deltas[0]), deltas[1..])
  }

  function Masked(x: int): Option<int> {
    if IsNaN(x) then None else Some(x)
  }

  function MaskAll(buf: seq<int>): (r: seq<Option<int>>)
    ensures |r| == |buf|
  {
    seq(|buf|, i requires 0 <= i < |buf| => Masked(buf[i]))
  }

  /** What the buffer shows behind the newest value. */
  function Behind(s: Series): seq<Option<int>> {
    match s
    case IntSeries(w, tip, _, deltas) => Walk(w, tip, deltas)
    case FloatSeries(_, _, buf) => MaskAll(buf)
  }

  function Gap(s: Series, currentAge: nat): nat {
    if currentAge > s.age then currentAge - s.age else 0
  }

  /** The samples newest first, starting at `currentAge`. */
  function History(s: Series, currentAge: nat): seq<Option<int>> {
    Repeat(None, Gap(s, currentAge)) + ([Some(s.tip)] + Behind(s))
  }

  lemma HistoryLength(s: Series, currentAge: nat)
    ensures |History(s, currentAge)| == Gap(s, currentAge) + 1 + |Behind(s)|
  {}

  // ---------------------------------------------------------------- the plain list of samples

  /** The position of the newest present sample, or the length when there is none. */
  function FirstPresent(l: seq<Option<int>>): (i: nat)
    ensures i <= |l|
    ensures i < |l| ==> l[i].Some?
    ensures forall j | 0 <= j < i :: l[j] == None
  {
    if l == [] || l[0].Some? then 0 else
      var i := FirstPresent(l[1..]) + 1;
      assert forall j | 0 < j < i :: l[j] == l[1..][j - 1];
      i
  }

  /**
   A pushed integer: the new value, then the one before it (missing if it was larger), and only
   then the ages passed over.  The list lost its newest sample and kept the gap.
   */
  function ConsInteger(l: seq<Option<int>>, x: int): seq<Option<int>> {
    var i := FirstPresent(l);
    if i == |l| then [Some(x)] + l else
      [Some(x), if l[i].value > x then None else l[i]] + (l[..i] + l[i + 1..])
  }

  /** A pushed float goes in front; a NaN it covers stops being readable. */
  function ConsFloat(l: seq<Option<int>>, x: int): seq<Option<int>> {
    var i := FirstPresent(l);
    if i == |l| then [Some(x)] + l else [Some(x)] + l[i := Masked(l[i].value)]
  }

  lemma FirstPresentOf(n: nat, x: int, rest: seq<Option<int>>)
    ensures FirstPresent(Repeat(None, n) + ([Some(x)] + rest)) == n
  {
    var l := Repeat(None, n) + ([Some(x)] + rest);
    assert l[n] == Some(x) && forall j | 0 <= j < n :: l[j] == None;
  }

  lemma WalkCons(w: Width, tip: int, d: Delta, rest: seq<Delta>)
    ensures Walk(w, tip, [d] + rest) == [Shown(w, tip, d)] + Walk(w, Back(w, tip, d), rest)
  {
    assert ([d] + rest)[1..] == rest;
  }

  lemma {:induction false} WalkSkips(w: Width, tip: int, n: nat, deltas: seq<Delta>)
    ensures Walk(w, tip, Repeat(Skip, n) + deltas) == Repeat(None, n) + Walk(w, tip, deltas)
    decreases n
  {
    if n == 0 {
      assert Repeat(Skip, 0) + deltas == deltas;
    } else {
      hide Walk;
      var rest := Repeat(Skip, n - 1) + deltas;
      assert Repeat(Skip, n) + deltas == [Skip] + rest;
      WalkCons(w, tip, Skip, rest);
      WalkSkips(w, tip, n - 1, deltas);
      RepeatSum<Option<int>>(None, 1, n - 1);
      assert Repeat<Option<int>>(None, 1) == [None];
    }
  }

  /** Nothing pushed: one more age without a value. */
  lemma HistoryAges(s: Series, age: nat)
    requires s.age <= age
    ensures History(s, age + 1) == [None] + History(s, age)
  {
    assert Repeat<Option<int>>(None, Gap(s, age + 1)) == [None] + Repeat(None, Gap(s, age));
  }

  lemma IntegerPushBehind(w: Width, tip: int, deltas: seq<Delta>, x: int, gap: nat)
    ensures var d := StoredDelta(w, tip, x);
      Walk(w, x, PushedDeltas(w, deltas, tip, x, gap + 1))
        == [Shown(w, x, d)] + (Repeat(None, gap) + Walk(w, Back(w, x, d), deltas))
  {
    hide Walk, StoredDelta, Back, Shown;
    var d, rest := StoredDelta(w, tip, x), Repeat(Skip, gap) + deltas;
    WalkSkips(w, Back(w, x, d), gap, deltas);
    WalkCons(w, x, d, rest);
    assert [d] + Repeat(Skip, gap) + deltas == [d] + rest;
  }

  /** Nothing behind the newest value shows. */
  predicate NoPositive(deltas: seq<Delta>) {
    forall i | 0 <= i < |deltas| :: !deltas[i].Positive?
  }

  lemma NoPositiveCons(d: Delta, rest: seq<Delta>)
    ensures NoPositive([d] + rest) <==> !d.Positive? && NoPositive(rest)
  {
    var all := [d] + rest;
    assert all[0] == d;
    assert forall i | 0 <= i < |rest| :: rest[i] == all[i + 1];
    assert forall i | 0 < i < |all| :: all[i] == rest[i - 1];
  }

  lemma {:induction false} WalkHides(w: Width, tip: int, deltas: seq<Delta>)
    requires NoPositive(deltas)
    ensures forall i | 0 <= i < |deltas| :: Walk(w, tip, deltas)[i] == None
    decreases |deltas|
  {
    if deltas != [] {
      WalkHides(w, Back(w, tip, deltas[0]), deltas[1..]);
    }
  }

  /** A walk from another value shows the same only if it shows nothing. */
  lemma {:induction false} WalkTells(w: Width, tip: int, tip': int, deltas: seq<Delta>)
    requires InRange(w, tip) && InRange(w, tip') && tip != tip'
    ensures Walk(w, tip, deltas) == Walk(w, tip', deltas) <==> NoPositive(deltas)
    decreases |deltas|
  {
    if deltas != [] {
      var d, rest := deltas[0], deltas[1..];
      BackKeepsApart(w, tip, tip', d);
      WalkTells(w, Back(w, tip, d), Back(w, tip', d), rest);
      NoPositiveCons(d, rest);
      assert deltas == [d] + rest;
      hide NoPositive, Back, Wrap;
      var a, b := Walk(w, tip, deltas), Walk(w, tip', deltas);
      assert a[0] == Shown(w, tip, d) && b[0] == Shown(w, tip', d);
      assert a[1..] == Walk(w, Back(w, tip, d), rest) && b[1..] == Walk(w, Back(w, tip', d), rest);
      assert a == [a[0]] + a[1..] && b == [b[0]] + b[1..];
    }
  }

  lemma BackKeepsApart(w: Width, tip: int, tip': int, d: Delta)
    requires InRange(w, tip) && InRange(w, tip') && tip != tip'
    ensures Back(w, tip, d) != Back(w, tip', d)
    ensures InRange(w, Back(w, tip, d)) && InRange(w, Back(w, tip', d))
  {
    match d
    case Positive(x) => WrapTells(w, tip - x, tip' - x);
    case Negative(x) => WrapTells(w, tip + x, tip' + x);
    case Skip =>
  }

  /** Values less than a whole turn apart stay apart. */
  lemma WrapTells(w: Width, a: int, b: int)
    requires 0 < a - b < TWO_64 || 0 < b - a < TWO_64
    ensures Wrap(w, a) != Wrap(w, b)
    ensures InRange(w, Wrap(w, a)) && InRange(w, Wrap(w, b))
  {
    assert a == a / TWO_64 * TWO_64 + a % TWO_64 && b == b / TWO_64 * TWO_64 + b % TWO_64;
  }

  lemma ConsIntegerShape(tip: int, rest: seq<Option<int>>, x: int, gap: nat)
    ensures ConsInteger(Repeat(None, gap) + ([Some(tip)] + rest), x)
         == [Some(x)] + ([if tip > x then None else Some(tip)] + (Repeat(None, gap) + rest))
  {
    hide FirstPresent;
    var l := Repeat(None, gap) + ([Some(tip)] + rest);
    FirstPresentOf(gap, tip, rest);
    assert l[..gap] + l[gap + 1..] == Repeat(None, gap) + rest;
  }

  /** The difference fits the type, or a reset puts it in front of nothing that shows. */
  predicate Keeps(s: Series, x: int)
    requires s.IntSeries?
  {
    Representable(s.w, s.tip, x) || (s.tip > x && NoPositive(s.deltas))
  }

  /** A pushed integer does to the history what it does to the plain list exactly when it is kept. */
  lemma IntegerPushIsCons(s: Series, x: int, age: nat)
    requires s.IntSeries? && s.age <= age
    requires InRange(s.w, s.tip) && InRange(s.w, x)
    ensures History(PushNumber(s, x, age + 1), age + 1) == ConsInteger(History(s, age), x) <==> Keeps(s, x)
  {
    var gap, d := age - s.age, StoredDelta(s.w, s.tip, x);
    PushedHistory(s, x, gap);
    ConsIntegerShape(s.tip, Behind(s), x, gap);
    StoredUndoes(s.w, s.tip, x);
    var back, shown := Back(s.w, x, d), Shown(s.w, x, d);
    if back != s.tip {
      WalkTells(s.w, back, s.tip, s.deltas);
    }
    assert Behind(s) == Walk(s.w, s.tip, s.deltas);
    Split(x, shown, if s.tip > x then None else Some(s.tip), gap, Walk(s.w, back, s.deltas), Behind(s));
    hide Walk, ConsInteger, StoredDelta, Back, Shown, NoPositive, Representable, InRange, PushNumber, Behind, Repeat;
  }

  lemma PushedHistory(s: Series, x: int, gap: nat)
    requires s.IntSeries?
    ensures var d := StoredDelta(s.w, s.tip, x);
      History(PushNumber(s, x, s.age + gap + 1), s.age + gap + 1)
        == [Some(x)] + ([Shown(s.w, x, d)] + (Repeat(None, gap) + Walk(s.w, Back(s.w, x, d), s.deltas)))
  {
    IntegerPushBehind(s.w, s.tip, s.deltas, x, gap);
    hide Walk, PushedDeltas, StoredDelta, Back, Shown;
    var s' := PushNumber(s, x, s.age + gap + 1);
    assert History(s', s.age + gap + 1) == [Some(x)] + Behind(s');
  }

  lemma Split(x: int, a: Option<int>, b: Option<int>, gap: nat, rest: seq<Option<int>>, rest': seq<Option<int>>)
    ensures [Some(x)] + ([a] + (Repeat(None, gap) + rest)) == [Some(x)] + ([b] + (Repeat(None, gap) + rest'))
       <==> a == b && rest == rest'
  {
    var l, l' := [Some(x)] + ([a] + (Repeat(None, gap) + rest)), [Some(x)] + ([b] + (Repeat(None, gap) + rest'));
    assert l[1] == a && l'[1] == b && l[gap + 2..] == rest && l'[gap + 2..] == rest';
  }

  /** The stored difference undone: the value before, shown unless it was larger, if it fitted. */
  lemma StoredUndoes(w: Width, tip: int, x: int)
    requires InRange(w, tip) && InRange(w, x)
    ensures var d := StoredDelta(w, tip, x);
      && InRange(w, Back(w, x, d))
      && (Back(w, x, d) == tip <==> Representable(w, tip, x))
      && (Shown(w, x, d) == (if tip > x then None else Some(tip)) <==> Representable(w, tip, x) || tip > x)
  {
    StoredIsExactIffRepresentable(w, tip, x);
    BackUndoes(w, tip, x);
    if !Representable(w, tip, x) {
      hide Representable;
      LossyUndoes(w, tip, x);
    }
  }

  lemma LossyUndoes(w: Width, tip: int, x: int)
    requires InRange(w, tip) && InRange(w, x) && !Representable(w, tip, x)
    ensures var d := StoredDelta(w, tip, x);
      d.Negative? == (tip > x) && !d.Skip? && Back(w, x, d) != tip && InRange(w, Back(w, x, d))
  {
    var m := if tip > x then tip - x else x - tip;
    assert w == I64 && TWO_63 <= m < TWO_64 && Wrap(w, m) == m - TWO_64 < 0;
    var kept := (m - TWO_64) % 32;
    if tip > x {
      WrapTells(w, x + kept, tip);
    } else {
      WrapTells(w, x - kept, tip);
    }
    assert Wrap(w, tip) == tip;
  }

  /** Undoing the newest difference gives the value before it, shown unless it was larger. */
  lemma BackUndoes(w: Width, tip: int, x: int)
    requires InRange(w, tip)
    ensures Back(w, x, ExactDelta(tip, x)) == tip
    ensures Shown(w, x, ExactDelta(tip, x)) == if tip > x then None else Some(tip)
  {}

  lemma FloatPushIsCons(s: Series, x: int, age: nat)
    requires s.FloatSeries? && s.age <= age
    ensures History(PushNumber(s, x, age + 1), age + 1) == ConsFloat(History(s, age), x)
  {
    var gap := age - s.age;
    FloatPushBehind(s.buf, s.tip, gap);
    FirstPresentOf(gap, s.tip, Behind(s));
    hide MaskAll, PushedFloats, IsNaN;
    var l := History(s, age);
    assert l[gap := Masked(s.tip)] == Repeat(None, gap) + ([Masked(s.tip)] + Behind(s));
    var s' := PushNumber(s, x, age + 1);
    assert History(s', age + 1) == [Some(x)] + Behind(s');
  }

  lemma FloatPushBehind(buf: seq<int>, prev: int, gap: nat)
    ensures MaskAll(PushedFloats(buf, prev, gap + 1)) == Repeat(None, gap) + ([Masked(prev)] + MaskAll(buf))
  {
    assert IsNaN(NAN);
  }

  lemma {:induction false} WalkTake(w: Width, tip: int, deltas: seq<Delta>, n: nat)
    requires n <= |deltas|
    ensures Walk(w, tip, deltas[..n]) == Walk(w, tip, deltas)[..n]
    decreases n
  {
    if n > 0 {
      WalkTake(w, Back(w, tip, deltas[0]), deltas[1..], n - 1);
      assert deltas[..n][1..] == deltas[1..][..n - 1];
    }
  }

  lemma BehindTrimmed(s: Series, trimAge: nat)
    requires trimAge < s.age
    ensures Behind(Trim(s, trimAge).value) == Take(Behind(s), s.age - trimAge - 1)
  {
    var n := s.age - trimAge - 1;
    match s
    case IntSeries(w, tip, _, deltas) => if n <= |deltas| { WalkTake(w, tip, deltas, n); }
    case FloatSeries(_, _, buf) =>
  }

  /** Trimming to `n` ages keeps the first `n` samples, and drops a series with none present there. */
  lemma TrimIsTake(s: Series, age: nat, n: nat)
    requires s.age <= age
    requires n <= age
    ensures Trim(s, age - n) == None <==> forall j | 0 <= j < |Take(History(s, age), n)| :: History(s, age)[j] == None
    ensures Trim(s, age - n).Some? ==> History(Trim(s, age - n).value, age) == Take(History(s, age), n)
  {
    var gap := age - s.age;
    GapThenTip(s, age);
    if n > gap {
      BehindTrimmed(s, age - n);
      hide Walk, MaskAll;
      var s' := Trim(s, age - n).value;
      TakeBehind(gap, s.tip, Behind(s), n);
    }
  }

  lemma GapThenTip(s: Series, age: nat)
    requires s.age <= age
    ensures |History(s, age)| > age - s.age && History(s, age)[age - s.age] == Some(s.tip)
    ensures forall j | 0 <= j < age - s.age :: History(s, age)[j] == None
  {}

  lemma TakeBehind(gap: nat, tip: int, rest: seq<Option<int>>, n: nat)
    requires n > gap
    ensures Take(Repeat(None, gap) + ([Some(tip)] + rest), n)
         == Repeat(None, gap) + ([Some(tip)] + Take(rest, n - gap - 1))
  {}
}
