/**
 Reading the store: single values, slices and rates (cantal_query/src/query.rs,
 src/carbon/util.rs, cantal_query/src/functions/derive.rs).  A subscript out of bounds, a subtraction
 that leaves its type (as a debug build checks; a release build wraps) or a failed `assert!` is the
 outcome `Panicked`.
 */
module Queries {
  import opened Wrappers
  import opened DeltaCodec
  import opened Histories
  import opened BacklogModel
  import opened BacklogRuns
  import opened Keys

  datatype Answer = Plainly(v: TipValue) | FloatDifference(tip: int, earlier: int)

  datatype Extract = Tip | DiffToAtMost(n: nat) | HistoryByNum(n: nat) | HistoryByTime(delta: nat)

  type Samples = seq<Option<int>>

  // ---------------------------------------------------------------- single values

  /** `enumerate().skip(1).take(n)`, the last present one: its index, or 0 when there is none. */
  function LastPresent(l: Samples, n: nat): (idx: nat)
    ensures idx > 0 ==> idx < |l| && idx <= n && l[idx].Some?
    ensures forall j | idx < j <= n && j < |l| :: l[j] == None
  {
    if n == 0 then 0
    else if n < |l| && l[n].Some? then n
    else LastPresent(l, n - 1)
  }

  function Saturating(w: Width, x: int): int {
    if x > MaxOf(w) then MaxOf(w) else if x < MinOf(w) then MinOf(w) else x
  }

  function TipOf(v: Series): TipValue {
    if v.FloatSeries? then Float(v.tip) else if v.w == U64 then Counter(v.tip) else Integer(v.tip)
  }

  function Difference(v: Series, x: int): Answer {
    if v.FloatSeries? then FloatDifference(v.tip, x)
    else if v.w == U64 then Plainly(Counter(Saturating(U64, v.tip - x)))
    else Plainly(Integer(Saturating(I64, v.tip - x)))
  }

  /**
   The last present sample of the window, with the timestamps of the newest value (at `cur`) and
   of the sample.
   */
  function Window(timestamps: seq<(int, int)>, l: Samples, cur: int, n: nat): Outcome<Option<(int, int, int)>> {
    var idx := LastPresent(l, n);
    if idx == 0 then Done(None)
    else if cur < 0 || idx < cur || cur >= |timestamps| || idx >= |timestamps| then Panicked
    else Done(Some((l[idx].value, timestamps[cur].0, timestamps[idx].0)))
  }

  function AnswerOf(v: Series, window: Outcome<Option<(int, int, int)>>): Outcome<Option<(Answer, (int, int))>> {
    match window
    case Panicked => Panicked
    case Done(None) => Done(None)
    case Done(Some((x, later, earlier))) => Done(Some((Difference(v, x), (later, earlier))))
  }

  function ExtractSingle(s: Snapshot, v: Series, e: Extract): Outcome<Option<(Answer, (int, int))>> {
    match e
    case Tip =>
      if v.age > s.age || s.age - v.age >= |s.timestamps| then Panicked
      else
        var ts := s.timestamps[s.age - v.age].0;
        Done(Some((Plainly(TipOf(v)), (ts, ts))))
    case DiffToAtMost(n) =>
      AnswerOf(v, Window(s.timestamps, History(v, s.age), s.age - v.age, n))
    case HistoryByNum(_) => Done(None)
    case HistoryByTime(_) => Done(None)
  }

  /** What the invariant says about one key: its history fits the timestamps, gap first. */
  predicate FitsTimes(s: Snapshot, v: Series) {
    var cur := s.age - v.age; var l := History(v, s.age);
    && Descending(s.timestamps)
    && 0 <= cur < |l| <= |s.timestamps|
    && l[cur] == Some(v.tip)
    && forall j | 0 <= j < cur :: l[j] == None
  }

  lemma HistoryFits(s: Snapshot, k: Key)
    requires Sized(s) && k in s.values
    ensures FitsTimes(s, s.values[k])
  {
    var v := s.values[k];
    HistoryLength(v, s.age);
    GapThenTip(v, s.age);
    hide History, Behind;
  }

  /** Where the last present sample of a window lies, relative to the newest value. */
  lemma WhereLastPresent(l: Samples, cur: nat, n: nat)
    requires cur < |l| && l[cur].Some? && forall j | 0 <= j < cur :: l[j] == None
    ensures LastPresent(l, n) > 0 <==> OlderInWindow(l, cur, n) || 0 < cur <= n
    ensures LastPresent(l, n) > cur <==> OlderInWindow(l, cur, n)
    ensures LastPresent(l, n) > 0 ==> LastPresent(l, n) >= cur
  {
    var idx := LastPresent(l, n);
    assert idx > cur ==> OlderInWindow(l, cur, n);
  }

  lemma TimesInOrder(timestamps: seq<(int, int)>, cur: nat, idx: nat)
    requires Descending(timestamps) && cur < |timestamps|
    ensures cur <= idx < |timestamps| ==> timestamps[cur].0 >= timestamps[idx].0
    ensures cur < idx < |timestamps| ==> timestamps[cur].0 > timestamps[idx].0
  {}

  lemma TipQueryIsSafe(s: Snapshot, k: Key)
    requires Sized(s) && k in s.values
    ensures var v, cur := s.values[k], s.age - s.values[k].age;
      && 0 <= cur < |s.timestamps|
      && var got := ExtractSingle(s, v, Tip);
         && got.Done? && got.value.Some?
         && got.value.value.1 == (s.timestamps[cur].0, s.timestamps[cur].0)
         && got.value.value.0 == match KindOf(v)
              case CounterKind => Plainly(Counter(v.tip))
              case IntegerKind => Plainly(Integer(v.tip))
              case FloatKind => Plainly(Float(v.tip))
  {
    HistoryFits(s, k);
    hide History, Sized;
  }

  /** Some sample older than the newest one lies within the window. */
  predicate OlderInWindow(l: Samples, cur: int, n: nat) {
    exists j | 0 <= j < |l| && cur < j :: j <= n && l[j].Some?
  }

  /** `idx` is the oldest sample present in the window. */
  predicate OldestInWindow(l: Samples, n: nat, idx: nat) {
    0 < idx < |l| && idx <= n && l[idx].Some? && forall j | idx < j < |l| && j <= n :: l[j] == None
  }

  /**
   `x` is that sample, `later` the time of the newest value and `earlier` the timestamp at the sample's
   index; module `RateTruth` says when that is the time of the scan that gave it.
   */
  ghost predicate Spans(timestamps: seq<(int, int)>, l: Samples, cur: int, n: nat, x: int, later: int, earlier: int) {
    && 0 <= cur < |timestamps| && later == timestamps[cur].0
    && exists idx: nat :: OldestInWindow(l, n, idx) && SampleAt(timestamps, l, idx, x, earlier)
  }

  predicate SampleAt(timestamps: seq<(int, int)>, l: Samples, idx: nat, x: int, t: int) {
    idx < |timestamps| && idx < |l| && l[idx] == Some(x) && timestamps[idx].0 == t
  }

  /** A window query answers exactly when some sample is in the window, with times in order. */
  ghost predicate Answers(timestamps: seq<(int, int)>, l: Samples, cur: int, n: nat) {
    var r := Window(timestamps, l, cur, n);
    && r.Done?
    && (r.value.Some? <==> OlderInWindow(l, cur, n) || 0 < cur <= n)
    && (r.value.Some? ==> Spans(timestamps, l, cur, n, r.value.value.0, r.value.value.1, r.value.value.2))
    && (r.value.Some? ==> r.value.value.1 >= r.value.value.2)
    && (r.value.Some? ==> (r.value.value.1 == r.value.value.2 <==> !OlderInWindow(l, cur, n)))
  }

  /** A window query on a series that fits. */
  lemma WindowIsSafe(timestamps: seq<(int, int)>, l: Samples, cur: nat, n: nat)
    requires cur < |l| <= |timestamps| && Descending(timestamps)
    requires l[cur].Some? && forall j | 0 <= j < cur :: l[j] == None
    ensures Answers(timestamps, l, cur, n)
  {
    WhereLastPresent(l, cur, n);
    TimesInOrder(timestamps, cur, LastPresent(l, n));
    if LastPresent(l, n) > 0 {
      var idx := LastPresent(l, n);
      assert OldestInWindow(l, n, idx) && SampleAt(timestamps, l, idx, l[idx].value, timestamps[idx].0);
    }
    hide OlderInWindow, OldestInWindow, SampleAt, LastPresent, Descending;
  }

  lemma FittingWindow(s: Snapshot, v: Series, n: nat)
    requires FitsTimes(s, v)
    ensures Answers(s.timestamps, History(v, s.age), s.age - v.age, n)
  {
    hide Answers, History, Descending;
    WindowIsSafe(s.timestamps, History(v, s.age), s.age - v.age, n);
  }

  lemma KeyWindow(s: Snapshot, k: Key, n: nat)
    requires Sized(s) && k in s.values
    ensures Answers(s.timestamps, History(s.values[k], s.age), s.age - s.values[k].age, n)
  {
    hide *;
    HistoryFits(s, k);
    FittingWindow(s, s.values[k], n);
  }

  lemma AnswersParts(timestamps: seq<(int, int)>, l: Samples, cur: int, n: nat)
    requires Answers(timestamps, l, cur, n)
    ensures var r := Window(timestamps, l, cur, n);
      && r.Done?
      && (r.value.Some? <==> OlderInWindow(l, cur, n) || 0 < cur <= n)
      && (r.value.Some? ==> Spans(timestamps, l, cur, n, r.value.value.0, r.value.value.1, r.value.value.2))
      && (r.value.Some? ==> r.value.value.1 >= r.value.value.2)
      && (r.value.Some? ==> (r.value.value.1 == r.value.value.2 <==> !OlderInWindow(l, cur, n)))
  {
    hide Window, OlderInWindow, Spans;
  }

  /** `got` is `exact` where that lies between `low` and `high`, else the end it passed. */
  predicate HeldWithin(low: int, high: int, exact: int, got: int) {
    && (low <= exact <= high ==> got == exact)
    && (exact < low ==> got == low)
    && (exact > high ==> got == high)
  }

  /**
   The newest number less the older one, in an answer of their kind: a counter never falls below zero,
   a signed difference stops at the ends of its type, floats are left to be subtracted in that order.
   */
  predicate Subtracts(kind: NumberKind, newest: int, older: int, answer: Answer) {
    match kind
    case CounterKind => answer == Plainly(Counter(if newest >= older then newest - older else 0))
    case IntegerKind =>
      && answer.Plainly? && answer.v.Integer?
      && HeldWithin(-0x8000_0000_0000_0000, 0x7FFF_FFFF_FFFF_FFFF, newest - older, answer.v.n)
    case FloatKind => answer == FloatDifference(newest, older)
  }

  lemma DifferenceSubtracts(v: Series, x: int)
    requires v.IntSeries? ==> InRange(v.w, v.tip) && InRange(v.w, x)
    ensures Subtracts(KindOf(v), v.tip, x, Difference(v, x))
  {}

  /** Decoding never leaves the type. */
  lemma {:induction false} WalkInRange(w: Width, tip: int, deltas: seq<Delta>)
    requires InRange(w, tip) && Fitting(w, deltas)
    ensures forall x | x in Walk(w, tip, deltas) && x.Some? :: InRange(w, x.value)
    decreases |deltas|
  {
    if deltas != [] {
      FittingRest(w, deltas);
      StepDrops(w, tip, true, deltas[0]);
      WalkInRange(w, Back(w, tip, deltas[0]), deltas[1..]);
      hide Back, InRange;
    }
  }

  lemma HistoryInRange(v: Series, age: nat, i: nat)
    requires v.IntSeries? && InRange(v.w, v.tip) && Fitting(v.w, v.deltas)
    requires i < |History(v, age)| && History(v, age)[i].Some?
    ensures InRange(v.w, History(v, age)[i].value)
  {
    WalkInRange(v.w, v.tip, v.deltas);
    hide Walk, InRange, Fitting;
    if i > Gap(v, age) {
      assert History(v, age)[i] == Behind(v)[i - Gap(v, age) - 1];
    }
  }

  /** The newest value less the oldest sample present in the window, between the timestamps at their indices. */
  ghost predicate DifferenceSpans(s: Snapshot, v: Series, n: nat, r: (Answer, (int, int))) {
    exists x ::
      && Spans(s.timestamps, History(v, s.age), s.age - v.age, n, x, r.1.0, r.1.1)
      && Subtracts(KindOf(v), v.tip, x, r.0)
  }

  /** A sample a window query finds. */
  lemma SpansInRange(s: Snapshot, k: Key, n: nat, x: int, later: int, earlier: int)
    requires Sized(s) && k in s.values && s.values[k].IntSeries?
    requires Spans(s.timestamps, History(s.values[k], s.age), s.age - s.values[k].age, n, x, later, earlier)
    ensures InRange(s.values[k].w, s.values[k].tip) && InRange(s.values[k].w, x)
  {
    hide Sized, History, InRange, Fitting;
    KeyIsSized(s, k);
    var v := s.values[k];
    var l := History(v, s.age);
    var idx: nat :| OldestInWindow(l, n, idx) && SampleAt(s.timestamps, l, idx, x, earlier);
    HistoryInRange(v, s.age, idx);
  }

  lemma AnswerIs(s: Snapshot, v: Series, n: nat)
    ensures ExtractSingle(s, v, DiffToAtMost(n))
         == AnswerOf(v, Window(s.timestamps, History(v, s.age), s.age - v.age, n))
  {}

  lemma AnswerOfWindow(s: Snapshot, v: Series, n: nat, window: Outcome<Option<(int, int, int)>>)
    requires window.Done?
    requires window.value.Some? ==>
      Spans(s.timestamps, History(v, s.age), s.age - v.age, n,
            window.value.value.0, window.value.value.1, window.value.value.2)
    requires window.value.Some? && v.IntSeries? ==> InRange(v.w, v.tip) && InRange(v.w, window.value.value.0)
    ensures var r := AnswerOf(v, window);
      && r.Done? && (r.value.Some? <==> window.value.Some?)
      && (r.value.Some? ==> DifferenceSpans(s, v, n, r.value.value))
      && (r.value.Some? ==> r.value.value.1 == (window.value.value.1, window.value.value.2))
  {
    if window.value.Some? {
      DifferenceSubtracts(v, window.value.value.0);
    }
    hide Spans, History, Difference, Subtracts, InRange;
  }

  /**
   On every good store a difference query answers without panicking, exactly when a sample is
   present in its window; it spans timestamps in order, strictly unless it compares the newest
   value with itself.
   */
  lemma DifferenceIsSafe(s: Snapshot, k: Key, n: nat)
    requires Sized(s) && k in s.values
    ensures var r := ExtractSingle(s, s.values[k], DiffToAtMost(n));
      var l := History(s.values[k], s.age); var cur := s.age - s.values[k].age;
      && r.Done?
      && (r.value.Some? <==> OlderInWindow(l, cur, n) || 0 < cur <= n)
      && (r.value.Some? ==> DifferenceSpans(s, s.values[k], n, r.value.value))
      && (r.value.Some? ==> r.value.value.1.0 >= r.value.value.1.1)
      && (r.value.Some? ==> (r.value.value.1.0 == r.value.value.1.1 <==> !OlderInWindow(l, cur, n)))
  {
    hide *;
    var v := s.values[k];
    KeyWindow(s, k, n);
    AnswersParts(s.timestamps, History(v, s.age), s.age - v.age, n);
    var window := Window(s.timestamps, History(v, s.age), s.age - v.age, n);
    if window.value.Some? && v.IntSeries? {
      SpansInRange(s, k, n, window.value.value.0, window.value.value.1, window.value.value.2);
    }
    AnswerOfWindow(s, v, n, window);
    AnswerIs(s, v, n);
  }

  // ---------------------------------------------------------------- the rate sent to Graphite

  /** Difference and elapsed milliseconds; a negative time would wrap. */
  function RateOf(tip: int, window: Outcome<Option<(int, int, int)>>): Outcome<Option<(int, int)>> {
    match window
    case Panicked => Panicked
    case Done(None) => Done(None)
    case Done(Some((x, later, earlier))) =>
      if later < earlier then Panicked else Done(Some((Saturating(U64, tip - x), later - earlier)))
  }

  /** `get_rate_from_counter` */
  function RateFromCounter(s: Snapshot, v: Series, n: nat): Outcome<Option<(int, int)>> {
    RateOf(v.tip, Window(s.timestamps, History(v, s.age), s.age - v.age, n))
  }

  lemma RateOfWindow(timestamps: seq<(int, int)>, l: Samples, cur: int, n: nat, tip: int,
                     window: Outcome<Option<(int, int, int)>>)
    requires window.Done?
    requires window.value.Some? ==>
      && Spans(timestamps, l, cur, n, window.value.value.0, window.value.value.1, window.value.value.2)
      && window.value.value.1 >= window.value.value.2
    ensures var r := RateOf(tip, window);
      && r.Done? && (r.value.Some? <==> window.value.Some?)
      && (r.value.Some? ==> RateSpans(timestamps, l, cur, n, tip, r.value.value.0, r.value.value.1))
      && (r.value.Some? ==> r.value.value.1 == window.value.value.1 - window.value.value.2)
  {
    hide Spans;
  }

  /** The same as a difference and the time between those two indices. */
  ghost predicate RateSpans(timestamps: seq<(int, int)>, l: Samples, cur: int, n: nat, tip: int, diff: int,
                            millis: int) {
    && diff >= 0 && millis >= 0
    && exists x, later, earlier ::
         && Spans(timestamps, l, cur, n, x, later, earlier)
         && HeldWithin(0, 0xFFFF_FFFF_FFFF_FFFF, tip - x, diff) && millis == later - earlier
  }

  /**
   The rate never panics and never divides by a negative time; it divides by zero exactly when
   the newest value is in the window, is not at the current age and has nothing present behind
   it there.
   */
  lemma RateIsSafe(s: Snapshot, k: Key, n: nat)
    requires Sized(s) && k in s.values
    ensures var r := RateFromCounter(s, s.values[k], n);
      var l := History(s.values[k], s.age); var cur := s.age - s.values[k].age;
      && r.Done?
      && (r.value.Some? <==> OlderInWindow(l, cur, n) || 0 < cur <= n)
      && (r.value.Some? ==> RateSpans(s.timestamps, l, cur, n, s.values[k].tip, r.value.value.0, r.value.value.1))
      && (r.value.Some? ==> (r.value.value.1 == 0 <==> !OlderInWindow(l, cur, n)))
  {
    hide *;
    var v := s.values[k];
    KeyWindow(s, k, n);
    AnswersParts(s.timestamps, History(v, s.age), s.age - v.age, n);
    RateOfWindow(s.timestamps, History(v, s.age), s.age - v.age, n, v.tip,
                 Window(s.timestamps, History(v, s.age), s.age - v.age, n));
    RateIs(s, v, n);
  }

  lemma RateIs(s: Snapshot, v: Series, n: nat)
    ensures RateFromCounter(s, v, n) == RateOf(v.tip, Window(s.timestamps, History(v, s.age), s.age - v.age, n))
  {}

  // ---------------------------------------------------------------- slices

  /** How many timestamps `HistoryByTime` takes: up to the first at least `delta` older than the newest. */
  ghost predicate Horizon(timestamps: seq<(int, int)>, delta: nat, num: nat) {
    && 0 < num <= |timestamps|
    && (forall j | 0 <= j < num - 1 :: timestamps[0].0 - timestamps[j].0 < delta)
    && (num < |timestamps| ==> timestamps[0].0 - timestamps[num - 1].0 >= delta)
  }

  method TakeByTime(timestamps: seq<(int, int)>, delta: nat) returns (num: nat)
    requires |timestamps| > 0 && Descending(timestamps)
    ensures Horizon(timestamps, delta, num)
  {
    var tip := timestamps[0].0;
    num := |timestamps|;
    for idx := 0 to |timestamps|
      invariant num == |timestamps|
      invariant forall j | 0 <= j < idx :: timestamps[0].0 - timestamps[j].0 < delta
    {
      var ts := timestamps[idx].0;
      assert tip >= ts;  // the subtraction below is on u64
      if tip - ts >= delta {
        num := idx + 1;
        break;
      }
    }
  }

  /** The newest `num` samples, or all, and the newest `num` timestamps, or all, without the durations. */
  predicate IsSlice(s: Snapshot, v: Series, num: nat, vec: Samples, times: seq<int>) {
    && vec <= History(v, s.age) && |vec| == Least(num, |History(v, s.age)|)
    && |times| == Least(num, |s.timestamps|) && forall i | 0 <= i < |times| :: times[i] == s.timestamps[i].0
  }

  method ExtractMulti(s: Snapshot, v: Series, e: Extract) returns (r: Option<(Samples, seq<int>)>)
    requires Descending(s.timestamps)
    ensures r.Some? <==> e.HistoryByNum? || (e.HistoryByTime? && |s.timestamps| > 0)
    ensures r.Some? ==> exists num: nat ::
      && IsSlice(s, v, num, r.value.0, r.value.1)
      && r.value == (Take(History(v, s.age), num), Times(Take(s.timestamps, num)))
      && (e.HistoryByNum? ==> num == e.n)
      && (e.HistoryByTime? ==> Horizon(s.timestamps, e.delta, num))
  {
    match e
    case HistoryByNum(n) =>
      r := Some((Take(History(v, s.age), n), Times(Take(s.timestamps, n))));
    case HistoryByTime(delta) =>
      if |s.timestamps| < 1 {
        return None;
      }
      var num := TakeByTime(s.timestamps, delta);
      r := Some((Take(History(v, s.age), num), Times(Take(s.timestamps, num))));
    case _ =>
      r := None;
  }

  function Times(timestamps: seq<(int, int)>): (r: seq<int>)
    ensures |r| == |timestamps|
  {
    seq(|timestamps|, i requires 0 <= i < |timestamps| => timestamps[i].0)
  }

  /** Extracted values never outnumber their timestamps. */
  lemma SliceFits(s: Snapshot, k: Key, num: nat)
    requires Sized(s) && k in s.values
    ensures |Take(History(s.values[k], s.age), num)| <= |Times(Take(s.timestamps, num))|
  {
    HistoryFits(s, k);
    hide Sized, History;
  }

  /**
   A slice has a value for every timestamp exactly when the key's history reaches as far as the slice
   or as the timestamps; a key younger than the slice has fewer.
   */
  lemma SliceIsFull(s: Snapshot, k: Key, num: nat)
    requires Sized(s) && k in s.values
    ensures var l := History(s.values[k], s.age);
      |Take(l, num)| == |Times(Take(s.timestamps, num))| <==> num <= |l| || |l| == |s.timestamps|
  {
    HistoryFits(s, k);
    hide Sized, History;
  }

  // ---------------------------------------------------------------- derivative

  /** One quotient; a difference that leaves the type, or no time between, panics. */
  function Slope(w: Width, a: Option<int>, b: Option<int>, ta: int, tb: int): Outcome<Option<real>> {
    if a.None? || b.None? then Done(None)
    else if !InRange(w, a.value - b.value) || ta <= tb then Panicked
    else Done(Some((a.value - b.value) as real * 1000.0 / (ta - tb) as real))
  }

  /** `derive_vec`: the zipped sequences against themselves shifted by one. */
  function DeriveVec(w: Width, vec: Samples, timestamps: seq<int>): seq<Outcome<Option<real>>> {
    var n := Least(|vec|, |timestamps|);
    if n == 0 then [] else
      seq(n - 1, i requires 0 <= i < n - 1 => Slope(w, vec[i], vec[i + 1], timestamps[i], timestamps[i + 1]))
  }

  /** The older of two adjacent samples is not the larger one, and their difference fits the type. */
  predicate Drops(w: Width, a: Option<int>, b: Option<int>) {
    a.Some? && b.Some? ==> 0 <= a.value - b.value <= MaxOf(w)
  }

  /** `ok` holds of every two adjacent samples. */
  predicate Adjacent(ok: (Option<int>, Option<int>) -> bool, l: Samples) {
    forall i | 0 <= i < |l| - 1 :: ok(l[i], l[i + 1])
  }

  predicate NeverRises(w: Width, l: Samples) {
    Adjacent((a, b) => Drops(w, a, b), l)
  }

  /** If they do not drop, the subtraction leaves the type, and wrapped it is not negative. */
  predicate DropsOrLeaves(w: Width, a: Option<int>, b: Option<int>) {
    Drops(w, a, b) || (!InRange(w, a.value - b.value) && 0 <= Wrap(w, a.value - b.value))
  }

  predicate NeverJustRises(w: Width, l: Samples) {
    Adjacent((a, b) => DropsOrLeaves(w, a, b), l)
  }

  /** Walking back from `tip`, no step down from a sample that shows goes below the type. */
  predicate NoStepWraps(w: Width, tip: int, shows: bool, deltas: seq<Delta>)
    decreases |deltas|
  {
    deltas == []
    || (match deltas[0]
        case Positive(x) =>
          (shows ==> InRange(w, tip - x)) && NoStepWraps(w, Back(w, tip, deltas[0]), true, deltas[1..])
        case _ => NoStepWraps(w, Back(w, tip, deltas[0]), false, deltas[1..]))
  }

  function Start(tip: int, shows: bool): Option<int> {
    if shows then Some(tip) else None
  }

  /** Adjacent present samples never grow into the past exactly when no step behind one of them wraps. */
  lemma {:induction false} WalkNeverRises(w: Width, tip: int, shows: bool, deltas: seq<Delta>)
    requires InRange(w, tip) && Fitting(w, deltas)
    ensures NeverRises(w, [Start(tip, shows)] + Walk(w, tip, deltas)) <==> NoStepWraps(w, tip, shows, deltas)
    ensures NeverJustRises(w, [Start(tip, shows)] + Walk(w, tip, deltas))
    decreases |deltas|
  {
    if deltas != [] {
      var d, rest := deltas[0], deltas[1..];
      var next := Back(w, tip, d);
      StepDrops(w, tip, shows, d);
      FittingRest(w, deltas);
      WalkNeverRises(w, next, d.Positive?, rest);
      assert Walk(w, tip, deltas) == [Start(next, d.Positive?)] + Walk(w, next, rest);
      hide Walk, Back, Fitting, Drops, DropsOrLeaves, NeverRises, NeverJustRises;
      PrependDrops(w, Start(tip, shows), [Start(next, d.Positive?)] + Walk(w, next, rest));
    }
  }

  lemma FittingRest(w: Width, deltas: seq<Delta>)
    requires Fitting(w, deltas) && deltas != []
    ensures Fitting(w, deltas[1..])
    ensures !deltas[0].Skip? ==> 0 <= deltas[0].x <= MaxOf(w)
  {}

  /** One step of the walk: where it wraps, the sample before it rises by more than the type holds. */
  lemma StepDrops(w: Width, tip: int, shows: bool, d: Delta)
    requires InRange(w, tip) && (!d.Skip? ==> 0 <= d.x <= MaxOf(w))
    ensures var next := Back(w, tip, d);
      && InRange(w, next)
      && Shown(w, tip, d) == Start(next, d.Positive?)
      && (Drops(w, Start(tip, shows), Shown(w, tip, d)) <==> (d.Positive? && shows ==> InRange(w, tip - d.x)))
      && DropsOrLeaves(w, Start(tip, shows), Shown(w, tip, d))
  {
    match d
    case Positive(x) =>
      if InRange(w, tip - x) {
        WrapStays(w, tip - x);
      } else {
        StepWraps(w, tip, x);
      }
      hide Wrap;
    case Negative(x) =>
    case Skip =>
  }

  lemma WrapStays(w: Width, x: int)
    requires InRange(w, x)
    ensures Wrap(w, x) == x
  {}

  /** A step below the type ends a whole turn higher; the difference of the two wraps back to the step. */
  lemma StepWraps(w: Width, tip: int, x: int)
    requires InRange(w, tip) && 0 <= x <= MaxOf(w) && !InRange(w, tip - x)
    ensures Wrap(w, tip - x) == tip - x + TWO_64 && InRange(w, tip - x + TWO_64)
    ensures !InRange(w, x - TWO_64) && Wrap(w, x - TWO_64) == x
  {}

  lemma PrependDrops(w: Width, a: Option<int>, m: Samples)
    requires m != []
    ensures NeverRises(w, [a] + m) <==> Drops(w, a, m[0]) && NeverRises(w, m)
    ensures NeverJustRises(w, [a] + m) <==> DropsOrLeaves(w, a, m[0]) && NeverJustRises(w, m)
  {
    var l := [a] + m;
    assert l[1..] == m;
    AdjacentTail((x, y) => Drops(w, x, y), l);
    AdjacentTail((x, y) => DropsOrLeaves(w, x, y), l);
    hide Drops, DropsOrLeaves, Adjacent;
  }

  lemma AdjacentTail(ok: (Option<int>, Option<int>) -> bool, l: Samples)
    requires |l| > 1
    ensures Adjacent(ok, l) <==> ok(l[0], l[1]) && Adjacent(ok, l[1..])
  {
    var m := l[1..];
    assert forall i | 0 <= i < |m| :: m[i] == l[i + 1];
    if ok(l[0], l[1]) && Adjacent(ok, m) {
      forall j | 0 <= j < |l| - 1 ensures ok(l[j], l[j + 1]) {
        if j > 0 {
          assert l[j] == m[j - 1] && l[j + 1] == m[j];
        }
      }
    }
  }

  /** The empty ages in front change nothing. */
  lemma {:induction false} GapDrops(w: Width, gap: nat, tail: Samples)
    requires tail != []
    ensures NeverRises(w, Repeat(None, gap) + tail) <==> NeverRises(w, tail)
    ensures NeverJustRises(w, Repeat(None, gap) + tail) <==> NeverJustRises(w, tail)
  {
    var l := Repeat(None, gap) + tail;
    if gap == 0 {
      assert l == tail;
    } else {
      GapDrops(w, gap - 1, tail);
      var less := Repeat(None, gap - 1) + tail;
      assert l == [None] + less;
      hide NeverRises, NeverJustRises;
      PrependDrops(w, None, less);
    }
  }

  /** The first `num` samples of an integer history. */
  lemma SliceSteps(v: Series, age: nat, num: nat)
    requires v.IntSeries? && InRange(v.w, v.tip) && Fitting(v.w, v.deltas)
    ensures var l := Take(History(v, age), num); var gap := Gap(v, age);
      && (NeverRises(v.w, l) <==> num <= gap || NoStepWraps(v.w, v.tip, true, Take(v.deltas, num - gap - 1)))
      && NeverJustRises(v.w, l)
  {
    var gap := Gap(v, age);
    if num <= gap {
      assert Take(History(v, age), num) == Repeat(None, num);
      hide History;
    } else {
      var deltas := Take(v.deltas, num - gap - 1);
      TakeBehind(gap, v.tip, Behind(v), num);
      if num - gap - 1 <= |v.deltas| {
        WalkTake(v.w, v.tip, v.deltas, num - gap - 1);
      }
      assert Take(History(v, age), num) == Repeat(None, gap) + ([Some(v.tip)] + Walk(v.w, v.tip, deltas));
      hide Walk, History, NoStepWraps;
      WalkNeverRises(v.w, v.tip, true, deltas);
      GapDrops(v.w, gap, [Some(v.tip)] + Walk(v.w, v.tip, deltas));
    }
  }

  /**
   A counter or integer history never rises into the past, so a reset always reads as missing,
   exactly when no step behind a sample that shows wraps.
   */
  lemma HistoryNeverRises(v: Series, age: nat, timestamps: nat)
    requires v.IntSeries? && SizedSeries(v, age, timestamps)
    ensures NeverRises(v.w, History(v, age)) <==> NoStepWraps(v.w, v.tip, true, v.deltas)
  {
    var n := |History(v, age)|;
    SliceSteps(v, age, n);
    HistoryLength(v, age);
    hide *;
    TakeAll(History(v, age));
    TakeAll(v.deltas);
  }

  lemma TakeAll<T>(l: seq<T>)
    ensures Take(l, |l|) == l
  {}

  /** Nothing wraps in a history that lost nothing. */
  lemma {:induction false} SoundStepsFit(w: Width, tip: int, shows: bool, deltas: seq<Delta>, seen: set<int>)
    requires TipsWithin(w, tip, deltas, seen)
    ensures NoStepWraps(w, tip, shows, deltas)
    decreases |deltas|
  {
    if deltas != [] {
      if Hidden(deltas) {
        HiddenStepsFit(w, Back(w, tip, deltas[0]), false, deltas[1..]);
      } else {
        StepInRange(w, tip, deltas, seen);
        SoundStepsFit(w, Back(w, tip, deltas[0]), deltas[0].Positive?, deltas[1..], seen);
        hide Back, NoPositive;
      }
    }
  }

  lemma {:induction false} HiddenStepsFit(w: Width, tip: int, shows: bool, deltas: seq<Delta>)
    requires NoPositive(deltas)
    ensures NoStepWraps(w, tip, shows, deltas)
    decreases |deltas|
  {
    if deltas != [] {
      HiddenStepsFit(w, Back(w, tip, deltas[0]), false, deltas[1..]);
    }
  }

  /** A quotient that exists exactly between present samples and is really non-negative. */
  predicate Sloped(slope: Outcome<Option<real>>, a: Option<int>, b: Option<int>) {
    && slope.Done?
    && (slope.value.Some? <==> a.Some? && b.Some?)
    && (slope.value.Some? ==> slope.value.value >= 0.0)
  }

  /** Every quotient is what it should be. */
  predicate AllSloped(rates: seq<Outcome<Option<real>>>, l: Samples)
    requires |rates| <= |l| - 1 || rates == []
  {
    forall i | 0 <= i < |rates| :: Sloped(rates[i], l[i], l[i + 1])
  }

  /**
   The derivative of any slice of a counter or integer history in a store a run can reach.  No
   subtraction leaves the type exactly when none of the steps that reach into the slice wraps
   behind a sample that shows.  A quotient that does come out is never negative, nor is the wrapped
   difference of a release build.
   */
  lemma DeriveIsSafe(s: Snapshot, k: Key, num: nat)
    requires Sized(s) && k in s.values && s.values[k].IntSeries?
    ensures var v := s.values[k];
      var l := Take(History(v, s.age), num);
      var rates := DeriveVec(v.w, l, Times(Take(s.timestamps, num)));
      var reach := num - Gap(v, s.age);
      && |rates| == (if l == [] then 0 else |l| - 1)
      && (AllSloped(rates, l) <==> reach <= 0 || NoStepWraps(v.w, v.tip, true, Take(v.deltas, reach - 1)))
      && (forall i | 0 <= i < |rates| :: rates[i].Done? ==> Sloped(rates[i], l[i], l[i + 1]))
      && NeverJustRises(v.w, l)
  {
    hide *;
    var v := s.values[k];
    HistoryFits(s, k);
    FitsParts(s, v);
    KeyIsSized(s, k);
    SliceSteps(v, s.age, num);
    SlopesAreSafe(v.w, History(v, s.age), s.timestamps, num);
  }

  lemma FitsParts(s: Snapshot, v: Series)
    requires FitsTimes(s, v)
    ensures Descending(s.timestamps) && |History(v, s.age)| <= |s.timestamps|
  {}

  lemma KeyIsSized(s: Snapshot, k: Key)
    requires Sized(s) && k in s.values && s.values[k].IntSeries?
    ensures InRange(s.values[k].w, s.values[k].tip) && Fitting(s.values[k].w, s.values[k].deltas)
  {
    assert SizedSeries(s.values[k], s.age, |s.timestamps|);
  }

  lemma SlopesAreSafe(w: Width, h: Samples, timestamps: seq<(int, int)>, num: nat)
    requires Descending(timestamps) && |h| <= |timestamps| && NeverJustRises(w, Take(h, num))
    ensures var l := Take(h, num); var rates := DeriveVec(w, l, Times(Take(timestamps, num)));
      && |rates| == (if l == [] then 0 else |l| - 1)
      && (AllSloped(rates, l) <==> NeverRises(w, l))
      && forall i | 0 <= i < |rates| :: rates[i].Done? ==> Sloped(rates[i], l[i], l[i + 1])
  {
    var l, ts := Take(h, num), Times(Take(timestamps, num));
    SliceTimes(h, timestamps, num);
    hide *;
    QuotientsAreSafe(w, l, ts);
  }

  predicate Falling(timestamps: seq<int>) {
    forall i | 0 <= i < |timestamps| - 1 :: timestamps[i] > timestamps[i + 1]
  }

  lemma SliceTimes(h: Samples, timestamps: seq<(int, int)>, num: nat)
    requires Descending(timestamps) && |h| <= |timestamps|
    ensures |Take(h, num)| <= |Times(Take(timestamps, num))| && Falling(Times(Take(timestamps, num)))
  {}

  lemma QuotientsAreSafe(w: Width, l: Samples, ts: seq<int>)
    requires |l| <= |ts| && Falling(ts) && NeverJustRises(w, l)
    ensures var rates := DeriveVec(w, l, ts);
      && |rates| == (if l == [] then 0 else |l| - 1)
      && (AllSloped(rates, l) <==> NeverRises(w, l))
      && forall i | 0 <= i < |rates| :: rates[i].Done? ==> Sloped(rates[i], l[i], l[i + 1])
  {
    DeriveLength(w, l, ts);
    hide *;
    var rates := DeriveVec(w, l, ts);
    forall i | 0 <= i < |rates|
      ensures rates[i].Done? ==> Sloped(rates[i], l[i], l[i + 1])
      ensures Sloped(rates[i], l[i], l[i + 1]) <==> Drops(w, l[i], l[i + 1])
    {
      QuotientIsSafe(w, l, ts, i);
    }
    AllSlopedIff(w, rates, l);
  }

  lemma DeriveLength(w: Width, l: Samples, ts: seq<int>)
    requires |l| <= |ts|
    ensures |DeriveVec(w, l, ts)| == (if l == [] then 0 else |l| - 1)
  {}

  lemma AllSlopedIff(w: Width, rates: seq<Outcome<Option<real>>>, l: Samples)
    requires |rates| == (if l == [] then 0 else |l| - 1)
    requires forall i | 0 <= i < |rates| :: Sloped(rates[i], l[i], l[i + 1]) <==> Drops(w, l[i], l[i + 1])
    ensures AllSloped(rates, l) <==> NeverRises(w, l)
  {
    hide Sloped, Drops;
  }

  lemma QuotientIsSafe(w: Width, l: Samples, ts: seq<int>, i: nat)
    requires |l| <= |ts| && Falling(ts) && NeverJustRises(w, l) && i < |DeriveVec(w, l, ts)|
    ensures i + 1 < |l|
    ensures var rate := DeriveVec(w, l, ts)[i];
      && (rate.Done? ==> Sloped(rate, l[i], l[i + 1]))
      && (Sloped(rate, l[i], l[i + 1]) <==> Drops(w, l[i], l[i + 1]))
  {
    hide Sloped, Slope, Drops, DropsOrLeaves;
    SlopeIsSafe(w, l[i], l[i + 1], ts[i], ts[i + 1]);
  }

  lemma SlopeIsSafe(w: Width, a: Option<int>, b: Option<int>, ta: int, tb: int)
    requires ta > tb && DropsOrLeaves(w, a, b)
    ensures Slope(w, a, b, ta, tb).Done? ==> Sloped(Slope(w, a, b, ta, tb), a, b)
    ensures Sloped(Slope(w, a, b, ta, tb), a, b) <==> Drops(w, a, b)
  {
    if a.Some? && b.Some? && Drops(w, a, b) {
      QuotientSign((a.value - b.value) as real * 1000.0, (ta - tb) as real);
    }
  }

  lemma QuotientSign(x: real, t: real)
    requires x >= 0.0 && t > 0.0
    ensures x / t >= 0.0
  {}

  /** What a rate per second comes to over some milliseconds. */
  function Over(rate: real, millis: int): real {
    rate * millis as real / 1000.0
  }

  /** Rate times elapsed time, summed over the first `n` steps. */
  function Elapsed(rates: seq<Outcome<Option<real>>>, timestamps: seq<int>, n: nat): real
    requires n <= |rates| && n < |timestamps|
    requires forall i | 0 <= i < n :: rates[i].Done? && rates[i].value.Some?
  {
    if n == 0 then 0.0
    else Elapsed(rates, timestamps, n - 1)
         + Over(rates[n - 1].value.value, timestamps[n - 1] - timestamps[n])
  }

  /** Over a stretch without gaps the rates add up to the change of the value. */
  lemma {:induction false} DeriveTelescopes(w: Width, vec: Samples, timestamps: seq<int>, n: nat)
    requires n < |vec| && n < |timestamps|
    requires forall i | 0 <= i <= n :: vec[i].Some?
    requires forall i | 0 <= i < n :: DeriveVec(w, vec, timestamps)[i].Done?
    ensures forall i | 0 <= i < n :: DeriveVec(w, vec, timestamps)[i].value.Some?
    ensures Elapsed(DeriveVec(w, vec, timestamps), timestamps, n) == (vec[0].value - vec[n].value) as real
  {
    hide Slope, Over;
    if n > 0 {
      DeriveTelescopes(w, vec, timestamps, n - 1);
      DeriveAt(w, vec, timestamps, n - 1);
      SlopeTimes(w, vec[n - 1], vec[n], timestamps[n - 1], timestamps[n]);
      hide *;
      ElapsedStep(DeriveVec(w, vec, timestamps), timestamps, n);
    }
  }

  lemma DeriveAt(w: Width, vec: Samples, timestamps: seq<int>, i: nat)
    requires i + 1 < |vec| && i + 1 < |timestamps|
    ensures i < |DeriveVec(w, vec, timestamps)|
    ensures DeriveVec(w, vec, timestamps)[i] == Slope(w, vec[i], vec[i + 1], timestamps[i], timestamps[i + 1])
  {}

  lemma ElapsedStep(rates: seq<Outcome<Option<real>>>, timestamps: seq<int>, n: nat)
    requires 0 < n <= |rates| && n < |timestamps|
    requires forall i | 0 <= i < n :: rates[i].Done? && rates[i].value.Some?
    ensures Elapsed(rates, timestamps, n) == Elapsed(rates, timestamps, n - 1)
              + Over(rates[n - 1].value.value, timestamps[n - 1] - timestamps[n])
  {
    hide Over;
  }

  lemma SlopeTimes(w: Width, a: Option<int>, b: Option<int>, ta: int, tb: int)
    requires a.Some? && b.Some? && Slope(w, a, b, ta, tb).Done?
    ensures Slope(w, a, b, ta, tb).value.Some?
    ensures Over(Slope(w, a, b, ta, tb).value.value, ta - tb) == (a.value - b.value) as real
  {
    QuotientTimes((a.value - b.value) as real, (ta - tb) as real);
  }

  lemma QuotientTimes(a: real, t: real)
    requires t != 0.0
    ensures a * 1000.0 / t * t / 1000.0 == a
  {
    assert a * 1000.0 / t * t == a * 1000.0;
  }
}
