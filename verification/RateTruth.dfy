/**
 Whether the times a query or a rate reports are those of the samples it compares
 (cantal_query/src/query.rs, src/carbon/util.rs, cantal_query/src/functions/derive.rs).  A float
 sits at the age of its scan; an integer covered by a later push sits right before that push, so
 after a gap its index names a later scan than the one that gave it.
 */
module RateTruth {
  import opened Wrappers
  import opened DeltaCodec
  import opened Histories
  import opened BacklogModel
  import opened BacklogRuns
  import opened RunLogs
  import opened BacklogTruth
  import opened Queries
  import opened SampleRuns
  import opened Keys

  // ---------------------------------------------------------------- where a sample comes from

  /** One key of a store that agrees with the log. */
  ghost predicate Recorded(log: Log, k: Key, s: Snapshot, v: Series) {
    && Sized(s) && SizedSeries(v, s.age, |s.timestamps|)
    && TrueRow(log, k, Row(KindOf(v), History(v, s.age)), s.age, |s.timestamps|)
    && forall i: nat | i < |s.timestamps| :: TimeTells(log, s.timestamps, s.age, i)
  }

  /** Nothing shown under `k` was lost on the way: a signed series must fit, others always do. */
  ghost predicate Shows(ops: seq<Op>, k: Key)
    requires k in Exec(ops).values
  {
    KindOf(Exec(ops).values[k]) == IntegerKind ==> KeyFits(ops, k)
  }

  /** The store, its log and the plain row of a key, all over the same run. */
  lemma RowIsTrue(ops: seq<Op>, k: Key)
    requires LegalRun(ops) && k in Exec(ops).values && Shows(ops, k)
    ensures Recorded(LogOf(ops), k, Exec(ops), Exec(ops).values[k])
  {
    hide LegalRun, KeyFits, TrueRow, Exec, PlainExec, SizedSeries, LogOf, History;
    var s := Exec(ops);
    if KindOf(s.values[k]) != IntegerKind {
      CountersFitRun(ops, k);
    }
    KeySimulates(ops, k);
    RunStaysSized(ops);
    RunIsTrue(ops);
    TimesAgree(ops);
    assert Lookup(PlainExec(ops).rows, k) == Some(ViewRow(s.values[k], s.age));
  }

  /** Sample `i` of series `v` shows the newest number pushed for the key up to age `s.age - i`. */
  ghost predicate ComesFrom(log: Log, k: Key, s: Snapshot, v: Series, i: nat, a: int) {
    && i < |History(v, s.age)| && History(v, s.age)[i].Some?
    && 0 < a <= s.age - i && Names(log, k, a) && (forall b | a < b <= s.age - i :: !Names(log, k, b))
    && KindAt(log, k, a) == KindOf(v) && NumberAt(log, k, a) == History(v, s.age)[i].value
  }

  /** Its timestamp is that of age `t`, right if the scan of that age names the key, else too late. */
  ghost predicate Timed(log: Log, k: Key, s: Snapshot, v: Series, i: nat, t: int, a: int) {
    && t in log && a in log && i < |s.timestamps| && s.timestamps[i].0 == TimeAt(log, t)
    && (TimeAt(log, a) == TimeAt(log, t) <==> Names(log, k, t))
    && TimeAt(log, a) <= TimeAt(log, t)
    && (a == t <==> Names(log, k, t)) && (v.FloatSeries? ==> a == t)
  }

  /**
   Over every run a present sample is the number pushed at the newest age not after its own whose
   scan names the key.  So it is that of its own scan exactly when that scan names the key, which
   for floats it always does; else the scan that gave it is strictly older.
   */
  lemma SampleComesFrom(ops: seq<Op>, k: Key, i: nat)
    requires LegalRun(ops) && k in Exec(ops).values && Shows(ops, k)
    requires i < |History(Exec(ops).values[k], Exec(ops).age)| && History(Exec(ops).values[k], Exec(ops).age)[i].Some?
    ensures var s, log := Exec(ops), LogOf(ops);
      var a := LastNamed(log, k, s.age - i);
      ComesFrom(log, k, s, s.values[k], i, a) && Timed(log, k, s, s.values[k], i, s.age - i, a)
  {
    hide *;
    RowIsTrue(ops, k);
    SampleSource(LogOf(ops), k, Exec(ops), Exec(ops).values[k], i);
  }

  lemma SampleSource(log: Log, k: Key, s: Snapshot, v: Series, i: nat)
    requires Recorded(log, k, s, v)
    requires i < |History(v, s.age)| && History(v, s.age)[i].Some?
    ensures var a := LastNamed(log, k, s.age - i);
      ComesFrom(log, k, s, v, i, a) && Timed(log, k, s, v, i, s.age - i, a)
  {
    var l, t := History(v, s.age), s.age - i;
    hide History, SizedSeries, Descending;
    assert TimeTells(log, s.timestamps, s.age, i);
    if v.FloatSeries? {
      assert SampleTells(log, k, l, s.age, i);
    } else {
      assert IntegerTells(log, k, KindOf(v), l, s.age, i);
    }
  }

  /** The newest value is that of the scan of its own age. */
  lemma NewestSource(log: Log, k: Key, s: Snapshot, v: Series)
    requires Recorded(log, k, s, v)
    ensures v.age <= s.age && Names(log, k, v.age) && NumberAt(log, k, v.age) == v.tip
    ensures s.age - v.age < |s.timestamps| && s.timestamps[s.age - v.age].0 == TimeAt(log, v.age)
  {
    var l, cur := History(v, s.age), s.age - v.age;
    GapThenTip(v, s.age);
    HistoryLength(v, s.age);
    hide History, Descending, Behind, IntegerRowTells, FloatRowTells, SampleTells;
    NewestNamed(log, k, KindOf(v), l, s.age, cur);
    assert TimeTells(log, s.timestamps, s.age, cur);
  }

  /** The first sample present in a true row is the newest number pushed, at the age of its scan. */
  lemma NewestNamed(log: Log, k: Key, kind: NumberKind, l: Samples, now: int, cur: nat)
    requires cur < |l| && l[cur].Some? && forall j | 0 <= j < cur :: l[j] == None
    requires TrueRow(log, k, Row(kind, l), now, |l|)
    ensures Names(log, k, now - cur) && Some(NumberAt(log, k, now - cur)) == l[cur]
  {
    if kind == FloatKind {
      assert SampleTells(log, k, l, now, cur);
    } else {
      FirstIsNewest(log, k, kind, l, now);
      assert FirstPresent(l) == cur;
    }
  }

  /**
   Sample `i` of an integer row is missing: right before a push, when that push covered a larger
   number; elsewhere, unless it is the newest number.
   */
  ghost predicate MissingIff(log: Log, k: Key, l: Samples, now: nat, i: nat)
    requires i < |l|
  {
    var t := now - i;
    var a, newest := LastNamed(log, k, t), LastNamed(log, k, now);
    && a > 0
    && (l[i] == None <==>
          if t + 1 <= now && Names(log, k, t + 1) then NumberAt(log, k, a) > NumberAt(log, k, t + 1)
          else t != newest)
  }

  /** When an integer sample is missing: nothing was pushed there or right after, a reset, or it moved. */
  lemma MissingIs(ops: seq<Op>, k: Key, i: nat)
    requires LegalRun(ops) && k in Exec(ops).values && Shows(ops, k) && Exec(ops).values[k].IntSeries?
    requires i < |History(Exec(ops).values[k], Exec(ops).age)|
    ensures MissingIff(LogOf(ops), k, History(Exec(ops).values[k], Exec(ops).age), Exec(ops).age, i)
  {
    hide *;
    RowIsTrue(ops, k);
    MissingInRow(LogOf(ops), k, Exec(ops), Exec(ops).values[k], i);
  }

  lemma MissingInRow(log: Log, k: Key, s: Snapshot, v: Series, i: nat)
    requires Recorded(log, k, s, v) && v.IntSeries? && i < |History(v, s.age)|
    ensures MissingIff(log, k, History(v, s.age), s.age, i)
  {
    hide History, Descending, SizedSeries, TimesRise;
    assert IntegerTells(log, k, KindOf(v), History(v, s.age), s.age, i);
  }

  /**
   Over every run sample `i` of a float key is exactly what the scan of its age pushed: its 64 bits,
   unless they are a NaN behind the newest value; missing when that scan does not name the key.
   */
  lemma FloatSampleIs(ops: seq<Op>, k: Key, i: nat)
    requires LegalRun(ops) && k in Exec(ops).values && Exec(ops).values[k].FloatSeries?
    requires i < |History(Exec(ops).values[k], Exec(ops).age)|
    ensures Tells(LogOf(ops), k, Exec(ops).age, Exec(ops).age - i, History(Exec(ops).values[k], Exec(ops).age)[i])
  {
    hide *;
    FloatsShow(ops, k);
    RowIsTrue(ops, k);
    FloatInRow(LogOf(ops), k, Exec(ops), Exec(ops).values[k], i);
  }

  lemma FloatsShow(ops: seq<Op>, k: Key)
    requires k in Exec(ops).values && Exec(ops).values[k].FloatSeries?
    ensures Shows(ops, k)
  {
    hide Exec, KeyFits;
  }

  lemma FloatInRow(log: Log, k: Key, s: Snapshot, v: Series, i: nat)
    requires Recorded(log, k, s, v) && v.FloatSeries? && i < |History(v, s.age)|
    ensures Tells(log, k, s.age, s.age - i, History(v, s.age)[i])
  {
    hide History, Descending, SizedSeries, Tells;
    assert SampleTells(log, k, History(v, s.age), s.age, i);
  }

  // ---------------------------------------------------------------- differences and rates

  /**
   A window whose oldest sample present was given by the scan of age `a` but lies at age `t`: the
   newest value is at its own time; the other end is at the sample's own time exactly when the scan
   of age `t` names the key, and otherwise later, by the scans passed over from `a` to `t`.
   */
  ghost predicate Interval(log: Log, k: Key, v: Series, t: int, a: int, x: int, later: int, earlier: int) {
    && Names(log, k, v.age) && NumberAt(log, k, v.age) == v.tip && later == TimeAt(log, v.age)
    && 0 < a <= t && Names(log, k, a) && (forall b | a < b <= t :: !Names(log, k, b)) && NumberAt(log, k, a) == x
    && t in log && earlier == TimeAt(log, t)
    && (earlier == TimeAt(log, a) <==> Names(log, k, t))
    && earlier >= TimeAt(log, a)
    && (v.FloatSeries? ==> a == t)
  }

  lemma WindowParts(timestamps: seq<(int, int)>, l: Samples, cur: int, n: nat)
    ensures var w, idx := Window(timestamps, l, cur, n), LastPresent(l, n);
      w.Done? && w.value.Some? ==>
        && OldestInWindow(l, n, idx) && 0 <= cur < |timestamps| && idx < |timestamps|
        && w.value.value == (l[idx].value, timestamps[cur].0, timestamps[idx].0)
  {}

  lemma WindowInterval(log: Log, k: Key, s: Snapshot, v: Series, n: nat)
    requires Recorded(log, k, s, v)
    ensures var w, idx := Window(s.timestamps, History(v, s.age), s.age - v.age, n), LastPresent(History(v, s.age), n);
      w.Done? && w.value.Some? ==>
        && OldestInWindow(History(v, s.age), n, idx)
        && Interval(log, k, v, s.age - idx, LastNamed(log, k, s.age - idx),
                    w.value.value.0, w.value.value.1, w.value.value.2)
  {
    var l := History(v, s.age);
    var w, idx := Window(s.timestamps, l, s.age - v.age, n), LastPresent(l, n);
    NewestSource(log, k, s, v);
    WindowParts(s.timestamps, l, s.age - v.age, n);
    hide History, Recorded, Window, LastPresent;
    if w.Done? && w.value.Some? {
      SampleSource(log, k, s, v, idx);
    }
  }

  /** The answer of a difference: the two pushed numbers subtracted, over the interval they are said to span. */
  ghost predicate Differs(log: Log, k: Key, v: Series, t: int, a: int, r: (Answer, (int, int))) {
    && Names(log, k, v.age) && Names(log, k, a)
    && Interval(log, k, v, t, a, NumberAt(log, k, a), r.1.0, r.1.1)
    && Subtracts(KindOf(v), NumberAt(log, k, v.age), NumberAt(log, k, a), r.0)
  }

  /**
   A difference query over any run: the answer is the newest number less the one at the window's
   oldest sample, and the interval it names is right exactly when that sample's age names the key.
   */
  lemma DifferenceIsRightIff(ops: seq<Op>, k: Key, n: nat)
    requires LegalRun(ops) && k in Exec(ops).values && Shows(ops, k)
    ensures var s, log := Exec(ops), LogOf(ops); var v := s.values[k];
      var r, idx := ExtractSingle(s, v, DiffToAtMost(n)), LastPresent(History(v, s.age), n);
      r.Done? && (r.value.Some? ==>
        OldestInWindow(History(v, s.age), n, idx)
        && Differs(log, k, v, s.age - idx, LastNamed(log, k, s.age - idx), r.value.value))
  {
    hide *;
    var s, log := Exec(ops), LogOf(ops);
    var v := s.values[k];
    RowIsTrue(ops, k);
    RecordedIsSized(log, k, s, v);
    KeyWindow(s, k, n);
    AnswersParts(s.timestamps, History(v, s.age), s.age - v.age, n);
    WindowInterval(log, k, s, v, n);
    AnswerIs(s, v, n);
    var window := Window(s.timestamps, History(v, s.age), s.age - v.age, n);
    AnswerParts(v, window);
    if window.value.Some? {
      var (x, later, earlier) := window.value.value;
      if v.IntSeries? {
        SpansInRange(s, k, n, x, later, earlier);
      }
      var t := s.age - LastPresent(History(v, s.age), n);
      IntervalDiffers(log, k, v, t, LastNamed(log, k, t), x, later, earlier);
    }
  }

  lemma IntervalDiffers(log: Log, k: Key, v: Series, t: int, a: int, x: int, later: int, earlier: int)
    requires Interval(log, k, v, t, a, x, later, earlier)
    requires v.IntSeries? ==> InRange(v.w, v.tip) && InRange(v.w, x)
    ensures Differs(log, k, v, t, a, (Difference(v, x), (later, earlier)))
  {
    DifferenceSubtracts(v, x);
    hide Difference, Subtracts, InRange;
  }

  lemma RecordedIsSized(log: Log, k: Key, s: Snapshot, v: Series)
    requires Recorded(log, k, s, v)
    ensures Sized(s)
  {}

  lemma AnswerParts(v: Series, window: Outcome<Option<(int, int, int)>>)
    requires window.Done?
    ensures var r := AnswerOf(v, window);
      && r.Done? && (r.value.Some? <==> window.value.Some?)
      && (r.value.Some? ==>
            r.value.value.0 == Difference(v, window.value.value.0)
            && r.value.value.1 == (window.value.value.1, window.value.value.2))
  {}

  /** The elapsed time a rate reports against that between the scans that gave the two numbers. */
  ghost predicate Rated(log: Log, k: Key, v: Series, t: int, a: int, diff: int, millis: int) {
    && Names(log, k, v.age) && NumberAt(log, k, v.age) == v.tip
    && 0 < a <= t && Names(log, k, a) && (forall b | a < b <= t :: !Names(log, k, b)) && t in log
    && HeldWithin(0, 0xFFFF_FFFF_FFFF_FFFF, NumberAt(log, k, v.age) - NumberAt(log, k, a), diff)
    && millis == TimeAt(log, v.age) - TimeAt(log, t)
    && (millis == TimeAt(log, v.age) - TimeAt(log, a) <==> Names(log, k, t))
    && millis <= TimeAt(log, v.age) - TimeAt(log, a)
  }

  /**
   The rate sent to Graphite over any run: the elapsed time is that between the scans that gave the
   two numbers exactly when the age of the older sample names the key; else it is too short.
   */
  lemma RateIsRightIff(ops: seq<Op>, k: Key, n: nat)
    requires LegalRun(ops) && k in Exec(ops).values && Shows(ops, k)
    ensures var s, log := Exec(ops), LogOf(ops); var v := s.values[k];
      var r, idx := RateFromCounter(s, v, n), LastPresent(History(v, s.age), n);
      r.Done? && (r.value.Some? ==>
        && OldestInWindow(History(v, s.age), n, idx)
        && Rated(log, k, v, s.age - idx, LastNamed(log, k, s.age - idx), r.value.value.0, r.value.value.1))
  {
    hide *;
    var s, log := Exec(ops), LogOf(ops);
    var v := s.values[k];
    RowIsTrue(ops, k);
    RecordedIsSized(log, k, s, v);
    KeyWindow(s, k, n);
    AnswersParts(s.timestamps, History(v, s.age), s.age - v.age, n);
    WindowInterval(log, k, s, v, n);
    RateIs(s, v, n);
    var window := Window(s.timestamps, History(v, s.age), s.age - v.age, n);
    RateParts(v.tip, window);
    if window.value.Some? {
      var t := s.age - LastPresent(History(v, s.age), n);
      IntervalRates(log, k, v, t, LastNamed(log, k, t),
                    window.value.value.0, window.value.value.1, window.value.value.2);
    }
  }

  lemma RateParts(tip: int, window: Outcome<Option<(int, int, int)>>)
    requires window.Done? && (window.value.Some? ==> window.value.value.1 >= window.value.value.2)
    ensures var r := RateOf(tip, window);
      && r.Done? && (r.value.Some? <==> window.value.Some?)
      && (r.value.Some? ==>
            r.value.value.0 == Saturating(U64, tip - window.value.value.0)
            && r.value.value.1 == window.value.value.1 - window.value.value.2)
  {}

  lemma IntervalRates(log: Log, k: Key, v: Series, t: int, a: int, x: int, later: int, earlier: int)
    requires Interval(log, k, v, t, a, x, later, earlier)
    ensures Rated(log, k, v, t, a, Saturating(U64, v.tip - x), later - earlier)
  {}

  /**
   Between adjacent present samples of an integer slice the newer one is at its own time; so the
   slope's time is right exactly when the age of the older one names the key, else too short.
   */
  lemma SlopeIsRightIff(ops: seq<Op>, k: Key, i: nat)
    requires LegalRun(ops) && k in Exec(ops).values && Shows(ops, k)
    requires var l := History(Exec(ops).values[k], Exec(ops).age);
      i + 1 < |l| && l[i].Some? && l[i + 1].Some?
    ensures var s, log := Exec(ops), LogOf(ops); var t := s.age - i;
      && i + 1 < |s.timestamps|
      && Steps(log, k, s.values[k], s.age, i, LastNamed(log, k, t - 1), s.timestamps[i].0 - s.timestamps[i + 1].0)
  {
    hide *;
    RowIsTrue(ops, k);
    StepSource(LogOf(ops), k, Exec(ops), Exec(ops).values[k], i);
  }

  ghost predicate Steps(log: Log, k: Key, v: Series, now: nat, i: nat, a: int, millis: int) {
    var t := now - i;
    && i + 1 < |History(v, now)| && History(v, now)[i].Some? && History(v, now)[i + 1].Some?
    && Names(log, k, t) && NumberAt(log, k, t) == History(v, now)[i].value
    && 0 < a < t && Names(log, k, a) && NumberAt(log, k, a) == History(v, now)[i + 1].value
    && (millis == TimeAt(log, t) - TimeAt(log, a) <==> Names(log, k, t - 1))
    && millis <= TimeAt(log, t) - TimeAt(log, a)
  }

  lemma StepSource(log: Log, k: Key, s: Snapshot, v: Series, i: nat)
    requires Recorded(log, k, s, v)
    requires i + 1 < |History(v, s.age)| && History(v, s.age)[i].Some? && History(v, s.age)[i + 1].Some?
    ensures i + 1 < |s.timestamps|
    ensures Steps(log, k, v, s.age, i, LastNamed(log, k, s.age - i - 1), s.timestamps[i].0 - s.timestamps[i + 1].0)
  {
    SampleSource(log, k, s, v, i);
    SampleSource(log, k, s, v, i + 1);
    if v.IntSeries? {
      var t := s.age - i;
      assert IntegerTells(log, k, KindOf(v), History(v, s.age), s.age, i);
      assert IntegerTells(log, k, KindOf(v), History(v, s.age), s.age, i + 1);
      assert Names(log, k, t);
    }
    hide History, Recorded;
  }

  // ---------------------------------------------------------------- where they fail

  /** A counter at 10, two scans without it, then at 40. */
  function GapRun(k: Key): seq<Op> {
    [Seeing(1000, k, Counter(10))] + [Missing(2000)] + [Missing(3000)] + [Seeing(4000, k, Counter(40))]
  }

  lemma GapRunReaches(k: Key)
    ensures LegalRun(GapRun(k)) && FitRun(GapRun(k))
    ensures Exec(GapRun(k)) == Snapshot(4, [(4000, 0), (3000, 0), (2000, 0), (1000, 0)],
                                        map[k := IntSeries(U64, 40, 4, [Positive(30), Skip, Skip])])
  {
    var ops1 := [Seeing(1000, k, Counter(10))];
    var ops2 := ops1 + [Missing(2000)];
    var ops3 := ops2 + [Missing(3000)];
    SeesFirst(k, Counter(10));
    SeesNone(ops1, 2000);
    SeesNone(ops2, 3000);
    SeesOne(ops3, 4000, k, Counter(40));
    hide LegalRun, FitRun, Exec;
    assert PushedDeltas(U64, [], 10, 40, 3) == [Positive(30), Skip, Skip];
  }

  /** A counter that took 3000 ms to rise by 30 reports that it took 1000 ms: the rate is three times too high. */
  lemma RateCanBeTooHigh(k: Key)
    ensures LegalRun(GapRun(k)) && FitRun(GapRun(k))
    ensures var s := Exec(GapRun(k));
      k in s.values && RateFromCounter(s, s.values[k], 3) == Done(Some((30, 1000)))
  {
    GapRunReaches(k);
    hide LegalRun, FitRun, Exec;
    var v := IntSeries(U64, 40, 4, [Positive(30), Skip, Skip]);
    assert v.deltas[1..] == [Skip, Skip] && v.deltas[1..][1..] == [Skip] && v.deltas[1..][1..][1..] == [];
    assert Walk(U64, 40, v.deltas) == [Some(10), None, None];
    assert History(v, 4) == [Some(40), Some(10), None, None];
    assert LastPresent(History(v, 4), 1) == 1;
    assert LastPresent(History(v, 4), 2) == 1;
    assert LastPresent(History(v, 4), 3) == 1;
  }

  /** A counter seen once, one scan ago, with room for one earlier sample: 0 divided by 0. */
  lemma RateCanDivideByZero(k: Key)
    ensures var ops := [Seeing(1000, k, Counter(7))] + [Missing(2000)];
      && LegalRun(ops) && FitRun(ops) && k in Exec(ops).values
      && RateFromCounter(Exec(ops), Exec(ops).values[k], 1) == Done(Some((0, 0)))
  {
    SeesFirst(k, Counter(7));
    SeesNone([Seeing(1000, k, Counter(7))], 2000);
    hide LegalRun, FitRun, Exec;
    var v := IntSeries(U64, 7, 1, []);
    assert History(v, 2) == [None, Some(7)];
    assert LastPresent(History(v, 2), 1) == 1;
  }

  /** Signed samples -7, 3, 5, -2 and then the maximum, one scan after the other. */
  function JumpRun(k: Key): seq<Op> {
    JumpStart(k) + [Seeing(4000, k, Integer(-2))] + [Seeing(5000, k, Integer(MAX))]
  }

  function JumpStart(k: Key): seq<Op> {
    [Seeing(1000, k, Integer(-7))] + [Seeing(2000, k, Integer(3))] + [Seeing(3000, k, Integer(5))]
  }

  const STARTED := IntSeries(I64, 5, 3, [Positive(2)] + ([Positive(10)] + []))
  const JUMPED := IntSeries(I64, MAX, 5, [Positive(1)] + ([Negative(7)] + STARTED.deltas))

  lemma JumpStartReaches(k: Key)
    ensures LegalRun(JumpStart(k))
    ensures Exec(JumpStart(k)) == Snapshot(3, [(3000, 0), (2000, 0), (1000, 0)], map[k := STARTED])
  {
    var ops1 := [Seeing(1000, k, Integer(-7))];
    SeesFirst(k, Integer(-7));
    assert NewSeries(Integer(-7), 1) == IntSeries(I64, -7, 1, []);
    assert StoredDelta(I64, -7, 3) == Positive(10) && StoredDelta(I64, 3, 5) == Positive(2);
    hide LegalRun, Exec, StoredDelta, NewSeries, Put;
    SeesSigned(ops1, 2000, k, 3, [(1000, 0)], IntSeries(I64, -7, 1, []));
    SeesSigned(ops1 + [Seeing(2000, k, Integer(3))], 3000, k, 5, [(2000, 0), (1000, 0)],
               IntSeries(I64, 3, 2, [Positive(10)] + []));
  }

  lemma JumpRunReaches(k: Key)
    ensures LegalRun(JumpRun(k))
    ensures Exec(JumpRun(k)) == Snapshot(5, [(5000, 0), (4000, 0), (3000, 0), (2000, 0), (1000, 0)], map[k := JUMPED])
  {
    JumpStartReaches(k);
    assert StoredDelta(I64, 5, -2) == Negative(7) && StoredDelta(I64, -2, MAX) == Positive(1);
    hide LegalRun, Exec, StoredDelta, JumpStart;
    SeesSigned(JumpStart(k), 4000, k, -2, [(3000, 0), (2000, 0), (1000, 0)], STARTED);
    SeesSigned(JumpStart(k) + [Seeing(4000, k, Integer(-2))], 5000, k, MAX,
               [(4000, 0), (3000, 0), (2000, 0), (1000, 0)],
               IntSeries(I64, -2, 4, [Negative(7)] + STARTED.deltas));
  }

  lemma JumpHistory()
    ensures History(JUMPED, 5) == [Some(MAX), Some(MAX - 1), None, Some(MIN + 3), Some(MAX - 6)]
  {
    var next := [Positive(2)] + ([Positive(10)] + []);
    JumpWalk();
    WalkCons(I64, MAX - 1, Negative(7), next);
    WalkCons(I64, MAX, Positive(1), [Negative(7)] + next);
    hide Walk;
    assert Behind(JUMPED) == [Some(MAX - 1)] + ([None] + [Some(MIN + 3), Some(MAX - 6)]);
  }

  lemma JumpRises()
    ensures !NoStepWraps(I64, MAX, true, JUMPED.deltas)
  {
    JumpHistory();
    hide History, NoStepWraps, Behind;
    var l := History(JUMPED, 5);
    HistoryLength(JUMPED, 5);
    HistoryNeverRises(JUMPED, 5, 5);
    assert !Drops(I64, l[3], l[4]);
  }

  lemma JumpWalk()
    ensures Walk(I64, MIN + 5, [Positive(2)] + ([Positive(10)] + [])) == [Some(MIN + 3), Some(MAX - 6)]
  {
    WalkCons(I64, MIN + 3, Positive(10), []);
    WalkCons(I64, MIN + 5, Positive(2), [Positive(10)] + []);
  }

  /** The derivative over the whole history subtracts the maximum less 6 from the minimum plus 3. */
  lemma DeriveCanPanic(k: Key)
    ensures LegalRun(JumpRun(k)) && !FitRun(JumpRun(k))
    ensures var s := Exec(JumpRun(k));
      && k in s.values
      && History(s.values[k], s.age) == [Some(MAX), Some(MAX - 1), None, Some(MIN + 3), Some(MAX - 6)]
      && |DeriveVec(I64, History(s.values[k], s.age), Times(s.timestamps))| == 4
      && DeriveVec(I64, History(s.values[k], s.age), Times(s.timestamps))[3] == Panicked
  {
    JumpRunReaches(k);
    JumpHistory();
    JumpDoesNotFit(k);
    hide LegalRun, FitRun, Exec, History;
  }

  /** What a run that fits leaves never rises. */
  lemma JumpDoesNotFit(k: Key)
    ensures !FitRun(JumpRun(k))
  {
    JumpRunReaches(k);
    JumpRises();
    if FitRun(JumpRun(k)) {
      RunSimulates(JumpRun(k));
      var s, seen := Exec(JumpRun(k)), Seen(JumpRun(k));
      assert SoundSeries(s.values[k], seen[k]);
      SoundStepsFit(I64, MAX, true, JUMPED.deltas, seen[k]);
    }
  }
}
