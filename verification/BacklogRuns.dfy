/**
 Every run of the store against the plain thing it compresses: a list of optional samples per
 key (cantal_history/src/backlog.rs).
 */
module BacklogRuns {
  import opened Wrappers
  import opened DeltaCodec
  import opened Histories
  import opened BacklogModel
  import opened Keys

  // ---------------------------------------------------------------- the plain store

  /** One key: the samples newest first, with `None` for an age that shows no value. */
  datatype Row = Row(kind: NumberKind, samples: seq<Option<int>>)

  datatype Plain = Plain(age: nat, timestamps: seq<(int, int)>, rows: map<Key, Row>)

  function KindOf(s: Series): NumberKind {
    if s.FloatSeries? then FloatKind else if s.w == U64 then CounterKind else IntegerKind
  }

  function KindOfTip(v: TipValue): NumberKind
    requires !v.State?
  {
    match v
    case Counter(_) => CounterKind
    case Integer(_) => IntegerKind
    case Float(_) => FloatKind
  }

  function View(s: Snapshot): Plain {
    Plain(s.age, s.timestamps, map k | k in s.values :: Row(KindOf(s.values[k]), History(s.values[k], s.age)))
  }

  function PlainPut(prior: Option<Row>, v: TipValue): Row
    requires !v.State?
  {
    if prior == None || prior.value.kind != KindOfTip(v) then Row(KindOfTip(v), [Some(Number(v))])
    else if v.Float? then Row(FloatKind, ConsFloat(prior.value.samples, v.bits))
    else Row(KindOfTip(v), ConsInteger(prior.value.samples, v.n))
  }

  function Lookup<V>(m: map<Key, V>, k: Key): Option<V> {
    if k in m then Some(m[k]) else None
  }

  predicate NoStates(scan: map<Key, TipValue>) {
    forall k | k in scan :: Storable(scan[k])
  }

  /** One scan: keys in it get a sample, the others a leading `None`. */
  function PlainPush(p: Plain, timestamp: (int, int), scan: map<Key, TipValue>): Plain
    requires NoStates(scan)
  {
    Plain(p.age + 1, [timestamp] + p.timestamps,
          map k | k in p.rows.Keys + scan.Keys ::
            if k in scan then PlainPut(Lookup(p.rows, k), scan[k])
            else p.rows[k].(samples := [None] + p.rows[k].samples))
  }

  predicate AnyPresent(l: seq<Option<int>>) {
    exists i | 0 <= i < |l| :: l[i].Some?
  }

  /** Keep the newest `idx` ages; a key that shows nothing there goes. */
  function PlainTruncateByNum(p: Plain, idx: nat): Plain {
    Plain(p.age, Take(p.timestamps, idx),
          map k | k in p.rows && AnyPresent(Take(p.rows[k].samples, idx)) ::
            Row(p.rows[k].kind, Take(p.rows[k].samples, idx)))
  }

  function PlainTruncateByTime(p: Plain, limit: int): Plain {
    var i := FirstOlder(p.timestamps, limit);
    if i < |p.timestamps| then PlainTruncateByNum(p, i) else p
  }

  // ---------------------------------------------------------------- the invariants

  predicate Descending(timestamps: seq<(int, int)>) {
    forall i, j | 0 <= i < j < |timestamps| :: timestamps[i].0 > timestamps[j].0
  }

  /** A magnitude never exceeds the type. */
  predicate Fitting(w: Width, deltas: seq<Delta>) {
    forall i | 0 <= i < |deltas| && !deltas[i].Skip? :: 0 <= deltas[i].x <= MaxOf(w)
  }

  /**
   Gap, newest value and buffer together never outnumber the timestamps; the newest value and the
   differences fit their type.
   */
  predicate SizedSeries(v: Series, age: nat, timestamps: nat) {
    && 1 <= v.age <= age
    && (v.IntSeries? ==> InRange(v.w, v.tip) && Fitting(v.w, v.deltas))
    && (age - v.age) + 1 + |Behind(v)| <= timestamps
  }

  /** What every run keeps, whatever is pushed. */
  predicate Sized(s: Snapshot) {
    && Descending(s.timestamps)
    && |s.timestamps| <= s.age
    && forall k | k in s.values :: SizedSeries(s.values[k], s.age, |s.timestamps|)
  }

  /**
   Decoding from `tip` back through `deltas` stays inside the type without wrapping, and every
   running value on the way is one of `seen`, up to a reset with nothing to show behind it.
   */
  predicate TipsWithin(w: Width, tip: int, deltas: seq<Delta>, seen: set<int>)
    decreases |deltas|
  {
    && InRange(w, tip) && tip in seen
    && (deltas == [] ||
        (match deltas[0]
         case Positive(x) => 0 <= x <= MaxOf(w) && InRange(w, tip - x) && TipsWithin(w, tip - x, deltas[1..], seen)
         case Negative(x) =>
           || NoPositive(deltas[1..])
           || (0 <= x <= MaxOf(w) && InRange(w, tip + x) && TipsWithin(w, tip + x, deltas[1..], seen))
         case Skip => TipsWithin(w, tip, deltas[1..], seen)))
  }

  predicate SoundSeries(s: Series, seen: set<int>) {
    s.IntSeries? ==> TipsWithin(s.w, s.tip, s.deltas, seen)
  }

  /** `seen[k]` holds every number ever pushed for `k`. */
  ghost predicate Good(s: Snapshot, seen: map<Key, set<int>>) {
    && Sized(s)
    && s.values.Keys <= seen.Keys
    && forall k | k in s.values :: SoundSeries(s.values[k], seen[k])
  }

  /** The store keeps what the push covers; always so for counters and floats. */
  predicate FitsNext(s: Series, v: TipValue) {
    SameKind(s, v) && s.IntSeries? ==> Keeps(s, v.n)
  }

  // ---------------------------------------------------------------- soundness of the walk

  lemma {:induction false} TipsMonotone(w: Width, tip: int, deltas: seq<Delta>, a: set<int>, b: set<int>)
    requires TipsWithin(w, tip, deltas, a) && a <= b
    ensures TipsWithin(w, tip, deltas, b)
    decreases |deltas|
  {
    if deltas != [] && !Hidden(deltas) {
      StepInRange(w, tip, deltas, a);
      TipsMonotone(w, Back(w, tip, deltas[0]), deltas[1..], a, b);
    }
  }

  /** A reset with nothing to show behind it. */
  predicate Hidden(deltas: seq<Delta>)
    requires deltas != []
  {
    deltas[0].Negative? && NoPositive(deltas[1..])
  }

  lemma StepInRange(w: Width, tip: int, deltas: seq<Delta>, seen: set<int>)
    requires deltas != [] && TipsWithin(w, tip, deltas, seen)
    ensures Hidden(deltas) || TipsWithin(w, Back(w, tip, deltas[0]), deltas[1..], seen)
    ensures deltas[0].Positive? ==> 0 <= tip - Back(w, tip, deltas[0]) <= MaxOf(w)
  {
    BackExact(w, tip, deltas[0]);
    hide NoPositive, Back;
  }

  lemma BackExact(w: Width, tip: int, d: Delta)
    ensures d.Positive? && InRange(w, tip - d.x) ==> Back(w, tip, d) == tip - d.x
    ensures d.Negative? && InRange(w, tip + d.x) ==> Back(w, tip, d) == tip + d.x
    ensures d.Skip? ==> Back(w, tip, d) == tip
  {}

  lemma {:induction false} TipsTake(w: Width, tip: int, deltas: seq<Delta>, seen: set<int>, n: nat)
    requires n <= |deltas| && TipsWithin(w, tip, deltas, seen)
    ensures TipsWithin(w, tip, deltas[..n], seen)
    decreases |deltas|
  {
    if n > 0 {
      var d, rest := deltas[0], deltas[1..];
      assert deltas[..n] == [d] + rest[..n - 1];
      if Hidden(deltas) {
        HiddenCons(w, tip, d, rest[..n - 1], seen);
      } else {
        StepInRange(w, tip, deltas, seen);
        TipsTake(w, Back(w, tip, d), rest, seen, n - 1);
        assert deltas == [d] + rest;
        hide Back, NoPositive;
        TipsCons(w, tip, d, rest, rest[..n - 1], seen);
      }
    }
  }

  /** What a difference allows does not depend on what follows, unless it hides that. */
  lemma TipsCons(w: Width, tip: int, d: Delta, rest: seq<Delta>, other: seq<Delta>, seen: set<int>)
    requires TipsWithin(w, tip, [d] + rest, seen) && !Hidden([d] + rest)
    requires TipsWithin(w, Back(w, tip, d), other, seen)
    ensures TipsWithin(w, tip, [d] + other, seen)
  {
    assert ([d] + rest)[1..] == rest && ([d] + other)[1..] == other;
    BackExact(w, tip, d);
    hide Back, NoPositive;
  }

  lemma {:induction false} TipsSkips(w: Width, tip: int, n: nat, deltas: seq<Delta>, seen: set<int>)
    requires TipsWithin(w, tip, deltas, seen)
    ensures TipsWithin(w, tip, Repeat(Skip, n) + deltas, seen)
    decreases n
  {
    var all := Repeat(Skip, n) + deltas;
    if n == 0 {
      assert all == deltas;
    } else {
      TipsSkips(w, tip, n - 1, deltas, seen);
      assert all[0] == Skip && all[1..] == Repeat(Skip, n - 1) + deltas;
    }
  }

  lemma SoundCons(w: Width, tip: int, x: int, rest: seq<Delta>, seen: set<int>)
    requires TipsWithin(w, tip, rest, seen) && InRange(w, x) && x in seen
    requires Representable(w, tip, x)
    ensures TipsWithin(w, x, [ExactDelta(tip, x)] + rest, seen)
  {
    assert ([ExactDelta(tip, x)] + rest)[1..] == rest;
  }

  lemma HiddenCons(w: Width, x: int, d: Delta, rest: seq<Delta>, seen: set<int>)
    requires InRange(w, x) && x in seen && d.Negative? && NoPositive(rest)
    ensures TipsWithin(w, x, [d] + rest, seen)
  {
    assert ([d] + rest)[1..] == rest;
  }

  lemma PushedTipsWithin(w: Width, tip: int, deltas: seq<Delta>, x: int, gap: nat, seen: set<int>)
    requires TipsWithin(w, tip, deltas, seen) && InRange(w, x)
    requires Representable(w, tip, x) || (tip > x && NoPositive(deltas))
    ensures TipsWithin(w, x, PushedDeltas(w, deltas, tip, x, gap + 1), seen + {x})
  {
    var more, skips, d := seen + {x}, Repeat(Skip, gap), StoredDelta(w, tip, x);
    assert InRange(w, tip);
    assert [d] + (skips + deltas) == [d] + skips + deltas;
    if Representable(w, tip, x) {
      StoredIsExactIffRepresentable(w, tip, x);
      hide TipsWithin, StoredDelta, ExactDelta, InRange, Representable;
      TipsMonotone(w, tip, deltas, seen, more);
      TipsSkips(w, tip, gap, deltas, more);
      SoundCons(w, tip, x, skips + deltas, more);
    } else {
      HiddenCons(w, x, d, skips + deltas, more);
      hide TipsWithin;
    }
  }

  lemma PushKeepsSound(s: Series, v: TipValue, age: nat, seen: set<int>)
    requires SameKind(s, v) && Storable(v) && FitsNext(s, v) && s.age < age
    requires SoundSeries(s, seen)
    ensures SoundSeries(PushNumber(s, Number(v), age), seen + {Number(v)})
  {
    if s.IntSeries? {
      PushedTipsWithin(s.w, s.tip, s.deltas, v.n, age - s.age - 1, seen);
      hide TipsWithin, PushedDeltas;
    }
  }

  lemma StoredFits(w: Width, prev: int, next: int)
    requires InRange(w, prev) && InRange(w, next)
    ensures !StoredDelta(w, prev, next).Skip? && 0 <= StoredDelta(w, prev, next).x <= MaxOf(w)
  {}

  lemma PushKeepsSized(s: Series, v: TipValue, age: nat, timestamps: nat)
    requires SameKind(s, v) && Storable(v) && SizedSeries(s, age, timestamps)
    ensures SizedSeries(PushNumber(s, Number(v), age + 1), age + 1, timestamps + 1)
  {
    if s.IntSeries? {
      StoredFits(s.w, s.tip, v.n);
    }
    hide IsNaN, StoredDelta;
  }

  lemma TrimKeepsSized(s: Series, age: nat, timestamps: nat, idx: nat)
    requires SizedSeries(s, age, timestamps) && timestamps <= age
    requires Trim(s, TargetAge(age, idx)).Some?
    ensures SizedSeries(Trim(s, TargetAge(age, idx)).value, age, Least(idx, timestamps))
  {
    BehindTrimmed(s, TargetAge(age, idx));
  }

  lemma TrimKeepsSound(s: Series, trimAge: nat, seen: set<int>)
    requires SoundSeries(s, seen) && Trim(s, trimAge).Some?
    ensures SoundSeries(Trim(s, trimAge).value, seen)
  {
    var n := s.age - trimAge - 1;
    if s.IntSeries? && n <= |s.deltas| {
      TipsTake(s.w, s.tip, s.deltas, seen, n);
    }
  }

  // ---------------------------------------------------------------- one scan

  predicate DistinctKeys(items: seq<(Key, TipValue)>) {
    forall i, j | 0 <= i < j < |items| :: items[i].0 != items[j].0
  }

  /** `items` lists the entries of `scan` once each, in some order. */
  ghost predicate Lists(items: seq<(Key, TipValue)>, scan: map<Key, TipValue>) {
    && DistinctKeys(items)
    && (forall i | 0 <= i < |items| :: items[i].0 in scan && scan[items[i].0] == items[i].1)
    && (forall k | k in scan :: exists i | 0 <= i < |items| :: items[i].0 == k)
  }

  function PutOne(prior: Option<Series>, v: TipValue, age: nat): Series
    requires Storable(v)
  {
    if prior.Some? && SameKind(prior.value, v) then PushNumber(prior.value, Number(v), age) else NewSeries(v, age)
  }

  lemma {:induction false} PutAllAt(values: map<Key, Series>, items: seq<(Key, TipValue)>, age: nat)
    requires AllStorable(items) && DistinctKeys(items)
    ensures forall i | 0 <= i < |items| ::
      Lookup(PutAll(values, items, age), items[i].0) == Some(PutOne(Lookup(values, items[i].0), items[i].1, age))
    ensures forall k :: (forall i | 0 <= i < |items| :: items[i].0 != k) ==>
      Lookup(PutAll(values, items, age), k) == Lookup(values, k)
  {
    hide SameKind, PushNumber, NewSeries;
    if items != [] {
      var n := |items| - 1;
      PutAllAt(values, items[..n], age);
      var before := PutAll(values, items[..n], age);
      assert Lookup(before, items[n].0) == Lookup(values, items[n].0);
    }
  }

  lemma PutAllIs(values: map<Key, Series>, items: seq<(Key, TipValue)>, scan: map<Key, TipValue>, age: nat)
    requires AllStorable(items) && NoStates(scan) && Lists(items, scan)
    ensures PutAll(values, items, age) == map k | k in values.Keys + scan.Keys ::
      if k in scan then PutOne(Lookup(values, k), scan[k], age) else values[k]
  {
    hide SameKind, PushNumber, NewSeries, PutAll, Storable;
    PutAllAt(values, items, age);
    var got := PutAll(values, items, age);
    forall k ensures k in scan ==> Lookup(got, k) == Some(PutOne(Lookup(values, k), scan[k], age))
             ensures k !in scan ==> Lookup(got, k) == Lookup(values, k)
    {
      if k in scan {
        var i :| 0 <= i < |items| && items[i].0 == k;
      }
    }
    assert forall k :: k in got <==> Lookup(got, k).Some?;
  }

  /** No push of the scan loses what it covers. */
  ghost predicate ScanFits(s: Snapshot, scan: map<Key, TipValue>) {
    forall k :: FitsAt(s, scan, k)
  }

  predicate FitsAt(s: Snapshot, scan: map<Key, TipValue>, k: Key) {
    k in scan && k in s.values ==> FitsNext(s.values[k], scan[k])
  }

  function SeenMore(seen: map<Key, set<int>>, scan: map<Key, TipValue>): map<Key, set<int>>
    requires NoStates(scan)
  {
    map k | k in seen.Keys + scan.Keys ::
      (if k in seen then seen[k] else {}) + (if k in scan then {Number(scan[k])} else {})
  }

  function ViewRow(s: Series, age: nat): Row {
    Row(KindOf(s), History(s, age))
  }

  /** Same kind: the plain row follows exactly when the push is kept. */
  lemma PutSameKind(s: Series, v: TipValue, age: nat)
    requires Storable(v) && SameKind(s, v) && s.age <= age
    requires s.IntSeries? ==> InRange(s.w, s.tip)
    ensures ViewRow(PutOne(Some(s), v, age + 1), age + 1) == PlainPut(Some(ViewRow(s, age)), v) <==> FitsNext(s, v)
  {
    hide History, ConsFloat, ConsInteger, PushedDeltas, PushedFloats, TipsWithin, Behind, Keeps;
    if v.Float? {
      FloatPushIsCons(s, v.bits, age);
    } else {
      IntegerPushIsCons(s, v.n, age);
    }
  }

  lemma PutNewKind(prior: Option<Series>, v: TipValue, age: nat)
    requires Storable(v) && (prior.Some? ==> !SameKind(prior.value, v))
    ensures ViewRow(PutOne(prior, v, age + 1), age + 1)
         == PlainPut(if prior.None? then None else Some(ViewRow(prior.value, age)), v)
  {
    var created := NewSeries(v, age + 1);
    assert Behind(created) == [];
    assert History(created, age + 1) == [Some(Number(v))];
    hide History, ConsFloat, ConsInteger;
  }

  lemma PutOneIsPlain(prior: Option<Series>, v: TipValue, age: nat)
    requires Storable(v)
    requires prior.Some? ==> prior.value.age <= age
    requires prior.Some? && prior.value.IntSeries? ==> InRange(prior.value.w, prior.value.tip)
    ensures ViewRow(PutOne(prior, v, age + 1), age + 1)
              == PlainPut(if prior.None? then None else Some(ViewRow(prior.value, age)), v)
       <==> prior.None? || FitsNext(prior.value, v)
  {
    if prior.Some? && SameKind(prior.value, v) {
      PutSameKind(prior.value, v, age);
    } else {
      PutNewKind(prior, v, age);
      hide PlainPut, ViewRow;
    }
  }

  lemma PutOneIsGood(prior: Option<Series>, v: TipValue, age: nat, timestamps: nat, seen: set<int>)
    requires Storable(v)
    requires prior.Some? ==> SizedSeries(prior.value, age, timestamps)
    ensures SizedSeries(PutOne(prior, v, age + 1), age + 1, timestamps + 1)
    ensures (prior.Some? ==> SoundSeries(prior.value, seen) && FitsNext(prior.value, v)) ==>
      SoundSeries(PutOne(prior, v, age + 1), seen + {Number(v)})
  {
    if prior.Some? && SameKind(prior.value, v) {
      PushKeepsSized(prior.value, v, age, timestamps);
      if SoundSeries(prior.value, seen) && FitsNext(prior.value, v) {
        PushKeepsSound(prior.value, v, age + 1, seen);
      }
      hide SizedSeries, SoundSeries, FitsNext, PushNumber;
    }
  }

  lemma ViewRows(s: Snapshot)
    ensures View(s).rows.Keys == s.values.Keys
    ensures forall k :: k in s.values ==> View(s).rows[k] == ViewRow(s.values[k], s.age)
    ensures forall k :: (Lookup(View(s).rows, k) ==
      if k in s.values then Some(ViewRow(s.values[k], s.age)) else None)
  {}

  ghost predicate IsScan(items: seq<(Key, TipValue)>, scan: map<Key, TipValue>) {
    NoStates(scan) && AllStorable(items) && Lists(items, scan)
  }

  /** What one scan leaves under one key. */
  function Scanned(s: Snapshot, scan: map<Key, TipValue>, k: Key): Series
    requires NoStates(scan) && k in s.values.Keys + scan.Keys
  {
    if k in scan then PutOne(Lookup(s.values, k), scan[k], s.age + 1) else s.values[k]
  }

  lemma PushedValues(s: Snapshot, timestamp: (int, int), items: seq<(Key, TipValue)>, scan: map<Key, TipValue>)
    requires IsScan(items, scan)
    ensures var s' := Push(s, timestamp, items);
      && s'.age == s.age + 1 && s'.timestamps == [timestamp] + s.timestamps
      && s'.values.Keys == s.values.Keys + scan.Keys
      && forall k | k in s'.values :: s'.values[k] == Scanned(s, scan, k)
  {
    hide Lists, PutAll, PutOne, Storable;
    PutAllIs(s.values, items, scan, s.age + 1);
  }

  /** A scan never lets samples outnumber timestamps. */
  lemma PushStaysSized(s: Snapshot, timestamp: (int, int), items: seq<(Key, TipValue)>, scan: map<Key, TipValue>)
    requires Sized(s) && Later(s, timestamp) && IsScan(items, scan)
    ensures Sized(Push(s, timestamp, items))
  {
    hide IsScan, PutAll, PutOne, SizedSeries, Push, Storable;
    ScanIsStorable(items, scan);
    PushedValues(s, timestamp, items, scan);
    var s' := Push(s, timestamp, items);
    forall k | k in s'.values ensures SizedSeries(s'.values[k], s.age + 1, |s.timestamps| + 1) {
      if k in scan {
        PutOneIsGood(Lookup(s.values, k), scan[k], s.age, |s.timestamps|, {});
      } else {
        AgedStaysSized(s.values[k], s.age, |s.timestamps|);
      }
    }
  }

  lemma ScanIsStorable(items: seq<(Key, TipValue)>, scan: map<Key, TipValue>)
    requires IsScan(items, scan)
    ensures NoStates(scan) && AllStorable(items)
  {}

  lemma AgedStaysSized(v: Series, age: nat, timestamps: nat)
    requires SizedSeries(v, age, timestamps)
    ensures SizedSeries(v, age + 1, timestamps + 1)
  {}

  lemma PushStaysGood(s: Snapshot, seen: map<Key, set<int>>, timestamp: (int, int),
                      items: seq<(Key, TipValue)>, scan: map<Key, TipValue>)
    requires Good(s, seen) && Later(s, timestamp) && IsScan(items, scan) && ScanFits(s, scan)
    ensures NoStates(scan) && Good(Push(s, timestamp, items), SeenMore(seen, scan))
  {
    hide IsScan, PutAll, Storable, FitsNext, PutOne, SeenMore, SizedSeries, SoundSeries, Push, Descending;
    ScanIsStorable(items, scan);
    PushStaysSized(s, timestamp, items, scan);
    PushedValues(s, timestamp, items, scan);
    SeenKeys(seen, scan);
    var s' := Push(s, timestamp, items);
    forall k | k in s'.values ensures SoundSeries(s'.values[k], SeenMore(seen, scan)[k]) {
      assert FitsAt(s, scan, k);
      if k in scan {
        PutOneIsGood(Lookup(s.values, k), scan[k], s.age, |s.timestamps|, if k in seen then seen[k] else {});
      }
    }
  }

  lemma SeenKeys(seen: map<Key, set<int>>, scan: map<Key, TipValue>)
    requires NoStates(scan)
    ensures SeenMore(seen, scan).Keys == seen.Keys + scan.Keys
    ensures forall k | k in scan :: SeenMore(seen, scan)[k] == (if k in seen then seen[k] else {}) + {Number(scan[k])}
    ensures forall k | k in seen && k !in scan :: SeenMore(seen, scan)[k] == seen[k]
  {}

  /** A key the scan does not mention gains a leading `None`. */
  lemma AgedShows(v: Series, age: nat)
    requires v.age <= age
    ensures ViewRow(v, age + 1) == ViewRow(v, age).(samples := [None] + ViewRow(v, age).samples)
  {
    HistoryAges(v, age);
    hide History;
  }

  /** What one scan shows under one key, and when that is what the plain store shows. */
  lemma KeyShows(s: Snapshot, scan: map<Key, TipValue>, k: Key)
    requires Sized(s) && NoStates(scan) && k in s.values.Keys + scan.Keys
    ensures ViewRow(Scanned(s, scan, k), s.age + 1) ==
              (if k in scan
               then PlainPut(if k in s.values then Some(ViewRow(s.values[k], s.age)) else None, scan[k])
               else ViewRow(s.values[k], s.age).(samples := [None] + ViewRow(s.values[k], s.age).samples))
       <==> FitsAt(s, scan, k)
  {
    hide FitsNext, PlainPut, PutOne, ViewRow, SizedSeries, Storable;
    if k in s.values {
      TipInRange(s.values[k], s.age, |s.timestamps|);
    }
    if k in scan {
      PutOneIsPlain(Lookup(s.values, k), scan[k], s.age);
    } else {
      AgedShows(s.values[k], s.age);
    }
  }

  lemma TipInRange(v: Series, age: nat, timestamps: nat)
    requires SizedSeries(v, age, timestamps)
    ensures v.age <= age && (v.IntSeries? ==> InRange(v.w, v.tip))
  {}

  /**
   A scan pushed in any order does to the store what it does to the plain lists, exactly when every
   push is kept.
   */
  lemma PushSimulates(s: Snapshot, timestamp: (int, int), items: seq<(Key, TipValue)>, scan: map<Key, TipValue>)
    requires Sized(s) && IsScan(items, scan)
    ensures NoStates(scan)
    ensures View(Push(s, timestamp, items)) == PlainPush(View(s), timestamp, scan) <==> ScanFits(s, scan)
  {
    hide Sized, PutAll, Storable, PlainPut, PutOne, IsScan, ViewRow, View, FitsAt, Push, Scanned;
    ScanIsStorable(items, scan);
    PushedValues(s, timestamp, items, scan);
    var s' := Push(s, timestamp, items);
    ViewRows(s);
    ViewRows(s');
    ViewParts(s);
    ViewParts(s');
    var want := PlainPush(View(s), timestamp, scan);
    forall k | k in s'.values ensures View(s').rows[k] == want.rows[k] <==> FitsAt(s, scan, k) {
      KeyShows(s, scan, k);
    }
    forall k | k !in s'.values ensures FitsAt(s, scan, k) {
      NotThere(s, scan, k);
    }
    assert View(s').rows.Keys == want.rows.Keys;
    assert View(s') == want <==> forall k | k in s'.values :: View(s').rows[k] == want.rows[k];
  }

  lemma NotThere(s: Snapshot, scan: map<Key, TipValue>, k: Key)
    requires k !in scan
    ensures FitsAt(s, scan, k)
  {}

  lemma ViewParts(s: Snapshot)
    ensures View(s).age == s.age && View(s).timestamps == s.timestamps
  {}

  // ---------------------------------------------------------------- truncation

  /** Keeping `idx` ages of one key. */
  lemma TrimIsPlain(s: Series, age: nat, timestamps: nat, idx: nat)
    requires SizedSeries(s, age, timestamps) && timestamps <= age
    ensures Trim(s, TargetAge(age, idx)).Some? <==> AnyPresent(Take(ViewRow(s, age).samples, idx))
    ensures Trim(s, TargetAge(age, idx)).Some? ==>
      ViewRow(Trim(s, TargetAge(age, idx)).value, age)
        == Row(KindOf(s), Take(ViewRow(s, age).samples, idx))
  {
    var n := if idx <= age then idx else age;
    HistoryLength(s, age);
    TrimIsTake(s, age, n);
    TakeWithin(History(s, age), idx, age);
    NonePresent(History(s, age), n);
    hide *;
    assert TargetAge(age, idx) == age - n by { TargetIs(age, idx); }
    KeptRow(s, age, idx, n);
  }

  lemma TargetIs(age: nat, idx: nat)
    ensures TargetAge(age, idx) == age - (if idx <= age then idx else age)
  {}

  lemma TakeWithin(l: seq<Option<int>>, idx: nat, age: nat)
    requires |l| <= age
    ensures Take(l, idx) == Take(l, if idx <= age then idx else age)
  {}

  lemma NonePresent(l: seq<Option<int>>, n: nat)
    ensures !AnyPresent(Take(l, n)) <==> forall j | 0 <= j < |Take(l, n)| :: l[j] == None
  {
    assert forall j | 0 <= j < |Take(l, n)| :: Take(l, n)[j] == l[j];
  }

  lemma KeptRow(s: Series, age: nat, idx: nat, n: nat)
    requires Take(History(s, age), idx) == Take(History(s, age), n)
    requires n <= age && TargetAge(age, idx) == age - n
    requires Trim(s, age - n).Some? ==> History(Trim(s, age - n).value, age) == Take(History(s, age), n)
    ensures Trim(s, age - n).Some? ==>
      ViewRow(Trim(s, age - n).value, age) == Row(KindOf(s), Take(ViewRow(s, age).samples, idx))
    ensures ViewRow(s, age).samples == History(s, age)
  {
    hide History;
  }

  lemma TruncateSimulates(s: Snapshot, idx: nat)
    requires Sized(s)
    ensures View(TruncateByNum(s, idx)) == PlainTruncateByNum(View(s), idx)
    ensures Sized(TruncateByNum(s, idx))
  {
    hide SizedSeries, History, ViewRow, View, Trim, AnyPresent, KindOf;
    var s' := TruncateByNum(s, idx);
    var n := |s.timestamps|;
    ViewRows(s);
    ViewRows(s');
    ViewParts(s);
    ViewParts(s');
    forall k | k in s.values
      ensures k in s'.values <==> AnyPresent(Take(View(s).rows[k].samples, idx))
      ensures k in s'.values ==> SizedSeries(s'.values[k], s.age, Least(idx, n))
      ensures k in s'.values ==> View(s').rows[k] == Row(View(s).rows[k].kind, Take(View(s).rows[k].samples, idx))
    {
      TrimIsPlain(s.values[k], s.age, n, idx);
      RowKind(s.values[k], s.age);
      if k in s'.values {
        TrimKeepsSized(s.values[k], s.age, n, idx);
      }
    }
    assert View(s').rows == PlainTruncateByNum(View(s), idx).rows;
  }

  lemma TruncateStaysGood(s: Snapshot, seen: map<Key, set<int>>, idx: nat)
    requires Good(s, seen)
    ensures Good(TruncateByNum(s, idx), seen)
  {
    hide Sized, Trim, SoundSeries;
    TruncateSimulates(s, idx);
    forall k | k in TruncateByNum(s, idx).values ensures SoundSeries(TruncateByNum(s, idx).values[k], seen[k]) {
      TrimKeepsSound(s.values[k], TargetAge(s.age, idx), seen[k]);
    }
  }

  lemma RowKind(s: Series, age: nat)
    ensures ViewRow(s, age).kind == KindOf(s)
  {}

  // ---------------------------------------------------------------- whole runs

  datatype Op =
    | Scan(timestamp: (int, int), items: seq<(Key, TipValue)>, scan: map<Key, TipValue>)
    | KeepNum(idx: nat)
    | KeepSince(limit: int)

  /** What the program demands of its callers. */
  ghost predicate Legal(s: Snapshot, op: Op) {
    op.Scan? ==> Later(s, op.timestamp) && IsScan(op.items, op.scan)
  }

  function Step(s: Snapshot, op: Op): Snapshot {
    match op
    case Scan(timestamp, items, _) => if AllStorable(items) then Push(s, timestamp, items) else s
    case KeepNum(idx) => TruncateByNum(s, idx)
    case KeepSince(limit) => TruncateByTime(s, limit)
  }

  function PlainStep(p: Plain, op: Op): Plain {
    match op
    case Scan(timestamp, _, scan) => if NoStates(scan) then PlainPush(p, timestamp, scan) else p
    case KeepNum(idx) => PlainTruncateByNum(p, idx)
    case KeepSince(limit) => PlainTruncateByTime(p, limit)
  }

  function Exec(ops: seq<Op>): Snapshot {
    if ops == [] then BacklogModel.Empty else Step(Exec(ops[..|ops| - 1]), ops[|ops| - 1])
  }

  function PlainExec(ops: seq<Op>): Plain {
    if ops == [] then Plain(0, [], map[]) else PlainStep(PlainExec(ops[..|ops| - 1]), ops[|ops| - 1])
  }

  /** Every number pushed for each key over the run. */
  function Seen(ops: seq<Op>): map<Key, set<int>> {
    if ops == [] then map[] else
      SeenAfter(Seen(ops[..|ops| - 1]), ops[|ops| - 1])
  }

  ghost predicate LegalRun(ops: seq<Op>) {
    ops == [] || (LegalRun(ops[..|ops| - 1]) && Legal(Exec(ops[..|ops| - 1]), ops[|ops| - 1]))
  }

  /** No push on the way loses what it covers. */
  ghost predicate FitRun(ops: seq<Op>) {
    ops == [] || (FitRun(ops[..|ops| - 1]) && Fits(Exec(ops[..|ops| - 1]), ops[|ops| - 1]))
  }

  ghost predicate Fits(s: Snapshot, op: Op) {
    op.Scan? ==> ScanFits(s, op.scan)
  }

  function SeenAfter(seen: map<Key, set<int>>, op: Op): map<Key, set<int>> {
    if op.Scan? && NoStates(op.scan) then SeenMore(seen, op.scan) else seen
  }

  lemma StepStaysSized(s: Snapshot, op: Op)
    requires Sized(s) && Legal(s, op)
    ensures Sized(Step(s, op))
  {
    hide Sized, Push, TruncateByNum;
    match op
    case Scan(timestamp, items, scan) => PushStaysSized(s, timestamp, items, scan);
    case KeepNum(idx) => TruncateSimulates(s, idx);
    case KeepSince(limit) => TruncateSimulates(s, FirstOlder(s.timestamps, limit));
  }

  lemma StepStaysGood(s: Snapshot, seen: map<Key, set<int>>, op: Op)
    requires Good(s, seen) && Legal(s, op) && Fits(s, op)
    ensures Good(Step(s, op), SeenAfter(seen, op))
  {
    hide Good, Push, TruncateByNum, SeenMore, ScanFits, Lists;
    match op
    case Scan(timestamp, items, scan) => PushStaysGood(s, seen, timestamp, items, scan);
    case KeepNum(idx) => TruncateStaysGood(s, seen, idx);
    case KeepSince(limit) => TruncateStaysGood(s, seen, FirstOlder(s.timestamps, limit));
  }

  lemma StepSimulates(s: Snapshot, op: Op)
    requires Sized(s) && Legal(s, op)
    ensures View(Step(s, op)) == PlainStep(View(s), op) <==> Fits(s, op)
  {
    hide Sized, View, PlainPush, Push, TruncateByNum, PlainTruncateByNum, Lists, ScanFits;
    match op
    case Scan(timestamp, items, scan) => PushSimulates(s, timestamp, items, scan);
    case KeepNum(idx) => TruncateSimulates(s, idx);
    case KeepSince(limit) =>
      ViewParts(s);
      TruncateSimulates(s, FirstOlder(s.timestamps, limit));
  }

  /** Over every run timestamps strictly fall and outnumber the samples of every key. */
  lemma {:induction false} RunStaysSized(ops: seq<Op>)
    requires LegalRun(ops)
    ensures Sized(Exec(ops))
  {
    if ops != [] {
      hide Sized, Legal, Step;
      var n := |ops| - 1;
      RunStaysSized(ops[..n]);
      StepStaysSized(Exec(ops[..n]), ops[n]);
    }
  }

  /**
   Over every run that fits, the compressed store shows exactly the plain lists, and stays good:
   what it shows it decoded within the type and is a number pushed for the key.
   */
  lemma {:induction false} RunSimulates(ops: seq<Op>)
    requires LegalRun(ops) && FitRun(ops)
    ensures View(Exec(ops)) == PlainExec(ops)
    ensures Good(Exec(ops), Seen(ops))
  {
    if ops != [] {
      hide View, Good, Legal, Fits, Step, PlainStep, SeenMore;
      var n := |ops| - 1;
      RunSimulates(ops[..n]);
      assert Sized(Exec(ops[..n])) by { RunStaysSized(ops[..n]); }
      StepSimulates(Exec(ops[..n]), ops[n]);
      StepStaysGood(Exec(ops[..n]), Seen(ops[..n]), ops[n]);
    } else {
      assert View(Exec(ops)).rows == map[];
    }
  }

  /** The store has shown the plain lists all along. */
  ghost predicate ShownThroughout(ops: seq<Op>) {
    View(Exec(ops)) == PlainExec(ops) && (ops == [] || ShownThroughout(ops[..|ops| - 1]))
  }

  /** The store shows the plain lists at every moment of a run exactly when the run fits. */
  lemma {:induction false} RunIsExact(ops: seq<Op>)
    requires LegalRun(ops)
    ensures ShownThroughout(ops) <==> FitRun(ops)
  {
    hide View, Sized, Legal, Fits, Step, PlainStep;
    if ops == [] {
      RunSimulates(ops);
    } else {
      var n := |ops| - 1;
      RunIsExact(ops[..n]);
      RunStaysSized(ops[..n]);
      StepSimulates(Exec(ops[..n]), ops[n]);
    }
  }

  // ---------------------------------------------------------------- one key of a run

  /** The scan gives `k` a new series: it has none, or one of another kind. */
  predicate StartsAnew(s: Snapshot, scan: map<Key, TipValue>, k: Key) {
    k in scan && (k in s.values ==> !SameKind(s.values[k], scan[k]))
  }

  /** No push for `k` since its series was new loses what it covers; other keys do not matter. */
  ghost predicate KeyFits(ops: seq<Op>, k: Key) {
    ops == []
    || (ops[|ops| - 1].Scan? && StartsAnew(Exec(ops[..|ops| - 1]), ops[|ops| - 1].scan, k))
    || (KeyFits(ops[..|ops| - 1], k)
        && (ops[|ops| - 1].Scan? ==> FitsAt(Exec(ops[..|ops| - 1]), ops[|ops| - 1].scan, k)))
  }

  lemma {:induction false} FitRunFitsKeys(ops: seq<Op>, k: Key)
    requires FitRun(ops)
    ensures KeyFits(ops, k)
  {
    if ops != [] {
      FitRunFitsKeys(ops[..|ops| - 1], k);
      hide FitsAt;
    }
  }

  /** A key stored as a counter or a float always fits. */
  lemma {:induction false} CountersFitRun(ops: seq<Op>, k: Key)
    requires LegalRun(ops) && k in Exec(ops).values && KindOf(Exec(ops).values[k]) != IntegerKind
    ensures KeyFits(ops, k)
  {
    if ops != [] {
      var s, op := Exec(ops[..|ops| - 1]), ops[|ops| - 1];
      RunStaysSized(ops[..|ops| - 1]);
      CounterStep(s, op, k);
      if !(op.Scan? && StartsAnew(s, op.scan, k)) {
        CountersFitRun(ops[..|ops| - 1], k);
      }
      hide Sized, Legal, FitsAt, Step, StartsAnew, KindOf;
    }
    hide Exec;
  }

  lemma CounterStep(s: Snapshot, op: Op, k: Key)
    requires Sized(s) && Legal(s, op) && k in Step(s, op).values && KindOf(Step(s, op).values[k]) != IntegerKind
    ensures (op.Scan? && StartsAnew(s, op.scan, k))
         || (k in s.values && KindOf(s.values[k]) != IntegerKind && (op.Scan? ==> FitsAt(s, op.scan, k)))
  {
    hide Push, Lists, SizedSeries, Keeps;
    match op
    case Scan(timestamp, items, scan) =>
      PushedValues(s, timestamp, items, scan);
      if k in scan && !StartsAnew(s, scan, k) {
        CounterFits(s, items, scan, k);
      }
    case KeepNum(idx) =>
    case KeepSince(limit) =>
  }

  lemma CounterFits(s: Snapshot, items: seq<(Key, TipValue)>, scan: map<Key, TipValue>, k: Key)
    requires Sized(s) && IsScan(items, scan) && k in scan && k in s.values && SameKind(s.values[k], scan[k])
    ensures KindOf(PutOne(Some(s.values[k]), scan[k], s.age + 1)) == KindOf(s.values[k])
    ensures KindOf(s.values[k]) != IntegerKind ==> FitsNext(s.values[k], scan[k])
  {
    assert SizedSeries(s.values[k], s.age, |s.timestamps|);
  }

  /** Ages and timestamps of the store are those of the plain one, whatever is pushed. */
  lemma {:induction false} TimesAgree(ops: seq<Op>)
    requires LegalRun(ops)
    ensures Exec(ops).age == PlainExec(ops).age && Exec(ops).timestamps == PlainExec(ops).timestamps
  {
    if ops != [] {
      hide TrimAll, PutAll;
      TimesAgree(ops[..|ops| - 1]);
    }
  }

  // What both stores agree on whatever is pushed: which keys there are, of which kind, and when
  // each was last pushed.

  ghost predicate HeadAgrees(s: Snapshot, p: Plain, k: Key) {
    && (k in s.values <==> k in p.rows)
    && (k in s.values ==> SameHead(s.values[k], s.age, p.rows[k]))
  }

  predicate SameHead(v: Series, age: nat, row: Row) {
    && row.kind == KindOf(v) && 1 <= v.age <= age
    && FirstPresent(row.samples) == age - v.age < |row.samples|
  }

  lemma PutKeepsHead(prior: Option<Series>, row: Option<Row>, v: TipValue, age: nat)
    requires Storable(v) && prior.Some? == row.Some?
    requires prior.Some? ==> SameHead(prior.value, age, row.value)
    ensures SameHead(PutOne(prior, v, age + 1), age + 1, PlainPut(row, v))
  {
    hide PushedDeltas, PushedFloats;
    var samples := PlainPut(row, v).samples;
    assert samples[0].Some?;
    assert FirstPresent(samples) == 0;
  }

  lemma AgedKeepsHead(v: Series, age: nat, row: Row)
    requires SameHead(v, age, row)
    ensures SameHead(v, age + 1, row.(samples := [None] + row.samples))
  {
    assert ([None] + row.samples)[1..] == row.samples;
  }

  lemma TrimKeepsHead(v: Series, age: nat, row: Row, idx: nat)
    requires SameHead(v, age, row)
    ensures Trim(v, TargetAge(age, idx)).Some? <==> AnyPresent(Take(row.samples, idx))
    ensures Trim(v, TargetAge(age, idx)).Some? ==>
      SameHead(Trim(v, TargetAge(age, idx)).value, age, Row(row.kind, Take(row.samples, idx)))
  {
    var l, kept := row.samples, Take(row.samples, idx);
    assert forall j | 0 <= j < |kept| :: kept[j] == l[j];
    if age - v.age < idx {
      assert kept[age - v.age].Some?;
      assert FirstPresent(kept) == age - v.age;
    }
  }

  lemma PushKeepsHead(s: Snapshot, p: Plain, timestamp: (int, int), items: seq<(Key, TipValue)>,
                      scan: map<Key, TipValue>, k: Key)
    requires IsScan(items, scan) && HeadAgrees(s, p, k)
    ensures NoStates(scan) && HeadAgrees(Push(s, timestamp, items), PlainPush(p, timestamp, scan), k)
  {
    ScanIsStorable(items, scan);
    PushedValues(s, timestamp, items, scan);
    hide IsScan, Push, SameHead, PlainPut, PutOne, Storable;
    if k in scan {
      PutKeepsHead(Lookup(s.values, k), Lookup(p.rows, k), scan[k], s.age);
    } else if k in s.values {
      AgedKeepsHead(s.values[k], s.age, p.rows[k]);
    }
  }

  lemma TruncateKeepsHead(s: Snapshot, p: Plain, idx: nat, k: Key)
    requires HeadAgrees(s, p, k)
    ensures HeadAgrees(TruncateByNum(s, idx), PlainTruncateByNum(p, idx), k)
  {
    if k in s.values {
      TrimKeepsHead(s.values[k], s.age, p.rows[k], idx);
    }
    hide SameHead, Trim, AnyPresent, Take;
  }

  /** Over every run the plain store has the same keys, of the same kinds, last pushed at the same ages. */
  lemma {:induction false} RunKeepsHead(ops: seq<Op>, k: Key)
    requires LegalRun(ops)
    ensures HeadAgrees(Exec(ops), PlainExec(ops), k)
  {
    if ops != [] {
      var s, p := Exec(ops[..|ops| - 1]), PlainExec(ops[..|ops| - 1]);
      RunKeepsHead(ops[..|ops| - 1], k);
      TimesAgree(ops[..|ops| - 1]);
      hide HeadAgrees, Push, PlainPush, TruncateByNum, PlainTruncateByNum, Lists;
      match ops[|ops| - 1]
      case Scan(timestamp, items, scan) => PushKeepsHead(s, p, timestamp, items, scan, k);
      case KeepNum(idx) => TruncateKeepsHead(s, p, idx, k);
      case KeepSince(limit) => TruncateKeepsHead(s, p, FirstOlder(s.timestamps, limit), k);
    }
  }

  /** What the store shows under `k`, and the plain store. */
  ghost predicate KeyAgrees(s: Snapshot, p: Plain, k: Key) {
    Lookup(p.rows, k) == if k in s.values then Some(ViewRow(s.values[k], s.age)) else None
  }

  lemma KeyPushAgrees(s: Snapshot, p: Plain, timestamp: (int, int), items: seq<(Key, TipValue)>,
                      scan: map<Key, TipValue>, k: Key)
    requires Sized(s) && IsScan(items, scan) && FitsAt(s, scan, k) && KeyAgrees(s, p, k)
    ensures NoStates(scan) && KeyAgrees(Push(s, timestamp, items), PlainPush(p, timestamp, scan), k)
  {
    ScanIsStorable(items, scan);
    PushedValues(s, timestamp, items, scan);
    hide IsScan, Sized, Push, PlainPut, ViewRow, Scanned, FitsAt, Storable;
    if k in s.values.Keys + scan.Keys {
      KeyShows(s, scan, k);
    }
  }

  lemma KeyTruncateAgrees(s: Snapshot, p: Plain, idx: nat, k: Key)
    requires Sized(s) && KeyAgrees(s, p, k)
    ensures KeyAgrees(TruncateByNum(s, idx), PlainTruncateByNum(p, idx), k)
  {
    if k in s.values {
      TrimIsPlain(s.values[k], s.age, |s.timestamps|, idx);
      RowKind(s.values[k], s.age);
    }
    hide ViewRow, AnyPresent, SizedSeries, Trim, Take;
  }

  lemma KeyStepAgrees(s: Snapshot, p: Plain, op: Op, k: Key)
    requires Sized(s) && Legal(s, op) && KeyAgrees(s, p, k) && s.timestamps == p.timestamps
    requires op.Scan? ==> FitsAt(s, op.scan, k)
    ensures KeyAgrees(Step(s, op), PlainStep(p, op), k)
  {
    hide Sized, KeyAgrees, PlainPush, Push, TruncateByNum, PlainTruncateByNum, FitsAt, Lists;
    match op
    case Scan(timestamp, items, scan) => KeyPushAgrees(s, p, timestamp, items, scan, k);
    case KeepNum(idx) => KeyTruncateAgrees(s, p, idx, k);
    case KeepSince(limit) => KeyTruncateAgrees(s, p, FirstOlder(s.timestamps, limit), k);
  }

  /** A new series shows what was pushed, whatever there was before. */
  lemma AnewAgrees(s: Snapshot, p: Plain, timestamp: (int, int), items: seq<(Key, TipValue)>,
                   scan: map<Key, TipValue>, k: Key)
    requires IsScan(items, scan) && HeadAgrees(s, p, k) && StartsAnew(s, scan, k)
    ensures NoStates(scan) && KeyAgrees(Push(s, timestamp, items), PlainPush(p, timestamp, scan), k)
  {
    ScanIsStorable(items, scan);
    PushedValues(s, timestamp, items, scan);
    var prior := Lookup(s.values, k);
    PutNewKind(prior, scan[k], s.age);
    OtherKind(prior, Lookup(p.rows, k), scan[k], s.age);
    hide IsScan, Push, PlainPut, ViewRow, PutOne, SameKind, SameHead, Storable;
  }

  lemma OtherKind(prior: Option<Series>, row: Option<Row>, v: TipValue, age: nat)
    requires Storable(v) && prior.Some? == row.Some?
    requires prior.Some? ==> !SameKind(prior.value, v) && SameHead(prior.value, age, row.value)
    ensures PlainPut(row, v) == PlainPut(if prior.None? then None else Some(ViewRow(prior.value, age)), v)
  {
    hide History;
  }

  /**
   Over every run the store shows a key just as the plain store does when its pushes are kept, from
   the one that made its series.
   */
  lemma {:induction false} KeySimulates(ops: seq<Op>, k: Key)
    requires LegalRun(ops) && KeyFits(ops, k)
    ensures KeyAgrees(Exec(ops), PlainExec(ops), k)
  {
    if ops != [] {
      var before, op := ops[..|ops| - 1], ops[|ops| - 1];
      hide KeyAgrees, Sized, IsScan, FitsAt, StartsAnew, Push, PlainPush, Step, PlainStep, Legal;
      if op.Scan? && StartsAnew(Exec(before), op.scan, k) {
        RunKeepsHead(before, k);
        AnewStepAgrees(Exec(before), PlainExec(before), op, k);
      } else {
        KeySimulates(before, k);
        RunStaysSized(before);
        TimesAgree(before);
        KeyStepAgrees(Exec(before), PlainExec(before), op, k);
      }
    }
  }

  lemma AnewStepAgrees(s: Snapshot, p: Plain, op: Op, k: Key)
    requires op.Scan? && Legal(s, op) && HeadAgrees(s, p, k) && StartsAnew(s, op.scan, k)
    ensures KeyAgrees(Step(s, op), PlainStep(p, op), k)
  {
    hide KeyAgrees, HeadAgrees, StartsAnew, Push, PlainPush, Lists;
    AnewAgrees(s, p, op.timestamp, op.items, op.scan, k);
  }

  /** And what it shows for the key it decodes within the type. */
  lemma {:induction false} KeyStaysSound(ops: seq<Op>, k: Key)
    requires LegalRun(ops) && KeyFits(ops, k)
    ensures k in Exec(ops).values ==> k in Seen(ops) && SoundSeries(Exec(ops).values[k], Seen(ops)[k])
  {
    if ops != [] {
      var before, op := ops[..|ops| - 1], ops[|ops| - 1];
      hide SoundSeries, Sized, Legal, FitsAt, StartsAnew, Step, SeenAfter;
      if op.Scan? && StartsAnew(Exec(before), op.scan, k) {
        AnewStepSound(Exec(before), Seen(before), op, k);
      } else {
        KeyStaysSound(before, k);
        RunStaysSized(before);
        KeyStepSound(Exec(before), Seen(before), op, k);
      }
    }
  }

  lemma AnewStepSound(s: Snapshot, seen: map<Key, set<int>>, op: Op, k: Key)
    requires op.Scan? && Legal(s, op) && StartsAnew(s, op.scan, k)
    ensures k in Step(s, op).values && k in SeenAfter(seen, op)
    ensures SoundSeries(Step(s, op).values[k], SeenAfter(seen, op)[k])
  {
    hide Push, SeenMore, Lists;
    PushedValues(s, op.timestamp, op.items, op.scan);
    SeenKeys(seen, op.scan);
  }

  lemma KeyStepSound(s: Snapshot, seen: map<Key, set<int>>, op: Op, k: Key)
    requires Sized(s) && Legal(s, op) && (op.Scan? ==> FitsAt(s, op.scan, k))
    requires k in s.values ==> k in seen && SoundSeries(s.values[k], seen[k])
    ensures k in Step(s, op).values ==>
      k in SeenAfter(seen, op) && SoundSeries(Step(s, op).values[k], SeenAfter(seen, op)[k])
  {
    hide SoundSeries, SizedSeries, Descending, FitsNext, Push, SeenMore, PutOne, Storable, Lists, Trim;
    match op
    case Scan(timestamp, items, scan) =>
      PushedValues(s, timestamp, items, scan);
      SeenKeys(seen, scan);
      if k in scan {
        PutOneIsGood(Lookup(s.values, k), scan[k], s.age, |s.timestamps|, if k in seen then seen[k] else {});
      }
    case KeepNum(idx) =>
      if k in Step(s, op).values { TrimKeepsSound(s.values[k], TargetAge(s.age, idx), seen[k]); }
    case KeepSince(limit) =>
      if k in TruncateByNum(s, FirstOlder(s.timestamps, limit)).values {
        TrimKeepsSound(s.values[k], TargetAge(s.age, FirstOlder(s.timestamps, limit)), seen[k]);
      }
  }

  /** Counters always fit; a signed sample does not when it loses a value it covers. */
  lemma CountersFit(s: Series, v: TipValue, seen: set<int>)
    requires SoundSeries(s, seen) && Storable(v)
    ensures !FitsNext(s, v) <==>
      && v.Integer? && SameKind(s, v)
      && (v.n - s.tip > MaxOf(I64) || (s.tip - v.n > MaxOf(I64) && !NoPositive(s.deltas)))
  {}

  // ---------------------------------------------------------------- what an integer history means

  /** A value larger than the one that replaces it is hidden, where it is. */
  predicate IsReset(l: seq<Option<int>>, x: int) {
    l != [] && l[0].Some? && l[0].value > x
  }

  /**
   An integer push moves samples exactly when it ends a gap: then the old value goes in front of the
   gap.  Otherwise every sample stays at its age, except that a reset hides the one before.
   */
  lemma IntegerPushKeepsAges(l: seq<Option<int>>, x: int)
    ensures |ConsInteger(l, x)| == |l| + 1 && ConsInteger(l, x)[0] == Some(x)
    ensures IsReset(l, x) ==> ConsInteger(l, x) == [Some(x), None] + l[1..]
    ensures (forall i | (if IsReset(l, x) then 1 else 0) <= i < |l| :: ConsInteger(l, x)[i + 1] == l[i])
       <==> !(AnyPresent(l) && l[0] == None)
  {
    var f, c := FirstPresent(l), ConsInteger(l, x);
    if f < |l| && f > 0 {
      assert l[f].Some? && AnyPresent(l);
      assert c[f + 1] == l[f - 1] == None;
    } else if f == 0 && l != [] {
      assert l[..0] + l[1..] == l[1..];
    }
  }

  /** A float push never moves a sample; it hides the newest one exactly when that is a NaN. */
  lemma FloatPushKeepsAges(l: seq<Option<int>>, x: int)
    requires forall i | 0 <= i < |l| && l[i].Some? :: 0 <= l[i].value < TWO_64
    ensures ConsFloat(l, x)[0] == Some(x) && |ConsFloat(l, x)| == |l| + 1
    ensures forall i | 0 <= i < |l| ::
      ConsFloat(l, x)[i + 1] == (if i == FirstPresent(l) && l[i].value % TWO_63 > INFINITY then None else l[i])
  {
    var f := FirstPresent(l);
    if f < |l| {
      NaNIsAboveInfinity(l[f].value);
    }
    hide IsNaN;
  }

  /** The series after pushing `vs` one age apart, starting at age 1. */
  function Consecutive(w: Width, vs: seq<int>): Series
    requires |vs| > 0
  {
    if |vs| == 1 then IntSeries(w, vs[0], 1, [])
    else PushNumber(Consecutive(w, vs[..|vs| - 1]), vs[|vs| - 1], |vs|)
  }

  function Reversed(vs: seq<int>, i: nat): Option<int>
    requires i < |vs|
  {
    var at := |vs| - 1 - i;
    if i > 0 && vs[at] > vs[at + 1] then None else Some(vs[at])
  }

  /** Pushes at consecutive ages read back as the reversed list, `None` where a value exceeds its successor. */
  predicate ReadsBack(w: Width, vs: seq<int>)
    requires |vs| > 0
  {
    var l := History(Consecutive(w, vs), |vs|);
    |l| == |vs| && forall i | 0 <= i < |vs| :: l[i] == Reversed(vs, i)
  }

  /** After every push so far. */
  predicate ReadsBackThroughout(w: Width, vs: seq<int>)
    requires |vs| > 0
  {
    ReadsBack(w, vs) && (|vs| == 1 || ReadsBackThroughout(w, vs[..|vs| - 1]))
  }

  predicate Falls(vs: seq<int>) {
    forall i | 0 < i < |vs| :: vs[i - 1] > vs[i]
  }

  /** Every step fits the type, or is a reset after nothing but resets. */
  predicate StepsFit(w: Width, vs: seq<int>)
    requires |vs| > 0
  {
    |vs| == 1
    || (StepsFit(w, vs[..|vs| - 1]) && (Representable(w, vs[|vs| - 2], vs[|vs| - 1]) || Falls(vs)))
  }

  /** Reading back works after every push exactly when every step fits. */
  lemma {:induction false} ConsecutiveHistory(w: Width, vs: seq<int>)
    requires |vs| > 0 && forall i | 0 <= i < |vs| :: InRange(w, vs[i])
    ensures ConsecutiveState(w, vs)
    ensures ReadsBackThroughout(w, vs) <==> StepsFit(w, vs)
  {
    var n := |vs| - 1;
    if n > 0 {
      var before := vs[..n];
      ConsecutiveHistory(w, before);
      ConsecutiveShows(w, before);
      FallsMore(vs);
      if ReadsBack(w, before) {
        ReadsOneMore(w, vs);
      }
      hide ReadsBack, Falls, Representable, NoPositive, Consecutive;
    } else {
      assert History(Consecutive(w, vs), 1) == [Some(vs[0])];
    }
  }

  lemma ReadsOneMore(w: Width, vs: seq<int>)
    requires |vs| > 1 && forall i | 0 <= i < |vs| :: InRange(w, vs[i])
    requires ReadsBack(w, vs[..|vs| - 1]) && ConsecutiveState(w, vs[..|vs| - 1])
    ensures ReadsBack(w, vs) <==> Keeps(Consecutive(w, vs[..|vs| - 1]), vs[|vs| - 1])
  {
    var n := |vs| - 1;
    var s := Consecutive(w, vs[..n]);
    IntegerPushIsCons(s, vs[n], n);
    ReversedStep(vs, History(s, n));
    ReversedOnly(w, vs, ConsInteger(History(s, n), vs[n]));
    hide History, ConsInteger, Reversed, Keeps, ReadsBack;
  }

  lemma FallsMore(vs: seq<int>)
    requires |vs| > 1
    ensures Falls(vs) <==> Falls(vs[..|vs| - 1]) && vs[|vs| - 2] > vs[|vs| - 1]
  {
    var before := vs[..|vs| - 1];
    assert forall i | 0 <= i < |before| :: before[i] == vs[i];
  }

  lemma ReversedOnly(w: Width, vs: seq<int>, l: seq<Option<int>>)
    requires |vs| > 0 && |l| == |vs| && forall i | 0 <= i < |vs| :: l[i] == Reversed(vs, i)
    ensures ReadsBack(w, vs) <==> History(Consecutive(w, vs), |vs|) == l
  {
    hide History;
  }

  /** What is stored shows nothing exactly when the values only fell. */
  lemma {:induction false} ConsecutiveShows(w: Width, vs: seq<int>)
    requires |vs| > 0 && forall i | 0 <= i < |vs| :: InRange(w, vs[i])
    ensures ConsecutiveState(w, vs)
    ensures NoPositive(Consecutive(w, vs).deltas) <==> Falls(vs)
  {
    var n := |vs| - 1;
    if n > 0 {
      var s := Consecutive(w, vs[..n]);
      ConsecutiveShows(w, vs[..n]);
      FallsMore(vs);
      var d := StoredDelta(w, s.tip, vs[n]);
      assert [d] + Repeat(Skip, 0) + s.deltas == [d] + s.deltas;
      assert d.Positive? <==> s.tip <= vs[n];
      NoPositiveCons(d, s.deltas);
      hide StoredDelta, Falls, NoPositive;
    }
  }

  lemma ReversedStep(vs: seq<int>, l: seq<Option<int>>)
    requires |vs| > 1 && |l| == |vs| - 1
    requires forall i | 0 <= i < |l| :: l[i] == Reversed(vs[..|vs| - 1], i)
    ensures |ConsInteger(l, vs[|vs| - 1])| == |vs|
    ensures forall i | 0 <= i < |vs| :: ConsInteger(l, vs[|vs| - 1])[i] == Reversed(vs, i)
  {
    var n, before := |vs| - 1, vs[..|vs| - 1];
    assert l[0] == Reversed(before, 0) == Some(vs[n - 1]);
    ConsPresent(l, vs[n]);
    hide ConsInteger;
    forall i | 0 < i < n ensures l[i] == Reversed(vs, i + 1) {
      assert l[i] == Reversed(before, i);
    }
  }

  predicate ConsecutiveState(w: Width, vs: seq<int>)
    requires |vs| > 0
  {
    var s := Consecutive(w, vs);
    s.IntSeries? && s.w == w && s.age == |vs| && s.tip == vs[|vs| - 1]
  }

  lemma ConsPresent(l: seq<Option<int>>, x: int)
    requires |l| > 0 && l[0].Some?
    ensures ConsInteger(l, x) == [Some(x), if l[0].value > x then None else l[0]] + l[1..]
  {
    assert FirstPresent(l) == 0;
    assert l[..0] + l[1..] == l[1..];
  }
}
