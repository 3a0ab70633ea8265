/** Short runs of the store, one key a scan, for the properties that some runs do not have. */
module SampleRuns {
  import opened Wrappers
  import opened DeltaCodec
  import opened Histories
  import opened BacklogModel
  import opened BacklogRuns
  import opened Keys

  function Seeing(time: int, k: Key, v: TipValue): Op {
    Scan((time, 0), [(k, v)], map[k := v])
  }

  function Missing(time: int): Op {
    Scan((time, 0), [], map[])
  }

  /** One more step of a run. */
  lemma OneMore(ops: seq<Op>, op: Op)
    requires LegalRun(ops) && Legal(Exec(ops), op)
    ensures LegalRun(ops + [op]) && Exec(ops + [op]) == Step(Exec(ops), op)
    ensures FitRun(ops + [op]) <==> FitRun(ops) && Fits(Exec(ops), op)
  {
    assert (ops + [op])[..|ops|] == ops;
    hide Step, Legal, Fits;
  }

  /** One more scan, of a single key. */
  lemma SeesOne(ops: seq<Op>, time: int, k: Key, v: TipValue)
    requires LegalRun(ops) && Storable(v) && Later(Exec(ops), (time, 0))
    ensures var s := Exec(ops); var ops' := ops + [Seeing(time, k, v)];
      && LegalRun(ops')
      && Exec(ops') == Snapshot(s.age + 1, [(time, 0)] + s.timestamps, Put(s.values, k, v, s.age + 1))
      && (FitRun(ops') <==> FitRun(ops) && (k in s.values ==> FitsNext(s.values[k], v)))
  {
    hide *;
    SeeingSteps(Exec(ops), time, k, v);
    OneMore(ops, Seeing(time, k, v));
  }

  lemma SeeingSteps(s: Snapshot, time: int, k: Key, v: TipValue)
    requires Storable(v) && Later(s, (time, 0))
    ensures Legal(s, Seeing(time, k, v))
    ensures Step(s, Seeing(time, k, v))
         == Snapshot(s.age + 1, [(time, 0)] + s.timestamps, Put(s.values, k, v, s.age + 1))
    ensures Fits(s, Seeing(time, k, v)) <==> (k in s.values ==> FitsNext(s.values[k], v))
  {
    hide Put, Storable, FitsNext;
    var items, scan := [(k, v)], map[k := v];
    assert AllStorable(items) && NoStates(scan);
    assert items[0].0 == k;
    assert Lists(items, scan);
    assert items[..0] == [] && PutAll(s.values, items[..0], s.age + 1) == s.values;
    if ScanFits(s, scan) {
      assert FitsAt(s, scan, k);
    }
  }

  /** One more scan, of nothing. */
  lemma SeesNone(ops: seq<Op>, time: int)
    requires LegalRun(ops) && Later(Exec(ops), (time, 0))
    ensures var s := Exec(ops); var ops' := ops + [Missing(time)];
      && LegalRun(ops') && Exec(ops') == Snapshot(s.age + 1, [(time, 0)] + s.timestamps, s.values)
      && (FitRun(ops') <==> FitRun(ops))
  {
    var s := Exec(ops);
    assert Legal(s, Missing(time)) && Fits(s, Missing(time));
    OneMore(ops, Missing(time));
    hide LegalRun, FitRun, Exec;
  }

  /** The first scan of a key. */
  lemma SeesFirst(k: Key, v: TipValue)
    requires Storable(v)
    ensures var ops := [Seeing(1000, k, v)];
      LegalRun(ops) && FitRun(ops) && Exec(ops) == Snapshot(1, [(1000, 0)], map[k := NewSeries(v, 1)])
  {
    SeesOne([], 1000, k, v);
    assert [] + [Seeing(1000, k, v)] == [Seeing(1000, k, v)];
    hide NewSeries;
  }

  /** The next scan of the only key, a signed one. */
  lemma SeesSigned(ops: seq<Op>, time: int, k: Key, x: int, timestamps: seq<(int, int)>, v: Series)
    requires LegalRun(ops) && v.IntSeries? && v.w == I64 && -TWO_63 <= x < TWO_63
    requires Exec(ops) == Snapshot(v.age, timestamps, map[k := v]) && timestamps != [] && time > timestamps[0].0
    ensures var ops' := ops + [Seeing(time, k, Integer(x))];
      && LegalRun(ops')
      && Exec(ops') == Snapshot(v.age + 1, [(time, 0)] + timestamps,
                                map[k := IntSeries(I64, x, v.age + 1, [StoredDelta(I64, v.tip, x)] + v.deltas)])
  {
    assert Storable(Integer(x));
    SeesOne(ops, time, k, Integer(x));
    hide *;
    PutSigned(k, v, x);
  }

  lemma PutSigned(k: Key, v: Series, x: int)
    requires v.IntSeries? && v.w == I64 && InRange(I64, x)
    ensures Put(map[k := v], k, Integer(x), v.age + 1)
         == map[k := IntSeries(I64, x, v.age + 1, [StoredDelta(I64, v.tip, x)] + v.deltas)]
  {
    hide StoredDelta;
    var d := StoredDelta(I64, v.tip, x);
    assert [d] + Repeat(Skip, 0) + v.deltas == [d] + v.deltas;
  }

  // ---------------------------------------------------------------- a signed value lost

  const MIN: int := -TWO_63
  const MAX: int := TWO_63 - 1

  /** A signed counter at -1, then at its maximum. */
  function RiseRun(k: Key): seq<Op> {
    [Seeing(1000, k, Integer(-1))] + [Seeing(2000, k, Integer(MAX))]
  }

  lemma RiseReaches(k: Key)
    ensures LegalRun(RiseRun(k)) && !FitRun(RiseRun(k))
    ensures Exec(RiseRun(k))
         == Snapshot(2, [(2000, 0), (1000, 0)], map[k := IntSeries(I64, MAX, 2, [Positive(0)])])
  {
    var first, v := [Seeing(1000, k, Integer(-1))], IntSeries(I64, -1, 1, []);
    SeesFirst(k, Integer(-1));
    SeesOne(first, 2000, k, Integer(MAX));
    hide LegalRun, FitRun, Exec;
    assert StoredDelta(I64, -1, MAX) == Positive(0);
    assert PushedDeltas(I64, [], -1, MAX, 1) == [Positive(0)];
  }

  lemma PlainLast(ops: seq<Op>, op: Op)
    ensures PlainExec(ops + [op]) == PlainStep(PlainExec(ops), op)
  {
    assert (ops + [op])[..|ops|] == ops;
    hide PlainStep;
  }

  lemma RisePlain(k: Key)
    ensures k in PlainExec(RiseRun(k)).rows
    ensures PlainExec(RiseRun(k)).rows[k].samples == [Some(MAX), Some(-1)]
  {
    var first, op := [Seeing(1000, k, Integer(-1))], Seeing(2000, k, Integer(MAX));
    SeesFirst(k, Integer(-1));
    RunSimulates(first);
    PlainLast(first, op);
    hide LegalRun, FitRun, Exec, PlainExec;
    assert History(IntSeries(I64, -1, 1, []), 1) == [Some(-1)];
    assert ConsInteger([Some(-1)], MAX) == [Some(MAX), Some(-1)];
  }

  lemma RisenHistory()
    ensures History(IntSeries(I64, MAX, 2, [Positive(0)]), 2) == [Some(MAX), Some(MAX)]
  {}

  /** The store does not show what a run pushed: after the rise the -1 reads as the maximum itself. */
  lemma SignedValueCanBeLost(k: Key)
    ensures LegalRun(RiseRun(k)) && !FitRun(RiseRun(k)) && !ShownThroughout(RiseRun(k))
    ensures var s := Exec(RiseRun(k)); k in s.values && History(s.values[k], s.age) == [Some(MAX), Some(MAX)]
    ensures k in PlainExec(RiseRun(k)).rows && PlainExec(RiseRun(k)).rows[k].samples == [Some(MAX), Some(-1)]
  {
    RiseReaches(k);
    RisePlain(k);
    RunIsExact(RiseRun(k));
    hide *;
    RisenHistory();
  }
}
