/** What the samples of a run mean: timestamps and samples against the scans themselves. */
module BacklogTruth {
  import opened Wrappers
  import opened Histories
  import opened BacklogModel
  import opened BacklogRuns
  import opened Backlogs
  import opened RunLogs
  import opened DeltaCodec
  import opened Keys

  /**
   What a float row shows at age `t` once the store is at age `now`: the bits the scan of that age
   holds for `k`, exactly when they are no NaN or are the newest.
   */
  predicate Tells(log: Log, k: Key, now: int, t: int, x: Option<int>) {
    && 0 < t && t in log
    && (Names(log, k, t) ==> Storable(log[t].1[k]) && log[t].1[k].Float?)
    && (x.Some? <==>
          Names(log, k, t) && (t == LastNamed(log, k, now) || log[t].1[k].bits % TWO_63 <= INFINITY))
    && (x.Some? ==> x.value == log[t].1[k].bits)
  }

  /** Sample `i` of a row whose newest age is `now`. */
  predicate SampleTells(log: Log, k: Key, l: seq<Option<int>>, now: int, i: nat)
    requires i < |l|
  {
    Tells(log, k, now, now - i, l[i])
  }

  ghost predicate FloatRowTells(log: Log, k: Key, l: seq<Option<int>>, now: int) {
    AnyPresent(l) && forall i: nat | i < |l| :: SampleTells(log, k, l, now, i)
  }

  ghost predicate TrueRow(log: Log, k: Key, row: Row, age: int, timestamps: nat) {
    && 0 < |row.samples| <= timestamps
    && if row.kind == FloatKind then FloatRowTells(log, k, row.samples, age)
       else IntegerRowTells(log, k, row.kind, row.samples, age)
  }

  predicate TimeTells(log: Log, timestamps: seq<(int, int)>, age: int, i: nat)
    requires i < |timestamps|
  {
    age - i in log && log[age - i].0 == timestamps[i]
  }

  ghost predicate True(p: Plain, log: Log) {
    && (forall a | a in log :: a <= p.age)
    && (forall i: nat | i < |p.timestamps| :: TimeTells(log, p.timestamps, p.age, i))
    && (forall k | k in p.rows :: TrueRow(log, k, p.rows[k], p.age, |p.timestamps|))
  }

  /** The first sample present is the newest number. */
  lemma FirstFloatIsNewest(log: Log, k: Key, l: seq<Option<int>>, now: int)
    requires FloatRowTells(log, k, l, now)
    ensures var f := FirstPresent(l); f < |l| && f == now - LastNamed(log, k, now)
  {
    var f, a := FirstPresent(l), LastNamed(log, k, now);
    assert SampleTells(log, k, l, now, f);
    var g := now - a;
    if 0 <= g < |l| {
      assert SampleTells(log, k, l, now, g);
    }
  }

  /** A sample after one more scan, seen at the next index. */
  lemma SampleLater(log: Log, log': Log, k: Key, l: seq<Option<int>>, l': seq<Option<int>>, now: int, i: nat)
    requires Extends(log, log', now) && i < |l| && i + 1 < |l'| && SampleTells(log, k, l, now, i)
    requires l'[i + 1] ==
      if Names(log', k, now + 1) && now - i == LastNamed(log, k, now) && l[i].Some? then Masked(l[i].value) else l[i]
    ensures SampleTells(log', k, l', now + 1, i + 1)
  {
    var t := now - i;
    SameNames(log, log', now, k);
    SameLast(log, log', now, k, now);
    assert now + 1 - (i + 1) == t;
    if l[i].Some? {
      NaNIsAboveInfinity(l[i].value);
    }
    hide IsNaN, Extends;
  }

  lemma NewestFloatTells(log: Log, k: Key, l: seq<Option<int>>, x: int, now: int)
    requires 0 < now && now in log && k in log[now].1 && log[now].1[k] == Float(x) && InRange(U64, x)
    requires l != [] && l[0] == Some(x)
    ensures SampleTells(log, k, l, now, 0)
  {
    LastNamedIs(log, k, now, now);
  }

  lemma ConsFloatIsTrue(log: Log, log': Log, k: Key, l: seq<Option<int>>, x: int, age: int, now: int)
    requires FloatRowTells(log, k, l, age)
    requires Extends(log, log', age) && now == age + 1 && age >= 0
    requires now in log' && k in log'[now].1 && log'[now].1[k] == Float(x) && InRange(U64, x)
    ensures |ConsFloat(l, x)| == |l| + 1
    ensures FloatRowTells(log', k, ConsFloat(l, x), now)
  {
    var c := ConsFloat(l, x);
    FirstFloatIsNewest(log, k, l, age);
    NewestFloatTells(log', k, c, x, now);
    hide Masked, Extends, SampleTells;
    assert c[0].Some?;
    forall i: nat | i < |c| ensures SampleTells(log', k, c, now, i) {
      if i > 0 {
        SampleLater(log, log', k, l, c, age, i - 1);
      }
    }
  }

  /** One more scan, later than the one before it. */
  ghost predicate Follows(log: Log, log': Log, age: int) {
    && Extends(log, log', age) && age >= 0 && age in log && age + 1 in log'
    && TimeAt(log', age + 1) > TimeAt(log, age)
  }

  lemma PutIsTrue(log: Log, log': Log, k: Key, prior: Option<Row>, v: TipValue, age: int, timestamps: nat)
    requires Storable(v)
    requires prior.Some? ==> TrueRow(log, k, prior.value, age, timestamps) && Follows(log, log', age)
    requires age >= 0 && age + 1 in log' && k in log'[age + 1].1 && log'[age + 1].1[k] == v
    ensures TrueRow(log', k, PlainPut(prior, v), age + 1, timestamps + 1)
  {
    if prior.None? || prior.value.kind != KindOfTip(v) {
      NewRowIsTrue(log', k, v, age + 1, timestamps + 1);
    } else if v.Float? {
      ConsFloatIsTrue(log, log', k, prior.value.samples, v.bits, age, age + 1);
    } else {
      ConsIntegerTells(log, log', k, prior.value.kind, prior.value.samples, age);
      hide IntegerRowTells;
    }
  }

  lemma NewRowIsTrue(log: Log, k: Key, v: TipValue, age: int, timestamps: nat)
    requires Storable(v) && age > 0 && timestamps > 0 && age in log && k in log[age].1 && log[age].1[k] == v
    ensures TrueRow(log, k, Row(KindOfTip(v), [Some(Number(v))]), age, timestamps)
  {
    var l := [Some(Number(v))];
    assert l[0].Some?;
    if v.Float? {
      NewestFloatTells(log, k, l, v.bits, age);
    } else {
      NewestTells(log, k, l, age);
    }
  }

  lemma AgedFloatTells(log: Log, log': Log, k: Key, l: seq<Option<int>>, age: int, now: int)
    requires FloatRowTells(log, k, l, age) && Extends(log, log', age) && age >= 0 && now == age + 1
    requires now in log' && k !in log'[now].1
    ensures FloatRowTells(log', k, [None] + l, now)
  {
    var l' := [None] + l;
    hide Masked, Extends;
    forall i: nat | i < |l'| ensures SampleTells(log', k, l', now, i) {
      if i > 0 {
        SampleLater(log, log', k, l, l', age, i - 1);
      }
    }
    var j :| 0 <= j < |l| && l[j].Some?;
    assert l'[j + 1].Some?;
  }

  /** A key that the scan leaves out. */
  lemma AgedIsTrue(log: Log, log': Log, k: Key, row: Row, age: int, timestamps: nat)
    requires TrueRow(log, k, row, age, timestamps)
    requires Follows(log, log', age) && k !in log'[age + 1].1
    ensures TrueRow(log', k, row.(samples := [None] + row.samples), age + 1, timestamps + 1)
  {
    if row.kind == FloatKind {
      AgedFloatTells(log, log', k, row.samples, age, age + 1);
    } else {
      AgedTells(log, log', k, row.kind, row.samples, age);
    }
  }

  lemma RowHasTime(log: Log, k: Key, row: Row, age: int, timestamps: nat)
    requires TrueRow(log, k, row, age, timestamps)
    ensures timestamps > 0
  {}

  lemma PushIsTrue(p: Plain, log: Log, timestamp: (int, int), scan: map<Key, TipValue>)
    requires True(p, log) && NoStates(scan)
    requires p.timestamps == [] || timestamp.0 > p.timestamps[0].0
    ensures True(PlainPush(p, timestamp, scan), log[p.age + 1 := (timestamp, scan)])
  {
    hide TrueRow, PlainPut, Storable;
    var p', log' := PlainPush(p, timestamp, scan), log[p.age + 1 := (timestamp, scan)];
    if p.timestamps != [] {
      assert TimeTells(log, p.timestamps, p.age, 0);
    }
    forall k | k in p'.rows ensures TrueRow(log', k, p'.rows[k], p'.age, |p'.timestamps|) {
      if k in p.rows {
        RowHasTime(log, k, p.rows[k], p.age, |p.timestamps|);
        assert Follows(log, log', p.age);
      }
      if k in scan {
        PutIsTrue(log, log', k, Lookup(p.rows, k), scan[k], p.age, |p.timestamps|);
      } else {
        AgedIsTrue(log, log', k, p.rows[k], p.age, |p.timestamps|);
      }
    }
    forall i: nat | i < |p'.timestamps| ensures TimeTells(log', p'.timestamps, p'.age, i) {
      if i > 0 {
        assert TimeTells(log, p.timestamps, p.age, i - 1);
        assert p.age - (i - 1) == p'.age - i;
      }
    }
  }

  lemma TruncateIsTrue(p: Plain, log: Log, idx: nat)
    requires True(p, log)
    ensures True(PlainTruncateByNum(p, idx), log)
  {
    hide TrueRow;
    var p' := PlainTruncateByNum(p, idx);
    forall k | k in p'.rows ensures TrueRow(log, k, p'.rows[k], p'.age, |p'.timestamps|) {
      KeptIsTrue(log, k, p.rows[k], p.age, |p.timestamps|, idx);
    }
    forall i: nat | i < |p'.timestamps| ensures TimeTells(log, p'.timestamps, p'.age, i) {
      assert TimeTells(log, p.timestamps, p.age, i);
    }
  }

  lemma KeptIsTrue(log: Log, k: Key, row: Row, age: int, timestamps: nat, idx: nat)
    requires TrueRow(log, k, row, age, timestamps) && AnyPresent(Take(row.samples, idx))
    ensures TrueRow(log, k, Row(row.kind, Take(row.samples, idx)), age, Least(idx, timestamps))
  {
    var kept := Take(row.samples, idx);
    if row.kind == FloatKind {
      forall i: nat | i < |kept| ensures SampleTells(log, k, kept, age, i) {
        assert SampleTells(log, k, row.samples, age, i);
      }
    } else {
      PrefixTells(log, k, row.kind, row.samples, age, idx);
      hide IntegerRowTells;
    }
  }

  /**
   Over every run, timestamp number i is that of the scan i ages back.  A float series shows at
   index i exactly what that scan held for the key (`None` for nothing, or a NaN).  An integer
   series shows the newest number where it was pushed, every number covered by a later push right
   before that push (`None` if it was larger), and nothing anywhere else.
   */
  lemma {:induction false} RunIsTrue(ops: seq<Op>)
    requires LegalRun(ops)
    ensures True(PlainExec(ops), LogOf(ops))
  {
    if ops != [] {
      hide True, PlainPush, PlainTruncateByNum, IsScan;
      var before, op := ops[..|ops| - 1], ops[|ops| - 1];
      RunIsTrue(before);
      TimesAgree(before);
      var p := PlainExec(before);
      match op
      case Scan(timestamp, items, scan) =>
        ScanIsStorable(items, scan);
        PushIsTrue(p, LogOf(before), timestamp, scan);
      case KeepNum(idx) => TruncateIsTrue(p, LogOf(before), idx);
      case KeepSince(limit) => TruncateIsTrue(p, LogOf(before), FirstOlder(p.timestamps, limit));
    }
  }

  // ---------------------------------------------------------------- the store object over a run

  lemma {:induction false} PrefixLegal(ops: seq<Op>, i: nat)
    requires LegalRun(ops) && i <= |ops|
    ensures LegalRun(ops[..i])
    ensures i < |ops| ==> ops[..i + 1][..i] == ops[..i] && Legal(Exec(ops[..i]), ops[i])
    decreases |ops| - i
  {
    if i < |ops| {
      PrefixLegal(ops, i + 1);
      assert ops[..i + 1][..i] == ops[..i];
    } else {
      assert ops[..i] == ops;
    }
  }

  lemma ExecStep(ops: seq<Op>, i: nat)
    requires LegalRun(ops) && i < |ops|
    ensures Legal(Exec(ops[..i]), ops[i])
    ensures Exec(ops[..i + 1]) == Step(Exec(ops[..i]), ops[i])
    ensures Exec(ops[..i + 1]).age <= Exec(ops[..i]).age + 1
  {
    hide *;
    PrefixLegal(ops, i);
    ExecLast(ops[..i + 1]);
    StepAges(Exec(ops[..i]), ops[i]);
  }

  lemma ExecLast(ops: seq<Op>)
    requires ops != []
    ensures Exec(ops) == Step(Exec(ops[..|ops| - 1]), ops[|ops| - 1])
  {
    hide Step;
  }

  lemma StepAges(s: Snapshot, op: Op)
    ensures Step(s, op).age <= s.age + 1
  {}

  /** Ages count scans: no run of fewer than 2^63 steps comes near the skip loop's bound. */
  lemma {:induction false} AgesCountScans(ops: seq<Op>)
    ensures Exec(ops).age <= |ops|
  {
    if ops != [] {
      AgesCountScans(ops[..|ops| - 1]);
      hide Step;
      StepAges(Exec(ops[..|ops| - 1]), ops[|ops| - 1]);
    }
  }

  method Apply(b: Backlog, op: Op)
    requires b.Valid() && Legal(b.Model(), op) && b.age < TWO_63
    modifies b, b.Repr()
    ensures b.Valid() && fresh(b.Repr() - old(b.Repr()))
    ensures b.Model() == Step(old(b.Model()), op)
  {
    match op
    case Scan(timestamp, items, _) => b.Push(timestamp, items);
    case KeepNum(idx) => b.TruncateByNum(idx);
    case KeepSince(limit) => b.TruncateByTime(limit);
  }

  /** The object itself, driven through a whole run, shows the plain lists when the run fits. */
  method RunStore(ops: seq<Op>) returns (b: Backlog)
    requires LegalRun(ops) && |ops| <= TWO_63
    ensures fresh(b) && b.Valid() && b.Model() == Exec(ops)
    ensures FitRun(ops) ==> View(b.Model()) == PlainExec(ops)
  {
    hide Exec, PlainExec, View, Step, Legal, LegalRun, Healthy, States;
    b := new Backlog();
    StartsEmpty();
    assert ops[..0] == [];
    for i := 0 to |ops|
      invariant fresh(b) && fresh(b.Repr()) && b.Valid()
      invariant b.Model() == Exec(ops[..i]) && b.Model().age <= i
    {
      ExecStep(ops, i);
      ModelAge(b);
      Apply(b, ops[i]);
    }
    assert ops[..|ops|] == ops;
    if FitRun(ops) {
      RunSimulates(ops);
    }
  }

  lemma StartsEmpty()
    ensures Exec([]) == BacklogModel.Empty && Exec([]).age == 0
  {}

  lemma ModelAge(b: Backlog)
    ensures b.Model().age == b.age
  {}
}
