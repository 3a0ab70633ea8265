/**
 The scans of a run by the age they produced, and what an integer row shows of them
 (cantal_history/src/backlog.rs, cantal_history/src/deltabuf.rs).
 */
module RunLogs {
  import opened Wrappers
  import opened Histories
  import opened BacklogRuns
  import opened Keys

  type Log = map<int, ((int, int), map<Key, TipValue>)>

  function LogOf(ops: seq<Op>): Log {
    if ops == [] then map[] else
      var before, op := ops[..|ops| - 1], ops[|ops| - 1];
      if op.Scan? && NoStates(op.scan) then LogOf(before)[PlainExec(before).age + 1 := (op.timestamp, op.scan)]
      else LogOf(before)
  }

  /** The scan of age `a` holds a number for `k`. */
  predicate Names(log: Log, k: Key, a: int) {
    a in log && k in log[a].1 && !log[a].1[k].State?
  }

  function NumberAt(log: Log, k: Key, a: int): int
    requires Names(log, k, a)
  {
    Number(log[a].1[k])
  }

  function KindAt(log: Log, k: Key, a: int): NumberKind
    requires Names(log, k, a)
  {
    KindOfTip(log[a].1[k])
  }

  function TimeAt(log: Log, a: int): int
    requires a in log
  {
    log[a].0.0
  }

  /** The newest age up to `t` whose scan holds a number for `k`; zero when there is none. */
  function LastNamed(log: Log, k: Key, t: int): (a: int)
    ensures a != 0 ==> 0 < a <= t && Names(log, k, a)
    ensures forall b | a < b <= t && 0 < b :: !Names(log, k, b)
    decreases if t > 0 then t else 0
  {
    if t <= 0 then 0 else if Names(log, k, t) then t else LastNamed(log, k, t - 1)
  }

  /** The characterisation of `LastNamed`. */
  lemma LastNamedIs(log: Log, k: Key, t: int, a: int)
    requires 0 < a <= t && Names(log, k, a) && forall b | a < b <= t :: !Names(log, k, b)
    ensures LastNamed(log, k, t) == a
  {}

  /** Timestamps strictly rise with the ages from `lo` to `hi`. */
  ghost predicate TimesRise(log: Log, lo: int, hi: int) {
    && (forall a | lo <= a <= hi :: a in log)
    && (forall a, b | lo <= a < b <= hi :: TimeAt(log, a) < TimeAt(log, b))
  }

  ghost predicate Extends(log: Log, log': Log, now: int) {
    && (forall a | a in log :: a <= now)
    && (forall a | a <= now :: (a in log <==> a in log') && (a in log ==> log'[a] == log[a]))
  }

  lemma SameNames(log: Log, log': Log, now: int, k: Key)
    requires Extends(log, log', now)
    ensures forall a | a <= now :: (Names(log, k, a) <==> Names(log', k, a))
    ensures forall a | a <= now && Names(log, k, a) ::
      NumberAt(log', k, a) == NumberAt(log, k, a) && KindAt(log', k, a) == KindAt(log, k, a)
  {}

  lemma {:induction false} SameLast(log: Log, log': Log, now: int, k: Key, t: int)
    requires Extends(log, log', now) && t <= now
    ensures LastNamed(log', k, t) == LastNamed(log, k, t)
    decreases if t > 0 then t else 0
  {
    SameNames(log, log', now, k);
    if t > 0 {
      SameLast(log, log', now, k, t - 1);
    }
  }

  // ---------------------------------------------------------------- what an integer row shows

  /**
   What the row of an integer shows at age `t` once the store is at age `now`: the newest number
   where it was pushed; right before every later push the number that push covered, missing if it
   was larger; nothing anywhere else.
   */
  function Reading(log: Log, k: Key, now: int, t: int): Option<int> {
    var a, newest := LastNamed(log, k, t), LastNamed(log, k, now);
    if a == 0 then None
    else if newest == t then Some(NumberAt(log, k, t))
    else if t + 1 <= now && Names(log, k, t + 1) && NumberAt(log, k, a) <= NumberAt(log, k, t + 1)
    then Some(NumberAt(log, k, a))
    else None
  }

  /** Sample `i` of an integer row of that kind. */
  ghost predicate IntegerTells(log: Log, k: Key, kind: NumberKind, l: seq<Option<int>>, now: int, i: nat)
    requires i < |l|
  {
    var a := LastNamed(log, k, now - i);
    && a > 0 && KindAt(log, k, a) == kind
    && TimesRise(log, a, now)
    && l[i] == Reading(log, k, now, now - i)
  }

  ghost predicate IntegerRowTells(log: Log, k: Key, kind: NumberKind, l: seq<Option<int>>, now: int) {
    AnyPresent(l) && forall i: nat | i < |l| :: IntegerTells(log, k, kind, l, now, i)
  }

  /** The first sample present is the newest number, at the age that gave it. */
  lemma FirstIsNewest(log: Log, k: Key, kind: NumberKind, l: seq<Option<int>>, now: int)
    requires IntegerRowTells(log, k, kind, l, now)
    ensures var f, a := FirstPresent(l), LastNamed(log, k, now);
      f < |l| && a > 0 && f == now - a && l[f] == Some(NumberAt(log, k, a))
  {
    var f, a := FirstPresent(l), LastNamed(log, k, now);
    assert l != [] && IntegerTells(log, k, kind, l, now, 0);
    assert IntegerTells(log, k, kind, l, now, f);
    var g := now - a;
    if g < |l| {
      assert IntegerTells(log, k, kind, l, now, g);
      LastNamedIs(log, k, a, a);
    }
  }

  /** Times keep rising with one more scan. */
  lemma TimesRiseMore(log: Log, log': Log, now: int, lo: int)
    requires Extends(log, log', now) && now + 1 in log' && lo <= now && TimesRise(log, lo, now)
    requires TimeAt(log', now + 1) > TimeAt(log, now)
    ensures TimesRise(log', lo, now + 1)
  {
    forall a, b | lo <= a < b <= now + 1 ensures TimeAt(log', a) < TimeAt(log', b) {
      if b <= now {
        assert TimeAt(log, a) < TimeAt(log, b);
      } else if a < now {
        assert TimeAt(log, a) < TimeAt(log, now);
      }
    }
  }

  /** The sample of an age before the newest scan, seen after one more scan. */
  lemma ReadingLater(log: Log, log': Log, k: Key, now: int, t: int)
    requires Extends(log, log', now) && t <= now
    ensures var a := LastNamed(log, k, now);
      Reading(log', k, now + 1, t) ==
        if !Names(log', k, now + 1) then Reading(log, k, now, t)
        else if t == now && a != 0
        then (if NumberAt(log, k, a) <= NumberAt(log', k, now + 1) then Some(NumberAt(log, k, a)) else None)
        else if t >= a then None
        else Reading(log, k, now, t)
  {
    SameNames(log, log', now, k);
    SameLast(log, log', now, k, t);
    SameLast(log, log', now, k, now);
    hide Extends;
    if t == LastNamed(log, k, now) && t < now {
      assert !Names(log, k, t + 1);
    }
  }

  lemma TellsLater(log: Log, log': Log, k: Key, kind: NumberKind, l: seq<Option<int>>, l': seq<Option<int>>,
                   now: int, i: nat)
    requires Extends(log, log', now) && now + 1 in log' && now in log && TimeAt(log', now + 1) > TimeAt(log, now)
    requires i < |l| && i + 1 < |l'| && IntegerTells(log, k, kind, l, now, i)
    requires l'[i + 1] == Reading(log', k, now + 1, now - i)
    ensures IntegerTells(log', k, kind, l', now + 1, i + 1)
  {
    SameNames(log, log', now, k);
    SameLast(log, log', now, k, now - i);
    TimesRiseMore(log, log', now, LastNamed(log, k, now - i));
    assert now + 1 - (i + 1) == now - i;
    hide Extends, TimesRise, Reading;
  }

  /** A number pushed at the newest age. */
  lemma NewestTells(log': Log, k: Key, l': seq<Option<int>>, now: int)
    requires now > 0 && Names(log', k, now) && l' != [] && l'[0] == Some(NumberAt(log', k, now))
    ensures IntegerTells(log', k, KindAt(log', k, now), l', now, 0)
  {
    LastNamedIs(log', k, now, now);
  }

  /** A push of the same kind. */
  lemma ConsIntegerTells(log: Log, log': Log, k: Key, kind: NumberKind, l: seq<Option<int>>, now: int)
    requires Extends(log, log', now) && now >= 0 && Names(log', k, now + 1) && KindAt(log', k, now + 1) == kind
    requires IntegerRowTells(log, k, kind, l, now)
    requires now in log && TimeAt(log', now + 1) > TimeAt(log, now)
    ensures IntegerRowTells(log', k, kind, ConsInteger(l, NumberAt(log', k, now + 1)), now + 1)
  {
    var x := NumberAt(log', k, now + 1);
    var l', f, a := ConsInteger(l, x), FirstPresent(l), LastNamed(log, k, now);
    FirstIsNewest(log, k, kind, l, now);
    NewestTells(log', k, l', now + 1);
    hide Extends, Reading, Names, IntegerTells, ConsInteger;
    assert l'[0].Some?;
    var next := now + 1;
    forall i: nat | i < |l'| ensures IntegerTells(log', k, kind, l', next, i) {
      if i > 0 {
        ConsTellsAt(log, log', k, kind, l, now, i - 1);
      }
    }
  }

  /** A sample the push leaves behind it. */
  lemma ConsTellsAt(log: Log, log': Log, k: Key, kind: NumberKind, l: seq<Option<int>>, now: int, i: nat)
    requires Extends(log, log', now) && now >= 0 && Names(log', k, now + 1)
    requires IntegerRowTells(log, k, kind, l, now) && i < |l|
    requires now in log && TimeAt(log', now + 1) > TimeAt(log, now)
    ensures var l' := ConsInteger(l, NumberAt(log', k, now + 1));
      i + 1 < |l'| && IntegerTells(log', k, kind, l', now + 1, i + 1)
  {
    var x := NumberAt(log', k, now + 1);
    var l', f := ConsInteger(l, x), FirstPresent(l);
    FirstIsNewest(log, k, kind, l, now);
    ReadingLater(log, log', k, now, now - i);
    assert IntegerTells(log, k, kind, l, now, i);
    hide Extends, Reading, Names, IntegerTells;
    ReadsAs(log, k, kind, l, now, i);
    assert l'[i + 1] == if i == 0 then (if l[f].value > x then None else l[f]) else if i <= f then None else l[i];
    TellsLater(log, log', k, kind, l, l', now, i);
  }

  lemma ReadsAs(log: Log, k: Key, kind: NumberKind, l: seq<Option<int>>, now: int, i: nat)
    requires i < |l| && IntegerTells(log, k, kind, l, now, i)
    ensures l[i] == Reading(log, k, now, now - i)
  {}

  /** A scan without the key. */
  lemma AgedTells(log: Log, log': Log, k: Key, kind: NumberKind, l: seq<Option<int>>, now: int)
    requires Extends(log, log', now) && now + 1 in log' && !Names(log', k, now + 1)
    requires IntegerRowTells(log, k, kind, l, now)
    requires now in log && TimeAt(log', now + 1) > TimeAt(log, now)
    ensures IntegerRowTells(log', k, kind, [None] + l, now + 1)
  {
    var l' := [None] + l;
    assert IntegerTells(log, k, kind, l, now, 0);
    GapTells(log, log', k, kind, l, now);
    hide Extends, Reading, Names, IntegerTells;
    var next := now + 1;
    forall i: nat | i < |l'| ensures IntegerTells(log', k, kind, l', next, i) {
      if i > 0 {
        AgedTellsAt(log, log', k, kind, l, now, i - 1);
      }
    }
    var j :| 0 <= j < |l| && l[j].Some?;
    assert l'[j + 1].Some?;
  }

  lemma AgedTellsAt(log: Log, log': Log, k: Key, kind: NumberKind, l: seq<Option<int>>, now: int, i: nat)
    requires Extends(log, log', now) && now + 1 in log' && !Names(log', k, now + 1)
    requires IntegerRowTells(log, k, kind, l, now) && i < |l|
    requires now in log && TimeAt(log', now + 1) > TimeAt(log, now)
    ensures IntegerTells(log', k, kind, [None] + l, now + 1, i + 1)
  {
    ReadingLater(log, log', k, now, now - i);
    assert IntegerTells(log, k, kind, l, now, i);
    hide Extends, Reading, Names, IntegerTells;
    ReadsAs(log, k, kind, l, now, i);
    TellsLater(log, log', k, kind, l, [None] + l, now, i);
  }

  lemma GapTells(log: Log, log': Log, k: Key, kind: NumberKind, l: seq<Option<int>>, now: int)
    requires Extends(log, log', now) && now + 1 in log' && !Names(log', k, now + 1)
    requires l != [] && IntegerTells(log, k, kind, l, now, 0)
    requires now in log && TimeAt(log', now + 1) > TimeAt(log, now)
    ensures IntegerTells(log', k, kind, [None] + l, now + 1, 0)
  {
    SameNames(log, log', now, k);
    SameLast(log, log', now, k, now);
    TimesRiseMore(log, log', now, LastNamed(log, k, now));
    LastNamedIs(log', k, now + 1, LastNamed(log, k, now));
    hide Extends, TimesRise;
  }

  lemma PrefixTells(log: Log, k: Key, kind: NumberKind, l: seq<Option<int>>, now: int, n: nat)
    requires IntegerRowTells(log, k, kind, l, now) && AnyPresent(Take(l, n))
    ensures IntegerRowTells(log, k, kind, Take(l, n), now)
  {
    forall i: nat | i < |Take(l, n)| ensures IntegerTells(log, k, kind, Take(l, n), now, i) {
      assert IntegerTells(log, k, kind, l, now, i);
      hide Reading, TimesRise;
    }
  }
}
