/** The history store with its fields updated in place (cantal_history/src/backlog.rs). */
module Backlogs {
  import opened Wrappers
  import opened DeltaCodec
  import opened DeltaBuffers
  import opened Histories
  import opened BacklogModel
  import opened Keys

  /** `Inner<T, DeltaBuf<T>>` */
  class DeltaInner {
    const w: Width
    const buf: DeltaBuf
    var tip: int
    var age: nat

    ghost predicate Valid()
      reads this, buf
    {
      buf.w == w && buf.Valid() && InRange(w, tip)
    }

    ghost function State(): Series
      reads this, buf
    {
      IntSeries(w, tip, age, buf.Contents())
    }

    constructor (w: Width, tip: int, age: nat)
      requires InRange(w, tip)
      ensures Valid() && fresh(buf) && State() == IntSeries(w, tip, age, [])
      ensures this.w == w
    {
      this.w := w;
      this.tip := tip;
      this.age := age;
      buf := new DeltaBuf(w);
    }

    constructor Unpack(w: Width, tip: int, age: nat, bytes: seq<Byte>)
      requires InRange(w, tip) && WellFormed(w, bytes)
      ensures Valid() && fresh(buf) && State() == IntSeries(w, tip, age, Deltas(w, bytes))
      ensures this.w == w && this.tip == tip && this.age == age && buf.bytes == bytes
    {
      this.w := w;
      this.tip := tip;
      this.age := age;
      buf := new DeltaBuf.FromBytes(w, bytes);
    }

    method Push(tip: int, age: nat) returns (r: bool)
      requires Valid() && InRange(w, tip)
      requires age <= this.age + TWO_63
      modifies this, buf
      ensures Valid()
      ensures r == (old(this.age) <= age)
      ensures State() == PushNumber(old(State()), tip, age)
    {
      if age < this.age {
        return false;
      }
      buf.Push(this.tip, tip, age - this.age);
      this.tip := tip;
      this.age := age;
      return true;
    }

    method Truncate(trimAge: nat) returns (r: bool)
      requires Valid()
      modifies buf
      ensures Valid()
      ensures r == Trim(old(State()), trimAge).Some?
      ensures State() == if r then Trim(old(State()), trimAge).value else old(State())
    {
      if age <= trimAge {
        return false;
      }
      var limit := age - trimAge;
      var _ := buf.Truncate(if limit > 1 then limit - 1 else 0);
      return true;
    }

    method History(currentAge: nat) returns (h: DeltaHistory)
      requires Valid()
      ensures fresh(h) && fresh(h.iter) && h.Valid() && h.Remaining() == Histories.History(State(), currentAge)
    {
      var ageDiff := if currentAge > age then currentAge - age else 0;
      var it := buf.Iterate();
      h := new DeltaHistory(if ageDiff > 0 then GapLeft(ageDiff) else AtTip, it, tip);
    }
  }

  datatype HState = GapLeft(n: nat) | AtTip | InBuffer

  class DeltaHistory {
    var state: HState
    const iter: DeltaIter
    var tip: int

    ghost predicate Valid()
      reads this, iter
    {
      iter.Valid() && (state.GapLeft? ==> state.n > 0)
    }

    /** The samples still to come. */
    ghost function Remaining(): seq<Option<int>>
      reads this, iter
    {
      var behind := Walk(iter.w, tip, iter.Remaining());
      match state
      case GapLeft(n) => Repeat(None, n) + ([Some(tip)] + behind)
      case AtTip => [Some(tip)] + behind
      case InBuffer => behind
    }

    constructor (state: HState, iter: DeltaIter, tip: int)
      requires iter.Valid() && (state.GapLeft? ==> state.n > 0)
      ensures Valid() && this.state == state && this.iter == iter && this.tip == tip
    {
      this.state := state;
      this.iter := iter;
      this.tip := tip;
    }

    method Next() returns (r: Option<Option<int>>)
      requires Valid()
      modifies this, iter
      ensures Valid()
      ensures r == None <==> old(Remaining()) == []
      ensures r == None ==> Remaining() == []
      ensures r.Some? ==> old(Remaining()) == [r.value] + Remaining()
    {
      match state
      case GapLeft(n) =>
        r, state := Some(None), if n == 1 then AtTip else GapLeft(n - 1);
        RepeatNoneHead(n, [Some(tip)] + Walk(iter.w, tip, iter.Remaining()));
      case AtTip =>
        r, state := Some(Some(tip)), InBuffer;
      case InBuffer =>
        var d := iter.Next();
        if d.Some? {
          WalkCons(iter.w, tip, d.value, iter.Remaining());
        }
        match d {
          case Some(Positive(x)) =>
            tip := Wrap(iter.w, tip - x);
            r := Some(Some(tip));
          case Some(Negative(x)) =>
            tip := Wrap(iter.w, tip + x);
            r := Some(None);
          case Some(Skip) =>
            r := Some(None);
          case None =>
            r := None;
        }
    }
  }

  lemma RepeatNoneHead(n: nat, rest: seq<Option<int>>)
    requires n > 0
    ensures Repeat(None, n) + rest == [None] + (Repeat(None, n - 1) + rest)
    ensures n == 1 ==> Repeat(None, n) + rest == [None] + rest
  {}

  /** `Inner<f64, VecDeque<f64>>` */
  class FloatInner {
    var tip: int
    var age: nat
    var buf: seq<int>

    ghost function State(): Series
      reads this
    {
      FloatSeries(tip, age, buf)
    }

    constructor (tip: int, age: nat)
      ensures State() == FloatSeries(tip, age, [])
    {
      this.tip := tip;
      this.age := age;
      buf := [];
    }

    constructor Unpack(tip: int, age: nat, buf: seq<int>)
      ensures State() == FloatSeries(tip, age, buf)
    {
      this.tip := tip;
      this.age := age;
      this.buf := buf;
    }

    method Push(tip: int, age: nat) returns (r: bool)
      modifies this
      ensures r == (old(this.age) <= age)
      ensures State() == PushNumber(old(State()), tip, age)
    {
      if age < this.age {
        return false;
      }
      PushBuf(this.tip, age - this.age);
      this.tip := tip;
      this.age := age;
      return true;
    }

    method PushBuf(prev: int, ageDiff: nat)
      modifies this`buf
      ensures buf == PushedFloats(old(buf), prev, ageDiff)
    {
      buf := [prev] + buf;
      ghost var start := buf;
      if ageDiff > 1 {
        for i := 1 to ageDiff
          invariant buf == Repeat(NAN, i - 1) + start
        {
          assert Repeat(NAN, i) == [NAN] + Repeat(NAN, i - 1);
          buf := [NAN] + buf;
        }
      }
    }

    method Truncate(trimAge: nat) returns (r: bool)
      modifies this
      ensures r == Trim(old(State()), trimAge).Some?
      ensures State() == if r then Trim(old(State()), trimAge).value else old(State())
    {
      if age <= trimAge {
        return false;
      }
      var limit := age - trimAge;
      while |buf| > limit - 1
        invariant age == old(age) && tip == old(tip)
        invariant limit - 1 <= |buf| || buf == old(buf)
        invariant buf == old(buf)[..|buf|]
      {
        buf := buf[..|buf| - 1];
      }
      return true;
    }

    method History(currentAge: nat) returns (h: FloatHistory)
      ensures fresh(h) && h.Valid() && h.Remaining() == Histories.History(State(), currentAge)
    {
      var ageDiff := if currentAge > age then currentAge - age else 0;
      h := new FloatHistory(if ageDiff > 0 then GapLeft(ageDiff) else AtTip, buf, tip);
    }
  }

  class FloatHistory {
    var state: HState
    var iter: seq<int>
    var tip: int

    ghost predicate Valid()
      reads this
    {
      state.GapLeft? ==> state.n > 0
    }

    ghost function Remaining(): seq<Option<int>>
      reads this
    {
      match state
      case GapLeft(n) => Repeat(None, n) + ([Some(tip)] + MaskAll(iter))
      case AtTip => [Some(tip)] + MaskAll(iter)
      case InBuffer => MaskAll(iter)
    }

    constructor (state: HState, iter: seq<int>, tip: int)
      requires state.GapLeft? ==> state.n > 0
      ensures Valid() && this.state == state && this.iter == iter && this.tip == tip
    {
      this.state := state;
      this.iter := iter;
      this.tip := tip;
    }

    method Next() returns (r: Option<Option<int>>)
      requires Valid()
      modifies this
      ensures Valid()
      ensures r == None <==> old(Remaining()) == []
      ensures r == None ==> Remaining() == []
      ensures r.Some? ==> old(Remaining()) == [r.value] + Remaining()
    {
      match state
      case GapLeft(n) =>
        r, state := Some(None), if n == 1 then AtTip else GapLeft(n - 1);
        RepeatNoneHead(n, [Some(tip)] + MaskAll(iter));
      case AtTip =>
        r, state := Some(Some(tip)), InBuffer;
      case InBuffer =>
        if iter == [] {
          r := None;
        } else {
          r := Some(if IsNaN(iter[0]) then None else Some(iter[0]));
          iter := iter[1..];
        }
    }
  }

  /** `history(age).collect()`: the iterators yield the whole history and then end. */
  method CollectDeltas(inner: DeltaInner, currentAge: nat) returns (out: seq<Option<int>>)
    requires inner.Valid()
    ensures out == Histories.History(inner.State(), currentAge)
  {
    hide *;
    out := [];
    ghost var all := Histories.History(inner.State(), currentAge);
    var h := inner.History(currentAge);
    while true
      invariant h.Valid() && fresh(h) && fresh(h.iter)
      invariant out + h.Remaining() == all
      decreases |h.Remaining()|
    {
      ghost var before := h.Remaining();
      var r := h.Next();
      if r == None {
        break;
      }
      assert out + before == out + [r.value] + h.Remaining();
      out := out + [r.value];
    }
  }

  method CollectFloats(log: FloatInner, currentAge: nat) returns (out: seq<Option<int>>)
    ensures out == Histories.History(log.State(), currentAge)
  {
    hide *;
    out := [];
    ghost var all := Histories.History(log.State(), currentAge);
    var h := log.History(currentAge);
    while true
      invariant h.Valid() && fresh(h)
      invariant out + h.Remaining() == all
      decreases |h.Remaining()|
    {
      ghost var before := h.Remaining();
      var r := h.Next();
      if r == None {
        break;
      }
      assert out + before == out + [r.value] + h.Remaining();
      out := out + [r.value];
    }
  }

  /** A stored history; the kind decides the buffer. */
  datatype Value = CounterLog(inner: DeltaInner) | IntegerLog(inner: DeltaInner) | FloatLog(log: FloatInner) {

    ghost function Footprint(): set<object> {
      if FloatLog? then {log} else {inner, inner.buf}
    }

    ghost predicate Valid()
      reads Footprint()
    {
      FloatLog? || (inner.Valid() && inner.w == if CounterLog? then U64 else I64)
    }

    ghost function State(): Series
      reads Footprint()
    {
      if FloatLog? then log.State() else inner.State()
    }

    function Age(): nat
      reads Footprint()
    {
      if FloatLog? then log.age else inner.age
    }

    static method New(v: TipValue, age: nat) returns (r: Value)
      requires Storable(v)
      ensures r.Valid() && fresh(r.Footprint()) && r.Age() == age && r.State() == NewSeries(v, age)
    {
      match v
      case Counter(n) => var i := new DeltaInner(U64, n, age); r := CounterLog(i);
      case Integer(n) => var i := new DeltaInner(I64, n, age); r := IntegerLog(i);
      case Float(bits) => var i := new FloatInner(bits, age); r := FloatLog(i);
    }

    method Push(v: TipValue, age: nat) returns (r: bool)
      requires Valid() && Storable(v)
      requires age <= Age() + TWO_63
      modifies Footprint()
      ensures Valid()
      ensures r == SameKind(old(State()), v)
      ensures Age() == if r && old(Age()) <= age then age else old(Age())
      ensures State() == if r then PushNumber(old(State()), Number(v), age) else old(State())
    {
      match (this, v)
      case (CounterLog(b), Counter(n)) => var _ := b.Push(n, age); return true;
      case (IntegerLog(b), Integer(n)) => var _ := b.Push(n, age); return true;
      case (FloatLog(b), Float(bits)) => var _ := b.Push(bits, age); return true;
      case _ => return false;
    }

    method Truncate(trimAge: nat) returns (r: bool)
      requires Valid()
      modifies Footprint()
      ensures Valid()
      ensures r == Trim(old(State()), trimAge).Some?
      ensures Age() == old(Age())
      ensures State() == if r then Trim(old(State()), trimAge).value else old(State())
    {
      match this
      case CounterLog(b) => r := b.Truncate(trimAge);
      case IntegerLog(b) => r := b.Truncate(trimAge);
      case FloatLog(b) => r := b.Truncate(trimAge);
    }

    method Samples(currentAge: nat) returns (out: seq<Option<int>>)
      requires Valid()
      ensures out == Histories.History(State(), currentAge)
    {
      match this
      case CounterLog(b) => out := CollectDeltas(b, currentAge);
      case IntegerLog(b) => out := CollectDeltas(b, currentAge);
      case FloatLog(b) => out := CollectFloats(b, currentAge);
    }
  }

  ghost function Footprints(values: map<Key, Value>): set<object> {
    set k, o | k in values && o in values[k].Footprint() :: o
  }

  class Backlog {
    var age: nat
    var timestamps: seq<(int, int)>  // newest first
    var values: map<Key, Value>

    ghost function Repr(): set<object>
      reads this
    {
      Footprints(values)
    }

    ghost predicate Valid()
      reads this, Repr()
    {
      Healthy(values, age)
    }

    ghost function Model(): Snapshot
      reads this, Repr()
    {
      Snapshot(age, timestamps, States(values))
    }

    constructor ()
      ensures Valid() && Model() == BacklogModel.Empty && Repr() == {}
    {
      age := 0;
      timestamps := [];
      values := map[];
    }

    /** The age is a `u64`; 2^63 pushes are out of reach. */
    method Push(timestamp: (int, int), items: seq<(Key, TipValue)>)
      requires Valid() && AllStorable(items)
      requires Later(Model(), timestamp)
      requires age < TWO_63
      modifies this, Repr()
      ensures Valid() && fresh(Repr() - old(Repr()))
      ensures Model() == BacklogModel.Push(old(Model()), timestamp, items)
    {
      hide Healthy, States, PutAll, AllStorable, Storable;
      ghost var before := States(values);
      PutAllNone(before, items, age + 1);
      Advance(timestamp);
      for i := 0 to |items|
        invariant Valid() && fresh(Repr() - old(Repr()))
        invariant age == old(age) + 1 && timestamps == [timestamp] + old(timestamps)
        invariant States(values) == PutAll(before, items[..i], age)
      {
        PutAllStep(before, items, i, age);
        PutOne(items[i].0, items[i].1);
      }
      assert items[..|items|] == items;
    }

    method Advance(timestamp: (int, int))
      requires Valid()
      modifies this`timestamps, this`age
      ensures Valid() && States(values) == old(States(values))
      ensures age == old(age) + 1 && timestamps == [timestamp] + old(timestamps)
    {
      hide Value.Valid, Value.State, Value.Age;
      timestamps := [timestamp] + timestamps;
      age := age + 1;
      forall j | j in values
        ensures values[j].Valid() && values[j].Age() <= age && values[j].State() == old(values[j].State())
      {
        assert forall o | o in values[j].Footprint() :: o != this;
      }
    }

    method PutOne(k: Key, v: TipValue)
      requires Valid() && Storable(v) && age <= TWO_63
      modifies this`values, Repr()
      ensures Valid() && fresh(Repr() - old(Repr()))
      ensures age == old(age) && timestamps == old(timestamps)
      ensures States(values) == Put(old(States(values)), k, v, age)
    {
      hide Value.Valid, Value.State, Value.Age, Storable, SameKind, PushNumber, NewSeries;
      var done := false;
      if k in values {
        done := PushAt(k, v);
      }
      if !done {
        Insert(k, v);
      }
    }

    method Insert(k: Key, v: TipValue)
      requires Valid() && Storable(v)
      modifies this`values
      ensures Valid() && fresh(Repr() - old(Repr()))
      ensures States(values) == old(States(values))[k := NewSeries(v, age)]
    {
      hide Healthy, States, Value.Valid, Value.State, Value.Age, Storable, NewSeries;
      assert forall o | o in Footprints(values) :: allocated(o);
      var added := Value.New(v, age);
      Replaced(values, k, added, age);
      values := values[k := added];
    }

    /** `get_mut`: update one value in place. */
    method PushAt(k: Key, v: TipValue) returns (done: bool)
      requires Valid() && Storable(v) && age <= TWO_63
      requires k in values
      modifies values[k].Footprint()
      ensures Valid()
      ensures done == SameKind(old(values[k].State()), v)
      ensures States(values) == if done then Put(old(States(values)), k, v, age) else old(States(values))
    {
      hide Value.Valid, Value.State, Value.Age, Storable, SameKind, PushNumber, NewSeries;
      ghost var before := States(values);
      done := values[k].Push(v, age);
      forall j | j in values && j != k
        ensures values[j].Valid() && values[j].Age() <= age && values[j].State() == old(values[j].State())
      {
        assert values[j].Footprint() !! values[k].Footprint();
      }
      assert States(values) == before[k := values[k].State()];
    }

    /** Drop the ages from the first timestamp older than the limit on. */
    method TruncateByTime(timestamp: int)
      requires Valid()
      modifies this, Repr()
      ensures Valid() && Repr() <= old(Repr())
      ensures Model() == BacklogModel.TruncateByTime(old(Model()), timestamp)
    {
      for idx := 0 to |timestamps|
        invariant Valid() && Model() == old(Model()) && Repr() == old(Repr())
        invariant forall j | 0 <= j < idx :: timestamps[j].0 >= timestamp
      {
        if timestamps[idx].0 < timestamp {
          FirstOlderIs(timestamps, timestamp, idx);
          TruncateByNum(idx);
          return;
        }
      }
    }

    method TruncateByNum(idx: nat)
      requires Valid()
      modifies this, Repr()
      ensures Valid() && Repr() <= old(Repr())
      ensures Model() == BacklogModel.TruncateByNum(old(Model()), idx)
    {
      var targetAge := if idx <= age then age - idx else 0;
      hide Healthy, States, TrimAll;
      TrimValues(targetAge);
      PopTimestamps(idx);
    }

    method PopTimestamps(idx: nat)
      requires Valid()
      modifies this`timestamps
      ensures Valid() && States(values) == old(States(values))
      ensures timestamps == Take(old(timestamps), idx)
    {
      hide Value.Valid, Value.State, Value.Age;
      while |timestamps| > idx
        invariant idx <= |timestamps| || timestamps == old(timestamps)
        invariant timestamps == old(timestamps)[..|timestamps|]
      {
        timestamps := timestamps[..|timestamps| - 1];
      }
      forall j | j in values
        ensures values[j].Valid() && values[j].Age() <= age && values[j].State() == old(values[j].State())
      {
        assert forall o | o in values[j].Footprint() :: o != this;
      }
    }

    /** The map is taken apart and the values that keep something are collected again. */
    method TrimValues(targetAge: nat)
      requires Valid()
      modifies this`values, Repr()
      ensures age == old(age) && timestamps == old(timestamps)
      ensures Valid() && Repr() <= old(Repr())
      ensures States(values) == TrimAll(old(States(values)), targetAge)
    {
      hide Healthy, States, TrimAll, Value.State, Value.Age, Value.Valid, Trim;
      StatesAt(values);
      ghost var before := States(values);
      var all := values;
      var kept: map<Key, Value> := map[];
      var todo := all.Keys;
      while todo != {}
        invariant values == all == old(values) && age == old(age) && timestamps == old(timestamps)
        invariant todo <= all.Keys && Valid()
        invariant forall k | k in todo :: all[k].State() == before[k]
        invariant forall k :: k in kept <==> k in all && k !in todo && Trim(before[k], targetAge).Some?
        invariant forall k | k in kept ::
          kept[k] == all[k] && all[k].State() == Trim(before[k], targetAge).value
        decreases todo
      {
        var k :| k in todo;
        var keep := TrimAt(k, targetAge);
        if keep {
          kept := kept[k := all[k]];
        }
        todo := todo - {k};
      }
      Collected(all, kept, before, targetAge, age);
      values := kept;
    }

    method TrimAt(k: Key, targetAge: nat) returns (keep: bool)
      requires Valid() && k in values
      modifies values[k].Footprint()
      ensures Valid()
      ensures keep == Trim(old(values[k].State()), targetAge).Some?
      ensures keep ==> values[k].State() == Trim(old(values[k].State()), targetAge).value
      ensures forall j | j in values && j != k :: values[j].State() == old(values[j].State())
    {
      hide Value.Valid, Value.State, Value.Age, Trim;
      keep := values[k].Truncate(targetAge);
      forall j | j in values && j != k
        ensures values[j].Valid() && values[j].Age() <= age && values[j].State() == old(values[j].State())
      {
        assert values[j].Footprint() !! values[k].Footprint();
      }
    }
  }

  /** No two keys share an object, as a map that owns its values guarantees. */
  ghost predicate Owned(values: map<Key, Value>) {
    forall j, k | j in values && k in values && j != k :: values[j].Footprint() !! values[k].Footprint()
  }

  ghost function States(values: map<Key, Value>): map<Key, Series>
    reads Footprints(values)
  {
    map k | k in values :: values[k].State()
  }

  ghost predicate Healthy(values: map<Key, Value>, age: nat)
    reads Footprints(values)
  {
    && (forall k | k in values :: values[k].Valid() && values[k].Age() <= age)
    && Owned(values)
  }

  lemma FootprintIn(values: map<Key, Value>, k: Key)
    requires k in values
    ensures values[k].Footprint() <= Footprints(values)
  {}

  /** A new object under one key. */
  lemma Replaced(values: map<Key, Value>, k: Key, added: Value, age: nat)
    requires Healthy(values, age) && added.Valid() && added.Age() <= age
    requires added.Footprint() !! Footprints(values)
    ensures Healthy(values[k := added], age)
    ensures States(values[k := added]) == States(values)[k := added.State()]
    ensures Footprints(values[k := added]) <= Footprints(values) + added.Footprint()
  {
    hide Value.Footprint, Value.Valid, Value.State, Value.Age;
    forall j | j in values ensures values[j].Footprint() !! added.Footprint() {
      FootprintIn(values, j);
    }
  }

  lemma {:induction false} FirstOlderIs(timestamps: seq<(int, int)>, limit: int, idx: nat)
    requires idx < |timestamps| && timestamps[idx].0 < limit
    requires forall j | 0 <= j < idx :: timestamps[j].0 >= limit
    ensures FirstOlder(timestamps, limit) == idx
  {
    var i := FirstOlder(timestamps, limit);
    assert timestamps[i].0 < limit;
  }

  lemma StatesAt(values: map<Key, Value>)
    ensures States(values).Keys == values.Keys
    ensures forall k | k in values :: States(values)[k] == values[k].State()
  {}

  /** The kept part of a map still owns its values. */
  lemma Collected(all: map<Key, Value>, kept: map<Key, Value>, before: map<Key, Series>, trimAge: nat, age: nat)
    requires Healthy(all, age) && before.Keys == all.Keys
    requires forall k :: k in kept <==> k in all && Trim(before[k], trimAge).Some?
    requires forall k | k in kept :: kept[k] == all[k] && all[k].State() == Trim(before[k], trimAge).value
    ensures Healthy(kept, age) && Footprints(kept) <= Footprints(all)
    ensures States(kept) == TrimAll(before, trimAge)
  {
    hide Value.Footprint, Value.Valid, Value.State, Value.Age, Trim;
  }

  lemma PutAllNone(values: map<Key, Series>, items: seq<(Key, TipValue)>, age: nat)
    requires AllStorable(items)
    ensures PutAll(values, items[..0], age) == values
    ensures forall i | 0 <= i < |items| :: Storable(items[i].1)
    ensures forall i | 0 <= i <= |items| :: AllStorable(items[..i])
  {}

  lemma PutAllStep(values: map<Key, Series>, items: seq<(Key, TipValue)>, i: nat, age: nat)
    requires AllStorable(items) && i < |items|
    ensures PutAll(values, items[..i + 1], age) == Put(PutAll(values, items[..i], age), items[i].0, items[i].1, age)
  {
    assert items[..i + 1][..i] == items[..i];
  }
}
