/** The backlog as plain data: what each operation of cantal_history/src/backlog.rs computes. */
module BacklogModel {
  import opened Histories
  import opened Keys

  datatype Snapshot = Snapshot(age: nat, timestamps: seq<(int, int)>, values: map<Key, Series>)

  const Empty := Snapshot(0, [], map[])

  function Put(values: map<Key, Series>, k: Key, v: TipValue, age: nat): map<Key, Series>
    requires Storable(v)
  {
    if k in values && SameKind(values[k], v) then values[k := PushNumber(values[k], Number(v), age)]
    else values[k := NewSeries(v, age)]
  }

  predicate AllStorable(items: seq<(Key, TipValue)>) {
    forall i | 0 <= i < |items| :: Storable(items[i].1)
  }

  function PutAll(values: map<Key, Series>, items: seq<(Key, TipValue)>, age: nat): map<Key, Series>
    requires AllStorable(items)
  {
    if items == [] then values else
      var n := |items| - 1;
      Put(PutAll(values, items[..n], age), items[n].0, items[n].1, age)
  }

  /** The program asserts that time moved on. */
  predicate Later(s: Snapshot, timestamp: (int, int)) {
    s.timestamps == [] || timestamp.0 > s.timestamps[0].0
  }

  function Push(s: Snapshot, timestamp: (int, int), items: seq<(Key, TipValue)>): Snapshot
    requires AllStorable(items)
  {
    Snapshot(s.age + 1, [timestamp] + s.timestamps, PutAll(s.values, items, s.age + 1))
  }

  function TrimAll(values: map<Key, Series>, trimAge: nat): map<Key, Series> {
    map k | k in values && Trim(values[k], trimAge).Some? :: Trim(values[k], trimAge).value
  }

  function TargetAge(age: nat, idx: nat): nat {
    if idx <= age then age - idx else 0
  }

  function TruncateByNum(s: Snapshot, idx: nat): Snapshot {
    Snapshot(s.age, Take(s.timestamps, idx), TrimAll(s.values, TargetAge(s.age, idx)))
  }

  /** The first timestamp older than the limit, or the number of timestamps. */
  function FirstOlder(timestamps: seq<(int, int)>, limit: int): (i: nat)
    ensures i <= |timestamps|
    ensures i < |timestamps| ==> timestamps[i].0 < limit
    ensures forall j | 0 <= j < i :: timestamps[j].0 >= limit
  {
    if timestamps == [] || timestamps[0].0 < limit then 0 else
      var i := FirstOlder(timestamps[1..], limit) + 1;
      assert forall j | 0 < j < i :: timestamps[j] == timestamps[1..][j - 1];
      i
  }

  function TruncateByTime(s: Snapshot, limit: int): Snapshot {
    var i := FirstOlder(s.timestamps, limit);
    if i < |s.timestamps| then TruncateByNum(s, i) else s
  }
}
