/**
 Metric keys (cantal_history/src/key.rs): sorted name/value pairs as one CBOR map, the merge that
 builds them and the scan that looks a name up.
 */
module Keys {
  import opened Wrappers
  import opened DeltaCodec
  import opened Cbor

  type Str = seq<Byte>  // UTF-8 bytes

  type Pair = (Str, Str)

  datatype Key = Key(bytes: Option<seq<Byte>>)

  // ---------------------------------------------------------------- order of names

  predicate Less(a: Str, b: Str) {
    b != [] && (a == [] || a[0] < b[0] || (a[0] == b[0] && Less(a[1..], b[1..])))
  }

  lemma {:induction false} LessTrichotomy(a: Str, b: Str)
    ensures Less(a, b) || a == b || Less(b, a)
    ensures !(Less(a, b) && Less(b, a)) && (a == b ==> !Less(a, b))
  {
    if a != [] && b != [] && a[0] == b[0] {
      LessTrichotomy(a[1..], b[1..]);
      assert a == [a[0]] + a[1..] && b == [b[0]] + b[1..];
    }
  }

  /** The first place where two names differ decides; a name comes before its continuations. */
  ghost predicate DiffersAt(a: Str, b: Str, i: nat) {
    && i <= |a| && i < |b| && (forall j | 0 <= j < i :: a[j] == b[j])
    && (i == |a| || a[i] < b[i])
  }

  /** The order of names is that of their bytes. */
  lemma {:induction false} LessIsBytewise(a: Str, b: Str)
    ensures Less(a, b) <==> exists i: nat :: DiffersAt(a, b, i)
  {
    if a != [] && b != [] && a[0] == b[0] {
      LessIsBytewise(a[1..], b[1..]);
      if i: nat :| DiffersAt(a[1..], b[1..], i) {
        assert forall j | 0 < j <= i :: a[j] == a[1..][j - 1] && b[j] == b[1..][j - 1];
        assert DiffersAt(a, b, i + 1);
      }
      if i: nat :| DiffersAt(a, b, i) {
        assert i > 0 && forall j | 0 <= j < i - 1 :: a[1..][j] == a[j + 1] && b[1..][j] == b[j + 1];
        assert DiffersAt(a[1..], b[1..], i - 1);
      }
    } else if b != [] && (a == [] || a[0] < b[0]) {
      assert DiffersAt(a, b, 0);
    }
  }

  lemma {:induction false} LessTransitive(a: Str, b: Str, c: Str)
    requires Less(a, b) && Less(b, c)
    ensures Less(a, c)
  {
    if a != [] && a[0] == b[0] == c[0] {
      LessTransitive(a[1..], b[1..], c[1..]);
    }
  }

  predicate Sorted(s: seq<Pair>) {
    forall i, j | 0 <= i < j < |s| :: Less(s[i].0, s[j].0)
  }

  predicate HasName(s: seq<Pair>, name: Str) {
    exists i | 0 <= i < |s| :: s[i].0 == name
  }

  /** The first pair with that name. */
  function Find(s: seq<Pair>, name: Str): Option<Str> {
    if s == [] then None else if s[0].0 == name then Some(s[0].1) else Find(s[1..], name)
  }

  // ---------------------------------------------------------------- merge

  /** What the merging iterator yields. */
  function Merged(a: seq<Pair>, b: seq<Pair>): seq<Pair>
    decreases |a| + |b|
  {
    if b == [] then a
    else if a == [] then b
    else if a[0].0 == b[0].0 then [b[0]] + Merged(a[1..], b[1..])
    else if Less(a[0].0, b[0].0) then [a[0]] + Merged(a[1..], b)
    else [b[0]] + Merged(a, b[1..])
  }

  /** The number of pairs announced before merging. */
  function CountIn(a: seq<Pair>, b: seq<Pair>): nat {
    if a == [] then 0 else (if Find(b, a[0].0).Some? then 1 else 0) + CountIn(a[1..], b)
  }

  class Merge {
    const num: nat
    var a: seq<Pair>
    var b: seq<Pair>

    constructor (num: nat, a: seq<Pair>, b: seq<Pair>)
      ensures this.num == num && this.a == a && this.b == b
    {
      this.num := num;
      this.a := a;
      this.b := b;
    }

    method Next() returns (r: Option<Pair>)
      modifies this
      ensures r == None <==> old(Merged(a, b)) == []
      ensures r == None ==> a == old(a) && b == old(b)
      ensures r.Some? ==> old(Merged(a, b)) == [r.value] + Merged(a, b)
      ensures r.Some? ==> |a| + |b| < old(|a| + |b|)
    {
      if b == [] {
        if a == [] {
          return None;
        }
        r := Some(a[0]);
        a := a[1..];
      } else if a == [] {
        r := Some(b[0]);
        b := b[1..];
      } else if a[0].0 == b[0].0 {
        // the latter overrides the former
        a := a[1..];
        r := Some(b[0]);
        b := b[1..];
      } else if Less(a[0].0, b[0].0) {
        r := Some(a[0]);
        a := a[1..];
      } else {
        r := Some(b[0]);
        b := b[1..];
      }
    }
  }

  /** Pair `i` is the first of that name. */
  predicate FirstNamed(s: seq<Pair>, name: Str, i: nat) {
    i < |s| && s[i].0 == name && forall j | 0 <= j < i :: s[j].0 != name
  }

  /** Looking a name up gives the value beside it, the first when it is there twice. */
  lemma {:induction false} FindIsFirst(s: seq<Pair>, name: Str, v: Str)
    ensures Find(s, name) == Some(v) <==> exists i: nat :: FirstNamed(s, name, i) && s[i].1 == v
  {
    if s != [] {
      if s[0].0 == name {
        assert FirstNamed(s, name, 0);
      } else {
        FindIsFirst(s[1..], name, v);
        assert forall j | 0 < j < |s| :: s[j] == s[1..][j - 1];
        if i: nat :| FirstNamed(s[1..], name, i) && s[1..][i].1 == v {
          assert FirstNamed(s, name, i + 1);
        }
        if i: nat :| FirstNamed(s, name, i) && s[i].1 == v {
          assert i > 0 && FirstNamed(s[1..], name, i - 1);
        }
      }
    }
  }

  lemma {:induction false} FindHas(s: seq<Pair>, name: Str)
    ensures Find(s, name).Some? <==> HasName(s, name)
    ensures forall i | 0 <= i < |s| && Find(s, name) == None :: s[i].0 != name
  {
    if s != [] {
      FindHas(s[1..], name);
      if HasName(s, name) && s[0].0 != name {
        var i :| 0 <= i < |s| && s[i].0 == name;
        assert s[1..][i - 1].0 == name;
      }
      forall i | 0 <= i < |s| && Find(s, name) == None ensures s[i].0 != name {
        if i > 0 { assert s[i] == s[1..][i - 1]; }
      }
      if HasName(s[1..], name) {
        var i :| 0 <= i < |s[1..]| && s[1..][i].0 == name;
        assert s[i + 1].0 == name;
      }
    }
  }

  predicate AllAbove(name: Str, s: seq<Pair>) {
    forall i | 0 <= i < |s| :: Less(name, s[i].0)
  }

  lemma AboveNotFound(name: Str, s: seq<Pair>)
    requires AllAbove(name, s)
    ensures Find(s, name) == None
  {
    FindHas(s, name);
    LessTrichotomy(name, name);
  }

  lemma SortedTail(s: seq<Pair>)
    requires Sorted(s) && s != []
    ensures Sorted(s[1..]) && AllAbove(s[0].0, s[1..])
  {}

  lemma SortedCons(p: Pair, s: seq<Pair>)
    requires Sorted(s) && AllAbove(p.0, s)
    ensures Sorted([p] + s)
  {}

  lemma AboveChain(lower: Str, p: Pair, s: seq<Pair>)
    requires Less(lower, p.0) && AllAbove(p.0, s)
    ensures AllAbove(lower, [p] + s) && AllAbove(lower, s)
  {
    forall i | 0 <= i < |s| ensures Less(lower, s[i].0) {
      LessTransitive(lower, p.0, s[i].0);
    }
  }

  lemma {:induction false} MergedAbove(lower: Str, a: seq<Pair>, b: seq<Pair>)
    requires AllAbove(lower, a) && AllAbove(lower, b)
    ensures AllAbove(lower, Merged(a, b))
    decreases |a| + |b|
  {
    if a != [] && b != [] {
      if a[0].0 == b[0].0 {
        MergedAbove(lower, a[1..], b[1..]);
      } else if Less(a[0].0, b[0].0) {
        MergedAbove(lower, a[1..], b);
      } else {
        MergedAbove(lower, a, b[1..]);
      }
    }
  }

  /** From sorted inputs comes the sorted union of the names. */
  lemma {:induction false} MergedSorted(a: seq<Pair>, b: seq<Pair>)
    requires Sorted(a) && Sorted(b)
    ensures Sorted(Merged(a, b))
    decreases |a| + |b|
  {
    if a != [] && b != [] {
      hide Less;
      SortedTail(a);
      SortedTail(b);
      var x, y := a[0], b[0];
      assert a == [x] + a[1..] && b == [y] + b[1..];
      LessTrichotomy(x.0, y.0);
      if x.0 == y.0 {
        MergedSorted(a[1..], b[1..]);
        MergedAbove(y.0, a[1..], b[1..]);
        SortedCons(y, Merged(a[1..], b[1..]));
      } else if Less(x.0, y.0) {
        MergedSorted(a[1..], b);
        AboveChain(x.0, y, b[1..]);
        MergedAbove(x.0, a[1..], b);
        SortedCons(x, Merged(a[1..], b));
      } else {
        MergedSorted(a, b[1..]);
        AboveChain(y.0, x, a[1..]);
        MergedAbove(y.0, a, b[1..]);
        SortedCons(y, Merged(a, b[1..]));
      }
    }
  }

  function Either(first: Option<Str>, second: Option<Str>): Option<Str> {
    if first.Some? then first else second
  }

  /** Every name is found as in the second input, or else as in the first. */
  lemma {:induction false} MergedFind(a: seq<Pair>, b: seq<Pair>, name: Str)
    requires Sorted(a) && Sorted(b)
    ensures Find(Merged(a, b), name) == Either(Find(b, name), Find(a, name))
    decreases |a| + |b|
  {
    if a != [] && b != [] {
      SortedTail(a);
      SortedTail(b);
      var x, y := a[0], b[0];
      assert a == [x] + a[1..] && b == [y] + b[1..];
      LessTrichotomy(x.0, y.0);
      hide Less, Sorted, AllAbove;
      if x.0 == y.0 {
        MergedFind(a[1..], b[1..], name);
      } else if Less(x.0, y.0) {
        MergedFind(a[1..], b, name);
        AboveNotFound(x.0, b) by { AboveChain(x.0, y, b[1..]); }
      } else {
        MergedFind(a, b[1..], name);
      }
    }
  }

  /** The announced number is the real one. */
  lemma {:induction false} MergedCount(a: seq<Pair>, b: seq<Pair>)
    requires Sorted(a) && Sorted(b)
    ensures CountIn(a, b) <= |a| + |b|
    ensures |Merged(a, b)| == |b| + |a| - CountIn(a, b)
    decreases |a| + |b|
  {
    if a == [] {
    } else if b == [] {
      CountInNone(a);
    } else {
      SortedTail(a);
      SortedTail(b);
      var x, y := a[0], b[0];
      assert a == [x] + a[1..] && b == [y] + b[1..];
      LessTrichotomy(x.0, y.0);
      hide Less, Sorted, AllAbove;
      if x.0 == y.0 {
        MergedCount(a[1..], b[1..]);
        CountInDrop(a[1..], y, b[1..]);
      } else if Less(x.0, y.0) {
        MergedCount(a[1..], b);
        AboveNotFound(x.0, b) by { AboveChain(x.0, y, b[1..]); }
      } else {
        MergedCount(a, b[1..]);
        AboveChain(y.0, x, a[1..]);
        CountInDrop(a, y, b[1..]);
      }
    }
  }

  lemma {:induction false} CountInNone(a: seq<Pair>)
    ensures CountIn(a, []) == 0
  {
    if a != [] {
      CountInNone(a[1..]);
    }
  }

  lemma {:induction false} CountInDrop(a: seq<Pair>, y: Pair, b: seq<Pair>)
    requires AllAbove(y.0, a)
    ensures CountIn(a, [y] + b) == CountIn(a, b)
  {
    if a != [] {
      CountInDrop(a[1..], y, b);
      LessTrichotomy(y.0, a[0].0);
      assert ([y] + b)[1..] == b;
    }
  }

  // ---------------------------------------------------------------- keys as bytes

  predicate Short(s: seq<Pair>) {
    && |s| < TWO_64
    && forall i | 0 <= i < |s| :: |s[i].0| < TWO_64 && |s[i].1| < TWO_64
  }

  function Flat(s: seq<Pair>): seq<Byte>
    requires Short(s)
  {
    if s == [] then [] else Text(s[0].0) + (Text(s[0].1) + Flat(s[1..]))
  }

  /** The key for a list of pairs: nothing at all when there are none. */
  function KeyOf(s: seq<Pair>): Key
    requires Short(s)
  {
    if s == [] then Key(None) else Key(Some(Head(MAP, |s|) + Flat(s)))
  }

  /** Up to twenty-three bytes: text strings whose length fits the first byte. */
  predicate Brief(p: Pair) {
    |p.0| < 24 && |p.1| < 24
  }

  /** A key of three brief pairs, byte by byte. */
  lemma KeyExample(p: Pair, q: Pair, r: Pair)
    requires Brief(p) && Brief(q) && Brief(r)
    ensures KeyOf([p, q, r]) == Key(Some(
      [0xA3] + (([0x60 + |p.0|] + p.0) + ([0x60 + |p.1|] + p.1) + ([0x60 + |q.0|] + q.0) + ([0x60 + |q.1|] + q.1)
                + ([0x60 + |r.0|] + r.0) + ([0x60 + |r.1|] + r.1))))
  {
    assert Flat([]) == [];
    FlatAppend([], p);
    FlatAppend([p], q);
    FlatAppend([p, q], r);
    assert [] + [p] == [p] && [p] + [q] == [p, q] && [p, q] + [r] == [p, q, r];
    assert Flat([]) + Text(p.0) == Text(p.0);
    hide Flat;
  }

  lemma {:induction false} FlatAppend(s: seq<Pair>, p: Pair)
    requires Short(s) && |s| + 1 < TWO_64 && |p.0| < TWO_64 && |p.1| < TWO_64
    ensures Short(s + [p])
    ensures Flat(s + [p]) == Flat(s) + Text(p.0) + Text(p.1)
  {
    hide Text;
    if s == [] {
      assert ([p])[1..] == [] && s + [p] == [p];
    } else {
      FlatAppend(s[1..], p);
      assert (s + [p])[1..] == s[1..] + [p];
      Regroup(Text(s[0].0), Text(s[0].1), Flat(s[1..]), Text(p.0), Text(p.1));
    }
  }

  lemma Regroup(a: seq<Byte>, b: seq<Byte>, c: seq<Byte>, d: seq<Byte>, e: seq<Byte>)
    ensures a + (b + (c + d + e)) == a + (b + c) + d + e
  {}

  /** `from_iter`: the announced number goes first, then whatever the iterator yields. */
  method FromIter(m: Merge) returns (key: Key)
    requires Short(Merged(m.a, m.b)) && m.num < TWO_64
    modifies m
    ensures key == if m.num == 0 then Key(None) else Key(Some(Head(MAP, m.num) + old(Flat(Merged(m.a, m.b)))))
  {
    if m.num == 0 {
      return Key(None);
    }
    var bytes := Head(MAP, m.num);
    ghost var all, done: seq<Pair> := Merged(m.a, m.b), [];
    while true
      invariant all == done + Merged(m.a, m.b)
      invariant Short(done) && bytes == Head(MAP, m.num) + Flat(done)
      decreases |m.a| + |m.b|
    {
      var p := m.Next();
      if p == None {
        break;
      }
      FlatStep(all, done, p.value, Merged(m.a, m.b));
      bytes := bytes + Text(p.value.0) + Text(p.value.1);
      done := done + [p.value];
    }
    assert all == done;
    key := Key(Some(bytes));
  }

  lemma FlatStep(all: seq<Pair>, done: seq<Pair>, p: Pair, rest: seq<Pair>)
    requires Short(all) && Short(done) && all == done + ([p] + rest)
    ensures Short(done + [p]) && all == done + [p] + rest
    ensures |p.0| < TWO_64 && |p.1| < TWO_64
    ensures Flat(done + [p]) == Flat(done) + Text(p.0) + Text(p.1)
  {
    assert all == done + [p] + rest;
    assert all[|done|] == p;
    FlatAppend(done, p);
  }

  // ---------------------------------------------------------------- lookup

  /** `get_with`: read names in order, skip the values of the others. */
  method GetWith(key: Key, name: Str, ghost s: seq<Pair>) returns (r: Option<Str>)
    requires Short(s) && key == KeyOf(s)
    ensures r == Find(s, name)
  {
    hide ReadString, ReadHead, Head, Text, Less;
    if key.bytes == None {
      return None;
    }
    HeadReads(MAP, |s|, Flat(s));
    var (_, num, rest) := ReadHead(key.bytes.value).value;
    for i := 0 to num
      invariant num == |s| && rest == Flat(s[i..])
      invariant Find(s, name) == Find(s[i..], name)
    {
      ghost var p, tail := s[i], s[i + 1..];
      assert s[i..][0] == p && s[i..][1..] == tail;
      TextReads(p.0, Text(p.1) + Flat(tail));
      TextReads(p.1, Flat(tail));
      var (found, afterName) := ReadString(TEXT, rest).value;
      var (value, afterValue) := ReadString(TEXT, afterName).value;
      if found == name {
        return Some(value);
      }
      rest := afterValue;
    }
    r := None;
  }

  // ---------------------------------------------------------------- keys from JSON

  datatype Json = Object(entries: seq<(Str, Json)>) | String(s: Str) | Other

  /** The pairs the second iterator yields: anything but a string becomes an empty one. */
  function PairsOf(entries: seq<(Str, Json)>): (r: seq<Pair>)
    ensures |r| == |entries|
  {
    seq(|entries|, i requires 0 <= i < |entries| =>
      (entries[i].0, if entries[i].1.String? then entries[i].1.s else []))
  }

  predicate AllStrings(entries: seq<(Str, Json)>) {
    forall i | 0 <= i < |entries| :: entries[i].1.String?
  }

  /**
   The object is a B-tree map, so its entries are sorted; the extra pairs must be.  The errors
   are counted as the entries are consumed, which is all of them.
   */
  method FromJson(json: Json, pairs: seq<Pair>) returns (r: Option<Key>)
    requires Sorted(pairs) && Short(pairs)
    requires json.Object? ==> Sorted(PairsOf(json.entries)) && Short(PairsOf(json.entries))
    requires json.Object? ==> |json.entries| + |pairs| < TWO_64
    ensures r.Some? <==> json.Object? && AllStrings(json.entries)
    ensures r.Some? ==> Short(Merged(pairs, PairsOf(json.entries)))
    ensures r.Some? ==> r.value == KeyOf(Merged(pairs, PairsOf(json.entries)))
  {
    if !json.Object? {
      return None;
    }
    var entries := json.entries;
    var errors := 0;
    var b: seq<Pair> := [];
    for i := 0 to |entries|
      invariant b == PairsOf(entries[..i])
      invariant errors > 0 <==> !AllStrings(entries[..i])
    {
      assert entries[..i + 1] == entries[..i] + [entries[i]];
      if entries[i].1.String? {
        b := b + [(entries[i].0, entries[i].1.s)];
      } else {
        errors := errors + 1;
        b := b + [(entries[i].0, [])];
        assert !entries[..i + 1][i].1.String?;
      }
    }
    assert entries[..|entries|] == entries;
    MergedCount(pairs, b);
    MergedShort(pairs, b);
    var common := Contained(pairs, b);
    var m := new Merge(|b| + |pairs| - common, pairs, b);
    var key := FromIter(m);
    if errors > 0 {
      return None;
    }
    r := Some(key);
  }

  /** How many of the pairs the object also names. */
  method Contained(pairs: seq<Pair>, b: seq<Pair>) returns (n: nat)
    ensures n == CountIn(pairs, b)
  {
    n := 0;
    for i := 0 to |pairs|
      invariant n + CountIn(pairs[i..], b) == CountIn(pairs, b)
    {
      assert pairs[i..][0] == pairs[i] && pairs[i..][1..] == pairs[i + 1..];
      if Find(b, pairs[i].0).Some? {
        n := n + 1;
      }
    }
  }

  lemma {:induction false} MergedShort(a: seq<Pair>, b: seq<Pair>)
    requires Short(a) && Short(b) && |a| + |b| < TWO_64
    ensures Short(Merged(a, b)) && |Merged(a, b)| <= |a| + |b|
    decreases |a| + |b|
  {
    hide Less;
    if a != [] && b != [] {
      if a[0].0 == b[0].0 {
        MergedShort(a[1..], b[1..]);
      } else if Less(a[0].0, b[0].0) {
        MergedShort(a[1..], b);
      } else {
        MergedShort(a, b[1..]);
      }
    }
  }

  /** A key built from JSON and extra pairs answers every name: the object's value, else the extra one. */
  method BuiltKeyLooksUp(json: Json, pairs: seq<Pair>, name: Str) returns (r: Option<Str>)
    requires Sorted(pairs) && Short(pairs)
    requires json.Object? && AllStrings(json.entries)
    requires Sorted(PairsOf(json.entries)) && Short(PairsOf(json.entries))
    requires |json.entries| + |pairs| < TWO_64
    ensures r == Either(Find(PairsOf(json.entries), name), Find(pairs, name))
  {
    var key := FromJson(json, pairs);
    MergedFind(pairs, PairsOf(json.entries), name);
    r := GetWith(key.value, name, Merged(pairs, PairsOf(json.entries)));
  }
}
