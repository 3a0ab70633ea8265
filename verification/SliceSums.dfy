/**
 The sum of the slices a query takes from the store (cantal_query/src/query.rs,
 cantal_query/src/functions/sum.rs): which stores make it index past the end of a slice.
 */
module SliceSums {
  import opened Wrappers
  import opened DeltaCodec
  import opened Histories
  import opened BacklogModel
  import BacklogRuns
  import opened Queries
  import opened SampleRuns
  import opened Keys
  import Sums

  /** How a float is read as a real, and how a key lists its pairs: any functions will do. */
  datatype How = How(toReal: int -> real, pairs: Key -> seq<Pair>)

  function Cells(how: How, kind: NumberKind, samples: Samples): (r: seq<Sums.Cell>)
    ensures |r| == |samples|
  {
    seq(|samples|, i requires 0 <= i < |samples| =>
      if samples[i].None? then Sums.Gap
      else if kind == FloatKind then Sums.Real(how.toReal(samples[i].value))
      else Sums.Whole(samples[i].value))
  }

  /** The series a query by number makes of one key. */
  function SliceRow(how: How, s: Snapshot, k: Key, num: nat): Sums.Row
    requires k in s.values
  {
    var v := s.values[k];
    var kind := BacklogRuns.KindOf(v);
    Sums.Row(how.pairs(k), Sums.Numbers(kind, Cells(how, kind, Take(History(v, s.age), num))),
             Times(Take(s.timestamps, num)))
  }

  function SliceRows(how: How, s: Snapshot, keys: seq<Key>, num: nat): (r: seq<Sums.Row>)
    requires forall k | k in keys :: k in s.values
    ensures |r| == |keys|
  {
    seq(|keys|, i requires 0 <= i < |keys| => SliceRow(how, s, keys[i], num))
  }

  predicate OneKind(s: Snapshot, keys: seq<Key>)
    requires forall k | k in keys :: k in s.values
  {
    forall a, b | a in keys && b in keys :: BacklogRuns.KindOf(s.values[a]) == BacklogRuns.KindOf(s.values[b])
  }

  /** The key's history is shorter than the slice and than the timestamps there are. */
  predicate TooYoung(s: Snapshot, k: Key, num: nat)
    requires k in s.values
  {
    |History(s.values[k], s.age)| < num && |History(s.values[k], s.age)| < |s.timestamps|
  }

  /**
   On any store a run can reach: summing the slices of several keys panics exactly when all are of one
   kind and one of them is too young.
   */
  lemma SlicesPanicIff(how: How, s: Snapshot, keys: seq<Key>, num: nat)
    requires BacklogRuns.Sized(s) && |keys| > 1 && forall k | k in keys :: k in s.values
    ensures Sums.SumPanics(SliceRows(how, s, keys, num)) <==>
      OneKind(s, keys) && exists k :: k in keys && TooYoung(s, k, num)
  {
    var rows := SliceRows(how, s, keys, num);
    SlicesAgree(how, s, keys, num);
    SlicesOfKind(how, s, keys, num);
    SlicesShort(how, s, keys, num);
    hide SliceRows, OneKind, TooYoung, BacklogRuns.Sized, Sums.AllOfKind;
  }

  lemma SlicesAgree(how: How, s: Snapshot, keys: seq<Key>, num: nat)
    requires |keys| > 1 && forall k | k in keys :: k in s.values
    ensures Sums.SameTimes(SliceRows(how, s, keys, num))
  {
    hide History, Take;
  }

  lemma SlicesOfKind(how: How, s: Snapshot, keys: seq<Key>, num: nat)
    requires |keys| > 1 && forall k | k in keys :: k in s.values
    ensures (exists kind :: Sums.AllOfKind(SliceRows(how, s, keys, num), kind)) <==> OneKind(s, keys)
  {
    hide History, Take, Cells, BacklogRuns.KindOf;
    var rows := SliceRows(how, s, keys, num);
    assert forall i | 0 <= i < |keys| :: rows[i] == SliceRow(how, s, keys[i], num);
    if OneKind(s, keys) {
      var kind := BacklogRuns.KindOf(s.values[keys[0]]);
      assert Sums.AllOfKind(rows, kind);
    }
    if kind :| Sums.AllOfKind(rows, kind) {
      forall k | k in keys ensures BacklogRuns.KindOf(s.values[k]) == kind {
        var i :| 0 <= i < |keys| && keys[i] == k;
        assert rows[i] in rows;
      }
    }
  }

  lemma SlicesShort(how: How, s: Snapshot, keys: seq<Key>, num: nat)
    requires BacklogRuns.Sized(s) && |keys| > 1 && forall k | k in keys :: k in s.values
    ensures var rows := SliceRows(how, s, keys, num);
      (exists r | r in rows :: |Sums.CellsOf(r.chunk)| < |rows[0].ts|)
        <==> exists k :: k in keys && TooYoung(s, k, num)
  {
    var rows := SliceRows(how, s, keys, num);
    forall i | 0 <= i < |keys|
      ensures |Sums.CellsOf(rows[i].chunk)| < |rows[0].ts| <==> TooYoung(s, keys[i], num)
    {
      SliceIsFull(s, keys[i], num);
      SliceFits(s, keys[i], num);
      hide BacklogRuns.Sized, History;
    }
    hide *;
    assert |rows| == |keys| by { RowsLength(how, s, keys, num); }
    if r :| r in rows && |Sums.CellsOf(r.chunk)| < |rows[0].ts| {
      var i :| 0 <= i < |rows| && rows[i] == r;
      assert keys[i] in keys;
    }
    if k :| k in keys && TooYoung(s, k, num) {
      var i :| 0 <= i < |keys| && keys[i] == k;
      assert rows[i] in rows;
    }
  }

  lemma RowsLength(how: How, s: Snapshot, keys: seq<Key>, num: nat)
    requires forall k | k in keys :: k in s.values
    ensures |SliceRows(how, s, keys, num)| == |keys|
  {}

  method SliceOf(how: How, s: Snapshot, k: Key, num: nat) returns (row: Sums.Row)
    requires BacklogRuns.Sized(s) && k in s.values
    ensures row == SliceRow(how, s, k, num)
  {
    var v := s.values[k];
    var kind := BacklogRuns.KindOf(v);
    var slice := ExtractMulti(s, v, HistoryByNum(num));
    hide History, Take;
    row := Sums.Row(how.pairs(k), Sums.Numbers(kind, Cells(how, kind, slice.value.0)), slice.value.1);
  }

  method SlicesOf(how: How, s: Snapshot, keys: seq<Key>, num: nat) returns (rows: seq<Sums.Row>)
    requires BacklogRuns.Sized(s) && forall k | k in keys :: k in s.values
    ensures rows == SliceRows(how, s, keys, num)
  {
    hide BacklogRuns.Sized, SliceRow;
    rows := [];
    for i := 0 to |keys|
      invariant |rows| == i && forall j | 0 <= j < i :: rows[j] == SliceRow(how, s, keys[j], num)
    {
      var row := SliceOf(how, s, keys[i], num);
      rows := rows + [row];
    }
  }

  /** The samples a store shows are numbers of their kind. */
  lemma SlicesTyped(how: How, s: Snapshot, keys: seq<Key>, num: nat)
    requires BacklogRuns.Sized(s) && forall k | k in keys :: k in s.values
    ensures Sums.TypedRows(SliceRows(how, s, keys, num))
  {
    var rows := SliceRows(how, s, keys, num);
    forall i | 0 <= i < |keys| ensures Sums.AllTyped(rows[i].chunk.kind, rows[i].chunk.cells) {
      SliceTyped(how, s, keys[i], num);
    }
    hide SliceRow, BacklogRuns.Sized, Sums.AllTyped;
  }

  lemma SliceTyped(how: How, s: Snapshot, k: Key, num: nat)
    requires BacklogRuns.Sized(s) && k in s.values
    ensures var chunk := SliceRow(how, s, k, num).chunk; Sums.AllTyped(chunk.kind, chunk.cells)
  {
    var v := s.values[k];
    var kind, l := BacklogRuns.KindOf(v), Take(History(v, s.age), num);
    if v.IntSeries? {
      KeyIsSized(s, k);
    }
    hide BacklogRuns.Sized, History, InRange, BacklogRuns.Fitting;
    forall i | 0 <= i < |l| ensures Sums.Typed(kind, Cells(how, kind, l)[i]) {
      if v.IntSeries? && l[i].Some? {
        HistoryInRange(v, s.age, i);
      }
    }
  }

  predicate ShowsAt(s: Snapshot, k: Key, j: nat)
    requires k in s.values
  {
    j < |History(s.values[k], s.age)| && History(s.values[k], s.age)[j].Some?
  }

  /** The plain sum of what the keys show at index `j`. */
  function SampleTotal(s: Snapshot, keys: seq<Key>, j: nat): int
    requires forall k | k in keys :: k in s.values
  {
    if keys == [] then 0
    else
      var k := keys[|keys| - 1];
      SampleTotal(s, keys[..|keys| - 1], j) + if ShowsAt(s, k, j) then History(s.values[k], s.age)[j].value else 0
  }

  /** A summed integer sample: missing when no key shows one, else the sum of those shown, in its type. */
  predicate SampleAddsUp(s: Snapshot, keys: seq<Key>, j: nat, c: Sums.Cell)
    requires keys != [] && forall k | k in keys :: k in s.values
  {
    if forall k | k in keys :: !ShowsAt(s, k, j) then c == Sums.Gap
    else
      && c.Whole?
      && Sums.StandsFor(if BacklogRuns.KindOf(s.values[keys[0]]) == CounterKind then U64 else I64, c.n,
                        SampleTotal(s, keys, j))
  }

  predicate AddsUp(s: Snapshot, keys: seq<Key>, num: nat, row: Sums.Row)
    requires keys != [] && forall k | k in keys :: k in s.values
  {
    && row.key == [] && row.ts == Times(Take(s.timestamps, num))
    && row.chunk.Numbers? && |row.chunk.cells| == |row.ts|
    && forall j | 0 <= j < |row.ts| :: SampleAddsUp(s, keys, j, row.chunk.cells[j])
  }

  /** The sum of counter or integer slices is the sum of what the keys show, age by age. */
  lemma SlicesAddUp(how: How, s: Snapshot, keys: seq<Key>, num: nat)
    requires BacklogRuns.Sized(s) && |keys| > 1 && (forall k | k in keys :: k in s.values) && OneKind(s, keys)
    requires BacklogRuns.KindOf(s.values[keys[0]]) != FloatKind
    ensures var sum := Sums.SumRows(SliceRows(how, s, keys, num)); sum.Ok? && AddsUp(s, keys, num, sum.value)
  {
    var rows := SliceRows(how, s, keys, num);
    SlicesTotal(how, s, keys, num);
    var sum := Sums.SumRows(rows);
    hide Sums.SumRows, Sums.Totals, SliceRows, BacklogRuns.Sized, OneKind, SampleAddsUp, BacklogRuns.KindOf;
    forall j | 0 <= j < |sum.value.ts| ensures SampleAddsUp(s, keys, j, sum.value.chunk.cells[j]) {
      SliceTotalIs(how, s, keys, num, j);
      SlicesPresent(how, s, keys, num, j);
      TotalAddsUp(how, s, keys, num, j, sum.value.chunk.cells[j]);
    }
  }

  lemma TotalAddsUp(how: How, s: Snapshot, keys: seq<Key>, num: nat, j: nat, c: Sums.Cell)
    requires keys != [] && (forall k | k in keys :: k in s.values) && OneKind(s, keys)
    requires BacklogRuns.KindOf(s.values[keys[0]]) != FloatKind
    requires var lists := Sums.ListsOf(SliceRows(how, s, keys, num));
      && Sums.Totals(BacklogRuns.KindOf(s.values[keys[0]]), lists, j, c)
      && Sums.WholeTotal(lists, j) == SampleTotal(s, keys, j)
      && ((forall l | l in lists :: !Sums.Present(l, j)) <==> forall k | k in keys :: !ShowsAt(s, k, j))
    ensures SampleAddsUp(s, keys, j, c)
  {
    hide SliceRows, Sums.ListsOf, Sums.WholeTotal, SampleTotal, ShowsAt, Sums.Present, Sums.StandsFor;
  }

  lemma {:induction false} SliceTotalIs(how: How, s: Snapshot, keys: seq<Key>, num: nat, j: nat)
    requires (forall k | k in keys :: k in s.values) && OneKind(s, keys) && j < num
    requires keys != [] ==> BacklogRuns.KindOf(s.values[keys[0]]) != FloatKind
    ensures Sums.WholeTotal(Sums.ListsOf(SliceRows(how, s, keys, num)), j) == SampleTotal(s, keys, j)
  {
    if keys != [] {
      hide SliceRow, SliceRows, Sums.ListsOf, Sums.CellsOf, History, BacklogRuns.KindOf, ShowsAt;
      SliceTotalIs(how, s, keys[..|keys| - 1], num, j);
      SlicesLast(how, s, keys, num);
      SliceShows(how, s, keys[|keys| - 1], num, j);
    }
  }

  lemma SlicesLast(how: How, s: Snapshot, keys: seq<Key>, num: nat)
    requires keys != [] && forall k | k in keys :: k in s.values
    ensures var n := |keys| - 1; var lists := Sums.ListsOf(SliceRows(how, s, keys, num));
      && |lists| == |keys| && lists[n] == Sums.CellsOf(SliceRow(how, s, keys[n], num).chunk)
      && lists[..n] == Sums.ListsOf(SliceRows(how, s, keys[..n], num))
  {
    hide SliceRow;
  }

  lemma SliceShows(how: How, s: Snapshot, k: Key, num: nat, j: nat)
    requires k in s.values && j < num
    ensures var cells := Sums.CellsOf(SliceRow(how, s, k, num).chunk);
      && (Sums.Present(cells, j) <==> ShowsAt(s, k, j))
      && (ShowsAt(s, k, j) && BacklogRuns.KindOf(s.values[k]) != FloatKind ==>
            cells[j] == Sums.Whole(History(s.values[k], s.age)[j].value))
  {
    hide History;
  }

  lemma SlicesPresent(how: How, s: Snapshot, keys: seq<Key>, num: nat, j: nat)
    requires (forall k | k in keys :: k in s.values) && j < num
    ensures (forall l | l in Sums.ListsOf(SliceRows(how, s, keys, num)) :: !Sums.Present(l, j))
       <==> forall k | k in keys :: !ShowsAt(s, k, j)
  {
    var lists := Sums.ListsOf(SliceRows(how, s, keys, num));
    forall i | 0 <= i < |keys| ensures Sums.Present(lists[i], j) <==> ShowsAt(s, keys[i], j) {
      SliceShows(how, s, keys[i], num, j);
      hide SliceRow;
    }
    hide SliceRows, ShowsAt, Sums.Present;
    assert |lists| == |keys|;
  }

  /** A sum of slices adds up the slices. */
  lemma SlicesTotal(how: How, s: Snapshot, keys: seq<Key>, num: nat)
    requires BacklogRuns.Sized(s) && |keys| > 1 && (forall k | k in keys :: k in s.values) && OneKind(s, keys)
    ensures var rows := SliceRows(how, s, keys, num);
      && Sums.SumRows(rows).Ok?
      && Sums.TotalsRow([], BacklogRuns.KindOf(s.values[keys[0]]), Times(Take(s.timestamps, num)),
                        Sums.ListsOf(rows), Sums.SumRows(rows).value)
  {
    var rows := SliceRows(how, s, keys, num);
    SlicesTyped(how, s, keys, num);
    SlicesAgree(how, s, keys, num);
    FirstSlice(how, s, keys, num);
    hide *;
    Sums.SumTotals(rows, BacklogRuns.KindOf(s.values[keys[0]]));
  }

  lemma FirstSlice(how: How, s: Snapshot, keys: seq<Key>, num: nat)
    requires keys != [] && (forall k | k in keys :: k in s.values) && OneKind(s, keys)
    ensures var rows := SliceRows(how, s, keys, num);
      rows != [] && rows[0].ts == Times(Take(s.timestamps, num))
      && Sums.AllOfKind(rows, BacklogRuns.KindOf(s.values[keys[0]]))
  {
    hide History, Take, Cells, BacklogRuns.KindOf;
  }

  /** The query itself: a slice of every key, then the sum. */
  method SumSlices(how: How, s: Snapshot, keys: seq<Key>, num: nat) returns (r: Outcome<Sums.Dataset>)
    requires BacklogRuns.Sized(s) && forall k | k in keys :: k in s.values
    ensures r.Panicked? <==> |keys| > 1 && OneKind(s, keys) && exists k :: k in keys && TooYoung(s, k, num)
    ensures |keys| > 1 && r.Done? ==> r == Sums.Answer(Done(Sums.SumRows(SliceRows(how, s, keys, num))))
    ensures |keys| > 1 && r.Done? && OneKind(s, keys) && BacklogRuns.KindOf(s.values[keys[0]]) != FloatKind ==>
      r.value.SingleSeries? && AddsUp(s, keys, num, r.value.row)
  {
    var rows := SlicesOf(how, s, keys, num);
    r := Sums.Sum(Sums.MultiSeries(rows));
    RowsLength(how, s, keys, num);
    if |keys| > 1 {
      SlicesPanicIff(how, s, keys, num);
      AnswerIsDone(Sums.SumRows(rows));
      if OneKind(s, keys) && BacklogRuns.KindOf(s.values[keys[0]]) != FloatKind {
        SlicesAddUp(how, s, keys, num);
      }
    }
    hide *;
  }

  lemma AnswerIsDone(sum: Sums.Result<Sums.Row>)
    ensures Sums.Answer(Done(sum)).Done?
    ensures sum.Ok? ==> Sums.Answer(Done(sum)) == Done(Sums.SingleSeries(sum.value))
  {}

  /** Two scans, the second of which names a key not seen before. */
  function YoungRun(a: Key, b: Key): seq<BacklogRuns.Op> {
    [Seeing(1000, a, Counter(10))] + [Seeing(2000, b, Counter(20))]
  }

  lemma YoungRunReaches(a: Key, b: Key)
    requires a != b
    ensures BacklogRuns.LegalRun(YoungRun(a, b)) && BacklogRuns.FitRun(YoungRun(a, b))
    ensures BacklogRuns.Exec(YoungRun(a, b))
         == Snapshot(2, [(2000, 0), (1000, 0)], map[a := IntSeries(U64, 10, 1, []), b := IntSeries(U64, 20, 2, [])])
  {
    SeesFirst(a, Counter(10));
    SeesOne([Seeing(1000, a, Counter(10))], 2000, b, Counter(20));
    hide BacklogRuns.LegalRun, BacklogRuns.FitRun, BacklogRuns.Exec;
  }

  /** A run that loses nothing and leaves slices whose sum panics. */
  lemma YoungKeyPanics(how: How, a: Key, b: Key)
    requires a != b
    ensures BacklogRuns.LegalRun(YoungRun(a, b)) && BacklogRuns.FitRun(YoungRun(a, b))
    ensures var s := BacklogRuns.Exec(YoungRun(a, b));
      a in s.values && b in s.values && Sums.SumPanics(SliceRows(how, s, [a, b], 2))
  {
    YoungRunReaches(a, b);
    BacklogRuns.RunStaysSized(YoungRun(a, b));
    hide BacklogRuns.LegalRun, BacklogRuns.FitRun, BacklogRuns.Exec, BacklogRuns.Sized, Sums.SumPanics, SliceRows;
    var s := BacklogRuns.Exec(YoungRun(a, b));
    SlicesPanicIff(how, s, [a, b], 2);
    assert TooYoung(s, b, 2);
  }
}
