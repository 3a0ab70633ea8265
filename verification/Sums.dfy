/**
 Summing series, in groups and in total (cantal_query/src/functions/sum.rs,
 cantal_history/src/merge.rs).
 */
module Sums {
  import opened Wrappers
  import opened DeltaCodec
  import opened Keys

  /** One optional sample; floats are reals here. */
  datatype Cell = Gap | Whole(n: int) | Real(r: real)

  datatype Chunk = StateChunk(time: int, text: string) | Numbers(kind: NumberKind, cells: seq<Cell>)

  /** A series: the pairs of its key, its samples and their timestamps. */
  datatype Row = Row(key: seq<Pair>, chunk: Chunk, ts: seq<int>)

  datatype Conflict = CantSumTimestamps | CantSumStates | Dissimilar | CantSumChart

  datatype Result<+T> = Ok(value: T) | Err(error: Conflict)

  // ---------------------------------------------------------------- adding samples

  function WholePart(c: Cell): int {
    if c.Whole? then c.n else 0
  }

  function RealPart(c: Cell): real {
    match c
    case Gap => 0.0
    case Whole(n) => n as real
    case Real(r) => r
  }

  /** Machine integers wrap; a missing sample adds nothing. */
  function AddCells(k: NumberKind, a: Cell, b: Cell): Cell {
    if a.Gap? then b
    else if b.Gap? then a
    else match k
      case CounterKind => Whole(Wrap(U64, WholePart(a) + WholePart(b)))
      case IntegerKind => Whole(Wrap(I64, WholePart(a) + WholePart(b)))
      case FloatKind => Real(RealPart(a) + RealPart(b))
  }

  lemma WrapAbsorbs(w: Width, x: int, y: int)
    ensures Wrap(w, Wrap(w, x) + y) == Wrap(w, x + y)
  {
    var m := x / TWO_64;
    var s := if Wrap(w, x) == x % TWO_64 then m else m + 1;
    assert Wrap(w, x) + y == x + y - s * TWO_64;
    ModShift(x + y, s);
  }

  lemma ModShift(a: int, s: int)
    ensures (a - s * TWO_64) % TWO_64 == a % TWO_64
  {
    var q, r := a / TWO_64, a % TWO_64;
    assert a - s * TWO_64 == (q - s) * TWO_64 + r;
  }

  lemma TurnsAdd(x: int, y: int)
    requires x % TWO_64 == 0 && y % TWO_64 == 0
    ensures (x + y) % TWO_64 == 0
  {
    assert x + y == (x / TWO_64 + y / TWO_64) * TWO_64;
  }

  lemma AddCommutes(k: NumberKind, a: Cell, b: Cell)
    ensures AddCells(k, a, b) == AddCells(k, b, a)
  {}

  lemma AddAssociates(k: NumberKind, a: Cell, b: Cell, c: Cell)
    ensures AddCells(k, AddCells(k, a, b), c) == AddCells(k, a, AddCells(k, b, c))
  {
    var x, y, z := WholePart(a), WholePart(b), WholePart(c);
    var w := if k == CounterKind then U64 else I64;
    WrapAbsorbs(w, x + y, z);
    WrapAbsorbs(w, y + z, x);
    hide Wrap;
    assert y + z + x == x + y + z;
    assert RealPart(a) + RealPart(b) + RealPart(c) == RealPart(a) + (RealPart(b) + RealPart(c));
  }

  /** A machine integer that stands for `exact`: in its type, and equal to it up to whole turns. */
  predicate StandsFor(w: Width, n: int, exact: int) {
    InRange(w, n) && (n - exact) % TWO_64 == 0
  }

  /** A cell holds a number of its kind, or nothing. */
  predicate Typed(k: NumberKind, c: Cell) {
    match k
    case CounterKind => c.Gap? || (c.Whole? && InRange(U64, c.n))
    case IntegerKind => c.Gap? || (c.Whole? && InRange(I64, c.n))
    case FloatKind => c.Gap? || c.Real?
  }

  predicate AllTyped(k: NumberKind, l: seq<Cell>) {
    forall i | 0 <= i < |l| :: Typed(k, l[i])
  }

  /** `c` is what adding `b` to `a` must leave: the other one beside a missing sample, else their sum. */
  predicate Adds(k: NumberKind, a: Cell, b: Cell, c: Cell)
    requires Typed(k, a) && Typed(k, b)
  {
    if a.Gap? || b.Gap? then c == if a.Gap? then b else a
    else match k
      case CounterKind => c.Whole? && StandsFor(U64, c.n, a.n + b.n)
      case IntegerKind => c.Whole? && StandsFor(I64, c.n, a.n + b.n)
      case FloatKind => c == Real(a.r + b.r)
  }

  lemma WrapStandsFor(w: Width, x: int)
    ensures StandsFor(w, Wrap(w, x), x)
  {
    assert x == x / TWO_64 * TWO_64 + x % TWO_64;
    if Wrap(w, x) == x % TWO_64 {
      ModShift(0, x / TWO_64);
    } else {
      ModShift(0, x / TWO_64 + 1);
    }
  }

  lemma AddCellsAdds(k: NumberKind, a: Cell, b: Cell)
    requires Typed(k, a) && Typed(k, b)
    ensures Typed(k, AddCells(k, a, b)) && Adds(k, a, b, AddCells(k, a, b))
  {
    WrapStandsFor(U64, WholePart(a) + WholePart(b));
    WrapStandsFor(I64, WholePart(a) + WholePart(b));
    hide Wrap;
  }

  // ---------------------------------------------------------------- one column

  /** The sum of sample `i` over the lists that reach that far. */
  function Column(k: NumberKind, lists: seq<seq<Cell>>, i: nat): Cell {
    if lists == [] then Gap
    else
      var last := lists[|lists| - 1];
      AddCells(k, Column(k, lists[..|lists| - 1], i), if i < |last| then last[i] else Gap)
  }

  function Columns(k: NumberKind, lists: seq<seq<Cell>>, n: nat): (r: seq<Cell>)
    ensures |r| == n
  {
    seq(n, i requires 0 <= i < n => Column(k, lists, i))
  }

  lemma ColumnLast(k: NumberKind, lists: seq<seq<Cell>>, l: seq<Cell>, i: nat)
    ensures Column(k, lists + [l], i) == AddCells(k, Column(k, lists, i), if i < |l| then l[i] else Gap)
  {
    assert (lists + [l])[..|lists|] == lists;
  }

  lemma {:induction false} ColumnConcat(k: NumberKind, a: seq<seq<Cell>>, b: seq<seq<Cell>>, i: nat)
    ensures Column(k, a + b, i) == AddCells(k, Column(k, a, i), Column(k, b, i))
    decreases |b|
  {
    if b == [] {
      assert a + b == a;
    } else {
      var n := |b| - 1;
      var l := b[n];
      ColumnConcat(k, a, b[..n], i);
      assert a + b == a + b[..n] + [l] && b == b[..n] + [l];
      ColumnLast(k, a + b[..n], l, i);
      ColumnLast(k, b[..n], l, i);
      AddAssociates(k, Column(k, a, i), Column(k, b[..n], i), if i < |l| then l[i] else Gap);
      hide AddCells, Column;
    }
  }

  /** The list has a sample there. */
  predicate Present(l: seq<Cell>, i: nat) {
    i < |l| && !l[i].Gap?
  }

  /** The plain sum of the integers present at `i`. */
  function WholeTotal(lists: seq<seq<Cell>>, i: nat): int {
    if lists == [] then 0
    else
      var l := lists[|lists| - 1];
      WholeTotal(lists[..|lists| - 1], i) + if Present(l, i) && l[i].Whole? then l[i].n else 0
  }

  /** The plain sum of the reals present at `i`. */
  function RealTotal(lists: seq<seq<Cell>>, i: nat): real {
    if lists == [] then 0.0
    else
      var l := lists[|lists| - 1];
      RealTotal(lists[..|lists| - 1], i) + if Present(l, i) && l[i].Real? then l[i].r else 0.0
  }

  /** `c` is the sum of sample `i` over the lists, missing exactly when all of them miss it. */
  predicate Totals(k: NumberKind, lists: seq<seq<Cell>>, i: nat, c: Cell) {
    if forall l | l in lists :: !Present(l, i) then c == Gap
    else match k
      case CounterKind => c.Whole? && StandsFor(U64, c.n, WholeTotal(lists, i))
      case IntegerKind => c.Whole? && StandsFor(I64, c.n, WholeTotal(lists, i))
      case FloatKind => c == Real(RealTotal(lists, i))
  }

  /** The fold over a column is the plain total of what is present in it. */
  lemma {:induction false} ColumnTotals(k: NumberKind, lists: seq<seq<Cell>>, i: nat)
    requires forall l | l in lists :: AllTyped(k, l)
    ensures Typed(k, Column(k, lists, i)) && Totals(k, lists, i, Column(k, lists, i))
  {
    if lists != [] {
      var n := |lists| - 1;
      ColumnTotals(k, lists[..n], i);
      assert lists[n] in lists && lists == lists[..n] + [lists[n]];
      hide AddCells, Typed, Totals, Adds, StandsFor;
      TotalsMore(k, lists[..n], lists[n], i, Column(k, lists[..n], i));
    }
  }

  lemma TotalsMore(k: NumberKind, lists: seq<seq<Cell>>, l: seq<Cell>, i: nat, c: Cell)
    requires Totals(k, lists, i, c) && Typed(k, c) && AllTyped(k, l)
    ensures var sum := AddCells(k, c, if i < |l| then l[i] else Gap);
      Typed(k, sum) && Totals(k, lists + [l], i, sum)
  {
    var d := if i < |l| then l[i] else Gap;
    AddCellsAdds(k, c, d);
    hide AddCells, AllTyped;
    assert (lists + [l])[..|lists|] == lists;
    assert l in lists + [l] && forall x :: x in lists + [l] <==> x in lists || x == l;
    if c.Gap? {
      NothingTotals(lists, i);
    }
    if c.Whole? && d.Whole? {
      TurnsAdd(AddCells(k, c, d).n - (c.n + d.n), c.n - WholeTotal(lists, i));
    }
  }

  lemma {:induction false} NothingTotals(lists: seq<seq<Cell>>, i: nat)
    requires forall l | l in lists :: !Present(l, i)
    ensures WholeTotal(lists, i) == 0 && RealTotal(lists, i) == 0.0
  {
    if lists != [] {
      assert lists[|lists| - 1] in lists;
      NothingTotals(lists[..|lists| - 1], i);
    }
  }

  /** The order of the lists does not matter. */
  lemma {:induction false} ColumnPermutes(k: NumberKind, a: seq<seq<Cell>>, b: seq<seq<Cell>>, i: nat)
    requires multiset(a) == multiset(b)
    ensures Column(k, a, i) == Column(k, b, i)
    decreases |a|
  {
    if a == [] {
      assert |multiset(b)| == 0;
    } else {
      var n := |a| - 1;
      var l := a[n];
      assert a == a[..n] + [l];
      assert l in multiset(b);
      var j :| 0 <= j < |b| && b[j] == l;
      var before, after := b[..j], b[j + 1..];
      assert b == before + [l] + after;
      assert multiset(a) == multiset(a[..n]) + multiset{l};
      assert multiset(b) == multiset(before + after) + multiset{l};
      Cancel(multiset(a[..n]), multiset(before + after), l);
      ColumnPermutes(k, a[..n], before + after, i);
      ColumnLast(k, a[..n], l, i);
      ColumnConcat(k, before, after, i);
      ColumnConcat(k, before + [l], after, i);
      ColumnLast(k, before, l, i);
      var c := if i < |l| then l[i] else Gap;
      hide AddCells, Column;
      Swap(k, Column(k, before, i), c, Column(k, after, i));
    }
  }

  lemma Swap(k: NumberKind, x: Cell, y: Cell, z: Cell)
    ensures AddCells(k, AddCells(k, x, y), z) == AddCells(k, AddCells(k, x, z), y)
  {
    AddAssociates(k, x, y, z);
    AddCommutes(k, y, z);
    AddAssociates(k, x, z, y);
  }

  /** `vec_sum`: one more list into the running total; one that is too short is indexed past its end. */
  method VecSum(k: NumberKind, target: seq<Cell>, source: seq<Cell>) returns (r: Outcome<seq<Cell>>)
    ensures r.Panicked? <==> |source| < |target|
    ensures r.Done? ==> |r.value| == |target|
    ensures r.Done? ==> forall i | 0 <= i < |target| :: r.value[i] == AddCells(k, target[i], source[i])
    ensures r.Done? ==>
      forall i | 0 <= i < |target| && Typed(k, target[i]) && Typed(k, source[i]) ::
        Adds(k, target[i], source[i], r.value[i])
  {
    var sum := target;
    for i := 0 to |target|
      invariant |sum| == |target| && i <= |source|
      invariant forall j | 0 <= j < i :: sum[j] == AddCells(k, target[j], source[j])
      invariant forall j | i <= j < |target| :: sum[j] == target[j]
    {
      if i >= |source| {
        return Panicked;
      }
      match (sum[i], source[i])
      case (Gap, y) => sum := sum[i := y];
      case (x, Gap) =>
      case (x, y) => sum := sum[i := AddCells(k, x, y)];
    }
    forall j | 0 <= j < |target| && Typed(k, target[j]) && Typed(k, source[j])
      ensures Adds(k, target[j], source[j], sum[j])
    {
      AddCellsAdds(k, target[j], source[j]);
    }
    r := Done(sum);
  }

  // ---------------------------------------------------------------- merging chunks

  datatype ChunkSet =
    | NoChunks
    | States(n: nat)
    | NumberLists(kind: NumberKind, lists: seq<seq<Cell>>)
    | Mixed

  function Join(s: ChunkSet, c: Chunk): ChunkSet {
    match (s, c)
    case (NoChunks, StateChunk(_, _)) => States(1)
    case (NoChunks, Numbers(k, l)) => NumberLists(k, [l])
    case (States(n), StateChunk(_, _)) => States(n + 1)
    case (NumberLists(k, ls), Numbers(k', l)) => if k == k' then NumberLists(k, ls + [l]) else Mixed
    case _ => Mixed
  }

  function Merge(rows: seq<Row>): ChunkSet {
    if rows == [] then NoChunks else Join(Merge(rows[..|rows| - 1]), rows[|rows| - 1].chunk)
  }

  predicate AllOfKind(rows: seq<Row>, k: NumberKind) {
    forall r | r in rows :: r.chunk.Numbers? && r.chunk.kind == k
  }

  predicate AllStates(rows: seq<Row>) {
    forall r | r in rows :: r.chunk.StateChunk?
  }

  function CellsOf(c: Chunk): seq<Cell> {
    if c.Numbers? then c.cells else []
  }

  function ListsOf(rows: seq<Row>): (r: seq<seq<Cell>>)
    ensures |r| == |rows|
  {
    seq(|rows|, i requires 0 <= i < |rows| => CellsOf(rows[i].chunk))
  }

  lemma RowsLast(rows: seq<Row>)
    requires rows != []
    ensures forall r :: r in rows <==> r in rows[..|rows| - 1] || r == rows[|rows| - 1]
  {
    var n := |rows| - 1;
    assert rows == rows[..n] + [rows[n]];
  }

  /** What the fold finds: one kind, only states, or a mixture. */
  lemma {:induction false} MergeFinds(rows: seq<Row>)
    requires rows != []
    ensures Merge(rows).NumberLists? ==>
      AllOfKind(rows, Merge(rows).kind) && Merge(rows).lists == ListsOf(rows)
    ensures forall k :: AllOfKind(rows, k) ==> Merge(rows).NumberLists? && Merge(rows).kind == k
    ensures Merge(rows).States? <==> AllStates(rows)
    ensures !Merge(rows).NoChunks?
    decreases |rows|
  {
    var n := |rows| - 1;
    RowsLast(rows);
    assert rows[n] in rows;
    if n > 0 {
      MergeFinds(rows[..n]);
      assert rows[0] in rows[..n];
      forall k | AllOfKind(rows, k) ensures Merge(rows).NumberLists? && Merge(rows).kind == k {
        assert AllOfKind(rows[..n], k);
      }
      if Merge(rows).NumberLists? {
        assert ListsOf(rows) == ListsOf(rows[..n]) + [rows[n].chunk.cells];
      }
    } else {
      assert Merge(rows[..0]) == NoChunks;
    }
  }

  // ---------------------------------------------------------------- one sum

  predicate SameTimes(rows: seq<Row>) {
    forall i | 0 < i < |rows| :: rows[i].ts == rows[0].ts
  }

  /** The sum of at least two series. */
  function SumRows(rows: seq<Row>): Result<Row>
    requires |rows| > 1
  {
    if !SameTimes(rows) then Err(CantSumTimestamps)
    else match Merge(rows)
      case NumberLists(k, lists) => Ok(Row([], Numbers(k, Columns(k, lists, |rows[0].ts|)), rows[0].ts))
      case States(_) => Err(CantSumStates)
      case _ => Err(Dissimilar)
  }

  /** Numeric chunks reach as far as their timestamps. */
  predicate FullLength(rows: seq<Row>) {
    forall r | r in rows :: r.chunk.Numbers? ==> |r.chunk.cells| >= |r.ts|
  }

  /** Summing indexes past the end of a chunk: same timestamps, one numeric kind, a chunk too short. */
  predicate SumPanics(rows: seq<Row>)
    requires |rows| > 1
  {
    && SameTimes(rows) && (exists k :: AllOfKind(rows, k))
    && exists r | r in rows :: |CellsOf(r.chunk)| < |rows[0].ts|
  }

  lemma FullLengthIsSafe(rows: seq<Row>)
    requires |rows| > 1 && FullLength(rows)
    ensures !SumPanics(rows)
  {
    if SameTimes(rows) {
      TimesBySet(rows);
    }
  }

  lemma ColumnsLast(k: NumberKind, lists: seq<seq<Cell>>, i: nat, n: nat)
    requires i < |lists| && |lists[i]| >= n
    ensures forall j | 0 <= j < n ::
      Columns(k, lists[..i + 1], n)[j] == AddCells(k, Columns(k, lists[..i], n)[j], lists[i][j])
  {
    assert lists[..i + 1][..i] == lists[..i];
  }

  /** The cells of numeric series hold numbers of their kind. */
  predicate TypedRows(rows: seq<Row>) {
    forall r | r in rows && r.chunk.Numbers? :: AllTyped(r.chunk.kind, r.chunk.cells)
  }

  /** A series of that kind, key and time that adds up the lists. */
  predicate TotalsRow(key: seq<Pair>, k: NumberKind, ts: seq<int>, lists: seq<seq<Cell>>, row: Row) {
    && row.key == key && row.ts == ts
    && row.chunk.Numbers? && row.chunk.kind == k && |row.chunk.cells| == |ts|
    && forall j | 0 <= j < |ts| :: Totals(k, lists, j, row.chunk.cells[j])
  }

  lemma ListsTyped(rows: seq<Row>, k: NumberKind)
    requires TypedRows(rows) && AllOfKind(rows, k)
    ensures forall l | l in ListsOf(rows) :: AllTyped(k, l)
  {
    forall l | l in ListsOf(rows) ensures AllTyped(k, l) {
      var i :| 0 <= i < |rows| && ListsOf(rows)[i] == l;
      assert rows[i] in rows;
    }
  }

  lemma ColumnsTotal(key: seq<Pair>, k: NumberKind, ts: seq<int>, rows: seq<Row>)
    requires TypedRows(rows) && AllOfKind(rows, k)
    ensures TotalsRow(key, k, ts, ListsOf(rows), Row(key, Numbers(k, Columns(k, ListsOf(rows), |ts|)), ts))
  {
    ListsTyped(rows, k);
    hide Totals, Column, Typed;
    forall j | 0 <= j < |ts| ensures Totals(k, ListsOf(rows), j, Columns(k, ListsOf(rows), |ts|)[j]) {
      ColumnTotals(k, ListsOf(rows), j);
    }
  }

  /** A sum that does not panic adds up what the series have at each time. */
  lemma SumTotals(rows: seq<Row>, k: NumberKind)
    requires |rows| > 1 && TypedRows(rows) && SameTimes(rows) && AllOfKind(rows, k)
    ensures SumRows(rows).Ok? && TotalsRow([], k, rows[0].ts, ListsOf(rows), SumRows(rows).value)
  {
    MergeFinds(rows);
    ColumnsTotal([], k, rows[0].ts, rows);
    hide Merge, TotalsRow, TypedRows, Columns, ListsOf;
  }

  method SumSeries(rows: seq<Row>) returns (r: Outcome<Result<Row>>)
    requires |rows| > 1
    ensures r == if SumPanics(rows) then Panicked else Done(SumRows(rows))
  {
    var ts := rows[0].ts;
    for i := 1 to |rows|
      invariant forall j | 0 < j < i :: rows[j].ts == ts
    {
      if rows[i].ts != ts {
        return Done(Err(CantSumTimestamps));
      }
    }
    MergeFinds(rows);
    match Merge(rows)
    case NumberLists(k, lists) =>
      var total := SumLists(k, lists, |ts|);
      hide Merge;
      ShortList(rows, |ts|);
      r := match total
        case Panicked => Panicked
        case Done(cells) => Done(Ok(Row([], Numbers(k, cells), ts)));
    case States(_) => r := Done(Err(CantSumStates));
    case _ => r := Done(Err(Dissimilar));
  }

  lemma ShortList(rows: seq<Row>, n: nat)
    ensures (exists r | r in rows :: |CellsOf(r.chunk)| < n) <==> exists i | 0 <= i < |rows| :: |ListsOf(rows)[i]| < n
  {
    if r :| r in rows && |CellsOf(r.chunk)| < n {
      var i :| 0 <= i < |rows| && rows[i] == r;
      assert |ListsOf(rows)[i]| < n;
    }
    if i :| 0 <= i < |rows| && |ListsOf(rows)[i]| < n {
      assert rows[i] in rows;
    }
  }

  /**
   What decides a sum: different times first; then only states, or no common kind; then a list that is
   too short.  Otherwise, the numbers being of their kinds, the series adds up the lists.
   */
  lemma SumDecides(rows: seq<Row>)
    requires |rows| > 1
    ensures var r := if SumPanics(rows) then Panicked else Done(SumRows(rows));
      && (r == Done(Err(CantSumTimestamps)) <==> exists i | 0 < i < |rows| :: rows[i].ts != rows[0].ts)
      && ((forall i | 0 < i < |rows| :: rows[i].ts == rows[0].ts) ==>
            && (r == Done(Err(CantSumStates)) <==> AllStates(rows))
            && (r == Done(Err(Dissimilar)) <==> !AllStates(rows) && forall k :: !AllOfKind(rows, k))
            && (r.Panicked? <==>
                  (exists k :: AllOfKind(rows, k)) && exists i | 0 <= i < |rows| :: |ListsOf(rows)[i]| < |rows[0].ts|)
            && (r.Done? && TypedRows(rows) ==>
                  forall k | AllOfKind(rows, k) ::
                    r.value.Ok? && TotalsRow([], k, rows[0].ts, ListsOf(rows), r.value.value)))
  {
    MergeFinds(rows);
    ShortList(rows, |rows[0].ts|);
    hide Merge, Columns, ListsOf, TypedRows, TotalsRow, AllOfKind, AllStates;
    if SameTimes(rows) && TypedRows(rows) {
      forall k | AllOfKind(rows, k)
        ensures SumRows(rows).Ok? && TotalsRow([], k, rows[0].ts, ListsOf(rows), SumRows(rows).value)
      {
        SumTotals(rows, k);
      }
    }
  }

  /** The fold over the lists. */
  method SumLists(k: NumberKind, lists: seq<seq<Cell>>, n: nat) returns (r: Outcome<seq<Cell>>)
    ensures r.Panicked? <==> exists i | 0 <= i < |lists| :: |lists[i]| < n
    ensures r.Done? ==> r.value == Columns(k, lists, n)
  {
    var total := seq(n, _ => Gap);
    for i := 0 to |lists|
      invariant total == Columns(k, lists[..i], n)
      invariant forall j | 0 <= j < i :: |lists[j]| >= n
    {
      var sum := VecSum(k, total, lists[i]);
      if sum.Panicked? {
        return Panicked;
      }
      ColumnsLast(k, lists, i, n);
      total := sum.value;
    }
    assert lists[..|lists|] == lists;
    r := Done(total);
  }

  // ---------------------------------------------------------------- grouping

  /** The rows whose key has that value for the field, in order. */
  function Members(rows: seq<Row>, field: Str, g: Str): seq<Row> {
    if rows == [] then []
    else Members(rows[..|rows| - 1], field, g)
         + (if Find(rows[|rows| - 1].key, field) == Some(g) then [rows[|rows| - 1]] else [])
  }

  /** The rows that carry the field at all. */
  function Carrying(rows: seq<Row>, field: Str): seq<Row> {
    if rows == [] then []
    else Carrying(rows[..|rows| - 1], field)
         + (if Find(rows[|rows| - 1].key, field).Some? then [rows[|rows| - 1]] else [])
  }

  /** The row of one group; a lone member passes through as it is. */
  function GroupRow(field: Str, g: Str, members: seq<Row>): Result<Row>
    requires members != []
  {
    if |members| == 1 then Ok(Row([(field, g)], members[0].chunk, members[0].ts))
    else match SumRows(members)
      case Ok(row) => Ok(Row([(field, g)], row.chunk, row.ts))
      case Err(e) => Err(e)
  }

  ghost predicate GroupedBy(groups: map<Str, seq<Row>>, rows: seq<Row>, field: Str) {
    && (forall g :: g in groups <==> Members(rows, field, g) != [])
    && (forall g | g in groups :: groups[g] == Members(rows, field, g))
  }

  predicate Distinct(order: seq<Str>) {
    forall i, j | 0 <= i < j < |order| :: order[i] != order[j]
  }

  /** `order` lists the groups once each. */
  ghost predicate ListsGroups(order: seq<Str>, rows: seq<Row>, field: Str) {
    Distinct(order) && forall g :: g in order <==> Members(rows, field, g) != []
  }

  lemma {:induction false} MembersOf(rows: seq<Row>, field: Str, g: Str)
    ensures forall r | r in Members(rows, field, g) :: r in rows && Find(r.key, field) == Some(g)
    ensures |Members(rows, field, g)| <= |rows|
  {
    if rows != [] {
      RowsLast(rows);
      MembersOf(rows[..|rows| - 1], field, g);
    }
  }

  lemma MembersLast(rows: seq<Row>, field: Str, g: Str, i: nat)
    requires i < |rows|
    ensures Members(rows[..i + 1], field, g)
         == Members(rows[..i], field, g) + (if Find(rows[i].key, field) == Some(g) then [rows[i]] else [])
  {
    assert rows[..i + 1][..i] == rows[..i];
  }

  lemma GroupedStep(groups: map<Str, seq<Row>>, rows: seq<Row>, field: Str, i: nat)
    requires i < |rows| && GroupedBy(groups, rows[..i], field)
    ensures match Find(rows[i].key, field)
      case None => GroupedBy(groups, rows[..i + 1], field)
      case Some(g) =>
        GroupedBy(groups[g := (if g in groups then groups[g] else []) + [rows[i]]], rows[..i + 1], field)
  {
    hide Find, Members;
    forall g ensures Members(rows[..i + 1], field, g)
      == Members(rows[..i], field, g) + (if Find(rows[i].key, field) == Some(g) then [rows[i]] else [])
    {
      MembersLast(rows, field, g, i);
    }
  }

  predicate GroupPanics(members: seq<Row>) {
    |members| > 1 && SumPanics(members)
  }

  /** `vec` holds the rows of the listed groups. */
  ghost predicate AreGroupRows(field: Str, rows: seq<Row>, order: seq<Str>, vec: seq<Row>) {
    && |vec| == |order|
    && forall i | 0 <= i < |order| :: IsGroupRow(field, order[i], Members(rows, field, order[i]), vec[i])
  }

  predicate IsGroupRow(field: Str, g: Str, members: seq<Row>, row: Row) {
    members != [] && !GroupPanics(members) && GroupRow(field, g, members) == Ok(row)
  }

  /** Some group cannot be summed, for that reason. */
  ghost predicate GroupFails(field: Str, rows: seq<Row>, order: seq<Str>, e: Conflict) {
    exists g | g in order ::
      && Members(rows, field, g) != [] && !GroupPanics(Members(rows, field, g))
      && GroupRow(field, g, Members(rows, field, g)) == Err(e)
  }

  /** What `sum_series_by` may answer when the groups come out of the hash map in that order. */
  ghost predicate SumsGroups(field: Str, rows: seq<Row>, order: seq<Str>, r: Outcome<Result<seq<Row>>>) {
    && ListsGroups(order, rows, field)
    && match r
       case Done(Ok(vec)) => AreGroupRows(field, rows, order, vec)
       case Done(Err(e)) => GroupFails(field, rows, order, e)
       case Panicked => exists g | g in order :: GroupPanics(Members(rows, field, g))
  }

  method SumSeriesBy(field: Str, rows: seq<Row>) returns (r: Outcome<Result<seq<Row>>>)
    ensures exists order :: SumsGroups(field, rows, order, r)
  {
    var groups: map<Str, seq<Row>> := map[];
    for i := 0 to |rows|
      invariant GroupedBy(groups, rows[..i], field)
    {
      hide Find, Members, GroupedBy;
      GroupedStep(groups, rows, field, i);
      match Find(rows[i].key, field)
      case None =>
      case Some(g) => groups := groups[g := (if g in groups then groups[g] else []) + [rows[i]]];
    }
    assert rows[..|rows|] == rows;
    ghost var order;
    r, order := SumGroups(field, rows, groups);
    assert SumsGroups(field, rows, order, r);
  }

  /** The groups come out of the hash map in no particular order. */
  method SumGroups(field: Str, rows: seq<Row>, groups: map<Str, seq<Row>>)
    returns (r: Outcome<Result<seq<Row>>>, ghost order: seq<Str>)
    requires GroupedBy(groups, rows, field)
    ensures SumsGroups(field, rows, order, r)
  {
    hide Members, SumRows, Find, SumPanics;
    order := [];
    var res: seq<Row> := [];
    var todo := groups.Keys;
    while todo != {}
      invariant todo <= groups.Keys
      invariant forall g :: g in order <==> g in groups && g !in todo
      invariant Distinct(order)
      invariant AreGroupRows(field, rows, order, res)
      decreases todo
    {
      var g :| g in todo;
      var members := groups[g];
      var sum := GroupSum(field, g, members);
      match sum
      case Panicked =>
        order := RestOf(groups, order, todo);
        assert g in order && GroupPanics(Members(rows, field, g));
        return Panicked, order;
      case Done(Err(e)) =>
        order := RestOf(groups, order, todo);
        assert g in order && members == Members(rows, field, g);
        return Done(Err(e)), order;
      case Done(Ok(row)) =>
        res := res + [row];
        order := order + [g];
        todo := todo - {g};
    }
    r := Done(Ok(res));
  }

  method GroupSum(field: Str, g: Str, members: seq<Row>) returns (r: Outcome<Result<Row>>)
    requires members != []
    ensures r == if GroupPanics(members) then Panicked else Done(GroupRow(field, g, members))
  {
    if |members| > 1 {
      var sum := SumSeries(members);
      match sum
      case Panicked => r := Panicked;
      case Done(Ok(row)) => r := Done(Ok(Row([(field, g)], row.chunk, row.ts)));
      case Done(Err(e)) => r := Done(Err(e));
    } else {
      r := Done(Ok(Row([(field, g)], members[0].chunk, members[0].ts)));
    }
  }

  /** A listing of all groups that starts with the given ones. */
  lemma RestOf(groups: map<Str, seq<Row>>, order: seq<Str>, todo: set<Str>) returns (all: seq<Str>)
    requires todo <= groups.Keys
    requires forall g :: g in order <==> g in groups && g !in todo
    requires Distinct(order)
    ensures forall g :: g in all <==> g in groups
    ensures Distinct(all)
    decreases todo
  {
    if todo == {} {
      all := order;
    } else {
      var g :| g in todo;
      all := RestOf(groups, order + [g], todo - {g});
    }
  }

  datatype Dataset =
    | MultiSeries(rows: seq<Row>) | SingleSeries(row: Row) | Incompatible(error: Conflict) | EmptySet | Chart

  function Answer(sum: Outcome<Result<Row>>): Outcome<Dataset> {
    match sum
    case Panicked => Panicked
    case Done(Ok(row)) => Done(SingleSeries(row))
    case Done(Err(e)) => Done(Incompatible(e))
  }

  /** `sum`: nothing for no series, a lone series as it is. */
  method Sum(src: Dataset) returns (r: Outcome<Dataset>)
    ensures src.MultiSeries? && src.rows == [] ==> r == Done(EmptySet)
    ensures src.MultiSeries? && |src.rows| == 1 ==> r == Done(SingleSeries(src.rows[0]))
    ensures src.MultiSeries? && |src.rows| > 1 ==>
      r == if SumPanics(src.rows) then Panicked else Answer(Done(SumRows(src.rows)))
    ensures src.Chart? ==> r == Done(Incompatible(CantSumChart))
    ensures !src.MultiSeries? && !src.Chart? ==> r == Done(src)
  {
    match src
    case MultiSeries(rows) =>
      if |rows| == 0 {
        r := Done(EmptySet);
      } else if |rows| == 1 {
        r := Done(SingleSeries(rows[0]));
      } else {
        var sum := SumSeries(rows);
        r := Answer(sum);
      }
    case Chart => r := Done(Incompatible(CantSumChart));
    case _ => r := Done(src);
  }

  /** The group rows, then their total when it is asked for and there are several. */
  ghost predicate GroupedAndTotalled(field: Str, rows: seq<Row>, total: bool, order: seq<Str>, out: seq<Row>) {
    if total && |order| > 1 then
      && |out| == |order| + 1 && AreGroupRows(field, rows, order, out[..|order|])
      && !SumPanics(out[..|order|]) && SumRows(out[..|order|]) == Ok(out[|order|])
    else AreGroupRows(field, rows, order, out)
  }

  /** The group rows are there, and totalling them does not work out. */
  ghost predicate TotalFails(field: Str, rows: seq<Row>, order: seq<Str>, vec: seq<Row>, e: Conflict) {
    |order| > 1 && AreGroupRows(field, rows, order, vec) && !SumPanics(vec) && SumRows(vec) == Err(e)
  }

  ghost predicate TotalPanics(field: Str, rows: seq<Row>, order: seq<Str>, vec: seq<Row>) {
    |order| > 1 && AreGroupRows(field, rows, order, vec) && SumPanics(vec)
  }

  /** What `sum_by` may answer for several series. */
  ghost predicate SumsBy(field: Str, total: bool, rows: seq<Row>, order: seq<Str>, r: Outcome<Dataset>) {
    && ListsGroups(order, rows, field)
    && match r
       case Done(MultiSeries(out)) => GroupedAndTotalled(field, rows, total, order, out)
       case Done(Incompatible(e)) =>
         GroupFails(field, rows, order, e) || (total && exists vec :: TotalFails(field, rows, order, vec, e))
       case Panicked =>
         || (exists g | g in order :: GroupPanics(Members(rows, field, g)))
         || (total && exists vec :: TotalPanics(field, rows, order, vec))
       case _ => false
  }

  method SumBy(field: Str, total: bool, src: Dataset) returns (r: Outcome<Dataset>)
    ensures src.MultiSeries? ==> exists order :: SumsBy(field, total, src.rows, order, r)
    ensures src.Chart? ==> r == Done(Incompatible(CantSumChart))
    ensures !src.MultiSeries? && !src.Chart? ==> r == Done(src)
  {
    match src
    case MultiSeries(rows) =>
      ghost var order;
      r, order := SumByMulti(field, total, rows);
    case Chart => r := Done(Incompatible(CantSumChart));
    case _ => r := Done(src);
  }

  method SumByMulti(field: Str, total: bool, rows: seq<Row>) returns (r: Outcome<Dataset>, ghost order: seq<Str>)
    ensures SumsBy(field, total, rows, order, r)
  {
    hide SumRows, GroupFails, SumPanics, GroupPanics;
    var grouped := SumSeriesBy(field, rows);
    order :| SumsGroups(field, rows, order, grouped);
    match grouped
    case Panicked => r := Panicked;
    case Done(Err(e)) => r := Done(Incompatible(e));
    case Done(Ok(vec)) =>
      if total && |vec| > 1 {
        var sum := SumSeries(vec);
        match sum {
          case Panicked =>
            assert TotalPanics(field, rows, order, vec);
            r := Panicked;
          case Done(Ok(row)) =>
            assert (vec + [row])[..|order|] == vec;
            r := Done(MultiSeries(vec + [row]));
          case Done(Err(e)) =>
            assert TotalFails(field, rows, order, vec, e);
            r := Done(Incompatible(e));
        }
      } else {
        r := Done(MultiSeries(vec));
      }
  }

  /** Series as long as their timestamps never make it panic. */
  lemma FullLengthSumsBy(field: Str, total: bool, rows: seq<Row>, order: seq<Str>, r: Outcome<Dataset>)
    requires FullLength(rows) && SumsBy(field, total, rows, order, r)
    ensures r.Done?
  {
    if r.Panicked? {
      if g :| g in order && GroupPanics(Members(rows, field, g)) {
        MembersOf(rows, field, g);
        FullLengthIsSafe(Members(rows, field, g));
      } else {
        var vec :| TotalPanics(field, rows, order, vec);
        GroupsFullLength(field, rows, order, vec);
        FullLengthIsSafe(vec);
      }
    }
  }

  lemma GroupsFullLength(field: Str, rows: seq<Row>, order: seq<Str>, vec: seq<Row>)
    requires FullLength(rows) && AreGroupRows(field, rows, order, vec)
    ensures FullLength(vec)
  {
    forall r | r in vec ensures r.chunk.Numbers? ==> |r.chunk.cells| >= |r.ts| {
      var i :| 0 <= i < |vec| && vec[i] == r;
      MembersOf(rows, field, order[i]);
      assert IsGroupRow(field, order[i], Members(rows, field, order[i]), r);
      GroupFullLength(field, order[i], Members(rows, field, order[i]), r);
    }
  }

  lemma GroupFullLength(field: Str, g: Str, members: seq<Row>, r: Row)
    requires members != [] && FullLength(members) && GroupRow(field, g, members) == Ok(r)
    ensures r.chunk.Numbers? ==> |r.chunk.cells| >= |r.ts|
  {
    if |members| == 1 {
      assert members[0] in members;
    }
  }

  // ---------------------------------------------------------------- order does not matter

  lemma SplitAt(b: seq<Row>, r: Row) returns (before: seq<Row>, after: seq<Row>)
    requires r in b
    ensures b == before + [r] + after
    ensures multiset(b) == multiset(before + after) + multiset{r}
  {
    var j :| 0 <= j < |b| && b[j] == r;
    before, after := b[..j], b[j + 1..];
    assert b == before + [r] + after;
  }

  lemma ListsConcat(a: seq<Row>, b: seq<Row>)
    ensures ListsOf(a + b) == ListsOf(a) + ListsOf(b)
  {}

  lemma {:induction false} ListsPermute(a: seq<Row>, b: seq<Row>)
    requires multiset(a) == multiset(b)
    ensures multiset(ListsOf(a)) == multiset(ListsOf(b))
    decreases |a|
  {
    if a == [] {
      assert |multiset(b)| == 0;
    } else {
      var n, r := |a| - 1, a[|a| - 1];
      RowsLast(a);
      assert a == a[..n] + [r];
      assert r in multiset(b);
      var before, after := SplitAt(b, r);
      assert multiset(a) == multiset(a[..n]) + multiset{r};
      Cancel(multiset(a[..n]), multiset(before + after), r);
      ListsPermute(a[..n], before + after);
      ListsConcat(a[..n], [r]);
      ListsConcat(before, after);
      ListsConcat(before + [r], after);
      ListsConcat(before, [r]);
      var l := CellsOf(r.chunk);
      assert multiset(ListsOf(before) + [l] + ListsOf(after))
          == multiset(ListsOf(before) + ListsOf(after)) + multiset{l};
      assert ListsOf([r]) == [l];
    }
  }

  /** A sum, or the reason there is none, is the same for any order of the series. */
  lemma SumIsOrderFree(a: seq<Row>, b: seq<Row>)
    requires |a| > 1 && multiset(a) == multiset(b)
    ensures |b| > 1 && SumRows(a) == SumRows(b)
  {
    assert |a| == |multiset(a)| == |multiset(b)| == |b|;
    forall r ensures r in a <==> r in b {
      assert r in multiset(a) <==> r in multiset(b);
    }
    assert a[0] in b && b[0] in a;
    TimesBySet(a);
    TimesBySet(b);
    MergeFinds(a);
    MergeFinds(b);
    if SameTimes(a) && Merge(a).NumberLists? {
      var k := Merge(a).kind;
      assert AllOfKind(b, k);
      ListsPermute(a, b);
      forall i | 0 <= i < |a[0].ts| ensures Column(k, ListsOf(a), i) == Column(k, ListsOf(b), i) {
        ColumnPermutes(k, ListsOf(a), ListsOf(b), i);
      }
      assert Columns(k, ListsOf(a), |a[0].ts|) == Columns(k, ListsOf(b), |a[0].ts|);
    } else if Merge(b).NumberLists? {
      assert AllOfKind(a, Merge(b).kind);
    }
  }

  lemma TimesBySet(a: seq<Row>)
    requires a != []
    ensures SameTimes(a) <==> forall r | r in a :: r.ts == a[0].ts
  {
    if SameTimes(a) {
      forall r | r in a ensures r.ts == a[0].ts {
        var i :| 0 <= i < |a| && a[i] == r;
      }
    } else {
      var i :| 0 < i < |a| && a[i].ts != a[0].ts;
      assert a[i] in a;
    }
  }

  lemma {:induction false} MembersConcat(a: seq<Row>, b: seq<Row>, field: Str, g: Str)
    ensures Members(a + b, field, g) == Members(a, field, g) + Members(b, field, g)
    decreases |b|
  {
    if b == [] {
      assert a + b == a;
    } else {
      var n := |b| - 1;
      MembersConcat(a, b[..n], field, g);
      assert (a + b)[..|a| + n] == a + b[..n] && (a + b)[|a| + n] == b[n];
    }
  }

  lemma {:induction false} MembersPermute(a: seq<Row>, b: seq<Row>, field: Str, g: Str)
    requires multiset(a) == multiset(b)
    ensures multiset(Members(a, field, g)) == multiset(Members(b, field, g))
    decreases |a|
  {
    if a == [] {
      assert |multiset(b)| == 0;
    } else {
      var n, r := |a| - 1, a[|a| - 1];
      assert a == a[..n] + [r];
      assert r in multiset(b);
      var before, after := SplitAt(b, r);
      assert multiset(a) == multiset(a[..n]) + multiset{r};
      Cancel(multiset(a[..n]), multiset(before + after), r);
      MembersPermute(a[..n], before + after, field, g);
      MemberMoves(before, r, after, field, g);
      MembersConcat(a[..n], [r], field, g);
      hide Members, Find;
    }
  }

  lemma MemberMoves(before: seq<Row>, r: Row, after: seq<Row>, field: Str, g: Str)
    ensures multiset(Members(before + [r] + after, field, g))
         == multiset(Members(before + after, field, g)) + multiset(Members([r], field, g))
  {
    MembersConcat(before, [r], field, g);
    MembersConcat(before + [r], after, field, g);
    MembersConcat(before, after, field, g);
    hide Members;
  }

  /** Which groups there are and what each of them sums to does not depend on the order of the series. */
  lemma GroupIsOrderFree(a: seq<Row>, b: seq<Row>, field: Str, g: Str)
    requires multiset(a) == multiset(b)
    ensures Members(a, field, g) != [] <==> Members(b, field, g) != []
    ensures Members(a, field, g) != [] ==>
      GroupRow(field, g, Members(a, field, g)) == GroupRow(field, g, Members(b, field, g))
  {
    var ma, mb := Members(a, field, g), Members(b, field, g);
    MembersPermute(a, b, field, g);
    assert |ma| == |multiset(ma)| == |multiset(mb)| == |mb|;
    hide Members, SumRows;
    if |ma| > 1 {
      SumIsOrderFree(ma, mb);
    } else if |ma| == 1 {
      assert ma[0] in multiset(ma) && ma[0] in multiset(mb);
    }
  }

  // ---------------------------------------------------------------- grouping and then totalling

  /** All members, group by group. */
  function Regrouped(rows: seq<Row>, field: Str, order: seq<Str>): seq<Row> {
    if order == [] then []
    else Regrouped(rows, field, order[..|order| - 1]) + Members(rows, field, order[|order| - 1])
  }

  /** One more row lands in exactly one group. */
  lemma {:induction false} RegroupedLast(rows: seq<Row>, r: Row, field: Str, order: seq<Str>)
    requires Distinct(order)
    ensures multiset(Regrouped(rows + [r], field, order))
         == multiset(Regrouped(rows, field, order)) + Extra(r, field, order)
    decreases |order|
  {
    hide Find, Members;
    if order != [] {
      var n, g := |order| - 1, order[|order| - 1];
      RegroupedLast(rows, r, field, order[..n]);
      MemberAdded(rows, r, field, g);
      ExtraStep(r, field, order);
      hide Extra;
    }
  }

  function Extra(r: Row, field: Str, order: seq<Str>): multiset<Row> {
    if Find(r.key, field).Some? && Find(r.key, field).value in order then multiset{r} else multiset{}
  }

  lemma MemberAdded(rows: seq<Row>, r: Row, field: Str, g: Str)
    ensures multiset(Members(rows + [r], field, g)) == multiset(Members(rows, field, g)) + Extra(r, field, [g])
  {
    assert (rows + [r])[..|rows|] == rows;
  }

  lemma ExtraStep(r: Row, field: Str, order: seq<Str>)
    requires order != [] && Distinct(order)
    ensures Extra(r, field, order) == Extra(r, field, order[..|order| - 1]) + Extra(r, field, [order[|order| - 1]])
  {
    hide Find;
    assert order == order[..|order| - 1] + [order[|order| - 1]];
  }

  /** Every row that carries the field is a member of exactly one group. */
  lemma {:induction false} RegroupedIsCarrying(rows: seq<Row>, field: Str, order: seq<Str>)
    requires Distinct(order)
    requires forall r | r in rows :: Find(r.key, field).Some? ==> Find(r.key, field).value in order
    ensures multiset(Regrouped(rows, field, order)) == multiset(Carrying(rows, field))
    decreases |rows|
  {
    if rows == [] {
      NothingRegrouped(field, order);
    } else {
      var n := |rows| - 1;
      RowsLast(rows);
      assert rows == rows[..n] + [rows[n]];
      RegroupedIsCarrying(rows[..n], field, order);
      RegroupedLast(rows[..n], rows[n], field, order);
      hide Find, Regrouped;
    }
  }

  lemma {:induction false} NothingRegrouped(field: Str, order: seq<Str>)
    ensures Regrouped([], field, order) == []
    decreases |order|
  {
    if order != [] {
      NothingRegrouped(field, order[..|order| - 1]);
    }
  }

  /** All series have one numeric kind, the same timestamps and a sample for each. */
  predicate Uniform(rows: seq<Row>, k: NumberKind, ts: seq<int>) {
    forall r | r in rows :: r.chunk.Numbers? && r.chunk.kind == k && |r.chunk.cells| == |ts| && r.ts == ts
  }

  lemma UniformSums(rows: seq<Row>, k: NumberKind, ts: seq<int>)
    requires rows != [] && Uniform(rows, k, ts)
    ensures |rows| > 1 ==> SumRows(rows) == Ok(Row([], Numbers(k, Columns(k, ListsOf(rows), |ts|)), ts))
  {
    assert rows[0] in rows;
    TimesBySet(rows);
    MergeFinds(rows);
    assert AllOfKind(rows, k);
  }

  /** Each group's row is the sum of its members, also when there is only one. */
  lemma UniformGroup(field: Str, g: Str, members: seq<Row>, k: NumberKind, ts: seq<int>)
    requires members != [] && Uniform(members, k, ts)
    ensures GroupRow(field, g, members) == Ok(Row([(field, g)], Numbers(k, Columns(k, ListsOf(members), |ts|)), ts))
  {
    UniformSums(members, k, ts);
    if |members| == 1 {
      assert members[0] in members;
      var cells := members[0].chunk.cells;
      assert ListsOf(members) == [cells];
      forall i | 0 <= i < |ts| ensures Column(k, [cells], i) == cells[i] {
        ColumnLast(k, [], cells, i);
        assert [] + [cells] == [cells];
      }
      assert Columns(k, ListsOf(members), |ts|) == cells;
    }
  }

  lemma OneGroup(rows: seq<Row>, field: Str, g: Str, row: Row, k: NumberKind, ts: seq<int>, i: nat)
    requires Uniform(rows, k, ts) && i < |ts|
    requires Members(rows, field, g) != [] && GroupRow(field, g, Members(rows, field, g)) == Ok(row)
    ensures |CellsOf(row.chunk)| == |ts|
    ensures CellsOf(row.chunk)[i] == Column(k, ListsOf(Members(rows, field, g)), i)
  {
    MembersOf(rows, field, g);
    UniformGroup(field, g, Members(rows, field, g), k, ts);
    hide Members, GroupRow, Column, ListsOf;
  }

  lemma RegroupedStep(rows: seq<Row>, field: Str, order: seq<Str>, vec: seq<Row>)
    requires order != [] && |vec| == |order|
    ensures var n := |order| - 1;
      && ListsOf(Regrouped(rows, field, order))
           == ListsOf(Regrouped(rows, field, order[..n])) + ListsOf(Members(rows, field, order[n]))
      && ListsOf(vec) == ListsOf(vec[..n]) + [CellsOf(vec[n].chunk)]
  {
    var n := |order| - 1;
    ListsConcat(Regrouped(rows, field, order[..n]), Members(rows, field, order[n]));
  }

  /** Summing the group sums, column by column. */
  lemma {:induction false} GroupColumns(rows: seq<Row>, field: Str, order: seq<Str>, vec: seq<Row>,
                                        k: NumberKind, ts: seq<int>, i: nat)
    requires Uniform(rows, k, ts) && |vec| == |order| && i < |ts|
    requires AreGroupRows(field, rows, order, vec)
    ensures Column(k, ListsOf(vec), i) == Column(k, ListsOf(Regrouped(rows, field, order)), i)
    decreases |order|
  {
    hide Members, GroupRow, ListsOf, Uniform, CellsOf, Find;
    if order == [] {
      assert vec == [];
      NothingToList(rows, field);
    } else {
      hide Column, Regrouped;
      var n := |order| - 1;
      GroupColumns(rows, field, order[..n], vec[..n], k, ts, i);
      OneGroup(rows, field, order[n], vec[n], k, ts, i);
      RegroupedStep(rows, field, order, vec);
      ColumnStep(k, ListsOf(vec[..n]), CellsOf(vec[n].chunk), ListsOf(Regrouped(rows, field, order[..n])),
                 ListsOf(Members(rows, field, order[n])), i);
    }
  }

  lemma NothingToList(rows: seq<Row>, field: Str)
    ensures ListsOf([]) == ListsOf(Regrouped(rows, field, []))
  {}

  lemma ColumnStep(k: NumberKind, sums: seq<seq<Cell>>, sum: seq<Cell>, before: seq<seq<Cell>>,
                   members: seq<seq<Cell>>, i: nat)
    requires Column(k, sums, i) == Column(k, before, i)
    requires i < |sum| && sum[i] == Column(k, members, i)
    ensures Column(k, sums + [sum], i) == Column(k, before + members, i)
  {
    ColumnLast(k, sums, sum, i);
    ColumnConcat(k, before, members, i);
  }

  /**
   Grouping and then totalling is summing directly: for series of one kind with equal timestamps
   the total row is the sum of every series that carries the field, whatever the hash order.
   */
  lemma TotalIsDirectSum(rows: seq<Row>, field: Str, order: seq<Str>, vec: seq<Row>, k: NumberKind, ts: seq<int>)
    requires Uniform(rows, k, ts) && ListsGroups(order, rows, field) && |order| > 1
    requires AreGroupRows(field, rows, order, vec)
    ensures |Carrying(rows, field)| > 1
    ensures SumRows(vec) == SumRows(Carrying(rows, field))
  {
    var all, direct := Regrouped(rows, field, order), Carrying(rows, field);
    FieldsListed(rows, field, order);
    RegroupedIsCarrying(rows, field, order);
    GroupsUniform(rows, field, order, vec, k, ts);
    RegroupedSize(rows, field, order);
    assert |all| == |multiset(all)| == |multiset(direct)| == |direct|;
    SumIsOrderFree(all, direct);
    RegroupedWithin(rows, field, order);
    SumsAgree(rows, field, order, vec, k, ts);
  }

  /** What `sum_by` answers for series of one kind with equal timestamps and a sample for each of them. */
  lemma SumByColumns(rows: seq<Row>, field: Str, total: bool, order: seq<Str>, out: seq<Row>, k: NumberKind,
                     ts: seq<int>)
    requires Uniform(rows, k, ts) && ListsGroups(order, rows, field)
    requires GroupedAndTotalled(field, rows, total, order, out)
    ensures |out| == |order| + (if total && |order| > 1 then 1 else 0)
    ensures forall i | 0 <= i < |order| ::
      out[i] == Row([(field, order[i])], Numbers(k, Columns(k, ListsOf(Members(rows, field, order[i])), |ts|)), ts)
    ensures total && |order| > 1 ==>
      out[|order|] == Row([], Numbers(k, Columns(k, ListsOf(Carrying(rows, field)), |ts|)), ts)
  {
    hide Members, SumRows, Columns, Find;
    forall i | 0 <= i < |order|
      ensures out[i]
           == Row([(field, order[i])], Numbers(k, Columns(k, ListsOf(Members(rows, field, order[i])), |ts|)), ts)
    {
      MembersOf(rows, field, order[i]);
      UniformGroup(field, order[i], Members(rows, field, order[i]), k, ts);
      assert total && |order| > 1 ==> out[..|order|][i] == out[i];
    }
    if total && |order| > 1 {
      TotalIsDirectSum(rows, field, order, out[..|order|], k, ts);
      CarryingOf(rows, field);
      UniformSums(Carrying(rows, field), k, ts);
    }
  }

  lemma WithinTyped(rows: seq<Row>, some: seq<Row>, k: NumberKind, ts: seq<int>)
    requires Uniform(rows, k, ts) && TypedRows(rows) && forall r | r in some :: r in rows
    ensures AllOfKind(some, k) && TypedRows(some)
  {}

  /**
   For such series every group row adds up the samples of its members, and the total row those of all
   series that carry the field.
   */
  lemma SumByMeans(rows: seq<Row>, field: Str, total: bool, order: seq<Str>, out: seq<Row>, k: NumberKind, ts: seq<int>)
    requires Uniform(rows, k, ts) && TypedRows(rows) && ListsGroups(order, rows, field)
    requires GroupedAndTotalled(field, rows, total, order, out)
    ensures |out| == |order| + (if total && |order| > 1 then 1 else 0)
    ensures forall i | 0 <= i < |order| ::
      TotalsRow([(field, order[i])], k, ts, ListsOf(Members(rows, field, order[i])), out[i])
    ensures total && |order| > 1 ==> TotalsRow([], k, ts, ListsOf(Carrying(rows, field)), out[|order|])
  {
    SumByColumns(rows, field, total, order, out, k, ts);
    hide *;
    forall i | 0 <= i < |order|
      ensures TotalsRow([(field, order[i])], k, ts, ListsOf(Members(rows, field, order[i])), out[i])
    {
      var members := Members(rows, field, order[i]);
      MembersOf(rows, field, order[i]);
      WithinTyped(rows, members, k, ts);
      ColumnsTotal([(field, order[i])], k, ts, members);
    }
    if total && |order| > 1 {
      CarryingOf(rows, field);
      WithinTyped(rows, Carrying(rows, field), k, ts);
      ColumnsTotal([], k, ts, Carrying(rows, field));
    }
  }

  lemma {:induction false} CarryingOf(rows: seq<Row>, field: Str)
    ensures forall r | r in Carrying(rows, field) :: r in rows
  {
    if rows != [] {
      RowsLast(rows);
      CarryingOf(rows[..|rows| - 1], field);
    }
  }

  lemma SumsAgree(rows: seq<Row>, field: Str, order: seq<Str>, vec: seq<Row>, k: NumberKind, ts: seq<int>)
    requires Uniform(rows, k, ts) && Uniform(vec, k, ts) && |vec| == |order| && |vec| > 1
    requires Uniform(Regrouped(rows, field, order), k, ts) && |Regrouped(rows, field, order)| > 1
    requires AreGroupRows(field, rows, order, vec)
    ensures SumRows(vec) == SumRows(Regrouped(rows, field, order))
  {
    var all := Regrouped(rows, field, order);
    UniformSums(vec, k, ts);
    UniformSums(all, k, ts);
    hide Members, GroupRow, Find, Regrouped, SumRows, Column;
    forall i | 0 <= i < |ts| ensures Column(k, ListsOf(vec), i) == Column(k, ListsOf(all), i) {
      GroupColumns(rows, field, order, vec, k, ts, i);
    }
    assert Columns(k, ListsOf(vec), |ts|) == Columns(k, ListsOf(all), |ts|);
  }

  lemma {:induction false} RegroupedWithin(rows: seq<Row>, field: Str, order: seq<Str>)
    ensures forall r | r in Regrouped(rows, field, order) :: r in rows
    decreases |order|
  {
    if order != [] {
      RegroupedWithin(rows, field, order[..|order| - 1]);
      MembersOf(rows, field, order[|order| - 1]);
    }
  }

  lemma {:induction false} RegroupedSize(rows: seq<Row>, field: Str, order: seq<Str>)
    requires forall j | 0 <= j < |order| :: Members(rows, field, order[j]) != []
    ensures |Regrouped(rows, field, order)| >= |order|
    decreases |order|
  {
    if order != [] {
      RegroupedSize(rows, field, order[..|order| - 1]);
    }
  }

  lemma {:induction false} FieldsListed(rows: seq<Row>, field: Str, order: seq<Str>)
    requires forall g :: Members(rows, field, g) != [] ==> g in order
    ensures forall r | r in rows :: Find(r.key, field).Some? ==> Find(r.key, field).value in order
    decreases |rows|
  {
    if rows != [] {
      var n := |rows| - 1;
      RowsLast(rows);
      hide Find;
      FieldsListed(rows[..n], field, order);
    }
  }

  lemma GroupsUniform(rows: seq<Row>, field: Str, order: seq<Str>, vec: seq<Row>, k: NumberKind, ts: seq<int>)
    requires Uniform(rows, k, ts) && |vec| == |order|
    requires AreGroupRows(field, rows, order, vec)
    ensures Uniform(vec, k, ts)
  {
    forall r | r in vec
      ensures r.chunk.Numbers? && r.chunk.kind == k && |r.chunk.cells| == |ts| && r.ts == ts
    {
      var j :| 0 <= j < |vec| && vec[j] == r;
      MembersOf(rows, field, order[j]);
      UniformGroup(field, order[j], Members(rows, field, order[j]), k, ts);
    }
  }
}
