/** Reading a values file by its metadata (cantal_values/src/lib.rs), and text states end to end. */
module MmapReader {
  import opened Wrappers
  import opened DeltaCodec
  import opened MmapLayout

  datatype LevelKind = Signed | Unsigned | FloatLevel

  datatype Type =
    | CounterType(n: nat) | LevelType(n: nat, level: LevelKind)
    | StateType(n: nat) | PadType(n: nat) | UnknownType(n: nat)

  datatype Value =
    | CounterBytes(b: seq<Byte>) | IntegerBytes(b: seq<Byte>) | FloatBytes(b: seq<Byte>)
    | StateText(time: seq<Byte>, text: seq<Byte>)

  /** A value found: the line that describes it, where it starts and what it says. */
  datatype Reading = Reading(line: nat, start: nat, value: Value)

  datatype ReadError = BadLength(len: nat) | ParseError | JsonError | Io | UnexpectedEof | Duplicate

  datatype Result<+T> = Ok(value: T) | Err(error: ReadError)

  // ---------------------------------------------------------------- metadata

  /** The first word of a line; a level also names its kind, if it does. */
  datatype LineKind = CounterLine | LevelLine(level: Option<LevelKind>) | StateLine | PadLine | OtherLine

  datatype Description = NoText | NotJson | Json

  /** A line split into its words and the text after the colon. */
  datatype MetaLine = MetaLine(kind: LineKind, len: Option<nat>, description: Description)

  function MaxLength(kind: LineKind): nat {
    if kind.CounterLine? || kind.LevelLine? then 255 else 65535
  }

  /** What is wrong with a line, in the order it is looked at. */
  function LineError(l: MetaLine): Option<ReadError> {
    if l.len.None? then Some(ParseError)
    else if l.len.value > MaxLength(l.kind) then Some(BadLength(l.len.value))
    else if l.kind == LevelLine(None) then Some(ParseError)
    else if l.kind.PadLine? then None
    else match l.description
      case NoText => Some(ParseError)
      case NotJson => Some(JsonError)
      case Json => None
  }

  function TypeOf(l: MetaLine): Type
    requires LineError(l) == None
  {
    var n := l.len.value;
    match l.kind
    case CounterLine => CounterType(n)
    case LevelLine(Some(level)) => LevelType(n, level)
    case StateLine => StateType(n)
    case PadLine => PadType(n)
    case OtherLine => UnknownType(n)
  }

  method ReadMetadata(lines: seq<MetaLine>) returns (r: Result<seq<Type>>)
    ensures r.Ok? ==> |r.value| == |lines|
    ensures r.Ok? ==> forall i | 0 <= i < |lines| :: LineError(lines[i]) == None && r.value[i] == TypeOf(lines[i])
    ensures r.Err? ==> exists i | 0 <= i < |lines| ::
      LineError(lines[i]) == Some(r.error) && forall j | 0 <= j < i :: LineError(lines[j]) == None
  {
    var items: seq<Type> := [];
    for i := 0 to |lines|
      invariant |items| == i
      invariant forall j | 0 <= j < i :: LineError(lines[j]) == None && items[j] == TypeOf(lines[j])
    {
      var line := ReadLine(lines[i]);
      if line.Err? {
        return Err(line.error);
      }
      items := items + [line.value];
    }
    r := Ok(items);
  }

  method ReadLine(l: MetaLine) returns (r: Result<Type>)
    ensures r == if LineError(l) == None then Ok(TypeOf(l)) else Err(LineError(l).value)
    ensures l.len.None? ==> r == Err(ParseError)
    ensures l.len.Some? ==>
      var n, limit := l.len.value, if l.kind.CounterLine? || l.kind.LevelLine? then 255 else 65535;
      && (r == Err(BadLength(n)) <==> n > limit)
      && (r.Ok? <==> n <= limit && l.kind != LevelLine(None) && (l.kind.PadLine? || l.description.Json?))
      && (r == Err(JsonError) <==>
            n <= limit && l.kind != LevelLine(None) && !l.kind.PadLine? && l.description.NotJson?)
      && (r.Ok? ==> r.value == match l.kind
            case CounterLine => CounterType(n)
            case LevelLine(level) => LevelType(n, level.value)
            case StateLine => StateType(n)
            case PadLine => PadType(n)
            case OtherLine => UnknownType(n))
  {
    if l.len.None? {
      return Err(ParseError);
    }
    var len := l.len.value;
    var item: Type;
    match l.kind {
      case CounterLine =>
        if len > 255 { return Err(BadLength(len)); }
        item := CounterType(len);
      case LevelLine(kind) =>
        if len > 255 { return Err(BadLength(len)); }
        match kind {
          case Some(level) => item := LevelType(len, level);
          case None => return Err(ParseError);
        }
      case StateLine =>
        if len > 65535 { return Err(BadLength(len)); }
        item := StateType(len);
      case PadLine =>
        if len > 65535 { return Err(BadLength(len)); }
        return Ok(PadType(len));
      case OtherLine =>
        if len > 65535 { return Err(BadLength(len)); }
        item := UnknownType(len);
    }
    match l.description
    case NoText => r := Err(ParseError);
    case NotJson => r := Err(JsonError);
    case Json => r := Ok(item);
  }

  /** The writer's line as the reader splits it. */
  function MetaOf(l: Line): MetaLine {
    match l
    case Pad(n) => MetaLine(PadLine, Some(n), NoText)
    case Entry(v) =>
      match v.kind
      case CounterValue => MetaLine(CounterLine, Some(v.size), Json)
      case FloatValue => MetaLine(LevelLine(Some(FloatLevel)), Some(v.size), Json)
      case IntegerValue => MetaLine(LevelLine(Some(Signed)), Some(v.size), Json)
      case StateValue => MetaLine(StateLine, Some(v.size), Json)
  }

  /** The type the reader finds for a line of the writer, if it accepts the line. */
  function WrittenType(l: Line): (t: Type)
    ensures LineError(MetaOf(l)) == None ==> t == TypeOf(MetaOf(l))
  {
    match l
    case Pad(n) => PadType(n)
    case Entry(v) =>
      match v.kind
      case CounterValue => CounterType(v.size)
      case FloatValue => LevelType(v.size, FloatLevel)
      case IntegerValue => LevelType(v.size, Signed)
      case StateValue => StateType(v.size)
  }

  function TypesOf(lines: seq<Line>): (r: seq<Type>)
    ensures |r| == |lines|
  {
    seq(|lines|, i requires 0 <= i < |lines| => WrittenType(lines[i]))
  }

  // ---------------------------------------------------------------- the cursor

  /** The kinds a value is produced for; the others are stepped over. */
  predicate Readable(t: Type) {
    || t == CounterType(8) || t == LevelType(8, Signed) || t == LevelType(8, FloatLevel)
    || (t.StateType? && t.n > 8)
  }

  /** Where the cursor stands before line `i`. */
  function Cursor(types: seq<Type>, i: nat): nat
    requires i <= |types|
  {
    if i == 0 then 0 else Cursor(types, i - 1) + types[i - 1].n
  }

  function FirstNul(b: seq<Byte>): (i: nat)
    ensures i <= |b|
    ensures i < |b| ==> b[i] == 0
    ensures forall j | 0 <= j < i :: b[j] != 0
  {
    if b == [] || b[0] == 0 then 0 else
      var i := FirstNul(b[1..]) + 1;
      assert forall j | 0 < j < i :: b[j] == b[1..][j - 1];
      i
  }

  function CutAtNul(b: seq<Byte>): seq<Byte> {
    b[..FirstNul(b)]
  }

  /** `t` is `text` up to its first NUL. */
  predicate UpToNul(text: seq<Byte>, t: seq<Byte>) {
    && t <= text
    && (forall j | 0 <= j < |t| :: t[j] != 0)
    && (|t| < |text| ==> text[|t|] == 0)
  }

  lemma CutIsUpToNul(text: seq<Byte>, t: seq<Byte>)
    ensures UpToNul(text, t) <==> t == CutAtNul(text)
  {
    if t <= text {
      assert forall j | 0 <= j < |t| :: t[j] == text[j];
    }
  }

  /**
   What a value of that type says when its bytes are these: eight bytes as they are, or a time of eight
   bytes and a text up to its first NUL.
   */
  predicate Says(t: Type, bytes: seq<Byte>, v: Value)
    requires Readable(t) && |bytes| == t.n
  {
    match t
    case CounterType(_) => v == CounterBytes(bytes)
    case LevelType(_, level) => v == if level == Signed then IntegerBytes(bytes) else FloatBytes(bytes)
    case StateType(_) => v.StateText? && v.time == bytes[..8] && UpToNul(bytes[8..], v.text)
    case PadType(_) => false
  }

  function ValueAt(t: Type, buf: seq<Byte>, pos: nat): Value
    requires Readable(t) && pos + t.n <= |buf|
  {
    match t
    case CounterType(_) => CounterBytes(buf[pos..pos + 8])
    case LevelType(_, Signed) => IntegerBytes(buf[pos..pos + 8])
    case LevelType(_, _) => FloatBytes(buf[pos..pos + 8])
    case StateType(n) => StateText(buf[pos..pos + 8], CutAtNul(buf[pos + 8..pos + n]))
    case PadType(_) => CounterBytes([])
  }

  /** Every readable value lies in the file. */
  ghost predicate AllInside(types: seq<Type>, buf: seq<Byte>) {
    forall i | 0 <= i < |types| && Readable(types[i]) :: Cursor(types, i) + types[i].n <= |buf|
  }

  /**
   What reading line `i` fails with: an eight-byte read past the end is an I/O error; only a text whose
   time still lies in the file is found to be cut off.
   */
  function Fault(types: seq<Type>, buf: seq<Byte>, i: nat): Option<ReadError>
    requires i < |types|
  {
    if !Readable(types[i]) || Cursor(types, i) + types[i].n <= |buf| then None
    else if Cursor(types, i) + 8 > |buf| then Some(Io)
    else Some(UnexpectedEof)
  }

  /** Line `i` is the first whose value is not all in the file, and `e` says whether its first eight bytes are. */
  predicate FirstFault(types: seq<Type>, buf: seq<Byte>, i: nat, e: ReadError) {
    && i < |types| && Readable(types[i]) && |buf| < Cursor(types, i) + types[i].n
    && (forall j | 0 <= j < i && Readable(types[j]) :: Cursor(types, j) + types[j].n <= |buf|)
    && (e == UnexpectedEof <==> Cursor(types, i) + 8 <= |buf|) && (e == Io <==> |buf| < Cursor(types, i) + 8)
  }

  lemma FaultIsFirst(types: seq<Type>, buf: seq<Byte>, i: nat)
    requires i < |types| && Fault(types, buf, i).Some? && forall j | 0 <= j < i :: Fault(types, buf, j) == None
    ensures FirstFault(types, buf, i, Fault(types, buf, i).value)
  {
    forall j | 0 <= j < i && Readable(types[j]) ensures Cursor(types, j) + types[j].n <= |buf| {
      assert Fault(types, buf, j) == None;
    }
    hide Cursor;
  }

  lemma NoFault(types: seq<Type>, buf: seq<Byte>)
    ensures AllInside(types, buf) <==> forall i | 0 <= i < |types| :: Fault(types, buf, i) == None
  {
    forall i | 0 <= i < |types|
      ensures Fault(types, buf, i) == None <==> (Readable(types[i]) ==> Cursor(types, i) + types[i].n <= |buf|)
    {}
    hide Fault, Readable, Cursor;
  }

  /** The reading of one line: at the cursor, saying what the bytes there say. */
  predicate ReadsLine(types: seq<Type>, buf: seq<Byte>, r: Reading) {
    && r.line < |types| && Readable(types[r.line])
    && r.start == Cursor(types, r.line) && r.start + types[r.line].n <= |buf|
    && Says(types[r.line], buf[r.start..r.start + types[r.line].n], r.value)
  }

  /** No line is read twice. */
  predicate Increasing(readings: seq<Reading>) {
    forall i, j | 0 <= i < j < |readings| :: readings[i].line < readings[j].line
  }

  /** One reading for each of the first `n` lines that is readable, in their order. */
  ghost predicate ReadsAll(types: seq<Type>, buf: seq<Byte>, n: nat, readings: seq<Reading>)
    requires n <= |types|
  {
    && (forall j | 0 <= j < |readings| :: ReadsLine(types, buf, readings[j]) && readings[j].line < n)
    && Increasing(readings)
    && (forall i | 0 <= i < n && Readable(types[i]) :: exists r | r in readings :: r.line == i)
  }

  lemma ValueSays(t: Type, buf: seq<Byte>, pos: nat)
    requires Readable(t) && pos + t.n <= |buf|
    ensures Says(t, buf[pos..pos + t.n], ValueAt(t, buf, pos))
  {
    if t.StateType? {
      assert buf[pos..pos + t.n][..8] == buf[pos..pos + 8];
      assert buf[pos..pos + t.n][8..] == buf[pos + 8..pos + t.n];
      CutIsUpToNul(buf[pos + 8..pos + t.n], CutAtNul(buf[pos + 8..pos + t.n]));
    }
    hide CutAtNul, UpToNul;
  }

  ghost function Readings(types: seq<Type>, buf: seq<Byte>, n: nat): seq<Reading>
    requires n <= |types| && AllInside(types, buf)
  {
    if n == 0 then [] else
      var t, pos := types[n - 1], Cursor(types, n - 1);
      Readings(types, buf, n - 1) + (if Readable(t) then [Reading(n - 1, pos, ValueAt(t, buf, pos))] else [])
  }

  lemma ReadsMore(types: seq<Type>, buf: seq<Byte>, n: nat, before: seq<Reading>, r: Reading)
    requires 0 < n <= |types| && ReadsAll(types, buf, n - 1, before)
    requires r.line == n - 1 && ReadsLine(types, buf, r)
    ensures ReadsAll(types, buf, n, before + [r])
  {
    hide ReadsLine, Readable;
    var all := before + [r];
    assert all[|before|] == r && r in all;
    assert forall x | x in before :: x in all;
    assert forall j | 0 <= j < |before| :: all[j] == before[j];
  }

  lemma ReadsSame(types: seq<Type>, buf: seq<Byte>, n: nat, before: seq<Reading>)
    requires 0 < n <= |types| && ReadsAll(types, buf, n - 1, before) && !Readable(types[n - 1])
    ensures ReadsAll(types, buf, n, before)
  {
    hide ReadsLine, Readable;
  }

  lemma {:induction false} ReadingsRead(types: seq<Type>, buf: seq<Byte>, n: nat)
    requires n <= |types| && AllInside(types, buf)
    ensures ReadsAll(types, buf, n, Readings(types, buf, n))
  {
    if n > 0 {
      var before, t, pos := Readings(types, buf, n - 1), types[n - 1], Cursor(types, n - 1);
      ReadingsRead(types, buf, n - 1);
      if Readable(t) {
        ValueSays(t, buf, pos);
        hide Says, Cursor, ValueAt, Readable, ReadsAll;
        ReadsMore(types, buf, n, before, Reading(n - 1, pos, ValueAt(t, buf, pos)));
      } else {
        hide Readable, ReadsAll;
        ReadsSame(types, buf, n, before);
        assert before + [] == before;
      }
    }
  }

  /** A file is read once; `visited` holds those read already. */
  method ReadData(types: seq<Type>, buf: seq<Byte>, file: int, visited: set<int>)
    returns (r: Result<seq<Reading>>, visited': set<int>)
    ensures visited' == visited + {file}
    ensures file in visited ==> r == Err(Duplicate)
    ensures file !in visited && !AllInside(types, buf) ==> r.Err? && exists i :: FirstFault(types, buf, i, r.error)
    ensures file !in visited && AllInside(types, buf) ==> r.Ok? && ReadsAll(types, buf, |types|, r.value)
  {
    hide CutAtNul;
    visited' := visited + {file};
    if file in visited {
      return Err(Duplicate), visited';
    }
    var pos := 0;
    var res: seq<Reading> := [];
    for i := 0 to |types|
      invariant pos == Cursor(types, i)
      invariant forall j | 0 <= j < i :: Fault(types, buf, j) == None
      invariant AllInside(types, buf) ==> res == Readings(types, buf, i)
    {
      var t := types[i];
      if t == CounterType(8) || t == LevelType(8, Signed) || t == LevelType(8, FloatLevel) {
        if pos + 8 > |buf| {
          FaultIsFirst(types, buf, i);
          return Err(Io), visited';
        }
        var b := buf[pos..pos + 8];
        var value := if t.CounterType? then CounterBytes(b)
                     else if t.level == Signed then IntegerBytes(b) else FloatBytes(b);
        res := res + [Reading(i, pos, value)];
        pos := pos + 8;
      } else if t.StateType? && t.n > 8 {
        if pos + 8 > |buf| {
          FaultIsFirst(types, buf, i);
          return Err(Io), visited';
        }
        var end := pos + 8 + t.n - 8;
        if |buf| < end {
          FaultIsFirst(types, buf, i);
          return Err(UnexpectedEof), visited';
        }
        res := res + [Reading(i, pos, StateText(buf[pos..pos + 8], CutAtNul(buf[pos + 8..end])))];
        pos := pos + 8 + (t.n - 8);
      } else {
        pos := pos + t.n;
      }
    }
    NoFault(types, buf);
    ReadingsRead(types, buf, |types|);
    r := Ok(res);
  }

  // ---------------------------------------------------------------- agreement with the writer

  /** The line that describes value `i`. */
  function LineOf(values: seq<Item>, i: nat): nat
    requires Sorted(values) && i < |values|
    ensures |Scheme(values, i + 1)| > 0
  {
    |Scheme(values, i + 1)| - 1
  }

  lemma {:induction false} SchemeGrows(values: seq<Item>, i: nat, n: nat)
    requires Sorted(values) && i <= n <= |values|
    ensures |Scheme(values, i)| <= |Scheme(values, n)|
    ensures Scheme(values, i) == Scheme(values, n)[..|Scheme(values, i)|]
    decreases n
  {
    hide PaddingAt, Sorted;
    if i < n {
      SchemeGrows(values, i, n - 1);
      assert Scheme(values, n - 1) <= Scheme(values, n);
    }
  }

  lemma {:induction false} CursorOfPrefix(lines: seq<Line>, k: nat, i: nat)
    requires i <= k <= |lines|
    ensures Cursor(TypesOf(lines[..k]), i) == Cursor(TypesOf(lines), i)
    decreases i
  {
    if i > 0 {
      CursorOfPrefix(lines, k, i - 1);
    }
  }

  lemma CursorLast(lines: seq<Line>, l: Line)
    ensures Cursor(TypesOf(lines + [l]), |lines| + 1) == Cursor(TypesOf(lines), |lines|) + WrittenType(l).n
    ensures Cursor(TypesOf(lines + [l]), |lines|) == Cursor(TypesOf(lines), |lines|)
  {
    assert (lines + [l])[..|lines|] == lines;
    CursorOfPrefix(lines + [l], |lines|, |lines|);
  }

  /** Walking the lines of the first `n` values ends where the writer's offset does. */
  lemma {:induction false} WalkReachesEnd(values: seq<Item>, n: nat)
    requires Sorted(values) && n <= |values|
    ensures Cursor(TypesOf(Scheme(values, n)), |Scheme(values, n)|) == End(values, n)
    ensures n > 0 ==> Cursor(TypesOf(Scheme(values, n)), |Scheme(values, n)| - 1) == Offset(values, n - 1)
    ensures n > 0 ==> Scheme(values, n)[|Scheme(values, n)| - 1] == Entry(values[n - 1])
    decreases n
  {
    hide *;
    if n == 0 {
      NothingLaidOut(values);
      CursorStart();
    } else {
      var before, pad := Scheme(values, n - 1), Offset(values, n - 1) - End(values, n - 1);
      WalkReachesEnd(values, n - 1);
      SchemeStep(values, n - 1);
      EndStep(values, n - 1);
      WalkStep(before, pad, values[n - 1]);
    }
  }

  lemma CursorStart()
    ensures Cursor(TypesOf([]), 0) == 0
  {}

  lemma WalkStep(before: seq<Line>, pad: nat, v: Item)
    ensures var lines := before + (if pad > 0 then [Pad(pad)] else []) + [Entry(v)];
      && lines[|lines| - 1] == Entry(v)
      && Cursor(TypesOf(lines), |lines| - 1) == Cursor(TypesOf(before), |before|) + pad
      && Cursor(TypesOf(lines), |lines|) == Cursor(TypesOf(before), |before|) + pad + v.size
  {
    hide Cursor, TypesOf;
    if pad > 0 {
      CursorLast(before, Pad(pad));
      CursorLast(before + [Pad(pad)], Entry(v));
    } else {
      assert before + [] == before;
      CursorLast(before, Entry(v));
    }
  }

  /** The reader's cursor reaches every value exactly where the writer put it. */
  lemma CursorMeetsOffset(values: seq<Item>, i: nat)
    requires Sorted(values) && i < |values|
    ensures var lines := Scheme(values, |values|);
      && LineOf(values, i) < |lines| && lines[LineOf(values, i)] == Entry(values[i])
      && Cursor(TypesOf(lines), LineOf(values, i)) == Offset(values, i)
  {
    var lines, k := Scheme(values, |values|), |Scheme(values, i + 1)|;
    WalkReachesEnd(values, i + 1);
    SchemeGrows(values, i + 1, |values|);
    CursorOfPrefix(lines, k, k - 1);
    hide Scheme, Cursor, Offset, End, Sorted;
  }

  lemma {:induction false} CursorMonotone(types: seq<Type>, i: nat, j: nat)
    requires i <= j <= |types|
    ensures Cursor(types, i) <= Cursor(types, j)
    decreases j
  {
    if i < j {
      CursorMonotone(types, i, j - 1);
    }
  }

  /** On a file of the size the writer made, the reader never runs past the end. */
  lemma WholeFileReads(values: seq<Item>, buf: seq<Byte>)
    requires Sorted(values) && |buf| == End(values, |values|)
    ensures AllInside(TypesOf(Scheme(values, |values|)), buf)
  {
    var types := TypesOf(Scheme(values, |values|));
    WalkReachesEnd(values, |values|);
    hide Scheme, End, Offset, Sorted;
    forall i | 0 <= i < |types| ensures Cursor(types, i) + types[i].n <= |buf| {
      CursorMonotone(types, i + 1, |types|);
    }
  }

  /** A value of that kind with these bytes; a state is a time and a text up to its first NUL. */
  predicate SaysItem(kind: MmapLayout.Kind, bytes: seq<Byte>, v: Value)
    requires |bytes| >= 8
  {
    match kind
    case CounterValue => v == CounterBytes(bytes)
    case FloatValue => v == FloatBytes(bytes)
    case IntegerValue => v == IntegerBytes(bytes)
    case StateValue => v.StateText? && v.time == bytes[..8] && UpToNul(bytes[8..], v.text)
  }

  /** Every value but a state without room for a text. */
  predicate HasReading(v: Item) {
    v.kind != StateValue || v.size > 8
  }

  lemma ItemIsReadable(v: Item)
    requires Declared(v)
    ensures v.size >= 8 && (HasReading(v) <==> Readable(WrittenType(Entry(v))))
  {}

  lemma SaysIsItem(v: Item, bytes: seq<Byte>, value: Value)
    requires Declared(v) && HasReading(v) && |bytes| == v.size
    requires Readable(WrittenType(Entry(v))) && Says(WrittenType(Entry(v)), bytes, value)
    ensures SaysItem(v.kind, bytes, value)
  {}

  /**
   Exactly one reading is of value `i`, at its offset, and it says what the bytes of its own range say;
   none is of a state without room for a text.
   */
  ghost predicate ReadsValue(values: seq<Item>, i: nat, buf: seq<Byte>, readings: seq<Reading>)
    requires Sorted(values) && i < |values|
    requires values[i].size >= 8 && Offset(values, i) + values[i].size <= |buf|
  {
    var start := Offset(values, i);
    && Increasing(readings)
    && if HasReading(values[i])
       then exists r | r in readings ::
              && r.line == LineOf(values, i) && r.start == start
              && SaysItem(values[i].kind, buf[start..start + values[i].size], r.value)
       else forall r | r in readings :: r.line != LineOf(values, i)
  }

  lemma SortedSizes(values: seq<Item>, i: nat)
    requires Sorted(values) && i < |values|
    ensures Declared(values[i]) && values[i].size >= 8
  {
    assert values[i] in values;
  }

  /** Every value is read from the very range the writer gave it. */
  lemma ReadWhereWritten(values: seq<Item>, buf: seq<Byte>, i: nat, readings: seq<Reading>)
    requires Sorted(values) && |buf| == End(values, |values|) && i < |values|
    requires var types := TypesOf(Scheme(values, |values|)); ReadsAll(types, buf, |types|, readings)
    ensures values[i].size >= 8 && Offset(values, i) + values[i].size <= |buf|
    ensures ReadsValue(values, i, buf, readings)
  {
    hide Scheme, Offset, End, Sorted, Says, Readable, Cursor, LineOf, ReadsAll, ReadsValue, Declared, HasReading;
    var types, line := TypesOf(Scheme(values, |values|)), LineOf(values, i);
    CursorMeetsOffset(values, i);
    RangeInFile(values, i);
    SortedSizes(values, i);
    ItemIsReadable(values[i]);
    assert types[line] == WrittenType(Entry(values[i])) && types[line].n == values[i].size;
    hide *;
    if HasReading(values[i]) {
      LineIsRead(types, buf, readings, line);
      var r :| r in readings && r.line == line && ReadsLine(types, buf, r);
      LineSays(types, buf, r);
      SaysIsItem(values[i], buf[r.start..r.start + values[i].size], r.value);
      ValueIsRead(values, i, buf, readings, r);
    } else {
      LineIsSkipped(types, buf, readings, line);
      ValueIsSkipped(values, i, buf, readings);
    }
  }

  lemma LineIsSkipped(types: seq<Type>, buf: seq<Byte>, readings: seq<Reading>, line: nat)
    requires ReadsAll(types, buf, |types|, readings) && line < |types| && !Readable(types[line])
    ensures Increasing(readings) && forall r | r in readings :: r.line != line
  {
    hide Readable, Says;
    forall r | r in readings ensures r.line != line {
      var j :| 0 <= j < |readings| && readings[j] == r;
      assert ReadsLine(types, buf, readings[j]);
    }
  }

  lemma ValueIsSkipped(values: seq<Item>, i: nat, buf: seq<Byte>, readings: seq<Reading>)
    requires Sorted(values) && i < |values| && values[i].size >= 8 && !HasReading(values[i])
    requires Offset(values, i) + values[i].size <= |buf| && Increasing(readings)
    requires forall r | r in readings :: r.line != LineOf(values, i)
    ensures ReadsValue(values, i, buf, readings)
  {
    hide Offset, Sorted, LineOf, SaysItem;
  }

  lemma LineIsRead(types: seq<Type>, buf: seq<Byte>, readings: seq<Reading>, line: nat)
    requires ReadsAll(types, buf, |types|, readings) && line < |types| && Readable(types[line])
    ensures exists r :: r in readings && r.line == line && ReadsLine(types, buf, r)
    ensures Increasing(readings)
  {
    hide ReadsLine, Readable;
    var r :| r in readings && r.line == line;
    var j :| 0 <= j < |readings| && readings[j] == r;
    assert ReadsLine(types, buf, readings[j]);
  }

  lemma LineSays(types: seq<Type>, buf: seq<Byte>, r: Reading)
    requires ReadsLine(types, buf, r)
    ensures r.line < |types| && Readable(types[r.line])
    ensures r.start == Cursor(types, r.line) && r.start + types[r.line].n <= |buf|
    ensures Says(types[r.line], buf[r.start..r.start + types[r.line].n], r.value)
  {}

  lemma ValueIsRead(values: seq<Item>, i: nat, buf: seq<Byte>, readings: seq<Reading>, r: Reading)
    requires Sorted(values) && i < |values| && values[i].size >= 8 && HasReading(values[i])
    requires Offset(values, i) + values[i].size <= |buf| && Increasing(readings) && r in readings
    requires r.line == LineOf(values, i) && r.start == Offset(values, i)
    requires SaysItem(values[i].kind, buf[r.start..r.start + values[i].size], r.value)
    ensures ReadsValue(values, i, buf, readings)
  {
    hide SaysItem, Offset, Sorted, LineOf, HasReading;
  }

  predicate Accepts(l: Line) {
    LineError(MetaOf(l)) == None
  }

  lemma AcceptsIs(v: Item, pad: nat)
    requires Declared(v)
    ensures Accepts(Entry(v)) <==> v.size <= 65535
    ensures Accepts(Pad(pad)) <==> pad <= 65535
  {}

  /**
   The metadata can be read back exactly when no value is longer than a 16-bit length; the padding
   never is then.
   */
  lemma {:induction false} MetadataFits(values: seq<Item>, n: nat)
    requires Sorted(values) && n <= |values|
    ensures (forall l | l in Scheme(values, n) :: Accepts(l)) <==> (forall i | 0 <= i < n :: values[i].size <= 65535)
    decreases n
  {
    if n > 0 {
      MetadataFits(values, n - 1);
      var v, before := values[n - 1], Scheme(values, n - 1);
      assert v in values && Declared(v);
      var pad := PaddingAt(values, End(values, n - 1), n - 1);
      PaddingBounds(End(values, n - 1), v.size);
      AcceptsIs(v, pad);
      hide Padding, End, Offset, Sorted, Accepts;
      var added := (if pad > 0 then [Pad(pad)] else []) + [Entry(v)];
      assert Scheme(values, n) == before + added;
      assert forall l :: l in Scheme(values, n) <==> l in before || l in added;
      assert Entry(v) in added;
      if v.size <= 65535 {
        assert forall l | l in added :: Accepts(l);
      }
    }
  }

  // ---------------------------------------------------------------- text states

  /** Bytes written at the front of a region; a slice assignment stops at its end. */
  function Overwrite(region: seq<Byte>, chunk: seq<Byte>): seq<Byte>
    requires |chunk| <= |region|
  {
    chunk + region[|chunk|..]
  }

  function CutToSize(text: seq<Byte>, size: nat): seq<Byte> {
    if |text| <= size then text else text[..size]
  }

  /** `State.enter`: the time, then the text cut to size, with a final NUL where there is room. */
  method Enter(region: seq<Byte>, time: seq<Byte>, encoded: seq<Byte>) returns (r: seq<Byte>)
    requires |region| >= 8 && |time| == 8
    ensures |r| == |region| && r[..8] == time
    ensures forall t :: UpToNul(r[8..], t) <==> UpToNul(CutToSize(encoded, |region| - 8), t)
  {
    var size := |region| - 8;
    var text := encoded;
    if |encoded| < size {
      text := text + [0];
    } else if |encoded| > size {
      text := text[..size];
    }
    var chunk := time + text;
    r := Overwrite(region, chunk);
    assert r[8..] == text + region[|chunk|..];
    if |encoded| < size {
      NulEnds(encoded, region[|chunk|..]);
    } else {
      assert text + region[|chunk|..] == text;
    }
    forall t ensures UpToNul(r[8..], t) <==> UpToNul(CutToSize(encoded, size), t) {
      CutIsUpToNul(r[8..], t);
      CutIsUpToNul(CutToSize(encoded, size), t);
    }
  }

  /** Whatever older text follows a NUL is not read. */
  lemma NulEnds(text: seq<Byte>, rest: seq<Byte>)
    ensures CutAtNul(text + [0] + rest) == CutAtNul(text)
  {
    var all := text + [0] + rest;
    assert all[|text|] == 0;
    var i, j := FirstNul(all), FirstNul(text);
    assert forall k | 0 <= k < |text| :: all[k] == text[k];
    assert i == j;
    assert all[..i] == text[..j];
  }

  // ---------------------------------------------------------------- from the writer to the reader

  /** The file with other bytes from `start` on. */
  function Patched(file: seq<Byte>, start: nat, bytes: seq<Byte>): seq<Byte>
    requires start + |bytes| <= |file|
  {
    file[..start] + bytes + file[start + |bytes|..]
  }

  lemma PatchedApart(file: seq<Byte>, start: nat, bytes: seq<Byte>, a: nat, b: nat)
    requires start + |bytes| <= |file| && a <= b <= |file| && (b <= start || start + |bytes| <= a)
    ensures Patched(file, start, bytes)[a..b] == file[a..b]
  {}

  /** Bytes written to the range of value `i` leave the range of every other value alone. */
  lemma OthersStay(values: seq<Item>, i: nat, j: nat, file: seq<Byte>, bytes: seq<Byte>)
    requires Sorted(values) && i < |values| && j < |values| && i != j && |file| == End(values, |values|)
    requires |bytes| == values[i].size
    ensures Offset(values, i) + |bytes| <= |file| && Offset(values, j) + values[j].size <= |file|
    ensures var a, b := Offset(values, j), Offset(values, j) + values[j].size;
      Patched(file, Offset(values, i), bytes)[a..b] == file[a..b]
  {
    hide *;
    RangeInFile(values, i);
    RangeInFile(values, j);
    if i < j {
      RangesDisjoint(values, i, j);
    } else {
      RangesDisjoint(values, j, i);
    }
    PatchedApart(file, Offset(values, i), bytes, Offset(values, j), Offset(values, j) + values[j].size);
  }

  /** What holds of a value's own bytes holds of every file with those bytes there. */
  lemma SameBytesRead(values: seq<Item>, j: nat, file: seq<Byte>, file': seq<Byte>, readings: seq<Reading>)
    requires Sorted(values) && j < |values| && values[j].size >= 8
    requires Offset(values, j) + values[j].size <= |file| == |file'| && ReadsValue(values, j, file', readings)
    requires var a, b := Offset(values, j), Offset(values, j) + values[j].size; file'[a..b] == file[a..b]
    ensures ReadsValue(values, j, file, readings)
  {
    hide SaysItem, Offset, Sorted, LineOf, HasReading;
  }

  lemma StateIsRead(values: seq<Item>, i: nat, file: seq<Byte>, readings: seq<Reading>, time: seq<Byte>,
                    text: seq<Byte>)
    requires Sorted(values) && i < |values| && values[i].kind == StateValue && values[i].size > 8
    requires Offset(values, i) + values[i].size <= |file| && ReadsValue(values, i, file, readings)
    requires var region := file[Offset(values, i)..Offset(values, i) + values[i].size];
      region[..8] == time && forall t :: UpToNul(region[8..], t) <==> UpToNul(text, t)
    ensures exists t ::
      UpToNul(text, t) && Reading(LineOf(values, i), Offset(values, i), StateText(time, t)) in readings
  {
    hide Offset, Sorted, LineOf, UpToNul;
    var start := Offset(values, i);
    var r :| r in readings && r.line == LineOf(values, i) && r.start == start
      && SaysItem(StateValue, file[start..start + values[i].size], r.value);
    assert r == Reading(r.line, start, StateText(time, r.value.text));
  }

  /**
   A state entered in its range of the file and then read back: the reader finds the time and the text,
   cut to size and at its first NUL, whatever was there before, and every other value as it was.
   */
  method EnterAndRead(values: seq<Item>, i: nat, file: seq<Byte>, time: seq<Byte>, encoded: seq<Byte>)
    returns (file': seq<Byte>, r: Result<seq<Reading>>)
    requires Sorted(values) && |file| == End(values, |values|) && i < |values|
    requires values[i].kind == StateValue && |time| == 8
    ensures |file'| == |file| && r.Ok?
    ensures values[i].size > 8 ==>
      exists t ::
        && UpToNul(CutToSize(encoded, values[i].size - 8), t)
        && Reading(LineOf(values, i), Offset(values, i), StateText(time, t)) in r.value
    ensures Increasing(r.value)
    ensures forall j | 0 <= j < |values| && j != i ::
      && values[j].size >= 8 && Offset(values, j) + values[j].size <= |file|
      && ReadsValue(values, j, file, r.value)
  {
    hide Scheme, Offset, End, LineOf, ReadsAll, ReadsValue, UpToNul;
    assert values[i] in values;
    RangeInFile(values, i);
    var start, size := Offset(values, i), values[i].size;
    var region := Enter(file[start..start + size], time, encoded);
    file' := Patched(file, start, region);
    assert file'[start..start + size] == region;
    var types := TypesOf(Scheme(values, |values|));
    WholeFileReads(values, file');
    var visited;
    r, visited := ReadData(types, file', 0, {});
    ReadingsIncrease(types, file', r.value);
    hide *;
    forall j | 0 <= j < |values| && j != i
      ensures values[j].size >= 8 && Offset(values, j) + values[j].size <= |file|
      ensures ReadsValue(values, j, file, r.value)
    {
      ReadWhereWritten(values, file', j, r.value);
      OthersStay(values, i, j, file, region);
      SameBytesRead(values, j, file, file', r.value);
    }
    if size > 8 {
      ReadWhereWritten(values, file', i, r.value);
      StateIsRead(values, i, file', r.value, time, CutToSize(encoded, size - 8));
    }
  }

  lemma ReadingsIncrease(types: seq<Type>, buf: seq<Byte>, readings: seq<Reading>)
    requires ReadsAll(types, buf, |types|, readings)
    ensures Increasing(readings)
  {}
}
