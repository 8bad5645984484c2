/** The scan layer on raw cells, and why replaying a recording scans like the original rows.
    Destinations are values of an arbitrary type `D`; how a cell is converted and stored is an
    arbitrary function, so nothing here depends on the conversion rules. */
module Scan {
  import opened Wrappers
  import opened Varints
  import opened Codec

  type Row = seq<Cell>

  datatype ScanError =
    | NoRows
    | ColumnNotFound(col: Bytes)
    | UnsupportedTarget
    | BadTypeInfo
    | Conversion(code: int)
    | Source(code: int)

  type Find = Bytes -> Option<nat>
  type Assign<!D> = (D, nat, Cell) -> Result<D, ScanError>

  /** What a row of results is scanned into. A struct's `fast` fields the driver can write itself,
      by a conversion of its own. */
  datatype Shape<!D> =
    | BadStruct
    | StructShape(find: Find, assign: Assign<D>, fast: nat -> bool, direct: Assign<D>)
    | MapShape(stringKeys: bool, put: (D, Bytes, Cell) -> D)
    | ScalarShape(store: (D, Cell) -> Result<D, ScanError>)

  /** What a query yields: columns or an error, rows, the first row the driver cannot scan, and
      the error that Err() reports after the first row and at the end of the iteration; and
      whether the source takes recordings, as a replay and the cache's wrapper do. */
  datatype Feed = Feed(
    cols: Result<seq<Bytes>, ScanError>,
    rows: seq<Row>,
    bad: Option<nat>,
    early: Option<ScanError>,
    end: Option<ScanError>,
    recorder: bool)

  predicate Regular(f: Feed) {
    f.cols.Ok? ==> forall row <- f.rows :: |row| == |f.cols.value|
  }

  // ----- one row -----

  /** The struct fields from column `i` on. */
  function FieldsFrom<D>(shape: Shape<D>, cols: seq<Bytes>, row: Row, strict: bool, d: D, i: nat): Result<D, ScanError>
    requires shape.StructShape? && |row| == |cols| && i <= |cols|
    decreases |cols| - i
  {
    if i == |cols| then Ok(d) else
      match shape.find(cols[i])
      case None => if strict then Err(ColumnNotFound(cols[i])) else FieldsFrom(shape, cols, row, strict, d, i + 1)
      case Some(idx) =>
        match shape.assign(d, idx, row[i])
        case Err(e) => Err(e)
        case Ok(d') => FieldsFrom(shape, cols, row, strict, d', i + 1)
  }

  function EntriesFrom<D>(shape: Shape<D>, cols: seq<Bytes>, row: Row, d: D, i: nat): D
    requires shape.MapShape? && |row| == |cols| && i <= |cols|
    decreases |cols| - i
  {
    if i == |cols| then d else EntriesFrom(shape, cols, row, shape.put(d, cols[i], row[i]), i + 1)
  }

  /** The error a target reports before it reads any cell. */
  function Refusal<D>(shape: Shape<D>, cols: seq<Bytes>): Option<ScanError> {
    match shape
    case BadStruct => Some(BadTypeInfo)
    case StructShape(_, _, _, _) => None
    case MapShape(stringKeys, _) => if stringKeys then None else Some(UnsupportedTarget)
    case ScalarShape(_) => if |cols| == 1 then None else Some(UnsupportedTarget)
  }

  /** Converting the raw cells of a row, behind a recorder. */
  function Convert<D>(shape: Shape<D>, cols: seq<Bytes>, row: Row, strict: bool, zero: D): Result<D, ScanError>
    requires |row| == |cols| && Refusal(shape, cols).None?
  {
    match shape
    case StructShape(_, _, _, _) => FieldsFrom(shape, cols, row, strict, zero, 0)
    case MapShape(_, _) => Ok(EntriesFrom(shape, cols, row, zero, 0))
    case ScalarShape(store) => store(zero, row[0])
  }

  // ----- one row without a recorder -----

  function Only(find: Find, keep: nat -> bool): Find {
    (col: Bytes) => if find(col).Some? && keep(find(col).value) then find(col) else None
  }

  function Slow(fast: nat -> bool): nat -> bool { (idx: nat) => !fast(idx) }

  /** The fields the driver writes, and the others. */
  function Quick<D>(shape: Shape<D>): Shape<D>
    requires shape.StructShape?
  {
    shape.(find := Only(shape.find, shape.fast), assign := shape.direct)
  }

  function Rest<D>(shape: Shape<D>): Shape<D>
    requires shape.StructShape?
  {
    shape.(find := Only(shape.find, Slow(shape.fast)))
  }

  /** The first column from `i` on that has no field, or -1. */
  function UnknownFrom(cols: seq<Bytes>, find: Find, i: nat): (j: int)
    requires i <= |cols|
    ensures j == -1 || (i <= j < |cols| && find(cols[j]).None?)
    ensures forall k | i <= k < (if j >= 0 then j else |cols|) :: find(cols[k]).Some?
    decreases |cols| - i
  {
    if i == |cols| then -1 else if find(cols[i]).None? then i else UnknownFrom(cols, find, i + 1)
  }

  /** The error for a column without a field. */
  function Unknown<D>(shape: Shape<D>, cols: seq<Bytes>, strict: bool): Option<ScanError> {
    if !shape.StructShape? || !strict || UnknownFrom(cols, shape.find, 0) < 0 then None
    else Some(ColumnNotFound(cols[UnknownFrom(cols, shape.find, 0)]))
  }

  /** First the driver converts into the fields it can write, then the others are converted. */
  function DirectFields<D>(shape: Shape<D>, cols: seq<Bytes>, row: Row, d: D): Result<D, ScanError>
    requires shape.StructShape? && |row| == |cols|
  {
    match FieldsFrom(Quick(shape), cols, row, false, d, 0)
    case Err(e) => Err(e)
    case Ok(next) => FieldsFrom(Rest(shape), cols, row, false, next, 0)
  }

  function ConvertPlain<D>(shape: Shape<D>, cols: seq<Bytes>, row: Row, strict: bool, zero: D): Result<D, ScanError>
    requires |row| == |cols| && Refusal(shape, cols).None?
  {
    if !shape.StructShape? then Convert(shape, cols, row, strict, zero)
    else if Unknown(shape, cols, strict).Some? then Err(Unknown(shape, cols, strict).value)
    else DirectFields(shape, cols, row, zero)
  }

  /** scanOneValue on row `i`: its result, and the row if a recorder was told of it. Behind a
      recorder the raw row is read first; a struct without one has its names looked up first. */
  function ScanAt<D>(f: Feed, shape: Shape<D>, strict: bool, zero: D, i: nat): (Result<D, ScanError>, seq<Row>)
    requires Regular(f) && f.cols.Ok? && i < |f.rows|
  {
    var cols := f.cols.value;
    if Refusal(shape, cols).Some? then (Err(Refusal(shape, cols).value), [])
    else if f.recorder then
      if f.bad == Some(i) then (Err(Source(0)), [])
      else (Convert(shape, cols, f.rows[i], strict, zero), [f.rows[i]])
    else if f.bad == Some(i) then
      (Err(if Unknown(shape, cols, strict).Some? then Unknown(shape, cols, strict).value else Source(0)), [])
    else (ConvertPlain(shape, cols, f.rows[i], strict, zero), [])
  }

  /** The same value, or an error both times. */
  predicate Alike<T(==)>(a: Result<T, ScanError>, b: Result<T, ScanError>) { if a.Ok? then b == a else b.Err? }

  // ----- one row or all rows -----

  /** The scan's result, and what the recorder holds afterwards. */
  datatype Scanned<T> = Scanned(result: Result<T, ScanError>, cols: seq<Bytes>, rows: seq<Row>)

  function ScanOneSpec<D>(f: Feed, shape: Shape<D>, strict: bool, zero: D): Scanned<D>
    requires Regular(f)
  {
    match f.cols
    case Err(e) => Scanned(Err(e), [], [])
    case Ok(cols) =>
      if f.rows == [] then Scanned(Err(if f.end.Some? then f.end.value else NoRows), cols, [])
      else
        var (r, rec) := ScanAt(f, shape, strict, zero, 0);
        Scanned(if r.Ok? && f.early.Some? then Err(f.early.value) else r, cols, rec)
  }

  function SliceFrom<D>(f: Feed, shape: Shape<D>, strict: bool, zero: D, i: nat): (Result<seq<D>, ScanError>, seq<Row>)
    requires Regular(f) && f.cols.Ok? && i <= |f.rows|
    decreases |f.rows| - i
  {
    if i == |f.rows| then (if f.end.Some? then Err(f.end.value) else Ok([]), [])
    else
      var (r, rec) := ScanAt(f, shape, strict, zero, i);
      if r.Err? then (Err(r.error), rec)
      else
        var (rest, more) := SliceFrom(f, shape, strict, zero, i + 1);
        (if rest.Err? then rest else Ok([r.value] + rest.value), rec + more)
  }

  function ScanSliceSpec<D>(f: Feed, shape: Shape<D>, strict: bool, zero: D): Scanned<seq<D>>
    requires Regular(f)
  {
    match f.cols
    case Err(e) => Scanned(Err(e), [], [])
    case Ok(cols) =>
      var (r, rec) := SliceFrom(f, shape, strict, zero, 0);
      Scanned(r, cols, rec)
  }

  /** The target may refuse the row unseen; then an unreadable row is an error, behind the error for
      a column that a struct scanned without a recorder has no field for; and otherwise the recorder,
      if there is one, gets the row. */
  lemma RowExactly<D>(f: Feed, shape: Shape<D>, strict: bool, zero: D, i: nat)
    requires Regular(f) && f.cols.Ok? && i < |f.rows|
    ensures var cols, row, (r, rec) := f.cols.value, f.rows[i], ScanAt(f, shape, strict, zero, i);
      var unsupported := (shape.MapShape? && !shape.stringKeys) || (shape.ScalarShape? && |cols| != 1);
      if shape.BadStruct? then r == Err(BadTypeInfo) && rec == []
      else if unsupported then r == Err(UnsupportedTarget) && rec == []
      else
        && rec == (if f.recorder && f.bad != Some(i) then [row] else [])
        && (f.bad == Some(i) ==>
          if !f.recorder && shape.StructShape? && strict && exists k :: 0 <= k < |cols| && shape.find(cols[k]).None?
          then r.Err? && FirstUnknown(cols, shape.find, r.error)
          else r == Err(Source(0)))
        && (f.bad != Some(i) && shape.ScalarShape? ==> r == shape.store(zero, row[0]))
        && (f.bad != Some(i) && shape.MapShape? ==> r.Ok?)
  {}

  ghost predicate FirstUnknown(cols: seq<Bytes>, find: Find, e: ScanError) {
    exists k :: && 0 <= k < |cols| && find(cols[k]).None? && e == ColumnNotFound(cols[k])
      && forall j | 0 <= j < k :: find(cols[j]).Some?
  }

  /** A one-row scan succeeds with the first row when that scans and the source has no error to
      report behind it; without a row it gives the source's error, or says that there is none. */
  lemma OneExactly<D>(f: Feed, shape: Shape<D>, strict: bool, zero: D)
    requires Regular(f) && f.cols.Ok?
    ensures var r := ScanOneSpec(f, shape, strict, zero).result;
      if f.rows == [] then r == Err(if f.end.Some? then f.end.value else NoRows)
      else
        var row := ScanAt(f, shape, strict, zero, 0).0;
        r == if row.Ok? && f.early.Some? then Err(f.early.value) else row
    ensures var s := ScanOneSpec(f, shape, strict, zero);
      s.cols == f.cols.value && s.rows == if f.rows == [] then [] else ScanAt(f, shape, strict, zero, 0).1
  { hide ScanAt, Regular; }

  /** A slice scan succeeds if and only if every row scans and the source ends without an error,
      with one value per row in order; otherwise it gives the error of the first row that fails,
      or the source's. */
  lemma {:induction false} SliceExactly<D>(f: Feed, shape: Shape<D>, strict: bool, zero: D, i: nat)
    requires Regular(f) && f.cols.Ok? && i <= |f.rows|
    ensures var r := SliceFrom(f, shape, strict, zero, i).0;
      && (r.Ok? <==> f.end.None? && forall k | i <= k < |f.rows| :: ScanAt(f, shape, strict, zero, k).0.Ok?)
      && (r.Ok? ==> |r.value| == |f.rows| - i)
      && (r.Ok? ==> forall k | i <= k < |f.rows| :: ScanAt(f, shape, strict, zero, k).0 == Ok(r.value[k - i]))
      && ((forall k | i <= k < |f.rows| :: ScanAt(f, shape, strict, zero, k).0.Ok?) && r.Err? ==>
          f.end == Some(r.error))
      && forall k | i <= k < |f.rows| && FirstError(f, shape, strict, zero, i, k) ::
          ScanAt(f, shape, strict, zero, k).0 == Err(r.error)
    decreases |f.rows| - i
  {
    hide ScanAt, Regular;
    if i < |f.rows| { SliceExactly(f, shape, strict, zero, i + 1); }
  }

  /** What a recorder takes from the rows `i` to `k`. */
  function Taken(f: Feed, i: nat, k: nat): seq<Row>
    requires i <= k <= |f.rows|
  {
    if f.recorder then f.rows[i..k] else []
  }

  /** What a slice scan records, when `k` is the first row that fails or the number of rows: the rows
      before, and that row if it was read. */
  lemma {:induction false} SliceRecords<D>(f: Feed, shape: Shape<D>, strict: bool, zero: D, i: nat, k: nat)
    requires Regular(f) && f.cols.Ok? && i <= k <= |f.rows|
    requires forall j | i <= j < k :: ScanAt(f, shape, strict, zero, j).0.Ok?
    requires k < |f.rows| ==> ScanAt(f, shape, strict, zero, k).0.Err?
    ensures SliceFrom(f, shape, strict, zero, i).1 ==
      Taken(f, i, k) + if k < |f.rows| then ScanAt(f, shape, strict, zero, k).1 else []
    decreases k - i
  {
    if i < k {
      hide ScanAt, SliceFrom, Regular, Taken;
      RecordTurn(f, shape, strict, zero, i);
      SliceRecords(f, shape, strict, zero, i + 1, k);
      TakenMore(f, i, k);
    } else {
      hide ScanAt, Regular;
      TakenNone(f, i);
    }
  }

  lemma {:induction false} RecordTurn<D>(f: Feed, shape: Shape<D>, strict: bool, zero: D, i: nat)
    requires Regular(f) && f.cols.Ok? && i < |f.rows|
    ensures var (r, rec) := ScanAt(f, shape, strict, zero, i);
      SliceFrom(f, shape, strict, zero, i).1 ==
        if r.Err? then rec else Taken(f, i, i + 1) + SliceFrom(f, shape, strict, zero, i + 1).1
  {
    RowExactly(f, shape, strict, zero, i);
    hide ScanAt, Regular;
  }

  lemma TakenMore(f: Feed, i: nat, k: nat)
    requires i < k <= |f.rows|
    ensures Taken(f, i, k) == Taken(f, i, i + 1) + Taken(f, i + 1, k)
  {}

  lemma TakenNone(f: Feed, i: nat)
    requires i <= |f.rows|
    ensures Taken(f, i, i) == []
  {}

  ghost predicate FirstError<D>(f: Feed, shape: Shape<D>, strict: bool, zero: D, i: nat, k: nat)
    requires Regular(f) && f.cols.Ok? && i <= k < |f.rows|
  {
    && ScanAt(f, shape, strict, zero, k).0.Err?
    && forall j | i <= j < k :: ScanAt(f, shape, strict, zero, j).0.Ok?
  }

  // ----- the scanning loops -----

  /** A row source: the query's rows, bare or behind the recording wrapper, or a replay, whose
      recording hook does nothing. */
  class RowSource {
    const feed: Feed
    const records: bool
    var idx: nat
    var ended: bool
    var cols: seq<Bytes>
    var rows: seq<Row>

    ghost predicate Valid()
      reads this
    {
      Regular(feed) && idx <= |feed.rows| && (records ==> feed.recorder)
    }

    constructor (feed: Feed, records: bool)
      requires Regular(feed) && (records ==> feed.recorder)
      ensures Valid() && this.feed == feed && this.records == records && idx == 0 && !ended && cols == [] && rows == []
    {
      this.feed, this.records, idx, ended, cols, rows := feed, records, 0, false, [], [];
    }

    method Columns() returns (r: Result<seq<Bytes>, ScanError>)
      modifies this`cols
      ensures r == feed.cols
      ensures cols == if records && r.Ok? then r.value else old(cols)
    {
      r := feed.cols;
      if records && r.Ok? { cols := r.value; }
    }

    method Next() returns (more: bool)
      requires Valid()
      modifies this`idx, this`ended
      ensures Valid() && more == (old(idx) < |feed.rows|)
      ensures idx == old(idx) + (if more then 1 else 0) && ended == !more
    {
      more := idx < |feed.rows|;
      if more { idx := idx + 1; }
      ended := !more;
    }

    /** scanRawRow */
    method Raw() returns (r: Result<Row, ScanError>)
      requires Valid() && idx > 0
      ensures r == if feed.bad == Some(idx - 1) then Err(Source(0)) else Ok(feed.rows[idx - 1])
    {
      r := if feed.bad == Some(idx - 1) then Err(Source(0)) else Ok(feed.rows[idx - 1]);
    }

    method RecordRow(row: Row)
      modifies this`rows
      ensures rows == old(rows) + if records then [row] else []
    {
      if records { rows := rows + [row]; }
    }

    method LastError() returns (e: Option<ScanError>)
      ensures e == if ended then feed.end else feed.early
    {
      e := if ended then feed.end else feed.early;
    }
  }

  method ScanStruct<D>(shape: Shape<D>, cols: seq<Bytes>, row: Row, strict: bool, zero: D)
      returns (r: Result<D, ScanError>)
    requires shape.StructShape? && |row| == |cols|
    ensures r == FieldsFrom(shape, cols, row, strict, zero, 0)
  {
    var d := zero;
    for i := 0 to |cols|
      invariant FieldsFrom(shape, cols, row, strict, zero, 0) == FieldsFrom(shape, cols, row, strict, d, i)
    {
      var idx := shape.find(cols[i]);
      if idx.None? {
        if strict { return Err(ColumnNotFound(cols[i])); }
        continue;
      }
      var next := shape.assign(d, idx.value, row[i]);
      if next.Err? { return next; }
      d := next.value;
    }
    r := Ok(d);
  }

  method SetMapRow<D>(shape: Shape<D>, cols: seq<Bytes>, row: Row, zero: D) returns (d: D)
    requires shape.MapShape? && |row| == |cols|
    ensures d == EntriesFrom(shape, cols, row, zero, 0)
  {
    d := zero;
    for i := 0 to |cols|
      invariant EntriesFrom(shape, cols, row, zero, 0) == EntriesFrom(shape, cols, row, d, i)
    {
      d := shape.put(d, cols[i], row[i]);
    }
  }

  /** Where the driver puts a cell: nowhere, into a field it knows, or into a slot for later. */
  datatype Dest = Discard | Into(idx: nat) | Slot

  function DestOf<D>(shape: Shape<D>, col: Bytes): Dest
    requires shape.StructShape?
  {
    match shape.find(col)
    case None => Discard
    case Some(idx) => if shape.fast(idx) then Into(idx) else Slot
  }

  /** The columns from `i` on that go to a slot. */
  function SlowCols<D>(shape: Shape<D>, cols: seq<Bytes>, i: nat): (ks: seq<nat>)
    requires shape.StructShape? && i <= |cols|
    ensures forall k <- ks :: k < |cols| && shape.find(cols[k]).Some?
    decreases |cols| - i
  {
    if i == |cols| then []
    else if DestOf(shape, cols[i]).Slot? then [i] + SlowCols(shape, cols, i + 1)
    else SlowCols(shape, cols, i + 1)
  }

  /** Converting the slots of some columns. */
  function SlotsFrom<D>(shape: Shape<D>, cols: seq<Bytes>, row: Row, ks: seq<nat>, d: D): Result<D, ScanError>
    requires shape.StructShape? && |row| == |cols| && forall k <- ks :: k < |cols| && shape.find(cols[k]).Some?
  {
    if ks == [] then Ok(d) else
      assert ks[0] in ks;
      match shape.assign(d, shape.find(cols[ks[0]]).value, row[ks[0]])
      case Err(e) => Err(e)
      case Ok(next) => SlotsFrom(shape, cols, row, ks[1..], next)
  }

  lemma {:induction false} SlotsAre<D>(shape: Shape<D>, cols: seq<Bytes>, row: Row, d: D, i: nat)
    requires shape.StructShape? && |row| == |cols| && i <= |cols|
    ensures SlotsFrom(shape, cols, row, SlowCols(shape, cols, i), d) ==
      FieldsFrom(Rest(shape), cols, row, false, d, i)
    decreases |cols| - i
  {
    if i < |cols| {
      if DestOf(shape, cols[i]).Slot? {
        assert Rest(shape).find(cols[i]) == shape.find(cols[i]);
        var next := shape.assign(d, shape.find(cols[i]).value, row[i]);
        if next.Ok? { SlotsAre(shape, cols, row, next.value, i + 1); }
      } else {
        assert Rest(shape).find(cols[i]) == None;
        SlotsAre(shape, cols, row, d, i + 1);
      }
    }
  }

  /** The driver's Scan into fields it knows and slots it leaves raw. */
  method DriverScan<D>(shape: Shape<D>, cols: seq<Bytes>, dests: seq<Dest>, row: Row, zero: D)
      returns (r: Result<D, ScanError>)
    requires shape.StructShape? && |row| == |cols| == |dests|
    requires forall k | 0 <= k < |cols| :: dests[k] == DestOf(shape, cols[k])
    ensures r == FieldsFrom(Quick(shape), cols, row, false, zero, 0)
  {
    var d := zero;
    for i := 0 to |cols|
      invariant FieldsFrom(Quick(shape), cols, row, false, zero, 0) == FieldsFrom(Quick(shape), cols, row, false, d, i)
    {
      if dests[i].Into? {
        var next := shape.direct(d, dests[i].idx, row[i]);
        if next.Err? { return next; }
        d := next.value;
      }
    }
    r := Ok(d);
  }

  ghost predicate SlotsFound<D>(shape: Shape<D>, cols: seq<Bytes>, slowCols: seq<nat>, slowIdx: seq<nat>)
    requires shape.StructShape?
  {
    && |slowIdx| == |slowCols|
    && forall k | 0 <= k < |slowCols| :: slowCols[k] < |cols| && shape.find(cols[slowCols[k]]) == Some(slowIdx[k])
  }

  method ConvertSlots<D>(shape: Shape<D>, cols: seq<Bytes>, row: Row, slowCols: seq<nat>, slowIdx: seq<nat>, first: D)
      returns (r: Result<D, ScanError>)
    requires shape.StructShape? && |row| == |cols| && SlotsFound(shape, cols, slowCols, slowIdx)
    ensures r == SlotsFrom(shape, cols, row, slowCols, first)
  {
    var d := first;
    for k := 0 to |slowCols|
      invariant SlotsFrom(shape, cols, row, slowCols, first) == SlotsFrom(shape, cols, row, slowCols[k..], d)
    {
      var next := shape.assign(d, slowIdx[k], row[slowCols[k]]);
      if next.Err? { return next; }
      d := next.value;
      assert slowCols[k..][1..] == slowCols[k + 1..];
    }
    r := Ok(d);
  }

  /** The names of a struct's columns, looked up before the driver's Scan. */
  method FindDests<D>(shape: Shape<D>, cols: seq<Bytes>, strict: bool)
      returns (e: Option<ScanError>, dests: seq<Dest>, slowCols: seq<nat>, slowIdx: seq<nat>)
    requires shape.StructShape?
    ensures e == Unknown(shape, cols, strict)
    ensures e.None? ==>
      && |dests| == |cols| && (forall k | 0 <= k < |cols| :: dests[k] == DestOf(shape, cols[k]))
      && slowCols == SlowCols(shape, cols, 0) && SlotsFound(shape, cols, slowCols, slowIdx)
  {
    dests, slowCols, slowIdx := [], [], [];
    for i := 0 to |cols|
      invariant |dests| == i && forall k | 0 <= k < i :: dests[k] == DestOf(shape, cols[k])
      invariant strict ==> UnknownFrom(cols, shape.find, 0) == UnknownFrom(cols, shape.find, i)
      invariant slowCols + SlowCols(shape, cols, i) == SlowCols(shape, cols, 0)
      invariant SlotsFound(shape, cols, slowCols, slowIdx)
    {
      var idx := shape.find(cols[i]);
      if idx.None? {
        if strict { return Some(ColumnNotFound(cols[i])), dests, slowCols, slowIdx; }
        dests := dests + [Discard];
      } else if shape.fast(idx.value) {
        dests := dests + [Into(idx.value)];
      } else {
        ghost var more := SlowCols(shape, cols, i + 1);
        assert slowCols + ([i] + more) == (slowCols + [i]) + more;
        dests, slowCols, slowIdx := dests + [Slot], slowCols + [i], slowIdx + [idx.value];
      }
    }
    e := None;
  }

  /** scanStructRow on a source that takes no recordings. */
  method ScanDirect<D>(rs: RowSource, shape: Shape<D>, cols: seq<Bytes>, strict: bool, zero: D)
      returns (r: Result<D, ScanError>)
    requires shape.StructShape? && rs.Valid() && rs.idx > 0 && rs.feed.cols == Ok(cols) && !rs.feed.recorder
    ensures r == ScanAt(rs.feed, shape, strict, zero, rs.idx - 1).0
  {
    var e, dests, slowCols, slowIdx := FindDests(shape, cols, strict);
    if e.Some? { return Err(e.value); }
    var raw := rs.Raw();
    if raw.Err? { return Err(raw.error); }
    hide FieldsFrom, SlowCols, SlotsFrom, DestOf, UnknownFrom;
    r := DriverScan(shape, cols, dests, raw.value, zero);
    if r.Err? { return; }
    SlotsAre(shape, cols, raw.value, r.value, 0);
    r := ConvertSlots(shape, cols, raw.value, slowCols, slowIdx, r.value);
  }

  /** scanOneValue on the current row. */
  method ScanOneValue<D>(rs: RowSource, shape: Shape<D>, cols: seq<Bytes>, strict: bool, zero: D)
      returns (r: Result<D, ScanError>)
    requires rs.Valid() && rs.idx > 0 && rs.feed.cols == Ok(cols)
    modifies rs`rows
    ensures r == ScanAt(rs.feed, shape, strict, zero, rs.idx - 1).0
    ensures rs.rows == old(rs.rows) + if rs.records then ScanAt(rs.feed, shape, strict, zero, rs.idx - 1).1 else []
  {
    hide FieldsFrom, EntriesFrom, DirectFields, UnknownFrom;
    var refused := Refusal(shape, cols);
    if refused.Some? { return Err(refused.value); }
    if shape.StructShape? && !rs.feed.recorder {
      r := ScanDirect(rs, shape, cols, strict, zero);
      return;
    }
    var raw := rs.Raw();
    if raw.Err? { return Err(raw.error); }
    if rs.feed.recorder { rs.RecordRow(raw.value); }
    match shape {
      case StructShape(_, _, _, _) => r := ScanStruct(shape, cols, raw.value, strict, zero);
      case MapShape(_, _) =>
        var d := SetMapRow(shape, cols, raw.value, zero);
        r := Ok(d);
      case ScalarShape(store) => r := store(zero, raw.value[0]);
    }
  }

  method ScanOne<D>(rs: RowSource, shape: Shape<D>, strict: bool, zero: D) returns (r: Result<D, ScanError>)
    requires rs.Valid() && rs.idx == 0 && rs.cols == [] && rs.rows == []
    modifies rs
    ensures var s := ScanOneSpec(rs.feed, shape, strict, zero);
      r == s.result && (rs.records ==> rs.cols == s.cols && rs.rows == s.rows)
  {
    var cols := rs.Columns();
    if cols.Err? { return Err(cols.error); }
    var more := rs.Next();
    if !more {
      var e := rs.LastError();
      return Err(if e.Some? then e.value else NoRows);
    }
    r := ScanOneValue(rs, shape, cols.value, strict, zero);
    if r.Err? { return; }
    var e := rs.LastError();
    if e.Some? { return Err(e.value); }
  }

  /** Results already collected in front of those still to come. */
  function After<D>(out: seq<D>, rest: Result<seq<D>, ScanError>): Result<seq<D>, ScanError> {
    if rest.Err? then rest else Ok(out + rest.value)
  }

  /** What the loop has collected and recorded when row `i` is next. */
  ghost predicate Progress<D>(f: Feed, shape: Shape<D>, strict: bool, zero: D, i: nat, out: seq<D>, rows: seq<Row>)
    requires Regular(f) && f.cols.Ok? && i <= |f.rows|
  {
    var (whole, all) := SliceFrom(f, shape, strict, zero, 0);
    var (rest, more) := SliceFrom(f, shape, strict, zero, i);
    After(out, rest) == whole && rows + more == all
  }

  lemma {:induction false} ProgressStart<D>(f: Feed, shape: Shape<D>, strict: bool, zero: D)
    requires Regular(f) && f.cols.Ok?
    ensures Progress(f, shape, strict, zero, 0, [], [])
  {
    var (whole, all) := SliceFrom(f, shape, strict, zero, 0);
    hide SliceFrom;
    if whole.Ok? { assert [] + whole.value == whole.value; }
    assert [] + all == all;
  }

  lemma {:induction false} ProgressTurn<D>(f: Feed, shape: Shape<D>, strict: bool, zero: D, i: nat, out: seq<D>,
                                           rows: seq<Row>)
    requires Regular(f) && f.cols.Ok? && i < |f.rows| && Progress(f, shape, strict, zero, i, out, rows)
    ensures var (r, rec) := ScanAt(f, shape, strict, zero, i);
      var (whole, all) := SliceFrom(f, shape, strict, zero, 0);
      if r.Err? then whole == Err(r.error) && all == rows + rec
      else Progress(f, shape, strict, zero, i + 1, out + [r.value], rows + rec)
  {
    SliceTurn(f, shape, strict, zero, i);
    hide ScanAt, SliceFrom, Regular;
    var (r, rec) := ScanAt(f, shape, strict, zero, i);
    var (rest, more) := SliceFrom(f, shape, strict, zero, i + 1);
    if r.Ok? {
      if rest.Ok? { Assoc(out, [r.value], rest.value); }
      Assoc(rows, rec, more);
    }
  }

  lemma Assoc<T>(a: seq<T>, b: seq<T>, c: seq<T>)
    ensures a + (b + c) == (a + b) + c
  {}

  lemma SliceTurn<D>(f: Feed, shape: Shape<D>, strict: bool, zero: D, i: nat)
    requires Regular(f) && f.cols.Ok? && i < |f.rows|
    ensures var (r, rec) := ScanAt(f, shape, strict, zero, i);
      var (rest, more) := SliceFrom(f, shape, strict, zero, i + 1);
      SliceFrom(f, shape, strict, zero, i) ==
      if r.Err? then (Err(r.error), rec)
      else (if rest.Err? then rest else Ok([r.value] + rest.value), rec + more)
  { hide ScanAt, Regular; }

  lemma {:induction false} ProgressEnd<D>(f: Feed, shape: Shape<D>, strict: bool, zero: D, out: seq<D>, rows: seq<Row>)
    requires Regular(f) && f.cols.Ok? && Progress(f, shape, strict, zero, |f.rows|, out, rows)
    ensures SliceFrom(f, shape, strict, zero, 0) == (if f.end.Some? then Err(f.end.value) else Ok(out), rows)
  { assert out + [] == out && rows + [] == rows; }

  /** scanOneValue on the k-th row, as a turn of the loop. */
  method ScanTurn<D>(rs: RowSource, shape: Shape<D>, cols: seq<Bytes>, strict: bool, zero: D, ghost k: nat,
                     ghost out: seq<D>, ghost rows: seq<Row>)
      returns (ev: Result<D, ScanError>, ghost more: seq<Row>)
    requires rs.Valid() && rs.idx == k + 1 && rs.feed.cols == Ok(cols) && (rs.records ==> rs.rows == rows)
    requires Progress(rs.feed, shape, strict, zero, k, out, rows)
    modifies rs`rows
    ensures rs.records ==> rs.rows == more
    ensures ev.Err? ==> SliceFrom(rs.feed, shape, strict, zero, 0) == (Err(ev.error), more)
    ensures ev.Ok? ==> Progress(rs.feed, shape, strict, zero, k + 1, out + [ev.value], more)
  {
    ProgressTurn(rs.feed, shape, strict, zero, k, out, rows);
    more := rows + ScanAt(rs.feed, shape, strict, zero, k).1;
    hide ScanAt, SliceFrom, Progress, Regular, Refusal, After;
    ev := ScanOneValue(rs, shape, cols, strict, zero);
  }

  /** The loop over the rows. */
  method ScanRows<D>(rs: RowSource, shape: Shape<D>, cols: seq<Bytes>, strict: bool, zero: D)
      returns (r: Result<seq<D>, ScanError>)
    requires rs.Valid() && rs.idx == 0 && rs.rows == [] && rs.feed.cols == Ok(cols)
    modifies rs`idx, rs`ended, rs`rows
    ensures r == SliceFrom(rs.feed, shape, strict, zero, 0).0
    ensures rs.records ==> rs.rows == SliceFrom(rs.feed, shape, strict, zero, 0).1
  {
    ghost var f := rs.feed;
    assert Regular(f);
    hide ScanAt, SliceFrom, Progress, Regular, Refusal, After;
    var out: seq<D> := [];
    ghost var rows: seq<Row>, k := [], 0;
    ProgressStart(f, shape, strict, zero);
    var more := rs.Next();
    while more
      invariant rs.Valid() && rs.ended == !more && k <= |f.rows|
      invariant rs.idx == k + (if more then 1 else 0) && (!more ==> k == |f.rows|)
      invariant Progress(f, shape, strict, zero, k, out, rows)
      invariant rs.records ==> rs.rows == rows
      decreases |f.rows| - k
    {
      var ev: Result<D, ScanError>;
      ev, rows := ScanTurn(rs, shape, cols, strict, zero, k, out, rows);
      if ev.Err? { return Err(ev.error); }
      out := out + [ev.value];
      k := k + 1;
      more := rs.Next();
    }
    ProgressEnd(f, shape, strict, zero, out, rows);
    var e := rs.LastError();
    if e.Some? { return Err(e.value); }
    r := Ok(out);
  }

  method ScanSlice<D>(rs: RowSource, shape: Shape<D>, strict: bool, zero: D) returns (r: Result<seq<D>, ScanError>)
    requires rs.Valid() && rs.idx == 0 && rs.cols == [] && rs.rows == []
    modifies rs
    ensures var s := ScanSliceSpec(rs.feed, shape, strict, zero);
      r == s.result && (rs.records ==> rs.cols == s.cols && rs.rows == s.rows)
  {
    var cols := rs.Columns();
    if cols.Err? { return Err(cols.error); }
    r := ScanRows(rs, shape, cols.value, strict, zero);
  }

  // ----- a hit scans like the miss that recorded it -----

  /** The source a cache hit replays. */
  function Replay(cols: seq<Bytes>, rows: seq<Row>): Feed { Feed(Ok(cols), rows, None, None, None, true) }

  /** A scan through the recorder that ran clean has recorded every row it read. */
  lemma {:induction false} CleanRecords<D>(f: Feed, shape: Shape<D>, strict: bool, zero: D, i: nat)
    requires Regular(f) && f.recorder && f.cols.Ok? && i <= |f.rows| && SliceFrom(f, shape, strict, zero, i).0.Ok?
    ensures SliceFrom(f, shape, strict, zero, i).1 == f.rows[i..]
    ensures f.end.None? && (f.bad.Some? ==> !(i <= f.bad.value < |f.rows|))
    decreases |f.rows| - i
  {
    if i < |f.rows| {
      CleanRow(f, shape, strict, zero, i);
      CleanRecords(f, shape, strict, zero, i + 1);
      hide ScanAt, Regular;
      assert f.rows[i..] == [f.rows[i]] + f.rows[i + 1..];
    }
  }

  lemma CleanRow<D>(f: Feed, shape: Shape<D>, strict: bool, zero: D, i: nat)
    requires Regular(f) && f.recorder && f.cols.Ok? && i < |f.rows| && ScanAt(f, shape, strict, zero, i).0.Ok?
    ensures ScanAt(f, shape, strict, zero, i).1 == [f.rows[i]] && f.bad != Some(i)
  {}

  /** On a source without faults, a scan behind a recorder depends only on columns and rows. */
  lemma {:induction false} SliceReplay<D>(f: Feed, shape: Shape<D>, strict: bool, zero: D, i: nat)
    requires Regular(f) && f.recorder && f.cols.Ok? && i <= |f.rows| && f.end.None?
    requires f.bad.Some? ==> f.bad.value >= |f.rows|
    ensures var g := Replay(f.cols.value, f.rows);
      Regular(g) && SliceFrom(f, shape, strict, zero, i) == SliceFrom(g, shape, strict, zero, i)
    decreases |f.rows| - i
  {
    if i < |f.rows| { SliceReplay(f, shape, strict, zero, i + 1); }
  }

  /** Select: when a scan behind a recorder ran clean, whatever it scanned into, then scanning what
      it recorded into any target, under any strictness, gives the same value or error as scanning
      the original rows into that target behind a recorder. */
  lemma {:induction false} HitEqualsMissSlice<D, T>(f: Feed, shape: Shape<D>, strict: bool, zero: D, other: Shape<T>,
                                                    strict': bool, zero': T)
    requires Regular(f) && f.recorder && ScanSliceSpec(f, shape, strict, zero).result.Ok?
    ensures var rec := ScanSliceSpec(f, shape, strict, zero);
      && rec.rows == f.rows && Ok(rec.cols) == f.cols && Regular(Replay(rec.cols, rec.rows))
      && ScanSliceSpec(Replay(rec.cols, rec.rows), other, strict', zero').result
         == ScanSliceSpec(f, other, strict', zero').result
  {
    CleanRecords(f, shape, strict, zero, 0);
    SliceReplay(f, other, strict', zero', 0);
  }

  /** Get: the same for the first row, which is all a Get records. */
  lemma HitEqualsMissOne<D, T>(f: Feed, shape: Shape<D>, strict: bool, zero: D, other: Shape<T>, strict': bool,
                               zero': T)
    requires Regular(f) && f.recorder && ScanOneSpec(f, shape, strict, zero).result.Ok?
    ensures var rec := ScanOneSpec(f, shape, strict, zero);
      && f.rows != [] && rec.rows == [f.rows[0]] && Ok(rec.cols) == f.cols && Regular(Replay(rec.cols, rec.rows))
      && ScanOneSpec(Replay(rec.cols, rec.rows), other, strict', zero').result
         == ScanOneSpec(f, other, strict', zero').result
  {}
}
