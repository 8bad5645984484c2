/** The binary row codec of cache/codec.go: a tagged format over varints. */
module Codec {
  import opened Wrappers
  import opened Varints
  import Bits

  /** A raw cell value. A float is its IEEE bits; a time is nanoseconds since the epoch and its
      zone's offset in seconds; `Other` stands for every type the codec does not support. */
  datatype Cell =
    | Null
    | Int64(n: i64)
    | Float(bits: u64)
    | Bool(b: bool)
    | Str(s: Bytes)
    | Blob(s: Bytes)
    | Time(nano: i64, offset: i64)
    | Other

  datatype RowData = RowData(columns: seq<Bytes>, rows: seq<seq<Cell>>)

  datatype Error = RowWidth | UnsupportedCell | InvalidHeader | UnexpectedEOF | BadVarint | UnknownTag | TrailingBytes

  const MAGIC0: byte := 0x52
  const MAGIC1: byte := 0x53
  const VERSION: byte := 1

  const CELL_NULL: byte := 0
  const CELL_INT64: byte := 1
  const CELL_FLOAT: byte := 2
  const CELL_BOOL: byte := 3
  const CELL_STR: byte := 4
  const CELL_BYTES: byte := 5
  const CELL_TIME: byte := 6

  // ----- the format -----

  /** `k` bytes, least significant first. */
  function LittleEndian(v: nat, k: nat): (r: Bytes)
    ensures |r| == k
  {
    if k == 0 then [] else [v % 256] + LittleEndian(v / 256, k - 1)
  }

  function FromLittleEndian(bs: Bytes): nat {
    if bs == [] then 0 else bs[0] + 256 * FromLittleEndian(bs[1..])
  }

  /** Go's integer division, which truncates toward zero. */
  function Quotient(a: int, b: int): int
    requires b > 0
  {
    if a >= 0 then a / b else -((-a) / b)
  }

  function Minutes(offset: i64): i64 { Quotient(offset, 60) }

  /** int64 multiplication by sixty, with wrap-around. */
  function Seconds(minutes: i64): i64 { ToI64(60 * minutes % TWO64) }

  function Chunk(s: Bytes): Bytes { Uvarint(|s|) + s }

  function CellBytes(v: Cell): Bytes
    requires !v.Other?
  {
    match v
    case Null => [CELL_NULL]
    case Int64(n) => [CELL_INT64] + Varint(n)
    case Float(bits) => [CELL_FLOAT] + LittleEndian(bits, 8)
    case Bool(b) => [CELL_BOOL, if b then 1 else 0]
    case Str(s) => [CELL_STR] + Chunk(s)
    case Blob(s) => [CELL_BYTES] + Chunk(s)
    case Time(nano, offset) => [CELL_TIME] + Varint(nano) + Varint(Minutes(offset))
  }

  predicate Supported(row: seq<Cell>) { forall v <- row :: !v.Other? }

  function ColumnsBytes(cols: seq<Bytes>): Bytes {
    if cols == [] then [] else Chunk(cols[0]) + ColumnsBytes(cols[1..])
  }

  function RowBytes(row: seq<Cell>): Bytes
    requires Supported(row)
  {
    if row == [] then [] else CellBytes(row[0]) + RowBytes(row[1..])
  }

  predicate Encodable(rd: RowData) {
    forall row <- rd.rows :: |row| == |rd.columns| && Supported(row)
  }

  function RowsBytes(rows: seq<seq<Cell>>): Bytes
    requires forall row <- rows :: Supported(row)
  {
    if rows == [] then [] else RowBytes(rows[0]) + RowsBytes(rows[1..])
  }

  function Body(rd: RowData): Bytes
    requires Encodable(rd)
  {
    Uvarint(|rd.columns|) + (ColumnsBytes(rd.columns) + (Uvarint(|rd.rows|) + RowsBytes(rd.rows)))
  }

  function Encoded(rd: RowData): Bytes
    requires Encodable(rd)
  {
    [MAGIC0, MAGIC1, VERSION] + Body(rd)
  }

  // ----- reading it -----

  function ReadRaw(bs: Bytes, n: nat): Result<Parsed<Bytes>, Error> {
    if n > |bs| then Err(UnexpectedEOF) else Ok(Parsed(bs[..n], bs[n..]))
  }

  /** A length-prefixed chunk. `int(l)` of a length beyond int64 is negative and an error,
      as is any length beyond the input. */
  function ReadChunk(bs: Bytes): Result<Parsed<Bytes>, Error> {
    match ReadUvarint(bs)
    case None => Err(BadVarint)
    case Some(p) => if p.value >= TWO63 then Err(UnexpectedEOF) else ReadRaw(p.rest, p.value)
  }

  function ReadCell(bs: Bytes): Result<Parsed<Cell>, Error> {
    if bs == [] then Err(UnexpectedEOF) else
      var tag, r := bs[0], bs[1..];
      if tag == CELL_NULL then Ok(Parsed(Null, r))
      else if tag == CELL_INT64 then
        (match ReadVarint(r) case None => Err(BadVarint) case Some(p) => Ok(Parsed(Int64(p.value), p.rest)))
      else if tag == CELL_FLOAT then
        (match ReadRaw(r, 8)
         case Err(e) => Err(e)
         case Ok(p) => EightBytes(p.value); Ok(Parsed(Float(FromLittleEndian(p.value)), p.rest)))
      else if tag == CELL_BOOL then
        if r == [] then Err(UnexpectedEOF) else Ok(Parsed(Bool(r[0] != 0), r[1..]))
      else if tag == CELL_STR then
        (match ReadChunk(r) case Err(e) => Err(e) case Ok(p) => Ok(Parsed(Str(p.value), p.rest)))
      else if tag == CELL_BYTES then
        (match ReadChunk(r) case Err(e) => Err(e) case Ok(p) => Ok(Parsed(Blob(p.value), p.rest)))
      else if tag == CELL_TIME then
        (match ReadVarint(r)
         case None => Err(BadVarint)
         case Some(nano) =>
           match ReadVarint(nano.rest)
           case None => Err(BadVarint)
           case Some(off) => Ok(Parsed(Time(nano.value, Seconds(off.value)), off.rest)))
      else Err(UnknownTag)
  }

  lemma {:induction false} LittleEndianBound(bs: Bytes, k: nat, bound: nat)
    requires |bs| == k && bound == Pow256(k)
    ensures FromLittleEndian(bs) < bound
  {
    if k > 0 { LittleEndianBound(bs[1..], k - 1, Pow256(k - 1)); }
  }

  function Pow256(k: nat): nat { if k == 0 then 1 else 256 * Pow256(k - 1) }

  lemma {:induction false} EightBytes(bs: Bytes)
    ensures |bs| == 8 ==> FromLittleEndian(bs) < TWO64
  {
    assert Pow256(4) == 256 * 256 * 256 * 256;
    assert Pow256(8) == 256 * 256 * 256 * 256 * Pow256(4);
    if |bs| == 8 { LittleEndianBound(bs, 8, Pow256(8)); }
  }

  function ReadColumns(bs: Bytes, n: nat): Result<Parsed<seq<Bytes>>, Error>
    decreases n
  {
    if n == 0 then Ok(Parsed([], bs)) else
      match ReadChunk(bs)
      case Err(e) => Err(e)
      case Ok(p) =>
        match ReadColumns(p.rest, n - 1)
        case Err(e) => Err(e)
        case Ok(q) => Ok(Parsed([p.value] + q.value, q.rest))
  }

  function ReadRow(bs: Bytes, width: nat): Result<Parsed<seq<Cell>>, Error>
    decreases width
  {
    if width == 0 then Ok(Parsed([], bs)) else
      match ReadCell(bs)
      case Err(e) => Err(e)
      case Ok(p) =>
        match ReadRow(p.rest, width - 1)
        case Err(e) => Err(e)
        case Ok(q) => Ok(Parsed([p.value] + q.value, q.rest))
  }

  function ReadRows(bs: Bytes, width: nat, n: nat): Result<Parsed<seq<seq<Cell>>>, Error>
    decreases n
  {
    if n == 0 then Ok(Parsed([], bs)) else
      match ReadRow(bs, width)
      case Err(e) => Err(e)
      case Ok(p) =>
        match ReadRows(p.rest, width, n - 1)
        case Err(e) => Err(e)
        case Ok(q) => Ok(Parsed([p.value] + q.value, q.rest))
  }

  function ReadBody(bs: Bytes): Result<Parsed<RowData>, Error> {
    match ReadUvarint(bs)
    case None => Err(BadVarint)
    case Some(nCols) =>
      match ReadColumns(nCols.rest, nCols.value)
      case Err(e) => Err(e)
      case Ok(cols) =>
        match ReadUvarint(cols.rest)
        case None => Err(BadVarint)
        case Some(nRows) =>
          match ReadRows(nRows.rest, nCols.value, nRows.value)
          case Err(e) => Err(e)
          case Ok(rows) => Ok(Parsed(RowData(cols.value, rows.value), rows.rest))
  }

  function Decoded(data: Bytes): Result<RowData, Error> {
    if |data| < 3 || data[0] != MAGIC0 || data[1] != MAGIC1 || data[2] != VERSION then Err(InvalidHeader)
    else match ReadBody(data[3..])
      case Err(e) => Err(e)
      case Ok(p) => if p.rest != [] then Err(TrailingBytes) else Ok(p.value)
  }

  // ----- round trip -----

  /** Lengths a Go program can have. */
  predicate Sized(s: Bytes) { |s| < TWO63 }

  predicate CellSized(v: Cell) {
    (v.Str? || v.Blob?) ==> Sized(v.s)
  }

  predicate RowsSized(rows: seq<seq<Cell>>) {
    forall row <- rows :: forall v <- row :: CellSized(v)
  }

  predicate DataSized(rd: RowData) {
    && |rd.columns| < TWO64 && |rd.rows| < TWO64
    && (forall c <- rd.columns :: Sized(c)) && RowsSized(rd.rows)
  }

  /** What survives the codec: the seconds of a zone offset that are not whole minutes do not. */
  function Kept(v: Cell): Cell {
    if v.Time? then Time(v.nano, Seconds(Minutes(v.offset))) else v
  }

  function KeptRow(row: seq<Cell>): seq<Cell> { seq(|row|, i requires 0 <= i < |row| => Kept(row[i])) }

  function KeptData(rd: RowData): RowData {
    RowData(rd.columns, KeptRows(rd.rows))
  }

  predicate WholeMinutes(v: Cell) { v.Time? ==> v.offset % 60 == 0 }

  lemma KeptExactly(v: Cell)
    ensures Kept(v) == v <==> WholeMinutes(v)
  {}

  lemma {:induction false} LittleEndianBack(v: nat, k: nat)
    requires v < Pow256(k)
    ensures FromLittleEndian(LittleEndian(v, k)) == v
  {
    if k > 0 {
      LittleEndianBack(v / 256, k - 1);
      assert LittleEndian(v, k)[1..] == LittleEndian(v / 256, k - 1);
    }
  }

  lemma Cons(a: byte, s: Bytes, rest: Bytes)
    ensures ([a] + s) + rest == [a] + (s + rest)
    ensures ([a] + (s + rest))[1..] == s + rest
  {}

  lemma {:induction false} ChunkBack(s: Bytes, rest: Bytes)
    requires Sized(s)
    ensures ReadChunk(Chunk(s) + rest) == Ok(Parsed(s, rest))
  {
    assert Chunk(s) + rest == Uvarint(|s|) + (s + rest);
    UvarintRoundTrip(|s|, s + rest);
    assert (s + rest)[..|s|] == s && (s + rest)[|s|..] == rest;
  }

  lemma {:induction false} FloatBack(bits: u64, rest: Bytes)
    ensures ReadCell(CellBytes(Float(bits)) + rest) == Ok(Parsed(Float(bits), rest))
  {
    var le := LittleEndian(bits, 8);
    Cons(CELL_FLOAT, le, rest);
    assert (le + rest)[..8] == le && (le + rest)[8..] == rest;
    assert Pow256(4) == 256 * 256 * 256 * 256;
    assert Pow256(8) == 256 * 256 * 256 * 256 * Pow256(4);
    LittleEndianBack(bits, 8);
    hide LittleEndian, FromLittleEndian, Pow256;
  }

  lemma {:induction false} TimeBack(nano: i64, offset: i64, rest: Bytes)
    ensures ReadCell(CellBytes(Time(nano, offset)) + rest) == Ok(Parsed(Kept(Time(nano, offset)), rest))
  {
    hide Varint, ReadVarint, Minutes, Seconds;
    var a, b := Varint(nano), Varint(Minutes(offset));
    var bs := CellBytes(Time(nano, offset)) + rest;
    assert bs == [CELL_TIME] + (a + (b + rest));
    assert bs[1..] == a + (b + rest);
    VarintRoundTrip(nano, b + rest);
    VarintRoundTrip(Minutes(offset), rest);
  }

  lemma {:induction false} CellBack(v: Cell, rest: Bytes)
    requires !v.Other? && CellSized(v)
    ensures ReadCell(CellBytes(v) + rest) == Ok(Parsed(Kept(v), rest))
  {
    hide Varint, ReadVarint, Chunk, ReadChunk;
    match v {
      case Null =>
        assert ([CELL_NULL] + rest)[1..] == rest;
      case Int64(n) =>
        Cons(CELL_INT64, Varint(n), rest);
        VarintRoundTrip(n, rest);
      case Float(bits) =>
        FloatBack(bits, rest);
      case Bool(b) =>
        var x: byte := if b then 1 else 0;
        Cons(CELL_BOOL, [x], rest);
        assert ([x] + rest)[1..] == rest;
      case Str(s) =>
        Cons(CELL_STR, Chunk(s), rest);
        ChunkBack(s, rest);
      case Blob(s) =>
        Cons(CELL_BYTES, Chunk(s), rest);
        ChunkBack(s, rest);
      case Time(nano, offset) =>
        TimeBack(nano, offset, rest);
    }
  }

  lemma {:induction false} ColumnsBack(cols: seq<Bytes>, rest: Bytes)
    requires forall c <- cols :: Sized(c)
    ensures ReadColumns(ColumnsBytes(cols) + rest, |cols|) == Ok(Parsed(cols, rest))
  {
    hide Chunk, ReadChunk, Sized;
    if cols != [] {
      var more := ColumnsBytes(cols[1..]);
      assert (Chunk(cols[0]) + more) + rest == Chunk(cols[0]) + (more + rest);
      ChunkBack(cols[0], more + rest);
      ColumnsBack(cols[1..], rest);
      assert cols == [cols[0]] + cols[1..];
    } else {
      assert [] + rest == rest;
    }
  }

  lemma {:induction false} RowBack(row: seq<Cell>, rest: Bytes)
    requires Supported(row) && forall v <- row :: CellSized(v)
    ensures ReadRow(RowBytes(row) + rest, |row|) == Ok(Parsed(KeptRow(row), rest))
  {
    hide ReadCell, CellBytes, Kept, CellSized;
    if row != [] {
      var more := RowBytes(row[1..]);
      assert (CellBytes(row[0]) + more) + rest == CellBytes(row[0]) + (more + rest);
      CellBack(row[0], more + rest);
      RowBack(row[1..], rest);
      assert KeptRow(row) == [Kept(row[0])] + KeptRow(row[1..]);
    } else {
      assert [] + rest == rest && KeptRow([]) == [];
    }
  }

  function KeptRows(rows: seq<seq<Cell>>): seq<seq<Cell>> {
    seq(|rows|, i requires 0 <= i < |rows| => KeptRow(rows[i]))
  }

  lemma {:induction false} RowsBack(rows: seq<seq<Cell>>, width: nat, rest: Bytes)
    requires RowsSized(rows) && forall row <- rows :: |row| == width && Supported(row)
    ensures ReadRows(RowsBytes(rows) + rest, width, |rows|) == Ok(Parsed(KeptRows(rows), rest))
  {
    hide RowBytes, ReadRow, KeptRow;
    if rows != [] {
      assert rows[0] in rows && forall r <- rows[1..] :: r in rows;
      var more := RowsBytes(rows[1..]);
      assert (RowBytes(rows[0]) + more) + rest == RowBytes(rows[0]) + (more + rest);
      RowBack(rows[0], more + rest);
      RowsBack(rows[1..], width, rest);
      assert KeptRows(rows) == [KeptRow(rows[0])] + KeptRows(rows[1..]);
    } else {
      assert [] + rest == rest && KeptRows([]) == [];
    }
  }

  lemma {:induction false} BodyBack(rd: RowData, rest: Bytes)
    requires Encodable(rd) && DataSized(rd)
    ensures ReadBody(Body(rd) + rest) == Ok(Parsed(KeptData(rd), rest))
  {
    hide Uvarint, ReadUvarint, ColumnsBytes, ReadColumns, RowsBytes, ReadRows, KeptRows;
    var cols, rows := ColumnsBytes(rd.columns), RowsBytes(rd.rows);
    var c, r := Uvarint(|rd.columns|), Uvarint(|rd.rows|);
    assert Body(rd) + rest == c + (cols + (r + (rows + rest)));
    UvarintRoundTrip(|rd.columns|, cols + (r + (rows + rest)));
    ColumnsBack(rd.columns, r + (rows + rest));
    UvarintRoundTrip(|rd.rows|, rows + rest);
    RowsBack(rd.rows, |rd.columns|, rest);
  }

  /** Decoding an encoding returns the data, up to the odd seconds of zone offsets. */
  lemma {:induction false} RoundTrip(rd: RowData)
    requires Encodable(rd) && DataSized(rd)
    ensures Decoded(Encoded(rd)) == Ok(KeptData(rd))
  {
    hide ReadBody, Body, KeptData;
    var data := Encoded(rd);
    assert data[3..] == Body(rd) + [] by { assert Body(rd) + [] == Body(rd); }
    BodyBack(rd, []);
  }

  predicate AllWhole(rd: RowData) { forall row <- rd.rows :: forall v <- row :: WholeMinutes(v) }

  /** It returns exactly the data if and only if every zone offset is in whole minutes. */
  lemma {:induction false} RoundTripExact(rd: RowData)
    requires Encodable(rd) && DataSized(rd)
    ensures Decoded(Encoded(rd)) == Ok(rd) <==> AllWhole(rd)
  {
    RoundTrip(rd);
    KeptWhole(rd);
  }

  lemma {:induction false} KeptWhole(rd: RowData)
    ensures KeptData(rd) == rd <==> AllWhole(rd)
  {
    if AllWhole(rd) {
      forall i | 0 <= i < |rd.rows| ensures KeptRow(rd.rows[i]) == rd.rows[i] {
        assert rd.rows[i] in rd.rows;
        forall j | 0 <= j < |rd.rows[i]| ensures Kept(rd.rows[i][j]) == rd.rows[i][j] { KeptExactly(rd.rows[i][j]); }
      }
      assert KeptRows(rd.rows) == rd.rows;
    } else {
      var row :| row in rd.rows && !(forall v <- row :: WholeMinutes(v));
      var v :| v in row && !WholeMinutes(v);
      var i :| 0 <= i < |rd.rows| && rd.rows[i] == row;
      var j :| 0 <= j < |row| && row[j] == v;
      KeptExactly(v);
      assert KeptRow(row)[j] != row[j];
      assert KeptRows(rd.rows)[i] != row;
    }
  }

  // ----- no accepted input is the start of another -----

  /** A reader that stops inside `bs` gives the same on a longer input, leaving the tail. */
  ghost predicate Stops<T(!new)>(short: Result<Parsed<T>, Error>, long: Result<Parsed<T>, Error>, tail: Bytes) {
    short.Ok? ==> long == Ok(Parsed(short.value.value, short.value.rest + tail))
  }

  lemma {:induction false} UvarintStops(bs: Bytes, tail: Bytes)
    ensures ReadUvarint(bs).Some? ==>
      ReadUvarint(bs + tail) == Some(Parsed(ReadUvarint(bs).value.value, ReadUvarint(bs).value.rest + tail))
  { ReadLocal(bs, 0, tail); }

  lemma {:induction false} VarintStops(bs: Bytes, tail: Bytes)
    ensures ReadVarint(bs).Some? ==>
      ReadVarint(bs + tail) == Some(Parsed(ReadVarint(bs).value.value, ReadVarint(bs).value.rest + tail))
  { UvarintStops(bs, tail); }

  lemma {:induction false} RawStops(bs: Bytes, n: nat, tail: Bytes)
    ensures Stops(ReadRaw(bs, n), ReadRaw(bs + tail, n), tail)
  {
    if n <= |bs| {
      assert (bs + tail)[..n] == bs[..n] && (bs + tail)[n..] == bs[n..] + tail;
    }
  }

  lemma {:induction false} ChunkStops(bs: Bytes, tail: Bytes)
    ensures Stops(ReadChunk(bs), ReadChunk(bs + tail), tail)
  {
    UvarintStops(bs, tail);
    var p := ReadUvarint(bs);
    if p.Some? { RawStops(p.value.rest, p.value.value, tail); }
  }

  lemma {:induction false} CellStops(bs: Bytes, tail: Bytes)
    ensures Stops(ReadCell(bs), ReadCell(bs + tail), tail)
  {
    hide ReadVarint, ReadChunk, ReadRaw, FromLittleEndian;
    if bs != [] {
      var r := bs[1..];
      assert (bs + tail)[1..] == r + tail;
      VarintStops(r, tail);
      if ReadVarint(r).Some? { VarintStops(ReadVarint(r).value.rest, tail); }
      RawStops(r, 8, tail);
      ChunkStops(r, tail);
      if r != [] { assert (r + tail)[1..] == r[1..] + tail; }
    }
  }

  lemma {:induction false} ColumnsStop(bs: Bytes, n: nat, tail: Bytes)
    ensures Stops(ReadColumns(bs, n), ReadColumns(bs + tail, n), tail)
    decreases n
  {
    if n > 0 {
      ChunkStops(bs, tail);
      var p := ReadChunk(bs);
      if p.Ok? { ColumnsStop(p.value.rest, n - 1, tail); }
    }
  }

  lemma {:induction false} RowStops(bs: Bytes, width: nat, tail: Bytes)
    ensures Stops(ReadRow(bs, width), ReadRow(bs + tail, width), tail)
    decreases width
  {
    hide ReadCell;
    if width > 0 {
      CellStops(bs, tail);
      var p := ReadCell(bs);
      if p.Ok? { RowStops(p.value.rest, width - 1, tail); }
    }
  }

  lemma {:induction false} RowsStop(bs: Bytes, width: nat, n: nat, tail: Bytes)
    ensures Stops(ReadRows(bs, width, n), ReadRows(bs + tail, width, n), tail)
    decreases n
  {
    hide ReadRow;
    if n > 0 {
      RowStops(bs, width, tail);
      var p := ReadRow(bs, width);
      if p.Ok? { RowsStop(p.value.rest, width, n - 1, tail); }
    }
  }

  lemma {:induction false} BodyStops(bs: Bytes, tail: Bytes)
    ensures Stops(ReadBody(bs), ReadBody(bs + tail), tail)
  {
    hide ReadUvarint, ReadColumns, ReadRows;
    UvarintStops(bs, tail);
    var nCols := ReadUvarint(bs);
    if nCols.Some? {
      ColumnsStop(nCols.value.rest, nCols.value.value, tail);
      var cols := ReadColumns(nCols.value.rest, nCols.value.value);
      if cols.Ok? {
        UvarintStops(cols.value.rest, tail);
        var nRows := ReadUvarint(cols.value.rest);
        if nRows.Some? { RowsStop(nRows.value.rest, nCols.value.value, nRows.value.value, tail); }
      }
    }
  }

  /** Bytes behind an accepted input are trailing bytes. */
  lemma {:induction false} Trailing(data: Bytes, tail: Bytes)
    requires Decoded(data).Ok? && tail != []
    ensures Decoded(data + tail) == Err(TrailingBytes)
  {
    hide ReadBody;
    BodyStops(data[3..], tail);
    assert (data + tail)[3..] == data[3..] + tail;
    assert [] + tail == tail;
  }

  /** Of two accepted inputs, neither is a strict prefix of the other: no encoding decodes
      when bytes are cut off or added. */
  lemma {:induction false} PrefixFree(data: Bytes, tail: Bytes)
    requires Decoded(data).Ok? && Decoded(data + tail).Ok?
    ensures tail == []
  {
    if tail != [] { Trailing(data, tail); }
  }

  // ----- decoding normalises -----

  lemma {:induction false} ColumnsRead(bs: Bytes, n: nat)
    ensures ReadColumns(bs, n).Ok? ==>
      |ReadColumns(bs, n).value.value| == n && forall c <- ReadColumns(bs, n).value.value :: Sized(c)
    decreases n
  {
    if n > 0 && ReadChunk(bs).Ok? { ColumnsRead(ReadChunk(bs).value.rest, n - 1); }
  }

  lemma {:induction false} RowRead(bs: Bytes, width: nat)
    ensures ReadRow(bs, width).Ok? ==>
      var row := ReadRow(bs, width).value.value;
      |row| == width && Supported(row) && forall v <- row :: CellSized(v)
    decreases width
  {
    if width > 0 && ReadCell(bs).Ok? { RowRead(ReadCell(bs).value.rest, width - 1); }
  }

  lemma {:induction false} RowsRead(bs: Bytes, width: nat, n: nat)
    ensures ReadRows(bs, width, n).Ok? ==>
      var rows := ReadRows(bs, width, n).value.value;
      |rows| == n && RowsSized(rows) && forall row <- rows :: |row| == width && Supported(row)
    decreases n
  {
    hide ReadRow;
    if n > 0 {
      RowRead(bs, width);
      if ReadRow(bs, width).Ok? { RowsRead(ReadRow(bs, width).value.rest, width, n - 1); }
    }
  }

  lemma {:induction false} DecodedIsEncodable(data: Bytes)
    requires Decoded(data).Ok?
    ensures Encodable(Decoded(data).value) && DataSized(Decoded(data).value)
  {
    hide ReadUvarint, ReadColumns, ReadRows;
    var nCols := ReadUvarint(data[3..]).value;
    ColumnsRead(nCols.rest, nCols.value);
    var cols := ReadColumns(nCols.rest, nCols.value).value;
    var nRows := ReadUvarint(cols.rest).value;
    RowsRead(nRows.rest, nCols.value, nRows.value);
  }

  /** Whatever the codec accepts it re-encodes, and decoding that gives the same data again if
      and only if the zone offsets it read are whole minutes. */
  lemma {:induction false} Normalises(data: Bytes)
    requires Decoded(data).Ok?
    ensures Encodable(Decoded(data).value)
    ensures Decoded(Encoded(Decoded(data).value)) == Decoded(data) <==> AllWhole(Decoded(data).value)
  {
    DecodedIsEncodable(data);
    RoundTripExact(Decoded(data).value);
  }

  /** They are, unless a minute offset overflows when it is turned into seconds; exactly then it
      is not kept. */
  lemma MinutesWithinRange(m: i64)
    ensures -TWO63 <= 60 * m < TWO63 <==> Minutes(Seconds(m)) == m
    ensures -TWO63 <= 60 * m < TWO63 ==> Seconds(m) == 60 * m
  {}

  /** The bytes of one nameless column and one row: the epoch, `minutes` east. */
  function TimeEntry(minutes: i64): Bytes {
    [MAGIC0, MAGIC1, VERSION] + (Uvarint(1) + (Chunk([]) + (Uvarint(1) + TimeBytes(minutes))))
  }

  function TimeBytes(minutes: i64): Bytes { [CELL_TIME] + (Varint(0) + Varint(minutes)) }

  lemma {:induction false} TimeBytesRead(minutes: i64)
    ensures ReadRows(TimeBytes(minutes), 1, 1) == Ok(Parsed([[Time(0, Seconds(minutes))]], []))
  {
    hide Varint, ReadVarint, Seconds;
    var a, b := Varint(0), Varint(minutes);
    assert TimeBytes(minutes)[1..] == a + b && b + [] == b;
    VarintRoundTrip(0, b);
    VarintRoundTrip(minutes, []);
    var bs, cell := TimeBytes(minutes), Time(0, Seconds(minutes));
    assert ReadCell(bs) == Ok(Parsed(cell, []));
    assert [cell] + [] == [cell] && [[cell]] + [] == [[cell]];
    assert ReadRow([], 0) == Ok(Parsed([], []));
    assert ReadRow(bs, 1) == Ok(Parsed([cell], []));
    assert ReadRows([], 1, 0) == Ok(Parsed([], []));
  }

  lemma {:induction false} TimeEntryRead(minutes: i64)
    ensures Decoded(TimeEntry(minutes)) == Ok(RowData([[]], [[Time(0, Seconds(minutes))]]))
  {
    hide Uvarint, ReadUvarint, Chunk, ReadChunk, TimeBytes, ReadRows, Seconds;
    var one, name, cells := Uvarint(1), Chunk([]), TimeBytes(minutes);
    assert TimeEntry(minutes)[3..] == one + (name + (one + cells));
    UvarintRoundTrip(1, name + (one + cells));
    ChunkBack([], one + cells);
    var none: seq<Bytes> := [];
    assert [[]] + none == [[]];
    assert ReadColumns(one + cells, 0) == Ok(Parsed([], one + cells));
    assert ReadColumns(name + (one + cells), 1) == Ok(Parsed([[]], one + cells));
    UvarintRoundTrip(1, cells);
    TimeBytesRead(minutes);
  }

  lemma {:induction false} TimeEntryAgain(minutes: i64)
    ensures var data := TimeEntry(minutes);
      Decoded(data).Ok? && Encodable(Decoded(data).value)
    ensures var data := TimeEntry(minutes);
      Decoded(Encoded(Decoded(data).value)) == Decoded(data) <==> Seconds(minutes) % 60 == 0
  {
    hide Decoded, Encoded, Seconds, TimeEntry;
    var data := TimeEntry(minutes);
    TimeEntryRead(minutes);
    Normalises(data);
    var rd, v := Decoded(data).value, Time(0, Seconds(minutes));
    assert v in rd.rows[0] && rd.rows[0] in rd.rows;
    assert AllWhole(rd) <==> WholeMinutes(v);
  }

  /** An accepted input whose decoding changes when it is encoded and decoded again: so many
      minutes are more seconds than an int64 holds. */
  lemma {:induction false} OverflowingMinutes(minutes: i64, data: Bytes)
    requires minutes == 153722867280912931 && data == TimeEntry(minutes)
    ensures Decoded(data).Ok? && Encodable(Decoded(data).value)
    ensures Decoded(Encoded(Decoded(data).value)) != Decoded(data)
  {
    Overflowed(minutes);
    hide *;
    TimeEntryAgain(minutes);
  }

  lemma Overflowed(minutes: i64)
    requires minutes == 153722867280912931
    ensures Seconds(minutes) % 60 != 0
  {}

  // ----- the format, byte by byte -----

  /** An accepted input starts with the magic number and the version. */
  lemma HeaderIs(data: Bytes)
    ensures |data| >= 3 && data[..3] == [0x52, 0x53, 1] && ReadUvarint(data[3..]) == None ==>
      Decoded(data) == Err(BadVarint)
    ensures Decoded(data).Ok? ==> |data| >= 3 && data[..3] == [0x52, 0x53, 1]
    ensures |data| < 3 || data[..3] != [0x52, 0x53, 1] ==> Decoded(data) == Err(InvalidHeader)
  {
    hide ReadUvarint, ReadColumns, ReadRows;
  }

  /** The first byte of a cell is its type: 0 NULL, 1 int64, 2 float, 3 bool, 4 string, 5 bytes,
      6 time; no other is accepted. */
  lemma TagsRead(bs: Bytes)
    ensures bs == [] ==> ReadCell(bs) == Err(UnexpectedEOF)
    ensures bs != [] && bs[0] > 6 ==> ReadCell(bs) == Err(UnknownTag)
    ensures ReadCell(bs).Ok? ==>
      var v := ReadCell(bs).value.value;
      && !v.Other?
      && (v.Null? <==> bs[0] == 0) && (v.Int64? <==> bs[0] == 1) && (v.Float? <==> bs[0] == 2)
      && (v.Bool? <==> bs[0] == 3) && (v.Str? <==> bs[0] == 4) && (v.Blob? <==> bs[0] == 5)
      && (v.Time? <==> bs[0] == 6)
      && (v.Bool? ==> |bs| > 1 && (v.b <==> bs[1] != 0))
    ensures bs != [] && (bs[0] == 1 || bs[0] == 6) && ReadVarint(bs[1..]) == None ==> ReadCell(bs) == Err(BadVarint)
    ensures bs != [] && bs[0] == 2 ==> (ReadCell(bs).Ok? <==> |bs| > 8)
    ensures bs != [] && bs[0] == 3 ==> (ReadCell(bs).Ok? <==> |bs| > 1)
    ensures bs != [] && (bs[0] == 2 || bs[0] == 3) && ReadCell(bs).Err? ==> ReadCell(bs) == Err(UnexpectedEOF)
  { hide ReadVarint, ReadChunk, FromLittleEndian; }

  /** A string or byte slice is as many bytes as the number in front says; without a number it is
      malformed, and with too large a one cut short. */
  lemma ChunkIs(bs: Bytes)
    requires |bs| < TWO63
    ensures var r, n := ReadChunk(bs), ReadUvarint(bs);
      && (n == None ==> r == Err(BadVarint))
      && (n.Some? && n.value.value > |n.value.rest| ==> r == Err(UnexpectedEOF))
      && (n.Some? && n.value.value <= |n.value.rest| ==>
        r.Ok? && |r.value.value| == n.value.value && r.value.value + r.value.rest == n.value.rest)
  {
    if ReadUvarint(bs).Some? { ReadLocal(bs, 0, []); }
    hide ReadUvarint;
  }

  /** Byte `i` of a fixed-width number has the weight 256^i. */
  lemma {:induction false} LittleEndianAt(v: nat, k: nat, i: nat)
    requires i < k
    ensures Pow256(i) > 0 && LittleEndian(v, k)[i] == v / Pow256(i) % 256
  {
    PowPositive(i);
    if i > 0 {
      LittleEndianAt(v / 256, k - 1, i - 1);
      PowPositive(i - 1);
      Quotients(v, Pow256(i - 1));
    }
  }

  lemma {:induction false} PowPositive(k: nat)
    ensures Pow256(k) > 0
  { if k > 0 { PowPositive(k - 1); } }

  lemma {:induction false} Quotients(v: nat, p: nat)
    requires p > 0
    ensures v / 256 / p == v / (256 * p)
  {
    var q, r := v / 256 / p, v / 256 % p;
    assert v / 256 == p * q + r;
    assert v == 256 * (v / 256) + v % 256;
    assert v == (256 * p) * q + (256 * r + v % 256);
    Bits.Remainder(v, 256 * p, q, 256 * r + v % 256);
  }

  /** A zone offset is cut to whole minutes toward zero. */
  lemma KeptIs(nano: i64, offset: i64)
    ensures var kept := Kept(Time(nano, offset));
      && kept.Time? && kept.nano == nano && kept.offset % 60 == 0
      && (offset >= 0 ==> kept.offset <= offset < kept.offset + 60)
      && (offset <= 0 ==> kept.offset - 60 < offset <= kept.offset)
  {}
}
