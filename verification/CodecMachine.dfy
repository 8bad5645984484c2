/** The imperative codec: an output buffer written in nested loops, and a reader that advances
    through its input. */
module CodecMachine {
  import opened Bits
  import opened Wrappers
  import opened Varints
  import opened Codec

  class Buffer {
    var data: Bytes

    constructor ()
      ensures data == []
    {
      data := [];
    }

    method WriteByte(b: byte)
      modifies this
      ensures data == old(data) + [b]
    {
      data := data + [b];
    }

    method Write(bs: Bytes)
      modifies this
      ensures data == old(data) + bs
    {
      data := data + bs;
    }
  }

  /** binary.PutUvarint into a ten-byte array. */
  method PutUvarint(b: array<byte>, v: u64) returns (n: nat)
    requires b.Length == MAX_VARINT_LEN
    modifies b
    ensures n <= b.Length && b[..n] == Uvarint(v)
  {
    UvarintRoundTrip(v, []);
    hide ReadUvarint, ReadFrom, Or, Low, ShiftRight;
    var x: u64 := v;
    n := 0;
    while x >= 0x80
      invariant n + |Uvarint(x)| <= b.Length
      invariant b[..n] + Uvarint(x) == Uvarint(v)
      decreases x
    {
      GroupForms(x);
      b[n] := Or(Low(x, 8), 0x80);
      assert b[..n + 1] == b[..n] + [x % 128 + 128];
      Assoc(b[..n], [x % 128 + 128], Uvarint(x / 128));
      x := ShiftRight(x, 7);
      n := n + 1;
    }
    b[n] := x;
    n := n + 1;
  }

  method WriteUvarint(buf: Buffer, v: u64)
    modifies buf
    ensures buf.data == old(buf.data) + Uvarint(v)
  {
    var b := new byte[MAX_VARINT_LEN];
    var n := PutUvarint(b, v);
    buf.Write(b[..n]);
  }

  /** The zigzag code of a signed word, shifted and turned over. */
  method WriteVarint(buf: Buffer, v: i64)
    modifies buf
    ensures buf.data == old(buf.data) + Varint(v)
  {
    var ux := Shl1(ToU64(v));
    if v < 0 { ux := NotU64(ux); }
    WriteUvarint(buf, ux);
  }

  method WriteChunk(buf: Buffer, s: Bytes)
    requires Sized(s)
    modifies buf
    ensures buf.data == old(buf.data) + Chunk(s)
  {
    WriteUvarint(buf, |s|);
    buf.Write(s);
  }

  /** binary.LittleEndian.PutUint64 */
  method WriteUint64(buf: Buffer, v: u64)
    modifies buf
    ensures buf.data == old(buf.data) + LittleEndian(v, 8)
  {
    var x: nat, k := v, 8;
    while k > 0
      invariant buf.data + LittleEndian(x, k) == old(buf.data) + LittleEndian(v, 8)
    {
      Assoc(buf.data, [x % 256], LittleEndian(x / 256, k - 1));
      buf.WriteByte(x % 256);
      x, k := x / 256, k - 1;
    }
  }

  lemma Assoc(a: Bytes, b: Bytes, c: Bytes)
    ensures a + b + c == a + (b + c)
  {}

  method WriteCell(buf: Buffer, v: Cell) returns (e: Option<Error>)
    requires CellSized(v)
    modifies buf
    ensures e == if v.Other? then Some(UnsupportedCell) else None
    ensures !v.Other? ==> buf.data == old(buf.data) + CellBytes(v)
  {
    assert v.Str? || v.Blob? ==> Sized(v.s);
    hide Uvarint, Varint, LittleEndian, Chunk, Minutes, CellSized, Sized;
    match v {
      case Null => buf.WriteByte(CELL_NULL);
      case Int64(n) =>
        buf.WriteByte(CELL_INT64);
        WriteVarint(buf, n);
        Assoc(old(buf.data), [CELL_INT64], Varint(n));
      case Float(bits) =>
        buf.WriteByte(CELL_FLOAT);
        WriteUint64(buf, bits);
        Assoc(old(buf.data), [CELL_FLOAT], LittleEndian(bits, 8));
      case Bool(b) =>
        buf.WriteByte(CELL_BOOL);
        if b { buf.WriteByte(1); } else { buf.WriteByte(0); }
        Assoc(old(buf.data), [CELL_BOOL], [if b then 1 else 0]);
      case Str(s) =>
        buf.WriteByte(CELL_STR);
        WriteChunk(buf, s);
        Assoc(old(buf.data), [CELL_STR], Chunk(s));
      case Blob(s) =>
        buf.WriteByte(CELL_BYTES);
        WriteChunk(buf, s);
        Assoc(old(buf.data), [CELL_BYTES], Chunk(s));
      case Time(nano, offset) =>
        buf.WriteByte(CELL_TIME);
        WriteVarint(buf, nano);
        WriteVarint(buf, Minutes(offset));
        Assoc(old(buf.data), [CELL_TIME], Varint(nano));
        Assoc(old(buf.data), [CELL_TIME] + Varint(nano), Varint(Minutes(offset)));
      case Other => return Some(UnsupportedCell);
    }
    e := None;
  }

  lemma {:induction false} ColumnsSnoc(cols: seq<Bytes>, c: Bytes)
    ensures ColumnsBytes(cols + [c]) == ColumnsBytes(cols) + Chunk(c)
  {
    if cols == [] {
      assert [c] == [c] + [] && ColumnsBytes([c][1..]) == [];
      assert Chunk(c) + [] == Chunk(c) && [] + Chunk(c) == Chunk(c);
    } else {
      assert (cols + [c])[1..] == cols[1..] + [c];
      ColumnsSnoc(cols[1..], c);
    }
  }

  lemma SupportedSnoc(row: seq<Cell>, v: Cell)
    ensures Supported(row + [v]) <==> Supported(row) && !v.Other?
  {}

  lemma {:induction false} RowSnoc(row: seq<Cell>, v: Cell)
    requires Supported(row + [v])
    ensures Supported(row) && !v.Other? && RowBytes(row + [v]) == RowBytes(row) + CellBytes(v)
  {
    SupportedSnoc(row, v);
    assert row != [] ==> Supported(row[1..]);
    hide CellBytes, Supported;
    if row == [] {
      assert row + [v] == [v] && [v][1..] == [];
    } else {
      var more := row[1..];
      SupportedSnoc(more, v);
      assert (row + [v])[1..] == more + [v];
      RowSnoc(more, v);
      Assoc(CellBytes(row[0]), RowBytes(more), CellBytes(v));
    }
  }

  lemma RegularSnoc(rows: seq<seq<Cell>>, row: seq<Cell>, width: nat)
    ensures Regular(rows + [row], width) <==> Regular(rows, width) && |row| == width && Supported(row)
  {}

  predicate Regular(rows: seq<seq<Cell>>, width: nat) {
    forall row <- rows :: |row| == width && Supported(row)
  }

  lemma {:induction false} RowsSnoc(rows: seq<seq<Cell>>, row: seq<Cell>, width: nat)
    requires Regular(rows + [row], width)
    ensures Regular(rows, width) && Supported(row)
    ensures RowsBytes(rows + [row]) == RowsBytes(rows) + RowBytes(row)
  {
    RegularSnoc(rows, row, width);
    hide RowBytes, Supported;
    if rows == [] {
      assert rows + [row] == [row] && [row][1..] == [];
    } else {
      var more := rows[1..];
      assert (rows + [row])[1..] == more + [row];
      RowsSnoc(more, row, width);
      Assoc(RowBytes(rows[0]), RowsBytes(more), RowBytes(row));
    }
  }

  /** The error of the first row that cannot be written, if any. */
  function RowsError(rows: seq<seq<Cell>>, width: nat, n: nat): Option<Error>
    requires n <= |rows|
  {
    if n == 0 then None
    else if RowsError(rows, width, n - 1).Some? then RowsError(rows, width, n - 1)
    else if |rows[n - 1]| != width then Some(RowWidth)
    else if !Supported(rows[n - 1]) then Some(UnsupportedCell)
    else None
  }

  method WriteColumns(buf: Buffer, cols: seq<Bytes>)
    requires |cols| < TWO64 && forall c <- cols :: Sized(c)
    modifies buf
    ensures buf.data == old(buf.data) + ColumnsBytes(cols)
  {
    for i := 0 to |cols|
      invariant buf.data == old(buf.data) + ColumnsBytes(cols[..i])
    {
      assert cols[..i + 1] == cols[..i] + [cols[i]];
      ColumnsSnoc(cols[..i], cols[i]);
      WriteChunk(buf, cols[i]);
    }
    assert cols[..|cols|] == cols;
  }

  /** What the row loop has written after `j` cells. */
  function RowTo(row: seq<Cell>, j: nat): Option<Bytes>
    requires j <= |row|
  {
    if j == 0 then Some([])
    else if RowTo(row, j - 1).None? || row[j - 1].Other? then None
    else Some(RowTo(row, j - 1).value + CellBytes(row[j - 1]))
  }

  lemma {:induction false} RowToIs(row: seq<Cell>, j: nat)
    requires j <= |row|
    ensures RowTo(row, j) == if Supported(row[..j]) then Some(RowBytes(row[..j])) else None
  {
    hide CellBytes;
    if j > 0 {
      RowToIs(row, j - 1);
      var front, v := row[..j - 1], row[j - 1];
      assert row[..j] == front + [v];
      SupportedSnoc(front, v);
      if Supported(front + [v]) { RowSnoc(front, v); }
    }
  }

  lemma {:induction false} RowToStart(row: seq<Cell>)
    ensures RowTo(row, 0) == Some([])
    ensures RowTo(row, |row|) == if Supported(row) then Some(RowBytes(row)) else None
  {
    assert row[..|row|] == row;
    RowToIs(row, |row|);
  }

  lemma {:induction false} RowToMore(row: seq<Cell>, j: nat)
    requires j < |row| && RowTo(row, j).Some?
    ensures row[j].Other? ==> RowTo(row, |row|) == None
    ensures !row[j].Other? ==> RowTo(row, j + 1) == Some(RowTo(row, j).value + CellBytes(row[j]))
  {
    hide CellBytes;
    if row[j].Other? { RowToFails(row, j, |row|); }
  }

  method WriteRow(buf: Buffer, row: seq<Cell>) returns (e: Option<Error>)
    requires forall v <- row :: CellSized(v)
    modifies buf
    ensures e == if Supported(row) then None else Some(UnsupportedCell)
    ensures Supported(row) ==> buf.data == old(buf.data) + RowBytes(row)
  {
    RowToStart(row);
    hide *;
    for j := 0 to |row|
      invariant RowTo(row, j).Some? && buf.data == old(buf.data) + RowTo(row, j).value
    {
      assert row[j] in row;
      RowToMore(row, j);
      e := WriteCell(buf, row[j]);
      if e.Some? { return; }
      Assoc(old(buf.data), RowTo(row, j).value, CellBytes(row[j]));
    }
    e := None;
  }

  lemma {:induction false} RowToFails(row: seq<Cell>, j: nat, n: nat)
    requires j < n <= |row| && row[j].Other?
    ensures RowTo(row, n).None?
  {
    if j + 1 < n { RowToFails(row, j, n - 1); }
  }

  lemma {:induction false} HeaderBody(data: Bytes, rd: RowData)
    requires Encodable(rd)
    requires data == [MAGIC0] + [MAGIC1] + [VERSION] + Uvarint(|rd.columns|) + ColumnsBytes(rd.columns)
      + Uvarint(|rd.rows|) + RowsBytes(rd.rows)
    ensures data == Encoded(rd)
  { hide Uvarint, ColumnsBytes, RowsBytes; }

  /** Encode: the columns, then every row's cells; a row of another width or an unsupported
      cell is an error. */
  method Encode(rd: RowData) returns (r: Result<Bytes, Error>)
    requires DataSized(rd)
    ensures r.Ok? <==> Encodable(rd)
    ensures r.Ok? ==> r.value == Encoded(rd)
    ensures r.Err? ==> RowsError(rd.rows, |rd.columns|, |rd.rows|) == Some(r.error)
  {
    hide Uvarint, ColumnsBytes, RowsBytes, RowsError, Supported;
    var buf := new Buffer();
    buf.WriteByte(MAGIC0);
    buf.WriteByte(MAGIC1);
    buf.WriteByte(VERSION);
    WriteUvarint(buf, |rd.columns|);
    WriteColumns(buf, rd.columns);
    WriteUvarint(buf, |rd.rows|);
    var e := WriteRows(buf, rd.rows, |rd.columns|);
    if e.Some? { return Err(e.value); }
    HeaderBody(buf.data, rd);
    r := Ok(buf.data);
  }

  /** What the loop over the rows has written after `i` rows. */
  function RowsTo(rows: seq<seq<Cell>>, width: nat, i: nat): Option<Bytes>
    requires i <= |rows|
  {
    if i == 0 then Some([])
    else if RowsTo(rows, width, i - 1).None? || |rows[i - 1]| != width || !Supported(rows[i - 1]) then None
    else Some(RowsTo(rows, width, i - 1).value + RowBytes(rows[i - 1]))
  }

  lemma {:induction false} RowsToIs(rows: seq<seq<Cell>>, width: nat, i: nat)
    requires i <= |rows|
    ensures RowsTo(rows, width, i) == if Regular(rows[..i], width) then Some(RowsBytes(rows[..i])) else None
    ensures RowsError(rows, width, i) == None <==> Regular(rows[..i], width)
  {
    hide RowBytes, Supported;
    if i > 0 {
      RowsToIs(rows, width, i - 1);
      var front, row := rows[..i - 1], rows[i - 1];
      assert rows[..i] == front + [row];
      RegularSnoc(front, row, width);
      if Regular(front + [row], width) { RowsSnoc(front, row, width); }
    }
  }

  lemma {:induction false} RowsFail(rows: seq<seq<Cell>>, width: nat, i: nat, n: nat)
    requires i < n <= |rows| && RowsError(rows, width, i + 1).Some?
    ensures RowsError(rows, width, n) == RowsError(rows, width, i + 1)
  {
    if i + 1 < n { RowsFail(rows, width, i, n - 1); }
  }

  lemma RowsToMore(rows: seq<seq<Cell>>, width: nat, i: nat)
    requires i < |rows| && RowsError(rows, width, i) == None && RowsTo(rows, width, i).Some?
    requires |rows[i]| == width && Supported(rows[i])
    ensures RowsError(rows, width, i + 1) == None
    ensures RowsTo(rows, width, i + 1) == Some(RowsTo(rows, width, i).value + RowBytes(rows[i]))
  {}

  lemma {:induction false} RowsToStart(rows: seq<seq<Cell>>, width: nat)
    ensures RowsError(rows, width, 0) == None && RowsTo(rows, width, 0) == Some([])
    ensures RowsError(rows, width, |rows|) == None <==> Regular(rows, width)
    ensures RowsError(rows, width, |rows|) == None ==> RowsTo(rows, width, |rows|) == Some(RowsBytes(rows))
  {
    assert rows[..|rows|] == rows;
    RowsToIs(rows, width, |rows|);
  }

  lemma {:induction false} RowsStop(rows: seq<seq<Cell>>, width: nat, i: nat)
    requires i < |rows| && RowsError(rows, width, i) == None
    ensures |rows[i]| != width ==> RowsError(rows, width, |rows|) == Some(RowWidth)
    ensures |rows[i]| == width && !Supported(rows[i]) ==> RowsError(rows, width, |rows|) == Some(UnsupportedCell)
  {
    if |rows[i]| != width || !Supported(rows[i]) { RowsFail(rows, width, i, |rows|); }
  }

  /** `i` is the first row that is of another width or has an unsupported cell. */
  ghost predicate FirstBad(rows: seq<seq<Cell>>, width: nat, i: nat)
    requires i < |rows|
  {
    && (forall k | 0 <= k < i :: |rows[k]| == width && Supported(rows[k]))
    && (|rows[i]| != width || !Supported(rows[i]))
  }

  /** Encoding fails with what is wrong with the first such row. */
  lemma {:induction false} RowsErrorIs(rows: seq<seq<Cell>>, width: nat, n: nat)
    requires n <= |rows|
    ensures RowsError(rows, width, n) == None <==> forall k | 0 <= k < n :: |rows[k]| == width && Supported(rows[k])
    ensures forall i | 0 <= i < n && FirstBad(rows, width, i) ::
      RowsError(rows, width, n) == Some(if |rows[i]| != width then RowWidth else UnsupportedCell)
  {
    hide Supported;
    if n > 0 { RowsErrorIs(rows, width, n - 1); }
  }

  lemma SizedRow(rows: seq<seq<Cell>>, i: nat)
    requires RowsSized(rows) && i < |rows|
    ensures forall v <- rows[i] :: CellSized(v)
  { assert rows[i] in rows; }

  method WriteRows(buf: Buffer, rows: seq<seq<Cell>>, width: nat) returns (e: Option<Error>)
    requires RowsSized(rows)
    modifies buf
    ensures e == RowsError(rows, width, |rows|)
    ensures e.None? <==> Regular(rows, width)
    ensures e.None? ==> buf.data == old(buf.data) + RowsBytes(rows)
  {
    RowsToStart(rows, width);
    hide *;
    for i := 0 to |rows|
      invariant RowsError(rows, width, i) == None && RowsTo(rows, width, i).Some?
      invariant buf.data == old(buf.data) + RowsTo(rows, width, i).value
    {
      SizedRow(rows, i);
      RowsStop(rows, width, i);
      if |rows[i]| != width { return Some(RowWidth); }
      e := WriteRow(buf, rows[i]);
      if e.Some? { return; }
      RowsToMore(rows, width, i);
      Assoc(old(buf.data), RowsTo(rows, width, i).value, RowBytes(rows[i]));
    }
    e := None;
  }

  class Reader {
    const buf: Bytes
    var pos: nat

    ghost predicate Valid()
      reads this
    {
      pos <= |buf|
    }

    ghost function Rest(): Bytes
      reads this
      requires Valid()
    {
      buf[pos..]
    }

    constructor (buf: Bytes)
      ensures Valid() && Rest() == buf
    {
      this.buf := buf;
      pos := 0;
    }

    method ReadByte() returns (r: Result<byte, Error>)
      requires Valid()
      modifies this
      ensures Valid()
      ensures if old(Rest()) == [] then r == Err(UnexpectedEOF)
              else r == Ok(old(Rest())[0]) && Rest() == old(Rest())[1..]
    {
      if pos >= |buf| { return Err(UnexpectedEOF); }
      r := Ok(buf[pos]);
      pos := pos + 1;
    }

    method Raw(n: int) returns (r: Result<Bytes, Error>)
      requires Valid()
      modifies this
      ensures Valid()
      ensures n < 0 ==> r == Err(UnexpectedEOF)
      ensures n >= 0 ==> match ReadRaw(old(Rest()), n)
        case Err(e) => r == Err(e)
        case Ok(p) => r == Ok(p.value) && Rest() == p.rest
    {
      if n < 0 || pos + n > |buf| { return Err(UnexpectedEOF); }
      assert buf[pos..][..n] == buf[pos..pos + n] && buf[pos..][n..] == buf[pos + n..];
      r := Ok(buf[pos..pos + n]);
      pos := pos + n;
    }

    method ReadU() returns (r: Result<u64, Error>)
      requires Valid()
      modifies this
      ensures Valid()
      ensures match ReadUvarint(old(Rest()))
        case None => r == Err(BadVarint)
        case Some(p) => r == Ok(p.value) && Rest() == p.rest
    {
      var v, n := GetUvarint(buf[pos..]);
      if n <= 0 { return Err(BadVarint); }
      pos := pos + n;
      r := Ok(v);
    }

    method ReadV() returns (r: Result<i64, Error>)
      requires Valid()
      modifies this
      ensures Valid()
      ensures match ReadVarint(old(Rest()))
        case None => r == Err(BadVarint)
        case Some(p) => r == Ok(p.value) && Rest() == p.rest
    {
      var ux, n := GetUvarint(buf[pos..]);
      if n <= 0 { return Err(BadVarint); }
      pos := pos + n;
      hide ReadUvarint, Shr1, And1, NotI64;
      var x := ToI64(Shr1(ux));
      if And1(ux) != 0 { x := NotI64(x); }
      r := Ok(x);
    }

    method ReadChunked() returns (r: Result<Bytes, Error>)
      requires Valid()
      modifies this
      ensures Valid()
      ensures match ReadChunk(old(Rest()))
        case Err(e) => r == Err(e)
        case Ok(p) => r == Ok(p.value) && Rest() == p.rest
    {
      var l := ReadU();
      if l.Err? { return Err(l.error); }
      r := Raw(ToI64(l.value));
    }
  }

  /** What is known after `i` continuation bytes, worth `acc`, the next one counting `scale`. */
  ghost predicate Reading(buf: Bytes, i: nat, acc: int)
    requires i <= |buf|
  {
    match ReadFrom(buf[i..], i)
    case None => ReadFrom(buf, 0) == None
    case Some(p) =>
      match ReadFrom(buf, 0)
      case None => false
      case Some(all) => all.value == Gathered(acc, p.value, i) && all.rest == p.rest
  }

  lemma {:induction false} ReadingMore(buf: Bytes, i: nat, acc: int)
    requires i < |buf| && i < MAX_VARINT_LEN && buf[i] >= 128 && Reading(buf, i, acc)
    ensures Reading(buf, i + 1, Gathered(acc, buf[i] - 128, i))
  {
    assert buf[i..][1..] == buf[i + 1..];
    var p := ReadFrom(buf[i + 1..], i + 1);
    if p.Some? { Regroup(acc, buf[i] - 128, p.value.value, i); }
    hide Gathered;
  }

  /** Behind ten bytes nothing is read, whatever was gathered. */
  lemma {:induction false} ReadingOver(buf: Bytes, acc: int, other: int)
    requires |buf| >= MAX_VARINT_LEN && Reading(buf, MAX_VARINT_LEN, acc)
    ensures Reading(buf, MAX_VARINT_LEN, other)
  {}

  lemma ReadingDone(buf: Bytes, i: nat, acc: int)
    requires i <= |buf| && Reading(buf, i, acc)
    ensures i == |buf| || i >= MAX_VARINT_LEN ==> ReadUvarint(buf) == None
    ensures i < |buf| && i < MAX_VARINT_LEN && buf[i] < 128 ==>
      if i == MAX_VARINT_LEN - 1 && buf[i] > 1 then ReadUvarint(buf) == None
      else
        (&& ReadUvarint(buf).Some? && ReadUvarint(buf).value.value == Gathered(acc, buf[i], i)
         && ReadUvarint(buf).value.rest == buf[i + 1..])
  {}

  lemma {:induction false} Regroup(acc: int, low: int, high: int, i: nat)
    ensures Gathered(acc, low + 128 * high, i) == Gathered(Gathered(acc, low, i), high, i + 1)
  {
    var p := Pow2(7 * i);
    NextGroup(i);
    hide Pow2;
    assert (low + 128 * high) * p == low * p + high * (128 * p);
  }

  lemma {:induction false} ReadingStart(buf: Bytes)
    ensures Reading(buf, 0, 0) && Pow2(0) == 1
  {
    assert buf[0..] == buf;
  }

  /** binary.Uvarint: the value and the number of bytes read, or a length that is not positive. */
  method GetUvarint(buf: Bytes) returns (x: u64, n: int)
    ensures match ReadUvarint(buf)
      case None => n <= 0
      case Some(p) => 0 < n <= |buf| && x == p.value && buf[n..] == p.rest
  {
    ReadingStart(buf);
    hide Reading, ReadUvarint, ReadFrom, Or, Low, ShiftLeft, And, Gathered, Pow2;
    var acc: nat, s: nat, i: nat := 0, 0, 0;
    while i < |buf|
      invariant i <= |buf| && i <= MAX_VARINT_LEN && s == 7 * i && Reading(buf, i, acc)
      invariant i < MAX_VARINT_LEN ==> acc < Pow2(s)
    {
      var b := buf[i];
      ReadingDone(buf, i, acc);
      if i == MAX_VARINT_LEN { return 0, -(i + 1); }
      if b < 0x80 {
        if i == MAX_VARINT_LEN - 1 && b > 1 { return 0, -(i + 1); }
        GroupAbove(acc, b, i);
        return Or(acc, Low(ShiftLeft(b, s), 64)), i + 1;
      }
      ReadingNext(buf, i, acc);
      acc := Or(acc, Low(ShiftLeft(And(b, 0x7f), s), 64));
      s := s + 7;
      i := i + 1;
    }
    ReadingDone(buf, i, acc);
    x, n := 0, 0;
  }

  /** A byte that is not the last. */
  lemma {:induction false} ReadingNext(buf: Bytes, i: nat, acc: nat)
    requires i < |buf| && i < MAX_VARINT_LEN && buf[i] >= 0x80 && Reading(buf, i, acc) && acc < Pow2(7 * i)
    ensures var more := Or(acc, Low(ShiftLeft(And(buf[i], 0x7f), 7 * i), 64));
      Reading(buf, i + 1, more) && (i < MAX_VARINT_LEN - 1 ==> more < Pow2(7 * i + 7))
  {
    hide *;
    ReadingMore(buf, i, acc);
    GroupForms(buf[i]);
    assert And(buf[i], 0x7f) == buf[i] - 128;
    if i < MAX_VARINT_LEN - 1 {
      GroupAbove(acc, buf[i] - 128, i);
      assert 7 * (i + 1) == 7 * i + 7;
    } else {
      ReadingOver(buf, Gathered(acc, buf[i] - 128, i), Or(acc, Low(ShiftLeft(And(buf[i], 0x7f), 7 * i), 64)));
    }
  }

  method ReadCellFrom(r: Reader) returns (v: Result<Cell, Error>)
    requires r.Valid()
    modifies r
    ensures r.Valid()
    ensures match ReadCell(old(r.Rest()))
      case Err(e) => v == Err(e)
      case Ok(p) => v == Ok(p.value) && r.Rest() == p.rest
  {
    hide ReadVarint, ReadUvarint, ReadChunk, ReadRaw, FromLittleEndian, Seconds;
    var tag := r.ReadByte();
    if tag.Err? { return Err(tag.error); }
    if tag.value == CELL_NULL {
      v := Ok(Null);
    } else if tag.value == CELL_INT64 {
      var n := r.ReadV();
      v := if n.Err? then Err(n.error) else Ok(Int64(n.value));
    } else if tag.value == CELL_FLOAT {
      v := ReadFloatFrom(r);
    } else if tag.value == CELL_BOOL {
      var b := r.ReadByte();
      v := if b.Err? then Err(b.error) else Ok(Bool(b.value != 0));
    } else if tag.value == CELL_STR {
      var s := r.ReadChunked();
      v := if s.Err? then Err(s.error) else Ok(Str(s.value));
    } else if tag.value == CELL_BYTES {
      var s := r.ReadChunked();
      v := if s.Err? then Err(s.error) else Ok(Blob(s.value));
    } else if tag.value == CELL_TIME {
      var nano := r.ReadV();
      if nano.Err? { return Err(nano.error); }
      var off := r.ReadV();
      v := if off.Err? then Err(off.error) else Ok(Time(nano.value, Seconds(off.value)));
    } else {
      v := Err(UnknownTag);
    }
  }

  method ReadFloatFrom(r: Reader) returns (v: Result<Cell, Error>)
    requires r.Valid()
    modifies r
    ensures r.Valid()
    ensures match ReadRaw(old(r.Rest()), 8)
      case Err(e) => v == Err(e)
      case Ok(p) =>
        (&& |p.value| == 8 && FromLittleEndian(p.value) < TWO64
         && v == Ok(Float(FromLittleEndian(p.value))) && r.Rest() == p.rest)
  {
    var raw := r.Raw(8);
    if raw.Err? { return Err(raw.error); }
    EightBytes(raw.value);
    v := Ok(Float(FromLittleEndian(raw.value)));
  }

  /** A read that continues with items already collected. */
  function Collected<T>(front: seq<T>, r: Result<Parsed<seq<T>>, Error>): Result<Parsed<seq<T>>, Error> {
    match r case Err(e) => Err(e) case Ok(p) => Ok(Parsed(front + p.value, p.rest))
  }

  lemma {:induction false} CollectedNone<T>(r: Result<Parsed<seq<T>>, Error>)
    ensures Collected([], r) == r
  {
    if r.Ok? { assert [] + r.value.value == r.value.value; }
  }

  lemma {:induction false} CollectedOne<T>(front: seq<T>, x: T, r: Result<Parsed<seq<T>>, Error>)
    ensures Collected(front + [x], r) == Collected(front, Collected([x], r))
  {
    if r.Ok? { assert front + [x] + r.value.value == front + ([x] + r.value.value); }
  }

  lemma {:induction false} ColumnsTurn(out: seq<Bytes>, here: Bytes, k: nat)
    ensures k == 0 ==> Collected(out, ReadColumns(here, k)) == Ok(Parsed(out, here))
    ensures k > 0 ==> match ReadChunk(here)
      case Err(e) => Collected(out, ReadColumns(here, k)) == Err(e)
      case Ok(p) => Collected(out, ReadColumns(here, k)) == Collected(out + [p.value], ReadColumns(p.rest, k - 1))
  {
    if k == 0 {
      assert out + [] == out;
    } else if ReadChunk(here).Ok? {
      var p := ReadChunk(here).value;
      CollectedOne(out, p.value, ReadColumns(p.rest, k - 1));
    }
  }

  lemma {:induction false} RowTurn(out: seq<Cell>, here: Bytes, k: nat)
    ensures k == 0 ==> Collected(out, ReadRow(here, k)) == Ok(Parsed(out, here))
    ensures k > 0 ==> match ReadCell(here)
      case Err(e) => Collected(out, ReadRow(here, k)) == Err(e)
      case Ok(p) => Collected(out, ReadRow(here, k)) == Collected(out + [p.value], ReadRow(p.rest, k - 1))
  {
    if k == 0 {
      assert out + [] == out;
    } else if ReadCell(here).Ok? {
      var p := ReadCell(here).value;
      CollectedOne(out, p.value, ReadRow(p.rest, k - 1));
    }
  }

  lemma {:induction false} RowsTurn(out: seq<seq<Cell>>, here: Bytes, width: nat, k: nat)
    ensures k == 0 ==> Collected(out, ReadRows(here, width, k)) == Ok(Parsed(out, here))
    ensures k > 0 ==> match ReadRow(here, width)
      case Err(e) => Collected(out, ReadRows(here, width, k)) == Err(e)
      case Ok(p) =>
        Collected(out, ReadRows(here, width, k)) == Collected(out + [p.value], ReadRows(p.rest, width, k - 1))
  {
    if k == 0 {
      assert out + [] == out;
    } else if ReadRow(here, width).Ok? {
      var p := ReadRow(here, width).value;
      CollectedOne(out, p.value, ReadRows(p.rest, width, k - 1));
    }
  }

  method ReadColumnsFrom(r: Reader, n: nat) returns (cols: Result<seq<Bytes>, Error>)
    requires r.Valid()
    modifies r
    ensures r.Valid()
    ensures match ReadColumns(old(r.Rest()), n)
      case Err(e) => cols == Err(e)
      case Ok(p) => cols == Ok(p.value) && r.Rest() == p.rest
  {
    hide ReadColumns, ReadChunk, Collected;
    var out: seq<Bytes> := [];
    CollectedNone(ReadColumns(r.Rest(), n));
    for i := 0 to n
      invariant r.Valid()
      invariant ReadColumns(old(r.Rest()), n) == Collected(out, ReadColumns(r.Rest(), n - i))
    {
      ColumnsTurn(out, r.Rest(), n - i);
      var s := r.ReadChunked();
      if s.Err? { return Err(s.error); }
      out := out + [s.value];
    }
    ColumnsTurn(out, r.Rest(), 0);
    cols := Ok(out);
  }

  /** One row, filled cell by cell. */
  method ReadRowFrom(r: Reader, width: nat) returns (res: Result<seq<Cell>, Error>)
    requires r.Valid()
    modifies r
    ensures r.Valid()
    ensures match ReadRow(old(r.Rest()), width)
      case Err(e) => res == Err(e)
      case Ok(p) => res == Ok(p.value) && r.Rest() == p.rest
  {
    hide ReadRow, ReadCell, Collected;
    var row := new Cell[width](_ => Null);
    ghost var out: seq<Cell> := [];
    CollectedNone(ReadRow(r.Rest(), width));
    for j := 0 to width
      invariant r.Valid() && row[..j] == out
      invariant ReadRow(old(r.Rest()), width) == Collected(out, ReadRow(r.Rest(), width - j))
    {
      RowTurn(out, r.Rest(), width - j);
      var v := ReadCellFrom(r);
      if v.Err? { return Err(v.error); }
      row[j] := v.value;
      out := out + [v.value];
    }
    RowTurn(out, r.Rest(), 0);
    assert row[..] == row[..width];
    res := Ok(row[..]);
  }

  method ReadRowsFrom(r: Reader, width: nat, n: nat) returns (rows: Result<seq<seq<Cell>>, Error>)
    requires r.Valid()
    modifies r
    ensures r.Valid()
    ensures match ReadRows(old(r.Rest()), width, n)
      case Err(e) => rows == Err(e)
      case Ok(p) => rows == Ok(p.value) && r.Rest() == p.rest
  {
    hide ReadRows, ReadRow, Collected;
    var out: seq<seq<Cell>> := [];
    CollectedNone(ReadRows(r.Rest(), width, n));
    for i := 0 to n
      invariant r.Valid()
      invariant ReadRows(old(r.Rest()), width, n) == Collected(out, ReadRows(r.Rest(), width, n - i))
    {
      RowsTurn(out, r.Rest(), width, n - i);
      var row := ReadRowFrom(r, width);
      if row.Err? { return Err(row.error); }
      out := out + [row.value];
    }
    RowsTurn(out, r.Rest(), width, 0);
    rows := Ok(out);
  }

  /** Decode: header, columns, rows, and nothing left over. */
  method Decode(data: Bytes) returns (r: Result<RowData, Error>)
    ensures r == Decoded(data)
  {
    hide ReadUvarint, ReadColumns, ReadRows;
    if |data| < 3 || data[0] != MAGIC0 || data[1] != MAGIC1 || data[2] != VERSION { return Err(InvalidHeader); }
    var rd := new Reader(data[3..]);
    var nCols := rd.ReadU();
    if nCols.Err? { return Err(nCols.error); }
    var cols := ReadColumnsFrom(rd, nCols.value);
    if cols.Err? { return Err(cols.error); }
    var nRows := rd.ReadU();
    if nRows.Err? { return Err(nRows.error); }
    var rows := ReadRowsFrom(rd, nCols.value, nRows.value);
    if rows.Err? { return Err(rows.error); }
    assert |rd.Rest()| == |rd.buf| - rd.pos;
    if rd.pos != |rd.buf| { return Err(TrailingBytes); }
    r := Ok(RowData(cols.value, rows.value));
  }
}
