/** The two ways in which the cache shows: a one-row call and a slice call that share a key, and a
    driver that does not convert into struct fields as the library does. */
module Clashes {
  import opened Wrappers
  import opened Varints
  import opened Codec
  import opened Scan
  import opened Protocol
  import opened Transparency
  import opened Fields

  /** A one-row call that leaves the first of several rows, and a slice call on its key that can
      scan that row. */
  predicate Clash<D>(sys: System<D>, c: Call<D>, d: Call<D>)
    requires WideRows(sys.data(c.key))
  {
    var rd := sys.data(c.key);
    && c.key == d.key && !c.slice && d.slice && |rd.rows| > 1 && Leaves(sys, c)
    && ScanAt(Full(rd), d.shape, d.strict, d.zero, 0).0.Ok?
  }

  /** A call whose result behind the recorder is not the one without it. */
  predicate Drifts<D(==)>(sys: System<D>, c: Call<D>)
    requires WideRows(sys.data(c.key))
  {
    !Same(Behind(sys, c), Truth(sys, c))
  }

  /** A call that can succeed through the cache, or be served. */
  ghost predicate Exposed<D>(sys: System<D>, j: nat)
    requires Wide(sys) && j < |sys.calls|
  {
    || Succeeded(Behind(sys, sys.calls[j]))
    || exists i :: 0 <= i < |sys.calls| && i != j && sys.calls[i].key == sys.calls[j].key && Leaves(sys, sys.calls[i])
  }

  ghost predicate Unmixed<D>(sys: System<D>)
    requires Wide(sys)
  {
    forall i, j | 0 <= i < |sys.calls| && 0 <= j < |sys.calls| :: !Clash(sys, sys.calls[i], sys.calls[j])
  }

  ghost predicate Steady<D>(sys: System<D>)
    requires Wide(sys)
  {
    forall j | 0 <= j < |sys.calls| && Exposed(sys, j) :: !Drifts(sys, sys.calls[j])
  }

  // ----- scans row by row -----

  /** On a source that ends well, a slice scan succeeds if and only if every row does, and gives
      one value per row. */
  lemma {:induction false} SliceValues<D>(f: Feed, shape: Shape<D>, strict: bool, zero: D, i: nat)
    requires Scan.Regular(f) && f.cols.Ok? && f.end.None? && i <= |f.rows|
    ensures var r := SliceFrom(f, shape, strict, zero, i).0;
      && (r.Ok? <==> forall k | i <= k < |f.rows| :: ScanAt(f, shape, strict, zero, k).0.Ok?)
      && (r.Ok? ==> |r.value| == |f.rows| - i)
      && (r.Ok? ==> forall k | i <= k < |f.rows| :: ScanAt(f, shape, strict, zero, k).0 == Ok(r.value[k - i]))
    decreases |f.rows| - i
  {
    hide ScanAt, Scan.Regular;
    if i < |f.rows| { SliceValues(f, shape, strict, zero, i + 1); }
  }

  /** A row behind a recorder, and without one. */
  function RowBehind<D>(rd: RowData, c: Call<D>, k: nat): Result<D, ScanError>
    requires WideRows(rd) && k < |rd.rows|
  {
    ScanAt(Full(rd), c.shape, c.strict, c.zero, k).0
  }

  function RowBare<D>(rd: RowData, c: Call<D>, k: nat): Result<D, ScanError>
    requires WideRows(rd) && k < |rd.rows|
  {
    ScanAt(Bare(rd), c.shape, c.strict, c.zero, k).0
  }

  predicate RowAlike<D(==)>(rd: RowData, c: Call<D>, k: nat)
    requires WideRows(rd) && k < |rd.rows|
  {
    Alike(RowBehind(rd, c, k), RowBare(rd, c, k))
  }

  /** A one-row call drifts if and only if the first row does. */
  lemma {:induction false} OneDrifts<D>(sys: System<D>, c: Call<D>)
    requires WideRows(sys.data(c.key)) && !c.slice
    ensures Drifts(sys, c) <==> sys.data(c.key).rows != [] && !RowAlike(sys.data(c.key), c, 0)
  {
    var rd := sys.data(c.key);
    OneRow(rd, c, Full(rd));
    OneRow(rd, c, Bare(rd));
    hide ScanAt, ScanOneSpec;
  }

  lemma OneRow<D>(rd: RowData, c: Call<D>, f: Feed)
    requires WideRows(rd) && (f == Full(rd) || f == Bare(rd))
    ensures ScanOneSpec(f, c.shape, c.strict, c.zero).result ==
      if rd.rows == [] then Err(NoRows) else ScanAt(f, c.shape, c.strict, c.zero, 0).0
  {
    assert f.cols == Ok(rd.columns) && f.rows == rd.rows && f.early == None && f.end == None;
  }

  lemma {:induction false} RowsBehind<D>(rd: RowData, c: Call<D>)
    requires WideRows(rd)
    ensures var r := SliceFrom(Full(rd), c.shape, c.strict, c.zero, 0).0;
      && (r.Ok? <==> forall k | 0 <= k < |rd.rows| :: RowBehind(rd, c, k).Ok?)
      && (r.Ok? ==> |r.value| == |rd.rows|)
      && (r.Ok? ==> forall k | 0 <= k < |rd.rows| :: RowBehind(rd, c, k) == Ok(r.value[k]))
  {
    var f := Full(rd);
    SliceValues(f, c.shape, c.strict, c.zero, 0);
    hide ScanAt, SliceFrom;
    if SliceFrom(f, c.shape, c.strict, c.zero, 0).0.Err? {
      var k :| 0 <= k < |rd.rows| && ScanAt(f, c.shape, c.strict, c.zero, k).0.Err?;
      assert RowBehind(rd, c, k).Err?;
    }
  }

  lemma {:induction false} RowsBare<D>(rd: RowData, c: Call<D>)
    requires WideRows(rd)
    ensures var r := SliceFrom(Bare(rd), c.shape, c.strict, c.zero, 0).0;
      && (r.Ok? <==> forall k | 0 <= k < |rd.rows| :: RowBare(rd, c, k).Ok?)
      && (r.Ok? ==> |r.value| == |rd.rows|)
      && (r.Ok? ==> forall k | 0 <= k < |rd.rows| :: RowBare(rd, c, k) == Ok(r.value[k]))
  {
    var f := Bare(rd);
    SliceValues(f, c.shape, c.strict, c.zero, 0);
    hide ScanAt, SliceFrom;
    if SliceFrom(f, c.shape, c.strict, c.zero, 0).0.Err? {
      var k :| 0 <= k < |rd.rows| && ScanAt(f, c.shape, c.strict, c.zero, k).0.Err?;
      assert RowBare(rd, c, k).Err?;
    }
  }

  /** A slice call drifts unless all rows come out alike, or some row fails behind the recorder
      and some row without it. */
  lemma {:induction false} SliceDrifts<D>(sys: System<D>, c: Call<D>)
    requires WideRows(sys.data(c.key)) && c.slice
    ensures var rd := sys.data(c.key);
      Drifts(sys, c) <==>
        && (exists k :: 0 <= k < |rd.rows| && !RowAlike(rd, c, k))
        && ((forall k | 0 <= k < |rd.rows| :: RowBehind(rd, c, k).Ok?)
          || forall k | 0 <= k < |rd.rows| :: RowBare(rd, c, k).Ok?)
  {
    var rd := sys.data(c.key);
    RowsBehind(rd, c);
    RowsBare(rd, c);
    var behind, plain := SliceFrom(Full(rd), c.shape, c.strict, c.zero, 0).0,
      SliceFrom(Bare(rd), c.shape, c.strict, c.zero, 0).0;
    assert Drifts(sys, c) <==> !Alike(behind, plain);
    hide RowBehind, RowBare, SliceFrom, Drifts;
    if behind.Ok? && plain.Err? {
      var k :| 0 <= k < |rd.rows| && RowBare(rd, c, k).Err?;
      assert !RowAlike(rd, c, k);
    } else if behind.Err? && plain.Ok? {
      var k :| 0 <= k < |rd.rows| && RowBehind(rd, c, k).Err?;
      assert !RowAlike(rd, c, k);
    } else if behind.Ok? {
      if k :| 0 <= k < |rd.rows| && behind.value[k] != plain.value[k] {
        assert !RowAlike(rd, c, k);
      } else {
        assert behind.value == plain.value;
      }
    }
  }

  /** Only structs drift. */
  lemma {:induction false} OnlyStructsDrift<D>(sys: System<D>, c: Call<D>)
    requires WideRows(sys.data(c.key)) && !c.shape.StructShape?
    ensures !Drifts(sys, c)
  {
    var rd := sys.data(c.key);
    assert forall k | 0 <= k < |rd.rows| :: RowAlike(rd, c, k);
    if c.slice { SliceDrifts(sys, c); } else { OneDrifts(sys, c); }
  }

  /** And only at rows for which the driver does not agree. */
  lemma {:induction false} StructRowAlike<V(!new)>(rd: RowData, c: Call<map<nat, V>>, find: Find, conv: Conv<V>,
                                                   fast: nat -> bool, direct: Conv<V>, k: nat)
    requires WideRows(rd) && k < |rd.rows| && c.shape == StructOf(find, conv, fast, direct)
    ensures |rd.rows[k]| == |rd.columns|
    ensures RowAlike(rd, c, k) <==> DriverAgrees(find, conv, fast, direct, rd.columns, rd.rows[k], c.strict)
  {
    assert rd.rows[k] in rd.rows;
    StructAgrees(find, conv, fast, direct, rd.columns, rd.rows[k], c.strict, c.zero);
    hide Convert, ConvertPlain, DriverAgrees;
  }

  // ----- what one call leaves another -----

  /** A slice scan of the first row behind a recorder is the uncached answer if and only if the
      scan of all rows is, and there is no other row or the first one fails. */
  lemma {:induction false} FirstRowSlice<D>(rd: RowData, c: Call<D>, truth: Answer<D>)
    requires WideRows(rd) && rd.rows != [] && c.slice
    requires WideRows(RowData(rd.columns, rd.rows[..1])) && truth == ScanInto(c, Bare(rd)).0
    ensures Same(ScanInto(c, Full(RowData(rd.columns, rd.rows[..1]))).0, truth)
      <==> Same(ScanInto(c, Full(rd)).0, truth) && (|rd.rows| == 1 || RowBehind(rd, c, 0).Err?)
  {
    var first := RowData(rd.columns, rd.rows[..1]);
    assert RowBehind(first, c, 0) == RowBehind(rd, c, 0);
    SliceValues(Full(first), c.shape, c.strict, c.zero, 0);
    RowsBehind(rd, c);
    RowsBare(rd, c);
    hide ScanAt, SliceFrom;
    if |rd.rows| == 1 { assert rd.rows[..1] == rd.rows; }
  }

  /** With whole-minute offsets, what one call leaves serves another if and only if the other does
      not drift and the two do not clash. */
  lemma {:induction false} ServesUnlessClash<D>(sys: System<D>, c: Call<D>, d: Call<D>)
    requires Wide(sys) && AllWhole(sys.data(c.key)) && c.key == d.key
    ensures Serves(sys, c, d) <==> (Leaves(sys, c) ==> !Drifts(sys, d)) && !Clash(sys, c, d)
  {
    RecordingWide(sys, c);
    if Leaves(sys, c) {
      var rd, rec := sys.data(c.key), Recording(sys, c);
      assert forall row <- rec.rows :: row in rd.rows;
      KeptWhole(rec);
      if !c.slice {
        FirstRowOnly(rd.columns, rd.rows, d.shape, d.strict, d.zero);
        if d.slice { FirstRowSlice(rd, d, Truth(sys, d)); }
        hide ScanSliceSpec, ScanOneSpec, ScanAt, Leaves, Recording, KeptData, Scan.Regular;
      }
    }
  }

  /** When two calls clash, some run serves the slice call one row in place of several, or of the
      error at another one. */
  lemma {:induction false} Mixed<D>(sys: System<D>, i: nat, j: nat) returns (run: seq<Move>)
    requires Wide(sys) && i < |sys.calls| && j < |sys.calls| && AllWhole(sys.data(sys.calls[i].key))
    requires Clash(sys, sys.calls[i], sys.calls[j])
    ensures RunTo(sys, run, |run|).Some?
    ensures var pc := RunTo(sys, run, |run|).value.pcs[j];
      pc.Finished? && pc.hit && !Same(pc.answer, Truth(sys, sys.calls[j]))
  {
    ServesUnlessClash(sys, sys.calls[i], sys.calls[j]);
    RecordingWide(sys, sys.calls[i]);
    assert i != j && sys.calls[i].key == sys.calls[j].key && Leaves(sys, sys.calls[i]);
    hide Wide, RunTo, Leaves, Clash, Recording, Replayed, Truth;
    run := Follows(sys, i, j);
  }

  /** With whole-minute offsets: the cache is transparent if and only if no call that it can answer
      drifts, and no one-row call that leaves the first of several rows shares its key with a
      slice call that can scan that row. */
  lemma {:induction false} TransparentUnlessMixed<D>(sys: System<D>)
    requires Wide(sys) && forall key :: AllWhole(sys.data(key))
    ensures Transparent(sys) <==> Unmixed(sys) && Steady(sys)
  {
    TransparentExactly(sys);
    forall i, j | 0 <= i < |sys.calls| && 0 <= j < |sys.calls| && sys.calls[i].key == sys.calls[j].key
      ensures Serves(sys, sys.calls[i], sys.calls[j]) <==>
        (Leaves(sys, sys.calls[i]) ==> !Drifts(sys, sys.calls[j])) && !Clash(sys, sys.calls[i], sys.calls[j])
    {
      ServesUnlessClash(sys, sys.calls[i], sys.calls[j]);
    }
    hide Transparent, Serves, Leaves, Wide, ScanAt, Behind, Truth;
  }

  // ----- a NULL -----

  /** One call on its own, into a struct with an int field, for one row with a NULL: the cache
      shows, although nothing clashes. */
  lemma {:induction false} NullShows(sys: System<map<nat, int>>, c: Call<map<nat, int>>, conv: Conv<int>,
                                     direct: Conv<int>, col: Bytes)
    requires Wide(sys) && sys.calls == [c] && sys.data(c.key) == RowData([col], [[Null]])
    requires NullRules(conv, direct) && c.shape == IntField(conv, direct) && c.zero == map[]
    ensures !Transparent(sys) && Unmixed(sys)
  {
    var rd := sys.data(c.key);
    NullDiffers(conv, direct, col, c.strict);
    assert RowBehind(rd, c, 0).Ok? && !RowAlike(rd, c, 0);
    TransparentExactly(sys);
    if c.slice { SliceDrifts(sys, c); } else { OneDrifts(sys, c); }
    assert Succeeded(Behind(sys, c)) by {
      if c.slice { SliceValues(Full(rd), c.shape, c.strict, c.zero, 0); }
    }
    assert !Keeps(sys, sys.calls[0]);
    hide Transparent, Serves, Wide, ScanAt, Behind, Truth;
  }

  // ----- rows that another plugin supplied -----

  /** Behind a miss, rows that another plugin supplies reach the call but not the recorder: when
      nothing goes wrong the entry is empty, and the next call is served no rows. */
  lemma {:induction false} SuppliedEmpties<D>(sys: System<D>, i: nat, j: nat, at: Attempt) returns (run: seq<Move>)
    requires i < |sys.calls| && j < |sys.calls| && i != j && sys.calls[i].key == sys.calls[j].key
    requires at.Supplied? && at.closes && AttemptOf(at, sys.data(sys.calls[i].key), sys.others)
    requires Succeeded(ScanInto(sys.calls[i], at.feed).0)
    ensures RunTo(sys, run, |run|).Some?
    ensures RunTo(sys, run, |run|).value.pcs[j] ==
      Finished(if sys.calls[j].slice then Many(Ok([])) else Single(Err(NoRows)), true)
  {
    var none := RowData([], []);
    RoundTripExact(none);
    NoRowsLeft(sys.calls[j]);
    hide RunTo, AttemptOf, ScanInto, Decoded, Encoded, Succeeded;
    var s: State<D>;
    run, s := AloneStores(sys, i, at);
    run := Hits(sys, j, run, s, none);
  }

  lemma NoRowsLeft<D>(c: Call<D>)
    ensures ScanInto(c, Full(RowData([], []))).0 == if c.slice then Many(Ok([])) else Single(Err(NoRows))
  {}
}
