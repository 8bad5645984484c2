/** Cache transparency: over every interleaving of cached calls, against a fixed database and a
    store that may lose entries at any time, exactly when a call returns what it would return
    uncached, where no recorder stands between the driver and the fields. */
module Transparency {
  import opened Wrappers
  import opened Varints
  import opened Codec
  import opened Scan
  import opened Flight
  import opened Protocol

  /** Results as a driver delivers them, of sizes a Go program can have, and no plugin but the
      cache that supplies rows. */
  ghost predicate Wide<D>(sys: System<D>) {
    !sys.others && forall key :: WideRows(sys.data(key)) && DataSized(sys.data(key))
  }

  /** What a call's clean scan of the full result records, and what the codec keeps of it. */
  function Recording<D>(sys: System<D>, c: Call<D>): RowData
    requires WideRows(sys.data(c.key))
  {
    ScanInto(c, Full(sys.data(c.key))).1
  }

  /** Whether the call, run alone, leaves an entry. */
  predicate Leaves<D>(sys: System<D>, c: Call<D>)
    requires WideRows(sys.data(c.key))
  {
    Succeeded(Behind(sys, c)) && Encodable(Recording(sys, c))
  }

  /** A call's answer from a recording, after the codec. */
  function Replayed<D>(c: Call<D>, rec: RowData): Answer<D>
    requires WideRows(rec)
  {
    KeptWide(rec);
    ScanInto(c, Full(KeptData(rec))).0
  }

  /** A call that succeeds behind the recorder succeeds without it, with the same result; and what
      one call leaves gives every other call on its key the uncached answer. */
  ghost predicate Interchangeable<D>(sys: System<D>)
    requires Wide(sys)
  {
    && (forall i | 0 <= i < |sys.calls| :: Keeps(sys, sys.calls[i]))
    && forall i, j | 0 <= i < |sys.calls| && 0 <= j < |sys.calls| && i != j && sys.calls[i].key == sys.calls[j].key ::
      Serves(sys, sys.calls[i], sys.calls[j])
  }

  predicate Keeps<D(==)>(sys: System<D>, c: Call<D>)
    requires WideRows(sys.data(c.key))
  {
    Succeeded(Behind(sys, c)) ==> Same(Behind(sys, c), Truth(sys, c))
  }

  ghost predicate Serves<D>(sys: System<D>, c: Call<D>, d: Call<D>)
    requires Wide(sys)
  {
    RecordingWide(sys, c);
    Leaves(sys, c) ==> Same(Replayed(d, Recording(sys, c)), Truth(sys, d))
  }

  lemma {:induction false} KeptWide(rec: RowData)
    requires WideRows(rec)
    ensures WideRows(KeptData(rec))
  {
    var kept := KeptData(rec);
    forall row | row in kept.rows ensures |row| == |kept.columns| {
      var i :| 0 <= i < |kept.rows| && kept.rows[i] == row;
      assert rec.rows[i] in rec.rows;
    }
  }

  lemma {:induction false} RecordingWide<D>(sys: System<D>, c: Call<D>)
    requires Wide(sys)
    ensures WideRows(Recording(sys, c)) && DataSized(Recording(sys, c))
    ensures Leaves(sys, c) && !c.slice ==> sys.data(c.key).rows != []
    ensures var rd := sys.data(c.key);
      Leaves(sys, c) ==> Recording(sys, c) == if c.slice then rd else RowData(rd.columns, rd.rows[..1])
  {
    var f := Full(sys.data(c.key));
    if c.slice {
      SliceWide(f, c.shape, c.strict, c.zero, 0);
      if Leaves(sys, c) { CleanRecords(f, c.shape, c.strict, c.zero, 0); }
    }
    assert forall row <- Recording(sys, c).rows :: row in f.rows;
  }

  lemma {:induction false} SliceWide<D>(f: Feed, shape: Shape<D>, strict: bool, zero: D, i: nat)
    requires Scan.Regular(f) && f.cols.Ok? && i <= |f.rows|
    ensures var rec := SliceFrom(f, shape, strict, zero, i).1;
      |rec| <= |f.rows| - i && forall row <- rec :: row in f.rows
    decreases |f.rows| - i
  {
    if i < |f.rows| { SliceWide(f, shape, strict, zero, i + 1); }
  }

  // ----- a run keeps to the uncached answers -----

  /** The answers of finished calls that succeeded or were served from the cache. */
  ghost predicate Right<D>(sys: System<D>, s: State<D>)
    requires Wide(sys)
  {
    forall i | 0 <= i < |s.pcs| && i < |sys.calls| :: RightPc(sys, sys.calls[i], s.pcs[i])
  }

  ghost predicate RightPc<D>(sys: System<D>, c: Call<D>, pc: Pc<D>)
    requires Wide(sys)
  {
    pc.Finished? && (pc.hit || Succeeded(pc.answer)) ==> Same(pc.answer, Truth(sys, c))
  }

  ghost predicate GoodPc<D>(sys: System<D>, c: Call<D>, pc: Pc<D>)
    requires Wide(sys)
  {
    match pc
    case Storing(a, rec) =>
      if rec.Some? then a == Behind(sys, c) && Succeeded(a) && rec.value == Recording(sys, c) else !Succeeded(a)
    case Releasing(a, hit) => hit || Succeeded(a) ==> Same(a, Truth(sys, c))
    case Finished(a, hit) => hit || Succeeded(a) ==> Same(a, Truth(sys, c))
    case _ => true
  }

  /** An entry is what some call left, which is past storing it. */
  ghost predicate LeftBy<D>(sys: System<D>, s: State<D>, key: string, i: nat)
    requires Wide(sys)
  {
    && i < |sys.calls| && i < |s.pcs| && sys.calls[i].key == key && (s.pcs[i].Releasing? || s.pcs[i].Finished?)
    && key in s.store && Leaves(sys, sys.calls[i]) && s.store[key] == Encoded(Recording(sys, sys.calls[i]))
  }

  ghost predicate Left<D>(sys: System<D>, s: State<D>, key: string)
    requires Wide(sys)
  {
    exists i: nat :: LeftBy(sys, s, key, i)
  }

  ghost predicate Inv<D>(sys: System<D>, s: State<D>)
    requires Wide(sys)
  {
    && |s.pcs| == |sys.calls|
    && (forall k <- s.store :: Left(sys, s, k))
    && (forall i | 0 <= i < |s.pcs| :: GoodPc(sys, sys.calls[i], s.pcs[i]))
  }

  // ----- misses -----

  /** A one-row scan of a replay does not look past the first row. */
  lemma FirstRowOnly<D>(cols: seq<Bytes>, rows: seq<Row>, shape: Shape<D>, strict: bool, zero: D)
    requires rows != [] && Scan.Regular(Replay(cols, rows))
    ensures Scan.Regular(Replay(cols, rows[..1]))
    ensures ScanOneSpec(Replay(cols, rows[..1]), shape, strict, zero) ==
      ScanOneSpec(Replay(cols, rows), shape, strict, zero)
  {}

  lemma {:induction false} CleanSlice<D>(full: RowData, f: Feed, shape: Shape<D>, strict: bool, zero: D)
    requires AttemptOf(Rows(f, true), full, false) && WideRows(full)
    requires ScanSliceSpec(f, shape, strict, zero).result.Ok?
    ensures var s := ScanSliceSpec(f, shape, strict, zero);
      && RowData(s.cols, s.rows) == full
      && ScanSliceSpec(Full(full), shape, strict, zero).result == s.result
  {
    HitEqualsMissSlice(f, shape, strict, zero, shape, strict, zero);
    CleanRecords(f, shape, strict, zero, 0);
  }

  /** A query that scanned and closed cleanly gave and recorded what the full result does behind
      the recorder. */
  lemma {:induction false} CleanFetch<D>(sys: System<D>, c: Call<D>, f: Feed)
    requires Wide(sys) && AttemptOf(Rows(f, true), sys.data(c.key), false) && Succeeded(ScanInto(c, f).0)
    ensures ScanInto(c, f) == (Behind(sys, c), Recording(sys, c))
  {
    var full := sys.data(c.key);
    if c.slice {
      CleanSlice(full, f, c.shape, c.strict, c.zero);
      CleanRecords(Full(full), c.shape, c.strict, c.zero, 0);
    } else {
      HitEqualsMissOne(f, c.shape, c.strict, c.zero, c.shape, c.strict, c.zero);
      assert full.rows[0] == f.rows[0] && full.rows[..1] == [f.rows[0]];
      FirstRowOnly(full.columns, full.rows, c.shape, c.strict, c.zero);
    }
  }

  lemma {:induction false} FetchGood<D>(sys: System<D>, s: State<D>, i: nat, l: Label)
    requires Wide(sys) && i < |sys.calls| && l.Fetch?
    requires Act(sys, sys.calls[i], s.table, s.store, Query, l).Some?
    ensures var next := Act(sys, sys.calls[i], s.table, s.store, Query, l).value;
      GoodPc(sys, sys.calls[i], next.pc) && next.store == s.store
  {
    var c := sys.calls[i];
    assert !Succeeded(Fail(c));
    if l.attempt.Rows? && Succeeded(ScanInto(c, l.attempt.feed).0) { CleanFetch(sys, c, l.attempt.feed); }
    hide Wide, ScanInto, Succeeded, Fail, Truth, Behind, Recording;
  }

  // ----- hits -----

  /** An entry that another call left gives the uncached answer. */
  lemma {:induction false} HitGood<D>(sys: System<D>, s: State<D>, i: nat)
    requires Wide(sys) && Interchangeable(sys) && Inv(sys, s) && i < |s.pcs|
    requires !s.pcs[i].Releasing? && !s.pcs[i].Finished? && WideEntry(s.store, sys.calls[i].key)
    ensures Same(ScanInto(sys.calls[i], Full(Decoded(s.store[sys.calls[i].key]).value)).0, Truth(sys, sys.calls[i]))
  {
    var c := sys.calls[i];
    assert Left(sys, s, c.key);
    var k: nat :| LeftBy(sys, s, c.key, k);
    assert Serves(sys, sys.calls[k], c);
    RecordingWide(sys, sys.calls[k]);
    RoundTrip(Recording(sys, sys.calls[k]));
    hide Wide, Interchangeable, Inv, ScanInto, Truth, Recording, Encodable, Decoded, Encoded, KeptData, Succeeded;
  }

  // ----- every run -----

  lemma ActPut<D>(sys: System<D>, c: Call<D>, table: Table, store: map<string, Bytes>, pc: Pc<D>, ok: bool)
    requires pc.Storing?
    ensures var stored := ok && pc.rec.Some? && Encodable(pc.rec.value);
      Act(sys, c, table, store, pc, Put(ok))
        == Some(Change(table, (if stored then store[c.key := Encoded(pc.rec.value)] else store),
          Releasing(pc.answer, false)))
  {}

  /** Entries that a step does not touch stay left by the calls that left them. */
  lemma {:induction false} OthersLeft<D>(sys: System<D>, s: State<D>, t: State<D>, i: nat, key: string)
    requires Wide(sys) && Left(sys, s, key) && i < |s.pcs| == |t.pcs| && t.pcs == s.pcs[i := t.pcs[i]]
    requires key in t.store && t.store[key] == s.store[key]
    requires s.pcs[i].Releasing? || s.pcs[i].Finished? ==> t.pcs[i].Releasing? || t.pcs[i].Finished?
    ensures Left(sys, t, key)
  {
    hide Leaves, Recording, Encoded, Wide;
    var k: nat :| LeftBy(sys, s, key, k);
    assert LeftBy(sys, t, key, k);
  }

  lemma {:induction false} NewLeft<D>(sys: System<D>, t: State<D>, i: nat)
    requires Wide(sys) && i < |t.pcs| && i < |sys.calls| && t.pcs[i].Releasing?
    requires Leaves(sys, sys.calls[i])
    requires sys.calls[i].key in t.store && t.store[sys.calls[i].key] == Encoded(Recording(sys, sys.calls[i]))
    ensures Left(sys, t, sys.calls[i].key)
  {
    assert LeftBy(sys, t, sys.calls[i].key, i) by { hide Recording, Encoded, Leaves; }
  }

  /** A Put leaves an entry of its own call, or none. */
  lemma {:induction false} PutKeeps<D>(sys: System<D>, s: State<D>, t: State<D>, i: nat, ok: bool)
    requires Wide(sys) && Interchangeable(sys) && Inv(sys, s) && i < |s.pcs| && s.pcs[i].Storing?
    requires var pc, key := s.pcs[i], sys.calls[i].key;
      var stored := ok && pc.rec.Some? && Encodable(pc.rec.value);
      && t.store == (if stored then s.store[key := Encoded(pc.rec.value)] else s.store)
      && t.pcs == s.pcs[i := Releasing(pc.answer, false)]
    ensures Inv(sys, t)
  {
    var pc := s.pcs[i];
    assert GoodPc(sys, sys.calls[i], pc);
    assert |s.pcs| == |sys.calls| && Keeps(sys, sys.calls[i]);
    assert GoodPc(sys, sys.calls[i], Releasing(pc.answer, false)) by { hide Behind, Truth, Same, Succeeded, Recording; }
    assert forall k <- s.store :: Left(sys, s, k);
    forall k | k in t.store ensures Left(sys, t, k) { PutLeaves(sys, s, t, i, ok, k); }
    hide Wide, Interchangeable, Left, GoodPc, Encodable, Encoded;
  }

  lemma {:induction false} PutLeaves<D>(sys: System<D>, s: State<D>, t: State<D>, i: nat, ok: bool, k: string)
    requires Wide(sys) && i < |s.pcs| == |sys.calls| && s.pcs[i].Storing? && GoodPc(sys, sys.calls[i], s.pcs[i])
    requires k in s.store ==> Left(sys, s, k)
    requires var pc, key := s.pcs[i], sys.calls[i].key;
      var stored := ok && pc.rec.Some? && Encodable(pc.rec.value);
      && t.store == (if stored then s.store[key := Encoded(pc.rec.value)] else s.store)
      && t.pcs == s.pcs[i := Releasing(pc.answer, false)]
    requires k in t.store
    ensures Left(sys, t, k)
  {
    var c, pc := sys.calls[i], s.pcs[i];
    assert pc.rec.Some? ==> Succeeded(Behind(sys, c)) && pc.rec.value == Recording(sys, c);
    hide Wide, Recording, Behind, Encodable, Encoded, Succeeded, GoodPc, Left;
    if k == c.key && ok && pc.rec.Some? && Encodable(pc.rec.value) {
      NewLeft(sys, t, i);
    } else {
      OthersLeft(sys, s, t, i, k);
    }
  }

  lemma ActLook<D>(sys: System<D>, c: Call<D>, table: Table, store: map<string, Bytes>, pc: Pc<D>, hit: bool)
    requires Act(sys, c, table, store, pc, Look(hit)).Some?
    ensures var next := Act(sys, c, table, store, pc, Look(hit)).value;
      && (pc.Woken? || pc.LeadCheck?) && next.store == store
      && if !hit then next.pc.Start? || next.pc.Query?
         else
           var a := ScanInto(c, Full(Decoded(store[c.key]).value)).0;
           WideEntry(store, c.key) && (next.pc == Releasing(a, true) || next.pc == Finished(a, true))
  {}

  /** Looking an entry up. */
  lemma {:induction false} LookGood<D>(sys: System<D>, s: State<D>, i: nat, hit: bool)
    requires Wide(sys) && Interchangeable(sys) && Inv(sys, s) && i < |s.pcs|
    requires Act(sys, sys.calls[i], s.table, s.store, s.pcs[i], Look(hit)).Some?
    ensures var next := Act(sys, sys.calls[i], s.table, s.store, s.pcs[i], Look(hit)).value;
      GoodPc(sys, sys.calls[i], next.pc) && next.store == s.store
    ensures !s.pcs[i].Releasing? && !s.pcs[i].Finished?
  {
    assert |s.pcs| == |sys.calls|;
    hide Act, Wide, Interchangeable, Inv, ScanInto, Truth, Succeeded, WideEntry, Recording, Decoded;
    ActLook(sys, sys.calls[i], s.table, s.store, s.pcs[i], hit);
    if hit { HitGood(sys, s, i); }
  }

  lemma {:induction false} ActGood<D>(sys: System<D>, s: State<D>, i: nat, l: Label)
    requires Wide(sys) && Interchangeable(sys) && Inv(sys, s) && i < |s.pcs| && !l.Put?
    requires Act(sys, sys.calls[i], s.table, s.store, s.pcs[i], l).Some?
    ensures var next := Act(sys, sys.calls[i], s.table, s.store, s.pcs[i], l).value;
      && GoodPc(sys, sys.calls[i], next.pc) && next.store == s.store
      && (s.pcs[i].Releasing? || s.pcs[i].Finished? ==> next.pc.Releasing? || next.pc.Finished?)
  {
    assert GoodPc(sys, sys.calls[i], s.pcs[i]);
    if l.Fetch? {
      assert s.pcs[i] == Query;
      FetchGood(sys, s, i, l);
      hide *;
    } else if l.Look? {
      LookGood(sys, s, i, l.hit);
      hide *;
    } else {
      hide Wide, Interchangeable, Inv, ScanInto, Truth, Succeeded, Recording;
    }
  }

  lemma {:induction false} ForgetKeeps<D>(sys: System<D>, s: State<D>, t: State<D>, key: string)
    requires Wide(sys) && Inv(sys, s) && t == s.(store := s.store - {key})
    ensures Inv(sys, t)
  {
    hide GoodPc, Wide, Leaves, Recording, Encoded;
    forall k | k in t.store ensures Left(sys, t, k) {
      assert Left(sys, s, k);
      var n: nat :| LeftBy(sys, s, k, n);
      assert LeftBy(sys, t, k, n);
    }
  }

  lemma {:induction false} QuietKeeps<D>(sys: System<D>, s: State<D>, t: State<D>, i: nat, pc: Pc<D>)
    requires Wide(sys) && Inv(sys, s) && i < |s.pcs| && t.store == s.store && t.pcs == s.pcs[i := pc]
    requires GoodPc(sys, sys.calls[i], pc)
    requires s.pcs[i].Releasing? || s.pcs[i].Finished? ==> pc.Releasing? || pc.Finished?
    ensures Inv(sys, t)
  {
    hide GoodPc, Left, Wide;
    forall k | k in t.store ensures Left(sys, t, k) { OthersLeft(sys, s, t, i, k); }
  }

  lemma {:induction false} StepKeeps<D>(sys: System<D>, s: State<D>, i: nat, l: Label)
    requires Wide(sys) && Interchangeable(sys) && Inv(sys, s) && Step(sys, s, i, l).Some?
    ensures Inv(sys, Step(sys, s, i, l).value)
  {
    var t := Step(sys, s, i, l).value;
    if l.Forget? {
      hide Act;
      ForgetKeeps(sys, s, t, l.key);
    } else if l.Put? {
      assert s.pcs[i].Storing? by { hide Inv, Wide, Interchangeable, Encodable, Encoded; }
      ActPut(sys, sys.calls[i], s.table, s.store, s.pcs[i], l.ok);
      hide Act, Inv, Wide, Interchangeable, Encodable, Encoded;
      PutKeeps(sys, s, t, i, l.ok);
    } else {
      ActGood(sys, s, i, l);
      hide Act, GoodPc, Inv, Wide, Interchangeable;
      QuietKeeps(sys, s, t, i, t.pcs[i]);
    }
  }

  lemma {:induction false} Reachable<D>(sys: System<D>, run: seq<Move>, n: nat)
    requires Wide(sys) && Interchangeable(sys) && n <= |run| && RunTo(sys, run, n).Some?
    ensures Inv(sys, RunTo(sys, run, n).value)
  {
    hide *;
    if n == 0 {
      Starts(sys, run);
    } else {
      LastMove(sys, run, n);
      Reachable(sys, run, n - 1);
      StepKeeps(sys, RunTo(sys, run, n - 1).value, run[n - 1].who, run[n - 1].what);
    }
  }

  lemma {:induction false} Starts<D>(sys: System<D>, run: seq<Move>)
    requires Wide(sys)
    ensures RunTo(sys, run, 0).Some? && Inv(sys, RunTo(sys, run, 0).value)
  {}

  lemma {:induction false} InvIsRight<D>(sys: System<D>, s: State<D>)
    requires Wide(sys) && Inv(sys, s)
    ensures Right(sys, s)
  {
    hide Wide, Left, Truth, Succeeded;
    forall i | 0 <= i < |s.pcs| && i < |sys.calls| ensures RightPc(sys, sys.calls[i], s.pcs[i]) {
      assert GoodPc(sys, sys.calls[i], s.pcs[i]);
    }
  }

  // ----- a run that shows what one call leaves another -----

  lemma {:induction false} Prefix<D>(sys: System<D>, run: seq<Move>, more: seq<Move>, n: nat)
    requires n <= |run|
    ensures RunTo(sys, run + more, n) == RunTo(sys, run, n)
  {
    if n > 0 { Prefix(sys, run, more, n - 1); }
  }

  /** One more move of call `i`, which is at `pc`. */
  lemma {:induction false} Extend<D>(sys: System<D>, run: seq<Move>, s: State<D>, i: nat, pc: Pc<D>, l: Label)
      returns (longer: seq<Move>, t: State<D>)
    requires RunTo(sys, run, |run|) == Some(s) && |s.pcs| == |sys.calls| && i < |s.pcs| && s.pcs[i] == pc
    requires !l.Forget? && Act(sys, sys.calls[i], s.table, s.store, pc, l).Some?
    ensures RunTo(sys, longer, |longer|) == Some(t)
    ensures var next := Act(sys, sys.calls[i], s.table, s.store, pc, l).value;
      t.table == next.table && t.store == next.store && |t.pcs| == |s.pcs| && t.pcs[i] == next.pc
    ensures forall j | 0 <= j < |s.pcs| && j != i :: t.pcs[j] == s.pcs[j]
  {
    longer := run + [Move(i, l)];
    Prefix(sys, run, [Move(i, l)], |run|);
    hide Act;
    t := Step(sys, s, i, l).value;
  }

  lemma ActLead<D>(sys: System<D>, c: Call<D>, table: Table, store: map<string, Bytes>)
    requires c.key !in table.calls
    ensures Act(sys, c, table, store, Start, Label.Acquire)
      == Some(Change(if sys.singleflight then table.Acquire(c.key).0 else table, store, LeadCheck))
    ensures table.Acquire(c.key).0.Done(c.key).calls == table.calls
    ensures table.Done(c.key) == table
  {}

  lemma ActClean<D>(sys: System<D>, c: Call<D>, table: Table, store: map<string, Bytes>, at: Attempt)
    requires !at.Refused? && at.closes && AttemptOf(at, sys.data(c.key), sys.others)
    requires Succeeded(ScanInto(c, at.feed).0)
    ensures Act(sys, c, table, store, Query, Fetch(at))
      == Some(Change(table, store, Storing(ScanInto(c, at.feed).0, Some(Recorded(at, ScanInto(c, at.feed).1)))))
  {}

  lemma ActRelease<D>(sys: System<D>, c: Call<D>, table: Table, store: map<string, Bytes>, a: Answer<D>, hit: bool)
    ensures Act(sys, c, table, store, Releasing(a, hit), Release)
      == Some(Change(table.Done(c.key), store, Finished(a, hit)))
  {}

  lemma ActMiss<D>(sys: System<D>, c: Call<D>, table: Table, store: map<string, Bytes>)
    ensures Act(sys, c, table, store, LeadCheck, Look(false)) == Some(Change(table, store, Query))
  {}

  lemma ActHit<D>(sys: System<D>, c: Call<D>, table: Table, store: map<string, Bytes>, rd: RowData)
    requires c.key in store && Decoded(store[c.key]) == Ok(rd) && WideRows(rd)
    ensures var a := ScanInto(c, Full(rd)).0;
      Act(sys, c, table, store, LeadCheck, Look(true))
        == Some(Change(table, store, if sys.singleflight then Releasing(a, true) else Finished(a, true)))
  {}

  lemma {:induction false} Blank<D>(sys: System<D>) returns (s: State<D>)
    ensures RunTo(sys, [], 0) == Some(s) && |s.pcs| == |sys.calls| && s.table.calls == map[]
    ensures forall j | 0 <= j < |s.pcs| :: s.pcs[j] == Start
  { s := Initial(sys); }

  /** Call `i` alone, up to its recording. */
  lemma {:induction false} AloneFetches<D>(sys: System<D>, i: nat, at: Attempt) returns (run: seq<Move>, s: State<D>)
    requires i < |sys.calls| && !at.Refused? && at.closes && AttemptOf(at, sys.data(sys.calls[i].key), sys.others)
    requires Succeeded(ScanInto(sys.calls[i], at.feed).0)
    ensures RunTo(sys, run, |run|) == Some(s) && |s.pcs| == |sys.calls| && s.table.Done(sys.calls[i].key).calls == map[]
    ensures forall j | 0 <= j < |s.pcs| && j != i :: s.pcs[j].Start?
    ensures var (a, rec) := ScanInto(sys.calls[i], at.feed); s.pcs[i] == Storing(a, Some(Recorded(at, rec)))
  {
    hide *;
    var c := sys.calls[i];
    s := Blank(sys);
    ActLead(sys, c, s.table, s.store);
    run, s := Extend(sys, [], s, i, Start, Label.Acquire);
    ActMiss(sys, c, s.table, s.store);
    run, s := Extend(sys, run, s, i, LeadCheck, Look(false));
    ActClean(sys, c, s.table, s.store, at);
    run, s := Extend(sys, run, s, i, Query, Fetch(at));
  }

  /** Call `i` alone and without an error; it leaves its recording if that can be encoded. */
  lemma {:induction false} AloneStores<D>(sys: System<D>, i: nat, at: Attempt) returns (run: seq<Move>, s: State<D>)
    requires i < |sys.calls| && !at.Refused? && at.closes && AttemptOf(at, sys.data(sys.calls[i].key), sys.others)
    requires Succeeded(ScanInto(sys.calls[i], at.feed).0)
    ensures RunTo(sys, run, |run|) == Some(s) && |s.pcs| == |sys.calls|
    ensures s.table.calls == map[] && forall j | 0 <= j < |s.pcs| && j != i :: s.pcs[j].Start?
    ensures s.pcs[i] == Finished(ScanInto(sys.calls[i], at.feed).0, false)
    ensures var rec := Recorded(at, ScanInto(sys.calls[i], at.feed).1);
      Encodable(rec) ==> sys.calls[i].key in s.store && s.store[sys.calls[i].key] == Encoded(rec)
  {
    var c := sys.calls[i];
    var (a, rec) := ScanInto(c, at.feed);
    hide *;
    run, s := AloneFetches(sys, i, at);
    ActPut(sys, c, s.table, s.store, s.pcs[i], true);
    run, s := Extend(sys, run, s, i, Storing(a, Some(Recorded(at, rec))), Put(true));
    ActRelease(sys, c, s.table, s.store, a, false);
    run, s := Extend(sys, run, s, i, Releasing(a, false), Release);
  }

  /** Call `i` alone, from start to end, with nothing going wrong; it leaves an entry if it can. */
  lemma {:induction false} Alone<D>(sys: System<D>, i: nat) returns (run: seq<Move>, s: State<D>)
    requires Wide(sys) && i < |sys.calls| && Succeeded(Behind(sys, sys.calls[i]))
    ensures RunTo(sys, run, |run|) == Some(s) && |s.pcs| == |sys.calls|
    ensures s.table.calls == map[] && forall j | 0 <= j < |s.pcs| && j != i :: s.pcs[j].Start?
    ensures s.pcs[i] == Finished(Behind(sys, sys.calls[i]), false)
    ensures Encodable(Recording(sys, sys.calls[i])) ==>
      sys.calls[i].key in s.store && s.store[sys.calls[i].key] == Encoded(Recording(sys, sys.calls[i]))
  {
    var c := sys.calls[i];
    CleanStart(sys, c);
    var at := Rows(Full(sys.data(c.key)), true);
    assert Recorded(at, Recording(sys, c)) == Recording(sys, c);
    hide *;
    run, s := AloneStores(sys, i, at);
  }

  lemma {:induction false} CleanStart<D>(sys: System<D>, c: Call<D>)
    requires Wide(sys) && Succeeded(Behind(sys, c))
    ensures var f := Full(sys.data(c.key));
      && Scan.Regular(f) && AttemptOf(Rows(f, true), sys.data(c.key), sys.others) && Succeeded(ScanInto(c, f).0)
      && ScanInto(c, f).0 == Behind(sys, c) && ScanInto(c, f).1 == Recording(sys, c)
  {
    hide ScanInto, Succeeded;
  }

  /** A call alone on its key finds the entry and finishes with it. */
  lemma {:induction false} Hits<D>(sys: System<D>, j: nat, run: seq<Move>, s: State<D>,
                                   rd: RowData) returns (longer: seq<Move>)
    requires j < |sys.calls| && RunTo(sys, run, |run|) == Some(s) && |s.pcs| == |sys.calls| && s.pcs[j].Start?
    requires s.table.calls == map[] && sys.calls[j].key in s.store
    requires WideRows(rd) && Decoded(s.store[sys.calls[j].key]) == Ok(rd)
    ensures RunTo(sys, longer, |longer|).Some?
    ensures RunTo(sys, longer, |longer|).value.pcs[j] == Finished(ScanInto(sys.calls[j], Full(rd)).0, true)
  {
    var c := sys.calls[j];
    var a := ScanInto(c, Full(rd)).0;
    var t: State<D>;
    hide *;
    ActLead(sys, c, s.table, s.store);
    longer, t := Extend(sys, run, s, j, Start, Label.Acquire);
    ActHit(sys, c, t.table, t.store, rd);
    longer, t := Extend(sys, longer, t, j, LeadCheck, Look(true));
    if sys.singleflight {
      ActRelease(sys, c, t.table, t.store, a, true);
      longer, t := Extend(sys, longer, t, j, Releasing(a, true), Release);
    }
  }

  /** Call `i` runs, and then call `j` is served what it left. */
  lemma {:induction false} Follows<D>(sys: System<D>, i: nat, j: nat) returns (run: seq<Move>)
    requires Wide(sys) && i < |sys.calls| && j < |sys.calls| && i != j && sys.calls[i].key == sys.calls[j].key
    requires Leaves(sys, sys.calls[i])
    ensures WideRows(Recording(sys, sys.calls[i])) && RunTo(sys, run, |run|).Some?
    ensures RunTo(sys, run, |run|).value.pcs[j] == Finished(Replayed(sys.calls[j], Recording(sys, sys.calls[i])), true)
  {
    var rec := Recording(sys, sys.calls[i]);
    RecordingWide(sys, sys.calls[i]);
    RoundTrip(rec);
    KeptWide(rec);
    assert Encodable(rec);
    hide RunTo, Wide, ScanInto, Recording, Encodable, Encoded, Decoded, KeptData, Leaves, WideRows, DataSized;
    var s: State<D>;
    run, s := Alone(sys, i);
    run := Hits(sys, j, run, s, KeptData(rec));
  }

  ghost predicate Transparent<D>(sys: System<D>)
    requires Wide(sys)
  {
    forall run: seq<Move> | RunTo(sys, run, |run|).Some? :: Right(sys, RunTo(sys, run, |run|).value)
  }

  /** Transparency, exactly: in every state of every interleaving, each finished call that succeeded
      or was served from the cache has its uncached answer, if and only if each call keeps its
      result behind the recorder and what one call leaves serves every other call on its key. */
  lemma {:induction false} TransparentExactly<D>(sys: System<D>)
    requires Wide(sys)
    ensures Transparent(sys) <==> Interchangeable(sys)
  {
    if Interchangeable(sys) {
      forall run: seq<Move> | RunTo(sys, run, |run|).Some? ensures Right(sys, RunTo(sys, run, |run|).value) {
        Reachable(sys, run, |run|);
        InvIsRight(sys, RunTo(sys, run, |run|).value);
      }
    } else {
      var run := Shows(sys);
      hide Wide, RunTo, Interchangeable, Right;
    }
  }

  /** A run that ends wrong, when the calls are not interchangeable. */
  lemma {:induction false} Shows<D>(sys: System<D>) returns (run: seq<Move>)
    requires Wide(sys) && !Interchangeable(sys)
    ensures RunTo(sys, run, |run|).Some? && !Right(sys, RunTo(sys, run, |run|).value)
  {
    if i: nat :| i < |sys.calls| && !Keeps(sys, sys.calls[i]) {
      var s: State<D>;
      run, s := Alone(sys, i);
      hide Wide, RunTo, Truth, Behind, Same, Succeeded, Interchangeable;
      assert !RightPc(sys, sys.calls[i], s.pcs[i]);
    } else {
      var i: nat, j: nat := Culprits(sys);
      run := Follows(sys, i, j);
      hide Wide, RunTo, Truth, Recording, Replayed, Interchangeable;
      assert !RightPc(sys, sys.calls[j], RunTo(sys, run, |run|).value.pcs[j]);
    }
  }

  lemma {:induction false} Culprits<D>(sys: System<D>) returns (i: nat, j: nat)
    requires Wide(sys) && !Interchangeable(sys) && forall i | 0 <= i < |sys.calls| :: Keeps(sys, sys.calls[i])
    ensures i < |sys.calls| && j < |sys.calls| && i != j && sys.calls[i].key == sys.calls[j].key
    ensures Leaves(sys, sys.calls[i]) && WideRows(Recording(sys, sys.calls[i]))
    ensures !Same(Replayed(sys.calls[j], Recording(sys, sys.calls[i])), Truth(sys, sys.calls[j]))
  {
    hide Wide, Leaves, Recording, Replayed, Truth, Keeps;
    var m, n :| 0 <= m < |sys.calls| && 0 <= n < |sys.calls| && m != n && sys.calls[m].key == sys.calls[n].key
      && !Serves(sys, sys.calls[m], sys.calls[n]);
    i, j := m, n;
    RecordingWide(sys, sys.calls[i]);
  }
}
