/** The cached Get/Select protocol as interleaved steps of any number of calls: Before with its
    singleflight loop, the query and scan, and After. Each step is one critical section or one
    call into the database or the store. */
module Protocol {
  import opened Wrappers
  import opened Varints
  import opened Codec
  import opened Scan
  import opened Flight

  /** A cached call. `slice` says whether the destination is a slice, so that all rows are
      scanned; Select destinations always are. */
  datatype Call<!D> = Call(key: string, slice: bool, shape: Shape<D>, strict: bool, zero: D)

  datatype Answer<D> = Single(one: Result<D, ScanError>) | Many(all: Result<seq<D>, ScanError>)

  predicate Succeeded<D>(a: Answer<D>) { if a.Single? then a.one.Ok? else a.all.Ok? }

  /** The same value, or an error both times. */
  predicate Same<D(==)>(a: Answer<D>, b: Answer<D>) {
    if a.Single? then b.Single? && Alike(a.one, b.one) else b.Many? && Alike(a.all, b.all)
  }

  /** The calls, the fixed result of every key's query, the configuration, and whether plugins
      other than the cache may supply rows. */
  datatype System<!D> = System(calls: seq<Call<D>>, data: string -> RowData, singleflight: bool, others: bool)

  predicate WideRows(rd: RowData) { forall row <- rd.rows :: |row| == |rd.columns| }

  /** Scanning a source into a call's destination, and what a recorder would then hold. */
  function ScanInto<D>(c: Call<D>, f: Feed): (Answer<D>, RowData)
    requires Scan.Regular(f)
  {
    if c.slice then
      var s := ScanSliceSpec(f, c.shape, c.strict, c.zero);
      (Many(s.result), RowData(s.cols, s.rows))
    else
      var s := ScanOneSpec(f, c.shape, c.strict, c.zero);
      (Single(s.result), RowData(s.cols, s.rows))
  }

  /** All rows behind a recorder, and as the driver hands them out. */
  function Full(rd: RowData): Feed { Replay(rd.columns, rd.rows) }
  function Bare(rd: RowData): Feed { Full(rd).(recorder := false) }

  /** What a call returns without a cache, when the database is well: no recorder is in place. */
  function Truth<D>(sys: System<D>, c: Call<D>): Answer<D>
    requires WideRows(sys.data(c.key))
  {
    ScanInto(c, Bare(sys.data(c.key))).0
  }

  /** What it returns behind the cache's recorder. */
  function Behind<D>(sys: System<D>, c: Call<D>): Answer<D>
    requires WideRows(sys.data(c.key))
  {
    ScanInto(c, Full(sys.data(c.key))).0
  }

  // ----- states -----

  /** Where a call stands; `rec` is the recording to store, None when the scan was not clean. */
  datatype Pc<D> =
    | Start
    | Waiting(ch: nat)
    | Woken
    | LeadCheck
    | Query
    | Storing(answer: Answer<D>, rec: Option<RowData>)
    | Releasing(answer: Answer<D>, hit: bool)
    | Finished(answer: Answer<D>, hit: bool)

  datatype State<D> = State(table: Table, store: map<string, Bytes>, pcs: seq<Pc<D>>)

  /** How a query goes: refused, or never made since a later plugin's Before failed; or a source
      of rows, with an error on close or without. Rows that a later plugin supplies take the place
      of the query's, and the cache's recorder is not put around them. */
  datatype Attempt =
    | Refused
    | Rows(feed: Feed, closes: bool)
    | Supplied(feed: Feed, closes: bool)

  /** A source over the fixed data may break off early, but then reports an error. */
  ghost predicate AttemptOf(a: Attempt, rd: RowData, others: bool) {
    && (a.Supplied? ==> others && Scan.Regular(a.feed))
    && (a.Rows? ==>
      && Scan.Regular(a.feed) && a.feed.recorder
      && (a.feed.cols.Ok? ==> a.feed.cols.value == rd.columns)
      && a.feed.rows <= rd.rows && (a.feed.end.None? ==> a.feed.rows == rd.rows))
  }

  datatype Label =
    | Acquire
    | Wake
    | Look(hit: bool)
    | Fetch(attempt: Attempt)
    | Put(ok: bool)
    | Release
    | Forget(key: string)

  function Fail<D>(c: Call<D>): Answer<D> {
    if c.slice then Many(Err(Source(1))) else Single(Err(Source(1)))
  }

  /** What the recorder holds behind an attempt; of supplied rows it hears nothing. */
  function Recorded(a: Attempt, rec: RowData): RowData { if a.Supplied? then RowData([], []) else rec }

  predicate WideEntry(store: map<string, Bytes>, key: string) {
    key in store && Decoded(store[key]).Ok? && WideRows(Decoded(store[key]).value)
  }

  datatype Change<D> = Change(table: Table, store: map<string, Bytes>, pc: Pc<D>)

  /** What a call at `pc` does to the shared state and to itself, or None when the step is not
      enabled. `Look(false)` is always possible: the store may have lost the entry, at any time. */
  ghost function Act<D>(sys: System<D>, c: Call<D>, table: Table, store: map<string, Bytes>, pc: Pc<D>, l: Label)
    : Option<Change<D>>
  {
    match (pc, l)
    case (Start, Acquire) =>
      if !sys.singleflight then Some(Change(table, store, LeadCheck))
      else
        var (t, ch, leader) := table.Acquire(c.key);
        Some(Change(t, store, if leader then LeadCheck else Waiting(ch)))
    case (Waiting(ch), Wake) =>
      if ch in table.closed then Some(Change(table, store, Woken)) else None
    case (Woken, Look(hit)) =>
      if !hit then Some(Change(table, store, Start))
      else if !WideEntry(store, c.key) then None
      else Some(Change(table, store, Finished(ScanInto(c, Full(Decoded(store[c.key]).value)).0, true)))
    case (LeadCheck, Look(hit)) =>
      if !hit then Some(Change(table, store, Query))
      else if !WideEntry(store, c.key) then None
      else
        var a := ScanInto(c, Full(Decoded(store[c.key]).value)).0;
        Some(Change(table, store, if sys.singleflight then Releasing(a, true) else Finished(a, true)))
    case (Query, Fetch(attempt)) =>
      if !AttemptOf(attempt, sys.data(c.key), sys.others) then None
      else if attempt.Refused? then Some(Change(table, store, Storing(Fail(c), None)))
      else
        var (a, rec) := ScanInto(c, attempt.feed);
        if !Succeeded(a) then Some(Change(table, store, Storing(a, None)))
        else if !attempt.closes then Some(Change(table, store, Storing(Fail(c), None)))
        else Some(Change(table, store, Storing(a, Some(Recorded(attempt, rec)))))
    case (Storing(a, rec), Put(ok)) =>
      var stored := ok && rec.Some? && Encodable(rec.value);
      Some(Change(table, if stored then store[c.key := Encoded(rec.value)] else store, Releasing(a, false)))
    case (Releasing(a, hit), Release) => Some(Change(table.Done(c.key), store, Finished(a, hit)))
    case _ => None
  }

  /** The steps of a turn of Before that does not have to wait. */
  function LeadLabels(hit: bool, singleflight: bool): seq<Label> {
    [Acquire, Look(hit)] + if hit && singleflight then [Release] else []
  }

  /** Steps of one call with no other call between them. */
  ghost function Steps<D>(sys: System<D>, c: Call<D>, now: Change<D>, ls: seq<Label>): Option<Change<D>>
    decreases |ls|
  {
    if ls == [] then Some(now) else
      match Act(sys, c, now.table, now.store, now.pc, ls[0])
      case None => None
      case Some(next) => Steps(sys, c, next, ls[1..])
  }

  lemma OneStep<D>(sys: System<D>, c: Call<D>, now: Change<D>, l: Label)
    ensures Steps(sys, c, now, [l]) == Act(sys, c, now.table, now.store, now.pc, l)
  {
    hide Act;
    assert [l][1..] == [];
  }

  lemma TwoSteps<D>(sys: System<D>, c: Call<D>, now: Change<D>, k: Label, l: Label)
    ensures Steps(sys, c, now, [k, l]) ==
      match Act(sys, c, now.table, now.store, now.pc, k)
      case None => None
      case Some(next) => Act(sys, c, next.table, next.store, next.pc, l)
  {
    var first := Act(sys, c, now.table, now.store, now.pc, k);
    hide Act;
    assert [k, l][1..] == [l];
    if first.Some? { OneStep(sys, c, first.value, l); }
  }

  /** One step of call `i`, or of the store when the label is Forget. */
  ghost function Step<D>(sys: System<D>, s: State<D>, i: nat, l: Label): Option<State<D>>
    requires |s.pcs| == |sys.calls|
  {
    if l.Forget? then Some(s.(store := s.store - {l.key}))
    else if i >= |s.pcs| then None
    else
      match Act(sys, sys.calls[i], s.table, s.store, s.pcs[i], l)
      case None => None
      case Some(next) => Some(State(next.table, next.store, s.pcs[i := next.pc]))
  }

  function Initial<D>(sys: System<D>): State<D> {
    State(EMPTY, map[], seq(|sys.calls|, i => Start))
  }

  /** A run: who steps, and how. */
  datatype Move = Move(who: nat, what: Label)

  ghost function RunTo<D>(sys: System<D>, run: seq<Move>, n: nat): (r: Option<State<D>>)
    requires n <= |run|
    ensures r.Some? ==> |r.value.pcs| == |sys.calls|
  {
    if n == 0 then Some(Initial(sys)) else
      match RunTo(sys, run, n - 1)
      case None => None
      case Some(s) => Step(sys, s, run[n - 1].who, run[n - 1].what)
  }

  lemma LastMove<D>(sys: System<D>, run: seq<Move>, n: nat)
    requires 0 < n <= |run| && RunTo(sys, run, n).Some?
    ensures RunTo(sys, run, n - 1).Some?
    ensures RunTo(sys, run, n) == Step(sys, RunTo(sys, run, n - 1).value, run[n - 1].who, run[n - 1].what)
  {}
}
