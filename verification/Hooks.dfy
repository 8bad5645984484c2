/** The cache's hooks around an operation, as the program runs them: Before's loop turn by turn,
    since a turn may wait for another call, and After. For cached calls they take the steps of
    the protocol. */
module Hooks {
  import opened Wrappers
  import opened Varints
  import opened Codec
  import CodecMachine
  import K = Keys
  import opened Flight
  import opened Protocol

  // ----- which calls are cached -----

  datatype Op = OpExec | OpQuery | OpGet | OpSelect

  /** A call option; `Foreign` is one of another plugin or of the core. */
  datatype CallOption =
    | TTL(ttl: int)
    | Namespace(ns: string)
    | UseCache
    | NoCache
    | Invalidate(ns: string)
    | Foreign

  datatype CallOpts = CallOpts(ttl: int, namespace: string, noCache: bool, invalidate: string)

  const UNSET := CallOpts(0, "", true, "")

  datatype Info = Info(op: Op, inTx: bool, options: seq<CallOption>)

  function Chosen(o: CallOpts, opt: CallOption): CallOpts {
    match opt
    case TTL(d) => o.(ttl := d, noCache := false)
    case Namespace(ns) => o.(namespace := ns, noCache := false)
    case UseCache => o.(noCache := false)
    case NoCache => o.(noCache := true)
    case Invalidate(ns) => o.(invalidate := ns)
    case Foreign => o
  }

  function OptsOf(options: seq<CallOption>): CallOpts {
    if options == [] then UNSET else Chosen(OptsOf(options[..|options| - 1]), options[|options| - 1])
  }

  /** cacheOpts */
  method CacheOpts(options: seq<CallOption>) returns (o: CallOpts)
    ensures o == OptsOf(options)
  {
    o := UNSET;
    for k := 0 to |options|
      invariant o == OptsOf(options[..k])
    {
      o := Chosen(o, options[k]);
      OneMore(options[..k], options[k]);
      assert options[..k + 1] == options[..k] + [options[k]];
    }
    assert options[..|options|] == options;
  }

  /** Options that speak about whether to cache at all. */
  predicate Switch(opt: CallOption) { !opt.Invalidate? && !opt.Foreign? }

  /** An option decides on what `o` holds, and nothing does on what `none` holds, when no option of
      its kind is in `rest`. */
  ghost predicate Decided(none: CallOpts, o: CallOpts, opt: CallOption, rest: seq<CallOption>) {
    && ((forall r <- rest :: !Switch(r)) ==> none.noCache && (Switch(opt) ==> o.noCache == opt.NoCache?))
    && ((forall r <- rest :: !r.TTL?) ==> none.ttl == 0 && (opt.TTL? ==> o.ttl == opt.ttl))
    && ((forall r <- rest :: !r.Namespace?) ==> none.namespace == "" && (opt.Namespace? ==> o.namespace == opt.ns))
    && ((forall r <- rest :: !r.Invalidate?) ==> none.invalidate == "" && (opt.Invalidate? ==> o.invalidate == opt.ns))
  }

  /** The last option of each kind decides: the last switch whether to cache, and without one there
      is no caching; the last TTL, the last namespace, and the last namespace to invalidate. */
  lemma {:induction false} LastDecides(options: seq<CallOption>, opt: CallOption, rest: seq<CallOption>)
    ensures Decided(OptsOf(rest), OptsOf(options + [opt] + rest), opt, rest)
  {
    hide OptsOf;
    if rest == [] {
      assert options + [opt] + rest == options + [opt];
      OneMore(options, opt);
      NoOptions();
    } else {
      hide Decided, Chosen;
      var front, last := rest[..|rest| - 1], rest[|rest| - 1];
      assert rest == front + [last];
      assert options + [opt] + rest == (options + [opt] + front) + [last];
      LastDecides(options, opt, front);
      OneMore(options + [opt] + front, last);
      OneMore(front, last);
      DecidedMore(OptsOf(front), OptsOf(options + [opt] + front), opt, front, last);
    }
  }

  lemma DecidedMore(none: CallOpts, o: CallOpts, opt: CallOption, front: seq<CallOption>, last: CallOption)
    requires Decided(none, o, opt, front)
    ensures Decided(Chosen(none, last), Chosen(o, last), opt, front + [last])
  {
    var rest := front + [last];
    assert last in rest && forall r <- front :: r in rest;
  }

  lemma {:induction false} OneMore(options: seq<CallOption>, opt: CallOption)
    ensures OptsOf(options + [opt]) == Chosen(OptsOf(options), opt)
  {
    assert (options + [opt])[..|options|] == options;
  }

  lemma NoOptions()
    ensures OptsOf([]) == UNSET
  {}

  predicate Cacheable(info: Info) { !info.inTx && (info.op.OpGet? || info.op.OpSelect?) }

  // ----- the hooks -----

  /** How a turn of Before ends: not a cached call, with rows to replay, with a channel to wait
      on, or with a recorder to fill. */
  datatype Turn = Skip | Hit(rows: RowData) | Wait(ch: Channel) | Record(ttl: int)

  /** The steps of a turn, as far as it gets. */
  function TurnLabels(t: Turn, singleflight: bool): seq<Label> {
    match t
    case Skip => []
    case Wait(_) => [Label.Acquire]
    case Hit(_) => LeadLabels(true, singleflight)
    case Record(_) => LeadLabels(false, singleflight)
  }

  /** Where it leaves the call. */
  ghost function TurnEnd<D>(t: Turn, c: Call<D>): Pc<D>
    requires t.Hit? ==> WideRows(t.rows)
  {
    match t
    case Skip => Start
    case Wait(ch) => Waiting(ch.id)
    case Hit(rows) => Finished(ScanInto(c, Full(rows)).0, true)
    case Record(_) => Query
  }

  // ----- turns as protocol steps -----

  /** What a turn does to the flights. */
  ghost predicate Turned(t: Turn, key: string, singleflight: bool, before: Table, store: map<string, Bytes>,
                         after: Table) {
    && (t.Wait? <==> singleflight && key in before.calls)
    && (t.Wait? ==> t.ch.id == before.calls[key])
    && (t.Hit? ==> WideEntry(store, key) && t.rows == Decoded(store[key]).value)
    && after ==
      (if t.Wait? || !singleflight then before
       else if t.Hit? then before.Acquire(key).0.Done(key)
       else before.Acquire(key).0)
  }

  lemma {:induction false} TurnSteps<D>(sys: System<D>, c: Call<D>, now: Change<D>, t: Turn, after: Table)
    requires now.pc == Start && !t.Skip?
    requires Turned(t, c.key, sys.singleflight, now.table, now.store, after)
    ensures t.Hit? ==> WideRows(t.rows)
    ensures Steps(sys, c, now, TurnLabels(t, sys.singleflight)) == Some(Change(after, now.store, TurnEnd(t, c)))
  {
    if t.Wait? {
      OneStep(sys, c, now, Label.Acquire);
    } else if t.Record? {
      assert TurnLabels(t, sys.singleflight) == [Label.Acquire, Look(false)];
      TwoSteps(sys, c, now, Label.Acquire, Look(false));
    } else {
      HitSteps(sys, c, now, t.rows);
    }
  }

  lemma {:induction false} HitSteps<D>(sys: System<D>, c: Call<D>, now: Change<D>, rows: RowData)
    requires now.pc == Start && !(sys.singleflight && c.key in now.table.calls)
    requires WideEntry(now.store, c.key) && rows == Decoded(now.store[c.key]).value
    ensures Steps(sys, c, now, TurnLabels(Hit(rows), sys.singleflight)) ==
      Some(Change(if sys.singleflight then now.table.Acquire(c.key).0.Done(c.key) else now.table, now.store,
        TurnEnd(Hit(rows), c)))
  {
    hide Act, Decoded, ScanInto, WideEntry, WideRows;
    var led := Led(sys, c, now);
    LeadAct(sys, c, now);
    HitActs(sys, c, led, rows);
    if sys.singleflight {
      TwoSteps(sys, c, led, Look(true), Release);
      StepsOn(sys, c, now, Label.Acquire, [Look(true), Release]);
    } else {
      OneStep(sys, c, led, Look(true));
      StepsOn(sys, c, now, Label.Acquire, [Look(true)]);
    }
  }

  /** Behind an Acquire that does not wait. */
  ghost function Led<D>(sys: System<D>, c: Call<D>, now: Change<D>): Change<D> {
    now.(table := if sys.singleflight then now.table.Acquire(c.key).0 else now.table, pc := LeadCheck)
  }

  lemma LeadAct<D>(sys: System<D>, c: Call<D>, now: Change<D>)
    requires now.pc == Start && !(sys.singleflight && c.key in now.table.calls)
    ensures Act(sys, c, now.table, now.store, Start, Label.Acquire) == Some(Led(sys, c, now))
  {}

  lemma HitActs<D>(sys: System<D>, c: Call<D>, led: Change<D>, rows: RowData)
    requires led.pc == LeadCheck && WideEntry(led.store, c.key) && rows == Decoded(led.store[c.key]).value
    ensures WideRows(rows)
    ensures var a := ScanInto(c, Full(rows)).0;
      && Act(sys, c, led.table, led.store, LeadCheck, Look(true)) ==
        Some(led.(pc := if sys.singleflight then Releasing(a, true) else Finished(a, true)))
      && Act(sys, c, led.table, led.store, Releasing(a, true), Release) ==
        Some(Change(led.table.Done(c.key), led.store, Finished(a, true)))
  { hide Decoded, ScanInto; }

  lemma StepsOn<D>(sys: System<D>, c: Call<D>, now: Change<D>, l: Label, ls: seq<Label>)
    ensures Steps(sys, c, now, [l] + ls) ==
      match Act(sys, c, now.table, now.store, now.pc, l)
      case None => None
      case Some(next) => Steps(sys, c, next, ls)
  {
    hide Act;
    assert ([l] + ls)[1..] == ls;
  }

  lemma {:induction false} CommitSteps<D>(sys: System<D>, c: Call<D>, now: Change<D>, ok: bool)
    requires now.pc.Storing?
    ensures Steps(sys, c, now, [Put(ok), Release]) ==
      Some(Change(now.table.Done(c.key), Stored(now.store, c.key, now.pc.rec, ok), Finished(now.pc.answer, false)))
  {
    hide Encodable, Encoded, ScanInto, AttemptOf, WideEntry, Succeeded;
    TwoSteps(sys, c, now, Put(ok), Release);
  }

  function Stored(store: map<string, Bytes>, key: string, rec: Option<RowData>, ok: bool): map<string, Bytes> {
    if ok && rec.Some? && Encodable(rec.value) then store[key := Encoded(rec.value)] else store
  }

  class Cache {
    const flight: Flights
    const singleflight: bool
    const invalidateOnWrite: bool
    const defaultTTL: int
    /** The entries, by their keys behind the key prefix. */
    var store: map<string, Bytes>

    ghost predicate Valid()
      reads this, flight, flight.made
    {
      flight.Valid()
    }

    constructor (singleflight: bool, invalidateOnWrite: bool, defaultTTL: int)
      ensures Valid() && fresh(flight) && store == map[] && flight.View() == EMPTY
      ensures this.singleflight == singleflight && this.invalidateOnWrite == invalidateOnWrite
      ensures this.defaultTTL == defaultTTL
    {
      var f := new Flights();
      this.flight, this.singleflight, store := f, singleflight, map[];
      this.invalidateOnWrite, this.defaultTTL := invalidateOnWrite, defaultTTL;
    }

    /** The shared state, with a call at `pc`. */
    ghost function At<D>(pc: Pc<D>): Change<D>
      reads this, flight, flight.made
    {
      Change(flight.View(), store, pc)
    }

    /** tryHit; `lost` when the store fails or no longer has the entry. */
    method TryHit(key: string, lost: bool) returns (rows: Option<RowData>)
      ensures rows.Some? <==> Served(key, lost)
      ensures rows.Some? ==> Decoded(store[key]) == Ok(rows.value) && WideEntry(store, key)
    {
      if lost || key !in store { return None; }
      var rd := CodecMachine.Decode(store[key]);
      if rd.Err? { return None; }
      DecodedIsEncodable(store[key]);
      rows := Some(rd.value);
    }

    ghost predicate Served(key: string, lost: bool)
      reads this
    {
      !lost && key in store && Decoded(store[key]).Ok?
    }

    /** One turn of Before's loop, or the single look-up when singleflight is off. Only calls that
        are not cached skip; a turn waits for the flight of another call, and otherwise replays
        the entry or records. The turn is that many steps of the protocol. */
    method Before<D>(info: Info, key: string, lost: bool, ghost sys: System<D>, ghost c: Call<D>) returns (t: Turn)
      requires Valid() && sys.singleflight == singleflight && c.key == key
      modifies flight, flight.made
      ensures Valid() && store == old(store)
      ensures t.Skip? <==>
        info.inTx || info.op == OpExec || info.op == OpQuery || OptsOf(info.options).noCache
      ensures t.Record? ==>
        t.ttl == if OptsOf(info.options).ttl > 0 then OptsOf(info.options).ttl else defaultTTL
      ensures t.Wait? <==> !t.Skip? && singleflight && key in old(flight.View()).calls
      ensures t.Hit? <==> !t.Skip? && !t.Wait? && Served(key, lost)
      ensures t.Hit? ==> WideRows(t.rows) && Decoded(store[key]) == Ok(t.rows)
      ensures Steps(sys, c, old(At(Start)), TurnLabels(t, singleflight)) == Some(At(TurnEnd(t, c)))
    {
      if !Cacheable(info) { return Skip; }
      var o := CacheOpts(info.options);
      if o.noCache { return Skip; }
      ghost var was := At(Start);
      hide *;
      t := TakeTurn(key, lost, if o.ttl > 0 then o.ttl else defaultTTL);
      TurnSteps(sys, c, was, t, flight.View());
    }

    method TakeTurn(key: string, lost: bool, ttl: int) returns (t: Turn)
      requires Valid()
      modifies flight, flight.made
      ensures Valid() && store == old(store) && !t.Skip? && (t.Record? ==> t.ttl == ttl)
      ensures Turned(t, key, singleflight, old(flight.View()), store, flight.View())
      ensures t.Hit? <==> !t.Wait? && Served(key, lost)
    {
      hide Decoded, WideRows;
      if singleflight {
        var wait := flight.Acquire(key);
        if wait != null { return Wait(wait); }
      }
      var rows := TryHit(key, lost);
      if rows.None? { return Record(ttl); }
      if singleflight { flight.Done(key); }
      t := Hit(rows.value);
    }

    /** Behind a wait: the waiter looks the key up and, on a miss, starts over. */
    method Woken<D>(key: string, lost: bool, ghost sys: System<D>, ghost c: Call<D>) returns (rows: Option<RowData>)
      requires c.key == key
      ensures rows.Some? <==> Served(key, lost)
      ensures rows.Some? ==> WideRows(rows.value) && Decoded(store[key]) == Ok(rows.value)
      ensures Steps(sys, c, At(Pc.Woken), [Look(rows.Some?)])
        == Some(At(if rows.Some? then TurnEnd(Hit(rows.value), c) else Start))
    {
      rows := TryHit(key, lost);
      OneStep(sys, c, At(Pc.Woken), Look(rows.Some?));
    }

    /** What an Exec leaves of the store, in a transaction or not, failed or not: with
        invalidateOnWrite nothing; else all but the entries of the namespace to invalidate, whose
        keys continue it behind a NUL. */
    ghost predicate Invalidated(info: Info, before: map<string, Bytes>, ok: bool)
      reads this
    {
      var ns := OptsOf(info.options).invalidate;
      if !ok then store == before
      else if invalidateOnWrite then store == map[]
      else if ns == "" then store == before
      else forall k ::
        (k in store <==> k in before && !(ns + "\0" <= k)) && (k in store ==> store[k] == before[k])
    }

    /** After. For an Exec it invalidates, unless the store fails. For a cached call with a
        recorder it takes the steps Put and Release: a clean recording that can be encoded is
        stored and the flight ends in any case. All other calls it leaves alone. */
    method After<D>(info: Info, key: string, rec: Option<RowData>, failed: bool, ok: bool,
                    ghost sys: System<D>, ghost c: Call<D>, ghost a: Answer<D>)
      requires Valid() && (rec.Some? ==> DataSized(rec.value)) && c.key == key
      modifies this`store, flight, flight.made
      ensures Valid()
      ensures info.op == OpExec ==> flight.View() == old(flight.View()) && Invalidated(info, old(store), ok)
      ensures !info.inTx && (info.op == OpGet || info.op == OpSelect) && rec.Some? ==>
        Steps(sys, c, old(At(Storing(a, if failed then None else rec))), [Put(ok), Release])
          == Some(At(Finished(a, false)))
      ensures info.op == OpQuery || (info.op != OpExec && (info.inTx || rec.None?)) ==>
        flight.View() == old(flight.View()) && store == old(store)
    {
      if info.op.OpExec? {
        Drop(info, ok);
      } else if Cacheable(info) && rec.Some? {
        CommitSteps(sys, c, At(Storing(a, if failed then None else rec)), ok);
        hide *;
        Commit(key, rec.value, failed, ok);
      }
    }

    method Drop(info: Info, ok: bool)
      modifies this`store
      ensures Invalidated(info, old(store), ok)
    {
      if invalidateOnWrite {
        if ok { store := map[]; }
      } else {
        var o := CacheOpts(info.options);
        if o.invalidate != "" && ok {
          store := map k | k in store && !(o.invalidate + K.NUL <= k) :: store[k];
        }
      }
    }

    method Commit(key: string, rec: RowData, failed: bool, ok: bool)
      requires Valid() && DataSized(rec)
      modifies this`store, flight, flight.made
      ensures Valid() && flight.View() == old(flight.View()).Done(key)
      ensures store == Stored(old(store), key, if failed then None else Some(rec), ok)
    {
      hide Encodable, Encoded, DataSized;
      if !failed {
        var data := CodecMachine.Encode(rec);
        if data.Ok? && ok { store := store[key := data.value]; }
      }
      flight.Done(key);
    }
  }
}
