/** Get and Select with the cache among the plugins: the events of an operation as the protocol
    steps of its call, whatever other calls do in between. */
module Calls {
  import opened Wrappers
  import opened Varints
  import opened Codec
  import S = Scan
  import opened Flight
  import P = Protocol
  import opened Ops

  /** How the cache fared: the last turn of its Before, which stands behind a wait or takes the
      lead, the query, and whether the store takes what After puts. */
  datatype Course = Course(woken: bool, hit: bool, attempt: P.Attempt, ok: bool)

  /** Rows behind a miss: from the database, or from another plugin. */
  predicate Fetches(e: Event, u: Course) { e == Query || (e == Scan && !u.hit && u.attempt.Supplied?) }

  predicate Fetched(log: seq<Event>, u: Course) { Query in log || (Scan in log && !u.hit && u.attempt.Supplied?) }

  /** What After can see: whether its Before ran, and whether there were rows to ask for. */
  datatype Seen = Seen(led: bool, asked: bool)

  function SeenIn(log: seq<Event>, i: nat, u: Course): Seen { Seen(Before(i) in log, Fetched(log, u)) }

  /** The steps of the cache, plugin `i`, in an event. The query, the scan and the close are one
      step, Fetch. After has nothing to do unless Before left a recorder; when the operation did
      not get as far as asking for rows, that counts as a refused query. */
  function LabelsOf(e: Event, i: nat, u: Course, singleflight: bool, seen: Seen): seq<P.Label> {
    if e == Before(i) then TurnOf(u, singleflight)
    else if Fetches(e, u) then [P.Fetch(u.attempt)]
    else if e == After(i) then AfterOf(u, seen)
    else []
  }

  function TurnOf(u: Course, singleflight: bool): seq<P.Label> {
    if u.woken then [P.Look(true)] else P.LeadLabels(u.hit, singleflight)
  }

  function AfterOf(u: Course, seen: Seen): seq<P.Label> {
    if !seen.led || u.hit then []
    else (if seen.asked then [] else [P.Fetch(P.Refused)]) + [P.Put(u.ok), P.Release]
  }

  /** The steps a call takes in the first `n` events. */
  function Taken(log: seq<Event>, n: nat, i: nat, u: Course, singleflight: bool, seen: Seen): seq<P.Label>
    requires n <= |log|
  {
    if n == 0 then [] else Taken(log, n - 1, i, u, singleflight, seen) + LabelsOf(log[n - 1], i, u, singleflight, seen)
  }

  function CallLabels(log: seq<Event>, i: nat, u: Course, singleflight: bool): seq<P.Label> {
    Taken(log, |log|, i, u, singleflight, SeenIn(log, i, u))
  }

  function FetchOf(u: Course, asked: bool): P.Label { P.Fetch(if asked then u.attempt else P.Refused) }

  /** They are a turn of Before, and behind a miss Fetch, Put and Release. */
  function Expected(log: seq<Event>, i: nat, u: Course, singleflight: bool): seq<P.Label> {
    if Before(i) !in log then []
    else if u.hit then TurnOf(u, singleflight)
    else TurnOf(u, singleflight) + [FetchOf(u, Fetched(log, u)), P.Put(u.ok), P.Release]
  }

  lemma {:induction false} TakenPlain(log: seq<Event>, m: nat, n: nat, i: nat, u: Course, singleflight: bool,
                                      seen: Seen)
    requires m <= n <= |log| && forall k | m <= k < n :: LabelsOf(log[k], i, u, singleflight, seen) == []
    ensures Taken(log, n, i, u, singleflight, seen) == Taken(log, m, i, u, singleflight, seen)
  {
    hide LabelsOf;
    if m < n { TakenPlain(log, m, n - 1, i, u, singleflight, seen); }
  }

  lemma {:induction false} TakenFront(log: seq<Event>, b: nat, i: nat, u: Course, singleflight: bool, seen: Seen)
    requires b <= |log| && forall k | 0 <= k < b :: log[k] == Before(k)
    ensures Taken(log, b, i, u, singleflight, seen) == if i < b then TurnOf(u, singleflight) else []
  {
    hide TurnOf, AfterOf;
    if b > 0 { TakenFront(log, b - 1, i, u, singleflight, seen); }
  }

  lemma {:induction false} TakenMiddle(log: seq<Event>, b: nat, e: nat, i: nat, u: Course, singleflight: bool,
                                       seen: Seen)
    requires b <= e <= |log|
    requires forall k | b <= k < e :: !log[k].Before? && !log[k].After? && (k > b ==> !Fetches(log[k], u))
    ensures Taken(log, e, i, u, singleflight, seen) == Taken(log, b, i, u, singleflight, seen) +
      if b < e && Fetches(log[b], u) then [P.Fetch(u.attempt)] else []
  {
    hide TurnOf, AfterOf;
    if b < e && Fetches(log[b], u) {
      assert Taken(log, b + 1, i, u, singleflight, seen) ==
        Taken(log, b, i, u, singleflight, seen) + [P.Fetch(u.attempt)];
      TakenPlain(log, b + 1, e, i, u, singleflight, seen);
    } else {
      TakenPlain(log, b, e, i, u, singleflight, seen);
    }
  }

  lemma {:induction false} TakenBack(log: seq<Event>, e: nat, i: nat, u: Course, singleflight: bool, seen: Seen)
    requires e <= |log| - 1 - i && forall k | e <= k < |log| :: log[k] == After(|log| - 1 - k)
    ensures Taken(log, |log|, i, u, singleflight, seen) == Taken(log, e, i, u, singleflight, seen) + AfterOf(u, seen)
  {
    var at := |log| - 1 - i;
    hide TurnOf, AfterOf;
    var before := Taken(log, e, i, u, singleflight, seen);
    assert Taken(log, at + 1, i, u, singleflight, seen) == before + AfterOf(u, seen) by {
      TakenPlain(log, e, at, i, u, singleflight, seen);
    }
    TakenPlain(log, at + 1, |log|, i, u, singleflight, seen);
  }

  /** Where the steps are taken: at Before, at the query, and at After. */
  lemma {:induction false} TakenAre(s: Script, log: seq<Event>, i: nat, u: Course, singleflight: bool)
    requires Ran(s, log) && i < |s.hooks| && s.supplied == Supplies(u)
    ensures CallLabels(log, i, u, singleflight) == Expected(log, i, u, singleflight)
  {
    var b, e, seen := Befores(s), Befores(s) + |Middle(s)|, SeenIn(log, i, u);
    Asked(s, u);
    Sections(s, log, i, u);
    var x, q := if i < b then TurnOf(u, singleflight) else [], if seen.asked then [P.Fetch(u.attempt)] else [];
    assert CallLabels(log, i, u, singleflight) == (x + q) + AfterOf(u, seen) by {
      hide *;
      TakenFront(log, b, i, u, singleflight, seen);
      TakenMiddle(log, b, e, i, u, singleflight, seen);
      TakenBack(log, e, i, u, singleflight, seen);
    }
    hide *;
    Assoc(x, q, AfterOf(u, seen));
    AfterSteps(u, seen);
    Nothing(x);
  }

  lemma AfterSteps(u: Course, seen: Seen)
    ensures !seen.led || u.hit ==> AfterOf(u, seen) == []
    ensures seen.led && !u.hit ==>
      (if seen.asked then [P.Fetch(u.attempt)] else []) + AfterOf(u, seen) ==
      [FetchOf(u, seen.asked), P.Put(u.ok), P.Release]
  {}

  lemma Assoc(x: seq<P.Label>, q: seq<P.Label>, a: seq<P.Label>)
    ensures (x + q) + a == x + (q + a)
  {}

  lemma Nothing(ls: seq<P.Label>)
    ensures ls + [] == ls && [] + ls == ls
  {}

  lemma {:induction false} Sections(s: Script, log: seq<Event>, i: nat, u: Course)
    requires Ran(s, log) && i < |s.hooks| && s.supplied == Supplies(u)
    ensures var b, e := Befores(s), Befores(s) + |Middle(s)|;
      && b <= e <= |log| - 1 - i
      && (forall k | 0 <= k < b :: log[k] == Before(k))
      && (forall k | b <= k < e :: !log[k].Before? && !log[k].After? && (k > b ==> !Fetches(log[k], u)))
      && (forall k | e <= k < |log| :: log[k] == After(|log| - 1 - k))
      && (Before(i) in log <==> i < b)
      && (Fetched(log, u) <==> b < e && Fetches(log[b], u))
  {
    var b, m := Befores(s), Middle(s);
    MiddlePlain(s);
    Asked(s, u);
    QueriesAndCloses(s, log);
    InMiddle(s, log, Query);
    InMiddle(s, log, Scan);
    assert forall k | 0 <= k < |log| :: log[k] == EventAt(s, k);
    hide Befores, Middle, FirstFailing;
    if i < b { assert log[i] == Before(i); }
  }

  lemma Asked(s: Script, u: Course)
    requires s.supplied == Supplies(u)
    ensures var m := Middle(s);
      && (forall k | 0 < k < |m| :: !Fetches(m[k], u))
      && (m != [] && Fetches(m[0], u) ==> !u.hit && Befores(s) == |s.hooks|)
      && ((exists e <- m :: Fetches(e, u)) ==> Fetches(m[0], u))
  {}

  // ----- where they lead -----

  /** What the other calls have left when a step is taken. */
  datatype View = View(table: Table, store: map<string, Bytes>)

  /** Where `n` steps lead, each taken in the state that the other calls have left by then. */
  ghost function AlongTo<D>(sys: P.System<D>, c: P.Call<D>, pc: P.Pc<D>, ls: seq<P.Label>, views: seq<View>, n: nat)
    : Option<P.Pc<D>>
    requires n <= |ls| == |views|
  {
    if n == 0 then Some(pc) else
      match AlongTo(sys, c, pc, ls, views, n - 1)
      case None => None
      case Some(p) =>
        match P.Act(sys, c, views[n - 1].table, views[n - 1].store, p, ls[n - 1])
        case None => None
        case Some(next) => Some(next.pc)
  }

  function LookAt(u: Course): nat { if u.woken then 0 else 1 }

  /** The turn is possible: a leader finds no flight, and a hit finds an entry. */
  ghost predicate Enabled<D>(sys: P.System<D>, c: P.Call<D>, u: Course, views: seq<View>) {
    && |views| > LookAt(u)
    && (u.woken ==> u.hit && sys.singleflight)
    && (!u.woken && sys.singleflight ==> c.key !in views[0].table.calls)
    && (u.hit ==> P.WideEntry(views[LookAt(u)].store, c.key))
    && (!u.hit ==> P.AttemptOf(u.attempt, sys.data(c.key), sys.others))
  }

  /** The answer of the replay or of the query. */
  ghost function AnswerOf<D>(sys: P.System<D>, c: P.Call<D>, asked: bool, u: Course, views: seq<View>): P.Answer<D>
    requires Enabled(sys, c, u, views)
  {
    if u.hit then P.ScanInto(c, P.Full(Decoded(views[LookAt(u)].store[c.key]).value)).0
    else if !asked || u.attempt.Refused? then P.Fail(c)
    else
      var a := P.ScanInto(c, u.attempt.feed).0;
      if P.Succeeded(a) && !u.attempt.closes then P.Fail(c) else a
  }

  /** Rows are there without a query: the cache's, or another plugin's. */
  predicate Supplies(u: Course) { u.hit || u.attempt.Supplied? }

  /** The operation goes as its call does: the query, the scan and the close fail as they do in
      the protocol. Replayed rows always close. */
  ghost predicate Fits<D>(sys: P.System<D>, c: P.Call<D>, s: Script, u: Course, views: seq<View>)
    requires Enabled(sys, c, u, views)
  {
    && s.supplied == Supplies(u)
    && (u.hit ==> !s.close && (s.scan <==> !P.Succeeded(AnswerOf(sys, c, false, u, views))))
    && (!u.hit && !u.attempt.Supplied? ==> (s.query <==> u.attempt.Refused?))
    && (!u.hit && !u.attempt.Refused? ==>
      (s.scan <==> !P.Succeeded(P.ScanInto(c, u.attempt.feed).0)) && (s.close <==> !u.attempt.closes))
  }

  lemma {:induction false} HitEnds<D>(sys: P.System<D>, c: P.Call<D>, u: Course, views: seq<View>)
    requires u.hit && Enabled(sys, c, u, views) && |views| == |TurnOf(u, sys.singleflight)|
    ensures AlongTo(sys, c, if u.woken then P.Woken else P.Start, TurnOf(u, sys.singleflight), views, |views|) ==
      Some(P.Finished(AnswerOf(sys, c, false, u, views), true))
  {
    var ls, pc := TurnOf(u, sys.singleflight), if u.woken then P.Woken else P.Start;
    hide Decoded, P.ScanInto;
    assert AlongTo(sys, c, pc, ls, views, 0) == Some(pc);
    if !u.woken {
      assert AlongTo(sys, c, pc, ls, views, 1) == Some(P.LeadCheck);
      assert AlongTo(sys, c, pc, ls, views, 2).Some?;
    }
  }

  lemma {:induction false} MissEnds<D>(sys: P.System<D>, c: P.Call<D>, asked: bool, u: Course, ls: seq<P.Label>,
                                       views: seq<View>)
    requires !u.hit && Enabled(sys, c, u, views) && |views| == 5
    requires ls == [P.Label.Acquire, P.Look(false), FetchOf(u, asked), P.Put(u.ok), P.Release]
    ensures var a := AnswerOf(sys, c, asked, u, views);
      && Stores(c, u, AlongTo(sys, c, P.Start, ls, views, 3), a, P.Succeeded(a))
      && AlongTo(sys, c, P.Start, ls, views, 5) == Some(P.Finished(a, false))
  {
    var a, start := AnswerOf(sys, c, asked, u, views), P.Start;
    var fetched := FetchEnds(sys, c, asked, u, views);
    hide P.ScanInto, P.AttemptOf, P.Succeeded, P.WideEntry, Encodable, Encoded, Decoded, AnswerOf, Enabled;
    assert AlongTo(sys, c, start, ls, views, 1) == Some(P.LeadCheck) by {
      assert AlongTo(sys, c, start, ls, views, 0) == Some(start);
    }
    assert AlongTo(sys, c, start, ls, views, 2) == Some(P.Query);
    assert AlongTo(sys, c, start, ls, views, 3) == Some(fetched) by { hide P.Act; }
    assert AlongTo(sys, c, start, ls, views, 4) == Some(P.Releasing(a, false));
    assert AlongTo(sys, c, start, ls, views, 5) == Some(P.Finished(a, false));
  }

  lemma {:induction false} FetchEnds<D>(sys: P.System<D>, c: P.Call<D>, asked: bool, u: Course, views: seq<View>)
    returns (p: P.Pc<D>)
    requires !u.hit && Enabled(sys, c, u, views) && |views| == 5
    ensures var a := AnswerOf(sys, c, asked, u, views);
      Stores(c, u, Some(p), a, P.Succeeded(a))
    ensures var step := P.Act(sys, c, views[2].table, views[2].store, P.Query, FetchOf(u, asked));
      step.Some? && step.value.pc == p
  {
    assert !P.Succeeded(P.Fail(c));
    p := P.Act(sys, c, views[2].table, views[2].store, P.Query, FetchOf(u, asked)).value.pc;
    hide P.ScanInto, P.AttemptOf, P.Fail, P.Succeeded, P.WideEntry, Encodable, Encoded, Decoded;
  }

  /** An operation whose Before hook of the cache did not run takes no step: it leads no flight. */
  lemma {:induction false} NoStep(s: Script, log: seq<Event>, i: nat, u: Course, singleflight: bool)
    requires Ran(s, log) && i < |s.hooks| && s.supplied == Supplies(u) && Before(i) !in log
    ensures CallLabels(log, i, u, singleflight) == []
  {
    TakenAre(s, log, i, u, singleflight);
  }

  /** Otherwise its events, whatever the other plugins and the other calls do, take the call to
      its end: a leader's last step releases its flight, even when a later plugin's Before fails;
      the answer is good if and only if the operation has no error, unless a plugin caused that;
      and behind a miss there is something to store if and only if it has none: the recording, which
      is empty when another plugin supplied the rows. */
  lemma {:induction false} CallEnds<D>(sys: P.System<D>, c: P.Call<D>, s: Script, log: seq<Event>, i: nat, u: Course,
                                       views: seq<View>)
    requires Ran(s, log) && i < |s.hooks| && Before(i) in log
    requires Enabled(sys, c, u, views) && Fits(sys, c, s, u, views)
    requires |views| == |CallLabels(log, i, u, sys.singleflight)|
    ensures var ls, pc := CallLabels(log, i, u, sys.singleflight), if u.woken then P.Woken else P.Start;
      var a := AnswerOf(sys, c, Fetched(log, u), u, views);
      && AlongTo(sys, c, pc, ls, views, |ls|) == Some(P.Finished(a, u.hit))
      && (forall k | 0 <= k < |ls| :: ls[k] == P.Release <==> Leads(u, sys.singleflight) && k == |ls| - 1)
      && (FirstFailing(s.hooks, 0).None? ==> (P.Succeeded(a) <==> Verdict(s).None?))
      && (!u.hit ==> Stores(c, u, AlongTo(sys, c, pc, ls, views, |ls| - 2), a, Verdict(s).None?))
  {
    TakenAre(s, log, i, u, sys.singleflight);
    AnswerFits(sys, c, s, log, i, u, views);
    assert !u.woken || u.hit;
    OneRelease(log, i, u, sys.singleflight);
    hide P.ScanInto, P.AttemptOf, P.Fail, P.Succeeded, AlongTo, Ran, FirstFailing, Verdict, CallLabels, Expected, Fits;
    hide TurnOf, Leads;
    if u.hit {
      HitEnds(sys, c, u, views);
    } else {
      MissEnds(sys, c, Fetched(log, u), u, CallLabels(log, i, u, sys.singleflight), views);
    }
    hide Enabled, AnswerOf;
  }

  lemma {:induction false} OneRelease(log: seq<Event>, i: nat, u: Course, singleflight: bool)
    requires Before(i) in log && (u.woken ==> u.hit)
    ensures var ls := Expected(log, i, u, singleflight);
      && (forall k | 0 <= k < |ls| :: ls[k] == P.Release <==> Leads(u, singleflight) && k == |ls| - 1)
      && (u.hit ==> ls == TurnOf(u, singleflight))
    ensures var ls := Expected(log, i, u, singleflight);
      !u.hit ==> ls == [P.Label.Acquire, P.Look(false), FetchOf(u, Fetched(log, u)), P.Put(u.ok), P.Release]
  {}

  /** The answer is good if and only if the operation has no error; behind a failed hook that
      concerns a miss only. */
  lemma {:induction false} AnswerFits<D>(sys: P.System<D>, c: P.Call<D>, s: Script, log: seq<Event>, i: nat, u: Course,
                                         views: seq<View>)
    requires Ran(s, log) && i < |s.hooks| && Before(i) in log
    requires Enabled(sys, c, u, views) && Fits(sys, c, s, u, views)
    ensures u.hit ==> AnswerOf(sys, c, Fetched(log, u), u, views) == AnswerOf(sys, c, false, u, views)
    ensures FirstFailing(s.hooks, 0).None? || !u.hit ==>
      (P.Succeeded(AnswerOf(sys, c, Fetched(log, u), u, views)) <==> Verdict(s).None?)
  {
    QueriesAndCloses(s, log);
    assert !s.bind;
    assert !P.Succeeded(P.Fail(c));
    hide P.ScanInto, P.AttemptOf, P.Fail, P.Succeeded, Ran, FirstFailing, P.WideEntry, Decoded;
  }

  /** The call has something to release: a flight, or behind a miss at least a recorder. */
  predicate Leads(u: Course, singleflight: bool) { !u.woken && (singleflight || !u.hit) }

  /** What After has to store: nothing but the recording of a clean operation. */
  ghost predicate Stores<D>(c: P.Call<D>, u: Course, p: Option<P.Pc<D>>, a: P.Answer<D>, clean: bool) {
    && p.Some? && p.value.Storing? && p.value.answer == a
    && (if !clean then p.value.rec == None
        else
          && !u.attempt.Refused? && S.Regular(u.attempt.feed)
          && p.value.rec == Some(P.Recorded(u.attempt, P.ScanInto(c, u.attempt.feed).1)))
  }
}
