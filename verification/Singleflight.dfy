/** Safety, progress and termination of the singleflight protocol, over every interleaving. */
module Singleflight {
  import opened Flight
  import opened Protocol

  /** Between winning acquire and done. */
  predicate Leads<D>(pc: Pc<D>) { pc.LeadCheck? || pc.Query? || pc.Storing? || pc.Releasing? }

  predicate LeadsKey<D>(sys: System<D>, s: State<D>, i: nat, key: string)
    requires |s.pcs| == |sys.calls|
  {
    i < |s.pcs| && Leads(s.pcs[i]) && sys.calls[i].key == key
  }

  /** A waiter's channel is closed already, or is its key's channel in the table. */
  predicate WaitsRight<D>(sys: System<D>, s: State<D>, i: nat)
    requires |s.pcs| == |sys.calls| && i < |s.pcs|
  {
    s.pcs[i].Waiting? ==>
      s.pcs[i].ch in s.table.closed ||
      (sys.calls[i].key in s.table.calls && s.table.calls[sys.calls[i].key] == s.pcs[i].ch)
  }

  ghost predicate FlightInv<D>(sys: System<D>, s: State<D>) {
    && |s.pcs| == |sys.calls|
    && if sys.singleflight then
         && Sound(s.table)
         && (forall i, j, k | LeadsKey(sys, s, i, k) && LeadsKey(sys, s, j, k) :: i == j)
         && (forall i, k | LeadsKey(sys, s, i, k) :: k in s.table.calls)
         && (forall k <- s.table.calls :: exists i :: LeadsKey(sys, s, i, k))
         && (forall i | 0 <= i < |s.pcs| :: WaitsRight(sys, s, i))
       else
         s.table == EMPTY && forall i | 0 <= i < |s.pcs| :: !s.pcs[i].Waiting? && !s.pcs[i].Woken?
  }

  lemma InitialFlight<D>(sys: System<D>)
    ensures FlightInv(sys, Initial(sys))
  {}

  /** A step in which call `i` changes neither the table nor its leading and waiting. */
  lemma {:induction false} QuietStep<D>(sys: System<D>, s: State<D>, t: State<D>, i: nat, pc: Pc<D>)
    requires FlightInv(sys, s) && i < |s.pcs|
    requires t.table == s.table && t.pcs == s.pcs[i := pc]
    requires Leads(pc) == Leads(s.pcs[i]) && !pc.Waiting? && (pc.Woken? ==> sys.singleflight)
    ensures FlightInv(sys, t)
  {
    assert forall j, k :: LeadsKey(sys, t, j, k) == LeadsKey(sys, s, j, k);
    forall k | k in t.table.calls && sys.singleflight ensures exists j :: LeadsKey(sys, t, j, k) {
      var j :| LeadsKey(sys, s, j, k);
      assert LeadsKey(sys, t, j, k);
    }
    forall j | 0 <= j < |t.pcs| && sys.singleflight ensures WaitsRight(sys, t, j) { assert WaitsRight(sys, s, j); }
  }

  lemma {:induction false} AcquireStep<D>(sys: System<D>, s: State<D>, t: State<D>, i: nat)
    requires FlightInv(sys, s) && i < |s.pcs| && s.pcs[i].Start? && sys.singleflight
    requires var (u, ch, leader) := s.table.Acquire(sys.calls[i].key);
      t.table == u && t.pcs == s.pcs[i := if leader then LeadCheck else Waiting(ch)]
    ensures FlightInv(sys, t)
  {
    var key := sys.calls[i].key;
    AcquireSound(s.table, key);
    var led := key !in s.table.calls;
    assert forall j, k :: LeadsKey(sys, t, j, k) == (LeadsKey(sys, s, j, k) || (j == i && k == key && led));
    forall k | k in t.table.calls ensures exists j :: LeadsKey(sys, t, j, k) {
      if k == key && key !in s.table.calls {
        assert LeadsKey(sys, t, i, k);
      } else {
        var j :| LeadsKey(sys, s, j, k);
        assert LeadsKey(sys, t, j, k);
      }
    }
    forall j | 0 <= j < |t.pcs| ensures WaitsRight(sys, t, j) { assert WaitsRight(sys, s, j); }
  }

  lemma {:induction false} ReleaseStep<D>(sys: System<D>, s: State<D>, t: State<D>, i: nat, pc: Pc<D>)
    requires FlightInv(sys, s) && i < |s.pcs| && s.pcs[i].Releasing? && sys.singleflight
    requires t.table == s.table.Done(sys.calls[i].key) && t.pcs == s.pcs[i := pc] && pc.Finished?
    ensures FlightInv(sys, t)
  {
    var key := sys.calls[i].key;
    assert LeadsKey(sys, s, i, key);
    DoneSound(s.table, key);
    assert forall j, k :: LeadsKey(sys, t, j, k) == (LeadsKey(sys, s, j, k) && j != i);
    forall k | k in t.table.calls ensures exists j :: LeadsKey(sys, t, j, k) {
      var j :| LeadsKey(sys, s, j, k);
      assert LeadsKey(sys, t, j, k);
    }
    forall j | 0 <= j < |t.pcs| ensures WaitsRight(sys, t, j) { assert WaitsRight(sys, s, j); }
  }

  lemma {:induction false} StepKeepsFlight<D>(sys: System<D>, s: State<D>, i: nat, l: Label)
    requires FlightInv(sys, s) && Step(sys, s, i, l).Some?
    ensures FlightInv(sys, Step(sys, s, i, l).value)
  {
    var t := Step(sys, s, i, l).value;
    if l.Forget? {
      assert forall j, k :: LeadsKey(sys, t, j, k) == LeadsKey(sys, s, j, k);
      forall j | 0 <= j < |t.pcs| && sys.singleflight ensures WaitsRight(sys, t, j) { assert WaitsRight(sys, s, j); }
      forall k | k in t.table.calls && sys.singleflight ensures exists j :: LeadsKey(sys, t, j, k) {
        var j :| LeadsKey(sys, s, j, k);
        assert LeadsKey(sys, t, j, k);
      }
    } else if l.Acquire? && sys.singleflight {
      AcquireStep(sys, s, t, i);
    } else if l.Release? && sys.singleflight {
      ReleaseStep(sys, s, t, i, t.pcs[i]);
    } else if sys.singleflight {
      QuietStep(sys, s, t, i, t.pcs[i]);
    }
  }

  /** Singleflight safety, in every reachable state: one leader per key at most, open channels in
      the table, and every waiter on a closed channel or on one whose leader is live. */
  lemma {:induction false} FlightSafe<D>(sys: System<D>, run: seq<Move>, n: nat)
    requires n <= |run| && RunTo(sys, run, n).Some?
    ensures FlightInv(sys, RunTo(sys, run, n).value)
  {
    if n == 0 {
      InitialFlight(sys);
    } else {
      FlightSafe(sys, run, n - 1);
      StepKeepsFlight(sys, RunTo(sys, run, n - 1).value, run[n - 1].who, run[n - 1].what);
    }
  }

  // ----- progress -----

  /** No reachable state is stuck: as long as some call is unfinished, some call can step. */
  lemma {:induction false} NoDeadlock<D>(sys: System<D>, s: State<D>, i: nat) returns (j: nat, l: Label)
    requires FlightInv(sys, s) && i < |s.pcs| && !s.pcs[i].Finished?
    ensures j < |s.pcs| && !l.Forget? && Step(sys, s, j, l).Some?
  {
    j := i;
    match s.pcs[i] {
      case Start => l := Label.Acquire;
      case Waiting(ch) =>
        l := Wake;
        if ch !in s.table.closed {
          var key := sys.calls[i].key;
          assert WaitsRight(sys, s, i);
          j :| LeadsKey(sys, s, j, key);
          l := match s.pcs[j]
            case LeadCheck => Look(false)
            case Query => Fetch(Refused)
            case Storing(_, _) => Put(true)
            case _ => Release;
        }
      case Woken => l := Look(false);
      case LeadCheck => l := Look(false);
      case Query => l := Fetch(Refused);
      case Storing(_, _) => l := Put(true);
      case Releasing(_, _) => l := Release;
    }
  }

  lemma {:induction false} NeverStuck<D>(sys: System<D>, run: seq<Move>, i: nat) returns (j: nat, l: Label)
    requires RunTo(sys, run, |run|).Some? && i < |sys.calls| && !RunTo(sys, run, |run|).value.pcs[i].Finished?
    ensures j < |sys.calls| && !l.Forget? && Step(sys, RunTo(sys, run, |run|).value, j, l).Some?
  {
    FlightSafe(sys, run, |run|);
    hide Step, FlightInv, RunTo;
    j, l := NoDeadlock(sys, RunTo(sys, run, |run|).value, i);
  }

  // ----- termination -----

  /** 1 for a call that may still win acquire. */
  function Ahead<D>(pc: Pc<D>): nat { if pc.Start? || pc.Waiting? || pc.Woken? then 1 else 0 }

  function Unled<D>(pcs: seq<Pc<D>>, n: nat): nat
    requires n <= |pcs|
  {
    if n == 0 then 0 else Unled(pcs, n - 1) + Ahead(pcs[n - 1])
  }

  /** How far a call is from its end or from waiting on an open channel. */
  function Rank<D>(pc: Pc<D>, closed: set<nat>): nat {
    match pc
    case Start => 2
    case Waiting(ch) => if ch in closed then 4 else 1
    case Woken => 3
    case LeadCheck => 5
    case Query => 4
    case Storing(_, _) => 3
    case Releasing(_, _) => 2
    case Finished(_, _) => 0
  }

  function Ranks<D>(pcs: seq<Pc<D>>, closed: set<nat>, n: nat): (r: nat)
    requires n <= |pcs|
    ensures r <= 5 * n
  {
    if n == 0 then 0 else Ranks(pcs, closed, n - 1) + Rank(pcs[n - 1], closed)
  }

  lemma {:induction false} RanksUpdate<D>(pcs: seq<Pc<D>>, closed: set<nat>, i: nat, pc: Pc<D>, n: nat)
    requires i < |pcs| && n <= |pcs|
    ensures Ranks(pcs[i := pc], closed, n) ==
      Ranks(pcs, closed, n) + if i < n then Rank(pc, closed) - Rank(pcs[i], closed) else 0
  {
    if n > 0 { RanksUpdate(pcs, closed, i, pc, n - 1); }
  }

  lemma {:induction false} UnledUpdate<D>(pcs: seq<Pc<D>>, i: nat, pc: Pc<D>, n: nat)
    requires i < |pcs| && n <= |pcs|
    ensures Unled(pcs[i := pc], n) == Unled(pcs, n) + if i < n then Ahead(pc) - Ahead(pcs[i]) else 0
  {
    if n > 0 { UnledUpdate(pcs, i, pc, n - 1); }
  }

  /** The variant: calls not yet leading, then open channels, then the ranks. */
  ghost predicate Less<D>(t: State<D>, s: State<D>)
    requires |s.pcs| == |t.pcs|
  {
    var n := |s.pcs|;
    var u, v := Unled(t.pcs, n), Unled(s.pcs, n);
    var o, p := |t.table.calls|, |s.table.calls|;
    u < v || (u == v && (o < p || (o == p && Ranks(t.pcs, t.table.closed, n) < Ranks(s.pcs, s.table.closed, n))))
  }

  /** A call that comes closer to its end, or wins acquire, while the others stand still. */
  lemma {:induction false} Closer<D>(s: State<D>, t: State<D>, i: nat, pc: Pc<D>)
    requires i < |s.pcs| && t.pcs == s.pcs[i := pc] && Ahead(pc) <= Ahead(s.pcs[i])
    requires Ahead(pc) < Ahead(s.pcs[i]) ||
      (t.table == s.table && Rank(pc, s.table.closed) < Rank(s.pcs[i], s.table.closed))
    ensures Less(t, s)
  {
    hide Rank, Ahead;
    UnledUpdate(s.pcs, i, pc, |s.pcs|);
    RanksUpdate(s.pcs, s.table.closed, i, pc, |s.pcs|);
  }

  lemma {:induction false} ReleaseDecreases<D>(sys: System<D>, s: State<D>, i: nat)
    requires FlightInv(sys, s) && i < |s.pcs| && s.pcs[i].Releasing?
    ensures Less(Step(sys, s, i, Release).value, s)
  {
    var t, key := Step(sys, s, i, Release).value, sys.calls[i].key;
    if sys.singleflight {
      assert LeadsKey(sys, s, i, key);
      assert t.table.calls.Keys == s.table.calls.Keys - {key};
      assert |t.table.calls.Keys| == |s.table.calls.Keys| - 1;
      hide *;
      UnledUpdate(s.pcs, i, t.pcs[i], |s.pcs|);
      ReleaseCount(s, t, i);
    } else {
      assert t.table == s.table;
      Closer(s, t, i, t.pcs[i]);
    }
  }

  lemma {:induction false} ReleaseCount<D>(s: State<D>, t: State<D>, i: nat)
    requires i < |s.pcs| && s.pcs[i].Releasing? && |t.table.calls| < |s.table.calls|
    requires |t.pcs| == |s.pcs| && t.pcs[i].Finished? && t.pcs == s.pcs[i := t.pcs[i]]
    ensures Less(t, s)
  { UnledUpdate(s.pcs, i, t.pcs[i], |s.pcs|); }

  lemma ActCloser<D>(sys: System<D>, c: Call<D>, s: State<D>, pc: Pc<D>, l: Label)
    requires sys.singleflight ==> Sound(s.table)
    requires Act(sys, c, s.table, s.store, pc, l).Some? && !pc.Releasing?
    ensures var next := Act(sys, c, s.table, s.store, pc, l).value;
      && Ahead(next.pc) <= Ahead(pc)
      && (Ahead(next.pc) < Ahead(pc)
          || (next.table == s.table && Rank(next.pc, s.table.closed) < Rank(pc, s.table.closed)))
  {}

  lemma {:induction false} StepDecreases<D>(sys: System<D>, s: State<D>, i: nat, l: Label)
    requires FlightInv(sys, s) && !l.Forget? && Step(sys, s, i, l).Some?
    ensures Less(Step(sys, s, i, l).value, s)
  {
    if s.pcs[i].Releasing? {
      ReleaseDecreases(sys, s, i);
    } else {
      ActCloser(sys, sys.calls[i], s, s.pcs[i], l);
      hide Act;
      var t := Step(sys, s, i, l).value;
      var next := Act(sys, sys.calls[i], s.table, s.store, s.pcs[i], l).value;
      assert t == State(next.table, next.store, s.pcs[i := next.pc]);
      hide *;
      Closer(s, t, i, next.pc);
    }
  }

  // ----- an explicit bound -----

  lemma {:induction false} SubsetSize<T>(a: set<T>, b: set<T>)
    requires a <= b
    ensures |a| <= |b|
  {
    if a != {} {
      var x :| x in a;
      SubsetSize(a - {x}, b - {x});
    }
  }

  function CallKeys<D>(calls: seq<Call<D>>): set<string> {
    if calls == [] then {} else CallKeys(calls[..|calls| - 1]) + {calls[|calls| - 1].key}
  }

  lemma {:induction false} CallKeysAre<D>(calls: seq<Call<D>>)
    ensures |CallKeys(calls)| <= |calls| && forall i | 0 <= i < |calls| :: calls[i].key in CallKeys(calls)
  {
    if calls != [] {
      var init := calls[..|calls| - 1];
      CallKeysAre(init);
      forall i | 0 <= i < |calls| ensures calls[i].key in CallKeys(calls) {
        if i < |init| { assert init[i] == calls[i]; }
      }
    }
  }

  /** There are never more open channels than calls. */
  lemma {:induction false} OpenBound<D>(sys: System<D>, s: State<D>)
    requires FlightInv(sys, s)
    ensures |s.table.calls| <= |s.pcs|
  {
    if sys.singleflight {
      CallKeysAre(sys.calls);
      forall k | k in s.table.calls ensures k in CallKeys(sys.calls) {
        var i :| LeadsKey(sys, s, i, k);
      }
      SubsetSize(s.table.calls.Keys, CallKeys(sys.calls));
    }
  }

  function Weigh(n: nat, unled: nat, open: nat, ranks: nat): int {
    (unled * (n + 1) + open) * (5 * n + 1) + ranks
  }

  lemma Scale(k: nat, a: int, b: int)
    requires a <= b
    ensures a * k <= b * k
  {}

  lemma {:induction false} Carry(k: nat, a: int, r: nat, b: int, q: nat)
    requires r < k && (a < b || (a == b && r < q))
    ensures a * k + r < b * k + q
  {
    if a < b {
      Scale(k, a + 1, b);
      assert (a + 1) * k == a * k + k;
    }
  }

  lemma {:induction false} WeighLess(n: nat, u: nat, o: nat, r: nat, v: nat, p: nat, q: nat)
    requires o <= n && r <= 5 * n
    requires u < v || (u == v && (o < p || (o == p && r < q)))
    ensures Weigh(n, u, o, r) < Weigh(n, v, p, q)
  {
    if u < v || o < p { Carry(n + 1, u, o, v, p); }
    Carry(5 * n + 1, u * (n + 1) + o, r, v * (n + 1) + p, q);
  }

  ghost function Measure<D>(s: State<D>): int {
    Weigh(|s.pcs|, Unled(s.pcs, |s.pcs|), |s.table.calls|, Ranks(s.pcs, s.table.closed, |s.pcs|))
  }

  /** The moves of calls in a run, leaving out what the store forgets by itself. */
  function CallMoves(run: seq<Move>, n: nat): nat
    requires n <= |run|
  {
    if n == 0 then 0 else CallMoves(run, n - 1) + if run[n - 1].what.Forget? then 0 else 1
  }

  /** Each step of a call lowers the measure. */
  lemma {:induction false} StepLowers<D>(sys: System<D>, s: State<D>, i: nat, l: Label)
    requires FlightInv(sys, s) && !l.Forget? && Step(sys, s, i, l).Some?
    ensures Measure(Step(sys, s, i, l).value) < Measure(s)
  {
    var t := Step(sys, s, i, l).value;
    StepKeepsFlight(sys, s, i, l);
    OpenBound(sys, t);
    StepDecreases(sys, s, i, l);
    hide Step, FlightInv;
    WeighLess(|t.pcs|, Unled(t.pcs, |t.pcs|), |t.table.calls|, Ranks(t.pcs, t.table.closed, |t.pcs|),
      Unled(s.pcs, |s.pcs|), |s.table.calls|, Ranks(s.pcs, s.table.closed, |s.pcs|));
  }

  lemma ForgetKeeps<D>(sys: System<D>, s: State<D>, i: nat, l: Label)
    requires FlightInv(sys, s) && l.Forget?
    ensures Measure(Step(sys, s, i, l).value) == Measure(s)
  {}

  lemma MeasurePositive<D>(s: State<D>)
    ensures 0 <= Measure(s)
  {}

  /** However the steps interleave and the leaders fail, every move of a call lowers the measure. */
  lemma {:induction false} RunLowers<D>(sys: System<D>, run: seq<Move>, n: nat)
    requires n <= |run| && RunTo(sys, run, n).Some?
    ensures Measure(RunTo(sys, run, n).value) <= Measure(Initial(sys)) - CallMoves(run, n)
  {
    hide Step, FlightInv, Measure, Initial;
    if n == 0 {
      assert RunTo(sys, run, 0).value == Initial(sys);
    } else {
      hide RunTo;
      LastMove(sys, run, n);
      RunLowers(sys, run, n - 1);
      FlightSafe(sys, run, n - 1);
      var s, m := RunTo(sys, run, n - 1).value, run[n - 1];
      if m.what.Forget? {
        ForgetKeeps(sys, s, m.who, m.what);
      } else {
        StepLowers(sys, s, m.who, m.what);
      }
    }
  }

  lemma {:induction false} InitialRanks<D>(n: nat, k: nat)
    requires k <= n
    ensures Unled(seq(n, i => Pc<D>.Start), k) == k && Ranks(seq(n, i => Pc<D>.Start), {}, k) == 2 * k
  {
    if k > 0 { InitialRanks<D>(n, k - 1); }
  }

  /** Every run is finite, whatever the interleaving: n calls make at most
      n(n + 1)(5n + 1) + 2n moves. */
  lemma {:induction false} RunBound<D>(sys: System<D>, run: seq<Move>)
    requires RunTo(sys, run, |run|).Some?
    ensures var n := |sys.calls|; CallMoves(run, |run|) <= n * (n + 1) * (5 * n + 1) + 2 * n
  {
    hide *;
    InitialMeasure(sys);
    RunLowers(sys, run, |run|);
    MeasurePositive(RunTo(sys, run, |run|).value);
  }

  lemma {:induction false} InitialMeasure<D>(sys: System<D>)
    ensures var n := |sys.calls|; Measure(Initial(sys)) == n * (n + 1) * (5 * n + 1) + 2 * n
  {
    var n := |sys.calls|;
    InitialRanks<D>(n, n);
    hide Unled, Ranks;
    assert Measure(Initial(sys)) == Weigh(n, n, 0, 2 * n);
  }

  // ----- each call leads at most once, and waits on each channel at most once -----

  /** How often call `i` wins acquire, and how often it begins to wait on `ch`. */
  ghost function Wins<D>(sys: System<D>, run: seq<Move>, n: nat, i: nat): nat
    requires n <= |run| && RunTo(sys, run, n).Some? && i < |sys.calls|
  {
    if n == 0 then 0
    else (
      Wins(sys, run, n - 1, i) +
      if run[n - 1] == Move(i, Label.Acquire) && RunTo(sys, run, n).value.pcs[i].LeadCheck? then 1 else 0)
  }

  ghost function Waits<D>(sys: System<D>, run: seq<Move>, n: nat, i: nat, ch: nat): nat
    requires n <= |run| && RunTo(sys, run, n).Some? && i < |sys.calls|
  {
    if n == 0 then 0
    else (
      Waits(sys, run, n - 1, i, ch) +
      if run[n - 1] == Move(i, Label.Acquire) && RunTo(sys, run, n).value.pcs[i] == Waiting(ch) then 1 else 0)
  }

  lemma ActWins<D>(sys: System<D>, c: Call<D>, s: State<D>, pc: Pc<D>, l: Label)
    requires Act(sys, c, s.table, s.store, pc, l).Some?
    ensures var next := Act(sys, c, s.table, s.store, pc, l).value.pc;
      Ahead(next) <= Ahead(pc) - if l.Acquire? && next.LeadCheck? then 1 else 0
  {}

  lemma {:induction false} WinsOnce<D>(sys: System<D>, run: seq<Move>, n: nat, i: nat)
    requires n <= |run| && RunTo(sys, run, n).Some? && i < |sys.calls|
    ensures Wins(sys, run, n, i) + Ahead(RunTo(sys, run, n).value.pcs[i]) <= 1
  {
    if n > 0 {
      hide Act, Ahead, RunTo;
      LastMove(sys, run, n);
      WinsOnce(sys, run, n - 1, i);
      var s, m := RunTo(sys, run, n - 1).value, run[n - 1];
      if m.who == i && !m.what.Forget? { ActWins(sys, sys.calls[i], s, s.pcs[i], m.what); }
    }
  }

  lemma ActWaits<D>(sys: System<D>, c: Call<D>, s: State<D>, pc: Pc<D>, l: Label, ch: nat)
    requires sys.singleflight ==> Sound(s.table)
    requires Act(sys, c, s.table, s.store, pc, l).Some?
    ensures var next := Act(sys, c, s.table, s.store, pc, l).value;
      && s.table.closed <= next.table.closed
      && (next.pc == Waiting(ch) ==> l.Acquire? && ch !in s.table.closed && pc.Start?)
      && (pc == Waiting(ch) ==> ch in s.table.closed)
  {}

  lemma {:induction false} WaitsOnce<D>(sys: System<D>, run: seq<Move>, n: nat, i: nat, ch: nat)
    requires n <= |run| && RunTo(sys, run, n).Some? && i < |sys.calls|
    ensures Waits(sys, run, n, i, ch) <= 1
    ensures var s := RunTo(sys, run, n).value;
      Waits(sys, run, n, i, ch) == 1 ==> ch in s.table.closed || s.pcs[i] == Waiting(ch)
  {
    if n > 0 {
      FlightSafe(sys, run, n - 1);
      assert sys.singleflight ==> Sound(RunTo(sys, run, n - 1).value.table);
      hide Act, FlightInv, RunTo, Sound;
      LastMove(sys, run, n);
      WaitsOnce(sys, run, n - 1, i, ch);
      var s, m := RunTo(sys, run, n - 1).value, run[n - 1];
      if !m.what.Forget? { ActWaits(sys, sys.calls[m.who], s, s.pcs[m.who], m.what, ch); }
    }
  }
}
