/** Nested transactions: Tx objects over one database transaction and its savepoint stack. */
module Savepoints {
  import opened Wrappers
  import Rebind

  // ----- the database's side -----

  datatype Mark<D> = Mark(name: string, saved: D)

  /** How the database transaction ended; Unknown after a failed commit or rollback. */
  datatype Outcome<D> = Pending | Committed(data: D) | Undone | Unknown

  datatype Session<D> = Session(data: D, stack: seq<Mark<D>>, outcome: Outcome<D>)

  /** The most recent savepoint of a name, or -1. */
  function Find<D>(stack: seq<Mark<D>>, name: string): (i: int)
    ensures -1 <= i < |stack|
    ensures i >= 0 ==> stack[i].name == name
    ensures forall j | i < j < |stack| :: stack[j].name != name
  {
    if stack == [] then -1
    else if stack[|stack| - 1].name == name then |stack| - 1
    else Find(stack[..|stack| - 1], name)
  }

  /** The three statements; None when the database refuses, by `fault` or for its own reasons. */
  function Savepoint<D>(s: Session<D>, name: string, fault: bool): Option<Session<D>> {
    if !s.outcome.Pending? || fault then None else Some(s.(stack := s.stack + [Mark(name, s.data)]))
  }

  function Release<D>(s: Session<D>, name: string, fault: bool): Option<Session<D>> {
    var i := Find(s.stack, name);
    if !s.outcome.Pending? || fault || i < 0 then None else Some(s.(stack := s.stack[..i]))
  }

  function RollbackTo<D>(s: Session<D>, name: string, fault: bool): Option<Session<D>> {
    var i := Find(s.stack, name);
    if !s.outcome.Pending? || fault || i < 0 then None
    else Some(s.(data := s.stack[i].saved, stack := s.stack[..i + 1]))
  }

  function End<D>(s: Session<D>, outcome: Outcome<D>): Session<D> { s.(stack := [], outcome := outcome) }

  // ----- what the Tx methods do -----

  datatype TxError = TxDone | BeginFailed | ReleaseFailed | RollbackFailed | EndFailed | ExecFailed

  function Name(n: nat): string { "rainbowsquirrel_sp_" + Rebind.Digits(n) }

  /** A session and a Tx's closed flag after a call, and the call's error. */
  datatype Outcomes<D> = Outcomes(session: Session<D>, closed: bool, error: Option<TxError>)

  /** A session and the name counter behind a Begin, and the new savepoint. */
  datatype Begun<D> = Begun(session: Session<D>, last: nat, name: Result<string, TxError>)

  function BeginSpec<D>(s: Session<D>, last: nat, closed: bool, fault: bool): Begun<D> {
    if closed then Begun(s, last, Err(TxDone))
    else
      match Savepoint(s, Name(last + 1), fault)
      case None => Begun(s, last + 1, Err(BeginFailed))
      case Some(next) => Begun(next, last + 1, Ok(Name(last + 1)))
  }

  function CommitSpec<D>(s: Session<D>, savepoint: string, closed: bool, fault: bool): Outcomes<D> {
    if closed then Outcomes(s, true, Some(TxDone))
    else if savepoint == "" then
      if !s.outcome.Pending? then Outcomes(s, true, Some(TxDone))
      else if fault then Outcomes(End(s, Unknown), true, Some(EndFailed))
      else Outcomes(End(s, Committed(s.data)), true, None)
    else
      match Release(s, savepoint, fault)
      case None => Outcomes(s, false, Some(ReleaseFailed))
      case Some(next) => Outcomes(next, true, None)
  }

  function RollbackSpec<D>(s: Session<D>, savepoint: string, closed: bool, fault: bool, fault': bool): Outcomes<D> {
    if closed then Outcomes(s, true, Some(TxDone))
    else if savepoint == "" then
      if !s.outcome.Pending? then Outcomes(s, true, Some(TxDone))
      else if fault then Outcomes(End(s, Unknown), true, Some(EndFailed))
      else Outcomes(End(s, Undone), true, None)
    else
      match RollbackTo(s, savepoint, fault)
      case None => Outcomes(s, false, Some(RollbackFailed))
      case Some(back) =>
        match Release(back, savepoint, fault')
        case None => Outcomes(back, false, Some(ReleaseFailed))
        case Some(next) => Outcomes(next, true, None)
  }

  function ExecSpec<D>(s: Session<D>, closed: bool, data: D, fault: bool): (Session<D>, Option<TxError>) {
    if closed then (s, Some(TxDone))
    else if !s.outcome.Pending? || fault then (s, Some(ExecFailed))
    else (s.(data := data), None)
  }

  // ----- the Tx objects -----

  /** The underlying database transaction, shared by a Tx and all its descendants. */
  class SqlTx<D> {
    var session: Session<D>

    constructor (session: Session<D>)
      ensures this.session == session
    { this.session := session; }
  }

  /** The process-wide counter behind savepoint names. */
  class Counter {
    var last: nat

    method Add() returns (n: nat)
      modifies this
      ensures n == last == old(last) + 1
    {
      last := last + 1;
      n := last;
    }
  }

  class Tx<D> {
    const tx: SqlTx<D>
    const names: Counter
    const savepoint: string
    var closed: bool

    constructor (tx: SqlTx<D>, names: Counter, savepoint: string)
      ensures this.tx == tx && this.names == names && this.savepoint == savepoint && !closed
    {
      this.tx, this.names, this.savepoint, closed := tx, names, savepoint, false;
    }

    method Begin(fault: bool) returns (r: Result<Tx<D>, TxError>)
      modifies names, tx
      ensures Begun(tx.session, names.last, if r.Ok? then Ok(r.value.savepoint) else Err(r.error))
        == BeginSpec(old(tx.session), old(names.last), closed, fault)
      ensures r.Ok? ==> fresh(r.value) && r.value.tx == tx && r.value.names == names && !r.value.closed
    {
      if closed { return Err(TxDone); }
      var n := names.Add();
      var name := Name(n);
      var next := Savepoint(tx.session, name, fault);
      if next.None? { return Err(BeginFailed); }
      tx.session := next.value;
      var nested := new Tx(tx, names, name);
      r := Ok(nested);
    }

    method Commit(fault: bool) returns (error: Option<TxError>)
      modifies this, tx
      ensures Outcomes(tx.session, closed, error) == CommitSpec(old(tx.session), savepoint, old(closed), fault)
    {
      if closed { return Some(TxDone); }
      if savepoint == "" {
        closed := true;
        if !tx.session.outcome.Pending? { return Some(TxDone); }
        tx.session := End(tx.session, if fault then Unknown else Committed(tx.session.data));
        return if fault then Some(EndFailed) else None;
      }
      var next := Release(tx.session, savepoint, fault);
      if next.None? { return Some(ReleaseFailed); }
      tx.session := next.value;
      closed := true;
      error := None;
    }

    method Rollback(fault: bool, fault': bool) returns (error: Option<TxError>)
      modifies this, tx
      ensures Outcomes(tx.session, closed, error)
        == RollbackSpec(old(tx.session), savepoint, old(closed), fault, fault')
    {
      if closed { return Some(TxDone); }
      if savepoint == "" {
        closed := true;
        if !tx.session.outcome.Pending? { return Some(TxDone); }
        tx.session := End(tx.session, if fault then Unknown else Undone);
        return if fault then Some(EndFailed) else None;
      }
      var back := RollbackTo(tx.session, savepoint, fault);
      if back.None? { return Some(RollbackFailed); }
      tx.session := back.value;
      var next := Release(tx.session, savepoint, fault');
      if next.None? { return Some(ReleaseFailed); }
      tx.session := next.value;
      closed := true;
      error := None;
    }

    /** A statement that turns the data into `data`. */
    method Exec(data: D, fault: bool) returns (error: Option<TxError>)
      modifies tx
      ensures (tx.session, error) == ExecSpec(old(tx.session), closed, data, fault)
    {
      if closed { return Some(TxDone); }
      if !tx.session.outcome.Pending? || fault { return Some(ExecFailed); }
      tx.session := tx.session.(data := data);
      error := None;
    }
  }

  // ----- runs -----

  datatype TxState = TxState(savepoint: string, closed: bool)

  /** One database transaction, the name counter, and the Tx objects made so far, the root first. */
  datatype World<D> = World(session: Session<D>, last: nat, txs: seq<TxState>)

  /** Calls on the Tx number `t`; a cancelled context, which ends the session; and names taken
      by other transactions of the process. */
  datatype Event<D> =
    | Begin(t: nat, fault: bool)
    | Commit(t: nat, fault: bool)
    | Rollback(t: nat, fault: bool, fault': bool)
    | Exec(t: nat, data: D, fault: bool)
    | Cancel
    | Elsewhere

  function Apply<D>(w: World<D>, e: Event<D>): World<D> {
    match e
    case Cancel => if w.session.outcome.Pending? then w.(session := End(w.session, Undone)) else w
    case Elsewhere => w.(last := w.last + 1)
    case Begin(t, fault) =>
      if t >= |w.txs| then w
      else
        var b := BeginSpec(w.session, w.last, w.txs[t].closed, fault);
        World(b.session, b.last, if b.name.Ok? then w.txs + [TxState(b.name.value, false)] else w.txs)
    case Commit(t, fault) =>
      if t >= |w.txs| then w
      else
        var o := CommitSpec(w.session, w.txs[t].savepoint, w.txs[t].closed, fault);
        w.(session := o.session, txs := w.txs[t := TxState(w.txs[t].savepoint, o.closed)])
    case Rollback(t, fault, fault') =>
      if t >= |w.txs| then w
      else
        var o := RollbackSpec(w.session, w.txs[t].savepoint, w.txs[t].closed, fault, fault');
        w.(session := o.session, txs := w.txs[t := TxState(w.txs[t].savepoint, o.closed)])
    case Exec(t, data, fault) =>
      if t >= |w.txs| then w else w.(session := ExecSpec(w.session, w.txs[t].closed, data, fault).0)
  }

  /** The world after the first `n` events of a run from a fresh root transaction. */
  function WorldAt<D>(data: D, last: nat, run: seq<Event<D>>, n: nat): World<D>
    requires n <= |run|
  {
    if n == 0 then World(Session(data, [], Pending), last, [TxState("", false)])
    else Apply(WorldAt(data, last, run, n - 1), run[n - 1])
  }

  lemma LastEvent<D>(data: D, last: nat, run: seq<Event<D>>, n: nat)
    requires 0 < n <= |run|
    ensures WorldAt(data, last, run, n) == Apply(WorldAt(data, last, run, n - 1), run[n - 1])
  {}

  // ----- names -----

  lemma {:induction false} NameInjective(m: nat, n: nat)
    ensures Name(m) == Name(n) <==> m == n
  {
    var prefix := "rainbowsquirrel_sp_";
    if Name(m) == Name(n) {
      assert Rebind.Digits(m) == Name(m)[|prefix|..] && Rebind.Digits(n) == Name(n)[|prefix|..];
      Rebind.DigitsRead(m);
      Rebind.DigitsRead(n);
    }
  }

  /** The name is the prefix and the number in decimal. */
  lemma {:induction false} NameSpells(n: nat) returns (digits: string)
    ensures Name(n) == "rainbowsquirrel_sp_" + digits
    ensures Decimal(digits, n)
  {
    digits := Rebind.Digits(n);
    Rebind.DigitsRead(n);
    hide Rebind.Number, Rebind.Digits;
  }

  // ----- single calls -----

  /** A Begin on an open Tx takes the next number even when the database refuses; a savepoint with that
      number keeps the data as it is, and what is on the stack stays below it. */
  lemma BeginTakes<D>(s: Session<D>, last: nat, fault: bool)
    ensures var b := BeginSpec(s, last, false, fault);
      && b.last == last + 1 && b.session.data == s.data && b.session.outcome == s.outcome
      && (b.name.Ok? <==> s.outcome.Pending? && !fault)
      && (b.name.Ok? ==>
        && (exists digits :: b.name.value == "rainbowsquirrel_sp_" + digits && Decimal(digits, last + 1))
        && b.session.stack == s.stack + [Mark(b.name.value, s.data)])
      && (b.name.Err? ==> b.name.error == BeginFailed && b.session == s)
  {
    var digits := NameSpells(last + 1);
    hide Name;
  }

  ghost predicate Decimal(digits: string, n: nat) {
    (forall k | 0 <= k < |digits| :: Rebind.IsDigit(digits[k])) && Rebind.Number(digits) == n
  }

  /** Every call on a Tx that is closed is refused and changes nothing. */
  lemma ClosedRefuses<D>(w: World<D>, e: Event<D>)
    requires !e.Cancel? && !e.Elsewhere? && e.t < |w.txs| && w.txs[e.t].closed
    ensures Apply(w, e) == w
    ensures e.Begin? ==> BeginSpec(w.session, w.last, true, e.fault).name == Err(TxDone)
    ensures e.Exec? ==> ExecSpec(w.session, true, e.data, e.fault).1 == Some(TxDone)
    ensures e.Commit? ==> CommitSpec(w.session, w.txs[e.t].savepoint, true, e.fault).error == Some(TxDone)
    ensures e.Rollback? ==>
      RollbackSpec(w.session, w.txs[e.t].savepoint, true, e.fault, e.fault').error == Some(TxDone)
  {}

  /** A statement on an open Tx writes its data, and nothing else, unless the session has ended or
      the database refuses, and then nothing at all. */
  lemma ExecWrites<D>(w: World<D>, t: nat, d: D, fault: bool)
    requires t < |w.txs| && !w.txs[t].closed
    ensures var (s, error) := ExecSpec(w.session, false, d, fault);
      && Apply(w, Exec(t, d, fault)) == w.(session := s)
      && (error == None <==> w.session.outcome.Pending? && !fault)
      && s == if error == None then w.session.(data := d) else w.session
  {}

  predicate Owns<D>(w: World<D>, t: nat, i: nat) {
    0 < t < |w.txs| && i < |w.session.stack| && w.txs[t].savepoint == w.session.stack[i].name && !w.txs[t].closed
  }

  ghost predicate Owned<D>(w: World<D>, i: nat) { exists t: nat :: Owns(w, t, i) }

  ghost predicate Fresh<D>(w: World<D>) {
    && (forall t, k | 0 <= t < |w.txs| && k > w.last :: w.txs[t].savepoint != Name(k))
    && (forall i, k | 0 <= i < |w.session.stack| && k > w.last :: w.session.stack[i].name != Name(k))
  }

  ghost predicate Inv<D>(w: World<D>) {
    && w.txs != [] && w.txs[0].savepoint == ""
    && (forall t | 0 < t < |w.txs| :: w.txs[t].savepoint != "")
    && Fresh(w)
    && (forall t, u | 0 <= t < u < |w.txs| :: w.txs[t].savepoint != w.txs[u].savepoint)
    && (forall i, j | 0 <= i < j < |w.session.stack| :: w.session.stack[i].name != w.session.stack[j].name)
    && (forall i | 0 <= i < |w.session.stack| :: Owned(w, i))
    && (!w.session.outcome.Pending? ==> w.session.stack == [])
  }

  /** A mark that survives an event still has its owner. */
  lemma KeepsOwner<D>(w: World<D>, v: World<D>, i: nat, t: nat)
    requires i < |v.session.stack| && i < |w.session.stack| && v.session.stack[i] == w.session.stack[i]
    requires Owns(w, t, i) && t < |v.txs| && v.txs[t] == w.txs[t]
    ensures Owns(v, t, i)
  {}

  lemma {:induction false} BeginFresh<D>(w: World<D>, e: Event<D>)
    requires Fresh(w) && e.Begin?
    ensures Fresh(Apply(w, e))
  {
    forall k: nat | k > w.last + 1 ensures Name(w.last + 1) != Name(k) { NameInjective(w.last + 1, k); }
    hide Name;
  }

  lemma {:induction false} BeginKeeps<D>(w: World<D>, e: Event<D>)
    requires Inv(w) && e.Begin?
    ensures Inv(Apply(w, e))
  {
    var v := Apply(w, e);
    BeginFresh(w, e);
    assert forall t | 0 <= t < |w.txs| :: w.txs[t].savepoint != Name(w.last + 1);
    assert forall i | 0 <= i < |w.session.stack| :: w.session.stack[i].name != Name(w.last + 1);
    assert Name(w.last + 1) != "";
    hide Name, Fresh;
    forall i | 0 <= i < |v.session.stack| ensures Owned(v, i) {
      if i < |w.session.stack| {
        assert Owned(w, i);
        var t: nat :| Owns(w, t, i);
        KeepsOwner(w, v, i, t);
      } else {
        assert Owns(v, |w.txs|, i);
      }
    }
  }

  /** Releasing or rolling back to savepoint `i` leaves the marks below it. */
  lemma {:induction false} CutKeeps<D>(w: World<D>, v: World<D>, t: nat, i: nat)
    requires Inv(w) && t < |w.txs| == |v.txs| && i <= |w.session.stack|
    requires v.last == w.last && v.session.outcome == w.session.outcome
    requires v.session.stack == w.session.stack[..i]
    requires v.txs == w.txs[t := TxState(w.txs[t].savepoint, v.txs[t].closed)]
    requires v.txs[t].closed ==> w.txs[t].closed || t == 0 || Find(v.session.stack, w.txs[t].savepoint) < 0
    ensures Inv(v)
  {
    forall k | 0 <= k < |v.session.stack| ensures Owned(v, k) {
      assert Owned(w, k);
      var u: nat :| Owns(w, u, k);
      assert Owns(v, u, k);
    }
  }

  lemma EndKeeps<D>(w: World<D>, v: World<D>, t: nat)
    requires Inv(w) && t < |w.txs| == |v.txs| && v.last == w.last && v.session.stack == []
    requires v.txs == w.txs[t := TxState(w.txs[t].savepoint, v.txs[t].closed)]
    ensures Inv(v)
  {}

  lemma FindDistinct<D>(w: World<D>, i: nat)
    requires Inv(w) && i < |w.session.stack|
    ensures Find(w.session.stack, w.session.stack[i].name) == i
    ensures Find(w.session.stack[..i], w.session.stack[i].name) < 0
    ensures Find(w.session.stack[..i + 1], w.session.stack[i].name) == i
  {}

  lemma {:induction false} CommitKeeps<D>(w: World<D>, e: Event<D>)
    requires Inv(w) && e.Commit?
    ensures Inv(Apply(w, e))
  {
    var v := Apply(w, e);
    if e.t < |w.txs| {
      var name := w.txs[e.t].savepoint;
      var i := Find(w.session.stack, name);
      if v.session.stack == [] {
        EndKeeps(w, v, e.t);
      } else {
        if i >= 0 { FindDistinct(w, i); }
        assert v.session.stack == w.session.stack[..|v.session.stack|];
        CutKeeps(w, v, e.t, |v.session.stack|);
      }
    }
  }

  lemma {:induction false} RollbackKeeps<D>(w: World<D>, e: Event<D>)
    requires Inv(w) && e.Rollback?
    ensures Inv(Apply(w, e))
  {
    var v := Apply(w, e);
    if e.t < |w.txs| {
      var name := w.txs[e.t].savepoint;
      var i := Find(w.session.stack, name);
      if v.session.stack == [] {
        EndKeeps(w, v, e.t);
      } else {
        if i >= 0 { FindDistinct(w, i); }
        assert v.session.stack == w.session.stack[..|v.session.stack|];
        CutKeeps(w, v, e.t, |v.session.stack|);
      }
    }
  }

  lemma {:induction false} OtherKeeps<D>(w: World<D>, e: Event<D>)
    requires Inv(w) && (e.Exec? || e.Cancel? || e.Elsewhere?)
    ensures Inv(Apply(w, e))
  {
    var v := Apply(w, e);
    forall i | 0 <= i < |v.session.stack| ensures Owned(v, i) {
      assert Owned(w, i);
      var t: nat :| Owns(w, t, i);
      assert Owns(v, t, i);
    }
  }

  lemma FirstWorld<D>(data: D, last: nat, run: seq<Event<D>>)
    ensures Inv(WorldAt(data, last, run, 0))
  {}

  /** Every reachable world: savepoint names on the stack are distinct, none will be made again,
      and each belongs to an open nested Tx. */
  lemma {:induction false} Reachable<D>(data: D, last: nat, run: seq<Event<D>>, n: nat)
    requires n <= |run|
    ensures Inv(WorldAt(data, last, run, n))
  {
    hide *;
    if n == 0 {
      FirstWorld(data, last, run);
    } else {
      Reachable(data, last, run, n - 1);
      LastEvent(data, last, run, n);
      var w, e := WorldAt(data, last, run, n - 1), run[n - 1];
      match e {
        case Begin(_, _) => BeginKeeps(w, e);
        case Commit(_, _) => CommitKeeps(w, e);
        case Rollback(_, _, _) => RollbackKeeps(w, e);
        case _ => OtherKeeps(w, e);
      }
    }
  }

  /** A finished nested Tx has no savepoint on the stack. */
  lemma {:induction false} ClosedIsGone<D>(data: D, last: nat, run: seq<Event<D>>, n: nat, t: nat)
    requires n <= |run| && var w := WorldAt(data, last, run, n); 0 < t < |w.txs| && w.txs[t].closed
    ensures var w := WorldAt(data, last, run, n); Find(w.session.stack, w.txs[t].savepoint) < 0
  {
    Reachable(data, last, run, n);
    var w := WorldAt(data, last, run, n);
    hide WorldAt;
    forall i | 0 <= i < |w.session.stack| ensures w.session.stack[i].name != w.txs[t].savepoint {
      assert Owned(w, i);
      var u: nat :| Owns(w, u, i);
    }
  }

  // ----- one nested transaction, from its Begin on -----

  /** The event begins a nested Tx, which becomes the Tx number |w.txs|. */
  predicate Begins<D>(w: World<D>, e: Event<D>) {
    e.Begin? && e.t < |w.txs| && !w.txs[e.t].closed && Savepoint(w.session, Name(w.last + 1), e.fault).Some?
  }

  /** In `w`, after a Begin in `w0`: as long as its savepoint is on the stack, the marks below it
      are those it was begun on, and it keeps the data it was begun with. */
  ghost predicate Tracks<D>(w0: World<D>, w: World<D>) {
    var name, p := Name(w0.last + 1), |w0.session.stack|;
    && w.last > w0.last
    && |w.txs| > |w0.txs| && w.txs[|w0.txs|].savepoint == name
    && (Find(w.session.stack, name) >= 0 ==>
        && Find(w.session.stack, name) == p
        && w.session.stack[..p + 1] == w0.session.stack + [Mark(name, w0.session.data)])
  }

  lemma FindCut<D>(w: World<D>, name: string, m: nat)
    requires Inv(w) && m <= |w.session.stack|
    ensures var i := Find(w.session.stack, name);
      Find(w.session.stack[..m], name) == if i < m then i else -1
  {}

  /** An event leaves a prefix of the stack, or adds a mark with a new name. */
  lemma {:induction false} StackAfter<D>(w: World<D>, e: Event<D>)
    requires Inv(w)
    ensures var v := Apply(w, e);
      && v.last >= w.last && |v.txs| >= |w.txs|
      && (forall t | 0 <= t < |w.txs| :: v.txs[t].savepoint == w.txs[t].savepoint)
      && (if Begins(w, e) then v.session.stack == w.session.stack + [Mark(Name(w.last + 1), w.session.data)]
          else |v.session.stack| <= |w.session.stack| && v.session.stack == w.session.stack[..|v.session.stack|])
  {
    hide Inv;
  }

  lemma TracksTx<D>(w0: World<D>, w: World<D>)
    requires Tracks(w0, w)
    ensures w.last > w0.last && |w.txs| > |w0.txs| && w.txs[|w0.txs|].savepoint == Name(w0.last + 1)
  {}

  lemma {:induction false} TrackStep<D>(w0: World<D>, w: World<D>, e: Event<D>)
    requires Inv(w) && Tracks(w0, w)
    ensures Tracks(w0, Apply(w, e))
  {
    hide *;
    var v, name := Apply(w, e), Name(w0.last + 1);
    StackAfter(w, e);
    TracksTx(w0, w);
    if Begins(w, e) {
      NameInjective(w.last + 1, w0.last + 1);
      FindPush(w.session.stack, Mark(Name(w.last + 1), w.session.data), name);
      TrackStack(w0, w, v, |w.session.stack|);
    } else {
      FindCut(w, name, |v.session.stack|);
      TrackStack(w0, w, v, |v.session.stack|);
    }
  }

  lemma FindPush<D>(stack: seq<Mark<D>>, mark: Mark<D>, name: string)
    requires mark.name != name
    ensures Find(stack + [mark], name) == Find(stack, name)
  {}

  lemma FindTop<D>(stack: seq<Mark<D>>, mark: Mark<D>)
    ensures Find(stack + [mark], mark.name) == |stack|
  {}

  lemma TrackStack<D>(w0: World<D>, w: World<D>, v: World<D>, m: nat)
    requires Tracks(w0, w) && v.last > w0.last && |v.txs| > |w0.txs|
    requires v.txs[|w0.txs|].savepoint == w.txs[|w0.txs|].savepoint
    requires m <= |w.session.stack| && m <= |v.session.stack| && v.session.stack[..m] == w.session.stack[..m]
    requires var i := Find(w.session.stack, Name(w0.last + 1));
      Find(v.session.stack, Name(w0.last + 1)) == if i < m then i else -1
    ensures Tracks(w0, v)
  {}

  lemma TrackStart<D>(w0: World<D>, e: Event<D>)
    requires Inv(w0) && Begins(w0, e)
    ensures Tracks(w0, Apply(w0, e)) && Find(Apply(w0, e).session.stack, Name(w0.last + 1)) >= 0
  {
    var stack, mark := w0.session.stack, Mark(Name(w0.last + 1), w0.session.data);
    assert Apply(w0, e) == World(w0.session.(stack := stack + [mark]), w0.last + 1,
      w0.txs + [TxState(mark.name, false)]);
    hide *;
    FindTop(stack, mark);
    TracksFirst(w0, w0.last + 1, w0.txs + [TxState(mark.name, false)]);
  }

  lemma TracksFirst<D>(w0: World<D>, last: nat, txs: seq<TxState>)
    requires last == w0.last + 1 && txs == w0.txs + [TxState(Name(last), false)]
    ensures var stack := w0.session.stack + [Mark(Name(last), w0.session.data)];
      Find(stack, Name(last)) == |w0.session.stack| ==> Tracks(w0, World(w0.session.(stack := stack), last, txs))
  {
    hide Find, Name;
  }

  lemma {:induction false} Tracked<D>(data: D, last: nat, run: seq<Event<D>>, k: nat, n: nat)
    requires k < n <= |run| && Begins(WorldAt(data, last, run, k), run[k])
    ensures Tracks(WorldAt(data, last, run, k), WorldAt(data, last, run, n))
  {
    hide *;
    var w0, w := WorldAt(data, last, run, k), WorldAt(data, last, run, n - 1);
    Reachable(data, last, run, n - 1);
    LastEvent(data, last, run, n);
    if n == k + 1 {
      TrackStart(w0, run[k]);
    } else {
      Tracked(data, last, run, k, n - 1);
      TrackStep(w0, w, run[n - 1]);
    }
  }

  /** A nested Rollback that succeeds restores the data and the stack as they were at its Begin,
      whatever was done, begun, committed or left open in between. */
  lemma {:induction false} RollbackRestores<D>(data: D, last: nat, run: seq<Event<D>>, k: nat, n: nat)
    requires k < n < |run| && Begins(WorldAt(data, last, run, k), run[k])
    requires var w0, w := WorldAt(data, last, run, k), WorldAt(data, last, run, n);
      && run[n].Rollback? && run[n].t == |w0.txs| < |w.txs|
      && var tx := w.txs[run[n].t];
      RollbackSpec(w.session, tx.savepoint, tx.closed, run[n].fault, run[n].fault').error.None?
    ensures var w0, v := WorldAt(data, last, run, k), WorldAt(data, last, run, n + 1);
      && v.session.data == w0.session.data && v.session.stack == w0.session.stack
      && v.session.outcome.Pending? && v.txs[|w0.txs|].closed
  {
    var w0, w := WorldAt(data, last, run, k), WorldAt(data, last, run, n);
    Reachable(data, last, run, n);
    Tracked(data, last, run, k, n);
    LastEvent(data, last, run, n + 1);
    hide WorldAt;
    RestoreStep(w0, w, run[n]);
  }

  lemma RestoreStep<D>(w0: World<D>, w: World<D>, e: Event<D>)
    requires Inv(w) && Tracks(w0, w) && e.Rollback? && e.t == |w0.txs| < |w.txs|
    requires RollbackSpec(w.session, w.txs[e.t].savepoint, w.txs[e.t].closed, e.fault, e.fault').error.None?
    ensures var v := Apply(w, e);
      && v.session.data == w0.session.data && v.session.stack == w0.session.stack
      && v.session.outcome.Pending? && v.txs[|w0.txs|].closed
  {}

  /** A nested Commit that succeeds keeps the data and leaves the stack it was begun on, so that
      the enclosing transaction can still undo it. */
  lemma {:induction false} CommitReleases<D>(data: D, last: nat, run: seq<Event<D>>, k: nat, n: nat)
    requires k < n < |run| && Begins(WorldAt(data, last, run, k), run[k])
    requires var w0, w := WorldAt(data, last, run, k), WorldAt(data, last, run, n);
      && run[n].Commit? && run[n].t == |w0.txs| < |w.txs|
      && CommitSpec(w.session, w.txs[run[n].t].savepoint, w.txs[run[n].t].closed, run[n].fault).error.None?
    ensures var w0, w, v := WorldAt(data, last, run, k), WorldAt(data, last, run, n), WorldAt(data, last, run, n + 1);
      && v.session.data == w.session.data && v.session.stack == w0.session.stack
      && v.session.outcome.Pending? && v.txs[|w0.txs|].closed
  {
    var w0, w := WorldAt(data, last, run, k), WorldAt(data, last, run, n);
    Reachable(data, last, run, n);
    Tracked(data, last, run, k, n);
    LastEvent(data, last, run, n + 1);
    hide WorldAt;
    assert w.session.stack[..|w0.session.stack| + 1][..|w0.session.stack|] == w0.session.stack;
    assert w.txs[run[n].t].savepoint != "";
    hide Inv;
  }

  // ----- when a nested Tx can still be finished -----

  predicate Has<D>(stack: seq<Mark<D>>, name: string) { Find(stack, name) >= 0 }

  /** The event takes the savepoint begun in `w0` away: it ends the session, finishes or rolls
      back an enclosing Tx, or finishes the Tx itself. */
  predicate Cuts<D>(w0: World<D>, w: World<D>, e: Event<D>) {
    match e
    case Cancel => w.session.outcome.Pending?
    case Commit(t, fault) => (
      && t < |w.txs| && !w.txs[t].closed
      && if w.txs[t].savepoint == "" then w.session.outcome.Pending?
         else Release(w.session, w.txs[t].savepoint, fault).Some?
              && (t == |w0.txs| || Has(w0.session.stack, w.txs[t].savepoint)))
    case Rollback(t, fault, fault') => (
      && t < |w.txs| && !w.txs[t].closed
      && if w.txs[t].savepoint == "" then w.session.outcome.Pending?
         else if t == |w0.txs| then RollbackSpec(w.session, w.txs[t].savepoint, false, fault, fault').error.None?
         else RollbackTo(w.session, w.txs[t].savepoint, fault).Some? && Has(w0.session.stack, w.txs[t].savepoint))
    case _ => false
  }

  /** In a stack whose first marks are `below` and one named `name`, a mark lies below that one
      exactly when it is in `below`. */
  lemma {:induction false} BelowIs<D>(w: World<D>, below: seq<Mark<D>>, mark: Mark<D>, i: nat)
    requires Inv(w) && |below| < |w.session.stack| && w.session.stack[..|below| + 1] == below + [mark]
    requires i < |w.session.stack|
    ensures w.session.stack[i].name == mark.name <==> i == |below|
    ensures Has(below, w.session.stack[i].name) <==> i < |below|
  {
    assert w.session.stack[|below|] == w.session.stack[..|below| + 1][|below|];
    forall j | 0 <= j < |below| ensures below[j] == w.session.stack[j] {
      assert below[j] == w.session.stack[..|below| + 1][j];
    }
  }

  /** Where the savepoint of Tx `t` is, relative to the one begun in `w0`. */
  lemma {:induction false} Where<D>(w0: World<D>, w: World<D>, t: nat)
    requires Inv(w) && Tracks(w0, w) && Has(w.session.stack, Name(w0.last + 1))
    requires t < |w.txs| && Has(w.session.stack, w.txs[t].savepoint)
    ensures var i, p := Find(w.session.stack, w.txs[t].savepoint), |w0.session.stack|;
      && p == Find(w.session.stack, Name(w0.last + 1))
      && (t == |w0.txs| <==> i == p) && (Has(w0.session.stack, w.txs[t].savepoint) <==> i < p)
  {
    BelowIs(w, w0.session.stack, Mark(Name(w0.last + 1), w0.session.data), Find(w.session.stack, w.txs[t].savepoint));
    assert t != |w0.txs| ==> w.txs[t].savepoint != w.txs[|w0.txs|].savepoint;
    hide Find, Name;
  }

  lemma {:induction false} CommitCuts<D>(w0: World<D>, w: World<D>, e: Event<D>)
    requires Inv(w) && Tracks(w0, w) && Has(w.session.stack, Name(w0.last + 1)) && e.Commit?
    ensures Has(Apply(w, e).session.stack, Name(w0.last + 1)) <==> !Cuts(w0, w, e)
  {
    if e.t < |w.txs| && !w.txs[e.t].closed && Has(w.session.stack, w.txs[e.t].savepoint) {
      Where(w0, w, e.t);
      FindCut(w, Name(w0.last + 1), Find(w.session.stack, w.txs[e.t].savepoint));
    }
    hide Inv, Name, Tracks;
  }

  lemma RollbackStack<D>(w: World<D>, t: nat, fault: bool, fault': bool)
    requires Inv(w) && 0 < t < |w.txs|
    ensures var name := w.txs[t].savepoint;
      var i, back := Find(w.session.stack, name), RollbackTo(w.session, name, fault);
      var o := RollbackSpec(w.session, name, false, fault, fault');
      if back.None? then o.session == w.session && o.error.Some?
      else i >= 0 && o.session.stack == w.session.stack[..if o.error.None? then i else i + 1]
  {}

  /** Rollback on an open nested Tx, unfolded. */
  lemma NestedRollback<D>(w0: World<D>, w: World<D>, e: Event<D>)
    requires e.Rollback? && e.t < |w.txs| && !w.txs[e.t].closed && w.txs[e.t].savepoint != ""
    ensures var name := w.txs[e.t].savepoint;
      var o, back := RollbackSpec(w.session, name, false, e.fault, e.fault'), RollbackTo(w.session, name, e.fault);
      && Apply(w, e).session == o.session
      && (Cuts(w0, w, e) <==> if e.t == |w0.txs| then o.error.None? else back.Some? && Has(w0.session.stack, name))
  {}

  lemma {:induction false} NestedRollbackCuts<D>(w0: World<D>, w: World<D>, e: Event<D>)
    requires Inv(w) && Tracks(w0, w) && Has(w.session.stack, Name(w0.last + 1)) && e.Rollback?
    requires 0 < e.t < |w.txs| && !w.txs[e.t].closed && w.txs[e.t].savepoint != ""
    ensures Has(Apply(w, e).session.stack, Name(w0.last + 1)) <==> !Cuts(w0, w, e)
  {
    hide *;
    var i, name := Find(w.session.stack, w.txs[e.t].savepoint), Name(w0.last + 1);
    NestedRollback(w0, w, e);
    RollbackStack(w, e.t, e.fault, e.fault');
    HasIs(w.session.stack, w.txs[e.t].savepoint);
    HasIs(w.session.stack, name);
    HasIs(Apply(w, e).session.stack, name);
    if i >= 0 {
      Where(w0, w, e.t);
      FindCut(w, name, i);
      FindCut(w, name, i + 1);
    }
  }

  lemma {:induction false} RollbackCuts<D>(w0: World<D>, w: World<D>, e: Event<D>)
    requires Inv(w) && Tracks(w0, w) && Has(w.session.stack, Name(w0.last + 1)) && e.Rollback?
    ensures Has(Apply(w, e).session.stack, Name(w0.last + 1)) <==> !Cuts(w0, w, e)
  {
    if 0 < e.t < |w.txs| && !w.txs[e.t].closed {
      NestedRollbackCuts(w0, w, e);
    } else {
      hide Name, Tracks, RollbackTo;
    }
  }

  lemma {:induction false} CutStep<D>(w0: World<D>, w: World<D>, e: Event<D>)
    requires Inv(w) && Tracks(w0, w)
    ensures Has(Apply(w, e).session.stack, Name(w0.last + 1))
      <==> Has(w.session.stack, Name(w0.last + 1)) && !Cuts(w0, w, e)
  {
    if !Has(w.session.stack, Name(w0.last + 1)) {
      StackAfter(w, e);
      Gone(w0, w, e);
    } else if e.Commit? {
      CommitCuts(w0, w, e);
    } else if e.Rollback? {
      RollbackCuts(w0, w, e);
    } else if e.Begin? {
      BeginCuts(w0, w, e);
    } else {
      hide Name, Tracks, Find;
    }
  }

  lemma {:induction false} BeginCuts<D>(w0: World<D>, w: World<D>, e: Event<D>)
    requires w.last > w0.last && e.Begin?
    ensures Has(Apply(w, e).session.stack, Name(w0.last + 1)) <==> Has(w.session.stack, Name(w0.last + 1))
  {
    NameInjective(w.last + 1, w0.last + 1);
    FindPush(w.session.stack, Mark(Name(w.last + 1), w.session.data), Name(w0.last + 1));
    hide Name, Find;
  }

  lemma {:induction false} Gone<D>(w0: World<D>, w: World<D>, e: Event<D>)
    requires Inv(w) && Tracks(w0, w) && !Has(w.session.stack, Name(w0.last + 1))
    ensures !Has(Apply(w, e).session.stack, Name(w0.last + 1))
  {
    hide *;
    TracksTx(w0, w);
    StackAfter(w, e);
    var v := Apply(w, e);
    NameInjective(w.last + 1, w0.last + 1);
    FindPush(w.session.stack, Mark(Name(w.last + 1), w.session.data), Name(w0.last + 1));
    FindCut(w, Name(w0.last + 1), if Begins(w, e) then 0 else |v.session.stack|);
    HasIs(w.session.stack, Name(w0.last + 1));
    HasIs(v.session.stack, Name(w0.last + 1));
  }

  lemma HasIs<D>(stack: seq<Mark<D>>, name: string)
    ensures Has(stack, name) == (Find(stack, name) >= 0)
  {}

  /** The savepoint of a nested Tx is on the stack if and only if no event since its Begin ended
      the session, finished or rolled back an enclosing Tx, or finished the Tx itself. */
  lemma {:induction false} Live<D>(data: D, last: nat, run: seq<Event<D>>, k: nat, n: nat)
    requires k < n <= |run| && Begins(WorldAt(data, last, run, k), run[k])
    ensures var w0 := WorldAt(data, last, run, k);
      Has(WorldAt(data, last, run, n).session.stack, Name(w0.last + 1))
      <==> (forall j | k < j < n :: !Cuts(w0, WorldAt(data, last, run, j), run[j]))
  {
    hide *;
    var w0 := WorldAt(data, last, run, k);
    Reachable(data, last, run, n - 1);
    LastEvent(data, last, run, n);
    if n == k + 1 {
      TrackStart(w0, run[k]);
      HasIs(WorldAt(data, last, run, n).session.stack, Name(w0.last + 1));
    } else {
      Live(data, last, run, k, n - 1);
      Tracked(data, last, run, k, n - 1);
      CutStep(w0, WorldAt(data, last, run, n - 1), run[n - 1]);
    }
  }

  lemma {:induction false} LiveIsOpen<D>(w0: World<D>, w: World<D>)
    requires Inv(w) && Tracks(w0, w) && Has(w.session.stack, Name(w0.last + 1))
    ensures w.session.outcome.Pending? && !w.txs[|w0.txs|].closed
  {
    var i := Find(w.session.stack, Name(w0.last + 1));
    assert Owned(w, i);
    var t: nat :| Owns(w, t, i);
    hide Find, Name;
  }

  lemma NestedName<D>(w0: World<D>, w: World<D>)
    requires Inv(w) && Tracks(w0, w)
    ensures |w0.txs| < |w.txs| && w.txs[|w0.txs|].savepoint == Name(w0.last + 1) && Name(w0.last + 1) != ""
  {}

  /** Unless the database fails, a nested Tx can be committed, and can be rolled back, if and
      only if nothing cut its savepoint since its Begin. */
  lemma {:induction false} Finishable<D>(data: D, last: nat, run: seq<Event<D>>, k: nat, n: nat)
    requires k < n <= |run| && Begins(WorldAt(data, last, run, k), run[k])
    ensures var w0, w := WorldAt(data, last, run, k), WorldAt(data, last, run, n);
      && |w0.txs| < |w.txs|
      && var tx := w.txs[|w0.txs|];
      && var uncut := forall j | k < j < n :: !Cuts(w0, WorldAt(data, last, run, j), run[j]);
      && (CommitSpec(w.session, tx.savepoint, tx.closed, false).error.None? <==> uncut)
      && (RollbackSpec(w.session, tx.savepoint, tx.closed, false, false).error.None? <==> uncut)
  {
    var w0, w := WorldAt(data, last, run, k), WorldAt(data, last, run, n);
    hide *;
    Reachable(data, last, run, n);
    Tracked(data, last, run, k, n);
    Live(data, last, run, k, n);
    NestedName(w0, w);
    if Has(w.session.stack, Name(w0.last + 1)) { LiveIsOpen(w0, w); }
    Undisturbed(w, |w0.txs|);
  }

  lemma Undisturbed<D>(w: World<D>, t: nat)
    requires Inv(w) && t < |w.txs| && w.txs[t].savepoint != ""
    requires Has(w.session.stack, w.txs[t].savepoint) ==> w.session.outcome.Pending? && !w.txs[t].closed
    ensures var tx := w.txs[t];
      && (CommitSpec(w.session, tx.savepoint, tx.closed, false).error.None? <==> Has(w.session.stack, tx.savepoint))
      && (RollbackSpec(w.session, tx.savepoint, tx.closed, false, false).error.None? <==>
          Has(w.session.stack, tx.savepoint))
  {}

  // ----- the end of the session -----

  lemma EndedStays<D>(w: World<D>, e: Event<D>)
    requires Inv(w) && !w.session.outcome.Pending?
    ensures Apply(w, e).session == w.session
  {}

  lemma {:induction false} Ended<D>(data: D, last: nat, run: seq<Event<D>>, m: nat, n: nat)
    requires m <= n <= |run| && !WorldAt(data, last, run, m).session.outcome.Pending?
    ensures WorldAt(data, last, run, n).session == WorldAt(data, last, run, m).session
  {
    hide *;
    if m < n {
      Ended(data, last, run, m, n - 1);
      Reachable(data, last, run, n - 1);
      LastEvent(data, last, run, n);
      EndedStays(WorldAt(data, last, run, n - 1), run[n - 1]);
    }
  }

  predicate RootWaits<D>(w: World<D>) { w.txs != [] && (w.session.outcome.Pending? ==> !w.txs[0].closed) }

  lemma RootStep<D>(w: World<D>, e: Event<D>)
    requires Inv(w) && RootWaits(w)
    ensures RootWaits(Apply(w, e))
  {}

  lemma RootStart<D>(data: D, last: nat, run: seq<Event<D>>)
    ensures RootWaits(WorldAt(data, last, run, 0))
  {}

  lemma {:induction false} RootOpen<D>(data: D, last: nat, run: seq<Event<D>>, n: nat)
    requires n <= |run|
    ensures RootWaits(WorldAt(data, last, run, n))
  {
    hide *;
    if n == 0 {
      RootStart(data, last, run);
    } else {
      RootOpen(data, last, run, n - 1);
      Reachable(data, last, run, n - 1);
      LastEvent(data, last, run, n);
      RootStep(WorldAt(data, last, run, n - 1), run[n - 1]);
    }
  }

  predicate EndsRoot<D>(e: Event<D>) {
    (e.Commit? && e.t == 0 && !e.fault) || (e.Rollback? && e.t == 0 && !e.fault)
  }

  lemma RootEnds<D>(w: World<D>, e: Event<D>)
    requires Inv(w) && RootWaits(w) && w.session.outcome.Pending? && EndsRoot(e)
    ensures Apply(w, e).session == End(w.session, if e.Commit? then Committed(w.session.data) else Undone)
  {}

  lemma AllRefused<D>(s: Session<D>, savepoint: string, closed: bool, d: D)
    requires !s.outcome.Pending?
    ensures CommitSpec(s, savepoint, closed, false).error.Some?
    ensures RollbackSpec(s, savepoint, closed, false, false).error.Some?
    ensures ExecSpec(s, closed, d, false).1.Some?
  {}

  /** The root's first Commit or Rollback ends everything: what it committed or undid stands in
      every later state, and no Tx can write, commit or roll back any more. */
  lemma {:induction false} RootIsFinal<D>(data: D, last: nat, run: seq<Event<D>>, n: nat, m: nat, t: nat, d: D)
    requires n < m <= |run| && WorldAt(data, last, run, n).session.outcome.Pending? && EndsRoot(run[n])
    ensures var w, v := WorldAt(data, last, run, n), WorldAt(data, last, run, m);
      && v.session == End(w.session, if run[n].Commit? then Committed(w.session.data) else Undone)
      && (t < |v.txs| ==>
          && CommitSpec(v.session, v.txs[t].savepoint, v.txs[t].closed, false).error.Some?
          && RollbackSpec(v.session, v.txs[t].savepoint, v.txs[t].closed, false, false).error.Some?
          && ExecSpec(v.session, v.txs[t].closed, d, false).1.Some?)
  {
    hide WorldAt, Apply, Inv, RootWaits, EndsRoot, CommitSpec, RollbackSpec, ExecSpec;
    RootOpen(data, last, run, n);
    Reachable(data, last, run, n);
    LastEvent(data, last, run, n + 1);
    RootEnds(WorldAt(data, last, run, n), run[n]);
    Ended(data, last, run, n + 1, m);
    var v := WorldAt(data, last, run, m);
    if t < |v.txs| { AllRefused(v.session, v.txs[t].savepoint, v.txs[t].closed, d); }
  }

  // ----- a Tx left open under a finished one -----

  /** Begin, Begin on that Tx, Commit the first, then write and roll back on the second. */
  function OrphanRun<D>(d: D): seq<Event<D>> {
    [Begin(0, false), Begin(1, false), Commit(1, false), Exec(2, d, false), Rollback(2, false, false)]
  }

  /** A Tx whose parent was committed before it is still open: its writes go to the enclosing
      transaction, and it can no longer undo them. */
  lemma {:induction false} OrphanWrites<D>(data: D, last: nat, d: D)
    ensures var run := OrphanRun(d);
      var w := WorldAt(data, last, run, 5);
      && w.session == Session(d, [], Pending)
      && w.txs == [TxState("", false), TxState(Name(last + 1), true), TxState(Name(last + 2), false)]
  {
    var run := OrphanRun(d);
    var p, c := Name(last + 1), Name(last + 2);
    NameInjective(last + 1, last + 2);
    assert p != "" && c != "";
    var a, b := Mark(p, data), Mark(c, data);
    var two := [TxState("", false), TxState(p, false), TxState(c, false)];
    var w2 := World(Session(data, [a, b], Pending), last + 2, two);
    var w3 := World(Session(data, [], Pending), last + 2, [TxState("", false), TxState(p, true), TxState(c, false)]);
    TwoBegun(data, last, run, w2);
    CommitParent(w2, w3);
    hide Name, WorldAt;
    var w4 := w3.(session := Session(d, [], Pending));
    assert Apply(w3, run[3]) == w4;
    assert Apply(w4, run[4]) == w4;
    hide *;
    LastEvent(data, last, run, 3);
    LastEvent(data, last, run, 4);
    LastEvent(data, last, run, 5);
  }

  lemma {:induction false} TwoBegun<D>(data: D, last: nat, run: seq<Event<D>>, w: World<D>)
    requires |run| > 1 && run[0] == Begin(0, false) && run[1] == Begin(1, false)
    requires var p, c := Name(last + 1), Name(last + 2);
      && w.session == Session(data, [Mark(p, data), Mark(c, data)], Pending) && w.last == last + 2
      && w.txs == [TxState("", false), TxState(p, false), TxState(c, false)]
    ensures WorldAt(data, last, run, 2) == w
  {
    hide Name;
    LastEvent(data, last, run, 1);
    LastEvent(data, last, run, 2);
  }

  lemma CommitParent<D>(w: World<D>, v: World<D>)
    requires |w.session.stack| == 2 && w.session.outcome.Pending? && |w.txs| == 3
    requires w.txs[1] == TxState(w.session.stack[0].name, false) && w.txs[1].savepoint != ""
    requires w.session.stack[0].name != w.session.stack[1].name
    requires v == w.(session := w.session.(stack := []), txs := w.txs[1 := TxState(w.txs[1].savepoint, true)])
    ensures Apply(w, Commit(1, false)) == v
  {}
}
