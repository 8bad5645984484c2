/** The flow of Get and Select around the plugins: binding, the Before hooks, the query or a
    cached result, the scan, and the After hooks. */
module Ops {
  import opened Wrappers

  /** What happens during an operation, in order. */
  datatype Event = Before(i: nat) | Query | Scan | Close | After(i: nat)

  datatype OpError = BindError | HookError(i: nat) | QueryError | RowsError | CloseError

  /** One operation: which Before hooks fail, whether a plugin supplies rows, and what else fails. */
  datatype Script = Script(bind: bool, hooks: seq<bool>, supplied: bool, query: bool, scan: bool, close: bool)

  function FirstFailing(hooks: seq<bool>, i: nat): (r: Option<nat>)
    requires i <= |hooks|
    ensures r.Some? ==> i <= r.value < |hooks| && hooks[r.value]
    ensures forall k | i <= k < (if r.Some? then r.value else |hooks|) :: !hooks[k]
    decreases |hooks| - i
  {
    if i == |hooks| then None else if hooks[i] then Some(i) else FirstFailing(hooks, i + 1)
  }

  /** The Before hooks run in order, through the first that fails. */
  method RunBefore(hooks: seq<bool>) returns (log: seq<Event>, failed: Option<nat>)
    ensures failed == FirstFailing(hooks, 0)
    ensures |log| == (if failed.Some? then failed.value + 1 else |hooks|)
    ensures forall k | 0 <= k < |log| :: log[k] == Before(k)
  {
    log := [];
    for i := 0 to |hooks|
      invariant |log| == i && forall k | 0 <= k < i :: log[k] == Before(k)
      invariant FirstFailing(hooks, 0) == FirstFailing(hooks, i)
    {
      log := log + [Before(i)];
      if hooks[i] { return log, Some(i); }
    }
    failed := None;
  }

  /** All After hooks run, in reverse order, whatever any of them does. */
  method RunAfter(n: nat) returns (log: seq<Event>)
    ensures |log| == n && forall k | 0 <= k < n :: log[k] == After(n - 1 - k)
  {
    log := [];
    var i := n;
    while i > 0
      invariant 0 <= i <= n && |log| == n - i
      invariant forall k | 0 <= k < |log| :: log[k] == After(n - 1 - k)
    {
      i := i - 1;
      log := log + [After(i)];
    }
  }

  /** The error of an operation: that of the first stage that fails. */
  function Verdict(s: Script): Option<OpError> {
    if s.bind then Some(BindError)
    else if FirstFailing(s.hooks, 0).Some? then Some(HookError(FirstFailing(s.hooks, 0).value))
    else if !s.supplied && s.query then Some(QueryError)
    else if s.scan then Some(RowsError)
    else if s.close then Some(CloseError)
    else None
  }

  function Befores(s: Script): nat {
    if s.bind then 0
    else if FirstFailing(s.hooks, 0).Some? then FirstFailing(s.hooks, 0).value + 1
    else |s.hooks|
  }

  /** What stands between the hooks. */
  function Middle(s: Script): seq<Event> {
    if s.bind || FirstFailing(s.hooks, 0).Some? then []
    else if s.supplied then [Scan, Close]
    else if s.query then [Query]
    else [Query, Scan, Close]
  }

  function Total(s: Script): nat { Befores(s) + |Middle(s)| + |s.hooks| }

  /** The k-th event: first the Before hooks, then the middle, then every After hook in reverse. */
  function EventAt(s: Script, k: nat): Event
    requires k < Total(s)
  {
    var b, m := Befores(s), Middle(s);
    if k < b then Before(k) else if k < b + |m| then m[k - b] else After(Total(s) - 1 - k)
  }

  ghost predicate Ran(s: Script, log: seq<Event>) {
    |log| == Total(s) && forall k | 0 <= k < |log| :: log[k] == EventAt(s, k)
  }

  /** getOp and selectOp; `seen` is the error the After hooks see. */
  method Operate(s: Script) returns (log: seq<Event>, seen: Option<OpError>, error: Option<OpError>)
    ensures Ran(s, log) && error == Verdict(s) && seen == error
  {
    seen, log := None, [];
    if s.bind {
      seen := Some(BindError);
    } else {
      var failed: Option<nat>;
      log, failed := RunBefore(s.hooks);
      if failed.Some? {
        seen := Some(HookError(failed.value));
      } else {
        ghost var befores := log;
        if !s.supplied {
          log := log + [Query];
          if s.query { seen := Some(QueryError); }
        }
        if seen.None? {
          log := log + [Scan] + [Close];
          if s.scan { seen := Some(RowsError); } else if s.close { seen := Some(CloseError); }
        }
        assert log == befores + Middle(s);
      }
    }
    var afters := RunAfter(|s.hooks|);
    log := log + afters;
    error := seen;
  }

  // ----- what the plugins can rely on -----

  /** Every plugin's After hook runs exactly once, behind everything but the After hooks of later
      plugins, even when its Before hook did not run; one that did run is the i-th event, and no
      earlier one failed. */
  lemma {:induction false} AfterOnce(s: Script, log: seq<Event>, i: nat) returns (at: nat)
    requires Ran(s, log) && i < |s.hooks|
    ensures at < |log| && log[at] == After(i)
    ensures forall k | 0 <= k < |log| && k != at :: log[k] != After(i)
    ensures forall k | 0 <= k < |log| :: k < at <==> !(log[k].After? && log[k].i <= i)
    ensures forall k | 0 <= k < |log| && log[k] == Before(i) :: k == i < at && forall j | 0 <= j < i :: !s.hooks[j]
  {
    at := Total(s) - 1 - i;
    MiddlePlain(s);
    hide Befores, Middle, FirstFailing;
    forall k | 0 <= k < |log| && log[k] == Before(i) ensures k == i < at && forall j | 0 <= j < i :: !s.hooks[j] {
      BeforeThenAfter(s, log, i, k);
    }
  }

  lemma MiddlePlain(s: Script)
    ensures forall j | 0 <= j < |Middle(s)| :: !Middle(s)[j].Before? && !Middle(s)[j].After?
  {}

  /** A plugin's Before hook runs, in its turn, if and only if binding and all hooks before it went
      well. */
  lemma {:induction false} BeforeRuns(s: Script, log: seq<Event>, i: nat)
    requires Ran(s, log) && i < |s.hooks|
    ensures Before(i) in log <==> !s.bind && forall j | 0 <= j < i :: !s.hooks[j]
    ensures Before(i) in log ==> log[i] == Before(i)
  {
    MiddlePlain(s);
    var run := !s.bind && forall j | 0 <= j < i :: !s.hooks[j];
    assert run <==> i < Befores(s);
    hide Befores, Middle;
    if run { assert log[i] == EventAt(s, i); }
    if k :| 0 <= k < |log| && log[k] == Before(i) { assert EventAt(s, k) == Before(i); }
  }

  /** Hooks that ran before a failing one get their After hook too: After runs behind Before. */
  lemma {:induction false} BeforeThenAfter(s: Script, log: seq<Event>, i: nat, k: nat)
    requires Ran(s, log) && k < |log| && log[k] == Before(i)
    ensures k == i < |s.hooks| && Total(s) - 1 - i > k && log[Total(s) - 1 - i] == After(i)
    ensures forall j | 0 <= j < i :: !s.hooks[j]
  {
    MiddlePlain(s);
  }

  /** The database is asked if and only if binding and all Before hooks went well and no plugin
      supplied rows; rows are closed if and only if they were scanned, right behind the scan; and
      an operation without an error has scanned. */
  lemma {:induction false} QueriesAndCloses(s: Script, log: seq<Event>)
    requires Ran(s, log)
    ensures Query in log <==> !s.bind && FirstFailing(s.hooks, 0).None? && !s.supplied
    ensures Scan in log <==> Close in log
    ensures forall k | 0 <= k < |log| && log[k] == Scan :: k + 1 < |log| && log[k + 1] == Close
    ensures Verdict(s).None? ==> Scan in log
  {
    InMiddle(s, log, Query);
    InMiddle(s, log, Scan);
    InMiddle(s, log, Close);
    var b, m := Befores(s), Middle(s);
    forall k | 0 <= k < |log| && log[k] == Scan ensures k + 1 < |log| && log[k + 1] == Close {
      assert m[k - b] == Scan;
      assert log[k + 1] == EventAt(s, k + 1);
    }
  }

  lemma {:induction false} InMiddle(s: Script, log: seq<Event>, e: Event)
    requires Ran(s, log) && !e.Before? && !e.After?
    ensures e in log <==> e in Middle(s)
  {
    var b, m := Befores(s), Middle(s);
    hide Befores, Middle;
    if e in m {
      var j :| 0 <= j < |m| && m[j] == e;
      assert log[b + j] == EventAt(s, b + j);
    }
  }

  /** The error of an operation is that of its first stage that fails: binding, the Before hooks in
      order, the query unless rows were supplied, the scan, the close. */
  lemma VerdictIs(s: Script)
    ensures Verdict(s) == Some(BindError) <==> s.bind
    ensures forall i: nat :: Verdict(s) == Some(HookError(i)) <==>
      !s.bind && i < |s.hooks| && s.hooks[i] && forall k | 0 <= k < i :: !s.hooks[k]
    ensures Verdict(s) == Some(QueryError) <==>
      !s.bind && (forall k | 0 <= k < |s.hooks| :: !s.hooks[k]) && !s.supplied && s.query
    ensures Verdict(s) == Some(RowsError) <==>
      !s.bind && (forall k | 0 <= k < |s.hooks| :: !s.hooks[k]) && (s.supplied || !s.query) && s.scan
    ensures Verdict(s) == Some(CloseError) <==>
      !s.bind && (forall k | 0 <= k < |s.hooks| :: !s.hooks[k]) && (s.supplied || !s.query) && !s.scan && s.close
  {}
}
