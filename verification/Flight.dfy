/** The singleflight table: at most one flight per key, and a channel per flight that is closed
    when the flight ends. */
module Flight {

  // ----- the table as a value, with channels numbered in order of creation -----

  datatype Table = Table(calls: map<string, nat>, closed: set<nat>, next: nat) {

    /** acquire: the new table, the key's channel, and whether the caller became its leader. */
    function Acquire(key: string): (Table, nat, bool) {
      if key in calls then (this, calls[key], false)
      else (Table(calls[key := next], closed, next + 1), next, true)
    }

    /** done */
    function Done(key: string): Table {
      if key in calls then Table(calls - {key}, closed + {calls[key]}, next) else this
    }
  }

  const EMPTY := Table(map[], {}, 0)

  /** Channels in the table are open, were handed out, and belong to one key each. */
  ghost predicate Sound(t: Table) {
    && (forall k <- t.calls :: t.calls[k] !in t.closed && t.calls[k] < t.next)
    && (forall k, l | k in t.calls && l in t.calls && t.calls[k] == t.calls[l] :: k == l)
    && (forall c <- t.closed :: c < t.next)
  }

  lemma AcquireSound(t: Table, key: string)
    requires Sound(t)
    ensures var (u, ch, leader) := t.Acquire(key);
      && Sound(u) && key in u.calls && u.calls[key] == ch && u.closed == t.closed
      && (leader <==> key !in t.calls) && (leader ==> ch !in t.calls.Values)
  {}

  /** Done closes a channel that was still open, and only that one: no channel is closed twice. */
  lemma DoneSound(t: Table, key: string)
    requires Sound(t)
    ensures Sound(t.Done(key))
    ensures key in t.calls ==> t.calls[key] !in t.closed && t.Done(key).closed - t.closed == {t.calls[key]}
    ensures forall k | k in t.calls && k != key :: k in t.Done(key).calls && t.Done(key).calls[k] == t.calls[k]
  {}

  // ----- the table as the program keeps it -----

  class Channel {
    ghost const id: nat
    var closed: bool

    constructor (ghost id: nat)
      ensures this.id == id && !closed
    {
      this.id := id;
      closed := false;
    }
  }

  class Flights {
    var calls: map<string, Channel>
    ghost var made: seq<Channel>

    ghost predicate Valid()
      reads this, made
    {
      && (forall i | 0 <= i < |made| :: made[i].id == i)
      && (forall k <- calls :: calls[k] in made && !calls[k].closed)
      && (forall k, l | k in calls && l in calls && calls[k] == calls[l] :: k == l)
    }

    ghost function View(): Table
      reads this, made
    {
      Table(map k | k in calls :: calls[k].id, set i | 0 <= i < |made| && made[i].closed, |made|)
    }

    constructor ()
      ensures Valid() && View() == EMPTY
    {
      calls, made := map[], [];
    }

    /** Returns the channel to wait on, or null for the leader. */
    method Acquire(key: string) returns (wait: Channel?)
      requires Valid()
      modifies this
      ensures Valid()
      ensures var (t, ch, leader) := old(View()).Acquire(key);
        View() == t && (wait == null <==> leader) && (wait != null ==> wait in made && wait.id == ch)
      ensures wait == null ==> key in calls && fresh(calls[key])
    {
      if key in calls { return calls[key]; }
      ghost var before, were := View(), made;
      var c := new Channel(|made|);
      calls := calls[key := c];
      made := made + [c];
      assert View().calls == before.calls[key := before.next];
      assert View().closed == before.closed by {
        assert forall i | 0 <= i < |were| :: made[i] == were[i];
        hide Valid;
      }
      wait := null;
    }

    method Done(key: string)
      requires Valid()
      modifies this, if key in calls then {calls[key]} else {}
      ensures Valid() && View() == old(View()).Done(key) && made == old(made)
    {
      if key in calls {
        var c := calls[key];
        c.closed := true;
        calls := calls - {key};
      }
    }
  }
}
