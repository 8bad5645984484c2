/** Whole runs of the store: what its hits mean, what eviction removes, and how stores of
    different capacity compare. */
module StoreRuns {
  import opened Wrappers
  import opened Varints
  import opened Store

  datatype Op =
    | Get(key: string)
    | Set(key: string, val: Bytes, ttl: int)
    | Delete(key: string)
    | DeletePrefix(prefix: string)
    | Flush

  /** An operation at a time. */
  datatype Event = Event(op: Op, now: int)

  datatype Config = Config(cap: int, ttl: int)

  /** One operation on the recency sequence: the new sequence, and the hit of a Get. */
  function Step(s: seq<Entry>, ev: Event, c: Config): (seq<Entry>, Option<Bytes>) {
    match ev.op
    case Get(key) => GetSeq(s, key, ev.now)
    case Set(key, val, ttl) => (SetSeq(s, Entry(key, val, Expiry(ttl, c.ttl, ev.now)), c.cap), None)
    case Delete(key) => (Remove(s, key), None)
    case DeletePrefix(prefix) => (RemovePrefix(s, prefix), None)
    case Flush => ([], None)
  }

  /** The store after the first `n` events of a trace. */
  function After(evs: seq<Event>, n: nat, c: Config): seq<Entry>
    requires n <= |evs|
  {
    if n == 0 then [] else Step(After(evs, n - 1, c), evs[n - 1], c).0
  }

  function Hit(evs: seq<Event>, n: nat, c: Config): Option<Bytes>
    requires n < |evs|
  {
    Step(After(evs, n, c), evs[n], c).1
  }

  // ----- one Get -----

  /** A Get hits if and only if there is a live entry, which then stands in front; behind a miss the
      key is gone; and the other entries stay as they are. */
  lemma {:induction false} GetIs(s: seq<Entry>, key: string, now: int)
    requires Distinct(s)
    ensures var (t, r) := GetSeq(s, key, now);
      && (r.Some? <==> exists e :: e in s && e.key == key && (e.expires.Some? ==> now <= e.expires.value))
      && (r.Some? ==> t != [] && t[0] in s && t[0].key == key && t[0].val == r.value)
      && (r.None? ==> key !in Keys(t))
      && Remove(t, key) == Remove(s, key)
  {
    FindOut(s, key);
    forall i | 0 <= i < |s| && s[i].key == key ensures Find(s, key) == Some(s[i]) { FindIn(s, key, i); }
    RemoveMembers(s, key);
    FindOut(Remove(s, key), key);
    RemoveAbsent(Remove(s, key), key);
    hide Find, Distinct;
  }

  // ----- membership in the operations' results -----

  lemma {:induction false} RemoveMembers(s: seq<Entry>, key: string)
    ensures forall e <- Remove(s, key) :: e in s && e.key != key
    ensures forall e <- s :: e.key != key ==> e in Remove(s, key)
  {
    if s != [] {
      RemoveMembers(s[1..], key);
      var rest := Remove(s[1..], key);
      assert Remove(s, key) == if s[0].key == key then rest else [s[0]] + rest;
      assert forall e <- s :: e == s[0] || e in s[1..];
    }
  }

  lemma {:induction false} RemovePrefixMembers(s: seq<Entry>, prefix: string)
    ensures forall e <- RemovePrefix(s, prefix) :: e in s && !(prefix <= e.key)
    ensures forall e <- s :: !(prefix <= e.key) ==> e in RemovePrefix(s, prefix)
  {
    if s != [] {
      RemovePrefixMembers(s[1..], prefix);
      var rest := RemovePrefix(s[1..], prefix);
      assert RemovePrefix(s, prefix) == if prefix <= s[0].key then rest else [s[0]] + rest;
      assert forall e <- s :: e == s[0] || e in s[1..];
    }
  }

  // ----- restricting a sequence to some keys -----

  function Only(s: seq<Entry>, ks: set<string>): seq<Entry> {
    if s == [] then [] else (if s[0].key in ks then [s[0]] else []) + Only(s[1..], ks)
  }

  lemma {:induction false} OnlyRemove(s: seq<Entry>, ks: set<string>, key: string)
    ensures Only(Remove(s, key), ks) == Remove(Only(s, ks), key)
  {
    if s != [] {
      OnlyRemove(s[1..], ks, key);
      HeadOnly(s[0], Remove(s[1..], key), ks);
      HeadRemove(s[0], Only(s[1..], ks), key);
      var rest := Remove(s[1..], key);
      assert Remove(s, key) == if s[0].key == key then rest else [s[0]] + rest;
      assert Only(s, ks) == if s[0].key in ks then [s[0]] + Only(s[1..], ks) else Only(s[1..], ks);
    }
  }

  lemma HeadOnly(e: Entry, s: seq<Entry>, ks: set<string>)
    ensures Only([e] + s, ks) == if e.key in ks then [e] + Only(s, ks) else Only(s, ks)
  {}

  lemma HeadRemove(e: Entry, s: seq<Entry>, key: string)
    ensures Remove([e] + s, key) == if e.key == key then Remove(s, key) else [e] + Remove(s, key)
  {}

  lemma HeadRemovePrefix(e: Entry, s: seq<Entry>, prefix: string)
    ensures RemovePrefix([e] + s, prefix) ==
      if prefix <= e.key then RemovePrefix(s, prefix) else [e] + RemovePrefix(s, prefix)
  {}

  lemma {:induction false} OnlyRemovePrefix(s: seq<Entry>, ks: set<string>, prefix: string)
    ensures Only(RemovePrefix(s, prefix), ks) == RemovePrefix(Only(s, ks), prefix)
    ensures |RemovePrefix(s, prefix)| - |RemovePrefix(Only(s, ks), prefix)| <= |s| - |Only(s, ks)|
  {
    if s != [] {
      OnlyRemovePrefix(s[1..], ks, prefix);
      HeadOnly(s[0], RemovePrefix(s[1..], prefix), ks);
      HeadRemovePrefix(s[0], Only(s[1..], ks), prefix);
      var rest := RemovePrefix(s[1..], prefix);
      assert RemovePrefix(s, prefix) == if prefix <= s[0].key then rest else [s[0]] + rest;
      assert Only(s, ks) == if s[0].key in ks then [s[0]] + Only(s[1..], ks) else Only(s[1..], ks);
    }
  }

  lemma {:induction false} OnlyFind(s: seq<Entry>, ks: set<string>, key: string)
    ensures Find(Only(s, ks), key) == if key in ks then Find(s, key) else None
  {
    if s != [] {
      OnlyFind(s[1..], ks, key);
      var rest := Only(s[1..], ks);
      if s[0].key in ks { assert ([s[0]] + rest)[1..] == rest; } else { assert Only(s, ks) == rest; }
    }
  }

  /** Keys that do not occur make no difference. */
  lemma {:induction false} OnlyAgrees(s: seq<Entry>, ks: set<string>, ls: set<string>)
    requires forall e <- s :: e.key in ks <==> e.key in ls
    ensures Only(s, ks) == Only(s, ls)
  {
    if s != [] { OnlyAgrees(s[1..], ks, ls); }
  }

  lemma {:induction false} OnlySnoc(s: seq<Entry>, e: Entry, ks: set<string>)
    ensures Only(s + [e], ks) == Only(s, ks) + if e.key in ks then [e] else []
  {
    if s == [] {
      HeadOnly(e, [], ks);
      assert [] + [e] == [e] && [e] + [] == [e];
    } else {
      var tail, last := s[1..], if e.key in ks then [e] else [];
      OnlySnoc(tail, e, ks);
      assert s + [e] == [s[0]] + (tail + [e]) && s == [s[0]] + tail;
      HeadOnly(s[0], tail + [e], ks);
      HeadOnly(s[0], tail, ks);
      hide Only;
      assert [s[0]] + (Only(tail, ks) + last) == ([s[0]] + Only(tail, ks)) + last;
    }
  }

  lemma {:induction false} OnlyMembers(s: seq<Entry>, ks: set<string>)
    ensures forall e <- Only(s, ks) :: e in s && e.key in ks
    ensures |Only(s, ks)| <= |s|
  {
    if s != [] { OnlyMembers(s[1..], ks); }
  }

  /** Dropping the back of a restricted sequence drops one key from the restriction. */
  lemma {:induction false} OnlyInit(s: seq<Entry>, ks: set<string>)
    requires Distinct(s) && Only(s, ks) != []
    ensures var r := Only(s, ks); r[..|r| - 1] == Only(s, ks - {r[|r| - 1].key})
    decreases |s|
  {
    var t, e, r := s[..|s| - 1], s[|s| - 1], Only(s, ks);
    assert s == t + [e];
    OnlySnoc(t, e, ks);
    OnlySnoc(t, e, ks - {r[|r| - 1].key});
    if e.key in ks {
      OnlyAgrees(t, ks, ks - {e.key});
    } else {
      OnlyInit(t, ks);
    }
  }

  // ----- lengths -----

  lemma DistinctTail(s: seq<Entry>)
    requires Distinct(s) && s != []
    ensures Distinct(s[1..]) && forall e <- s[1..] :: e.key != s[0].key
  {}

  lemma DistinctFront(e: Entry, s: seq<Entry>)
    requires Distinct(s) && forall x <- s :: x.key != e.key
    ensures Distinct([e] + s)
  {}

  lemma {:induction false} RemoveLength(s: seq<Entry>, key: string)
    requires Distinct(s)
    ensures |Remove(s, key)| == if Find(s, key).Some? then |s| - 1 else |s|
    ensures Distinct(Remove(s, key))
  {
    if s != [] {
      DistinctTail(s);
      hide Distinct;
      RemoveLength(s[1..], key);
      RemoveMembers(s[1..], key);
      var rest := Remove(s[1..], key);
      FindOut(s[1..], key);
      if s[0].key == key {
        RemoveAbsent(s[1..], key);
        assert Remove(s, key) == rest;
      } else {
        DistinctFront(s[0], rest);
        assert Remove(s, key) == [s[0]] + rest;
      }
    }
  }

  // ----- inclusion: a larger store hits whenever a smaller one does -----

  /** The small sequence is the large one restricted to some keys, in the same order. */
  ghost predicate Within(small: seq<Entry>, large: seq<Entry>, ks: set<string>) {
    Distinct(large) && small == Only(large, ks)
  }

  /** `d` is at least as roomy as `c`. */
  predicate Roomier(c: Config, d: Config) {
    c.ttl == d.ttl && (d.cap > 0 ==> 0 < c.cap <= d.cap)
  }

  /** The large store holds at most the difference of the capacities in extra entries. */
  predicate Sizes(small: seq<Entry>, large: seq<Entry>, c: Config, d: Config) {
    d.cap > 0 ==> |small| <= c.cap && |large| <= d.cap && |large| - |small| <= d.cap - c.cap
  }

  lemma {:induction false} WithinRemove(small: seq<Entry>, large: seq<Entry>, ks: set<string>, key: string)
    requires Within(small, large, ks)
    ensures Within(Remove(small, key), Remove(large, key), ks)
    ensures Distinct(small)
    ensures Find(small, key) == if key in ks then Find(large, key) else None
    ensures Find(small, key).None? ==> Remove(small, key) == small
    ensures |Remove(small, key)| == |small| - if Find(small, key).Some? then 1 else 0
    ensures |Remove(large, key)| == |large| - if Find(large, key).Some? then 1 else 0
  {
    OnlyRemove(large, ks, key);
    RemoveLength(large, key);
    OnlyDistinct(large, ks);
    RemoveLength(small, key);
    OnlyFind(large, ks, key);
    if Find(small, key).None? { RemoveAbsent(small, key); }
  }

  lemma {:induction false} OnlyDistinct(s: seq<Entry>, ks: set<string>)
    requires Distinct(s)
    ensures Distinct(Only(s, ks))
  {
    if s != [] {
      OnlyDistinct(s[1..], ks);
      OnlyMembers(s[1..], ks);
      assert forall e <- s[1..] :: e.key != s[0].key;
    }
  }

  /** Putting an entry with a new key in front of both, or only of the large one. */
  lemma {:induction false} WithinFront(small: seq<Entry>, large: seq<Entry>, ks: set<string>, e: Entry)
    requires Within(small, large, ks) && e.key !in Keys(large)
    ensures Within([e] + small, [e] + large, ks + {e.key})
    ensures e.key !in ks ==> Within(small, [e] + large, ks)
  {
    HeadOnly(e, large, ks + {e.key});
    HeadOnly(e, large, ks);
    OnlyAgrees(large, ks, ks + {e.key});
  }

  lemma RemovedKey(s: seq<Entry>, key: string)
    ensures key !in Keys(Remove(s, key))
  {}

  lemma {:induction false} GetIncluded(small: seq<Entry>, large: seq<Entry>, ks: set<string>, key: string, now: int)
      returns (ls: set<string>)
    requires Within(small, large, ks)
    ensures var (s, hit), (l, more) := GetSeq(small, key, now), GetSeq(large, key, now);
      && Within(s, l, ls) && (hit.Some? ==> more == hit)
      && |l| - |s| <= |large| - |small| && |s| <= |small| && |l| <= |large|
  {
    WithinRemove(small, large, ks, key);
    FindOut(large, key);
    RemovedKey(large, key);
    var f := Find(large, key);
    ls := ks;
    if f.Some? && !Expired(f.value, now) {
      WithinFront(Remove(small, key), Remove(large, key), ks, f.value);
      if key in ks { ls := ks + {key}; }
    }
  }

  /** What Set puts its entry in front of. */
  function Base(s: seq<Entry>, key: string, cap: int): seq<Entry> {
    if Find(s, key).Some? then Remove(s, key)
    else if cap > 0 && |s| >= cap && s != [] then s[..|s| - 1]
    else s
  }

  lemma {:induction false} InitIncluded(small: seq<Entry>, large: seq<Entry>, ks: set<string>)
    requires Within(small, large, ks) && large != []
    ensures large[|large| - 1].key in ks ==> small != []
    ensures var t, e := large[..|large| - 1], large[|large| - 1];
      Within(if e.key in ks then small[..|small| - 1] else small, t, ks)
  {
    var t, e := large[..|large| - 1], large[|large| - 1];
    assert large == t + [e];
    OnlySnoc(t, e, ks);
  }

  lemma {:induction false} EvictSmall(small: seq<Entry>, large: seq<Entry>, ks: set<string>)
    requires Within(small, large, ks) && small != []
    ensures Within(small[..|small| - 1], large, ks - {small[|small| - 1].key})
  { OnlyInit(large, ks); }

  lemma {:induction false} BaseIncluded(small: seq<Entry>, large: seq<Entry>, ks: set<string>, key: string, c: Config,
                                        d: Config)
      returns (ls: set<string>)
    requires Within(small, large, ks) && Sizes(small, large, c, d) && Roomier(c, d)
    ensures var s, l := Base(small, key, c.cap), Base(large, key, d.cap);
      Within(s, l, ls) && key !in Keys(l) &&
      (d.cap > 0 ==> |s| < c.cap && |l| < d.cap && |l| - |s| <= d.cap - c.cap)
  {
    WithinRemove(small, large, ks, key);
    FindOut(large, key);
    RemovedKey(large, key);
    ls := ks;
    if Find(small, key).Some? {
    } else if Find(large, key).Some? {
      if c.cap > 0 && |small| >= c.cap && small != [] {
        ls := ks - {small[|small| - 1].key};
        EvictSmall(small, Remove(large, key), ks);
      }
    } else {
      var evictLarge := d.cap > 0 && |large| >= d.cap && large != [];
      var front := if evictLarge then large[..|large| - 1] else large;
      if evictLarge { InitIncluded(small, large, ks); }
      if c.cap > 0 && |small| >= c.cap && small != [] && !(evictLarge && large[|large| - 1].key in ks) {
        ls := ks - {small[|small| - 1].key};
        EvictSmall(small, front, ks);
      }
    }
  }

  lemma {:induction false} SetIncluded(small: seq<Entry>, large: seq<Entry>, ks: set<string>, e: Entry, c: Config,
                                       d: Config)
      returns (ls: set<string>)
    requires Within(small, large, ks) && Sizes(small, large, c, d) && Roomier(c, d)
    ensures var s, l := SetSeq(small, e, c.cap), SetSeq(large, e, d.cap);
      Within(s, l, ls) && Sizes(s, l, c, d)
  {
    ls := BaseIncluded(small, large, ks, e.key, c, d);
    WithinFront(Base(small, e.key, c.cap), Base(large, e.key, d.cap), ls, e);
    ls := ls + {e.key};
  }

  lemma {:induction false} StepIncluded(small: seq<Entry>, large: seq<Entry>, ks: set<string>, ev: Event, c: Config,
                                        d: Config)
      returns (ls: set<string>)
    requires Within(small, large, ks) && Sizes(small, large, c, d) && Roomier(c, d)
    ensures var (s, hit), (l, more) := Step(small, ev, c), Step(large, ev, d);
      Within(s, l, ls) && Sizes(s, l, c, d) && (hit.Some? ==> more == hit)
  {
    ls := ks;
    match ev.op {
      case Get(key) => ls := GetIncluded(small, large, ks, key, ev.now);
      case Set(key, val, ttl) => ls := SetIncluded(small, large, ks, Entry(key, val, Expiry(ttl, c.ttl, ev.now)), c, d);
      case Delete(key) => WithinRemove(small, large, ks, key);
      case DeletePrefix(prefix) => PrefixIncluded(small, large, ks, prefix);
      case Flush =>
    }
  }

  lemma {:induction false} PrefixIncluded(small: seq<Entry>, large: seq<Entry>, ks: set<string>, prefix: string)
    requires Within(small, large, ks)
    ensures var s, l := RemovePrefix(small, prefix), RemovePrefix(large, prefix);
      Within(s, l, ks) && |l| - |s| <= |large| - |small| && |s| <= |small| && |l| <= |large|
  {
    OnlyRemovePrefix(large, ks, prefix);
    PrefixDistinct(large, prefix);
    PrefixDistinct(small, prefix);
  }

  lemma {:induction false} PrefixDistinct(s: seq<Entry>, prefix: string)
    ensures Distinct(s) ==> Distinct(RemovePrefix(s, prefix))
    ensures |RemovePrefix(s, prefix)| <= |s|
  {
    if s != [] {
      PrefixDistinct(s[1..], prefix);
      RemovePrefixMembers(s[1..], prefix);
      var rest := RemovePrefix(s[1..], prefix);
      assert RemovePrefix(s, prefix) == if prefix <= s[0].key then rest else [s[0]] + rest;
      if Distinct(s) { assert forall e <- s[1..] :: e.key != s[0].key; }
    }
  }

  /** LRU inclusion: at every point of every trace, the small store's recency list is the large
      one's restricted to some keys, with at most the difference of the capacities missing, and
      a hit in the small store is a hit with the same value in the large one. */
  lemma {:induction false} Inclusion(evs: seq<Event>, n: nat, c: Config, d: Config) returns (ks: set<string>)
    requires n <= |evs| && Roomier(c, d)
    ensures Within(After(evs, n, c), After(evs, n, d), ks)
    ensures Sizes(After(evs, n, c), After(evs, n, d), c, d)
    ensures n < |evs| && Hit(evs, n, c).Some? ==> Hit(evs, n, d) == Hit(evs, n, c)
  {
    ks := {};
    if n > 0 {
      ks := Inclusion(evs, n - 1, c, d);
      ks := StepIncluded(After(evs, n - 1, c), After(evs, n - 1, d), ks, evs[n - 1], c, d);
    }
    if n < |evs| { var _ := StepIncluded(After(evs, n, c), After(evs, n, d), ks, evs[n], c, d); }
  }

  // ----- what a hit returns -----

  /** The last Set of every key that no later delete, prefix delete or flush has undone. */
  function Latest(evs: seq<Event>, n: nat, c: Config): map<string, Entry>
    requires n <= |evs|
  {
    if n == 0 then map[] else
      var m, ev := Latest(evs, n - 1, c), evs[n - 1];
      match ev.op
      case Get(_) => m
      case Set(key, val, ttl) => m[key := Entry(key, val, Expiry(ttl, c.ttl, ev.now))]
      case Delete(key) => m - {key}
      case DeletePrefix(prefix) => map k | k in m && !(prefix <= k) :: m[k]
      case Flush => map[]
  }

  lemma {:induction false} SetMembers(s: seq<Entry>, e: Entry, cap: int)
    requires Distinct(s)
    ensures Distinct(SetSeq(s, e, cap))
    ensures forall x <- SetSeq(s, e, cap) :: x == e || (x in s && x.key != e.key)
    ensures cap > 0 && |s| <= cap ==> |SetSeq(s, e, cap)| <= cap
  {
    RemoveMembers(s, e.key);
    RemoveLength(s, e.key);
    FindOut(s, e.key);
  }

  /** The entries of a store are always latest Sets, at most one per key and never more than
      the capacity. */
  lemma {:induction false} HoldsLatest(evs: seq<Event>, n: nat, c: Config)
    requires n <= |evs|
    ensures var s := After(evs, n, c);
      && Distinct(s) && (c.cap > 0 ==> |s| <= c.cap)
      && forall e <- s :: e.key in Latest(evs, n, c) && Latest(evs, n, c)[e.key] == e
  {
    if n > 0 {
      HoldsLatest(evs, n - 1, c);
      var s, ev := After(evs, n - 1, c), evs[n - 1];
      match ev.op {
        case Get(key) => GetMembers(s, key, ev.now);
        case Set(key, val, ttl) => SetMembers(s, Entry(key, val, Expiry(ttl, c.ttl, ev.now)), c.cap);
        case Delete(key) =>
          RemoveMembers(s, key);
          RemoveLength(s, key);
        case DeletePrefix(prefix) =>
          RemovePrefixMembers(s, prefix);
          PrefixDistinct(s, prefix);
        case Flush =>
      }
    }
  }

  lemma {:induction false} GetMembers(s: seq<Entry>, key: string, now: int)
    requires Distinct(s)
    ensures var t := GetSeq(s, key, now).0;
      Distinct(t) && |t| <= |s| && forall e <- t :: e in s
  {
    RemoveMembers(s, key);
    RemoveLength(s, key);
    FindOut(s, key);
  }

  /** Every hit returns the latest Set of its key, and that Set has not expired. */
  lemma {:induction false} HitIsLatest(evs: seq<Event>, n: nat, c: Config)
    requires n < |evs| && Hit(evs, n, c).Some?
    ensures var key, m := evs[n].op.key, Latest(evs, n, c);
      evs[n].op.Get? && key in m && Hit(evs, n, c) == Some(m[key].val) && !Expired(m[key], evs[n].now)
  {
    HoldsLatest(evs, n, c);
    FindOut(After(evs, n, c), evs[n].op.key);
  }

  ghost predicate TimesAscend(evs: seq<Event>) {
    forall i, j | 0 <= i <= j < |evs| :: evs[i].now <= evs[j].now
  }

  /** Without a capacity, a latest Set is missing only when it has expired. */
  lemma {:induction false} MissingExpired(evs: seq<Event>, n: nat, c: Config, key: string, now: int)
    requires n <= |evs| && c.cap <= 0 && TimesAscend(evs)
    requires forall i | 0 <= i < n :: evs[i].now <= now
    requires key in Latest(evs, n, c)
    ensures Find(After(evs, n, c), key).None? ==> Expired(Latest(evs, n, c)[key], now)
  {
    HoldsLatest(evs, n - 1, c);
    var s, ev := After(evs, n - 1, c), evs[n - 1];
    StepFinds(s, ev, c, key);
    if key in Latest(evs, n - 1, c) {
      MissingExpired(evs, n - 1, c, key, now);
      FindOut(s, key);
    }
  }

  /** What one operation of an unlimited store does to the entry of a key. */
  lemma {:induction false} StepFinds(s: seq<Entry>, ev: Event, c: Config, key: string)
    requires Distinct(s) && c.cap <= 0
    ensures var f, g := Find(s, key), Find(Step(s, ev, c).0, key);
      match ev.op
      case Get(k) => g == f || (k == key && f.Some? && Expired(f.value, ev.now))
      case Set(k, val, ttl) => g == if k == key then Some(Entry(k, val, Expiry(ttl, c.ttl, ev.now))) else f
      case Delete(k) => k != key ==> g == f
      case DeletePrefix(p) => !(p <= key) ==> g == f
      case Flush => true
  {
    match ev.op {
      case Get(k) =>
        FindOut(s, k);
        FindAfterRemove(s, k, key);
      case Set(k, val, ttl) => FindAfterRemove(s, k, key);
      case Delete(k) => FindAfterRemove(s, k, key);
      case DeletePrefix(p) => FindAfterPrefix(s, p, key);
      case Flush =>
    }
  }

  lemma {:induction false} FindAfterRemove(s: seq<Entry>, k: string, key: string)
    ensures k != key ==> Find(Remove(s, k), key) == Find(s, key)
    ensures forall e: Entry ::
      Find([e] + Remove(s, k), key) == if e.key == key then Some(e) else Find(Remove(s, k), key)
    ensures forall e: Entry :: Find([e] + s, key) == if e.key == key then Some(e) else Find(s, key)
  {
    forall e: Entry ensures ([e] + Remove(s, k))[1..] == Remove(s, k) && ([e] + s)[1..] == s {}
    if s != [] {
      FindAfterRemove(s[1..], k, key);
      var rest := Remove(s[1..], k);
      assert Remove(s, k) == if s[0].key == k then rest else [s[0]] + rest;
    }
  }

  lemma {:induction false} FindAfterPrefix(s: seq<Entry>, p: string, key: string)
    ensures !(p <= key) ==> Find(RemovePrefix(s, p), key) == Find(s, key)
  {
    if s != [] {
      FindAfterPrefix(s[1..], p, key);
      var rest := RemovePrefix(s[1..], p);
      assert RemovePrefix(s, p) == if p <= s[0].key then rest else [s[0]] + rest;
      if !(p <= s[0].key) { assert ([s[0]] + rest)[1..] == rest; }
    }
  }

  /** An unlimited store under an ascending clock answers a Get exactly from the latest Set. */
  lemma {:induction false} UnlimitedExact(evs: seq<Event>, n: nat, c: Config)
    requires n < |evs| && c.cap <= 0 && TimesAscend(evs) && evs[n].op.Get?
    ensures var key, m := evs[n].op.key, Latest(evs, n, c);
      Hit(evs, n, c) == if key in m && !Expired(m[key], evs[n].now) then Some(m[key].val) else None
  {
    var key := evs[n].op.key;
    if Hit(evs, n, c).Some? {
      HitIsLatest(evs, n, c);
    } else if key in Latest(evs, n, c) {
      MissingExpired(evs, n, c, key, evs[n].now);
      HoldsLatest(evs, n, c);
      FindOut(After(evs, n, c), key);
    }
  }

  // ----- how long a Set lasts -----

  /** An operation that leaves a key alone; a Get may drop an expired entry only. */
  predicate LeavesAlone(op: Op, key: string) {
    match op
    case Get(_) => true
    case Set(k, _, _) => k != key
    case Delete(k) => k != key
    case DeletePrefix(prefix) => !(prefix <= key)
    case Flush => false
  }

  lemma {:induction false} LatestLasts(evs: seq<Event>, m: nat, n: nat, c: Config, key: string)
    requires m <= n <= |evs| && forall k | m <= k < n :: LeavesAlone(evs[k].op, key)
    ensures key in Latest(evs, m, c) ==> key in Latest(evs, n, c) && Latest(evs, n, c)[key] == Latest(evs, m, c)[key]
  {
    if m < n { LatestLasts(evs, m, n - 1, c, key); }
  }

  /** Without a capacity and under an ascending clock, a Get behind a Set that nothing undid hits
      exactly as long as the call's own TTL says when that is positive, else as long as the
      store's default says when that is positive, and else for ever. */
  lemma {:induction false} SetLasts(evs: seq<Event>, m: nat, n: nat, c: Config)
    requires m < n < |evs| && c.cap <= 0 && TimesAscend(evs)
    requires evs[m].op.Set? && evs[n].op == Get(evs[m].op.key)
    requires forall k | m < k < n :: LeavesAlone(evs[k].op, evs[m].op.key)
    ensures var put, age := evs[m].op, evs[n].now - evs[m].now;
      Hit(evs, n, c) ==
        if put.ttl > 0 then (if age <= put.ttl then Some(put.val) else None)
        else if c.ttl > 0 then (if age <= c.ttl then Some(put.val) else None)
        else Some(put.val)
  {
    LatestLasts(evs, m + 1, n, c, evs[m].op.key);
    UnlimitedExact(evs, n, c);
    hide Hit, TimesAscend;
  }

  /** With a capacity, or a clock that is set back, a hit may be missing but none comes too late. */
  lemma {:induction false} NeverLate(evs: seq<Event>, m: nat, n: nat, c: Config)
    requires m < n < |evs| && evs[m].op.Set? && evs[n].op == Get(evs[m].op.key) && Hit(evs, n, c).Some?
    requires forall k | m < k < n :: LeavesAlone(evs[k].op, evs[m].op.key)
    ensures var put, age := evs[m].op, evs[n].now - evs[m].now;
      && Hit(evs, n, c) == Some(put.val)
      && (put.ttl > 0 ==> age <= put.ttl) && (put.ttl <= 0 && c.ttl > 0 ==> age <= c.ttl)
  {
    LatestLasts(evs, m + 1, n, c, evs[m].op.key);
    HitIsLatest(evs, n, c);
    hide Hit;
  }

  // ----- what eviction removes -----

  /** When each key was last used: by a Set, or by a Get that hit. */
  function Used(evs: seq<Event>, n: nat, c: Config): map<string, nat>
    requires n <= |evs|
  {
    if n == 0 then map[] else
      var m, op := Used(evs, n - 1, c), evs[n - 1].op;
      if op.Set? || (op.Get? && Hit(evs, n - 1, c).Some?) then m[op.key := n - 1] else m
  }

  /** Earlier in the list means used later. */
  ghost predicate ByUse(s: seq<Entry>, used: map<string, nat>) {
    && (forall e <- s :: e.key in used)
    && forall i, j | 0 <= i < j < |s| :: used[s[i].key] > used[s[j].key]
  }

  lemma ByUseFront(s: seq<Entry>, used: map<string, nat>, e: Entry, now: nat)
    requires ByUse(s, used) && e.key !in Keys(s) && forall k <- used :: used[k] < now
    ensures ByUse([e] + s, used[e.key := now])
  {}

  lemma {:induction false} ByUseRemove(s: seq<Entry>, used: map<string, nat>, key: string)
    requires ByUse(s, used)
    ensures ByUse(Remove(s, key), used)
  {
    if s != [] {
      ByUseRemove(s[1..], used, key);
      RemoveMembers(s[1..], key);
      ByUseCons(s, used, Remove(s[1..], key));
      var rest := Remove(s[1..], key);
      assert Remove(s, key) == if s[0].key == key then rest else [s[0]] + rest;
    }
  }

  lemma {:induction false} ByUsePrefix(s: seq<Entry>, used: map<string, nat>, prefix: string)
    requires ByUse(s, used)
    ensures ByUse(RemovePrefix(s, prefix), used)
  {
    if s != [] {
      ByUsePrefix(s[1..], used, prefix);
      RemovePrefixMembers(s[1..], prefix);
      ByUseCons(s, used, RemovePrefix(s[1..], prefix));
      var rest := RemovePrefix(s[1..], prefix);
      assert RemovePrefix(s, prefix) == if prefix <= s[0].key then rest else [s[0]] + rest;
    }
  }

  lemma {:induction false} ByUseCons(s: seq<Entry>, used: map<string, nat>, rest: seq<Entry>)
    requires s != [] && ByUse(s, used) && ByUse(rest, used)
    requires forall e <- rest :: e in s[1..]
    ensures ByUse([s[0]] + rest, used)
  {
    forall e | e in rest ensures used[e.key] < used[s[0].key] {
      var k :| 0 <= k < |s| - 1 && s[1..][k] == e;
      assert s[k + 1] == e;
    }
  }

  lemma {:induction false} OrderedByUse(evs: seq<Event>, n: nat, c: Config)
    requires n <= |evs|
    ensures ByUse(After(evs, n, c), Used(evs, n, c))
    ensures forall k <- Used(evs, n, c) :: Used(evs, n, c)[k] < n
  {
    if n > 0 {
      OrderedByUse(evs, n - 1, c);
      HoldsLatest(evs, n - 1, c);
      StepByUse(After(evs, n - 1, c), Used(evs, n - 1, c), evs[n - 1], c, n - 1);
    }
  }

  lemma {:induction false} StepByUse(s: seq<Entry>, used: map<string, nat>, ev: Event, c: Config, now: nat)
    requires Distinct(s) && ByUse(s, used) && forall k <- used :: used[k] < now
    ensures var (t, hit) := Step(s, ev, c);
      ByUse(t, if ev.op.Set? || (ev.op.Get? && hit.Some?) then used[ev.op.key := now] else used)
  {
    match ev.op {
      case Get(key) =>
        FindOut(s, key);
        ByUseRemove(s, used, key);
        RemovedKey(s, key);
        if Find(s, key).Some? { ByUseFront(Remove(s, key), used, Find(s, key).value, now); }
      case Set(key, val, ttl) =>
        FindOut(s, key);
        ByUseRemove(s, used, key);
        RemovedKey(s, key);
        ByUseFront(Base(s, key, c.cap), used, Entry(key, val, Expiry(ttl, c.ttl, ev.now)), now);
      case Delete(key) => ByUseRemove(s, used, key);
      case DeletePrefix(prefix) => ByUsePrefix(s, used, prefix);
      case Flush =>
    }
  }

  lemma DistinctLast(s: seq<Entry>)
    requires Distinct(s) && s != []
    ensures Keys(s[..|s| - 1]) == Keys(s) - {s[|s| - 1].key}
  {}

  lemma KeysFront(s: seq<Entry>, e: Entry)
    ensures Keys([e] + s) == Keys(s) + {e.key}
  {}

  lemma {:induction false} KeysRemoved(s: seq<Entry>, key: string)
    ensures Keys(Remove(s, key)) == Keys(s) - {key}
  {
    RemoveMembers(s, key);
    hide Remove;
  }

  lemma {:induction false} KeysAfterSet(s: seq<Entry>, e: Entry, cap: int) returns (victim: Option<string>)
    requires Distinct(s)
    ensures Keys(SetSeq(s, e, cap)) == Keys(s) - (if victim.Some? then {victim.value} else {}) + {e.key}
    ensures victim.Some? <==> e.key !in Keys(s) && 0 < cap <= |s|
    ensures victim.Some? ==> victim.value == s[|s| - 1].key
  {
    FindOut(s, e.key);
    hide Find, Remove, Keys, Distinct;
    KeysRemoved(s, e.key);
    KeysFront(Remove(s, e.key), e);
    KeysFront(s, e);
    victim := None;
    if e.key !in Keys(s) && 0 < cap <= |s| {
      victim := Some(s[|s| - 1].key);
      DistinctLast(s);
      KeysFront(s[..|s| - 1], e);
    }
  }

  lemma LastLeast(s: seq<Entry>, used: map<string, nat>, k: string)
    requires ByUse(s, used) && k in Keys(s) && k != s[|s| - 1].key
    ensures used[s[|s| - 1].key] < used[k]
  {}

  /** A Set evicts only when a new key meets a full store; then exactly one entry goes, the one
      whose last use is longest ago. */
  lemma {:induction false} EvictsLeastRecent(evs: seq<Event>, n: nat, c: Config) returns (victim: Option<string>)
    requires n < |evs| && evs[n].op.Set?
    ensures var s, key := After(evs, n, c), evs[n].op.key;
      var kept := Keys(s) - if victim.Some? then {victim.value} else {};
      && Keys(After(evs, n + 1, c)) == kept + {key}
      && (victim.Some? <==> key !in Keys(s) && 0 < c.cap <= |s|)
      && (victim.Some? ==> victim.value in Used(evs, n, c) && forall k <- kept ::
            k in Used(evs, n, c) && Used(evs, n, c)[victim.value] < Used(evs, n, c)[k])
  {
    var s, op := After(evs, n, c), evs[n].op;
    OrderedByUse(evs, n, c);
    HoldsLatest(evs, n, c);
    victim := KeysAfterSet(s, Entry(op.key, op.val, Expiry(op.ttl, c.ttl, evs[n].now)), c.cap);
    hide SetSeq;
    if victim.Some? {
      forall k | k in Keys(s) && k != victim.value ensures Used(evs, n, c)[victim.value] < Used(evs, n, c)[k] {
        LastLeast(s, Used(evs, n, c), k);
      }
    }
  }
}
