/** The in-memory cache store: lazy expiry and least-recently-used eviction over a map and a
    recency list, refining operations on a plain sequence of entries. */
module Store {
  import opened Wrappers
  import opened Varints

  /** A stored entry; `expires` None means never. */
  datatype Entry = Entry(key: string, val: Bytes, expires: Option<int>)

  // ----- the recency sequence, most recently used first -----

  function Keys(s: seq<Entry>): set<string> { set e <- s :: e.key }

  ghost predicate Distinct(s: seq<Entry>) {
    forall i, j | 0 <= i < j < |s| :: s[i].key != s[j].key
  }

  function Expired(e: Entry, now: int): bool { e.expires.Some? && now > e.expires.value }

  function Find(s: seq<Entry>, key: string): Option<Entry> {
    if s == [] then None else if s[0].key == key then Some(s[0]) else Find(s[1..], key)
  }

  function Remove(s: seq<Entry>, key: string): seq<Entry> {
    if s == [] then [] else (if s[0].key == key then [] else [s[0]]) + Remove(s[1..], key)
  }

  function RemovePrefix(s: seq<Entry>, prefix: string): seq<Entry> {
    if s == [] then [] else (if prefix <= s[0].key then [] else [s[0]]) + RemovePrefix(s[1..], prefix)
  }

  function Expiry(ttl: int, defaultTTL: int, now: int): Option<int> {
    if ttl > 0 then Some(now + ttl) else if defaultTTL > 0 then Some(now + defaultTTL) else None
  }

  /** Get: an expired entry is dropped, a live one moves to the front. */
  function GetSeq(s: seq<Entry>, key: string, now: int): (seq<Entry>, Option<Bytes>) {
    match Find(s, key)
    case None => (s, None)
    case Some(e) => if Expired(e, now) then (Remove(s, key), None) else ([e] + Remove(s, key), Some(e.val))
  }

  /** Set: a new key at capacity first evicts the entry at the back. */
  function SetSeq(s: seq<Entry>, e: Entry, cap: int): seq<Entry> {
    if Find(s, e.key).Some? then [e] + Remove(s, e.key)
    else if cap > 0 && |s| >= cap && s != [] then [e] + s[..|s| - 1]
    else [e] + s
  }

  // ----- the store object -----

  /** A list element; its value and expiry are overwritten in place. */
  class MemEntry {
    const key: string
    var val: Bytes
    var expires: Option<int>

    constructor (key: string, val: Bytes, expires: Option<int>)
      ensures this.key == key && this.val == val && this.expires == expires
    {
      this.key, this.val, this.expires := key, val, expires;
    }

    ghost function View(): Entry
      reads this
    {
      Entry(key, val, expires)
    }
  }

  /** The entries of a list as values. */
  ghost function Views(l: seq<MemEntry>): (s: seq<Entry>)
    reads l
    ensures |s| == |l| && forall i | 0 <= i < |l| :: s[i] == l[i].View()
  {
    if l == [] then [] else [l[0].View()] + Views(l[1..])
  }

  ghost predicate KeysDistinct(l: seq<MemEntry>) {
    forall i, j | 0 <= i < j < |l| :: l[i].key != l[j].key
  }

  /** list.Remove */
  function Without(l: seq<MemEntry>, el: MemEntry): seq<MemEntry> {
    if l == [] then [] else (if l[0] == el then [] else [l[0]]) + Without(l[1..], el)
  }

  /** The map and the list are in bijection, and no key occurs twice. */
  ghost predicate Linked(items: map<string, MemEntry>, lru: seq<MemEntry>) {
    && KeysDistinct(lru)
    && (forall el <- lru :: el.key in items && items[el.key] == el)
    && (forall k <- items :: items[k] in lru && items[k].key == k)
  }

  class MemoryStore {
    const cap: int
    const ttl: int
    var items: map<string, MemEntry>
    var lru: seq<MemEntry>

    ghost predicate Valid()
      reads this
    {
      Linked(items, lru)
    }

    ghost function Contents(): seq<Entry>
      reads this, lru
    {
      Views(lru)
    }

    constructor (capacity: int, defaultTTL: int)
      ensures Valid() && Contents() == [] && cap == capacity && ttl == defaultTTL
    {
      cap, ttl, items, lru := capacity, defaultTTL, map[], [];
    }

    method Get(key: string, now: int) returns (r: Option<Bytes>)
      requires Valid()
      modifies this
      ensures Valid()
      ensures (Contents(), r) == GetSeq(old(Contents()), key, now)
    {
      FindIs(items, lru, key);
      if key !in items { return None; }
      var el := items[key];
      if el.expires.Some? && now > el.expires.value {
        RemoveElement(el);
        return None;
      }
      MoveToFront(el);
      r := Some(el.val);
    }

    method RemoveElement(el: MemEntry)
      requires Valid() && el in lru
      modifies this
      ensures Valid() && Contents() == Remove(old(Contents()), el.key)
      ensures lru == Without(old(lru), el) && items == old(items) - {el.key}
    {
      WithoutIs(items, lru, el);
      lru := Without(lru, el);
      items := items - {el.key};
    }

    method MoveToFront(el: MemEntry)
      requires Valid() && el in lru
      modifies this
      ensures Valid() && Contents() == [el.View()] + Remove(old(Contents()), el.key)
    {
      hide Linked, Views, Without, Remove, KeysDistinct;
      MovedIs(items, lru, el);
      lru := [el] + Without(lru, el);
    }

    method Set(key: string, value: Bytes, ttl: int, now: int)
      requires Valid()
      modifies this, lru
      ensures Valid()
      ensures Contents() == SetSeq(old(Contents()), Entry(key, value, Expiry(ttl, this.ttl, now)), cap)
    {
      var expires := Expiry(ttl, this.ttl, now);
      SetIs(Entry(key, value, expires));
      hide *;
      if key in items {
        SetExisting(items[key], value, expires);
      } else {
        SetNew(key, value, expires);
      }
    }

    lemma {:induction false} SetIs(e: Entry)
      requires Valid()
      ensures e.key in items ==> items[e.key] in lru && items[e.key].key == e.key
      ensures var s := Contents();
        SetSeq(s, e, cap) == [e] +
          if e.key in items then Remove(s, e.key) else if cap > 0 && |s| >= cap && s != [] then s[..|s| - 1] else s
    {
      FindIs(items, lru, e.key);
      hide Linked, Views, Find, Remove;
    }

    method SetExisting(el: MemEntry, value: Bytes, expires: Option<int>)
      requires Valid() && el in lru
      modifies this, el
      ensures Valid()
      ensures Contents() == [Entry(el.key, value, expires)] + Remove(old(Contents()), el.key)
    {
      hide Linked, Views, Remove;
      Overwrite(el, value, expires);
      MoveToFront(el);
    }

    method SetNew(key: string, value: Bytes, expires: Option<int>)
      requires Valid() && key !in items
      modifies this
      ensures Valid()
      ensures Contents() == [Entry(key, value, expires)] +
        (if cap > 0 && |old(Contents())| >= cap && old(Contents()) != []
         then old(Contents())[..|old(Contents())| - 1] else old(Contents()))
    {
      assert |Contents()| == |lru|;
      hide Linked, Views;
      if cap > 0 && |lru| >= cap {
        Evict();
      }
      PushFront(key, value, expires);
    }

    /** The new value and expiry, in place; no other entry changes. */
    method Overwrite(el: MemEntry, value: Bytes, expires: Option<int>)
      requires Valid() && el in lru
      modifies el
      ensures Valid() && el.View() == Entry(el.key, value, expires)
      ensures Remove(Contents(), el.key) == Remove(old(Contents()), el.key)
    {
      OthersDiffer(items, lru, el);
      ghost var before := Contents();
      el.val := value;
      el.expires := expires;
      hide Linked, Views, Remove;
      RestKept(before, Contents(), el.key);
    }

    method Evict()
      requires Valid()
      modifies this
      ensures Valid()
      ensures Contents() == if old(Contents()) == [] then [] else old(Contents())[..|old(Contents())| - 1]
      ensures forall k <- items :: k in old(items)
    {
      if |lru| > 0 {
        RemoveLast(Contents());
        RemoveElement(lru[|lru| - 1]);
      }
    }

    method PushFront(key: string, value: Bytes, expires: Option<int>)
      requires Valid() && key !in items
      modifies this
      ensures Valid() && Contents() == [Entry(key, value, expires)] + old(Contents())
    {
      hide Linked, Views, KeysDistinct;
      var e := new MemEntry(key, value, expires);
      LinkedFront(items, lru, e);
      ViewsFront(e, lru);
      lru := [e] + lru;
      items := items[key := e];
    }

    method Delete(key: string)
      requires Valid()
      modifies this
      ensures Valid() && Contents() == Remove(old(Contents()), key)
    {
      FindIs(items, lru, key);
      if key in items {
        RemoveElement(items[key]);
      } else {
        RemoveAbsent(Contents(), key);
      }
    }

    /** The loop over the map's keys, in whatever order. */
    method DeletePrefix(prefix: string)
      requires Valid()
      modifies this
      ensures Valid() && Contents() == RemovePrefix(old(Contents()), prefix)
    {
      var keys := items.Keys;
      while keys != {}
        invariant Valid() && RemovePrefix(Contents(), prefix) == RemovePrefix(old(Contents()), prefix)
        invariant forall k <- items :: prefix <= k ==> k in keys
      {
        var k :| k in keys;
        if k in items && prefix <= k {
          RemovePrefixAfter(Contents(), prefix, k);
          RemoveElement(items[k]);
        }
        keys := keys - {k};
      }
      NoPrefixLeft(items, lru, prefix);
    }

    method Flush()
      modifies this
      ensures Valid() && Contents() == []
    {
      items := map[];
      lru := [];
    }
  }

  /** What is left when a key is removed does not depend on the entry of that key. */
  lemma {:induction false} RestKept(s: seq<Entry>, t: seq<Entry>, key: string)
    requires |s| == |t| && forall i | 0 <= i < |s| :: s[i] == t[i] || s[i].key == key == t[i].key
    ensures Remove(s, key) == Remove(t, key)
  {
    if s != [] { RestKept(s[1..], t[1..], key); }
  }

  lemma {:induction false} FindIn(s: seq<Entry>, key: string, i: nat)
    requires Distinct(s) && i < |s| && s[i].key == key
    ensures Find(s, key) == Some(s[i])
  {
    if i > 0 { FindIn(s[1..], key, i - 1); }
  }

  lemma {:induction false} FindOut(s: seq<Entry>, key: string)
    ensures Find(s, key) == None <==> key !in Keys(s)
    ensures Find(s, key).Some? ==> Find(s, key).value in s && Find(s, key).value.key == key
  {
    if s != [] { FindOut(s[1..], key); }
  }

  lemma {:induction false} FindIs(items: map<string, MemEntry>, lru: seq<MemEntry>, key: string)
    requires Linked(items, lru)
    ensures Find(Views(lru), key) == if key in items then Some(items[key].View()) else None
  {
    if key in items {
      var i :| 0 <= i < |lru| && lru[i] == items[key];
      FindIn(Views(lru), key, i);
    } else {
      FindOut(Views(lru), key);
    }
  }

  lemma {:induction false} WithoutViews(l: seq<MemEntry>, el: MemEntry)
    requires forall x <- l :: x.key == el.key ==> x == el
    ensures Views(Without(l, el)) == Remove(Views(l), el.key)
  {
    if l != [] {
      WithoutViews(l[1..], el);
      assert Views(l)[1..] == Views(l[1..]);
      if l[0] != el { ViewsFront(l[0], Without(l[1..], el)); } else { assert Without(l, el) == Without(l[1..], el); }
    }
  }

  lemma {:induction false} WithoutMembers(l: seq<MemEntry>, el: MemEntry)
    ensures forall x <- Without(l, el) :: x in l && x != el
    ensures forall x <- l :: x != el ==> x in Without(l, el)
  {
    if l != [] {
      WithoutMembers(l[1..], el);
      var rest := Without(l[1..], el);
      assert Without(l, el) == if l[0] == el then rest else [l[0]] + rest;
      assert forall x <- l :: x == l[0] || x in l[1..];
    }
  }

  lemma {:induction false} WithoutDistinct(l: seq<MemEntry>, el: MemEntry)
    requires KeysDistinct(l)
    ensures KeysDistinct(Without(l, el))
  {
    if l != [] {
      WithoutDistinct(l[1..], el);
      WithoutMembers(l[1..], el);
      TailKeys(l);
      var rest := Without(l[1..], el);
      forall x | x in rest ensures x.key != l[0].key { assert x in l[1..]; }
      if l[0] == el { assert Without(l, el) == rest; } else { FrontDistinct(rest, l[0]); }
    }
  }

  lemma TailKeys(l: seq<MemEntry>)
    requires KeysDistinct(l) && l != []
    ensures KeysDistinct(l[1..]) && forall x <- l[1..] :: x.key != l[0].key
  {}

  lemma FrontDistinct(l: seq<MemEntry>, e: MemEntry)
    requires KeysDistinct(l) && forall x <- l :: x.key != e.key
    ensures KeysDistinct([e] + l)
  {}

  lemma OthersDiffer(items: map<string, MemEntry>, lru: seq<MemEntry>, el: MemEntry)
    requires Linked(items, lru) && el in lru
    ensures forall x <- lru :: x.key == el.key ==> x == el
  {}

  lemma {:induction false} WithoutIs(items: map<string, MemEntry>, lru: seq<MemEntry>, el: MemEntry)
    requires Linked(items, lru) && el in lru
    ensures Linked(items - {el.key}, Without(lru, el))
    ensures Linked(items, [el] + Without(lru, el))
    ensures Views(Without(lru, el)) == Remove(Views(lru), el.key)
    ensures el !in Without(lru, el)
  {
    OthersDiffer(items, lru, el);
    assert KeysDistinct(lru);
    hide KeysDistinct, Without, Views, Remove, Linked;
    WithoutViews(lru, el);
    WithoutMembers(lru, el);
    WithoutDistinct(lru, el);
    forall x | x in Without(lru, el) ensures x.key != el.key {}
    FrontDistinct(Without(lru, el), el);
    MovedLinked(items, lru, el, Without(lru, el));
  }

  lemma MovedLinked(items: map<string, MemEntry>, lru: seq<MemEntry>, el: MemEntry, rest: seq<MemEntry>)
    requires Linked(items, lru) && el in lru
    requires KeysDistinct(rest) && KeysDistinct([el] + rest)
    requires forall x <- rest :: x in lru && x != el
    requires forall x <- lru :: x != el ==> x in rest
    ensures Linked(items - {el.key}, rest) && Linked(items, [el] + rest)
  {}

  lemma {:induction false} MovedIs(items: map<string, MemEntry>, lru: seq<MemEntry>, el: MemEntry)
    requires Linked(items, lru) && el in lru
    ensures Linked(items, [el] + Without(lru, el))
    ensures Views([el] + Without(lru, el)) == [el.View()] + Remove(Views(lru), el.key)
  {
    WithoutIs(items, lru, el);
    ViewsFront(el, Without(lru, el));
  }

  lemma ViewsFront(e: MemEntry, l: seq<MemEntry>)
    ensures Views([e] + l) == [e.View()] + Views(l)
  {}

  lemma LinkedFront(items: map<string, MemEntry>, lru: seq<MemEntry>, e: MemEntry)
    requires Linked(items, lru) && e.key !in items
    ensures Linked(items[e.key := e], [e] + lru)
  {}

  lemma {:induction false} RemoveAbsent(s: seq<Entry>, key: string)
    requires Find(s, key) == None
    ensures Remove(s, key) == s
  {
    if s != [] { RemoveAbsent(s[1..], key); }
  }

  lemma {:induction false} RemoveLast(s: seq<Entry>)
    requires Distinct(s) && s != []
    ensures Remove(s, s[|s| - 1].key) == s[..|s| - 1]
  {
    if |s| > 1 {
      RemoveLast(s[1..]);
      assert s[..|s| - 1] == [s[0]] + s[1..][..|s| - 2];
    }
  }

  lemma {:induction false} RemovePrefixAfter(s: seq<Entry>, prefix: string, key: string)
    requires prefix <= key
    ensures RemovePrefix(Remove(s, key), prefix) == RemovePrefix(s, prefix)
  {
    if s != [] {
      RemovePrefixAfter(s[1..], prefix, key);
      var rest := Remove(s[1..], key);
      if s[0].key != key { assert ([s[0]] + rest)[1..] == rest; } else { assert [] + rest == rest; }
    }
  }

  lemma {:induction false} RemovePrefixNone(s: seq<Entry>, prefix: string)
    requires forall e <- s :: !(prefix <= e.key)
    ensures RemovePrefix(s, prefix) == s
  {
    if s != [] { RemovePrefixNone(s[1..], prefix); }
  }

  lemma {:induction false} NoPrefixLeft(items: map<string, MemEntry>, lru: seq<MemEntry>, prefix: string)
    requires Linked(items, lru) && forall k <- items :: !(prefix <= k)
    ensures RemovePrefix(Views(lru), prefix) == Views(lru)
  { RemovePrefixNone(Views(lru), prefix); }
}
