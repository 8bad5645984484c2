/** Which cell of a row lands where, for maps and structs, and when a struct scanned without a
    recorder comes out as it does behind one. */
module Fields {
  import opened Wrappers
  import opened Varints
  import opened Codec
  import opened Scan

  type Conv<!V> = (nat, Cell) -> Result<V, ScanError>

  /** The last of the columns from `i` on that goes to `x`, or -1. */
  function LastFrom<X(==)>(cols: seq<Bytes>, to: Bytes -> Option<X>, x: X, i: nat): (j: int)
    requires i <= |cols|
    ensures j == -1 || (i <= j < |cols| && to(cols[j]) == Some(x))
    ensures forall k | i <= k < |cols| && k > j :: to(cols[k]) != Some(x)
    decreases |cols| - i
  {
    if i == |cols| then -1
    else
      var j := LastFrom(cols, to, x, i + 1);
      if j >= 0 then j else if to(cols[i]) == Some(x) then i else -1
  }

  /** `m` holds the new value for `x`, if there is one, or what `d` holds for it. */
  ghost predicate Holds<X, V>(m: map<X, V>, d: map<X, V>, x: X, value: Option<V>) {
    if value.Some? then x in m && m[x] == value.value
    else (x in m <==> x in d) && (x in d ==> m[x] == d[x])
  }

  // ----- maps -----

  /** Null, and what does not convert, becomes the zero value: a map never fails a scan. */
  function ValueOf<V(!new)>(conv: Cell -> Result<V, ScanError>, zero: V, c: Cell): V {
    if c.Null? || conv(c).Err? then zero else conv(c).value
  }

  function MapOf<K(!new, ==), V(!new)>(keyOf: Bytes -> K, conv: Cell -> Result<V, ScanError>, zero: V)
    : Shape<map<K, V>>
  {
    MapShape(true, (d: map<K, V>, col, c) => d[keyOf(col) := ValueOf(conv, zero, c)])
  }

  lemma {:induction false} EntriesHold<K(!new), V(!new)>(
      keyOf: Bytes -> K, conv: Cell -> Result<V, ScanError>, zero: V, cols: seq<Bytes>, row: Row, d: map<K, V>,
      i: nat, key: K)
    requires |row| == |cols| && i <= |cols|
    ensures var j := LastFrom(cols, c => Some(keyOf(c)), key, i);
      Holds(EntriesFrom(MapOf(keyOf, conv, zero), cols, row, d, i), d, key,
        if j >= 0 then Some(ValueOf(conv, zero, row[j])) else None)
    decreases |cols| - i
  {
    if i < |cols| {
      var next := d[keyOf(cols[i]) := ValueOf(conv, zero, row[i])];
      assert MapOf(keyOf, conv, zero).put(d, cols[i], row[i]) == next;
      EntriesHold(keyOf, conv, zero, cols, row, next, i + 1, key);
    }
  }

  /** A scanned map holds, for exactly the keys of the columns and those it held before, the converted
      cell of the last column with that key, or the zero value for a NULL and for a cell that does not
      convert. */
  lemma {:induction false} MapHoldsRow<K(!new), V(!new)>(
      keyOf: Bytes -> K, conv: Cell -> Result<V, ScanError>, zero: V, cols: seq<Bytes>, row: Row, strict: bool,
      d: map<K, V>, key: K)
    requires |row| == |cols|
    ensures var r := Convert(MapOf(keyOf, conv, zero), cols, row, strict, d);
      var j := LastFrom(cols, c => Some(keyOf(c)), key, 0);
      && r.Ok? && (j < 0 ==> Holds(r.value, d, key, None))
      && (j >= 0 ==> key in r.value)
      && (j >= 0 && row[j] != Null && conv(row[j]).Ok? ==> conv(row[j]) == Ok(r.value[key]))
      && (j >= 0 && (row[j] == Null || conv(row[j]).Err?) ==> r.value[key] == zero)
      && (key in r.value <==> key in d || exists k | 0 <= k < |cols| :: keyOf(cols[k]) == key)
  {
    EntriesHold(keyOf, conv, zero, cols, row, d, 0, key);
    var to: Bytes -> Option<K> := c => Some(keyOf(c));
    if k :| 0 <= k < |cols| && keyOf(cols[k]) == key {
      assert to(cols[k]) == Some(key);
    }
  }

  // ----- structs -----

  function Put<V(!new)>(conv: Conv<V>, d: map<nat, V>, idx: nat, c: Cell): Result<map<nat, V>, ScanError> {
    match conv(idx, c) case Err(e) => Err(e) case Ok(v) => Ok(d[idx := v])
  }

  function Putting<V(!new)>(conv: Conv<V>): Assign<map<nat, V>> {
    (d: map<nat, V>, idx: nat, c: Cell) => Put(conv, d, idx, c)
  }

  /** A struct as the values of its fields, by their index: `conv` is the library's conversion,
      `direct` the driver's own. */
  function StructOf<V(!new)>(find: Find, conv: Conv<V>, fast: nat -> bool, direct: Conv<V>): Shape<map<nat, V>> {
    StructShape(find, Putting(conv), fast, Putting(direct))
  }

  /** A struct shape that stores what `conv` makes of a cell. */
  ghost predicate Stores<V(!new)>(s: Shape<map<nat, V>>, conv: Conv<V>) { s.StructShape? && s.assign == Putting(conv) }

  /** Why a scan stops at a column, if it does. */
  function Trouble<V(!new)>(find: Find, conv: Conv<V>, strict: bool, col: Bytes, c: Cell): Option<ScanError> {
    match find(col)
    case None => if strict then Some(ColumnNotFound(col)) else None
    case Some(idx) => if conv(idx, c).Err? then Some(conv(idx, c).error) else None
  }

  /** The first column from `i` on at which it does, or -1. */
  function StopFrom<V(!new)>(find: Find, conv: Conv<V>, strict: bool, cols: seq<Bytes>, row: Row, i: nat): (j: int)
    requires |row| == |cols| && i <= |cols|
    ensures j == -1 || (i <= j < |cols| && Trouble(find, conv, strict, cols[j], row[j]).Some?)
    ensures forall k | i <= k < (if j >= 0 then j else |cols|) :: Trouble(find, conv, strict, cols[k], row[k]).None?
    decreases |cols| - i
  {
    if i == |cols| then -1
    else if Trouble(find, conv, strict, cols[i], row[i]).Some? then i
    else StopFrom(find, conv, strict, cols, row, i + 1)
  }

  function Converted<V(!new)>(conv: Conv<V>, row: Row, idx: nat, j: int): Option<V>
    requires 0 <= j < |row| ==> conv(idx, row[j]).Ok?
  {
    if 0 <= j < |row| then Some(conv(idx, row[j]).value) else None
  }

  lemma {:induction false} FieldsHold<V(!new)>(s: Shape<map<nat, V>>, conv: Conv<V>, cols: seq<Bytes>, row: Row,
                                               strict: bool, d: map<nat, V>, i: nat, idx: nat)
    requires Stores(s, conv) && |row| == |cols| && i <= |cols|
    ensures var r := FieldsFrom(s, cols, row, strict, d, i);
      var stop := StopFrom(s.find, conv, strict, cols, row, i);
      if stop >= 0 then Some(r) == Failed(Trouble(s.find, conv, strict, cols[stop], row[stop]))
      else
        var j := LastFrom(cols, s.find, idx, i);
        && r.Ok? && (j >= 0 ==> conv(idx, row[j]).Ok?)
        && Holds(r.value, d, idx, Converted(conv, row, idx, j))
    decreases |cols| - i
  {
    if i < |cols| {
      FieldsTurn(s, conv, cols, row, strict, d, i);
      hide FieldsFrom;
      if Trouble(s.find, conv, strict, cols[i], row[i]).None? {
        FieldsHold(s, conv, cols, row, strict, Next(s.find, conv, d, cols[i], row[i]), i + 1, idx);
      }
    }
  }

  function Next<V(!new)>(find: Find, conv: Conv<V>, d: map<nat, V>, col: Bytes, c: Cell): map<nat, V>
    requires find(col).Some? ==> conv(find(col).value, c).Ok?
  {
    if find(col).Some? then d[find(col).value := conv(find(col).value, c).value] else d
  }

  /** One column of a struct scan. */
  lemma {:induction false} FieldsTurn<V(!new)>(s: Shape<map<nat, V>>, conv: Conv<V>, cols: seq<Bytes>, row: Row,
                                               strict: bool, d: map<nat, V>, i: nat)
    requires Stores(s, conv) && |row| == |cols| && i < |cols|
    ensures var trouble := Trouble(s.find, conv, strict, cols[i], row[i]);
      FieldsFrom(s, cols, row, strict, d, i) ==
      if trouble.Some? then Err(trouble.value)
      else FieldsFrom(s, cols, row, strict, Next(s.find, conv, d, cols[i], row[i]), i + 1)
  {
    if s.find(cols[i]).Some? {
      assert s.assign(d, s.find(cols[i]).value, row[i]) == Put(conv, d, s.find(cols[i]).value, row[i]);
    }
  }

  function Failed<T>(e: Option<ScanError>): Option<Result<T, ScanError>> {
    if e.Some? then Some(Err(e.value)) else None
  }

  /** A struct scan behind a recorder fails at the first column that has no field, when strict, or
      whose cell does not convert, and only then; otherwise each field gets the converted cell of
      its last column, and the others keep what they held. */
  lemma {:induction false} StructHoldsRow<V(!new)>(s: Shape<map<nat, V>>, conv: Conv<V>, cols: seq<Bytes>, row: Row,
                                                   strict: bool, d: map<nat, V>, idx: nat)
    requires Stores(s, conv) && |row| == |cols|
    ensures var r := Convert(s, cols, row, strict, d);
      var stop := StopFrom(s.find, conv, strict, cols, row, 0);
      && (r.Err? <==> stop >= 0)
      && (r.Err? ==> Some(r.error) == Trouble(s.find, conv, strict, cols[stop], row[stop]))
      && (r.Ok? ==>
        var j := LastFrom(cols, s.find, idx, 0);
        (j >= 0 ==> conv(idx, row[j]).Ok?) && Holds(r.value, d, idx, Converted(conv, row, idx, j)))
  { FieldsHold(s, conv, cols, row, strict, d, 0, idx); }

  // ----- structs without a recorder -----

  /** The conversion a field gets: the driver's own for the fields it knows. */
  function Mixed<V(!new)>(fast: nat -> bool, conv: Conv<V>, direct: Conv<V>): Conv<V> {
    (idx: nat, c: Cell) => if fast(idx) then direct(idx, c) else conv(idx, c)
  }

  /** A struct scan without a recorder fails if and only if some column stops it, when each field
      gets its own conversion; otherwise each field holds what that makes of its last column. */
  lemma {:induction false} PlainHoldsRow<V(!new)>(find: Find, conv: Conv<V>, fast: nat -> bool, direct: Conv<V>,
                                                  cols: seq<Bytes>, row: Row, strict: bool, d: map<nat, V>, idx: nat)
    requires |row| == |cols|
    ensures var r := ConvertPlain(StructOf(find, conv, fast, direct), cols, row, strict, d);
      var mixed, j := Mixed(fast, conv, direct), LastFrom(cols, find, idx, 0);
      && (r.Err? <==> StopFrom(find, mixed, strict, cols, row, 0) >= 0)
      && (r.Ok? ==>
        (j >= 0 ==> mixed(idx, row[j]).Ok?) && Holds(r.value, d, idx, Converted(mixed, row, idx, j)))
  {
    var s, mixed := StructOf(find, conv, fast, direct), Mixed(fast, conv, direct);
    var quick, rest := Quick(s), Rest(s);
    StopsAgree(find, fast, conv, direct, cols, row, strict);
    if StopFrom(find, mixed, strict, cols, row, 0) < 0 { LastRuns(find, mixed, strict, cols, row, idx); }
    hide StopFrom, LastFrom, Trouble, FieldsFrom, UnknownFrom;
    FieldsHold(quick, direct, cols, row, false, d, 0, idx);
    var first := FieldsFrom(quick, cols, row, false, d, 0);
    if first.Ok? {
      FieldsHold(rest, conv, cols, row, false, first.value, 0, idx);
      LastOnly(cols, find, fast, idx, 0);
      LastOnly(cols, find, Slow(fast), idx, 0);
    }
  }

  /** What stops such a scan: in strict mode the first column without a field; else the first that the
      driver does not convert; else the first that the library does not. */
  lemma {:induction false} PlainStops<V(!new)>(find: Find, conv: Conv<V>, fast: nat -> bool, direct: Conv<V>,
                                               cols: seq<Bytes>, row: Row, strict: bool, d: map<nat, V>)
    requires |row| == |cols|
    ensures var r := ConvertPlain(StructOf(find, conv, fast, direct), cols, row, strict, d);
      if strict && exists k :: 0 <= k < |cols| && find(cols[k]).None? then r.Err? && FirstUnknown(cols, find, r.error)
      else if exists k :: 0 <= k < |cols| && Stuck(find, fast, direct, cols[k], row[k])
      then r.Err? && FirstStuck(find, fast, direct, cols, row, r.error)
      else r.Err? ==> FirstStuck(find, Slow(fast), conv, cols, row, r.error)
  {
    hide FieldsFrom, Stuck, FirstStuck, FirstUnknown;
    var s := StructOf(find, conv, fast, direct);
    UnknownFirst(cols, find);
    PartStops(Quick(s), find, fast, direct, cols, row, d);
    var first := FieldsFrom(Quick(s), cols, row, false, d, 0);
    if first.Ok? { PartStops(Rest(s), find, Slow(fast), conv, cols, row, first.value); }
  }

  lemma UnknownFirst(cols: seq<Bytes>, find: Find)
    ensures var j := UnknownFrom(cols, find, 0); j >= 0 ==> FirstUnknown(cols, find, ColumnNotFound(cols[j]))
  {}

  /** A scan of the fields of one kind stops at the first that `conv` refuses. */
  lemma {:induction false} PartStops<V(!new)>(s: Shape<map<nat, V>>, find: Find, pick: nat -> bool, conv: Conv<V>,
                                              cols: seq<Bytes>, row: Row, d: map<nat, V>)
    requires |row| == |cols| && Stores(s, conv) && s.find == Only(find, pick)
    ensures var r := FieldsFrom(s, cols, row, false, d, 0);
      && (r.Err? <==> exists k :: 0 <= k < |cols| && Stuck(find, pick, conv, cols[k], row[k]))
      && (r.Err? ==> FirstStuck(find, pick, conv, cols, row, r.error))
  {
    hide FieldsFrom, Stuck, FirstStuck, Only, LastFrom, Trouble;
    FieldsHold(s, conv, cols, row, false, d, 0, 0);
    StuckAt(find, pick, conv, cols, row);
  }

  /** A column of a field of the picked kind that `conv` refuses. */
  predicate Stuck<V(!new)>(find: Find, pick: nat -> bool, conv: Conv<V>, col: Bytes, c: Cell) {
    find(col).Some? && pick(find(col).value) && conv(find(col).value, c).Err?
  }

  ghost predicate FirstStuck<V(!new)>(find: Find, pick: nat -> bool, conv: Conv<V>, cols: seq<Bytes>, row: Row,
                                      e: ScanError)
    requires |row| == |cols|
  {
    exists k :: && 0 <= k < |cols| && Stuck(find, pick, conv, cols[k], row[k])
      && conv(find(cols[k]).value, row[k]) == Err(e)
      && forall j | 0 <= j < k :: !Stuck(find, pick, conv, cols[j], row[j])
  }

  lemma {:induction false} StuckAt<V(!new)>(find: Find, pick: nat -> bool, conv: Conv<V>, cols: seq<Bytes>, row: Row)
    requires |row| == |cols|
    ensures var stop := StopFrom(Only(find, pick), conv, false, cols, row, 0);
      if stop < 0 then forall k | 0 <= k < |cols| :: !Stuck(find, pick, conv, cols[k], row[k])
      else
        && Stuck(find, pick, conv, cols[stop], row[stop])
        && FirstStuck(find, pick, conv, cols, row, Trouble(Only(find, pick), conv, false, cols[stop], row[stop]).value)
  {
    forall k | 0 <= k < |cols|
      ensures Stuck(find, pick, conv, cols[k], row[k]) <==>
        Trouble(Only(find, pick), conv, false, cols[k], row[k]).Some?
    {}
    var stop := StopFrom(Only(find, pick), conv, false, cols, row, 0);
    if stop >= 0 {
      assert conv(find(cols[stop]).value, row[stop]) ==
        Err(Trouble(Only(find, pick), conv, false, cols[stop], row[stop]).value);
    }
  }

  /** When nothing stops a scan, the last column of a field converts. */
  lemma {:induction false} LastRuns<V(!new)>(find: Find, conv: Conv<V>, strict: bool, cols: seq<Bytes>, row: Row,
                                             idx: nat)
    requires |row| == |cols| && StopFrom(find, conv, strict, cols, row, 0) < 0
    ensures var j := LastFrom(cols, find, idx, 0); j >= 0 ==> conv(idx, row[j]).Ok?
  {
    var j := LastFrom(cols, find, idx, 0);
    if j >= 0 { assert Trouble(find, conv, strict, cols[j], row[j]).None?; }
  }

  predicate SameAt<V(==)>(m: map<nat, V>, n: map<nat, V>, idx: nat) {
    (idx in m <==> idx in n) && (idx in m ==> m[idx] == n[idx])
  }

  lemma SameMaps<V>(m: map<nat, V>, n: map<nat, V>)
    requires forall idx: nat :: SameAt(m, n, idx)
    ensures m == n
  {
    forall idx: nat ensures (idx in m <==> idx in n) && (idx in m ==> m[idx] == n[idx]) { assert SameAt(m, n, idx); }
  }

  lemma {:induction false} LastOnly(cols: seq<Bytes>, find: Find, keep: nat -> bool, idx: nat, i: nat)
    requires i <= |cols|
    ensures LastFrom(cols, Only(find, keep), idx, i) == if keep(idx) then LastFrom(cols, find, idx, i) else -1
    decreases |cols| - i
  {
    if i < |cols| { LastOnly(cols, find, keep, idx, i + 1); }
  }

  lemma {:induction false} StopsAgree<V(!new)>(find: Find, fast: nat -> bool, conv: Conv<V>, direct: Conv<V>,
                                               cols: seq<Bytes>, row: Row, strict: bool)
    requires |row| == |cols|
    ensures StopFrom(find, Mixed(fast, conv, direct), strict, cols, row, 0) < 0 <==>
      && !(strict && UnknownFrom(cols, find, 0) >= 0)
      && StopFrom(Only(find, fast), direct, false, cols, row, 0) < 0
      && StopFrom(Only(find, Slow(fast)), conv, false, cols, row, 0) < 0
  {
    var mixed, quick, rest := Mixed(fast, conv, direct), Only(find, fast), Only(find, Slow(fast));
    forall k | 0 <= k < |cols|
      ensures Trouble(find, mixed, strict, cols[k], row[k]).None? <==>
        && !(strict && find(cols[k]).None?)
        && Trouble(quick, direct, false, cols[k], row[k]).None?
        && Trouble(rest, conv, false, cols[k], row[k]).None?
    {}
    hide Trouble, StopFrom, UnknownFrom;
  }

  // ----- when the two agree -----

  /** Where the library stops, the driver does; and where neither does, the driver's value for the
      last column of each field it writes is the library's. */
  ghost predicate DriverAgrees<V(!new)>(find: Find, conv: Conv<V>, fast: nat -> bool, direct: Conv<V>, cols: seq<Bytes>,
                                        row: Row, strict: bool)
    requires |row| == |cols|
  {
    if StopFrom(find, conv, strict, cols, row, 0) >= 0 then
      exists k :: 0 <= k < |cols| && Trouble(find, Mixed(fast, conv, direct), strict, cols[k], row[k]).Some?
    else
      forall k | 0 <= k < |cols| && find(cols[k]).Some? && fast(find(cols[k]).value) ::
        var idx := find(cols[k]).value;
        direct(idx, row[k]).Ok? && (LastFrom(cols, find, idx, 0) == k ==> direct(idx, row[k]) == conv(idx, row[k]))
  }

  /** A struct scanned without a recorder comes out as it does behind one if and only if the driver
      agrees. */
  lemma {:induction false} StructAgrees<V(!new)>(find: Find, conv: Conv<V>, fast: nat -> bool, direct: Conv<V>,
                                                 cols: seq<Bytes>, row: Row, strict: bool, d: map<nat, V>)
    requires |row| == |cols|
    ensures var s := StructOf(find, conv, fast, direct);
      Alike(Convert(s, cols, row, strict, d), ConvertPlain(s, cols, row, strict, d)) <==>
      DriverAgrees(find, conv, fast, direct, cols, row, strict)
  {
    var s, mixed := StructOf(find, conv, fast, direct), Mixed(fast, conv, direct);
    StructHoldsRow(s, conv, cols, row, strict, d, 0);
    PlainHoldsRow(find, conv, fast, direct, cols, row, strict, d, 0);
    var behind, plain := Convert(s, cols, row, strict, d), ConvertPlain(s, cols, row, strict, d);
    if behind.Ok? {
      if DriverAgrees(find, conv, fast, direct, cols, row, strict) {
        NothingStops(find, conv, fast, direct, cols, row, strict);
        forall idx: nat ensures SameAt(behind.value, plain.value, idx) {
          SameField(find, conv, fast, direct, cols, row, strict, d, idx);
        }
        hide Convert, ConvertPlain, StopFrom, DriverAgrees, SameAt;
        SameMaps(behind.value, plain.value);
      } else if plain == behind {
        var k := Disagreement(find, conv, fast, direct, cols, row, strict);
        assert Trouble(find, mixed, strict, cols[k], row[k]).None?;
        StructHoldsRow(s, conv, cols, row, strict, d, find(cols[k]).value);
        PlainHoldsRow(find, conv, fast, direct, cols, row, strict, d, find(cols[k]).value);
        hide Convert, ConvertPlain, StopFrom, DriverAgrees;
      }
    } else {
      hide Convert, ConvertPlain;
    }
  }

  lemma {:induction false} NothingStops<V(!new)>(find: Find, conv: Conv<V>, fast: nat -> bool, direct: Conv<V>,
                                                 cols: seq<Bytes>, row: Row, strict: bool)
    requires |row| == |cols| && StopFrom(find, conv, strict, cols, row, 0) < 0
    requires DriverAgrees(find, conv, fast, direct, cols, row, strict)
    ensures StopFrom(find, Mixed(fast, conv, direct), strict, cols, row, 0) < 0
  {
    forall k | 0 <= k < |cols| ensures Trouble(find, Mixed(fast, conv, direct), strict, cols[k], row[k]).None? {
      assert Trouble(find, conv, strict, cols[k], row[k]).None?;
    }
    hide StopFrom, LastFrom, Trouble;
  }

  lemma {:induction false} SameField<V(!new)>(find: Find, conv: Conv<V>, fast: nat -> bool, direct: Conv<V>,
                                              cols: seq<Bytes>, row: Row, strict: bool, d: map<nat, V>, idx: nat)
    requires |row| == |cols| && DriverAgrees(find, conv, fast, direct, cols, row, strict)
    requires var s := StructOf(find, conv, fast, direct);
      Convert(s, cols, row, strict, d).Ok? && ConvertPlain(s, cols, row, strict, d).Ok?
    ensures var s := StructOf(find, conv, fast, direct);
      SameAt(Convert(s, cols, row, strict, d).value, ConvertPlain(s, cols, row, strict, d).value, idx)
  {
    var s, j := StructOf(find, conv, fast, direct), LastFrom(cols, find, idx, 0);
    StructHoldsRow(s, conv, cols, row, strict, d, idx);
    PlainHoldsRow(find, conv, fast, direct, cols, row, strict, d, idx);
    hide Convert, ConvertPlain, StopFrom, LastFrom;
    if j >= 0 && fast(idx) { assert direct(idx, row[j]) == conv(idx, row[j]); }
  }

  /** The column at which the driver differs from a library that does not stop. */
  lemma {:induction false} Disagreement<V(!new)>(find: Find, conv: Conv<V>, fast: nat -> bool, direct: Conv<V>,
                                                 cols: seq<Bytes>, row: Row, strict: bool) returns (k: nat)
    requires |row| == |cols| && StopFrom(find, conv, strict, cols, row, 0) < 0
    requires !DriverAgrees(find, conv, fast, direct, cols, row, strict)
    ensures k < |cols| && find(cols[k]).Some? && fast(find(cols[k]).value)
    ensures var idx := find(cols[k]).value;
      direct(idx, row[k]).Ok? ==> LastFrom(cols, find, idx, 0) == k && direct(idx, row[k]) != conv(idx, row[k])
  {
    hide StopFrom, LastFrom;
    k :| 0 <= k < |cols| && find(cols[k]).Some? && fast(find(cols[k]).value) &&
      var idx := find(cols[k]).value;
      !(direct(idx, row[k]).Ok? && (LastFrom(cols, find, idx, 0) == k ==> direct(idx, row[k]) == conv(idx, row[k])));
  }

  // ----- a NULL -----

  /** A struct with one int field, whatever the column is called. */
  function IntField(conv: Conv<int>, direct: Conv<int>): Shape<map<nat, int>> {
    StructOf(col => Some(0), conv, idx => true, direct)
  }

  /** The library makes 0 of a NULL, which the driver refuses to put into an int. */
  ghost predicate NullRules(conv: Conv<int>, direct: Conv<int>) { conv(0, Null) == Ok(0) && direct(0, Null).Err? }

  /** A NULL for an int field: 0 behind a recorder, an error without one. */
  lemma {:induction false} NullDiffers(conv: Conv<int>, direct: Conv<int>, col: Bytes, strict: bool)
    requires NullRules(conv, direct)
    ensures Convert(IntField(conv, direct), [col], [Null], strict, map[]) == Ok(map[0 := 0])
    ensures ConvertPlain(IntField(conv, direct), [col], [Null], strict, map[]).Err?
  {
    var s := IntField(conv, direct);
    FieldsTurn(s, conv, [col], [Null], strict, map[], 0);
    FieldsTurn(Quick(s), direct, [col], [Null], false, map[], 0);
  }
}
