/** Struct metadata: flattened fields, their offsets, and the name indexes. */
module Meta {
  import opened Wrappers
  import opened Runes

  // ----- Go types, as far as the metadata looks at them -----

  /** What a type is besides its kind: time.Time, or one with a Scan or a Value method on its
      pointer. */
  datatype Traits = Traits(time: bool, scans: bool, values: bool)

  const PLAIN := Traits(false, false, false)

  /** `basic` holds for booleans, numbers, strings and byte slices. */
  datatype Type =
    | Struct(fields: seq<Field>, size: nat, traits: Traits)
    | Ptr(elem: Type)
    | Other(size: nat, traits: Traits, basic: bool)

  /** `tag` is the value of the configured tag. */
  datatype Field = Field(name: string, exported: bool, anonymous: bool, tag: string, typ: Type, offset: nat)

  const WORD := 8

  function Size(t: Type): nat {
    match t
    case Struct(_, size, _) => size
    case Ptr(_) => WORD
    case Other(size, _, _) => size
  }

  /** The struct behind an embedded field that is flattened. */
  function Flat(t: Type): Option<Type> {
    if t.Struct? && t.traits == PLAIN then Some(t)
    else if t.Ptr? && t.elem.Struct? && t.elem.traits == PLAIN then Some(t.elem)
    else None
  }

  predicate Flattens(sf: Field) { sf.anonymous && sf.tag == "" && Flat(sf.typ).Some? }

  type Path = seq<nat>

  /** A collected field; `tagged` says which column index it went into. */
  datatype Info = Info(index: Path, name: string, fieldName: string, typ: Type, tagged: bool,
                       json: bool, omitEmpty: bool, fast: bool, offset: nat, addr: bool)

  datatype Error = TagInvalid

  // ----- tags -----

  function Split(s: string): (parts: seq<string>)
    ensures parts != []
  {
    if s == "" then [""]
    else
      var rest := Split(s[1..]);
      if s[0] == ',' then [""] + rest else [[s[0]] + rest[0]] + rest[1..]
  }

  function JoinCommas(parts: seq<string>): string
    requires parts != []
  {
    if |parts| == 1 then parts[0] else parts[0] + "," + JoinCommas(parts[1..])
  }

  /** The parts between the commas. */
  lemma {:induction false} SplitIs(s: string)
    ensures JoinCommas(Split(s)) == s && forall p <- Split(s) :: ',' !in p
  {
    if s != "" {
      var rest := Split(s[1..]);
      SplitIs(s[1..]);
      assert rest == [rest[0]] + rest[1..];
      if s[0] == ',' {
        assert ([""] + rest)[1..] == rest;
      } else {
        var head := [s[0]] + rest[0];
        assert ([head] + rest[1..])[1..] == rest[1..];
        assert forall p <- [head] + rest[1..] :: p == head || p in rest;
        JoinHead(rest, s[0]);
      }
    }
  }

  lemma JoinHead(parts: seq<string>, c: char)
    requires parts != []
    ensures JoinCommas([[c] + parts[0]] + parts[1..]) == [c] + JoinCommas(parts)
  {
    assert ([[c] + parts[0]] + parts[1..])[1..] == parts[1..];
  }

  function TagName(tag: string): string { TrimSpace(Split(tag)[0]) }

  function TagOptions(tag: string): set<string> {
    set p <- Split(tag)[1..] | TrimSpace(p) != "" :: TrimSpace(p)
  }

  lemma {:induction false} OptionsAre(tag: string)
    ensures var parts := Split(tag);
      forall o :: o in TagOptions(tag) <==> o != "" && exists k :: 0 < k < |parts| && o == TrimSpace(parts[k])
  {
    var parts := Split(tag);
    hide TrimSpace;
    forall o | o in TagOptions(tag) ensures exists k :: 0 < k < |parts| && o == TrimSpace(parts[k]) {
      var p :| p in parts[1..] && TrimSpace(p) == o;
      var k :| 0 <= k < |parts| - 1 && parts[1..][k] == p;
      assert parts[k + 1] == p;
    }
    forall k | 0 < k < |parts| ensures parts[k] in parts[1..] { assert parts[1..][k - 1] == parts[k]; }
  }

  /** parseTag */
  method ParseTag(tag: string) returns (r: Result<(string, set<string>), Error>)
    ensures r == if TagName(tag) == "" then Err(TagInvalid) else Ok((TagName(tag), TagOptions(tag)))
    ensures var parts := Split(tag);
      && (r.Err? <==> TrimSpace(parts[0]) == "")
      && (r.Ok? ==> r.value.0 == TrimSpace(parts[0]))
      && (r.Ok? ==> forall o :: o in r.value.1 <==> o != "" && exists k :: 0 < k < |parts| && o == TrimSpace(parts[k]))
  {
    OptionsAre(tag);
    var parts := Split(tag);
    var name := TrimSpace(parts[0]);
    if name == "" { return Err(TagInvalid); }
    var opts: set<string> := {};
    for k := 1 to |parts|
      invariant opts == set p <- parts[1..k] | TrimSpace(p) != "" :: TrimSpace(p)
    {
      var o := TrimSpace(parts[k]);
      assert parts[1..k + 1] == parts[1..k] + [parts[k]];
      if o != "" { opts := opts + {o}; }
    }
    assert parts[1..|parts|] == parts[1..];
    r := Ok((name, opts));
  }

  /** A type the driver can scan into, behind any number of pointers. */
  predicate FastScan(t: Type) {
    if t.Ptr? then FastScan(t.elem) else !t.traits.time && (t.traits.scans || (t.Other? && t.basic))
  }

  /** The type behind all pointers. */
  function Base(t: Type): (b: Type)
    ensures !b.Ptr?
  {
    if t.Ptr? then Base(t.elem) else t
  }

  method CanFastScan(t: Type) returns (fast: bool)
    ensures fast == FastScan(t)
    ensures fast <==> !Base(t).traits.time && (Base(t).traits.scans || (Base(t).Other? && Base(t).basic))
  {
    var ft := t;
    while ft.Ptr?
      invariant FastScan(ft) == FastScan(t) && Base(ft) == Base(t)
      decreases ft
    {
      ft := ft.elem;
    }
    if ft.traits.time { return false; }
    if ft.traits.scans { return true; }
    fast := ft.Other? && ft.basic;
  }

  /** The entry for a field at a path; None when the tag ignores the field. */
  function Entry(sf: Field, index: Path, mapper: string -> string): Result<Option<Info>, Error> {
    if sf.tag == "-" then Ok(None)
    else
      var tagged := sf.tag != "";
      var name, options := if tagged then TagName(sf.tag) else mapper(sf.name), TagOptions(sf.tag);
      if name == "" then Err(TagInvalid)
      else
        Ok(Some(Info(index, name, sf.name, sf.typ, tagged, tagged && "json" in options,
          tagged && "omitempty" in options, FastScan(sf.typ), 0, false)))
  }

  /** What becomes of a field: ignored under the tag `-`; without a tag it has the mapped name and no
      options; else the first part of the tag as its name and the others as options. It must have
      a name. */
  lemma {:induction false} EntryIs(sf: Field, index: Path, mapper: string -> string)
    ensures var e, parts := Entry(sf, index, mapper), Split(sf.tag);
      if sf.tag == "-" then e == Ok(None)
      else
        var name := if sf.tag == "" then mapper(sf.name) else TrimSpace(parts[0]);
        if name == "" then e == Err(TagInvalid)
        else
          && e.Ok? && e.value.Some?
          && var f := e.value.value;
          && f.index == index && f.name == name && f.fieldName == sf.name && f.typ == sf.typ
          && (f.tagged <==> sf.tag != "") && !f.addr
          && (f.json <==> sf.tag != "" && exists k :: 0 < k < |parts| && "json" == TrimSpace(parts[k]))
          && (f.omitEmpty <==> sf.tag != "" && exists k :: 0 < k < |parts| && "omitempty" == TrimSpace(parts[k]))
          && (f.fast <==> FastScan(sf.typ))
  {
    OptionsAre(sf.tag);
    hide TrimSpace, Split, TagOptions, FastScan;
  }

  // ----- flattening -----

  /** The fields collected for field `i` of a struct. */
  function Here(t: Type, prefix: Path, mapper: string -> string, i: nat): Result<seq<Info>, Error>
    requires t.Struct? && i < |t.fields|
    decreases t, |t.fields| - i, 0
  {
    var sf := t.fields[i];
    if !sf.exported then Ok([])
    else if Flattens(sf)
    then Collected(Flat(sf.typ).value, prefix + [i], mapper, 0)
    else Single(Entry(sf, prefix + [i], mapper))
  }

  /** The fields collected from field `i` of a struct on. */
  function Collected(t: Type, prefix: Path, mapper: string -> string, i: nat): Result<seq<Info>, Error>
    requires t.Struct? && i <= |t.fields|
    decreases t, |t.fields| - i, 1
  {
    if i == |t.fields| then Ok([])
    else
      var here := Here(t, prefix, mapper, i);
      if here.Err? then here else Joined(here.value, Collected(t, prefix, mapper, i + 1))
  }

  function Joined(done: seq<Info>, rest: Result<seq<Info>, Error>): Result<seq<Info>, Error> {
    if rest.Err? then rest else Ok(done + rest.value)
  }

  function Single(e: Result<Option<Info>, Error>): Result<seq<Info>, Error> {
    match e
    case Err(x) => Err(x)
    case Ok(None) => Ok([])
    case Ok(Some(f)) => Ok([f])
  }

  // ----- name indexes -----

  datatype By = Column | Mapped | FieldName | AnyCase

  /** The name under which an index holds a field. */
  function Key(how: By, f: Info, lower: string -> string): Option<string> {
    match how
    case Column => if f.tagged then Some(f.name) else None
    case Mapped => if f.tagged then None else Some(f.name)
    case FieldName => Some(f.fieldName)
    case AnyCase => Some(lower(f.fieldName))
  }

  /** The index as successive insertions leave it. */
  function Index(how: By, fs: seq<Info>, lower: string -> string): map<string, nat> {
    if fs == [] then map[]
    else
      var init := Index(how, fs[..|fs| - 1], lower);
      match Key(how, fs[|fs| - 1], lower)
      case None => init
      case Some(k) => init[k := |fs| - 1]
  }

  lemma IndexGrows(how: By, fs: seq<Info>, f: Info, lower: string -> string)
    ensures Index(how, fs + [f], lower) ==
      var k := Key(how, f, lower); if k.Some? then Index(how, fs, lower)[k.value := |fs|] else Index(how, fs, lower)
  {}

  /** The last field with a name, by linear search. */
  function Search(how: By, fs: seq<Info>, name: string, lower: string -> string): (r: Option<nat>)
    ensures r.Some? ==> r.value < |fs| && Key(how, fs[r.value], lower) == Some(name)
    ensures forall j | (if r.Some? then r.value else -1) < j < |fs| :: Key(how, fs[j], lower) != Some(name)
  {
    if fs == [] then None
    else if Key(how, fs[|fs| - 1], lower) == Some(name) then Some(|fs| - 1)
    else Search(how, fs[..|fs| - 1], name, lower)
  }

  /** The last field that `p` holds of, if any. */
  ghost predicate IsLast(fs: seq<Info>, p: Info -> bool, r: Option<nat>) {
    if r.Some? then r.value < |fs| && p(fs[r.value]) && forall j | r.value < j < |fs| :: !p(fs[j])
    else forall j | 0 <= j < |fs| :: !p(fs[j])
  }

  /** The column index is about tag names, the mapped index about the names of fields without a tag,
      the others about field names, as they are and in lower case. */
  lemma SearchIs(fs: seq<Info>, name: string, lower: string -> string)
    ensures IsLast(fs, (f: Info) => f.tagged && f.name == name, Search(Column, fs, name, lower))
    ensures IsLast(fs, (f: Info) => !f.tagged && f.name == name, Search(Mapped, fs, name, lower))
    ensures IsLast(fs, (f: Info) => f.fieldName == name, Search(FieldName, fs, name, lower))
    ensures IsLast(fs, (f: Info) => lower(f.fieldName) == name, Search(AnyCase, fs, name, lower))
  {}

  function Lookup(m: map<string, nat>, name: string): Option<nat> { if name in m then Some(m[name]) else None }

  /** The map finds what a linear search finds: of several fields with a name, the last. */
  lemma {:induction false} IndexSearches(how: By, fs: seq<Info>, name: string, lower: string -> string)
    ensures Lookup(Index(how, fs, lower), name) == Search(how, fs, name, lower)
  {
    if fs != [] { IndexSearches(how, fs[..|fs| - 1], name, lower); }
  }

  function OrElse<T>(a: Option<T>, b: Option<T>): Option<T> { if a.Some? then a else b }

  class TypeInfo {
    const lower: string -> string
    var fields: seq<Info>
    var byColumn: map<string, nat>
    var byMapped: map<string, nat>
    var byFieldName: map<string, nat>
    var byName: map<string, nat>

    ghost predicate Valid()
      reads this
    {
      && byColumn == Index(Column, fields, lower) && byMapped == Index(Mapped, fields, lower)
      && byFieldName == Index(FieldName, fields, lower) && byName == Index(AnyCase, fields, lower)
    }

    constructor (lower: string -> string)
      ensures Valid() && fields == [] && this.lower == lower
    {
      this.lower, fields := lower, [];
      byColumn, byMapped, byFieldName, byName := map[], map[], map[], map[];
    }

    method AddField(sf: Field, index: Path, mapper: string -> string) returns (error: Option<Error>)
      requires Valid()
      modifies this
      ensures Valid()
      ensures var e := Single(Entry(sf, index, mapper));
        if e.Err? then error == Some(e.error) && fields == old(fields)
        else error == None && fields == old(fields) + e.value
    {
      hide Index, TrimSpace, TagName, TagOptions, FastScan;
      if sf.tag == "-" {
        assert fields + [] == fields;
        return None;
      }
      var name, json, omitEmpty := "", false, false;
      if sf.tag != "" {
        var tag := ParseTag(sf.tag);
        if tag.Err? { return Some(tag.error); }
        name, json, omitEmpty := tag.value.0, "json" in tag.value.1, "omitempty" in tag.value.1;
      } else {
        name := mapper(sf.name);
      }
      if name == "" { return Some(TagInvalid); }
      var fast := CanFastScan(sf.typ);
      var f := Info(index, name, sf.name, sf.typ, sf.tag != "", json, omitEmpty, fast, 0, false);
      assert Entry(sf, index, mapper) == Ok(Some(f));
      var idx := |fields|;
      IndexGrows(Column, fields, f, lower);
      IndexGrows(Mapped, fields, f, lower);
      IndexGrows(FieldName, fields, f, lower);
      IndexGrows(AnyCase, fields, f, lower);
      hide Entry;
      fields := fields + [f];
      if f.tagged { byColumn := byColumn[f.name := idx]; } else { byMapped := byMapped[f.name := idx]; }
      byFieldName := byFieldName[f.fieldName := idx];
      byName := byName[lower(f.fieldName) := idx];
      error := None;
    }

    method CollectFields(t: Type, prefix: Path, mapper: string -> string) returns (error: Option<Error>)
      requires Valid() && t.Struct?
      modifies this
      ensures Valid()
      ensures var c := Collected(t, prefix, mapper, 0);
        if c.Err? then error == Some(c.error) else error == None && fields == old(fields) + c.value
      decreases t, 1
    {
      ghost var before, whole := fields, Collected(t, prefix, mapper, 0);
      ghost var done: seq<Info> := [];
      JoinedNone(whole);
      assert before + [] == before;
      for i := 0 to |t.fields|
        invariant Valid() && fields == before + done
        invariant Joined(done, Collected(t, prefix, mapper, i)) == whole
      {
        ghost var here, rest := Here(t, prefix, mapper, i), Collected(t, prefix, mapper, i + 1);
        assert Collected(t, prefix, mapper, i) == if here.Err? then here else Joined(here.value, rest);
        hide *;
        error := CollectField(t, prefix, mapper, i);
        if error.Some? {
          JoinedError(done, here);
          return;
        }
        JoinedTurn(done, here.value, rest);
        assert (before + done) + here.value == before + (done + here.value);
        done := done + here.value;
      }
      JoinedAll(done);
      error := None;
    }

    /** The loop's body. */
    method CollectField(t: Type, prefix: Path, mapper: string -> string, i: nat) returns (error: Option<Error>)
      requires Valid() && t.Struct? && i < |t.fields|
      modifies this
      ensures Valid()
      ensures var h := Here(t, prefix, mapper, i);
        if h.Err? then error == Some(h.error) else error == None && fields == old(fields) + h.value
      decreases t, 0
    {
      var sf := t.fields[i];
      if !sf.exported {
        assert fields + [] == fields;
        return None;
      }
      var index := prefix + [i];
      hide Valid, Collected, Entry;
      if Flattens(sf) {
        error := CollectFields(Flat(sf.typ).value, index, mapper);
      } else {
        error := AddField(sf, index, mapper);
      }
    }

    function LookupBind(name: string): (r: Option<nat>)
      requires Valid()
      reads this
      ensures r == OrElse(Search(Column, fields, name, lower),
        OrElse(Search(Mapped, fields, name, lower), Search(FieldName, fields, name, lower)))
    {
      IndexSearches(Column, fields, name, lower);
      IndexSearches(Mapped, fields, name, lower);
      IndexSearches(FieldName, fields, name, lower);
      if name in byColumn then Some(byColumn[name])
      else if name in byMapped then Some(byMapped[name])
      else if name in byFieldName then Some(byFieldName[name])
      else None
    }

    function LookupScan(col: string): (r: Option<nat>)
      requires Valid()
      reads this
      ensures r == OrElse(Search(Column, fields, col, lower),
        OrElse(Search(Mapped, fields, col, lower), Search(AnyCase, fields, lower(col), lower)))
    {
      IndexSearches(Column, fields, col, lower);
      IndexSearches(Mapped, fields, col, lower);
      IndexSearches(AnyCase, fields, lower(col), lower);
      if col in byColumn then Some(byColumn[col])
      else if col in byMapped then Some(byMapped[col])
      else if lower(col) in byName then Some(byName[lower(col)])
      else None
    }
  }

  lemma {:induction false} JoinedNone(rest: Result<seq<Info>, Error>)
    ensures Joined([], rest) == rest
  { if rest.Ok? { assert [] + rest.value == rest.value; } }

  lemma {:induction false} JoinedAll(done: seq<Info>)
    ensures Joined(done, Ok([])) == Ok(done)
  { assert done + [] == done; }

  lemma JoinedError(done: seq<Info>, rest: Result<seq<Info>, Error>)
    ensures rest.Err? ==> Joined(done, rest) == rest
  {}

  lemma {:induction false} JoinedTurn(done: seq<Info>, here: seq<Info>, rest: Result<seq<Info>, Error>)
    ensures Joined(done + here, rest) == Joined(done, Joined(here, rest))
  {
    if rest.Ok? { assert (done + here) + rest.value == done + (here + rest.value); }
  }

  // ----- paths -----

  function Under(t: Type): Type { if t.Ptr? then t.elem else t }

  /** A path that leads through structs and pointers to structs. */
  predicate Leads(t: Type, path: Path) {
    path == [] ||
    (Under(t).Struct? && path[0] < |Under(t).fields| && Leads(Under(t).fields[path[0]].typ, path[1..]))
  }

  function TypeAt(t: Type, path: Path): Type
    requires Leads(t, path)
  {
    if path == [] then t else TypeAt(Under(t).fields[path[0]].typ, path[1..])
  }

  /** The collected fields of a struct lead to what they say, below their prefix, at or after
      field `i`. */
  ghost predicate Rooted(t: Type, prefix: Path, i: nat, f: Info) {
    && |f.index| > |prefix| && f.index[..|prefix|] == prefix && f.index[|prefix|] >= i
    && Leads(t, f.index[|prefix|..]) && TypeAt(t, f.index[|prefix|..]) == f.typ
  }

  lemma {:induction false} CollectedRooted(t: Type, prefix: Path, mapper: string -> string, i: nat)
    requires t.Struct? && i <= |t.fields|
    ensures var c := Collected(t, prefix, mapper, i);
      c.Ok? ==> forall f <- c.value :: Rooted(t, prefix, i, f)
    decreases t, |t.fields| - i
  {
    if i < |t.fields| && Collected(t, prefix, mapper, i).Ok? {
      var sf, here := t.fields[i], Here(t, prefix, mapper, i).value;
      CollectedRooted(t, prefix, mapper, i + 1);
      var rest := Collected(t, prefix, mapper, i + 1).value;
      forall f <- here ensures Rooted(t, prefix, i, f) {
        if Flattens(sf) {
          CollectedRooted(Flat(sf.typ).value, prefix + [i], mapper, 0);
          Deeper(t, prefix, i, f);
        } else {
          SingleRooted(t, prefix, mapper, i);
        }
      }
      assert forall f <- rest :: Rooted(t, prefix, i, f);
    }
  }

  lemma Deeper(t: Type, prefix: Path, i: nat, f: Info)
    requires t.Struct? && i < |t.fields| && Flat(t.fields[i].typ).Some?
    requires Rooted(Flat(t.fields[i].typ).value, prefix + [i], 0, f)
    ensures Rooted(t, prefix, i, f)
  {}

  lemma SingleRooted(t: Type, prefix: Path, mapper: string -> string, i: nat)
    requires t.Struct? && i < |t.fields|
    ensures var e := Entry(t.fields[i], prefix + [i], mapper);
      e.Ok? && e.value.Some? ==> Rooted(t, prefix, i, e.value.value)
  {}

  /** Neither path leads through the other. */
  predicate Apart(p: Path, q: Path) { !(p <= q) && !(q <= p) }

  ghost predicate AllApart(fs: seq<Info>) {
    forall a, b | 0 <= a < b < |fs| :: Apart(fs[a].index, fs[b].index)
  }

  /** The collected paths are distinct, and none is a prefix of another. */
  lemma {:induction false} CollectedApart(t: Type, prefix: Path, mapper: string -> string, i: nat)
    requires t.Struct? && i <= |t.fields|
    ensures var c := Collected(t, prefix, mapper, i); c.Ok? ==> AllApart(c.value)
    decreases t, |t.fields| - i
  {
    if i < |t.fields| && Collected(t, prefix, mapper, i).Ok? {
      var sf, here, rest := t.fields[i], Here(t, prefix, mapper, i).value, Collected(t, prefix, mapper, i + 1).value;
      assert Collected(t, prefix, mapper, i) == Ok(here + rest);
      assert AllApart(here) by {
        if Flattens(sf) { CollectedApart(Flat(sf.typ).value, prefix + [i], mapper, 0); }
      }
      HereApart(t, prefix, mapper, i);
      CollectedApart(t, prefix, mapper, i + 1);
      hide Collected, Here;
    }
  }

  /** A field's own paths are apart from those of later fields. */
  lemma {:induction false} HereApart(t: Type, prefix: Path, mapper: string -> string, i: nat)
    requires t.Struct? && i < |t.fields| && Here(t, prefix, mapper, i).Ok? && Collected(t, prefix, mapper, i + 1).Ok?
    ensures forall f, g | f in Here(t, prefix, mapper, i).value && g in Collected(t, prefix, mapper, i + 1).value ::
      Apart(f.index, g.index)
  {
    CollectedRooted(t, prefix, mapper, i + 1);
    HereBelow(t, prefix, mapper, i);
    hide Collected, Here, Rooted, Apart;
    var here, rest := Here(t, prefix, mapper, i).value, Collected(t, prefix, mapper, i + 1).value;
    forall f, g | f in here && g in rest ensures Apart(f.index, g.index) {
      assert Rooted(t, prefix, i + 1, g);
      Divide(t, prefix, i, f, g);
    }
  }

  lemma {:induction false} HereBelow(t: Type, prefix: Path, mapper: string -> string, i: nat)
    requires t.Struct? && i < |t.fields|
    ensures var h := Here(t, prefix, mapper, i);
      h.Ok? ==> forall f <- h.value :: |f.index| > |prefix| && f.index[..|prefix| + 1] == prefix + [i]
  {
    var sf, h := t.fields[i], Here(t, prefix, mapper, i);
    if sf.exported && Flattens(sf) && h.Ok? {
      var inner := Flat(sf.typ).value;
      CollectedRooted(inner, prefix + [i], mapper, 0);
      forall f <- h.value ensures |f.index| > |prefix| && f.index[..|prefix| + 1] == prefix + [i] {
        assert Rooted(inner, prefix + [i], 0, f);
      }
    }
  }

  lemma Divide(t: Type, prefix: Path, i: nat, f: Info, g: Info)
    requires |f.index| > |prefix| && f.index[..|prefix| + 1] == prefix + [i] && Rooted(t, prefix, i + 1, g)
    ensures Apart(f.index, g.index)
  {}

  /** A path through flattened embedded structs to a field that is neither hidden nor ignored. */
  predicate IsColumn(t: Type, path: Path)
    requires t.Struct?
    decreases |path|
  {
    && path != [] && path[0] < |t.fields| && t.fields[path[0]].exported
    && var sf := t.fields[path[0]];
       if !sf.anonymous || sf.tag != "" then |path| == 1 && sf.tag != "-"
       else if IsPlainStruct(sf.typ) then IsColumn(sf.typ, path[1..])
       else if sf.typ.Ptr? && IsPlainStruct(sf.typ.elem) then IsColumn(sf.typ.elem, path[1..])
       else |path| == 1
  }

  /** A struct that is neither a time nor has Scan or Value methods. */
  predicate IsPlainStruct(t: Type) { t.Struct? && !t.traits.time && !t.traits.scans && !t.traits.values }

  function FieldAt(t: Type, path: Path): Field
    requires t.Struct? && IsColumn(t, path)
    decreases |path|
  {
    var sf := t.fields[path[0]];
    if |path| == 1 then sf
    else if IsPlainStruct(sf.typ) then FieldAt(sf.typ, path[1..])
    else FieldAt(sf.typ.elem, path[1..])
  }

  ghost predicate Holds(fs: seq<Info>, index: Path) { exists f :: f in fs && f.index == index }

  /** Exactly the column paths are collected. */
  lemma {:induction false} CollectedExactly(t: Type, prefix: Path, mapper: string -> string, i: nat, path: Path)
    requires t.Struct? && i <= |t.fields| && Collected(t, prefix, mapper, i).Ok?
    ensures Holds(Collected(t, prefix, mapper, i).value, prefix + path) <==> IsColumn(t, path) && path[0] >= i
    decreases t, |t.fields| - i
  {
    if i < |t.fields| {
      var here, rest := Here(t, prefix, mapper, i).value, Collected(t, prefix, mapper, i + 1).value;
      assert Collected(t, prefix, mapper, i).value == here + rest;
      HoldsEither(here, rest, prefix + path);
      CollectedExactly(t, prefix, mapper, i + 1, path);
      hide Collected, Holds;
      HereExactly(t, prefix, mapper, i, path);
    }
  }

  lemma HoldsEither(a: seq<Info>, b: seq<Info>, index: Path)
    ensures Holds(a + b, index) <==> Holds(a, index) || Holds(b, index)
  {}

  lemma {:induction false} Elsewhere(index: Path, prefix: Path, i: nat, path: Path)
    requires |index| > |prefix| && index[..|prefix| + 1] == prefix + [i] && (path == [] || path[0] != i)
    ensures index != prefix + path
  {
    assert index[|prefix|] == index[..|prefix| + 1][|prefix|] == i;
    if path != [] { assert (prefix + path)[|prefix|] == path[0]; }
  }

  lemma {:induction false} HereExactly(t: Type, prefix: Path, mapper: string -> string, i: nat, path: Path)
    requires t.Struct? && i < |t.fields| && Here(t, prefix, mapper, i).Ok?
    ensures Holds(Here(t, prefix, mapper, i).value, prefix + path) <==> IsColumn(t, path) && path[0] == i
    decreases t, |t.fields| - i, 0
  {
    var sf, here := t.fields[i], Here(t, prefix, mapper, i).value;
    HereBelow(t, prefix, mapper, i);
    if path == [] || path[0] != i {
      forall f | f in here ensures f.index != prefix + path { Elsewhere(f.index, prefix, i, path); }
    } else if sf.exported && Flattens(sf) {
      assert (prefix + [i]) + path[1..] == prefix + path;
      CollectedExactly(Flat(sf.typ).value, prefix + [i], mapper, 0, path[1..]);
    } else if sf.exported && sf.tag != "-" {
      assert here[0].index == prefix + [i];
      assert path == [i] + path[1..];
      if |path| > 1 { assert |prefix + path| > |here[0].index|; }
    }
  }

  // ----- what is collected, in which order, and when not -----

  /** A collected field is the entry of the field its path leads to. */
  ghost predicate EntryAt(t: Type, prefix: Path, mapper: string -> string, f: Info)
    requires t.Struct?
  {
    && |f.index| > |prefix| && f.index[..|prefix|] == prefix && IsColumn(t, f.index[|prefix|..])
    && Entry(FieldAt(t, f.index[|prefix|..]), f.index, mapper) == Ok(Some(f))
  }

  lemma {:induction false} CollectedEntries(t: Type, prefix: Path, mapper: string -> string, i: nat)
    requires t.Struct? && i <= |t.fields| && Collected(t, prefix, mapper, i).Ok?
    ensures forall f <- Collected(t, prefix, mapper, i).value :: EntryAt(t, prefix, mapper, f)
    decreases t, |t.fields| - i
  {
    if i < |t.fields| {
      var sf, here, rest := t.fields[i], Here(t, prefix, mapper, i).value, Collected(t, prefix, mapper, i + 1).value;
      assert Collected(t, prefix, mapper, i).value == here + rest;
      CollectedEntries(t, prefix, mapper, i + 1);
      forall f <- here ensures EntryAt(t, prefix, mapper, f) {
        if sf.exported && Flattens(sf) {
          CollectedEntries(Flat(sf.typ).value, prefix + [i], mapper, 0);
          EntryDeeper(t, prefix, mapper, i, f);
        } else {
          EntryHere(t, prefix, mapper, i, f);
        }
      }
      hide Collected, Here, EntryAt;
    }
  }

  lemma {:induction false} EntryDeeper(t: Type, prefix: Path, mapper: string -> string, i: nat, f: Info)
    requires t.Struct? && i < |t.fields| && t.fields[i].exported && Flattens(t.fields[i])
    requires EntryAt(Flat(t.fields[i].typ).value, prefix + [i], mapper, f)
    ensures EntryAt(t, prefix, mapper, f)
  {
    var path := f.index[|prefix|..];
    assert f.index[..|prefix|] == f.index[..|prefix| + 1][..|prefix|];
    assert path[0] == f.index[..|prefix| + 1][|prefix|] == i && path[1..] == f.index[|prefix| + 1..];
    hide Entry;
  }

  lemma {:induction false} EntryHere(t: Type, prefix: Path, mapper: string -> string, i: nat, f: Info)
    requires t.Struct? && i < |t.fields| && Here(t, prefix, mapper, i).Ok? && f in Here(t, prefix, mapper, i).value
    requires !(t.fields[i].exported && Flattens(t.fields[i]))
    ensures EntryAt(t, prefix, mapper, f)
  {
    assert Entry(t.fields[i], prefix + [i], mapper) == Ok(Some(f));
    assert f.index == prefix + [i] && f.index[|prefix|..] == [i];
  }

  /** Collecting fails if and only if some column has no name. */
  ghost predicate Nameless(t: Type, path: Path, mapper: string -> string)
    requires t.Struct?
  {
    IsColumn(t, path) && Entry(FieldAt(t, path), [], mapper).Err?
  }

  lemma {:induction false} CollectedFails(t: Type, prefix: Path, mapper: string -> string, i: nat)
    requires t.Struct? && i <= |t.fields|
    ensures Collected(t, prefix, mapper, i).Err? <==> exists path :: Nameless(t, path, mapper) && path[0] >= i
    decreases t, |t.fields| - i
  {
    if i < |t.fields| {
      CollectedFails(t, prefix, mapper, i + 1);
      HereFails(t, prefix, mapper, i);
      hide Here, Nameless;
    }
  }

  lemma {:induction false} HereFails(t: Type, prefix: Path, mapper: string -> string, i: nat)
    requires t.Struct? && i < |t.fields|
    ensures Here(t, prefix, mapper, i).Err? <==> exists path :: Nameless(t, path, mapper) && path[0] == i
    decreases t, |t.fields| - i, 0
  {
    var sf := t.fields[i];
    if sf.exported && Flattens(sf) {
      var inner := Flat(sf.typ).value;
      CollectedFails(inner, prefix + [i], mapper, 0);
      forall path | path != [] && path[0] == i
        ensures Nameless(t, path, mapper) <==> Nameless(inner, path[1..], mapper)
      {
        NamelessDeeper(t, path, mapper);
      }
      hide Nameless, Entry;
      if path :| Nameless(inner, path, mapper) {
        assert ([i] + path)[1..] == path;
        assert Nameless(t, [i] + path, mapper) && ([i] + path)[0] == i;
      }
    } else {
      SingleFails(sf, prefix + [i], mapper);
      forall path | path != [] && path[0] == i
        ensures Nameless(t, path, mapper) <==> path == [i] && Here(t, prefix, mapper, i).Err?
      {
        NamelessHere(t, path, mapper);
      }
      hide Nameless, Entry, Here;
      if Here(t, prefix, mapper, i).Err? { assert Nameless(t, [i], mapper) && [i][0] == i; }
    }
  }

  lemma SingleFails(sf: Field, index: Path, mapper: string -> string)
    ensures Single(Entry(sf, index, mapper)).Err? <==> Entry(sf, [], mapper).Err?
  {}

  lemma {:induction false} NamelessDeeper(t: Type, path: Path, mapper: string -> string)
    requires t.Struct? && path != [] && path[0] < |t.fields|
    requires t.fields[path[0]].exported && Flattens(t.fields[path[0]])
    ensures Nameless(t, path, mapper) <==> Nameless(Flat(t.fields[path[0]].typ).value, path[1..], mapper)
  {
    var sf := t.fields[path[0]];
    var inner := Flat(sf.typ).value;
    assert IsPlainStruct(sf.typ) || (sf.typ.Ptr? && IsPlainStruct(sf.typ.elem));
    assert IsColumn(t, path) <==> IsColumn(inner, path[1..]);
    if IsColumn(inner, path[1..]) { assert FieldAt(t, path) == FieldAt(inner, path[1..]); }
    hide Entry;
  }

  lemma {:induction false} NamelessHere(t: Type, path: Path, mapper: string -> string)
    requires t.Struct? && path != [] && path[0] < |t.fields|
    requires !(t.fields[path[0]].exported && Flattens(t.fields[path[0]]))
    ensures var sf := t.fields[path[0]];
      Nameless(t, path, mapper) <==> sf.exported && path == [path[0]] && Entry(sf, [], mapper).Err?
  {
    if |path| == 1 { assert path == [path[0]]; }
  }

  /** The order of declaration, embedded fields in place of their embedding. */
  ghost predicate Earlier(p: Path, q: Path) {
    exists k :: 0 <= k < |p| && k < |q| && p[..k] == q[..k] && p[k] < q[k]
  }

  ghost predicate InOrder(fs: seq<Info>) { forall a, b | 0 <= a < b < |fs| :: Earlier(fs[a].index, fs[b].index) }

  lemma {:induction false} CollectedInOrder(t: Type, prefix: Path, mapper: string -> string, i: nat)
    requires t.Struct? && i <= |t.fields| && Collected(t, prefix, mapper, i).Ok?
    ensures InOrder(Collected(t, prefix, mapper, i).value)
    decreases t, |t.fields| - i
  {
    if i < |t.fields| {
      var sf, here, rest := t.fields[i], Here(t, prefix, mapper, i).value, Collected(t, prefix, mapper, i + 1).value;
      assert Collected(t, prefix, mapper, i).value == here + rest;
      assert InOrder(here) by {
        if sf.exported && Flattens(sf) { CollectedInOrder(Flat(sf.typ).value, prefix + [i], mapper, 0); }
      }
      CollectedInOrder(t, prefix, mapper, i + 1);
      HereEarlier(t, prefix, mapper, i);
      hide Collected, Here, Earlier;
    }
  }

  lemma {:induction false} HereEarlier(t: Type, prefix: Path, mapper: string -> string, i: nat)
    requires t.Struct? && i < |t.fields| && Here(t, prefix, mapper, i).Ok? && Collected(t, prefix, mapper, i + 1).Ok?
    ensures forall f, g | f in Here(t, prefix, mapper, i).value && g in Collected(t, prefix, mapper, i + 1).value ::
      Earlier(f.index, g.index)
  {
    CollectedRooted(t, prefix, mapper, i + 1);
    HereBelow(t, prefix, mapper, i);
    var here, rest := Here(t, prefix, mapper, i).value, Collected(t, prefix, mapper, i + 1).value;
    hide Collected, Here;
    forall f, g | f in here && g in rest ensures Earlier(f.index, g.index) {
      assert Rooted(t, prefix, i + 1, g);
      var k := |prefix|;
      assert f.index[..k] == f.index[..k + 1][..k] == prefix && f.index[k] == f.index[..k + 1][k] == i;
      assert g.index[..k] == prefix;
    }
  }

  // ----- offsets and addresses -----

  /** Fields lie in order, apart from each other, and inside their struct. */
  predicate WellLaid(t: Type)
    decreases t, 1
  {
    match t
    case Struct(_, _, _) => LaidFrom(t, 0, 0)
    case Ptr(elem) => WellLaid(elem)
    case Other(_, _, _) => true
  }

  predicate LaidFrom(t: Type, i: nat, from: nat)
    requires t.Struct? && i <= |t.fields|
    decreases t, 0, |t.fields| - i
  {
    if i == |t.fields| then from <= t.size
    else
      var sf := t.fields[i];
      from <= sf.offset && WellLaid(sf.typ) && LaidFrom(t, i + 1, sf.offset + Size(sf.typ))
  }

  /** The sum of the offsets along a path that meets no pointer, not even at its end. */
  function OffsetAlong(t: Type, path: Path): Option<nat>
    requires Leads(t, path)
  {
    if path == [] then Some(0)
    else if t.Ptr? then None
    else
      var sf := t.fields[path[0]];
      if sf.typ.Ptr? then None
      else
        match OffsetAlong(sf.typ, path[1..])
        case None => None
        case Some(o) => Some(sf.offset + o)
  }

  /** There is none if and only if a field on the path, the last included, is a pointer. */
  lemma {:induction false} OffsetNone(t: Type, path: Path)
    requires t.Struct? && Leads(t, path)
    ensures OffsetAlong(t, path) == None <==> exists n :: 0 < n <= |path| && PointerAt(t, path, n)
  {
    if path != [] {
      var sf := t.fields[path[0]];
      assert PointerAt(t, path, 1) <==> sf.typ.Ptr? by {
        var p := path[..1];
        assert p[1..] == [] && p[0] == path[0];
        assert Leads(sf.typ, p[1..]) && TypeAt(sf.typ, p[1..]) == sf.typ;
        assert Leads(t, p) && TypeAt(t, p) == sf.typ;
      }
      if sf.typ.Ptr? {
      } else if |path| == 1 {
        assert OffsetAlong(sf.typ, path[1..]) == Some(0);
      } else {
        OffsetNone(sf.typ, path[1..]);
        forall n | 0 < n <= |path| ensures n > 1 ==> (PointerAt(t, path, n) <==> PointerAt(sf.typ, path[1..], n - 1)) {
          if n > 1 { PointerDeeper(t, path, n); }
        }
        if n :| 0 < n <= |path[1..]| && PointerAt(sf.typ, path[1..], n) { assert PointerAt(t, path, n + 1); }
        hide PointerAt;
      }
    }
  }

  /** The type of the n-th field on the path is a pointer. */
  ghost predicate PointerAt(t: Type, path: Path, n: nat) {
    n <= |path| && Leads(t, path[..n]) && TypeAt(t, path[..n]).Ptr?
  }

  lemma PointerDeeper(t: Type, path: Path, n: nat)
    requires t.Struct? && Leads(t, path) && 1 < n <= |path|
    ensures PointerAt(t, path, n) <==> PointerAt(t.fields[path[0]].typ, path[1..], n - 1)
  { assert path[..n][1..] == path[1..][..n - 1] && path[..n][0] == path[0]; }

  method ResolveFieldOffset(top: Type, index: Path) returns (r: Option<nat>)
    requires top.Struct? && Leads(top, index)
    ensures r == OffsetAlong(top, index)
  {
    var off: nat, t := 0, top;
    assert index[0..] == index;
    for n := 0 to |index|
      invariant Leads(t, index[n..]) && (n == |index| || !t.Ptr?)
      invariant OffsetAlong(top, index) == Plus(off, OffsetAlong(t, index[n..]))
    {
      assert index[n..][0] == index[n] && index[n..][1..] == index[n + 1..];
      var sf := t.fields[index[n]];
      off := off + sf.offset;
      if sf.typ.Ptr? { return None; }
      t := sf.typ;
    }
    r := Some(off);
  }

  function Plus(a: nat, b: Option<nat>): Option<nat> { if b.None? then None else Some(a + b.value) }

  /** A value of a type at an address. */
  datatype Value = Value(typ: Type, at: nat)

  /** The pointers stored in memory; None is nil. */
  type Memory = nat -> Option<nat>

  function Deref(mem: Memory, v: Value): Option<Value> {
    if !v.typ.Ptr? then Some(v)
    else
      match mem(v.at)
      case None => None
      case Some(to) => Some(Value(v.typ.elem, to))
  }

  /** The value a path leads to, through embedded pointers; None when one of them is nil. */
  function Follow(mem: Memory, v: Value, path: Path): Option<Value>
    requires Leads(v.typ, path)
    decreases |path|
  {
    if path == [] then Some(v)
    else
      match Deref(mem, v)
      case None => None
      case Some(s) =>
        var sf := s.typ.fields[path[0]];
        Follow(mem, Value(sf.typ, s.at + sf.offset), path[1..])
  }

  method FieldByIndex(mem: Memory, v: Value, index: Path) returns (r: Option<Value>)
    requires Leads(v.typ, index)
    ensures r == Follow(mem, v, index)
  {
    var rv := v;
    assert index[0..] == index;
    for i := 0 to |index|
      invariant Leads(rv.typ, index[i..])
      invariant Follow(mem, v, index) == Follow(mem, rv, index[i..])
    {
      assert index[i..][0] == index[i] && index[i..][1..] == index[i + 1..];
      if rv.typ.Ptr? {
        var to := mem(rv.at);
        if to.None? { return None; }
        rv := Value(rv.typ.elem, to.value);
      }
      var sf := rv.typ.fields[index[i]];
      rv := Value(sf.typ, rv.at + sf.offset);
      if i < |index| - 1 && rv.typ.Ptr? {
        assert index[i + 1..] != [];
        var to := mem(rv.at);
        if to.None? { return None; }
        rv := Value(rv.typ.elem, to.value);
      }
    }
    r := Some(rv);
  }

  /** A path with one more field leads to that field of what the path leads to, behind the pointer if
      that is one, at the field's offset; and nowhere if it is nil. */
  lemma {:induction false} FollowMore(mem: Memory, v: Value, path: Path, i: nat)
    requires Leads(v.typ, path + [i])
    ensures Leads(v.typ, path)
    ensures match Follow(mem, v, path)
      case None => Follow(mem, v, path + [i]) == None
      case Some(u) => FieldBehind(mem, u, i, Follow(mem, v, path + [i]))
    decreases |path|
  {
    if path == [] {
      assert path + [i] == [i] && [i][1..] == [];
    } else {
      var sf := Under(v.typ).fields[path[0]];
      assert (path + [i])[1..] == path[1..] + [i] && (path + [i])[0] == path[0];
      match Deref(mem, v)
      case None =>
        hide FieldBehind;
        assert Leads(sf.typ, path[1..]) by { FollowMore(mem, Value(sf.typ, 0), path[1..], i); }
      case Some(s) =>
        hide FieldBehind;
        FollowMore(mem, Value(sf.typ, s.at + sf.offset), path[1..], i);
    }
  }

  ghost predicate FieldBehind(mem: Memory, u: Value, i: nat, r: Option<Value>) {
    var t := if u.typ.Ptr? then u.typ.elem else u.typ;
    && t.Struct? && i < |t.fields|
    && if u.typ.Ptr? && mem(u.at) == None then r == None
       else r == Some(Value(t.fields[i].typ, (if u.typ.Ptr? then mem(u.at).value else u.at) + t.fields[i].offset))
  }

  /** The address of a path without pointers is its offset from the top, in every memory. */
  lemma {:induction false} OffsetFollows(mem: Memory, v: Value, path: Path)
    requires Leads(v.typ, path) && OffsetAlong(v.typ, path).Some?
    ensures Follow(mem, v, path) == Some(Value(TypeAt(v.typ, path), v.at + OffsetAlong(v.typ, path).value))
    decreases |path|
  {
    if path != [] {
      var sf := v.typ.fields[path[0]];
      OffsetFollows(mem, Value(sf.typ, v.at + sf.offset), path[1..]);
    }
  }

  // ----- building -----

  /** A collected field with its offset resolved. */
  function Resolved(t: Type, f: Info): Info
    requires Leads(t, f.index)
  {
    match OffsetAlong(t, f.index)
    case None => f
    case Some(o) => f.(offset := o, addr := true)
  }

  ghost predicate AllLead(t: Type, fs: seq<Info>) {
    forall i | 0 <= i < |fs| :: Leads(t, fs[i].index) && TypeAt(t, fs[i].index) == fs[i].typ && !fs[i].addr
  }

  lemma {:induction false} CollectedLead(t: Type, mapper: string -> string)
    requires t.Struct?
    ensures Collected(t, [], mapper, 0).Ok? ==> AllLead(t, Collected(t, [], mapper, 0).value)
  {
    CollectedRooted(t, [], mapper, 0);
    CollectedUnresolved(t, [], mapper, 0);
    if Collected(t, [], mapper, 0).Ok? {
      var fs := Collected(t, [], mapper, 0).value;
      forall i | 0 <= i < |fs| ensures Leads(t, fs[i].index) && TypeAt(t, fs[i].index) == fs[i].typ {
        assert Rooted(t, [], 0, fs[i]);
        assert fs[i].index[0..] == fs[i].index;
      }
    }
  }

  lemma {:induction false} CollectedUnresolved(t: Type, prefix: Path, mapper: string -> string, i: nat)
    requires t.Struct? && i <= |t.fields|
    ensures var c := Collected(t, prefix, mapper, i); c.Ok? ==> forall f <- c.value :: !f.addr
    decreases t, |t.fields| - i
  {
    if i < |t.fields| && Collected(t, prefix, mapper, i).Ok? {
      CollectedUnresolved(t, prefix, mapper, i + 1);
      var sf := t.fields[i];
      if sf.exported && Flattens(sf) {
        CollectedUnresolved(Flat(sf.typ).value, prefix + [i], mapper, 0);
      }
    }
  }

  /** The fields of a struct's metadata. */
  function Built(t: Type, mapper: string -> string): Result<seq<Info>, Error>
    requires t.Struct?
  {
    match Collected(t, [], mapper, 0)
    case Err(e) => Err(e)
    case Ok(fs) =>
      CollectedLead(t, mapper);
      Ok(seq(|fs|, i requires 0 <= i < |fs| => Resolved(t, fs[i])))
  }

  /** An index depends on nothing but names. */
  lemma {:induction false} IndexByNames(how: By, fs: seq<Info>, gs: seq<Info>, lower: string -> string)
    requires |fs| == |gs| && forall i | 0 <= i < |fs| :: Key(how, fs[i], lower) == Key(how, gs[i], lower)
    ensures Index(how, fs, lower) == Index(how, gs, lower)
  {
    if fs != [] { IndexByNames(how, fs[..|fs| - 1], gs[..|gs| - 1], lower); }
  }

  lemma {:induction false} SameKeys(fs: seq<Info>, gs: seq<Info>, lower: string -> string)
    requires |fs| == |gs|
    requires forall i | 0 <= i < |fs| :: gs[i] == fs[i].(offset := gs[i].offset, addr := gs[i].addr)
    ensures forall how: By :: Index(how, fs, lower) == Index(how, gs, lower)
  {
    forall how: By ensures Index(how, fs, lower) == Index(how, gs, lower) { IndexByNames(how, fs, gs, lower); }
  }

  method ResolveOffsets(ti: TypeInfo, t: Type)
    requires ti.Valid() && t.Struct? && AllLead(t, ti.fields)
    modifies ti
    ensures ti.Valid() && |ti.fields| == |old(ti.fields)|
    ensures forall j | 0 <= j < |ti.fields| ::
      Leads(t, old(ti.fields)[j].index) && ti.fields[j] == Resolved(t, old(ti.fields)[j])
  {
    ghost var fs := ti.fields;
    for i := 0 to |ti.fields|
      invariant |ti.fields| == |fs|
      invariant forall j | 0 <= j < i :: ti.fields[j] == Resolved(t, fs[j])
      invariant forall j | i <= j < |fs| :: ti.fields[j] == fs[j]
      invariant ti.byColumn == old(ti.byColumn) && ti.byMapped == old(ti.byMapped)
      invariant ti.byFieldName == old(ti.byFieldName) && ti.byName == old(ti.byName)
    {
      hide Index, OffsetAlong, Leads, TypeAt;
      var off := ResolveFieldOffset(t, ti.fields[i].index);
      if off.Some? { ti.fields := ti.fields[i := ti.fields[i].(offset := off.value, addr := true)]; }
    }
    SameKeys(fs, ti.fields, ti.lower);
    hide Index;
  }

  method BuildTypeInfo(t: Type, mapper: string -> string, lower: string -> string) returns (r: Result<TypeInfo, Error>)
    requires t.Struct?
    ensures r.Ok? <==> Built(t, mapper).Ok?
    ensures r.Err? ==> r.error == Built(t, mapper).error
    ensures r.Ok? ==> fresh(r.value) && r.value.Valid() && r.value.lower == lower
    ensures r.Ok? ==> r.value.fields == Built(t, mapper).value
  {
    var ti := new TypeInfo(lower);
    var error := ti.CollectFields(t, [], mapper);
    if error.Some? { return Err(error.value); }
    assert [] + Collected(t, [], mapper, 0).value == Collected(t, [], mapper, 0).value;
    hide Index, Collected;
    CollectedLead(t, mapper);
    ResolveOffsets(ti, t);
    r := Ok(ti);
  }

  /** A field's metadata as built for a struct. */
  ghost predicate InfoOf(t: Type, f: Info) {
    && Leads(t, f.index) && TypeAt(t, f.index) == f.typ
    && f.addr == OffsetAlong(t, f.index).Some?
    && (f.addr ==> f.offset == OffsetAlong(t, f.index).value)
  }

  lemma {:induction false} BuiltInfo(t: Type, mapper: string -> string)
    requires t.Struct?
    ensures Built(t, mapper).Ok? ==> forall f <- Built(t, mapper).value :: InfoOf(t, f)
  {
    CollectedLead(t, mapper);
  }

  /** The address by offset, or the walk along the path: the same value either way. */
  method FieldValue(mem: Memory, v: Value, f: Info) returns (r: Option<Value>)
    requires InfoOf(v.typ, f)
    ensures r == Follow(mem, v, f.index)
  {
    if f.addr {
      OffsetFollows(mem, v, f.index);
      r := Some(Value(f.typ, v.at + f.offset));
    } else {
      r := FieldByIndex(mem, v, f.index);
    }
  }

  // ----- fields do not overlap -----

  lemma {:induction false} LaidAt(t: Type, i: nat, from: nat, k: nat)
    requires t.Struct? && i <= k < |t.fields| && LaidFrom(t, i, from)
    ensures from <= t.fields[k].offset && WellLaid(t.fields[k].typ)
    ensures LaidFrom(t, k + 1, t.fields[k].offset + Size(t.fields[k].typ))
    decreases k - i
  {
    if i < k { LaidAt(t, i + 1, t.fields[i].offset + Size(t.fields[i].typ), k); }
  }

  lemma {:induction false} LaidEnds(t: Type, i: nat, from: nat)
    requires t.Struct? && i <= |t.fields| && LaidFrom(t, i, from)
    ensures from <= t.size
    decreases |t.fields| - i
  {
    if i < |t.fields| { LaidEnds(t, i + 1, t.fields[i].offset + Size(t.fields[i].typ)); }
  }

  lemma {:induction false} Inside(t: Type, path: Path)
    requires WellLaid(t) && Leads(t, path) && OffsetAlong(t, path).Some?
    ensures OffsetAlong(t, path).value + Size(TypeAt(t, path)) <= Size(t)
    decreases |path|
  {
    if path != [] {
      var sf := t.fields[path[0]];
      LaidAt(t, 0, 0, path[0]);
      LaidEnds(t, path[0] + 1, sf.offset + Size(sf.typ));
      Inside(sf.typ, path[1..]);
    }
  }

  lemma {:induction false} NoOverlap(t: Type, p: Path, q: Path)
    requires WellLaid(t) && Leads(t, p) && Leads(t, q) && Apart(p, q)
    requires OffsetAlong(t, p).Some? && OffsetAlong(t, q).Some?
    ensures var a, b := OffsetAlong(t, p).value, OffsetAlong(t, q).value;
      a + Size(TypeAt(t, p)) <= b || b + Size(TypeAt(t, q)) <= a
    decreases |p|
  {
    var sf, sg := t.fields[p[0]], t.fields[q[0]];
    LaidAt(t, 0, 0, p[0]);
    LaidAt(t, 0, 0, q[0]);
    if p[0] == q[0] {
      assert p == [p[0]] + p[1..] && q == [q[0]] + q[1..];
      NoOverlap(sf.typ, p[1..], q[1..]);
    } else {
      Inside(sf.typ, p[1..]);
      Inside(sg.typ, q[1..]);
      if p[0] < q[0] {
        LaidAt(t, p[0] + 1, sf.offset + Size(sf.typ), q[0]);
      } else {
        LaidAt(t, q[0] + 1, sg.offset + Size(sg.typ), p[0]);
      }
    }
  }

  /** Fields addressed by offset lie inside the struct, and no two of them overlap. */
  lemma {:induction false} FieldsDisjoint(t: Type, mapper: string -> string, a: nat, b: nat)
    requires t.Struct? && WellLaid(t) && Built(t, mapper).Ok? && a < b < |Built(t, mapper).value|
    requires Built(t, mapper).value[a].addr && Built(t, mapper).value[b].addr
    ensures var f, g := Built(t, mapper).value[a], Built(t, mapper).value[b];
      && f.offset + Size(f.typ) <= t.size && g.offset + Size(g.typ) <= t.size
      && (f.offset + Size(f.typ) <= g.offset || g.offset + Size(g.typ) <= f.offset)
  {
    var f, g := Built(t, mapper).value[a], Built(t, mapper).value[b];
    BuiltInfo(t, mapper);
    CollectedApart(t, [], mapper, 0);
    assert InfoOf(t, f) && InfoOf(t, g);
    hide Collected, Built;
    Inside(t, f.index);
    Inside(t, g.index);
    NoOverlap(t, f.index, g.index);
  }
}
