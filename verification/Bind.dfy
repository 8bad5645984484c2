/** bindNamed: named placeholders become `?`, their values positional arguments. */
module Bind {
  import opened Wrappers
  import opened Lexer
  import opened Rewrite
  import opened Values

  datatype Bound = Bound(sql: string, args: seq<Value>, bindArgs: seq<Value>)

  /** What one placeholder contributes: its final arguments, one per `?` written for it, and
      the unexpanded argument that goes into the cache key. */
  datatype Part = Part(args: seq<Value>, bindArg: Value)

  /** `n` question marks separated by commas. */
  function Marks(n: nat): Items
    requires n > 0
  {
    if n == 1 then Snoc(Nil, Pos) else Snoc(Snoc(Marks(n - 1), Txt(',')), Pos)
  }

  predicate Filled(parts: seq<Part>) { forall p <- parts :: p.args != [] }

  function MarksOf(parts: seq<Part>): seq<Items>
    requires Filled(parts)
  {
    seq(|parts|, i requires 0 <= i < |parts| => Marks(|parts[i].args|))
  }

  /** How many marks each name becomes. */
  function MarkCounts(parts: seq<Part>): (ns: seq<nat>)
    requires Filled(parts)
    ensures |ns| == |parts| && forall i | 0 <= i < |ns| :: ns[i] > 0 && MarksOf(parts)[i] == Marks(ns[i])
  {
    seq(|parts|, i requires 0 <= i < |parts| => |parts[i].args|)
  }

  function ArgsOf(parts: seq<Part>): seq<Value> {
    if parts == [] then [] else ArgsOf(parts[..|parts| - 1]) + parts[|parts| - 1].args
  }

  function BindArgsOf(parts: seq<Part>): seq<Value> {
    seq(|parts|, i requires 0 <= i < |parts| => parts[i].bindArg)
  }

  /** positionalArgs */
  function Positionals(arg: Arg): seq<Value> {
    match arg
    case NoArg => []
    case Anys(vs) => vs
    case One(v) => [v]
    case ValuerSlice(n, _) => [Scalar(n)]
    case _ => [Raw(arg)]
  }

  /** One named placeholder of a struct or map argument. */
  function BindOne(obj: Object, ti: Option<StructType>, name: string, cfg: Config): (r: Result<Part, Error>)
    ensures r.Ok? ==> r.value.args != []
  {
    match LookupNamed(obj, ti, name)
    case Err(e) => Err(e)
    case Ok(l) =>
      if l.omitEmpty && IsZero(l.v) then Ok(Part([Null], Null))
      else if cfg.sliceExpansion && IsExpandable(l.v) then
        match Expand(Deref(l.v).elems, name)
        case Err(e) => Err(e)
        case Ok(items) =>
          NormalizeLength(Deref(l.v).elems, |Deref(l.v).elems|);
          Ok(Part(items, l.v))
      else
        match Normalize(l.v, l.json)
        case Err(e) => Err(e)
        case Ok(v) => Ok(Part([v], v))
  }

  /** The contributions of the first `n` placeholders, or the first error. */
  function BindFirst(obj: Object, ti: Option<StructType>, ps: seq<Place>, n: nat, cfg: Config):
      (r: Result<seq<Part>, Error>)
    requires n <= |ps|
    ensures r.Ok? ==> |r.value| == n && Filled(r.value)
  {
    if n == 0 then Ok([]) else
      match BindFirst(obj, ti, ps, n - 1, cfg)
      case Err(e) => Err(e)
      case Ok(parts) =>
        match BindOne(obj, ti, ps[n - 1].name, cfg)
        case Err(e) => Err(e)
        case Ok(p) => Ok(parts + [p])
  }

  /** What the named placeholders of a query contribute, for any argument. */
  function Parts(named: seq<Place>, arg: Arg, cfg: Config): (r: Result<seq<Part>, Error>)
    ensures r.Ok? ==> |r.value| == |named| && Filled(r.value)
  {
    match arg
    case NoArg => Err(UnsupportedType)
    case NilPointer => Err(UnsupportedType)
    case Objects(_) => Err(UnsupportedType)
    case One(v) =>
      if !v.Scalar? || |named| != 1 then Err(UnsupportedType)
      else (match Normalize(v, false) case Err(e) => Err(e) case Ok(nv) => Ok([Part([nv], nv)]))
    case ValuerSlice(n, _) => if |named| != 1 then Err(UnsupportedType) else Ok([Part([Scalar(n)], Scalar(n))])
    case Anys(vs) => if cfg.sliceExpansion then DirectSlice(named, vs, arg) else Err(UnsupportedType)
    case Slice(vs) => if cfg.sliceExpansion then DirectSlice(named, vs, arg) else Err(UnsupportedType)
    case Obj(obj) =>
      match TypeInfo(obj)
      case Err(e) => Err(e)
      case Ok(ti) => BindFirst(obj, ti, named, |named|, cfg)
  }

  function DirectSlice(named: seq<Place>, vs: seq<Value>, arg: Arg): (r: Result<seq<Part>, Error>)
    ensures r.Ok? ==> |r.value| == |named| && Filled(r.value)
  {
    if |named| != 1 then Err(UnsupportedType)
    else match Expand(vs, named[0].name)
      case Err(e) => Err(e)
      case Ok(items) => NormalizeLength(vs, |vs|); Ok([Part(items, Raw(arg))])
  }

  /** The result of bindNamed. */
  function BindSpec(query: string, arg: Arg, cfg: Config): Result<Bound, Error> {
    var named := Pick(Named, Places(query));
    if named == [] then Ok(Bound(query, Positionals(arg), Positionals(arg)))
    else match Parts(named, arg, cfg)
      case Err(e) => Err(e)
      case Ok(parts) =>
        Ok(Bound(Splice(query, named, Texts(MarksOf(parts))), ArgsOf(parts), BindArgsOf(parts)))
  }

  function MarkTexts(parts: seq<Part>): seq<string>
    requires Filled(parts)
  {
    Texts(MarksOf(parts))
  }

  lemma PartSnoc(parts: seq<Part>, p: Part)
    requires Filled(parts) && p.args != []
    ensures Filled(parts + [p])
    ensures MarkTexts(parts + [p]) == MarkTexts(parts) + [Render(Marks(|p.args|))]
    ensures ArgsOf(parts + [p]) == ArgsOf(parts) + p.args
    ensures BindArgsOf(parts + [p]) == BindArgsOf(parts) + [p.bindArg]
  {}

  lemma {:induction false} BindFails(obj: Object, ti: Option<StructType>, ps: seq<Place>, i: nat, n: nat, cfg: Config)
    requires i < n <= |ps| && BindFirst(obj, ti, ps, i, cfg).Ok?
    requires BindOne(obj, ti, ps[i].name, cfg).Err?
    ensures BindFirst(obj, ti, ps, n, cfg) == Err(BindOne(obj, ti, ps[i].name, cfg).error)
  {
    if i + 1 < n { BindFails(obj, ti, ps, i, n - 1, cfg); }
  }

  method WriteMarks(n: nat) returns (b: string)
    requires n > 0
    ensures b == Render(Marks(n))
  {
    b := "";
    for i := 0 to n
      invariant b == if i == 0 then "" else Render(Marks(i))
    {
      if i > 0 {
        b := b + ",";
      }
      b := b + "?";
    }
  }

  method BindNamed(query: string, arg: Arg, cfg: Config) returns (r: Result<Bound, Error>)
    ensures r == BindSpec(query, arg, cfg)
  {
    var places := ParsePlaceholders(query);
    var named := NamedPlaces(places);
    if |named| == 0 {
      return Ok(Bound(query, Positionals(arg), Positionals(arg)));
    }
    match arg {
      case One(v) =>
        if !v.Scalar? || |named| != 1 { return Err(UnsupportedType); }
        var nv := Normalize(v, false); // A scalar always normalises.
        r := ReplaceOnly(query, named, Part([nv.value], nv.value));
      case ValuerSlice(n, _) =>
        if |named| != 1 { return Err(UnsupportedType); }
        r := ReplaceOnly(query, named, Part([Scalar(n)], Scalar(n)));
      case Anys(vs) => r := BindSlice(query, named, vs, arg, cfg);
      case Slice(vs) => r := BindSlice(query, named, vs, arg, cfg);
      case Obj(obj) => r := BindObject(query, named, obj, cfg);
      case _ => r := Err(UnsupportedType);
    }
  }

  lemma OnlyPart(p: Part, marks: string)
    requires p.args != [] && marks == Render(Marks(|p.args|))
    ensures MarkTexts([p]) == [marks] && ArgsOf([p]) == p.args && BindArgsOf([p]) == [p.bindArg]
  {}

  lemma {:induction false} OnlyPlace(query: string, named: seq<Place>, marks: string)
    requires |named| == 1 && named == Pick(Named, Places(query))
    ensures 0 <= named[0].pos <= named[0].end <= |query|
    ensures query[..named[0].pos] + marks + query[named[0].end..] == Splice(query, named, [marks])
  {
    PlacesOrdered(Named, query);
    OrderedAt(named, |query|, 0);
    BuildTurn(query, named, [], marks);
    BuildEnd(query, named, [marks]);
    assert [] + [marks] == [marks];
    var head := query[..named[0].pos];
    assert "" + query[0..named[0].pos] == head;
    assert Spliced(query, named, [marks], 1) == head + marks;
  }

  /** A scalar or an expanded slice at the only named placeholder. */
  method ReplaceOnly(query: string, named: seq<Place>, p: Part) returns (r: Result<Bound, Error>)
    requires |named| == 1 && named == Pick(Named, Places(query)) && p.args != []
    ensures r == Ok(Bound(Splice(query, named, MarkTexts([p])), ArgsOf([p]), BindArgsOf([p])))
  {
    var at := named[0];
    var marks := WriteMarks(|p.args|);
    OnlyPart(p, marks);
    OnlyPlace(query, named, marks);
    r := Ok(Bound(query[..at.pos] + marks + query[at.end..], p.args, [p.bindArg]));
  }

  method BindSlice(query: string, named: seq<Place>, vs: seq<Value>, arg: Arg, cfg: Config)
      returns (r: Result<Bound, Error>)
    requires named == Pick(Named, Places(query)) && named != []
    requires arg == Anys(vs) || arg == Slice(vs)
    ensures r == BindSpec(query, arg, cfg)
  {
    if !cfg.sliceExpansion || |named| != 1 { return Err(UnsupportedType); }
    var items := ExpandSlice(vs, named[0].name);
    if items.Err? { return Err(items.error); }
    NormalizeLength(vs, |vs|);
    r := ReplaceOnly(query, named, Part(items.value, Raw(arg)));
  }

  /** What the loop returns. */
  function LoopSpec(query: string, named: seq<Place>, obj: Object, ti: Option<StructType>, cfg: Config)
      : Result<Bound, Error>
  {
    match BindFirst(obj, ti, named, |named|, cfg)
    case Err(e) => Err(e)
    case Ok(parts) => Ok(Bound(Splice(query, named, MarkTexts(parts)), ArgsOf(parts), BindArgsOf(parts)))
  }

  lemma {:induction false} ObjectSpec(query: string, named: seq<Place>, obj: Object, cfg: Config)
    requires named == Pick(Named, Places(query)) && named != []
    ensures Ordered(named, |query|)
    ensures BindSpec(query, Obj(obj), cfg) ==
      var ti := TypeInfo(obj);
      if ti.Err? then Err(ti.error) else LoopSpec(query, named, obj, ti.value, cfg)
  {
    PlacesOrdered(Named, query);
    hide Places, Pick, BindFirst, Splice, ArgsOf, BindArgsOf, Ordered;
  }

  method BindObject(query: string, named: seq<Place>, obj: Object, cfg: Config) returns (r: Result<Bound, Error>)
    requires named == Pick(Named, Places(query)) && named != []
    ensures r == BindSpec(query, Obj(obj), cfg)
  {
    hide *;
    ObjectSpec(query, named, obj, cfg);
    var ti := TypeInfo(obj);
    if ti.Err? { return Err(ti.error); }
    r := BindLoop(query, named, obj, ti.value, cfg);
  }

  /** What the loop has written and collected before the j-th placeholder. */
  ghost predicate Written(query: string, named: seq<Place>, parts: seq<Part>, b: string,
                          args: seq<Value>, bindArgs: seq<Value>)
  {
    && |parts| <= |named| && Filled(parts) && |MarkTexts(parts)| == |parts|
    && b == Spliced(query, named, MarkTexts(parts), |parts|)
    && args == ArgsOf(parts) && bindArgs == BindArgsOf(parts)
  }

  lemma {:induction false} WrittenTurn(query: string, named: seq<Place>, parts: seq<Part>, part: Part, b: string,
                    args: seq<Value>, bindArgs: seq<Value>)
    requires Ordered(named, |query|) && |parts| < |named| && part.args != []
    requires Written(query, named, parts, b, args, bindArgs)
    ensures var p := named[|parts|];
      && EndOf(named, |parts|) <= p.pos <= |query| && EndOf(named, |parts| + 1) == p.end
      && Written(query, named, parts + [part], b + query[EndOf(named, |parts|)..p.pos] + Render(Marks(|part.args|)),
          args + part.args, bindArgs + [part.bindArg])
  {
    hide Ordered, MarkTexts, ArgsOf, BindArgsOf, Spliced, EndOf, Render, Marks, Filled;
    PartSnoc(parts, part);
    BuildTurn(query, named, MarkTexts(parts), Render(Marks(|part.args|)));
  }

  lemma {:induction false} WrittenEnd(query: string, named: seq<Place>, parts: seq<Part>, b: string, args: seq<Value>,
                                      bindArgs: seq<Value>)
    requires Ordered(named, |query|) && |parts| == |named|
    requires Written(query, named, parts, b, args, bindArgs)
    ensures EndOf(named, |named|) <= |query|
    ensures b + query[EndOf(named, |named|)..] == Splice(query, named, MarkTexts(parts))
    ensures args == ArgsOf(parts) && bindArgs == BindArgsOf(parts)
  {
    hide Ordered, MarkTexts, ArgsOf, BindArgsOf, Spliced, EndOf, Filled, Splice;
    BuildEnd(query, named, MarkTexts(parts));
  }

  lemma WrittenStart(query: string, named: seq<Place>)
    ensures Written(query, named, [], "", [], []) && EndOf(named, 0) == 0
  {}

  /** The loop over the named placeholders of a struct or map argument. */
  method BindLoop(query: string, named: seq<Place>, obj: Object, ti: Option<StructType>, cfg: Config)
      returns (r: Result<Bound, Error>)
    requires named == Pick(Named, Places(query)) && Ordered(named, |query|)
    ensures r == LoopSpec(query, named, obj, ti, cfg)
  {
    var b, args, bindArgs, last := "", [], [], 0;
    ghost var parts: seq<Part> := [];
    PlacesOrdered(Named, query);
    WrittenStart(query, named);
    hide MarkTexts, BindOne, Places, ArgsOf, BindArgsOf, Marks, Spliced, Splice;
    hide Ordered, EndOf, Render, Written, Filled;
    for j := 0 to |named|
      invariant BindFirst(obj, ti, named, j, cfg) == Ok(parts) && |parts| == j
      invariant Written(query, named, parts, b, args, bindArgs) && last == EndOf(named, j)
    {
      var p := named[j];
      var part := BindPlace(obj, ti, p.name, cfg);
      if part.Err? {
        BindFails(obj, ti, named, j, |named|, cfg);
        return Err(part.error);
      }
      WrittenTurn(query, named, parts, part.value, b, args, bindArgs);
      b := b + query[last..p.pos];
      last := p.end;
      var marks := WriteMarks(|part.value.args|);
      b := b + marks;
      args := args + part.value.args;
      bindArgs := bindArgs + [part.value.bindArg];
      parts := parts + [part.value];
    }
    WrittenEnd(query, named, parts, b, args, bindArgs);
    b := b + query[last..];
    r := Ok(Bound(b, args, bindArgs));
  }

  method BindPlace(obj: Object, ti: Option<StructType>, name: string, cfg: Config) returns (r: Result<Part, Error>)
    ensures r == BindOne(obj, ti, name, cfg)
  {
    var found := LookupNamed(obj, ti, name);
    if found.Err? { return Err(found.error); }
    var l := found.value;
    if l.omitEmpty && IsZero(l.v) { return Ok(Part([Null], Null)); }
    if cfg.sliceExpansion && IsExpandable(l.v) {
      var items := ExpandSlice(Deref(l.v).elems, name);
      if items.Err? { return Err(items.error); }
      NormalizeLength(Deref(l.v).elems, |Deref(l.v).elems|);
      return Ok(Part(items.value, l.v));
    }
    var nv := Normalize(l.v, l.json);
    if nv.Err? { return Err(nv.error); }
    r := Ok(Part([nv.value], nv.value));
  }

  // ----- the bound text lexes to exactly the placeholders its arguments fill -----

  lemma {:induction false} MarksWalk(n: nat, st: State)
    requires n > 0 && InCode(st)
    ensures Walk(st, Marks(n)) == Some(Code)
  {
    if n > 1 { MarksWalk(n - 1, st); }
  }

  lemma {:induction false} MarksSafe(n: nat)
    requires n > 0
    ensures Safe(Marks(n))
  {
    forall st | InCode(st) ensures Walk(st, Marks(n)) == Some(Code) { MarksWalk(n, st); }
  }

  lemma {:induction false} MarksCount(n: nat)
    requires n > 0
    ensures Count(Named, Marks(n)) == 0 && Count(Positional, Marks(n)) == n
    ensures |Render(Marks(n))| == 2 * n - 1
  {
    if n > 1 { MarksCount(n - 1); }
  }

  lemma {:induction false} MarksOfSafe(parts: seq<Part>)
    requires Filled(parts)
    ensures AllSafe(MarksOf(parts))
  {
    forall r | r in MarksOf(parts) ensures Safe(r) {
      var i :| 0 <= i < |parts| && r == MarksOf(parts)[i];
      MarksSafe(|parts[i].args|);
    }
  }

  /** After binding, no name is left, and there is one `?` per argument besides those the
      query already had. */
  lemma {:induction false} SubstCounts(xs: Items, parts: seq<Part>)
    requires Filled(parts) && Count(Named, xs) <= |parts|
    ensures var out := Subst(Named, xs, MarksOf(parts));
      && Count(Named, out) == 0
      && Count(Positional, out) == Count(Positional, xs) + |ArgsOf(parts[..Count(Named, xs)])|
  {
    if xs.Snoc? {
      var ys, n := xs.init, Count(Named, xs.init);
      SubstCounts(ys, parts);
      if xs.last.Nam? {
        forall k: Kind { CountConcat(k, Subst(Named, ys, MarksOf(parts)), MarksOf(parts)[n]); }
        MarksCount(|parts[n].args|);
        assert parts[..n + 1] == parts[..n] + [parts[n]];
        PartSnoc(parts[..n], parts[n]);
      }
    }
  }

  /** Where the placeholders of the bound text stand, computed from the places of the query
      alone: a name of `k` arguments becomes `k` marks two bytes apart, and everything behind
      it moves by the change in length. */
  datatype Moved = Moved(at: seq<int>, shift: int, named: nat)

  function EveryOther(from: int, k: nat): seq<int> {
    if k == 0 then [] else EveryOther(from, k - 1) + [from + 2 * (k - 1)]
  }

  function MoveOne(m: Moved, p: Place, parts: seq<Part>): Moved {
    if p.name == "" then m.(at := m.at + [p.pos + m.shift])
    else
      var k := if m.named < |parts| then |parts[m.named].args| else 0;
      Moved(m.at + EveryOther(p.pos + m.shift, k), m.shift + (2 * k - 1) - (p.end - p.pos), m.named + 1)
  }

  function Move(ps: seq<Place>, parts: seq<Part>): Moved {
    if ps == [] then Moved([], 0, 0) else MoveOne(Move(ps[..|ps| - 1], parts), ps[|ps| - 1], parts)
  }

  /** The places are all `?`, at the given positions. */
  ghost predicate MarkedAt(ps: seq<Place>, at: seq<int>) {
    && |ps| == |at|
    && forall i | 0 <= i < |ps| :: ps[i].name == "" && ps[i].pos == at[i] && ps[i].end == at[i] + 1
  }

  lemma {:induction false} MarkPlaces(xs: Items, n: nat, at: seq<int>)
    requires n > 0 && MarkedAt(PlacesOf(xs), at)
    ensures MarkedAt(PlacesOf(Concat(xs, Marks(n))), at + EveryOther(|Render(xs)|, n))
  {
    hide *;
    if n == 1 {
      OneMark(xs, at);
    } else {
      var from := |Render(xs)|;
      MarkPlaces(xs, n - 1, at);
      MarkStep(xs, n, at + EveryOther(from, n - 1));
      Assoc(at, EveryOther(from, n - 1), [from + 2 * (n - 1)]);
      EveryOtherMore(from, n);
    }
  }

  lemma {:induction false} OneMark(xs: Items, at: seq<int>)
    requires MarkedAt(PlacesOf(xs), at)
    ensures MarkedAt(PlacesOf(Concat(xs, Marks(1))), at + EveryOther(|Render(xs)|, 1))
  {
    assert Concat(xs, Marks(1)) == Snoc(xs, Pos);
    assert EveryOther(|Render(xs)|, 0) == [];
    hide Render;
    MarkMore(xs, at);
  }

  lemma Assoc(a: seq<int>, b: seq<int>, c: seq<int>)
    ensures (a + b) + c == a + (b + c)
  {}

  lemma EveryOtherMore(from: int, k: nat)
    requires k > 0
    ensures EveryOther(from, k) == EveryOther(from, k - 1) + [from + 2 * (k - 1)]
  {}

  lemma {:induction false} MarkStep(xs: Items, n: nat, at: seq<int>)
    requires n > 1 && MarkedAt(PlacesOf(Concat(xs, Marks(n - 1))), at)
    ensures MarkedAt(PlacesOf(Concat(xs, Marks(n))), at + [|Render(xs)| + 2 * (n - 1)])
  {
    hide *;
    var ys := Concat(xs, Marks(n - 1));
    MarksMore(xs, n);
    MarksCount(n - 1);
    RenderConcat(xs, Marks(n - 1));
    CommaMore(ys, at);
    MarkMore(Snoc(ys, Txt(',')), at);
  }

  lemma MarksMore(xs: Items, n: nat)
    requires n > 1
    ensures Concat(xs, Marks(n)) == Snoc(Snoc(Concat(xs, Marks(n - 1)), Txt(',')), Pos)
  {}

  lemma MarkMore(ys: Items, at: seq<int>)
    requires MarkedAt(PlacesOf(ys), at)
    ensures MarkedAt(PlacesOf(Snoc(ys, Pos)), at + [|Render(ys)|])
  { hide Render; }

  lemma CommaMore(ys: Items, at: seq<int>)
    requires MarkedAt(PlacesOf(ys), at)
    ensures MarkedAt(PlacesOf(Snoc(ys, Txt(','))), at) && |Render(Snoc(ys, Txt(',')))| == |Render(ys)| + 1
  {
    assert PlacesOf(Snoc(ys, Txt(','))) == PlacesOf(ys);
  }

  lemma {:induction false} MoveSnoc(ps: seq<Place>, x: Item, pos: nat, parts: seq<Part>)
    ensures Move(ps + PlaceOf(x, pos), parts) ==
      if x.Txt? then Move(ps, parts) else MoveOne(Move(ps, parts), PlaceOf(x, pos)[0], parts)
  {
    if x.Txt? {
      assert ps + PlaceOf(x, pos) == ps;
    } else {
      assert (ps + PlaceOf(x, pos))[..|ps|] == ps;
    }
  }

  ghost predicate MovedRight(xs: Items, parts: seq<Part>)
    requires Filled(parts) && Count(Named, xs) <= |parts|
  {
    var out, m := Subst(Named, xs, MarksOf(parts)), Move(PlacesOf(xs), parts);
    MarkedAt(PlacesOf(out), m.at) && |Render(out)| == |Render(xs)| + m.shift && m.named == Count(Named, xs)
  }

  lemma {:induction false} MoveItem(ys: Items, x: Item, parts: seq<Part>)
    requires Filled(parts) && Count(Named, Snoc(ys, x)) <= |parts| && MovedRight(ys, parts)
    requires x.Nam? ==> x.name != ""
    ensures MovedRight(Snoc(ys, x), parts)
  {
    hide Move, Marks, EveryOther;
    MoveSnoc(PlacesOf(ys), x, |Render(ys)|, parts);
    if x.Nam? { MoveName(ys, parts, Move(PlacesOf(ys), parts).at); }
  }

  lemma {:induction false} MoveName(ys: Items, parts: seq<Part>, at: seq<int>)
    requires Filled(parts) && Count(Named, ys) < |parts| && MarkedAt(PlacesOf(Subst(Named, ys, MarksOf(parts))), at)
    ensures var out, n := Subst(Named, ys, MarksOf(parts)), |parts[Count(Named, ys)].args|;
      var more := Concat(out, MarksOf(parts)[Count(Named, ys)]);
      && MarkedAt(PlacesOf(more), at + EveryOther(|Render(out)|, n))
      && |Render(more)| == |Render(out)| + 2 * n - 1
  {
    var out, n := Subst(Named, ys, MarksOf(parts)), |parts[Count(Named, ys)].args|;
    hide Subst, Marks, EveryOther, Render, PlacesOf;
    MarkPlaces(out, n, at);
    MarksCount(n);
    RenderConcat(out, Marks(n));
  }

  lemma {:induction false} SubstMoves(xs: Items, parts: seq<Part>)
    requires Walk(Code, xs).Some? && Filled(parts) && Count(Named, xs) <= |parts|
    ensures MovedRight(xs, parts)
  {
    if xs.Snoc? {
      SubstMoves(xs.init, parts);
      MoveItem(xs.init, xs.last, parts);
    }
  }

  /** Lexing commutes with binding, for every query and argument: the bound text lexes to the
      query's own items with each name replaced by its marks, so that no name is left, every
      argument has its `?`, and literals, comments and casts are untouched. */
  lemma {:induction false} BindLexes(query: string, arg: Arg, cfg: Config)
    requires BindSpec(query, arg, cfg).Ok?
    requires Pick(Named, Places(query)) != []
    ensures var b, xs := BindSpec(query, arg, cfg).value, Lex(query).items;
      var parts := Parts(Pick(Named, Places(query)), arg, cfg).value;
      && |parts| == Count(Named, xs)
      && Lex(b.sql).items == Subst(Named, xs, MarksOf(parts))
      && Count(Named, Lex(b.sql).items) == 0
      && Count(Positional, Lex(b.sql).items) == |b.args| + Count(Positional, xs)
      && MarkedAt(Places(b.sql), Move(Places(query), parts).at)
  {
    var xs := Lex(query).items;
    var parts := Parts(Pick(Named, Places(query)), arg, cfg).value;
    PickCount(Named, query);
    LexIsWalk(query, |query|);
    MarksOfSafe(parts);
    SpliceIsSubst(Named, query, MarksOf(parts));
    LexSubst(Named, xs, MarksOf(parts));
    SubstCounts(xs, parts);
    assert parts[..|parts|] == parts;
    SubstMoves(xs, parts);
  }

  // ----- which value fills which mark -----

  /** The type whose metadata a single struct is bound by. */
  function OwnType(obj: Object): Option<StructType> { if obj.StructObj? then Some(obj.typ) else None }

  /** What an object supplies under a name: the arguments of its marks, and the key argument. */
  ghost predicate Supplies(obj: Object, name: string, cfg: Config, vals: seq<Value>, key: Value) {
    exists x, json, omitEmpty ::
      Field(obj, OwnType(obj), name, x, json, omitEmpty) && Contributes(x, json, omitEmpty, cfg, vals, key)
  }

  ghost predicate Supplied(obj: Object, name: string, cfg: Config) {
    exists vals, key :: Supplies(obj, name, cfg, vals, key)
  }

  /** NULL for a zero value under omitempty; the elements of a slice, when these are expanded; else
      the one value. */
  ghost predicate Contributes(x: Value, json: bool, omitEmpty: bool, cfg: Config, vals: seq<Value>, key: Value) {
    if omitEmpty && Zero(x) then vals == [Null] && key == Null
    else if cfg.sliceExpansion && exists elems :: SliceOf(x, elems)
    then key == x && forall elems | SliceOf(x, elems) :: Elementwise(elems, vals)
    else vals == [key] && Becomes(x, json, key)
  }

  /** Why a name is not bound: there is no such field or entry, a map without string keys, a slice
      to expand that is empty, or a value that cannot be an argument. */
  ghost predicate Fails(obj: Object, name: string, cfg: Config, e: Error) {
    || (Missing(obj, OwnType(obj), name) && e == PlaceholderNotFound(name))
    || (obj.OddKeyMap? && e == UnsupportedType)
    || (obj.StructObj? && e == IndexPanic)
    || exists x, json, omitEmpty ::
        Field(obj, OwnType(obj), name, x, json, omitEmpty) && Refuses(x, json, omitEmpty, name, cfg, e)
  }

  ghost predicate Refuses(x: Value, json: bool, omitEmpty: bool, name: string, cfg: Config, e: Error) {
    && !(omitEmpty && Zero(x))
    && if cfg.sliceExpansion && SliceOf(x, []) then e == SliceExpansion(name)
       else e == UnsupportedType && forall vals, key :: !Contributes(x, json, omitEmpty, cfg, vals, key)
  }

  /** What BindOne makes of a value that was found. */
  function Made(x: Value, json: bool, omitEmpty: bool, name: string, cfg: Config): Result<Part, Error> {
    if omitEmpty && IsZero(x) then Ok(Part([Null], Null))
    else if cfg.sliceExpansion && IsExpandable(x) then
      match Expand(Deref(x).elems, name) case Err(e) => Err(e) case Ok(items) => Ok(Part(items, x))
    else
      match Normalize(x, json) case Err(e) => Err(e) case Ok(v) => Ok(Part([v], v))
  }

  lemma {:induction false} MadeIs(x: Value, json: bool, omitEmpty: bool, name: string, cfg: Config)
    ensures var made := Made(x, json, omitEmpty, name, cfg);
      && (made.Ok? ==> Contributes(x, json, omitEmpty, cfg, made.value.args, made.value.bindArg))
      && (made.Err? ==> Refuses(x, json, omitEmpty, name, cfg, made.error))
      && forall vals, key | Contributes(x, json, omitEmpty, cfg, vals, key) :: made == Ok(Part(vals, key))
  {
    ZeroIs(x);
    ExpandableIs(x);
    if !(omitEmpty && Zero(x)) {
      if cfg.sliceExpansion && IsExpandable(x) {
        WidelyMade(x, json, omitEmpty, name, cfg);
      } else {
        PlainlyMade(x, json, omitEmpty, name, cfg);
      }
    }
    hide IsZero, Zero, IsExpandable, Normalize, Expand, Becomes, Elementwise, SliceOf, Deref;
  }

  lemma {:induction false} PlainlyMade(x: Value, json: bool, omitEmpty: bool, name: string, cfg: Config)
    requires !(omitEmpty && Zero(x)) && !(cfg.sliceExpansion && IsExpandable(x))
    ensures var made := Made(x, json, omitEmpty, name, cfg);
      && (made.Ok? ==> Contributes(x, json, omitEmpty, cfg, made.value.args, made.value.bindArg))
      && (made.Err? ==> Refuses(x, json, omitEmpty, name, cfg, made.error))
      && forall vals, key | Contributes(x, json, omitEmpty, cfg, vals, key) :: made == Ok(Part(vals, key))
  {
    ZeroIs(x);
    ExpandableIs(x);
    NormalizeIs(x, json, Null);
    forall v ensures Normalize(x, json) == Ok(v) <==> Becomes(x, json, v) { NormalizeIs(x, json, v); }
    hide IsZero, Zero, IsExpandable, Normalize, Becomes, Expand, Elementwise, SliceOf, Deref;
  }

  lemma {:induction false} WidelyMade(x: Value, json: bool, omitEmpty: bool, name: string, cfg: Config)
    requires !(omitEmpty && Zero(x)) && cfg.sliceExpansion && IsExpandable(x)
    ensures var made := Made(x, json, omitEmpty, name, cfg);
      && (made.Ok? ==> Contributes(x, json, omitEmpty, cfg, made.value.args, made.value.bindArg))
      && (made.Err? ==> Refuses(x, json, omitEmpty, name, cfg, made.error))
      && forall vals, key | Contributes(x, json, omitEmpty, cfg, vals, key) :: made == Ok(Part(vals, key))
  {
    ZeroIs(x);
    ExpandableIs(x);
    var elems := Deref(x).elems;
    ExpandIs(elems, name);
    hide IsZero, Zero, IsExpandable, Normalize, Becomes, Expand, SliceOf, Deref;
    assert SliceOf(x, elems) && forall es | SliceOf(x, es) :: es == elems;
    hide Elementwise;
    forall vals | Elementwise(elems, vals) ensures Expand(elems, name) == Ok(vals) {
      OnlyElementwise(elems, vals, name);
    }
  }

  lemma {:induction false} OnlyElementwise(elems: seq<Value>, vals: seq<Value>, name: string)
    requires Elementwise(elems, vals)
    ensures Expand(elems, name) == Ok(vals)
  {
    ExpandIs(elems, name);
    var out := Expand(elems, name);
    forall k | 0 <= k < |elems| ensures Bindable(elems[k]) { assert Becomes(elems[k], false, vals[k]); }
    assert out.Ok?;
    forall k | 0 <= k < |vals| ensures vals[k] == out.value[k] {
      NormalizeIs(elems[k], false, vals[k]);
      NormalizeIs(elems[k], false, out.value[k]);
    }
    assert vals == out.value;
    hide Expand, Becomes;
  }

  lemma {:induction false} OneSupplies(obj: Object, name: string, cfg: Config)
    requires TypeInfo(obj).Ok?
    ensures var part := BindOne(obj, TypeInfo(obj).value, name, cfg);
      && (part.Ok? ==> Supplies(obj, name, cfg, part.value.args, part.value.bindArg))
      && (part.Err? ==> Fails(obj, name, cfg, part.error))
      && forall vals, key | Supplies(obj, name, cfg, vals, key) :: part == Ok(Part(vals, key))
  {
    var t, part := OwnType(obj), BindOne(obj, OwnType(obj), name, cfg);
    assert TypeInfo(obj).value == t;
    LookupIs(obj, t, name);
    var found := LookupNamed(obj, t, name);
    if found.Ok? {
      MadeIs(found.value.v, found.value.json, found.value.omitEmpty, name, cfg);
      assert part == Made(found.value.v, found.value.json, found.value.omitEmpty, name, cfg) by {
        hide Expand, Normalize, IsZero, IsExpandable, LookupNamed;
      }
    } else {
      NotFound(obj, t, name);
    }
    hide LookupNamed, Field, Missing, Contributes, Refuses, BindOne, TypeInfo, OwnType, Made;
    forall vals, key | Supplies(obj, name, cfg, vals, key) ensures part == Ok(Part(vals, key)) {
      var x, json, omitEmpty :| Field(obj, OwnType(obj), name, x, json, omitEmpty)
        && Contributes(x, json, omitEmpty, cfg, vals, key);
      assert found == Ok(Lookup(x, json, omitEmpty));
    }
  }

  lemma NotFound(obj: Object, t: Option<StructType>, name: string)
    requires LookupNamed(obj, t, name).Err? && t == OwnType(obj) && (obj.StructObj? ==> !obj.typ.BadTag?)
    ensures var e := LookupNamed(obj, t, name).error;
      || (Missing(obj, t, name) && e == PlaceholderNotFound(name)) || (obj.OddKeyMap? && e == UnsupportedType)
      || (obj.StructObj? && e == IndexPanic)
  {}

  lemma {:induction false} FirstAt(obj: Object, ti: Option<StructType>, ps: seq<Place>, n: nat, cfg: Config, j: nat)
    requires j < n <= |ps| && BindFirst(obj, ti, ps, n, cfg).Ok?
    ensures BindOne(obj, ti, ps[j].name, cfg) == Ok(BindFirst(obj, ti, ps, n, cfg).value[j])
  {
    if j < n - 1 { FirstAt(obj, ti, ps, n - 1, cfg, j); }
  }

  /** The arguments of part `j` follow those of the parts before it. */
  lemma {:induction false} ArgsAt(parts: seq<Part>, j: nat)
    requires j < |parts|
    ensures var off, n := |ArgsOf(parts[..j])|, |parts[j].args|;
      off + n <= |ArgsOf(parts)| && ArgsOf(parts)[off..off + n] == parts[j].args
  {
    var init := parts[..|parts| - 1];
    if j < |init| {
      ArgsAt(init, j);
      assert init[..j] == parts[..j];
    }
  }

  /** The j-th name's marks take what the object holds under that name, in text order, and so
      does the cache key. */
  lemma {:induction false} BindSupplies(query: string, obj: Object, cfg: Config, j: nat)
    requires BindSpec(query, Obj(obj), cfg).Ok? && j < |NamedIn(query)|
    ensures var b := BindSpec(query, Obj(obj), cfg).value;
      var parts := Parts(NamedIn(query), Obj(obj), cfg).value;
      var off, n := |ArgsOf(parts[..j])|, |parts[j].args|;
      && |b.bindArgs| == |parts| == |NamedIn(query)| && off + n <= |b.args|
      && Supplies(obj, NamedIn(query)[j].name, cfg, b.args[off..off + n], b.bindArgs[j])
  {
    hide BindSpec, NamedIn, Parts, ArgsOf, TypeInfo, BindFirst, BindOne, Supplies, BindArgsOf;
    ObjectParts(query, obj, cfg);
    var b := BindSpec(query, Obj(obj), cfg).value;
    assert FromParts(b, Parts(NamedIn(query), Obj(obj), cfg), |NamedIn(query)|);
    var named, parts := NamedIn(query), Parts(NamedIn(query), Obj(obj), cfg).value;
    FirstAt(obj, TypeInfo(obj).value, named, |named|, cfg, j);
    OneSupplies(obj, named[j].name, cfg);
    ArgsAt(parts, j);
  }

  /** What an object's binding is made of. */
  ghost predicate FromParts(b: Bound, parts: Result<seq<Part>, Error>, n: nat) {
    && parts.Ok? && |parts.value| == n && b.args == ArgsOf(parts.value)
    && |b.bindArgs| == n && forall j | 0 <= j < n :: b.bindArgs[j] == parts.value[j].bindArg
  }

  lemma {:induction false} ObjectParts(query: string, obj: Object, cfg: Config)
    requires BindSpec(query, Obj(obj), cfg).Ok? && NamedIn(query) != []
    ensures FromParts(BindSpec(query, Obj(obj), cfg).value, Parts(NamedIn(query), Obj(obj), cfg), |NamedIn(query)|)
    ensures TypeInfo(obj).Ok? && Parts(NamedIn(query), Obj(obj), cfg) ==
      BindFirst(obj, TypeInfo(obj).value, NamedIn(query), |NamedIn(query)|, cfg)
  {
    hide NamedIn, BindFirst, ArgsOf, BindSpec, TypeInfo;
    BoundIs(query, Obj(obj), cfg);
  }

  /** A successful binding of names is the arguments of its parts. */
  lemma {:induction false} BoundIs(query: string, arg: Arg, cfg: Config)
    requires BindSpec(query, arg, cfg).Ok? && NamedIn(query) != []
    ensures var b, parts := BindSpec(query, arg, cfg).value, Parts(NamedIn(query), arg, cfg);
      parts.Ok? && b.args == ArgsOf(parts.value) && b.bindArgs == BindArgsOf(parts.value)
  {
    assert NamedIn(query) == Pick(Named, Places(query));
    hide NamedIn, Places, Pick, Splice, ArgsOf, BindArgsOf, Texts, MarksOf, Parts;
  }

  /** A scalar or a Valuer fills the only mark; a slice fills one mark per element, in order, and goes into
      the cache key as it is. */
  ghost predicate Fills(arg: Arg, b: Bound) {
    match arg
    case One(v) => v.Scalar? && b.args == [v] && b.bindArgs == b.args
    case ValuerSlice(n, _) => b.args == [Scalar(n)] && b.bindArgs == b.args
    case Anys(vs) => Elementwise(vs, b.args) && b.bindArgs == [Raw(arg)]
    case Slice(vs) => Elementwise(vs, b.args) && b.bindArgs == [Raw(arg)]
    case _ => false
  }

  /** Arguments other than structs and maps bind to a single name only. */
  lemma {:induction false} BindFills(query: string, arg: Arg, cfg: Config)
    requires BindSpec(query, arg, cfg).Ok? && NamedIn(query) != [] && !arg.Obj?
    ensures |NamedIn(query)| == 1 && Fills(arg, BindSpec(query, arg, cfg).value)
  {
    BoundIs(query, arg, cfg);
    var parts := Parts(NamedIn(query), arg, cfg).value;
    hide BindSpec, NamedIn, Normalize, NormalizeFirst, BindFirst;
    assert parts == [parts[0]] && parts[..0] == [];
    assert ArgsOf(parts) == parts[0].args && BindArgsOf(parts) == [parts[0].bindArg] by {
      assert [] + parts[0].args == parts[0].args;
    }
    if arg.Anys? || arg.Slice? { ExpandIs(arg.vs, NamedIn(query)[0].name); }
  }

  /** When an argument binds to the names of a query: a scalar or a Valuer to a single name; a slice
      to a single name when expanded, not empty, and made of bindable elements; a struct or map
      when it supplies every name; nothing else. */
  lemma {:induction false} BindsExactly(query: string, arg: Arg, cfg: Config)
    requires NamedIn(query) != []
    ensures var named := NamedIn(query);
      BindSpec(query, arg, cfg).Ok? <==>
        match arg
        case One(v) => v.Scalar? && |named| == 1
        case ValuerSlice(_, _) => |named| == 1
        case Anys(vs) => cfg.sliceExpansion && |named| == 1 && exists vals :: Elementwise(vs, vals)
        case Slice(vs) => cfg.sliceExpansion && |named| == 1 && exists vals :: Elementwise(vs, vals)
        case Obj(obj) =>
          && !(obj.StructObj? && obj.typ.BadTag?)
          && forall j | 0 <= j < |named| :: Supplied(obj, named[j].name, cfg)
        case _ => false
  {
    assert NamedIn(query) == Pick(Named, Places(query));
    match arg
    case Obj(obj) => ObjectBinds(query, obj, cfg);
    case Anys(vs) => SliceBinds(query, vs, arg, cfg);
    case Slice(vs) => SliceBinds(query, vs, arg, cfg);
    case _ => hide NamedIn, Pick, Places, Splice, Texts;
  }

  /** The error when something else than a struct or map does not bind. */
  lemma {:induction false} BindRefuses(query: string, arg: Arg, cfg: Config)
    requires NamedIn(query) != [] && BindSpec(query, arg, cfg).Err? && !arg.Obj?
    ensures var named := NamedIn(query);
      BindSpec(query, arg, cfg).error ==
        if cfg.sliceExpansion && |named| == 1 && (arg == Anys([]) || arg == Slice([]))
        then SliceExpansion(named[0].name)
        else UnsupportedType
  {
    assert NamedIn(query) == Pick(Named, Places(query));
    match arg
    case Anys(vs) => ExpandIs(vs, NamedIn(query)[0].name);
    case Slice(vs) => ExpandIs(vs, NamedIn(query)[0].name);
    case One(v) => BindableIs(v);
    case _ =>
    hide NamedIn, Pick, Places, Splice, Texts;
  }

  lemma {:induction false} SliceBinds(query: string, vs: seq<Value>, arg: Arg, cfg: Config)
    requires NamedIn(query) != [] && (arg == Anys(vs) || arg == Slice(vs))
    ensures BindSpec(query, arg, cfg).Ok? <==>
      cfg.sliceExpansion && |NamedIn(query)| == 1 && exists vals :: Elementwise(vs, vals)
  {
    assert NamedIn(query) == Pick(Named, Places(query));
    var name := NamedIn(query)[0].name;
    ExpandIs(vs, name);
    if vals :| Elementwise(vs, vals) { OnlyElementwise(vs, vals, name); }
    hide NamedIn, Pick, Places, Splice, Texts, Expand, Elementwise, MarksOf, ArgsOf, BindArgsOf, Becomes;
  }

  lemma {:induction false} ObjectBinds(query: string, obj: Object, cfg: Config)
    requires NamedIn(query) != []
    ensures var named, r := NamedIn(query), BindSpec(query, Obj(obj), cfg);
      && (r.Ok? <==>
        && !(obj.StructObj? && obj.typ.BadTag?)
        && forall j | 0 <= j < |named| :: Supplied(obj, named[j].name, cfg))
      && (r.Err? ==>
        || (obj.StructObj? && obj.typ.BadTag? && r.error == TagInvalid)
        || exists j :: 0 <= j < |named| && FailsFirst(obj, named, j, cfg, r.error))
  {
    var named, r := NamedIn(query), BindSpec(query, Obj(obj), cfg);
    assert named == Pick(Named, Places(query));
    ObjectSpec(query, named, obj, cfg);
    if TypeInfo(obj).Ok? { FirstSupplies(obj, named, |named|, cfg); }
    assert TypeInfo(obj).Err? <==> obj.StructObj? && obj.typ.BadTag?;
    assert TypeInfo(obj).Err? ==> TypeInfo(obj).error == TagInvalid;
    hide NamedIn, Pick, Places, BindSpec, Splice, MarkTexts, ArgsOf, BindArgsOf, TypeInfo, BindFirst, Supplies;
    hide FailsFirst;
  }

  /** The j-th name is the first that is not bound. */
  ghost predicate FailsFirst(obj: Object, named: seq<Place>, j: nat, cfg: Config, e: Error)
    requires j < |named|
  {
    && (forall k | 0 <= k < j :: Supplied(obj, named[k].name, cfg))
    && Fails(obj, named[j].name, cfg, e)
  }

  lemma {:induction false} FirstSupplies(obj: Object, named: seq<Place>, n: nat, cfg: Config)
    requires n <= |named| && TypeInfo(obj).Ok?
    ensures var r := BindFirst(obj, TypeInfo(obj).value, named, n, cfg);
      && (r.Ok? <==> forall j | 0 <= j < n :: Supplied(obj, named[j].name, cfg))
      && (r.Err? ==> exists j :: 0 <= j < n && FailsFirst(obj, named, j, cfg, r.error))
  {
    if n > 0 {
      FirstSupplies(obj, named, n - 1, cfg);
      OneSupplies(obj, named[n - 1].name, cfg);
      var one := BindOne(obj, TypeInfo(obj).value, named[n - 1].name, cfg);
      var before := BindFirst(obj, TypeInfo(obj).value, named, n - 1, cfg);
      hide BindOne, TypeInfo, Supplies, Fails;
      assert one.Ok? <==> Supplied(obj, named[n - 1].name, cfg);
      if before.Ok? && one.Err? { assert FailsFirst(obj, named, n - 1, cfg, one.error); }
    }
  }
}
