/** bindNamedMany: the one group of named placeholders, with the parentheses around it, is
    repeated once per object. */
module BindMany {
  import opened Wrappers
  import opened Lexer
  import opened Rewrite
  import opened Values
  import opened Runes
  import B = Bind

  // ----- grouping -----

  /** onlySeparators */
  predicate OnlySeparators(s: string) {
    if s == "" then true
    else if s[0] == ',' then OnlySeparators(s[1..])
    else SpaceBefore(s) > 0 && OnlySeparators(s[SpaceBefore(s)..])
  }

  /** Commas and White_Space, in UTF-8. */
  ghost predicate Separating(s: string, cps: seq<int>)
    decreases |cps|
  {
    if cps == [] then s == ""
    else (cps[0] == ',' as int || White(cps[0])) && Utf8(cps[0]) <= s && Separating(s[|Utf8(cps[0])|..], cps[1..])
  }

  /** Only separators means a sequence of such code points. */
  lemma {:induction false} SeparatorsAre(s: string)
    ensures OnlySeparators(s) <==> exists cps :: Separating(s, cps)
  {
    if OnlySeparators(s) { var cps := SeparatorsOf(s); }
    if cps :| Separating(s, cps) { SeparatedOnly(s, cps); }
  }

  lemma {:induction false} SeparatorsOf(s: string) returns (cps: seq<int>)
    requires OnlySeparators(s)
    ensures Separating(s, cps)
  {
    if s == "" { return []; }
    var cp, n := ',' as int, 1;
    if s[0] != ',' {
      n := SpaceBefore(s);
      SpacesAre(s);
      cp :| White(cp) && s[..n] == Utf8(cp);
      hide Utf8, White, SpaceBefore;
    }
    assert s[..n] == Utf8(cp);
    var more := SeparatorsOf(s[n..]);
    cps := [cp] + more;
    assert cps[1..] == more;
    hide Utf8, White, SpaceBefore;
  }

  lemma {:induction false} SeparatedOnly(s: string, cps: seq<int>)
    requires Separating(s, cps)
    ensures OnlySeparators(s)
    decreases |cps|
  {
    if cps != [] {
      SeparatedOnly(s[|Utf8(cps[0])|..], cps[1..]);
      if cps[0] == ',' as int { assert s[0] == ','; } else { SpacesAre(s); CommaFirst(cps[0]); }
    }
  }

  lemma CommaFirst(cp: int)
    requires White(cp)
    ensures Utf8(cp) != "" && Utf8(cp)[0] != ','
  {}

  /** Only separators stand between the names before the i-th. */
  predicate OneGroup(query: string, named: seq<Place>, i: nat)
    requires i <= |named|
  {
    i < 2 || (OneGroup(query, named, i - 1) && OnlySeparators(Cut(query, named[i - 2].end, named[i - 1].pos)))
  }

  /** The text between the names i-1 and i, as the loop cuts it out. */
  lemma {:induction false} Between(query: string, named: seq<Place>, i: nat)
    requires 0 < i < |named| && Ordered(named, |query|)
    ensures named[i - 1].end <= named[i].pos <= |query|
    ensures OneGroup(query, named, i + 1) ==
      (OneGroup(query, named, i) && OnlySeparators(query[named[i - 1].end..named[i].pos]))
  { OrderedAt(named, |query|, i); }

  /** Only separators stand between the names i-1 and i. */
  predicate Neighbours(query: string, named: seq<Place>, i: nat)
    requires 0 < i < |named|
  {
    && named[i - 1].end <= named[i].pos <= |query|
    && OnlySeparators(query[named[i - 1].end..named[i].pos])
  }

  lemma {:induction false} GroupIs(query: string, named: seq<Place>, n: nat)
    requires Ordered(named, |query|) && n <= |named|
    ensures OneGroup(query, named, n) <==> forall i | 0 < i < n :: Neighbours(query, named, i)
  {
    if n > 1 {
      GroupIs(query, named, n - 1);
      Between(query, named, n - 1);
      hide OneGroup, OnlySeparators, Ordered;
      assert OneGroup(query, named, n) <==> OneGroup(query, named, n - 1) && Neighbours(query, named, n - 1);
      hide Neighbours;
    }
  }

  /** groupNamedPlaces: a single group is the whole list, and there is one exactly when only
      separators stand between neighbours. */
  method GroupNamedPlaces(named: seq<Place>, query: string) returns (groups: seq<seq<Place>>)
    requires named != [] && Ordered(named, |query|)
    ensures |groups| == 1 <==> OneGroup(query, named, |named|)
    ensures |groups| == 1 <==> forall i | 0 < i < |named| :: Neighbours(query, named, i)
    ensures |groups| == 1 ==> groups[0] == named
    ensures |groups| > 0
  {
    assert OneGroup(query, named, 1);
    GroupIs(query, named, |named|);
    hide *;
    groups := [];
    var cur := [named[0]];
    assert named[..1] == cur;
    for i := 1 to |named|
      invariant |groups| == 0 <==> OneGroup(query, named, i)
      invariant |groups| == 0 ==> cur == named[..i]
    {
      Between(query, named, i);
      var between := query[named[i - 1].end..named[i].pos];
      if OnlySeparators(between) {
        assert named[..i] + [named[i]] == named[..i + 1];
        cur := cur + [named[i]];
      } else {
        groups := groups + [cur];
        cur := [named[i]];
      }
    }
    assert named[..|named|] == named;
    groups := groups + [cur];
  }

  /** `from` is the last `(` before `i`, or the start when there is none. */
  ghost predicate LastOpen(q: string, i: nat, from: nat)
    requires i <= |q|
  {
    if '(' in q[..i] then from < i && q[from] == '(' && '(' !in q[from + 1..i] else from == 0
  }

  /** `to` is behind the first `)` from `i` on, or the end when there is none. */
  ghost predicate FirstClose(q: string, i: nat, to: nat)
    requires i <= |q|
  {
    if ')' in q[i..] then i < to <= |q| && q[to - 1] == ')' && ')' !in q[i..to - 1] else to == |q|
  }

  /** Where the repeated fragment starts: at the last `(` before the group, or at the start. */
  function OpenBefore(q: string, i: nat): (r: nat)
    requires i <= |q|
    ensures r <= i && LastOpen(q, i, r)
  {
    if i == 0 then 0 else if q[i - 1] == '(' then i - 1 else OpenBefore(q, i - 1)
  }

  /** Where it ends: behind the first `)` after the group, or at the end. */
  function CloseAfter(q: string, i: nat): (r: nat)
    requires i <= |q|
    ensures i <= r <= |q| && FirstClose(q, i, r)
    decreases |q| - i
  {
    if i == |q| then i else if q[i] == ')' then i + 1 else CloseAfter(q, i + 1)
  }

  // ----- objects and values -----

  datatype Resolved = Resolved(objs: seq<Object>, ti: Option<StructType>)

  function ResolveFirst(args: seq<Arg>, n: nat): (r: Result<Resolved, Error>)
    requires n <= |args|
    ensures r.Ok? ==> |r.value.objs| == n
  {
    if n == 0 then Ok(Resolved([], None)) else
      match ResolveFirst(args, n - 1)
      case Err(e) => Err(e)
      case Ok(r) =>
        if !args[n - 1].Obj? then Err(UnsupportedType)
        else if r.ti.Some? then Ok(r.(objs := r.objs + [args[n - 1].obj]))
        else match TypeInfo(args[n - 1].obj)
          case Err(e) => Err(e)
          case Ok(ti) => Ok(Resolved(r.objs + [args[n - 1].obj], ti))
  }

  function RowFirst(obj: Object, ti: Option<StructType>, ps: seq<Place>, n: nat): (r: Result<seq<Value>, Error>)
    requires n <= |ps|
    ensures r.Ok? ==> |r.value| == n
  {
    if n == 0 then Ok([]) else
      match RowFirst(obj, ti, ps, n - 1)
      case Err(e) => Err(e)
      case Ok(vs) =>
        match BindValue(obj, ti, ps[n - 1].name)
        case Err(e) => Err(e)
        case Ok(v) => Ok(vs + [v])
  }

  function RowsFirst(r: Resolved, ps: seq<Place>, n: nat): Result<seq<Value>, Error>
    requires n <= |r.objs|
  {
    if n == 0 then Ok([]) else
      match RowsFirst(r, ps, n - 1)
      case Err(e) => Err(e)
      case Ok(vs) =>
        match RowFirst(r.objs[n - 1], r.ti, ps, |ps|)
        case Err(e) => Err(e)
        case Ok(row) => Ok(vs + row)
  }

  // ----- the text -----

  function Ones(n: nat): seq<Items> { seq(n, _ => B.Marks(1)) }

  /** replaceNamedInFragment */
  function ReplaceNamed(fragment: string): string {
    var named := Pick(Named, Places(fragment));
    Splice(fragment, named, Texts(Ones(|named|)))
  }

  /** `n` copies joined by commas. */
  function Repeat(s: string, n: nat): string
    requires n > 0
  {
    if n == 1 then s else Repeat(s, n - 1) + "," + s
  }

  /** The bounds of the repeated fragment. */
  function GroupStart(query: string, named: seq<Place>): (r: nat)
    requires named != [] && Ordered(named, |query|)
    ensures r <= named[0].pos < |query| && LastOpen(query, named[0].pos, r)
  {
    OrderedAt(named, |query|, 0);
    OpenBefore(query, named[0].pos)
  }

  function GroupEnd(query: string, named: seq<Place>): (r: nat)
    requires named != [] && Ordered(named, |query|)
    ensures GroupStart(query, named) <= named[0].pos < named[|named| - 1].end <= r <= |query|
    ensures FirstClose(query, named[|named| - 1].end, r)
  {
    OrderedAt(named, |query|, 0);
    CloseAfter(query, named[|named| - 1].end)
  }

  function ManyText(query: string, named: seq<Place>, n: nat): string
    requires n > 0 && named != [] && Ordered(named, |query|)
  {
    var from, to := GroupStart(query, named), GroupEnd(query, named);
    query[..from] + Repeat(ReplaceNamed(query[from..to]), n) + query[to..]
  }

  /** The result of bindNamedMany. */
  function ManySpec(query: string, args: seq<Arg>): Result<B.Bound, Error> {
    var named := Pick(Named, Places(query));
    PlacesOrdered(Named, query);
    if args == [] || named == [] || !OneGroup(query, named, |named|) then Err(UnsupportedType)
    else match ResolveFirst(args, |args|)
      case Err(e) => Err(e)
      case Ok(r) =>
        match RowsFirst(r, named, |r.objs|)
        case Err(e) => Err(e)
        case Ok(out) => Ok(B.Bound(ManyText(query, named, |args|), out, out))
  }

  lemma {:induction false} ResolveFails(args: seq<Arg>, i: nat, n: nat)
    requires i < n <= |args| && ResolveFirst(args, i + 1).Err?
    ensures ResolveFirst(args, n) == ResolveFirst(args, i + 1)
  {
    if i + 1 < n { ResolveFails(args, i, n - 1); }
  }

  method Resolve(args: seq<Arg>) returns (r: Result<Resolved, Error>)
    ensures r == ResolveFirst(args, |args|)
  {
    var objs, ti := [], None;
    for i := 0 to |args|
      invariant ResolveFirst(args, i) == Ok(Resolved(objs, ti))
    {
      if !args[i].Obj? {
        ResolveFails(args, i, |args|);
        return Err(UnsupportedType);
      }
      if ti == None {
        var info := TypeInfo(args[i].obj);
        if info.Err? {
          ResolveFails(args, i, |args|);
          return Err(info.error);
        }
        ti := info.value;
      }
      objs := objs + [args[i].obj];
    }
    r := Ok(Resolved(objs, ti));
  }

  lemma {:induction false} RowFails(obj: Object, ti: Option<StructType>, ps: seq<Place>, i: nat, n: nat)
    requires i < n <= |ps| && RowFirst(obj, ti, ps, i + 1).Err?
    ensures RowFirst(obj, ti, ps, n) == RowFirst(obj, ti, ps, i + 1)
  {
    if i + 1 < n { RowFails(obj, ti, ps, i, n - 1); }
  }

  lemma {:induction false} RowsFail(r: Resolved, ps: seq<Place>, i: nat, n: nat)
    requires i < n <= |r.objs| && RowsFirst(r, ps, i + 1).Err?
    ensures RowsFirst(r, ps, n) == RowsFirst(r, ps, i + 1)
  {
    if i + 1 < n { RowsFail(r, ps, i, n - 1); }
  }

  /** The values of the group, object by object. */
  method CollectRows(r: Resolved, group: seq<Place>) returns (out: Result<seq<Value>, Error>)
    ensures out == RowsFirst(r, group, |r.objs|)
  {
    var vs: seq<Value> := [];
    for i := 0 to |r.objs|
      invariant RowsFirst(r, group, i) == Ok(vs)
    {
      var before := vs;
      ghost var row: seq<Value> := [];
      for j := 0 to |group|
        invariant RowFirst(r.objs[i], r.ti, group, j) == Ok(row) && vs == before + row
      {
        var v := BindValue(r.objs[i], r.ti, group[j].name);
        if v.Err? {
          RowFails(r.objs[i], r.ti, group, j, |group|);
          RowsFail(r, group, i, |r.objs|);
          return Err(v.error);
        }
        vs := vs + [v.value];
        row := row + [v.value];
      }
    }
    out := Ok(vs);
  }

  /** The builder of replaceNamedInFragment after `j` names. */
  ghost function Replaced(q: string, ps: seq<Place>, j: nat): string
    requires j <= |ps|
  {
    Spliced(q, ps, Texts(Ones(|ps|))[..j], j)
  }

  lemma {:induction false} OnesMore(n: nat, j: nat)
    requires j < n
    ensures |Texts(Ones(n))| == n
    ensures Texts(Ones(n))[..j] + ["?"] == Texts(Ones(n))[..j + 1]
  {
    var ts := Texts(Ones(n));
    assert ts[j] == Render(B.Marks(1)) == "?";
    assert ts[..j] + [ts[j]] == ts[..j + 1];
  }

  lemma {:induction false} ReplacedTurn(q: string, ps: seq<Place>, j: nat)
    requires j < |ps| && ps == Pick(Named, Places(q))
    ensures EndOf(ps, j) <= ps[j].pos <= |q| && EndOf(ps, j + 1) == ps[j].end
    ensures Replaced(q, ps, j + 1) == Replaced(q, ps, j) + q[EndOf(ps, j)..ps[j].pos] + "?"
  {
    hide Places, Spliced, Texts, Ones, Ordered, EndOf;
    OnesMore(|ps|, j);
    PlacesOrdered(Named, q);
    BuildTurn(q, ps, Texts(Ones(|ps|))[..j], "?");
  }

  lemma {:induction false} ReplacedEnds(q: string, ps: seq<Place>)
    requires ps == Pick(Named, Places(q))
    ensures Replaced(q, ps, 0) == "" && EndOf(ps, 0) == 0
    ensures EndOf(ps, |ps|) <= |q|
    ensures ReplaceNamed(q) == Replaced(q, ps, |ps|) + q[EndOf(ps, |ps|)..]
    ensures |ps| == 0 ==> ReplaceNamed(q) == q
  {
    hide Places;
    var ts := Texts(Ones(|ps|));
    PlacesOrdered(Named, q);
    BuildEnd(q, ps, ts);
    assert ts[..|ps|] == ts;
    if |ps| == 0 { assert "" + q[0..] == q; }
  }

  method ReplaceNamedInFragment(fragment: string) returns (b: string)
    ensures b == ReplaceNamed(fragment)
  {
    hide *;
    var parsed := ParsePlaceholders(fragment);
    var places := NamedPlaces(parsed);
    ReplacedEnds(fragment, places);
    if |places| == 0 { return fragment; }
    b := "";
    var last := 0;
    for j := 0 to |places|
      invariant b == Replaced(fragment, places, j) && last == EndOf(places, j)
    {
      var p := places[j];
      ReplacedTurn(fragment, places, j);
      b := b + fragment[last..p.pos];
      b := b + "?";
      last := p.end;
    }
    b := b + fragment[last..];
  }

  method BindNamedMany(query: string, args: seq<Arg>) returns (r: Result<B.Bound, Error>)
    ensures r == ManySpec(query, args)
  {
    if |args| == 0 { return Err(UnsupportedType); }
    var places := ParsePlaceholders(query);
    var named := NamedPlaces(places);
    if |named| == 0 { return Err(UnsupportedType); }
    PlacesOrdered(Named, query);
    var groups := GroupNamedPlaces(named, query);
    if |groups| > 1 { return Err(UnsupportedType); }
    var group := groups[0];
    var objs := Resolve(args);
    if objs.Err? { return Err(objs.error); }
    var sql := WriteGroup(query, named, |args|);
    var out := CollectRows(objs.value, group);
    if out.Err? { return Err(out.error); }
    r := Ok(B.Bound(sql, out.value, out.value));
  }

  /** The fragment from the opening to the closing parenthesis. */
  method FindGroup(query: string, first: nat, last: nat) returns (groupStart: nat, groupEnd: nat)
    requires first <= |query| && last <= |query|
    ensures groupStart == OpenBefore(query, first) && groupEnd == CloseAfter(query, last)
    ensures groupStart <= first && LastOpen(query, first, groupStart)
    ensures last <= groupEnd <= |query| && FirstClose(query, last, groupEnd)
  {
    groupStart := first;
    while groupStart > 0 && query[groupStart - 1] != '('
      invariant groupStart <= |query|
      invariant OpenBefore(query, groupStart) == OpenBefore(query, first)
    {
      groupStart := groupStart - 1;
    }
    if groupStart > 0 && query[groupStart - 1] == '(' {
      groupStart := groupStart - 1;
    }
    groupEnd := last;
    while groupEnd < |query| && query[groupEnd] != ')'
      invariant groupEnd <= |query|
      invariant CloseAfter(query, groupEnd) == CloseAfter(query, last)
    {
      groupEnd := groupEnd + 1;
    }
    if groupEnd < |query| && query[groupEnd] == ')' {
      groupEnd := groupEnd + 1;
    }
  }

  method RepeatText(one: string, n: nat) returns (repeated: string)
    requires n > 0
    ensures repeated == Repeat(one, n)
  {
    repeated := one;
    for i := 1 to n
      invariant repeated == Repeat(one, i)
    {
      repeated := repeated + "," + one;
    }
  }

  method WriteGroup(query: string, named: seq<Place>, n: nat) returns (b: string)
    requires named != [] && Ordered(named, |query|) && n > 0
    ensures b == ManyText(query, named, n)
  {
    OrderedAt(named, |query|, 0);
    hide Ordered, Places, ReplaceNamed, Repeat, OpenBefore, CloseAfter;
    var groupStart, groupEnd := FindGroup(query, named[0].pos, named[|named| - 1].end);
    assert groupStart == GroupStart(query, named) && groupEnd == GroupEnd(query, named);
    var one := ReplaceNamedInFragment(query[groupStart..groupEnd]);
    var repeated := RepeatText(one, n);
    b := query[..groupStart] + repeated + query[groupEnd..];
  }
}
