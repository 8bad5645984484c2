/** Cache keys: how Before and CacheKey compute them, and what a namespace invalidation removes.
    The digest of namespace, SQL and arguments is a parameter whose text, being hexadecimal,
    contains no NUL. */
module Keys {
  import opened Wrappers
  import opened Lexer
  import opened Rewrite
  import opened Values
  import B = Bind
  import M = BindMany
  import N = Batches
  import D = Dispatch
  import S = Store
  import T = StoreRuns

  type Digest = (string, string, seq<Value>) -> string

  const NUL := "\0"

  predicate NulFree(s: string) { '\0' !in s }

  /** What a key is computed from: the SQL before dialect rewriting and the unexpanded arguments. */
  datatype Payload = Payload(sql: string, args: seq<Value>)

  /** computeKey */
  function ComputeKey(d: Digest, ns: string, p: Payload): string { ns + NUL + d(ns, p.sql, p.args) }

  /** CacheKey binds by default rules, for manual invalidation. */
  function CachePayload(query: string, arg: Arg): Result<Payload, Error> {
    match B.BindSpec(query, arg, DEFAULT_CONFIG)
    case Err(e) => Err(e)
    case Ok(b) => Ok(Payload(b.sql, b.args))
  }

  /** A call through a configured DB is known to Before by what bindForExec made of it. */
  function CallPayload(query: string, arg: Arg, cfg: Config): Result<Payload, Error> {
    match D.ExecSpec(query, arg, cfg)
    case Err(e) => Err(e)
    case Ok(c) => Ok(Payload(c.bindSQL, c.bindArgs))
  }

  function CacheKey(d: Digest, ns: string, query: string, arg: Arg): Result<string, Error> {
    match CachePayload(query, arg) case Err(e) => Err(e) case Ok(p) => Ok(ComputeKey(d, ns, p))
  }

  function BeforeKey(d: Digest, ns: string, query: string, arg: Arg, cfg: Config): Result<string, Error> {
    match CallPayload(query, arg, cfg) case Err(e) => Err(e) case Ok(p) => Ok(ComputeKey(d, ns, p))
  }

  // ----- where the two bindings part -----

  /** The named value of an object that slice expansion concerns, if it does. */
  function Widened(x: Object, name: string): Option<Lookup> {
    if TypeInfo(x).Err? then None else
      match LookupNamed(x, TypeInfo(x).value, name)
      case Err(_) => None
      case Ok(l) => if !(l.omitEmpty && IsZero(l.v)) && IsExpandable(l.v) then Some(l) else None
  }

  /** A slice that CacheKey cannot bind, and one that the call cannot. */
  predicate Refused(x: Object, name: string) { Widened(x, name).Some? && !Widened(x, name).value.json }

  predicate Unexpandable(x: Object, name: string) {
    Widened(x, name).Some? && Expand(Deref(Widened(x, name).value.v).elems, name).Err?
  }

  ghost predicate SomeWidened(x: Object, named: seq<Place>) {
    exists j :: 0 <= j < |named| && Widened(x, named[j].name).Some?
  }

  ghost predicate SomeRefused(x: Object, named: seq<Place>) {
    exists j :: 0 <= j < |named| && Refused(x, named[j].name)
  }

  ghost predicate SomeUnexpandable(x: Object, named: seq<Place>) {
    exists j :: 0 <= j < |named| && Unexpandable(x, named[j].name)
  }

  /** Both have a key, but not the same: with slice expansion, a struct or map with a slice under
      some name, which CacheKey marshals; or a slice of structs with a Value method, which CacheKey
      binds as one value, unless that is the only value of the only struct. */
  ghost predicate KeysApart(query: string, arg: Arg, cfg: Config)
    requires NamedIn(query) != []
  {
    match arg
    case Obj(x) => cfg.sliceExpansion && SomeWidened(x, NamedIn(query))
    case ValuerSlice(n, Some(objs)) => !OneSame(query, n, objs)
    case _ => false
  }

  ghost predicate OneSame(query: string, n: int, objs: seq<Object>)
    requires NamedIn(query) != []
  {
    && |objs| == 1 && N.SameNames(query, NamedIn(query)) && TypeInfo(objs[0]).Ok?
    && BindValue(objs[0], TypeInfo(objs[0]).value, NamedIn(query)[0].name) == Ok(Scalar(n))
  }

  /** Only the call has one. */
  ghost predicate OnlyCall(query: string, arg: Arg, cfg: Config)
    requires NamedIn(query) != []
  {
    var named := NamedIn(query);
    match arg
    case Objects(objs) => M.ManySpec(query, D.AsArgs(objs)).Ok?
    case ValuerSlice(_, Some(objs)) => |named| > 1 && M.ManySpec(query, D.AsArgs(objs)).Ok?
    case Anys(vs) => cfg.sliceExpansion && |named| == 1 && Expand(vs, named[0].name).Ok?
    case Slice(vs) => cfg.sliceExpansion && |named| == 1 && Expand(vs, named[0].name).Ok?
    case Obj(x) => cfg.sliceExpansion && B.BindSpec(query, arg, cfg).Ok? && SomeRefused(x, named)
    case _ => false
  }

  /** Only CacheKey has one: a slice type with a Value method that the call refuses, or a slice
      under a json tag that does not expand. */
  ghost predicate OnlyCache(query: string, arg: Arg, cfg: Config)
    requires NamedIn(query) != []
  {
    var named := NamedIn(query);
    match arg
    case ValuerSlice(_, None) => |named| == 1 && !cfg.sliceExpansion
    case ValuerSlice(_, Some(objs)) => |named| == 1 && M.ManySpec(query, D.AsArgs(objs)).Err?
    case Obj(x) => cfg.sliceExpansion && B.BindSpec(query, arg, DEFAULT_CONFIG).Ok? && SomeUnexpandable(x, named)
    case _ => false
  }

  // ----- structs and maps -----

  function At(x: Object, name: string, cfg: Config): Result<B.Part, Error>
    requires TypeInfo(x).Ok?
  {
    B.BindOne(x, TypeInfo(x).value, name, cfg)
  }

  /** What slice expansion does to one name. */
  lemma {:induction false} OneWidened(x: Object, name: string, cfg: Config)
    requires TypeInfo(x).Ok? && cfg.sliceExpansion
    ensures var wide, plain, w := At(x, name, cfg), At(x, name, DEFAULT_CONFIG), Widened(x, name);
      if w.None? then wide == plain
      else
        && (wide.Err? <==> Unexpandable(x, name)) && (plain.Err? <==> Refused(x, name))
        && (wide.Ok? && plain.Ok? ==> wide.value.bindArg != plain.value.bindArg)
  {
    if Widened(x, name).Some? { Marshalled(Widened(x, name).value.v, Widened(x, name).value.json); }
  }

  /** A slice is marshalled under a json tag and refused otherwise. */
  lemma {:induction false} Marshalled(v: Value, json: bool)
    requires IsExpandable(v)
    ensures Normalize(v, json).Ok? <==> json
    ensures json ==> Normalize(v, json).value.Json? && !v.Json?
  {
    if v.Ptr? { Marshalled(v.target, json); }
  }

  lemma {:induction false} FirstOk(x: Object, ps: seq<Place>, n: nat, cfg: Config)
    requires n <= |ps| && TypeInfo(x).Ok?
    ensures var r := B.BindFirst(x, TypeInfo(x).value, ps, n, cfg);
      && (r.Ok? <==> forall j | 0 <= j < n :: At(x, ps[j].name, cfg).Ok?)
      && (r.Ok? ==> forall j | 0 <= j < n :: At(x, ps[j].name, cfg) == Ok(r.value[j]))
  {
    if n > 0 {
      FirstOk(x, ps, n - 1, cfg);
      assert B.BindOne(x, TypeInfo(x).value, ps[n - 1].name, cfg) == At(x, ps[n - 1].name, cfg);
      hide B.BindOne, At, TypeInfo;
    }
  }

  /** The parts of an object's binding. */
  lemma {:induction false} ObjectOk(query: string, x: Object, cfg: Config)
    requires NamedIn(query) != []
    ensures var named, b := NamedIn(query), B.BindSpec(query, Obj(x), cfg);
      && (b.Ok? <==> TypeInfo(x).Ok? && forall j | 0 <= j < |named| :: At(x, named[j].name, cfg).Ok?)
      && (b.Ok? ==>
        var parts := B.BindFirst(x, TypeInfo(x).value, named, |named|, cfg);
        && parts.Ok? && (forall j | 0 <= j < |named| :: At(x, named[j].name, cfg) == Ok(parts.value[j]))
        && b.value.sql == Splice(query, named, B.MarkTexts(parts.value))
        && b.value.args == B.ArgsOf(parts.value) && b.value.bindArgs == B.BindArgsOf(parts.value))
  {
    var named := NamedIn(query);
    assert named == Pick(Named, Places(query));
    B.ObjectSpec(query, named, x, cfg);
    if TypeInfo(x).Ok? { FirstOk(x, named, |named|, cfg); }
    hide B.BindSpec, NamedIn, Pick, Places, B.BindFirst, TypeInfo, At, Splice, B.MarkTexts, B.ArgsOf, B.BindArgsOf;
  }

  lemma {:induction false} ObjectKeys(query: string, x: Object, cfg: Config)
    requires NamedIn(query) != [] && cfg.sliceExpansion
    ensures var wide, plain := B.BindSpec(query, Obj(x), cfg), B.BindSpec(query, Obj(x), DEFAULT_CONFIG);
      && (wide.Ok? ==> (SomeRefused(x, NamedIn(query)) <==> plain.Err?))
      && (plain.Ok? ==> (SomeUnexpandable(x, NamedIn(query)) <==> wide.Err?))
  {
    var named := NamedIn(query);
    var wide, plain := B.BindSpec(query, Obj(x), cfg), B.BindSpec(query, Obj(x), DEFAULT_CONFIG);
    ObjectOk(query, x, cfg);
    ObjectOk(query, x, DEFAULT_CONFIG);
    hide B.BindSpec, At, NamedIn, Widened, Refused, Unexpandable, TypeInfo, B.BindFirst, Splice, B.MarkTexts, B.ArgsOf;
    hide B.BindArgsOf, Ordered;
    if wide.Ok? {
      if j :| 0 <= j < |named| && Refused(x, named[j].name) { OneWidens(x, named[j].name, cfg); }
      if plain.Err? {
        var j :| 0 <= j < |named| && At(x, named[j].name, DEFAULT_CONFIG).Err?;
        OneWidens(x, named[j].name, cfg);
      }
    }
    if plain.Ok? {
      if j :| 0 <= j < |named| && Unexpandable(x, named[j].name) { OneWidens(x, named[j].name, cfg); }
      if wide.Err? {
        var j :| 0 <= j < |named| && At(x, named[j].name, cfg).Err?;
        OneWidens(x, named[j].name, cfg);
      }
    }
  }

  lemma {:induction false} OneWidens(x: Object, name: string, cfg: Config)
    requires TypeInfo(x).Ok? && cfg.sliceExpansion
    ensures At(x, name, cfg).Ok? && At(x, name, DEFAULT_CONFIG).Err? ==> Refused(x, name)
    ensures At(x, name, cfg).Err? && At(x, name, DEFAULT_CONFIG).Ok? ==> Unexpandable(x, name)
    ensures Refused(x, name) ==> At(x, name, DEFAULT_CONFIG).Err?
    ensures Unexpandable(x, name) ==> At(x, name, cfg).Err?
  {
    OneWidened(x, name, cfg);
    hide At, Widened;
  }

  /** When an object binds both ways, the bindings are the same unless some name is widened. */
  lemma {:induction false} ObjectApart(query: string, x: Object, cfg: Config)
    requires NamedIn(query) != [] && cfg.sliceExpansion
    requires B.BindSpec(query, Obj(x), cfg).Ok? && B.BindSpec(query, Obj(x), DEFAULT_CONFIG).Ok?
    ensures var wide, plain := B.BindSpec(query, Obj(x), cfg).value, B.BindSpec(query, Obj(x), DEFAULT_CONFIG).value;
      if KeysApart(query, Obj(x), cfg) then wide.bindArgs != plain.args
      else wide == plain && plain.args == plain.bindArgs
  {
    var named := NamedIn(query);
    ObjectOk(query, x, cfg);
    ObjectOk(query, x, DEFAULT_CONFIG);
    var ps, qs := B.BindFirst(x, TypeInfo(x).value, named, |named|, cfg).value,
      B.BindFirst(x, TypeInfo(x).value, named, |named|, DEFAULT_CONFIG).value;
    OneArgEach(x, TypeInfo(x).value, named, |named|);
    PartsApart(x, named, ps, qs, cfg);
    hide B.BindSpec, NamedIn, At, B.BindFirst, Widened, Splice, B.MarkTexts, TypeInfo, B.ArgsOf, B.BindArgsOf;
  }

  lemma {:induction false} PartsApart(x: Object, named: seq<Place>, ps: seq<B.Part>, qs: seq<B.Part>, cfg: Config)
    requires cfg.sliceExpansion && TypeInfo(x).Ok? && |ps| == |qs| == |named|
    requires forall j | 0 <= j < |named| :: At(x, named[j].name, cfg) == Ok(ps[j])
    requires forall j | 0 <= j < |named| :: At(x, named[j].name, DEFAULT_CONFIG) == Ok(qs[j])
    ensures if SomeWidened(x, named) then B.BindArgsOf(ps) != B.BindArgsOf(qs)
      else ps == qs
  {
    hide At, Widened, TypeInfo;
    if j :| 0 <= j < |named| && Widened(x, named[j].name).Some? {
      OneWidened(x, named[j].name, cfg);
      assert B.BindArgsOf(ps)[j] == ps[j].bindArg && B.BindArgsOf(qs)[j] == qs[j].bindArg;
    } else {
      forall j | 0 <= j < |named| ensures ps[j] == qs[j] { OneWidened(x, named[j].name, cfg); }
    }
  }

  /** One object under two configurations, as when the call's tag name or name mapper is not the
      default that CacheKey takes: with both bindings there, the payloads are the same if and only
      if every name has the same key argument. */
  lemma {:induction false} NamingKeys(query: string, x: Object, y: Object, cfg: Config)
    requires NamedIn(query) != [] && CallPayload(query, Obj(x), cfg).Ok? && CachePayload(query, Obj(y)).Ok?
    ensures TypeInfo(x).Ok? && TypeInfo(y).Ok?
    ensures CallPayload(query, Obj(x), cfg) == CachePayload(query, Obj(y)) <==>
      forall j | 0 <= j < |NamedIn(query)| ::
        SameKeyArg(At(x, NamedIn(query)[j].name, cfg), At(y, NamedIn(query)[j].name, DEFAULT_CONFIG))
  {
    var named := NamedIn(query);
    NamedPayload(query, x, cfg);
    ObjectOk(query, x, cfg);
    ObjectOk(query, y, DEFAULT_CONFIG);
    hide CallPayload, B.BindSpec, NamedIn, At, B.BindFirst, Splice, B.MarkTexts, TypeInfo;
    hide B.ArgsOf, B.BindArgsOf, SameKeyArg;
    var ps := B.BindFirst(x, TypeInfo(x).value, named, |named|, cfg).value;
    var qs := B.BindFirst(y, TypeInfo(y).value, named, |named|, DEFAULT_CONFIG).value;
    OneArgEach(y, TypeInfo(y).value, named, |named|);
    PartsNamed(x, y, named, ps, qs, cfg);
  }

  lemma NamedPayload(query: string, x: Object, cfg: Config)
    requires NamedIn(query) != []
    ensures CallPayload(query, Obj(x), cfg) ==
      match B.BindSpec(query, Obj(x), cfg) case Err(e) => Err(e) case Ok(b) => Ok(Payload(b.sql, b.bindArgs))
  {
    CallIs(query, Obj(x), cfg);
    hide CallPayload, B.BindSpec, NamedIn;
  }

  lemma {:induction false} PartsNamed(x: Object, y: Object, named: seq<Place>, ps: seq<B.Part>, qs: seq<B.Part>,
                                      cfg: Config)
    requires TypeInfo(x).Ok? && TypeInfo(y).Ok? && |ps| == |qs| == |named|
    requires forall j | 0 <= j < |named| :: At(x, named[j].name, cfg) == Ok(ps[j])
    requires forall j | 0 <= j < |named| :: At(y, named[j].name, DEFAULT_CONFIG) == Ok(qs[j])
    ensures
      if forall j | 0 <= j < |named| :: SameKeyArg(At(x, named[j].name, cfg), At(y, named[j].name, DEFAULT_CONFIG))
      then ps == qs else B.BindArgsOf(ps) != B.BindArgsOf(qs)
  {
    hide At, TypeInfo;
    if j :| 0 <= j < |named| && !SameKeyArg(At(x, named[j].name, cfg), At(y, named[j].name, DEFAULT_CONFIG)) {
      assert B.BindArgsOf(ps)[j] == ps[j].bindArg && B.BindArgsOf(qs)[j] == qs[j].bindArg;
    } else {
      forall j | 0 <= j < |named| ensures ps[j] == qs[j] { SamePart(x, y, named[j].name, cfg); }
    }
  }

  predicate SameKeyArg(a: Result<B.Part, Error>, b: Result<B.Part, Error>) {
    a.Ok? && b.Ok? && a.value.bindArg == b.value.bindArg
  }

  /** The same key argument means the same part: a slice that was expanded is never a default one. */
  lemma {:induction false} SamePart(x: Object, y: Object, name: string, cfg: Config)
    requires TypeInfo(x).Ok? && TypeInfo(y).Ok? && SameKeyArg(At(x, name, cfg), At(y, name, DEFAULT_CONFIG))
    ensures At(x, name, cfg) == At(y, name, DEFAULT_CONFIG)
  {
    var l := LookupNamed(y, TypeInfo(y).value, name).value;
    if !(l.omitEmpty && IsZero(l.v)) { NeverRaw(l.v, l.json); }
  }

  lemma {:induction false} NeverRaw(v: Value, json: bool)
    requires Normalize(v, json).Ok?
    ensures !IsExpandable(Normalize(v, json).value)
  {
    if v.Ptr? { NeverRaw(v.target, json); }
  }

  /** Without slice expansion each name has one argument, which is also its key argument. */
  lemma {:induction false} OneArgEach(x: Object, ti: Option<StructType>, ps: seq<Place>, n: nat)
    requires n <= |ps| && B.BindFirst(x, ti, ps, n, DEFAULT_CONFIG).Ok?
    ensures var parts := B.BindFirst(x, ti, ps, n, DEFAULT_CONFIG).value; B.ArgsOf(parts) == B.BindArgsOf(parts)
  {
    if n > 0 {
      OneArgEach(x, ti, ps, n - 1);
      var init := B.BindFirst(x, ti, ps, n - 1, DEFAULT_CONFIG).value;
      var parts := B.BindFirst(x, ti, ps, n, DEFAULT_CONFIG).value;
      assert parts[..n - 1] == init && parts[n - 1].args == [parts[n - 1].bindArg];
      assert B.BindArgsOf(parts) == B.BindArgsOf(init) + [parts[n - 1].bindArg];
      hide B.BindFirst, B.BindOne;
    }
  }

  // ----- all arguments -----

  lemma NoNames(query: string, arg: Arg, cfg: Config)
    requires NamedIn(query) == []
    ensures B.BindSpec(query, arg, cfg) == Ok(B.Bound(query, B.Positionals(arg), B.Positionals(arg)))
  {}

  /** A value at the only name, by either binding. */
  lemma {:induction false} ScalarKeys(query: string, arg: Arg, cfg: Config)
    requires NamedIn(query) != [] && (arg.One? || arg.ValuerSlice?)
    ensures B.BindSpec(query, arg, cfg) == B.BindSpec(query, arg, DEFAULT_CONFIG)
    ensures var b := B.BindSpec(query, arg, cfg);
      && (b.Ok? ==> b.value.args == b.value.bindArgs && |NamedIn(query)| == 1)
      && (arg.ValuerSlice? ==> (b.Ok? <==> |NamedIn(query)| == 1))
      && (arg.ValuerSlice? && b.Ok? ==> b.value.args == [Scalar(arg.repr)])
      && (b.Ok? ==> b.value.sql == Splice(query, NamedIn(query), Texts(M.Ones(1))))
  {
    var named := NamedIn(query);
    assert named == Pick(Named, Places(query));
    var v := if arg.One? then arg.v else Scalar(arg.repr);
    if |named| == 1 && v.Scalar? {
      var part := B.Part([v], v);
      B.OnlyPart(part, Render(B.Marks(1)));
      assert B.Parts(named, arg, cfg) == Ok([part]) && B.Parts(named, arg, DEFAULT_CONFIG) == Ok([part]);
      assert B.MarksOf([part]) == M.Ones(1);
    }
    hide NamedIn, Pick, Places, Splice, Texts, B.MarksOf, M.Ones, Normalize;
  }

  /** A slice of structs as one value and as a batch. */
  lemma {:induction false} ValuerBatch(query: string, n: int, objs: seq<Object>)
    requires |NamedIn(query)| == 1 && M.ManySpec(query, D.AsArgs(objs)).Ok?
    ensures var b := M.ManySpec(query, D.AsArgs(objs)).value;
      OneSame(query, n, objs) <==>
        b.sql == Splice(query, NamedIn(query), Texts(M.Ones(1))) && b.args == [Scalar(n)]
  {
    var named, args := NamedIn(query), D.AsArgs(objs);
    N.ManyParts(query, args);
    N.ManyOut(query, args);
    N.ResolvedCount(args);
    N.RowsLength(M.ResolveFirst(args, |args|).value, named, |args|);
    assert M.OneGroup(query, named, 1);
    if |objs| == 1 {
      assert args == [Obj(objs[0])];
      N.ManySpecOne(query, objs[0]);
      N.OneCopy(query);
      OneRow(objs[0], named);
    }
    hide NamedIn, M.ManySpec, M.ManyText, Splice, Texts, M.Ones, N.SameNames, BindValue, M.RowFirst, M.OneGroup;
    hide M.ResolveFirst, M.RowsFirst, TypeInfo;
  }

  lemma OneRow(x: Object, named: seq<Place>)
    requires |named| == 1 && TypeInfo(x).Ok?
    ensures M.RowFirst(x, TypeInfo(x).value, named, 1) ==
      match BindValue(x, TypeInfo(x).value, named[0].name) case Err(e) => Err(e) case Ok(v) => Ok([v])
  {
    var v := BindValue(x, TypeInfo(x).value, named[0].name);
    hide BindValue;
    assert M.RowFirst(x, TypeInfo(x).value, named, 0) == Ok([]);
    if v.Ok? { assert [] + [v.value] == [v.value]; }
  }

  lemma CallIs(query: string, arg: Arg, cfg: Config)
    requires NamedIn(query) != []
    ensures CallPayload(query, arg, cfg) ==
      match D.Chosen(query, arg, cfg) case Err(e) => Err(e) case Ok(b) => Ok(Payload(b.sql, b.bindArgs))
  {
    assert NamedIn(query) == Pick(Named, Places(query));
    hide NamedIn, Pick, Places, D.Chosen;
  }

  lemma {:induction false} ObjectAgrees(query: string, x: Object, cfg: Config)
    requires NamedIn(query) != []
    ensures Agrees(query, Obj(x), cfg)
  {
    CallIs(query, Obj(x), cfg);
    ObjectCases(query, x, cfg);
    if cfg.sliceExpansion {
      hide B.BindSpec, CallPayload, NamedIn, KeysApart, OnlyCall, OnlyCache;
      ObjectKeys(query, x, cfg);
      if B.BindSpec(query, Obj(x), cfg).Ok? && B.BindSpec(query, Obj(x), DEFAULT_CONFIG).Ok? {
        ObjectApart(query, x, cfg);
      }
    } else {
      hide B.BindSpec, CallPayload, NamedIn, KeysApart, OnlyCall, OnlyCache;
      ObjectPlain(query, x, cfg);
    }
  }

  lemma ObjectCases(query: string, x: Object, cfg: Config)
    requires NamedIn(query) != []
    ensures var named := NamedIn(query);
      && (OnlyCall(query, Obj(x), cfg) <==>
        cfg.sliceExpansion && B.BindSpec(query, Obj(x), cfg).Ok? && SomeRefused(x, named))
      && (OnlyCache(query, Obj(x), cfg) <==>
        cfg.sliceExpansion && B.BindSpec(query, Obj(x), DEFAULT_CONFIG).Ok? && SomeUnexpandable(x, named))
      && (KeysApart(query, Obj(x), cfg) ==> cfg.sliceExpansion)
  { hide B.BindSpec, NamedIn, SomeRefused, SomeUnexpandable; }

  lemma {:induction false} ObjectPlain(query: string, x: Object, cfg: Config)
    requires NamedIn(query) != [] && !cfg.sliceExpansion
    ensures B.BindSpec(query, Obj(x), cfg) == B.BindSpec(query, Obj(x), DEFAULT_CONFIG)
    ensures var b := B.BindSpec(query, Obj(x), cfg); b.Ok? ==> b.value.args == b.value.bindArgs
  {
    N.BindSpecOne(query, x, cfg);
    N.BindSpecOne(query, x, DEFAULT_CONFIG);
    hide B.BindSpec, NamedIn, Splice, Texts, M.Ones, M.RowFirst, TypeInfo, Ordered;
  }

  /** How the two payloads of a query with names compare. */
  ghost predicate Agrees(query: string, arg: Arg, cfg: Config)
    requires NamedIn(query) != []
  {
    var call, cache := CallPayload(query, arg, cfg), CachePayload(query, arg);
    && (call.Ok? && cache.Err? <==> OnlyCall(query, arg, cfg))
    && (call.Err? && cache.Ok? <==> OnlyCache(query, arg, cfg))
    && (call.Ok? && cache.Ok? ==> (call != cache <==> KeysApart(query, arg, cfg)))
  }

  lemma {:induction false} ValuerAgrees(query: string, n: int, elems: Option<seq<Object>>, cfg: Config)
    requires NamedIn(query) != []
    ensures Agrees(query, ValuerSlice(n, elems), cfg)
  {
    hide B.BindSpec, M.ManySpec, CallPayload, NamedIn, OneSame, Splice, Texts, M.Ones, N.Repeatable, Ordered;
    ScalarKeys(query, ValuerSlice(n, elems), cfg);
    CallIs(query, ValuerSlice(n, elems), cfg);
    if elems.Some? && |NamedIn(query)| == 1 && M.ManySpec(query, D.AsArgs(elems.value)).Ok? {
      ValuerBatch(query, n, elems.value);
      N.ManyParts(query, D.AsArgs(elems.value));
      SameArgs(query, D.AsArgs(elems.value));
    }
  }

  lemma SameArgs(query: string, args: seq<Arg>)
    ensures M.ManySpec(query, args).Ok? ==>
      M.ManySpec(query, args).value.args == M.ManySpec(query, args).value.bindArgs
  {}

  lemma {:induction false} SliceAgrees(query: string, vs: seq<Value>, arg: Arg, cfg: Config)
    requires NamedIn(query) != [] && (arg == Anys(vs) || arg == Slice(vs))
    ensures Agrees(query, arg, cfg)
  {
    SliceBinds(query, vs, arg, cfg);
    SliceBinds(query, vs, arg, DEFAULT_CONFIG);
    CallIs(query, arg, cfg);
    hide NamedIn, CallPayload, Expand, B.BindSpec;
  }

  lemma SliceBinds(query: string, vs: seq<Value>, arg: Arg, cfg: Config)
    requires NamedIn(query) != [] && (arg == Anys(vs) || arg == Slice(vs))
    ensures B.BindSpec(query, arg, cfg).Ok? <==>
      cfg.sliceExpansion && |NamedIn(query)| == 1 && Expand(vs, NamedIn(query)[0].name).Ok?
  {
    assert NamedIn(query) == Pick(Named, Places(query));
    hide NamedIn, Pick, Places, Splice, Texts, Expand, B.MarksOf, B.ArgsOf, B.BindArgsOf;
  }

  lemma {:induction false} OthersAgree(query: string, arg: Arg, cfg: Config)
    requires NamedIn(query) != [] && (arg.NoArg? || arg.NilPointer? || arg.Objects?)
    ensures Agrees(query, arg, cfg)
  {
    CallIs(query, arg, cfg);
    OthersRefused(query, arg);
    hide NamedIn, CallPayload, B.BindSpec, M.ManySpec;
  }

  lemma OthersRefused(query: string, arg: Arg)
    requires NamedIn(query) != [] && (arg.NoArg? || arg.NilPointer? || arg.Objects?)
    ensures B.BindSpec(query, arg, DEFAULT_CONFIG).Err?
  {
    assert NamedIn(query) == Pick(Named, Places(query));
    hide NamedIn, Pick, Places, Splice, Texts;
  }

  lemma {:induction false} OneAgrees(query: string, arg: Arg, cfg: Config)
    requires NamedIn(query) != [] && arg.One?
    ensures Agrees(query, arg, cfg)
  {
    CallIs(query, arg, cfg);
    ScalarKeys(query, arg, cfg);
    hide NamedIn, CallPayload, B.BindSpec, Splice, Texts, M.Ones;
  }

  /** Which calls CacheKey knows, exactly, under every configuration. Without named placeholders
      it has the payload of the call. Otherwise only the call has one in the cases of OnlyCall,
      only CacheKey in those of OnlyCache, and where both do they differ in those of KeysApart. The
      placeholder style is in none of them. */
  lemma {:induction false} KeysAgree(query: string, arg: Arg, cfg: Config)
    ensures NamedIn(query) == [] ==>
      CallPayload(query, arg, cfg) == CachePayload(query, arg) && CachePayload(query, arg).Ok?
    ensures NamedIn(query) != [] ==> Agrees(query, arg, cfg)
  {
    if NamedIn(query) == [] {
      NoNames(query, arg, cfg);
      NoNames(query, arg, DEFAULT_CONFIG);
      assert NamedIn(query) == Pick(Named, Places(query));
      hide NamedIn, Pick, Places, B.BindSpec;
    } else {
      hide *;
      match arg
      case Obj(x) => ObjectAgrees(query, x, cfg);
      case ValuerSlice(n, elems) => ValuerAgrees(query, n, elems, cfg);
      case Anys(vs) => SliceAgrees(query, vs, arg, cfg);
      case Slice(vs) => SliceAgrees(query, vs, arg, cfg);
      case One(_) => OneAgrees(query, arg, cfg);
      case _ => OthersAgree(query, arg, cfg);
    }
  }

  /** A digest that tells payloads apart, as a hash is meant to. */
  ghost predicate TellsApart(d: Digest) {
    forall ns, s, t, xs, ys :: d(ns, s, xs) == d(ns, t, ys) ==> s == t && xs == ys
  }

  /** The keys are the same if and only if the payloads are. */
  lemma {:induction false} SameKeys(d: Digest, ns: string, query: string, arg: Arg, cfg: Config)
    requires CacheKey(d, ns, query, arg).Ok? && BeforeKey(d, ns, query, arg, cfg).Ok? && TellsApart(d)
    ensures BeforeKey(d, ns, query, arg, cfg) == CacheKey(d, ns, query, arg) <==>
      CallPayload(query, arg, cfg) == CachePayload(query, arg)
  {
    var p, q := CallPayload(query, arg, cfg).value, CachePayload(query, arg).value;
    hide CallPayload, CachePayload;
    if ComputeKey(d, ns, p) == ComputeKey(d, ns, q) {
      var front := ns + NUL;
      assert ComputeKey(d, ns, p)[|front|..] == d(ns, p.sql, p.args);
      assert ComputeKey(d, ns, q)[|front|..] == d(ns, q.sql, q.args);
    }
  }

  /** In every placeholder style, and without slice expansion and arguments of slice types with a
      Value method, the key of a call is the one CacheKey computes; the one exception, where
      CacheKey fails although the call binds, is a batch. */
  lemma {:induction false} KeyDialectIndependent(d: Digest, ns: string, query: string, arg: Arg, cfg: Config)
    requires !cfg.sliceExpansion && !arg.ValuerSlice?
    ensures CacheKey(d, ns, query, arg).Ok? ==> BeforeKey(d, ns, query, arg, cfg) == CacheKey(d, ns, query, arg)
    ensures BeforeKey(d, ns, query, arg, cfg).Ok? && CacheKey(d, ns, query, arg).Err? <==>
      arg.Objects? && NamedIn(query) != [] && M.ManySpec(query, D.AsArgs(arg.objs)).Ok?
  {
    KeysAgree(query, arg, cfg);
    hide CallPayload, CachePayload, NamedIn, M.ManySpec;
  }

  // ----- namespaces -----

  /** Exactly which namespaces a prefix deletion reaches: its own, and those that continue it
      behind a NUL. */
  lemma {:induction false} PrefixReaches(prefix: string, ns: string, other: string, hex: string)
    requires NulFree(hex)
    ensures prefix + ns + NUL <= prefix + (other + NUL + hex) <==> ns == other || ns + NUL <= other
  {
    var p, k := prefix + ns + NUL, prefix + (other + NUL + hex);
    assert p == prefix + (ns + NUL);
    if ns + NUL <= other {
      assert other + NUL + hex == (ns + NUL) + (other[|ns| + 1..] + NUL + hex);
    }
    if p <= k {
      assert k[|prefix|..] == other + NUL + hex && p[|prefix|..] == ns + NUL;
      assert ns + NUL <= other + NUL + hex;
      NulSplit(ns, other, hex);
    }
  }

  lemma {:induction false} NulSplit(ns: string, other: string, hex: string)
    requires NulFree(hex) && ns + NUL <= other + NUL + hex
    ensures ns == other || ns + NUL <= other
  {
    var k := other + NUL + hex;
    assert k[|ns|] == '\0' && k[..|ns|] == ns;
    if |ns| > |other| {
      assert false;
    } else if |ns| == |other| {
      assert k[..|other|] == other;
    } else {
      assert k[..|ns| + 1] == ns + NUL;
      assert other == k[..|other|];
    }
  }

  lemma {:induction false} NotNulFree(ns: string, other: string)
    requires ns + NUL <= other
    ensures !NulFree(other)
  {
    assert (ns + NUL)[|ns|] == '\0';
    assert other[|ns|] == '\0';
  }

  /** A store entry written by a cached call in some namespace. */
  ghost predicate EntryOf(e: S.Entry, prefix: string, ns: string) {
    exists hex: string :: NulFree(hex) && e.key == prefix + (ns + NUL + hex)
  }

  /** InvalidateNamespace on the store's entries. */
  function InvalidateNamespace(s: seq<S.Entry>, prefix: string, ns: string): seq<S.Entry> {
    S.RemovePrefix(s, prefix + ns + NUL)
  }

  /** Invalidating a NUL-free namespace removes an entry of a NUL-free namespace if and only if
      it is that namespace. */
  lemma {:induction false} InvalidatesExactly(s: seq<S.Entry>, prefix: string, ns: string, e: S.Entry, owner: string)
    requires NulFree(ns) && NulFree(owner) && e in s && EntryOf(e, prefix, owner)
    ensures e !in InvalidateNamespace(s, prefix, ns) <==> owner == ns
  {
    var hex :| NulFree(hex) && e.key == prefix + (owner + NUL + hex);
    T.RemovePrefixMembers(s, prefix + ns + NUL);
    PrefixReaches(prefix, ns, owner, hex);
    if ns + NUL <= owner { NotNulFree(ns, owner); }
  }

  // ----- what goes into a key -----

  /** A key is namespace, NUL and digest. That of a call is made from the SQL before the dialect and the
      arguments before expansion; that of CacheKey from SQL and arguments bound by default rules. */
  lemma KeyParts(d: Digest, ns: string, query: string, arg: Arg, cfg: Config)
    ensures var c := D.ExecSpec(query, arg, cfg);
      BeforeKey(d, ns, query, arg, cfg) ==
        if c.Err? then Err(c.error) else Ok(ns + "\0" + d(ns, c.value.bindSQL, c.value.bindArgs))
    ensures var b := B.BindSpec(query, arg, DEFAULT_CONFIG);
      CacheKey(d, ns, query, arg) == if b.Err? then Err(b.error) else Ok(ns + "\0" + d(ns, b.value.sql, b.value.args))
  { hide D.ExecSpec, B.BindSpec; }

  /** For a struct or map there is one key argument per name, a slice as it is where it is expanded
      for the driver. */
  lemma {:induction false} ObjectKey(d: Digest, ns: string, query: string, x: Object, cfg: Config)
      returns (sql: string, keys: seq<Value>)
    requires NamedIn(query) != [] && D.ExecSpec(query, Obj(x), cfg).Ok?
    ensures BeforeKey(d, ns, query, Obj(x), cfg) == Ok(ns + "\0" + d(ns, sql, keys))
    ensures sql == D.ExecSpec(query, Obj(x), cfg).value.bindSQL && |keys| == |NamedIn(query)|
    ensures forall j | 0 <= j < |keys| :: KeyedBy(x, NamedIn(query)[j].name, cfg, keys[j])
  {
    hide *;
    KeyParts(d, ns, query, Obj(x), cfg);
    ObjectBound(query, x, cfg);
    var c := D.ExecSpec(query, Obj(x), cfg).value;
    sql, keys := c.bindSQL, c.bindArgs;
    KeyedAt(query, x, cfg, 0);
    forall j | 0 <= j < |keys| ensures KeyedBy(x, NamedIn(query)[j].name, cfg, keys[j]) {
      KeyedAt(query, x, cfg, j);
    }
  }

  /** What an object gives the key under a name. */
  ghost predicate KeyedBy(x: Object, name: string, cfg: Config, key: Value) {
    exists vals :: B.Supplies(x, name, cfg, vals, key)
  }

  lemma {:induction false} KeyedAt(query: string, x: Object, cfg: Config, j: nat)
    requires B.BindSpec(query, Obj(x), cfg).Ok? && j < |NamedIn(query)|
    ensures var keys := B.BindSpec(query, Obj(x), cfg).value.bindArgs;
      |keys| == |NamedIn(query)| && KeyedBy(x, NamedIn(query)[j].name, cfg, keys[j])
  {
    hide B.BindSpec, B.Supplies, NamedIn, B.ArgsOf, B.Parts;
    B.BindSupplies(query, x, cfg, j);
  }

  lemma ObjectBound(query: string, x: Object, cfg: Config)
    requires NamedIn(query) != [] && D.ExecSpec(query, Obj(x), cfg).Ok?
    ensures B.BindSpec(query, Obj(x), cfg).Ok?
    ensures D.ExecSpec(query, Obj(x), cfg).value.bindArgs == B.BindSpec(query, Obj(x), cfg).value.bindArgs
  {
    D.ExecBinds(query, Obj(x), cfg);
    hide B.BindSpec, D.ExecSpec, NamedIn;
  }

  // ----- the entries of calls -----

  ghost predicate NulFreeDigest(d: Digest) { forall ns, sql, args :: NulFree(d(ns, sql, args)) }

  /** The key of a call in namespace `ns`, as Before or CacheKey computes it. */
  ghost predicate KeyIn(d: Digest, ns: string, key: string) {
    exists query, arg, cfg :: KeyOf(d, ns, query, arg, cfg, key)
  }

  predicate KeyOf(d: Digest, ns: string, query: string, arg: Arg, cfg: Config, key: string) {
    BeforeKey(d, ns, query, arg, cfg) == Ok(key) || CacheKey(d, ns, query, arg) == Ok(key)
  }

  /** An entry under such a key, behind the key prefix, is one of the namespace. */
  lemma {:induction false} CallEntry(d: Digest, ns: string, key: string, e: S.Entry, prefix: string)
    requires NulFreeDigest(d) && KeyIn(d, ns, key) && e.key == prefix + key
    ensures EntryOf(e, prefix, ns)
  {
    var query, arg, cfg :| KeyOf(d, ns, query, arg, cfg, key);
    var call := BeforeKey(d, ns, query, arg, cfg) == Ok(key);
    var p := if call then CallPayload(query, arg, cfg) else CachePayload(query, arg);
    hide CallPayload, CachePayload;
    assert key == ns + NUL + d(ns, p.value.sql, p.value.args);
  }

  /** Invalidating a NUL-free namespace removes the entry of a call in a NUL-free namespace if and
      only if it is that namespace. */
  lemma {:induction false} InvalidatesCalls(d: Digest, s: seq<S.Entry>, prefix: string, ns: string, owner: string,
                                            key: string, e: S.Entry)
    requires NulFreeDigest(d) && NulFree(ns) && NulFree(owner)
    requires KeyIn(d, owner, key) && e in s && e.key == prefix + key
    ensures e !in InvalidateNamespace(s, prefix, ns) <==> owner == ns
  {
    CallEntry(d, owner, key, e, prefix);
    InvalidatesExactly(s, prefix, ns, e, owner);
  }

  /** Calls in different NUL-free namespaces never share a key. */
  lemma {:induction false} NamespacesApart(d: Digest, ns: string, other: string, key: string)
    requires NulFreeDigest(d) && NulFree(ns) && NulFree(other) && KeyIn(d, ns, key) && KeyIn(d, other, key)
    ensures ns == other
  {
    var e := S.Entry(key, [], None);
    assert e.key == "" + key;
    InvalidatesCalls(d, [e], "", ns, ns, key, e);
    InvalidatesCalls(d, [e], "", ns, other, key, e);
  }
}
