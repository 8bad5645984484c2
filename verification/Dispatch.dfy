/** bindForExec: how DB and Tx calls choose between single, batch and positional binding, and
    what the dialect rewriting makes of the result. */
module Dispatch {
  import opened Wrappers
  import opened Lexer
  import opened Rewrite
  import opened Values
  import B = Bind
  import M = BindMany
  import T = Batches
  import R = Rebind

  /** `boundSQL` and `args` go to the driver, `bindSQL` and `bindArgs` into the cache key. */
  datatype Call = Call(boundSQL: string, bindSQL: string, bindArgs: seq<Value>, args: seq<Value>)

  function AsArgs(objs: seq<Object>): seq<Arg> { seq(|objs|, i requires 0 <= i < |objs| => Obj(objs[i])) }

  /** The binding chosen for a query with named placeholders. */
  function Chosen(query: string, arg: Arg, cfg: Config): Result<B.Bound, Error> {
    match arg
    case NoArg => Err(UnsupportedType)
    case NilPointer => Err(UnsupportedType)
    case Objects(objs) => M.ManySpec(query, AsArgs(objs))
    case ValuerSlice(_, Some(objs)) => M.ManySpec(query, AsArgs(objs))
    case ValuerSlice(_, None) => if cfg.sliceExpansion then B.BindSpec(query, arg, cfg) else Err(UnsupportedType)
    case Anys(_) => if cfg.sliceExpansion then B.BindSpec(query, arg, cfg) else Err(UnsupportedType)
    case Slice(_) => if cfg.sliceExpansion then B.BindSpec(query, arg, cfg) else Err(UnsupportedType)
    case Obj(_) => B.BindSpec(query, arg, cfg)
    case One(_) => B.BindSpec(query, arg, cfg)
  }

  /** The result of bindForExec. */
  function ExecSpec(query: string, arg: Arg, cfg: Config): Result<Call, Error> {
    if Pick(Named, Places(query)) == [] then
      var args := B.Positionals(arg);
      Ok(Call(R.RebindSpec(query, cfg.placeholder), query, args, args))
    else match Chosen(query, arg, cfg)
      case Err(e) => Err(e)
      case Ok(b) => Ok(Call(R.RebindSpec(b.sql, cfg.placeholder), b.sql, b.bindArgs, b.args))
  }

  /** What the driver is sent for the SQL that binding made: in Question style that SQL; in Dollar
      and At style its own items with the n-th `?` replaced by the n-th marker, and no `?` left. */
  ghost predicate InDialect(c: Call, style: Style) {
    var xs := Lex(c.bindSQL).items;
    var n := Count(Positional, xs);
    if style.Question? then c.boundSQL == c.bindSQL
    else
      && Lex(c.boundSQL).items == Subst(Positional, xs, R.Markers(style, n))
      && Count(Positional, Lex(c.boundSQL).items) == 0
  }

  /** The arguments of a query without names: none for nil, the elements of a `[]any`, else the one
      value. */
  ghost predicate Positioned(arg: Arg, args: seq<Value>) {
    match arg
    case NoArg => args == []
    case Anys(vs) => args == vs
    case One(v) => args == [v]
    case ValuerSlice(n, _) => args == [Scalar(n)]
    case _ => args == [Raw(arg)]
  }

  /** Whatever binds is sent in the dialect, with names or without; a query without names always
      binds, as it stands and with its arguments by position. */
  lemma {:induction false} SentInDialect(query: string, arg: Arg, cfg: Config)
    ensures var r := ExecSpec(query, arg, cfg);
      && (r.Ok? ==> InDialect(r.value, cfg.placeholder))
      && (NamedIn(query) == [] ==>
        && r.Ok? && r.value.bindSQL == query && r.value.bindArgs == r.value.args && Positioned(arg, r.value.args))
  {
    hide *;
    SentIs(query, arg, cfg);
    if NamedIn(query) == [] { PositionalIs(query, arg, cfg); }
    var r := ExecSpec(query, arg, cfg);
    if r.Ok? { DialectIs(r.value, cfg.placeholder); }
  }

  lemma {:induction false} DialectIs(c: Call, style: Style)
    requires c.boundSQL == R.RebindSpec(c.bindSQL, style)
    ensures InDialect(c, style)
  {
    hide Lex, Subst, Count, R.Markers, Pick, Splice, Places, R.NamesOf;
    if !style.Question? { R.RebindLexes(c.bindSQL, style); }
  }

  lemma PositionalIs(query: string, arg: Arg, cfg: Config)
    requires NamedIn(query) == []
    ensures var r := ExecSpec(query, arg, cfg);
      r.Ok? && r.value.bindSQL == query && r.value.bindArgs == r.value.args && Positioned(arg, r.value.args)
  {
    assert NamedIn(query) == Pick(Named, Places(query));
    hide NamedIn, Pick, Places, R.RebindSpec, Chosen;
  }

  lemma SentIs(query: string, arg: Arg, cfg: Config)
    ensures var r := ExecSpec(query, arg, cfg);
      r.Ok? ==> r.value.boundSQL == R.RebindSpec(r.value.bindSQL, cfg.placeholder)
  { hide R.RebindSpec, Pick, Places, Chosen, B.Positionals; }

  /** What a query with names is bound as: a slice of structs or maps, whatever methods its type has,
      as a batch; any other slice as one argument, under slice expansion only; nil not at all; and
      everything else as one argument. */
  lemma ExecBinds(query: string, arg: Arg, cfg: Config)
    requires NamedIn(query) != []
    ensures var r := ExecSpec(query, arg, cfg);
      match arg
      case NoArg => r == Err(UnsupportedType)
      case NilPointer => r == Err(UnsupportedType)
      case Objects(objs) => BoundAs(r, M.ManySpec(query, AsArgs(objs)))
      case ValuerSlice(_, Some(objs)) => BoundAs(r, M.ManySpec(query, AsArgs(objs)))
      case _ =>
        if !cfg.sliceExpansion && (arg.ValuerSlice? || arg.Anys? || arg.Slice?) then r == Err(UnsupportedType)
        else BoundAs(r, B.BindSpec(query, arg, cfg))
  { hide B.BindSpec, M.ManySpec, R.RebindSpec; }

  /** The SQL and arguments, or the error, of a binding. */
  ghost predicate BoundAs(r: Result<Call, Error>, b: Result<B.Bound, Error>) {
    if b.Err? then r == Err(b.error)
    else r.Ok? && r.value.bindSQL == b.value.sql && r.value.bindArgs == b.value.bindArgs && r.value.args == b.value.args
  }

  method BindForExec(query: string, arg: Arg, cfg: Config) returns (r: Result<Call, Error>)
    ensures r == ExecSpec(query, arg, cfg)
    ensures r.Ok? ==> InDialect(r.value, cfg.placeholder)
    ensures NamedIn(query) == [] ==>
      r.Ok? && r.value.bindSQL == query && r.value.bindArgs == r.value.args && Positioned(arg, r.value.args)
  {
    SentInDialect(query, arg, cfg);
    hide NamedIn, InDialect, Positioned;
    hide B.BindSpec, M.ManySpec, R.RebindSpec, Pick, Places, B.Positionals;
    var places := ParsePlaceholders(query);
    var hasNamed := HasNamed(places);
    if !hasNamed {
      var args := B.Positionals(arg);
      var sql := R.Rebind(query, cfg.placeholder);
      return Ok(Call(sql, query, args, args));
    }
    var b: Result<B.Bound, Error>;
    match arg {
      case NoArg => return Err(UnsupportedType);
      case NilPointer => return Err(UnsupportedType);
      case Objects(objs) => b := M.BindNamedMany(query, AsArgs(objs));
      case ValuerSlice(_, Some(objs)) => b := M.BindNamedMany(query, AsArgs(objs));
      case ValuerSlice(_, None) =>
        if !cfg.sliceExpansion { return Err(UnsupportedType); }
        b := B.BindNamed(query, arg, cfg);
      case Anys(_) =>
        if !cfg.sliceExpansion { return Err(UnsupportedType); }
        b := B.BindNamed(query, arg, cfg);
      case Slice(_) =>
        if !cfg.sliceExpansion { return Err(UnsupportedType); }
        b := B.BindNamed(query, arg, cfg);
      case Obj(_) => b := B.BindNamed(query, arg, cfg);
      case One(_) => b := B.BindNamed(query, arg, cfg);
    }
    if b.Err? { return Err(b.error); }
    var sql := R.Rebind(b.value.sql, cfg.placeholder);
    r := Ok(Call(sql, b.value.sql, b.value.bindArgs, b.value.args));
  }

  method HasNamed(places: seq<Place>) returns (found: bool)
    ensures found <==> Pick(Named, places) != []
  {
    found := false;
    for i := 0 to |places|
      invariant Pick(Named, places[..i]) == []
    {
      PickSnoc(Named, places[..i], places[i]);
      assert places[..i + 1] == places[..i] + [places[i]];
      if places[i].name != "" {
        R.PickPrefix(Named, places, i + 1);
        return true;
      }
    }
    assert places[..|places|] == places;
  }

  // ----- the numbered markers of an all-named query -----

  lemma {:induction false} MarksNoDigit(xs: Items, n: nat)
    requires n > 0 && R.NoDigitAfterMark(xs)
    ensures R.NoDigitAfterMark(Concat(xs, B.Marks(n))) && R.EndsInMark(Concat(xs, B.Marks(n)))
  {
    if n > 1 { MarksNoDigit(xs, n - 1); }
  }

  /** Names end where no identifier byte follows, so the marks put in their place are not
      followed by a digit. */
  lemma {:induction false} SubstNoDigit(xs: Items, rs: seq<Items>, ns: seq<nat>, st: State)
    requires Count(Positional, xs) == 0 && Count(Named, xs) <= |rs| == |ns|
    requires forall i | 0 <= i < |rs| :: ns[i] > 0 && rs[i] == B.Marks(ns[i])
    requires Walk(st, xs).Some?
    ensures var out := Subst(Named, xs, rs);
      R.NoDigitAfterMark(out) && (R.EndsInMark(out) ==> Walk(st, xs) == Some(Name))
  {
    if xs.Snoc? {
      SubstNoDigit(xs.init, rs, ns, st);
      if xs.last.Nam? {
        MarksNoDigit(Subst(Named, xs.init, rs), ns[Count(Named, xs.init)]);
      }
    }
  }

  lemma {:induction false} NoMarks(xs: Items)
    requires Count(Positional, xs) == 0
    ensures R.NoDigitAfterMark(xs) && !R.EndsInMark(xs)
  {
    if xs.Snoc? { NoMarks(xs.init); }
  }

  lemma {:induction false} ConcatNoDigit(xs: Items, ys: Items)
    requires R.NoDigitAfterMark(xs) && R.NoDigitAfterMark(ys)
    requires R.EndsInMark(xs) ==> ys == Nil
    ensures R.NoDigitAfterMark(Concat(xs, ys))
  {
    if ys.Snoc? {
      ConcatNoDigit(xs, ys.init);
      if ys.init == Nil { assert Concat(xs, ys.init) == xs; }
    }
  }

  lemma {:induction false} CopiesNoDigit(g: Items, n: nat)
    requires n > 0 && R.NoDigitAfterMark(g) && g.Snoc?
    ensures R.NoDigitAfterMark(T.Copies(g, n)) && T.Copies(g, n).Snoc?
    ensures R.EndsInMark(T.Copies(g, n)) == R.EndsInMark(g)
  {
    if n > 1 {
      CopiesNoDigit(g, n - 1);
      ConcatNoDigit(Snoc(T.Copies(g, n - 1), Txt(',')), g);
    }
  }

  /** A batch of objects binds right. */
  predicate BindsRight(query: string, arg: Arg) {
    Elements(arg).Some? && NamedIn(query) != [] ==> T.Repeatable(query, NamedIn(query), |Elements(arg).value|)
  }

  lemma {:induction false} SingleNoDigit(query: string, arg: Arg, cfg: Config)
    requires B.BindSpec(query, arg, cfg).Ok? && NamedIn(query) != []
    requires Count(Positional, Lex(query).items) == 0
    ensures var b := B.BindSpec(query, arg, cfg).value;
      R.NoDigitAfterMark(Lex(b.sql).items) && Count(Positional, Lex(b.sql).items) == |b.args|
  {
    B.BindLexes(query, arg, cfg);
    var parts := B.Parts(NamedIn(query), arg, cfg).value;
    LexIsWalk(query, |query|);
    hide Subst, Lex, Walk, Places;
    SubstNoDigit(Lex(query).items, B.MarksOf(parts), B.MarkCounts(parts), Code);
  }

  lemma {:induction false} BatchNoDigit(query: string, args: seq<Arg>)
    requires M.ManySpec(query, args).Ok? && NamedIn(query) != []
    requires Count(Positional, Lex(query).items) == 0 && T.Repeatable(query, NamedIn(query), |args|)
    ensures var b := M.ManySpec(query, args).value;
      R.NoDigitAfterMark(Lex(b.sql).items) && Count(Positional, Lex(b.sql).items) == |b.args|
  {
    T.BatchCounts(query, args);
    assert NamedIn(query) == Pick(Named, Places(query));
    hide *;
    var named := NamedIn(query);
    T.Surround(query, named);
    T.RepeatedIs(query, named, |args|);
    AroundNoDigit(query, named, T.Front(query, named), T.Group(query, named), T.Tail(query, named), |args|);
    T.ManyOut(query, args);
    T.ResolvedCount(args);
    T.RowsLength(M.ResolveFirst(args, |args|).value, named, |args|);
  }

  lemma {:induction false} AroundNoDigit(q: string, named: seq<Place>, a: Items, g: Items, r: Items, n: nat)
    requires named != [] && Ordered(named, |q|) && n > 0 && T.Around(q, named, a, g, r)
    requires Count(Positional, Lex(q).items) == 0
    ensures R.NoDigitAfterMark(Concat(Concat(a, T.Copies(T.Question(g), n)), r))
  {
    var st, h := StateAt(q, M.GroupStart(q, named)), T.Question(g);
    CountConcat(Positional, Concat(a, g), r);
    CountConcat(Positional, a, g);
    NoMarks(a);
    NoMarks(r);
    SubstNoDigit(g, M.Ones(Count(Named, g)), seq(Count(Named, g), _ => 1), st);
    T.QuestionCount(g, Count(Named, g));
    CopiesNoDigit(h, n);
    ConcatNoDigit(a, T.Copies(h, n));
    ConcatNoDigit(Concat(a, T.Copies(h, n)), r);
  }

  lemma {:induction false} BoundNoDigit(query: string, arg: Arg, cfg: Config)
    requires ExecSpec(query, arg, cfg).Ok? && NamedIn(query) != []
    requires Count(Positional, Lex(query).items) == 0 && BindsRight(query, arg)
    ensures var c := ExecSpec(query, arg, cfg).value;
      R.NoDigitAfterMark(Lex(c.bindSQL).items) && Count(Positional, Lex(c.bindSQL).items) == |c.args|
  {
    ExecBinds(query, arg, cfg);
    hide ExecSpec, Lex, Count, B.BindSpec, M.ManySpec, NamedIn, R.NoDigitAfterMark, T.Repeatable;
    if Elements(arg).Some? {
      BatchNoDigit(query, AsArgs(Elements(arg).value));
    } else {
      SingleNoDigit(query, arg, cfg);
    }
  }

  /** Dialect rewriting: when every placeholder of the query is named, the statement sent in
      Dollar or At style carries the markers 1 to len(args) in text order and no other
      placeholder, and no digit follows a marker. */
  lemma {:induction false} DialectMarkers(query: string, arg: Arg, cfg: Config)
    requires ExecSpec(query, arg, cfg).Ok? && NamedIn(query) != [] && !cfg.placeholder.Question?
    requires Count(Positional, Lex(query).items) == 0 && BindsRight(query, arg)
    ensures var c := ExecSpec(query, arg, cfg).value;
      var xs, n := Lex(c.bindSQL).items, |c.args|;
      && Count(Positional, xs) == n
      && Lex(c.boundSQL).items == Subst(Positional, xs, R.Markers(cfg.placeholder, n))
      && Count(Positional, Lex(c.boundSQL).items) == 0
      && |R.MarkerOffsets(xs, cfg.placeholder, n)| == n
      && R.AllMarkersAt(c.boundSQL, R.MarkerOffsets(xs, cfg.placeholder, n), cfg.placeholder)
  {
    hide *;
    var c := ExecSpec(query, arg, cfg).value;
    SentIs(query, arg, cfg);
    BoundNoDigit(query, arg, cfg);
    R.RebindLexes(c.bindSQL, cfg.placeholder);
    R.MarkersRead(c.bindSQL, cfg.placeholder);
  }
}
