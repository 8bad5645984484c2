/** What batch binding makes of a query: exactly when the repeated text lexes to the repeated
    group, which value fills which mark, and how a batch of one compares with single binding. */
module Batches {
  import opened Wrappers
  import opened Lexer
  import opened Rewrite
  import opened Values
  import B = Bind
  import opened BindMany

  // ----- a query around its group -----

  /** The query's own items before the fragment, of the fragment, and behind it. */
  function Front(q: string, named: seq<Place>): Items
    requires named != [] && Ordered(named, |q|)
  {
    LexTo(q, GroupStart(q, named)).items
  }

  function Group(q: string, named: seq<Place>): Items
    requires named != [] && Ordered(named, |q|)
  {
    Stretch(q, GroupStart(q, named), GroupEnd(q, named))
  }

  function Tail(q: string, named: seq<Place>): Items
    requires named != [] && Ordered(named, |q|)
  {
    Stretch(q, GroupEnd(q, named), |q|)
  }

  ghost predicate Around(q: string, named: seq<Place>, a: Items, g: Items, r: Items)
    requires named != [] && Ordered(named, |q|)
  {
    var from, to := GroupStart(q, named), GroupEnd(q, named);
    && Lex(q).items == Concat(Concat(a, g), r)
    && Render(a) == q[..from] && Render(g) == q[from..to] && Render(r) == q[to..]
    && Walk(Code, a) == Some(StateAt(q, from)) && Walk(StateAt(q, from), g) == Some(StateAt(q, to))
    && Walk(StateAt(q, to), r).Some? && (StateAt(q, to).Name? ==> r == Nil)
    && Count(Named, a) == 0 && Count(Named, g) == |named| && Count(Named, r) == 0
  }

  lemma {:induction false} NoNamesBefore(a: Items, rest: Items, ps: seq<Place>)
    requires ps == PickedPlaces(Named, Concat(a, rest)) && ps != [] && |Render(a)| <= ps[0].pos
    ensures Count(Named, a) == 0
  {
    PickedConcat(Named, a, rest);
    PickedOrdered(Named, a);
    if Count(Named, a) > 0 {
      OrderedAt(PickedPlaces(Named, a), |Render(a)|, 0);
      assert false;
    }
  }

  lemma {:induction false} NoNamesAfter(p: Items, r: Items, ps: seq<Place>)
    requires ps == PickedPlaces(Named, Concat(p, r)) && ps != [] && ps[|ps| - 1].end <= |Render(p)|
    ensures Count(Named, r) == 0
  {
    PickedConcat(Named, p, r);
    PickedOrdered(Named, Concat(p, r));
    OrderedAt(ps, |Render(Concat(p, r))|, |ps| - 1);
    if Count(Named, r) > 0 { assert false; }
  }

  lemma {:induction false} SurroundNames(q: string, named: seq<Place>, a: Items, g: Items, r: Items, from: nat, to: nat)
    requires named == Pick(Named, Places(q)) && named != []
    requires Lex(q).items == Concat(Concat(a, g), r)
    requires |Render(a)| == from <= named[0].pos && named[|named| - 1].end <= to == |Render(Concat(a, g))|
    ensures Count(Named, a) == 0 && Count(Named, g) == |named| && Count(Named, r) == 0
  {
    LexIsWalk(q, |q|);
    hide Lex, Walk, Render, PlacesOf, PickedPlaces;
    PickPlacesOf(Named, Code, Lex(q).items);
    ConcatAssoc(a, g, r);
    NoNamesBefore(a, Concat(g, r), named);
    NoNamesAfter(Concat(a, g), r, named);
    PickCount(Named, q);
    CountConcat(Named, Concat(a, g), r);
    CountConcat(Named, a, g);
  }

  /** A parenthesis does not extend a name, and no name ends with one. */
  lemma {:induction false} CutSettled(q: string, i: nat)
    requires i <= |q| && (i == 0 || i == |q| || q[i] == '(' || q[i - 1] == ')')
    ensures i < |q| ==> !Grows(StateAt(q, i), q[i])
    ensures 0 < i < |q| && q[i - 1] == ')' ==> !StateAt(q, i).Name?
  {}

  /** Cutting a lexed text where no item straddles the cut. */
  lemma {:induction false} CutAt(q: string, i: nat, j: nat)
    requires i <= j <= |q| && (i < |q| ==> !Grows(StateAt(q, i), q[i]))
    ensures LexTo(q, j).items == Concat(LexTo(q, i).items, Stretch(q, i, j))
    ensures Render(LexTo(q, i).items) == q[..i] && Render(Stretch(q, i, j)) == q[i..j]
    ensures Walk(Code, LexTo(q, i).items) == Some(StateAt(q, i))
    ensures Walk(StateAt(q, i), Stretch(q, i, j)) == Some(StateAt(q, j))
  {
    LexSplit(q, i, j);
    LexIsWalk(q, i);
    LexIsWalk(q, j);
    hide Walk, Render, LexTo, Stretch, Concat;
    RenderConcat(LexTo(q, i).items, Stretch(q, i, j));
    WalkConcat(Code, LexTo(q, i).items, Stretch(q, i, j));
    assert q[i..j] == q[..j][i..];
  }

  lemma {:induction false} Bounds(q: string, named: seq<Place>)
    requires named != [] && Ordered(named, |q|)
    ensures var from, to := GroupStart(q, named), GroupEnd(q, named);
      && from <= named[0].pos && named[|named| - 1].end <= to && from <= to
      && (from == 0 || q[from] == '(') && (to == |q| || (to > 0 && q[to - 1] == ')'))
  {}

  lemma {:induction false} SurroundItems(q: string, from: nat, to: nat)
    requires from <= to <= |q| && (from == 0 || (from < |q| && q[from] == '('))
    requires to == |q| || (to > 0 && q[to - 1] == ')')
    ensures var a, g, r := LexTo(q, from).items, Stretch(q, from, to), Stretch(q, to, |q|);
      && Lex(q).items == Concat(Concat(a, g), r)
      && Render(a) == q[..from] && Render(g) == q[from..to] && Render(r) == q[to..]
      && |Render(Concat(a, g))| == to
      && Walk(Code, a) == Some(StateAt(q, from)) && Walk(StateAt(q, from), g) == Some(StateAt(q, to))
      && Walk(StateAt(q, to), r).Some? && (StateAt(q, to).Name? ==> r == Nil)
  {
    hide Walk, Render, Concat, LexTo, Stretch, Grows, StateAt;
    CutSettled(q, from);
    CutSettled(q, to);
    CutAt(q, from, to);
    CutAt(q, to, |q|);
    assert q[to..|q|] == q[to..];
    RenderConcat(LexTo(q, from).items, Stretch(q, from, to));
    if to == |q| { RenderEmpty(Stretch(q, to, |q|)); }
  }

  lemma {:induction false} Surround(q: string, named: seq<Place>)
    requires named == Pick(Named, Places(q)) && named != [] && Ordered(named, |q|)
    ensures Around(q, named, Front(q, named), Group(q, named), Tail(q, named))
  {
    hide *;
    Bounds(q, named);
    var from, to := GroupStart(q, named), GroupEnd(q, named);
    var a, g, r := LexTo(q, from).items, Stretch(q, from, to), Stretch(q, to, |q|);
    SurroundItems(q, from, to);
    SurroundNames(q, named, a, g, r, from, to);
    AroundIs(q, named, a, g, r);
  }

  lemma {:induction false} AroundIs(q: string, named: seq<Place>, a: Items, g: Items, r: Items)
    requires named != [] && Ordered(named, |q|)
    requires var from, to := GroupStart(q, named), GroupEnd(q, named);
      && a == LexTo(q, from).items && g == Stretch(q, from, to) && r == Stretch(q, to, |q|)
      && Lex(q).items == Concat(Concat(a, g), r)
      && Render(a) == q[..from] && Render(g) == q[from..to] && Render(r) == q[to..]
      && Walk(Code, a) == Some(StateAt(q, from)) && Walk(StateAt(q, from), g) == Some(StateAt(q, to))
      && Walk(StateAt(q, to), r).Some? && (StateAt(q, to).Name? ==> r == Nil)
      && Count(Named, a) == 0 && Count(Named, g) == |named| && Count(Named, r) == 0
    ensures Around(q, named, Front(q, named), Group(q, named), Tail(q, named))
  {
    hide Walk, Render, Concat, LexTo, Stretch, GroupStart, GroupEnd, Ordered, Count, Lex, StateAt;
  }

  // ----- the text of a batch -----

  function Question(g: Items): Items { Subst(Named, g, Ones(Count(Named, g))) }

  /** `n` copies of the items joined by commas. */
  function Copies(g: Items, n: nat): Items
    requires n > 0
  {
    if n == 1 then g else Concat(Snoc(Copies(g, n - 1), Txt(',')), g)
  }

  /** What a batch of `n` should lex to: the query's own items, with those of the group, its names
      replaced, repeated. */
  function Repeated(q: string, named: seq<Place>, n: nat): Items
    requires named != [] && Ordered(named, |q|) && n > 0
  {
    Concat(Concat(Front(q, named), Copies(Question(Group(q, named)), n)), Tail(q, named))
  }

  function Shifted(ps: seq<Place>, d: nat): seq<Place> {
    seq(|ps|, i requires 0 <= i < |ps| => Place(ps[i].name, ps[i].pos + d, ps[i].end + d))
  }

  /** The fragment, cut out and lexed on its own, has the group's names at their places. */
  predicate SameNames(q: string, named: seq<Place>)
    requires named != [] && Ordered(named, |q|)
  {
    named == Shifted(NamedIn(q[GroupStart(q, named)..GroupEnd(q, named)]), GroupStart(q, named))
  }

  /** Behind a comma, from the state in which the fragment ends, it reads as it does in place. */
  predicate Rereads(q: string, named: seq<Place>)
    requires named != [] && Ordered(named, |q|)
  {
    Walk(Next(StateAt(q, GroupEnd(q, named)), ','), Question(Group(q, named))).Some?
  }

  /** The condition under which a batch of `n` binds right. */
  predicate Repeatable(q: string, named: seq<Place>, n: nat)
    requires named != [] && Ordered(named, |q|)
  {
    SameNames(q, named) && (n <= 1 || Rereads(q, named))
  }

  lemma {:induction false} RenderCopies(g: Items, n: nat)
    requires n > 0
    ensures Render(Copies(g, n)) == Repeat(Render(g), n)
  {
    if n > 1 {
      RenderCopies(g, n - 1);
      RenderConcat(Snoc(Copies(g, n - 1), Txt(',')), g);
    }
  }

  lemma {:induction false} RepeatLength(s: string, n: nat)
    requires n > 0
    ensures |Repeat(s, n)| == n * |s| + n - 1
  {
    if n > 1 {
      RepeatLength(s, n - 1);
      assert n * |s| == (n - 1) * |s| + |s|;
    }
  }

  /** Equal repetitions repeat the same text. */
  lemma {:induction false} RepeatSame(s: string, t: string, n: nat)
    requires n > 0 && Repeat(s, n) == Repeat(t, n)
    ensures s == t
  {
    RepeatLength(s, n);
    RepeatLength(t, n);
    assert n * |s| == n * |t|;
    Cancel(n, |s|, |t|);
    assert s == Repeat(s, n)[|Repeat(s, n)| - |s|..];
    assert t == Repeat(t, n)[|Repeat(t, n)| - |t|..];
  }

  lemma {:induction false} Larger(n: nat, a: nat, b: nat)
    requires n > 0 && a < b
    ensures n * a < n * b
  {}

  lemma {:induction false} Cancel(n: nat, a: nat, b: nat)
    requires n > 0 && n * a == n * b
    ensures a == b
  {
    if a < b { Larger(n, a, b); }
    if b < a { Larger(n, b, a); }
  }

  // ----- replacing the names one has, or others -----

  /** The first `to` bytes with the places replaced by marks. */
  function Marked(f: string, ps: seq<Place>, to: nat): string {
    if ps == [] then Cut(f, 0, to)
    else
      var p := ps[|ps| - 1];
      Marked(f, ps[..|ps| - 1], p.pos) + "?" + Cut(f, p.end, to)
  }

  lemma OnesText(n: nat, i: nat)
    requires i < n
    ensures |Texts(Ones(n))| == n && Texts(Ones(n))[i] == "?"
  {
    TextAt(Ones(n), i);
    assert Render(B.Marks(1)) == "?";
  }

  lemma {:induction false} MarkedIsWritten(f: string, ps: seq<Place>, to: nat, n: nat)
    requires |ps| <= n
    ensures Written(f, ps, Texts(Ones(n)), to) == Marked(f, ps, to)
  {
    hide Cut, Texts, Ones;
    if ps != [] {
      hide Spliced;
      var init, p := ps[..|ps| - 1], ps[|ps| - 1];
      MarkedIsWritten(f, init, p.pos, n);
      assert ps == init + [p];
      OnesText(n, |init|);
      SplicedSnoc(f, init, p, Texts(Ones(n)));
    }
  }

  /** Names, each a colon and identifier bytes. */
  ghost predicate AreNames(f: string, ps: seq<Place>) {
    forall p <- ps :: IsName(p.name) && p.pos < p.end <= |f| && f[p.pos..p.end] == ":" + p.name
  }

  lemma {:induction false} NamesExact(f: string, st: State, xs: Items)
    requires Walk(st, xs).Some? && Render(xs) <= f
    ensures AreNames(f, PickedPlaces(Named, xs))
  {
    if xs.Snoc? {
      NamesExact(f, st, xs.init);
      PieceAt(f, Render(xs.init), RenderItem(xs.last));
    }
  }

  lemma {:induction false} NameBytes(f: string, p: Place, i: nat)
    requires AreNames(f, [p]) && p.pos <= i < p.end
    ensures i > p.pos ==> f[i] != ':' && f[i] != '?'
    ensures i == p.pos ==> f[i] == ':'
  {
    assert p in [p];
    assert f[i] == f[p.pos..p.end][i - p.pos];
  }

  /** Names that end alike are the same. */
  lemma {:induction false} SameEnd(f: string, p: Place, q: Place)
    requires AreNames(f, [p]) && AreNames(f, [q]) && p.end == q.end
    ensures p == q
  {
    assert p in [p] && q in [q];
    NameBytes(f, p, p.pos);
    NameBytes(f, q, q.pos);
    if p.pos < q.pos { NameBytes(f, p, q.pos); }
    if q.pos < p.pos { NameBytes(f, q, p.pos); }
    assert p.name == f[p.pos..p.end][1..] && q.name == f[q.pos..q.end][1..];
  }

  lemma {:induction false} MarkedLength(f: string, ps: seq<Place>, to: nat)
    requires Ordered(ps, to) && to <= |f| && AreNames(f, ps)
    ensures |Marked(f, ps, to)| + |ps| <= to
    ensures ps == [] ==> |Marked(f, ps, to)| == to
  {
    if ps != [] {
      var p := ps[|ps| - 1];
      assert p in ps;
      assert |f[p.pos..p.end]| == 1 + |p.name|;
      MarkedLength(f, ps[..|ps| - 1], p.pos);
    }
  }

  lemma {:induction false} SameInit(s: string, t: string, u: string)
    ensures s + u == t + u ==> s == t
  {
    if s + u == t + u { assert s == (s + u)[..|s|] && t == (t + u)[..|t|]; }
  }

  /** Behind the last mark stands the rest of the text. */
  lemma {:induction false} LastMark(f: string, ps: seq<Place>, to: nat, i: nat)
    requires ps != [] && Ordered(ps, to) && to <= |f| && ps[|ps| - 1].end - 1 <= i < to
    ensures var m := Marked(f, ps, to);
      |m| >= to - i && m[|m| - (to - i)] == if i == ps[|ps| - 1].end - 1 then '?' else f[i]
  {
    var p := ps[|ps| - 1];
    var head := Marked(f, ps[..|ps| - 1], p.pos) + "?";
    assert Marked(f, ps, to) == head + f[p.end..to];
  }

  /** What the last place contributes. */
  lemma {:induction false} LastPlace(f: string, ps: seq<Place>, to: nat)
    requires ps != [] && Ordered(ps, to) && to <= |f| && AreNames(f, ps)
    ensures var init, p := ps[..|ps| - 1], ps[|ps| - 1];
      && Marked(f, ps, to) == Marked(f, init, p.pos) + ("?" + Cut(f, p.end, to))
      && Ordered(init, p.pos) && p.pos < p.end <= to && AreNames(f, init) && AreNames(f, [p]) && ps == init + [p]
  {
    var p := ps[|ps| - 1];
    assert p in ps;
    assert forall x <- ps[..|ps| - 1] :: x in ps;
  }

  lemma {:induction false} NameLength(f: string, p: Place)
    requires AreNames(f, [p])
    ensures p.pos + 1 < p.end <= |f|
  {
    assert p in [p];
    assert |f[p.pos..p.end]| == 1 + |p.name|;
  }

  lemma {:induction false} MarksApart(f: string, ps: seq<Place>, qs: seq<Place>, to: nat)
    requires ps != [] && qs != [] && Ordered(ps, to) && Ordered(qs, to) && to <= |f|
    requires AreNames(f, qs) && ps[|ps| - 1].end < qs[|qs| - 1].end
    ensures Marked(f, ps, to) != Marked(f, qs, to)
  {
    hide *;
    var q := qs[|qs| - 1];
    LastPlace(f, qs, to);
    NameLength(f, q);
    NameBytes(f, q, q.end - 1);
    LastMark(f, ps, to, q.end - 1);
    LastMark(f, qs, to, q.end - 1);
  }

  /** Replacing different names gives different texts. */
  lemma {:induction false} MarkedSame(f: string, ps: seq<Place>, qs: seq<Place>, to: nat)
    requires Ordered(ps, to) && Ordered(qs, to) && to <= |f| && AreNames(f, ps) && AreNames(f, qs)
    requires Marked(f, ps, to) == Marked(f, qs, to)
    ensures ps == qs
  {
    hide *;
    if ps == [] || qs == [] {
      MarkedLength(f, ps, to);
      MarkedLength(f, qs, to);
    } else {
      var p, q := ps[|ps| - 1], qs[|qs| - 1];
      if p.end < q.end { MarksApart(f, ps, qs, to); }
      if q.end < p.end { MarksApart(f, qs, ps, to); }
      LastPlace(f, ps, to);
      LastPlace(f, qs, to);
      SameEnd(f, p, q);
      SameInit(Marked(f, ps[..|ps| - 1], p.pos), Marked(f, qs[..|qs| - 1], p.pos), "?" + Cut(f, p.end, to));
      MarkedSame(f, ps[..|ps| - 1], qs[..|qs| - 1], p.pos);
    }
  }

  lemma {:induction false} ShiftedMore(ps: seq<Place>, x: Item, pos: nat, d: nat)
    ensures Shifted(ps + PlaceOf(x, pos), d) == Shifted(ps, d) + PlaceOf(x, pos + d)
  {}

  lemma {:induction false} PickedShift(k: Kind, xs: Items, ys: Items)
    ensures PickedPlaces(k, Concat(xs, ys)) == PickedPlaces(k, xs) + Shifted(PickedPlaces(k, ys), |Render(xs)|)
  {
    hide *;
    if ys.Snoc? {
      PickedShift(k, xs, ys.init);
      PickedTurn(k, xs, ys.init, ys.last);
    } else {
      PickedNone(k, xs);
    }
  }

  lemma {:induction false} PickedTurn(k: Kind, xs: Items, ys: Items, x: Item)
    requires PickedPlaces(k, Concat(xs, ys)) == PickedPlaces(k, xs) + Shifted(PickedPlaces(k, ys), |Render(xs)|)
    ensures PickedPlaces(k, Concat(xs, Snoc(ys, x))) ==
      PickedPlaces(k, xs) + Shifted(PickedPlaces(k, Snoc(ys, x)), |Render(xs)|)
  {
    hide *;
    ConcatSnoc(xs, ys, x);
    var d, pos := |Render(xs)|, |Render(ys)|;
    RenderConcat(xs, ys);
    PickedSnoc(k, Concat(xs, ys), x);
    PickedSnoc(k, ys, x);
    var here, there := TailOf(k, x, pos), TailOf(k, x, d + pos);
    ShiftOne(k, PickedPlaces(k, ys), x, pos, d);
    AssocPlaces(PickedPlaces(k, xs), Shifted(PickedPlaces(k, ys), d), there);
  }

  lemma ConcatSnoc(xs: Items, ys: Items, x: Item)
    ensures Concat(xs, Snoc(ys, x)) == Snoc(Concat(xs, ys), x)
  {}

  function TailOf(k: Kind, x: Item, pos: nat): seq<Place> { if Picked(k, x) then PlaceOf(x, pos) else [] }

  lemma AssocPlaces(a: seq<Place>, b: seq<Place>, c: seq<Place>)
    ensures (a + b) + c == a + (b + c)
  {}

  lemma PickedNone(k: Kind, xs: Items)
    ensures PickedPlaces(k, Concat(xs, Nil)) == PickedPlaces(k, xs) + Shifted(PickedPlaces(k, Nil), |Render(xs)|)
  {
    assert Concat(xs, Nil) == xs && PickedPlaces(k, Nil) == [] && Shifted([], |Render(xs)|) == [];
    hide PickedPlaces, Render;
  }

  lemma PickedSnoc(k: Kind, xs: Items, x: Item)
    ensures PickedPlaces(k, Snoc(xs, x)) == PickedPlaces(k, xs) + TailOf(k, x, |Render(xs)|)
  {}

  lemma {:induction false} ShiftOne(k: Kind, qs: seq<Place>, x: Item, pos: nat, d: nat)
    ensures Shifted(qs + TailOf(k, x, pos), d) == Shifted(qs, d) + TailOf(k, x, d + pos)
  {
    ShiftedMore(qs, x, pos, d);
    if !Picked(k, x) { assert qs + [] == qs && Shifted(qs, d) + [] == Shifted(qs, d); }
    hide Shifted, PlaceOf;
  }

  lemma {:induction false} ShiftedSame(ps: seq<Place>, qs: seq<Place>, d: nat)
    ensures Shifted(ps, d) == Shifted(qs, d) ==> ps == qs
  {
    if Shifted(ps, d) == Shifted(qs, d) {
      assert |Shifted(ps, d)| == |ps| && |Shifted(qs, d)| == |qs|;
      forall i | 0 <= i < |ps| ensures ps[i] == qs[i] {
        assert Shifted(ps, d)[i] == Shifted(qs, d)[i];
      }
    }
  }

  // ----- when the text is right -----

  /** The fragment with its names replaced is the group's text with its names replaced if and only
      if the names are the same. */
  lemma {:induction false} FragmentText(q: string, named: seq<Place>)
    requires named == Pick(Named, Places(q)) && named != [] && Ordered(named, |q|)
    ensures var f := q[GroupStart(q, named)..GroupEnd(q, named)];
      ReplaceNamed(f) == Render(Question(Group(q, named))) <==> SameNames(q, named)
  {
    hide *;
    Surround(q, named);
    var from, g, f := GroupStart(q, named), Group(q, named), q[GroupStart(q, named)..GroupEnd(q, named)];
    GroupNames(q, named, Front(q, named), g, Tail(q, named));
    ReplacedIs(f);
    GroupMarked(f, StateAt(q, from), g);
    SameNamesIs(q, named, PickedPlaces(Named, g));
    if ReplaceNamed(f) == Render(Question(g)) { MarkedSame(f, NamedIn(f), PickedPlaces(Named, g), |f|); }
  }

  lemma {:induction false} AloneNames(f: string)
    ensures NamedIn(f) == Pick(Named, Places(f)) == PickedPlaces(Named, Lex(f).items)
    ensures Walk(Code, Lex(f).items).Some?
  {
    LexIsWalk(f, |f|);
    PickPlacesOf(Named, Code, Lex(f).items);
  }

  /** The group's names are the query's, counted from the fragment's start. */
  lemma {:induction false} GroupNames(q: string, named: seq<Place>, a: Items, g: Items, r: Items)
    requires named == Pick(Named, Places(q)) && named != [] && Ordered(named, |q|) && Around(q, named, a, g, r)
    ensures named == Shifted(PickedPlaces(Named, g), GroupStart(q, named))
    ensures Render(g) == q[GroupStart(q, named)..GroupEnd(q, named)]
    ensures Walk(StateAt(q, GroupStart(q, named)), g).Some? && Count(Named, g) == |named|
  {
    hide PickedPlaces, Lex, Walk, Render, Concat, Count, GroupStart, GroupEnd, PlacesOf, Ordered, LexTo, Pick, Places;
    AloneNames(q);
    PickedShift(Named, Concat(a, g), r);
    PickedShift(Named, a, g);
    PickedCount(Named, a);
    PickedCount(Named, r);
    assert Shifted([], |Render(Concat(a, g))|) == [];
    assert PickedPlaces(Named, a) == [] && PickedPlaces(Named, r) == [];
    assert [] + Shifted(PickedPlaces(Named, g), |Render(a)|) + [] == Shifted(PickedPlaces(Named, g), |Render(a)|);
  }

  lemma {:induction false} SameNamesIs(q: string, named: seq<Place>, ps: seq<Place>)
    requires named != [] && Ordered(named, |q|) && named == Shifted(ps, GroupStart(q, named))
    ensures SameNames(q, named) <==> NamedIn(q[GroupStart(q, named)..GroupEnd(q, named)]) == ps
  {
    hide NamedIn, Ordered, Shifted, GroupStart, GroupEnd;
    ShiftedSame(NamedIn(q[GroupStart(q, named)..GroupEnd(q, named)]), ps, GroupStart(q, named));
  }

  /** replaceNamedInFragment, as marked text. */
  lemma {:induction false} ReplacedIs(f: string)
    ensures ReplaceNamed(f) == Marked(f, NamedIn(f), |f|)
    ensures Ordered(NamedIn(f), |f|) && AreNames(f, NamedIn(f))
  {
    LexIsWalk(f, |f|);
    assert f[..|f|] == f;
    PickPlacesOf(Named, Code, Lex(f).items);
    NamesExact(f, Code, Lex(f).items);
    MarkedIsWritten(f, NamedIn(f), |f|, |NamedIn(f)|);
    hide Lex, Walk, Render, Marked, PickedPlaces, Pick, Ordered, Spliced, Cut, Texts, Ones, AreNames, Places;
  }

  /** The text of a group with its names replaced, as marked text. */
  lemma {:induction false} GroupMarked(f: string, st: State, g: Items)
    requires Render(g) == f && Walk(st, g).Some?
    ensures Render(Question(g)) == Marked(f, PickedPlaces(Named, g), |f|)
    ensures Ordered(PickedPlaces(Named, g), |f|) && AreNames(f, PickedPlaces(Named, g))
  {
    var ones := Ones(Count(Named, g));
    WroteItems(Named, f, g, ones);
    PickedOrdered(Named, g);
    NamesExact(f, st, g);
    MarkedIsWritten(f, PickedPlaces(Named, g), |f|, |ones|);
    hide Walk, Render, Marked, PickedPlaces, Ordered, Written, Texts, Ones, Subst, AreNames, Count;
  }

  /** The batch's text is that of the repeated group if and only if the names are the same. */
  lemma {:induction false} TextIsRepeated(q: string, named: seq<Place>, n: nat)
    requires named == Pick(Named, Places(q)) && named != [] && Ordered(named, |q|) && n > 0
    ensures ManyText(q, named, n) == Render(Repeated(q, named, n)) <==> SameNames(q, named)
  {
    hide *;
    var from, to := GroupStart(q, named), GroupEnd(q, named);
    var x, y := ReplaceNamed(q[from..to]), Render(Question(Group(q, named)));
    FragmentText(q, named);
    ManyTextIs(q, named, n);
    RepeatedText(q, named, n);
    if ManyText(q, named, n) == Render(Repeated(q, named, n)) {
      SameMiddle(q[..from], Repeat(x, n), Repeat(y, n), q[to..]);
      RepeatSame(x, y, n);
    }
  }

  lemma {:induction false} ManyTextIs(q: string, named: seq<Place>, n: nat)
    requires named != [] && Ordered(named, |q|) && n > 0
    ensures var from, to := GroupStart(q, named), GroupEnd(q, named);
      from <= to <= |q| && ManyText(q, named, n) == q[..from] + Repeat(ReplaceNamed(q[from..to]), n) + q[to..]
  {
    hide GroupStart, GroupEnd, Ordered, Repeat, ReplaceNamed;
  }

  lemma {:induction false} RepeatedText(q: string, named: seq<Place>, n: nat)
    requires named == Pick(Named, Places(q)) && named != [] && Ordered(named, |q|) && n > 0
    ensures var from, to := GroupStart(q, named), GroupEnd(q, named);
      from <= to <= |q| &&
      Render(Repeated(q, named, n)) == q[..from] + Repeat(Render(Question(Group(q, named))), n) + q[to..]
  {
    Bounds(q, named);
    Surround(q, named);
    hide Ordered, Pick, Places, GroupStart, GroupEnd, Front, Group, Tail, Question, Copies, Concat, Render, Repeat;
    hide Walk, Count, Lex, StateAt;
    var a, h, r := Front(q, named), Question(Group(q, named)), Tail(q, named);
    RenderConcat(Concat(a, Copies(h, n)), r);
    RenderConcat(a, Copies(h, n));
    RenderCopies(h, n);
  }

  lemma {:induction false} SameMiddle(a: string, x: string, y: string, b: string)
    requires a + x + b == a + y + b
    ensures x == y
  {
    assert x == (a + x + b)[|a|..|a + x + b| - |b|];
    assert y == (a + y + b)[|a|..|a + y + b| - |b|];
  }

  // ----- when it reads right -----

  /** Behind a mark, lexing no longer depends on where it began. */
  lemma {:induction false} Synced(x: State, y: State, h: Items)
    requires Walk(x, h).Some? && Walk(y, h).Some? && Count(Positional, h) > 0
    ensures Walk(x, h) == Walk(y, h)
  {
    if h.last.Pos? {
    } else {
      Synced(x, y, h.init);
    }
  }

  /** A comma never fails, and copies behind the first all read like the second. */
  lemma {:induction false} WalkCopies(st: State, h: Items, n: nat)
    requires n > 0 && Count(Positional, h) > 0 && Walk(st, h).Some?
    ensures var end := Walk(st, h).value;
      Walk(st, Copies(h, n)) == if n == 1 || Walk(Next(end, ','), h).Some? then Some(end) else None
  {
    if n > 1 {
      var end, front := Walk(st, h).value, Snoc(Copies(h, n - 1), Txt(','));
      WalkCopies(st, h, n - 1);
      WalkConcat(st, front, h);
      if Walk(Next(end, ','), h).Some? { Synced(Next(end, ','), st, h); }
    }
  }

  lemma {:induction false} OnesSafe(n: nat)
    ensures AllSafe(Ones(n))
  {
    forall r | r in Ones(n) ensures Safe(r) { B.MarksSafe(1); }
  }

  lemma {:induction false} QuestionCount(g: Items, n: nat)
    requires Count(Named, g) <= n
    ensures Count(Named, Subst(Named, g, Ones(n))) == 0
    ensures Count(Positional, Subst(Named, g, Ones(n))) == Count(Positional, g) + Count(Named, g)
  {
    if g.Snoc? {
      QuestionCount(g.init, n);
      if g.last.Nam? {
        forall k: Kind { CountConcat(k, Subst(Named, g.init, Ones(n)), B.Marks(1)); }
        B.MarksCount(1);
      }
    }
  }

  /** In place, the group with its names replaced reads to where the group did, or to plain code
      when a name stood last. */
  lemma {:induction false} QuestionWalks(st: State, g: Items) returns (end: State)
    requires Walk(st, g).Some?
    ensures Walk(st, Question(g)) == Some(end)
    ensures end == Walk(st, g).value || (Walk(st, g).value.Name? && end == Code)
    ensures Next(end, ',') == Next(Walk(st, g).value, ',')
  {
    OnesSafe(Count(Named, g));
    SubstWalks(Named, st, g, Ones(Count(Named, g)));
    end := Walk(st, Question(g)).value;
  }

  lemma {:induction false} RepeatedWalks(q: string, named: seq<Place>, n: nat)
    requires named == Pick(Named, Places(q)) && named != [] && Ordered(named, |q|) && n > 0
    ensures Walk(Code, Repeated(q, named, n)).Some? <==> n == 1 || Rereads(q, named)
  {
    Surround(q, named);
    var a, g, r := Front(q, named), Group(q, named), Tail(q, named);
    var s, e, h := StateAt(q, GroupStart(q, named)), StateAt(q, GroupEnd(q, named)), Question(g);
    assert Count(Named, g) > 0 && Walk(Code, a) == Some(s) && Walk(s, g) == Some(e);
    assert Walk(e, r).Some? && (e.Name? ==> r == Nil);
    QuestionCount(g, Count(Named, g));
    assert Count(Positional, h) > 0;
    assert Rereads(q, named) == Walk(Next(e, ','), h).Some?;
    assert Repeated(q, named, n) == Concat(Concat(a, Copies(h, n)), r);
    assert forall st :: Walk(st, Nil) == Some(st);
    hide *;
    var end := QuestionWalks(s, g);
    WalkCopies(s, h, n);
    WalkConcat(Code, a, Copies(h, n));
    WalkConcat(Code, Concat(a, Copies(h, n)), r);
  }

  /** Batch binding, exactly: the repeated text lexes to the query's own items with those of the
      group, names replaced, repeated, if and only if the fragment on its own has the group's
      names and, when there is more than one copy, it reads again as it does in place. */
  lemma {:induction false} BatchLexes(q: string, n: nat)
    requires NamedIn(q) != [] && n > 0
    ensures Lex(ManyText(q, NamedIn(q), n)).items == Repeated(q, NamedIn(q), n) <==> Repeatable(q, NamedIn(q), n)
  {
    var named := NamedIn(q);
    assert named == Pick(Named, Places(q));
    assert Repeatable(q, named, n) == (SameNames(q, named) && (n <= 1 || Rereads(q, named)));
    hide *;
    TextIsRepeated(q, named, n);
    RepeatedWalks(q, named, n);
    ItemsUnique(ManyText(q, named, n), Repeated(q, named, n));
  }

  lemma {:induction false} ManyParts(q: string, args: seq<Arg>)
    requires ManySpec(q, args).Ok?
    ensures NamedIn(q) != [] && args != []
    ensures ManySpec(q, args).value.sql == ManyText(q, NamedIn(q), |args|)
  {
    PlacesOrdered(Named, q);
    hide Places, Ordered, OneGroup, ManyText, RowsFirst, ResolveFirst;
  }

  lemma {:induction false} CountCopies(k: Kind, h: Items, n: nat)
    requires n > 0
    ensures Count(k, Copies(h, n)) == n * Count(k, h)
  {
    if n > 1 {
      CountCopies(k, h, n - 1);
      CountConcat(k, Snoc(Copies(h, n - 1), Txt(',')), h);
    }
  }

  lemma {:induction false} CountAround(k: Kind, a: Items, h: Items, n: nat, r: Items)
    requires n > 0
    ensures Count(k, Concat(Concat(a, Copies(h, n)), r)) == Count(k, a) + n * Count(k, h) + Count(k, r)
  {
    CountConcat(k, Concat(a, Copies(h, n)), r);
    CountConcat(k, a, Copies(h, n));
    CountCopies(k, h, n);
  }

  /** A batch that binds right has no name left, and when the query had no `?`, one per value. */
  lemma {:induction false} BatchCounts(q: string, args: seq<Arg>)
    requires ManySpec(q, args).Ok? && NamedIn(q) != [] && Repeatable(q, NamedIn(q), |args|)
    ensures var items := Lex(ManySpec(q, args).value.sql).items;
      && args != [] && items == Repeated(q, NamedIn(q), |args|)
      && Count(Named, items) == 0
      && (Count(Positional, Lex(q).items) == 0 ==> Count(Positional, items) == |args| * |NamedIn(q)|)
  {
    ManyParts(q, args);
    assert NamedIn(q) == Pick(Named, Places(q));
    hide ManySpec, ManyText, NamedIn, Pick, Places, Lex, Ordered, GroupStart, GroupEnd, Front, Group, Tail, Repeatable;
    BatchLexes(q, |args|);
    Surround(q, NamedIn(q));
    GroupCounts(q, NamedIn(q), |args|, Front(q, NamedIn(q)), Group(q, NamedIn(q)), Tail(q, NamedIn(q)));
  }

  lemma {:induction false} GroupCounts(q: string, named: seq<Place>, n: nat, a: Items, g: Items, r: Items)
    requires named != [] && Ordered(named, |q|) && n > 0 && Around(q, named, a, g, r)
    ensures var out := Concat(Concat(a, Copies(Question(g), n)), r);
      && Count(Named, out) == 0
      && (Count(Positional, Lex(q).items) == 0 ==> Count(Positional, out) == n * |named|)
  {
    assert Lex(q).items == Concat(Concat(a, g), r) by { hide Lex, Concat, Walk, Render, GroupStart, GroupEnd, StateAt; }
    assert Count(Named, a) == 0 && Count(Named, r) == 0 && Count(Named, g) == |named|;
    hide *;
    ItemCounts(a, g, r, n);
  }

  lemma {:induction false} ItemCounts(a: Items, g: Items, r: Items, n: nat)
    requires n > 0 && Count(Named, a) == 0 && Count(Named, r) == 0
    ensures var out := Concat(Concat(a, Copies(Question(g), n)), r);
      && Count(Named, out) == 0
      && (Count(Positional, Concat(Concat(a, g), r)) == 0 ==> Count(Positional, out) == n * Count(Named, g))
  {
    hide *;
    QuestionCounts(g);
    NoneTimes(n, Count(Named, Question(g)));
    CountAround(Named, a, Question(g), n, r);
    CountAround(Positional, a, Question(g), n, r);
    CountConcat(Positional, Concat(a, g), r);
    CountConcat(Positional, a, g);
  }

  lemma NoneTimes(n: nat, k: nat)
    ensures k == 0 ==> n * k == 0
  {}

  lemma {:induction false} QuestionCounts(g: Items)
    ensures Count(Named, Question(g)) == 0 && Count(Positional, Question(g)) == Count(Positional, g) + Count(Named, g)
  { QuestionCount(g, Count(Named, g)); }

  // ----- parentheses that are read as code -----

  ghost predicate OpensInCode(q: string, named: seq<Place>)
    requires named != [] && Ordered(named, |q|)
  {
    InCode(StateAt(q, GroupStart(q, named)))
  }

  ghost predicate ClosesInCode(q: string, named: seq<Place>)
    requires named != [] && Ordered(named, |q|)
  {
    InCode(StateAt(q, GroupEnd(q, named)))
  }

  lemma {:induction false} ConcatSame(a: Items, x: Items, y: Items)
    requires Concat(a, x) == Concat(a, y) && Render(x) == Render(y)
    ensures x == y
  {
    if x == Nil {
      RenderEmpty(y);
    } else if y == Nil {
      RenderEmpty(x);
    } else {
      SameInit(Render(x.init), Render(y.init), RenderItem(x.last));
      ConcatSame(a, x.init, y.init);
    }
  }

  lemma {:induction false} StretchFresh(q: string, i: nat, j: nat)
    requires i <= j <= |q|
    requires i < |q| ==> InCode(StateAt(q, i)) && Settled(q, i) && !Grows(StateAt(q, i), q[i])
    ensures Stretch(q, i, j) == LexTo(q[i..], j - i).items
  {
    hide *;
    CutAt(q, i, j);
    LexFresh(q, i, j);
    LexIsWalk(q[i..], j - i);
    assert q[i..][..j - i] == q[i..j];
    ConcatSame(LexTo(q, i).items, Stretch(q, i, j), LexTo(q[i..], j - i).items);
  }

  /** A fragment that opens in code reads in place as it does on its own. */
  lemma {:induction false} ReadsAlone(q: string, named: seq<Place>)
    requires named != [] && Ordered(named, |q|) && OpensInCode(q, named)
    ensures Group(q, named) == Lex(q[GroupStart(q, named)..GroupEnd(q, named)]).items
  {
    Bounds(q, named);
    hide GroupStart, GroupEnd, Ordered, LexTo, Stretch;
    StretchAlone(q, GroupStart(q, named), GroupEnd(q, named));
  }

  lemma OpenSettled(q: string, i: nat)
    requires i < |q| ==> (i == 0 || q[i] == '(') && InCode(StateAt(q, i))
    ensures i < |q| ==> Settled(q, i)
  {}

  lemma CutJoins(q: string, from: nat, to: nat)
    requires from <= to <= |q|
    ensures q[from..] == q[from..to] + q[to..]
  {}

  lemma {:induction false} StretchAlone(q: string, from: nat, to: nat)
    requires from <= to <= |q| && (from == 0 || (from < |q| && q[from] == '(')) && InCode(StateAt(q, from))
    ensures Stretch(q, from, to) == Lex(q[from..to]).items
  {
    hide LexTo, Stretch, Settled, Grows, StateAt, InCode;
    CutSettled(q, from);
    OpenSettled(q, from);
    StretchFresh(q, from, to);
    CutJoins(q, from, to);
    LexPrefix(q[from..to], q[to..], to - from);
  }

  lemma {:induction false} CodeSameNames(q: string, named: seq<Place>)
    requires named == Pick(Named, Places(q)) && named != [] && Ordered(named, |q|) && OpensInCode(q, named)
    ensures SameNames(q, named) && Walk(Code, Group(q, named)).Some?
  {
    hide *;
    var g := Group(q, named);
    ReadsAlone(q, named);
    Surround(q, named);
    GroupNames(q, named, Front(q, named), g, Tail(q, named));
    AloneNames(q[GroupStart(q, named)..GroupEnd(q, named)]);
    SameNamesIs(q, named, PickedPlaces(Named, g));
  }

  /** Behind code and a comma stands plain code. */
  lemma {:induction false} CodeRereads(q: string, named: seq<Place>)
    requires named != [] && Ordered(named, |q|) && ClosesInCode(q, named) && Walk(Code, Group(q, named)).Some?
    ensures Rereads(q, named)
  {
    hide GroupStart, GroupEnd, Ordered, Group, StateAt, Walk, Question;
    var end := QuestionWalks(Code, Group(q, named));
    assert Next(StateAt(q, GroupEnd(q, named)), ',') == Code;
  }

  /** Parentheses read as code are enough: the opening one for a batch of one, both for any. */
  lemma {:induction false} CodeSuffices(q: string, n: nat)
    requires NamedIn(q) != [] && OpensInCode(q, NamedIn(q)) && (n <= 1 || ClosesInCode(q, NamedIn(q)))
    ensures Repeatable(q, NamedIn(q), n)
  {
    var named := NamedIn(q);
    assert named == Pick(Named, Places(q));
    hide NamedIn, Ordered, GroupStart, GroupEnd, Places, Pick, StateAt, OpensInCode, ClosesInCode, SameNames, Rereads;
    CodeSameNames(q, named);
    if n > 1 { CodeRereads(q, named); }
  }

  lemma {:induction false} RepeatedIs(q: string, named: seq<Place>, n: nat)
    requires named != [] && Ordered(named, |q|) && n > 0
    ensures Repeated(q, named, n)
      == Concat(Concat(Front(q, named), Copies(Question(Group(q, named)), n)), Tail(q, named))
  {}

  // ----- which value fills which mark -----

  lemma {:induction false} RowAt(obj: Object, ti: Option<StructType>, ps: seq<Place>, n: nat, j: nat)
    requires j < n <= |ps| && RowFirst(obj, ti, ps, n).Ok?
    ensures BindValue(obj, ti, ps[j].name) == Ok(RowFirst(obj, ti, ps, n).value[j])
  {
    if j < n - 1 { RowAt(obj, ti, ps, n - 1, j); }
  }

  /** The value of the j-th name of the group in object i stands at `i*k + j`. */
  lemma {:induction false} RowsAt(r: Resolved, ps: seq<Place>, n: nat, i: nat, j: nat)
    requires i < n <= |r.objs| && j < |ps| && RowsFirst(r, ps, n).Ok?
    ensures |RowsFirst(r, ps, n).value| == n * |ps|
    ensures i * |ps| + j < n * |ps|
    ensures BindValue(r.objs[i], r.ti, ps[j].name) == Ok(RowsFirst(r, ps, n).value[i * |ps| + j])
    decreases n
  {
    RowsLength(r, ps, n);
    RowsLength(r, ps, n - 1);
    assert (n - 1) * |ps| + |ps| == n * |ps|;
    if i < n - 1 {
      RowsAt(r, ps, n - 1, i, j);
    } else {
      RowAt(r.objs[i], r.ti, ps, |ps|, j);
    }
  }

  lemma {:induction false} RowsLength(r: Resolved, ps: seq<Place>, n: nat)
    requires n <= |r.objs| && RowsFirst(r, ps, n).Ok?
    ensures |RowsFirst(r, ps, n).value| == n * |ps|
  {
    if n > 0 {
      RowsLength(r, ps, n - 1);
      assert (n - 1) * |ps| + |ps| == n * |ps|;
    }
  }

  /** The type info of a batch is that of its first struct, if there is one. */
  ghost predicate FirstStruct(args: seq<Arg>, n: nat, t: Option<StructType>)
    requires n <= |args|
  {
    if t.None? then forall i | 0 <= i < n && args[i].Obj? :: !args[i].obj.StructObj?
    else exists i :: 0 <= i < n && IsFirstStruct(args, i, t.value)
  }

  ghost predicate IsFirstStruct(args: seq<Arg>, i: nat, t: StructType)
    requires i < |args|
  {
    && args[i].Obj? && args[i].obj.StructObj? && args[i].obj.typ == t && t.Fields?
    && forall k | 0 <= k < i && args[k].Obj? :: !args[k].obj.StructObj?
  }

  lemma {:induction false} ResolvedFirst(args: seq<Arg>, n: nat)
    requires n <= |args|
    ensures var r := ResolveFirst(args, n);
      && (r.Ok? ==> (forall i | 0 <= i < n :: args[i] == Obj(r.value.objs[i])) && FirstStruct(args, n, r.value.ti))
      && (r.Ok? <==> (forall i | 0 <= i < n :: args[i].Obj?) && exists t :: FirstStruct(args, n, t))
  {
    if n == 0 {
      assert FirstStruct(args, 0, None);
    } else {
      ResolvedFirst(args, n - 1);
      FirstMore(args, n);
      hide FirstStruct;
    }
  }

  /** One more argument, and the type info that goes with it. */
  lemma {:induction false} FirstMore(args: seq<Arg>, n: nat)
    requires 0 < n <= |args|
    ensures forall t: Option<StructType> | t.Some? :: FirstStruct(args, n - 1, t) ==> FirstStruct(args, n, t)
    ensures args[n - 1].Obj? && FirstStruct(args, n - 1, None) ==>
      forall t :: FirstStruct(args, n, t) <==> TypeInfo(args[n - 1].obj) == Ok(t)
    ensures forall t | FirstStruct(args, n, t) ::
      FirstStruct(args, n - 1, t) || (FirstStruct(args, n - 1, None) && args[n - 1].Obj? && args[n - 1].obj.StructObj?)
  {
    forall t: Option<StructType> | t.Some? && FirstStruct(args, n - 1, t) ensures FirstStruct(args, n, t) {
      var i :| 0 <= i < n - 1 && IsFirstStruct(args, i, t.value);
    }
    if args[n - 1].Obj? && FirstStruct(args, n - 1, None) {
      forall t ensures FirstStruct(args, n, t) <==> TypeInfo(args[n - 1].obj) == Ok(t) {
        if t.Some? && TypeInfo(args[n - 1].obj) == Ok(t) { assert IsFirstStruct(args, n - 1, t.value); }
      }
    }
  }

  /** Place `at` of the arguments takes what an object holds under a name, by the given type info. */
  ghost predicate HoldsAt(out: seq<Value>, at: int, obj: Object, t: Option<StructType>, name: string) {
    0 <= at < |out| && Holds(obj, t, name, out[at])
  }

  lemma {:induction false} ManyOut(q: string, args: seq<Arg>)
    requires ManySpec(q, args).Ok?
    ensures ResolveFirst(args, |args|).Ok?
    ensures RowsFirst(ResolveFirst(args, |args|).value, NamedIn(q), |args|) == Ok(ManySpec(q, args).value.args)
  {
    ResolvedCountIf(args);
    assert NamedIn(q) == Pick(Named, Places(q));
    hide NamedIn, Pick, Places, ResolveFirst, RowsFirst, ManyText, OneGroup, Ordered;
  }

  lemma {:induction false} ResolvedCountIf(args: seq<Arg>)
    ensures ResolveFirst(args, |args|).Ok? ==> |ResolveFirst(args, |args|).value.objs| == |args|
  { if ResolveFirst(args, |args|).Ok? { ResolvedCount(args); } }

  /** Batch binding puts at `i*k + j` what object i holds under the j-th name, by the type info of
      the first struct. */
  lemma {:induction false} BatchValues(q: string, args: seq<Arg>, i: nat, j: nat) returns (t: Option<StructType>)
    requires ManySpec(q, args).Ok? && i < |args| && j < |NamedIn(q)|
    ensures args[i].Obj? && FirstStruct(args, |args|, t)
    ensures |ManySpec(q, args).value.args| == |args| * |NamedIn(q)|
    ensures HoldsAt(ManySpec(q, args).value.args, i * |NamedIn(q)| + j, args[i].obj, t, NamedIn(q)[j].name)
  {
    hide *;
    ManyOut(q, args);
    ResolvedFirst(args, |args|);
    var r := ResolveFirst(args, |args|).value;
    t := r.ti;
    RowsAt(r, NamedIn(q), |args|, i, j);
    ValueHolds(ManySpec(q, args).value.args, i * |NamedIn(q)| + j, args[i].obj, t, NamedIn(q)[j].name);
  }

  lemma {:induction false} ValueHolds(out: seq<Value>, at: int, obj: Object, t: Option<StructType>, name: string)
    requires 0 <= at < |out| && BindValue(obj, t, name) == Ok(out[at])
    ensures HoldsAt(out, at, obj, t, name)
  { BindValueIs(obj, t, name, out[at]); }

  // ----- which batches bind -----

  ghost predicate Held(obj: Object, t: Option<StructType>, name: string) { exists v :: Holds(obj, t, name, v) }

  lemma {:induction false} HeldIs(obj: Object, t: Option<StructType>, name: string)
    ensures Held(obj, t, name) <==> BindValue(obj, t, name).Ok?
  {
    var r := BindValue(obj, t, name);
    if r.Ok? { BindValueIs(obj, t, name, r.value); }
    if v :| Holds(obj, t, name, v) { BindValueIs(obj, t, name, v); }
    hide BindValue, Holds;
  }

  lemma {:induction false} RowBinds(obj: Object, t: Option<StructType>, ps: seq<Place>, n: nat)
    requires n <= |ps|
    ensures RowFirst(obj, t, ps, n).Ok? <==> forall j | 0 <= j < n :: Held(obj, t, ps[j].name)
  {
    if n > 0 {
      RowBinds(obj, t, ps, n - 1);
      HeldIs(obj, t, ps[n - 1].name);
      hide Held, BindValue;
    }
  }

  lemma {:induction false} RowsBind(r: Resolved, ps: seq<Place>, n: nat)
    requires n <= |r.objs|
    ensures RowsFirst(r, ps, n).Ok? <==>
      forall i, j | 0 <= i < n && 0 <= j < |ps| :: Held(r.objs[i], r.ti, ps[j].name)
  {
    if n > 0 {
      RowsBind(r, ps, n - 1);
      RowBinds(r.objs[n - 1], r.ti, ps, |ps|);
      hide Held, RowFirst;
    }
  }

  /** A batch binds if and only if there are objects and names, the names form one group, all
      arguments are structs or maps, and every object holds every name by the type info of the
      first struct. */
  lemma {:induction false} BatchBinds(q: string, args: seq<Arg>)
    ensures ManySpec(q, args).Ok? <==>
      && args != [] && NamedIn(q) != [] && OneGroup(q, NamedIn(q), |NamedIn(q)|)
      && (forall i | 0 <= i < |args| :: args[i].Obj?)
      && exists t :: FirstStruct(args, |args|, t) && AllHeld(args, t, NamedIn(q))
  {
    var named := NamedIn(q);
    assert named == Pick(Named, Places(q));
    ResolvedFirst(args, |args|);
    var r := ResolveFirst(args, |args|);
    if r.Ok? {
      RowsBind(r.value, named, |args|);
      OneFirst(args, r.value.ti);
    }
    hide NamedIn, Pick, Places, OneGroup, ResolveFirst, RowsFirst, ManyText, FirstStruct, Held, Ordered;
  }

  /** And otherwise it gives the first error: for the query or an empty batch; for the first argument
      that is no struct or map, or is the first struct and has a bad tag; or else for the first name
      of the first object that holds no value under it. */
  lemma {:induction false} BatchFails(q: string, args: seq<Arg>)
    requires ManySpec(q, args).Err?
    ensures var named, e := NamedIn(q), ManySpec(q, args).error;
      if args == [] || named == [] || !OneGroup(q, named, |named|) then e == UnsupportedType
      else if exists i :: 0 <= i < |args| && Unfit(args, i) then ArgFails(args, e)
      else exists t :: FirstStruct(args, |args|, t) && RowFails(args, t, named, e)
  {
    var named := NamedIn(q);
    assert named == Pick(Named, Places(q));
    ResolvedFirst(args, |args|);
    ResolveFails(args, |args|);
    var r := ResolveFirst(args, |args|);
    if r.Ok? { RowsFail(args, r.value, named, |args|); }
    hide NamedIn, Pick, Places, OneGroup, ResolveFirst, RowsFirst, ManyText, FirstStruct, Unfit, ArgFails, RowFails;
  }

  /** No struct or map, or the first struct and that with a bad tag. */
  ghost predicate Unfit(args: seq<Arg>, i: nat)
    requires i < |args|
  {
    args[i].Obj? ==>
      && args[i].obj.StructObj? && args[i].obj.typ.BadTag?
      && forall k | 0 <= k < i && args[k].Obj? :: !args[k].obj.StructObj?
  }

  ghost predicate ArgFails(args: seq<Arg>, e: Error) {
    exists i :: && 0 <= i < |args| && Unfit(args, i) && (forall k | 0 <= k < i :: !Unfit(args, k))
      && e == if args[i].Obj? then TagInvalid else UnsupportedType
  }

  lemma {:induction false} ResolveFails(args: seq<Arg>, n: nat)
    requires n <= |args|
    ensures ResolveFirst(args, n).Ok? <==> forall i | 0 <= i < n :: !Unfit(args, i)
    ensures ResolveFirst(args, n).Err? ==> ArgFails(args, ResolveFirst(args, n).error)
  {
    if n > 0 {
      ResolveFails(args, n - 1);
      ResolvedFirst(args, n - 1);
      var before := ResolveFirst(args, n - 1);
      if before.Ok? && before.value.ti.Some? {
        var i :| 0 <= i < n - 1 && IsFirstStruct(args, i, before.value.ti.value);
        assert args[n - 1].Obj? ==> !Unfit(args, n - 1);
      }
      if before.Ok? && ResolveFirst(args, n).Err? { assert Unfit(args, n - 1); }
    }
  }

  /** The first value that an object does not have. */
  ghost predicate RowFails(args: seq<Arg>, t: Option<StructType>, named: seq<Place>, e: Error) {
    exists i, j :: && 0 <= i < |args| && 0 <= j < |named| && args[i].Obj?
      && Unheld(args[i].obj, t, named[j].name, e)
      && (forall k | 0 <= k < j :: Held(args[i].obj, t, named[k].name))
      && forall h, k | 0 <= h < i && 0 <= k < |named| && args[h].Obj? :: Held(args[h].obj, t, named[k].name)
  }

  lemma {:induction false} RowsFail(args: seq<Arg>, r: Resolved, ps: seq<Place>, n: nat)
    requires n <= |r.objs| == |args| && forall i | 0 <= i < |args| :: args[i] == Obj(r.objs[i])
    ensures RowsFirst(r, ps, n).Err? ==> RowFails(args, r.ti, ps, RowsFirst(r, ps, n).error)
  {
    if n > 0 {
      hide RowFails, RowFirst;
      RowsFail(args, r, ps, n - 1);
      if RowsFirst(r, ps, n - 1).Ok? && RowFirst(r.objs[n - 1], r.ti, ps, |ps|).Err? {
        hide RowsFirst;
        RowFailsAt(args, r, ps, n - 1);
      }
    }
  }

  lemma {:induction false} RowFailsAt(args: seq<Arg>, r: Resolved, ps: seq<Place>, i: nat)
    requires i < |r.objs| == |args| && forall k | 0 <= k < |args| :: args[k] == Obj(r.objs[k])
    requires RowsFirst(r, ps, i).Ok? && RowFirst(r.objs[i], r.ti, ps, |ps|).Err?
    ensures RowFails(args, r.ti, ps, RowFirst(r.objs[i], r.ti, ps, |ps|).error)
  {
    hide Held, RowFirst, RowsFirst, Unheld;
    RowsBind(r, ps, i);
    var j := FirstUnheld(r.objs[i], r.ti, ps, |ps|);
    assert args[i] == Obj(r.objs[i]);
  }

  lemma {:induction false} FirstUnheld(obj: Object, t: Option<StructType>, ps: seq<Place>, n: nat) returns (j: nat)
    requires n <= |ps| && RowFirst(obj, t, ps, n).Err?
    ensures j < n && Unheld(obj, t, ps[j].name, RowFirst(obj, t, ps, n).error)
    ensures forall k | 0 <= k < j :: Held(obj, t, ps[k].name)
  {
    if RowFirst(obj, t, ps, n - 1).Err? {
      j := FirstUnheld(obj, t, ps, n - 1);
    } else {
      RowBinds(obj, t, ps, n - 1);
      BindValueFails(obj, t, ps[n - 1].name, RowFirst(obj, t, ps, n).error);
      j := n - 1;
    }
  }

  ghost predicate AllHeld(args: seq<Arg>, t: Option<StructType>, named: seq<Place>) {
    forall i, j | 0 <= i < |args| && 0 <= j < |named| && args[i].Obj? :: Held(args[i].obj, t, named[j].name)
  }

  lemma {:induction false} OneFirst(args: seq<Arg>, t: Option<StructType>)
    requires FirstStruct(args, |args|, t)
    ensures forall u | FirstStruct(args, |args|, u) :: u == t
  {
    forall u | FirstStruct(args, |args|, u) ensures u == t {
      if u.Some? && t.Some? {
        var i :| 0 <= i < |args| && IsFirstStruct(args, i, t.value);
        var k :| 0 <= k < |args| && IsFirstStruct(args, k, u.value);
      }
    }
  }

  lemma {:induction false} ResolvedCount(args: seq<Arg>)
    requires ResolveFirst(args, |args|).Ok?
    ensures |ResolveFirst(args, |args|).value.objs| == |args|
  {}

  // ----- a batch of one -----

  function OneEach(vs: seq<Value>): seq<B.Part> {
    seq(|vs|, i requires 0 <= i < |vs| => B.Part([vs[i]], vs[i]))
  }

  lemma {:induction false} RowIsParts(obj: Object, ti: Option<StructType>, ps: seq<Place>, n: nat, cfg: Config)
    requires n <= |ps| && !cfg.sliceExpansion
    ensures B.BindFirst(obj, ti, ps, n, cfg) ==
      match RowFirst(obj, ti, ps, n)
      case Err(e) => Err(e)
      case Ok(vs) => Ok(OneEach(vs))
  {
    assert OneEach([]) == [];
    if n > 0 {
      RowIsParts(obj, ti, ps, n - 1, cfg);
      var row, v := RowFirst(obj, ti, ps, n - 1), BindValue(obj, ti, ps[n - 1].name);
      if row.Ok? && v.Ok? {
        assert OneEach(row.value + [v.value]) == OneEach(row.value) + [B.Part([v.value], v.value)];
      }
    }
  }

  lemma {:induction false} OneEachArgs(vs: seq<Value>)
    ensures B.Filled(OneEach(vs)) && B.MarksOf(OneEach(vs)) == Ones(|vs|)
    ensures B.ArgsOf(OneEach(vs)) == vs && B.BindArgsOf(OneEach(vs)) == vs
  {
    if vs != [] {
      var n := |vs| - 1;
      OneEachArgs(vs[..n]);
      assert OneEach(vs)[..n] == OneEach(vs[..n]);
    }
  }

  /** Replacing the names in place, as the text around the group. */
  lemma {:induction false} SplicedAround(q: string, named: seq<Place>, a: Items, g: Items, r: Items)
    requires named == Pick(Named, Places(q)) && named != [] && Ordered(named, |q|) && Around(q, named, a, g, r)
    ensures Splice(q, named, Texts(Ones(|named|))) == Render(Concat(Concat(a, Question(g)), r))
  {
    var ones := Ones(|named|);
    PickCount(Named, q);
    SpliceIsSubst(Named, q, ones);
    SubstAfter(Named, a, g, ones);
    SubstNone(Named, Concat(a, g), r, ones);
  }

  /** One copy of the fragment is the query with its names replaced in place if and only if the
      names are the same. */
  lemma {:induction false} OneCopy(q: string)
    requires NamedIn(q) != []
    ensures ManyText(q, NamedIn(q), 1) == Splice(q, NamedIn(q), Texts(Ones(|NamedIn(q)|))) <==> SameNames(q, NamedIn(q))
  {
    var named := NamedIn(q);
    assert named == Pick(Named, Places(q));
    assert Repeated(q, named, 1) == Concat(Concat(Front(q, named), Question(Group(q, named))), Tail(q, named));
    hide *;
    Surround(q, named);
    SplicedAround(q, named, Front(q, named), Group(q, named), Tail(q, named));
    TextIsRepeated(q, named, 1);
  }

  /** The values of one object beside a given text. */
  function RowBound(x: Object, named: seq<Place>, sql: string): Result<B.Bound, Error> {
    var info := TypeInfo(x);
    if info.Err? then Err(info.error) else
      var row := RowFirst(x, info.value, named, |named|);
      if row.Err? then Err(row.error) else Ok(B.Bound(sql, row.value, row.value))
  }

  lemma {:induction false} ManySpecOne(q: string, x: Object)
    requires NamedIn(q) != [] && OneGroup(q, NamedIn(q), |NamedIn(q)|)
    ensures ManySpec(q, [Obj(x)]) == RowBound(x, NamedIn(q), ManyText(q, NamedIn(q), 1))
  {
    hide OneGroup, ManyText, RowFirst, Places;
    var args := [Obj(x)];
    assert ResolveFirst(args, 0) == Ok(Resolved([], None));
    if TypeInfo(x).Ok? {
      var ti := TypeInfo(x).value;
      assert [] + [x] == [x];
      assert ResolveFirst(args, 1) == Ok(Resolved([x], ti));
      assert RowsFirst(Resolved([x], ti), NamedIn(q), 0) == Ok([]);
      var row := RowFirst(x, ti, NamedIn(q), |NamedIn(q)|);
      if row.Ok? { assert [] + row.value == row.value; }
      assert RowsFirst(Resolved([x], ti), NamedIn(q), 1) == row;
    }
  }

  lemma {:induction false} BindSpecOne(q: string, x: Object, cfg: Config)
    requires NamedIn(q) != [] && !cfg.sliceExpansion
    ensures B.BindSpec(q, Obj(x), cfg) ==
      RowBound(x, NamedIn(q), Splice(q, NamedIn(q), Texts(Ones(|NamedIn(q)|))))
  {
    hide Splice, RowFirst, Places, Texts, Ones, Render;
    var info := TypeInfo(x);
    if info.Ok? {
      RowIsParts(x, info.value, NamedIn(q), |NamedIn(q)|, cfg);
      var row := RowFirst(x, info.value, NamedIn(q), |NamedIn(q)|);
      if row.Ok? { OneEachArgs(row.value); }
    }
  }

  /** A batch of one and single binding, for every query with names. When the names form one
      group, both fail alike; when they do not fail, they agree in text and arguments if and only
      if the fragment on its own has the group's names. Several groups a batch refuses. */
  lemma {:induction false} BatchOfOne(q: string, x: Object, cfg: Config)
    requires NamedIn(q) != [] && !cfg.sliceExpansion
    ensures var many, one := ManySpec(q, [Obj(x)]), B.BindSpec(q, Obj(x), cfg);
      many == one <==>
        if OneGroup(q, NamedIn(q), |NamedIn(q)|) then one.Err? || SameNames(q, NamedIn(q))
        else one == Err(UnsupportedType)
  {
    var many, one := ManyText(q, NamedIn(q), 1), Splice(q, NamedIn(q), Texts(Ones(|NamedIn(q)|)));
    hide *;
    if OneGroup(q, NamedIn(q), |NamedIn(q)|) {
      ManySpecOne(q, x);
      BindSpecOne(q, x, cfg);
      OneCopy(q);
      SameRow(x, NamedIn(q), many, one);
    } else {
      SeveralGroups(q, [Obj(x)]);
    }
  }

  lemma SameRow(x: Object, named: seq<Place>, s: string, t: string)
    ensures RowBound(x, named, s) == RowBound(x, named, t) <==> RowBound(x, named, t).Err? || s == t
  { hide RowFirst, TypeInfo; }

  lemma SeveralGroups(q: string, args: seq<Arg>)
    requires !OneGroup(q, NamedIn(q), |NamedIn(q)|)
    ensures ManySpec(q, args) == Err(UnsupportedType)
  {
    assert NamedIn(q) == Pick(Named, Places(q));
    hide NamedIn, Pick, Places, OneGroup, ResolveFirst;
  }
}
