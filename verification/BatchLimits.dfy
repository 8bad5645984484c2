/** Two batches in which the byte search finds a parenthesis that is not code: one in a literal,
    which goes wrong, and one in a comment, which does not. */
module BatchLimits {
  import opened Wrappers
  import opened Lexer
  import opened Rewrite
  import opened Values
  import B = Bind
  import opened BindMany
  import opened Batches

  const QUERY := "'(':a)"
  const BOUND := "'(':a),(':a)"

  lemma {:induction false} LexesTo(q: string, xs: Items)
    requires Render(xs) == q && Walk(Code, xs).Some?
    ensures Lex(q).items == xs
  { ItemsUnique(q, xs); }

  /** A literal `'('` up to its closing quote, and the name behind it. */
  function Head(): Items { Snoc(Snoc(Snoc(Snoc(Nil, Txt('\'')), Txt('(')), Txt('\'')), Nam("a")) }

  lemma {:induction false} HeadWalks()
    ensures Walk(Code, Head()) == Some(Name) && Render(Head()) == "'(':a"
    ensures PickedPlaces(Named, Head()) == [Place("a", 3, 5)]
  {
    var a := Snoc(Nil, Txt('\''));
    var b := Snoc(a, Txt('('));
    var c := Snoc(b, Txt('\''));
    assert Walk(Code, a) == Some(Quoted('\'')) && Render(a) == "'" && PickedPlaces(Named, a) == [];
    assert Walk(Code, b) == Some(Quoted('\'')) && Render(b) == "'(" && PickedPlaces(Named, b) == [];
    assert Walk(Code, c) == Some(Code) && Render(c) == "'('" && PickedPlaces(Named, c) == [];
    assert IsName("a");
  }

  lemma {:induction false} QueryNames()
    ensures NamedIn(QUERY) == [Place("a", 3, 5)]
  {
    var xs := Snoc(Head(), Txt(')'));
    HeadWalks();
    assert Walk(Code, xs) == Some(Code) && Render(xs) == QUERY;
    LexesTo(QUERY, xs);
    PickPlacesOf(Named, Code, xs);
  }

  /** Lexed on its own, the fragment `(':a)` opens a literal and has no name. */
  lemma {:induction false} FragmentNames()
    ensures NamedIn("(':a)") == []
  {
    var a := Snoc(Nil, Txt('('));
    var b := Snoc(a, Txt('\''));
    var c := Snoc(b, Txt(':'));
    var d := Snoc(c, Txt('a'));
    var e := Snoc(d, Txt(')'));
    assert Walk(Code, a) == Some(Code) && Render(a) == "(" && PickedPlaces(Named, a) == [];
    assert Walk(Code, b) == Some(Quoted('\'')) && Render(b) == "('" && PickedPlaces(Named, b) == [];
    assert Walk(Code, c) == Some(Quoted('\'')) && Render(c) == "(':" && PickedPlaces(Named, c) == [];
    assert Walk(Code, d) == Some(Quoted('\'')) && Render(d) == "(':a" && PickedPlaces(Named, d) == [];
    assert Walk(Code, e) == Some(Quoted('\'')) && Render(e) == "(':a)" && PickedPlaces(Named, e) == [];
    LexesTo("(':a)", e);
    PickPlacesOf(Named, Code, e);
  }

  /** The bound text up to its second `(`. */
  function Middle(): Items { Snoc(Snoc(Snoc(Head(), Txt(')')), Txt(',')), Txt('(')) }

  lemma {:induction false} MiddleWalks()
    ensures Walk(Code, Middle()) == Some(Code) && Render(Middle()) == "'(':a),("
    ensures PickedPlaces(Named, Middle()) == [Place("a", 3, 5)]
  {
    HeadWalks();
    hide Head;
    var a := Snoc(Head(), Txt(')'));
    var b := Snoc(a, Txt(','));
    assert Walk(Code, a) == Some(Code) && Render(a) == "'(':a)" && PickedPlaces(Named, a) == [Place("a", 3, 5)];
    assert Walk(Code, b) == Some(Code) && Render(b) == "'(':a)," && PickedPlaces(Named, b) == [Place("a", 3, 5)];
  }

  lemma {:induction false} BoundNames()
    ensures NamedIn(BOUND) == [Place("a", 3, 5)]
  {
    MiddleWalks();
    hide Middle;
    var ps := [Place("a", 3, 5)];
    var d := Snoc(Middle(), Txt('\''));
    var e := Snoc(d, Txt(':'));
    var f := Snoc(e, Txt('a'));
    var g := Snoc(f, Txt(')'));
    assert Walk(Code, d) == Some(Quoted('\'')) && Render(d) == "'(':a),('" && PickedPlaces(Named, d) == ps;
    assert Walk(Code, e) == Some(Quoted('\'')) && Render(e) == "'(':a),(':" && PickedPlaces(Named, e) == ps;
    assert Walk(Code, f) == Some(Quoted('\'')) && Render(f) == "'(':a),(':a" && PickedPlaces(Named, f) == ps;
    assert Walk(Code, g) == Some(Quoted('\'')) && Render(g) == BOUND && PickedPlaces(Named, g) == ps;
    LexesTo(BOUND, g);
    PickPlacesOf(Named, Code, g);
  }

  lemma {:induction false} FragmentBounds()
    ensures OpenBefore(QUERY, 3) == 1 && CloseAfter(QUERY, 5) == 6
  {
    assert QUERY[2] == '\'' && QUERY[1] == '(' && QUERY[5] == ')';
    assert OpenBefore(QUERY, 2) == 1;
  }

  lemma TwoCopies(f: string)
    ensures Repeat(f, 2) == f + "," + f
  {}

  lemma {:induction false} Bracketed()
    ensures NamedIn(QUERY) != [] && GroupStart(QUERY, NamedIn(QUERY)) == 1 && GroupEnd(QUERY, NamedIn(QUERY)) == 6
  {
    QueryNames();
    FragmentBounds();
    hide NamedIn, OpenBefore, CloseAfter, Ordered;
  }

  lemma Pieces()
    ensures QUERY[..1] == "'" && QUERY[1..6] == "(':a)" && QUERY[6..] == ""
    ensures ("'" + ("(':a)" + "," + "(':a)")) + "" == BOUND
  {}

  lemma {:induction false} FragmentKept()
    ensures ReplaceNamed("(':a)") == "(':a)"
  {
    FragmentNames();
    hide ReplaceNamed, NamedIn;
    NamesPicked("(':a)");
    ReplacedEnds("(':a)", NamedIn("(':a)"));
  }

  lemma NamesPicked(q: string)
    ensures NamedIn(q) == Pick(Named, Places(q))
  {}

  lemma {:induction false} WrittenText()
    ensures NamedIn(QUERY) != [] && ManyText(QUERY, NamedIn(QUERY), 2) == BOUND
  {
    Bracketed();
    assert ManyText(QUERY, NamedIn(QUERY), 2) == QUERY[..1] + Repeat(ReplaceNamed(QUERY[1..6]), 2) + QUERY[6..] by {
      hide NamedIn, GroupStart, GroupEnd, ReplaceNamed, Repeat;
    }
    hide *;
    Pieces();
    FragmentKept();
    TwoCopies("(':a)");
  }

  lemma {:induction false} OneValueEach(x: Object, ti: Option<StructType>, v: Value, named: seq<Place>)
    requires TypeInfo(x) == Ok(ti) && BindValue(x, ti, "a") == Ok(v) && |named| == 1 && named[0].name == "a"
    ensures ResolveFirst([Obj(x), Obj(x)], 2) == Ok(Resolved([x, x], ti))
    ensures RowsFirst(Resolved([x, x], ti), named, 2) == Ok([v, v])
  {
    var args := [Obj(x), Obj(x)];
    hide BindValue, TypeInfo;
    assert [] + [x] == [x] && [x] + [x] == [x, x] && [] + [v] == [v] && [v] + [v] == [v, v];
    assert ResolveFirst(args, 0) == Ok(Resolved([], None));
    assert ResolveFirst(args, 1) == Ok(Resolved([x], ti));
    assert RowFirst(x, ti, named, 1) == Ok([v]) by { assert RowFirst(x, ti, named, 0) == Ok([]); }
    assert RowsFirst(Resolved([x, x], ti), named, 0) == Ok([]);
    assert RowsFirst(Resolved([x, x], ti), named, 1) == Ok([v]);
  }

  lemma {:induction false} OtherNames()
    ensures NamedIn(QUERY) != [] && !SameNames(QUERY, NamedIn(QUERY))
  {
    QueryNames();
    Bracketed();
    FragmentNames();
    Pieces();
    hide NamedIn, GroupStart, GroupEnd;
  }

  /** The `(` before the only name stands in a literal: the batch of two succeeds with two
      arguments, but its text still has a named placeholder; the fragment on its own has no name. */
  lemma {:induction false} ParenthesisInLiteral(x: Object, v: Value)
    requires TypeInfo(x).Ok? && BindValue(x, TypeInfo(x).value, "a") == Ok(v)
    ensures ManySpec(QUERY, [Obj(x), Obj(x)]) == Ok(B.Bound(BOUND, [v, v], [v, v]))
    ensures NamedIn(BOUND) == [Place("a", 3, 5)]
    ensures NamedIn(QUERY) != [] && !SameNames(QUERY, NamedIn(QUERY))
  {
    QueryNames();
    BoundNames();
    WrittenText();
    OtherNames();
    OneValueEach(x, TypeInfo(x).value, v, NamedIn(QUERY));
    assert OneGroup(QUERY, NamedIn(QUERY), 1);
    assert NamedIn(QUERY) == Pick(Named, Places(QUERY));
    hide NamedIn, Places, Pick, ManyText, ResolveFirst, RowsFirst, OneGroup, SameNames, TypeInfo, BindValue, Ordered;
  }

  // ----- a parenthesis in a comment -----

  /** A line comment `--(`, and a name in brackets on the next line. */
  const COMMENTED := "--(\n:a)"

  /** Its items up to each byte; the name is one item. */
  function CommentedItems(k: nat): Items {
    if k == 0 then Nil
    else if k == 5 then Snoc(CommentedItems(4), Txt(':'))
    else if k == 6 then Snoc(CommentedItems(4), Nam("a"))
    else if k <= 7 then Snoc(CommentedItems(k - 1), Txt(COMMENTED[k - 1]))
    else Nil
  }

  const COMMENTED_STATES := [Code, Dash, Line, Line, Code, Colon, Name, Code]

  lemma {:induction false} CommentedLexed(k: nat)
    requires k <= 7
    ensures LexTo(COMMENTED, k) == Lexed(COMMENTED_STATES[k], CommentedItems(k))
  {
    if k > 0 { CommentedLexed(k - 1); }
  }

  /** The part in brackets, in place and on its own. */
  function BracketItems(k: nat): Items {
    if k == 0 then Nil
    else if k == 3 then Snoc(BracketItems(2), Txt(':'))
    else if k == 4 then Snoc(BracketItems(2), Nam("a"))
    else if k <= 5 then Snoc(BracketItems(k - 1), Txt("(\n:a)"[k - 1]))
    else Nil
  }

  const BRACKET_STATES := [Code, Code, Code, Colon, Name, Code]

  lemma {:induction false} BracketLexed(k: nat)
    requires k <= 5
    ensures LexTo("(\n:a)", k) == Lexed(BRACKET_STATES[k], BracketItems(k))
    ensures Stretch(COMMENTED, 2, 2 + k) == BracketItems(k)
  {
    CommentedLexed(2 + k);
    if k > 0 {
      CommentedLexed(1 + k);
      BracketLexed(k - 1);
      hide LexTo;
      BracketStep(k);
    }
  }

  lemma BracketStep(k: nat)
    requires 0 < k <= 5 && LexTo("(\n:a)", k - 1) == Lexed(BRACKET_STATES[k - 1], BracketItems(k - 1))
    ensures LexTo("(\n:a)", k) == Lexed(BRACKET_STATES[k], BracketItems(k))
  {}

  lemma {:induction false} BracketPlaces()
    ensures PickedPlaces(Named, CommentedItems(7)) == [Place("a", 4, 6)]
    ensures PickedPlaces(Named, BracketItems(5)) == [Place("a", 2, 4)]
  {
    assert PickedPlaces(Named, CommentedItems(4)) == [] && |Render(CommentedItems(4))| == 4;
    assert PickedPlaces(Named, BracketItems(2)) == [] && |Render(BracketItems(2))| == 2;
    assert PickedPlaces(Named, CommentedItems(6)) == [Place("a", 4, 6)];
    assert PickedPlaces(Named, BracketItems(4)) == [Place("a", 2, 4)];
  }

  lemma {:induction false} CommentedNames()
    ensures NamedIn(COMMENTED) == [Place("a", 4, 6)] && NamedIn("(\n:a)") == [Place("a", 2, 4)]
    ensures Walk(Code, BracketItems(5)).Some?
  {
    CommentedLexed(7);
    BracketLexed(5);
    BracketPlaces();
    LexIsWalk(COMMENTED, 7);
    LexIsWalk("(\n:a)", 5);
    PickPlacesOf(Named, Code, CommentedItems(7));
    PickPlacesOf(Named, Code, BracketItems(5));
    hide CommentedItems, BracketItems, PickedPlaces, Walk, PlacesOf;
  }

  lemma {:induction false} CommentedBounds()
    ensures NamedIn(COMMENTED) != []
    ensures GroupStart(COMMENTED, NamedIn(COMMENTED)) == 2 && GroupEnd(COMMENTED, NamedIn(COMMENTED)) == 7
  {
    CommentedNames();
    assert OpenBefore(COMMENTED, 3) == 2 && OpenBefore(COMMENTED, 4) == 2;
    assert CloseAfter(COMMENTED, 6) == 7;
    hide NamedIn, OpenBefore, CloseAfter, Ordered;
  }

  lemma {:induction false} SameNamesFrom(q: string, named: seq<Place>, inner: seq<Place>)
    requires named != [] && Ordered(named, |q|)
    requires NamedIn(q[GroupStart(q, named)..GroupEnd(q, named)]) == inner
    requires named == Shifted(inner, GroupStart(q, named))
    ensures SameNames(q, named)
  {}

  lemma {:induction false} RereadsFrom(q: string, named: seq<Place>)
    requires named != [] && Ordered(named, |q|)
    requires StateAt(q, GroupEnd(q, named)) == Code && Walk(Code, Group(q, named)).Some?
    ensures Rereads(q, named)
  {
    var end := QuestionWalks(Code, Group(q, named));
    hide Group, Walk, Batches.Question, GroupEnd, StateAt, Ordered;
  }

  lemma {:induction false} CommentedShift()
    ensures Shifted([Place("a", 2, 4)], 2) == [Place("a", 4, 6)] && COMMENTED[2..7] == "(\n:a)"
  {}

  lemma {:induction false} CommentedGroup()
    ensures NamedIn(COMMENTED) != [] && Ordered(NamedIn(COMMENTED), |COMMENTED|)
    ensures Group(COMMENTED, NamedIn(COMMENTED)) == BracketItems(5)
    ensures StateAt(COMMENTED, GroupStart(COMMENTED, NamedIn(COMMENTED))) == Line
    ensures StateAt(COMMENTED, GroupEnd(COMMENTED, NamedIn(COMMENTED))) == Code
  {
    CommentedBounds();
    CommentedLexed(2);
    CommentedLexed(7);
    BracketLexed(5);
    hide NamedIn, GroupStart, GroupEnd, BracketItems, CommentedItems, LexTo, Stretch;
  }

  /** The `(` before the only name stands in a comment, and yet batches of any size bind right. */
  lemma {:induction false} ParenthesisInComment(n: nat)
    ensures NamedIn(COMMENTED) != [] && !OpensInCode(COMMENTED, NamedIn(COMMENTED))
    ensures Repeatable(COMMENTED, NamedIn(COMMENTED), n)
  {
    CommentedGroup();
    CommentedNames();
    CommentedBounds();
    CommentedShift();
    hide NamedIn, GroupStart, GroupEnd, Ordered, StateAt, Group, BracketItems, Walk, Shifted, SameNames, Rereads;
    SameNamesFrom(COMMENTED, NamedIn(COMMENTED), [Place("a", 2, 4)]);
    RereadsFrom(COMMENTED, NamedIn(COMMENTED));
  }
}
