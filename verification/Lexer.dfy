/** The placeholder lexer of bind.go.

    SQL text is a `string` whose characters stand for bytes. The lexer is given twice: as a
    one-byte-at-a-time automaton (`Step`, folded by `LexTo`) that splits the text into items,
    and as the nested scanning loops of the original (`ParsePlaceholders`), proved to find
    exactly the places of the automaton's items. */
module Lexer {
  import opened Wrappers

  /** Where the automaton stands. `Dash`, `Slash`, `Colon` and `Name` are code in which the
      last byte may still combine with the next one. A doubled quote closes and reopens. */
  datatype State = Code | Dash | Slash | Colon | Name | Quoted(quote: char) | Line | Block | BlockStar

  /** One lexed piece: a byte of plain text, a `?`, or a `:name`. */
  datatype Item = Txt(c: char) | Pos | Nam(name: string)

  /** The lexed pieces of a text, the last one outermost. */
  datatype Items = Nil | Snoc(init: Items, last: Item)

  datatype Lexed = Lexed(st: State, items: Items)

  /** A placeholder found in a query; an empty name means `?`. */
  datatype Place = Place(name: string, pos: nat, end: nat)

  predicate IsIdentChar(c: char) {
    c == '_' || 'a' <= c <= 'z' || 'A' <= c <= 'Z' || '0' <= c <= '9'
  }

  predicate IsName(s: string) {
    s != "" && forall k | 0 <= k < |s| :: IsIdentChar(s[k])
  }

  predicate IsQuote(c: char) { c == '\'' || c == '"' || c == '`' }

  predicate InCode(st: State) {
    st.Code? || st.Dash? || st.Slash? || st.Colon? || st.Name?
  }

  function FromCode(c: char): State {
    if IsQuote(c) then Quoted(c)
    else if c == '-' then Dash
    else if c == '/' then Slash
    else if c == ':' then Colon
    else Code
  }

  function Next(st: State, c: char): State {
    match st
    case Quoted(q) => if c == q then Code else st
    case Line => if c == '\n' then Code else Line
    case Block => if c == '*' then BlockStar else Block
    case BlockStar => if c == '/' then Code else if c == '*' then BlockStar else Block
    case Dash => if c == '-' then Line else FromCode(c)
    case Slash => if c == '*' then Block else FromCode(c)
    case Colon => if c == ':' then Code else if IsIdentChar(c) then Name else FromCode(c)
    case Name => if IsIdentChar(c) then Name else FromCode(c)
    case Code => FromCode(c)
  }

  /** In `Colon` the last item is the pending colon, in `Name` the growing name. */
  predicate Consistent(l: Lexed) {
    && (l.st.Colon? ==> l.items.Snoc? && l.items.last == Txt(':'))
    && (l.st.Name? ==> l.items.Snoc? && l.items.last.Nam?)
  }

  /** Whether the byte extends the last item, turning the colon into a name or growing it. */
  predicate Grows(st: State, c: char) { (st.Colon? || st.Name?) && IsIdentChar(c) }

  function Step(l: Lexed, c: char): (r: Lexed)
    requires Consistent(l)
    ensures Consistent(r) && r.st == Next(l.st, c)
  {
    var items :=
      if Grows(l.st, c) then Snoc(l.items.init, Nam((if l.st.Name? then l.items.last.name else "") + [c]))
      else Snoc(l.items, if InCode(l.st) && c == '?' then Pos else Txt(c));
    Lexed(Next(l.st, c), items)
  }

  function LexTo(q: string, i: nat): (r: Lexed)
    requires i <= |q|
    ensures Consistent(r)
  {
    if i == 0 then Lexed(Code, Nil) else Step(LexTo(q, i - 1), q[i - 1])
  }

  function Lex(q: string): Lexed { LexTo(q, |q|) }

  // ----- items back to text, and to places -----

  function RenderItem(x: Item): string {
    match x
    case Txt(c) => [c]
    case Pos => "?"
    case Nam(n) => ":" + n
  }

  function Render(xs: Items): string {
    match xs
    case Nil => ""
    case Snoc(ys, y) => Render(ys) + RenderItem(y)
  }

  function PlaceOf(x: Item, pos: nat): seq<Place> {
    match x
    case Txt(_) => []
    case Pos => [Place("", pos, pos + 1)]
    case Nam(n) => [Place(n, pos, pos + 1 + |n|)]
  }

  function PlacesOf(xs: Items): seq<Place> {
    match xs
    case Nil => []
    case Snoc(ys, y) => PlacesOf(ys) + PlaceOf(y, |Render(ys)|)
  }

  // ----- which item sequences are lexer output -----

  function Take(st: State, x: Item): Option<State> {
    match x
    case Txt(c) => if (InCode(st) && c == '?') || Grows(st, c) then None else Some(Next(st, c))
    case Pos => if InCode(st) then Some(Code) else None
    case Nam(n) => if InCode(st) && !st.Colon? && IsName(n) then Some(Name) else None
  }

  /** Runs the automaton over items instead of bytes; `None` when some item could not have
      been lexed at its place. */
  function Walk(st: State, xs: Items): Option<State> {
    match xs
    case Nil => Some(st)
    case Snoc(ys, y) =>
      match Walk(st, ys)
      case None => None
      case Some(s) => Take(s, y)
  }

  /** One step of the lexer is one step of the walk. */
  lemma StepIsWalk(l: Lexed, c: char)
    requires Consistent(l) && Walk(Code, l.items) == Some(l.st)
    ensures Walk(Code, Step(l, c).items) == Some(Step(l, c).st)
    ensures Render(Step(l, c).items) == Render(l.items) + [c]
  {}

  /** Everything the lexer produces is a walk, and loses no byte. */
  lemma {:induction false} LexIsWalk(q: string, i: nat)
    requires i <= |q|
    ensures Walk(Code, LexTo(q, i).items) == Some(LexTo(q, i).st)
    ensures Render(LexTo(q, i).items) == q[..i]
  {
    if i > 0 {
      LexIsWalk(q, i - 1);
      StepIsWalk(LexTo(q, i - 1), q[i - 1]);
      assert LexTo(q, i) == Step(LexTo(q, i - 1), q[i - 1]);
      hide *;
      assert q[..i] == q[..i - 1] + [q[i - 1]];
    }
  }

  /** Lexing a longer text starts like lexing its prefix. */
  lemma {:induction false} LexPrefix(q: string, t: string, i: nat)
    requires i <= |q|
    ensures LexTo(q + t, i) == LexTo(q, i)
  {
    if i > 0 { LexPrefix(q, t, i - 1); }
  }

  lemma {:induction false} LexSnoc(q: string, c: char)
    ensures Lex(q + [c]) == Step(Lex(q), c)
  { LexPrefix(q, [c], |q|); }

  lemma {:induction false} LexName(q: string, n: string)
    requires InCode(Lex(q).st) && !Lex(q).st.Colon? && IsName(n)
    ensures Lex(q + (":" + n)) == Lexed(Name, Snoc(Lex(q).items, Nam(n)))
  {
    hide LexTo;
    var m, c := n[..|n| - 1], n[|n| - 1];
    assert n == m + [c] && q + (":" + n) == (q + (":" + m)) + [c];
    LexSnoc(q + (":" + m), c);
    if m == "" {
      assert q + (":" + m) == q + [':'];
      LexSnoc(q, ':');
    } else {
      LexName(q, m);
    }
  }

  /** The converse: the text of any item sequence that walks lexes back to those items. */
  lemma {:induction false} WalkIsLex(xs: Items)
    requires Walk(Code, xs).Some?
    ensures Lex(Render(xs)) == Lexed(Walk(Code, xs).value, xs)
  {
    if xs.Snoc? {
      WalkIsLex(xs.init);
      match xs.last {
        case Txt(c) => LexSnoc(Render(xs.init), c);
        case Pos => LexSnoc(Render(xs.init), '?');
        case Nam(n) => LexName(Render(xs.init), n);
      }
    }
  }

  /** The items of a text are the only walk with that text. */
  lemma {:induction false} ItemsUnique(q: string, xs: Items)
    ensures Render(xs) == q && Walk(Code, xs).Some? <==> xs == Lex(q).items
  {
    LexIsWalk(q, |q|);
    assert q[..|q|] == q;
    if Render(xs) == q && Walk(Code, xs).Some? { WalkIsLex(xs); }
  }

  // ----- the scanning loops -----

  function Places(q: string): seq<Place> { PlacesOf(Lex(q).items) }

  function PlacesTo(q: string, i: nat): seq<Place>
    requires i <= |q|
  {
    PlacesOf(LexTo(q, i).items)
  }

  function StateAt(q: string, i: nat): State
    requires i <= |q|
  {
    LexTo(q, i).st
  }

  /** At the head of the scanning loop the next byte reads as in plain code: it does not
      combine with the byte before it, or it is the newline that ends a line comment. */
  predicate Settled(q: string, i: nat)
    requires i < |q|
  {
    && Next(StateAt(q, i), q[i]) == FromCode(q[i])
    && (InCode(StateAt(q, i)) || q[i] == '\n')
  }

  /** A byte that neither is a `?` in code nor extends a name adds no place. */
  lemma PlainByte(q: string, i: nat)
    requires i < |q|
    requires InCode(StateAt(q, i)) ==> q[i] != '?'
    requires !Grows(StateAt(q, i), q[i])
    ensures PlacesTo(q, i + 1) == PlacesTo(q, i)
    ensures StateAt(q, i + 1) == Next(StateAt(q, i), q[i])
    ensures LexTo(q, i + 1).items == Snoc(LexTo(q, i).items, Txt(q[i]))
  {}

  lemma {:induction false} MarkByte(q: string, i: nat)
    requires i < |q| && InCode(StateAt(q, i)) && q[i] == '?'
    ensures PlacesTo(q, i + 1) == PlacesTo(q, i) + [Place("", i, i + 1)]
    ensures StateAt(q, i + 1) == Code
  { LexIsWalk(q, i); }

  /** The items when the bytes of a name from the colon at `start` have been read up to `i`. */
  ghost predicate InName(q: string, start: nat, i: nat)
    requires start < i <= |q|
  {
    var xs := LexTo(q, start).items;
    if i == start + 1 then LexTo(q, i) == Lexed(Colon, Snoc(xs, Txt(':')))
    else LexTo(q, i) == Lexed(Name, Snoc(xs, Nam(q[start + 1..i])))
  }

  lemma NameByte(q: string, start: nat, i: nat)
    requires start < i < |q| && IsIdentChar(q[i]) && InName(q, start, i)
    ensures InName(q, start, i + 1)
  {}

  lemma {:induction false} NameEnd(q: string, start: nat, i: nat)
    requires start < i <= |q| && InName(q, start, i)
    ensures PlacesTo(q, i) == PlacesTo(q, start) +
      (if i == start + 1 then [] else [Place(q[start + 1..i], start, i)])
  {
    LexIsWalk(q, start);
    assert |Render(LexTo(q, start).items)| == start;
    hide LexTo, Render, Walk;
    if i == start + 1 { assert PlacesTo(q, start) + [] == PlacesTo(q, start); }
  }

  /** What the scanning loop knows at index `i`, which may have overshot the end. */
  ghost predicate Scanned(q: string, i: nat, places: seq<Place>) {
    && (i < |q| ==> Settled(q, i))
    && places == if i <= |q| then PlacesTo(q, i) else Places(q)
  }

  /** parsePlaceholders: the scanning loops find exactly the automaton's places, and stop even
      when the index overshoots the end behind an unterminated block comment. */
  method ParsePlaceholders(query: string) returns (places: seq<Place>)
    ensures places == Places(query)
  {
    places := [];
    var i: nat := 0;
    while i < |query|
      invariant Scanned(query, i, places)
      decreases |query| - i
    {
      hide LexTo, PlacesOf;
      var c := query[i];
      if IsQuote(c) {
        i := ScanQuoted(query, i, places);
      } else if c == '-' {
        i := ScanDash(query, i, places);
      } else if c == '/' {
        i := ScanSlash(query, i, places);
      } else if c == ':' {
        i, places := ScanColon(query, i, places);
      } else if c == '?' {
        MarkByte(query, i);
        places := places + [Place("", i, i + 1)];
        i := i + 1;
      } else {
        PlainByte(query, i);
        i := i + 1;
      }
    }
  }

  /** A literal, with doubled quotes inside. */
  method ScanQuoted(query: string, start: nat, ghost places: seq<Place>) returns (i: nat)
    requires start < |query| && IsQuote(query[start]) && Scanned(query, start, places)
    ensures start < i && Scanned(query, i, places)
  {
    hide LexTo, PlacesOf;
    var quote := query[start];
    PlainByte(query, start);
    i := start + 1;
    while i < |query|
      invariant start < i <= |query|
      invariant places == PlacesTo(query, i)
      invariant StateAt(query, i) == Quoted(quote)
    {
      PlainByte(query, i);
      if query[i] == quote {
        if i + 1 < |query| && query[i + 1] == quote {
          PlainByte(query, i + 1);
          i := i + 2;
          continue;
        }
        i := i + 1;
        break;
      }
      i := i + 1;
    }
  }

  /** A `--` comment up to its newline, or a lone dash. */
  method ScanDash(query: string, start: nat, ghost places: seq<Place>) returns (i: nat)
    requires start < |query| && query[start] == '-' && Scanned(query, start, places)
    ensures start < i && Scanned(query, i, places)
  {
    hide LexTo, PlacesOf;
    PlainByte(query, start);
    if start + 1 < |query| && query[start + 1] == '-' {
      PlainByte(query, start + 1);
      i := start + 2;
      while i < |query| && query[i] != '\n'
        invariant start < i <= |query|
        invariant places == PlacesTo(query, i)
        invariant StateAt(query, i) == Line
      {
        PlainByte(query, i);
        i := i + 1;
      }
    } else {
      i := start + 1;
    }
  }

  /** A block comment, past the end when it is not terminated, or a lone slash. */
  method ScanSlash(query: string, start: nat, ghost places: seq<Place>) returns (i: nat)
    requires start < |query| && query[start] == '/' && Scanned(query, start, places)
    ensures start < i && Scanned(query, i, places)
  {
    hide LexTo, PlacesOf;
    PlainByte(query, start);
    if start + 1 < |query| && query[start + 1] == '*' {
      PlainByte(query, start + 1);
      i := start + 2;
      while i + 1 < |query| && !(query[i] == '*' && query[i + 1] == '/')
        invariant start + 2 <= i <= |query|
        invariant places == PlacesTo(query, i)
        invariant StateAt(query, i) == Block || (StateAt(query, i) == BlockStar && query[i - 1] == '*')
        invariant StateAt(query, i) == BlockStar ==> i < |query| ==> query[i] != '/'
      {
        PlainByte(query, i);
        i := i + 1;
      }
      if i < |query| {
        PlainByte(query, i);
        if i + 1 < |query| { PlainByte(query, i + 1); }
      }
      i := i + 2;
    } else {
      i := start + 1;
    }
  }

  /** A `::`, a named placeholder, or a lone colon. */
  method ScanColon(query: string, start: nat, places: seq<Place>) returns (i: nat, found: seq<Place>)
    requires start < |query| && query[start] == ':' && Scanned(query, start, places)
    ensures start < i && Scanned(query, i, found)
  {
    hide LexTo, PlacesOf;
    found := places;
    PlainByte(query, start);
    if start + 1 < |query| && query[start + 1] == ':' {
      PlainByte(query, start + 1);
      return start + 2, found; // ::cast
    }
    i := start + 1;
    var nameStart := i;
    while i < |query| && IsIdentChar(query[i])
      invariant nameStart <= i <= |query|
      invariant InName(query, start, i)
    {
      NameByte(query, start, i);
      i := i + 1;
    }
    NameEnd(query, start, i);
    if i > nameStart { // Otherwise a lone colon, ignored.
      found := found + [Place(query[nameStart..i], start, i)];
    }
  }
}
