/** What the placeholder lexer finds, told without it: a text is a row of tokens, and its
    placeholders are the marks and names among them. Quotes of a kind are doubled inside a
    literal by putting two literals side by side. */
module Tokens {
  import opened Wrappers
  import opened Lexer
  import opened Rewrite

  /** Stretches that hide what is in them. */
  datatype Cover = Single | Double | Back | Dashes | Stars

  function Opens(k: Cover): string {
    match k
    case Single => "'"
    case Double => "\""
    case Back => "`"
    case Dashes => "--"
    case Stars => "/*"
  }

  function Closes(k: Cover): string {
    match k
    case Single => "'"
    case Double => "\""
    case Back => "`"
    case Dashes => "\n"
    case Stars => "*/"
  }

  ghost predicate Unclosed(k: Cover, body: string) {
    forall i | 0 <= i <= |body| :: !(Closes(k) <= body[i..])
  }

  function Digits(): string { "0123456789" }
  function Capitals(): string { "ABCDEFGHIJKLMNOPQRSTUVWXYZ" }
  function Smalls(): string { "abcdefghijklmnopqrstuvwxyz" }

  predicate Word(c: char) { c == '_' || c in Digits() || c in Capitals() || c in Smalls() }

  datatype Token = Covered(kind: Cover, body: string) | Cast | Param(name: string) | Mark | Byte(c: char)

  function Spell(t: Token): string {
    match t
    case Covered(k, body) => Opens(k) + body + Closes(k)
    case Cast => "::"
    case Param(name) => ":" + name
    case Mark => "?"
    case Byte(c) => [c]
  }

  function Spelled(ts: seq<Token>): string {
    if ts == [] then "" else Spell(ts[0]) + Spelled(ts[1..])
  }

  ghost predicate Well(t: Token) {
    match t
    case Covered(k, body) => Unclosed(k, body)
    case Param(name) => name != "" && forall c <- name :: Word(c)
    case Byte(c) => c !in "'\"`?"
    case _ => true
  }

  /** The token ends where it does although the text goes on. */
  predicate Parted(t: Token, text: string) {
    text != "" ==>
      match t
      case Param(_) => !Word(text[0])
      case Byte('-') => text[0] != '-'
      case Byte('/') => text[0] != '*'
      case Byte(':') => text[0] != ':' && !Word(text[0])
      case _ => true
  }

  /** Nothing, or a stretch that never closes. */
  ghost predicate Open(tail: string) {
    tail == "" || exists k: Cover, body :: tail == Opens(k) + body && Unclosed(k, body)
  }

  /** The tokens and what is left open behind them make up their text. */
  ghost predicate Reads(ts: seq<Token>, tail: string) {
    if ts == [] then Open(tail)
    else Well(ts[0]) && Parted(ts[0], Spelled(ts[1..]) + tail) && Reads(ts[1..], tail)
  }

  /** The marks and names, from offset `from` on. */
  function Found(ts: seq<Token>, from: nat): seq<Place> {
    if ts == [] then [] else FoundHere(ts[0], from) + Found(ts[1..], from + |Spell(ts[0])|)
  }

  function FoundHere(t: Token, from: nat): seq<Place> {
    match t
    case Mark => [Place("", from, from + 1)]
    case Param(name) => [Place(name, from, from + 1 + |name|)]
    case _ => []
  }

  /** The placeholders of a text are the marks and names among its tokens. */
  lemma {:induction false} PlacesExactly(ts: seq<Token>, tail: string)
    requires Reads(ts, tail)
    ensures Places(Spelled(ts) + tail) == Found(ts, 0)
  {
    TokensWalk(Code, ts, tail);
    WalkIsLex(ItemsOf(ts, tail));
    TokensRender(ts, tail);
    TokensFound(Nil, ts, tail);
    NilConcat(ItemsOf(ts, tail));
  }

  /** And every text is made up of tokens. */
  lemma {:induction false} EveryTextReads(q: string) returns (ts: seq<Token>, tail: string)
    ensures Reads(ts, tail) && Spelled(ts) + tail == q
    decreases |q|
  {
    if q == "" {
      ts, tail := [], "";
    } else if k: Cover :| Opens(k) <= q {
      hide Unclosed, Closes, Opens, Parted;
      var s := q[|Opens(k)|..];
      var n, closed := CloseIn(k, s);
      assert q == Opens(k) + s;
      if closed {
        CoveredFront(k, s, n);
        ts, tail := ReadOn(Covered(k, s[..n]), q);
      } else {
        assert s[..n] == s;
        ts, tail := [], q;
      }
    } else {
      var t := BareToken(q);
      ts, tail := ReadOn(t, q);
    }
  }

  lemma CoveredFront(k: Cover, s: string, n: nat)
    requires n <= |s| && Closes(k) <= s[n..]
    ensures var t, q := Covered(k, s[..n]), Opens(k) + s; Spell(t) <= q && Parted(t, q[|Spell(t)|..])
  {
    hide Opens, Closes;
    assert Spell(Covered(k, s[..n])) == Opens(k) + (s[..n] + Closes(k));
    assert s == s[..n] + s[n..];
  }

  lemma BareToken(q: string) returns (t: Token)
    requires q != "" && forall k: Cover :: !(Opens(k) <= q)
    ensures Well(t) && Spell(t) <= q && Parted(t, q[|Spell(t)|..])
  {
    hide Word;
    var n := WordsIn(q[1..]);
    if "::" <= q { return Cast; }
    if q[0] == '?' { return Mark; }
    if q[0] == ':' && n > 0 { return Param(q[1..n + 1]); }
    assert !(Opens(Single) <= q) && !(Opens(Double) <= q) && !(Opens(Back) <= q);
    assert !(Opens(Dashes) <= q) && !(Opens(Stars) <= q);
    t := Byte(q[0]);
  }

  lemma {:induction false} ReadOn(t: Token, q: string) returns (ts: seq<Token>, tail: string)
    requires Well(t) && Spell(t) <= q && Parted(t, q[|Spell(t)|..])
    ensures Reads(ts, tail) && Spelled(ts) + tail == q
    decreases |q|, 0
  {
    SpellSome(t);
    hide Well, Spell, Parted, Open;
    var more;
    more, tail := EveryTextReads(q[|Spell(t)|..]);
    ts := [t] + more;
    assert ts[1..] == more;
    assert Spelled(ts) + tail == Spell(t) + (Spelled(more) + tail);
  }

  lemma SpellSome(t: Token)
    ensures Spell(t) != ""
  {}

  lemma CloseIn(k: Cover, s: string) returns (n: nat, closed: bool)
    ensures n <= |s| && Unclosed(k, s[..n])
    ensures if closed then Closes(k) <= s[n..] else n == |s|
  {
    n := 0;
    while n < |s| && !(Closes(k) <= s[n..])
      invariant n <= |s| && forall i | 0 <= i < n :: !(Closes(k) <= s[i..])
    {
      n := n + 1;
    }
    closed := n < |s|;
    forall i | 0 <= i <= n ensures !(Closes(k) <= s[..n][i..]) { ClosesLonger(k, s, n, i); }
  }

  lemma ClosesLonger(k: Cover, s: string, n: nat, i: nat)
    requires i <= n <= |s|
    ensures Closes(k) <= s[..n][i..] ==> i < n && Closes(k) <= s[i..]
  {
    assert s[..n][i..] == s[i..n] <= s[i..];
  }

  lemma WordsIn(s: string) returns (n: nat)
    ensures n <= |s| && (forall c <- s[..n] :: Word(c)) && (n < |s| ==> !Word(s[n]))
  {
    n := 0;
    while n < |s| && Word(s[n])
      invariant n <= |s| && forall c <- s[..n] :: Word(c)
    {
      n := n + 1;
    }
  }

  // ----- tokens as items -----

  function Txts(s: string): Items { if s == "" then Nil else Snoc(Txts(s[..|s| - 1]), Txt(s[|s| - 1])) }

  function Chunk(t: Token): Items {
    match t
    case Mark => Snoc(Nil, Pos)
    case Param(name) => Snoc(Nil, Nam(name))
    case _ => Txts(Spell(t))
  }

  function ItemsOf(ts: seq<Token>, tail: string): Items {
    if ts == [] then Txts(tail) else Concat(Chunk(ts[0]), ItemsOf(ts[1..], tail))
  }

  /** The characters of `s` are the `n` from `first` on. */
  ghost predicate Run(s: string, first: char, n: nat) {
    |s| == n && forall k | 0 <= k < n :: s[k] as int == first as int + k
  }

  lemma DigitsRun()
    ensures Run(Digits(), '0', 10)
  {}

  lemma CapitalsRun()
    ensures Run(Capitals(), 'A', 26)
  {}

  lemma SmallsRun()
    ensures Run(Smalls(), 'a', 26)
  {}

  lemma InRun(s: string, first: char, n: nat, c: char)
    requires Run(s, first, n)
    ensures c in s <==> first as int <= c as int < first as int + n
  {
    if first as int <= c as int < first as int + n { assert s[c as int - first as int] == c; }
  }

  lemma {:induction false} Alphabet(c: char)
    ensures Word(c) <==> IsIdentChar(c)
  {
    hide Digits, Capitals, Smalls, Run;
    DigitsRun();
    CapitalsRun();
    SmallsRun();
    InRun(Digits(), '0', 10, c);
    InRun(Capitals(), 'A', 26, c);
    InRun(Smalls(), 'a', 26, c);
  }

  lemma Txts1(c: char)
    ensures Txts([c]) == Snoc(Nil, Txt(c))
  { TxtsSnoc("", c); }

  lemma TxtsSnoc(s: string, c: char)
    ensures Txts(s + [c]) == Snoc(Txts(s), Txt(c))
  { assert (s + [c])[..|s|] == s; }

  lemma {:induction false} TxtsRender(s: string)
    ensures Render(Txts(s)) == s && PlacesOf(Txts(s)) == []
  {
    if s != "" { TxtsRender(s[..|s| - 1]); }
  }

  lemma {:induction false} TokensRender(ts: seq<Token>, tail: string)
    ensures Render(ItemsOf(ts, tail)) == Spelled(ts) + tail
  {
    if ts == [] {
      TxtsRender(tail);
    } else {
      TokensRender(ts[1..], tail);
      RenderConcat(Chunk(ts[0]), ItemsOf(ts[1..], tail));
      ChunkRender(ts[0]);
    }
  }

  lemma {:induction false} ChunkRender(t: Token)
    ensures Render(Chunk(t)) == Spell(t)
  { TxtsRender(Spell(t)); }

  lemma {:induction false} PlacesConcat(xs: Items, s: string)
    ensures PlacesOf(Concat(xs, Txts(s))) == PlacesOf(xs)
  {
    if s != "" { PlacesConcat(xs, s[..|s| - 1]); }
  }

  lemma {:induction false} TokensFound(xs: Items, ts: seq<Token>, tail: string)
    ensures PlacesOf(Concat(xs, ItemsOf(ts, tail))) == PlacesOf(xs) + Found(ts, |Render(xs)|)
    decreases |ts|
  {
    if ts == [] {
      PlacesConcat(xs, tail);
    } else {
      FoundTurn(xs, ts, tail);
      hide *;
      TokensFound(Concat(xs, Chunk(ts[0])), ts[1..], tail);
    }
  }

  lemma {:induction false} FoundTurn(xs: Items, ts: seq<Token>, tail: string)
    requires ts != []
    ensures var ys := Concat(xs, Chunk(ts[0]));
      && Concat(xs, ItemsOf(ts, tail)) == Concat(ys, ItemsOf(ts[1..], tail))
      && PlacesOf(xs) + Found(ts, |Render(xs)|) == PlacesOf(ys) + Found(ts[1..], |Render(ys)|)
  {
    hide *;
    var t, from := ts[0], |Render(xs)|;
    Turn(ts, tail, from);
    ConcatAssoc(xs, Chunk(t), ItemsOf(ts[1..], tail));
    RenderConcat(xs, Chunk(t));
    ChunkRender(t);
    ChunkFound(xs, t);
  }

  lemma Turn(ts: seq<Token>, tail: string, from: nat)
    requires ts != []
    ensures ItemsOf(ts, tail) == Concat(Chunk(ts[0]), ItemsOf(ts[1..], tail))
    ensures Found(ts, from) == FoundHere(ts[0], from) + Found(ts[1..], from + |Spell(ts[0])|)
  {}

  lemma {:induction false} ChunkFound(xs: Items, t: Token)
    ensures PlacesOf(Concat(xs, Chunk(t))) == PlacesOf(xs) + FoundHere(t, |Render(xs)|)
  {
    if !t.Mark? && !t.Param? { PlacesConcat(xs, Spell(t)); }
  }

  // ----- and their walk -----

  /** The first byte of the text does not combine with what stands before it. */
  ghost predicate Joins(st: State, text: string) {
    InCode(st) && (text != "" ==> Next(st, text[0]) == FromCode(text[0]) && !Grows(st, text[0]))
  }

  /** Where the automaton stands in a stretch, and behind a token. */
  function Inside(k: Cover, body: string): State {
    match k
    case Dashes => Line
    case Stars => if body != "" && body[|body| - 1] == '*' then BlockStar else Block
    case _ => Quoted(Opens(k)[0])
  }

  function After(t: Token): State {
    match t
    case Param(_) => Name
    case Byte(c) => FromCode(c)
    case _ => Code
  }

  lemma {:induction false} BodyWalks(st: State, k: Cover, body: string)
    requires Joins(st, Opens(k)) && Unclosed(k, body)
    ensures Walk(st, Txts(Opens(k) + body)) == Some(Inside(k, body))
  {
    if body == "" {
      assert Opens(k) + body == Opens(k);
      OpenWalks(st, k);
    } else {
      hide Joins, Opens, Txts, Take, Inside, Unclosed;
      var init, c := body[..|body| - 1], body[|body| - 1];
      UnclosedFront(k, body);
      BodyWalks(st, k, init);
      assert Opens(k) + body == (Opens(k) + init) + [c];
      TxtsSnoc(Opens(k) + init, c);
      StaysInside(k, body);
    }
  }

  lemma {:induction false} OpenWalks(st: State, k: Cover)
    requires Joins(st, Opens(k))
    ensures Walk(st, Txts(Opens(k))) == Some(Inside(k, ""))
  {
    var open := Opens(k);
    FirstWalks(st, open[0]);
    hide Walk, Txts, Joins;
    assert InCode(FromCode(open[0])) || |open| == 1;
    if |open| > 1 {
      assert open == [open[0]] + [open[1]];
      SnocWalks(st, [open[0]], open[1]);
    } else {
      assert open == [open[0]];
    }
  }

  lemma FirstWalks(st: State, c: char)
    requires Joins(st, [c]) && c != '?'
    ensures Walk(st, Txts([c])) == Some(FromCode(c))
  { Txts1(c); }

  lemma SnocWalks(st: State, s: string, c: char)
    ensures var w := Walk(st, Txts(s));
      Walk(st, Txts(s + [c])) == if w.None? then None else Take(w.value, Txt(c))
  { TxtsSnoc(s, c); }

  lemma UnclosedFront(k: Cover, body: string)
    requires body != "" && Unclosed(k, body)
    ensures Unclosed(k, body[..|body| - 1])
  {
    var n := |body| - 1;
    forall i | 0 <= i <= n ensures !(Closes(k) <= body[..n][i..]) { ClosesLonger(k, body, n, i); }
  }

  lemma StaysInside(k: Cover, body: string)
    requires body != "" && Unclosed(k, body)
    ensures Take(Inside(k, body[..|body| - 1]), Txt(body[|body| - 1])) == Some(Inside(k, body))
  {
    var n := |body| - 1;
    if k.Stars? {
      if n > 0 {
        assert !(Closes(k) <= body[n - 1..]);
        assert body[n - 1..] == [body[n - 1], body[n]];
      }
    } else {
      assert !(Closes(k) <= body[n..]);
      assert body[n..] == [body[n]];
      hide Unclosed;
      assert |Closes(k)| == 1;
    }
  }

  lemma {:induction false} CloseWalks(st: State, k: Cover, body: string)
    requires Joins(st, Opens(k)) && Unclosed(k, body)
    ensures Walk(st, Txts(Opens(k) + body + Closes(k))) == Some(Code)
  {
    hide Walk, Txts, Joins, Unclosed;
    BodyWalks(st, k, body);
    var s, close := Opens(k) + body, Closes(k);
    SnocWalks(st, s, close[0]);
    if |close| > 1 {
      SnocWalks(st, s + [close[0]], close[1]);
      assert s + close == (s + [close[0]]) + [close[1]];
    } else {
      assert s + close == s + [close[0]];
    }
  }

  lemma {:induction false} TokenWalks(st: State, t: Token)
    requires Joins(st, Spell(t)) && Well(t)
    ensures Walk(st, Chunk(t)) == Some(After(t))
  {
    match t
    case Covered(k, body) => CloseWalks(st, k, body);
    case Cast =>
      Txts1(':');
      TxtsSnoc([':'], ':');
    case Param(name) => forall c | c in name ensures IsIdentChar(c) { Alphabet(c); }
    case Mark =>
    case Byte(c) => Txts1(c);
  }

  lemma {:induction false} PartedJoins(t: Token, text: string)
    requires Well(t) && Parted(t, text)
    ensures Joins(After(t), text)
  {
    if text != "" { Alphabet(text[0]); }
  }

  lemma {:induction false} TokensWalk(st: State, ts: seq<Token>, tail: string)
    requires Joins(st, Spelled(ts) + tail) && Reads(ts, tail)
    ensures Walk(st, ItemsOf(ts, tail)).Some?
    decreases |ts|
  {
    if ts != [] {
      var t, rest := ts[0], Spelled(ts[1..]) + tail;
      assert Spelled(ts) + tail == Spell(t) + rest;
      TokenWalks(st, t);
      PartedJoins(t, rest);
      TokensWalk(After(t), ts[1..], tail);
      WalkConcat(st, Chunk(t), ItemsOf(ts[1..], tail));
    } else if tail != "" {
      assert Spelled(ts) + tail == tail;
      var k: Cover, body :| tail == Opens(k) + body && Unclosed(k, body);
      BodyWalks(st, k, body);
    }
  }
}
