/** Replacing placeholders in lexed text: the one argument behind every rewriter of bind.go.

    `Subst` replaces the picked placeholders of an item sequence; `Splice` is what the builder
    loops compute from byte positions. The two give the same text, and when every replacement
    is safe the new text lexes to exactly the substituted items. */
module Rewrite {
  import opened Wrappers
  import opened Lexer

  datatype Kind = Named | Positional

  predicate Picked(k: Kind, x: Item) {
    if k.Named? then x.Nam? else x.Pos?
  }

  function Count(k: Kind, xs: Items): nat {
    match xs
    case Nil => 0
    case Snoc(ys, y) => Count(k, ys) + if Picked(k, y) then 1 else 0
  }

  function Concat(xs: Items, ys: Items): Items {
    match ys
    case Nil => xs
    case Snoc(zs, z) => Snoc(Concat(xs, zs), z)
  }

  /** The items with the j-th picked one replaced by `rs[j]`. */
  function Subst(k: Kind, xs: Items, rs: seq<Items>): Items
    requires Count(k, xs) <= |rs|
  {
    match xs
    case Nil => Nil
    case Snoc(ys, y) =>
      if Picked(k, y) then Concat(Subst(k, ys, rs), rs[Count(k, ys)]) else Snoc(Subst(k, ys, rs), y)
  }

  /** Wherever it is put in code, a safe replacement is lexed as it stands and leaves the
      lexer in plain code. */
  ghost predicate Safe(r: Items) {
    forall st | InCode(st) :: Walk(st, r) == Some(Code)
  }

  ghost predicate AllSafe(rs: seq<Items>) { forall r <- rs :: Safe(r) }

  lemma {:induction false} WalkConcat(st: State, xs: Items, ys: Items)
    ensures Walk(st, Concat(xs, ys)) ==
      (match Walk(st, xs) case None => None case Some(s) => Walk(s, ys))
  {
    if ys.Snoc? { WalkConcat(st, xs, ys.init); }
  }

  lemma {:induction false} RenderConcat(xs: Items, ys: Items)
    ensures Render(Concat(xs, ys)) == Render(xs) + Render(ys)
  {
    if ys.Snoc? { RenderConcat(xs, ys.init); }
  }

  lemma {:induction false} CountConcat(k: Kind, xs: Items, ys: Items)
    ensures Count(k, Concat(xs, ys)) == Count(k, xs) + Count(k, ys)
  {
    if ys.Snoc? { CountConcat(k, xs, ys.init); }
  }

  /** Replacing placeholders disturbs the lexer only where a name stood last: it is then in
      plain code instead. */
  lemma {:induction false} SubstWalks(k: Kind, st: State, xs: Items, rs: seq<Items>)
    requires Count(k, xs) <= |rs| && AllSafe(rs)
    requires Walk(st, xs).Some?
    ensures var s := Walk(st, xs).value;
      Walk(st, Subst(k, xs, rs)) == Some(s) || (s.Name? && Walk(st, Subst(k, xs, rs)) == Some(Code))
  {
    if xs.Snoc? {
      SubstWalks(k, st, xs.init, rs);
      if Picked(k, xs.last) {
        WalkConcat(st, Subst(k, xs.init, rs), rs[Count(k, xs.init)]);
        assert rs[Count(k, xs.init)] in rs;
      }
    }
  }

  /** Lexing commutes with replacing placeholders. */
  lemma {:induction false} LexSubst(k: Kind, xs: Items, rs: seq<Items>)
    requires Count(k, xs) <= |rs| && AllSafe(rs)
    requires Walk(Code, xs).Some?
    ensures Lex(Render(Subst(k, xs, rs))).items == Subst(k, xs, rs)
  {
    SubstWalks(k, Code, xs, rs);
    WalkIsLex(Subst(k, xs, rs));
  }

  // ----- the builder loops -----

  function Pick(k: Kind, ps: seq<Place>): seq<Place> {
    if ps == [] then [] else
      var p := ps[|ps| - 1];
      Pick(k, ps[..|ps| - 1]) + if (p.name != "") == k.Named? then [p] else []
  }

  /** The picked places of an item sequence, read off the items. */
  function PickedPlaces(k: Kind, xs: Items): seq<Place> {
    match xs
    case Nil => []
    case Snoc(ys, y) => PickedPlaces(k, ys) + if Picked(k, y) then PlaceOf(y, |Render(ys)|) else []
  }

  function Cut(q: string, from: nat, to: nat): string {
    if from <= to <= |q| then q[from..to] else ""
  }

  function EndOf(ps: seq<Place>, j: nat): nat
    requires j <= |ps|
  {
    if j == 0 then 0 else ps[j - 1].end
  }

  /** The builder after the first `j` places have been replaced by their texts. */
  function Spliced(q: string, ps: seq<Place>, ts: seq<string>, j: nat): string
    requires j <= |ps| && j <= |ts|
  {
    if j == 0 then ""
    else Spliced(q, ps, ts, j - 1) + Cut(q, EndOf(ps, j - 1), ps[j - 1].pos) + ts[j - 1]
  }

  function Splice(q: string, ps: seq<Place>, ts: seq<string>): string
    requires |ps| <= |ts|
  {
    Spliced(q, ps, ts, |ps|) + Cut(q, EndOf(ps, |ps|), |q|)
  }

  function Texts(rs: seq<Items>): (ts: seq<string>)
    ensures |ts| == |rs|
  { seq(|rs|, i requires 0 <= i < |rs| => Render(rs[i])) }

  lemma PickSnoc(k: Kind, ps: seq<Place>, p: Place)
    ensures Pick(k, ps + [p]) == Pick(k, ps) + if (p.name != "") == k.Named? then [p] else []
  {}

  lemma {:induction false} PickToken(k: Kind, ps: seq<Place>, x: Item, pos: nat)
    requires x.Nam? ==> x.name != ""
    ensures Pick(k, ps + PlaceOf(x, pos)) == Pick(k, ps) + if Picked(k, x) then PlaceOf(x, pos) else []
  {
    if x.Txt? {
      assert ps + PlaceOf(x, pos) == ps;
    } else {
      PickSnoc(k, ps, PlaceOf(x, pos)[0]);
    }
  }

  lemma {:induction false} PickPlacesOf(k: Kind, st: State, xs: Items)
    requires Walk(st, xs).Some?
    ensures Pick(k, PlacesOf(xs)) == PickedPlaces(k, xs)
  {
    if xs.Snoc? {
      PickPlacesOf(k, st, xs.init);
      PickToken(k, PlacesOf(xs.init), xs.last, |Render(xs.init)|);
    }
  }

  lemma {:induction false} SplicedPrefix(q: string, ps: seq<Place>, p: Place, ts: seq<string>, j: nat)
    requires j <= |ps| && j <= |ts|
    ensures Spliced(q, ps + [p], ts, j) == Spliced(q, ps, ts, j)
  {
    hide Cut;
    if j > 0 {
      SplicedPrefix(q, ps, p, ts, j - 1);
      assert (ps + [p])[j - 1] == ps[j - 1] && EndOf(ps + [p], j - 1) == EndOf(ps, j - 1);
    }
  }

  lemma {:induction false} SplicedTexts(q: string, ps: seq<Place>, ts: seq<string>, t: string, j: nat)
    requires j <= |ps| && j <= |ts|
    ensures Spliced(q, ps, ts + [t], j) == Spliced(q, ps, ts, j)
  {
    hide Cut;
    if j > 0 {
      SplicedTexts(q, ps, ts, t, j - 1);
      assert (ts + [t])[j - 1] == ts[j - 1];
    }
  }

  /** One turn of a builder loop. */
  lemma {:induction false} SplicedStep(q: string, ps: seq<Place>, ts: seq<string>, t: string)
    requires |ts| < |ps|
    ensures Spliced(q, ps, ts + [t], |ts| + 1) ==
      Spliced(q, ps, ts, |ts|) + Cut(q, EndOf(ps, |ts|), ps[|ts|].pos) + t
  { SplicedTexts(q, ps, ts, t, |ts|); }

  lemma {:induction false} SplicedSnoc(q: string, ps: seq<Place>, p: Place, ts: seq<string>)
    requires |ps| < |ts|
    ensures Spliced(q, ps + [p], ts, |ps| + 1) ==
      Spliced(q, ps, ts, |ps|) + Cut(q, EndOf(ps, |ps|), p.pos) + ts[|ps|]
  { SplicedPrefix(q, ps, p, ts, |ps|); }

  /** The builder text when the loop has passed the items up to byte `to`. */
  function Written(q: string, ps: seq<Place>, ts: seq<string>, to: nat): string
    requires |ps| <= |ts|
  {
    Spliced(q, ps, ts, |ps|) + Cut(q, EndOf(ps, |ps|), to)
  }

  lemma {:induction false} WrittenPlace(q: string, ps: seq<Place>, p: Place, ts: seq<string>)
    requires |ps| < |ts|
    ensures Written(q, ps + [p], ts, p.end) == Written(q, ps, ts, p.pos) + ts[|ps|]
  {
    hide Spliced;
    SplicedSnoc(q, ps, p, ts);
    assert Cut(q, p.end, p.end) == "";
  }

  lemma WrittenText(q: string, ps: seq<Place>, ts: seq<string>, from: nat, to: nat)
    requires |ps| <= |ts| && EndOf(ps, |ps|) <= from <= to <= |q|
    ensures Written(q, ps, ts, to) == Written(q, ps, ts, from) + q[from..to]
  {}

  /** What the builder loop has written when it has passed the items `xs` of a longer text. */
  ghost predicate WroteSubst(k: Kind, q: string, xs: Items, rs: seq<Items>)
    requires Count(k, xs) <= |rs|
  {
    var ps := PickedPlaces(k, xs);
    && |ps| == Count(k, xs) && EndOf(ps, |ps|) <= |Render(xs)|
    && Written(q, ps, Texts(rs), |Render(xs)|) == Render(Subst(k, xs, rs))
  }

  lemma {:induction false} WrotePicked(k: Kind, q: string, ys: Items, y: Item, rs: seq<Items>)
    requires Picked(k, y)
    requires Count(k, Snoc(ys, y)) <= |rs| && WroteSubst(k, q, ys, rs)
    ensures WroteSubst(k, q, Snoc(ys, y), rs)
  {
    hide Written, Spliced, Texts;
    var ps, p := PickedPlaces(k, ys), PlaceOf(y, |Render(ys)|)[0];
    assert PickedPlaces(k, Snoc(ys, y)) == ps + [p] && p.end == |Render(Snoc(ys, y))|;
    TextAt(rs, |ps|);
    WrittenPlace(q, ps, p, Texts(rs));
    RenderConcat(Subst(k, ys, rs), rs[|ps|]);
  }

  lemma TextAt(rs: seq<Items>, i: nat)
    requires i < |rs|
    ensures |Texts(rs)| == |rs| && Texts(rs)[i] == Render(rs[i])
  {}

  lemma {:induction false} WroteText(k: Kind, q: string, ys: Items, y: Item, rs: seq<Items>)
    requires !Picked(k, y)
    requires Count(k, Snoc(ys, y)) <= |rs| && WroteSubst(k, q, ys, rs)
    requires Render(ys) + RenderItem(y) <= q
    ensures WroteSubst(k, q, Snoc(ys, y), rs)
  {
    hide Written, Spliced, RenderItem, Texts;
    var ps, a, piece := PickedPlaces(k, ys), |Render(ys)|, RenderItem(y);
    assert PickedPlaces(k, Snoc(ys, y)) == ps;
    WrittenText(q, ps, Texts(rs), a, a + |piece|);
    assert q[..a + |piece|] == Render(ys) + piece;
    assert q[a..a + |piece|] == piece;
  }

  lemma {:induction false} WroteItems(k: Kind, q: string, xs: Items, rs: seq<Items>)
    requires Count(k, xs) <= |rs| && Render(xs) <= q
    ensures WroteSubst(k, q, xs, rs)
  {
    if xs.Snoc? {
      assert Render(xs.init) <= q;
      WroteItems(k, q, xs.init, rs);
      if Picked(k, xs.last) { WrotePicked(k, q, xs.init, xs.last, rs); } else { WroteText(k, q, xs.init, xs.last, rs); }
    }
  }

  /** The builder loops write the text of the substituted items. */
  lemma {:induction false} SpliceIsSubst(k: Kind, q: string, rs: seq<Items>)
    requires Count(k, Lex(q).items) <= |rs|
    ensures var ps := Pick(k, Places(q));
      && |ps| == Count(k, Lex(q).items)
      && Splice(q, ps, Texts(rs)) == Render(Subst(k, Lex(q).items, rs))
  {
    var xs := Lex(q).items;
    LexIsWalk(q, |q|);
    assert q[..|q|] == q;
    PickPlacesOf(k, Code, xs);
    WroteItems(k, q, xs, rs);
  }

  /** The places are in order, disjoint and within the first `len` bytes. */
  predicate Ordered(ps: seq<Place>, len: nat) {
    ps == [] || (
      var p := ps[|ps| - 1];
      p.pos < p.end <= len && Ordered(ps[..|ps| - 1], p.pos))
  }

  lemma {:induction false} OrderedAt(ps: seq<Place>, len: nat, j: nat)
    requires Ordered(ps, len) && j < |ps|
    ensures EndOf(ps, j) <= ps[j].pos < ps[j].end <= EndOf(ps, |ps|) <= len
  {
    if j + 1 < |ps| {
      OrderedAt(ps[..|ps| - 1], ps[|ps| - 1].pos, j);
    } else if j > 0 {
      OrderedAt(ps[..j], ps[j].pos, j - 1);
    }
  }

  lemma OrderedMore(ps: seq<Place>, p: Place, len: nat)
    requires Ordered(ps, p.pos) && p.pos < p.end <= len
    ensures Ordered(ps + [p], len)
  {}

  lemma OrderedWiden(ps: seq<Place>, len: nat, more: nat)
    requires Ordered(ps, len) && len <= more
    ensures Ordered(ps, more)
  {}

  lemma {:induction false} PickedOrdered(k: Kind, xs: Items)
    ensures Ordered(PickedPlaces(k, xs), |Render(xs)|)
  {
    if xs.Snoc? {
      PickedOrdered(k, xs.init);
      var ps, n := PickedPlaces(k, xs.init), |Render(xs.init)|;
      if Picked(k, xs.last) {
        OrderedMore(ps, PlaceOf(xs.last, n)[0], |Render(xs)|);
        assert PickedPlaces(k, xs) == ps + [PlaceOf(xs.last, n)[0]];
      } else {
        assert PickedPlaces(k, xs) == ps;
        OrderedWiden(ps, n, |Render(xs)|);
      }
    }
  }

  lemma {:induction false} PlacesOrdered(k: Kind, q: string)
    ensures Ordered(Pick(k, Places(q)), |q|)
  {
    LexIsWalk(q, |q|);
    PickPlacesOf(k, Code, Lex(q).items);
    PickedOrdered(k, Lex(q).items);
  }

  /** The named places of a query. */
  function NamedIn(q: string): (ps: seq<Place>)
    ensures Ordered(ps, |q|)
  {
    PlacesOrdered(Named, q);
    Pick(Named, Places(q))
  }

  /** One turn of a builder loop, and what is left after the last turn. */
  lemma {:induction false} BuildTurn(q: string, ps: seq<Place>, ts: seq<string>, t: string)
    requires |ts| < |ps| && Ordered(ps, |q|)
    ensures EndOf(ps, |ts|) <= ps[|ts|].pos <= |q| && EndOf(ps, |ts| + 1) == ps[|ts|].end
    ensures Spliced(q, ps, ts + [t], |ts| + 1) == Spliced(q, ps, ts, |ts|) + q[EndOf(ps, |ts|)..ps[|ts|].pos] + t
  {
    OrderedAt(ps, |q|, |ts|);
    SplicedStep(q, ps, ts, t);
  }

  lemma BuildEnd(q: string, ps: seq<Place>, ts: seq<string>)
    requires |ts| == |ps| && Ordered(ps, |q|)
    ensures EndOf(ps, |ps|) <= |q|
    ensures Splice(q, ps, ts) == Spliced(q, ps, ts, |ps|) + q[EndOf(ps, |ps|)..]
  {}

  /** namedPlaces */
  method NamedPlaces(places: seq<Place>) returns (out: seq<Place>)
    ensures out == Pick(Named, places)
  {
    out := [];
    for i := 0 to |places|
      invariant out == Pick(Named, places[..i])
    {
      PickSnoc(Named, places[..i], places[i]);
      assert places[..i + 1] == places[..i] + [places[i]];
      if places[i].name != "" {
        out := out + [places[i]];
      }
    }
    assert places[..|places|] == places;
  }

  lemma {:induction false} PickedCount(k: Kind, xs: Items)
    ensures |PickedPlaces(k, xs)| == Count(k, xs)
  {
    if xs.Snoc? { PickedCount(k, xs.init); }
  }

  lemma {:induction false} PickCount(k: Kind, q: string)
    ensures |Pick(k, Places(q))| == Count(k, Lex(q).items)
  {
    LexIsWalk(q, |q|);
    PickPlacesOf(k, Code, Lex(q).items);
    PickedCount(k, Lex(q).items);
  }

  // ----- cutting lexed text -----

  lemma {:induction false} ConcatAssoc(xs: Items, ys: Items, zs: Items)
    ensures Concat(Concat(xs, ys), zs) == Concat(xs, Concat(ys, zs))
  {
    if zs.Snoc? { ConcatAssoc(xs, ys, zs.init); }
  }

  /** The items of a text from byte `i` up to byte `j`, as the whole text is lexed. */
  function Stretch(q: string, i: nat, j: nat): Items
    requires i <= j <= |q|
  {
    if i == j then Nil
    else
      var r, x := Stretch(q, i, j - 1), LexTo(q, j).items.last;
      if Grows(StateAt(q, j - 1), q[j - 1]) && r.Snoc? then Snoc(r.init, x) else Snoc(r, x)
  }

  /** Where no item straddles a cut, the text in front of it keeps its items. */
  lemma {:induction false} LexSplit(q: string, i: nat, j: nat)
    requires i <= j <= |q|
    requires i < |q| ==> !Grows(StateAt(q, i), q[i])
    ensures LexTo(q, j).items == Concat(LexTo(q, i).items, Stretch(q, i, j))
    ensures i < j ==> Stretch(q, i, j).Snoc?
  {
    if i < j { LexSplit(q, i, j - 1); }
  }

  /** From a code position where the next byte reads as in plain code, the rest of the text is
      lexed as if it stood alone. */
  lemma {:induction false} LexFresh(q: string, i: nat, j: nat)
    requires i <= j <= |q|
    requires i < |q| ==> InCode(StateAt(q, i)) && Settled(q, i) && !Grows(StateAt(q, i), q[i])
    ensures LexTo(q, j).items == Concat(LexTo(q, i).items, LexTo(q[i..], j - i).items)
    ensures i < j ==> StateAt(q, j) == StateAt(q[i..], j - i)
  {
    if i < j {
      LexFresh(q, i, j - 1);
      assert q[i..][j - 1 - i] == q[j - 1];
    }
  }

  lemma {:induction false} PickedConcat(k: Kind, xs: Items, ys: Items)
    ensures var ps, n := PickedPlaces(k, Concat(xs, ys)), Count(k, xs);
      && |ps| == n + Count(k, ys) && PickedPlaces(k, xs) == ps[..n]
      && forall i | n <= i < |ps| :: ps[i].pos >= |Render(xs)|
  {
    PickedCount(k, xs);
    if ys.Snoc? {
      PickedConcat(k, xs, ys.init);
      RenderConcat(xs, ys.init);
    } else {
      assert PickedPlaces(k, xs)[..Count(k, xs)] == PickedPlaces(k, xs);
    }
  }

  lemma {:induction false} SubstNone(k: Kind, xs: Items, ys: Items, rs: seq<Items>)
    requires Count(k, xs) + Count(k, ys) <= |rs|
    requires Count(k, ys) == 0
    ensures Count(k, Concat(xs, ys)) <= |rs|
    ensures Subst(k, Concat(xs, ys), rs) == Concat(Subst(k, xs, rs), ys)
  {
    CountConcat(k, xs, ys);
    if ys.Snoc? {
      SubstNone(k, xs, ys.init, rs);
      CountConcat(k, xs, ys.init);
    }
  }

  lemma {:induction false} SubstAfter(k: Kind, xs: Items, ys: Items, rs: seq<Items>)
    requires Count(k, xs) == 0 && Count(k, ys) <= |rs|
    ensures Count(k, Concat(xs, ys)) <= |rs|
    ensures Subst(k, Concat(xs, ys), rs) == Concat(xs, Subst(k, ys, rs))
  {
    CountConcat(k, xs, ys);
    if ys.Snoc? {
      SubstAfter(k, xs, ys.init, rs);
      CountConcat(k, xs, ys.init);
      if Picked(k, ys.last) {
        ConcatAssoc(xs, Subst(k, ys.init, rs), rs[Count(k, ys.init)]);
      }
    } else {
      SubstNone(k, Nil, xs, rs);
      NilConcat(xs);
    }
  }

  lemma {:induction false} NilConcat(xs: Items)
    ensures Concat(Nil, xs) == xs
  {
    if xs.Snoc? { NilConcat(xs.init); }
  }

  lemma RenderEmpty(xs: Items)
    requires Render(xs) == ""
    ensures xs == Nil
  {}

  // ----- the shape of the places -----

  /** A `?`, or a colon with the longest name behind it. */
  predicate PlaceExact(q: string, p: Place) {
    && p.pos < p.end <= |q|
    && if p.name == "" then q[p.pos..p.end] == "?"
       else IsName(p.name) && q[p.pos..p.end] == ":" + p.name && (p.end < |q| ==> !IsIdentChar(q[p.end]))
  }

  ghost predicate AllExact(q: string, ps: seq<Place>) { forall p <- ps :: PlaceExact(q, p) }

  ghost predicate FrontOf(xs: Items, q: string) {
    && Render(xs) <= q
    && (xs.Snoc? && xs.last.Nam? && |Render(xs)| < |q| ==> !IsIdentChar(q[|Render(xs)|]))
  }

  lemma PieceAt(q: string, front: string, piece: string)
    requires front + piece <= q && piece != ""
    ensures front <= q && q[|front|] == piece[0] && q[|front|..|front| + |piece|] == piece
  {}

  lemma {:induction false} FrontExact(xs: Items, q: string)
    requires xs.Snoc? && Walk(Code, xs).Some? && FrontOf(xs, q)
    ensures FrontOf(xs.init, q)
    ensures AllExact(q, PlaceOf(xs.last, |Render(xs.init)|))
  {
    PieceAt(q, Render(xs.init), RenderItem(xs.last));
    hide Render, IsIdentChar, IsQuote;
  }

  lemma {:induction false} FrontsExact(xs: Items, q: string)
    requires Walk(Code, xs).Some? && FrontOf(xs, q)
    ensures AllExact(q, PlacesOf(xs))
  {
    if xs.Snoc? {
      FrontExact(xs, q);
      FrontsExact(xs.init, q);
    }
  }

  lemma {:induction false} AllOrdered(xs: Items)
    ensures Ordered(PlacesOf(xs), |Render(xs)|)
  {
    if xs.Snoc? {
      AllOrdered(xs.init);
      var ps, n := PlacesOf(xs.init), |Render(xs.init)|;
      OrderedWiden(ps, n, |Render(xs)|);
      if xs.last.Txt? {
        assert PlacesOf(xs) == ps;
      } else {
        OrderedMore(ps, PlaceOf(xs.last, n)[0], |Render(xs)|);
      }
    }
  }

  /** The places found are increasing, disjoint and in bounds; each is a `?` or a maximal name. */
  lemma {:induction false} PlacesShape(q: string)
    ensures Ordered(Places(q), |q|) && AllExact(q, Places(q))
  {
    LexIsWalk(q, |q|);
    assert q[..|q|] == q;
    AllOrdered(Lex(q).items);
    FrontsExact(Lex(q).items, q);
  }
}
