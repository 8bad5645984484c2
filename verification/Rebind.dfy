/** Rebind: every `?` becomes a numbered `$n` or `@n`. */
module Rebind {
  import opened Wrappers
  import opened Lexer
  import opened Rewrite
  import opened Values

  predicate IsDigit(c: char) { '0' <= c <= '9' }

  /** A number in decimal. */
  function Digits(n: nat): (s: string)
    ensures s != "" && forall k | 0 <= k < |s| :: IsDigit(s[k])
  {
    (if n < 10 then "" else Digits(n / 10)) + [('0' as int + n % 10) as char]
  }

  /** What a run of digits reads back as. */
  function Number(s: string): nat
    requires forall k | 0 <= k < |s| :: IsDigit(s[k])
  {
    if s == "" then 0 else
      assert IsDigit(s[|s| - 1]);
      Number(s[..|s| - 1]) * 10 + (s[|s| - 1] as int - '0' as int)
  }

  lemma {:induction false} DigitsRead(n: nat)
    ensures Number(Digits(n)) == n
  {
    var s := Digits(n);
    assert s[..|s| - 1] == if n < 10 then "" else Digits(n / 10);
    if n >= 10 { DigitsRead(n / 10); }
  }

  function Marker(style: Style, n: nat): string { (if style.Dollar? then "$" else "@") + Digits(n) }

  function TextItems(s: string): Items {
    if s == "" then Nil else Snoc(TextItems(s[..|s| - 1]), Txt(s[|s| - 1]))
  }

  function Markers(style: Style, n: nat): (r: seq<Items>)
    ensures |r| == n
  {
    seq(n, i requires 0 <= i < n => TextItems(Marker(style, i + 1)))
  }

  /** The result of Rebind. */
  function RebindSpec(query: string, style: Style): string {
    if style.Question? then query else
      var ps := Pick(Positional, Places(query));
      Splice(query, ps, Texts(Markers(style, |ps|)))
  }

  lemma {:induction false} RenderText(s: string)
    ensures Render(TextItems(s)) == s
    ensures forall k: Kind :: Count(k, TextItems(s)) == 0
  {
    if s != "" {
      RenderText(s[..|s| - 1]);
      assert s == s[..|s| - 1] + [s[|s| - 1]];
    }
  }

  lemma {:induction false} WalkText(st: State, s: string)
    requires InCode(st) && s != "" && (s[0] == '$' || s[0] == '@')
    requires forall k | 0 < k < |s| :: IsDigit(s[k])
    ensures Walk(st, TextItems(s)) == Some(Code)
  {
    if |s| > 1 { WalkText(st, s[..|s| - 1]); }
  }

  lemma {:induction false} MarkerSafe(style: Style, m: nat)
    ensures Safe(TextItems(Marker(style, m)))
  {
    var s := Marker(style, m);
    assert forall k | 0 < k < |s| :: s[k] == Digits(m)[k - 1];
    hide TextItems, Marker;
    forall st | InCode(st) ensures Walk(st, TextItems(s)) == Some(Code) { WalkText(st, s); }
  }

  lemma {:induction false} MarkersSafe(style: Style, n: nat)
    ensures AllSafe(Markers(style, n))
  {
    hide Safe, TextItems, Marker;
    forall r | r in Markers(style, n) ensures Safe(r) {
      var i :| 0 <= i < n && r == Markers(style, n)[i];
      MarkerSafe(style, i + 1);
    }
  }

  lemma {:induction false} PickPrefix(k: Kind, ps: seq<Place>, i: nat)
    requires i <= |ps|
    ensures Pick(k, ps[..i]) <= Pick(k, ps)
  {
    if i == |ps| {
      assert ps[..i] == ps;
    } else {
      PickPrefix(k, ps[..|ps| - 1], i);
      assert ps[..|ps| - 1][..i] == ps[..i];
    }
  }

  /** The place the loop meets is the next picked one, if it is picked at all. */
  lemma {:induction false} PickNext(k: Kind, ps: seq<Place>, i: nat)
    requires i < |ps|
    ensures var n := |Pick(k, ps[..i])|;
      if (ps[i].name != "") == k.Named? then
        |Pick(k, ps[..i + 1])| == n + 1 && n < |Pick(k, ps)| && Pick(k, ps)[n] == ps[i]
      else |Pick(k, ps[..i + 1])| == n
  {
    PickSnoc(k, ps[..i], ps[i]);
    assert ps[..i + 1] == ps[..i] + [ps[i]];
    PickPrefix(k, ps, i + 1);
  }

  /** The builder of Rebind after `n` marks. */
  ghost function Numbered(q: string, style: Style, n: nat): string
    requires n <= |Pick(Positional, Places(q))|
  {
    Spliced(q, Pick(Positional, Places(q)), Texts(Markers(style, n)), n)
  }

  lemma {:induction false} MarkersMore(style: Style, n: nat)
    ensures Texts(Markers(style, n + 1)) == Texts(Markers(style, n)) + [Marker(style, n + 1)]
  { RenderText(Marker(style, n + 1)); }

  lemma {:induction false} NumberedTurn(q: string, style: Style, n: nat)
    requires n < |Pick(Positional, Places(q))|
    ensures var ps := Pick(Positional, Places(q));
      && EndOf(ps, n) <= ps[n].pos <= |q| && EndOf(ps, n + 1) == ps[n].end
      && Numbered(q, style, n + 1) == Numbered(q, style, n) + q[EndOf(ps, n)..ps[n].pos] + Marker(style, n + 1)
  {
    var ps := Pick(Positional, Places(q));
    hide Pick, Places, Spliced, Marker, Texts, Ordered;
    PlacesOrdered(Positional, q);
    MarkersMore(style, n);
    TextsLength(style, n);
    BuildTurn(q, ps, Texts(Markers(style, n)), Marker(style, n + 1));
  }

  lemma TextsLength(style: Style, n: nat)
    ensures |Texts(Markers(style, n))| == n
  {}

  lemma {:induction false} NumberedEnd(q: string, style: Style)
    requires !style.Question?
    ensures var ps := Pick(Positional, Places(q));
      && EndOf(ps, |ps|) <= |q|
      && RebindSpec(q, style) == Numbered(q, style, |ps|) + q[EndOf(ps, |ps|)..]
  {
    var ps := Pick(Positional, Places(q));
    PlacesOrdered(Positional, q);
    BuildEnd(q, ps, Texts(Markers(style, |ps|)));
  }

  method Rebind(query: string, style: Style) returns (b: string)
    ensures b == RebindSpec(query, style)
  {
    if style.Question? { return query; }
    var places := ParsePlaceholders(query);
    b := "";
    var last, n := 0, 0;
    ghost var ps := Pick(Positional, places);
    for i := 0 to |places|
      invariant n == |Pick(Positional, places[..i])| <= |ps|
      invariant b == Numbered(query, style, n) && last == EndOf(ps, n)
    {
      var p := places[i];
      PickNext(Positional, places, i);
      if p.name != "" {
        continue;
      }
      NumberedTurn(query, style, n);
      n := n + 1;
      b := b + query[last..p.pos];
      b := b + Marker(style, n);
      last := p.end;
    }
    assert places[..|places|] == places;
    NumberedEnd(query, style);
    b := b + query[last..];
  }

  // ----- what the rewritten text lexes to -----

  lemma {:induction false} SubstTextCounts(xs: Items, style: Style, n: nat)
    requires Count(Positional, xs) <= n
    ensures var out := Subst(Positional, xs, Markers(style, n));
      && Count(Positional, out) == 0 && NamesOf(out) == NamesOf(xs)
  {
    if xs.Snoc? {
      SubstTextCounts(xs.init, style, n);
      var m, front := Count(Positional, xs.init), Subst(Positional, xs.init, Markers(style, n));
      if xs.last.Pos? {
        assert Markers(style, n)[m] == TextItems(Marker(style, m + 1));
        assert Subst(Positional, xs, Markers(style, n)) == Concat(front, TextItems(Marker(style, m + 1)));
        hide TextItems, Marker, Subst, Concat;
        RenderText(Marker(style, m + 1));
        CountConcat(Positional, front, TextItems(Marker(style, m + 1)));
        NamesConcat(front, Marker(style, m + 1));
      } else {
        assert Subst(Positional, xs, Markers(style, n)) == Snoc(front, xs.last);
      }
    }
  }

  /** The names of a text, in order. */
  function NamesOf(xs: Items): seq<string> {
    match xs
    case Nil => []
    case Snoc(ys, y) => if y.Nam? then NamesOf(ys) + [y.name] else NamesOf(ys)
  }

  lemma {:induction false} NamesConcat(xs: Items, s: string)
    ensures NamesOf(Concat(xs, TextItems(s))) == NamesOf(xs)
  {
    if s != "" { NamesConcat(xs, s[..|s| - 1]); }
  }

  /** Rebind leaves no `?` placeholder, keeps the named ones, and numbers the marks in order;
      everything else is untouched. */
  lemma {:induction false} RebindLexes(q: string, style: Style)
    requires !style.Question?
    ensures var xs, ys := Lex(q).items, Lex(RebindSpec(q, style)).items;
      && ys == Subst(Positional, xs, Markers(style, Count(Positional, xs)))
      && Count(Positional, ys) == 0 && NamesOf(ys) == NamesOf(xs)
  {
    var xs := Lex(q).items;
    var n := Count(Positional, xs);
    PickCount(Positional, q);
    LexIsWalk(q, |q|);
    MarkersSafe(style, n);
    SpliceIsSubst(Positional, q, Markers(style, n));
    LexSubst(Positional, xs, Markers(style, n));
    SubstTextCounts(xs, style, n);
  }

  lemma {:induction false} NothingToRebind(q: string, style: Style)
    requires |Pick(Positional, Places(q))| == 0
    ensures RebindSpec(q, style) == q
  {
    hide Places, Pick;
    assert Cut(q, 0, |q|) == q && "" + q == q;
  }

  /** Rewriting twice, in whatever styles, changes nothing more. */
  lemma {:induction false} RebindIdempotent(q: string, style: Style, again: Style)
    requires !style.Question?
    ensures RebindSpec(RebindSpec(q, style), again) == RebindSpec(q, style)
  {
    var r := RebindSpec(q, style);
    RebindLexes(q, style);
    PickCount(Positional, r);
    NothingToRebind(r, again);
  }

  // ----- reading the markers back -----

  predicate EndsInMark(xs: Items) { xs.Snoc? && xs.last.Pos? }

  /** No `?` of the items is directly followed by a digit. */
  predicate NoDigitAfterMark(xs: Items) {
    match xs
    case Nil => true
    case Snoc(ys, y) => NoDigitAfterMark(ys) && (EndsInMark(ys) && y.Txt? ==> !IsDigit(y.c))
  }

  /** At byte `at` a reader of the SQL finds the marker with number `n`: the style's sign, and
      behind it a run of digits, as long as there are any, that reads as `n`. */
  ghost predicate MarkerAt(sql: string, at: nat, style: Style, n: nat) {
    && at < |sql| && sql[at] == (if style.Dollar? then '$' else '@')
    && exists end: nat :: ReadsAs(sql, at, end, n)
  }

  ghost predicate ReadsAs(sql: string, at: nat, end: nat, n: nat) {
    && at + 1 < end <= |sql| && (forall k | at < k < end :: IsDigit(sql[k])) && Number(sql[at + 1..end]) == n
    && sql[at + 1] != '0' && (end < |sql| ==> !IsDigit(sql[end]))
  }

  /** A marker as Rebind writes it, up to byte `end`. */
  predicate Written(sql: string, at: nat, end: nat, style: Style, n: nat) {
    at <= end <= |sql| && sql[at..end] == Marker(style, n)
  }

  lemma {:induction false} WrittenIs(sql: string, at: nat, end: nat, style: Style, n: nat)
    requires n > 0 && Written(sql, at, end, style, n)
    ensures at + 1 < end && sql[at] == (if style.Dollar? then '$' else '@') && sql[at + 1..end] == Digits(n)
    ensures sql[at + 1] != '0' && forall k | at < k < end :: IsDigit(sql[k])
  {
    var m := Marker(style, n);
    assert forall k | at <= k < end :: sql[k] == m[k - at];
    NoLeadingZero(n);
    assert forall k | 0 <= k < |Digits(n)| :: m[k + 1] == Digits(n)[k];
    hide Digits;
    assert sql[at + 1..end] == m[1..] == Digits(n);
    forall k | at < k < end ensures IsDigit(sql[k]) { assert sql[k] == Digits(n)[k - at - 1]; }
  }

  /** A written marker reads as its number when no digit follows it, and otherwise as another. */
  lemma {:induction false} WrittenReads(sql: string, at: nat, end: nat, style: Style, n: nat)
    requires n > 0 && Written(sql, at, end, style, n)
    ensures MarkerAt(sql, at, style, n) <==> end == |sql| || !IsDigit(sql[end])
  {
    WrittenIs(sql, at, end, style, n);
    DigitsRead(n);
    hide Digits, Number, Written;
    if end == |sql| || !IsDigit(sql[end]) {
      assert ReadsAs(sql, at, end, n);
    } else if other: nat :| ReadsAs(sql, at, other, n) {
      RunsOn(sql, at, end, other, n);
    }
  }

  lemma {:induction false} RunsOn(sql: string, at: nat, end: nat, other: nat, n: nat)
    requires at + 1 < end < |sql| && sql[at + 1..end] == Digits(n) && IsDigit(sql[end]) && n > 0
    requires forall k | at < k < end :: IsDigit(sql[k])
    ensures !ReadsAs(sql, at, other, n)
  {
    if ReadsAs(sql, at, other, n) {
      assert other > end;
      DigitsRead(n);
      Halves(sql, at + 1, end, other);
      hide Digits, Number;
      LongerNumber(Digits(n), sql[end..other]);
    }
  }

  lemma Halves(s: string, a: nat, b: nat, c: nat)
    requires a <= b <= c <= |s|
    ensures s[a..c] == s[a..b] + s[b..c] && forall k | 0 <= k < c - b :: s[b..c][k] == s[b + k]
  {}

  lemma {:induction false} NoLeadingZero(n: nat)
    requires n > 0
    ensures Digits(n)[0] != '0'
  { if n >= 10 { NoLeadingZero(n / 10); } }

  /** More digits make a larger number. */
  lemma {:induction false} LongerNumber(s: string, t: string)
    requires (forall k | 0 <= k < |s| :: IsDigit(s[k])) && (forall k | 0 <= k < |t| :: IsDigit(t[k]))
    ensures Number(s + t) >= Number(s) && (t != "" && Number(s) > 0 ==> Number(s + t) > Number(s))
  {
    if t == "" {
      assert s + t == s;
    } else {
      LongerNumber(s, t[..|t| - 1]);
      assert (s + t)[..|s + t| - 1] == s + t[..|t| - 1];
    }
  }

  /** Where the markers stand in the rewritten text. */
  function MarkerOffsets(xs: Items, style: Style, n: nat): seq<nat>
    requires Count(Positional, xs) <= n
  {
    match xs
    case Nil => []
    case Snoc(ys, y) =>
      MarkerOffsets(ys, style, n) + if y.Pos? then [|Render(Subst(Positional, ys, Markers(style, n)))|] else []
  }

  ghost predicate AllMarkersAt(sql: string, at: seq<nat>, style: Style) {
    forall j | 0 <= j < |at| :: MarkerAt(sql, at[j], style, j + 1)
  }

  /** The text written for the items, and the byte behind it not running into a marker. */
  ghost predicate WrittenFront(xs: Items, style: Style, n: nat, sql: string)
    requires Count(Positional, xs) <= n
  {
    var front := Render(Subst(Positional, xs, Markers(style, n)));
    front <= sql && (EndsInMark(xs) && |front| < |sql| ==> !IsDigit(sql[|front|]))
  }

  lemma {:induction false} FrontBack(xs: Items, style: Style, n: nat, sql: string)
    requires xs.Snoc? && NoDigitAfterMark(xs) && Count(Positional, xs) <= n
    requires WrittenFront(xs, style, n, sql)
    ensures WrittenFront(xs.init, style, n, sql)
    ensures xs.last.Pos? ==>
      MarkerAt(sql, |Render(Subst(Positional, xs.init, Markers(style, n)))|, style, Count(Positional, xs.init) + 1)
  {
    hide Subst, Markers, Marker, RenderItem, Render, IsDigit;
    var piece := if xs.last.Pos? then Marker(style, Count(Positional, xs.init) + 1) else RenderItem(xs.last);
    NextPiece(xs, style, n, piece);
    FirstByte(xs.last, style, Count(Positional, xs.init) + 1);
    var front := Render(Subst(Positional, xs.init, Markers(style, n)));
    PieceIn(sql, front, piece);
    if xs.last.Pos? { WrittenReads(sql, |front|, |front| + |piece|, style, Count(Positional, xs.init) + 1); }
  }

  lemma FirstByte(x: Item, style: Style, m: nat)
    ensures var piece := if x.Pos? then Marker(style, m) else RenderItem(x);
      piece != "" && if x.Txt? then piece[0] == x.c else !IsDigit(piece[0])
  {}

  lemma PieceIn(sql: string, front: string, piece: string)
    requires front + piece <= sql && piece != ""
    ensures front <= sql && |front| < |sql| && sql[|front|] == piece[0]
    ensures |front| + |piece| <= |sql| && sql[|front|..|front| + |piece|] == piece
  {}

  lemma {:induction false} MarkersReadTo(xs: Items, style: Style, n: nat, sql: string)
    requires NoDigitAfterMark(xs) && Count(Positional, xs) <= n
    requires WrittenFront(xs, style, n, sql)
    ensures |MarkerOffsets(xs, style, n)| == Count(Positional, xs)
    ensures AllMarkersAt(sql, MarkerOffsets(xs, style, n), style)
  {
    hide Subst, MarkerAt, WrittenFront, Marker, Render;
    if xs.Snoc? {
      FrontBack(xs, style, n, sql);
      MarkersReadTo(xs.init, style, n, sql);
    }
  }

  lemma {:induction false} NextPiece(xs: Items, style: Style, n: nat, piece: string)
    requires xs.Snoc? && Count(Positional, xs) <= n
    requires piece == if xs.last.Pos? then Marker(style, Count(Positional, xs.init) + 1) else RenderItem(xs.last)
    ensures Render(Subst(Positional, xs, Markers(style, n))) ==
      Render(Subst(Positional, xs.init, Markers(style, n))) + piece
  {
    var front, m := Subst(Positional, xs.init, Markers(style, n)), Count(Positional, xs.init);
    if xs.last.Pos? {
      var text := TextItems(Marker(style, m + 1));
      assert Markers(style, n)[m] == text;
      assert Subst(Positional, xs, Markers(style, n)) == Concat(front, text);
      hide Subst, Markers, TextItems, Marker;
      RenderText(Marker(style, m + 1));
      RenderConcat(front, text);
    } else {
      assert Subst(Positional, xs, Markers(style, n)) == Snoc(front, xs.last);
      hide Subst, Markers;
    }
  }

  lemma {:induction false} OffsetsCount(xs: Items, style: Style, n: nat)
    requires Count(Positional, xs) <= n
    ensures |MarkerOffsets(xs, style, n)| == Count(Positional, xs)
  {
    if xs.Snoc? { OffsetsCount(xs.init, style, n); }
  }

  /** A digit behind the last mark runs into its marker. */
  lemma {:induction false} DigitRunsOn(xs: Items, style: Style, n: nat, sql: string, c: char)
    requires EndsInMark(xs) && Count(Positional, xs) <= n && IsDigit(c)
    requires Render(Subst(Positional, xs, Markers(style, n))) + [c] <= sql
    ensures !AllMarkersAt(sql, MarkerOffsets(xs, style, n), style)
  {
    var at, j := MarkerOffsets(xs, style, n), Count(Positional, xs.init);
    OffsetsCount(xs.init, style, n);
    NextPiece(xs, style, n, Marker(style, j + 1));
    assert at[j] + |Marker(style, j + 1)| == |Render(Subst(Positional, xs, Markers(style, n)))|;
    var front := Render(Subst(Positional, xs.init, Markers(style, n)));
    assert at[j] == |front|;
    hide Subst, Markers, Marker, Render, MarkerOffsets, MarkerAt;
    NotAtDigit(sql, front, c, style, j + 1);
  }

  lemma {:induction false} NotAtDigit(sql: string, front: string, c: char, style: Style, n: nat)
    requires n > 0 && IsDigit(c) && front + Marker(style, n) + [c] <= sql
    ensures !MarkerAt(sql, |front|, style, n)
  {
    var marker := Marker(style, n);
    hide Marker, MarkerAt;
    var end := |front| + |marker|;
    assert sql[end] == (front + marker + [c])[end] == c;
    assert sql[|front|..end] == (front + marker + [c])[|front|..end] == marker;
    WrittenReads(sql, |front|, end, style, n);
  }

  lemma {:induction false} FrontMarkers(xs: Items, style: Style, n: nat, sql: string)
    requires xs.Snoc? && Count(Positional, xs) <= n && AllMarkersAt(sql, MarkerOffsets(xs, style, n), style)
    ensures AllMarkersAt(sql, MarkerOffsets(xs.init, style, n), style)
  {
    var at, front := MarkerOffsets(xs, style, n), MarkerOffsets(xs.init, style, n);
    assert |front| <= |at| && forall j | 0 <= j < |front| :: at[j] == front[j];
    hide MarkerOffsets, MarkerAt;
  }

  lemma {:induction false} MarkersApart(xs: Items, style: Style, n: nat, sql: string)
    requires Count(Positional, xs) <= n && Render(Subst(Positional, xs, Markers(style, n))) <= sql
    requires AllMarkersAt(sql, MarkerOffsets(xs, style, n), style)
    ensures NoDigitAfterMark(xs)
  {
    if xs.Snoc? {
      var piece := if xs.last.Pos? then Marker(style, Count(Positional, xs.init) + 1) else RenderItem(xs.last);
      NextPiece(xs, style, n, piece);
      var front := Render(Subst(Positional, xs.init, Markers(style, n)));
      FrontMarkers(xs, style, n, sql);
      assert front <= front + piece <= sql;
      if EndsInMark(xs.init) && xs.last.Txt? && IsDigit(xs.last.c) {
        assert front + [xs.last.c] <= sql;
        hide Subst, Markers, Marker, Render, MarkerAt, IsDigit, NoDigitAfterMark, MarkerOffsets;
        DigitRunsOn(xs.init, style, n, sql, xs.last.c);
      } else {
        hide Subst, Markers, Marker, Render, MarkerAt;
        MarkersApart(xs.init, style, n, sql);
      }
    }
  }

  /** Rebind writes the markers 1, 2, ... in text order, each readable as its own number, if and
      only if no digit follows a `?`. */
  lemma {:induction false} MarkersRead(q: string, style: Style)
    requires !style.Question?
    ensures var xs := Lex(q).items;
      var n := Count(Positional, xs);
      && |MarkerOffsets(xs, style, n)| == n
      && (AllMarkersAt(RebindSpec(q, style), MarkerOffsets(xs, style, n), style) <==> NoDigitAfterMark(xs))
  {
    var xs := Lex(q).items;
    var n, sql := Count(Positional, xs), RebindSpec(q, style);
    PickCount(Positional, q);
    SpliceIsSubst(Positional, q, Markers(style, n));
    OffsetsCount(xs, style, n);
    hide Subst, Markers, MarkerOffsets, Lex, Render, NoDigitAfterMark, AllMarkersAt, RebindSpec;
    assert sql == Render(Subst(Positional, xs, Markers(style, n)));
    if NoDigitAfterMark(xs) { MarkersReadTo(xs, style, n, sql); }
    if AllMarkersAt(sql, MarkerOffsets(xs, style, n), style) { MarkersApart(xs, style, n, sql); }
  }
}
