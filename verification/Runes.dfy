/** The spaces of unicode.IsSpace in UTF-8 text, and strings.TrimSpace. */
module Runes {
  /** The length of the encoded non-ASCII space the text starts with, or 0. */
  function WideSpace(s: string): (n: nat)
    ensures n <= |s|
  {
    if |s| >= 2 && s[0] as int == 0xC2 && (s[1] as int == 0x85 || s[1] as int == 0xA0) then 2
    else if |s| < 3 then 0
    else
      var a, b, c := s[0] as int, s[1] as int, s[2] as int;
      if (a == 0xE1 && b == 0x9A && c == 0x80)
      || (a == 0xE2 && b == 0x80 && (0x80 <= c <= 0x8A || c == 0xA8 || c == 0xA9 || c == 0xAF))
      || (a == 0xE2 && b == 0x81 && c == 0x9F)
      || (a == 0xE3 && b == 0x80 && c == 0x80) then 3 else 0
  }

  predicate NarrowSpace(c: char) { c == ' ' || '\t' <= c <= '\r' }

  /** The length of the space in front, or 0. */
  function SpaceBefore(s: string): (n: nat)
    ensures n <= |s|
  {
    if s != "" && NarrowSpace(s[0]) then 1 else WideSpace(s)
  }

  /** The length of the space at the end, or 0. */
  function SpaceBehind(s: string): (n: nat)
    ensures n <= |s|
  {
    if s != "" && NarrowSpace(s[|s| - 1]) then 1
    else if |s| >= 2 && WideSpace(s[|s| - 2..]) == 2 then 2
    else if |s| >= 3 && WideSpace(s[|s| - 3..]) == 3 then 3
    else 0
  }

  function TrimLeft(s: string): string {
    if SpaceBefore(s) > 0 then TrimLeft(s[SpaceBefore(s)..]) else s
  }

  function TrimRight(s: string): string {
    if SpaceBehind(s) > 0 then TrimRight(s[..|s| - SpaceBehind(s)]) else s
  }

  function TrimSpace(s: string): string { TrimRight(TrimLeft(s)) }

  predicate AllSpace(s: string) {
    s == "" || (SpaceBefore(s) > 0 && AllSpace(s[SpaceBefore(s)..]))
  }

  /** Trimming takes away spaces at both ends, all there are, and nothing else. */
  lemma {:induction false} TrimSpaceIs(s: string) returns (front: string, back: string)
    ensures s == front + TrimSpace(s) + back && AllSpace(front) && AllSpace(back)
    ensures SpaceBefore(TrimSpace(s)) == 0 && SpaceBehind(TrimSpace(s)) == 0
  {
    assert TrimSpace(s) == TrimRight(TrimLeft(s));
    hide *;
    front := LeftIs(s);
    back := RightIs(TrimLeft(s));
    Assoc(front, TrimSpace(s), back);
  }

  lemma Assoc(a: string, b: string, c: string)
    ensures a + (b + c) == (a + b) + c
  {}

  lemma {:induction false} LeftIs(s: string) returns (front: string)
    ensures s == front + TrimLeft(s) && AllSpace(front) && SpaceBefore(TrimLeft(s)) == 0
  {
    var n := SpaceBefore(s);
    if n == 0 { return ""; }
    var space, rest := s[..n], s[n..];
    var more := LeftIs(rest);
    front := space + more;
    assert s == space + rest;
    assert AllSpace(front) && s == front + TrimLeft(s) by {
      hide SpaceBefore;
      SpaceStays(space, rest, more);
      assert front[n..] == more;
      Assoc(space, more, TrimLeft(rest));
    }
  }

  /** A space stays one whatever follows it. */
  lemma {:induction false} SpaceStays(space: string, rest: string, more: string)
    requires SpaceBefore(space + rest) == |space| > 0
    ensures SpaceBefore(space + more) == |space|
  {
    assert forall k | 0 <= k < |space| :: (space + rest)[k] == space[k] == (space + more)[k];
  }

  lemma {:induction false} RightIs(s: string) returns (back: string)
    requires SpaceBefore(s) == 0
    ensures s == TrimRight(s) + back && AllSpace(back)
    ensures SpaceBefore(TrimRight(s)) == 0 && SpaceBehind(TrimRight(s)) == 0
  {
    var n := SpaceBehind(s);
    if n == 0 {
      assert s + "" == s;
      return "";
    }
    var rest, space := s[..|s| - n], s[|s| - n..];
    assert s == rest + space && TrimRight(s) == TrimRight(rest);
    LastSpace(s);
    PrefixStays(rest, space);
    hide *;
    var more := RightIs(rest);
    back := more + space;
    AllSpaceAppend(more, space);
    Assoc(TrimRight(rest), more, space);
  }

  lemma LastSpace(s: string)
    requires SpaceBehind(s) > 0
    ensures var n := SpaceBehind(s); SpaceBefore(s[|s| - n..]) == n
  {}

  /** Cutting something off the end puts no space in front. */
  lemma {:induction false} PrefixStays(rest: string, more: string)
    requires SpaceBefore(rest + more) == 0
    ensures SpaceBefore(rest) == 0
  {}

  lemma {:induction false} AllSpaceAppend(s: string, space: string)
    requires AllSpace(s) && SpaceBefore(space) == |space| > 0
    ensures AllSpace(s + space)
  {
    if s == "" {
      assert s + space == space && space[|space|..] == "";
    } else {
      var n := SpaceBefore(s);
      var first, rest := s[..n], s[n..];
      hide SpaceBefore;
      assert s == first + rest && s + space == first + (rest + space);
      SpaceStays(first, rest, rest + space);
      AllSpaceAppend(rest, space);
      assert (s + space)[n..] == rest + space;
    }
  }

  // ----- which code points these are -----

  /** The code points with the Unicode property White_Space. */
  predicate White(cp: int) {
    || 0x9 <= cp <= 0xD || cp == 0x20 || cp == 0x85 || cp == 0xA0 || cp == 0x1680 || 0x2000 <= cp <= 0x200A
    || cp == 0x2028 || cp == 0x2029 || cp == 0x202F || cp == 0x205F || cp == 0x3000
  }

  /** UTF-8, section 3 of RFC 3629, as far as the three-byte forms. */
  function Utf8(cp: int): string
    requires 0 <= cp < 0x1_0000
  {
    if cp < 0x80 then [cp as char]
    else if cp < 0x800 then [(0xC0 + cp / 64) as char, (0x80 + cp % 64) as char]
    else [(0xE0 + cp / 4096) as char, (0x80 + cp / 64 % 64) as char, (0x80 + cp % 64) as char]
  }

  function Decoded(s: string): int
    requires 0 < |s| <= 3
  {
    if |s| == 1 then s[0] as int
    else if |s| == 2 then (s[0] as int - 0xC0) * 64 + (s[1] as int - 0x80)
    else (s[0] as int - 0xE0) * 4096 + (s[1] as int - 0x80) * 64 + (s[2] as int - 0x80)
  }

  /** A space in front is the encoding of a White_Space code point, and each of these is one. */
  lemma {:induction false} SpacesAre(s: string)
    ensures SpaceBefore(s) > 0 ==> exists cp :: White(cp) && s[..SpaceBefore(s)] == Utf8(cp)
    ensures forall cp | White(cp) && Utf8(cp) <= s :: SpaceBefore(s) == |Utf8(cp)|
  {
    var n := SpaceBefore(s);
    if n > 0 {
      SpaceDecodes(s, n);
      assert White(Decoded(s[..n])) && s[..n] == Utf8(Decoded(s[..n]));
    }
    forall cp | White(cp) && Utf8(cp) <= s ensures SpaceBefore(s) == |Utf8(cp)| { WhiteIsSpace(cp, s); }
  }

  lemma SpaceDecodes(s: string, n: nat)
    requires n == SpaceBefore(s) > 0
    ensures n <= 3 && White(Decoded(s[..n])) && s[..n] == Utf8(Decoded(s[..n]))
  {}

  lemma WhiteIsSpace(cp: int, s: string)
    requires White(cp) && Utf8(cp) <= s
    ensures SpaceBefore(s) == |Utf8(cp)|
  {}

  predicate EndsIn(s: string, t: string) { |t| <= |s| && s[|s| - |t|..] == t }

  /** And so at the end. */
  lemma {:induction false} SpacesBehindAre(s: string)
    ensures SpaceBehind(s) > 0 ==> exists cp :: White(cp) && EndsIn(s, Utf8(cp)) && |Utf8(cp)| == SpaceBehind(s)
    ensures forall cp | White(cp) && EndsIn(s, Utf8(cp)) :: SpaceBehind(s) == |Utf8(cp)|
  {
    var n := SpaceBehind(s);
    if n > 0 {
      var space := s[|s| - n..];
      LastSpace(s);
      SpaceDecodes(space, n);
      assert space[..n] == space;
      assert White(Decoded(space)) && EndsIn(s, Utf8(Decoded(space)));
    }
    forall cp | White(cp) && EndsIn(s, Utf8(cp)) ensures SpaceBehind(s) == |Utf8(cp)| { WhiteBehind(cp, s); }
  }

  lemma {:induction false} WhiteBehind(cp: int, s: string)
    requires White(cp) && EndsIn(s, Utf8(cp))
    ensures SpaceBehind(s) == |Utf8(cp)|
  {
    var u := Utf8(cp);
    WhiteIsSpace(cp, u);
    assert s[|s| - 1] == u[|u| - 1];
    if |u| == 3 { assert s[|s| - 2..] == u[1..]; }
  }
}
