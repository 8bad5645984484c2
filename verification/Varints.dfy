/** The base-128 varints of Go's encoding/binary (unsigned LEB128, section 7.6 of DWARF 5),
    with zigzag for signed values. Words are integers in the range of their Go type, with the
    bit operations of Bits. */
module Varints {
  import opened Bits
  import opened Wrappers

  type byte = x: int | 0 <= x < 256
  type Bytes = seq<byte>

  const TWO63: int := 0x8000_0000_0000_0000
  const TWO64: int := 0x1_0000_0000_0000_0000

  type u64 = x: int | 0 <= x < TWO64
  type i64 = x: int | -TWO63 <= x < TWO63

  /** What is left after a value has been read off the front. */
  datatype Parsed<+T> = Parsed(value: T, rest: Bytes)

  const MAX_VARINT_LEN := 10

  // ----- unsigned -----

  function Uvarint(v: nat): (r: Bytes)
    ensures r != []
  {
    if v < 128 then [v] else [v % 128 + 128] + Uvarint(v / 128)
  }

  /** Reads the continuation after `i` bytes; the tenth byte may only hold the last bit. */
  function ReadFrom(bs: Bytes, i: nat): Option<Parsed<nat>> {
    if bs == [] || i >= MAX_VARINT_LEN then None
    else if bs[0] < 128 then
      if i == MAX_VARINT_LEN - 1 && bs[0] > 1 then None else Some(Parsed(bs[0], bs[1..]))
    else
      match ReadFrom(bs[1..], i + 1)
      case None => None
      case Some(p) => Some(Parsed(bs[0] - 128 + 128 * p.value, p.rest))
  }

  /** The values that fit in what is left of 64 bits after `i` groups of seven. */
  function Room(i: nat): (r: nat)
    requires i <= 9
    ensures r >= 2
    decreases 9 - i
  {
    if i == 9 then 2 else 128 * Room(i + 1)
  }

  lemma RoomIsWord()
    ensures Room(0) == TWO64
  {}

  lemma {:induction false} ReadInRoom(bs: Bytes, i: nat)
    requires i <= 9
    ensures ReadFrom(bs, i).Some? ==> ReadFrom(bs, i).value.value < Room(i)
  {
    if bs != [] && bs[0] >= 128 {
      if i < 9 { ReadInRoom(bs[1..], i + 1); } else { assert ReadFrom(bs[1..], i + 1) == None; }
    }
  }

  function ReadUvarint(bs: Bytes): (r: Option<Parsed<u64>>) {
    RoomIsWord();
    ReadInRoom(bs, 0);
    match ReadFrom(bs, 0) case None => None case Some(p) => Some(Parsed(p.value, p.rest))
  }

  lemma {:induction false} ReadBack(v: nat, i: nat, rest: Bytes)
    requires i <= 9 && v < Room(i)
    ensures ReadFrom(Uvarint(v) + rest, i) == Some(Parsed(v, rest))
    ensures |Uvarint(v)| <= MAX_VARINT_LEN - i
  {
    var bs := Uvarint(v) + rest;
    if v < 128 {
      assert bs[1..] == rest;
    } else {
      assert bs[1..] == Uvarint(v / 128) + rest;
      ReadBack(v / 128, i + 1, rest);
    }
  }

  /** Every 64-bit word is written in at most ten bytes and read back, whatever follows. */
  lemma {:induction false} UvarintRoundTrip(v: u64, rest: Bytes)
    ensures ReadUvarint(Uvarint(v) + rest) == Some(Parsed(v, rest))
    ensures |Uvarint(v)| <= MAX_VARINT_LEN
  {
    RoomIsWord();
    ReadBack(v, 0, rest);
  }

  /** Reading uses up a non-empty front and never looks behind it. */
  ghost predicate Local<T(!new)>(p: Option<Parsed<T>>, bs: Bytes, more: Option<Parsed<T>>, tail: Bytes) {
    p.Some? ==> more == Some(Parsed(p.value.value, p.value.rest + tail)) && |p.value.rest| <= |bs|
  }

  lemma {:induction false} ReadLocal(bs: Bytes, i: nat, tail: Bytes)
    ensures Local(ReadFrom(bs, i), bs, ReadFrom(bs + tail, i), tail)
    ensures ReadFrom(bs, i).Some? ==> |ReadFrom(bs, i).value.rest| < |bs|
  {
    if bs != [] && i < MAX_VARINT_LEN {
      assert (bs + tail)[1..] == bs[1..] + tail;
      if bs[0] >= 128 { ReadLocal(bs[1..], i + 1, tail); }
    }
  }

  /** The value of groups of seven bits, the least significant first. */
  function Groups(bs: Bytes): nat { if bs == [] then 0 else bs[0] % 128 + 128 * Groups(bs[1..]) }

  /** Every byte but the last has the high bit, and no zero group is written behind others. */
  lemma {:induction false} UvarintIs(v: nat)
    ensures var bs := Uvarint(v);
      && Groups(bs) == v && (forall k | 0 <= k < |bs| :: bs[k] >= 128 <==> k < |bs| - 1)
      && (|bs| > 1 ==> bs[|bs| - 1] > 0)
  {
    if v >= 128 {
      UvarintIs(v / 128);
      var bs, more := Uvarint(v), Uvarint(v / 128);
      assert bs[1..] == more;
      assert forall k | 0 < k < |bs| :: bs[k] == more[k - 1];
    } else {
      assert Groups([]) == 0 && Uvarint(v)[1..] == [];
    }
  }

  // ----- signed -----

  function ToU64(x: i64): u64 { if x < 0 then x + TWO64 else x }
  function ToI64(u: u64): i64 { if u >= TWO63 then u - TWO64 else u }

  lemma {:induction false} Words()
    ensures Pow2(7) == 128 && Pow2(8) == 256 && Pow2(63) == TWO63 && Pow2(64) == TWO64
  {
    assert Pow2(7) == 128;
    Pow2Sum(8, 8);
    Pow2Sum(16, 16);
    Pow2Sum(32, 32);
  }

  /** `u << 1` in 64 bits. */
  function Shl1(u: u64): (r: u64)
    ensures r == 2 * u % TWO64
  {
    Words();
    OneDigit(u);
    LowIsMod(ShiftLeft(u, 1), 64);
    Low(ShiftLeft(u, 1), 64)
  }

  /** `u >> 1` and `u & 1`. */
  function Shr1(u: u64): (r: u64)
    ensures r == u / 2
  {
    OneDigit(u);
    ShiftRight(u, 1)
  }

  function And1(u: u64): (r: u64)
    ensures r == u % 2
  {
    OneDigit(u);
    And(u, 1)
  }

  /** `^u` on the unsigned and, in two's complement, on the signed word. */
  function NotU64(u: u64): (r: u64)
    ensures r == TWO64 - 1 - u
  {
    Words();
    NotIs(u, 64);
    Not(u, 64)
  }

  function NotI64(x: i64): (r: i64)
    ensures r == -1 - x
  {
    ToI64(NotU64(ToU64(x)))
  }

  function ZigZag(x: i64): u64 {
    var ux := Shl1(ToU64(x));
    if x < 0 then NotU64(ux) else ux
  }

  function UnZigZag(u: u64): i64 {
    var x := ToI64(Shr1(u));
    if And1(u) != 0 then NotI64(x) else x
  }

  /** Zigzag is a bijection between the signed and the unsigned words, with small magnitudes
      first. */
  lemma ZigZagInverse(x: i64, u: u64)
    ensures UnZigZag(ZigZag(x)) == x && ZigZag(UnZigZag(u)) == u
    ensures ZigZag(x) == if x >= 0 then 2 * x else -2 * x - 1
  {
    hide Shl1, Shr1, And1, NotU64, NotI64;
  }

  function Varint(x: i64): Bytes { Uvarint(ZigZag(x)) }

  function ReadVarint(bs: Bytes): Option<Parsed<i64>> {
    match ReadUvarint(bs) case None => None case Some(p) => Some(Parsed(UnZigZag(p.value), p.rest))
  }

  lemma {:induction false} VarintRoundTrip(x: i64, rest: Bytes)
    ensures ReadVarint(Varint(x) + rest) == Some(Parsed(x, rest))
  {
    UvarintRoundTrip(ZigZag(x), rest);
    ZigZagInverse(x, 0);
  }

  // ----- groups of seven bits -----

  /** `v & 0x7f`, `v >> 7` and `byte(v) | 0x80`. */
  lemma {:induction false} GroupForms(v: nat)
    ensures And(v, 0x7f) == v % 128 && ShiftRight(v, 7) == v / 128
    ensures Or(Low(v, 8), 0x80) == v % 128 + 128
  {
    hide *;
    Words();
    AndMask(v, 7);
    LowIsMod(v, 7);
    LowIsMod(v, 8);
    ShiftRightIs(v, 7);
    OrTop(v % 256, 7);
    ByteGroup(v);
  }

  lemma {:induction false} ByteGroup(v: nat)
    ensures v % 256 % 128 == v % 128
  {
    Remainder(v, 128, 2 * (v / 256) + v % 256 / 128, v % 256 % 128);
  }

  /** A value continued above the first `i` groups. */
  function Gathered(acc: int, high: int, i: nat): int { acc + high * Pow2(7 * i) }

  /** A group or-ed above those already read is added to them, within the word. */
  lemma {:induction false} GroupAbove(acc: nat, b: nat, i: nat)
    requires acc < Pow2(7 * i) && i < MAX_VARINT_LEN && b < 128 && (i == MAX_VARINT_LEN - 1 ==> b <= 1)
    ensures Or(acc, Low(ShiftLeft(b, 7 * i), 64)) == Gathered(acc, b, i) < TWO64
    ensures i < MAX_VARINT_LEN - 1 ==> Gathered(acc, b, i) < Pow2(7 * (i + 1))
  {
    assert Gathered(acc, b, i) == acc + b * Pow2(7 * i);
    hide *;
    Words();
    ShiftLeftIs(b, 7 * i);
    Above(acc, b, i);
    LowIsMod(ShiftLeft(b, 7 * i), 64);
    OrIsPlus(acc, b, 7 * i);
    SmallMod(b * Pow2(7 * i), TWO64);
  }

  lemma {:induction false} SmallMod(a: int, m: int)
    requires 0 <= a < m
    ensures a % m == a
  {}

  lemma {:induction false} Above(acc: nat, b: nat, i: nat)
    requires acc < Pow2(7 * i) && i < MAX_VARINT_LEN && b < 128 && (i == MAX_VARINT_LEN - 1 ==> b <= 1)
    ensures acc + b * Pow2(7 * i) < TWO64
    ensures i < MAX_VARINT_LEN - 1 ==> acc + b * Pow2(7 * i) < Pow2(7 * (i + 1))
  {
    var p, room := Pow2(7 * i), if i == MAX_VARINT_LEN - 1 then 2 else 128;
    hide *;
    Words();
    Times(b + 1, room, p);
    assert (b + 1) * p == b * p + p;
    NextGroup(i);
    if i == MAX_VARINT_LEN - 1 {
      Pow2Sum(63, 1);
      assert 7 * i == 63;
    } else {
      WordGroups(i + 1);
    }
  }

  lemma {:induction false} NextGroup(i: nat)
    ensures Pow2(7 * (i + 1)) == 128 * Pow2(7 * i)
  {
    Words();
    Pow2Sum(7, 7 * i);
    assert 7 * (i + 1) == 7 + 7 * i;
  }

  /** Nine groups fit into the word. */
  lemma {:induction false} WordGroups(i: nat)
    requires i < MAX_VARINT_LEN
    ensures Pow2(7 * i) <= TWO63
    decreases MAX_VARINT_LEN - i
  {
    Words();
    if i < MAX_VARINT_LEN - 1 {
      WordGroups(i + 1);
      NextGroup(i);
    } else {
      assert 7 * i == 63;
    }
  }
}
