/** Bytes and fixed-width integers, in both byte orders. */
module Bytes {
  type Byte = x: int | 0 <= x < 256

  /** A slice of a tail is a slice of the whole. */
  lemma Slices(b: seq<Byte>, i: nat, j: nat, k: nat)
    requires j <= k && i + k <= |b|
    ensures b[i..][j..k] == b[i + j..i + k] && b[i..][k..] == b[i + k..]
  {
  }

  const U32Limit := 0x1_0000_0000
  const U16Limit := 0x1_0000

  function Pow256(n: nat): (p: nat)
    ensures p >= 1
  {
    if n == 0 then 1 else 256 * Pow256(n - 1)
  }

  /** Big-endian in n bytes, truncated as an unsigned conversion truncates. */
  function Be(v: int, n: nat): (b: seq<Byte>)
    ensures |b| == n
    decreases n, v
  {
    if n == 0 then [] else Be(v / 256, n - 1) + [v % 256]
  }

  function BeValue(b: seq<Byte>): (v: nat)
    ensures v < Pow256(|b|)
  {
    if b == [] then 0 else 256 * BeValue(b[..|b| - 1]) + b[|b| - 1]
  }

  // Two and four bytes.

  function Be16(v: int): (b: seq<Byte>)
    ensures |b| == 2
  {
    Be(v, 2)
  }

  function Be32(v: int): (b: seq<Byte>)
    ensures |b| == 4
  {
    Be(v, 4)
  }

  /** The number whose big-endian bytes are b. */
  function U16(b: seq<Byte>): (v: nat)
    requires |b| == 2
    ensures v < U16Limit && Be16(v) == b
  {
    BeOneToOne(b);
    Pow256s();
    assert Be16(BeValue(b)) == b;
    var v: nat :| v < U16Limit && Be16(v) == b;
    v
  }

  function U32(b: seq<Byte>): (v: nat)
    requires |b| == 4
    ensures v < U32Limit && Be32(v) == b
  {
    BeOneToOne(b);
    Pow256s();
    assert Be32(BeValue(b)) == b;
    var v: nat :| v < U32Limit && Be32(v) == b;
    v
  }

  /** Little-endian is the same bytes the other way round. */
  function Le32(v: int): (b: seq<Byte>)
    ensures |b| == 4
  {
    var b := Be32(v);
    [b[3], b[2], b[1], b[0]]
  }

  function LeU32(b: seq<Byte>): (v: nat)
    requires |b| == 4
    ensures v < U32Limit
  {
    U32([b[3], b[2], b[1], b[0]])
  }

  lemma Pow256s()
    ensures Pow256(2) == U16Limit && Pow256(4) == U32Limit
  {
    assert Pow256(1) == 256;
    assert Pow256(3) == 256 * Pow256(2);
  }

  lemma ModByte(v: int, m: int)
    requires m >= 1
    ensures 256 * (v / 256 % m) + v % 256 == v % (256 * m)
  {
    var q, r := v / 256, v % 256;
    var a, t := q / m, q % m;
    assert q == m * a + t && v == 256 * q + r;
    assert v == (256 * m) * a + (256 * t + r) by { assert 256 * (m * a) == (256 * m) * a; }
    RemainderIs(v, 256 * m, a, 256 * t + r);
  }

  lemma RemainderIs(v: int, m: int, a: int, r: int)
    requires m >= 1 && v == m * a + r && 0 <= r < m
    ensures v / m == a && v % m == r
  {
    var q, t := v / m, v % m;
    assert m * q + t == m * a + r;
    if a > q { MultiplesApart(m, a, q); }
    if a < q { MultiplesApart(m, q, a); }
  }

  lemma {:induction false} MultiplesApart(m: int, a: int, q: int)
    requires m >= 1 && a > q
    ensures m * a >= m * q + m
    decreases a - q
  {
    assert m * a == m * (a - 1) + m;
    if a > q + 1 { MultiplesApart(m, a - 1, q); }
  }

  /** Writing and reading big-endian, both ways and for every width. */
  lemma {:induction false} BeReads(v: int, n: nat)
    ensures BeValue(Be(v, n)) == v % Pow256(n)
    decreases n
  {
    if n > 0 {
      BeReads(v / 256, n - 1);
      assert Be(v, n)[..n - 1] == Be(v / 256, n - 1);
      ModByte(v, Pow256(n - 1));
    }
  }

  lemma {:induction false} BeWrites(b: seq<Byte>)
    ensures Be(BeValue(b), |b|) == b
  {
    if b != [] {
      var front, last := b[..|b| - 1], b[|b| - 1];
      BeWrites(front);
      assert BeValue(b) / 256 == BeValue(front) && BeValue(b) % 256 == last;
      assert b == front + [last];
    }
  }

  /** Each byte string is the big-endian form of exactly one number in range. */
  lemma BeOneToOne(b: seq<Byte>)
    ensures BeValue(b) < Pow256(|b|) && Be(BeValue(b), |b|) == b
    ensures forall v: nat :: v < Pow256(|b|) && Be(v, |b|) == b ==> v == BeValue(b)
  {
    BeWrites(b);
    forall v: nat | v < Pow256(|b|) && Be(v, |b|) == b ensures v == BeValue(b) {
      BeReads(v, |b|);
      RemainderIs(v, Pow256(|b|), 0, v);
    }
  }

  lemma Be16Reads(v: int)
    ensures U16(Be16(v)) == v % U16Limit
  {
    var w := U16(Be16(v));
    BeReads(v, 2);
    BeReads(w, 2);
    Pow256s();
  }

  lemma Be32Reads(v: int)
    ensures U32(Be32(v)) == v % U32Limit
  {
    var w := U32(Be32(v));
    BeReads(v, 4);
    BeReads(w, 4);
    Pow256s();
  }

  lemma Le32Reads(v: int)
    ensures LeU32(Le32(v)) == v % U32Limit
  {
    var b := Be32(v);
    assert [b[0], b[1], b[2], b[3]] == b;
    Be32Reads(v);
  }

  function Weigh(a: int, b: int, c: int, d: int): int { 16_777_216 * a + 65_536 * b + 256 * c + d }

  /** Which byte counts for what. */
  lemma Weights(b: seq<Byte>)
    requires |b| == 4
    ensures U32(b) == Weigh(b[0], b[1], b[2], b[3]) && LeU32(b) == Weigh(b[3], b[2], b[1], b[0])
  {
    FourWeigh(b);
    FourWeigh([b[3], b[2], b[1], b[0]]);
  }

  lemma TwoWeigh(b: seq<Byte>)
    requires |b| == 2
    ensures U16(b) == Weigh(0, 0, b[0], b[1])
  {
    var v := Weigh(0, 0, b[0], b[1]);
    assert Be(v / 256, 1) == [b[0]];
    assert Be16(v) == b;
    Be16Reads(v);
  }

  lemma FourWeigh(b: seq<Byte>)
    requires |b| == 4
    ensures U32(b) == Weigh(b[0], b[1], b[2], b[3])
  {
    var v := Weigh(b[0], b[1], b[2], b[3]);
    var v3 := v / 256;
    var v2 := v3 / 256;
    var v1 := v2 / 256;
    assert v3 == Weigh(0, b[0], b[1], b[2]) && v2 == Weigh(0, 0, b[0], b[1]) && v1 == b[0];
    assert Be(v1, 1) == [b[0]];
    assert Be(v2, 2) == [b[0], b[1]];
    assert Be(v3, 3) == [b[0], b[1], b[2]];
    assert Be32(v) == b;
    Be32Reads(v);
  }

  /** Be32 of each value in turn. */
  function Be32s(vs: seq<int>): (b: seq<Byte>)
    ensures |b| == 4 * |vs|
  {
    if vs == [] then [] else Be32(vs[0]) + Be32s(vs[1..])
  }

  lemma {:induction false} Be32sAt(vs: seq<int>, i: nat)
    requires i < |vs|
    ensures Be32s(vs)[4 * i..4 * i + 4] == Be32(vs[i])
  {
    if i > 0 {
      Be32sAt(vs[1..], i - 1);
      assert Be32s(vs)[4 * i..4 * i + 4] == Be32s(vs[1..])[4 * (i - 1)..4 * (i - 1) + 4];
    }
  }

  function Zeros(n: nat): (b: seq<Byte>)
    ensures |b| == n
  {
    seq(n, _ => 0)
  }

  /** The zero byte that makes an odd length even. */
  function Pad(n: nat): seq<Byte> { if n % 2 == 1 then [0] else [] }

  // ------------------------------------------------------- four-character codes

  type FourCC = s: string | |s| == 4 && forall i :: 0 <= i < 4 ==> (s[i] as int) < 256 witness "free"

  function Chars(s: string): (b: seq<Byte>)
    requires forall i :: 0 <= i < |s| ==> (s[i] as int) < 256
    ensures |b| == |s|
    ensures forall i :: 0 <= i < |s| ==> b[i] == s[i] as int
  {
    seq(|s|, i requires 0 <= i < |s| => s[i] as int as Byte)
  }

  function Text(b: seq<Byte>): (s: string)
    ensures |s| == |b|
    ensures forall i :: 0 <= i < |b| ==> s[i] as int == b[i]
  {
    seq(|b|, i requires 0 <= i < |b| => (b[i] as int) as char)
  }

  lemma TextOfChars(s: string)
    requires forall i :: 0 <= i < |s| ==> (s[i] as int) < 256
    ensures Text(Chars(s)) == s
  {
  }

  lemma CharsOfText(b: seq<Byte>)
    ensures Chars(Text(b)) == b
  {
  }
}
