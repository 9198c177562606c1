/** Bit strings, least significant bit first within each byte (section 3 of RFC
    9649), and the in-place writer and reader of them. */
module Bits {
  import opened Bytes

  type Bit = x: int | 0 <= x < 2

  function Pow2(n: nat): (p: int)
    ensures p >= 1
  {
    if n == 0 then 1 else 2 * Pow2(n - 1)
  }

  /** The low k bits of v. */
  function BitsOf(v: nat, k: nat): (s: seq<Bit>)
    ensures |s| == k
  {
    if k == 0 then [] else [v % 2] + BitsOf(v / 2, k - 1)
  }

  function Value(s: seq<Bit>): (v: int)
    ensures v >= 0
  {
    if s == [] then 0 else s[0] + 2 * Value(s[1..])
  }

  function Unpack(b: seq<Byte>): (s: seq<Bit>)
    ensures |s| == 8 * |b|
  {
    if b == [] then [] else BitsOf(b[0], 8) + Unpack(b[1..])
  }

  function ZeroBits(n: nat): (s: seq<Bit>)
    ensures |s| == n
  {
    BitsOf(0, n)
  }

  function Shifted(bit: Bit, n: nat): nat {
    if bit == 0 then 0 else Pow2(n)
  }

  // ------------------------------------------------------------------ arithmetic

  lemma ModDouble(v: nat, m: int)
    requires m >= 1
    ensures v % (2 * m) == v % 2 + 2 * (v / 2 % m)
    ensures v / (2 * m) == v / 2 / m
  {
    var r, q := v % 2, v / 2;
    var t, a := q % m, q / m;
    assert q == m * a + t && v == 2 * q + r;
    assert v == (2 * m) * a + (2 * t + r) by { assert 2 * (m * a) == (2 * m) * a; }
    RemainderIs(v, 2 * m, a, 2 * t + r);
  }

  lemma {:induction false} ValueOfBits(v: nat, k: nat)
    ensures Value(BitsOf(v, k)) == v % Pow2(k)
  {
    if k > 0 {
      ValueOfBits(v / 2, k - 1);
      ModDouble(v, Pow2(k - 1));
      assert BitsOf(v, k)[1..] == BitsOf(v / 2, k - 1);
    }
  }

  lemma {:induction false} BitsOfValue(s: seq<Bit>)
    ensures BitsOf(Value(s), |s|) == s && Value(s) < Pow2(|s|)
  {
    if s != [] {
      BitsOfValue(s[1..]);
      var rest := Value(s[1..]);
      assert Value(s) % 2 == s[0] && Value(s) / 2 == rest;
      assert s == [s[0]] + s[1..];
    }
  }

  lemma {:induction false} BitsSnoc(v: nat, k: nat)
    ensures BitsOf(v, k + 1) == BitsOf(v, k) + [v / Pow2(k) % 2]
  {
    if k > 0 {
      BitsSnoc(v / 2, k - 1);
      ModDouble(v, Pow2(k - 1));
    } else {
      assert BitsOf(v / 2, 0) == [];
    }
  }

  lemma {:induction false} BitAt(v: nat, k: nat, i: nat)
    requires i < k
    ensures BitsOf(v, k)[i] == v / Pow2(i) % 2
  {
    if i > 0 {
      BitAt(v / 2, k - 1, i - 1);
      ModDouble(v, Pow2(i - 1));
    }
  }

  /** Setting the clear bit n of a value below 2^n appends to its bits. */
  lemma {:induction false} BitsAdd(cur: nat, bit: Bit, n: nat)
    requires cur < Pow2(n)
    ensures BitsOf(cur + Shifted(bit, n), n + 1) == BitsOf(cur, n) + [bit]
    ensures cur + Shifted(bit, n) < Pow2(n + 1)
  {
    var x := cur + Shifted(bit, n);
    if n > 0 {
      assert x % 2 == cur % 2 && x / 2 == cur / 2 + Shifted(bit, n - 1);
      BitsAdd(cur / 2, bit, n - 1);
    } else {
      assert BitsOf(x / 2, 0) == [];
    }
  }

  lemma {:induction false} UnpackAt(b: seq<Byte>, p: nat)
    requires p < 8 * |b|
    ensures Unpack(b)[p] == b[p / 8] / Pow2(p % 8) % 2
  {
    if p < 8 {
      BitAt(b[0], 8, p);
    } else {
      UnpackAt(b[1..], p - 8);
      assert (p - 8) / 8 == p / 8 - 1 && (p - 8) % 8 == p % 8;
    }
  }

  lemma Assoc(a: seq<Bit>, b: seq<Bit>, c: seq<Bit>)
    ensures a + b + c == a + (b + c)
  {
  }

  lemma Nothing(a: seq<Bit>)
    ensures a + [] == a && [] + a == a
  {
  }

  lemma {:induction false} UnpackSnoc(b: seq<Byte>, x: Byte)
    ensures Unpack(b + [x]) == Unpack(b) + BitsOf(x, 8)
  {
    if b == [] {
      assert [x][1..] == [] && [] + [x] == [x];
      Nothing(BitsOf(x, 8));
    } else {
      assert (b + [x])[0] == b[0] && (b + [x])[1..] == b[1..] + [x];
      UnpackSnoc(b[1..], x);
      Assoc(BitsOf(b[0], 8), Unpack(b[1..]), BitsOf(x, 8));
    }
  }

  lemma {:induction false} ValueSnoc(s: seq<Bit>, bit: Bit)
    ensures Value(s + [bit]) == Value(s) + Shifted(bit, |s|)
  {
    if s == [] {
      assert [bit][1..] == [] && s + [bit] == [bit];
    } else {
      ValueSnoc(s[1..], bit);
      assert (s + [bit])[1..] == s[1..] + [bit];
    }
  }

  lemma {:induction false} ZerosAbove(v: nat, n: nat, k: nat)
    requires v < Pow2(n)
    ensures BitsOf(v, n + k) == BitsOf(v, n) + ZeroBits(k)
  {
    if n > 0 {
      ZerosAbove(v / 2, n - 1, k);
    } else {
      assert BitsOf(v, 0) + ZeroBits(k) == ZeroBits(k);
    }
  }

  lemma {:induction false} Pow2Grows(a: nat, b: nat)
    requires a <= b
    ensures Pow2(a) <= Pow2(b)
    decreases b
  {
    if a < b { Pow2Grows(a, b - 1); }
  }

  lemma PowersOf2()
    ensures Pow2(8) == 256 && Pow2(32) == U32Limit
  {
    assert Pow2(8) == 256;
    assert Pow2(16) == 65536;
    assert Pow2(24) == 16777216;
  }

  lemma {:induction false} LowBits(v: nat, k: nat, j: nat)
    requires j <= k
    ensures BitsOf(v, k)[..j] == BitsOf(v, j)
  {
    if j > 0 { LowBits(v / 2, k - 1, j - 1); }
  }

  // ---------------------------------------------------------------------- fields

  /** One write call. */
  datatype Field = Field(value: nat, width: nat)

  function FieldBits(fs: seq<Field>): seq<Bit> {
    if fs == [] then [] else BitsOf(fs[0].value, fs[0].width) + FieldBits(fs[1..])
  }

  lemma {:induction false} FieldBitsSnoc(fs: seq<Field>, f: Field)
    ensures FieldBits(fs + [f]) == FieldBits(fs) + BitsOf(f.value, f.width)
  {
    if fs == [] {
      assert fs + [f] == [f] && [f][1..] == [];
      Nothing(BitsOf(f.value, f.width));
    } else {
      assert (fs + [f])[0] == fs[0] && (fs + [f])[1..] == fs[1..] + [f];
      FieldBitsSnoc(fs[1..], f);
      Assoc(BitsOf(fs[0].value, fs[0].width), FieldBits(fs[1..]), BitsOf(f.value, f.width));
    }
  }

  lemma {:induction false} FieldBitsConcat(a: seq<Field>, b: seq<Field>)
    ensures FieldBits(a + b) == FieldBits(a) + FieldBits(b)
  {
    if a == [] {
      assert a + b == b;
      Nothing(FieldBits(b));
    } else {
      assert (a + b)[0] == a[0] && (a + b)[1..] == a[1..] + b;
      FieldBitsConcat(a[1..], b);
      Assoc(BitsOf(a[0].value, a[0].width), FieldBits(a[1..]), FieldBits(b));
    }
  }

  // ------------------------------------------------------------------ the writer

  lemma NextBit(was: seq<Bit>, v: nat, i: nat)
    ensures was + BitsOf(v, i + 1) == was + BitsOf(v, i) + [v / Pow2(i) % 2]
  {
    BitsSnoc(v, i);
    Assoc(was, BitsOf(v, i), [v / Pow2(i) % 2]);
  }

  lemma ByteFits(cur: nat, n: nat, bit: Bit)
    requires n < 8 && cur < Pow2(n)
    ensures cur + Shifted(bit, n) < Pow2(n + 1)
    ensures n + 1 == 8 ==> cur + Shifted(bit, n) < 256
  {
    PowersOf2();
  }

  /** The writer's buffer, pending byte and bit count after one more bit. */
  function AfterBit(buf: seq<Byte>, cur: nat, n: nat, bit: Bit): (seq<Byte>, nat, nat)
    requires n < 8 && cur < Pow2(n)
  {
    ByteFits(cur, n, bit);
    if n + 1 == 8 then (buf + [cur + Shifted(bit, n)], 0, 0) else (buf, cur + Shifted(bit, n), n + 1)
  }

  lemma AppendBit(buf: seq<Byte>, cur: nat, n: nat, bit: Bit)
    requires n < 8 && cur < Pow2(n)
    ensures var (b, c, m) := AfterBit(buf, cur, n, bit);
            m < 8 && c < Pow2(m) && Unpack(b) + BitsOf(c, m) == Unpack(buf) + BitsOf(cur, n) + [bit]
  {
    var x := cur + Shifted(bit, n);
    ByteFits(cur, n, bit);
    BitsAdd(cur, bit, n);
    Assoc(Unpack(buf), BitsOf(cur, n), [bit]);
    if n + 1 == 8 {
      UnpackSnoc(buf, x);
      Nothing(Unpack(buf + [x]));
    }
  }

  lemma FlushByte(buf: seq<Byte>, cur: nat, n: nat)
    requires 0 < n < 8 && cur < Pow2(n)
    ensures cur < 256
    ensures var w := Unpack(buf) + BitsOf(cur, n);
            Unpack(buf + [cur]) == w + ZeroBits(8 - n)
  {
    PowersOf2();
    Pow2Grows(n, 8);
    UnpackSnoc(buf, cur);
    ZerosAbove(cur, n, 8 - n);
    assert n + (8 - n) == 8;
    Assoc(Unpack(buf), BitsOf(cur, n), ZeroBits(8 - n));
  }

  class BitWriter {
    var buf: seq<Byte>
    var cur: nat
    var n: nat
    /** Every write so far, oldest first. */
    ghost var fields: seq<Field>

    ghost predicate Valid()
      reads this
    {
      n < 8 && cur < Pow2(n) && FieldBits(fields) == Unpack(buf) + BitsOf(cur, n)
    }

    constructor ()
      ensures Valid() && fields == []
    {
      buf, cur, n := [], 0, 0;
      fields := [];
    }

    /** One turn of write: the bits of cur from n up are clear, so or-ing in is
        adding. */
    method PutBit(bit: Bit)
      requires n < 8 && cur < Pow2(n)
      modifies this`buf, this`cur, this`n
      ensures (buf, cur, n) == AfterBit(old(buf), old(cur), old(n), bit)
    {
      ByteFits(cur, n, bit);
      cur, n := cur + Shifted(bit, n), n + 1;
      if n == 8 {
        buf := buf + [cur];
        cur, n := 0, 0;
      }
    }

    /** write. */
    method Write(v: nat, bits: nat)
      requires Valid() && v < U32Limit
      modifies this
      ensures Valid() && fields == old(fields) + [Field(v, bits)]
    {
      ghost var was := FieldBits(fields);
      Nothing(was);
      for i := 0 to bits
        invariant n < 8 && cur < Pow2(n) && fields == old(fields)
        invariant Unpack(buf) + BitsOf(cur, n) == was + BitsOf(v, i)
      {
        NextBit(was, v, i);
        AppendBit(buf, cur, n, v / Pow2(i) % 2);
        PutBit(v / Pow2(i) % 2);
      }
      FieldBitsSnoc(fields, Field(v, bits));
      fields := fields + [Field(v, bits)];
    }

    /** bytes. */
    method Flush() returns (r: seq<Byte>)
      requires Valid()
      modifies this
      ensures n == 0 && r == buf && fields == old(fields)
      ensures 0 <= 8 * |r| - |FieldBits(fields)| < 8
      ensures Unpack(r) == FieldBits(fields) + ZeroBits(8 * |r| - |FieldBits(fields)|)
    {
      Nothing(FieldBits(fields));
      Nothing(Unpack(buf));
      if n > 0 {
        FlushByte(buf, cur, n);
        buf := buf + [cur];
        cur, n := 0, 0;
      }
      r := buf;
    }
  }

  // ------------------------------------------------------------------ the reader

  /** What is left to read, and whether a read has run off the end. */
  datatype Cursor = Cursor(rest: seq<Bit>, ended: bool)

  function Min(a: nat, b: nat): nat { if a <= b then a else b }

  /** A 32-bit result keeps the first 32 bits of a wider field. */
  function ReadValue(c: Cursor, k: nat): (v: int)
    ensures v >= 0
  {
    Value(c.rest[..Min(Min(k, 32), |c.rest|)])
  }

  /** A read that runs off the end leaves the position where it was. */
  function ReadRest(c: Cursor, k: nat): Cursor {
    if k <= |c.rest| then Cursor(c.rest[k..], c.ended) else Cursor(c.rest, true)
  }

  lemma NextValue(s: seq<Bit>, i: nat)
    requires i < |s|
    ensures Value(s[..i + 1]) == Value(s[..i]) + Shifted(s[i], i)
  {
    assert s[..i + 1] == s[..i] + [s[i]];
    ValueSnoc(s[..i], s[i]);
  }

  lemma StreamBit(b: seq<Byte>, pos: nat, i: nat)
    requires pos <= 8 * |b| && (pos + i) / 8 < |b|
    ensures i < |Unpack(b)[pos..]| && Unpack(b)[pos..][i] == b[(pos + i) / 8] / Pow2((pos + i) % 8) % 2
  {
    UnpackAt(b, pos + i);
  }

  /** The loop of read. */
  method Gather(b: seq<Byte>, pos: nat, bits: nat) returns (v: nat, ok: bool)
    requires pos <= 8 * |b|
    ensures ok <==> pos + bits <= 8 * |b|
    ensures v == ReadValue(Cursor(Unpack(b)[pos..], false), bits)
  {
    v := 0;
    ghost var s := Unpack(b)[pos..];
    for i := 0 to bits
      invariant i <= |s| && v == Value(s[..Min(i, 32)])
    {
      var byteIdx := (pos + i) / 8;
      if byteIdx >= |b| { return v, false; }
      StreamBit(b, pos, i);
      var bit := b[byteIdx] / Pow2((pos + i) % 8) % 2;
      if i < 32 {
        NextValue(s, i);
        v := v + Shifted(bit, i);
      }
    }
    ok := true;
  }

  lemma CursorMoves(u: seq<Bit>, pos: nat, bits: nat, ended: bool)
    requires pos <= |u|
    ensures ReadRest(Cursor(u[pos..], ended), bits)
            == if pos + bits <= |u| then Cursor(u[pos + bits..], ended) else Cursor(u[pos..], true)
  {
    if pos + bits <= |u| { assert u[pos..][bits..] == u[pos + bits..]; }
  }

  class BitReader {
    const b: seq<Byte>
    var pos: nat
    var err: bool
    ghost var at: Cursor

    ghost predicate Valid()
      reads this
    {
      pos <= 8 * |b| && at == Cursor(Unpack(b)[pos..], err)
    }

    constructor (b: seq<Byte>)
      ensures this.b == b && Valid() && at == Cursor(Unpack(b), false)
    {
      this.b := b;
      pos, err := 0, false;
      at := Cursor(Unpack(b), false);
    }

    /** read. */
    method Read(bits: nat) returns (v: nat)
      requires Valid()
      modifies this
      ensures Valid() && v == ReadValue(old(at), bits) && at == ReadRest(old(at), bits)
    {
      CursorMoves(Unpack(b), pos, bits, err);
      var ok;
      v, ok := Gather(b, pos, bits);
      if ok { pos := pos + bits; } else { err := true; }
      at := ReadRest(at, bits);
    }
  }

  // -------------------------------------------------------------- fields both ways

  lemma SmallMod(v: nat, m: int)
    requires v < m
    ensures v % m == v
  {
    RemainderIs(v, m, 0, v);
  }

  /** Bits written by one write call read back as the value modulo 2^width. */
  lemma FieldReads(v: nat, k: nat, rest: seq<Bit>)
    requires v < U32Limit
    ensures ReadValue(Cursor(BitsOf(v, k) + rest, false), k) == v % Pow2(k)
    ensures ReadRest(Cursor(BitsOf(v, k) + rest, false), k) == Cursor(rest, false)
  {
    var s := BitsOf(v, k) + rest;
    assert s[k..] == rest;
    var j := Min(k, 32);
    LowBits(v, k, j);
    assert s[..j] == BitsOf(v, k)[..j];
    ValueOfBits(v, j);
    if k > 32 {
      PowersOf2();
      Pow2Grows(32, k);
      SmallMod(v, Pow2(32));
      SmallMod(v, Pow2(k));
    }
  }

  /** A read that did not run off the end consumed exactly the bits of its value. */
  lemma ReadConsumes(c: Cursor, k: nat)
    requires k <= 32 && !ReadRest(c, k).ended
    ensures !c.ended && c.rest == BitsOf(ReadValue(c, k), k) + ReadRest(c, k).rest && ReadValue(c, k) < Pow2(k)
  {
    BitsOfValue(c.rest[..k]);
    assert c.rest == c.rest[..k] + c.rest[k..];
  }

  function ReadAll(c: Cursor, widths: seq<nat>): (seq<int>, Cursor)
    decreases |widths|
  {
    if widths == [] then ([], c)
    else
      var (vs, end) := ReadAll(ReadRest(c, widths[0]), widths[1..]);
      ([ReadValue(c, widths[0])] + vs, end)
  }

  function Widths(fs: seq<Field>): seq<nat> { seq(|fs|, i requires 0 <= i < |fs| => fs[i].width) }

  function Truncated(fs: seq<Field>): seq<int> {
    seq(|fs|, i requires 0 <= i < |fs| => fs[i].value % Pow2(fs[i].width))
  }

  lemma FirstField(fs: seq<Field>)
    requires fs != []
    ensures Widths(fs)[0] == fs[0].width && Widths(fs)[1..] == Widths(fs[1..])
    ensures Truncated(fs) == [fs[0].value % Pow2(fs[0].width)] + Truncated(fs[1..])
  {
  }

  /** Whatever fields were written, reading the same widths returns each value
      modulo two to its width and stops exactly where the fields end. */
  lemma {:induction false} FieldsReadBack(fs: seq<Field>, rest: seq<Bit>)
    requires forall i :: 0 <= i < |fs| ==> fs[i].value < U32Limit
    ensures ReadAll(Cursor(FieldBits(fs) + rest, false), Widths(fs)) == (Truncated(fs), Cursor(rest, false))
  {
    if fs == [] {
      Nothing(rest);
      assert Truncated(fs) == [] && Widths(fs) == [];
    } else {
      var tail := FieldBits(fs[1..]) + rest;
      Assoc(BitsOf(fs[0].value, fs[0].width), FieldBits(fs[1..]), rest);
      FieldReads(fs[0].value, fs[0].width, tail);
      FieldsReadBack(fs[1..], rest);
      FirstField(fs);
    }
  }
}
