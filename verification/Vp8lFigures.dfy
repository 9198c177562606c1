/** Where each number of a solid VP8L frame stands (sections 3.4 and 3.7 of RFC 9649),
    in bits from the first byte after the signature, least significant bit first. */
module Vp8lFigures {
  import opened Wrappers
  import opened Bytes
  import opened Bits
  import opened Vp8l

  /** The number held by some bits of the stream after the signature. */
  function NumberAt(b: seq<Byte>, at: nat, width: nat): int
    requires |b| >= 1 && at + width <= 8 * (|b| - 1)
  {
    Value(Unpack(b[1..])[at..at + width])
  }

  // ------------------------------------------------------------------ fields in place

  /** The bits before field k. */
  function Offset(fs: seq<Field>, k: nat): nat
    requires k <= |fs|
    decreases k
  {
    if k == 0 then 0 else fs[0].width + Offset(fs[1..], k - 1)
  }

  ghost predicate StandsAt(bits: seq<Bit>, f: Field, at: nat) {
    at + f.width <= |bits| && bits[at..at + f.width] == BitsOf(f.value, f.width)
  }

  lemma StandsAfter(bits: seq<Bit>, f: Field, at: nat, before: seq<Bit>)
    requires StandsAt(bits, f, at)
    ensures StandsAt(before + bits, f, |before| + at)
  {
    assert (before + bits)[|before| + at..|before| + at + f.width] == bits[at..at + f.width];
  }

  lemma {:induction false} FieldStands(fs: seq<Field>, k: nat, rest: seq<Bit>)
    requires k < |fs|
    ensures StandsAt(FieldBits(fs) + rest, fs[k], Offset(fs, k))
    decreases k
  {
    var head, more := BitsOf(fs[0].value, fs[0].width), FieldBits(fs[1..]) + rest;
    assert FieldBits(fs) + rest == head + more;
    if k == 0 {
      assert (head + more)[0..|head|] == head;
    } else {
      FieldStands(fs[1..], k - 1, rest);
      StandsAfter(more, fs[k], Offset(fs[1..], k - 1), head);
    }
  }

  lemma {:induction false} OffsetOfConcat(a: seq<Field>, b: seq<Field>, k: nat)
    requires k <= |b|
    ensures Offset(a + b, |a| + k) == Offset(a, |a|) + Offset(b, k)
    decreases |a|
  {
    if a == [] {
      assert a + b == b;
    } else {
      assert (a + b)[1..] == a[1..] + b;
      OffsetOfConcat(a[1..], b, k);
    }
  }

  lemma {:induction false} OffsetOfFront(a: seq<Field>, b: seq<Field>, k: nat)
    requires k <= |a|
    ensures Offset(a + b, k) == Offset(a, k)
    decreases k
  {
    if k > 0 {
      assert (a + b)[1..] == a[1..] + b;
      OffsetOfFront(a[1..], b, k - 1);
    }
  }

  // --------------------------------------------------------------- the frame's fields

  lemma HeaderOffsets(w: int, h: int, alpha: Bit)
    requires InRange(w, h)
    ensures var fs := HeaderFields(w, h, alpha);
            && Offset(fs, 1) == 14 && Offset(fs, 2) == 28 && Offset(fs, 3) == 29 && Offset(fs, 4) == 32
            && Offset(fs, 5) == 33 && Offset(fs, 6) == 34 && Offset(fs, 7) == 35
  {
    var fs := HeaderFields(w, h, alpha);
    var t1, t2, t3, t4, t5, t6 := fs[1..], fs[2..], fs[3..], fs[4..], fs[5..], fs[6..];
    assert t1[1..] == t2 && t2[1..] == t3 && t3[1..] == t4 && t4[1..] == t5 && t5[1..] == t6;
    assert Offset(t6, 1) == 1;
    assert Offset(t5, 1) == 1 && Offset(t5, 2) == 2;
    assert Offset(t4, 1) == 1 && Offset(t4, 2) == 2 && Offset(t4, 3) == 3;
    assert Offset(t3, 1) == 3 && Offset(t3, 2) == 4 && Offset(t3, 3) == 5 && Offset(t3, 4) == 6;
    assert Offset(t2, 1) == 1 && Offset(t2, 2) == 4 && Offset(t2, 3) == 5 && Offset(t2, 4) == 6 && Offset(t2, 5) == 7;
    assert Offset(t1, 1) == 14 && Offset(t1, 2) == 15 && Offset(t1, 3) == 18 && Offset(t1, 4) == 19
        && Offset(t1, 5) == 20 && Offset(t1, 6) == 21;
  }

  lemma CodeOffsets(symbol: Byte)
    ensures var fs := CodeFields(symbol);
            Offset(fs, 1) == 1 && Offset(fs, 2) == 2 && Offset(fs, 3) == 3 && Offset(fs, 4) == 11
  {
    var fs := CodeFields(symbol);
    var t1, t2, t3 := fs[1..], fs[2..], fs[3..];
    assert t1[1..] == t2 && t2[1..] == t3;
    assert Offset(t3, 1) == 8;
    assert Offset(t2, 1) == 1 && Offset(t2, 2) == 9;
    assert Offset(t1, 1) == 1 && Offset(t1, 2) == 2 && Offset(t1, 3) == 10;
  }

  /** Field j of code i. */
  lemma {:induction false} CodeAt(symbols: seq<Byte>, i: nat, j: nat)
    requires i < |symbols| && j < 4
    ensures 4 * i + j < |CodesFields(symbols)| && CodesFields(symbols)[4 * i + j] == CodeFields(symbols[i])[j]
    ensures Offset(CodesFields(symbols), 4 * i + j) == 11 * i + j
    decreases i
  {
    var head, more := CodeFields(symbols[0]), CodesFields(symbols[1..]);
    CodeOffsets(symbols[0]);
    if i == 0 {
      OffsetOfFront(head, more, j);
    } else {
      CodeAt(symbols[1..], i - 1, j);
      OffsetOfConcat(head, more, 4 * (i - 1) + j);
    }
  }

  lemma HeaderFieldStands(b: seq<Byte>, f: Frame, d: Byte, rest: seq<Bit>, k: nat)
    requires InRange(f.w, f.h) && |b| >= 1 && Unpack(b[1..]) == FieldBits(SolidFields(f, d)) + rest && k < 7
    ensures var fs := HeaderFields(f.w, f.h, AlphaUsed(f.c)); StandsAt(Unpack(b[1..]), fs[k], Offset(fs, k))
  {
    var head, codes := HeaderFields(f.w, f.h, AlphaUsed(f.c)), CodesFields(Symbols(f.c, d));
    FrameNests(head, codes, rest);
    FieldStands(head, k, FieldBits(codes) + rest);
  }

  lemma LaterFieldStands(head: seq<Bit>, codes: seq<Field>, k: nat, rest: seq<Bit>)
    requires k < |codes|
    ensures StandsAt(head + (FieldBits(codes) + rest), codes[k], |head| + Offset(codes, k))
  {
    FieldStands(codes, k, rest);
    StandsAfter(FieldBits(codes) + rest, codes[k], Offset(codes, k), head);
  }

  lemma CodeFieldStands(b: seq<Byte>, f: Frame, d: Byte, rest: seq<Bit>, i: nat, j: nat)
    requires InRange(f.w, f.h) && |b| >= 1 && Unpack(b[1..]) == FieldBits(SolidFields(f, d)) + rest
    requires i < 5 && j < 4
    ensures StandsAt(Unpack(b[1..]), CodeFields(Symbols(f.c, d)[i])[j], 35 + 11 * i + j)
  {
    var head, codes := HeaderFields(f.w, f.h, AlphaUsed(f.c)), CodesFields(Symbols(f.c, d));
    FrameNests(head, codes, rest);
    HeaderOffsets(f.w, f.h, AlphaUsed(f.c));
    BitsBefore(head);
    CodeAt(Symbols(f.c, d), i, j);
    LaterFieldStands(FieldBits(head), codes, 4 * i + j, rest);
  }

  lemma {:induction false} BitsBefore(fs: seq<Field>)
    ensures |FieldBits(fs)| == Offset(fs, |fs|)
  {
    if fs != [] { BitsBefore(fs[1..]); }
  }

  lemma NumberStands(b: seq<Byte>, f: Field, at: nat)
    requires |b| >= 1 && StandsAt(Unpack(b[1..]), f, at) && f.value < Pow2(f.width)
    ensures at + f.width <= 8 * (|b| - 1) && NumberAt(b, at, f.width) == f.value
  {
    ValueOfBits(f.value, f.width);
    SmallMod(f.value, Pow2(f.width));
  }

  // ------------------------------------------------------------------------ the figures

  /** The number of so many bits at a place. */
  ghost predicate Is(b: seq<Byte>, at: nat, width: nat, v: int) {
    |b| >= 1 && at + width <= 8 * (|b| - 1) && NumberAt(b, at, width) == v
  }

  lemma HeaderNumber(b: seq<Byte>, f: Frame, d: Byte, rest: seq<Bit>, k: nat)
    requires InRange(f.w, f.h) && |b| >= 1 && Unpack(b[1..]) == FieldBits(SolidFields(f, d)) + rest && k < 7
    ensures var fs := HeaderFields(f.w, f.h, AlphaUsed(f.c)); Is(b, Offset(fs, k), fs[k].width, fs[k].value)
  {
    var fs := HeaderFields(f.w, f.h, AlphaUsed(f.c));
    HeaderFits(f.w, f.h, AlphaUsed(f.c));
    assert Fits(fs[k], HeaderSteps()[k]);
    HeaderFieldStands(b, f, d, rest, k);
    NumberStands(b, fs[k], Offset(fs, k));
  }

  lemma CodeNumber(b: seq<Byte>, f: Frame, d: Byte, rest: seq<Bit>, i: nat, j: nat)
    requires InRange(f.w, f.h) && |b| >= 1 && Unpack(b[1..]) == FieldBits(SolidFields(f, d)) + rest && i < 5 && j < 4
    ensures var g := CodeFields(Symbols(f.c, d)[i])[j]; Is(b, 35 + 11 * i + j, g.width, g.value)
  {
    var g := CodeFields(Symbols(f.c, d)[i])[j];
    CodeFits(Symbols(f.c, d)[i]);
    assert Fits(g, CodeSteps()[j]);
    CodeFieldStands(b, f, d, rest, i, j);
    NumberStands(b, g, 35 + 11 * i + j);
  }

  /** Signature, width and height less one in 14 bits each, whether alpha is used, and
      six zero bits: version, transform, colour cache, meta code. */
  ghost predicate HeaderFigures(b: seq<Byte>, f: Frame) {
    && |b| >= 1 && b[0] == 0x2F && Is(b, 0, 14, f.w - 1) && Is(b, 14, 14, f.h - 1)
    && Is(b, 28, 1, if f.c.a < 255 then 1 else 0)
    && Is(b, 29, 3, 0) && Is(b, 32, 1, 0) && Is(b, 33, 1, 0) && Is(b, 34, 1, 0)
  }

  /** A simple code of one 8-bit symbol. */
  ghost predicate CodeFigures(b: seq<Byte>, at: nat, symbol: int) {
    Is(b, at, 1, 1) && Is(b, at + 1, 1, 0) && Is(b, at + 2, 1, 1) && Is(b, at + 3, 8, symbol)
  }

  lemma HeaderIs(b: seq<Byte>, f: Frame, d: Byte, rest: seq<Bit>)
    requires InRange(f.w, f.h) && |b| >= 1 && Unpack(b[1..]) == FieldBits(SolidFields(f, d)) + rest && b[0] == Signature
    ensures HeaderFigures(b, f)
  {
    HeaderOffsets(f.w, f.h, AlphaUsed(f.c));
    HeaderNumber(b, f, d, rest, 0);
    HeaderNumber(b, f, d, rest, 1);
    HeaderNumber(b, f, d, rest, 2);
    HeaderNumber(b, f, d, rest, 3);
    HeaderNumber(b, f, d, rest, 4);
    HeaderNumber(b, f, d, rest, 5);
    HeaderNumber(b, f, d, rest, 6);
  }

  lemma CodeIs(b: seq<Byte>, f: Frame, d: Byte, rest: seq<Bit>, i: nat)
    requires InRange(f.w, f.h) && |b| >= 1 && Unpack(b[1..]) == FieldBits(SolidFields(f, d)) + rest && i < 5
    ensures CodeFigures(b, 35 + 11 * i, Symbols(f.c, d)[i])
  {
    CodeNumber(b, f, d, rest, i, 0);
    CodeNumber(b, f, d, rest, i, 1);
    CodeNumber(b, f, d, rest, i, 2);
    CodeNumber(b, f, d, rest, i, 3);
  }

  /** Whatever bytes the reader takes for a frame, its numbers are in these places:
      the header, then green, red, blue and alpha, 11 bits each. */
  lemma SolidFigures(b: seq<Byte>, f: Frame)
    requires ReadSolid(b) == Ok(f)
    ensures HeaderFigures(b, f)
    ensures CodeFigures(b, 35, f.c.g) && CodeFigures(b, 46, f.c.r) && CodeFigures(b, 57, f.c.b)
            && CodeFigures(b, 68, f.c.a)
  {
    ReadSolidIffHolds(b, f);
    var d: Byte, rest: seq<Bit> :| Unpack(b[1..]) == FieldBits(SolidFields(f, d)) + rest;
    HeaderIs(b, f, d, rest);
    CodeIs(b, f, d, rest, 0);
    CodeIs(b, f, d, rest, 1);
    CodeIs(b, f, d, rest, 2);
    CodeIs(b, f, d, rest, 3);
  }
}
