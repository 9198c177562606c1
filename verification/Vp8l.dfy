/** A solid-colour VP8L frame: the writer, the reader that does not trust it, and
    exactly which byte strings the reader accepts. */
module Vp8l {
  import opened Wrappers
  import opened Bytes
  import opened Bits

  datatype Colour = Colour(r: Byte, g: Byte, b: Byte, a: Byte)

  datatype Frame = Frame(w: int, h: int, c: Colour)

  datatype SolidError =
    | OutOfRange | NotVp8l | Version | Transforms | ColourCache | MetaHuffman
    | NotSimple | SeveralSymbols | NotEightBit | EndedEarly | AlphaMismatch

  const Signature: Byte := 0x2F
  const MaxSide := 0x4000

  predicate InRange(w: int, h: int) { 1 <= w <= MaxSide && 1 <= h <= MaxSide }

  function AlphaUsed(c: Colour): Bit { if c.a < 0xFF then 1 else 0 }

  function HeaderFields(w: int, h: int, alpha: Bit): seq<Field>
    requires InRange(w, h)
  {
    [Field(w - 1, 14), Field(h - 1, 14), Field(alpha, 1), Field(0, 3), Field(0, 1), Field(0, 1), Field(0, 1)]
  }

  /** A simple code with one 8-bit symbol, so that each pixel costs no bits. */
  function CodeFields(symbol: Byte): seq<Field> { [Field(1, 1), Field(0, 1), Field(1, 1), Field(symbol, 8)] }

  function CodesFields(symbols: seq<Byte>): seq<Field> {
    if symbols == [] then [] else CodeFields(symbols[0]) + CodesFields(symbols[1..])
  }

  function Symbols(c: Colour, distance: Byte): seq<Byte> { [c.g, c.r, c.b, c.a, distance] }

  function SolidFields(f: Frame, distance: Byte): seq<Field>
    requires InRange(f.w, f.h)
  {
    HeaderFields(f.w, f.h, AlphaUsed(f.c)) + CodesFields(Symbols(f.c, distance))
  }

  // ------------------------------------------------------------ checked field reads

  /** A field the reader keeps, or one whose value it insists on. */
  datatype Step = Keep(width: nat) | Expect(width: nat, want: nat, otherwise: SolidError)

  datatype Parsed = Parsed(values: seq<nat>, rest: Cursor)

  function Prepend(v: nat, r: Result<Parsed, SolidError>): Result<Parsed, SolidError> {
    match r case Err(e) => Err(e) case Ok(p) => Ok(Parsed([v] + p.values, p.rest))
  }

  function Parse(c: Cursor, steps: seq<Step>): Result<Parsed, SolidError>
    decreases |steps|, |c.rest|
  {
    if steps == [] then Ok(Parsed([], c))
    else
      var v := ReadValue(c, steps[0].width);
      if steps[0].Expect? && v != steps[0].want then Err(steps[0].otherwise)
      else Prepend(v, Parse(ReadRest(c, steps[0].width), steps[1..]))
  }

  predicate Fits(f: Field, s: Step) {
    f.width == s.width <= 32 && f.value < Pow2(f.width) && (s.Expect? ==> f.value == s.want)
  }

  predicate AllFit(fs: seq<Field>, steps: seq<Step>) {
    |fs| == |steps| && forall i :: 0 <= i < |fs| ==> Fits(fs[i], steps[i])
  }

  function Values(fs: seq<Field>): seq<nat> { seq(|fs|, i requires 0 <= i < |fs| => fs[i].value) }

  /** c stood before fields fs, and p is what came of reading them. */
  predicate Consumed(c: Cursor, fs: seq<Field>, p: Parsed) {
    !c.ended && p.values == Values(fs) && c.rest == FieldBits(fs) + p.rest.rest
  }

  lemma HeadReads(f: Field, s: Step, rest: seq<Bit>)
    requires Fits(f, s)
    ensures ReadValue(Cursor(BitsOf(f.value, f.width) + rest, false), f.width) == f.value
    ensures ReadRest(Cursor(BitsOf(f.value, f.width) + rest, false), f.width) == Cursor(rest, false)
  {
    PowersOf2();
    Pow2Grows(f.width, 32);
    FieldReads(f.value, f.width, rest);
    SmallMod(f.value, Pow2(f.width));
  }

  /** Fields that fit the steps parse to their values. */
  lemma {:induction false} ParseReads(fs: seq<Field>, steps: seq<Step>, rest: seq<Bit>)
    requires AllFit(fs, steps)
    ensures Parse(Cursor(FieldBits(fs) + rest, false), steps) == Ok(Parsed(Values(fs), Cursor(rest, false)))
  {
    if fs == [] {
      assert FieldBits(fs) + rest == rest;
    } else {
      var tail := FieldBits(fs[1..]) + rest;
      assert FieldBits(fs) + rest == BitsOf(fs[0].value, fs[0].width) + tail;
      HeadReads(fs[0], steps[0], tail);
      ParseReads(fs[1..], steps[1..], rest);
      assert Values(fs) == [fs[0].value] + Values(fs[1..]);
    }
  }

  lemma {:induction false} ParseLength(c: Cursor, steps: seq<Step>)
    requires Parse(c, steps).Ok?
    ensures |Parse(c, steps).value.values| == |steps|
    decreases |steps|, |c.rest|
  {
    if steps != [] { ParseLength(ReadRest(c, steps[0].width), steps[1..]); }
  }

  lemma ConsumedMore(c: Cursor, f: Field, fs: seq<Field>, q: Parsed)
    requires !ReadRest(c, f.width).ended && f.width <= 32 && f.value == ReadValue(c, f.width)
    requires Consumed(ReadRest(c, f.width), fs, q)
    ensures Consumed(c, [f] + fs, Parsed([f.value] + q.values, q.rest)) && f.value < Pow2(f.width)
  {
    ReadConsumes(c, f.width);
    assert ([f] + fs)[1..] == fs;
    var head := BitsOf(f.value, f.width);
    assert head + (FieldBits(fs) + q.rest.rest) == head + FieldBits(fs) + q.rest.rest;
  }

  /** A parse that did not run off the end consumed exactly fields that fit. */
  lemma {:induction false} ParseWas(c: Cursor, steps: seq<Step>) returns (fs: seq<Field>)
    requires forall i :: 0 <= i < |steps| ==> steps[i].width <= 32
    requires Parse(c, steps).Ok? && !Parse(c, steps).value.rest.ended
    ensures AllFit(fs, steps) && Consumed(c, fs, Parse(c, steps).value)
    decreases |steps|, |c.rest|
  {
    if steps == [] {
      assert c.rest == [] + c.rest;
      fs := [];
    } else {
      var k := steps[0].width;
      var f := Field(ReadValue(c, k), k);
      var gs := ParseWas(ReadRest(c, k), steps[1..]);
      ConsumedMore(c, f, gs, Parse(ReadRest(c, k), steps[1..]).value);
      fs := [f] + gs;
      AllFitMore(f, gs, steps);
    }
  }

  lemma AllFitMore(f: Field, gs: seq<Field>, steps: seq<Step>)
    requires steps != [] && Fits(f, steps[0]) && AllFit(gs, steps[1..])
    ensures AllFit([f] + gs, steps)
  {
    forall i | 0 <= i < |steps| ensures Fits(([f] + gs)[i], steps[i]) {
      if i > 0 { assert Fits(gs[i - 1], steps[1..][i - 1]); }
    }
  }

  // ------------------------------------------------------------------- reading

  function HeaderSteps(): (s: seq<Step>)
    ensures |s| == 7
  {
    [Keep(14), Keep(14), Keep(1), Expect(3, 0, Version), Expect(1, 0, Transforms), Expect(1, 0, ColourCache),
     Expect(1, 0, MetaHuffman)]
  }

  function CodeSteps(): (s: seq<Step>)
    ensures |s| == 4
  {
    [Expect(1, 1, NotSimple), Expect(1, 0, SeveralSymbols), Expect(1, 1, NotEightBit), Keep(8)]
  }

  /** n codes in turn: their symbols, and what is left. */
  function ReadCodes(c: Cursor, n: nat): Result<Parsed, SolidError>
    decreases n, |c.rest|
  {
    if n == 0 then Ok(Parsed([], c))
    else
      match Parse(c, CodeSteps())
      case Err(e) => Err(e)
      case Ok(p) => ParseLength(c, CodeSteps()); Prepend(p.values[3], ReadCodes(p.rest, n - 1))
  }

  lemma {:induction false} ReadCodesLength(c: Cursor, n: nat)
    requires ReadCodes(c, n).Ok?
    ensures |ReadCodes(c, n).value.values| == n
    decreases n, |c.rest|
  {
    if n > 0 { ReadCodesLength(Parse(c, CodeSteps()).value.rest, n - 1); }
  }

  function Finish(w: nat, h: nat, alpha: nat, syms: seq<nat>, ended: bool): Result<Frame, SolidError>
    requires |syms| == 5
  {
    if ended then Err(EndedEarly)
    else
      var c := Colour(syms[1] % 256, syms[0] % 256, syms[2] % 256, syms[3] % 256);
      if (alpha == 1) != (c.a < 0xFF) then Err(AlphaMismatch) else Ok(Frame(w + 1, h + 1, c))
  }

  function ReadBits(c: Cursor): Result<Frame, SolidError> {
    match Parse(c, HeaderSteps())
    case Err(e) => Err(e)
    case Ok(p) =>
      ParseLength(c, HeaderSteps());
      match ReadCodes(p.rest, 5)
      case Err(e) => Err(e)
      case Ok(q) => 
        ReadCodesLength(p.rest, 5);
        Finish(p.values[0], p.values[1], p.values[2], q.values, q.rest.ended)
  }

  function ReadSolid(b: seq<Byte>): Result<Frame, SolidError> {
    if |b| < 6 || b[0] != Signature then Err(NotVp8l) else ReadBits(Cursor(Unpack(b[1..]), false))
  }

  // ------------------------------------------------------ fits, and nothing else fits

  lemma CodeFits(symbol: Byte)
    ensures AllFit(CodeFields(symbol), CodeSteps())
  {
    PowersOf2();
    assert Pow2(1) == 2;
  }

  lemma OnlyCodesFit(fs: seq<Field>)
    requires AllFit(fs, CodeSteps())
    ensures fs[3].value < 256 && fs == CodeFields(fs[3].value)
  {
    PowersOf2();
    var s := CodeSteps();
    assert Fits(fs[0], s[0]) && Fits(fs[1], s[1]) && Fits(fs[2], s[2]) && Fits(fs[3], s[3]);
  }

  lemma Pow2Of14()
    ensures Pow2(14) == MaxSide
  {
    assert Pow2(7) == 128;
    assert Pow2(10) == 1024;
  }

  lemma HeaderFits(w: int, h: int, alpha: Bit)
    requires InRange(w, h)
    ensures AllFit(HeaderFields(w, h, alpha), HeaderSteps())
  {
    Pow2Of14();
    assert Pow2(1) == 2;
  }

  lemma OnlyHeadersFit(fs: seq<Field>)
    requires AllFit(fs, HeaderSteps())
    ensures fs[2].value < 2 && InRange(fs[0].value + 1, fs[1].value + 1)
    ensures fs == HeaderFields(fs[0].value + 1, fs[1].value + 1, fs[2].value)
  {
    Pow2Of14();
    var s := HeaderSteps();
    assert Fits(fs[0], s[0]) && Fits(fs[1], s[1]) && Fits(fs[2], s[2]) && Fits(fs[3], s[3]);
    assert Fits(fs[4], s[4]) && Fits(fs[5], s[5]) && Fits(fs[6], s[6]);
    assert Pow2(1) == 2;
  }

  lemma {:induction false} CodesRead(symbols: seq<Byte>, rest: seq<Bit>)
    ensures ReadCodes(Cursor(FieldBits(CodesFields(symbols)) + rest, false), |symbols|)
            == Ok(Parsed(symbols, Cursor(rest, false)))
  {
    if symbols == [] {
      assert FieldBits([]) + rest == rest;
    } else {
      assert symbols == [symbols[0]] + symbols[1..];
      CodesMore(symbols[0], symbols[1..], rest);
      CodeFits(symbols[0]);
      ParseReads(CodeFields(symbols[0]), CodeSteps(), FieldBits(CodesFields(symbols[1..])) + rest);
      CodesRead(symbols[1..], rest);
    }
  }

  lemma CodeWas(c: Cursor) returns (symbol: Byte)
    requires Parse(c, CodeSteps()).Ok? && !Parse(c, CodeSteps()).value.rest.ended
    ensures var p := Parse(c, CodeSteps()).value;
            !c.ended && |p.values| == 4 && p.values[3] == symbol
            && c.rest == FieldBits(CodeFields(symbol)) + p.rest.rest
  {
    var fs := ParseWas(c, CodeSteps());
    OnlyCodesFit(fs);
    symbol := fs[3].value;
  }

  lemma {:induction false} CodesWere(c: Cursor, n: nat) returns (symbols: seq<Byte>)
    requires ReadCodes(c, n).Ok? && !ReadCodes(c, n).value.rest.ended
    ensures var q := ReadCodes(c, n).value;
            !c.ended && |symbols| == n && q.values == symbols
            && c.rest == FieldBits(CodesFields(symbols)) + q.rest.rest
    decreases n, |c.rest|
  {
    if n == 0 {
      assert c.rest == [] + c.rest;
      symbols := [];
    } else {
      var rest := Parse(c, CodeSteps()).value.rest;
      var more := CodesWere(rest, n - 1);
      var s := CodeWas(c);
      symbols := [s] + more;
      CodesMore(s, more, ReadCodes(rest, n - 1).value.rest.rest);
    }
  }

  lemma CodesMore(s: Byte, more: seq<Byte>, rest: seq<Bit>)
    ensures FieldBits(CodesFields([s] + more)) + rest
            == FieldBits(CodeFields(s)) + (FieldBits(CodesFields(more)) + rest)
  {
    assert ([s] + more)[1..] == more;
    FieldBitsConcat(CodeFields(s), CodesFields(more));
  }

  // ------------------------------------------------------------------ the frame

  /** b holds frame f: the signature, the frame's bits with any distance symbol,
      and then anything. */
  ghost predicate Holds(b: seq<Byte>, f: Frame) {
    && |b| >= 1 && b[0] == Signature && InRange(f.w, f.h)
    && exists d: Byte, rest: seq<Bit> :: Unpack(b[1..]) == FieldBits(SolidFields(f, d)) + rest
  }

  lemma HeadAndCodesRead(head: seq<Field>, symbols: seq<Byte>, rest: seq<Bit>)
    requires AllFit(head, HeaderSteps()) && |symbols| == 5
    ensures ReadBits(Cursor(FieldBits(head) + (FieldBits(CodesFields(symbols)) + rest), false))
            == Finish(head[0].value, head[1].value, head[2].value, symbols, false)
  {
    ParseReads(head, HeaderSteps(), FieldBits(CodesFields(symbols)) + rest);
    CodesRead(symbols, rest);
  }

  lemma HeadAndCodesWere(c: Cursor) returns (head: seq<Field>, symbols: seq<Byte>, rest: seq<Bit>)
    requires ReadBits(c).Ok?
    ensures AllFit(head, HeaderSteps()) && |symbols| == 5
    ensures c.rest == FieldBits(head) + (FieldBits(CodesFields(symbols)) + rest)
    ensures ReadBits(c) == Finish(head[0].value, head[1].value, head[2].value, symbols, false)
  {
    var p := Parse(c, HeaderSteps()).value;
    ParseLength(c, HeaderSteps());
    ReadCodesLength(p.rest, 5);
    symbols := CodesWere(p.rest, 5);
    head := ParseWas(c, HeaderSteps());
    rest := ReadCodes(p.rest, 5).value.rest.rest;
  }

  lemma FrameNests(head: seq<Field>, codes: seq<Field>, rest: seq<Bit>)
    ensures FieldBits(head + codes) + rest == FieldBits(head) + (FieldBits(codes) + rest)
  {
    FieldBitsConcat(head, codes);
  }

  lemma BitsRead(f: Frame, d: Byte, rest: seq<Bit>)
    requires InRange(f.w, f.h)
    ensures ReadBits(Cursor(FieldBits(SolidFields(f, d)) + rest, false)) == Ok(f)
  {
    var head, symbols := HeaderFields(f.w, f.h, AlphaUsed(f.c)), Symbols(f.c, d);
    FrameNests(head, CodesFields(symbols), rest);
    HeaderFits(f.w, f.h, AlphaUsed(f.c));
    HeadAndCodesRead(head, symbols, rest);
    FinishFits(f, d);
  }

  lemma FinishFits(f: Frame, d: Byte)
    requires InRange(f.w, f.h)
    ensures Finish(f.w - 1, f.h - 1, AlphaUsed(f.c), Symbols(f.c, d), false) == Ok(f)
  {
  }

  lemma FinishInverts(head: seq<Field>, symbols: seq<Byte>, f: Frame)
    requires AllFit(head, HeaderSteps()) && |symbols| == 5
             && Finish(head[0].value, head[1].value, head[2].value, symbols, false) == Ok(f)
    ensures InRange(f.w, f.h) && head == HeaderFields(f.w, f.h, AlphaUsed(f.c))
    ensures symbols == Symbols(f.c, symbols[4])
  {
    OnlyHeadersFit(head);
  }

  lemma BitsWere(c: Cursor, f: Frame) returns (d: Byte, rest: seq<Bit>)
    requires ReadBits(c) == Ok(f)
    ensures InRange(f.w, f.h) && c.rest == FieldBits(SolidFields(f, d)) + rest
  {
    var head, symbols, tail := HeadAndCodesWere(c);
    FinishInverts(head, symbols, f);
    d, rest := symbols[4], tail;
    FrameNests(head, CodesFields(symbols), rest);
  }

  lemma CodeLength(symbol: Byte)
    ensures |FieldBits(CodeFields(symbol))| == 11
  {
    var fs := CodeFields(symbol);
    var t1, t2, t3 := fs[1..], fs[2..], fs[3..];
    assert t1[1..] == t2 && t2[1..] == t3 && t3[1..] == [];
    assert |FieldBits(t3)| == 8;
    assert |FieldBits(t2)| == 9;
  }

  lemma {:induction false} CodesLength(symbols: seq<Byte>)
    ensures |FieldBits(CodesFields(symbols))| == 11 * |symbols|
  {
    if symbols != [] {
      CodesLength(symbols[1..]);
      CodeLength(symbols[0]);
      FieldBitsConcat(CodeFields(symbols[0]), CodesFields(symbols[1..]));
    }
  }

  /** The reader returns a frame exactly for the byte strings that hold it. */
  lemma ReadSolidIffHolds(b: seq<Byte>, f: Frame)
    ensures ReadSolid(b) == Ok(f) <==> Holds(b, f)
  {
    if ReadSolid(b) == Ok(f) {
      var d, rest := BitsWere(Cursor(Unpack(b[1..]), false), f);
    }
    if Holds(b, f) {
      var d: Byte, rest: seq<Bit> :| Unpack(b[1..]) == FieldBits(SolidFields(f, d)) + rest;
      FieldBitsConcat(HeaderFields(f.w, f.h, AlphaUsed(f.c)), CodesFields(Symbols(f.c, d)));
      CodesLength(Symbols(f.c, d));
      BitsRead(f, d, rest);
    }
  }

  // -------------------------------------------------------------- the two methods

  method WriteHeader(bw: BitWriter, w: int, h: int, alpha: Bit)
    requires bw.Valid() && InRange(w, h)
    modifies bw
    ensures bw.Valid() && bw.fields == old(bw.fields) + HeaderFields(w, h, alpha)
  {
    bw.Write(w - 1, 14);
    bw.Write(h - 1, 14);
    bw.Write(alpha, 1);
    bw.Write(0, 3);
    bw.Write(0, 1);
    bw.Write(0, 1);
    bw.Write(0, 1);
  }

  method WriteCode(bw: BitWriter, symbol: Byte)
    requires bw.Valid()
    modifies bw
    ensures bw.Valid() && bw.fields == old(bw.fields) + CodeFields(symbol)
  {
    bw.Write(1, 1);
    bw.Write(0, 1);
    bw.Write(1, 1);
    bw.Write(symbol, 8);
  }

  lemma {:induction false} CodesSnoc(symbols: seq<Byte>, s: Byte)
    ensures CodesFields(symbols + [s]) == CodesFields(symbols) + CodeFields(s)
  {
    if symbols == [] {
      assert symbols + [s] == [s] && [s][1..] == [];
      assert CodeFields(s) + [] == CodeFields(s) == [] + CodeFields(s);
    } else {
      assert (symbols + [s])[1..] == symbols[1..] + [s];
      CodesSnoc(symbols[1..], s);
    }
  }

  method WriteCodes(bw: BitWriter, symbols: seq<Byte>)
    requires bw.Valid()
    modifies bw
    ensures bw.Valid() && bw.fields == old(bw.fields) + CodesFields(symbols)
  {
    assert bw.fields + [] == bw.fields;
    for i := 0 to |symbols|
      invariant bw.Valid() && bw.fields == old(bw.fields) + CodesFields(symbols[..i])
    {
      WriteCode(bw, symbols[i]);
      assert symbols[..i + 1] == symbols[..i] + [symbols[i]];
      CodesSnoc(symbols[..i], symbols[i]);
    }
    assert symbols[..|symbols|] == symbols;
  }

  /** vp8lSolid: refused exactly outside 1..16384, and otherwise the signature and
      the frame's own bits, so that the reader gives the frame back. */
  method WriteSolid(w: int, h: int, c: Colour) returns (r: Result<seq<Byte>, SolidError>)
    ensures !InRange(w, h) ==> r == Err(OutOfRange)
    ensures InRange(w, h) ==> (
              && r.Ok? && |r.value| >= 1 && r.value[0] == Signature
              && FieldBits(SolidFields(Frame(w, h, c), 0)) <= Unpack(r.value[1..])
              && 8 * (|r.value| - 1) < |FieldBits(SolidFields(Frame(w, h, c), 0))| + 8
              && ReadSolid(r.value) == Ok(Frame(w, h, c)))
  {
    if w < 1 || h < 1 || w > MaxSide || h > MaxSide { return Err(OutOfRange); }
    var bw := new BitWriter();
    WriteHeader(bw, w, h, AlphaUsed(c));
    WriteCodes(bw, Symbols(c, 0));
    assert bw.fields == SolidFields(Frame(w, h, c), 0);
    var bytes := bw.Flush();
    var out := [Signature] + bytes;
    WrittenReads(out, bytes, Frame(w, h, c));
    r := Ok(out);
  }

  lemma WrittenReads(out: seq<Byte>, bytes: seq<Byte>, f: Frame)
    requires InRange(f.w, f.h) && out == [Signature] + bytes
    requires FieldBits(SolidFields(f, 0)) <= Unpack(bytes)
    ensures out[1..] == bytes && ReadSolid(out) == Ok(f)
  {
    assert out[1..] == bytes;
    var bits := FieldBits(SolidFields(f, 0));
    assert Unpack(bytes) == bits + Unpack(bytes)[|bits|..];
    ReadSolidIffHolds(out, f);
  }

  // One read at a time, the parse of what is left accounts for the whole parse.

  lemma Advance(c: Cursor, step: Step, steps: seq<Step>)
    ensures Parse(c, [step] + steps)
            == if step.Expect? && ReadValue(c, step.width) != step.want then Err(step.otherwise)
               else Prepend(ReadValue(c, step.width), Parse(ReadRest(c, step.width), steps))
  {
    assert ([step] + steps)[1..] == steps;
  }

  method ReadCode(reader: BitReader) returns (r: Result<nat, SolidError>)
    requires reader.Valid()
    modifies reader
    ensures reader.Valid()
    ensures match Parse(old(reader.at), CodeSteps())
            case Err(e) => r == Err(e)
            case Ok(p) => |p.values| == 4 && r == Ok(p.values[3]) && reader.at == p.rest
  {
    ghost var s3: seq<Step> := [Keep(8)];
    ghost var s2: seq<Step> := [Expect(1, 1, NotEightBit)] + s3;
    ghost var s1: seq<Step> := [Expect(1, 0, SeveralSymbols)] + s2;
    assert CodeSteps() == [Expect(1, 1, NotSimple)] + s1;
    Advance(reader.at, Expect(1, 1, NotSimple), s1);
    var v := reader.Read(1);
    if v != 1 { return Err(NotSimple); }
    Advance(reader.at, Expect(1, 0, SeveralSymbols), s2);
    v := reader.Read(1);
    if v != 0 { return Err(SeveralSymbols); }
    Advance(reader.at, Expect(1, 1, NotEightBit), s3);
    v := reader.Read(1);
    if v != 1 { return Err(NotEightBit); }
    Advance(reader.at, Keep(8), []);
    assert [Keep(8)] + [] == s3;
    v := reader.Read(8);
    r := Ok(v);
  }

  function Join(done: seq<nat>, r: Result<Parsed, SolidError>): Result<Parsed, SolidError> {
    match r case Err(e) => Err(e) case Ok(p) => Ok(Parsed(done + p.values, p.rest))
  }

  lemma JoinMore(done: seq<nat>, v: nat, r: Result<Parsed, SolidError>)
    ensures Join(done, Prepend(v, r)) == Join(done + [v], r)
  {
    if r.Ok? { assert done + ([v] + r.value.values) == done + [v] + r.value.values; }
  }

  lemma JoinNothing(r: Result<Parsed, SolidError>)
    ensures Join([], r) == r
  {
    if r.Ok? { assert [] + r.value.values == r.value.values; }
  }

  lemma {:induction false} ParseSplit(c: Cursor, a: seq<Step>, b: seq<Step>)
    ensures Parse(c, a + b) == match Parse(c, a) case Err(e) => Err(e) case Ok(p) => Join(p.values, Parse(p.rest, b))
    decreases |a|
  {
    if a == [] {
      assert a + b == b;
      JoinNothing(Parse(c, b));
    } else {
      var d := ReadRest(c, a[0].width);
      assert (a + b)[1..] == a[1..] + b;
      ParseSplit(d, a[1..], b);
      if Parse(d, a[1..]).Ok? {
        var p := Parse(d, a[1..]).value;
        PrependJoin(ReadValue(c, a[0].width), p.values, Parse(p.rest, b));
      }
    }
  }

  lemma PrependJoin(v: nat, done: seq<nat>, r: Result<Parsed, SolidError>)
    ensures Prepend(v, Join(done, r)) == Join([v] + done, r)
  {
    if r.Ok? { assert [v] + (done + r.value.values) == [v] + done + r.value.values; }
  }

  function SideSteps(): seq<Step> { [Keep(14), Keep(14), Keep(1)] }

  function FeatureSteps(): seq<Step> {
    [Expect(3, 0, Version), Expect(1, 0, Transforms), Expect(1, 0, ColourCache), Expect(1, 0, MetaHuffman)]
  }

  method ReadSides(reader: BitReader) returns (w: nat, h: nat, alpha: nat)
    requires reader.Valid()
    modifies reader
    ensures reader.Valid() && Parse(old(reader.at), SideSteps()) == Ok(Parsed([w, h, alpha], reader.at))
  {
    ghost var s2: seq<Step> := [Keep(1)];
    ghost var s1: seq<Step> := [Keep(14)] + s2;
    assert SideSteps() == [Keep(14)] + s1 && [Keep(1)] + [] == s2;
    Advance(reader.at, Keep(14), s1);
    w := reader.Read(14);
    Advance(reader.at, Keep(14), s2);
    h := reader.Read(14);
    Advance(reader.at, Keep(1), []);
    alpha := reader.Read(1);
    assert [w] + ([h] + ([alpha] + [])) == [w, h, alpha];
  }

  method ReadFeatures(reader: BitReader) returns (err: Option<SolidError>)
    requires reader.Valid()
    modifies reader
    ensures reader.Valid()
    ensures match Parse(old(reader.at), FeatureSteps())
            case Err(e) => err == Some(e)
            case Ok(p) => err == None && |p.values| == 4 && reader.at == p.rest
  {
    ghost var s3: seq<Step> := [Expect(1, 0, MetaHuffman)];
    ghost var s2: seq<Step> := [Expect(1, 0, ColourCache)] + s3;
    ghost var s1: seq<Step> := [Expect(1, 0, Transforms)] + s2;
    assert FeatureSteps() == [Expect(3, 0, Version)] + s1;
    Advance(reader.at, Expect(3, 0, Version), s1);
    var v := reader.Read(3);
    if v != 0 { return Some(Version); }
    Advance(reader.at, Expect(1, 0, Transforms), s2);
    v := reader.Read(1);
    if v != 0 { return Some(Transforms); }
    Advance(reader.at, Expect(1, 0, ColourCache), s3);
    v := reader.Read(1);
    if v != 0 { return Some(ColourCache); }
    Advance(reader.at, Expect(1, 0, MetaHuffman), []);
    assert [Expect(1, 0, MetaHuffman)] + [] == s3;
    v := reader.Read(1);
    if v != 0 { return Some(MetaHuffman); }
    err := None;
  }

  method ReadHeader(reader: BitReader) returns (r: Result<(nat, nat, nat), SolidError>)
    requires reader.Valid()
    modifies reader
    ensures reader.Valid()
    ensures match Parse(old(reader.at), HeaderSteps())
            case Err(e) => r == Err(e)
            case Ok(p) => |p.values| == 7 && r == Ok((p.values[0], p.values[1], p.values[2])) && reader.at == p.rest
  {
    assert HeaderSteps() == SideSteps() + FeatureSteps();
    ParseSplit(reader.at, SideSteps(), FeatureSteps());
    var w, h, alpha := ReadSides(reader);
    var err := ReadFeatures(reader);
    if err.Some? { return Err(err.value); }
    r := Ok((w, h, alpha));
  }

  method ReadSymbols(reader: BitReader, n: nat) returns (r: Result<seq<nat>, SolidError>)
    requires reader.Valid()
    modifies reader
    ensures reader.Valid()
    ensures match ReadCodes(old(reader.at), n)
            case Err(e) => r == Err(e)
            case Ok(q) => r == Ok(q.values) && reader.at == q.rest && |q.values| == n
  {
    var syms: seq<nat> := [];
    ghost var start := reader.at;
    JoinNothing(ReadCodes(start, n));
    for i := 0 to n
      invariant reader.Valid() && |syms| == i
      invariant ReadCodes(start, n) == Join(syms, ReadCodes(reader.at, n - i))
    {
      var v := ReadCode(reader);
      if v.Err? { return Err(v.error); }
      JoinMore(syms, v.value, ReadCodes(reader.at, n - (i + 1)));
      syms := syms + [v.value];
    }
    assert syms + [] == syms;
    r := Ok(syms);
  }

  /** vp8lReadSolid. */
  method ReadSolidFrame(b: seq<Byte>) returns (r: Result<Frame, SolidError>)
    ensures r == ReadSolid(b)
  {
    if |b| < 6 || b[0] != Signature { return Err(NotVp8l); }
    var reader := new BitReader(b[1..]);
    r := ReadFrame(reader);
  }

  method ReadFrame(reader: BitReader) returns (r: Result<Frame, SolidError>)
    requires reader.Valid()
    modifies reader
    ensures r == ReadBits(old(reader.at))
  {
    var head := ReadHeader(reader);
    if head.Err? { return Err(head.error); }
    var syms := ReadSymbols(reader, 5);
    if syms.Err? { return Err(syms.error); }
    r := CheckAlpha(head.value.0, head.value.1, head.value.2, syms.value, reader.err);
  }

  method CheckAlpha(w: nat, h: nat, alpha: nat, s: seq<nat>, ended: bool) returns (r: Result<Frame, SolidError>)
    requires |s| == 5
    ensures r == Finish(w, h, alpha, s, ended)
  {
    if ended { return Err(EndedEarly); }
    var c := Colour(s[1] % 256, s[0] % 256, s[2] % 256, s[3] % 256);
    if (alpha == 1) != (c.a < 0xFF) { return Err(AlphaMismatch); }
    r := Ok(Frame(w + 1, h + 1, c));
  }
}
