/** The animated WebP fixture as a whole: solid frames inside ANMF chunks inside RIFF,
    and the verifier that takes the file apart again. */
module AnimatedWebp {
  import opened Wrappers
  import opened Bytes
  import opened Riff
  import opened Vp8l

  const Side := 32

  /** What one frame of the file is made of. */
  datatype Part = Part(data: seq<Byte>, duration: nat)

  function Put24(v: nat): (b: seq<Byte>)
    ensures |b| == 3
  {
    [v % 256, v / 256 % 256, v / 65536 % 256]
  }

  function Get24(b: seq<Byte>): int
    requires |b| == 3
  {
    (b[0] as int) + 256 * (b[1] as int) + 65536 * (b[2] as int)
  }

  /** The VP8X flags ANIMATION (0x02) and ALPHA (0x10). */
  function Vp8x(): Chunk { Chunk("VP8X", [0x12, 0, 0, 0] + Put24(Side - 1) + Put24(Side - 1)) }

  function Anim(): Chunk { Chunk("ANIM", [0, 0, 0, 0] + [0, 0]) }

  function FrameHead(duration: nat): (b: seq<Byte>)
    ensures |b| == 16
  {
    Put24(0) + Put24(0) + Put24(Side - 1) + Put24(Side - 1) + Put24(duration) + [0]
  }

  function Anmf(p: Part): Chunk { Chunk("ANMF", FrameHead(p.duration) + ChunkBytes(Chunk("VP8L", p.data))) }

  function Anmfs(parts: seq<Part>): (cs: seq<Chunk>)
    ensures |cs| == |parts|
  {
    if parts == [] then [] else [Anmf(parts[0])] + Anmfs(parts[1..])
  }

  function Chunks(parts: seq<Part>): seq<Chunk> { [Vp8x(), Anim()] + Anmfs(parts) }

  // ------------------------------------------------------------------ the verifier

  /** Panics is no error value of the source: an index or a slice beyond what there is
      ends the program. */
  datatype Fault =
    | Container(riff: RiffError) | TooFewChunks | NotVp8x | NotAnimated | NoAlpha | NotAnim | Loops
    | NotAnmf | ShortAnmf | ZeroDuration | NoVp8l | SubChunkPastEnd | BadFrame(vp8l: SolidError) | WrongSize
    | WrongColour | WrongCount | Panics

  function FrameFault(c: Chunk, want: seq<Colour>): Option<Fault> {
    if c.fourCC != "ANMF" then Some(NotAnmf)
    else if |c.payload| < 24 then Some(ShortAnmf)
    else if Get24(c.payload[12..15]) == 0 then Some(ZeroDuration)
    else SubChunkFault(c.payload[16..], want)
  }

  function SubChunkFault(sub: seq<Byte>, want: seq<Colour>): Option<Fault>
    requires |sub| >= 8
  {
    if Text(sub[..4]) != "VP8L" then Some(NoVp8l)
    else
      var n := LeU32(sub[4..8]);
      if 8 + n > |sub| then Some(SubChunkPastEnd) else ColourFault(sub[8..8 + n], want)
  }

  function ColourFault(data: seq<Byte>, want: seq<Colour>): Option<Fault> {
    match ReadSolid(data)
    case Err(e) => Some(BadFrame(e))
    case Ok(f) =>
      if f.w != Side || f.h != Side then Some(WrongSize)
      else if want == [] then Some(Panics)
      else if f.c != want[0] then Some(WrongColour)
      else None
  }

  /** The loop over the chunks after ANIM; want is what is still to come. */
  function FramesFault(cs: seq<Chunk>, want: seq<Colour>): Option<Fault>
    decreases |cs|
  {
    if cs == [] then (if want == [] then None else Some(WrongCount))
    else
      var fault := FrameFault(cs[0], want);
      if fault.Some? then fault else FramesFault(cs[1..], if want == [] then [] else want[1..])
  }

  /** What can be read from the start of the second chunk's payload, which is a slice of
      b: it, the rest of b, and the spare capacity of the buffer that holds it. */
  function FromAnim(b: seq<Byte>, cs: seq<Chunk>, spare: seq<Byte>): seq<Byte>
    requires |cs| >= 2
  {
    var at := 12 + 8 + |cs[0].payload| + |cs[0].payload| % 2 + 8;
    if at <= |b| then b[at..] + spare else spare
  }

  function HeadFault(b: seq<Byte>, cs: seq<Chunk>, spare: seq<Byte>): Option<Fault> {
    if |cs| < 3 then Some(TooFewChunks)
    else if cs[0].fourCC != "VP8X" then Some(NotVp8x)
    else if cs[0].payload == [] then Some(Panics)
    else if cs[0].payload[0] / 2 % 2 == 0 then Some(NotAnimated)
    else if cs[0].payload[0] / 16 % 2 == 0 then Some(NoAlpha)
    else if cs[1].fourCC != "ANIM" then Some(NotAnim)
    else
      var anim := FromAnim(b, cs, spare);
      if |anim| < 6 then Some(Panics) else if anim[4] != 0 || anim[5] != 0 then Some(Loops) else None
  }

  /** verifyAnimatedWebP: None is success. */
  function Verify(b: seq<Byte>, spare: seq<Byte>, want: seq<Colour>): Option<Fault> {
    match Scan(b)
    case Err(e) => Some(Container(e))
    case Ok(cs) => if HeadFault(b, cs, spare).Some? then HeadFault(b, cs, spare) else FramesFault(cs[2..], want)
  }

  method VerifyFrames(cs: seq<Chunk>, want: seq<Colour>) returns (r: Option<Fault>)
    ensures r == FramesFault(cs, want)
  {
    var frames := 0;
    assert cs[0..] == cs && want[0..] == want;
    for i := 0 to |cs|
      invariant frames == i <= |want|
      invariant FramesFault(cs, want) == FramesFault(cs[i..], want[i..])
    {
      var fault := FrameFault(cs[i], want[frames..]);
      if fault.Some? { return fault; }
      assert cs[i..][1..] == cs[i + 1..] && (frames < |want| ==> want[i..][1..] == want[i + 1..]);
      frames := frames + 1;
    }
    r := if frames != |want| then Some(WrongCount) else None;
  }

  method VerifyAnimatedWebp(b: seq<Byte>, spare: seq<Byte>, want: seq<Colour>) returns (r: Option<Fault>)
    ensures r == Verify(b, spare, want)
  {
    var cs := ScanRiff(b);
    if cs.Err? { return Some(Container(cs.error)); }
    var fault := HeadFault(b, cs.value, spare);
    if fault.Some? { return fault; }
    r := VerifyFrames(cs.value[2..], want);
  }

  // ------------------------------------------------------- the verifier on the writer

  lemma Put24Reads(v: nat)
    ensures Get24(Put24(v)) == v % 16_777_216
  {
    var a, b, c := v % 256, v / 256 % 256, v / 65536 % 256;
    assert v / 65536 == v / 256 / 256 && v / 16_777_216 == v / 65536 / 256;
    assert v == 256 * (v / 256) + a && v / 256 == 256 * (v / 65536) + b && v / 65536 == 256 * (v / 16_777_216) + c;
  }

  /** What the verifier makes of one written frame: its duration in 24 bits, its size
      and its colour. */
  function PartFault(p: Part, want: seq<Colour>): Option<Fault> {
    if p.duration % 16_777_216 == 0 then Some(ZeroDuration) else ColourFault(p.data, want)
  }

  lemma FourParts(cc: seq<Byte>, size: seq<Byte>, data: seq<Byte>, pad: seq<Byte>)
    requires |cc| == |size| == 4
    ensures var sub := cc + size + data + pad;
            sub[..4] == cc && sub[4..8] == size && sub[8..8 + |data|] == data
  {
  }

  lemma SubReads(cc: seq<Byte>, size: seq<Byte>, data: seq<Byte>, pad: seq<Byte>, want: seq<Colour>)
    requires |cc| == |size| == 4 && Text(cc) == "VP8L" && LeU32(size) == |data|
    ensures SubChunkFault(cc + size + data + pad, want) == ColourFault(data, want)
  {
    FourParts(cc, size, data, pad);
  }

  lemma SubChunkReads(data: seq<Byte>, want: seq<Colour>)
    requires |data| < U32Limit
    ensures |ChunkBytes(Chunk("VP8L", data))| >= 8
    ensures SubChunkFault(ChunkBytes(Chunk("VP8L", data)), want) == ColourFault(data, want)
  {
    TextOfChars("VP8L");
    Le32Reads(|data|);
    SubReads(Chars("VP8L"), Le32(|data|), data, Pad(|data|), want);
  }

  lemma HeadAndSub(head: seq<Byte>, sub: seq<Byte>)
    requires |head| == 16
    ensures (head + sub)[16..] == sub && (head + sub)[12..15] == head[12..15]
  {
  }

  lemma PartReads(p: Part, want: seq<Colour>)
    requires |p.data| < U32Limit
    ensures FrameFault(Anmf(p), want) == PartFault(p, want)
  {
    var head, sub := FrameHead(p.duration), ChunkBytes(Chunk("VP8L", p.data));
    SubChunkReads(p.data, want);
    HeadAndSub(head, sub);
    assert head[12..15] == Put24(p.duration);
    Put24Reads(p.duration);
  }

  function PartsFault(parts: seq<Part>, want: seq<Colour>): Option<Fault>
    decreases |parts|
  {
    if parts == [] then (if want == [] then None else Some(WrongCount))
    else
      var fault := PartFault(parts[0], want);
      if fault.Some? then fault else PartsFault(parts[1..], if want == [] then [] else want[1..])
  }

  predicate Short(parts: seq<Part>) { forall i :: 0 <= i < |parts| ==> |parts[i].data| < U32Limit }

  lemma {:induction false} PartsRead(parts: seq<Part>, want: seq<Colour>)
    requires Short(parts)
    ensures FramesFault(Anmfs(parts), want) == PartsFault(parts, want)
    decreases |parts|
  {
    if parts != [] {
      PartReads(parts[0], want);
      assert Anmfs(parts)[1..] == Anmfs(parts[1..]);
      PartsRead(parts[1..], if want == [] then [] else want[1..]);
    }
  }

  lemma {:induction false} BodyHolds(cs: seq<Chunk>, i: nat)
    requires i < |cs|
    ensures |cs[i].payload| <= |Body(cs)|
    decreases i
  {
    if i > 0 { BodyHolds(cs[1..], i - 1); }
  }

  lemma {:induction false} AnmfAt(parts: seq<Part>, i: nat)
    requires i < |parts|
    ensures Anmfs(parts)[i] == Anmf(parts[i])
  {
    if i > 0 { AnmfAt(parts[1..], i - 1); }
  }

  lemma PartsAreShort(parts: seq<Part>)
    requires |Body(Chunks(parts))| < U32Limit
    ensures Short(parts)
  {
    forall i | 0 <= i < |parts| ensures |parts[i].data| < U32Limit {
      AnmfAt(parts, i);
      assert Chunks(parts)[i + 2] == Anmf(parts[i]);
      BodyHolds(Chunks(parts), i + 2);
    }
  }

  lemma HeadBytes(parts: seq<Part>)
    ensures Body(Chunks(parts)) == ChunkBytes(Vp8x()) + (ChunkBytes(Anim()) + Body(Anmfs(parts)))
    ensures |ChunkBytes(Vp8x())| == 18 && |ChunkBytes(Anim())| == 14
    ensures ChunkBytes(Anim())[12] == 0 && ChunkBytes(Anim())[13] == 0
  {
    var cs := Chunks(parts);
    assert cs[1..][1..] == Anmfs(parts) && cs[0] == Vp8x() && cs[1..][0] == Anim();
  }

  lemma ThirdOf(a: seq<Byte>, b: seq<Byte>, c: seq<Byte>, d: seq<Byte>, i: nat)
    requires i < |c|
    ensures (a + (b + (c + d)))[|a| + |b| + i] == c[i]
  {
  }

  lemma AnimStands(parts: seq<Part>, spare: seq<Byte>)
    ensures var anim := FromAnim(File(Chunks(parts)), Chunks(parts), spare);
            |anim| >= 6 && anim[4] == 0 && anim[5] == 0
  {
    var head := Chars("RIFF") + Le32(4 + |Body(Chunks(parts))|) + Chars("WEBP");
    HeadBytes(parts);
    ThirdOf(head, ChunkBytes(Vp8x()), ChunkBytes(Anim()), Body(Anmfs(parts)), 12);
    ThirdOf(head, ChunkBytes(Vp8x()), ChunkBytes(Anim()), Body(Anmfs(parts)), 13);
  }

  lemma HeadPasses(parts: seq<Part>, spare: seq<Byte>)
    requires parts != []
    ensures HeadFault(File(Chunks(parts)), Chunks(parts), spare) == None
  {
    var cs := Chunks(parts);
    assert cs[0] == Vp8x() && cs[1] == Anim() && Vp8x().payload[0] == 0x12;
    AnimStands(parts, spare);
  }

  /** The whole verifier on the whole writer, for every list of frames, whatever bytes
      they hold: refused for its size field when that cannot hold the length, and for
      having no frame; otherwise exactly for the first frame whose duration is a
      multiple of 2^24, that does not decode to 32 by 32, or that is not of the colour
      wanted there, or for ending before the colours wanted do. One frame too many is
      an index out of range. */
  lemma VerifiedIs(parts: seq<Part>, spare: seq<Byte>, want: seq<Colour>)
    ensures Verify(File(Chunks(parts)), spare, want)
            == if 4 + |Body(Chunks(parts))| >= U32Limit then Some(Container(SizeField))
               else if parts == [] then Some(TooFewChunks)
               else PartsFault(parts, want)
  {
    ScanRecoversIff(Chunks(parts));
    if 4 + |Body(Chunks(parts))| < U32Limit && parts != [] {
      HeadPasses(parts, spare);
      PartsAreShort(parts);
      assert Chunks(parts)[2..] == Anmfs(parts);
      PartsRead(parts, want);
    }
  }

  // ------------------------------------------------------------------- the fixture

  datatype AnimFrame = AnimFrame(c: Colour, duration: nat)

  /** Part k decodes to frame k. */
  ghost predicate Encodes(parts: seq<Part>, frames: seq<AnimFrame>) {
    && |parts| == |frames|
    && forall k :: 0 <= k < |frames| ==>
         && parts[k].duration == frames[k].duration && |parts[k].data| <= 13
         && ReadSolid(parts[k].data) == Ok(Frame(Side, Side, frames[k].c))
  }

  predicate Wanted(frames: seq<AnimFrame>, want: seq<Colour>) {
    && |frames| == |want|
    && forall k :: 0 <= k < |frames| ==> frames[k].c == want[k] && frames[k].duration % 16_777_216 != 0
  }

  lemma {:induction false} WantedIff(parts: seq<Part>, frames: seq<AnimFrame>, want: seq<Colour>)
    requires Encodes(parts, frames)
    ensures PartsFault(parts, want) == None <==> Wanted(frames, want)
    decreases |parts|
  {
    if parts != [] && want != [] {
      WantedIff(parts[1..], frames[1..], want[1..]);
      assert Wanted(frames, want) <==> (&& frames[0].c == want[0] && frames[0].duration % 16_777_216 != 0
                                        && Wanted(frames[1..], want[1..])) by { WantedTail(frames, want); }
    }
  }

  lemma WantedTail(frames: seq<AnimFrame>, want: seq<Colour>)
    requires frames != [] && want != []
    ensures Wanted(frames, want) <==> (&& frames[0].c == want[0] && frames[0].duration % 16_777_216 != 0
                                       && Wanted(frames[1..], want[1..]))
  {
    if Wanted(frames[1..], want[1..]) {
      forall k | 1 <= k < |frames| ensures frames[k].c == want[k] && frames[k].duration % 16_777_216 != 0 {
        assert frames[1..][k - 1] == frames[k] && want[1..][k - 1] == want[k];
      }
    }
  }

  lemma {:induction false} BodyLength(parts: seq<Part>)
    requires forall k :: 0 <= k < |parts| ==> |parts[k].data| <= 13
    ensures |Body(Anmfs(parts))| <= 46 * |parts|
  {
    if parts != [] {
      BodyLength(parts[1..]);
      assert Anmfs(parts)[1..] == Anmfs(parts[1..]);
      assert |ChunkBytes(Anmf(parts[0]))| <= 46;
    }
  }

  lemma FileFits(parts: seq<Part>)
    requires |parts| <= 93_000_000 && forall k :: 0 <= k < |parts| ==> |parts[k].data| <= 13
    ensures 4 + |Body(Chunks(parts))| < U32Limit
  {
    var cs := Chunks(parts);
    assert cs[1..][1..] == Anmfs(parts) && cs[0] == Vp8x() && cs[1..][0] == Anim();
    assert |ChunkBytes(Vp8x())| == 18 && |ChunkBytes(Anim())| == 14;
    BodyLength(parts);
  }

  lemma BuiltVerifiesIff(parts: seq<Part>, frames: seq<AnimFrame>, spare: seq<Byte>, want: seq<Colour>)
    requires Encodes(parts, frames) && 1 <= |frames| <= 93_000_000
    ensures Verify(File(Chunks(parts)), spare, want) == None <==> Wanted(frames, want)
  {
    FileFits(parts);
    VerifiedIs(parts, spare, want);
    WantedIff(parts, frames, want);
  }

  /** One turn of the writer's loop: the payload of an ANMF chunk. */
  method EncodeFrame(f: AnimFrame) returns (anmf: seq<Byte>, ghost p: Part)
    ensures anmf == Anmf(p).payload && Encodes([p], [f])
  {
    var data := WriteSolid(Side, Side, f.c);
    SolidIsShort(data.value, Frame(Side, Side, f.c));
    p := Part(data.value, f.duration);
    anmf := Put24(0) + Put24(0) + Put24(Side - 1) + Put24(Side - 1) + Put24(f.duration) + [0]
            + ChunkBytes(Chunk("VP8L", data.value));
  }

  lemma EncodesMore(parts: seq<Part>, p: Part, frames: seq<AnimFrame>, i: nat)
    requires i < |frames| && Encodes(parts, frames[..i]) && Encodes([p], [frames[i]])
    ensures Encodes(parts + [p], frames[..i + 1])
  {
    assert [p][0] == p && [frames[i]][0] == frames[i];
    forall k | 0 <= k < i ensures parts[k].duration == frames[k].duration && |parts[k].data| <= 13
                                  && ReadSolid(parts[k].data) == Ok(Frame(Side, Side, frames[k].c))
    {
      assert frames[..i][k] == frames[k];
    }
  }

  ghost predicate BuiltTo(body: seq<Byte>, parts: seq<Part>, frames: seq<AnimFrame>, i: nat) {
    i <= |frames| && Encodes(parts, frames[..i]) && body == Body(Chunks(parts))
  }

  lemma BuiltOn(body: seq<Byte>, parts: seq<Part>, frames: seq<AnimFrame>, i: nat, p: Part)
    requires i < |frames| && BuiltTo(body, parts, frames, i) && Encodes([p], [frames[i]])
    ensures BuiltTo(body + ChunkBytes(Anmf(p)), parts + [p], frames, i + 1)
  {
    BodySnoc(parts, p);
    EncodesMore(parts, p, frames, i);
  }

  lemma BuiltVerifies(parts: seq<Part>, frames: seq<AnimFrame>)
    requires Encodes(parts, frames) && 1 <= |frames| <= 93_000_000
    ensures forall spare, want :: Verify(File(Chunks(parts)), spare, want) == None <==> Wanted(frames, want)
  {
    forall spare, want ensures Verify(File(Chunks(parts)), spare, want) == None <==> Wanted(frames, want) {
      BuiltVerifiesIff(parts, frames, spare, want);
    }
  }

  /** buildAnimatedWebP, for any frames: the file of parts that decode to them, which
      verifies against exactly their colours. At 32 by 32 the frame encoder always
      succeeds. */
  method BuildAnimatedWebp(frames: seq<AnimFrame>) returns (b: seq<Byte>, ghost parts: seq<Part>)
    ensures b == File(Chunks(parts)) && Encodes(parts, frames)
    ensures 1 <= |frames| <= 93_000_000 ==>
              forall spare, want :: Verify(b, spare, want) == None <==> Wanted(frames, want)
  {
    var body := ChunkBytes(Vp8x()) + ChunkBytes(Anim());
    parts := [];
    HeadBody();
    for i := 0 to |frames|
      invariant BuiltTo(body, parts, frames, i)
    {
      var anmf;
      ghost var p;
      anmf, p := EncodeFrame(frames[i]);
      BuiltOn(body, parts, frames, i, p);
      body := body + ChunkBytes(Chunk("ANMF", anmf));
      parts := parts + [p];
    }
    assert frames[..|frames|] == frames;
    b := Chars("RIFF") + Le32(4 + |body|) + Chars("WEBP") + body;
    if 1 <= |frames| <= 93_000_000 { BuiltVerifies(parts, frames); }
  }

  lemma HeadBody()
    ensures Body(Chunks([])) == ChunkBytes(Vp8x()) + ChunkBytes(Anim())
  {
    var cs := Chunks([]);
    assert cs == [Vp8x(), Anim()] && cs[1..] == [Anim()] && [Anim()][1..] == [];
    assert Body([Anim()]) == ChunkBytes(Anim()) + [] == ChunkBytes(Anim());
  }

  lemma {:induction false} BodyConcat(a: seq<Chunk>, c: Chunk)
    ensures Body(a + [c]) == Body(a) + ChunkBytes(c)
  {
    if a == [] {
      assert a + [c] == [c] && [c][1..] == [] && Body([c]) == ChunkBytes(c) + [] == ChunkBytes(c);
    } else {
      assert (a + [c])[0] == a[0] && (a + [c])[1..] == a[1..] + [c];
      BodyConcat(a[1..], c);
    }
  }

  lemma {:induction false} AnmfsSnoc(parts: seq<Part>, p: Part)
    ensures Anmfs(parts + [p]) == Anmfs(parts) + [Anmf(p)]
  {
    if parts == [] {
      assert parts + [p] == [p] && [p][1..] == [];
    } else {
      assert (parts + [p])[0] == parts[0] && (parts + [p])[1..] == parts[1..] + [p];
      AnmfsSnoc(parts[1..], p);
    }
  }

  lemma BodySnoc(parts: seq<Part>, p: Part)
    ensures Body(Chunks(parts + [p])) == Body(Chunks(parts)) + ChunkBytes(Anmf(p))
  {
    AnmfsSnoc(parts, p);
    assert Chunks(parts + [p]) == Chunks(parts) + [Anmf(p)];
    BodyConcat(Chunks(parts), Anmf(p));
  }

  lemma SolidIsShort(data: seq<Byte>, f: Frame)
    requires f.w == Side && f.h == Side && 8 * (|data| - 1) < |Bits.FieldBits(SolidFields(f, 0))| + 8
    ensures |data| <= 13
  {
    Bits.FieldBitsConcat(HeaderFields(f.w, f.h, AlphaUsed(f.c)), CodesFields(Symbols(f.c, 0)));
    CodesLength(Symbols(f.c, 0));
    HeaderLength(f);
  }

  lemma HeaderLength(f: Frame)
    requires f.w == Side && f.h == Side
    ensures |Bits.FieldBits(HeaderFields(f.w, f.h, AlphaUsed(f.c)))| == 35
  {
    var fs := HeaderFields(f.w, f.h, AlphaUsed(f.c));
    var t1, t2, t3, t4, t5, t6 := fs[1..], fs[2..], fs[3..], fs[4..], fs[5..], fs[6..];
    assert t1[1..] == t2 && t2[1..] == t3 && t3[1..] == t4 && t4[1..] == t5 && t5[1..] == t6 && t6[1..] == [];
    assert |Bits.FieldBits(t6)| == 1;
    assert |Bits.FieldBits(t5)| == 2;
    assert |Bits.FieldBits(t4)| == 3;
    assert |Bits.FieldBits(t3)| == 6;
    assert |Bits.FieldBits(t2)| == 7;
    assert |Bits.FieldBits(t1)| == 21;
  }

  /** Frames that are the wanted ones and more. */
  predicate WantedAndMore(frames: seq<AnimFrame>, want: seq<Colour>) {
    |frames| > |want| && Wanted(frames[..|want|], want) && frames[|want|].duration % 16_777_216 != 0
  }

  lemma {:induction false} MorePanics(parts: seq<Part>, frames: seq<AnimFrame>, want: seq<Colour>)
    requires Encodes(parts, frames) && WantedAndMore(frames, want)
    ensures PartsFault(parts, want) == Some(Panics)
    decreases |parts|
  {
    if want != [] {
      assert frames[..|want|][1..] == frames[1..][..|want| - 1];
      WantedTail(frames[..|want|], want);
      MorePanics(parts[1..], frames[1..], want[1..]);
    }
  }

  /** The failing input: the file of the wanted frames with one more after them, up to
      93 million, ends the verifier. */
  lemma FrameTooMany(parts: seq<Part>, frames: seq<AnimFrame>, spare: seq<Byte>, want: seq<Colour>)
    requires Encodes(parts, frames) && WantedAndMore(frames, want) && |frames| <= 93_000_000
    ensures Verify(File(Chunks(parts)), spare, want) == Some(Panics)
  {
    FileFits(parts);
    VerifiedIs(parts, spare, want);
    MorePanics(parts, frames, want);
  }

  /** The three frames of the fixture. */
  function FixtureFrames(): seq<AnimFrame> {
    [AnimFrame(Colour(0x33, 0x66, 0x99, 0xFF), 120), AnimFrame(Colour(0xCC, 0x44, 0x22, 0x80), 120),
     AnimFrame(Colour(0x11, 0xAA, 0x55, 0x40), 160)]
  }

  lemma FixtureIsWanted(want: seq<Colour>)
    requires want == [Colour(0x33, 0x66, 0x99, 0xFF), Colour(0xCC, 0x44, 0x22, 0x80), Colour(0x11, 0xAA, 0x55, 0x40)]
    ensures Wanted(FixtureFrames(), want)
  {
  }

  lemma FixtureVerifies(parts: seq<Part>, spare: seq<Byte>, want: seq<Colour>)
    requires Encodes(parts, FixtureFrames())
    requires want == [Colour(0x33, 0x66, 0x99, 0xFF), Colour(0xCC, 0x44, 0x22, 0x80), Colour(0x11, 0xAA, 0x55, 0x40)]
    ensures Verify(File(Chunks(parts)), spare, want) == None
  {
    FixtureIsWanted(want);
    BuiltVerifiesIff(parts, FixtureFrames(), spare, want);
  }
}
