/** The Motion-JPEG MP4 fixture for any list of samples, and the independent walk
    that has to find those samples again through the chunk offset. */
module Mp4 {
  import opened Wrappers
  import opened Bytes
  import opened Boxes

  type Sample = seq<Byte>

  const Width := 160
  const Height := 120
  const Timescale := 600
  const Delta := 50

  function Full(typ: FourCC, version: Byte, flags: int, payload: seq<Byte>): Box {
    Box(typ, [version, flags / 0x1_0000 % 256, flags / 256 % 256, flags % 256] + payload)
  }

  function Be16s(vs: seq<int>): (b: seq<Byte>)
    ensures |b| == 2 * |vs|
  {
    if vs == [] then [] else Be16(vs[0]) + Be16s(vs[1..])
  }

  function IdentityMatrix(): seq<Byte> { Be32s([0x00010000, 0, 0, 0, 0x00010000, 0, 0, 0, 0x40000000]) }

  function Flatten(samples: seq<Sample>): seq<Byte> {
    if samples == [] then [] else samples[0] + Flatten(samples[1..])
  }

  function Sizes(samples: seq<Sample>): (s: seq<int>)
    ensures |s| == |samples|
    ensures forall i :: 0 <= i < |samples| ==> s[i] == |samples[i]|
  {
    seq(|samples|, i requires 0 <= i < |samples| => |samples[i]|)
  }

  // -------------------------------------------------------------------- boxes

  function Ftyp(): Box { Box("ftyp", Chars("isom") + Be32(512) + Chars("isomiso2mp41")) }

  function Mvhd(frames: nat): Box {
    Full("mvhd", 0, 0, Be32s([0, 0, Timescale, frames * Delta]) + Be32(0x00010000) + Be16s([0x0100, 0]) + Be32s([0, 0])
                       + IdentityMatrix() + Zeros(24) + Be32(2))
  }

  function Tkhd(frames: nat): Box {
    Full("tkhd", 0, 7, Be32s([0, 0, 1, 0, frames * Delta]) + Be32s([0, 0]) + Be16s([0, 0, 0, 0])
                       + IdentityMatrix() + Be32s([Width * U16Limit, Height * U16Limit]))
  }

  function Mdhd(frames: nat): Box {
    Full("mdhd", 0, 0, Be32s([0, 0, Timescale, frames * Delta]) + Be16s([0x55C4, 0]))
  }

  function Hdlr(): Box {
    Full("hdlr", 0, 0, Be32(0) + Chars("vide") + Zeros(12) + Chars("VideoHandler") + [0])
  }

  function Vmhd(): Box { Full("vmhd", 0, 1, Be16(0) + Zeros(6)) }

  function Dinf(): Box {
    Box("dinf", Write(Full("dref", 0, 0, Be32(1) + Write(Full("url ", 0, 1, [])))))
  }

  function SampleEntry(): Box {
    Box("jpeg", Zeros(6) + Be16(1) + Be16s([0, 0]) + Zeros(12) + Be16s([Width, Height])
                + Be32s([0x00480000, 0x00480000]) + Be32(0) + Be16(1)
                + [22] + Chars("Vizra fixturegen MJPEG") + Zeros(9) + Be16(0x0018) + [0xFF, 0xFF])
  }

  function Stsd(): Box { Full("stsd", 0, 0, Be32(1) + Write(SampleEntry())) }

  function Stts(frames: nat): Box { Full("stts", 0, 0, Be32s([1, frames, Delta])) }

  function Stsc(frames: nat): Box { Full("stsc", 0, 0, Be32s([1, 1, frames, 1])) }

  function Stsz(samples: seq<Sample>): Box { Full("stsz", 0, 0, Be32s([0, |samples|]) + Be32s(Sizes(samples))) }

  function Stco(offset: int): Box { Full("stco", 0, 0, Be32s([1, offset])) }

  /** Every box that holds neither sample sizes nor the chunk offset. */
  datatype Parts = Parts(ftyp: Box, mvhd: Box, tkhd: Box, mdhd: Box, hdlr: Box, vmhd: Box, dinf: Box,
                         stsd: Box, stts: Box, stsc: Box)

  predicate Typed(p: Parts) {
    && p.ftyp.typ == "ftyp" && p.mvhd.typ == "mvhd" && p.tkhd.typ == "tkhd" && p.mdhd.typ == "mdhd"
    && p.hdlr.typ == "hdlr" && p.vmhd.typ == "vmhd" && p.dinf.typ == "dinf"
    && p.stsd.typ == "stsd" && p.stts.typ == "stts" && p.stsc.typ == "stsc"
  }

  function FixtureParts(frames: nat): (p: Parts)
    ensures Typed(p)
  {
    Parts(Ftyp(), Mvhd(frames), Tkhd(frames), Mdhd(frames), Hdlr(), Vmhd(), Dinf(), Stsd(), Stts(frames), Stsc(frames))
  }

  function StblBoxes(p: Parts, samples: seq<Sample>, offset: int): seq<Box> {
    [p.stsd, p.stts, p.stsc, Stsz(samples), Stco(offset)]
  }

  function MinfBoxes(p: Parts, samples: seq<Sample>, offset: int): seq<Box> {
    [p.vmhd, p.dinf, Box("stbl", Concat(StblBoxes(p, samples, offset)))]
  }

  function MdiaBoxes(p: Parts, samples: seq<Sample>, offset: int): seq<Box> {
    [p.mdhd, p.hdlr, Box("minf", Concat(MinfBoxes(p, samples, offset)))]
  }

  function TrakBoxes(p: Parts, samples: seq<Sample>, offset: int): seq<Box> {
    [p.tkhd, Box("mdia", Concat(MdiaBoxes(p, samples, offset)))]
  }

  function MoovBoxes(p: Parts, samples: seq<Sample>, offset: int): seq<Box> {
    [p.mvhd, Box("trak", Concat(TrakBoxes(p, samples, offset)))]
  }

  function Moov(p: Parts, samples: seq<Sample>, offset: int): Box {
    Box("moov", Concat(MoovBoxes(p, samples, offset)))
  }

  function Mdat(samples: seq<Sample>): Box { Box("mdat", Flatten(samples)) }

  /** The single chunk starts at the first byte of the mdat payload; the length
      of moov is learnt from a first build with offset zero. */
  function ChunkOffset(p: Parts, samples: seq<Sample>): int {
    (|Write(p.ftyp)| + |Write(Moov(p, samples, 0))| + 8) % U32Limit
  }

  function FileBoxes(p: Parts, samples: seq<Sample>): seq<Box> {
    [p.ftyp, Moov(p, samples, ChunkOffset(p, samples)), Mdat(samples)]
  }

  /** buildMP4 once the samples are encoded, with p := FixtureParts(|samples|). */
  function File(p: Parts, samples: seq<Sample>): seq<Byte> { Concat(FileBoxes(p, samples)) }

  // --------------------------------------------------- lengths and containment

  predicate SameLengths(a: seq<Box>, b: seq<Box>) {
    |a| == |b| && forall i :: 0 <= i < |a| ==> |a[i].payload| == |b[i].payload|
  }

  lemma {:induction false} ConcatSameLength(a: seq<Box>, b: seq<Box>)
    requires SameLengths(a, b)
    ensures |Concat(a)| == |Concat(b)|
  {
    if a != [] { ConcatSameLength(a[1..], b[1..]); }
  }

  lemma {:induction false} PartFits(boxes: seq<Box>, i: nat)
    requires i < |boxes|
    ensures 8 + |boxes[i].payload| <= |Concat(boxes)|
    decreases i
  {
    if i > 0 { PartFits(boxes[1..], i - 1); }
  }

  lemma AllPartsFit(boxes: seq<Box>)
    requires |Concat(boxes)| < U32Limit
    ensures AllFit(boxes)
  {
    forall i | 0 <= i < |boxes| ensures Fits(boxes[i]) { PartFits(boxes, i); }
  }

  /** The length of moov does not depend on the offset written into it. */
  lemma MoovLengthIsFixed(p: Parts, samples: seq<Sample>, a: int, b: int)
    ensures |Write(Moov(p, samples, a))| == |Write(Moov(p, samples, b))|
  {
    assert |Stco(a).payload| == |Stco(b).payload| == 12;
    ConcatSameLength(StblBoxes(p, samples, a), StblBoxes(p, samples, b));
    ConcatSameLength(MinfBoxes(p, samples, a), MinfBoxes(p, samples, b));
    ConcatSameLength(MdiaBoxes(p, samples, a), MdiaBoxes(p, samples, b));
    ConcatSameLength(TrakBoxes(p, samples, a), TrakBoxes(p, samples, b));
    ConcatSameLength(MoovBoxes(p, samples, a), MoovBoxes(p, samples, b));
  }

  // ------------------------------------------------------------------- descent

  predicate FirstOfType(boxes: seq<Box>, k: nat, typ: string) {
    k < |boxes| && boxes[k].typ == typ && forall i :: 0 <= i < k ==> boxes[i].typ != typ
  }

  /** Descent through a written container into the container it holds. */
  lemma Inward(boxes: seq<Box>, k: nat, inner: seq<Box>, path: seq<string>)
    requires |Concat(boxes)| < U32Limit && |path| >= 2 && FirstOfType(boxes, k, path[0])
    requires boxes[k].payload == Concat(inner)
    ensures DescendTo(Concat(boxes), path) == DescendTo(Concat(inner), path[1..])
    ensures |Concat(inner)| < U32Limit
  {
    AllPartsFit(boxes);
    PartFits(boxes, k);
    DescendStep(boxes, k, path);
  }

  function Path(typ: string): seq<string> { ["moov", "trak", "mdia", "minf", "stbl", typ] }

  /** Six levels of written containers are read back to the box at the bottom. */
  lemma {:induction false} SixDeep(file: seq<Box>, moov: seq<Box>, trak: seq<Box>, mdia: seq<Box>, minf: seq<Box>,
                                   stbl: seq<Box>, k: nat, typ: string)
    requires |Concat(file)| < U32Limit
    requires FirstOfType(file, 1, "moov") && file[1].payload == Concat(moov)
    requires FirstOfType(moov, 1, "trak") && moov[1].payload == Concat(trak)
    requires FirstOfType(trak, 1, "mdia") && trak[1].payload == Concat(mdia)
    requires FirstOfType(mdia, 2, "minf") && mdia[2].payload == Concat(minf)
    requires FirstOfType(minf, 2, "stbl") && minf[2].payload == Concat(stbl)
    requires FirstOfType(stbl, k, typ)
    ensures DescendTo(Concat(file), Path(typ)) == Ok(stbl[k])
  {
    var p2, p3: seq<string> := ["trak", "mdia", "minf", "stbl", typ], ["mdia", "minf", "stbl", typ];
    var p4, p5: seq<string> := ["minf", "stbl", typ], ["stbl", typ];
    assert Path(typ)[1..] == p2 && p2[1..] == p3 && p3[1..] == p4 && p4[1..] == p5 && p5[1..] == [typ];
    Inward(file, 1, moov, Path(typ));
    Inward(moov, 1, trak, p2);
    Inward(trak, 1, mdia, p3);
    Inward(mdia, 2, minf, p4);
    Inward(minf, 2, stbl, p5);
    AllPartsFit(stbl);
    DescendStep(stbl, k, [typ]);
  }

  lemma StblOrder(p: Parts, samples: seq<Sample>, offset: int)
    requires Typed(p)
    ensures FirstOfType(StblBoxes(p, samples, offset), 3, "stsz")
            && FirstOfType(StblBoxes(p, samples, offset), 4, "stco")
  {
    assert "stsd"[2] == 's' && "stts"[2] == 't' && "stsc"[3] == 'c' && "stsz"[2] == 's' && "stsz"[3] == 'z';
    assert "stsd"[3] == 'd' && "stts"[3] == 's' && "stco"[2] == 'c';
  }

  lemma ContainerOrder(p: Parts, samples: seq<Sample>, offset: int)
    requires Typed(p)
    ensures FirstOfType(MinfBoxes(p, samples, offset), 2, "stbl")
            && FirstOfType(MdiaBoxes(p, samples, offset), 2, "minf")
    ensures FirstOfType(TrakBoxes(p, samples, offset), 1, "mdia")
            && FirstOfType(MoovBoxes(p, samples, offset), 1, "trak")
  {
    assert "vmhd"[0] == 'v' && "dinf"[0] == 'd' && "stbl"[0] == 's';
    assert "mdhd"[1] == 'd' && "hdlr"[1] == 'd' && "minf"[1] == 'i';
    assert "tkhd"[0] == 't' && "mdia"[0] == 'm' && "mvhd"[0] == 'm' && "trak"[0] == 't';
  }

  /** The reader finds the two tables the writer put six boxes deep. */
  lemma TablesAreFound(p: Parts, samples: seq<Sample>)
    requires Typed(p) && |File(p, samples)| < U32Limit
    ensures DescendTo(File(p, samples), Path("stsz")) == Ok(Stsz(samples))
    ensures DescendTo(File(p, samples), Path("stco")) == Ok(Stco(ChunkOffset(p, samples)))
  {
    var off := ChunkOffset(p, samples);
    var file, moov, trak := FileBoxes(p, samples), MoovBoxes(p, samples, off), TrakBoxes(p, samples, off);
    var mdia, minf, stbl := MdiaBoxes(p, samples, off), MinfBoxes(p, samples, off), StblBoxes(p, samples, off);
    assert FirstOfType(file, 1, "moov") by { assert "ftyp"[0] == 'f' && "moov"[0] == 'm'; }
    ContainerOrder(p, samples, off);
    StblOrder(p, samples, off);
    SixDeep(file, moov, trak, mdia, minf, stbl, 3, "stsz");
    SixDeep(file, moov, trak, mdia, minf, stbl, 4, "stco");
  }

  // ------------------------------------------------------------------- the walk

  const Frames := 12

  /** Panics is no error value of the source: a slice beyond a buffer's capacity, or
      with a negative start, ends the program. */
  datatype Refusal = Unreadable(e: ScanError) | Panics | WrongCount | NotAtMdat | PastEnd | NotDecodable

  /** The samples in the order visited, and the offset just past the last one. */
  datatype Walked = Walked(samples: seq<Sample>, end: nat)

  function Then(done: seq<Sample>, r: Result<Walked, Refusal>): Result<Walked, Refusal> {
    match r case Err(e) => Err(e) case Ok(w) => Ok(Walked(done + w.samples, w.end))
  }

  function Walk(b: seq<Byte>, table: seq<Byte>, off: nat, i: nat, count: nat, decodes: Sample -> bool)
    : Result<Walked, Refusal>
    requires i <= count
    decreases count - i
  {
    if i == count then Ok(Walked([], off))
    else if 16 + 4 * i > |table| then Err(Panics)
    else
      var n := U32(table[12 + 4 * i..16 + 4 * i]);
      if off + n > |b| then Err(PastEnd)
      else if !decodes(b[off..off + n]) then Err(NotDecodable)
      else Then([b[off..off + n]], Walk(b, table, off + n, i + 1, count, decodes))
  }

  /** What can be read from the start of the payload a path leads to: the payload, the
      rest of the file, and the spare capacity of the buffer that holds it. */
  function Readable(b: seq<Byte>, spare: seq<Byte>, path: seq<string>, bx: Box): seq<Byte> {
    bx.payload + (Beyond(b, path) + spare)
  }

  /** The last third of verifyMP4: sample count, chunk offset and samples. */
  function Verify(b: seq<Byte>, spare: seq<Byte>, decodes: Sample -> bool): Result<Walked, Refusal> {
    match DescendTo(b, Path("stsz"))
    case Err(e) => Err(Unreadable(e))
    case Ok(stsz) =>
      var table := Readable(b, spare, Path("stsz"), stsz);
      if |table| < 12 then Err(Panics)
      else if U32(table[8..12]) != Frames then Err(WrongCount)
      else
        match DescendTo(b, Path("stco"))
        case Err(e) => Err(Unreadable(e))
        case Ok(stco) =>
          var offsets := Readable(b, spare, Path("stco"), stco);
          if |offsets| < 12 then Err(Panics) else VerifyAt(b, table, U32(offsets[8..12]), decodes)
  }

  function VerifyAt(b: seq<Byte>, table: seq<Byte>, off: nat, decodes: Sample -> bool): Result<Walked, Refusal> {
    if off + 8 > |b| then Err(NotAtMdat)
    else if off < 4 then Err(Panics)
    else if Text(b[off - 4..off]) != "mdat" then Err(NotAtMdat)
    else Walk(b, table, off, 0, Frames, decodes)
  }

  lemma ThenMore(done: seq<Sample>, s: Sample, r: Result<Walked, Refusal>)
    ensures Then(done, Then([s], r)) == Then(done + [s], r)
  {
    if r.Ok? { assert done + ([s] + r.value.samples) == done + [s] + r.value.samples; }
  }

  lemma ThenNothing(r: Result<Walked, Refusal>)
    ensures Then([], r) == r
  {
    if r.Ok? { assert [] + r.value.samples == r.value.samples; }
  }

  method WalkSamples(b: seq<Byte>, table: seq<Byte>, start: nat, count: nat, decodes: Sample -> bool)
    returns (r: Result<Walked, Refusal>)
    ensures r == Walk(b, table, start, 0, count, decodes)
  {
    var off: nat := start;
    var samples: seq<Sample> := [];
    ThenNothing(Walk(b, table, start, 0, count, decodes));
    for i := 0 to count
      invariant Walk(b, table, start, 0, count, decodes) == Then(samples, Walk(b, table, off, i, count, decodes))
    {
      if 16 + 4 * i > |table| { return Err(Panics); }
      var n := U32(table[12 + 4 * i..16 + 4 * i]);
      if off + n > |b| { return Err(PastEnd); }
      if !decodes(b[off..off + n]) { return Err(NotDecodable); }
      ThenMore(samples, b[off..off + n], Walk(b, table, off + n, i + 1, count, decodes));
      samples := samples + [b[off..off + n]];
      off := off + n;
    }
    assert samples + [] == samples;
    r := Ok(Walked(samples, off));
  }

  method VerifySamples(b: seq<Byte>, spare: seq<Byte>, decodes: Sample -> bool) returns (r: Result<Walked, Refusal>)
    ensures r == Verify(b, spare, decodes)
  {
    var stsz := Descend(b, Path("stsz"));
    if stsz.Err? { return Err(Unreadable(stsz.error)); }
    var table := Readable(b, spare, Path("stsz"), stsz.value);
    if |table| < 12 { return Err(Panics); }
    if U32(table[8..12]) != Frames { return Err(WrongCount); }
    var stco := Descend(b, Path("stco"));
    if stco.Err? { return Err(Unreadable(stco.error)); }
    var offsets := Readable(b, spare, Path("stco"), stco.value);
    if |offsets| < 12 { return Err(Panics); }
    var off := U32(offsets[8..12]);
    if off + 8 > |b| { return Err(NotAtMdat); }
    if off < 4 { return Err(Panics); }
    if Text(b[off - 4..off]) != "mdat" { return Err(NotAtMdat); }
    r := WalkSamples(b, table, off, Frames, decodes);
  }

  // ------------------------------------------------- what the walk finds in File

  /** The stsz payload: the count at 8, and each sample's length in turn. */
  lemma StszReads(samples: seq<Sample>, i: nat)
    requires |samples| < U32Limit && i < |samples| && |samples[i]| < U32Limit
    ensures |Stsz(samples).payload| == 12 + 4 * |samples|
    ensures U32(Stsz(samples).payload[12 + 4 * i..16 + 4 * i]) == |samples[i]|
  {
    var p, sizes := Stsz(samples).payload, Be32s(Sizes(samples));
    assert |p| == 12 + 4 * |samples| && p[12..] == sizes;
    Be32sAt(Sizes(samples), i);
    assert p[12 + 4 * i..16 + 4 * i] == sizes[4 * i..4 * i + 4];
    Be32Reads(|samples[i]|);
  }

  lemma StszCount(samples: seq<Sample>)
    requires |samples| < U32Limit
    ensures |Stsz(samples).payload| == 12 + 4 * |samples|
    ensures U32(Stsz(samples).payload[8..12]) == |samples|
  {
    var p, head := Stsz(samples).payload, Be32s([0, |samples|]);
    Be32sAt([0, |samples|], 1);
    assert p[8..12] == head[4..8];
    Be32Reads(|samples|);
  }

  lemma StcoReads(offset: int)
    requires 0 <= offset < U32Limit
    ensures |Stco(offset).payload| == 12 && U32(Stco(offset).payload[8..12]) == offset
  {
    Be32sAt([1, offset], 1);
    assert Stco(offset).payload[8..12] == Be32s([1, offset])[4..8];
    Be32Reads(offset);
  }

  lemma {:induction false} FlattenSplit(samples: seq<Sample>, i: nat)
    requires i <= |samples|
    ensures Flatten(samples) == Flatten(samples[..i]) + Flatten(samples[i..])
  {
    if i > 0 {
      assert samples[..i][1..] == samples[1..][..i - 1] && samples[i..] == samples[1..][i - 1..];
      FlattenSplit(samples[1..], i - 1);
    } else {
      assert samples[0..] == samples;
    }
  }

  ghost predicate SizeIs(table: seq<Byte>, i: nat, n: nat) {
    16 + 4 * i <= |table| && U32(table[12 + 4 * i..16 + 4 * i]) == n
  }

  ghost predicate AllSizesAre(table: seq<Byte>, samples: seq<Sample>) {
    forall j :: 0 <= j < |samples| ==> SizeIs(table, j, |samples[j]|)
  }

  lemma WalkStep(b: seq<Byte>, table: seq<Byte>, off: nat, i: nat, count: nat, decodes: Sample -> bool,
                 s: Sample, rest: seq<Byte>)
    requires i < count && SizeIs(table, i, |s|) && off <= |b| && b[off..] == s + rest
    ensures off + |s| <= |b| && b[off + |s|..] == rest
    ensures Walk(b, table, off, i, count, decodes)
            == if decodes(s) then Then([s], Walk(b, table, off + |s|, i + 1, count, decodes)) else Err(NotDecodable)
  {
    assert b[off..][..|s|] == s && b[off..][|s|..] == rest;
    assert b[off..off + |s|] == b[off..][..|s|] && b[off + |s|..] == b[off..][|s|..];
  }

  /** A table of true lengths, over bytes that end with the samples, walks to
      exactly those samples and to the end of the bytes. */
  lemma {:induction false} WalkFinds(b: seq<Byte>, table: seq<Byte>, samples: seq<Sample>, off: nat, i: nat,
                                     decodes: Sample -> bool)
    requires i <= |samples| && AllSizesAre(table, samples) && off <= |b| && b[off..] == Flatten(samples[i..])
    ensures Walk(b, table, off, i, |samples|, decodes)
            == if forall j :: i <= j < |samples| ==> decodes(samples[j])
               then Ok(Walked(samples[i..], |b|)) else Err(NotDecodable)
    decreases |samples| - i
  {
    if i < |samples| {
      var s := samples[i];
      NextSample(samples, i);
      WalkStep(b, table, off, i, |samples|, decodes, s, Flatten(samples[i + 1..]));
      WalkFinds(b, table, samples, off + |s|, i + 1, decodes);
    }
  }

  lemma NextSample(samples: seq<Sample>, i: nat)
    requires i < |samples|
    ensures Flatten(samples[i..]) == samples[i] + Flatten(samples[i + 1..])
    ensures [samples[i]] + samples[i + 1..] == samples[i..]
  {
    assert samples[i..][1..] == samples[i + 1..];
  }

  lemma OffsetIsExact(p: Parts, samples: seq<Sample>)
    requires |File(p, samples)| < U32Limit
    ensures ChunkOffset(p, samples) == |Write(p.ftyp)| + |Write(Moov(p, samples, ChunkOffset(p, samples)))| + 8
  {
    var moov := Moov(p, samples, ChunkOffset(p, samples));
    FileLayout(p.ftyp, moov, Mdat(samples));
    MoovLengthIsFixed(p, samples, 0, ChunkOffset(p, samples));
  }

  /** The chunk offset is where the sample bytes start, just past the mdat header. */
  lemma OffsetIsMdatPayload(p: Parts, samples: seq<Sample>)
    requires |File(p, samples)| < U32Limit
    ensures var off := ChunkOffset(p, samples);
            8 <= off == |File(p, samples)| - |Flatten(samples)| && File(p, samples)[off..] == Flatten(samples)
            && Text(File(p, samples)[off - 4..off]) == "mdat"
  {
    OffsetIsExact(p, samples);
    FileLayout(p.ftyp, Moov(p, samples, ChunkOffset(p, samples)), Mdat(samples));
    TextOfChars("mdat");
  }

  lemma FileLayout(ftyp: Box, moov: Box, mdat: Box)
    ensures var b, off := Concat([ftyp, moov, mdat]), |Write(ftyp)| + |Write(moov)| + 8;
            |b| == off + |mdat.payload| && b[off..] == mdat.payload && b[off - 4..off] == Chars(mdat.typ)
  {
    var tail := Concat([mdat]);
    assert [ftyp, moov, mdat][1..] == [moov, mdat] && [moov, mdat][1..] == [mdat] && [mdat][1..] == [];
    assert Concat([]) == [] && tail == Write(mdat) + [] == Write(mdat);
    assert Concat([moov, mdat]) == Write(moov) + tail;
    assert tail[4..8] == Chars(mdat.typ) && tail[8..] == mdat.payload;
    var b := Concat([ftyp, moov, mdat]);
    assert b == Write(ftyp) + (Write(moov) + tail);
    assert b[|Write(ftyp)| + |Write(moov)|..] == tail;
  }

  lemma SliceOfFront(a: seq<Byte>, more: seq<Byte>, i: nat, j: nat)
    requires i <= j <= |a|
    ensures (a + more)[i..j] == a[i..j]
  {
  }

  lemma VerifyReadsTables(p: Parts, samples: seq<Sample>, spare: seq<Byte>, decodes: Sample -> bool)
    requires Typed(p) && |File(p, samples)| < U32Limit
    ensures var b := File(p, samples);
            Verify(b, spare, decodes)
            == if |samples| != Frames then Err(WrongCount)
               else VerifyAt(b, Readable(b, spare, Path("stsz"), Stsz(samples)), ChunkOffset(p, samples), decodes)
  {
    var b, off := File(p, samples), ChunkOffset(p, samples);
    TablesAreFound(p, samples);
    TableFits(p, samples);
    StszCount(samples);
    SliceOfFront(Stsz(samples).payload, Beyond(b, Path("stsz")) + spare, 8, 12);
    StcoReads(off);
    SliceOfFront(Stco(off).payload, Beyond(b, Path("stco")) + spare, 8, 12);
  }

  /** The table of every file under 2^32 bytes holds the true lengths, whatever comes
      after it. */
  lemma TableIsTrue(p: Parts, samples: seq<Sample>, more: seq<Byte>)
    requires |File(p, samples)| < U32Limit
    ensures AllSizesAre(Stsz(samples).payload + more, samples)
  {
    TableFits(p, samples);
    StszCount(samples);
    OffsetIsMdatPayload(p, samples);
    forall j | 0 <= j < |samples| ensures SizeIs(Stsz(samples).payload + more, j, |samples[j]|) {
      SampleFits(samples, j);
      StszReads(samples, j);
      SliceOfFront(Stsz(samples).payload, more, 12 + 4 * j, 16 + 4 * j);
    }
  }

  /** For every list of samples, of whatever length and number, whose file stays
      under 2^32 bytes: walking the size table from the chunk offset visits exactly
      the samples written, in order, and ends at the end of the file, or stops at
      one that does not decode. */
  lemma WalkVisitsSamples(p: Parts, samples: seq<Sample>, more: seq<Byte>, decodes: Sample -> bool)
    requires |File(p, samples)| < U32Limit
    ensures Walk(File(p, samples), Stsz(samples).payload + more, ChunkOffset(p, samples), 0, |samples|, decodes)
            == if forall j :: 0 <= j < |samples| ==> decodes(samples[j])
               then Ok(Walked(samples, |File(p, samples)|)) else Err(NotDecodable)
  {
    OffsetIsMdatPayload(p, samples);
    TableIsTrue(p, samples, more);
    assert samples[0..] == samples;
    WalkFinds(File(p, samples), Stsz(samples).payload + more, samples, ChunkOffset(p, samples), 0, decodes);
  }

  /** The whole verification of a written file: the walk above, behind a demand for
      twelve samples and for eight bytes after the chunk offset. */
  lemma VerifiedIff(p: Parts, samples: seq<Sample>, spare: seq<Byte>, decodes: Sample -> bool)
    requires Typed(p) && |File(p, samples)| < U32Limit
    ensures Verify(File(p, samples), spare, decodes)
            == if |samples| != Frames then Err(WrongCount)
               else if |Flatten(samples)| < 8 then Err(NotAtMdat)
               else if forall j :: 0 <= j < |samples| ==> decodes(samples[j])
               then Ok(Walked(samples, |File(p, samples)|))
               else Err(NotDecodable)
  {
    VerifyReadsTables(p, samples, spare, decodes);
    OffsetIsMdatPayload(p, samples);
    WalkVisitsSamples(p, samples, Beyond(File(p, samples), Path("stsz")) + spare, decodes);
  }

  /** Twelve empty samples, which a sample test that accepts anything would pass, are
      refused: no byte follows the chunk offset. */
  lemma EmptySamplesAreRefused(samples: seq<Sample>, spare: seq<Byte>, decodes: Sample -> bool)
    requires |samples| == Frames && forall j :: 0 <= j < Frames ==> samples[j] == []
    ensures Verify(File(FixtureParts(Frames), samples), spare, decodes) == Err(NotAtMdat)
  {
    NothingToFlatten(samples);
    HeadersAreShort(Frames);
    HandlersAreShort();
    TablesAreShort(Frames);
    FileIsShort(FixtureParts(Frames), samples);
    VerifiedIff(FixtureParts(Frames), samples, spare, decodes);
  }

  lemma {:induction false} NothingToFlatten(samples: seq<Sample>)
    requires forall j :: 0 <= j < |samples| ==> samples[j] == []
    ensures Flatten(samples) == []
  {
    if samples != [] { NothingToFlatten(samples[1..]); }
  }

  predicate Short(b: Box, n: nat) { |b.payload| <= n }

  predicate AllShort(boxes: seq<Box>, n: nat) { forall i :: 0 <= i < |boxes| ==> Short(boxes[i], n) }

  lemma {:induction false} ConcatLength(boxes: seq<Box>, n: nat)
    requires AllShort(boxes, n)
    ensures |Concat(boxes)| <= |boxes| * (n + 8)
  {
    if boxes != [] {
      ConcatLength(boxes[1..], n);
      assert |boxes| * (n + 8) == (|boxes| - 1) * (n + 8) + (n + 8);
    }
  }

  /** At most five boxes of n bytes make a container of at most ten times as many. */
  lemma Wrapped(typ: FourCC, boxes: seq<Box>, n: nat)
    requires AllShort(boxes, n) && |boxes| <= 5 && n >= 8
    ensures Short(Box(typ, Concat(boxes)), 10 * n)
  {
    ConcatLength(boxes, n);
    AtMostFive(|boxes|, n + 8);
  }

  lemma AtMostFive(k: nat, m: nat)
    requires k <= 5
    ensures k * m <= 5 * m
  {
    assert 5 * m == k * m + (5 - k) * m;
  }

  predicate ShortParts(p: Parts) {
    && Short(p.ftyp, 200) && Short(p.mvhd, 200) && Short(p.tkhd, 200) && Short(p.mdhd, 200) && Short(p.hdlr, 200)
    && Short(p.vmhd, 200) && Short(p.dinf, 200) && Short(p.stsd, 200) && Short(p.stts, 200) && Short(p.stsc, 200)
  }

  lemma HeadersAreShort(frames: nat)
    ensures Short(Mvhd(frames), 200) && Short(Tkhd(frames), 200) && Short(Mdhd(frames), 200)
  {
  }

  lemma HandlersAreShort()
    ensures Short(Ftyp(), 200) && Short(Hdlr(), 200) && Short(Vmhd(), 200) && Short(Dinf(), 200)
  {
  }

  lemma TablesAreShort(frames: nat)
    ensures Short(Stsd(), 200) && Short(Stts(frames), 200) && Short(Stsc(frames), 200)
  {
  }

  lemma FileIsShort(p: Parts, samples: seq<Sample>)
    requires ShortParts(p) && |samples| == Frames && Flatten(samples) == []
    ensures |File(p, samples)| < U32Limit
  {
    var off := ChunkOffset(p, samples);
    StszCount(samples);
    StcoReads(off);
    Wrapped("stbl", StblBoxes(p, samples, off), 200);
    Wrapped("minf", MinfBoxes(p, samples, off), 2_000);
    Wrapped("mdia", MdiaBoxes(p, samples, off), 20_000);
    Wrapped("trak", TrakBoxes(p, samples, off), 200_000);
    Wrapped("moov", MoovBoxes(p, samples, off), 2_000_000);
    Wrapped("file", FileBoxes(p, samples), 20_000_000);
  }

  lemma SampleFits(samples: seq<Sample>, j: nat)
    requires j < |samples|
    ensures |samples[j]| <= |Flatten(samples)|
  {
    FlattenSplit(samples, j);
  }

  lemma TableFits(p: Parts, samples: seq<Sample>)
    requires |File(p, samples)| < U32Limit
    ensures |samples| < U32Limit
  {
    var off := ChunkOffset(p, samples);
    PartFits(FileBoxes(p, samples), 1);
    PartFits(MoovBoxes(p, samples, off), 1);
    PartFits(TrakBoxes(p, samples, off), 1);
    PartFits(MdiaBoxes(p, samples, off), 2);
    PartFits(MinfBoxes(p, samples, off), 2);
    PartFits(StblBoxes(p, samples, off), 3);
  }

  // ------------------------------------------------------------------ the writer

  datatype BuildError = MoovLengthChanged

  lemma {:induction false} FlattenSnoc(samples: seq<Sample>, s: Sample)
    ensures Flatten(samples + [s]) == Flatten(samples) + s
  {
    FlattenSplit(samples + [s], |samples|);
    assert (samples + [s])[..|samples|] == samples && (samples + [s])[|samples|..] == [s] && [s][1..] == [];
    assert s + [] == s;
  }

  /** buildMP4 once the samples are encoded: the second build of moov is never of
      another length than the first, so it always succeeds. */
  method BuildFile(p: Parts, samples: seq<Sample>) returns (r: Result<seq<Byte>, BuildError>)
    ensures r == Ok(File(p, samples))
  {
    var payload: seq<Byte> := [];
    for i := 0 to |samples|
      invariant payload == Flatten(samples[..i])
    {
      assert samples[..i + 1] == samples[..i] + [samples[i]];
      FlattenSnoc(samples[..i], samples[i]);
      payload := payload + samples[i];
    }
    assert samples[..|samples|] == samples;
    var moovLen := |Write(Moov(p, samples, 0))|;
    var offset := (|Write(p.ftyp)| + moovLen + 8) % U32Limit;
    var moov := Moov(p, samples, offset);
    MoovLengthIsFixed(p, samples, 0, offset);
    r := if |Write(moov)| == moovLen then Ok(Concat([p.ftyp, moov, Box("mdat", payload)])) else Err(MoovLengthChanged);
  }
}
