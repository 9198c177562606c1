/** What the MP4 check asks of a file before it looks at the samples: box order,
    brand, handler, sample entry and declared duration. */
module Mp4Header {
  import opened Wrappers
  import opened Bytes
  import opened Boxes
  import opened Mp4

  datatype Fault = WrongOrder | WrongBrand | WrongHandler | WrongEntry | WrongSize | NoDuration | WrongDuration
                 | Scanning(e: ScanError) | Crash | Samples(r: Refusal)

  function MdiaPath(typ: string): seq<string> { ["moov", "trak", "mdia", typ] }

  /** A field of four letters, at an offset from the start of a payload. */
  predicate Reads(bytes: seq<Byte>, at: nat, text: string) {
    at + 4 <= |bytes| && Text(bytes[at..at + 4]) == text
  }

  function CheckOrder(b: seq<Byte>, spare: seq<Byte>): Option<Fault> {
    match Scan(b)
    case Err(e) => Some(Scanning(e))
    case Ok(boxes) =>
      if |boxes| < 3 || boxes[0].typ != "ftyp" || boxes[1].typ != "moov" || boxes[2].typ != "mdat" then Some(WrongOrder)
      else
        var ftyp := Readable(b, spare, ["ftyp"], boxes[0]);
        if |ftyp| < 4 then Some(Crash) else if Reads(ftyp, 0, "isom") then None else Some(WrongBrand)
  }

  function CheckHandler(b: seq<Byte>, spare: seq<Byte>): Option<Fault> {
    match DescendTo(b, MdiaPath("hdlr"))
    case Err(e) => Some(Scanning(e))
    case Ok(hdlr) =>
      var bytes := Readable(b, spare, MdiaPath("hdlr"), hdlr);
      if |bytes| < 12 then Some(Crash) else if Reads(bytes, 8, "vide") then None else Some(WrongHandler)
  }

  /** The entries are scanned from the eighth byte to the end of the payload; the one
      entry ends where the payload does, so what lies beyond is the same. */
  function CheckEntry(b: seq<Byte>, spare: seq<Byte>): Option<Fault> {
    match DescendTo(b, Path("stsd"))
    case Err(e) => Some(Scanning(e))
    case Ok(stsd) =>
      if |stsd.payload| < 8 then Some(Crash)
      else
        match Scan(stsd.payload[8..])
        case Err(e) => Some(Scanning(e))
        case Ok(entries) =>
          if |entries| != 1 || entries[0].typ != "jpeg" then Some(WrongEntry)
          else CheckSize(Readable(b, spare, Path("stsd"), entries[0]))
  }

  function CheckSize(entry: seq<Byte>): Option<Fault> {
    if |entry| < 28 then Some(Crash)
    else if U16(entry[24..26]) != Width || U16(entry[26..28]) != Height then Some(WrongSize)
    else None
  }

  /** The quotient of two 32-bit numbers is at least 1/(10 ts) away from 0.9 and 1.1
      unless it equals one of them, far more than a double rounds by. */
  function CheckDuration(b: seq<Byte>, spare: seq<Byte>): Option<Fault> {
    match DescendTo(b, MdiaPath("mdhd"))
    case Err(e) => Some(Scanning(e))
    case Ok(mdhd) =>
      var bytes := Readable(b, spare, MdiaPath("mdhd"), mdhd);
      if |bytes| < 20 then Some(Crash)
      else
        var ts, dur := U32(bytes[12..16]), U32(bytes[16..20]);
        if ts == 0 || dur == 0 then Some(NoDuration)
        else if 10 * dur < 9 * ts || 10 * dur > 11 * ts then Some(WrongDuration)
        else None
  }

  /** verifyMP4, all of it. */
  function VerifyMp4(b: seq<Byte>, spare: seq<Byte>, decodes: Sample -> bool): Result<Walked, Fault> {
    if CheckOrder(b, spare).Some? then Err(CheckOrder(b, spare).value)
    else if CheckHandler(b, spare).Some? then Err(CheckHandler(b, spare).value)
    else if CheckEntry(b, spare).Some? then Err(CheckEntry(b, spare).value)
    else if CheckDuration(b, spare).Some? then Err(CheckDuration(b, spare).value)
    else
      match Verify(b, spare, decodes)
      case Err(e) => Err(Samples(e))
      case Ok(w) => Ok(w)
  }

  // ------------------------------------------------------ the fields of the fixture

  lemma ReadsFront(a: seq<Byte>, more: seq<Byte>, at: nat, text: string)
    requires Reads(a, at, text)
    ensures Reads(a + more, at, text)
  {
    SliceOfFront(a, more, at, at + 4);
  }

  lemma BrandIsIsom()
    ensures Reads(Ftyp().payload, 0, "isom")
  {
    TextOfChars("isom");
    assert Ftyp().payload[0..4] == Chars("isom");
  }

  lemma HandlerIsVide()
    ensures Reads(Hdlr().payload, 8, "vide")
  {
    TextOfChars("vide");
    assert Hdlr().payload[8..12] == Chars("vide");
  }

  lemma EntrySize(more: seq<Byte>)
    ensures CheckSize(SampleEntry().payload + more) == None
  {
    var p := SampleEntry().payload;
    var pair := Be16s([Width, Height]);
    assert [Width, Height][1..] == [Height] && Be16s([Height]) == Be16(Height) + [] == Be16(Height);
    assert pair == Be16(Width) + Be16(Height);
    assert |p| >= 28 && p[24..28] == pair;
    assert p[24..26] == pair[0..2] && p[26..28] == pair[2..4];
    Be16Reads(Width);
    Be16Reads(Height);
    SliceOfFront(p, more, 24, 26);
    SliceOfFront(p, more, 26, 28);
  }

  lemma OneBoxScans(bx: Box)
    requires Fits(bx)
    ensures Scan(Write(bx)) == Ok([bx])
  {
    assert [bx][1..] == [] && Concat([bx]) == Write(bx) + [] == Write(bx);
    WrittenScans([bx]);
  }

  lemma PastEight(a: seq<Byte>, b: seq<Byte>, c: seq<Byte>)
    requires |a| == |b| == 4
    ensures (a + (b + c))[8..] == c
  {
  }

  lemma OneEntry()
    ensures |Stsd().payload| >= 8 && Scan(Stsd().payload[8..]) == Ok([SampleEntry()])
  {
    EntryIsShort();
    OneBoxScans(SampleEntry());
    PastEight(Stsd().payload[..4], Be32(1), Write(SampleEntry()));
  }

  lemma EntryIsShort()
    ensures Fits(SampleEntry())
  {
    assert |SampleEntry().payload| == 78;
  }

  /** The 32-bit number i after version and flags. */
  ghost predicate Word(b: Box, i: nat, v: int) {
    8 + 4 * i <= |b.payload| && U32(b.payload[4 + 4 * i..8 + 4 * i]) == v
  }

  lemma SliceOfMiddle(head: seq<Byte>, words: seq<Byte>, more: seq<Byte>, j: nat)
    requires |head| == 4 && j + 4 <= |words| && words <= more
    ensures (head + more)[4 + j..8 + j] == words[j..j + 4]
  {
  }

  lemma WordIn(b: Box, head: seq<Byte>, vs: seq<int>, more: seq<Byte>, i: nat)
    requires i < |vs| && Be32s(vs) <= more && |head| == 4 && b.payload == head + more
    ensures Word(b, i, vs[i] % U32Limit)
  {
    SliceOfMiddle(head, Be32s(vs), more, 4 * i);
    Be32sAt(vs, i);
    Be32Reads(vs[i]);
  }

  /** Word i of a full box whose payload starts with these words. */
  lemma WordOf(typ: FourCC, version: Byte, flags: int, vs: seq<int>, more: seq<Byte>, i: nat)
    requires i < |vs| && Be32s(vs) <= more
    ensures Word(Full(typ, version, flags, more), i, vs[i] % U32Limit)
  {
    HeadOfFull(typ, version, flags, more);
    WordIn(Full(typ, version, flags, more), Full(typ, version, flags, []).payload, vs, more, i);
  }

  lemma HeadOfFull(typ: FourCC, version: Byte, flags: int, more: seq<Byte>)
    ensures |Full(typ, version, flags, []).payload| == 4
    ensures Full(typ, version, flags, more).payload == Full(typ, version, flags, []).payload + more
  {
  }

  lemma PrefixOn(a: seq<Byte>, b: seq<Byte>, c: seq<Byte>)
    requires a <= b
    ensures a <= b + c
  {
  }

  /** The media header declares 600 ticks a second and 50 ticks a frame. */
  lemma MediaTimes(frames: nat)
    ensures Times(Mdhd(frames).payload, 600, frames * 50 % U32Limit)
  {
    var vs := [0, 0, Timescale, frames * Delta];
    PrefixOn(Be32s(vs), Be32s(vs), Be16s([0x55C4, 0]));
    WordOf("mdhd", 0, 0, vs, Be32s(vs) + Be16s([0x55C4, 0]), 2);
    WordOf("mdhd", 0, 0, vs, Be32s(vs) + Be16s([0x55C4, 0]), 3);
  }

  predicate Times(bytes: seq<Byte>, scale: nat, duration: nat) {
    |bytes| >= 20 && U32(bytes[12..16]) == scale && U32(bytes[16..20]) == duration
  }

  /** The five fields the check reads, in boxes that may otherwise hold anything. */
  ghost predicate Headed(p: Parts, ticks: nat) {
    && Typed(p) && Reads(p.ftyp.payload, 0, "isom") && Reads(p.hdlr.payload, 8, "vide")
    && |p.stsd.payload| >= 8 && Scan(p.stsd.payload[8..]) == Ok([SampleEntry()])
    && Times(p.mdhd.payload, 600, ticks)
  }

  lemma FixtureIsHeaded(frames: nat)
    ensures Headed(FixtureParts(frames), frames * 50 % U32Limit)
  {
    BrandIsIsom();
    HandlerIsVide();
    OneEntry();
    MediaTimes(frames);
  }

  /** The tables beside the media header tell the same story: the movie and the track
      last as long as the media, which is one run of so many samples of 50 ticks, all
      in the one chunk. */
  ghost predicate Agree(p: Parts, frames: int, ticks: int) {
    && Word(p.mvhd, 2, 600) && Word(p.mvhd, 3, ticks) && Word(p.mdhd, 2, 600) && Word(p.mdhd, 3, ticks)
    && Word(p.tkhd, 2, 1) && Word(p.tkhd, 4, ticks)
    && Word(p.stts, 0, 1) && Word(p.stts, 1, frames) && Word(p.stts, 2, 50)
    && Word(p.stsc, 0, 1) && Word(p.stsc, 1, 1) && Word(p.stsc, 2, frames) && Word(p.stsc, 3, 1)
  }

  lemma PrefixOfFive(w: seq<Byte>, a: seq<Byte>, b: seq<Byte>, c: seq<Byte>, d: seq<Byte>)
    ensures w <= w + a + b + c + d
  {
    PrefixOn(w, w + a, b);
    PrefixOn(w, w + a + b, c);
    PrefixOn(w, w + a + b + c, d);
  }

  lemma MovieTimes(frames: nat)
    ensures Word(Mvhd(frames), 2, 600) && Word(Mvhd(frames), 3, frames * 50 % U32Limit)
  {
    var vs := [0, 0, Timescale, frames * Delta];
    var front := Be32s(vs) + Be32(0x00010000) + Be16s([0x0100, 0]) + Be32s([0, 0]) + IdentityMatrix();
    PrefixOfFive(Be32s(vs), Be32(0x00010000), Be16s([0x0100, 0]), Be32s([0, 0]), IdentityMatrix());
    PrefixOn(Be32s(vs), front, Zeros(24));
    PrefixOn(Be32s(vs), front + Zeros(24), Be32(2));
    WordOf("mvhd", 0, 0, vs, front + Zeros(24) + Be32(2), 2);
    WordOf("mvhd", 0, 0, vs, front + Zeros(24) + Be32(2), 3);
  }

  lemma TrackStarts(frames: nat) returns (more: seq<Byte>)
    ensures Tkhd(frames) == Full("tkhd", 0, 7, more) && Be32s([0, 0, 1, 0, frames * Delta]) <= more
  {
    var words, size := Be32s([0, 0, 1, 0, frames * Delta]), Be32s([Width * U16Limit, Height * U16Limit]);
    more := words + Be32s([0, 0]) + Be16s([0, 0, 0, 0]) + IdentityMatrix() + size;
    PrefixOfFive(words, Be32s([0, 0]), Be16s([0, 0, 0, 0]), IdentityMatrix(), size);
  }

  lemma TrackTimes(frames: nat)
    ensures Word(Tkhd(frames), 2, 1) && Word(Tkhd(frames), 4, frames * 50 % U32Limit)
  {
    var vs := [0, 0, 1, 0, frames * Delta];
    var more := TrackStarts(frames);
    WordOf("tkhd", 0, 7, vs, more, 2);
    WordOf("tkhd", 0, 7, vs, more, 4);
  }

  lemma SampleTimes(frames: nat)
    ensures Word(Stts(frames), 0, 1) && Word(Stts(frames), 1, frames % U32Limit) && Word(Stts(frames), 2, 50)
  {
    var vs := [1, frames, Delta];
    WordOf("stts", 0, 0, vs, Be32s(vs), 0);
    WordOf("stts", 0, 0, vs, Be32s(vs), 1);
    WordOf("stts", 0, 0, vs, Be32s(vs), 2);
  }

  lemma OneChunk(frames: nat)
    ensures Word(Stsc(frames), 0, 1) && Word(Stsc(frames), 1, 1) && Word(Stsc(frames), 2, frames % U32Limit)
            && Word(Stsc(frames), 3, 1)
  {
    var vs := [1, 1, frames, 1];
    WordOf("stsc", 0, 0, vs, Be32s(vs), 0);
    WordOf("stsc", 0, 0, vs, Be32s(vs), 1);
    WordOf("stsc", 0, 0, vs, Be32s(vs), 2);
    WordOf("stsc", 0, 0, vs, Be32s(vs), 3);
  }

  lemma TablesAgree(frames: nat)
    ensures Agree(FixtureParts(frames), frames % U32Limit, frames * 50 % U32Limit)
  {
    MovieTimes(frames);
    TrackTimes(frames);
    MediaTimes(frames);
    SampleTimes(frames);
    OneChunk(frames);
  }

  // -------------------------------------------------------------- finding the boxes

  lemma FourDeep(file: seq<Box>, moov: seq<Box>, trak: seq<Box>, mdia: seq<Box>, k: nat, typ: string)
    requires |Concat(file)| < U32Limit
    requires FirstOfType(file, 1, "moov") && file[1].payload == Concat(moov)
    requires FirstOfType(moov, 1, "trak") && moov[1].payload == Concat(trak)
    requires FirstOfType(trak, 1, "mdia") && trak[1].payload == Concat(mdia)
    requires FirstOfType(mdia, k, typ)
    ensures DescendTo(Concat(file), MdiaPath(typ)) == Ok(mdia[k])
  {
    var p2, p3: seq<string> := ["trak", "mdia", typ], ["mdia", typ];
    assert MdiaPath(typ)[1..] == p2 && p2[1..] == p3 && p3[1..] == [typ];
    Inward(file, 1, moov, MdiaPath(typ));
    Inward(moov, 1, trak, p2);
    Inward(trak, 1, mdia, p3);
    AllPartsFit(mdia);
    DescendStep(mdia, k, [typ]);
  }

  lemma MediaBoxesAreFound(p: Parts, samples: seq<Sample>)
    requires Typed(p) && |File(p, samples)| < U32Limit
    ensures DescendTo(File(p, samples), MdiaPath("mdhd")) == Ok(p.mdhd)
    ensures DescendTo(File(p, samples), MdiaPath("hdlr")) == Ok(p.hdlr)
  {
    var off := ChunkOffset(p, samples);
    var file, moov, trak := FileBoxes(p, samples), MoovBoxes(p, samples, off), TrakBoxes(p, samples, off);
    var mdia := MdiaBoxes(p, samples, off);
    assert FirstOfType(file, 1, "moov") by { assert "ftyp"[0] == 'f' && "moov"[0] == 'm'; }
    assert FirstOfType(mdia, 1, "hdlr") by { assert "mdhd"[0] == 'm' && "hdlr"[0] == 'h'; }
    ContainerOrder(p, samples, off);
    FourDeep(file, moov, trak, mdia, 0, "mdhd");
    FourDeep(file, moov, trak, mdia, 1, "hdlr");
  }

  lemma DescriptionIsFound(p: Parts, samples: seq<Sample>)
    requires Typed(p) && |File(p, samples)| < U32Limit
    ensures DescendTo(File(p, samples), Path("stsd")) == Ok(p.stsd)
  {
    var off := ChunkOffset(p, samples);
    var file, moov, trak := FileBoxes(p, samples), MoovBoxes(p, samples, off), TrakBoxes(p, samples, off);
    var mdia, minf, stbl := MdiaBoxes(p, samples, off), MinfBoxes(p, samples, off), StblBoxes(p, samples, off);
    assert FirstOfType(file, 1, "moov") by { assert "ftyp"[0] == 'f' && "moov"[0] == 'm'; }
    ContainerOrder(p, samples, off);
    SixDeep(file, moov, trak, mdia, minf, stbl, 0, "stsd");
  }

  // --------------------------------------------------------------- the written file

  lemma OrderPasses(p: Parts, samples: seq<Sample>, spare: seq<Byte>, ticks: nat)
    requires Headed(p, ticks) && |File(p, samples)| < U32Limit
    ensures CheckOrder(File(p, samples), spare) == None
  {
    var boxes := FileBoxes(p, samples);
    AllPartsFit(boxes);
    WrittenScans(boxes);
    ReadsFront(p.ftyp.payload, Beyond(File(p, samples), ["ftyp"]) + spare, 0, "isom");
  }

  lemma HandlerPasses(p: Parts, samples: seq<Sample>, spare: seq<Byte>, ticks: nat)
    requires Headed(p, ticks) && |File(p, samples)| < U32Limit
    ensures CheckHandler(File(p, samples), spare) == None
  {
    MediaBoxesAreFound(p, samples);
    ReadsFront(p.hdlr.payload, Beyond(File(p, samples), MdiaPath("hdlr")) + spare, 8, "vide");
  }

  lemma EntryPasses(p: Parts, samples: seq<Sample>, spare: seq<Byte>, ticks: nat)
    requires Headed(p, ticks) && |File(p, samples)| < U32Limit
    ensures CheckEntry(File(p, samples), spare) == None
  {
    DescriptionIsFound(p, samples);
    EntrySize(Beyond(File(p, samples), Path("stsd")) + spare);
  }

  /** At 600 ticks a second, 0.9 to 1.1 seconds are 540 to 660 ticks. */
  lemma DurationPassesIff(p: Parts, samples: seq<Sample>, spare: seq<Byte>, ticks: nat)
    requires Headed(p, ticks) && |File(p, samples)| < U32Limit
    ensures CheckDuration(File(p, samples), spare)
            == if ticks == 0 then Some(NoDuration) else if 540 <= ticks <= 660 then None else Some(WrongDuration)
  {
    var more := Beyond(File(p, samples), MdiaPath("mdhd")) + spare;
    MediaBoxesAreFound(p, samples);
    SliceOfFront(p.mdhd.payload, more, 12, 16);
    SliceOfFront(p.mdhd.payload, more, 16, 20);
  }

  function Expected(samples: seq<Sample>, ticks: nat, size: nat, all: bool): Result<Walked, Fault> {
    if ticks == 0 then Err(NoDuration)
    else if ticks < 540 || ticks > 660 then Err(WrongDuration)
    else if |samples| != 12 then Err(Samples(WrongCount))
    else if |Flatten(samples)| < 8 then Err(Samples(NotAtMdat))
    else if all then Ok(Walked(samples, size))
    else Err(Samples(NotDecodable))
  }

  lemma HeadedPassesIff(p: Parts, samples: seq<Sample>, spare: seq<Byte>, decodes: Sample -> bool, ticks: nat)
    requires Headed(p, ticks) && |File(p, samples)| < U32Limit
    ensures VerifyMp4(File(p, samples), spare, decodes)
            == Expected(samples, ticks, |File(p, samples)|, forall j :: 0 <= j < |samples| ==> decodes(samples[j]))
  {
    OrderPasses(p, samples, spare, ticks);
    HandlerPasses(p, samples, spare, ticks);
    EntryPasses(p, samples, spare, ticks);
    DurationPassesIff(p, samples, spare, ticks);
    VerifiedIff(p, samples, spare, decodes);
  }

  /** The whole verifier on the whole writer, for every list of samples whose file stays
      under 2^32 bytes. The file passes exactly when the samples are twelve, hold eight
      bytes between them and each decodes; the walk then visits exactly those samples
      and ends at the end of the file. With eleven or thirteen the duration still
      passes and the count does not; the duration field wraps at 2^32 ticks. */
  lemma FixturePassesIff(samples: seq<Sample>, spare: seq<Byte>, decodes: Sample -> bool)
    requires |File(FixtureParts(|samples|), samples)| < U32Limit
    ensures VerifyMp4(File(FixtureParts(|samples|), samples), spare, decodes)
            == Expected(samples, |samples| * 50 % U32Limit, |File(FixtureParts(|samples|), samples)|,
                        forall j :: 0 <= j < |samples| ==> decodes(samples[j]))
  {
    FixtureIsHeaded(|samples|);
    HeadedPassesIff(FixtureParts(|samples|), samples, spare, decodes, |samples| * 50 % U32Limit);
  }
}
