/** The EXIF segment: two TIFF directories and one data area (section 2 of TIFF
    6.0), laid out by explicit offsets, and the independent parser of them. */
module Exif {
  import opened Wrappers
  import opened Bytes

  type Half = x: int | 0 <= x < U16Limit
  type Word = x: int | 0 <= x < U32Limit

  const GpsTag: Half := 0x8825

  /** A value that fits the 4-byte field, one kept in the data area, or the
      offset of the other directory. */
  datatype Content = Inline(field: seq<Byte>) | Payload(data: seq<Byte>) | Pointer

  datatype Entry = Entry(tag: Half, typ: Half, count: Word, content: Content)

  /** Bytes of a value, for the five field types the parser knows. */
  function SizeOf(typ: int, count: nat): Option<nat> {
    if typ == 1 || typ == 2 then Some(count)
    else if typ == 3 then Some(2 * count)
    else if typ == 4 then Some(4 * count)
    else if typ == 5 then Some(8 * count)
    else None
  }

  /** Type, count and content agree, as the entry constructors make them. */
  predicate Honest(e: Entry) {
    && SizeOf(e.typ, e.count).Some?
    && var size := SizeOf(e.typ, e.count).value;
       match e.content
       case Inline(f) => |f| == 4 && size <= 4
       case Payload(d) => |d| == size > 4
       case Pointer => size == 4
  }

  predicate AllHonest(es: seq<Entry>) { forall i :: 0 <= i < |es| ==> Honest(es[i]) }

  predicate Ascending(es: seq<Entry>) { forall i, j :: 0 <= i < j < |es| ==> es[i].tag < es[j].tag }

  // --------------------------------------------------------------------- layout

  /** A payload with the zero byte that keeps the data area even. */
  function Padded(c: Content): seq<Byte> { if c.Payload? then c.data + Pad(|c.data|) else [] }

  /** The payloads of the first n entries. */
  function Data(es: seq<Entry>, n: nat): seq<Byte>
    requires n <= |es|
    decreases n, |es|
  {
    if n == 0 then [] else Data(es, n - 1) + Padded(es[n - 1].content)
  }

  /** Where the payload of entry i goes when the data starts at base. */
  function Place(es: seq<Entry>, base: nat, i: nat): nat
    requires i <= |es|
  {
    base + |Data(es, i)|
  }

  function Field(c: Content, place: int, gps: int): (f: seq<Byte>)
    ensures c.Inline? || |f| == 4
  {
    match c
    case Pointer => Be32(gps)
    case Payload(_) => Be32(place)
    case Inline(f) => f
  }

  function EntryBytes(e: Entry, place: int, gps: int): (b: seq<Byte>)
    ensures Honest(e) ==> |b| == 12
  {
    Be16(e.tag) + Be16(e.typ) + Be32(e.count) + Field(e.content, place, gps)
  }

  /** The first n entries, each with the place of its payload. */
  function Entries(es: seq<Entry>, base: nat, gps: int, n: nat): (b: seq<Byte>)
    requires AllHonest(es) && n <= |es|
    ensures |b| == 12 * n
    decreases n, |es|
  {
    if n == 0 then [] else Entries(es, base, gps, n - 1) + EntryBytes(es[n - 1], Place(es, base, n - 1), gps)
  }

  function IfdLength(n: nat): nat { 2 + 12 * n + 4 }

  function IfdBytes(es: seq<Entry>, base: nat, gps: int): (b: seq<Byte>)
    requires AllHonest(es)
    ensures |b| == IfdLength(|es|)
  {
    Be16(|es|) + Entries(es, base, gps, |es|) + Be32(0)
  }

  function GpsOffset(ifd0: seq<Entry>): nat { 8 + IfdLength(|ifd0|) }

  function DataOffset(ifd0: seq<Entry>, gps: seq<Entry>): nat { GpsOffset(ifd0) + IfdLength(|gps|) }

  function DataEnd(ifd0: seq<Entry>, gps: seq<Entry>): nat { Place(ifd0, DataOffset(ifd0, gps), |ifd0|) }

  function TiffHeader(): (b: seq<Byte>)
    ensures |b| == 8
  {
    Chars("MM") + Be16(0x002A) + Be32(8)
  }

  function Tiff(ifd0: seq<Entry>, gps: seq<Entry>): seq<Byte>
    requires AllHonest(ifd0) && AllHonest(gps)
  {
    TiffHeader() + IfdBytes(ifd0, DataOffset(ifd0, gps), GpsOffset(ifd0)) + IfdBytes(gps, DataEnd(ifd0, gps), 0)
    + Data(ifd0, |ifd0|) + Data(gps, |gps|)
  }

  function ExifMark(): (b: seq<Byte>)
    ensures |b| == 6
  {
    Chars("Exif") + [0, 0]
  }

  /** buildEXIF, for any two directories. */
  function Build(ifd0: seq<Entry>, gps: seq<Entry>): seq<Byte>
    requires AllHonest(ifd0) && AllHonest(gps)
  {
    ExifMark() + Tiff(ifd0, gps)
  }

  // -------------------------------------------------------------------- parsing

  /** BoundsPanic is no error value of the source: an offset plus a size that wraps
      past 2^32 makes a slice end before it starts, which panics. */
  datatype ExifError =
    | NotExif | NotBigEndian | IfdPastEnd | EntryPastEnd | NotAscending | BadType | ValuePastEnd | NoGps | BoundsPanic

  /** The variables of the directory loop: the last tag, the values by tag, and
      the GPS pointer seen. */
  datatype Ifd = Ifd(prev: int, values: map<int, seq<Byte>>, gps: nat)

  datatype Dump = Dump(ifd0: map<int, seq<Byte>>, gps: map<int, seq<Byte>>)

  /** The raw value of the entry at p, whose size is known. */
  function RawValue(t: seq<Byte>, p: nat, size: nat): Result<seq<Byte>, ExifError>
    requires p + 12 <= |t|
  {
    if size <= 4 then Ok(t[p + 8..p + 8 + size])
    else
      var o := U32(t[p + 8..p + 12]);
      if o + size > |t| then Err(ValuePastEnd)
      else if o + size >= U32Limit then Err(BoundsPanic)
      else Ok(t[o..o + size])
  }

  function Extend(acc: Ifd, tag: int, v: seq<Byte>, field: nat): Ifd {
    Ifd(tag, acc.values[tag := v], if tag == GpsTag then field else acc.gps)
  }

  /** One turn of the directory loop; sizes are 32-bit products. */
  function ReadEntry(t: seq<Byte>, p: nat, acc: Ifd): Result<Ifd, ExifError> {
    if p + 12 > |t| then Err(EntryPastEnd)
    else
      var tag := U16(t[p..p + 2]);
      if tag <= acc.prev then Err(NotAscending)
      else
        match SizeOf(U16(t[p + 2..p + 4]), U32(t[p + 4..p + 8]))
        case None => Err(BadType)
        case Some(size) =>
          match RawValue(t, p, size % U32Limit)
          case Err(e) => Err(e)
          case Ok(v) => Ok(Extend(acc, tag, v, U32(t[p + 8..p + 12])))
  }

  /** A loop that stops at its first error. */
  function Iterate<S, E>(step: (nat, S) -> Result<S, E>, i: nat, n: nat, s: S): Result<S, E>
    requires i <= n
    decreases n - i
  {
    if i == n then Ok(s)
    else
      match step(i, s)
      case Err(e) => Err(e)
      case Ok(next) => Iterate(step, i + 1, n, next)
  }

  const Start := Ifd(-1, map[], 0)

  /** The loop body over the entries from p on. */
  function Turn(t: seq<Byte>, p: nat): (nat, Ifd) -> Result<Ifd, ExifError> {
    (i: nat, acc: Ifd) => ReadEntry(t, p + 12 * i, acc)
  }

  function ReadIfd(t: seq<Byte>, off: nat): Result<Ifd, ExifError> {
    if off + 2 > |t| then Err(IfdPastEnd)
    else if off + 2 >= U32Limit then Err(BoundsPanic)
    else Iterate(Turn(t, off + 2), 0, U16(t[off..off + 2]), Start)
  }

  function ReadTiff(t: seq<Byte>): Result<Dump, ExifError>
    requires |t| >= 8
  {
    match ReadIfd(t, U32(t[4..8]))
    case Err(e) => Err(e)
    case Ok(first) =>
      if first.gps == 0 then Err(NoGps)
      else
        match ReadIfd(t, first.gps)
        case Err(e) => Err(e)
        case Ok(second) => Ok(Dump(first.values, second.values))
  }

  function Parse(b: seq<Byte>): Result<Dump, ExifError> {
    if |b| < 14 || b[..6] != ExifMark() then Err(NotExif)
    else
      var t := b[6..];
      if Text(t[..2]) != "MM" || U16(t[2..4]) != 0x002A then Err(NotBigEndian) else ReadTiff(t)
  }

  // ------------------------------------------------------- what a directory means

  /** The bytes a directory entry stands for. */
  function Meaning(e: Entry, gps: int): seq<Byte> {
    match e.content
    case Inline(f) => if Honest(e) then f[..SizeOf(e.typ, e.count).value] else f
    case Payload(d) => d
    case Pointer => Be32(gps)
  }

  /** The meanings of the first n entries by tag. */
  function Values(es: seq<Entry>, gps: int, n: nat): map<int, seq<Byte>>
    requires n <= |es|
    decreases n, |es|
  {
    if n == 0 then map[] else Values(es, gps, n - 1)[es[n - 1].tag := Meaning(es[n - 1], gps)]
  }

  lemma {:induction false} ValueAt(es: seq<Entry>, gps: int, n: nat, i: nat)
    requires Ascending(es) && i < n <= |es|
    ensures es[i].tag in Values(es, gps, n) && Values(es, gps, n)[es[i].tag] == Meaning(es[i], gps)
    decreases n
  {
    if i < n - 1 { ValueAt(es, gps, n - 1, i); }
  }

  lemma {:induction false} EntryWithTag(es: seq<Entry>, gps: int, n: nat, tag: int) returns (i: nat)
    requires n <= |es| && tag in Values(es, gps, n)
    ensures i < n && es[i].tag == tag
    decreases n
  {
    if es[n - 1].tag == tag { i := n - 1; } else { i := EntryWithTag(es, gps, n - 1, tag); }
  }

  /** In an ascending directory the values are exactly the entries' own. */
  lemma ValuesAre(es: seq<Entry>, gps: int)
    requires Ascending(es)
    ensures forall tag :: tag in Values(es, gps, |es|) ==> exists i :: 0 <= i < |es| && es[i].tag == tag
    ensures forall i :: 0 <= i < |es| ==>
              es[i].tag in Values(es, gps, |es|) && Values(es, gps, |es|)[es[i].tag] == Meaning(es[i], gps)
  {
    forall tag | tag in Values(es, gps, |es|) ensures exists i :: 0 <= i < |es| && es[i].tag == tag {
      var i := EntryWithTag(es, gps, |es|, tag);
    }
    forall i | 0 <= i < |es|
      ensures es[i].tag in Values(es, gps, |es|) && Values(es, gps, |es|)[es[i].tag] == Meaning(es[i], gps)
    {
      ValueAt(es, gps, |es|, i);
    }
  }

  // ------------------------------------------------------------- entry constructors

  /** A value of any length: in the field when it fits, padded with zeros, and in
      the data area when it does not. */
  function Stored(b: seq<Byte>): Content {
    if |b| <= 4 then Inline(b + Zeros(4 - |b|)) else Payload(b)
  }

  function Short(tag: Half, v: Half): Entry { Entry(tag, 3, 1, Inline(Be16(v) + [0, 0])) }

  function Ascii(tag: Half, s: seq<Byte>): Entry
    requires |s| + 1 < U32Limit
  {
    Entry(tag, 2, |s| + 1, Stored(s + [0]))
  }

  function BytesEntry(tag: Half, b: seq<Byte>): Entry
    requires |b| < U32Limit
  {
    Entry(tag, 1, |b|, Stored(b))
  }

  /** Numerators and denominators in turn; without any there is no payload. */
  function Rationals(tag: Half, vals: seq<(Word, Word)>): Entry
    requires |vals| < U32Limit
  {
    Entry(tag, 5, |vals|, if vals == [] then Inline(Zeros(4)) else Payload(RationalBytes(vals)))
  }

  function RationalBytes(vals: seq<(Word, Word)>): (b: seq<Byte>)
    ensures |b| == 8 * |vals|
  {
    if vals == [] then [] else Be32(vals[0].0) + Be32(vals[0].1) + RationalBytes(vals[1..])
  }

  // The constructors make honest entries that mean the value they were given, so
  // that value is what the parser returns.

  lemma ShortIsHonest(tag: Half, v: Half, gps: int)
    ensures Honest(Short(tag, v)) && Meaning(Short(tag, v), gps) == Be16(v)
  {
    assert (Be16(v) + [0, 0])[..2] == Be16(v);
  }

  lemma AsciiIsHonest(tag: Half, s: seq<Byte>, gps: int)
    requires |s| + 1 < U32Limit
    ensures Honest(Ascii(tag, s)) && Meaning(Ascii(tag, s), gps) == s + [0]
  {
    StoredMeans(tag, 2, s + [0], gps);
  }

  lemma BytesAreHonest(tag: Half, b: seq<Byte>, gps: int)
    requires |b| < U32Limit
    ensures Honest(BytesEntry(tag, b)) && Meaning(BytesEntry(tag, b), gps) == b
  {
    StoredMeans(tag, 1, b, gps);
  }

  lemma RationalsAreHonest(tag: Half, vals: seq<(Word, Word)>, gps: int)
    requires |vals| < U32Limit
    ensures Honest(Rationals(tag, vals)) && Meaning(Rationals(tag, vals), gps) == RationalBytes(vals)
  {
    if vals == [] { assert RationalBytes(vals) == []; }
    EightEach(tag, |vals|, RationalBytes(vals), gps);
  }

  lemma EightEach(tag: Half, n: Word, d: seq<Byte>, gps: int)
    requires |d| == 8 * n
    ensures var e := Entry(tag, 5, n, if n == 0 then Inline(Zeros(4)) else Payload(d));
            Honest(e) && Meaning(e, gps) == d
  {
    assert Zeros(4)[..0] == [];
  }

  lemma StoredMeans(tag: Half, typ: Half, b: seq<Byte>, gps: int)
    requires (typ == 1 || typ == 2) && |b| < U32Limit
    ensures Honest(Entry(tag, typ, |b|, Stored(b))) && Meaning(Entry(tag, typ, |b|, Stored(b)), gps) == b
  {
    if |b| <= 4 { assert (b + Zeros(4 - |b|))[..|b|] == b; }
  }

  // ------------------------------------------------------------ bytes at an offset

  /** x stands in t at offset p. */
  ghost predicate At(t: seq<Byte>, p: nat, x: seq<Byte>) {
    exists before: seq<Byte>, after: seq<Byte> :: |before| == p && t == before + x + after
  }

  lemma AtSlice(t: seq<Byte>, p: nat, x: seq<Byte>)
    requires At(t, p, x)
    ensures p + |x| <= |t| && t[p..p + |x|] == x
  {
  }

  lemma AtSplit(t: seq<Byte>, p: nat, a: seq<Byte>, b: seq<Byte>)
    requires At(t, p, a + b)
    ensures At(t, p, a) && At(t, p + |a|, b)
  {
    var u, v :| |u| == p && t == u + (a + b) + v;
    assert t == u + a + (b + v) && t == (u + a) + b + v;
  }

  lemma AtInside(t: seq<Byte>, p: nat, x: seq<Byte>, q: nat, y: seq<Byte>)
    requires At(t, p, x) && At(x, q, y)
    ensures At(t, p + q, y)
  {
    var u, v :| |u| == p && t == u + x + v;
    var a, b :| |a| == q && x == a + y + b;
    assert t == (u + a) + y + (b + v);
  }

  lemma AtAppended(t: seq<Byte>, p: nat, x: seq<Byte>, more: seq<Byte>)
    requires At(t, p, x)
    ensures At(t + more, p, x)
  {
    var u, v :| |u| == p && t == u + x + v;
    assert t + more == u + x + (v + more);
  }

  lemma AtEnd(a: seq<Byte>, x: seq<Byte>)
    ensures At(a + x, |a|, x)
  {
    assert a + x == a + x + [];
  }

  // ----------------------------------------------------------- one entry, laid out

  /** Entry e stands at p, and its payload, if it has one, at place. */
  ghost predicate Laid(t: seq<Byte>, p: nat, e: Entry, place: nat, gps: int) {
    && p + 12 <= |t| && U16(t[p..p + 2]) == e.tag && U16(t[p + 2..p + 4]) == e.typ && U32(t[p + 4..p + 8]) == e.count
    && t[p + 8..p + 12] == Field(e.content, place, gps)
    && At(t, place, Padded(e.content)) && place + |Padded(e.content)| < U32Limit
  }

  lemma FieldsAt(t: seq<Byte>, p: nat, a: seq<Byte>, b: seq<Byte>, c: seq<Byte>, d: seq<Byte>)
    requires |a| == 2 && |b| == 2 && |c| == 4 && |d| == 4 && At(t, p, a + b + c + d)
    ensures p + 12 <= |t|
    ensures t[p..p + 2] == a && t[p + 2..p + 4] == b && t[p + 4..p + 8] == c && t[p + 8..p + 12] == d
  {
    AtSplit(t, p, a + b + c, d);
    AtSplit(t, p, a + b, c);
    AtSplit(t, p, a, b);
    AtSlice(t, p, a);
    AtSlice(t, p + 2, b);
    AtSlice(t, p + 4, c);
    AtSlice(t, p + 8, d);
  }

  lemma HalfReads(x: Half)
    ensures U16(Be16(x)) == x
  {
    Be16Reads(x);
  }

  lemma WordReads(x: Word)
    ensures U32(Be32(x)) == x
  {
    Be32Reads(x);
  }

  lemma FieldsRead(t: seq<Byte>, p: nat, e: Entry, place: nat, gps: int)
    requires Honest(e) && At(t, p, EntryBytes(e, place, gps))
    ensures p + 12 <= |t| && U16(t[p..p + 2]) == e.tag && U16(t[p + 2..p + 4]) == e.typ
            && U32(t[p + 4..p + 8]) == e.count
    ensures t[p + 8..p + 12] == Field(e.content, place, gps)
  {
    FieldsAt(t, p, Be16(e.tag), Be16(e.typ), Be32(e.count), Field(e.content, place, gps));
    HalfReads(e.tag);
    HalfReads(e.typ);
    WordReads(e.count);
  }

  lemma EntryIsLaid(t: seq<Byte>, p: nat, e: Entry, place: nat, gps: int)
    requires Honest(e) && At(t, p, EntryBytes(e, place, gps)) && At(t, place, Padded(e.content))
    requires place + |Padded(e.content)| < U32Limit
    ensures Laid(t, p, e, place, gps)
  {
    FieldsRead(t, p, e, place, gps);
  }

  lemma PayloadValue(t: seq<Byte>, p: nat, d: seq<Byte>, place: nat)
    requires |d| > 4 && p + 12 <= |t| && t[p + 8..p + 12] == Be32(place) && At(t, place, d + Pad(|d|))
    requires place + |d| < U32Limit
    ensures RawValue(t, p, |d|) == Ok(d)
  {
    WordReads(place);
    AtSplit(t, place, d, Pad(|d|));
    AtSlice(t, place, d);
  }

  lemma InlineValue(t: seq<Byte>, p: nat, e: Entry, place: nat, gps: int)
    requires Honest(e) && !e.content.Payload? && p + 12 <= |t| && t[p + 8..p + 12] == Field(e.content, place, gps)
    ensures RawValue(t, p, SizeOf(e.typ, e.count).value) == Ok(Meaning(e, gps))
  {
    var size, field := SizeOf(e.typ, e.count).value, t[p + 8..p + 12];
    assert t[p + 8..p + 8 + size] == field[..size];
    assert size == 4 ==> field[..size] == field;
  }

  function FieldValue(c: Content, place: int, gps: int): nat {
    var f := Field(c, place, gps);
    if |f| == 4 then U32(f) else 0
  }

  /** A laid-out entry is read back whole, wherever its value was put. */
  lemma EntryReads(t: seq<Byte>, p: nat, e: Entry, place: nat, gps: int, acc: Ifd)
    requires Honest(e) && acc.prev < e.tag && Laid(t, p, e, place, gps)
    ensures ReadEntry(t, p, acc) == Ok(Extend(acc, e.tag, Meaning(e, gps), FieldValue(e.content, place, gps)))
  {
    var size := SizeOf(e.typ, e.count).value;
    if e.content.Payload? { PayloadValue(t, p, e.content.data, place); } else { InlineValue(t, p, e, place, gps); }
    assert size % U32Limit == size;
  }

  // ------------------------------------------------------------ a directory, laid out

  lemma {:induction false} EntryAt(es: seq<Entry>, base: nat, gps: int, n: nat, i: nat)
    requires AllHonest(es) && i < n <= |es|
    ensures At(Entries(es, base, gps, n), 12 * i, EntryBytes(es[i], Place(es, base, i), gps))
    decreases n
  {
    var last := EntryBytes(es[n - 1], Place(es, base, n - 1), gps);
    if i == n - 1 {
      AtEnd(Entries(es, base, gps, n - 1), last);
    } else {
      EntryAt(es, base, gps, n - 1, i);
      AtAppended(Entries(es, base, gps, n - 1), 12 * i, EntryBytes(es[i], Place(es, base, i), gps), last);
    }
  }

  lemma {:induction false} PayloadAt(es: seq<Entry>, n: nat, i: nat)
    requires i < n <= |es|
    ensures At(Data(es, n), |Data(es, i)|, Padded(es[i].content))
    ensures |Data(es, i)| + |Padded(es[i].content)| <= |Data(es, n)|
    decreases n
  {
    if i == n - 1 {
      AtEnd(Data(es, n - 1), Padded(es[i].content));
    } else {
      PayloadAt(es, n - 1, i);
      AtAppended(Data(es, n - 1), |Data(es, i)|, Padded(es[i].content), Padded(es[n - 1].content));
    }
  }

  /** Every entry of a directory written at p, with its data at base, is laid out. */
  lemma WrittenIsLaid(t: seq<Byte>, p: nat, es: seq<Entry>, base: nat, gps: int, i: nat)
    requires AllHonest(es) && base + |Data(es, |es|)| < U32Limit && i < |es|
    requires At(t, p, Entries(es, base, gps, |es|)) && At(t, base, Data(es, |es|))
    ensures Laid(t, p + 12 * i, es[i], Place(es, base, i), gps)
  {
    EntryAt(es, base, gps, |es|, i);
    AtInside(t, p, Entries(es, base, gps, |es|), 12 * i, EntryBytes(es[i], Place(es, base, i), gps));
    PayloadAt(es, |es|, i);
    AtInside(t, base, Data(es, |es|), |Data(es, i)|, Padded(es[i].content));
    EntryIsLaid(t, p + 12 * i, es[i], Place(es, base, i), gps);
  }

  /** The loop's variables after n entries. */
  function After(es: seq<Entry>, base: nat, gps: int, n: nat): Ifd
    requires n <= |es|
    decreases n, |es|
  {
    if n == 0 then Start
    else
      var e := es[n - 1];
      Extend(After(es, base, gps, n - 1), e.tag, Meaning(e, gps), FieldValue(e.content, Place(es, base, n - 1), gps))
  }

  lemma StepReads(t: seq<Byte>, p: nat, es: seq<Entry>, base: nat, gps: int, i: nat)
    requires i < |es| && Honest(es[i]) && Laid(t, p, es[i], Place(es, base, i), gps)
    requires After(es, base, gps, i).prev < es[i].tag
    ensures ReadEntry(t, p, After(es, base, gps, i)) == Ok(After(es, base, gps, i + 1))
  {
    EntryReads(t, p, es[i], Place(es, base, i), gps, After(es, base, gps, i));
  }

  lemma PrevIsBelow(es: seq<Entry>, base: nat, gps: int, i: nat)
    requires Ascending(es) && i < |es|
    ensures After(es, base, gps, i).prev < es[i].tag
  {
    assert After(es, base, gps, i).prev == if i == 0 then -1 else es[i - 1].tag;
  }

  lemma TurnIs(t: seq<Byte>, p: nat, i: nat, acc: Ifd)
    ensures Turn(t, p)(i, acc) == ReadEntry(t, p + 12 * i, acc)
  {
  }

  lemma TurnReads(t: seq<Byte>, p: nat, es: seq<Entry>, base: nat, gps: int, i: nat)
    requires i < |es| && Honest(es[i]) && Laid(t, p + 12 * i, es[i], Place(es, base, i), gps)
    requires After(es, base, gps, i).prev < es[i].tag
    ensures Turn(t, p)(i, After(es, base, gps, i)) == Ok(After(es, base, gps, i + 1))
  {
    StepReads(t, p + 12 * i, es, base, gps, i);
    TurnIs(t, p, i, After(es, base, gps, i));
  }

  /** What the parser keeps of a written directory: its 16-bit count turns a full
      one into an empty one. */
  function Kept(es: seq<Entry>, base: nat, gps: int): Ifd {
    if |es| == U16Limit then Start else After(es, base, gps, |es|)
  }

  /** A loop whose turn i takes states(i) to states(i + 1). */
  lemma {:induction false} Iterates<S(!new), E(!new)>(step: (nat, S) -> Result<S, E>, states: nat -> S, i: nat, n: nat)
    requires i <= n && forall j: nat :: i <= j < n ==> step(j, states(j)) == Ok(states(j + 1))
    ensures Iterate(step, i, n, states(i)) == Ok(states(n))
    decreases n - i
  {
    if i < n { Iterates(step, states, i + 1, n); }
  }

  /** The loop's variables by turn. */
  function States(es: seq<Entry>, base: nat, gps: int): nat -> Ifd {
    (i: nat) => if i <= |es| then After(es, base, gps, i) else Start
  }

  lemma EntryRead(t: seq<Byte>, p: nat, es: seq<Entry>, base: nat, gps: int, i: nat)
    requires AllHonest(es) && Ascending(es) && base + |Data(es, |es|)| < U32Limit && i < |es|
    requires At(t, p, Entries(es, base, gps, |es|)) && At(t, base, Data(es, |es|))
    ensures Turn(t, p)(i, States(es, base, gps)(i)) == Ok(States(es, base, gps)(i + 1))
  {
    WrittenIsLaid(t, p, es, base, gps, i);
    PrevIsBelow(es, base, gps, i);
    TurnReads(t, p, es, base, gps, i);
  }

  lemma EntriesRead(t: seq<Byte>, p: nat, es: seq<Entry>, base: nat, gps: int)
    requires AllHonest(es) && Ascending(es) && base + |Data(es, |es|)| < U32Limit
    requires At(t, p, Entries(es, base, gps, |es|)) && At(t, base, Data(es, |es|))
    ensures Iterate(Turn(t, p), 0, |es|, Start) == Ok(After(es, base, gps, |es|))
  {
    forall j: nat | 0 <= j < |es|
      ensures Turn(t, p)(j, States(es, base, gps)(j)) == Ok(States(es, base, gps)(j + 1))
    {
      EntryRead(t, p, es, base, gps, j);
    }
    Iterates(Turn(t, p), States(es, base, gps), 0, |es|);
  }

  lemma CountAt(t: seq<Byte>, off: nat, n: nat, entries: seq<Byte>, end: seq<Byte>)
    requires At(t, off, Be16(n) + entries + end)
    ensures off + 2 <= |t| && U16(t[off..off + 2]) == n % U16Limit && At(t, off + 2, entries)
  {
    AtSplit(t, off, Be16(n) + entries, end);
    AtSplit(t, off, Be16(n), entries);
    AtSlice(t, off, Be16(n));
    Be16Reads(n);
  }

  lemma {:induction false} AscendingIsShort(es: seq<Entry>, n: nat)
    requires Ascending(es) && n < |es|
    ensures es[n].tag >= n
    decreases n
  {
    if n > 0 { AscendingIsShort(es, n - 1); }
  }

  lemma CountedReads(t: seq<Byte>, off: nat, n: nat, r: Result<Ifd, ExifError>)
    requires off + 2 <= |t| && off + 2 < U32Limit && U16(t[off..off + 2]) == n
             && Iterate(Turn(t, off + 2), 0, n, Start) == r
    ensures ReadIfd(t, off) == r
  {
  }

  /** A count of n and the entries of a directory stand at off. */
  ghost predicate CountedAt(t: seq<Byte>, off: nat, n: nat, es: seq<Entry>, base: nat, gps: int)
    requires AllHonest(es)
  {
    off + 2 <= |t| && U16(t[off..off + 2]) == n && At(t, off + 2, Entries(es, base, gps, |es|))
  }

  lemma IfdAt(t: seq<Byte>, off: nat, es: seq<Entry>, base: nat, gps: int)
    requires AllHonest(es) && At(t, off, IfdBytes(es, base, gps))
    ensures CountedAt(t, off, |es| % U16Limit, es, base, gps)
  {
    CountAt(t, off, |es|, Entries(es, base, gps, |es|), Be32(0));
  }

  lemma CountedIfdReads(t: seq<Byte>, off: nat, es: seq<Entry>, base: nat, gps: int)
    requires AllHonest(es) && Ascending(es) && base + |Data(es, |es|)| < U32Limit
    requires off + 2 < U32Limit && CountedAt(t, off, |es|, es, base, gps) && At(t, base, Data(es, |es|))
    ensures ReadIfd(t, off) == Ok(After(es, base, gps, |es|))
  {
    EntriesRead(t, off + 2, es, base, gps);
    CountedReads(t, off, |es|, Ok(After(es, base, gps, |es|)));
  }

  lemma SmallCount(n: nat)
    requires n < U16Limit
    ensures n % U16Limit == n
  {
  }

  lemma ShortIfdReads(t: seq<Byte>, off: nat, es: seq<Entry>, base: nat, gps: int)
    requires AllHonest(es) && Ascending(es) && base + |Data(es, |es|)| < U32Limit && |es| < U16Limit
    requires At(t, off, IfdBytes(es, base, gps)) && At(t, base, Data(es, |es|)) && off + 2 < U32Limit
    ensures ReadIfd(t, off) == Ok(After(es, base, gps, |es|))
  {
    IfdAt(t, off, es, base, gps);
    SmallCount(|es|);
    CountedIfdReads(t, off, es, base, gps);
  }

  lemma FullIfdReads(t: seq<Byte>, off: nat, es: seq<Entry>, base: nat, gps: int)
    requires AllHonest(es) && |es| == U16Limit && At(t, off, IfdBytes(es, base, gps)) && off + 2 < U32Limit
    ensures ReadIfd(t, off) == Ok(Start)
  {
    IfdAt(t, off, es, base, gps);
    CountedReads(t, off, 0, Ok(Start));
  }

  lemma IfdReads(t: seq<Byte>, off: nat, es: seq<Entry>, base: nat, gps: int)
    requires AllHonest(es) && Ascending(es) && base + |Data(es, |es|)| < U32Limit
    requires At(t, off, IfdBytes(es, base, gps)) && At(t, base, Data(es, |es|)) && off + 2 < U32Limit
    ensures ReadIfd(t, off) == Ok(Kept(es, base, gps))
  {
    if es != [] { AscendingIsShort(es, |es| - 1); }
    if |es| < U16Limit { ShortIfdReads(t, off, es, base, gps); } else { FullIfdReads(t, off, es, base, gps); }
  }

  // -------------------------------------------------------------- the GPS pointer

  lemma {:induction false} AfterIs(es: seq<Entry>, base: nat, gps: int, n: nat)
    requires n <= |es|
    ensures After(es, base, gps, n).values == Values(es, gps, n)
    decreases n
  {
    if n > 0 { AfterIs(es, base, gps, n - 1); }
  }

  lemma {:induction false} NoPointerSeen(es: seq<Entry>, base: nat, gps: int, n: nat)
    requires n <= |es| && forall i :: 0 <= i < n ==> es[i].tag != GpsTag
    ensures After(es, base, gps, n).gps == 0
    decreases n
  {
    if n > 0 { NoPointerSeen(es, base, gps, n - 1); }
  }

  /** Of ascending tags one at most is the GPS pointer's, and its offset is seen. */
  lemma {:induction false} PointerSeen(es: seq<Entry>, base: nat, gps: nat, k: nat, n: nat)
    requires Ascending(es) && k < n <= |es| && es[k].tag == GpsTag && es[k].content.Pointer? && gps < U32Limit
    ensures After(es, base, gps, n).gps == gps
    decreases n
  {
    if n == k + 1 { WordReads(gps); } else { PointerSeen(es, base, gps, k, n - 1); }
  }

  // ------------------------------------------------------------------ the segment

  predicate WellFormed(ifd0: seq<Entry>, gps: seq<Entry>) {
    AllHonest(ifd0) && AllHonest(gps) && Ascending(ifd0) && Ascending(gps)
  }

  /** Where the two directories and their data stand in the TIFF bytes. */
  ghost predicate Shape(t: seq<Byte>, ifd0: seq<Entry>, gps: seq<Entry>)
    requires AllHonest(ifd0) && AllHonest(gps)
  {
    && |t| == DataEnd(ifd0, gps) + |Data(gps, |gps|)|
    && At(t, 0, TiffHeader()) && At(t, 8, IfdBytes(ifd0, DataOffset(ifd0, gps), GpsOffset(ifd0)))
    && At(t, GpsOffset(ifd0), IfdBytes(gps, DataEnd(ifd0, gps), 0))
    && At(t, DataOffset(ifd0, gps), Data(ifd0, |ifd0|)) && At(t, DataEnd(ifd0, gps), Data(gps, |gps|))
  }

  lemma FiveParts(head: seq<Byte>, a: seq<Byte>, b: seq<Byte>, d: seq<Byte>, e: seq<Byte>)
    ensures var t := head + a + b + d + e;
            && |t| == |head| + |a| + |b| + |d| + |e|
            && At(t, 0, head) && At(t, |head|, a) && At(t, |head| + |a|, b)
            && At(t, |head| + |a| + |b|, d) && At(t, |head| + |a| + |b| + |d|, e)
  {
    var t := head + a + b + d + e;
    assert t == [] + t + [];
    AtSplit(t, 0, head + a + b + d, e);
    AtSplit(t, 0, head + a + b, d);
    AtSplit(t, 0, head + a, b);
    AtSplit(t, 0, head, a);
  }

  lemma TiffShape(ifd0: seq<Entry>, gps: seq<Entry>)
    requires AllHonest(ifd0) && AllHonest(gps)
    ensures Shape(Tiff(ifd0, gps), ifd0, gps)
  {
    FiveParts(TiffHeader(), IfdBytes(ifd0, DataOffset(ifd0, gps), GpsOffset(ifd0)),
              IfdBytes(gps, DataEnd(ifd0, gps), 0), Data(ifd0, |ifd0|), Data(gps, |gps|));
  }

  lemma HeaderReads(t: seq<Byte>)
    requires At(t, 0, TiffHeader())
    ensures |t| >= 8 && Text(t[..2]) == "MM" && U16(t[2..4]) == 0x002A && U32(t[4..8]) == 8
  {
    AtSplit(t, 0, Chars("MM") + Be16(0x002A), Be32(8));
    AtSplit(t, 0, Chars("MM"), Be16(0x002A));
    AtSlice(t, 0, Chars("MM"));
    AtSlice(t, 2, Be16(0x002A));
    AtSlice(t, 4, Be32(8));
    assert t[0..2] == t[..2];
    TextOfChars("MM");
    Be16Reads(0x002A);
    Be32Reads(8);
  }

  lemma MarkedParses(t: seq<Byte>)
    requires At(t, 0, TiffHeader())
    ensures |t| >= 8 && U32(t[4..8]) == 8 && Parse(ExifMark() + t) == ReadTiff(t)
  {
    HeaderReads(t);
    var b := ExifMark() + t;
    assert b[..6] == ExifMark() && b[6..] == t;
  }

  lemma TiffReads(t: seq<Byte>, first: Ifd, second: Ifd)
    requires |t| >= 8 && ReadIfd(t, U32(t[4..8])) == Ok(first)
    requires first.gps != 0 ==> ReadIfd(t, first.gps) == Ok(second)
    ensures ReadTiff(t) == if first.gps == 0 then Err(NoGps) else Ok(Dump(first.values, second.values))
  {
  }

  lemma ShapeReads(t: seq<Byte>, ifd0: seq<Entry>, gps: seq<Entry>)
    requires WellFormed(ifd0, gps) && Shape(t, ifd0, gps) && |t| < U32Limit
    ensures ReadIfd(t, 8) == Ok(Kept(ifd0, DataOffset(ifd0, gps), GpsOffset(ifd0)))
    ensures ReadIfd(t, GpsOffset(ifd0)) == Ok(Kept(gps, DataEnd(ifd0, gps), 0))
  {
    IfdReads(t, 8, ifd0, DataOffset(ifd0, gps), GpsOffset(ifd0));
    IfdReads(t, GpsOffset(ifd0), gps, DataEnd(ifd0, gps), 0);
  }

  lemma ShapeParses(t: seq<Byte>, ifd0: seq<Entry>, gps: seq<Entry>, k: nat)
    requires WellFormed(ifd0, gps) && Shape(t, ifd0, gps) && |t| < U32Limit
    requires k < |ifd0| && ifd0[k].tag == GpsTag && ifd0[k].content.Pointer?
    ensures Parse(ExifMark() + t)
            == if |ifd0| == U16Limit then Err(NoGps)
               else Ok(Dump(Values(ifd0, GpsOffset(ifd0), |ifd0|), Kept(gps, DataEnd(ifd0, gps), 0).values))
  {
    var base, g := DataOffset(ifd0, gps), GpsOffset(ifd0);
    MarkedParses(t);
    ShapeReads(t, ifd0, gps);
    AfterIs(ifd0, base, g, |ifd0|);
    PointerSeen(ifd0, base, g, k, |ifd0|);
    TiffReads(t, Kept(ifd0, base, g), Kept(gps, DataEnd(ifd0, gps), 0));
  }

  /** Every value of both directories is returned unchanged, exactly when neither
      directory is full: a directory of 65536 entries is written with count zero. */
  lemma ParsedIff(ifd0: seq<Entry>, gps: seq<Entry>, k: nat)
    requires WellFormed(ifd0, gps) && |Tiff(ifd0, gps)| < U32Limit
    requires k < |ifd0| && ifd0[k].tag == GpsTag && ifd0[k].content.Pointer?
    ensures Parse(Build(ifd0, gps))
            == if |ifd0| == U16Limit then Err(NoGps)
               else Ok(Dump(Values(ifd0, GpsOffset(ifd0), |ifd0|),
                            if |gps| == U16Limit then map[] else Values(gps, 0, |gps|)))
  {
    TiffShape(ifd0, gps);
    ShapeParses(Tiff(ifd0, gps), ifd0, gps, k);
    AfterIs(gps, DataEnd(ifd0, gps), 0, |gps|);
  }

  /** A directory with one entry for every tag there is: the GPS pointer at its own
      tag, and a number everywhere else. */
  function EveryTag(): (es: seq<Entry>)
    ensures |es| == U16Limit
  {
    seq(U16Limit, i requires 0 <= i < U16Limit => TagEntry(i))
  }

  function TagEntry(i: Half): Entry { if i == GpsTag then Entry(GpsTag, 4, 1, Pointer) else Short(i, 0) }

  lemma {:induction false} NoData(es: seq<Entry>, n: nat)
    requires n <= |es| && forall i :: 0 <= i < |es| ==> !es[i].content.Payload?
    ensures Data(es, n) == []
    decreases n
  {
    if n > 0 { NoData(es, n - 1); }
  }

  lemma EveryTagIsHonest()
    ensures AllHonest(EveryTag()) && Ascending(EveryTag()) && EveryTag()[GpsTag] == Entry(GpsTag, 4, 1, Pointer)
    ensures forall i :: 0 <= i < |EveryTag()| ==> !EveryTag()[i].content.Payload?
  {
    var es := EveryTag();
    forall i | 0 <= i < |es| ensures Honest(es[i]) && es[i].tag == i && !es[i].content.Payload? {
      assert es[i] == TagEntry(i);
      if i != GpsTag { ShortIsHonest(i, 0, 0); }
    }
  }

  lemma FullIsRefused(es: seq<Entry>, k: nat)
    requires AllHonest(es) && Ascending(es) && |es| == U16Limit && forall i :: 0 <= i < |es| ==> !es[i].content.Payload?
    requires k < |es| && es[k].tag == GpsTag && es[k].content.Pointer?
    ensures |Tiff(es, [])| < U32Limit && Parse(Build(es, [])) == Err(NoGps)
  {
    NoData(es, |es|);
    TiffShape(es, []);
    ParsedIff(es, [], k);
  }

  /** The failing input: that directory is well formed and far below 2^32 bytes, holds
      the GPS pointer, and is refused for want of one. */
  lemma FullDirectoryIsLost()
    ensures WellFormed(EveryTag(), []) && |Tiff(EveryTag(), [])| < U32Limit
    ensures EveryTag()[GpsTag] == Entry(GpsTag, 4, 1, Pointer)
    ensures Parse(Build(EveryTag(), [])) == Err(NoGps)
  {
    EveryTagIsHonest();
    FullIsRefused(EveryTag(), GpsTag);
  }

  /** Without a GPS pointer the segment is refused. */
  lemma PointerIsNeeded(ifd0: seq<Entry>, gps: seq<Entry>)
    requires WellFormed(ifd0, gps) && |Tiff(ifd0, gps)| < U32Limit
    requires forall i :: 0 <= i < |ifd0| ==> ifd0[i].tag != GpsTag
    ensures Parse(Build(ifd0, gps)) == Err(NoGps)
  {
    var t, base, g := Tiff(ifd0, gps), DataOffset(ifd0, gps), GpsOffset(ifd0);
    TiffShape(ifd0, gps);
    MarkedParses(t);
    ShapeReads(t, ifd0, gps);
    NoPointerSeen(ifd0, base, g, |ifd0|);
    TiffReads(t, Kept(ifd0, base, g), Start);
  }

  // --------------------------------------------------------------- the fixture itself

  function FixtureIfd0(): seq<Entry> {
    [Ascii(0x010F, Chars("Vizra")), Ascii(0x0110, Chars("fixturegen synthetic camera")), Short(0x0112, 6),
     Entry(GpsTag, 4, 1, Pointer)]
  }

  function FixtureGps(): seq<Entry> {
    [BytesEntry(0, [2, 3, 0, 0]), Ascii(1, Chars("N")), Rationals(2, [(51, 1), (28, 1), (4012, 100)]),
     Ascii(3, Chars("W")), Rationals(4, [(0, 1), (0, 1), (531, 100)]), BytesEntry(5, [0]),
     Rationals(6, [(4700, 100)])]
  }

  predicate IsSmall(e: Entry) { |Padded(e.content)| <= 64 }

  lemma {:induction false} DataIsSmall(es: seq<Entry>, n: nat)
    requires n <= |es| && forall i :: 0 <= i < |es| ==> IsSmall(es[i])
    ensures |Data(es, n)| <= 64 * n
    decreases n
  {
    if n > 0 { DataIsSmall(es, n - 1); }
  }

  lemma FixtureIfd0IsHonest()
    ensures AllHonest(FixtureIfd0()) && Ascending(FixtureIfd0())
    ensures forall i :: 0 <= i < 4 ==> IsSmall(FixtureIfd0()[i])
  {
    AsciiIsHonest(0x010F, Chars("Vizra"), 0);
    AsciiIsHonest(0x0110, Chars("fixturegen synthetic camera"), 0);
    ShortIsHonest(0x0112, 6, 0);
  }

  lemma RationalsAreSmall(tag: Half, vals: seq<(Word, Word)>)
    requires |vals| <= 7
    ensures Honest(Rationals(tag, vals)) && IsSmall(Rationals(tag, vals)) && Rationals(tag, vals).tag == tag
  {
    RationalsAreHonest(tag, vals, 0);
  }

  lemma BytesAreSmall(tag: Half, b: seq<Byte>)
    requires |b| <= 63
    ensures Honest(BytesEntry(tag, b)) && IsSmall(BytesEntry(tag, b)) && BytesEntry(tag, b).tag == tag
  {
    BytesAreHonest(tag, b, 0);
  }

  lemma AsciiIsSmall(tag: Half, s: seq<Byte>)
    requires |s| <= 62
    ensures Honest(Ascii(tag, s)) && IsSmall(Ascii(tag, s)) && Ascii(tag, s).tag == tag
  {
    AsciiIsHonest(tag, s, 0);
  }

  lemma SevenEntries(es: seq<Entry>)
    requires |es| == 7
    requires Honest(es[0]) && Honest(es[1]) && Honest(es[2]) && Honest(es[3]) && Honest(es[4]) && Honest(es[5])
             && Honest(es[6])
    requires IsSmall(es[0]) && IsSmall(es[1]) && IsSmall(es[2]) && IsSmall(es[3]) && IsSmall(es[4]) && IsSmall(es[5])
             && IsSmall(es[6])
    requires es[0].tag < es[1].tag < es[2].tag < es[3].tag < es[4].tag < es[5].tag < es[6].tag
    ensures AllHonest(es) && Ascending(es) && forall i :: 0 <= i < 7 ==> IsSmall(es[i])
  {
  }

  lemma FixtureGpsIsHonest()
    ensures AllHonest(FixtureGps()) && Ascending(FixtureGps())
    ensures forall i :: 0 <= i < 7 ==> IsSmall(FixtureGps()[i])
  {
    BytesAreSmall(0, [2, 3, 0, 0]);
    AsciiIsSmall(1, Chars("N"));
    RationalsAreSmall(2, [(51, 1), (28, 1), (4012, 100)]);
    AsciiIsSmall(3, Chars("W"));
    RationalsAreSmall(4, [(0, 1), (0, 1), (531, 100)]);
    BytesAreSmall(5, [0]);
    RationalsAreSmall(6, [(4700, 100)]);
    SevenEntries(FixtureGps());
  }

  /** The directories of the orientation-and-GPS fixture meet every hypothesis, so
      the parser returns all of their values. */
  lemma FixtureParses()
    ensures WellFormed(FixtureIfd0(), FixtureGps())
    ensures Parse(Build(FixtureIfd0(), FixtureGps()))
            == Ok(Dump(Values(FixtureIfd0(), GpsOffset(FixtureIfd0()), 4), Values(FixtureGps(), 0, 7)))
  {
    FixtureIfd0IsHonest();
    FixtureGpsIsHonest();
    SmallParses(FixtureIfd0(), FixtureGps(), 3);
  }

  lemma SmallParses(ifd0: seq<Entry>, gps: seq<Entry>, k: nat)
    requires WellFormed(ifd0, gps) && |ifd0| <= 100 && |gps| <= 100
    requires (forall i :: 0 <= i < |ifd0| ==> IsSmall(ifd0[i])) && (forall i :: 0 <= i < |gps| ==> IsSmall(gps[i]))
    requires k < |ifd0| && ifd0[k].tag == GpsTag && ifd0[k].content.Pointer?
    ensures Parse(Build(ifd0, gps)) == Ok(Dump(Values(ifd0, GpsOffset(ifd0), |ifd0|), Values(gps, 0, |gps|)))
  {
    DataIsSmall(ifd0, |ifd0|);
    DataIsSmall(gps, |gps|);
    TiffShape(ifd0, gps);
    ParsedIff(ifd0, gps, k);
  }

  // ------------------------------------------------------------ the payload regions

  lemma {:induction false} DataIsEven(es: seq<Entry>, n: nat)
    requires n <= |es|
    ensures |Data(es, n)| % 2 == 0
    decreases n
  {
    if n > 0 { DataIsEven(es, n - 1); }
  }

  lemma RegionHolds(t: seq<Byte>, base: nat, es: seq<Entry>, i: nat)
    requires At(t, base, Data(es, |es|)) && i < |es| && es[i].content.Payload?
    ensures At(t, Place(es, base, i), es[i].content.data)
  {
    var d := es[i].content.data;
    PayloadAt(es, |es|, i);
    AtInside(t, base, Data(es, |es|), |Data(es, i)|, Padded(es[i].content));
    AtSplit(t, Place(es, base, i), d, Pad(|d|));
  }

  /** One directory's payload regions start on even offsets inside its data, hold
      their payloads, and end before the next one starts. */
  lemma RegionIsApart(t: seq<Byte>, base: nat, es: seq<Entry>, i: nat)
    requires At(t, base, Data(es, |es|)) && base % 2 == 0 && i < |es| && es[i].content.Payload?
    ensures At(t, Place(es, base, i), es[i].content.data)
    ensures Place(es, base, i) % 2 == 0 && base <= Place(es, base, i)
    ensures forall j :: i < j <= |es| ==> Place(es, base, i) + |es[i].content.data| <= Place(es, base, j)
  {
    RegionHolds(t, base, es, i);
    PlaceIsEven(es, base, i);
    forall j | i < j <= |es| ensures Place(es, base, i) + |es[i].content.data| <= Place(es, base, j) {
      RegionEnds(es, base, i, j);
    }
  }

  lemma PlaceIsEven(es: seq<Entry>, base: nat, i: nat)
    requires base % 2 == 0 && i <= |es|
    ensures Place(es, base, i) % 2 == 0
  {
    DataIsEven(es, i);
  }

  lemma RegionEnds(es: seq<Entry>, base: nat, i: nat, j: nat)
    requires i < j <= |es| && es[i].content.Payload?
    ensures Place(es, base, i) + |es[i].content.data| <= Place(es, base, j)
  {
    PayloadAt(es, j, i);
  }

  lemma DataOffsetIsEven(ifd0: seq<Entry>, gps: seq<Entry>)
    ensures DataOffset(ifd0, gps) % 2 == 0 && DataEnd(ifd0, gps) % 2 == 0
  {
    DataIsEven(ifd0, |ifd0|);
    EvenSum(|ifd0|, |gps|, |Data(ifd0, |ifd0|)|);
  }

  lemma EvenSum(n: nat, m: nat, d: nat)
    requires d % 2 == 0
    ensures (8 + IfdLength(n) + IfdLength(m)) % 2 == 0 && (8 + IfdLength(n) + IfdLength(m) + d) % 2 == 0
  {
    assert 8 + IfdLength(n) + IfdLength(m) == 2 * (10 + 6 * n + 6 * m);
  }

  /** Wherever the data of both directories stands as a built segment has it, their
      payload regions are even-aligned, in bounds and apart: the first directory's
      end before the second's begin. */
  lemma RegionsAreApart(t: seq<Byte>, ifd0: seq<Entry>, gps: seq<Entry>, i: nat, j: nat)
    requires At(t, DataOffset(ifd0, gps), Data(ifd0, |ifd0|)) && At(t, DataEnd(ifd0, gps), Data(gps, |gps|))
    requires i < |ifd0| && ifd0[i].content.Payload? && j < |gps| && gps[j].content.Payload?
    ensures var p, q := Place(ifd0, DataOffset(ifd0, gps), i), Place(gps, DataEnd(ifd0, gps), j);
            && At(t, p, ifd0[i].content.data) && At(t, q, gps[j].content.data) && p % 2 == 0 && q % 2 == 0
            && p + |ifd0[i].content.data| <= q && q + |gps[j].content.data| <= |t|
  {
    DataOffsetIsEven(ifd0, gps);
    RegionIsApart(t, DataOffset(ifd0, gps), ifd0, i);
    RegionIsApart(t, DataEnd(ifd0, gps), gps, j);
    AtSlice(t, Place(gps, DataEnd(ifd0, gps), j), gps[j].content.data);
  }

  // ------------------------------------------------------------------- the methods

  /** The data buffer that place appends to. */
  class DataArea {
    const start: nat
    var data: seq<Byte>

    constructor (start: nat)
      ensures this.start == start && data == []
    {
      this.start := start;
      data := [];
    }

    /** place. */
    method Put(payload: seq<Byte>) returns (off: nat)
      modifies this
      ensures off == start + |old(data)| && data == old(data) + payload + Pad(|old(data)| + |payload|)
    {
      off := start + |data|;
      data := data + payload;
      if |data| % 2 == 1 { data := data + [0]; } else { assert data + [] == data; }
    }
  }

  lemma PadOf(m: nat, n: nat)
    requires m % 2 == 0
    ensures Pad(m + n) == Pad(n) && (m + n + |Pad(n)|) % 2 == 0
  {
  }

  lemma Regroup(a: seq<Byte>, b: seq<Byte>, c: seq<Byte>)
    ensures a + b + c == a + (b + c)
  {
  }

  ghost predicate IsEntry(w: seq<Byte>, e: Entry, place: nat, gps: int) { w == EntryBytes(e, place, gps) }

  ghost predicate AreEntries(w: seq<Byte>, es: seq<Entry>, base: nat, gps: int, n: nat)
    requires AllHonest(es) && n <= |es|
  {
    w == Entries(es, base, gps, n)
  }

  ghost predicate IsIfd(w: seq<Byte>, es: seq<Entry>, base: nat, gps: int)
    requires AllHonest(es)
  {
    w == IfdBytes(es, base, gps)
  }

  /** Buffer d is what it was, and the padded payloads of the first n entries. */
  ghost predicate IsData(d: seq<Byte>, was: seq<Byte>, es: seq<Entry>, n: nat)
    requires n <= |es|
  {
    d == was + Data(es, n) && |d| % 2 == 0
  }

  /** One entry of writeIFD. */
  method WriteEntry(area: DataArea, e: Entry, gps: int, ghost place: nat) returns (w: seq<Byte>)
    requires |area.data| % 2 == 0 && place == area.start + |area.data|
    modifies area
    ensures IsEntry(w, e, place, gps)
    ensures area.data == old(area.data) + Padded(e.content) && |area.data| % 2 == 0
  {
    var field;
    ghost var was := area.data;
    match e.content {
      case Pointer =>
        field := Be32(gps);
        assert was + [] == was;
      case Payload(d) =>
        PadOf(|was|, |d|);
        Regroup(was, d, Pad(|d|));
        var off := area.Put(d);
        field := Be32(off);
      case Inline(f) =>
        field := f;
        assert was + [] == was;
    }
    w := Be16(e.tag) + Be16(e.typ) + Be32(e.count) + field;
  }

  /** writeIFD: the entries of one directory, its payloads going to the area. */
  method WriteIfd(area: DataArea, es: seq<Entry>, gps: int, ghost base: nat) returns (w: seq<Byte>)
    requires AllHonest(es) && |area.data| % 2 == 0 && base == area.start + |area.data|
    modifies area
    ensures IsIfd(w, es, base, gps) && IsData(area.data, old(area.data), es, |es|)
  {
    ghost var was := area.data;
    var entries: seq<Byte> := [];
    assert was + [] == was;
    for i := 0 to |es|
      invariant AreEntries(entries, es, base, gps, i) && IsData(area.data, was, es, i)
    {
      ghost var mid := area.data;
      var entry := WriteEntry(area, es[i], gps, Place(es, base, i));
      DataGrows(mid, was, es, i);
      EntriesGrow(entries, entry, es, base, gps, i);
      entries := entries + entry;
    }
    IfdIs(entries, es, base, gps);
    w := Be16(|es|) + entries + Be32(0);
  }

  lemma DataGrows(d: seq<Byte>, was: seq<Byte>, es: seq<Entry>, i: nat)
    requires i < |es| && IsData(d, was, es, i) && |d + Padded(es[i].content)| % 2 == 0
    ensures IsData(d + Padded(es[i].content), was, es, i + 1)
  {
    Regroup(was, Data(es, i), Padded(es[i].content));
  }

  lemma EntriesGrow(entries: seq<Byte>, entry: seq<Byte>, es: seq<Entry>, base: nat, gps: int, i: nat)
    requires AllHonest(es) && i < |es| && AreEntries(entries, es, base, gps, i)
             && IsEntry(entry, es[i], Place(es, base, i), gps)
    ensures AreEntries(entries + entry, es, base, gps, i + 1)
  {
  }

  lemma IfdIs(entries: seq<Byte>, es: seq<Entry>, base: nat, gps: int)
    requires AllHonest(es) && AreEntries(entries, es, base, gps, |es|)
    ensures IsIfd(Be16(|es|) + entries + Be32(0), es, base, gps)
  {
  }

  /** buildEXIF. */
  method BuildExif(ifd0: seq<Entry>, gps: seq<Entry>) returns (b: seq<Byte>)
    requires AllHonest(ifd0) && AllHonest(gps)
    ensures b == Build(ifd0, gps)
  {
    var t := BuildTiff(ifd0, gps);
    b := Chars("Exif") + [0, 0] + t;
  }

  /** Both directories, the first with its payloads first in the data buffer. */
  method WriteBoth(ifd0: seq<Entry>, gps: seq<Entry>) returns (first: seq<Byte>, second: seq<Byte>, data: seq<Byte>)
    requires AllHonest(ifd0) && AllHonest(gps)
    ensures IsIfd(first, ifd0, DataOffset(ifd0, gps), GpsOffset(ifd0)) && IsIfd(second, gps, DataEnd(ifd0, gps), 0)
    ensures IsData(data, Data(ifd0, |ifd0|), gps, |gps|)
  {
    var area := new DataArea(DataOffset(ifd0, gps));
    first := WriteFirst(area, ifd0, GpsOffset(ifd0));
    second := WriteIfd(area, gps, 0, DataEnd(ifd0, gps));
    data := area.data;
  }

  method WriteFirst(area: DataArea, es: seq<Entry>, gps: int) returns (w: seq<Byte>)
    requires AllHonest(es) && area.data == []
    modifies area
    ensures IsIfd(w, es, area.start, gps) && area.data == Data(es, |es|) && |area.data| % 2 == 0
  {
    w := WriteIfd(area, es, gps, area.start);
    NoneBefore(area.data, es);
  }

  lemma NoneBefore(d: seq<Byte>, es: seq<Entry>)
    requires IsData(d, [], es, |es|)
    ensures d == Data(es, |es|) && |d| % 2 == 0
  {
    EmptyThen(Data(es, |es|));
  }

  lemma EmptyThen(d: seq<Byte>)
    ensures [] + d == d
  {
  }

  method BuildTiff(ifd0: seq<Entry>, gps: seq<Entry>) returns (t: seq<Byte>)
    requires AllHonest(ifd0) && AllHonest(gps)
    ensures t == Tiff(ifd0, gps)
  {
    var first, second, data := WriteBoth(ifd0, gps);
    TiffIs(ifd0, gps, first, second, data);
    t := TiffHeader() + first + second + data;
  }

  lemma TiffIs(ifd0: seq<Entry>, gps: seq<Entry>, first: seq<Byte>, second: seq<Byte>, data: seq<Byte>)
    requires AllHonest(ifd0) && AllHonest(gps) && IsData(data, Data(ifd0, |ifd0|), gps, |gps|)
    requires IsIfd(first, ifd0, DataOffset(ifd0, gps), GpsOffset(ifd0)) && IsIfd(second, gps, DataEnd(ifd0, gps), 0)
    ensures TiffHeader() + first + second + data == Tiff(ifd0, gps)
  {
    Regroup(TiffHeader() + first + second, Data(ifd0, |ifd0|), Data(gps, |gps|));
  }

  /** One turn of readIFD's loop. */
  method ReadOne(t: seq<Byte>, p: nat, acc: Ifd) returns (r: Result<Ifd, ExifError>)
    ensures r == ReadEntry(t, p, acc)
  {
    if p + 12 > |t| { return Err(EntryPastEnd); }
    var tag := U16(t[p..p + 2]);
    if tag <= acc.prev { return Err(NotAscending); }
    var size := SizeOf(U16(t[p + 2..p + 4]), U32(t[p + 4..p + 8]));
    if size.None? { return Err(BadType); }
    var v := RawValue(t, p, size.value % U32Limit);
    if v.Err? { return Err(v.error); }
    var gps := if tag == GpsTag then U32(t[p + 8..p + 12]) else acc.gps;
    r := Ok(Ifd(tag, acc.values[tag := v.value], gps));
  }

  /** readIFD. */
  method ReadDirectory(t: seq<Byte>, off: nat) returns (r: Result<Ifd, ExifError>)
    ensures r == ReadIfd(t, off)
  {
    if off + 2 > |t| { return Err(IfdPastEnd); }
    if off + 2 >= U32Limit { return Err(BoundsPanic); }
    var n := U16(t[off..off + 2]);
    var acc := Start;
    for i := 0 to n
      invariant Iterate(Turn(t, off + 2), 0, n, Start) == Iterate(Turn(t, off + 2), i, n, acc)
    {
      TurnIs(t, off + 2, i, acc);
      var next := ReadOne(t, off + 2 + i * 12, acc);
      if next.Err? { return Err(next.error); }
      acc := next.value;
    }
    r := Ok(acc);
  }

  /** parseEXIF. */
  method ParseExif(b: seq<Byte>) returns (r: Result<Dump, ExifError>)
    ensures r == Parse(b)
  {
    if |b| < 14 || b[..6] != ExifMark() { return Err(NotExif); }
    var t := b[6..];
    if Text(t[..2]) != "MM" || U16(t[2..4]) != 0x002A { return Err(NotBigEndian); }
    var first := ReadDirectory(t, U32(t[4..8]));
    if first.Err? { return Err(first.error); }
    if first.value.gps == 0 { return Err(NoGps); }
    var second := ReadDirectory(t, first.value.gps);
    if second.Err? { return Err(second.error); }
    r := Ok(Dump(first.value.values, second.value.values));
  }
}
