/** What the orientation-and-GPS fixture is checked for once its EXIF segment has been
    parsed, and that the segment the writer builds passes. */
module ExifFixture {
  import opened Wrappers
  import opened Bytes
  import opened Exif

  const Orientation := 0x0112

  /** Panics is no error value of the source: two bytes are read of a shorter value. */
  datatype Complaint = NoOrientation | WrongOrientation | MissingGps | WrongLatitude | Panics

  predicate Filled(values: map<int, seq<Byte>>, tag: int) { tag in values && values[tag] != [] }

  /** The checks of verifyOrientationGPSJPEG on the parsed segment: None is success. */
  function Complain(d: Dump): Option<Complaint> {
    if Orientation !in d.ifd0 then Some(NoOrientation)
    else if |d.ifd0[Orientation]| < 2 then Some(Panics)
    else if U16(d.ifd0[Orientation][..2]) != 6 then Some(WrongOrientation)
    else if !Filled(d.gps, 1) || !Filled(d.gps, 2) || !Filled(d.gps, 3) || !Filled(d.gps, 4) then Some(MissingGps)
    else if |d.gps[2]| != 24 then Some(WrongLatitude)
    else None
  }

  // ------------------------------------------------------------------- any directories

  /** A directory with a value of that tag that meets p. */
  ghost predicate Has(es: seq<Entry>, gps: int, tag: int, p: seq<Byte> -> bool) {
    exists i :: 0 <= i < |es| && es[i].tag == tag && p(Meaning(es[i], gps))
  }

  lemma HasIff(es: seq<Entry>, gps: int, tag: int, p: seq<Byte> -> bool)
    requires Ascending(es)
    ensures Has(es, gps, tag, p) <==> tag in Values(es, gps, |es|) && p(Values(es, gps, |es|)[tag])
  {
    ValuesAre(es, gps);
  }

  function Six(): seq<Byte> -> bool { (v: seq<Byte>) => |v| >= 2 && U16(v[..2]) == 6 }

  function NotEmpty(): seq<Byte> -> bool { (v: seq<Byte>) => v != [] }

  function ThreeRationals(): seq<Byte> -> bool { (v: seq<Byte>) => |v| == 24 }

  /** For any two directories: the segment built of them parses and passes exactly when
      the first says orientation six and the second has both coordinates and their
      references, with a latitude of three rationals. */
  lemma PassesIff(ifd0: seq<Entry>, gps: seq<Entry>, k: nat)
    requires WellFormed(ifd0, gps) && |Tiff(ifd0, gps)| < U32Limit && |ifd0| < U16Limit && |gps| < U16Limit
    requires k < |ifd0| && ifd0[k].tag == GpsTag && ifd0[k].content.Pointer?
    ensures Parse(Build(ifd0, gps)).Ok?
    ensures Complain(Parse(Build(ifd0, gps)).value) == None
            <==> (&& Has(ifd0, GpsOffset(ifd0), Orientation, Six()) && Has(gps, 0, 1, NotEmpty())
                  && Has(gps, 0, 2, ThreeRationals()) && Has(gps, 0, 3, NotEmpty()) && Has(gps, 0, 4, NotEmpty()))
  {
    ParsedIff(ifd0, gps, k);
    HasIff(ifd0, GpsOffset(ifd0), Orientation, Six());
    HasIff(gps, 0, 1, NotEmpty());
    HasIff(gps, 0, 2, ThreeRationals());
    HasIff(gps, 0, 3, NotEmpty());
    HasIff(gps, 0, 4, NotEmpty());
  }

  // ----------------------------------------------------------------------- the fixture

  /** Three fractions, numerators and denominators. */
  ghost predicate Fractions(v: seq<Byte>, a: int, b: int, c: int, d: int, e: int, f: int) {
    && |v| == 24 && U32(v[0..4]) == a && U32(v[4..8]) == b && U32(v[8..12]) == c && U32(v[12..16]) == d
    && U32(v[16..20]) == e && U32(v[20..24]) == f
  }

  lemma SixWords(a: seq<Byte>, b: seq<Byte>, c: seq<Byte>, d: seq<Byte>, e: seq<Byte>, f: seq<Byte>)
    requires |a| == |b| == |c| == |d| == |e| == |f| == 4
    ensures var v := a + b + (c + d + (e + f + []));
            && |v| == 24 && v[0..4] == a && v[4..8] == b && v[8..12] == c && v[12..16] == d && v[16..20] == e
            && v[20..24] == f
  {
  }

  lemma ThreeInTurn(x: (Word, Word), y: (Word, Word), z: (Word, Word))
    ensures RationalBytes([x, y, z])
            == Be32(x.0) + Be32(x.1) + (Be32(y.0) + Be32(y.1) + (Be32(z.0) + Be32(z.1) + []))
  {
    assert [x, y, z][1..] == [y, z] && [y, z][1..] == [z] && [z][1..] == [];
    assert RationalBytes([z]) == Be32(z.0) + Be32(z.1) + [];
  }

  lemma WordsAre(v: seq<Byte>, a: seq<Byte>, b: seq<Byte>, c: seq<Byte>, d: seq<Byte>, e: seq<Byte>, f: seq<Byte>)
    requires |a| == |b| == |c| == |d| == |e| == |f| == 4 && v == a + b + (c + d + (e + f + []))
    ensures Fractions(v, U32(a), U32(b), U32(c), U32(d), U32(e), U32(f))
  {
    SixWords(a, b, c, d, e, f);
  }

  lemma WordReads(w: Word)
    ensures U32(Be32(w)) == w
  {
    Be32Reads(w);
  }

  lemma FractionsOf(x: (Word, Word), y: (Word, Word), z: (Word, Word))
    ensures Fractions(RationalBytes([x, y, z]), x.0, x.1, y.0, y.1, z.0, z.1)
  {
    ThreeInTurn(x, y, z);
    WordsAre(RationalBytes([x, y, z]), Be32(x.0), Be32(x.1), Be32(y.0), Be32(y.1), Be32(z.0), Be32(z.1));
    WordReads(x.0);
    WordReads(x.1);
    WordReads(y.0);
    WordReads(y.1);
    WordReads(z.0);
    WordReads(z.1);
  }

  lemma OrientationIn(es: seq<Entry>, gps: int)
    requires |es| == 4 && Ascending(es) && es[2] == Short(0x0112, 6)
    ensures Orientation in Values(es, gps, 4) && Values(es, gps, 4)[Orientation] == Be16(6)
  {
    ShortIsHonest(0x0112, 6, gps);
    ValueAt(es, gps, 4, 2);
  }

  lemma FixtureIfd0Value()
    ensures Orientation in Values(FixtureIfd0(), GpsOffset(FixtureIfd0()), 4)
    ensures Values(FixtureIfd0(), GpsOffset(FixtureIfd0()), 4)[Orientation] == [0, 6]
  {
    FixtureIfd0IsHonest();
    OrientationIn(FixtureIfd0(), GpsOffset(FixtureIfd0()));
    SixIs();
  }

  lemma SixIs()
    ensures Be16(6) == [0, 6]
  {
    assert Be(0, 1) == [0];
  }

  lemma FixtureGpsValue(i: nat)
    requires i < 7
    ensures FixtureGps()[i].tag in Values(FixtureGps(), 0, 7)
    ensures Values(FixtureGps(), 0, 7)[FixtureGps()[i].tag] == Meaning(FixtureGps()[i], 0)
  {
    FixtureGpsIsHonest();
    ValueAt(FixtureGps(), 0, 7, i);
  }

  lemma FixtureReferences()
    ensures var v := Values(FixtureGps(), 0, 7);
            1 in v && 3 in v && v[1] == Chars("N") + [0] && v[3] == Chars("W") + [0]
  {
    FixtureGpsValue(1);
    FixtureGpsValue(3);
    AsciiIsHonest(1, Chars("N"), 0);
    AsciiIsHonest(3, Chars("W"), 0);
  }

  lemma FixtureCoordinates()
    ensures var v := Values(FixtureGps(), 0, 7);
            && 2 in v && 4 in v && Fractions(v[2], 51, 1, 28, 1, 4012, 100) && Fractions(v[4], 0, 1, 0, 1, 531, 100)
  {
    FixtureGpsValue(2);
    FixtureGpsValue(4);
    RationalsAreHonest(2, [(51, 1), (28, 1), (4012, 100)], 0);
    RationalsAreHonest(4, [(0, 1), (0, 1), (531, 100)], 0);
    FractionsOf((51, 1), (28, 1), (4012, 100));
    FractionsOf((0, 1), (0, 1), (531, 100));
  }

  /** Orientation six, 51 degrees 28 minutes 40.12 seconds north and 0 degrees 0 minutes
      5.31 seconds west. */
  ghost predicate Greenwich(ifd0: map<int, seq<Byte>>, gps: map<int, seq<Byte>>) {
    && Orientation in ifd0 && ifd0[Orientation] == [0, 6]
    && 1 in gps && gps[1] == Chars("N") + [0] && 3 in gps && gps[3] == Chars("W") + [0]
    && 2 in gps && Fractions(gps[2], 51, 1, 28, 1, 4012, 100)
    && 4 in gps && Fractions(gps[4], 0, 1, 0, 1, 531, 100)
  }

  lemma GreenwichPasses(d: Dump)
    requires Greenwich(d.ifd0, d.gps)
    ensures Complain(d) == None
  {
    TwoWeigh([0, 6]);
    assert [0, 6][..2] == [0, 6];
  }

  lemma FixtureSays()
    ensures Greenwich(Values(FixtureIfd0(), GpsOffset(FixtureIfd0()), 4), Values(FixtureGps(), 0, 7))
  {
    FixtureIfd0Value();
    FixtureReferences();
    FixtureCoordinates();
  }

  /** The segment of the fixture parses to those values, and passes. */
  lemma FixturePasses() returns (d: Dump)
    ensures WellFormed(FixtureIfd0(), FixtureGps()) && Parse(Build(FixtureIfd0(), FixtureGps())) == Ok(d)
    ensures Greenwich(d.ifd0, d.gps) && Complain(d) == None
  {
    FixtureParses();
    d := Dump(Values(FixtureIfd0(), GpsOffset(FixtureIfd0()), 4), Values(FixtureGps(), 0, 7));
    FixtureSays();
    GreenwichPasses(d);
  }
}
