/** The RIFF container of a WebP file (section 2.3 of RFC 9649): chunks padded to
    an even length, and the scan that has to recover them. */
module Riff {
  import opened Wrappers
  import opened Bytes

  datatype Chunk = Chunk(fourCC: FourCC, payload: seq<Byte>)

  datatype RiffError = NotRiff | SizeField | PastEnd

  /** riffChunk. */
  function ChunkBytes(c: Chunk): seq<Byte> {
    Chars(c.fourCC) + Le32(|c.payload|) + c.payload + Pad(|c.payload|)
  }

  function Body(cs: seq<Chunk>): seq<Byte> {
    if cs == [] then [] else ChunkBytes(cs[0]) + Body(cs[1..])
  }

  function File(cs: seq<Chunk>): seq<Byte> {
    Chars("RIFF") + Le32(4 + |Body(cs)|) + Chars("WEBP") + Body(cs)
  }

  /** The chunk loop: the pad byte's value is not looked at, a last pad byte may be
      missing, and fewer than eight trailing bytes are ignored. */
  function ScanChunks(b: seq<Byte>): Result<seq<Chunk>, RiffError> {
    if |b| < 8 then Ok([])
    else
      var n := LeU32(b[4..8]);
      if 8 + n > |b| then Err(PastEnd)
      else
        var next := 8 + n + n % 2;
        Cons(Chunk(Text(b[..4]), b[8..8 + n]), if next > |b| then Ok([]) else ScanChunks(b[next..]))
  }

  predicate Headed(b: seq<Byte>) { |b| >= 12 && Text(b[..4]) == "RIFF" && Text(b[8..12]) == "WEBP" }

  function Scan(b: seq<Byte>): Result<seq<Chunk>, RiffError> {
    if !Headed(b) then Err(NotRiff)
    else if LeU32(b[4..8]) != |b| - 8 then Err(SizeField)
    else ScanChunks(b[12..])
  }

  /** What the loop still has to produce from index i, which a missing last pad
      byte puts one past the end. */
  function From(b: seq<Byte>, i: nat): Result<seq<Chunk>, RiffError> {
    if i > |b| then Ok([]) else ScanChunks(b[i..])
  }

  lemma FromStep(b: seq<Byte>, i: nat)
    requires i + 8 <= |b|
    ensures var n := LeU32(b[i + 4..i + 8]);
            From(b, i) == if i + 8 + n > |b| then Err(PastEnd)
                          else Cons(Chunk(Text(b[i..i + 4]), b[i + 8..i + 8 + n]), From(b, i + 8 + n + n % 2))
  {
    Slices(b, i, 0, 4);
    Slices(b, i, 4, 8);
    var n := LeU32(b[i + 4..i + 8]);
    if i + 8 + n <= |b| {
      Slices(b, i, 8, 8 + n);
      if i + 8 + n + n % 2 <= |b| { Slices(b, i, 0, 8 + n + n % 2); }
    }
  }

  /** What one turn of the loop at i makes of what is still to come. */
  lemma TurnStep(b: seq<Byte>, i: nat, out: seq<Chunk>)
    requires i + 8 <= |b|
    ensures var n := LeU32(b[i + 4..i + 8]);
            Append(out, From(b, i))
            == if i + 8 + n > |b| then Err(PastEnd)
               else Append(out + [Chunk(Text(b[i..i + 4]), b[i + 8..i + 8 + n])], From(b, i + 8 + n + n % 2))
  {
    FromStep(b, i);
    var n := LeU32(b[i + 4..i + 8]);
    if i + 8 + n <= |b| {
      AppendCons(out, Chunk(Text(b[i..i + 4]), b[i + 8..i + 8 + n]), From(b, i + 8 + n + n % 2));
    }
  }

  /** scanRIFF. */
  method ScanRiff(b: seq<Byte>) returns (r: Result<seq<Chunk>, RiffError>)
    ensures r == Scan(b)
  {
    if |b| < 12 || Text(b[..4]) != "RIFF" || Text(b[8..12]) != "WEBP" { return Err(NotRiff); }
    if LeU32(b[4..8]) != |b| - 8 { return Err(SizeField); }
    var out: seq<Chunk> := [];
    var i := 12;
    AppendNothing(From(b, 12));
    while i + 8 <= |b|
      invariant 12 <= i
      invariant From(b, 12) == Append(out, From(b, i))
    {
      TurnStep(b, i, out);
      var n := LeU32(b[i + 4..i + 8]);
      if i + 8 + n > |b| { return Err(PastEnd); }
      out := out + [Chunk(Text(b[i..i + 4]), b[i + 8..i + 8 + n])];
      i := i + 8 + n;
      if n % 2 == 1 { i := i + 1; }
    }
    assert out + [] == out;
    r := Ok(out);
  }

  // ------------------------------------------------------------------ round trip

  lemma LaidOut(cc: seq<Byte>, size: seq<Byte>, payload: seq<Byte>, pad: seq<Byte>, rest: seq<Byte>)
    requires |cc| == 4 && |size| == 4 && LeU32(size) == |payload| && |pad| == |payload| % 2
    ensures ScanChunks(cc + size + payload + pad + rest) == Cons(Chunk(Text(cc), payload), ScanChunks(rest))
  {
    var b, n := cc + size + payload + pad + rest, |payload|;
    assert b[..4] == cc && b[4..8] == size && b[8..8 + n] == payload && b[8 + n + |pad|..] == rest;
  }

  lemma ChunkStep(c: Chunk, rest: seq<Byte>)
    requires |c.payload| < U32Limit
    ensures ScanChunks(ChunkBytes(c) + rest) == Cons(c, ScanChunks(rest))
  {
    var n := |c.payload|;
    Le32Reads(n);
    TextOfChars(c.fourCC);
    LaidOut(Chars(c.fourCC), Le32(n), c.payload, Pad(n), rest);
  }

  lemma {:induction false} ChunksScan(cs: seq<Chunk>)
    requires |Body(cs)| < U32Limit
    ensures ScanChunks(Body(cs)) == Ok(cs)
  {
    if cs != [] {
      ChunkStep(cs[0], Body(cs[1..]));
      ChunksScan(cs[1..]);
      assert cs == [cs[0]] + cs[1..];
    }
  }

  lemma FileSlices(riff: seq<Byte>, size: seq<Byte>, webp: seq<Byte>, body: seq<Byte>)
    requires |riff| == 4 && |size| == 4 && |webp| == 4
    ensures var b := riff + size + webp + body;
            b[..4] == riff && b[4..8] == size && b[8..12] == webp && b[12..] == body
  {
  }

  lemma FileHeaded(size: seq<Byte>, body: seq<Byte>)
    requires |size| == 4
    ensures var b := Chars("RIFF") + size + Chars("WEBP") + body;
            Headed(b) && b[4..8] == size && b[12..] == body
  {
    TextOfChars("RIFF");
    TextOfChars("WEBP");
    FileSlices(Chars("RIFF"), size, Chars("WEBP"), body);
  }

  lemma SizeFieldHolds(n: nat)
    ensures LeU32(Le32(n)) == n <==> n < U32Limit
  {
    Le32Reads(n);
  }

  /** Every list of chunks, odd lengths and their padding included, is recovered
      exactly when the file's size field can hold its length; a longer file is
      refused for that field. */
  lemma ScanRecoversIff(cs: seq<Chunk>)
    ensures Scan(File(cs)) == if 4 + |Body(cs)| < U32Limit then Ok(cs) else Err(SizeField)
  {
    var n := 4 + |Body(cs)|;
    SizeFieldHolds(n);
    FileHeaded(Le32(n), Body(cs));
    if n < U32Limit { ChunksScan(cs); }
  }

  /** The failing input: one chunk of 2^32 - 12 bytes, whose file is refused. */
  lemma LongFileIsRefused(fourCC: FourCC)
    ensures Scan(File([Chunk(fourCC, Zeros(U32Limit - 12))])) == Err(SizeField)
  {
    var c := Chunk(fourCC, Zeros(U32Limit - 12));
    assert Body([c]) == ChunkBytes(c) + Body([]);
    ScanRecoversIff([c]);
  }
}
