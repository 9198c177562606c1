/** ISO base media boxes (clause 4.2 of ISO/IEC 14496-12): a writer, an
    independent reader, and the proof that each inverts the other. */
module Boxes {
  import opened Wrappers
  import opened Bytes

  datatype Box = Box(typ: FourCC, payload: seq<Byte>)

  datatype ScanError = DoesNotFit | TrailingBytes | NoSuchBox | EmptyPath

  /** box: the size field holds 8 + len(payload) truncated to 32 bits. */
  function Write(b: Box): (out: seq<Byte>)
    ensures |out| == 8 + |b.payload|
  {
    Be32(8 + |b.payload|) + Chars(b.typ) + b.payload
  }

  function Concat(boxes: seq<Box>): seq<Byte> {
    if boxes == [] then [] else Write(boxes[0]) + Concat(boxes[1..])
  }

  predicate Fits(b: Box) { 8 + |b.payload| < U32Limit }

  predicate AllFit(boxes: seq<Box>) { forall i :: 0 <= i < |boxes| ==> Fits(boxes[i]) }

  function Scan(b: seq<Byte>): Result<seq<Box>, ScanError> {
    if |b| < 8 then (if b == [] then Ok([]) else Err(TrailingBytes))
    else
      var size := U32(b[..4]);
      if size < 8 || size > |b| then Err(DoesNotFit)
      else Cons(Box(Text(b[4..8]), b[8..size]), Scan(b[size..]))
  }

  /** scanBoxes. */
  method ScanBoxes(b: seq<Byte>) returns (r: Result<seq<Box>, ScanError>)
    ensures r == Scan(b)
  {
    var out: seq<Box> := [];
    var i := 0;
    assert b[0..] == b;
    AppendNothing(Scan(b));
    while i + 8 <= |b|
      invariant 0 <= i <= |b|
      invariant Scan(b) == Append(out, Scan(b[i..]))
    {
      Slices(b, i, 0, 4);
      Slices(b, i, 4, 8);
      var size := U32(b[i..i + 4]);
      if size < 8 || i + size > |b| { return Err(DoesNotFit); }
      var bx := Box(Text(b[i + 4..i + 8]), b[i + 8..i + size]);
      Slices(b, i, 8, size);
      AppendCons(out, bx, Scan(b[i + size..]));
      out := out + [bx];
      i := i + size;
    }
    if i != |b| { return Err(TrailingBytes); }
    assert out + [] == out;
    r := Ok(out);
  }

  // ------------------------------------------------------------- both inverses

  lemma LaidOut(size: seq<Byte>, typ: seq<Byte>, payload: seq<Byte>, rest: seq<Byte>)
    requires |size| == 4 && |typ| == 4 && U32(size) == 8 + |payload|
    ensures Scan(size + typ + payload + rest) == Cons(Box(Text(typ), payload), Scan(rest))
  {
    var b, n := size + typ + payload + rest, 8 + |payload|;
    assert b[..4] == size && b[4..8] == typ && b[8..n] == payload && b[n..] == rest;
  }

  lemma ScanStep(bx: Box, rest: seq<Byte>)
    requires Fits(bx)
    ensures Scan(Write(bx) + rest) == Cons(bx, Scan(rest))
  {
    var size := 8 + |bx.payload|;
    Be32Reads(size);
    TextOfChars(bx.typ);
    LaidOut(Be32(size), Chars(bx.typ), bx.payload, rest);
  }

  lemma {:induction false} WrittenScans(boxes: seq<Box>)
    requires AllFit(boxes)
    ensures Scan(Concat(boxes)) == Ok(boxes)
  {
    if boxes != [] {
      ScanStep(boxes[0], Concat(boxes[1..]));
      WrittenScans(boxes[1..]);
      assert [boxes[0]] + boxes[1..] == boxes;
    }
  }

  lemma WrittenHead(b: seq<Byte>, size: nat)
    requires 8 <= size <= |b| && U32(b[..4]) == size
    ensures b == Write(Box(Text(b[4..8]), b[8..size])) + b[size..]
  {
    CharsOfText(b[4..8]);
    assert b == b[..4] + b[4..8] + b[8..size] + b[size..];
  }

  lemma {:induction false} ScannedWrites(b: seq<Byte>)
    requires Scan(b).Ok?
    ensures Concat(Scan(b).value) == b && AllFit(Scan(b).value)
    decreases |b|
  {
    if |b| >= 8 {
      var size := U32(b[..4]);
      WrittenHead(b, size);
      ScannedWrites(b[size..]);
      var bx, rest := Box(Text(b[4..8]), b[8..size]), Scan(b[size..]).value;
      assert Scan(b).value == [bx] + rest && ([bx] + rest)[1..] == rest;
    }
  }

  /** Reading and writing are inverse both ways: a byte string scans to a list of
      boxes exactly when it is that list written out and every box's size fits
      its 32-bit field. */
  lemma ScanIffWritten(b: seq<Byte>, boxes: seq<Box>)
    ensures Scan(b) == Ok(boxes) <==> b == Concat(boxes) && AllFit(boxes)
  {
    if Scan(b) == Ok(boxes) { ScannedWrites(b); }
    if b == Concat(boxes) && AllFit(boxes) { WrittenScans(boxes); }
  }

  /** The failing input: a box of 2^32 bytes is written with size zero. */
  lemma LongBoxIsRefused(typ: FourCC)
    ensures Scan(Write(Box(typ, Zeros(U32Limit - 8)))) == Err(DoesNotFit)
  {
    var bx := Box(typ, Zeros(U32Limit - 8));
    assert Write(bx)[..4] == Be32(U32Limit);
    Be32Reads(U32Limit);
  }

  // ------------------------------------------------------------------- descent

  function Find(boxes: seq<Box>, typ: string): Result<Box, ScanError> {
    if boxes == [] then Err(NoSuchBox)
    else if boxes[0].typ == typ then Ok(boxes[0])
    else Find(boxes[1..], typ)
  }

  method FindBox(boxes: seq<Box>, typ: string) returns (r: Result<Box, ScanError>)
    ensures r == Find(boxes, typ)
  {
    assert boxes[0..] == boxes;
    for i := 0 to |boxes|
      invariant Find(boxes, typ) == Find(boxes[i..], typ)
    {
      assert boxes[i..][1..] == boxes[i + 1..];
      if boxes[i].typ == typ { return Ok(boxes[i]); }
    }
    r := Err(NoSuchBox);
  }

  function DescendTo(b: seq<Byte>, path: seq<string>): Result<Box, ScanError>
    decreases |path|
  {
    if path == [] then Err(EmptyPath)
    else
      match Scan(b)
      case Err(e) => Err(e)
      case Ok(boxes) =>
        match Find(boxes, path[0])
        case Err(e) => Err(e)
        case Ok(bx) => if |path| == 1 then Ok(bx) else DescendTo(bx.payload, path[1..])
  }

  /** descend. */
  method Descend(b: seq<Byte>, path: seq<string>) returns (r: Result<Box, ScanError>)
    ensures r == DescendTo(b, path)
  {
    var cur := b;
    assert path[0..] == path;
    for i := 0 to |path|
      invariant DescendTo(b, path) == DescendTo(cur, path[i..])
    {
      assert path[i..][1..] == path[i + 1..];
      var scanned := ScanBoxes(cur);
      if scanned.Err? { return Err(scanned.error); }
      var found := FindBox(scanned.value, path[i]);
      if found.Err? { return Err(found.error); }
      if i == |path| - 1 { return Ok(found.value); }
      cur := found.value.payload;
    }
    r := Err(EmptyPath);
  }

  /** One level of descent through a written container. */
  lemma DescendStep(boxes: seq<Box>, k: nat, path: seq<string>)
    requires AllFit(boxes) && k < |boxes| && |path| >= 1
    requires boxes[k].typ == path[0] && forall i :: 0 <= i < k ==> boxes[i].typ != path[0]
    ensures DescendTo(Concat(boxes), path)
            == if |path| == 1 then Ok(boxes[k]) else DescendTo(boxes[k].payload, path[1..])
  {
    WrittenScans(boxes);
    FindAt(boxes, k, path[0]);
  }

  lemma {:induction false} FindAt(boxes: seq<Box>, k: nat, typ: string)
    requires k < |boxes| && boxes[k].typ == typ && forall i :: 0 <= i < k ==> boxes[i].typ != typ
    ensures Find(boxes, typ) == Ok(boxes[k])
    decreases k
  {
    if k > 0 { FindAt(boxes[1..], k - 1, typ); }
  }

  // --------------------------------------------------------- what follows a payload

  /** The bytes of the boxes after the first one of a type. */
  function After(boxes: seq<Box>, typ: string): seq<Byte> {
    if boxes == [] then [] else if boxes[0].typ == typ then Concat(boxes[1..]) else After(boxes[1..], typ)
  }

  /** The bytes of b that follow the payload a path leads to. A payload is a slice of
      b, and reading past its end goes on into these. */
  function Beyond(b: seq<Byte>, path: seq<string>): seq<Byte>
    decreases |path|
  {
    if path == [] then []
    else
      match Scan(b)
      case Err(_) => []
      case Ok(boxes) =>
        match Find(boxes, path[0])
        case Err(_) => []
        case Ok(bx) => (if |path| == 1 then [] else Beyond(bx.payload, path[1..])) + After(boxes, path[0])
  }

  lemma {:induction false} FoundStands(boxes: seq<Box>, typ: string) returns (before: seq<Byte>)
    requires Find(boxes, typ).Ok?
    ensures Concat(boxes) == before + Find(boxes, typ).value.payload + After(boxes, typ)
  {
    var head := Write(boxes[0]);
    if boxes[0].typ == typ {
      before := head[..8];
      assert head == before + boxes[0].payload;
    } else {
      var rest := FoundStands(boxes[1..], typ);
      before := head + rest;
      assert head + (rest + Find(boxes, typ).value.payload + After(boxes, typ))
          == before + Find(boxes, typ).value.payload + After(boxes, typ);
    }
  }

  /** They do follow it: b is something, that payload, and them. */
  lemma {:induction false} PayloadStands(b: seq<Byte>, path: seq<string>) returns (before: seq<Byte>)
    requires DescendTo(b, path).Ok?
    ensures b == before + DescendTo(b, path).value.payload + Beyond(b, path)
    decreases |path|
  {
    var boxes := Scan(b).value;
    ScannedWrites(b);
    before := FoundStands(boxes, path[0]);
    var bx, after := Find(boxes, path[0]).value, After(boxes, path[0]);
    if |path| == 1 {
      assert [] + after == after;
    } else {
      var inner := PayloadStands(bx.payload, path[1..]);
      var found, beyond := DescendTo(b, path).value.payload, Beyond(bx.payload, path[1..]);
      assert before + (inner + found + beyond) + after == (before + inner) + found + (beyond + after);
      before := before + inner;
    }
  }
}
