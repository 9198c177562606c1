/** The synthetic scene: the three-pass painter over in-place buffers, and the
    naive per-pixel picture it has to equal. */
module Raster {

  // ---------------------------------------------------------------- the generator

  const U64Limit := 0x1_0000_0000_0000_0000

  /** A linear congruential generator over 64-bit words. */
  datatype Generator = Generator(mul: nat, inc: nat)

  const Corpus := Generator(6364136223846793005, 1442695040888963407)

  function Next(g: Generator, s: nat): nat { (s * g.mul + g.inc) % U64Limit }

  /** The generator's state after k draws. */
  function State(g: Generator, seed: nat, k: nat): nat
    decreases k, seed
  {
    if k == 0 then Next(g, seed) else Next(g, State(g, seed, k - 1))
  }

  /** Draw k, reduced to [0, max). */
  function Draw(g: Generator, seed: nat, k: nat, max: nat): (v: nat)
    requires max >= 1
    ensures v < max
  {
    State(g, seed, k + 1) / 0x2_0000_0000 % max
  }

  class Lcg {
    var s: nat
    const g: Generator
    const seed: nat
    ghost var drawn: nat

    ghost predicate Valid()
      reads this
    {
      s == State(g, seed, drawn)
    }

    constructor (g: Generator, seed: nat)
      ensures Valid() && this.g == g && this.seed == seed && drawn == 0
    {
      this.g, this.seed, s, drawn := g, seed, Next(g, seed), 0;
    }

    method N(max: nat) returns (v: nat)
      requires Valid() && max >= 1
      modifies this
      ensures Valid() && drawn == old(drawn) + 1 && v == Draw(g, seed, old(drawn), max)
    {
      s, drawn := Next(g, s), drawn + 1;
      v := s / 0x2_0000_0000 % max;
    }
  }

  // --------------------------------------------------------------- noise and blocks

  const NoiseLen := 4096

  function NoiseAt(g: Generator, seed: nat, i: nat): int { Draw(g, seed, i, 17) - 8 }

  datatype Block = Block(x0: nat, y0: nat, x1: nat, y1: nat, cr: nat, cg: nat, cb: nat)

  predicate Inside(b: Block, w: nat, h: nat) {
    b.x0 <= b.x1 <= w && b.y0 <= b.y1 <= h && b.cr < 256 && b.cg < 256 && b.cb < 256
  }

  function Min(a: nat, b: nat): nat { if a <= b then a else b }

  /** The seven draws of block j, which follow the noise draws. */
  function BlockAt(g: Generator, seed: nat, w: nat, h: nat, j: nat): (b: Block)
    requires w >= 1 && h >= 1
    ensures Inside(b, w, h)
  {
    var k := NoiseLen + 7 * j;
    var x0, y0 := Draw(g, seed, k, w), Draw(g, seed, k + 1, h);
    Block(x0, y0, Min(x0 + 1 + Draw(g, seed, k + 2, w / 6 + 1), w), Min(y0 + 1 + Draw(g, seed, k + 3, h / 6 + 1), h),
          Draw(g, seed, k + 4, 256), Draw(g, seed, k + 5, 256), Draw(g, seed, k + 6, 256))
  }

  const BlockCount := 24

  method DrawNoise(r: Lcg) returns (noise: seq<int>)
    requires r.Valid() && r.drawn == 0
    modifies r
    ensures r.Valid() && r.drawn == NoiseLen
    ensures |noise| == NoiseLen && forall i :: 0 <= i < NoiseLen ==> noise[i] == NoiseAt(r.g, r.seed, i)
  {
    var drawn: seq<int> := [];
    for i := 0 to NoiseLen
      invariant r.Valid() && r.drawn == i
      invariant |drawn| == i && forall j :: 0 <= j < i ==> drawn[j] == NoiseAt(r.g, r.seed, j)
    {
      var v: int := r.N(17);
      drawn := drawn + [v - 8];
    }
    noise := drawn;
  }

  method DrawBlock(r: Lcg, w: nat, h: nat, ghost j: nat) returns (b: Block)
    requires r.Valid() && r.drawn == NoiseLen + 7 * j && w >= 1 && h >= 1
    modifies r
    ensures r.Valid() && r.drawn == NoiseLen + 7 * (j + 1) && b == BlockAt(r.g, r.seed, w, h, j)
  {
    var x0 := r.N(w);
    var y0 := r.N(h);
    var bw := r.N(w / 6 + 1);
    var bh := r.N(h / 6 + 1);
    var x1, y1 := x0 + (1 + bw), y0 + (1 + bh);
    if x1 > w { x1 := w; }
    if y1 > h { y1 := h; }
    var cr := r.N(256);
    var cg := r.N(256);
    var cb := r.N(256);
    b := Block(x0, y0, x1, y1, cr, cg, cb);
  }

  method DrawBlocks(r: Lcg, w: nat, h: nat) returns (blocks: seq<Block>)
    requires r.Valid() && r.drawn == NoiseLen && w >= 1 && h >= 1
    modifies r
    ensures |blocks| == BlockCount && forall j :: 0 <= j < BlockCount ==> blocks[j] == BlockAt(r.g, r.seed, w, h, j)
  {
    blocks := [];
    for j := 0 to BlockCount
      invariant r.Valid() && r.drawn == NoiseLen + 7 * j
      invariant |blocks| == j && forall i :: 0 <= i < j ==> blocks[i] == BlockAt(r.g, r.seed, w, h, i)
    {
      var b := DrawBlock(r, w, h, j);
      blocks := blocks + [b];
    }
  }

  // ------------------------------------------------------------- the naive picture

  datatype Rgb = Rgb(r: int, g: int, b: int)

  /** The smooth background at (x, y). */
  function Gradient(w: nat, h: nat, x: nat, y: nat): Rgb
    requires x < w && y < h
  {
    Rgb(40 + 200 * x / w, 30 + 180 * y / h, 60 + 150 * (x + y) / (w + h))
  }

  predicate Covers(b: Block, x: nat, y: nat) { b.x0 <= x < b.x1 && b.y0 <= y < b.y1 }

  function Average(p: Rgb, b: Block): Rgb { Rgb((p.r + b.cr) / 2, (p.g + b.cg) / 2, (p.b + b.cb) / 2) }

  /** The background averaged, in order, with the first n blocks that cover the
      pixel. */
  function Blended(w: nat, h: nat, blocks: seq<Block>, n: nat, x: nat, y: nat): Rgb
    requires x < w && y < h && n <= |blocks|
    decreases n, w
  {
    if n == 0 then Gradient(w, h, x, y)
    else
      var p := Blended(w, h, blocks, n - 1, x, y);
      if Covers(blocks[n - 1], x, y) then Average(p, blocks[n - 1]) else p
  }

  function Clamp8(v: int): int { if v < 0 then 0 else if v > 255 then 255 else v }

  function Noisy(p: Rgb, nz: int): Rgb { Rgb(Clamp8(p.r + nz), Clamp8(p.g + nz), Clamp8(p.b - nz)) }

  /** The finished pixel at (x, y), computed on its own. */
  function Pixel(w: nat, h: nat, blocks: seq<Block>, noise: seq<int>, x: nat, y: nat): Rgb
    requires x < w && y < h && |noise| == NoiseLen
  {
    Noisy(Blended(w, h, blocks, |blocks|, x, y), noise[(31 * y + 17 * x) % NoiseLen])
  }

  predicate AllInside(bs: seq<Block>, w: nat, h: nat) { forall j :: 0 <= j < |bs| ==> Inside(bs[j], w, h) }

  predicate IsByte(v: int) { 0 <= v < 256 }

  predicate IsColour(p: Rgb) { IsByte(p.r) && IsByte(p.g) && IsByte(p.b) }

  lemma GradientIsColour(w: nat, h: nat, x: nat, y: nat)
    requires x < w && y < h
    ensures IsColour(Gradient(w, h, x, y))
  {
    Fraction(200, x, w);
    Fraction(180, y, h);
    Fraction(150, x + y, w + h);
  }

  lemma Fraction(k: nat, a: nat, b: nat)
    requires a < b && k >= 1
    ensures 0 <= k * a / b < k
  {
    assert k * a < k * b;
    var q := k * a / b;
    assert b * q <= k * a;
    assert q < k || b * q >= b * k;
  }

  /** Every intermediate value is a colour component, so no byte buffer ever
      truncates one. */
  lemma {:induction false} BlendedIsColour(w: nat, h: nat, blocks: seq<Block>, n: nat, x: nat, y: nat)
    requires x < w && y < h && n <= |blocks| && AllInside(blocks, w, h)
    ensures IsColour(Blended(w, h, blocks, n, x, y))
    decreases n
  {
    if n == 0 {
      GradientIsColour(w, h, x, y);
    } else {
      BlendedIsColour(w, h, blocks, n - 1, x, y);
      assert Inside(blocks[n - 1], w, h);
    }
  }

  // ---------------------------------------------------------------- pixel buffers

  /** Pixel p stands in buffer a at i. */
  ghost predicate PixelIs(a: seq<int>, i: nat, p: Rgb) {
    i + 3 <= |a| && a[i] == p.r && a[i + 1] == p.g && a[i + 2] == p.b
  }

  ghost predicate RowIs(a: seq<int>, at: nat, row: seq<Rgb>) {
    at + 3 * |row| <= |a| && forall x :: 0 <= x < |row| ==> PixelIs(a, at + 3 * x, row[x])
  }

  /** Row y of a buffer that is w pixels wide starts at 3 * w * y. */
  ghost predicate Holds(a: seq<int>, w: nat, rows: seq<seq<Rgb>>) {
    |a| == 3 * w * |rows| && forall y :: 0 <= y < |rows| ==> |rows[y]| == w && RowIs(a, 3 * w * y, rows[y])
  }

  /** Everything outside [lo, hi) is as it was. */
  ghost predicate OnlyRange(a: seq<int>, b: seq<int>, lo: nat, hi: nat) {
    |a| == |b| && forall i :: 0 <= i < |a| ==> (lo <= i < hi || a[i] == b[i])
  }

  lemma RowsApart(len: nat, y: nat, z: nat)
    requires y < z
    ensures 0 <= len * y && len * y + len <= len * z
  {
    assert len * z == len * y + len * (z - y);
    assert len * (z - y) == len * (z - y - 1) + len;
  }

  lemma RowUntouched(a: seq<int>, b: seq<int>, at: nat, row: seq<Rgb>, lo: nat, hi: nat)
    requires RowIs(a, at, row) && OnlyRange(a, b, lo, hi) && (at + 3 * |row| <= lo || hi <= at)
    ensures RowIs(b, at, row)
  {
    forall x | 0 <= x < |row| ensures PixelIs(b, at + 3 * x, row[x]) { assert PixelIs(a, at + 3 * x, row[x]); }
  }

  lemma RowUpdated(a: seq<int>, b: seq<int>, w: nat, rows: seq<seq<Rgb>>, y: nat, row: seq<Rgb>)
    requires Holds(a, w, rows) && y < |rows| && |row| == w
    requires OnlyRange(a, b, 3 * w * y, 3 * w * y + 3 * w) && RowIs(b, 3 * w * y, row)
    ensures Holds(b, w, rows[y := row])
  {
    var now := rows[y := row];
    forall z | 0 <= z < |now| ensures |now[z]| == w && RowIs(b, 3 * w * z, now[z]) {
      if z != y {
        if z < y { RowsApart(3 * w, z, y); } else { RowsApart(3 * w, y, z); }
        RowUntouched(a, b, 3 * w * z, rows[z], 3 * w * y, 3 * w * y + 3 * w);
      }
    }
  }

  function RawRow(a: seq<int>, at: nat, w: nat): (row: seq<Rgb>)
    requires at + 3 * w <= |a|
    ensures |row| == w
  {
    seq(w, x requires 0 <= x < w => Rgb(a[at + 3 * x], a[at + 3 * x + 1], a[at + 3 * x + 2]))
  }

  function RawRows(a: seq<int>, w: nat, h: nat): (rows: seq<seq<Rgb>>)
    requires |a| == 3 * w * h
    ensures |rows| == h
  {
    seq(h, y requires 0 <= y < h => RowsApart(3 * w, y, h); RawRow(a, 3 * w * y, w))
  }

  lemma RawRowsHold(a: seq<int>, w: nat, h: nat)
    requires |a| == 3 * w * h
    ensures Holds(a, w, RawRows(a, w, h))
  {
    var rows := RawRows(a, w, h);
    forall y | 0 <= y < |rows| ensures |rows[y]| == w && RowIs(a, 3 * w * y, rows[y]) { RowsApart(3 * w, y, h); }
  }

  // ---------------------------------------------------------- pass one: the gradient

  function BlendedRow(w: nat, h: nat, blocks: seq<Block>, n: nat, y: nat): (row: seq<Rgb>)
    requires y < h && n <= |blocks|
    ensures |row| == w && forall x :: 0 <= x < w ==> row[x] == Blended(w, h, blocks, n, x, y)
  {
    seq(w, x requires 0 <= x < w => Blended(w, h, blocks, n, x, y))
  }

  /** Stores a pixel in three bytes. */
  method Store(a: array<int>, i: nat, p: Rgb)
    requires i + 3 <= a.Length && IsColour(p)
    modifies a
    ensures PixelIs(a[..], i, p) && OnlyRange(old(a[..]), a[..], i, i + 3)
  {
    a[i] := p.r % 256;
    a[i + 1] := p.g % 256;
    a[i + 2] := p.b % 256;
  }

  /** Writing pixel x of a row leaves the pixels before it and those after it. */
  lemma Stored(a: seq<int>, b: seq<int>, at: nat, row: seq<Rgb>, x: nat)
    requires x < |row| && RowIs(a, at, row[..x]) && at + 3 * |row| <= |a|
    requires OnlyRange(a, b, at + 3 * x, at + 3 * x + 3) && PixelIs(b, at + 3 * x, row[x])
    ensures RowIs(b, at, row[..x + 1])
  {
    RowUntouched(a, b, at, row[..x], at + 3 * x, at + 3 * x + 3);
    var now := row[..x + 1];
    forall z | 0 <= z < |now| ensures PixelIs(b, at + 3 * z, now[z]) {
      if z < x { assert now[z] == row[..x][z]; }
    }
  }

  lemma RangeGrows(a: seq<int>, b: seq<int>, c: seq<int>, lo: nat, hi: nat, i: nat, j: nat)
    requires OnlyRange(a, b, lo, hi) && OnlyRange(b, c, i, j) && lo <= i && j <= hi
    ensures OnlyRange(a, c, lo, hi)
  {
  }

  method GradientRow(base: array<int>, w: nat, h: nat, y: nat, at: nat, ghost row: seq<Rgb>)
    requires y < h && at + 3 * w <= base.Length && |row| == w
    requires forall x :: 0 <= x < w ==> row[x] == Gradient(w, h, x, y)
    modifies base
    ensures RowIs(base[..], at, row) && OnlyRange(old(base[..]), base[..], at, at + 3 * w)
  {
    ghost var was := base[..];
    for x := 0 to w
      invariant RowIs(base[..], at, row[..x]) && OnlyRange(was, base[..], at, at + 3 * w)
    {
      ghost var mid := base[..];
      GradientIsColour(w, h, x, y);
      Store(base, at + 3 * x, Rgb(40 + 200 * x / w, 30 + 180 * y / h, 60 + 150 * (x + y) / (w + h)));
      Stored(mid, base[..], at, row, x);
      RangeGrows(was, mid, base[..], at, at + 3 * w, at + 3 * x, at + 3 * x + 3);
    }
    assert row[..w] == row;
  }

  method GradientPass(base: array<int>, w: nat, h: nat, blocks: seq<Block>) returns (ghost rows: seq<seq<Rgb>>)
    requires base.Length == 3 * w * h
    modifies base
    ensures |rows| == h && Holds(base[..], w, rows)
    ensures forall y :: 0 <= y < h ==> rows[y] == BlendedRow(w, h, blocks, 0, y)
  {
    rows := RawRows(base[..], w, h);
    RawRowsHold(base[..], w, h);
    for y := 0 to h
      invariant |rows| == h && Holds(base[..], w, rows)
      invariant forall z :: 0 <= z < y ==> rows[z] == BlendedRow(w, h, blocks, 0, z)
    {
      RowsApart(3 * w, y, h);
      ghost var was, row := base[..], BlendedRow(w, h, blocks, 0, y);
      GradientRow(base, w, h, y, 3 * w * y, row);
      RowUpdated(was, base[..], w, rows, y, row);
      rows := rows[y := row];
    }
  }

  // ------------------------------------------------------------ pass two: the blocks

  /** One row with a block averaged over the first pixels of its span. */
  function Averaged(row: seq<Rgb>, b: Block, to: nat): (r: seq<Rgb>)
    ensures |r| == |row|
    ensures forall x :: 0 <= x < |row| ==> r[x] == if b.x0 <= x < to then Average(row[x], b) else row[x]
  {
    seq(|row|, x requires 0 <= x < |row| => if b.x0 <= x < to then Average(row[x], b) else row[x])
  }

  /** Averaging block n into the rows it covers adds it to the naive picture. */
  lemma AverageAddsBlock(w: nat, h: nat, blocks: seq<Block>, n: nat, y: nat)
    requires y < h && n < |blocks|
    ensures BlendedRow(w, h, blocks, n + 1, y)
            == if blocks[n].y0 <= y < blocks[n].y1
               then Averaged(BlendedRow(w, h, blocks, n, y), blocks[n], blocks[n].x1)
               else BlendedRow(w, h, blocks, n, y)
  {
  }

  lemma PixelReplaced(a: seq<int>, b: seq<int>, at: nat, row: seq<Rgb>, x: nat, p: Rgb)
    requires x < |row| && RowIs(a, at, row) && OnlyRange(a, b, at + 3 * x, at + 3 * x + 3) && PixelIs(b, at + 3 * x, p)
    ensures RowIs(b, at, row[x := p])
  {
    var now := row[x := p];
    forall z | 0 <= z < |now| ensures PixelIs(b, at + 3 * z, now[z]) {
      if z != x { assert PixelIs(a, at + 3 * z, row[z]); }
    }
  }

  method AverageRow(base: array<int>, b: Block, at: nat, ghost row: seq<Rgb>)
    requires b.x0 <= b.x1 <= |row| && IsByte(b.cr) && IsByte(b.cg) && IsByte(b.cb)
    requires RowIs(base[..], at, row) && forall x :: 0 <= x < |row| ==> IsColour(row[x])
    modifies base
    ensures RowIs(base[..], at, Averaged(row, b, b.x1)) && OnlyRange(old(base[..]), base[..], at, at + 3 * |row|)
  {
    ghost var was := base[..];
    assert Averaged(row, b, b.x0) == row;
    for x := b.x0 to b.x1
      invariant RowIs(base[..], at, Averaged(row, b, x)) && OnlyRange(was, base[..], at, at + 3 * |row|)
    {
      ghost var mid, cur := base[..], Averaged(row, b, x);
      assert PixelIs(mid, at + 3 * x, cur[x]) && cur[x] == row[x];
      var i := at + 3 * x;
      Store(base, i, Rgb((base[i] + b.cr) / 2, (base[i + 1] + b.cg) / 2, (base[i + 2] + b.cb) / 2));
      PixelReplaced(mid, base[..], at, cur, x, Average(row[x], b));
      assert cur[x := Average(row[x], b)] == Averaged(row, b, x + 1);
      RangeGrows(was, mid, base[..], at, at + 3 * |row|, i, i + 3);
    }
  }

  method AverageBlock(base: array<int>, w: nat, h: nat, blocks: seq<Block>, n: nat, ghost rows0: seq<seq<Rgb>>)
    returns (ghost rows: seq<seq<Rgb>>)
    requires base.Length == 3 * w * h && n < |blocks| && AllInside(blocks, w, h)
    requires |rows0| == h && Holds(base[..], w, rows0)
    requires forall y :: 0 <= y < h ==> rows0[y] == BlendedRow(w, h, blocks, n, y)
    modifies base
    ensures |rows| == h && Holds(base[..], w, rows)
    ensures forall y :: 0 <= y < h ==> rows[y] == BlendedRow(w, h, blocks, n + 1, y)
  {
    var b := blocks[n];
    assert Inside(b, w, h);
    rows := rows0;
    for y := b.y0 to b.y1
      invariant |rows| == h && Holds(base[..], w, rows)
      invariant forall z :: 0 <= z < h ==> rows[z] == if b.y0 <= z < y then Averaged(rows0[z], b, b.x1) else rows0[z]
    {
      RowsApart(3 * w, y, h);
      ghost var was, row := base[..], rows0[y];
      forall x | 0 <= x < w ensures IsColour(row[x]) { BlendedIsColour(w, h, blocks, n, x, y); }
      assert rows[y] == row && RowIs(was, 3 * w * y, rows[y]);
      AverageRow(base, b, 3 * w * y, row);
      RowUpdated(was, base[..], w, rows, y, Averaged(row, b, b.x1));
      rows := rows[y := Averaged(row, b, b.x1)];
    }
    forall y | 0 <= y < h ensures rows[y] == BlendedRow(w, h, blocks, n + 1, y) {
      AverageAddsBlock(w, h, blocks, n, y);
    }
  }

  method BlockPass(base: array<int>, w: nat, h: nat, blocks: seq<Block>, ghost rows0: seq<seq<Rgb>>)
    returns (ghost rows: seq<seq<Rgb>>)
    requires base.Length == 3 * w * h && AllInside(blocks, w, h)
    requires |rows0| == h && Holds(base[..], w, rows0)
    requires forall y :: 0 <= y < h ==> rows0[y] == BlendedRow(w, h, blocks, 0, y)
    modifies base
    ensures |rows| == h && Holds(base[..], w, rows)
    ensures forall y :: 0 <= y < h ==> rows[y] == BlendedRow(w, h, blocks, |blocks|, y)
  {
    rows := rows0;
    for n := 0 to |blocks|
      invariant |rows| == h && Holds(base[..], w, rows)
      invariant forall y :: 0 <= y < h ==> rows[y] == BlendedRow(w, h, blocks, n, y)
    {
      rows := AverageBlock(base, w, h, blocks, n, rows);
    }
  }

  // ---------------------------------------------------------- pass three: the noise

  /** An opaque pixel stands in image buffer a at i. */
  ghost predicate OpaqueIs(a: seq<int>, i: nat, p: Rgb) { PixelIs(a, i, p) && i + 4 <= |a| && a[i + 3] == 255 }

  ghost predicate ImageRowIs(a: seq<int>, at: nat, row: seq<Rgb>) {
    at + 4 * |row| <= |a| && forall x :: 0 <= x < |row| ==> OpaqueIs(a, at + 4 * x, row[x])
  }

  function PixelRow(w: nat, h: nat, blocks: seq<Block>, noise: seq<int>, y: nat): (row: seq<Rgb>)
    requires y < h && |noise| == NoiseLen
    ensures |row| == w && forall x :: 0 <= x < w ==> row[x] == Pixel(w, h, blocks, noise, x, y)
  {
    seq(w, x requires 0 <= x < w => Pixel(w, h, blocks, noise, x, y))
  }

  lemma ImageRowUntouched(a: seq<int>, b: seq<int>, at: nat, row: seq<Rgb>, lo: nat, hi: nat)
    requires ImageRowIs(a, at, row) && OnlyRange(a, b, lo, hi) && (at + 4 * |row| <= lo || hi <= at)
    ensures ImageRowIs(b, at, row)
  {
    forall x | 0 <= x < |row| ensures OpaqueIs(b, at + 4 * x, row[x]) { assert OpaqueIs(a, at + 4 * x, row[x]); }
  }

  lemma ImageStored(a: seq<int>, b: seq<int>, at: nat, row: seq<Rgb>, x: nat)
    requires x < |row| && ImageRowIs(a, at, row[..x]) && at + 4 * |row| <= |a|
    requires OnlyRange(a, b, at + 4 * x, at + 4 * x + 4) && OpaqueIs(b, at + 4 * x, row[x])
    ensures ImageRowIs(b, at, row[..x + 1])
  {
    ImageRowUntouched(a, b, at, row[..x], at + 4 * x, at + 4 * x + 4);
    var now := row[..x + 1];
    forall z | 0 <= z < |now| ensures OpaqueIs(b, at + 4 * z, now[z]) {
      if z < x { assert now[z] == row[..x][z]; }
    }
  }

  method StoreOpaque(a: array<int>, i: nat, p: Rgb)
    requires i + 4 <= a.Length
    modifies a
    ensures OpaqueIs(a[..], i, p) && OnlyRange(old(a[..]), a[..], i, i + 4)
  {
    a[i], a[i + 1], a[i + 2], a[i + 3] := p.r, p.g, p.b, 255;
  }

  /** The masked walk over the noise is the index taken modulo its length. */
  lemma NoiseWalk(a: nat)
    ensures (a % NoiseLen + 17) % NoiseLen == (a + 17) % NoiseLen
  {
  }

  method NoiseRow(pix: array<int>, base: array<int>, noise: seq<int>, w: nat, y: nat, at: nat, to: nat,
                  ghost row: seq<Rgb>, ghost out: seq<Rgb>)
    requires pix != base && |noise| == NoiseLen && |row| == w == |out| && to + 4 * w <= pix.Length
    requires RowIs(base[..], at, row)
    requires forall x :: 0 <= x < w ==> out[x] == Noisy(row[x], noise[(31 * y + 17 * x) % NoiseLen])
    modifies pix
    ensures ImageRowIs(pix[..], to, out) && OnlyRange(old(pix[..]), pix[..], to, to + 4 * w)
  {
    ghost var was := pix[..];
    var ni := 31 * y % NoiseLen;
    for x := 0 to w
      invariant ni == (31 * y + 17 * x) % NoiseLen
      invariant ImageRowIs(pix[..], to, out[..x]) && OnlyRange(was, pix[..], to, to + 4 * w)
    {
      ghost var mid := pix[..];
      var i, nz := at + 3 * x, noise[ni];
      assert PixelIs(base[..], at + 3 * x, row[x]);
      NoiseWalk(31 * y + 17 * x);
      ni := (ni + 17) % NoiseLen;
      StoreOpaque(pix, to + 4 * x, Rgb(Clamp8(base[i] + nz), Clamp8(base[i + 1] + nz), Clamp8(base[i + 2] - nz)));
      ImageStored(mid, pix[..], to, out, x);
      RangeGrows(was, mid, pix[..], to, to + 4 * w, to + 4 * x, to + 4 * x + 4);
    }
    assert out[..w] == out;
  }

  method NoisePass(pix: array<int>, base: array<int>, noise: seq<int>, w: nat, h: nat, blocks: seq<Block>,
                   ghost rows: seq<seq<Rgb>>)
    requires pix != base && |noise| == NoiseLen && pix.Length == 4 * w * h && |rows| == h && Holds(base[..], w, rows)
    requires forall y :: 0 <= y < h ==> rows[y] == BlendedRow(w, h, blocks, |blocks|, y)
    modifies pix
    ensures forall y :: 0 <= y < h ==> ImageRowIs(pix[..], 4 * w * y, PixelRow(w, h, blocks, noise, y))
  {
    for y := 0 to h
      invariant forall z :: 0 <= z < y ==> ImageRowIs(pix[..], 4 * w * z, PixelRow(w, h, blocks, noise, z))
    {
      ghost var was := pix[..];
      RowsApart(4 * w, y, h);
      assert RowIs(base[..], 3 * w * y, rows[y]);
      NoiseRow(pix, base, noise, w, y, 3 * w * y, 4 * w * y, rows[y], PixelRow(w, h, blocks, noise, y));
      forall z | 0 <= z < y ensures ImageRowIs(pix[..], 4 * w * z, PixelRow(w, h, blocks, noise, z)) {
        RowsApart(4 * w, z, y);
        ImageRowUntouched(was, pix[..], 4 * w * z, PixelRow(w, h, blocks, noise, z), 4 * w * y, 4 * w * y + 4 * w);
      }
    }
  }

  // ------------------------------------------------------------------- the painter

  function Noise(g: Generator, seed: nat): (noise: seq<int>)
    ensures |noise| == NoiseLen && forall i :: 0 <= i < NoiseLen ==> noise[i] == NoiseAt(g, seed, i)
  {
    seq(NoiseLen, i requires 0 <= i < NoiseLen => NoiseAt(g, seed, i))
  }

  function Blocks(g: Generator, seed: nat, w: nat, h: nat): (bs: seq<Block>)
    requires w >= 1 && h >= 1
    ensures |bs| == BlockCount && forall j :: 0 <= j < BlockCount ==> bs[j] == BlockAt(g, seed, w, h, j)
  {
    seq(BlockCount, j requires 0 <= j < BlockCount => BlockAt(g, seed, w, h, j))
  }

  /** The three passes: every pixel is the naive pixel. */
  method Paint(g: Generator, w: nat, h: nat, seed: nat) returns (pix: array<int>)
    requires w >= 1 && h >= 1
    ensures fresh(pix) && pix.Length == 4 * w * h
    ensures forall y :: 0 <= y < h ==>
              ImageRowIs(pix[..], 4 * w * y, PixelRow(w, h, Blocks(g, seed, w, h), Noise(g, seed), y))
  {
    pix := new int[4 * w * h];
    var r := new Lcg(g, seed);
    var noise := DrawNoise(r);
    var blocks := DrawBlocks(r, w, h);
    assert noise == Noise(g, seed) && blocks == Blocks(g, seed, w, h);
    var base := new int[3 * w * h];
    ghost var rows := GradientPass(base, w, h, blocks);
    rows := BlockPass(base, w, h, blocks, rows);
    NoisePass(pix, base, noise, w, h, blocks, rows);
  }

  /** Any one pixel of a painted image, at its place in the buffer. */
  lemma PixelOf(a: seq<int>, w: nat, h: nat, blocks: seq<Block>, noise: seq<int>, x: nat, y: nat)
    requires x < w && y < h && |noise| == NoiseLen && ImageRowIs(a, 4 * w * y, PixelRow(w, h, blocks, noise, y))
    ensures OpaqueIs(a, 4 * w * y + 4 * x, Pixel(w, h, blocks, noise, x, y))
  {
    PixelInRow(a, 4 * w * y, PixelRow(w, h, blocks, noise, y), x);
  }

  lemma PixelInRow(a: seq<int>, at: nat, row: seq<Rgb>, x: nat)
    requires ImageRowIs(a, at, row) && x < |row|
    ensures OpaqueIs(a, at + 4 * x, row[x])
  {
  }

  // ------------------------------------------------------------- the picture in figures

  /** One colour component under a list of layers, each averaged in, in order. */
  function Layers(v: int, cs: seq<int>): int {
    if cs == [] then v else (Layers(v, cs[..|cs| - 1]) + cs[|cs| - 1]) / 2
  }

  /** Draw k of the corpus generator, reduced to [0, max). */
  function Drawn(seed: nat, k: nat, max: nat): nat
    requires max >= 1
  {
    Draw(Corpus, seed, k, max)
  }

  /** Block j, drawn after the 4096 noise values: a corner, a width and height of at
      most a sixth and one, and the image's edge. */
  predicate BlockCovers(seed: nat, w: nat, h: nat, j: nat, x: nat, y: nat)
    requires w >= 1 && h >= 1
  {
    var k := 4096 + 7 * j;
    && Drawn(seed, k, w) <= x <= Drawn(seed, k, w) + Drawn(seed, k + 2, w / 6 + 1) && x < w
    && Drawn(seed, k + 1, h) <= y <= Drawn(seed, k + 1, h) + Drawn(seed, k + 3, h / 6 + 1) && y < h
  }

  /** Component c of the first n blocks that cover the pixel, in the order drawn. */
  function Covering(seed: nat, w: nat, h: nat, n: nat, x: nat, y: nat, c: nat): seq<int>
    requires w >= 1 && h >= 1
    decreases n, w
  {
    if n == 0 then []
    else
      Covering(seed, w, h, n - 1, x, y, c)
      + if BlockCovers(seed, w, h, n - 1, x, y) then [Drawn(seed, 4096 + 7 * (n - 1) + 4 + c, 256)] else []
  }

  /** The noise drawn for the pixel at (x, y). */
  function NoiseOf(seed: nat, x: nat, y: nat): (nz: int)
    ensures -8 <= nz <= 8
  {
    Drawn(seed, (31 * y + 17 * x) % 4096, 17) - 8
  }

  /** Where the four bytes of the pixel at (x, y) begin. */
  function PixelAt(w: nat, x: nat, y: nat): nat { 4 * w * y + 4 * x }

  function Clamped(v: int): int { if v < 0 then 0 else if v <= 255 then v else 255 }

  lemma LayerOver(v: int, cs: seq<int>, covers: bool, c: int)
    ensures Layers(v, cs + if covers then [c] else []) == if covers then (Layers(v, cs) + c) / 2 else Layers(v, cs)
  {
    if covers { assert (cs + [c])[..|cs|] == cs; } else { assert cs + [] == cs; }
  }

  /** p is the background under the three lists of layers. */
  predicate Layered(p: Rgb, bg: Rgb, rs: seq<int>, gs: seq<int>, bs: seq<int>) {
    p.r == Layers(bg.r, rs) && p.g == Layers(bg.g, gs) && p.b == Layers(bg.b, bs)
  }

  lemma LayerBlock(p: Rgb, bg: Rgb, rs: seq<int>, gs: seq<int>, bs: seq<int>, b: Block, covers: bool)
    requires Layered(p, bg, rs, gs, bs)
    ensures Layered(if covers then Average(p, b) else p, bg, rs + (if covers then [b.cr] else []),
                    gs + (if covers then [b.cg] else []), bs + (if covers then [b.cb] else []))
  {
    LayerOver(bg.r, rs, covers, b.cr);
    LayerOver(bg.g, gs, covers, b.cg);
    LayerOver(bg.b, bs, covers, b.cb);
  }

  lemma {:induction false} BlendedInFigures(seed: nat, w: nat, h: nat, n: nat, x: nat, y: nat)
    requires x < w && y < h && n <= BlockCount
    ensures Layered(Blended(w, h, Blocks(Corpus, seed, w, h), n, x, y), Gradient(w, h, x, y),
                    Covering(seed, w, h, n, x, y, 0), Covering(seed, w, h, n, x, y, 1),
                    Covering(seed, w, h, n, x, y, 2))
    decreases n
  {
    if n > 0 {
      BlendedInFigures(seed, w, h, n - 1, x, y);
      CoversInFigures(seed, w, h, n - 1, x, y);
      LayerBlock(Blended(w, h, Blocks(Corpus, seed, w, h), n - 1, x, y), Gradient(w, h, x, y),
                 Covering(seed, w, h, n - 1, x, y, 0), Covering(seed, w, h, n - 1, x, y, 1),
                 Covering(seed, w, h, n - 1, x, y, 2), BlockAt(Corpus, seed, w, h, n - 1),
                 BlockCovers(seed, w, h, n - 1, x, y));
    }
  }

  lemma CoversInFigures(seed: nat, w: nat, h: nat, j: nat, x: nat, y: nat)
    requires x < w && y < h
    ensures Covers(BlockAt(Corpus, seed, w, h, j), x, y) <==> BlockCovers(seed, w, h, j, x, y)
  {
  }

  /** The pixel at (x, y) in figures: the background at its place, under the blocks drawn
      over it, moved by the noise drawn for it, blue against red and green; opaque. */
  ghost predicate InFigures(a: seq<int>, w: nat, h: nat, seed: nat, x: nat, y: nat)
    requires x < w && y < h
  {
    var nz := NoiseOf(seed, x, y);
    OpaqueIs(a, PixelAt(w, x, y),
             Rgb(Clamped(Layers(40 + 200 * x / w, Covering(seed, w, h, 24, x, y, 0)) + nz),
                 Clamped(Layers(30 + 180 * y / h, Covering(seed, w, h, 24, x, y, 1)) + nz),
                 Clamped(Layers(60 + 150 * (x + y) / (w + h), Covering(seed, w, h, 24, x, y, 2)) - nz)))
  }

  lemma PixelInFigures(a: seq<int>, w: nat, h: nat, seed: nat, x: nat, y: nat)
    requires x < w && y < h
    requires ImageRowIs(a, 4 * w * y, PixelRow(w, h, Blocks(Corpus, seed, w, h), Noise(Corpus, seed), y))
    ensures InFigures(a, w, h, seed, x, y)
  {
    PixelOf(a, w, h, Blocks(Corpus, seed, w, h), Noise(Corpus, seed), x, y);
    BlendedInFigures(seed, w, h, 24, x, y);
  }

  /** Where no block covers a pixel no value is clamped: red and green are the
      background plus the noise, blue the background minus it, each within eight. */
  lemma BarePixel(a: seq<int>, w: nat, h: nat, seed: nat, x: nat, y: nat)
    requires x < w && y < h
    requires InFigures(a, w, h, seed, x, y)
    requires forall j: nat :: j < 24 ==> !BlockCovers(seed, w, h, j, x, y)
    ensures var nz := NoiseOf(seed, x, y);
            OpaqueIs(a, PixelAt(w, x, y),
                        Rgb(40 + 200 * x / w + nz, 30 + 180 * y / h + nz, 60 + 150 * (x + y) / (w + h) - nz))
  {
    NoneCovers(seed, w, h, 24, x, y);
    Fraction(200, x, w);
    Fraction(180, y, h);
    Fraction(150, x + y, w + h);
  }

  lemma {:induction false} NoneCovers(seed: nat, w: nat, h: nat, n: nat, x: nat, y: nat)
    requires w >= 1 && h >= 1 && forall j: nat :: j < n ==> !BlockCovers(seed, w, h, j, x, y)
    ensures forall c: nat :: Covering(seed, w, h, n, x, y, c) == []
    decreases n
  {
    if n > 0 { NoneCovers(seed, w, h, n - 1, x, y); }
  }

  /** Where exactly one block covers a pixel, each component is the halved sum of the
      background and the block's own draw, moved by the noise. */
  lemma PixelUnderOneBlock(a: seq<int>, w: nat, h: nat, seed: nat, x: nat, y: nat, j: nat)
    requires x < w && y < h && j < 24
    requires InFigures(a, w, h, seed, x, y)
    requires forall k: nat :: k < 24 ==> (BlockCovers(seed, w, h, k, x, y) <==> k == j)
    ensures var nz := NoiseOf(seed, x, y);
            OpaqueIs(a, PixelAt(w, x, y),
                        Rgb((40 + 200 * x / w + Drawn(seed, 4100 + 7 * j, 256)) / 2 + nz,
                            (30 + 180 * y / h + Drawn(seed, 4101 + 7 * j, 256)) / 2 + nz,
                            (60 + 150 * (x + y) / (w + h) + Drawn(seed, 4102 + 7 * j, 256)) / 2 - nz))
  {
    OnlyOneCovers(seed, w, h, 24, x, y, j, 0);
    OnlyOneCovers(seed, w, h, 24, x, y, j, 1);
    OnlyOneCovers(seed, w, h, 24, x, y, j, 2);
    Fraction(200, x, w);
    Fraction(180, y, h);
    Fraction(150, x + y, w + h);
    OneLayer(40 + 200 * x / w, Drawn(seed, 4100 + 7 * j, 256));
    OneLayer(30 + 180 * y / h, Drawn(seed, 4101 + 7 * j, 256));
    OneLayer(60 + 150 * (x + y) / (w + h), Drawn(seed, 4102 + 7 * j, 256));
  }

  lemma OneLayer(v: int, c: int)
    ensures Layers(v, [c]) == (v + c) / 2
  {
    assert [c][..0] == [];
  }

  lemma {:induction false} OnlyOneCovers(seed: nat, w: nat, h: nat, n: nat, x: nat, y: nat, j: nat, c: nat)
    requires w >= 1 && h >= 1 && j < n && forall k: nat :: k < n ==> (BlockCovers(seed, w, h, k, x, y) <==> k == j)
    ensures Covering(seed, w, h, n, x, y, c) == [Drawn(seed, 4096 + 7 * j + 4 + c, 256)]
    decreases n
  {
    if j == n - 1 { NoneCovers(seed, w, h, n - 1, x, y); } else { OnlyOneCovers(seed, w, h, n - 1, x, y, j, c); }
  }

  /** The generator's first two words, and the first noise value, of seed zero. */
  lemma FirstDraws()
    ensures State(Corpus, 0, 0) == 1442695040888963407 && State(Corpus, 0, 1) == 1876011003808476466
    ensures Drawn(0, 0, 17) == 8
  {
    FirstWord();
    assert 1876011003808476466 / 0x2_0000_0000 == 218396424;
  }

  lemma FirstWord()
    ensures State(Corpus, 0, 0) == 1442695040888963407 && State(Corpus, 0, 1) == 1876011003808476466
  {
    assert 1442695040888963407 * 6364136223846793005 + 1442695040888963407
        == 497730533529282336 * 0x1_0000_0000_0000_0000 + 1876011003808476466;
  }

  /** scene: every pixel of the three passes is the naive pixel, and is what the figures
      say. */
  method Scene(w: nat, h: nat, seed: nat) returns (pix: array<int>)
    requires w >= 1 && h >= 1
    ensures fresh(pix) && pix.Length == 4 * w * h
    ensures forall y :: 0 <= y < h ==>
              ImageRowIs(pix[..], 4 * w * y, PixelRow(w, h, Blocks(Corpus, seed, w, h), Noise(Corpus, seed), y))
    ensures forall x, y :: 0 <= x < w && 0 <= y < h ==> InFigures(pix[..], w, h, seed, x, y)
  {
    pix := Paint(Corpus, w, h, seed);
    forall x, y | 0 <= x < w && 0 <= y < h ensures InFigures(pix[..], w, h, seed, x, y) {
      PixelInFigures(pix[..], w, h, seed, x, y);
    }
  }
}
