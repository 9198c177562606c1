/** The image sizes of the load corpus: Newton's integer square root, and the 4:3
    dimensions it gives each requested megapixel count. */
module LoadCorpus {
  import opened Wrappers
  import opened Decimals

  ghost predicate IsRoot(n: int, r: int) { 0 <= r && r * r <= n < (r + 1) * (r + 1) }

  /** The floor square root, found one step at a time. */
  function Root(n: nat): (r: nat)
    ensures IsRoot(n, r)
  {
    if n == 0 then 0
    else
      var r := Root(n - 1);
      assert (r + 1 + 1) * (r + 1 + 1) == (r + 1) * (r + 1) + 2 * r + 3;
      if (r + 1) * (r + 1) <= n then r + 1 else r
  }

  lemma RootIsUnique(n: int, r: int, s: int)
    requires IsRoot(n, r) && IsRoot(n, s)
    ensures r == s
  {
    if r < s { SquareGrows(r + 1, s); } else if s < r { SquareGrows(s + 1, r); }
  }

  /** One Newton step from any x >= 1 stays at or above the root. */
  lemma NewtonStaysAbove(n: nat, x: nat)
    requires x >= 1
    ensures var y := (x + n / x) / 2;
            n < (y + 1) * (y + 1)
  {
    var q := n / x;
    var y, k := (x + q) / 2, q + 1;
    assert n < x * k by { assert n == x * q + n % x; assert x * k == x * q + x; }
    SquareOfSum(x, k);
    assert x + k <= 2 * (y + 1);
    SquareGrows(x + k, 2 * (y + 1));
    assert (2 * (y + 1)) * (2 * (y + 1)) == 4 * ((y + 1) * (y + 1));
  }

  lemma SquareOfSum(a: int, b: int)
    ensures 4 * (a * b) <= (a + b) * (a + b)
  {
    assert (a + b) * (a + b) == a * a + 2 * (a * b) + b * b;
    assert (a - b) * (a - b) == a * a - 2 * (a * b) + b * b;
    assert (a - b) * (a - b) >= 0;
  }

  lemma SquareGrows(a: nat, b: nat)
    requires a <= b
    ensures a * a <= b * b
  {
    assert b * b == a * a + (b - a) * (b + a);
    assert (b - a) * (b + a) >= 0;
  }

  // ------------------------------------------------------------- the machine integers

  const Limit := 0x8000_0000_0000_0000

  type Int64 = x: int | -Limit <= x < Limit

  const MaxInt: Int64 := 0x7FFF_FFFF_FFFF_FFFF

  /** The 64-bit value a sum or product wraps around to. */
  function Wrap(v: int): (w: Int64)
    ensures -Limit <= v < Limit ==> w == v
    ensures Limit <= v < 2 * Limit ==> w == v - 2 * Limit
  {
    (v + Limit) % (2 * Limit) - Limit
  }

  /** Division that truncates toward zero. */
  function Quot(a: int, b: int): int
    requires b != 0
  {
    if a >= 0 && b > 0 then a / b
    else if a < 0 && b < 0 then (-a) / (-b)
    else if a < 0 then -((-a) / b)
    else -(a / (-b))
  }

  /** From any guess up to n, no Newton step leaves the range below n + 1. */
  lemma StepFits(n: nat, x: nat)
    requires 1 <= x <= n
    ensures x + n / x <= n + 1
  {
    AtLeastOne(n, x);
    SumBelowProduct(x, n / x);
    assert n == x * (n / x) + n % x;
  }

  lemma SumBelowProduct(x: nat, q: nat)
    requires x >= 1 && q >= 1
    ensures x + q <= x * q + 1
  {
    AtLeastItself(x, q - 1);
    assert x * q == x * (q - 1) + x;
  }

  lemma AtLeastItself(x: nat, k: nat)
    requires x >= 1
    ensures x * k >= k
  {
    assert x * k == k + (x - 1) * k;
  }

  lemma AtLeastOne(n: nat, x: nat)
    requires 1 <= x <= n
    ensures n / x >= 1
  {
    assert n == x * (n / x) + n % x;
  }

  ghost predicate Newton(n: int, x: int, y: int) {
    1 <= x <= n && y == (x + n / x) / 2 && n < (x + 1) * (x + 1)
  }

  /** The two halves the wrapped first guess for the largest integer goes through. */
  const HalfDown: Int64 := -0x4000_0000_0000_0000
  const QuarterDown: Int64 := -0x2000_0000_0000_0000

  function Halved(v: Int64): (h: Int64) { Quot(v, 2) }

  /** The loop's next y. */
  function Guess(n: Int64, x: Int64): Int64
    requires x != 0
  {
    Halved(Wrap(x + Quot(n, x)))
  }

  lemma MaxGuesses()
    ensures Halved(Wrap(MaxInt + 1)) == HalfDown && Guess(MaxInt, HalfDown) == QuarterDown
  {
    assert Wrap(MaxInt + 1) == -Limit;
    assert Quot(MaxInt, HalfDown) == -1;
  }

  lemma SmallGuess(n: Int64, x: Int64)
    requires 1 <= x <= n < MaxInt && x + n / x <= n + 1
    ensures Guess(n, x) == (x + n / x) / 2
  {
    QuotIs(n, x);
    HalvedSum(x + n / x);
  }

  lemma QuotIs(n: nat, x: nat)
    requires x >= 1
    ensures Quot(n, x) == n / x
  {
  }

  lemma HalvedSum(v: nat)
    requires v < Limit
    ensures Halved(Wrap(v)) == v / 2
  {
  }

  /** isqrt's loop variables: Newton's, or the wrapped ones. */
  ghost predicate Stage(n: int, x: int, y: int) {
    if n < MaxInt then Newton(n, x, y) else (x == n && y == HalfDown) || (x == HalfDown && y == QuarterDown)
  }

  lemma FirstStage(n: Int64)
    requires n >= 2
    ensures Stage(n, n, Halved(Wrap(n + 1)))
  {
    if n < MaxInt {
      assert n / n == 1;
      assert n < (n + 1) * (n + 1);
    } else {
      MaxGuesses();
    }
  }

  lemma NewtonGoesOn(n: nat, x: nat, y: int)
    requires n >= 2 && Newton(n, x, y) && y < x
    ensures y >= 1 && Newton(n, y, (y + n / y) / 2) && y + n / y <= n + 1
  {
    NewtonStaysAbove(n, x);
    StepIsPositive(n, x);
    StepFits(n, y);
  }

  lemma NextStage(n: Int64, x: Int64, y: Int64)
    requires n >= 2 && Stage(n, x, y) && y < x
    ensures y != 0 && Stage(n, y, Guess(n, y))
  {
    if n < MaxInt {
      NewtonGoesOn(n, x, y);
      SmallGuess(n, y);
    } else {
      MaxGuesses();
    }
  }

  lemma NewtonEnds(n: nat, x: nat, y: int)
    requires Newton(n, x, y) && y >= x
    ensures IsRoot(n, x) && x == Root(n)
  {
    assert n / x >= x;
    AtMost(n, x);
    RootIsUnique(n, x, Root(n));
  }

  /** What isqrt's loop computes from x and y, unless it divides by zero. */
  function Loop(n: Int64, x: Int64, y: Int64): Option<Int64>
    decreases x + Limit
  {
    if y >= x then Some(x) else if y == 0 then None else Loop(n, y, Guess(n, y))
  }

  function IsqrtOf(n: Int64): Option<Int64> {
    if n < 2 then Some(n) else Loop(n, n, Halved(Wrap(n + 1)))
  }

  lemma {:induction false} LoopEnds(n: Int64, x: Int64, y: Int64)
    requires n >= 2 && Stage(n, x, y)
    ensures Loop(n, x, y) == Some(if n < MaxInt then Root(n) else HalfDown)
    decreases x + Limit
  {
    if y < x {
      NextStage(n, x, y);
      LoopEnds(n, y, Guess(n, y));
    } else if n < MaxInt {
      NewtonEnds(n, x, y);
    }
  }

  /** What isqrt answers for every machine integer: the floor square root of each
      n >= 0 but the largest, whose first guess wraps. It never divides by zero. */
  lemma IsqrtIs(n: Int64)
    ensures IsqrtOf(n) == Some(if n < 0 then n else if n < MaxInt then Root(n) else HalfDown)
  {
    if n >= 2 {
      FirstStage(n);
      LoopEnds(n, n, Halved(Wrap(n + 1)));
    } else if n >= 0 {
      RootIsUnique(n, n, Root(n));
    }
  }

  lemma NoZeroDivisor(n: Int64)
    ensures IsqrtOf(n).Some?
  {
    IsqrtIs(n);
  }

  /** It is the floor square root of n >= 0 exactly when n is not the largest
      machine integer. */
  lemma IsqrtIsRootIff(n: Int64)
    requires n >= 0
    ensures IsqrtOf(n).Some? && (IsRoot(n, IsqrtOf(n).value) <==> n < MaxInt)
  {
    IsqrtIs(n);
  }

  /** isqrt. */
  method Isqrt(n: Int64) returns (x: Int64)
    ensures Some(x) == IsqrtOf(n)
  {
    if n < 2 { return n; }
    x := n;
    var y: Int64 := Halved(Wrap(x + 1));
    NoZeroDivisor(n);
    while y < x
      invariant IsqrtOf(n) == Loop(n, x, y)
      decreases x + Limit
    {
      x := y;
      y := Guess(n, x);
    }
  }

  lemma StepIsPositive(n: nat, x: nat)
    requires n >= 2 && x >= 1
    ensures (x + n / x) / 2 >= 1
  {
    if x == 1 { assert n / x == n; }
  }

  lemma AtMost(n: nat, x: nat)
    requires x >= 1 && n / x >= x
    ensures x * x <= n
  {
    var q := n / x;
    assert n == x * q + n % x;
    assert x * q >= x * x;
  }

  // -------------------------------------------------------------------------- sizes

  datatype Size = Size(mp: int, w: int, h: int)

  const Million := 1_000_000

  function SizeOf(mp: nat): Size {
    var w := EvenBelow(Root(mp * Million * 4 / 3));
    Size(mp, w, EvenBelow(w * 3 / 4))
  }

  function EvenBelow(n: nat): nat { n - n % 2 }

  lemma EvenBelowIs(n: nat)
    ensures EvenBelow(n) % 2 == 0 && EvenBelow(n) <= n <= EvenBelow(n) + 1
  {
  }

  /** An even width loses at most six quarters of a row to rounding. */
  lemma HeightBounds(w: nat)
    requires w % 2 == 0
    ensures var h := EvenBelow(w * 3 / 4);
            h % 2 == 0 && 4 * h <= 3 * w <= 4 * h + 6
  {
    EvenBelowIs(w * 3 / 4);
    var k := w / 2;
    assert w == 2 * k;
    assert w * 3 / 4 == 3 * k / 2;
  }

  lemma AreaIsBelow(m: nat, r: nat, w: nat, h: nat)
    requires r * r <= m * 4 / 3 && w <= r && 4 * h <= 3 * w
    ensures w * h <= m
  {
    SquareGrows(w, r);
    ScaleBy(w, 4 * h, 3 * w);
    assert w * (4 * h) == 4 * (w * h) && w * (3 * w) == 3 * (w * w);
  }

  lemma AreaIsClose(m: nat, r: nat, w: nat, h: nat)
    requires m * 4 / 3 < (r + 1) * (r + 1) && r <= w + 1 && 3 * w <= 4 * h + 6
    ensures m - w * h < 5 * w + 3
  {
    SquareGrows(r + 1, w + 2);
    ScaleBy(w, 3 * w, 4 * h + 6);
    assert w * (4 * h + 6) == 4 * (w * h) + 6 * w && w * (3 * w) == 3 * (w * w);
    assert (w + 2) * (w + 2) == w * w + 4 * w + 4;
  }

  lemma ScaleBy(w: nat, a: int, b: int)
    requires a <= b
    ensures w * a <= w * b
  {
  }

  /** Every size is even both ways, four to three within the rounding, holds at most
      the pixels asked for, and falls short of them by less than five rows and three
      pixels. */
  lemma SizesFit(mp: nat)
    ensures var s := SizeOf(mp);
            && s.w % 2 == 0 && s.h % 2 == 0 && 4 * s.h <= 3 * s.w <= 4 * s.h + 6
            && s.w * s.h <= mp * 1_000_000 && mp * 1_000_000 - s.w * s.h < 5 * s.w + 3
  {
    var m := mp * Million;
    var r := Root(m * 4 / 3);
    var w := EvenBelow(r);
    EvenBelowIs(r);
    HeightBounds(w);
    AreaIsBelow(m, r, w, EvenBelow(w * 3 / 4));
    AreaIsClose(m, r, w, EvenBelow(w * 3 / 4));
  }

  // -------------------------------------------------------------------------- the mix

  /** A comma-separated piece once trimmed and read. */
  datatype Part = Blank | Whole(value: Int64) | NotANumber

  datatype MixError = BadValue | EmptyMix

  predicate Good(p: Part) { p.Blank? || (p.Whole? && 1 <= p.value <= 200) }

  predicate AllGood(parts: seq<Part>) { forall i :: 0 <= i < |parts| ==> Good(parts[i]) }

  /** The sizes asked for, in the order written. */
  function Sizes(parts: seq<Part>): seq<Size> {
    if parts == [] then []
    else
      var last := parts[|parts| - 1];
      Sizes(parts[..|parts| - 1]) + if last.Whole? && last.value >= 0 then [SizeOf(last.value)] else []
  }

  predicate Descending(xs: seq<Size>) { forall i, j :: 0 <= i < j < |xs| ==> xs[i].mp >= xs[j].mp }

  /** Insertion into a descending list. */
  function Insert(x: Size, xs: seq<Size>): seq<Size> {
    if xs == [] || x.mp >= xs[0].mp then [x] + xs else [xs[0]] + Insert(x, xs[1..])
  }

  function SortDescending(xs: seq<Size>): seq<Size> {
    if xs == [] then [] else Insert(xs[0], SortDescending(xs[1..]))
  }

  lemma {:induction false} InsertKeeps(x: Size, xs: seq<Size>)
    requires Descending(xs)
    ensures Descending(Insert(x, xs)) && multiset(Insert(x, xs)) == multiset{x} + multiset(xs)
    ensures |Insert(x, xs)| == |xs| + 1 && (Insert(x, xs)[0] == x || (xs != [] && Insert(x, xs)[0] == xs[0]))
  {
    if xs != [] && x.mp < xs[0].mp {
      InsertKeeps(x, xs[1..]);
      assert xs == [xs[0]] + xs[1..];
      FirstIsLargest(xs[0], Insert(x, xs[1..]));
    }
  }

  lemma FirstIsLargest(x: Size, xs: seq<Size>)
    requires Descending(xs) && (xs == [] || x.mp >= xs[0].mp)
    ensures Descending([x] + xs)
  {
  }

  lemma {:induction false} SortSorts(xs: seq<Size>)
    ensures Descending(SortDescending(xs)) && multiset(SortDescending(xs)) == multiset(xs)
  {
    if xs != [] {
      SortSorts(xs[1..]);
      InsertKeeps(xs[0], SortDescending(xs[1..]));
      assert xs == [xs[0]] + xs[1..];
    }
  }

  // ----------------------------------------------------------------- reading the text

  /** strings.Split(text, ","): always at least one piece. */
  function Pieces(text: string): (ps: seq<string>)
    ensures ps != []
  {
    if text == "" then [""]
    else
      var rest := Pieces(text[1..]);
      if text[0] == ',' then [""] + rest else [[text[0]] + rest[0]] + rest[1..]
  }

  function TrimLeft(s: string, isSpace: char -> bool): string {
    if s != "" && isSpace(s[0]) then TrimLeft(s[1..], isSpace) else s
  }

  function TrimRight(s: string, isSpace: char -> bool): string {
    if s != "" && isSpace(s[|s| - 1]) then TrimRight(s[..|s| - 1], isSpace) else s
  }

  predicate Signed(s: string) { s != "" && (s[0] == '-' || s[0] == '+') }

  /** strconv.Atoi: an optional sign, digits, and a value that fits. */
  function Atoi(s: string): Option<Int64> {
    var digits := if Signed(s) then s[1..] else s;
    if digits == "" || !AllDigits(digits) then None
    else
      var v := if s[0] == '-' then -Number(digits) else Number(digits);
      if -Limit <= v < Limit then Some(v) else None
  }

  /** What parseMix makes of one piece. */
  function ReadPart(piece: string, isSpace: char -> bool): Part {
    var t := TrimRight(TrimLeft(piece, isSpace), isSpace);
    if t == "" then Blank
    else match Atoi(t) case None => NotANumber case Some(v) => Whole(v)
  }

  function PartsOf(text: string, isSpace: char -> bool): seq<Part> {
    var ps := Pieces(text);
    seq(|ps|, i requires 0 <= i < |ps| => ReadPart(ps[i], isSpace))
  }

  /** Every machine integer is read back from its decimal form. */
  lemma AtoiOfFormat(n: Int64)
    ensures Atoi(FormatInt(n)) == Some(n)
  {
    if n < 0 {
      var m: nat := 0 - (n as int);
      NumberOfDecimal(m);
      assert FormatInt(n)[1..] == Decimal(m);
    } else {
      NumberOfDecimal(n);
    }
  }

  lemma {:induction false} PieceBefore(a: string, rest: string)
    requires ',' !in a
    ensures Pieces(a + "," + rest) == [a] + Pieces(rest)
  {
    var text := a + "," + rest;
    if a == "" {
      assert text[1..] == rest;
    } else {
      assert text[1..] == a[1..] + "," + rest && [a[0]] + a[1..] == a;
      PieceBefore(a[1..], rest);
    }
  }

  lemma {:induction false} PieceAlone(a: string)
    requires ',' !in a
    ensures Pieces(a) == [a]
  {
    if a != "" {
      PieceAlone(a[1..]);
      assert [a[0]] + a[1..] == a;
    }
  }

  /** The mix written with commas. */
  function Written(mps: seq<nat>): string
    requires mps != []
  {
    if |mps| == 1 then Decimal(mps[0]) else Decimal(mps[0]) + "," + Written(mps[1..])
  }

  lemma {:induction false} WrittenPieces(mps: seq<nat>)
    requires mps != []
    ensures |Pieces(Written(mps))| == |mps|
    ensures forall i :: 0 <= i < |mps| ==> Pieces(Written(mps))[i] == Decimal(mps[i])
  {
    NumberOfDecimal(mps[0]);
    if |mps| == 1 {
      PieceAlone(Decimal(mps[0]));
    } else {
      PieceBefore(Decimal(mps[0]), Written(mps[1..]));
      WrittenPieces(mps[1..]);
    }
  }

  lemma NumberIsRead(n: nat, isSpace: char -> bool)
    requires n < Limit && forall c | IsDigit(c) :: !isSpace(c)
    ensures ReadPart(Decimal(n), isSpace) == Whole(n)
  {
    NumberOfDecimal(n);
    AtoiOfFormat(n);
    var d := Decimal(n);
    assert IsDigit(d[0]) && IsDigit(d[|d| - 1]);
  }

  /** A mix written with commas is read back number for number, whatever counts as
      space, as long as no digit does. */
  lemma WrittenReadsBack(mps: seq<nat>, isSpace: char -> bool)
    requires mps != [] && (forall i :: 0 <= i < |mps| ==> mps[i] < Limit) && forall c | IsDigit(c) :: !isSpace(c)
    ensures PartsOf(Written(mps), isSpace) == seq(|mps|, i requires 0 <= i < |mps| => Whole(mps[i]))
  {
    WrittenPieces(mps);
    forall i | 0 <= i < |mps| ensures PartsOf(Written(mps), isSpace)[i] == Whole(mps[i]) {
      NumberIsRead(mps[i], isSpace);
    }
  }

  lemma RootIsSmall(n: Int64)
    requires n >= 0
    ensures Root(n) < 0x1_0000_0000
  {
    if Root(n) >= 0x1_0000_0000 { SquareGrows(0x1_0000_0000, Root(n)); }
  }

  /** The largest megapixel count whose pixel product, before the division by three,
      fits 64 bits. */
  const MaxMegapixels := 2_305_843_009_213

  /** The body of parseMix's loop in 64-bit arithmetic, which is exact well beyond the
      200 megapixels the mix admits: up to the last count whose product does not wrap. */
  method MixSize(mp: Int64) returns (size: Size)
    requires 0 <= mp <= MaxMegapixels
    ensures MaxMegapixels * Million * 4 < Limit <= (MaxMegapixels + 1) * Million * 4
    ensures size == SizeOf(mp)
  {
    var n := Quot(Wrap(Wrap(mp * Million) * 4), 3);
    IsqrtIs(n);
    RootIsSmall(n);
    var w: int := Isqrt(n);
    w := w - w % 2;
    var h := Quot(Wrap(w * 3), 4);
    h := h - h % 2;
    size := Size(mp, w, h);
  }

  /** parseMix. */
  method ParseMix(text: string, isSpace: char -> bool) returns (r: Result<seq<Size>, MixError>)
    ensures MixIs(PartsOf(text, isSpace), r)
  {
    r := ParseParts(PartsOf(text, isSpace));
  }

  /** Refused for exactly a bad value or an empty mix; otherwise the sizes asked for, in
      descending order. */
  ghost predicate MixIs(parts: seq<Part>, r: Result<seq<Size>, MixError>) {
    && (!AllGood(parts) ==> r == Err(BadValue))
    && (AllGood(parts) && Sizes(parts) == [] ==> r == Err(EmptyMix))
    && (AllGood(parts) && Sizes(parts) != [] ==>
          r.Ok? && Descending(r.value) && multiset(r.value) == multiset(Sizes(parts)))
  }

  /** The loop of parseMix over the pieces it reads. */
  method ParseParts(parts: seq<Part>) returns (r: Result<seq<Size>, MixError>)
    ensures MixIs(parts, r)
  {
    var out: seq<Size> := [];
    for i := 0 to |parts|
      invariant AllGood(parts[..i]) && out == Sizes(parts[..i])
    {
      assert parts[..i + 1][..i] == parts[..i];
      var p := parts[i];
      if p.NotANumber? || (p.Whole? && (p.value < 1 || p.value > 200)) {
        assert !Good(p);
        return Err(BadValue);
      }
      if p.Whole? {
        var size := MixSize(p.value);
        out := out + [size];
      } else {
        assert out + [] == out;
      }
    }
    assert parts[..|parts|] == parts;
    if |out| == 0 { return Err(EmptyMix); }
    SortSorts(out);
    r := Ok(SortDescending(out));
  }
}
