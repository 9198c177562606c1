/** The signed-request scheme of the internal search API. The keyed hash (section 2
    of RFC 2104) and the body hash are parameters. */
module SearchHmac {
  import opened Wrappers
  import opened Decimals

  const MinTimestamp := 1_000_000_000
  const MaxTimestamp := 4_102_444_800
  const MaxClockSkew := 300
  const MinKeyBytes := 32
  const MaxInt64 := 0x7FFF_FFFF_FFFF_FFFF

  datatype HmacError =
    | KeyTooShort | MethodNotCanonical | SignatureMissing | TimestampSkew | SignatureInvalid | NoRandomness

  predicate InRange(n: int) { MinTimestamp <= n <= MaxTimestamp }

  // ------------------------------------------------------------------- field shapes

  predicate IsUpper(c: char) { 'A' <= c <= 'Z' }

  predicate IsLowerHex(c: char) { IsDigit(c) || 'a' <= c <= 'f' }

  predicate ValidMethod(m: string) { m != "" && forall i :: 0 <= i < |m| ==> IsUpper(m[i]) }

  predicate ValidNonce(n: string) {
    32 <= |n| <= 128 && |n| % 2 == 0 && forall i :: 0 <= i < |n| ==> IsLowerHex(n[i])
  }

  method ValidateMethod(m: string) returns (err: Option<HmacError>)
    ensures err == if ValidMethod(m) then None else Some(MethodNotCanonical)
  {
    if m == "" { return Some(MethodNotCanonical); }
    for i := 0 to |m|
      invariant forall j :: 0 <= j < i ==> IsUpper(m[j])
    {
      if m[i] < 'A' || m[i] > 'Z' { return Some(MethodNotCanonical); }
    }
    err := None;
  }

  method ValidateNonce(n: string) returns (err: Option<HmacError>)
    ensures err == if ValidNonce(n) then None else Some(SignatureMissing)
  {
    if |n| < 32 || |n| % 2 != 0 || |n| > 128 { return Some(SignatureMissing); }
    for i := 0 to |n|
      invariant forall j :: 0 <= j < i ==> IsLowerHex(n[j])
    {
      if !IsDigit(n[i]) && !('a' <= n[i] <= 'f') { return Some(SignatureMissing); }
    }
    err := None;
  }

  // --------------------------------------------------------------------- timestamps

  /** ValidateTimestamp. */
  function TimestampOf(raw: string): Result<int, HmacError> {
    if raw == "" then Err(SignatureMissing)
    else if raw[0] < '1' || raw[0] > '9' || !AllDigits(raw) then Err(SignatureMissing)
    else if |raw| > 19 then Err(TimestampSkew)
    else if Number(raw) > MaxInt64 then Err(SignatureMissing)
    else if !InRange(Number(raw)) then Err(TimestampSkew)
    else Ok(Number(raw))
  }

  method ValidateTimestamp(raw: string) returns (r: Result<int, HmacError>)
    ensures r == TimestampOf(raw)
  {
    if raw == "" { return Err(SignatureMissing); }
    if raw[0] < '1' || raw[0] > '9' { return Err(SignatureMissing); }
    for i := 0 to |raw|
      invariant AllDigits(raw[..i])
    {
      if raw[i] < '0' || raw[i] > '9' { return Err(SignatureMissing); }
    }
    assert raw[..|raw|] == raw;
    if |raw| > 19 { return Err(TimestampSkew); }
    var secs := ParseInt(raw);
    if secs > MaxInt64 { return Err(SignatureMissing); }
    if secs < MinTimestamp || secs > MaxTimestamp { return Err(TimestampSkew); }
    r := Ok(secs);
  }

  /** Accepted timestamp strings and numbers in range correspond one to one. */
  lemma TimestampIffDecimal(raw: string, n: int)
    ensures TimestampOf(raw) == Ok(n) <==> InRange(n) && raw == Decimal(n)
  {
    if TimestampOf(raw) == Ok(n) { DecimalOfNumber(raw); }
    if InRange(n) && raw == Decimal(n) {
      NumberOfDecimal(n);
      assert Pow10(5) == 100_000;
      assert Pow10(10) == 10_000_000_000;
      DecimalIsShort(n, 10);
    }
  }

  // --------------------------------------------------------------- canonical strings

  datatype Signed = Signed(verb: string, path: string, timestamp: string, nonce: string, bodyHash: string)

  function Canonical(f: Signed): string {
    "v1" + "\n" + f.verb + "\n" + f.path + "\n" + f.timestamp + "\n" + f.nonce + "\n" + f.bodyHash
  }

  predicate OneLine(s: string) { '\n' !in s }

  function FirstLine(s: string): nat { if s == "" || s[0] == '\n' then 0 else 1 + FirstLine(s[1..]) }

  function LastLine(s: string): nat { if s == "" || s[|s| - 1] == '\n' then 0 else 1 + LastLine(s[..|s| - 1]) }

  lemma {:induction false} FirstLineIs(a: string, x: string)
    requires OneLine(a)
    ensures FirstLine(a + "\n" + x) == |a|
  {
    var s := a + "\n" + x;
    if a != "" {
      assert s[0] == a[0] && s[1..] == a[1..] + "\n" + x;
      FirstLineIs(a[1..], x);
    }
  }

  lemma {:induction false} LastLineIs(x: string, a: string)
    requires OneLine(a)
    ensures LastLine(x + "\n" + a) == |a|
  {
    var s := x + "\n" + a;
    if a != "" {
      assert s[|s| - 1] == a[|a| - 1] && s[..|s| - 1] == x + "\n" + a[..|a| - 1];
      LastLineIs(x, a[..|a| - 1]);
    }
  }

  lemma SplitFirst(a: string, x: string, b: string, y: string)
    requires OneLine(a) && OneLine(b) && a + "\n" + x == b + "\n" + y
    ensures a == b && x == y
  {
    var s, t := a + "\n" + x, b + "\n" + y;
    FirstLineIs(a, x);
    FirstLineIs(b, y);
    assert s[..|a|] == a && t[..|b|] == b;
    assert s[|a| + 1..] == x && t[|b| + 1..] == y;
  }

  lemma SplitLast(x: string, a: string, y: string, b: string)
    requires OneLine(a) && OneLine(b) && x + "\n" + a == y + "\n" + b
    ensures a == b && x == y
  {
    var s, t := x + "\n" + a, y + "\n" + b;
    LastLineIs(x, a);
    LastLineIs(y, b);
    assert s[..|x|] == x && t[..|y|] == y;
    assert s[|x| + 1..] == a && t[|y| + 1..] == b;
  }

  /** Text cut at its newlines. */
  function LinesOf(s: string): (lines: seq<string>)
    decreases |s|
  {
    var n := FirstLine(s);
    FirstLineFits(s);
    if n == |s| then [s] else [s[..n]] + LinesOf(s[n + 1..])
  }

  lemma {:induction false} FirstLineFits(s: string)
    ensures FirstLine(s) <= |s|
  {
    if s != "" && s[0] != '\n' { FirstLineFits(s[1..]); }
  }

  lemma LineThenRest(a: string, x: string)
    requires OneLine(a)
    ensures LinesOf(a + "\n" + x) == [a] + LinesOf(x)
  {
    var s := a + "\n" + x;
    FirstLineIs(a, x);
    assert s[..|a|] == a && s[|a| + 1..] == x;
  }

  lemma {:induction false} LastLineAlone(a: string)
    requires OneLine(a)
    ensures FirstLine(a) == |a| && LinesOf(a) == [a]
  {
    if a != "" { LastLineAlone(a[1..]); }
  }

  lemma Regrouped(a: string, b: string, c: string)
    ensures a + "\n" + b + "\n" + c == a + "\n" + (b + "\n" + c)
  {
  }

  lemma FourthOn(path: string, ts: string, nonce: string, hash: string)
    requires OneLine(path) && OneLine(ts) && OneLine(nonce) && OneLine(hash)
    ensures LinesOf(path + "\n" + (ts + "\n" + (nonce + "\n" + hash))) == [path, ts, nonce, hash]
  {
    LineThenRest(path, ts + "\n" + (nonce + "\n" + hash));
    LineThenRest(ts, nonce + "\n" + hash);
    LineThenRest(nonce, hash);
    LastLineAlone(hash);
  }

  function Six(a: string, b: string, c: string, d: string, e: string, g: string): string {
    a + "\n" + (b + "\n" + (c + "\n" + (d + "\n" + (e + "\n" + g))))
  }

  lemma CanonicalIsSix(f: Signed)
    ensures Canonical(f) == Six("v1", f.verb, f.path, f.timestamp, f.nonce, f.bodyHash)
  {
    var v: string := "v1";
    var rest4 := f.nonce + "\n" + f.bodyHash;
    var rest3 := f.timestamp + "\n" + rest4;
    Regrouped(v + "\n" + f.verb + "\n" + f.path + "\n" + f.timestamp, f.nonce, f.bodyHash);
    Regrouped(v + "\n" + f.verb + "\n" + f.path, f.timestamp, rest4);
    Regrouped(v + "\n" + f.verb, f.path, rest3);
    Regrouped(v, f.verb, f.path + "\n" + rest3);
  }

  lemma SixLines(a: string, b: string, c: string, d: string, e: string, g: string)
    requires OneLine(a) && OneLine(b) && OneLine(c) && OneLine(d) && OneLine(e) && OneLine(g)
    ensures LinesOf(Six(a, b, c, d, e, g)) == [a, b, c, d, e, g]
  {
    var rest := c + "\n" + (d + "\n" + (e + "\n" + g));
    LineThenRest(a, b + "\n" + rest);
    LineThenRest(b, rest);
    FourthOn(c, d, e, g);
  }

  /** The canonical string of one-line fields is six lines: the version, then method,
      path, timestamp, nonce and body hash. */
  lemma CanonicalLines(f: Signed)
    requires OneLine(f.verb) && OneLine(f.path) && OneLine(f.timestamp) && OneLine(f.nonce) && OneLine(f.bodyHash)
    ensures LinesOf(Canonical(f)) == ["v1", f.verb, f.path, f.timestamp, f.nonce, f.bodyHash]
  {
    CanonicalIsSix(f);
    SixLines("v1", f.verb, f.path, f.timestamp, f.nonce, f.bodyHash);
  }

  /** Whatever bytes the path holds, newlines included, two requests with one-line
      other fields have the same canonical string only if they are the same. */
  lemma CanonicalIsInjective(f: Signed, g: Signed)
    requires OneLine(f.verb) && OneLine(f.timestamp) && OneLine(f.nonce) && OneLine(f.bodyHash)
    requires OneLine(g.verb) && OneLine(g.timestamp) && OneLine(g.nonce) && OneLine(g.bodyHash)
    requires Canonical(f) == Canonical(g)
    ensures f == g
  {
    var f3, g3 := "v1" + "\n" + f.verb + "\n" + f.path, "v1" + "\n" + g.verb + "\n" + g.path;
    SplitLast(f3 + "\n" + f.timestamp + "\n" + f.nonce, f.bodyHash, g3 + "\n" + g.timestamp + "\n" + g.nonce,
              g.bodyHash);
    SplitLast(f3 + "\n" + f.timestamp, f.nonce, g3 + "\n" + g.timestamp, g.nonce);
    SplitLast(f3, f.timestamp, g3, g.timestamp);
    Peel(f.verb, f.path);
    Peel(g.verb, g.path);
    SplitFirst("v1", f.verb + "\n" + f.path, "v1", g.verb + "\n" + g.path);
    SplitFirst(f.verb, f.path, g.verb, g.path);
  }

  lemma Peel(verb: string, path: string)
    ensures "v1" + "\n" + verb + "\n" + path == "v1" + "\n" + (verb + "\n" + path)
  {
  }

  /** Every shape the validators accept is one line, so validated requests are told
      apart by their canonical strings. */
  lemma ValidatedAreInjective(f: Signed, g: Signed)
    requires ValidMethod(f.verb) && TimestampOf(f.timestamp).Ok? && ValidNonce(f.nonce) && OneLine(f.bodyHash)
    requires ValidMethod(g.verb) && TimestampOf(g.timestamp).Ok? && ValidNonce(g.nonce) && OneLine(g.bodyHash)
    ensures Canonical(f) == Canonical(g) <==> f == g
  {
    if Canonical(f) == Canonical(g) { CanonicalIsInjective(f, g); }
  }

  // ----------------------------------------------------------------- sign and verify

  type Key = seq<int>
  type Body = seq<int>

  /** The values of the three headers, in the order received. */
  datatype Headers = Headers(timestamp: seq<string>, nonce: seq<string>, signature: seq<string>)

  /** HMAC-SHA-256 of a message and SHA-256 of a body, both as hex. */
  datatype Hashes = Hashes(mac: (Key, string) -> string, hash: Body -> string)

  function Get(values: seq<string>): string { if values == [] then "" else values[0] }

  function Signature(hs: Hashes, key: Key, verb: string, path: string, ts: string, nonce: string, body: Body): string {
    "v1=" + hs.mac(key, Canonical(Signed(verb, path, ts, nonce, hs.hash(body))))
  }

  function Sign(hs: Hashes, key: Key, verb: string, path: string, ts: string, nonce: string, body: Body)
    : Result<string, HmacError>
  {
    if |key| < MinKeyBytes then Err(KeyTooShort)
    else if !ValidMethod(verb) then Err(MethodNotCanonical)
    else Ok(Signature(hs, key, verb, path, ts, nonce, body))
  }

  predicate WithinWindow(secs: int, now: int) {
    if !InRange(secs) || !InRange(now) then false
    else
      var delta := now - secs;
      (if delta < 0 then -delta else delta) <= MaxClockSkew
  }

  /** Verify: None is acceptance. */
  function Verify(hs: Hashes, key: Key, verb: string, path: string, h: Headers, body: Body, now: int)
    : Option<HmacError>
  {
    var ts, nonce, sig := Get(h.timestamp), Get(h.nonce), Get(h.signature);
    if |key| < MinKeyBytes then Some(KeyTooShort)
    else if !ValidMethod(verb) then Some(MethodNotCanonical)
    else if ts == "" || nonce == "" || sig == "" then Some(SignatureMissing)
    else if |h.timestamp| != 1 || |h.nonce| != 1 || |h.signature| != 1 then Some(SignatureMissing)
    else if !ValidNonce(nonce) then Some(SignatureMissing)
    else if !("v1=" <= sig) then Some(SignatureMissing)
    else
      match TimestampOf(ts)
      case Err(e) => Some(e)
      case Ok(secs) =>
        if !WithinWindow(secs, now) then Some(TimestampSkew)
        else if sig != Signature(hs, key, verb, path, ts, nonce, body) then Some(SignatureInvalid)
        else None
  }

  /** What acceptance means: single-valued headers, a canonical timestamp within 300
      seconds of a sane clock, and the signature this key gives these very fields. */
  lemma AcceptedIff(hs: Hashes, key: Key, verb: string, path: string, h: Headers, body: Body, now: int)
    ensures Verify(hs, key, verb, path, h, body, now) == None
            <==> (&& |key| >= MinKeyBytes && ValidMethod(verb) && |h.nonce| == 1 && ValidNonce(h.nonce[0])
                  && exists n: nat :: InRange(n) && InRange(now) && -MaxClockSkew <= now - n <= MaxClockSkew
                       && h.timestamp == [Decimal(n)]
                       && h.signature == [Signature(hs, key, verb, path, Decimal(n), h.nonce[0], body)])
  {
    if Verify(hs, key, verb, path, h, body, now) == None {
      var n := TimestampOf(h.timestamp[0]).value;
      TimestampIffDecimal(h.timestamp[0], n);
      assert h.timestamp == [h.timestamp[0]] && h.signature == [h.signature[0]];
    }
    forall n: nat | InRange(n) ensures TimestampOf(Decimal(n)) == Ok(n) { TimestampIffDecimal(Decimal(n), n); }
  }

  /** A request signed at second n and verified unchanged at second m is accepted
      exactly when both clocks are in range and at most 300 seconds apart. */
  lemma SignedVerifiesIff(hs: Hashes, key: Key, verb: string, path: string, body: Body, nonce: string, n: int, m: int)
    requires |key| >= MinKeyBytes && ValidMethod(verb) && ValidNonce(nonce)
    ensures var sig := Sign(hs, key, verb, path, FormatInt(n), nonce, body).value;
            Verify(hs, key, verb, path, Headers([FormatInt(n)], [nonce], [sig]), body, m) == None
            <==> InRange(n) && InRange(m) && -MaxClockSkew <= m - n <= MaxClockSkew
  {
    var ts := FormatInt(n);
    TimestampIffDecimal(ts, n);
    if n < 0 { assert ts[0] == '-'; } else { FormattedIsItself(n); }
  }

  /** No other number's decimal form is a non-negative number's own. */
  lemma FormattedIsItself(n: nat)
    ensures TimestampOf(Decimal(n)).Ok? ==> TimestampOf(Decimal(n)).value == n
  {
    NumberOfDecimal(n);
  }

  // ------------------------------------------------------------- what a signature binds

  /** Under this key no two messages have the same code. */
  ghost predicate MacIsInjective(hs: Hashes, key: Key) {
    forall m, n :: hs.mac(key, m) == hs.mac(key, n) ==> m == n
  }

  ghost predicate HashesAreOneLine(hs: Hashes) { forall b :: OneLine(hs.hash(b)) }

  /** What of a request the canonical string covers. */
  function Covered(hs: Hashes, verb: string, path: string, ts: string, nonce: string, body: Body): Signed {
    Signed(verb, path, ts, nonce, hs.hash(body))
  }

  predicate Validated(f: Signed) { ValidMethod(f.verb) && TimestampOf(f.timestamp).Ok? && ValidNonce(f.nonce) }

  lemma SignaturesAgreeIff(hs: Hashes, key: Key, f: Signed, g: Signed)
    requires MacIsInjective(hs, key) && Validated(f) && Validated(g) && OneLine(f.bodyHash) && OneLine(g.bodyHash)
    ensures "v1=" + hs.mac(key, Canonical(f)) == "v1=" + hs.mac(key, Canonical(g)) <==> f == g
  {
    var x, y := hs.mac(key, Canonical(f)), hs.mac(key, Canonical(g));
    assert ("v1=" + x)[3..] == x && ("v1=" + y)[3..] == y;
    ValidatedAreInjective(f, g);
  }

  /** For a code injective under the key, the signature of one validated request is
      accepted with another exactly when method, path, timestamp, nonce and body hash
      all agree, and the clock is within the window. */
  lemma SignatureBindsRequest(hs: Hashes, key: Key, verb: string, path: string, ts: string, nonce: string, body: Body,
                              verb': string, path': string, ts': string, nonce': string, body': Body, now: int)
    requires |key| >= MinKeyBytes && MacIsInjective(hs, key) && HashesAreOneLine(hs)
    requires Validated(Covered(hs, verb, path, ts, nonce, body))
    ensures var sig := Signature(hs, key, verb, path, ts, nonce, body);
            Verify(hs, key, verb', path', Headers([ts'], [nonce'], [sig]), body', now) == None <==>
              && Covered(hs, verb, path, ts, nonce, body) == Covered(hs, verb', path', ts', nonce', body')
              && WithinWindow(TimestampOf(ts).value, now)
  {
    var f, g := Covered(hs, verb, path, ts, nonce, body), Covered(hs, verb', path', ts', nonce', body');
    if Validated(g) { SignaturesAgreeIff(hs, key, f, g); }
  }

  // ------------------------------------------------------------------------ requests

  type Octet = x: int | 0 <= x < 256

  const HexDigits := "0123456789abcdef"

  function Hex(b: seq<Octet>): (s: string)
    ensures |s| == 2 * |b| && forall i :: 0 <= i < |s| ==> IsLowerHex(s[i])
  {
    if b == [] then "" else [HexDigits[b[0] / 16], HexDigits[b[0] % 16]] + Hex(b[1..])
  }

  const NonceBytes := 16

  /** NewNonce draws a nonce that every verifier finds well formed. */
  lemma DrawnIsValid(b: seq<Octet>)
    requires |b| == NonceBytes
    ensures ValidNonce(Hex(b))
  {
  }

  /** A request whose headers SignRequest sets in place. */
  class Request {
    const verb: string
    const path: string
    var header: Headers

    constructor (verb: string, path: string, header: Headers)
      ensures this.verb == verb && this.path == path && this.header == header
    {
      this.verb, this.path, this.header := verb, path, header;
    }

    /** SignRequest, with the random bytes NewNonce drew, if it could. On success the
        request verifies unchanged at second m exactly within the clock window;
        otherwise its headers are left alone. */
    method SignRequest(hs: Hashes, key: Key, body: Body, now: int, drawn: Option<seq<Octet>>)
      returns (err: Option<HmacError>)
      requires drawn.Some? ==> |drawn.value| == NonceBytes
      modifies this
      ensures err.None? <==> drawn.Some? && |key| >= MinKeyBytes && ValidMethod(verb)
      ensures err.Some? ==> header == old(header)
      ensures drawn.None? ==> err == Some(NoRandomness)
      ensures err.None? ==>
                forall m :: Verify(hs, key, verb, path, header, body, m) == None <==>
                              InRange(now) && InRange(m) && -MaxClockSkew <= m - now <= MaxClockSkew
    {
      var ts := FormatInt(now);
      if drawn.None? { return Some(NoRandomness); }
      var nonce := Hex(drawn.value);
      var sig := Sign(hs, key, verb, path, ts, nonce, body);
      if sig.Err? { return Some(sig.error); }
      header := header.(timestamp := [ts]);
      header := header.(nonce := [nonce]);
      header := header.(signature := [sig.value]);
      err := None;
      DrawnIsValid(drawn.value);
      forall m
        ensures Verify(hs, key, verb, path, header, body, m) == None <==>
                  InRange(now) && InRange(m) && -MaxClockSkew <= m - now <= MaxClockSkew
      {
        SignedVerifiesIff(hs, key, verb, path, body, nonce, now, m);
      }
    }
  }
}
