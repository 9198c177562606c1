/** The one line reader: text split on LF, backslash-newline joined as make joins
    it, comments stripped, and the recipe that follows a rule line. */
module MakefileLines {

  // ------------------------------------------------------------ physical lines

  predicate NoLF(s: string) { '\n' !in s }

  /** text.split("\n"): always at least one piece. */
  function Split(text: string): (pieces: seq<string>)
    ensures pieces != []
  {
    if text == [] then [""]
    else
      var rest := Split(text[1..]);
      if text[0] == '\n' then [""] + rest
      else [[text[0]] + rest[0]] + rest[1..]
  }

  function JoinLF(pieces: seq<string>): string
    requires pieces != []
  {
    if |pieces| == 1 then pieces[0] else pieces[0] + "\n" + JoinLF(pieces[1..])
  }

  lemma {:induction false} PiecesHaveNoLF(text: string, i: nat)
    requires i < |Split(text)|
    ensures NoLF(Split(text)[i])
  {
    if text != [] {
      if text[0] == '\n' {
        if i > 0 { PiecesHaveNoLF(text[1..], i - 1); }
      } else {
        PiecesHaveNoLF(text[1..], i);
      }
    }
  }

  lemma {:induction false} SplitJoins(text: string)
    ensures JoinLF(Split(text)) == text
  {
    if text != [] {
      SplitJoins(text[1..]);
      var rest := Split(text[1..]);
      if text[0] == '\n' {
        assert ([""] + rest)[1..] == rest;
        assert "" + "\n" + text[1..] == text;
      } else {
        var pieces := [[text[0]] + rest[0]] + rest[1..];
        assert pieces[1..] == rest[1..];
        assert JoinLF(pieces) == [text[0]] + JoinLF(rest);
      }
    }
  }

  /** How many backslashes end the first n characters. */
  function TrailingBackslashes(s: string, n: nat): nat
    requires n <= |s|
    decreases n, |s|
  {
    if n == 0 || s[n - 1] != '\\' then 0 else 1 + TrailingBackslashes(s, n - 1)
  }

  /** make continues a line ending in an odd number of backslashes. */
  predicate Continued(s: string) { TrailingBackslashes(s, |s|) % 2 == 1 }

  predicate Blank(c: char) { c == ' ' || c == '\t' }

  function LStripBlanks(s: string): string {
    if s != "" && Blank(s[0]) then LStripBlanks(s[1..]) else s
  }

  // ---------------------------------------------------------------- comments

  predicate Opens(c: char) { c == '(' || c == '{' }

  predicate Closes(c: char) { c == ')' || c == '}' }

  /** Where scanning from i at this expansion depth finds the comment: the index
      of the `#` (or the end) and whether that `#` stands inside an expansion. */
  function CommentFrom(line: string, i: nat, depth: nat): (r: (nat, bool))
    requires i <= |line|
    ensures i <= r.0 <= |line|
    ensures r.0 < |line| ==> line[r.0] == '#'
    ensures r.1 ==> r.0 < |line|
    decreases |line| - i
  {
    if i == |line| then (i, false)
    else if line[i] == '\\' && i + 1 < |line| then CommentFrom(line, i + 2, depth)
    else if line[i] == '$' && i + 1 < |line| && Opens(line[i + 1]) then CommentFrom(line, i + 2, depth + 1)
    else if Closes(line[i]) && depth > 0 then CommentFrom(line, i + 1, depth - 1)
    else if line[i] == '#' then (i, depth > 0)
    else CommentFrom(line, i + 1, depth)
  }

  method StripComment(line: string) returns (code: string, why: bool)
    ensures var r := CommentFrom(line, 0, 0); code == line[..r.0] && why == r.1
  {
    var depth, i := 0, 0;
    while i < |line|
      invariant 0 <= i <= |line| && depth >= 0
      invariant CommentFrom(line, i, depth) == CommentFrom(line, 0, 0)
    {
      var c := line[i];
      if c == '\\' && i + 1 < |line| {
        i := i + 2;
        continue;
      }
      if c == '$' && i + 1 < |line| && Opens(line[i + 1]) {
        depth := depth + 1;
        i := i + 2;
        continue;
      }
      if Closes(c) && depth > 0 {
        depth := depth - 1;
      } else if c == '#' {
        return line[..i], depth > 0;
      }
      i := i + 1;
    }
    code, why := line, false;
  }

  // ------------------------------------------------------------ logical lines

  datatype LogicalLine = LogicalLine(n: nat, segments: seq<string>, tab: bool, raw: string,
                                     code: string, commentAt: int, commentWhy: bool, tail: nat)

  predicate StartsWithTab(s: string) { s != "" && s[0] == '\t' }

  /** What a continuation line contributes to its logical line. */
  function Part(tab: bool, s: string): string {
    if !tab then LStripBlanks(s) else if StartsWithTab(s) then s[1..] else s
  }

  function DropLast(s: string): string { if s == "" then s else s[..|s| - 1] }

  /** Physical lines joined as make joins them, and where the last one's text
      starts in the result. */
  function Joined(segments: seq<string>): (r: (string, nat))
    requires segments != []
    ensures r.1 <= |r.0|
  {
    if |segments| == 1 then (segments[0], 0)
    else
      JoinOn(Joined(segments[..|segments| - 1]).0, StartsWithTab(segments[0]), segments[|segments| - 1])
  }

  /** The backslash at the end of raw becomes a blank, and s follows. */
  function JoinOn(raw: string, tab: bool, s: string): (r: (string, nat))
    ensures r.1 <= |r.0|
  {
    var head := DropLast(raw) + " ";
    (head + Part(tab, s), |head|)
  }

  /** The physical lines of one logical line and the number of the first. */
  datatype Group = Group(n: nat, segments: seq<string>)

  function Read(g: Group): (l: LogicalLine)
    ensures l.n == g.n && l.segments == g.segments
  {
    var (raw, tail) := if g.segments == [] then ("", 0) else Joined(g.segments);
    var cut := CommentFrom(raw, 0, 0);
    if g.segments != [] && StartsWithTab(g.segments[0]) then
      LogicalLine(g.n, g.segments, true, raw, raw, -1, false, tail)
    else
      LogicalLine(g.n, g.segments, false, raw, raw[..cut.0], if cut.0 < |raw| then cut.0 else -1, cut.1, tail)
  }

  /** Where the logical line that starts at i ends. */
  function GroupEnd(phys: seq<string>, i: nat): (last: nat)
    requires i < |phys|
    ensures i <= last < |phys|
    decreases |phys| - i
  {
    if i + 1 < |phys| && Continued(phys[i]) then GroupEnd(phys, i + 1) else i
  }

  /** The physical lines from i on, cut into logical ones. */
  function Groups(phys: seq<string>, i: nat): seq<Group>
    decreases |phys| - i
  {
    if i >= |phys| then []
    else var last := GroupEnd(phys, i); [Group(i + 1, phys[i..last + 1])] + Groups(phys, last + 1)
  }

  function ReadAll(gs: seq<Group>): (lines: seq<LogicalLine>)
    ensures |lines| == |gs|
  {
    if gs == [] then [] else [Read(gs[0])] + ReadAll(gs[1..])
  }

  /** The lines of a text, as a value. */
  function Lines(text: string): seq<LogicalLine> { ReadAll(Groups(Split(text), 0)) }

  lemma {:induction false} ReadAllAt(gs: seq<Group>, k: nat)
    requires k < |gs|
    ensures ReadAll(gs)[k] == Read(gs[k])
  {
    if k > 0 { ReadAllAt(gs[1..], k - 1); }
  }

  /** r is the lines from first to last, joined. */
  predicate IsJoined(phys: seq<string>, first: nat, last: nat, r: (string, nat)) {
    first <= last < |phys| && r == Joined(phys[first..last + 1])
  }

  lemma JoinedAlone(phys: seq<string>, first: nat)
    requires first < |phys|
    ensures IsJoined(phys, first, first, (phys[first], 0))
  {
    assert phys[first..first + 1] == [phys[first]];
  }

  lemma JoinedOn(phys: seq<string>, first: nat, last: nat, r: (string, nat))
    requires IsJoined(phys, first, last, r) && last + 1 < |phys|
    ensures IsJoined(phys, first, last + 1, JoinOn(r.0, StartsWithTab(phys[first]), phys[last + 1]))
  {
    assert phys[first..last + 2][..last + 1 - first] == phys[first..last + 1];
  }

  /** One continuation line joined on. */
  method JoinLine(raw: string, tab: bool, nxt: string) returns (joined: string, tail: nat)
    ensures (joined, tail) == JoinOn(raw, tab, nxt)
  {
    var part := if tab then (if StartsWithTab(nxt) then nxt[1..] else nxt) else LStripBlanks(nxt);
    joined := DropLast(raw) + " ";
    tail := |joined|;
    joined := joined + part;
  }

  /** The inner loop of makefile_lines: continuation lines joined on. */
  method JoinGroup(phys: seq<string>, first: nat) returns (raw: string, tail: nat, last: nat)
    requires first < |phys|
    ensures last == GroupEnd(phys, first) && IsJoined(phys, first, last, (raw, tail))
  {
    last, raw, tail := first, phys[first], 0;
    var tab := StartsWithTab(raw);
    JoinedAlone(phys, first);
    while Continued(phys[last]) && last + 1 < |phys|
      invariant first <= last < |phys|
      invariant GroupEnd(phys, first) == GroupEnd(phys, last) && IsJoined(phys, first, last, (raw, tail))
      decreases |phys| - last
    {
      JoinedOn(phys, first, last, (raw, tail));
      last := last + 1;
      raw, tail := JoinLine(raw, tab, phys[last]);
    }
  }

  /** The comment of a joined line, and the record for it. */
  method Record(n: nat, segments: seq<string>, raw: string, tail: nat) returns (line: LogicalLine)
    requires segments != [] && (raw, tail) == Joined(segments)
    ensures line == Read(Group(n, segments))
  {
    var tab := StartsWithTab(segments[0]);
    var code, at, why := raw, -1, false;
    if !tab {
      code, why := StripComment(raw);
      at := if |code| < |raw| then |code| else -1;
    }
    line := LogicalLine(n, segments, tab, raw, code, at, why, tail);
  }

  lemma Together<T>(done: seq<T>, g: T, rest: seq<T>)
    ensures done + ([g] + rest) == done + [g] + rest
  {
  }

  /** lines(i) are the logical lines from physical line i on. */
  ghost predicate LinesFrom(lines: nat -> seq<LogicalLine>, phys: seq<string>) {
    forall i: nat {:trigger Groups(phys, i)} :: lines(i) == ReadAll(Groups(phys, i))
  }

  lemma ReadOn(phys: seq<string>, i: nat, lines: nat -> seq<LogicalLine>)
    requires i < |phys| && LinesFrom(lines, phys)
    ensures var j := GroupEnd(phys, i) + 1; lines(i) == [Read(Group(i + 1, phys[i..j]))] + lines(j)
  {
    FirstLine(phys, i);
    LinesAt(lines, phys, i);
    LinesAt(lines, phys, GroupEnd(phys, i) + 1);
  }

  lemma LinesAt(lines: nat -> seq<LogicalLine>, phys: seq<string>, i: nat)
    requires LinesFrom(lines, phys)
    ensures lines(i) == ReadAll(Groups(phys, i))
  {
  }

  lemma FirstLine(phys: seq<string>, i: nat)
    requires i < |phys|
    ensures var j := GroupEnd(phys, i) + 1;
            ReadAll(Groups(phys, i)) == [Read(Group(i + 1, phys[i..j]))] + ReadAll(Groups(phys, j))
  {
    var j := GroupEnd(phys, i) + 1;
    FirstGroup(phys, i);
    ReadAllCons(Group(i + 1, phys[i..j]), Groups(phys, j));
  }

  lemma FirstGroup(phys: seq<string>, i: nat)
    requires i < |phys|
    ensures var j := GroupEnd(phys, i) + 1; Groups(phys, i) == [Group(i + 1, phys[i..j])] + Groups(phys, j)
  {
  }

  lemma ReadAllCons(g: Group, rest: seq<Group>)
    ensures ReadAll([g] + rest) == [Read(g)] + ReadAll(rest)
  {
    HeadAndTail(g, rest);
  }

  lemma ReadEverything(phys: seq<string>, lines: nat -> seq<LogicalLine>)
    requires LinesFrom(lines, phys)
    ensures lines(|phys|) == []
  {
    assert Groups(phys, |phys|) == [];
  }

  /** One turn of the outer loop. */
  method ReadGroup(phys: seq<string>, i: nat, ghost lines: nat -> seq<LogicalLine>)
    returns (line: LogicalLine, last: nat)
    requires i < |phys| && LinesFrom(lines, phys)
    ensures i <= last < |phys| && lines(i) == [line] + lines(last + 1)
  {
    var raw, tail;
    raw, tail, last := JoinGroup(phys, i);
    line := Record(i + 1, phys[i..last + 1], raw, tail);
    ReadOn(phys, i, lines);
  }

  /** The outer loop of makefile_lines. */
  method ReadPhysical(phys: seq<string>, ghost lines: nat -> seq<LogicalLine>) returns (out: seq<LogicalLine>)
    requires LinesFrom(lines, phys)
    ensures out == lines(0)
  {
    out := [];
    var i := 0;
    Nothing(lines(0));
    while i < |phys|
      invariant i <= |phys| && lines(0) == out + lines(i)
      decreases |phys| - i
    {
      var line, last := ReadGroup(phys, i, lines);
      Together(out, line, lines(last + 1));
      out := out + [line];
      i := last + 1;
    }
    ReadEverything(phys, lines);
    Nothing(out);
  }

  lemma Nothing<T>(s: seq<T>)
    ensures [] + s == s && s + [] == s
  {
  }

  /** makefile_lines. */
  method ReadLines(text: string) returns (out: seq<LogicalLine>)
    ensures out == Lines(text)
  {
    var phys := Split(text);
    out := ReadPhysical(phys, (i: nat) => ReadAll(Groups(phys, i)));
  }

  // ------------------------------------------------- what the reader preserves

  function Segments(lines: seq<LogicalLine>): seq<string> {
    if lines == [] then [] else lines[0].segments + Segments(lines[1..])
  }

  /** Line numbers count physical lines. */
  predicate Numbered(lines: seq<LogicalLine>, n: nat) {
    lines == [] || (lines[0].n == n && Numbered(lines[1..], n + |lines[0].segments|))
  }

  /** A line that is not continued is read as it stands, and only a line ended by
      an odd run of backslashes (or the last one) is joined to the next. */
  predicate WellRead(l: LogicalLine, isLast: bool) {
    && l.segments != []
    && l.tab == StartsWithTab(l.segments[0])
    && (|l.segments| == 1 ==> l.raw == l.segments[0] && l.tail == 0)
    && (forall m :: 0 <= m < |l.segments| - 1 ==> Continued(l.segments[m]))
    && (!isLast ==> !Continued(l.segments[|l.segments| - 1]))
  }

  function GroupSegments(gs: seq<Group>): seq<string> {
    if gs == [] then [] else gs[0].segments + GroupSegments(gs[1..])
  }

  predicate GroupsNumbered(gs: seq<Group>, n: nat) {
    gs == [] || (gs[0].n == n && GroupsNumbered(gs[1..], n + |gs[0].segments|))
  }

  lemma HeadAndTail<T>(g: T, rest: seq<T>)
    ensures ([g] + rest)[0] == g && ([g] + rest)[1..] == rest
  {
  }

  lemma Rejoined<T>(phys: seq<T>, i: nat, j: nat)
    requires i <= j <= |phys|
    ensures phys[i..j] + phys[j..] == phys[i..]
  {
  }

  lemma {:induction false} GroupsKeepText(phys: seq<string>, i: nat)
    requires i <= |phys|
    ensures GroupSegments(Groups(phys, i)) == phys[i..] && GroupsNumbered(Groups(phys, i), i + 1)
    decreases |phys| - i
  {
    if i < |phys| {
      var j := GroupEnd(phys, i) + 1;
      GroupsKeepText(phys, j);
      HeadAndTail(Group(i + 1, phys[i..j]), Groups(phys, j));
      Rejoined(phys, i, j);
    }
  }

  predicate SameSegments(lines: seq<LogicalLine>, gs: seq<Group>) {
    |lines| == |gs| && forall k :: 0 <= k < |gs| ==> lines[k].n == gs[k].n && lines[k].segments == gs[k].segments
  }

  lemma {:induction false} SegmentsAgree(lines: seq<LogicalLine>, gs: seq<Group>, n: nat)
    requires SameSegments(lines, gs) && GroupsNumbered(gs, n)
    ensures Segments(lines) == GroupSegments(gs) && Numbered(lines, n)
    decreases |gs|
  {
    if gs != [] { SegmentsAgree(lines[1..], gs[1..], n + |gs[0].segments|); }
  }

  /** Nothing is lost, invented or reordered: the segments of the logical lines are
      the physical lines, so joined with LF they are the text again, and each
      line's number is the number of its first segment. */
  lemma ReaderKeepsText(text: string)
    ensures Segments(Lines(text)) == Split(text)
    ensures Segments(Lines(text)) != [] && JoinLF(Segments(Lines(text))) == text
    ensures Numbered(Lines(text), 1)
  {
    var gs, lines := Groups(Split(text), 0), Lines(text);
    forall k | 0 <= k < |gs| ensures lines[k].n == gs[k].n && lines[k].segments == gs[k].segments {
      ReadAllAt(gs, k);
    }
    GroupsKeepText(Split(text), 0);
    assert Split(text)[0..] == Split(text);
    SegmentsAgree(lines, gs, 1);
    SplitJoins(text);
  }

  lemma {:induction false} NumberAt(lines: seq<LogicalLine>, n: nat, i: nat)
    requires Numbered(lines, n) && i < |lines|
    ensures n <= lines[i].n
    decreases i
  {
    if i > 0 { NumberAt(lines[1..], n + |lines[0].segments|, i - 1); }
  }

  lemma {:induction false} NumbersIncrease(lines: seq<LogicalLine>, n: nat, i: nat, k: nat)
    requires Numbered(lines, n) && i < k < |lines| && forall l <- lines :: l.segments != []
    ensures n <= lines[i].n < lines[k].n
    decreases k
  {
    NumberAt(lines, n, i);
    if i > 0 { NumbersIncrease(lines[1..], n + |lines[0].segments|, i - 1, k - 1); }
    else { NumberAt(lines[1..], n + |lines[0].segments|, k - 1); }
  }

  lemma {:induction false} GroupStops(phys: seq<string>, i: nat)
    requires i < |phys|
    ensures var last := GroupEnd(phys, i);
            && (forall k :: i <= k < last ==> Continued(phys[k]))
            && (last + 1 < |phys| ==> !Continued(phys[last]))
    decreases |phys| - i
  {
    if i + 1 < |phys| && Continued(phys[i]) { GroupStops(phys, i + 1); }
  }

  /** Every line of a group but its last is continued, and the last is not unless
      no line follows. */
  predicate Stops(seg: seq<string>, isLast: bool) {
    && seg != [] && (forall m :: 0 <= m < |seg| - 1 ==> Continued(seg[m]))
    && (!isLast ==> !Continued(seg[|seg| - 1]))
  }

  lemma FirstStops(phys: seq<string>, i: nat)
    requires i < |phys|
    ensures var last := GroupEnd(phys, i); Stops(phys[i..last + 1], last + 1 == |phys|)
  {
    GroupStops(phys, i);
  }

  lemma {:induction false} GroupsStop(phys: seq<string>, i: nat, k: nat)
    requires k < |Groups(phys, i)|
    ensures Stops(Groups(phys, i)[k].segments, k == |Groups(phys, i)| - 1)
    decreases |phys| - i
  {
    FirstStops(phys, i);
    if k > 0 { GroupsStop(phys, GroupEnd(phys, i) + 1, k - 1); }
  }

  lemma LinesAreWellRead(text: string, k: nat)
    requires k < |Lines(text)|
    ensures WellRead(Lines(text)[k], k == |Lines(text)| - 1)
  {
    GroupsStop(Split(text), 0, k);
    ReadAllAt(Groups(Split(text), 0), k);
  }

  lemma {:induction false} SegmentIsPhysical(lines: seq<LogicalLine>, k: nat, m: nat)
    requires k < |lines| && m < |lines[k].segments|
    ensures lines[k].segments[m] in Segments(lines)
    decreases k
  {
    if k > 0 { SegmentIsPhysical(lines[1..], k - 1, m); }
  }

  lemma {:induction false} StripKeepsNoLF(s: string)
    requires NoLF(s)
    ensures NoLF(LStripBlanks(s))
  {
    if s != "" && Blank(s[0]) { StripKeepsNoLF(s[1..]); }
  }

  lemma {:induction false} JoinedHasNoLF(segments: seq<string>)
    requires segments != [] && forall m :: 0 <= m < |segments| ==> NoLF(segments[m])
    ensures NoLF(Joined(segments).0)
  {
    if |segments| > 1 {
      var last := |segments| - 1;
      JoinedHasNoLF(segments[..last]);
      StripKeepsNoLF(segments[last]);
      assert NoLF(DropLast(Joined(segments[..last]).0));
    }
  }

  lemma LinesHaveNoLF(text: string, k: nat)
    requires k < |Lines(text)|
    ensures NoLF(Lines(text)[k].raw)
  {
    var l := Lines(text)[k];
    ReaderKeepsText(text);
    ReadAllAt(Groups(Split(text), 0), k);
    LinesAreWellRead(text, k);
    forall m | 0 <= m < |l.segments| ensures NoLF(l.segments[m]) {
      SegmentIsPhysical(Lines(text), k, m);
      var i :| 0 <= i < |Split(text)| && Split(text)[i] == l.segments[m];
      PiecesHaveNoLF(text, i);
    }
    JoinedHasNoLF(l.segments);
  }

  // ------------------------------------------------------------------- recipes

  /** A blank line or a comment in column 0 leaves an open rule's recipe open. */
  predicate KeepsRuleOpen(l: LogicalLine) {
    !l.tab && (l.raw == "" || l.raw[0] == '#')
  }

  /** Characters str.strip removes. */
  predicate PySpace(c: char) {
    var n := c as int;
    || 9 <= n <= 13 || 28 <= n <= 32 || n == 0x85 || n == 0xA0 || n == 0x1680
    || 0x2000 <= n <= 0x200A || n == 0x2028 || n == 0x2029 || n == 0x202F || n == 0x205F || n == 0x3000
  }

  function Strip(s: string): string {
    if s != "" && PySpace(s[0]) then Strip(s[1..])
    else if s != "" && PySpace(s[|s| - 1]) then Strip(s[..|s| - 1])
    else s
  }

  datatype RecipeLine = RecipeLine(n: nat, text: string)

  function Entry(l: LogicalLine): RecipeLine { RecipeLine(l.n, if l.raw == "" then "" else Strip(l.raw[1..])) }

  function RecipeFrom(lines: seq<LogicalLine>, k: nat): seq<RecipeLine>
    requires k <= |lines|
    decreases |lines| - k
  {
    if k == |lines| then []
    else if lines[k].tab then [Entry(lines[k])] + RecipeFrom(lines, k + 1)
    else if KeepsRuleOpen(lines[k]) then RecipeFrom(lines, k + 1)
    else []
  }

  /** recipe_lines. */
  method RecipeLines(lines: seq<LogicalLine>, start: nat) returns (recipe: seq<RecipeLine>)
    requires start <= |lines|
    ensures recipe == RecipeFrom(lines, start)
  {
    recipe := [];
    var k := start;
    while k < |lines|
      invariant start <= k <= |lines|
      invariant RecipeFrom(lines, start) == recipe + RecipeFrom(lines, k)
    {
      if lines[k].tab {
        recipe := recipe + [Entry(lines[k])];
      } else if !KeepsRuleOpen(lines[k]) {
        break;
      }
      k := k + 1;
    }
  }
}
