/** What the line reader makes of continued lines and of comments, stated without it:
    lines folded over several physical ones are read unfolded, and a comment starts at
    the first `#` that no backslash escapes. */
module MakefileFolding {
  import opened MakefileLines
  import opened MakefileWriting

  // --------------------------------------------------------------------- folding

  /** A logical line as somebody wrote it: pieces, each on its own physical line after
      an indent, with a backslash at the end of every physical line but the last. */
  datatype Folded = Folded(indents: seq<string>, pieces: seq<string>)

  predicate Blanks(s: string) { forall i :: 0 <= i < |s| ==> Blank(s[i]) }

  predicate StartsBlank(s: string) { s != "" && Blank(s[0]) }

  /** Under a recipe line the indent is one TAB or none; elsewhere any blanks, which are
      all of the blanks there are. */
  predicate IndentOk(recipe: bool, indent: string, piece: string) {
    if recipe then indent == "\t" || (indent == "" && !StartsWithTab(piece))
    else Blanks(indent) && !StartsBlank(piece)
  }

  ghost predicate FoldedOk(f: Folded) {
    && |f.pieces| >= 1 && |f.indents| == |f.pieces| && f.indents[0] == ""
    && (forall i :: 0 <= i < |f.pieces| ==> NoLF(f.pieces[i]) && !Continued(f.pieces[i]))
    && (forall i :: 1 <= i < |f.pieces| ==> IndentOk(StartsWithTab(f.pieces[0]), f.indents[i], f.pieces[i]))
  }

  function Physical(f: Folded, i: nat): string
    requires i < |f.pieces| == |f.indents|
  {
    f.indents[i] + f.pieces[i] + Mark(|f.pieces|, i + 1)
  }

  /** Ends the m-th of n physical lines. */
  function Mark(n: nat, m: nat): string { if m < n then "\\" else "" }

  function Physicals(f: Folded): (s: seq<string>)
    requires |f.pieces| == |f.indents|
    ensures |s| == |f.pieces| && forall i :: 0 <= i < |s| ==> s[i] == Physical(f, i)
  {
    seq(|f.pieces|, i requires 0 <= i < |f.pieces| => Physical(f, i))
  }

  /** The first m pieces with one blank between each and the next. */
  function Unfolded(pieces: seq<string>, m: nat): string
    requires 1 <= m <= |pieces|
  {
    if m == 1 then pieces[0] else Unfolded(pieces, m - 1) + " " + pieces[m - 1]
  }

  lemma {:induction false} IndentIsStripped(indent: string, rest: string)
    requires Blanks(indent) && !StartsBlank(rest)
    ensures LStripBlanks(indent + rest) == rest
  {
    if indent == "" {
      assert indent + rest == rest;
    } else {
      assert (indent + rest)[1..] == indent[1..] + rest;
      IndentIsStripped(indent[1..], rest);
    }
  }

  lemma PartOf(f: Folded, i: nat)
    requires FoldedOk(f) && 1 <= i < |f.pieces|
    ensures Part(StartsWithTab(f.pieces[0]), Physical(f, i))
            == f.pieces[i] + Mark(|f.pieces|, i + 1)
  {
    var rest := f.pieces[i] + Mark(|f.pieces|, i + 1);
    assert IndentOk(StartsWithTab(f.pieces[0]), f.indents[i], f.pieces[i]);
    assert Physical(f, i) == f.indents[i] + rest;
    if StartsWithTab(f.pieces[0]) {
      if f.indents[i] == "\t" { assert Physical(f, i)[1..] == rest; } else { assert Physical(f, i) == rest; }
    } else {
      IndentIsStripped(f.indents[i], rest);
    }
  }

  lemma FirstPhysical(f: Folded)
    requires FoldedOk(f)
    ensures Physical(f, 0) == f.pieces[0] + Mark(|f.pieces|, 1)
    ensures StartsWithTab(Physical(f, 0)) <==> StartsWithTab(f.pieces[0])
  {
  }

  lemma JoinStep(before: string, tab: bool, s: string, piece: string, mark: string)
    requires Part(tab, s) == piece + mark
    ensures JoinOn(before + "\\", tab, s) == (before + " " + piece + mark, |before| + 1)
  {
    assert DropLast(before + "\\") == before;
    assert before + " " + (piece + mark) == before + " " + piece + mark;
  }

  /** Segment i holds piece i, as the join reads it. */
  predicate HoldsPiece(segs: seq<string>, pieces: seq<string>, i: nat)
    requires i < |segs| == |pieces|
  {
    (if i == 0 then segs[0] else Part(StartsWithTab(segs[0]), segs[i]))
    == pieces[i] + Mark(|pieces|, i + 1)
  }

  lemma JoinedTakes(segs: seq<string>, m: nat)
    requires 2 <= m <= |segs|
    ensures Joined(segs[..m]) == JoinOn(Joined(segs[..m - 1]).0, StartsWithTab(segs[0]), segs[m - 1])
  {
    assert segs[..m][..m - 1] == segs[..m - 1];
  }

  ghost predicate JoinsTo(segs: seq<string>, pieces: seq<string>, m: nat)
    requires 1 <= m <= |segs| == |pieces|
  {
    && Joined(segs[..m]).0 == Unfolded(pieces, m) + Mark(|pieces|, m)
    && Joined(segs[..m]).1 == if m == 1 then 0 else |Unfolded(pieces, m - 1)| + 1
  }

  lemma FirstJoins(segs: seq<string>, pieces: seq<string>)
    requires 1 <= |segs| == |pieces| && HoldsPiece(segs, pieces, 0)
    ensures JoinsTo(segs, pieces, 1)
  {
    assert segs[..1] == [segs[0]];
  }

  lemma NextJoins(segs: seq<string>, pieces: seq<string>, m: nat)
    requires 2 <= m <= |segs| == |pieces| && JoinsTo(segs, pieces, m - 1) && HoldsPiece(segs, pieces, m - 1)
    ensures JoinsTo(segs, pieces, m)
  {
    JoinedTakes(segs, m);
    JoinStep(Unfolded(pieces, m - 1), StartsWithTab(segs[0]), segs[m - 1], pieces[m - 1], Mark(|pieces|, m));
  }

  /** Joining the first m segments unfolds the first m pieces. */
  lemma {:induction false} JoinedUnfolds(segs: seq<string>, pieces: seq<string>, m: nat)
    requires 1 <= m <= |segs| == |pieces| && forall i :: 0 <= i < |segs| ==> HoldsPiece(segs, pieces, i)
    ensures JoinsTo(segs, pieces, m)
  {
    if m == 1 {
      FirstJoins(segs, pieces);
    } else {
      JoinedUnfolds(segs, pieces, m - 1);
      NextJoins(segs, pieces, m);
    }
  }

  lemma PiecesAreHeld(f: Folded)
    requires FoldedOk(f)
    ensures forall i :: 0 <= i < |f.pieces| ==> HoldsPiece(Physicals(f), f.pieces, i)
  {
    FirstPhysical(f);
    forall i | 0 <= i < |f.pieces| ensures HoldsPiece(Physicals(f), f.pieces, i) {
      if i > 0 { PartOf(f, i); }
    }
  }

  /** The reader's record of one folded line. */
  ghost predicate ReadsAs(l: LogicalLine, n: nat, f: Folded)
    requires FoldedOk(f)
  {
    && l.n == n && l.segments == Physicals(f) && l.tab == StartsWithTab(f.pieces[0])
    && l.raw == Unfolded(f.pieces, |f.pieces|)
    && l.tail == if |f.pieces| == 1 then 0 else |Unfolded(f.pieces, |f.pieces| - 1)| + 1
  }

  lemma RecordOf(f: Folded, n: nat)
    requires FoldedOk(f)
    ensures ReadsAs(Read(Group(n, Physicals(f))), n, f)
  {
    FirstPhysical(f);
    PiecesAreHeld(f);
    JoinedUnfolds(Physicals(f), f.pieces, |f.pieces|);
    WholeIs(Physicals(f), Unfolded(f.pieces, |f.pieces|));
  }

  lemma WholeIs<T>(s: seq<T>, t: string)
    ensures s[..|s|] == s && t + "" == t
  {
  }

  // ---------------------------------------------------------------- folded texts

  ghost predicate AllFolded(fs: seq<Folded>) { forall k :: 0 <= k < |fs| ==> FoldedOk(fs[k]) }

  ghost function AllPhysicals(fs: seq<Folded>): seq<string>
    requires AllFolded(fs)
  {
    if fs == [] then [] else Physicals(fs[0]) + AllPhysicals(fs[1..])
  }

  /** What they are read from, the first one starting on line n. */
  ghost function GroupsOf(fs: seq<Folded>, n: nat): (gs: seq<Group>)
    requires AllFolded(fs)
    ensures |gs| == |fs|
  {
    if fs == [] then [] else [Group(n, Physicals(fs[0]))] + GroupsOf(fs[1..], n + |fs[0].pieces|)
  }

  /** The number of the first physical line of line k. */
  ghost function NumberOf(fs: seq<Folded>, k: nat): nat
    requires k <= |fs|
  {
    if k == 0 then 1 else NumberOf(fs, k - 1) + |fs[k - 1].pieces|
  }

  lemma {:induction false} TrailingOf(s: string, t: string, n: nat)
    requires n <= |t| && (s == "" || s[|s| - 1] != '\\')
    ensures TrailingBackslashes(s + t, |s| + n) == TrailingBackslashes(t, n)
    decreases n
  {
    if n > 0 && t[n - 1] == '\\' { TrailingOf(s, t, n - 1); }
  }

  lemma {:induction false} TrailingSnoc(t: string, n: nat)
    requires n <= |t|
    ensures TrailingBackslashes(t + "\\", n) == TrailingBackslashes(t, n)
  {
    if n > 0 && t[n - 1] == '\\' { TrailingSnoc(t, n - 1); }
  }

  lemma OnlyTheLastStops(f: Folded, i: nat)
    requires FoldedOk(f) && i < |f.pieces|
    ensures Continued(Physical(f, i)) <==> i + 1 < |f.pieces|
  {
    var indent, piece := f.indents[i], f.pieces[i];
    assert i > 0 ==> IndentOk(StartsWithTab(f.pieces[0]), indent, piece);
    TrailingOf(indent, piece, |piece|);
    if i + 1 < |f.pieces| {
      TrailingSnoc(indent + piece, |indent + piece|);
    } else {
      assert Physical(f, i) == indent + piece;
    }
  }

  lemma PhysicalHasNoLF(f: Folded, i: nat)
    requires FoldedOk(f) && i < |f.pieces|
    ensures NoLF(Physical(f, i))
  {
    assert i > 0 ==> IndentOk(StartsWithTab(f.pieces[0]), f.indents[i], f.pieces[i]);
  }

  /** A group ends where its folded line does. */
  lemma {:induction false} GroupEndsAt(phys: seq<string>, start: nat, f: Folded, i: nat)
    requires FoldedOk(f) && i < |f.pieces| && start + |f.pieces| <= |phys|
    requires phys[start..start + |f.pieces|] == Physicals(f)
    ensures GroupEnd(phys, start + i) == start + |f.pieces| - 1
    decreases |f.pieces| - i
  {
    assert phys[start + i] == Physicals(f)[i] == Physical(f, i);
    OnlyTheLastStops(f, i);
    if i + 1 < |f.pieces| { GroupEndsAt(phys, start, f, i + 1); }
  }

  lemma Divide<T>(s: seq<T>, i: nat, a: seq<T>, b: seq<T>)
    requires i <= |s| && s[i..] == a + b
    ensures i + |a| <= |s| && s[i..i + |a|] == a && s[i + |a|..] == b
  {
    assert s[i..i + |a|] == s[i..][..|a|] && s[i + |a|..] == s[i..][|a|..];
  }

  /** The groups of some physical lines, by where they start. */
  ghost predicate GroupedBy(g: nat -> seq<Group>, phys: seq<string>) {
    forall i: nat {:trigger Groups(phys, i)} :: g(i) == Groups(phys, i)
  }

  lemma FirstFold(phys: seq<string>, g: nat -> seq<Group>, i: nat, f: Folded, rest: seq<string>)
    requires FoldedOk(f) && i <= |phys| && phys[i..] == Physicals(f) + rest && GroupedBy(g, phys)
    ensures var j := i + |f.pieces|;
            j <= |phys| && phys[j..] == rest && g(i) == [Group(i + 1, Physicals(f))] + g(j)
  {
    Divide(phys, i, Physicals(f), rest);
    GroupEndsAt(phys, i, f, 0);
    FirstGroup(phys, i);
    assert g(i) == Groups(phys, i) && g(i + |f.pieces|) == Groups(phys, i + |f.pieces|);
  }

  lemma NoGroups(phys: seq<string>, g: nat -> seq<Group>)
    requires GroupedBy(g, phys)
    ensures g(|phys|) == []
  {
    assert Groups(phys, |phys|) == [];
  }

  lemma {:induction false} GroupsFold(phys: seq<string>, g: nat -> seq<Group>, fs: seq<Folded>, i: nat)
    requires AllFolded(fs) && i <= |phys| && phys[i..] == AllPhysicals(fs) && GroupedBy(g, phys)
    ensures g(i) == GroupsOf(fs, i + 1)
    decreases |fs|
  {
    if fs != [] {
      FirstFold(phys, g, i, fs[0], AllPhysicals(fs[1..]));
      GroupsFold(phys, g, fs[1..], i + |fs[0].pieces|);
    } else {
      NoGroups(phys, g);
    }
  }

  lemma {:induction false} GroupAt(fs: seq<Folded>, n: nat, k: nat)
    requires AllFolded(fs) && k < |fs|
    ensures GroupsOf(fs, n)[k] == Group(n + NumberOf(fs, k) - 1, Physicals(fs[k]))
    decreases k
  {
    if k > 0 {
      GroupAt(fs[1..], n + |fs[0].pieces|, k - 1);
      NumberShift(fs, k);
    }
  }

  lemma {:induction false} NumberShift(fs: seq<Folded>, k: nat)
    requires 1 <= k <= |fs|
    ensures NumberOf(fs, k) == |fs[0].pieces| + NumberOf(fs[1..], k - 1)
  {
    if k > 1 { NumberShift(fs, k - 1); }
  }

  lemma {:induction false} NoLFAnywhere(fs: seq<Folded>, i: nat)
    requires AllFolded(fs) && i < |AllPhysicals(fs)|
    ensures NoLF(AllPhysicals(fs)[i])
    decreases |fs|
  {
    var n := |fs[0].pieces|;
    if i < n { PhysicalHasNoLF(fs[0], i); } else { NoLFAnywhere(fs[1..], i - n); }
  }

  /** The makefile whose lines are folded so. */
  ghost function FoldedText(fs: seq<Folded>): string
    requires AllFolded(fs) && fs != []
  {
    JoinLF(AllPhysicals(fs))
  }

  lemma FoldedSplits(fs: seq<Folded>)
    requires AllFolded(fs) && fs != []
    ensures Split(FoldedText(fs)) == AllPhysicals(fs)
  {
    var phys := AllPhysicals(fs);
    forall i | 0 <= i < |phys| ensures NoLF(phys[i]) { NoLFAnywhere(fs, i); }
    SplitOfJoin(phys);
  }

  lemma FoldedGroups(fs: seq<Folded>)
    requires AllFolded(fs) && fs != []
    ensures Groups(Split(FoldedText(fs)), 0) == GroupsOf(fs, 1)
  {
    var phys := AllPhysicals(fs);
    FoldedSplits(fs);
    assert phys[0..] == phys;
    GroupsFold(phys, (i: nat) => Groups(phys, i), fs, 0);
  }

  /** However the lines of a makefile are folded, with whatever indents, it is read as
      those lines unfolded, one record each, numbered by their first physical line. */
  lemma FoldedReadsUnfolded(fs: seq<Folded>, k: nat)
    requires AllFolded(fs) && k < |fs|
    ensures |Lines(FoldedText(fs))| == |fs|
    ensures ReadsAs(Lines(FoldedText(fs))[k], NumberOf(fs, k), fs[k])
  {
    FoldedGroups(fs);
    GroupAt(fs, 1, k);
    ReadAllAt(GroupsOf(fs, 1), k);
    RecordOf(fs[k], NumberOf(fs, k));
  }

  // -------------------------------------------------------------------- comments

  /** What stands before a comment: an escaped character, the two characters that open
      an expansion, or any other character. */
  datatype Bit = Escaped(c: char) | Opening(c: char) | Plain(c: char)

  function PrintBit(b: Bit): string {
    match b case Escaped(c) => ['\\', c] case Opening(c) => ['$', c] case Plain(c) => [c]
  }

  function PrintBits(bs: seq<Bit>): string { if bs == [] then "" else PrintBit(bs[0]) + PrintBits(bs[1..]) }

  /** No `#` or backslash stands alone, and a `$` that does opens nothing. */
  predicate BitsOk(bs: seq<Bit>) {
    bs == [] ||
    (&& BitsOk(bs[1..]) && (bs[0].Opening? ==> Opens(bs[0].c))
     && (bs[0].Plain? ==> bs[0].c != '#' && bs[0].c != '\\')
     && (bs[0] == Plain('$') && |bs| > 1 ==> !(bs[1].Plain? && Opens(bs[1].c))))
  }

  function Deeper(b: Bit, depth: nat): nat {
    if b.Opening? then depth + 1 else if b.Plain? && Closes(b.c) && depth > 0 then depth - 1 else depth
  }

  /** How many expansions are open after them. */
  function DepthAfter(bs: seq<Bit>, depth: nat): nat {
    if bs == [] then depth else DepthAfter(bs[1..], Deeper(bs[0], depth))
  }

  /** What may follow bits that end before a comment or at the end of the line. */
  predicate Ending(rest: string) { rest == "" || rest == "\\" || rest[0] == '#' }

  /** One bit is read as one. */
  lemma CommentStep(line: string, i: nat, depth: nat, b: Bit, next: string)
    requires i <= |line| && line[i..] == PrintBit(b) + next && (b.Opening? ==> Opens(b.c))
    requires b.Plain? ==> b.c != '#' && b.c != '\\'
    requires b == Plain('$') ==> next == "" || !Opens(next[0])
    ensures var j := i + |PrintBit(b)|;
            j <= |line| && line[j..] == next && CommentFrom(line, i, depth) == CommentFrom(line, j, Deeper(b, depth))
  {
    Divide(line, i, PrintBit(b), next);
    assert line[i] == line[i..][0] == PrintBit(b)[0];
    if b.Plain? {
      if i + 1 < |line| { assert line[i + 1] == line[i + 1..][0]; }
    } else {
      assert line[i + 1] == line[i..][1] == b.c;
    }
  }

  lemma BitsTail(bs: seq<Bit>)
    requires bs != [] && BitsOk(bs)
    ensures BitsOk(bs[1..]) && (bs[0].Opening? ==> Opens(bs[0].c))
    ensures bs[0].Plain? ==> bs[0].c != '#' && bs[0].c != '\\'
  {
  }

  /** Where the comment is when bits and then rest stand at i. */
  function Found(line: string, i: nat, depth: nat, bs: seq<Bit>, rest: string): (nat, bool) {
    if rest != "" && rest[0] == '#' then (i + |PrintBits(bs)|, DepthAfter(bs, depth) > 0) else (|line|, false)
  }

  lemma FoundOn(line: string, i: nat, depth: nat, bs: seq<Bit>, rest: string)
    requires bs != []
    ensures Found(line, i, depth, bs, rest)
            == Found(line, i + |PrintBit(bs[0])|, Deeper(bs[0], depth), bs[1..], rest)
  {
  }

  lemma FirstBit(line: string, i: nat, depth: nat, bs: seq<Bit>, rest: string, next: string)
    requires bs != [] && BitsOk(bs) && Ending(rest) && i <= |line|
    requires line[i..] == PrintBit(bs[0]) + next && next == PrintBits(bs[1..]) + rest
    ensures var j := i + |PrintBit(bs[0])|;
            && j <= |line| && line[j..] == next
            && CommentFrom(line, i, depth) == CommentFrom(line, j, Deeper(bs[0], depth))
  {
    BitsTail(bs);
    NextOpensNothing(bs, rest);
    CommentStep(line, i, depth, bs[0], next);
  }

  lemma {:induction false} CommentIsFound(line: string, i: nat, depth: nat, bs: seq<Bit>, rest: string)
    requires i <= |line| && line[i..] == PrintBits(bs) + rest && BitsOk(bs) && Ending(rest)
    ensures CommentFrom(line, i, depth) == Found(line, i, depth, bs, rest)
    decreases |bs|
  {
    if bs == [] {
      NothingLeft(line, i, depth, rest);
    } else {
      PeelBit(bs, rest);
      FirstBit(line, i, depth, bs, rest, PrintBits(bs[1..]) + rest);
      BitsTail(bs);
      FoundOn(line, i, depth, bs, rest);
      CommentIsFound(line, i + |PrintBit(bs[0])|, Deeper(bs[0], depth), bs[1..], rest);
    }
  }

  lemma PeelBit(bs: seq<Bit>, rest: string)
    requires bs != []
    ensures PrintBits(bs) + rest == PrintBit(bs[0]) + (PrintBits(bs[1..]) + rest)
    ensures |PrintBits(bs)| == |PrintBit(bs[0])| + |PrintBits(bs[1..])|
  {
  }

  lemma NothingLeft(line: string, i: nat, depth: nat, rest: string)
    requires i <= |line| && line[i..] == [] + rest && Ending(rest)
    ensures CommentFrom(line, i, depth) == if rest != "" && rest[0] == '#' then (i, depth > 0) else (|line|, false)
  {
    if rest != "" { assert line[i] == rest[0]; }
  }

  lemma NextOpensNothing(bs: seq<Bit>, rest: string)
    requires bs != [] && BitsOk(bs) && Ending(rest)
    ensures var s := PrintBits(bs[1..]) + rest; bs[0] == Plain('$') ==> s == "" || !Opens(s[0])
  {
    if |bs| > 1 { assert (PrintBits(bs[1..]) + rest)[0] == PrintBit(bs[1])[0]; }
  }

  lemma {:induction false} BitsOf(line: string, i: nat) returns (bs: seq<Bit>, rest: string)
    requires i <= |line|
    ensures line[i..] == PrintBits(bs) + rest && BitsOk(bs) && Ending(rest)
    decreases |line| - i
  {
    if i == |line| || line[i] == '#' || (line[i] == '\\' && i + 1 == |line|) {
      bs, rest := [], line[i..];
    } else {
      var b := if line[i] == '\\' then Escaped(line[i + 1])
               else if line[i] == '$' && i + 1 < |line| && Opens(line[i + 1]) then Opening(line[i + 1])
               else Plain(line[i]);
      var j := i + |PrintBit(b)|;
      assert line[i..] == PrintBit(b) + line[j..];
      var more;
      more, rest := BitsOf(line, j);
      bs := [b] + more;
      if b == Plain('$') && more != [] { assert line[j] == (PrintBits(more) + rest)[0] == PrintBit(more[0])[0]; }
      assert PrintBit(b) + (PrintBits(more) + rest) == PrintBits(bs) + rest;
    }
  }

  /** A comment starts at i exactly when the text before it is escaped characters,
      expansion openings and plain characters other than `#` and backslash; it is
      refused as ambiguous exactly when those leave an expansion open. */
  lemma CommentIff(line: string, i: nat, why: bool)
    requires i < |line|
    ensures CommentFrom(line, 0, 0) == (i, why)
            <==> line[i] == '#'
                 && exists bs :: BitsOk(bs) && PrintBits(bs) == line[..i] && why == (DepthAfter(bs, 0) > 0)
  {
    if CommentFrom(line, 0, 0) == (i, why) {
      var bs, rest := BitsOf(line, 0);
      assert line[0..] == line;
      CommentIsFound(line, 0, 0, bs, rest);
      assert PrintBits(bs) == line[..i];
    }
    forall bs | line[i] == '#' && BitsOk(bs) && PrintBits(bs) == line[..i]
      ensures CommentFrom(line, 0, 0) == (i, DepthAfter(bs, 0) > 0)
    {
      assert line[0..] == line[..i] + line[i..];
      CommentIsFound(line, 0, 0, bs, line[i..]);
    }
  }

  /** A recipe line has no comment. Any other line has one exactly where bits are
      followed by a `#`, and its code is what comes before. */
  ghost predicate CodeOk(l: LogicalLine) {
    if l.tab then l.code == l.raw && l.commentAt == -1 && !l.commentWhy
    else exists bs, rest {:trigger PrintBits(bs) + rest} ::
           && BitsOk(bs) && Ending(rest) && l.raw == PrintBits(bs) + rest
           && if rest != "" && rest[0] == '#'
              then l.code == PrintBits(bs) && l.commentAt == |l.code| && l.commentWhy == (DepthAfter(bs, 0) > 0)
              else l.code == l.raw && l.commentAt == -1 && !l.commentWhy
  }

  lemma LinesHaveCode(text: string, k: nat)
    requires k < |Lines(text)|
    ensures CodeOk(Lines(text)[k])
  {
    var l := Lines(text)[k];
    ReadAllAt(Groups(Split(text), 0), k);
    if !l.tab {
      var bs, rest := BitsOf(l.raw, 0);
      assert l.raw[0..] == l.raw;
      CommentIsFound(l.raw, 0, 0, bs, rest);
      assert (PrintBits(bs) + rest)[..|PrintBits(bs)|] == PrintBits(bs) && l.raw[..|l.raw|] == l.raw;
    }
  }
}
