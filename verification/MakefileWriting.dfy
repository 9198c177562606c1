/** Rules written out plainly: every one of them is accepted, and reading it back
    gives the recipe that was written. */
module MakefileWriting {
  import opened Wrappers
  import opened MakefileLines
  import opened DollarRefs
  import opened MakefileGrammar

  // --------------------------------------------------------- lines nobody continues

  lemma {:induction false} SplitOfJoin(phys: seq<string>)
    requires phys != [] && forall i :: 0 <= i < |phys| ==> NoLF(phys[i])
    ensures Split(JoinLF(phys)) == phys
    decreases |phys|, |phys[0]|
  {
    if phys[0] == "" {
      if |phys| > 1 {
        SplitOfJoin(phys[1..]);
        var text := JoinLF(phys);
        assert text[0] == '\n' && text[1..] == JoinLF(phys[1..]);
        assert phys == [""] + phys[1..];
      }
    } else {
      var c, less := phys[0][0], phys[0 := phys[0][1..]];
      assert NoLF(phys[0]) && c in phys[0];
      SplitOfJoin(less);
      FirstCharApart(phys, less);
    }
  }

  lemma FirstCharApart(phys: seq<string>, less: seq<string>)
    requires phys != [] && phys[0] != "" && phys[0][0] != '\n' && less == phys[0 := phys[0][1..]]
    requires Split(JoinLF(less)) == less
    ensures Split(JoinLF(phys)) == phys
  {
    var text := JoinLF(phys);
    JoinedFirstChar(phys, less);
    assert less[1..] == phys[1..];
    assert [phys[0][0]] + less[0] == phys[0];
    assert phys == [phys[0]] + phys[1..];
  }

  lemma JoinedFirstChar(phys: seq<string>, less: seq<string>)
    requires phys != [] && phys[0] != "" && less == phys[0 := phys[0][1..]]
    ensures JoinLF(phys) != "" && JoinLF(phys)[0] == phys[0][0] && JoinLF(phys)[1..] == JoinLF(less)
  {
    assert less[1..] == phys[1..];
  }

  lemma {:induction false} GroupsAlone(phys: seq<string>, i: nat, k: nat)
    requires i <= k < |phys| && forall j :: 0 <= j < |phys| ==> !Continued(phys[j])
    ensures |Groups(phys, i)| == |phys| - i && Groups(phys, i)[k - i] == Group(k + 1, [phys[k]])
    decreases |phys| - i
  {
    assert GroupEnd(phys, i) == i && phys[i..i + 1] == [phys[i]];
    if i + 1 < |phys| { GroupsAlone(phys, i + 1, if k == i then k + 1 else k); }
  }

  predicate Standalone(phys: seq<string>) {
    phys != [] && forall i :: 0 <= i < |phys| ==> NoLF(phys[i]) && !Continued(phys[i])
  }

  /** A text of lines that nobody continues is read line by line. */
  lemma LinesAlone(phys: seq<string>, k: nat)
    requires Standalone(phys) && k < |phys|
    ensures |Lines(JoinLF(phys))| == |phys| && Lines(JoinLF(phys))[k] == Read(Group(k + 1, [phys[k]]))
  {
    SplitOfJoin(phys);
    GroupsAlone(phys, 0, k);
    ReadAllAt(Groups(phys, 0), k);
  }

  // ------------------------------------------------------------------ the rule line

  function RuleText(target: string, words: seq<string>): string { target + ":" + PrintWords(words) }

  predicate AllWords(words: seq<string>) { forall i :: 0 <= i < |words| ==> IsWord(words[i]) }

  /** Characters a literal rule line is made of. */
  predicate LineChar(c: char) { WordChar(c) || c == ' ' || c == ':' }

  lemma {:induction false} PrintedChars(words: seq<string>)
    requires AllWords(words)
    ensures forall i :: 0 <= i < |PrintWords(words)| ==> LineChar(PrintWords(words)[i])
    ensures words == [] ==> PrintWords(words) == ""
    ensures words != [] ==>
              var p := PrintWords(words);
              p != "" && p[0] == ' ' && p[|p| - 1] != '\\'
  {
    if words != [] {
      PrintedChars(words[1..]);
      var head, rest := " " + words[0], PrintWords(words[1..]);
      assert PrintWords(words) == head + rest;
      assert forall i :: 0 <= i < |head| ==> LineChar(head[i]);
    }
  }

  lemma RuleTextChars(target: string, words: seq<string>)
    requires IsWord(target) && AllWords(words)
    ensures var s := RuleText(target, words);
            |s| > |target| && s[0] == target[0] && forall i :: 0 <= i < |s| ==> LineChar(s[i])
  {
    PrintedChars(words);
  }

  lemma PlainLineReads(s: string, n: nat)
    requires s != "" && forall i :: 0 <= i < |s| ==> LineChar(s[i])
    ensures NoLF(s) && !Continued(s) && Read(Group(n, [s])) == LogicalLine(n, [s], false, s, s, -1, false, 0)
  {
    assert LineChar(s[|s| - 1]) && LineChar(s[0]);
    assert TrailingBackslashes(s, |s|) == 0;
    var cut := CommentFrom(s, 0, 0);
    assert cut.0 == |s|;
    assert s[..|s|] == s;
  }

  lemma {:induction false} LeadIsTarget(target: string, rest: string)
    requires forall i :: 0 <= i < |target| ==> WordChar(target[i])
    requires rest != "" && rest[0] == ':'
    ensures LeadSpan(target + rest) == |target|
  {
    if target != "" {
      assert (target + rest)[1..] == target[1..] + rest;
      LeadIsTarget(target[1..], rest);
    }
  }

  lemma KeywordIsTarget(target: string, words: seq<string>)
    requires IsWord(target)
    ensures KeywordLead(RuleText(target, words)) ==> KeywordFrom(target, 0)
  {
    var rest := ":" + PrintWords(words);
    TargetThenRest(target, PrintWords(words));
    LeadIsTarget(target, rest);
    assert (target + rest)[..|target|] == target;
  }

  /** After the identifier a rule line starts with comes no assignment operator. */
  lemma {:induction false} AfterIdent(target: string, rest: string)
    requires forall i :: 0 <= i < |target| ==> WordChar(target[i])
    requires rest != "" && rest[0] == ':' && (|rest| == 1 || rest[1] == ' ')
    ensures AfterAssignOp(LStripBlanks((target + rest)[IdentSpan(target + rest)..])).None?
  {
    var s := target + rest;
    if target != "" && IdentChar(target[0]) {
      assert s[1..] == target[1..] + rest;
      AfterIdent(target[1..], rest);
      assert s[IdentSpan(s)..] == s[1..][IdentSpan(s[1..])..];
    } else {
      assert IdentSpan(s) == 0 && s[0..] == s;
      assert s[0] == if target == "" then ':' else target[0];
      NoOperator(s);
    }
  }

  lemma PrefixChar(s: string, p: string, i: nat)
    requires i < |p|
    ensures HasPrefix(s, p) ==> i < |s| && s[i] == p[i]
  {
    if HasPrefix(s, p) { assert s[..|p|][i] == p[i]; }
  }

  lemma NoOperator(s: string)
    requires s != "" && !Blank(s[0]) && s[0] != '=' && s[0] != '?' && (s[0] == ':' ==> |s| == 1 || s[1] == ' ')
    ensures AfterAssignOp(LStripBlanks(s)).None?
  {
    PrefixChar(s, ":=", 0);
    PrefixChar(s, ":=", 1);
    PrefixChar(s, "?=", 0);
    PrefixChar(s, "=", 0);
  }

  lemma RuleIsNoAssignment(target: string, words: seq<string>)
    requires IsWord(target) && AllWords(words)
    ensures AssignedValue(RuleText(target, words)).None? && !PhonyMatches(RuleText(target, words))
  {
    var s, rest := RuleText(target, words), ":" + PrintWords(words);
    PrintedChars(words);
    TargetThenRest(target, PrintWords(words));
    AfterIdent(target, rest);
    assert s[0] == target[0] != '.';
    PrefixChar(s, ".SHELLFLAGS", 0);
    PrefixChar(s, ".DEFAULT_GOAL", 0);
    PrefixChar(s, ".PHONY", 0);
  }

  lemma {:induction false} BadSegmentsNone(l: LogicalLine, isFormat: char -> bool)
    requires |l.segments| == 1 && !BadSegment(l.segments[0], isFormat)
    ensures BadSegments(l, 0, isFormat) == []
  {
    assert BadSegments(l, 1, isFormat) == [];
  }

  lemma RuleLineIsJudged(target: string, words: seq<string>, n: nat, isFormat: char -> bool)
    requires IsWord(target) && AllWords(words) && !KeywordFrom(target, 0)
    ensures var s := RuleText(target, words);
            NoLF(s) && !Continued(s) && JudgeLine(Read(Group(n, [s])), false, isFormat) == Verdict([], Some(Rule), true)
  {
    var s := RuleText(target, words);
    RuleTextChars(target, words);
    PlainLineReads(s, n);
    var l := Read(Group(n, [s]));
    BadSegmentsNone(l, isFormat);
    assert !Blank(s[0]);
    KeywordIsTarget(target, words);
    RuleIsNoAssignment(target, words);
    PrintedRuleMatches(target, words);
  }

  // --------------------------------------------------------------------- the recipe

  /** A recipe line that can stand on its own: one line, no continuation, not
      blank, no forbidden character, and every `$` in the declared grammar. */
  predicate Writable(r: string, isFormat: char -> bool) {
    && NoLF(r) && !Continued("\t" + r) && !OnlyBlanks(r) && !BadSegment("\t" + r, isFormat) && Dollar(r, false) == []
  }

  predicate AllWritable(rs: seq<string>, isFormat: char -> bool) {
    forall i :: 0 <= i < |rs| ==> Writable(rs[i], isFormat)
  }

  /** Record l is line n, a recipe line that says r and is accepted in a rule. */
  predicate IsRecipe(l: LogicalLine, n: nat, r: string, isFormat: char -> bool) {
    l.tab && Entry(l) == RecipeLine(n, Strip(r)) && JudgeLine(l, true, isFormat) == Verdict([], Some(Recipe), true)
  }

  lemma TabLineIsJudged(r: string, n: nat, isFormat: char -> bool)
    requires Writable(r, isFormat)
    ensures IsRecipe(Read(Group(n, ["\t" + r])), n, r, isFormat)
  {
    var s := "\t" + r;
    var l := Read(Group(n, [s]));
    assert s[0] == '\t' && s[1..] == r;
    BadSegmentsNone(l, isFormat);
    var i :| 0 <= i < |r| && !Blank(r[i]);
    assert s[i + 1] == r[i];
    assert Dollar(s, false) == [];
  }

  // ------------------------------------------------------------------ whole rules

  function Tabbed(rs: seq<string>): (phys: seq<string>)
    ensures |phys| == |rs| && forall i :: 0 <= i < |rs| ==> phys[i] == "\t" + rs[i]
  {
    seq(|rs|, i requires 0 <= i < |rs| => "\t" + rs[i])
  }

  function Phys(target: string, words: seq<string>, rs: seq<string>): seq<string> {
    [RuleText(target, words)] + Tabbed(rs)
  }

  /** A rule with its recipe, as it is written in a Makefile. */
  function RuleWithRecipe(target: string, words: seq<string>, rs: seq<string>): string {
    JoinLF(Phys(target, words, rs))
  }

  lemma PhysStandsAlone(target: string, words: seq<string>, rs: seq<string>, isFormat: char -> bool)
    requires IsWord(target) && AllWords(words) && !KeywordFrom(target, 0) && AllWritable(rs, isFormat)
    ensures Standalone(Phys(target, words, rs))
  {
    var phys := Phys(target, words, rs);
    RuleLineIsJudged(target, words, 1, isFormat);
    forall i | 0 <= i < |phys| ensures NoLF(phys[i]) && !Continued(phys[i]) {
      if i > 0 { assert Writable(rs[i - 1], isFormat) && phys[i] == "\t" + rs[i - 1]; }
    }
  }

  /** The recipe as recipe_lines returns it, its first line being line n. */
  function Recipes(rs: seq<string>, n: nat): (out: seq<RecipeLine>)
    ensures |out| == |rs| && forall i :: 0 <= i < |rs| ==> out[i] == RecipeLine(n + i, Strip(rs[i]))
  {
    seq(|rs|, i requires 0 <= i < |rs| => RecipeLine(n + i, Strip(rs[i])))
  }

  lemma RecipesStep(rs: seq<string>, n: nat)
    requires rs != []
    ensures Recipes(rs, n) == [RecipeLine(n, Strip(rs[0]))] + Recipes(rs[1..], n + 1)
  {
  }

  predicate AreRecipes(lines: seq<LogicalLine>, n: nat, rs: seq<string>, isFormat: char -> bool) {
    |lines| == |rs| && forall i :: 0 <= i < |rs| ==> IsRecipe(lines[i], n + i, rs[i], isFormat)
  }

  lemma NextRecipes(lines: seq<LogicalLine>, n: nat, rs: seq<string>, isFormat: char -> bool)
    requires AreRecipes(lines, n, rs, isFormat) && rs != []
    ensures IsRecipe(lines[0], n, rs[0], isFormat) && AreRecipes(lines[1..], n + 1, rs[1..], isFormat)
  {
    forall i | 0 <= i < |rs[1..]| ensures IsRecipe(lines[1..][i], n + 1 + i, rs[1..][i], isFormat) {
      assert IsRecipe(lines[i + 1], n + (i + 1), rs[i + 1], isFormat);
    }
  }

  /** Recipe lines read in an open rule are all accepted. */
  lemma {:induction false} RecipesAccepted(lines: seq<LogicalLine>, n: nat, rs: seq<string>, isFormat: char -> bool,
                                           i: nat)
    requires AreRecipes(lines, n, rs, isFormat) && i < |Judgements(lines, true, isFormat)|
    ensures Judgements(lines, true, isFormat)[i].refusals == []
    decreases |lines|
  {
    if lines != [] {
      NextRecipes(lines, n, rs, isFormat);
      if i > 0 { RecipesAccepted(lines[1..], n + 1, rs[1..], isFormat, i - 1); }
    }
  }

  lemma {:induction false} RecipesRead(lines: seq<LogicalLine>, k: nat, n: nat, rs: seq<string>, isFormat: char -> bool)
    requires k <= |lines| && AreRecipes(lines[k..], n, rs, isFormat)
    ensures RecipeFrom(lines, k) == Recipes(rs, n)
    decreases |lines| - k
  {
    if k < |lines| {
      NextRecipes(lines[k..], n, rs, isFormat);
      RecipesStep(rs, n);
      assert lines[k..][1..] == lines[k + 1..];
      RecipesRead(lines, k + 1, n + 1, rs[1..], isFormat);
    }
  }

  lemma WrittenRecipes(target: string, words: seq<string>, rs: seq<string>, isFormat: char -> bool)
    requires Standalone(Phys(target, words, rs)) && AllWritable(rs, isFormat)
    ensures var lines := Lines(RuleWithRecipe(target, words, rs));
            && |lines| == |rs| + 1 && lines[0] == Read(Group(1, [RuleText(target, words)]))
            && AreRecipes(lines[1..], 2, rs, isFormat)
  {
    LinesAlone(Phys(target, words, rs), 0);
    RecipeLines(Phys(target, words, rs), rs, isFormat);
  }

  lemma RecipeLines(phys: seq<string>, rs: seq<string>, isFormat: char -> bool)
    requires Standalone(phys) && |phys| == |rs| + 1 && AllWritable(rs, isFormat)
    requires forall i :: 0 <= i < |rs| ==> phys[i + 1] == "\t" + rs[i]
    ensures |Lines(JoinLF(phys))| == |phys| && AreRecipes(Lines(JoinLF(phys))[1..], 2, rs, isFormat)
  {
    LinesAlone(phys, 0);
    var lines := Lines(JoinLF(phys));
    forall i | 0 <= i < |rs| ensures IsRecipe(lines[1..][i], 2 + i, rs[i], isFormat) {
      RecipeLineAt(phys, i + 1, rs[i], isFormat);
    }
  }

  lemma RecipeLineAt(phys: seq<string>, k: nat, r: string, isFormat: char -> bool)
    requires Standalone(phys) && k < |phys| && phys[k] == "\t" + r && Writable(r, isFormat)
    ensures |Lines(JoinLF(phys))| == |phys| && IsRecipe(Lines(JoinLF(phys))[k], k + 1, r, isFormat)
  {
    LinesAlone(phys, k);
    TabLineIsJudged(r, k + 1, isFormat);
  }

  lemma AcceptedFrom(lines: seq<LogicalLine>, rs: seq<string>, isFormat: char -> bool)
    requires |lines| == |rs| + 1 && JudgeLine(lines[0], false, isFormat) == Verdict([], Some(Rule), true)
    requires AreRecipes(lines[1..], 2, rs, isFormat)
    ensures RefusalsFrom(lines, false, isFormat) == []
  {
    var vs, more := Judgements(lines, false, isFormat), Judgements(lines[1..], true, isFormat);
    assert vs == [Verdict([], Some(Rule), true)] + more;
    forall i | 0 <= i < |vs| ensures vs[i].refusals == [] {
      if i > 0 { RecipesAccepted(lines[1..], 2, rs, isFormat, i - 1); }
    }
    NoRefusalsIff(vs);
  }

  /** Every rule with a literal target that is no directive word, literal
      prerequisites and writable recipe lines is accepted as written, and reading
      its recipe back gives those lines, numbered from the second line on. */
  lemma WrittenRuleReadsBack(target: string, words: seq<string>, rs: seq<string>, isFormat: char -> bool)
    requires IsWord(target) && AllWords(words) && !KeywordFrom(target, 0) && AllWritable(rs, isFormat)
    ensures Accepted(RuleWithRecipe(target, words, rs), isFormat)
    ensures |Lines(RuleWithRecipe(target, words, rs))| == |rs| + 1
    ensures RecipeFrom(Lines(RuleWithRecipe(target, words, rs)), 1) == Recipes(rs, 2)
  {
    var lines := Lines(RuleWithRecipe(target, words, rs));
    PhysStandsAlone(target, words, rs, isFormat);
    WrittenRecipes(target, words, rs, isFormat);
    RuleLineIsJudged(target, words, 1, isFormat);
    AcceptedFrom(lines, rs, isFormat);
    RecipesRead(lines, 1, 2, rs, isFormat);
  }
}
