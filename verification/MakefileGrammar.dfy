/** The allowlist grammar over logical lines, and its agreement with the recipe
    reader about which rule owns which TAB line. */
module MakefileGrammar {
  import opened Wrappers
  import opened MakefileLines
  import opened DollarRefs

  // --------------------------------------------------- the patterns as predicates

  function IdentSpan(s: string): (n: nat)
    ensures n <= |s|
  {
    if s != "" && IdentChar(s[0]) then 1 + IdentSpan(s[1..]) else 0
  }

  predicate HasPrefix(s: string, p: string) { |p| <= |s| && s[..|p|] == p }

  /** What follows the assigned NAME, if the line starts with one. */
  function AfterName(body: string): Option<string> {
    if body != "" && IdentStart(body[0]) then Some(body[IdentSpan(body)..])
    else if HasPrefix(body, ".SHELLFLAGS") then Some(body[11..])
    else if HasPrefix(body, ".DEFAULT_GOAL") then Some(body[13..])
    else None
  }

  function AfterAssignOp(s: string): Option<string> {
    if HasPrefix(s, ":=") || HasPrefix(s, "?=") then Some(s[2..])
    else if HasPrefix(s, "=") then Some(s[1..])
    else None
  }

  /** `NAME op value`: the value, when the line is an assignment. */
  function AssignedValue(body: string): Option<string> {
    match AfterName(body)
    case None => None
    case Some(rest) => AfterAssignOp(LStripBlanks(rest))
  }

  predicate WordStart(c: char) { IdentChar(c) }

  predicate WordChar(c: char) { IdentChar(c) || c == '.' || c == '/' || c == '-' }

  function WordSpan(s: string): (n: nat)
    ensures n <= |s|
  {
    if s != "" && WordChar(s[0]) then 1 + WordSpan(s[1..]) else 0
  }

  lemma LStripShortens(s: string)
    ensures |LStripBlanks(s)| <= |s|
  {
  }

  /** Zero or more blank-separated words and nothing else. */
  predicate Words(s: string)
    decreases |s|
  {
    LStripShortens(s);
    var t := LStripBlanks(s);
    t == "" || (|t| < |s| && WordStart(t[0]) && Words(t[WordSpan(t)..]))
  }

  predicate AfterColon(s: string, atLeastOne: bool) {
    var t := LStripBlanks(s);
    t != "" && t[0] == ':' && Words(t[1..]) && (atLeastOne ==> LStripBlanks(t[1..]) != "")
  }

  predicate PhonyMatches(body: string) { HasPrefix(body, ".PHONY") && AfterColon(body[6..], true) }

  predicate RuleMatches(body: string) {
    body != "" && WordStart(body[0]) && AfterColon(body[WordSpan(body)..], false)
  }

  // What a rule line can and cannot hold.

  predicate Literal(s: string) { forall i :: 0 <= i < |s| ==> WordChar(s[i]) || Blank(s[i]) }

  lemma {:induction false} StripLiteral(s: string)
    requires Literal(LStripBlanks(s))
    ensures Literal(s)
  {
    if s != "" && Blank(s[0]) { StripLiteral(s[1..]); }
  }

  lemma {:induction false} SpanIsWord(s: string)
    ensures forall i :: 0 <= i < WordSpan(s) ==> WordChar(s[i])
    ensures WordSpan(s) < |s| ==> !WordChar(s[WordSpan(s)])
  {
    if s != "" && WordChar(s[0]) { SpanIsWord(s[1..]); }
  }

  lemma {:induction false} WordsAreLiteral(s: string)
    requires Words(s)
    ensures Literal(s)
    decreases |s|
  {
    LStripShortens(s);
    var t := LStripBlanks(s);
    if t != "" {
      SpanIsWord(t);
      WordsAreLiteral(t[WordSpan(t)..]);
      assert t == t[..WordSpan(t)] + t[WordSpan(t)..];
    }
    StripLiteral(s);
  }

  /** Around the one colon of a rule line stand literal words and blanks only: no
      `$`, no `;`, no `=`, no pattern, no second colon. */
  lemma RuleLineIsLiteral(body: string) returns (colon: nat)
    requires RuleMatches(body)
    ensures colon < |body| && body[colon] == ':'
    ensures Literal(body[..colon]) && Literal(body[colon + 1..])
  {
    var n := WordSpan(body);
    var rest := body[n..];
    var t := LStripBlanks(rest);
    SpanIsWord(body);
    StripIsSuffix(rest);
    colon := |body| - |t|;
    assert body[colon..] == t && body[colon + 1..] == t[1..];
    WordsAreLiteral(t[1..]);
  }

  lemma {:induction false} StripIsSuffix(s: string)
    ensures |LStripBlanks(s)| <= |s| && s[|s| - |LStripBlanks(s)|..] == LStripBlanks(s)
    ensures forall i :: 0 <= i < |s| - |LStripBlanks(s)| ==> Blank(s[i])
  {
    if s != "" && Blank(s[0]) { StripIsSuffix(s[1..]); }
  }

  predicate IsWord(w: string) { w != "" && WordStart(w[0]) && forall i :: 0 <= i < |w| ==> WordChar(w[i]) }

  function PrintWords(ws: seq<string>): string {
    if ws == [] then "" else " " + ws[0] + PrintWords(ws[1..])
  }

  lemma {:induction false} SpanOfWord(w: string, rest: string)
    requires forall i :: 0 <= i < |w| ==> WordChar(w[i])
    requires rest == "" || !WordChar(rest[0])
    ensures WordSpan(w + rest) == |w|
  {
    if w != "" {
      assert (w + rest)[1..] == w[1..] + rest;
      SpanOfWord(w[1..], rest);
    }
  }

  lemma {:induction false} PrintedWords(ws: seq<string>)
    requires forall i :: 0 <= i < |ws| ==> IsWord(ws[i])
    ensures Words(PrintWords(ws))
  {
    if ws != [] {
      var rest := PrintWords(ws[1..]);
      var t := ws[0] + rest;
      PrintedWords(ws[1..]);
      SpanOfWord(ws[0], rest);
      assert PrintWords(ws) == " " + t && PrintWords(ws)[1..] == t;
      assert !Blank(t[0]);
      assert t[|ws[0]|..] == rest;
    }
  }

  /** Every literal target with literal prerequisites is a rule line. */
  lemma PrintedRuleMatches(target: string, prerequisites: seq<string>)
    requires IsWord(target) && forall i :: 0 <= i < |prerequisites| ==> IsWord(prerequisites[i])
    ensures RuleMatches(target + ":" + PrintWords(prerequisites))
  {
    PrintedWords(prerequisites);
    RuleOf(target, PrintWords(prerequisites));
    TargetThenRest(target, PrintWords(prerequisites));
  }

  lemma RuleOf(target: string, words: string)
    requires IsWord(target) && Words(words)
    ensures RuleMatches(target + (":" + words))
  {
    TargetThenRest(target, words);
    SpanOfWord(target, ":" + words);
    ColonThenWords(words);
    RuleFrom(target + (":" + words), |target|, ":" + words);
  }

  lemma RuleFrom(body: string, n: nat, rest: string)
    requires body != "" && WordStart(body[0]) && WordSpan(body) == n && n <= |body| && body[n..] == rest
    requires AfterColon(rest, false)
    ensures RuleMatches(body)
  {
  }

  lemma TargetThenRest(target: string, words: string)
    requires target != ""
    ensures target + ":" + words == target + (":" + words)
    ensures (target + (":" + words))[0] == target[0] && (target + (":" + words))[|target|..] == ":" + words
  {
  }

  lemma ColonThenWords(words: string)
    requires Words(words)
    ensures AfterColon(":" + words, false)
  {
    assert (":" + words)[1..] == words;
  }

  /** GNU make's directive words. */
  function Keyword(i: nat): string {
    if i == 0 then "ifdef" else if i == 1 then "ifndef" else if i == 2 then "ifeq" else if i == 3 then "ifneq"
    else if i == 4 then "else" else if i == 5 then "endif" else if i == 6 then "include" else if i == 7 then "-include"
    else if i == 8 then "sinclude" else if i == 9 then "define" else if i == 10 then "endef"
    else if i == 11 then "export" else if i == 12 then "unexport" else if i == 13 then "override"
    else if i == 14 then "private" else if i == 15 then "undefine" else if i == 16 then "vpath"
    else if i == 17 then "load" else "-load"
  }

  predicate KeywordFrom(s: string, i: nat)
    decreases 19 - i
  {
    i < 19 && (s == Keyword(i) || KeywordFrom(s, i + 1))
  }

  predicate LeadChar(c: char) {
    !PySpace(c) && c != ':' && c != '=' && c != '?' && c != '+' && c != '!' && c != '#'
  }

  function LeadSpan(s: string): (n: nat)
    ensures n <= |s|
  {
    if s != "" && LeadChar(s[0]) then 1 + LeadSpan(s[1..]) else 0
  }

  predicate OperatorAt(s: string) {
    HasPrefix(s, ":") || HasPrefix(s, "=") || HasPrefix(s, "?=") || HasPrefix(s, "+=") || HasPrefix(s, "!=")
    || HasPrefix(s, "&:")
  }

  /** A directive word where a NAME or a rule target would stand. */
  predicate KeywordLead(body: string) {
    KeywordFrom(body[..LeadSpan(body)], 0) && OperatorAt(LStripBlanks(body[LeadSpan(body)..]))
  }

  /** _forbidden_char, with the Unicode format category supplied by the caller. */
  predicate Forbidden(c: char, isFormat: char -> bool) {
    && c != '\t' && !(' ' <= c <= '~')
    && ((c as int) < 32 || 127 <= (c as int) <= 159 || isFormat(c) || PySpace(c))
  }

  predicate BadSegment(s: string, isFormat: char -> bool) {
    exists i :: 0 <= i < |s| && Forbidden(s[i], isFormat)
  }

  predicate OnlyBlanks(s: string) { forall i :: 0 <= i < |s| ==> Blank(s[i]) }

  // ---------------------------------------------------------------- one line

  datatype Shape = BlankOrComment | Assignment | Phony | Rule | Recipe

  datatype Why = ForbiddenChar | WhitespaceLine | TabOutsideRule | RecipeUses(p: Problem) | CommentInExpansion
               | CommentContinued | KeywordAsName | ValueUses(p: Problem) | ContinuedRuleLine | OutsideShapes

  datatype Refusal = Refusal(n: nat, why: Why)

  datatype Verdict = Verdict(refusals: seq<Refusal>, shape: Option<Shape>, inRule: bool)

  function BadSegments(l: LogicalLine, k: nat, isFormat: char -> bool): seq<Refusal>
    requires k <= |l.segments|
    decreases |l.segments| - k
  {
    if k == |l.segments| then []
    else (if BadSegment(l.segments[k], isFormat) then [Refusal(l.n + k, ForbiddenChar)] else [])
         + BadSegments(l, k + 1, isFormat)
  }

  function Wrap(n: nat, ps: seq<Problem>, recipe: bool): (r: seq<Refusal>)
    ensures |r| == |ps|
  {
    seq(|ps|, i requires 0 <= i < |ps| => Refusal(n, if recipe then RecipeUses(ps[i]) else ValueUses(ps[i])))
  }

  function Refuse(l: LogicalLine, why: Why): Verdict { Verdict([Refusal(l.n, why)], None, false) }

  /** A line that is neither TAB, blank nor comment: it closes any open rule. */
  function JudgeStatement(l: LogicalLine): Verdict {
    if KeywordLead(l.code) then Refuse(l, KeywordAsName)
    else if AssignedValue(l.code).Some? then
      Verdict(Wrap(l.n, Dollar(AssignedValue(l.code).value, true), false), Some(Assignment), false)
    else if (PhonyMatches(l.code) || RuleMatches(l.code)) && |l.segments| > 1 then Refuse(l, ContinuedRuleLine)
    else if PhonyMatches(l.code) then Verdict([], Some(Phony), false)
    else if RuleMatches(l.code) then Verdict([], Some(Rule), true)
    else Refuse(l, OutsideShapes)
  }

  function JudgeLine(l: LogicalLine, inRule: bool, isFormat: char -> bool): Verdict {
    var bad := BadSegments(l, 0, isFormat);
    if bad != [] then Verdict(bad, None, false)
    else if l.raw != "" && OnlyBlanks(l.raw) then Refuse(l, WhitespaceLine)
    else if l.tab then
      if !inRule then Refuse(l, TabOutsideRule)
      else Verdict(Wrap(l.n, Dollar(l.raw, false), true), Some(Recipe), true)
    else if l.commentWhy then Refuse(l, CommentInExpansion)
    else if 0 <= l.commentAt < l.tail then Refuse(l, CommentContinued)
    else if KeepsRuleOpen(l) then Verdict([], Some(BlankOrComment), inRule)
    else JudgeStatement(l)
  }

  // ---------------------------------------------------------------- whole texts

  /** The verdict on every line, the open rule carried from one to the next. */
  function Judgements(lines: seq<LogicalLine>, inRule: bool, isFormat: char -> bool): seq<Verdict> {
    if lines == [] then []
    else var v := JudgeLine(lines[0], inRule, isFormat); [v] + Judgements(lines[1..], v.inRule, isFormat)
  }

  function AllRefusals(vs: seq<Verdict>): seq<Refusal> {
    if vs == [] then [] else AllRefusals(vs[..|vs| - 1]) + vs[|vs| - 1].refusals
  }

  function CountShape(vs: seq<Verdict>, s: Shape): nat {
    if vs == [] then 0 else CountShape(vs[..|vs| - 1], s) + (if vs[|vs| - 1].shape == Some(s) then 1 else 0)
  }

  function RefusalsFrom(lines: seq<LogicalLine>, inRule: bool, isFormat: char -> bool): seq<Refusal> {
    AllRefusals(Judgements(lines, inRule, isFormat))
  }

  predicate Accepted(text: string, isFormat: char -> bool) { RefusalsFrom(Lines(text), false, isFormat) == [] }

  lemma AppendVerdict(vs: seq<Verdict>, v: Verdict)
    ensures AllRefusals(vs + [v]) == AllRefusals(vs) + v.refusals
    ensures forall s: Shape :: CountShape(vs + [v], s) == CountShape(vs, s) + (if v.shape == Some(s) then 1 else 0)
  {
    assert (vs + [v])[..|vs|] == vs;
  }

  lemma {:induction false} NoRefusals(vs: seq<Verdict>, i: nat)
    requires AllRefusals(vs) == [] && i < |vs|
    ensures vs[i].refusals == []
  {
    if i < |vs| - 1 { NoRefusals(vs[..|vs| - 1], i); }
  }

  lemma {:induction false} NoRefusalsIff(vs: seq<Verdict>)
    requires forall i :: 0 <= i < |vs| ==> vs[i].refusals == []
    ensures AllRefusals(vs) == []
  {
    if vs != [] { NoRefusalsIff(vs[..|vs| - 1]); }
  }

  /** A text is refused nowhere exactly when its first line is not and the rest,
      read with the rule that line leaves open, is not. */
  lemma AcceptedHead(lines: seq<LogicalLine>, inRule: bool, isFormat: char -> bool)
    requires lines != [] && RefusalsFrom(lines, inRule, isFormat) == []
    ensures var v := JudgeLine(lines[0], inRule, isFormat);
            v.refusals == [] && RefusalsFrom(lines[1..], v.inRule, isFormat) == []
  {
    var vs := Judgements(lines, inRule, isFormat);
    var rest := Judgements(lines[1..], vs[0].inRule, isFormat);
    NoRefusals(vs, 0);
    forall i | 0 <= i < |rest| ensures rest[i].refusals == [] {
      NoRefusals(vs, i + 1);
      assert vs[i + 1] == rest[i];
    }
    NoRefusalsIff(rest);
  }

  function ZeroShapes(): map<Shape, nat> {
    map[BlankOrComment := 0, Assignment := 0, Phony := 0, Rule := 0, Recipe := 0]
  }

  lemma ZeroShapesAreZero()
    ensures forall s: Shape :: s in ZeroShapes() && ZeroShapes()[s] == 0
  {
    forall s: Shape ensures s in ZeroShapes() && ZeroShapes()[s] == 0 {
      match s
      case BlankOrComment =>
      case Assignment =>
      case Phony =>
      case Rule =>
      case Recipe =>
    }
  }

  lemma NextJudgement(lines: seq<LogicalLine>, k: nat, inRule: bool, isFormat: char -> bool, done: seq<Verdict>)
    requires k < |lines|
    ensures var v := JudgeLine(lines[k], inRule, isFormat);
            done + Judgements(lines[k..], inRule, isFormat)
            == done + [v] + Judgements(lines[k + 1..], v.inRule, isFormat)
  {
    assert lines[k..][0] == lines[k] && lines[k..][1..] == lines[k + 1..];
  }

  method JudgeAll(lines: seq<LogicalLine>, isFormat: char -> bool) returns (out: seq<Refusal>, shapes: map<Shape, nat>)
    ensures out == RefusalsFrom(lines, false, isFormat)
    ensures forall s: Shape :: s in shapes && shapes[s] == CountShape(Judgements(lines, false, isFormat), s)
  {
    out := [];
    shapes := ZeroShapes();
    ZeroShapesAreZero();
    var inRule := false;
    ghost var done: seq<Verdict> := [];
    assert lines[0..] == lines;
    for k := 0 to |lines|
      invariant Judgements(lines, false, isFormat) == done + Judgements(lines[k..], inRule, isFormat)
      invariant out == AllRefusals(done)
      invariant forall s: Shape :: s in shapes && shapes[s] == CountShape(done, s)
    {
      var v := JudgeLine(lines[k], inRule, isFormat);
      NextJudgement(lines, k, inRule, isFormat, done);
      AppendVerdict(done, v);
      out, done := out + v.refusals, done + [v];
      if v.shape.Some? { shapes := shapes[v.shape.value := shapes[v.shape.value] + 1]; }
      inRule := v.inRule;
    }
    assert done == Judgements(lines, false, isFormat);
  }

  /** grammar_problems: the refusals, and the shape counts it leaves behind. */
  method GrammarProblems(text: string, isFormat: char -> bool) returns (out: seq<Refusal>, shapes: map<Shape, nat>)
    ensures out == [] <==> Accepted(text, isFormat)
    ensures out == RefusalsFrom(Lines(text), false, isFormat)
    ensures forall s: Shape :: s in shapes && shapes[s] == CountShape(Judgements(Lines(text), false, isFormat), s)
  {
    var lines := ReadLines(text);
    out, shapes := JudgeAll(lines, isFormat);
  }

  lemma {:induction false} ShapesCover(vs: seq<Verdict>)
    requires forall i :: 0 <= i < |vs| ==> vs[i].shape.Some?
    ensures CountShape(vs, BlankOrComment) + CountShape(vs, Assignment) + CountShape(vs, Phony)
            + CountShape(vs, Rule) + CountShape(vs, Recipe) == |vs|
  {
    if vs != [] {
      ShapesCover(vs[..|vs| - 1]);
      match vs[|vs| - 1].shape.value
      case BlankOrComment =>
      case Assignment =>
      case Phony =>
      case Rule =>
      case Recipe =>
    }
  }

  lemma {:induction false} JudgementsCover(lines: seq<LogicalLine>, inRule: bool, isFormat: char -> bool)
    requires RefusalsFrom(lines, inRule, isFormat) == []
    ensures var vs := Judgements(lines, inRule, isFormat);
            |vs| == |lines| && forall i :: 0 <= i < |vs| ==> vs[i].shape.Some?
    decreases |lines|
  {
    if lines != [] {
      AcceptedHead(lines, inRule, isFormat);
      var v := JudgeLine(lines[0], inRule, isFormat);
      if v.shape.None? { NoShapeIsRefused(lines[0], inRule, isFormat); }
      JudgementsCover(lines[1..], v.inRule, isFormat);
    }
  }

  /** An accepted text is used up by the five shapes: every logical line is
      counted under exactly one of them. */
  lemma ShapesCoverAcceptedText(text: string, isFormat: char -> bool)
    requires Accepted(text, isFormat)
    ensures var vs := Judgements(Lines(text), false, isFormat);
            CountShape(vs, BlankOrComment) + CountShape(vs, Assignment) + CountShape(vs, Phony)
            + CountShape(vs, Rule) + CountShape(vs, Recipe) == |Lines(text)|
  {
    JudgementsCover(Lines(text), false, isFormat);
    ShapesCover(Judgements(Lines(text), false, isFormat));
  }

  lemma NoShapeIsRefused(l: LogicalLine, inRule: bool, isFormat: char -> bool)
    requires JudgeLine(l, inRule, isFormat).shape.None?
    ensures JudgeLine(l, inRule, isFormat).refusals != []
  {
  }

  // ------------------------------------------------------------- the partition

  /** All that ownership of TAB lines depends on. */
  datatype Kind = TabLine | OpenLine | RuleLine | ClosingLine

  function KindOf(l: LogicalLine): Kind {
    if l.tab then TabLine
    else if KeepsRuleOpen(l) then OpenLine
    else if JudgeStatement(l).shape == Some(Rule) then RuleLine
    else ClosingLine
  }

  function Kinds(lines: seq<LogicalLine>): (ks: seq<Kind>)
    ensures |ks| == |lines|
    ensures forall i :: 0 <= i < |lines| ==> ks[i] == KindOf(lines[i])
  {
    if lines == [] then [] else [KindOf(lines[0])] + Kinds(lines[1..])
  }

  /** Every TAB line stands in an open rule. */
  predicate TabsInRules(ks: seq<Kind>, inRule: bool) {
    ks == [] ||
    (&& (ks[0].TabLine? ==> inRule)
     && TabsInRules(ks[1..], if ks[0].TabLine? || ks[0].OpenLine? then inRule else ks[0].RuleLine?))
  }

  /** What acceptance says of one line. */
  lemma AcceptedLine(l: LogicalLine, inRule: bool, isFormat: char -> bool)
    requires JudgeLine(l, inRule, isFormat).refusals == []
    ensures var k, after := KindOf(l), JudgeLine(l, inRule, isFormat).inRule;
            && (k.TabLine? ==> inRule)
            && after == if k.TabLine? || k.OpenLine? then inRule else k.RuleLine?
  {
  }

  lemma {:induction false} AcceptedTabsInRules(lines: seq<LogicalLine>, inRule: bool, isFormat: char -> bool)
    requires RefusalsFrom(lines, inRule, isFormat) == []
    ensures TabsInRules(Kinds(lines), inRule)
  {
    if lines != [] {
      AcceptedHead(lines, inRule, isFormat);
      AcceptedLine(lines[0], inRule, isFormat);
      AcceptedTabsInRules(lines[1..], JudgeLine(lines[0], inRule, isFormat).inRule, isFormat);
    }
  }

  /** The recipes of the rules from line k on, in the order of the rules. */
  function RuleRecipes(lines: seq<LogicalLine>, ks: seq<Kind>, k: nat): seq<RecipeLine>
    requires |ks| == |lines| && k <= |lines|
    decreases |lines| - k
  {
    if k == |lines| then []
    else (if ks[k].RuleLine? then RecipeFrom(lines, k + 1) else []) + RuleRecipes(lines, ks, k + 1)
  }

  function TabEntries(lines: seq<LogicalLine>, k: nat): seq<RecipeLine>
    requires k <= |lines|
    decreases |lines| - k
  {
    if k == |lines| then [] else (if lines[k].tab then [Entry(lines[k])] else []) + TabEntries(lines, k + 1)
  }

  /** Kinds that agree with the recipe reader's own two tests. */
  predicate Agree(lines: seq<LogicalLine>, ks: seq<Kind>) {
    |ks| == |lines| && forall i :: 0 <= i < |lines| ==>
      (ks[i].TabLine? <==> lines[i].tab) && (ks[i].OpenLine? <==> KeepsRuleOpen(lines[i]))
  }

  lemma Cons(e: RecipeLine, a: seq<RecipeLine>, b: seq<RecipeLine>)
    ensures [e] + (a + b) == ([e] + a) + b
  {
  }

  lemma {:induction false} PartitionFrom(lines: seq<LogicalLine>, ks: seq<Kind>, k: nat, inRule: bool)
    requires Agree(lines, ks) && k <= |lines| && TabsInRules(ks[k..], inRule)
    ensures TabEntries(lines, k) == (if inRule then RecipeFrom(lines, k) else []) + RuleRecipes(lines, ks, k)
    decreases |lines| - k
  {
    if k < |lines| {
      assert ks[k..][1..] == ks[k + 1..];
      var rest := RuleRecipes(lines, ks, k + 1);
      match ks[k]
      case TabLine =>
        PartitionFrom(lines, ks, k + 1, inRule);
        Cons(Entry(lines[k]), RecipeFrom(lines, k + 1), rest);
        assert RuleRecipes(lines, ks, k) == [] + rest == rest;
      case OpenLine =>
        PartitionFrom(lines, ks, k + 1, inRule);
        assert RuleRecipes(lines, ks, k) == [] + rest == rest;
        assert TabEntries(lines, k) == [] + TabEntries(lines, k + 1) == TabEntries(lines, k + 1);
      case RuleLine =>
        PartitionFrom(lines, ks, k + 1, true);
        assert RecipeFrom(lines, k) == [];
        assert TabEntries(lines, k) == [] + TabEntries(lines, k + 1) == TabEntries(lines, k + 1);
      case ClosingLine =>
        PartitionFrom(lines, ks, k + 1, false);
        assert RecipeFrom(lines, k) == [];
        assert RuleRecipes(lines, ks, k) == [] + rest == rest;
    }
  }

  lemma KindsAgree(lines: seq<LogicalLine>)
    ensures Agree(lines, Kinds(lines))
  {
  }

  /** For every accepted text the recipes the reader returns for its rules, put
      one after the other, are the TAB lines: none lost, none shared, in order. */
  lemma RecipesPartitionTabLines(text: string, isFormat: char -> bool)
    requires Accepted(text, isFormat)
    ensures RuleRecipes(Lines(text), Kinds(Lines(text)), 0) == TabEntries(Lines(text), 0)
  {
    var lines := Lines(text);
    AcceptedTabsInRules(lines, false, isFormat);
    KindsAgree(lines);
    assert Kinds(lines)[0..] == Kinds(lines);
    PartitionFrom(lines, Kinds(lines), 0, false);
  }

  /** Line r is a rule and only TAB, blank or comment lines stand between it and
      the TAB line k. */
  predicate Owns(ks: seq<Kind>, r: nat, k: nat) {
    && r < k < |ks| && ks[r].RuleLine? && ks[k].TabLine?
    && forall j :: r < j < k ==> ks[j].TabLine? || ks[j].OpenLine?
  }

  lemma {:induction false} OwnerFrom(ks: seq<Kind>, i: nat, inRule: bool, k: nat, r: nat) returns (o: nat)
    requires i <= k < |ks| && ks[k].TabLine? && TabsInRules(ks[i..], inRule)
    requires inRule ==> r < i && ks[r].RuleLine? && forall j :: r < j < i ==> ks[j].TabLine? || ks[j].OpenLine?
    ensures Owns(ks, o, k)
    decreases k - i
  {
    assert ks[i..][1..] == ks[i + 1..];
    if i == k {
      o := r;
    } else if ks[i].RuleLine? {
      o := OwnerFrom(ks, i + 1, true, k, i);
    } else {
      o := OwnerFrom(ks, i + 1, (ks[i].TabLine? || ks[i].OpenLine?) && inRule, k, r);
    }
  }

  lemma {:induction false} RecipeHasOwned(lines: seq<LogicalLine>, ks: seq<Kind>, start: nat, k: nat)
    requires Agree(lines, ks) && start <= k < |lines| && lines[k].tab
    requires forall j :: start <= j < k ==> ks[j].TabLine? || ks[j].OpenLine?
    ensures Entry(lines[k]) in RecipeFrom(lines, start)
    decreases k - start
  {
    if start < k { RecipeHasOwned(lines, ks, start + 1, k); }
  }

  /** Each TAB line of an accepted text belongs to exactly one rule, and that
      rule's recipe holds it. */
  lemma OneRuleOwnsEachTabLine(text: string, isFormat: char -> bool, k: nat) returns (r: nat)
    requires Accepted(text, isFormat) && k < |Lines(text)| && Lines(text)[k].tab
    ensures var ks := Kinds(Lines(text));
            && Owns(ks, r, k) && Entry(Lines(text)[k]) in RecipeFrom(Lines(text), r + 1)
            && forall other: nat :: Owns(ks, other, k) ==> other == r
  {
    var lines := Lines(text);
    var ks := Kinds(lines);
    AcceptedTabsInRules(lines, false, isFormat);
    KindsAgree(lines);
    assert ks[0..] == ks;
    r := OwnerFrom(ks, 0, false, k, 0);
    RecipeHasOwned(lines, ks, r + 1, k);
  }

  lemma {:induction false} AcceptedLineIsClean(lines: seq<LogicalLine>, inRule: bool, isFormat: char -> bool, k: nat)
    requires k < |lines| && RefusalsFrom(lines, inRule, isFormat) == []
    ensures lines[k].tab ==> Dollar(lines[k].raw, false) == []
    ensures !lines[k].tab && !KeepsRuleOpen(lines[k]) && AssignedValue(lines[k].code).Some? ==>
              Dollar(AssignedValue(lines[k].code).value, true) == []
  {
    AcceptedHead(lines, inRule, isFormat);
    if k > 0 { AcceptedLineIsClean(lines[1..], JudgeLine(lines[0], inRule, isFormat).inRule, isFormat, k - 1); }
  }

  /** Every recipe line of an accepted text is written in the declared reference
      grammar, without any $(shell ...). */
  lemma AcceptedRecipesUseDeclaredRefs(text: string, isFormat: char -> bool, k: nat)
    requires Accepted(text, isFormat) && k < |Lines(text)| && Lines(text)[k].tab
    ensures exists refs :: Declared(refs, false) && Print(refs) == Lines(text)[k].raw
  {
    AcceptedLineIsClean(Lines(text), false, isFormat, k);
    LinesHaveNoLF(text, k);
    AcceptedIffDeclared(Lines(text)[k].raw, false);
  }
}
