/** The statements a pinned makefile may hold, written down as a datatype with a
    printer, and the proof that the allowlist admits exactly their printings: every
    other line is refused. */
module MakefileStatements {
  import opened Wrappers
  import opened MakefileLines
  import opened DollarRefs
  import opened MakefileGrammar

  /** A word with the blanks that stand before it. */
  datatype Spaced = Spaced(blanks: string, word: string)

  datatype Statement =
    | Assigns(name: string, blanks: string, op: string, value: string)
    | DeclaresPhony(blanks: string, words: seq<Spaced>, tail: string)
    | Rules(target: string, blanks: string, words: seq<Spaced>, tail: string)

  function PrintSpaced(ws: seq<Spaced>): string {
    if ws == [] then "" else ws[0].blanks + ws[0].word + PrintSpaced(ws[1..])
  }

  function PrintStatement(st: Statement): string {
    match st
    case Assigns(name, blanks, op, value) => name + (blanks + (op + value))
    case DeclaresPhony(blanks, ws, tail) => ".PHONY" + (blanks + (":" + (PrintSpaced(ws) + tail)))
    case Rules(target, blanks, ws, tail) => target + (blanks + (":" + (PrintSpaced(ws) + tail)))
  }

  predicate Assignable(name: string) {
    (IsIdent(name) && !KeywordFrom(name, 0)) || name == ".SHELLFLAGS" || name == ".DEFAULT_GOAL"
  }

  predicate AllSpaced(ws: seq<Spaced>) {
    forall i :: 0 <= i < |ws| ==> ws[i].blanks != "" && OnlyBlanks(ws[i].blanks) && IsWord(ws[i].word)
  }

  /** Whether a statement may stand on that many physical lines. */
  ghost predicate StatementOk(st: Statement, physical: nat) {
    match st
    case Assigns(name, blanks, op, value) =>
      && Assignable(name) && OnlyBlanks(blanks) && (op == ":=" || op == "?=" || op == "=")
      && exists refs :: RefsOk(refs, true) && Print(refs) == value
    case DeclaresPhony(blanks, ws, tail) =>
      OnlyBlanks(blanks) && ws != [] && AllSpaced(ws) && OnlyBlanks(tail) && physical <= 1
    case Rules(target, blanks, ws, tail) =>
      && IsWord(target) && !KeywordFrom(target, 0) && OnlyBlanks(blanks) && AllSpaced(ws) && OnlyBlanks(tail)
      && physical <= 1
  }

  function ShapeOf(st: Statement): Shape {
    match st case Assigns(_, _, _, _) => Assignment case DeclaresPhony(_, _, _) => Phony case Rules(_, _, _, _) => Rule
  }

  // ------------------------------------------------------------------ blanks and spans

  lemma {:induction false} StripOf(blanks: string, rest: string)
    requires OnlyBlanks(blanks) && (rest == "" || !Blank(rest[0]))
    ensures LStripBlanks(blanks + rest) == rest
  {
    var s := blanks + rest;
    if blanks != "" {
      assert s[0] == blanks[0] && s[1..] == blanks[1..] + rest;
      StripOf(blanks[1..], rest);
    } else {
      assert s == rest;
    }
  }

  lemma Prefixed(a: string, b: string)
    ensures HasPrefix(a + b, a) && (a + b)[..|a|] == a && (a + b)[|a|..] == b
  {
  }

  lemma {:induction false} IdentSpanOf(name: string, rest: string)
    requires forall i :: 0 <= i < |name| ==> IdentChar(name[i])
    requires rest == "" || !IdentChar(rest[0])
    ensures IdentSpan(name + rest) == |name|
  {
    if name != "" {
      assert (name + rest)[1..] == name[1..] + rest;
      IdentSpanOf(name[1..], rest);
    }
  }

  lemma {:induction false} LeadSpanOf(name: string, rest: string)
    requires forall i :: 0 <= i < |name| ==> LeadChar(name[i])
    requires rest == "" || !LeadChar(rest[0])
    ensures LeadSpan(name + rest) == |name|
  {
    if name != "" {
      assert (name + rest)[1..] == name[1..] + rest;
      LeadSpanOf(name[1..], rest);
    }
  }

  lemma WordCharsLead(c: char)
    requires WordChar(c)
    ensures LeadChar(c)
  {
  }

  lemma FirstOf(blanks: string, rest: string)
    requires OnlyBlanks(blanks) && rest != ""
    ensures blanks + rest != "" && ((blanks + rest)[0] == rest[0] || Blank((blanks + rest)[0]))
  {
  }

  // -------------------------------------------------------------- directives in front

  predicate AllLead(s: string) { forall i :: 0 <= i < |s| ==> LeadChar(s[i]) }

  predicate OperatorStart(c: char) { c == ':' || c == '=' || c == '?' }

  /** A name, blanks, and what starts with an operator: the directive test sees exactly
      the name. */
  lemma LeadIs(name: string, blanks: string, rest: string)
    requires AllLead(name) && OnlyBlanks(blanks) && rest != "" && OperatorStart(rest[0]) && OperatorAt(rest)
    ensures KeywordLead(name + (blanks + rest)) <==> KeywordFrom(name, 0)
  {
    FirstOf(blanks, rest);
    LeadSpanOf(name, blanks + rest);
    Prefixed(name, blanks + rest);
    StripOf(blanks, rest);
  }

  lemma WordsLead(w: string)
    requires forall i :: 0 <= i < |w| ==> WordChar(w[i])
    ensures AllLead(w)
  {
    forall i | 0 <= i < |w| ensures LeadChar(w[i]) { WordCharsLead(w[i]); }
  }

  lemma SpecialsLead()
    ensures AllLead(".SHELLFLAGS") && AllLead(".DEFAULT_GOAL") && AllLead(".PHONY")
  {
    WordsLead(".SHELLFLAGS");
    WordsLead(".DEFAULT_GOAL");
    WordsLead(".PHONY");
  }

  /** No directive word starts with a dot. */
  lemma DottedIsNoKeyword(s: string, i: nat)
    requires s != "" && s[0] == '.'
    ensures !KeywordFrom(s, i)
    decreases 19 - i
  {
    if i < 19 {
      assert Keyword(i)[0] != '.';
      DottedIsNoKeyword(s, i + 1);
    }
  }

  // ------------------------------------------------------- printed assignments are read

  lemma OpRead(op: string, value: string)
    requires op == ":=" || op == "?=" || op == "="
    ensures AfterAssignOp(op + value) == Some(value) && OperatorAt(op + value) && OperatorStart((op + value)[0])
  {
    Prefixed(op, value);
  }

  lemma NameRead(name: string, rest: string)
    requires (IsIdent(name) || name == ".SHELLFLAGS" || name == ".DEFAULT_GOAL")
    requires rest == "" || !IdentChar(rest[0])
    ensures AfterName(name + rest) == Some(rest)
  {
    Prefixed(name, rest);
    if IsIdent(name) { IdentSpanOf(name, rest); }
    else if name == ".DEFAULT_GOAL" { assert (name + rest)[1] == 'D' && ".SHELLFLAGS"[1] == 'S'; }
  }

  lemma AssignmentRead(name: string, blanks: string, op: string, value: string)
    requires Assignable(name) && OnlyBlanks(blanks) && (op == ":=" || op == "?=" || op == "=")
    ensures var code := name + (blanks + (op + value)); AssignedValue(code) == Some(value) && !KeywordLead(code)
  {
    OpRead(op, value);
    FirstOf(blanks, op + value);
    NameRead(name, blanks + (op + value));
    StripOf(blanks, op + value);
    NameLeads(name);
    LeadIs(name, blanks, op + value);
  }

  lemma NameLeads(name: string)
    requires Assignable(name)
    ensures AllLead(name) && !KeywordFrom(name, 0)
  {
    SpecialsLead();
    if IsIdent(name) { WordsLead(name); } else { DottedIsNoKeyword(name, 0); }
  }

  // ------------------------------------------------------------- printed words are read

  lemma {:induction false} SpacedAreWords(ws: seq<Spaced>, tail: string)
    requires AllSpaced(ws) && OnlyBlanks(tail)
    ensures Words(PrintSpaced(ws) + tail)
  {
    if ws == [] {
      assert PrintSpaced(ws) + tail == tail + "";
      StripOf(tail, "");
    } else {
      var rest := PrintSpaced(ws[1..]) + tail;
      SpacedAreWords(ws[1..], tail);
      RestStartsBlank(ws[1..], tail);
      assert PrintSpaced(ws) + tail == ws[0].blanks + (ws[0].word + rest);
      OneMoreWord(ws[0].blanks, ws[0].word, rest);
    }
  }

  lemma RestStartsBlank(ws: seq<Spaced>, tail: string)
    requires AllSpaced(ws) && OnlyBlanks(tail)
    ensures PrintSpaced(ws) + tail == "" || Blank((PrintSpaced(ws) + tail)[0])
  {
  }

  lemma OneMoreWord(blanks: string, word: string, rest: string)
    requires blanks != "" && OnlyBlanks(blanks) && IsWord(word) && Words(rest) && (rest == "" || Blank(rest[0]))
    ensures Words(blanks + (word + rest))
  {
    var t := word + rest;
    assert t[0] == word[0];
    StripOf(blanks, t);
    SpanOfWord(word, rest);
    Prefixed(word, rest);
  }

  lemma ColonRead(blanks: string, words: string, some: bool)
    requires OnlyBlanks(blanks) && Words(words) && (some ==> LStripBlanks(words) != "")
    ensures AfterColon(blanks + (":" + words), some)
  {
    StripOf(blanks, ":" + words);
    Prefixed(":", words);
  }

  lemma SomeWordLeft(ws: seq<Spaced>, tail: string)
    requires ws != [] && AllSpaced(ws)
    ensures LStripBlanks(PrintSpaced(ws) + tail) != ""
  {
    var rest := PrintSpaced(ws[1..]) + tail;
    assert PrintSpaced(ws) + tail == ws[0].blanks + (ws[0].word + rest);
    assert (ws[0].word + rest)[0] == ws[0].word[0];
    StripOf(ws[0].blanks, ws[0].word + rest);
  }

  // ------------------------------------------------- printed phony and rule lines are read

  lemma PhonyRead(blanks: string, ws: seq<Spaced>, tail: string)
    requires OnlyBlanks(blanks) && ws != [] && AllSpaced(ws) && OnlyBlanks(tail)
    ensures var code := ".PHONY" + (blanks + (":" + (PrintSpaced(ws) + tail)));
            PhonyMatches(code) && AssignedValue(code).None? && !KeywordLead(code)
  {
    var words := PrintSpaced(ws) + tail;
    var rest := blanks + (":" + words);
    SpacedAreWords(ws, tail);
    SomeWordLeft(ws, tail);
    ColonRead(blanks, words, true);
    Prefixed(".PHONY", rest);
    PhonyIsNoName(rest);
    Prefixed(":", words);
    SpecialsLead();
    DottedIsNoKeyword(".PHONY", 0);
    LeadIs(".PHONY", blanks, ":" + words);
  }

  lemma PhonyIsNoName(rest: string)
    ensures AfterName(".PHONY" + rest).None?
  {
    var code := ".PHONY" + rest;
    assert code[0] == '.' && code[1] == 'P' && ".SHELLFLAGS"[1] == 'S' && ".DEFAULT_GOAL"[1] == 'D';
  }

  /** A colon followed by a blank or nothing starts no assignment. */
  lemma ColonIsNoAssignment(words: string)
    requires words == "" || Blank(words[0])
    ensures AfterAssignOp(":" + words).None?
  {
    var s := ":" + words;
    assert s[0] == ':' && (words != "" ==> s[1] == words[0]);
    assert ":="[1] == '=' && "?="[0] == '?' && "="[0] == '=';
  }

  lemma RuleIsNoAssignment(target: string, blanks: string, words: string)
    requires IsWord(target) && OnlyBlanks(blanks) && (words == "" || Blank(words[0]))
    ensures AssignedValue(target + (blanks + (":" + words))).None?
  {
    var rest := blanks + (":" + words);
    var code := target + rest;
    var n := IdentSpan(code);
    ColonIsNoAssignment(words);
    FirstOf(blanks, ":" + words);
    assert code[0] == target[0];
    if IdentStart(code[0]) {
      if AllIdent(target) {
        IdentSpanOf(target, rest);
        Prefixed(target, rest);
        StripOf(blanks, ":" + words);
      } else {
        StopsInside(target, rest);
        assert code[n..][0] == target[n];
      }
    }
  }

  predicate AllIdent(s: string) { forall i :: 0 <= i < |s| ==> IdentChar(s[i]) }

  lemma {:induction false} StopsInside(s: string, rest: string)
    requires !AllIdent(s)
    ensures IdentSpan(s + rest) < |s| && !IdentChar(s[IdentSpan(s + rest)])
  {
    if IdentChar(s[0]) {
      assert (s + rest)[1..] == s[1..] + rest;
      StopsInside(s[1..], rest);
    }
  }

  lemma RuleMatched(target: string, blanks: string, words: string)
    requires IsWord(target) && OnlyBlanks(blanks) && Words(words)
    ensures var code := target + (blanks + (":" + words)); RuleMatches(code) && !PhonyMatches(code)
  {
    var rest := blanks + (":" + words);
    ColonRead(blanks, words, false);
    FirstOf(blanks, ":" + words);
    SpanOfWord(target, rest);
    Prefixed(target, rest);
    RuleFrom(target + rest, |target|, rest);
    assert (target + rest)[0] == target[0] != '.';
  }

  lemma RuleLeads(target: string, blanks: string, words: string)
    requires IsWord(target) && !KeywordFrom(target, 0) && OnlyBlanks(blanks)
    ensures !KeywordLead(target + (blanks + (":" + words)))
  {
    Prefixed(":", words);
    WordsLead(target);
    LeadIs(target, blanks, ":" + words);
  }

  lemma RuleRead(target: string, blanks: string, ws: seq<Spaced>, tail: string)
    requires IsWord(target) && !KeywordFrom(target, 0) && OnlyBlanks(blanks) && AllSpaced(ws) && OnlyBlanks(tail)
    ensures var code := target + (blanks + (":" + (PrintSpaced(ws) + tail)));
            RuleMatches(code) && !PhonyMatches(code) && AssignedValue(code).None? && !KeywordLead(code)
  {
    var words := PrintSpaced(ws) + tail;
    SpacedAreWords(ws, tail);
    RestStartsBlank(ws, tail);
    RuleMatched(target, blanks, words);
    RuleIsNoAssignment(target, blanks, words);
    RuleLeads(target, blanks, words);
  }

  /** Every printed statement is admitted, under its own shape. */
  lemma PrintedIsAdmitted(st: Statement, l: LogicalLine)
    requires StatementOk(st, |l.segments|) && PrintStatement(st) == l.code
    ensures JudgeStatement(l) == Verdict([], Some(ShapeOf(st)), st.Rules?)
  {
    match st
    case Assigns(name, blanks, op, value) =>
      AssignmentRead(name, blanks, op, value);
      AcceptedIffGrammar(value, true);
      assert Wrap(l.n, Dollar(value, true), false) == [];
    case DeclaresPhony(blanks, ws, tail) => PhonyRead(blanks, ws, tail);
    case Rules(target, blanks, ws, tail) => RuleRead(target, blanks, ws, tail);
  }

  // ------------------------------------------------------- admitted lines are statements

  /** What the blanks in front were. */
  lemma BlanksBefore(s: string) returns (blanks: string)
    ensures OnlyBlanks(blanks) && s == blanks + LStripBlanks(s)
  {
    StripIsSuffix(s);
    blanks := s[..|s| - |LStripBlanks(s)|];
    assert s == blanks + s[|blanks|..];
  }

  lemma {:induction false} IdentSpanIs(s: string)
    ensures forall i :: 0 <= i < IdentSpan(s) ==> IdentChar(s[i])
  {
    if s != "" && IdentChar(s[0]) { IdentSpanIs(s[1..]); }
  }

  lemma NameBefore(body: string) returns (name: string)
    requires AfterName(body).Some?
    ensures body == name + AfterName(body).value
    ensures IsIdent(name) || name == ".SHELLFLAGS" || name == ".DEFAULT_GOAL"
  {
    var rest := AfterName(body).value;
    name := body[..|body| - |rest|];
    IdentSpanIs(body);
    assert body == name + body[|name|..];
  }

  lemma OpBefore(s: string) returns (op: string)
    requires AfterAssignOp(s).Some?
    ensures s == op + AfterAssignOp(s).value && (op == ":=" || op == "?=" || op == "=")
  {
    op := if HasPrefix(s, ":=") then ":=" else if HasPrefix(s, "?=") then "?=" else "=";
    assert s == s[..|op|] + s[|op|..];
  }

  lemma AssignmentParses(l: LogicalLine) returns (st: Statement)
    requires JudgeStatement(l).refusals == [] && AssignedValue(l.code).Some?
    ensures StatementOk(st, |l.segments|) && PrintStatement(st) == l.code && st.Assigns?
  {
    var value := AssignedValue(l.code).value;
    var name := NameBefore(l.code);
    var rest := AfterName(l.code).value;
    var blanks := BlanksBefore(rest);
    var op := OpBefore(LStripBlanks(rest));
    st := Assigns(name, blanks, op, value);
    assert Dollar(value, true) == [];
    AcceptedIffGrammar(value, true);
    if IsIdent(name) {
      WordsLead(name);
      OpRead(op, value);
      LeadIs(name, blanks, op + value);
    }
  }

  lemma {:induction false} WordsParse(s: string) returns (ws: seq<Spaced>, tail: string)
    requires Words(s)
    ensures AllSpaced(ws) && OnlyBlanks(tail) && s == PrintSpaced(ws) + tail
    ensures ws == [] <==> LStripBlanks(s) == ""
    decreases |s|
  {
    LStripShortens(s);
    var blanks := BlanksBefore(s);
    var t := LStripBlanks(s);
    if t == "" {
      ws, tail := [], s;
      assert s == blanks + "" == blanks;
    } else {
      var n := WordSpan(t);
      SpanIsWord(t);
      var more;
      more, tail := WordsParse(t[n..]);
      ws := [Spaced(blanks, t[..n])] + more;
      NextWord(s, blanks, t, n, more, tail);
    }
  }

  lemma NextWord(s: string, blanks: string, t: string, n: nat, more: seq<Spaced>, tail: string)
    requires s == blanks + t && n <= |t| && t[n..] == PrintSpaced(more) + tail
    ensures s == PrintSpaced([Spaced(blanks, t[..n])] + more) + tail
  {
    ConsSpaced(Spaced(blanks, t[..n]), more, tail);
    assert t == t[..n] + t[n..];
  }

  lemma ConsSpaced(w: Spaced, more: seq<Spaced>, tail: string)
    ensures PrintSpaced([w] + more) + tail == w.blanks + (w.word + (PrintSpaced(more) + tail))
  {
    assert ([w] + more)[1..] == more;
  }

  lemma ColonParses(s: string, some: bool) returns (blanks: string, ws: seq<Spaced>, tail: string)
    requires AfterColon(s, some)
    ensures OnlyBlanks(blanks) && AllSpaced(ws) && OnlyBlanks(tail) && (some ==> ws != [])
    ensures s == blanks + (":" + (PrintSpaced(ws) + tail))
  {
    blanks := BlanksBefore(s);
    var t := LStripBlanks(s);
    ws, tail := WordsParse(t[1..]);
    assert t == ":" + t[1..];
  }

  lemma PhonyParses(l: LogicalLine) returns (st: Statement)
    requires PhonyMatches(l.code) && |l.segments| <= 1
    ensures StatementOk(st, |l.segments|) && PrintStatement(st) == l.code && st.DeclaresPhony?
  {
    var blanks, ws, tail := ColonParses(l.code[6..], true);
    st := DeclaresPhony(blanks, ws, tail);
    assert l.code == l.code[..6] + l.code[6..];
  }

  lemma TargetParses(body: string)
    requires RuleMatches(body)
    ensures var n := WordSpan(body); IsWord(body[..n]) && body == body[..n] + body[n..]
  {
    SpanIsWord(body);
  }

  lemma RuleParses(l: LogicalLine) returns (st: Statement)
    requires RuleMatches(l.code) && !KeywordLead(l.code) && |l.segments| <= 1
    ensures StatementOk(st, |l.segments|) && PrintStatement(st) == l.code && st.Rules?
  {
    var n := WordSpan(l.code);
    var target := l.code[..n];
    TargetParses(l.code);
    var blanks, ws, tail := ColonParses(l.code[n..], false);
    st := Rules(target, blanks, ws, tail);
    Prefixed(":", PrintSpaced(ws) + tail);
    WordsLead(target);
    LeadIs(target, blanks, ":" + (PrintSpaced(ws) + tail));
  }

  /** The default is to refuse: a line that is neither TAB, empty nor comment is admitted
      exactly when its code is the printing of an assignment of a name that is no
      directive word, to a value in the reference grammar; of a `.PHONY` line that
      names something; or of a rule with one literal target, both on one physical
      line. */
  lemma AdmittedIffStatement(l: LogicalLine)
    ensures JudgeStatement(l).refusals == [] <==>
              exists st :: StatementOk(st, |l.segments|) && PrintStatement(st) == l.code
  {
    if JudgeStatement(l).refusals == [] {
      var st;
      if AssignedValue(l.code).Some? { st := AssignmentParses(l); }
      else if PhonyMatches(l.code) { st := PhonyParses(l); }
      else { st := RuleParses(l); }
    }
    forall st | StatementOk(st, |l.segments|) && PrintStatement(st) == l.code
      ensures JudgeStatement(l).refusals == []
    {
      PrintedIsAdmitted(st, l);
    }
  }

  // ------------------------------------------------------------------- refused instances

  lemma PrintedHasOperator(st: Statement, physical: nat)
    requires StatementOk(st, physical)
    ensures ':' in PrintStatement(st) || '=' in PrintStatement(st)
  {
    match st
    case Assigns(name, blanks, op, value) =>
      var k := |name| + |blanks| + |op| - 1;
      assert PrintStatement(st)[k] == op[|op| - 1] == '=';
    case DeclaresPhony(blanks, ws, tail) => assert PrintStatement(st)[6 + |blanks|] == ':';
    case Rules(target, blanks, ws, tail) => assert PrintStatement(st)[|target| + |blanks|] == ':';
  }

  /** Whatever holds neither a colon nor an equals sign is refused: include, export,
      define, conditionals without one, and anything else. */
  lemma WithoutOperatorRefused(l: LogicalLine)
    requires ':' !in l.code && '=' !in l.code
    ensures JudgeStatement(l).refusals != []
  {
    AdmittedIffStatement(l);
    if JudgeStatement(l).refusals == [] {
      var st :| StatementOk(st, |l.segments|) && PrintStatement(st) == l.code;
      PrintedHasOperator(st, |l.segments|);
    }
  }

  lemma IncludeIsRefused(l: LogicalLine)
    requires l.code == "include x" || l.code == "export A"
    ensures JudgeStatement(l).refusals != []
  {
    WithoutOperatorRefused(l);
  }

  // --------------------------------------------------------------------- whole texts

  /** No physical line of l holds a forbidden character. */
  ghost predicate Clean(l: LogicalLine, isFormat: char -> bool) {
    forall k, i :: 0 <= k < |l.segments| && 0 <= i < |l.segments[k]| ==> !Forbidden(l.segments[k][i], isFormat)
  }

  ghost predicate IsStatement(l: LogicalLine) {
    exists st :: StatementOk(st, |l.segments|) && PrintStatement(st) == l.code
  }

  ghost predicate IsRuleLine(l: LogicalLine) {
    exists st :: StatementOk(st, |l.segments|) && PrintStatement(st) == l.code && st.Rules?
  }

  /** A line of the allowed language, where a rule is open or not. */
  ghost predicate Allowed(l: LogicalLine, inRule: bool, isFormat: char -> bool) {
    && Clean(l, isFormat) && (l.raw == "" || !OnlyBlanks(l.raw))
    && if l.tab then inRule && exists refs :: RefsOk(refs, false) && Print(refs) == l.raw
       else !l.commentWhy && !(0 <= l.commentAt < l.tail) && (KeepsRuleOpen(l) || IsStatement(l))
  }

  /** TAB, empty and comment lines keep a rule open; a rule line opens one; any other
      line closes it. */
  ghost predicate OpenAfter(l: LogicalLine, inRule: bool) {
    if l.tab || KeepsRuleOpen(l) then inRule else IsRuleLine(l)
  }

  ghost predicate AllAllowed(lines: seq<LogicalLine>, inRule: bool, isFormat: char -> bool) {
    lines == [] ||
    (Allowed(lines[0], inRule, isFormat) && AllAllowed(lines[1..], OpenAfter(lines[0], inRule), isFormat))
  }

  lemma {:induction false} CleanIff(l: LogicalLine, k: nat, isFormat: char -> bool)
    requires k <= |l.segments|
    ensures BadSegments(l, k, isFormat) == [] <==>
              forall j, i :: k <= j < |l.segments| && 0 <= i < |l.segments[j]| ==>
                !Forbidden(l.segments[j][i], isFormat)
    decreases |l.segments| - k
  {
    if k < |l.segments| { CleanIff(l, k + 1, isFormat); }
  }

  lemma RuleShapeIff(l: LogicalLine)
    requires JudgeStatement(l).refusals == []
    ensures JudgeStatement(l).inRule <==> IsRuleLine(l)
  {
    AdmittedIffStatement(l);
    var st :| StatementOk(st, |l.segments|) && PrintStatement(st) == l.code;
    PrintedIsAdmitted(st, l);
    forall other | StatementOk(other, |l.segments|) && PrintStatement(other) == l.code
      ensures other.Rules? ==> JudgeStatement(l).inRule
    {
      PrintedIsAdmitted(other, l);
    }
  }

  lemma LineIff(l: LogicalLine, inRule: bool, isFormat: char -> bool)
    ensures JudgeLine(l, inRule, isFormat).refusals == [] <==> Allowed(l, inRule, isFormat)
    ensures Allowed(l, inRule, isFormat) ==> (JudgeLine(l, inRule, isFormat).inRule <==> OpenAfter(l, inRule))
  {
    CleanIff(l, 0, isFormat);
    AcceptedIffGrammar(l.raw, false);
    AdmittedIffStatement(l);
    if JudgeStatement(l).refusals == [] { RuleShapeIff(l); }
  }

  lemma RefusalsHead(lines: seq<LogicalLine>, inRule: bool, isFormat: char -> bool)
    requires lines != []
    ensures var v := JudgeLine(lines[0], inRule, isFormat);
            RefusalsFrom(lines, inRule, isFormat) == [] <==>
              v.refusals == [] && RefusalsFrom(lines[1..], v.inRule, isFormat) == []
  {
    var vs := Judgements(lines, inRule, isFormat);
    var rest := Judgements(lines[1..], vs[0].inRule, isFormat);
    if RefusalsFrom(lines, inRule, isFormat) == [] { AcceptedHead(lines, inRule, isFormat); }
    if vs[0].refusals == [] && AllRefusals(rest) == [] {
      forall i | 0 <= i < |vs| ensures vs[i].refusals == [] {
        if i > 0 { NoRefusals(rest, i - 1); }
      }
      NoRefusalsIff(vs);
    }
  }

  lemma {:induction false} LinesIff(lines: seq<LogicalLine>, inRule: bool, isFormat: char -> bool)
    ensures RefusalsFrom(lines, inRule, isFormat) == [] <==> AllAllowed(lines, inRule, isFormat)
    decreases |lines|
  {
    if lines != [] {
      var v := JudgeLine(lines[0], inRule, isFormat);
      RefusalsHead(lines, inRule, isFormat);
      LineIff(lines[0], inRule, isFormat);
      LinesIff(lines[1..], v.inRule, isFormat);
    }
  }

  /** A text is accepted exactly when each of its logical lines is one the allowed
      language has at that place. */
  lemma AcceptedIffAllowed(text: string, isFormat: char -> bool)
    ensures Accepted(text, isFormat) <==> AllAllowed(Lines(text), false, isFormat)
  {
    LinesIff(Lines(text), false, isFormat);
  }
}
