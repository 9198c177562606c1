/** Which uses of `$` a pinned makefile may make.

    `DollarProblems` is the scanner; the grammar it is meant to accept is written
    down separately as a datatype of references with a printer, and the two are
    shown to agree in both directions. */
module DollarRefs {
  import opened Wrappers

  datatype Problem = BadDollar | Unterminated | MakeReference | Computed

  predicate IdentStart(c: char) { 'a' <= c <= 'z' || 'A' <= c <= 'Z' || c == '_' }

  predicate IdentChar(c: char) { IdentStart(c) || '0' <= c <= '9' }

  predicate IsIdent(s: string) { s != "" && IdentStart(s[0]) && forall i :: 0 <= i < |s| ==> IdentChar(s[i]) }

  /** The source's pattern ends in `$`, which also matches before a final LF. */
  predicate IdentMatches(s: string) { IsIdent(s) || (s != "" && s[|s| - 1] == '\n' && IsIdent(s[..|s| - 1])) }

  predicate IsShell(inner: string) { |inner| >= 6 && inner[..5] == "shell" && (inner[5] == ' ' || inner[5] == '\t') }

  function Closer(open: char): char { if open == '(' then ')' else '}' }

  /** How many characters until the bracket opened `depth` levels up is closed. */
  function CloseLength(s: string, open: char, depth: nat): (r: Option<nat>)
    requires depth >= 1
    ensures r.Some? ==> 1 <= r.value <= |s|
  {
    if s == "" then None
    else
      var d := if s[0] == open then depth + 1 else if s[0] == Closer(open) then depth - 1 else depth;
      if d == 0 then Some(1)
      else match CloseLength(s[1..], open, d) case None => None case Some(n) => Some(n + 1)
  }

  /** The verdict on what stands between the brackets, one level down. */
  function Judge(inner: string, open: char, allowShell: bool): seq<Problem>
    decreases allowShell, |inner|, 0
  {
    if IdentMatches(inner) then (if inner == "MAKE" then [MakeReference] else [])
    else if allowShell && open == '(' && IsShell(inner) then Dollar(inner[6..], false)
    else [Computed]
  }

  function Dollar(text: string, allowShell: bool): seq<Problem>
    decreases allowShell, |text|, 1
  {
    if text == "" then []
    else if text[0] != '$' then Dollar(text[1..], allowShell)
    else if |text| == 1 then [Unterminated]
    else if text[1] == '$' then Dollar(text[2..], allowShell)
    else if text[1] != '(' && text[1] != '{' then [BadDollar] + Dollar(text[2..], allowShell)
    else
      match CloseLength(text[2..], text[1], 1)
      case None => [Unterminated]
      case Some(n) => Judge(text[2..n + 1], text[1], allowShell) + Dollar(text[n + 2..], allowShell)
  }

  /** The depth scan of the source's inner loop. */
  method FindClose(text: string, i: nat) returns (j: nat, closed: bool)
    requires i + 1 < |text|
    ensures closed <==> CloseLength(text[i + 2..], text[i + 1], 1).Some?
    ensures closed ==> j <= |text| && j == i + 2 + CloseLength(text[i + 2..], text[i + 1], 1).value
  {
    var open := text[i + 1];
    var close := Closer(open);
    var depth := 1;
    j := i + 2;
    ghost var whole := CloseLength(text[i + 2..], open, 1);
    while j < |text| && depth > 0
      invariant i + 2 <= j <= |text| && depth >= 0
      invariant depth == 0 ==> whole == Some(j - i - 2)
      invariant depth > 0 ==>
                  match CloseLength(text[j..], open, depth)
                  case None => whole.None?
                  case Some(n) => whole == Some(n + j - i - 2)
    {
      assert text[j..][1..] == text[j + 1..];
      if text[j] == open {
        depth := depth + 1;
      } else if text[j] == close {
        depth := depth - 1;
      }
      j := j + 1;
    }
    closed := depth == 0;
  }

  // What one turn of the scan at index i adds to the problems already found.

  lemma Regroup(out: seq<Problem>, found: seq<Problem>, rest: seq<Problem>)
    ensures out + (found + rest) == out + found + rest
  {
  }

  lemma SkipStep(text: string, i: nat, allowShell: bool)
    requires i < |text| && text[i] != '$'
    ensures Dollar(text[i..], allowShell) == Dollar(text[i + 1..], allowShell)
  {
    assert text[i..][1..] == text[i + 1..];
  }

  lemma EscapeStep(text: string, i: nat, allowShell: bool)
    requires i + 1 < |text| && text[i] == '$' && text[i + 1] == '$'
    ensures Dollar(text[i..], allowShell) == Dollar(text[i + 2..], allowShell)
  {
    assert text[i..][2..] == text[i + 2..];
  }

  lemma BadStep(text: string, i: nat, allowShell: bool)
    requires i + 1 < |text| && text[i] == '$' && text[i + 1] != '$' && text[i + 1] != '(' && text[i + 1] != '{'
    ensures Dollar(text[i..], allowShell) == [BadDollar] + Dollar(text[i + 2..], allowShell)
  {
    assert text[i..][2..] == text[i + 2..];
  }

  lemma OpenStep(text: string, i: nat, allowShell: bool)
    requires i < |text| && text[i] == '$'
    requires i + 1 == |text|
             || ((text[i + 1] == '(' || text[i + 1] == '{') && CloseLength(text[i + 2..], text[i + 1], 1).None?)
    ensures Dollar(text[i..], allowShell) == [Unterminated]
  {
    if i + 1 < |text| { assert text[i..][2..] == text[i + 2..]; }
  }

  lemma Expansion(rest: string, n: nat, allowShell: bool)
    requires |rest| >= 2 && rest[0] == '$' && (rest[1] == '(' || rest[1] == '{')
    requires CloseLength(rest[2..], rest[1], 1) == Some(n) && 1 <= n <= |rest| - 2
    ensures Dollar(rest, allowShell) == Judge(rest[2..n + 1], rest[1], allowShell) + Dollar(rest[n + 2..], allowShell)
  {
  }

  lemma ExpansionStep(text: string, i: nat, j: nat, allowShell: bool)
    requires i + 1 < |text| && text[i] == '$' && (text[i + 1] == '(' || text[i + 1] == '{')
    requires CloseLength(text[i + 2..], text[i + 1], 1).Some?
    requires i + 2 < j <= |text| && j == i + 2 + CloseLength(text[i + 2..], text[i + 1], 1).value
    ensures Dollar(text[i..], allowShell)
            == Judge(text[i + 2..j - 1], text[i + 1], allowShell) + Dollar(text[j..], allowShell)
  {
    var rest := text[i..];
    assert rest[2..] == text[i + 2..] && rest[2..j - 1 - i] == text[i + 2..j - 1] && rest[j - i..] == text[j..];
    Expansion(rest, j - i - 2, allowShell);
  }

  /** The verdict on one bracketed piece. */
  method JudgeInner(inner: string, open: char, allowShell: bool) returns (found: seq<Problem>)
    ensures found == Judge(inner, open, allowShell)
    decreases allowShell, 0
  {
    if IdentMatches(inner) {
      found := if inner == "MAKE" then [MakeReference] else [];
    } else if allowShell && open == '(' && IsShell(inner) {
      found := DollarProblems(inner[6..], false);
    } else {
      found := [Computed];
    }
  }

  /** _dollar_problems. */
  method DollarProblems(text: string, allowShell: bool) returns (out: seq<Problem>)
    ensures out == Dollar(text, allowShell)
    decreases allowShell, 1
  {
    out := [];
    var i := 0;
    assert text[0..] == text;
    while i < |text|
      invariant 0 <= i <= |text|
      invariant Dollar(text, allowShell) == out + Dollar(text[i..], allowShell)
    {
      if text[i] != '$' {
        SkipStep(text, i, allowShell);
        i := i + 1;
      } else if i + 1 == |text| {
        OpenStep(text, i, allowShell);
        out := out + [Unterminated];
        return;
      } else if text[i + 1] == '$' {
        EscapeStep(text, i, allowShell);
        i := i + 2;
      } else if text[i + 1] != '(' && text[i + 1] != '{' {
        BadStep(text, i, allowShell);
        Regroup(out, [BadDollar], Dollar(text[i + 2..], allowShell));
        out := out + [BadDollar];
        i := i + 2;
      } else {
        var j, closed := FindClose(text, i);
        if !closed {
          OpenStep(text, i, allowShell);
          out := out + [Unterminated];
          return;
        }
        var found := JudgeInner(text[i + 2..j - 1], text[i + 1], allowShell);
        ExpansionStep(text, i, j, allowShell);
        Regroup(out, found, Dollar(text[j..], allowShell));
        out := out + found;
        i := j;
      }
    }
  }

  // ----------------------------------------------------- the declared grammar

  datatype Atom = Plain(c: char) | Escaped | Name(paren: bool, name: string)

  datatype Ref = Simple(atom: Atom) | Shell(blank: char, body: seq<Atom>)

  function PrintAtom(a: Atom): string {
    match a
    case Plain(c) => [c]
    case Escaped => "$$"
    case Name(paren, name) => if paren then "$(" + name + ")" else "${" + name + "}"
  }

  function PrintAtoms(atoms: seq<Atom>): string {
    if atoms == [] then "" else PrintAtom(atoms[0]) + PrintAtoms(atoms[1..])
  }

  function PrintRef(r: Ref): string {
    match r
    case Simple(a) => PrintAtom(a)
    case Shell(blank, body) => "$(" + ShellInner(blank, body) + ")"
  }

  function ShellInner(blank: char, body: seq<Atom>): string { "shell" + [blank] + PrintAtoms(body) }

  function Print(refs: seq<Ref>): string {
    if refs == [] then "" else PrintRef(refs[0]) + Print(refs[1..])
  }

  predicate AtomOk(a: Atom) {
    match a
    case Plain(c) => c != '$'
    case Escaped => true
    case Name(_, name) => IdentMatches(name) && name != "MAKE"
  }

  predicate AtomsOk(atoms: seq<Atom>) { forall i :: 0 <= i < |atoms| ==> AtomOk(atoms[i]) }

  /** Every bracket of this kind in s is closed inside s. */
  predicate Balanced(s: string, open: char, depth: nat) {
    if s == "" then depth == 1
    else
      var d := if s[0] == open then depth + 1 else if s[0] == Closer(open) then depth - 1 else depth;
      d >= 1 && Balanced(s[1..], open, d)
  }

  predicate RefOk(r: Ref, allowShell: bool) {
    match r
    case Simple(a) => AtomOk(a)
    case Shell(blank, body) =>
      && allowShell && (blank == ' ' || blank == '\t')
      && AtomsOk(body) && Balanced(PrintAtoms(body), '(', 1)
  }

  predicate RefsOk(refs: seq<Ref>, allowShell: bool) { forall i :: 0 <= i < |refs| ==> RefOk(refs[i], allowShell) }

  // ------------------------------------------------------ printing is accepted

  lemma {:induction false} BalancedCloses(s: string, rest: string, open: char, depth: nat)
    requires depth >= 1 && Balanced(s, open, depth) && (open == '(' || open == '{')
    ensures CloseLength(s + [Closer(open)] + rest, open, depth) == Some(|s| + 1)
  {
    var whole := s + [Closer(open)] + rest;
    if s == "" {
      assert whole[0] == Closer(open);
    } else {
      var d := if s[0] == open then depth + 1 else if s[0] == Closer(open) then depth - 1 else depth;
      assert whole[1..] == s[1..] + [Closer(open)] + rest;
      BalancedCloses(s[1..], rest, open, d);
    }
  }

  lemma {:induction false} NoBracketsBalanced(s: string, open: char)
    requires forall i :: 0 <= i < |s| ==> s[i] != open && s[i] != Closer(open)
    ensures Balanced(s, open, 1)
  {
    if s != "" { NoBracketsBalanced(s[1..], open); }
  }

  lemma NamesAreBalanced(name: string, open: char)
    requires IdentMatches(name) && (open == '(' || open == '{')
    ensures Balanced(name, open, 1)
  {
    forall i | 0 <= i < |name| ensures name[i] != open && name[i] != Closer(open) {
      if IsIdent(name) { assert IdentChar(name[i]); }
      else if i < |name| - 1 { assert IdentChar(name[..|name| - 1][i]); }
    }
    NoBracketsBalanced(name, open);
  }

  /** An expansion whose inside is judged clean is skipped whole. */
  lemma ExpansionSkipped(open: char, inner: string, rest: string, allowShell: bool)
    requires open == '(' || open == '{'
    requires Balanced(inner, open, 1)
    ensures Dollar("$" + [open] + inner + [Closer(open)] + rest, allowShell)
            == Judge(inner, open, allowShell) + Dollar(rest, allowShell)
  {
    var whole := "$" + [open] + inner + [Closer(open)] + rest;
    assert whole[2..] == inner + [Closer(open)] + rest;
    BalancedCloses(inner, rest, open, 1);
    assert whole[2..|inner| + 2] == inner;
    assert whole[|inner| + 3..] == rest;
  }

  lemma NamePrinted(paren: bool, name: string, rest: string)
    ensures var open := if paren then '(' else '{';
            PrintAtom(Name(paren, name)) + rest == "$" + [open] + name + [Closer(open)] + rest
  {
  }

  lemma AtomAccepted(a: Atom, rest: string, allowShell: bool)
    requires AtomOk(a)
    ensures Dollar(PrintAtom(a) + rest, allowShell) == Dollar(rest, allowShell)
  {
    var whole := PrintAtom(a) + rest;
    match a
    case Plain(c) => assert whole[1..] == rest;
    case Escaped => assert whole[2..] == rest;
    case Name(paren, name) =>
      var open := if paren then '(' else '{';
      NamePrinted(paren, name, rest);
      NamesAreBalanced(name, open);
      ExpansionSkipped(open, name, rest, allowShell);
  }

  lemma {:induction false} AtomsAccepted(atoms: seq<Atom>, allowShell: bool)
    requires AtomsOk(atoms)
    ensures Dollar(PrintAtoms(atoms), allowShell) == []
  {
    if atoms != [] {
      AtomAccepted(atoms[0], PrintAtoms(atoms[1..]), allowShell);
      AtomsAccepted(atoms[1..], allowShell);
    }
  }

  lemma ShellInnerFacts(blank: char, body: seq<Atom>)
    requires blank == ' ' || blank == '\t'
    ensures var inner := ShellInner(blank, body);
            IsShell(inner) && inner[6..] == PrintAtoms(body) && !IdentMatches(inner)
  {
    var inner := ShellInner(blank, body);
    assert inner[5] == blank && !IdentChar(blank);
    if |inner| > 6 { assert inner[..|inner| - 1][5] == blank; }
  }

  lemma {:induction false} ShellBalanced(prefix: string, body: string)
    requires forall i :: 0 <= i < |prefix| ==> prefix[i] != '(' && prefix[i] != ')'
    requires Balanced(body, '(', 1)
    ensures Balanced(prefix + body, '(', 1)
  {
    if prefix == "" { assert prefix + body == body; }
    else {
      assert (prefix + body)[1..] == prefix[1..] + body;
      ShellBalanced(prefix[1..], body);
    }
  }

  lemma RefAccepted(r: Ref, rest: string, allowShell: bool)
    requires RefOk(r, allowShell)
    ensures Dollar(PrintRef(r) + rest, allowShell) == Dollar(rest, allowShell)
  {
    match r
    case Simple(a) => AtomAccepted(a, rest, allowShell);
    case Shell(blank, body) =>
      var inner := ShellInner(blank, body);
      ShellInnerFacts(blank, body);
      ShellBalanced("shell" + [blank], PrintAtoms(body));
      assert PrintRef(r) + rest == "$" + ['('] + inner + [')'] + rest;
      ExpansionSkipped('(', inner, rest, allowShell);
      AtomsAccepted(body, false);
  }

  /** Whatever references are printed, the scanner accepts the text. */
  lemma {:induction false} PrintedIsAccepted(refs: seq<Ref>, allowShell: bool)
    requires RefsOk(refs, allowShell)
    ensures Dollar(Print(refs), allowShell) == []
  {
    if refs != [] {
      RefAccepted(refs[0], Print(refs[1..]), allowShell);
      PrintedIsAccepted(refs[1..], allowShell);
    }
  }

  // ---------------------------------------------------- accepted text parses back

  lemma {:induction false} ClosesBalanced(s: string, open: char, depth: nat)
    requires depth >= 1 && CloseLength(s, open, depth).Some?
    ensures var n := CloseLength(s, open, depth).value;
            s[n - 1] == Closer(open) && Balanced(s[..n - 1], open, depth)
  {
    var d := if s[0] == open then depth + 1 else if s[0] == Closer(open) then depth - 1 else depth;
    if d > 0 {
      ClosesBalanced(s[1..], open, d);
      var n := CloseLength(s, open, depth).value;
      assert s[..n - 1][1..] == s[1..][..n - 2];
    }
  }

  lemma ExpansionText(text: string, n: nat)
    requires |text| >= 2 && text[0] == '$' && (text[1] == '(' || text[1] == '{')
    requires CloseLength(text[2..], text[1], 1) == Some(n)
    ensures text == "$" + [text[1]] + text[2..n + 1] + [Closer(text[1])] + text[n + 2..]
    ensures Balanced(text[2..n + 1], text[1], 1)
  {
    ClosesBalanced(text[2..], text[1], 1);
    assert text[2..][..n - 1] == text[2..n + 1];
    assert text[2..][n - 1] == text[n + 1];
  }

  lemma ConsAtoms(a: Atom, rest: seq<Atom>)
    ensures PrintAtoms([a] + rest) == PrintAtom(a) + PrintAtoms(rest)
    ensures AtomOk(a) && AtomsOk(rest) ==> AtomsOk([a] + rest)
  {
    assert ([a] + rest)[1..] == rest;
  }

  /** The text starts with a `$(...)` whose inside is not a name. */
  predicate ShellAt(text: string) {
    && |text| >= 2 && text[0] == '$' && (text[1] == '(' || text[1] == '{')
    && CloseLength(text[2..], text[1], 1).Some?
    && !IdentMatches(text[2..CloseLength(text[2..], text[1], 1).value + 1])
  }

  lemma FirstAtom(text: string, allowShell: bool) returns (a: Atom, rest: string)
    requires text != "" && Dollar(text, allowShell) == [] && !ShellAt(text)
    ensures AtomOk(a) && text == PrintAtom(a) + rest && Dollar(rest, allowShell) == []
    ensures |rest| < |text|
  {
    if text[0] != '$' {
      a, rest := Plain(text[0]), text[1..];
    } else if text[1] == '$' {
      a, rest := Escaped, text[2..];
    } else {
      var n := CloseLength(text[2..], text[1], 1).value;
      ExpansionText(text, n);
      a, rest := Name(text[1] == '(', text[2..n + 1]), text[n + 2..];
    }
  }

  lemma NoShellWhenForbidden(text: string)
    requires Dollar(text, false) == []
    ensures !ShellAt(text)
  {
  }

  lemma {:induction false} ParseAtoms(text: string) returns (atoms: seq<Atom>)
    requires Dollar(text, false) == []
    ensures AtomsOk(atoms) && PrintAtoms(atoms) == text
    decreases |text|
  {
    if text == "" { return []; }
    NoShellWhenForbidden(text);
    var a, rest := FirstAtom(text, false);
    var more := ParseAtoms(rest);
    ConsAtoms(a, more);
    atoms := [a] + more;
  }

  lemma ConsRef(r: Ref, rest: seq<Ref>, allowShell: bool)
    ensures Print([r] + rest) == PrintRef(r) + Print(rest)
    ensures RefOk(r, allowShell) && RefsOk(rest, allowShell) ==> RefsOk([r] + rest, allowShell)
  {
    assert ([r] + rest)[1..] == rest;
  }

  lemma {:induction false} BodyBalanced(prefix: string, body: string)
    requires forall i :: 0 <= i < |prefix| ==> prefix[i] != '(' && prefix[i] != ')'
    requires Balanced(prefix + body, '(', 1)
    ensures Balanced(body, '(', 1)
  {
    if prefix == "" { assert prefix + body == body; }
    else {
      assert (prefix + body)[1..] == prefix[1..] + body;
      BodyBalanced(prefix[1..], body);
    }
  }

  /** What Dollar says of a text that starts with a shell expansion. */
  lemma ShellJudged(text: string, allowShell: bool) returns (inner: string, rest: string)
    requires Dollar(text, allowShell) == [] && ShellAt(text)
    ensures allowShell && IsShell(inner) && Dollar(inner[6..], false) == [] && Balanced(inner, '(', 1)
    ensures text == "$" + "(" + inner + ")" + rest && Dollar(rest, allowShell) == []
  {
    var n := CloseLength(text[2..], text[1], 1).value;
    inner, rest := text[2..n + 1], text[n + 2..];
    ExpansionText(text, n);
  }

  lemma ShellPrinted(inner: string, body: seq<Atom>, rest: string)
    requires IsShell(inner) && PrintAtoms(body) == inner[6..]
    ensures PrintRef(Shell(inner[5], body)) + rest == "$" + "(" + inner + ")" + rest
  {
    assert inner == "shell" + [inner[5]] + inner[6..];
    assert "$" + "(" == "$(";
  }

  lemma FirstShell(text: string, allowShell: bool) returns (r: Ref, rest: string)
    requires Dollar(text, allowShell) == [] && ShellAt(text)
    ensures RefOk(r, allowShell) && text == PrintRef(r) + rest && Dollar(rest, allowShell) == []
    ensures |rest| < |text|
  {
    var inner;
    inner, rest := ShellJudged(text, allowShell);
    var body := ParseAtoms(inner[6..]);
    ShellBodyBalanced(inner);
    ShellPrinted(inner, body, rest);
    r := Shell(inner[5], body);
  }

  lemma ShellBodyBalanced(inner: string)
    requires IsShell(inner) && Balanced(inner, '(', 1)
    ensures Balanced(inner[6..], '(', 1)
  {
    assert inner == "shell" + [inner[5]] + inner[6..];
    BodyBalanced("shell" + [inner[5]], inner[6..]);
  }

  /** Accepted text is the printing of references that can be read off it. */
  lemma {:induction false} Parse(text: string, allowShell: bool) returns (refs: seq<Ref>)
    requires Dollar(text, allowShell) == []
    ensures RefsOk(refs, allowShell) && Print(refs) == text
    decreases |text|
  {
    if text == "" { return []; }
    var r, rest;
    if ShellAt(text) {
      r, rest := FirstShell(text, allowShell);
    } else {
      var a;
      a, rest := FirstAtom(text, allowShell);
      r := Simple(a);
    }
    var more := Parse(rest, allowShell);
    ConsRef(r, more, allowShell);
    refs := [r] + more;
  }

  /** The scanner accepts exactly the printed references. */
  lemma AcceptedIffGrammar(text: string, allowShell: bool)
    ensures Dollar(text, allowShell) == [] <==> exists refs :: RefsOk(refs, allowShell) && Print(refs) == text
  {
    if Dollar(text, allowShell) == [] { var refs := Parse(text, allowShell); }
    forall refs | RefsOk(refs, allowShell) && Print(refs) == text ensures Dollar(text, allowShell) == [] {
      PrintedIsAccepted(refs, allowShell);
    }
  }

  // --------------------------------------------------- with and without LF

  predicate PlainAtom(a: Atom) { a.Name? ==> IsIdent(a.name) }

  predicate PlainRef(r: Ref) {
    match r
    case Simple(a) => PlainAtom(a)
    case Shell(_, body) => forall i :: 0 <= i < |body| ==> PlainAtom(body[i])
  }

  lemma NamePlainWithoutLF(a: Atom)
    requires AtomOk(a) && '\n' !in PrintAtom(a)
    ensures PlainAtom(a)
  {
    if a.Name? {
      var i := |a.name| - 1;
      assert PrintAtom(a)[i + 2] == a.name[i];
    }
  }

  lemma {:induction false} AtomsPlainWithoutLF(atoms: seq<Atom>, i: nat)
    requires AtomsOk(atoms) && '\n' !in PrintAtoms(atoms) && i < |atoms|
    ensures PlainAtom(atoms[i])
  {
    if i == 0 { NamePlainWithoutLF(atoms[0]); } else { AtomsPlainWithoutLF(atoms[1..], i - 1); }
  }

  lemma RefPlainWithoutLF(r: Ref, allowShell: bool)
    requires RefOk(r, allowShell) && '\n' !in PrintRef(r)
    ensures PlainRef(r)
  {
    match r
    case Simple(a) => NamePlainWithoutLF(a);
    case Shell(blank, body) =>
      forall i | 0 <= i < |body| ensures PlainAtom(body[i]) { AtomsPlainWithoutLF(body, i); }
  }

  lemma {:induction false} RefsPlainWithoutLF(refs: seq<Ref>, allowShell: bool, i: nat)
    requires RefsOk(refs, allowShell) && '\n' !in Print(refs) && i < |refs|
    ensures PlainRef(refs[i])
  {
    if i == 0 { RefPlainWithoutLF(refs[0], allowShell); } else { RefsPlainWithoutLF(refs[1..], allowShell, i - 1); }
  }

  predicate Declared(refs: seq<Ref>, allowShell: bool) {
    RefsOk(refs, allowShell) && forall i :: 0 <= i < |refs| ==> PlainRef(refs[i])
  }

  /** On a logical line, which holds no LF, the scanner accepts exactly the
      grammar the source declares, with plain identifiers for names. */
  lemma AcceptedIffDeclared(text: string, allowShell: bool)
    requires '\n' !in text
    ensures Dollar(text, allowShell) == [] <==> exists refs :: Declared(refs, allowShell) && Print(refs) == text
  {
    AcceptedIffGrammar(text, allowShell);
    if Dollar(text, allowShell) == [] {
      var refs := Parse(text, allowShell);
      forall i | 0 <= i < |refs| ensures PlainRef(refs[i]) { RefsPlainWithoutLF(refs, allowShell, i); }
      assert Declared(refs, allowShell);
    }
  }

  /** Off a logical line the pattern's `$` lets one LF in: $(MAKE) is refused,
      the same reference with an LF before the bracket is not. */
  lemma TrailingLFEscapesTheMakeBan()
    ensures Dollar("$(MAKE)", false) == [MakeReference]
    ensures Dollar("$(MAKE\n)", false) == []
  {
    NamesAreBalanced("MAKE", '(');
    ExpansionSkipped('(', "MAKE", "", false);
    assert "$" + ['('] + "MAKE" + [')'] + "" == "$(MAKE)";
    MakeWithLF("MAKE\n");
  }

  lemma MakeWithLF(name: string)
    requires name == "MAKE\n"
    ensures Dollar("$(MAKE\n)", false) == []
  {
    assert name[..4] == "MAKE" && IsIdent("MAKE");
    AtomAccepted(Name(true, name), "", false);
    assert PrintAtom(Name(true, name)) + "" == "$(MAKE\n)";
  }
}
