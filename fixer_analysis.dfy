/** The line checks of the code fixer (core/fixer.py): the line part of the
    Python analyzer, the JavaScript analyzer and the checks common to every
    language. Each analyzer splits the content on '\n' and reports, for line
    `i` (counted from 1), the issues its line check finds in that line. */
module FixerAnalysis {
  import opened Text

  /** One reported issue: its `type`, `line` and `severity` fields. */
  datatype Issue = Issue(kind: string, line: int, severity: string)

  /** Python: a line longer than 100 characters. */
  predicate IsLongLine(line: string)
  {
    |line| > 100
  }

  predicate AllSpace(s: string)
  {
    forall i :: 0 <= i < |s| ==> IsSpace(s[i])
  }

  /** `re.search(r'[^;{}]\s*$', s)`: some character other than `;`, `{`
      and `}` is followed by nothing but white space. */
  predicate EndsInOpenStatement(s: string)
  {
    exists k :: 0 <= k < |s| && s[k] !in ";{}" && AllSpace(s[k + 1..])
  }

  /** The JavaScript statement keywords, each followed by a space. */
  predicate HasStatementKeyword(line: string)
  {
    Contains(line, "var ") || Contains(line, "let ") || Contains(line, "const ")
    || Contains(line, "return ") || Contains(line, "throw ")
  }

  /** `'var ' in line` */
  predicate HasVar(line: string)
  {
    Contains(line, "var ")
  }

  /** JavaScript: the `missing_semicolon` condition, checked on the stripped
      line for the ending and on the whole line for the keywords. */
  predicate MissingSemicolon(line: string)
  {
    var t := Strip(line);
    EndsInOpenStatement(t) && t != [] && !StartsWith(t, "//") && HasStatementKeyword(line)
  }

  /** `'TODO' in line.upper()` */
  predicate HasTodo(line: string)
  {
    Contains(Upper(line), "TODO")
  }

  /** `'FIXME' in line.upper()` */
  predicate HasFixme(line: string)
  {
    Contains(Upper(line), "FIXME")
  }

  predicate IsQuote(c: char)
  {
    c == '"' || c == '\''
  }

  /** `["'][^"']+["']` at the start of `s`. */
  predicate QuotedValue(s: string)
  {
    |s| >= 2 && IsQuote(s[0]) && !IsQuote(s[1]) && ('"' in s[2..] || '\'' in s[2..])
  }

  /** `\s*=\s*["'][^"']+["']` at the start of `s`. */
  predicate AssignedQuoted(s: string)
  {
    var a := LStrip(s);
    |a| > 0 && a[0] == '=' && QuotedValue(LStrip(a[1..]))
  }

  /** `(password|key|secret|token)\s*=\s*["'][^"']+["']` at the start of the
      lower-cased `s`. */
  predicate SecretAt(s: string)
  {
    || (StartsWith(s, "password") && AssignedQuoted(s[8..]))
    || (StartsWith(s, "key") && AssignedQuoted(s[3..]))
    || (StartsWith(s, "secret") && AssignedQuoted(s[6..]))
    || (StartsWith(s, "token") && AssignedQuoted(s[5..]))
  }

  /** The pattern matches at some position of `s`. */
  predicate SecretSomewhere(s: string)
    decreases |s|
  {
    SecretAt(s) || (|s| > 0 && SecretSomewhere(s[1..]))
  }

  /** `re.search(..., line, re.IGNORECASE)` for the hard-coded secret pattern. */
  predicate HasHardcodedSecret(line: string)
  {
    SecretSomewhere(Lower(line))
  }

  /** The line checks of `_analyze_python` for line `i`. */
  function PythonLineIssues(line: string, i: int): seq<Issue>
  {
    (if IsLongLine(line) then [Issue("long_line", i, "warning")] else [])
    + (if EndsWithSpaceOrTab(line) then [Issue("trailing_whitespace", i, "info")] else [])
  }

  /** The line checks of `_analyze_javascript` for line `i`. */
  function JavascriptLineIssues(line: string, i: int): seq<Issue>
  {
    (if MissingSemicolon(line) then [Issue("missing_semicolon", i, "warning")] else [])
    + (if HasVar(line) then [Issue("use_var", i, "warning")] else [])
  }

  /** The line checks of `_analyze_common_issues` for line `i`. */
  function CommonLineIssues(line: string, i: int): seq<Issue>
  {
    (if HasTodo(line) then [Issue("todo_comment", i, "info")] else [])
    + (if HasFixme(line) then [Issue("fixme_comment", i, "warning")] else [])
    + (if HasHardcodedSecret(line) then [Issue("hardcoded_secret", i, "error")] else [])
  }

  /** What a scan of `lines` with the line check `check` reports: line by
      line, in order, numbering from 1. */
  function Scanned(lines: seq<string>, check: (string, int) -> seq<Issue>): seq<Issue>
    decreases |lines|
  {
    if |lines| == 0 then []
    else Scanned(lines[..|lines| - 1], check) + check(lines[|lines| - 1], |lines|)
  }

  /** `for i, line in enumerate(lines, 1): issues.append(...)` */
  method ScanLines(lines: seq<string>, check: (string, int) -> seq<Issue>) returns (issues: seq<Issue>)
    ensures issues == Scanned(lines, check)
  {
    issues := [];
    var i := 0;
    while i < |lines|
      invariant 0 <= i <= |lines|
      invariant issues == Scanned(lines[..i], check)
    {
      assert lines[..i + 1][..i] == lines[..i];
      issues := issues + check(lines[i], i + 1);
      i := i + 1;
    }
    assert lines[..|lines|] == lines;
  }

  /** `_analyze_python`, its line checks; what `ast.parse` reports is given. */
  method AnalyzePython(content: string, astIssues: seq<Issue>) returns (issues: seq<Issue>)
    ensures issues == astIssues + Scanned(Split(content), PythonLineIssues)
  {
    var lineIssues := ScanLines(Split(content), PythonLineIssues);
    issues := astIssues + lineIssues;
  }

  /** `_analyze_javascript` */
  method AnalyzeJavascript(content: string) returns (issues: seq<Issue>)
    ensures issues == Scanned(Split(content), JavascriptLineIssues)
  {
    issues := ScanLines(Split(content), JavascriptLineIssues);
  }

  /** `_analyze_common_issues` */
  method AnalyzeCommonIssues(content: string) returns (issues: seq<Issue>)
    ensures issues == Scanned(Split(content), CommonLineIssues)
  {
    issues := ScanLines(Split(content), CommonLineIssues);
  }

  /** What `_analyze_file` reports for a file of `language`. */
  function FileIssues(content: string, language: string, astIssues: seq<Issue>): seq<Issue>
  {
    var lines := Split(content);
    (if language == "python" then astIssues + Scanned(lines, PythonLineIssues)
     else if language == "javascript" || language == "typescript" then Scanned(lines, JavascriptLineIssues)
     else [])
    + Scanned(lines, CommonLineIssues)
  }

  /** `_analyze_file` */
  method AnalyzeFile(content: string, language: string, astIssues: seq<Issue>) returns (issues: seq<Issue>)
    ensures issues == FileIssues(content, language, astIssues)
  {
    issues := [];
    if language == "python" {
      issues := AnalyzePython(content, astIssues);
    } else if language == "javascript" || language == "typescript" {
      issues := AnalyzeJavascript(content);
    }
    var common := AnalyzeCommonIssues(content);
    issues := issues + common;
  }

  // ----- what the scans report -----

  /** A check that reports, for line `i`, only issues on line `i`. */
  ghost predicate Numbered(check: (string, int) -> seq<Issue>)
  {
    forall line, i, x :: x in check(line, i) ==> x.line == i
  }

  lemma ChecksNumbered()
    ensures Numbered(PythonLineIssues)
    ensures Numbered(JavascriptLineIssues)
    ensures Numbered(CommonLineIssues)
  {
    PythonNumbered();
    JavascriptNumbered();
    CommonNumbered();
  }

  lemma PythonNumbered()
    ensures Numbered(PythonLineIssues)
  {
  }

  lemma JavascriptNumbered()
    ensures Numbered(JavascriptLineIssues)
  {
  }

  lemma CommonNumbered()
    ensures Numbered(CommonLineIssues)
  {
  }

  /** An issue is reported exactly when the check fires on the line it names,
      and that line lies in 1..number of lines. */
  lemma {:induction false} ScannedIssue(lines: seq<string>, check: (string, int) -> seq<Issue>, x: Issue)
    requires Numbered(check)
    ensures x in Scanned(lines, check) <==>
              1 <= x.line <= |lines| && x in check(lines[x.line - 1], x.line)
    decreases |lines|
  {
    if |lines| > 0 {
      var n := |lines|;
      var front := lines[..n - 1];
      ScannedIssue(front, check, x);
      if 1 <= x.line < n {
        assert front[x.line - 1] == lines[x.line - 1];
      }
    }
  }

  /** A rule whose issue is reported for a line exactly when `fires` holds of
      it is reported by the scan for line `j` exactly when `fires` holds of
      line `j`. */
  lemma ScannedRule(lines: seq<string>, check: (string, int) -> seq<Issue>, kind: string, severity: string,
                    fires: string -> bool, j: int)
    requires Numbered(check) && 1 <= j <= |lines|
    requires forall line, i :: (Issue(kind, i, severity) in check(line, i)) == fires(line)
    ensures (Issue(kind, j, severity) in Scanned(lines, check)) == fires(lines[j - 1])
  {
    ScannedIssue(lines, check, Issue(kind, j, severity));
  }

  /** Every reported issue names a line of the content. */
  lemma ReportedLinesValid(content: string, language: string, astIssues: seq<Issue>)
    requires forall x :: x in astIssues ==> 1 <= x.line <= |Split(content)|
    ensures forall x :: x in FileIssues(content, language, astIssues) ==>
              1 <= x.line <= |Split(content)|
  {
    ChecksNumbered();
    var lines := Split(content);
    forall x | x in FileIssues(content, language, astIssues) ensures 1 <= x.line <= |lines| {
      ScannedIssue(lines, PythonLineIssues, x);
      ScannedIssue(lines, JavascriptLineIssues, x);
      ScannedIssue(lines, CommonLineIssues, x);
    }
  }

  /** Python: `long_line` iff longer than 100, `trailing_whitespace` iff the
      line ends in a space or a tab. */
  lemma PythonLineRules(lines: seq<string>, j: int)
    requires 1 <= j <= |lines|
    ensures (Issue("long_line", j, "warning") in Scanned(lines, PythonLineIssues))
              <==> |lines[j - 1]| > 100
    ensures (Issue("trailing_whitespace", j, "info") in Scanned(lines, PythonLineIssues))
              <==> EndsWithSpaceOrTab(lines[j - 1])
  {
    PythonNumbered();
    forall line, i ensures (Issue("long_line", i, "warning") in PythonLineIssues(line, i)) == IsLongLine(line)
      && (Issue("trailing_whitespace", i, "info") in PythonLineIssues(line, i)) == EndsWithSpaceOrTab(line)
    {
      PythonIssuesOfLine(line, i);
    }
    ScannedRule(lines, PythonLineIssues, "long_line", "warning", IsLongLine, j);
    ScannedRule(lines, PythonLineIssues, "trailing_whitespace", "info", EndsWithSpaceOrTab, j);
  }

  lemma PythonIssuesOfLine(line: string, i: int)
    ensures (Issue("long_line", i, "warning") in PythonLineIssues(line, i)) == IsLongLine(line)
    ensures (Issue("trailing_whitespace", i, "info") in PythonLineIssues(line, i))
              == EndsWithSpaceOrTab(line)
  {
    var l := Issue("long_line", i, "warning");
    var t := Issue("trailing_whitespace", i, "info");
    var first: seq<Issue> := if IsLongLine(line) then [l] else [];
    var second: seq<Issue> := if EndsWithSpaceOrTab(line) then [t] else [];
    assert PythonLineIssues(line, i) == first + second;
    assert l !in second && t !in first;
  }

  /** JavaScript: `missing_semicolon` iff the semicolon condition holds,
      `use_var` iff the line has `var `. */
  lemma JavascriptLineRules(lines: seq<string>, j: int)
    requires 1 <= j <= |lines|
    ensures (Issue("missing_semicolon", j, "warning") in Scanned(lines, JavascriptLineIssues))
              <==> MissingSemicolon(lines[j - 1])
    ensures (Issue("use_var", j, "warning") in Scanned(lines, JavascriptLineIssues))
              <==> HasVar(lines[j - 1])
  {
    JavascriptNumbered();
    forall line, i ensures (Issue("missing_semicolon", i, "warning") in JavascriptLineIssues(line, i)) == MissingSemicolon(line)
      && (Issue("use_var", i, "warning") in JavascriptLineIssues(line, i)) == HasVar(line)
    {
      JavascriptIssuesOfLine(line, i);
    }
    ScannedRule(lines, JavascriptLineIssues, "missing_semicolon", "warning", MissingSemicolon, j);
    ScannedRule(lines, JavascriptLineIssues, "use_var", "warning", HasVar, j);
  }

  lemma JavascriptIssuesOfLine(line: string, i: int)
    ensures (Issue("missing_semicolon", i, "warning") in JavascriptLineIssues(line, i))
              == MissingSemicolon(line)
    ensures (Issue("use_var", i, "warning") in JavascriptLineIssues(line, i))
              == HasVar(line)
  {
    var m := Issue("missing_semicolon", i, "warning");
    var u := Issue("use_var", i, "warning");
    var first: seq<Issue> := if MissingSemicolon(line) then [m] else [];
    var second: seq<Issue> := if HasVar(line) then [u] else [];
    assert JavascriptLineIssues(line, i) == first + second;
    assert m !in second && u !in first;
  }

  /** Common: TODO, FIXME and hard-coded secret each reported iff found. */
  lemma CommonLineRules(lines: seq<string>, j: int)
    requires 1 <= j <= |lines|
    ensures (Issue("todo_comment", j, "info") in Scanned(lines, CommonLineIssues))
              <==> HasTodo(lines[j - 1])
    ensures (Issue("fixme_comment", j, "warning") in Scanned(lines, CommonLineIssues))
              <==> HasFixme(lines[j - 1])
    ensures (Issue("hardcoded_secret", j, "error") in Scanned(lines, CommonLineIssues))
              <==> HasHardcodedSecret(lines[j - 1])
  {
    CommonNumbered();
    forall line, i ensures (Issue("todo_comment", i, "info") in CommonLineIssues(line, i)) == HasTodo(line)
      && (Issue("fixme_comment", i, "warning") in CommonLineIssues(line, i)) == HasFixme(line)
      && (Issue("hardcoded_secret", i, "error") in CommonLineIssues(line, i)) == HasHardcodedSecret(line)
    {
      CommonIssuesOfLine(line, i);
    }
    ScannedRule(lines, CommonLineIssues, "todo_comment", "info", HasTodo, j);
    ScannedRule(lines, CommonLineIssues, "fixme_comment", "warning", HasFixme, j);
    ScannedRule(lines, CommonLineIssues, "hardcoded_secret", "error", HasHardcodedSecret, j);
  }

  lemma CommonIssuesOfLine(line: string, i: int)
    ensures (Issue("todo_comment", i, "info") in CommonLineIssues(line, i)) == HasTodo(line)
    ensures (Issue("fixme_comment", i, "warning") in CommonLineIssues(line, i)) == HasFixme(line)
    ensures (Issue("hardcoded_secret", i, "error") in CommonLineIssues(line, i)) == HasHardcodedSecret(line)
  {
    var t := Issue("todo_comment", i, "info");
    var f := Issue("fixme_comment", i, "warning");
    var h := Issue("hardcoded_secret", i, "error");
    var first: seq<Issue> := if HasTodo(line) then [t] else [];
    var second: seq<Issue> := if HasFixme(line) then [f] else [];
    var third: seq<Issue> := if HasHardcodedSecret(line) then [h] else [];
    assert CommonLineIssues(line, i) == first + second + third;
    assert f !in first && h !in first && t !in second && h !in second && t !in third && f !in third;
  }

  /** The semicolon rule in plain terms: the stripped line is non-empty, is
      not a `//` comment, does not end in `;`, `{` or `}`, and the line has
      one of the statement keywords. */
  lemma MissingSemicolonMeaning(line: string)
    ensures MissingSemicolon(line) <==>
              var t := Strip(line);
              && t != []
              && !StartsWith(t, "//")
              && t[|t| - 1] !in ";{}"
              && HasStatementKeyword(line)
  {
    var t := Strip(line);
    if t != [] {
      OpenStatementAtEnd(t);
    }
  }

  /** On a string that ends in a non-space, the regular expression only
      looks at the last character. */
  lemma OpenStatementAtEnd(t: string)
    requires t != [] && !IsSpace(t[|t| - 1])
    ensures EndsInOpenStatement(t) <==> t[|t| - 1] !in ";{}"
  {
    if t[|t| - 1] !in ";{}" {
      assert AllSpace(t[|t|..]);
    }
    if EndsInOpenStatement(t) {
      var k :| 0 <= k < |t| && t[k] !in ";{}" && AllSpace(t[k + 1..]);
      if k < |t| - 1 {
        assert t[k + 1..][|t| - 2 - k] == t[|t| - 1];
      }
    }
  }

  /** TODO and FIXME detection ignores case. */
  lemma MarkersIgnoreCase(line: string)
    ensures HasTodo(Lower(line)) == HasTodo(line) && HasTodo(Upper(line)) == HasTodo(line)
    ensures HasFixme(Lower(line)) == HasFixme(line) && HasFixme(Upper(line)) == HasFixme(line)
  {
    UpperOfLower(line);
    UpperOfUpper(line);
  }

  lemma UpperOfUpper(s: string)
    ensures Upper(Upper(s)) == Upper(s)
  {
    forall i | 0 <= i < |s| ensures Upper(Upper(s))[i] == Upper(s)[i] {
      var c := s[i];
      if 'a' <= c <= 'z' {
        assert UpperChar(c) as int == c as int - 32;
      }
    }
  }

  /** A line reported as a hard-coded secret has an `=` in it. */
  lemma SecretHasAssignment(line: string)
    requires HasHardcodedSecret(line)
    ensures '=' in line
  {
    var s := Lower(line);
    var i := SecretPosition(s);
    var k := SecretAtHasAssignment(s[i..]);
    assert s[i + k] == '=';
    assert LowerChar(line[i + k]) == '=';
  }

  /** Where the `=` of a match at the start of `t` is. */
  lemma SecretAtHasAssignment(t: string) returns (k: nat)
    requires SecretAt(t)
    ensures k < |t| && t[k] == '='
  {
    var w: nat;
    if StartsWith(t, "password") && AssignedQuoted(t[8..]) {
      w := 8;
    } else if StartsWith(t, "key") && AssignedQuoted(t[3..]) {
      w := 3;
    } else if StartsWith(t, "secret") && AssignedQuoted(t[6..]) {
      w := 6;
    } else {
      w := 5;
    }
    k := AssignedAt(t, w);
  }

  /** Where the `=` of an assignment pattern at position `w` of `t` is. */
  lemma AssignedAt(t: string, w: nat) returns (k: nat)
    requires w <= |t| && AssignedQuoted(t[w..])
    ensures k < |t| && t[k] == '='
  {
    var j := AssignmentPosition(t[w..]);
    k := w + j;
    assert t[w..][j] == t[k];
  }

  lemma AssignmentPosition(s: string) returns (j: nat)
    requires AssignedQuoted(s)
    ensures j < |s| && s[j] == '='
  {
    var a := LStrip(s);
    j := |s| - |a|;
    assert a[0] == s[j];
  }

  /** Where in `s` the secret pattern starts. */
  lemma {:induction false} SecretPosition(s: string) returns (i: nat)
    requires SecretSomewhere(s)
    ensures i <= |s| && SecretAt(s[i..])
    decreases |s|
  {
    if SecretAt(s) {
      i := 0;
    } else {
      var j := SecretPosition(s[1..]);
      assert s[1..][j..] == s[j + 1..];
      i := j + 1;
    }
  }
}
