/** The rewriting half of the code fixer (core/fixer.py): the per-language
    fixers, each of which splits the content on '\n', rewrites lines by
    index and joins them again, and `_apply_fixes`, which threads the content
    through a language's fixers in order. */
module FixerRewrite {
  import opened Text
  import opened FixerAnalysis

  /** One applied fix: its `type` and `line` fields. */
  datatype Fix = Fix(kind: string, line: int)

  /** What a fixer gives back, or `Raised` when it raises an exception. */
  datatype FixOutcome = Fixed(content: string, fixes: seq<Fix>) | Raised

  /** Where `lines[line_num]` lands in a list of `n` lines, after the guard
      `line_num < len(lines)`: skipped, an index (negative ones count from
      the end, as Python's do), or out of range (an `IndexError`). */
  datatype Slot = Skip | At(index: nat) | OutOfRange

  function Target(lineNum: int, n: nat): (r: Slot)
    ensures r == Skip <==> lineNum >= n
    ensures r == OutOfRange <==> lineNum + n < 0
    ensures r.At? ==> r.index < n && (lineNum == r.index || lineNum == r.index - n)
  {
    if lineNum >= n then Skip
    else if lineNum >= 0 then At(lineNum)
    else if lineNum + n >= 0 then At(n + lineNum)
    else OutOfRange
  }

  /** The line rewrites of the two fixers that edit the lines issues name. */
  datatype LineEdit = Blank | Semicolon

  /** `""` for an unused import, `line.rstrip() + ';'` for a missing semicolon. */
  function Edit(e: LineEdit, line: string): string
  {
    match e
    case Blank => ""
    case Semicolon => RStrip(line) + ";"
  }

  /** Neither rewrite introduces a newline. */
  lemma EditKeepsNoNewline(e: LineEdit, line: string)
    ensures '\n' !in line ==> '\n' !in Edit(e, line)
  {
    if '\n' !in line && e == Semicolon {
      RStripKeepsNoNewline(line);
    }
  }

  /** The loop state of such a fixer: the lines and fixes so far, or `Failed`
      once an index raised. */
  datatype Edited = Edited(lines: seq<string>, fixes: seq<Fix>) | Failed

  /** The loop body for one issue: an issue of `kind` whose line is in range
      has its line rewritten and a fix recorded. */
  function EditStep(st: Edited, x: Issue, kind: string, e: LineEdit, fixKind: string): (r: Edited)
    ensures st.Failed? ==> r.Failed?
    ensures st.Edited? && r.Edited? ==> |r.lines| == |st.lines|
    ensures st.Edited? && r.Edited? && NoNewlines(st.lines) ==> NoNewlines(r.lines)
  {
    match st
    case Failed => Failed
    case Edited(ls, fs) =>
      if x.kind != kind then st
      else
        match Target(x.line - 1, |ls|)
        case Skip => st
        case OutOfRange => Failed
        case At(t) =>
          EditKeepsNoNewline(e, ls[t]);
          Edited(ls[t := Edit(e, ls[t])], fs + [Fix(fixKind, x.line)])
  }

  /** The loop over all issues, in order. */
  function EditAll(lines: seq<string>, issues: seq<Issue>, kind: string, e: LineEdit, fixKind: string): (r: Edited)
    ensures r.Edited? ==> |r.lines| == |lines|
    ensures r.Edited? && NoNewlines(lines) ==> NoNewlines(r.lines)
    decreases |issues|
  {
    if |issues| == 0 then Edited(lines, [])
    else EditStep(EditAll(lines, issues[..|issues| - 1], kind, e, fixKind), issues[|issues| - 1], kind, e, fixKind)
  }

  /** The fixer's result: the joined lines and the fixes, or `Raised`. */
  function LinesFixed(content: string, issues: seq<Issue>, kind: string, e: LineEdit, fixKind: string): FixOutcome
  {
    match EditAll(Split(content), issues, kind, e, fixKind)
    case Failed => Raised
    case Edited(ls, fs) => Fixed(Join(ls), fs)
  }

  /** The loop shared by `_fix_python_imports` and `_fix_js_syntax`. */
  method FixNamedLines(content: string, issues: seq<Issue>, kind: string, e: LineEdit, fixKind: string)
    returns (out: FixOutcome)
    ensures out == LinesFixed(content, issues, kind, e, fixKind)
  {
    var lines := Split(content);
    var fixes: seq<Fix> := [];
    var i := 0;
    while i < |issues|
      invariant 0 <= i <= |issues|
      invariant EditAll(Split(content), issues[..i], kind, e, fixKind) == Edited(lines, fixes)
    {
      EditAllSnoc(Split(content), issues, i, kind, e, fixKind);
      EditStepCases(lines, fixes, issues[i], kind, e, fixKind);
      var issue := issues[i];
      if issue.kind == kind {
        var lineNum := issue.line - 1;
        if lineNum < |lines| {
          if lineNum < -|lines| {
            FailedStays(Split(content), issues, i + 1, kind, e, fixKind);
            return Raised;
          }
          var t := if lineNum >= 0 then lineNum else |lines| + lineNum;
          lines := lines[t := Edit(e, lines[t])];
          fixes := fixes + [Fix(fixKind, issue.line)];
        }
      }
      i := i + 1;
    }
    assert issues[..|issues|] == issues;
    out := Fixed(Join(lines), fixes);
  }

  /** `EditAll` over one more issue. */
  lemma EditAllSnoc(lines: seq<string>, issues: seq<Issue>, i: nat, kind: string, e: LineEdit, fixKind: string)
    requires i < |issues|
    ensures EditAll(lines, issues[..i + 1], kind, e, fixKind)
              == EditStep(EditAll(lines, issues[..i], kind, e, fixKind), issues[i], kind, e, fixKind)
  {
    assert issues[..i + 1][..i] == issues[..i];
  }

  /** `EditStep` in the terms of the fixer's loop: the guard, the index
      check, and the negative index counted from the end. */
  lemma EditStepCases(lines: seq<string>, fixes: seq<Fix>, x: Issue, kind: string, e: LineEdit, fixKind: string)
    ensures var lineNum := x.line - 1;
      EditStep(Edited(lines, fixes), x, kind, e, fixKind)
        == if x.kind != kind || lineNum >= |lines| then Edited(lines, fixes)
           else if lineNum < -|lines| then Failed
           else
             var t := if lineNum >= 0 then lineNum else |lines| + lineNum;
             Edited(lines[t := Edit(e, lines[t])], fixes + [Fix(fixKind, x.line)])
  {
  }

  /** Once an index raised, the whole fixer has raised. */
  lemma {:induction false} FailedStays(lines: seq<string>, issues: seq<Issue>, i: nat, kind: string, e: LineEdit, fixKind: string)
    requires i <= |issues| && EditAll(lines, issues[..i], kind, e, fixKind) == Failed
    ensures EditAll(lines, issues, kind, e, fixKind) == Failed
    decreases |issues|
  {
    if i < |issues| {
      var front := issues[..|issues| - 1];
      assert front[..i] == issues[..i];
      FailedStays(lines, front, i, kind, e, fixKind);
    } else {
      assert issues[..i] == issues;
    }
  }

  /** An issue of `kind` whose index is below `-n`. */
  predicate RaisesAt(issues: seq<Issue>, k: int, kind: string, n: nat)
  {
    0 <= k < |issues| && issues[k].kind == kind && issues[k].line - 1 + n < 0
  }

  /** A fixer raises exactly when some issue of its kind points below the
      first line by more than the line count. */
  lemma {:induction false} FailedIff(lines: seq<string>, issues: seq<Issue>, kind: string, e: LineEdit, fixKind: string)
    ensures (EditAll(lines, issues, kind, e, fixKind).Failed?)
              <==> (exists k :: RaisesAt(issues, k, kind, |lines|))
    decreases |issues|
  {
    if |issues| > 0 {
      var front := issues[..|issues| - 1];
      FailedIff(lines, front, kind, e, fixKind);
      if exists k :: RaisesAt(front, k, kind, |lines|) {
        var k :| RaisesAt(front, k, kind, |lines|);
        assert RaisesAt(issues, k, kind, |lines|);
      }
      if exists k :: RaisesAt(issues, k, kind, |lines|) {
        var k :| RaisesAt(issues, k, kind, |lines|);
        if k < |issues| - 1 {
          assert RaisesAt(front, k, kind, |lines|);
        }
      }
      var x := issues[|issues| - 1];
      var before := EditAll(lines, front, kind, e, fixKind);
      if before.Edited? && x.kind == kind && Target(x.line - 1, |lines|) == OutOfRange {
        assert RaisesAt(issues, |issues| - 1, kind, |lines|);
      }
      if before.Edited? && RaisesAt(issues, |issues| - 1, kind, |lines|) {
        assert |before.lines| == |lines|;
      }
    }
  }

  /** How many issues of `kind` write line `j` of `n` lines. */
  function Hits(issues: seq<Issue>, kind: string, n: nat, j: nat): nat
    decreases |issues|
  {
    if |issues| == 0 then 0
    else
      var x := issues[|issues| - 1];
      Hits(issues[..|issues| - 1], kind, n, j)
      + (if NamesLine(x, kind, n, j) then 1 else 0)
  }

  /** `Edit` applied `k` times. */
  function Repeat(e: LineEdit, k: nat, line: string): string
  {
    if k == 0 then line else Edit(e, Repeat(e, k - 1, line))
  }

  /** The fixes recorded for `issues`: one per issue of `kind` in range, in
      order, carrying the issue's line. */
  function Records(issues: seq<Issue>, kind: string, n: nat, fixKind: string): seq<Fix>
    decreases |issues|
  {
    if |issues| == 0 then []
    else
      var x := issues[|issues| - 1];
      Records(issues[..|issues| - 1], kind, n, fixKind)
      + (if x.kind == kind && Target(x.line - 1, n).At? then [Fix(fixKind, x.line)] else [])
  }

  /** Unless it raised, the fixer leaves line `j` as its original edited once
      per issue that names it (other lines untouched), and records one fix
      per issue of its kind in range. */
  lemma {:induction false} EditAllEffect(lines: seq<string>, issues: seq<Issue>, kind: string, e: LineEdit, fixKind: string)
    requires EditAll(lines, issues, kind, e, fixKind).Edited?
    ensures var r := EditAll(lines, issues, kind, e, fixKind);
      && (forall j :: 0 <= j < |lines| ==> r.lines[j] == Repeat(e, Hits(issues, kind, |lines|, j), lines[j]))
      && r.fixes == Records(issues, kind, |lines|, fixKind)
    decreases |issues|
  {
    if |issues| > 0 {
      var front := issues[..|issues| - 1];
      var x := issues[|issues| - 1];
      assert issues == front + [x];
      var before := EditAll(lines, front, kind, e, fixKind);
      assert before.Edited?;
      EditAllEffect(lines, front, kind, e, fixKind);
      EditStepEffect(lines, front, x, before, kind, e, fixKind);
    }
  }

  /** One more issue keeps `EditAllEffect`'s description true. */
  lemma EditStepEffect(lines: seq<string>, front: seq<Issue>, x: Issue, st: Edited, kind: string, e: LineEdit, fixKind: string)
    requires st.Edited? && |st.lines| == |lines|
    requires forall j :: 0 <= j < |lines| ==> st.lines[j] == Repeat(e, Hits(front, kind, |lines|, j), lines[j])
    requires st.fixes == Records(front, kind, |lines|, fixKind)
    requires EditStep(st, x, kind, e, fixKind).Edited?
    ensures var r := EditStep(st, x, kind, e, fixKind);
      && (forall j :: 0 <= j < |lines| ==> r.lines[j] == Repeat(e, Hits(front + [x], kind, |lines|, j), lines[j]))
      && r.fixes == Records(front + [x], kind, |lines|, fixKind)
  {
    EditStepRecords(front, x, st, kind, e, fixKind, |lines|);
    forall j | 0 <= j < |lines|
      ensures EditStep(st, x, kind, e, fixKind).lines[j] == Repeat(e, Hits(front + [x], kind, |lines|, j), lines[j])
    {
      EditStepLine(lines, front, x, st, kind, e, fixKind, j);
    }
  }

  lemma EditStepRecords(front: seq<Issue>, x: Issue, st: Edited, kind: string, e: LineEdit, fixKind: string, n: nat)
    requires st.Edited? && |st.lines| == n
    requires st.fixes == Records(front, kind, n, fixKind)
    requires EditStep(st, x, kind, e, fixKind).Edited?
    ensures EditStep(st, x, kind, e, fixKind).fixes == Records(front + [x], kind, n, fixKind)
  {
    var issues := front + [x];
    assert issues[..|issues| - 1] == front && issues[|issues| - 1] == x;
    if x.kind == kind && Target(x.line - 1, n).At? {
      assert Records(issues, kind, n, fixKind) == Records(front, kind, n, fixKind) + [Fix(fixKind, x.line)];
    } else {
      assert EditStep(st, x, kind, e, fixKind) == st;
      assert Records(issues, kind, n, fixKind) == Records(front, kind, n, fixKind) + [];
      assert Records(front, kind, n, fixKind) + [] == Records(front, kind, n, fixKind);
    }
  }

  lemma EditStepLine(lines: seq<string>, front: seq<Issue>, x: Issue, st: Edited, kind: string, e: LineEdit, fixKind: string, j: nat)
    requires st.Edited? && |st.lines| == |lines| && j < |lines|
    requires st.lines[j] == Repeat(e, Hits(front, kind, |lines|, j), lines[j])
    requires EditStep(st, x, kind, e, fixKind).Edited?
    ensures EditStep(st, x, kind, e, fixKind).lines[j] == Repeat(e, Hits(front + [x], kind, |lines|, j), lines[j])
  {
    EditStepAt(st, x, kind, e, fixKind, j);
    HitsSnoc(front, x, kind, |lines|, j);
    RepeatStep(e, Hits(front, kind, |lines|, j), lines[j], st.lines[j], EditStep(st, x, kind, e, fixKind).lines[j],
               NamesLine(x, kind, |lines|, j), Hits(front + [x], kind, |lines|, j));
  }

  /** A line edited `h` times, edited once more or not, with the count kept in step. */
  lemma RepeatStep(e: LineEdit, h: nat, line: string, before: string, after: string, hit: bool, count: nat)
    requires before == Repeat(e, h, line)
    requires after == if hit then Edit(e, before) else before
    requires count == h + (if hit then 1 else 0)
    ensures after == Repeat(e, count, line)
  {
    if hit {
      RepeatOnceMore(e, h, line);
    }
  }

  lemma HitsSnoc(front: seq<Issue>, x: Issue, kind: string, n: nat, j: nat)
    ensures Hits(front + [x], kind, n, j)
              == Hits(front, kind, n, j) + (if NamesLine(x, kind, n, j) then 1 else 0)
  {
    assert (front + [x])[..|front|] == front;
  }

  lemma RepeatOnceMore(e: LineEdit, k: nat, line: string)
    ensures Repeat(e, k + 1, line) == Edit(e, Repeat(e, k, line))
  {
  }

  /** `EditStep` rewrites line `j` exactly when the issue targets it. */
  lemma EditStepAt(st: Edited, x: Issue, kind: string, e: LineEdit, fixKind: string, j: nat)
    requires st.Edited? && j < |st.lines|
    requires EditStep(st, x, kind, e, fixKind).Edited?
    ensures EditStep(st, x, kind, e, fixKind).lines[j]
              == if NamesLine(x, kind, |st.lines|, j) then Edit(e, st.lines[j]) else st.lines[j]
  {
  }

  /** Issue `x` is of `kind` and names line `j` of `n`. */
  predicate NamesLine(x: Issue, kind: string, n: nat, j: nat)
  {
    x.kind == kind && Target(x.line - 1, n) == At(j)
  }

  /** Some issue of `kind` names line `j` of `n`. */
  predicate Named(issues: seq<Issue>, kind: string, n: nat, j: nat)
  {
    exists k :: 0 <= k < |issues| && NamesLine(issues[k], kind, n, j)
  }

  lemma NamedSnoc(front: seq<Issue>, x: Issue, kind: string, n: nat, j: nat)
    ensures Named(front + [x], kind, n, j) <==>
              Named(front, kind, n, j) || NamesLine(x, kind, n, j)
  {
    var issues := front + [x];
    if Named(front, kind, n, j) {
      var k :| 0 <= k < |front| && NamesLine(front[k], kind, n, j);
      assert issues[k] == front[k];
    }
    if NamesLine(x, kind, n, j) {
      assert issues[|front|] == x;
    }
    if Named(issues, kind, n, j) {
      var k :| 0 <= k < |issues| && NamesLine(issues[k], kind, n, j);
      if k < |front| {
        assert front[k] == issues[k];
      }
    }
  }

  /** A line is written at all exactly when some issue of `kind` names it. */
  lemma {:induction false} HitsPositive(issues: seq<Issue>, kind: string, n: nat, j: nat)
    ensures Hits(issues, kind, n, j) > 0 <==> Named(issues, kind, n, j)
    decreases |issues|
  {
    if |issues| > 0 {
      var front := issues[..|issues| - 1];
      var x := issues[|issues| - 1];
      HitsPositive(front, kind, n, j);
      assert issues == front + [x];
      NamedSnoc(front, x, kind, n, j);
    }
  }

  lemma {:induction false} RepeatBlank(k: nat, line: string)
    ensures Repeat(Blank, k, line) == if k == 0 then line else ""
  {
    if k > 1 {
      RepeatBlank(k - 1, line);
    }
  }

  /** Whatever the issues, unless the fixer raised, the content keeps its
      number of lines. */
  lemma LinesFixedKeepsLineCount(content: string, issues: seq<Issue>, kind: string, e: LineEdit, fixKind: string)
    requires LinesFixed(content, issues, kind, e, fixKind).Fixed?
    ensures |Split(LinesFixed(content, issues, kind, e, fixKind).content)| == |Split(content)|
  {
    var r := EditAll(Split(content), issues, kind, e, fixKind);
    SplitJoin(r.lines);
  }

  /** `_fix_python_imports`: lines named by an `unused_import` issue become
      empty, every other line stays as it was, and one fix is recorded per
      such issue in range; other issue types are ignored. */
  method FixPythonImports(content: string, issues: seq<Issue>) returns (out: FixOutcome)
    ensures out == LinesFixed(content, issues, "unused_import", Blank, "removed_unused_import")
  {
    out := FixNamedLines(content, issues, "unused_import", Blank, "removed_unused_import");
  }

  lemma ImportsBlankExactly(content: string, issues: seq<Issue>)
    requires LinesFixed(content, issues, "unused_import", Blank, "removed_unused_import").Fixed?
    ensures var orig := Split(content);
      var out := LinesFixed(content, issues, "unused_import", Blank, "removed_unused_import");
      var lines := Split(out.content);
      && |lines| == |orig|
      && (forall j :: 0 <= j < |orig| ==>
            lines[j] == if Named(issues, "unused_import", |orig|, j) then "" else orig[j])
      && out.fixes == Records(issues, "unused_import", |orig|, "removed_unused_import")
  {
    var orig := Split(content);
    var r := EditAll(orig, issues, "unused_import", Blank, "removed_unused_import");
    SplitJoin(r.lines);
    EditAllEffect(orig, issues, "unused_import", Blank, "removed_unused_import");
    forall j | 0 <= j < |orig|
      ensures r.lines[j] == if Named(issues, "unused_import", |orig|, j) then "" else orig[j]
    {
      HitsPositive(issues, "unused_import", |orig|, j);
      RepeatBlank(Hits(issues, "unused_import", |orig|, j), orig[j]);
    }
  }

  /** `_fix_js_syntax`: a line named once by a `missing_semicolon` issue
      becomes its right-stripped form plus `;`, lines named by none stay as
      they were. */
  method FixJsSyntax(content: string, issues: seq<Issue>) returns (out: FixOutcome)
    ensures out == LinesFixed(content, issues, "missing_semicolon", Semicolon, "added_semicolon")
  {
    out := FixNamedLines(content, issues, "missing_semicolon", Semicolon, "added_semicolon");
  }

  lemma JsSemicolonAppended(content: string, issues: seq<Issue>)
    requires LinesFixed(content, issues, "missing_semicolon", Semicolon, "added_semicolon").Fixed?
    ensures var orig := Split(content);
      var out := LinesFixed(content, issues, "missing_semicolon", Semicolon, "added_semicolon");
      var lines := Split(out.content);
      && |lines| == |orig|
      && (forall j :: 0 <= j < |orig| && Hits(issues, "missing_semicolon", |orig|, j) == 0 ==> lines[j] == orig[j])
      && (forall j :: 0 <= j < |orig| && Hits(issues, "missing_semicolon", |orig|, j) == 1 ==>
            lines[j] == RStrip(orig[j]) + ";")
      && out.fixes == Records(issues, "missing_semicolon", |orig|, "added_semicolon")
  {
    var orig := Split(content);
    var r := EditAll(orig, issues, "missing_semicolon", Semicolon, "added_semicolon");
    SplitJoin(r.lines);
    EditAllEffect(orig, issues, "missing_semicolon", Semicolon, "added_semicolon");
    forall j | 0 <= j < |orig| && Hits(issues, "missing_semicolon", |orig|, j) == 1
      ensures r.lines[j] == RStrip(orig[j]) + ";"
    {
      assert Repeat(Semicolon, 1, orig[j]) == Edit(Semicolon, Repeat(Semicolon, 0, orig[j]));
    }
  }

  // ----- _fix_python_style -----

  /** `line.rstrip()` for a line that ends in a space or a tab. */
  function StyleLine(line: string): string
  {
    if EndsWithSpaceOrTab(line) then RStrip(line) else line
  }

  function StyleLines(lines: seq<string>): (r: seq<string>)
    ensures |r| == |lines|
    ensures forall j :: 0 <= j < |lines| ==> r[j] == StyleLine(lines[j])
  {
    seq(|lines|, j requires 0 <= j < |lines| => StyleLine(lines[j]))
  }

  /** One fix per line that ends in a space or a tab, numbered from 1. */
  function StyleRecords(lines: seq<string>): seq<Fix>
    decreases |lines|
  {
    if |lines| == 0 then []
    else StyleRecords(lines[..|lines| - 1])
         + (if EndsWithSpaceOrTab(lines[|lines| - 1]) then [Fix("removed_trailing_whitespace", |lines|)] else [])
  }

  function StyleFixed(content: string): (string, seq<Fix>)
  {
    var lines := Split(content);
    (Join(StyleLines(lines)), StyleRecords(lines))
  }

  /** `_fix_python_style` (it ignores the issues it is given). */
  method FixPythonStyle(content: string) returns (fixed: string, fixes: seq<Fix>)
    ensures (fixed, fixes) == StyleFixed(content)
  {
    var orig := Split(content);
    var lines := orig;
    fixes := [];
    var i := 0;
    while i < |lines|
      invariant 0 <= i <= |lines| == |orig|
      invariant forall j :: 0 <= j < i ==> lines[j] == StyleLine(orig[j])
      invariant forall j :: i <= j < |lines| ==> lines[j] == orig[j]
      invariant fixes == StyleRecords(orig[..i])
    {
      StyleRecordsStep(orig, i, fixes);
      var line := lines[i];
      if EndsWithSpaceOrTab(line) {
        lines := lines[i := RStrip(line)];
        fixes := fixes + [Fix("removed_trailing_whitespace", i + 1)];
      }
      i := i + 1;
    }
    assert lines == StyleLines(orig);
    assert orig[..|orig|] == orig;
    fixed := Join(lines);
  }

  /** The style records of one more line. */
  lemma StyleRecordsStep(orig: seq<string>, i: nat, fixes: seq<Fix>)
    requires i < |orig| && fixes == StyleRecords(orig[..i])
    ensures StyleRecords(orig[..i + 1])
              == fixes + if EndsWithSpaceOrTab(orig[i]) then [Fix("removed_trailing_whitespace", i + 1)] else []
  {
    assert orig[..i + 1][..i] == orig[..i];
  }

  lemma StyleLineFacts(line: string)
    ensures !EndsWithSpaceOrTab(StyleLine(line))
    ensures StyleLine(line) == line <==> !EndsWithSpaceOrTab(line)
    ensures '\n' !in line ==> '\n' !in StyleLine(line)
  {
    if '\n' !in line && EndsWithSpaceOrTab(line) {
      RStripKeepsNoNewline(line);
    }
  }

  lemma StyleKeepsNoNewlines(lines: seq<string>)
    requires NoNewlines(lines)
    ensures NoNewlines(StyleLines(lines))
  {
    forall j | 0 <= j < |lines| ensures '\n' !in StyleLines(lines)[j] {
      StyleLineFacts(lines[j]);
    }
  }

  /** After the style fix the content has as many lines as before, no line
      ends in a space or a tab, and a line is changed exactly when it ended
      in one. */
  lemma StyleFixedLines(content: string)
    ensures var orig := Split(content);
      var lines := Split(StyleFixed(content).0);
      && |lines| == |orig|
      && (forall j :: 0 <= j < |lines| ==> !EndsWithSpaceOrTab(lines[j]))
      && (forall j :: 0 <= j < |lines| ==> (lines[j] == orig[j] <==> !EndsWithSpaceOrTab(orig[j])))
  {
    var orig := Split(content);
    StyleKeepsNoNewlines(orig);
    SplitJoin(StyleLines(orig));
    forall j | 0 <= j < |orig| ensures !EndsWithSpaceOrTab(StyleLine(orig[j]))
      && (StyleLine(orig[j]) == orig[j] <==> !EndsWithSpaceOrTab(orig[j])) {
      StyleLineFacts(orig[j]);
    }
  }

  /** The style fix records a fix for 1-based line `j` exactly when that line
      ended in a space or a tab, in increasing line order. */
  lemma StyleRecordsMeaning(lines: seq<string>)
    ensures forall f :: f in StyleRecords(lines) ==>
              f.kind == "removed_trailing_whitespace" && 1 <= f.line <= |lines|
              && EndsWithSpaceOrTab(lines[f.line - 1])
    ensures forall j :: 1 <= j <= |lines| && EndsWithSpaceOrTab(lines[j - 1]) ==>
              Fix("removed_trailing_whitespace", j) in StyleRecords(lines)
    ensures forall a, b :: 0 <= a < b < |StyleRecords(lines)| ==>
              StyleRecords(lines)[a].line < StyleRecords(lines)[b].line
  {
    StyleRecordsSound(lines);
    StyleRecordsComplete(lines);
    StyleRecordsOrdered(lines);
  }

  lemma {:induction false} StyleRecordsSound(lines: seq<string>)
    ensures forall f :: f in StyleRecords(lines) ==>
              f.kind == "removed_trailing_whitespace" && 1 <= f.line <= |lines|
              && EndsWithSpaceOrTab(lines[f.line - 1])
    decreases |lines|
  {
    if |lines| > 0 {
      var front := lines[..|lines| - 1];
      StyleRecordsSound(front);
      assert forall j :: 0 <= j < |front| ==> front[j] == lines[j];
    }
  }

  lemma {:induction false} StyleRecordsComplete(lines: seq<string>)
    ensures forall j :: 1 <= j <= |lines| && EndsWithSpaceOrTab(lines[j - 1]) ==>
              Fix("removed_trailing_whitespace", j) in StyleRecords(lines)
    decreases |lines|
  {
    if |lines| > 0 {
      var front := lines[..|lines| - 1];
      StyleRecordsComplete(front);
      assert forall j :: 0 <= j < |front| ==> front[j] == lines[j];
    }
  }

  lemma {:induction false} StyleRecordsOrdered(lines: seq<string>)
    ensures forall a, b :: 0 <= a < b < |StyleRecords(lines)| ==>
              StyleRecords(lines)[a].line < StyleRecords(lines)[b].line
    decreases |lines|
  {
    if |lines| > 0 {
      var front := lines[..|lines| - 1];
      StyleRecordsOrdered(front);
      StyleRecordsSound(front);
      var rs := StyleRecords(front);
      forall a | 0 <= a < |rs| ensures rs[a].line < |lines| {
        assert rs[a] in rs;
      }
    }
  }

  lemma {:induction false} StyleRecordsEmpty(lines: seq<string>)
    requires forall j :: 0 <= j < |lines| ==> !EndsWithSpaceOrTab(lines[j])
    ensures StyleRecords(lines) == []
    decreases |lines|
  {
    if |lines| > 0 {
      StyleRecordsEmpty(lines[..|lines| - 1]);
    }
  }

  /** Running the style fix a second time changes nothing and records
      nothing. */
  lemma StyleIdempotent(content: string)
    ensures StyleFixed(StyleFixed(content).0) == (StyleFixed(content).0, [])
  {
    var once := StyleFixed(content).0;
    StyleFixedLines(content);
    var lines := Split(once);
    StyleRecordsEmpty(lines);
    assert StyleLines(lines) == lines;
    JoinSplit(once);
  }

  // ----- _apply_fixes -----

  /** The fixers of `common_fixes`. */
  datatype FixerStep = PythonImports | PythonSyntax | PythonStyle | PythonSecurity | JsSyntax | JsStyle

  /** `common_fixes`: four fixers for Python, two for JavaScript, none for
      any other language. */
  function FixersFor(language: string): seq<FixerStep>
  {
    if language == "python" then [PythonImports, PythonSyntax, PythonStyle, PythonSecurity]
    else if language == "javascript" then [JsSyntax, JsStyle]
    else []
  }

  function StepResult(step: FixerStep, content: string, issues: seq<Issue>): FixOutcome
  {
    match step
    case PythonImports => LinesFixed(content, issues, "unused_import", Blank, "removed_unused_import")
    case PythonStyle => Fixed(StyleFixed(content).0, StyleFixed(content).1)
    case JsSyntax => LinesFixed(content, issues, "missing_semicolon", Semicolon, "added_semicolon")
    case _ => Fixed(content, [])
  }

  /** One fixer run by `_apply_fixes`. */
  method RunStep(step: FixerStep, content: string, issues: seq<Issue>) returns (out: FixOutcome)
    ensures out == StepResult(step, content, issues)
  {
    match step
    case PythonImports =>
      out := FixPythonImports(content, issues);
    case PythonStyle =>
      var fixed, fixes := FixPythonStyle(content);
      out := Fixed(fixed, fixes);
    case JsSyntax =>
      out := FixJsSyntax(content, issues);
    case _ =>
      out := Fixed(content, []);
  }

  /** The content and fixes after `steps`, in order; a fixer that raises is
      skipped. */
  function Pipeline(steps: seq<FixerStep>, content: string, issues: seq<Issue>): (string, seq<Fix>)
    decreases |steps|
  {
    if |steps| == 0 then (content, [])
    else
      var (c, fs) := Pipeline(steps[..|steps| - 1], content, issues);
      match StepResult(steps[|steps| - 1], c, issues)
      case Raised => (c, fs)
      case Fixed(c2, fs2) => (c2, fs + fs2)
  }

  /** `_apply_fixes` */
  method ApplyFixes(content: string, language: string, issues: seq<Issue>) returns (fixed: string, fixes: seq<Fix>)
    ensures (fixed, fixes) == Pipeline(FixersFor(language), content, issues)
  {
    var steps := FixersFor(language);
    fixed, fixes := content, [];
    var i := 0;
    while i < |steps|
      invariant 0 <= i <= |steps|
      invariant (fixed, fixes) == Pipeline(steps[..i], content, issues)
    {
      assert steps[..i + 1][..i] == steps[..i];
      var out := RunStep(steps[i], fixed, issues);
      if out.Fixed? {
        fixed, fixes := out.content, fixes + out.fixes;
      }
      i := i + 1;
    }
    assert steps[..|steps|] == steps;
  }

  /** Every fixer keeps the number of lines. */
  lemma StepKeepsLineCount(step: FixerStep, content: string, issues: seq<Issue>)
    requires StepResult(step, content, issues).Fixed?
    ensures |Split(StepResult(step, content, issues).content)| == |Split(content)|
  {
    match step
    case PythonImports =>
      LinesFixedKeepsLineCount(content, issues, "unused_import", Blank, "removed_unused_import");
    case PythonStyle =>
      StyleFixedLines(content);
    case JsSyntax =>
      LinesFixedKeepsLineCount(content, issues, "missing_semicolon", Semicolon, "added_semicolon");
    case _ =>
  }

  /** The chained fixers keep the number of lines, so the line numbers of
      the issues stay valid from one fixer to the next. */
  lemma {:induction false} PipelineKeepsLineCount(steps: seq<FixerStep>, content: string, issues: seq<Issue>)
    ensures |Split(Pipeline(steps, content, issues).0)| == |Split(content)|
    decreases |steps|
  {
    if |steps| > 0 {
      var front := steps[..|steps| - 1];
      PipelineKeepsLineCount(front, content, issues);
      var c := Pipeline(front, content, issues).0;
      if StepResult(steps[|steps| - 1], c, issues).Fixed? {
        StepKeepsLineCount(steps[|steps| - 1], c, issues);
      }
    }
  }

  /** Running `a` then `b` is running `a + b`: content threaded through, fix
      lists concatenated. */
  lemma {:induction false} PipelineAppend(a: seq<FixerStep>, b: seq<FixerStep>, content: string, issues: seq<Issue>)
    ensures var (c1, f1) := Pipeline(a, content, issues);
      var (c2, f2) := Pipeline(b, c1, issues);
      Pipeline(a + b, content, issues) == (c2, f1 + f2)
    decreases |b|
  {
    if |b| > 0 {
      var front := b[..|b| - 1];
      PipelineAppend(a, front, content, issues);
      assert (a + b)[..|a + b| - 1] == a + front;
      assert (a + b)[|a + b| - 1] == b[|b| - 1];
      var (c1, f1) := Pipeline(a, content, issues);
      var (c2, f2) := Pipeline(front, c1, issues);
      assert Pipeline(a + front, content, issues) == (c2, f1 + f2);
      match StepResult(b[|b| - 1], c2, issues)
      case Raised =>
      case Fixed(c3, f3) =>
        assert f1 + f2 + f3 == f1 + (f2 + f3);
    } else {
      assert a + b == a;
      var (c1, f1) := Pipeline(a, content, issues);
      assert f1 + [] == f1;
    }
  }

  /** For Python the imports fixer may blank lines and the style fixer then
      right-strips; whatever the issues, no line of the result ends in a
      space or a tab, and the line count is kept. For a language without
      fixers the content comes back unchanged with no fixes. */
  lemma ApplyFixesOutcome(content: string, language: string, issues: seq<Issue>)
    ensures var (fixed, fixes) := Pipeline(FixersFor(language), content, issues);
      && |Split(fixed)| == |Split(content)|
      && (language == "python" ==> forall j :: 0 <= j < |Split(fixed)| ==> !EndsWithSpaceOrTab(Split(fixed)[j]))
      && (language != "python" && language != "javascript" ==> fixed == content && fixes == [])
  {
    PipelineKeepsLineCount(FixersFor(language), content, issues);
    if language == "python" {
      PythonPipelineStyles(content, issues);
      StyleFixedLines(Pipeline([PythonImports], content, issues).0);
    }
  }

  /** The Python fixers end with the style fix applied to what the imports
      fixer left; the syntax and security fixers change nothing. */
  lemma PythonPipelineStyles(content: string, issues: seq<Issue>)
    ensures Pipeline(FixersFor("python"), content, issues).0
              == StyleFixed(Pipeline([PythonImports], content, issues).0).0
  {
    var a := [PythonImports];
    assert FixersFor("python") == a + [PythonSyntax] + [PythonStyle] + [PythonSecurity];
    NeutralStep(a, PythonSyntax, content, issues);
    StyleStep(a + [PythonSyntax], content, issues);
    NeutralStep(a + [PythonSyntax] + [PythonStyle], PythonSecurity, content, issues);
  }

  /** A fixer that returns its content unchanged leaves the pipeline's content as it was. */
  lemma NeutralStep(steps: seq<FixerStep>, step: FixerStep, content: string, issues: seq<Issue>)
    requires step == PythonSyntax || step == PythonSecurity
    ensures Pipeline(steps + [step], content, issues).0 == Pipeline(steps, content, issues).0
  {
    assert (steps + [step])[..|steps|] == steps;
  }

  /** Appending the style fixer styles the pipeline's content. */
  lemma StyleStep(steps: seq<FixerStep>, content: string, issues: seq<Issue>)
    ensures Pipeline(steps + [PythonStyle], content, issues).0 == StyleFixed(Pipeline(steps, content, issues).0).0
  {
    assert (steps + [PythonStyle])[..|steps|] == steps;
  }

  // ----- the JavaScript fixer on what the analyzer reports -----

  lemma {:induction false} HitsAppend(a: seq<Issue>, b: seq<Issue>, kind: string, n: nat, j: nat)
    ensures Hits(a + b, kind, n, j) == Hits(a, kind, n, j) + Hits(b, kind, n, j)
    decreases |b|
  {
    if |b| > 0 {
      HitsAppend(a, b[..|b| - 1], kind, n, j);
      assert (a + b)[..|a + b| - 1] == a + b[..|b| - 1];
    } else {
      assert a + b == a;
    }
  }

  /** In the JavaScript scan of the first lines of an `n`-line file, line `j`
      is named by one `missing_semicolon` issue if the rule fires on it and
      by none otherwise. */
  lemma {:induction false} JsScanHits(lines: seq<string>, n: nat, j: nat)
    requires |lines| <= n
    ensures Hits(Scanned(lines, JavascriptLineIssues), "missing_semicolon", n, j)
              == if j < |lines| && MissingSemicolon(lines[j]) then 1 else 0
    decreases |lines|
  {
    if |lines| > 0 {
      var m := |lines|;
      var front := lines[..m - 1];
      JsScanHits(front, n, j);
      HitsAppend(Scanned(front, JavascriptLineIssues), JavascriptLineIssues(lines[m - 1], m), "missing_semicolon", n, j);
      JsLineHits(lines[m - 1], m, n, j);
      if j < m - 1 {
        assert front[j] == lines[j];
      }
    }
  }

  lemma JsLineHits(line: string, m: nat, n: nat, j: nat)
    requires 1 <= m <= n
    ensures Hits(JavascriptLineIssues(line, m), "missing_semicolon", n, j)
              == if j == m - 1 && MissingSemicolon(line) then 1 else 0
  {
    var first: seq<Issue> := if MissingSemicolon(line) then [Issue("missing_semicolon", m, "warning")] else [];
    var second: seq<Issue> := if HasVar(line) then [Issue("use_var", m, "warning")] else [];
    assert JavascriptLineIssues(line, m) == first + second;
    HitsAppend(first, second, "missing_semicolon", n, j);
    assert Hits(second, "missing_semicolon", n, j) == 0 by {
      if |second| == 1 {
        assert second[..0] == [];
      }
    }
    if |first| == 1 {
      assert first[..0] == [];
    }
  }

  /** The common checks never report `missing_semicolon`. */
  lemma CommonScanHits(lines: seq<string>, n: nat, j: nat)
    ensures Hits(Scanned(lines, CommonLineIssues), "missing_semicolon", n, j) == 0
  {
    var issues := Scanned(lines, CommonLineIssues);
    HitsPositive(issues, "missing_semicolon", n, j);
    ChecksNumbered();
    forall k | 0 <= k < |issues| ensures issues[k].kind != "missing_semicolon" {
      ScannedIssue(lines, CommonLineIssues, issues[k]);
    }
  }

  /** Fixing a JavaScript file with its own analysis: the fixer never raises,
      keeps the line count, and appends `;` (after right-stripping) to exactly
      the lines the semicolon rule fires on. */
  lemma JsFixesReportedLines(content: string)
    ensures var orig := Split(content);
      var out := LinesFixed(content, FileIssues(content, "javascript", []), "missing_semicolon", Semicolon, "added_semicolon");
      && out.Fixed?
      && |Split(out.content)| == |orig|
      && forall j :: 0 <= j < |orig| ==>
           Split(out.content)[j] == if MissingSemicolon(orig[j]) then RStrip(orig[j]) + ";" else orig[j]
  {
    var issues := FileIssues(content, "javascript", []);
    JsFixNeverRaises(content);
    JsSemicolonAppended(content, issues);
    JsHitsFollowRule(content);
  }

  /** The JavaScript analysis names only lines of the file, so its fixer
      never raises. */
  lemma JsFixNeverRaises(content: string)
    ensures LinesFixed(content, FileIssues(content, "javascript", []), "missing_semicolon", Semicolon, "added_semicolon").Fixed?
  {
    var orig := Split(content);
    var issues := FileIssues(content, "javascript", []);
    ReportedLinesValid(content, "javascript", []);
    FailedIff(orig, issues, "missing_semicolon", Semicolon, "added_semicolon");
    assert forall k :: !RaisesAt(issues, k, "missing_semicolon", |orig|) by {
      forall k | 0 <= k < |issues| ensures issues[k].line >= 1 {
        assert issues[k] in issues;
      }
    }
  }

  /** In the JavaScript analysis a line is named by one `missing_semicolon`
      issue when the rule fires on it and by none otherwise. */
  lemma JsHitsFollowRule(content: string)
    ensures var orig := Split(content);
      forall j :: 0 <= j < |orig| ==>
        Hits(FileIssues(content, "javascript", []), "missing_semicolon", |orig|, j)
          == if MissingSemicolon(orig[j]) then 1 else 0
  {
    var orig := Split(content);
    JsIssuesAre(content);
    forall j | 0 <= j < |orig|
      ensures Hits(FileIssues(content, "javascript", []), "missing_semicolon", |orig|, j)
                == if MissingSemicolon(orig[j]) then 1 else 0
    {
      ScansHitLine(orig, j);
    }
  }

  /** The JavaScript analysis: the JavaScript scan, then the common scan. */
  lemma JsIssuesAre(content: string)
    ensures FileIssues(content, "javascript", [])
              == Scanned(Split(content), JavascriptLineIssues) + Scanned(Split(content), CommonLineIssues)
  {
    assert "javascript" != "python" by {
      assert |"javascript"| != |"python"|;
    }
  }

  lemma ScansHitLine(lines: seq<string>, j: nat)
    requires j < |lines|
    ensures Hits(Scanned(lines, JavascriptLineIssues) + Scanned(lines, CommonLineIssues), "missing_semicolon", |lines|, j)
              == if MissingSemicolon(lines[j]) then 1 else 0
  {
    var n := |lines|;
    var js := Scanned(lines, JavascriptLineIssues);
    var common := Scanned(lines, CommonLineIssues);
    JsScanHits(lines, n, j);
    CommonScanHits(lines, n, j);
    HitsOfSum(js, common, "missing_semicolon", n, j, if MissingSemicolon(lines[j]) then 1 else 0);
  }

  /** Hits in `a` and none in `b`: the hits of `a + b` are those of `a`. */
  lemma HitsOfSum(a: seq<Issue>, b: seq<Issue>, kind: string, n: nat, j: nat, h: nat)
    requires Hits(a, kind, n, j) == h && Hits(b, kind, n, j) == 0
    ensures Hits(a + b, kind, n, j) == h
  {
    HitsAppend(a, b, kind, n, j);
  }
}
