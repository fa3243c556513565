/** The `CodeFixer` object of core/fixer.py: the file-type table, fixing one
    file (analysis, the fixer pipeline, the history of fixes), fixing the
    files of a project, ranked fix suggestions and the status report. The
    file system is an input: whether a file exists, its content (or `None`
    when reading it fails) and whether writing it back succeeds. */
module Fixer {
  import opened Text
  import opened Ranking
  import opened FixerAnalysis
  import opened FixerRewrite

  /** `supported_languages`, in the dict's order. */
  const SupportedLanguages: seq<(string, string)> :=
    [(".py", "python"), (".js", "javascript"), (".ts", "typescript"), (".java", "java"),
     (".cpp", "cpp"), (".c", "c"), (".go", "go"), (".rs", "rust")]

  function LookUp(table: seq<(string, string)>, key: string): (r: Option<string>)
    ensures r.Some? <==> exists i :: 0 <= i < |table| && table[i].0 == key
    ensures r.Some? ==> exists i :: 0 <= i < |table| && table[i] == (key, r.value)
    decreases |table|
  {
    if |table| == 0 then None
    else if table[0].0 == key then Some(table[0].1)
    else
      var r := LookUp(table[1..], key);
      assert forall i :: 1 <= i < |table| ==> table[i] == table[1..][i - 1];
      r
  }

  /** `supported_languages.get(suffix.lower())` */
  function LanguageOf(suffix: string): Option<string>
  {
    LookUp(SupportedLanguages, Lower(suffix))
  }

  /** `_get_issue_priority`: error 3, warning 2, info 1, anything else 0. */
  function Priority(severity: string): (p: int)
    ensures 0 <= p <= 3
    ensures p == 3 <==> severity == "error"
    ensures p == 2 <==> severity == "warning"
    ensures p == 1 <==> severity == "info"
  {
    if severity == "error" then 3
    else if severity == "warning" then 2
    else if severity == "info" then 1
    else 0
  }

  /** The issue types the fixers can repair. */
  predicate AutoFixable(kind: string)
  {
    kind == "trailing_whitespace" || kind == "unused_import" || kind == "missing_semicolon"
  }

  datatype Suggestion = Suggestion(issue: Issue, autoFixable: bool, priority: int)

  function PriorityKey(s: Suggestion): real
  {
    s.priority as real
  }

  function MakeSuggestion(x: Issue): Suggestion
  {
    Suggestion(x, AutoFixable(x.kind), Priority(x.severity))
  }

  /** One suggestion per issue, in the issues' order. */
  function SuggestionsFor(issues: seq<Issue>): (r: seq<Suggestion>)
    ensures |r| == |issues|
    ensures forall i :: 0 <= i < |issues| ==> r[i] == MakeSuggestion(issues[i])
  {
    seq(|issues|, i requires 0 <= i < |issues| => MakeSuggestion(issues[i]))
  }

  /** The loop of `get_fix_suggestions` that builds the suggestions. */
  method BuildSuggestions(issues: seq<Issue>) returns (r: seq<Suggestion>)
    ensures r == SuggestionsFor(issues)
  {
    r := [];
    var i := 0;
    while i < |issues|
      invariant 0 <= i <= |issues|
      invariant r == SuggestionsFor(issues[..i])
    {
      r := r + [MakeSuggestion(issues[i])];
      i := i + 1;
    }
    assert issues[..|issues|] == issues;
  }

  /** What `get_fix_suggestions` returns: the ranked list, or the one-entry
      error list when reading the file fails. */
  datatype Suggestions = Ranked(items: seq<Suggestion>) | AnalysisError

  /** `get_fix_suggestions`: no suggestions for a missing file or an
      unsupported type; otherwise every issue of the file's analysis becomes
      a suggestion, ranked by priority, highest first, equal priorities in
      analysis order. `content` is None when reading the file raises, and
      also when the analysis raises (`ast.parse` raises `ValueError` on a
      null byte before Python 3.12). */
  method GetFixSuggestions(exists_: bool, suffix: string, content: Option<string>, astIssues: seq<Issue>)
    returns (r: Suggestions)
    ensures !exists_ || LanguageOf(suffix).None? ==> r == Ranked([])
    ensures exists_ && LanguageOf(suffix).Some? && content.None? ==> r == AnalysisError
    ensures exists_ && LanguageOf(suffix).Some? && content.Some? ==>
              var all := SuggestionsFor(FileIssues(content.value, LanguageOf(suffix).value, astIssues));
              && r.Ranked?
              && SortedDesc(r.items, PriorityKey)
              && multiset(r.items) == multiset(all)
              && forall v :: WithKey(r.items, PriorityKey, v) == WithKey(all, PriorityKey, v)
  {
    if !exists_ {
      return Ranked([]);
    }
    var language := LanguageOf(suffix);
    if language.None? {
      return Ranked([]);
    }
    if content.None? {
      return AnalysisError;
    }
    var issues := AnalyzeFile(content.value, language.value, astIssues);
    var all := BuildSuggestions(issues);
    SortDescFacts(all, PriorityKey);
    r := Ranked(SortDesc(all, PriorityKey));
  }

  /** Suggestions are marked auto-fixable exactly for the three issue types
      the fixers repair, and carry their severity's priority. */
  lemma SuggestionFields(issues: seq<Issue>, s: Suggestion)
    requires s in multiset(SuggestionsFor(issues))
    ensures s.issue in issues
    ensures s.autoFixable <==> s.issue.kind in {"trailing_whitespace", "unused_import", "missing_semicolon"}
    ensures s.priority == Priority(s.issue.severity)
  {
    var all := SuggestionsFor(issues);
    var i :| 0 <= i < |all| && all[i] == s;
    assert s == MakeSuggestion(issues[i]);
  }

  /** How `fix_file` fails. */
  datatype FileError = Missing | Unsupported(suffix: string) | ProcessingFailed

  /** `fix_file`'s result: an error, `fixed` (with the backup path, the
      issues, the fixes and the new content), or `no_changes_needed`. */
  datatype FixResult =
    | Failure(error: FileError)
    | FileFixed(file: string, backup: string, issues: seq<Issue>, fixes: seq<Fix>, newContent: string)
    | NoChangesNeeded(file: string, issues: seq<Issue>)

  datatype HistoryEntry = HistoryEntry(timestamp: real, file: string, result: FixResult)

  /** What `fix_file` returns; `writeOk` says whether writing the backup and
      the fixed file succeeds. `content` is None when reading the file
      raises, and also when the analysis raises (`ast.parse` raises
      `ValueError` on a null byte before Python 3.12). */
  function FixOutcomeOf(exists_: bool, path: string, suffix: string, content: Option<string>,
                        astIssues: seq<Issue>, writeOk: bool): FixResult
  {
    if !exists_ then Failure(Missing)
    else if LanguageOf(suffix).None? then Failure(Unsupported(suffix))
    else if content.None? then Failure(ProcessingFailed)
    else ProcessedOutcome(path, content.value, LanguageOf(suffix).value, astIssues, writeOk)
  }

  /** `fix_file` once the file is read and its language known: the only
      failure left is a failed write. */
  function ProcessedOutcome(path: string, original: string, language: string, astIssues: seq<Issue>,
                            writeOk: bool): (r: FixResult)
    ensures r.Failure? ==> r.error == ProcessingFailed && !writeOk
    ensures !r.Failure? ==> r.file == path
  {
    var issues := FileIssues(original, language, astIssues);
    var (fixed, fixes) := Pipeline(FixersFor(language), original, issues);
    if fixed == original then NoChangesNeeded(path, issues)
    else if !writeOk then Failure(ProcessingFailed)
    else FileFixed(path, path + ".backup", issues, fixes, fixed)
  }

  /** `fix_file` reports `fixed` only when the content changed; the new
      content keeps the line count and is what the language's fixers make
      of the analysis; for Python no line of it ends in a space or a tab. */
  lemma FixOutcomeFacts(exists_: bool, path: string, suffix: string, content: Option<string>,
                        astIssues: seq<Issue>, writeOk: bool)
    ensures var r := FixOutcomeOf(exists_, path, suffix, content, astIssues, writeOk);
      r.FileFixed? ==>
        && content.Some? && r.newContent != content.value
        && r.backup == path + ".backup"
        && |Split(r.newContent)| == |Split(content.value)|
        && (LanguageOf(suffix) == Some("python") ==>
              forall j :: 0 <= j < |Split(r.newContent)| ==> !EndsWithSpaceOrTab(Split(r.newContent)[j]))
    ensures var r := FixOutcomeOf(exists_, path, suffix, content, astIssues, writeOk);
      LanguageOf(suffix).Some? && LanguageOf(suffix).value !in {"python", "javascript"} && content.Some? && exists_ ==>
        r == NoChangesNeeded(path, FileIssues(content.value, LanguageOf(suffix).value, astIssues))
  {
    if exists_ && LanguageOf(suffix).Some? && content.Some? {
      var language := LanguageOf(suffix).value;
      var issues := FileIssues(content.value, language, astIssues);
      ApplyFixesOutcome(content.value, language, issues);
    }
  }

  /** Totals of `fix_project`. */
  datatype ProjectResult = ProjectResult(filesProcessed: nat, filesFixed: nat, totalIssues: nat,
                                         totalFixes: nat, fileResults: seq<FixResult>)

  /** One file found by the directory walk, with what the file system says
      about it. */
  datatype ProjectFile = ProjectFile(name: string, path: string, suffix: string, content: Option<string>,
                                     astIssues: seq<Issue>, writeOk: bool)

  /** The walk keeps files of a supported type whose name does not start
      with a dot. */
  predicate Selected(f: ProjectFile)
  {
    LookUp(SupportedLanguages, Lower(f.suffix)).Some? && !StartsWith(f.name, ".") && f.suffix != ".backup"
  }

  function IssuesFound(r: FixResult): nat
  {
    match r
    case Failure(_) => 0
    case FileFixed(_, _, issues, _, _) => |issues|
    case NoChangesNeeded(_, issues) => |issues|
  }

  function FixesApplied(r: FixResult): nat
  {
    if r.FileFixed? then |r.fixes| else 0
  }

  function CountFixed(rs: seq<FixResult>): nat
    decreases |rs|
  {
    if |rs| == 0 then 0 else CountFixed(rs[..|rs| - 1]) + (if rs[|rs| - 1].FileFixed? then 1 else 0)
  }

  function SumIssues(rs: seq<FixResult>): nat
    decreases |rs|
  {
    if |rs| == 0 then 0 else SumIssues(rs[..|rs| - 1]) + IssuesFound(rs[|rs| - 1])
  }

  function SumFixes(rs: seq<FixResult>): nat
    decreases |rs|
  {
    if |rs| == 0 then 0 else SumFixes(rs[..|rs| - 1]) + FixesApplied(rs[|rs| - 1])
  }

  /** Every failure in `rs` is a processing failure. */
  predicate OnlyProcessingFailures(rs: seq<FixResult>)
  {
    forall k :: 0 <= k < |rs| ==> (rs[k].Failure? ==> rs[k].error == ProcessingFailed)
  }

  /** A file the walk selects exists and has a supported type, so fixing
      it can fail only in processing. */
  lemma SelectedFailsInProcessing(f: ProjectFile)
    requires Selected(f)
    ensures var r := FixOutcomeOf(true, f.path, f.suffix, f.content, f.astIssues, f.writeOk);
      r.Failure? ==> r.error == ProcessingFailed
  {
  }

  /** What `fix_file` makes of a file the walk selected. */
  function SelectedOutcome(f: ProjectFile): FixResult
  {
    FixOutcomeOf(true, f.path, f.suffix, f.content, f.astIssues, f.writeOk)
  }

  /** The per-file results of `fix_project`: the outcome of every selected
      file, in the order the walk finds them. */
  function ProjectResults(files: seq<ProjectFile>): seq<FixResult>
    decreases |files|
  {
    if |files| == 0 then []
    else
      var last := files[|files| - 1];
      ProjectResults(files[..|files| - 1]) + (if Selected(last) then [SelectedOutcome(last)] else [])
  }

  /** The history entry `fix_file` adds for a result: none for an error. */
  function Recorded(now: real, r: FixResult): seq<HistoryEntry>
  {
    if r.Failure? then [] else [HistoryEntry(now, r.file, r)]
  }

  /** The history entries for a run of results, in order. */
  function HistoryOf(rs: seq<FixResult>, now: real): seq<HistoryEntry>
    decreases |rs|
  {
    if |rs| == 0 then [] else HistoryOf(rs[..|rs| - 1], now) + Recorded(now, rs[|rs| - 1])
  }

  /** One entry per result that is not an error, for that result's file. */
  lemma {:induction false} HistoryOfFacts(rs: seq<FixResult>, now: real)
    ensures |HistoryOf(rs, now)| == |rs| - CountFailures(rs)
    ensures forall e :: e in HistoryOf(rs, now) ==> e.result in rs && !e.result.Failure? && e.file == e.result.file
    decreases |rs|
  {
    if |rs| > 0 {
      HistoryOfFacts(rs[..|rs| - 1], now);
    }
  }

  function CountFailures(rs: seq<FixResult>): nat
    decreases |rs|
  {
    if |rs| == 0 then 0 else CountFailures(rs[..|rs| - 1]) + (if rs[|rs| - 1].Failure? then 1 else 0)
  }

  /** `fix_project` reports at most one result per file found, and never a
      missing-file or unsupported-type error. */
  lemma {:induction false} ProjectResultsFacts(files: seq<ProjectFile>)
    ensures |ProjectResults(files)| <= |files|
    ensures OnlyProcessingFailures(ProjectResults(files))
    decreases |files|
  {
    if |files| > 0 {
      var last := files[|files| - 1];
      ProjectResultsFacts(files[..|files| - 1]);
      if Selected(last) {
        SelectedFailsInProcessing(last);
      }
    }
  }

  /** A history that extends `start` by `h` and then by `added` extends it by
      `h + added`. */
  lemma HistoryGrows(start: seq<HistoryEntry>, before: seq<HistoryEntry>, after: seq<HistoryEntry>,
                     h: seq<HistoryEntry>, added: seq<HistoryEntry>)
    requires before == start + h && after == before + added
    ensures after == start + (h + added)
  {
  }

  /** The totals and the history over `rs + [x]` add what `x` reports. */
  lemma TotalsAppend(rs: seq<FixResult>, x: FixResult, now: real)
    ensures HistoryOf(rs + [x], now) == HistoryOf(rs, now) + Recorded(now, x)
    ensures CountFixed(rs + [x]) == CountFixed(rs) + (if x.FileFixed? then 1 else 0)
    ensures SumIssues(rs + [x]) == SumIssues(rs) + IssuesFound(x)
    ensures SumFixes(rs + [x]) == SumFixes(rs) + FixesApplied(x)
  {
    assert (rs + [x])[..|rs|] == rs;
  }

  class CodeFixer {
    var fixHistory: seq<HistoryEntry>

    constructor()
      ensures fixHistory == []
    {
      fixHistory := [];
    }

    /** `fix_file`: the result, and one history entry for every call that
        does not end in an error. */
    method FixFile(exists_: bool, path: string, suffix: string, content: Option<string>,
                   astIssues: seq<Issue>, writeOk: bool, now: real) returns (r: FixResult)
      modifies this
      ensures r == FixOutcomeOf(exists_, path, suffix, content, astIssues, writeOk)
      ensures fixHistory == if r.Failure? then old(fixHistory) else old(fixHistory) + [HistoryEntry(now, path, r)]
    {
      if !exists_ {
        return Failure(Missing);
      }
      var language := LanguageOf(suffix);
      if language.None? {
        return Failure(Unsupported(suffix));
      }
      if content.None? {
        return Failure(ProcessingFailed);
      }
      var original := content.value;
      var issues := AnalyzeFile(original, language.value, astIssues);
      var fixed, fixes := ApplyFixes(original, language.value, issues);
      if fixed != original {
        if !writeOk {
          return Failure(ProcessingFailed);
        }
        r := FileFixed(path, path + ".backup", issues, fixes, fixed);
      } else {
        r := NoChangesNeeded(path, issues);
      }
      fixHistory := fixHistory + [HistoryEntry(now, path, r)];
    }

    /** `fix_file` on a file the walk selected. */
    method FixSelected(f: ProjectFile, now: real) returns (r: FixResult)
      requires Selected(f)
      modifies this
      ensures r == SelectedOutcome(f)
      ensures r.Failure? ==> r.error == ProcessingFailed
      ensures fixHistory == old(fixHistory) + Recorded(now, r)
    {
      r := FixFile(true, f.path, f.suffix, f.content, f.astIssues, f.writeOk, now);
      SelectedFailsInProcessing(f);
    }

    /** One file of the walk: `fix_file` if the file is selected, nothing
        otherwise; the results and the history over the walk so far grow by
        what it reports. */
    method VisitFile(files: seq<ProjectFile>, i: int, now: real) returns (r: Option<FixResult>)
      requires 0 <= i < |files|
      modifies this
      ensures r.Some? <==> Selected(files[i])
      ensures r.Some? ==> ProjectResults(files[..i + 1]) == ProjectResults(files[..i]) + [r.value]
      ensures r.None? ==> ProjectResults(files[..i + 1]) == ProjectResults(files[..i])
      ensures r.Some? ==> fixHistory == old(fixHistory) + Recorded(now, r.value)
      ensures r.None? ==> fixHistory == old(fixHistory)
    {
      assert files[..i + 1][..i] == files[..i];
      if Selected(files[i]) {
        var result := FixSelected(files[i], now);
        r := Some(result);
      } else {
        r := None;
      }
    }

    /** `fix_project` over the files the walk finds (all given the same
        timestamp): the selected files are fixed in order, and the totals
        add up what the per-file results report. */
    method FixProject(directoryExists: bool, files: seq<ProjectFile>, now: real) returns (r: Option<ProjectResult>)
      modifies this
      ensures !directoryExists ==> r.None? && fixHistory == old(fixHistory)
      ensures directoryExists ==> r.Some? && fixHistory == old(fixHistory) + HistoryOf(ProjectResults(files), now)
      ensures r.Some? ==> r.value.fileResults == ProjectResults(files)
      ensures r.Some? ==>
                && r.value.filesProcessed == |r.value.fileResults| <= |files|
                && r.value.filesFixed == CountFixed(r.value.fileResults)
                && r.value.totalIssues == SumIssues(r.value.fileResults)
                && r.value.totalFixes == SumFixes(r.value.fileResults)
                && OnlyProcessingFailures(r.value.fileResults)
    {
      if !directoryExists {
        return None;
      }
      var processed: nat, fixedCount: nat, issuesTotal: nat, fixesTotal: nat := 0, 0, 0, 0;
      var results: seq<FixResult> := [];
      var i := 0;
      while i < |files|
        invariant 0 <= i <= |files|
        invariant processed == |results|
        invariant results == ProjectResults(files[..i])
        invariant fixHistory == old(fixHistory) + HistoryOf(results, now)
        invariant fixedCount == CountFixed(results)
        invariant issuesTotal == SumIssues(results)
        invariant fixesTotal == SumFixes(results)
      {
        ghost var before := fixHistory;
        var visited := VisitFile(files, i, now);
        if visited.Some? {
          var result := visited.value;
          TotalsAppend(results, result, now);
          HistoryGrows(old(fixHistory), before, fixHistory, HistoryOf(results, now), Recorded(now, result));
          results := results + [result];
          processed := processed + 1;
          if result.FileFixed? {
            fixedCount := fixedCount + 1;
          }
          issuesTotal := issuesTotal + IssuesFound(result);
          fixesTotal := fixesTotal + FixesApplied(result);
        }
        i := i + 1;
      }
      assert files[..i] == files;
      ProjectResultsFacts(files);
      r := Some(ProjectResult(processed, fixedCount, issuesTotal, fixesTotal, results));
    }

    /** `get_status`: the language names, the history size, the last five
        history entries and the number of fixers per language. */
    method GetStatus() returns (languages: seq<string>, historyCount: nat, recent: seq<HistoryEntry>,
                                fixers: map<string, nat>)
      ensures languages == seq(|SupportedLanguages|, i requires 0 <= i < |SupportedLanguages| => SupportedLanguages[i].1)
      ensures historyCount == |fixHistory|
      ensures |recent| == Min(5, |fixHistory|) && recent == fixHistory[|fixHistory| - |recent|..]
      ensures fixers == map["python" := |FixersFor("python")|, "javascript" := |FixersFor("javascript")|]
      ensures fixers["python"] == 4 && fixers["javascript"] == 2
    {
      languages := seq(|SupportedLanguages|, i requires 0 <= i < |SupportedLanguages| => SupportedLanguages[i].1);
      historyCount := |fixHistory|;
      recent := if |fixHistory| > 5 then fixHistory[|fixHistory| - 5..] else fixHistory;
      fixers := map["python" := |FixersFor("python")|, "javascript" := |FixersFor("javascript")|];
    }
  }
}
