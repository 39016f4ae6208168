/** The shaping of ESLint output for the in-app console, shared by
    `vite-eslint-plugin.js` and `src/scripts/lint-checker.js`: every message
    becomes an item carrying its file's path, severity-2 items are the
    errors and severity-1 items the warnings. ESLint itself is foreign: its
    results are the input, and so is `path.relative`. */
module LintFormat {
  import opened Wrappers
  import opened Strings
  import Seqs

  /** One ESLint message; `line`, `column` and `ruleId` may be missing. */
  datatype LintMessage = LintMessage(line: Option<int>, column: Option<int>, message: string, ruleId: Option<string>, severity: int)

  /** ESLint's result for one file. */
  datatype FileResult = FileResult(filePath: string, messages: seq<LintMessage>, errorCount: int, warningCount: int)

  /** An item of the console's lists. The error item of a failed run has no
      position in the plugin, so `line` and `column` are optional. */
  datatype Item = Item(filePath: string, line: Option<int>, column: Option<int>, message: string, ruleId: Option<string>, severity: int)

  /** What the console receives. The error report of a failed run carries no
      warning list at all. */
  datatype Report = Report(errors: seq<Item>, warnings: Option<seq<Item>>, errorCount: int, warningCount: int)

  /** JavaScript's `n || 0` on an optional number: missing and 0 both give 0. */
  function OrZero(n: Option<int>): (r: int)
    ensures n.Some? ==> r == n.value
    ensures n.None? ==> r == 0
  {
    n.GetOr(0)
  }

  /** The item for one message of a file whose displayed path is given. */
  function ItemOf(filePath: string, m: LintMessage): (it: Item)
    ensures it.filePath == filePath && it.message == m.message && it.ruleId == m.ruleId && it.severity == m.severity
    ensures it.line == Some(OrZero(m.line)) && it.column == Some(OrZero(m.column))
  {
    Item(filePath, Some(OrZero(m.line)), Some(OrZero(m.column)), m.message, m.ruleId, m.severity)
  }

  predicate IsError(it: Item)
  {
    it.severity == 2
  }

  predicate IsWarning(it: Item)
  {
    it.severity == 1
  }

  /** The items of one file's messages, in message order. */
  function Items(filePath: string, ms: seq<LintMessage>): (items: seq<Item>)
    ensures |items| == |ms|
    ensures forall j :: 0 <= j < |items| ==> items[j] == ItemOf(filePath, ms[j])
  {
    seq(|ms|, j requires 0 <= j < |ms| => ItemOf(filePath, ms[j]))
  }

  /** The items of one file. */
  function ItemsOf(r: FileResult, path: string -> string): seq<Item>
  {
    Items(path(r.filePath), r.messages)
  }

  /** Every message's item, file by file and message by message. */
  function AllItems(results: seq<FileResult>, path: string -> string): seq<Item>
  {
    if results == [] then []
    else AllItems(results[..|results| - 1], path) + ItemsOf(results[|results| - 1], path)
  }

  /** The inner loop of `formatResults` over one file's messages: the file's
      errors and warnings, in order, and their counts. */
  method FormatMessages(filePath: string, ms: seq<LintMessage>) returns (errors: seq<Item>, warnings: seq<Item>, errorCount: nat, warningCount: nat)
    ensures errors == Seqs.Filter(Items(filePath, ms), IsError)
    ensures warnings == Seqs.Filter(Items(filePath, ms), IsWarning)
    ensures errorCount == |errors| && warningCount == |warnings|
  {
    errors, warnings := [], [];
    errorCount, warningCount := 0, 0;
    ghost var items := Items(filePath, ms);
    for j := 0 to |ms|
      invariant errors == Seqs.Filter(items[..j], IsError)
      invariant warnings == Seqs.Filter(items[..j], IsWarning)
      invariant errorCount == |errors| && warningCount == |warnings|
    {
      var item := ItemOf(filePath, ms[j]);
      assert items[..j + 1] == items[..j] + [item];
      FilterSnoc(items[..j], item, IsError);
      FilterSnoc(items[..j], item, IsWarning);
      if ms[j].severity == 2 {
        errors := errors + [item];
        errorCount := errorCount + 1;
      } else if ms[j].severity == 1 {
        warnings := warnings + [item];
        warningCount := warningCount + 1;
      }
    }
    assert items[..|ms|] == items;
  }

  /** `formatResults`, with the path shown for a file given as `path`: one
      pass over the results and their messages, pushing severity-2 items onto
      the errors and severity-1 items onto the warnings and counting each.
      The lists are exactly the errors and the warnings among all items, in
      input order; other severities are dropped; the counts are the lengths. */
  method FormatResults(results: seq<FileResult>, path: string -> string) returns (report: Report)
    ensures report.errors == Seqs.Filter(AllItems(results, path), IsError)
    ensures report.warnings == Some(Seqs.Filter(AllItems(results, path), IsWarning))
    ensures report.errorCount == |report.errors| && report.warningCount == |report.warnings.value|
  {
    var errors, warnings := [], [];
    var errorCount, warningCount := 0, 0;
    for i := 0 to |results|
      invariant errors == Seqs.Filter(AllItems(results[..i], path), IsError)
      invariant warnings == Seqs.Filter(AllItems(results[..i], path), IsWarning)
      invariant errorCount == |errors| && warningCount == |warnings|
    {
      var fileErrors, fileWarnings, fileErrorCount, fileWarningCount := FormatMessages(path(results[i].filePath), results[i].messages);
      ghost var done := AllItems(results[..i], path);
      assert results[..i + 1][..i] == results[..i];
      assert AllItems(results[..i + 1], path) == done + ItemsOf(results[i], path);
      Seqs.FilterAppend(done, ItemsOf(results[i], path), IsError);
      Seqs.FilterAppend(done, ItemsOf(results[i], path), IsWarning);
      errors, warnings := errors + fileErrors, warnings + fileWarnings;
      errorCount, warningCount := errorCount + fileErrorCount, warningCount + fileWarningCount;
    }
    assert results[..|results|] == results;
    report := Report(errors, Some(warnings), errorCount, warningCount);
  }

  /** Filtering a sequence extended by one element. */
  lemma FilterSnoc<T>(s: seq<T>, x: T, p: T -> bool)
    ensures Seqs.Filter(s + [x], p) == Seqs.Filter(s, p) + (if p(x) then [x] else [])
  {
    Seqs.FilterAppend(s, [x], p);
    assert [x][1..] == [];
  }

  /** Every item with severity 1 or 2 lands in exactly one list, and no item
      of another severity lands in either. */
  lemma FormatSplitsBySeverity(results: seq<FileResult>, path: string -> string, it: Item)
    requires it in AllItems(results, path)
    ensures it in Seqs.Filter(AllItems(results, path), IsError) <==> it.severity == 2
    ensures it in Seqs.Filter(AllItems(results, path), IsWarning) <==> it.severity == 1
  {
    var all := AllItems(results, path);
    var errors := Seqs.Filter(all, IsError);
    var warnings := Seqs.Filter(all, IsWarning);
    var i :| 0 <= i < |all| && all[i] == it;
    if it in errors {
      var k :| 0 <= k < |errors| && errors[k] == it;
      assert IsError(errors[k]);
    }
    if it in warnings {
      var k :| 0 <= k < |warnings| && warnings[k] == it;
      assert IsWarning(warnings[k]);
    }
  }

  // ---------------------------------------------------------------------------
  // The two callers
  // ---------------------------------------------------------------------------

  /** The plugin's error message of a failed run. */
  function PluginFailure(message: string): (report: Report)
    ensures |report.errors| == 1 && report.warnings.None? && report.errorCount == 1 && report.warningCount == 0
    ensures report.errors[0] == Item("", None, None, message, None, 2)
  {
    Report([Item("", None, None, message, None, 2)], None, 1, 0)
  }

  /** `runLint` of `vite-eslint-plugin.js`: the formatted results, with paths
      shown relative to the working directory (`relative`, foreign); when
      ESLint throws, one positionless error item carrying its message. */
  method RunLint(outcome: Result<seq<FileResult>, string>, relative: string -> string) returns (report: Report)
    ensures outcome.Failure? ==> report == PluginFailure(outcome.error)
    ensures outcome.Success? ==>
      && report.errors == Seqs.Filter(AllItems(outcome.value, relative), IsError)
      && report.warnings == Some(Seqs.Filter(AllItems(outcome.value, relative), IsWarning))
      && report.errorCount == |report.errors| && report.warningCount == |report.warnings.value|
  {
    match outcome
    case Failure(message) =>
      report := PluginFailure(message);
    case Success(results) =>
      report := FormatResults(results, relative);
  }

  /** `lint-checker.js` shows a path with the first occurrence of the working
      directory and a slash cut out. */
  function CheckerPath(cwd: string): (path: string -> string)
    ensures forall p :: path(p) == RemoveFirst(p, cwd + "/")
  {
    p => RemoveFirst(p, cwd + "/")
  }

  /** A path under the working directory is shown relative to it. */
  lemma CheckerPathUnderCwd(cwd: string, rest: string)
    ensures CheckerPath(cwd)(cwd + "/" + rest) == rest
  {
    var t := cwd + "/";
    var s := t + rest;
    assert s[..|t|] == t;
    assert s[|t|..] == rest;
  }

  /** The checker's error message of a failed run: one error item at line 0,
      column 0. */
  function CheckerFailure(message: string): (report: Report)
    ensures |report.errors| == 1 && report.warnings.None? && report.errorCount == 1 && report.warningCount == 0
    ensures report.errors[0] == Item("", Some(0), Some(0), "Error running ESLint: " + message, None, 2)
  {
    Report([Item("", Some(0), Some(0), "Error running ESLint: " + message, None, 2)], None, 1, 0)
  }

  /** `runLintCheck` of `lint-checker.js`. */
  method RunLintCheck(outcome: Result<seq<FileResult>, string>, cwd: string) returns (report: Report)
    ensures outcome.Failure? ==> report == CheckerFailure(outcome.error)
    ensures outcome.Success? ==>
      && report.errors == Seqs.Filter(AllItems(outcome.value, CheckerPath(cwd)), IsError)
      && report.warnings == Some(Seqs.Filter(AllItems(outcome.value, CheckerPath(cwd)), IsWarning))
      && report.errorCount == |report.errors| && report.warningCount == |report.warnings.value|
  {
    match outcome
    case Failure(message) =>
      report := CheckerFailure(message);
    case Success(results) =>
      report := FormatResults(results, CheckerPath(cwd));
  }
}
