/** The report of `analyze-lint-errors.js`: ESLint's messages tallied per
    rule (count, severity, first examples), the files that have problems,
    the totals, and the two "top ten" lists. ESLint, `path.relative`, the
    console and the report file are foreign: the results and the path
    function are inputs and the report is the output. */
module LintAnalysis {
  import opened Wrappers
  import Seqs
  import LintFormat

  type LintMessage = LintFormat.LintMessage
  type FileResult = LintFormat.FileResult

  // ---------------------------------------------------------------------------
  // Insertion-ordered tables
  // ---------------------------------------------------------------------------

  /** A JavaScript object with string keys: its entries in insertion order. */
  type Table<V> = seq<(string, V)>

  /** The position of `key`. */
  function Find<V>(t: Table<V>, key: string): (r: Option<nat>)
    ensures r.Some? ==> r.value < |t| && t[r.value].0 == key
    ensures r.Some? ==> forall j :: 0 <= j < r.value ==> t[j].0 != key
    ensures r.None? ==> forall j :: 0 <= j < |t| ==> t[j].0 != key
  {
    if t == [] then None
    else if t[0].0 == key then Some(0)
    else match Find(t[1..], key)
      case None => None
      case Some(i) => Some(i + 1)
  }

  /** `t[key]`, or nothing. */
  function Lookup<V>(t: Table<V>, key: string): Option<V>
  {
    match Find(t, key)
    case None => None
    case Some(i) => Some(t[i].1)
  }

  /** The first entry under `key` is at `i`. */
  lemma FindFirst<V>(t: Table<V>, key: string, i: nat)
    requires i < |t| && t[i].0 == key
    requires forall j :: 0 <= j < i ==> t[j].0 != key
    ensures Find(t, key) == Some(i)
  {
  }

  lemma FindAbsent<V>(t: Table<V>, key: string)
    requires forall j :: 0 <= j < |t| ==> t[j].0 != key
    ensures Find(t, key) == None
  {
  }

  /** `t[key] = v`: an existing key keeps its place, a new one goes last. */
  function Upsert<V>(t: Table<V>, key: string, v: V): (r: Table<V>)
    ensures |r| == if Find(t, key).Some? then |t| else |t| + 1
    ensures forall j :: 0 <= j < |t| && t[j].0 != key ==> r[j] == t[j]
    ensures Find(t, key).Some? ==> r[Find(t, key).value] == (key, v)
    ensures Find(t, key).None? ==> r[|t|] == (key, v)
  {
    match Find(t, key)
    case None => t + [(key, v)]
    case Some(i) => t[i := (key, v)]
  }

  /** After `t[key] = v`, looking up `key` gives `v` and every other key
      gives what it gave before. */
  lemma UpsertLookup<V>(t: Table<V>, key: string, v: V, other: string)
    ensures Lookup(Upsert(t, key, v), key) == Some(v)
    ensures other != key ==> Lookup(Upsert(t, key, v), other) == Lookup(t, other)
  {
    var r := Upsert(t, key, v);
    match Find(t, key)
    case None =>
      FindFirst(r, key, |t|);
      if other != key {
        match Find(t, other)
        case None => FindAbsent(r, other);
        case Some(k) => FindFirst(r, other, k);
      }
    case Some(i) =>
      FindFirst(r, key, i);
      if other != key {
        match Find(t, other)
        case None => FindAbsent(r, other);
        case Some(k) => FindFirst(r, other, k);
      }
  }

  ghost predicate DistinctKeys<V>(t: Table<V>)
  {
    forall i, j :: 0 <= i < j < |t| ==> t[i].0 != t[j].0
  }

  ghost function KeySet<V>(t: Table<V>): set<string>
  {
    set i | 0 <= i < |t| :: t[i].0
  }

  lemma UpsertKeys<V>(t: Table<V>, key: string, v: V)
    requires DistinctKeys(t)
    ensures DistinctKeys(Upsert(t, key, v))
    ensures KeySet(Upsert(t, key, v)) == KeySet(t) + {key}
  {
    var r := Upsert(t, key, v);
    match Find(t, key)
    case Some(i) =>
      assert forall j :: 0 <= j < |t| ==> r[j].0 == t[j].0;
      assert key in KeySet(t);
    case None =>
      assert forall j :: 0 <= j < |t| ==> r[j] == t[j];
      assert r[|t|].0 == key;
  }

  /** A key is present exactly when it can be looked up. */
  lemma LookupKeySet<V>(t: Table<V>, key: string)
    ensures Lookup(t, key).Some? <==> key in KeySet(t)
  {
    if key in KeySet(t) {
      var i :| 0 <= i < |t| && t[i].0 == key;
    }
  }

  /** With distinct keys there are as many entries as keys. */
  lemma {:induction false} DistinctKeyCount<V>(t: Table<V>)
    requires DistinctKeys(t)
    ensures |KeySet(t)| == |t|
  {
    if t != [] {
      var prefix := t[..|t| - 1];
      DistinctKeyCount(prefix);
      assert KeySet(t) == KeySet(prefix) + {t[|t| - 1].0};
      assert t[|t| - 1].0 !in KeySet(prefix);
    }
  }

  // ---------------------------------------------------------------------------
  // The messages, file by file
  // ---------------------------------------------------------------------------

  /** One message with the displayed path of its file. */
  datatype Occurrence = Occurrence(filePath: string, message: LintMessage)

  function OccurrencesOf(r: FileResult, path: string -> string): (os: seq<Occurrence>)
    ensures |os| == |r.messages|
    ensures forall j :: 0 <= j < |os| ==> os[j] == Occurrence(path(r.filePath), r.messages[j])
  {
    seq(|r.messages|, j requires 0 <= j < |r.messages| => Occurrence(path(r.filePath), r.messages[j]))
  }

  /** Every message of every file, in the order of the two loops. */
  function Occurrences(results: seq<FileResult>, path: string -> string): seq<Occurrence>
  {
    if results == [] then []
    else Occurrences(results[..|results| - 1], path) + OccurrencesOf(results[|results| - 1], path)
  }

  /** `message.ruleId || 'parsing-error'`: a missing or empty rule id is a
      parsing error. */
  function RuleOf(m: LintMessage): (rule: string)
    ensures m.ruleId.Some? && m.ruleId.value != "" ==> rule == m.ruleId.value
    ensures m.ruleId.None? || m.ruleId.value == "" ==> rule == "parsing-error"
  {
    if m.ruleId.Some? && m.ruleId.value != "" then m.ruleId.value else "parsing-error"
  }

  // ---------------------------------------------------------------------------
  // errorsByRule
  // ---------------------------------------------------------------------------

  datatype Example = Example(message: string, filePath: string, line: Option<int>, column: Option<int>)

  /** The per-rule record. */
  datatype RuleStats = RuleStats(count: nat, severity: int, examples: seq<Example>)

  function ExampleOf(o: Occurrence): Example
  {
    Example(o.message.message, o.filePath, o.message.line, o.message.column)
  }

  function ExamplesOf(os: seq<Occurrence>): (es: seq<Example>)
    ensures |es| == |os|
    ensures forall i :: 0 <= i < |es| ==> es[i] == ExampleOf(os[i])
  {
    seq(|os|, i requires 0 <= i < |os| => ExampleOf(os[i]))
  }

  /** One more message for a rule: the count goes up and the message becomes
      an example while there are fewer than three. */
  function Push(st: RuleStats, o: Occurrence): (r: RuleStats)
    ensures r.count == st.count + 1 && r.severity == st.severity
    ensures |st.examples| < 3 ==> r.examples == st.examples + [ExampleOf(o)]
    ensures |st.examples| >= 3 ==> r.examples == st.examples
  {
    RuleStats(st.count + 1, st.severity, if |st.examples| < 3 then st.examples + [ExampleOf(o)] else st.examples)
  }

  /** The body of the inner loop for one message: a rule seen for the first
      time starts a record with that message's severity. */
  function Bump(t: Table<RuleStats>, o: Occurrence): Table<RuleStats>
  {
    var rule := RuleOf(o.message);
    var st := match Lookup(t, rule)
      case None => RuleStats(0, o.message.severity, [])
      case Some(s) => s;
    Upsert(t, rule, Push(st, o))
  }

  /** `errorsByRule` after the given messages. */
  function Tally(os: seq<Occurrence>): (t: Table<RuleStats>)
    ensures |t| <= |os|
  {
    if os == [] then [] else Bump(Tally(os[..|os| - 1]), os[|os| - 1])
  }

  /** The messages reported under `rule`, in order. */
  function Matches(os: seq<Occurrence>, rule: string): seq<Occurrence>
  {
    if os == [] then []
    else Matches(os[..|os| - 1], rule) + (if RuleOf(os[|os| - 1].message) == rule then [os[|os| - 1]] else [])
  }

  /** What the record of a rule should hold: how many of its messages there
      are, the severity of the first, and the first three as examples. */
  function Expected(os: seq<Occurrence>, rule: string): RuleStats
  {
    var m := Matches(os, rule);
    RuleStats(|m|, if m == [] then 0 else m[0].message.severity, ExamplesOf(if |m| <= 3 then m else m[..3]))
  }

  /** The rules that occur. */
  ghost function RuleSet(os: seq<Occurrence>): set<string>
  {
    set k | 0 <= k < |os| :: RuleOf(os[k].message)
  }

  lemma ExpectedPush(os: seq<Occurrence>, o: Occurrence)
    ensures var rule := RuleOf(o.message);
      var base := if Matches(os, rule) == [] then RuleStats(0, o.message.severity, []) else Expected(os, rule);
      Expected(os + [o], rule) == Push(base, o)
  {
    var rule := RuleOf(o.message);
    var all := os + [o];
    assert all[..|all| - 1] == os;
    var m := Matches(os, rule);
    assert Matches(all, rule) == m + [o];
    if |m| < 3 {
      assert ExamplesOf(m + [o]) == ExamplesOf(m) + [ExampleOf(o)];
    } else {
      assert (m + [o])[..3] == m[..3];
    }
  }

  /** The record `Bump` writes for a message's rule. */
  function Bumped(t: Table<RuleStats>, o: Occurrence): RuleStats
  {
    match Lookup(t, RuleOf(o.message))
    case None => Push(RuleStats(0, o.message.severity, []), o)
    case Some(s) => Push(s, o)
  }

  lemma BumpIsUpsert(t: Table<RuleStats>, o: Occurrence)
    ensures Bump(t, o) == Upsert(t, RuleOf(o.message), Bumped(t, o))
  {
  }

  /** Every rule's record is what the messages reported under it say, and
      rules that never occur have none. */
  lemma {:induction false} TallyLookup(os: seq<Occurrence>, rule: string)
    ensures Lookup(Tally(os), rule) == if Matches(os, rule) == [] then None else Some(Expected(os, rule))
  {
    if os != [] {
      var prefix, o := os[..|os| - 1], os[|os| - 1];
      var r := RuleOf(o.message);
      var t := Tally(prefix);
      BumpIsUpsert(t, o);
      UpsertLookup(t, r, Bumped(t, o), rule);
      if rule == r {
        TallyLookup(prefix, r);
        ExpectedPush(prefix, o);
      } else {
        TallyLookup(prefix, rule);
        assert Matches(os, rule) == Matches(prefix, rule);
      }
    }
  }

  /** No rule has two records. */
  lemma {:induction false} TallyDistinct(os: seq<Occurrence>)
    ensures DistinctKeys(Tally(os))
  {
    if os != [] {
      var prefix, o := os[..|os| - 1], os[|os| - 1];
      TallyDistinct(prefix);
      BumpIsUpsert(Tally(prefix), o);
      UpsertKeys(Tally(prefix), RuleOf(o.message), Bumped(Tally(prefix), o));
    }
  }

  /** A rule occurs exactly when some message is reported under it. */
  lemma {:induction false} MatchesNonEmpty(os: seq<Occurrence>, rule: string)
    ensures Matches(os, rule) != [] <==> rule in RuleSet(os)
  {
    if os != [] {
      var prefix := os[..|os| - 1];
      MatchesNonEmpty(prefix, rule);
      assert forall k :: 0 <= k < |prefix| ==> prefix[k] == os[k];
      if rule in RuleSet(os) && RuleOf(os[|os| - 1].message) != rule {
        var k :| 0 <= k < |os| && RuleOf(os[k].message) == rule;
        assert RuleOf(prefix[k].message) == rule;
      }
    }
  }

  /** There is one record per distinct rule. */
  lemma RuleCountIsDistinctRules(os: seq<Occurrence>)
    ensures |Tally(os)| == |RuleSet(os)|
  {
    var t := Tally(os);
    forall rule ensures rule in KeySet(t) <==> rule in RuleSet(os) {
      TallyLookup(os, rule);
      LookupKeySet(t, rule);
      MatchesNonEmpty(os, rule);
    }
    assert KeySet(t) == RuleSet(os);
    TallyDistinct(os);
    DistinctKeyCount(t);
  }

  /** The sum of the records' counts. */
  function Total(t: Table<RuleStats>): nat
  {
    if t == [] then 0 else Total(t[..|t| - 1]) + t[|t| - 1].1.count
  }

  lemma {:induction false} TotalUpdate(t: Table<RuleStats>, i: nat, x: (string, RuleStats))
    requires i < |t|
    ensures Total(t[i := x]) + t[i].1.count == Total(t) + x.1.count
  {
    var u := t[i := x];
    assert u[..|u| - 1] == if i == |t| - 1 then t[..|t| - 1] else t[..|t| - 1][i := x];
    if i < |t| - 1 {
      TotalUpdate(t[..|t| - 1], i, x);
    }
  }

  /** Every message is counted under exactly one rule. */
  lemma {:induction false} CountsAddUp(os: seq<Occurrence>)
    ensures Total(Tally(os)) == |os|
  {
    if os != [] {
      var prefix, o := os[..|os| - 1], os[|os| - 1];
      CountsAddUp(prefix);
      var t := Tally(prefix);
      var rule := RuleOf(o.message);
      match Find(t, rule)
      case None =>
        assert Tally(os) == t + [(rule, Push(RuleStats(0, o.message.severity, []), o))];
        assert (t + [(rule, Push(RuleStats(0, o.message.severity, []), o))])[..|t|] == t;
      case Some(i) =>
        TotalUpdate(t, i, (rule, Push(t[i].1, o)));
    }
  }

  // ---------------------------------------------------------------------------
  // fileErrors
  // ---------------------------------------------------------------------------

  datatype FileEntry = FileEntry(errorCount: int, warningCount: int, messages: seq<LintMessage>)

  /** A file with at least one error or warning. */
  predicate Flagged(r: FileResult)
  {
    r.errorCount > 0 || r.warningCount > 0
  }

  function EntryOf(r: FileResult): FileEntry
  {
    FileEntry(r.errorCount, r.warningCount, r.messages)
  }

  /** `fileErrors` after the given results: a flagged file's entry is set
      under its displayed path. */
  function FileTable(results: seq<FileResult>, path: string -> string): (t: Table<FileEntry>)
    ensures |t| <= |results|
  {
    if results == [] then []
    else
      var prev, r := FileTable(results[..|results| - 1], path), results[|results| - 1];
      if Flagged(r) then Upsert(prev, path(r.filePath), EntryOf(r)) else prev
  }

  /** The last flagged result shown under `file`. */
  function LastFlagged(results: seq<FileResult>, path: string -> string, file: string): Option<FileResult>
  {
    if results == [] then None
    else if Flagged(results[|results| - 1]) && path(results[|results| - 1].filePath) == file then Some(results[|results| - 1])
    else LastFlagged(results[..|results| - 1], path, file)
  }

  /** A path has an entry exactly when some flagged file is shown under it,
      and the entry is the last such file's; unflagged files never appear. */
  lemma {:induction false} FileTableLookup(results: seq<FileResult>, path: string -> string, file: string)
    ensures Lookup(FileTable(results, path), file) == match LastFlagged(results, path, file)
      case None => None
      case Some(r) => Some(EntryOf(r))
  {
    if results != [] {
      var prefix, r := results[..|results| - 1], results[|results| - 1];
      FileTableLookup(prefix, path, file);
      if Flagged(r) {
        UpsertLookup(FileTable(prefix, path), path(r.filePath), EntryOf(r), file);
      }
    }
  }

  /** No path has two entries. */
  lemma {:induction false} FileTableDistinct(results: seq<FileResult>, path: string -> string)
    ensures DistinctKeys(FileTable(results, path))
  {
    if results != [] {
      var prefix, r := results[..|results| - 1], results[|results| - 1];
      FileTableDistinct(prefix, path);
      if Flagged(r) {
        UpsertKeys(FileTable(prefix, path), path(r.filePath), EntryOf(r));
      }
    }
  }

  // ---------------------------------------------------------------------------
  // The report
  // ---------------------------------------------------------------------------

  datatype Summary = Summary(totalErrors: nat, totalWarnings: nat, fileCount: nat, totalFiles: nat, ruleCount: nat)

  datatype RuleRow = RuleRow(rule: string, count: nat, severity: int, examples: seq<Example>)

  datatype FileRow = FileRow(file: string, errorCount: int)

  datatype Analysis = Analysis(summary: Summary, mostCommonRules: seq<RuleRow>, filesByErrorCount: seq<FileRow>)

  function RuleRowOf(e: (string, RuleStats)): RuleRow
  {
    RuleRow(e.0, e.1.count, e.1.severity, e.1.examples)
  }

  function FileRowOf(e: (string, FileEntry)): FileRow
  {
    FileRow(e.0, e.1.errorCount)
  }

  function RuleRows(top: seq<(string, RuleStats)>): (rows: seq<RuleRow>)
    ensures |rows| == |top|
    ensures forall i :: 0 <= i < |rows| ==> rows[i] == RuleRowOf(top[i])
  {
    seq(|top|, i requires 0 <= i < |top| => RuleRowOf(top[i]))
  }

  function FileRows(top: seq<(string, FileEntry)>): (rows: seq<FileRow>)
    ensures |rows| == |top|
    ensures forall i :: 0 <= i < |rows| ==> rows[i] == FileRowOf(top[i])
  {
    seq(|top|, i requires 0 <= i < |top| => FileRowOf(top[i]))
  }

  function RuleKey(e: (string, RuleStats)): real
  {
    e.1.count as real
  }

  function FileKey(e: (string, FileEntry)): real
  {
    e.1.errorCount as real
  }

  predicate IsErrorMessage(o: Occurrence)
  {
    o.message.severity == 2
  }

  predicate IsWarningMessage(o: Occurrence)
  {
    o.message.severity == 1
  }

  /** The ten rules with the most messages, ties in first-seen order. */
  function TopRules(results: seq<FileResult>, path: string -> string): seq<(string, RuleStats)>
  {
    Seqs.TopByKey(Tally(Occurrences(results, path)), RuleKey, 10)
  }

  /** The ten flagged files with the most errors, ties in first-seen order. */
  function TopFiles(results: seq<FileResult>, path: string -> string): seq<(string, FileEntry)>
  {
    Seqs.TopByKey(FileTable(results, path), FileKey, 10)
  }

  /** `analyzeErrors` up to the report: the totals, the number of flagged
      paths, of results and of rules, the ten rules with the most messages
      and the ten flagged files with the most errors. */
  function Analyze(results: seq<FileResult>, path: string -> string): (a: Analysis)
    ensures a.summary.totalFiles == |results|
    ensures a.summary.totalErrors + a.summary.totalWarnings <= |Occurrences(results, path)|
    ensures a.summary.fileCount <= a.summary.totalFiles
    ensures |a.mostCommonRules| == if a.summary.ruleCount < 10 then a.summary.ruleCount else 10
    ensures |a.filesByErrorCount| == if a.summary.fileCount < 10 then a.summary.fileCount else 10
    ensures a.mostCommonRules == RuleRows(TopRules(results, path))
    ensures a.filesByErrorCount == FileRows(TopFiles(results, path))
  {
    var os := Occurrences(results, path);
    var rules := Tally(os);
    var files := FileTable(results, path);
    Seqs.CountDisjoint(os, IsErrorMessage, IsWarningMessage);
    Analysis(
      Summary(Seqs.Count(os, IsErrorMessage), Seqs.Count(os, IsWarningMessage), |files|, |results|, |rules|),
      RuleRows(TopRules(results, path)),
      FileRows(TopFiles(results, path)))
  }

  /** The report's rule count is the number of distinct rules, and its rule
      counts, over all rules, add up to the number of messages. */
  lemma AnalysisCounts(results: seq<FileResult>, path: string -> string)
    ensures Analyze(results, path).summary.ruleCount == |RuleSet(Occurrences(results, path))|
    ensures Total(Tally(Occurrences(results, path))) == |Occurrences(results, path)|
  {
    RuleCountIsDistinctRules(Occurrences(results, path));
    CountsAddUp(Occurrences(results, path));
  }

  /** Both lists run from the highest count down. */
  lemma ListsRanked(results: seq<FileResult>, path: string -> string)
    ensures var a := Analyze(results, path);
      forall i, j :: 0 <= i < j < |a.mostCommonRules| ==> a.mostCommonRules[i].count >= a.mostCommonRules[j].count
    ensures var a := Analyze(results, path);
      forall i, j :: 0 <= i < j < |a.filesByErrorCount| ==> a.filesByErrorCount[i].errorCount >= a.filesByErrorCount[j].errorCount
  {
    var rules, files := TopRules(results, path), TopFiles(results, path);
    assert forall i, j :: 0 <= i < j < |rules| ==> RuleKey(rules[i]) >= RuleKey(rules[j]);
    assert forall i, j :: 0 <= i < j < |files| ==> FileKey(files[i]) >= FileKey(files[j]);
  }

  /** A rule left out of the top ten has no more messages than any rule in it. */
  lemma LeftOutRuleRanksLower(results: seq<FileResult>, path: string -> string, rule: string, st: RuleStats)
    requires (rule, st) in Tally(Occurrences(results, path))
    requires (rule, st) !in TopRules(results, path)
    ensures forall i :: 0 <= i < |TopRules(results, path)| ==> TopRules(results, path)[i].1.count >= st.count
  {
    Seqs.TopRanked(Tally(Occurrences(results, path)), RuleKey, 10, (rule, st));
  }
}
