/** The lint status service of `src/services/lintService.js`: the current
    errors, warnings and status, the time of the last run, and the status
    subscribers. Subscribers are opaque callbacks compared by identity; the
    lint endpoint's answer and the clock are parameters; the messages the
    service hands to the error console are returned. */
module LintStatus {
  import opened Wrappers
  import opened Strings
  import Seqs
  import ErrorLog
  import LintFormat

  type Item = LintFormat.Item

  /** `lintStatus`. */
  datatype Status = Unknown | Running | Pass | Fail | Failed

  /** A status subscriber, compared by identity. */
  type Subscriber = nat

  datatype Service = Service(errors: seq<Item>, warnings: seq<Item>, status: Status, lastRunTime: Option<string>, subscribers: seq<Subscriber>)

  /** The constructed service. */
  const Initial := Service([], [], Unknown, None, [])

  /** A result as the service receives it: either list may be missing. */
  datatype Received = Received(errors: Option<seq<Item>>, warnings: Option<seq<Item>>)

  /** A report of the lint formatting, as received. */
  function FromReport(r: LintFormat.Report): (x: Received)
    ensures x.errors == Some(r.errors) && x.warnings == r.warnings
  {
    Received(Some(r.errors), r.warnings)
  }

  /** `processlintResults`: a missing result makes the status the error
      status and keeps the lists; otherwise the lists are taken (missing ones
      as empty) and the status is `fail` exactly when there are errors. One
      console message says what was found. */
  function Process(s: Service, result: Option<Received>): (r: (Service, seq<ErrorLog.Call>))
    ensures result.None? ==> r == (s.(status := Failed), [])
    ensures result.Some? ==>
      && r.0.errors == result.value.errors.GetOr([])
      && r.0.warnings == result.value.warnings.GetOr([])
      && (r.0.status == Fail <==> r.0.errors != [])
      && (r.0.status == Pass <==> r.0.errors == [])
      && r.0.lastRunTime == s.lastRunTime && r.0.subscribers == s.subscribers
      && |r.1| == 1
    ensures result.Some? && r.0.errors != [] ==> r.1[0].level == ErrorLog.Warn
    ensures result.Some? && r.0.errors == [] && r.0.warnings != [] ==> r.1[0].level == ErrorLog.Info
    ensures result.Some? && r.0.errors == [] && r.0.warnings == [] ==> r.1[0].level == ErrorLog.Debug
  {
    match result
    case None => (s.(status := Failed), [])
    case Some(x) =>
      var errors := x.errors.GetOr([]);
      var warnings := x.warnings.GetOr([]);
      var next := s.(errors := errors, warnings := warnings, status := if |errors| > 0 then Fail else Pass);
      var log :=
        if |errors| > 0 then ErrorLog.Call(ErrorLog.Warn, "ESLint found " + NatToString(|errors|) + " errors")
        else if |warnings| > 0 then ErrorLog.Call(ErrorLog.Info, "ESLint found " + NatToString(|warnings|) + " warnings")
        else ErrorLog.Call(ErrorLog.Debug, "ESLint check passed with no issues");
      (next, [log])
  }

  /** What every subscriber is given. */
  datatype Snapshot = Snapshot(status: Status, errors: seq<Item>, warnings: seq<Item>, lastRunTime: Option<string>)

  function SnapshotOf(s: Service): Snapshot
  {
    Snapshot(s.status, s.errors, s.warnings, s.lastRunTime)
  }

  /** `notifySubscribers`: every subscriber, in subscription order, is called
      with the same snapshot of the current state. A subscriber that throws
      is caught and logged, so the others are still called. */
  function Notify(s: Service): (calls: seq<(Subscriber, Snapshot)>)
    ensures |calls| == |s.subscribers|
    ensures forall i :: 0 <= i < |calls| ==> calls[i] == (s.subscribers[i], SnapshotOf(s))
  {
    seq(|s.subscribers|, i requires 0 <= i < |s.subscribers| => (s.subscribers[i], SnapshotOf(s)))
  }

  /** `subscribe`: the callback is added at the end. */
  function Subscribe(s: Service, callback: Subscriber): (r: Service)
    ensures r.subscribers == s.subscribers + [callback]
    ensures r.(subscribers := s.subscribers) == s
  {
    s.(subscribers := s.subscribers + [callback])
  }

  /** The function `subscribe` returns: every registration of the callback
      is removed, the others keep their order. */
  function Unsubscribe(s: Service, callback: Subscriber): (r: Service)
    ensures callback !in r.subscribers
    ensures r.subscribers == Seqs.Filter(s.subscribers, cb => cb != callback)
    ensures r.(subscribers := s.subscribers) == s
  {
    var kept := Seqs.Filter(s.subscribers, cb => cb != callback);
    assert forall i :: 0 <= i < |kept| ==> kept[i] != callback;
    s.(subscribers := kept)
  }

  /** Subscribing a new callback and calling the returned function restores
      the subscribers. */
  lemma SubscribeThenUnsubscribe(s: Service, callback: Subscriber)
    requires callback !in s.subscribers
    ensures Unsubscribe(Subscribe(s, callback), callback) == s
  {
    var p := (cb: Subscriber) => cb != callback;
    Seqs.FilterAppend(s.subscribers, [callback], p);
    Seqs.FilterKeepsAll(s.subscribers, p);
    assert Seqs.Filter([callback], p) == [];
    assert s.subscribers + [] == s.subscribers;
  }

  /** After unsubscribing, a notification no longer reaches the callback. */
  lemma UnsubscribedIsNotCalled(s: Service, callback: Subscriber)
    ensures forall i :: 0 <= i < |Notify(Unsubscribe(s, callback))| ==> Notify(Unsubscribe(s, callback))[i].0 != callback
  {
  }

  /** `setResults`: the result is processed, the clock stamped, and every
      subscriber notified of the new state. */
  function SetResults(s: Service, result: Option<Received>, now: string): (r: (Service, seq<(Subscriber, Snapshot)>, seq<ErrorLog.Call>))
    ensures r.0 == Process(s, result).0.(lastRunTime := Some(now))
    ensures r.1 == Notify(r.0) && r.2 == Process(s, result).1
    ensures forall i :: 0 <= i < |r.1| ==> r.1[i].1.lastRunTime == Some(now)
  {
    var (processed, logs) := Process(s, result);
    var next := processed.(lastRunTime := Some(now));
    (next, Notify(next), logs)
  }

  // ---------------------------------------------------------------------------
  // runLintCheck
  // ---------------------------------------------------------------------------

  /** What the lint endpoint request comes to. */
  datatype Fetched =
    | Unreachable(message: string)
    | HttpError(status: nat, body: string)
    | BadJson(message: string)
    | Parsed(result: Option<Received>)

  /** What `runLintCheck` resolves to. */
  datatype Outcome = Outcome(success: bool, message: Option<string>, result: Option<Option<Received>>)

  const ProductionMessage := "Lint checks only available in development mode"

  /** The message of the error a failed request throws. */
  function FailureMessage(f: Fetched): string
  {
    match f
    case Unreachable(m) => m
    case HttpError(code, body) => "Server responded with " + NatToString(code) + ": " + (if |body| <= 100 then body else body[..100]) + "..."
    case BadJson(m) => "Failed to parse response as JSON: " + m
    case Parsed(_) => ""
  }

  /** `runLintCheck`. In production it answers at once and changes nothing.
      Otherwise the status becomes `running` and subscribers are told; a
      parsed answer is processed (a parsed `null` too, which sets the error
      status yet counts as success); any other outcome sets the error status
      and empties both lists. Either way the clock is stamped and subscribers
      are told again. */
  function RunLintCheck(s: Service, production: bool, fetched: Fetched, now: string): (r: (Service, Outcome, seq<(Subscriber, Snapshot)>, seq<ErrorLog.Call>))
    ensures production ==> r == (s, Outcome(false, Some(ProductionMessage), None), [], [])
    ensures !production ==>
      var running := s.(status := Running);
      && |r.2| == 2 * |s.subscribers|
      && r.2[..|s.subscribers|] == Notify(running)
      && r.2[|s.subscribers|..] == Notify(r.0)
      && r.0.lastRunTime == Some(now) && r.0.subscribers == s.subscribers
    ensures !production && fetched.Parsed? ==>
      r.0 == Process(s.(status := Running), fetched.result).0.(lastRunTime := Some(now))
      && r.1 == Outcome(true, None, Some(fetched.result))
      && r.3 == Process(s.(status := Running), fetched.result).1
    ensures !production && !fetched.Parsed? ==>
      && r.0.status == Failed && r.0.errors == [] && r.0.warnings == []
      && r.1 == Outcome(false, Some(FailureMessage(fetched)), None)
      && r.3 == [ErrorLog.Call(ErrorLog.Error, "Lint check failed")]
  {
    if production then (s, Outcome(false, Some(ProductionMessage), None), [], [])
    else
      var running := s.(status := Running);
      var first := Notify(running);
      var (settled, outcome, logs) :=
        match fetched
        case Parsed(result) =>
          var (processed, logs) := Process(running, result);
          (processed, Outcome(true, None, Some(result)), logs)
        case _ =>
          (running.(status := Failed, errors := [], warnings := []),
           Outcome(false, Some(FailureMessage(fetched)), None),
           [ErrorLog.Call(ErrorLog.Error, "Lint check failed")]);
      var next := settled.(lastRunTime := Some(now));
      var second := Notify(next);
      assert (first + second)[..|s.subscribers|] == first;
      assert (first + second)[|s.subscribers|..] == second;
      (next, outcome, first + second, logs)
  }

  /** A run that reaches the linter and gets a report back ends in `pass` or
      `fail` according to its errors, and both lists are the report's. */
  lemma RunWithReport(s: Service, report: LintFormat.Report, now: string)
    ensures var (r, outcome, _, _) := RunLintCheck(s, false, Parsed(Some(FromReport(report))), now);
      && outcome.success
      && r.errors == report.errors && r.warnings == report.warnings.GetOr([])
      && (r.status == Fail <==> report.errors != [])
      && (r.status == Pass <==> report.errors == [])
  {
  }
}
