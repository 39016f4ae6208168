/** The in-app error console of `src/services/errorLogger.js`: a
    newest-first buffer of at most 100 entries, gated by an enabled flag and
    a minimum level read from the environment, plus the panel's visibility
    flag and level filter. Log ids, clock readings and metadata are
    parameters or left out. */
module ErrorLog {
  import opened Wrappers
  import opened Strings
  import Seqs

  /** The four levels of `LOG_LEVEL`. */
  datatype Level = Debug | Info | Warn | Error {
    /** The level's numeric value. */
    function Value(): nat
    {
      match this
      case Debug => 0
      case Info => 1
      case Warn => 2
      case Error => 3
    }

    /** The name `debug`, `info`, `warn` and `error` record entries under. */
    function Tag(): string
    {
      match this
      case Debug => "DEBUG"
      case Info => "INFO"
      case Warn => "WARN"
      case Error => "ERROR"
    }

    /** The key of `getLevelValue`'s table. */
    function Name(): string
    {
      match this
      case Debug => "debug"
      case Info => "info"
      case Warn => "warn"
      case Error => "error"
    }
  }

  /** `maxLogs`. */
  const MaxLogs: nat := 100

  /** The filter value that shows every entry. */
  const All := "all"

  /** `getLevelValue`: the value of the level whose name the lowercased
      argument is; an unknown name, or none at all, is worth `DEBUG` (through
      `|| DEBUG`, which also catches `debug`'s own value 0). */
  function LevelValue(levelString: Option<string>): (v: nat)
    ensures v <= Error.Value()
  {
    if levelString.None? then Debug.Value()
    else
      var name := Lower(levelString.value);
      if name == Info.Name() then Info.Value()
      else if name == Warn.Name() then Warn.Value()
      else if name == Error.Name() then Error.Value()
      else Debug.Value()
  }

  /** A name that lowercases to a level's name is worth that level. */
  lemma LevelValueOfName(s: string, level: Level)
    requires Lower(s) == level.Name()
    ensures LevelValue(Some(s)) == level.Value()
  {
  }

  /** Any other name, and no name, is worth `DEBUG`. */
  lemma UnknownIsDebug(s: Option<string>)
    requires s.Some? ==> forall level: Level :: Lower(s.value) != level.Name()
    ensures LevelValue(s) == Debug.Value()
  {
    if s.Some? {
      assert Lower(s.value) != Info.Name() && Lower(s.value) != Warn.Name() && Lower(s.value) != Error.Name();
    }
  }

  /** Distinct levels have distinct values. */
  lemma ValuesDistinct(a: Level, b: Level)
    ensures a.Value() == b.Value() <==> a == b
  {
  }

  lemma LowerEach(s: string, t: string)
    requires |s| == |t| && forall i :: 0 <= i < |s| ==> LowerChar(s[i]) == t[i]
    ensures Lower(s) == t
  {
  }

  lemma LowerDebug() ensures Lower("DEBUG") == "debug" && Lower("debug") == "debug" { LowerEach("DEBUG", "debug"); LowerEach("debug", "debug"); }
  lemma LowerInfo() ensures Lower("INFO") == "info" && Lower("info") == "info" { LowerEach("INFO", "info"); LowerEach("info", "info"); }
  lemma LowerWarn() ensures Lower("WARN") == "warn" && Lower("warn") == "warn" { LowerEach("WARN", "warn"); LowerEach("warn", "warn"); }
  lemma LowerError() ensures Lower("ERROR") == "error" && Lower("error") == "error" { LowerEach("ERROR", "error"); LowerEach("error", "error"); }

  /** A level's tag and name both lowercase to its name. */
  lemma TagLower(level: Level)
    ensures Lower(level.Tag()) == level.Name() && Lower(level.Name()) == level.Name()
  {
    match level
    case Debug => LowerDebug();
    case Info => LowerInfo();
    case Warn => LowerWarn();
    case Error => LowerError();
  }

  /** The configuration read from the environment once, at load time. */
  datatype Config = Config(enabled: bool, minLevel: nat)

  /** `isEnabled` is set only by the exact text "true"; `configLevel` reads
      the level name, "debug" when it is missing or empty. */
  function Configure(enabledFlag: Option<string>, levelName: Option<string>): (c: Config)
    ensures c.enabled <==> enabledFlag == Some("true")
    ensures c.minLevel == LevelValue(levelName)
  {
    var name := if levelName.Some? && levelName.value != "" then levelName.value else "debug";
    LowerDebug();
    Config(enabledFlag == Some("true"), LevelValue(Some(name)))
  }

  /** A log entry. `level` is the level's name as the caller passed it
      ("DEBUG", "INFO", "WARN" or "ERROR"). */
  datatype Entry = Entry(id: string, timestamp: string, message: string, level: string)

  /** The reactive state: the entries, newest first; the panel's visibility;
      the level filter. */
  datatype Logger = Logger(logs: seq<Entry>, visible: bool, filter: string)

  /** The state at load time: no entries, visible only when the debug flag
      is "true" and the console is enabled, no filtering. This is also the
      constructor as intended: the logger starts with an empty view. */
  function Initial(config: Config, debugFlag: Option<string>): (l: Logger)
    ensures l.logs == [] && l.filter == All
    ensures l.visible <==> debugFlag == Some("true") && config.enabled
    ensures FilteredLogs(l) == []
  {
    Logger([], debugFlag == Some("true") && config.enabled, All)
  }

  // ---------------------------------------------------------------------------
  // The constructor as written
  // ---------------------------------------------------------------------------

  /** The accessors `ErrorLogger` declares with a getter and no setter. */
  const GetterOnly: set<string> := {"filteredLogs", "logs", "isVisible", "filter"}

  /** The assignments the constructor makes to `this`, in order. */
  const ConstructorAssignments: seq<string> := ["maxLogs", "filteredLogs"]

  datatype ConstructError = AssignToGetter(name: string)

  /** Assigning properties of a new instance one after another, in class
      code (always strict): a name with only a getter throws a `TypeError`
      and ends the construction; any other name becomes an own property. */
  function Construct(own: set<string>, names: seq<string>): (r: Result<set<string>, ConstructError>)
    ensures r.Failure? <==> exists i :: 0 <= i < |names| && names[i] in GetterOnly
    ensures r.Failure? ==>
      exists i :: && 0 <= i < |names| && names[i] in GetterOnly && r.error == AssignToGetter(names[i])
                  && forall j :: 0 <= j < i ==> names[j] !in GetterOnly
    ensures r.Success? ==> forall x :: x in r.value <==> x in own || x in names
    decreases |names|
  {
    if names == [] then Success(own)
    else if names[0] in GetterOnly then Failure(AssignToGetter(names[0]))
    else
      var rest := Construct(own + {names[0]}, names[1..]);
      assert forall x :: x in names <==> x == names[0] || x in names[1..];
      rest
  }

  /** As written, `new ErrorLogger()` throws at `this.filteredLogs = []`, so
      the module's default export is never created. */
  lemma ConstructorThrows()
    ensures Construct({}, ConstructorAssignments) == Failure(AssignToGetter("filteredLogs"))
  {
    assert ConstructorAssignments[1] in GetterOnly;
  }

  /** Without the assignment to the getter, the constructor completes and
      the logger starts as `Initial` describes. */
  lemma IntendedConstructorCompletes()
    ensures Construct({}, ConstructorAssignments[..1]) == Success({"maxLogs"})
  {
    var names := ConstructorAssignments[..1];
    assert names == ["maxLogs"] && "maxLogs" !in GetterOnly;
    var r := Construct({}, names);
    assert r.Success?;
    assert forall x :: x in r.value <==> x == "maxLogs";
    assert r.value == {"maxLogs"};
  }

  /** Whether `_addLog` records an entry of this level. */
  predicate Admits(config: Config, level: string)
  {
    config.enabled && LevelValue(Some(Lower(level))) >= config.minLevel
  }

  /** `_addLog`: an admitted entry goes to the front; when that makes the
      buffer longer than `MaxLogs`, the oldest entry is dropped. */
  function AddLog(l: Logger, config: Config, level: string, message: string, id: string, timestamp: string): (r: Logger)
    ensures !Admits(config, level) ==> r == l
    ensures Admits(config, level) ==>
      && r.visible == l.visible && r.filter == l.filter
      && |r.logs| == (if |l.logs| + 1 > MaxLogs then |l.logs| else |l.logs| + 1)
      && r.logs != [] && r.logs[0] == Entry(id, timestamp, message, level)
      && r.logs[1..] == l.logs[..|r.logs| - 1]
  {
    if !Admits(config, level) then l
    else
      var grown := [Entry(id, timestamp, message, level)] + l.logs;
      if |grown| > MaxLogs then l.(logs := grown[..|grown| - 1]) else l.(logs := grown)
  }

  /** `debug`, `info`, `warn` and `error`: an entry under the level's tag,
      recorded exactly when the console is enabled and the level reaches the
      configured one. */
  function Record(l: Logger, config: Config, level: Level, message: string, id: string, timestamp: string): (r: Logger)
    ensures config.enabled && level.Value() >= config.minLevel ==> r.logs != [] && r.logs[0] == Entry(id, timestamp, message, level.Tag())
    ensures !config.enabled || level.Value() < config.minLevel ==> r == l
  {
    TagLower(level);
    LevelValueOfName(level.Name(), level);
    AddLog(l, config, level.Tag(), message, id, timestamp)
  }

  /** A call of `debug`, `info`, `warn` or `error` made by another
      component; the console turns it into an entry with `Record`. */
  datatype Call = Call(level: Level, message: string)

  /** The buffer never holds more than `MaxLogs` entries. */
  lemma AddLogBounded(l: Logger, config: Config, level: string, message: string, id: string, timestamp: string)
    requires |l.logs| <= MaxLogs
    ensures |AddLog(l, config, level, message, id, timestamp).logs| <= MaxLogs
  {
  }

  /** When the buffer is full, an admitted entry pushes out the oldest one
      and keeps the others in order. */
  lemma FullBufferDropsOldest(l: Logger, config: Config, level: string, message: string, id: string, timestamp: string)
    requires |l.logs| == MaxLogs && Admits(config, level)
    ensures var r := AddLog(l, config, level, message, id, timestamp);
      |r.logs| == MaxLogs && r.logs == [Entry(id, timestamp, message, level)] + l.logs[..MaxLogs - 1]
  {
  }

  /** `clear`: no entries; the flag and filter stay. */
  function Clear(l: Logger): (r: Logger)
    ensures r.logs == [] && r.visible == l.visible && r.filter == l.filter
  {
    l.(logs := [])
  }

  /** `toggleVisibility`. */
  function ToggleVisibility(l: Logger): (r: Logger)
    ensures r.visible == !l.visible && r.logs == l.logs && r.filter == l.filter
  {
    l.(visible := !l.visible)
  }

  /** Toggling twice restores the panel. */
  lemma ToggleTwice(l: Logger)
    ensures ToggleVisibility(ToggleVisibility(l)) == l
  {
  }

  /** `setFilter`. */
  function SetFilter(l: Logger, filter: string): (r: Logger)
    ensures r.filter == filter && r.logs == l.logs && r.visible == l.visible
  {
    l.(filter := filter)
  }

  // ---------------------------------------------------------------------------
  // The filtered view
  // ---------------------------------------------------------------------------

  /** The two kinds of value the getter compares with `===`. */
  datatype JsValue = Str(s: string) | Num(n: int)

  /** JavaScript's `===`: values of different types are never equal. */
  predicate StrictEquals(a: JsValue, b: JsValue)
  {
    a == b
  }

  /** `filteredLogs` as written: every entry with "all"; otherwise the entries
      whose `level` (a string) is `===` the filter's numeric value. */
  function FilteredLogsAsWritten(l: Logger): (r: seq<Entry>)
    ensures l.filter == All ==> r == l.logs
    ensures forall i :: 0 <= i < |r| ==> r[i] in l.logs
  {
    if l.filter == All then l.logs
    else
      var filterLevel := LevelValue(Some(l.filter));
      Seqs.Filter(l.logs, (e: Entry) => StrictEquals(Str(e.level), Num(filterLevel)))
  }

  /** Any filter other than "all" shows nothing at all, whatever was logged:
      a string is never `===` a number. */
  lemma AsWrittenShowsNothing(l: Logger)
    requires l.filter != All
    ensures FilteredLogsAsWritten(l) == []
  {
    var filterLevel := LevelValue(Some(l.filter));
    var p := (e: Entry) => StrictEquals(Str(e.level), Num(filterLevel));
    Seqs.CountNone(l.logs, p);
  }

  /** The concrete case: one error logged, filter "error", empty view. */
  lemma AsWrittenHidesErrors()
    ensures var l := Logger([Entry("1", "t", "boom", "ERROR")], true, "error");
      l.logs != [] && FilteredLogsAsWritten(l) == []
  {
  }

  /** The level an entry's name stands for. */
  function EntryLevel(e: Entry): nat
  {
    LevelValue(Some(e.level))
  }

  /** `filteredLogs` as evidently intended: every entry with "all";
      otherwise the entries whose level is the filter's level, newest first. */
  function FilteredLogs(l: Logger): (r: seq<Entry>)
    ensures l.filter == All ==> r == l.logs
    ensures l.filter != All ==>
      && (forall i :: 0 <= i < |r| ==> r[i] in l.logs && EntryLevel(r[i]) == LevelValue(Some(l.filter)))
      && (forall i :: 0 <= i < |l.logs| && EntryLevel(l.logs[i]) == LevelValue(Some(l.filter)) ==> l.logs[i] in r)
  {
    if l.filter == All then l.logs
    else
      var filterLevel := LevelValue(Some(l.filter));
      Seqs.Filter(l.logs, (e: Entry) => EntryLevel(e) == filterLevel)
  }

  /** With the "error" filter, an error just recorded is the first entry
      shown. */
  lemma RecordedErrorIsShown(l: Logger, config: Config, message: string, id: string, timestamp: string)
    requires l.filter == Error.Name() && config.enabled && config.minLevel <= Error.Value()
    ensures var r := Record(l, config, Error, message, id, timestamp);
      var shown := FilteredLogs(r);
      shown != [] && shown[0] == Entry(id, timestamp, message, Error.Tag())
  {
    var r := Record(l, config, Error, message, id, timestamp);
    TagLower(Error);
    LevelValueOfName(Error.Tag(), Error);
    LevelValueOfName(Error.Name(), Error);
    var p := (e: Entry) => EntryLevel(e) == Error.Value();
    assert r.logs == [r.logs[0]] + r.logs[1..];
    Seqs.FilterAppend([r.logs[0]], r.logs[1..], p);
  }

  /** The four level filters partition the buffer: an entry shows under a
      level's filter exactly when it is of that level. */
  lemma FiltersPartition(l: Logger, e: Entry, level: Level)
    requires e in l.logs
    ensures e in FilteredLogs(l.(filter := level.Name())) <==> EntryLevel(e) == level.Value()
  {
    TagLower(level);
    LevelValueOfName(level.Name(), level);
  }
}
