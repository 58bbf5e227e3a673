/** logger/logger.go: the log level flag and the level filter.

    LevelEnum is a string type; the global LogLevel starts at "error" and
    the --log-level flag writes it through Set. A message of a level is
    written only when that level ranks at least as high as LogLevel. The
    loggers themselves (Debugf ... Fatal) are not modelled. */
module Logger {
  import opened Base

  const LevelDebug := "debug"
  const LevelInfo := "info"
  const LevelWarn := "warn"
  const LevelError := "error"
  const LevelFatal := "fatal"
  const LevelPanic := "panic"

  /** The six levels, lowest first. */
  const Levels: seq<string> := [LevelDebug, LevelInfo, LevelWarn, LevelError, LevelFatal, LevelPanic]

  /** A LevelEnum variable, such as the global LogLevel. */
  class LevelEnum {
    var value: string

    /** `var LogLevel = LevelError`. */
    constructor ()
      ensures value == LevelError
    {
      value := LevelError;
    }

    /** Set: a known level name is taken as is, anything else becomes
        "error"; it never fails. */
    method Set(level: string) returns (err: Option<Error>)
      modifies `value
      ensures value in Levels
      ensures level in Levels ==> value == level
      ensures level !in Levels ==> value == LevelError
      ensures err.None?
    {
      if level == "debug" {
        value := LevelDebug;
      } else if level == "info" {
        value := LevelInfo;
      } else if level == "warn" {
        value := LevelWarn;
      } else if level == "error" {
        value := LevelError;
      } else if level == "fatal" {
        value := LevelFatal;
      } else if level == "panic" {
        value := LevelPanic;
      } else {
        value := LevelError;
      }
      return None;
    }

    /** String: the global LogLevel, whichever variable it is asked of. */
    function String(logLevel: LevelEnum): string
      reads logLevel
    {
      logLevel.value
    }
  }

  /** Any two variables answer String alike: the value of the global. */
  lemma StringIsTheGlobal(l: LevelEnum, other: LevelEnum, logLevel: LevelEnum)
    ensures l.String(logLevel) == other.String(logLevel) == logLevel.value
  {
  }

  /** levelMap[level]: the position among the six levels, and 0 (the
      map's zero value) for any other string. */
  function Rank(level: string): (r: nat)
    ensures r <= 5
    ensures forall i :: 0 <= i < |Levels| ==> (level == Levels[i] ==> r == i)
    ensures level !in Levels ==> r == 0
  {
    if level == LevelDebug then 0
    else if level == LevelInfo then 1
    else if level == LevelWarn then 2
    else if level == LevelError then 3
    else if level == LevelFatal then 4
    else if level == LevelPanic then 5
    else 0
  }

  /** levelIsEnabled, with `logLevel` the value of the global LogLevel. */
  predicate LevelIsEnabled(logLevel: string, level: string) {
    Rank(level) >= Rank(logLevel)
  }

  /** The six levels are told apart: each known level has its own rank. */
  lemma RanksDistinct(a: string, b: string)
    requires a in Levels && b in Levels
    ensures Rank(a) == Rank(b) <==> a == b
    ensures Rank(a) < Rank(b) <==> (exists i, j :: 0 <= i < j < |Levels| && a == Levels[i] && b == Levels[j])
  {
    var i :| 0 <= i < |Levels| && a == Levels[i];
    var j :| 0 <= j < |Levels| && b == Levels[j];
    assert Rank(a) == i && Rank(b) == j;
  }

  /** Once a level is enabled, every higher-ranked level is too. */
  lemma EnabledIsMonotone(logLevel: string, level: string, higher: string)
    requires LevelIsEnabled(logLevel, level) && Rank(level) <= Rank(higher)
    ensures LevelIsEnabled(logLevel, higher)
  {
  }

  /** Every level is enabled at its own setting, and exactly the levels
      from the setting up are enabled. */
  lemma EnabledFromSetting(logLevel: string, level: string)
    requires logLevel in Levels && level in Levels
    ensures LevelIsEnabled(logLevel, logLevel)
    ensures LevelIsEnabled(logLevel, level) <==>
            (exists i, j :: 0 <= i <= j < |Levels| && logLevel == Levels[i] && level == Levels[j])
  {
    var i :| 0 <= i < |Levels| && logLevel == Levels[i];
    var j :| 0 <= j < |Levels| && level == Levels[j];
    assert Rank(logLevel) == i && Rank(level) == j;
  }

  /** At the default level "error", debug, info and warn are dropped and
      error, fatal and panic are written. */
  lemma DefaultLevel(level: string)
    requires level in Levels
    ensures LevelIsEnabled(LevelError, level) <==> level in [LevelError, LevelFatal, LevelPanic]
  {
  }

  /** A string that is no level ranks with debug: as a setting it would
      enable everything, and as a message level it is written only at the
      debug setting. */
  lemma UnknownRanksAsDebug(unknown: string, level: string)
    requires unknown !in Levels
    ensures LevelIsEnabled(unknown, level)
    ensures LevelIsEnabled(level, unknown) <==> Rank(level) == 0
  {
  }
}
