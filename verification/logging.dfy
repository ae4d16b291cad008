/**
  The defaulting part of logger construction. The logger is built from a
  copy of the stored log settings: an empty file name becomes
  "keysimulator.log", an empty level becomes "info", and a level name
  the level parser rejects falls back to Info. The stored configuration
  itself is never written.
 */
module Logging {
  import opened Wrappers
  import opened Model

  /** zap's severity levels. */
  datatype Level = Debug | Info | Warn | Error | DPanic | Panic | Fatal

  const DefaultName: string := "keysimulator.log"
  const DefaultLevel: string := "info"

  /** The settings the logger is actually built with. */
  datatype LogSettings = LogSettings(name: string, level: Level)

  /** The lower-case name of each level. */
  function LevelName(l: Level): (s: string)
    ensures s != ""
  {
    match l
    case Debug => "debug"
    case Info => "info"
    case Warn => "warn"
    case Error => "error"
    case DPanic => "dpanic"
    case Panic => "panic"
    case Fatal => "fatal"
  }

  /**
    The level parser's table: each level's lower-case or upper-case name;
    the empty text also reads as Info. Anything else is rejected.
   */
  function ParseLevel(text: string): (r: Option<Level>)
  {
    match text
    case "debug" => Some(Debug)
    case "DEBUG" => Some(Debug)
    case "info" => Some(Info)
    case "INFO" => Some(Info)
    case "" => Some(Info)
    case "warn" => Some(Warn)
    case "WARN" => Some(Warn)
    case "error" => Some(Error)
    case "ERROR" => Some(Error)
    case "dpanic" => Some(DPanic)
    case "DPANIC" => Some(DPanic)
    case "panic" => Some(Panic)
    case "PANIC" => Some(Panic)
    case "fatal" => Some(Fatal)
    case "FATAL" => Some(Fatal)
    case _ => None
  }

  /** The effective logger settings for a stored log configuration. */
  function EffectiveLog(log: LogConfig): (s: LogSettings)
    ensures s.name != ""
    ensures log.name != "" ==> s.name == log.name
    ensures log.name == "" ==> s.name == DefaultName
    ensures log.level == "" ==> s.level == Info
    ensures ParseLevel(log.level).None? ==> s.level == Info
    ensures ParseLevel(log.level).Some? ==> s.level == ParseLevel(log.level).value
  {
    var name := if log.name == "" then DefaultName else log.name;
    var levelText := if log.level == "" then DefaultLevel else log.level;
    var level := match ParseLevel(levelText) case Some(l) => l case None => Info;
    LogSettings(name, level)
  }

  /** Every level's name parses back to that level. */
  lemma ParseLevelName(l: Level)
    ensures ParseLevel(LevelName(l)) == Some(l)
  {
  }

  /**
    Defaulting is idempotent: writing the effective settings back as a
    stored configuration yields the same effective settings.
   */
  lemma EffectiveLogIdempotent(log: LogConfig)
    ensures var s := EffectiveLog(log);
      EffectiveLog(LogConfig(LevelName(s.level), s.name)) == s
  {
    ParseLevelName(EffectiveLog(log).level);
  }
}
