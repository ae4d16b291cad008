/**
  The configuration records the program reads from its YAML file. No
  field is validated when the file is decoded: malformed clock strings,
  empty log settings and a non-positive ticker all reach the code that
  consumes them unchanged.
 */
module Model {

  /** A Go `int` on a 64-bit target: what the YAML decoder can store in `ticker`. */
  type Int64 = x: int | -0x8000_0000_0000_0000 <= x < 0x8000_0000_0000_0000

  /** One active window, as two raw "HH:MM" strings. */
  datatype TimeRange = TimeRange(start: string, end: string)

  /** Logging settings exactly as stored; defaults are applied only when the logger is built. */
  datatype LogConfig = LogConfig(level: string, name: string)

  /**
    The whole configuration. `timeRanges` is an ordered list of non-nil
    ranges (a nil entry would be dereferenced by the window predicate);
    `ticker` is the tick interval in seconds.
   */
  datatype Config = Config(log: LogConfig, ticker: Int64, timeRanges: seq<TimeRange>, daemon: bool)
}
