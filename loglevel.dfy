/** Log levels, their display names (`logLevelNames`) and `toLogLevel`, which
    parses a level from an environment string and clamps it into range. */
module LogLevels {
  import opened Wrappers
  import opened Js

  /** The numeric `LogLevel` enum: `_0_SILENT` < `_1_ERROR` < ... < `_6_SPAM`. */
  newtype LogLevel = x: int | 0 <= x <= 6

  const SILENT: LogLevel := 0
  const ERROR: LogLevel := 1
  const WARNING: LogLevel := 2
  const INFO: LogLevel := 3
  const DEBUG: LogLevel := 4
  const TRACE: LogLevel := 5
  const SPAM: LogLevel := 6

  /** `logLevelNames[level]` */
  function LevelName(level: LogLevel): string {
    match level
    case 0 => "SILENT"
    case 1 => "ERROR"
    case 2 => "WARNING"
    case 3 => "INFO"
    case 4 => "DEBUG"
    case 5 => "TRACE"
    case 6 => "SPAM"
  }

  /** `Math.max(Math.min(i, _6_SPAM), _0_SILENT)` */
  function Clamp(i: int): (l: LogLevel)
    ensures SILENT as int <= i <= SPAM as int ==> l as int == i
    ensures i > SPAM as int ==> l == SPAM
    ensures i < SILENT as int ==> l == SILENT
  {
    var upper := if i < SPAM as int then i else SPAM as int;
    (if upper > SILENT as int then upper else SILENT as int) as LogLevel
  }

  /** `toLogLevel(logLevel)`: `undefined` and strings that `parseInt(_, 10)`
      cannot read give `undefined`; every parsed integer is clamped. */
  function ToLogLevel(logLevel: Option<string>): (r: Option<LogLevel>)
    ensures logLevel.None? ==> r.None?
    ensures logLevel.Some? ==>
      match ParseInt(logLevel.value)
      case None => r.None?
      case Some(i) => r.Some? && r.value == Clamp(i)
  {
    match logLevel
    case None => None
    case Some(s) =>
      match ParseInt(s)
      case None => None
      case Some(i) => Some(Clamp(i))
  }

  /** Every level written in decimal reads back unchanged. */
  lemma ToLogLevelOfName(level: LogLevel)
    ensures ToLogLevel(Some(IntToString(level as int))) == Some(level)
  {
    ParseIntToString(level as int);
  }

  /** A leading run of digits, optionally negated, is read and clamped;
      whatever follows it is ignored. */
  lemma ToLogLevelOfDigits(d: string, rest: string)
    requires |d| > 0 && AllDigits(d)
    requires rest == [] || !IsDigit(rest[0])
    ensures ToLogLevel(Some(d + rest)) == Some(Clamp(DigitsValue(d)))
    ensures ToLogLevel(Some("-" + d + rest)) == Some(Clamp(-(DigitsValue(d) as int)))
  {
    ParseIntDigitsThenRest(d, rest);
    var v := DigitsValue(d);
    ToLogLevelOfParsed(d + rest, v);
    ToLogLevelOfParsed("-" + d + rest, -(v as int));
  }

  /** Whatever `parseInt` reads is clamped. */
  lemma ToLogLevelOfParsed(s: string, i: int)
    requires ParseInt(s) == Some(i)
    ensures ToLogLevel(Some(s)) == Some(Clamp(i))
  {
  }

  /** Text without a leading integer gives `undefined`. */
  lemma ToLogLevelRejectsWords()
    ensures ToLogLevel(Some("debug")) == None
  {
    assert TrimStart("debug") == "debug";
    assert DigitPrefix("debug") == 0;
  }

  /** "9" is clamped down to SPAM. */
  lemma ToLogLevelClampsHigh()
    ensures ToLogLevel(Some("9")) == Some(SPAM)
  {
    assert DigitsValue("9") == 9 by {
      assert "9"[..0] == "";
    }
    ToLogLevelOfDigits("9", "");
    assert "9" + "" == "9";
  }

  /** "-3" is clamped up to SILENT. */
  lemma ToLogLevelClampsLow()
    ensures ToLogLevel(Some("-3")) == Some(SILENT)
  {
    assert DigitsValue("3") == 3 by {
      assert "3"[..0] == "";
    }
    ToLogLevelOfDigits("3", "");
    assert "-" + "3" + "" == "-3";
  }
}
