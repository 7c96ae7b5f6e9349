/** `FileLogger`: a logger configured once (level, file name, whether to show
    the date and the level) whose per-level functions gate a message on the
    configured level and assemble one text line from lazily evaluated payload
    thunks. The line is what `appendFile` would append; the file itself,
    `util.inspect` (a parameter) and the clock (the ISO string of `new Date()`,
    a parameter) are outside the model. */
module FileLogging {
  import opened Wrappers
  import opened Js
  import opened JsString
  import opened LogLevels
  import opened DateFormat
  import opened Loggers

  /** How a payload value is written: a primitive by `toString`, with `null`
      and `undefined` both written "undefined"; anything else by `inspect`. */
  function Render(v: JsValue, inspect: JsValue -> string): string {
    match v
    case Undefined => "undefined"
    case Null => "undefined"
    case Bool(b) => if b then "true" else "false"
    case Number(x) => if x.NaN? then "NaN" else IntToString(x.i)
    case Str(s) => s
    case Object(_) => inspect(v)
  }

  /** One rendering per value, in order. */
  function Renderings(values: seq<JsValue>, inspect: JsValue -> string): (r: seq<string>)
    ensures |r| == |values| && forall k :: 0 <= k < |values| ==> r[k] == Render(values[k], inspect)
  {
    seq(|values|, k requires 0 <= k < |values| => Render(values[k], inspect))
  }

  /** Rendering one more value appends one more word. */
  lemma RenderingsSnoc(header: seq<string>, values: seq<JsValue>, v: JsValue, inspect: JsValue -> string)
    ensures header + Renderings(values + [v], inspect) == header + Renderings(values, inspect) + [Render(v, inspect)]
  {
    assert Renderings(values + [v], inspect) == Renderings(values, inspect) + [Render(v, inspect)];
  }

  /** The line for the words accumulated with a leading separator. */
  lemma LineOfAccumulated(words: seq<string>, acc: string)
    requires acc == Prefixed(words, " ")
    ensures Substring(acc, 1, |acc|) == Join(words, " ")
  {
    PrefixedDropSeparator(words, ' ');
  }

  /** The word `w` when `present`, nothing otherwise. */
  function Optional(present: bool, w: string): (r: seq<string>)
    ensures present ==> r == [w]
    ensures !present ==> r == []
  {
    if present then [w] else []
  }

  /** `if (present) line += ' ' + word`, with the words written so far kept
      alongside the line. */
  method AppendIf(present: bool, words: seq<string>, line: string, word: string)
    returns (words': seq<string>, line': string)
    requires line == Prefixed(words, " ")
    ensures words' == words + Optional(present, word) && line' == Prefixed(words', " ")
    ensures present ==> line' == line + " " + word
    ensures !present ==> line' == line
  {
    words', line' := words, line;
    if present {
      PrefixedSnoc(words, word, " ");
      words' := words + [word];
      line' := line + " " + word;
    } else {
      assert words + [] == words;
    }
  }

  class FileLogger {
    const logLevel: LogLevel
    const filename: string
    const showDate: Option<bool>
    const showLevel: Option<bool>

    /** `new FileLogger(logLevel, filename = 'console.log', showDate, showLevel)`;
        the truncation of the file by `writeFileSync` is not modelled. */
    constructor(logLevel: LogLevel, filename: Option<string>, showDate: Option<bool>, showLevel: Option<bool>)
      ensures this.logLevel == logLevel && this.filename == filename.GetOr("console.log")
      ensures this.showDate == showDate && this.showLevel == showLevel
    {
      this.logLevel := logLevel;
      this.filename := filename.GetOr("console.log");
      this.showDate := showDate;
      this.showLevel := showLevel;
    }

    predicate Emits(level: LogLevel) {
      Gate(logLevel, level)
    }

    /** The words before the payload: the date and the level name, each when
        configured. */
    function Header(level: LogLevel, now: string): seq<string> {
      Optional(showDate == Some(true), DateToString(now)) + Optional(showLevel == Some(true), LevelName(level))
    }

    /** The words of a line, in order: the date, the level name, then one
        rendering per payload value. */
    function Words(level: LogLevel, values: seq<JsValue>, now: string, inspect: JsValue -> string): seq<string> {
      Header(level, now) + Renderings(values, inspect)
    }

    /** The function `getLoggerFn(level)` returns, applied to `fns`: the line
        it appends, and the indices of the thunks it calls, in call order. */
    method Log(level: LogLevel, fns: seq<() -> JsValue>, now: string, inspect: JsValue -> string)
      returns (line: Option<string>, evaluated: seq<nat>)
      ensures !Emits(level) ==> line.None? && evaluated == []
      ensures Emits(level) ==> evaluated == Indices(|fns|)
      ensures Emits(level) ==> line == Some(Join(Words(level, Values(fns), now, inspect), " ") + "\n")
    {
      if logLevel < level {
        return None, [];
      }
      var header: seq<string>, acc := [], "";
      header, acc := AppendIf(showDate == Some(true), header, acc, DateToString(now));
      header, acc := AppendIf(showLevel == Some(true), header, acc, LevelName(level));
      assert header == Header(level, now);
      evaluated := [];
      ghost var values: seq<JsValue> := [];
      for i := 0 to |fns|
        invariant values == Values(fns[..i]) && evaluated == Indices(i)
        invariant acc == Prefixed(header + Renderings(values, inspect), " ")
      {
        var value := fns[i]();
        ghost var words := header + Renderings(values, inspect);
        PrefixedSnoc(words, Render(value, inspect), " ");
        RenderingsSnoc(header, values, value, inspect);
        ValuesSnoc(fns, i);
        IndicesSnoc(i);
        values := values + [value];
        evaluated := evaluated + [i];
        acc := acc + " " + Render(value, inspect);
      }
      assert fns[..|fns|] == fns;
      LineOfAccumulated(Words(level, values, now, inspect), acc);
      line := Some(Substring(acc, 1, |acc|) + "\n");
    }

    /** Without date and level a single payload is the whole line: a string
        is written as is, `null` and `undefined` as "undefined". */
    lemma SinglePayloadLine(level: LogLevel, v: JsValue, now: string, inspect: JsValue -> string)
      requires showDate != Some(true) && showLevel != Some(true)
      ensures Join(Words(level, [v], now, inspect), " ") == Render(v, inspect)
      ensures v.Str? ==> Render(v, inspect) == v.s
      ensures v.Null? || v.Undefined? ==> Render(v, inspect) == "undefined"
    {
      assert Words(level, [v], now, inspect) == [Render(v, inspect)];
    }
  }
}
