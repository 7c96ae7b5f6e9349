/** `ConsoleLogger`: a logger configured once (level, whether to show the
    date and the level) whose per-level functions gate a message on the
    configured level and pass `console.log` one argument per word: the date,
    the level name, then each payload value, primitives as they are and
    anything else as its `util.inspect` text (a parameter). The clock is a
    parameter too; `console.log` itself is outside the model. */
module ConsoleLogging {
  import opened Wrappers
  import opened Js
  import opened LogLevels
  import opened DateFormat
  import opened Loggers

  /** A payload value as `console.log` receives it. */
  function Argument(v: JsValue, inspect: JsValue -> string): (a: JsValue)
    ensures IsPrimitive(a)
    ensures IsPrimitive(v) ==> a == v
    ensures !IsPrimitive(v) ==> a == Str(inspect(v))
  {
    if IsPrimitive(v) then v else Str(inspect(v))
  }

  /** One argument per payload value, in order. */
  function Arguments(values: seq<JsValue>, inspect: JsValue -> string): (r: seq<JsValue>)
    ensures |r| == |values| && forall k :: 0 <= k < |values| ==> r[k] == Argument(values[k], inspect)
  {
    seq(|values|, k requires 0 <= k < |values| => Argument(values[k], inspect))
  }

  lemma ArgumentsSnoc(header: seq<JsValue>, values: seq<JsValue>, v: JsValue, inspect: JsValue -> string)
    ensures header + Arguments(values + [v], inspect) == header + Arguments(values, inspect) + [Argument(v, inspect)]
  {
    assert Arguments(values + [v], inspect) == Arguments(values, inspect) + [Argument(v, inspect)];
  }

  /** `if (present) args.push(value)` */
  method PushIf(present: bool, args: seq<JsValue>, value: JsValue) returns (args': seq<JsValue>)
    ensures present ==> args' == args + [value]
    ensures !present ==> args' == args
  {
    args' := args;
    if present {
      args' := args' + [value];
    }
  }

  class ConsoleLogger {
    const logLevel: LogLevel
    const showDate: Option<bool>
    const showLevel: Option<bool>

    constructor(logLevel: LogLevel, showDate: Option<bool>, showLevel: Option<bool>)
      ensures this.logLevel == logLevel && this.showDate == showDate && this.showLevel == showLevel
    {
      this.logLevel := logLevel;
      this.showDate := showDate;
      this.showLevel := showLevel;
    }

    predicate Emits(level: LogLevel) {
      Gate(logLevel, level)
    }

    /** The arguments before the payload: the date and the level name, each
        when configured. */
    function Header(level: LogLevel, now: string): (h: seq<JsValue>)
      ensures |h| <= 2 && forall k :: 0 <= k < |h| ==> h[k].Str?
    {
      (if showDate == Some(true) then [Str(DateToString(now))] else [])
      + (if showLevel == Some(true) then [Str(LevelName(level))] else [])
    }

    /** The function `getLoggerFn(level)` returns, applied to `fns`: the
        arguments it passes to `console.log`, and the indices of the thunks
        it calls, in call order. */
    method Log(level: LogLevel, fns: seq<() -> JsValue>, now: string, inspect: JsValue -> string)
      returns (args: Option<seq<JsValue>>, evaluated: seq<nat>)
      ensures !Emits(level) ==> args.None? && evaluated == []
      ensures Emits(level) ==> evaluated == Indices(|fns|)
      ensures Emits(level) ==> args == Some(Header(level, now) + Arguments(Values(fns), inspect))
    {
      if logLevel < level {
        return None, [];
      }
      var list: seq<JsValue> := [];
      list := PushIf(showDate == Some(true), list, Str(DateToString(now)));
      list := PushIf(showLevel == Some(true), list, Str(LevelName(level)));
      ghost var header := list;
      assert header == Header(level, now);
      evaluated := [];
      ghost var values: seq<JsValue> := [];
      for i := 0 to |fns|
        invariant values == Values(fns[..i]) && evaluated == Indices(i)
        invariant list == header + Arguments(values, inspect)
      {
        var value := fns[i]();
        ArgumentsSnoc(header, values, value, inspect);
        ValuesSnoc(fns, i);
        IndicesSnoc(i);
        values := values + [value];
        evaluated := evaluated + [i];
        list := list + [if IsPrimitive(value) then value else Str(inspect(value))];
      }
      assert fns[..|fns|] == fns;
      args := Some(list);
    }

    /** Every argument `console.log` receives is a primitive; the payload
        arguments follow the header, one per thunk, and primitive payload
        values pass through unchanged. */
    lemma ArgumentsArePrimitive(level: LogLevel, values: seq<JsValue>, now: string, inspect: JsValue -> string)
      ensures var args := Header(level, now) + Arguments(values, inspect);
        && |args| == |Header(level, now)| + |values|
        && (forall k :: 0 <= k < |args| ==> IsPrimitive(args[k]))
        && (forall k :: 0 <= k < |values| && IsPrimitive(values[k]) ==>
              args[|Header(level, now)| + k] == values[k])
    {
    }
  }
}
