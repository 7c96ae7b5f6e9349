/** Readers of environment strings: `envToInteger`, `envToString` and
    `envToBoolean`. Each throws (an `Err` here) on `undefined` input; the first
    two optionally check the value against an allow-list with a loop that
    returns at the first match. */
module Env {
  import opened Wrappers
  import opened Js
  import opened Validators

  /** `envToInteger(string, integers)` */
  method EnvToInteger(s: Option<string>, integers: Option<seq<int>>) returns (r: Result<int>)
    ensures s.None? ==> r == Err(JsError(""))
    ensures s.Some? && ParseInt(s.value).None? ==> r == Err(JsError(""))
    ensures s.Some? && ParseInt(s.value).Some? ==>
      var v := ParseInt(s.value).value;
      && (r.Ok? <==> (integers.None? || v in integers.value))
      && (r.Ok? ==> r.value == v)
    ensures r.Err? ==> r.error == JsError("")
  {
    var defined := AssertDefined(if s.Some? then Str(s.value) else Undefined, None);
    if defined.Fail? {
      return Err(defined.error);
    }
    var parsed := ParseInt(s.value);
    var notNan := Assert(parsed.Some?, None);
    if notNan.Fail? {
      return Err(notNan.error);
    }
    var integer := parsed.value;
    if integers.Some? {
      var list := integers.value;
      for k := 0 to |list|
        invariant forall j :: 0 <= j < k ==> list[j] != integer
      {
        if list[k] == integer {
          return Ok(integer);
        }
      }
      return Err(JsError(""));
    }
    return Ok(integer);
  }

  /** `envToString(s, ts)` */
  method EnvToString(s: Option<string>, ts: Option<seq<string>>) returns (r: Result<string>)
    ensures s.None? ==> r == Err(JsError(""))
    ensures s.Some? ==>
      && (r.Ok? <==> (ts.None? || s.value in ts.value))
      && (r.Ok? ==> r.value == s.value)
      && (r.Err? ==> r.error == JsError("Unknown ENV value: " + s.value))
  {
    var defined := AssertDefined(if s.Some? then Str(s.value) else Undefined, None);
    if defined.Fail? {
      return Err(defined.error);
    }
    if ts.Some? {
      var list := ts.value;
      for k := 0 to |list|
        invariant forall j :: 0 <= j < k ==> list[j] != s.value
      {
        if s.value == list[k] {
          return Ok(s.value);
        }
      }
      return Err(JsError("Unknown ENV value: " + s.value));
    }
    return Ok(s.value);
  }

  /** `envToBoolean(string)`: exactly "true" or "false", nothing else. */
  function EnvToBoolean(s: Option<string>): (r: Result<bool>)
    ensures r == Ok(true) <==> s == Some("true")
    ensures r == Ok(false) <==> s == Some("false")
    ensures r.Err? <==> s != Some("true") && s != Some("false")
    ensures r.Err? ==> r.error == JsError("")
  {
    var checked := Assert(s == Some("true") || s == Some("false"), None);
    if checked.Fail? then Err(checked.error) else Ok(s == Some("true"))
  }

  /** Case variants are not accepted. */
  lemma EnvToBooleanIsCaseSensitive()
    ensures EnvToBoolean(Some("TRUE")).Err? && EnvToBoolean(Some("False")).Err?
    ensures EnvToBoolean(None).Err?
  {
  }
}
