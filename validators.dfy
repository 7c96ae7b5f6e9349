/** Runtime validators: the throw-if-false helpers `assert`, `assertDefined`
    and `assertDefinedNotNan`, the predicate `isDefinedNotNan`, and the two
    list validators `assertDefineds` and `assertDefinedNotNans`, which stop at
    the first element that fails. */
module Validators {
  import opened Wrappers
  import opened Js

  /** `assert(condition, message)`: throws `new Error(message)` when false. */
  function Assert(condition: bool, message: Option<string>): (o: Outcome)
    ensures o.Pass? <==> condition
    ensures o.Fail? ==> o.error == JsError(message.GetOr(""))
  {
    if condition then Pass else Fail(JsError(message.GetOr("")))
  }

  /** `assertDefined(t, message)`: only `undefined` is rejected. */
  function AssertDefined(t: JsValue, message: Option<string>): Outcome {
    Assert(t != Undefined, message)
  }

  /** `isDefinedNotNan(t)`: `t !== undefined && !(typeof t === 'number' && isNaN(t))`. */
  predicate IsDefinedNotNan(t: JsValue) {
    t != Undefined && !IsNumericNaN(t)
  }

  /** `assertDefinedNotNan(t, message)` */
  function AssertDefinedNotNan(t: JsValue, message: Option<string>): Outcome {
    Assert(IsDefinedNotNan(t), message)
  }

  /** isDefinedNotNan is false exactly for `undefined` and the number NaN;
      `null`, non-NaN numbers, strings (also "NaN") and objects pass. */
  lemma IsDefinedNotNanCases(t: JsValue)
    ensures !IsDefinedNotNan(Undefined)
    ensures !IsDefinedNotNan(Number(NaN))
    ensures forall i: int :: IsDefinedNotNan(Number(Num(i)))
    ensures IsDefinedNotNan(Null) && IsDefinedNotNan(Str("NaN"))
    ensures IsDefinedNotNan(t) <==> !(t.Undefined? || (t.Number? && t.x.NaN?))
  {
  }

  /** `assertDefineds(ts, message)`: throws with `message` at the first
      `undefined` element; `null` elements pass. */
  method AssertDefineds(ts: seq<JsValue>, message: Option<string>) returns (o: Outcome)
    ensures o.Pass? <==> forall k :: 0 <= k < |ts| ==> ts[k] != Undefined
    ensures o.Fail? ==> o.error == JsError(message.GetOr(""))
  {
    for i := 0 to |ts|
      invariant forall k :: 0 <= k < i ==> ts[k] != Undefined
    {
      var r := AssertDefined(ts[i], message);
      if r.Fail? {
        return r;
      }
    }
    return Pass;
  }

  /** `assertDefinedNotNans(ts, message)`: throws with `message` at the first
      element that is `undefined` or the number NaN. */
  method AssertDefinedNotNans(ts: seq<JsValue>, message: Option<string>) returns (o: Outcome)
    ensures o.Pass? <==> forall k :: 0 <= k < |ts| ==> IsDefinedNotNan(ts[k])
    ensures o.Fail? ==> o.error == JsError(message.GetOr(""))
  {
    for i := 0 to |ts|
      invariant forall k :: 0 <= k < i ==> IsDefinedNotNan(ts[k])
    {
      var r := AssertDefinedNotNan(ts[i], message);
      if r.Fail? {
        return r;
      }
    }
    return Pass;
  }
}
