/** What both loggers share: the gate `if (this.logLevel < logLevel) return`
    in front of every per-level function, and the lazily evaluated payload:
    each message is a list of thunks that a logger calls once each, in order,
    and only when the message passes the gate. */
module Loggers {
  import opened Js
  import opened LogLevels

  /** A message at `level` passes a logger configured at `configured` unless
      the configured level is lower. */
  predicate Gate(configured: LogLevel, level: LogLevel) {
    !(configured < level)
  }

  /** A logger at level `configured` lets through exactly the levels up to it. */
  lemma GateIsPrefix(configured: LogLevel, level: LogLevel)
    ensures Gate(configured, level) <==> level <= configured
  {
  }

  /** Gating is monotone: a logger that lets a level through lets every
      lower level through. */
  lemma GateMonotone(configured: LogLevel, level: LogLevel, lower: LogLevel)
    requires Gate(configured, level) && lower <= level
    ensures Gate(configured, lower)
  {
  }

  /** A `SILENT` logger lets no message through: every per-level function
      (`_1_error` to `_6_spam`) is above it. */
  lemma SilentSuppresses(level: LogLevel)
    requires level != SILENT
    ensures !Gate(SILENT, level)
  {
  }

  /** The values of the payload thunks, each called once, in order. */
  function Values(fns: seq<() -> JsValue>): (values: seq<JsValue>)
    ensures |values| == |fns|
    ensures forall k :: 0 <= k < |fns| ==> values[k] == fns[k]()
  {
    seq(|fns|, k requires 0 <= k < |fns| => fns[k]())
  }

  function Indices(n: nat): (s: seq<nat>)
    ensures |s| == n && forall k :: 0 <= k < n ==> s[k] == k
  {
    seq(n, k requires 0 <= k < n => k)
  }

  lemma IndicesSnoc(n: nat)
    ensures Indices(n + 1) == Indices(n) + [n]
  {
  }

  /** Calling one more thunk appends its value. */
  lemma ValuesSnoc(fns: seq<() -> JsValue>, i: nat)
    requires i < |fns|
    ensures Values(fns[..i + 1]) == Values(fns[..i]) + [fns[i]()]
  {
    assert fns[..i + 1] == fns[..i] + [fns[i]];
  }
}
