/** `enumNumericValues(tenum)`: the values of an enum object that are numbers,
    as `Object.values(tenum).filter((value) => !isNaN(+value))`. A numeric
    TypeScript enum object also holds the reverse mapping from each number to
    its member name; those name strings coerce to NaN and are dropped.

    The model takes the list `Object.values(tenum)` as its input: the order in
    which the runtime lists an object's values is not modelled. */
module EnumValues {
  import opened Js

  /** `a` is `b` with some elements left out, order kept. */
  predicate IsSubsequence<T(==)>(a: seq<T>, b: seq<T>) {
    |a| == 0 || (|b| > 0 && ((a[0] == b[0] && IsSubsequence(a[1..], b[1..])) || IsSubsequence(a, b[1..])))
  }

  /** `Array.prototype.filter`: the elements that `keep` accepts, in order. */
  function Filter<T(==)>(s: seq<T>, keep: T -> bool): (r: seq<T>)
    ensures forall k :: 0 <= k < |r| ==> keep(r[k])
    ensures forall k :: 0 <= k < |s| && keep(s[k]) ==> s[k] in r
    ensures forall x :: x in r ==> x in s
    ensures IsSubsequence(r, s)
  {
    if |s| == 0 then []
    else
      var tail := s[1..];
      var rest := Filter(tail, keep);
      assert s == [s[0]] + tail;
      if keep(s[0]) then
        var r := [s[0]] + rest;
        assert r[1..] == rest;
        r
      else
        rest
  }

  /** Each accepted value is kept as many times as it occurs, each rejected
      value not at all. */
  lemma {:induction false} FilterCounts<T>(s: seq<T>, keep: T -> bool)
    ensures forall x :: multiset(Filter(s, keep))[x] == if keep(x) then multiset(s)[x] else 0
    decreases |s|
  {
    if |s| > 0 {
      FilterCounts(s[1..], keep);
      assert s == [s[0]] + s[1..];
      assert multiset(s) == multiset{s[0]} + multiset(s[1..]);
    }
  }

  /** Filtering distributes over concatenation: each part is filtered on its
      own and the results are joined in order. */
  lemma {:induction false} FilterConcat<T>(a: seq<T>, b: seq<T>, keep: T -> bool)
    ensures Filter(a + b, keep) == Filter(a, keep) + Filter(b, keep)
    decreases |a|
  {
    if |a| > 0 {
      var all := a + b;
      assert all[0] == a[0] && all[1..] == a[1..] + b;
      FilterConcat(a[1..], b, keep);
    } else {
      assert a + b == b;
    }
  }

  /** Elements that `keep` rejects contribute nothing. */
  lemma {:induction false} FilterDropsRejected<T>(dropped: seq<T>, s: seq<T>, keep: T -> bool)
    requires forall k :: 0 <= k < |dropped| ==> !keep(dropped[k])
    ensures Filter(dropped + s, keep) == Filter(s, keep)
    decreases |dropped|
  {
    if |dropped| > 0 {
      var all := dropped + s;
      assert all[0] == dropped[0] && all[1..] == dropped[1..] + s;
      FilterDropsRejected(dropped[1..], s, keep);
    } else {
      assert dropped + s == s;
    }
  }

  /** Elements that `keep` accepts are all kept. */
  lemma {:induction false} FilterKeepsAccepted<T>(s: seq<T>, keep: T -> bool)
    requires forall k :: 0 <= k < |s| ==> keep(s[k])
    ensures Filter(s, keep) == s
    decreases |s|
  {
    if |s| > 0 {
      FilterKeepsAccepted(s[1..], keep);
      assert s == [s[0]] + s[1..];
    }
  }

  /** `!isNaN(+value)` */
  predicate IsNumericValue(v: JsValue) {
    !ToNumber(v).NaN?
  }

  function EnumNumericValues(values: seq<JsValue>): (r: seq<JsValue>)
    ensures forall k :: 0 <= k < |r| ==> IsNumericValue(r[k])
    ensures forall k :: 0 <= k < |values| && IsNumericValue(values[k]) ==> values[k] in r
    ensures IsSubsequence(r, values)
    ensures forall v :: multiset(r)[v] == if IsNumericValue(v) then multiset(values)[v] else 0
  {
    FilterCounts(values, IsNumericValue);
    Filter(values, IsNumericValue)
  }

  /** An identifier: a first character that is not white space, a sign or a
      digit. Enum member names have this shape. */
  predicate IsIdentifierLike(name: string) {
    |name| > 0 && !IsWhiteSpace(name[0]) && !IsDigit(name[0]) && name[0] != '-' && name[0] != '+'
  }

  /** For a numeric enum, `Object.values` lists the reverse-mapping member
      names and then the numbers; only the numbers are kept, in order. For
      `enum E { A = 1, B = 2, C = 3 }` the names are "A", "B", "C" and the
      result is `[1, 2, 3]`. */
  lemma NumericEnumValues(names: seq<string>, numbers: seq<int>)
    requires forall k :: 0 <= k < |names| ==> IsIdentifierLike(names[k])
    ensures EnumNumericValues(seq(|names|, k requires 0 <= k < |names| => Str(names[k]))
                              + seq(|numbers|, k requires 0 <= k < |numbers| => Number(Num(numbers[k]))))
         == seq(|numbers|, k requires 0 <= k < |numbers| => Number(Num(numbers[k])))
  {
    var ns := seq(|names|, k requires 0 <= k < |names| => Str(names[k]));
    var vs := seq(|numbers|, k requires 0 <= k < |numbers| => Number(Num(numbers[k])));
    forall k | 0 <= k < |ns| ensures !IsNumericValue(ns[k]) {
      StringToNumberOfWord(names[k]);
    }
    FilterDropsRejected(ns, vs, IsNumericValue);
    FilterKeepsAccepted(vs, IsNumericValue);
  }
}
