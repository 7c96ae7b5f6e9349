/** The `String.prototype` operations the modelled code uses: `substring`,
    `includes`, `replace` with a string pattern (first occurrence only) and
    `Array.prototype.join` over strings. */
module JsString {
  import opened Wrappers

  /** `pat` occurs in `s` starting at index `i`. */
  predicate OccursAt(s: string, pat: string, i: nat) {
    i + |pat| <= |s| && s[i..i + |pat|] == pat
  }

  /** The first index at or after `from` where `pat` occurs. */
  function IndexOfFrom(s: string, pat: string, from: nat): (r: Option<nat>)
    requires from <= |s|
    ensures r.Some? ==> from <= r.value && OccursAt(s, pat, r.value)
    ensures r.Some? ==> forall j :: from <= j < r.value ==> !OccursAt(s, pat, j)
    ensures r.None? ==> forall j :: from <= j <= |s| ==> !OccursAt(s, pat, j)
    decreases |s| - from
  {
    if OccursAt(s, pat, from) then Some(from)
    else if from == |s| then None
    else IndexOfFrom(s, pat, from + 1)
  }

  /** `s.indexOf(pat)`, with `None` for -1. */
  function IndexOf(s: string, pat: string): (r: Option<nat>)
    ensures r.Some? ==> OccursAt(s, pat, r.value)
    ensures r.Some? ==> forall j :: 0 <= j < r.value ==> !OccursAt(s, pat, j)
    ensures r.None? <==> forall j :: 0 <= j <= |s| ==> !OccursAt(s, pat, j)
  {
    IndexOfFrom(s, pat, 0)
  }

  /** `s.includes(pat)`: a plain substring test. */
  predicate Includes(s: string, pat: string) {
    IndexOf(s, pat).Some?
  }

  lemma IncludesIff(s: string, pat: string)
    ensures Includes(s, pat) <==> exists i :: 0 <= i <= |s| && OccursAt(s, pat, i)
  {
  }

  /** A text containing `pat` between two other texts includes it. */
  lemma IncludesBetween(p: string, pat: string, q: string)
    ensures Includes(p + pat + q, pat)
  {
    var s := p + pat + q;
    assert s[|p|..|p| + |pat|] == pat;
    assert OccursAt(s, pat, |p|);
  }

  /** `s.replace(pat, rep)` with a string pattern: only the first occurrence
      is replaced. Replacement patterns such as `$&` are not interpreted; the
      replacement strings used in this model contain no `$`. */
  function ReplaceFirst(s: string, pat: string, rep: string): (r: string)
    ensures !Includes(s, pat) ==> r == s
    ensures Includes(s, pat) ==>
      var i := IndexOf(s, pat).value;
      && |r| == |s| - |pat| + |rep|
      && r[..i] == s[..i]
      && r[i..i + |rep|] == rep
      && r[i + |rep|..] == s[i + |pat|..]
  {
    match IndexOf(s, pat)
    case None => s
    case Some(i) => s[..i] + rep + s[i + |pat|..]
  }

  /** `s.substring(start, end)`: both bounds are clamped to [0, |s|] and
      swapped when out of order. */
  function Substring(s: string, start: int, end: int): (r: string)
    ensures 0 <= start <= end <= |s| ==> r == s[start..end]
  {
    var a := if start < 0 then 0 else if start > |s| then |s| else start;
    var b := if end < 0 then 0 else if end > |s| then |s| else end;
    if a <= b then s[a..b] else s[b..a]
  }

  /** `parts.join(sep)` */
  function Join(parts: seq<string>, sep: string): string {
    if |parts| == 0 then ""
    else if |parts| == 1 then parts[0]
    else parts[0] + sep + Join(parts[1..], sep)
  }

  /** The concatenation of `sep + p` for every part `p`, in order: the shape
      of a string built by repeated `line += sep + p`. */
  function Prefixed(parts: seq<string>, sep: string): string {
    if |parts| == 0 then "" else Prefixed(parts[..|parts| - 1], sep) + sep + parts[|parts| - 1]
  }

  lemma PrefixedSnoc(parts: seq<string>, p: string, sep: string)
    ensures Prefixed(parts + [p], sep) == Prefixed(parts, sep) + sep + p
  {
    assert (parts + [p])[..|parts|] == parts;
  }

  lemma {:induction false} PrefixedCons(p: string, rest: seq<string>, sep: string)
    ensures Prefixed([p] + rest, sep) == sep + p + Prefixed(rest, sep)
    decreases |rest|
  {
    var all := [p] + rest;
    if |rest| > 0 {
      assert all[..|all| - 1] == [p] + rest[..|rest| - 1];
      PrefixedCons(p, rest[..|rest| - 1], sep);
    }
  }

  /** Dropping the leading separator of a `+=`-built string gives the join:
      `Prefixed(parts, " ").substring(1) == parts.join(" ")`. */
  lemma {:induction false} PrefixedDropSeparator(parts: seq<string>, c: char)
    ensures Substring(Prefixed(parts, [c]), 1, |Prefixed(parts, [c])|) == Join(parts, [c])
    decreases |parts|
  {
    var sep := [c];
    if |parts| == 0 {
    } else {
      var rest := parts[1..];
      assert parts == [parts[0]] + rest;
      PrefixedCons(parts[0], rest, sep);
      var whole := Prefixed(parts, sep);
      assert whole == sep + parts[0] + Prefixed(rest, sep);
      if |rest| == 0 {
        assert whole[1..] == parts[0];
      } else {
        PrefixedDropSeparator(rest, c);
        var tail := Prefixed(rest, sep);
        assert |tail| >= 1 && tail[0] == c by {
          PrefixedCons(rest[0], rest[1..], sep);
          assert rest == [rest[0]] + rest[1..];
        }
        assert tail == sep + tail[1..];
        assert whole[1..] == parts[0] + sep + tail[1..];
      }
    }
  }
}
