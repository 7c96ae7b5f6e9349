/** `arraySortBy(keys, desc)`: a comparator for `Array.prototype.sort` that
    compares two objects field by field. Each key is a field name, ordered
    by the global `desc` flag, or a `{ field, desc }` pair carrying its own
    flag; the first field on which the two objects differ decides. */
module SortBy {
  import opened Wrappers
  import opened Js

  datatype SortKey =
    | Field(name: string)
    | Spec(field: string, desc: Option<bool>)

  /** `typeof key === 'object' ? key.field : key` */
  function FieldOf(key: SortKey): string {
    match key
    case Field(name) => name
    case Spec(field, _) => field
  }

  /** `typeof key === 'object' ? key.desc : desc`, read for truthiness: a
      pair without its own `desc` is ascending whatever the global flag. */
  predicate Descending(key: SortKey, desc: Option<bool>) {
    match key
    case Field(_) => desc == Some(true)
    case Spec(_, own) => own == Some(true)
  }

  /** How two objects compare on one field: 1 when `a[field] > b[field]`,
      -1 when `a[field] < b[field]`, 0 when neither holds. */
  function FieldOrder(a: JsObject, b: JsObject, field: string): (o: int)
    ensures o == 1 <==> JsLess(Property(b, field), Property(a, field))
    ensures o == -1 <==> JsLess(Property(a, field), Property(b, field))
    ensures o == 0 || o == 1 || o == -1
  {
    var va, vb := Property(a, field), Property(b, field);
    JsLessAsymmetric(va, vb);
    if JsLess(vb, va) then 1 else if JsLess(va, vb) then -1 else 0
  }

  /** The ordering on one key, its direction applied. */
  function KeyOrder(key: SortKey, desc: Option<bool>, a: JsObject, b: JsObject): int {
    var o := FieldOrder(a, b, FieldOf(key));
    if Descending(key, desc) then -o else o
  }

  /** The comparator's result: the ordering on the first key that tells the
      objects apart, 0 when none does. */
  function CompareBy(keys: seq<SortKey>, desc: Option<bool>, a: JsObject, b: JsObject): (r: int)
    ensures r == 0 || r == 1 || r == -1
  {
    if |keys| == 0 then 0
    else if KeyOrder(keys[0], desc, a, b) != 0 then KeyOrder(keys[0], desc, a, b)
    else CompareBy(keys[1..], desc, a, b)
  }

  /** The comparator `arraySortBy(keys, desc)` returns, applied to two
      objects. */
  method Compare(keys: seq<SortKey>, desc: Option<bool>, objectA: JsObject, objectB: JsObject)
    returns (r: int)
    ensures r == CompareBy(keys, desc, objectA, objectB)
  {
    for i := 0 to |keys|
      invariant CompareBy(keys, desc, objectA, objectB) == CompareBy(keys[i..], desc, objectA, objectB)
    {
      var key := keys[i];
      var field := if key.Spec? then key.field else key.name;
      var descending := if key.Spec? then key.desc else desc;
      var valueA := Property(objectA, field);
      var valueB := Property(objectB, field);
      if JsLess(valueB, valueA) || JsLess(valueA, valueB) {
        var result := if JsLess(valueB, valueA) then 1 else -1;
        return if descending == Some(true) then -result else result;
      }
      assert keys[i..][1..] == keys[i + 1..];
    }
    return 0;
  }

  /** The result is 0 exactly when the objects tie on every key. */
  lemma {:induction false} CompareByZeroIff(keys: seq<SortKey>, desc: Option<bool>, a: JsObject, b: JsObject)
    ensures CompareBy(keys, desc, a, b) == 0 <==>
      forall k :: 0 <= k < |keys| ==> FieldOrder(a, b, FieldOf(keys[k])) == 0
  {
    if |keys| > 0 {
      var rest := keys[1..];
      CompareByZeroIff(rest, desc, a, b);
      if forall k :: 0 <= k < |keys| ==> FieldOrder(a, b, FieldOf(keys[k])) == 0 {
        forall k | 0 <= k < |rest| ensures FieldOrder(a, b, FieldOf(rest[k])) == 0 {
          assert rest[k] == keys[k + 1];
        }
      } else {
        var k :| 0 <= k < |keys| && FieldOrder(a, b, FieldOf(keys[k])) != 0;
        if k > 0 {
          assert rest[k - 1] == keys[k];
        }
      }
    }
  }

  /** The first key on which the objects differ decides, in its own
      direction. */
  lemma {:induction false} CompareByFirstDifference(keys: seq<SortKey>, desc: Option<bool>, a: JsObject, b: JsObject, i: nat)
    requires i < |keys|
    requires forall k :: 0 <= k < i ==> FieldOrder(a, b, FieldOf(keys[k])) == 0
    requires FieldOrder(a, b, FieldOf(keys[i])) != 0
    ensures CompareBy(keys, desc, a, b) == KeyOrder(keys[i], desc, a, b)
  {
    if i > 0 {
      assert forall k :: 0 <= k < i - 1 ==> keys[1..][k] == keys[k + 1];
      CompareByFirstDifference(keys[1..], desc, a, b, i - 1);
    }
  }

  /** Swapping the objects negates the result. */
  lemma {:induction false} CompareByAntisymmetric(keys: seq<SortKey>, desc: Option<bool>, a: JsObject, b: JsObject)
    ensures CompareBy(keys, desc, b, a) == -CompareBy(keys, desc, a, b)
  {
    if |keys| > 0 {
      var field := FieldOf(keys[0]);
      JsLessAsymmetric(Property(a, field), Property(b, field));
      assert FieldOrder(b, a, field) == -FieldOrder(a, b, field);
      CompareByAntisymmetric(keys[1..], desc, a, b);
    }
  }

  /** Every object compares equal to itself. */
  lemma CompareByReflexive(keys: seq<SortKey>, desc: Option<bool>, a: JsObject)
    ensures CompareBy(keys, desc, a, a) == 0
  {
    CompareByAntisymmetric(keys, desc, a, a);
  }

  /** With plain field names the global flag reverses the whole order. */
  lemma {:induction false} GlobalDescendingReverses(keys: seq<SortKey>, a: JsObject, b: JsObject)
    requires forall k :: 0 <= k < |keys| ==> keys[k].Field?
    ensures CompareBy(keys, Some(true), a, b) == -CompareBy(keys, None, a, b)
    ensures CompareBy(keys, Some(false), a, b) == CompareBy(keys, None, a, b)
  {
    if |keys| > 0 {
      GlobalDescendingReverses(keys[1..], a, b);
    }
  }

  /** A `{ field, desc }` pair ignores the global flag. */
  lemma SpecIgnoresGlobalFlag(field: string, own: Option<bool>, desc: Option<bool>, a: JsObject, b: JsObject)
    ensures CompareBy([Spec(field, own)], desc, a, b) == CompareBy([Spec(field, own)], None, a, b)
  {
    var keys := [Spec(field, own)];
    assert keys[1..] == [];
  }
}
