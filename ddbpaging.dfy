/** The page loops of `query`, `scan` and `scanCount`. Each is a do-while
    loop that builds a request from the caller's argument and the current
    `ExclusiveStartKey`, sends it, records the request, the response and the
    decoded page in three parallel lists, and continues from the response's
    `LastEvaluatedKey` while there is one and `autoPaginate` (default true)
    holds.

    The table is an oracle `store` from request to response: the model
    claims nothing about what a real table returns, only how the loop
    threads the responses. A loop that follows the keys can only end when
    the store's chain of keys ends, which the callers must guarantee. */
module DdbPaging {
  import opened Wrappers
  import opened Js
  import opened DdbTypes

  /** The caller's argument to `query`, `scan` and `scanCount`. */
  datatype PageRequest = PageRequest(
    autoPaginate: Option<bool>,
    exclusiveStartKey: Option<AttributeMap>,
    expressionAttributeValues: Option<JsObject>,
    fields: map<string, string>)

  /** A `QueryCommandInput` or `ScanCommandInput` as the loop builds it; the
      caller's `autoPaginate` is copied along by the spread. */
  datatype PageInput = PageInput(
    autoPaginate: Option<bool>,
    exclusiveStartKey: Option<AttributeMap>,
    expressionAttributeValues: Option<AttributeMap>,
    fields: map<string, string>)

  /** The parts of a `QueryCommandOutput` or `ScanCommandOutput` the loop
      reads. */
  datatype PageOutput = PageOutput(
    items: Option<seq<AttributeMap>>,
    count: Option<int>,
    lastEvaluatedKey: Option<AttributeMap>)

  /** `_.autoPaginate ?? true` */
  function AutoPaginate(args: PageRequest): bool {
    args.autoPaginate.GetOr(true)
  }

  /** The request for one page: `{ ..._, ExclusiveStartKey, ExpressionAttributeValues }`,
      the loop's start key replacing the caller's. */
  function PageInputFor(args: PageRequest, startKey: Option<AttributeMap>, codec: Codec): (r: PageInput)
    ensures r.exclusiveStartKey == startKey
    ensures r.autoPaginate == args.autoPaginate && r.fields == args.fields
    ensures r.expressionAttributeValues.Some? <==> args.expressionAttributeValues.Some?
    ensures args.expressionAttributeValues.Some? ==>
      r.expressionAttributeValues.value == codec.marshall(args.expressionAttributeValues.value)
  {
    PageInput(
      args.autoPaginate,
      startKey,
      match args.expressionAttributeValues
      case Some(v) => Some(codec.marshall(v))
      case None => None,
      args.fields)
  }

  /** The start key of page `k` when the loop follows every key: none for
      the first page, then the `LastEvaluatedKey` of the page before. */
  function StartKey(store: PageInput -> PageOutput, args: PageRequest, codec: Codec, k: nat): Option<AttributeMap> {
    if k == 0 then None
    else store(PageInputFor(args, StartKey(store, args, codec, k - 1), codec)).lastEvaluatedKey
  }

  /** `(output.Items ?? []).map((item) => unmarshall(item))` */
  function PageItems(output: PageOutput, codec: Codec): (r: seq<JsObject>)
    ensures output.items.None? ==> r == []
    ensures output.items.Some? ==> |r| == |output.items.value|
    ensures output.items.Some? ==> forall k :: 0 <= k < |r| ==> r[k] == codec.unmarshall(output.items.value[k])
  {
    UnmarshallAll(output.items.GetOr([]), codec)
  }

  /** The requests and responses of a page loop, in order: the first
      request has no start key, each later one carries the
      `LastEvaluatedKey` of the response before it, and each response is the
      store's answer to its request. */
  predicate Threaded(args: PageRequest, codec: Codec, store: PageInput -> PageOutput,
                     inputs: seq<PageInput>, outputs: seq<PageOutput>) {
    && |outputs| == |inputs|
    && |inputs| > 0
    && inputs[0] == PageInputFor(args, None, codec)
    && (forall k :: 0 < k < |inputs| ==> inputs[k] == PageInputFor(args, outputs[k - 1].lastEvaluatedKey, codec))
    && (forall k :: 0 <= k < |inputs| ==> outputs[k] == store(inputs[k]))
  }

  /** Every response but the last left a key to continue from. */
  predicate Continued(outputs: seq<PageOutput>) {
    forall k :: 0 <= k < |outputs| - 1 ==> outputs[k].lastEvaluatedKey.Some?
  }

  /** Where a page loop stands after `inputs`: the next start key is the one
      `StartKey` predicts and the last response left, the pages so far are
      threaded, and every response but the last left a key. */
  ghost predicate Progress(args: PageRequest, codec: Codec, store: PageInput -> PageOutput,
                           inputs: seq<PageInput>, outputs: seq<PageOutput>, startKey: Option<AttributeMap>) {
    && startKey == StartKey(store, args, codec, |inputs|)
    && (|inputs| == 0 ==> |outputs| == 0 && startKey.None?)
    && (|inputs| > 0 ==> Threaded(args, codec, store, inputs, outputs) && startKey == outputs[|inputs| - 1].lastEvaluatedKey)
    && Continued(outputs)
  }

  /** One more page, requested from where the loop stands, when the loop
      has a key to continue from. */
  lemma ProgressSnoc(args: PageRequest, codec: Codec, store: PageInput -> PageOutput,
                     inputs: seq<PageInput>, outputs: seq<PageOutput>, startKey: Option<AttributeMap>)
    requires Progress(args, codec, store, inputs, outputs, startKey)
    requires |inputs| > 0 ==> startKey.Some?
    ensures var input := PageInputFor(args, startKey, codec);
      Progress(args, codec, store, inputs + [input], outputs + [store(input)], store(input).lastEvaluatedKey)
  {
  }

  /** A loop that follows the keys stays below any page whose start key is
      none while it still holds a key. */
  lemma WithinBound(store: PageInput -> PageOutput, args: PageRequest, codec: Codec, n: nat, bound: nat)
    requires n <= bound && StartKey(store, args, codec, bound).None? && StartKey(store, args, codec, n).Some?
    ensures n < bound
  {
  }

  /** Each page's decoded items, in order. */
  ghost predicate Decoded(codec: Codec, outputs: seq<PageOutput>, results: seq<seq<JsObject>>) {
    |results| == |outputs| && forall k :: 0 <= k < |outputs| ==> results[k] == PageItems(outputs[k], codec)
  }

  lemma DecodedSnoc(codec: Codec, outputs: seq<PageOutput>, results: seq<seq<JsObject>>, output: PageOutput)
    requires Decoded(codec, outputs, results)
    ensures Decoded(codec, outputs + [output], results + [PageItems(output, codec)])
  {
  }

  /** `query`; `scan` is the same loop over the scan oracle. At least one
      page is fetched; requests and responses are threaded; the three lists
      run in parallel; the loop goes on exactly while the last page left a
      key and `autoPaginate` holds. */
  method Paginate(args: PageRequest, codec: Codec, store: PageInput -> PageOutput)
    returns (inputs: seq<PageInput>, outputs: seq<PageOutput>, results: seq<seq<JsObject>>)
    requires AutoPaginate(args) ==> exists n: nat :: 1 <= n && StartKey(store, args, codec, n).None?
    ensures Threaded(args, codec, store, inputs, outputs) && |results| == |inputs|
    ensures forall k :: 0 <= k < |inputs| ==> results[k] == PageItems(outputs[k], codec)
    ensures |inputs| > 1 ==> AutoPaginate(args) && Continued(outputs)
    ensures AutoPaginate(args) ==> outputs[|inputs| - 1].lastEvaluatedKey.None?
    ensures !AutoPaginate(args) ==> |inputs| == 1
  {
    var autoPaginate := args.autoPaginate.GetOr(true);
    ghost var bound: nat := 1;
    if autoPaginate {
      bound :| 1 <= bound && StartKey(store, args, codec, bound).None?;
    }
    inputs, outputs, results := [], [], [];
    var exclusiveStartKey: Option<AttributeMap> := None;
    while true
      invariant Progress(args, codec, store, inputs, outputs, exclusiveStartKey)
      invariant Decoded(codec, outputs, results)
      invariant |inputs| < bound
      invariant |inputs| > 0 ==> autoPaginate && exclusiveStartKey.Some?
      decreases bound - |inputs|
    {
      ProgressSnoc(args, codec, store, inputs, outputs, exclusiveStartKey);
      var input := PageInputFor(args, exclusiveStartKey, codec);
      var output := store(input);
      DecodedSnoc(codec, outputs, results, output);
      inputs := inputs + [input];
      outputs := outputs + [output];
      results := results + [PageItems(output, codec)];
      exclusiveStartKey := output.lastEvaluatedKey;
      if !(exclusiveStartKey.Some? && autoPaginate) {
        break;
      }
      WithinBound(store, args, codec, |inputs|, bound);
    }
  }

  /** The requests a loop sends are those `StartKey` predicts: when every
      request carries the key the page before it left, page `k` starts at
      `StartKey(k)`. */
  lemma {:induction false} ThreadedStartKeys(args: PageRequest, codec: Codec, store: PageInput -> PageOutput,
                                             inputs: seq<PageInput>, outputs: seq<PageOutput>, k: nat)
    requires Threaded(args, codec, store, inputs, outputs) && k < |inputs|
    ensures inputs[k] == PageInputFor(args, StartKey(store, args, codec, k), codec)
  {
    if k > 0 {
      ThreadedStartKeys(args, codec, store, inputs, outputs, k - 1);
    }
  }

  /** `scanCount`'s argument as the loop sends it: `Select: 'COUNT'` is
      written after the caller's fields. */
  function CountArgs(args: PageRequest): (r: PageRequest)
    ensures r.fields == args.fields["Select" := "COUNT"]
    ensures r.autoPaginate == args.autoPaginate
    ensures r.expressionAttributeValues == args.expressionAttributeValues
  {
    args.(fields := args.fields["Select" := "COUNT"])
  }

  /** Writing `Select: 'COUNT'` into the page request is the same as
      requesting the page for the counting argument. */
  lemma CountInput(args: PageRequest, startKey: Option<AttributeMap>, codec: Codec)
    ensures var input := PageInputFor(args, startKey, codec);
      input.(fields := input.fields["Select" := "COUNT"]) == PageInputFor(CountArgs(args), startKey, codec)
  {
  }

  /** `output.Count ?? 0` */
  function PageCount(output: PageOutput): int {
    output.count.GetOr(0)
  }

  /** `results.reduce((sum, val) => sum + val, 0)` */
  function Sum(s: seq<int>): int {
    if |s| == 0 then 0 else Sum(s[..|s| - 1]) + s[|s| - 1]
  }

  /** The total is additive over any split of the pages. */
  lemma {:induction false} SumConcat(a: seq<int>, b: seq<int>)
    ensures Sum(a + b) == Sum(a) + Sum(b)
    decreases |b|
  {
    if |b| > 0 {
      var last := b[|b| - 1];
      assert (a + b)[..|a + b| - 1] == a + b[..|b| - 1];
      SumConcat(a, b[..|b| - 1]);
    } else {
      assert a + b == a;
    }
  }

  /** The counts the pages carry, in page order; a page without `Count` has
      no entry. */
  function CarriedCounts(outputs: seq<PageOutput>): seq<int> {
    if |outputs| == 0 then []
    else
      var last := outputs[|outputs| - 1];
      CarriedCounts(outputs[..|outputs| - 1]) + (if last.count.Some? then [last.count.value] else [])
  }

  /** Pages without a count add nothing to the total: whatever the mix of
      pages, the per-page values sum to the sum of the counts present. */
  lemma {:induction false} SumOfCounts(outputs: seq<PageOutput>, results: seq<int>)
    requires |results| == |outputs|
    requires forall k :: 0 <= k < |outputs| ==> results[k] == PageCount(outputs[k])
    ensures Sum(results) == Sum(CarriedCounts(outputs))
    decreases |results|
  {
    if |results| > 0 {
      var n := |results| - 1;
      SumOfCounts(outputs[..n], results[..n]);
      var tail := if outputs[n].count.Some? then [outputs[n].count.value] else [];
      SumConcat(CarriedCounts(outputs[..n]), tail);
      assert Sum(tail) == PageCount(outputs[n]) by {
        if tail != [] {
          assert tail[..0] == [];
        }
      }
    }
  }

  /** In particular, when no page carries a count the total is 0. */
  lemma CountlessPagesSumToZero(outputs: seq<PageOutput>, results: seq<int>)
    requires |results| == |outputs|
    requires forall k :: 0 <= k < |outputs| ==> results[k] == PageCount(outputs[k])
    requires forall k :: 0 <= k < |outputs| ==> outputs[k].count.None?
    ensures Sum(results) == 0
  {
    SumOfCounts(outputs, results);
    CarriedCountsOfCountless(outputs);
  }

  lemma {:induction false} CarriedCountsOfCountless(outputs: seq<PageOutput>)
    requires forall k :: 0 <= k < |outputs| ==> outputs[k].count.None?
    ensures CarriedCounts(outputs) == []
    decreases |outputs|
  {
    if |outputs| > 0 {
      CarriedCountsOfCountless(outputs[..|outputs| - 1]);
    }
  }

  /** Each page's count, in order. */
  ghost predicate Counted(outputs: seq<PageOutput>, results: seq<int>) {
    |results| == |outputs| && forall k :: 0 <= k < |outputs| ==> results[k] == PageCount(outputs[k])
  }

  lemma CountedSnoc(outputs: seq<PageOutput>, results: seq<int>, output: PageOutput)
    requires Counted(outputs, results)
    ensures Counted(outputs + [output], results + [PageCount(output)])
  {
  }

  /** Every request of a threaded loop carries the argument's fields. */
  lemma ThreadedFields(args: PageRequest, codec: Codec, store: PageInput -> PageOutput,
                       inputs: seq<PageInput>, outputs: seq<PageOutput>)
    requires Threaded(args, codec, store, inputs, outputs)
    ensures forall k :: 0 <= k < |inputs| ==> inputs[k].fields == args.fields
  {
  }

  /** `scanCount`: the same loop with every request selecting `COUNT`; each
      page's result is its count, 0 when the response has none, and the
      total is their sum. */
  method ScanCount(args: PageRequest, codec: Codec, store: PageInput -> PageOutput)
    returns (inputs: seq<PageInput>, outputs: seq<PageOutput>, result: int, results: seq<int>)
    requires AutoPaginate(args) ==> exists n: nat :: 1 <= n && StartKey(store, CountArgs(args), codec, n).None?
    ensures Threaded(CountArgs(args), codec, store, inputs, outputs) && |results| == |inputs|
    ensures forall k :: 0 <= k < |inputs| ==> inputs[k].fields["Select"] == "COUNT"
    ensures forall k :: 0 <= k < |inputs| ==> results[k] == PageCount(outputs[k])
    ensures |inputs| > 1 ==> AutoPaginate(args) && Continued(outputs)
    ensures AutoPaginate(args) ==> outputs[|inputs| - 1].lastEvaluatedKey.None?
    ensures !AutoPaginate(args) ==> |inputs| == 1
    ensures result == Sum(results)
    ensures result == Sum(CarriedCounts(outputs))
  {
    var autoPaginate := args.autoPaginate.GetOr(true);
    ghost var sent := CountArgs(args);
    ghost var bound: nat := 1;
    if autoPaginate {
      bound :| 1 <= bound && StartKey(store, sent, codec, bound).None?;
    }
    inputs, outputs, results := [], [], [];
    var exclusiveStartKey: Option<AttributeMap> := None;
    while true
      invariant Progress(sent, codec, store, inputs, outputs, exclusiveStartKey)
      invariant Counted(outputs, results)
      invariant |inputs| < bound
      invariant |inputs| > 0 ==> autoPaginate && exclusiveStartKey.Some?
      decreases bound - |inputs|
    {
      ProgressSnoc(sent, codec, store, inputs, outputs, exclusiveStartKey);
      var input := PageInputFor(args, exclusiveStartKey, codec);
      input := input.(fields := input.fields["Select" := "COUNT"]);
      CountInput(args, exclusiveStartKey, codec);
      var output := store(input);
      CountedSnoc(outputs, results, output);
      inputs := inputs + [input];
      outputs := outputs + [output];
      results := results + [output.count.GetOr(0)];
      exclusiveStartKey := output.lastEvaluatedKey;
      if !(exclusiveStartKey.Some? && autoPaginate) {
        break;
      }
      WithinBound(store, sent, codec, |inputs|, bound);
    }
    ThreadedFields(sent, codec, store, inputs, outputs);
    result := Sum(results);
    SumOfCounts(outputs, results);
  }
}
