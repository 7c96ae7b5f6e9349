/** The result shaping of the DynamoDB access class: what `get`, `put`,
    `update`, `batchGet`, `transactGet` and `transactWrite` send and what
    they hand back. The store is given as the response it returns (or, for
    `update`, as an oracle from request to response). */
module DdbFacade {
  import opened Wrappers
  import opened Js
  import opened DdbTypes
  import opened DdbRequests

  // ---------------------------------------------------------------------
  // get, put, update

  /** The part of a `GetItemCommandOutput` that `get` reads. */
  datatype GetOutput = GetOutput(item: Option<AttributeMap>)

  /** `output.Item ? unmarshall(output.Item) : undefined`; an attribute map
      is an object, so it is always truthy. */
  function GetResult(output: GetOutput, codec: Codec): (r: Option<JsObject>)
    ensures r.None? <==> output.item.None?
    ensures output.item.Some? ==> r == Some(codec.unmarshall(output.item.value))
  {
    match output.item
    case None => None
    case Some(item) => Some(codec.unmarshall(item))
  }

  /** The result of `put`: decoded from the item of the request it sent,
      that is from the stamped caller item, not from the store's response.
      The request's item is always present, so the `result === undefined`
      error is never raised. */
  function PutResult(req: PutRequest, now: int, codec: Codec): (r: JsObject)
    ensures r == codec.unmarshall(codec.marshall(Stamp(req.item, now)))
  {
    codec.unmarshall(PutItemCommandInput(req, now, codec).item)
  }

  /** The part of an `UpdateItemCommandOutput` that `update` reads. */
  datatype UpdateOutput = UpdateOutput(attributes: Option<AttributeMap>)

  /** `update`: builds the request as `UpdateItemCommandInput` does (changing
      the caller's records in place), sends it, and decodes the returned
      attributes, an empty object when the response has none. */
  method Update(req: UpdateRequest, now: int, codec: Codec, updateItem: UpdateInput -> UpdateOutput)
    returns (input: UpdateInput, output: UpdateOutput, result: JsObject)
    modifies req
    modifies if req.names.Some? then {req.names.value} else {}
    modifies if req.values.Some? then {req.values.value} else {}
    ensures req.key == old(req.key) && req.updateExpression == old(req.updateExpression)
    ensures req.fields == old(req.fields)
    ensures req.names.Some? && req.values.Some?
    ensures req.names.value.entries
         == (if old(req.names).Some? then old(req.names.value.entries) else map[])[UPDATED_NAME := UPDATED]
    ensures req.values.value.entries
         == BindUpdated(if old(req.values).Some? then old(req.values.value.entries) else map[], now)
    ensures input == UpdateInput(
      codec.marshall(req.key),
      RewriteExpression(req.updateExpression, req.values.value.entries[UPDATED_VALUE] != Undefined),
      req.names.value.entries,
      codec.marshall(req.values.value.entries),
      UpdateFields(req.fields))
    ensures output == updateItem(input)
    ensures output.attributes.Some? ==> result == codec.unmarshall(output.attributes.value)
    ensures output.attributes.None? ==> result == codec.unmarshall(map[])
  {
    input := UpdateItemCommandInput(req, now, codec);
    output := updateItem(input);
    result := codec.unmarshall(output.attributes.GetOr(map[]));
  }

  // ---------------------------------------------------------------------
  // batchGet

  /** One table's entry in a caller's `RequestItems`: plain key objects and
      the other fields (`ProjectionExpression`, ...). */
  datatype KeysAndAttributes = KeysAndAttributes(keys: seq<JsObject>, fields: map<string, string>)

  /** The same entry as sent, keys marshalled. */
  datatype KeysAndAttributesInput = KeysAndAttributesInput(keys: seq<AttributeMap>, fields: map<string, string>)

  datatype BatchGetRequest = BatchGetRequest(requestItems: map<string, KeysAndAttributes>, fields: map<string, string>)

  datatype BatchGetInput = BatchGetInput(requestItems: map<string, KeysAndAttributesInput>, fields: map<string, string>)

  /** `{ ..._.RequestItems[table], Keys: _.RequestItems[table].Keys.map(marshall) }` */
  function KeysInput(entry: KeysAndAttributes, codec: Codec): (r: KeysAndAttributesInput)
    ensures r.fields == entry.fields && |r.keys| == |entry.keys|
    ensures forall k :: 0 <= k < |entry.keys| ==> r.keys[k] == codec.marshall(entry.keys[k])
  {
    KeysAndAttributesInput(seq(|entry.keys|, k requires 0 <= k < |entry.keys| => codec.marshall(entry.keys[k])), entry.fields)
  }

  /** The one property name whose assignment on a plain `{}` does not create
      an own property: it calls the inherited setter, which replaces the
      object's prototype. */
  const ProtoKey := "__proto__"

  /** The request `batchGet` sends: the same tables, each with its keys
      marshalled one by one and its other fields kept; the request's other
      fields are kept too. The tables are gathered by assignment into a plain
      `{}`, so a table named `__proto__` becomes the prototype of the
      gathered object and is not sent. */
  function BatchGetItemInput(req: BatchGetRequest, codec: Codec): (r: BatchGetInput)
    ensures r.fields == req.fields
    ensures r.requestItems.Keys == req.requestItems.Keys - {ProtoKey}
    ensures ProtoKey !in r.requestItems
    ensures forall t :: t in r.requestItems ==> r.requestItems[t] == KeysInput(req.requestItems[t], codec)
  {
    BatchGetInput(map t | t in req.requestItems && t != ProtoKey :: KeysInput(req.requestItems[t], codec), req.fields)
  }

  /** The names every plain object inherits from `Object.prototype`. On the
      `{}` that `batchGet` fills, `result[name]` is one of these members,
      never `undefined`, and none of them has a `push` method. */
  const InheritedNames: set<string> := {
    "constructor", "__defineGetter__", "__defineSetter__", "hasOwnProperty",
    "__lookupGetter__", "__lookupSetter__", "isPrototypeOf", "propertyIsEnumerable",
    "toString", "valueOf", ProtoKey, "toLocaleString" }

  /** The `TypeError` of calling `push` on an inherited member. */
  const PushNotAFunction := JsError("result[tableName].push is not a function")

  /** The result of `batchGet`: one entry per table of the response's
      `Responses`, holding that table's items decoded in response order; no
      tables at all when the response has no `Responses`. Tables are visited
      in any order. A table named after an inherited member finds that
      member instead of `undefined`, so it gets no entry: with no items it
      is skipped, with items the `push` throws. */
  method BatchGetResult(responses: Option<map<string, seq<AttributeMap>>>, codec: Codec)
    returns (result: Result<map<string, seq<JsObject>>>)
    ensures responses.None? ==> result == Ok(map[])
    ensures responses.Some? ==>
      (result.Err? <==> exists t :: t in responses.value && t in InheritedNames && |responses.value[t]| > 0)
    ensures result.Err? ==> result.error == PushNotAFunction
    ensures responses.Some? && result.Ok? ==> result.value.Keys == responses.value.Keys - InheritedNames
    ensures responses.Some? && result.Ok? ==>
      forall t :: t in result.value ==> result.value[t] == UnmarshallAll(responses.value[t], codec)
  {
    var out: map<string, seq<JsObject>> := map[];
    if responses.Some? {
      var tables := responses.value;
      var remaining := tables.Keys;
      while remaining != {}
        invariant remaining <= tables.Keys
        invariant out.Keys == tables.Keys - remaining - InheritedNames
        invariant forall t :: t in out ==> out[t] == UnmarshallAll(tables[t], codec)
        invariant forall t :: t in tables && t !in remaining && t in InheritedNames ==> |tables[t]| == 0
        decreases |remaining|
      {
        var tableName :| tableName in remaining;
        var items := tables[tableName];
        if tableName in InheritedNames {
          if |items| > 0 {
            return Err(PushNotAFunction);
          }
        } else {
          if tableName !in out {
            out := out[tableName := []];
          }
          // `result[tableName]` is the array the loop pushes onto.
          var list := out[tableName];
          for j := 0 to |items|
            invariant list == UnmarshallAll(items[..j], codec)
          {
            UnmarshallAllSnoc(items, j, codec);
            list := list + [codec.unmarshall(items[j])];
          }
          assert items[..|items|] == items;
          out := out[tableName := list];
        }
        remaining := remaining - {tableName};
      }
    }
    result := Ok(out);
  }

  // ---------------------------------------------------------------------
  // transactGet, transactWrite

  /** `{ ...defaults, ..._ }`: the caller's fields are written after the
      defaults, so a field the caller gives wins. */
  function WithDefaults(defaults: map<string, string>, fields: map<string, string>): (r: map<string, string>)
    ensures r.Keys == defaults.Keys + fields.Keys
    ensures forall k :: k in fields ==> r[k] == fields[k]
    ensures forall k :: k in defaults && k !in fields ==> r[k] == defaults[k]
  {
    defaults + fields
  }

  /** A caller's `TransactGetItemsCommandInput`: the `Get` entries, as built
      by `Get`, and the other fields. */
  datatype TransactGetRequest = TransactGetRequest(transactItems: seq<KeyInput>, fields: map<string, string>)

  /** The request `transactGet` sends: `ReturnConsumedCapacity` `NONE` unless
      the caller chose another; the entries are passed on unchanged. */
  function TransactGetItemsInput(req: TransactGetRequest): (r: TransactGetRequest)
    ensures r.transactItems == req.transactItems
    ensures r.fields == WithDefaults(map["ReturnConsumedCapacity" := "NONE"], req.fields)
  {
    req.(fields := map["ReturnConsumedCapacity" := "NONE"] + req.fields)
  }

  /** The part of a `TransactGetItemsCommandOutput` that `transactGet`
      reads: the `Item` of each `ItemResponse`, when there is one. */
  datatype TransactGetOutput = TransactGetOutput(responses: Option<seq<Option<AttributeMap>>>)

  /** `(output.Responses ?? []).map(...)`: one entry per response, in order;
      the decoded item, or nothing where the response has no item. */
  function TransactGetResult(output: TransactGetOutput, codec: Codec): (r: seq<Option<JsObject>>)
    ensures var responses := output.responses.GetOr([]);
      && |r| == |responses|
      && (forall k :: 0 <= k < |r| ==> (r[k].None? <==> responses[k].None?))
      && (forall k :: 0 <= k < |r| && responses[k].Some? ==> r[k] == Some(codec.unmarshall(responses[k].value)))
  {
    var responses := output.responses.GetOr([]);
    seq(|responses|, k requires 0 <= k < |responses| =>
      match responses[k]
      case Some(item) => Some(codec.unmarshall(item))
      case None => None)
  }

  /** One entry of `TransactItems` in a `TransactWriteItemsCommandInput`, as
      built by `ConditionCheck`, `Put`, `Delete` and `Update`. */
  datatype TransactWriteItem =
    | ConditionCheckItem(conditionCheck: KeyInput)
    | PutItem(put: PutInput)
    | DeleteItem(delete: KeyInput)
    | UpdateItem(update: UpdateInput)

  datatype TransactWriteRequest = TransactWriteRequest(transactItems: seq<TransactWriteItem>, fields: map<string, string>)

  /** The request `transactWrite` sends: `ReturnConsumedCapacity` and
      `ReturnItemCollectionMetrics` `NONE` unless the caller chose otherwise;
      the entries are passed on unchanged. */
  function TransactWriteItemsInput(req: TransactWriteRequest): (r: TransactWriteRequest)
    ensures r.transactItems == req.transactItems
    ensures r.fields == WithDefaults(map["ReturnConsumedCapacity" := "NONE", "ReturnItemCollectionMetrics" := "NONE"], req.fields)
  {
    req.(fields := map["ReturnConsumedCapacity" := "NONE", "ReturnItemCollectionMetrics" := "NONE"] + req.fields)
  }

  /** `update` always sends `ReturnConsumedCapacity` `NONE` and
      `ReturnValues` `ALL_NEW`, whatever the caller asked for, while
      `transactGet` and `transactWrite` send the caller's choice. */
  lemma UpdateForcesTransactDefers(fields: map<string, string>, choice: string)
    ensures UpdateFields(fields["ReturnConsumedCapacity" := choice])["ReturnConsumedCapacity"] == "NONE"
    ensures UpdateFields(fields["ReturnValues" := choice])["ReturnValues"] == "ALL_NEW"
    ensures TransactGetItemsInput(TransactGetRequest([], fields["ReturnConsumedCapacity" := choice])).fields["ReturnConsumedCapacity"] == choice
    ensures TransactWriteItemsInput(TransactWriteRequest([], fields["ReturnConsumedCapacity" := choice])).fields["ReturnConsumedCapacity"] == choice
    ensures TransactWriteItemsInput(TransactWriteRequest([], fields["ReturnItemCollectionMetrics" := choice])).fields["ReturnItemCollectionMetrics"] == choice
  {
  }

  /** Without a caller choice the transactions send `NONE`. */
  lemma TransactDefaultsApply(fields: map<string, string>)
    requires "ReturnConsumedCapacity" !in fields && "ReturnItemCollectionMetrics" !in fields
    ensures TransactGetItemsInput(TransactGetRequest([], fields)).fields["ReturnConsumedCapacity"] == "NONE"
    ensures TransactWriteItemsInput(TransactWriteRequest([], fields)).fields["ReturnConsumedCapacity"] == "NONE"
    ensures TransactWriteItemsInput(TransactWriteRequest([], fields)).fields["ReturnItemCollectionMetrics"] == "NONE"
  {
  }
}
