/** The records the DynamoDB access class exchanges with the SDK.

    Caller items are plain objects (`JsObject`). On the wire an item is an
    attribute map, a record of `AttributeValue`s; `marshall` and `unmarshall`
    from the AWS SDK convert between the two and are parameters here
    (`Codec`), with no round trip claimed between them. Each request record
    keeps the fields the modelled code reads or writes by name, and gathers
    the remaining string-valued fields (`TableName`, `ConditionExpression`,
    `ReturnValues`, ...) in `fields`, so that `{ ..._, X: v }` is
    `fields[X := v]` and `{ X: v, ..._ }` is `map[X := v] + fields`. */
module DdbTypes {
  import opened Wrappers
  import opened Js

  /** The SDK's `AttributeValue`: string, number (as its decimal text),
      boolean, null, map and list. */
  datatype AttributeValue =
    | S(s: string)
    | N(n: string)
    | BOOL(b: bool)
    | NULL
    | M(m: map<string, AttributeValue>)
    | L(l: seq<AttributeValue>)

  type AttributeMap = map<string, AttributeValue>

  /** `marshall(_, Ddb.MarshallOptions)` and `unmarshall(_, Ddb.UnmarshallOptions)`. */
  datatype Codec = Codec(marshall: JsObject -> AttributeMap, unmarshall: AttributeMap -> JsObject)

  /** `items.map((item) => unmarshall(item))` */
  function UnmarshallAll(items: seq<AttributeMap>, codec: Codec): (r: seq<JsObject>)
    ensures |r| == |items| && forall k :: 0 <= k < |items| ==> r[k] == codec.unmarshall(items[k])
  {
    seq(|items|, k requires 0 <= k < |items| => codec.unmarshall(items[k]))
  }

  /** Decoding one more item appends its decoding. */
  lemma UnmarshallAllSnoc(items: seq<AttributeMap>, j: nat, codec: Codec)
    requires j < |items|
    ensures UnmarshallAll(items[..j + 1], codec) == UnmarshallAll(items[..j], codec) + [codec.unmarshall(items[j])]
  {
    assert UnmarshallAll(items[..j + 1], codec)[..j] == UnmarshallAll(items[..j], codec);
  }

  /** The names of the metadata attributes, `Ddb.AttributeNames`. */
  const CREATED := "_c"
  const PRIMARY_KEY := "_pk"
  const SORT_KEY := "_sk"
  const UPDATED := "_u"

  /** A caller's `Get`, `Delete` or `ConditionCheck` argument: a plain key
      object and the other fields. */
  datatype KeyRequest = KeyRequest(key: JsObject, fields: map<string, string>)

  /** The same with the key marshalled: a `GetItemCommandInput`,
      `DeleteItemCommandInput` or `ConditionCheck`. */
  datatype KeyInput = KeyInput(key: AttributeMap, fields: map<string, string>)

  /** A caller's `Put` argument. */
  datatype PutRequest = PutRequest(
    item: JsObject,
    expressionAttributeValues: Option<JsObject>,
    fields: map<string, string>)

  /** A `PutItemCommandInput`. */
  datatype PutInput = PutInput(
    item: AttributeMap,
    expressionAttributeValues: Option<AttributeMap>,
    fields: map<string, string>)

  /** An `UpdateItemCommandInput`. */
  datatype UpdateInput = UpdateInput(
    key: AttributeMap,
    updateExpression: Option<string>,
    expressionAttributeNames: map<string, string>,
    expressionAttributeValues: AttributeMap,
    fields: map<string, string>)
}
