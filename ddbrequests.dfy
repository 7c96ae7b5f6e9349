/** The request builders of the DynamoDB access class: the key-marshalling
    builders, the metadata stamping of `PutItemCommandInput` and the update
    expression injection of `UpdateItemCommandInput`. The clock value
    `Date.now()` is the parameter `now`, in milliseconds. */
module DdbRequests {
  import opened Wrappers
  import opened Js
  import opened JsString
  import opened DdbTypes

  // ---------------------------------------------------------------------
  // Key builders

  /** `{ ..._, Key: marshall(_.Key) }`, the body shared by `Get` (through
      `GetItemCommandInput`), `Delete` (through `DeleteItemCommandInput`) and
      `ConditionCheck`: every other field is kept and only the key is
      converted. */
  function KeyedInput(req: KeyRequest, codec: Codec): (r: KeyInput)
    ensures r.fields == req.fields
    ensures r.key == codec.marshall(req.key)
  {
    KeyInput(codec.marshall(req.key), req.fields)
  }

  // ---------------------------------------------------------------------
  // Put: metadata stamping

  /** The timestamp attribute value `Date.now()`. */
  function Timestamp(now: int): JsValue {
    Number(Num(now))
  }

  /** The item `PutItemCommandInput` marshals: the caller's item with `_c`
      and `_u` set to `now` unless the item already owns them. */
  function Stamp(item: JsObject, now: int): (r: JsObject)
    ensures r.Keys == item.Keys + {CREATED, UPDATED}
    ensures CREATED in item ==> r[CREATED] == item[CREATED]
    ensures CREATED !in item ==> r[CREATED] == Timestamp(now)
    ensures UPDATED in item ==> r[UPDATED] == item[UPDATED]
    ensures UPDATED !in item ==> r[UPDATED] == Timestamp(now)
    ensures forall k :: k in item && k != CREATED && k != UPDATED ==> r[k] == item[k]
  {
    var createdOwnProperty := CREATED in item;
    var updatedOwnProperty := UPDATED in item;
    item[CREATED := if createdOwnProperty then item[CREATED] else Timestamp(now)]
        [UPDATED := if updatedOwnProperty then item[UPDATED] else Timestamp(now)]
  }

  /** A new item gets one timestamp for both its creation and its update. */
  lemma StampNewItem(item: JsObject, now: int)
    requires CREATED !in item && UPDATED !in item
    ensures Stamp(item, now)[CREATED] == Stamp(item, now)[UPDATED] == Timestamp(now)
    ensures Stamp(item, now) - {CREATED, UPDATED} == item
  {
  }

  /** Stamping an item twice, at any two times, is stamping it once: the
      second pass finds both attributes and keeps them. */
  lemma StampIdempotent(item: JsObject, now: int, later: int)
    ensures Stamp(Stamp(item, now), later) == Stamp(item, now)
  {
    var once := Stamp(item, now);
    assert Stamp(once, later).Keys == once.Keys;
  }

  /** An item that carries both attributes is left as it is, whatever their
      values (`undefined` included). */
  lemma StampKeepsStampedItem(item: JsObject, now: int)
    requires CREATED in item && UPDATED in item
    ensures Stamp(item, now) == item
  {
    assert Stamp(item, now).Keys == item.Keys;
  }

  /** `PutItemCommandInput` (also `Put`, which casts its result): the
      stamped item and the expression attribute values, when given, are
      marshalled; every other field is kept. */
  function PutItemCommandInput(req: PutRequest, now: int, codec: Codec): (r: PutInput)
    ensures r.item == codec.marshall(Stamp(req.item, now))
    ensures r.expressionAttributeValues.Some? <==> req.expressionAttributeValues.Some?
    ensures req.expressionAttributeValues.Some? ==>
      r.expressionAttributeValues.value == codec.marshall(req.expressionAttributeValues.value)
    ensures r.fields == req.fields
  {
    PutInput(
      codec.marshall(Stamp(req.item, now)),
      match req.expressionAttributeValues
      case Some(v) => Some(codec.marshall(v))
      case None => None,
      req.fields)
  }

  // ---------------------------------------------------------------------
  // Update: expression injection

  const UPDATED_NAME := "#_u"
  const UPDATED_VALUE := ":_u"
  const UPDATED_SET := "SET #_u = :_u"

  /** The caller's `ExpressionAttributeValues` after `UpdateItemCommandInput`:
      `:_u` is bound to `now` unless the caller bound it already; no caller
      binding changes. */
  function BindUpdated(values: JsObject, now: int): (r: JsObject)
    ensures r.Keys == values.Keys + {UPDATED_VALUE}
    ensures forall k :: k in values ==> r[k] == values[k]
    ensures UPDATED_VALUE !in values ==> r[UPDATED_VALUE] == Timestamp(now)
  {
    if UPDATED_VALUE in values then values else values[UPDATED_VALUE := Timestamp(now)]
  }

  /** Binding `:_u` a second time changes nothing. */
  lemma BindUpdatedIdempotent(values: JsObject, now: int, later: int)
    ensures BindUpdated(BindUpdated(values, now), later) == BindUpdated(values, now)
  {
  }

  /** `${_.UpdateExpression}` in the append branch: an absent expression is
      written "undefined". */
  function TemplateString(expr: Option<string>): string {
    match expr
    case Some(e) => e
    case None => "undefined"
  }

  /** The `UpdateExpression` of the built input. When `:_u` is bound to a
      defined value the stamp clause is injected: into the first "SET "
      found anywhere in the text, or else appended as a new clause;
      otherwise the expression is untouched. */
  function RewriteExpression(expr: Option<string>, stampDefined: bool): (r: Option<string>)
    ensures !stampDefined ==> r == expr
    ensures stampDefined && expr.Some? && Includes(expr.value, "SET ") ==>
      var e := expr.value;
      var i := IndexOf(e, "SET ").value;
      r == Some(e[..i] + UPDATED_SET + ", " + e[i + 4..])
    ensures stampDefined && expr.Some? && !Includes(expr.value, "SET ") ==>
      r == Some(expr.value + " " + UPDATED_SET)
    ensures stampDefined && expr.None? ==> r == Some("undefined SET #_u = :_u")
  {
    if !stampDefined then expr
    else if expr.Some? && Includes(expr.value, "SET ") then
      var e := expr.value;
      var i := IndexOf(e, "SET ").value;
      assert |"SET "| == 4;
      assert ReplaceFirst(e, "SET ", UPDATED_SET + ", ") == e[..i] + (UPDATED_SET + ", ") + e[i + 4..];
      assert e[..i] + (UPDATED_SET + ", ") + e[i + 4..] == e[..i] + UPDATED_SET + ", " + e[i + 4..];
      Some(ReplaceFirst(e, "SET ", UPDATED_SET + ", "))
    else
      assert expr.None? ==> TemplateString(expr) + " " + UPDATED_SET == "undefined SET #_u = :_u";
      Some(TemplateString(expr) + " " + UPDATED_SET)
  }

  /** Whenever `:_u` is bound to a defined value, the built expression sets
      `#_u` to `:_u`. */
  lemma {:induction false} RewriteSetsUpdated(expr: Option<string>)
    ensures Includes(RewriteExpression(expr, true).value, UPDATED_SET)
  {
    var r := RewriteExpression(expr, true).value;
    if expr.Some? && Includes(expr.value, "SET ") {
      var e := expr.value;
      var i := IndexOf(e, "SET ").value;
      var p, q := e[..i], ", " + e[i + 4..];
      assert r == p + UPDATED_SET + q;
      IncludesBetween(p, UPDATED_SET, q);
    } else {
      var p := TemplateString(expr) + " ";
      assert r == p + UPDATED_SET;
      assert r == p + UPDATED_SET + "";
      IncludesBetween(p, UPDATED_SET, "");
    }
  }

  /** The substring test does not look at words: a text that reaches its
      first "SET " inside another word is rewritten there. With `p` free of
      the letter 'S', the first "SET " is the one right after `p`: for
      example "ADD RESET :one" (`p` = "ADD RE", `q` = ":one"), whose only
      "SET " ends the attribute name `RESET`, becomes
      "ADD RESET #_u = :_u, :one". */
  lemma {:induction false} RewriteAtFirstSet(p: string, q: string)
    requires forall k :: 0 <= k < |p| ==> p[k] != 'S'
    ensures RewriteExpression(Some(p + "SET " + q), true) == Some(p + UPDATED_SET + ", " + q)
  {
    var e := p + "SET " + q;
    assert OccursAt(e, "SET ", |p|) by {
      assert e[|p|..|p| + 4] == "SET ";
    }
    forall j | 0 <= j < |p| ensures !OccursAt(e, "SET ", j) {
      assert e[j] == p[j];
    }
    assert IndexOf(e, "SET ") == Some(|p|);
    assert e[..|p|] == p && e[|p| + 4..] == q;
  }

  /** The other fields of the built update input: `ReturnConsumedCapacity`
      and `ReturnValues` are written after the caller's fields, so they
      override whatever the caller gave. */
  function UpdateFields(fields: map<string, string>): (r: map<string, string>)
    ensures r.Keys == fields.Keys + {"ReturnConsumedCapacity", "ReturnValues"}
    ensures r["ReturnConsumedCapacity"] == "NONE" && r["ReturnValues"] == "ALL_NEW"
    ensures forall k :: k in fields && k != "ReturnConsumedCapacity" && k != "ReturnValues" ==> r[k] == fields[k]
  {
    fields["ReturnConsumedCapacity" := "NONE"]["ReturnValues" := "ALL_NEW"]
  }

  /** A plain JavaScript object owned by the caller and updated in place: the
      `ExpressionAttributeNames` or `ExpressionAttributeValues` record. */
  class Dict<V> {
    var entries: map<string, V>

    constructor()
      ensures entries == map[]
    {
      entries := map[];
    }
  }

  /** The caller's argument to `update` and `Update`, an object whose two
      expression records `UpdateItemCommandInput` fills in. */
  class UpdateRequest {
    var key: JsObject
    var updateExpression: Option<string>
    var names: Option<Dict<string>>
    var values: Option<Dict<JsValue>>
    var fields: map<string, string>

    constructor(key: JsObject, updateExpression: Option<string>, names: Option<Dict<string>>,
                values: Option<Dict<JsValue>>, fields: map<string, string>)
      ensures this.key == key && this.updateExpression == updateExpression
      ensures this.names == names && this.values == values && this.fields == fields
    {
      this.key := key;
      this.updateExpression := updateExpression;
      this.names := names;
      this.values := values;
      this.fields := fields;
    }
  }

  /** `_.ExpressionAttributeNames ??= {}` followed by
      `_.ExpressionAttributeNames['#_u'] = '_u'`. */
  method NameUpdated(req: UpdateRequest)
    modifies req
    modifies if req.names.Some? then {req.names.value} else {}
    ensures req.key == old(req.key) && req.updateExpression == old(req.updateExpression)
    ensures req.fields == old(req.fields) && req.values == old(req.values)
    ensures req.names.Some?
    ensures old(req.names).Some? ==> req.names == old(req.names)
    ensures old(req.names).None? ==> fresh(req.names.value)
    ensures req.names.value.entries
         == (if old(req.names).Some? then old(req.names.value.entries) else map[])[UPDATED_NAME := UPDATED]
  {
    if req.names.None? {
      var created := new Dict<string>();
      req.names := Some(created);
    }
    var names := req.names.value;
    names.entries := names.entries[UPDATED_NAME := UPDATED];
  }

  /** `_.ExpressionAttributeValues ??= {}` followed by binding `:_u` to the
      timestamp unless the record owns `:_u` already. */
  method BindUpdatedValue(req: UpdateRequest, now: int)
    modifies req
    modifies if req.values.Some? then {req.values.value} else {}
    ensures req.key == old(req.key) && req.updateExpression == old(req.updateExpression)
    ensures req.fields == old(req.fields) && req.names == old(req.names)
    ensures req.values.Some?
    ensures old(req.values).Some? ==> req.values == old(req.values)
    ensures old(req.values).None? ==> fresh(req.values.value)
    ensures req.values.value.entries
         == BindUpdated(if old(req.values).Some? then old(req.values.value.entries) else map[], now)
  {
    if req.values.None? {
      var created := new Dict<JsValue>();
      req.values := Some(created);
    }
    var values := req.values.value;
    if !(UPDATED_VALUE in values.entries) {
      values.entries := values.entries[UPDATED_VALUE := Timestamp(now)];
    }
  }

  /** `UpdateItemCommandInput` (also `Update`, which casts its result). The
      caller's records are created when absent and then changed in place:
      `#_u` always names `_u`, and `:_u` is bound to `now` unless the caller
      bound it. The built input carries the marshalled key and values, the
      rewritten expression, and `ReturnConsumedCapacity` `NONE` and
      `ReturnValues` `ALL_NEW` whatever the caller asked for. */
  method UpdateItemCommandInput(req: UpdateRequest, now: int, codec: Codec) returns (input: UpdateInput)
    modifies req
    modifies if req.names.Some? then {req.names.value} else {}
    modifies if req.values.Some? then {req.values.value} else {}
    ensures req.key == old(req.key) && req.updateExpression == old(req.updateExpression)
    ensures req.fields == old(req.fields)
    ensures req.names.Some? && req.values.Some?
    ensures old(req.names).Some? ==> req.names == old(req.names)
    ensures old(req.names).None? ==> fresh(req.names.value)
    ensures old(req.values).Some? ==> req.values == old(req.values)
    ensures old(req.values).None? ==> fresh(req.values.value)
    ensures req.names.value.entries
         == (if old(req.names).Some? then old(req.names.value.entries) else map[])[UPDATED_NAME := UPDATED]
    ensures req.values.value.entries
         == BindUpdated(if old(req.values).Some? then old(req.values.value.entries) else map[], now)
    ensures input == UpdateInput(
      codec.marshall(req.key),
      RewriteExpression(req.updateExpression, req.values.value.entries[UPDATED_VALUE] != Undefined),
      req.names.value.entries,
      codec.marshall(req.values.value.entries),
      UpdateFields(req.fields))
  {
    NameUpdated(req);
    BindUpdatedValue(req, now);
    var values := req.values.value.entries;
    var stampDefined := values[UPDATED_VALUE] != Undefined;
    input := UpdateInput(
      codec.marshall(req.key),
      RewriteExpression(req.updateExpression, stampDefined),
      req.names.value.entries,
      codec.marshall(values),
      UpdateFields(req.fields));
  }
}
