/** `getAPIGatewayProxyResult(args)`: builds an API Gateway proxy response,
    filling `body` and `statusCode` and copying every other field. Objects are
    maps from property name to value; `JSON.stringify` is a parameter. */
module ApiGateway {
  import opened Wrappers
  import opened Js

  /** `body === undefined ? '' : isString(body) ? body : JSON.stringify(body)` */
  function BodyString(body: JsValue, jsonStringify: JsValue -> string): string {
    match body
    case Undefined => ""
    case Str(s) => s
    case _ => jsonStringify(body)
  }

  function GetAPIGatewayProxyResult(args: Option<JsObject>, jsonStringify: JsValue -> string): (r: JsObject)
    ensures r.Keys == args.GetOr(map[]).Keys + {"body", "statusCode"}
    ensures var body := Property(args.GetOr(map[]), "body");
      r["body"] == if body.Undefined? then Str("") else if body.Str? then body else Str(jsonStringify(body))
    ensures var code := Property(args.GetOr(map[]), "statusCode");
      r["statusCode"] == if code.Undefined? || code.Null? then Number(Num(200)) else code
    ensures forall k :: k in args.GetOr(map[]) && k != "body" && k != "statusCode" ==>
      r[k] == args.GetOr(map[])[k]
  {
    var o := args.GetOr(map[]);
    var body := Property(o, "body");
    var statusCode := Property(o, "statusCode");
    var rest := o - {"body", "statusCode"};
    var response := map["body" := Str(BodyString(body, jsonStringify)),
                        "statusCode" := if statusCode.Undefined? || statusCode.Null? then Number(Num(200)) else statusCode];
    response + rest
  }

  /** With no arguments the response is an empty body with status 200. */
  lemma NoArgumentsDefaults(jsonStringify: JsValue -> string)
    ensures GetAPIGatewayProxyResult(None, jsonStringify)
         == map["body" := Str(""), "statusCode" := Number(Num(200))]
  {
    var r := GetAPIGatewayProxyResult(None, jsonStringify);
    assert r.Keys == {"body", "statusCode"};
  }
}
