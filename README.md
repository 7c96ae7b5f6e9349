# uqee/stdlib in Dafny

A model of the logic in the TypeScript utility library `uqee/stdlib`, with proofs about it. The model covers:

- **The DynamoDB access class** (`Ddb`), its request and result shaping:
  - the key-marshalling builders `Get`, `Delete` and `ConditionCheck`;
  - the `_c`/`_u` metadata stamping of `PutItemCommandInput`;
  - the in-place update of the caller's expression records by `UpdateItemCommandInput`, and its textual rewrite of `UpdateExpression`;
  - the `query`, `scan` and `scanCount` page loops;
  - the results of `get`, `put`, `update`, `batchGet` and `transactGet`;
  - the field defaults of `transactGet` and `transactWrite`.
- **The smaller utilities**:
  - the multi-key comparator `arraySortBy` and the indexer `arrayToObject`;
  - `toLogLevel` and the environment readers `envToInteger`, `envToString` and `envToBoolean`;
  - the validators `assertDefineds`, `assertDefinedNotNans` and `isDefinedNotNan`;
  - `enumNumericValues` and `getAPIGatewayProxyResult`;
  - `dateToString`.
- **The two loggers.** `FileLogger` and `ConsoleLogger` are modelled up to the level gate and what each builds for one message.
- **The response handling of the Google Maps wrapper.**

Modules, one per file:

| module | file |
|---|---|
| `Wrappers` | `Option`, `Result`, `Outcome` and `JsError` |
| `Js` | JavaScript values (numbers are integers or NaN, objects are opaque), `parseInt(_, 10)`, numeric coercion, decimal `toString`, and `<` on values |
| `JsString` | `indexOf`, `includes`, `replace` with a string pattern, `substring` and `join` |
| `Validators`, `Env`, `LogLevels`, `SortBy`, `ArrayToObject`, `EnumValues`, `ApiGateway`, `DateFormat` | one utility each |
| `Loggers` | the gate and lazy thunk evaluation both loggers share |
| `FileLogging`, `ConsoleLogging` | the two logger classes |
| `Google` | the Google Maps response handling |
| `DdbTypes` | attribute values, the codec and the request records of the DynamoDB class |
| `DdbRequests` | the request builders |
| `DdbPaging` | the page loops |
| `DdbFacade` | the result shaping |

Outside pieces are parameters or left out:

- **Codec.** `marshall` and `unmarshall` are a pair of functions, `Codec`. No round trip between them is claimed.
- **Table.** The table is an oracle from request to response.
- **Clocks.** `Date.now()` is an integer parameter `now`. `new Date().toISOString()` is a string parameter.
- **Formatting.** `util.inspect` and `JSON.stringify` are functions to strings.
- **Requests.** A request record keeps by name the fields the code reads or writes. It gathers the remaining string-valued fields in `fields`. So the spread `{ ..._, X: v }` is `fields[X := v]`, and `{ X: v, ..._ }` is `map[X := v] + fields`.

## Model

| member | source | states |
|---|---|---|
| Js.ParseIntDigitsThenRest | src/toLogLevel.ts:11 | `parseInt(_, 10)` reads a leading run of digits, negated after a `-`, and ignores what follows |
| Js.ParseIntToString | src/toLogLevel.ts:11 | `parseInt` reads back every integer written in decimal |
| Js.StringToNumberOfWord | src/enumNumericValues.ts:4 | a string starting with an identifier character coerces to NaN under unary `+` |
| Js.ToPrimitive | src/arraySortBy.ts:12 | the primitive a value compares by is a primitive; primitives are unchanged |
| Js.JsLessIrreflexive | src/arraySortBy.ts:12 | `x < x` is false for every value |
| Js.JsLessAsymmetric | src/arraySortBy.ts:12-13 | `a < b` and `b < a` never both hold, so the comparator's two tests never disagree |
| JsString.IndexOf | src/Ddb.ts:184-185 | the index found is an occurrence with none before it; none is found iff there is no occurrence |
| JsString.IncludesIff | src/Ddb.ts:184 | `includes` holds iff the pattern occurs at some index |
| JsString.IncludesBetween | src/Ddb.ts:184 | a text with the pattern between two other texts includes it |
| JsString.ReplaceFirst | src/Ddb.ts:185 | only the first occurrence is replaced: the text before it and after it is unchanged; with no occurrence the string is unchanged |
| JsString.Substring | src/Logger/FileLogger.ts:66 | in-range bounds give the slice between them |
| JsString.PrefixedDropSeparator | src/Logger/FileLogger.ts:52-66 | a line built by `line += ' ' + w` per word, then cut by `substring(1)`, is the words joined by single spaces |
| Validators.Assert | src/assert.ts:2-4 | passes iff the condition holds, else fails with the given message ("" when absent) |
| Validators.IsDefinedNotNanCases | src/isDefinedNotNan.ts:1-3 | false exactly for `undefined` and numeric NaN; true for other numbers, `null`, strings (also "NaN") and objects |
| Validators.AssertDefineds | src/assertDefineds.ts:4-6 | passes iff no element is `undefined` (`null` passes, the empty list passes); a failure carries the message |
| Validators.AssertDefinedNotNans | src/assertDefinedNotNans.ts:4-9 | passes iff every element is defined and not numeric NaN; a failure carries the message |
| Env.EnvToInteger | src/envToInteger.ts:5-20 | throws on `undefined` and on unparsable input; with an allow-list returns the parsed integer iff it is listed, else throws; without one returns it |
| Env.EnvToString | src/envToString.ts:3-12 | throws on `undefined`; with a list returns the input iff it is listed, else throws `Unknown ENV value: <s>`; without one returns it |
| Env.EnvToBoolean | src/envToBoolean.ts:3-6 | `"true"` gives true, `"false"` gives false, and everything else, `undefined` included, throws |
| Env.EnvToBooleanIsCaseSensitive | src/envToBoolean.ts:4 | `"TRUE"`, `"False"` and `undefined` throw |
| LogLevels.Clamp | src/toLogLevel.ts:14-17 | in-range integers are kept; above SPAM gives SPAM and below SILENT gives SILENT |
| LogLevels.ToLogLevel | src/toLogLevel.ts:8-18 | `undefined` and unparsable strings give `undefined`; any parsed integer is clamped into range |
| LogLevels.ToLogLevelOfName | src/toLogLevel.ts:11-17 | every level written in decimal reads back as itself |
| LogLevels.ToLogLevelOfDigits | src/toLogLevel.ts:11-17 | a leading (optionally negated) digit run is read and clamped, and the rest is ignored |
| LogLevels.ToLogLevelRejectsWords | src/toLogLevel.ts:11-12 | `"debug"` gives `undefined` |
| LogLevels.ToLogLevelOfParsed | src/toLogLevel.ts:11-17 | whatever integer `parseInt` reads from the string is clamped into the level range |
| LogLevels.ToLogLevelClampsHigh | src/toLogLevel.ts:14-17 | `"9"` is clamped down to SPAM |
| LogLevels.ToLogLevelClampsLow | src/toLogLevel.ts:14-17 | `"-3"` is clamped up to SILENT |
| Loggers.GateIsPrefix | src/Logger/FileLogger.ts:48 | a message passes iff its level is at most the configured level |
| Loggers.GateMonotone | src/Logger/FileLogger.ts:48 | a logger that lets a level through lets every lower level through |
| Loggers.SilentSuppresses | src/Logger/ConsoleLogger.ts:44 | a SILENT logger lets no level through |
| Loggers.Values | src/Logger/FileLogger.ts:57-58 | one value per thunk, each that thunk's result, in order |
| EnumValues.Filter | src/enumNumericValues.ts:4 | every kept element is accepted; every accepted element is kept; the result is an order-preserving subsequence |
| EnumValues.FilterCounts | src/enumNumericValues.ts:4 | each accepted value is kept exactly as many times as it occurs, and a rejected value not at all |
| EnumValues.FilterConcat | src/enumNumericValues.ts:4 | filtering a concatenation is the concatenation of the filtered parts |
| EnumValues.FilterDropsRejected | src/enumNumericValues.ts:4 | rejected leading elements contribute nothing |
| EnumValues.FilterKeepsAccepted | src/enumNumericValues.ts:4 | a list of accepted elements is kept whole |
| EnumValues.EnumNumericValues | src/enumNumericValues.ts:3-4 | only values whose numeric coercion is not NaN are kept, in input order, each as many times as it occurs (two members with the same value give it twice) |
| EnumValues.NumericEnumValues | src/enumNumericValues.test.ts:5-13 | reverse-mapping names followed by numbers give exactly the numbers, so `{A=1,B=2,C=3}` gives `[1,2,3]` |
| ApiGateway.GetAPIGatewayProxyResult | src/getAPIGatewayProxyResult.ts:8-24 | `body` is `''` when absent, a string as is, else `JSON.stringify`; `statusCode` is 200 only when null or absent; every other field is copied and cannot override those two |
| ApiGateway.NoArgumentsDefaults | src/getAPIGatewayProxyResult.ts:14-20 | no arguments give exactly `{ body: '', statusCode: 200 }` |
| DateFormat.DateToStringOfIso | src/Logger/dateToString.ts:1-3 | an ISO string gives 19 characters: the date, a space where the `T` was, the time to the second; no other character changes |
| FileLogging.Renderings | src/Logger/FileLogger.ts:57-64 | one rendering per value, in order |
| FileLogging.AppendIf | src/Logger/FileLogger.ts:54-55 | `if (present) line += ' ' + word` appends exactly that word, or nothing |
| FileLogging.FileLogger.constructor | src/Logger/FileLogger.ts:28-35 | keeps the configuration; the file name defaults to `console.log` |
| FileLogging.FileLogger.Log | src/Logger/FileLogger.ts:46-74 | a gated message writes nothing and calls no thunk; otherwise every thunk is called once, in order, and the line is date, level name and renderings joined by spaces, ending in `\n` |
| FileLogging.FileLogger.SinglePayloadLine | src/Logger/FileLogger.ts:59-66 | with neither date nor level, one payload is the whole line; a string is written as is, and `null` and `undefined` as `undefined` |
| ConsoleLogging.Argument | src/Logger/ConsoleLogger.ts:56-60 | every argument is primitive; primitives pass as they are, others become their `inspect` string |
| ConsoleLogging.Arguments | src/Logger/ConsoleLogger.ts:54-61 | one argument per payload value, in order |
| ConsoleLogging.PushIf | src/Logger/ConsoleLogger.ts:51-52 | `if (present) args.push(value)` appends exactly that value, or nothing |
| ConsoleLogging.ConsoleLogger.constructor | src/Logger/ConsoleLogger.ts:27-31 | keeps the configuration |
| ConsoleLogging.ConsoleLogger.Header | src/Logger/ConsoleLogger.ts:51-52 | at most two leading arguments, both strings |
| ConsoleLogging.ConsoleLogger.Log | src/Logger/ConsoleLogger.ts:42-68 | a suppressed message passes nothing and calls no thunk; otherwise every thunk is called once, in order, and the arguments are the header then one argument per payload |
| ConsoleLogging.ConsoleLogger.ArgumentsArePrimitive | src/Logger/ConsoleLogger.ts:54-61 | every argument is primitive; the payload arguments follow the header one per value, primitives unchanged |
| SortBy.FieldOrder | src/arraySortBy.ts:10-13 | 1 iff `a[field] > b[field]`, -1 iff `a[field] < b[field]`, otherwise 0 |
| SortBy.CompareBy | src/arraySortBy.ts:7-17 | the result is always -1, 0 or 1 |
| SortBy.Compare | src/arraySortBy.ts:6-18 | the loop with its early return computes the ordering on the first key that separates the objects |
| SortBy.CompareByZeroIff | src/arraySortBy.ts:7-17 | the result is 0 iff the objects tie on every listed field |
| SortBy.CompareByFirstDifference | src/arraySortBy.ts:12-15 | the first differing key decides, in its own direction; later keys are ignored |
| SortBy.CompareByAntisymmetric | src/arraySortBy.ts:12-17 | swapping the objects negates the result |
| SortBy.CompareByReflexive | src/arraySortBy.ts:12-17 | an object compares 0 with itself |
| SortBy.GlobalDescendingReverses | src/arraySortBy.ts:9-14 | with bare field names, global `desc` negates the ascending result, and `desc: false` is ascending |
| SortBy.SpecIgnoresGlobalFlag | src/arraySortBy.ts:8-9 | a `{ field, desc }` key ignores the global `desc`; a missing own `desc` means ascending |
| ArrayToObject.ArrayToObject | src/arrayToObject.ts:5-12 | the key set is the set of item keys; each key holds the last item with that key; every value is an input item |
| ArrayToObject.DistinctKeysAllKept | src/arrayToObject.ts:9-11 | with distinct keys every item is kept under its key and the map has one entry per item |
| Google.FindIndex | src/Google.ts:226-228 | `find` gives the first matching element, or none iff none matches |
| Google.GetGeocodeResultIsFirst | src/Google.ts:222-229 | the geocode result is the first one of the type, or none iff no result has it |
| Google.AddressComponentIsFirstInFirstResult | src/Google.ts:210-220 | a component is the first of its type in the first result of that type; none is found iff no result has the type or that result has no such component |
| Google.ComponentFromFirstMatchingResultOnly | src/Google.ts:214-219 | a component found only in a later result is not found |
| Google.ReverseGeocode | src/Google.ts:168-198 | a non-OK status throws before any output is built; the city, country and province are the short names of the locality, country and level-1 area components |
| Google.AddressFallback | src/Google.ts:176-179 | the address is that of the first street address, else the first premise, else the first route, else undefined |
| Google.Directions | src/Google.ts:112-125 | a non-OK status throws; the output exists iff there is a first route with a first leg, and is that leg's addresses, distance and duration |
| Google.Timezone | src/Google.ts:261-272 | a non-OK status throws; `offsetSeconds` is `rawOffset + dstOffset` |
| DdbTypes.UnmarshallAll | src/Ddb.ts:479-481 | one decoded object per item, in order |
| DdbRequests.KeyedInput | src/Ddb.ts:71-95 | `Get`, `Delete` and `ConditionCheck` marshal the key and keep every other field |
| DdbRequests.Stamp | src/Ddb.ts:109-132 | `_c` and `_u` are set to the timestamp only when the item does not own them; the caller's values are kept verbatim and every other attribute is unchanged |
| DdbRequests.StampNewItem | src/Ddb.ts:109-131 | a new item gets one timestamp for both, and nothing else changes |
| DdbRequests.StampIdempotent | src/Ddb.ts:111-131 | stamping an already stamped item, at any later time, changes nothing |
| DdbRequests.StampKeepsStampedItem | src/Ddb.ts:123-134 | an item owning both attributes is sent as it is |
| DdbRequests.PutItemCommandInput | src/Ddb.ts:106-136 | the marshalled stamped item, the expression values marshalled when given, every other field kept |
| DdbRequests.BindUpdated | src/Ddb.ts:171-174 | `:_u` is bound to the timestamp only when the caller has not bound it; no caller binding changes |
| DdbRequests.BindUpdatedIdempotent | src/Ddb.ts:171-174 | binding twice is binding once |
| DdbRequests.RewriteExpression | src/Ddb.ts:182-187 | with `:_u` defined: the first `SET ` anywhere becomes `SET #_u = :_u, `, or else ` SET #_u = :_u` is appended (an absent expression gives `"undefined SET #_u = :_u"`); with `:_u` undefined the expression is unchanged |
| DdbRequests.RewriteSetsUpdated | src/Ddb.ts:182-187 | whenever `:_u` is defined, the expression sent contains `SET #_u = :_u` |
| DdbRequests.RewriteAtFirstSet | src/Ddb.ts:184-185 | the substring test ignores word boundaries: with no `S` before it, the `SET ` at the end of `RESET` is the one rewritten |
| DdbRequests.UpdateFields | src/Ddb.ts:176-181 | `ReturnConsumedCapacity` is `NONE` and `ReturnValues` is `ALL_NEW` whatever the caller gave; the other fields are kept |
| DdbRequests.NameUpdated | src/Ddb.ts:168-169 | the caller's names record is created when absent, then `#_u` maps to `_u`, in place |
| DdbRequests.BindUpdatedValue | src/Ddb.ts:171-174 | the caller's values record is created when absent, then `:_u` is bound in place unless already present |
| DdbRequests.UpdateItemCommandInput | src/Ddb.ts:152-189 | updates the caller's records in place as above and sends the marshalled key and values, both records' names, the rewritten expression and the forced fields |
| DdbPaging.PageInputFor | src/Ddb.ts:451-457 | the page request carries the loop's start key and the marshalled expression values when given, and keeps every other field |
| DdbPaging.PageItems | src/Ddb.ts:479-481 | a page's result is its items decoded in order, none when the response has no items |
| DdbPaging.Paginate | src/Ddb.ts:434-497 | at least one page; the first request has no start key and each later one has the key the previous response left; each response answers its request; the lists have equal length; looping continues exactly while a key is left and `autoPaginate` (default true) holds |
| DdbPaging.ThreadedStartKeys | src/Ddb.ts:450-494 | page `k` of a threaded loop starts at the key the store's chain predicts for `k` |
| DdbPaging.CountArgs | src/Ddb.ts:584-591 | the count request selects `COUNT` and keeps everything else |
| DdbPaging.CountInput | src/Ddb.ts:584-591 | writing `Select: 'COUNT'` after the spread is requesting the page for the counting argument |
| DdbPaging.SumConcat | src/Ddb.ts:628 | the total is additive over any split of the pages |
| DdbPaging.SumOfCounts | src/Ddb.ts:613-628 | for any mix of pages, the total is the sum of the counts the pages carry: a page without `Count` adds nothing |
| DdbPaging.CountlessPagesSumToZero | src/Ddb.ts:613-628 | when no page carries `Count` the total is 0 |
| DdbPaging.ScanCount | src/Ddb.ts:566-629 | the loop of `query`; every request selects `COUNT`; each page's result is its count or 0; the total is the sum of the page results, which is the sum of the counts the pages carry |
| DdbFacade.GetResult | src/Ddb.ts:373-375 | `undefined` iff the response has no `Item`, else the decoded item |
| DdbFacade.PutResult | src/Ddb.ts:414-428 | the result is decoded from the stamped item that was sent, not from the response |
| DdbFacade.Update | src/Ddb.ts:728-773 | sends the request `UpdateItemCommandInput` builds and decodes the returned attributes, `{}` when none |
| DdbFacade.KeysInput | src/Ddb.ts:222-225 | each table's keys are marshalled one by one, in order, and its other fields kept |
| DdbFacade.BatchGetItemInput | src/Ddb.ts:218-230 | the same tables except one named `__proto__`, which the assignment into `{}` turns into the prototype and so does not send; each table's keys marshalled; the other fields kept |
| DdbFacade.BatchGetResult | src/Ddb.ts:248-256 | one entry per response table, holding its items decoded in order; no tables when `Responses` is absent; a table named after an `Object.prototype` member gets no entry, and when it has items the call fails with the `push` TypeError, exactly then |
| DdbFacade.WithDefaults | src/Ddb.ts:641-644 | a field the caller gives wins over the default; absent fields take the default |
| DdbFacade.TransactGetItemsInput | src/Ddb.ts:641-644 | `ReturnConsumedCapacity` defaults to `NONE` and the caller may override it; the items pass unchanged |
| DdbFacade.TransactGetResult | src/Ddb.ts:664-671 | one entry per response, in order, `undefined` exactly where the response has no `Item` |
| DdbFacade.TransactWriteItemsInput | src/Ddb.ts:692-696 | `ReturnConsumedCapacity` and `ReturnItemCollectionMetrics` default to `NONE` and the caller may override them |
| DdbFacade.UpdateForcesTransactDefers | src/Ddb.ts:176-181 | update overrides the caller's `ReturnConsumedCapacity`/`ReturnValues`, while the transactions send the caller's choice |
| DdbFacade.TransactDefaultsApply | src/Ddb.ts:692-696 | without a caller choice the transactions send `NONE` |

## Left out

- Network and SDK calls are left out: DynamoDB, SQS, Telegram and Google Maps. The table is an oracle and the other responses are inputs.
- `src/Sqs.ts` and `src/Telegram.ts` are not part of this model. They only copy fields into SDK calls.
- `delete` and `batchWrite` are thin wrappers. They forward the request (`delete` through `KeyedInput`) and always return `undefined`; only their builders are modelled.
- `scan` is the `query` loop over the scan call, so `Paginate` stands for both.
- `marshall` and `unmarshall` are opaque. This includes `removeUndefinedValues`: an own `_c: undefined` is kept by stamping and is dropped only later by `marshall`, which is not modelled.
- Request fields that are not strings are not represented: `Limit`, `ScanIndexForward`, `ConsistentRead`, and `ExpressionAttributeNames` on get, put and query. The code only passes them through by spread.
- Clocks are parameters.
- Google's timestamp computation, `Math.round(timestamp / 1000)` (src/Google.ts:243), is left out; it concerns the request, which is not modelled.
- `util.inspect`, `JSON.stringify` and `console.log` are opaque or left out. `JSON.stringify` returning `undefined` (for a function body, for instance) is not modelled.
- Loggers.Values: payload thunks are total functions. A thunk that throws is not modelled. In the source `FileLogger` then rejects and appends nothing, and `ConsoleLogger` skips the later thunks and never calls `console.log`.
- The loggers' file writes are left out: `writeFileSync` and `appendFile`, and the asynchrony of both loggers. `FileLogger.Log` returns the line that would be appended.
- Js.ParseInt: results are exact integers. JavaScript rounds integers above 2^53 to the nearest double, and a run of 309 or more digits gives Infinity.
- Env.EnvToInteger: returns the exact value. In the source `envToInteger("9007199254740993")` is 9007199254740992, and an Infinity passes the NaN test and is returned.
- Js.StringToNumber: only an optionally signed run of decimal digits, or a blank string, is a number. Unary `+` in JavaScript also reads hexadecimal (`"0x10"` is 16), binary (`"0b11"` is 3), octal (`"0o7"` is 7), exponent (`"1e3"` is 1000) and trailing-dot or decimal-fraction forms (`"5."` is 5, `"1.0"` is 1), as well as `"Infinity"`; the model gives NaN for all of these. As a result Js.JsLess and SortBy.FieldOrder give 0 for a field such as `"1e3"` against `5`, which `arraySortBy` orders.
- EnumValues.EnumNumericValues: a string value written in one of the forms just listed (`"0x10"`, `"1e3"`, `"5."`) counts as NaN and is dropped, although `!isNaN(+value)` keeps it. The reverse-mapping member names that a numeric enum holds start with a letter and are NaN in both, with one exception: a member named `Infinity` coerces to Infinity in JavaScript and is kept there, while the model drops it (EnumValues.NumericEnumValues states the model's behaviour).
- Numbers are integers or NaN. Fractions, infinities, `-0`, `BigInt` and `Symbol` are outside the model, as is `envToFloat` (it relies on `parseFloat`).
- Strings are sequences of code points. JavaScript compares and indexes UTF-16 code units, so `<` on strings outside the Basic Multilingual Plane may differ.
- `replace` patterns such as `$&` are not interpreted. The replacement strings used contain no `$`.
- Property order is not modelled. `Object.values` order in `enumNumericValues` is taken as given. `Object.keys` order in `batchGet` is arbitrary: the loop visits tables in any order, and the result does not depend on it.
- Js.ToPrimitive: `Object` values are opaque, and their primitive is always `"[object Object]"`. In JavaScript an array, a `Date` or an object with its own `toString` or `valueOf` gives another primitive, so such fields compare differently in `arraySortBy` (src/arraySortBy.ts:12).
- ArrayToObject.ArrayToObject: keys are the strings `keyOf` returns. The `__proto__` key, which a plain object treats as its prototype, is not modelled.
- DdbPaging.Paginate: when it follows keys, it requires that the store's chain of keys reaches its end. An endless chain never returns in the source either.
- DdbPaging.Paginate: the caller's own `ExclusiveStartKey` is carried in the request and then overwritten: the first request has none. A caller therefore cannot resume from a key.
- DdbFacade.WithDefaults: request fields are strings, so a field the caller sets to an explicit `undefined` cannot be expressed. In the source such a field still overrides the default: `ReturnConsumedCapacity: undefined` in `transactGet`, and the same or `ReturnItemCollectionMetrics: undefined` in `transactWrite`, is sent as undefined (src/Ddb.ts:641-644, 692-696). `update` is not affected, because it writes its two fields after the caller's (src/Ddb.ts:176-181).
- DdbFacade.PutResult: the `result === undefined` error (src/Ddb.ts:426-428) cannot be raised, because the request always carries a marshalled item. The model has no error path.
- Date strings with extended years (`+010000-…`) are outside `DateFormat.DateToStringOfIso`. It assumes the 24-character ISO shape.
- SortBy.CompareBy: transitivity of the comparator is not claimed. It fails in JavaScript for mixed strings and numbers.
- The type-only files and the single-condition helpers are modelled only where the core calls them: `Validators.Assert`, `AssertDefined`, `AssertDefinedNotNan` and `Js.IsPrimitive`.
