# AWS Lambda proxy response builder, in Dafny

This project models `AWSLambdaProxyResponse` from `index.js`. The class builds the
object an API-gateway Lambda proxy integration expects a handler to return:
`{statusCode, headers, body}`. The builder holds three fields. Each field changes
only through a validating mutator:

- `setStatusCode` accepts only the twelve codes of the `HTTP_STATUS` registry.
- `addHeader` accepts only header names matching `^[A-Za-z-]+$`. It checks the
  whole batch before writing any of it, and it trims every value.
- `setBody` stores a string as given and any other value as its `JSON.stringify` text.

Each mutator returns the instance it was called on, and `getPayload` reads the
three fields.

Files and modules:

- `response.dfy` (module `Response`): the registry `HttpStatus`, the predicates
  `ValidStatus` and `ValidHeaderName`, and the class `AWSLambdaProxyResponse`.
  The class has fields `statusCode`, `headers` (the source's `headerCollection`)
  and `body`, and the invariant `Valid()`.
  - A thrown error becomes a `Failure(ResponseError)` result.
  - A successful mutator returns `Success(this)`, which models method chaining.
  - The two call shapes of `addHeader` become `AddHeader(name, value)` and
    `AddHeaders(batch)`. `AddHeader` is defined as `AddHeaders` of a one-entry batch.
  - `ApplyBatch` is the specification of the write loop.
- `string_trim.dfy` (module `StringTrim`): `String.prototype.trim` (ECMA-262,
  section 22.1.3.32 of the 2023 edition). It uses the full WhiteSpace and
  LineTerminator code-point set.
- `json_stringify.dfy` (module `JsonStringify`): `JSON.stringify` (ECMA-262, section
  25.5.2) over a small `JsonValue` datatype. Strings are escaped as QuoteJSONString
  does. Two round-trip lemmas characterise it:
  - decoding the escaped text gives back the string;
  - reading the decimal text gives back the integer.
- `scenario.dfy` (module `Scenario`): client methods that replay the scenarios of
  `test/index.js`. They are proved from the builder's contracts alone.
- `wrappers.dfy` (module `Wrappers`): `Option` and `Result`.

The JavaScript constructor calls `setStatusCode` and can throw. A Dafny constructor
cannot fail, so construction is modelled in two parts:

- The unnamed constructor is `new AWSLambdaProxyResponse()`, which gives status 200.
- `Create(statusCode)` builds that default object and then calls `SetStatusCode`,
  as `index.js:11-15` does. An unknown code makes `Create` fail.

Every mutator takes `Valid()` as a precondition and re-establishes it. This is
the class invariant: the constructor establishes it and every mutator keeps it, so
it holds of every builder that is changed only through its methods. It places no
demand on arguments. Neither language stops a client from writing the fields
directly: in the source `resp.statusCode = 999` is allowed, and in Dafny a client
that may modify the object can assign `statusCode := 999`. Such a write can break
the invariant, and the mutators then no longer apply.

The source sets the headers and the body after validating the status. On failure
the half-built object is unreachable in both versions, so this order change is not
observable.

## Model

| member | source | states |
|---|---|---|
| Response.ValidStatus | index.js:25-29 | The registry check: a code is accepted when some `HTTP_STATUS` entry has exactly that value. Every accepted code lies between 200 and 599. |
| Response.ValidHeaderName | index.js:3 | The test `CONTENT_TYPE_REGEXP.test(name)` for `^[A-Za-z-]+$`: one or more ASCII letters or hyphens and nothing else. Without the `m` flag, `$` matches only at the end of the input. An accepted name is non-empty and holds no colon, white space or line break. |
| Response.AWSLambdaProxyResponse.Valid | index.js:18-36 | The class invariant. The status is a registry code (so it lies between 200 and 599), and every stored header has an accepted name (so no name is empty) and a trimmed value. |
| Response.ValidStatusCodes | index.js:91-104 | A code passes the registry check (some `HTTP_STATUS` entry equals it) exactly when it is one of 200, 301, 302, 400, 401, 403, 404, 500, 501, 502, 503, 504. |
| Response.AWSLambdaProxyResponse.constructor | index.js:8-20 | Construction without an argument gives status 200 (`HTTP_STATUS.OK`), an empty header collection, and the empty body. The result satisfies the invariant. |
| Response.AWSLambdaProxyResponse.Create | index.js:8-20 | A missing status defaults to 200. Construction succeeds exactly when that code is in the registry and then gives a fresh valid builder (the code, no headers, empty body). Otherwise it fails with `InvalidStatusCode` for that code. |
| Response.AWSLambdaProxyResponse.SetStatusCode | index.js:22-38 | Succeeds exactly when the code is in the registry. On success it stores the code and returns the same instance. On failure it reports `InvalidStatusCode(code)` and keeps the previous status. Headers and body never change. The invariant is kept. |
| Response.FindInvalidName | index.js:52-60 | The validation loop. It reports no name exactly when every name of the batch matches `^[A-Za-z-]+$`. Otherwise it reports a name of the batch that does not match. |
| Response.AWSLambdaProxyResponse.AddHeaders | index.js:40-68 | Succeeds exactly when every batch name is valid. On success it returns the same instance, and the headers become the old headers updated with the trimmed batch. On failure it reports an invalid name from the batch and leaves the headers exactly as they were, including the entries for the batch's valid names. Status and body are unchanged. The invariant is kept. |
| Response.AWSLambdaProxyResponse.AddHeader | index.js:43-50 | The single form behaves as the one-entry batch `{name: value}`. It succeeds exactly when the name is valid, and then sets `name` to the trimmed value. Otherwise it fails with `InvalidHeaderName(name)` and changes nothing. |
| Response.ApplyBatch | index.js:62-65 | The write loop's result. Its keys are the old keys plus the batch keys. Each batch key maps to its trimmed value, overwriting any old value. Every other key keeps its old value. |
| Response.ApplyBatchWellFormed | index.js:55-65 | Writing a batch of valid names into a well-formed collection keeps it well formed: every key matches the pattern and every value is trimmed. |
| Response.ApplyBatchSingle | index.js:45-50 | Applying the one-entry batch `{name: value}` is the single update `name := trim(value)`. |
| Response.ApplyBatchPair | index.js:63-65 | A batch of two distinct names writes both entries. Their order does not matter. |
| Response.ApplyBatchEmpty | index.js:52-65 | An empty batch leaves the header collection unchanged. |
| Response.ApplyBatchTwice | index.js:63-65 | Two batches applied in turn equal one batch made of their union in which the later batch wins. This is last-write-wins per key. |
| Response.AWSLambdaProxyResponse.SetBody | index.js:70-78 | A string body is stored verbatim. Any other value is stored as its JSON text. Status and headers are unchanged. It returns the same instance. |
| Response.AWSLambdaProxyResponse.GetPayload | index.js:80-87 | Returns the current status, headers and body, with no side effect. For a valid builder, the payload's status is in the registry and its headers are well formed. |
| StringTrim.Trim | index.js:64 | `trim()` never lengthens a string. |
| StringTrim.TrimIsTrimmed | index.js:64 | A trimmed value has no white space at either end. |
| StringTrim.TrimSplits | index.js:64 | Every string is white space, then its trimmed form, then white space. So trimming removes only white space at the two ends and keeps the interior. |
| StringTrim.TrimUnique | index.js:64 | Whenever a string splits into white space, a middle with no white space at either end, and white space, its trimmed form is that middle. |
| StringTrim.TrimIdempotent | index.js:64 | Trimming twice gives the same result as trimming once. |
| StringTrim.TrimFixesTrimmed | index.js:64 | A string is left unchanged by trimming exactly when neither end is white space. |
| JsonStringify.Serialize | index.js:73-75 | The JSON text of a value is never empty, and its first character tells the kind. `"` means a string, `[` an array, `{` an object, and a minus sign or a digit means a number. |
| JsonStringify.NatToDecimal | index.js:75 | A non-negative integer prints as one or more digits. There is a leading zero only for 0 itself. |
| JsonStringify.IntToDecimal | index.js:75 | An integer prints as its digits, with a leading minus sign exactly when it is negative. |
| JsonStringify.DecimalRoundTrip | index.js:75 | Reading the printed digits back gives the number. |
| JsonStringify.IntegerRoundTrip | index.js:75 | Parsing the printed signed integer gives the integer back. |
| JsonStringify.EscapeChar | index.js:75 | QuoteJSONString for one character. The text never holds a raw control character. It begins with a backslash exactly when the character is a quotation mark, a backslash or a control character. Otherwise it is the character itself. |
| JsonStringify.Escape | index.js:75 | The escaped text of a string is at least as long as the string and holds no raw control character. |
| JsonStringify.EscapePlain | index.js:75 | A string with no quotation mark, no backslash and no control character is escaped as itself. |
| JsonStringify.QuotePlain | index.js:75 | Such a string is quoted by putting a quotation mark on each side. |
| JsonStringify.JoinPair | index.js:75 | Two parts are joined with exactly one separator between them. |
| JsonStringify.SerializePair | index.js:75 | A two-member object is written as `{`, the first key quoted, `:`, the first value's text, `,`, the same for the second member in order, and `}`. |
| JsonStringify.SerializePlainPair | index.js:75 | A two-member object whose keys and string values need no escaping is written as each of them between quotation marks, in the JSON object layout. |
| JsonStringify.Quote | index.js:75 | A quoted string begins and ends with a quotation mark. |
| JsonStringify.UnescapeEscapeChar | index.js:75 | Decoding the escape of one character followed by more text yields that character followed by the decoding of the rest. |
| JsonStringify.EscapeRoundTrip | index.js:75 | Decoding the escaped form of any string, as RFC 8259 section 7 reads it, gives back the string. |
| JsonStringify.QuoteRoundTrip | index.js:75 | Unquoting the JSON text of any string gives back the string. |
| Scenario.ConstructionScenario | test/index.js:7-66 | Default construction yields status 200, no headers and an empty body. `setStatusCode(200)`, the empty batch and `setBody("")` each succeed and return the same builder. Constructing with 301 succeeds, and constructing with an unregistered code fails. |
| Scenario.StatusScenario | test/index.js:82-96 | After 502 is set, setting an unregistered code fails and the status stays 502. |
| Scenario.ExampleHeaderNames | test/index.js:107-144 | The names used by the tests are valid, except `x-invalid^%$#@-header`. |
| Scenario.ExampleHeaderValues | test/index.js:130-151 | The values used by the tests are unchanged by trimming. |
| Scenario.RefusedHeaderScenario | test/index.js:107-128 | The invalid single header is refused. The batch of two valid names plus the invalid one is refused too, and the header collection stays empty. |
| Scenario.HeaderScenario | test/index.js:130-151 | Two single headers and then a two-entry batch accumulate into exactly the four expected entries. |
| Scenario.ExampleBodyText | test/index.js:70-74 | The JSON text of the test object `{one: 'value', two: 'another'}` is exactly `{"one":"value","two":"another"}`. |
| Scenario.BodyScenario | test/index.js:161-168 | A text body is stored as given. The test object is stored as the text `{"one":"value","two":"another"}`. |
| Scenario.ChainScenario | index.js:22-87 | The whole chain: status 502, a batch of two headers, one more header and the test object as body read back as exactly that status, the three entries and that JSON text. |

## Left out

- The runtime choice between the two forms of `addHeader` (`value !== undefined`, index.js:45). The Dafny model has two methods instead.
- Non-string header values. Dafny's types make every value a string. In the source, a non-string value passes validation, and the write loop then throws a `TypeError` from `.trim()`. Entries written before it stay written.
- Non-integer status arguments such as `'INVALID'`. A Dafny `int` cannot be one. The scenarios use 418 as the unregistered code.
- Response.FindInvalidName: reports *some* invalid name of the batch rather than the first one in the batch's key order. A Dafny map has no key order. Whether the call succeeds, and that it is atomic, do not depend on the order.
- Response.AWSLambdaProxyResponse.AddHeaders: the write order of the batch is not modelled (see the previous line). Because a map holds each key at most once, the final collection does not depend on that order.
- `setBody()` with no argument, and any other value that `JSON.stringify` maps to `undefined`. JSON.stringify(undefined) returns `undefined`, so the source stores `undefined`, not the string "undefined" and not a string at all. `Body` offers only strings and JSON values.
- Cyclic structures, for which `JSON.stringify` throws. `JsonValue` is a finite tree.
- JavaScript numbers are IEEE doubles. The model has integers only, and its decimal text is the JavaScript text only for integers of magnitude at most 2^53. It does not model fractions, NaN and the infinities (printed as `null`), or the exponent form used from 10^21 on.
- Integers above 2^53 in magnitude. `Number(n)` accepts any integer, including ones no double can hold. For a double above 2^53, Number::toString prints the shortest digits that round-trip to the double and pads them with zeros. So 2^56 = 72057594037927936 prints as `72057594037927940`, while `IntToDecimal` gives `72057594037927936`.
- Lone surrogates. A JavaScript string can hold an unpaired UTF-16 surrogate, which QuoteJSONString writes as `\udxxx`. A Dafny `string` holds only Unicode scalar values, so the model has no such strings and no such escapes.
- Duplicate member names in a JSON object are not merged. A JavaScript object cannot hold them.
- The order of an object's members. JavaScript lists an object's own keys with the array-index keys ("2", "10") first, in ascending numeric order, and the other keys after them in insertion order. So `setBody({b: 1, "2": 2})` stores `{"2":2,"b":1}`. `Serialize` does not reorder: it writes `members` in the order given, so a caller must list them in that key-enumeration order.
- Changes to the registry. `AWSLambdaProxyResponse.HTTP_STATUS` (index.js:91) is a plain, writable, exported object, and `setStatusCode` reads it again on every call (index.js:25-29). A caller that adds an entry makes a new code valid. Deleting `OK` makes the argument-less constructor throw. The model makes the registry the constant `HttpStatus`, so `ValidStatusCodes` and every contract that uses `ValidStatus` hold only while no caller changes `HTTP_STATUS`.
- The aliasing of `headerCollection` by the object `getPayload` returns (index.js:84). Dafny maps are values, so the payload is a snapshot. In the source a write through the returned `headers` changes the builder itself, so `resp.getPayload().headers['bad name'] = ' v '` stores an invalid name and an untrimmed value and breaks the header invariant.
- Error message text. Errors carry only the offending code or name.
- The dead `break` after `throw` (index.js:58).
