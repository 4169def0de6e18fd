# sap-product-provider, modelled in Dafny

This project models the serverless action `sap-product-provider`. The action handles one
HTTP request in a fixed order:

1. It checks the request path and the required headers.
2. It fetches the product named by the `x-content-source-location` header from a backend.
   The product id goes into a `$filter` query value.
3. It reads the configured Handlebars templates. Each non-empty one is registered as a
   partial, and `page` is also compiled into a module-level `template` slot.
4. It installs two template helpers, `cardLinks` and `filter`.
5. It renders `content.products[0]` with the main template.

Every failure becomes an HTTP error response.

Files:

- `js_values.dfy` (module `JsValues`) covers the JavaScript values the action handles:
  `undefined`, `NaN`, and arrays and objects with their identity. It also defines strict
  equality (`===`) and the property reads `content.products` and `products[0]`. Reading a
  property of `undefined` or `null` throws a TypeError, which is the `None` case here.
- `handlebars.dfy` (module `Handlebars`) holds the library's process-wide partial table and
  helper table. These are the `Engine` class.
- `helpers.dfy` (module `Helpers`) contains `cardLinks`, `filter` and `registerHelpers`.
- `provider.dfy` (module `Provider`) contains `fetchContent`, the template-composition loop,
  the module-level `template` slot and `main`.
  - `Invoke` gives a whole invocation as a function of the state earlier invocations left
    behind. That state is the slot, the partials and the helpers.
  - The class `Action` runs the same steps imperatively and is proved to agree with
    `Invoke`.

The action's collaborators are parameters of the model. They are gathered in `Env`:
- URL parsing;
- the backend (`fetch`);
- JSON decoding;
- reading a template file;
- Handlebars rendering.

Each of them may fail. The results of `checkOverlayPaths` and `checkMissingRequestInputs` are
inputs in `Params`.

The model follows the code in these places:
- `page` is registered as a partial too, because the `else` before the partial registration is missing.
- The slot and the partials persist across invocations and are not rebuilt per request.
- An empty `products` array is not an error. The template is rendered with `undefined`.
- An unreadable template file aborts composition. Whatever the earlier names registered stays
  registered.

## Model

| member | source | states |
|---|---|---|
| `Helpers.CardLinks` | actions/sap-product-provider/helpers.js:4-19 | `VIDEO`, `PDF` and `LINK` map to "Watch video", "Download PDF" and "Visit website", in both directions. Every other argument, including `""` and non-strings, gets "Read more". The function is total. |
| `JsValues.Get` | actions/sap-product-provider/helpers.js:23 | No contract. `item[key]` on a plain object: a key the object does not hold reads as `undefined`. |
| `Helpers.Matches` | actions/sap-product-provider/helpers.js:23 | No contract. It is the callback `item[key] === value`, where a missing key reads as `undefined`. |
| `Helpers.Filter` | actions/sap-product-provider/helpers.js:21-25 | The output is no longer than the input. Every output record has `item[key] === value`. An empty input gives an empty output. |
| `Helpers.FilterIsSubsequence` | actions/sap-product-provider/helpers.js:22-24 | The output is a subsequence of the input, so relative order is kept. |
| `Helpers.FilterCounts` | actions/sap-product-provider/helpers.js:22-24 | A matching record occurs in the output exactly as often as in the input. A non-matching record never occurs in the output. |
| `Helpers.FilterKeepsEveryMatch` | actions/sap-product-provider/helpers.js:22-24 | Every input record that satisfies `item[key] === value` is in the output. |
| `Helpers.FilterIsUnique` | actions/sap-product-provider/helpers.js:22-24 | Suppose a sequence is a subsequence of the input, all its elements match, and it keeps every matching occurrence. Then it is the output of filter. So filter is exactly the matching subsequence. |
| `Helpers.FilterKeepsAllWhenAllMatch` | actions/sap-product-provider/helpers.js:22-24 | When every record matches, the output is the input. |
| `Helpers.FilterIdempotent` | actions/sap-product-provider/helpers.js:22-24 | Filtering twice with the same key and value equals filtering once. |
| `Helpers.Registered` | actions/sap-product-provider/helpers.js:3-26 | After registration, the table has exactly the old names plus `cardLinks` and `filter`. Those two names hold the two helpers. Every other entry is unchanged. |
| `Helpers.RegisteredIdempotent` | actions/sap-product-provider/helpers.js:3-26 | Registering twice gives the same table as registering once. |
| `Helpers.RegisterHelpers` | actions/sap-product-provider/helpers.js:3-26 | The engine's helper table becomes `Registered` of the old table. The partials are untouched. |
| `Handlebars.Engine.RegisterPartial` | actions/sap-product-provider/index.js:79 | Only the entry for the given name is overwritten. |
| `Handlebars.Engine.RegisterHelper` | actions/sap-product-provider/helpers.js:4 | Only the entry for the given name is overwritten. |
| `JsValues.StrictEquals` | actions/sap-product-provider/helpers.js:23 | `===`: `NaN` equals nothing, and every other primitive is equal exactly to itself. Two arrays, or two objects, are strictly equal exactly when they are the same object (the same `ref`). An array or object is never strictly equal to a value of another kind. |
| `JsValues.StrictEqualsSymmetric` | actions/sap-product-provider/helpers.js:23 | `===` is symmetric. |
| `JsValues.GetProducts` | actions/sap-product-provider/index.js:88 | `content.products` throws exactly on `undefined` and `null`. It reads an object's own `products` field. On any other value it gives `undefined`. |
| `JsValues.GetFirst` | actions/sap-product-provider/index.js:88 | `products[0]` throws exactly on `undefined` and `null`. It gives an array's first element, or `undefined` for an empty array. |
| `JsValues.Truthy` | actions/sap-product-provider/index.js:55-67 | No contract. The truthiness tests `if (errorMessage)` (line 55) and `if (error)` (line 67) on a string or an absent value: true exactly for a present, non-empty string. |
| `Provider.ProductId` | actions/sap-product-provider/index.js:61 | `__ow_headers['x-content-source-location'] \|\| ''`: the id is empty exactly when the header is absent or empty. Otherwise it is the header's value. The same expression is at index.js:17. |
| `Provider.Authorization` | actions/sap-product-provider/index.js:23 | No contract. `params.__ow_headers.authorization`, absent when the header is missing. |
| `Provider.Endpoint` | actions/sap-product-provider/index.js:16 | No contract. `API_ENDPOINT \|\| ''`. |
| `Provider.TemplateNames` | actions/sap-product-provider/index.js:72 | No contract. `TEMPLATES \|\| []`. |
| `Provider.FirstProduct` | actions/sap-product-provider/index.js:88 | `content.products[0]` can be read exactly when `content` is an object whose `products` field is present and is neither `undefined` nor `null`. For an array it gives the first element, or `undefined` when the array is empty. |
| `Provider.FilterParam` | actions/sap-product-provider/index.js:17-20 | The `$filter` value is the fixed prefix `{"products.technicalName": "`, then the product id unescaped, then `"}`. |
| `Provider.FilterParamRoundTrip` | actions/sap-product-provider/index.js:20 | The product id can be recovered from the `$filter` value. Any value of that shape is the filter of the id recovered from it. |
| `Provider.FetchOf` | actions/sap-product-provider/index.js:14-37 | An unparsable endpoint throws before any request is sent. Otherwise exactly one request is sent, carrying the filter of the header's product id and the forwarded credential. On a response, `statusCode` is always the backend status. `error` is set, to the body text, iff the response is not ok. `content` is set, to the decoded body, iff the response is ok. A transport failure or an undecodable ok body rejects. |
| `Provider.FetchContent` | actions/sap-product-provider/index.js:14-37 | Builds the result field by field and returns exactly what `FetchOf` describes. |
| `Provider.Visit` | actions/sap-product-provider/index.js:75-80 | No contract. One turn of the loop: empty content changes nothing. Otherwise `page` is compiled into the slot, and every name is registered as a partial. Its meaning is stated by the `Compose*` lemmas. |
| `Provider.Compose` | actions/sap-product-provider/index.js:73-82 | No contract. The loop over the names in list order, stopping at the first read that throws. Its meaning is stated by the `Compose*` lemmas. |
| `Provider.ComposeKeepsMainWithoutPage` | actions/sap-product-provider/index.js:76-77 | Without a non-empty `page` among the names, the slot keeps its value. This holds even when a file is unreadable. |
| `Provider.ComposeInstallsPage` | actions/sap-product-provider/index.js:73-82 | A non-empty `page` read before the first unreadable file is what the slot holds after composition, whatever follows. |
| `Provider.ComposeStaysFailed` | actions/sap-product-provider/index.js:73-82 | Once a read has thrown, the remaining names change nothing. |
| `Provider.ComposeFailsIffUnreadable` | actions/sap-product-provider/index.js:73-74 | Composition fails iff some listed file cannot be read. The reported name is listed and cannot be read. |
| `Provider.ComposeStopsAtFirstUnreadable` | actions/sap-product-provider/index.js:73-74 | The name reported is the first unreadable one. Everything before it stays applied. |
| `Provider.ComposeRegistersPartials` | actions/sap-product-provider/index.js:75-80 | When every file is readable, the partials become the old partials overridden by every listed non-empty template under its own name, `page` included. Empty templates are skipped. |
| `Provider.ComposeSetsMain` | actions/sap-product-provider/index.js:75-77 | When every file is readable, the slot holds the compiled `page` if a non-empty `page` is listed. Otherwise the slot keeps its previous value. |
| `Provider.ComposeOrderIrrelevant` | actions/sap-product-provider/index.js:73-82 | When every file is readable, the composed namespace depends only on which names are listed. Order and repetition do not matter. |
| `Provider.Invoke` | actions/sap-product-provider/index.js:40-100 | No contract. It gives `main` as a function from the state left by earlier invocations to the response, the request sent and the new state. Its meaning is stated by the `Invoke*` lemmas. |
| `Provider.InvokeChecksFirst` | actions/sap-product-provider/index.js:47-64 | The checks run in order and give these responses: not an overlay path gives 404, missing inputs give 400, and an empty product id gives 404. A failed check sends no request and leaves the state as it was. A request is sent only when all checks pass, and it carries the filter of the product id. |
| `Provider.InvokeStateUntouchedBeforeComposition` | actions/sap-product-provider/index.js:47-69 | Every return before the composition loop leaves the slot, the partials and the helpers unchanged. |
| `Provider.InvokeBackendError` | actions/sap-product-provider/index.js:66-69 | A non-ok response with a non-empty body is answered with the backend's status and text, and the state is unchanged. With an empty body the action carries on and answers 500 `server error`. |
| `Provider.InvokeSuccess` | actions/sap-product-provider/index.js:84-95 | Every 200 response passed all checks and got an ok backend response with a decodable body. The slot holds a compiled template and the helpers are registered. The body is exactly what that template renders for `content.products[0]`. |
| `Provider.InvokeFetchRejected` | actions/sap-product-provider/index.js:66-98 | When `fetchContent` rejects after the checks pass, the answer is 500 `server error` and the state is unchanged. The rejection comes from an unparsable endpoint, a network error or an undecodable body. |
| `Provider.InvokeAfterFetch` | actions/sap-product-provider/index.js:72-98 | Once the fetch succeeds without a truthy error, suppose composition succeeds, the slot holds a compiled template, `content.products[0]` can be read and rendering gives `h`. Then the answer is exactly `Html(200, h)`. Every answer that is not HTML is 500 `server error`. |
| `Provider.InvokeUnreadableTemplate` | actions/sap-product-provider/index.js:72-98 | An unreadable template answers 500. The state keeps what the earlier names registered. |
| `Provider.InvokeKeepsMainWithoutPage` | actions/sap-product-provider/index.js:76-77 | With no non-empty `page` listed, the slot keeps the value an earlier invocation left. This holds whatever else happens, including an unreadable file. |
| `Provider.InvokeInstallsPage` | actions/sap-product-provider/index.js:73-77 | Once the invocation reaches composition (`ReachesComposition`: the checks pass and the fetch succeeds without a truthy error), a non-empty `page` read before the first unreadable file is what the slot holds afterwards. This holds even if a later file cannot be read. |
| `Provider.LaterInvocationReusesPage` | actions/sap-product-provider/index.js:12 | Suppose an earlier invocation reached composition and read a non-empty `page` before its first unreadable file. Then a later invocation that lists no non-empty `page` keeps that compiled page, even if one of its own files is unreadable. |
| `Provider.InvokeWithoutPageNeverRenders` | actions/sap-product-provider/index.js:85-98 | While the slot still holds the initial `''` and no non-empty `page` is listed, no invocation answers with HTML. Once the fetch has succeeded, the answer is 500 `server error`: calling the string throws. |
| `Provider.InvokeEmptyProducts` | actions/sap-product-provider/index.js:88-92 | Suppose the invocation reaches composition, every listed file is readable, and the slot then holds a compiled template, either this invocation's `page` or an earlier one's. Then `products: []` renders that template with `undefined`. The answer is 200 if that render succeeds, and 500 otherwise. When a non-empty `page` is listed, the slot holds it. |
| `Provider.Action.constructor` | actions/sap-product-provider/index.js:12 | The module-level slot starts as the empty string. |
| `Provider.Action.ComposeTemplates` | actions/sap-product-provider/index.js:72-82 | The `forEach` loop leaves the slot, the partials and the reported unreadable name exactly as `Compose` says. The helpers are untouched. |
| `Provider.Action.Serve` | actions/sap-product-provider/index.js:40-100 | The response, the request sent and the slot, partials and helpers afterwards are exactly what `Invoke` gives for the state before the call. |

## Left out

- Handlebars compiling, rendering and partial resolution: foreign library code. Rendering is an opaque function that may fail, applied to the source of the compiled `page`, the current partials and helpers, and the context. Compiling is the constructor `Compiled(source)`.
- `fetch`, `res.text()`, `res.json()` and the `URL` class: network I/O and foreign code. They are `Env` functions. Only the endpoint, the raw `$filter` value and the credential of the request are modelled. Query-string percent-encoding, the `Content-Type` header and a rejected `res.text()` are not.
- The backend's `ok` flag is an input next to the status. The model does not tie it to the 200-299 range.
- `fs.readFileSync`: file I/O. Reading is a function from a template name to its content, or failure. Reading the same name twice gives the same content.
- `checkOverlayPaths`, `checkMissingRequestInputs`, `errorResponse`, `stringParameters`: `../utils` is not part of this model. The two checks are inputs. An error response is its status and message, not the body shape `errorResponse` builds.
- `Core.Logger` and every logging call: no effect on the response.
- Concurrency: concurrent invocations racing on the shared slot and the Handlebars tables are not modelled. Only sequential invocations are, through the state `Invoke` threads.
- Each array or object carries a `ref` that stands for its identity. The model assumes that each `ref` names one object. Nothing ties two values with the same `ref` to the same contents.
- Numbers are integers plus `NaN`. Floating point, `-0` and `Infinity` are not modelled.
- Helpers.Filter: `item[key]` reads only a record's own fields, so inherited properties such as `constructor` read as `undefined` in the model. The model takes a sequence of plain-object records. An argument that is not an array, or elements that are `null`/`undefined`, make the JavaScript helper throw inside rendering, and the model does not cover those cases.
- `TEMPLATES` is taken to be absent or an array of names. A non-array value, which makes `forEach` throw, is not modelled.
- Values of headers are strings. A header present with value `undefined` is treated as absent.
