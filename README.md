# NewBill: the bill-creation controller, in Dafny

This project models `NewBill`, the controller behind the expense-report
client's "new bill" form (`src/containers/NewBill.js`). The controller keeps
three fields (`fileName`, `fileUrl`, `billId`) and has three handlers:

- `handleChangeFile` records the chosen attachment's name. It then checks the
  extension (the name from its last `.`, lower-cased) against `.png`, `.jpg`
  and `.jpeg`. A refused file raises an alert and clears the file input.
- `handleSubmit` reads the form and builds a `FormData` with ten fields in a
  fixed order. `amount` and `pct` go through `parseInt`, and `pct` falls back
  to 20. `status` is always `pending`. It then calls `createBill` and
  navigates to the bill list.
- `createBill` does nothing without a store. With one, it sends the payload.
  When the promise resolves, it records `key` and `fileUrl` and navigates
  again. When it rejects, it logs the error.

Files:

- `wrappers.dfy`: `Option`, used for JavaScript's `undefined` and `NaN`.
- `js_builtins.dfy`: the JavaScript built-ins the controller uses, over
  character sequences. These are `lastIndexOf`, one-argument `slice`,
  `toLowerCase` and `parseInt` without a radix (white space, sign, `0x`
  prefix, longest digit run). It also has `String(n)` for an integer or `NaN`,
  and proves that `parseInt` reads that string back.
- `dom.dfy`: the file input element and `FormData`, the two browser objects
  the controller changes in place.
- `new_bill.dfy`: the controller. Each handler is first a function from a
  `Snapshot` of the observable state to the next one. The snapshot holds the
  three fields, the input's selected files, an ordered log of effects and the
  number of unsettled `create` promises. The properties are lemmas about
  those functions. The class `NewBill` then does the same work step by step
  on its own fields. Each of its methods is proved to produce exactly its
  function's state, and each one that changes the controller keeps the
  class invariant `Valid()`.

The effect log records, in order: alerts, store `create` calls (with their
payload), navigations and `console.error` calls. The promise of `createBill`
is split in two. Its synchronous part runs inside `handleSubmit`, before the
navigation. Its continuation is the separate method `SettleCreate`, which
runs later with the store's answer. So the log shows the real order: the
submit's navigation comes before anything the resolution does.

Three consequences of the code that the model keeps:

- `fileName` is assigned before the extension check
  (`src/containers/NewBill.js:22`). So a refused file still overwrites it.
- `parseInt(...) || 20` also replaces a typed `0` with 20, because 0 is
  falsy (`src/containers/NewBill.js:43`). `parseInt` also accepts a numeric
  prefix (`"12.5"` gives 12) and a `0x` hexadecimal prefix.
- Clearing the input empties its file list. A submit after a refused file
  therefore appends `files[0]`, which is `undefined`. `FormData` stores that
  as the string `"undefined"`. A non-numeric amount travels as `"NaN"`.

## Model

| member | source | states |
|---|---|---|
| `JsBuiltins.LastIndexOf` | src/containers/NewBill.js:24 | the result is -1 exactly when `.` does not occur; otherwise it is a `.` with no `.` after it |
| `JsBuiltins.Slice` | src/containers/NewBill.js:24 | `slice(start)` is a suffix; a negative start (the -1 of a name without `.`) keeps only the last `-start` characters |
| `JsBuiltins.ToLowerCase` | src/containers/NewBill.js:24 | same length; each character is mapped by `LowerChar` |
| `JsBuiltins.LowerChar` | src/containers/NewBill.js:24 | the result is never an upper-case Latin letter; a capital is mapped to the small letter at the same alphabet position and every other character is kept |
| `JsBuiltins.TrimStart` | src/containers/NewBill.js:40 | what `parseInt` goes on reading is a suffix of its argument |
| `JsBuiltins.TrimStartRemovesWhiteSpace` | src/containers/NewBill.js:40 | `parseInt` skips exactly the leading white space: every removed character is white space and what remains does not start with any |
| `JsBuiltins.ParseIntBlankOrDigit` | src/containers/NewBill.js:40-43 | a blank string gives `NaN`; a string whose first non-blank character is a digit from 1 to 9 gives a non-negative integer |
| `JsBuiltins.DigitRunIsLongest` | src/containers/NewBill.js:43 | `parseInt` reads the longest run of digits of its base: all of them are digits and the next character is not |
| `JsBuiltins.ParseIntWithoutDigit` | src/containers/NewBill.js:40 | when neither a sign nor a digit follows the leading white space, `parseInt` gives `NaN` |
| `JsBuiltins.ParseIntMinus` | src/containers/NewBill.js:40 | a leading `-` negates the magnitude that follows it, `NaN` staying `NaN` |
| `JsBuiltins.ParseIntPlus` | src/containers/NewBill.js:40 | a leading `+` is skipped and the magnitude that follows is the result |
| `JsBuiltins.ParseIntDecimal` | src/containers/NewBill.js:40 | a decimal run not followed by a digit or `x` is read as its value |
| `JsBuiltins.ParseIntMinusDecimal` | src/containers/NewBill.js:40 | the same run behind a `-` is read as its value negated |
| `JsBuiltins.ParseIntShowInt` | src/containers/NewBill.js:40-43 | `parseInt` reads back the decimal string of every integer when what follows is neither a decimal digit nor `x`/`X` |
| `JsBuiltins.ShowNat` | src/containers/NewBill.js:52-55 | the decimal digits `String(n)` writes for a non-negative integer: a non-empty run of decimal digits with no leading zero unless it is `"0"` |
| `JsBuiltins.DigitsValueShowNat` | src/containers/NewBill.js:52-55 | the digits written for `n` denote `n`, so together with `ShowNat`'s contract they are exactly the canonical decimal form of `n` |
| `JsBuiltins.ShowInt` | src/containers/NewBill.js:52-55 | `String(n)` of an integer is canonical: a `-` exactly when it is negative, then the canonical digits `ShowNat` gives for its magnitude (no leading zero unless it is `"0"`) |
| `JsBuiltins.NumberToString` | src/containers/NewBill.js:52-55 | the stored string is never empty, and it is `"NaN"` exactly when the value is `NaN` |
| `JsBuiltins.NumberToStringParsesBack` | src/containers/NewBill.js:52-55 | the string `append` stores for an integer or `NaN` parses back to the same value |
| `JsBuiltins.ParseIntTen` | src/__tests__/NewBill.js:63 | the typed percentage `"10"` parses as 10 |
| `JsBuiltins.ParseIntZero` | src/containers/NewBill.js:43 | `"0"` parses as 0, which `||` then replaces |
| `JsBuiltins.ParseIntStopsAtPoint` | src/containers/NewBill.js:40 | `"12.5"` parses as 12 |
| `JsBuiltins.ParseIntNegative` | src/containers/NewBill.js:40 | `"-7px"` parses as -7 |
| `JsBuiltins.ParseIntNaN` | src/containers/NewBill.js:52 | the string `"NaN"` that `append` stores for a non-numeric amount parses as `NaN` |
| `JsBuiltins.ParseIntNaNExamples` | src/containers/NewBill.js:43 | an empty, blank or non-numeric field gives `NaN` |
| `JsBuiltins.ParseIntHexExample` | src/containers/NewBill.js:43 | a `0x` prefix makes `parseInt` read base 16 |
| `JsBuiltins.ParseIntUpperHexExample` | src/containers/NewBill.js:43 | an upper-case `0X` prefix also makes `parseInt` read base 16: `"0X10"` gives 16 |
| `JsBuiltins.ParseIntPlusTen` | src/containers/NewBill.js:43 | `"+10"` parses as 10, so it becomes the percentage rather than 20 |
| `NewBillContainer.ExtensionShape` | src/containers/NewBill.js:24 | with a `.` in the name, the extension starts with the last `.` and contains no other; without one, it is at most one character; it is lower-case |
| `NewBillContainer.FileExtension` | src/containers/NewBill.js:24 | the extension is lower-case and no longer than the name |
| `NewBillContainer.HasValidExtension` | src/containers/NewBill.js:25 | an accepted name has at least four characters, the length of the shortest valid extension |
| `NewBillContainer.ExtensionIsSuffix` | src/containers/NewBill.js:24 | the extension is the name's ending of the same length, compared ignoring case, with or without a `.` in the name |
| `NewBillContainer.SuffixIsExtension` | src/containers/NewBill.js:24 | a name that ends, ignoring case, with `.` followed by no other `.` has exactly that ending as its extension |
| `NewBillContainer.ValidExtensionIffSuffix` | src/containers/NewBill.js:23-25 | a file is accepted if and only if its name ends, ignoring case, with `.png`, `.jpg` or `.jpeg` |
| `NewBillContainer.NameWithoutDotRefused` | src/containers/NewBill.js:24-25 | a name without `.` is always refused |
| `NewBillContainer.AcceptedLowerCase` | src/__tests__/NewBill.js:39-51 | `test.png` is accepted |
| `NewBillContainer.AcceptedUpperCase` | src/containers/NewBill.js:24-25 | `test.PNG` is accepted, since the extension is lower-cased |
| `NewBillContainer.AcceptedMixedCase` | src/containers/NewBill.js:23-25 | `photo.Jpeg` is accepted |
| `NewBillContainer.RefusedUnlessEndsWithG` | src/containers/NewBill.js:23-25 | every valid extension ends with `g`, so a name whose last character is neither `g` nor `G` is refused |
| `NewBillContainer.RefusedExamples` | src/__tests__/NewBill.js:115-128 | `example.txt`, `test.pdf` and `test` are refused |
| `NewBillContainer.PctOrDefault` | src/containers/NewBill.js:43 | the percentage is never 0; it is the parsed value when that is a non-zero integer, and 20 when parsing gives `NaN` or 0 |
| `NewBillContainer.PctOfTypedInteger` | src/containers/NewBill.js:43 | a typed non-zero integer is kept as the percentage |
| `NewBillContainer.PctDefaultExamples` | src/containers/NewBill.js:43 | `""`, `"abc"` and `"0"` give 20; `"10"` gives 10 |
| `NewBillContainer.FileValue` | src/containers/NewBill.js:36 | the payload's file is the first selected file; when none is selected it is the text `"undefined"` |
| `NewBillContainer.RefusedFileSubmitsUndefined` | src/containers/NewBill.js:27-48 | after a refused file, the next submit appends the text `"undefined"` as its file |
| `NewBillContainer.EmailValue` | src/containers/NewBill.js:37-49 | the email entry is always text: the address, or `"undefined"` when the session record has none |
| `NewBillContainer.AppendAll` | src/containers/NewBill.js:47-57 | the ten appends produce the names in the fixed order, each holding its own value: the file, the email, the four typed fields, the amount and pct strings, and `pending` status |
| `NewBillContainer.Payload` | src/containers/NewBill.js:45-57 | exactly the fields `file, email, type, name, amount, date, vat, pct, commentary, status`, in that order; the first selected file, the email, the typed fields as they are, `String(parseInt(amount))`, `String(pct)` with its default, and status `pending` |
| `NewBillContainer.PayloadNumbersParseBack` | src/containers/NewBill.js:40-55 | the amount and pct strings parse back to `parseInt(amount)` and to the non-zero percentage |
| `NewBillContainer.CheckFile` | src/containers/NewBill.js:22-29 | there is no file exactly when nothing is selected; the file is accepted exactly when the first selected name has a valid extension |
| `NewBillContainer.ChangeFile` | src/containers/NewBill.js:19-30 | an empty selection changes nothing; otherwise the effect log only grows, by at most one entry, `fileUrl`, `billId` and the pending requests are untouched, and the input keeps its selection or is emptied |
| `NewBillContainer.DispatchCreate` | src/containers/NewBill.js:64-73 | without a store nothing changes; with one exactly `StoreCreate(data)` is logged and one request becomes pending; the fields and the input are untouched |
| `NewBillContainer.SubmitPayload` | src/containers/NewBill.js:59-60 | the log only grows and ends with the navigation to the bill list; the fields and the input are untouched |
| `NewBillContainer.Submit` | src/containers/NewBill.js:32-61 | the same for the payload the handler builds from the form |
| `NewBillContainer.Settle` | src/containers/NewBill.js:74-81 | the log grows by exactly one entry, one pending request settles, and `fileName` and the input are untouched |
| `NewBillContainer.ChangeFileOutcome` | src/containers/NewBill.js:19-30 | the chosen name is recorded whether or not it is accepted; a refused file adds one alert and empties the input; an accepted one changes nothing else |
| `NewBillContainer.ChangeFileKeepsOnlyValidFiles` | src/containers/NewBill.js:25-29 | after the handler the input is empty or holds a file with a valid extension, and it is empty exactly when the file was not accepted |
| `NewBillContainer.SubmitNavigatesOnce` | src/containers/NewBill.js:59-60 | a submit navigates to the bill list exactly once, as its last effect, with or without a store; with a store the payload is sent just before and one promise becomes pending; the fields do not change |
| `NewBillContainer.PayloadNavigatesOnce` | src/containers/NewBill.js:59-60 | the same as `SubmitNavigatesOnce`, for whatever payload was built |
| `NewBillContainer.SettleOutcome` | src/containers/NewBill.js:74-81 | a resolution sets `billId := key` and `fileUrl := fileUrl` and navigates once more; a rejection logs its error exactly once and changes nothing else |
| `NewBillContainer.InitialInvariant` | src/containers/NewBill.js:13-15 | a new controller has all three fields null and an empty log, and satisfies the invariant |
| `NewBillContainer.ChangeFileKeepsInvariant` | src/containers/NewBill.js:19-30 | the change handler keeps the invariant |
| `NewBillContainer.DispatchKeepsInvariant` | src/containers/NewBill.js:64-73 | sending a request keeps the invariant: the new pending promise is matched by a logged request |
| `NewBillContainer.SubmitKeepsInvariant` | src/containers/NewBill.js:32-61 | the submit handler keeps the invariant: without a store nothing is ever sent and no bill id is recorded |
| `NewBillContainer.PayloadKeepsInvariant` | src/containers/NewBill.js:59-60 | sending any payload and navigating keeps the invariant |
| `NewBillContainer.SettleKeepsInvariant` | src/containers/NewBill.js:64-82 | the `create` continuation keeps the invariant: `billId` and `fileUrl` are set together |
| `NewBillContainer.NewPayload` | src/containers/NewBill.js:47-57 | `new FormData()` followed by the ten appends holds exactly the payload entries |
| `NewBillContainer.NewBill.constructor` | src/containers/NewBill.js:5-17 | `fileUrl`, `fileName` and `billId` start null, the log is empty and the invariant holds |
| `NewBillContainer.NewBill.HandleChangeFile` | src/containers/NewBill.js:19-30 | the new state is `ChangeFile` of the old one and the returned check is `CheckFile` of the selection |
| `NewBillContainer.NewBill.HandleSubmit` | src/containers/NewBill.js:32-61 | the new state is `Submit` of the old one: the payload is built, `createBill` runs, then one navigation |
| `NewBillContainer.NewBill.CreateBill` | src/containers/NewBill.js:64-73 | without a store nothing changes; with one the request is logged and one promise becomes pending; the class invariant is kept |
| `NewBillContainer.NewBill.SettleCreate` | src/containers/NewBill.js:74-81 | the new state is `Settle` of the old one, for a resolved or a rejected promise |
| `NewBillContainer.UploadValid` | src/__tests__/NewBill.js:39-51 | uploading `test.png` is accepted, records its name and announces nothing |
| `NewBillContainer.UploadInvalid` | src/__tests__/NewBill.js:115-128 | uploading `example.txt` is refused: one alert, the input's value is `''`, and the name is still recorded |
| `NewBillContainer.SubmitWithoutStore` | src/__tests__/NewBill.js:52-75 | without a store a submit only navigates to the bill list: nothing pending, no bill id |
| `NewBillContainer.SubmitWithStoreResolved` | src/containers/NewBill.js:59-81 | with a store, a submit sends the request and navigates; the resolution records key `1234` and its URL and navigates again |
| `NewBillContainer.SubmitWithStoreRejected` | src/containers/NewBill.js:64-81 | with a store, a rejection is logged after the submit's navigation, and no key or URL is recorded |
| `Dom.FileInput.ClearValue` | src/containers/NewBill.js:27 | assigning `''` to the input's value empties its file list and its value |
| `Dom.FormData.Append` | src/containers/NewBill.js:48-57 | each `append` adds one entry at the end |

## Left out

- DOM queries, jQuery `.val()` reads, `preventDefault` and listener registration (`src/containers/NewBill.js:9-12, 20-21, 36-44`) are UI plumbing. The form's values arrive as a `FormFields` record, and the file input is the `FileInput` object given to the constructor.
- `Logout` construction (`src/containers/NewBill.js:16`): `Logout.js` is not part of this model.
- The session record: `JSON.parse(localStorage.getItem("user")).email` becomes an `Option<string>` parameter of the submit handler. `None` stands for a record without `email`, which is appended as `"undefined"`. A missing record, which would make `JSON.parse(null).email` throw, is not modelled.
- `src/constants/routes.js` is not part of this model. Navigation is recorded by its route key `Bills`, not by the path string.
- The store is reduced to whether one was passed to the constructor. Its answer is the `CreateResponse` given to `SettleCreate`: `Resolved(fileUrl, key)` or `Failed(error)`. A resolved value without `fileUrl` or `key`, and an exception thrown inside the `then` callback (which `.catch` would also log), are not modelled. The `noContentType` header of the request is implied by the `StoreCreate` effect.
- Promise scheduling: when several `create` calls are pending (a double submit), the model settles them in whatever order `SettleCreate` is called. It does not match a settlement to its request.
- An empty selection on `change` makes `files[0].name` throw a TypeError before any assignment. The model reports it as `NoFile` and changes nothing.
- `alert` blocks the page. Here it is only an entry in the effect log.
- `JsBuiltins.LowerChar`, `JsBuiltins.ToLowerCase`: `ToLowerCase` keeps the length, which JavaScript does not always do (`"İ".toLowerCase()` has two code units), and `LowerChar` maps only `A`-`Z`, not the full Unicode case mapping of `toLowerCase`. No other character lower-cases to `.`, `p`, `n`, `g`, `j` or `e`, so the accept/refuse decision is exact. Non-ASCII characters of a refused extension are kept as they are.
- `JsBuiltins.ParseInt`: integers are unbounded. JavaScript Numbers lose precision above 2^53, and `String` writes values of 10^21 and above in exponent notation. Neither is modelled.
- `NewBillContainer.NewBill.HandleChangeFile`: the source's early `return` is written as an `if`/`else` with one exit; the behaviour is the same.
- `NewBillContainer.NewBill.HandleSubmit`: the ten `append` calls are in the helper method `NewPayload`, which it calls.
- `formatBills`, the `Bills` container, the router and the store mock used by `src/__tests__/Bills.js` are not part of this model.
