# jsdom form submission, Fetch body and request, and focus — a Dafny model

This project models four coupled pieces of jsdom's living DOM implementation
and proves properties of them:

- **The three form serializers.**
  - `application/x-www-form-urlencoded` percent-encodes names and values and joins them with `&` (module `UrlEncoded`).
  - `text/plain` writes one `name=value` line per entry, each ending in CRLF (module `PlainText`).
  - `multipart/form-data` uses a `FormDataLike` entry list handed to an external RFC 7578 encoder. Its `serialize` copies the entries, concatenates the encoder's chunks and copies its headers (module `MultipartForm`).
- **The form submission engine of `HTMLFormElement`** (module `FormSubmission`). This covers:
  - the `method` and `enctype` getters;
  - static constraint validation;
  - entry-list construction;
  - the `requestSubmit` state machine over `_constructingEntryList`, `_firingSubmissionEvents` and `_plannedNavigation`;
  - the GET branch, which rewrites the action URL;
  - the POST branch, which submits the entry list as an entity body in each of the three encodings.

  Navigations, fired events and `notImplemented` notices are recorded, in order, in a log of effects.
- **The Fetch `Body` mixin** (module `FetchBody`). This covers:
  - how a body value becomes a `{stream, contentType}` record;
  - what each of the five readers settles with;
  - the per-object state behind `body` and `bodyUsed`, which gives exactly-once consumption and a memoised stream.
- **The `Request` constructor and `clone()`** (module `FetchRequest`), in the order the constructor evaluates its steps. So a model request fails with the same error the constructor throws first.
- **Focus and `tabIndex` for HTML and SVG elements** (module `HtmlOrSvgElement`). This covers `focus()` and `blur()` over the document's last focused element, and the frame document's. It also covers the default and attribute-driven `tabIndex`.

Where the source mutates objects, the model is a class with those fields:
`FormDataLike`, `Form`, `BodyState`, `Request`, `Document` and `Element`.

Each state-changing method is proved equal to a pure step function of the old
state. The properties are then proved as lemmas about those step functions:
- exactly-once consumption;
- memoisation;
- a method always in `{GET, POST}` when a navigation happens;
- the GET URL carrying the entries;
- focus idempotence.

Pure source functions are Dafny functions. Loops in the source are methods with
loop invariants: `percentEncode`, `_staticallyValidateConstraints` and the
multipart `serialize`.

Promises are modelled by the value or error they settle with. Whatever the
world outside answers is a parameter:
- whether events are cancelled;
- whether the document is fully active;
- the character encoding;
- the entries `FormData` collects;
- the multipart encoder;
- URL parsing;
- `toString()` and `JSON.parse`;
- whether the generated `Blob` module can be called with `new`;
- whether the document has a window, and the window's frame element;
- the focusable-area test.

The model follows the code, including where the code departs from the HTML
and Fetch standards:
- A non-string entry value makes every serializer fail. URL-encoding throws the ReferenceError of the never-imported `notImplemented`; multipart rejects on `this._ownerDocument._defaultView`.
- A cancelled `submit` event leaves `_firingSubmissionEvents` raised, so later `requestSubmit` calls are dropped.
- `formData()` on a body always rejects, because the two serializer modules export no `parse`.
- The final `notImplemented("HTMLFormElement.prototype.requestSubmit")` notice is logged after every GET or POST dispatch.
- `percentEncode` hex-encodes UTF-16 code units, not UTF-8 bytes, so `é` becomes `%E9` rather than the standard's `%C3%A9`, and `€` becomes `%20AC`. For that reason the round-trip lemmas use a Latin-1 percent-decoder (`%XX` to U+00XX), not the URL Standard's urlencoded parser. The two decoders agree on ASCII text only.
- `focus()` with no previously focused element reads `_defaultView._frameElement`. It therefore throws in a document without a window, such as one from `createHTMLDocument` or `DOMParser`, even for an element that is not focusable.

The two places in `Request-impl.js` where the code evidently does not do what
its authors meant are listed under "Findings". There the rest of the model
uses the corrected behaviour, and the function `FetchRequest.Construct` keeps
both variants.

## Model

| member | source | states |
|---|---|---|
| JsCommon.OrElse | lib/jsdom/living/nodes/HTMLFormElement-impl.js:416-418 | `x \|\| fallback` on an optional string: the value when present and not empty, the fallback otherwise |
| JsCommon.ToLower | lib/jsdom/living/nodes/HTMLFormElement-impl.js:469-472 | `toLowerCase` keeps the length and lower-cases each ASCII letter in place |
| JsCommon.ToUpper | lib/jsdom/living/nodes/HTMLFormElement-impl.js:419 | `toUpperCase` keeps the length and upper-cases each ASCII letter in place |
| JsCommon.ToLowerNoUpper | lib/jsdom/living/nodes/HTMLFormElement-impl.js:471 | a lower-cased string has no upper-case ASCII letter |
| JsCommon.ToUpperNoLower | lib/jsdom/living/fetch/Request-impl.js:28 | an upper-cased string has no lower-case ASCII letter |
| JsCommon.Before | lib/jsdom/living/nodes/HTMLFormElement-impl.js:250-251 | `split("?")[0]`: a prefix without `?`; all of the string when it has no `?`; otherwise it stops exactly at the first `?` |
| JsCommon.SplitHeadIsBefore | lib/jsdom/living/nodes/HTMLFormElement-impl.js:430 | the first piece of `split(c)` is the text before the first `c` |
| JsCommon.SplitJoin | lib/jsdom/living/serializers/xWWWFormUrlEncoded.js:42 | splitting a `join(c)` of pieces that contain no `c` gives the pieces back |
| JsCommon.FilterMembers | lib/jsdom/living/serializers/MultipartForm.js:17 | `filter` keeps exactly the elements that satisfy the predicate |
| JsCommon.DecimalRoundTrip | lib/jsdom/living/nodes/HTMLOrSVGElement-impl.js:38 | parsing `String(n)` of an integer gives `n` back |
| UrlEncoded.EncodeUnit | lib/jsdom/living/serializers/xWWWFormUrlEncoded.js:8-21 | a safe code unit is copied and a space becomes `+`; every unit gives at least one character |
| UrlEncoded.OtherCharIsPercentHex | lib/jsdom/living/serializers/xWWWFormUrlEncoded.js:17-20 | any other code unit becomes `%` and its upper-case hex, padded to at least two digits |
| UrlEncoded.PercentEncode | lib/jsdom/living/serializers/xWWWFormUrlEncoded.js:3-24 | the loop's result is the encoding of its input |
| UrlEncoded.EncodedAlphabet | lib/jsdom/living/serializers/xWWWFormUrlEncoded.js:8-21 | the output holds only safe characters, `+` and `%` |
| UrlEncoded.OutputHasNoSeparators | lib/jsdom/living/serializers/xWWWFormUrlEncoded.js:8-21 | the output never holds `&`, `=` or `?` |
| UrlEncoded.EncodeSnoc | lib/jsdom/living/serializers/xWWWFormUrlEncoded.js:5-22 | encoding one more character appends that character's encoding |
| UrlEncoded.EncodeConcat | lib/jsdom/living/serializers/xWWWFormUrlEncoded.js:5-22 | encoding distributes over concatenation |
| UrlEncoded.SafeStringIsFixedPoint | lib/jsdom/living/serializers/xWWWFormUrlEncoded.js:8-14 | a string of ASCII letters, digits, `-`, `.`, `_` and `*` encodes to itself |
| UrlEncoded.EncodeExamples | lib/jsdom/living/serializers/xWWWFormUrlEncoded.js:15-20 | a space gives `+`, LF gives `%0A`, `é` gives `%E9` and `€` gives `%20AC` |
| UrlEncoded.EncodingIsNotInjective | lib/jsdom/living/serializers/xWWWFormUrlEncoded.js:19-20 | U+0010 followed by `0` and U+0100 both encode as `%100`, because the hex is not padded beyond two digits |
| UrlEncoded.DecodeEncodeChar | lib/jsdom/living/serializers/xWWWFormUrlEncoded.js:14-20 | the Latin-1 percent-decoder (`%XX` to U+00XX) inverts the encoding of a Latin-1 character |
| UrlEncoded.Latin1RoundTrip | lib/jsdom/living/serializers/xWWWFormUrlEncoded.js:3-24 | the Latin-1 percent-decoder inverts the encoding of a Latin-1 string |
| UrlEncoded.Parts | lib/jsdom/living/serializers/xWWWFormUrlEncoded.js:28-32 | one part per entry, in order, each the encoded name, `=` and the encoded value |
| UrlEncoded.Serialize | lib/jsdom/living/serializers/xWWWFormUrlEncoded.js:27-43 | succeeds exactly on all-string lists; otherwise fails with the ReferenceError of the undefined `notImplemented`; `""` for no entries |
| UrlEncoded.PartSplitsAtEquals | lib/jsdom/living/serializers/xWWWFormUrlEncoded.js:30-32 | a part has no `&` and splits at `=` into exactly the encoded name and the encoded value |
| UrlEncoded.SerializeSplits | lib/jsdom/living/serializers/xWWWFormUrlEncoded.js:28-42 | splitting the query at `&` gives back the parts, one per entry, in order |
| UrlEncoded.SerializeHasNoQuestionMark | lib/jsdom/living/serializers/xWWWFormUrlEncoded.js:42 | the query string holds no `?` |
| UrlEncoded.SerializeEmptyIffNoEntries | lib/jsdom/living/serializers/xWWWFormUrlEncoded.js:42 | the query string is empty exactly when there are no entries |
| UrlEncoded.ParsePartsInverse | lib/jsdom/living/serializers/xWWWFormUrlEncoded.js:28-32 | parsing the parts with the Latin-1 percent-decoder gives back the names and values of Latin-1 entries |
| UrlEncoded.SerializeParseRoundTrip | lib/jsdom/living/serializers/xWWWFormUrlEncoded.js:27-43 | parsing the query with the Latin-1 percent-decoder gives back the name/value pairs of Latin-1 entries, in order |
| UrlEncoded.EncodeSpacedWords | lib/jsdom/living/serializers/xWWWFormUrlEncoded.js:15-16 | two safe words joined by a space encode as the same words joined by `+` |
| UrlEncoded.EncodeSpaceExample | lib/jsdom/living/serializers/xWWWFormUrlEncoded.js:15-16 | `x y` encodes as `x+y` |
| UrlEncoded.EncodeHiThereExample | lib/jsdom/living/serializers/xWWWFormUrlEncoded.js:15-16 | `hi there` encodes as `hi+there` |
| UrlEncoded.SerializeSingle | lib/jsdom/living/serializers/xWWWFormUrlEncoded.js:42 | a single string entry serializes to its part alone |
| UrlEncoded.PartsExample | lib/jsdom/living/serializers/xWWWFormUrlEncoded.js:28-32 | `[a:"1", b:"x y"]` gives the parts `a=1` and `b=x+y` |
| UrlEncoded.SerializeExample | lib/jsdom/living/serializers/xWWWFormUrlEncoded.js:27-43 | `[a:"1", b:"x y"]` serializes to `a=1&b=x+y` |
| UrlEncoded.SerializeHiThereExample | lib/jsdom/living/serializers/xWWWFormUrlEncoded.js:27-43 | `[q:"hi there"]` serializes to `q=hi+there` |
| PlainText.Lines | lib/jsdom/living/serializers/PlainText.js:4-10 | one line per entry, in order, the name, `=` and the value, unescaped |
| PlainText.Serialize | lib/jsdom/living/serializers/PlainText.js:2-15 | succeeds exactly on all-string lists, otherwise fails with the error thrown for a non-string value; `""` for no entries |
| PlainText.JoinTerminated | lib/jsdom/living/serializers/PlainText.js:13 | joining the lines with CRLF and adding a CRLF is ending every line with CRLF |
| PlainText.SerializeIsTerminatedLines | lib/jsdom/living/serializers/PlainText.js:13 | the result is every entry's line followed by CRLF |
| PlainText.TerminatedLinesLength | lib/jsdom/living/serializers/PlainText.js:4-13 | the terminated lines are as long as the sum of name, value and 3 over the entries |
| PlainText.SerializeLength | lib/jsdom/living/serializers/PlainText.js:4-13 | the result's length is the sum of name length, value length and 3 over the entries |
| PlainText.SerializeEmptyIffNoEntries | lib/jsdom/living/serializers/PlainText.js:13 | the result is empty exactly when there are no entries |
| PlainText.TerminatedLinesEnd | lib/jsdom/living/serializers/PlainText.js:13 | terminated lines of a non-empty list end with CRLF |
| PlainText.SerializeEndsWithCrlf | lib/jsdom/living/serializers/PlainText.js:13 | the result for a non-empty list ends with CRLF |
| PlainText.EncodingIrrelevant | lib/jsdom/living/serializers/PlainText.js:2-13 | the encoding argument does not change the result |
| PlainText.SerializeExample | lib/jsdom/living/serializers/PlainText.js:2-15 | `[a:"1", b:"x y"]` serializes to `a=1` CRLF `b=x y` CRLF |
| MultipartForm.EntryPairs | lib/jsdom/living/serializers/MultipartForm.js:20-24 | `entries()` yields `[name, value]` for each entry, in order |
| MultipartForm.FormDataLike.constructor | lib/jsdom/living/serializers/MultipartForm.js:6-10 | the entries are a copy of the given list, or empty without one |
| MultipartForm.FormDataLike.Append | lib/jsdom/living/serializers/MultipartForm.js:12-14 | one entry is added at the end, earlier ones are kept, and `getAll` of that name gains the value at its end while other names are unchanged |
| MultipartForm.ValuesNamedAppend | lib/jsdom/living/serializers/MultipartForm.js:16-18 | `getAll` over two lists is `getAll` over the first, then over the second |
| MultipartForm.ValuesNamedMembership | lib/jsdom/living/serializers/MultipartForm.js:16-18 | a value is in `getAll(name)` exactly when some entry is `(name, value)` |
| MultipartForm.ValuesNamedEmpty | lib/jsdom/living/serializers/MultipartForm.js:16-18 | `getAll(name)` is empty exactly when no entry is called `name` |
| MultipartForm.ValuesNamedCount | lib/jsdom/living/serializers/MultipartForm.js:16-18 | `getAll(name)` holds one value per entry called `name` |
| MultipartForm.Serialize | lib/jsdom/living/serializers/MultipartForm.js:36-71 | succeeds exactly on all-string lists, otherwise fails with the TypeError of reading `_defaultView` of an undefined owner document; the encoder sees the entries in order, the buffer concatenates its chunks in order, and the headers are its headers |
| FormSubmission.NormalizeMethod | lib/jsdom/living/nodes/HTMLFormElement-impl.js:468-478 | the `method` getter is always `get`, `post` or `dialog`: the lower-cased attribute when it is one of them, `get` otherwise |
| FormSubmission.NormalizeEnctype | lib/jsdom/living/nodes/HTMLFormElement-impl.js:484-494 | the `enctype` getter is always one of the three encoding types: the lower-cased attribute when it is one of them, urlencoded otherwise |
| FormSubmission.NormalizeMethodIdempotent | lib/jsdom/living/nodes/HTMLFormElement-impl.js:468-478 | setting the attribute to the getter's value leaves the getter's value unchanged |
| FormSubmission.NormalizeEnctypeIdempotent | lib/jsdom/living/nodes/HTMLFormElement-impl.js:484-494 | setting the attribute to the getter's value leaves the getter's value unchanged |
| FormSubmission.NormalizeMethodExamples | lib/jsdom/living/nodes/HTMLFormElement-impl.js:468-478 | `POST` reads as `post` and `put` reads as `get` |
| FormSubmission.NormalizeEnctypeExamples | lib/jsdom/living/nodes/HTMLFormElement-impl.js:484-494 | `Text/Plain` reads as `text/plain`, and no attribute reads as urlencoded |
| FormSubmission.NewEntry | lib/jsdom/living/nodes/HTMLFormElement-impl.js:35-51 | an `Entry` keeps a string value; a non-string value throws on the entry's missing owner document |
| FormSubmission.InvalidControlsEmpty | lib/jsdom/living/nodes/HTMLFormElement-impl.js:530-545 | no control is invalid exactly when no owned submittable candidate fails its constraints |
| FormSubmission.StaticallyValidateConstraints | lib/jsdom/living/nodes/HTMLFormElement-impl.js:529-558 | positive exactly when no owned submittable candidate fails its constraints; every invalid control gets an `invalid` event, in order; the unhandled ones are those whose event was not cancelled |
| FormSubmission.InvalidEvents | lib/jsdom/living/nodes/HTMLFormElement-impl.js:550-555 | one `invalid` event per invalid control, in order |
| FormSubmission.WithContentType | lib/jsdom/living/nodes/HTMLFormElement-impl.js:278-283 | `Content-Type` becomes the encoding type exactly when neither spelling holds a non-empty value; every other header is kept |
| FormSubmission.ContentTypeAlwaysPresent | lib/jsdom/living/nodes/HTMLFormElement-impl.js:280-282 | every POST navigation carries a content type |
| FormSubmission.Form.constructor | lib/jsdom/living/nodes/HTMLFormElement-impl.js:144-145 | a new form has both flags lowered, no planned navigation and an empty log |
| FormSubmission.Form.ConstructEntryList | lib/jsdom/living/nodes/HTMLFormElement-impl.js:155-167 | `null` while constructing; otherwise `formdata` is fired and the collected entries are returned, with the flag lowered again |
| FormSubmission.Form.MutateActionURL | lib/jsdom/living/nodes/HTMLFormElement-impl.js:246-274 | the planned navigation is the GET URL with no body, and it is navigated to; a non-string entry throws first |
| FormSubmission.Form.NavigatePlanned | lib/jsdom/living/nodes/HTMLFormElement-impl.js:278-297 | records a navigation to the planned navigation, with the content type added |
| FormSubmission.Form.SubmitAsEntityBody | lib/jsdom/living/nodes/HTMLFormElement-impl.js:276-363 | the state after each encoding type's branch, and the multipart result left pending |
| FormSubmission.Form.SettleMultipart | lib/jsdom/living/nodes/HTMLFormElement-impl.js:319-334 | a multipart result navigates with the encoder's headers and the buffer; a failure logs the notice with the error message |
| FormSubmission.Form.RequestSubmit | lib/jsdom/living/nodes/HTMLFormElement-impl.js:365-446 | the new state and completion are those of the submission spec on the old state |
| FormSubmission.Form.ValidateAndSubmit | lib/jsdom/living/nodes/HTMLFormElement-impl.js:388-446 | validation unless `novalidate`, then the submit steps |
| FormSubmission.Form.Submit | lib/jsdom/living/nodes/HTMLFormElement-impl.js:396-446 | the `submit` event, entry-list construction and dispatch |
| FormSubmission.Form.Dispatch | lib/jsdom/living/nodes/HTMLFormElement-impl.js:414-446 | the second activity check, the method and scheme filters, then GET or POST |
| FormSubmission.Form.Get | lib/jsdom/living/nodes/HTMLFormElement-impl.js:438-445 | the GET branch and the closing notice |
| FormSubmission.Form.Post | lib/jsdom/living/nodes/HTMLFormElement-impl.js:441-445 | the POST branch, the closing notice, then the multipart settlement |
| FormSubmission.GuardsChangeNothing | lib/jsdom/living/nodes/HTMLFormElement-impl.js:366-386 | a call stopped by the submitter checks, inactivity, construction or re-entrance changes nothing; it throws exactly for a bad submitter, a TypeError for a non-submit button and NotFoundError for another form's button |
| FormSubmission.DispatchKeepsFlags | lib/jsdom/living/nodes/HTMLFormElement-impl.js:414-446 | dispatch leaves both flags as they were and only appends to the log |
| FormSubmission.ReachesDispatch | lib/jsdom/living/nodes/HTMLFormElement-impl.js:365-412 | a call that passes the guards and validation, whose submit event is not cancelled, reaches dispatch after exactly the `submit` and `formdata` events, with the firing flag lowered |
| FormSubmission.FiringAfterCall | lib/jsdom/living/nodes/HTMLFormElement-impl.js:383-400 | after a call past the guards the firing flag is raised exactly when validation passed, the submit event was cancelled, and either the call was not from `submit()` or the flag was already raised; the constructing flag is lowered |
| FormSubmission.ConstructingStaysLowered | lib/jsdom/living/nodes/HTMLFormElement-impl.js:157-165 | no call leaves `_constructingEntryList` raised |
| FormSubmission.LogOnlyGrows | lib/jsdom/living/nodes/HTMLFormElement-impl.js:365-446 | a call only appends to the log of effects |
| FormSubmission.CancelledSubmitBlocksLaterCalls | lib/jsdom/living/nodes/HTMLFormElement-impl.js:384-400 | after a cancelled `submit` event the firing flag stays raised, and every later call not from `submit()` changes nothing |
| FormSubmission.ValidationFailureStops | lib/jsdom/living/nodes/HTMLFormElement-impl.js:390-393 | a validation failure fires the `invalid` events, lowers the firing flag, fires no `submit` and plans nothing |
| FormSubmission.DispatchNavigation | lib/jsdom/living/nodes/HTMLFormElement-impl.js:414-443 | dispatch plans or performs a navigation only when still active, with method GET or POST and an http(s) action |
| FormSubmission.NavigationRequiresHttpGetOrPost | lib/jsdom/living/nodes/HTMLFormElement-impl.js:365-443 | a call plans or performs a navigation only if it passed every guard, validation and both activity checks, its submit event was not cancelled, its method is GET or POST and the action's scheme is http or https |
| FormSubmission.SubmissionMethodChoice | lib/jsdom/living/nodes/HTMLFormElement-impl.js:416-419 | the submitter's `formMethod` upper-cased when non-empty, otherwise the upper-cased `method` getter, one of GET, POST and DIALOG |
| FormSubmission.GetUrlShape | lib/jsdom/living/nodes/HTMLFormElement-impl.js:249-255 | the GET URL keeps the action before its `?`, has a `?` exactly when the query is non-empty, and the query follows it |
| FormSubmission.GetUrlCarriesEntries | lib/jsdom/living/nodes/HTMLFormElement-impl.js:248-255 | for Latin-1 entries the GET URL keeps the action's path, has a query exactly when there are entries, and the query parses back to the entries under the Latin-1 percent-decoder |
| FormSubmission.GetUrlReplacesQuery | lib/jsdom/living/nodes/HTMLFormElement-impl.js:250-255 | an existing query of the action is replaced, not extended |
| FormSubmission.GetUrlExample | lib/jsdom/living/nodes/HTMLFormElement-impl.js:248-255 | `https://e.co/s?old=1` with `[q:"hi there"]` gives `https://e.co/s?q=hi+there` |
| FormSubmission.GetNavigates | lib/jsdom/living/nodes/HTMLFormElement-impl.js:438-445 | GET of an all-string list plans and records a bodiless navigation to the GET URL, then the notice; a non-string entry throws and changes nothing |
| FormSubmission.EmptyPostDoesNotNavigate | lib/jsdom/living/nodes/HTMLFormElement-impl.js:299-353 | a urlencoded or text/plain POST of no entries only logs the no-data and closing notices |
| FormSubmission.TextPostNavigates | lib/jsdom/living/nodes/HTMLFormElement-impl.js:299-353 | a urlencoded or text/plain POST of a non-empty string list navigates once with the non-empty serialization as body and `Content-Type` set to the encoding type |
| FormSubmission.MultipartPostSettlesLast | lib/jsdom/living/nodes/HTMLFormElement-impl.js:318-336 | a multipart POST completes normally; the navigation with the encoder's headers and chunks, or the failure notice, comes after the closing notice |
| FetchBody.ViewBytes | lib/jsdom/living/fetch/Body-impl.js:65 | `byteLength` bytes, starting at `byteOffset` of the backing buffer |
| FetchBody.CreateReadableStreamFromBody | lib/jsdom/living/fetch/Body-impl.js:14-52 | a falsy value gives an empty stream, a string or Buffer a one-chunk stream, a stream itself, all with no content type; other values succeed exactly when the extraction yields a buffer or form data, and otherwise fail with its error or "Unsupported body type for stream"; only they can carry a content type, and it is never empty |
| FetchBody.ConsumeBody | lib/jsdom/living/fetch/Body-impl.js:56-88 | what each target settles with: `text` always fulfils; an empty body gives `""`, `null` or a zero-length buffer; a Buffer gives exactly its viewed bytes; `blob` wraps the value when `new Blob` constructs and rejects with "Blob is not a constructor" otherwise; `formdata` always rejects; other targets reject as not implemented |
| FetchBody.ArrayBufferIsViewSlice | lib/jsdom/living/fetch/Body-impl.js:64-66 | the array buffer of a Buffer body is exactly the bytes from `byteOffset` to `byteOffset + byteLength` |
| FetchBody.FormDataAlwaysRejects | lib/jsdom/living/fetch/Body-impl.js:72-87 | `formData()` rejects with a TypeError exactly when the content type routes to a missing parser, and as not implemented otherwise |
| FetchBody.FormDataDefaultsToUrlEncoded | lib/jsdom/living/fetch/Body-impl.js:73-76 | without a `content-type` header `formData()` takes the urlencoded route |
| FetchBody.StepMonotone | lib/jsdom/living/fetch/Body-impl.js:94-146 | no operation changes the body value or headers, lowers the used flag or replaces a kept stream record |
| FetchBody.RunMonotone | lib/jsdom/living/fetch/Body-impl.js:94-146 | the same over any sequence of operations |
| FetchBody.ConsumeOnlyOnce | lib/jsdom/living/fetch/Body-impl.js:140-146 | the first read marks the body used even when its conversion fails, and every later read, for any target and after anything, rejects with "Body has already been consumed." and changes nothing |
| FetchBody.StreamIsMemoised | lib/jsdom/living/fetch/Body-impl.js:94-114 | once a record is kept, `body` returns it, and `_computeBodyStream` returns it while unused, forever |
| FetchBody.BodyGetterStreamThenWrapper | lib/jsdom/living/fetch/Body-impl.js:94-103 | the first `body` read returns the stream, later reads the whole record |
| FetchBody.UsedBeforeComputeIsNull | lib/jsdom/living/fetch/Body-impl.js:98-108 | a body used before any stream was computed reads `null` from then on |
| FetchBody.BodyState.constructor | lib/jsdom/living/fetch/Request-impl.js:75-76 | a new body is unused, with the given value, no stream record and the given headers |
| FetchBody.BodyState.SetHeader | lib/jsdom/living/fetch/Request-impl.js:82 | the header is set and the others kept |
| FetchBody.BodyState.ComputeBodyStream | lib/jsdom/living/fetch/Body-impl.js:105-114 | the new state and result are the compute step's |
| FetchBody.BodyState.Body | lib/jsdom/living/fetch/Body-impl.js:94-103 | the new state and result are the getter step's |
| FetchBody.BodyState.Consume | lib/jsdom/living/fetch/Body-impl.js:140-146 | the new state and result are the consume step's |
| FetchBody.BodyState.ArrayBuffer | lib/jsdom/living/fetch/Body-impl.js:120-122 | consumes as `arraybuffer` |
| FetchBody.BodyState.Blob | lib/jsdom/living/fetch/Body-impl.js:124-126 | consumes as `blob` |
| FetchBody.BlobFailureUsesBody | lib/jsdom/living/fetch/Body-impl.js:67-71 | when `new Blob` throws, `blob()` rejects with "Blob is not a constructor" and the body is used, so every later read rejects too |
| FetchBody.BodyState.FormData | lib/jsdom/living/fetch/Body-impl.js:128-130 | consumes as `formdata` |
| FetchBody.BodyState.Json | lib/jsdom/living/fetch/Body-impl.js:132-134 | consumes as `json` |
| FetchBody.BodyState.Text | lib/jsdom/living/fetch/Body-impl.js:136-138 | consumes as `text` |
| FetchRequest.InvalidInputRejects | lib/jsdom/living/fetch/Request-impl.js:26-37 | an input that is neither a string, a URL nor an object with a non-empty `url` throws "Invalid input for Request" |
| FetchRequest.MethodNormalized | lib/jsdom/living/fetch/Request-impl.js:26-37 | a string or URL input gets `init.method` or `GET`, upper-cased; a request input without `init.method` keeps its method unchanged; a given `init.method` is always upper-cased |
| FetchRequest.NavigateModeRejects | lib/jsdom/living/fetch/Request-impl.js:61-63 | `navigate` mode always throws |
| FetchRequest.ConstructedDefaults | lib/jsdom/living/fetch/Request-impl.js:39-72 | a constructed request never has mode `navigate`; absent members default to `no-cors`, `same-origin`, `default`, `follow` and `""`; `keepalive` and `signal` are copied; the destination is `""` and the origin `client` |
| FetchRequest.ReferrerOutcome | lib/jsdom/living/fetch/Request-impl.js:43-59 | the referrer is `client`, `no-referrer` or the given string, and `client` when none is given |
| FetchRequest.AboutClientResets | lib/jsdom/living/fetch/Request-impl.js:48-55 | a referrer string that parses with protocol `about:` and path `client` becomes `client` |
| FetchRequest.EmptyReferrerAsWritten | lib/jsdom/living/fetch/Request-impl.js:43-46 | as written, an empty referrer string stays `""` |
| FetchRequest.NoReferrerOnlyVerbatimAsWritten | lib/jsdom/living/fetch/Request-impl.js:45-46 | as written, the referrer is `no-referrer` only when that string was given: the branch that should produce it is dead |
| FetchRequest.EmptyReferrerIsNoReferrer | lib/jsdom/living/fetch/Request-impl.js:45-46 | corrected, an empty referrer string becomes `no-referrer` |
| FetchRequest.BodilessRequestThrowsAsWritten | lib/jsdom/living/fetch/Request-impl.js:76-83 | as written, a request without a body and without a `content-type` header throws on reading `contentType` of the undefined stream record |
| FetchRequest.BodilessRequestSucceeds | lib/jsdom/living/fetch/Request-impl.js:76-83 | corrected, such a request is constructed with an unused null body, no stream record and its headers unchanged |
| FetchRequest.CorrectionsAreConservative | lib/jsdom/living/fetch/Request-impl.js:18-84 | apart from an empty referrer string and a bodiless request without a content type, the corrected constructor behaves exactly as written |
| FetchRequest.BodyRecordAndContentType | lib/jsdom/living/fetch/Request-impl.js:76-83 | a truthy body has its stream record computed at construction; the record's content type, when it has one, becomes the `content-type` header exactly when there was none; otherwise the headers are unchanged |
| FetchRequest.CloneCopiesTarget | lib/jsdom/living/fetch/Request-impl.js:86-91 | corrected, a clone of an unused request keeps the URL, method and headers, and has no body, mode `no-cors` and referrer `client` |
| FetchRequest.UsedBodyCannotBeCloned | lib/jsdom/living/fetch/Request-impl.js:87-89 | cloning a used request throws "Body has already been used" |
| FetchRequest.CloneWithoutContentTypeThrowsAsWritten | lib/jsdom/living/fetch/Request-impl.js:86-91 | as written, cloning any request without a `content-type` header throws |
| FetchRequest.Request.New | lib/jsdom/living/fetch/Request-impl.js:18-84 | the new request, with a fresh body object, is the constructor spec's record, or fails with its error |
| FetchRequest.Request.Clone | lib/jsdom/living/fetch/Request-impl.js:86-91 | the clone is the clone spec's record, or fails with its error |
| HtmlOrSvgElement.ToLong | lib/jsdom/living/nodes/HTMLOrSVGElement-impl.js:34 | WebIDL `long`: not finite gives 0; otherwise the result is congruent to the integer part modulo 2^32, and equal to it within the signed 32-bit range |
| HtmlOrSvgElement.DefaultTabIndex | lib/jsdom/living/nodes/HTMLOrSVGElement-impl.js:9-33 | 0 for the listed HTML elements, a details summary and SVG `a`; -1 for every other element |
| HtmlOrSvgElement.TabIndexOf | lib/jsdom/living/nodes/HTMLOrSVGElement-impl.js:25-35 | always in the signed 32-bit range; the default without a `tabindex` attribute |
| HtmlOrSvgElement.TabIndexOfDecimal | lib/jsdom/living/nodes/HTMLOrSVGElement-impl.js:34 | a decimal integer attribute a double holds exactly reads as its WebIDL `long` value |
| HtmlOrSvgElement.TabIndexRoundTrip | lib/jsdom/living/nodes/HTMLOrSVGElement-impl.js:37-39 | reading `tabIndex` after setting it gives back the value set |
| HtmlOrSvgElement.FocusFocusedIsNoOp | lib/jsdom/living/nodes/HTMLOrSVGElement-impl.js:44-48 | focusing the focused element changes nothing and fires nothing, with or without a window |
| HtmlOrSvgElement.FocusOutcome | lib/jsdom/living/nodes/HTMLOrSVGElement-impl.js:50-70 | the call throws reading `_frameElement` of a null `_defaultView` exactly when nothing had focus and the document has no window, focusable element or not, and then changes nothing; otherwise the element is focused exactly when it was or is focusable, and otherwise nothing is, and the parent document's focus moves to the frame element exactly when there was no previous element and the window has a frame |
| HtmlOrSvgElement.FocusIdempotent | lib/jsdom/living/nodes/HTMLOrSVGElement-impl.js:41-74 | focusing a focusable element twice is focusing it once: the second call is a no-op, or throws again just as the first did |
| HtmlOrSvgElement.PreviousBlurredFirst | lib/jsdom/living/nodes/HTMLOrSVGElement-impl.js:50-73 | the previous element gets `blur` then `focusout` first, even when this element is not focusable; `focus`, `focusin` and the selection collapse follow only for a focusable element |
| HtmlOrSvgElement.FocusEventIffFocusGained | lib/jsdom/living/nodes/HTMLOrSVGElement-impl.js:65-72 | a `focus` event is fired at the element exactly when the call gives it focus, which never happens on a first focus in a document without a window |
| HtmlOrSvgElement.BlurOutcome | lib/jsdom/living/nodes/HTMLOrSVGElement-impl.js:76-85 | `blur()` acts only on the focused, focusable element, and then leaves no focus and empties the selection |
| HtmlOrSvgElement.FocusThenBlur | lib/jsdom/living/nodes/HTMLOrSVGElement-impl.js:41-85 | blurring a just-focused element leaves no focus, and a second blur changes nothing |
| HtmlOrSvgElement.Element.SetTabIndex | lib/jsdom/living/nodes/HTMLOrSVGElement-impl.js:37-39 | writes `String(value)` to `tabindex`, after which `tabIndex` reads the value |
| HtmlOrSvgElement.Element.Focus | lib/jsdom/living/nodes/HTMLOrSVGElement-impl.js:41-74 | the new focus of both documents and the effects or the thrown TypeError are the focus step's |
| HtmlOrSvgElement.Element.Blur | lib/jsdom/living/nodes/HTMLOrSVGElement-impl.js:76-85 | the new focus and the effects are the blur step's |

## Findings

| source | as written | input that shows it | evidently intended | confidence | as-written member | corrected member |
|---|---|---|---|---|---|---|
| lib/jsdom/living/fetch/Request-impl.js:45-46 | the empty-string check sits inside `if (init.referrer)`, which an empty string never passes | `new Request(url, { referrer: "" })` gets the referrer `""` | an empty referrer string becomes `no-referrer`, as the inner check and the Fetch standard's `Request` constructor say | high; not executed | FetchRequest.EmptyReferrerAsWritten | FetchRequest.EmptyReferrerIsNoReferrer |
| lib/jsdom/living/fetch/Request-impl.js:78-83 | `this._typedStream.contentType` is read whenever the `content-type` header is absent, but `_typedStream` is set only for a truthy body | `new Request("https://example.com/")` throws a TypeError, and so does `clone()` of any request without a `content-type` header | a request without a body is constructed with its headers unchanged | high; not executed | FetchRequest.BodilessRequestThrowsAsWritten | FetchRequest.BodilessRequestSucceeds |

## Left out

- URL parsing (`new URL(input, base)`) and the document's base URL are a parameter of the request model. The `action` getter's URL resolution (lib/jsdom/living/nodes/HTMLFormElement-impl.js:500-510) is not modelled: `action` is an input string.
- The `Headers` class (lib/jsdom/living/fetch/Headers-impl.js is not part of this model). Headers are a map from lower-case names to values; name normalisation, validation and value combining are not modelled.
- `toString()` of a non-string body and `JSON.parse` are host parameters. So is `isFocusableAreaElement`; whether a `summary` is its parent `details`' summary is a parameter too.
- The `XMLHttpRequest` body extraction (lib/jsdom/living/xhr/XMLHttpRequest-impl.js is not part of this model) is summarised by its outcome in `Extraction`. `isReadableStream` (lib/jsdom/living/fetch/Body-impl.js:8-11) is the `StreamLike` case of the body value.
- `Blob`: lib/jsdom/living/generated/Blob.js is not part of this model. Whether the value it exports can be called with `new` is a host parameter. The other generated modules are used only through `create`/`createImpl`, so most likely it cannot, and `blob()` rejects with "Blob is not a constructor". When it can, `blob()` fulfils with a Blob over the body value; the Blob's contents and media type are not modelled.
- `Readable.from` streams are values listing their chunks. Streaming, back-pressure and the `for await` chunk loop's timing are not modelled.
- Promises are modelled by their settled value. The multipart `then`/`catch` callbacks run after the rest of `requestSubmit`, which `Form.SettleMultipart` applies last. The interleaving of other tasks before that is not modelled.
- Event listeners: fired events are recorded effects, and cancellation is an input. A listener that re-enters the form or changes focus while an event is dispatched is not modelled.
- `navigate` (lib/jsdom/living/window/navigation.js) is recorded as a navigation effect. `_cannotNavigate`/`_isFullyActive` and `_characterEncoding` are inputs.
- The entries `FormData.createImpl` collects are an input. The unreachable code after the `return` in `_constructEntryList` (lib/jsdom/living/nodes/HTMLFormElement-impl.js:169-238) is not modelled.
- The `FormDataEncoder` byte layout and random boundary are a parameter.
- `toLowerCase`/`toUpperCase` are modelled on ASCII letters only. Other letters are left unchanged.
- Dafny characters are Unicode scalar values, so strings with lone surrogates are not modelled. UTF-16 code units are computed from scalar values.
- `percentEncode` is proved to round-trip only for Latin-1 text, since longer hex codes are ambiguous (`UrlEncoded.EncodingIsNotInjective`).
- HtmlOrSvgElement.StringToNumber: `ToNumber` is exact only for decimal integers within 2^53. Every other string (whitespace, signs, hex, exponents, fractions) is left to a parameter.
- HtmlOrSvgElement.Element.SetTabIndex takes the value after the WebIDL `long` conversion of the setter's argument. That conversion of arbitrary JavaScript values is not modelled.
- HtmlOrSvgElement.Element.Focus requires that a frame element belongs to a different document than the one it frames, as in every DOM tree.
- `dataset` and `_initHTMLOrSVGElement` (lib/jsdom/living/nodes/HTMLOrSVGElement-impl.js:15-22) are not modelled. They are `DOMStringMap` plumbing, and the `_tabIndex` field they set is never read.
- A `Request`'s `client` placeholder and the empty `isReloadNavigation` getter are not modelled.
- The mixin's fields (`_bodyUsed`, `_bodyBuffer`, `_typedStream`) and the headers live on a `BodyState` object owned by the request. In the source they are fields of the request itself.
- `submit()`, `_doRequestSubmit`, `reset`, the `elements` collection and the tree hooks of `HTMLFormElement` are DOM plumbing around the submission engine and are not modelled.
