# Gemini CLI inspector hook: interception and reconstruction

This project models the part of `hook.mjs` that decides what the inspector
sees. `hook.mjs` patches Node's `https.request` inside the Gemini CLI
process. For every call to a Google API host it captures the request body,
labels it, and publishes it. It does the same for the response, after
decompressing it and reassembling streamed fragments into one response.

The model is written in terms of the hook's own vocabulary:

- **`Js`** gives JSON values and the JavaScript semantics the hook relies on:
  - truthiness and `||`;
  - `?.` reads, and property reads that throw on `null` and `undefined`;
  - `in`, `includes`, `some`, `filter` and `map`;
  - `String(v)` and `join`.

  `undefined` is `None`. A thrown TypeError is the `Throw` completion.
- **`Text`** models `includes`, `trim`, the `\s` class, `split` and `join` on strings.
- **`Cascade`** is a first-match-wins rule list. Both classifiers are an ordered list of rules evaluated by it.
- **`RequestClassifier`** models `classifyRequest` (`hook.mjs:203-289`), including the extraction of the model name.
- **`ResponseClassifier`** models `classifyResponse` (`hook.mjs:292-399`), including the nested routing-decision parse.
- **`StreamMerge`** models `mergeChunks` (`hook.mjs:541-601`) as a left fold over the chunks. The fold is proved equal to a reference reading: the stream of all parts, and what each part contributes.
- **`Reassembly`** models `processJson` (`hook.mjs:486-539`). It tries, in order:
  - the whole body as one JSON document;
  - the `}\s*{` repair;
  - the line-by-line parse with the `data: ` prefix removed;
  - the raw-text fallback.
- **`Interception`** models the patched `https.request` (`hook.mjs:404-459`), the patched response `emit` (`hook.mjs:471-477`) and the encoding dispatch at the response's end (`hook.mjs:603-609`). That covers:
  - rebuilding the URL;
  - the `googleapis.com` filter;
  - buffering and forwarding of `write`/`end` chunks;
  - model injection and the method default;
  - collecting the response's `data` chunks and handling each `end`.

The model does not define the runtime services the hook calls. These are function parameters (the `Runtime` record):

- `JSON.parse` (`None` for a syntax error);
- UTF-8 decoding and encoding;
- `new URL(url).pathname`;
- `zlib.gunzip` and `zlib.brotliDecompress`.

Inside `Reassembly`, `classifyResponse` is also a parameter. `Interception` instantiates it with `ResponseClassifier.ClassifyResponse`.

Behaviours of the code that a reader might not expect, each stated by a member:

- Every path containing `/models` or `/operations` is a `meta_request`. This includes `.../models/gemini-pro:generateContent`, a chat request to the model named in its path (`RequestClassifier.MetaRequestPrecedence`).
- Thought text is also appended to the full text. Thought `a` followed by text `b`, `c` yields the text `abc`, not `bc` (`StreamMerge.ThoughtThenText`).
- A fragment `{thought: "a"}` with no `text` yields an empty thought segment, and the text `bc` (`StreamMerge.BareThoughtFlagIsEmptyThought`).
- Only `gzip` and `br` are decompressed. `deflate` and every other encoding are processed as they arrived.
- `req.end(callback)`, Node's documented way to end a request with a callback, throws out of the patched `end` on a watched call (see Findings).
- A trailing chunk with no candidate is skipped whole, usage block included (`StreamMerge.TrailingChunkWithoutCandidate`).
- The repair rewrites `}{` inside string literals as well (`Reassembly.RepairRewritesInsideStrings`).
- The response summary published is the one `classifyResponse` gives the merged data. The summary `mergeChunks` computes (`Tool Call: …`, `Text Response`, …) is never published. It is modelled anyway (`MergeResult.Summary`).

## Model

| member | source | states |
|---|---|---|
| RequestClassifier.ClassifyRequest | hook.mjs:203-289 | A `null` body throws. A falsy body is an unknown request. Every other outcome is a request type, carrying the model extracted from body or path. |
| RequestClassifier.ModelSources | hook.mjs:205-213 | The model is the outer `model` if truthy, else the unwrapped payload's, else the path segment after `/models/`, else `''`. |
| RequestClassifier.PathModelSpec | hook.mjs:209-212 | The path match finds the leftmost `/models/` followed by a non-colon. It captures up to the next colon or the end, and fails only when no such occurrence exists. |
| RequestClassifier.ColonFreeRun | hook.mjs:211 | `[^:]+` is greedy: the run stops exactly at the first colon or at the end. |
| RequestClassifier.MetaRequestPrecedence | hook.mjs:219-226 | A truthy body on a path containing `/models` or `/operations` is `meta_request` / `Metadata Operation`, whatever the body holds. |
| RequestClassifier.RuleKinds | hook.mjs:222-286 | Every rule that decides yields a request type. Only the tool-result rule yields `tool_result_request`, and only the usage rule yields `model_usage_request`. |
| RequestClassifier.DecidingRule | hook.mjs:219-288 | Any label other than unknown comes from a truthy body and from a rule that produced exactly that label and summary, with every earlier rule declining. |
| RequestClassifier.RuleDecides | hook.mjs:219-288 | Conversely, when the earlier rules decline a truthy body and a rule decides, the request gets that rule's label and summary and the extracted model, whatever later rules say. |
| RequestClassifier.FlashLiteIsRouting | hook.mjs:228-233 | A model name containing `flash-lite`, off the metadata paths, makes a `model_routing_request` / `Model Routing Check`. |
| RequestClassifier.RouterInstructionIsRouting | hook.mjs:235-240 | Without `flash-lite`, system-instruction texts joined by spaces that mention `router` or `classify` also make a routing check. |
| RequestClassifier.MetadataIsClientInit | hook.mjs:255-260 | `{"metadata": m}` with a truthy `ideType` or `pluginType` is `init_metadata_request` / `Client Init (<pluginType or Unknown>)`, with model `''`. |
| RequestClassifier.IdeContextChatRequest | hook.mjs:269-279 | A user turn whose text mentions the editor context or a change summary is `Chat Request (with IDE Context)`, ahead of the plain chat rule. |
| RequestClassifier.ModelUsageNeedsBareProject | hook.mjs:263-267 | `model_usage_request` implies a raw body that is an object with a truthy `project` and one key. The summary then is `Model Usage Check (<project>)`. |
| RequestClassifier.BareProjectIsUsageCheck | hook.mjs:263-267 | `{"project": p}` with non-empty `p`, off the metadata paths, is a usage check with summary `Model Usage Check (p)` and model `''`. |
| RequestClassifier.ToolResultShape | hook.mjs:244-253 | An accepted tool result has non-empty `contents` whose last turn has role `user` and an array of parts with a `functionResponse` key. |
| RequestClassifier.ToolResultNeedsFunctionResponse | hook.mjs:243-253 | `tool_result_request` is produced only when the unwrapped payload passes the tool-result test. |
| RequestClassifier.UserChatRequest | hook.mjs:228-286 | A `request`-wrapped plain user turn, off the metadata paths, falls through every earlier rule to `User Chat Request`, with the outer model. |
| ResponseClassifier.ClassifyResponse | hook.mjs:292-399 | A `null` body throws. A falsy body is `Unknown Response`. Every other outcome is a response type. |
| ResponseClassifier.RuleKinds | hook.mjs:302-396 | Every rule that decides yields a response type. |
| ResponseClassifier.AuthTokenWins | hook.mjs:294-307 | A payload with truthy `access_token` and `token_type` is an OAuth2 token, whatever other fields are present. |
| ResponseClassifier.NoRuleMeansUnknown | hook.mjs:389-398 | A payload that no rule claims is `unknown_response` / `Unknown Response`. |
| ResponseClassifier.FieldlessPayloadIsUnknown | hook.mjs:292-398 | A payload in which every field the rules test is absent or falsy is an unknown response. |
| ResponseClassifier.ChatVerdict | hook.mjs:371-387 | For object parts, the result is decided by key presence, not truthiness. It is a tool call when some part has a `functionCall` key, with the call names in part order joined by `, `. Otherwise it is text when some part has a `text` key, else empty. |
| ResponseClassifier.PartsVerdictSpec | hook.mjs:371-387 | The parts verdict is a tool call listing every call name in part order if some part has a `functionCall` key, else text if some part has a `text` key, else empty. |
| ResponseClassifier.CallNamesSpec | hook.mjs:378 | The tool-call summary lists the `name` of every `functionCall`, in part order. |
| ResponseClassifier.SomePartHasKey | hook.mjs:373-374 | On object parts, `some(p => key in p)` is key presence in at least one part. |
| ResponseClassifier.DecidingRule | hook.mjs:302-398 | A body that is not unknown was decided by one rule: every earlier rule declined, and that rule produced exactly the result. |
| ResponseClassifier.RuleDecides | hook.mjs:302-398 | Conversely, for a truthy payload, if every earlier rule declines and rule k decides, the body gets rule k's verdict. |
| ResponseClassifier.RoutingDecisionResponse | hook.mjs:313-333 | With no OAuth2 token, a first part whose text looks like an object, mentions `"model_choice"` and parses to a decision with a truthy `model_choice` is `Routing Decision: <model_choice>`. |
| ResponseClassifier.FlashLiteVersionResponse | hook.mjs:335-340 | With no token and no candidates, a `modelVersion` containing `flash-lite` is `Routing Response (Flash Lite)`. |
| ResponseClassifier.TierProfileResponse | hook.mjs:342-347 | If the earlier fields are absent, truthy `currentTier` and `allowedTiers` give `User Profile (<tier name, else Unknown>)`. |
| ResponseClassifier.TokenIdentityResponse | hook.mjs:349-354 | If the earlier fields are absent, truthy `azp`, `aud`, `email` and `sub` give `Identity Info (<email>)`. |
| ResponseClassifier.ExperimentConfigResponse | hook.mjs:356-361 | If the earlier fields are absent, truthy `experimentIds` with a `flags` array give `Experiment Config (Flags: <number of flags>)`. |
| ResponseClassifier.UsageBucketsResponse | hook.mjs:363-368 | If the earlier fields are absent, an array `buckets` gives `Model Usage Statistics`. |
| ResponseClassifier.ChatResponse | hook.mjs:370-387 | If the earlier fields are absent and the first part holds no decision text, a body's classification is a tool call naming the calls in part order, else text, else empty. This is decided by key presence across the first candidate's parts. |
| ResponseClassifier.TwoCallsResponse | hook.mjs:370-387 | A body whose only candidate has the parts `functionCall` `a` then `functionCall` `b` is `chat_response_tool_call` with summary `Response (Tool Call): a, b`. |
| ResponseClassifier.ApiErrorResponse | hook.mjs:389-392 | If every rule field is absent, a truthy `error` gives `API Error`. |
| ResponseClassifier.UsageOnlyResponse | hook.mjs:393-396 | If every rule field and `error` are absent, a truthy `usageMetadata` gives `Metadata Response`. |
| StreamMerge.MergeChunks | hook.mjs:541-601 | An empty or non-array input gives the empty response. See the list below the table. |
| StreamMerge.AbsorbPartSpec | hook.mjs:569-573 | A non-null part appends its truthy `text` to the text, its text to the thoughts if flagged, and its truthy call to the calls. It changes nothing else. |
| StreamMerge.AbsorbPartsSpec | hook.mjs:568-574 | The inner loop throws exactly on a null part. Otherwise it appends the parts' text, thoughts and calls in order. |
| StreamMerge.AbsorbChunkSpec | hook.mjs:558-579 | One chunk adds its parts' contributions, and replaces the finish reason and usage only when its candidate offers truthy ones. |
| StreamMerge.AbsorbChunksSpec | hook.mjs:558-579 | The fold succeeds iff the whole part stream is readable with no null part. It then equals the reference reading: whole-stream text, thoughts and calls, and the last offered finish reason and usage. |
| StreamMerge.MergeFromInit | hook.mjs:545-579 | From the initial accumulators the fold yields exactly the reference values, with defaults `null` and `{}`. |
| StreamMerge.LastOfferedAt | hook.mjs:563-578 | The finish reason or usage is the one offered by the last chunk that offers one. |
| StreamMerge.LastOfferedNone | hook.mjs:548-550 | With no chunk offering a value, the initial `null` / `{}` stands. |
| StreamMerge.ThoughtTextInText | hook.mjs:570-571 | The text of a truthy thought part is both among the thoughts and contained in the full text. |
| StreamMerge.CallsInOrder | hook.mjs:572-591 | Two calls arriving in order appear in the tool calls in the same order. |
| StreamMerge.TrailingChunkWithoutCandidate | hook.mjs:559-578 | Appending a chunk without a candidate changes only `chunkCount`. Its usage block is ignored. |
| StreamMerge.UsageCarriesForward | hook.mjs:577-578 | The last chunk's usage wins when that chunk has a candidate. |
| StreamMerge.UsageDefaultsToEmpty | hook.mjs:550-578 | When no chunk with a candidate carries usage, the merged usage is `{}`. |
| StreamMerge.PartChunksMerge | hook.mjs:541-601 | A one-part-per-chunk stream regroups into thoughts, then text, then calls, with `chunkCount` equal to the number of parts. |
| StreamMerge.ThoughtThenText | hook.mjs:569-598 | Thought `a`, then text `b` and `c`, give parts `[{text:"a",thought:true}, {text:"abc"}]` and the summary `Text Response`. |
| StreamMerge.BareThoughtFlagIsEmptyThought | hook.mjs:570-584 | A `{thought:"a"}` fragment without text yields an empty thought text (`undefined` joins as `''`). |
| Reassembly.ProcessJson | hook.mjs:486-539 | It throws only when some line parsed. A published event is either classified as its data or is the raw body under 5000 characters. Nothing is published iff every attempt fails and the body has 5000 or more characters. |
| Reassembly.SingleDocumentBypassesMerge | hook.mjs:490-495 | A body that parses and classifies is published as is. |
| Reassembly.PublishedDataIsWhole | hook.mjs:486-538 | The published data is the parsed body, a merge of the repaired body, a merge of the valid lines, or `{raw: str}`. It is never a single fragment. |
| Reassembly.NullBodyThrows | hook.mjs:490-532 | The body `null` fails attempts 1 and 2 and throws out of the line attempt. |
| Reassembly.RepairSeam | hook.mjs:508 | `}` followed by whitespace and `{` becomes `},{`, with the whitespace dropped. The text before the first seam is untouched. |
| Reassembly.RepairGap | hook.mjs:508 | The match `}\s*{` itself becomes `},{`. |
| Reassembly.RepairAppend | hook.mjs:508 | A prefix without a seam passes through the repair unchanged. |
| Reassembly.RepairNoBrace | hook.mjs:508 | Text without `}` is unchanged. |
| Reassembly.RepairTwoLines | hook.mjs:504-508 | Any two brace-free object bodies written on consecutive lines are joined into `{…},{…}`. |
| Reassembly.RepairFinalBrace | hook.mjs:508 | A `}` that ends the text has no following `{`, so brace-free text ending in `}` is unchanged. |
| Reassembly.RepairTwoObjects | hook.mjs:504-508 | `{"a":1}\n{"a":2}` becomes `{"a":1},{"a":2}`. |
| Reassembly.RepairRewritesInsideStrings | hook.mjs:508 | `"}{"` inside a string literal is rewritten as well. |
| Reassembly.SplitOn | hook.mjs:517 | `split` yields at least one piece, and no piece contains the separator. |
| Reassembly.SplitOnJoin | hook.mjs:517 | Joining the pieces with the separator gives back the text. |
| Reassembly.StripDataPrefix | hook.mjs:523 | A leading `data: ` is removed once. Other lines are unchanged. |
| Reassembly.ValidChunks | hook.mjs:518-527 | There are never more chunks than lines. |
| Reassembly.ValidChunksSpec | hook.mjs:518-527 | A value is a valid chunk iff some non-blank line, with the prefix stripped and trimmed, parses to it. |
| Reassembly.ValidChunksAppend | hook.mjs:518-527 | Chunks keep line order and multiplicity: the chunks of `a + b` are the chunks of `a` followed by those of `b`. |
| Reassembly.ValidChunksLine | hook.mjs:519-526 | One line gives exactly one chunk, its parsed value, if it is non-blank and parses after cleaning; otherwise it gives none. |
| Reassembly.BlankLineSkipped | hook.mjs:520 | A blank line never yields a chunk. |
| Interception.RequestUrlParts | hook.mjs:415-419 | A URL rebuilt from options reads: `protocol` (default `https:`), `//`, `hostname` else `host` else `localhost`, then `path` (default `/`), and has exactly their total length. |
| Interception.NoOptionsNotIntercepted | hook.mjs:415-425 | A call without options goes to `https://localhost/` and is not intercepted. |
| Interception.GoogleHostIntercepted | hook.mjs:416-425 | A hostname ending in `googleapis.com` is intercepted, whatever the path. |
| Interception.HostnameBeforeHost | hook.mjs:416-419 | With every field given, the URL uses `hostname`, not `host`. |
| Interception.HttpMethod | hook.mjs:451 | The method defaults to `POST` and has no lower-case ASCII letter. |
| Interception.RecordAllSpec | hook.mjs:432-438 | As written: every call before the first function chunk reaches the original method unchanged, and the data of those calls is buffered in order. A function chunk throws out of its call, so it and every later call are not forwarded. |
| Interception.RecordAllGuardedSpec | hook.mjs:432-438 | With function chunks skipped, capture never throws, forwards every chunk, and buffers the data of every chunk in order. |
| Interception.InterceptRequestAsWritten | hook.mjs:404-459 | An unwatched call forwards everything and publishes nothing. A watched one forwards up to the first function chunk. It throws and publishes nothing iff there is one, and otherwise publishes the event for the concatenated data. |
| Interception.InterceptRequest | hook.mjs:404-459 | Corrected request handling: every chunk is forwarded and nothing throws. An unwatched URL or a request without data publishes nothing; a watched one publishes the event for its data. Without a function chunk it equals the code as written. |
| Interception.EndWithCallbackThrows | hook.mjs:437-438 | `req.end(callback)` after data writes throws as written, forwarding the writes only and publishing nothing. Corrected, the callback is forwarded and the writes' data is published. |
| Interception.InjectModel | hook.mjs:449 | A falsy model, or a body with a truthy `model`, leaves the body alone. An object gains `model` and keeps its other members. It throws iff the model must be set on a primitive. |
| Interception.InjectModelIdempotent | hook.mjs:449 | Injecting twice is injecting once. |
| Interception.RequestEvent | hook.mjs:440-456 | An event is published iff the buffer is non-empty, its text parses, the URL parses, and neither classification nor model injection throws. It then carries the classifier's label, the body with the model injected, the URL and the method. |
| Interception.PublishedRequestNamesModel | hook.mjs:447-451 | A published object body names its model whenever the classifier found one. |
| Interception.UsageCheckPublished | hook.mjs:440-451 | A watched `{"project": p}` body is published as `Model Usage Check (p)`, with the body unchanged and the call's URL and method. |
| Interception.ResponseOutcomeAsWritten | hook.mjs:478-610 | An unwatched call, or a body that fails to decompress, publishes nothing. Otherwise the handler publishes what `processJson` yields for the decoded body, with URL, method and status. When `processJson` throws, the exception escapes iff the body was `gzip` or `br`. |
| Interception.ResponseOutcome | hook.mjs:603-609 | Corrected handler: nothing ever escapes. It agrees with the handler as written whenever that does not escape, and publishes nothing where that escapes. |
| Interception.WholeDocumentPublished | hook.mjs:486-495 | A watched uncompressed body that is one JSON document is published as that document, labelled by `classifyResponse`, with URL, method and status. |
| Interception.NullGzipBodyEscapes | hook.mjs:603-604 | A gzip body decoding to `null` escapes as written, and is dropped by the corrected handler. |
| Interception.NullPlainBodyDropped | hook.mjs:607-610 | The same body uncompressed is absorbed by the handler's `try`. |
| Interception.CorruptBodyDropped | hook.mjs:603-606 | A body that fails to decompress publishes nothing. |
| Interception.ResponseEventMeta | hook.mjs:484-536 | A published response carries the call's URL, method and status, and a response type or the raw-text type. |
| Interception.WatchSignalsSpec | hook.mjs:474-477 | The patched `res.emit` passes every signal on unchanged. Each `end` runs the handler on the chunks collected so far plus the `data` chunks emitted before it; other signals run nothing. |
| Interception.WatchResponseSpec | hook.mjs:471-616 | On a watched response every event reaches the original `emit`. The `end` at position `i` yields the handler's outcome for exactly the `data` chunks emitted before `i`, in order. |
| Cascade.FirstMatchAt | hook.mjs:222-286 | The answer is that of the first rule that does not decline, whatever later rules say. |
| Cascade.FirstMatchNone | hook.mjs:216-288 | The cascade declines iff every rule declines, leaving the default. |
| Cascade.FirstMatchWitness | hook.mjs:302-386 | Any decision comes from some rule all of whose predecessors declined. |
| Js.SetMember | hook.mjs:449 | Assignment makes the key map to the value and leaves every other key as it was. |
| Js.AnyOf | hook.mjs:270-274 | When the predicate never throws, `some` is existence. A `false` answer means every element was rejected. |
| Js.Filter | hook.mjs:378 | The filter throws iff the predicate throws on some element. Otherwise it keeps exactly the accepted elements, in their original order: each accepted element lands at its rank among the accepted ones. |
| Js.MapValues | hook.mjs:378 | `map` preserves length and applies the callback pointwise. |
| Js.Iterate | hook.mjs:569 | `for..of` visits an array's elements, or a string's characters one by one as one-character strings, and throws on anything else. |
| Text.ContainsIffOccurs | hook.mjs:423 | `includes` holds iff the needle occurs at some index. |
| Text.TrimEmptyIffBlank | hook.mjs:520 | `trim()` is empty iff the line is all whitespace. |
| Text.AsciiUpperNormalises | hook.mjs:451 | Upper-casing leaves no ASCII lower-case letter: it is idempotent and keeps an upper-case method name as it is. |

What `StreamMerge.MergeChunks` states for a non-empty array input:

- It succeeds iff no part of the stream is null.
- The parts are the thought segment, then the text, then one part per call, whatever order they arrived in.
- The text includes thought text.
- The finish reason and usage come from the last chunk with a candidate that offers them.
- `chunkCount` counts every chunk.
- The summary follows the calls and the text.

## Left out

- The HTTP server, the SSE subscriber set, `/ping`, `/broadcast`, port probing and browser launch (`hook.mjs:29-167`). These are network and process side effects.
- `broadcast` forwarding and fan-out (`hook.mjs:169-198`). This is socket I/O with `Date.now()` timestamps. Publishing is modelled as the `Broadcast`/`Event` value handed to it.
- The `emit` patching mechanics (`hook.mjs:465-470`, 612-616): `this`, the `response` event and its extra arguments. The collection of `data` chunks and the re-emission of every event are modelled by `Interception.WatchResponse`, on a sequence of signals. `Buffer.concat` throwing on string `data` chunks (after `setEncoding`) is not modelled: data chunks are bytes. The response's `content-encoding` header and status code are parameters.
- `zlib`, `JSON.parse`, UTF-8 coding and `new URL` are parameters, not definitions. A URL object passed as the first argument of `https.request` is not modelled; the arguments are a URL string or an options object.
- The static-file server, `start.mjs`, `app.js`, `renderer.js` and `json-viewer.js` are UI and launch code, not the inspection core.
- Numbers are integers. Floating-point JSON numbers are not modelled.
- Lengths and indices are counted in characters (Unicode scalar values), not UTF-16 code units. This differs from JavaScript only for characters outside the Basic Multilingual Plane, and only where the code measures or indexes a string: the 5000-character raw-text limit (`hook.mjs:535`), `payload.flags.length` in the config summary when `flags` is a string (`hook.mjs:359`), and `payload.contents[payload.contents.length - 1]` when `contents` is a string (`hook.mjs:245`). `for..of` on a string visits code points, as the model does.
- Js.NumericValue: `v > 0` on a string, array or object is taken as NaN (false), so a `contents` or `candidates` whose `length` member is a numeric string is not recognised. JavaScript would convert such strings to numbers.
- Interception.HttpMethod: `toUpperCase` is modelled for ASCII only, and the contract states the length and the absence of ASCII lower-case letters rather than full Unicode case mapping.
- Interception.RequestOptions: option fields are strings, and a falsy field is the empty string. Non-string `protocol`, `host` or `path` values are not modelled.
- ResponseClassifier.ClassifyResponse: the contract states the range of types, the `null` case and the falsy case. Each rule's behaviour is stated by its own lemma in the table. Those lemmas are stated for payloads in which the earlier rules' fields are absent, not for every way an earlier rule can decline.
- ResponseClassifier.ChatVerdict: stated only for parts that are objects whose `functionCall` is neither `null` nor `undefined`. Parts that are primitives make the source throw; that case is modelled but not covered by the lemma.
- ResponseClassifier.ChatResponse: stated for a first candidate of the form `{content: {parts}}`, with the same restriction on parts as ChatVerdict.
- ResponseClassifier.RoutingDecisionResponse: stated for a first candidate whose `content.parts` is a single text part. Further parts do not change the rule, but the lemma does not cover them.
- Interception.InterceptRequestAsWritten: the calling code is taken to stop after the first call that throws. Chunks that are numbers or plain objects (which `Buffer.from` also rejects or converts) are not modelled: a chunk is absent, a string, a buffer or a function.
- Reassembly.ProcessJson: the contract does not restate which attempt wins when several would succeed. `SingleDocumentBypassesMerge` and `PublishedDataIsWhole` state the precedence of the whole-document parse and the possible sources of the published data.

## Findings

| source | as written | input that shows it | evidently intended | confidence | as-written member | corrected member |
|---|---|---|---|---|---|---|
| hook.mjs:603-606 | For `gzip` and `br` bodies, `processJson` runs inside the decompression callback. No `try` covers it, so an exception from the line attempt escapes into the host process. The identity path is covered by the handler's `try`. | A `gzip` response whose body decompresses to `null`. All three parse attempts read a member of `null`, and the third is unguarded (`Interception.NullGzipBodyEscapes`). | Exceptions in `processJson` are swallowed on every encoding, as on the identity path. | not executed | Interception.ResponseOutcomeAsWritten | Interception.ResponseOutcome |
| hook.mjs:437-438 | The patched `end` pushes `Buffer.from(chunk)` for every truthy chunk. Node's `req.end(callback)` passes a function there, `Buffer.from` throws a TypeError, and the original `end` never runs, so the request is never sent. | `req.end(() => {})` on a watched call, after any data writes (`Interception.EndWithCallbackThrows`). | Only data chunks are buffered; a function is passed on to the original `end`. | not executed | Interception.InterceptRequestAsWritten | Interception.InterceptRequest |
