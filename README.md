# AI review gateway — a verified model

The gateway is a small HTTP worker. It receives two candidate entity records
and their semantic similarity score. It asks a hosted chat-completion model
whether the two records describe the SAME real-world entity or DIFFERENT
ones, and answers with the decision and the token counts.

This project models its logic in Dafny and proves properties of that model:

- `Parser` is the decision parser (`parseDecision`). It has two tiers. First
  a line scan: the first trimmed, upper-cased line of the trimmed reply that
  starts with SAME or DIFFERENT decides. Otherwise a fallback looks for
  whichever word comes first in the reply's first 100 characters. When
  neither word is found, the answer is DIFFERENT. The method with its loop is
  proved against the function `DecisionOf`. Totality is by construction:
  `Decision` has exactly the two values SAME and DIFFERENT, and the method
  returns one of them for every string, including `""`.
- `Prompt` is the prompt text. `FormatProperties` is the rendering loop for
  an entity's properties; `BuildPrompt` is the template; `SystemPrompt` is
  the fixed system message. Writing a property value can throw: an object
  with its own `toString` member has no string form, because JSON cannot make
  that member a function. `PromptThrows` says when, and such a request gets
  status 500 without anything being sent (`Gateway.UnconvertibleProperty`).
- `DeepInfra` is the model call. `CallWithRetry` is the bounded retry loop
  with exponential back-off. `ReviewMerge` composes the prompt, the call and
  the parser.
- `Gateway` is the worker entry point: request validation, route selection,
  and the 400/500/200 branching of the review handler.
- The supporting modules are `Text`, `Json`, `Types` and `Wrappers`:
  - `Text` holds the JavaScript string built-ins used: `trim`, ASCII
    `toUpperCase`, `startsWith`, `indexOf`, `slice`, `split` and `join`.
  - `Json` holds the parsed request values, with JavaScript's property
    lookup, truthiness and default string conversion.
  - `Types` holds the records of `src/types.ts`.

The network, the clock and `request.json()` are inputs, not behaviour:

- `network(i)` is what attempt `i` meets: a reply (with its latency, status,
  text and parsed body), no reply at all, or a rejected `fetch`.
- The requests sent and the delays slept come back as ordinary results.
  This lets the contracts speak about them.
- A request body arrives already parsed. `None` stands for a body that
  `request.json()` could not parse.

For the reply `"I think DIFFERENT\nSAME"` the 100-character window alone
would say DIFFERENT, but the second line starts with SAME, so the decision is
SAME (`Parser.AnswerLineBeatsEarlierMention`).

## Model

| member | source | states |
|---|---|---|
| Parser.ParseDecision | src/parser.ts:12-45 | the loop's result equals `DecisionOf`. The first line with a verdict decides; after that the loop stops and the fallback is not consulted. |
| Parser.FirstVerdict | src/parser.ts:17-26 | the scan finds no verdict exactly when no line's trimmed, upper-cased form starts with SAME or DIFFERENT |
| Parser.FirstMatchDecides | src/parser.ts:17-26 | the first line with a verdict decides the scan, whatever later lines say |
| Parser.LineScanDecides | src/parser.ts:13-26 | if line k of the trimmed response is the first to start with SAME or DIFFERENT (trimmed, any case), that word is the decision |
| Parser.EarlierWordSameIff | src/parser.ts:31-37 | the fallback gives SAME exactly when SAME occurs and DIFFERENT does not occur before it |
| Parser.WindowSameIff | src/parser.ts:29-35 | with no answer line, SAME exactly when SAME occurs in the upper-cased first 100 characters and DIFFERENT is absent there or later |
| Parser.WindowDifferent | src/parser.ts:29-37 | with no answer line, DIFFERENT in the window with no SAME before it gives DIFFERENT |
| Parser.EarlierWordDifferent | src/parser.ts:36-37 | DIFFERENT at some index with no SAME before it makes the fallback say DIFFERENT |
| Parser.ConservativeDefault | src/parser.ts:38-41 | no answer line and neither word in the window gives DIFFERENT |
| Parser.WindowBound | src/parser.ts:30 | two replies with no answer line and the same first 100 characters get the same decision |
| Parser.CaseInsensitive | src/parser.ts:19-30 | replies that agree once upper-cased get the same decision |
| Parser.DecisionOfUpper | src/parser.ts:19-30 | upper-casing a reply never changes its decision |
| Parser.FirstVerdictUpper | src/parser.ts:17-26 | the line scan gives the same verdict on upper-cased lines |
| Parser.TrimmedAlready | src/parser.ts:18 | a line with no whitespace at either end is its own trim |
| Parser.NoVerdict | src/parser.ts:19-25 | a trimmed line whose first letter is neither S nor D, in either case, has no verdict |
| Parser.SameLine | src/parser.ts:19-21 | the line `SAME` has the verdict SAME |
| Parser.TwoLines | src/parser.ts:13 | `a + "\n" + b` splits into exactly `[a, b]` when neither part holds a line feed |
| Parser.AnswerLineBeatsEarlierMention | src/parser.ts:13-45 | for `"I think DIFFERENT\nSAME"` the window alone says DIFFERENT, but the decision is SAME |
| Parser.MentionLines | src/parser.ts:13 | `"I think DIFFERENT\nSAME"` splits into its two lines |
| Parser.MentionWindow | src/parser.ts:30-37 | the window of `"I think DIFFERENT\nSAME"` decides DIFFERENT |
| Parser.ExplicitFirstLine | src/parser.ts:17-21 | a reply whose first line is `SAME` is SAME, whatever follows |
| Parser.EmptyReply | src/parser.ts:38-41 | the empty reply gives DIFFERENT |
| Text.TrimStartSpec | src/parser.ts:13 | the left part of `trim` keeps the longest suffix that does not start with whitespace |
| Text.TrimEndSpec | src/parser.ts:13 | the right part of `trim` keeps the longest prefix that does not end with whitespace |
| Text.TrimIsSlice | src/parser.ts:18 | `trim` gives the slice left after dropping whitespace at both ends; what it keeps neither starts nor ends with whitespace |
| Text.Prefix | src/parser.ts:30 | `slice(0, n)` is the first `min(n, length)` characters |
| Text.IndexOf | src/parser.ts:31-32 | `indexOf` gives the first index of an occurrence, or -1 exactly when there is none |
| Text.Split | src/parser.ts:13 | `split` always gives at least one piece |
| Text.SplitPieces | src/parser.ts:13 | no piece of a split holds the separator |
| Text.JoinSplit | src/prompt.ts:23 | joining the pieces of a split with the separator gives back the string |
| Text.SplitJoin | src/prompt.ts:23 | splitting a join of separator-free pieces gives back the pieces |
| Text.SplitFree | src/parser.ts:13 | a string without the separator splits into itself |
| Text.SplitPrefixed | src/parser.ts:13 | a separator-free first piece followed by the separator splits off as the first piece |
| Text.UpperKeepsWhitespace | src/parser.ts:18-19 | upper-casing neither creates nor removes whitespace |
| Text.UpperIdempotent | src/parser.ts:19 | upper-casing twice is upper-casing once |
| Text.UpperSlice | src/parser.ts:30 | upper-casing commutes with slicing |
| Text.TrimUpper | src/parser.ts:18-19 | trimming commutes with upper-casing |
| Text.TrimStartUpper | src/parser.ts:18-19 | dropping leading whitespace commutes with upper-casing |
| Text.TrimEndUpper | src/parser.ts:18-19 | dropping trailing whitespace commutes with upper-casing |
| Text.SplitUpper | src/parser.ts:13-19 | splitting on a line feed commutes with upper-casing |
| Text.NatToString | src/prompt.ts:13 | the key `Object.entries` gives index `n` is a non-empty digit string whose value (`DigitsValue`) is `n`, with no leading zero |
| Text.NatToStringInjective | src/prompt.ts:13 | two indices get the same key exactly when they are equal |
| Json.Get | src/index.ts:12-27 | a property is found only on an object, exactly when the object has a member of that name, and its value is that of the last such member |
| Json.Field | src/index.ts:12 | lookup finds a member exactly when one has that name; the value found is that of a member with the name after which no member has it, so the last one wins |
| Json.LastMemberWins | src/index.ts:12 | in `{"a": null, "a": true}` the member `a` is `true` |
| Json.JoinShownIsJoin | src/prompt.ts:17 | `value.join(", ")` is the join of the element texts |
| Prompt.Classify | src/prompt.ts:14-20 | an object of type `entity_ref` is a reference (tested first); an array is a list; anything else is shown as a string |
| Prompt.Entries | src/prompt.ts:8-13 | a falsy property value has no entries |
| Prompt.EntriesOf | src/prompt.ts:8-13 | `Object.entries` gives nothing for a falsy value, a number or a boolean; for an object, each key once, in the order keys first appear, with the value `v.key` reads; an array's elements, or a string's characters as one-character strings, under their decimal indices |
| Prompt.RepeatedKeyRendersLast | src/prompt.ts:13-23 | `{"note": {"toString": "x"}, "note": "ok"}` is one property: the block is `note: ok` and nothing throws |
| Json.MembersSpec | src/index.ts:45 | the members `JSON.parse` keeps: distinct keys, exactly the keys written, each holding the value `Field` finds (the last), in the order keys first appear |
| Json.PutSpec | src/index.ts:45 | setting a key keeps the keys distinct: a key already present keeps its place and takes the new value, a new key goes last, every other member is unchanged |
| Json.RepeatedKey | src/index.ts:45 | `[a: null, b: null, a: true]` parses to `a: true` then `b: null` |
| Prompt.FormatProperties | src/prompt.ts:7-24 | the loop throws exactly when some property's line throws (`PropertiesThrow`); otherwise its text equals `PropertiesBlock`: the header and then one line per property, or the `(none)` block |
| Prompt.PushedLine | src/prompt.ts:14-20 | pushing a property's line throws exactly when `LineThrows`; otherwise the line is `PropertyLine` of its key and classified value: the entity-reference test comes first, then the array test, then the string form |
| Prompt.PromptFor | src/prompt.ts:30-66 | `buildPrompt` throws exactly when either entity's property block throws (`PromptThrows`); otherwise the template filled with the two blocks `FormatProperties` wrote equals `BuildPrompt` |
| Prompt.ToStringPropertyThrows | src/prompt.ts:19 | the properties `{"note": {"toString": "x"}}` make the block throw |
| Json.ToStringMemberThrows | src/prompt.ts:19 | an object with its own `toString` member has no string form, also as an array element; an own `valueOf` member does not matter |
| Prompt.JoinHeaded | src/prompt.ts:23 | joining the header and the pushed lines with line feeds gives the header followed by each line after a line feed |
| Prompt.JoinHeadedTail | src/prompt.ts:23 | each pushed line ends up after a line feed of its own |
| Prompt.JoinCons | src/prompt.ts:23 | joining a list with one more element in front puts that element and a separator first |
| Prompt.NoPropertiesBlock | src/prompt.ts:8-10 | absent, falsy or empty properties render exactly `"Properties:\n  (none)"` |
| Prompt.OneLinePerProperty | src/prompt.ts:12-23 | without line feeds in keys or values, the block's lines are the header and then exactly one line per property, in order |
| Prompt.EntityRefLine | src/prompt.ts:14-15 | an `{type: "entity_ref", code}` value under a key renders `  key: @code`, such as `  state: @pennsylvania` |
| Prompt.EmptyListLine | src/prompt.ts:16-17 | an empty array renders as nothing after the colon |
| Prompt.PromptFrame | src/prompt.ts:30-66 | every prompt starts with the task line and ends with the fixed guidelines and the one-word closing question |
| Prompt.EntitiesInOrder | src/prompt.ts:33-41 | entity 1's section, with label and type verbatim, comes right after the opening; entity 2's follows after a blank line |
| Prompt.EntitiesParts | src/prompt.ts:33-43 | the request-dependent middle of the prompt is entity 1's section, a blank line, entity 2's section and the score |
| Prompt.LabelsAreNotEscaped | src/prompt.ts:34-40 | labels are inserted unescaped, so two different entities can give the very same prompt |
| DeepInfra.AttemptResult | src/deepinfra.ts:29-59 | an attempt succeeds exactly when a reply arrives before the timeout with an ok status and a JSON body; that body is the result |
| DeepInfra.CallWithRetry | src/deepinfra.ts:20-73 | the result and attempt count are those of `Call`; every attempt sends the same request; the delays are the back-off schedule for every attempt but the last |
| DeepInfra.CallShape | src/deepinfra.ts:26-72 | between one and `retries` attempts when any is allowed; every attempt but the last failed; the result is the last attempt's; a failed call used every attempt; with no attempt allowed, the generic error |
| DeepInfra.RetryFromShape | src/deepinfra.ts:28-69 | the same, from any attempt on |
| DeepInfra.FirstSuccessReturned | src/deepinfra.ts:58-59 | the first successful attempt ends the call with its response |
| DeepInfra.AllFailedRaisesLast | src/deepinfra.ts:60-72 | when every attempt fails, the call raises the last attempt's error |
| DeepInfra.FailuresAlike | src/deepinfra.ts:53-61 | a non-ok status, a timeout and a fetch error count alike: only which attempts succeed decides how many are made |
| DeepInfra.TotalBackoff | src/deepinfra.ts:63-67 | the delays after n failed attempts add up to `(2^n - 1) * 1000` ms |
| DeepInfra.DefaultSchedule | src/deepinfra.ts:63-67 | with the default 3 attempts the delays are 1000 ms then 2000 ms (3000 ms in all) and no delay exceeds 2000 ms |
| DeepInfra.ReviewMerge | src/deepinfra.ts:78-97 | a prompt that throws fails with `Unconvertible` before anything is sent; otherwise the prompt for the pair is what every attempt sends, and the result is `Review` of the call's result |
| DeepInfra.CallNeverUnconvertible | src/deepinfra.ts:26-72 | a failure of the call, or of reviewing its reply, is never the prompt's `Unconvertible` |
| DeepInfra.Review | src/deepinfra.ts:89-96 | the decision is the parse of the first completion; the three token counts are copied unchanged; a failed call's error passes through |
| Gateway.ModelOf | src/index.ts:59 | an unset or empty configured model falls back to the default model |
| Gateway.ValidateRequest | src/index.ts:7-38 | accepts exactly the object bodies whose `entity1` and `entity2` are objects with string `label` and `type` and whose `similarity` is a number other than NaN; `properties` is not inspected |
| Gateway.EntityAt | src/index.ts:61-66 | the entity passed on carries the request's label, type and properties |
| Gateway.ReviewResponse | src/index.ts:43-87 | the status is 200, 400 or 500; 400, with the invalid-format message, exactly for a parsed body that fails validation; 200, carrying the review result, exactly for a valid body whose prompt can be written and whose review succeeds; otherwise 500 carrying the parse failure, `Unconvertible` for a prompt that throws, or the call's failure |
| Gateway.ReviewRequests | src/index.ts:47-67 | nothing is sent to the model unless the body is valid and its prompt can be written |
| Gateway.Merged | src/index.ts:61-67 | `reviewMerge` of a valid body fails with `Unconvertible` exactly when its prompt throws, and is otherwise `Review` of the call |
| Gateway.UnconvertibleProperty | src/index.ts:61-86 | a valid request whose entity has `properties: {"note": {"toString": "x"}}` gets 500 and sends nothing, whatever the network does |
| Gateway.HandleReview | src/index.ts:43-87 | the handler's response and the requests it sends are those of `ReviewResponse` and `ReviewRequests`; its delays are the back-off schedule for every attempt but the last |
| Gateway.RouteOf | src/index.ts:120-158 | OPTIONS is a preflight for any path; GET /health is the health check; POST /review is a review; anything else is not found |
| Gateway.Fetch | src/index.ts:110-159 | 204 for a preflight, 200 for health, the review handler's answer for a review, 404 otherwise; only a valid POST /review reaches the model; the delays are the back-off schedule for every attempt but the last |
| Parser.DecisionOf | src/parser.ts:12-45 | definition of the decision: the line scan's verdict, else the window fallback; its properties are proved in `LineScanDecides`, `WindowSameIff`, `ConservativeDefault` and the lemmas after them |
| Parser.LineVerdict | src/parser.ts:18-25 | definition of one line's verdict; its properties are proved in `NoVerdict`, `SameLine` and `FirstVerdictUpper` |
| Parser.EarlierWord | src/parser.ts:31-41 | definition of the fallback on an upper-cased text; its properties are proved in `EarlierWordSameIff` and `EarlierWordDifferent` |
| Parser.WindowDecision | src/parser.ts:30-41 | definition of the fallback on the first 100 characters; its properties are proved in `WindowSameIff`, `WindowBound` and `MentionWindow` |
| Prompt.BuildPrompt | src/prompt.ts:30-66 | definition of the template; its properties are proved in `PromptFrame`, `EntitiesInOrder` and `LabelsAreNotEscaped` |
| Prompt.SystemPrompt | src/prompt.ts:68 | the fixed system message, sent first in every request (`DeepInfra.RequestFor`) |
| Prompt.PropertiesBlock | src/prompt.ts:7-24 | definition of the rendered block; its properties are proved in `NoPropertiesBlock` and `OneLinePerProperty`, and `FormatProperties` is proved equal to it |
| Prompt.PropertyLine | src/prompt.ts:14-20 | definition of one property line; its properties are proved in `EntityRefLine` and `EmptyListLine` |
| Prompt.EntitySection | src/prompt.ts:33-36 | definition of one entity's section; its position is proved in `EntitiesInOrder` |
| Prompt.Section | src/prompt.ts:33-41 | definition of one entity's section around an already written block; `PromptFor` fills it with the blocks `FormatProperties` wrote |
| Prompt.Entities | src/prompt.ts:33-43 | definition of the request-dependent middle of the template; its parts are proved in `EntitiesParts` and `EntitiesInOrder` |
| Prompt.Rendered | src/prompt.ts:12-23 | definition of the pushed lines after the header, each after a line feed; its properties are proved in `JoinHeaded` and `OneLinePerProperty` |
| Prompt.IsEntityRef | src/prompt.ts:14 | definition of the entity-reference test; `Classify` and `LineThrows` branch on it |
| Json.JoinShown | src/prompt.ts:17 | definition of `value.join(sep)`; `JoinShownIsJoin` proves it is `Join` of the element texts |
| Json.ElementText | src/prompt.ts:17 | definition of how `join` writes one element: null as empty, anything else by `Show`; used by `JoinShownIsJoin` |
| Json.IsString | src/index.ts:17-18 | definition of `typeof v === "string"`; `ValidateRequest` characterises its use |
| Json.Members | src/index.ts:45 | definition of the member table `JSON.parse` builds; its properties are proved in `MembersSpec` and `RepeatedKey` |
| Json.Put | src/index.ts:45 | definition of setting one parsed member; its properties are proved in `PutSpec` |
| Json.Position | src/prompt.ts:13 | definition of where a key first appears; its ensures say it is the first such index |
| Gateway.Member | src/index.ts:17-18 | definition of `e.key` on a value known to be present; `ValidateRequest` characterises its use |
| Text.StartsWith | src/parser.ts:19-22 | definition of `startsWith`; used by `LineVerdict`, whose properties are proved in `NoVerdict`, `SameLine` and `FirstVerdictUpper` |
| Parser.Lines | src/parser.ts:13 | definition of `response.trim().split("\n")`; its properties are proved in `LineScanDecides`, `TwoLines` and `MentionLines` |
| Parser.WindowText | src/parser.ts:30 | definition of `response.slice(0, 100).toUpperCase()`; its properties are proved in `WindowSameIff`, `WindowBound` and `MentionWindow` |
| DeepInfra.IsOk | src/deepinfra.ts:53 | definition of `response.ok`, a status from 200 to 299; `AttemptResult` characterises its use |
| DeepInfra.Attempts | src/deepinfra.ts:28 | definition of how many attempts `retries` allows; `CallShape` bounds the call by it |
| DeepInfra.BackoffMs | src/deepinfra.ts:66 | definition of `Math.pow(2, attempt) * 1000`; its sums are proved in `TotalBackoff` and `DefaultSchedule` |
| DeepInfra.Schedule | src/deepinfra.ts:63-67 | definition of the delays slept, one per attempt; `TotalBackoff` and `DefaultSchedule` prove their values |
| DeepInfra.Pauses | src/deepinfra.ts:63-64 | definition of how many attempts are followed by a delay: all but the last; `CallWithRetry` ensures its delays are `Schedule(Pauses(|sent|))` |
| DeepInfra.RequestFor | src/deepinfra.ts:33-47 | definition of the request: POST to the API URL with the bearer key, the system message then the user prompt, temperature 0.1 and at most 10 tokens |
| DeepInfra.RetryFrom | src/deepinfra.ts:28-69 | definition of the retry loop from a given attempt on; its properties are proved in `RetryFromShape` and `FailuresAlike` |
| DeepInfra.Call | src/deepinfra.ts:26-72 | definition of the whole call; its properties are proved in `CallShape`, `FirstSuccessReturned` and `AllFailedRaisesLast`, and `CallWithRetry` is proved equal to it |
| Json.Truthy | src/index.ts:8 | definition of JavaScript truthiness: `undefined`, `null`, `false`, NaN, zero and `""` are falsy |
| Json.IsObjectType | src/index.ts:8 | definition of `typeof v === "object"`, true of null, arrays and objects |
| Json.Show | src/prompt.ts:19 | definition of `String(v)` where it does not throw: arrays joined by ",", other objects as `[object Object]`; `Throws` says where it throws |
| Json.Throws | src/prompt.ts:15-19 | definition of when `String(v)` throws a TypeError: an object with its own `toString` member, or an array holding such a value at any depth |
| Prompt.LineThrows | src/prompt.ts:14-20 | definition of when a property's line throws: the `code` of an entity reference, or any other value, has no string form |
| Prompt.PropertiesThrow | src/prompt.ts:13-21 | definition of when `formatProperties` throws: the line of some entry does |
| Prompt.PromptThrows | src/prompt.ts:36-41 | definition of when `buildPrompt` throws: either entity's property block does |
| Gateway.Unconvertible | src/index.ts:61-67 | definition of a valid request whose prompt throws |
| Json.Display | src/prompt.ts:15 | definition of `String(v)` where `v` may be `undefined` |
| Gateway.BadEntity | src/index.ts:15-21 | definition of the rejection test applied to each entity; `ValidateRequest` characterises it |
| Gateway.EntityShaped | src/index.ts:15-30 | definition of an accepted entity, used by `ValidateRequest`'s characterisation |
| Text.Trim | src/parser.ts:13 | definition of `trim`; its properties are proved in `TrimIsSlice` |
| Text.ToUpper | src/parser.ts:19 | definition of ASCII `toUpperCase`; its properties are proved in `UpperIdempotent`, `UpperSlice` and `TrimUpper` |
| Text.Join | src/prompt.ts:23 | definition of `Array.join`; its properties are proved in `JoinSplit` and `SplitJoin` |

## Left out

- Unicode behaviour. Upper-casing is ASCII only. Case mappings that change a string's length (such as `ß` to `SS`) are not modelled. Strings are sequences of characters, not UTF-16 code units, so `slice(0, 100)` counts characters.
- Floating point. A JSON number is opaque. The model keeps only whether it is NaN or zero, its `String` form and its `toFixed(3)` form. The temperature `0.1` appears as its JSON text.
- Object member order. `Object.entries` puts integer-like keys first, in ascending order; the model keeps the order in which keys first appear. A key given twice is one member, at its first place, holding the last value (`Json.Members`).
- Networking and timers. `fetch`, `AbortController`, `setTimeout` and `sleep` are not modelled as such. Each attempt's outcome is an input, and the delays are recorded rather than waited. A reply whose latency reaches the 30 s timeout counts as aborted.
- Exception messages. An error keeps its kind and data, not the text of `error.message`. Logging to the console is not modelled.
- HTTP plumbing. Not modelled: URL parsing (a request carries its path), the CORS headers and their copying onto responses, `Content-Type` headers, JSON serialisation of responses, and the health response's timestamp.
- Malformed completion replies. The model covers a reply with no choices (a thrown `TypeError`, hence status 500). A choice without text, or missing usage counts, is not modelled: the reply body type always has them.
- The retry count is a JavaScript number in the source; the model restricts it to integers. The only caller passes the default of 3.
- Determinism of the prompt template needs no lemma, because every Dafny function is deterministic.
- `src/types.ts` has no behaviour. Its interfaces become the datatypes of `Types`.
- `test-philadelphia.ts` is a demonstration script and is not part of this model. Only its `state` reference example appears, in `Prompt.EntityRefLine`.
