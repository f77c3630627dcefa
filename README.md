# Chat-message and model-catalog helpers, modelled in Dafny

This project models the pure and loop-based helpers of a browser chat
application that runs DeepSeek models locally through WebLLM:

- **Message conversion** (`convertToUIMessages`, `addToolMessageToChat`).
  Stored chat rows become UI messages. Text parts are concatenated, tool
  calls become `call` invocations, and each later `tool` row settles the
  earlier invocations it answers into `result` invocations.
- **Sanitisers.** `sanitizeResponseMessages` drops unanswered tool calls,
  empty text parts and then empty messages from a model response.
  `sanitizeUIMessages` drops, within each assistant message, the tool
  invocations that never got a result, then drops empty messages.
- **Selectors.** These are the most recent user message, a document's
  timestamp by index, and a UI message's server-side id.
- **`generateUUID`.** It fills the version-4 template of section 4.4 of
  RFC 4122 from a sequence of random nibbles.
- **Model ids.** `getSize` and `getQuantization` parse the parameter count
  and quantization out of a WebLLM model id; both regular expressions are
  modelled as leftmost scans.
- **Catalog.** The four DeepSeek base records, the default model name,
  `DEFAULT_MODELS` (the supported records, enriched by the two parsers),
  and `groupModelsByFamily`, which groups models by display name and
  provider for the model selector.

Modules, one file each:

- `Wrappers`: `Option`.
- `Sequences`: a generic `Filter` and subsequence facts.
- `ChatTypes`: messages, parts, invocations and annotations.
- `Conversion`, `Sanitize`, `Selectors`, `Uuid`, `ModelIds`, `Models` and
  `Grouping` each model the helpers named above.

Message arguments, tool results and timestamps are opaque type parameters.

Where the source works by updating variables in a loop, the model is a
method with that loop, proved equal to a specification function. This
covers the `textContent +=` / `push` loop of `convertToUIMessages`, the
`toolResultIds` loops of both sanitisers, and the `Map` that
`groupModelsByFamily` fills. The properties the source promises are then
proved about the specification functions.

`getDocumentTimestampByIndex` only guards `index > documents.length`. So an
index equal to the length, or a negative index, reads `undefined` and
throwing on `.createdAt` is its behaviour as written. The model returns an
explicit `TypeError` outcome there rather than a value.

## Model

| member | source | states |
|---|---|---|
| Conversion.FindPart | lib/utils.ts:66-68 | `content.find` by toolCallId: absent exactly when no part carries the id; otherwise the first part that does |
| Conversion.ResolveInvocation | lib/utils.ts:66-78 | an invocation after a tool message keeps its id, name and args; if some part names its id it becomes `result` with the first such part's result, otherwise it is unchanged |
| Conversion.ResolveMessage | lib/utils.ts:62-82 | a UI message after a tool message keeps id, role, content and annotations; its invocation list keeps its presence and length, and each invocation is settled by the tool message |
| Conversion.AddToolMessage | lib/utils.ts:54-85 | same number of messages; id, role, content and annotations unchanged; invocation lists keep their presence and length; each invocation is settled by the tool message (becomes `result` with the first matching part's result when a part matches, else unchanged) |
| Conversion.ConvertContent | lib/utils.ts:98-116 | the loop builds as text the concatenation of the text parts in order and as invocations one `call` per tool-call part in order; string content is copied and other content gives `""` and no invocations |
| Conversion.TextOfAppend | lib/utils.ts:104-106 | the text of concatenated part lists is the concatenation of their texts |
| Conversion.CallsOfIsFilterMap | lib/utils.ts:104-114 | the invocations are exactly the tool-call parts, filtered in order and mapped to `call` invocations |
| Conversion.CallsAreCalls | lib/utils.ts:108-113 | every invocation built from content is in state `call` with no result |
| Conversion.ConvertToUIMessages | lib/utils.ts:87-127 | the reduce loop computes the fold in which tool rows apply `addToolMessageToChat` and other rows append their converted message; a tool row whose content is not an array changes nothing, and is allowed only where `.find` on it is never reached |
| Conversion.AddToolMessageNoCalls | lib/utils.ts:61-84 | when no UI message holds an invocation, a tool message leaves the messages unchanged whatever its content, since `find` is never called |
| Conversion.FindIsReached | lib/utils.ts:66 | the UI messages built from the rows before a tool row hold some invocation exactly when an earlier non-tool row has a tool-call part: the condition under which `toolMessage.content.find` runs |
| Conversion.ConvertIsDirect | lib/utils.ts:87-127 | on every input the fold equals the direct description: one message per non-tool row, each invocation settled by the tool rows after it |
| Conversion.DirectSnoc | lib/utils.ts:90-96 | appending a tool row resolves the earlier messages; appending any other row appends its converted message |
| Conversion.SettleAppend | lib/utils.ts:91-96 | settling by two runs of later rows is settling by the first run and then by the second |
| Conversion.DirectShape | lib/utils.ts:118-123 | the direct description has one message per non-tool row, with its id, role and text, no annotations, and one invocation per tool-call part of the row |
| Conversion.ConvertOnePerRow | lib/utils.ts:87-127 | `convertToUIMessages` yields exactly one UI message per non-tool row, in order, with that row's id, role and text, and an invocation list as long as the row's tool-call parts |
| Conversion.DirectAt | lib/utils.ts:87-127 | the message of the j-th row sits at the index that counts the non-tool rows before it, and is that row settled by the rows after it |
| Conversion.SettleFacts | lib/utils.ts:70-78 | settling keeps toolCallId, toolName and args; with no later answer the invocation is unchanged; a `call` becomes `result` exactly when some later tool row answers it |
| Conversion.SettleStaysResult | lib/utils.ts:70-76 | a `result` invocation stays `result` under later tool rows |
| Conversion.SettleResult | lib/utils.ts:66-76 | the result an invocation ends with is the one from the first matching part of the last tool row that answers it |
| Conversion.ConvertedInvocation | lib/utils.ts:87-127 | the i-th invocation of a converted row has the call's id, name and args; it is `result` exactly when a later tool row answers it, and otherwise it is the original call |
| Sanitize.PartResultIdsMeaning | lib/utils.ts:136-140 | an id is collected from a part list exactly when some tool-result part carries it |
| Sanitize.ToolResultIdsMeaning | lib/utils.ts:132-142 | an id is collected exactly when some tool message carries a tool-result part with it |
| Sanitize.CollectToolResultIds | lib/utils.ts:132-142 | the nested loops collect the ids of the tool-result parts of the `tool` messages, in order |
| Sanitize.SanitizeResponseMessages | lib/utils.ts:129-166 | with the collected ids, the map and the filter compute the sanitised response |
| Sanitize.SanitizeContent | lib/utils.ts:144-161 | the map callback keeps the role; it leaves non-assistant and non-array messages unchanged, and turns an assistant part list into an order-preserving subsequence of it |
| Sanitize.ResponsePartsKept | lib/utils.ts:144-155 | an assistant part list keeps, in order, exactly the parts that survive: tool calls with a tool result somewhere in the input, non-empty text parts, and all other parts. Every occurrence of a surviving part is kept, with its multiplicity, and none of the others |
| Sanitize.ResponsePassThrough | lib/utils.ts:145-147 | non-assistant messages and string-content assistant messages pass the map stage unchanged |
| Sanitize.ResponseMessagesKept | lib/utils.ts:163-165 | the output is the order-preserving subsequence of the mapped messages whose content is non-empty; each such message keeps its multiplicity, and no output message is empty |
| Sanitize.SanitizeContentTwice | lib/utils.ts:144-161 | filtering a message's parts twice against the same id set is filtering once |
| Sanitize.ResponseKeepsAnswers | lib/utils.ts:132-142 | sanitising keeps exactly the same set of tool-result ids |
| Sanitize.ResponseIdempotent | lib/utils.ts:129-166 | applying `sanitizeResponseMessages` twice equals applying it once |
| Sanitize.ResultIdsMeaning | lib/utils.ts:174-180 | an id is collected exactly when some invocation in state `result` carries it |
| Sanitize.CollectResultIds | lib/utils.ts:174-180 | the loop collects the ids of the `result` invocations in order |
| Sanitize.SanitizeUIMessages | lib/utils.ts:168-199 | the per-message loop and filters compute the sanitised UI messages |
| Sanitize.SanitizeUIMessage | lib/utils.ts:169-192 | the map callback changes only the invocation list. It leaves non-assistant messages and messages without invocations unchanged, and turns an assistant invocation list into an order-preserving subsequence of it |
| Sanitize.UIInvocationsKept | lib/utils.ts:169-192 | non-assistant messages and those without invocations are unchanged; otherwise only the invocation list changes, to the subsequence of invocations that are `result` or share their id with a `result` invocation of the same message. Each such invocation keeps its multiplicity, and no other survives |
| Sanitize.UIMessagesKept | lib/utils.ts:194-198 | the output is the order-preserving subsequence of messages with non-empty content or a non-empty invocation list, each kept with its multiplicity |
| Sanitize.UIMessageIdempotent | lib/utils.ts:169-192 | sanitising one message's invocations twice is sanitising once |
| Sanitize.UIIdempotent | lib/utils.ts:168-199 | applying `sanitizeUIMessages` twice equals applying it once |
| Selectors.LastUserMessage | lib/utils.ts:202-203 | the user-message filter is empty exactly when no message is a user message; otherwise its last element is a user message of the input with no user message after it |
| Selectors.MostRecentUserMessage | lib/utils.ts:201-204 | absent exactly when no message has role `user`; otherwise a `user` message of the input with no later `user` message |
| Selectors.DocumentTimestampByIndex | lib/utils.ts:206-214 | with no documents or an index past the length, the current time; a `TypeError` exactly at a negative index or one equal to the length; otherwise the indexed document's `createdAt` |
| Selectors.MessageIdFromAnnotations | lib/utils.ts:216-224 | the message id when there are no annotations or the first is falsy; otherwise the first annotation's `messageIdFromServer`, which may be absent |
| Uuid.HexDigit | lib/utils.ts:50 | `v.toString(16)` of a nibble is a lower-case hexadecimal digit |
| Uuid.VariantDigit | lib/utils.ts:49 | `(r & 0x3) \| 0x8` lies in 8..11 |
| Uuid.Fill | lib/utils.ts:47-51 | filling keeps the length and every non-placeholder character; each `x` becomes a lower-case hex digit and each `y` one of `8`, `9`, `a`, `b` |
| Uuid.GenerateUuid | lib/utils.ts:46-52 | `generateUUID` gives 36 characters: `-` at 8, 13, 18 and 23, `4` at 14, one of `8`, `9`, `a`, `b` at 19, and a lower-case hex digit elsewhere |
| Uuid.TemplateFixed | lib/utils.ts:47 | the template has 36 characters, dashes at 8, 13, 18 and 23, the version digit `4` at 14 and the variant placeholder `y` at 19 |
| Uuid.TemplateKinds | lib/utils.ts:47 | the template holds 31 placeholders, all `x` except the 16th, which is `y` |
| Uuid.UuidInjective | lib/utils.ts:46-52 | equal UUIDs come from the same draws, except for the two high bits of the variant draw |
| ModelIds.DigitRun | lib/utils.ts:298 | the greedy digit run from a position: all digits, and the next character is not a digit |
| ModelIds.LeftmostSpec | lib/utils.ts:289 | the leftmost scan is absent exactly when no start position matches; otherwise it is the capture at the first position that does |
| ModelIds.SizeMatchUnique | lib/utils.ts:298 | at a given start the size pattern can end in only one place |
| ModelIds.SizeEndCorrect | lib/utils.ts:298 | the greedy scan finds a size match at a start exactly when one exists, and its end |
| ModelIds.SizeCaptureMeaning | lib/utils.ts:298-300 | the capture at a start is absent exactly when no size match starts there; otherwise it is the text between the dash and the match end |
| ModelIds.GetSizeSpec | lib/utils.ts:297-305 | `getSize` (`ModelIds.GetSize`) is absent exactly when the id has no match of `-(\d+(\.\d+)?[BK])`; otherwise it is the capture of the leftmost match |
| ModelIds.QuantMatchUnique | lib/utils.ts:289 | at a given start the quantization pattern can end in only one place |
| ModelIds.QuantEndCorrect | lib/utils.ts:289 | the scan finds a quantization match at a start exactly when one exists, and its end |
| ModelIds.QuantCaptureMeaning | lib/utils.ts:289-292 | the capture at a start is absent exactly when no quantization match starts there; otherwise it is the text between the two dashes |
| ModelIds.GetQuantizationSpec | lib/utils.ts:287-295 | `getQuantization` (`ModelIds.GetQuantization`) is absent exactly when the id has no match of `-(q[0-9]f[0-9]+(?:_[0-9])?)-`; otherwise it is the capture of the leftmost match |
| Models.DefaultModelsSpec | lib/ai/models.ts:151-167 | `DEFAULT_MODELS` (`Models.DefaultModels`) is no longer than the catalog; it keeps exactly the catalog records whose name is supported, in catalog order; each entry is its base record with `size` and `quantization` parsed from its name |
| Models.AllSupported | lib/ai/models.ts:151-167 | when every catalog name is supported, `DEFAULT_MODELS` is the whole catalog enriched, with sizes 7B, 7B, 8B, 8B and quantizations q4f16_1, q4f32_1, q4f32_1, q4f16_1 |
| Models.CatalogFacts | lib/ai/models.ts:75-149 | `DEFAULT_MODEL_NAME` (`Models.DefaultModelName`) is the first name of `DEFAULT_MODEL_BASES` (`Models.DefaultModelBases`); catalog names are pairwise distinct; all share display name and provider `DeepSeek` |
| Models.CatalogParses | lib/ai/models.ts:99-149 | `getSize` and `getQuantization` on each catalog name give its size and quantization |
| Models.ParseAt | lib/utils.ts:287-305 | a name laid out as `-dB-qdfdd_d-` from a dash, with no earlier match, parses to that size and quantization |
| Grouping.GroupModelsByFamily | lib/utils.ts:262-283 | the `Map` loop and `Array.from(grouped.values())` compute the reference grouping |
| Grouping.Values | lib/utils.ts:282 | `Array.from(grouped.values())` lists the map's values in key-insertion order |
| Grouping.GroupKeySeparates | lib/utils.ts:267 | when no display name contains a dash, two models share the key `${display_name}-${provider}` exactly when they share display name and printed provider |
| Grouping.AddModel | lib/utils.ts:265-280 | one loop step keeps the map and its key order in step with the reference grouping of the models seen so far |
| Grouping.LeadersSpec | lib/utils.ts:265-275 | each group leader is the first model with its key; leaders appear in order of first occurrence; every model's key has a leader |
| Grouping.GroupAt | lib/utils.ts:262-283 | each group starts with its leader and holds, in input order, exactly the models with its key, each with its multiplicity in the input |
| Grouping.GroupedHeads | lib/utils.ts:262-283 | each group takes display name, provider and family from its first item, which is the first model with that key; its items are the input models with its key, in order and with their multiplicities; groups are ordered by first occurrence |
| Grouping.GroupedCover | lib/utils.ts:262-283 | every model lands in some group, and no model is in two groups |
| Grouping.SameKeyOneGroup | lib/utils.ts:262-283 | models that all share one key form a single group holding all of them in order |
| Grouping.CatalogOneGroup | components/model-selector-v2.tsx:37 | grouping `DEFAULT_MODEL_BASES`, as the model selector does, gives one `DeepSeek` group of family DeepSeek holding all four records in catalog order |
| Grouping.DefaultModelsOneGroup | lib/ai/models.ts:99-167 | grouping a non-empty `DEFAULT_MODELS` gives one `DeepSeek` group holding all of it in order |

## Left out

- `cn`, `fetcher`, `callNextApi` and `getLocalStorage` (lib/utils.ts) are class-name merging, network and browser-storage I/O; they are not part of this model.
- The service worker, WebLLM engine wrapper, tools, client action and React components are I/O, asynchronous or UI code and are not part of this model.
- Uuid.GenerateUuid: `Math.random()` becomes a parameter of 31 four-bit draws, one per placeholder in order; the float arithmetic `(Math.random() * 16) | 0` is not modelled.
- Selectors.DocumentTimestampByIndex: `new Date()` becomes a parameter `now`; a non-integer index is not modelled.
- Models.DefaultModels: the supported model ids (`prebuiltAppConfig.model_list`) come from the WebLLM library and are a parameter.
- Models.DefaultModels: the `console.warn` logged for each catalog name the WebLLM build does not support is console I/O and is not modelled; only the filtering it accompanies is.
- Models: `ModelFamily` is modelled as an enumeration without the string each member stands for, since no modelled code reads that string.
- Models: the other constants of lib/ai/models.ts (system prompts and the like) carry no logic and are not modelled; `recommended_config` numbers are `real`.
- Conversion.ConvertToUIMessages: the source casts a `tool` row to a tool message. When the row's content is not an array, `.find` on it throws a `TypeError`, but only if an earlier UI message holds an invocation, that is, if an earlier non-tool row had a tool-call part (`FindIsReached`). The method requires that this never happens (`ToolRowsFindable`); the throw itself is not modelled as an outcome. Where the method does allow such a row, the row changes nothing, as in the source. The fold that specifies the method is total and reads such a row as having no parts.
- Conversion.ConvertToUIMessages: the reduce pushes into one shared array. The model builds new sequences, so aliasing of that array is not captured.
- Sanitize.SanitizeResponseMessages: requires that no message content is outside the typed forms (string or part list). For untyped JSON, `.filter` or `.length` would throw or behave arbitrarily.
- ChatTypes: annotations are modelled only as falsy, or truthy with an optional `messageIdFromServer`; other JSON shapes are not.
- Grouping: a missing provider is rendered as `undefined` in the group key, as a template string does, so a model whose provider is the text `undefined` shares that key; this is modelled as written.
- Grouping.GroupKeySeparates: the key joins display name and provider with `-`, so when a display name contains a dash, two different pairs can share a key and one group. The model keeps this behaviour, and the lemma states separation only for dash-free display names.
- Untyped (`any`) inputs of `groupModelsByFamily` are modelled as typed model records.
