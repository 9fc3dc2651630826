# xLLM: streaming output, vision token accounting and rerank aggregation

A model of the parts of xLLM whose correctness is spread over many functions
and many calls, and proofs of what those parts promise.  Run
`dafny verify dfyconfig.toml` to check everything.

## What is modelled

**Tool calls in a stream of text.**  Model output arrives in arbitrary chunks.
Hand-written incremental parsers turn it into text and tool-call fragments.

- `TextSearch` holds `std::string::find` and the one fact the parsers rest on: a
  tag contains `<` only as its first character, so a terminator found in a prefix
  stays the earliest one under every extension.
- `QwenScanner` specifies the Qwen3-coder scanner; `QwenDetector` is the stateful
  detector, proved to compute it; `QwenChunks` proves that chunk borders never
  matter and what may be held back; `QwenPrinter`, `QwenDocument` and `QwenCalls`
  prove that parsing inverts printing, for blocks and for functions outside a
  block; `QwenOneShot` is the one-shot parser for the same grammar,
  `QwenReading` and `QwenCuts` say what it finds in printed text, `QwenAgreement`
  proves exactly when the two parsers agree, `QwenUnclosed` does so for outputs that
  end inside a block, `QwenValues` follows single values through both, and
  `QwenDifferences` shows texts on which the two do not agree.
- `GlmMachine` is the GLM-4.7 character machine (five states, tag buffer, UTF-8
  carry); `GlmRoundTrip` and `GlmRawValues` say what it makes of rendered
  arguments and exactly which values it recognises as closed; `GlmOneShot` and
  `GlmInverse` treat the one-shot extraction, `GlmPadding` states the round trips
  for names, keys and texts between blanks, and `GlmAnyBytes` follows values that are
  no UTF-8.  `Utf8` and `JsonText` define UTF-8
  validity (sections 3 and 4 of RFC 3629), JSON string escaping, and an
  independent reader of JSON strings.
- `ArgDiff` and `ArgDiffRuns` treat the argument-difference streaming of the
  DeepSeek-V3.2 detector with its end-of-stream flush; `SteadyDumps` proves for
  exactly which dumps it is right, and `AnnouncedFirst` that tools are announced
  before their arguments.
- `SequenceTable` is the table of lazily created per-sequence parsers.

**The client protocol.**  `AnthropicEvents` and `AnthropicEmitter` are the event
state machine of the Anthropic endpoint, every write of which may fail;
`AnthropicGrammar` proves the event grammar of whole runs; `PlainStreams` says
literally what ordinary answers look like; `EndToEnd` composes it
with the Qwen3-coder detector; `Interruptions` and `IncrementGuard` prove for
exactly which increments the client's tool blocks are the calls.

**Vision tokens.**  `VisionPrompt` expands the pads of a Qwen3-VL prompt,
`VisionSpans` and `VisionRecovery` find them again, and `VisionAgreement` proves
when the two agree; `VisionFailures` says when they give up, `VisionStamps` what the
frames of a video look like; `VisionLayout` and
`VisionPatches` treat the view, permute and reshape of the image processor;
`VisionResize` the size arithmetic.  `MiniCpmSlices` and `MiniCpmPlaceholders`
treat the slicing of MiniCPM-V images and the placeholders it needs; `MiniCpmSizes`
says what the sizes mean, `MiniCpmReader` reads the placeholders back.

**Rerank.**  `RerankContext` is the shared countdown of a rerank request under
every interleaving of its atomic steps, `RerankFinalize` its last step.

Each stateful class of the source is a class here, its methods are proved equal
to a specification function, and the theorems are about those functions over all
inputs, all chunkings, all runs or all interleavings.

## Conventions

- A `char` stands for one byte of a `std::string`.  Integers are unbounded.
- Deterministic library calls are parameters: the value conversion and the JSON
  serializer of the Qwen3-coder detector (`Tools`), schema types and number
  formatting of GLM (`Schema`), timestamp formatting (`Config.stamp`), and the
  score computer of a rerank request (`Job.compute`).
- A write to a client is an append to a trace that may fail at any time; after a
  failed write all further writes fail.
- A failed `CHECK` or an index past the end of a grid is a `None` result.
- Square roots are positive reals with a given square; the aspect-ratio error of a
  slicing grid is compared through its exponential, a quotient of the two ratios.
- A vision prompt is a sequence of tokens in which pads and markers are single
  tokens and timestamps are ordinary text.

## Where the code differs from what one might expect

The model follows the code in each of these places, and the lemma named says
exactly what happens.

- The one-shot parser ends a block at the first `</tool_call>`, wherever it stands.
  A value that contains one loses its parameter and everything behind it, which
  streaming reports (`QwenDifferences.ValueEndsBlock`).
- Streaming sends a last parameter without `</parameter>`; one-shot parsing drops
  it, because the text is cut in front of `</function>`
  (`QwenDifferences.OneShotDropsOpenParameter`).
- Functions outside a block, or in a block that is never closed, are found by the
  one-shot parser only if there is no complete block
  (`QwenDifferences.BareBesideBlock`, `QwenUnclosed.UnclosedAgreement`).
  `QwenAgreement.StreamingAgreesWithOneShot` gives the exact condition for all three.
- A GLM value that leaves a part of `</arg_value>` pending swallows its closing tag
  (`GlmRoundTrip.ValueCloses`, `GlmRoundTrip.PendingExamples`).
- The type of a GLM argument is decided before its value is read, so the guess from
  the value's first character never applies (`GlmMachine.UntypedIsString`).
- The closing brace of a GLM call is left out when the last, object-typed value ends
  in `}` (`GlmRawValues.BraceAfterRawValue`).
- An increment's text is sent before its calls, so text behind a call can split the
  call's block (`EndToEnd.TextBehindCallSplitsIt`).  `Interruptions.BlocksAreFunctions`
  says for every document exactly when this does not happen, and
  `IncrementGuard.BlocksAreFunctionsUnlessSplit` reduces it to single increments.
- A nameless call joins the block before it (`EndToEnd.BlocksPerCall`).
- Dumping arguments with sorted keys does not make successive dumps extend each
  other (`ArgDiffRuns.SortedKeysBreakIt`); `SteadyDumps.SteadyIffDelivered` says for
  exactly which dumps the client receives the arguments.
- An image that stands for no token shifts the item index of all later media
  (`VisionRecovery.EmptyImageShiftsItems`), and a video without frames costs its
  span; otherwise expansion and scan agree (`VisionAgreement.ExpansionAndRecoveryAgree`).
- With a small `max_pixels` a shrunk side can become zero (`VisionResize.ShrunkPositive`
  gives the exact condition).

## Model

| member | source | states |
|---|---|---|
| QwenChunks.ChunkInvariance | xllm/function_call/qwen3_coder_detector.cpp:432-610 | From the initial state, or from any state an increment leaves behind, feeding a text in any chunks gives the same text, the same calls in the same order, the same buffer and the same parser fields as feeding it at once. |
| QwenChunks.ChunkingsAgree | xllm/function_call/qwen3_coder_detector.cpp:432-610 | Two chunkings of one text cannot be told apart by a fresh parser. |
| QwenChunks.ScanAppend | xllm/function_call/qwen3_coder_detector.cpp:443-602 | Scanning `a + x` is scanning `a` and then what `a` left unread together with `x`, for every `a` and `x`; the reason increments compose. |
| QwenChunks.NextStable | xllm/function_call/qwen3_coder_detector.cpp:454-601 | Every decision the scanner takes at a `<` is the decision it takes on any extension of the input. |
| QwenChunks.ValueEndStable | xllm/function_call/qwen3_coder_detector.cpp:488-510 | The earliest of the three value terminators found in a prefix stays the earliest one under every extension, because no tag contains `<` behind its first character. |
| QwenChunks.ScanStops | xllm/function_call/qwen3_coder_detector.cpp:443-607 | An increment leaves a buffer on which the scanner has nothing left to do. |
| QwenChunks.HeldBack | xllm/function_call/qwen3_coder_detector.cpp:443-607 | After every increment the buffer is empty, a prefix of one of the six tags, an unfinished header, or a parameter none of whose three terminators has arrived. |
| QwenChunks.TagBeginningIsHeld | xllm/function_call/qwen3_coder_detector.cpp:567-585 | Every beginning of one of the six tags is held, and so is a whole `</parameter>` until something follows it. |
| QwenChunks.TagFreeText | xllm/function_call/qwen3_coder_detector.cpp:562-607 | On text free of the five handled tags emitted text followed by the buffer is the input, no call is made, and at most 12 characters wait. |
| QwenDetector.Detector.constructor | xllm/function_call/qwen3_coder_detector.cpp:67-79 | A new detector is in the initial state. |
| QwenDetector.Detector.ParseStreamingIncrement | xllm/function_call/qwen3_coder_detector.cpp:432-610 | The loop over buffer, cursor, tool id, parameter count and the two flags terminates (measure: unread length) and leaves exactly the text, calls, buffer and fields of the scanner specification. |
| QwenDetector.Detector.Turn | xllm/function_call/qwen3_coder_detector.cpp:454-601 | One turn of the loop: which branch is taken, what it appends, how far it moves and what it changes in the fields; held exactly where the loop breaks. |
| QwenDetector.Detector.OpenObject | xllm/function_call/qwen3_coder_detector.cpp:523-526 | `{` is emitted once per call. |
| QwenDetector.Detector.TakeFunctionHeader | xllm/function_call/qwen3_coder_detector.cpp:460-477 | A complete header announces the next tool and resets its counters; an incomplete one is held. |
| QwenDetector.Detector.TakeParameter | xllm/function_call/qwen3_coder_detector.cpp:479-543 | A terminated parameter adds its separator, key and converted value; an unterminated one is held. |
| QwenDetector.Detector.EmitParameter | xllm/function_call/qwen3_coder_detector.cpp:523-539 | The fragments of one parameter in order: `{` if it is missing, then the member with its separator. |
| QwenDetector.Detector.TakeFunctionEnd | xllm/function_call/qwen3_coder_detector.cpp:545-554 | The object is opened if it was not, and closed. |
| QwenDetector.Detector.TakeText | xllm/function_call/qwen3_coder_detector.cpp:562-601 | Text outside a call is emitted up to the next `<`; inside a call it is dropped; a possible tag is held. |
| QwenPrinter.ScanPieces | xllm/function_call/qwen3_coder_detector.cpp:443-602 | Lexer theorem: scanning the print of any well-formed list of tags, headers, parameters and texts reads off exactly that list, with any undecided text behind it. |
| QwenPrinter.ScanPiece | xllm/function_call/qwen3_coder_detector.cpp:454-601 | Each single printed piece is read back whatever follows it. |
| QwenDocument.StreamingInvertsPrinting | xllm/function_call/qwen3_coder_detector.cpp:432-610 | For every printed document (texts, blocks, bare functions, parameters closed or not) and every chunking: exactly its calls, its texts, and a buffer of at most 12 characters of the last text. |
| QwenCalls.CallsReassemble | xllm/function_call/qwen3_coder_detector.cpp:460-554 | Fragments with index `i` concatenate to the whole arguments object of the `i`-th function, `{}` without parameters; names are announced once, in order. |
| QwenCalls.CallsRoundTrip | xllm/function_call/qwen3_coder_detector.cpp:460-554 | Printer/parser inverse: lead text and rendered calls, their values with or without line breaks around them, under every chunking, come back as the same names in order and, per call, exactly `{k1: v1, k2: v2, ...}`; index `i` gets nothing when there is no call `i`. |
| QwenCalls.FramedValue | xllm/function_call/qwen3_coder_detector.cpp:516-521 | A value behind and in front of at most one line break loses exactly these breaks, and they add no terminator. |
| QwenCalls.StripsOneBreak | xllm/function_call/qwen3_coder_detector.cpp:516-521 | Stripping any text takes away at most one line break at each end, exactly where there is one, and nothing else. |
| QwenValues.OneValue | xllm/function_call/qwen3_coder_detector.cpp:313-318 | One value with or without a line break on either side: under every chunking the client gets `{key: value}` with exactly that value converted, and the one-shot parameter loop the map of exactly that value. |
| QwenValues.OneShotValues | xllm/function_call/qwen3_coder_detector.cpp:261-327 | For every rendered list of arguments, framed or not, the one-shot parameter loop yields each value without its frame, the last one of a key winning. |
| QwenValues.StrayTags | xllm/function_call/qwen3_coder_detector.cpp:479-554 | A parameter and a function end outside any function are streamed all the same, for tool -1 and without a schema. |
| QwenOneShot.ParseParameters | xllm/function_call/qwen3_coder_detector.cpp:261-327 | The map of all parameters up to the first one without terminator, last occurrence of a key wins. |
| QwenOneShot.ParseToolCallContent | xllm/function_call/qwen3_coder_detector.cpp:329-377 | Appends one numbered call per function found, in order. |
| QwenOneShot.CollectBlocks | xllm/function_call/qwen3_coder_detector.cpp:392-409 | The contents of all complete `<tool_call>` blocks, in order. |
| QwenOneShot.DetectAndParse | xllm/function_call/qwen3_coder_detector.cpp:379-430 | Normal text and numbered calls, with the fallback to bare functions when no block is complete. |
| QwenReading.ParamsRead | xllm/function_call/qwen3_coder_detector.cpp:261-327 | On printed parameters the parameter loop reads every one of them in front of a place it cannot get past, and all but an open last one in front of nothing. |
| QwenCuts.ParamsCut | xllm/function_call/qwen3_coder_detector.cpp:401-408 | A block ends at the first `</tool_call>`, wherever it stands: behind the parameters if none of them hides one in its header or value, otherwise inside the first one that does. |
| QwenCuts.FunctionsRead | xllm/function_call/qwen3_coder_detector.cpp:338-376 | In the content of a block, cut at its first `</tool_call>`, the function loop finds exactly the functions in front of the cut, the last one with the parameters in front of it. |
| QwenAgreement.BlocksRead | xllm/function_call/qwen3_coder_detector.cpp:395-409 | The block loop returns the content of every printed block up to its first `</tool_call>` and passes over bare functions. |
| QwenAgreement.BaresRead | xllm/function_call/qwen3_coder_detector.cpp:411-413 | Without any block the function loop reads the bare functions of the whole text. |
| QwenAgreement.OneShotReads | xllm/function_call/qwen3_coder_detector.cpp:379-430 | What the one-shot parser finds in a printed document: the functions of its blocks up to each block's first `</tool_call>`, or its bare functions when there is no block. |
| QwenAgreement.OneShotText | xllm/function_call/qwen3_coder_detector.cpp:420-427 | Its normal text is the text in front of the first call, unless a bare function stands beside a block. |
| QwenAgreement.CallsCarryArguments | xllm/function_call/qwen3_coder_detector.cpp:366-372 | Every reported call carries its index, its name and the serialized object of its arguments. |
| QwenAgreement.NamesAgree | xllm/function_call/qwen3_coder_detector.cpp:379-430 | The one-shot parser reports the printed functions with their indices if and only if no bare function stands beside a block and no block is cut in front of the parameters of its last function. |
| QwenAgreement.ArgumentsKept | xllm/function_call/qwen3_coder_detector.cpp:261-327 | Reading only the first parameters of a function gives the same arguments if and only if each key behind them already has the value it ends up with. |
| QwenAgreement.StreamingAgreesWithOneShot | xllm/function_call/qwen3_coder_detector.cpp:261-610 | On every comparable document, under every chunking, streaming reports every function with its whole object; the one-shot parser reports the same calls if and only if no bare function stands beside a block and no block is cut in front of its last function's parameters, and agrees in calls, text and all arguments if and only if moreover no parameter it does not read adds anything. |
| QwenDifferences.OneShotDropsOpenParameter | xllm/function_call/qwen3_coder_detector.cpp:306-308 | A call whose only parameter is not closed: streaming sends it, one-shot parsing loses it. |
| QwenDifferences.ValueEndsBlock | xllm/function_call/qwen3_coder_detector.cpp:401-408 | A value with `</tool_call>` in it: streaming sends the whole value, one-shot parsing ends the block inside it and loses the argument. |
| QwenDifferences.BareBesideBlock | xllm/function_call/qwen3_coder_detector.cpp:411-425 | A bare function in front of a block: streaming reports both calls and no text, one-shot parsing reports only the second and returns the first as text. |
| QwenUnclosed.UnclosedReads | xllm/function_call/qwen3_coder_detector.cpp:392-413 | What the one-shot parser finds in a text whose last `<tool_call>` is never closed: the closed blocks' functions if there are any, otherwise every function of the text. |
| QwenUnclosed.FallbackFindsAll | xllm/function_call/qwen3_coder_detector.cpp:340-430 | Without a closed block every function is reported, numbered from 0, with the arguments of its terminated parameters, a last one without `</function>` included; the normal text is the lead. |
| QwenUnclosed.StreamingUnclosed | xllm/function_call/qwen3_coder_detector.cpp:432-610 | Under every chunking such a text streams the calls of all its functions; the open one has its members so far and no closing brace. |
| QwenUnclosed.UnclosedReassemble | xllm/function_call/qwen3_coder_detector.cpp:460-554 | The client reassembles every closed function's whole object and, of the open one, what has been terminated. |
| QwenUnclosed.UnclosedAgreement | xllm/function_call/qwen3_coder_detector.cpp:379-610 | On such texts both parsers announce the same calls if and only if no block is closed, or nothing is announced behind the closed ones and these agree. |
| AnthropicEmitter.Emitter.Write | xllm/api_service/anthropic_service_impl.cpp:332-335 | A write is appended, or fails; once one has failed none succeeds. |
| AnthropicEmitter.Emitter.StartNewContentBlock | xllm/api_service/anthropic_service_impl.cpp:321-361 | Stops the current block if there is one and starts the next index with the given type and name. |
| AnthropicEmitter.Emitter.SendContentBlockDelta | xllm/api_service/anthropic_service_impl.cpp:364-408 | A new block exactly when the type changes or a tool name arrives, then one delta of the block's index and type; on failure a prefix of those events. |
| AnthropicEmitter.Emitter.ProcessToolCallStream | xllm/api_service/anthropic_service_impl.cpp:412-464 | Feeds the delta to the sequence's parser and sends its text before its calls. |
| AnthropicEmitter.Emitter.SendIncrement | xllm/api_service/anthropic_service_impl.cpp:482-561 | Reasoning text, then the body, then at the end of the sequence the arguments nobody streamed. |
| AnthropicEmitter.Emitter.CloseMessage | xllm/api_service/anthropic_service_impl.cpp:563-612 | Stop of the open block, message delta with the reason, message stop, done; on failure a prefix of them. |
| AnthropicEmitter.Emitter.SendDeltaToClient | xllm/api_service/anthropic_service_impl.cpp:468-616 | The events of all sequence outputs in order and, at the end of the request, of the closing. |
| AnthropicEmitter.Emitter.OnOutput | xllm/api_service/anthropic_service_impl.cpp:693-747 | Message start before the first output; an error status ends with its message instead. |
| AnthropicEmitter.Stream | xllm/api_service/anthropic_service_impl.cpp:685-747 | Over a whole run the received trace is a prefix of the specified one, and all of it when no write fails. |
| AnthropicEvents.DeliveredThen | xllm/api_service/anthropic_service_impl.cpp:332-335 | Two sends in a row deliver the concatenation of their events, or a prefix of it when the connection breaks on the way. |
| AnthropicGrammar.PartsBuildBlocks | xllm/api_service/anthropic_service_impl.cpp:321-408 | Whatever parts are sent, the events are the rendering of blocks numbered 0, 1, 2, ..., each with a start, one or more deltas of its index and type, and a stop except for the last. |
| AnthropicGrammar.RunIsMessage | xllm/api_service/anthropic_service_impl.cpp:468-747 | Every run that ends finished or cancelled emits message start, numbered well-formed blocks with no two adjacent text blocks, message delta, message stop, done. |
| AnthropicGrammar.CutRunIsPrefix | xllm/api_service/anthropic_service_impl.cpp:468-747 | A run cut short by a failed write, or not ended yet, has sent a prefix of some message of that grammar. |
| AnthropicGrammar.ErrorRun | xllm/api_service/anthropic_service_impl.cpp:695-701 | An error status after any run leaves the blocks so far, unclosed, followed by the error text. |
| AnthropicGrammar.ErrorIsPassed | xllm/api_service/anthropic_service_impl.cpp:695-701 | An error status changes nothing for what may follow it. |
| PlainStreams.PlainAnswer | xllm/api_service/anthropic_service_impl.cpp:482-592 | Without a tool parser, however the output is divided into callbacks and sequences: one text block whose deltas are exactly the texts in order, reasoning before the text it came with, then `end_turn`, `max_tokens` or `tool_use` for the reasons `stop`, `length` and `function_call`. |
| PlainStreams.CancelledAnswer | xllm/api_service/anthropic_service_impl.cpp:565-569 | The same for a cancelled request, with the stop reason `stop`. |
| PlainStreams.LastReasonCounts | xllm/api_service/anthropic_service_impl.cpp:537-560 | The finish reason of the last sequence that has one is the one reported. |
| PlainStreams.MissingArgumentsComeLast | xllm/api_service/anthropic_service_impl.cpp:537-556 | Arguments still missing when the last sequence finishes arrive as the message's last delta, nameless, in the open tool block or in a new one behind text. |
| PlainStreams.NothingMissingBefore | xllm/api_service/anthropic_service_impl.cpp:537-556 | A sequence that has not finished sends nothing but its own texts and fragments. |
| EndToEnd.StreamIsMessage | xllm/api_service/anthropic_service_impl.cpp:412-616 | What a client receives for a chunked model output, the last chunk arriving together with the finish reason, is the message of the blocks its parsed parts build. |
| EndToEnd.RenderedTextFirst | xllm/function_call/qwen3_coder_detector.cpp:443-602 | For leading text followed only by calls no increment of any chunking shows text once a call fragment is out. |
| EndToEnd.ToolBlocksMatchCalls | xllm/api_service/anthropic_service_impl.cpp:364-464 | End to end: under every chunking the client gets the leading text as one text block, then one tool block per call, in order, with the call's name and deltas that concatenate to its full JSON arguments. |
| EndToEnd.BlocksPerCall | xllm/api_service/anthropic_service_impl.cpp:372-383 | There is one tool block per call if and only if every call but the first has a non-empty name. |
| EndToEnd.TextBehindCallSplitsIt | xllm/api_service/anthropic_service_impl.cpp:423-461 | When the end of a call and later text arrive in one increment the text is sent first and the call's last fragment lands in a second, nameless block. |
| Interruptions.CallsKeepTheirBlocks | xllm/api_service/anthropic_service_impl.cpp:423-461 | For every text and chunking: the client's tool blocks are those its calls alone would build if and only if no increment starts with a nameless fragment behind text although a fragment was sent before that text. |
| Interruptions.BlocksAreFunctions | xllm/api_service/anthropic_service_impl.cpp:423-461 | For every printed document, bare functions and texts anywhere, and every chunking: the client's tool blocks are exactly its functions, in order, with names and complete arguments, under the same exact condition on the increments. |
| IncrementGuard.OrderlyAppend | xllm/function_call/qwen3_coder_detector.cpp:443-602 | In an orderly text, wherever it is cut, text shown without a call is followed by a function header. |
| IncrementGuard.BlocksAreFunctionsUnlessSplit | xllm/api_service/anthropic_service_impl.cpp:423-461 | When bare functions hold no text the condition is one on single increments: the tool blocks are exactly the functions if and only if no increment carries text together with calls whose first has no name. |
| IncrementGuard.TextInsideBareFunction | xllm/api_service/anthropic_service_impl.cpp:423-461 | With text inside a bare function a call can be split although no single increment carries both. |
| Utf8.SplitIncompleteUtf8 | xllm/function_call/glm47_detector.cpp:45-93 | The loop over at most four bytes from the end finds the split of the specification. |
| Utf8.SplitValid | xllm/function_call/deepseekv32_detector.cpp:67-106 | Cutting valid UTF-8 anywhere: the complete part is valid, at most 3 bytes are kept, they are completed by what follows, and nothing is kept exactly when the part is valid by itself. |
| Utf8.SplitBehind | xllm/function_call/deepseekv32_detector.cpp:67-106 | The split depends only on the last bytes. |
| Utf8.SplitAtLead | xllm/function_call/glm47_detector.cpp:45-93 | For all bytes: those from the last lead byte on are held back exactly when it announces another number of bytes than there are. |
| Utf8.SplitWithoutLead | xllm/function_call/glm47_detector.cpp:45-93 | Without a lead byte among the last four nothing is held back. |
| Utf8.DecodedIsScalar | xllm/function_call/deepseekv32_detector.cpp:67-106 | The well-formed characters are encodings of scalar values, in the sense of section 3 of RFC 3629. |
| Utf8.EncodedIsChar | xllm/function_call/deepseekv32_detector.cpp:67-106 | Every encoding of a scalar value is one well-formed character. |
| Utf8.CarryLosesNothing | xllm/function_call/deepseekv32_detector.cpp:789-797 | Valid UTF-8 in non-empty chunks cut anywhere: every piece passed on is valid, pieces and carry make up the input so far, the carry has at most 3 bytes and is empty exactly when the input so far is valid. |
| Utf8.ValidConcat | xllm/function_call/deepseekv32_detector.cpp:67-106 | Behind a valid text validity is that of the rest. |
| JsonText.QuoteRoundTrip | xllm/function_call/glm47_detector.cpp:503-505 | Every string, escaped and quoted, reads back as itself (section 7 of RFC 8259). |
| JsonText.EscapeIsShortest | xllm/function_call/glm47_detector.cpp:445-449 | No shorter JSON escape stands for the same character. |
| JsonText.MembersRoundTrip | xllm/function_call/glm47_detector.cpp:431-505 | Every non-empty list of string members written with `: ` and `, ` reads back as itself. |
| GlmMachine.Transducer.constructor | xllm/function_call/glm47_detector.cpp:25-43 | A new machine is in the reset state. |
| GlmMachine.Transducer.ResetStreamingState | xllm/function_call/glm47_detector.cpp:34-43 | All eight fields return to the reset state. |
| GlmMachine.Transducer.ProcessXmlToJsonStreaming | xllm/function_call/glm47_detector.cpp:422-599 | The character loop leaves exactly the state and output of the transducer specification. |
| GlmMachine.Transducer.TakeChar | xllm/function_call/glm47_detector.cpp:430-467 | One character in each of the five states. |
| GlmMachine.Transducer.TakeValueChar | xllm/function_call/glm47_detector.cpp:468-595 | Inside a value: close on the tag, hold a possible tag, flush everything else. |
| GlmMachine.Transducer.FinishValue | xllm/function_call/glm47_detector.cpp:470-516 | The end of a value: rest of the content, closing quote, and the state for the next key. |
| GlmMachine.Transducer.EmitContent | xllm/function_call/glm47_detector.cpp:523-592 | Content of a value: opening quote, carry joined on, complete characters escaped, incomplete tail kept. |
| GlmMachine.ProcessConcat | xllm/function_call/glm47_detector.cpp:422-599 | Running the machine on a text is running it on the two halves. |
| GlmMachine.ChunksDoNotMatter | xllm/function_call/glm47_detector.cpp:422-599 | Every chunking of a text drives the machine to the same state and the same joined output. |
| GlmMachine.UntypedIsString | xllm/function_call/glm47_detector.cpp:373-398 | Every machine reached from the reset state writes a value under the schema's type for its key, or as a string when there is none; outside a value it remembers no type. |
| GlmPadding.GuessByFirstCharacter | xllm/function_call/glm47_detector.cpp:373-398 | The guess itself goes by the value's first character that is no blank. |
| GlmRoundTrip.ValueText | xllm/function_call/glm47_detector.cpp:518-571 | While a value is read everything but the pending part of a closing tag has been written, complete character by complete character. |
| GlmRoundTrip.ValueCloses | xllm/function_call/glm47_detector.cpp:468-571 | For valid UTF-8 free of the closing tag, the value is recognised as closed if and only if its text leaves no part of the closing tag pending; then exactly its JSON literal has been written and the carry is empty. |
| GlmRoundTrip.PendingIffResidue | xllm/function_call/glm47_detector.cpp:518-527 | Which values leave something pending, read off the positions of `<` alone: the last `<` opens a prefix of the tag that reaches the end and was not itself swallowed by an earlier one. |
| GlmRoundTrip.PlainEndIsClosed | xllm/function_call/glm47_detector.cpp:518-527 | A value that does not end in a proper part of the closing tag is always closed. |
| GlmRoundTrip.PendingExamples | xllm/function_call/glm47_detector.cpp:518-571 | `a<` swallows its closing tag, `a<<` does not: after a mismatch a `<` is not looked at again. |
| GlmRoundTrip.StreamedArguments | xllm/function_call/glm47_detector.cpp:422-599 | For every list of string arguments with arbitrary gaps and every chunking: an open JSON object that reads back as the trimmed keys and exactly the values in order, one closing brace completes it, and the carry is empty. |
| GlmRoundTrip.TrimmedKeyIsValid | xllm/function_call/glm47_detector.cpp:95-106 | A key in valid UTF-8 is still valid after trimming, so the serializer cannot reject it. |
| GlmRawValues.RawValueCloses | xllm/function_call/glm47_detector.cpp:468-592 | Values of any type but string are closed under the same condition and copied unchanged; only an empty number is formatted. |
| GlmRawValues.BraceAfterRawValue | xllm/function_call/glm47_detector.cpp:726-739 | With a last argument that is no string the end of the call adds the closing brace if and only if its literal does not itself end in `}`. |
| GlmRawValues.ContentReadsBack | xllm/function_call/glm47_detector.cpp:489-513 | Whatever is written between quotes, valid UTF-8 or not, reads back byte by byte. |
| GlmAnyBytes.AnyValueCloses | xllm/function_call/glm47_detector.cpp:468-592 | For string values of any bytes, valid UTF-8 or not: closed under the same condition, and then what has been written reads back as exactly these bytes. |
| GlmOneShot.FindToolCallRanges | xllm/function_call/glm47_detector.cpp:112-134 | All complete calls, in order. |
| GlmOneShot.RangesFit | xllm/function_call/glm47_detector.cpp:112-134 | For every text: each range lies between its two tags and is free of the closing one, ranges are in order and neither overlap nor touch. |
| GlmOneShot.ParseToolCallContent | xllm/function_call/glm47_detector.cpp:136-149 | Trimmed name and the arguments from the first key on. |
| GlmOneShot.ExtractArgumentPairs | xllm/function_call/glm47_detector.cpp:151-194 | All raw pairs in order. |
| GlmOneShot.DetectAndParse | xllm/function_call/glm47_detector.cpp:324-340 | Trimmed leading text and, per call, its name and raw pairs. |
| GlmInverse.EntriesExtracted | xllm/function_call/glm47_detector.cpp:151-194 | For every rendered list of entries exactly the pairs that have a value come back, in order; a key without a value is skipped and costs no later pair, and an unfinished pair at the end adds none. |
| GlmInverse.OneShotInvertsRendering | xllm/function_call/glm47_detector.cpp:112-194 | Range finding, content split and pair extraction invert the compact rendering of every list of calls; a last call that is not closed adds none. |
| GlmInverse.StreamingAgreesWithOneShot | xllm/function_call/glm47_detector.cpp:151-599 | On string arguments, under every chunking, the streamed object reads back as the one-shot raw pairs with their keys trimmed. |
| GlmPadding.TrimIs | xllm/function_call/glm47_detector.cpp:95-106 | A text between blanks is trimmed to exactly the text between them. |
| GlmPadding.EveryTextIsPadded | xllm/function_call/glm47_detector.cpp:95-106 | Every text is such a text, so trimming takes away all blanks at both ends and nothing else. |
| GlmPadding.PaddedCallsParsed | xllm/function_call/glm47_detector.cpp:108-149 | One-shot parsing of rendered calls whose lead and names stand between blanks returns the bare lead and, per closed call in order, the bare name and exactly its pairs. |
| GlmPadding.PaddedTextParsed | xllm/function_call/glm47_detector.cpp:317-334 | A text without a whole call, cut off inside one or not, yields no call and its bare lead. |
| GlmPadding.PaddedArgumentsStreamed | xllm/function_call/glm47_detector.cpp:445-449 | String arguments in any chunks, with blanks around their keys, reach the client as the object of the bare keys and exactly the values. |
| GlmPadding.PaddedArgumentsExtracted | xllm/function_call/glm47_detector.cpp:151-194 | The one-shot parser extracts the same pairs, their keys still with their blanks. |
| ArgDiff.FindCommonPrefix | xllm/function_call/utils.cpp:30-43 | The longest common prefix of the two texts. |
| ArgDiff.CommonPrefixFits | xllm/function_call/utils.cpp:30-43 | The result is a prefix of both and cannot be extended. |
| ArgDiff.ArgumentStreamer.constructor | xllm/function_call/deepseekv32_detector.cpp:28-65 | No tool seen yet, empty buffers. |
| ArgDiff.ArgumentStreamer.TakeChunk | xllm/function_call/deepseekv32_detector.cpp:789-797 | Only complete characters enter the buffer, an incomplete one is carried, and the end of the stream drops the carry. |
| ArgDiff.ArgumentStreamer.Prepare | xllm/function_call/deepseekv32_detector.cpp:1058-1075 | The tables reach up to the current tool and keep what they hold. |
| ArgDiff.ArgumentStreamer.Observe | xllm/function_call/deepseekv32_detector.cpp:1058-1142 | One look at an invoke: announcement, new fragment, stored and streamed arguments, and the move to the next tool when it is closed. |
| ArgDiff.ArgumentStreamer.CheckForUnstreamedToolArgs | xllm/api_service/utils.h:53-73 | The missing end of the last tool's stored arguments, if any. |
| ArgDiffRuns.StepKeepsSound | xllm/function_call/deepseekv32_detector.cpp:1089-1131 | What has been sent begins the stored arguments again after a step if and only if the new dump begins with what was sent before it; then all bookkeeping stays valid and every closed invoke is fully sent. |
| ArgDiffRuns.DeliveredIsStreamed | xllm/function_call/deepseekv32_detector.cpp:1122-1126 | On every run, for every tool, the fragments a client received are exactly what is booked as streamed. |
| ArgDiffRuns.StoredIsLastDump | xllm/function_call/deepseekv32_detector.cpp:1128-1142 | On every run the stored arguments are the last dump of each invoke, and each invoke was announced once, in order, under its first name. |
| ArgDiffRuns.FlushSendsTheRest | xllm/api_service/utils.h:53-73 | The flush completes the last tool and no other needs it. |
| AnnouncedFirst.ArgumentsFollowTheirName | xllm/function_call/deepseekv32_detector.cpp:1077-1126 | On every run, flush included, arguments come behind the one fragment that names their tool; it carries no arguments, and no later tool comes between. |
| ArgDiffRuns.NothingLostNothingRepeated | xllm/function_call/deepseekv32_detector.cpp:1041-1146 | Over every run whose dumps continue what was sent, stopped anywhere: received text always begins the invoke's last dump, is all of it once the invoke is closed, and with the end-of-stream flush is exactly it for every invoke. |
| ArgDiffRuns.BrokenStaysBroken | xllm/function_call/deepseekv32_detector.cpp:1093-1097 | Otherwise closing the invoke delivers something that does not begin its arguments. |
| SteadyDumps.SentIsPeak | xllm/function_call/deepseekv32_detector.cpp:1098-1131 | As long as dumps continue what was sent, exactly the complete characters shared by the last two different neighbouring dumps of the invoke have been sent. |
| SteadyDumps.ConsistentIffSteady | xllm/function_call/deepseekv32_detector.cpp:1089-1131 | A run of dumps always continues what was sent if and only if they are valid UTF-8 and every later dump of an invoke keeps what two different neighbours before it shared, cut at a complete character. |
| SteadyDumps.SteadyIffDelivered | xllm/function_call/deepseekv32_detector.cpp:1041-1146 | For valid dumps: on every prefix of the run the delivered text begins each invoke's last dump, and with the flush is exactly it, if and only if the dumps are steady in that sense. |
| ArgDiffRuns.SortedKeysBreakIt | xllm/function_call/deepseekv32_detector.cpp:1086-1088 | Sorted keys can put a later key in front: for the dumps `{"b":"x"}`, `{"b":"xy"}`, `{"a":1,"b":"xy"}` the client does not receive the last one. |
| SequenceTable.StreamOutputParser.constructor | xllm/api_service/stream_output_parser.cpp:20-39 | Every sequence starts untouched; the first parser may already exist. |
| SequenceTable.StreamOutputParser.CheckResizeForIndex | xllm/api_service/stream_output_parser.cpp:49-53 | The table grows and no entry changes. |
| SequenceTable.StreamOutputParser.GetToolCallParser | xllm/api_service/stream_output_parser.cpp:55-70 | The sequence's own parser, created if missing; no sequence's entry changes. |
| SequenceTable.StreamOutputParser.GetHasToolCall | xllm/api_service/stream_output_parser.h:49-52 | The flag of that sequence; no entry changes. |
| SequenceTable.StreamOutputParser.SetHasToolCall | xllm/api_service/stream_output_parser.h:54-57 | Sets that flag and nothing else. |
| SequenceTable.StreamOutputParser.Deliver | xllm/api_service/anthropic_service_impl.cpp:412-464 | A delta moves its sequence as the sequence's own parser would, and no other sequence. |
| SequenceTable.Replay | xllm/api_service/stream_output_parser.cpp:55-70 | For every interleaving of deltas over any sequences, the outputs and the final entry of each sequence are those of a fresh parser fed only its own deltas. |
| SequenceTable.OnlyOwnTextMatters | xllm/api_service/stream_output_parser.cpp:55-70 | Two interleavings that carry the same text for a sequence, however cut and mixed, give it the same joined output and the same final entry. |
| SequenceTable.SoloIsRun | xllm/function_call/qwen3_coder_detector.cpp:432-610 | A sequence's joined outputs are the run of the scanner on its deltas, and its flag tells whether any call was seen. |
| VisionPrompt.BuildTimestamps | xllm/processors/qwen3_vl_input_processor.cpp:226-257 | One stamp per frame: the middle of its group of timestamps, the last timestamp filling up the last group and the last group standing for later frames. |
| VisionPrompt.FindVisionToken | xllm/processors/qwen3_vl_input_processor.cpp:209-224 | The first pad of either kind. |
| VisionPrompt.AppendPads | xllm/processors/qwen3_vl_input_processor.cpp:89-91 | Exactly the given number of pads. |
| VisionPrompt.AppendFrames | xllm/processors/qwen3_vl_input_processor.cpp:125-135 | Per frame its timestamp and its wrapped pads. |
| VisionPrompt.ReplaceImage | xllm/processors/qwen3_vl_input_processor.cpp:86-98 | One image pad becomes its pads; the text before it is kept. |
| VisionPrompt.ReplaceVideo | xllm/processors/qwen3_vl_input_processor.cpp:100-138 | One video pad, with its markers when both are there, becomes its frames. |
| VisionPrompt.ReplaceAll | xllm/processors/qwen3_vl_input_processor.cpp:77-144 | All pads are replaced in order; a missing medium or missing timestamps fail. |
| VisionPrompt.Process | xllm/processors/qwen3_vl_input_processor.cpp:34-145 | Without media the prompt stays as it is; mismatched metadata fail. |
| VisionStamps.StampIsMean | xllm/processors/qwen3_vl_input_processor.cpp:226-257 | A frame's stamp is the mean of the first and last timestamp of its group; the last group may be short and stands for all later frames. |
| VisionStamps.StampsAscend | xllm/processors/qwen3_vl_input_processor.cpp:226-257 | Timestamps in order give stamps in order. |
| VisionStamps.VideoReads | xllm/processors/qwen3_vl_input_processor.cpp:100-138 | The tokens of a video read back, by an independent reader, as its frames in order, each with its own stamp in front of exactly its pads. |
| VisionStamps.RowsPerFrame | xllm/processors/qwen3_vl_input_processor.cpp:113-122 | The pads of all frames together are the rows of the video's patch matrix divided by `merge` squared. |
| VisionFailures.ExpandsIfEnough | xllm/processors/qwen3_vl_input_processor.cpp:77-145 | For every prompt, whatever its tokens, expansion succeeds if and only if there is an image for every image pad and a video with timestamps for every video pad. |
| VisionFailures.BarePad | xllm/processors/qwen3_vl_input_processor.cpp:100-112 | A pad that does not stand between both markers is replaced alone. |
| VisionSpans.ExpandSegments | xllm/processors/qwen3_vl_input_processor.cpp:77-145 | For every mix of text, images and videos with wrapped pads, empty ones included, expansion keeps the text and puts image `i`'s pads and video `v`'s frames in their places. |
| VisionSpans.FindMmSpans | xllm/processors/qwen3_vl_input_processor.cpp:149-207 | Each item's position, with every check of the loop; untouched items keep theirs. |
| VisionRecovery.RecoverSegments | xllm/processors/qwen3_vl_input_processor.cpp:149-207 | Scanning an expanded prompt whose media all stand for tokens finds exactly the expected spans: later frames take no item and no item index shifts. |
| VisionRecovery.SkipFrames | xllm/processors/qwen3_vl_input_processor.cpp:184-203 | Exactly the frames of a video behind its first one are skipped. |
| VisionAgreement.SpansHoldPads | xllm/processors/qwen3_vl_input_processor.cpp:176-203 | Every span the scan records holds at least one pad. |
| VisionAgreement.SpansFallShort | xllm/processors/qwen3_vl_input_processor.cpp:188-200 | A used video without frames costs its span or makes the scan fail. |
| VisionAgreement.ExpansionAndRecoveryAgree | xllm/processors/qwen3_vl_input_processor.cpp:77-207 | For every such prompt expansion succeeds, and every media item, in order, gets its full pad run, in increasing disjoint spans of pads only, if and only if every image and video frame used stands for a token and every video used has a frame. |
| VisionRecovery.EmptyImageShiftsItems | xllm/processors/qwen3_vl_input_processor.cpp:177-183 | An image that stands for no token takes no item, so the next medium gets its place. |
| VisionFailures.UnclosedMarkerFails | xllm/processors/qwen3_vl_input_processor.cpp:166-175 | A start marker without any end marker behind it makes the scan of every prompt fail. |
| VisionFailures.ItemsAreALimit | xllm/processors/qwen3_vl_input_processor.cpp:176-203 | With fewer items than spans the scan of any prompt fails, and otherwise finds the same spans. |
| VisionFailures.ItemsMustSuffice | xllm/processors/qwen3_vl_input_processor.cpp:149-207 | An expanded prompt whose media all stand for tokens is scanned successfully if and only if there is an item for each of them. |
| VisionLayout.UnflatOfFlat | xllm/processors/qwen2_vl_image_processor.cpp:313-327 | Row-major positions and index tuples determine each other. |
| VisionLayout.PixelDigits | xllm/processors/qwen2_vl_image_processor.cpp:313-321 | The nine-dimensional view keeps the flat position of every pixel. |
| VisionPatches.PositionOfPixel | xllm/processors/qwen2_vl_image_processor.cpp:313-327 | Row and column of a pixel after view, permute and reshape, as explicit mixed-radix numbers. |
| VisionPatches.PixelsAreKept | xllm/processors/qwen2_vl_image_processor.cpp:313-327 | Every pixel has a matrix entry inside the matrix and goes back to where it came from. |
| VisionPatches.EntriesAreFilled | xllm/processors/qwen2_vl_image_processor.cpp:313-327 | Every matrix entry is filled by exactly one pixel. |
| VisionPatches.TokenRows | xllm/processors/qwen2_vl_image_processor.cpp:313-327 | Rows `j * merge²` to `(j + 1) * merge² - 1` hold a pixel if and only if it lies in the `j`-th merge neighbourhood of patches. |
| VisionPatches.RowsPerPlaceholder | xllm/processors/qwen2_vl_input_processor.cpp:92-94 | The patch matrix has exactly `merge²` rows per placeholder token, without truncation. |
| VisionResize.AcceptedSizeIsGood | xllm/processors/qwen2_vl_image_processor.cpp:20-58 | Accepted exactly when no side is over 200 times the other; then both sides are positive multiples of the factor, the area is at most the maximum after shrinking and at least the minimum after growing. |
| VisionResize.EachSide | xllm/processors/qwen2_vl_image_processor.cpp:32-58 | Height and width each: the nearest multiple of the factor, or, when the area is out of bounds, the next multiple below or above the side scaled by the root. |
| VisionResize.ShrunkPositive | xllm/processors/qwen2_vl_image_processor.cpp:41-48 | A shrunk side is positive if and only if `side * max_pixels >= other * factor²`. |
| VisionResize.ShrunkFits | xllm/processors/qwen2_vl_image_processor.cpp:41-48 | The shrunk area is at most the limit. |
| VisionResize.GrownCovers | xllm/processors/qwen2_vl_image_processor.cpp:49-56 | The grown sides are positive multiples and cover the minimum. |
| VisionResize.AcceptedImageTokens | xllm/processors/qwen2_vl_image_processor.cpp:301-327 | For accepted sides the patch rows are `merge²` times a positive placeholder count, and the pixel shape is the one the layout results speak of. |
| RerankContext.FinalizedExactlyOnce | xllm/api_service/rerank_service_impl.h:78-84 | In every interleaving of slot writes, decrements and final steps of one or more completions at most one final step runs, and in a complete one exactly one, which sees every slot filled with its own output. |
| RerankContext.NoWriteAfterFinalize | xllm/api_service/rerank_service_impl.h:78-84 | While any slot is still to be written the counter is positive, no final step has run and none is due. |
| RerankContext.StepKeepsInvariant | xllm/api_service/rerank_service_impl.h:78-84 | Every atomic step keeps: the counter counts the completions still to decrement, slots hold exactly what was written, and there is a last one exactly at zero. |
| RerankContext.StuckIsComplete | xllm/api_service/rerank_service_impl.h:78-84 | A run that cannot go on is complete. |
| RerankContext.Context.constructor | xllm/api_service/rerank_service_impl.h:61-76 | Empty slots and a counter of all requests. |
| RerankContext.Context.WriteSlot | xllm/api_service/rerank_service_impl.h:79-79 | The write half of a completion. |
| RerankContext.Context.FetchSub | xllm/api_service/rerank_service_impl.h:81-81 | The atomic decrement tells exactly one caller that it was last. |
| RerankContext.Context.RunFinalize | xllm/api_service/rerank_service_impl.h:82-82 | The final step responds rightly for all outputs. |
| RerankContext.Context.OnComplete | xllm/api_service/rerank_service_impl.h:78-84 | A completion responds exactly when the counter reaches zero. |
| RerankContext.Serve | xllm/api_service/rerank_service_impl.h:78-84 | Any complete schedule on the shared object yields one response, right for the outputs whatever the schedule. |
| RerankFinalize.Finalize | xllm/api_service/rerank_service_impl.cpp:30-74 | Failure without scores; otherwise the best `top_n` in descending order, or all if there are fewer, none omitted scored better, and usage totals when positive. |
| RerankFinalize.TotalsAdd | xllm/api_service/rerank_service_impl.cpp:56-74 | Prompt, generated and total tokens each add up over the outputs, one output counting with its own usage. |
| RerankFinalize.SortedScores | xllm/api_service/rerank_service_impl.cpp:38-42 | However the sort arranges equal scores, the score sequence is a function of the scores alone. |
| RerankFinalize.Sort | xllm/api_service/rerank_service_impl.cpp:38-42 | A descending arrangement of the same entries. |
| MiniCpmSlices.GetSlicedGrid | xllm/processors/minicpmv_image_processor.cpp:127-173 | The first candidate with the least error, or no grid. |
| MiniCpmSlices.CandidateGrids | xllm/processors/minicpmv_image_processor.cpp:143-158 | The factor pairs of the counts around the wanted one, in order. |
| MiniCpmSlices.CandidatesAre | xllm/processors/minicpmv_image_processor.cpp:143-158 | A grid is a candidate if and only if it is a factor pair of a count in [2, max] within 1 of the wanted one. |
| MiniCpmSlices.GridIsBest | xllm/processors/minicpmv_image_processor.cpp:127-173 | For every image: no grid exactly when splitting is off or one slice suffices; otherwise an allowed grid no allowed grid beats in aspect-ratio error, with the fewest slices and then the fewest columns among equals. |
| MiniCpmSizes.SpreadIsFactor | xllm/processors/minicpmv_image_processor.cpp:134-168 | The error compared is the factor by which width to height and columns to rows differ; it is 1 exactly when they are equal. |
| MiniCpmSizes.MultipleCoversArea | xllm/processors/minicpmv_image_processor.cpp:135-138 | The wanted count is the least number of scale squares that covers the area, cut at the maximum. |
| MiniCpmSlices.EnsureDivide | xllm/processors/minicpmv_image_processor.h:46-50 | A positive multiple of the divisor, at least one. |
| MiniCpmSlices.FindBestResize | xllm/processors/minicpmv_image_processor.cpp:107-125 | Both sides are positive multiples of the patch size. |
| MiniCpmSlices.RefineSizeFits | xllm/processors/minicpmv_image_processor.cpp:202-221 | The refined size is the grid times one cell whose sides are positive multiples of the patch size. |
| MiniCpmSizes.EnsureDivideRounds | xllm/processors/minicpmv_image_processor.h:46-50 | The multiple closest to the length, halves going up, but at least one. |
| MiniCpmSizes.BestResizeRounds | xllm/processors/minicpmv_image_processor.cpp:107-125 | Both sides are rounded from the image's own size if it is small enough, and otherwise from the size of its aspect ratio that is as high as the scale allows, whose area is at most the scale's square. |
| MiniCpmSizes.RefinedCell | xllm/processors/minicpmv_image_processor.cpp:202-221 | The refined image is the grid times the best size of one grid cell of the image. |
| MiniCpmSlices.SplitToPatches | xllm/processors/minicpmv_image_processor.cpp:175-200 | The loops cut the image into ceiling-many rows and columns of clamped rectangles. |
| MiniCpmSlices.SplitRow | xllm/processors/minicpmv_image_processor.cpp:189-196 | One row of rectangles. |
| MiniCpmSizes.RowTiles | xllm/processors/minicpmv_image_processor.cpp:186-196 | For every size and grid the rectangles of a row leave no gap, do not overlap, stay inside the image and reach its border. |
| MiniCpmSlices.CutIsExact | xllm/processors/minicpmv_image_processor.cpp:180-196 | A side is cut into as many parts as asked for if and only if it is a multiple of that number. |
| MiniCpmPlaceholders.RefinedCut | xllm/processors/minicpmv_image_processor.cpp:202-258 | The refined image is cut into exactly the grid, in equal patch-aligned cells. |
| MiniCpmPlaceholders.GetSlicedImages | xllm/processors/minicpmv_image_processor.cpp:227-311 | One whole picture, scaled up only if there is no grid, and, with a grid, exactly its cells row by row. |
| MiniCpmPlaceholders.GetGridPlaceholder | xllm/processors/minicpmv_input_processor.cpp:110-136 | One slice placeholder per cell, rows separated by line breaks. |
| MiniCpmPlaceholders.GetSliceImagePlaceholder | xllm/processors/minicpmv_input_processor.cpp:138-176 | Image id, image placeholder, slice placeholders. |
| MiniCpmPlaceholders.SlicesMatchPlaceholders | xllm/processors/minicpmv_input_processor.cpp:110-176 | The prompt gets exactly one placeholder per slice, and feature positions for exactly the pictures the image is turned into, when both sides use the same settings. |
| MiniCpmReader.PlaceholderReads | xllm/processors/minicpmv_input_processor.cpp:105-176 | Every placeholder reads back, by an independent reader, as its id, its feature positions, and one slice with as many positions per grid cell, row by row. |
| TextSearch.Find | xllm/function_call/qwen3_coder_detector.cpp:461-461 | `std::string::find`: the first occurrence at or after a position, or none. |
| TextSearch.TagAcrossSeam | xllm/function_call/qwen3_coder_detector.cpp:572-577 | Across a seam behind a `>` or before a `<` no occurrence of a tag straddles. |
| TextSearch.NewTagIsLater | xllm/function_call/qwen3_coder_detector.cpp:488-506 | A tag that appears only with an extension lies behind every tag already seen. |

## Left out

- QwenDetector.Detector.TakeParameter: `convert_param_value` and the JSON serializer are arbitrary deterministic functions, so nothing is said about the converted values themselves; exceptions of the serializer are not modelled.
- QwenAgreement.StreamingAgreesWithOneShot: not compared are documents with tags in the text between parameters, with a key whose header contains `</function>`, and with `<tool_call>` inside a bare function or behind the first `</tool_call>` of a block, where it would start a block of its own for the one-shot parser.
- IncrementGuard.BlocksAreFunctionsUnlessSplit: function names are taken to be non-empty; the client cannot tell an empty name from none.
- GlmMachine.Transducer.TakeChar: the serializer's exception for a key that is not valid UTF-8 is not modelled; a key in valid UTF-8 cannot cause it (`GlmRoundTrip.TrimmedKeyIsValid`).
- GlmRoundTrip.StreamedArguments: arguments of other types than string are copied unread (`GlmRawValues.RawValueCloses`), so only string arguments are part of the round trip.
- GlmOneShot.DetectAndParse: the conversion of raw pairs to JSON values and the check against the known tools are left to the JSON library.
- AnthropicEmitter.Emitter.Write: a write fails only by a broken connection; a failing conversion of a single event to JSON is not modelled.
- AnthropicEmitter.Emitter.SendIncrement: the reasoning parser's result is an input, and tool-call ids are not modelled.
- AnthropicEmitter.Stream: it is assumed that the callback is not called again after it has returned false; the engine that calls it is not part of this model.
- ArgDiff.ArgumentStreamer.Observe: finding invokes and their parameters in the buffer is regular-expression matching; the sequence of (name, dump, closed) it yields is the input.
- SequenceTable.StreamOutputParser.GetToolCallParser: the reasoning parsers of the table, which are created in the same way, would only repeat these members.
- VisionPrompt.Process: the prompt is a token sequence, so the tokenizer and a pad split over several tokens are not modelled; the text of a timestamp is a parameter.
- VisionResize.AcceptedSizeIsGood: exact arithmetic; rounding of `double` and overflow of `int32_t` are not modelled.
- VisionPatches.PositionOfPixel: positions only; pixel values, resizing and normalisation are not modelled.
- MiniCpmSlices.FindBestResize: exact arithmetic instead of `float`; the size of a grid cell is exact anyway.
- RerankContext.Context.FetchSub: steps are interleaved one after the other; the memory order of the atomic counter is taken to make that so.
- RerankFinalize.Finalize: the cosine similarity is part of the score computer parameter.
- The GLM-4.7 outer streaming function, whose result depends on chunk borders.
- `BaseFormatDetector` streaming and the detectors built on regular expressions (GLM-4.5, Kimi-K2, DeepSeek-V3, DSML matching): they rest on library semantics.
- The Qwen2-VL input processor: the same expansion and scan without frames and timestamps would only add easier members.
- `sample_frames` and `process_video`: index arithmetic in floating point and metadata updates.
- The MiniCPM-V prompt rewriting around the placeholders, which matches tags with a regular expression.
- The OpenAI-style chat endpoint, rate limiting, RPC plumbing, schedulers and models.
