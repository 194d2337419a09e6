# Swahili dictionary client: stream framing, step list and results panel

This project models the sequential logic of the Swahili–English dictionary web
client, a React application that sends a query to a retrieval-augmented
backend and shows the answer while it streams in.

Three pieces are modelled:

- **The query stream** (`lib/api.ts`, module `Api`).
  - The response body of the streaming endpoint is read chunk by chunk into a carry buffer and split at `"\n"`.
  - Every complete line that starts with `data: ` has its payload trimmed and parsed into a stream event.
  - The events are handed to the caller in line order. Blank and malformed frames are skipped, and a trailing partial line is kept back.
  - The class `LineFramer` holds the buffer. Its `Feed` method is one turn of the read loop.
  - `QueryStream` is the whole call. It covers the early failures: a rejected fetch, a non-OK status, and a missing body.
  - `NonOkError` is the error chosen for a non-OK response. It is shared with `handleResponse`.
- **The home page** (`app/page.tsx`, module `Page`).
  - `ConvertToQueryResponse` turns the final payload into the answer record.
  - The `setSteps` updater is a keyed upsert on the ordered list of pipeline steps. It is an imperative method, `StepsUpdater`, beside the function `Upsert` that specifies it.
  - The `onEvent` callback routes `complete` to the answer, `error` to the error banner, and every other event to the step list.
  - The search handler resets the page, streams, catches whatever was thrown and always clears the loading flag.
  - The class `Home` holds the four state cells `result`, `error`, `steps` and `isLoading`.
- **The results panel** (`components/SearchResults.tsx`, module `SearchResults`).
  - The top match comes first, followed by the retrieved entries whose word differs from it, in their original order.
  - The heading counts the unfiltered list.
  - The processing-time line obeys JavaScript truthiness.

The JavaScript built-ins the client depends on live in module `JsString`:

- one-character `split` and its inverse `join`
- `startsWith`
- `trim`, with the ECMAScript whitespace and line-terminator set
- the decimal text of a number inside a template literal

Module `Types` holds the records.

- A JSON property that can be missing, `null` or present is a `Field`.
- `??` and string truthiness are written out over that type.

The environment enters the model as parameters:

- `JSON.parse` of a frame: `parse: string -> Option<StreamEvent>`, where `None` means it throws.
- `Date.now()`: `now`, or `clock(i)` for the i-th delivered event.
- The network: a `Fetched` value that is either the response (status, status text, JSON error body if there is one, body chunks as already-decoded text, and an optional failure while reading) or the rejection.
- `onEvent`: the sequence of events delivered.

`Api.QueryStream` and `Page.Home.HandleSearch` are proved against the
functions `Api.StreamRun` and `Page.SearchOutcome`. The lemmas below are
stated about those functions.

## Model

| member | source | states |
|---|---|---|
| JsString.Split | lib/api.ts:134 | `split("\n")` always gives at least one piece, and no piece holds the separator |
| JsString.JoinSplit | lib/api.ts:134 | joining the pieces with the separator gives the input back |
| JsString.SplitJoin | lib/api.ts:134-135 | splitting the join of separator-free pieces gives exactly those pieces, so the decomposition of the buffer at `"\n"` is unique |
| JsString.StartsWith | lib/api.ts:137 | computes `line.startsWith("data: ")`: the line is at least as long as the prefix and begins with it; LineEventIff uses it |
| JsString.Trim | lib/api.ts:138 | computes `trim()` as the slice between the front and back scans; the properties are in SkipLeading, SkipTrailing, TrimIsSlice and TrimEmptyIff |
| JsString.SkipLeading | lib/api.ts:138 | the front scan of `trim()` stops at the first character it keeps, or at the end, and skips only whitespace |
| JsString.SkipTrailing | lib/api.ts:138 | the back scan of `trim()` stops just after the last character it keeps, never passing the front cut, and skips only whitespace |
| JsString.TrimIsSlice | lib/api.ts:138 | `trim()` returns a contiguous slice and cuts only whitespace on both sides; a non-empty result begins and ends with non-whitespace |
| JsString.TrimEmptyIff | lib/api.ts:138-139 | the payload trims to the empty string exactly when it is all whitespace |
| JsString.TrimIdempotent | lib/api.ts:138 | a sanity property of the modelled built-in `trim()`, not a use in the source: trimming its result again changes nothing |
| JsString.NatToString | lib/api.ts:113 | the status in the template literal is a non-empty run of decimal digits with no leading zero |
| JsString.NatToStringRoundTrip | lib/api.ts:113 | those digits read back as the status number |
| Api.NonOkError | lib/api.ts:32-47 | computes the `ApiError` thrown for a non-OK response from its status, status text and parsed body, or the absence of one; NonOkErrorChoice, NonOkErrorNonEmpty and NonOkStatusReadBack prove its branches, and NonOkSameInBothPaths ties it to lib/api.ts:107-121 |
| Api.NonOkErrorChoice | lib/api.ts:107-122 | a JSON error body gives its `error` text when truthy, otherwise "An error occurred", and keeps its `detail`; a body that is not JSON gives "HTTP Error <status>: <statusText>" with no detail; the status code is always attached |
| Api.NonOkErrorNonEmpty | lib/api.ts:112-121 | a non-OK response never throws an empty message |
| Api.NonOkStatusReadBack | lib/api.ts:112-115 | the fallback message is "HTTP Error ", the status digits and ": " followed by the status text, and the digits read back as the status |
| Api.HandleResponse | lib/api.ts:31-51 | an OK response yields its JSON; a non-OK one fails with the non-OK error for its status, text and body |
| Api.NonOkSameInBothPaths | lib/api.ts:32-48 | the streaming endpoint and `handleResponse` throw the same error for the same non-OK response |
| Api.NothingBeforeStreaming | lib/api.ts:107-124 | a rejected fetch, a non-OK status or a missing body delivers no event and throws; an OK response without a body throws "No response body from stream" |
| Api.LineEvent | lib/api.ts:137-145 | computes the events one line delivers: none unless it starts with `data: `, none for a blank payload or one the parser rejects, otherwise the parsed event; see LineEventIff, BlankFrameDeliversNothing and MalformedFrameSkipped |
| Api.EventsOf | lib/api.ts:136-147 | computes the events of a run of lines, line by line in order; see EventsOfAppend and LineFramer.HandleLines |
| Api.LineEventIff | lib/api.ts:136-146 | a line delivers at most one event, and delivers `ev` exactly when it starts with `data: `, its payload after six characters trims to a non-empty text, and that text parses to `ev` |
| Api.BlankFrameDeliversNothing | lib/api.ts:137-139 | a `data: ` line whose payload is all whitespace delivers nothing, whatever the parser says |
| Api.MalformedFrameSkipped | lib/api.ts:140-145 | a frame the parser rejects is dropped and the events of the lines before and after it are still delivered, in order |
| Api.EventsOfAppend | lib/api.ts:136-147 | the events of consecutive runs of lines are the events of each run, concatenated in line order |
| Api.TerminatedAppend | lib/api.ts:134-136 | the text of two runs of complete lines is the text of each, concatenated |
| Api.JoinIsTerminated | lib/api.ts:134-135 | joining complete lines and the last piece with `"\n"` is each complete line followed by `"\n"`, then the last piece |
| Api.CompleteLines | lib/api.ts:134-136 | no complete line holds a newline |
| Api.Rest | lib/api.ts:135 | the carried-over buffer holds no newline |
| Api.LinesThenRest | lib/api.ts:133-135 | no text is lost: the complete lines, each followed by `"\n"`, then the buffer, spell everything fed |
| Api.FramingUnique | lib/api.ts:133-135 | newline-free lines and a newline-free rest that spell a text are exactly that text's complete lines and buffer |
| Api.PartialLineNotDelivered | lib/api.ts:131-135 | text without a newline appended at the end adds no complete line and only grows the buffer, so a trailing partial line is never delivered |
| Api.FramingStep | lib/api.ts:133-135 | framing the carried buffer plus a new chunk, after the lines already framed, gives the framing of all text fed so far |
| Api.LineFramer.constructor | lib/api.ts:128 | the framer starts with an empty buffer, having fed and delivered nothing |
| Api.LineFramer.HandleLine | lib/api.ts:137-145 | the events handed on for one line are exactly that line's event |
| Api.LineFramer.HandleLines | lib/api.ts:136-147 | the events handed on for the complete lines of a chunk, in order, are exactly those lines' events |
| Api.LineFramer.Feed | lib/api.ts:133-147 | one read turn keeps the framing invariant (buffer and lines newline-free, lines then buffer spell everything fed); afterwards the lines are the complete lines of everything fed, the buffer is its unterminated rest, and the events delivered are the events of the complete lines |
| Api.QueryStream | lib/api.ts:94-149 | the events delivered and the error thrown are those of the whole response: early failures deliver nothing, otherwise the events of the complete lines of the concatenated body, then the body's read failure if there is one |
| Api.ChunkingIndependent | lib/api.ts:128-148 | for any response, replacing its body by one whose chunks spell the same text, with the same read failure, gives the same run |
| Api.ConcatAppend | lib/api.ts:130-133 | the text read from two runs of chunks is the text of each, concatenated |
| Api.SplitChunkSameEvents | lib/api.ts:128-148 | cutting one chunk into two anywhere does not change the events delivered |
| Page.ConvertToQueryResponse | app/page.tsx:19-32 | computes the answer from a `complete` payload, with the `??` defaults; see ConvertFillsDefaults and ConvertRoundTrip |
| Page.ConvertFillsDefaults | app/page.tsx:19-32 | `retrieved_entries` becomes `[]` when missing or null and is copied when present; `below_threshold` and `blocked` are true only when given as true; the other fields are copied unchanged, including missing and null |
| Page.ConvertRoundTrip | app/page.tsx:19-32 | converting a payload that carries every field of an answer gives that answer back |
| Page.Ids | app/page.tsx:76 | the id list has one id per step, position by position |
| Page.FindIndex | app/page.tsx:76 | `findIndex` returns the first position whose id matches, and no position exactly when no step has that id |
| Page.Upsert | app/page.tsx:75-98 | computes the `setSteps` updater's result: the first entry with the event's id revised, or a new entry appended; see UpsertAppendsNew, UpsertRevisesFirst, UpsertIds, UpsertKeepsUnique, and StepsUpdater for the in-place form |
| Page.StepsUpdater | app/page.tsx:75-98 | copying the list and overwriting the matching entry in place, or appending, gives the upsert |
| Page.UpsertAppendsNew | app/page.tsx:88-97 | a new id appends exactly one entry at the end, with that id, status and data, started now and not completed; every earlier entry is unchanged |
| Page.UpsertRevisesFirst | app/page.tsx:76-86 | a present id keeps the length and rewrites only its first entry, which keeps its id and start time, takes the new status and data, and has `completedAt == now` exactly when the status is `done`, otherwise none |
| Page.UpsertIds | app/page.tsx:75-98 | the ids after an upsert are unchanged when the id was present, and otherwise gain it at the end |
| Page.UpsertKeepsUnique | app/page.tsx:75-98 | unique ids stay unique after any upsert |
| Page.SecondEventOverwrites | app/page.tsx:76-86 | a second event for the same id never grows the list and overwrites status and data at the entry's position, keeping its start time |
| Page.AddNewSpec | app/page.tsx:75-98 | first-seen accumulation stays duplicate-free, contains exactly the ids seen, and extends what it started from |
| Page.Dispatch | app/page.tsx:68-100 | computes the page state after one delivered event: `complete` sets the result, `error` sets the error, any other event upserts its step; see DispatchRoutes and Home.OnEvent |
| Page.DispatchAll | app/page.tsx:68-100 | computes the page state after a stream of events, dispatched in delivery order with the i-th event stamped `clock(i)`; see DispatchAllSteps, DispatchAllKeepsResult, DispatchAllLastResult and DispatchAllStepEntry |
| Page.DispatchRoutes | app/page.tsx:68-100 | `complete` sets the result and `error` the error, and neither touches the steps or the other field; the error text is the message as sent, or "An unexpected error occurred" when it is missing or null; any other event is only an upsert |
| Page.DispatchAllSteps | app/page.tsx:68-100 | after a stream of events the step list has one entry per distinct stage id, in first-seen order, with unique ids; loading is untouched |
| Page.DispatchAllKeepsResult | app/page.tsx:69-70 | a stream without a `complete` event leaves the result as it was |
| Page.DispatchAllLastResult | app/page.tsx:69-70 | the result shown is the conversion of the last `complete` event's data |
| Page.DispatchAllStepEntry | app/page.tsx:75-98 | after a stream, the entry found for a stage id holds the status and data of the last event naming it, the time of the first such event as its start, and a completion time, that of the last event, exactly when the last event is a later one with status `done` |
| Page.SearchStepEntry | app/page.tsx:62-98 | the same for a search started from the reset state: the entry for each stage id is the step record built from its first and last events |
| Page.DispatchAllStepStart | app/page.tsx:75-98 | the entry for a stage id is created by its first event, with that event's time as its start, and later events never move or restart it |
| Page.DispatchAllNoEntry | app/page.tsx:75-98 | an id that no event names never gets an entry |
| Page.Settle | app/page.tsx:101-109 | computes the `catch` and `finally` of the search: an `Error` sets its message, another thrown value sets "An unexpected error occurred", and loading stops either way; see SearchSettles |
| Page.SearchSettles | app/page.tsx:57-110 | after a search, whether it ended normally or by a thrown value, loading has stopped; an `Error` shows its message, another thrown value shows "An unexpected error occurred", and the steps are the first-seen stage ids with unique ids |
| Page.FailedRequestShowsOnlyError | app/page.tsx:62-65 | a rejected, non-OK or bodiless request leaves no steps and no result and sets the error |
| Page.OneFrameDelivers | lib/api.ts:130-147 | a body that is one `data: ` frame and a newline delivers exactly the event its trimmed payload parses to, and nothing is thrown |
| Page.CompleteFrameGivesResult | app/page.tsx:67-110 | a stream with one `complete` frame for "chakula" ends showing that answer, with no error, no steps and loading stopped |
| Page.ErrorFrameGivesMessage | app/page.tsx:71-72 | a stream with one `error` frame whose message is "boom" shows "boom" and no answer |
| Page.ServerErrorShowsItsText | app/page.tsx:101-109 | a 500 whose JSON body says "Internal" shows "Internal", with no steps and no result |
| Page.Home.constructor | app/page.tsx:35-39 | the page starts with no result, no error, no steps and not loading |
| Page.Home.StartSearch | app/page.tsx:62-65 | the resets: loading, no error, no result, no steps |
| Page.Home.OnEvent | app/page.tsx:68-100 | the callback changes the state exactly as the event's dispatch does |
| Page.Home.HandleSearch | app/page.tsx:57-110 | the page ends in the outcome of the search, whatever state it started in, and is not loading |
| SearchResults.Remaining | components/SearchResults.tsx:56-57 | the filtered list is no longer than the retrieved one, and every entry in it has a word different from the top match's |
| SearchResults.RemainingAppend | components/SearchResults.tsx:56-57 | the filter keeps relative order: it distributes over concatenation |
| SearchResults.RemainingMembers | components/SearchResults.tsx:56-57 | an entry is listed exactly when it was retrieved and its word differs from the top match's, so every duplicate of the top word is dropped |
| SearchResults.NoTopMatchKeepsAll | components/SearchResults.tsx:57 | without a top match nothing is filtered out |
| SearchResults.RemainingLength | components/SearchResults.tsx:56-57 | with a top match, exactly the entries carrying its word are dropped |
| SearchResults.DisplayedEntries | components/SearchResults.tsx:52-60 | computes the cards in display order, the top match first when there is one, then the filtered entries; see DisplayedShape and Render |
| SearchResults.DisplayedShape | components/SearchResults.tsx:49-60 | the top match, when present, is the first card and the filtered entries follow; the heading counts the unfiltered list |
| SearchResults.TimeSlotAsWritten | components/SearchResults.tsx:27-34 | computes what the processing-time slot renders as written: nothing for a missing or null time, the text "0" for 0, the time line otherwise; see ZeroTimeShowsStrayZero and TimeSlotsAgreeOffZero |
| SearchResults.ZeroTimeShowsStrayZero | components/SearchResults.tsx:27 | as written, a processing time of 0 puts the text "0" in the header row |
| SearchResults.TimeSlotIntended | components/SearchResults.tsx:27-34 | the processing-time line is shown exactly when the time is present and non-zero, with that time, and nothing else is rendered there |
| SearchResults.TimeSlotsAgreeOffZero | components/SearchResults.tsx:27 | the slot as written and the intended slot agree on every input except a zero time |
| SearchResults.Render | components/SearchResults.tsx:11-64 | the panel passes query, language and answer through; its time slot is the one as written (a stray "0" exactly for a zero time, the time line exactly for a present non-zero time); the heading counts the unfiltered list; the cards are the top match first, then exactly the retrieved entries whose word differs from it, in their order |
| SearchResults.RenderIntended | components/SearchResults.tsx:11-64 | the corrected panel never shows stray text in the time slot, shows the time line exactly for a present non-zero time, and keeps the cards and count |
| SearchResults.RenderIntendedDiffersOnZeroOnly | components/SearchResults.tsx:27 | the corrected panel equals the panel as written exactly when the time is not 0, and differs from it only in the time slot |

## Left out

- Network calls: `fetch` and the `health`, `query`, `batchQuery` and `search` wrappers (lib/api.ts:53-88, 154-163) are foreign calls. Only the status-and-body-to-result decision they share is modelled, as `Api.HandleResponse`.
- `TextDecoder` (lib/api.ts:127, 133): chunks are already-decoded strings. A multi-byte character split across reads is not modelled.
- `JSON.parse`: it is the parameter `parse`, and `None` stands for a throw. The `as StreamEvent` cast checks nothing at run time, and a frame that parses to something of another shape is outside the model: every parsed frame is a `StreamEvent`.
- Api.NonOkError: an error body that parses as JSON but is `null` or not an object would make `errorData.error` throw or yield `undefined`; the model's body is either absent (not JSON) or an `ErrorResponse`.
- `onEvent` throwing inside the `try` of lib/api.ts:140-145 would be swallowed as a malformed frame; the page's callback cannot throw on model inputs, so that path is not modelled.
- Api.QueryStream: the `reader.read()` loop reads the body's chunks in order and then either ends or fails with the body's `failure`; the timing of reads, and any event delivered after a failure, are not modelled.
- Health polling with `setInterval`/`clearInterval` (app/page.tsx:42-55) is a timer effect whose state the reducer never reads.
- JSX, class names and icons, `showPipelineSteps`, the empty-state panel (app/page.tsx:112-171), components/HealthStatus.tsx and components/DictionaryEntry.tsx are rendering only.
- `toFixed(0)` and other number formatting (components/SearchResults.tsx:31) are floating-point formatting. The time line carries the number.
- A processing time of `NaN` is falsy in JavaScript; the model's times are reals and have no `NaN`.
- A blocked or below-threshold display mode: no modelled file implements one. The two flags are carried in the answer and set to false by default.
- The `SearchBar` and `PipelineSteps` components are not part of this model.
- React batching, asynchronous interleaving and two searches in flight at once are out of scope. Each `set...` call is applied at once, in program order. `Page.Home.HandleSearch` runs one search from start to end: it applies the events after the stream has been read to its end, while the component applies each one as its frame arrives, so the intermediate states shown while the stream is still open are not modelled; only the final state is.
- `Date.now()` is the parameter `now` for one event or `clock(i)` for the i-th delivered event.
- `StepStatus`, `StreamEvent` and `PipelineStep` are imported from lib/types.ts but not declared in lib/types.ts as committed. Their fields are taken from how app/page.tsx uses them: a step id, a status, a data object, a start time and an optional completion time. app/page.tsx itself only tests `event.status === "done"` (app/page.tsx:84). The four status values pending, running, done and error come from the pipeline-steps component in .history/components/PipelineSteps_20260219221424.tsx, which tests running, done and error (lines 63-70) and defaults a missing step to pending (line 159). `StepStatus` is a closed set of these four: a frame whose status is any other string is outside the model (the parser is given as returning only well-formed events), while the source would store that string in the step unchanged.
- Two behaviours of the code that a reader might not expect, both modelled as written:
  - `complete` and `error` events do not end the stream (lib/api.ts keeps reading), and later frames are still delivered.
  - A step whose first event already has status `done` gets no `completedAt`, because only the update branch sets it (app/page.tsx:89-97).

## Findings

| source | as written | input that shows it | evidently intended | confidence | as-written member | corrected member |
|---|---|---|---|---|---|---|
| components/SearchResults.tsx:27 | `{result.processing_time_ms && (...)}` renders the left operand when it is falsy, and React renders the number 0 as text | `processing_time_ms = 0` | no processing-time line and nothing else in its place | not executed | SearchResults.ZeroTimeShowsStrayZero | SearchResults.RenderIntended |
