# Tambayan chat streaming, stores and form logic in Dafny

This project models the client side of the Tambayan AI tool platform. The
centre is the chat streaming exchange:

- `streamChatResponse` turns server-sent events into `onChunk`, `onComplete`
  and `onError` callbacks;
- the chat screen's `handleSend` drives the Zustand chat store around that
  stream.

Around it are the pure pieces of the stores and components that the exchange
and the tool pages use:

- the credit, favourite and tool stores;
- the client-side tool catalogue query;
- the cron builder and the schedule list, panel and form;
- the generic tool form with its multi-select and file-upload fields;
- the sidebar's active-entry rule and user initials.

Every operation is a pure function over immutable datatypes. JSON values are
the `Json` datatype, and a missing property is `None`.

The stream is a state machine (`StreamController.Step`). Its events are:

- a parsed or malformed message;
- the transport error;
- the drain worker's typing-delay timer;
- the 100 ms completion poll;
- cleanup.

Timers, the network and the clock are inputs of this machine. Server answers
enter as parameters: a saved message, or `None` for a request that threw.

Files, one module each:

| file | module | models |
|---|---|---|
| common.dfy | Common | `Option`, and `filter`/`find`/`map`/`Set`/`splice`/`slice` on sequences |
| text.dfy | Text | `split`/`join`, `trim`, case mapping, `padStart`, decimal printing |
| json.dfy | Json | parsed JSON, truthiness, property access, `String(v)`, `===` |
| stream_decoder.dfy | StreamDecoder | classifying one SSE payload (content shapes and control signals) |
| stream_controller.dfy | StreamController | the exchange: queue, drain worker, completion poll, callbacks |
| chat_store.dfy | ChatStore | the chat store's actions and selectors |
| chat_send.dfy | ChatSend | `handleSend` and the stream callbacks of the chat screen |
| message_list.dfy | MessageList | which text each message bubble shows |
| credit_store.dfy | CreditStore | totals, deduction (bonus first) and top-up |
| favorites.dfy | Favorites | the favourite store and the optimistic favourite button |
| tool_catalog.dfy | ToolCatalog | `getTools`: search, category, stable sort, pagination |
| tool_store.dfy | ToolStore | the tool store, and the query the tools page builds from it |
| cron.dfy | Cron | the cron builder and the schedule list's description |
| schedules.dfy | Schedules | the schedule panel and the schedule form |
| form.dfy | Forms | form defaults, schema keying and the submit flow |
| form_fields.dfy | FormFields | the multi-select and file-upload fields |
| sidebar.dfy | Sidebar | the active navigation entry, initials, credit label |

## Model

| member | source | states |
|---|---|---|
| StreamDecoder.FirstShape | src/lib/api/chat.ts:252-279 | the shape chosen is the first, in source order, whose guard holds; no shape is chosen only when no guard holds |
| StreamDecoder.Decode | src/lib/api/chat.ts:247-332 | null is unparsable; content wins iff the selected value is truthy and printable, and the chunk is its string form; a selected value whose printing throws is a parse failure; without content the first control signal in source order decides (`SignalResult`) |
| StreamDecoder.FirstSignal | src/lib/api/chat.ts:289-327 | the position of the first signal, in the order of the else-if chain, whose type test holds; none iff no test holds |
| StreamDecoder.SignalResult | src/lib/api/chat.ts:289-332 | each signal position maps to its callback; no position is unrecognised; an error whose text cannot be printed is a parse failure |
| StreamDecoder.SignalDecides | src/lib/api/chat.ts:289-327 | a payload without content whose first signal is at a position decodes as that position's result |
| StreamDecoder.DecodedSignalsBack | src/lib/api/chat.ts:282-327 | every signal result comes from a payload without content whose type names that signal ahead of the earlier ones, and carries the payload's error text, tool info or node name; the node phase is 'before' iff that signal is present |
| StreamDecoder.UnprintableContentFailsToParse | src/lib/api/chat.ts:282-283 | an item whose content object has its own `toString` property makes the append throw, and the payload is a parse failure |
| StreamDecoder.UnprintableErrorFailsToParse | src/lib/api/chat.ts:298-299 | an error message that cannot be printed makes `new Error` throw, and the payload is a parse failure rather than an error report |
| StreamDecoder.ErrorText | src/lib/api/chat.ts:299 | a truthy top-level message, else a truthy nested event message, else 'Streaming error' |
| StreamDecoder.OrDefault | src/lib/api/chat.ts:305-321 | `a \|\| b \|\| fallback`: the first truthy of the two, else the fallback, and always truthy |
| StreamDecoder.EncodeDecode | src/lib/api/chat.ts:252-287 | each of the seven content shapes carrying a non-empty text is recognised as that very shape and decodes to that text |
| StreamDecoder.NoContentKeys | src/lib/api/chat.ts:252-279 | an object without any key a shape reads selects no content |
| StreamDecoder.ErrorTypedMessageIsContent | src/lib/api/chat.ts:265-299 | `{type:'error', message:m}` with a non-empty m is content m, not an error: the content test comes first |
| StreamDecoder.ChunkShapeBlocksLaterShapes | src/lib/api/chat.ts:261-263 | a chunk/data payload whose object data has no content still takes the chunk branch, which blocks the later shapes, and the payload decodes as unrecognised |
| StreamDecoder.EmptyStringNeverContent | src/lib/api/chat.ts:282-287 | accepted content is never an empty string unless it came from an array |
| StreamDecoder.EmptyArrayIsEmptyContent | src/lib/api/chat.ts:257-284 | `content: []` is truthy, so it is accepted as an empty chunk |
| StreamDecoder.ErrorSignalDefaultText | src/lib/api/chat.ts:298-299 | an error signal without a message reports 'Streaming error' |
| StreamDecoder.ErrorSignalNestedText | src/lib/api/chat.ts:298-299 | an error signal in the event envelope reports the nested message |
| StreamDecoder.ErrorSignalNumericText | src/lib/api/chat.ts:298-299 | a numeric message is reported in its string form |
| StreamDecoder.SignalNameDefaults | src/lib/api/chat.ts:303-327 | a tool call without a name is called 'Tool', and a node without a name is called 'Node' |
| Json.ToJsString | src/lib/api/chat.ts:283-285 | `String(v)` where it does not throw (`PrintThrows`): strings unchanged, numbers in decimal, objects as '[object Object]' |
| Json.TruthyNonArrayPrintsSomething | src/lib/api/chat.ts:282-284 | a truthy value that is not an array never prints as the empty string |
| Json.EmptyArraysPrintEmpty | src/lib/api/chat.ts:282-284 | `[]` and `[null]` are truthy yet print as '' |
| StreamController.Burst | src/lib/api/chat.ts:228-243 | one run of the worker hands out at least one chunk, and stops with fewer than 10 left; the handed-out and the remaining chunks make up the queue |
| StreamController.AuthGuard | src/lib/api/chat.ts:205-208 | without a resolvable user id the only callback is the authentication error, whatever the events |
| StreamController.StepInv | src/lib/api/chat.ts:216-356 | every event keeps the invariant: an idle worker has an empty queue, the queue is the tail of the message, and the poll runs only for a non-empty message after content |
| StreamController.RunInv | src/lib/api/chat.ts:216-356 | the invariant holds after any sequence of events |
| StreamController.ContentStep | src/lib/api/chat.ts:282-287 | content extends the message and marks content seen; an idle worker delivers it at once, a busy worker finds it queued |
| StreamController.BeginEndStep | src/lib/api/chat.ts:289-297 | begin clears the message and the queue but not the content flag; end changes nothing |
| StreamController.SignalsOnlyForward | src/lib/api/chat.ts:303-327 | tool and node signals only forward their callback and change no state |
| StreamController.FailureStep | src/lib/api/chat.ts:298-332 | an error signal reports its text, and a null or malformed payload reports the parse failure; both close the stream |
| StreamController.TransportErrorMeaning | src/lib/api/chat.ts:335-356 | a transport error after non-empty content starts the poll; after content with an empty message it is 'Stream ended with empty response'; without content it is 'Connection lost' |
| StreamController.CompleteOnlyWhenDrained | src/lib/api/chat.ts:338-346 | onComplete fires only from the poll, with the queue empty and the worker idle, carrying the whole non-empty message, and it finishes the stream |
| StreamController.StepTerminal | src/lib/api/chat.ts:298-356 | one event yields at most one completion or error, which finishes the stream; a finished stream stays silent |
| StreamController.AtMostOneTerminal | src/lib/api/chat.ts:298-356 | over any run there is at most one onComplete or onError |
| StreamController.FinishedStaysSilent | src/lib/api/chat.ts:300-356 | once closed, no later event produces a completion or error |
| StreamController.QueueFifo | src/lib/api/chat.ts:228-287 | without begin, delivered chunks followed by the queue are the accepted chunks in arrival order, and the message is their concatenation |
| StreamController.StepFifo | src/lib/api/chat.ts:228-287 | the one-step form of the FIFO property |
| StreamController.StepLedger | src/lib/api/chat.ts:228-297 | for any event, begin included: what one step discards or delivers, followed by the queue, is the old queue followed by what the step accepts |
| StreamController.QueueLedger | src/lib/api/chat.ts:228-297 | over any run, begin included: the chunks that left the queue in order, followed by the queue, are the old queue followed by the accepted chunks |
| StreamController.LeftIsDeliveredOrDiscarded | src/lib/api/chat.ts:228-297 | every chunk that left the queue was either handed to onChunk or discarded by a begin |
| StreamController.EveryChunkOnce | src/lib/api/chat.ts:228-297 | every accepted chunk is delivered, discarded by a begin or still queued, exactly once |
| StreamController.NoBeginNoDiscard | src/lib/api/chat.ts:228-297 | without begin nothing is discarded, so what left the queue is what was delivered |
| StreamController.NoContentNoComplete | src/lib/api/chat.ts:335-356 | a run that accepts no content never completes |
| StreamController.HappyPath | src/lib/api/chat.ts:245-346 | two item chunks, the transport end, the worker finishing and the poll give exactly onChunk(a), onChunk(b), onComplete(a+b) |
| StreamController.EmptyStringChunkIsConnectionLost | src/lib/api/chat.ts:257-354 | an item with content '' is not content, so the following transport error reports 'Connection lost' |
| ChatStore.AddSession | src/stores/chat-store.ts:85-87 | the new session goes in front and nothing else changes |
| ChatStore.UpdateSession | src/stores/chat-store.ts:89-96 | every active and archived session with the id is patched, and all others are kept in place |
| ChatStore.DeleteSession | src/stores/chat-store.ts:98-102 | no session with the id remains in either list, every other session stays in its order in both lists (KeptInOrder: the k-th remaining session is the one at the k-th position of KeptIndices), and a current pointer to it is cleared |
| ChatStore.DeleteUndoesAdd | src/stores/chat-store.ts:85-102 | deleting a freshly added session with a new id restores the store |
| ChatStore.ArchiveSession | src/stores/chat-store.ts:104-112 | an absent id changes nothing; otherwise the first match moves to the front of the archive, the other active sessions stay in their order (KeptInOrder), and a current pointer to it is cleared |
| ChatStore.UnarchiveSession | src/stores/chat-store.ts:114-121 | an absent id changes nothing; otherwise the first archived match moves to the front of the active list, the other archived sessions stay in their order (KeptInOrder), and the pointer is untouched |
| ChatStore.ArchiveThenUnarchive | src/stores/chat-store.ts:104-121 | for a unique id, archiving and unarchiving returns the very session to the front, keeps the other sessions in order and restores the archive |
| ChatStore.ArchiveThenUnarchiveFront | src/stores/chat-store.ts:104-121 | a session already in front comes back to exactly the same lists |
| ChatStore.AddMessage | src/stores/chat-store.ts:126-132 | the message is appended to every active session with the id, and nothing else changes |
| ChatStore.UpdateMessage | src/stores/chat-store.ts:134-145 | the messages with the id inside the sessions with the id are patched, keeping count and order |
| ChatStore.PatchKeepsIds | src/stores/chat-store.ts:134-145 | a patch without an id keeps every message id, and leaves other messages untouched |
| ChatStore.SetStreamingMessage | src/stores/chat-store.ts:147-150 | sets the streaming id, with the content defaulting to '' |
| ChatStore.AppendStreamingContent | src/stores/chat-store.ts:152-154 | the buffer gains exactly the chunk at its end |
| ChatStore.AppendEachConcat | src/stores/chat-store.ts:152-154 | appending chunks one by one leaves the concatenation of the chunks |
| ChatStore.AddToolCall | src/stores/chat-store.ts:158-160 | the call is appended, with its start time, and there is no de-duplication |
| ChatStore.RemoveToolCall | src/stores/chat-store.ts:162-164 | exactly the entries whose name is strictly equal are dropped; the others stay in their order, repeats included (KeptInOrder) |
| ChatStore.RemoveAbsentToolCall | src/stores/chat-store.ts:162-164 | removing a name nobody has changes nothing |
| ChatStore.AddThenRemoveToolCall | src/stores/chat-store.ts:158-164 | adding a new primitive name and removing it restores the list |
| ChatStore.GetCurrentSession | src/stores/chat-store.ts:174-177 | the first active session whose id is the current id, or none when there is no such session |
| ChatStore.GetSessionMessages | src/stores/chat-store.ts:179-183 | the messages of the first active session with the id, or [] |
| ChatStore.AddedSessionIsCurrent | src/stores/chat-store.ts:85-183 | a session added and made current is the current session, and its messages are readable |
| ChatSend.Title | src/components/chat/chat-interface.tsx:153 | the first 50 characters of the input, counted as Unicode scalar values |
| ChatSend.TitleUnits | src/components/chat/chat-interface.tsx:153 | the first 50 UTF-16 code units of the input, as `slice` counts them |
| ChatSend.TitleOnBmp | src/components/chat/chat-interface.tsx:153 | on text in the Basic Multilingual Plane the two titles are the same code units |
| ChatSend.TitleCutsSurrogatePair | src/components/chat/chat-interface.tsx:153 | 49 ASCII characters and an emoji: the model keeps the emoji whole, JavaScript keeps its lone high surrogate U+D83D |
| ChatSend.HandleSend | src/components/chat/chat-interface.tsx:138-237 | a blank input or a running send does nothing; too few credits only alerts; a stream is attached only after both checks pass |
| ChatSend.StartSend | src/components/chat/chat-interface.tsx:138-162 | up to the first await: refused iff the input is blank, a send runs or credits are short (alerting only for credits); a new session is awaited iff there is no current one |
| ChatSend.ResumeCreated | src/components/chat/chat-interface.tsx:149-164 | after the create request: a throw changes nothing; otherwise the new session is in front and current, the others follow in order, and the captured text is saved in it |
| ChatSend.SecondPressWhileCreating | src/components/chat/chat-interface.tsx:138-164 | a second press while the session is being created passes the guard: two sessions are created, the second ends up current, and the same text is saved in each |
| ChatSend.SendInSession | src/components/chat/chat-interface.tsx:164-175 | the first request of a send is the save of the input in that session, and it never alerts |
| ChatSend.SessionCreation | src/components/chat/chat-interface.tsx:146-162 | without a current session the create request goes first; if it throws nothing changes, otherwise the new session is in front and current |
| ChatSend.SendKeepsSessions | src/components/chat/chat-interface.tsx:164-191 | the send never adds, drops or reorders sessions, and never moves the current pointer |
| ChatSend.StreamingChat | src/components/chat/chat-interface.tsx:177-191 | the session with the id gains exactly the user message and the empty placeholder; the view points at the placeholder with an empty buffer, and thinking is over |
| ChatSend.StreamingSetup | src/components/chat/chat-interface.tsx:164-195 | a send that reaches the stream leaves the send running, thinking off, tools cleared and the input empty; it issues the save and the stream open, and appends the two messages |
| ChatSend.SetupFailureResetsFlags | src/components/chat/chat-interface.tsx:233-237 | an exception while saving or opening resets both flags, and no stream is attached |
| ChatSend.CompleteRekeys | src/components/chat/chat-interface.tsx:202-215 | onComplete re-keys the placeholder to the saved id with the final text, clears streaming, ends the send and charges the tool's cost |
| ChatSend.CompleteSaveFailureChangesNothing | src/components/chat/chat-interface.tsx:202-207 | if saving the reply throws, the rejection is unhandled and nothing changes |
| ChatSend.ErrorShowsApology | src/components/chat/chat-interface.tsx:216-223 | onError replaces the placeholder text with the apology, ends the send and charges nothing |
| ChatSend.CreditsUntouchedWithoutComplete | src/components/chat/chat-interface.tsx:198-229 | no callback except onComplete touches the credits |
| ChatSend.ChargedAtMostOnce | src/components/chat/chat-interface.tsx:202-215 | over any stream run the credits end either unchanged or deducted by the cost once |
| ChatSend.ChunksAccumulate | src/components/chat/chat-interface.tsx:198-201 | after the chunk callbacks, the buffer is the old buffer followed by the delivered chunks |
| MessageList.BubbleOf | src/components/chat/message-list.tsx:24-53 | the streamed message shows the buffer, or '...' when it is empty; any other message shows its own content, or nothing |
| MessageList.Render | src/components/chat/message-list.tsx:91-111 | one bubble per message, in order; the thinking row follows the flag |
| MessageList.NotStreamingShowsOwnContent | src/components/chat/message-list.tsx:100-106 | with nothing streaming, each bubble shows its own message |
| MessageList.OnlyStreamedMessageShowsBuffer | src/components/chat/message-list.tsx:100-106 | only bubbles with the streaming id show the buffer |
| CreditStore.TotalCredits | src/stores/credit-store.ts:77-81 | balance plus bonus (a missing bonus is 0); 0 without a record |
| CreditStore.SetCredits | src/stores/credit-store.ts:30 | stores the record, ends loading and clears the error |
| CreditStore.SetError | src/stores/credit-store.ts:70 | sets the error and ends loading |
| CreditStore.DeductCredits | src/stores/credit-store.ts:34-54 | the bonus is used first; neither part drops below 0; other fields are kept |
| CreditStore.DeductTotal | src/stores/credit-store.ts:34-54 | for non-negative amounts the total drops to max(0, total - amount) |
| CreditStore.DeductWhenEnough | src/stores/credit-store.ts:34-81 | when the total covers the amount, it drops by exactly the amount |
| CreditStore.AddCredits | src/stores/credit-store.ts:56-66 | the amount goes to the bonus, and the total rises by it |
| CreditStore.DeductUndoesAdd | src/stores/credit-store.ts:34-66 | deducting what was added restores the record, with the bonus made explicit |
| Favorites.AddFavorite | src/stores/favorite-store.ts:29-33 | the id becomes a favourite, the list has no duplicates, and the members are the old ones plus the id |
| Favorites.RemoveFavorite | src/stores/favorite-store.ts:35-38 | exactly the id is dropped, and the remaining ids keep their order |
| Favorites.RemoveCutsOut | src/stores/favorite-store.ts:35-38 | on a duplicate-free list, removing an id cuts out exactly its position |
| Favorites.ToggleFavorite | src/stores/favorite-store.ts:44-51 | flips the id's membership and nothing else |
| Favorites.AddToDistinct | src/stores/favorite-store.ts:29-33 | on a duplicate-free list, adding appends a new id at the end, and a present id changes nothing |
| Favorites.RemovePreserves | src/stores/favorite-store.ts:35-38 | removal keeps the list duplicate-free, and removing an absent id changes nothing |
| Favorites.ToggleTwiceAbsent | src/stores/favorite-store.ts:44-51 | toggling a new id twice restores the store |
| Favorites.Click | src/components/tools/favorite-button.tsx:21-41 | a click while updating is ignored; otherwise the store flips at once and the matching server call is issued |
| Favorites.Settle | src/components/tools/favorite-button.tsx:36-52 | success keeps the optimistic state; failure restores the membership the click saw; updating ends either way |
| Favorites.ClickSettle | src/components/tools/favorite-button.tsx:21-52 | after click and settle the id is flipped iff the call succeeded, and other ids are untouched |
| Favorites.FailedAddRollsBackExactly | src/components/tools/favorite-button.tsx:30-48 | a failed add on a duplicate-free list restores the store exactly |
| ToolCatalog.OrNumber | src/lib/api/tools.ts:35-36 | `n \|\| fallback`: the fallback for a missing or zero value |
| ToolCatalog.CeilDiv | src/lib/api/tools.ts:92 | `Math.ceil(a / b)` for either sign of b |
| ToolCatalog.SearchFilter | src/lib/api/tools.ts:45-52 | no or empty search keeps the list; otherwise exactly the tools whose lower-cased name or description contains the lower-cased term, in catalogue order (KeptInOrder) |
| ToolCatalog.CategoryFilter | src/lib/api/tools.ts:55-58 | no category, '' or 'all' keeps the list; otherwise exactly the tools with that category slug, in catalogue order (KeptInOrder) |
| ToolCatalog.SortDesc | src/lib/api/tools.ts:62-80 | the result is ordered by descending key and is a permutation of the input |
| ToolCatalog.InsertDescSorted | src/lib/api/tools.ts:62-80 | insertion keeps the order and adds exactly the element |
| ToolCatalog.SortStable | src/lib/api/tools.ts:62-80 | the tools with any one key keep their relative order, as `Array.prototype.sort` guarantees |
| ToolCatalog.SortTools | src/lib/api/tools.ts:62-80 | a permutation, ordered by the key of a known sort; an unknown or missing sort leaves the list as it is |
| ToolCatalog.PopularTiesKeepOrder | src/lib/api/tools.ts:70-71 | tools with equal usage keep their order under 'popular' |
| ToolCatalog.PageBounds | src/lib/api/tools.ts:83-85 | a page holds at most pageSize tools, and a page inside the list is exactly that stretch |
| ToolCatalog.GetTools | src/lib/api/tools.ts:35-93 | page and size default to 1 and 12; the total counts the filtered list; totalPages is its ceiling quotient; data is the requested slice |
| ToolCatalog.PageMembers | src/lib/api/tools.ts:42-85 | every tool returned is in the catalogue and passes the search and category tests |
| ToolCatalog.MatchingIsExact | src/lib/api/tools.ts:42-80 | every catalogue tool passing both tests is in the filtered list |
| ToolStore.SetTools | src/stores/tool-store.ts:58-69 | the response's page becomes the list and pagination; loading ends and the error clears |
| ToolStore.SetError | src/stores/tool-store.ts:75 | sets the error and ends loading |
| ToolStore.SetFilters | src/stores/tool-store.ts:77-81 | each given filter replaces the old one, others stay, and the page goes back to 1 |
| ToolStore.SetPage | src/stores/tool-store.ts:83-86 | only the page changes |
| ToolStore.ResetFilters | src/stores/tool-store.ts:88-92 | filters and pagination return to their defaults |
| ToolStore.GetToolById | src/stores/tool-store.ts:94 | the first tool with the id, or none iff no tool has it |
| ToolStore.SetFiltersCompose | src/stores/tool-store.ts:77-81 | two filter updates equal one merged update, the later value winning |
| ToolStore.DefaultsAreReset | src/stores/tool-store.ts:37-92 | setting the default filters equals a reset, except for the page size and totals |
| ToolStore.FetchHonoursFilters | src/lib/api/tools.ts:42-85 | the tools page's fetch with the store's own query, stored by setTools: every tool shown is in the catalogue, passes the store's search and category, and can be looked up by id |
| ToolStore.FetchKeepsPage | src/lib/api/tools.ts:35-93 | the same fetch keeps the store's page and size, with 0 meaning 1 and 12, keeps the filters, and orders the matches by the chosen sort |
| Cron.FiveFields | src/components/schedule/cron-builder.tsx:126 | five space-free fields joined by spaces split back into the same five |
| Cron.SameExpression | src/components/schedule/cron-builder.tsx:62-63 | a string splits into given space-free fields exactly when it is their join |
| Cron.FieldTestsAreStringTests | src/components/schedule/cron-builder.tsx:62-63 | the two whole-string tests equal the field tests the model uses |
| Cron.Describe | src/components/schedule/cron-builder.tsx:55-71 | 'Invalid expression' exactly when there are not five fields |
| Cron.DayRule | src/components/schedule/cron-builder.tsx:65-67 | every wording of the day rule starts with 'Every', so it can never read as invalid |
| Cron.DescribeBuilt | src/components/schedule/cron-builder.tsx:55-127 | the builder's own expression at minute 0 is described by the day rule of its day field |
| Cron.BuilderHonoursDayOfMonth | src/components/schedule/cron-builder.tsx:64-70 | an expression bound to a day of the month or to a month is described by minute and hour only |
| Cron.ListDescribeAsWritten | src/components/schedule/schedule-list.tsx:26-41 | the list's description, which ignores the day-of-month and month fields; anything without five fields is shown raw |
| Cron.ListIgnoresDayOfMonth | src/components/schedule/schedule-list.tsx:30-35 | as written, any expression at minute 0 of a set hour on every weekday is called daily, whatever its day of month |
| Cron.MonthlyPresetShownAsDaily | src/components/schedule/schedule-list.tsx:26-41 | the builder's monthly preset '0 0 1 * *' is listed as 'Daily at 00:00'; the builder describes it otherwise, and the corrected list shows it raw |
| Cron.ListDescribe | src/components/schedule/schedule-list.tsx:26-41 | corrected: an expression bound to a day of the month or to a month is shown raw |
| Cron.CorrectionOnlyNarrows | src/components/schedule/schedule-list.tsx:26-41 | the correction agrees with the list as written on every expression not bound to a day of the month or a month |
| Cron.BuildCron | src/components/schedule/cron-builder.tsx:108-127 | `minute hour * * days`, and the built string splits back into those fields |
| Cron.Parse | src/components/schedule/cron-builder.tsx:89-104 | a value without five fields keeps the selection; otherwise neither minute nor hour is '*' |
| Cron.BuildParseBuild | src/components/schedule/cron-builder.tsx:89-127 | reading back a built expression and rebuilding it gives the same expression |
| Cron.BuildsBack | src/components/schedule/cron-builder.tsx:89-127 | a five-field value with concrete minute and hour, '*' day and month, and a day field that reads back to itself is rebuilt unchanged |
| Cron.ParsedDayField | src/components/schedule/cron-builder.tsx:96-124 | a built day field read back and rebuilt is unchanged |
| Cron.DaysRoundTrip | src/components/schedule/cron-builder.tsx:96-124 | a non-empty set of distinct day names read back has exactly those days |
| Cron.EmptySelectionMeansEveryDay | src/components/schedule/cron-builder.tsx:97-116 | no selected day builds '*', which reads back as all seven days |
| Cron.OnValue | src/components/schedule/cron-builder.tsx:81-105 | preset mode iff the value is a preset; otherwise the value becomes the custom text; the selection is parsed from the value |
| Cron.ToggleDay | src/components/schedule/cron-builder.tsx:130-135 | flips the day's membership and nothing else: a new day is appended, and unticking one keeps the other days in their order (KeptInOrder) |
| Cron.UntickKeepsOrder | src/components/schedule/cron-builder.tsx:123-135 | unticking 'MON' from 'MON', 'WED', 'FRI' leaves 'WED', 'FRI' in that order, and the day field is 'WED,FRI' |
| Cron.ToggleKeepsDayNames | src/components/schedule/cron-builder.tsx:130-135 | toggling keeps the days distinct and valid |
| Cron.Sync | src/components/schedule/cron-builder.tsx:137-143 | custom mode emits nothing; preset mode emits the built expression iff it differs from the value |
| Cron.SyncSettles | src/components/schedule/cron-builder.tsx:81-143 | once the emitted value comes back, the builder emits nothing more |
| Cron.InitialText | src/components/schedule/cron-builder.tsx:75-77 | the initial selection builds '0 9 * * MON-FRI' |
| Cron.MountAsWritten | src/components/schedule/cron-builder.tsx:74-143 | as written, the first commit sends the initial selection's expression for every value that is not already that expression |
| Cron.Mount | src/components/schedule/cron-builder.tsx:81-143 | corrected: with the sync effect reading the value effect's result, a value outside the presets is never sent back |
| Cron.MountOverwritesCustom | src/components/schedule/cron-builder.tsx:74-143 | opening '30 14 * * *' sends '0 9 * * MON-FRI' as written, and nothing when corrected |
| Cron.MountQuietExceptTwo | src/components/schedule/cron-builder.tsx:25-32 | the corrected first commit sends nothing for the four presets the selection can hold |
| Cron.HourlyPresetBecomesDaily | src/components/schedule/cron-builder.tsx:25-143 | choosing 'Every hour' sends back '0 0 * * *' |
| Cron.MonthlyPresetBecomesDaily | src/components/schedule/cron-builder.tsx:25-143 | choosing 'Every month' sends back '0 0 * * *' |
| Cron.SyncFixed | src/components/schedule/cron-builder.tsx:137-143 | corrected: custom mode sends nothing, and anything sent is the selection's expression |
| Cron.SyncFixedAfterValue | src/components/schedule/cron-builder.tsx:81-143 | after the value effect, whatever the value, the corrected sync effect sends nothing |
| Cron.SyncFixedAgrees | src/components/schedule/cron-builder.tsx:137-143 | on every value the selection can hold, the correction behaves as the code |
| Schedules.ReplaceById | src/components/schedule/schedule-interface.tsx:46-48 | every entry with the id becomes the given entry, and the others are kept in place |
| Schedules.OnToggle | src/components/schedule/schedule-interface.tsx:43-52 | requests the opposite state; the answer replaces the entry, and a failure keeps the list |
| Schedules.OnDelete | src/components/schedule/schedule-interface.tsx:55-64 | nothing without confirmation; only a successful delete drops the entries with the id |
| Schedules.OnFormSubmit | src/components/schedule/schedule-interface.tsx:67-77 | an edit replaces by id, a new entry goes first, and the form closes |
| Schedules.OnEdit | src/components/schedule/schedule-interface.tsx:80-83 | opens the form on the entry |
| Schedules.OnFetched | src/components/schedule/schedule-interface.tsx:27-40 | a result replaces the list, a failure keeps it, and loading ends |
| Schedules.ToggleTwiceRestores | src/components/schedule/schedule-interface.tsx:43-52 | two toggles whose answers flip the entry restore the list |
| Schedules.DeleteRemovesOnlyThatId | src/components/schedule/schedule-interface.tsx:55-64 | after a delete no entry has the id, and all others remain |
| Schedules.SubmitCounts | src/components/schedule/schedule-interface.tsx:67-77 | an edit keeps the count; a new entry adds one in front |
| Schedules.Defaults | src/components/schedule/schedule-form.tsx:69-77 | a new form gets '', the weekday 9 AM expression and the browser zone or 'UTC'; an edit falls back only on empty fields |
| Schedules.NewFormNeedsOnlyAName | src/components/schedule/schedule-form.tsx:38-77 | a new form is invalid as it opens, and any name of 1 to 100 characters makes it valid |
| Schedules.DefaultCronIsPreset | src/components/schedule/schedule-form.tsx:74 | the default expression is a builder preset, so the builder opens in preset mode |
| Schedules.EditDefaultsAreTheSchedule | src/components/schedule/schedule-form.tsx:69-77 | editing a valid schedule opens on exactly its values |
| Schedules.HandleSubmit | src/components/schedule/schedule-form.tsx:79-109 | an edit sends an update of name, description and expression; a new schedule sends a creation with empty input data; only an answer reaches the panel |
| Schedules.TimezoneNotSent | src/components/schedule/schedule-form.tsx:79-101 | changing the timezone changes nothing the submit sends |
| Schedules.EditFlow | src/components/schedule/schedule-interface.tsx:67-83 | opening, submitting and closing an edit replaces exactly that entry by id |
| Forms.DefaultOf | src/components/form/form-interface.tsx:113-123 | a given default wins; otherwise false for a checkbox, [] for a multi-select and '' for everything else |
| Forms.EntryOf | src/components/form/form-interface.tsx:75-80 | the schema entry is optional iff the field is not required |
| Forms.KeyedByLastField | src/components/form/form-interface.tsx:75-123 | each payload key is decided by the last field carrying it, in both the defaults and the schema |
| Forms.KeysAreThePayloadKeys | src/components/form/form-interface.tsx:75-123 | defaults and schema have exactly the payload keys of the fields |
| Forms.OnSubmit | src/components/form/form-interface.tsx:130-168 | too few credits sets the credit error and skips the call; success charges the reported credits; a decline or a throw keeps the credits and sets an error; the executing flag ends false |
| Forms.ChargesReportedCredits | src/components/form/form-interface.tsx:146-152 | a success lowers the total by the reported credits, never below 0 |
| Forms.FailureCostsNothing | src/components/form/form-interface.tsx:153-165 | a failed or refused run leaves the credits unchanged |
| FormFields.SafeValue | src/components/form/fields/multi-select.tsx:27-32 | arrays pass through, a non-empty string becomes a one-element list, and everything else is [] |
| FormFields.SafeValueIdempotent | src/components/form/fields/multi-select.tsx:27-39 | normalising a normalised value changes nothing |
| FormFields.Click | src/components/form/fields/multi-select.tsx:41-48 | a disabled option does nothing; otherwise it flips its membership and reports the new list: a new option is appended, and a removed one leaves the rest in their order (KeptInOrder) |
| FormFields.ClickTwice | src/components/form/fields/multi-select.tsx:41-48 | two clicks on a new option restore the list |
| FormFields.Files | src/components/form/fields/file-upload.tsx:38-42 | none, one or many files as a list |
| FormFields.OnDrop | src/components/form/fields/file-upload.tsx:44-69 | a rejection, or an accepted file over the limit, sets its error and emits nothing; otherwise all files (multiple) or the first or null (single) |
| FormFields.DropEmitsAccepted | src/components/form/fields/file-upload.tsx:44-69 | what a drop emits, read back as files, is the accepted list or its first file, all within the limit |
| FormFields.RemoveFile | src/components/form/fields/file-upload.tsx:90-98 | multiple mode drops the file at the index and turns an empty list into null; single mode clears |
| FormFields.RemoveFileInverse | src/components/form/fields/file-upload.tsx:90-98 | putting the removed file back at its index restores the list |
| FormFields.AcceptMap | src/components/form/fields/file-upload.tsx:73-85 | no map for a missing or empty string; otherwise the comma-separated entries |
| FormFields.AcceptKeys | src/components/form/fields/file-upload.tsx:73-85 | the last entry with a key decides that key's extension list |
| FormFields.SingleExtension | src/components/form/fields/file-upload.tsx:76-78 | '.ext' alone maps 'application/ext' to ['.ext'] |
| Sidebar.IsActive | src/components/layout/sidebar-nav.tsx:55 | active on the entry's own path and on every path that continues it with '/' |
| Sidebar.IsSettingsActive | src/components/layout/sidebar-nav.tsx:76 | settings is active only on its own path: the main rule without the sub-paths |
| Sidebar.SubpathActivates | src/components/layout/sidebar-nav.tsx:55 | any sub-path activates a main entry but not settings |
| Sidebar.SiblingDoesNotActivate | src/components/layout/sidebar-nav.tsx:55 | a path sharing only the prefix does not activate |
| Sidebar.Menu | src/components/layout/sidebar-nav.tsx:16-88 | Dashboard, Tools, History, then Settings, each flagged by its rule |
| Sidebar.AtMostOneActive | src/components/layout/sidebar-nav.tsx:16-88 | no path highlights two entries |
| Sidebar.HeadsOfWords | src/components/layout/sidebar-user.tsx:42-45 | the heads are the first characters of the non-empty words, in order |
| Sidebar.Initials | src/components/layout/sidebar-user.tsx:40-50 | at most two characters (scalar values, not code units; see Left out), none a lower-case ASCII letter: the heads of the name's words, or else the start of the e-mail |
| Sidebar.InitialsAreWordHeads | src/components/layout/sidebar-user.tsx:40-48 | the k-th initial is the upper-cased head of the k-th non-empty word |
| Sidebar.FirstAndLast | src/components/layout/sidebar-user.tsx:40-48 | 'first last' gives the two capitals |
| Sidebar.FormatCredits | src/components/layout/sidebar-user.tsx:33-38 | below 1000, the decimal string, which reads back as the number |
| Text.JoinSplit | src/components/schedule/cron-builder.tsx:102-123 | joining the pieces of a split restores the string |
| Text.SplitJoin | src/components/schedule/cron-builder.tsx:102-123 | splitting a join of separator-free pieces restores the pieces |
| Text.TrimEmptyIffBlank | src/components/chat/chat-interface.tsx:139 | the trimmed input is empty iff it is all white space, in JavaScript's sense |
| Text.UnicodeSpacesTrim | src/components/chat/chat-interface.tsx:139 | no-break, ideographic and line-separator spaces and the byte-order mark trim away |
| Text.ParseNatToString | src/components/layout/sidebar-user.tsx:37 | the decimal string of a number reads back as the number |
| Text.Utf16 | src/components/chat/chat-interface.tsx:153 | the UTF-16 code units JavaScript counts: at least one per character, and exactly the characters themselves in the Basic Multilingual Plane |
| Common.ToMapLastWins | src/components/form/fields/file-upload.tsx:74-84 | building a map from pairs, the last pair with a key decides its value |
| Common.KeptIndices | src/stores/favorite-store.ts:35-38 | the increasing positions of exactly the elements that pass the test |
| Common.FilterIsKept | src/stores/favorite-store.ts:35-38 | the k-th element of a filter is the element at the k-th kept position, so the filter keeps order |
| Common.ToggleTwice | src/components/form/fields/multi-select.tsx:41-48 | adding a new value and removing it restores the list |

The functions that drive the stream and the chat have no contract of their own. The lemmas in the table state what each one does:

- StreamController.OnMessage (src/lib/api/chat.ts:245-333): the `onmessage` handler. Its behaviour is stated by ContentStep, BeginEndStep, SignalsOnlyForward and FailureStep.
- StreamController.OnTransportError (src/lib/api/chat.ts:335-356): the `onerror` handler. Its behaviour is stated by TransportErrorMeaning.
- StreamController.OnTypingTimer (src/lib/api/chat.ts:228-243): one turn of the drain worker `processChunkQueue`. Its behaviour is stated by Burst, and by StepFifo and StepLedger.
- StreamController.OnPollTimer (src/lib/api/chat.ts:340-352): the completion poll. Its behaviour is stated by CompleteOnlyWhenDrained.
- StreamController.Step (src/lib/api/chat.ts:214-362): dispatches one event to the handlers above or to cleanup. StepInv, StepTerminal and StepLedger hold for it.
- StreamController.Run (src/lib/api/chat.ts:214-362): a sequence of events. RunInv, AtMostOneTerminal, QueueLedger and EveryChunkOnce hold for it.
- StreamController.Exchange (src/lib/api/chat.ts:189-363): the whole call, including the user lookup at lines 198-207. Its behaviour is stated by AuthGuard.
- ChatSend.React (src/components/chat/chat-interface.tsx:198-229): one stream callback of the chat page. Its behaviour is stated by CompleteRekeys, CompleteSaveFailureChangesNothing, ErrorShowsApology and ChunksAccumulate.
- ChatSend.ReactAll (src/components/chat/chat-interface.tsx:198-229): the callbacks of a whole run. Its behaviour is stated by CreditsUntouchedWithoutComplete, ChargedAtMostOnce and ChunksAccumulate.

The tools page, `src/app/(dashboard)/tools/page.tsx`, fetches at lines 62-79 with a query built from the store; ToolStore.FetchHonoursFilters and ToolStore.FetchKeepsPage above are about that fetch. The query itself is ToolStore.QueryOf, listed here because the table's source column cannot name a path with parentheses:

- ToolStore.QueryOf (lines 66-72): the page leaves an empty search and the category 'all' out of the query, and passes anything else on.

## Left out

- The transport is left out: the EventSource object, its URL, its credentials, and the browser's automatic reconnection. After the first transport error, later transport events are ignored.
- Timers are modelled as events: the 40 ms typing delay and the 100 ms poll. Their durations and the order in which they interleave with messages are chosen by the caller.
- The cleanup function returned by the stream is modelled as a `Cleanup` event that closes the stream. Awaiting the Supabase user lookup is modelled as a user id given as a parameter.
- `JSON.parse` is the `Payload` datatype: a parsed value or a malformed one. Parsing itself is not modelled.
- Console logging, `alert` and `confirm` are left out. The confirmation answer is a parameter.
- Floating point is left out:
  - numbers are integers;
  - dates and ratings are integer sort keys;
  - `toFixed` is not modelled.
- Sidebar.FormatCredits: requires credits below 1000, because the 'k' form above that uses floating-point division and `toFixed(1)`.
- Text.ToUpper, Text.ToLower: cover ASCII letters only. JavaScript's case mapping covers all of Unicode.
- Strings are sequences of Unicode scalar values, Dafny's `char`. JavaScript strings are sequences of UTF-16 code units. The two agree on text in the Basic Multilingual Plane and differ beyond it, where one character is two code units. `Text.Utf16` gives the code units.
- ChatSend.Title: slices 50 scalar values, where `slice(0, 50)` slices 50 code units. ChatSend.TitleUnits is the code-unit title, ChatSend.TitleOnBmp proves the two agree in the Basic Multilingual Plane, and ChatSend.TitleCutsSurrogatePair shows a case beyond it where they differ: the source keeps a lone surrogate there.
- Sidebar.Initials: `name[0]` and `slice(0, 2)` act on scalar values in the model and on code units in the source. For the name "😀 Bob" the source gives the lone high surrogate U+D83D followed by "B"; the model gives the emoji followed by "B".
- The zod validators are not modelled: string formats, number ranges and custom messages. A schema entry records only the field type and whether it is optional. The schedule form's schema is the `Valid` predicate.
- The `|| []` fallbacks for a missing response body (`response.data` in `getTools`) and for a missing `messages` array (`s.messages` in `addMessage`) are left out. The model's sequences are never undefined.
- `getTools` also computes `total` and `totalPages` from the unfiltered list. These values are never returned, so they are left out.
- The browser's time zone is a parameter.
- The favourite store's localStorage persistence is left out.
- The schedule's `inputData` is sent as an empty object, and its contents are not modelled.
- ChatSend.React: its own contract only says the input is kept. Each callback's effect is stated by the lemmas in the table.
- ChatSend.HandleSend: one press is modelled in two phases, up to the create request and after it; other interleavings of presses and server answers are not modelled. Once `setSendingMessage(true)` has run, the guard refuses every further press until a callback ends the send.
- Cron.SyncSettles: holds for values the sync effect itself sent. The first commit and the 'Every hour' and 'Every month' presets are the exceptions, shown under Findings.
- StreamController.QueueFifo: is stated for runs without begin; for runs with begin, StreamController.QueueLedger and StreamController.EveryChunkOnce state what happens to every chunk.
- StreamController.StepFifo: is stated for events other than begin; StreamController.StepLedger covers begin, which discards the queue.
- React's scheduling is modelled as the order in which the builder's two effects see state. Batching of state updates across renders is not modelled.
- The rendering is left out: icons, class names, layout, and the timestamp formatting of message bubbles.
- File type detection in the upload is left out. The dropzone's rejection is an input: the number of rejected files.

Two behaviours of the code are easy to miss; the model follows the code in both:

- An item whose content is the empty string is falsy, so it is not content. A stream that carries only such items ends with 'Connection lost', not with the empty-response error. The empty-response error happens only after `begin` clears a message, or after a truthy non-string value such as `[]` that prints as ''.
- `addToolCall` appends without de-duplication, so the same tool can be listed twice.

## Findings

| source | as written | input that shows it | evidently intended | confidence | as-written member | corrected member |
|---|---|---|---|---|---|---|
| src/components/schedule/schedule-list.tsx:26-41 | the list's description tests only minute, hour and day of week, never day of month or month | '0 0 1 * *', the builder's own 'Every month (1st at midnight)' preset, is listed as 'Daily at 00:00' | the same day-of-month and month test the builder's description makes at cron-builder.tsx:64, with such expressions shown raw | not executed | Cron.ListDescribeAsWritten (shown by Cron.MonthlyPresetShownAsDaily and Cron.ListIgnoresDayOfMonth) | Cron.ListDescribe (Cron.CorrectionOnlyNarrows proves it agrees everywhere else) |
| src/components/schedule/cron-builder.tsx:81-143 | on the first commit the sync effect runs on the initial state, before the value effect's updates show, so it sends the default weekday expression | editing a schedule whose expression is '30 14 * * *' sends '0 9 * * MON-FRI' to the form | the sync effect should read the builder the value effect produced, so opening a schedule never changes it | not executed | Cron.MountAsWritten (shown by Cron.MountOverwritesCustom) | Cron.Mount (never sends back a value outside the presets; Cron.MountQuietExceptTwo covers four presets) |
| src/components/schedule/cron-builder.tsx:25-143 | the sync effect compares the selection's expression with the value itself, and the selection cannot hold a '*' hour or a day of month | clicking 'Every hour' or 'Every month' sends back '0 0 * * *' | compare with what the value's own reading builds, so a preset is kept until a control changes | not executed | Cron.Sync (shown by Cron.HourlyPresetBecomesDaily and Cron.MonthlyPresetBecomesDaily) | Cron.SyncFixed (Cron.SyncFixedAfterValue: nothing is sent after the value effect; Cron.SyncFixedAgrees: it matches the code on every value the selection can hold) |
