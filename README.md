# event-tap in Dafny

event-tap keeps a registry of *taps* in an ordered transactional key/value store
(bolted). Each tap holds a JavaScript transform (`mapEvents`), a webhook URL and a
batch limit. A *runner* per tap does four things in a loop:

1. It polls an upstream event buffer for events after its checkpoint (`last_id`).
2. It hands the `[id, event]` pairs to the script.
3. It POSTs a non-empty result to the webhook.
4. It advances the checkpoint.

An HTTP server lists taps with cursor pagination and creates and deletes taps. At
start-up it launches a runner for every stored tap, and it keeps a table of cancel
functions (`tapCancels`). A client pages through the listing.

This project models that core and proves its properties:

- `Registry`: the store under `taps` as a value.
  - It holds the keys in iteration order and one record (`options`, `last_id`, `status`) per key.
  - Each transaction is one atomic replacement of that value, held by the class `Database`.
- `KeyOrder`: the byte-wise lexicographic order in which the store iterates keys.
- `Listing`: the page computed by `GET /taps?cursor=…`.
  - It covers the seek-then-skip-if-equal, the limit of 100, the cursor handed back, and the abort on undecodable options.
- `Client`: the client's paging loop against that page function.
  - Main result: the loop terminates and returns every tap exactly once, in key order, or fails exactly when some definition does not decode.
- `Webhook`: `Start`'s pre-flight checks and checkpoint load.
  - One iteration of `mainLoop` is a method of the class `Runner`, which holds `lastID`.
  - The spec function `Iteration` gives that iteration's outcome, and `Persist` gives its effect on the store.
  - `Run` chains iterations and `RunStore` chains their store effects; both are connected to `Runner.Loop`.
- `TapServer`: the newer `Server` handlers `list`, `create`, `delete` and `startTaps`.
  - Cancel functions are handle numbers. `cancelled` logs the ones invoked, in order.
- `LegacyServer`: `New` and the older inline `POST /taps` in server/server.go.
  - That handler starts the runner through the modelled `Webhook.Start`.

Everything outside the process is an input that the caller supplies:

- the event buffer's answer to a poll;
- the script engine's verdict on the code;
- what `mapEvents` and the export return;
- the outcome of the webhook request;
- whether each store transaction commits;
- how many looks at the context still find it live;
- the fresh uuid;
- whether `tap.Start` succeeds.

The model reproduces these behaviours of the code:

- **A poll failure falls through.** After its one-second wait, the iteration goes on with an empty batch and still calls `mapEvents`. If the transform returns something for no events, it may POST.
- **`updateLastID` never reports failure.** The in-memory checkpoint advances even when the `last_id` write did not commit. A restart then resumes from the older stored value and delivers the batch again.
- **An event without an id panics.** If a poll yields more events than ids, indexing `ids[i]` is an out-of-range panic.
- **`delete` keeps the table entry.** It invokes the tap's cancel function but never removes the entry from `tapCancels`.
- **A failed `startTaps` cancels everything it started.** Its deferred calls close over the named result `err`. On the first failure they cancel every context created during the scan, last first, including those already registered.

Two behaviours one might expect from a polling loop like this are not what the code does, and the model follows the code:

- A poll failure is not retried from the poll. The code does not `continue`; after the wait it falls through to the transform.
- A failed checkpoint write is not retried after a wait. In the code that branch is unreachable, because `updateLastID` always returns nil.

## Model

| member | source | states |
|---|---|---|
| Registry.CreateTap | server/handler_create.go:44-50 | the new store is well formed and has the root. Its keys are the old keys plus the new id, still in ascending order. The new record holds only the encoded options. Every other record is unchanged |
| Registry.DeleteTap | server/handler_delete.go:19-26 | the whole subtree of the id is gone, and the key leaves the iteration order. Every remaining record is unchanged |
| Registry.DeleteUndoesCreate | server/handler_delete.go:19-26 | deleting a freshly created tap restores the exact store from before the create |
| Registry.PutStatus | server/webhook/webhook.go:67-75 | only the tap's `status` changes. A write under a deleted tap changes nothing |
| Registry.PutLastId | server/webhook/webhook.go:106-115 | only the tap's `last_id` changes. A write under a deleted tap changes nothing |
| Registry.InitRoot | server/server.go:38-44 | afterwards the root map exists and the keys and records are unchanged. On a store whose root exists it is the identity, so initialisation can be repeated |
| Listing.Seek | server/handler_list.go:28 | the seek position is the first key not below the cursor: every key before it is smaller |
| Listing.StartIndex | server/handler_list.go:26-31 | the start position lies within the keys; what it means, seek then skip a key equal to the cursor, is given by `StartIndexSplits` and `StartIndexAfterKey` |
| Listing.StartIndexSplits | server/handler_list.go:26-31 | with a non-empty cursor, keys before the start position are at most the cursor and keys from it on are strictly greater. This holds whether or not the cursor is a stored key |
| Listing.StartIndexAfterKey | server/handler_list.go:27-31 | resuming from a stored key starts right after that key |
| Listing.Entries | server/handler_list.go:33-46 | a successful run of the decoding loop yields one entry per key; what each entry holds and when the run fails is given by `EntriesMeaning` |
| Listing.EntriesMeaning | server/handler_list.go:33-46 | decoding a run of keys succeeds exactly when every key in it decodes. It then gives one entry per key, in order, with the key as id and name and URL from the key's options. On failure it names the first key of the run, in key order, that does not decode |
| Listing.EntriesAppend | server/handler_list.go:33-46 | decoding two adjacent runs one after the other is decoding them as one run, failure included |
| Listing.EntriesErrSticks | server/handler_list.go:36-39 | a run that fails still fails with the same error when extended |
| Listing.Page | server/handler_list.go:14-58 | a page has at most 100 entries. A non-empty returned cursor means a full page, and the cursor is the id of its last entry |
| Listing.PageEntries | server/handler_list.go:33-46 | the entries are the consecutive keys from the start position, each with its key as id and name and URL from its options |
| Listing.PageAboveCursor | server/handler_list.go:26-31 | every entry lies strictly above a non-empty cursor, also one naming a deleted tap |
| Listing.PageSkipsNothing | server/handler_list.go:33-56 | every key from the start position is on the page or lies above the returned cursor |
| Listing.PageCursor | server/handler_list.go:47-56 | the returned cursor is empty exactly when fewer than 100 keys remained |
| Listing.PageFails | server/handler_list.go:33-39 | a page fails exactly when some definition in its window does not decode. The error names the first tap of the window, in key order, whose options do not decode |
| Listing.EntriesLastId | server/handler_list.go:40-46 | the last entry of a decoded run carries its last key as id, which is the key a full page hands out as its cursor |
| Listing.ExactlyFullLastPage | server/handler_list.go:47-56 | with exactly 100 keys remaining, the cursor is the last key and is non-empty. The next page is empty with an empty cursor |
| TapServer.ReadPage | server/handler_list.go:33-56 | the iterator loop, started at the seek position, yields exactly the page function's result |
| TapServer.Server.List | server/handler_list.go:12-70 | the handler answers exactly the page function for the current store, including its failure, and changes nothing |
| Client.PageExtends | client/list.go:17-28 | one round appends the page to a prefix of the key order. An empty cursor means the last key was reached. A non-empty one resumes strictly further on |
| Client.List | client/list.go:13-31 | the first request carries cursor "" and each later request carries the previous page's non-empty cursor (`Chain`). The loop stops at the first page with cursor "" or the first failing page, and its error is that page's. The result is exactly the decoding of all stored keys in key order (`Entries` over every key), so by `Listing.EntriesMeaning` it succeeds exactly when every definition decodes and then holds one entry per tap |
| Client.ChainExtend | client/list.go:27 | a request that resumes from the last page's non-empty cursor extends the chain of requests |
| Client.ChainResumes | client/list.go:17-28 | in a chain of requests, every request after the first carries the non-empty cursor of the page before it |
| Client.ListingInOrder | client/list.go:22 | a complete listing names the taps in strictly ascending order, hence none twice |
| Webhook.Preflight | server/webhook/webhook.go:22-65 | a runner is launched exactly when the options load and decode, the code compiles, `last_id` can be read, the program runs and `mapEvents` is defined. A refusal names the first failed check. The launch checkpoint is the stored `last_id`, or "" |
| Webhook.Start | server/webhook/webhook.go:22-65 | returns the pre-flight error and no runner, or no error and a fresh live runner with the decoded options and the loaded checkpoint |
| Webhook.PairEvents | server/webhook/webhook.go:143-148 | the batch has one `[ids[i], events[i]]` pair per event, in order |
| Webhook.DeliveryError | server/webhook/webhook.go:77-104 | a delivery succeeds exactly on a response with status 200 or 202. Every other outcome is an error |
| Webhook.Iteration | server/webhook/webhook.go:126-205 | the loop is left only when a look at the context finds it cancelled. Nothing is polled exactly when the first look finds it cancelled. A successful poll whose events all have ids always goes on to the batch. A panic happens exactly when events outnumber ids. A poll failure writes its prefixed status first and never moves the checkpoint. When the wait after it sees a live context, the iteration goes on with the empty batch, so `mapEvents` runs on `[]` and a POST is possible; otherwise it has no batch. Without a batch nothing is POSTed, the checkpoint stays, and no status is written beyond the poll's. With one, the rest of the iteration is `BatchStep` on the polled ids and events. A retry needs a live look after each failure |
| Webhook.BatchStep | server/webhook/webhook.go:143-205 | the batch pairs each event with its id, in order. A POST is made exactly for a non-empty transform output, and carries it. The checkpoint moves to the last id exactly when the batch had ids and nothing failed; empty output still moves it. A transform, export or delivery failure writes its one prefixed status and leaves the checkpoint alone. Each failure then retries exactly when the wait sees a live context. A batch that goes through every stage writes no status and goes on |
| Webhook.Persist | server/webhook/webhook.go:190-204 | an iteration changes only its own tap's record and never its options. `last_id` becomes the new checkpoint only if that write committed. `status` becomes the last status written, if those writes committed |
| Webhook.PutStatuses | server/webhook/webhook.go:67-75 | successive status writes leave the last status, and touch nothing else |
| Webhook.Runner.UpdateStatus | server/webhook/webhook.go:67-75 | the status is written if the transaction commits; a failure changes nothing and is not reported |
| Webhook.Runner.UpdateLastID | server/webhook/webhook.go:106-115 | `last_id` is written if the transaction commits, and no error is returned either way |
| Webhook.Runner.Step | server/webhook/webhook.go:126-205 | one pass of the loop body. It returns the `Iteration` result for the runner's checkpoint and batch limit. The local checkpoint becomes that result's, the runner stays live exactly when the loop goes on, and the store becomes `Persist` of that result |
| Webhook.Runner.Retry | server/webhook/webhook.go:152-159 | a failed stage appends its status, written if the transaction commits, and the runner stays live exactly when the wait sees a live context; the checkpoint is kept |
| Webhook.Runner.HandleBatch | server/webhook/webhook.go:143-205 | the part after the poll agrees with its spec function, both in result and in store effect |
| Webhook.Runner.Loop | server/webhook/webhook.go:126-209 | repeated iterations yield `Run` over the iterations' inputs and end with the runner live exactly when no iteration left the loop. The store becomes `RunStore`: each iteration's `Persist`, in order, up to the one that left the loop |
| Webhook.Run | server/webhook/webhook.go:126-207 | a run of the loop makes at most one POST per iteration; its step and stopping behaviour are given by `RunSnoc` and `StoppedStays` |
| Webhook.RunStore | server/webhook/webhook.go:126-209 | the store after a run keeps its key set and every other tap's record, and this tap's options. Only this tap's `status` and `last_id` can change |
| Webhook.RunStoreSnoc | server/webhook/webhook.go:126-127 | one more iteration of a run that has not stopped adds exactly that iteration's store effect |
| Webhook.StoppedStoreStays | server/webhook/webhook.go:127 | once the loop has been left, later inputs write nothing |
| Webhook.RunSnoc | server/webhook/webhook.go:126-127 | a run that has not stopped is extended by exactly one more iteration from its checkpoint |
| Webhook.StoppedStays | server/webhook/webhook.go:127 | once the loop has been left, later inputs change nothing |
| Webhook.FilteredIteration | server/webhook/webhook.go:175-204 | an iteration whose script filters out a non-empty batch makes no POST, continues, and moves the checkpoint to the batch's last id |
| Webhook.FilteredStep | server/webhook/webhook.go:175-204 | a filtering iteration after a run that is still going adds no POST, does not stop, and leaves the checkpoint at the batch's last id |
| Webhook.FilterSafety | server/webhook/webhook.go:126-207 | over any number of non-empty batches that the script filters out completely, no POST is made, the loop never stops, and the checkpoint is the last id of the last batch |
| Webhook.OnlyCancelStops | server/webhook/webhook.go:126-207 | with every look at the context finding it live and no event lacking an id, the loop never stops, whatever fails |
| Webhook.RestartResumesFromStore | server/webhook/webhook.go:39-49 | a runner started after an iteration resumes from that iteration's checkpoint if the `last_id` write committed. Otherwise it uses the older stored one, so that batch is delivered again |
| TapServer.Server.Create | server/handler_create.go:18-80 | an undecodable body, a failed id generation or a failed marshal gives 400 and changes nothing. A failed write gives 500 and changes nothing. Otherwise the store gains exactly the new tap. If the tap does not start, the answer is 500, this request's cancel is invoked, the table is untouched and the definition stays. On success, `tapCancels[id]` is set, nothing is cancelled and the answer is 201 with the id |
| TapServer.Server.Delete | server/handler_delete.go:14-48 | an unknown id gives 404 and a failed commit 500, both changing nothing. Otherwise the subtree goes and the answer is 204. The tap's cancel is invoked exactly when the table has it. The table itself never changes |
| TapServer.Server.StartTaps | server/start_webhooks.go:11-33 | taps are started in ascending key order, up to and including the first failure. The error names that key. A new context is made per started tap and registered when it starts. On failure every context made in the scan is cancelled, last first. The store is not modified |
| TapServer.FirstFailure | server/start_webhooks.go:21-24 | the scan stops at the first key whose tap does not start: every key before it starts, and the key it stops at does not |
| TapServer.Registered | server/start_webhooks.go:26-28 | the table writes of the scan only add entries, and only for the scanned keys; `RegisteredMeaning` gives each key's handle |
| TapServer.RegisteredMeaning | server/start_webhooks.go:26-28 | after the scan each started key has its own handle in the table, and other entries keep theirs |
| TapServer.RegisteredBelow | server/start_webhooks.go:14-28 | the scan hands out only the handles it created, so every registered handle stays below the next one |
| TapServer.DeletedNotListed | server/handler_delete.go:19-26 | after a delete, no page from any cursor lists the tap |
| TapServer.CreatedIsListed | server/handler_create.go:44-50 | after a create, a successful full listing contains the new tap with its name and URL |
| LegacyServer.New | server/server.go:31-48 | a failed buffer client or a failed initialising write yields its error, no server and an unchanged store. Otherwise the root map exists, created only if absent |
| LegacyServer.Server.Post | server/server.go:52-103 | the same 400 and 500 answers as the newer handler before the write. After the write, `Webhook.Start` decides the outcome: 201 with the id and a runner starting at the beginning of the stream, or 500 with the definition still stored |

## Left out

- I/O is not modelled: HTTP serving and routing, the HTTP client plumbing in client/, JSON encoding and decoding, uuid generation, logging and the one-second waits (modelled as no-op waits). Their outcomes are inputs. A stored definition is either the encoding of a definition or bytes that do not decode.
- The JavaScript engine (goja) is out of scope, being foreign code. Its verdict on the code and the results of `mapEvents` and of the export are inputs. Their dependence on script state across iterations is therefore arbitrary.
- Concurrency is not modelled: goroutines, the mutex `s.mu` and in-flight cancellation. Cancellation is a count of looks at the context that still find it live, and each handler runs as one sequential step.
- server/tap, the successor runner that the newer handlers call, is not part of this model; its success is an input. The newer server's constructor is not part of this model either.
- The CLI, main.go, the Prometheus collector and the test harness are out of scope.
- The client's request is not modelled. The query is assigned to `RawPath` at client/list.go:42, so it is not claimed that the cursor reaches the server. `Client.List` is modelled against the page function directly.
- A read transaction that cannot be opened is not modelled (for `list`, the pre-flight's options read and `startTaps`); only its effect is. A failing `last_id` read is an input to `Webhook.Preflight`.
- Webhook.Iteration: a failed poll is assumed to return no ids and no events. The event buffer's client is not part of this model.
- Webhook.Persist: the status writes of one iteration (after a failed poll, webhook.go:134, and after a failed stage, webhook.go:153, 166 or 180) are separate transactions in the code, but one flag decides whether they commit, so they commit or fail together. The case where one commits and the other fails is not modelled.
- Webhook.Iteration: the `updating last id failed` branch is not represented. It is dead code because `updateLastID` always returns nil.
- Upstream ordering is not modelled: checkpoints are opaque strings, so it is not stated that the checkpoint only ever moves forward in the stream.
- The store's iteration order is modelled as code-point order on strings. This matches the byte order of their UTF-8 encodings; the byte encoding itself is not modelled.
- Webhook.Runner.Step: a panic (an event without an id) stops only this runner here. In the code the unrecovered panic in the runner's goroutine ends the whole process, every runner and the server with it.
- LegacyServer.New: its two error texts stop at "could not create buffer client" and "could not initialize db" and leave out the wrapped `: <cause>`. The cause comes from the buffer client or the store, which are inputs here.
- TapServer.Server.StartTaps: the error text stops after the key and leaves out the wrapped `: <cause>`. The cause comes from server/tap, which is not part of this model, so whether a tap starts is a yes/no input.
