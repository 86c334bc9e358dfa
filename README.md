# Agrow offline queue and client-side updaters, modelled in Dafny

Agrow is a mobile app for cataloguing succulent "stocks", arranging them on shelves and
sharing posts. This project models the parts of its client and middleware code that carry
real logic, and proves properties of them:

- **Offline write queue** (`offline_queue.dfy`). Failed network writes are stored as one
  persisted list under the key `offline_queue`. `enqueue` appends, `dequeue` removes the head,
  `peekQueue` reads a snapshot and `clearQueue` removes the key. The class `QueueStore`
  holds what the key stores, with `None` for an absent key, which reads as the empty list.
  Pure step functions specify each operation, and the FIFO property is proved on them.
- **Sync pass** (`sync_service.dfy`). `processQueue` takes a snapshot, clears the store and
  walks the snapshot in order. Each operation gets up to `MAX_RETRIES = 3` attempts and
  stops at the first success. An operation whose attempts all fail is reported once to the
  failure endpoint, and the user is asked whether to retry it; Retry puts it back on the
  queue. Three inputs stand in for the outside world: what each `fetch` does
  (`network(i, k)`, for snapshot position `i` and attempt `k`), what the failure report's
  `fetch` does, and the user's answer. The connectivity listener runs a pass only when
  `isConnected` is true.
- **Rate limiter** (`rate_limiter.dfy`). This is a fixed-window limiter keyed by client IP.
  The clock `now` is a parameter.
- **NFC scan history** (`nfc_history.dfy`). A most-recent-first list in which each id
  appears once.
- **Open Graph meta builder** (`ogp.dfy`). It builds the title, description and optional
  image meta lines of a post.
- **Stock list store** (`stock_context.dfy`). `addStock` appends a record under an
  increasing id, and `setParent` re-links records.
- **Screen handlers.** `new_stock_screen.dfy` covers image add and remove, submit
  validation and comma-separated tag parsing. `search_screen.dfy` covers duplicate-free tag
  insertion, the empty-input suggestion rule and the sort toggle. `notifications_screen.dfy`
  covers mark-read and the unread count.
- **Shared helpers.** `text.dfy` holds `split`/`join` with one-character separators and the
  decimal rendering of integers. `wrappers.dfy` holds `Option`.

## Model

| member | source | states |
|---|---|---|
| OfflineQueue.EnqueueAllAppends | offlineQueue.ts:21-25 | enqueuing a list of operations leaves the stored queue equal to the old queue followed by exactly that list |
| OfflineQueue.DequeueTimesTakesPrefix | offlineQueue.ts:27-32 | n dequeues on a queue of at least n entries return its first n entries oldest first and leave exactly the rest |
| OfflineQueue.Fifo | offlineQueue.ts:21-32 | enqueuing op1..opN on a fresh key and dequeuing N times yields op1..opN in order and an empty queue |
| OfflineQueue.QueueStore.constructor | offlineQueue.ts:12-15 | a never-written key reads as the empty queue |
| OfflineQueue.QueueStore.Enqueue | offlineQueue.ts:21-25 | the stored queue becomes the old queue followed by `op`; earlier entries unchanged |
| OfflineQueue.QueueStore.Dequeue | offlineQueue.ts:27-32 | non-empty: returns the old head and leaves exactly the old tail; empty: returns nothing and the queue stays empty |
| OfflineQueue.QueueStore.PeekQueue | offlineQueue.ts:34-36 | returns the current contents (the empty list for an absent key) and changes nothing |
| OfflineQueue.QueueStore.ClearQueue | offlineQueue.ts:38-40 | the key is removed, the queue then reads as empty, and clearing an empty queue leaves what it reads unchanged |
| SyncService.NonOkIsFailure | syncService.ts:8-13 | an attempt succeeds exactly on an ok (2xx) response; a non-ok response fails with its status, just as a thrown error fails |
| SyncService.SendOperation | syncService.ts:8-13 | `sendOperation` returns normally exactly on a 2xx response; a non-ok status throws `Request failed: <status>` and a thrown fetch error passes through |
| SyncService.ErrorTextDeterminesStatus | syncService.ts:11-20 | the error text in the failure report determines the failing status: different statuses never give the same text |
| SyncService.Handle | syncService.ts:30-47 | one operation gets its attempt count; it is escalated exactly when the last attempt fails, and then the report goes to the sync-failure endpoint carrying the operation and the last attempt's error, with the user's answer |
| SyncService.AttemptsFrom | syncService.ts:33-40 | the retry loop's attempt count lies between 1 and MAX_RETRIES, every attempt before the last fails, and stopping early means the last attempt succeeded |
| SyncService.AttemptsBounded | syncService.ts:33 | every operation gets at least one and at most MAX_RETRIES = 3 attempts |
| SyncService.FirstSuccessCutoff | syncService.ts:33-40 | if attempt k is the first success, exactly k + 1 attempts are made |
| SyncService.ExhaustedIffAllFail | syncService.ts:33-41 | the operation ends unsuccessful exactly when all MAX_RETRIES attempts fail, and then all of them were made |
| SyncService.HandleEscalatesIffAllFail | syncService.ts:30-47 | one failure report and one prompt happen for an operation exactly when all three attempts fail; the report carries that operation |
| SyncService.RequeuedOnlyRetried | syncService.ts:43-46 | an operation goes back on the queue only if it was escalated and the user chose Retry |
| SyncService.DeliverWithRetries | syncService.ts:31-40 | the inner loop stops at the first success or after 3 attempts, matching the attempt-count specification; on failure the last error is the last attempt's |
| SyncService.HandleOperation | syncService.ts:30-47 | one operation is handled as specified, and the store changes only by re-enqueuing that operation when the user answers Retry |
| SyncService.ProcessQueue | syncService.ts:27-49 | the store is emptied before delivery; exactly the snapshot is handled, in order, one report per operation; afterwards the store holds only the retried operations; all of this holds for every outcome of the failure reports' own fetches (`notifier`), so a failed report never stops the pass |
| SyncService.OnConnectivityChange | syncService.ts:51-57 | a pass runs exactly when `isConnected` is true, handling every snapshot operation in order as `Handle` says and leaving only the retried ones stored; otherwise the store is untouched |
| RateLimiter.Step | middleware/rateLimiter.ts:19-33 | one request always leaves an entry for its IP, adds no other key, and calls next exactly when the new count is within the limit |
| RateLimiter.StepEffect | middleware/rateLimiter.ts:21-33 | a request creates or restarts its IP's entry (count 0, expiry now + windowMs) when absent or expired, adds exactly 1, touches no other IP, and gets 429 "Too many requests" exactly when the count exceeds the limit |
| RateLimiter.BurstInWindow | middleware/rateLimiter.ts:23-33 | requests at or before the entry's expiry (equality still counts as inside) pass exactly while the running count stays within the limit |
| RateLimiter.FirstLimitPass | middleware/rateLimiter.ts:22-33 | for a new IP, within one window, the first `limit` requests call next and every later one gets 429 |
| RateLimiter.ResetAfterWindow | middleware/rateLimiter.ts:23-26 | after the window has passed, the count restarts at 1 with a new expiry and the request passes |
| RateLimiter.Limiter.constructor | middleware/rateLimiter.ts:17-18 | a new limiter keeps its limit and window and has seen no IP |
| RateLimiter.Limiter.Default | middleware/rateLimiter.ts:17 | the default limiter allows 60 requests per 60000 ms |
| RateLimiter.Limiter.Handle | middleware/rateLimiter.ts:19-34 | the handler performs exactly one step: it updates only the caller's entry and gives exactly one outcome, next or 429 |
| RateLimiter.AllowsUnderLimit | middleware/__tests__/rateLimiter.test.ts:22-32 | with limit 2, two requests both call next |
| RateLimiter.BlocksOverLimit | middleware/__tests__/rateLimiter.test.ts:34-45 | with limit 1, the second request gets 429 with error "Too many requests" |
| RateLimiter.ResetsAfterWindow | middleware/__tests__/rateLimiter.test.ts:47-59 | with limit 1 and a 1000 ms window, a request 1001 ms later passes again |
| NfcHistory.WithoutId | utils/nfcHistory.ts:13 | filtering keeps exactly the entries whose id differs |
| NfcHistory.WithoutIdLength | utils/nfcHistory.ts:13 | filtering removes exactly the occurrences of the id and keeps every other id's count |
| NfcHistory.WithoutIdDistinct | utils/nfcHistory.ts:13 | filtering keeps distinct ids distinct |
| NfcHistory.WithoutIdKeepsOrder | utils/nfcHistory.ts:13 | surviving entries keep their relative order (filter distributes over concatenation) |
| NfcHistory.WithoutAbsentId | utils/nfcHistory.ts:13 | with no entry for the id, filtering changes nothing |
| NfcHistory.AddedProperties | utils/nfcHistory.ts:13-14 | after adding, the head is {id, now}, id occurs once, length is old length minus old occurrences plus one, other ids keep their counts, and distinct ids stay distinct |
| NfcHistory.HistoryStore.constructor | utils/nfcHistory.ts:19-20 | with nothing stored the history reads as `[]` |
| NfcHistory.HistoryStore.GetHistory | utils/nfcHistory.ts:18-21 | returns the stored list, or [] when nothing is stored |
| NfcHistory.HistoryStore.AddHistory | utils/nfcHistory.ts:10-16 | the stored list becomes {id, now} followed by the old entries with other ids, in their order |
| Ogp.GenerateOGPMeta | utils/ogp.ts:3-13 | the output starts with the title line |
| Ogp.MetaLayout | utils/ogp.ts:3-13 | the output is the title line, then the description line with the text verbatim, then an image line with images[0] exactly when that image is non-empty; single newlines between lines and none at the end |
| Ogp.MetaLineCount | utils/ogp.ts:5-12 | for newline-free text and image, splitting at newlines gives exactly 2 lines without an image and 3 with one, title first and description second |
| Ogp.LaterImagesIgnored | utils/ogp.ts:4 | images after the first never affect the output |
| Ogp.WithImageExample | utils/__tests__/ogp.test.ts:5-11 | post {1, "Hello", ["img.jpg"]} produces the title, description and image lines the test expects |
| Ogp.WithoutImageExample | utils/__tests__/ogp.test.ts:13-19 | post {2, "No image", []} produces the title and description lines and no image line |
| Text.IntToDecimalInjective | utils/ogp.ts:6 | different integers render as different text |
| Text.NatToDecimal | utils/ogp.ts:6 | the rendered number is non-empty decimal digits without a leading zero |
| Text.DecimalRoundTrip | utils/ogp.ts:6 | reading the rendered digits back gives the number |
| Text.SplitJoin | utils/ogp.ts:12 | joining newline-free lines with a separator and splitting again gives the lines back |
| Text.JoinSplit | utils/ogp.ts:12 | splitting a string and joining the pieces with the same separator gives the string back |
| Text.Split | app/stock/new.tsx:115 | `split(',')` yields at least one piece, and no piece contains the separator |
| Text.SplitConcat | app/stock/new.tsx:115 | splitting `a + sep + b` gives the pieces of `a` followed by the pieces of `b` |
| StockContext.WithParent | StockContext.tsx:30-32 | the new list has the same length, ids and names; records with the id get the new parent and every other record is unchanged |
| StockContext.SetParentUnknownId | StockContext.tsx:31 | setParent with an id not in the list leaves the list unchanged |
| StockContext.SetParentIdempotent | StockContext.tsx:31 | applying setParent twice equals applying it once |
| StockContext.SetParentKeepsIds | StockContext.tsx:31 | setParent keeps ids strictly increasing |
| StockContext.StockStore.constructor | StockContext.tsx:21-24 | the list starts empty with nextId at 1 |
| StockContext.StockStore.AddStock | StockContext.tsx:26-28 | appends exactly {id: nextId, name, parent_id}, keeps earlier records, and advances nextId by 1; ids stay strictly increasing and below nextId |
| StockContext.StockStore.SetParent | StockContext.tsx:30-32 | the list is re-linked as WithParent says, nextId is unchanged, and the id invariant holds |
| NewStockScreen.Trim | app/stock/new.tsx:116 | the trimmed text is a contiguous part of the input with only trimmed characters before and after it, and has no trimmed character at either end; it equals the input when the input has none at its ends |
| NewStockScreen.TrimAll | app/stock/new.tsx:116 | each segment is trimmed in place |
| NewStockScreen.NonEmpty | app/stock/new.tsx:117 | exactly the non-empty segments survive: every survivor is a non-empty segment and every non-empty segment survives |
| NewStockScreen.ParseTags | app/stock/new.tsx:114-117 | no parsed tag is empty or holds a comma |
| NewStockScreen.ParseTagsSegment | app/stock/new.tsx:114-117 | a comma-free text gives its trimmed self as its one tag, or no tag when that is empty |
| NewStockScreen.ParsedTagsWellFormed | app/stock/new.tsx:114-117 | every parsed tag is non-empty, has no comma, and has no whitespace at either end |
| NewStockScreen.ParseTagsInOrder | app/stock/new.tsx:114-117 | the tags of `a,b` are the tags of `a` followed by those of `b`; with ParseTagsSegment this fixes the tag list of every input, segment by segment in order |
| NewStockScreen.WithoutImage | app/stock/new.tsx:69 | removing keeps exactly the images with other ids |
| NewStockScreen.WithoutImageConcat | app/stock/new.tsx:69 | removal distributes over concatenation, so the kept images stay in their relative order and number |
| NewStockScreen.RemoveUnknownImage | app/stock/new.tsx:68-70 | removing an id no image has changes nothing |
| NewStockScreen.Uris | app/stock/new.tsx:123 | the uris come in the images' order |
| NewStockScreen.AddStockForm.constructor | app/stock/new.tsx:29-32 | the form starts with an empty name, public, no images, no tags |
| NewStockScreen.AddStockForm.AddPickedImage | app/stock/new.tsx:43-49 | a picked image is appended at the end; a cancelled pick changes nothing |
| NewStockScreen.AddStockForm.RemoveImage | app/stock/new.tsx:68-70 | every image with the id is removed and the others stay in order |
| NewStockScreen.AddStockForm.HandleAdd | app/stock/new.tsx:105-124 | an empty trimmed name is rejected first, then a missing image; otherwise the trimmed name, the parsed tags and the image uris in order are submitted; it rejects exactly when the button is disabled (lines 144, 147) |
| SearchScreen.Toggled | screens/Search.tsx:103 | the toggle always changes the order |
| SearchScreen.ToggleTwice | screens/Search.tsx:103 | toggling twice is the identity |
| SearchScreen.WithTag | screens/Search.tsx:41-43 | the tag is in the result, nothing else is added, and every earlier tag keeps its place |
| SearchScreen.WithTagKeepsNoDuplicates | screens/Search.tsx:41-43 | tags stay duplicate-free |
| SearchScreen.TagSearch.constructor | screens/Search.tsx:14-18 | the screen starts with empty input, suggestions and tags, ordered by updated |
| SearchScreen.TagSearch.AddTag | screens/Search.tsx:40-46 | a present tag leaves the tags unchanged, an absent one is appended, and the input and suggestions are always cleared |
| SearchScreen.TagSearch.OnTagInputChanged | screens/Search.tsx:22-28 | empty input clears the suggestions and issues no fetch; otherwise the input is fetched |
| SearchScreen.TagSearch.ToggleOrder | screens/Search.tsx:103 | the order flips between updated and name and nothing else changes |
| NotificationsScreen.MarkRead | screens/Notifications.tsx:39-41 | length and order are kept; items with the id become read and all others are unchanged |
| NotificationsScreen.UnreadItems | screens/Notifications.tsx:43 | exactly the unread items are kept |
| NotificationsScreen.UnreadItemsConcat | screens/Notifications.tsx:43 | the filter distributes over concatenation, so unread items keep their order and number |
| NotificationsScreen.Unread | screens/Notifications.tsx:43 | `unread` is the number of positions holding an item whose `read` is false |
| NotificationsScreen.MarkReadEffect | screens/Notifications.tsx:40 | after marking, every item with the id is read and every other item is as before |
| NotificationsScreen.MarkReadIdempotent | screens/Notifications.tsx:40 | marking twice equals marking once |
| NotificationsScreen.MarkReadUnknownId | screens/Notifications.tsx:40 | marking an unknown id changes nothing |
| NotificationsScreen.MarkReadUnread | screens/Notifications.tsx:40-43 | marking lowers `unread` by exactly the unread items with that id, so it never increases |

## Left out

- The code does not skip corrupt stored records, does not serialise read-modify-write
  cycles on the stored queue, does not stop a pass when connectivity drops, has no
  per-attempt timeout or in-flight partition, and does not deduplicate operations by id.
  The model has none of these either.
- Asynchrony and concurrency are left out. All steps run in sequence. The model does not
  cover overlapping sync passes (the listener has no guard), read-modify-write races on the
  stored queue and history, or the `active` flag that drops stale suggestion responses.
- The prompt's Retry callback runs later in the app. In the model, the re-enqueue happens
  at that operation's turn in the pass.
- Storage is modelled as a value, `None` when the key is absent. Left out: JSON
  (de)serialisation, `JSON.parse` throwing on corrupt data, storage write failures and
  durability across restarts.
- `fetch` is an input. For the sync pass it is the `network` oracle. For the failure report
  its outcome is an input that the pass ignores, which models the swallowed error.
  HTTP itself, headers and bodies are not modelled.
- The NetInfo subscription is left out. The model keeps only the rule that a state with
  `isConnected` true starts a pass.
- `Date.now()` is a parameter: the limiter's `now`, the history's `now`, and the image id's
  `now` text.
- `OfflineOperation.retries` is carried but never read, as in the code.
- `nextId` is a module-level variable in the code, so every provider instance shares it. The
  model keeps it in the same object as one provider's list.
- Rendering, navigation and alerts are left out. So are the alert shown after `addStock`
  returns, the API's `addStock` (an external call), the suggestion response handling, and
  the notification permission and push-token effect.
- Stock tree acyclicity is not claimed. `setParent` does not enforce it.
- Text.NatToDecimal: renders integers only. JavaScript's exponent notation from 1e21 up
  and its rounding above 2^53 are not modelled.
- NewStockScreen.Trim: uses the ECMAScript WhiteSpace and LineTerminator code points with
  the Unicode space separators listed explicitly. A JavaScript engine built on another
  Unicode version may differ.
- NewStockScreen.AddStockForm.AddPickedImage: stands for both `pickImage` and `takePhoto`
  (lines 35-66). The picker becomes an optional uri, and the picker options are not modelled.
