# Events app: list reconciliation rules

This project models the list-reconciliation rules of the AppSync events
sample app for iOS. The app has three screens, and each keeps its own copy
of the data shown or updates the client's cached result of the list query:

- **Event list** (`EventListViewController`). It loads the list page by
  page. A new load is refused while the guard flag is raised. Each fetched page
  is merged into `eventList`: the list is cleared first on a cache-and-fetch
  load with no cursor, then every fetched non-nil event whose id is not
  already listed is appended. The `nextToken` cursor is kept. The delete
  swipe filters the cached list by id (optimistic update) and removes the
  swiped row once the server confirms.
- **Add event** (`AddEventViewController`). It checks that the four fields
  are present and non-empty. It adds a placeholder whose id is `TEMP-`
  followed by a UUID to the cached list. When the server answers, it
  replaces every row with that id by the server's event at the tail. On
  every path it pops itself and flags the list for reload.
- **Event details** (`EventDetailsViewController`). It refetches the event.
  It merges comments pushed by a subscription into the cached event. It
  posts new comments. On leaving, it writes the event back into the list
  row it was opened from.

The SDK's cache is modelled as a value. `Types.ListData` is the cached
list-query result. Every optional link of the Swift types is an `Option`,
so each optional link of the result data is a case the model handles. Each cache update
block is a function from `ListData` to `ListData`. The list and details
screens are classes whose methods update the same fields the Swift code
updates. The add-event screen keeps no state the model needs: its tap is the
function `AddNewPost` and its completion the method `AddCompleted`. Each
async completion is a separate method that receives what the code reads of
the callback: the error flag and the result, or for the delete only whether
there is a result. The subscription callback is the function `OnNewComment`. `UUID()` and `Date().description` are parameters.

Four behaviours of the code are proved as they are, not corrected:

- A failed fetch completion leaves `isLoadInProgress` as it was. If no
  other completion of that load is outstanding, the flag stays raised and
  every later load from that screen is refused (`FetchCompleted`,
  `FetchAllEventsUsingCachePolicy`). A cache-and-fetch load whose cache half
  already lowered the flag keeps it lowered when its server half fails.
- Confirming a create twice appends the server's row twice
  (`ReconcileTwiceDuplicates`).
- Merging a comment into an event that already holds it appends a second
  copy: there is no duplicate check (`PushTwiceDuplicates`).
- A confirmed delete removes the row at the swiped index, not the swiped
  event (`DeleteCompleted`). If an earlier delete shifted the list in
  between, another row goes: from `[A, B, C, D]`, deleting B at row 1 and C
  at row 2 leaves `[A, C]`.

A generalized design for this pattern would have rollback on failure,
idempotent confirmation, duplicate-free pushes and a pending flag on
placeholders. The code has none of these. The model follows the code: a
failed create keeps its placeholder, and nothing is deduplicated except a
fetched page against the rows already listed.

Files: `wrappers.dfy` (Option), `types.dfy` (the GraphQL result shapes),
`items.dfy` (the id set, the id filter and the fresh-item filter, with
their lemmas), `eventlist.dfy`, `addevent.dfy`, `eventdetails.dfy` (one
module per screen).

## Model

| member | source | states |
|---|---|---|
| `Items.IdsOf` | EventsApp/EventListViewController.swift:114 | every non-nil entry's id is in the set, and every id in the set belongs to some non-nil entry |
| `Items.WithoutId` | EventsApp/EventListViewController.swift:183 | the filtered list is no longer than the input, holds only input entries the filter keeps (nil entries or other ids), and holds no entry with the id |
| `Items.FreshItems` | EventsApp/EventListViewController.swift:114-120 | an event is in the result exactly when it is a non-nil entry of the page and its id is not among the known keys |
| `Items.WithoutIdAppend` | EventsApp/AddEventViewController.swift:121 | filtering a concatenation concatenates the filtered parts, so relative order is kept |
| `Items.WithoutIdIdentity` | EventsApp/AddEventViewController.swift:121 | filtering by an id that no entry carries returns the list unchanged |
| `Items.WithoutIdCount` | EventsApp/EventListViewController.swift:183 | every kept entry occurs as often as before; an entry with the id occurs zero times |
| `Items.WithoutIdSubsequence` | EventsApp/EventListViewController.swift:183 | the filtered list is a subsequence of the input: nothing is reordered |
| `Items.FreshItemsAppend` | EventsApp/EventListViewController.swift:119-120 | one page split in two and filtered against one key set gives the fresh items of each part in order; pages merged one after another are filtered against a growing key set instead |
| `Items.FreshItemsCount` | EventsApp/EventListViewController.swift:114-120 | duplicates inside one page are not removed: a new event appears as often as the page holds it; one with a known id does not appear |
| `Items.WrappedCount` | EventsApp/EventListViewController.swift:122 | appending the non-optional new items to the optional list keeps every event's count |
| `Items.FreshItemsSubsequence` | EventsApp/EventListViewController.swift:115-120 | the new items, in the list's optional form, are a subsequence of the page: fetched order is kept |
| `Items.FreshItemsUnique` | EventsApp/EventListViewController.swift:119-120 | a page with no repeated id yields fresh items with no repeated id |
| `EventList.PageItems` | EventsApp/EventListViewController.swift:115-118 | the fetched items are present exactly when the data, the list query and its items all are, and are then those items |
| `EventList.PageToken` | EventsApp/EventListViewController.swift:126 | the new cursor is absent with no data or no list query, and otherwise is the query's cursor, possibly nil |
| `EventList.ClearsList` | EventsApp/EventListViewController.swift:110 | a load that follows a cursor never clears, nor does a refresh or a cache-only load; a cache-and-fetch load with no cursor always clears |
| `EventList.Merged` | EventsApp/EventListViewController.swift:110-122 | the prior rows (none when cleared) stay as a prefix in order; an event occurs among the rows after them exactly when it is a non-nil event of the page whose id is not among the prior ids; with no page the list is only cleared or kept |
| `EventList.MergedTail` | EventsApp/EventListViewController.swift:114-122 | the rows after the prior ones hold no nil entry, are a subsequence of the page (fetched order), and hold each new-id event exactly as often as the page does and a known-id event not at all |
| `EventList.MergedUnique` | EventsApp/EventListViewController.swift:114-122 | if the prior rows and the page each have unique ids, the merged list has unique ids |
| `EventList.RefreshKeepsRows` | EventsApp/EventListViewController.swift:110-112 | a fetch with the refresh policy never clears: all prior rows stay in place, even with a nil cursor |
| `EventList.NeedsNextPage` | EventsApp/EventListViewController.swift:223-225 | true exactly when no load runs, the row is at or past the last one, and the cursor is present and non-empty |
| `EventList.RemoveEvent` | EventsApp/EventListViewController.swift:181-185 | the list query and its items stay present or absent as they were, the cursor is kept, and the items left hold no event with the id and are no more than before |
| `EventList.RemoveEventSpec` | EventsApp/EventListViewController.swift:181-185 | the optimistic delete leaves no cached event with the id, keeps every other entry with its count and order, keeps the cursor, and is a no-op when the list query or its items are absent |
| `EventList.EventListViewController.constructor` | EventsApp/EventListViewController.swift:30-37 | no cursor, no load running, no reload pending, opened index -1, empty list |
| `EventList.EventListViewController.ViewDidLoad` | EventsApp/EventListViewController.swift:85 | starts a cache-and-fetch load from the current cursor unless one is running |
| `EventList.EventListViewController.FetchAllEventsUsingCachePolicy` | EventsApp/EventListViewController.swift:90-99 | with a load running, issues nothing and changes nothing; otherwise raises the flag and issues the query with limit 20, the current cursor and the given policy |
| `EventList.EventListViewController.FetchCompleted` | EventsApp/EventListViewController.swift:101-129 | on an error the list, cursor and flag are unchanged (a raised flag stays raised unless another completion of the load lowers it); otherwise the list is the merge of the page, cleared first only with no cursor and the cache-and-fetch policy; the cursor becomes the response's, possibly nil, and the flag is cleared |
| `EventList.EventListViewController.HandleRefresh` | EventsApp/EventListViewController.swift:48-51 | drops the cursor, then starts a server-only load from no cursor unless one is running |
| `EventList.EventListViewController.ViewWillAppear` | EventsApp/EventListViewController.swift:55-64 | with a reload pending: clears the flag and the cursor and starts a cache-and-fetch load; otherwise issues nothing and changes nothing |
| `EventList.EventListViewController.CommitDelete` | EventsApp/EventListViewController.swift:169-191 | a delete on a non-nil row issues the delete for that row's id and applies the optimistic filter to the cache; any other edit, or a nil row, issues nothing and leaves the cache as it was |
| `EventList.EventListViewController.DeleteCompleted` | EventsApp/EventListViewController.swift:191-201 | with a result, removes the row at the swiped index, whatever event sits there by now, and shifts the later rows down by one; otherwise the list is unchanged |
| `EventList.EventListViewController.DidSelectRowAt` | EventsApp/EventListViewController.swift:206-218 | records the row as the opened index and hands that row's event, if any, to the details screen |
| `EventList.EventListViewController.WillDisplay` | EventsApp/EventListViewController.swift:222-228 | a next-page load from the current cursor, bypassing the cache, starts exactly when the pagination predicate holds; otherwise nothing changes |
| `AddEvent.ValidInput` | EventsApp/AddEventViewController.swift:40-53 | accepts exactly when name, when, where and description are all present and non-empty, and then carries those four values |
| `AddEvent.TemporaryLocalId` | EventsApp/AddEventViewController.swift:56 | the id starts with `TEMP-` and the rest is the whole UUID |
| `AddEvent.AppendOptimistic` | EventsApp/AddEventViewController.swift:74 | with cached items: the old items stay as a prefix, the placeholder is added once at the tail, and the cursor is kept; without a cached list or items: no change |
| `AddEvent.LocalItem` | EventsApp/AddEventViewController.swift:67-72 | the placeholder carries the temporary id, the entered name, when, where and description, and no comments |
| `AddEvent.AddNewPost` | EventsApp/AddEventViewController.swift:39-81 | invalid input issues no mutation and leaves the cache untouched; valid input issues the mutation with the entered fields and a `TEMP-` id, and appends exactly one placeholder (that id, the entered fields, no comments) at the tail of the cached items, keeping the cursor; with no cached list or items the cache is unchanged |
| `AddEvent.Reconciled` | EventsApp/AddEventViewController.swift:114-127 | for any server row: an absent list query is a no-op, absent items stay absent, the cursor is kept; otherwise the server row is last and the rows before it are a subsequence of the old items holding no row with the temp id |
| `AddEvent.NewItem` | EventsApp/AddEventViewController.swift:106-111 | the server's row copies the created event's id, name, when, where and description and has no comments |
| `AddEvent.ReconciledSpec` | EventsApp/AddEventViewController.swift:114-127 | when the server id differs from the temp id: besides the above, no row with the temp id remains anywhere, every other row keeps its count, and the server row gains exactly one |
| `AddEvent.ReconcileReplacesPlaceholder` | EventsApp/AddEventViewController.swift:63-127 | when the temp id is new to the cache, the optimistic append followed by reconciliation equals appending the server row directly |
| `AddEvent.ReconcileTwiceDuplicates` | EventsApp/AddEventViewController.swift:121-126 | reconciling the same server row a second time appends a second copy: confirmation is not idempotent |
| `AddEvent.ReconcileKeepsOtherPlaceholders` | EventsApp/AddEventViewController.swift:121 | two creates made with different UUIDs: reconciling one leaves the other's placeholder in the cache |
| `AddEvent.AddCompleted` | EventsApp/AddEventViewController.swift:81-129 | on every path the list screen below, if present, gets `needUpdateList` set and nothing else changed; an error or a nil created event leaves the cache (and the placeholder) as it was; a created event reconciles with its id, name, when, where and description copied and no comments |
| `EventDetails.CommentOf` | EventsApp/EventDetails.swift:195-207 | the comment item copies the pushed event id, comment id, content and creation time |
| `EventDetails.MergedComments` | EventsApp/EventDetails.swift:193-209 | an existing connection with items gets the comment appended, with no duplicate check; an existing connection without items is kept and the comment dropped; a missing connection becomes a one-comment connection |
| `EventDetails.EventWithComment` | EventsApp/EventDetails.swift:211-216 | the written event keeps the current event's description, name, when and where, takes the pushed event id, and carries the merged comments |
| `EventDetails.OnNewComment` | EventsApp/EventDetails.swift:157-227 | nothing is written when the screen is gone, the event is nil, or there is an error, a nil result or nil response data; otherwise the merged event is written under the pushed event id and then reloaded from the cache by the current event's id |
| `EventDetails.PushAppendsComment` | EventsApp/EventDetails.swift:194-209 | the written comment items are the old items plus the pushed comment at the tail, exactly that comment when there was no connection, and absent when the connection has no items |
| `EventDetails.PushTwiceDuplicates` | EventsApp/EventDetails.swift:194-201 | merging a comment into an event that already holds it appends a second copy: there is no duplicate check |
| `EventDetails.NewCommentMutation` | EventsApp/EventDetails.swift:237-248 | a mutation is issued exactly when there is an event and the text is present and non-empty, for that event's id, that text and the given time |
| `EventDetails.EventDetailsViewController.constructor` | EventsApp/EventDetails.swift:26-40 | the screen starts with the event handed over and no comments |
| `EventDetails.EventDetailsViewController.ViewDidLoad` | EventsApp/EventDetails.swift:44-76 | with an event, shows its comment items (empty when absent), fetches it from the server and subscribes by its id; without one, neither |
| `EventDetails.EventDetailsViewController.DoFetchWithCachePolicy` | EventsApp/EventDetails.swift:114-123 | issues the event query for the current event's id under the given policy, and nothing without an event |
| `EventDetails.EventDetailsViewController.StartSubscriptionForEvent` | EventsApp/EventDetails.swift:143-150 | subscribes by the current event's id, and not at all when the event is nil |
| `EventDetails.EventDetailsViewController.FetchCompleted` | EventsApp/EventDetails.swift:123-140 | an error or nil event changes neither field; a fetched event replaces `event`, and replaces `comments` only when its comment items are present |
| `EventDetails.EventDetailsViewController.WillMove` | EventsApp/EventDetails.swift:85-102 | with more than one controller on the stack and an event, writes the event into the list's opened row unless that row is nil, and changes nothing else; otherwise the list is untouched; needs a valid opened index |

## Left out

- UIKit: table data sources and cells, `reloadData`, the refresh control, alerts, storyboards, and pushing and popping screens. Only the state effects of navigation are kept, such as `needUpdateList` and the row handed to the details screen.
- `AppDelegate.swift` and `Constants.swift`: client construction, cache configuration, the cache-key hook and the endpoint constants. These are library configuration.
- The SDK itself: transport, GraphQL execution, the normalized store and its transactions. The cache is a value that each update block receives and returns. A subscription write is returned as a `StoreWrite`, and the later cache read is not tied to it. A `nil` client, a `nil` transaction, and an update block that throws are not modelled.
- The app-delegate guard of all three screens (EventListViewController.swift:69, AddEventViewController.swift:26, EventDetails.swift:58) is not modelled: the model assumes the client is always found. Without a client, `addNewPost` issues nothing at all: no optimistic update, no completion and no pop. Likewise the optional chains through the client, its store, a transaction and the navigation controller are taken as present.
- The subscription call can throw (EventDetails.swift:157); the error is caught and only logged in `viewDidLoad` (EventDetails.swift:71-75). `StartSubscriptionForEvent` models only the call that succeeds.
- The cache-and-fetch policy may invoke the fetch completion once from the cache and once from the server. Each invocation is its own `FetchCompleted` call, so the model holds for any number of them.
- The result of the comment mutation and of the list's delete mutation beyond "has a result" is not used by the code and not modelled.
- Subscription lifetime: `cancel` in `viewWillDisappear` and the weak-self handling. "Self gone" is the `alive` input of `OnNewComment`.
- Dispatch to the main queue and the ordering of async callbacks.
- The list item type and the `Event` fragment are one datatype, since they carry the same fields. The fragment assignment in `willMove` therefore replaces the row's whole event.
- `DeleteCompleted`, `DidSelectRowAt`, `CommitDelete` and `WillMove` require a row or index within the list. The Swift code would trap on one outside it. A stale row that is still within the list is inside the model: `DeleteCompleted` removes whatever row now sits at that index, as `remove(at:)` does. Only a row past the end is excluded.
