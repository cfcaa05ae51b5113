# menuforge order core, modelled in Dafny

This project models four pieces of menuforge's dashboard and API code and
proves properties about them:

- **the realtime order list** of one tenant (`useRealtimeOrders`). The list
  starts empty. An initial bulk fetch may replace it, and each change event
  from the realtime channel is folded into it. The fetch and the events may
  interleave in any order. For the events, INSERT prepends, UPDATE replaces by id, DELETE filters
  by id, and any other event type changes nothing. The folding rule is the
  pure function `RealtimeOrders.Apply`. The hook's state is the class
  `RealtimeOrders.OrderFeed`, which has one method per event type.
- **the order-status server action** (`updateOrderStatus`). The Order table is
  a `map` from id to row, held by the class `UpdateOrderStatus.OrderTable`.
  The action writes `status` and `updated_at` to the row with that id and
  then picks one of three tagged results.
- **the menu-item edit route** (`PUT` in `app/api/items/editItem`).
  `extractPublicId` is modelled over JavaScript's exact `split` semantics.
  The handler covers validation, flag parsing, the choice of image URL, the
  calls to the image host and the row update.
- **the restaurant edit route** (`PUT` in `app/api/restaurants/editRestaurant`).
  It covers the id check, the property-by-property update record (with
  `tagline` sent as `tagLine`), the theme JSON, the logo upload and the store
  answer.

Modelling conventions:

- A route handler is a method with no heap state. It returns the HTTP response
  together with the ordered list of outside calls it made (`effects`).
- The outside world's answers are parameters, and they are read only if the
  call is actually made. These are the image host's upload and destroy
  results, the store's write result, `JSON.parse` (a function
  `string -> Option<Json>` that is `None` where the parse throws) and
  `new Date()` (an opaque `Timestamp`).
- A form value is `Option<string>`, with `None` where `formData.get` gives
  null.
- JavaScript truthiness of a string is `Platform.Truthy`: present and
  non-empty. An empty array is truthy, which is why
  `RealtimeOrders.AfterFetch` accepts an empty fetch.

Modules:

- `Wrappers`: `Option`.
- `Platform`: JSON values, store errors, form entries, responses and upload outcomes.
- `Orders`: the Order row.
- `RealtimeOrders`, `UpdateOrderStatus`, `EditItem`, `EditRestaurant`: one module per source file.

Two facts about the order list are easy to overlook:

- UPDATE replaces and DELETE removes *every* entry carrying the id
  (hooks/useOrders.ts:39-44). `RealtimeOrders.DeleteLength` counts the entries
  removed, and `RealtimeOrders.DeleteRemovesOne` gives exactly one only for a
  list whose ids are unique.
- A failed initial fetch keeps the list as it was (hooks/useOrders.ts:16),
  which is whatever the events delivered so far have built. The fetch is not
  awaited before the channel subscribes (hooks/useOrders.ts:19-21), so the
  fetch and the events can interleave, and a successful fetch overwrites
  whatever earlier events did. `RealtimeOrders.OrderFeed` allows its methods
  to be called in any order.

## Model

| member | source | states |
|---|---|---|
| RealtimeOrders.ReplaceById | hooks/useOrders.ts:38-41 | the length is kept; every entry whose id is the new row's id becomes the new row, and every other entry stays where it was |
| RealtimeOrders.RemoveById | hooks/useOrders.ts:43-45 | never longer than the input; the survivors are exactly the previous entries whose id differs |
| RealtimeOrders.AfterFetch | hooks/useOrders.ts:16 | the fetched rows replace the list when there is no error and the data is present (an empty array included); otherwise the list is kept |
| RealtimeOrders.Apply | hooks/useOrders.ts:34-47 | the reducer for one event; it has no contract of its own, and its meaning is given by the per-event lemmas below and by `ApplyKeepsUnique` |
| RealtimeOrders.InsertPrepends | hooks/useOrders.ts:35-37 | INSERT gives the new row followed by the whole previous list; the length grows by one, and the count of that id grows by one (no de-duplication) |
| RealtimeOrders.InsertUniqueIff | hooks/useOrders.ts:35-37 | after INSERT on a list with unique ids, the ids are still unique if and only if the inserted id was absent |
| RealtimeOrders.UpdateKeepsIds | hooks/useOrders.ts:38-41 | UPDATE keeps the length and the id at every position |
| RealtimeOrders.UpdateUnknownIsNoOp | hooks/useOrders.ts:39-41 | UPDATE for an id that no entry carries leaves the list identical |
| RealtimeOrders.UpdateIdempotent | hooks/useOrders.ts:38-41 | delivering one UPDATE twice equals delivering it once |
| RealtimeOrders.UpdateKeepsUnique | hooks/useOrders.ts:38-41 | UPDATE keeps ids unique |
| RealtimeOrders.RemoveByIdConcat | hooks/useOrders.ts:44 | DELETE distributes over concatenation |
| RealtimeOrders.RemoveByIdKeepsOrder | hooks/useOrders.ts:44 | the survivors of a DELETE sit at strictly increasing positions of the previous list, and an entry survives if and only if its id differs |
| RealtimeOrders.DeleteUnknownIsNoOp | hooks/useOrders.ts:44 | DELETE for an id that no entry carries leaves the list identical |
| RealtimeOrders.DeleteLength | hooks/useOrders.ts:44 | DELETE shortens the list by exactly the number of entries with that id, and none is left |
| RealtimeOrders.DeleteRemovesOne | hooks/useOrders.ts:43-45 | on a list with unique ids, DELETE of a present id removes exactly one entry |
| RealtimeOrders.DeleteKeepsUnique | hooks/useOrders.ts:44 | DELETE keeps ids unique |
| RealtimeOrders.DeleteIdempotent | hooks/useOrders.ts:44 | delivering one DELETE twice equals delivering it once |
| RealtimeOrders.OtherEventIsNoOp | hooks/useOrders.ts:46 | an event type other than INSERT, UPDATE or DELETE returns the previous list |
| RealtimeOrders.InsertThenDelete | hooks/useOrders.ts:35-45 | inserting a row with a fresh id and then deleting that id restores the previous list |
| RealtimeOrders.ApplyKeepsUnique | hooks/useOrders.ts:34-47 | every event keeps the ids unique, unless it inserts an id that is already present |
| RealtimeOrders.OrderFeed.constructor | hooks/useOrders.ts:7 | the list starts empty |
| RealtimeOrders.OrderFeed.FetchInitial | hooks/useOrders.ts:10-17 | the new list is `AfterFetch` of the old list and the fetch result |
| RealtimeOrders.OrderFeed.OnInsert | hooks/useOrders.ts:35-37 | the new list is the row followed by the old list |
| RealtimeOrders.OrderFeed.OnUpdate | hooks/useOrders.ts:38-41 | the new list is `ReplaceById` of the old list |
| RealtimeOrders.OrderFeed.OnDelete | hooks/useOrders.ts:43-45 | the new list is `RemoveById` of the old list by the old row's id |
| RealtimeOrders.OrderFeed.Receive | hooks/useOrders.ts:34-47 | the new list is `Apply` of the old list and the event |
| UpdateOrderStatus.WriteStatus | queries/updateOrderStatus.ts:8-12 | the key set is unchanged; only the row with that id gets the new status and instant; with no such row the table is unchanged |
| UpdateOrderStatus.Returned | queries/updateOrderStatus.ts:8-12 | the rows selected after the write are exactly the stored rows with that id, at most one |
| UpdateOrderStatus.Classify | queries/updateOrderStatus.ts:14-32 | code 1 if and only if there is no error and at least one row; an error gives its message, or the unknown-error text when the message is empty; no rows give the not-found text; success carries the first row |
| UpdateOrderStatus.ErrorTakesPrecedence | queries/updateOrderStatus.ts:14-26 | with an error the result does not depend on the data and has code 0 |
| UpdateOrderStatus.WriteKeepsWellKeyed | queries/updateOrderStatus.ts:8-12 | the write keeps every row under its own id |
| UpdateOrderStatus.WriteTouchesOnlyMatching | queries/updateOrderStatus.ts:10-11 | only rows whose id field is the order id change, and of those only status and updated_at |
| UpdateOrderStatus.WriteIdempotent | queries/updateOrderStatus.ts:10 | the write is unconditional, so repeating it changes nothing more |
| UpdateOrderStatus.SuccessIffMatched | queries/updateOrderStatus.ts:8-32 | code 1 if and only if there is no error and the id is in the table; the returned row then carries the new status and instant; an unknown id gives the not-found result |
| UpdateOrderStatus.OrderTable.UpdateOrderStatus | queries/updateOrderStatus.ts:5-33 | the table keeps rows under their ids and is the written table (or unchanged on a store error); the result is `Classify` of what came back; code 1 if and only if there is no error and the id was present, and then the returned row is the stored row with the new status |
| EditItem.Split | app/api/items/editItem/route.ts:77-79 | JavaScript `split` on one character: at least one piece, and no piece contains the separator |
| EditItem.JoinSplit | app/api/items/editItem/route.ts:77-79 | joining the pieces of a split with the separator gives back the string |
| EditItem.SplitJoin | app/api/items/editItem/route.ts:77-79 | splitting a join of separator-free pieces gives back those pieces |
| EditItem.SplitAround | app/api/items/editItem/route.ts:77-79 | a split at one separator is the concatenation of the splits on both sides |
| EditItem.Stem | app/api/items/editItem/route.ts:77-79 | the part of the last `/` piece before its first `.` contains neither `/` nor `.` |
| EditItem.StemOfShape | app/api/items/editItem/route.ts:77-79 | for a URL made of a directory part, a name and an extension, the stem is exactly that name |
| EditItem.ExtractPublicId | app/api/items/editItem/route.ts:75-88 | null exactly for a null URL; with some piece exactly `menu-items` it is `menu-items/` followed by the stem; otherwise it is the bare stem, which has no `/` |
| EditItem.FolderPrefixIsNotFolder | app/api/items/editItem/route.ts:80-84 | on the URL `menu-items2/b`, whose first piece only starts with `menu-items`, the id is the bare `b` |
| EditItem.FolderPieceGivesPrefix | app/api/items/editItem/route.ts:80-84 | on the URL `menu-items/b`, whose first piece is exactly `menu-items`, the id is `menu-items/b` |
| EditItem.Flag | app/api/items/editItem/route.ts:19-20 | a form flag is true exactly when its value is the string `"true"`; it is a predicate with no contract, and `RowUpdate` states the flag mapping |
| EditItem.HasRequired | app/api/items/editItem/route.ts:22 | item id, name, price and description are all present and non-empty; it is a predicate with no contract, and `Put` states the 400 case built on it |
| EditItem.OldImageDeletion | app/api/items/editItem/route.ts:30-40 | at most one destroy call, made exactly when the public id is non-empty, and for that public id |
| EditItem.RowUpdate | app/api/items/editItem/route.ts:52-62 | the row gets the name, the price, the description as `desc`, the chosen image URL and the instant; each flag is true if and only if the form value is exactly `"true"` |
| EditItem.Put | app/api/items/editItem/route.ts:7-73 | per case, the exact calls made and the response: missing fields give 400 with no call; with no file the stored URL is kept; with a file, the old image is destroyed only for a non-empty public id, then the upload runs; a rejected upload or one without a URL gives 500 with no row update; otherwise the uploaded URL is written; a destroy failure changes nothing; after the row update, 200 or 500 with the store's message |
| EditRestaurant.Properties | app/api/restaurants/editRestaurant/route.tsx:50 | the object sent to the store, each set property under its name; it has no contract of its own, and `PropertiesKeys`, `SentUnderOwnName` and `SentTheme` state its keys and values |
| EditRestaurant.Describes | app/api/restaurants/editRestaurant/route.tsx:24-46 | the update record a form describes: each text field as given, the tag line as `tagLine`, the parsed theme and the logo URL; it is a predicate with no contract, and `FormFields` and `Put` promise it |
| EditRestaurant.PropertiesKeys | app/api/restaurants/editRestaurant/route.tsx:24-46 | the object sent to the store carries only the listed property names: never `tagline`, and `tagLine` exactly when a tag line was given |
| EditRestaurant.SentUnderOwnName | app/api/restaurants/editRestaurant/route.tsx:26-30 | name, slug, email, location and phone are sent under their own names exactly when the form value is not null, an empty string included |
| EditRestaurant.SentTheme | app/api/restaurants/editRestaurant/route.tsx:32-45 | the theme is sent exactly when the form has one that parses, as the parsed value; `logo_url` is sent exactly when a logo URL was obtained |
| EditRestaurant.CaughtMessage | app/api/restaurants/editRestaurant/route.tsx:61-64 | the caught error's message when it is non-empty, and exactly "Internal Server Error" when it is empty; never empty |
| EditRestaurant.FormFields | app/api/restaurants/editRestaurant/route.tsx:24-38 | succeeds exactly when the theme is absent or parses, and then the record holds each text field as given, the tag line as `tagLine`, the parsed theme, and no logo URL |
| EditRestaurant.Put | app/api/restaurants/editRestaurant/route.tsx:5-65 | per case, the exact calls made and the response: a missing or empty id gives 400, and a theme that does not parse gives 400, both before any call; a logo with content is uploaded to the default folder, and a rejection or a missing URL gives 500 with no update; otherwise one update of the row with the form's id, carrying exactly what the form describes plus the logo URL, and 200 with the store's row or 500 with its message |

## Left out

- The realtime channel's lifecycle (`channel(...).subscribe()`, `removeChannel`) and the React effect around it are asynchronous delivery and teardown; only the per-event rule and the fetch assignment are modelled.
- Console logging in every file is left out.
- `request.formData()` failing, and a form value that is a file where text is expected (the `as string` casts), are not modelled: each form field is either null or of the expected kind.
- The image host (`lib/cloudinary.ts`) and the store are not part of this model; their results are inputs.
- The tenant table is not modelled. `EditRestaurant.Put` states which id the update targets and what it carries, and takes the store's answer (a row or an error) as an input.
- `EditItem.Put` likewise does not model the `MenuItems` table. The route does not check whether any row matched the id, and the model passes on only the store error.
- `UpdateOrderStatus.OrderTable.UpdateOrderStatus`: if the store reports an error, the model performs no write. The store may fail after writing, which the model does not capture.
- JSON numbers are modelled as `real`; the finite precision of JavaScript numbers is not modelled.
- JSON parsing is an abstract function, and JSON values are not normalised. A theme that parses to the JSON `null` is sent as `null`, exactly as the code does.
- The order-statistics aggregator, the dashboard views, the other queries and the add routes are not part of this model.
