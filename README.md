# Item catalog: request handling, gallery filtering, detail carousel, add-item form

This project models the logic of a small catalog web application in Dafny.
Users add items (name, type, description, cover and additional image URLs)
through a form. They browse the items in a gallery with search and type
filtering, and they open a detail view with an image carousel. Four pieces
of the code are modelled, and each becomes one module:

- `ItemsRoute` (app/api/items/route.ts). `Get` and `Post` are functions. They
  take the parsed request body and the store's outcome, and return the
  response. `Post` also returns the draft it handed to `createItem`, or
  `None` when the store was never called. The store is an oracle: a
  function from drafts to "created this item" or "rejected".
- `ViewItems` (app/view-items/page.tsx). The search and type filters and the
  `uniqueTypes` list are pure functions over a sequence of `Db.Item`.
- `ItemDetailModal` (components/item-detail-modal.tsx). `AllImages`, the
  modular arrow arithmetic and what the view renders are functions. The
  `currentImageIndex` state is the class `Carousel`, whose methods overwrite
  the index.
- `AddItems` (app/add-items/page.tsx). The form state (`formData`, the cover
  URL input and the additional-image draft) is the class `AddItemsPage`.
  Each handler is a method that replaces that state. Its invariant `Valid`
  says that every queued image URL is trimmed and non-empty.
  `IsValidImageUrl` and `SubmitBody` are pure.

`Submission` connects the form to the handler. It shows that a form
submission never reaches the store with an empty `additional_images` array
or an empty cover. The client ensures this, not the server.

Shared modules: `Wrappers` (Option), `Json` (parsed JSON values, JavaScript
truthiness, property reads), `Db` (the `Item` record of lib/db.ts and the
store's outcomes), `Sequences` (`Array.prototype.filter`, subsequences,
insertion-ordered de-duplication, removal by index) and `Strings`
(`toLowerCase`, `startsWith`, `includes`, `trim`).

Points where the handler does less than its callers might expect, as the
model states them:
- The handler does not turn an empty `additional_images` list into `null`:
  `[] || null` is `[]` (route.ts:28). `ItemsRoute.PostKeepsEmptyImageList`
  states that the empty list is passed on.
- `name` and `type` are checked only for truthiness, so a number, `true`, an
  array or an object is forwarded unchanged. `Db.Draft` therefore holds JSON
  values.
- A body that parses to `null` makes the destructuring at route.ts:17
  throw, so the answer is the generic 500 and not the 400.

## Model

| member | source | states |
|---|---|---|
| `ItemsRoute.Get` | app/api/items/route.ts:4-12 | status 200 exactly when the store listed, with the list as the body unchanged and in order; otherwise 500 with the fixed "Failed to fetch items" message |
| `ItemsRoute.Valid` | app/api/items/route.ts:19 | the `!name || !type` gate: both properties truthy; `ItemsRoute.PostCallsStoreIffValid` states that it decides whether the store is called |
| `ItemsRoute.DraftOf` | app/api/items/route.ts:23-29 | the object handed to `createItem`; `ItemsRoute.PostForwardsFields` states its fields |
| `ItemsRoute.Post` | app/api/items/route.ts:14-36 | the status is always 201, 400 or 500; when the store was called the answer is never 400; a 201 means the store was called and its returned item is the body |
| `ItemsRoute.PostRejectsMissingFields` | app/api/items/route.ts:19-21 | a non-null body whose `name` or `type` is absent, null, false, 0 or "" gets 400 "Name and type are required", and the store is not called |
| `ItemsRoute.PostCallsStoreIffValid` | app/api/items/route.ts:15-23 | the store is called if and only if the body parsed, is not null, and has truthy `name` and `type`; 400 is answered if and only if a parsed, non-null body fails that gate |
| `ItemsRoute.PostForwardsFields` | app/api/items/route.ts:23-29 | the draft carries `name` and `type` unchanged, and each optional field unchanged when truthy and `null` when falsy |
| `ItemsRoute.PostKeepsEmptyImageList` | app/api/items/route.ts:26-28 | for every body that passes validation, `additional_images: []` reaches the store as `[]`, while an empty-string description or cover becomes `null` |
| `ItemsRoute.PostStoreOutcome` | app/api/items/route.ts:23-31 | after validation, a created item is answered with 201 and exactly that item; a store rejection gets 500 "Failed to create item" |
| `ItemsRoute.PostFailuresAreOpaque` | app/api/items/route.ts:14-35 | every 500 carries only "Failed to create item"; an unparseable or null body gets that 500 without the store being called |
| `Json.Truthy` | app/api/items/route.ts:19 | JavaScript truthiness of a JSON value: `null`, `false`, `0` and `""` are falsy, every array and object truthy; used by `ItemsRoute.PostRejectsMissingFields` |
| `Json.Field` | app/api/items/route.ts:17 | a destructured property: present exactly when the body is an object with that key, and then its value; absent stands for `undefined` |
| `Json.OrNull` | app/api/items/route.ts:26-28 | `v \|\| null`; `Json.OrNullIsNullOrTruthy` states its contract |
| `Json.OrNullIsNullOrTruthy` | app/api/items/route.ts:26-28 | `v \|\| null` is either null or a truthy value; when it is not null it is `v` itself; it is falsy exactly when `v` is |
| `ViewItems.MatchesSearch` | app/view-items/page.tsx:30-34 | the search predicate; `ViewItems.MatchesSearchIsSubstring` states it through substring occurrence |
| `ViewItems.FilteredItems` | app/view-items/page.tsx:26-42 | the filter effect; `ViewItems.FilteredItemsExact`, `ViewItems.FilteredItemsIsSubsequence` and `ViewItems.FilteredItemsSound` state its contract |
| `ViewItems.FilteredItemsIsOneFilter` | app/view-items/page.tsx:26-42 | the search filter followed by the type filter equals one filter by "passes every active filter" |
| `ViewItems.FilteredItemsIsSubsequence` | app/view-items/page.tsx:27-41 | the shown list is a subsequence of `items`: nothing is added, duplicated or reordered |
| `ViewItems.FilteredItemsUnfiltered` | app/view-items/page.tsx:29-39 | with an empty search term and the filter at "all", the shown list is `items` |
| `ViewItems.FilteredItemsExact` | app/view-items/page.tsx:27-41 | an item passing the active filters is shown exactly as often as it occurs in `items`, and any other item is not shown (sound and complete) |
| `ViewItems.FilteredItemsSound` | app/view-items/page.tsx:29-39 | with a non-empty term, a shown item's lower-cased name or non-null description contains the lower-cased term as a substring; with a type filter, its type equals the filter, compared case-sensitively |
| `ViewItems.MatchesSearchIsSubstring` | app/view-items/page.tsx:30-34 | the search predicate holds exactly when the lower-cased term occurs in the lower-cased name, or in the lower-cased description when there is one |
| `ViewItems.NullDescriptionMatchesByName` | app/view-items/page.tsx:33 | an item with a null description matches the search only through its name |
| `ViewItems.TypesOf` | app/view-items/page.tsx:70 | `items.map(item => item.type)`: same length, and position k holds the type of item k |
| `ViewItems.UniqueTypes` | app/view-items/page.tsx:70 | `Array.from(new Set(items.map(item => item.type)))`; `ViewItems.UniqueTypesSpec` states its contract |
| `ViewItems.UniqueTypesSpec` | app/view-items/page.tsx:70 | `uniqueTypes` has no duplicates, contains exactly the types that occur, and lists them in the order of their first occurrence |
| `Sequences.Dedup` | app/view-items/page.tsx:70 | the insertion order of a `Set` built from a sequence; `Sequences.DedupMembers`, `Sequences.DedupNoDuplicates` and `Sequences.DedupOrder` state its contract |
| `Sequences.Filter` | app/view-items/page.tsx:30-38 | `Array.prototype.filter`: no longer than its input, and every kept element satisfies the predicate; order and counts in `ViewItems.FilteredItemsExact` |
| `Sequences.DedupMembers` | app/view-items/page.tsx:70 | building a `Set` from a sequence keeps exactly the elements not already present |
| `Sequences.DedupNoDuplicates` | app/view-items/page.tsx:70 | the `Set`'s elements are pairwise distinct |
| `Sequences.DedupOrder` | app/view-items/page.tsx:70 | the `Set` iterates its elements in the order of their first insertion |
| `Strings.Contains` | app/view-items/page.tsx:32-33 | `includes`; `Strings.ContainsIsSubstring` states its contract |
| `Strings.ContainsIsSubstring` | app/view-items/page.tsx:32-33 | `s.includes(t)` holds exactly when `t` occurs in `s` at some position |
| `Strings.Lower` | app/view-items/page.tsx:32-33 | `toLowerCase` keeps the length and maps every character by the ASCII lower-casing |
| `ItemDetailModal.AllImages` | components/item-detail-modal.tsx:23 | `allImages`; `ItemDetailModal.AllImagesSpec` states its contract |
| `ItemDetailModal.AllImagesSpec` | components/item-detail-modal.tsx:23 | `allImages` is the cover, if truthy, followed by the truthy additional images in their order; a null list contributes nothing; no entry is empty |
| `ItemDetailModal.JsRemainder` | components/item-detail-modal.tsx:26 | JavaScript's `%` on integers: the dividend minus a multiple of `n` by the quotient truncated toward zero, with the dividend's sign and smaller than `n` in magnitude |
| `ItemDetailModal.JsRemainderOfNonNegative` | components/item-detail-modal.tsx:26 | on a non-negative dividend, as in `(prev + 1) % allImages.length`, JavaScript's `%` is the Euclidean remainder |
| `ItemDetailModal.NextIndex` | components/item-detail-modal.tsx:25-27 | the next index lies in `[0, n)` for every non-negative index, a stale out-of-range one included |
| `ItemDetailModal.PrevIndex` | components/item-detail-modal.tsx:29-31 | the previous index lies in `[0, n)` for every non-negative index |
| `ItemDetailModal.NextStep` | components/item-detail-modal.tsx:25-27 | within range, next is `i + 1`, and the last index wraps to 0 |
| `ItemDetailModal.PrevStep` | components/item-detail-modal.tsx:29-31 | within range, prev is `i - 1`, and 0 wraps to `n - 1` |
| `ItemDetailModal.ArrowsAreInverse` | components/item-detail-modal.tsx:25-31 | `prev(next(i)) == i` and `next(prev(i)) == i` for every `i` in range |
| `ItemDetailModal.Carousel.constructor` | components/item-detail-modal.tsx:19 | the carousel starts at index 0 |
| `ItemDetailModal.Carousel.NextImage` | components/item-detail-modal.tsx:25-27 | the right arrow, shown for more than one image, sets the index to `NextIndex` of the old one, which is in range |
| `ItemDetailModal.Carousel.PrevImage` | components/item-detail-modal.tsx:29-31 | the left arrow, shown for more than one image, sets the index to `PrevIndex` of the old one, which is in range |
| `ItemDetailModal.Carousel.SelectThumbnail` | components/item-detail-modal.tsx:89-92 | a thumbnail click sets the index to that thumbnail's position, which is in range |
| `ItemDetailModal.MainImageSource` | components/item-detail-modal.tsx:55 | `allImages[currentImageIndex] \|\| "/placeholder.svg"`; `ItemDetailModal.RenderedImage` states its contract |
| `ItemDetailModal.Render` | components/item-detail-modal.tsx:52-129 | what the view shows for an item and an index; `ItemDetailModal.RenderedImage`, `ItemDetailModal.RenderedNavigation` and `ItemDetailModal.RenderedDetails` state its contract |
| `ItemDetailModal.RenderedImage` | components/item-detail-modal.tsx:52-55 | no image area without images; the image at the index when the index is in range; an out-of-range index on a non-empty list falls back to the placeholder |
| `ItemDetailModal.RenderedNavigation` | components/item-detail-modal.tsx:60-108 | arrows appear exactly when there is more than one image; the thumbnails are then the images themselves, in order, and otherwise there are none |
| `ItemDetailModal.RenderedDetails` | components/item-detail-modal.tsx:118-129 | the description is shown exactly when it is a non-empty string; "Updated" is shown exactly when `updated_at != created_at` |
| `AddItems.IsValidImageUrl` | app/add-items/page.tsx:115-117 | `isValidImageUrl`; `AddItems.IsValidImageUrlSpec` states its contract |
| `AddItems.IsValidImageUrlSpec` | app/add-items/page.tsx:115-117 | `isValidImageUrl(u)` holds exactly when `u` starts with "http" or with "/"; such a `u` is non-empty |
| `Strings.StartsWith` | app/add-items/page.tsx:116 | `startsWith`; `Strings.StartsWithIsPrefix` states its contract |
| `Strings.StartsWithIsPrefix` | app/add-items/page.tsx:116 | `s.startsWith(p)` holds exactly when `p` is a prefix of `s` |
| `AddItems.JsonStrings` | app/add-items/page.tsx:50 | the image URLs become JSON strings, one per URL and in order |
| `AddItems.SubmitBody` | app/add-items/page.tsx:45-51 | the request body of `handleSubmit`; `AddItems.SubmitBodySpec` states its contract |
| `AddItems.SubmitBodySpec` | app/add-items/page.tsx:45-51 | name, type and description are sent verbatim; the cover is the form's cover or the placeholder, never empty; `additional_images` is null for an empty list and the list otherwise, never `[]` |
| `AddItems.AddItemsPage.constructor` | app/add-items/page.tsx:24-33 | the form starts with empty strings, an empty list and empty URL inputs, and satisfies the invariant |
| `AddItems.AddItemsPage.SetName` | app/add-items/page.tsx:171 | only the name changes |
| `AddItems.AddItemsPage.SetType` | app/add-items/page.tsx:184 | only the type changes |
| `AddItems.AddItemsPage.SetDescription` | app/add-items/page.tsx:207 | only the description changes |
| `AddItems.AddItemsPage.SetAdditionalImageUrl` | app/add-items/page.tsx:263 | only the additional-image draft changes |
| `AddItems.AddItemsPage.HandleCoverImageUrl` | app/add-items/page.tsx:82-90 | both the cover URL input and `formData.coverImage` become the URL; nothing else changes |
| `AddItems.AddItemsPage.AddAdditionalImage` | app/add-items/page.tsx:92-103 | a draft that is not blank is trimmed, appended at the end of the list and cleared; a blank draft changes nothing; name, type, description and cover never change; the invariant is kept |
| `AddItems.AddItemsPage.RemoveAdditionalImage` | app/add-items/page.tsx:105-113 | the list loses the entry at the index, and nothing else changes; the invariant is kept |
| `Sequences.WithoutIndex` | app/add-items/page.tsx:108 | `filter((_, i) => i !== index)`; `Sequences.WithoutIndexSpec` states its contract |
| `Sequences.WithoutIndexSpec` | app/add-items/page.tsx:108 | for an index in range, the filter by index drops exactly that element: the length drops by one and the others keep their order; any other index changes nothing |
| `AddItems.WellFormedAfterRemoval` | app/add-items/page.tsx:105-109 | removing an entry keeps every remaining URL trimmed and non-empty |
| `AddItems.AddItemsPage.HandleSubmit` | app/add-items/page.tsx:35-80 | the body sent is `SubmitBody` of the current form, whose queued images the invariant keeps trimmed and non-empty; an OK answer resets the form and both URL inputs; a failure leaves all of them unchanged |
| `Strings.WhitespaceRunFrom` | app/add-items/page.tsx:93 | the leading run of white space that `trim` drops ends at the first other character, or at the end of the string |
| `Strings.WhitespaceRunTo` | app/add-items/page.tsx:93 | the trailing run of white space that `trim` drops starts just after the last other character, or at the run's end when there is none |
| `Strings.Trim` | app/add-items/page.tsx:93-96 | `trim`; `Strings.TrimShape`, `Strings.TrimEnds`, `Strings.TrimEmpty` and `Strings.TrimIdempotent` state its contract |
| `Strings.TrimShape` | app/add-items/page.tsx:93-96 | `trim` removes white space at both ends and nothing in between: the input is the result with only white space before and after it |
| `Strings.TrimEnds` | app/add-items/page.tsx:96 | a non-empty trimmed URL neither starts nor ends with white space |
| `Strings.TrimEmpty` | app/add-items/page.tsx:93 | the trimmed draft is empty exactly when the draft is all white space |
| `Strings.TrimIdempotent` | app/add-items/page.tsx:96 | trimming a trimmed URL changes nothing |
| `Submission.FormSubmissionReachesStore` | app/api/items/route.ts:17-29 | a form submission reaches the store exactly when name and type are non-empty, and otherwise gets the 400; the stored draft has a non-empty string cover and an image list that is null or the form's non-empty list, never `[]` |
| `Submission.StoredSubmissionShowsEveryImage` | components/item-detail-modal.tsx:23 | an item stored as a form with the add-item page's invariant sent it shows its cover first and then every queued image, in order, none dropped by the falsy-entry filter |

## Left out

- The store's queries in lib/db.ts are not part of this model. They run in Postgres: id generation, timestamps, `ORDER BY created_at DESC` and `RETURNING *`. For this reason the model does not state fresh ids, listing order or read-after-write. `createItem` and `getAllItems` are outcomes supplied as parameters.
- `getItemById` (lib/db.ts) is not used by any modelled file.
- The parsing done by `request.json()` is not modelled, and neither is the `JSON.stringify` of the form body. The body is a parsed value, with a parse-failure case, and the form's object is handed to the handler directly.
- `Strings.Lower`: maps ASCII letters only. The full Unicode case mapping of `toLowerCase` is not modelled.
- `Json.Json`: `JNumber` holds the value of the parsed double as a real. Rounding, overflow to an infinity and underflow to zero belong to the parser, which is not modelled, so NaN is not a value here and `0` is the only falsy number.
- `ItemDetailModal.Carousel.NextImage` and `ItemDetailModal.Carousel.PrevImage` require more than one image, because the arrows are rendered only then. The `NaN` index that `% 0` would produce is not modelled.
- `ItemDetailModal.ImageCandidates`: a `null` cover is written as `""`. Both are falsy and both are dropped, so `allImages` is the same. An entry of `additional_images` that is not a string cannot occur in the `Item` type and is not modelled.
- The browser's `required` check on the name and type inputs is not modelled. `HandleSubmit` may run with empty fields, and `Submission.FormSubmissionReachesStore` covers that case with the 400 answer.
- The Enter key on the draft input (app/add-items/page.tsx:266) calls the same `AddAdditionalImage`. The disabled state of the add button is not modelled.
- The following async and I/O details are not modelled: `fetch`, `await`, `console.error` and `toast` messages; the `isSubmitting` flag, which is back to `false` once a submission has finished; the `showSuccess` banner and its 3-second `setTimeout`; the cover preview toggle; and router navigation. The detail view's "Enquire" toast and the gallery's open and close handlers only show or hide the view.
- The category list `ITEM_TYPES` is used only by the select control, and nothing enforces it.
- Rendering (JSX, styling, images), date formatting, app/layout.tsx, app/page.tsx, components/navigation.tsx and components/item-card.tsx are presentational and are not modelled.
- No update or delete operation exists in the code, and none is modelled.
