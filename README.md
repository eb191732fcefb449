# Product catalog view: a Dafny model

This project models the data-shaping core of the `MainView` web component of a
small product-catalog page (`src/main-view.ts`). The component:

- fetches three product lists (accessories, jackets, shirts) and merges them in that order;
- derives the distinct manufacturers of the merged catalog;
- fetches one availability response per manufacturer;
- appends one `(id, stock text)` entry per response record to its availability list,
  where the stock text is what the record's XML payload holds in its `INSTOCKVALUE` element;
- joins each product with the first entry whose id equals the upper-cased product id;
- shows the products of the selected tab ten at a time, with previous/next page buttons.

Modules, one per concern of that file:

- `Wrappers` (`wrappers.dfy`): the `Option` type.
- `Sequences` (`sequences.dfy`): order-preserving subsequences, and `Uniq`, which models lodash's `_.uniq`.
- `Text` (`text.dfy`): `toUpperCase`.
- `Catalog` (`catalog.dfy`): the record types and the tab labels, the category filter,
  the merge in `fetchAllData`, the manufacturer list, and the per-manufacturer fan-out.
- `Pagination` (`pagination.dfy`): `getPaginatedItems`.
- `AvailabilityIndex` (`availability.dfy`): what the response loop appends, and the join `getAvailibility`.
- `View` (`main_view.dfy`): the class `MainView` with the fields `selectedTab`,
  `currentPage`, `itemsPerPage`, `data`, `products` and `availibility`, and its methods.

Type, field and member names follow the source, including its spelling `Availibility`, with three renamings: the product's `type` field is `kind` (`type` is a Dafny keyword), the availability record's `DATAPAYLOAD` field is `payload`, and the `total_pages` field of the page result is `totalPages`.

The environment enters as function parameters:

- a product retrieval `string -> Option<seq<Product>>`;
- an availability retrieval `string -> Option<HasResponse>`, where `None` is a rejected
  promise (a non-200 status or an undecodable body);
- an extraction `string -> Option<string>` standing for `DOMParser.parseFromString`
  followed by `querySelector("INSTOCKVALUE")`.

`MainView.Valid()` is the object invariant every public method keeps:

- the page is at least 1;
- the page size is 10;
- `products` is exactly the current page of the selected tab.

Where the code's behaviour is easy to mistake, the model follows the code:

- `total_pages` is the plain ceiling of `total / pageSize`, so it is 0 for an empty list, not at least 1.
- The next-page button is never disabled (`disableNext` returns `false`), so paging can
  go past the last page; a page past the end shows no products.
- Only the product side of the join is upper-cased. An availability id holding a
  lower-case letter never joins (`LowerCaseIdNeverJoins`). So a product `"ABC123"` with an
  availability record `"abc123"` does not join, while a product `"abc123"` with a record
  `"ABC123"` does.
- The first matching entry wins, not the last. Entries from a later load never shadow
  earlier ones (`JoinAfterAppend`).
- A page below 1 is not an error. Page 0 is falsy and becomes page 1. A negative page has a
  negative offset, so nothing is dropped and the first page is shown (`NegativePageShowsFirstPage`).
- A failed availability fetch rejects the promise. The callback never runs and the
  availability list stays as it was; the catalog stays visible.
- The filter compares the product's `type` field with `tabs[selectedTab]`. A tab index
  outside the three tabs gives `undefined`, which matches no product.

## Model

| member | source | states |
|---|---|---|
| `Catalog.TabAt` | src/main-view.ts:127 | the tab label exists exactly for indices 0 to 2 and is then the label at that index: 0 is "accessories", 1 "jackets", 2 "shirts"; otherwise it is undefined |
| `Catalog.FilterByTab` | src/main-view.ts:127 | a record is kept iff it is in the catalog and its type equals the selected tab label; never longer than the catalog |
| `Catalog.FilterPreservesOrder` | src/main-view.ts:127 | the filtered list is a subsequence of the catalog (catalog order kept) |
| `Catalog.FilterKeepsEveryMatch` | src/main-view.ts:127 | each matching record occurs in the result as often as in the catalog, any other record not at all |
| `Catalog.Merge` | src/main-view.ts:181 | the merged catalog is accessories, then jackets, then shirts, with the summed length and the union multiset |
| `Catalog.FetchAllData` | src/main-view.ts:179-182 | the catalog load succeeds iff all three category fetches do, and then yields their merge in declaration order |
| `Catalog.ManufacturersAreDistinctAndComplete` | src/main-view.ts:205 | the manufacturer list has no duplicates, holds every product's manufacturer and nothing else, in first-appearance order |
| `Catalog.Manufacturers` | src/main-view.ts:205 | the manufacturer list has no duplicates and holds every product's manufacturer; `ManufacturersAreDistinctAndComplete` adds that it holds nothing else, in first-appearance order |
| `Catalog.FetchAvailabilities` | src/main-view.ts:208 | the fan-out succeeds iff every manufacturer's fetch does, and then gives one response per manufacturer in manufacturer order |
| `Sequences.Uniq` | src/main-view.ts:205 | the result has no duplicates and the same elements as its input |
| `Sequences.UniqFirstAppearanceOrder` | src/main-view.ts:205 | the distinct elements are ordered by their first occurrence in the input |
| `Text.ToUpperCase` | src/main-view.ts:193 | upper-casing keeps the length and maps each character to its upper-case form |
| `Text.ToUpperCaseNormalizes` | src/main-view.ts:193 | an upper-cased id has no lower-case letter, upper-casing fixes upper-case text and is idempotent |
| `Pagination.CeilDiv` | src/main-view.ts:158 | the result is the ceiling of n / d, for positive and for negative d |
| `Pagination.GetPaginatedItems` | src/main-view.ts:149-161 | page and page size are never zero after defaulting, `total` is the list length, the page is no longer than the list |
| `Pagination.PageDefaults` | src/main-view.ts:150-151 | page 0 becomes 1 and page size 0 becomes 100; other values are kept |
| `Pagination.PageIsSlice` | src/main-view.ts:152-153 | the page is the contiguous slice from (page-1)*size to page*size, cut at the list end; its length is min(size, max(0, total - offset)); past the end it is empty |
| `Pagination.PageFromOneIsSlice` | src/main-view.ts:152-153 | for a page from 1 and a positive size, the page is items[(page-1)*size .. page*size] cut at the list end |
| `Pagination.NegativePageShowsFirstPage` | src/main-view.ts:150-153 | a negative page yields the same items as page 1 |
| `Pagination.TotalPagesIsCeiling` | src/main-view.ts:158 | `total_pages` is the fewest pages of that size holding all items; it is 0 exactly for an empty list |
| `Pagination.PagesTileItems` | src/main-view.ts:149-160 | pages 1 to n, concatenated, are the first n*size items |
| `Pagination.AllPagesAreTheItems` | src/main-view.ts:149-160 | pages 1 to `total_pages`, concatenated, are exactly the list |
| `Pagination.TwentyFiveItemsInPagesOfTen` | src/main-view.ts:149-160 | with 25 items and size 10 there are 3 pages; page 3 holds the last 5 items and page 4 none |
| `AvailabilityIndex.EntryOf` | src/main-view.ts:213-219 | a record's entry keeps its id and carries the element's text, or "" when the element is absent |
| `AvailabilityIndex.Entries` | src/main-view.ts:210-221 | the loops push exactly as many entries as there are records |
| `AvailabilityIndex.EntriesAppend` | src/main-view.ts:210-221 | the entries of two batches of responses are the first batch's followed by the second's |
| `AvailabilityIndex.EntriesAt` | src/main-view.ts:210-221 | record j of response i yields the entry at position (records before response i) + j, in response-then-record order |
| `AvailabilityIndex.FirstMatch` | src/main-view.ts:193 | the found position holds the key and no earlier one does; with no position found, no entry holds the key |
| `AvailabilityIndex.Join` | src/main-view.ts:192-199 | the join never fails: it yields "" when no entry has the upper-cased product id, and otherwise the payload of the first entry with that id |
| `AvailabilityIndex.JoinFindsFirstMatch` | src/main-view.ts:192-199 | the join yields the payload of the first entry whose id equals the upper-cased product id |
| `AvailabilityIndex.JoinMissIsEmpty` | src/main-view.ts:196-197 | without such an entry the join yields "" and does not fail |
| `AvailabilityIndex.JoinAfterAppend` | src/main-view.ts:193 | appended entries never shadow an earlier match; without an earlier match the join falls through to the appended ones |
| `AvailabilityIndex.LowerCaseIdNeverJoins` | src/main-view.ts:193 | an entry whose id has a lower-case letter is never the matched entry |
| `AvailabilityIndex.JoinIgnoresProductCase` | src/main-view.ts:193 | product ids differing only in letter case join identically |
| `View.ShownIsPageOfTab` | src/main-view.ts:126-128 | from page 1 on, the shown products are the current-page slice of the selected tab's products |
| `View.ShownFitsOnePage` | src/main-view.ts:126-128 | the shown products are at most one page long |
| `View.ShownPastEndIsEmpty` | src/main-view.ts:126-128 | a page past the end of the selected tab shows no products, and is not an error |
| `View.ShownKeepsTabAndOrder` | src/main-view.ts:126-128 | every shown product is in the catalog with the selected tab's type, and they keep catalog order |
| `View.MainView.constructor` | src/main-view.ts:58-72 | a new view is on tab 0, page 1, ten items a page, with nothing loaded, and satisfies the invariant |
| `View.MainView.UpdateProductList` | src/main-view.ts:126-128 | `products` becomes the current page of the selected tab; only `products` changes |
| `View.MainView.SelectionChanged` | src/main-view.ts:118-124 | the tab becomes the event's value and the page 1 whatever it was; products are recomputed; catalog and availability unchanged |
| `View.MainView.DisableNext` | src/main-view.ts:137-139 | the next-page button is never disabled; `NextPage` therefore always advances |
| `View.MainView.DisablePrevious` | src/main-view.ts:162-164 | from page 1 on, the previous-page button is disabled exactly when no earlier page exists; `PreviousPage` relies on it |
| `View.MainView.NextPage` | src/main-view.ts:130-139 | the page always advances by exactly 1 and products are recomputed; the invariant (page at least 1) is kept |
| `View.MainView.PreviousPage` | src/main-view.ts:142-147 | on page 1 nothing changes; otherwise the page goes back by exactly 1 and products are recomputed; page stays at least 1 |
| `View.MainView.GetAvailibility` | src/main-view.ts:192-199 | a product's stock text is "" when no availability entry has its upper-cased id, and otherwise the payload of the first entry with that id |
| `View.MainView.AddAvailability` | src/main-view.ts:208-223 | the availability list becomes its old value followed by the entries of all responses; nothing else changes |
| `View.MainView.PushRecords` | src/main-view.ts:212-220 | for one response, the list grows by exactly one entry per record, in record order |
| `View.MainView.LoadData` | src/main-view.ts:201-226 | a failed catalog fetch changes nothing; otherwise `data` is the merged catalog, the current page is shown, the availability of each distinct manufacturer is appended (nothing when that fan-out fails); tab and page unchanged |
| `View.AccessoriesScenario` | src/main-view.ts:192-221 | two accessories and a jacket: the accessories tab shows both accessories only; the one with an in-stock record gets the element's text, the other "" |

## Left out

- Rendering is not modelled: `render`, the lit-html templates, the twind style sheet, the
  vaadin tabs, `requestUpdate` and `connectedCallback` are presentation and framework plumbing.
- Network I/O is not modelled: `fetch`, the URL built from `rootUrl`, the status check and
  `response.json()` are function parameters. A decoded body is taken to have the declared
  shape; a body without a `response` array is not modelled.
- Promise scheduling is not modelled. `Promise.all` becomes an all-or-nothing function over
  the results in declaration order. The availability callback runs at the end of
  `LoadData`, although in the browser it runs later and user actions can come in between;
  none of those actions touches `availibility`, so the resulting state is the same.
- XML parsing is the `extract` parameter: the foreign `DOMParser` / `querySelector` calls
  are not modelled.
- JavaScript numbers are modelled as integers. Fractional or `NaN` page numbers and page
  sizes are not modelled. `price` is a `real` and is never computed with.
- Text.ToUpperCase: maps only the ASCII letters a–z. JavaScript's full Unicode case mapping,
  including mappings that change the length, is not modelled.
- Host-page writes to the public `selectedTab` property are not modelled: it changes only
  through `SelectionChanged`.
- `src/index.ts` is not part of this model. It is a DOM-table script that repeats the same
  merge, `_.uniq` and upper-cased `find`.
