# Record list controller, modelled in Dafny

This project models `RecordListView`, the Lightning Web Component controller in
`dynamicCustomListview.js`. The controller shows a paginated, searchable and
sortable list of records from a data service. It renders a table on desktop and
cards on mobile. The model keeps the controller's state as one immutable
`State` value. Each handler is a pure transition on that state.

- **Field resolution** (`FieldResolver`). `getFieldValue` walks a dotted path
  through nested record values. Each kind of absence gives `''`.
- **Display formatting** (`Formatting`). `formatDisplayValue` dispatches on the
  column type. `formatPhone` reformats exactly ten digits as `(XXX) XXX-XXXX`.
- **Column mapping** (`Columns`). `setupColumns` and `isLinkField` turn the
  configured field entries into column descriptors. `getSortIconForField` gives
  the per-column sort arrow.
- **Mobile grouping** (`MobileFields`). `setupMobileFields` picks a primary
  cell, splits the other cells into visible and hidden ones, and picks a subtitle.
- **Controller** (`ListController`). `loadConfig`, `loadRecords`, `handleSearch`,
  `handleSort`, `handleLoadMore`, `handleScroll`, `handleRefresh`,
  `handleCardExpand` and `showLoadMoreButton` are modelled. The asynchronous
  `loadRecords(reset)` is split at its `await`:
  - `BeginLoad` is the synchronous part. It sets `isLoading`, clears the error,
    clears the lists on a reset, and returns the `getRecords` request it issues.
  - `CompleteLoad` runs when that request settles. It gets a response or a
    rejection, and it reads the state as it is at that moment.
  `Event`/`Apply` gather all transitions into one state machine.
- **Properties** (`ListProperties`). These are the invariants and multi-step
  facts: the displayed list follows the records and the expansion set, row
  numbers stay gapless, keys are unique, the debounced search fires at most
  once, a card toggled twice is restored, and appends only start under the guard.

Helper modules: `Optional` (the `Option` type) and `Text` (ASCII lower-casing,
`includes`, `split`/`join`, and the decimal text of integers).

## The code as written

The model follows the code. The points below are easy to get wrong when the
component is read as a generic incremental list:

- A failed fetch empties `records` and `displayedRecords` even when the fetch was
  an append. It does not touch `hasMoreRecords` or `currentOffset`. So after a
  failed append, the load-more button still shows. The next page is then numbered
  on from the old offset on an empty list (`FailedAppendKeepsOffset`).
- The expansion set is cleared only by `handleRefresh`. Sorting and searching
  keep it.
- One `isLoading` flag guards appends. Sorting, searching and refreshing start a
  reset load even while another load runs. No staleness check exists, so
  whichever response settles last is applied.
- `hasMoreRecords` is never forced to `false` on an error.
- `loadingType` is any string. Only `'loadMore'` and `'infiniteScroll'` change
  behaviour.

## Model

| member | source | states |
|---|---|---|
| `FieldResolver.GetFieldValue` | force-app/main/default/lwc/dynamicCustomListview/dynamicCustomListview.js:331-349 | Never fails. A missing record or empty field name gives `''`. Otherwise both code branches (dotted walk with early break, direct lookup) equal one reference reading: split on `.`, look up each segment in turn, and render the end value (`''` when null/undefined) |
| `FieldResolver.Member` | force-app/main/default/lwc/dynamicCustomListview/dynamicCustomListview.js:338 | `value?.[part]` gives `undefined` on anything but an object, and on an object gives the own property when present and `undefined` otherwise |
| `FieldResolver.Render` | force-app/main/default/lwc/dynamicCustomListview/dynamicCustomListview.js:343-346 | `value != null ? String(value) : ''` is empty exactly for null, undefined and the empty string, and is a primitive's own text |
| `FieldResolver.Walk` | force-app/main/default/lwc/dynamicCustomListview/dynamicCustomListview.js:337-342 | The loop with its early `break` ends either at the same value as reading every segment, or at a null/undefined value where reading on would also be null/undefined |
| `FieldResolver.WalkRendersAsDescend` | force-app/main/default/lwc/dynamicCustomListview/dynamicCustomListview.js:337-342 | Breaking out of the loop at the first null/undefined segment renders the same as continuing the optional-chaining lookups to the end |
| `FieldResolver.MissingSegmentGivesEmpty` | force-app/main/default/lwc/dynamicCustomListview/dynamicCustomListview.js:335-342 | If any prefix of the dotted path reaches a null or undefined value, the result is `''` |
| `FieldResolver.NestedFieldRoundTrip` | force-app/main/default/lwc/dynamicCustomListview/dynamicCustomListview.js:331-349 | Store a value at a dotted path in nested objects, then read the joined path back: the result is the value's string form |
| `Text.Split` | force-app/main/default/lwc/dynamicCustomListview/dynamicCustomListview.js:336 | `split('.')` gives at least one piece, no piece holds a dot, and joining the pieces with dots gives the input back |
| `Text.SplitOfJoin` | force-app/main/default/lwc/dynamicCustomListview/dynamicCustomListview.js:336 | Splitting a dot-join of dot-free pieces gives the pieces back |
| `Text.IncludesIffOccurs` | force-app/main/default/lwc/dynamicCustomListview/dynamicCustomListview.js:377-381 | The left-to-right `includes` scan succeeds exactly when the substring occurs at some index |
| `Text.ToLower` | force-app/main/default/lwc/dynamicCustomListview/dynamicCustomListview.js:205-207 | `toLowerCase` on ASCII keeps the length, turns each upper-case letter into its lower-case form, keeps every other character, and leaves no upper-case letter |
| `Text.MentionsAny` | force-app/main/default/lwc/dynamicCustomListview/dynamicCustomListview.js:204-208 | A chain of `toLowerCase().includes(word)` tests joined by `||` holds exactly when one of the words occurs in the lower-cased name |
| `Text.NatToString` | force-app/main/default/lwc/dynamicCustomListview/dynamicCustomListview.js:125 | The decimal text of a number is non-empty and all digits, with no leading zero: it starts with `0` exactly for 0 |
| `Text.DigitsValueOfNatToString` | force-app/main/default/lwc/dynamicCustomListview/dynamicCustomListview.js:125 | Reading the decimal text back gives the number that was written |
| `Text.IntToString` | force-app/main/default/lwc/dynamicCustomListview/dynamicCustomListview.js:125 | `${n}` holds only digits and `-`, starts with a digit exactly when `n` is non-negative, and starts with `-` for a negative `n` |
| `Text.IntToStringReadsBack` | force-app/main/default/lwc/dynamicCustomListview/dynamicCustomListview.js:125 | Reading `${n}` back gives `n`: a non-negative `n` is all digits denoting it, a negative one is `-` followed by digits denoting its magnitude |
| `Text.IntToStringInjective` | force-app/main/default/lwc/dynamicCustomListview/dynamicCustomListview.js:125 | Different integers render as different text |
| `Formatting.Digits` | force-app/main/default/lwc/dynamicCustomListview/dynamicCustomListview.js:422 | `replace(/\D/g, '')` keeps only digits and never lengthens the value |
| `Formatting.DigitsKeepsEveryDigit` | force-app/main/default/lwc/dynamicCustomListview/dynamicCustomListview.js:422 | `replace(/\D/g, '')` keeps every digit as often as it occurs and drops every other character |
| `Formatting.FormatPhone` | force-app/main/default/lwc/dynamicCustomListview/dynamicCustomListview.js:420-430 | A value with exactly ten digits becomes a 14-character `(XXX) XXX-XXXX` whose digits are the value's digits in order. Any other value comes back unchanged |
| `Formatting.FormatPhoneIdempotent` | force-app/main/default/lwc/dynamicCustomListview/dynamicCustomListview.js:420-430 | Formatting an already formatted phone number changes nothing |
| `Formatting.FormatDisplayValue` | force-app/main/default/lwc/dynamicCustomListview/dynamicCustomListview.js:351-366 | An empty value displays as `''`. `phone` goes through `formatPhone`. Every type without a platform formatter shows the value unchanged |
| `Formatting.DisplayValueEmptyIffValueEmpty` | force-app/main/default/lwc/dynamicCustomListview/dynamicCustomListview.js:351-366 | For every type except the four platform-formatted ones, the display value is empty exactly when the value is empty |
| `Columns.IsLinkField` | force-app/main/default/lwc/dynamicCustomListview/dynamicCustomListview.js:377-381 | True exactly when `name`, `email` or `url` occurs in the lower-cased field name |
| `Columns.ToColumn` | force-app/main/default/lwc/dynamicCustomListview/dynamicCustomListview.js:178-197 | An entry yields a column exactly when it names a field (a non-empty string, or an object with a non-empty `fieldName`); the column carries that name and the down arrow, and a bare name gives a sortable `text` column labelled by `formatLabel` with the `isLinkField` flag. `null` and other values yield none |
| `Columns.MapEntries` | force-app/main/default/lwc/dynamicCustomListview/dynamicCustomListview.js:177-197 | One column per entry with a field name, each with a non-empty field name and the down arrow |
| `Columns.MapEntriesFromEntries` | force-app/main/default/lwc/dynamicCustomListview/dynamicCustomListview.js:177-197 | Every column the filter keeps is the column of some entry of the list |
| `Columns.SetupColumns` | force-app/main/default/lwc/dynamicCustomListview/dynamicCustomListview.js:175-199 | A `null` entry anywhere in the list makes the mapping throw (no columns). Otherwise an empty `fields` list keeps the previous columns and a non-empty one replaces them with the mapped entries |
| `Columns.MapEntriesKeepsOrder` | force-app/main/default/lwc/dynamicCustomListview/dynamicCustomListview.js:177-197 | Mapping keeps input order: the columns of `a + b` are the columns of `a` followed by those of `b` |
| `Columns.NameEntryColumn` | force-app/main/default/lwc/dynamicCustomListview/dynamicCustomListview.js:178-186 | A bare name becomes a sortable `text` column whose link flag is `isLinkField`. An empty name is dropped |
| `Columns.ObjectEntryColumn` | force-app/main/default/lwc/dynamicCustomListview/dynamicCustomListview.js:187-195 | An object entry without a field name is dropped. Otherwise it is sortable unless `sortable` is exactly `false`, a link only when `isLink` is `true`, typed `text` unless it has a type, and labelled by the formatted name unless it has a label |
| `Columns.SortIconFor` | force-app/main/default/lwc/dynamicCustomListview/dynamicCustomListview.js:482-487 | The arrow points up exactly for the sort field in ascending order |
| `MobileFields.FindIndex` | force-app/main/default/lwc/dynamicCustomListview/dynamicCustomListview.js:204-208 | `findIndex` gives the first position satisfying the test, or none when no position does |
| `MobileFields.IsPrimaryName` | force-app/main/default/lwc/dynamicCustomListview/dynamicCustomListview.js:204-208 | A cell is a primary candidate exactly when `name`, `title` or `subject` occurs in its lower-cased field name |
| `MobileFields.IsSubtitleName` | force-app/main/default/lwc/dynamicCustomListview/dynamicCustomListview.js:226-229 | A cell is a subtitle candidate exactly when `id` or `number` occurs in its lower-cased field name |
| `MobileFields.VisibleCount` | force-app/main/default/lwc/dynamicCustomListview/dynamicCustomListview.js:218 | `visibleMobileFields || 2` is never 0: a missing or zero setting gives 2, any other setting is used as is (negative included) |
| `MobileFields.SliceIndex` | force-app/main/default/lwc/dynamicCustomListview/dynamicCustomListview.js:219-220 | `slice` clamps a non-negative end index to the length; a negative one counts back from the end, clamped at 0 |
| `MobileFields.SplitPrimary` | force-app/main/default/lwc/dynamicCustomListview/dynamicCustomListview.js:204-216 | The primary cell is the first whose name holds `name`/`title`/`subject`, or else cell 0. The other cells follow in order with only the primary removed |
| `MobileFields.SplitVisible` | force-app/main/default/lwc/dynamicCustomListview/dynamicCustomListview.js:218-220 | Visible then hidden are the two slices at the same index and concatenate to all the other cells. A positive count shows at most `count` cells, exactly `count` when any are hidden; a negative count hides the last `-count` cells (all of them when there are fewer) |
| `MobileFields.SubtitleOf` | force-app/main/default/lwc/dynamicCustomListview/dynamicCustomListview.js:226-232 | A subtitle exists exactly when some cell's name holds `id`/`number`. It is the display value of the first such cell, searched over all cells |
| `MobileFields.SetupMobileFields` | force-app/main/default/lwc/dynamicCustomListview/dynamicCustomListview.js:201-233 | No layout without cells. Otherwise the primary choice, the visible cells as the `slice(0, count)` of the others (default count 2, negative counts from the end) with the rest hidden, `showExpandButton` iff expandable and something is hidden, and the subtitle of the first `id`/`number` cell |
| `ListController.RowKeyInjective` | force-app/main/default/lwc/dynamicCustomListview/dynamicCustomListview.js:125 | Equal row keys mean equal Ids and equal positions |
| `ListController.RowKey` | force-app/main/default/lwc/dynamicCustomListview/dynamicCustomListview.js:125 | A row key is as long as the Id, one underscore and the position's decimal text, with the underscore right after the Id |
| `ListController.RowKeyParts` | force-app/main/default/lwc/dynamicCustomListview/dynamicCustomListview.js:125 | The key reads back as the Id before the underscore and the position's decimal text after it |
| `ListController.MakeCells` | force-app/main/default/lwc/dynamicCustomListview/dynamicCustomListview.js:130-141 | One cell per column, in column order. Each cell copies its column's field name, label and link flag, and holds the resolved field value and its formatted display value |
| `ListController.IdColumnShowsId` | force-app/main/default/lwc/dynamicCustomListview/dynamicCustomListview.js:124-133 | For a record whose `Id` field is its `Id`, an `Id` column's cell shows the row's `Id` |
| `ListController.MakeRow` | force-app/main/default/lwc/dynamicCustomListview/dynamicCustomListview.js:122-145 | The row for a fetched record at list position `n` keeps the record's Id. It gets row number `n + 1`, key `Id_n`, the record's cells, and the mobile layout of those cells under the configuration's visible count and expandability |
| `ListController.MapRecords` | force-app/main/default/lwc/dynamicCustomListview/dynamicCustomListview.js:122-145 | The k-th fetched record keeps its Id, gets row number `offset + k + 1`, key `Id_(offset + k)`, its cells and their mobile layout |
| `ListController.Decorate` | force-app/main/default/lwc/dynamicCustomListview/dynamicCustomListview.js:149-158 | Each displayed row is its record unchanged, flagged expanded iff its Id is in the expansion set |
| `ListController.BeginLoad` | force-app/main/default/lwc/dynamicCustomListview/dynamicCustomListview.js:102-120 | Starting a load sets `isLoading` and clears the error. A reset also sets offset 0 and empty lists. It requests a page at the (new) offset with the current term and sort. Nothing else changes |
| `ListController.SortBy` | force-app/main/default/lwc/dynamicCustomListview/dynamicCustomListview.js:113 | With a sort field the argument is the field, a space and `ASC`/`DESC`; without one it is the configured `sortBy` |
| `ListController.LoadFailed` | force-app/main/default/lwc/dynamicCustomListview/dynamicCustomListview.js:166-172 | A failure sets the error message (with fallback) and empties both lists. Everything else stays, including `hasMoreRecords` and the offset |
| `ListController.PageLoaded` | force-app/main/default/lwc/dynamicCustomListview/dynamicCustomListview.js:147-164 | On success the records become the kept rows (none on reset) plus the mapped page. The displayed list gains the same rows with expansion flags. The offset becomes the server's offset plus the number of records returned, and `hasMoreRecords`/`totalRecords` come from the response |
| `ListController.CompleteLoad` | force-app/main/default/lwc/dynamicCustomListview/dynamicCustomListview.js:102-173 | Loading ends after both success and failure. Any failure, reset or append, empties both lists and leaves `hasMoreRecords` and the offset alone |
| `ListController.ConfigSettled` | force-app/main/default/lwc/dynamicCustomListview/dynamicCustomListview.js:84-100 | A loaded configuration installs itself, its title, page size (default 10), loading type (default `loadMore`) and columns, clears the error and both lists, and starts a reset load at offset 0 with the current search term and sort. A rejection, or a `null` field entry, clears configuration and columns, sets the error and the `Records` title and fetches nothing (after a `null` entry the new page size and loading type stay). Search, sort, expansions and lists are untouched by a failure |
| `ListController.ConfigFailed` | force-app/main/default/lwc/dynamicCustomListview/dynamicCustomListview.js:94-99 | The `catch` of `loadConfig` sets the error (message or fallback), the empty configuration, no columns and the `Records` title, and changes nothing else |
| `ListController.PageSizeOf` | force-app/main/default/lwc/dynamicCustomListview/dynamicCustomListview.js:90 | `config.pageSize || 10` is never 0: a missing or zero page size gives 10, any other is kept |
| `ListController.LoadingTypeOf` | force-app/main/default/lwc/dynamicCustomListview/dynamicCustomListview.js:91 | `config.loadingType || 'loadMore'` is never empty: an empty or missing type gives `loadMore` |
| `ListController.ListTitle` | force-app/main/default/lwc/dynamicCustomListview/dynamicCustomListview.js:87-89 | With a record type the title is that type, a space, the object name and `s`; without one it is the object name and `s`. A missing object name shows as `undefined` |
| `ListController.Interpolated` | force-app/main/default/lwc/dynamicCustomListview/dynamicCustomListview.js:87-89 | A template literal shows a present string as itself and a missing one as `undefined` |
| `ListController.ErrorText` | force-app/main/default/lwc/dynamicCustomListview/dynamicCustomListview.js:95 | `error.body?.message || fallback`: a non-empty message wins, otherwise the fallback, so a non-empty fallback never gives an empty error |
| `ListController.HandleSearch` | force-app/main/default/lwc/dynamicCustomListview/dynamicCustomListview.js:235-250 | Typing replaces the pending debounced term and changes nothing else |
| `ListController.SearchTimerFires` | force-app/main/default/lwc/dynamicCustomListview/dynamicCustomListview.js:244-249 | When the timer fires, the pending term becomes the search term. A fetch starts iff it differs from the old term, and then it is exactly a reset load from the state with the new term: loading, no error, empty lists, offset 0, nothing else changed, and a first-page request with that term and the current sort |
| `ListController.HandleSort` | force-app/main/default/lwc/dynamicCustomListview/dynamicCustomListview.js:252-268 | Same field flips the direction, another field sorts ascending. Exactly the columns named by the sort field show the up arrow, and only when ascending; no other column attribute changes. Then a reset load always starts from the state with the new sort and icons: empty lists, offset 0, loading, everything else (search term, expansions) kept, and a request whose `sortBy` is the new field and direction |
| `ListController.GetSortIconForField` | force-app/main/default/lwc/dynamicCustomListview/dynamicCustomListview.js:482-487 | The arrow points up exactly for the controller's sort field in ascending order |
| `ListController.HandleLoadMore` | force-app/main/default/lwc/dynamicCustomListview/dynamicCustomListview.js:270-274 | An append starts iff `hasMoreRecords && !isLoading`, and then only `isLoading` and the error change and the request asks for the page at the current offset with the current page size, term and sort. Otherwise the state is untouched |
| `ListController.HandleScroll` | force-app/main/default/lwc/dynamicCustomListview/dynamicCustomListview.js:314-328 | An append starts iff in infinite-scroll mode, `scrollTop + clientHeight >= scrollHeight - 100`, and the load-more guard holds; it is then the same append as load-more. Otherwise the state is untouched |
| `ListController.NearBottom` | force-app/main/default/lwc/dynamicCustomListview/dynamicCustomListview.js:323 | The position counts as near the bottom exactly when the distance left to scroll is at most the 100-pixel threshold |
| `ListController.HandleRefresh` | force-app/main/default/lwc/dynamicCustomListview/dynamicCustomListview.js:276-280 | Refresh empties the expansion set and starts a reset load from that state: empty lists, offset 0, loading, search and sort kept, and a first-page request with the current term and sort |
| `ListController.HandleCardExpand` | force-app/main/default/lwc/dynamicCustomListview/dynamicCustomListview.js:292-311 | Does nothing unless the configuration is expandable. Otherwise it toggles exactly the given Id, and each displayed row's `isExpanded` becomes its Id's membership, with no other field of the row or state changed |
| `ListController.ShowLoadMoreButton` | force-app/main/default/lwc/dynamicCustomListview/dynamicCustomListview.js:465-467 | The button shows exactly in load-more mode when a load-more click would start an append |
| `ListProperties.LoadedPageNumbering` | force-app/main/default/lwc/dynamicCustomListview/dynamicCustomListview.js:122-163 | An append leaves the existing rows untouched. The i-th new row has the i-th fetched Id and row number `currentOffset + i + 1`. The displayed list gains exactly those rows, each with its expansion flag |
| `ListProperties.DisplayConsistentIsInvariant` | force-app/main/default/lwc/dynamicCustomListview/dynamicCustomListview.js:147-158 | Every event keeps `displayedRecords` equal to the records paired with their expansion flags |
| `ListProperties.MappedRowsWellKeyed` | force-app/main/default/lwc/dynamicCustomListview/dynamicCustomListview.js:122-127 | Mapped rows have key `Id_(rowNumber - 1)`, so appending them to such rows keeps that form |
| `ListProperties.WellKeyedIsInvariant` | force-app/main/default/lwc/dynamicCustomListview/dynamicCustomListview.js:122-127 | Every event keeps each row's key equal to `Id_(rowNumber - 1)` |
| `ListProperties.KeysUnique` | force-app/main/default/lwc/dynamicCustomListview/dynamicCustomListview.js:125 | Rows with distinct row numbers have distinct keys, even when Ids repeat |
| `ListProperties.AppendKeepsGapless` | force-app/main/default/lwc/dynamicCustomListview/dynamicCustomListview.js:153-163 | When the server echoes the requested offset, an append keeps rows numbered 1..n with the offset at n, and leaves earlier rows untouched |
| `ListProperties.ResetPageGapless` | force-app/main/default/lwc/dynamicCustomListview/dynamicCustomListview.js:107-111 | A reset load answered at offset 0 numbers its rows from 1 with no gaps |
| `ListProperties.AppendAllGapless` | force-app/main/default/lwc/dynamicCustomListview/dynamicCustomListview.js:153-163 | Any number of echoed appends keep the list gapless. It grows by exactly the fetched count and keeps its prefix |
| `ListProperties.WellKeyedAppendAll` | force-app/main/default/lwc/dynamicCustomListview/dynamicCustomListview.js:122-127 | Keys stay `Id_(rowNumber - 1)` across any number of appends |
| `ListProperties.ResetThenAppendsGapless` | force-app/main/default/lwc/dynamicCustomListview/dynamicCustomListview.js:102-163 | A reset then N echoed appends totalling M records give row numbers exactly 1..M and pairwise distinct keys |
| `ListProperties.FailedAppendKeepsOffset` | force-app/main/default/lwc/dynamicCustomListview/dynamicCustomListview.js:166-172 | After a failed append the list is empty but the offset and `hasMoreRecords` remain. The load-more button still shows, and the next page is numbered from `n + 1` |
| `ListProperties.SortIconsMatchGetter` | force-app/main/default/lwc/dynamicCustomListview/dynamicCustomListview.js:261-266 | After a sort, each column's stored icon equals `getSortIconForField` on its name |
| `ListProperties.SortTwice` | force-app/main/default/lwc/dynamicCustomListview/dynamicCustomListview.js:254-259 | Sorting a field twice flips the direction back. Sorting by another field makes it current and ascending |
| `ListProperties.TypingKeepsLastTerm` | force-app/main/default/lwc/dynamicCustomListview/dynamicCustomListview.js:239-244 | Typing several terms before the timer fires leaves only the last one pending, with nothing else changed |
| `ListProperties.DebouncedSearchFiresOnce` | force-app/main/default/lwc/dynamicCustomListview/dynamicCustomListview.js:235-250 | A burst of typing yields at most one fetch, carrying the last term, and only if it differs from the current term. Firing again yields none |
| `ListProperties.ToggleTwiceRestores` | force-app/main/default/lwc/dynamicCustomListview/dynamicCustomListview.js:292-311 | Toggling the same card twice restores the whole state |
| `ListProperties.ExpansionClearedOnlyByRefresh` | force-app/main/default/lwc/dynamicCustomListview/dynamicCustomListview.js:235-311 | Refresh empties the expansion set. Every other event except a card toggle leaves it unchanged |
| `ListProperties.NoAppendUnlessGuard` | force-app/main/default/lwc/dynamicCustomListview/dynamicCustomListview.js:270-274 | With no more records or a load running, no event starts an append; any fetch started is a reset |
| `ListProperties.InitialInvariants` | force-app/main/default/lwc/dynamicCustomListview/dynamicCustomListview.js:8-31 | The initial state satisfies display consistency, well-formed keys and gapless numbering |
| `ListProperties.TwoPageSession` | force-app/main/default/lwc/dynamicCustomListview/dynamicCustomListview.js:84-163 | A session with any configuration of page size 2 whose fields contain no null entry. The first page of two rows is numbered 1, 2. Load more asks for offset 2 and brings one record and no more. The rows are then 1, 2, 3 and load more does nothing |

## Left out

- `getRecords` and `getConfig` (the server calls) are not part of this model. Their results enter as `Outcome` values (a response or a rejection with an optional message), fed to `CompleteLoad` and `ConfigSettled`.
- `setTimeout`/`clearTimeout` and the 500 ms delay: only the pending term is modelled. `HandleSearch` replaces it and `SearchTimerFires` consumes it.
- `connectedCallback`, `disconnectedCallback`, `renderedCallback`, `attachScrollListeners` and `removeScrollListeners` are DOM wiring. `connectedCallback` amounts to `ConfigSettled` from `Initial`.
- `handleRowClick` (navigation), `showToast` (including the refresh toast) and `event.stopPropagation` are platform I/O.
- `formatLabel`, `formatCurrency`, `formatDate`, `formatDateTime` and `formatPercent` depend on regex, locale, `Date` and floating point. They are functions in the `Platform` parameter and are never interpreted.
- `lastUpdateTime` is taken from a `now` parameter. The getters `itemsDisplayText`, `sortInfoText`, `filterInfoText`, `updateInfoText`, `showInfiniteScroll`, `filteredRecords` and `getSortIcon` are display text or trivial, so they are left out.
- `toLowerCase` is modelled on ASCII letters only, because Unicode case mapping is not needed for field API names.
- `FieldResolver.GetFieldValue`: reading a property of a primitive (such as `"abc".length`) and reading an inherited property of an object (such as `toString` or `constructor` from `Object.prototype`) give `undefined` in the model, because records from the data service hold own properties and scalars only and field names are API names. The `catch` branch is left out because nothing in the modelled lookup throws.
- `Formatting.FormatDisplayValue`: says nothing about `currency`, `date`, `datetime` or `percent` output, because those formatters are opaque platform functions.
- A record's `Id` is always a string in the model, because the data service always returns one. `record.Id` and an `Id` column read the same property; the model keeps the `Id` apart from the other fields and relates the two only for records satisfying `WellFormedRecord` (`IdColumnShowsId`). Mapping errors inside the `try` (such as a response without `records`) are not modelled.
- Offsets, page sizes and scroll positions are integers. JavaScript's floating-point numbers and exponent notation for huge numbers are not modelled.
- Configuration values of unexpected JavaScript types (such as a string `pageSize`) are not modelled. `sortable` and `isLink` are optional booleans, and `visibleMobileFields` and `pageSize` are optional integers with JavaScript's `|| default` handling of 0.
