# manapoolsheet in Dafny

This project models the order-to-shelf logic of manapoolsheet in Dafny. manapoolsheet is a set of Python tools for a seller of Magic: The Gathering singles on the ManaPool marketplace. The model covers three tools:

- **manapoolsheet.py** fetches orders and filters them by fulfilment status. It turns every order line into a line item and resolves each card's set to a physical storage location, asking the operator about new sets. It caches card images by a generated key and sorts the items into a five-key pick path.
- **picklist_gui.py** is the picking window. It loads a picklist CSV into cards, filters and sorts them, shows the remaining or grabbed cards, and groups them by location. It toggles and counts grabbed cards, saves and restores progress, and looks up prices and images on Scryfall through caches.
- **quick_fulfillment_updater.py** pages through the open orders and reads the operator's choice of action and orders (`all`, `a-b`, single numbers). It sends one fulfilment update per chosen order, in ascending order, and counts the successes and failures.

The outside world enters as parameters:

- Scryfall and the marketplace are oracle functions from a request to an answer.
- The images directory is a set of existing paths.
- The operator's keyboard is a finite sequence of lines.
- The listing server is a sequence of raw orders plus the offsets whose request fails.

Module layout, one file each:

| file | module | models |
|---|---|---|
| wrappers.dfy | Wrappers | Option |
| text.dfy | Text | the string operations the scripts use: ASCII `upper`/`lower`, `strip`, `in`, `split`, `int()`, `replace` |
| ordering.dfy | Ordering | filters, total preorders, lexicographic order, and Python's stable `sort` as a stable insertion sort |
| natural_key.dfy | NaturalSort | `natural_sort_key` |
| locations.dfy | Locations | `load_set_locations` key normalisation, `get_location_for_set` (script and GUI) |
| image_cache.dfy | Images | `generate_image_key`, `download_card_image`, the `image_cache` step of `main` |
| card_lookup.dfy | Scryfall | the Scryfall lookup chains and `extract_price_from_data` |
| pick_list.dfy | OrderExport | `main` of manapoolsheet.py: status filter, item assembly, saves |
| pick_path.dfy | Picking | the five-key pick sort |
| picklist_gui.dfy | Picklist | the `PicklistGUI` state and methods, widgets stripped |
| fulfillment_updater.dfy | FulfillmentUpdater | quick_fulfillment_updater.py |

## Model

| member | source | states |
|---|---|---|
| Locations.NormalizeKeysSpec | manapoolsheet.py:44-56 | Loading upper-cases every key. Every input key's upper case is in the map. Each entry holds the value of the last pair with that upper-cased key. |
| Locations.UpperKeyedFixed | manapoolsheet.py:677-679 | A map whose keys are already upper case is unchanged by the upper-casing rewrite done before saving. |
| Locations.LocationResolver.GetLocationForSet | manapoolsheet.py:154-196 | A known set (any case) returns its stored location with no prompt and no state change. A set already asked this run is not asked again. A new set is added to the asked set first, and the prompt over the naturally sorted distinct existing locations decides. A stored location is never overwritten. |
| Locations.LocationResolver.Ask | manapoolsheet.py:168-196 | The operator loop: the outcome is the prompt protocol's, and a chosen location is stored under the upper-cased key. The asked set is left alone. |
| Locations.PromptChoice | manapoolsheet.py:176-196 | A chosen location is one of the listed options, or a non-empty stripped name typed on the line after the "new" number. Only the unread lines remain, and running out of lines ends the prompt. |
| Locations.ReadAnswer | manapoolsheet.py:176-196 | The prompt protocol on the operator's lines: a picked number indexes one of the n options, and a typed name is never empty. |
| Locations.ReadAnswerSkips | manapoolsheet.py:176-196 | Each answer is a pick on the first line, a name on the second, the answer of the lines after one or two rejected lines, or the end of input. |
| Locations.PromptSkipsRejected | manapoolsheet.py:176-196 | Any run of rejected lines (out of range, non-numeric, empty name) is skipped without effect on the outcome. |
| Locations.PromptDropsRejected | manapoolsheet.py:176-196 | A single rejected line is dropped and the prompt starts again. |
| Locations.LocationResolver.SavedMapping | manapoolsheet.py:59-66 | The mapping saved is the resolver's current mapping. |
| Locations.GuiLocationForSet | picklist_gui.py:397-401 | An empty set code gives "Unknown". Otherwise the location stored under the upper-cased code, or "Unassigned". |
| Locations.GuiLocationIgnoresCase | picklist_gui.py:397-401 | Set codes equal up to case get the same location. |
| NaturalSort.NaturalKeyAlternates | manapoolsheet.py:148-151 | The key alternates text and number pieces, starting and ending with text. |
| NaturalSort.RunsConcat | manapoolsheet.py:148-151 | The runs the digit split produces concatenate back to the string. |
| NaturalSort.RunsShape | manapoolsheet.py:148-151 | The runs alternate digit-free text and non-empty digit groups. |
| NaturalSort.NaturalKeyIgnoresCase | manapoolsheet.py:148-151 | Lower-casing the string does not change its key. |
| NaturalSort.NaturalLeTotalPreorder | manapoolsheet.py:148-151 | Comparing natural keys is a total preorder, so sorting by them is well defined. |
| NaturalSort.TextThenSmallerNumber | manapoolsheet.py:148-151 | With the same text prefix, the smaller number sorts strictly first, whatever its digit count. |
| NaturalSort.Location2BeforeLocation10 | manapoolsheet.py:148-151 | "Location 2" sorts before "Location 10", although plain string order puts it after. |
| Images.SafeName | manapoolsheet.py:108-112 | The safe name keeps the length and has no ' ' or '/'. Every other character is kept. |
| Images.SplitImageKeyOfImageKey | manapoolsheet.py:108-112 | With underscore-free set code and number, the key splits back into the upper-cased set, the number and the safe name. |
| Images.ImageKeyDistinguishes | manapoolsheet.py:108-112 | Two cards share a key only if their upper-cased sets, numbers and safe names agree. |
| Images.SpaceAndSlashShareAKey | manapoolsheet.py:108-112 | "A B" and "A/B" get the same key in every set. |
| Images.ImageStore.Download | manapoolsheet.py:115-145 | "N/A" gives "N/A" with no request. An existing file is returned with no request. Otherwise exactly one request is made, and the file exists afterwards exactly when the request succeeded ("N/A" otherwise). |
| Images.ImageCache.LocalImage | manapoolsheet.py:639-655 | A hit on an existing file is returned unchanged, with no download. A hit on a vanished file, or a miss, downloads and records the result. Only this key's entry changes. |
| Scryfall.ImageUriSpec | manapoolsheet.py:217-239 | The by-print lookup comes first. The by-name lookup runs exactly when it fails. The URI is the normal image of the last answer, else "N/A". |
| Scryfall.FirstPopulated | picklist_gui.py:706-719 | None exactly when no listed field is populated. Otherwise the value of the first populated field. |
| Scryfall.ExtractPricePrefersUsd | picklist_gui.py:706-719 | A populated usd price is used. With usd, usd_foil and eur empty, eur_foil decides. |
| Scryfall.PriceLookupSpec | picklist_gui.py:660-704 | The print lookup runs exactly when set and number are usable. The name lookup runs exactly when the name is usable and the print lookup gave no truthy price. At most two requests. The price is extracted from the last answer. |
| Scryfall.ImageUrlQueries | picklist_gui.py:721-789 | The print query is asked exactly when set and number are usable. The name query is asked exactly when the name is usable and the print query found no URL. The search query is asked exactly when the set code is neither empty nor "n/a", the name is usable, and neither earlier query found a URL. The queries are asked in that order, each at most once. |
| Scryfall.ImageUrlAnswer | picklist_gui.py:721-789 | Every query before the last found no URL. The URL is the last answer's normal image. |
| Scryfall.ImageUrlLookupSpec | picklist_gui.py:721-789 | At most three queries. Every query but the last found no URL, and the URL is the last answer's normal image. |
| OrderExport.FilterOrdersSpec | manapoolsheet.py:590-602 | Choice 1 keeps exactly the unshipped orders and choice 2 exactly the shipped ones, so together they partition the list. Choice 3 keeps the list. |
| OrderExport.MakeItem | manapoolsheet.py:626-671 | The input runs out exactly when the location lookup of the line's set says so, and then nothing else changes. Otherwise the new item is the line's (fields with "N/A" defaults, the resolver's location, Scryfall's image URI, a local image exactly when images are downloaded and the URI is not "N/A"). Stored locations are only ever added to. |
| OrderExport.AppendItems | manapoolsheet.py:626-671 | The loop over one order's lines ends early exactly when the lookups run out of input. Otherwise it appends one item per line, in order, and the stored locations, new sets, image cache and files stay consistent with all items so far. |
| OrderExport.AssembleItems | manapoolsheet.py:616-671 | Orders without an id or without details contribute nothing. The loop ends early exactly when the lookups run out of input. Otherwise every line of the other orders gives exactly one item, in order, consistent with the mapping and cache as loaded. |
| OrderExport.NewSetsAreUnknownSets | manapoolsheet.py:677-679 | New sets were found exactly when some item's set was not in the loaded mapping. |
| OrderExport.RunExport | manapoolsheet.py:513-722 | Missing credentials and a failed fetch end the run. No matching order, or no line, ends it before any item. The input runs out exactly when the lookups need more lines. An export writes the items in pick order, and what ExportedOk states is saved. |
| OrderExport.ExportedSaves | manapoolsheet.py:626-683 | After a completed loop, locations.json is saved exactly when some item's set was not in the loaded mapping, keeping every loaded entry and storing every item's set. The image cache is saved exactly when images are downloaded and the loaded cache or some item's image makes it non-empty, and it is then the loaded cache with the items' images recorded. Every local image path is "N/A" or an existing file. |
| OrderExport.ExportedFacts | manapoolsheet.py:626-679 | After the loop, a set was new exactly when some item's set was not loaded. Without one, the mapping is the loaded one. Every item's set is stored, and every local image is "N/A" or a file. |
| OrderExport.SavedCache | manapoolsheet.py:681-683 | The cache is written exactly when images are downloaded and it is not empty, and then it is the loaded cache with the items' images. |
| OrderExport.LocationForLine | manapoolsheet.py:634-635 | The lookup for a line's set fails exactly when the input runs out. Otherwise the set is stored with the returned location, nothing stored changes, and the set is recorded as new exactly when it was not stored. |
| OrderExport.LocalImagePath | manapoolsheet.py:640-655 | A local path exists exactly when images are downloaded and the URI is not "N/A". It is "N/A" or an existing file. At most the card's own file is added, and only its key changes in the cache. |
| OrderExport.ResolveAllKnown | manapoolsheet.py:154-196 | A run whose sets are all stored reads no line. The input can only run out at a set that was not stored. |
| OrderExport.ResolveAllStops | manapoolsheet.py:626-635 | Once the input runs out at a line, the whole run has run out. |
| OrderExport.CacheAfterKeys | manapoolsheet.py:639-655 | The saved image cache holds exactly the loaded keys and the keys of the items with a local image. |
| OrderExport.CacheAfterLastWins | manapoolsheet.py:639-655 | When items share an image key, the cache holds the path of the last of them. |
| OrderExport.CacheAfterKeepsLoaded | manapoolsheet.py:639-655 | A loaded entry whose key no item has is kept unchanged. |
| OrderExport.CacheAfterEmpty | manapoolsheet.py:681-683 | The cache is empty exactly when none was loaded and no item has a local image. |
| Picking.PickOrderIsStableSort | manapoolsheet.py:715-722 | The pick order is a stable sort of the items under the five-key order: a permutation, sorted, ties in input order. |
| Picking.PickOrderColumns | manapoolsheet.py:715-720 | Along the rows, location totals never increase. Within one location, set totals never increase. Within one set, names ascend. |
| Picking.PickOrderHead | manapoolsheet.py:715-720 | The first row belongs to a location with the largest total quantity. |
| Picking.PickLeIsColumnsLe | manapoolsheet.py:719-720 | The lexicographic comparison of the five columns is exactly the column-by-column reading of `sort_values`. |
| Picking.PickLeTotalPreorder | manapoolsheet.py:719-720 | The pick comparison is a total preorder. |
| Picking.ThreeItemExample | manapoolsheet.py:715-720 | {A Bin1 5, B Bin1 1, C Bin2 10} picks exactly C, then A, then B, because totals are summed over all the items of a location. |
| Picklist.Card.constructor | picklist_gui.py:360-375 | A card takes its columns from the row, its quantity and its location, and starts ungrabbed with no price. |
| Picklist.GoodPrefix | picklist_gui.py:353-380 | The rows before the first one whose quantity does not parse. |
| Picklist.NewCard | picklist_gui.py:360-375 | The new card reads its row, its location is the GUI's for its set, and it starts ungrabbed with no price. |
| Picklist.ReadCards | picklist_gui.py:353-380 | Reads a card per row until a quantity does not parse, and says whether all rows were read. |
| Picklist.PicklistGui.ResetCards | picklist_gui.py:353-380 | The cards are rebuilt from the rows, all fresh, ungrabbed and priceless. The grabbed keys and the filtered list are emptied. When the Order column of the rows read is all numbers or all not, so are the cards' orders. |
| Picklist.PicklistGui.LoadPicklist | picklist_gui.py:337-395 | The cards read stay loaded either way. A rejected Quantity stops reading, with the filtered list empty. Otherwise the filters are applied, and a sort that raises is caught like the bad row. Loading succeeds exactly when every row parses and the sort does not raise, which it never does when the Order column read is uniform. |
| Picklist.FilteredMembers | picklist_gui.py:217-231 | A card is kept exactly when the search text is in its lower-cased name, set or set code (or is empty) and its location matches the filter (or the filter is "All"). |
| Picklist.PicklistGui.ApplyFilters | picklist_gui.py:217-235 | With cards, the filtered list becomes the sorted filter of the cards, and every card the view then displays has been drawn. When the "Order" sort raises, the result says so, the list holds the filtered cards in some order, and nothing is drawn. Without cards, nothing changes. |
| Picklist.PicklistGui.DrawCards | picklist_gui.py:403-441 | display_cards adds exactly the displayed cards to the drawn ones, and none without cards. |
| Picklist.PicklistGui.SortCards | picklist_gui.py:237-270 | The filtered list becomes the sorted view for the current option and direction. It raises exactly on an "Order" sort of two or more cards whose orders mix numbers and non-numbers, and then keeps the same cards. An unrecognised option leaves the list unchanged. |
| Picklist.UniformNeverRaises | picklist_gui.py:243-250 | When every order is a number, or none is, no search or location filter leaves cards the "Order" sort raises on. |
| Picklist.SortedViewMembers | picklist_gui.py:237-270 | Sorting keeps the same cards, as many of them. |
| Picklist.SortedViewPair | picklist_gui.py:237-270 | Any two cards of the sorted view are in key order, reversed for "desc". |
| Picklist.SortedByKeysSpec | picklist_gui.py:237-270 | The sort is a permutation by positions. Keys are in order, and equal keys keep their input order in both directions, as Python's `reverse=True` does. |
| Picklist.NamedSortOrder | picklist_gui.py:251-260 | A named option orders cards by the lower-cased field. |
| Picklist.MissingPricesFirst | picklist_gui.py:261-270 | Cards without a price come before all priced cards, in both directions. |
| Picklist.OrderSortIsNumeric | picklist_gui.py:243-250 | With numeric order values, "Order" sorts by their integer value. |
| Picklist.PicklistGui.SetFilter | picklist_gui.py:272-284 | A view button clears the search and the location filter and sets the view filter ("All" corrected to clear it, see Findings). Unless the sort raises, the two traced writes draw every card the old view admits, and the last refresh draws the new view. If it raises, only cards of the old view can have been drawn. "All" then shows every card. Any other kind only refreshes. |
| Picklist.PicklistGui.PressViewButton | picklist_gui.py:272-284 | Search and location cleared, the view filter changed, the list refreshed. Unless the sort raises, the cards drawn grow by exactly those the old view and the new view admit. If it raises, they grow by at most those the old view admits. |
| Picklist.PicklistGui.SwitchView | picklist_gui.py:279-284 | With the search and location cleared, the view filter changes and the refresh draws exactly the cards the new view admits, or nothing if the sort raises. |
| Picklist.PicklistGui.ClearSearchAndLocation | picklist_gui.py:274-275 | The two writes each refresh the list under the view in force. Unless the sort of all the cards raises, together they draw exactly the cards that view admits, since the second refresh covers the first. If it raises, they draw at most those. |
| Picklist.PicklistGui.DisplayedSeen | picklist_gui.py:403-441 | The card area draws only cards the view admits, and all of them once the search and the location filter are cleared and the list is sorted. |
| Picklist.AllShowsEverything | picklist_gui.py:272-284 | After "All", the view keeps every card, whatever the view was before. |
| Picklist.PicklistGui.SetSearch | picklist_gui.py:133 | The search text is set and the filtered list refreshed. A sort that raises in the trace draws nothing, and the new text stays. |
| Picklist.PicklistGui.SetLocationFilter | picklist_gui.py:138 | The location filter is set and the filtered list refreshed, drawing nothing if the sort raises. Any location is accepted, as the corrected dropdown offers them (as written only "All" can be chosen, see Findings). |
| Picklist.PicklistGui.SetSortOption | picklist_gui.py:155 | The sort option is set and the filtered list refreshed, drawing nothing if the sort raises. |
| Picklist.PicklistGui.ToggleSortDirection | picklist_gui.py:286-291 | "asc" becomes "desc" and anything else "asc". The filtered list is refreshed, drawing nothing if the sort raises. |
| Picklist.PicklistGui.ClearFilters | picklist_gui.py:293-300 | Search, location, sort and view filter return to their defaults. Unless the "Order" sort of all the cards raises, every card is then drawn; if it raises, only cards the old view admits can have been drawn. Every shown card is then displayed. |
| Picklist.PicklistGui.ResetSortAndView | picklist_gui.py:296-300 | After the first two writes of clear_filters, the sort goes to "Order" ascending and the view to none. Unless the sort raises, every card is drawn; if it raises, nothing more is drawn. |
| Picklist.PicklistGui.ResetViewAndRefresh | picklist_gui.py:297-300 | The direction and the view filter are reset and the last refresh draws every card, unless the sort raises. |
| Picklist.PicklistGui.LocationChoices | picklist_gui.py:302-304 | The values the dropdown update computes and evidently means to install: "All", then each location of the filtered cards once, in string order (as written they are never installed, see Findings). |
| Picklist.FoundCombo | picklist_gui.py:305-311 | The dropdown search finds a combobox exactly when some LabelFrame child holds one directly, and what it finds is a combobox. |
| Picklist.DropdownNeverUpdated | picklist_gui.py:302-313 | As written, the search over the cards tab finds nothing, whatever it shows, so the location values are never installed. |
| Picklist.DropdownInFilterSection | picklist_gui.py:127-170 | The same search over the filter section finds the location combobox, not the sort one. |
| Picklist.PicklistGui.StatusLine | picklist_gui.py:315-326 | Nothing without cards. Otherwise total, grabbed and remaining, where grabbed and remaining sum to the total, plus the filtered count exactly when the filtered list is not empty. |
| Picklist.ViewMember | picklist_gui.py:412-417 | "remaining" keeps exactly the ungrabbed cards, "grabbed" exactly the grabbed ones, and any other view all of them. |
| Picklist.ViewsSplit | picklist_gui.py:319-321 | The remaining and grabbed views split the list, and their sizes are the counts of the status line. |
| Picklist.PicklistGui.DisplayedMember | picklist_gui.py:412-417 | A card is drawn exactly when it is in the filtered list (or in the cards, when the filtered list is empty) and the view admits it. |
| Picklist.IndexByLocation | picklist_gui.py:429-434 | The index has one entry per location of the shown cards. Each entry holds that location's cards in list order. |
| Picklist.GroupByLocation | picklist_gui.py:427-438 | The groups are the shown locations in ascending order, each with its cards in list order. |
| Picklist.PicklistGui.Display | picklist_gui.py:403-441 | The empty state without cards, no results when the view is empty, location sections for the "Location" sort, the flat list otherwise. |
| Picklist.PicklistGui.ToggleGrabbed | picklist_gui.py:819-825 | Only this card's flag changes. Its key is added to the grabbed keys when grabbed and removed otherwise, and the keys stay in step with the flags. |
| Picklist.GrabbedKeysUpdate | picklist_gui.py:819-825 | With distinct keys, the grabbed keys after one flag change differ from before in that card's key only. |
| Picklist.PicklistGui.Summarize | picklist_gui.py:951-990 | Total, grabbed and remaining. Per location, the totals and the grabbed counts, with grabbed at most total. The locations are sorted and their totals sum to the number of cards. The remaining cards are the ungrabbed ones in card order. |
| Picklist.TallyByLocation | picklist_gui.py:960-971 | The grabbed total is the number of grabbed cards. There is one entry per location, counting its cards and its grabbed cards. |
| Picklist.TotalsSumToCards | picklist_gui.py:964-971 | Over distinct locations covering every card, the per-location totals sum to the number of cards. |
| Picklist.GrabbedAtMost | picklist_gui.py:964-971 | A location's grabbed count never exceeds its total. |
| Picklist.PicklistGui.SaveProgress | picklist_gui.py:995-1012 | Nothing without cards. Otherwise the grabbed keys, plus one entry per card under its position and key, holding its flag (corrected, see Findings). |
| Picklist.StatesRecordEveryCard | picklist_gui.py:1009-1012 | The corrected snapshot has an entry with each card's flag and no entry that is not a card's. |
| Picklist.PicklistGui.LoadProgress | picklist_gui.py:1022-1053 | Cards are restored in order, each with an entry taking its flag through the toggle bookkeeping. The run stops at the first card with an entry that was never drawn: that card takes its flag, the KeyError ends the restore, later cards keep theirs, and nothing is redrawn. A complete restore gives the restored flags and redraws. Prices and unrelated grabbed keys are untouched. |
| Picklist.FirstUndrawn | picklist_gui.py:1038-1043 | The first position from a start whose card has an entry but was never drawn, or the end. |
| Picklist.PicklistGui.RestoreCards | picklist_gui.py:1035-1044 | The restore loop stops exactly at the first undrawn card with an entry. Cards before it hold their restored flags and later cards are unchanged. |
| Picklist.PicklistGui.RestoreCard | picklist_gui.py:1038-1043 | One card: it fails exactly when it has an entry but no widget; otherwise it takes its restored flag and only its own key changes. |
| Picklist.PicklistGui.SetFlag | picklist_gui.py:1039-1040 | The card takes the value, and no other card's flag changes. |
| Picklist.RoundTrip | picklist_gui.py:1009-1044 | Loading a snapshot of the cards gives back every saved flag, whatever the flags were before, duplicate keys or not. |
| Picklist.RoundTripAsWrittenWithDistinctKeys | picklist_gui.py:1009-1044 | As written, the round trip restores every flag when the keys are distinct. |
| Picklist.DuplicateKeyLosesProgress | picklist_gui.py:1011 | As written, two cards with one key, the first grabbed, both come back ungrabbed. |
| Picklist.AllAfterRemainingHidesGrabbed | picklist_gui.py:272-284 | As written, "All" pressed after "Remaining" still hides every grabbed card. |
| Picklist.PicklistGui.FetchCardPrice | picklist_gui.py:660-704 | A cached key answers with no request. Otherwise the lookups run, and their result, None included, is cached and returned. Every cached price is the lookup of a card with that key. |
| Picklist.PicklistGui.LoadPrice | picklist_gui.py:617-632 | The card's price becomes the cached price, or the lookup's result. |
| Picklist.PicklistGui.LoadCardImage | picklist_gui.py:721-796 | A cached key answers with no request. Otherwise the lookups run, a URL found is downloaded, and only a successful download is cached. |
| Picklist.CacheKeySplits | picklist_gui.py:664 | With underscore-free set code and number, the cache key splits back into its three parts. |
| Picklist.CacheKeyDetermines | picklist_gui.py:664 | With underscore-free set codes and numbers, equal cache keys mean equal set, number and name. |
| Picklist.CacheKeysCollide | picklist_gui.py:664 | Without that condition, two different cards can share a key. |
| FulfillmentUpdater.Page | quick_fulfillment_updater.py:26-32 | The batch at an offset holds at most 100 rows and is empty exactly past the end. A short non-empty batch ends the listing. |
| FulfillmentUpdater.KeepReadable | quick_fulfillment_updater.py:37-46 | Reading a batch raises exactly when an open order lacks a field. |
| FulfillmentUpdater.KeepRecords | quick_fulfillment_updater.py:37-46 | The records kept are the open orders, in page order, one each. The status is None or '' mapped to 'unfulfilled'. |
| FulfillmentUpdater.KeepPage | quick_fulfillment_updater.py:37-46 | The loop over one batch computes the records kept, or the failure. |
| FulfillmentUpdater.GetUnfulfilledOrders | quick_fulfillment_updater.py:8-57 | The pagination loop returns the orders fetched and the offsets requested. |
| FulfillmentUpdater.FetchAllMeaning | quick_fulfillment_updater.py:8-57 | Missing credentials abort with no request. Otherwise the fetch succeeds exactly when no request fails and no open order lacks a field. It then returns every open order in listing order, after requesting offsets 0, 100, … up to the first short page. |
| FulfillmentUpdater.FetchedIsClean | quick_fulfillment_updater.py:24-55 | A successful fetch had no failing request and no unreadable open order. |
| FulfillmentUpdater.RequestsPerPage | quick_fulfillment_updater.py:34-51 | 100 or 101 orders take two requests. Fewer than 100 take one. |
| FulfillmentUpdater.Api.UpdateOrderStatus | quick_fulfillment_updater.py:60-77 | Sends one update. The result is true exactly when the answer is HTTP 200, and false when the request raises. |
| FulfillmentUpdater.ReadSelection | quick_fulfillment_updater.py:125-142 | The selection loop computes the selection the parts describe, or stops at the first part that does not parse. |
| FulfillmentUpdater.SelectPartsChosen | quick_fulfillment_updater.py:129-142 | A selection succeeds exactly when every part parses. |
| FulfillmentUpdater.SelectedNumbers | quick_fulfillment_updater.py:129-142 | A number is selected exactly when some part names it. |
| FulfillmentUpdater.SelectPartsRefused | quick_fulfillment_updater.py:129-142 | A failed selection names the first part that does not parse, and how it failed. |
| FulfillmentUpdater.RangeMembers | quick_fulfillment_updater.py:133 | The range holds exactly the integers from its start up to but excluding its end. |
| FulfillmentUpdater.NumberPart | quick_fulfillment_updater.py:138-139 | A written number selects itself. |
| FulfillmentUpdater.RangePart | quick_fulfillment_updater.py:130-133 | "a-b" selects a through b inclusive, and nothing when a > b. |
| FulfillmentUpdater.NegativePart | quick_fulfillment_updater.py:130-136 | "-5" splits into an empty start and is an invalid range. |
| FulfillmentUpdater.TwoHyphensPart | quick_fulfillment_updater.py:131 | "1-2-3" cannot be unpacked into two parts, which ends the run. |
| FulfillmentUpdater.PlanAll | quick_fulfillment_updater.py:126-127 | "all" picks exactly 1 to n. |
| FulfillmentUpdater.PlanInRange | quick_fulfillment_updater.py:144-147 | An update goes ahead only with a non-empty set of picked indices, all within 1 to n. |
| FulfillmentUpdater.PlanConsent | quick_fulfillment_updater.py:101-162 | An update goes ahead only after '1' or '2' chose the status and 'y' confirmed. A tracking number is only sent when shipping, and is then the non-empty stripped third line. |
| FulfillmentUpdater.Converse | quick_fulfillment_updater.py:83-162 | The dialogue computes the plan from the operator's lines. The listing printed first stops it with a traceback, before any question, when an order's label is not a string. |
| FulfillmentUpdater.ChooseOrders | quick_fulfillment_updater.py:112-162 | The order selection, clipping and confirmation compute the plan's second half. |
| FulfillmentUpdater.SortedNumbers | quick_fulfillment_updater.py:168 | The picked numbers in strictly ascending order, each once. |
| FulfillmentUpdater.SendUpdates | quick_fulfillment_updater.py:164-175 | One update per index, in the given order, to that order's id. The successes are the updates answered 200, and success plus failed equals the number of indices. |
| FulfillmentUpdater.ApplyUpdates | quick_fulfillment_updater.py:164-175 | The picked orders are updated once each, in ascending order, and the counts add up to the number picked. |
| FulfillmentUpdater.Execute | quick_fulfillment_updater.py:164-179 | A plan that stops sends nothing. An update plan sends exactly its updates. |
| FulfillmentUpdater.Respond | quick_fulfillment_updater.py:83-179 | The dialogue's plan, then its execution. |
| FulfillmentUpdater.Run | quick_fulfillment_updater.py:80-187 | A failed fetch sends nothing. Otherwise the plan follows from the fetched orders and the lines, and is executed. |

## Left out

- HTTP transport, timeouts, sessions and `time.sleep` rate limiting. Every remote answer is an oracle parameter.
- File and JSON reading and writing. Loading is a parameter giving the parsed contents. A missing or malformed file appears as the oracle's answer.
- Settings files and the `get_user_*_choice` prompts. Their answers are parameters.
- Logging, console output, `webbrowser`, `format_high_value_reminder` and `generate_html_report`. They produce text and nothing the rest depends on.
- tkinter widgets, styles, layout arithmetic, resize handling and PIL thumbnails. The image fetched is an opaque string from `fetch`.
- The background threads of the GUI. Price and image loads are modelled as sequential calls.
- Floating point: prices are integer cents. `float(...)` price parsing is a `parse` oracle. Percentages, `:.2f` formatting and the $10 threshold are not modelled.
- manage_locations, the GUI's location editor dialog. It only edits the mapping by hand.
- The single unpaginated order fetch of manapoolsheet.py (571-585) is the `fetched` parameter of RunExport.
- The credentials of quick_fulfillment_updater.py are parameters. `sys.exit` on missing credentials is the Aborted outcome.
- KeyboardInterrupt handling is not modelled. An input that runs out is an end of input.
- Unicode case mapping and digits: `upper` and `lower` map only ASCII letters, and `isdigit` and `int()` accept only the ASCII digits. Other letters keep their case, and other digits are not digits. Whitespace for `strip` and `split` is Python's full `str.isspace` set.
- Picklist.PicklistGui.SortCards: when the "Order" sort raises, Python leaves the list in whatever partial order the sort had reached. The model promises only the same cards, each as often (it keeps them in filter order).
- Listing statuses and ids that are not strings (numbers, lists) are not modelled. A status is a string or absent; a label may be any JSON value.
- A part with two hyphens ("1-2-3") raises outside the try block and ends the program with a traceback. The model ends the run with the Unpackable outcome instead.
- The listing server is a fixed sequence of rows. The orders do not change between page requests.
- Picklist.PicklistGui.LoadCardImage: the photo conversion is left out, and a fetched image is cached as given.
- The GUI summary text and its location_stats string: Summarize returns the numbers, not the text.

## Findings

| source | as written | input that shows it | evidently intended | confidence | as-written member | corrected member |
|---|---|---|---|---|---|---|
| picklist_gui.py:1011, 1035-1044 | `card_states` is keyed by `order + name`, so two cards with the same key share one entry. The later card's flag overwrites the earlier one's, and loading gives both that flag. Different cards can also concatenate to one key ("12"+"3x" and "1"+"23x"). | Two cards of order "1001" named "Bolt" (for example two conditions), the first grabbed and the second not: after save and load, neither is grabbed. | Saving then loading the same cards restores every card's flag. | not executed | Picklist.DuplicateKeyLosesProgress | Picklist.RoundTrip |
| picklist_gui.py:272-284 | `set_filter("all")` clears the search and the location but leaves `current_filter` as it was. | Press "Remaining", then "All": grabbed cards stay hidden. | "All" shows every card, as `clear_filters` does by resetting `current_filter`. | not executed | Picklist.AllAfterRemainingHidesGrabbed | Picklist.AllShowsEverything |
| picklist_gui.py:302-313 | `update_location_dropdown` looks for the location combobox among the LabelFrame children of the Cards tab. The tab's only child is a plain frame (lines 175, 191), and the combobox was created in the filter section (line 139). The search never finds it, so the computed locations are never installed. | Any picklist: after loading, the location dropdown offers no values, so the location filter cannot be chosen. | The dropdown lists "All" and the filtered cards' locations, for instance by keeping the combobox and setting its values directly. | not executed | Picklist.DropdownNeverUpdated | Picklist.PicklistGui.LocationChoices |
