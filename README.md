# ultra-biz list pages, modelled in Dafny

ultra-biz is a small Next.js back office for three record types: towns, sectors
(each belonging to a town) and customers (each with a town and a sector). Every
record type has a list page, in two variants:

- a client-state page, whose `useState` fields drive an in-memory filter and pager;
- a URL-state page, whose state lives in the query string and whose handlers
  navigate to freshly built query strings.

Each record type also has a form that validates its input before it calls the
server. This project models the logic of those pages and forms and proves
properties of it.

- **List engine** (`ListEngine`, `Records`). It models case-insensitive
  `includes` filtering, `Math.ceil` page counts, the `slice` page window and the
  "Showing from–to of N" numbers. On the client pages these numbers count
  against the unfiltered total.
- **Pagination control** (`PaginationControl`). The Prev / page / Next buttons,
  with their targets, disabled flags and highlight.
- **Query strings** (`QueryParams`). `URLSearchParams` as an ordered list of
  pairs, following section 6.2 of the WHATWG URL Standard:
  - `get` returns the first pair with the name;
  - `set` replaces the first pair, removes the later ones, or appends;
  - `delete` removes every pair with the name.

  A `SearchParams` class mutates these pairs. The module also has `toString`
  and `parseInt` on page numbers.
- **Town, sector and customer pages**:
  - client state: `TownPage`, `SectorPage`, `CustomerPage`, one class per page
    whose methods are the handlers;
  - URL state: `TownContent`, `SectorContent`, `CustomerContent`:
    - derivation of the view state from the parameters;
    - the `createQueryString` / `removeQueryString` loops, as methods proved
      against specification functions;
    - the links and handlers, as effect lists (`Effects`).
- **Forms**:
  - `CustomerForm`:
    - the town → sector drop-down, a class over an `array<bool>` of option
      visibilities;
    - the validation chain and its e-mail pattern;
  - `SectorForm` and `TownForm`: the submit rules.
- **Server query** (`GetCustomer`): the customer search over an in-memory
  table. It models:
  - the six-field `OR` predicate;
  - newest-first order;
  - the `skip`/`take` window;
  - the count;
  - the success and failure envelopes.

Navigation, alerts, refreshes and closing a form are returned as values
(`Effects.Effect`). The server calls a handler makes are returned as call
datatypes (`SaveCall`, `SectorForm.SubmitSector`, `Common.DeleteRequest`), and their answers come back as `Common.SaveResult` parameters. The
user's answer to `confirm` and a database failure are boolean parameters.

## Model

| member | source | states |
|---|---|---|
| Common.CeilDiv | app/pages/customer/CustomerContent.tsx:66 | `Math.ceil(a / b)` for a positive divisor: the least r with r·b ≥ a |
| Text.ContainsIff | app/pages/town/page.tsx:28 | `includes` holds exactly when the filter occurs at some index of the text |
| Text.EmptyIsEverywhere | app/pages/town/page.tsx:28 | the empty filter is contained in every name |
| Text.IgnoreCaseOfFilter | app/pages/town/page.tsx:28 | lower-casing the filter first does not change the case-insensitive match |
| Text.SkipSpace | app/pages/town/components/TownForm.tsx:21 | the leading white-space run `trim` drops: everything before the index is white space and the character at it is not |
| Text.SkipSpaceBack | app/pages/town/components/TownForm.tsx:21 | the trailing white-space run `trim` drops: everything from the index on is white space and the character before it is not |
| Text.Trim | app/pages/town/components/TownForm.tsx:21-22 | `trim()` is a contiguous part with only white space outside it and none at either end; it is empty exactly for an all-white-space string |
| Text.TrimIdempotent | app/pages/town/components/TownForm.tsx:22 | trimming twice trims once |
| ListEngine.Filter | app/pages/town/page.tsx:27-29 | `filter` keeps exactly the matching elements, each with its multiplicity, and is never longer |
| ListEngine.FilterIsSubsequence | app/pages/town/page.tsx:27-29 | `filter` keeps the original order |
| ListEngine.FilterKeepAll | app/pages/town/TownContent.tsx:74-76 | a predicate that every element satisfies keeps the list unchanged |
| ListEngine.FindFirst | app/pages/sector/SectorContent.tsx:65-67 | `find` returns nothing exactly when no element satisfies the predicate, and otherwise an element that does |
| ListEngine.TotalPages | app/pages/town/page.tsx:31 | `Math.ceil(n / size)`: enough pages for every row, and no empty last page; 0 exactly when there are no rows |
| ListEngine.PageSlice | app/pages/town/page.tsx:32-36 | `slice(start, start + size)`: at most `size` rows, row j is row start + j of the list, and the length is the clamped window |
| ListEngine.RowOnItsPage | app/pages/town/page.tsx:31-36 | row i is on page i / size + 1, which is within the page count, at position i % size |
| ListEngine.PastLastPageIsEmpty | app/pages/town/page.tsx:32-36 | a page after the last one shows no rows |
| ListEngine.EarlierPagesAreFull | app/pages/town/page.tsx:32-36 | every page before the last shows exactly `size` rows |
| ListEngine.ShowingMatchesSlice | app/pages/town/page.tsx:39-40 | on a page in range whose count is the list's length, 1 ≤ from ≤ to ≤ count and to − from + 1 is the number of rows shown |
| ListEngine.ShowingEmpty | app/pages/town/page.tsx:39-40 | with no items both numbers are 0 |
| ListEngine.ListPage | app/pages/town/page.tsx:31-40 | the rows are exactly the page's window of the filtered list, at most ten of them; the page count is the ceiling of the kept count over ten, 0 exactly when nothing is kept; from and to are the showing bounds of the total, from 0 exactly when the total is 0, and to ≤ total |
| Records.FilterTowns | app/pages/town/page.tsx:27-29 | the towns whose name contains the filter, ignoring case, in their order |
| Records.FilterSectors | app/pages/sector/page.tsx:27-30 | the sectors whose name or town name matches; a sector without a town matches on its name only |
| Records.FilterCustomers | app/pages/customer/page.tsx:55-61 | the customers matching on name, email, phone, town name or sector name, in their order |
| Records.EmptyFilterKeepsAll | app/pages/customer/page.tsx:55-61 | an empty filter lists towns, sectors and customers unfiltered |
| Records.AddressIsNotSearched | app/pages/customer/page.tsx:55-61 | a customer matching only on its address is filtered out |
| Records.NameOrNA | app/pages/customer/page.tsx:177-178 | `rel?.name \|\| "N/A"`: the name when present and non-empty, "N/A" for a missing relation or an empty name, never empty |
| Records.SectorRows | app/pages/sector/SectorContent.tsx:130-136 | one row per sector, in order, with id, name and townId kept, the town shown by name or "N/A" and status active; the client page's rows (app/pages/sector/page.tsx:78-89) are the same without the townId column |
| Records.CustomerRows | app/pages/customer/page.tsx:171-188 | one row per customer, in order, with its id, name, email, phone, address, vendor flag and town and sector ids kept, and town and sector shown by name or "N/A" |
| PaginationControl.Render | app/components/Pagination.tsx:12-57 | nothing for one page or none; otherwise Prev first, then one button per page, then Next last |
| PaginationControl.PageButtonsAscending | app/components/Pagination.tsx:27-33 | the page buttons are 1..totalPages in order, enabled, each requesting its own page |
| PaginationControl.PrevRule | app/components/Pagination.tsx:17-18 | Prev requests currentPage − 1 and is disabled exactly on page 1 |
| PaginationControl.NextRule | app/components/Pagination.tsx:48-49 | Next requests currentPage + 1 and is disabled exactly on the last page |
| PaginationControl.ExactlyOneHighlighted | app/components/Pagination.tsx:36 | on a page in range only the current page's button is highlighted |
| PaginationControl.NoHighlightOutOfRange | app/components/Pagination.tsx:36 | on a page out of range no button is highlighted |
| PaginationControl.EnabledTargetsInRange | app/components/Pagination.tsx:17-49 | on a page in range every enabled button requests a page within 1..totalPages |
| QueryParams.DeleteParam | app/pages/sector/SectorContent.tsx:86 | `delete(k)` leaves no pair named k, keeps every pair with another name, and is never longer |
| QueryParams.DeleteParamIsFilter | app/pages/sector/SectorContent.tsx:86 | `delete(k)` is the filter keeping the pairs not named k, so a subsequence of the original in its order |
| QueryParams.LookupDelete | app/pages/sector/SectorContent.tsx:86 | after `delete(k)`, k reads as absent and every other name reads as before |
| QueryParams.LookupAppend | app/pages/town/TownContent.tsx:102 | appending a pair makes its name readable only if it was absent before |
| QueryParams.LookupReplaceFirst | app/pages/town/TownContent.tsx:102 | replacing the first pair named k makes k read the new value and leaves other names alone |
| QueryParams.LookupSet | app/pages/town/TownContent.tsx:102 | after `set(k, v)`, k reads v and every other name reads as before |
| QueryParams.DeleteTwice | app/pages/sector/SectorContent.tsx:86 | deleting a name twice deletes it once |
| QueryParams.DeleteAppendSame | app/pages/town/TownContent.tsx:100-102 | deleting k after appending a pair named k undoes the append's effect on the other pairs |
| QueryParams.DeleteReplaceFirst | app/pages/town/TownContent.tsx:100-102 | deleting k after replacing k's value gives the same pairs as deleting k at once |
| QueryParams.SetLeavesOthers | app/pages/sector/SectorContent.tsx:79 | `set(k, v)` changes no pair with another name |
| QueryParams.Without | app/pages/sector/SectorContent.tsx:84-88 | no pair left has a name in the set, and every pair with a name outside it is kept |
| QueryParams.WithoutIsFilter | app/pages/sector/SectorContent.tsx:84-88 | removing a set of names is the filter keeping the pairs outside the set, a subsequence of the original in its order |
| QueryParams.LookupWithout | app/pages/sector/SectorContent.tsx:84-88 | a name in the set reads absent; any other reads as before |
| QueryParams.DeleteWithout | app/pages/sector/SectorContent.tsx:86 | deleting one more name takes one more name out |
| QueryParams.WithoutDelete | app/pages/sector/SectorContent.tsx:86 | deleting a name of the set leaves the rest of the query string unchanged |
| QueryParams.WithoutAppend | app/pages/town/TownContent.tsx:102 | appending a pair with a name of the set leaves the rest unchanged |
| QueryParams.WithoutReplaceFirst | app/pages/town/TownContent.tsx:102 | replacing a value of a name in the set leaves the rest unchanged |
| QueryParams.WithoutSet | app/pages/sector/SectorContent.tsx:79 | `set` on a name of the set leaves every other pair where it was |
| QueryParams.SearchParams.constructor | app/pages/sector/SectorContent.tsx:77 | `new URLSearchParams(init)` holds exactly the given pairs |
| QueryParams.SearchParams.Set | app/pages/sector/SectorContent.tsx:79 | the object's pairs become those of `set(k, v)` on its old pairs |
| QueryParams.SearchParams.Delete | app/pages/sector/SectorContent.tsx:86 | the object's pairs become those of `delete(k)` on its old pairs |
| QueryParams.NatToString | app/pages/town/TownContent.tsx:150 | `toString()` of a page number is a non-empty string of decimal digits |
| QueryParams.LeadingDigits | app/pages/town/TownContent.tsx:65 | the longest all-digit prefix that `parseInt` reads |
| QueryParams.ParseIntOfNatToString | app/pages/town/TownContent.tsx:65 | `parseInt(n.toString(), 10)` reads back n |
| TownPage.SaveCall | app/pages/town/page.tsx:46-50 | an edit call, with the edited town's id, exactly when a town is being edited, and an add call otherwise; the name is passed unchanged |
| TownPage.TownView.constructor | app/pages/town/page.tsx:19-23 | the form is hidden with no editing target, the filter is empty, page 1, not submitting |
| TownPage.TownView.Listing | app/pages/town/page.tsx:27-40 | the rendered rows are the current page of the towns matching the filter; no pages exactly when nothing matches |
| TownPage.TownView.BeginSave | app/pages/town/page.tsx:42-50 | marks the form as submitting and makes the call `SaveCall` chooses; nothing else changes |
| TownPage.TownView.FinishSave | app/pages/town/page.tsx:52-57 | clears submitting; a success hides the form and drops the editing target, a failure changes nothing else |
| TownPage.TownView.Cancel | app/pages/town/page.tsx:60-63 | hides the form and drops the editing target |
| TownPage.TownView.Edit | app/pages/town/page.tsx:65-68 | opens the form editing the row's id and name |
| TownPage.TownView.OpenAdd | app/pages/town/page.tsx:144-147 | opens the form with no editing target |
| TownPage.TownView.ChangeFilter | app/pages/town/page.tsx:138 | changes the filter only; the current page stays |
| TownPage.TownView.ChangePage | app/pages/town/page.tsx:183 | changes the current page only |
| TownContent.Derive | app/pages/town/TownContent.tsx:65-70 | page from `parseInt(page \|\| "1")`, the filter or "", form shown iff `showForm` is "true", an editing target exactly when both `editId` and `editName` are non-empty |
| TownContent.TownListing | app/pages/town/TownContent.tsx:74-87 | the rows are the current page of the matching towns; no pages exactly when nothing matches |
| TownContent.NoFilterKeepsAllTowns | app/pages/town/TownContent.tsx:66 | without a filter parameter the towns are listed unfiltered, on every page from 1 up |
| TownContent.CopyCurrent | app/pages/town/TownContent.tsx:90-96 | a fresh parameter object holding the current values the updates do not replace, in the source's order |
| TownContent.CreateQueryString | app/pages/town/TownContent.tsx:89-107 | the copy, then `delete` for each null update and `set` for each other one, in order |
| TownContent.LookupApplyUpdates | app/pages/town/TownContent.tsx:98-104 | after the updates, a null-updated name reads absent, a set name reads its last value, others read as before |
| TownContent.LookupCopyKnown | app/pages/town/TownContent.tsx:92-96 | one copy step makes its name read the current value exactly when that value is truthy and the update is falsy |
| TownContent.LookupBaseParams | app/pages/town/TownContent.tsx:92-96 | the copy reads exactly the truthy current values whose update is falsy, and nothing under other names |
| TownContent.LookupTownQuery | app/pages/town/TownContent.tsx:89-107 | a null update reads absent, a value update reads that value, a name not in the updates keeps its truthy current value, and anything else is absent |
| TownContent.ParamsOf | app/pages/town/TownContent.tsx:65-70 | the props a page rendered from a query string receives are the values that string reads |
| TownContent.TownQueryIdempotent | app/pages/town/TownContent.tsx:89-107 | navigating twice with the same updates reads the same as navigating once |
| TownContent.SaveCall | app/pages/town/TownContent.tsx:109-116 | an edit call exactly when the parameters give an editing target, with its id; an add call otherwise |
| TownContent.SaveEffects | app/pages/town/TownContent.tsx:118-121 | a success navigates with the form parameters removed, then refreshes; a failure does nothing |
| TownContent.CancelEffects | app/pages/town/TownContent.tsx:124-126 | cancel navigates with the form parameters removed |
| TownContent.CloseFormKeepsListState | app/pages/town/TownContent.tsx:119 | closing the form hides it, clears the editing target, and keeps the page and the filter |
| TownContent.EditOpensForm | app/pages/town/TownContent.tsx:128-134 | the edit link's page reads the row's id and name and shows the form, editing that town when its id and name are non-empty |
| TownContent.AddOpensEmptyForm | app/pages/town/TownContent.tsx:220 | the add link's page shows the form with no editing target |
| TownContent.FilterChangeResetsPage | app/pages/town/TownContent.tsx:145-147 | a filter change reads the typed filter (absent when empty) and page 1 |
| TownContent.PageChangeRoundTrip | app/pages/town/TownContent.tsx:149-151 | the page reached reads back exactly the requested page, with the filter and the form unchanged |
| Common.DeleteRequest | app/pages/town/TownContent.tsx:136-138 | the delete action is called with the row's own id exactly when the user confirms; SectorContent.tsx:69-71 and CustomerContent.tsx:61-63 follow the same rule |
| TownContent.DeleteEffects | app/pages/town/TownContent.tsx:136-143 | a refresh exactly after a confirmed, successful delete |
| TownForm.SubmitTown | app/pages/town/components/TownForm.tsx:16-24 | a call exactly when the name is present and not blank, with the trimmed name, which is non-empty and has no white space at either end |
| TownForm.SubmitSavedName | app/pages/town/components/TownForm.tsx:21-22 | submitting the saved name again saves it unchanged |
| SectorPage.SectorListing | app/pages/sector/page.tsx:27-41 | the rows of the current page of matching sectors; the page count of the matching ones, 0 exactly when none matches; from/to from the total count |
| SectorPage.SectorView.constructor | app/pages/sector/page.tsx:20-23 | the form is hidden, the filter empty, page 1, not submitting |
| SectorPage.SectorView.Listing | app/pages/sector/page.tsx:27-41 | the rendered rows are the current page of the sectors matching the filter |
| SectorPage.SectorView.BeginSave | app/pages/sector/page.tsx:43-45 | marks the form as submitting and makes the add call with the name and town |
| SectorPage.SectorView.FinishSave | app/pages/sector/page.tsx:46-50 | clears submitting; the form stays shown only if it was shown and the save failed |
| SectorPage.SectorView.Cancel | app/pages/sector/page.tsx:53-55 | hides the form |
| SectorPage.SectorView.OpenAdd | app/pages/sector/page.tsx:107 | shows the form |
| SectorPage.SectorView.ChangeFilter | app/pages/sector/page.tsx:101 | changes the filter only |
| SectorPage.SectorView.ChangePage | app/pages/sector/page.tsx:143 | changes the current page only |
| SectorContent.Listing | app/pages/sector/SectorContent.tsx:50-63 | the same listing as the client page for the given page and filter; no pages exactly when no sector matches |
| SectorContent.EditingSector | app/pages/sector/SectorContent.tsx:65-67 | nothing without an `editId`; otherwise the first sector with that id, or nothing when none has it |
| SectorContent.CreateQueryString | app/pages/sector/SectorContent.tsx:76-82 | a copy of the current parameters with `set` applied per entry, in order |
| SectorContent.LookupSetAll | app/pages/sector/SectorContent.tsx:76-82 | every name set reads its last new value, and every other name reads as before |
| SectorContent.SetAllKeepsOthers | app/pages/sector/SectorContent.tsx:76-82 | the pairs with names not set stay exactly as they were, in order |
| SectorContent.RemoveQueryString | app/pages/sector/SectorContent.tsx:84-88 | a copy of the current parameters with `delete` applied per name, in order |
| SectorContent.NameSet | app/pages/sector/SectorContent.tsx:84 | the names passed, as a set |
| SectorContent.DeleteAllIsWithout | app/pages/sector/SectorContent.tsx:84-88 | removing names removes exactly their pairs and keeps the others in order |
| SectorContent.FilterInputChange | app/pages/sector/SectorContent.tsx:157-166 | set `filter` to the typed text or delete it when empty, then delete `page` |
| SectorContent.FilterChangeRule | app/pages/sector/SectorContent.tsx:157-166 | the filter reads the typed text (absent when empty), the page is absent, and every other pair is kept in order |
| SectorContent.EditHrefOpensForm | app/pages/sector/SectorContent.tsx:115 | the edit link sets `showForm` and `editId`, keeps everything else, and leads to a page editing that row's sector |
| SectorContent.AddHrefOpensForm | app/pages/sector/SectorContent.tsx:172 | the add link sets `showForm` and keeps everything else |
| SectorContent.CancelClosesForm | app/pages/sector/SectorContent.tsx:182 | cancel removes `showForm` and `editId` and keeps everything else in order |
| SectorContent.PageChangeOverwritesPage | app/pages/sector/SectorContent.tsx:209-211 | a page change reads back the requested page and keeps everything else |
| SectorContent.DeleteEffects | app/pages/sector/SectorContent.tsx:69-74 | a refresh exactly when the delete was confirmed, whatever the server answers |
| SectorForm.SubmitSector | app/pages/sector/components/SectorForm.tsx:21-35 | "Please fill in all fields" exactly when the name is missing or blank or the town is missing or empty; otherwise the trimmed name with the town, as an update of the initial sector when there is one and a create otherwise |
| SectorForm.AfterSave | app/pages/sector/components/SectorForm.tsx:37-42 | a success refreshes and closes the form; a failure alerts the server's error, or "Failed to save sector" when it gave none, and keeps the form open |
| CustomerPage.SaveCall | app/pages/customer/page.tsx:86-90 | an edit call with the edited customer's id exactly when one is being edited, otherwise an add; the data is passed unchanged |
| CustomerPage.InitOf | app/pages/customer/page.tsx:105-116 | the form is loaded with the row's fields, its phone as the phone number |
| CustomerPage.CustomerView.constructor | app/pages/customer/page.tsx:37-51 | the form is hidden with no editing target, the filter empty, page 1, not submitting, all loaded sectors offered |
| CustomerPage.CustomerView.Listing | app/pages/customer/page.tsx:55-72 | the rendered rows are the rows of the current page of matching customers |
| CustomerPage.CustomerView.BeginSave | app/pages/customer/page.tsx:83-90 | marks the form as submitting and makes the call `SaveCall` chooses |
| CustomerPage.CustomerView.FinishSave | app/pages/customer/page.tsx:92-97 | clears submitting; a success hides the form and drops the editing target |
| CustomerPage.CustomerView.Cancel | app/pages/customer/page.tsx:100-103 | hides the form and drops the editing target |
| CustomerPage.CustomerView.Edit | app/pages/customer/page.tsx:105-117 | opens the form editing the row's customer |
| CustomerPage.CustomerView.OpenAdd | app/pages/customer/page.tsx:206-209 | opens the form with no editing target and every loaded sector offered again |
| CustomerPage.CustomerView.TownChanged | app/pages/customer/page.tsx:125-128 | the sectors offered become those loaded for the town |
| CustomerPage.CustomerView.ChangeFilter | app/pages/customer/page.tsx:200 | changes the filter only |
| CustomerPage.CustomerView.ChangePage | app/pages/customer/page.tsx:249 | changes the current page only |
| CustomerContent.From | app/pages/customer/CustomerContent.tsx:43-44 | 0 exactly for an empty table, otherwise (page − 1)·perPage + 1 |
| CustomerContent.To | app/pages/customer/CustomerContent.tsx:45 | the rows before the page plus the rows received, capped at the count |
| CustomerContent.FromToCountRows | app/pages/customer/CustomerContent.tsx:43-45 | for a page holding the rows the count implies, to − from + 1 is that number of rows |
| CustomerContent.EditingCustomer | app/pages/customer/CustomerContent.tsx:47-49 | nothing without an `editId`; otherwise the first customer with that id, or nothing when none has it |
| CustomerContent.SearchPart | app/pages/customer/CustomerContent.tsx:54 | the `search` pair exactly for a non-empty filter |
| CustomerContent.SearchFormQuery | app/pages/customer/CustomerContent.tsx:153-161 | the search form's GET query reads the typed text, an empty one included, under `search` and page 1 under `page` |
| CustomerContent.NavigationCarriesPageAndSearch | app/pages/customer/CustomerContent.tsx:51-85 | edit, page-change and add parameters all carry the page, which reads back as a number, and carry `search` exactly when the filter is non-empty; edit also opens the form on the row |
| CustomerContent.DeleteTargetIsAPage | app/pages/customer/CustomerContent.tsx:65-67 | the target is ≥ 1, it is 1 once at most one customer was left, it is the current page while that page still holds rows, and otherwise it is a page that still holds rows |
| CustomerContent.DeleteEffects | app/pages/customer/CustomerContent.tsx:61-77 | nothing unless the delete is confirmed and succeeds; then a navigation to the target page with the search kept, and a refresh |
| CustomerForm.OptionsOf | app/pages/customer/components/CustomerForm.tsx:203-214 | the placeholder, then one option per sector carrying its id and town id |
| CustomerForm.SectorSelect.Submitted | app/pages/customer/components/CustomerForm.tsx:68 | a disabled select submits nothing, an enabled one its value |
| CustomerForm.InitialValue | app/pages/customer/components/CustomerForm.tsx:196-214 | the select starts on an option's value: the edited customer's sector id when an option carries it, otherwise the placeholder "" |
| CustomerForm.MissingSectorStartsOnPlaceholder | app/pages/customer/components/CustomerForm.tsx:196-214 | a sector id no offered sector carries starts the select on the placeholder |
| CustomerForm.SectorSelect.constructor | app/pages/customer/components/CustomerForm.tsx:196-214 | initial value as InitialValue gives, disabled exactly without an initial town, an option hidden exactly when an initial town is set and the option's town differs |
| CustomerForm.SectorSelect.HandleTownChange | app/pages/customer/components/CustomerForm.tsx:37-58 | the value becomes "", the placeholder and the chosen town's options are shown and all others hidden, disabled exactly when the town is empty |
| CustomerForm.SectorSelect.Choose | app/pages/customer/components/CustomerForm.tsx:196-214 | picking a visible option of an enabled select sets the value to that option's |
| CustomerForm.VisibleAfterTownChange | app/pages/customer/components/CustomerForm.tsx:45-54 | after a town change an option is visible exactly when it is the placeholder or belongs to the town |
| CustomerForm.IndexOf | app/pages/customer/components/CustomerForm.tsx:83 | `indexOf`: the first position of the character, or none when it is absent |
| CustomerForm.EmailCheckMatchesPattern | app/pages/customer/components/CustomerForm.tsx:83 | the form's e-mail check accepts exactly the strings `/^[^\s@]+@[^\s@]+\.[^\s@]+$/` matches |
| CustomerForm.DataOf | app/pages/customer/components/CustomerForm.tsx:65-73 | the fields as typed, untrimmed; `vendor` exactly when the checkbox submits "on" |
| CustomerForm.ValidateCustomer | app/pages/customer/components/CustomerForm.tsx:75-104 | a save exactly when every check passes, with the form's data |
| CustomerForm.RejectionOrder | app/pages/customer/components/CustomerForm.tsx:75-102 | the first failing check decides the message: name, email, email format, phone, address, town, sector |
| CustomerForm.EmailHasContent | app/pages/customer/components/CustomerForm.tsx:79-83 | an address the pattern accepts is never blank |
| CustomerForm.SavedDataIsValid | app/pages/customer/components/CustomerForm.tsx:75-104 | saved data has non-blank name, phone and address, a valid e-mail, and non-empty town and sector |
| CustomerForm.TownChangeForcesSectorChoice | app/pages/customer/components/CustomerForm.tsx:43 | submitting right after a town change is rejected for the sector |
| GetCustomer.Matching | app/pages/customer/actions/getCustomer.ts:7-26 | an absent or empty search selects every row; otherwise exactly the rows matching the six-field predicate |
| GetCustomer.EmptySearchSelectsAll | app/pages/customer/actions/getCustomer.ts:7 | an empty search and no search select the same rows |
| GetCustomer.AddressIsSearched | app/pages/customer/actions/getCustomer.ts:13 | the server search, unlike the client filter, matches on the address |
| GetCustomer.Insert | app/pages/customer/actions/getCustomer.ts:35 | inserting a row adds exactly that row |
| GetCustomer.InsertNewestFirst | app/pages/customer/actions/getCustomer.ts:35 | inserting into a newest-first sequence keeps it newest first |
| GetCustomer.SortNewestFirst | app/pages/customer/actions/getCustomer.ts:35 | the ordered rows are a permutation of the selected ones, newest first |
| GetCustomer.GetCustomerPage | app/pages/customer/actions/getCustomer.ts:4-59 | a failure gives the fixed failure envelope; a success echoes page and limit, counts the selected rows, has `ceil(count / limit)` pages, and returns the skip/take window of the ordered rows |
| GetCustomer.SliceNewestFirst | app/pages/customer/actions/getCustomer.ts:35-37 | `skip`/`take` keep the newest-first order |
| GetCustomer.GetCustomerDefaults | app/pages/customer/actions/getCustomer.ts:4 | with the defaults the call counts the whole table and returns its ten newest rows |
| GetCustomer.PageAndCountAgree | app/pages/customer/actions/getCustomer.ts:28-39 | every returned row is counted: both queries share one predicate |
| GetCustomer.EveryMatchOnItsPage | app/pages/customer/actions/getCustomer.ts:36-37 | each selected row is returned on its own page, which is within the page count |
| GetCustomer.ShowingBracketsServerPage | app/pages/customer/actions/getCustomer.ts:42-49 | the page's from/to numbers bracket exactly the rows the server returned |

## Left out

- I/O is left out: rendering, React scheduling, `router.push`, `router.refresh`, `alert` and `confirm`. Each becomes an effect value or a parameter.
- The server calls are left out. The create, update, delete and count actions, `getTown` and `getSector` are outside the model, and their answers are parameters.
- Prisma itself is not modelled. `getCustomer` runs over an in-memory table, and `contains` with `mode: "insensitive"` is taken as ASCII case folding.
- The context providers and layouts, `CustomerFormWrapper` and the presentational components forward values or render markup. They are not part of this model.
- The page components and their contexts disagree across revisions. The values each page reads are taken as plain inputs.
- The client pages' `handleDelete` only forwards a confirmed id to the server and changes no state, so it is not modelled apart from the call rule `Common.DeleteRequest` states.
- Records.SectorRows: fills the townId column for the client sector page too, whose rows have none; every other column is as that page builds it.
- `toLocaleDateString` for the customer creation date is not modelled.
- Unicode case mapping and white space beyond ASCII are not modelled.
- Percent-encoding in `URLSearchParams.toString()` and parsing is not modelled. Parameters are the decoded name/value pairs.
- QueryParams.ParseInt: does not model leading white space or a leading sign, both of which `parseInt` skips or reads. Page strings built by `toString` have neither.
- ListEngine.ListPage and TownContent.TownListing: require a page of at least 1. A typed URL with `page=0`, a negative page or a non-number gives `NaN` or a negative start, and `slice` then counts from the end of the list; that case is not modelled.
- GetCustomer.GetCustomerPage: requires page ≥ 1 and limit ≥ 1. A negative `skip` or `take` is interpreted or rejected by Prisma, and `Math.ceil(count / 0)` is not an integer.
- GetCustomer.SortNewestFirst: the order among customers with the same `createdAt` is left to the database in the source. The model fixes one order.
- TownContent.TownQueryIdempotent: stated on what each name reads, not on pair order. A second navigation can move a pair whose update is the empty string.
- The sector drop-down's `disabled` rendering class and the `required` attribute are left out. Native form validation is browser behaviour.
- Concurrency is not modelled. Handlers are taken to run one at a time, so a second click while a save is in flight is not modelled.
