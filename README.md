# Contact manager view state, in Dafny

This project models the browser-side core of the contact manager in
`js/app.js`. The page holds these pieces of state:

- the contact list and the activity log, as last fetched from the store;
- a selection set of contact ids;
- a pending delete;
- the search keyword, the favourites-only switch and the sort key.

From that state it derives what the page shows:

- the contact cards;
- the select-all box and the bulk-action bar;
- the stats panel and the company chart;
- the recent-activity slice in the detail dialog.

The model covers:

- the filter-sort projection of `applyFiltersAndRender`;
- the `validateForm` decision;
- the selection handlers (`toggleSelect`, select-all, `updateBulkBar`, and the delete dialog's updates to the selection and to `pendingDeleteId`);
- the favourite toggle;
- how the submit handler builds the record it sends;
- `updateStats`, the company counting loop of `renderChart`, and the activity slice of `openDetail`.

Modules:

- `Text` (`text.dfy`): JavaScript's `trim` and the `\s` class, using the exact ECMAScript white-space set; `toLowerCase` on ASCII; `includes`.
- `Seqs` (`seqs.dfy`): `filter`, `slice(0, n)`, and order-preserving subsequences.
- `Sorting` (`sorting.dfy`): `Array.prototype.sort` with a comparator, modelled as a stable insertion sort. It also proves that every stable sort with a consistent comparator gives the same result, so the model does not depend on which sort algorithm the engine uses.
- `Contacts` (`contacts.dfy`): the contact, draft and activity records, and `find` by id.
- `Projection` (`projection.dfy`): the keyword filter, the favourites filter and the comparator the sort select chooses.
- `Validation` (`validation.dfy`): `validateForm`, written as a step-by-step method proved against a decision function.
- `Views` (`views.dfy`): the stats, the company counts (a loop over the contacts), and the detail dialog's activity slice.
- `App` (`app.dfy`): the class `ContactApp`.
  - Its fields are the page state.
  - Its methods are the handlers, each with a `modifies` clause.
  - Each request a handler sends to the store is returned as a `StoreCall` value.
  - Whether a request resolved is a boolean parameter. A fetched list is an `Option` parameter.

The model follows what the code does, also where a reader might expect otherwise:

- **Select-all.** It selects or unselects every contact of the whole list, not only the visible ones.
- **Favourite toggle.** The flag flips only after the PATCH resolves. There is no optimistic update, so nothing is rolled back.
- **Activity log.** `logActivity` catches its own failures, so a failed log never blocks or undoes the change it records.
- **Bulk delete.** It logs one aggregate DELETE entry, "ลบพร้อมกัน N รายการ", not one entry per contact. Success or failure is all-or-nothing, as decided by `Promise.all`.
- **Selection after a re-fetch.** The selection is never pruned against the new list, so ids of contacts that are gone stay selected.
- **Pending delete.** `pendingDeleteId` is not cleared after a confirmed delete.
- **In-place sort.** When neither filter is on, the sort reorders the contact list itself, because `result` is the same array as `contacts`. The model reassigns `contacts` in that case. So the comparator's fallback (js/app.js:263) keeps the order the last such sort left, not the order the store sent.
- **Store success.** A store request counts as successful whenever its promise resolves. The code never reads the response status.

Where "## Findings" records a bug, the class follows the corrected behaviour, and a separate member models the code as written:

- `RenderChart` draws counts kept in a map with no inherited keys. `Views.ChartCountsAsWritten` models the object the code builds.
- `ToggleSelect` re-renders the current view. `ToggleSelectAsWritten` renders the whole list, as the code does.
- `ConfirmDelete` and `DeleteConfirmed` keep a single delete apart from a bulk one. `PendingAsWritten` models the "BULK" sentinel.

## Model

| member | source | states |
|---|---|---|
| Text.Trim | js/app.js:534-536 | The result is a slice of the input with only white space before and after it. It is empty exactly when the input is all white space. Otherwise it neither starts nor ends with white space. |
| Text.Lower | js/app.js:237 | Same length as the input. Each ASCII capital is lowered and every other character is unchanged. |
| Text.IncludesAt | js/app.js:239-241 | `includes(s, k)` holds exactly when `k` occurs in `s` at some position. |
| Text.Decimal | js/app.js:504 | The result is the decimal digits that denote n (`DigitsValue` reads it back as n), with no leading zero, as `${ids.length}` writes the count. |
| Seqs.Filter | js/app.js:239-249 | `filter` returns no more elements than its input, and each one satisfies the predicate. |
| Seqs.FilterCount | js/app.js:239-249 | `filter` keeps every passing element as many times as it occurs, and drops every failing one. |
| Seqs.FilterMembers | js/app.js:239-249 | An element is in the filtered list exactly when it is in the input and passes. |
| Seqs.FilterLengthIgnoresOrder | js/app.js:110-127 | Reordering a list does not change how many of its elements pass a filter. |
| Seqs.FilterIsSubsequence | js/app.js:350 | `filter` keeps the input order of the elements it keeps. |
| Seqs.Take | js/app.js:350 | `slice(0, n)` is a prefix of the input of length min(n, input length). |
| Sorting.Sort | js/app.js:253-264 | `Array.prototype.sort` as a stable insertion sort. Its properties are the lemmas below: a permutation, sorted, stable, and equal to every stable sort. |
| Sorting.SortPermutes | js/app.js:253-264 | Sorting returns a permutation of its input. |
| Sorting.SortSorted | js/app.js:253-264 | With a consistent comparator, every element of the result ranks no later than every element after it. |
| Sorting.SortStable | js/app.js:253-264 | Elements the comparator ranks level keep their input order. |
| Sorting.StableSortIsUnique | js/app.js:253-264 | Two sorted sequences with the same order inside every group of level elements are equal. |
| Sorting.StableArrangementIsSort | js/app.js:253-264 | Any sorted arrangement that keeps every level group in input order is the model's `Sort` result. So the engine's sort returns the same as the model's. |
| Sorting.SortIdempotent | js/app.js:253-264 | Sorting an already sorted list changes nothing. |
| Sorting.SortAllLevel | js/app.js:263 | A comparator that always answers 0 leaves the list in input order. |
| Contacts.FindById | js/app.js:341 | `find` by id gives the first position holding that id, or nothing exactly when no contact has the id. |
| Projection.MatchesKeyword | js/app.js:238-242 | The keyword test: the lowered keyword occurs in the lowered name, the lowered email, or the lowered company when there is one. `FilteredCount` states what it keeps. |
| Projection.Filtered | js/app.js:236-249 | Steps 1 and 2: the keyword filter runs only for a non-empty lowered keyword, then the favourites filter only when it is switched on. `FilteredCount` states what they keep. |
| Projection.Compare | js/app.js:253-264 | The comparator of the sort select, tested case by case. `OrderConsistent` and `ProjectOrdered` state its properties. |
| Projection.Project | js/app.js:233-264 | The list `applyFiltersAndRender` renders: the filtered list sorted by the chosen comparator. `ProjectCount`, `ProjectOrdered` and `ProjectDefault` state its contents and order. |
| Projection.FilteredCount | js/app.js:236-249 | The two filters keep exactly the visible contacts, with their multiplicities. A contact is visible when the lowered keyword is empty or occurs in the lowered name, email or non-empty company, and, with favourites-only on, it is a favourite. |
| Projection.ProjectCount | js/app.js:233-264 | The rendered list holds exactly the visible contacts, each as often as it occurs in the list (filter soundness and completeness). |
| Projection.KeyOf | js/app.js:252-263 | The select value is read as the `default`, `name-asc`, `name-desc` or `company` key exactly when it is that string. Anything else is read as none of them. |
| Projection.ProjectDrawsFromList | js/app.js:233-264 | Every rendered card shows a contact of the list. |
| Projection.OrderConsistent | js/app.js:255-263 | Every comparator the sort select can choose is consistent whenever the collation is. |
| Projection.ProjectOrdered | js/app.js:252-264 | `name-asc` is ascending by name and `name-desc` descending by name. `company` is ascending by company, with a missing company compared as the empty string. Level contacts keep their filtered order. |
| Projection.InsertKeepsGroups | js/app.js:255-257 | Under the `default` key, inserting a contact into a list grouped favourites-first gives the grouping of the longer list. |
| Projection.DefaultSortGroups | js/app.js:255-257 | The `default` key puts every favourite before every other contact, keeping list order within each group. |
| Projection.ProjectDefault | js/app.js:252-264 | Under `default` the rendered list is the filtered favourites followed by the filtered others. |
| Projection.ProjectOtherKey | js/app.js:263 | Any other sort value leaves the filtered list in the order the list has now. That is the store order only until an in-place sort has reordered the list. |
| Projection.ProjectIdempotent | js/app.js:233-264 | Projecting the rendered list again gives the same list, so re-rendering after the in-place sort changes nothing. |
| Projection.InPlaceIsPermutation | js/app.js:234-253 | With no filter on, the in-place sort leaves a permutation of the contact list. |
| Validation.EmailShape | js/app.js:555 | The regex `/^[^\s@]+@[^\s@]+\.[^\s@]+$/`: a non-empty plain run, '@', a non-empty plain run, '.', a non-empty plain run. The examples and `ShapeOf` below state what it accepts and rejects. |
| Validation.Check | js/app.js:531-589 | The three field errors `validateForm` shows for the raw inputs. `RejectedIff` and `FieldsIndependent` state when it refuses. |
| Validation.ValidateForm | js/app.js:531-589 | The step-by-step `isValid` accumulation returns exactly the decision function's verdict, and is true exactly when no field has an error. |
| Validation.RejectedIff | js/app.js:531-589 | The form is refused exactly when: the trimmed name is empty; the email is empty, malformed or another contact's (ignoring case); or the phone is non-empty and another contact's. |
| Validation.FieldsIndependent | js/app.js:546-586 | Each field's error depends only on that field, so every error is reported at once. |
| Validation.DuplicateOnlyWhenShaped | js/app.js:555-575 | The uniqueness lookup runs only for a well-shaped email. A malformed email is reported as malformed. |
| Validation.CreateWithTakenEmailRejected | js/app.js:566-575 | A new contact whose email matches a stored one up to case is refused as a duplicate. |
| Validation.OwnRecordIgnored | js/app.js:568-579 | The contact being edited never counts as a duplicate: validating against the list without it gives the same verdict. |
| Validation.UnchangedEditPasses | js/app.js:566-586 | In a store with unique emails and phones, saving a stored contact unchanged passes exactly when its name is not blank and its email is well shaped. |
| Validation.ShapeOf | js/app.js:555 | Any three non-empty runs without white space or '@', joined by '@' and '.', match the regex. |
| Validation.EmailShapeAcceptsOrdinary | js/app.js:555 | The regex accepts `somchai@example.co.th`. |
| Validation.EmailShapeAcceptsDots | js/app.js:555 | The regex also accepts `a@..c`, whose domain is only dots. |
| Validation.EmailShapeRejects | js/app.js:555 | The regex rejects a missing '@', two '@', a blank, an empty local part and a missing dot after the '@'. |
| Views.Companies | js/app.js:113 | The distinct non-empty companies of the list, as `new Set(...).filter(Boolean)`. `CompaniesBound` and `CompaniesIgnoreOrder` state its properties. |
| Views.UpdateStats | js/app.js:110-118 | The company count and the favourite count never exceed the contact count. |
| Views.CompanyTally | js/app.js:121-129 | The counts the chart should draw: every non-empty company mapped to the number of contacts naming it. `CompanyTallyPositive` and `CompanyCounts` state its properties. |
| Views.CompaniesIgnoreOrder | js/app.js:113 | The set of companies depends only on which contacts there are, not on their order. |
| Views.StatsIgnoreOrder | js/app.js:110-118 | The three stats depend only on which contacts there are, not on their order. |
| Views.CountsIgnoreOrder | js/app.js:123-127 | Every per-company count depends only on which contacts there are, not on their order. |
| Views.ChartIgnoresOrder | js/app.js:120-140 | A chart drawn for a list is the chart of every reordering of that list. |
| Views.CountOfIsFilter | js/app.js:123-127 | The count for a company is the number of contacts naming it, as `filter` would find them. |
| Views.CompanyTallyPositive | js/app.js:123-127 | Every company the chart lists is named by at least one contact. |
| Views.TallySnocBlank | js/app.js:124 | A contact without a company leaves the counts as they are. |
| Views.TallySnocNamed | js/app.js:124-126 | A contact with a company adds one to that company's count, starting from 0 for a new company. |
| Views.CountStep | js/app.js:123-127 | One iteration of the loop turns the counts of the first i contacts into those of the first i + 1. |
| Views.CompanyCounts | js/app.js:120-129 | The loop produces one key per distinct non-empty company, each mapped to the number of contacts naming it. `hasCompany` is set exactly when some contact has a company. |
| Views.ChartCountsAsWritten | js/app.js:121-129 | The `companyCounts` object as the forEach builds it, with missing keys looked up on Object.prototype. `ChartCountsAgree` and `PrototypeNamesMiscounted` state where it is right and where it is not. |
| Views.ChartCountsAgree | js/app.js:121-129 | When no company is an Object.prototype name, the object built as written holds exactly those counts. |
| Views.PrototypeNamesMiscounted | js/app.js:121-129 | A company named "toString" gets a non-numeric value instead of 1. A company named "__proto__" is counted in the stats but gets no key. |
| Views.PersonalLog | js/app.js:350 | At most 5 entries, each with exactly the contact's name. |
| Views.PersonalLogSlice | js/app.js:350 | The entries are the first min(5, matches) matching entries, a prefix of the matching entries in log order. Since the log comes newest first, these are the most recent ones, and all matches are included when there are at most 5. |
| Views.OpenDetail | js/app.js:340-350 | Nothing for an unknown id. Otherwise the contact with that id and its activity slice. |
| App.AllVisibleSelected | js/app.js:279 | There are cards and every one of them is selected. `SelectionCoversCards` relates it to the selection of the whole list. |
| App.SelectionCoversCards | js/app.js:279 | For a non-empty list of cards drawn from the contacts, selecting every contact ticks select-all, and unselecting every contact unticks it. |
| App.BulkLabel | js/app.js:504 | The log label of a bulk delete. `BulkLabelShowsCount` states what it shows. |
| App.BulkLabelShowsCount | js/app.js:504 | The label is the fixed words around exactly the decimal digits of the count, which read back as the count. |
| App.FlipAt | js/app.js:429 | Only the target contact's favourite flag changes. |
| App.FlipTwice | js/app.js:429 | Flipping the same contact twice restores the list. |
| App.FlipStats | js/app.js:110-118 | A flip moves the favourite count by one and keeps the total and the company count. |
| App.EditForm | js/app.js:606-616 | The edit form is filled from the contact with the id, or is absent for an unknown id. |
| App.BuildRecord | js/app.js:636-643 | All fields are trimmed. An update keeps the stored favourite flag and creation time. A create is not a favourite and is stamped with the current time. There is no record when the edited id is gone. |
| App.EditSaveRoundTrip | js/app.js:612-643 | Editing a stored contact and saving it unchanged sends back exactly the stored record, and validation does not refuse it as its own duplicate. |
| App.PendingAsWritten | js/app.js:474-498 | How the confirm handler reads `pendingDeleteId`: the string "BULK" means a bulk delete and any other value a single delete. `BulkSentinelCollides` shows the collision. |
| App.BulkSentinelCollides | js/app.js:474-498 | As written, a pending id "BULK" is read as a bulk delete. |
| App.ToggleSelectShowsFilteredOut | js/app.js:444 | With the favourites filter on, the view differs from the whole list that `toggleSelect` as written renders. |
| App.FallbackKeepsSortedOrder | js/app.js:253-263 | A store that sends [bb, a], shown by name with no filter on and then by the `default` key, stays [a, bb]: the fallback keeps the order the in-place sort left, not the store order. |
| App.ContactApp.constructor | js/app.js:5-10 | The initial state: empty lists, empty selection, nothing pending, no filter. |
| App.ContactApp.RenderContactCards | js/app.js:269-280 | The cards are the given list. The select-all box is ticked exactly when every card is selected. An empty list leaves the box as it was. |
| App.ContactApp.UpdateBulkBar | js/app.js:462-470 | The bar shows exactly when the selection is non-empty. An empty selection also unticks select-all. |
| App.ContactApp.ApplyFiltersAndRender | js/app.js:233-267 | The cards are the projection. With no filter on, the contact list becomes the sorted list, which is a permutation of the old one. Every card is a listed contact. |
| App.ContactApp.RenderApp | js/app.js:100-105 | Cards, stats, chart and bulk bar. The stats and chart equal those of the list before the in-place sort. |
| App.ContactApp.RenderPanels | js/app.js:101-104 | Stats, chart and bulk bar drawn from a list holding the same contacts as a given one are that list's stats and chart. The bar tracks the selection. |
| App.ContactApp.ShowStats | js/app.js:110-118 | The panel shows the stats of the current list. |
| App.ContactApp.RenderChart | js/app.js:120-140 | The chart shows the count of every non-empty company of the list, and is hidden exactly when no contact has a company. These are the corrected counts of the chart finding, not the object the code builds. |
| App.ContactApp.Reload | js/app.js:79-87 | A failed fetch changes nothing. A resolved fetch replaces the list and re-renders: the cards are the projection of the fetched list, the list is them when no filter is on, and the stats and chart are those of the fetched list. The bar tracks the selection and the box follows the cards. The selection is kept. |
| App.ContactApp.ReloadActivities | js/app.js:89-97 | A resolved fetch replaces the activity log. |
| App.ContactApp.Search | js/app.js:675 | The cards become the projection under the new keyword, the list is reordered to them when no filter is on, and the select-all box is ticked exactly when every card is selected (left as it was with no cards). |
| App.ContactApp.ChooseSort | js/app.js:676 | The cards become the projection under the new sort key, the list is reordered to them when no filter is on, and the select-all box follows the cards. |
| App.ContactApp.ToggleFilterFav | js/app.js:403-407 | The switch flips, the cards become the projection under it, the list is reordered to them when no filter is on, and the select-all box follows the cards. |
| App.ContactApp.ToggleFav | js/app.js:411-435 | An unknown id changes nothing and sends nothing. Otherwise a PATCH is sent. Only once it resolves are the log entry sent and that contact's flag flipped, followed by a re-render whose cards, stats, chart, bar and box are those of the flipped list. Other contacts never change. |
| App.ContactApp.ToggleSelectAsWritten | js/app.js:440-445 | The id joins or leaves the selection and no other id changes. The whole list is rendered, and the select-all box is ticked exactly when every contact of the list is selected (left as it was when no card is shown, except that it is unticked when the selection is empty). |
| App.ContactApp.ToggleSelect | js/app.js:440-445 | The id joins or leaves the selection and no other id changes. The bar tracks the selection, the cards stay the projection, the list is reordered to them when no filter is on, and the select-all box is ticked exactly when the selection is non-empty and every card is selected (left as it was when no card is shown, except that it is unticked when the selection is empty). |
| App.ContactApp.SelectAllChanged | js/app.js:447-460 | The box first takes the clicked state. Ticking adds every id of the whole list and unticking removes them; other ids keep their state. The cards are re-projected and the list reordered when no filter is on. With no cards the box stays as clicked (unticked if the selection is empty); otherwise it ends ticked after ticking and unticked after unticking. |
| App.ContactApp.MarkEveryContact | js/app.js:452-455 | The forEach: the selection gains, or loses, exactly the ids of the list. |
| App.ContactApp.BulkDeleteClicked | js/app.js:472-477 | With a selection, the dialog opens for a bulk delete. Without one, nothing happens. |
| App.ContactApp.ConfirmDelete | js/app.js:482-487 | The dialog opens for exactly this contact, whatever its id. |
| App.ContactApp.CancelDelete | js/app.js:489-492 | The dialog closes and nothing is pending. |
| App.ContactApp.DeleteConfirmed | js/app.js:494-526 | On success a bulk delete clears the selection and logs one aggregate entry, and a single delete unselects only its id. On failure the selection is unchanged and nothing is logged. The pending delete is kept. |
| App.ContactApp.Submit | js/app.js:626-670 | Validation gives the same verdict as `validateForm`. Nothing is sent when it fails or the edited contact is gone. Otherwise a PUT or POST of the built record is sent, and the log entry and refresh follow only when it resolves. |

## Left out

- HTTP and the remote store. Every `fetch` is a success flag or an optional fetched list given as a parameter. JSON parsing and the response status are not modelled; the code never reads the status.
- Asynchrony. The initial `Promise.all`, the unawaited `fetchContacts` and `fetchActivities` refreshes, and interleavings of handlers while a request is in flight are not modelled. The model is single-threaded, and a refresh is the separate `Reload` step.
- DOM rendering: card HTML, toasts, dialogs, `classList` styling, avatar colours, animation delays, the activity list's icons and labels, and the form reset of the add button.
- Chart.js drawing. Only the counts it is given are modelled, and the chart object's lifecycle (`destroy` and `update`) is not.
- Clocks and dates. The current time is a parameter, `createdAt` is an opaque string, and date formatting is not modelled.
- Text.Lower: lowers ASCII capitals only, because full Unicode case mapping is not modelled.
- Projection.Compare: it tests a `SortKey`, which `KeyOf` reads once from the select value, where the code compares the string on every call. The result is the same. Thai collation (`localeCompare(..., 'th')`) is the parameter `collate`. It is assumed only to be a consistent comparator.
- App.ContactApp.RenderChart: draws the corrected counts of `Views.CompanyCounts`, not the object the code builds. For a company named after an Object.prototype property, such as "toString" or "__proto__", the page's chart differs; `Views.ChartCountsAsWritten` models what it gets.
- Sorting.Sort: works on values, not in place on the array. The in-place effect on `contacts` is modelled by reassigning the list.
- App.ContactApp.DeleteConfirmed: the bulk deletes are one `DeleteMany` of the selected set, because `Promise.all` sends them together and `Array.from` order does not matter.
- App.ContactApp.DeleteConfirmed: requires the dialog to be open. With nothing pending, the handler as written would delete the id "null", but that button is only reachable while the dialog is open.
- Contacts.Contact: favorite is always a boolean. A stored record without the flag would make the default comparator at js/app.js:255 answer 1 in both argument orders against a contact whose flag is `false` (`undefined !== false`, and neither value is truthy), so the comparator is inconsistent and the engine's order among such contacts is unspecified (section 23.1.3.30 of ECMA-262). The model assumes the flag is always present, and the list order that `Projection.ProjectDefault` promises covers only that case.
- Ids are strings. With numeric store ids, the `===` comparisons against ids read back from the page would never match; that case is not modelled.
- logActivity's follow-up `fetchActivities` is not part of the returned calls; `ReloadActivities` models the fetch result.

## Findings

| source | as written | input that shows it | evidently intended | confidence | as-written member | corrected member |
|---|---|---|---|---|---|---|
| js/app.js:474-498 | The bulk delete is marked by storing the string 'BULK' in `pendingDeleteId`, which also holds contact ids | Confirming the delete of a contact whose id is "BULK" takes the bulk branch and deletes the selection instead | A single delete of that contact | low (needs a store id equal to "BULK"); not executed | App.PendingAsWritten, App.BulkSentinelCollides | App.ContactApp.ConfirmDelete, App.ContactApp.DeleteConfirmed |
| js/app.js:121-129 | Counts are kept in a plain object literal `{}`, whose missing keys are looked up on Object.prototype | A contact whose company is "toString" gets the string "function toString() { [native code] }1" instead of 1. A contact whose company is "__proto__" never gets a key. | One numeric count per distinct company | medium; not executed | Views.ChartCountsAsWritten, Views.PrototypeNamesMiscounted | Views.CompanyCounts, Views.ChartCountsAgree, App.ContactApp.RenderChart |
| js/app.js:444 | `toggleSelect` re-renders with `renderContactCards(contacts)` | With the favourites filter on and a store of one favourite and one other contact, ticking the favourite's box shows both cards | Re-render the current filtered, sorted view | medium; not executed | App.ContactApp.ToggleSelectAsWritten, App.ToggleSelectShowsFilteredOut | App.ContactApp.ToggleSelect |
