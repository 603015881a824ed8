# Morocco building-footprint link catalog: table state and archive builder

The application is a browser catalog of download links for building-footprint files. Each file
is identified by its quadkey tile. The user can:

- search the catalog by quadkey or region;
- sort it by clicking column headers (size, region, quadkey, date);
- select rows with checkboxes;
- export the chosen rows as a ZIP archive with one text file per link.

This project models the logic behind that screen. The rest is markup.

- **Table state** (`App.tsx`). The model covers:
  - the size-label parser (`"12.7MB"` → bytes);
  - the search filter;
  - the stable comparator sort with an ascending / descending / unsorted direction;
  - the `requestSort` cycle;
  - the row and header-checkbox toggles;
  - the two export buttons and `processExport`, which raises and lowers the busy flag, resets and advances the progress record, and closes the dialog on success.

  The view state is the class `App.AppState`. `result.sort` becomes `TableView.SortInPlace`, an in-place insertion sort on an array. It is proved equal to the functional `TableView.SortLinks`, and that function is proved sorted, a permutation and stable. It is the only stable order, and when no two rows tie, a second click on an ascending column reverses it. The header's `forEach` becomes the loop `TableSelection.AddAll`.
- **Export dialog** (`components/SelectionModal.tsx`). The dialog is the class `SelectionModal.SelectionDialog`. The model covers:
  - its initial all-selected state;
  - its quadkey-only search;
  - `toggleItem` and `toggleAll`, both ignored during a download;
  - the confirm action;
  - the progress percentage.
- **Table header** (`components/LinkTable.tsx`): the header checkbox's `isAllSelected`, the sort indicator per column, and the sort key each header requests.
- **Archive builder** (`services/zipService.ts`):
  - The archive is a folder name plus a map from entry name (`<quadkey>.txt`) to entry text. Writing a second entry with the same name replaces the first.
  - The entry text is the fixed Arabic template, trimmed as `String.prototype.trim` does. A parser proves that each of the five fields can be read back from it.
  - `ZipService.GenerateZipBlob` is the loop that adds one entry per item and reports progress `(i + 1, n, 0)` after each.

Modules:

| module | file |
|---|---|
| `Wrappers` | `wrappers.dfy` |
| `Types` | `types.dfy` |
| `Seqs` | `seqs.dfy` (order-preserving filter) |
| `Strings` | `strings.dfy` (substring test, ASCII case mapping, JavaScript string order, `trim`, line splitting) |
| `SizeParser` | `size_parser.dfy` |
| `SortState` | `sort_state.dfy` |
| `TableView` | `table_view.dfy` |
| `TableSelection` | `table_selection.dfy` |
| `LinkTable` | `link_table.dfy` |
| `SelectionModal` | `selection_modal.dfy` |
| `ZipService` | `zip_service.dfy` |
| `App` | `app.dfy` |

Notes on the behaviour the model follows:

- When every visible row is selected, the header checkbox empties the whole selection. This includes identifiers of rows hidden by the current search. `TableSelection.ToggleAllSpec` states it, and `TableSelection.ToggleAllTwice` shows the checkbox is not its own inverse.
- The dialog's `toggleAll` compares the number of selected identifiers with the number of items. It does not compare the sets. `SelectionModal.SizeTestMeansAllSelected` proves the two tests agree when two conditions hold: the selection only holds item identifiers, and the quadkeys are unique.
- `App.tsx` never calls `setIsModalOpen(true)`, so the dialog is never shown by this component. `App.AppState` still keeps `isModalOpen` and closes it on a successful export, as `processExport` does.
- The table selection is not cleared after an export.
- The export handlers do not check the busy flag themselves. Only the buttons' `disabled` attribute does that, and the model leaves it out.

## Model

| member | source | states |
|---|---|---|
| Types.Field | App.tsx:51-52 | definition: the string field a column header sorts by (region, quadkey, url, size or date); its use is stated by `TableView.SortedMeaning` |
| Types.Ids | components/SelectionModal.tsx:22 | definition: the set of the links' quadkeys, `new Set(items.map(i => i.quadkey))`; properties in `Types.IdsSnoc` and `Types.UniqueIdsCardinality` |
| Types.IdsSnoc | components/SelectionModal.tsx:22 | the identifier set of a list extended by one link gains exactly that link's quadkey |
| Types.UniqueIdsCardinality | components/SelectionModal.tsx:47 | with pairwise distinct quadkeys, a list has as many identifiers as links |
| Seqs.Filter | App.tsx:38-41 | `Array.prototype.filter` is never longer than its input |
| Seqs.FilterMembers | App.tsx:38-41 | the filtered list holds exactly the input's elements that pass, and each kept element passes |
| Seqs.FilterIsSubsequence | App.tsx:38-41 | the filtered list embeds in the input in order (an increasing index witness) |
| Seqs.FilterAllPass | App.tsx:38-41 | when every element passes, filtering returns the input unchanged |
| Seqs.FilterIdempotent | App.tsx:38-41 | filtering twice with the same test gives the same list as once |
| Seqs.FilterAppend | App.tsx:38-41 | filtering distributes over concatenation |
| Seqs.FilterSwapLast | App.tsx:44 | two elements that do not both pass can trade places at the end without changing the filtered list |
| Seqs.FilterSnoc | App.tsx:44 | lists with the same filtered image keep it when one element is appended to both |
| Seqs.Reversed | App.tsx:44-57 | reversal keeps the length and puts element `i` at position `n - 1 - i` |
| Seqs.ReversedMultiset | App.tsx:44-57 | reversal keeps every element with its multiplicity |
| Seqs.SortedByUnique | App.tsx:44-57 | under a comparator where any two different elements are strictly ordered, two sorted lists with the same elements are equal |
| Seqs.StableSortedUnique | App.tsx:44 | two sorted lists that list every tie class in the same order are equal |
| Seqs.FilterSubMultiset | components/SelectionModal.tsx:52 | filtering adds no element and no duplicate: its multiset is contained in the input's |
| Strings.Contains | App.tsx:31-33 | definition of `includes`: some suffix starts with the needle, so the empty needle is always found; properties in `Strings.ContainsSuffix` and `Strings.NotContainsWithoutFirst` |
| Strings.ContainsSuffix | App.tsx:31-33 | `includes` finds a string at the end of another |
| Strings.NotContainsWithoutFirst | App.tsx:31-33 | `includes` fails when the needle's first character is absent |
| Strings.Upper | App.tsx:30 | ASCII upper-casing keeps the length |
| Strings.Lower | App.tsx:40 | ASCII lower-casing keeps the length |
| Strings.UpperAppend | App.tsx:30 | upper-casing distributes over concatenation |
| Strings.UpperIdempotent | App.tsx:30 | upper-casing twice equals upper-casing once |
| Strings.StrLess | App.tsx:54-55 | definition of string `<`: the first differing character decides, and a proper prefix comes first; properties in `Strings.StrLessIrreflexive`, `Strings.StrLessAsymmetric`, `Strings.StrLessTransitive` and `Strings.StrLessTotal` |
| Strings.StrLessIrreflexive | App.tsx:54-55 | JavaScript `<` on strings is irreflexive |
| Strings.StrLessAsymmetric | App.tsx:54-55 | JavaScript `<` on strings is asymmetric |
| Strings.StrLessTransitive | App.tsx:54-55 | JavaScript `<` on strings is transitive |
| Strings.StrLessTotal | App.tsx:54-55 | of two different strings one is `<` the other, so the comparator's 0 means equal fields |
| Strings.IsWhiteSpace | services/zipService.ts:32 | definition: the characters `trim` removes (ECMAScript white space and line terminators) |
| Strings.Trim | services/zipService.ts:32 | definition of `trim`: drop the leading, then the trailing run of white space; properties in `Strings.TrimStartPrefix`, `Strings.TrimEndSuffix` and `Strings.TrimPadded` |
| Strings.TrimStartPrefix | services/zipService.ts:32 | `trim` drops exactly a leading whitespace run |
| Strings.TrimEndSuffix | services/zipService.ts:32 | `trim` drops exactly a trailing whitespace run |
| Strings.TrimPadded | services/zipService.ts:22-32 | a body without whitespace at its ends, padded with whitespace, trims to the body |
| Strings.Join | services/zipService.ts:22-32 | definition: lines joined with "\n", the shape of the template literal; properties in `Strings.LinesJoin` and `ZipService.JoinEndsWithLast` |
| Strings.FirstLineFeed | services/zipService.ts:22-32 | finds the first line break of a text |
| Strings.Lines | services/zipService.ts:22-32 | splitting a text on line breaks gives at least one line |
| Strings.LinesCons | services/zipService.ts:22-32 | splitting `a + "\n" + b`, with no break in `a`, gives `a` followed by the lines of `b` |
| Strings.LinesJoin | services/zipService.ts:22-32 | splitting lines joined with `"\n"` gives the lines back, when none contains a break |
| SizeParser.UnitFactor | App.tsx:30-34 | definition: the multiplier chosen from the upper-cased label, testing "GB", then "MB", then "KB", else 1; stated per unit by `SizeParser.GigabyteFactor`, `SizeParser.MegabyteFactor`, `SizeParser.KilobyteFactor`, `SizeParser.BareFactor` and `SizeParser.UnitsOrdered` |
| SizeParser.ParseSizeToBytes | App.tsx:27-35 | 0 when the label has no leading number; a nonnegative number gives a nonnegative byte count |
| SizeParser.CaseInsensitive | App.tsx:30 | the unit is recognised regardless of the label's case |
| SizeParser.GigabyteFactor | App.tsx:31 | any label ending in GB multiplies by 1024^3, whatever precedes the unit, because "GB" is tested first |
| SizeParser.MegabyteFactor | App.tsx:32 | a label ending in MB, with no other unit letter, multiplies by 1024^2 (GB is not found first) |
| SizeParser.KilobyteFactor | App.tsx:33 | a label ending in KB, with no other unit letter, multiplies by 1024 (GB and MB are not found first) |
| SizeParser.BareFactor | App.tsx:34 | a label with no unit letter is the bare number |
| SizeParser.UnitsOrdered | App.tsx:31-34 | GB, then MB, then KB multiply by 1024^3, 1024^2 and 1024; a label with no unit is the bare number; for a positive number GB > MB > KB > bare |
| SortState.RequestSort | App.tsx:63-71 | the new configuration has the clicked key, and a key other than the current one always starts ascending |
| SortState.RequestSortCycles | App.tsx:63-71 | on the current key: asc → desc, desc → unsorted, unsorted → asc, so three clicks return to the start |
| TableView.Matches | App.tsx:39-40 | definition: the search test, the quadkey contains the term or the lower-cased region contains the lower-cased term; stated by `TableView.FilterLinksSpec` |
| TableView.FilterLinks | App.tsx:38-41 | definition: `allLinks.filter` with that test; properties in `TableView.FilterLinksSpec` and `TableView.EmptyTermKeepsAll` |
| TableView.FilterLinksSpec | App.tsx:37-41 | the view keeps, in order and without duplicates added, exactly the links whose quadkey contains the term or whose lower-cased region contains the lower-cased term; filtering again changes nothing |
| TableView.EmptyTermKeepsAll | App.tsx:38-41 | an empty search keeps every link in its original order |
| TableView.Bytes | App.tsx:46-47 | definition: a link's byte count, `parseSizeToBytes` of its size label; stated by `TableView.SortedMeaning` |
| TableView.Compare | App.tsx:44-57 | definition: the sort comparator, a byte difference on the size column and -1/1/0 by string order on the others, negated for descending; properties in `TableView.CompareFlip`, `TableView.CompareTransitive`, `TableView.CompareReflexive`, `TableView.DescendingSwapsArguments` and `TableView.SortedMeaning` |
| TableView.CompareFlip | App.tsx:44-57 | swapping the arguments flips the comparator's sign, and a tie stays a tie |
| TableView.CompareTransitive | App.tsx:44-57 | "not after" under the comparator is transitive |
| TableView.Insert | App.tsx:44 | inserting one link lengthens the list by one |
| TableView.SortLinks | App.tsx:44 | sorting keeps the length |
| TableView.InsertPermutes | App.tsx:44 | inserting adds exactly that link to the multiset |
| TableView.InsertSorted | App.tsx:44-57 | inserting into a sorted list keeps it sorted |
| TableView.NotBothTied | App.tsx:44-57 | a link the comparator puts after `x` is never tied with something `x` is tied with |
| TableView.InsertKeepsTies | App.tsx:44 | inserting a link after its ties keeps the tie class in order |
| TableView.SortLinksPermutes | App.tsx:44 | the sorted list is a permutation of the input |
| TableView.SortLinksSorted | App.tsx:44-57 | the sorted list is ordered by the comparator |
| TableView.SortLinksStable | App.tsx:44 | links the comparator ties appear in input order (stable, as `Array.prototype.sort` is) |
| TableView.InsertPast | App.tsx:44 | one shift step of the in-place insertion agrees with the functional insertion |
| TableView.InsertPastAll | App.tsx:44 | insertion moves past a whole suffix of links that should follow the inserted one |
| TableView.InsertStops | App.tsx:44 | insertion stops in front of a link that need not follow the inserted one |
| TableView.ShiftPast | App.tsx:44 | the shifting loop moves every prefix link that should follow `x` one place right, keeps the others and the rest of the array, and stops at the slot for `x` |
| TableView.InsertInPlace | App.tsx:44 | one insertion pass on the array equals the functional insertion of the next link into the sorted prefix, and leaves the rest alone |
| TableView.SortInPlace | App.tsx:43-58 | the in-place array sort leaves the array equal to `SortLinks` of its old contents |
| TableView.FilteredView | App.tsx:37-61 | definition: the `filteredLinks` value, filtered and then sorted unless the direction is null; properties in `TableView.FilteredViewSpec` and `TableView.FilteredViewReversal`, computed in place by `TableView.ComputeFilteredLinks` |
| TableView.ComputeFilteredLinks | App.tsx:37-61 | the computed rows equal the filtered view: filter, then sort in place when a direction is set |
| TableView.FilteredViewSpec | App.tsx:43-60 | unsorted returns the filtered order unchanged; otherwise the rows are a sorted, stable permutation of the filtered links |
| TableView.CompareReflexive | App.tsx:44-57 | the comparator returns 0 for a link against itself |
| TableView.DescendingSwapsArguments | App.tsx:44-57 | the descending comparator equals the ascending one with its arguments swapped |
| TableView.ReversedSorted | App.tsx:44-57 | a list sorted ascending, read backwards, is sorted descending on the same column |
| TableView.SortedUnique | App.tsx:44-57 | when no two links tie, only one order of a given multiset of links is sorted |
| TableView.StableSortUnique | App.tsx:44 | any sorted list that keeps every tie class of the input in input order equals `SortLinks`: every stable sort with this comparator gives the model's order |
| TableView.SortReversal | App.tsx:44-57 | when no two links tie in the column, the descending sort is exactly the ascending sort reversed |
| TableView.FilteredViewReversal | App.tsx:37-71 | when no two shown rows tie in the column, a second click on a column sorted ascending shows the same rows in reverse order |
| TableView.SortedMeaning | App.tsx:45-56 | sorted means byte sizes non-decreasing (asc) or non-increasing (desc) on the size column, and string order on the others |
| TableSelection.AllSelected | App.tsx:83 | definition: every visible row's quadkey is selected, the `every` test; stated by `TableSelection.ToggleAllSpec` |
| TableSelection.Toggle | App.tsx:73-80 | flips membership of exactly the given identifier and no other |
| TableSelection.ToggleTwice | App.tsx:73-80 | toggling the same identifier twice restores the selection |
| TableSelection.AddAll | App.tsx:86-88 | the `forEach` loop yields the old selection plus every visible identifier |
| TableSelection.ToggleAll | App.tsx:82-90 | definition: the header toggle's new selection; properties in `TableSelection.ToggleAllSpec`, `TableSelection.ToggleAllNothingVisible` and `TableSelection.ToggleAllTwice`, computed by the loop `TableSelection.AddAll` |
| TableSelection.ToggleAllSpec | App.tsx:82-90 | if every visible identifier is selected the selection becomes empty; otherwise it becomes the old selection plus the visible identifiers |
| TableSelection.ToggleAllNothingVisible | App.tsx:83-84 | with no visible rows the header toggle empties the selection (the `every` over nothing holds) |
| TableSelection.ToggleAllTwice | App.tsx:82-90 | twice from a partial selection gives empty, and twice from a full one gives exactly the visible identifiers |
| LinkTable.IsAllSelected | components/LinkTable.tsx:22 | checked if and only if there are rows and every row's quadkey is selected |
| LinkTable.ColumnSortKey | components/LinkTable.tsx:37-85 | definition: the key each header cell passes to `onSort`, none for the checkbox and URL columns; stated by `LinkTable.ColumnKeys` |
| LinkTable.ColumnKeys | components/LinkTable.tsx:37-85 | the header cells request, left to right, no key, region, quadkey, sizeBytes, no key, date, and no two cells share a key |
| LinkTable.GetSortIcon | components/LinkTable.tsx:24-29 | definition of `getSortIcon`: neutral unless the column is the current key, then up, down or neutral by direction; properties in `LinkTable.AtMostOneDirectionShown` and `LinkTable.ClickedColumnIcon` |
| LinkTable.AtMostOneDirectionShown | components/LinkTable.tsx:24-29 | at most one sortable column shows an up or down indicator |
| LinkTable.ClickedColumnIcon | components/LinkTable.tsx:24-29 | after a click the clicked column shows up (asc), down (desc) or neutral (unsorted), and every other column shows neutral |
| LinkTable.HeaderCheckboxFlips | components/LinkTable.tsx:22 | on a non-empty table, clicking the header checkbox flips its checked state |
| SelectionModal.FilteredItems | components/SelectionModal.tsx:25-27 | definition: `items.filter` by quadkey containing the term; stated by `SelectionModal.FilteredItemsSpec` |
| SelectionModal.FilteredItemsSpec | components/SelectionModal.tsx:25-27 | the dialog lists, in order, exactly the items whose quadkey contains the term; the region is not searched |
| SelectionModal.SelectedItems | components/SelectionModal.tsx:52 | definition: `items.filter` by selected quadkey; stated by `SelectionModal.SelectedItemsSpec` and returned by `SelectionModal.SelectionDialog.HandleConfirm` |
| SelectionModal.SelectedItemsSpec | components/SelectionModal.tsx:51-54 | confirming passes, in item order, exactly the items whose quadkey is selected, with no duplicates added |
| SelectionModal.ToggleAllItems | components/SelectionModal.tsx:44-48 | definition: empty when the selection's size equals the item count, else every item's quadkey; stated by `SelectionModal.SizeTestMeansAllSelected` and `SelectionModal.ToggleAllItemsSpec` |
| SelectionModal.SizeTestMeansAllSelected | components/SelectionModal.tsx:44 | the size test means "all selected" when the selection holds only item identifiers and those are unique |
| SelectionModal.ToggleAllItemsSpec | components/SelectionModal.tsx:42-49 | under that condition, select-all gives empty from a full selection and all identifiers otherwise, and keeps the condition |
| SelectionModal.Round | components/SelectionModal.tsx:57 | `Math.round` gives the integer within one half of its argument |
| SelectionModal.RoundMonotone | components/SelectionModal.tsx:57 | rounding is monotone |
| SelectionModal.RatioBounds | components/SelectionModal.tsx:57 | for a positive total, a count between 0 and the total has a ratio in [0, 1], and the full count gives 1 |
| SelectionModal.ProgressPercentage | components/SelectionModal.tsx:56-58 | 0 when total is 0 or less, 100 when current = total > 0, within [0, 100] when 0 <= current <= total |
| SelectionModal.ProgressPercentageMonotone | components/SelectionModal.tsx:56-58 | more items done never shows a smaller percentage |
| SelectionModal.SelectionDialog.constructor | components/SelectionModal.tsx:22-23 | the dialog starts with every item's quadkey selected and an empty search |
| SelectionModal.SelectionDialog.Rerender | components/SelectionModal.tsx:14-22 | new items replace the old ones; the selection made so far is kept, since the state initialiser only runs once |
| SelectionModal.SelectionDialog.SetSearchTerm | components/SelectionModal.tsx:23 | the dialog search holds the typed term |
| SelectionModal.SelectionDialog.ToggleItem | components/SelectionModal.tsx:31-40 | does nothing during a download; otherwise flips exactly that identifier |
| SelectionModal.SelectionDialog.ToggleAll | components/SelectionModal.tsx:42-49 | does nothing during a download; otherwise empties the selection when its size equals the item count, else selects all item quadkeys |
| SelectionModal.SelectionDialog.HandleConfirm | components/SelectionModal.tsx:51-54 | passes the selected items in item order: a subsequence of the items holding exactly those with a selected quadkey |
| ZipService.EntryLines | services/zipService.ts:23-31 | definition: the nine lines of the template with the record's fields filled in; stated by `ZipService.EntryTextIsLines` |
| ZipService.RawTemplate | services/zipService.ts:22-32 | definition: the template literal before `trim`, with its opening line feed and closing line feed and indentation |
| ZipService.EntryText | services/zipService.ts:22-32 | definition: the trimmed template, an entry's text; properties in `ZipService.EntryTextIsLines` and `ZipService.EntryRoundTrip` |
| ZipService.EntryTextIsLines | services/zipService.ts:22-32 | the trimmed template is the title, rule, five labelled fields, a blank line and the note, joined by line breaks |
| ZipService.JoinEndsWithLast | services/zipService.ts:22-32 | joined lines end with the last line's last character |
| ZipService.TemplateLinesSingle | services/zipService.ts:22-31 | no fixed template line contains a line break |
| ZipService.NoteSingleLine | services/zipService.ts:31 | the closing note is one line |
| ZipService.LabelsSingleLine | services/zipService.ts:23-29 | the title, rule and field labels are one line each |
| ZipService.EntryRoundTrip | services/zipService.ts:22-32 | the entry text holds region, quadkey, url, size and date verbatim, in that order: reading the text back gives the item, when no field has a line break |
| ZipService.EntryName | services/zipService.ts:34 | definition: the entry name `<quadkey>.txt`; stated by `ZipService.EntryNameInjective` |
| ZipService.EntryNameInjective | services/zipService.ts:34 | two entries share a name only if they share a quadkey |
| ZipService.EntryNamesSnoc | services/zipService.ts:34 | one more item adds exactly its `<quadkey>.txt` name |
| ZipService.ArchiveEntries | services/zipService.ts:21-39 | definition: the folder's entries after the `forEach`, each item writing its text under its name; properties in `ZipService.ArchiveEntryNames`, `ZipService.ArchiveEntriesCount` and `ZipService.ArchiveEntriesUnique`, built by `ZipService.GenerateZipBlob` |
| ZipService.ArchiveEntryNames | services/zipService.ts:21-39 | the archive's entry names are exactly the items' `<quadkey>.txt` names, and there are at most as many entries as items |
| ZipService.FreshLastName | services/zipService.ts:34 | with unique quadkeys, the last item's name is not taken by an earlier item |
| ZipService.ArchiveEntriesCount | services/zipService.ts:21-39 | with unique quadkeys no entry overwrites another: one entry per item |
| ZipService.EarlierEntryKept | services/zipService.ts:34 | adding an item with a new name keeps every earlier item's entry |
| ZipService.ArchiveEntriesUnique | services/zipService.ts:21-39 | with unique quadkeys there is one entry per item, and each item's entry holds its own text |
| ZipService.ProgressReports | services/zipService.ts:36-38 | n reports, the i-th is (i + 1, n, 0), and the last is (n, n, 0) |
| ZipService.ArchiveFolder.constructor | services/zipService.ts:14 | a new folder has its name and no entries |
| ZipService.ArchiveFolder.File | services/zipService.ts:34 | adding a file sets that name's text and leaves every other entry as it was |
| ZipService.GenerateZipBlob | services/zipService.ts:9-47 | a folder failure is raised before any entry or report; otherwise one entry per item named `<quadkey>.txt`, reports (1, n, 0) … (n, n, 0) when a callback is given and none otherwise, and an empty item list gives an empty archive |
| App.SelectedRows | App.tsx:93 | definition: the visible rows whose quadkey is selected; stated by `App.SelectedRowsSpec` |
| App.SelectedRowsSpec | App.tsx:93 | the table export takes, in table order, exactly the visible rows with a selected quadkey, and nothing exactly when no visible row is selected |
| App.ExportResult | App.tsx:106-125 | definition: the export's outcome, the folder error, else the generation error, else the archive of the items; produced by `App.AppState.ProcessExport` |
| App.FinalProgress | App.tsx:106-125 | definition: the progress after an export, (n, n, 0) when the folder was created and n > 0, else the reset (0, n, 0); stated by `App.FinalProgressPercentage` |
| App.FinalProgressPercentage | App.tsx:106-125 | after an export the percentage is 100 when there was something to build and the folder was created, and 0 otherwise |
| App.AppState.constructor | App.tsx:16-22 | the initial state: no search, size column unsorted, nothing selected, not busy, progress (0, 0, 0), dialog closed |
| App.AppState.FilteredLinks | App.tsx:37-61 | definition: the rows on screen, `TableView.FilteredView` of the state; used by every handler's contract |
| App.AppState.SetSearchTerm | App.tsx:143 | the search box sets the term |
| App.AppState.RequestSort | App.tsx:63-71 | the new sort configuration is the tri-state step from the old one |
| App.AppState.ToggleTableSelection | App.tsx:73-80 | a row's checkbox flips exactly its identifier |
| App.AppState.ToggleAllTableSelection | App.tsx:82-90 | the header checkbox applies `ToggleAll` to the rows on screen |
| App.AppState.ProcessExport | App.tsx:106-125 | the final progress is (n, n, 0) when the folder was created and n > 0, and otherwise the reset value (0, n, 0); not busy afterwards on success and failure alike; the dialog closes only on success; the outcome is the archive or the error |
| App.AppState.HandleDownloadTableSelection | App.tsx:92-99 | refused with no state change when no visible row is selected; otherwise exports exactly the selected visible rows |
| App.AppState.HandleDownloadAll | App.tsx:101-104 | does nothing when no row is visible; otherwise exports every visible row in view order |

## Left out

- `parseFloat` is a parameter of the model (`string -> Option<real>`, where `None` is `NaN`). How JavaScript reads the leading number of a label is not modelled.
- Floating point: sizes, ratios and products are exact reals, so rounding error and overflow to infinity are not modelled.
- `Strings.Upper`, `Strings.Lower`: `toUpperCase` and `toLowerCase` are modelled on ASCII letters only, where the length is kept. Unicode case mapping is not modelled; it can change the length ("ß" upper-cases to "SS").
- JavaScript string `<` is modelled as order on characters. The source compares UTF-16 code units, which differs only for characters outside the Basic Multilingual Plane.
- JSZip is a foreign library:
  - whether `zip.folder` succeeds and whether `generateAsync` succeeds are boolean parameters;
  - DEFLATE compression, the blob, and `generateAsync` itself are not modelled.
- `downloadBlob` (services/zipService.ts:52-61) and the dated archive file name (App.tsx:115-116) are left out. They are browser DOM and clock behaviour.
- `alert` and `console.error` are left out; the cases they report are the `Refused` and `Failed` outcomes.
- Asynchrony is not modelled. Each handler runs to completion, with no interleaving of clicks during an `await`. The buttons' `disabled` attribute and the red-size highlight are rendering and are left out.
- React rendering, `useMemo` caching and components/Header.tsx are left out; Header.tsx is static markup.
- `parseData` is not part of this model: the catalog is a constructor argument. The `Statistics` type in types.ts is unused.
- TableView.SortInPlace: the source leaves the sort algorithm to the engine. The model uses a stable insertion sort. `TableView.StableSortUnique` shows that it gives the same order as any stable sort with the same comparator.
- TableView.SortedMeaning: the order on the size column holds for the byte counts given by the `parseFloat` parameter. A `NaN` comparator result cannot arise in the model, whose sizes are exact reals. In the source, two infinite sizes (`parseFloat("Infinity")`, or a product such as "1e300GB" that overflows) give `NaN`, which `sort` treats as a tie.
- ZipService.EntryRoundTrip: the round trip holds only for fields without a line break. A field containing one still appears verbatim in the text, but the text can no longer be split back into fields.
- SelectionModal.ToggleAllItemsSpec: stated only for a selection made of item identifiers with unique quadkeys. Outside that condition the size test can misread the selection; `SelectionDialog.ToggleAll` states the exact behaviour for every input.
