# Admin dashboard: a verified model of its list, table and form logic

This project models the client-side logic of a React admin dashboard for a
mail-security product. Its pages show licenses, users, plugins, disputes,
rogue-address lists and dashboard charts. It also has forms that create
licenses and a modal for admin comments. Rendering is not modelled. What is
modelled is the logic behind it:

- the generic data table (`Table2`): search, column filters, null-last
  sorting, pagination with a windowed button bar, column visibility, and the
  status, threat-score and hour formatting;
- the Rogue DB page: three tabs, a search over every field, a header-click
  sort, pages of ten with running serial numbers, and page navigation;
- the record lists that change by id after a confirmed server write:
  dispute status and comment, the license reservation toggle, user deletion;
- the derived views:
  - the processed license list and the four plugin tabs;
  - the profile completion and its missing fields;
  - the staff dashboard's twelve monthly buckets;
  - the super-admin chart series;
- the two license-creation forms: the `LIC-NNNNN` id generator, per-field
  validation, and the submit gate;
- the admin-comment modal's submit.

Every server call is an input to the model. An answer is either
`Ok(payload)`, `NotOk` (a non-2xx status) or `Threw(message)` (a rejected
promise). A handler with an `await` is one method when the outcome is an
input. A form's submit is two methods: `BeginSubmit` (the synchronous guard)
and `FinishSubmit` (what happens after the request settles). JavaScript
values are the datatype `JsValues.Value`. Truthiness, strict equality,
`String(v)`, `Number(s)`, `parseInt`, `split`, `trim` and `padStart` are
written out in `js_values.dfy`. `Array.prototype.sort` is a stable
insertion sort (`Sorting.SortBy`).

Modules:

| module | file | models |
|---|---|---|
| `JsValues` | js_values.dfy | the JavaScript values and coercions the pages rely on |
| `Seqs` | seqs.dfy | `Array.prototype.filter` (and a filter whose predicate may throw) |
| `Sorting` | sorting.dfy | a stable comparison sort |
| `Records` | records.dfy | replacing one field of the records with a given id |
| `Table2` | table2.dfy | src/components/Tables/Table2.jsx |
| `RogueDB` | rogue_db.dfy | src/pages/RogueDB.jsx |
| `Disputes` | disputes.dfy | src/pages/Disputes.jsx |
| `Licenses` | licenses.dfy | src/pages/SuperAdmin/Licenses.jsx |
| `Users` | users.dfy | src/pages/SuperAdmin/Users.jsx |
| `Plugin` | plugin.dfy | src/pages/Plugin.jsx |
| `Profile` | profile.dfy | src/pages/Profile.jsx |
| `StaffDashboard` | staff_dashboard.dfy | src/pages/StaffDashboard.jsx |
| `SuperAdminDashboard` | super_admin_dashboard.dfy | src/pages/SuperAdmin/SuperAdminDashboard.jsx |
| `LicenseForms` | license_forms.dfy | what the two license forms share |
| `CreateSingleLicense` | create_single_license.dfy | src/components/popup/CreateLicense/CreateSingleLicense.jsx |
| `CreateMultipleLicenses` | create_multiple_licenses.dfy | src/components/popup/CreateLicense/CreateMultipleLicenses.jsx |
| `AdminCommentModal` | admin_comment_modal.dfy | src/components/popup/AdminCommentModal/AdminCommentModal.jsx |

## Model

| member | source | states |
|---|---|---|
| `Records.ReplaceWhere` | src/pages/Disputes.jsx:55-60 | The list keeps its length and order. A record whose id matches gets the new value in the one field and keeps every other field. Every other record is unchanged. |
| `Seqs.Filter` | src/components/Tables/Table2.jsx:117-133 | `Array.prototype.filter`: at most as many elements; every kept element is in the input and passes; every passing element is kept. Order is `Seqs.FilterIsSubseq`, multiplicity `Seqs.FilterCounts`. |
| `Seqs.FilterIsSubseq` | src/components/Tables/Table2.jsx:117-133 | The kept elements are a subsequence of the input: the filter keeps their order. |
| `Seqs.FilterCounts` | src/components/Tables/Table2.jsx:117-133 | A kept value keeps every copy it has in the input; a rejected value has none left. |
| `Seqs.TryFilter` | src/pages/RogueDB.jsx:268-272 | A filter whose callback may throw: it completes iff no call throws, and then it equals the plain filter on "returned `true`". |
| `Seqs.TryFilterKeeps` | src/pages/RogueDB.jsx:268-272 | When it completes, it keeps, in order and with their multiplicity, exactly the elements whose call returned `true`. |
| `Sorting.SortBy` | src/components/Tables/Table2.jsx:138-152 | The sort keeps the length. `Sorting.SortPermutes` states the permutation and `Sorting.SortSorts` the order. |
| `Sorting.SortPermutes` | src/components/Tables/Table2.jsx:138-152 | The sorted list is a permutation of the input. |
| `Sorting.SortSorts` | src/components/Tables/Table2.jsx:138-152 | On a domain where the comparator is a consistent preorder, the output is ordered by it. |
| `Table2.FilteredDataSpec` | src/components/Tables/Table2.jsx:117-133 | Non-array data gives no rows. Otherwise the kept rows are a subsequence of the data. A row is kept exactly when some column (hidden ones too) contains the lower-cased term and every column filter matches. |
| `Table2.FilteredData` | src/components/Tables/Table2.jsx:117-133 | No contract of its own. `Table2.FilteredDataSpec` and `Table2.FilteredDataCounts` state what it keeps. |
| `Table2.FilteredDataCounts` | src/components/Tables/Table2.jsx:117-133 | A kept row keeps all of its copies; a dropped row loses all of them. |
| `Table2.EmptySearchKeepsAll` | src/components/Tables/Table2.jsx:117-133 | An empty search with no column filters keeps every row, in order, provided there is a column. |
| `Table2.SortedDataPermutes` | src/components/Tables/Table2.jsx:135-153 | The sorted rows are a permutation of the filtered rows. With no sort key they are the filtered rows themselves. |
| `Table2.CompareRows` | src/components/Tables/Table2.jsx:138-152 | No contract of its own. A null first key sorts after, a null second key before; strings use `localeCompare` and anything else the numeric difference; descending negates. `Table2.NumberComparison`, `Table2.NullKeyedRowsTrail` and `Table2.StringKeysSorted` state its effect. |
| `Table2.SortedData` | src/components/Tables/Table2.jsx:135-153 | No contract of its own. `Table2.SortedDataPermutes`, `Table2.NullsLast` and `Table2.KeyedRowsSorted` state what it returns. |
| `Table2.NullsLast` | src/components/Tables/Table2.jsx:135-153 | Sorting gives the rows with a non-null key, sorted, followed by the null-keyed rows in their original order. |
| `Table2.NullKeyedRowsTrail` | src/components/Tables/Table2.jsx:140-143 | No row with a null key comes before a row whose key is not null, in either direction. |
| `Table2.KeyedRowsSorted` | src/components/Tables/Table2.jsx:135-153 | On any domain where the comparator is a consistent preorder, the keyed rows come out ordered by it. |
| `Table2.StringKeysSorted` | src/components/Tables/Table2.jsx:145-147 | With string keys and a `localeCompare` that is a total preorder, keyed rows come out ascending (or descending) by `localeCompare`. |
| `Table2.NumberKeysSorted` | src/components/Tables/Table2.jsx:148-150 | With numeric keys, keyed rows come out in ascending (or descending) numeric order. |
| `Table2.NumberComparison` | src/components/Tables/Table2.jsx:148-150 | For two numbers the comparator answers their difference, negated for descending. |
| `Table2.NumberOrderConsistent` | src/components/Tables/Table2.jsx:148-150 | The numeric comparator is antisymmetric and transitive on rows with numeric keys. |
| `Table2.TotalPages` | src/components/Tables/Table2.jsx:155 | `ceil(n / 10)`: enough pages for every row, no empty last page, and zero pages exactly for zero rows. |
| `Table2.PageOf` | src/components/Tables/Table2.jsx:156-159 | A page holds at most ten rows. |
| `Table2.PagesTile` | src/components/Tables/Table2.jsx:155-159 | Pages 1..totalPages laid end to end are exactly the sorted rows. |
| `Table2.ClampPrevious` | src/components/Tables/Table2.jsx:460 | No contract of its own. `Table2.NavigationClamped` states its bounds and its step back. |
| `Table2.ClampNext` | src/components/Tables/Table2.jsx:468-470 | No contract of its own. `Table2.NavigationClamped` states its bounds and its step forward. |
| `Table2.NavigationClamped` | src/components/Tables/Table2.jsx:460-470 | From a page in range, "previous" and "next" stay within `1..totalPages` and move by at most one. They move exactly one when not at the ends. |
| `Table2.EntryForPage` | src/components/Tables/Table2.jsx:214-235 | Page `i` gives at most one entry. That entry carries page `i`, and `i` lies in the window: the first page, the last page, or within two of the current page. |
| `Table2.EntriesOrdered` | src/components/Tables/Table2.jsx:212-238 | The entries have strictly ascending page numbers, all within `1..n` and within the window around the current page. |
| `Table2.EntriesMembership` | src/components/Tables/Table2.jsx:212-238 | A page has a button (or an ellipsis) among the entries exactly when the button (or ellipsis) rule selects it. |
| `Table2.PaginationButtons` | src/components/Tables/Table2.jsx:212-238 | The loop builds the entries in page order. There are at most seven, strictly ascending, each within `1..totalPages`, and each page gets a button or an ellipsis exactly by the rule. |
| `Table2.AllVisible` | src/components/Tables/Table2.jsx:87-89 | The initial visibility map has one entry per column accessor, all `true`. |
| `Table2.ToggleFlipsOne` | src/components/Tables/Table2.jsx:205-210 | A toggle flips exactly that column's flag and nothing else. Toggling twice restores the map. |
| `Table2.ToggleVisibility` | src/components/Tables/Table2.jsx:205-210 | No contract of its own. `Table2.ToggleFlipsOne` states that exactly one flag flips. |
| `Table2.SortClickTwice` | src/components/Tables/Table2.jsx:107-115 | A click always sorts by the clicked column. Two clicks on a column already sorted ascending return to ascending. Two clicks on any other column end descending. |
| `Table2.NextSortConfig` | src/components/Tables/Table2.jsx:107-115 | No contract of its own. `Table2.SortClickTwice` states the key it sets and the direction after two clicks. |
| `Table2.TableView.constructor` | src/components/Tables/Table2.jsx:84-105 | Initial state: empty search, no filters, page 1, no sort key ascending, every column visible. |
| `Table2.TableView.HandleSort` | src/components/Tables/Table2.jsx:107-115 | Sorts by the clicked column. It is descending exactly when that column was already sorted ascending. Nothing else changes. |
| `Table2.TableView.ToggleColumnVisibility` | src/components/Tables/Table2.jsx:205-210 | Flips the column's flag; a missing entry reads as shown-false and becomes `true`. Other flags and the other state are unchanged. |
| `Table2.TableView.SetSearchTerm` | src/components/Tables/Table2.jsx:248 | Sets the term. The current page and everything else are unchanged. |
| `Table2.TableView.PreviousPage` | src/components/Tables/Table2.jsx:460 | `max(page - 1, 1)`; the page stays at least 1. |
| `Table2.TableView.NextPage` | src/components/Tables/Table2.jsx:468-470 | `min(page + 1, totalPages)` for the current rows; the page never exceeds `totalPages`. |
| `Table2.TableView.GoToPage` | src/components/Tables/Table2.jsx:223 | A page button sets that page; nothing else changes. |
| `Table2.StatusColorCaseInsensitive` | src/components/Tables/Table2.jsx:49-67 | Status colours ignore case. "safe", "unsafe" and "pending" get green, red and blue. The empty status gets grey. A string status never throws. |
| `Table2.ThreatBand` | src/components/Tables/Table2.jsx:69-74 | The band of a score is one of four. |
| `Table2.ThreatScoreBands` | src/components/Tables/Table2.jsx:69-74 | The colour is the palette entry of the score's band (below 40, 40-59, 60-79, 80 and up), and a higher score never gets a lower band. |
| `Table2.StatusColor` | src/components/Tables/Table2.jsx:49-67 | Any falsy status (null, undefined, 0, false, "") is grey. It throws exactly for a truthy status that is not a string, which has no `toLowerCase`. `Table2.StatusColorCaseInsensitive` states the colours of string statuses. |
| `Table2.ThreatScoreColor` | src/components/Tables/Table2.jsx:69-74 | No contract of its own. `Table2.ThreatScoreBands` states the four bands and their order. |
| `Table2.To12Hour` | src/components/Tables/Table2.jsx:35-41 | The hour shown is in 1..12 and agrees with the 24-hour value modulo 12. AM is exactly before noon. Converting back gives the original hour. The text is two zero-padded digits. |
| `RogueDB.DataKeys` | src/pages/RogueDB.jsx:218-231 | Each tab has one data key per header. |
| `RogueDB.ColumnKey` | src/pages/RogueDB.jsx:108 | The key is the header lower-cased with every space replaced by `_`, character by character. |
| `RogueDB.InitializeVisibleColumns` | src/pages/RogueDB.jsx:105-111 | The loop gives a map whose keys are exactly the headers' column keys, all `true`. |
| `RogueDB.MailColumnKeys` | src/pages/RogueDB.jsx:105-111 | The mail tab's visibility keys are "sr._no." and "mail_id". |
| `RogueDB.SomeMatches` | src/pages/RogueDB.jsx:268-272 | `some` stops at the first match. It is true iff some value matches with no null before it. It throws iff a null or undefined comes before any match. Otherwise it is false. |
| `RogueDB.ValueMatches` | src/pages/RogueDB.jsx:269-271 | No contract of its own. A null or undefined value throws; any other value matches iff its lower-cased text contains the lower-cased term. `RogueDB.SomeMatches` states the effect on a whole item. |
| `RogueDB.SomeMatchesWithoutNulls` | src/pages/RogueDB.jsx:268-272 | Without null fields, the search is true exactly when some value's text contains the term. |
| `RogueDB.SearchWithoutNulls` | src/pages/RogueDB.jsx:268-272 | For an item without null fields, the item matches exactly when one of its fields contains the term. |
| `RogueDB.SearchSpec` | src/pages/RogueDB.jsx:268-272 | The search throws iff some item's search throws. Otherwise it keeps, in order, exactly the matching items. |
| `RogueDB.SearchItems` | src/pages/RogueDB.jsx:268-272 | No contract of its own. `RogueDB.SearchSpec` states when it throws and what it keeps. |
| `RogueDB.FilteredData` | src/pages/RogueDB.jsx:252-275 | No contract of its own. It throws iff the search throws, and otherwise sorts what the search kept. `RogueDB.SearchSpec` and `RogueDB.SortItemsPermutes` state the two steps. |
| `RogueDB.EmptySearchKeepsFilledItems` | src/pages/RogueDB.jsx:268-272 | An empty term keeps every item that has at least one field and no null field. |
| `RogueDB.SortItemsPermutes` | src/pages/RogueDB.jsx:233-250 | Sorting keeps every item, each as often. With no sort field the order is unchanged too. |
| `RogueDB.CompareItems` | src/pages/RogueDB.jsx:236-249 | No contract of its own. `RogueDB.SortBySerialUsesId`, `RogueDB.TextOrderConsistent` and `RogueDB.SortByTextOrders` state the two orders it gives. |
| `RogueDB.SortItems` | src/pages/RogueDB.jsx:233-250 | No contract of its own. `RogueDB.SortItemsPermutes`, `RogueDB.SortBySerialUsesId` and `RogueDB.SortByTextOrders` state what it returns. |
| `RogueDB.SortBySerialUsesId` | src/pages/RogueDB.jsx:238-240 | Sorting by "sr_no" orders items by numeric `id`, ascending or descending. |
| `RogueDB.TextOrderConsistent` | src/pages/RogueDB.jsx:242-248 | The text comparator is antisymmetric and transitive on items that have the field. |
| `RogueDB.SortByTextOrders` | src/pages/RogueDB.jsx:242-248 | Sorting by any other field orders items by their lower-cased text, ascending or descending. |
| `RogueDB.SetField` | src/pages/RogueDB.jsx:281-284 | `{ ...item, sr_no }` sets that one field and leaves every other field's value alone. |
| `RogueDB.PageCount` | src/pages/RogueDB.jsx:288 | `ceil(n / 10)`: enough pages for every item, with no empty last page. |
| `RogueDB.PageItemsSpec` | src/pages/RogueDB.jsx:277-286 | A page holds at most ten items; it is full unless it is the last. Item `idx` of page `p` is item `(p-1)*10+idx`, unchanged except that `sr_no` is its 1-based position in the whole list. |
| `RogueDB.PageItems` | src/pages/RogueDB.jsx:277-286 | No contract of its own. `RogueDB.PageItemsSpec` states the page size, the items and their numbering. |
| `RogueDB.RogueView.constructor` | src/pages/RogueDB.jsx:28-52 | Initial state: URL tab, empty search, page 1, no sort, every URL column visible. |
| `RogueDB.RogueView.SwitchTab` | src/pages/RogueDB.jsx:323 | Sets the tab and page 1. The visibility map is rebuilt, all `true`, only when the tab changes. Nothing else changes. |
| `RogueDB.RogueView.ToggleColumnVisibility` | src/pages/RogueDB.jsx:213-216 | Flips the header's key in the visibility map. Nothing else changes. |
| `RogueDB.RogueView.HeaderClick` | src/pages/RogueDB.jsx:425-431 | Sorts by the column's data key. It is descending exactly when that key was already sorted ascending. Nothing else changes. |
| `RogueDB.RogueView.SetSearchTerm` | src/pages/RogueDB.jsx:335 | Sets the term; the page is not reset. |
| `RogueDB.RogueView.GotoPage` | src/pages/RogueDB.jsx:304-307 | `max(1, min(page, pageCount))`: the page is at least 1 and at most the page count when there are pages. |
| `RogueDB.RogueView.PreviousPage` | src/pages/RogueDB.jsx:292-296 | Moves back one page only from beyond page 1. |
| `RogueDB.RogueView.NextPage` | src/pages/RogueDB.jsx:298-302 | Moves forward one page only while before the last page. |
| `Disputes.DisputesView.constructor` | src/pages/Disputes.jsx:11-13 | Initially no disputes, loading, no error. |
| `Disputes.DisputesView.LoadDisputes` | src/pages/Disputes.jsx:28-44 | An ok response replaces the list. Non-ok and thrown responses set their error messages and keep the list. Loading ends on every path. |
| `Disputes.DisputesView.StatusChange` | src/pages/Disputes.jsx:49-78 | A failed or throwing update changes nothing. After an ok update, the refetched list replaces it when the refetch is ok. Otherwise the matching disputes take the returned status. |
| `Disputes.DisputesView.CommentAdd` | src/pages/Disputes.jsx:80-99 | On an ok response only the matching disputes' `admin_comment` changes, to the returned one. Otherwise nothing changes. |
| `Licenses.ProcessLicense` | src/pages/SuperAdmin/Licenses.jsx:48-56 | A license without `plugins` throws. Otherwise all original fields are kept and the four derived fields are added: `plugin_id` (or "N/A"), `allocated_to` (or "N/A"), "Active"/"Inactive", and `is_reserved` (or `false`). |
| `Licenses.ProcessLicenses` | src/pages/SuperAdmin/Licenses.jsx:48-56 | The map succeeds iff every license has `plugins`. It then keeps the length and order and processes each license. |
| `Licenses.ProcessLicensesIdempotent` | src/pages/SuperAdmin/Licenses.jsx:48-56 | After processing every license shows an owner, and processing again changes nothing. |
| `Licenses.ProcessLicenseIdempotent` | src/pages/SuperAdmin/Licenses.jsx:48-56 | Processing one processed license again returns it unchanged. |
| `Licenses.ProcessedFixed` | src/pages/SuperAdmin/Licenses.jsx:48-56 | A list of fixed points of the per-license step is a fixed point of the whole map. |
| `Licenses.FindLicense` | src/pages/SuperAdmin/Licenses.jsx:88-90 | `find` returns the first license whose id is strictly equal to `id`, or `None` when there is none. |
| `Licenses.PluginId` | src/pages/SuperAdmin/Licenses.jsx:51 | It throws exactly when `plugins` is null or missing. Otherwise it is the first plugin's `plugin_id` when that is truthy, and "N/A" when it is not. |
| `Licenses.StatusText` | src/pages/SuperAdmin/Licenses.jsx:53 | No contract of its own. `Licenses.ProcessLicense` states "Active" exactly for the string "1". |
| `Licenses.Reservable` | src/pages/SuperAdmin/Licenses.jsx:92-97 | No contract of its own. `Licenses.LicensesView.HandleAction` states that only a found license whose owner is "N/A" is sent. |
| `Licenses.RequestedFlag` | src/pages/SuperAdmin/Licenses.jsx:99-100 | No contract of its own. `Licenses.LicensesView.HandleAction` states that this flag is the one requested. |
| `Licenses.LicensesView.constructor` | src/pages/SuperAdmin/Licenses.jsx:85-132 | Starts with the given list and no row updating. |
| `Licenses.LicensesView.HandleAction` | src/pages/SuperAdmin/Licenses.jsx:85-132 | Actions other than "toggle" do nothing. An allocated or unknown license sends no request and keeps the list. Otherwise it requests "0" for a reserved license and "1" for a free one. An ok answer replaces only that license's `is_reserved`; any other answer keeps the list. `updatingRow` ends null. |
| `Users.FormatUsers` | src/pages/SuperAdmin/Users.jsx:42-47 | Every user keeps all fields and gains `name`, the two name parts with a space between. Length and order are kept. |
| `Users.DisplayNameParts` | src/pages/SuperAdmin/Users.jsx:45 | String name parts give "first last". A missing first name shows as "undefined". |
| `Users.DisplayName` | src/pages/SuperAdmin/Users.jsx:45 | No contract of its own. `Users.DisplayNameParts` and `Users.FormatUsers` state the name it builds. |
| `Users.WithoutUser` | src/pages/SuperAdmin/Users.jsx:75 | Exactly the users with that id go; every other user stays, with all of its copies. |
| `Users.WithoutUserKeepsOrder` | src/pages/SuperAdmin/Users.jsx:75 | The survivors keep their order. |
| `Users.WithoutAbsentUser` | src/pages/SuperAdmin/Users.jsx:75 | Deleting an id no user has changes nothing. |
| `Users.UsersView.constructor` | src/pages/SuperAdmin/Users.jsx:36-64 | Initially no users, not loading, no error. |
| `Users.UsersView.GetUsers` | src/pages/SuperAdmin/Users.jsx:36-64 | A non-empty ok result formats the users. An empty one sets "User data not available." and keeps the list. Non-ok and thrown responses set their errors. Loading always ends. |
| `Users.UsersView.HandleAction` | src/pages/SuperAdmin/Users.jsx:70-90 | Only "delete" with an ok response removes the user; anything else keeps the list. |
| `Plugin.TabsDisjoint` | src/pages/Plugin.jsx:56-116 | No license is in two of "Available", "Installed" and "Not Installed". |
| `Plugin.AllocatedArraySplit` | src/pages/Plugin.jsx:84-116 | An allocated license with an array of plugins is "Not Installed" iff the array is empty. It is "Installed" iff the first plugin has an id. |
| `Plugin.AvailableRows` | src/pages/Plugin.jsx:60-70 | One "Available" row per license, in order, numbered by position. |
| `Plugin.LicenseRows` | src/pages/Plugin.jsx:91-99 | One row per license, in order, numbered by position. |
| `Plugin.TabsNumbered` | src/pages/Plugin.jsx:56-146 | In every tab `sr_no` runs 1..n. |
| `Plugin.AvailableTabSelects` | src/pages/Plugin.jsx:55-70 | "Available License" shows, in input order and with their multiplicity, exactly the unallocated licenses without plugins. |
| `Plugin.InstalledTabSelects` | src/pages/Plugin.jsx:83-99 | "Plugin Installed" fails iff some license's check throws. Otherwise it shows, in input order and with their multiplicity, exactly the licenses whose check returns `true`. |
| `Plugin.NotInstalledTabSelects` | src/pages/Plugin.jsx:112-125 | "Plugin Not Installed" shows, in input order and with their multiplicity, exactly the allocated licenses without plugins. |
| `Plugin.Available` | src/pages/Plugin.jsx:56-59 | No contract of its own. `Plugin.AvailableTabSelects` and `Plugin.TabsDisjoint` state its effect. |
| `Plugin.Installed` | src/pages/Plugin.jsx:84-90 | No contract of its own. `Plugin.AllocatedArraySplit` states that for an allocated license whose plugins array has a present first plugin it never throws, and holds iff that plugin has an id. `Plugin.InstalledTabSelects` states what a throw does to the tab. |
| `Plugin.NotInstalled` | src/pages/Plugin.jsx:113-116 | No contract of its own. `Plugin.NotInstalledTabSelects` and `Plugin.AllocatedArraySplit` state its effect. |
| `Plugin.AvailableRow` | src/pages/Plugin.jsx:60-70 | No contract of its own. `Plugin.AvailableRows` and `Plugin.ReportAndStatus` state the numbering and the status text. |
| `Plugin.LicenseRow` | src/pages/Plugin.jsx:91-99 | No contract of its own. `Plugin.LicenseRows` and `Plugin.TabsNumbered` state the numbering. |
| `Plugin.AvailableTab` | src/pages/Plugin.jsx:55-70 | No contract of its own. `Plugin.AvailableTabSelects` states its rows. |
| `Plugin.InstalledTab` | src/pages/Plugin.jsx:83-99 | No contract of its own. `Plugin.InstalledTabSelects` states its rows and when it throws. |
| `Plugin.NotInstalledTab` | src/pages/Plugin.jsx:112-125 | No contract of its own. `Plugin.NotInstalledTabSelects` states its rows. |
| `Plugin.ReportTab` | src/pages/Plugin.jsx:138-146 | No contract of its own. `Plugin.ReportAndStatus` states that every license is listed in order. |
| `Plugin.ReportAndStatus` | src/pages/Plugin.jsx:138-146 | The report has every license, in order. An available row is "Inactive" iff its status is "0". |
| `Profile.FilledCount` | src/pages/Profile.jsx:180-182 | At most six fields are filled. |
| `Profile.ProfileCompletion` | src/pages/Profile.jsx:171-184 | The nearest whole percent of filled/6 (a half rounds up), within 0..100. |
| `Profile.RoundedPercent` | src/pages/Profile.jsx:183 | `Math.round(filled / 6 * 100)` for 0..6 filled fields. |
| `Profile.MissingFields` | src/pages/Profile.jsx:186-199 | One label per missing field. `Profile.MissingFieldsInOrder` states the order and `Profile.MissingComplementsFilled` which labels are listed. |
| `Profile.MissingFieldsInOrder` | src/pages/Profile.jsx:186-199 | The missing labels come in the order the fields are declared: a subsequence of the six labels. |
| `Profile.Labels` | src/pages/Profile.jsx:196-198 | The labels of the fields, in order. |
| `Profile.FilledPlusMissing` | src/pages/Profile.jsx:171-199 | Filled and missing fields split the field list between them. |
| `Profile.RequiredLabelsDistinct` | src/pages/Profile.jsx:187-194 | The six labels are distinct. |
| `Profile.MissingLabelListed` | src/pages/Profile.jsx:196-198 | With distinct labels, a label is listed iff its field is falsy. |
| `Profile.MissingComplementsFilled` | src/pages/Profile.jsx:171-199 | The missing labels plus the filled count make six. Each label is listed iff its field is falsy. |
| `Profile.CompletionExtremes` | src/pages/Profile.jsx:180-183 | 100% iff all six fields are truthy; 0% iff none is. |
| `Profile.NoUserInfo` | src/pages/Profile.jsx:171-199 | Without user information the card shows 0% and all six labels, in order. |
| `Profile.RequiredLabels` | src/pages/Profile.jsx:187-194 | The six labels in declaration order. |
| `StaffDashboard.FirstWithKey` | src/pages/StaffDashboard.jsx:33-37 | `find` stops at the first item with that month, and finds none only when no item has it. |
| `StaffDashboard.MonthNumber` | src/pages/StaffDashboard.jsx:35 | No contract of its own. `StaffDashboard.OutOfYearRowsIgnored` states that a month outside 1..12, or not a number, never fills a bucket. |
| `StaffDashboard.Bucket` | src/pages/StaffDashboard.jsx:33-37 | No contract of its own. `StaffDashboard.BucketIsFirstMatch` states that it is the count of the first row of that month, or 0. |
| `StaffDashboard.ChartData` | src/pages/StaffDashboard.jsx:29-38 | Always twelve buckets. |
| `StaffDashboard.ProcessedData` | src/pages/StaffDashboard.jsx:28-73 | Each of the four cards shows its series' total and a twelve-point chart. |
| `StaffDashboard.BucketIsFirstMatch` | src/pages/StaffDashboard.jsx:33-37 | Month `idx+1` shows the count of the first row of that month, and 0 when there is none. |
| `StaffDashboard.OutOfYearRowsIgnored` | src/pages/StaffDashboard.jsx:33-37 | Rows whose month is not in 1..12 (or is not a number) never change a bucket. |
| `StaffDashboard.BucketIgnoresOutOfYear` | src/pages/StaffDashboard.jsx:33-37 | One bucket is unchanged when the out-of-year rows are dropped. |
| `StaffDashboard.FirstIgnoresOutOfYear` | src/pages/StaffDashboard.jsx:33-37 | The first row of a month is the same row when out-of-year rows are dropped. |
| `StaffDashboard.FirstIgnoresDropped` | src/pages/StaffDashboard.jsx:33-37 | Dropping items that never match does not change which item `find` returns. |
| `StaffDashboard.DashboardView.constructor` | src/pages/StaffDashboard.jsx:13-16 | Initially no data, no error, loading. |
| `StaffDashboard.DashboardView.FetchData` | src/pages/StaffDashboard.jsx:18-89 | An ok body processes the year that `Object.keys` lists first. An empty body fails on the missing year. A non-ok status and a rejection set their errors and keep the data. Loading always ends. |
| `JsValues.FirstOwnKey` | src/pages/StaffDashboard.jsx:25 | `Object.keys(data)[0]`: nothing for an empty object; the least array-index key when there is one; otherwise the first key created. |
| `JsValues.ArrayIndex` | src/pages/StaffDashboard.jsx:25 | A key names an array index iff it is the decimal form of an integer below 2^32 - 1, and then it names exactly that integer. |
| `StaffDashboard.OldestYearShown` | src/pages/StaffDashboard.jsx:25 | With two year keys, the older year is shown whichever order the server writes them in. |
| `SuperAdminDashboard.OffsetSeries` | src/pages/SuperAdmin/SuperAdminDashboard.jsx:52-65 | Twelve points, each the total plus that month's offset. |
| `SuperAdminDashboard.UserChartData` | src/pages/SuperAdmin/SuperAdminDashboard.jsx:52-65 | Twelve points, none below the user count: January is the count plus 496 and December the count plus 100. |
| `SuperAdminDashboard.LicenseChartData` | src/pages/SuperAdmin/SuperAdminDashboard.jsx:72-85 | Twelve points, none below the license count: January is the count itself and December the count plus 100. |
| `SuperAdminDashboard.TransformChartData` | src/pages/SuperAdmin/SuperAdminDashboard.jsx:120-139 | One point per value, in order. The first twelve are labelled Jan..Dec; later ones are `undefined`. |
| `SuperAdminDashboard.PointValues` | src/pages/SuperAdmin/SuperAdminDashboard.jsx:120-139 | One value per point. |
| `SuperAdminDashboard.TransformRoundTrip` | src/pages/SuperAdmin/SuperAdminDashboard.jsx:120-139 | Reading the values back gives the series. A twelve-point series runs from "Jan" to "Dec". |
| `SuperAdminDashboard.DashboardView.constructor` | src/pages/SuperAdmin/SuperAdminDashboard.jsx:28-31 | Empty cards, loading, no error. |
| `SuperAdminDashboard.DashboardView.FetchData` | src/pages/SuperAdmin/SuperAdminDashboard.jsx:35-98 | Both responses ok fill both cards. A non-ok response sets the API error and leaves both cards as they were. A rejection leaves cards and error alone. Loading always ends. |
| `LicenseForms.OrganisationError` | src/components/popup/CreateLicense/CreateSingleLicense.jsx:38-41 | The message is empty iff the organisation validator accepts the value. |
| `LicenseForms.DateError` | src/components/popup/CreateLicense/CreateSingleLicense.jsx:42-56 | The dates are read from the form state. With no start date (or, for the end date, no start or end date) there is no error. Otherwise the message is empty iff the validator accepts the date or gives no message. |
| `LicenseForms.InitialDates` | src/components/popup/CreateLicense/CreateSingleLicense.jsx:22-29 | The four date fields, with the times "00:00" and "23:59". |
| `LicenseForms.ErrorsAfterSet` | src/components/popup/CreateLicense/CreateSingleLicense.jsx:115-122 | Setting a message blocks the submit. Clearing one cannot create an error. Any error after a set is the new message or an older one. |
| `CreateSingleLicense.GenerateNextLicenseId` | src/components/popup/CreateLicense/CreateSingleLicense.jsx:90-96 | A falsy id gives "LIC-00001". A string id gives a "LIC-" id of at least nine characters. Any other value throws. |
| `CreateSingleLicense.NextIdIncrements` | src/components/popup/CreateLicense/CreateSingleLicense.jsx:90-96 | For `<prefix>-<digits>` below 99999, the next id is nine characters: "LIC-" and five digits that read as the number plus one. |
| `CreateSingleLicense.DecimalLength` | src/components/popup/CreateLicense/CreateSingleLicense.jsx:94 | A number below 10^k has at most k decimal digits, so padding to five is enough below 100000. |
| `CreateSingleLicense.PaddedDecimal` | src/components/popup/CreateLicense/CreateSingleLicense.jsx:94 | Padding a number below 100000 gives five digits that read back as the number. |
| `CreateSingleLicense.ValidateField` | src/components/popup/CreateLicense/CreateSingleLicense.jsx:32-60 | The license id and organisation are valid iff their validators accept them. The dates follow `DateError`. Unknown fields give "". |
| `CreateSingleLicense.DateFieldIgnoresTypedValue` | src/components/popup/CreateLicense/CreateSingleLicense.jsx:42-56 | A date field's message does not depend on the typed value. |
| `CreateSingleLicense.InitialForm` | src/components/popup/CreateLicense/CreateSingleLicense.jsx:22-29 | Empty id, organisation "IAF", the two dates and times. |
| `CreateSingleLicense.SingleLicenseForm.constructor` | src/components/popup/CreateLicense/CreateSingleLicense.jsx:13-30 | The initial form, no errors, not loading. |
| `CreateSingleLicense.SingleLicenseForm.HandleChange` | src/components/popup/CreateLicense/CreateSingleLicense.jsx:62-71 | Only the named field and its error change. The error is computed against the previous form state. |
| `CreateSingleLicense.SingleLicenseForm.RevalidateDates` | src/components/popup/CreateLicense/CreateSingleLicense.jsx:74-87 | A date with its time set gets its error recomputed from the current form. No other error and no field changes. |
| `CreateSingleLicense.SingleLicenseForm.FetchAndSetNextLicenseId` | src/components/popup/CreateLicense/CreateSingleLicense.jsx:102-111 | As written, the id field always becomes "LIC-00001". |
| `CreateSingleLicense.SingleLicenseForm.FetchAndSetNextLicenseIdFixed` | src/components/popup/CreateLicense/CreateSingleLicense.jsx:102-111 | The id field becomes the successor of `last_license_id`. On any throw it falls back to "LIC-00001". |
| `CreateSingleLicense.SingleLicenseForm.BeginSubmit` | src/components/popup/CreateLicense/CreateSingleLicense.jsx:113-124 | A request is sent iff no submit is in flight and no error is non-empty. It carries the form data and starts loading. |
| `CreateSingleLicense.SingleLicenseForm.FinishSubmit` | src/components/popup/CreateLicense/CreateSingleLicense.jsx:125-138 | The form closes iff the request resolved with a truthy `license_id`; loading ends. |
| `CreateMultipleLicenses.ValidateField` | src/components/popup/CreateLicense/CreateMultipleLicenses.jsx:29-55 | The count has an error iff it is outside 2..50 (text that is not a number passes). The organisation and dates are as in the single form. Unknown fields give "". |
| `CreateMultipleLicenses.CountRange` | src/components/popup/CreateLicense/CreateMultipleLicenses.jsx:31-32 | A count written in digits is accepted iff its value is within 2..50. |
| `CreateMultipleLicenses.CountEdgeCases` | src/components/popup/CreateLicense/CreateMultipleLicenses.jsx:31-32 | The empty text is rejected (it reads as 0). Text that is not a number is let through. |
| `CreateMultipleLicenses.InitialForm` | src/components/popup/CreateLicense/CreateMultipleLicenses.jsx:12-27 | Two licenses, organisation "IAF", the two dates and times. |
| `CreateMultipleLicenses.MultipleLicensesForm.constructor` | src/components/popup/CreateLicense/CreateMultipleLicenses.jsx:12-27 | The initial form, no errors, not loading. |
| `CreateMultipleLicenses.MultipleLicensesForm.HandleChange` | src/components/popup/CreateLicense/CreateMultipleLicenses.jsx:57-62 | Only the named field and its error change. |
| `CreateMultipleLicenses.MultipleLicensesForm.BeginSubmit` | src/components/popup/CreateLicense/CreateMultipleLicenses.jsx:64-74 | A request is sent iff no submit is in flight and no error is non-empty. |
| `CreateMultipleLicenses.MultipleLicensesForm.FinishSubmit` | src/components/popup/CreateLicense/CreateMultipleLicenses.jsx:75-86 | The form closes iff the request resolved; loading ends. |
| `AdminCommentModal.BlankMeansOnlySpace` | src/components/popup/AdminCommentModal/AdminCommentModal.jsx:8 | A comment is blank iff every character is white space. |
| `AdminCommentModal.UnicodeSpaceIsBlank` | src/components/popup/AdminCommentModal/AdminCommentModal.jsx:8 | Ideographic space, line separator, ogham space mark and thin space are blank, as `trim` treats them. |
| `AdminCommentModal.PrintableIsNotBlank` | src/components/popup/AdminCommentModal/AdminCommentModal.jsx:8 | A printable character after white space makes the comment non-blank. |
| `AdminCommentModal.TrimStartDropsSpace` | src/components/popup/AdminCommentModal/AdminCommentModal.jsx:8 | `trimStart` only drops white space. |
| `AdminCommentModal.TrimEndDropsSpace` | src/components/popup/AdminCommentModal/AdminCommentModal.jsx:8 | A text that `trimEnd` empties is all white space. |
| `AdminCommentModal.AllSpace` | src/components/popup/AdminCommentModal/AdminCommentModal.jsx:8 | A text that `trim` empties is all white space. |
| `AdminCommentModal.NoneLeft` | src/components/popup/AdminCommentModal/AdminCommentModal.jsx:8 | All white space trims to nothing. |
| `AdminCommentModal.CommentModal.constructor` | src/components/popup/AdminCommentModal/AdminCommentModal.jsx:4-5 | An empty comment, not submitting. |
| `AdminCommentModal.CommentModal.SetComment` | src/components/popup/AdminCommentModal/AdminCommentModal.jsx:34 | The comment becomes the typed text. |
| `AdminCommentModal.CommentModal.BeginSubmit` | src/components/popup/AdminCommentModal/AdminCommentModal.jsx:7-13 | As written, a blank comment throws a ReferenceError and changes nothing. Any other comment is sent and sets `isSubmitting`. |
| `AdminCommentModal.CommentModal.BeginSubmitFixed` | src/components/popup/AdminCommentModal/AdminCommentModal.jsx:7-13 | With `toast` in scope, a blank comment only warns and never throws. Any other comment is sent. |
| `AdminCommentModal.CommentModal.FinishSubmit` | src/components/popup/AdminCommentModal/AdminCommentModal.jsx:14-20 | The modal closes and the comment clears iff `onSubmit` resolved. On a rejection the comment is kept. `isSubmitting` ends false. |

## Left out

- Rendering, styling, icons, routing, modals opened by buttons, and the `Alert`/toast pop-ups: none of it affects the modelled state. Toast and console calls are comments.
- The network: every REST call and `response.json()` is an input (`Response` or `Result`). A `json()` that rejects is the same as a rejected request.
- React scheduling: each state update is applied where the handler makes it. Re-renders are not modelled, and neither are races between overlapping async handlers.
- The clock: `new Date()` in the license forms is replaced by the two ISO strings `today` and `nextYear`. `Table2`'s `DateFormatter` is modelled for its hour part only (`To12Hour`). Time zones and locale formatting are left out.
- The validation module (`validateLicenseId`, `validateLicenseOrganization`, `validateValidFromDate`, `validateValidTillDate`) is not part of this model. Its functions are the parameters `LicenseForms.Validators`.
- `localeCompare` is a parameter of `Table2`. Its sorting lemmas assume it is a total preorder, which a real collator is.
- `Sorting.SortBy` is one stable sort. An engine's sort with an inconsistent comparator (as RogueDB's is when a field is missing) may order differently. The lemmas therefore state order only for rows where the comparator is consistent.
- `JsValues.Value` numbers are integers. Fractions, exponents, `Infinity` and negative zero are not modelled, and number parsing accepts only optional white space, an optional sign and decimal digits. A count such as "1.5" or "1e3" in the bulk form, which JavaScript reads as 1.5 or 1000 and rejects as out of range, reads as not-a-number here and is let through.
- `JsValues.Lower` folds ASCII letters only. `StringLess` compares code points, not UTF-16 code units.
- `Table2.StatusColor` throws for a truthy non-string status, as `toLowerCase` does. `RogueDB` likewise throws on null fields in search, and `Licenses.ProcessLicense` throws on missing `plugins`. These throws are `Thrown` results; what React does with an error in render is not modelled.
- RogueDB: `RogueView.GotoPage` and `RogueView.NextPage` require the current tab to have rendered (`Pages().Done?`), because their buttons exist only then.
- RogueDB: the three lists are what the fetch stored. The fetch itself, the create/edit/delete dialogs and the two export buttons are not modelled.
- Table2: `NextPage` uses the rows the table shows now. On an empty table that is page 0, as `Math.min(prev + 1, 0)` gives.
- Table2: the search matches hidden columns too, and typing in the search box does not reset the page. This follows the code, where a plain reading of the page's behaviour might expect otherwise.
- Disputes: a dispute is a `Record`. The refetch after a status change is an input (`refresh`).
- StaffDashboard: payloads are typed: a year's four series, with a `ChartItem` month as a string. A non-string month, which would throw in `split`, is not modelled. `DashboardView.FetchData` takes the HTTP status as a parameter. The body is the list of its entries in the order of the text; `Object.keys` then lists array-index keys such as "2024" first, ascending, so with several years the oldest is shown (`JsValues.FirstOwnKey`). A body that repeats a key, which `JSON.parse` folds into one property, is not modelled. An empty body's error is the engine's TypeError, whose text is not modelled (`FetchError.NoYear`).
- SuperAdminDashboard: both payloads are arrays. A `json()` failure is modelled as a rejection.
- CreateSingleLicense / CreateMultipleLicenses: `FinishSubmit` returns whether the form closes and the list reloads (`setShowForm(false)`, `getLicenses()`) as the `created` flag.
- AdminCommentModal: `FinishSubmit` returns whether `onClose` is called as `closed`. The caller's `onSubmit` is an input (`resolved`).
- `CreateSingleLicense.ValidateField` and `CreateMultipleLicenses.ValidateField`: the date branches read the form state the handler was rendered with, as the code does. The date effect (`RevalidateDates`) then recomputes both date errors.

## Findings

| source | as written | input that shows it | evidently intended | confidence | as-written member | corrected member |
|---|---|---|---|---|---|---|
| src/components/popup/CreateLicense/CreateSingleLicense.jsx:104 | `getLastLicenseId` is called but never imported, so the call throws a ReferenceError and the catch always sets "LIC-00001" | any opening of the form after "LIC-00041" was issued proposes "LIC-00001" | fetch the last id and propose its successor, "LIC-00042" | high, not executed | `CreateSingleLicense.SingleLicenseForm.FetchAndSetNextLicenseId` | `CreateSingleLicense.SingleLicenseForm.FetchAndSetNextLicenseIdFixed` |
| src/components/popup/AdminCommentModal/AdminCommentModal.jsx:9 | `toast` is used but not imported (line 1), so submitting a blank comment throws a ReferenceError | submitting the comment "   " | show the warning and return | high, not executed | `AdminCommentModal.CommentModal.BeginSubmit` | `AdminCommentModal.CommentModal.BeginSubmitFixed` |
