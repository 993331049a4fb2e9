# ClientVault core, modelled in Dafny

ClientVault is a browser-only manager of clients and their orders. Everything
lives in the browser's local storage as four encrypted JSON documents: the one
user account, the clients, the orders and the custom-field definitions. This
project models the logic on top of that store:

- the repository service (`LocalStorage`): a class over the key/value store
  with an abstract codec standing for AES over JSON. It provides get/save for
  the user; get/save/add/update/delete for each of the three collections;
  `getClientOrders`; and clear, export and import.
- the dashboard statistics (`Dashboard`): the loop that groups orders by
  client into an insertion-ordered map, the totals and status counts, the
  stable sort by revenue and the cut to five.
- the order form (`OrderForm`): adding, editing and removing items, the
  derived total, the three checks made before saving, and the saved record.
- the custom-field form (`CustomFieldForm`): adding and removing select
  options, the "a select needs an option" check, and the saved record.
- the authentication state (`Auth`): the signed-in user and the loading
  flag, with check, login, register and logout. SHA-256 is an abstract
  function.
- the search boxes of the orders and clients pages (`OrdersPage`,
  `ClientsPage`), including the "Unknown Client" fallback name.

The shared helpers are:

- `Types`: the records.
- `Text`: `trim`, ASCII `toLowerCase` and `includes`.
- `Seqs`: subsequences, `splice` of one element and `filter`.
- `Records`: `findIndex`, `find` and filtering by id.

Modelling choices:

- Money is an integer number of cents.
- Ids and timestamps are opaque strings passed in by the caller.
- A JavaScript `Map` is a sequence of entries with distinct keys, kept in
  insertion order.

An item's quantity and price are plain numbers in the type definitions
(src/types/index.ts:60-61). The only bounds are the `min="1"` and `min="0"`
attributes of the quantity and price inputs (src/components/OrderForm.tsx:313
and 325). Neither `updateItem` nor `handleSubmit` checks them, and the input
coercion (`parseInt(...) || 1`, `parseFloat(...) || 0`) lets negative numbers
through. So the model takes any integer, as the code's coercion does.

## Model

| member | source | states |
|---|---|---|
| LocalStorage.Load | src/services/localStorageService.ts:31-41 | reading a bucket: a missing or empty entry and an undecodable one give no value |
| LocalStorage.Collection | src/services/localStorageService.ts:53-63 | a collection getter's result: the decoded array, or the empty array when the bucket is missing, empty or undecodable (UnreadableBucketIsEmpty) |
| LocalStorage.LocalStorageService.GetUser | src/services/localStorageService.ts:31-41 | `getUser`: the user bucket read with Load; SaveUser and RemoveUser state what it gives after each write |
| LocalStorage.LocalStorageService.GetClients | src/services/localStorageService.ts:53-63 | `getClients`: the clients bucket read with Collection; every client write states what it gives afterwards |
| LocalStorage.LocalStorageService.GetOrders | src/services/localStorageService.ts:100-110 | `getOrders`: the orders bucket read with Collection; every order write states what it gives afterwards |
| LocalStorage.LocalStorageService.GetCustomFields | src/services/localStorageService.ts:152-162 | `getCustomFields`: the custom-fields bucket read with Collection; every field write states what it gives afterwards |
| LocalStorage.LocalStorageService.Save | src/services/localStorageService.ts:26-29 | the shared `setItem(key, encrypt(value))`: exactly that bucket is replaced by the encoded value |
| LocalStorage.LocalStorageService.Append | src/services/localStorageService.ts:65-69 | the shared body of the add methods: the bucket becomes the encoding of the collection as read plus the new record at the end |
| LocalStorage.LocalStorageService.Replace | src/services/localStorageService.ts:71-81 | the shared body of the update methods: found exactly when `findIndex` is not -1; then the record at that index is replaced and written back, otherwise nothing is written |
| LocalStorage.LocalStorageService.Remove | src/services/localStorageService.ts:83-92 | the shared body of the delete methods: found exactly when the filter shortened the list; then the filtered list is written back, otherwise nothing is written |
| LocalStorage.SaveThenLoad | src/services/localStorageService.ts:16-23 | with a codec whose decoding undoes encoding, a written value reads back unchanged |
| LocalStorage.UnreadableBucketIsEmpty | src/services/localStorageService.ts:53-63 | a missing, empty or undecodable collection bucket reads as the empty list, with no failure reaching the caller |
| LocalStorage.LocalStorageService.SaveUser | src/services/localStorageService.ts:26-29 | writes only the user bucket; the user then reads back as saved and the three collections are unchanged |
| LocalStorage.LocalStorageService.RemoveUser | src/services/localStorageService.ts:43-45 | deletes the user bucket; no user is read afterwards and the collections are unchanged |
| LocalStorage.LocalStorageService.SaveClients | src/services/localStorageService.ts:48-51 | the clients then read back as saved; the other buckets are unchanged |
| LocalStorage.LocalStorageService.AddClient | src/services/localStorageService.ts:65-69 | the clients become the old clients plus the new one at the end, with no uniqueness check; the other buckets are unchanged |
| LocalStorage.LocalStorageService.UpdateClient | src/services/localStorageService.ts:71-81 | returns true exactly when some client has the id; then only the first such position is replaced; otherwise there is no write |
| LocalStorage.LocalStorageService.DeleteClient | src/services/localStorageService.ts:83-92 | returns true exactly when some client had the id; the survivors are the others in their order; when false there is no write |
| LocalStorage.LocalStorageService.SaveOrders | src/services/localStorageService.ts:95-98 | the orders then read back as saved; the other buckets are unchanged |
| LocalStorage.LocalStorageService.GetClientOrders | src/services/localStorageService.ts:112-115 | the stored orders of one client, exactly those, in stored order and each as many times as it is stored |
| LocalStorage.LocalStorageService.AddOrder | src/services/localStorageService.ts:117-121 | the orders become the old orders plus the new one at the end; the other buckets are unchanged |
| LocalStorage.LocalStorageService.UpdateOrder | src/services/localStorageService.ts:123-133 | true exactly when the id is present; then only the first match is replaced; otherwise no write |
| LocalStorage.LocalStorageService.DeleteOrder | src/services/localStorageService.ts:135-144 | true exactly when the id was present; the others survive in order; when false no write |
| LocalStorage.LocalStorageService.SaveCustomFields | src/services/localStorageService.ts:147-150 | the fields then read back as saved; the other buckets are unchanged |
| LocalStorage.LocalStorageService.AddCustomField | src/services/localStorageService.ts:164-168 | the fields become the old fields plus the new one at the end; the other buckets are unchanged |
| LocalStorage.LocalStorageService.UpdateCustomField | src/services/localStorageService.ts:170-180 | true exactly when the id is present; then only the first match is replaced; otherwise no write |
| LocalStorage.LocalStorageService.DeleteCustomField | src/services/localStorageService.ts:182-191 | true exactly when the id was present; the others survive in order; when false no write |
| LocalStorage.LocalStorageService.ClearDatabase | src/services/localStorageService.ts:194-198 | removes exactly the three collection buckets, which then read as empty; the user is untouched |
| LocalStorage.LocalStorageService.ExportData | src/services/localStorageService.ts:200-206 | the export holds the three collections as they read |
| LocalStorage.LocalStorageService.ImportData | src/services/localStorageService.ts:208-212 | after an import the export is exactly the imported data; the user is untouched |
| LocalStorage.LocalStorageService.ReimportExport | src/services/localStorageService.ts:200-212 | importing what was just exported leaves all three collections unchanged in content and order |
| Records.FindIndex | src/services/localStorageService.ts:73 | the first position holding the id, or -1 exactly when no record holds it |
| Records.Find | src/pages/Dashboard.tsx:26 | no record exactly when none has the id; otherwise the record at the first such position |
| Records.RemoveId | src/services/localStorageService.ts:85 | the records without the id, in order; same length exactly when none had it, and then unchanged |
| Records.RemoveIdGone | src/services/localStorageService.ts:85 | after the filter no record holds the id |
| Records.WithKey | src/services/localStorageService.ts:114 | the records whose key is the id, as an order-preserving subsequence with their multiplicities |
| Records.WithKeyMembers | src/services/localStorageService.ts:114 | every record kept has the key, and every record with the key is kept |
| Dashboard.GroupOrdersByClient | src/pages/Dashboard.tsx:23-37 | the grouping loop builds exactly the map the per-order step defines |
| Dashboard.Tally | src/pages/Dashboard.tsx:25-36 | one turn of the `forEach`: nothing for an order of an unknown client, else add one order and its total to the client's entry, created at the end on its first order (GroupCorrect, UnmatchedOrderIgnored) |
| Dashboard.Group | src/pages/Dashboard.tsx:23-37 | the map after the `forEach` over all orders, a fold of Tally; GroupCorrect, GroupSize and GroupRevenue state what it holds |
| Dashboard.Insert | src/pages/Dashboard.tsx:39-40 | one insertion step of the stable sort, placing an entry before the first one of no larger revenue (InsertMultiset, InsertOrdered) |
| Dashboard.SortByRevenue | src/pages/Dashboard.tsx:39-40 | `.sort((a, b) => b.revenue - a.revenue)` as a stable insertion sort; SortPermutation and SortOrdered state that it permutes and orders |
| Dashboard.TakeFive | src/pages/Dashboard.tsx:41 | `.slice(0, 5)`: the first min(5, length) elements, unchanged and in order |
| Dashboard.TopTallies | src/pages/Dashboard.tsx:38-41 | the first five of the sorted map; TopClientsCorrect states what they are |
| Dashboard.SumTotals | src/pages/Dashboard.tsx:46 | the `reduce` summing order totals; SumTotalsConcat, GroupRevenue and RevenueSplit relate it to the map |
| Dashboard.CountPending | src/pages/Dashboard.tsx:47 | the number of orders pending or processing; StatusCountsBounded relates it to the completed count |
| Dashboard.CountCompleted | src/pages/Dashboard.tsx:48 | the number of completed orders; StatusCountsBounded relates it to the pending count |
| Dashboard.Stats | src/pages/Dashboard.tsx:43-50 | the object passed to `setStats`; StatsCorrect and TwoClientsExample state its fields |
| Dashboard.ComputeStats | src/pages/Dashboard.tsx:19-51 | the effect's body computes the statistics the pure definition gives |
| Dashboard.GroupCorrect | src/pages/Dashboard.tsx:25-37 | the map holds one entry per key. Each entry belongs to an existing client that has orders, carries the name of the first client with that id, and has the count and total revenue of exactly that client's orders. Every matched order has an entry. Entries are in the order of each client's first order |
| Dashboard.GroupSize | src/pages/Dashboard.tsx:29-31 | the map has exactly one entry per distinct client id that appears on an order and belongs to an existing client |
| Dashboard.DistinctIdsCard | src/pages/Dashboard.tsx:23 | a map with distinct keys has as many keys as entries |
| Dashboard.UnmatchedOrderIgnored | src/pages/Dashboard.tsx:26-27 | an order whose client does not exist leaves the map unchanged |
| Dashboard.SortPermutation | src/pages/Dashboard.tsx:39-40 | sorting rearranges the entries and loses or adds none |
| Dashboard.SortOrdered | src/pages/Dashboard.tsx:39-40 | the sort orders by revenue, highest first, and entries of equal revenue keep their input order |
| Dashboard.GroupIds | src/pages/Dashboard.tsx:25-31 | every key of the map is a matched client id, and every matched client id has an entry |
| Dashboard.SortedGroup | src/pages/Dashboard.tsx:39-40 | the sorted map has one correct entry per matched client and is ordered by revenue, ties in first-order order |
| Dashboard.TopOfSorted | src/pages/Dashboard.tsx:41 | the first five entries of any sorted, correct, complete map are correct and distinct, and each precedes every client left out: more revenue, or as much and an earlier first order |
| Dashboard.TopClientsCorrect | src/pages/Dashboard.tsx:39-41 | there are min(5, number of matched clients) top clients, all correct and distinct. They are ordered by revenue, with ties in first-order order. Each kept entry precedes every matched client left out: it has more revenue, or as much and an earlier first order |
| Dashboard.StatsCorrect | src/pages/Dashboard.tsx:43-50 | total clients and orders are the list lengths and total revenue is the sum over all orders. Pending plus completed is at most the order count. Each displayed top client has its client's name, order count and revenue |
| Dashboard.StatusCountsBounded | src/pages/Dashboard.tsx:47-48 | no order is counted both as pending and as completed |
| Dashboard.RevenueSplit | src/pages/Dashboard.tsx:46 | total revenue is the revenue of the map's entries plus the totals of orders whose client does not exist |
| Dashboard.GroupRevenue | src/pages/Dashboard.tsx:33-35 | the map's revenue is the total of exactly the orders whose client exists |
| Dashboard.TwoClientsExample | src/pages/Dashboard.tsx:19-51 | clients A and B with orders 100 and 50 for A and 30 for B give revenue 180 and top clients A (2, 150), then B (1, 30) |
| OrderForm.LineTotal | src/components/OrderForm.tsx:39 | price times quantity of one item |
| OrderForm.ItemsTotal | src/components/OrderForm.tsx:38-41 | the `reduce` over the items; ItemsTotalConcat, AddItemKeepsTotal, UpdateItemTotal and RemoveItemTotal state how each edit moves it |
| OrderForm.ItemsTotalConcat | src/components/OrderForm.tsx:38-41 | the total of two item lists joined is the sum of their totals |
| OrderForm.TotalExample | src/components/OrderForm.tsx:38-41 | two items at 10 and one at 5 total 25 |
| OrderForm.NewItem | src/components/OrderForm.tsx:67-73 | the blank item: empty name, quantity 1, price 0, empty description, id from the clock (AddItem, AddItemKeepsTotal) |
| OrderForm.AddItem | src/components/OrderForm.tsx:66-75 | exactly one item is appended, with an empty name, quantity 1 and price 0; the existing items are unchanged |
| OrderForm.AddItemKeepsTotal | src/components/OrderForm.tsx:66-75 | adding the blank item keeps the total |
| OrderForm.ApplyEdit | src/components/OrderForm.tsx:80 | the edited field takes the new value and every other field keeps its own |
| OrderForm.UpdateItem | src/components/OrderForm.tsx:78-82 | only the item at the index changes, by that edit; the length is unchanged |
| OrderForm.UpdateItemTotal | src/components/OrderForm.tsx:38-41 | an edit moves the total by the change in that item's line; a name or description edit keeps it |
| OrderForm.RemoveItem | src/components/OrderForm.tsx:85-89 | the list without the item at the index, the rest in their order; an index past the end removes nothing |
| OrderForm.RemoveItemTotal | src/components/OrderForm.tsx:38-41 | removing an item takes its line off the total |
| OrderForm.HasBlankName | src/components/OrderForm.tsx:114-115 | true exactly when some item's name is white space only, which by Text.Trim's contract is exactly when it trims to the empty string |
| OrderForm.CheckOrder | src/components/OrderForm.tsx:94-123 | rejects for no client exactly when the client is empty; for no items exactly when a client is chosen and the list is empty; for a blank name exactly when those two pass and some name trims to empty; otherwise accepts |
| OrderForm.ValidateOrder | src/components/OrderForm.tsx:91-123 | the guards and the loop over items, which stops at the first blank name, give the first failing check in that order |
| OrderForm.NewOrderNumber | src/components/OrderForm.tsx:53 | `ORD-` followed by the last six characters of the clock reading, or all of them when there are fewer |
| OrderForm.DraftOf | src/components/OrderForm.tsx:46-49 | the form's starting values when editing: the order's own fields (EditChangesOnlyItemsAndStamp) |
| OrderForm.NewDraft | src/components/OrderForm.tsx:50-60 | the form's starting values for a new order: empty id and client, a fresh order number, status pending, empty notes and stamps (NewOrderStamps) |
| OrderForm.OrderRecord | src/components/OrderForm.tsx:125-161 | the saved order has the edited items, their computed total and `updatedAt` now. An edit keeps the form's id and `createdAt`. A new order gets a fresh id and `createdAt` equal to `updatedAt` |
| OrderForm.EditChangesOnlyItemsAndStamp | src/components/OrderForm.tsx:129-135 | saving an unchanged form over an order returns that order with only items, total and `updatedAt` replaced |
| OrderForm.NewOrderStamps | src/components/OrderForm.tsx:152-161 | a new order's `createdAt` equals its `updatedAt` |
| OrderForm.SubmitOrder | src/components/OrderForm.tsx:91-178 | a failed check is reported with no storage write. An accepted edit goes to `updateOrder` and reports its answer. An accepted new order is appended. The other buckets are unchanged |
| CustomFieldForm.OpenEditor | src/components/CustomFieldForm.tsx:21-22 | the option list starts as the field's options, or empty, with an empty box (UnchangedEditRoundTrip) |
| CustomFieldForm.AddOption | src/components/CustomFieldForm.tsx:47-52 | a non-blank pending text is appended trimmed and the box is cleared; a blank one changes nothing |
| CustomFieldForm.PendingClearedIffAdded | src/components/CustomFieldForm.tsx:48-51 | an option is added exactly when the pending text is not blank, and the box is cleared only then |
| CustomFieldForm.RemoveOption | src/components/CustomFieldForm.tsx:54-58 | the list without the option at the index, the rest in their order; the pending text is untouched |
| CustomFieldForm.EditingKeepsOptionsClean | src/components/CustomFieldForm.tsx:47-58 | if every option is non-empty and trimmed, it stays so after an add or a remove |
| CustomFieldForm.DraftOf | src/components/CustomFieldForm.tsx:25-43 | the form's starting values: the edited field's, or a blank text field on clients (UnchangedEditRoundTrip) |
| CustomFieldForm.FieldRecord | src/components/CustomFieldForm.tsx:74-106 | options are kept exactly for a select field. An edit keeps the original `createdAt`; a new field gets a fresh id and `createdAt` now |
| CustomFieldForm.SavedSelectHasOptions | src/components/CustomFieldForm.tsx:63-70 | an accepted select field is saved with at least one option |
| CustomFieldForm.UnchangedEditRoundTrip | src/components/CustomFieldForm.tsx:20-31 | opening a well-formed field and saving it unchanged gives back the same field |
| CustomFieldForm.SubmitField | src/components/CustomFieldForm.tsx:60-121 | a select field with no options is rejected with no write. An accepted edit goes to the update and reports its answer. A new field is appended. The other buckets are unchanged |
| Auth.AuthProvider.constructor | src/contexts/AuthContext.tsx:27-28 | no user is signed in and loading is on |
| Auth.AuthProvider.IsAuthenticated | src/contexts/AuthContext.tsx:172 | `!!user`: signed in exactly when a user is set; Login and Register promise it on success, Logout its absence |
| Auth.AuthProvider.Matches | src/contexts/AuthContext.tsx:87-89 | true exactly when an account is stored whose username and password hash match |
| Auth.AuthProvider.CheckUserAuth | src/contexts/AuthContext.tsx:31-45 | a stored account becomes the signed-in user, otherwise the user is unchanged; loading is off afterwards in every case |
| Auth.AuthProvider.Login | src/contexts/AuthContext.tsx:72-111 | succeeds exactly when the stored account matches; on success the stored account is signed in; on failure nothing changes |
| Auth.AuthProvider.Register | src/contexts/AuthContext.tsx:113-155 | refused, with nothing written, exactly when an account is already stored. Otherwise it stores and signs in a new account with the username and the password's hash. The collections are unchanged |
| Auth.AuthProvider.Logout | src/contexts/AuthContext.tsx:157-164 | no user is signed in; storage is not touched |
| Auth.AuthProvider.RegisterThenLogin | src/contexts/AuthContext.tsx:113-155 | registering and then logging in with the same credentials both succeed |
| Auth.AuthProvider.LogoutThenCheck | src/contexts/AuthContext.tsx:47-65 | after logout the next check of storage signs the stored account in again |
| OrdersPage.GetClientName | src/pages/Orders.tsx:32-35 | the name of the first client with the id, or "Unknown Client" when none has it |
| OrdersPage.OrderMatches | src/pages/Orders.tsx:38-41 | the search test: the lowered term occurs in the lowered order number or the lowered client name (FilterOrdersCorrect) |
| OrdersPage.FilterOrders | src/pages/Orders.tsx:38-41 | `filteredOrders`, the orders passing OrderMatches; FilterOrdersCorrect states which are shown and in what order |
| OrdersPage.FilterOrdersCorrect | src/pages/Orders.tsx:38-41 | the shown orders are an order-preserving subsequence; an order is shown exactly when the lowered term occurs in its lowered number or client name |
| OrdersPage.EmptySearchShowsAllOrders | src/pages/Orders.tsx:38-41 | an empty search shows every order |
| OrdersPage.DanglingOrderFoundAsUnknown | src/pages/Orders.tsx:32-41 | an order of an unknown client is found by searching "unknown" |
| ClientsPage.ClientMatches | src/pages/Clients.tsx:26-30 | the search test: the lowered term occurs in the lowered name, email or phone (FilterClientsCorrect) |
| ClientsPage.FilterClients | src/pages/Clients.tsx:26-30 | `filteredClients`, the clients passing ClientMatches; FilterClientsCorrect states which are shown and in what order |
| ClientsPage.FilterClientsCorrect | src/pages/Clients.tsx:26-30 | the shown clients are an order-preserving subsequence; a client is shown exactly when the lowered term occurs in its lowered name, email or phone |
| ClientsPage.EmptySearchShowsAllClients | src/pages/Clients.tsx:26-30 | an empty search shows every client |
| ClientsPage.FilterClientsIdempotent | src/pages/Clients.tsx:26-30 | searching the results again with the same term changes nothing |
| ClientsPage.FilterClientsConcat | src/pages/Clients.tsx:26-30 | searching a list of two parts searches each part |
| Text.Trim | src/components/CustomFieldForm.tsx:48 | the result has no surrounding white space, is the input minus white space at both ends, and is empty exactly when the input is all white space |
| Text.TrimIdempotent | src/components/OrderForm.tsx:115 | trimming twice is trimming once |
| Text.Includes | src/pages/Clients.tsx:27 | true exactly when the term occurs at some position |
| Text.IncludesEmpty | src/pages/Clients.tsx:27 | the empty term occurs in every string |
| Text.Lower | src/pages/Clients.tsx:27 | same length, each letter lowered |
| Text.LowerIdempotent | src/pages/Orders.tsx:39 | lowering twice is lowering once |
| Seqs.RemoveAt | src/components/OrderForm.tsx:87 | `splice(index, 1)` removes the element at the index, and nothing once past the end |
| Seqs.Filter | src/pages/Clients.tsx:26 | the elements passing the test, as an order-preserving subsequence with their multiplicities |
| Seqs.FilterIdempotent | src/pages/Clients.tsx:26-30 | filtering twice with the same test is filtering once |

## Left out

- The cipher and JSON: AES and `JSON.stringify`/`parse` form one abstract
  codec. The model assumes decoding inverts encoding and that a ciphertext is
  never empty. AES's random salt is not modelled, so encoding is a function.
- `JSON.parse` of a foreign document that decodes to something of the wrong
  shape is not modelled: `decode` either yields a well-typed value or fails.
- SHA-256 is an abstract function of the password.
- Floating-point money: prices, totals and revenues are exact integers
  (cents). Rounding of JavaScript numbers is not modelled, nor is display
  formatting.
- OrderForm.ApplyEdit: the `parseInt(...) || 1` / `parseFloat(...) || 0`
  input coercion is not modelled; an edit carries an integer directly.
  Editing an item's `id` (possible through `keyof OrderItem`, never done by
  the form) is not modelled.
- OrderForm.UpdateItem: requires an index inside the list, which is all the
  form ever passes. The source's behaviour on an out-of-range index (a hole
  in the array) is not modelled.
- OrderForm.OrderRecord: the `data.customFields || {}` fallback is not
  modelled; the draft always carries a mapping.
- `updateItem`, `removeItem` and `removeOption` copy the list and then
  change the copy in place. The copy is local, so they are modelled as
  functions on sequences.
- Timestamps and ids come from the clock. They are parameters here, and
  their uniqueness is not modelled.
- Text.Lower: `toLowerCase` is modelled for ASCII letters only.
- The orders form's loading of clients and order custom fields, and the
  custom-field values themselves, belong to the user interface and are not
  modelled.
- The visibility and resume listeners that re-run the authentication check
  are event wiring and are not modelled. `LogoutThenCheck` states what one
  such re-run does after a logout.
- File export and import (download, upload, the shape check before
  importing) are I/O. The typed `Snapshot` stands in for the shape check.
- Several tabs writing the same bucket (last write wins), the React
  rendering, toasts, charts and query refetching are not modelled.
- `try`/`catch` around the form and login handlers: nothing in the model
  throws, so those paths do not arise.
