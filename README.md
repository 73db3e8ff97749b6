# Ledger core of the farm cash-flow app, in Dafny

This project models the bookkeeping logic of a small React app that records
the expenses of a family farm ("facturas") and the contributions of the
family members ("aportes"), and proves properties of that model. The logic
is spread over several components. Here it is gathered into one ledger
core:

- **Aggregation** (`totals.dfy`, `sorting.dfy`, `dashboard.dfy`,
  `aporte_list.dfy`). The `reduce` totals, the balance and its
  surplus/deficit label, and the per-hermano grouping. Also the "latest
  three" lists, which sort the arrays in place with a stable
  most-recent-first sort and then take `slice(0, 3)`.
- **Record store** (`records.dfy`, `index_page.dfy`). The page keeps the
  session's aportes in memory. It appends a record with an id made from
  `Date.now()`, deletes by filtering on the id, flips the factura refresh
  flag and picks the screen for the active tab.
- **Forms** (`aporte_form.dfy`, `factura_form.dfy`). The required-field
  checks, the record built from the fields, the `YYYY-MM-DD` date stamp,
  the optional description and the field reset.
- **List views** (`aporte_list.dfy`, `factura_list.dfy`). The empty-state
  messages, row order, the shown description and the id each delete button
  passes.
- **Upload keys** (`file_upload.dfy`, with `text.dfy`). The lower-cased
  extension, the `timestamp-random.ext` name, the optional folder prefix,
  and the result or `null` of `uploadFile`.

Amounts (`valor`) are real numbers. Dates (`fecha`) are strings. Everything
the code gets from outside is a parameter. The clock is `now` (milliseconds)
or `nowIso` (the `toISOString()` text). The random suffix is `random`.
`parseFloat` is the function parameter `parseFloat`. Date parsing for the
sort is the parameter `time`. The storage service is the two parameters
`uploadFails` and `publicUrl`. A callback call (`onAddAporte`,
`onAddFactura`) is modelled as the `Option` that `Submit` returns: `Some(r)`
is exactly one call with `r`, and `None` is no call.

One might expect the following of a ledger like this one; the code does
otherwise, and the model follows the code:

- `handleSubmit` does not check the sign or the form of the amount (the
  browser's own checks on the input are described under "## Left out").
- A hermano is not checked against the fixed list at submit. Only the
  selector restricts it, and the class invariant `AporteFormState.Valid`
  records that.
- Deleting an id that is not present is a silent no-op, not a
  "not found" error.
- The upload code has no size or type check.
- Among records of the same day the "latest" lists show the ones added
  first, not the ones added last. Dates carry only the day and the sort is
  stable, so same-day records tie and keep their input order
  (`Sorting.SortDescStable`, `Dashboard.SameDayShowsFirstAdded`).
- Ids are not guaranteed unique. Two aportes added in the same millisecond
  get the same id, and `DeleteAporte` then removes both (`DeleteAporte`'s
  contract says so).

## Model

| member | source | states |
|---|---|---|
| Records.WithId | src/pages/Index.tsx:23-26 | the stored aporte carries every submitted field unchanged plus the given id |
| Records.WithoutId | src/pages/Index.tsx:31 | `filter(a => a.id !== id)`: the result is never longer than the list, and no record left in it carries the id |
| Records.WithoutIdConcat | src/pages/Index.tsx:31 | filtering by id distributes over concatenation, so the kept records keep their relative order |
| Records.WithoutIdMembers | src/pages/Index.tsx:31 | a record survives the delete exactly when it was present and its id differs; the list never grows |
| Records.WithoutAbsentId | src/pages/Index.tsx:31 | deleting an id no record has leaves the list unchanged |
| Records.WithoutPresentId | src/pages/Index.tsx:31 | deleting the id of a listed record makes the list strictly shorter |
| Totals.Sum | src/components/Dashboard.tsx:25-26 | the `reduce` fold from 0: when no amount is negative the sum is non-negative and at least every single amount |
| Totals.TotalFacturas | src/components/FacturaList.tsx:19 | `totalFacturas` and the factura list's `total`: with no negative valor it is non-negative and at least each factura's valor |
| Totals.TotalAportes | src/components/AporteList.tsx:19 | `totalAportes` and the aporte list's `total`: with no negative valor it is non-negative and at least each aporte's valor |
| Totals.SumConcat | src/components/Dashboard.tsx:25-26 | the `reduce` sum of a concatenation is the sum of the parts |
| Totals.SumIsSumRight | src/components/Dashboard.tsx:25-26 | the left fold `reduce` computes agrees with the right-fold reference sum |
| Totals.SumPermutation | src/components/Dashboard.tsx:25-44 | any reordering, in particular the in-place sort, leaves a total unchanged |
| Totals.TotalFacturasEmpty | src/components/Dashboard.tsx:25 | the total of no facturas is 0 |
| Totals.TotalFacturasAppend | src/components/FacturaList.tsx:19 | one more factura raises the total by exactly its valor |
| Totals.TotalAportesAppend | src/components/AporteList.tsx:19 | one more aporte raises the total by exactly its valor |
| Totals.TotalFacturasExample | src/components/Dashboard.tsx:25 | facturas of 10 and 5.5 total 15.5 |
| Sorting.Insert | src/components/Dashboard.tsx:43 | one insertion step of the stable newest-first sort; it adds exactly one element |
| Sorting.SortDesc | src/components/Dashboard.tsx:38-40 | `sort` with the newest-first comparator; it keeps the length (order, permutation and stability are the lemmas below) |
| Sorting.InsertPermutation | src/components/Dashboard.tsx:39 | one insertion step adds exactly one copy of the element |
| Sorting.SortDescPermutation | src/components/Dashboard.tsx:38-40 | the sort returns a permutation of its input, of the same length |
| Sorting.InsertSorted | src/components/Dashboard.tsx:39 | inserting into a most-recent-first sequence keeps it most-recent-first |
| Sorting.InsertAt | src/components/Dashboard.tsx:39 | insertion lands right after the elements whose key is at least the new one's |
| Sorting.InsertWithKey | src/components/Dashboard.tsx:39 | the inserted element goes to the end of the group with its key |
| Sorting.SortDescSorted | src/components/Dashboard.tsx:38-40 | the result is ordered by date, newest first |
| Sorting.SortDescStable | src/components/Dashboard.tsx:39 | records with equal dates keep their input order (comparator 0, stable sort) |
| Sorting.SortDescOfSorted | src/components/Dashboard.tsx:39 | sorting an already sorted list changes nothing |
| Sorting.InsertInPlace | src/components/Dashboard.tsx:39 | one in-place insertion step leaves the array prefix equal to the functional insertion |
| Sorting.SortInPlace | src/components/Dashboard.tsx:39 | the array sorted in place holds the stable most-recent-first sort of its old contents |
| Dashboard.FacturaTime | src/components/Dashboard.tsx:39 | the sort key of the factura comparator: each factura's key is the time of its fecha |
| Dashboard.AporteTime | src/components/Dashboard.tsx:43 | the sort key of the aporte comparator: each aporte's key is the time of its fecha |
| Dashboard.KeysFollowComparator | src/components/Dashboard.tsx:38-44 | in the key-sorted aportes and facturas no later record makes the comparator `time(b.fecha) - time(a.fecha)` positive against an earlier one, and records the comparator ties (equal date key) keep their input order |
| Dashboard.Balance | src/components/Dashboard.tsx:27 | `totalAportes - totalFacturas`: non-negative exactly when aportes reach facturas, and adding back the facturas gives the aportes |
| Dashboard.Status | src/components/Dashboard.tsx:87-96 | the label is surplus exactly for a non-negative balance and deficit exactly for a negative one |
| Dashboard.Recent | src/components/Dashboard.tsx:38-44 | `sort(...).slice(0, n)`: a prefix of the sorted list, of length `n` or the whole list when shorter |
| Dashboard.View | src/components/Dashboard.tsx:24-44 | what the dashboard shows: each total is the (right-fold reference) sum of the inputs' valor, the balance is aportes minus facturas, the label is surplus exactly when aportes reach facturas, and each latest list holds min(3, count) input records, newest first |
| Dashboard.Render | src/components/Dashboard.tsx:24-44 | the dashboard as written: totals, balance, label and latest-three lists of the old contents, with both input arrays left sorted in place |
| Dashboard.RenderCopy | src/components/Dashboard.tsx:24-44 | the same view computed on copies, with the caller's lists left untouched |
| Dashboard.StatusIff | src/components/Dashboard.tsx:87-96 | the label is surplus exactly when total aportes reach total facturas (zero counts as surplus), otherwise deficit |
| Dashboard.TotalsOfOne | src/components/Dashboard.tsx:25-26 | the total of one record is its valor |
| Dashboard.BalanceExamples | src/components/Dashboard.tsx:27 | 100 in and 40 out is a surplus of 60; 40 in and 100 out is a deficit of 60 |
| Dashboard.RecentSize | src/components/Dashboard.tsx:38-44 | the latest list has at most 3 records, and all of them when there are at most 3; it is empty only for empty input |
| Dashboard.RecentOrdered | src/components/Dashboard.tsx:38-44 | the latest list is a prefix of the sorted input, newest first, and holds only input records |
| Dashboard.RecentAreLatest | src/components/Dashboard.tsx:38-44 | no record left out of the latest list is more recent than one shown |
| Dashboard.RecentStable | src/components/Dashboard.tsx:38-44 | records with the same date appear in the latest list in their input order |
| Dashboard.SameDayShowsFirstAdded | src/components/Dashboard.tsx:42-44 | among four aportes of the same day, the latest list shows the first three added |
| Dashboard.ViewAfterSort | src/components/Dashboard.tsx:25-44 | rendering again from the arrays the sort left behind shows the same totals, balance and lists |
| AporteList.Contributors | src/components/AporteList.tsx:56 | the `Object.entries` order of the group: no longer than the input, names only hermanos of the input, and includes the last one added |
| AporteList.HermanoTotal | src/components/AporteList.tsx:30-36 | one hermano's accumulated amount: with no negative valor it lies between 0 and the overall total |
| AporteList.GroupSpec | src/components/AporteList.tsx:30-36 | the dictionary the `reduce` must build: empty exactly for no aportes, and with no negative valor each entry lies between 0 and the total |
| AporteList.GroupByHermano | src/components/AporteList.tsx:30-36 | the loop builds exactly the specified dictionary (every hermano of the input mapped to the sum of that hermano's valor, the falsy reset included); its keys are the entry order's names and its entries add up to the overall total |
| AporteList.HermanoTotalStep | src/components/AporteList.tsx:34 | one more aporte adds its valor to its own hermano's total and to no other |
| AporteList.SumEntriesOfGroup | src/components/AporteList.tsx:56 | summing the dictionary's entries under listed hermanos is summing those hermanos' totals |
| AporteList.HermanoTotalAbsent | src/components/AporteList.tsx:30-36 | a name with no aporte has total 0 |
| AporteList.ContributorsAreKeys | src/components/AporteList.tsx:30-56 | the first-appearance order of the entries lists every hermano once, and only hermanos |
| AporteList.SumOverStep | src/components/AporteList.tsx:34 | adding one aporte raises the per-name sums by its valor exactly when its name is among them |
| AporteList.GroupsSumToTotal | src/components/AporteList.tsx:19-36 | the per-hermano totals, each counted once, add up to the overall total |
| AporteList.GroupByHermanoMeaning | src/components/AporteList.tsx:30-50 | group keys are exactly the hermanos (exact, case-sensitive), the entries sum to the total, and the group is empty exactly for no aportes |
| AporteList.Row | src/components/AporteList.tsx:83-109 | a history row shows the aporte's hermano, concepto, valor and fecha, and its delete button passes the aporte's id |
| AporteList.HistoryOf | src/components/AporteList.tsx:77-109 | the history card: the empty message exactly for no aportes, otherwise one row per aporte |
| AporteList.HistoryInOrder | src/components/AporteList.tsx:77-109 | the "no records" message shows exactly for no aportes; otherwise one row per aporte, in input order, each deleting by its own id |
| AporteList.DeleteFromRow | src/components/AporteList.tsx:83-109 | a row's delete id, filtered out, removes that row's aporte and keeps every aporte with another id |
| FacturaList.Row | src/components/FacturaList.tsx:46-72 | a row shows the factura's concepto, valor and fecha, a description exactly when it is present and non-empty, and its delete passes the factura's id |
| FacturaList.ViewOf | src/components/FacturaList.tsx:19-72 | the factura card: the empty message exactly for no facturas, otherwise one row per factura |
| FacturaList.EmptyList | src/components/FacturaList.tsx:19-43 | the empty message shows exactly when there is no factura, with total 0 |
| FacturaList.RowsInOrder | src/components/FacturaList.tsx:46-72 | row i shows factura i's concepto, valor, fecha and shown description, and deletes by its own id |
| FacturaList.ShownDescripcion | src/components/FacturaList.tsx:63-67 | `descripcion && <p>`: the description shows exactly when present and non-empty, and then unchanged |
| FacturaList.AppendRaisesTotal | src/components/FacturaList.tsx:19 | listing one more factura raises the header total by its valor |
| Text.BeforeFirst | src/components/AporteForm.tsx:51 | `split('T')[0]` is the prefix before the first 'T', or the whole text when there is none |
| Text.BeforeFirstAt | src/components/AporteForm.tsx:51 | a 'T' with none before it is where the date part ends |
| Text.AfterLast | src/hooks/useFileUpload.ts:21 | `split('.').pop()` is the suffix after the last '.', or the whole name when there is none |
| Text.AfterLastAt | src/hooks/useFileUpload.ts:21 | a '.' with none after it is where the extension starts |
| Text.AfterLastNone | src/hooks/useFileUpload.ts:21 | a name without '.' is its own last segment |
| Text.Lower | src/hooks/useFileUpload.ts:21 | lower-casing keeps the length and maps each ASCII capital to its small letter |
| Text.LowerFacts | src/hooks/useFileUpload.ts:21 | lower-casing is idempotent and neither adds nor removes a '.' |
| Text.NatToString | src/pages/Index.tsx:25 | `Date.now().toString()` is a non-empty string of decimal digits |
| Text.ParseNatToString | src/pages/Index.tsx:25 | reading the decimal rendering back gives the timestamp |
| Text.NatToStringInjective | src/pages/Index.tsx:25 | different timestamps render differently |
| Text.NatToStringHasNo | src/hooks/useFileUpload.ts:22 | a rendered timestamp holds no separator such as '-' |
| Text.DatePartOfTimestamp | src/components/FacturaForm.tsx:42 | for an ISO timestamp, the part before 'T' is its first ten characters, a `YYYY-MM-DD` date |
| AporteForm.HermanosFixed | src/components/AporteForm.tsx:21-27 | the selector offers exactly five distinct, non-empty names |
| AporteForm.AporteFormState.constructor | src/components/AporteForm.tsx:30-32 | all three fields start empty |
| AporteForm.AporteFormState.SelectHermano | src/components/AporteForm.tsx:76-87 | the selector can set only one of the listed names |
| AporteForm.AporteFormState.SetValor | src/components/AporteForm.tsx:96 | the amount field takes any text |
| AporteForm.AporteFormState.SetConcepto | src/components/AporteForm.tsx:109 | the concept field takes any text |
| AporteForm.AporteFormState.Submit | src/components/AporteForm.tsx:35-63 | any empty field: no callback and fields unchanged; else one callback with hermano and concepto unchanged, `parseFloat(valor)` and the date part of the timestamp, then all fields cleared; the hermano sent is a listed name |
| FacturaForm.Normalise | src/components/FacturaForm.tsx:43 | an empty description becomes absent; a non-empty one passes unchanged |
| FacturaForm.NormaliseThenShow | src/components/FacturaForm.tsx:43 | the list shows a description the form sent exactly when the typed text was non-empty |
| FacturaForm.FacturaFormState.constructor | src/components/FacturaForm.tsx:22-24 | all three fields start empty |
| FacturaForm.FacturaFormState.SetConcepto | src/components/FacturaForm.tsx:71 | the concept field takes any text |
| FacturaForm.FacturaFormState.SetValor | src/components/FacturaForm.tsx:83 | the amount field takes any text |
| FacturaForm.FacturaFormState.SetDescripcion | src/components/FacturaForm.tsx:96 | the description field takes any text |
| FacturaForm.FacturaFormState.Submit | src/components/FacturaForm.tsx:27-55 | concepto or valor empty: no callback and fields unchanged; else one callback with concepto, `parseFloat(valor)`, the date part and the normalised description, then all fields cleared |
| IndexPage.Content | src/pages/Index.tsx:43-64 | `renderContent`: the factura screen exactly on "facturas", the aporte screen with the state list exactly on "aportes", and otherwise the dashboard with no facturas and the aportes' total |
| IndexPage.DashboardTabBalance | src/pages/Index.tsx:43-63 | home and every unknown tab show the dashboard with no facturas, so the balance is total aportes |
| IndexPage.AddThenDelete | src/pages/Index.tsx:22-32 | adding under a fresh id and deleting that id gives back the list |
| IndexPage.IdsFromDistinctTimes | src/pages/Index.tsx:25 | aportes added at different milliseconds get different ids |
| IndexPage.DashboardReordersHistory | src/pages/Index.tsx:46 | two aportes on different days, added oldest first, are listed newest first in the history once the dashboard has sorted the state list |
| IndexPage.Index.constructor | src/pages/Index.tsx:18-20 | the page starts on home with no aportes and the flag false |
| IndexPage.Index.AddAporte | src/pages/Index.tsx:22-28 | one record with the submitted fields and the timestamp id is appended; earlier records are unchanged |
| IndexPage.Index.DeleteAporte | src/pages/Index.tsx:30-32 | every record with the id is removed, the rest keep their order, and an absent id changes nothing |
| IndexPage.Index.HandleFacturaAdded | src/pages/Index.tsx:34-36 | the refresh flag flips to its opposite |
| IndexPage.Index.SetActiveTab | src/pages/Index.tsx:67 | the tab becomes the one chosen |
| IndexPage.Index.RenderContentAsWritten | src/pages/Index.tsx:43-64 | the screen for the active tab, with the state list left sorted on the dashboard tabs |
| IndexPage.Index.RenderContent | src/pages/Index.tsx:43-64 | the screen for the active tab, with the state list untouched |
| FileUpload.Extension | src/hooks/useFileUpload.ts:21 | `split('.').pop()?.toLowerCase()`: holds no '.' and is no longer than the name |
| FileUpload.StorageName | src/hooks/useFileUpload.ts:22 | `` `${Date.now()}-${random}.${ext}` ``: starts with the decimal timestamp, followed by '-' |
| FileUpload.StoragePath | src/hooks/useFileUpload.ts:23 | the key ends in the stored name; with a non-empty folder it starts with the folder and '/', otherwise it is the name alone |
| FileUpload.ExtensionShape | src/hooks/useFileUpload.ts:21 | the extension is lower-case with no '.', and is the whole lower-cased name when there is no '.' |
| FileUpload.ExtensionAfterLastDot | src/hooks/useFileUpload.ts:21 | the extension is the lower-cased text after the last '.' |
| FileUpload.StorageNameKeepsExtension | src/hooks/useFileUpload.ts:21-22 | the stored name `timestamp-random.ext` has the same extension as the original |
| FileUpload.StorageNameTimestamp | src/hooks/useFileUpload.ts:22 | the text before the first '-' of the stored name is the timestamp and reads back as it |
| FileUpload.StorageNamesDistinct | src/hooks/useFileUpload.ts:22 | files stored at different milliseconds never share a name |
| FileUpload.StoragePathLastSegment | src/hooks/useFileUpload.ts:23 | the key is `path/name` for a non-empty path and `name` otherwise: its last segment is the name and it starts with the path |
| FileUpload.FileUploader.constructor | src/hooks/useFileUpload.ts:13 | not uploading at first |
| FileUpload.FileUploader.UploadFile | src/hooks/useFileUpload.ts:16-56 | one key serves the upload and the URL lookup; on error the result is null; otherwise the original name, type and size with that key's URL; `uploading` is false at the end on both paths |

## Findings

| source | as written | input that shows it | evidently intended | confidence | as-written member | corrected member |
|---|---|---|---|---|---|---|
| src/components/Dashboard.tsx:42-44 | `aportes.sort(...)` sorts the array it receives in place, and src/pages/Index.tsx:46 passes the page's own state list, so showing the dashboard reorders the session's aportes | two aportes added oldest first, with fechas on different days (e.g. before and after midnight UTC): after the dashboard is shown, the history lists the newer one first | sort a copy (`[...aportes].sort(...)`), leaving the state in insertion order | medium; not executed | IndexPage.DashboardReordersHistory | IndexPage.Index.RenderContent |

`IndexPage.Index.RenderContentAsWritten` and `Dashboard.Render` model the
code as written. `IndexPage.Index.RenderContent` and `Dashboard.RenderCopy`
are the corrected forms. They return the same view (`Dashboard.ViewAfterSort`
shows that sorting does not change the view) and leave the list as it was.

## Left out

- JSX markup, CSS classes, icons and toasts are left out. Only the display
  conditions that carry logic are kept: empty-state messages, row order,
  the shown description and delete ids.
- `Intl.NumberFormat` currency formatting and `toLocaleDateString` are left
  out. They are locale library calls.
- JavaScript `number` arithmetic is left out. Amounts are exact reals, so
  floating-point rounding in the sums is not modelled. NaN is not modelled
  either: `parseFloat` of bad text, and the NaN that `!acc[h]` also treats
  as empty.
- `parseFloat` is not modelled: it is an uninterpreted parameter.
  `new Date(fecha).getTime()` is the parameter `time`, and the NaN it gives
  for an unparsable date is not modelled.
- `Text.DatePartOfTimestamp` covers only the 24-character `toISOString()`
  form, for years 0 to 9999. The extended `+YYYYYY` form is not covered.
- `toLowerCase` is modelled for ASCII letters only. Unicode case mapping is
  not modelled.
- `aportesPorHermano` is a plain JavaScript object. Inherited keys such as
  `constructor` are not modelled. Nor is the integer-like key ordering of
  `Object.entries`. The model uses a map, plus the first-appearance order
  `AporteList.Contributors` for entry order.
- The storage client is outside the model: Supabase `upload` and
  `getPublicUrl`, the `await`, and `console.error`. Its outcome is the
  parameters `uploadFails` and `publicUrl`.
- FileUpload.FileUploader.UploadFile: does not state that `uploading` is
  true while the upload is in flight. The model has no intermediate state
  between the call and its return.
- `handleFacturaDeleted` (src/pages/Index.tsx:38-41) is left out. It only
  logs.
- The page's factura wiring is left out. `FacturaForm` gets
  `handleFacturaAdded`, which ignores the factura. `FacturaList` is passed
  a `refresh` prop that its own props do not declare. It is passed no
  `facturas` at all (src/pages/Index.tsx:51), so its `facturas.reduce`
  (src/components/FacturaList.tsx:19) runs on `undefined` and throws. The
  `FacturasScreen` of `IndexPage.Content` therefore stands for a screen
  this code never finishes rendering. `FacturaList.ViewOf` models the list
  for a caller that does pass facturas. So facturas are not stored
  anywhere in this code, and the dashboard always gets `[]`. That last
  fact is kept in `IndexPage.DashboardTabBalance`.
- src/components/Layout.tsx is not part of this model. It only renders the
  navigation and passes the tab through. In the source the tab is one of
  the three literals `'home' | 'facturas' | 'aportes'`
  (src/pages/Index.tsx:18), and the navigation only ever sets one of
  them, so the `default` branch of `renderContent`
  (src/pages/Index.tsx:61-62) is unreachable there. The model widens the
  tab to any string. `IndexPage.Content` and
  `IndexPage.DashboardTabBalance` cover that branch only because of this
  widening; it shows the same dashboard as `'home'`.
- This code has no contributor membership check at submit, no "not found"
  error on delete, no size or MIME limit on uploads, no attachments bound
  to facturas, no sign-in gate and no remote record store, so none of
  these is modelled.
- The browser's constraint validation of the form inputs is not modelled.
  Both amount fields are `<Input type="number" min="0" step="0.01"
  required>` (src/components/AporteForm.tsx:92-101,
  src/components/FacturaForm.tsx:79-88), and both concepto fields are
  `required` (src/components/AporteForm.tsx:106-112,
  src/components/FacturaForm.tsx:68-74). Inside the `<form>` the browser
  stops an empty, unparsable, negative or off-step amount and an empty
  concepto before the submit event, so `handleSubmit` never runs for them.
  The hermano `Select` (src/components/AporteForm.tsx:76) is not
  `required`. In the browser, then, the guard of FacturaForm
  (src/components/FacturaForm.tsx:30-37) never fires, and the guard of
  AporteForm (src/components/AporteForm.tsx:38-45) fires only for an empty
  hermano. `SetValor` and `SetConcepto` accept any text, and `Submit`
  models `handleSubmit` as written, so its rejection path (`None`, fields
  unchanged) also covers the inputs the browser normally stops first.
