# Gestão de ativos — a verified model of the inventory core

The application keeps a company's fixed assets in three collections: assets, departments and a
movement ledger. The collections live in browser local storage, one key each. Reads fall back to a
built-in seed. The shell loads them into React state and offers two mutations:

- adding an asset, which upserts it by id;
- recording a movement, which appends it to the ledger and then relocates the asset it names to
  the target department, possibly with a new status.

Three screens derive views from the collections:

- the dashboard: total value, status and category charts, and the five newest assets;
- the movement history: newest first, with placeholders for records that no longer exist;
- the asset list: a case-insensitive search over name and tag, and the new-asset form.

The model is split into modules that follow the program's files:

| module | file | form |
|---|---|---|
| `Types` | types.ts | the enumerations and records as datatypes |
| `Seqs` | — | `findIndex`/`find`/`reverse` on sequences, shared by all modules |
| `Db` | db.ts | class `Store` over the three storage entries; `Upsert` is the list update of `saveAsset` |
| `App` | App.tsx | class `Inventory`: the React state over a `Store`, with `HandleAddAsset` and `HandleAddMovement` |
| `Dashboard` | components/Dashboard.tsx | functions, plus the `categoryCounts` reduce as a loop method |
| `Movements` | components/Movements.tsx | functions: the movement record built by `handleMove`, and the history table |
| `AssetList` | components/AssetList.tsx | functions: the filter, the new-asset form and record, and the card icon and badge |

A storage slot is modelled as `Entry<T> = Missing | EmptyString | Json(items)`. The getters test
`data ? JSON.parse(data) : seed`, so only a missing key and the empty string fall back to the seed.
A stored empty list `"[]"` is truthy and reads back as the empty list. The store keeps a ghost log
of the keys written, in order. With it, `HandleAddMovement` states that the ledger is written
before the asset.

A corrupt stored value does not fall back to the seed: `JSON.parse` throws (db.ts:40, 56, 67) and
nothing catches it. The model follows the code and claims no fallback; parse failures are left out.

## Model

| member | source | states |
|---|---|---|
| `Types.StatusValue` | types.ts:2-8 | every status carries a non-empty display string |
| `Types.CategoryValue` | types.ts:10-16 | every category carries a non-empty display string |
| `Types.AllStatuses` | types.ts:2-8 | the status enumeration has five members, pairwise distinct |
| `Types.AllCategories` | types.ts:10-16 | the category enumeration has five members, pairwise distinct |
| `Types.StatusListed` | types.ts:2-8 | every status occurs in `Object.values(AssetStatus)` |
| `Types.CategoryListed` | types.ts:10-16 | every category occurs in `Object.values(AssetCategory)` |
| `Types.StatusValuesDistinct` | types.ts:2-8 | two statuses share a string value iff they are equal; no status string is empty |
| `Types.CategoryValuesDistinct` | types.ts:10-16 | two categories share a string value iff they are equal; no category string is empty |
| `Types.NFeTypeValue` | types.ts:27 | an invoice type is one of the literals 'Compra', 'Movimentação', 'Descarte' |
| `Types.NFeTypeValuesDistinct` | types.ts:27 | the three invoice-type literals are distinct |
| `Seqs.IndexOf` | db.ts:45 | `findIndex` yields -1 iff no element has the key; otherwise the position of the first one that does |
| `Seqs.Find` | App.tsx:31 | `find` yields nothing iff no element has the key; otherwise the first element that does |
| `Seqs.NameOr` | components/Dashboard.tsx:143 | `find(..)?.name \|\| fallback` gives the fallback when nothing matches; when the first match's name is non-empty it gives that name, otherwise the fallback; any other result is never empty |
| `Seqs.Reverse` | components/Movements.tsx:71 | `slice().reverse()`: the copy has the input's length, its first element is the input's last and its last is the input's first |
| `Seqs.ReverseAt` | components/Movements.tsx:71 | the reversed copy has the same length and holds element `n-1-k` at position `k` |
| `Seqs.ReverseReverse` | components/Movements.tsx:71 | reversing twice gives the original sequence back |
| `Db.AssetNameOr` | components/Movements.tsx:72-78 | `find(a => a.id === id)?.name \|\| fallback`: the fallback when no asset has the id; the first such asset's name when non-empty, else the fallback; any other result is a matching asset's name |
| `Db.DepartmentNameOr` | components/Movements.tsx:73-82 | the same lookup over departments by id |
| `Db.Load` | db.ts:40 | `data ? JSON.parse(data) : fallback`: stored items when the key holds data; the fallback for a missing key and for the empty string |
| `Db.InitialDepartments` | db.ts:4-9 | the seed has four departments with distinct ids |
| `Db.InitialAssets` | db.ts:11-36 | the seed has two assets with distinct ids |
| `Db.SeedFacts` | db.ts:4-36 | the seed has departments '1'..'4' and assets 'a1' (department '1', in operation) and 'a2' (department '4', in stock); all ids are distinct |
| `Db.Upsert` | db.ts:45-50 | saving a present id keeps the length; saving a new id appends the asset at the end; the saved asset is always in the list |
| `Db.UpsertReplacesFirst` | db.ts:43-52 | saving an id that is present replaces its first occurrence in place; the length is unchanged |
| `Db.UpsertAppends` | db.ts:43-52 | saving a new id appends the asset after the unchanged old list |
| `Db.UpsertFindsSaved` | db.ts:43-52 | after saving, looking the id up finds exactly the saved asset |
| `Db.UpsertKeepsOthers` | db.ts:43-52 | entries with other ids keep their values and positions; the length grows by at most one |
| `Db.UpsertIdempotent` | db.ts:43-52 | saving the same asset twice is the same as saving it once |
| `Db.UpsertTwice` | db.ts:43-52 | two saves of one new id leave exactly one record, holding the later values |
| `Db.UpsertKeepsUniqueIds` | db.ts:43-52 | if ids are distinct before a save, they are distinct after it |
| `Db.DepartmentDuplicates` | db.ts:59-63 | saving a department whose id is present adds a second record with that id |
| `Db.Store.constructor` | db.ts:38-68 | a store over a medium holding the given three entries, with nothing written yet |
| `Db.Store.GetAssets` | db.ts:38-41 | the list `Load` yields for the stored entry: the stored items if the key holds data, else the seed assets |
| `Db.Store.GetDepartments` | db.ts:54-57 | the list `Load` yields for the stored entry: the stored items if the key holds data, else the seed departments |
| `Db.Store.GetMovements` | db.ts:65-68 | the list `Load` yields for the stored entry: the stored items if the key holds data, else the empty ledger |
| `Db.Store.SaveAsset` | db.ts:43-52 | the assets key now holds the upsert of the list read; the other keys are unchanged; one write, to the assets key |
| `Db.Store.SaveDepartment` | db.ts:59-63 | the departments key now holds the list read plus the department; the other keys are unchanged |
| `Db.Store.SaveMovement` | db.ts:70-74 | the movements key now holds the ledger read plus the movement; the other keys are unchanged |
| `App.ChosenStatus` | App.tsx:36 | `newStatus \|\| asset.status`: a supplied status always wins (its string is never empty); otherwise the current one is kept |
| `App.Relocated` | App.tsx:33-37 | the updated asset is in the movement's target department with the chosen status; all its other fields are unchanged |
| `App.CascadeAssets` | App.tsx:31-39 | the stored list after a movement: unchanged when the state holds no such asset; otherwise it has the asset in the target department; it grows by at most one |
| `App.CascadeRelocates` | App.tsx:31-39 | when the asset exists, its first record is replaced by the relocated value and the list keeps its length |
| `App.CascadeLocatesAsset` | App.tsx:31-39 | after the movement, looking the asset up finds it in the target department with the chosen status |
| `App.CascadeMissing` | App.tsx:31-32 | a movement naming an absent asset leaves the asset list unchanged |
| `App.CascadeKeepsCount` | App.tsx:31-39 | recording a movement never changes the number of assets, and keeps distinct ids distinct |
| `App.SeedMovementExample` | App.tsx:27-39 | on the seed, moving 'a1' from '1' to '3' under repair relocates 'a1' and leaves 'a2' as it was |
| `App.Inventory.constructor` | App.tsx:16-20 | the mount effect leaves the React state equal to what the store yields |
| `App.Inventory.HandleAddAsset` | App.tsx:22-25 | the assets key holds the upsert, the other keys and state are unchanged, and the asset state is reloaded from the store |
| `App.Inventory.HandleAddMovement` | App.tsx:27-43 | the ledger gets the movement, written first; the asset, looked up in the state, is upserted relocated only if found; the state is reloaded; sync is kept |
| `App.SeedScenario` | App.tsx:27-43 | from an empty medium, one movement of 'a1' to '3' under repair yields a one-entry ledger and the relocated seed |
| `Dashboard.TotalValue` | components/Dashboard.tsx:16 | the inventory value is non-negative when every purchase value is, and zero when all are zero |
| `Dashboard.TotalValueAppend` | components/Dashboard.tsx:16 | the inventory value is additive over concatenation |
| `Dashboard.TotalValueUpdate` | components/Dashboard.tsx:16 | replacing one asset changes the value by the difference of the two purchase values |
| `Dashboard.MovementKeepsTotalValue` | components/Dashboard.tsx:16 | recording a movement leaves the inventory value unchanged |
| `Dashboard.CountStatus` | components/Dashboard.tsx:19 | a status's count is at most the number of assets |
| `Dashboard.CountStatusZero` | components/Dashboard.tsx:19 | a status's count is zero iff no asset has that status |
| `Dashboard.StatusCounts` | components/Dashboard.tsx:17-20 | five chart entries, none exceeding the number of assets |
| `Dashboard.StatusCountsShape` | components/Dashboard.tsx:17-20 | one chart entry per status with distinct names; each status's entry carries its count, zero included |
| `Dashboard.StatusCountsPartition` | components/Dashboard.tsx:17-20 | the five per-status counts add up to the number of assets |
| `Dashboard.StatusCountsSum` | components/Dashboard.tsx:17-20 | the values of the status chart add up to the number of assets |
| `Dashboard.StatusCountsExample` | components/Dashboard.tsx:17-20 | three assets in stock and one under repair give exactly those counts and zero for the rest |
| `Dashboard.UnderRepairCount` | components/Dashboard.tsx:58 | at most the number of assets, and zero iff no asset is under repair |
| `Dashboard.UnderRepairMatchesChart` | components/Dashboard.tsx:58 | the under-repair card shows the same number as the under-repair entry of the chart |
| `Dashboard.CountCategory` | components/Dashboard.tsx:22-25 | a category's count is at most the number of assets |
| `Dashboard.CountCategoryZero` | components/Dashboard.tsx:22-25 | a category's count is zero iff no asset has it |
| `Dashboard.FirstSeen` | components/Dashboard.tsx:22-27 | the accumulator's key order has at most one key per asset |
| `Dashboard.FirstSeenHead` | components/Dashboard.tsx:22-27 | over a non-empty list the first key is the first asset's category |
| `Dashboard.FirstSeenDistinct` | components/Dashboard.tsx:22-25 | the accumulator's keys, in insertion order, never repeat |
| `Dashboard.FirstSeenMembers` | components/Dashboard.tsx:22-25 | the keys are exactly the categories present |
| `Dashboard.CategoryStep` | components/Dashboard.tsx:23-24 | one `acc[c] = (acc[c] \|\| 0) + 1` step keeps the accumulator tallied: keys in first-seen order, each mapped to its count over the assets read, the counts adding up to how many were read |
| `Dashboard.CategoryCounts` | components/Dashboard.tsx:22-25 | the reduce ends tallied over all assets (keys in first-seen order, each mapped to its count, counts adding up to the number of assets); its keys are exactly the present categories, each counted at least once |
| `Dashboard.TalliedAll` | components/Dashboard.tsx:22-25 | a tallied accumulator over all assets holds exactly the present categories, in first-seen order, each with its count of at least one, adding up to the number of assets |
| `Dashboard.PieData` | components/Dashboard.tsx:27-30 | one pie entry per key, in key order, carrying that key's count; the entries add up to the sum of the counts |
| `Dashboard.ColorFor` | components/Dashboard.tsx:105 | every chart index gets a colour from the palette |
| `Dashboard.ColorCycles` | components/Dashboard.tsx:105 | colours repeat every five indices |
| `Dashboard.Recent` | components/Dashboard.tsx:138 | at most five assets, none more than the input, and the newest asset comes first |
| `Dashboard.RecentShape` | components/Dashboard.tsx:138 | the recent list holds min(5, n) assets, the newest first |
| `Dashboard.DepartmentName` | components/Dashboard.tsx:143 | 'N/A' when no department matches; the first matching department's name when it is non-empty, else 'N/A'; any other label is a matching department's name |
| `Movements.InitialMoveForm` | components/Movements.tsx:14-17 | the dialog opens empty, with the status select at IN_OPERATION |
| `Movements.HandleMove` | components/Movements.tsx:19-33 | no request iff no asset has the selected id; otherwise the movement leaves the found asset's current department and copies id, date, target, reason and status from the inputs |
| `Movements.AfterMove` | components/Movements.tsx:34-37 | after a move, the asset, destination and reason are cleared and the status select keeps its value |
| `Movements.ClearedFormEmitsNothing` | components/Movements.tsx:19-37 | resubmitting the cleared form emits nothing while no asset has the empty id |
| `Movements.MoveRelocatesAsset` | components/Movements.tsx:19-33 | once the shell records the emitted request, the asset is in the chosen department with the chosen status, and the movement names the department it left |
| `Movements.History` | components/Movements.tsx:71 | the history has the ledger's length and holds entry `n-1-k` at row `k` |
| `Movements.HistoryNewestFirst` | components/Movements.tsx:71 | a newly appended movement heads the history; the older ones follow in the same order |
| `Movements.HistoryKeepsLedger` | components/Movements.tsx:71 | reversing the history gives the stored ledger back unchanged |
| `Movements.TagOf` | components/Movements.tsx:79 | the tag is absent iff the asset no longer exists; otherwise it is the tag of the first asset with that id |
| `Movements.RowFor` | components/Movements.tsx:72-86 | id, date and reason are the movement's; the asset label is the asset-name lookup with placeholder 'Excluído', the tag is `asset?.tag`, and both department labels are the department-name lookup with placeholder '---' |
| `Movements.RowForAsset` | components/Movements.tsx:72-79 | 'Excluído' and no tag when no asset has the movement's asset id; otherwise the first such asset's name (or 'Excluído' when it is empty) and its tag; any other label is a matching asset's name |
| `Movements.RowForDepartment` | components/Movements.tsx:73-82 | for origin and destination alike: '---' when no department has the id; otherwise the first such department's name, or '---' when it is empty; any other label is a matching department's name |
| `Movements.HistoryTableOf` | components/Movements.tsx:67-89 | the single placeholder row iff the ledger is empty; otherwise one row per movement, newest first |
| `Movements.RecordedMovementOnTop` | components/Movements.tsx:67-89 | once a movement is recorded, the table shows rows and the first row is that movement |
| `AssetList.Lower` | components/AssetList.tsx:43-44 | the lower-cased string has the same length and no upper-case ASCII letter; each capital becomes its own lower-case letter (code point plus 32) and every other character stays as it is |
| `AssetList.Includes` | components/AssetList.tsx:43-44 | a string only includes strings no longer than itself, and always includes itself |
| `AssetList.Matches` | components/AssetList.tsx:42-45 | the empty query matches every asset, and so does a query equal to the tag up to case |
| `AssetList.IncludesEmpty` | components/AssetList.tsx:42-45 | the empty query occurs in every string |
| `AssetList.FilterAssets` | components/AssetList.tsx:42-45 | the filtered list is never longer than the input |
| `AssetList.FilterKeepsExactlyMatches` | components/AssetList.tsx:42-45 | an asset is in the result iff it is in the input and its lower-cased name or tag contains the lower-cased query |
| `AssetList.LowerLower` | components/AssetList.tsx:43-44 | lower-casing twice is the same as lower-casing once |
| `AssetList.FilterIgnoresQueryCase` | components/AssetList.tsx:42-45 | the filter gives the same list whatever the case of the query, because the test lower-cases the query itself |
| `AssetList.FilterEmptyQuery` | components/AssetList.tsx:42-45 | an empty query keeps every asset, in order |
| `AssetList.FilterKeepsOrder` | components/AssetList.tsx:42 | the result sits at strictly increasing positions of the input, and covers every matching position |
| `AssetList.DefaultDraft` | components/AssetList.tsx:15-25 | the form starts, and after each submit resets, to empty name, tag, description and invoices, category IT, status IN_STOCK, value 0, today's date, and the first department's id or '' |
| `AssetList.SubmitAsset` | components/AssetList.tsx:29-32 | the submitted asset has the fresh id and carries every form field unchanged |
| `AssetList.DraftOf` | components/AssetList.tsx:15-25 | the form fields of an asset: submitting them with the asset's id rebuilds the asset exactly |
| `AssetList.SubmitDraftOf` | components/AssetList.tsx:29-32 | reading the fields back from a submitted asset gives the form unchanged, whatever the id |
| `AssetList.SubmitAppendsNew` | components/AssetList.tsx:29-33 | submitted with an id not yet stored, the asset is appended after the existing ones |
| `AssetList.SubmitCollisionReplaces` | components/AssetList.tsx:29-33 | a generated id that collides with a stored one replaces that asset: the list keeps its length and holds the new asset |
| `AssetList.CategoryIcon` | components/AssetList.tsx:84-86 | machinery and tools, and only they, get the default icon |
| `AssetList.CategoryIconsShared` | components/AssetList.tsx:84-86 | IT, furniture and vehicles have icons of their own; machinery and tools share the default one |
| `AssetList.BadgeFor` | components/AssetList.tsx:118-122 | the invoice badge is shown iff the asset has at least one invoice |
| `AssetList.DepartmentOf` | components/AssetList.tsx:105 | the card shows no department name iff no department has the asset's id; otherwise the name of the first department with that id, as `find` returns |

## Left out

- Serialization: JSON encoding is taken to round-trip exactly. A corrupt stored value makes `JSON.parse` throw; that path is not modelled.
- Seed aliasing: with an empty medium, `getAssets` and `getDepartments` return the seed arrays themselves, and the next save mutates them in place. The model reads values, so the seed never changes. This is only observable if storage is cleared later in the same session.
- Id generation and clocks: the random ids and `new Date()` timestamps are parameters (`freshId`, `now`, `today`).
- Number handling: `purchaseValue` is an integer. Floating-point sums, a `NaN` from `parseFloat`, `toLocaleString` currency formatting and date formatting are out.
- `AssetList.Lower`: `toLowerCase` is modelled for ASCII letters only. Unicode case mapping is out.
- User interface: rendering, the modal dialogs, chart drawing, the navigation sidebar, the admin view, the status colour classes and the form's browser-side `required` checks are out. React state updates are modelled as direct assignment.
- `Db.Store.SaveDepartment` is modelled, but nothing in the application calls it.
- `App.Inventory.HandleAddMovement` takes the status as an optional value. The movements screen always supplies one. Its `None` case is modelled for completeness.
