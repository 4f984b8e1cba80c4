# Larva tank dashboard: navigation, tank catalog and record history

A Dafny model of the logic inside `larva_takip.py`, a Streamlit dashboard for larva-rearing tanks.
The user picks a production unit in the sidebar ("Üretim 1 (16 Tank)" or "Üretim 2 (8 Tank)").
The overview then shows one button per tank. A tank button opens the tank's detail view.
There the user fills in a water-quality form, and the history of that tank is shown under it.
Every save rewrites the whole worksheet "Sayfa1" of a Google Sheet with the fetched rows plus the new row.

The project has six modules, one per concern:

- `Options` (options.dfy): the optional value used for "no tank selected".
- `Decimal` (decimal.dfy): the decimal text that Python's f-string gives a tank number, and its inverse.
- `Catalog` (catalog.dfy): the unit to tank count and prefix rule, Python's substring test `in`, and the tank ids `"<prefix>-Tank <n>"`.
- `Records` (records.dfy): a sheet row, the form, building the new row, appending it, and the per-tank history (the boolean-mask filter on "Tank ID").
- `Store` (store.dfy): the read with its empty-table fallback, and the whole-worksheet replace. The replace has three ways to end: it went through, it raised, or it went through and the cache clear after it raised. The call's result is true only in the first case.
- `Navigation` (navigation.dfy): class `Session` holds the two session-state fields `secilen_tank` (`selectedTank`) and `aktif_unite_hafizasi` (`activeUnit`). Its methods are the transitions. `Run` is one top-to-bottom pass of the script.

The pure parts (catalog, row, append, filter) are functions with lemmas.
The session state is updated in place in the source, so it is a class whose methods modify it and keep `Valid()`.
`Valid()` says that a selected tank is always in the active unit's catalog.
The overview's button loop is a `while` loop proved against the catalog function `Tanks`.

Where the code and the intended design differ, the model follows the code:

- A unit's layout is decided by a substring test, `"Üretim 1" in unite_secimi`, not by a two-valued enumeration. The model keeps the unit as a string and models `in`. `UnitOneLayout` and `UnitTwoLayout` state the outcome for the two sidebar choices.
- When the fetched table has no rows at all, the detail view shows no history and no "no records" notice (line 139). The notice appears only when the table has rows but none for the tank. `HistoryPanel` keeps this distinction.
- A save after a failed read uploads a table holding only the new row. If that write goes through, every earlier row of the worksheet is gone. `SaveAfterFailedRead` states this behaviour as the code has it.

## Model

| member | source | states |
|---|---|---|
| Decimal.NatToDecimal | larva_takip.py:67 | the text of a tank number is non-empty, all decimal digits, without a leading zero, and one character long exactly for numbers below 10 |
| Decimal.DecimalRoundTrip | larva_takip.py:67 | reading back the decimal text of any number gives that number |
| Decimal.CanonicalRoundTrip | larva_takip.py:67 | rendering the value of any canonical digit string gives the string back, so the rendering covers exactly the canonical strings |
| Decimal.DecimalInjective | larva_takip.py:67 | different tank numbers get different text |
| Catalog.ContainsIff | larva_takip.py:54-55 | the substring test used for the unit name holds exactly when the part occurs at some position of the text |
| Catalog.UnitTwoUnmarked | larva_takip.py:54-55 | "Üretim 1" does not occur in "Üretim 2 (8 Tank)" |
| Catalog.UnitOneLayout | larva_takip.py:54-55 | the first unit has 16 tanks with prefix "U1", from "U1-Tank 1" to "U1-Tank 16" |
| Catalog.UnitTwoLayout | larva_takip.py:54-55 | the second unit has 8 tanks with prefix "U2", from "U2-Tank 1" to "U2-Tank 8" |
| Catalog.TankIds | larva_takip.py:66-67 | the ids built for tanks 1 to n are exactly n ids, and the k-th is "<prefix>-Tank <k+1>", in ascending order |
| Catalog.TankIdInjective | larva_takip.py:67 | two ids with the same prefix are equal only for the same tank number |
| Catalog.TanksDistinct | larva_takip.py:66-67 | no id appears twice in a unit's catalog |
| Catalog.InCatalogIff | larva_takip.py:66-67 | an id is in a unit's catalog exactly when it is "<prefix>-Tank <n>" for some n from 1 to the unit's tank count |
| Catalog.CatalogsDisjoint | larva_takip.py:49-55 | no id belongs to both units' catalogs, so a selection made under one unit is never valid under the other |
| Records.NewRow | larva_takip.py:113-124 | the new row carries the given date and current tank, and its form part is exactly the submitted values |
| Records.RowFromParts | larva_takip.py:113-124 | every row is the new row built from its own date, tank and form part |
| Records.Append | larva_takip.py:127 | the concatenated table is one row longer, keeps every earlier row in place, and ends with the new row |
| Records.History | larva_takip.py:140 | the filtered table is no longer than the table, holds only rows of the given tank, and takes each row at most as often as the table has it |
| Records.HistoryConcat | larva_takip.py:140 | filtering two tables joined end to end gives the two filtered tables joined |
| Records.HistoryEmptyIff | larva_takip.py:139-144 | the history is empty exactly when no row has the tank's id |
| Records.HistoryIsMaskedRows | larva_takip.py:140 | the history is the rows at strictly ascending positions, and a position is taken exactly when its row's "Tank ID" equals the tank |
| Records.HistoryAfterAppend | larva_takip.py:127-140 | after appending a row, its tank's history is the old history followed by that row, which is last |
| Records.HistoryAfterAppendOther | larva_takip.py:127-140 | appending a row does not change the history of any other tank |
| Records.HistoryPanel | larva_takip.py:139-144 | under the history heading there are no rows and no notice exactly when the table is empty; shows the notice exactly when the table has rows but none of the tank's, and otherwise shows the tank's non-empty history |
| Store.FailedReadShowsNoHistory | larva_takip.py:23-25 | a failed read leaves the pass a table with no row of any tank, so the detail view shows no history rows and no notice |
| Store.SheetAfterWrite | larva_takip.py:27-35 | a call that returns true leaves the uploaded table in the worksheet; whatever the result, the worksheet is either untouched or fully replaced |
| Store.FalseResultAfterReplace | larva_takip.py:29-35 | a false result does not mean nothing was written: when the cache clear raises after the replace, the call returns false and the worksheet holds the upload |
| Store.SaveOutcome | larva_takip.py:111-132 | after a good read, a save that returns true leaves the old rows followed by exactly one new row for the tank and date, ending the tank's history; a replace that raised changes nothing; in every case the worksheet is unchanged or has exactly that one row added |
| Store.SavingTwiceAddsTwoRows | larva_takip.py:127-130 | saving the same form twice adds two rows, and the tank's history grows by two equal rows |
| Store.SaveAfterFailedRead | larva_takip.py:17-35 | after a failed read, a save whose replace goes through leaves a worksheet holding only the new row |
| Navigation.Session.constructor | larva_takip.py:38-42 | a new session has no tank selected and remembers the first unit, which is the sidebar's first choice |
| Navigation.Session.ChooseUnit | larva_takip.py:49-52 | a unit other than the remembered one clears the selection, is remembered and restarts the pass; the same unit changes nothing |
| Navigation.Session.ShowOverview | larva_takip.py:63-73 | the buttons follow the catalog in ascending order; pressing a catalog id selects exactly that id and ends the grid at its button; otherwise all buttons are shown and nothing is selected; the unit is unchanged |
| Navigation.Session.GoBack | larva_takip.py:83-85 | back clears the selection and keeps the unit |
| Navigation.Session.Run | larva_takip.py:46-144 | one pass: a unit change resets and restarts; the overview selects a pressed tank or shows the whole catalog; the detail view goes back, or uploads the fetched table plus the new row and reruns when the call returns true, or shows the tank's history; a save never changes the selection or the unit |

## Left out

- Rendering: titles, columns, the four-wide button grid, images, the form widgets' layout and every `st.info`, `st.success` and `st.error` text. A pass ends in a `Screen` value instead.
- `st.rerun`: modelled as the `Restart` screen that ends the pass. The next pass is another call of `Run`.
- The Google Sheets connection: a read is the parameter `ReadResult`, and a write is the parameter `WriteOutcome`. The cache clear is modelled only as a step that can raise; its effect on later reads is not, since every pass reads afresh.
- Store.SheetAfterWrite: the replace is taken as all-or-nothing. A replace that raises leaves the worksheet as it was; a partly written worksheet is not modelled.
- The empty DataFrame's column set on a failed read: a table is a sequence of rows, and its columns are the fields of `Record`.
- The clock: today's date string (`%d-%m-%Y`) is the parameter `today`.
- The numeric form values: reals and an integer copied into the row. Widget step sizes and float arithmetic are not modelled.
- Pandas details: index renumbering in `concat`, column dtypes, and rows fetched with missing or malformed columns.
- Streamlit tells buttons apart by their labels. The model names the pressed tank button by its tank id; the label's icon prefix is left out.
- The lost update between two sessions that fetch, append and overwrite at the same time: concurrency is outside this sequential model.
