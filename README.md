# Inbound PPA check and labor snapshot — a Dafny model

This project models the computational core of two browser tools used on an inbound warehouse floor.

**The PPA page** (`PPAcheck/PPA.js`) reads spreadsheet rows of licence plates (LPs) and location IDs.
- It normalises each row. LP and location are trimmed, the location is upper-cased, "Item Number" falls back to column C and "Quantity" to column D.
- It counts the *distinct* LPs seen at the VAS, reach-truck and cart locations of three fixed tables.
- It turns reach-truck rows into pick records keyed by `floor(Number(itemNumber))`.
- It joins the picks against an item master (`ITEM_NUMBER` → entry, later entries overwriting earlier ones). A pick is small-volume when `CUBIC_VOL * quantity < 5000`.
- The master is fetched asynchronously. When it arrives after the rows, the volume analysis is run again on the stored rows.

**The labor snapshot** (`snapshot/js`) has two parts.
- `parseLaborData` parses a pasted labor report. It is a line-oriented state machine over a current section and a table-mode flag. It extracts "Last Updated:"/"FC:" metadata and collects department and area rows.
- The KPI calculations take the inbound department and its areas from the parsed labor data. From the first sheet of a transaction spreadsheet they take type 151/152/183 counts, a per-type breakdown sorted by count, and the type-152 quantity sum. They combine the two into per-hour rates and efficiency insights, and decide which of the three result slots (`labor`, `excel`, `combined`) exist.

## Modules

- `options.dfy` (`Options`): the `Option` type.
- `text.dfy` (`Text`): the JavaScript string operations the core relies on:
  - `trim`, `includes`, and `toLowerCase`/`toUpperCase` on ASCII letters only;
  - `split('\n')`, `split(sep)[1]`, and `split(/\s{2,}|\t/)`;
  - `parseFloat`/`parseInt` as prefix parsers that fall back to 0, and `Number` on strings.
- `cells.dfy` (`Cells`): spreadsheet/JSON cell values (absent, `null`, string, number), their truthiness, `a || b`, `String(...)`, `Number(...)`, and `Math.floor(Number(...))` keys.
- `ppa.dfy` (`Ppa`): the PPA page. The `rows.forEach` loops are methods with invariants, proved against specification functions. The page globals are the fields of the class `PpaPage`.
- `labor.dfy` (`LaborParser`): `parseLaborData`. It has a per-line step function, the loop as a method proved equal to the fold of that step, and lemmas about the fold.
- `calculations.dfy` (`SnapshotCalculations`): the KPI functions. The `transactions.forEach` tally is a loop method. `calculateKPIs` assigns the `kpiResults` field of the class `Snapshot`.

## Source behaviour kept as written

- Metadata takes `line.split(sep)[1]` trimmed: the text between the first and the second occurrence of the marker, or to the end of the line when it occurs once (`Text.SecondPiece`).
- `calculateKPIs` hands the *parsed report* to `calculateCombinedKPIs`. That function reads `laborData.inboundDepartment`, a field the parser never produces. So whenever both inputs are present, `combined` is the error object "No Inbound department found in labor data". The model keeps this: `SnapshotCalculations.KpisFor` states it. A `LaborObject` that does carry an inbound department (the labor KPI object) is modelled too, and `CalculateCombinedKPIs` is proved for it.
- `calculateEfficiencyInsights` divides by the department's hours without a guard. With zero hours and a positive count the quotient is `Infinity`, modelled as `Quotient.PlusInfinity`. Negative hours give a negative finite quotient.
- `Map` keys compare strings by content and numbers by value. A numeric cell `152` and the string `"152"` are different keys, and only the string matches `=== '152'`.

## Model

| member | source | states |
|---|---|---|
| Ppa.NormalizeSpec | PPAcheck/PPA.js:145-148 | the item number falls back to column C and then `""`, the quantity to column D and then 0 (read by `Number`); the LP is trimmed; the location is trimmed, has no lower-case ASCII letter and equals the trimmed cell up to case |
| Ppa.ClassLpsIff | PPAcheck/PPA.js:151-167 | an LP is in a class set iff some usable row has that LP at a location of the class's table |
| Ppa.DuplicateRowKeepsClass | PPAcheck/PPA.js:137-167 | inserting a copy of any row anywhere leaves every class set unchanged (counts are of distinct LPs) |
| Ppa.UnusableRowKeepsClass | PPAcheck/PPA.js:146-151 | a row whose trimmed LP or trimmed upper-cased location is empty adds nothing to a class set |
| Ppa.UnusableRowKeepsPicks | PPAcheck/PPA.js:151-165 | such a row creates no pick record |
| Ppa.UnusableRowIgnored | PPAcheck/PPA.js:146-167 | such a row changes none of the three class sets nor the pick list |
| Ppa.PicksAppend | PPAcheck/PPA.js:145-168 | the pick list of concatenated rows is the concatenation of the pick lists (input order kept) |
| Ppa.PicksIff | PPAcheck/PPA.js:154-165 | a pick exists iff some row is at a reach location, has a truthy item number and quantity > 0, and the pick is that row's record |
| Ppa.ItemMasterKeys | PPAcheck/PPA.js:45-81 | the master's keys are exactly the floor keys of the `ITEM_NUMBER`s of the entries |
| Ppa.ItemMasterLastWins | PPAcheck/PPA.js:45-81 | the entry stored under a key is the last entry with that key |
| Ppa.Annotate | PPAcheck/PPA.js:173-177 | the join sets only `totalVolume`, to `CUBIC_VOL × quantity` when the master has the item with a truthy `CUBIC_VOL`, and leaves the pick unchanged otherwise |
| Ppa.SmallItems | PPAcheck/PPA.js:171-183 | the small list is no longer than the pick list, and empty when the master is empty |
| Ppa.SmallItemsIff | PPAcheck/PPA.js:171-182 | an item is small iff the master is non-empty and it is an annotated pick whose master entry has a truthy `CUBIC_VOL` with volume below 5000 |
| Ppa.SmallItemsSingle | PPAcheck/PPA.js:174-179 | one pick gives its annotated self when the master is non-empty and the pick is small, and nothing otherwise |
| Ppa.SmallItemsAppend | PPAcheck/PPA.js:171-182 | the small list of concatenated picks is the concatenation of their small lists: every small pick is pushed, in order and with repeats, so `smallVolumeItems.length` is the number of small picks |
| Ppa.Percentage | PPAcheck/PPA.js:224 | a percentage is 0 when the total is 0; with a positive total, percentage × total = count × 100; it lies in [0, 100] when the count is at most the total |
| Ppa.PercentagesSumTo100 | PPAcheck/PPA.js:224 | with a positive total, the VAS, reach and cart percentages sum to 100 |
| Ppa.ExpectedVolumeBounds | PPAcheck/PPA.js:302-312 | small count ≤ pick count, percent in [0, 100], percent 0 without picks, and no small items without a master |
| Ppa.ClassifyRow | PPAcheck/PPA.js:145-167 | the `forEach` callback adds exactly the row's contribution to each set and to the pick list |
| Ppa.ClassifyRows | PPAcheck/PPA.js:137-168 | the loop yields the three distinct-LP sets and the pick list of the rows |
| Ppa.PickRow | PPAcheck/PPA.js:259-276 | the retry's callback adds exactly the row's pick |
| Ppa.CollectReachPicks | PPAcheck/PPA.js:256-277 | the retry's loop yields the same pick list as the main display |
| Ppa.JoinItem | PPAcheck/PPA.js:173-180 | one join step annotates the pick and reports whether it is small |
| Ppa.AnalyzeVolume | PPAcheck/PPA.js:171-183 | the join loop annotates every pick in place and collects exactly the small list |
| Ppa.JoinAndDisplay | PPAcheck/PPA.js:280-295 | the volume analysis is shown only with a non-empty master and at least one pick, otherwise the display is left as it was |
| Ppa.PPAResults | PPAcheck/PPA.js:132-185 | the summary counts the distinct LPs per class, and the volume display is the expected one under the same guard |
| Ppa.PpaPage.DisplayPPAResults | PPAcheck/PPA.js:132-185 | stores the rows, shows the class summary, and updates the volume display with the expected analysis or leaves it |
| Ppa.PpaPage.DisplayVolumeAnalysisOnly | PPAcheck/PPA.js:254-296 | the retry shows the expected analysis of the rows under the same guard, else leaves the display |
| Ppa.PpaPage.ItemMasterLoaded | PPAcheck/PPA.js:44-60 | with `Sheet1` the master is rebuilt and the analysis rerun if rows are waiting; otherwise nothing changes |
| Ppa.LateMasterMatchesEarly | PPAcheck/PPA.js:54-57 | a master loaded before or after the rows yields the same volume analysis, the one the rows and the master give |
| Text.SplitFieldsAreFields | snapshot/js/snapshot-data.js:251 | no piece of a line split on a tab or 2+ whitespace contains such a separator |
| Text.FieldIsNotSplit | snapshot/js/snapshot-data.js:251 | a string with no tab and no two adjacent whitespace characters splits into itself alone |
| Text.SplitFieldsJoin | snapshot/js/snapshot-data.js:251 | there is one separator between each two pieces of the split, and putting the separators back between the pieces rebuilds the line |
| Text.SeparatorsAreMaximal | snapshot/js/snapshot-data.js:251 | each separator is a tab or a whitespace run of length ≥ 2 that is maximal: the piece before it does not end with whitespace, the piece after it does not start with whitespace, and every piece between two separators is non-empty |
| Text.SecondPiece | snapshot/js/snapshot-data.js:226-231 | `split(sep)[1]` exists iff the line contains the separator; it is the text after the first occurrence up to the next occurrence or the end of the line, and it contains no separator |
| Text.DigitStringToNumber | PPAcheck/PPA.js:46 | `Number` of a non-empty string of decimal digits, such as an item number held as text, is its decimal value |
| LaborParser.LinesAreTrimmed | snapshot/js/snapshot-data.js:204 | every line is non-empty, trimmed, and free of newlines |
| LaborParser.NonBlankAppend | snapshot/js/snapshot-data.js:204 | trimming and filtering concatenated pieces gives the concatenation of the results, so lines keep input order |
| LaborParser.NonBlankSingle | snapshot/js/snapshot-data.js:204 | one piece is kept, trimmed, exactly when its trimmed text is not empty |
| LaborParser.LinesMembers | snapshot/js/snapshot-data.js:204 | a string is a line iff it is the trimmed, non-empty text of some piece of the input split on `\n` |
| LaborParser.RowOf | snapshot/js/snapshot-data.js:254-261 | the row's name is the first field, and `tph` is 0 when there is no sixth field |
| LaborParser.UnparsableFieldsAreZero | snapshot/js/snapshot-data.js:256-260 | every numeric field without a digit reads as 0 |
| LaborParser.Step | snapshot/js/snapshot-data.js:215-275 | one line never touches `functions`, only appends to departments or areas, and adds at most one row |
| LaborParser.DataStep | snapshot/js/snapshot-data.js:250-274 | the table part of a line changes neither the section nor the metadata |
| LaborParser.ProcessLine | snapshot/js/snapshot-data.js:215-275 | the `forEach` callback performs exactly one step of the state machine |
| LaborParser.ProcessTableLine | snapshot/js/snapshot-data.js:250-274 | the row and end-of-table part of the callback is the table step |
| LaborParser.ParseLaborData | snapshot/js/snapshot-data.js:203-278 | the loop yields the fold of the step over the trimmed non-blank lines |
| LaborParser.NavigationLineIgnored | snapshot/js/snapshot-data.js:217-222 | removing a navigation line anywhere in the input changes nothing |
| LaborParser.MetadataIsLatest | snapshot/js/snapshot-data.js:225-233 | each of `lastUpdated`/`fc` is the trimmed piece from the latest line carrying its marker, or absent |
| LaborParser.MetadataLineAddsNoRow | snapshot/js/snapshot-data.js:225-233 | a metadata line adds no row and changes neither section nor table mode |
| LaborParser.HeaderKind | snapshot/js/snapshot-data.js:236-243 | a line switches to departments (areas) iff it equals the department (area) header exactly |
| LaborParser.StepSection | snapshot/js/snapshot-data.js:236-243 | one line changes the section only when it is a section header, to that header's section |
| LaborParser.SectionIsLatestHeader | snapshot/js/snapshot-data.js:236-243 | the current section is the one of the most recent exact header line |
| LaborParser.NoRowsBeforeHeader | snapshot/js/snapshot-data.js:250 | no row is recorded before the first section header |
| LaborParser.StepMetadata | snapshot/js/snapshot-data.js:225-233 | one line changes only the metadata field whose marker it carries |
| LaborParser.FunctionsAlwaysEmpty | snapshot/js/snapshot-data.js:208 | `functions` is always empty |
| LaborParser.StepRecordsRow | snapshot/js/snapshot-data.js:250-274 | in table mode a row line is appended to the list of the current section only, and a "Totals" line ends table mode |
| LaborParser.RunRecordsRow | snapshot/js/snapshot-data.js:236-267 | with table mode on, a row line goes to the departments when the latest section header was the department one, and to the areas when it was the area one |
| LaborParser.RowsAppendOnly | snapshot/js/snapshot-data.js:263-267 | later lines only append rows, so rows keep their input order |
| LaborParser.StepRow | snapshot/js/snapshot-data.js:251-267 | a row added by one line is that line's parse, and the line passes the row test |
| LaborParser.RowsComeFromDataLines | snapshot/js/snapshot-data.js:251-267 | every recorded row is the parse of some input line with ≥ 5 fields and no "Totals" or "Labor" |
| LaborParser.TableOffRecordsNothing | snapshot/js/snapshot-data.js:244-274 | with table mode off, lines that are not headers record nothing and leave it off |
| LaborParser.StepEndsTable | snapshot/js/snapshot-data.js:253-274 | a data line containing "Totals" but neither header turns table mode off and changes nothing else |
| LaborParser.TotalsLineEndsTable | snapshot/js/snapshot-data.js:244-274 | after such a line, no rows are recorded until a header line |
| SnapshotCalculations.FirstInbound | snapshot/js/snapshot-calculations.js:30-31 | the index found lies within the departments |
| SnapshotCalculations.FirstInboundSpec | snapshot/js/snapshot-calculations.js:30-31 | the index found names a department whose lower-cased name contains "inbound", and none before it does |
| SnapshotCalculations.HoursPercent | snapshot/js/snapshot-calculations.js:54-55 | 0 when the inbound hours are not positive, otherwise the percentage times the hours is the area's hours × 100 |
| SnapshotCalculations.KeepArea | snapshot/js/snapshot-calculations.js:47-56 | an area is kept, with its percentage, iff its lower-cased name contains a keyword |
| SnapshotCalculations.InboundAreasAppend | snapshot/js/snapshot-calculations.js:47-49 | the area filter distributes over concatenation, so it keeps the input order |
| SnapshotCalculations.InboundAreasMembers | snapshot/js/snapshot-calculations.js:47-56 | an area appears iff it is an input area matching a keyword, and nothing else appears |
| SnapshotCalculations.CalculateLaborKPIs | snapshot/js/snapshot-calculations.js:25-61 | `{}` iff no departments; the error object iff departments but none inbound; otherwise an inbound input department, and `inboundAreas` is never an empty list |
| SnapshotCalculations.FirstInboundDepartmentCopied | snapshot/js/snapshot-calculations.js:30-57 | the KPIs copy the first inbound department's hours, units, transactions, UPH and TPH, and `inboundAreas` is absent iff the filtered list is empty |
| SnapshotCalculations.NoInboundDepartmentIsError | snapshot/js/snapshot-calculations.js:33-36 | without an inbound department the result is the error object |
| SnapshotCalculations.OfType | snapshot/js/snapshot-calculations.js:71-72 | the rows of one type are at most all rows |
| SnapshotCalculations.OfTypeSpec | snapshot/js/snapshot-calculations.js:71-72 | a row is kept iff its type cell is the type's string, with its multiplicity kept |
| SnapshotCalculations.TypeCountsBounded | snapshot/js/snapshot-calculations.js:110-116 | the 151, 152 and 183 counts add up to at most the row count |
| SnapshotCalculations.UnparsableQuantitiesAddNothing | snapshot/js/snapshot-calculations.js:99-102 | quantities without a digit count as 0 in the type-152 unit sum |
| SnapshotCalculations.KeyedCount | snapshot/js/snapshot-calculations.js:85 | the rows with a truthy type and description are at most all rows |
| SnapshotCalculations.TallyAlwaysOk | snapshot/js/snapshot-calculations.js:79-89 | both maps hold exactly the keys of the insertion order, each once |
| SnapshotCalculations.TallyCounts | snapshot/js/snapshot-calculations.js:82-89 | a type is in the maps iff some row has it with a description; its count is the number of such rows; its description is the last one seen |
| SnapshotCalculations.TallyTotal | snapshot/js/snapshot-calculations.js:82-89 | the counts add up to the number of rows with a type and a description |
| SnapshotCalculations.Entries | snapshot/js/snapshot-calculations.js:91-95 | one entry per key of the insertion order |
| SnapshotCalculations.EntriesSum | snapshot/js/snapshot-calculations.js:91-95 | the entries' counts add up to the maps' counts |
| SnapshotCalculations.EntriesAt | snapshot/js/snapshot-calculations.js:91-95 | the i-th entry is the entry of the i-th key |
| SnapshotCalculations.InsertPermutes | snapshot/js/snapshot-calculations.js:96 | inserting adds exactly the new entry |
| SnapshotCalculations.InsertSorted | snapshot/js/snapshot-calculations.js:96 | inserting into a sorted list keeps it sorted |
| SnapshotCalculations.InsertWithCount | snapshot/js/snapshot-calculations.js:96 | the inserted entry goes ahead of the entries of equal count, whose order is kept |
| SnapshotCalculations.InsertSum | snapshot/js/snapshot-calculations.js:96 | inserting adds the entry's count to the total |
| SnapshotCalculations.SortByCountSpec | snapshot/js/snapshot-calculations.js:96 | the sort is by descending count, is a permutation, is stable (entries of any one count keep their order), and keeps the count total |
| SnapshotCalculations.TallyRow | snapshot/js/snapshot-calculations.js:82-89 | the callback increments the type's count, records its description, and appends a new type to the insertion order |
| SnapshotCalculations.CalculateExcelKPIs | snapshot/js/snapshot-calculations.js:63-120 | the loop over the first sheet's rows yields the Excel KPI object of the workbook |
| SnapshotCalculations.ExcelCountsAgree | snapshot/js/snapshot-calculations.js:71-75 | `totalRecords`, `type152Count` and the summary's count are the number of "152" rows; `totalUnits` and `type152Units` are their quantity sum; 151+152+183 counts ≤ rows |
| SnapshotCalculations.BreakdownSpec | snapshot/js/snapshot-calculations.js:79-96 | the breakdown is sorted by descending count, has one entry per distinct type, and its counts add up to the number of rows with type and description, at most the row count |
| SnapshotCalculations.BreakdownEntries | snapshot/js/snapshot-calculations.js:91-96 | each entry's count is its type's row count, its description is the last one seen, and its percentage is count / rows × 100 |
| SnapshotCalculations.BreakdownCovers | snapshot/js/snapshot-calculations.js:82-96 | every type occurring with a description has an entry |
| SnapshotCalculations.TallyDescriptionTruthy | snapshot/js/snapshot-calculations.js:85-93 | stored descriptions are truthy, so the "Unknown" fallback never applies |
| SnapshotCalculations.ActualTplh | snapshot/js/snapshot-calculations.js:168 | the quotient is `Infinity` iff the hours are 0; otherwise it times the hours is the count |
| SnapshotCalculations.VarianceOf | snapshot/js/snapshot-calculations.js:176-177 | "N/A" iff labor TPH ≤ 0; an infinite actual gives an infinite variance; otherwise variance × TPH = (actual − TPH) × 100 |
| SnapshotCalculations.BalancedIff | snapshot/js/snapshot-calculations.js:188-189 | the 5 % balance test holds iff 20·\|c152 − c151\| < max(c151, c152) |
| SnapshotCalculations.EfficiencyInsights | snapshot/js/snapshot-calculations.js:164-203 | at most two insights; the put insight exists iff the count is positive and comes first, with its actual TPLH the count over the hours and its variance the one of that TPLH against the labor TPH; the ratio insight exists iff both summary counts are positive and comes last, with its ratio and balance status |
| SnapshotCalculations.CalculateEfficiencyInsights | snapshot/js/snapshot-calculations.js:164-203 | pushing the two guarded insights builds exactly that list |
| SnapshotCalculations.PerHour | snapshot/js/snapshot-calculations.js:140-144 | with positive hours the rate times the hours is the amount, else the rate is 0 |
| SnapshotCalculations.CalculateCombinedKPIs | snapshot/js/snapshot-calculations.js:122-162 | the error object iff the input has no `inboundDepartment`; otherwise TPLH × hours = 152 count and TPH × hours = 152 units when hours > 0, both 0 otherwise |
| SnapshotCalculations.KpisFor | snapshot/js/snapshot-calculations.js:7-16 | no result iff both inputs are missing; `labor` present iff labor data is, and then its KPIs; `excel` is the Excel data; `combined` present iff both are, and then always the error object |
| SnapshotCalculations.Snapshot.CalculateKPIs | snapshot/js/snapshot-calculations.js:6-16 | leaves `kpiResults` unchanged when both inputs are missing, else sets it to the three slots |

## Left out

- File reading, XLSX conversion, clipboard and paste handling, and the `fetch` of the item master with its fallback path are I/O. The model starts from the resulting row sequences, the parsed `Sheet1` entries, and the pasted text.
- All DOM and HTML output, `localStorage` persistence, page-lifecycle handling, `console` logging, and the display functions `calculateKPIs` calls are UI or browser plumbing.
- `toFixed`, `toLocaleString` and IEEE-754 rounding are not modelled. Percentages, rates, ratios and variances are exact `real` values (`toFixed` would turn them into strings).
- SnapshotCalculations.BalancedIff: the source compares a floating-point quotient with the double nearest 0.05. The model uses the exact rational 0.05, so inputs within rounding of the boundary may differ.
- `parseFloat`, `parseInt` and `Number` on strings are simplified prefix parsers: an optional sign, digits, a fraction. Exponents, hexadecimal (`0x`), binary (`0b`) and octal (`0o`) literals and `Infinity` are not modelled. Failure reads as 0 (`|| 0`) or as `NaN`.
- Cells.Cell: has no boolean case. A `true`/`false` value from the sheet or the item-master JSON is not modelled (`Number(true)` is 1, and a key `true` stays apart from the key `"true"` in a `Map`).
- Text.ToUpper: maps ASCII letters only. Non-ASCII letters are left as they are, including those whose JavaScript upper case is ASCII (`ı` → `I`, `ſ` → `S`, ligatures such as `ﬀ` → `FF`), so a location written with them is not matched as JavaScript would match it.
- Text.ToLower: maps ASCII letters only, so a non-ASCII letter whose JavaScript lower case is ASCII (the Kelvin sign `K` → `k`) is left as it is in department and area names.
- Numeric cells carry their JavaScript string form as given data; number-to-string formatting is not modelled.
- Workbook property order: the sheets are taken in the order given. JavaScript puts integer-like property names first; that reordering is not modelled.
- The object spread `{...area, hoursPercent}` is modelled as a pair of the area row and its percentage.
- Each pick is annotated in place, and the small-volume list holds references to the same objects. The model keeps values, so later mutation through an alias is not captured; nothing further mutates them in the core.
- `getTplhRating`, `getTphRating`, `getVarianceClass` and `displayInsights` are not part of this model.
- `MISC_RETURN_RCPT` and `MISC_RETURN_PUT` are declared as constants but, as in the source, not used by the core.
