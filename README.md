# Custom-metric source table: validation and desired-state builder

This project models the core of a Google Apps Script that keeps a Google Analytics
property's custom metrics in line with a spreadsheet. The sheet holds one default
row and 200 slot rows. Each row has four text cells: Name, Scope, Type and Active.
The model covers:

- the row classifiers `isEmpty` and `isValid` (module `Validator`);
- the id `'ga:metric' + n` of slot n, and its inverse (module `MetricIds`);
- `buildSourceData` and `isValidSheet` (module `SourceTable`). Each is a method with
  a `while` loop, as in the script, proved equal to a functional specification
  (`SourceData`, `SheetCheck`);
- the action dispatch of `updateMetric` (module `MetricRequests`). It returns the
  update or insert request that it would send to the management service.

The spreadsheet is abstracted: the default row and the slot rows are parameters,
and `SourceTable.Sheet` shows where the script reads them.

Three choices in the script that the model keeps as they are:

- Ids are `ga:metric<N>`, as the script builds them (Code.gs.js:86).
- Scope, Type and Active are matched by unanchored regular expressions. So a cell
  passes if it *contains* an allowed value, and it need not *equal* one. The model
  keeps this behaviour (`IsValid`). The strict reading is a separate predicate,
  `IsValidStrict`, which is proved to imply `IsValid` but not the other way round.
- A record built from an empty row carries no id.

## Model

| member | source | states |
|---|---|---|
| Validator.IsEmpty | Code.gs.js:60-62 | isEmpty: every cell matches `/^$/`. Its meaning is stated by `IsEmptyExactly` and `EmptyIsNotValid`. |
| Validator.IsValid | Code.gs.js:64-70 | isValid: a non-empty name and three unanchored alternation tests. Its meaning is stated by `IsValidMeaning` and `ValidRowHasNoEmptyField`. |
| MetricIds.MetricId | Code.gs.js:86 | 'ga:metric' + n. Its meaning is stated by `MetricIdRoundTrip`, `ParseMetricIdSound` and `MetricIdInjective`. |
| SourceTable.SourceData | Code.gs.js:72-103 | What buildSourceData computes from a default row and the slot rows. Its meaning is stated by `InvalidDefaultFailsFirst`, `FirstRejectedRowFailsBuild`, `SourceDataShape` and `EmptyRowsCopyDefault`. |
| SourceTable.DefaultEntry | Code.gs.js:94-99 | The record of an empty row: each default cell with its `\|\|` fallback. `EmptyRowsCopyDefault` states that the fallbacks never apply after validation. |
| SourceTable.OrElse | Code.gs.js:95-98 | JavaScript's `\|\|` on a string, where "" is the only falsy string. |
| SourceTable.CheckFromSheet | Code.gs.js:129-131 | isValidSheet reading its default from sheet row 2. `BuildFromSheet` and `AsWrittenRejectsCheckedSheet` state its relation to the build. |
| SourceTable.BuildFromSheetAsWritten | Code.gs.js:72-74 | buildSourceData reading its default from sheet row 3, as written. `AsWrittenRejectsCheckedSheet` and `AsWrittenFillsFromSlotOne` show where it differs from the sheet check. |
| Validator.IsEmptyExactly | Code.gs.js:60-62 | A row is empty exactly when all four cells are the empty string. Whitespace-only cells are not empty. |
| Validator.EmptyIsNotValid | Code.gs.js:60-69 | No row is both empty and valid. |
| Validator.ContainsIffOccurs | Code.gs.js:69 | The unanchored literal regex test succeeds exactly when the literal occurs somewhere in the cell. |
| Validator.IsValidMeaning | Code.gs.js:64-70 | A row is valid iff all of these hold: the name is non-empty; scope contains HIT or PRODUCT; type contains INTEGER, CURRENCY or TIME; active contains true or false. |
| Validator.ValidRowHasNoEmptyField | Code.gs.js:69 | A valid row has no blank cell. |
| Validator.StrictImpliesLoose | Code.gs.js:69 | A row whose cells equal allowed values passes the loose test. |
| Validator.LooseAcceptsNonEnumValues | Code.gs.js:69 | The loose test accepts cells that are not allowed values, such as scope "HITS". |
| MetricIds.NatToDecimal | Code.gs.js:86 | A number prints as a non-empty canonical decimal numeral. It starts with '0' only for zero. |
| MetricIds.DecimalValueOfNatToDecimal | Code.gs.js:86 | Reading the printed numeral back gives the original number. |
| MetricIds.NatToDecimalOfDecimalValue | Code.gs.js:86 | Every canonical numeral is the printed form of its value. |
| MetricIds.MetricIdRoundTrip | Code.gs.js:86 | The slot number can be recovered from 'ga:metric' + n. |
| MetricIds.ParseMetricIdSound | Code.gs.js:86 | Every id that parses to n is exactly 'ga:metric' + n. |
| MetricIds.MetricIdInjective | Code.gs.js:86 | Two slots have the same id only if they are the same slot. |
| SourceTable.FirstRejected | Code.gs.js:80-83 | Finds the first row that is neither empty nor valid, with all earlier rows accepted. Returns none iff no row is rejected. |
| SourceTable.SheetCheck | Code.gs.js:129-142 | The check passes iff the default row is valid and no slot row is rejected. On failure it names either the default row or the first rejected slot. |
| SourceTable.BuildSourceData | Code.gs.js:72-103 | The loop's result equals the specification `SourceData`: the default-row error, the first-rejected-slot error, or one record per row. |
| SourceTable.IsValidSheet | Code.gs.js:129-142 | The loop's outcome equals `SheetCheck`. |
| SourceTable.InvalidDefaultFailsFirst | Code.gs.js:75-77 | An invalid default row fails the build before any slot is inspected, whatever the slots hold. |
| SourceTable.FirstRejectedRowFailsBuild | Code.gs.js:80-83 | The first non-empty invalid row at index i fails the whole build with slot i+1. No list is produced. |
| SourceTable.NameOnlyRowIsRejected | Code.gs.js:81 | A row with only its name filled is rejected, not treated as empty. |
| SourceTable.SourceDataShape | Code.gs.js:78-102 | A successful build has one record per row, in order. A filled row gives id ga:metric(i+1) and its cells verbatim. An empty row gives a record with no id. |
| SourceTable.EmptyRowsCopyDefault | Code.gs.js:93-99 | Once the default row is validated, the `\|\|` fallbacks never fire: an empty row's record is the default row's cells. |
| SourceTable.EntryIdsArePositional | Code.gs.js:84-86 | The id of record i names slot i+1. |
| SourceTable.EntryIdsAreDistinct | Code.gs.js:84-86 | No two records of a built list share an id. |
| SourceTable.SheetCheckAgreesWithBuild | Code.gs.js:133-141 | For the same default and slot rows, isValidSheet passes exactly when buildSourceData does not throw. When both fail, they fail with the same error kind and slot. |
| SourceTable.AllEmptyYieldsDefaults | Code.gs.js:93-99 | 200 empty slots under the default ("Sessions","HIT","INTEGER","true") give 200 copies of that default, none with an id. |
| SourceTable.OneFilledSlot | Code.gs.js:84-99 | A table with only slot 5 filled builds successfully. Slot 5 gets id "ga:metric5" and its own cells. The other 199 slots copy the default. |
| SourceTable.BuildFromSheet | Code.gs.js:72-77 | Reading the default from sheet row 2: the build succeeds exactly when the sheet check passes, and empty slots copy row 2. |
| SourceTable.AsWrittenRejectsCheckedSheet | Code.gs.js:74 | As written, a sheet that isValidSheet accepts can still make buildSourceData throw. |
| SourceTable.AsWrittenFillsFromSlotOne | Code.gs.js:74 | As written, a sheet with slot 1 filled and a different DEFAULT/EMPTY row builds. Slot 1 keeps its id ga:metric1, and every one of slots 2..200 gets slot 1's four cells with no id, instead of the DEFAULT/EMPTY row's. |
| MetricRequests.UpdateMetric | Code.gs.js:105-112 | The action decides the request. 'update' sends an update of the id naming slot index, with ignoreCustomDataSourceLinks set. 'create' sends an insert. Any other action sends nothing. Account, property and body are passed through. |
| MetricRequests.UpdateTargetsEntrySlot | Code.gs.js:107 | Updating slot i+1 with record i of a built list targets the id that record carries. |

## Left out

- buildSourceSheet (Code.gs.js:3-46) is not modelled. It formats the sheet, writes labels and sets up data validation, all through the spreadsheet service. This includes writing hard defaults into an empty default row.
- fetchAccounts, include, openMetricModal and onOpen are not modelled. They are calls into the Analytics, HtmlService and spreadsheet UI services, so the missing-sheet error of openMetricModal is not modelled either.
- startProcess is not modelled. It only passes the remote list and the built list to the ProcessMetrics HTML template. That template, and the create-or-update walk over slots 1..limit inside it, is not part of this model.
- The Analytics update, insert and list calls (transport, authorisation, responses, remote errors) are not modelled. UpdateMetric returns the request it would send instead of the service's reply.
- Error message texts are not modelled. An error carries its kind and, for a slot row, the slot number. The message's id is `MetricId(slot)`.
- Cells are modelled as strings only. The sheet forces text format, so JavaScript's coercion of other cell values in the regex tests is out of scope.
- UpdateMetric takes the slot index as a natural number. Its callers live in the HTML template, which is not part of this model.

## Findings

| source | as written | input that shows it | evidently intended | confidence | as-written member | corrected member |
|---|---|---|---|---|---|---|
| Code.gs.js:74 | buildSourceData reads its default row from sheet row 3, which is slot 1 | row 2 = ("Sessions","HIT","INTEGER","true") and slots 1..200 empty. isValidSheet returns true, but buildSourceData throws "Invalid source value found in DEFAULT/EMPTY row" | read the default from sheet row 2, where buildSourceSheet (lines 9-14) writes it and isValidSheet (line 130) reads it | high; not executed | SourceTable.BuildFromSheetAsWritten, shown by SourceTable.AsWrittenRejectsCheckedSheet | SourceTable.BuildFromSheet |
