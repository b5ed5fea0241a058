# Monthly debit reconciliation, authorisation middleware and social cases — a Dafny model

This project models the core of a Node.js/Express backend for a foundation (FPUS).

## The monthly debit import

The main piece is the monthly debit import of `debitos.service.js`. A bank sends a workbook of
debit-collection results, and the import goes through these steps:

1. It normalises the sheet's ad-hoc column headers to a fixed set of canonical field names.
2. It reads each row's dates, which come as Excel serials, `DD/MM/YYYY` text, ISO text or `Date`
   cells.
3. It builds a canonical record per row, with the defaults the source gives for missing values.
4. It infers the billing period as the most frequent year and month of the transmission dates.
5. Inside one PostgreSQL transaction, it does the following:
   - it refuses a file whose hash was already imported;
   - it opens a batch (`lotes_importacion`);
   - it inserts one `cobros` row per record whose `cod_tercero` names an approved TITULAR, and
     records an error entry for every other row;
   - it calls `procesar_lote_debitos` and commits.

The database follows PostgreSQL's rules, and the model states the consequences:
- A statement that fails inside `BEGIN` aborts the transaction. Every later statement then fails
  with SQLSTATE 25P02 until `ROLLBACK`.
- A `ROLLBACK` undoes the batch and the cobros, but does not rewind the batch-id sequence.

## The rest of the core

- **`banco.dto.js`**: validates a bank's name on creation and on update.
- **`permisos.middleware.js`**:
  - looks up the first role's entry in the JSON permissions file;
  - gates on the flags `ver` and `editar`, and on `recurso_tipo` keys.
- **`auth.middleware.js`**:
  - takes the bearer token from the `Authorization` header or the `token` query parameter, and
    maps the JWT verifier's errors to replies;
  - checks one or any of the `permisos` the token carries.
- **`social.service.js`**:
  - builds the parameterised statements of the social-case service: the case filters, the
    partial `UPDATE` and the status change;
  - checks case and follow-up ownership with JavaScript's `Number()`;
  - applies the two writes to a case table.
- **`aprobacion.controller.js`**: a transaction in which an administrator approves or rejects a
  pending benefactor registration. It records the decision and notifies the user who loaded the
  benefactor.

## How the model is built

**Pure code** becomes datatypes, functions and lemmas. This covers:
- header normalisation, date parsing and row canonicalisation;
- the validators and the middleware decisions;
- the SQL texts.

**Code that updates state step by step** becomes methods with loop invariants, proved against
those functions. This covers:
- the row loops of the sheet;
- the period count;
- the SQL builders.

**The tables the source writes** are fields of three classes:
- `DebitImport.DebitLedger`;
- `SocialCases.CaseTable`;
- `Approvals.ApprovalDesk`.

**Values from outside the model are parameters.** These are:
- the JavaScript engine's own parsers: `new Date(s)` on free text, and `parseFloat`;
- the JWT verifier;
- the database's insert failures and the result of `procesar_lote_debitos`;
- the point at which a statement of the approval transaction fails.

**Dates** are day numbers counted from 1970-01-01. The proleptic Gregorian calendar arithmetic
follows the `MakeDay` operation of section 21.4.1.28 of ECMA-262 (the ECMAScript language
standard), which `new Date(y, m, d)` uses.

## Behaviour of the code worth knowing

- **Ties in the period vote.** The fold over the keys reduces with `>`, so the LAST of the equally
  frequent keys, in order of first appearance, wins. See `Period.IsLastMostFrequent` and
  `Period.MostFrequentKey`.
- **Row-level isolation.** There is no `SAVEPOINT` around a row:
  - the first failed `INSERT INTO cobros` aborts the transaction;
  - every later statement fails with SQLSTATE 25P02, so every later row is recorded with that
    message;
  - `procesar_lote_debitos` then fails and the whole import is rolled back.

  See `DebitImport.LoadAborted`, `DebitImport.HealthyLoadErrors` and
  `DebitImport.DebitLedger.RunTransaction`.
- **Duplicate files.** The hash is looked up once, before `BEGIN`.
- **Serials.** Serial `45000` is 2023-03-15. `ExcelDates.SameDayThreeWays` states that a day's
  serial, its `DD/MM/YYYY` text and its ISO text parse to the same day.
- **Negative years.** The winning key is read back with `split('-')`, which misreads the key of a
  negative year (see "## Findings"). `Period.DetectPeriod`, and through it the import, model that
  reading; `Period.DetectPeriodCorrected` is the intended one.

## Model

| member | source | states |
|---|---|---|
| HeaderNormalizer.NormalizeHeader | src/services/debitos.service.js:24-108 | the result is always a canonical name (only `a-z0-9_`, no doubled or edge underscore); an empty header gives the empty name; any other header is cleaned and looked up: a cleaned text the alias table knows gives that entry's field, any other comes out as the cleaned text itself |
| HeaderNormalizer.DotActsAsUnderscore | src/services/debitos.service.js:28-39 | a header with a `.` between two pieces normalises as the same header with `_` there (so `Cod.Tercer` and `Cod_Tercer` are alike) |
| HeaderNormalizer.DoubledUnderscoreActsAsOne | src/services/debitos.service.js:28-39 | a header with `__` between two pieces normalises as the same header with a single `_` (so `COD__TERCERO` and `COD_TERCERO` are alike) |
| HeaderNormalizer.LowerCaseIgnored | src/services/debitos.service.js:28 | a header and its lower-cased form normalise alike, so capitals never matter |
| HeaderNormalizer.CharStepsAround | src/services/debitos.service.js:28-37 | a `.` or `_` between two pieces becomes one `_` between their separately cleaned forms (lower case, blanks, dots, accents, filter all work piece by piece) |
| HeaderNormalizer.WhitespaceRunsAppend | src/services/debitos.service.js:29 | `replace(/\s+/g, '_')` on text followed by a piece that starts with a non-blank character replaces the two parts separately |
| HeaderNormalizer.WhitespaceRunsAround | src/services/debitos.service.js:29 | a non-blank character ends a run of blanks and is kept, with the parts on both sides replaced separately |
| HeaderNormalizer.ReplaceDotsAppend | src/services/debitos.service.js:30 | `replace(/\./g, '_')` works character by character |
| HeaderNormalizer.UnaccentAppend | src/services/debitos.service.js:31-36 | the accent replacements work character by character |
| HeaderNormalizer.KeepNameCharsAppend | src/services/debitos.service.js:37 | removing `[^a-z0-9_]` works character by character |
| HeaderNormalizer.DropUnderscoresAppend | src/services/debitos.service.js:38 | dropping a run of leading underscores from joined text stops in the first part unless that part is all underscores |
| HeaderNormalizer.CollapseExtraUnderscore | src/services/debitos.service.js:38 | `replace(/_+/g, '_')` absorbs an underscore placed in front of another one, wherever it stands |
| HeaderNormalizer.CollapseDoubleUnderscore | src/services/debitos.service.js:38 | after the collapse, `__` and `_` between the same two pieces give the same text |
| HeaderNormalizer.NormalizedTextIsCanonical | src/services/debitos.service.js:28-39 | the replace chain (lower case, blanks and dots to `_`, accents dropped, other characters removed, runs collapsed, edges stripped) always yields a canonical name |
| HeaderNormalizer.KeepNameCharsOnly | src/services/debitos.service.js:37 | after removing `[^a-z0-9_]` only name characters remain |
| HeaderNormalizer.CollapseShape | src/services/debitos.service.js:38 | collapsing `_+` leaves no doubled underscore, keeps name characters, keeps the first character and empties only the empty text |
| HeaderNormalizer.StripShape | src/services/debitos.service.js:39 | stripping one leading and one trailing `_` from collapsed text gives a canonical name |
| HeaderNormalizer.DropUnderscores | src/services/debitos.service.js:38-39 | dropping leading underscores gives a suffix of the input that does not start with `_` |
| HeaderNormalizer.NormalizedTextOfCanonical | src/services/debitos.service.js:28-39 | a header that is already a canonical name passes the replace chain unchanged |
| HeaderNormalizer.LowerOfCanonical | src/services/debitos.service.js:28 | `toLowerCase()` leaves name characters unchanged |
| HeaderNormalizer.CharStepsOfCanonical | src/services/debitos.service.js:29-37 | the blank, dot, accent and character-filter replacements leave name characters unchanged |
| HeaderNormalizer.CollapseOfCanonical | src/services/debitos.service.js:38 | text with no doubled underscore is left as it is by the collapse |
| HeaderNormalizer.NormalizeHeaderIdempotent | src/services/debitos.service.js:24-108 | normalising a normalised header changes nothing |
| HeaderNormalizer.AliasesMapIntoCanonicalFields | src/services/debitos.service.js:42-105 | every alias of the mapping table maps to one of the eleven canonical fields |
| HeaderNormalizer.CanonicalFieldsAreFixed | src/services/debitos.service.js:42-105 | every canonical field is a key of the table that maps to itself |
| HeaderNormalizer.SelfMapped | src/services/debitos.service.js:42-105 | a canonical field is its own alias |
| HeaderNormalizer.AliasKeyResolves | src/services/debitos.service.js:107 | a header spelled as a canonical-shaped alias key normalises to that key's field |
| HeaderNormalizer.DoubleUnderscoreKeysUnreachable | src/services/debitos.service.js:62-101 | keys with a doubled underscore (`cod__tercero`, `nom__terc`, `fecha__transmision`, `tipo__cta`, `num__cta`, `fch__pago`) are never produced by the cleaning, so those entries are dead |
| HeaderNormalizer.NameCheckSound | src/services/debitos.service.js:37-39 | the one-pass name check implies the canonical shape |
| Cells.ToText | src/services/debitos.service.js:228-238 | `cell?.toString()`: absent for a blank cell, the text itself for a text cell, and a non-empty text for numbers, booleans and dates |
| Cells.DateString | src/services/debitos.service.js:228 | the text of a `Date` cell is never empty |
| CivilDates.CivilFromDays | src/services/debitos.service.js:267-268 | `getMonth() + 1` and `getDate()` of a day number are a month 1..12 and a day 1..31 |
| CivilDates.CivilFromDaysRoundTrip | src/services/debitos.service.js:267-268 | the calendar date read from a day number converts back to the same day number |
| CivilDates.CivilFromDaysValid | src/services/debitos.service.js:267-268 | the year, month and day read from a day number form a real calendar date: the day lies within its month, 29 February only in a leap year |
| CivilDates.DaysFromCivilInverse | src/services/debitos.service.js:267-268 | a real calendar date is exactly the date read back from its day number, so `getFullYear()` and `getMonth() + 1` are that date's year and month |
| CivilDates.YearOfEraOfParts | src/services/debitos.service.js:267-268 | a day of a 400-year era splits into one year of the era and one day of that year |
| CivilDates.MonthOfYearDayOfParts | src/services/debitos.service.js:267-268 | a day of a March-based year splits into one month and one day of that month |
| CivilDates.CivilOfEraDayRoundTrip | src/services/debitos.service.js:267-268 | within a 400-year era the date of an era day converts back to that day |
| CivilDates.MakeDayInMonth | src/services/debitos.service.js:137 | `new Date(y, m - 1, d)` for a month 1..12 is the day number of `y-m-d` |
| CivilDates.NextMonthStart | src/services/debitos.service.js:137 | the first of month `m` plus the length of `m` is the first of the next month, across year ends |
| CivilDates.MakeDayRollover | src/services/debitos.service.js:137 | a day past the end of its month rolls into the next month by the excess |
| CivilDates.MarchYearLength | src/services/debitos.service.js:267-268 | consecutive March-based years are 365 or 366 days apart, 366 exactly before a leap year |
| CivilDates.YearOfEra | src/services/debitos.service.js:267-268 | the year of an era day and the day within it recompose the era day |
| CivilDates.MonthOfYearDay | src/services/debitos.service.js:267-268 | the month and day of a March-based year day recompose it |
| ExcelDates.ParseExcelDate | src/services/debitos.service.js:115-156 | falsy cells and booleans give `null`; a `Date` cell is kept; a serial `n` gives a date exactly when it is non-zero and its time value is within the ±8.64e15 ms range, and that date is day `n − 25569` counted from 1970-01-01 |
| ExcelDates.MatchIsoDate | src/services/debitos.service.js:142-144 | what the ISO branch turns into a date is a four-digit year with a valid month and day |
| ExcelDates.DmyShapeMatched | src/services/debitos.service.js:134 | text of the shape `d{1,2}[/-]d{1,2}[/-]d{4}` is matched with its three numbers |
| ExcelDates.MatchDmySound | src/services/debitos.service.js:134 | a matched text has the shape the regular expression demands |
| ExcelDates.MatchDmyComplete | src/services/debitos.service.js:134 | every day, separator, month, separator and four-digit year written out is matched, with its values |
| ExcelDates.DmyTextMatched | src/services/debitos.service.js:131-134 | a day, month and year written with `/` or `-` survive `trim()` and are matched back |
| ExcelDates.MatchIsoComplete | src/services/debitos.service.js:142 | every padded `YYYY-MM-DD` of a valid date is matched with its values |
| ExcelDates.IsoTextMatched | src/services/debitos.service.js:131-142 | a padded ISO date survives `trim()`, is not taken by the `DD/MM/YYYY` branch and is matched by the ISO branch |
| ExcelDates.IsoIsNotDmy | src/services/debitos.service.js:134-142 | the two text branches never both match |
| ExcelDates.ParseNonEmptyText | src/services/debitos.service.js:130-131 | a non-empty text cell is parsed from its trimmed text |
| ExcelDates.ParseMatchedDmy | src/services/debitos.service.js:134-139 | a `DD/MM/YYYY` text is the local date `new Date(y, m - 1, d)`, years 0..99 read as 1900..1999 |
| ExcelDates.DateTextOfDmy | src/services/debitos.service.js:135-138 | the text branch for a matched `DD/MM/YYYY` gives that local date |
| ExcelDates.ParseMatchedIso | src/services/debitos.service.js:142-146 | a padded ISO text is the date it names |
| ExcelDates.ParseOtherText | src/services/debitos.service.js:148-152 | any other non-empty text is whatever the engine's own `new Date(s)` gives |
| ExcelDates.SameDayThreeWays | src/services/debitos.service.js:115-156 | the day as `DD/MM/YYYY`, as ISO text and as its serial parses to one and the same day |
| ExcelDates.ParseSerialOfCivil | src/services/debitos.service.js:124-127 | the serial of any date from 1900 to 9999 parses to that date |
| ExcelDates.TwoDigitYears | src/services/debitos.service.js:137-144 | year `0050` is 1950 in `DD/MM/YYYY` text but year 50 in ISO text |
| ExcelDates.DmyRollsOver | src/services/debitos.service.js:137 | a day past the end of its month is accepted and rolls into the next month |
| ExcelDates.ThirtyFirstOfFebruary | src/services/debitos.service.js:137 | `31/02/2024` is read as 2 March 2024 |
| ExcelDates.PadDigits | src/services/debitos.service.js:134 | a number padded to width `w` is `w` digits that read back as the number |
| Workbook.MissingColumns | src/services/debitos.service.js:171 | the missing columns are exactly the required ones not found, in the required order |
| Workbook.Headers | src/services/debitos.service.js:170 | the found columns are the first row's keys, each normalised, in order |
| Workbook.CheckColumns | src/services/debitos.service.js:171-177 | valid exactly when every required column is found; lists the missing ones in order |
| Workbook.ValidateColumns | src/services/debitos.service.js:163-178 | validity and missing list of the first row's normalised headers against `estado`, `cod_tercero`, `fecha_transmision` |
| Workbook.Renamed | src/services/debitos.service.js:221-223 | each cell keeps its value under its normalised header, in column order |
| Workbook.NormalizeRow | src/services/debitos.service.js:219-224 | the `forEach` loop builds the renamed row |
| Workbook.NormalizedRowKeys | src/services/debitos.service.js:221-224 | a key is in the renamed row exactly when some header normalises to it |
| Workbook.LaterColumnWins | src/services/debitos.service.js:221-224 | when two headers normalise alike, the later column's value is kept |
| Workbook.AssignKeys | src/services/debitos.service.js:223 | the assignments define exactly the keys assigned |
| Workbook.AssignLastWins | src/services/debitos.service.js:223 | the last assignment to a key wins |
| Workbook.TextOr | src/services/debitos.service.js:228-238 | `cell?.toString() \|\| d`: the default for blank or empty text, the text otherwise, number and boolean spelled out; never empty when the default is not |
| Workbook.TextOrNull | src/services/debitos.service.js:239 | `observaciones` is `null` exactly for a blank cell or empty text |
| Workbook.Amount | src/services/debitos.service.js:231 | `parseFloat(v) \|\| 0`: numbers as they are, text through the engine's `parseFloat`, anything else 0 |
| Workbook.CanonicalRecord | src/services/debitos.service.js:226-240 | the record's row number is the index plus 2; currency, payment form and account type are never empty; `fecha_pago` falls back to the transmission date |
| Workbook.EmptyRowDefaults | src/services/debitos.service.js:226-240 | a row with no values gives the source's defaults (`DOLAR`, `DEBITO`, amount 0, no dates) |
| Workbook.TextKeptVerbatim | src/services/debitos.service.js:232 | a non-empty `cod_tercero` text is kept as it is |
| Workbook.SheetErrorMessage | src/services/debitos.service.js:252 | every sheet error is reported under the `Error al procesar Excel: ` prefix |
| Workbook.ProcessSheet | src/services/debitos.service.js:186-254 | empty sheet and missing columns are refused in that order; otherwise the data has the file and sheet name, the hash and one canonical record per row |
| Workbook.SheetRecords | src/services/debitos.service.js:218-241 | one record per sheet row |
| Workbook.CanonicalRecords | src/services/debitos.service.js:218-241 | the `map` over the rows produces exactly the sheet's records |
| Workbook.RowRecord | src/services/debitos.service.js:218-240 | one row's record is the canonical record of its renamed row |
| Period.RecordKeys | src/services/debitos.service.js:266-270 | a record contributes at most one period key |
| Period.DatedKeys | src/services/debitos.service.js:265-272 | no more keys than records |
| Period.Distinct | src/services/debitos.service.js:274 | `Object.keys` of the counts: the keys without repetition, in first-seen order |
| Period.MostFrequentKey | src/services/debitos.service.js:265-286 | no key exactly when no record has a date; otherwise the key is the last of the most frequent keys |
| Period.CountDates | src/services/debitos.service.js:265-272 | the counting loop ends with every key's number of occurrences and the keys in first-seen order |
| Period.CountRecord | src/services/debitos.service.js:266-271 | counting one more record keeps the counts exact |
| Period.CountStep | src/services/debitos.service.js:270 | `conteo[clave] = (conteo[clave] \|\| 0) + 1` keeps the counts exact |
| Period.LastMostCounted | src/services/debitos.service.js:284-286 | the `reduce` with `>` returns a key whose count is maximal and strictly above every later key's |
| Period.LastMostFrequentUnique | src/services/debitos.service.js:284-286 | the winning key is determined uniquely |
| Period.DatedKeyCivil | src/services/debitos.service.js:266-269 | every key names the month 1..12 and year of some record's transmission date |
| Period.SplitPeriodKeyOfNonNegativeYear | src/services/debitos.service.js:288 | for years from 0 up, splitting the key on `-` gives back the year and month |
| Period.SplitPeriodKeyOfNegativeYear | src/services/debitos.service.js:288 | for a negative year, the split reads year 0 and the year's magnitude as the month |
| Period.NegativeYearExample | src/services/debitos.service.js:269-288 | serial -700000 is 18 June of year -17; its key `-17-6` is read as year 0, month 17 |
| Period.ReadPeriodKeyRoundTrip | src/services/debitos.service.js:288 | the corrected reading gives back the year and month of every key |
| Period.SplitPartsAreDigits | src/services/debitos.service.js:269-288 | every piece of a split key is a digit string |
| Period.ReadAsWritten | src/services/debitos.service.js:288 | the source's split of the key of a year and month: that year and month from year 0 on, otherwise year 0 and the year's magnitude |
| Period.DetectedPeriodShape | src/services/debitos.service.js:261-291 | a detected period with a positive year is the winning calendar month itself, with month 1..12; a month outside 1..12 comes only with year 0 |
| Period.DetectedPeriodUnique | src/services/debitos.service.js:261-291 | the keys determine the detected period |
| Period.DetectPeriod | src/services/debitos.service.js:261-291 | fails with the no-dates message exactly when no record has a date; otherwise the split, as line 288 reads it, of the last most frequent key, which is the key of a calendar month |
| Period.DetectPeriodCorrected | src/services/debitos.service.js:261-291 | the same failure; otherwise the month 1..12 and year of the last most frequent key, read correctly for every year |
| DebitImport.MakeCobro | src/services/debitos.service.js:369-398 | the inserted cobro carries the titular, the batch and the row; the raw status is stored twice; company, movement type and country are fixed |
| DebitImport.LoadRecords | src/services/debitos.service.js:343-410 | one outcome per record |
| DebitImport.LoadPrefix | src/services/debitos.service.js:343-410 | the loop over one more record takes one more step |
| DebitImport.CobrosPlusErrors | src/services/debitos.service.js:339-408 | `insertadosExitosos + insertadosFallidos` counts every record once |
| DebitImport.LoadOutcomes | src/services/debitos.service.js:343-410 | an inserted record has an approved titular and gives its cobro; a refused one reports its row and code; an unknown code is always refused |
| DebitImport.LoadAborted | src/services/debitos.service.js:402-409 | the transaction ends aborted exactly when some insert of a record with a titular fails |
| DebitImport.HealthyLoadErrors | src/services/debitos.service.js:356-364 | when no insert fails, every error entry is the titular-not-found message |
| DebitImport.LoadCobros | src/services/debitos.service.js:366-400 | every inserted cobro belongs to the batch and is the cobro of some record with a titular |
| DebitImport.ErrorRowOfRecord | src/services/debitos.service.js:357-359 | every error entry names the row of some record |
| DebitImport.ErrorsInRowOrder | src/services/debitos.service.js:343-410 | error entries come in ascending row order when the records do |
| DebitImport.SheetRowsAscending | src/services/debitos.service.js:227 | the rows of a sheet are numbered in ascending order |
| DebitImport.CommittedErrors | src/services/debitos.service.js:343-442 | a committed import lists its not-found rows in sheet order |
| DebitImport.SheetCheck | src/services/debitos.service.js:198-281 | empty sheet, then missing columns, then no dated row: the errors raised before any query, in the source's order |
| DebitImport.Prepare | src/services/debitos.service.js:305-308 | fails exactly as the sheet check says; otherwise the sheet data and the period detected as line 288 reads it |
| DebitImport.DebitLedger.constructor | src/services/debitos.service.js:300-301 | an empty ledger with the given titulares |
| DebitImport.DebitLedger.FindBatchByHash | src/services/debitos.service.js:311-321 | finds a batch with the file's hash exactly when one is recorded |
| DebitImport.DebitLedger.OpenBatch | src/services/debitos.service.js:324-336 | appends the batch with the next sequence id and keeps the invariants |
| DebitImport.DebitLedger.LoadRow | src/services/debitos.service.js:344-409 | one turn of the loop: the cobro appended or the error entry returned, and whether the transaction is aborted |
| DebitImport.DebitLedger.LoadRows | src/services/debitos.service.js:339-410 | the loop appends exactly the cobros of the load and returns its error entries and counts |
| DebitImport.DebitLedger.Rollback | src/services/debitos.service.js:445-447 | batches and cobros return to their state at `BEGIN`; the sequence is not rewound |
| DebitImport.DebitLedger.RunTransaction | src/services/debitos.service.js:324-447 | an aborted load or a failing `procesar_lote_debitos` rolls back everything; otherwise the batch, its cobros and counts are committed and `errores` is `null` exactly when no row failed |
| DebitImport.DebitLedger.ImportRecords | src/services/debitos.service.js:310-447 | an already imported hash is refused with the earlier file name; otherwise as the transaction |
| DebitImport.DebitLedger.Import | src/services/debitos.service.js:300-451 | the whole import: sheet errors, duplicate, aborted load or procedure failure change no table; a success records one batch whose period is the one detected as line 288 reads it, and its cobros |
| DebitImport.DebitLedger.NewCobrosRecorded | src/services/debitos.service.js:369-398 | cobros inserted under the newest batch belong to a recorded batch |
| BankDto.LengthErrors | src/dtos/banco.dto.js:11-14 | no error exactly when the trimmed name has at least 3 UTF-16 units and the name at most 100 |
| BankDto.ValidateCreation | src/dtos/banco.dto.js:5-24 | valid exactly when a non-empty name string passes the length checks; a missing, null or empty name is "requerido"; the data is the trimmed upper-cased name |
| BankDto.ValidateUpdate | src/dtos/banco.dto.js:26-47 | an absent name is valid with no data; `null` is "debe ser texto"; a string gets the length checks; data only for a non-empty name |
| BankDto.EmptyUpdate | src/dtos/banco.dto.js:33-45 | an empty name on update fails the minimum length and carries no data |
| BankDto.CreationMatchesUpdate | src/dtos/banco.dto.js:9-36 | for a non-empty name both validators agree |
| BankDto.NormalizedIsFixed | src/dtos/banco.dto.js:21 | trimming and upper-casing twice is the same as once |
| BankDto.UpperUtf16Length | src/dtos/banco.dto.js:21 | `toUpperCase()`, under the modelled case mapping, never shortens a name and keeps its length without `ß` |
| BankDto.TrimUtf16Length | src/dtos/banco.dto.js:11 | `trim()` never lengthens a name |
| BankDto.RevalidationIdempotent | src/dtos/banco.dto.js:5-24 | a valid name without `ß` normalises to a valid name that normalises to itself |
| BankDto.SharpSRevalidation | src/dtos/banco.dto.js:13-21 | a valid name of 51 `ß` upper-cases to 102 letters, which the same validator refuses |
| BankDto.PaddingCounts | src/dtos/banco.dto.js:11-13 | the minimum is checked on the trimmed name but the maximum on the untrimmed one: a 100-unit name with a leading space is too long |
| RolePermissions.PermissionKeysDistinct | src/middleware/permisos.middleware.js:132-134 | different permission types of one resource give different keys |
| RolePermissions.CheckPermission | src/middleware/permisos.middleware.js:106-153 | `verificarPermiso`: refusals are 403 or 500 |
| RolePermissions.CheckFlag | src/middleware/permisos.middleware.js:18-59 | `verificarPermisoVer` / `verificarPermisoEditar`: refusals are 403 or 500 |
| RolePermissions.NoRolesForbidden | src/middleware/permisos.middleware.js:23-28 | without roles all three checks answer 403 with their messages, before the file is read |
| RolePermissions.UnreadableFileFails | src/middleware/permisos.middleware.js:30-36 | an unreadable or unparsable permissions file is a 500 |
| RolePermissions.FirstRoleOnly | src/middleware/permisos.middleware.js:39 | only the first role counts: further roles change no decision |
| RolePermissions.WalkPermission | src/middleware/permisos.middleware.js:40-42 | the path `permisos_por_rol[rol].permisos[key]` read one object at a time |
| RolePermissions.CheckPermissionPasses | src/middleware/permisos.middleware.js:127-141 | with roles and a file, passes exactly when the first role's entry for the permission key is truthy |
| RolePermissions.CheckFlagPasses | src/middleware/permisos.middleware.js:39-47 | with roles and a file, passes exactly when the first role's `permisos[recurso].ver` (or `.editar`) is truthy |
| JsonValues.Get | src/middleware/auth.middleware.js:84 | `v[k]` is defined exactly for an object holding `k`, and is that member |
| JsonValues.OptionalGet | src/middleware/permisos.middleware.js:42 | `v?.[k]` is undefined on a nullish value and a plain read otherwise |
| TokenAuth.ExtractToken | src/middleware/auth.middleware.js:8-13 | a found token is never empty |
| TokenAuth.BearerToken | src/middleware/auth.middleware.js:8 | `Bearer <t>` gives `t`, whatever the query says |
| TokenAuth.QueryFallback | src/middleware/auth.middleware.js:11-13 | without a usable header the non-empty query parameter is the token |
| TokenAuth.VerifyToken | src/middleware/auth.middleware.js:5-61 | refusals are 401 (no token, invalid, expired) or 500 (any other verifier error) |
| TokenAuth.AuthenticatedIff | src/middleware/auth.middleware.js:27-35 | a request is authenticated with a payload exactly when a token is found and the verifier returns that payload |
| TokenAuth.MissingTokenIgnoresVerifier | src/middleware/auth.middleware.js:15-25 | without a token the reply is 401 whatever the verifier would say |
| TokenAuth.Permissions | src/middleware/auth.middleware.js:70 | the user's permission map is present exactly when the payload is an object with `permisos` |
| TokenAuth.RequirePermission | src/middleware/auth.middleware.js:67-117 | `verificarPermiso`: refusals are 403, or 500 when `req.usuario` is missing |
| TokenAuth.AnyGrantedExists | src/middleware/auth.middleware.js:135 | `some` holds exactly when some listed permission is truthy |
| TokenAuth.RequireAny | src/middleware/auth.middleware.js:123-153 | `verificarCualquierPermiso`: refusals are 403, or 500 when `req.usuario` is missing |
| TokenAuth.RequireAnyPasses | src/middleware/auth.middleware.js:126-144 | passes exactly when the user exists and holds at least one listed permission |
| TokenAuth.EmptyAlternativesRefused | src/middleware/auth.middleware.js:135-142 | an empty list of alternatives is never satisfied |
| TokenAuth.SingleMatchesAny | src/middleware/auth.middleware.js:84-140 | one required permission and a one-element list of alternatives pass alike, and differ only in the message |
| TokenAuth.MoreAlternativesPass | src/middleware/auth.middleware.js:135 | adding alternatives never turns a pass into a refusal |
| TokenAuth.MorePermissionsPass | src/middleware/auth.middleware.js:126-144 | a user holding more permissions passes every check another passes |
| JsText.TrimStart | src/dtos/banco.dto.js:11 | removes exactly the leading white space |
| JsText.TrimEnd | src/dtos/banco.dto.js:11 | removes exactly the trailing white space |
| JsText.TrimIsTrimmed | src/dtos/banco.dto.js:21 | `trim()` leaves no white space at either end and is idempotent |
| JsText.ToUpperAppend | src/dtos/banco.dto.js:21 | `toUpperCase()` works character by character |
| JsText.ToUpperIdempotent | src/dtos/banco.dto.js:21 | upper-casing twice is upper-casing once |
| JsText.ToUpperKeepsTrimmed | src/dtos/banco.dto.js:21 | upper-casing a trimmed text keeps it trimmed and non-empty |
| JsText.ToUpperLength | src/dtos/banco.dto.js:21 | under the modelled case mapping, upper-casing never shortens and keeps the length without `ß` |
| JsText.ToLowerAppend | src/services/debitos.service.js:28 | `toLowerCase()` works character by character |
| JsText.ToLowerIdempotent | src/services/debitos.service.js:28 | lower-casing twice is lower-casing once |
| JsText.ToLowerByChars | src/services/debitos.service.js:28 | a text whose every character lower-cases to one given character lower-cases to the text of those characters |
| JsText.TrimStartAppend | src/services/debitos.service.js:29 | trimming the start of text followed by a piece that starts with a non-blank character trims only the first part |
| JsText.NatToString | src/services/debitos.service.js:269 | the decimal text of a number is a non-empty digit string |
| JsText.DecimalOfNatToString | src/services/debitos.service.js:288 | `Number` of the decimal text of `n` is `n` |
| JsText.NatToStringInjective | src/services/debitos.service.js:269 | different numbers have different texts |
| JsText.Split | src/middleware/auth.middleware.js:8 | `split` always yields at least one piece |
| JsText.SplitWithout | src/middleware/auth.middleware.js:8 | text without the separator splits into itself |
| JsText.SplitAt | src/middleware/auth.middleware.js:8 | a separator after separator-free text splits off that text |
| SqlText.DigitRun | src/services/social.service.js:213 | the length of the leading run of digits |
| SqlText.PlaceholdersAppend | src/services/social.service.js:73-120 | gluing text to a piece that does not start with a digit neither adds nor joins placeholders |
| SqlText.PlaceholderNumber | src/services/social.service.js:213 | the text `$n` refers to exactly placeholder `n` |
| SqlText.PlaceholdersJoin | src/services/social.service.js:227 | `join(', ')` keeps exactly the placeholders of the pieces |
| SqlText.PlaceholdersWithoutDollar | src/services/social.service.js:225-230 | text without `$` holds no placeholder |
| SocialQueries.PresentFields | src/services/social.service.js:211-212 | the fields given in the body (`!== undefined`), from the updatable list, in its order |
| SocialQueries.CollectAssignments | src/services/social.service.js:201-217 | the `forEach` builds one `campo = $n` clause and one value per present field, with `paramCount` one past them |
| SocialQueries.BuildUpdate | src/services/social.service.js:219-230 | refuses a body with no updatable field; otherwise the id is the last value and the `WHERE` placeholder |
| SocialQueries.UpdatePlaceholders | src/services/social.service.js:213-228 | the `UPDATE` text uses exactly `$1` to `$(n+1)` for its `n + 1` values |
| SocialQueries.UpdateBindings | src/services/social.service.js:211-216 | the `i`-th clause assigns the `i`-th present field the body's value for it |
| SocialQueries.UpdatableFieldsArePlain | src/services/social.service.js:205-209 | no updatable column name holds a `$` or starts with a digit |
| SocialQueries.GivenFiltersMembers | src/services/social.service.js:71-118 | a filter is applied exactly when its query parameter is truthy |
| SocialQueries.AddFilter | src/services/social.service.js:72-76 | one `if (filtros.x)` block adds its condition and value and advances `paramCount` only when the filter is given |
| SocialQueries.BuildFilterQuery | src/services/social.service.js:62-124 | the text and values are those of the given filters in order, under the fixed `SELECT` and ordered by registration |
| SocialQueries.ConditionPlaceholders | src/services/social.service.js:114-117 | each condition uses its own single placeholder; the search repeats it for name and id |
| SocialQueries.FilterPlaceholders | src/services/social.service.js:63-120 | the filter query uses exactly `$1` to `$n` for its `n` values |
| SocialQueries.FilterBindings | src/services/social.service.js:94-116 | every bound value is the given one, wrapped in `%` for `ciudad` and `busqueda` |
| SocialQueries.BuildStatusUpdate | src/services/social.service.js:252-274 | an invalid status is refused before any statement; the values are status, id and a truthy `observaciones` |
| SocialQueries.StatusPlaceholders | src/services/social.service.js:259-274 | the status statement uses `$1` to `$3` with observations and `$1` to `$2` without, one per value |
| SocialQueries.StatusSetListPlaceholders | src/services/social.service.js:260-272 | the `SET` list refers to `$1`, and to `$3` just when observations are given |
| SocialCases.CheckOwner | src/services/social.service.js:156-164 | succeeds exactly when the row exists and `Number(loader) === Number(idUsuario)`; not found before unauthorised |
| SocialCases.TextIdMatches | src/services/social.service.js:160 | `Number` of an id's decimal text is the id |
| SocialCases.TextIdOwnership | src/services/social.service.js:160-185 | an id given as text owns exactly the cases of the loader with that numeric id, for cases and follow-ups |
| SocialCases.NaNNeverOwns | src/services/social.service.js:160 | a value that is not a number owns nothing, itself included |
| SocialCases.NullLoaderOwnedByZero | src/services/social.service.js:160 | a case with a `NULL` loader is owned by user 0 and not by user 1 |
| SocialCases.NullLoaderOwnedByEmptyId | src/services/social.service.js:160 | ... and by the empty-string user id |
| SocialCases.PlusSignIgnored | src/services/social.service.js:160 | a leading `+` does not change the number |
| SocialCases.Assigned | src/services/social.service.js:205-216 | the written columns are exactly the updatable fields the body gives, with the body's values |
| SocialCases.ApplyFromData | src/services/social.service.js:213-214 | applying each column its value from the body overwrites exactly those columns |
| SocialCases.WritesPresentFields | src/services/social.service.js:211-232 | the built clauses and values write the body's entries for the present fields |
| SocialCases.UpdateWritesAssigned | src/services/social.service.js:225-232 | executing the built `UPDATE` writes the assigned columns into the row and nothing else |
| SocialCases.NothingPresentIffNothingAssigned | src/services/social.service.js:219-221 | the builder refuses exactly the bodies that assign nothing |
| SocialCases.StatusStatementWrites | src/services/social.service.js:259-276 | the status statement writes the status, today's closing date when `Cerrado`, and truthy observations |
| SocialCases.StatusChangesAreUpdatable | src/services/social.service.js:265-272 | a status change writes only updatable columns, always `estado`, and `fecha_cierre` exactly when closing |
| SocialCases.UpdateSkipsStatusCheck | src/services/social.service.js:205-217 | the general update writes an `estado` that the status change would refuse |
| SocialCases.CaseTable.constructor | src/services/social.service.js:195-196 | a table holding the given rows |
| SocialCases.CaseTable.Update | src/services/social.service.js:195-247 | no field: refused, nothing changes; unknown id: not found, rolled back; otherwise the row gets the assigned columns and is returned |
| SocialCases.CaseTable.ChangeStatus | src/services/social.service.js:252-283 | invalid status: refused; unknown id: not found; otherwise the row gets the status changes and is returned |
| Approvals.Title | src/controllers/aprobacion.controller.js:171-173 | the approval title exactly for an approval |
| Approvals.NotificationFor | src/controllers/aprobacion.controller.js:170-181 | the notification goes to the loader, is of type `APROBACION_BENEFACTOR` and its title tells the decision |
| Approvals.MessageNamesBenefactor | src/controllers/aprobacion.controller.js:174-176 | every message opens by naming the benefactor |
| Approvals.ApprovalIgnoresComment | src/controllers/aprobacion.controller.js:175 | an approval's message does not depend on the comment |
| Approvals.EmptyCommentIsNoReason | src/controllers/aprobacion.controller.js:176 | an empty comment reads as none |
| Approvals.RejectionEndsWithReason | src/controllers/aprobacion.controller.js:176 | a rejection with a comment ends with `. Motivo: ` and the comment |
| Approvals.RejectionWithoutReason | src/controllers/aprobacion.controller.js:176 | a rejection without a comment ends with a full stop |
| Approvals.MessagesTellDecisions | src/controllers/aprobacion.controller.js:174-176 | the approval and the rejection of one benefactor read differently, whatever the comments |
| Approvals.DecidedIsNotPending | src/controllers/aprobacion.controller.js:147 | neither decision is `PENDIENTE` |
| Approvals.LowerOfCapitals | src/controllers/aprobacion.controller.js:188 | `toLowerCase()` of capitals `A`-`Z` shifts each letter by 32 |
| Approvals.ApprovedInLowerCase | src/controllers/aprobacion.controller.js:188 | the reply says `aprobado` |
| Approvals.RejectedInLowerCase | src/controllers/aprobacion.controller.js:188 | the reply says `rechazado` |
| Approvals.ApprovalDesk.constructor | src/controllers/aprobacion.controller.js:116-117 | the given benefactors and users, no decisions and no notifications yet |
| Approvals.ApprovalDesk.Decide | src/controllers/aprobacion.controller.js:116-202 | unknown benefactor 404, processed one 400, a failing statement 500, each changing nothing; otherwise 201 with the new state, one decision and one notification recorded |
| Approvals.ApprovalDesk.Record | src/controllers/aprobacion.controller.js:155-192 | the transaction commits exactly when no statement fails; then the benefactor row, the decision and the notification are all written, otherwise none of them is |
| Approvals.ApprovalDesk.DecideTwice | src/controllers/aprobacion.controller.js:137-153 | a pending registration is decided once: a second decision is refused with 400 |

## Left out

- Reading the workbook: `XLSX.read` and sheet conversion, treated as given rows of cells; the SHA-256 file hash, treated as a given string; the log lines.
- Time zones: every date is a day number at local midnight taken as UTC, and time-of-day parts of `Date` cells are not modelled.
- Fractional serials: a serial cell holds an integer number of days.
- `parseFloat` and `new Date(s)` on free text (the last attempt of the date parser): the engine's own parsers, left as parameters.
- ExcelDates.ParseExcelDate: `Date` cells are assumed valid; an invalid `Date` object (which gives `null`) is not modelled.
- The duplicate message's date, formatted with `toLocaleString('es-EC')`: only the earlier file name is kept.
- The body of `procesar_lote_debitos` and the other read-only queries of `debitos.service.js`: its result is a parameter.
- Concurrent imports and the unique constraint on the hash: one import at a time.
- BankDto: non-string `nombre` values other than `null` (numbers, objects) are not modelled.
- BankDto.RevalidationIdempotent: requires a name without `ß`, because `toUpperCase()` turns one `ß` into two letters and the upper-cased name can then exceed 100 units (see SharpSRevalidation).
- JsText.ToUpper: full Unicode case mapping is reduced to ASCII, Latin-1 and `ß`; other characters that grow when upper-cased (such as `ŉ`, `ﬁ` or `ΐ`) keep their length here, so JsText.ToUpperLength holds of the reduced mapping only.
- JsText.ToLower: `toLowerCase()` is reduced to ASCII, Latin-1 capitals, `İ` (to `i` with a combining dot), the Kelvin sign and the Angstrom sign; other capitals (Greek, Cyrillic, Latin Extended) are left unchanged, so a header spelled in them is filtered differently from the engine.
- Cells.Cell: a number cell holds an integer, so fractional amounts such as `25.50` and exponent-form numbers are not modelled; Cells.ToText therefore renders only integer numbers, and Workbook.Amount passes on only integer amounts of number cells.
- Approvals.Link: the link is built from the integer id through its decimal text, while the source interpolates the request's `idBenefactor` as sent, so a body id such as `"007"` or `"+7"` (accepted by the integer check) would appear as `007` or `+7` in the source's link and as `7` here.
- RolePermissions: roles are a sequence of `id_rol` numbers; role entries of other shapes, and the file's structure beyond what the check reads, are not modelled.
- TokenAuth: `jwt.verify` and the secret are a parameter; the 500's `error.message` detail is not kept.
- JsonValues: property reads on arrays and strings (indices, `length`) and prototype keys give `undefined` here.
- SocialCases.ToNumber: `Number()` only on integers; decimals, exponents, hexadecimal and `Infinity` are not modelled.
- Query-string filters are strings; numeric ids are integer keys of the case table.
- Approvals: the request validator of src/dtos/aprobacion.dto.js:3-15 is taken as having run, so the decision is `APROBADO` or `RECHAZADO` (the datatype `Approvals.Decision`); its trimming and 500-character limit of `comentario` are not modelled.
- HeaderNormalizer: the concrete spellings `Cod.Tercer` and `COD__TERCERO` are not evaluated literally; DotActsAsUnderscore, DoubledUnderscoreActsAsOne and LowerCaseIgnored state for every header what those spellings rely on, and AliasKeyResolves gives the field of every canonical-shaped key.
- Approvals: the columns `RETURNING *` sends back are not modelled, and the route's permission middleware is not part of this model.
- `crearBeneficiarioSocial`, `obtenerBeneficiarioSocialPorId` and the follow-up and photo functions of `social.service.js` are outside the modelled core.
- SocialQueries.AddFilter, SocialQueries.CollectAssignments and Approvals.ApprovalDesk.Record structure inline code of the source as separate methods.

## Findings

| source | as written | input that shows it | evidently intended | confidence | as-written member | corrected member |
|---|---|---|---|---|---|---|
| src/services/debitos.service.js:288 | `const [anio, mes] = clave.split('-').map(Number)` reads the first two pieces of the key built at line 269 | a transmission date with a negative year, e.g. the serial cell -700000 (18 June of year -17), gives the key `-17-6`, read as year 0 and month 17 | the key reads back as the year and month that built it | not executed; low impact, since bank files carry dates after 1900 | Period.SplitPeriodKeyOfNegativeYear, Period.DetectPeriod | Period.ReadPeriodKeyRoundTrip, Period.DetectPeriodCorrected |
