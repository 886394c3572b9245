# game-request-generator, modelled in Dafny

game-request-generator keeps, per game, a catalogue of milestones and tracks each account's progress through them. A milestone is either a *level* (an event token, a name, a day offset, a time spent, a bonus flag) or a *purchase event* (a token, a restriction flag, an optional "less than N days" cap). Each account has a start date and time and a request template. Its progress is kept in two tables, one keyed by (account, level) and one by (account, purchase event).

This project models the parts of the repository that compute something. There are five groups.

- **The daily-task scheduler of the front end.**
  - `taskGenerator.ts`: groups an account's returned requests into session/event pairs keyed by (token, time spent), sorts them, gives every group a scheduled instant, and deals the groups round-robin into batches of at most one account per game.
  - `daily-tasks.utils.ts` and `timer.utils.ts`: decide whether a task is ready from the previous batches, the cooldown since its last completion and the first-request gate, and print the remaining time.
  - `taskCompletion.ts`: records a completed request and drops the tasks and batches that are done.
- **The progress service of the back end** (`progress_service.rs`). Its insert, upsert, update and query statements are modelled as operations on two maps held by a class.
- **The spreadsheet import and export helpers.**
  - `excel-parser.ts` and the parse helpers of `excel.service.ts`: the row parsers, the account-detail vertical layout with its date and time normalisation, the sheet-name dispatch, and the "(C)" progress marks.
  - `excel-column-builder.ts`: the export columns, date matrix and column styles.
  - `excel-styling.ts` and the colour picker's `parseRgb`: `rgbToHex` and the way it round-trips with `parseRgb`.
- **The page logic.**
  - `AccountFormPage`: the 12-hour time parser and formatter.
  - The column memos of the game, level-list and account pages, which sort levels by day and insert one synthetic session level for every missing day, timed by interpolation.
- **The validators and error classifiers** (`src/utils/validation/*`, `validation.ts`, and the three error-handling files).

JavaScript and Rust built-ins are modelled explicitly where the code depends on them:
- `trim` uses the ECMAScript white-space set.
- `parseInt` auto-detects the radix.
- `Array.prototype.sort` is a stable sort by the comparator (`Lists.SortBy`, `Lists.SortWith`).
- `Math.round` of a quotient of whole numbers is computed exactly (`JsMath.RoundDiv`).
- `||` treats 0, `""` and a missing value as false.

Loops in the source that update variables are `method`s with loop invariants. Each method is proved equal to a specification function, and the properties are proved about those functions.

The due-request computation behind `get_daily_requests` and `RequestProcessor.processRequestContent` is not part of this model. No file of the repository implements it: the front end only calls the command, and the back end registers commands for games, levels and accounts only. The model follows the code. For example, `update_purchase_event_progress` with `is_completed = false` leaves `completed_at` as it was, so a purchase row can be uncompleted and still carry a completion time.

## Model

| member | source | states |
|---|---|---|
| ErrorHandling.HandleApiError | src/utils/errorHandling.ts:26-44 | a text error gives API_ERROR carrying that text; an error with a message gives API_ERROR with it; else a `response.data.message` gives that message with the data's code, or API_ERROR when the code is empty; anything else gives UNKNOWN_ERROR "An unexpected error occurred" |
| ErrorHandling.HandleValidationError | src/utils/errorHandling.ts:49-55 | code VALIDATION_ERROR and message "Validation failed for <field>" |
| ErrorHandling.HandleTauriError | src/utils/errorHandling.ts:60-78 | a message containing "UNIQUE constraint failed" gives DUPLICATE_ERROR, checked first; else "FOREIGN KEY constraint failed" gives FOREIGN_KEY_ERROR; else the result of HandleApiError |
| ErrorHandling.MappedMessage | src/utils/errorHandling.ts:92-98 | VALIDATION_ERROR maps to the error's own message; API_ERROR, DUPLICATE_ERROR, FOREIGN_KEY_ERROR and UNKNOWN_ERROR map to fixed non-empty texts; every other code is unmapped |
| ErrorHandling.GetUserMessage | src/utils/errorHandling.ts:90-101 | never empty; VALIDATION_ERROR and unmapped codes show the error's own message, or "An error occurred" when it is empty; API_ERROR, DUPLICATE_ERROR, FOREIGN_KEY_ERROR and UNKNOWN_ERROR show their fixed map texts |
| ErrorHandling.ValidationErrorMessageShown | src/utils/errorHandling.ts:49-101 | a validation failure reaches the user as "Validation failed for <field>" |
| ErrorHandling.TauriErrorUserMessage | src/utils/errorHandling.ts:60-101 | the user message of any Tauri error is one of the fixed texts of the map, or the message that came in `response.data` |
| ApiErrorHandler.HandleApiError | src/utils/errorHandling/api-error-handler.ts:26-44 | a text error gives API_ERROR with that text; a message wins over `response.data.message`; neither gives UNKNOWN_ERROR |
| ApiErrorHandler.HandleTauriError | src/utils/errorHandling/api-error-handler.ts:49-67 | UNIQUE checked before FOREIGN KEY; the code is one of the fixed codes or the code that came in `response.data` |
| ApiErrorHandler.HandlersAgree | src/utils/errorHandling/api-error-handler.ts:26-67 | the API error handler and the one in errorHandling.ts give the same result on every input |
| GeneralErrorHandler.MappedMessage | src/utils/errorHandling/general-error-handler.ts:21-35 | the four validation-like codes map to the error's own message; every other mapped code maps to a fixed non-empty text |
| GeneralErrorHandler.GetUserMessage | src/utils/errorHandling/general-error-handler.ts:19-38 | never empty; the four validation-like codes show the error's own message (or the fallback); other mapped codes show their fixed text; unmapped codes show the message, else "An error occurred" |
| GeneralErrorHandler.IsRecoverableError | src/utils/errorHandling/general-error-handler.ts:43-53 | true exactly for the five listed codes |
| GeneralErrorHandler.HandleUnhandledError | src/utils/errorHandling/general-error-handler.ts:58-68 | code UNHANDLED_ERROR; message "Unhandled error[ in <context>]: <message or Unknown error>", the context part only when it is non-empty |
| GeneralErrorHandler.RecoverableMessage | src/utils/errorHandling/general-error-handler.ts:19-53 | a recoverable error is shown with its own message (or the fallback) or as "File not found" |
| ValidationResults.FromErrors | src/utils/validation/account-validation.ts:23-26 | the result carries the errors, and is valid exactly when there are none |
| ValidationResults.BlankIffNoVisibleChar | src/utils/validation/account-validation.ts:17 | `!s \|\| s.trim().length === 0` holds exactly when no character is outside the white space set |
| ValidationResults.TokenIsNotBlank | src/utils/validation/level-validation.ts:33-37 | a text matching ^[a-zA-Z0-9_-]+$ is never blank, so the token checks fail only with one error |
| AccountValidation.ValidateAccountName | src/utils/validation/account-validation.ts:14-27 | at most one error; blank gives required, longer than 100 gives maxLength; valid iff neither |
| AccountValidation.ValidateStartDate | src/utils/validation/account-validation.ts:32-50 | empty gives required; not \d{4}-\d{2}-\d{2} gives invalidDate; valid iff the shape matches and the date parses (an input) |
| AccountValidation.ValidateStartTime | src/utils/validation/account-validation.ts:55-68 | empty gives required; valid iff the text is DD:DD or DD:DD:DD |
| AccountValidation.StartTimeHasNoRangeCheck | src/utils/validation/account-validation.ts:60-62 | any two two-digit numbers, "99:99" included, pass the start-time check |
| AccountValidation.ValidateRequestTemplate | src/utils/validation/account-validation.ts:73-84 | valid iff the template has a non-white-space character; otherwise exactly [required] |
| LevelValidation.ValidateLevelName | src/utils/validation/level-validation.ts:14-25 | valid iff the name is not blank; otherwise exactly [required] |
| LevelValidation.ValidateEventToken | src/utils/validation/level-validation.ts:30-43 | blank gives required; otherwise a character outside [A-Za-z0-9_-] gives invalidEventToken; valid iff the token matches |
| LevelValidation.ValidateDaysOffset | src/utils/validation/level-validation.ts:48-59 | invalid exactly below 0, with [minValue] |
| LevelValidation.ValidateTimeSpent | src/utils/validation/level-validation.ts:64-75 | invalid exactly at 0 and below, with [minValue] |
| LevelValidation.ValidateIsBonus | src/utils/validation/level-validation.ts:80-85 | always valid with no errors |
| PurchaseEventValidation.ValidatePurchaseEventName | src/utils/validation/purchase-event-validation.ts:14-25 | valid iff the name is not blank; otherwise exactly [required] |
| PurchaseEventValidation.ValidateEventToken | src/utils/validation/purchase-event-validation.ts:30-43 | blank gives required; a character outside [A-Za-z0-9_-] gives invalidEventToken; valid iff the token matches |
| PurchaseEventValidation.ValidateMaxDaysOffset | src/utils/validation/purchase-event-validation.ts:48-59 | invalid exactly below 0, with [minValue] |
| PurchaseEventValidation.ValidateTimeSpent | src/utils/validation/purchase-event-validation.ts:64-75 | invalid exactly at 0 and below, with [minValue] |
| PurchaseEventValidation.ValidateIsRestricted | src/utils/validation/purchase-event-validation.ts:80-85 | always valid with no errors |
| GameValidation.ValidateGameName | src/utils/validation/game-validation.ts:14-27 | blank gives required, longer than 100 gives maxLength; at most one error; valid iff neither |
| GameValidation.ValidateGameId | src/utils/validation/game-validation.ts:32-45 | blank gives required; a character outside [A-Za-z0-9_-] gives invalidGameId; valid iff the id matches |
| ValidationUtils.ValidateAccountName | src/utils/validation.ts:19-21 | the facade returns the account validator's result |
| ValidationUtils.ValidateStartDate | src/utils/validation.ts:23-25 | the facade returns the account validator's result |
| ValidationUtils.ValidateStartTime | src/utils/validation.ts:27-29 | the facade returns the account validator's result |
| ValidationUtils.ValidateRequestTemplate | src/utils/validation.ts:31-33 | the facade returns the account validator's result |
| ValidationUtils.ValidateGameName | src/utils/validation.ts:36-38 | the facade returns the game validator's result |
| ValidationUtils.ValidateGameId | src/utils/validation.ts:40-42 | the facade returns the game validator's result |
| ValidationUtils.ValidateLevelName | src/utils/validation.ts:45-47 | the facade returns the level validator's result |
| ValidationUtils.ValidateEventToken | src/utils/validation.ts:49-51 | the facade's event-token check is the level one |
| ValidationUtils.ValidateDaysOffset | src/utils/validation.ts:53-55 | the facade returns the level validator's result |
| ValidationUtils.ValidateTimeSpent | src/utils/validation.ts:57-59 | the facade's time-spent check is the level one |
| ValidationUtils.ValidateIsBonus | src/utils/validation.ts:61-63 | the facade returns the level validator's result |
| ValidationUtils.ValidatePurchaseEventName | src/utils/validation.ts:66-68 | the facade returns the purchase event validator's result |
| ValidationUtils.ValidateMaxDaysOffset | src/utils/validation.ts:70-72 | the facade returns the purchase event validator's result |
| ValidationUtils.ValidateIsRestricted | src/utils/validation.ts:74-76 | the facade returns the purchase event validator's result |
| ValidationUtils.ValidateDate | src/utils/validation.ts:82-98 | blank gives [required]; a date that does not parse (an input) gives [invalidDate]; valid iff neither |
| ValidationUtils.ValidateTime | src/utils/validation.ts:103-116 | blank gives required; valid iff the text matches ^([01]?[0-9]\|2[0-3]):[0-5][0-9](:[0-5][0-9])?$, else invalidTime |
| ValidationUtils.ClockTextIsValid | src/utils/validation.ts:106-110 | every time of day from 0:00 to 23:59:59, with a one- or two-digit hour and optional seconds, passes validateTime |
| ValidationUtils.ValidClockIsClockText | src/utils/validation.ts:106-110 | everything validateTime accepts is such a time of day written out: hours 0-23, minutes and seconds 0-59, nothing else |
| ValidationUtils.EmailScanIffMatch | src/utils/validation.ts:124-128 | the character scan the model computes accepts exactly the texts matching ^[^\s@]+@[^\s@]+\.[^\s@]+$ |
| ValidationUtils.ValidateEmail | src/utils/validation.ts:121-134 | blank gives required; valid iff the text matches x@y.z; otherwise [invalidEmail] |
| ValidationUtils.AllErrors | src/utils/validation.ts:140 | the flattened errors are empty iff every result has no errors |
| ValidationUtils.Combine | src/utils/validation.ts:139-145 | the flag agrees with the errors; for consistent inputs it is valid iff every input is |
| ValidationUtils.CombineAppend | src/utils/validation.ts:139-145 | combine keeps errors in input order: combining a + b gives a's errors then b's |
| ValidationUtils.CombineOne | src/utils/validation.ts:139-145 | combining one result gives its errors |
| ValidationUtils.ValidationRules | src/utils/validation.ts:149-167 | each of the nine rule entries is exactly the validator it names |
| RgbPattern.FirstRgbMatch | src/services/excel/excel-styling.ts:7 | the match of /rgb\((\d+),\s*(\d+),\s*(\d+)\)/ is the one at the leftmost position where the pattern matches; None when it matches nowhere |
| RgbPattern.RgbTextMatches | src/services/excel/excel-styling.ts:7 | the pattern finds the three channels of the text "rgb(r, g, b)" |
| RgbPattern.PrefixMatchFirst | src/components/ui/color-picker.tsx:149 | a text that starts with the pattern matches there |
| ExcelStyling.NatToHex | src/services/excel/excel-styling.ts:9 | `c.toString(16)`: hexadecimal digits whose last two are the low two hex digits of c |
| ExcelStyling.ToHexLowByte | src/services/excel/excel-styling.ts:9 | `('0' + c.toString(16)).slice(-2)` is the two hex digits of c mod 256, so a channel above 255 keeps only its last two hex digits |
| ExcelStyling.RgbToHexBytes | src/services/excel/excel-styling.ts:6-11 | no rgb pattern gives "FFFFFF"; otherwise the six lower-case hex digits of the three channels' low bytes |
| ExcelStyling.GetTextColor | src/services/excel/excel-styling.ts:16-26 | "FFFFFF" or "000000"; without an rgb pattern, "FFFFFF" exactly for the dark theme |
| ExcelStyling.GetCellStyle | src/services/excel/excel-styling.ts:31-50 | fill is rgbToHex(background), the font colour is getTextColor, bold = isHeader, italic = isSynthetic, thin borders, centred |
| ColorPicker.ParseRgb | src/components/ui/color-picker.tsx:143-166 | undefined or empty gives white; an rgb pattern anywhere gives its numbers, before the hex branch; neither pattern gives white |
| ColorPicker.HexMatchOfBytes | src/components/ui/color-picker.tsx:155-162 | the hex branch reads back the three bytes of six hex digits |
| ColorPicker.ParseRgbOfHex | src/components/ui/color-picker.tsx:143-166 | parseRgb of rgbToHex(s) is white when s has no rgb pattern, else the channels of s taken mod 256 |
| ColorPicker.RgbHexRoundTrip | src/components/ui/color-picker.tsx:143-166 | for channels 0..255, parseRgb(rgbToHex("rgb(r, g, b)")) and parseRgb("rgb(r, g, b)") both give back (r, g, b) |
| ClockPattern.ClockScan | src/services/excel/excel-parser.ts:535 | the scan of ^(\d{1,2}):(\d{2})(?::(\d{2}))? yields a one- or two-digit hour, two-digit minutes and optional two-digit seconds, and leaves no ':' right after the minutes when the seconds are absent |
| ClockPattern.ClockScanOf | src/services/excel/excel-parser.ts:535 | the scan reads back exactly the parts of any clock text built from well-formed parts |
| ExcelDateTime.TimeMarker | src/services/excel/excel-parser.ts:535 | the tail \s*(AM\|PM)?$ matched case-insensitively gives no marker or an upper-cased AM/PM |
| ExcelDateTime.TwelveHourClock | src/services/excel/excel-parser.ts:542-549 | for hours 1..12, PM adds 12 except at 12 and 12 AM becomes 0: the result is h mod 12 (+12 for PM), below 24 |
| ExcelDateTime.NormalizeStartTime | src/services/excel/excel-parser.ts:529-564 | a rewritten start time exists only when the trimmed text is a clock with an acceptable marker tail |
| ExcelDateTime.NormalizeOf | src/services/excel/excel-parser.ts:535-552 | the result is the zero-padded 24-hour hour, the minutes as written and the seconds, or "00" when absent |
| ExcelDateTime.TwelveHourForm | src/services/excel/excel-parser.ts:535-552 | "hh:mm AM\|PM" becomes the padded 24-hour hour, the minutes and ":00" |
| ExcelDateTime.TwentyFourHourForm | src/services/excel/excel-parser.ts:535-552 | "hh:mm[:ss]" keeps its hour and minutes, padding the hour, and gains ":00" when the seconds are missing |
| ExcelDateTime.TwelveHourTextTo24 | src/services/excel/excel-parser.ts:542-552 | the picker's "HH:MM AM\|PM" text becomes HH mod 12 (+12 for PM), the minutes and ":00" |
| ExcelDateTime.StoredTimeKept | src/services/excel/excel-parser.ts:535-552 | a stored "HH:MM:SS" is rewritten to itself |
| ExcelDateTime.MissingSecondsAdded | src/services/excel/excel-parser.ts:535-552 | "HH:MM" gains ":00" |
| ExcelDateTime.NormalizedTimeIsStable | src/services/excel/excel-parser.ts:529-564 | a rewritten time of 8 characters passes the start-time validator and is rewritten to itself |
| ExcelDateTime.IndexIn | src/services/excel/excel-parser.ts:517 | `months.indexOf(m)`: the first index holding m, or -1 when none does |
| ExcelDateTime.SlashDate | src/services/excel/excel-parser.ts:490 | a match of ^(\d{1,2})\/(\d{1,2})\/(\d{4})$ splits the text into its three parts |
| ExcelDateTime.DashDate | src/services/excel/excel-parser.ts:511 | a match of ^(\d{1,2})-([A-Za-z]{3})-(\d{4})$ splits the text into day, three-letter month and year |
| ExcelDateTime.NormalizeStartDate | src/services/excel/excel-parser.ts:486-526 | an M/D/YYYY date is always rewritten; a YYYY-MM-DD date that parses is kept as written |
| ExcelDateTime.SlashDateRewritten | src/services/excel/excel-parser.ts:490-499 | "M/D/YYYY" becomes "YYYY-MM-DD" from the matched digits, zero-padded |
| ExcelDateTime.DashDateRewritten | src/services/excel/excel-parser.ts:509-525 | "D-Mon-YYYY" becomes "YYYY-MM-DD" with the month's index in jan..dec (any case) plus one; an unknown month leaves the date unset |
| ExcelDateTime.SlashDateStoredShape | src/services/excel/excel-parser.ts:490-499 | a rewritten M/D/YYYY date with a year not starting with 0 has the shape the start-date validator accepts |
| AccountFormPage.TwelveHourMatch | src/pages/accounts/AccountFormPage.tsx:156 | a match of ^(\d{1,2}):(\d{2})(?::\d{2})?\s*(AM\|PM)$ (any case) gives a one- or two-digit hour, two-digit minutes and the marker |
| AccountFormPage.HourMinuteFields | src/pages/accounts/AccountFormPage.tsx:166 | `timeStr.split(':')` has a second field iff the text contains ':' |
| AccountFormPage.ParseTime | src/pages/accounts/AccountFormPage.tsx:152-178 | the empty text is 12:00 PM; the marker is always AM or PM; a 12-hour text gives hour and minute below 100; without ':' the minute is 0 |
| AccountFormPage.FormatTime | src/pages/accounts/AccountFormPage.tsx:185-189 | the picked time is written "HH:MM AM\|PM", 8 characters |
| AccountFormPage.TwelveHourInverse | src/pages/accounts/AccountFormPage.tsx:166-177 | for h in 0..23 the 12-hour form has hour 1..12 and AM/PM, and the 12-to-24 conversion of the import gives back h |
| AccountFormPage.FormatTimeParses | src/pages/accounts/AccountFormPage.tsx:152-189 | parseTime reads back every time the picker writes |
| AccountFormPage.ParseTwentyFourHour | src/pages/accounts/AccountFormPage.tsx:165-177 | a 24-hour "HH:MM[:SS]" text gives the 12-hour hour and marker of HH, and the minutes |
| AccountFormPage.PickerKeepsStartTime | src/pages/accounts/AccountFormPage.tsx:152-189 | a stored start time H:M[:S] read by the picker, written back and imported again is H:M:00 |
| SheetCells.HeaderIndex | src/services/excel.service.ts:96-100 | the first header whose lower-cased text contains the key, or -1 when no header does; no earlier header contains it |
| SheetCells.TrimmedOrEmpty | src/services/excel/excel-parser.ts:373-374 | an empty, zero, false or missing cell reads as the empty text |
| SheetCells.TrimmedUnlessBlank | src/services/excel/excel-parser.ts:376-378 | only a missing cell reads as the empty text; a zero cell keeps its text |
| SheetCells.CellIntOfNumber | src/services/excel.service.ts:117-119 | `parseInt` of a whole-number cell gives that number back |
| ImportRows.TextAt | src/services/excel.service.ts:108-110 | a text field is set exactly when its column was found and the cell is truthy, and then it is the cell's non-empty text |
| ImportRows.IntAt | src/services/excel.service.ts:116-121 | a number field is set only from a present cell that parses; a numeric cell always sets it to that number |
| ImportRows.FlagAt | src/services/excel.service.ts:130-134 | a flag is set exactly when its column was found and the cell is present, and is true exactly for 'yes', 'true' (any case) or the number 1 |
| ImportRows.LevelOfRow | src/services/excel.service.ts:106-134 | token and name are set exactly for truthy cells in found columns; the bonus flag is true exactly for a yes cell; no game name |
| ImportRows.LevelsOf | src/services/excel.service.ts:102-140 | at most one level per row, and every level kept has a non-empty token (and a name in the service reader) |
| ImportRows.LevelsRead | src/services/excel/excel-parser.ts:271-325 | fewer than two rows read as no levels |
| ImportRows.LevelsOfConcat | src/services/excel/excel-parser.ts:284-322 | the rows are read one at a time: reading two blocks of rows is reading each and joining the results |
| ImportRows.ReadLevelRows | src/services/excel/excel-parser.ts:271-325 | the loop returns exactly the levels LevelsRead describes, in row order |
| ImportRows.PurchaseOfRow | src/services/excel.service.ts:163-180 | the token is set exactly for a truthy token cell; restricted is true exactly for a yes cell; no game name |
| ImportRows.PurchasesOf | src/services/excel.service.ts:159-186 | at most one event per row, each with a non-empty token |
| ImportRows.PurchasesRead | src/services/excel.service.ts:148-189 | fewer than two rows read as no purchase events |
| ImportRows.ReadPurchaseRows | src/services/excel/excel-parser.ts:658-699 | the loop returns exactly the events PurchasesRead describes |
| ImportRows.AccountOfRow | src/services/excel.service.ts:210-228 | the name is set exactly for a truthy name cell in a found column; no request template |
| ImportRows.AccountsOf | src/services/excel.service.ts:206-234 | at most one account per row, each with a non-empty name |
| ImportRows.AccountsRead | src/services/excel.service.ts:194-237 | fewer than two rows read as no accounts |
| ImportRows.ReadAccountRows | src/services/excel/excel-parser.ts:704-747 | the loop returns exactly the accounts AccountsRead describes |
| ImportRows.YesNoReadsBack | src/services/excel.service.ts:294 | the 'Yes'/'No' the export writes reads back as the same flag |
| ImportRows.LevelRowReadsBack | src/services/excel.service.ts:289-295 | one exported level row reads back as the stored level's token, name, offset, time and bonus flag |
| ImportRows.ExportedLevelsReadBack | src/services/excel.service.ts:288-296 | a levels sheet written by the export, under headers that resolve to its columns, reads back as the stored levels in order |
| ImportRows.PurchaseRowReadsBack | src/services/excel.service.ts:303-307 | one exported purchase row reads back as the stored event |
| ImportRows.ExportedPurchasesReadBack | src/services/excel.service.ts:302-308 | a purchase events sheet written by the export reads back as the stored events in order |
| ImportRows.AccountRowReadsBack | src/services/excel.service.ts:315-319 | one exported account row reads back as the stored account, with an empty start date or time read as unset |
| ImportRows.ExportedAccountsReadBack | src/services/excel.service.ts:314-320 | an accounts sheet written by the export reads back as the stored accounts in order |
| ExcelParser.IsAccountsDetailFormat | src/services/excel/excel-parser.ts:330-340 | true exactly when the sheet has at least six rows and one of rows 4 to 7 starts with a cell containing 'account' in any case |
| ExcelParser.AccountHeaderRow | src/services/excel/excel-parser.ts:354-361 | the first row at or after the start whose first cell names the account section, or -1 when there is none |
| ExcelParser.FindAccountHeaderRow | src/services/excel/excel-parser.ts:154-160 | the search loop from row 4 finds exactly the first account header row, or -1 |
| ExcelParser.DetailFormatHeader | src/services/excel/excel-parser.ts:330-361 | a sheet that passes the format test has its account header among rows 4 to 7, so the layout reader never falls back |
| ExcelParser.MaxWidth | src/services/excel/excel-parser.ts:370 | no row is wider than the result, and some row is exactly that wide |
| ExcelParser.DetailColumn | src/services/excel/excel-parser.ts:372-443 | a purchase column always has a token and is unrestricted; a level column has a token and a name other than '$$$' and is never a bonus level |
| ExcelParser.VerticalColumn | src/services/excel/excel-parser.ts:587-650 | a purchase column has a token and is unrestricted; a level column is a bonus level exactly when its name contains 'bonus', 'extra' or '+' and a digit |
| ExcelParser.ColumnLevels | src/services/excel/excel-parser.ts:437-441 | at most one level per column, and every level kept passes the keep test of its layout |
| ExcelParser.ColumnLevelsMembers | src/services/excel/excel-parser.ts:372-443 | the levels read are exactly the level columns of the range that pass the keep test |
| ExcelParser.ColumnPurchasesMembers | src/services/excel/excel-parser.ts:382-406 | the purchase events read are exactly the '$$$' columns of the range |
| ExcelParser.ParseColumns | src/services/excel/excel-parser.ts:587-650 | the column loop returns the levels and events ColumnLevels and ColumnPurchases describe |
| ExcelParser.ColumnDefinitionsShape | src/services/excel/excel-parser.ts:380-443 | every definition read has a token; detail-layout levels are never bonus levels; every purchase is unrestricted |
| ExcelParser.ParseVerticalLayoutData | src/services/excel/excel-parser.ts:575-653 | returns the definitions of columns 1 up to the widest row, none for fewer than four rows |
| ExcelParser.DetailAccount | src/services/excel/excel-parser.ts:446-483 | a row gives an account exactly when it has three cells and a non-blank first cell; the account carries that trimmed name and the imported-template text |
| ExcelParser.DetailAccountsShape | src/services/excel/excel-parser.ts:446-567 | every account read has a non-empty name and the imported template, and every such row below the header is read |
| ExcelParser.ParseAccountsDetailVerticalLayout | src/services/excel/excel-parser.ts:345-570 | returns the definitions above the account header and the accounts below it, or the vertical layout when no header is found |
| ExcelParser.LessThanReadsBack | src/services/excel/excel-column-builder.ts:45 | the 'Less Than n' text written for a purchase's maximum day reads back as n |
| ExcelParser.ColumnHeader | src/services/excel/excel-parser.ts:167-173 | a column has a header only when its token is filled, and it is a purchase exactly when its name is '$$$' |
| ExcelParser.EntryFor | src/services/excel/excel-parser.ts:185-192 | a completed entry for the sheet's game and the row's account; a purchase records its token as the purchase token, a level records its name |
| ExcelParser.RowMarksExact | src/services/excel/excel-parser.ts:180-195 | an account row yields one entry for each marked column from 4 on that has a header, and nothing else |
| ExcelParser.MatrixProgressAccounts | src/services/excel/excel-parser.ts:175-196 | every entry is a completion of the sheet's game by the account of some row below the header |
| ExcelParser.AccountRowEntry | src/services/excel/excel-parser.ts:175-192 | an entry of one account row names that row's account and the sheet's game |
| ExcelParser.ExtractRowMarks | src/services/excel/excel-parser.ts:180-195 | the column loop returns exactly RowMarks, each mark under its own column's header |
| ExcelParser.ExtractProgress | src/services/excel/excel-parser.ts:175-196 | the row loop returns exactly MatrixProgress |
| ExcelParser.MarksMisplacedAsWritten | src/services/excel/excel-parser.ts:164-196 | for a sheet whose column 4 has no token, the code records a mark in column 4 under column 5's header and drops the mark in column 5; the corrected reading records the column 5 mark |
| ExcelParser.SheetGameName | src/services/excel/excel-parser.ts:110-118 | a `_Lvl` or `_Evt` sheet name loses exactly its four-character suffix; any other name is the game name itself |
| ExcelParser.TagLevels | src/services/excel/excel-parser.ts:115 | every level is kept in place and tagged with the game name |
| ExcelParser.TagPurchases | src/services/excel/excel-parser.ts:121 | every purchase event is kept in place and tagged with the game name |
| ExcelParser.TagAccounts | src/services/excel/excel-parser.ts:139 | every account is kept in place and tagged with the game name |
| ExcelParser.PassStep | src/services/excel/excel-parser.ts:44-200 | a pass over one more sheet is the earlier pass joined with what that sheet adds |
| ExcelParser.ReadSheet | src/services/excel/excel-parser.ts:106-199 | one iteration of the sheet loop adds exactly what SheetData describes for that sheet |
| ExcelParser.ReadPass | src/services/excel/excel-parser.ts:203-250 | one run of the sheet loop returns the join of every sheet's data in workbook order |
| ExcelParser.ParseExcelFileAsWritten | src/services/excel/excel-parser.ts:26-266 | the result as written is the first pass joined with a second pass over the same sheets |
| ExcelParser.ParseExcelFile | src/services/excel/excel-parser.ts:44-200 | the corrected result is one pass over the sheets |
| ExcelParser.LevelsSheetData | src/services/excel/excel-parser.ts:111-116 | a `_Lvl` sheet adds its levels, read by the token-only reader and tagged with its game, and nothing else |
| ExcelParser.LevelsSheetTwice | src/services/excel/excel-parser.ts:44-250 | for a workbook holding one levels sheet, the code as written lists every level twice; the corrected parser lists each once |
| ColumnBuilder.BuildColumns | src/services/excel/excel-column-builder.ts:23-50 | one column per level and per purchase event, nothing dropped or added |
| ColumnBuilder.BuildColumnsOrder | src/services/excel/excel-column-builder.ts:23-50 | the level columns come first in input order, then the purchase columns in input order; each copies its id, token and name ('$$$' for purchases), bonus flag or restricted flag (false when unset), and none is synthetic |
| ColumnBuilder.UniqueKeysSplit | src/services/excel/excel-column-builder.ts:33-43 | every unique key splits at its last ':' back into the column's token and 'Session Only' for a '-' level, 'Level Event' for another level, 'Purchase Event' for a purchase |
| ColumnBuilder.MaxDaysReadBack | src/services/excel/excel-column-builder.ts:45 | a purchase column's maximum-day text reads back through the importer as the event's own limit, or as unset when it has none |
| ColumnBuilder.CreateDateMatrix | src/services/excel/excel-column-builder.ts:55-72 | one row per account and one cell per column |
| ColumnBuilder.DateMatrixOfColumns | src/services/excel/excel-column-builder.ts:62-71 | over built columns, a cell is the account's start moved by the level's day offset when both exist, and '-' for purchase columns, missing dates or missing offsets |
| ColumnBuilder.GetColumnStyle | src/services/excel/excel-column-builder.ts:77-99 | the fill is the bonus or normal level colour, or the restricted or unrestricted purchase colour, as the flags say; header cells are bold and synthetic ones italic |
| DailyTaskUtils.CalculateFirstRequestAllowedTime | src/utils/daily-tasks.utils.ts:5-27 | the account's start instant plus the first event's time spent, in milliseconds; the current time when the start does not parse |
| DailyTaskUtils.CheckTaskReadinessAgrees | src/utils/daily-tasks.utils.ts:29-150 | the quick readiness check and the detailed one give the same answer on every input |
| DailyTaskUtils.ReadinessRule | src/utils/daily-tasks.utils.ts:83-145 | a task is ready exactly when no earlier batch holds a task of its account, the cooldown since the last completion has passed, and, without a completion, the start gate has passed |
| DailyTaskUtils.RemainingTimeRule | src/utils/daily-tasks.utils.ts:105-149 | while there is a wait, the remaining time is that wait rounded up to whole seconds and the come-back time is when it ends; otherwise both are empty |
| DailyTaskUtils.StartGateFallback | src/utils/daily-tasks.utils.ts:124-142 | without a completion or a recorded start instant, the gate is the parsed start plus the shortest session or event time, and no gate when that sum is 0 |
| DailyTaskUtils.InterpolatedWithoutLevels | src/utils/daily-tasks.utils.ts:152-159 | without a level that has a numeric day the time spent is 0 |
| DailyTaskUtils.InterpolatedOnLevelDay | src/utils/daily-tasks.utils.ts:161-163 | on a level's day the time spent is that of the first level with that day |
| DailyTaskUtils.SortedNumeric | src/utils/daily-tasks.utils.ts:155-157 | the sorted numeric levels are ordered by day and are exactly the input levels that have a numeric day |
| DailyTaskUtils.InterpolatedAfterLastLevel | src/utils/daily-tasks.utils.ts:182-186 | after the last level the time spent is that of the last level on the largest day |
| DailyTaskUtils.InterpolatedBeforeFirstLevel | src/utils/daily-tasks.utils.ts:169-174 | before the first level the time spent is the first level's time scaled by (day + 1) / (first day + 1) and rounded |
| DailyTaskUtils.InterpolatedBetweenLevels | src/utils/daily-tasks.utils.ts:176-180 | strictly between two levels the time spent is a number between the times of the nearest levels on either side |
| DailyTaskUtils.BetweenNeighbours | src/utils/daily-tasks.utils.ts:165-180 | the levels the interpolation uses are on the nearest day below the day and the nearest day above it; the one below is the last level of its day and the one above the first of its day, in input order |
| DailyTaskUtils.InterpolationBounds | src/utils/daily-tasks.utils.ts:178-179 | the rounded linear interpolation between two levels lies between their two times |
| TimerUtils.FirstMatch | src/utils/timer.utils.ts:36-47 | the index of the first task recognised as the current one, or -1 when none is |
| TimerUtils.LastOfAccount | src/utils/timer.utils.ts:38-43 | the last task of the account in the list, or none when the account has no task there |
| TimerUtils.ScanFindsPrevious | src/utils/timer.utils.ts:36-47 | the previous task is the last task of the same account before the first task recognised as the current one, or in the whole list when none is |
| TimerUtils.ScanFoundStays | src/utils/timer.utils.ts:40-46 | once the current task is found, later tasks change nothing |
| TimerUtils.FindPreviousTask | src/utils/timer.utils.ts:32-47 | the nested loops return exactly PreviousTask |
| TimerUtils.CalculateTimerState | src/utils/timer.utils.ts:20-113 | returns exactly the state TimerStateOf describes |
| TimerUtils.BlockedRule | src/utils/timer.utils.ts:54-69 | a task is blocked exactly when its previous task has an uncompleted request; a blocked task is not ready and has no wait and no come-back time |
| TimerUtils.WaitRule | src/utils/timer.utils.ts:71-112 | the target is the last completion plus the growth in time spent, or else the parsed start plus the time spent; the task waits exactly while the target is positive and ahead, showing whole seconds rounded up and the target as come-back time |
| TimerUtils.BatchReadyRule | src/utils/timer.utils.ts:166-184 | a batch is ready exactly when none of its tasks is blocked or still waiting for its target |
| TimerUtils.BatchReadyStays | src/utils/timer.utils.ts:166-184 | with the same records, a ready batch stays ready at every later time |
| TimerUtils.FormatRemainingTime | src/utils/timer.utils.ts:118-131 | '0s' for no time; otherwise the hours, minutes under 60 and seconds under 60 that add up to the input, printed with zero hours and minutes left out |
| TaskGenerator.KnownRequestsCount | src/utils/taskGenerator.ts:53-63 | the kept requests are exactly those whose token names a level or a purchase event of the game, each as often as in the input |
| TaskGenerator.FilterKnownRequests | src/utils/taskGenerator.ts:53-63 | the filter loop returns exactly the known requests, in input order |
| TaskGenerator.FindGroup | src/utils/taskGenerator.ts:93-95 | the first group with the request's token and time spent, or -1 when no group has them |
| TaskGenerator.GroupedSnoc | src/utils/taskGenerator.ts:91-106 | grouping one more request is adding it to the grouping of the earlier ones |
| TaskGenerator.GroupedPartition | src/utils/taskGenerator.ts:89-106 | no two groups share a token and time spent, every request's key has a group, and each group holds exactly the requests with its key, in input order |
| TaskGenerator.GroupedPermutation | src/utils/taskGenerator.ts:89-113 | the groups hold every request exactly once: flattening them gives a permutation of the input |
| TaskGenerator.GroupRequests | src/utils/taskGenerator.ts:89-106 | the grouping loop returns exactly Grouped |
| TaskGenerator.TaskOfGroups | src/utils/taskGenerator.ts:108-117 | a task is for its account, has nothing completed, its groups are sorted by time spent and stable among equal times, a permutation of the grouped known requests, and its requests are a permutation of the known requests |
| TaskGenerator.StartForRule | src/utils/taskGenerator.ts:65-84 | an account gets a start state exactly when a known request is a session or an event; it then records the start date and time and the first allowed instant for the shortest such request |
| TaskGenerator.ScheduleTimes | src/utils/taskGenerator.ts:146-162 | one time per group; each group's time is now plus its growth in time spent over the first group, in milliseconds, so sorted groups get non-decreasing times |
| TaskGenerator.ScheduleOfLast | src/utils/taskGenerator.ts:141-166 | each account with groups ends up with the times of its last task that has groups |
| TaskGenerator.ScheduleOfKeys | src/utils/taskGenerator.ts:141-166 | only accounts with a task that has groups get scheduled times |
| TaskGenerator.ScheduleAll | src/utils/taskGenerator.ts:141-166 | the nested loops fill exactly ScheduleOf over the tasks of the games, game after game |
| TaskGenerator.BuildTask | src/utils/taskGenerator.ts:40-118 | one account's step adds its task when it has known requests and records its start state as StartFor says |
| TaskGenerator.CollectGameTasks | src/utils/taskGenerator.ts:38-126 | the loop over a game's accounts gives the task of every account with known requests, in account order |
| TaskGenerator.CollectedKeys | src/utils/taskGenerator.ts:124-126 | only games with at least one task are stored, each once |
| TaskGenerator.TaskListsLookup | src/utils/taskGenerator.ts:141-142 | looking up stored game ids gives their task lists in id order |
| TaskGenerator.GameIdsAscending | src/utils/taskGenerator.ts:133 | the game ids are visited in strictly ascending order, every stored game exactly once, each with its non-empty task list |
| TaskGenerator.SortDistinct | src/utils/taskGenerator.ts:133 | sorting distinct ids orders them strictly and keeps every one |
| TaskGenerator.CollectAll | src/utils/taskGenerator.ts:32-130 | the game loop leaves exactly the collected tasks and start states |
| TaskGenerator.GenerateTodaysTasks | src/utils/taskGenerator.ts:28-236 | the start states, scheduled times, batches and assignments are those of the collection, schedule and distribution phases, over the games in ascending id order |
| TaskGenerator.LookUpAll | src/utils/taskGenerator.ts:141-142 | the lookups return the task lists of the stored ids |
| TaskBatching.PickIn | src/utils/taskGenerator.ts:181-216 | the first task of the game whose account still has a group left, or -1 when none has |
| TaskBatching.AdvanceShrinks | src/utils/taskGenerator.ts:213 | moving an account to its next group never adds work, and removes some when that account had a group left |
| TaskBatching.RoundShrinks | src/utils/taskGenerator.ts:172-233 | a round never adds work and a round that hands something out removes some, so the `while (true)` loop ends |
| TaskBatching.PlaceRound | src/utils/taskGenerator.ts:176-219 | the inner loops build exactly the round RoundFrom describes, and report groups exactly when the round is not empty |
| TaskBatching.RoundTakes | src/utils/taskGenerator.ts:181-216 | when a game has a task with a group left, the round hands out that task's current group, records the assignment and moves the account on |
| TaskBatching.RoundSkips | src/utils/taskGenerator.ts:177-219 | a game without a task with a group left adds nothing to the round |
| TaskBatching.FirstWithGroupLeft | src/utils/taskGenerator.ts:181-185 | the search stops at the first task with a group left, or runs off the end |
| TaskBatching.Distribute | src/utils/taskGenerator.ts:168-233 | the loop returns exactly the batches and assignments DistributeFrom describes |
| TaskBatching.RoundAtMostOnePerGame | src/utils/taskGenerator.ts:176-219 | a round hands out at most one group per game and one assignment per task handed out, for the same account |
| TaskBatching.BatchesNumbered | src/utils/taskGenerator.ts:221-227 | batches are never empty and are numbered from 0 without gaps |
| TaskBatching.RoundLeavesOthers | src/utils/taskGenerator.ts:176-219 | a round touches only accounts that have tasks in it |
| TaskBatching.EmptyRoundMeansDone | src/utils/taskGenerator.ts:229-232 | the loop stops only when no task has a group left |
| TaskBatching.RoundPerAccount | src/utils/taskGenerator.ts:176-219 | with one task per account, a round hands each account either its next group or nothing |
| TaskBatching.EveryGroupPlacedOnce | src/utils/taskGenerator.ts:172-233 | with one task per account, the batches hold each account's remaining groups exactly once, in group order |
| TaskBatching.AllGroupsPlaced | src/utils/taskGenerator.ts:168-233 | with one task per account and starting from no group handed out, every group of every task ends up in the batches, once, in its order |
| TaskCompletion.PurchaseEventIff | src/utils/taskCompletion.ts:42 | a request is a purchase event exactly when it has no level id and its token holds a character that is not white space |
| TaskCompletion.Classify | src/utils/taskCompletion.ts:40-57 | the purchase branch is taken only for purchase events, with their token; the level branch only for a non-zero level id |
| TaskCompletion.UnidentifiedIff | src/utils/taskCompletion.ts:44-53 | a request is refused exactly when its level id is 0, or it has no level id and no token with a visible character |
| TaskCompletion.DeriveType | src/utils/taskCompletion.ts:116-119 | 'Purchase Session' exactly when the type contains 'session' in any case, else 'Purchase Event' |
| TaskCompletion.DeriveFinalType | src/utils/taskCompletion.ts:264-286 | the result is always one of the five canonical types, and a canonical type is kept as it is |
| TaskCompletion.DeriveFinalTypeIdempotent | src/utils/taskCompletion.ts:116-119 | deriving the final type twice changes nothing, and it keeps the type the purchase branch derives |
| TaskCompletion.DeriveFinalTypeFallback | src/utils/taskCompletion.ts:274-285 | other types map by their words, case-sensitively: 'Purchase' with or without 'Session', else 'Event' to 'Level Event', else 'Session Only' |
| TaskCompletion.FindTask | src/utils/taskCompletion.ts:29 | a task of the account from the list, or none exactly when the list has no task of the account |
| TaskCompletion.FindBatch | src/utils/taskCompletion.ts:178 | a batch with the number from the list, or none exactly when no batch has that number |
| TaskCompletion.FoundFrom | src/utils/taskCompletion.ts:26-34 | the first batch holding a task of the account and that task, or none when no batch holds one |
| TaskCompletion.MarkCompleted | src/utils/taskCompletion.ts:151-161 | batches and tasks keep their order, numbers and contents; only the account's tasks gain the index among their completed ones |
| TaskCompletion.MarkCompletedIdempotent | src/utils/taskCompletion.ts:322-332 | completing the same index twice is the same as completing it once |
| TaskCompletion.LookupAfterMark | src/utils/taskCompletion.ts:177-179 | looking the account's task up by batch number after marking finds the task found before, with the index added |
| TaskCompletion.RemoveTaskEntries | src/utils/taskCompletion.ts:186-194 | removal loses exactly the account's tasks in the given batch; every other task keeps its batch and order, and no empty batch is left |
| TaskCompletion.DropEntriesMembers | src/utils/taskCompletion.ts:190 | the tasks left are exactly those that are not the account's task in the given batch |
| TaskCompletion.MarkedEntries | src/utils/taskCompletion.ts:322-332 | after marking, every task of the account anywhere in the batches has the index completed |
| TaskCompletion.IndexIn | src/utils/taskCompletion.ts:339 | the first position of the request in the list, and -1 exactly when it is absent |
| TaskCompletion.FirstDoneGroup | src/utils/taskCompletion.ts:337-350 | the first group that the completion finishes, or none when it finishes no group |
| TaskCompletion.GroupDoneIff | src/utils/taskCompletion.ts:338-350 | a group is finished exactly when all its requests are in the task with completed positions and one of them is the request just completed |
| TaskCompletion.PurchaseEffect | src/utils/taskCompletion.ts:150-228 | a purchase completion replaces only the account's record, stamped now, keeps the assignments, marks the index in every task of the account, and drops at most the account's task in the given batch |
| TaskCompletion.LevelEffect | src/utils/taskCompletion.ts:321-464 | a level completion replaces only the account's record, stamped now, clears at most the account's assignments, marks the index, and drops at most the account's task in the given batch |
| TaskCompletion.CompleteEffect | src/utils/taskCompletion.ts:23-473 | a completion that finds no task or fails changes nothing; one that succeeds has the completion effect above |
| TaskCompletion.LevelTaskStays | src/utils/taskCompletion.ts:257-464 | a level request of a task without groups completes exactly when the backend reports success, and then only marks the index and keeps the assignments |
| TaskCompletion.PurchaseRemovesWhenDone | src/utils/taskCompletion.ts:177-223 | a purchase completion removes the account's task from the given batch exactly when that task then has every index completed; otherwise the batches are only marked |
| TaskCompletion.TaskCompletionHandler.constructor | src/utils/taskCompletion.ts:19-21 | the handler starts with the given batches, records and assignments |
| TaskCompletion.TaskCompletionHandler.CompleteTask | src/utils/taskCompletion.ts:23-473 | the outcome and the handler's new batches, records and assignments are those Complete describes |
| TaskCompletion.TaskCompletionHandler.CompletePurchaseTask | src/utils/taskCompletion.ts:150-223 | the purchase branch's updates give exactly CompletePurchase |
| TaskCompletion.TaskCompletionHandler.CompleteLevelTask | src/utils/taskCompletion.ts:321-461 | the level branch's updates give exactly CompleteLevel |
| ProgressService.CreateLevelIdempotent | src-tauri/src/services/progress_service.rs:15-29 | the insert creates an uncompleted row only when none exists, leaves every other row alone, and a second insert changes nothing |
| ProgressService.UpdateLevelEffect | src-tauri/src/services/progress_service.rs:31-56 | the update answers true exactly when the row exists, changes only that row, and sets its completion, with a timestamp exactly when completed |
| ProgressService.CreateThenUpdateLevel | src-tauri/src/services/progress_service.rs:15-56 | in the abstract table (no SQLite failure modelled), marking a row completed right after creating it succeeds and stamps the time |
| ProgressService.CreatePurchaseEffect | src-tauri/src/services/progress_service.rs:91-112 | the upsert sets the day offset and time, keeps an existing row's completion, creates a new row uncompleted, touches no other row, and is idempotent |
| ProgressService.UpdatePurchaseEffect | src-tauri/src/services/progress_service.rs:114-159 | nothing to set answers false and changes nothing; otherwise it answers true exactly when the row exists and changes only the given fields, stamping the time when completing |
| ProgressService.SetListApplies | src-tauri/src/services/progress_service.rs:119-144 | running the SET list the update builds gives the field-wise update, and the list is empty exactly when no field is given |
| ProgressService.ProgressStore.constructor | src-tauri/src/services/progress_service.rs:9-11 | the service starts over the given level and purchase event tables |
| ProgressService.ProgressStore.CreateOrUpdateLevelProgress | src-tauri/src/services/progress_service.rs:15-29 | the level table becomes CreateLevel of the old one; the purchase table is unchanged |
| ProgressService.ProgressStore.UpdateLevelProgress | src-tauri/src/services/progress_service.rs:31-56 | the answer and the new level table are those of UpdateLevel; the purchase table is unchanged |
| ProgressService.ProgressStore.CreateOrUpdatePurchaseEventProgress | src-tauri/src/services/progress_service.rs:91-112 | the purchase table becomes CreatePurchase of the old one; the level table is unchanged |
| ProgressService.ProgressStore.UpdatePurchaseEventProgress | src-tauri/src/services/progress_service.rs:114-159 | the answer and the new purchase table are those of UpdatePurchase, and the SQL sets exactly the given columns in order |
| ProgressService.ProgressStore.GetAccountLevelProgress | src-tauri/src/services/progress_service.rs:58-87 | every row of the account appears once, as stored, and no other account's row appears |
| ProgressService.ProgressStore.GetAccountPurchaseEventProgress | src-tauri/src/services/progress_service.rs:161-192 | every purchase row of the account appears once, as stored, and no other account's row appears |
| GapFill.InterpolateEnds | src/pages/games/GameDetailPage.tsx:74-78 | the interpolation meets the left neighbour's time at its day and the right neighbour's time at its day |
| GapFill.InterpolateBetween | src/pages/games/GameDetailPage.tsx:74-78 | on the days between the neighbours the rounded time stays between their two times |
| GapFill.Gap | src/pages/games/GameDetailPage.tsx:97-118 | one synthetic column per missing day strictly between two neighbours, none when they are adjacent |
| GapFill.GapShape | src/pages/games/GameDetailPage.tsx:98-117 | the synthetic columns cover the missing days in order; each is a synthetic non-bonus '-' column with the right neighbour's token, and has a time exactly when both neighbours have one, lying between theirs |
| GapFill.Filled | src/pages/games/GameDetailPage.tsx:93-119 | the result holds the numeric columns and the missing days between each pair of neighbours |
| GapFill.FilledSorted | src/pages/games/GameDetailPage.tsx:93-119 | gap filling keeps the order by day and stays within the first and last level's days |
| GapFill.FilledDays | src/pages/games/GameDetailPage.tsx:93-119 | after gap filling every day from the first to the last level's day has a column, and no other day has one |
| GapFill.FilledReal | src/pages/games/GameDetailPage.tsx:93-119 | the real columns after gap filling are exactly the input columns, in order |
| GapFill.FilledFrom | src/pages/games/GameDetailPage.tsx:93-119 | every column is an input column or a synthetic '-' column borrowing an input column's token |
| GapFill.FillGaps | src/pages/games/GameDetailPage.tsx:92-119 | the loop pushes exactly the gap-filled sequence Filled describes |
| GapFill.FillGap | src/pages/games/GameDetailPage.tsx:98-117 | the inner loop pushes exactly the gap between two neighbours |
| GapFill.NumericSorted | src/pages/games/GameDetailPage.tsx:89-90 | the numeric columns sorted by day are ordered and are a permutation of the columns with a numeric day |
| GapFill.WithoutNumericIds | src/pages/games/GameDetailPage.tsx:121-122 | with distinct ids, the id filter keeps exactly the columns without a numeric day, in order |
| GapFill.FillAllShape | src/pages/games/GameDetailPage.tsx:88-123 | "all" mode is a run sorted by day followed by exactly the columns without a day; its real columns are a permutation of the input; it adds exactly the missing days |
| GapFill.FillAllFrom | src/pages/games/GameDetailPage.tsx:88-123 | every column of "all" mode is an input column or a borrowed synthetic one |
| GapFill.FillAllDays | src/pages/games/GameDetailPage.tsx:88-119 | when some level has a day, "all" mode covers every day from the smallest to the largest |
| GapFill.FillAllColumns | src/pages/games/GameDetailPage.tsx:88-123 | the "all" mode loop returns exactly FillAll |
| GapFill.PushOutside | src/pages/games/GameDetailPage.tsx:122-123 | the columns outside the numeric ids are appended in order |
| GameDetailPage.LevelRows | src/pages/games/GameDetailPage.tsx:48-58 | one column per level, in order |
| GameDetailPage.PurchaseColumns | src/pages/games/GameDetailPage.tsx:60-69 | one column per purchase event, in order |
| GameDetailPage.ComputeColumns | src/pages/games/GameDetailPage.tsx:80-127 | the page's table columns are those Columns describes for the mode |
| GameDetailPage.PurchaseLabel | src/pages/games/GameDetailPage.tsx:60-69 | a purchase column is named '$$$', is not synthetic, carries the restricted flag, and has a day label exactly when the event has a maximum day, the translated prefix and a space followed by a number that reads back as that day |
| GameDetailPage.EventOnlyColumns | src/pages/games/GameDetailPage.tsx:81-86 | event-only mode shows every level and every purchase event once, levels first, none synthetic |
| GameDetailPage.AllModeColumns | src/pages/games/GameDetailPage.tsx:88-126 | "all" mode shows the gap filling of the levels followed by the purchase columns; the real level columns are a permutation of the levels |
| LevelListPage.ListRows | src/pages/levels/LevelListPage.tsx:86-95 | one row per level, in order |
| LevelListPage.ToItems | src/pages/levels/LevelListPage.tsx:132-141 | one level per row, in order |
| LevelListPage.ComputeFilteredLevels | src/pages/levels/LevelListPage.tsx:78-142 | the listed levels are those FilteredLevels describes for the mode |
| LevelListPage.EventOnlyItemShape | src/pages/levels/LevelListPage.tsx:82 | an event-only item is the level, not synthetic, with its token cut to a prefix that holds no '_day' |
| LevelListPage.EventOnlyShape | src/pages/levels/LevelListPage.tsx:79-83 | event-only mode lists exactly the levels not named '-' and nothing else |
| LevelListPage.AllModeRows | src/pages/levels/LevelListPage.tsx:86-125 | in "all" mode no token holds '_day'; a stored row is synthetic exactly when named '-', and every added row is a synthetic '-' row |
| LevelListPage.AllModeShape | src/pages/levels/LevelListPage.tsx:86-141 | every row carries the selected game, or 0 when none; the rows are the gap filling of the levels, whose real rows are a permutation of the levels |
| LevelListPage.ListRowsDistinct | src/pages/levels/LevelListPage.tsx:86-95 | levels with distinct ids give real rows with distinct ids |
| AccountDetailPage.LevelColumnShape | src/pages/accounts/AccountDetailPage.tsx:378-388 | a level column keeps the level's id, day and time; its token is the event token cut before the first `_day` (a prefix, shorter exactly when `_day` occurs); it is a session column exactly when the level is named `-` |
| AccountDetailPage.LevelColumns | src/pages/accounts/AccountDetailPage.tsx:378-388 | one column per level, in the levels' order |
| AccountDetailPage.FindProgress | src/pages/accounts/AccountDetailPage.tsx:391 | finds nothing exactly when no progress row names the purchase; otherwise returns the first row that does |
| AccountDetailPage.PurchaseDay | src/pages/accounts/AccountDetailPage.tsx:391-392 | a purchase is shown on the day of its saved progress row when there is one, and on its own default day otherwise |
| AccountDetailPage.SortedNumericFacts | src/pages/accounts/AccountDetailPage.tsx:396-398 | the dated levels, sorted by day, and exactly the levels that have a day |
| AccountDetailPage.AveragedMembers | src/pages/accounts/AccountDetailPage.tsx:402-409 | the levels averaged for a day are dated levels on or after it; they include every level on that day and the first level after it; they are empty exactly when every dated level comes before that day |
| AccountDetailPage.AveragedFromDay | src/pages/accounts/AccountDetailPage.tsx:402-406 | every averaged level lies on or after the purchase day, and every level on that day is averaged |
| AccountDetailPage.AveragedNext | src/pages/accounts/AccountDetailPage.tsx:404-408 | for any later dated level, an averaged level lies after the purchase day and no later than it; nothing is averaged exactly when all levels come before the day |
| AccountDetailPage.MidpointBetween | src/pages/accounts/AccountDetailPage.tsx:411-414 | a purchase's midpoint time exists once something is averaged, and lies within any bounds that hold for all the averaged times |
| AccountDetailPage.PurchaseColumnTime | src/pages/accounts/AccountDetailPage.tsx:390-428 | a purchase column sits on the purchase's day; its time is the rounded mean of the averaged levels, and 0 when it has no day or nothing is averaged |
| AccountDetailPage.PurchaseColumns | src/pages/accounts/AccountDetailPage.tsx:390-428 | one purchase column per purchase event, in the events' order |
| AccountDetailPage.SavedPurchase | src/pages/accounts/AccountDetailPage.tsx:294-323 | saving a purchase day stores a positive time: the positive midpoint of the surrounding levels, else the existing positive progress time, else 243 |
| AccountDetailPage.EventOnlyLevelsShape | src/pages/accounts/AccountDetailPage.tsx:431-434 | event-only mode keeps exactly the levels not named `-`, as a permutation, sorted by day with a missing day counted as 0 |
| AccountDetailPage.EventOnlyPurchasesKept | src/pages/accounts/AccountDetailPage.tsx:435-440 | sorting the purchases in event-only mode keeps every purchase column, as a permutation |
| AccountDetailPage.EventOnlyPurchasesOrder | src/pages/accounts/AccountDetailPage.tsx:435-440 | the dated purchases come first, sorted by day, and the undated ones after them |
| AccountDetailPage.EventOnlyOrder | src/pages/accounts/AccountDetailPage.tsx:430-442 | event-only mode lists the kept levels first and all purchases after them |
| AccountDayWalk.BeforeIsStrictOrder | src/pages/accounts/AccountDetailPage.tsx:447-455 | the comparator (day, then levels before purchases, then id text) is a strict weak order (asymmetric, and never-before is transitive), so the stable sort orders the columns by it |
| AccountDayWalk.NumericFacts | src/pages/accounts/AccountDetailPage.tsx:445-455 | the numeric columns are exactly the dated level and purchase columns, as a permutation, sorted by the comparator and so by day |
| AccountDayWalk.NextRealFacts | src/pages/accounts/AccountDetailPage.tsx:480-490 | the next real level found ahead of a gap is a stored level within the walked range on the earliest such day, and nothing is found only when no real level lies in that range |
| AccountDayWalk.PrevRealFacts | src/pages/accounts/AccountDetailPage.tsx:508-517 | the previous real level is a stored level between the first day and the gap, and nothing is found only when none lies there |
| AccountDayWalk.FirstRealDayFacts | src/pages/accounts/AccountDetailPage.tsx:496-500 | the first real day is the least day of any real level, and some real level lies on it |
| AccountDayWalk.DayItemsShape | src/pages/accounts/AccountDetailPage.tsx:477-541 | a day with entries contributes those entries; an empty day contributes at most one synthetic `-` level, exactly when a later real level with a non-empty token exists, named after that token and the day |
| AccountDayWalk.BeforeFirstReal | src/pages/accounts/AccountDetailPage.tsx:500-506 | before the first real day the synthetic time ramps up linearly to the next real level's time, rounded, staying between 0 and that time |
| AccountDayWalk.AfterFirstReal | src/pages/accounts/AccountDetailPage.tsx:507-527 | after the first real day an empty day always has a real level before it, and the synthetic time is interpolated between the two neighbours' times |
| AccountDayWalk.WalkSorted | src/pages/accounts/AccountDetailPage.tsx:476-543 | the walk is sorted by day and stays within the walked days |
| AccountDayWalk.WalkFrom | src/pages/accounts/AccountDetailPage.tsx:476-543 | every column of the walk is a numeric column or an unsaved synthetic level |
| AccountDayWalk.DayItemsStored | src/pages/accounts/AccountDetailPage.tsx:477-479 | the stored columns a day contributes are exactly that day's entries |
| AccountDayWalk.WalkStored | src/pages/accounts/AccountDetailPage.tsx:476-543 | leaving out synthetic columns, the walk from a day is exactly the numeric columns on or after that day |
| AccountDayWalk.DayBounds | src/pages/accounts/AccountDetailPage.tsx:467-472 | every numeric column lies between the walk's first day (0 when all days are positive) and its last |
| AccountDayWalk.AllModeKeepsEveryColumn | src/pages/accounts/AccountDetailPage.tsx:445-548 | all-days mode shows the walk followed by the undated columns, and every stored level and purchase appears in it exactly once |
| AccountDayWalk.AsWrittenDropsPurchase | src/pages/accounts/AccountDetailPage.tsx:546-548 | filtering undated columns by id drops an undated purchase whose id equals a dated level's id, while the corrected filter keeps it |
| AccountDayWalk.GroupByDay | src/pages/accounts/AccountDetailPage.tsx:457-465 | the per-day table built by the loop has a key exactly for the days that have numeric columns, each mapped to that day's columns in order |
| AccountDayWalk.FindNextReal | src/pages/accounts/AccountDetailPage.tsx:481-490 | the forward search over the per-day table finds the next real level |
| AccountDayWalk.FindPrevReal | src/pages/accounts/AccountDetailPage.tsx:508-517 | the backward search over the per-day table finds the previous real level |
| AccountDayWalk.ComputeDayItems | src/pages/accounts/AccountDetailPage.tsx:477-541 | one step of the walk yields the day's entries or its synthetic gap column |
| AccountDayWalk.WalkDays | src/pages/accounts/AccountDetailPage.tsx:474-543 | the day loop produces the walk from the first to the last day |
| AccountDayWalk.ComputeAllModeColumns | src/pages/accounts/AccountDetailPage.tsx:445-548 | the all-days memo computes the corrected column list |
| JsMath.RoundDivNearest | src/pages/accounts/AccountDetailPage.tsx:413 | `Math.round` of a quotient is the whole number within half a unit of it, halves rounded up |

## Left out

- The due-request computation (`get_daily_requests`, `RequestProcessor.processRequestContent`) is not part of this model, because no file of the repository implements it.
- Tauri `invoke` calls and the service facades are not modelled. What the scheduler and the completion handler receive from them (requests, levels, purchase events, completion records, the account's start) is passed in as input.
- `localStorage`, `window.dispatchEvent`, toasts, React state and i18n strings are not modelled. A translated label such as `purchaseEvents.lessThan` is a `string` parameter, and `getTimerMessage` is not modelled.
- `console` logging in the error handlers is not modelled.
- `Date.now()` is one clock reading, passed in.
- Every JavaScript `Date` is replaced by inputs: `new Date(...)` parsing, `parseDateFlexible`, `setDate`, `toISOString`, `formatDateShort` and `addDays`. Dates are day numbers or instants in milliseconds, and whether a text parses as a date is a parameter.
- Floating point is not modelled. `Math.round` of a ratio is computed exactly on whole numbers, so a float rounding error next to a half is not captured.
- `Number(...)` and `parseInt` are modelled on whole numbers only. Spreadsheet cells are text, whole numbers, booleans or empty; fractional numbers and date cells are left out.
- JsText.NumberOf: the contract only states that a blank text is 0. Fractions, exponents, hexadecimal and `Infinity` are treated as not-a-number, unlike `Number()`.
- `localeCompare` is modelled as plain character-code order (`JsText.StrLess`). No locale collation is modelled.
- In-place `sort` calls are modelled as stable sorts that return a new sequence; aliasing of the sorted array is not captured.
- AccountValidation.ValidateAccountName: the `length > 100` test counts characters (Unicode scalar values), while JavaScript's `length` counts UTF-16 code units. A name of 51 characters outside the Basic Multilingual Plane, such as emoji, is accepted here but gets maxLength in the source. `ValidationUtils.ValidateAccountName` delegates to it and shares the gap.
- GameValidation.ValidateGameName: the same character-versus-UTF-16-unit difference in its `length > 100` test. `ValidationUtils.ValidateGameName` shares it.
- SheetCells.HeaderIndex: `toLowerCase` is modelled on ASCII letters only (`JsText.ToLower`). Full Unicode case mapping is left out, so a header holding a character that JavaScript maps onto an ASCII letter (the Kelvin sign U+212A becomes 'k') is found by the source and not here. The other case-insensitive tests (the AM/PM marker, yes/true flags, 'session', month names) use the same ASCII-only mapping.
- ErrorHandling.MappedMessage: `messageMap` is modelled as a lookup over its own keys only. In the source it is a plain object, so a code naming an inherited `Object.prototype` member ("constructor", "toString", ...) yields a function instead of a string. For such codes the model shows the error's message or the fallback, and `ErrorHandling.GetUserMessage` inherits this.
- GeneralErrorHandler.MappedMessage: the same plain-object lookup, left out in the same way. `GeneralErrorHandler.GetUserMessage` inherits it.
- The event-only purchase sort of the account page is written as its result: the dated events stably by day, then the undated ones in page order. That this is what the comparator's sort gives is not proved.
- `Object.keys(gameTasksMap)` is read in ascending numeric key order, the order JavaScript gives integer keys.
- `requests.indexOf` compares request objects by identity; the model compares them by value, so two equal requests in one task are not told apart. `completedTasks` holds the indices as strings in the source and as numbers here.
- TaskBatching.EveryGroupPlacedOnce: proved only when every account has at most one task. The code never creates a second task for an account, but the model does not prove that.
- TaskBatching.AllGroupsPlaced: stated under the same one-task-per-account assumption.
- The SQLite layer is not modelled: errors from `rusqlite`, connection locking, and the `i32` / `i64` widths of the columns. Table contents are maps from keys to rows with unbounded integers.
- The header lookup by lower-cased substring is modelled. The round-trip lemmas of the importers assume headers that resolve to the export's column order. They do not prove that the literal header texts of the exporter resolve that way.
- The `Completion_Info` sheet's records (`fullCompletionUpToDate`, `completedToday`, and the `Date` parsing they use) are not modelled. The first pass skips that sheet, as the code does; the second pass treats it like any other sheet.
- ExcelStyling.GetTextColor: the luminance branch is computed exactly in integers, but the contract only states the no-pattern fallback. The source's floating-point threshold is left out.
- `daysOffsetRaw` and `timeSpentRaw` of the game page's columns are display copies and are not modelled.
- Export I/O is not modelled: the hard-coded export directory, file dialogs, `XLSX.read` / `sheet_to_json` and `XLSX.writeFile`. Parsers work on already-decoded rows.
- The file, read, write and Excel error handlers and the validation-error record builder are not modelled, because they only build records stamped with the clock.

## Findings

| source | as written | input that shows it | evidently intended | confidence | as-written member | corrected member |
|---|---|---|---|---|---|---|
| src/services/excel/excel-parser.ts:44-250 | `parseExcelFile` runs its sheet loop twice: the first loop already reads the `_Lvl`, `_Evt`, `Levels`, `Purchase Events`, `Accounts` and detail sheets, and the second loop reads them all again into the same result | a workbook with a single sheet `G_Lvl` holding one level row: the result lists that level twice | every sheet's records are read once | not executed | ExcelParser.LevelsSheetTwice | ExcelParser.ParseExcelFile |
| src/services/excel/excel-parser.ts:164-196 | a "(C)" mark in column `col` is credited to `colHeaders[col - 4]`, but `colHeaders` skips columns without a token, so every column after an empty-token column is shifted | a matrix sheet whose column 4 has no token and column 5 has one: a mark in column 4 is recorded under column 5's header, and a mark in column 5 is dropped | a mark is credited to the header of its own column, and a mark under a column without a token is ignored | not executed | ExcelParser.MarksMisplacedAsWritten | ExcelParser.ExtractProgress |
| src/pages/accounts/AccountDetailPage.tsx:545-548 | the undated columns are found by leaving out every column whose id is among the dated columns' ids, but level ids and purchase event ids come from different tables | a level with id 1 on day 0 and a purchase event with id 1 without a day: the purchase event is missing from the "all" columns | every column without a day is appended once | not executed | AccountDayWalk.AsWrittenDropsPurchase | AccountDayWalk.AllModeKeepsEveryColumn |
