# PowerMason expense import and dashboard rules, modelled in Dafny

PowerMason is a construction-project dashboard. This project models two parts of it.

**The import script** (`management/commands/import_projects.py`) works on the active worksheet of a project workbook:
- `safe_decimal` coerces cell values to exact decimals.
- The script sums `(F/C)*E` over rows 10 to 113, skipping incomplete rows and rows with a zero base.
- It rounds the total to cents, half-up.
- It derives the "accomplished this period" and "total accomplished" percentages from that total, cell H3 and the approved contract in E117.

How the model represents it:
- Decimals are exact rationals (`real`).
- The worksheet is a map from cell address to cell value.
- The default decimal context's Overflow trap and `quantize`'s digit limit are modelled as error outcomes. The per-row handler catches these. At line 50 nothing does, so the script stops.

**The dashboard script** (`static/js/script.js`):
- `calculateStatus` is a priority-ordered status classifier; `getStatusClass` maps labels to CSS classes.
- The expense form validates an entry, appends it to the `expenses` array and rewrites the list text.
- `updateProjectTable` adds uploaded projects to the table by name, overwriting a shown project only when the user confirms.

How the model represents it:
- JavaScript numbers are `NaN`, an infinity, or an exact finite value, so comparisons with NaN come out false.
- The page's mutable state becomes two classes, `ExpenseLedger.ExpenseList` and `ProjectTable.ProjectList`, and their methods update it.

Modules:
- `Optional`: option type.
- `Digits`: decimal digit strings and `str` of an int.
- `SafeDecimal`: `safe_decimal`.
- `DecimalContext`: Overflow, `quantize`, ROUND_HALF_UP.
- `ExpenseImport`: the rest of the import script.
- `JsValues`: JavaScript numbers, sheet values and `trim`.
- `ProjectStatus`: the two status functions.
- `ExpenseLedger`: the expense form.
- `ProjectTable`: `updateProjectTable`.

Two behaviours of the import script that are easy to misread:
- **Signed text.** `Decimal(str(value))` accepts one leading sign: `"-5"` is -5 and `"+5"` is 5 (`SafeDecimal.LeadingSignAccepted`). Within the modelled literal grammar (sign, digits, one point), a `+` or `-` after the first character, or a `*` or `/` anywhere, makes the text unparseable, so it coerces to 0.00 (`SafeDecimal.FormulaTextIsZero`). Exponent forms such as `1E+5`, which `Decimal` does accept, are outside that grammar (see `SafeDecimal.ParseDecimal` under "Left out").
- **Zero total or contract.** When the total or the contract is zero, `accomplished_to_this_period_percentage` is never assigned. Line 85 then raises, and the block ends in its error handler, so no percentage is reported (`ExpenseImport.EmptySheetReportsError`).

## Model

| member | source | states |
|---|---|---|
| Digits.IntToString | PowerMasonProject/management/commands/import_projects.py:20 | `str` of an int: at least one character, a leading minus exactly for negatives |
| Digits.NatToStringValue | PowerMasonProject/management/commands/import_projects.py:20 | reading back the digits of `str(n)` gives n |
| SafeDecimal.Str | PowerMasonProject/management/commands/import_projects.py:20 | `str(value)` of an int is its decimal text, of a bool "True"/"False" |
| SafeDecimal.IntCellIsExact | PowerMasonProject/management/commands/import_projects.py:18-20 | an int cell coerces to exactly that integer, negative ones included |
| SafeDecimal.FixedPointIsExact | PowerMasonProject/management/commands/import_projects.py:18-20 | a literal `whole.frac` with no sign, a `-` or a `+` parses to exactly the value its digits spell, negated for `-` |
| SafeDecimal.ParseDecimal | PowerMasonProject/management/commands/import_projects.py:20 | a parsed literal is non-empty, is negative only when it starts with `-`, and is never positive when it starts with `-` |
| SafeDecimal.ToDecimal | PowerMasonProject/management/commands/import_projects.py:18-22 | whenever `Decimal(str(value))` parses, the result is exactly the parsed value; text that does not parse gives 0.00; a negative result comes from text starting with `-` |
| SafeDecimal.IntegerLiteralIsExact | PowerMasonProject/management/commands/import_projects.py:18-20 | a point-free literal with no sign, `-` or `+` (such as "007" or "+12") parses to the value of its digits, negated for `-`, and a text cell holding it coerces to exactly that |
| SafeDecimal.ShiftedScales | PowerMasonProject/management/commands/import_projects.py:20 | the digits after the point are worth their integer value divided by 10 to the number of digits |
| SafeDecimal.FloatTenPointOne | PowerMasonProject/management/commands/import_projects.py:18-20 | the float 10.1 (repr "10.1") coerces to exactly 10.1, not its binary expansion |
| SafeDecimal.ParsedCharacters | PowerMasonProject/management/commands/import_projects.py:20-22 | whatever parses consists of digits, points and at most one leading sign |
| SafeDecimal.FormulaTextIsZero | PowerMasonProject/management/commands/import_projects.py:20-22 | text with `*` or `/` anywhere, or `+`/`-` after the first character (such as "100+1"), is rejected and coerces to 0.00 without raising |
| SafeDecimal.LeadingSignAccepted | PowerMasonProject/management/commands/import_projects.py:20 | "-5" coerces to -5 and "+5" to 5 |
| SafeDecimal.NonNumericWordsAreZero | PowerMasonProject/management/commands/import_projects.py:20-22 | an empty cell ("None") and a boolean ("True"/"False") coerce to 0.00 |
| DecimalContext.AtLeastPow10Iff | PowerMasonProject/management/commands/import_projects.py:39 | the Overflow test is the comparison of the magnitude with 10^n |
| DecimalContext.RoundHalfUpCents | PowerMasonProject/management/commands/import_projects.py:50 | rounding keeps the sign: a negative input never rounds above zero, a non-negative one never below |
| DecimalContext.RoundedIsClose | PowerMasonProject/management/commands/import_projects.py:50 | half-up rounding to cents gives whole hundredths, within 0.005 of the input, with the input's sign |
| DecimalContext.Quantize | PowerMasonProject/management/commands/import_projects.py:50 | `quantize(Decimal('1.00'), ROUND_HALF_UP)` fails exactly when the result needs more than 28 digits, and otherwise gives whole hundredths within 0.005 |
| DecimalContext.QuantizeFailsOnlyWhenTooWide | PowerMasonProject/management/commands/import_projects.py:50 | `quantize` fails iff the rounded value times 100 reaches 10^28; otherwise the result is the half-up rounding |
| DecimalContext.RoundIsNearest | PowerMasonProject/management/commands/import_projects.py:50 | no hundredth is closer to the input than the rounded value |
| DecimalContext.TieRoundsAwayFromZero | PowerMasonProject/management/commands/import_projects.py:50 | an exact tie rounds away from zero |
| DecimalContext.RoundIsOdd | PowerMasonProject/management/commands/import_projects.py:50 | rounding is symmetric about zero |
| DecimalContext.RoundKeepsCents | PowerMasonProject/management/commands/import_projects.py:50 | whole hundredths are unchanged, so rounding is idempotent |
| ExpenseImport.DecimalView | PowerMasonProject/management/commands/import_projects.py:28-36 | the coerced view has a value exactly for the non-empty cells |
| ExpenseImport.Evaluate | PowerMasonProject/management/commands/import_projects.py:32-47 | a row is "missing values" iff one of F, C, E is empty |
| ExpenseImport.Accumulated | PowerMasonProject/management/commands/import_projects.py:37-47 | with all cells present: skipped iff C = 0; an added term t satisfies t*C = F*E and none of F/C, t and the new total overflows |
| ExpenseImport.AccumulatedAdds | PowerMasonProject/management/commands/import_projects.py:37-41 | conversely, with C non-zero and none of F/C, (F/C)*E and the new total overflowing, the row adds exactly (F/C)*E |
| ExpenseImport.AddRow | PowerMasonProject/management/commands/import_projects.py:37-47 | the arithmetic of one complete row produces the outcome and new total of the functional model |
| ExpenseImport.ScanRow | PowerMasonProject/management/commands/import_projects.py:27-47 | one pass of the loop body reads, coerces and accumulates as the functional model says |
| ExpenseImport.ScanExpenses | PowerMasonProject/management/commands/import_projects.py:25-47 | the loop's total and per-row outcomes are those of the recursive functional model over rows 10..113 |
| ExpenseImport.ScanVisitsEachRowOnce | PowerMasonProject/management/commands/import_projects.py:25 | the scan has exactly one outcome per row, the i-th being row 10+i at the total before it |
| ExpenseImport.TotalIsSumOfAddedTerms | PowerMasonProject/management/commands/import_projects.py:32-45 | the total is the sum of the added terms read off the outcome log; skipped and failed rows add nothing (the total against an independent sum is TotalIsPlainSum) |
| ExpenseImport.RowContribution | PowerMasonProject/management/commands/import_projects.py:32-45 | a row changes the total only when F, C, E are present and C is not zero, and then by t with t*C = F*E |
| ExpenseImport.CompleteRowIsAdded | PowerMasonProject/management/commands/import_projects.py:32-41 | conversely, a complete row with C non-zero whose arithmetic does not overflow adds exactly (F/C)*E to the total |
| ExpenseImport.TotalIsPlainSum | PowerMasonProject/management/commands/import_projects.py:25-47 | when no row overflows, the total is the plain sum of (F/C)*E over the complete rows with C non-zero, and no row ends in the error handler |
| ExpenseImport.TotalNeverOverflows | PowerMasonProject/management/commands/import_projects.py:25-47 | the running total never reaches the Overflow bound: a row that would push it there is caught and leaves it unchanged |
| ExpenseImport.FailedRowActsAsEmpty | PowerMasonProject/management/commands/import_projects.py:25-47 | a row whose arithmetic raises leaves the total as if that row were empty, keeping every other row's contribution |
| ExpenseImport.TotalsAgree | PowerMasonProject/management/commands/import_projects.py:25-47 | the total depends on the worksheet only through the F, C and E cells of the scanned rows |
| ExpenseImport.PrefixUnaffected | PowerMasonProject/management/commands/import_projects.py:25-47 | emptying a row does not change the total accumulated before it |
| ExpenseImport.SingleDataRow | PowerMasonProject/management/commands/import_projects.py:25-47 | with one complete row in the window the total is that row's contribution |
| ExpenseImport.OneRowExample | PowerMasonProject/management/commands/import_projects.py:25-50 | F10=50, C10=100, E10=1000 totals 500.00 |
| ExpenseImport.ZeroBaseExample | PowerMasonProject/management/commands/import_projects.py:25-50 | a window whose only data row has C = 0 totals 0.00 without raising |
| ExpenseImport.Percentages | PowerMasonProject/management/commands/import_projects.py:77-95 | the block fails with the unassigned name exactly when the total or the contract is zero; otherwise the figures are reported exactly when neither division, product, sum nor `quantize` fails; the printed this-period figure is the half-up rounding of total/contract*100, and the total-accomplished figure is whole hundredths within 0.005 of before + that unrounded percentage |
| ExpenseImport.ModestFiguresAreReported | PowerMasonProject/management/commands/import_projects.py:77-95 | with both non-zero and a percentage and before-period figure below 10^20, the percentages are reported |
| ExpenseImport.ReportPercentages | PowerMasonProject/management/commands/import_projects.py:77-95 | the statement sequence yields the report of the functional model |
| ExpenseImport.AccomplishedRoundedOnce | PowerMasonProject/management/commands/import_projects.py:85-88 | the total-accomplished figure is the half-up rounding of before + the unrounded this-period percentage |
| ExpenseImport.RoundingOnceDiffersFromAddingRounded | PowerMasonProject/management/commands/import_projects.py:80-88 | adding the printed (rounded) percentage instead would give a different figure: 10.01 versus 10.00 |
| ExpenseImport.Run | PowerMasonProject/management/commands/import_projects.py:11-95 | a run stops at line 50 with the raw total exactly when `quantize` of the total fails; otherwise it finishes with the total rounded half-up to cents and the percentages of that total, H3 and E117 |
| ExpenseImport.RunImport | PowerMasonProject/management/commands/import_projects.py:11-95 | the script's statements produce the outcome of the functional model |
| ExpenseImport.EmptySheetReportsError | PowerMasonProject/management/commands/import_projects.py:76-95 | an empty worksheet totals 0.00 and the retrieval block ends in its handler, not with a zero percentage |
| JsValues.NumberOrder | PowerMasonProject/static/js/script.js:169-172 | `<` is a strict total order on non-NaN numbers; every comparison with NaN is false; `<=` is `<` or equal |
| JsValues.ValueText | PowerMasonProject/static/js/script.js:142 | `String(v)` of a string is the string itself |
| JsValues.Trim | PowerMasonProject/static/js/script.js:202 | `trim()` is no longer than the text and neither starts nor ends with white space |
| JsValues.TrimStartShape | PowerMasonProject/static/js/script.js:202 | trimming the start drops exactly the leading white space and leaves a suffix that does not start with white space |
| JsValues.TrimEndShape | PowerMasonProject/static/js/script.js:202 | trimming the end drops exactly the trailing white space and leaves a prefix that does not end with white space |
| JsValues.TrimIsCore | PowerMasonProject/static/js/script.js:202 | `trim()` is the stretch of the text between leading and trailing white space, and neither starts nor ends with white space |
| JsValues.TrimEmptyIffAllSpace | PowerMasonProject/static/js/script.js:202-206 | the trimmed text is empty iff the text is all white space |
| JsValues.TrimIdempotent | PowerMasonProject/static/js/script.js:102 | trimming twice is trimming once |
| ProjectStatus.CalculateStatus | PowerMasonProject/static/js/script.js:164-173 | one of the four labels; "Completed" iff progress === 100; "Budget Overrun" iff not completed and expenses > budget; "Delayed" iff neither and progress < 50 and fewer than 14 days remain; "On Track" otherwise |
| ProjectStatus.CompletedWins | PowerMasonProject/static/js/script.js:169 | progress 100 is "Completed" whatever budget, expenses and dates are |
| ProjectStatus.OverrunOutranksDelay | PowerMasonProject/static/js/script.js:170-171 | an overrun with low progress and two days left is "Budget Overrun" |
| ProjectStatus.NaNNeverAlarms | PowerMasonProject/static/js/script.js:170-171 | a NaN budget or expense is never an overrun; NaN progress or an unparseable end date is never "Delayed" |
| ProjectStatus.StatusClass | PowerMasonProject/static/js/script.js:175-184 | Completed to status-completed, Budget Overrun and Delayed to status-delayed, On Track to status-ontrack, every other string to status-unknown |
| ProjectStatus.ComputedStatusHasKnownClass | PowerMasonProject/static/js/script.js:164-184 | every status the classifier produces has a class other than status-unknown |
| ProjectStatus.StatusClassAsWritten | PowerMasonProject/static/js/script.js:175-184 | the object-literal lookup returns an inherited Object.prototype member exactly for the inherited property names |
| ProjectStatus.AsWrittenAgreesOffPrototype | PowerMasonProject/static/js/script.js:175-184 | the lookup as written agrees with the table on every other string, and so on every computed status |
| ProjectStatus.ConstructorIsNotUnknown | PowerMasonProject/static/js/script.js:175-184 | as written, "constructor" yields the inherited constructor, not status-unknown |
| ExpenseLedger.DisplayText | PowerMasonProject/static/js/script.js:217-234 | an empty list shows exactly "No expenses recorded yet."; otherwise the text starts with "Expenses:\n" followed by the first expense's line, numbered 1 |
| ExpenseLedger.DisplayGrowsByOneLine | PowerMasonProject/static/js/script.js:211-234 | recording one more expense appends one line numbered with the new length, after the existing text or, for the first expense, after the header that replaces the empty-list text |
| ExpenseLedger.LinesInOrder | PowerMasonProject/static/js/script.js:223-231 | the lines of expenses 0..i, in that order, begin the listing |
| ExpenseLedger.Acceptable | PowerMasonProject/static/js/script.js:206 | an entry passes iff date, description and category are non-empty and the amount is +Infinity or a finite number above zero |
| ExpenseLedger.ExpenseList.constructor | PowerMasonProject/static/js/script.js:195 | the page starts with no expenses and the empty-list text |
| ExpenseLedger.ExpenseList.Submit | PowerMasonProject/static/js/script.js:198-215 | accepted iff date, trimmed description and category are non-empty and the amount is a number above 0; on accept the entry is appended and the text shows the new list; on reject the list and the text are unchanged |
| ExpenseLedger.ExpenseList.UpdateDisplay | PowerMasonProject/static/js/script.js:217-234 | the loop leaves the text equal to the display of the list, which it does not change |
| ExpenseLedger.RejectedEntries | PowerMasonProject/static/js/script.js:201-209 | a blank description, a zero amount or a NaN amount is rejected |
| ExpenseLedger.InfiniteAmountAccepted | PowerMasonProject/static/js/script.js:203-206 | an amount that parses to Infinity passes the check |
| ProjectTable.NewRow | PowerMasonProject/static/js/script.js:131-159 | the new row's trimmed name is the project's trimmed name, its status is `calculateStatus` of the project's figures and its class is that status's class, which is not status-unknown |
| ProjectTable.FindRow | PowerMasonProject/static/js/script.js:116-121 | the index of the first row whose trimmed name matches, or the length when there is none |
| ProjectTable.Step | PowerMasonProject/static/js/script.js:105-160 | a declined overwrite leaves rows and set unchanged; a confirmed one removes the first row with that name and appends the new row; a new name appends the row; the set always gains the key; the table never shrinks and grows by at most one row |
| ProjectTable.Process | PowerMasonProject/static/js/script.js:105 | processing the projects in order only adds names to the set, never shrinks the table and adds at most one row per project |
| ProjectTable.ProcessAppend | PowerMasonProject/static/js/script.js:105 | projects are processed in upload order, one after another |
| ProjectTable.DeclineSkipsOnlyThatProject | PowerMasonProject/static/js/script.js:105-113 | declining skips only that project: the rest are processed as if it were not in the upload |
| ProjectTable.NamesAreRemembered | PowerMasonProject/static/js/script.js:98-128 | the set only grows and holds the key of every processed project |
| ProjectTable.RepeatedNamePrompts | PowerMasonProject/static/js/script.js:109-128 | a name repeated later in the same upload is asked about |
| ProjectTable.TrimmedStepConsistent | PowerMasonProject/static/js/script.js:105-160 | comparing trimmed names, a step keeps the set equal to the rows' names and the names distinct |
| ProjectTable.TrimmedNamesStayUnique | PowerMasonProject/static/js/script.js:96-162 | comparing trimmed names, a table without repeated names never gets one, and every uploaded name ends up in it |
| ProjectTable.NumericNameDuplicates | PowerMasonProject/static/js/script.js:109-128 | as written, a numeric name uploaded twice with the overwrite confirmed leaves two rows; with trimmed names, one |
| ProjectTable.ProjectList.DisplayedNames | PowerMasonProject/static/js/script.js:98-103 | the loop collects the trimmed name of every displayed row |
| ProjectTable.ProjectList.AddProject | PowerMasonProject/static/js/script.js:105-160 | the callback changes the rows and the set as one step of the functional model, with names compared as written or trimmed |
| ProjectTable.ProjectList.UpdateProjectTable | PowerMasonProject/static/js/script.js:96-162 | the rows end as the functional model's processing of all projects, starting from the displayed rows and their names, with names compared as written or trimmed |

## Left out

- Workbook loading from the fixed file path and every `print` (import_projects.py:1-9, 68-92). The worksheet is a given map from address to value. The cells B1-B4 and H1 are read and only printed. H2 (`accomplished_to_date`) is coerced by `safe_decimal`, which cannot raise, and then never printed or used.
- The 28-significant-digit rounding of the default decimal context on `/`, `*` and `+`. Arithmetic is exact.
- Underflow and the other signals of the decimal context are not modelled. Only the Overflow trap and `quantize`'s InvalidOperation are.
- SafeDecimal.ParseDecimal: the `Decimal` grammar beyond an optional sign, digits and one optional point. Exponents, `NaN`, `Infinity`, surrounding white space, underscores and decimal digits other than ASCII `0`-`9` (such as the fullwidth digits U+FF11 U+FF12, which `Decimal` reads as 12) are treated as unparseable (0.00). So floats whose `repr` uses an exponent, such as 1e+16, coerce to 0.00 here.
- The text `str()` gives for a float or a datetime is carried in the cell value rather than computed.
- Everything the dashboard script does with the DOM, `fetch`, history, `FileReader` and XLSX parsing (script.js:1-94). Uploaded rows are given as values.
- `confirm` is an input: the answer the user would give for each upload.
- `new Date()` and the day arithmetic (script.js:165-167). `remainingDays` is a parameter.
- `parseFloat` is an input: the parsed amount, budget, expenses and progress are given.
- The currency formatting of `toLocaleString` and `Intl.NumberFormat` is not modelled. The expense amount's formatting is a function parameter, and the money cells of the project row are not modelled.
- Rounding of finite numbers to doubles is not modelled.
- The estimation form and report generation (script.js:239-342).
- `expenseForm.reset()` and the `alert`.
- ProjectTable.ProjectList.UpdateProjectTable: the row text is taken to be `String(Name)` as written, that is, names without HTML markup characters. The mode `AsWritten` is the script's comparison of the raw `Name`; `Trimmed` is the corrected comparison (see Findings).
- Table cells other than the name and the status tag: dates, formatted money, progress and the update button.

## Findings

| source | as written | input that shows it | evidently intended | confidence | as-written member | corrected member |
|---|---|---|---|---|---|---|
| PowerMasonProject/static/js/script.js:175-184 | `{...}[status] \|\| "status-unknown"` looks the label up on a plain object, so inherited Object.prototype members count as entries | status "constructor" (also "toString", "__proto__", ...) | every label outside the table maps to status-unknown | low: `calculateStatus` never produces such a label; not executed | ProjectStatus.ConstructorIsNotUnknown | ProjectStatus.ComputedStatusHasKnownClass |
| PowerMasonProject/static/js/script.js:109-128 | the set and the row search use the raw `Name`, while the set starts with, and the rows hold, trimmed text | a sheet whose Name column holds the number 7 (or " A ") twice, overwrite confirmed | a confirmed overwrite replaces the shown row; names stay unique | medium: numeric names come straight from `sheet_to_json`; not executed | ProjectTable.NumericNameDuplicates | ProjectTable.TrimmedNamesStayUnique |
