# Budgetpy core, modelled in Dafny

Budgetpy is a command-line tool that prices a construction budget against the
SINAPI reference table. SINAPI is the Brazilian federal bank's monthly table of
construction compositions and their costs. The tool does three things:

- looks compositions up by keywords;
- joins a budget's rows to the reference table by composition code;
- adds up quantity × unit cost.

It can also download the month's reference table for a state and a payroll-tax
regime ("Desonerado" or "NaoDesonerado").

This project models the logic of `project.py` and `request.py`:

- `wrappers.dfy`: `Option` and `Result`.
- `prompts.dfy`: the reprompt loop shared by the index, regime and state
  prompts. It reads input lines until one is accepted.
- `text.dfy`: the Python string operations the core relies on. These are
  `strip`, `endswith`, substring `in`, ASCII `lower`/`upper`/`title` and
  one-character `replace`.
- `numbers.dfy`: `int()` and `float()` on positional decimal text, and the
  text Python prints for a float (`str(float)`) on positional decimals.
  Values are exact `real`s.
- `project.dfy` (module `Project`) models these parts of `project.py`:
  - the file-name rule and the keyword filter;
  - the two column-index prompts, as loops over the input lines;
  - the two normalisation rules;
  - the in-place overwrite of the reference table's cost column, as a class
    `ReferenceTable` whose method updates its `rows`;
  - the left join, the total and the mean;
  - `calculate_total_cost` as a method.
- `request.dfy` (module `Request`) models these parts of `request.py`:
  - `get_date`, with today's year and month as a parameter;
  - the URL and the spreadsheet name;
  - the answer loops of `get_desonerado` and `get_state`;
  - the attempt loop of `download_sinapi_table`. Each attempt's result comes
    from an abstract `server` function.

## Model

| member | source | states |
|---|---|---|
| Project.FilenameAddExtension | project.py:69-76 | The result is the stripped name, or the stripped name plus ".xlsx". It is the stripped name exactly when that already ends with ".xlsx". It always ends with ".xlsx" and is stripped. |
| Project.FilenameAddExtensionIdempotent | project.py:72-76 | Applying the rule to its own result changes nothing. |
| Project.MatchingDescriptions | project.py:133-139 | The descriptions kept hold every keyword as a substring. Every row description that holds every keyword is kept. |
| Project.SelectByDescription | project.py:141 | `isin`: a row is selected exactly when it is in the table and its description is in the allowed list. |
| Project.MatchesAll | project.py:138 | `all(keyword in description ...)` holds exactly when every keyword occurs at some position of the description. |
| Project.Filter | project.py:129-141 | A row is in the result exactly when it is in the table and its description contains every keyword. |
| Project.Keep | project.py:136-141 | A row is kept exactly when it is in the table and its description contains every keyword. No more rows than the table. |
| Project.FilterIsKeep | project.py:129-141 | The result is the rows whose description contains every keyword, kept in table order (a subsequence). |
| Project.SelectIsKeep | project.py:136-141 | Selecting by matching descriptions keeps exactly the matching rows, in order. This holds even for rows that share a description. |
| Project.KeepNoKeywords | project.py:138 | With no keywords every row is kept. |
| Project.KeepIdempotent | project.py:136-141 | Keeping the matching rows twice is the same as keeping them once. |
| Project.FilterNoKeywords | project.py:138-141 | An empty keyword list returns the whole table. |
| Project.FilterIdempotent | project.py:129-141 | Filtering the result again with the same keywords changes nothing. |
| Project.FilterNoMatch | project.py:136-141 | When no description matches, the result is empty. |
| Project.KeepNoMatch | project.py:136-141 | When no description matches, nothing is kept. |
| Prompts.FirstAccepted | project.py:274-282 | A reprompt loop's answer is the first line the prompt accepts, with the number of lines read. Every earlier line is rejected. `None` exactly when every line is rejected. |
| Prompts.FirstAcceptedIs | project.py:274-282 | A line that is accepted, with every line before it rejected, is the answer. The answer is unique. |
| Prompts.ReadUntilAccepted | project.py:274-282 | The loop reads lines one at a time and stops at the first accepted one. Its value and the lines read are those of `FirstAccepted`. Without an accepted line it reads every line and returns `None`. |
| Project.ColumnIndex | project.py:276-280 | A line is accepted exactly when `int()` parses it and the value lies in `range(columnCount)`. The index is that value, never clamped. |
| Project.GetCompositionIndex | project.py:271-282 | The prompt returns the first in-range integer line, as `FirstColumnIndex` defines it, and the lines read. `None` exactly when there is none. |
| Project.GetQuantitiesIndex | project.py:285-296 | The same as the composition prompt, for the quantities column. |
| Project.FirstColumnIndex | project.py:274-282 | The line it picks parses as an integer in range, and the index is that integer. Every earlier line is not an integer or is out of range. `None` exactly when every line is rejected. |
| Project.ColumnIndexExample | project.py:277-280 | With 3 columns, "5" and "4" are rejected. ["5","1"] gives index 1 after 2 lines, and ["4","2"] gives index 2 after 2 lines. |
| Project.QuantityText | project.py:243 | The quantity text has the same length. Each ',' becomes '.' and every other character is unchanged. |
| Project.CostText | project.py:244 | The cost text is no longer than its input and has no ','. Text without '.' or ',' is unchanged. |
| Project.ConcatDigits | project.py:244 | Gluing digit groups together gives digits. |
| Project.RemoveGroupPoints | project.py:244 | Removing '.' from digit groups joined by '.' glues the groups together. |
| Project.RemovePointsBeforeComma | project.py:244 | Removing '.' leaves a comma and a point-free fraction in place. |
| Project.ReplaceOnlyComma | project.py:244 | Replacing the only comma turns it into the decimal point. |
| Project.DigitsHaveNoSeparators | project.py:243-244 | Digits contain neither separator. |
| Project.CostTextOfLocale | project.py:244 | A Brazilian-formatted cost "g1.g2….gn,f" becomes "g1g2…gn.f". |
| Project.CostValueOfLocale | project.py:244 | That text parses, and its value is the grouped digits' value plus the fraction. |
| Project.ParseNormalised | project.py:244 | "w.f" with digit parts parses to w + f / 10^\|f\|. |
| Project.QuantityTextOfLocale | project.py:243 | "w,f" becomes "w.f". |
| Project.QuantityExample | project.py:243 | "1234,56" becomes "1234.56". |
| Project.CostExample | project.py:244 | "1.234,56" becomes "1234.56". |
| Project.RemoveGroupPoint | project.py:244 | Removing '.' from "1234.56" gives "123456". |
| Project.CostTextDropsPoint | project.py:244 | The cost rule turns "1234.56" into "123456". |
| Project.CostTextNotIdempotent | project.py:244 | Applying the cost rule twice to "1.234,56" gives "123456", not "1234.56". |
| Project.ConvertCell | project.py:244 | As written, every cell is converted from its printed text: the result is what the text cell of that text would give. |
| Project.CellTextRoundTrip | project.py:244 | `str(x)` of a float cell (`Project.CellText`) read back with `float()` gives that float, value and text, when the float carries the text Python prints for it. |
| Project.CellCost | project.py:244 | The intended conversion of one cell returns a float already stored as it is. |
| Project.ConvertCostsAsWritten | project.py:244 | As written, the column converts exactly when every cell's printed text converts. Then each row keeps its code and description and gets that float, and every cost is a float. |
| Project.ConvertCostsOnce | project.py:244 | The intended conversion succeeds exactly when every cell converts. Then each row gets its converted float and every cost is a float. Rows that already held a float are unchanged. |
| Project.MapCosts | project.py:244 | `apply` on the cost column succeeds exactly when every cell converts. Then every row keeps its code and description, its cost becomes the converted float, and the order is unchanged. |
| Project.MapCostsAgree | project.py:244 | Two conversions that agree on every cell give the same column. |
| Project.MapCostsKeeps | project.py:244 | A conversion that returns every stored float unchanged leaves the table unchanged. |
| Project.ConvertNormalisedUnchanged | project.py:244 | The intended conversion leaves a table whose costs are already floats unchanged. |
| Project.ConvertCostsOnceIdempotent | project.py:244 | The intended conversion is idempotent. |
| Project.ConvertAgreesOnRaw | project.py:244 | On a table of text cells, the conversion as written and the intended one agree. |
| Project.CostTextOneAndAHalf | project.py:244 | "1,5" becomes "1.5". |
| Project.ParseOneAndAHalf | project.py:244 | `float("1.5")` is 1.5, printed "1.5". |
| Project.CostTextPrintedOneAndAHalf | project.py:244 | The float 1.5, printed "1.5", is rewritten to "15". |
| Project.ParseFifteen | project.py:244 | `float("15")` is 15.0, printed "15.0". |
| Project.ConvertOneAndAHalf | project.py:244 | The text "1,5" converts to 1.5 under both conversions. |
| Project.ConvertPrintedOneAndAHalf | project.py:244 | As written, the float 1.5 converts to 15.0. |
| Project.MapCostsSingle | project.py:244 | On a one-row table the column is the converted cell, or the whole `apply` fails. |
| Project.ConvertAsWrittenTwice | project.py:244 | As written, a second costing turns a unit cost of 1.5 into 15.0. |
| Project.ConvertOnceTwice | project.py:244 | The intended conversion keeps 1.5 on the second run. |
| Project.ReferenceTable.constructor | project.py:14 | The table holds the given rows. |
| Project.ReferenceTable.NormaliseCostsAsWritten | project.py:244 | The cost column is overwritten in place with the converted column. When a cell fails to convert, it returns false and the table is unchanged. |
| Project.ReferenceTable.NormaliseCosts | project.py:244 | The intended in-place overwrite. On success every cost is a float. |
| Project.BudgetLines | project.py:243-251 | Successful parsing gives one budget line per budget row. |
| Project.QuantityOf | project.py:243 | A quantity that converts is made only of digits, white space, signs, '.' and ','. |
| Project.ParseColumn | project.py:243 | A column's `apply` succeeds exactly when every cell parses. The result holds each row's parsed cell, in row order. |
| Project.Lines | project.py:243-251 | One budget line per budget row, in order, carrying its row, code and quantity. |
| Project.Matches | project.py:247-251 | The reference rows with a given code are exactly the rows of the table with that code. |
| Project.JoinLine | project.py:247-254 | A budget row joins with every reference row of its code, in reference order. Each joined row's line cost is quantity × "CUSTO TOTAL". With no match, the row appears once with no reference row and no cost. |
| Project.LeftJoin | project.py:247-251 | The left join has at least as many rows as the budget. |
| Project.JoinLineSound | project.py:247-251 | Every row joined for one budget row is sound: its matched reference row carries the budget row's code, and it has no match only when no reference row has that code. |
| Project.LeftJoinKeepsLines | project.py:247-251 | Every budget row appears in the left join, whatever the codes of the reference table. |
| Project.LeftJoinRowsSound | project.py:247-251 | Every row of the left join belongs to a budget row and is sound for the reference table, so reference rows that match no budget row are dropped. |
| Project.MatchesNone | project.py:247-251 | A code absent from the table matches nothing. |
| Project.MatchesUnique | project.py:247-251 | With unique codes, a code matches at most one row. |
| Project.JoinLineUnique | project.py:247-251 | With unique codes, one budget row joins to exactly one row: its match with quantity × unit cost, or the row alone with no cost. |
| Project.LeftJoinUnique | project.py:247-254 | With unique codes, the join has exactly one row per budget row, in budget order. That row is the matched row with quantity × unit cost, or the row alone with no cost. |
| Project.CostedCount | project.py:257 | The count of rows with a cost is 0 exactly when no row has a cost. |
| Project.Mean | project.py:257 | The mean is `None` (NaN) exactly when no row has a cost. Otherwise mean × count of costed rows = total. |
| Project.Total | project.py:256 | The sum skips rows without a cost (NaN). When every line cost is non-negative, so is the total. |
| Project.TotalUncosted | project.py:256 | A join with no cost anywhere sums to 0 (NaN is skipped). |
| Project.TotalAppend | project.py:256 | The total of two parts is the sum of their totals. |
| Project.TotalOfJoin | project.py:247-256 | With unique codes, the total is the sum over budget rows of quantity × unit cost for the rows that match. |
| Project.AllUnmatched | project.py:247-257 | When no budget row matches, the join has one row per budget row, the total is 0 and the mean is NaN. |
| Project.JoinExample | project.py:247-257 | Budget codes 1 and 2 against reference codes 1 and 3 give one costed row and one uncosted row. The total is 20.0 and the mean is 20.0. |
| Project.PromptIndices | project.py:235-236 | Both column indexes are in range. |
| Project.Costing | project.py:243-257 | Lines 243-257 with the corrected conversion of the cost column. The quantities are checked first, then the costs, then the codes. Each error is reported exactly when its column is the first that fails to convert. The table is unchanged when the quantities or the costs fail. Otherwise every cost in it is a float, and codes and descriptions are kept. A successful report has at least as many joined rows as the budget has rows. Which rows they are is stated for the join itself by `Project.LeftJoinKeepsLines` and `Project.LeftJoinRowsSound`. |
| Project.CostingRepeatable | project.py:213-257 | With the corrected conversion, running the costing again on the table it left gives the same report and leaves the same table. |
| Project.ConvertKeepsCodes | project.py:244 | Converting costs keeps the codes unique. |
| Project.CostingUnique | project.py:243-256 | With unique codes, a successful costing has one joined row per budget row and leaves every cost as a float. Its total is the sum over the budget lines of quantity × unit cost. |
| Project.PromptColumns | project.py:235-236 | The two prompts run one after the other on the same input lines. |
| Project.CostWithColumns | project.py:243-257 | The report and the table's new rows are those of the costing, with the corrected conversion of the cost column. |
| Project.CalculateTotalCost | project.py:213-257 | Without two valid index answers the report is `NoColumnIndex` and the table is unchanged. Otherwise the report and the table's new rows are those of the costing at the chosen columns, with the corrected conversion of the cost column. |
| Text.Strip | project.py:72 | `str.strip()`: the result starts and ends with no white space and is no longer than the input. |
| Text.StripStripped | project.py:72 | Stripping stripped text changes nothing. |
| Text.EndsWith | project.py:73 | `endswith` holds exactly when the suffix is no longer than the text and matches its last characters one by one. |
| Text.Contains | project.py:138 | The empty keyword is in every text, and a keyword that occurs is no longer than the text. |
| Text.StripKeeps | project.py:72 | `strip` removes only white space: every other character of the input is still in the result. |
| Text.ContainsIff | project.py:138 | Substring `in` holds exactly when the keyword occurs at some position. |
| Text.Lower | request.py:129 | `str.lower()` on ASCII: every character is lower-cased, one for one. |
| Text.Upper | request.py:26 | `str.upper()` on ASCII: every character is upper-cased, one for one. |
| Text.Replace | project.py:243 | `replace` of one character: each occurrence is replaced and every other character is kept. |
| Text.Remove | project.py:244 | `replace(".", "")`: the result has no '.', is no longer than the input, and is the input itself when there is no '.'. |
| Text.RemoveKeepsOthers | project.py:244 | `replace(".", "")` keeps every other character, each as often as in the input: only the points go. |
| Text.RemoveAppend | project.py:244 | Removing a character distributes over concatenation. |
| Text.LowerUpper | request.py:114 | Lower-casing an upper-cased answer is lower-casing the answer. |
| Text.LowerTitle | request.py:116 | Lower-casing a title-cased answer is lower-casing the answer. |
| Text.Title | request.py:116 | `str.title()` on ASCII text upper-cases every letter that follows a non-letter and lower-cases the others. |
| Numbers.ParseIntText | project.py:276 | `int()` reads back the text of any integer. |
| Numbers.ParseInt | project.py:276 | `int()` accepts only text made of digits, white space and signs. |
| Numbers.ParseFloat | project.py:243-244 | `float()` accepts only text made of digits, white space, signs and the point. |
| Numbers.FloatText | project.py:244 | `str()` of a float already written canonically (no leading zero, at least one fraction digit, no trailing zero) is its sign, whole digits, '.' and fraction. |
| Numbers.FloatTextRoundTrip | project.py:244 | `float(str(x))` gives back x, and its text, for every positional float. |
| Numbers.ParsePositional | project.py:243-244 | `float("w.f")` is the exact value w + f / 10^\|f\|. |
| Numbers.FloatTextCanonical | project.py:244 | `str()` of a float whose text is canonical (no leading zero, no trailing fraction zero) prints that text. |
| Numbers.ParseCanonical | project.py:244 | `float()` of canonical positional text gives a float printed as the same text. |
| Numbers.ParseWhole | project.py:244 | `float("w")` on digits is w, printed "w.0". |
| Request.GetDate | request.py:138-140 | The text is six digits: a year, then a month from 1 to 12. That year and month lie exactly n months before today. |
| Request.MonthsBefore | request.py:139 | Going back n months gives a valid month whose month count is exactly n smaller. |
| Request.OneMonthBefore | request.py:139 | One month back is the previous month, or December of the previous year from January. |
| Request.MonthIndexInjective | request.py:139 | A valid year-month is determined by its month count. |
| Request.PaddedDigits | request.py:140 | Zero-padded digits of the right width and value. |
| Request.FormatYearMonth | request.py:140 | `%Y%m` is six digits: the year, then the month. |
| Request.FormatYearMonthInjective | request.py:140 | Different months have different texts. |
| Request.AttemptDates | request.py:20-49 | With the clock read once, the two attempts ask for one and two months before today, and their dates differ. |
| Request.RegimeNameOfAnswer | request.py:130-133 | `get_desonerado` returns the text "Desonerado" (`Request.RegimeName`) exactly for "y" and "yes", and "NaoDesonerado" exactly for "n" and "no". |
| Request.RegimeOf | request.py:130-135 | A normalised answer is accepted exactly when it is "y", "yes", "n" or "no". It names "Desonerado" exactly when it starts with 'y'. |
| Request.Answer | request.py:129-135 | An input line is accepted exactly when, stripped and lower-cased, it is one of the four answers. It names "Desonerado" exactly when that answer starts with 'y'. |
| Request.GetDesonerado | request.py:125-135 | The loop's regime is the answer of the first accepted line, and every earlier line is rejected. `None` exactly when no line is accepted. |
| Request.AnswerNormalised | request.py:129 | Normalising an answer twice reads it the same way. |
| Request.NormaliseState | request.py:113-116 | The answer keeps its length and is the same up to case. A two-letter answer has no lower-case letter left. |
| Request.EntryMatches | request.py:119 | `user_state in state` on a (name, abbreviation) pair: an answer that equals the name or the abbreviation also matches the entry up to case, as the corrected lookup reads it. |
| Request.FindState | request.py:118-120 | The code returned is the lower-cased abbreviation of an entry whose name or abbreviation equals the answer. `None` exactly when no entry matches. |
| Request.StateOf | request.py:111-120 | Any code returned is one of the 27 listed codes. |
| Request.CaselessAcceptsMore | request.py:113-120 | Every answer the lookup as written accepts, the corrected lookup accepts too. |
| Request.GetState | request.py:110-122 | The state loop, using the corrected lookup, always returns one of the 27 listed codes. |
| Request.TitleAfterUncased | request.py:116 | After a non-letter, title-casing never leaves a lower-case letter. |
| Request.NamesWithParticleUnreachable | request.py:113-120 | No answer normalises to "Rio de Janeiro", "Mato Grosso do Sul", "Rio Grande do Norte" or "Rio Grande do Sul". |
| Request.FindStateCaseless | request.py:118-120 | The corrected scan over a list of entries: the code returned is the lower-cased abbreviation of an entry whose name or abbreviation matches up to case. `None` exactly when no entry matches. |
| Request.StateOfCaseless | request.py:111-120 | The corrected answer only ever selects listed codes. |
| Request.EveryNameSelects | request.py:80-120 | Under the corrected lookup every state's name selects a state. |
| Request.Url | request.py:26 | The date sits in the URL right after the fixed prefix of site, state and upper-cased state. |
| Request.WantedFileName | request.py:62 | The spreadsheet's name starts with the fixed prefix and the state, has the date right after it, and ends with ".xlsx". |
| Request.AttemptUrlsDiffer | request.py:20-26 | With the clock read once, the two attempts request different URLs. |
| Request.DownloadSinapiTable | request.py:20-74 | With the clock read once, as `today`, there are one or two attempts. The first requests the month before today, the second the month before that. A second attempt happens exactly when the first raised. A name is returned exactly when the last attempt got status 200 and a valid archive. The name uses the month of the attempt that succeeded. |
| Request.Answers | request.py:14-17 | The state is read first, with the corrected lookup, then the regime from the lines after it. The state is a listed code. |
| Request.DownloadWithAnswers | request.py:10-74 | The state is read with the corrected lookup. Nothing is requested when the answers run out. Otherwise the first URL uses the chosen state and regime, and a returned name uses them too, with the month of the attempt that succeeded. |

## Left out

- Menus and console output: `main`, `display_main_menu`, `display_lookup_menu`, `lookup_composition_table`, and the printing and retry prompts of `lookup_composition_table_keyword`. These are interactive I/O; the keyword filter itself is modelled.
- `lookup_composition_table_code` is not modelled. It is `int()`, a code filter and printing. It indexes the first matching row before checking for emptiness (project.py:181), so its "not found" branch can never run: an unknown code raises `IndexError`.
- `load_sinapi_table`, `load_budget_file` (budget.py) and reqtest.py: command-line arguments, Excel/CSV reading, encoding and separator detection, and a one-off request script. The tables are parameters of the model instead.
- The rendering of the mean and the total (`:,.2f`) and the CSV export prompt: output only.
- Floating point: costs and quantities are exact `real`s. Rounding, scientific notation, `inf`, `nan` and the float texts Python prints in exponent form are not modelled.
- Numbers.ParseFloat: accepts only an optional sign and positional digits with at most one point. Python's `float()` also accepts exponents, underscores, non-ASCII decimal digits and "inf"/"nan".
- Numbers.ParseInt: accepts only an optional sign and digits. Python's `int()` also accepts underscores and non-ASCII decimal digits.
- Text.Lower, Text.Upper, Text.Title: map ASCII letters only. Non-ASCII case mapping and `unidecode` are foreign code; answers are taken to be ASCII already.
- Project.CostCell: a cost cell is either text or a float. pandas' own typing of a cell read from Excel (an integer cost read as `int`) is not modelled.
- Project.Costing: reads the codes with `int()` from the budget's text, whereas pandas compares the typed values, and it takes the code column and the quantity column to be different columns.
- Project.Costing: an empty budget cell makes the whole costing fail (`Err(QuantityNotNumeric)` for a quantity, `Err(CodeNotInteger)` for a code). pandas reads an empty cell as NaN: an empty quantity gives a NaN line cost that the sum and the mean skip, and an empty code matches no reference row.
- Project.CalculateTotalCost, Project.CostWithColumns, Project.Costing: use the corrected conversion of the cost column (see Findings). A second costing in one session therefore keeps a unit cost of 1.5 where project.py:244 as written gives 15.0. The overwrite as written is Project.ReferenceTable.NormaliseCostsAsWritten.
- Numbers.Float: a float is its value together with the text `str()` prints for it. Every float `Numbers.ParseFloat` makes carries that text (`Numbers.FloatTextRoundTrip`). A float already stored in the loaded reference table is taken to carry its own printed text; nothing in `Project.Costing` requires it.
- Project.Mean: models the NaN of an empty mean as `None`; other NaN arithmetic is not modelled.
- Reading past the last input line (`EOFError`) is modelled as `None` in every prompt loop.
- Request.DownloadSinapiTable: the HTTP session, the writing of `sinapi.zip`, both extractions and the file moves are abstracted into `server`, which gives each URL's outcome. Whether the spreadsheet really was in the archive plays no part: the name is returned either way, as in the source.
- Request.GetDate: `datetime.today()` is a parameter `today` (year and month only). Months outside datetime's range (years 1 to 9999), where `relativedelta` raises, are excluded by a precondition.
- Request.GetState, Request.Answers, Request.DownloadWithAnswers: read the state with the corrected, case-insensitive lookup (see Findings). The lookup as written is `Request.StateOf`. Every answer it accepts, the corrected lookup accepts too (`Request.CaselessAcceptsMore`), and the corrected lookup also accepts the four names the code as written can never match. That both select the same state for an answer both accept is not proved.
- Request.DownloadSinapiTable, Request.DownloadWithAnswers, Request.AttemptDates, Request.AttemptUrlsDiffer: the clock is read once, as the parameter `today`, and serves both attempts, whereas request.py:22 calls `get_date` and so `datetime.today()` (request.py:139) again on each attempt. A month boundary passed between the two attempts is not modelled: there the source's second attempt can ask for the same month, and the same URL, as the first. Months outside datetime's range (years 1 to 9999) are excluded by the precondition `AttemptDateValid`, as for `Request.GetDate`.
- A status other than 200 ends the download loop at once, with no retry for an earlier month. The model follows the code here.

## Findings

| source | as written | input that shows it | evidently intended | confidence | as-written member | corrected member |
|---|---|---|---|---|---|---|
| project.py:244 | Each costing run rewrites the shared reference table's "CUSTO TOTAL" column in place, and it rewrites cells that are already floats too. `str(1.5)` is "1.5", and removing "." gives "15". | A table cell "1,5", costed twice from the main menu: the first run sees 1.5, the second 15.0. | The text cells are converted once, and floats already stored are kept. | not executed | Project.ConvertAsWrittenTwice (with Project.ReferenceTable.NormaliseCostsAsWritten) | Project.ConvertOnceTwice, Project.CostingRepeatable (with Project.ReferenceTable.NormaliseCosts) |
| request.py:113-120 | An answer longer than two characters is title-cased before it is compared with the state names. Title-casing upper-cases the "d" of "de"/"do" after a space, so four names can never match. | "Rio de Janeiro" becomes "Rio De Janeiro", which is not in the list; the user can only answer "RJ". | Every state's name selects it; the comparison ignores case. | not executed | Request.NamesWithParticleUnreachable | Request.EveryNameSelects, Request.CaselessAcceptsMore (with Request.StateOfCaseless) |
