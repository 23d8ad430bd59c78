# calc_my_coins in Dafny

calc_my_coins.py adds up Turkish lira coins listed in a text file. Each line
of the ledger reads `<denomination><token><amount><token><kind>`, where the
token defaults to `:` and the kind is `w` (whole lira) or `f` (kuruş,
hundredths). Spaces are ignored, `#` starts a comment, and blank lines are
skipped. The first malformed line stops the run with an error that names its
1-based line number. The command line picks the file and the token. A token
given on the command line is first checked against a list of reserved
characters.

The model has four modules:

- `PyStr` (pystr.dfy): the Python 2 string operations the interpreter uses.
  These are `strip()`, `translate(None, ' ')`, `find`, a one-character
  `split`, `isdigit()` and `int()` of a digit string. Each is a recursive
  function, and lemmas state its properties: `split` is the inverse of join,
  `strip` drops exactly the whitespace at the ends, and `int(str(n)) == n`.
- `CoinLedger` (ledger.dfy):
  - `check_token` over the reserved list as written.
  - `ClassifyLine`: one pass of the loop body in `calc_coins`, as a function
    from a raw line to Skip, Accept(entry) or Reject(error).
  - `Scan`: the loop over the lines as a fold that stops at the first
    failure.
  - `Interpret`: the token-length and file checks in front of the loop.
  - `CalcCoins`: the loop itself, as a method with the source's counters and
    its inner `xrange` loops, proved equal to `Interpret`.
- `CoinLedgerFacts` (ledger_facts.dfy): what decides a line's outcome, how
  the total relates to the accepted entries, where a failing ledger stops,
  and the round trip from an entry to a line and back.
- `CoinCli` (cli.dfy): the argument dispatch of the `__main__` block, and
  what a run shows.

The total is kept as an exact number of hundredths. A whole entry adds
`denomination * amount * 100` and a fractional entry adds
`denomination * amount`. `Scan` takes the line classifier as a parameter
(`Classifier(token)`). This keeps the ledger-level lemmas apart from the
string processing, and they hold for any classifier.

The model follows the code as written:

- `tl_amount == 0` and `tl_denomination == 0` compare a string with an
  integer, which is never true. So the code accepts an amount or
  denomination of zero (`ZeroAmountAccepted`), although the checks were
  meant to refuse it.
- `translate(None, ' ')` deletes only the space character. Tabs inside a
  line stay.
- A line keeps its terminator when it is read from the file. The
  terminator is stripped before parsing (`WhitespacePaddingIgnored`).
  `LineFailed` carries the raw line, terminator included, as the error
  message does.
- The space passes `check_token`. The clean-up then deletes it before the
  split, so with the space as the token no line ever parses
  (`SpaceTokenNeverParses`).

## Model

| member | source | states |
|---|---|---|
| PyStr.Strip | calc_my_coins.py:114 | `strip()`, specified by `StripSplit`, `StripUnique` and `StripIgnoresPadding` below |
| PyStr.DeleteSpaces | calc_my_coins.py:115 | `translate(None, ' ')`, specified by `DeleteSpacesFacts`, `DeleteSpacesAppend` and `DeleteSpacesStripCommute` below |
| PyStr.Find | calc_my_coins.py:118 | `find` returns -1 or an index of the string; the rest of its meaning is `FindFacts` below |
| PyStr.Split | calc_my_coins.py:127 | `split` always gives at least one field; the rest of its meaning is `SplitCount`, `SplitJoinBack`, `SplitFieldsFree` and `SplitJoin` below |
| PyStr.IsDigits | calc_my_coins.py:149 | `isdigit()`: a non-empty string of decimal digits only, so signs, points and the empty string fail |
| PyStr.DecimalValue | calc_my_coins.py:165 | `int()` of a digit string, specified by `DecimalRoundTrip` and `LeadingZeroIgnored` below |
| PyStr.SplitCount | calc_my_coins.py:127 | `split` on one character gives one more field than there are separators |
| PyStr.SplitJoinBack | calc_my_coins.py:127 | joining the fields of `split` with the separator gives the string back |
| PyStr.SplitFieldsFree | calc_my_coins.py:127 | no field of `split` holds the separator |
| PyStr.SplitJoin | calc_my_coins.py:127 | splitting fields joined with the separator gives the fields back, when no field holds it |
| PyStr.SplitWithoutSeparator | calc_my_coins.py:127 | a string without the separator splits into itself alone |
| PyStr.SplitAtFirstSeparator | calc_my_coins.py:127 | the split cuts at the first separator and goes on with the rest |
| PyStr.FindFacts | calc_my_coins.py:118 | `find` returns -1 exactly when the character is absent, and otherwise the index of its first occurrence |
| PyStr.StripSplit | calc_my_coins.py:114 | `strip()` leaves a middle part whose ends are not whitespace, and only whitespace was removed on either side |
| PyStr.StripUnique | calc_my_coins.py:114 | a middle part with non-whitespace ends, padded with whitespace, strips to itself |
| PyStr.StripIgnoresPadding | calc_my_coins.py:114 | whitespace added around a string does not change its `strip()` |
| PyStr.DeleteSpacesFacts | calc_my_coins.py:115 | `translate(None, ' ')` removes every space, keeps every other character with its count, and leaves a string without spaces as it is |
| PyStr.DeleteSpacesAppend | calc_my_coins.py:115 | deleting spaces distributes over concatenation |
| PyStr.DeleteSpacesStripCommute | calc_my_coins.py:114-115 | deleting spaces and stripping can be done in either order |
| PyStr.Decimal | calc_my_coins.py:149 | the decimal form of a number passes `isdigit()` |
| PyStr.DecimalRoundTrip | calc_my_coins.py:165 | `int` of the decimal form of `n` is `n` |
| PyStr.LeadingZeroIgnored | calc_my_coins.py:165 | `int` ignores a leading zero |
| CoinLedger.CheckToken | calc_my_coins.py:64-68 | as written, a token is refused exactly when it is `w`, `f` or `#`; the integers in `RESERVED` never equal a string |
| CoinLedger.CheckTokenIntended | calc_my_coins.py:20-24 | with the digits listed as strings, a token is refused exactly when it is `w`, `f`, `#` or a single digit |
| CoinLedger.Hundredths | calc_my_coins.py:162-171 | what one entry adds, in hundredths; `RepeatedIsProduct` and `CalcCoins` show that the inner loops add exactly this |
| CoinLedger.Clean | calc_my_coins.py:114-119 | the line stripped, its spaces deleted and cut at the first `#`; specified by `CleanOfPlainLine`, `SkipIffBlankOrComment`, `WhitespacePaddingIgnored` and `SpaceInsertionIgnored` |
| CoinLedger.ClassifyLine | calc_my_coins.py:113-171 | one pass of the loop body: skip, accept an entry or raise a line error; specified by `ClassifyThreeFields`, `ParseErrorIffWrongFieldCount`, `SkipIffBlankOrComment` and `FormatRoundTrip` |
| CoinLedger.Scan | calc_my_coins.py:111-182 | the loop over the lines; specified by `ScanTotalsOrFails`, `TotalIsWorthOfEntries`, `FailsAtFirstReject`, `FailureIsFirstReject` and `ScanAppend` |
| CoinLedger.Interpret | calc_my_coins.py:92-111 | `calc_coins` as a function; specified by `InterpretErrors`, and `CalcCoins` is proved equal to it |
| CoinLedger.ScanTotalsOrFails | calc_my_coins.py:111-182 | the loop either returns a total or raises one of the line errors |
| CoinLedger.InterpretErrors | calc_my_coins.py:92-98 | the `ValueError` is raised exactly when the token is not one character long; the missing-file error is raised exactly when the token is fine and the file is absent; `calc_coins` never raises the reserved-token error |
| CoinLedger.RepeatedIsProduct | calc_my_coins.py:165-171 | adding the denomination once per unit of the amount adds their product |
| CoinLedger.CalcCoins | calc_my_coins.py:71-182 | the method gives the same result as `Interpret`: the token length is checked first, then the file, then the lines in order, stopping at the first bad line |
| CoinLedgerFacts.CleanOfPlainLine | calc_my_coins.py:114-119 | a line with no space, no `#` and non-whitespace ends comes through the clean-up unchanged |
| CoinLedgerFacts.ClassifyThreeFields | calc_my_coins.py:135-165 | with three fields, the kind is checked before the amount and the amount before the denomination; the line is accepted exactly when all three are well formed, with the values of the two numbers |
| CoinLedgerFacts.PlainLineFields | calc_my_coins.py:114-127 | three clean fields joined by the token are cleaned to themselves and split back into the same three fields |
| CoinLedgerFacts.ParseErrorIffWrongFieldCount | calc_my_coins.py:127-132 | a line raises `ParseError` exactly when something is left after the clean-up and it does not hold the token exactly twice |
| CoinLedgerFacts.SkipIffBlankOrComment | calc_my_coins.py:117-124 | a line is skipped exactly when everything before its first `#` is whitespace |
| CoinLedgerFacts.WhitespacePaddingIgnored | calc_my_coins.py:114 | whitespace around a line, the terminator included, does not change its outcome |
| CoinLedgerFacts.SpaceInsertionIgnored | calc_my_coins.py:115 | a space inserted anywhere in a line does not change its outcome |
| CoinLedgerFacts.ZeroAmountAccepted | calc_my_coins.py:149-151 | an amount of zero passes the amount check |
| CoinLedgerFacts.FormatRoundTrip | calc_my_coins.py:127-171 | with a token the intended reserved list admits, other than the space, every entry written as a line is read back as the same entry |
| CoinLedgerFacts.SpaceTokenNeverParses | calc_my_coins.py:115-132 | the space passes both reserved lists, yet with it as the token every line is skipped or raises `ParseError` |
| CoinLedgerFacts.DigitTokenBreaksRoundTrip | calc_my_coins.py:20-24 | as written, `5` is an allowed token, and the line for 15 lira times 2 written with it raises `ParseError` |
| CoinLedgerFacts.FiveTokenLineFails | calc_my_coins.py:127-132 | with `5` as the token, `15525w` splits into four fields and raises `ParseError` |
| CoinLedgerFacts.TotalIsWorthOfEntries | calc_my_coins.py:159-171 | a ledger gives a total exactly when no line is rejected, and the total is the sum of the accepted entries' worth |
| CoinLedgerFacts.BlankLedgerTotalsZero | calc_my_coins.py:121-124 | a ledger of blank and comment lines totals zero |
| CoinLedgerFacts.FailsAtFirstReject | calc_my_coins.py:129-156 | the first rejected line decides the failure, reported with its 1-based line number (skipped lines counted) and its raw text |
| CoinLedgerFacts.FailureIsFirstReject | calc_my_coins.py:129-156 | a ledger that does not total failed at a rejected line with no rejected line before it, and the report names that line |
| CoinLedgerFacts.ScanAppend | calc_my_coins.py:111-182 | two ledgers read one after the other: the second is numbered on from the first and adds to its total, unless the first failed |
| CoinLedgerFacts.SuffixIgnoredAfterFailure | calc_my_coins.py:129-156 | lines after a failing one do not change the outcome |
| CoinLedgerFacts.TotalIgnoresLineNumbers | calc_my_coins.py:107-108 | the numbering of the lines affects only the error reports, not the total |
| CoinLedgerFacts.ReorderKeepsTotal | calc_my_coins.py:159-171 | swapping two parts of a ledger that totals leaves the total unchanged |
| CoinLedgerFacts.EmptyAmountExample | calc_my_coins.py:149-151 | `5::w` raises the amount error |
| CoinLedgerFacts.TypeCheckedFirstExample | calc_my_coins.py:143-151 | `x:y:z` raises the type error, not the amount error |
| CoinLedgerFacts.TwoFieldsExample | calc_my_coins.py:130-132 | `5:3` raises `ParseError` |
| CoinCli.Dispatch | calc_my_coins.py:188-222 | `--help` alone shows help; more than two arguments show the usage text; a single one-character argument is the token, a single longer one the file, two are file and token; `check_token` runs exactly when a token was given; the defaults are `coins` and `:` |
| CoinCli.Execute | calc_my_coins.py:224-238 | the help and usage cases print the usage text; a token refused by `check_token` as written (`w`, `f`, `#`) gives the reserved-token error before the file is looked at; otherwise the run shows what `calc_coins` gives; only the token-length `ValueError` escapes as an unhandled error |
| CoinCli.ReservedTokenBeforeFile | calc_my_coins.py:213-215 | with two arguments and a reserved token, the outcome is the reserved-token error whatever the file system holds |
| CoinCli.DigitTokenReachesLedger | calc_my_coins.py:213-215 | as written, a digit token with a file passes `check_token` and the run shows what `calc_coins` gives with that token |
| CoinCli.LongTokenUnhandled | calc_my_coins.py:236-238 | with two arguments and a token longer than one character, the run ends in the unhandled `ValueError` |
| CoinCli.TokenAloneUsesDefaultFile | calc_my_coins.py:204-206 | a single one-character argument that `check_token` passes, digits included, is used as the token on the file `coins` |
| CoinCli.NoArgumentsUsesDefaults | calc_my_coins.py:200-201 | without arguments, `coins` is read with `:`; if it is missing, the missing-file error is shown |

## Left out

- Floating point: the result is an exact count of hundredths. The source adds
  floats one unit at a time and divides by `100.0`, so its printed sum can
  carry rounding error, and very large totals overflow to `inf`.
- The NaN guard (calc_my_coins.py:175-176) is left out. `isdigit()` already
  refuses `nan`, and a NaN never equals `float('nan')`, so the guard can
  never raise.
- The `isinstance` checks on the two arguments are left out, because Dafny's
  types already guarantee them.
- File access: a file is its sequence of lines, or absent
  (`Option`/`Files`). `os.path.isfile`, failures to open an existing file,
  and the iteration itself are not modelled.
- Printing: the text of the usage message, the error messages and the float
  formatting are not modelled. The model records only which outcome is shown,
  and each line error carries its line number and raw line.
- `xrange` on an amount too large for a machine integer, and the time the
  one-by-one additions take, are not modelled.
- Python 2 strings are bytes; here they are sequences of characters.
- CoinLedgerFacts.FormatRoundTrip: requires the token not to be the space.
  `SpaceTokenNeverParses` shows that the space cannot round-trip.

## Findings

| source | as written | input that shows it | evidently intended | confidence | as-written member | corrected member |
|---|---|---|---|---|---|---|
| calc_my_coins.py:20-24 | `RESERVED` lists the digits as the integers 0 to 9; `token in RESERVED` compares the string token with them, so `check_token` lets every digit through | token `5`, entry 15 lira times 2 written as `15525w`: four fields, `ParseError` | the digits refused as one-character strings, so that every entry can be written with any allowed token | not executed | CoinLedgerFacts.DigitTokenBreaksRoundTrip | CoinLedgerFacts.FormatRoundTrip |
