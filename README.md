# rezije: the bank-confirmation classifier, in Dafny

`rezije` gathers one month's payment confirmations from Privredna banka
Zagreb. It reads each PDF as text lines and classifies it into a utility
bill. Then it prints a summary with one line per bill, framed by a title
and the rent line, and renames each PDF to a canonical name.

This project models the classifier in both revisions of the repository:

- `src/main.js` is the current revision (module `RezijeCurrent`).
- `main.js` is the older revision (module `RezijeLegacy`).

Both revisions use these shared modules:

- `Confirmation`:
  - `get`, a search for the first line equal to a label, plus an offset;
  - the issuer gate, which requires the first line to be the bank's name;
  - the ordered `if ... else if` rule chain;
  - the batch loop that pushes to `result` and writes `renames`.
- `Bills`:
  - the payees, description keys and per-category period parsers the revisions have in common;
  - the water period computed from the confirmation date.
- `JsString`, `JsNumber` and `JsDate`: the JavaScript built-ins the code relies on, with their semantics.
  - `replace` with a string pattern replaces only the first occurrence.
  - `split` works on one character.
  - `substring` clamps its bounds.
  - `parseInt` and `parseFloat` read a numeric prefix.
  - `Number.prototype.toString` and `padStart` format numbers.
  - `new Date(y, m, d)` normalises out-of-range days, and `setDate(0)` steps back. The mutable `Date` object is a class.

## Classification and the batch

Each confirmation's labelled fields are read with `get`:

- payee;
- code;
- description;
- amount;
- confirmation time.

A missing label, or an offset past the last line, gives `None`. Calling
`.includes`, `.replace` or `.split` on such a field is a `TypeError` in
JavaScript; here it is the error `NullDereference`. The amount is read and
normalised before any rule is tried.

The rules are tried in source order, and the first that holds wins. Each
rule needs three things: the payee contains its payee, the code equals its
code, and the description contains one of its keys. The matched rule's
parser builds the summary line and the rename target. If no rule holds, the
run fails with `unrecognized pdf: <filename>`.

The batch is a method with a loop:

- It visits the listing in order.
- Each recognised file pushes one line and sets one `renames` entry. A file is recognised when its name ends in `.pdf` and its first line is the bank name.
- Other files change nothing.
- The first classification that throws ends the run.

Where the repository's prose description and its code differ, the model
follows the code:

- Neither revision infers water periods by chaining invoices backward in time. Each water bill is dated on its own, from its own confirmation time.
- No error is raised for an empty month, so a listing with no bills gives a summary with only the header and the trailer.
- A missing field makes the rule chain throw; it is not a non-match.
- The categories and payees are the Croatian ones the code uses.
- Files are processed in directory-listing order, not in modification-time order.

## Model

| member | source | states |
|---|---|---|
| Confirmation.GetFrom | main.js:14-22 | the scan from index `i` on, with the key absent before `i`: the line `offset` below the first line equal to `key`; `None` when no line is `key`, or when the offset runs past the end |
| Confirmation.Get | src/main.js:45-53 | `get(lines, key, offset)` is `lines[j + offset]` for the first `j` with `lines[j] == key`; it is `None` when no line equals `key` (null) and when `j + offset` is past the end (undefined) |
| Confirmation.NonEmpty | main.js:43-45 | the filter keeps the non-empty strings and only them: nothing empty is left, and a string is kept iff it was there and is not empty |
| Confirmation.NonEmptyCount | main.js:43-45 | every non-empty string is kept as often as it occurs, and every empty one is dropped (multisets) |
| Confirmation.NonEmptyAppend | main.js:43-45 | the filter keeps order: the kept strings of `a + b` are those of `a` followed by those of `b` |
| Confirmation.NonEmptyKeepsAll | src/main.js:84 | a list without empty strings passes the filter unchanged |
| Confirmation.Lines | src/main.js:84 | the lines are the newline-separated pieces of the text with the empty ones dropped, in order; none is empty and none holds a newline |
| Confirmation.LinesOfPieces | src/main.js:84 | the lines of pieces joined with newlines are the non-empty pieces |
| Confirmation.LinesOfJoin | src/main.js:84 | non-empty lines without newlines, joined with newlines, read back as the same lines |
| Confirmation.IncludesAny | src/main.js:113 | `opis.includes(p1) or opis.includes(p2)` holds iff one of the keys occurs in the description |
| Confirmation.RuleHolds | src/main.js:96 | a rule holds iff the payee includes its payee, the code equals its code and the description includes one of its keys; it throws iff the payee is null, or payee and code match and the description is null |
| Confirmation.FirstMatch | src/main.js:96-163 | the chain picks a rule that holds with every earlier rule false; it gives no rule iff every rule is false; an error is that of the first condition that throws, after only false ones |
| Confirmation.FirstMatchAt | src/main.js:96-160 | a rule that holds, preceded only by rules that are false, is the one the chain picks |
| Confirmation.CodeMismatch | src/main.js:120 | with a present payee, a code other than the rule's makes it false without throwing, whatever the description |
| Confirmation.NoRuleForCode | src/main.js:161-163 | with a present payee and a code no rule names, no rule holds and nothing throws |
| Confirmation.Selected | src/main.js:79-86 | each file classified is a listing file whose name ends in `.pdf` and whose first line is the bank's name |
| Confirmation.SelectedComplete | src/main.js:79-86 | every listing file whose name ends in `.pdf` and whose first line is the bank's name is classified |
| Confirmation.SelectedAppend | src/main.js:79-86 | files are classified in listing order: the selection of `a + b` is that of `a` followed by that of `b` |
| Confirmation.SelectedOne | src/main.js:79-86 | a single file is selected exactly when its name ends in `.pdf` and its first line is the bank's name |
| Confirmation.AppendEntry | src/main.js:110-111 | one more entry pushes its line after the others and sets `renames[filename]` to its target |
| Confirmation.VisitAdd | src/main.js:110-111 | a recognised file that classifies extends the collected lines by its line and sets its rename target |
| Confirmation.VisitSkip | src/main.js:79-86 | a file that is not a PDF from the bank leaves the loop state as it was |
| Confirmation.Visit | src/main.js:78-165 | one pass of the loop either keeps the loop invariant for the next file or stops the run with the error of the file that threw |
| Confirmation.RunBatch | src/main.js:58-170 | the loop's result equals `Summarise`: the header, one line per recognised file, the trailer and the renames, or the first error |
| Confirmation.CollectedAll | src/main.js:76 | visiting every file of the listing collects the whole listing |
| Confirmation.CollectSkip | src/main.js:79-86 | a file that is not recognised adds no entry |
| Confirmation.CollectAdd | src/main.js:110-111 | a recognised file that classifies adds its entry at the end |
| Confirmation.CollectStop | src/main.js:161-163 | a recognised file whose classification throws ends the whole run with that error |
| Confirmation.CollectKeepsFailure | src/main.js:76-167 | once a prefix of the listing has failed, the run fails with the same error |
| Confirmation.CollectShape | src/main.js:76-167 | on success there is exactly one entry per recognised file, in listing order, with the file's name and its own classification |
| Confirmation.CollectOk | src/main.js:76-167 | the run succeeds iff every recognised file classifies |
| Confirmation.CollectFailure | src/main.js:76-167 | a failed run fails with the error of a recognised file that throws while every recognised file before it classifies |
| Confirmation.CollectDistinct | src/main.js:111 | over distinct file names the collected entries have distinct names |
| Confirmation.RenamesOfDistinct | src/main.js:111 | with distinct names, the keys of `renames` are exactly the entries' names, and each maps to its own target |
| Confirmation.RenamesOfCollect | src/main.js:74-167 | the renames of a successful run map exactly the recognised files, each to the target of its classification |
| Confirmation.SummariseOutcome | src/main.js:76-167 | a run succeeds iff every recognised file classifies; a failure carries the error of the first recognised file that fails |
| Confirmation.SummariseLines | src/main.js:58-170 | a successful run prints the header, then the line of the k-th recognised file at position k, then the trailer |
| Confirmation.SummariseRenames | src/main.js:74-167 | over distinct file names, the renames of a successful run have exactly the recognised files' names as keys, each mapped to its own target |
| JsString.IndexFrom | src/main.js:96 | the first occurrence at or after `from`, or `None` when none occurs there |
| JsString.IndexOf | src/main.js:96 | `indexOf`: the first index at which the pattern occurs, or `None` when it occurs nowhere |
| JsString.Includes | src/main.js:96 | `includes` holds iff the pattern occurs at some index |
| JsString.ReplaceFirst | src/main.js:93 | `replace` with a string pattern: unchanged without an occurrence, else only the first occurrence is replaced |
| JsString.ReplacePrefix | src/main.js:98 | removing a leading key leaves the rest |
| JsString.ReplaceAfter | src/main.js:93 | when the part before an occurrence lacks the pattern's first character, that occurrence is the one replaced |
| JsString.ReplaceAbsent | src/main.js:93 | a string lacking the pattern's first character is left unchanged |
| JsString.Split | src/main.js:102-103 | `split(c)` gives at least one piece; the pieces are free of `c` and join back to the input; there are two or more iff `c` occurs |
| JsString.SplitJoin | src/main.js:102-103 | splitting pieces joined with `c` gives the pieces back, so `Split` inverts `Join` |
| JsString.SplitAtFirst | src/main.js:147 | the split of `a c t` is `a` followed by the split of `t` |
| JsString.SplitTwo | src/main.js:102-103 | `a c b ...` splits with `a` and `b` as pieces 0 and 1 |
| JsString.SplitHead | src/main.js:122 | piece 0 is the text before the first separator |
| JsString.Substring | src/main.js:105-106 | `substring(a, b)` is the slice between the bounds clamped to the string; in range it has `b - a` characters, starting at `a` |
| JsString.TakeLast | src/main.js:116 | `slice(-n)` is the suffix of `s` of `min(n, length)` characters |
| JsString.EndsWith | src/main.js:79 | `endsWith(suf)` holds iff the string is some text followed by `suf` |
| JsString.Repeat | src/main.js:156 | `n` copies of the fill character |
| JsString.PadStart | src/main.js:156 | `padStart(n, fill)` leaves a long string alone, else fills on the left to length `n` and ends with the input |
| JsString.ToLowerAscii | src/main.js:111 | `toLowerCase` maps each character and keeps the length |
| JsString.IndexOfPrefix | src/main.js:96 | a leading key is found at index 0 |
| JsString.IncludesChar | src/main.js:101 | `includes('/')` holds iff the character is in the string |
| JsString.NotIncludesMissingChar | src/main.js:139 | a pattern with a character that the string lacks is not included |
| JsString.NotIncludesShort | src/main.js:96 | a string shorter than the pattern does not include it |
| JsString.IndexOfAfter | src/main.js:114 | when the part before an occurrence lacks the pattern's first character, `indexOf` finds that occurrence |
| JsString.NotIncludesWithoutHead | src/main.js:113 | a pattern whose first character the string lacks is not included |
| JsString.HeadMismatch | src/main.js:113 | no occurrence starts where the character differs from the pattern's first |
| JsString.NotIncludesAfterHead | src/main.js:113 | `KN,NUV ...` does not include `KN ` when nothing after its first character has a `K` |
| JsNumber.TrimStart | src/main.js:148 | `parseInt` first drops exactly the leading white space |
| JsNumber.DigitPrefix | src/main.js:148 | the longest run of leading digits |
| JsNumber.NatToString | src/main.js:156 | `toString` of a natural number is a non-empty digit string with no leading zero |
| JsNumber.NatToStringValue | src/main.js:156 | the printed digits of `n` read back as `n` |
| JsNumber.StartsWithDigit | src/main.js:148 | text starting with a digit has neither white space nor a sign to skip |
| JsNumber.ParseIntNoDigit | src/main.js:39-40 | `parseInt` of text starting with neither white space, a sign nor a digit is NaN |
| JsNumber.ParseIntDigits | src/main.js:148-150 | `parseInt` of digits followed by a non-digit is their decimal value |
| JsNumber.MagnitudeOfDigits | src/main.js:148-150 | the unsigned part of `parseInt` reads the digits before a non-digit |
| JsNumber.DigitPrefixOf | src/main.js:148 | the digit prefix of digits followed by a non-digit is exactly those digits |
| JsNumber.ParseIntToString | src/main.js:156 | `parseInt(n.toString())` is `n`, a round trip of integer printing |
| JsNumber.ParseFloatDigits | src/main.js:97 | `parseFloat` of `units,cents ...` is the integer `units`, because the comma ends the number |
| JsNumber.UnsignedFloatOfDigits | src/main.js:97 | the unsigned part of `parseFloat` reads the digits before the comma |
| JsNumber.DecimalLiteralOfDigits | src/main.js:97 | the decimal literal before a comma is the integer it spells |
| JsNumber.BelowDigits | src/main.js:97 | `parseFloat(cijena) < k` iff the integer part is below `k` |
| JsDate.DaysInMonth | src/main.js:151-152 | every month has 28 to 31 days |
| JsDate.PrevMonth | src/main.js:152 | the calendar month just before, with the year wrapping at January |
| JsDate.NextMonth | src/main.js:151 | the calendar month just after, with the year wrapping at December |
| JsDate.CarryDay | src/main.js:151 | the date lands `d - 1` days after the first of the month, counted across month and year ends; an in-range day stays where it is, a day below 1 lands in an earlier month, one past the end in a later month |
| JsDate.MonthLength | src/main.js:151 | the first of the next month is as many days after the first of this month as the month is long, across the year end and in leap years |
| JsDate.CarryIntoNextMonth | src/main.js:151 | a day at most one month past the end lands in the next month, on the day less this month's length |
| JsDate.ThirtyFirstOfFebruary | src/main.js:151 | `new Date(2023, 1, 31)` is 3 March 2023 |
| JsDate.Construct | src/main.js:151 | `new Date(y, m, d)` is an invalid date iff one of its arguments is NaN |
| JsDate.SetDateOf | src/main.js:152 | `setDate` keeps an invalid date invalid and a valid one valid |
| JsDate.SetDateZero | src/main.js:152-155 | `setDate(0)` moves to the last day of the month before |
| JsDate.ConstructInRange | src/main.js:151 | a constructor call with an in-range month and day builds that very day, with years 0 to 99 meaning 1900 to 1999 |
| JsDate.MonthOf | src/main.js:156 | `getMonth()` is NaN or 0 to 11 |
| JsDate.Date.constructor | src/main.js:151 | the new `Date` object holds `Construct(y, m, d)` |
| JsDate.Date.SetDate | src/main.js:152 | `setDate(d)` replaces the object's value by `SetDateOf(old value, d)` |
| JsDate.Date.GetMonth | src/main.js:156 | `getMonth()` reads the month of the object's value |
| JsDate.Date.GetFullYear | src/main.js:157 | `getFullYear()` reads the year of the object's value |
| Bills.NoHoldingKeyAfter | src/main.js:96-113 | a komunalna description with no `G` after its key lacks the fee key, so the fee rule does not take it |
| Bills.NoAdvanceKeyAfter | src/main.js:120-127 | a gas settlement number with no `A` leaves the description without the advance key |
| Bills.NoElectricityKeyAfter | src/main.js:132-139 | a settlement description with no `M` after its key lacks the monthly key |
| Bills.PeriodEntry | src/main.js:110-111 | the line ends with ` = <amount>` and the rename target with `.pdf` |
| Bills.DecimalChars | src/main.js:93 | a `units.cents` amount contains no letter |
| Bills.CurrencyAtEnd | src/main.js:93 | a currency code at the end of an amount is replaced by its symbol |
| Bills.CurrencyAbsent | src/main.js:93 | replacing a code absent from an amount leaves the amount unchanged |
| Bills.DecimalComma | src/main.js:93 | the first `.` of `units.cents ...` becomes the decimal comma |
| Bills.TitleOfAmount | src/main.js:97 | the title is `Mala pričuva` iff the integer part is below the threshold, and `Holding` iff it is not |
| Bills.SmallReserveSlug | src/main.js:111 | `Mala pričuva` renames with the prefix `mala_pricuva` |
| Bills.HoldingSlug | src/main.js:111 | `Holding` renames with the prefix `holding` |
| Bills.HoldingTarget | src/main.js:111 | a holding bill renames to `mala_pricuva_<month><year>.pdf` or `holding_<month><year>.pdf`, after its title |
| Bills.GasAdvancePeriod | src/main.js:121-123 | it throws iff the date has no `.`, because `undefined.replace` is called; otherwise the month and year contain no `.` and the year is piece 1 |
| Bills.GasAdvanceOf | src/main.js:121-123 | `MM.YYYY.` gives back `MM` and `YYYY` |
| Bills.GasAdvanceEntry | src/main.js:120-125 | a gas advance entry shows its amount, or throws on a null dereference |
| Bills.GasSettlementEntry | src/main.js:127-130 | the gas settlement entry shows its amount and renames to a PDF |
| Bills.GasSettlementEntryOf | src/main.js:128-130 | `Obračun plina za NUM` gives `Plin obračun NUM = <amount>` and `plin_obracun_NUM.pdf` |
| Bills.ElectricitySettlementPeriod | src/main.js:140-142 | it throws iff the remainder has no `-`, so that there is no second date |
| Bills.ElectricitySettlementOf | src/main.js:140-142 | `<first>-DDMMYYYY` gives back the second date's `MM` and `YYYY` |
| Bills.WaterDateOf | src/main.js:151-155 | the stepped-back date is a well-formed date value |
| Bills.MonthNumberInjective | src/main.js:156-157 | two months with the same running number are the same month of the same year |
| Bills.WaterDateInRange | src/main.js:151-155 | for a real date, the water date is the last day of the month before, or of two months before for a day up to 5 in the current revision |
| Bills.DatePartsOf | src/main.js:147-150 | `D.M.Y` parses to the values of its three digit strings |
| Bills.DigitsParse | src/main.js:148 | `parseInt` of a digit string is its value |
| Bills.DateSplit | src/main.js:147 | `D.M.Y...` splits with `D`, `M` and `Y` as pieces 0 to 2 |
| Bills.ValueLeadingZero | src/main.js:156 | a leading zero does not change a decimal value |
| Bills.MonthTextRoundTrip | src/main.js:156 | `(getMonth() + 1).toString().padStart(2, "0")` has two characters and parses back to the month's number |
| Bills.WaterPeriodOfParts | src/main.js:147-157 | the water period of a real date is the month before, or two before, printed as two digits and a full year |
| Bills.WaterPeriodSteps | src/main.js:147-157 | the branch run step by step on a `Date` object gives the same month and year as `WaterPeriod` |
| Bills.WaterEntry | src/main.js:146-159 | the water entry exists iff the confirmation time is present, shows its amount, and otherwise throws on a null dereference |
| RezijeCurrent.Categories | src/main.js:96-146 | the rules of the chain, in order: holding fees, komunalna, gas advance, gas settlement, electricity, electricity settlement, water |
| RezijeCurrent.CurrencySymbol | src/main.js:93 | `EUR` becomes `€` and `HRK` becomes `kn`; the other replace changes nothing |
| RezijeCurrent.DisplayDecimal | src/main.js:93 | `units.cents CODE` is shown as `units,cents` with the code's symbol |
| RezijeCurrent.DisplayEuro | src/main.js:93 | a euro amount is shown with a decimal comma and `€` |
| RezijeCurrent.DisplayKuna | src/main.js:93 | a kuna amount is shown with a decimal comma and `kn` |
| RezijeCurrent.HoldingTitleOf | src/main.js:97 | the title is `Mala pričuva` iff the whole units are below 5, so `5,00 €` is `Holding` |
| RezijeCurrent.HoldingPeriod | src/main.js:101-109 | it fails iff the remainder has no `/` and is not six characters long, and then with `can't parse date: <remainder>` |
| RezijeCurrent.HoldingSlash | src/main.js:101-103 | `MM/YYYY` gives back `MM` and `YYYY` |
| RezijeCurrent.HoldingCompact | src/main.js:104-106 | six characters `MMYYYY` without `/` give back `MM` and `YYYY` |
| RezijeCurrent.HoldingEntry | src/main.js:96-111 | a holding entry shows its amount, or fails only with `can't parse date` |
| RezijeCurrent.HoldingEntryOf | src/main.js:97-111 | `NAKNADE I USLUGE ZA MM/YYYY` gives the title's line and slug for `MM` and `YYYY` |
| RezijeCurrent.HoldingEuroEntry | src/main.js:93-111 | with a euro amount, the title is `Mala pričuva` iff the whole euros are below 5 |
| RezijeCurrent.UtilityEntry | src/main.js:113-118 | a komunalna entry shows its amount and renames to a PDF |
| RezijeCurrent.UtilityRemainder | src/main.js:114 | removing either key leaves the same remainder |
| RezijeCurrent.UtilityOf | src/main.js:114-118 | `MM?NN...YY` gives the month `MM-NN` and the year `20YY` |
| RezijeCurrent.ElectricityEntry | src/main.js:132-137 | an electricity entry shows its amount |
| RezijeCurrent.ElectricityOf | src/main.js:133-135 | `MM?YYYY` gives back `MM` and `YYYY` |
| RezijeCurrent.ElectricitySettlementEntry | src/main.js:139-144 | a settlement entry shows its amount, or throws when the second date is missing |
| RezijeCurrent.SettlementRemainder | src/main.js:140 | removing either spelling of `Račun za:` leaves the same remainder |
| RezijeCurrent.SettlementEntryOf | src/main.js:140-144 | either spelling with `<first>-DDMMYYYY` gives `MM` and `YYYY` of the second date |
| Bills.GasAdvanceEntryOf | src/main.js:121-125 | `Akontacijska rata za MM.YYYY.` gives the `Plin` entry of `MM` and `YYYY` |
| RezijeCurrent.Parse | src/main.js:96-160 | a parser's entry shows the amount, and a parser never fails with `unrecognized pdf` |
| RezijeCurrent.ClassifyFields | src/main.js:90-163 | a missing amount throws first; the result is `unrecognized pdf` iff the amount is present and no rule holds; a success came from a rule that holds and shows the displayed amount |
| RezijeCurrent.ClassifyMatched | src/main.js:96-160 | once rule `k` is chosen, its category's parser decides the outcome |
| RezijeCurrent.ClassifiedHolding | src/main.js:96-111 | once the fee rule is chosen, the holding parser decides |
| RezijeCurrent.ClassifiedUtility | src/main.js:113-118 | once the komunalna rule is chosen, the komunalna parser decides |
| RezijeCurrent.ClassifiedGasAdvance | src/main.js:120-125 | once the gas advance rule is chosen, its parser decides |
| RezijeCurrent.ClassifiedGasSettlement | src/main.js:127-130 | once the gas settlement rule is chosen, its parser decides |
| RezijeCurrent.ClassifiedElectricity | src/main.js:132-137 | once the electricity rule is chosen, its parser decides |
| RezijeCurrent.ClassifiedElectricitySettlement | src/main.js:139-144 | once the settlement rule is chosen, its parser decides |
| RezijeCurrent.ClassifiedWater | src/main.js:146-159 | once the water rule is chosen, the confirmation time decides, with the second step back for early days |
| RezijeCurrent.MatchHolding | src/main.js:96 | the holding payee, code `-` and the fee key pick the first rule |
| RezijeCurrent.MatchHoldingFee | src/main.js:96 | a description starting with the fee key picks the first rule |
| RezijeCurrent.MatchFirstOfCode | src/main.js:120-146 | gas advance, electricity and water each win as the first rule with their code, because every earlier rule fails on the code |
| RezijeCurrent.MatchSecondOfCode | src/main.js:127-139 | the gas and electricity settlements win when the description lacks the key of the rule just before |
| RezijeCurrent.MatchUtility | src/main.js:113 | `KN ` or `KN,NUV ` followed by no `G` picks the komunalna rule |
| RezijeCurrent.MatchGasAdvance | src/main.js:120 | a description starting with the advance key picks the gas advance rule |
| RezijeCurrent.MatchGasSettlement | src/main.js:127 | `Obračun plina za` followed by no `A` picks the gas settlement rule |
| RezijeCurrent.MatchElectricity | src/main.js:132 | the monthly key picks the electricity rule |
| RezijeCurrent.MatchElectricitySettlement | src/main.js:139 | either spelling of `Račun za:` followed by no `M` picks the settlement rule |
| RezijeCurrent.MatchNone | src/main.js:161-163 | a code other than `-`, `GASB`, `ELEC` and `WTER` matches no rule |
| RezijeCurrent.ClassifyHolding | src/main.js:93-111 | `NAKNADE I USLUGE ZA MM/YYYY` with a euro amount gives `<title> MM/YYYY = units,cents €` and the title's rename, the title being `Mala pričuva` iff units < 5 |
| RezijeCurrent.ClassifyHoldingUnparsed | src/main.js:107-108 | a holding period that is neither `MM/YYYY` nor six characters long ends the run with `can't parse date` |
| RezijeCurrent.ClassifyUtility | src/main.js:113-118 | komunalna under either key gives `Komunalna naknada MM-NN/20YY` |
| RezijeCurrent.ClassifyGasAdvance | src/main.js:120-125 | `Akontacijska rata za MM.YYYY.` gives `Plin MM/YYYY` and `plin_MMYYYY.pdf` |
| RezijeCurrent.ClassifyGasSettlement | src/main.js:127-130 | `Obračun plina za NUM` gives `Plin obračun NUM` and `plin_obracun_NUM.pdf` |
| RezijeCurrent.ClassifyElectricity | src/main.js:132-137 | `Mjesecna novcana obveza za MM?YYYY` gives `Struja MM/YYYY` |
| RezijeCurrent.ClassifyElectricitySettlement | src/main.js:139-144 | either spelling of the key with `<first>-DDMMYYYY` gives `Struja obračun MM/YYYY` of the second date |
| RezijeCurrent.ClassifyWater | src/main.js:146-159 | a water bill's period is `WaterPeriod(vrijeme, true)`, and a missing confirmation time throws |
| RezijeCurrent.ClassifyUnknownCode | src/main.js:161-163 | a code that no rule names ends the run with `unrecognized pdf: <filename>` |
| RezijeCurrent.ParseArgAsWritten | src/main.js:29-43 | the check as written accepts iff the argument has six characters and neither its month nor its year falls outside [1, 12] or [2021, 2100], a NaN counting as inside; it splits as `(arg[0..2], arg[2..6])`, rejects with `Usage`, agrees with the corrected check wherever that accepts, and accepts more only when the month or the year is NaN |
| RezijeCurrent.ArgWithoutMonthAccepted | src/main.js:39-43 | the check as written accepts `ab2024` |
| RezijeCurrent.ArgWithoutMonthRejected | src/main.js:39-43 | the corrected check rejects `ab2024` with the usage message |
| RezijeCurrent.ParseArg | src/main.js:29-43 | an argument is accepted iff it has six characters, a numeric month in [1, 12] and a numeric year in [2021, 2100]; it splits as `(arg[0..2], arg[2..6])`, and anything else is `Usage` |
| RezijeCurrent.ParseArgDigits | src/main.js:29-43 | every `MMYYYY` of digits with a month in [1, 12] and a year in [2021, 2100] is accepted and split back |
| RezijeCurrent.Run | src/main.js:29-170 | a bad argument (by the corrected check) gives `Usage`; otherwise the run is the batch over the listing between the title, the time stamp and `---`, and `---` with `Stanarina MM/YYYY = 305 €` |
| RezijeLegacy.Categories | main.js:57-98 | the rules of the chain, in order: holding fees, komunalna, gas advance, gas settlement, electricity, electricity settlement, water |
| RezijeLegacy.DisplayKuna | main.js:54 | a kuna amount is shown with a decimal comma and `kn` |
| RezijeLegacy.DisplayEuroCode | main.js:54 | this revision has no euro case: a euro amount keeps `EUR` and only gets the decimal comma |
| RezijeLegacy.HoldingTitleOf | main.js:58 | the title is `Mala pričuva` iff the whole units are below 30, so `30,00 kn` is `Holding` |
| RezijeLegacy.HoldingPeriod | main.js:59-61 | without `/` the whole remainder is the month and the year prints `undefined`; with a `/`, month and year contain none |
| RezijeLegacy.HoldingSlash | main.js:60-61 | `MM/YYYY` gives back `MM` and `YYYY` |
| RezijeLegacy.HoldingEntry | main.js:57-63 | a holding entry always exists and shows its amount |
| RezijeLegacy.HoldingEntryOf | main.js:58-63 | `NAKNADE I USLUGE ZA MM/YYYY` gives the title's line and slug for `MM` and `YYYY` |
| RezijeLegacy.HoldingKunaEntry | main.js:54-63 | with a kuna amount, the title is `Mala pričuva` iff the whole kuna are below 30 |
| RezijeLegacy.UtilityEntry | main.js:65-70 | a komunalna entry shows its amount |
| RezijeLegacy.UtilityOf | main.js:66-70 | `KN MM/YY` gives the month `MM` and the year `20YY` |
| RezijeLegacy.ElectricityEntry | main.js:84-89 | an electricity entry shows its amount |
| RezijeLegacy.ElectricityOf | main.js:85-87 | `YYYYMM` gives characters [4, 6) as the month and [0, 4) as the year |
| RezijeLegacy.ElectricitySettlementEntry | main.js:91-96 | a settlement entry shows its amount, or throws when the second date is missing |
| RezijeLegacy.SettlementEntryOf | main.js:92-96 | `Račun za:<first>-DDMMYYYY` gives `MM` and `YYYY` of the second date |
| RezijeLegacy.Parse | main.js:57-109 | a parser's entry shows the amount, and a parser fails only with a null dereference |
| RezijeLegacy.ClassifyFields | main.js:51-112 | a missing amount throws first; the result is `unrecognized pdf` iff the amount is present and no rule holds; a success came from a rule that holds and shows the displayed amount |
| RezijeLegacy.ClassifyMatched | main.js:57-109 | once rule `k` is chosen, its category's parser decides the outcome |
| RezijeLegacy.ClassifiedHolding | main.js:57-63 | once the fee rule is chosen, the holding parser decides |
| RezijeLegacy.ClassifiedUtility | main.js:65-70 | once the komunalna rule is chosen, the komunalna parser decides |
| RezijeLegacy.ClassifiedGasAdvance | main.js:72-77 | once the gas advance rule is chosen, its parser decides |
| RezijeLegacy.ClassifiedGasSettlement | main.js:79-83 | once the gas settlement rule is chosen, its parser decides |
| RezijeLegacy.ClassifiedElectricity | main.js:84-89 | once the electricity rule is chosen, its parser decides |
| RezijeLegacy.ClassifiedElectricitySettlement | main.js:91-96 | once the settlement rule is chosen, its parser decides |
| RezijeLegacy.ClassifiedWater | main.js:98-109 | once the water rule is chosen, the confirmation time decides, with a single step back |
| RezijeLegacy.MatchHolding | main.js:57 | the holding payee, code `-` and the fee key pick the first rule |
| RezijeLegacy.MatchHoldingFee | main.js:57 | a description starting with the fee key picks the first rule |
| RezijeLegacy.MatchFirstOfCode | main.js:72-98 | gas advance, electricity and water each win as the first rule with their code |
| RezijeLegacy.MatchSecondOfCode | main.js:65-91 | komunalna and the two settlements win when the description lacks the key of the rule just before |
| RezijeLegacy.MatchUtility | main.js:65 | `KN ` followed by no `G` picks the komunalna rule |
| RezijeLegacy.MatchGasAdvance | main.js:72 | a description starting with the advance key picks the gas advance rule |
| RezijeLegacy.MatchGasSettlement | main.js:79 | `Obračun plina za` followed by no `A` picks the gas settlement rule |
| RezijeLegacy.MatchElectricity | main.js:84 | the monthly key picks the electricity rule |
| RezijeLegacy.MatchElectricitySettlement | main.js:91 | `Račun za:` followed by no `M` picks the settlement rule |
| RezijeLegacy.MatchNone | main.js:110-112 | a code other than `-`, `GASB`, `ELEC` and `WTER` matches no rule |
| RezijeLegacy.NuvNotFee | main.js:57 | `KN,NUV ` followed by no `G` fails the fee rule |
| RezijeLegacy.NuvNotUtility | main.js:65 | `KN,NUV ` followed by no `K` fails the `KN ` rule |
| RezijeLegacy.MatchNoneNuv | main.js:57-112 | `KN,NUV ` matches no rule in this revision |
| RezijeLegacy.AsciiNotMonthly | main.js:84 | `Racun za:` followed by no `M` fails the monthly rule |
| RezijeLegacy.AsciiNotSettlement | main.js:91 | `Racun za:` followed by no `č` fails the settlement rule |
| RezijeLegacy.MatchNoneAscii | main.js:84-112 | `Racun za:` matches no rule in this revision |
| RezijeLegacy.ClassifyHolding | main.js:54-63 | `NAKNADE I USLUGE ZA MM/YYYY` with a kuna amount gives `<title> MM/YYYY = units,cents kn`, the title being `Mala pričuva` iff units < 30 |
| RezijeLegacy.ClassifyHoldingUnsplit | main.js:59-63 | a holding remainder without `/` is not an error: it becomes the month, and the year prints `undefined` |
| RezijeLegacy.ClassifyUtility | main.js:65-70 | `KN MM/YY` gives `Komunalna naknada MM/20YY` |
| RezijeLegacy.ClassifyGasAdvance | main.js:72-77 | `Akontacijska rata za MM.YYYY.` gives `Plin MM/YYYY` |
| RezijeLegacy.ClassifyGasSettlement | main.js:79-83 | `Obračun plina za NUM` gives `Plin obračun NUM` and `plin_obracun_NUM.pdf` |
| RezijeLegacy.ClassifyElectricity | main.js:84-89 | `Mjesecna novcana obveza za YYYYMM` gives `Struja MM/YYYY` |
| RezijeLegacy.ClassifyElectricitySettlement | main.js:91-96 | `Račun za:<first>-DDMMYYYY` gives `Struja obračun MM/YYYY` of the second date |
| RezijeLegacy.ClassifyWater | main.js:98-109 | a water bill's period is `WaterPeriod(vrijeme, false)`: the month before, with no early-day step; a missing confirmation time throws |
| RezijeLegacy.ClassifyUnknownCode | main.js:110-112 | a code that no rule names ends the run with `unrecognized pdf: <filename>` |
| RezijeLegacy.ClassifyNuvUnrecognised | main.js:65-112 | a `KN,NUV ` komunalna confirmation is `unrecognized pdf` in this revision |
| RezijeLegacy.ClassifyAsciiSettlementUnrecognised | main.js:91-112 | a settlement spelled `Racun za:` is `unrecognized pdf` in this revision |
| RezijeLegacy.Run | main.js:7-119 | the run for the clock's month: the title `**Stanarina i režije MM/YYYY**` and `---`, the batch, then `---` and `Stanarina MM/YYYY = 2300 kn` |

## Left out

- PDF text extraction (`pdf-parse`). The text of each file is an input; splitting it into non-empty lines is modelled.
- Reading the directory, reading files, writing the summary PDF and the rename loop (src/main.js:198-209, main.js:124-134) are filesystem effects. The listing is an input, and the `renames` map the loop would apply is an output.
- Markdown and PDF rendering (`marked`, `puppeteer`, `markdown-pdf`), the e-mail transport, the attachment listing and the `readline` confirmation (src/main.js:172-248) are foreign libraries and user or network I/O.
- `src/config.js` is not part of this model: it validates the configuration file (directory, mail credentials and addresses). The directory path it supplies is not modelled; the listing is an input.
- The clock is a parameter:
  - the current revision's header time stamp (`toLocaleString`) is a string input;
  - the legacy revision's month and year (`getMonth`, `getFullYear` at main.js:7-12) are two integer inputs.
- `usage()` prints a message and exits the process. The model returns the error `Usage`.
- RezijeCurrent.Run: runs the corrected argument check `ParseArg`, not the check as written. An argument whose month or year is not a number (`ab2024`) gets the usage message here, where the code goes on with the period `ab/2024` (see Findings). `ParseArgAsWritten` states exactly which arguments the code accepts, and that it agrees with `ParseArg` on every argument whose month and year are numbers.
- Confirmation.Get: `null` (label absent) and `undefined` (offset past the end) are both `None`. The code treats them alike; only the wording of the `TypeError` would differ.
- RezijeCurrent.ClassifyFields: the `TypeError` messages of JavaScript are not modelled. The error only names the expression that was null.
- RezijeLegacy.ClassifyFields: the same simplification of `TypeError` messages.
- Confirmation.RenamesOfCollect: assumes distinct file names. A directory listing never repeats a name.
- Confirmation.SummariseRenames: assumes distinct file names, as above. With repeated names the last entry would win.
- The order of keys in `renames` is not modelled. It is a map, and the rename loop's order only affects the log output.
- JsNumber.ParseFloatDigits: `parseFloat` is modelled exactly only as far as the thresholds need. Decimal literals with a fraction or exponent are kept as mantissa and exponent, not IEEE-754 doubles.
- JsDate.Construct: a date is a calendar day. Time zones and the ±8.64e15 ms range limit of JavaScript dates are not modelled.
- JsString.ToLowerAscii: `toLowerCase` is modelled for ASCII letters only. The titles it is applied to contain no other upper-case letters.
- Strings are sequences of code points rather than UTF-16 code units. All keys and labels are in the Basic Multilingual Plane.
- `replace` patterns with `$` in the replacement are not modelled; no replacement in the code contains `$`.
- The water branch runs imperatively on the `Date` class in `Bills.WaterPeriodSteps`, which is proved equal to the function `WaterPeriod`. The classifier uses that function, because functions cannot call methods.

## Findings

| source | as written | input that shows it | evidently intended | confidence | as-written member | corrected member |
|---|---|---|---|---|---|---|
| src/main.js:39-43 | `parseInt` of a month or year that is not a number is NaN. Every comparison with NaN is false, so the range check passes. | the argument `ab2024`, whose month `ab` is NaN: the run goes on with the period `ab/2024` (`ArgWithoutMonthAccepted`), where the corrected check answers with the usage message (`ArgWithoutMonthRejected`) | only numeric months in [1, 12] and years in [2021, 2100] are accepted | not executed | RezijeCurrent.ParseArgAsWritten | RezijeCurrent.ParseArg |
