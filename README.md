# computeSales — a verified model of `compute_total_sales`

This project models the sales reconciliation in `ejercicio1/computeSales.py`.
Given a price catalogue (records with a `title` and a `price`) and a sales log
(records with a `Product` name and a `Quantity`), `compute_total_sales`:

1. builds a dict from title to price with a dict comprehension;
2. for each sale, takes the first dict key, in iteration order, whose
   lower-cased form contains the lower-cased product name;
3. adds `price * quantity` when that key is truthy, and prints one warning
   naming the product otherwise.

The model is split into modules that follow those steps:

- `Text` (`text.dfy`) covers `str.lower()` and Python's substring test `in`.
- `Catalogue` (`catalogue.dfy`) covers the dict.
  - A Python dict is a `PriceIndex`: the keys in insertion order plus a map from key to price.
  - `Put` is `d[title] = price`. A key already present keeps its place and takes the new price.
  - `Build` is the comprehension, stated as a fold.
  - `BuildIndex` builds the dict with a loop and is proved equal to `Build`.
- `Matcher` (`matcher.dfy`) covers the `next(...)` generator, as the pure function `FirstMatch`.
- `Sales` (`sales.dfy`) covers the rest.
  - `Total` and `Warnings` are the fold over the sales.
  - `ChargeSales` is the loop over the sales, and `ComputeTotalSales` builds the dict and runs it. They return the total and the warning lines, in the order they would be printed.
  - The lemmas cover:
    - the sum over the counted sales;
    - how warnings relate to unmatched sales;
    - order independence;
    - scaling.
- `Scenarios` (`scenarios.dfy`) proves the model's result on small concrete catalogues, one behaviour at a time.

Prices and quantities are exact `real` numbers. Lower-casing is ASCII.

Two edge cases follow the code exactly:

- **Empty product name.** An empty product name is contained in every title, so it matches the first key whatever that key is. If that key is `""`, `if matched_product:` rejects it and the sale is warned about. The scan does not go on to a later title. See `Scenarios.EmptyTitleIsNotAMatch`.
- **Empty titles.** The code does not require titles to be non-empty, so the model allows empty titles.

## Model

| member | source | states |
|---|---|---|
| Text.LowerChar | ejercicio1/computeSales.py:30 | lower-casing a character leaves no upper-case letter. It changes only upper-case letters, each into the lower-case letter whose upper-case form it is |
| Text.Lower | ejercicio1/computeSales.py:30 | `s.lower()` has the length of `s` and lower-cases it position by position |
| Text.Upper | ejercicio1/computeSales.py:30 | upper-casing has the length of `s` and upper-cases it position by position. It serves to state case-insensitivity |
| Text.CaseChangesAreCaseOnly | ejercicio1/computeSales.py:30 | lower- and upper-casing a string leave it equal up to case (so lower-casing twice equals lower-casing once) |
| Text.Contains | ejercicio1/computeSales.py:30 | the substring scan `needle in hay` is true exactly when `needle` occurs at some position of `hay` |
| Text.EmptyIsContained | ejercicio1/computeSales.py:30 | the empty string is contained in every string |
| Catalogue.Put | ejercicio1/computeSales.py:19 | dict assignment. The key gets the new price and every other key keeps its price. An existing key keeps its position and a new key goes last. Keys stay distinct and match the map's domain |
| Catalogue.Build | ejercicio1/computeSales.py:19 | the comprehension's dict has distinct keys, exactly those with a price |
| Catalogue.BuildKeysAreTitles | ejercicio1/computeSales.py:19 | a title is a key of the dict exactly when it occurs in the catalogue |
| Catalogue.BuildKeysInFirstOccurrenceOrder | ejercicio1/computeSales.py:19 | dict keys are iterated in the order of each title's first occurrence in the catalogue |
| Catalogue.BuildLastPriceWins | ejercicio1/computeSales.py:19 | each title's price in the dict is the price at its last occurrence in the catalogue |
| Catalogue.BuildIsDict | ejercicio1/computeSales.py:19 | the fold builds the dict the comprehension promises: distinct keys, the catalogue's titles, first-occurrence order, last-occurrence prices |
| Catalogue.LastListingWins | ejercicio1/computeSales.py:19 | a title listed at positions i < j, and not after j, is priced at position j's price |
| Catalogue.BuildIndex | ejercicio1/computeSales.py:19 | the loop over the catalogue builds exactly `Build(products)`, and so a dict with all of the properties above |
| Matcher.Matches | ejercicio1/computeSales.py:30 | `product_name.lower() in title.lower()` holds exactly when the lower-cased name occurs at some position of the lower-cased title |
| Matcher.FirstMatchPos | ejercicio1/computeSales.py:26-33 | the scan returns a position whose key matches, with no matching key before it. It returns None only when no key matches. Any position that is the first match is the one returned |
| Matcher.FirstMatch | ejercicio1/computeSales.py:26-33 | `next(...)` is None exactly when no key matches. Otherwise it is a key that matches and that no earlier key matches, and it is the key at any position that is the first match |
| Matcher.FirstMatchPosIgnoresCase | ejercicio1/computeSales.py:30 | changing the case of the product name or of any key changes neither whether nor where the first match is found |
| Matcher.UpperNameMatchesAlike | ejercicio1/computeSales.py:30 | an upper-cased product name matches the same title as the original |
| Matcher.EmptyNameMatchesFirstKey | ejercicio1/computeSales.py:26-33 | an empty product name matches the first key, whatever it is |
| Sales.Warning | ejercicio1/computeSales.py:38 | the warning line is 47 characters longer than the product name and holds the name at position 18, so the name can be read back from it |
| Sales.ChargeAtFirstMatch | ejercicio1/computeSales.py:35-38 | when the first matching key is at position k, the sale is counted exactly when that key is not `""`. It then adds the key's price times the quantity, and otherwise 0 |
| Sales.ChargeWithoutMatch | ejercicio1/computeSales.py:26-38 | a sale that matches no key is not counted and adds 0 |
| Sales.Total | ejercicio1/computeSales.py:18-38 | the running total; a log in which no sale is counted totals 0 |
| Sales.Warnings | ejercicio1/computeSales.py:21-38 | the warnings printed; there are at most as many as sales, and none when every sale is counted |
| Sales.Counted | ejercicio1/computeSales.py:35-36 | a sale of the log is among the counted sales exactly when it is counted |
| Sales.Unmatched | ejercicio1/computeSales.py:37-38 | a sale of the log is among the unmatched sales exactly when it is not counted |
| Sales.CountedAndUnmatchedPartition | ejercicio1/computeSales.py:35-38 | the counted and the unmatched sales together are the log, each sale as often as it occurs in it |
| Sales.TotalIsSumOverCounted | ejercicio1/computeSales.py:18-39 | the total is the sum, over the counted sales in order, of matched price times quantity |
| Sales.WarningsNameUnmatched | ejercicio1/computeSales.py:21-38 | there is one warning per uncounted sale, in the sales' order, and the i-th warning names the i-th uncounted sale's product |
| Sales.EverySaleAccountedFor | ejercicio1/computeSales.py:21-38 | the number of warnings plus the number of counted sales is the number of sales |
| Sales.TotalAppend | ejercicio1/computeSales.py:21-36 | the total over two consecutive runs of sales is the sum of their totals |
| Sales.WarningsAppend | ejercicio1/computeSales.py:21-38 | the warnings of two consecutive runs of sales are the warnings of the first followed by those of the second |
| Sales.UnmatchedSaleIsNeutral | ejercicio1/computeSales.py:35-38 | an uncounted sale anywhere in the log leaves the total unchanged and adds exactly one warning, naming it, at its place. This covers both no match and an empty first match |
| Sales.TotalRemoveAt | ejercicio1/computeSales.py:21-36 | removing one sale from the log removes exactly its amount from the total |
| Sales.WarningsRemoveAt | ejercicio1/computeSales.py:21-38 | removing one sale from the log removes exactly its warnings from the multiset of warnings |
| Sales.UpperNameChargesAlike | ejercicio1/computeSales.py:30-36 | upper-casing a sale's product name changes neither whether it is counted nor what it adds |
| Sales.TotalIsOrderIndependent | ejercicio1/computeSales.py:21-36 | two logs that are permutations of each other have the same total |
| Sales.WarningsArePermuted | ejercicio1/computeSales.py:21-38 | permuting the log permutes its warnings and changes nothing else about them |
| Sales.AmountScales | ejercicio1/computeSales.py:36 | multiplying a sale's quantity by k keeps whether it is counted and multiplies its amount by k |
| Sales.ScalingQuantitiesScalesTotal | ejercicio1/computeSales.py:21-36 | multiplying every quantity by k multiplies the total by k (`Times(k, x)` is `k * x`) |
| Sales.ScalingQuantitiesKeepsWarnings | ejercicio1/computeSales.py:21-38 | multiplying every quantity by k leaves the warnings unchanged |
| Sales.ChargeSales | ejercicio1/computeSales.py:21-38 | the loop over the sales returns exactly `Total` and `Warnings` of the dict it is given |
| Sales.ComputeTotalSales | ejercicio1/computeSales.py:16-39 | the loop returns exactly `Total` and `Warnings` of the built dict. That total is the sum over the counted sales. Warnings plus counted sales number the sales. With no sales, the total is 0 and there are no warnings |
| Scenarios.UnknownProductIsWarned | ejercicio1/computeSales.py:35-38 | "Milk" against a catalogue holding only "Bread" adds 0 and yields one warning naming "Milk" |
| Scenarios.PartialNameMatches | ejercicio1/computeSales.py:30 | "TEA" matches the title "Iced Tea" case-insensitively, so 4 × 0.5 gives 2 |
| Scenarios.FirstListedTitleWins | ejercicio1/computeSales.py:26-33 | "tea" matches both "Tea" and "Iced Tea" and is charged at "Tea", the title listed first |
| Scenarios.RepeatedTitleTakesLastPrice | ejercicio1/computeSales.py:19 | "Tea" listed at 1.0 and then at 2.5 is charged at 2.5 |
| Scenarios.EmptyNameBuysFirstTitle | ejercicio1/computeSales.py:26-36 | an empty product name is charged at the first title's price |
| Scenarios.EmptyTitleIsNotAMatch | ejercicio1/computeSales.py:35-38 | an empty product name against the titles "" and "Apple" matches the falsy "". It adds 0 and is warned about, rather than falling through to "Apple" |

## Left out

- `read_json_file` (ejercicio1/computeSales.py:6-13) is not modelled. Opening and parsing files is I/O; the model takes the decoded records as sequences.
- `main` (ejercicio1/computeSales.py:42-69) is not modelled. It holds argument parsing, wall-clock timing, the `.2f` formatting and the write of `SalesResults.txt`, all I/O and presentation.
- Floating point: prices, quantities and the running sum are exact reals. IEEE-754 rounding, and the `int` 0 returned for an empty log (the model returns 0.0), are not modelled. Permutation invariance and k-scaling hold for exact arithmetic only.
- `str.lower()` is modelled for ASCII letters only. Python's full Unicode case mapping, including mappings that change a string's length, is not modelled.
- Records missing `title`, `price`, `Product` or `Quantity` raise `KeyError` in the source. The model takes well-typed records, so that failure cannot arise. Non-string names and non-numeric prices or quantities are excluded the same way.
- The warnings are returned as a sequence of lines rather than printed. The line text follows the source's format string.
