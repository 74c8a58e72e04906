# Beverage invoice substitution, modelled in Dafny

This project models the beverage-invoice core of a small invoicing workflow.
Tax invoices are spreadsheet files in a `tax_files` directory.

- Each file is named `<id> - <atm|transfer> - <total>đ.xlsx`.
- Once a day, a replacement run samples five of the files.
- It rewrites each sampled file as a synthesized invoice of beers and cokes.
  The synthesized invoice is taxed at 10 % and is meant to add up to the
  original total, which was taxed at 8 %.
- The new invoice is saved under the name that encodes the original id,
  payment method and total.
- A companion script lists the workbooks that hold only beverage lines.
- A third script deletes every other workbook.

The modules follow the three scripts:

| module | file | models |
|---|---|---|
| `PyStr` | `py_str.dfy` | the parts of Python's `str` the scripts use: `strip`, `lower`, `upper`, `in`, `replace`, `split`, `join`, code-point ordering and `sorted` |
| `TotalCodec` | `total_codec.dfy` | `parse_total_from_stem` and the `f"{n:,}".replace(',', '.')` rendering of a total, with Python's `int()` on the cleaned token |
| `TaxFilename` | `tax_filename.dfy` | `Path.stem`, `parse_tax_filename` and the output name of a replaced file |
| `Dates` | `dates.dfy` | the two `strftime` renderings of the clock reading |
| `BeverageSynthesis` | `beverage_items.dfy` | `BEVERAGE_ITEMS`, `beverage_invoice_items_for_target` (a loop with `break`, kept as a method) and `build_beverage_invoice` |
| `TaxFiles` | `tax_files.dfy` | the directory as a map from names to workbooks, the column-3 cells the classifier reads, the `*.xlsx` glob and the `Grab - ` filter |
| `Classifier` | `classifier.dfy` | `is_beverage_only_invoice`: its row loop and its scan loop |
| `Listing` | `listing.dfy` | `main` of `list_beverage_replaced_invoices.py` |
| `Cleanup` | `cleanup.dfy` | `main` of `delete_normal_keep_beverage.py`, with both of its loops |
| `Replacement` | `replacement.dfy` | the quota state file and `run_beverage_replacement` with its loop over the sampled files |

The file system is passed in and returned as values.
- A directory is a `map<string, TaxFile>`.
- The order in which `glob` yields names is a `listing` parameter, tied to
  the map by `Enumerates`.
- The replacement run reads and returns a `Disk` value: the tax directory,
  the quota state file and the log files.
- Randomness is an input:
  - the positions `random.sample` picks;
  - one `Draws` value per synthesis, with the outcome of each `randint` and `choice` call.
- The clock is an input: one `Date`.

The loops of the source are kept as methods with loop invariants. Each
method is proved equal to a function, and the properties are proved as lemmas
about those functions.

Where the behaviour of the code differs from what its own comments or an
obvious reading suggest, the model follows the code:

- `parse_tax_filename` documents the three-piece name `"123456 - atm - 500.000đ.xlsx"` (automation/daily_beverage_invoices.py:130-132). It accepts a stem with three or more ` - ` pieces and ignores the pieces after the third.
- On a disqualifying name, `is_beverage_only_invoice` returns the complete list the row loop collected, not just the names scanned so far (automation/list_beverage_replaced_invoices.py:38). `Classify` states this.
- The doc comments of the module, of `beverage_invoice_items_for_target` and of `build_beverage_invoice` claim that `sum(items) * 1.10` equals the original total exactly (automation/daily_beverage_invoices.py:5, 62, 110). The code does not guarantee this:
  - When the last line has at least 1/2 left to make up, the taxed sum lies within 1/2 of the original total (`PostTaxWithinHalf`). By `GapLowerBound` this holds for every total of at least 2.
  - It is exact only when the total is a multiple of 11 (`ExactOnlyForMultiplesOf11`).
  - Rounding the taxed sum gives the total back except at a tie. Ties fall exactly on the totals that leave 5 or 6 modulo 11, and there the rounded value is the total only when the total is even (`RoundedTotal`).
  - For example, a total of 50 001 gives lines adding up to 45 455 whatever is drawn. Taxed in exact arithmetic, that is exactly 50 000.5, which rounds to 50 000 (`TieAtFiftyThousandAndOne`). Python's floats give 50 001 here, as the tie line under "## Left out" says.
- An id that is trimmed and holds no ` - ` can still fail the file-name round trip. It fails when it ends in ` -`: `"7 -"` written as `"7 - - atm - …"` splits into `"7"`, `"- atm"`, …. `RoundTripId` adds that condition.

## Model

| member | source | states |
|---|---|---|
| `TotalCodec.ParseTotalFromStem` | automation/daily_beverage_invoices.py:51-57 | a missing token is coerced to the empty one and gives no total |
| `TotalCodec.TotalRoundTrip` | automation/daily_beverage_invoices.py:51-57 | for every integer n, rendering it as `f"{n:,}"` with `.` for `,`, adding `đ` and parsing it back gives n |
| `TaxFilename.NormalizePayment` | automation/daily_beverage_invoices.py:139-141 | the payment method is always `atm` or `transfer` |
| `TaxFilename.KnownPaymentKept` | automation/daily_beverage_invoices.py:139-141 | `atm` and `transfer` are kept as they are |
| `TaxFilename.ParseTaxFilename` | automation/daily_beverage_invoices.py:129-145 | a decoded name always carries a known payment method |
| `TaxFilename.ParsePieces` | automation/daily_beverage_invoices.py:135-145 | fewer than three pieces give None; a decoded name has the stripped first piece as id and the normalized second piece as payment |
| `TaxFilename.BadTotalRejected` | automation/daily_beverage_invoices.py:142-144 | a third piece that is not a total rejects the whole name |
| `TaxFilename.ParseOfPieces` | automation/daily_beverage_invoices.py:135-145 | a stem of three or more pieces whose third parses decodes to the stripped first piece, the normalized second and that total; pieces after the third are ignored |
| `TaxFilename.StemOfOutputName` | automation/daily_beverage_invoices.py:213 | the stem of an output name is the name without `.xlsx` |
| `TaxFilename.OutputNamePieces` | automation/daily_beverage_invoices.py:212-213 | the stem of an output name splits into exactly the id, the payment method and the total token |
| `TaxFilename.FileNameRoundTrip` | automation/daily_beverage_invoices.py:210-213 | decoding the output name written for a decoded triple gives the triple back, for an id that survives splitting |
| `Dates.IsoDateFields` | automation/daily_beverage_invoices.py:174 | the year, month and day can be read back from `%Y-%m-%d` |
| `Dates.IsoDateInjective` | automation/daily_beverage_invoices.py:174 | two different days never render to the same quota key |
| `BeverageSynthesis.RoundHalfEven` | automation/daily_beverage_invoices.py:97 | `round(x)` is within 1/2 of x and, on a tie, even |
| `BeverageSynthesis.BeverageItemsForTarget` | automation/daily_beverage_invoices.py:60-105 | the loop with `break` builds exactly the fixed lines and the last line of `BeverageItems` |
| `BeverageSynthesis.BuyFixedLines` | automation/daily_beverage_invoices.py:69-92 | the `for` loop with its two `break`s buys exactly the fixed lines of `FixedFrom`, and `sum_so_far` is their cost |
| `BeverageSynthesis.BuyOne` | automation/daily_beverage_invoices.py:77-91 | one pass of that loop returns the line `NextLine` says draw k buys, or None where the loop breaks |
| `BeverageSynthesis.FixedAccFrom` | automation/daily_beverage_invoices.py:76-92 | appending lines as the loop does gives the lines bought so far followed by the remaining fixed lines |
| `BeverageSynthesis.FloorDivBounds` | automation/daily_beverage_invoices.py:81 | `int(remaining // price)` is the number q of prices with q * price <= remaining < (q + 1) * price |
| `BeverageSynthesis.NextLineFits` | automation/daily_beverage_invoices.py:78-85 | a bought line costs no more than what is left of `max_fixed` |
| `BeverageSynthesis.BuildBeverageInvoice` | automation/daily_beverage_invoices.py:108-126 | id and payment are carried through; discount, payment discount and final total are 0; the date defaults to today as `dd/mm/YYYY`; the lines are the synthesized ones |
| `BeverageSynthesis.ItemsShape` | automation/daily_beverage_invoices.py:75-104 | one to three lines; every fixed line is a catalog entry bought 1 to 3 times; the last is bought once at a price of at least 1 under a catalog name and unit |
| `BeverageSynthesis.QuantityReachable` | automation/daily_beverage_invoices.py:84 | every quantity `randint(1, max_qty)` can return has a draw in the model |
| `BeverageSynthesis.FixedNeedsBudget` | automation/daily_beverage_invoices.py:72-80 | a fixed line is only bought when `max_fixed` is at least 25 000 |
| `BeverageSynthesis.FixedWithinBudget` | automation/daily_beverage_invoices.py:71-92 | the fixed lines never cost more than `max_fixed` |
| `BeverageSynthesis.GapLowerBound` | automation/daily_beverage_invoices.py:71-95 | for a non-negative total the gap left for the last line is at least `min(reserve, target / 2)` |
| `BeverageSynthesis.FixedLeavesLargeGap` | automation/daily_beverage_invoices.py:72-95 | once a fixed line is bought, the gap is at least 25 000 |
| `BeverageSynthesis.SmallTargetSingleLine` | automation/daily_beverage_invoices.py:72-80 | below a pre-tax target of 50 000 the invoice has only the last line |
| `BeverageSynthesis.PreTaxWithinHalf` | automation/daily_beverage_invoices.py:95-97 | with a gap of at least 1/2, the pre-tax sum is within 1/2 of `total / 1.10` |
| `BeverageSynthesis.PostTaxWithinHalf` | automation/daily_beverage_invoices.py:60-66 | with a gap of at least 1/2, the sum with 10 % tax is within 1/2 of the replaced total |
| `BeverageSynthesis.ExactOnlyForMultiplesOf11` | automation/daily_beverage_invoices.py:60-66 | with a gap of at least 1/2, the taxed sum equals the total exactly if and only if the total is a multiple of 11 |
| `BeverageSynthesis.TaxedOffset` | automation/daily_beverage_invoices.py:60-66 | a taxed sum within 1/2 of the total lies at most 5 tenths from it, by a number of tenths congruent to the total modulo 11 |
| `BeverageSynthesis.TaxedRounding` | automation/daily_beverage_invoices.py:60-66 | a pre-tax sum whose taxed value is within 1/2 of the total rounds back to it unless the total leaves 5 or 6 modulo 11 and is odd |
| `BeverageSynthesis.NonTieRoundsBack` | automation/daily_beverage_invoices.py:60-66 | a taxed sum within 1/2 of the total that is not a tie (`11 * sum - 10 * total` is not ±5) rounds to the total |
| `BeverageSynthesis.RoundedTotal` | automation/daily_beverage_invoices.py:60-66 | with a gap of at least 1/2, rounding the taxed sum gives the total back iff the total does not leave 5 or 6 modulo 11, or is even |
| `BeverageSynthesis.TieAtFiftyThousandAndOne` | automation/daily_beverage_invoices.py:60-66 | for a total of 50 001 every draw gives a sum of 45 455, which taxed is 50 000.5 and rounds to 50 000 |
| `TaxFiles.MatchingMembers` | automation/daily_beverage_invoices.py:188-189 | a name is a candidate iff it is listed, ends in `.xlsx` and, when Grab files are skipped, does not start with `Grab - ` |
| `TaxFiles.MatchingDistinct` | automation/daily_beverage_invoices.py:188 | filtering a listing without repeats gives candidates without repeats |
| `Classifier.CellName` | automation/list_beverage_replaced_invoices.py:24-26 | a cell that contributes a name contributes a non-empty one |
| `Classifier.Classify` | automation/list_beverage_replaced_invoices.py:16-39 | the names are the collected ones (none for an unreadable workbook); the verdict is true iff the workbook was read and the names are non-empty and all acceptable |
| `Classifier.IsBeverageOnlyInvoice` | automation/list_beverage_replaced_invoices.py:16-39 | the two loops return the names collected from column 3 and a verdict that is true iff some name was collected and every one is a service line or holds a keyword |
| `Classifier.CollectNames` | automation/list_beverage_replaced_invoices.py:22-26 | the row loop collects exactly the stripped, lower-cased, non-blank values, in row order |
| `Classifier.ScanNames` | automation/list_beverage_replaced_invoices.py:34-39 | the scan with its early return answers true iff every name is a service line or holds a keyword |
| `Classifier.NamesComeFromCells` | automation/list_beverage_replaced_invoices.py:23-26 | a name is collected iff some cell of column 3 contributes it |
| `Classifier.NamesNonEmpty` | automation/list_beverage_replaced_invoices.py:25-26 | no collected name is empty |
| `Classifier.ServiceLineIgnored` | automation/list_beverage_replaced_invoices.py:35-36 | inserting or removing a service line never changes the verdict of a non-empty list |
| `Classifier.OneForeignNameDisqualifies` | automation/list_beverage_replaced_invoices.py:37-38 | one name that is neither a service line nor holds a keyword makes the verdict false |
| `Classifier.CatalogNameAccepted` | automation/list_beverage_replaced_invoices.py:13 | every catalog name, read back from a cell and lower-cased, holds a beverage keyword |
| `Classifier.CatalogNamesCollected` | automation/list_beverage_replaced_invoices.py:22-26 | a column of catalog names is collected in full and every name holds a keyword |
| `Classifier.GeneratedIsBeverageOnly` | automation/list_beverage_replaced_invoices.py:13-39 | every invoice the synthesizer builds is classified as beverage-only |
| `Listing.Piece` | automation/list_beverage_replaced_invoices.py:55-57 | the k-th piece of the stem, stripped, or the empty string when there are fewer pieces |
| `Listing.ReportFiles` | automation/list_beverage_replaced_invoices.py:47 | the covered files come in sorted order |
| `Listing.ListBeverageReplacedInvoices` | automation/list_beverage_replaced_invoices.py:42-64 | a missing directory exits with 1 and lists nothing; otherwise exit 0, the sorted non-Grab `.xlsx` files, and one report line per beverage-only file in that order |
| `Listing.ListFiles` | automation/list_beverage_replaced_invoices.py:50-64 | the loop collects exactly the report lines of `Listed` |
| `Listing.ReportCovers` | automation/list_beverage_replaced_invoices.py:47 | a file is covered iff it is in the directory, ends in `.xlsx` and is not a Grab file |
| `Listing.ReportOrderFree` | automation/list_beverage_replaced_invoices.py:47 | the covered files do not depend on the order in which the directory is enumerated |
| `PyStr.SortedUnique` | automation/list_beverage_replaced_invoices.py:47 | two sorted lists with the same elements are equal, so `sorted` has a single answer |
| `PyStr.SortedDistinct` | automation/delete_normal_keep_beverage.py:44 | sorting a list without repeats gives a list without repeats |
| `Listing.ListedEntries` | automation/list_beverage_replaced_invoices.py:50-64 | every report line belongs to a covered beverage-only file and carries its name pieces and product names |
| `Listing.BeverageFilesListed` | automation/list_beverage_replaced_invoices.py:50-58 | every covered beverage-only file has a report line |
| `Listing.ListedInOrder` | automation/list_beverage_replaced_invoices.py:47-58 | report lines come in the sorted order of their files |
| `Listing.EntryOfOutputName` | automation/list_beverage_replaced_invoices.py:53-57 | the report line of a name written by the replacement run shows its id, payment method and total token |
| `Cleanup.FirstFailure` | automation/delete_normal_keep_beverage.py:44-50 | the position of the first file that cannot be deleted: all before it can be, it cannot (or the length) |
| `Cleanup.DeleteNormalKeepBeverage` | automation/delete_normal_keep_beverage.py:17-54 | a missing directory exits with 1 and changes nothing; otherwise the `.xlsx` files are split by the classifier and the to-delete ones are removed in sorted order up to the first failure; the exit code is 1 iff a deletion failed |
| `Cleanup.PartitionFiles` | automation/delete_normal_keep_beverage.py:22-31 | the loop puts each file in `to_keep` or `to_delete` by the classifier's verdict, in listing order |
| `Cleanup.DeleteInOrder` | automation/delete_normal_keep_beverage.py:44-54 | the delete loop removes the files in order up to the first failure and exits with 1 iff there is one |
| `Cleanup.VerdictMembers` | automation/delete_normal_keep_beverage.py:26-31 | a file is in the list of its own verdict and not in the other |
| `Cleanup.PartitionIsPermutation` | automation/delete_normal_keep_beverage.py:22-31 | `to_keep` and `to_delete` together are a permutation of the `.xlsx` files |
| `Cleanup.CleanupOutcome` | automation/delete_normal_keep_beverage.py:22-54 | when every deletion succeeds, exactly the non-`.xlsx` files and the beverage-only workbooks, Grab or not, remain, unchanged |
| `Cleanup.KeptFilesSurvive` | automation/delete_normal_keep_beverage.py:26-50 | a kept workbook is never deleted, wherever the deletions stop |
| `Cleanup.FailureLeavesRest` | automation/delete_normal_keep_beverage.py:44-50 | the file that cannot be deleted and every later one stay in place |
| `Cleanup.VerdictDistinct` | automation/delete_normal_keep_beverage.py:26-31 | a verdict list drawn from names without repeats has no repeats |
| `Cleanup.DeleteOrderDistinct` | automation/delete_normal_keep_beverage.py:40-44 | the order `sorted(to_delete)` that the cleanup deletes in names every file once, as `FailureLeavesRest` requires |
| `Replacement.ReadReplacementState` | automation/daily_beverage_invoices.py:152-160 | a missing or unreadable state file reads as no date and count 0; a stored object gives its date and its count, and a missing count reads as 0 |
| `Replacement.StateRoundTrip` | automation/daily_beverage_invoices.py:152-164 | reading back a written state gives the same day and count |
| `Replacement.RunBeverageReplacement` | automation/daily_beverage_invoices.py:167-239 | the run equals `Run`: refused by the quota, refused with fewer than five candidates, or five files processed, the log written and the quota set to five for today |
| `Replacement.ReplaceAll` | automation/daily_beverage_invoices.py:205-228 | the loop over the sampled files builds exactly the directory, log and entries of `Steps` |
| `Replacement.ReplaceOne` | automation/daily_beverage_invoices.py:206-228 | one iteration builds exactly the directory, log and entries of `Step` |
| `Replacement.SecondRunRefused` | automation/daily_beverage_invoices.py:174-233 | after a completed run, a second run on the same day is refused and changes nothing |
| `Replacement.OtherDayNotBlocked` | automation/daily_beverage_invoices.py:174-176 | the quota written on one day does not block another day |
| `Replacement.RefusalsKeepState` | automation/daily_beverage_invoices.py:174-194 | the run is refused by the quota iff the stored date is today and the count is at least 5, and then nothing changes; otherwise it is refused as too few iff there are fewer than five candidates, creating only a missing directory, and completes iff there are at least five; a completed run stores today and 5 |
| `Replacement.SampledFiles` | automation/daily_beverage_invoices.py:188-196 | the five sampled files are distinct non-Grab `.xlsx` files of the directory |
| `Replacement.StepEntry` | automation/daily_beverage_invoices.py:206-228 | an undecodable file adds only its skip line; a decoded one adds its two log lines and an entry with the decoded id, payment and total and the price of the invoice's last line |
| `Replacement.StepLog` | automation/daily_beverage_invoices.py:206-228 | one iteration adds one log line and no entry, or two lines and one faithful entry, keeping what came before |
| `Replacement.StepsLog` | automation/daily_beverage_invoices.py:198-228 | the loop adds one line per skipped and two per replaced file, keeping the header; its entries are exactly one per decodable name, and their `oldName`s are the decodable names in sampled order |
| `Replacement.StepsEntry` | automation/daily_beverage_invoices.py:205-228 | every entry names a sampled file whose name decodes to the entry's id, payment and total, with a last-line price of at least 1 |
| `Replacement.StepsNames` | automation/daily_beverage_invoices.py:205-228 | the entries the loop adds name exactly the sampled files whose names decode, in sampled order |
| `Replacement.Decodable` | automation/daily_beverage_invoices.py:206-209 | the decodable names are no longer than the sampled names; `DecodableMembers` gives their members and `StepsNames` their order |
| `Replacement.DecodableMembers` | automation/daily_beverage_invoices.py:206-209 | a name is among the decodable ones iff it was sampled and `parse_tax_filename` decodes it |
| `Replacement.OldNames` | automation/daily_beverage_invoices.py:222-228 | one original file name per entry, the k-th being entry k's `oldName` |
| `Replacement.NamesExtended` | automation/daily_beverage_invoices.py:205-228 | extending the entries by the entry of one more name, when it decodes, extends their names by that name |
| `Replacement.RunLog` | automation/daily_beverage_invoices.py:198-239 | a completed run has at most five entries, 3 header lines plus one per skipped and two per replaced file, all entries faithful, one entry per decodable sampled file with the `oldName`s in sampled order (a sampled file has an entry iff its name decodes), and writes the joined lines to today's log file only |
| `Replacement.StepFiles` | automation/daily_beverage_invoices.py:206-216 | a replacement saves the synthesized invoice under the encoded name, where it classifies as beverage-only; the original is gone when the names differ; no other file changes; a skipped file changes nothing |
| `Replacement.RewriteFrame` | automation/daily_beverage_invoices.py:213-216 | saving one file and unlinking the original changes no third name |
| `Replacement.StepsFrame` | automation/daily_beverage_invoices.py:205-216 | a file that is neither sampled nor the encoded name of a sampled file is left as it was |

## Left out

- The web control panel (`auto_upload_web.py`) and the browser script (`static/js/main.js`) are not part of this model. They are routes, subprocesses, threads and DOM updates.
- Writing a workbook (`create_invoice_file` in `automation/process_invoices`) is not part of this model. Saving an invoice is modelled as the directory now holding a `Generated` file for it under that name. The classifier reads such a file as one column-3 cell per line, holding the line's name; this layout of the writer is assumed.
- Reading a workbook with openpyxl is modelled as the list of column-3 values from row 2 down, or `None` when the file cannot be opened. Cell values are blank, text or integers: floats, dates, formulas and booleans are left out. In the source a `False` cell is skipped as falsy at automation/list_beverage_replaced_invoices.py:25, and a `True` cell is read through `str(True)` as the name `true`. The model has no boolean cells.
- Python floats: `/ 1.10`, `* 0.5` and `round` are computed on exact reals, so IEEE rounding of the target is not modelled.
- The result of `round(sum * 1.10)` at a tie depends on IEEE rounding, which is left out. For 45 455 the exact product is 50 000.5, which rounds to 50 000, while the nearest double to `45455 * 1.10` lies just above it and would round to 50 001.
- `Lower` covers ASCII, Latin-1, Latin Extended-A up to U+0137 except U+0130, O and U with horn, and the Vietnamese block U+1EA0–U+1EF9. Other letters are left as they are, where Python's `str.lower` would fold them. U+0130 (İ) is among them: Python lowers it to two code points, which a character-by-character `Lower` of the same length cannot express.
- `UpperAscii` models `payment_method.upper()` on ASCII only, which covers the two payment methods it is applied to.
- `ParseInt` models `int()` on ASCII digits. Non-ASCII digits, which Python also accepts, are left out.
- The clock is read once. The source calls `datetime.now()` three times, and these could fall on different days around midnight.
- `mkdir` failure is left out: a missing tax directory is created and is empty. So the second `exists` check never fails, and the run ends with "fewer than 5 files".
- Exceptions during the replacement loop are left out. A failing `unlink`, or a failing save or log write, would abort the run part-way.
- A stored `date` that is not a string is modelled as "no date". It never equals today's date, so the source behaves the same.
- A stored `count` that is not an integer is modelled as an unreadable state file: no date and count 0. The source compares the count with 5 only when the stored date is today. Then:
  - a string or `null` count raises a `TypeError` before anything is written, where the model runs;
  - a float count is compared by value, so a stored `count: 5.0` for today refuses the run, where the model runs it;
  - a `true` or `false` count compares as 1 or 0 and never refuses the run, as in the model.
- The error messages of the refused runs are not modelled, only which refusal it is.
- The printed report and the printed progress of the listing and cleanup scripts are left out. Only their exit codes and the data they print are modelled.
- A failing `unlink` is only modelled in the cleanup script, through the set of names that cannot be deleted.
- The file system is case-sensitive: names that differ only in case are different files, and `glob` matches case-sensitively. On a case-insensitive file system, such as macOS by default, rewriting `x - ATM - …` to `x - atm - …` saves onto the same file, and the `unlink` at automation/daily_beverage_invoices.py:213-216 would then delete the invoice just written.
- In-place updates of the directory and aliasing between paths are not modelled, since every operation maps a directory value to a new one.
- `TaxFilename.FileNameRoundTrip`: proved only for ids with no surrounding whitespace, no ` - ` and no trailing ` -`. Other ids decode to a different id.
