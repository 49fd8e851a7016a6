# helium-transaction-overview, modelled in Dafny

The program reports the mining rewards of one Helium account. It fetches the
account's activity from the Helium API and keeps the reward transactions. It
then sums each block's reward amounts into `reward_total`. Next it prices each
block at the oracle price for its height, giving `usd_total`. It writes the
records to CSV files and sums the USD values of the blocks that fall in a
given year. Everything happens in the class `PullTransactions` of `main.py`,
whose methods update the list `reward_activity` in place, stage by stage.

The model follows that structure:

- `Records`: the values a block record holds, the record as an insertion-ordered
  dict (its key order plus a map from key to value), dict read and write, the exceptions, and
  Python's `float()`, `int()` on a float, `str.strip()` and `in` on strings.
- `InPlace`: the loop shape shared by three stages. Each record is replaced by
  what the loop body leaves in it. The first exception ends the loop, and the
  records after it stay untouched.
- `Fetch`: the paging loop over the activity endpoint and the reward filter.
- `Aggregate`: the loop body of `compile_rewards_per_block`.
- `Enrich`: the loop body of `set_dollar_per_block` and `get_price_at_block`.
- `Export`: the rows of `store_to_csv` and `output_to_csv_all_rewards`.
- `YearSummary`: the summing loop of `output_total_rewards_for_year`.
- `Pipeline`: the class `PullTransactions`, its fields and its stage methods.
  Each method's loop is proved against the functions above.

The outside world enters as parameters:

- The activity endpoint is the sequence of responses it gives.
- The price endpoint is a function from height to quote, or to None for a
  failed request.
- The two cache files are either None or the rows they hold.
- `float()` on text is the supplied function `parseFloat`.
- `ast.literal_eval` is the supplied function `parse`, which gives the parsed
  value or the exception the parser raises (SyntaxError for malformed text).
- The year window is given as the two epochs that `time.mktime` would produce.

An exception becomes an `Outcome` or a `Result` that carries the error. The
state is left as the source leaves it at the point of the raise.

Some behaviours of `main.py` differ from what the program sets out to do.
The model keeps them as written:

- **Last page dropped.** The paging loop adds a page's data only when that
  page carries a cursor. The final page, which has none, contributes nothing
  (`Fetch.LastPageDropped`). In a two-page fetch only the first page's
  entries are kept.
- **Failed lookup aborts.** A failed price lookup makes
  `get_price_at_block` return None. Unpacking None raises TypeError, which
  ends the enrichment (`Enrich.FailedLookupAborts`). The fields are not left
  unset with the loop going on.
- **Missing rewards raise.** A block without `rewards` raises KeyError in
  `compile_rewards_per_block`; no total of 0 is recorded.
- **Two divisions by MULTIPLIER.** `usd_total` divides `reward_total`, which
  is already in display units, by MULTIPLIER once more before multiplying by
  the raw price. A block with rewards worth 5.0 priced at 200000000 gets 10.0
  (`Enrich.UsdTotalScenario`), not 1000.0.

## Model

| member | source | states |
|---|---|---|
| Records.Get | main.py:145 | the dict read `block[key]`, None where the key is absent (KeyError at each use); definition only, meaning in Set and GetIffKey |
| Records.Set | main.py:122 | after `rec[key] = v` the key reads `v` and every other key reads as before |
| Records.GetIffKey | main.py:175 | in a dict, `key in line.keys()` holds exactly when reading the key succeeds |
| Records.SetTwice | main.py:122 | repeating the same assignment changes nothing |
| Records.SetKeepsDict | main.py:122 | assignment keeps a dict a dict: no key appears twice, an existing key keeps its place in the key order, and a new key is appended last |
| Records.ToFloat | main.py:200-201 | `float()` keeps numbers, parses text (ValueError when the parse fails), and raises TypeError on lists and None |
| Records.Numeric | main.py:147-148 | arithmetic succeeds exactly on numbers; anything else raises TypeError |
| Records.Trunc | main.py:174 | `int()` on a float truncates toward zero |
| Records.TruncOfInt | main.py:200 | `int(float(i))` gives back the integer `i` |
| Records.IsBlank | main.py:196 | `str(s).strip() == ""`: every character is whitespace; definition only, used by HasUsableUsd |
| Records.Contains | main.py:103 | `t in s` on strings; definition only, meaning in ContainsIffOccurs |
| Records.ContainsIffOccurs | main.py:103 | `"reward" in s` holds exactly when the text occurs at some position of `s` |
| InPlace.UpdateEach | main.py:118-122 | an in-place loop keeps the number of records |
| InPlace.UpdateEachFinished | main.py:118-122 | the loop finishes iff every pass finishes, and then each record is its own pass's result |
| InPlace.UpdateEachRaised | main.py:118-122 | when record k is the first whose pass raises, the loop raises that error, with earlier records updated, record k as its pass left it, and later ones untouched |
| InPlace.UpdateEachDone | main.py:118-122 | in a finished loop each record's pass finished and the record is its result |
| InPlace.LoopStep | main.py:118-122 | one iteration of the in-place loop either extends the finished prefix or ends the loop with the final list |
| InPlace.UpdateEachAppend | main.py:118-122 | looping over `a + b` is looping over `a`, then over `b` only if `a` finished |
| InPlace.UpdateEachTwice | main.py:118-122 | when a pass is idempotent on each record, the whole loop is idempotent |
| InPlace.UpdateEachStep | main.py:118-122 | one more finished-prefix step adds that record's pass result |
| InPlace.UpdateEachStop | main.py:118-122 | once a prefix has raised, the rest of the list is left as it was |
| InPlace.RerunRaisesFirst | main.py:118-122 | rerunning a finished loop raises at the first record when that record's pass, repeated, raises |
| Fetch.Collected | main.py:93-97 | the paging loop's accumulated `activity`; definition only, meaning in CollectedIsContinuingPrefix and LastPageDropped |
| Fetch.CollectedIsContinuingPrefix | main.py:93-97 | the accumulated activity is the in-order data of the responses before the first one that fails or lacks a cursor |
| Fetch.LastPageDropped | main.py:94-96 | with a cursor page then a cursor-less page, only the first page's data is kept |
| Fetch.IsRewardEntry | main.py:103 | missing `type` raises KeyError("type"); a text `type` is kept iff it contains "reward"; a list `type` tests false; a number or None raises TypeError |
| Fetch.RewardEntries | main.py:103 | the filter succeeds iff every entry's `type` test succeeds |
| Fetch.RewardEntriesMembers | main.py:103 | the filter keeps exactly the entries whose `type` contains "reward" |
| Fetch.RewardEntriesFirstError | main.py:103 | a failing filter raises the first failing entry's error |
| Fetch.RewardEntriesAppend | main.py:103 | filtering preserves order: the filter of a concatenation is the concatenation of the filters |
| Fetch.RewardEntriesIdempotent | main.py:103 | filtering the filtered list changes nothing |
| Fetch.Fetched | main.py:82-103 | the cache's rows are used as they are; otherwise the rows are the reward filter of the collected pages, hence all reward entries |
| Aggregate.AmountsTotal | main.py:122 | the generator sum of `item['amount'] / MULTIPLIER`, with the first entry's KeyError or TypeError; definition only, meaning in AmountsTotalOfIntegers |
| Aggregate.AmountsTotalOfIntegers | main.py:122 | with integer amounts, the sum of per-entry divisions is the raw total divided by MULTIPLIER |
| Aggregate.RewardTotal | main.py:122 | `sum` of an empty list is the int 0; a non-empty one with integer amounts is the raw total over MULTIPLIER; only numbers result |
| Aggregate.AddRewardTotal | main.py:122 | the assignment of `reward_total` from `block["rewards"]`; definition only, meaning in CompileBlockMeaning |
| Aggregate.CompileBlock | main.py:119-122 | one loop pass: `literal_eval` of cached text with its own error, ValueError on non-text rewards, then the total; definition only, meaning in CompileBlockMeaning and CompileBlockNotRepeatable |
| Aggregate.CompileBlockMeaning | main.py:118-122 | a finished pass sets `reward_total` to the sum of the (parsed) rewards, stores the parsed rewards, keeps every other key and appends `reward_total` to the key order if new |
| Aggregate.AggregatedRecord | main.py:118-122 | after a finished aggregation, each record is its old self passed through the loop body |
| Aggregate.AggregationMeaning | main.py:118-122 | a finished aggregation keeps length and order and aggregates every record |
| Aggregate.AggregationIdempotent | main.py:118-122 | on API activity a second aggregation reproduces the same records |
| Aggregate.RerunError | main.py:120 | the error `literal_eval` raises on the stored rewards of an aggregated record; definition only, used by CompileBlockNotRepeatable |
| Aggregate.CompileBlockNotRepeatable | main.py:119-120 | on cached activity an aggregated record cannot be aggregated again: `literal_eval` raises SyntaxError when its rewards parsed to the empty string and ValueError on the parsed list |
| Aggregate.CachedAggregationNotRepeatable | main.py:118-120 | on cached activity a second aggregation raises at the first record: SyntaxError when its rewards parsed to the empty string, ValueError otherwise |
| Enrich.BlockHeight | main.py:145 | a missing `height` raises KeyError("height"); an integer height is used as it is |
| Enrich.PriceBlock | main.py:143-148 | one loop pass: the lookup at the block's height (TypeError when None is unpacked), `price`, `price_time`, then `usd_total`; definition only, meaning in PriceBlockMeaning and FailedLookupAborts |
| Enrich.AddUsdTotal | main.py:147-148 | the assignment of `usd_total`, KeyError without `reward_total`, TypeError on a non-number; definition only, meaning in PriceBlockMeaning |
| Enrich.UsdValue | main.py:147-148 | `reward_total / MULTIPLIER * price` left to right; definition only, meaning in UsdValueOfRaw |
| Enrich.PriceBlockMeaning | main.py:143-148 | a finished pass sets `price` and `price_time` from the quote, `usd_total` to `reward_total / MULTIPLIER * price`, keeps every other key, and appends whichever of `price`, `price_time`, `usd_total` are new to the key order, in that order |
| Enrich.EnrichmentMeaning | main.py:143-149 | a finished enrichment enriches every record, values and key order as PriceBlockMeaning states |
| Enrich.FailedLookupAborts | main.py:47-51 | a failed lookup for any readable height makes the enrichment raise |
| Enrich.UsdValueOfRaw | main.py:147-148 | the USD value is the raw product divided by MULTIPLIER squared |
| Enrich.UsdTotalFromRawAmounts | main.py:147-148 | across both stages, a block's `usd_total` is raw amount times raw price over MULTIPLIER squared, an empty rewards list included |
| Enrich.UsdTotalScenario | main.py:147-148 | a 5.0 reward total priced at 200000000 yields a `usd_total` of 10.0 |
| Export.FormatCell | main.py:158-159 | numbers become fixed-point cells holding the same number; anything else is written as it is |
| Export.Row | main.py:157-159 | a record's row has one cell per key, and for a dict cell j renders the value of key j |
| Export.StoredTable | main.py:153-160 | an empty list raises IndexError; otherwise the header is the first record's keys and row i is record i's row, in list order |
| Export.RowLinesUpWithHeader | main.py:156-159 | for a record with the first record's key order, each cell sits under the key whose value it renders |
| Export.ColumnValue | main.py:175 | a present key gives its value, a missing key gives "" |
| Export.Projection | main.py:168-178 | the rewards-only row has one cell per column, column j holding the rendering of the record's value for `RewardColumns[j]` or "" when the key is missing |
| Export.RescalePrice | main.py:174 | `line["price"] = int(float(line["price"])) / MULTIPLIER`, KeyError without a price, the `float` error otherwise; definition only, meaning in MissingPriceAborts, RescaledProjection and RescaleTwiceDiffers |
| Export.ScaledPrice | main.py:174 | `int(x) / MULTIPLIER`; definition only, meaning in RescaledProjection |
| Export.ProjectionAfterPriceSet | main.py:174-175 | assigning `price` changes only the price column |
| Export.RescaledProjection | main.py:174-178 | a rescaled record's row shows the price truncated and divided by MULTIPLIER, with the other columns unchanged |
| Export.ExportedRecord | main.py:172-179 | after a finished export, each record is its old self with the price rescaled, so its row is the one RescaledProjection describes |
| Export.MissingPriceAborts | main.py:172-174 | a record without `price` raises KeyError("price") in its own pass, so the rewards-only export fails |
| Export.RescaleTwiceDiffers | main.py:174 | a second export rescales a positive integer price again, so the export is not idempotent |
| YearSummary.HasUsableUsd | main.py:195-197 | `usd_total` present, not blank text and not None; definition only, meaning in BlockContribution and MissingUsdAborts |
| YearSummary.BlockTime | main.py:200 | a missing `time` raises KeyError("time"); an integer time is compared as it is |
| YearSummary.BlockContribution | main.py:195-202 | a block without a usable `usd_total` raises KeyError("height") or exits with status 1; a non-zero contribution comes only from a block in the window |
| YearSummary.YearTotal | main.py:193-204 | the summing loop's total or its first exception; definition only, meaning in YearTotalSucceedsIff and YearTotalIsWindowSum |
| YearSummary.ContributionIsCounted | main.py:195-202 | a pass that does not raise adds the block's `usd_total` when the block is in the window, and nothing otherwise |
| YearSummary.YearTotalSucceedsIff | main.py:193-204 | the summary succeeds iff no block's pass raises |
| YearSummary.YearTotalIsWindowSum | main.py:193-204 | a finished summary equals the sum of the USD values of exactly the in-window blocks |
| YearSummary.MissingUsdAborts | main.py:195-199 | any block without a usable `usd_total` makes the summary fail |
| YearSummary.OutOfWindowAddsNothing | main.py:200 | appending an out-of-window block leaves the total unchanged |
| YearSummary.YearTotalNonNegative | main.py:193-204 | non-negative contributions give a non-negative total |
| YearSummary.YearTotalStops | main.py:194-202 | after the first raise the later blocks are never read |
| Pipeline.PullTransactions.constructor | main.py:69-72 | a new object holds the account and flag, no records, and no cache in use |
| Pipeline.PullTransactions.GetTransactionsForAccount | main.py:74-106 | the records become the cached rows or the fetched reward entries; a filter error leaves them unchanged; no records raises IndexError; the cache flag is set only when the cache is read |
| Pipeline.PullTransactions.CompileRewardsPerBlock | main.py:109-122 | records and outcome are exactly the in-place loop of the aggregation pass; the flags are unchanged |
| Pipeline.PullTransactions.SetDollarPerBlock | main.py:126-149 | the cached rows replace the records and set the flag; otherwise records and outcome are the in-place loop of the pricing pass |
| Pipeline.PullTransactions.StoreToCsv | main.py:152-161 | the table written is StoredTable of the records |
| Pipeline.PullTransactions.OutputToCsvAllRewards | main.py:163-180 | records and outcome are the in-place rescaling loop; the rows written are the projections of the rescaled records, all of them when the loop finishes, and those before the first raising record otherwise |
| Pipeline.PullTransactions.OutputTotalRewardsForYear | main.py:182-204 | the result is YearTotal of the records over the window |

## Left out

- HTTP, JSON decoding and the rate-limit `sleep` are left out. The responses are parameters.
- File reading and writing, and the `csv` module's quoting, are left out. A cache file is its list of rows, and a written file is a `Table`.
- Text conversion is not modelled. `float()` on text and `ast.literal_eval` are the supplied functions `parseFloat` and `parse`.
- Fixed-point text formatting (`:.20f`) is not modelled. A number cell keeps the number it renders.
- Converting the year to epochs with `time.strptime` and `time.mktime` is left out. The window's two epochs are parameters.
- Binary floating point is idealised as exact reals. Infinite and NaN values, including the OverflowError of `int()` on infinity, are not represented. A text that parses to either counts as a failed parse.
- `print` output and the script lines after the class (`main.py:207-216`) are left out. The messages' reads of `height` and `price_time` are kept, because a missing key there raises.
- The `TESTING` short-circuit in the paging loop is left out. The flag is the constant False.
- `hnt_block_rewards` and `other_activity` are left out, since no stage fills them. `store_to_csv` is modelled for its default `reward_activity`; picking the attribute by name and building the file name are left out.
- The class-level `using_cache` dict is shared by all instances in the source. The model keeps it as two flags per object, which matches a program that creates one object.
- Every list value is modelled as a list of dicts (the reward entries of a block). A list of other items, and `sum` meeting a non-dict item, are not represented.
- Pipeline.PullTransactions.GetTransactionsForAccount: requires that some response stops the paging loop, because the source would otherwise request pages forever.
