# Magic-formula scoring and ranking

A Dafny model of the one piece of original logic in the stock digest
pipeline: `magic_formula_digest/utils/processor.py`. For each ticker it builds
a record from the financial-data service's overview and daily-price responses
(latest price, percent change, earnings yield, return on capital), and it then
ranks the run's records best first by (earnings yield, return on capital),
writing each record's rank into the record itself.

- `processor.dfy`, module `Processor`: the two guarded ratios
  (`compute_earnings_yield`, `compute_roc`) and the record builder
  (`process_stock_data`), as pure functions. The builder returns a three-way
  `Outcome`: `Ok(stock)` (a record), `Skip` (the Python function returns
  `None`), or `Raised(error)` (an exception that escapes, because the function
  catches only `KeyError` and `ValueError`). Response fields are modelled as
  already extracted: a field is absent, a number `float()` accepts, a string it
  rejects, or JSON null. The daily series is the list of closes, most recent
  first.
- `ranking.dfy`, module `Ranking`: the record dicts as objects of class
  `StockEntry`. The five computed values are `const`. `rank` is the one
  field `rank_stocks` writes. Python's `sorted(..., reverse=True)` is modelled
  by a stable descending insertion sort, `SortDescending`. Lemmas prove it
  returns a permutation, best first, stable, and the only order with those
  properties. `RankStocks` uses it and then runs the `enumerate` loop
  (`WriteRanks`) over the caller's own objects. `SaveRankedStocks` models the
  non-I/O half of `save_ranked_stocks`: it ranks first, then builds the
  history-table rows.

The function catches only `KeyError` and `ValueError`, so these escape to
the caller and the model raises each of them: `IndexError` (fewer than two
days of prices), `ZeroDivisionError` (a previous close of 0), `TypeError` (a
JSON null field or a missing price response) and `AttributeError` (a missing
overview response). The two ratio functions return `None` for a non-positive
denominator, as the code does; the repository's tests
(`magic_formula_digest/tests/test_calculations.py:15-16` and `:27-28`) expect
a `ValueError` there instead, and the model follows the code.

## Model

| member | source | states |
|---|---|---|
| `Processor.EarningsYield` | magic_formula_digest/utils/processor.py:7-11 | undefined exactly when enterprise value <= 0; otherwise the ratio times enterprise value is EBIT, and it is non-negative exactly when EBIT is |
| `Processor.ReturnOnCapital` | magic_formula_digest/utils/processor.py:13-18 | undefined exactly when net fixed assets + working capital <= 0; otherwise the ratio times that capital is EBIT, and it is non-negative exactly when EBIT is |
| `Processor.PercentChange` | magic_formula_digest/utils/processor.py:29 | raises ZeroDivisionError exactly when the previous close is 0 and gives a value exactly when it is not; that value times the previous close is 100 times the change |
| `Processor.ProcessStockData` | magic_formula_digest/utils/processor.py:20-45 | a record comes back exactly when all four fundamentals parse (missing as 0), there are two parsable closes with a non-zero previous one, enterprise value and capital are positive and EBIT is non-negative; the record carries the ticker, the latest close as price, the percent change and both ratios, both non-negative; a missing overview raises AttributeError; once the fundamentals parse and the prices are usable, every other outcome is None (a non-positive enterprise value or capital, a negative EBIT) |
| `Processor.NegativeEbitIsDropped` | magic_formula_digest/utils/processor.py:31-35 | a negative EBIT never gives a record, and gives None once the prices are usable |
| `Processor.MissingEnterpriseValueIsDropped` | magic_formula_digest/utils/processor.py:24-35 | a missing EnterpriseValue defaults to 0, so never a record, and None once the rest parses |
| `Processor.GarbledFundamentalIsDropped` | magic_formula_digest/utils/processor.py:23-45 | the first fundamental that float() rejects (ValueError) makes the result None, whatever the prices are |
| `Processor.NullFundamentalEscapes` | magic_formula_digest/utils/processor.py:23-44 | the first fundamental that is JSON null raises TypeError, which is not caught |
| `Processor.MissingDailySeriesIsDropped` | magic_formula_digest/utils/processor.py:27-45 | a price response without the daily-series key (KeyError) gives None |
| `Processor.ShortSeriesEscapes` | magic_formula_digest/utils/processor.py:27-44 | no days, or one parsable day, raise IndexError, which escapes instead of giving None |
| `Processor.MissingPriceResponseEscapes` | magic_formula_digest/utils/processor.py:27-44 | a missing price response cannot be subscripted: TypeError, which is not caught |
| `Processor.UnparsableCloseIsDropped` | magic_formula_digest/utils/processor.py:27-45 | the first of the two closes that is missing (KeyError) or that float() rejects (ValueError) makes the result None |
| `Processor.NullCloseEscapes` | magic_formula_digest/utils/processor.py:27-44 | the first of the two closes that is JSON null raises TypeError, which is not caught |
| `Processor.ZeroPreviousCloseEscapes` | magic_formula_digest/utils/processor.py:28-44 | a previous close of 0 raises ZeroDivisionError, which escapes before either ratio is looked at |
| `Ranking.Truthy` | magic_formula_digest/utils/processor.py:50 | every kept value is a truthy value of the dict, and every truthy value is kept |
| `Ranking.TruthyCounts` | magic_formula_digest/utils/processor.py:50 | the filter keeps each record exactly as many times as the dict holds it |
| `Ranking.TruthyAppend` | magic_formula_digest/utils/processor.py:50 | the filter keeps the dict's order: filtering two parts one after the other is filtering the whole |
| `Ranking.TruthyKeepsOrder` | magic_formula_digest/utils/processor.py:50 | two truthy values come out in the dict's order, each at the position counted by the truthy values before it |
| `Ranking.StockEntry.constructor` | magic_formula_digest/utils/processor.py:37-43 | a new record holds the values process_stock_data computed and has no Rank yet |
| `Ranking.SortDescending` | magic_formula_digest/utils/processor.py:49-53 | the sorted list has as many records as its input; that it is a permutation, best first, stable and the one such order is stated by the lemma rows that follow |
| `Ranking.SortPermutes` | magic_formula_digest/utils/processor.py:49-53 | the sort's output is a permutation of its input |
| `Ranking.SortIsSorted` | magic_formula_digest/utils/processor.py:49-53 | the output is non-increasing in (EarningsYield, ROC), compared as Python compares tuples |
| `Ranking.SortIsStable` | magic_formula_digest/utils/processor.py:49-53 | for every key, the records with that key come out in their input order, as Python's stable sort keeps them under reverse=True |
| `Ranking.SortIsUnique` | magic_formula_digest/utils/processor.py:49-53 | any best-first sequence that keeps every key's records in input order is the sort's output |
| `Ranking.SortIsIdempotent` | magic_formula_digest/utils/processor.py:49-53 | sorting the output again changes nothing |
| `Ranking.SortKeepsDistinct` | magic_formula_digest/utils/processor.py:49-53 | sorting distinct record objects gives distinct record objects |
| `Ranking.WriteRanks` | magic_formula_digest/utils/processor.py:54-55 | after the enumerate loop each record's Rank names the record's last position (1-based), so a record that occurs once has Rank equal to its position |
| `Ranking.RankStocks` | magic_formula_digest/utils/processor.py:47-56 | returns the stable descending sort of the truthy records (a sorted permutation); each output record's Rank names its last position; with distinct records the i-th has Rank i; every record in the caller's dict now has a Rank under which the output holds it, as main.py:65 relies on |
| `Ranking.SaveRankedStocks` | magic_formula_digest/utils/processor.py:58-84 | ranks first, then builds one history row per ranked record in ranked order, with the run's date, ticker, both ratios and the record's Rank; with distinct records the rows carry ranks 1..N; afterwards every record in the caller's dict has a Rank under which the ranked list holds it |

## Left out

- The CSV file, the SQLite insert and commit, and the directory creation in `save_ranked_stocks`. These are file-system and database I/O. The date stamp from `datetime.now()` is a parameter of `SaveRankedStocks`.
- IEEE-754 floating point. Ratios and percent change are exact `real` division. Rounding, overflow to infinity, and `float()` accepting `nan`/`inf` are not modelled.
- How a JSON value turns into a `Field`. The model starts from the four overview fields and the list of closes, already extracted. `float()`'s parsing is abstracted into the `Num`/`Garbled`/`Null` cases.
- The order of the daily series is taken as most recent first. That is how the response lists it and how the dict keeps it. Days are otherwise not modelled.
- Falsy dict values in `rank_stocks` (`None`, `{}`) are all modelled as `None`. Records without an `EarningsYield` or `ROC` key, which would make the sort raise `KeyError`, cannot be represented. Every record comes from `process_stock_data` and has both keys.
- `Ranking.StockEntry` fixes the five computed values at construction. `rank_stocks` writes only `Rank`, so only that field is mutable in the model.
- The fetchers, news client, mailer, digest composer, database schema, configuration loading and runner are not part of this model. They are network, SMTP, SQL and orchestration code around this core.
