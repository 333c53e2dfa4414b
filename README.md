# RealEstate-AI-Bot core, modelled in Dafny

RealEstate-AI-Bot answers Spanish or English questions about private-equity
real-estate funds from one pipe-delimited table of fund rows (`Fund`,
`Data set`, `Data`). This project models the three parts of it that hold logic:

- **The loader.** `DataLoader` cleans the parsed table and keeps cleaned
  tables in its `data_cache`, keyed by table name. It drops rows without a
  numeric value, then rows whose fund is `""`, and keeps the order of the rest.
- **The question interpreter.** `AIQueryProcessor` lowers the question and
  picks an intent by an ordered list of substring rules. It extracts fund
  names with the regular expression `fund\s+([iv]+)` and at most one metric
  by priority. It then answers from the cached `source_fund` table with one
  of four aggregations:
  - the latest Net IRR per fund;
  - a ranking by latest Net IRR;
  - distribution/DPI row counts per fund;
  - general counts.
- **The fund analyzer.** `FundAnalyzer` lists the active funds: distinct,
  in first-occurrence order, without `"Total"`. It summarises one fund over
  the key metrics, with the last row of each metric winning. It compares
  several funds, skipping unknown names. It chooses a display format family
  per metric.

A table is a `seq<Row>` in file order. A Python `dict` is a `Dict`: a map
plus the insertion order of its keys. Assigning to an existing key keeps its
place. Modules:

- `Wrappers`: `Option`, `Result`.
- `Text`: substring search, lowering, Python's white-space set, and the
  decimal rendering of counts in summaries.
- `FundTable`: rows, `unique()`, the active funds, "latest row wins", and
  row counts.
- `DataLoading`: the cleaning filters and the `DataLoader` class.
- `AiProcessor`: intents, the regex matcher, entities, the four
  aggregations, routing and the `QueryProcessor` class.
- `FundAnalysis`: format families, summaries, comparisons and the
  `FundAnalyzer` class.

The loops of the source are methods proved equal to reference functions:

- the per-fund loops of `_analyze_irr` and `_analyze_distributions`;
- the metric loop of `get_fund_summary`;
- the `compare_funds` loop.

The two pandas cleaning filters, `dropna(subset=['Data'])` and the
`Fund != ''` mask, are not loops in the source. `DropMissingData` and
`DropEmptyFunds` are loops that stand for them, proved equal to the filter
functions they compute. Lemmas about those functions state what the source
promises. `data_cache`
is a `map` field that `LoadSourceFund` reassigns.

## Model

| member | source | states |
|---|---|---|
| Text.ContainsIff | core/ai_processor.py:37 | Python's `t in s` holds exactly when `t` occurs at some index of `s` |
| Text.LowerChar | core/ai_processor.py:16 | a lowered character is never an upper-case letter, and only upper-case letters change |
| Text.Lower | core/ai_processor.py:16 | lowering keeps the length and lowers each character in place |
| Text.LowerIdempotent | core/ai_processor.py:16 | lowering an already lowered question changes nothing |
| Text.NatToString | core/ai_processor.py:104 | the rendering of a count is a non-empty string of digits without a leading zero |
| Text.NatToStringRoundTrip | core/ai_processor.py:104 | reading back the digits of a rendered count gives the count |
| FundTable.FirstIndex | services/fund_analyzer.py:15 | the first position of a value: it holds the value and no earlier position does |
| FundTable.Unique | services/fund_analyzer.py:15 | `unique()` returns each value of the column exactly once, and nothing else |
| FundTable.UniqueInFirstOccurrenceOrder | services/fund_analyzer.py:15 | `unique()` lists values in the order of their first occurrence |
| FundTable.UniqueCount | core/ai_processor.py:142-143 | `nunique()` equals the number of distinct values |
| FundTable.NonTotal | services/fund_analyzer.py:15 | dropping "Total" keeps exactly the other values |
| FundTable.NonTotalKeepsOrder | services/fund_analyzer.py:15 | dropping "Total" keeps a repeat-free list repeat-free and in first-occurrence order |
| FundTable.ActiveFunds | services/fund_analyzer.py:13-15 | the active funds are repeat-free, in first-occurrence order, and are exactly the funds of the table other than "Total" |
| FundTable.ActiveFundsMembership | services/fund_analyzer.py:15 | a name is active exactly when it is not "Total" and some row has it as its fund |
| FundTable.Latest | core/ai_processor.py:93-95 | `iloc[-1]` of the rows of a fund and data set: present exactly when such a row exists, and then the value of a last such row |
| FundTable.LatestIsLastRow | core/ai_processor.py:95 | the latest value is the value of the last matching row in table order |
| FundTable.CountFund | services/fund_analyzer.py:22-26 | `len(fund_data)` is the number of rows whose fund is the given name |
| FundTable.FundRowsSnoc | services/fund_analyzer.py:22 | the rows of a fund in a longer table are those of the shorter one plus the new row when it is the fund's |
| FundTable.Dict.Insert | core/ai_processor.py:96 | `d[k] = v` sets the key and appends it to the key order only when it was new |
| FundTable.EmptyDict | core/ai_processor.py:88 | `{}` has no keys |
| DataLoading.DropMissingData | core/data_loader.py:36 | `dropna(subset=['Data'])` processed row by row equals the filter of rows with a present value |
| DataLoading.DropEmptyFunds | core/data_loader.py:37 | `df[df['Fund'] != '']` processed row by row equals the filter of rows with a non-empty fund |
| DataLoading.WithDataAppend | core/data_loader.py:36 | dropping missing values works row by row: it distributes over concatenation |
| DataLoading.WithFundAppend | core/data_loader.py:37 | dropping empty funds works row by row: it distributes over concatenation |
| DataLoading.CleanedAppend | core/data_loader.py:36-37 | cleaning keeps relative order: cleaning two parts and joining them equals cleaning the whole |
| DataLoading.CleanedOne | core/data_loader.py:36-37 | a single row survives cleaning, converted, exactly when its value is present and its fund is not "" |
| DataLoading.CleanedRows | core/data_loader.py:33-37 | a row is in the cleaned table exactly when it came from a parsed row with a present value and a non-empty fund |
| DataLoading.CleanedCount | core/data_loader.py:36-37 | when every value is numeric, exactly the rows with an empty fund are dropped |
| DataLoading.DataLoader.constructor | core/data_loader.py:12-13 | a new loader has an empty cache |
| DataLoading.DataLoader.LoadSourceFund | core/data_loader.py:16-47 | a missing or unreadable file fails and leaves the cache unchanged (with the "Archivo no encontrado: " message for a missing one); otherwise the cleaned table is returned and stored under "source_fund", replacing the old entry and touching no other |
| DataLoading.DataLoader.GetCachedData | core/data_loader.py:49-55 | `get` returns the cached table exactly for a loaded name and None for any other |
| AiProcessor.DetectIntent | core/ai_processor.py:35-46 | "irr" anywhere gives the IRR intent; otherwise "mejor" or "best" gives ranking, then "distribu", then "comparar", else general; each one an if-and-only-if |
| AiProcessor.DetectIntentIrrExample | tests/test_system.py:60-61 | "cuál es el irr del fund i" is an IRR question |
| AiProcessor.DetectIntentRankingExample | tests/test_system.py:63-64 | "cuál es el mejor fund" is a ranking question |
| AiProcessor.DetectIntentGeneralExample | tests/test_system.py:66-67 | "hola como estas" is a general question |
| AiProcessor.HolaHasNoKeyword | tests/test_system.py:66-67 | "hola como estas" contains none of the intent keywords |
| AiProcessor.SpaceRunEnd | core/ai_processor.py:53 | `\s+` consumes the maximal run of white space |
| AiProcessor.RomanRunEnd | core/ai_processor.py:53 | `[iv]+` consumes the maximal run of the letters i and v |
| AiProcessor.MatchAt | core/ai_processor.py:53 | a match found at an index is a genuine match of the pattern there |
| AiProcessor.MatchAtComplete | core/ai_processor.py:53 | every genuine match is found when the pattern is tried at its start, with the same extent |
| AiProcessor.MatchAtNone | core/ai_processor.py:53 | when the pattern fails at an index, no match starts there |
| AiProcessor.FindAll | core/ai_processor.py:53 | `findall`'s matches are genuine, start after the search start, and do not overlap |
| AiProcessor.FindAllFirstIsLeftmost | core/ai_processor.py:53 | no match starts before the first one reported |
| AiProcessor.FindAllMissesNothing | core/ai_processor.py:53 | no match starts between two reported matches or after the last one |
| AiProcessor.FindAllSkips | core/ai_processor.py:53 | where no "fund" starts, the search moves on without reporting anything |
| AiProcessor.ExtractMetrics | core/ai_processor.py:57-62 | at most one metric, by priority: "irr" gives Net IRR, else "nav" gives NAV, else "tvpi" gives Net TVPI, else none; each one an if-and-only-if |
| AiProcessor.ExtractEntities | core/ai_processor.py:48-64 | one fund entity per regex match, in match order, each "Fund " + the upper-cased letters; the metrics are the priority rule's |
| AiProcessor.FundEntityShape | core/ai_processor.py:53-54 | every fund entity is "Fund " followed by one or more of I and V |
| AiProcessor.FindAllExample | tests/test_system.py:73 | "cuál es el irr del fund iii" has exactly one match, "fund iii" |
| AiProcessor.ExtractEntitiesExample | tests/test_system.py:73-78 | that question gives exactly the funds ["Fund III"] and the metrics ["Net IRR"] |
| AiProcessor.IrrPercentage | core/ai_processor.py:98 | the percentage is "N/A" exactly when the IRR is 0 (falsy), and otherwise that IRR shown as a percentage |
| AiProcessor.IrrResults | core/ai_processor.py:88-99 | after visiting some funds, the results dict holds exactly those with a Net IRR row, each once, with its latest Net IRR and percentage |
| AiProcessor.AnalyzeIrr | core/ai_processor.py:85-105 | the loop over the target funds computes the IRR report |
| AiProcessor.DictSize | core/ai_processor.py:104 | `len(results)` is the number of entries |
| AiProcessor.IrrReportSpec | core/ai_processor.py:87-105 | the results hold exactly the target funds with a Net IRR row; each holds the value of its last such row and shows "N/A" exactly when that value is 0; the summary counts the entries |
| AiProcessor.IrrScenario | core/ai_processor.py:92-99 | with Net IRR rows 0.12 then 0.15 for Fund I and 0.10 for Fund II, asking about Fund I reports exactly Fund I with 0.15 shown as a percentage |
| AiProcessor.ConsSorted | core/ai_processor.py:110 | an element no smaller than the rest may go in front of a sorted list |
| AiProcessor.InsertByValueSorted | core/ai_processor.py:110 | insertion keeps the list ordered by non-increasing value and adds exactly the new element |
| AiProcessor.SortByValueDescSorted | core/ai_processor.py:110 | `sort_values(ascending=False)` gives a permutation ordered by non-increasing value |
| AiProcessor.IrrRowFunds | core/ai_processor.py:109 | the groups of the Net IRR rows are exactly the funds with a Net IRR row |
| AiProcessor.RankedFunds | core/ai_processor.py:109-110 | the ranked funds are repeat-free and are exactly the non-"Total" funds with a Net IRR row |
| AiProcessor.LatestIrrs | core/ai_processor.py:109 | `.last()` pairs each ranked fund with its latest Net IRR |
| AiProcessor.RankingElements | core/ai_processor.py:110 | sorting neither adds nor loses a ranked row |
| AiProcessor.RankingSound | core/ai_processor.py:109-110 | every ranked row is a non-"Total" fund with its latest Net IRR |
| AiProcessor.RankingComplete | core/ai_processor.py:109-110 | every non-"Total" fund with a Net IRR row is ranked |
| AiProcessor.RankingDistinct | core/ai_processor.py:109 | no fund is ranked twice |
| AiProcessor.RankPerformanceSpec | core/ai_processor.py:107-117 | the ranking is exactly the non-"Total" funds with a Net IRR row, each once with its latest value, in non-increasing order; the best performer is the first, has the highest value, and is None exactly when the ranking is empty; the summary counts the ranked funds |
| AiProcessor.DistributionCount | core/ai_processor.py:121-128 | a fund's count is the number of its rows whose data set contains "Distribution" or "DPI" |
| AiProcessor.DistributionCountPositive | core/ai_processor.py:124-126 | a fund with a distribution row is a fund of the table |
| AiProcessor.DistributedFundsAreActive | core/ai_processor.py:124-128 | every non-"Total" fund with a distribution row is one of the funds the loop visits |
| AiProcessor.DistributionRowsSnoc | core/ai_processor.py:126-128 | the distribution rows of a longer table are those of the shorter one plus the new row when it is one |
| AiProcessor.DistributionCounts | core/ai_processor.py:122-128 | after visiting some funds, the results dict holds exactly those with at least one distribution row, each once, with the number of such rows |
| AiProcessor.DistributionStep | core/ai_processor.py:124-128 | the loop step over `unique()`: "Total" is skipped, a fund with distribution rows is inserted with its count, and any other fund changes nothing |
| AiProcessor.AnalyzeDistributions | core/ai_processor.py:119-134 | the loop over the unique funds computes the distribution report |
| AiProcessor.DistributionReportSpec | core/ai_processor.py:119-134 | the results hold exactly the non-"Total" funds with a distribution row, each with its number of such rows; funds without one are absent; the summary counts the entries |
| AiProcessor.GeneralSummarySpec | core/ai_processor.py:136-146 | the counts are the number of rows, of distinct funds and of distinct data sets, the latter two at most the first |
| AiProcessor.Answer | core/ai_processor.py:66-83 | without a "source_fund" table the answer is the error "Datos no cargados", and only then is it an error; otherwise it is exactly the IRR report of the cached table and the entities, its ranking, its distribution report, or (for a comparison or a general question) its general summary, as the intent selects |
| AiProcessor.QueryProcessor.constructor | core/ai_processor.py:11-12 | the processor keeps the loader it is given |
| AiProcessor.QueryProcessor.ExecuteQuery | core/ai_processor.py:66-83 | the routed analysis of the loader's cache, as `Answer` states |
| AiProcessor.QueryProcessor.ProcessQuestion | core/ai_processor.py:14-33 | the response echoes the question unchanged, holds the intent tag (such as "irr_analysis") and the entities of the lowered question, answers from the cache, and has confidence 0.85 |
| AiProcessor.FreshProcessorAnswersNotLoaded | tests/test_system.py:84-94 | with a fresh loader, any question gets the not-loaded error and its own text back |
| FundAnalysis.FormatValue | services/fund_analyzer.py:58-68 | "N/A" exactly for a missing value; otherwise a percentage exactly when the name contains "IRR", else a multiple exactly when it contains "TVPI" or "DPI", else thousands; a shown format carries the value given |
| FundAnalysis.KeyMetricFormats | services/fund_analyzer.py:58-68 | Net IRR is shown as a percentage, Net TVPI and Net DPI as multiples ("x"), NAV as a thousands-grouped number |
| FundAnalysis.MetricsOf | services/fund_analyzer.py:33-40 | after visiting some metrics, the metrics dict holds exactly those the fund has a row for, each once, with its latest value and format |
| FundAnalysis.ComparisonData | services/fund_analyzer.py:46-50 | after visiting some names, the comparison dict holds exactly those that are active funds, each once, with its summary |
| FundAnalysis.ComparisonOf | services/fund_analyzer.py:44-56 | the comparison echoes the given list, holds exactly the given names that are active funds, each with its summary, and never an error summary |
| FundAnalysis.FundAnalyzer.constructor | services/fund_analyzer.py:9-15 | the analyzer keeps the table, and its funds are the active funds of the table |
| FundAnalysis.FundAnalyzer.GetFundSummary | services/fund_analyzer.py:17-42 | the loop over the key metrics computes the summary: the error for an unknown name, otherwise name, row count and metrics |
| FundAnalysis.FundAnalyzer.CompareFunds | services/fund_analyzer.py:44-56 | the loop over the given names computes the comparison |
| FundAnalysis.SummarySpec | services/fund_analyzer.py:17-42 | the result is an error exactly for "Total" or a name with no rows, with the message "Fondo <name> no encontrado". Otherwise it gives the name and its number of rows. Its metric keys are exactly the key metrics the fund has a row for, each with the value of its last such row, formatted but never as "N/A" |

## Left out

- Python's `str.lower()` covers all of Unicode. `Text.Lower` lowers only A–Z and the Latin-1 capitals À–Þ (not ×), so `AiProcessor.QueryProcessor.ProcessQuestion` is exact for questions in those alphabets only. Special cases such as 'İ' lowering to two characters are not modelled.
- The CSV parse of the configured file, the stripping of column names, and the `to_datetime`/`to_numeric` coercions are not modelled. They are an input of the model: a `SourceFile` that is missing, unreadable, or a sequence of rows whose value is already `Option<real>`. The `Date` column is read by no analysis and is dropped.
- The file path comes from the configuration module. `DataLoading.DataLoader.LoadSourceFund` takes the path as a parameter, and whether the file exists is part of its `SourceFile` input.
- pandas reads an empty `Fund` cell as NaN, not as `""`. The model takes the parsed fund cell as a string, so the `""` filter applies to the rows the parser delivers as `""`.
- The `print` logging of the loader is not modelled. Neither are the re-raise of the exception, beyond the failure result, and the loader's `config` field.
- `_execute_query` turns any exception raised by an analysis into `{'error': 'Error: …'}`. Over the modelled row type (every row has its three columns, every value is a number) no analysis raises, so that path is not modelled.
- AiProcessor.RankPerformanceSpec: states non-increasing order only. `sort_values` leaves the order of equal values unspecified, and the model's insertion sort fixes one order that is not claimed to be pandas'. `sort_values` does not order equal values, so the ranking is only non-increasing.
- FundAnalysis.FormatValue: picks the format family only (percentage, multiple with "x", thousands-grouped, "N/A"), over `real` values. The digits of `:.2f`, the `* 100` and the `,` grouping are floating-point rendering and are not modelled. The same holds for the IRR percentage of `AiProcessor.IrrPercentage`.
- Floating point in general: values are `real`, so NaN and rounding do not arise.
- `get_fund_summary` first filters the rows of the fund and then those of each metric. The model takes the last row of that fund and metric in the whole table, which is the same row.
- The funds-summary projection of app.py (lines 101-109) only copies fields of `get_fund_summary`'s result and is not modelled. The rest of app.py (Flask routes, JSON, status codes), static/js/app.js (the browser UI), config/settings.py and api/index.py are not part of this model.
- The analyses are not re-entrant or concurrent in the source, and the model has no concurrency.
