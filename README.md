# Weekly below-average stock scanner — Dafny model

`acciones.py` scans a list of stock symbols. For each symbol it:

- downloads the daily closes of the last seven days;
- takes their mean as the weekly average;
- reads today's last close as the current price;
- reports the symbol when the current price is strictly below the weekly
  average, together with the percentage it is below
  (`(average - current) / average * 100`).

When at least one symbol is reported, `main` then:

- sorts the rows by that percentage, largest first;
- renders them as an HTML table;
- splices the table between two marker comments of the HTML report;
- charts the five largest discounts.

When no symbol is reported, it only prints a message.

The model is split into these modules:

- `Wrappers` (`wrappers.dfy`): `Option`, the outcome of a fetch (`Fetched`/`Failed`) and `Result`.
- `Prices` (`prices.dfy`): the value-level semantics of one instrument's pipeline.
  - Prices are non-negative reals.
  - `AverageOf` is `calcular_precio_promedio` and `CurrentOf` is `obtener_precio_actual`.
  - `Evaluate` is `comparar_precios`, with the row written `Row(symbol, current, average, discount)`.
  - `Pipeline` is the four steps in the order the scan loop runs them.
- `Scanner` (`scanner.dfy`): the result of one scan as a function of the symbols, the
  instruments' prior histories and the price source, and its filter-map properties.
  - The price source is two function parameters: `History` stands for `yf.download` and `Quote` for `Ticker.history(period='1d')`.
- `Acciones` (`acciones.dfy`): the two classes with their mutable fields.
  - `Accion` has one method per step.
  - `GestorAcciones` has the constructor and `Process` (`procesar_acciones`), a loop proved against `Scanner.Scan`.
- `Ranking` (`ranking.dfy`): `sorted(..., key=discount, reverse=True)` as a stable insertion
  sort, and the `[:5]` slice.
- `Report` (`report.dfy`): Python's `str.find`/`str.split` over strings, and the report splice
  `content.split(start)[0] + start + "\n" + table + "\n" + end + content.split(end)[1]`.
- `Publish` (`publish.dfy`): the branch of `main` after the scan.
  - It either reports nothing, or fails with `IndexError` in the splice, or produces
    the ranked rows, the rewritten report and the charted rows.

## Model

| member | source | states |
|---|---|---|
| Prices.Mean | acciones.py:23 | the mean of a non-empty series times its length is the sum of the closes, and a single close is its own mean |
| Prices.MeanBetween | acciones.py:23 | the mean of a non-empty series of closes lies between any lower and upper bound of its closes |
| Prices.DataAfterFetch | acciones.py:15-19 | a successful download replaces the history, a failed one keeps the previous history, so an existing history is never lost |
| Prices.AverageOf | acciones.py:21-25 | the average is present exactly when the history is present and non-empty, and then it is the mean of the closes |
| Prices.CurrentOf | acciones.py:27-33 | the current price is present exactly when the quote succeeded with at least one close, and then it is the last close |
| Prices.Evaluate | acciones.py:35-40 | a row is produced exactly when both prices are present and the current one is strictly below the average; the row carries the symbol and both prices, and its discount is (average - current) / average * 100 |
| Prices.QualifyingDiscount | acciones.py:37-38 | a reported discount lies in (0, 100], and the current price is recovered from the average and the discount as average * (100 - discount) / 100 |
| Prices.Pipeline | acciones.py:52-55 | the four steps yield a row only for the instrument's own symbol, only when the row qualifies, only when some history exists, and never when the quote fails |
| Prices.PipelineRow | acciones.py:15-40 | after the four steps a symbol yields a row exactly when its history is non-empty, its quote has a close, and the last close is below the mean |
| Prices.FreshHistoryFailureExcluded | acciones.py:9-19 | a fresh instrument whose download fails yields no row, whatever its quote |
| Prices.PipelineExample | acciones.py:35-39 | closes 100, 110 and 105 with a quote of 95 give the row with average 105 and discount 200/21 |
| Prices.PipelineExampleEqual | acciones.py:36-40 | a quote closing exactly at the weekly average of 105 gives no row, because the comparison of line 37 is strict |
| Prices.PipelineExampleAbove | acciones.py:36-40 | a quote closing at 120, above the weekly average of 105, gives no row |
| Scanner.Scan | acciones.py:46-59 | the rows of one scan, in symbol order; there are never more rows than symbols |
| Scanner.ScanStep | acciones.py:51-57 | one more iteration of the loop appends the next symbol's row when it has one and nothing otherwise |
| Scanner.Picks | acciones.py:51-57 | the positions that yield a row are strictly increasing and in range, and a position is among them exactly when its symbol yields a row |
| Scanner.ScanIsFilterMap | acciones.py:46-59 | the k-th returned row is the row of the k-th qualifying symbol, so the result is an order-preserving filter-map of the symbol list |
| Scanner.ScanRows | acciones.py:51-59 | every row names a scanned symbol and is below its average by the discount it shows |
| Scanner.ScanIsolation | acciones.py:51-57 | a symbol's row is in the result whatever the price source answers, or fails to answer, for the other symbols |
| Acciones.Accion.constructor | acciones.py:9-13 | a new instrument has its symbol and no history, average or current price |
| Acciones.Accion.FetchDailyData | acciones.py:15-19 | a successful download replaces the history with the closes; a failed one leaves the history as it was |
| Acciones.Accion.ComputeAverage | acciones.py:21-25 | the average becomes the mean of a present, non-empty history, and `None` otherwise |
| Acciones.Accion.FetchCurrentPrice | acciones.py:27-33 | the current price becomes the last close of a successful non-empty quote, and `None` on failure or an empty quote |
| Acciones.Accion.Compare | acciones.py:35-40 | the returned row is the one `Prices.Evaluate` defines on the instrument's current average and price |
| Acciones.GestorAcciones.constructor | acciones.py:43-44 | one fresh, distinct, empty instrument per symbol, in the order of the symbol list |
| Acciones.GestorAcciones.RunPipeline | acciones.py:52-55 | the four steps leave the instrument in the state `Prices.Pipeline` describes and return its row |
| Acciones.GestorAcciones.Step | acciones.py:51-57 | one loop iteration processes the instrument at the current position, appends its row to the scan of the earlier symbols, and leaves the later instruments' histories untouched |
| Acciones.GestorAcciones.Process | acciones.py:46-59 | the returned rows are `Scanner.Scan` of the symbols and the histories held before the call, and every instrument is left in its processed state |
| Ranking.Insert | acciones.py:73 | inserting a row adds exactly that row to the multiset of rows |
| Ranking.InsertSorted | acciones.py:73 | inserting into a list ordered by decreasing discount keeps it ordered |
| Ranking.InsertStable | acciones.py:73 | an inserted row comes before every row of equal discount and leaves their order unchanged |
| Ranking.Rank | acciones.py:73 | the ranking is a permutation of the rows |
| Ranking.RankSorted | acciones.py:73 | the ranking is ordered by decreasing discount |
| Ranking.RankStable | acciones.py:73 | for every discount value, the rows with that discount keep their input order (stability of `sorted`) |
| Ranking.TopFive | acciones.py:96 | the chart selection is the first min(5, n) ranked rows |
| Ranking.TopFiveLargest | acciones.py:96 | on a ranked list, every selected row has at least the discount of every row left out |
| Report.IndexOf | acciones.py:88 | the first occurrence at or after a position, or `None` when there is none there (`str.find`) |
| Report.Split | acciones.py:88 | `str.split` always returns at least one piece |
| Report.SplitJoin | acciones.py:88 | joining the pieces of a split with the separator gives back the original text |
| Report.SplitFirst | acciones.py:88 | with a first separator at k, piece 0 is the text before k and piece 1 starts right after it |
| Report.SplitAbsent | acciones.py:88 | a text without the separator splits into itself alone |
| Report.SplitOnlyAt | acciones.py:88 | with a single separator, the pieces are the text before it and the text after it |
| Report.SplitSecond | acciones.py:88 | piece 1 is the text between the first and the second occurrence of the separator |
| Report.Splice | acciones.py:79-88 | the splice raises `IndexError` exactly when the report lacks the end marker |
| Report.ReportMarkersOneLine | acciones.py:79-80 | the two marker comments are non-empty and fit on one line |
| Report.SpliceWellFormed | acciones.py:87-88 | with one start marker before one end marker, the report keeps the text before the start marker and after the end marker, with the table in between on lines of its own |
| Report.SpliceMissingStart | acciones.py:88 | without a start marker the whole old report is kept in front of the new block instead of an error |
| Report.SpliceRepeatedEnd | acciones.py:88 | with the end marker twice, only the text between its first and second occurrence is kept after the block, and the rest is dropped |
| Report.SpliceIdempotent | acciones.py:79-92 | on a well-formed report and a table without markers, splicing the same table again changes nothing |
| Publish.Publish | acciones.py:67-117 | no symbol below average means no report; otherwise a missing end marker is exactly the failing case, and a successful run yields a permutation of the rows ordered by decreasing discount, the spliced report, and the first min(5, n) ranked rows as the chart |
| Publish.PublishStable | acciones.py:73-75 | rows with equal discount are tabulated in the order the scan produced them |
| Publish.PublishChartLargest | acciones.py:96-104 | every charted symbol has at least the discount of every reported symbol not charted |
| Publish.PublishDocument | acciones.py:83-92 | on a well-formed report the new report is the old one with the text between the markers replaced by the freshly rendered table |
| Publish.PublishMissingStart | acciones.py:86-88 | a report without the start marker is rewritten as the whole old report followed by the new block and the text after the end marker |
| Publish.PublishIdempotent | acciones.py:67-92 | running the report step twice with the same rows leaves the report as one run does |
| Publish.PublishScan | acciones.py:67-70 | the step reports nothing exactly when no scanned symbol yields a row, and every ranked row names a scanned symbol and qualifies |

## Left out

- Network access (`yf.download`, `yf.Ticker(...).history`) is modelled as the function parameters `History` and `Quote`. A fetch either yields the closes or fails. The dataframe is reduced to its `Close` column.
- The clock (`datetime.now()`, `timedelta(days=7)`, `strftime`): the start and end dates are opaque string parameters of `Process`. Their computation (acciones.py:47-48) is not part of this model.
- `tabulate` is the `Render` parameter of `Publish`. The console table (grid format) and the column headers are not modelled.
- Reading and writing `informe_acciones.html` is modelled as the document passed to `Publish` and the document it returns.
- matplotlib (acciones.py:99-115) is left out. The chart is modelled only as the list of rows whose symbols are plotted. The second download of each charted symbol's history (acciones.py:103) is not modelled.
- IEEE floating point, NaN and rounding: prices are exact non-negative reals. Negative prices cannot occur, so a row never has a zero average.
- `print` calls, the caught exceptions' messages, the style sheet and the hard-coded symbol list (acciones.py:62-64) are left out.
- Acciones.GestorAcciones.Process: requires the instruments to be pairwise distinct. The Python list comprehension always builds distinct objects, and the constructor's `Valid()` states it.
- Publish.PublishIdempotent: assumes the rendered table contains neither marker. An HTML table of symbols and numbers cannot contain them, but `tabulate` itself is not modelled.

Three behaviours of the code worth knowing, all followed by the model:

- A report without the start marker is not an error. `split(start)[0]` is the whole text, so the old report is kept and the new block is appended after it (`Report.SpliceMissingStart`).
- A repeated end marker silently drops the text after its second occurrence (`Report.SpliceRepeatedEnd`).
- When no symbol is below its average, neither the report nor the chart is touched (`Publish.Publish`).
