# log_analyzer in Dafny

A Dafny model of the core of `log_analyzer`, a Python 2.7 tool. It scans a
directory of nginx access logs and picks the newest `nginx-access-ui.log-YYYYMMDD`
file. It then reads that file line by line and collects every request URL's
processing times. It gives up when too many lines do not match the log format.
Finally it computes per-URL statistics (count, sum, share of requests, share of
time, mean, maximum, median), keeps the URLs with the largest total time, and
serialises them as a JSON-like list.

The model is split into modules that follow the program's parts:

| file | module | what it models |
|---|---|---|
| `wrappers.dfy` | `Wrappers` | `Option` and `Result` |
| `digits.dfy` | `Digits` | digit strings: `%Y`/`%m`/`%d` zero padding, `str()` of an integer |
| `log_locator.dfy` | `LogLocator` | `get_recent_log`: the log-name pattern, `strptime('%Y%m%d')`, the choice of the newest log; the `.gz` choice of `read_log`; the report file name |
| `line_format.dfy` | `LineFormat` | the access-line pattern under `re.search`, and `float()` on the time token |
| `statistics.dfy` | `Statistics` | `sum`, `list.sort()`, `median` |
| `ranking.dfy` | `Ranking` | `sorted(..., key=time_sum, reverse=True)[:report_size]` |
| `aggregator.dfy` | `Aggregator` | `calculate_statistic` |
| `serializer.dfy` | `Serializer` | `serialize_report_dict` |

`get_recent_log`, `calculate_statistic` and `serialize_report_dict` loop over
their input and update variables as they go. Each is an imperative `method`
proved equal to a specification function (`GetRecentLog` states its result
directly).

`calculate_statistic` is `CalculateStatistic`, built from these parts:
- `ScanLines`: the loop over the lines;
- `ClassifyAt`: the pattern match of one line;
- `AppendTime`: the append to the `defaultdict(list)`;
- `FinaliseTally`: the error gate;
- `FillReport`: the loop that fills the report.

The specification side classifies each line first (`Outcomes`) and then runs
the pass over the classified lines (`StatisticOf`); `Analyse` composes the two.
The properties of the whole pass are stated over the classified lines
(`StatisticGate`, `StatisticReport`, `StatisticTotals`, `StatisticTopUrls`,
`StatisticSerializes`). `Wrappers.MapAt` links them back to the raw lines. The
reference definitions they compare against are `Mismatches`, `Hits` and
`TotalTime`.

Behaviours of the code that are easy to misread; the model follows the code:
- The error gate aborts when the mismatch percentage is **at least** the limit
  (`>=`, line 172), not only when it is greater.
- A matched line whose time token `float()` refuses aborts the pass with the
  `ValueError` (line 165). It is not counted as a mismatch.
- A date token that is not a date aborts the search for a log (lines 59-63),
  even when another log name would be valid.
- A `None` line, which the reader yields after an I/O error, aborts the pass
  (lines 157-161).
- Zero lines abort with a division by zero (line 171). So does a log whose
  matched times sum to zero (line 192). In the model these are `EmptyLog`
  and `ZeroTotalTime`.

## Model

| member | source | states |
|---|---|---|
| LogLocator.WordRun | log_analyzer/log_analyzer.py:33 | the greedy `\w*` of the extension: the longest word-character prefix, stopped by a non-word character or the end |
| LogLocator.MatchLogNameSpec | log_analyzer/log_analyzer.py:33 | a name matches iff it starts with `nginx-access-ui.log-` and eight digits; group 1 is those digits; group 2 is present iff a dot follows and then takes every word character after it; group 0 is that prefix of the name |
| LogLocator.ParseDateRoundTrip | log_analyzer/log_analyzer.py:60 | a token `strptime('%Y%m%d')` accepts yields a valid calendar date whose `%Y%m%d` text is the token itself |
| LogLocator.ParseDateToken | log_analyzer/log_analyzer.py:60 | every valid date is read back from its own eight-digit token |
| LogLocator.BeforeIsTokenOrder | log_analyzer/log_analyzer.py:65 | for accepted tokens, comparing the dates is comparing the eight-digit numbers |
| LogLocator.GetRecentLog | log_analyzer/log_analyzer.py:38-80 | None iff the listing holds no log name or some log name carries a non-date; otherwise the first listed log with the latest date (no dated log later, every dated log before it strictly earlier), with its matched name, date and extension |
| LogLocator.ClassifyAt | log_analyzer/log_analyzer.py:56-63 | the entry computed for the `i`-th file name is the `i`-th entry of the listing's classification |
| LogLocator.LocateTestFixture | log_analyzer/tests/test_log_analyzer.py:53-58 | for the test directory's two logs the search returns `nginx-access-ui.log-20170720`, 2017-07-20, no extension |
| LogLocator.GzipOnlyForGzName | log_analyzer/log_analyzer.py:89 | a log is opened with gzip iff `.gz` follows its date token and no word character follows `.gz` |
| LogLocator.ReportName | log_analyzer/log_analyzer.py:346 | the report name exists iff the year is at least 1900 (Python 2.7 `strftime`), and is then 22 characters long |
| LogLocator.ReportNameSpellsToken | log_analyzer/log_analyzer.py:346 | the report name is `report-YYYY.MM.DD.html` spelt with the log's own date token |
| LogLocator.ReportNameInjective | log_analyzer/log_analyzer.py:346 | two dates with the same report name are the same date |
| Digits.PadRoundTrip | log_analyzer/log_analyzer.py:346 | a number below `10^w` written with `w` zero-padded digits reads back as itself |
| Digits.DigitsRoundTrip | log_analyzer/log_analyzer.py:60 | a digit string is the zero-padded rendering of its value at its own width |
| Digits.DecimalRoundTrip | log_analyzer/log_analyzer.py:120 | `{count}` (an integer's decimal text) reads back as the count |
| LineFormat.TimeStart | log_analyzer/log_analyzer.py:34 | where the `time` group starts: after the line's last whitespace, which follows a quote; the group has no whitespace and runs to the end (before a final newline) |
| LineFormat.TimeStartMatch | log_analyzer/log_analyzer.py:34 | the time group starts at a position iff it follows `"` and one whitespace character and runs without whitespace to the end of the line (before a final newline) |
| LineFormat.ExtractSpec | log_analyzer/log_analyzer.py:34 | a match yields a non-empty whitespace-free url and time, and the time is the end of the line preceded by `"` and one whitespace; the url is the group of a request part (quote, upper-case verb, whitespace, url, whitespace, at least one non-newline character) that ends at that quote, and no request part ending there starts further left (`re.search` takes the leftmost) |
| LineFormat.RequestAtMatch | log_analyzer/log_analyzer.py:34 | the greedy scan at a position finds a url iff the request part of the pattern, read with backtracking, matches there with that url |
| LineFormat.RequestComplete | log_analyzer/log_analyzer.py:34 | once the request part matches at some position, the search finds a url, and it is that match's url when no request part starts further left |
| LineFormat.ExtractComplete | log_analyzer/log_analyzer.py:34 | a line the whole pattern matches is recognised, with the time group of that match, and with its url when no request part starts further left |
| LineFormat.ExtractMatches | log_analyzer/log_analyzer.py:34 | a line is recognised iff the whole pattern matches it (so every other line is a mismatch at line 169) |
| LineFormat.ExtractLogLine | log_analyzer/log_analyzer.py:13-16 | a line laid out as the `ui_short` format gives back exactly its url and its time, with or without a final newline |
| LineFormat.ParseFixedPoint | log_analyzer/log_analyzer.py:165 | `float()` of a fixed-point time such as `0.390` is its exact value |
| Statistics.SortSpec | log_analyzer/log_analyzer.py:178 | the sorted list is ascending, a permutation of the times, with the same sum |
| Statistics.MedianBounds | log_analyzer/log_analyzer.py:98-110 | `median` returns None exactly for an empty list, and on a sorted list lies between its first and last elements |
| Statistics.MedianSplits | log_analyzer/log_analyzer.py:98-110 | the lower half of a sorted list lies at or below the median, the upper half at or above it |
| Statistics.MedianOfSortIgnoresOrder | log_analyzer/log_analyzer.py:178-198 | two lists with the same times have the same median once sorted |
| Statistics.MedianExamples | log_analyzer/tests/test_log_analyzer.py:66-68 | `median([1,2,3]) == 2` and `median([1,2,3,4]) == 2.5` |
| Ranking.RankSpec | log_analyzer/log_analyzer.py:200 | the sort by total time is non-increasing and a permutation of the URLs |
| Ranking.PyPrefixLength | log_analyzer/log_analyzer.py:200 | `[:report_size]` keeps a prefix whose length follows Python's slice rule, negative sizes included |
| Ranking.TopUrlsSpec | log_analyzer/log_analyzer.py:200 | the top list has the slice length, holds distinct URLs of the report in non-increasing total time, and no URL left out has a larger total than one kept |
| Ranking.TopUrlsKeepsAll | log_analyzer/log_analyzer.py:200 | with `report_size` at least the number of URLs, every URL is kept |
| Ranking.TopUrlsExample | log_analyzer/tests/test_log_analyzer.py:74-79 | with report size 2 the 0.39 s URL comes before the 0.133 s one |
| Aggregator.ScanFromLog | log_analyzer/log_analyzer.py:155-169 | the loop runs to the end iff no line is `None` and no time token is refused; then it has counted every line, the mismatches, the total time and each URL's times in log order |
| Aggregator.ScanFailsAtFirstBadLine | log_analyzer/log_analyzer.py:156-165 | the first `None` line or refused time token decides the failure |
| Aggregator.ScanWellFormed | log_analyzer/log_analyzer.py:155-169 | the loop invariant holds at the end: each seen URL listed once with a non-empty list, lines = mismatches + listed times, total time = sum of all lists |
| Aggregator.AddHitKeepsWellFormed | log_analyzer/log_analyzer.py:163-166 | appending a matched line's time keeps that invariant |
| Aggregator.SomeHitIffSomeMatch | log_analyzer/log_analyzer.py:163-169 | some URL has times iff fewer lines were mismatches than were read |
| Aggregator.SummariseSpec | log_analyzer/log_analyzer.py:177-198 | an entry counts and sums the URL's times; its maximum is one of them and bounds them; its median is the median of the sorted times; median and mean lie between the smallest and the largest time |
| Aggregator.ReportOfSpec | log_analyzer/log_analyzer.py:177-198 | the report has an entry for exactly the seen URLs, each summarising that URL's times |
| Aggregator.PercentTotals | log_analyzer/log_analyzer.py:182-192 | the `time_perc` values add up to 100; the `count_perc` values add up to 100 times the matched share of the lines |
| Aggregator.TallyReport | log_analyzer/log_analyzer.py:177-198 | on a tally of the log, the report's keys are the URLs named by a matched line, and each entry summarises those lines' times against the line count and total time |
| Aggregator.StatisticFailsAtBadLine | log_analyzer/log_analyzer.py:156-165 | the first `None` line or refused time token aborts the whole pass with that error |
| Aggregator.StatisticGate | log_analyzer/log_analyzer.py:171-174 | once every line is counted: zero lines fail; a mismatch percentage at or above the limit fails; otherwise the pass succeeds unless some line matched and the total time is zero |
| Aggregator.StatisticReport | log_analyzer/log_analyzer.py:177-198 | a successful pass reports exactly the URLs some line named, each from its times in log order, the line count and the total time |
| Aggregator.StatisticTotals | log_analyzer/log_analyzer.py:182-192 | over the URLs of a successful pass (distinct, exactly the report's keys) the time shares add up to 100 and the request shares to 100 times the matched share |
| Aggregator.StatisticTopUrls | log_analyzer/log_analyzer.py:200 | the top list of a successful pass holds distinct reported URLs, as many as the slice allows, largest total first, none left out larger than one kept |
| Aggregator.CalculateStatistic | log_analyzer/log_analyzer.py:131-201 | the method's result is the pass over the classified lines |
| Aggregator.ScanLines | log_analyzer/log_analyzer.py:155-169 | the loop's result is the specification of the loop over the classified lines |
| Aggregator.ClassifyAt | log_analyzer/log_analyzer.py:156-165 | the outcome computed for line `i` is the `i`-th classified outcome |
| Aggregator.AppendTime | log_analyzer/log_analyzer.py:166 | the `defaultdict(list)` append: the URL's list grows by the time, a new URL gets a one-element list and joins the listing |
| Aggregator.FinaliseTally | log_analyzer/log_analyzer.py:171-201 | the gate, the report and the top list computed by the method are those of the specification |
| Aggregator.FillReport | log_analyzer/log_analyzer.py:177-198 | filling fails iff some URL exists and the total time is zero (a division by zero); otherwise it yields the report of every listed URL |
| Serializer.MissingIndexSpec | log_analyzer/log_analyzer.py:124-125 | there is no missing index iff every top URL has an entry; otherwise it is the first URL without one |
| Serializer.RecordShape | log_analyzer/log_analyzer.py:120-122 | a record is a head, the URL verbatim and a tail; the head starts with the count key and ends with the url key; the tail ends `},` |
| Serializer.RecordInjective | log_analyzer/log_analyzer.py:120-126 | records of the same statistics are equal iff their URLs are |
| Serializer.SerializedShape | log_analyzer/log_analyzer.py:113-128 | with every URL reported: `[`, each record in list order at its offset, `]`; `[]` for no URLs; otherwise the text ends with the trailing comma `},]` |
| Serializer.SerializedFails | log_analyzer/log_analyzer.py:124-125 | serialising fails iff some URL has no entry, and the error names the first such URL |
| Serializer.SerializedTwoRecords | log_analyzer/tests/test_log_analyzer.py:13-17 | for two reported URLs the text is `[`, both records, `]`, as the test's expected string is laid out |
| Serializer.StatisticSerializes | log_analyzer/log_analyzer.py:358-360 | the result of a successful pass always serialises |
| Serializer.SerializeReportDict | log_analyzer/log_analyzer.py:113-128 | the text grown record by record is the specification of the serialisation, error included |

## Left out

- File system, gzip and text I/O: the directory listing and the lines are parameters. `read_log`'s `.decode('utf-8')` is left out; strings are sequences of characters.
- `read_log`'s generator is modelled only by its outputs: the lines, and a `None` after an I/O error. Which opener it picks is `StorageFor`.
- `generate_report`, the HTML template, configuration loading, argument parsing, logging setup, `prepare_run` and `main` are not part of this model. The report name omits the `REPORT_DIR` join.
- Floating point: times are exact reals, so there is no rounding in sums, means or percentages. `float()` accepts the ASCII decimal forms only; `inf`, `nan`, surrounding whitespace and the non-ASCII Unicode decimal digits that Python 2's `float()` accepts in a decoded line are left out and treated as refused (`BadTime`).
- Serializer.Serialized: a URL with non-ASCII characters (a `unicode` value after the decode at line 92) makes the byte-string `json_pattern.format` at line 126 raise `UnicodeEncodeError` in Python 2. The model has no such failure, so `SerializedFails` (fails iff some URL has no entry) holds for ASCII URLs only.
- Serializer.Numerals: the text of `{x}`, `{x:.4f}` and `{x:.2f}` is a parameter, because the model has no IEEE formatting or rounding.
- Ranking.Rank: ties in total time keep first-seen order. Python 2 iterates a dict in an order the program does not control, so this pins one of the orders it allows.
- Aggregator.Tally: the dictionary's keys are also kept as a list in first-seen order. The sum invariants and the ranking need it; the source has no such list.
- Statistics.Sort: the sort is modelled on values. The source's in-place `list.sort()` and its aliasing with the dictionary's lists are not observable in the results.
- LineFormat.Extract and LogLocator.MatchLogName are hand-written recognisers for the two regular expressions. There is no general regex engine.
