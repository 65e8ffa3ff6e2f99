/**
 * The statistics pass over a log: one loop over the lines keeping a request
 * counter, a mismatch counter, the total request time and the list of times
 * of every URL; then the error gate, the per-URL report and the top-N list.
 */
module Aggregator {
  import opened Wrappers
  import opened LineFormat
  import opened Statistics
  import opened Ranking

  /** Why the pass yields no report. */
  datatype Failure =
    | ReadFailure            // the reader's `None` sentinel after an I/O error
    | BadTime(token: string) // `float()` refused the time token
    | EmptyLog               // division by a zero request count
    | TooManyErrors          // the share of unparsed lines reached the limit
    | ZeroTotalTime          // division by a zero total request time

  /** What one line contributes. */
  datatype LineOutcome = Unreadable | Mismatch | Unparsable(token: string) | Hit(url: string, time: real)

  /** The state of the loop; `urls` lists the keys of `times` in first-seen order. */
  datatype Tally = Tally(requests: nat, totalTime: real, mismatches: nat, times: map<string, seq<real>>, urls: seq<string>)

  /** One entry of the report. */
  datatype UrlStat = UrlStat(
    count: nat, timeSum: real, countPerc: real, timePerc: real,
    timeAvg: real, timeMax: real, timeMed: real)

  /** `(top_urls, report)`. */
  datatype Statistic = Statistic(topUrls: seq<string>, report: map<string, UrlStat>)

  function Classify(line: Option<string>): LineOutcome
  {
    match line
    case None => Unreadable
    case Some(s) =>
      match Extract(s)
      case None => Mismatch
      case Some((url, token)) =>
        match ParseTime(token)
        case None => Unparsable(token)
        case Some(x) => Hit(url, x)
  }

  predicate Counted(o: LineOutcome) { o.Mismatch? || o.Hit? }

  /** The list of times of `url`, empty when absent (the `defaultdict(list)`). */
  function TimesOf(times: map<string, seq<real>>, url: string): seq<real>
  {
    if url in times then times[url] else []
  }

  /** Each line classified, in log order. */
  function Outcomes(lines: seq<Option<string>>): seq<LineOutcome>
  {
    Map(Classify, lines)
  }

  /** The loop body for one classified line. */
  function Consume(t: Tally, o: LineOutcome): Result<Tally, Failure>
  {
    match o
    case Unreadable => Failure(ReadFailure)
    case Unparsable(token) => Failure(BadTime(token))
    case Mismatch => Success(t.(requests := t.requests + 1, mismatches := t.mismatches + 1))
    case Hit(url, x) => Success(AddHit(t, url, x))
  }

  /** `urls_vs_processing_time[url].append(time)` with the counters. */
  function AddHit(t: Tally, url: string, x: real): Tally
  {
    t.(requests := t.requests + 1, totalTime := t.totalTime + x,
       times := t.times[url := TimesOf(t.times, url) + [x]],
       urls := if url in t.times then t.urls else t.urls + [url])
  }

  /** `f` summed over `keys`. */
  function SumOver(keys: seq<string>, f: string -> real): real
  {
    if keys == [] then 0.0 else SumOver(keys[..|keys| - 1], f) + f(keys[|keys| - 1])
  }

  function CountOf(times: map<string, seq<real>>): string -> real
  {
    u => |TimesOf(times, u)| as real
  }

  function TimeOf(times: map<string, seq<real>>): string -> real
  {
    u => Sum(TimesOf(times, u))
  }

  /**
   * The invariant of the loop: every seen URL once in `urls` with a
   * non-empty list, every line counted either as a mismatch or in one list,
   * and the total time the sum of all lists.
   */
  predicate WellFormed(t: Tally)
  {
    && Distinct(t.urls)
    && (forall i :: 0 <= i < |t.urls| ==> t.urls[i] in t.times)
    && (forall u :: u in t.times ==> u in t.urls && |t.times[u]| >= 1)
    && t.mismatches as real + SumOver(t.urls, CountOf(t.times)) == t.requests as real
    && SumOver(t.urls, TimeOf(t.times)) == t.totalTime
  }

  const Start: Tally := Tally(0, 0.0, 0, map[], [])

  /** The main loop over the classified lines: the first unreadable line or bad time token ends it. */
  function Scan(os: seq<LineOutcome>): (r: Result<Tally, Failure>)
  {
    if os == [] then
      Success(Start)
    else
      match Scan(os[..|os| - 1])
      case Failure(e) => Failure(e)
      case Success(t) => Consume(t, os[|os| - 1])
  }

  /**
   * One report entry from a URL's times: count, sum, share of the requests,
   * share of the total time, mean, maximum (last of the sorted list) and
   * median of the sorted list.
   */
  function Summarise(times: seq<real>, requests: nat, totalTime: real): (st: UrlStat)
    requires |times| >= 1 && requests >= 1 && totalTime != 0.0
  {
    var sorted := Sort(times);
    var count := |times|;
    var timeSum := Sum(sorted);
    UrlStat(count, timeSum, 100.0 * count as real / requests as real, timeSum / totalTime * 100.0,
            timeSum / count as real, sorted[count - 1], Median(sorted).value)
  }

  /** Each URL's times exist and are non-empty. */
  predicate Listed(urls: seq<string>, times: map<string, seq<real>>)
  {
    forall i :: 0 <= i < |urls| ==> urls[i] in times && |times[urls[i]]| >= 1
  }

  /** The report filled URL by URL in the order of `urls`. */
  function ReportOf(urls: seq<string>, times: map<string, seq<real>>, requests: nat, totalTime: real): map<string, UrlStat>
    requires Listed(urls, times) && requests >= 1 && (urls != [] ==> totalTime != 0.0)
  {
    if urls == [] then map[]
    else
      var u := urls[|urls| - 1];
      ReportOf(urls[..|urls| - 1], times, requests, totalTime)[u := Summarise(times[u], requests, totalTime)]
  }

  /** The report has an entry for exactly the listed URLs, each summarising that URL's times. */
  lemma ReportOfSpec(urls: seq<string>, times: map<string, seq<real>>, requests: nat, totalTime: real)
    requires Listed(urls, times) && requests >= 1 && (urls != [] ==> totalTime != 0.0)
    ensures var report := ReportOf(urls, times, requests, totalTime);
      && (forall u :: u in report ==> u in urls)
      && (forall i :: 0 <= i < |urls| ==> urls[i] in report)
      && (forall i :: 0 <= i < |urls| ==> report[urls[i]] == Summarise(times[urls[i]], requests, totalTime))
  {
    ReportOfKeys(urls, times, requests, totalTime);
    ReportOfValues(urls, times, requests, totalTime);
  }

  lemma {:induction false} ReportOfKeys(urls: seq<string>, times: map<string, seq<real>>, requests: nat, totalTime: real)
    requires Listed(urls, times) && requests >= 1 && (urls != [] ==> totalTime != 0.0)
    ensures var report := ReportOf(urls, times, requests, totalTime);
      && (forall u :: u in report ==> u in urls)
      && (forall i :: 0 <= i < |urls| ==> urls[i] in report)
  {
    if urls != [] {
      var init := urls[..|urls| - 1];
      ReportOfKeys(init, times, requests, totalTime);
      assert forall i :: 0 <= i < |init| ==> init[i] == urls[i];
    }
  }

  lemma {:induction false} ReportOfValues(urls: seq<string>, times: map<string, seq<real>>, requests: nat, totalTime: real)
    requires Listed(urls, times) && requests >= 1 && (urls != [] ==> totalTime != 0.0)
    ensures var report := ReportOf(urls, times, requests, totalTime);
      forall i :: 0 <= i < |urls| ==> urls[i] in report && report[urls[i]] == Summarise(times[urls[i]], requests, totalTime)
  {
    if urls != [] {
      var init := urls[..|urls| - 1];
      var last := urls[|urls| - 1];
      ReportOfValues(init, times, requests, totalTime);
      var prior := ReportOf(init, times, requests, totalTime);
      var report := prior[last := Summarise(times[last], requests, totalTime)];
      assert ReportOf(urls, times, requests, totalTime) == report;
      forall i | 0 <= i < |urls|
        ensures urls[i] in report && report[urls[i]] == Summarise(times[urls[i]], requests, totalTime)
      {
        if urls[i] != last {
          assert urls[i] == init[i];
        }
      }
    }
  }

  /** The report of a well-formed tally. */
  function Report(t: Tally): map<string, UrlStat>
    requires WellFormed(t) && t.requests >= 1 && (t.urls != [] ==> t.totalTime != 0.0)
  {
    ReportOf(t.urls, t.times, t.requests, t.totalTime)
  }

  /** `time_sum` of every report entry, the key of the top-N sort. */
  function TimeSums(report: map<string, UrlStat>): map<string, real>
  {
    map u | u in report :: report[u].timeSum
  }

  /** The error gate, the per-URL report and the top-N list after the loop. */
  function Finalise(t: Tally, reportSize: int, maxErrorsPercent: real): Result<Statistic, Failure>
    requires WellFormed(t)
  {
    if t.requests == 0 then
      Failure(EmptyLog)
    else if 100.0 * t.mismatches as real / t.requests as real >= maxErrorsPercent then
      Failure(TooManyErrors)
    else if t.urls != [] && t.totalTime == 0.0 then
      Failure(ZeroTotalTime)
    else
      var report := Report(t);
      ReportOfSpec(t.urls, t.times, t.requests, t.totalTime);
      Success(Statistic(TopUrls(t.urls, TimeSums(report), reportSize), report))
  }

  /** `calculate_statistic` as a function of the lines: classify each line, then run the pass. */
  function Analyse(lines: seq<Option<string>>, reportSize: int, maxErrorsPercent: real): Result<Statistic, Failure>
  {
    StatisticOf(Outcomes(lines), reportSize, maxErrorsPercent)
  }

  /** The pass over the classified lines: the loop, then the gate, the report and the top list. */
  function StatisticOf(os: seq<LineOutcome>, reportSize: int, maxErrorsPercent: real): Result<Statistic, Failure>
  {
    match Scan(os)
    case Failure(e) => Failure(e)
    case Success(t) =>
      ScanWellFormed(os);
      Finalise(t, reportSize, maxErrorsPercent)
  }

  // ---------------------------------------------------------------------
  // Sums over the URL list

  lemma {:induction false} SumOverFrame(keys: seq<string>, f: string -> real, g: string -> real)
    requires forall i :: 0 <= i < |keys| ==> f(keys[i]) == g(keys[i])
    ensures SumOver(keys, f) == SumOver(keys, g)
  {
    if keys != [] {
      SumOverFrame(keys[..|keys| - 1], f, g);
    }
  }

  lemma {:induction false} SumOverBump(keys: seq<string>, f: string -> real, g: string -> real, w: string, d: real)
    requires Distinct(keys) && w in keys
    requires f(w) == g(w) + d
    requires forall i :: 0 <= i < |keys| && keys[i] != w ==> f(keys[i]) == g(keys[i])
    ensures SumOver(keys, f) == SumOver(keys, g) + d
  {
    var init := keys[..|keys| - 1];
    if keys[|keys| - 1] == w {
      assert w !in init;
      SumOverFrame(init, f, g);
    } else {
      assert w in init;
      SumOverBump(init, f, g, w, d);
    }
  }


  /** The loop keeps the invariant from start to end. */
  lemma {:induction false} ScanWellFormed(os: seq<LineOutcome>)
    ensures Scan(os).Success? ==> WellFormed(Scan(os).value)
  {
    if os != [] {
      var init := os[..|os| - 1];
      ScanWellFormed(init);
      if Scan(init).Success? {
        ConsumeKeepsWellFormed(Scan(init).value, os[|os| - 1]);
      }
    }
  }

  /** The loop body keeps the invariant. */
  lemma ConsumeKeepsWellFormed(t: Tally, o: LineOutcome)
    requires WellFormed(t)
    ensures Consume(t, o).Success? ==> WellFormed(Consume(t, o).value)
  {
    match o
    case Unreadable =>
    case Unparsable(_) =>
    case Mismatch =>
    case Hit(url, x) => AddHitKeepsWellFormed(t, url, x);
  }

  lemma AddHitKeepsWellFormed(t: Tally, url: string, x: real)
    requires WellFormed(t)
    ensures WellFormed(AddHit(t, url, x))
  {
    if url in t.times {
      AddHitSeenUrl(t, url, x);
    } else {
      AddHitNewUrl(t, url, x);
    }
  }

  lemma AddHitSeenUrl(t: Tally, url: string, x: real)
    requires WellFormed(t) && url in t.times
    ensures WellFormed(AddHit(t, url, x))
  {
    SeenUrlCounts(t, url, x);
    SeenUrlTimes(t, url, x);
  }

  lemma SeenUrlCounts(t: Tally, url: string, x: real)
    requires WellFormed(t) && url in t.times
    ensures var t' := AddHit(t, url, x);
      t'.urls == t.urls && SumOver(t.urls, CountOf(t'.times)) == SumOver(t.urls, CountOf(t.times)) + 1.0
  {
    var t' := AddHit(t, url, x);
    SumOverBump(t.urls, CountOf(t'.times), CountOf(t.times), url, 1.0);
  }

  lemma SeenUrlTimes(t: Tally, url: string, x: real)
    requires WellFormed(t) && url in t.times
    ensures var t' := AddHit(t, url, x);
      SumOver(t.urls, TimeOf(t'.times)) == SumOver(t.urls, TimeOf(t.times)) + x
  {
    var t' := AddHit(t, url, x);
    SumAppend(t.times[url], x);
    SumOverBump(t.urls, TimeOf(t'.times), TimeOf(t.times), url, x);
  }

  lemma AddHitNewUrl(t: Tally, url: string, x: real)
    requires WellFormed(t) && url !in t.times
    ensures WellFormed(AddHit(t, url, x))
  {
    NewUrlSums(t, url, x);
    NewUrlListed(t, url, x);
  }

  lemma NewUrlListed(t: Tally, url: string, x: real)
    requires WellFormed(t) && url !in t.times
    ensures var t' := AddHit(t, url, x);
      && Distinct(t'.urls)
      && (forall i :: 0 <= i < |t'.urls| ==> t'.urls[i] in t'.times)
      && (forall u :: u in t'.times ==> u in t'.urls && |t'.times[u]| >= 1)
  {
    var t' := AddHit(t, url, x);
    assert url !in t.urls;
    forall i, j | 0 <= i < j < |t'.urls|
      ensures t'.urls[i] != t'.urls[j]
    {
      assert t'.urls[i] == t.urls[i];
    }
  }

  lemma NewUrlSums(t: Tally, url: string, x: real)
    requires WellFormed(t) && url !in t.times
    ensures var t' := AddHit(t, url, x);
      && t'.urls == t.urls + [url]
      && SumOver(t'.urls, CountOf(t'.times)) == SumOver(t.urls, CountOf(t.times)) + 1.0
      && SumOver(t'.urls, TimeOf(t'.times)) == SumOver(t.urls, TimeOf(t.times)) + x
  {
    var t' := AddHit(t, url, x);
    assert url !in t.urls;
    SumOverFrame(t.urls, CountOf(t'.times), CountOf(t.times));
    SumOverFrame(t.urls, TimeOf(t'.times), TimeOf(t.times));
    assert t'.urls[..|t'.urls| - 1] == t.urls;
    assert TimesOf(t'.times, url) == [x];
    assert [x][1..] == [];
    assert Sum([x]) == x;
  }

  // ---------------------------------------------------------------------
  // One report entry

  /**
   * A report entry counts and sums the URL's times; its maximum is one of
   * the times and no time exceeds it; its median is the median of the
   * sorted times and lies between the smallest and the largest, and so
   * does its mean.
   */
  lemma SummariseSpec(times: seq<real>, requests: nat, totalTime: real)
    requires |times| >= 1 && requests >= 1 && totalTime != 0.0
    ensures var st := Summarise(times, requests, totalTime);
      && st.count == |times|
      && st.timeSum == Sum(times)
      && st.timeMax in times
      && (forall i :: 0 <= i < |times| ==> times[i] <= st.timeMax)
      && Median(Sort(times)) == Some(st.timeMed)
      && (forall i :: 0 <= i < |times| ==> times[i] >= Sort(times)[0])
      && Sort(times)[0] <= st.timeMed <= st.timeMax
      && Sort(times)[0] <= st.timeAvg <= st.timeMax
  {
    var sorted := Sort(times);
    SortSpec(times);
    MedianBounds(sorted);
    SortedEnds(times);
    AverageBounds(sorted);
  }

  /** The sorted list's last element is one of the times and bounds them all from above; its first from below. */
  lemma SortedEnds(times: seq<real>)
    requires |times| >= 1
    ensures var s := Sort(times);
      && s[|s| - 1] in times
      && forall i :: 0 <= i < |times| ==> s[0] <= times[i] <= s[|s| - 1]
  {
    var s := Sort(times);
    var n := |s|;
    SortSpec(times);
    assert s[n - 1] in multiset(times);
    forall i | 0 <= i < |times|
      ensures s[0] <= times[i] <= s[n - 1]
    {
      assert times[i] in multiset(s);
      var k :| 0 <= k < n && s[k] == times[i];
    }
  }

  /** The mean of a sorted non-empty list lies between its ends. */
  lemma AverageBounds(s: seq<real>)
    requires Sorted(s) && |s| >= 1
    ensures s[0] <= Sum(s) / |s| as real <= s[|s| - 1]
  {
    SumBounds(s, s[0], s[|s| - 1]);
    QuotientBounds(Sum(s), |s| as real, s[0], s[|s| - 1]);
  }

  lemma QuotientBounds(total: real, n: real, lo: real, hi: real)
    requires n > 0.0 && n * lo <= total <= n * hi
    ensures lo <= total / n <= hi
  {
    assert total / n - lo == (total - n * lo) / n;
    assert hi - total / n == (n * hi - total) / n;
  }

  // ---------------------------------------------------------------------
  // Report totals

  /** `time_perc` of a URL, zero for a URL without an entry. */
  function TimePercOf(report: map<string, UrlStat>): string -> real
  {
    u => if u in report then report[u].timePerc else 0.0
  }

  /** `count_perc` of a URL, zero for a URL without an entry. */
  function CountPercOf(report: map<string, UrlStat>): string -> real
  {
    u => if u in report then report[u].countPerc else 0.0
  }

  /**
   * Over all URLs the shares of the total time add up to exactly 100, and
   * the shares of the requests add up to 100 times the matched fraction of
   * the lines, so to 100 only when no line was a mismatch.
   */
  lemma PercentTotals(t: Tally)
    requires WellFormed(t) && t.requests >= 1 && t.urls != [] && t.totalTime != 0.0
    ensures SumOver(t.urls, TimePercOf(Report(t))) == 100.0
    ensures SumOver(t.urls, CountPercOf(Report(t))) == (t.requests - t.mismatches) as real / t.requests as real * 100.0
  {
    TimePercTotal(t);
    CountPercTotal(t);
  }

  lemma TimePercTotal(t: Tally)
    requires WellFormed(t) && t.requests >= 1 && t.urls != [] && t.totalTime != 0.0
    ensures SumOver(t.urls, TimePercOf(Report(t))) == 100.0
  {
    TimeShares(t.urls, t.times, t.requests, t.totalTime);
    SumOverShare(t.urls, TimeOf(t.times), TimePercOf(Report(t)), t.totalTime);
    WholeShare(t.totalTime);
  }

  lemma TimeShares(urls: seq<string>, times: map<string, seq<real>>, requests: nat, totalTime: real)
    requires Listed(urls, times) && requests >= 1 && totalTime != 0.0
    ensures forall i :: 0 <= i < |urls| ==>
      TimePercOf(ReportOf(urls, times, requests, totalTime))(urls[i]) == TimeOf(times)(urls[i]) / totalTime * 100.0
  {
    var report := ReportOf(urls, times, requests, totalTime);
    ReportOfValues(urls, times, requests, totalTime);
    forall i | 0 <= i < |urls|
      ensures TimePercOf(report)(urls[i]) == TimeOf(times)(urls[i]) / totalTime * 100.0
    {
      TimeShare(times[urls[i]], requests, totalTime);
    }
  }

  lemma CountPercTotal(t: Tally)
    requires WellFormed(t) && t.requests >= 1 && t.urls != [] && t.totalTime != 0.0
    ensures SumOver(t.urls, CountPercOf(Report(t))) == (t.requests - t.mismatches) as real / t.requests as real * 100.0
  {
    CountShares(t.urls, t.times, t.requests, t.totalTime);
    SumOverShare(t.urls, CountOf(t.times), CountPercOf(Report(t)), t.requests as real);
    CountsNonNegative(t.urls, t.times);
    assert (t.requests - t.mismatches) as real == SumOver(t.urls, CountOf(t.times));
  }

  lemma CountShares(urls: seq<string>, times: map<string, seq<real>>, requests: nat, totalTime: real)
    requires Listed(urls, times) && requests >= 1 && totalTime != 0.0
    ensures forall i :: 0 <= i < |urls| ==>
      CountPercOf(ReportOf(urls, times, requests, totalTime))(urls[i]) == CountOf(times)(urls[i]) / requests as real * 100.0
  {
    var report := ReportOf(urls, times, requests, totalTime);
    ReportOfValues(urls, times, requests, totalTime);
    forall i | 0 <= i < |urls|
      ensures CountPercOf(report)(urls[i]) == CountOf(times)(urls[i]) / requests as real * 100.0
    {
      CountShare(times[urls[i]], requests, totalTime);
      CountShareAt(urls[i], times, report, requests as real);
    }
  }

  lemma CountShareAt(u: string, times: map<string, seq<real>>, report: map<string, UrlStat>, whole: real)
    requires whole != 0.0
    requires u in report && report[u].countPerc == 100.0 * |TimesOf(times, u)| as real / whole
    ensures CountPercOf(report)(u) == CountOf(times)(u) / whole * 100.0
  {
    ShareOf(|TimesOf(times, u)| as real, whole);
  }

  /** An entry's share of the total time, in percent. */
  lemma TimeShare(times: seq<real>, requests: nat, totalTime: real)
    requires |times| >= 1 && requests >= 1 && totalTime != 0.0
    ensures Summarise(times, requests, totalTime).timePerc == Sum(times) / totalTime * 100.0
  {
    SortSum(times);
  }

  /** An entry's share of the requests, in percent. */
  lemma CountShare(times: seq<real>, requests: nat, totalTime: real)
    requires |times| >= 1 && requests >= 1 && totalTime != 0.0
    ensures Summarise(times, requests, totalTime).countPerc == 100.0 * |times| as real / requests as real
  {
  }

  /** Percent shares of the parts add up to the percent share of their sum. */
  lemma {:induction false} SumOverShare(keys: seq<string>, f: string -> real, g: string -> real, whole: real)
    requires whole != 0.0
    requires forall i :: 0 <= i < |keys| ==> g(keys[i]) == f(keys[i]) / whole * 100.0
    ensures SumOver(keys, g) == SumOver(keys, f) / whole * 100.0
  {
    if keys != [] {
      var init := keys[..|keys| - 1];
      SumOverShare(init, f, g, whole);
      ShareAdd(SumOver(init, f), f(keys[|keys| - 1]), whole);
    }
  }

  lemma ShareAdd(a: real, b: real, whole: real)
    requires whole != 0.0
    ensures a / whole * 100.0 + b / whole * 100.0 == (a + b) / whole * 100.0
  {
  }

  lemma ShareOf(part: real, whole: real)
    requires whole != 0.0
    ensures 100.0 * part / whole == part / whole * 100.0
  {
  }

  lemma WholeShare(whole: real)
    requires whole != 0.0
    ensures whole / whole * 100.0 == 100.0
  {
  }

  lemma {:induction false} CountsNonNegative(urls: seq<string>, times: map<string, seq<real>>)
    ensures SumOver(urls, CountOf(times)) >= 0.0
  {
    if urls != [] {
      CountsNonNegative(urls[..|urls| - 1], times);
    }
  }

  // ---------------------------------------------------------------------
  // Reference definitions, line by line

  /** Every line was read and every matched line's time token parsed. */
  predicate AllCounted(os: seq<LineOutcome>)
  {
    forall i :: 0 <= i < |os| ==> Counted(os[i])
  }

  /** The number of lines the pattern does not match. */
  function Mismatches(os: seq<LineOutcome>): nat
  {
    if os == [] then 0
    else Mismatches(os[..|os| - 1]) + (if os[|os| - 1].Mismatch? then 1 else 0)
  }

  /** The times of the lines naming `url`, in log order. */
  function Hits(os: seq<LineOutcome>, url: string): seq<real>
  {
    if os == [] then []
    else
      Hits(os[..|os| - 1], url) +
      match os[|os| - 1]
      case Hit(v, x) => if v == url then [x] else []
      case _ => []
  }

  /** The sum of the times of all matched lines. */
  function TotalTime(os: seq<LineOutcome>): real
  {
    if os == [] then 0.0
    else TotalTime(os[..|os| - 1]) + (if os[|os| - 1].Hit? then os[|os| - 1].time else 0.0)
  }

  /**
   * The loop runs to the end exactly when every line is counted, and then
   * its counters and lists are those of the log: one request per line, the
   * mismatches, the total time and each URL's times in log order.
   */
  lemma {:induction false} ScanFromLog(os: seq<LineOutcome>)
    ensures Scan(os).Success? <==> AllCounted(os)
    ensures Scan(os).Success? ==> LogTally(os, Scan(os).value)
  {
    if os != [] {
      var init := os[..|os| - 1];
      ScanFromLog(init);
      AllCountedSnoc(os);
      if Scan(init).Success? {
        ConsumeFromLog(os, Scan(init).value);
      }
    }
  }

  lemma AllCountedSnoc(os: seq<LineOutcome>)
    requires os != []
    ensures AllCounted(os) <==> AllCounted(os[..|os| - 1]) && Counted(os[|os| - 1])
  {
    var init := os[..|os| - 1];
    assert forall i :: 0 <= i < |init| ==> init[i] == os[i];
  }

  /** The tally holds the counters and lists of the classified lines `os`. */
  ghost predicate LogTally(os: seq<LineOutcome>, t: Tally)
  {
    && t.requests == |os|
    && t.mismatches == Mismatches(os)
    && t.totalTime == TotalTime(os)
    && forall u :: TimesOf(t.times, u) == Hits(os, u)
  }

  lemma ConsumeFromLog(os: seq<LineOutcome>, t: Tally)
    requires os != [] && LogTally(os[..|os| - 1], t)
    ensures Consume(t, os[|os| - 1]).Success? <==> Counted(os[|os| - 1])
    ensures Consume(t, os[|os| - 1]).Success? ==> LogTally(os, Consume(t, os[|os| - 1]).value)
  {
    var init := os[..|os| - 1];
    match os[|os| - 1]
    case Unreadable =>
    case Unparsable(_) =>
    case Mismatch =>
    case Hit(url, x) =>
      var t' := AddHit(t, url, x);
      forall u
        ensures TimesOf(t'.times, u) == Hits(os, u)
      {
        assert Hits(os, u) == Hits(init, u) + (if u == url then [x] else []);
      }
  }

  lemma ScanStep(os: seq<LineOutcome>, i: nat, t: Tally)
    requires i < |os| && Scan(os[..i]) == Success(t)
    ensures Scan(os[..i + 1]) == Consume(t, os[i])
  {
    assert os[..i + 1][..i] == os[..i];
  }

  /** Once the loop has stopped on a line, later lines change nothing. */
  lemma {:induction false} ScanStops(os: seq<LineOutcome>, j: nat)
    requires j <= |os| && Scan(os[..j]).Failure?
    ensures Scan(os) == Scan(os[..j])
    decreases |os| - j
  {
    if j < |os| {
      assert os[..j + 1][..j] == os[..j];
      ScanStops(os, j + 1);
    } else {
      assert os[..j] == os;
    }
  }

  /** The first unreadable line or unparsable time decides the failure. */
  lemma ScanFailsAtFirstBadLine(os: seq<LineOutcome>, k: nat)
    requires k < |os| && !Counted(os[k])
    requires forall i :: 0 <= i < k ==> Counted(os[i])
    ensures Scan(os) == Failure(if os[k].Unreadable? then ReadFailure else BadTime(os[k].token))
  {
    var before := os[..k];
    ScanFromLog(before);
    assert os[..k + 1][..k] == before;
    ScanStops(os, k + 1);
  }

  // ---------------------------------------------------------------------
  // The outcome in terms of the log

  /**
   * For a tally of the log, the report has an entry for exactly the URLs
   * named by some matched line, and each entry summarises that URL's times
   * in log order against the line count and the total time of the log.
   */
  lemma TallyReport(os: seq<LineOutcome>, t: Tally)
    requires WellFormed(t) && LogTally(os, t) && t.requests >= 1 && (t.urls != [] ==> t.totalTime != 0.0)
    ensures forall u :: u in Report(t) <==> Hits(os, u) != []
    ensures forall u :: u in Report(t) ==>
      |Hits(os, u)| >= 1 && TotalTime(os) != 0.0 && Report(t)[u] == Summarise(Hits(os, u), |os|, TotalTime(os))
  {
    TallyReportKeys(os, t);
    TallyReportValues(os, t);
  }

  lemma TallyReportKeys(os: seq<LineOutcome>, t: Tally)
    requires WellFormed(t) && LogTally(os, t) && t.requests >= 1 && (t.urls != [] ==> t.totalTime != 0.0)
    ensures forall u :: u in Report(t) <==> Hits(os, u) != []
  {
    ReportOfKeys(t.urls, t.times, t.requests, t.totalTime);
    forall u
      ensures u in Report(t) <==> Hits(os, u) != []
    {
      assert TimesOf(t.times, u) == Hits(os, u);
    }
  }

  lemma TallyReportValues(os: seq<LineOutcome>, t: Tally)
    requires WellFormed(t) && LogTally(os, t) && t.requests >= 1 && (t.urls != [] ==> t.totalTime != 0.0)
    ensures forall u :: u in Report(t) ==>
      |Hits(os, u)| >= 1 && TotalTime(os) != 0.0 && Report(t)[u] == Summarise(Hits(os, u), |os|, TotalTime(os))
  {
    var report := Report(t);
    ReportOfKeys(t.urls, t.times, t.requests, t.totalTime);
    ReportOfValues(t.urls, t.times, t.requests, t.totalTime);
    forall u | u in report
      ensures |Hits(os, u)| >= 1 && TotalTime(os) != 0.0 && report[u] == Summarise(Hits(os, u), |os|, TotalTime(os))
    {
      var i :| 0 <= i < |t.urls| && t.urls[i] == u;
      var times := t.times[u];
      assert TimesOf(t.times, u) == times;
      assert times == Hits(os, u);
      assert report[u] == Summarise(times, t.requests, t.totalTime);
    }
  }

  /** Every URL of the list has at least one time, so there are at least as many hits as URLs. */
  lemma {:induction false} CountsAtLeast(urls: seq<string>, times: map<string, seq<real>>)
    requires Listed(urls, times)
    ensures SumOver(urls, CountOf(times)) >= |urls| as real
  {
    if urls != [] {
      var init := urls[..|urls| - 1];
      assert Listed(init, times) by {
        assert forall i :: 0 <= i < |init| ==> init[i] == urls[i];
      }
      CountsAtLeast(init, times);
    }
  }

  /** Some URL was hit exactly when some line matched. */
  lemma SomeHitIffSomeMatch(t: Tally)
    requires WellFormed(t)
    ensures t.urls != [] <==> t.mismatches < t.requests
  {
    CountsAtLeast(t.urls, t.times);
  }

  /** The first unreadable line or unparsable time token aborts the whole pass with its error. */
  lemma StatisticFailsAtBadLine(os: seq<LineOutcome>, reportSize: int, maxErrorsPercent: real, k: nat)
    requires k < |os| && !Counted(os[k])
    requires forall i :: 0 <= i < k ==> Counted(os[i])
    ensures StatisticOf(os, reportSize, maxErrorsPercent) == Failure(if os[k].Unreadable? then ReadFailure else BadTime(os[k].token))
  {
    ScanFailsAtFirstBadLine(os, k);
  }

  /**
   * Once every line is counted: an empty log fails, a share of mismatches
   * at or above the limit fails, and otherwise the pass succeeds unless
   * some line matched while the total time is zero.
   */
  lemma StatisticGate(os: seq<LineOutcome>, reportSize: int, maxErrorsPercent: real)
    requires AllCounted(os)
    ensures var r := StatisticOf(os, reportSize, maxErrorsPercent);
      && (r == Failure(EmptyLog) <==> os == [])
      && (os != [] ==>
            (r == Failure(TooManyErrors) <==> 100.0 * Mismatches(os) as real / |os| as real >= maxErrorsPercent))
      && (r.Success? <==>
            os != [] && 100.0 * Mismatches(os) as real / |os| as real < maxErrorsPercent &&
            (Mismatches(os) < |os| ==> TotalTime(os) != 0.0))
  {
    ScanFromLog(os);
    ScanWellFormed(os);
    var t := Scan(os).value;
    SomeHitIffSomeMatch(t);
    FinaliseGate(t, reportSize, maxErrorsPercent);
    GateOnLog(StatisticOf(os, reportSize, maxErrorsPercent), t, os, maxErrorsPercent);
  }

  /** The verdicts of the gate on a tally restated over the counts of the lines it came from. */
  lemma GateOnLog(r: Result<Statistic, Failure>, t: Tally, os: seq<LineOutcome>, maxErrorsPercent: real)
    requires t.requests == |os| && t.mismatches == Mismatches(os) && t.totalTime == TotalTime(os)
    requires t.urls != [] <==> t.mismatches < t.requests
    requires && (r == Failure(EmptyLog) <==> t.requests == 0)
      && (t.requests != 0 ==>
            (r == Failure(TooManyErrors) <==> 100.0 * t.mismatches as real / t.requests as real >= maxErrorsPercent))
      && (r.Success? <==>
            t.requests != 0 && 100.0 * t.mismatches as real / t.requests as real < maxErrorsPercent &&
            (t.urls != [] ==> t.totalTime != 0.0))
    ensures && (r == Failure(EmptyLog) <==> os == [])
      && (os != [] ==>
            (r == Failure(TooManyErrors) <==> 100.0 * Mismatches(os) as real / |os| as real >= maxErrorsPercent))
      && (r.Success? <==>
            os != [] && 100.0 * Mismatches(os) as real / |os| as real < maxErrorsPercent &&
            (Mismatches(os) < |os| ==> TotalTime(os) != 0.0))
  {
  }

  /** The verdicts of the gate on a tally. */
  lemma FinaliseGate(t: Tally, reportSize: int, maxErrorsPercent: real)
    requires WellFormed(t)
    ensures var r := Finalise(t, reportSize, maxErrorsPercent);
      && (r == Failure(EmptyLog) <==> t.requests == 0)
      && (t.requests != 0 ==>
            (r == Failure(TooManyErrors) <==> 100.0 * t.mismatches as real / t.requests as real >= maxErrorsPercent))
      && (r.Success? <==>
            t.requests != 0 && 100.0 * t.mismatches as real / t.requests as real < maxErrorsPercent &&
            (t.urls != [] ==> t.totalTime != 0.0))
  {
  }

  /** A successful finalisation reports the tally's report. */
  lemma FinaliseReport(t: Tally, reportSize: int, maxErrorsPercent: real)
    requires WellFormed(t) && Finalise(t, reportSize, maxErrorsPercent).Success?
    ensures t.requests >= 1 && (t.urls != [] ==> t.totalTime != 0.0)
    ensures Finalise(t, reportSize, maxErrorsPercent).value.report == Report(t)
  {
  }

  /**
   * A successful pass reports exactly the URLs some line named, each
   * summarising its times in log order against the number of lines and
   * the log's total time.
   */
  lemma StatisticReport(os: seq<LineOutcome>, reportSize: int, maxErrorsPercent: real)
    requires StatisticOf(os, reportSize, maxErrorsPercent).Success?
    ensures var report := StatisticOf(os, reportSize, maxErrorsPercent).value.report;
      && (forall u :: u in report <==> Hits(os, u) != [])
      && (forall u :: u in report ==>
            |Hits(os, u)| >= 1 && TotalTime(os) != 0.0 && report[u] == Summarise(Hits(os, u), |os|, TotalTime(os)))
  {
    ScanFromLog(os);
    ScanWellFormed(os);
    var t := Scan(os).value;
    FinaliseReport(t, reportSize, maxErrorsPercent);
    TallyReport(os, t);
  }

  /**
   * Over the URLs of a successful pass (in first-seen order, each once,
   * exactly the report's keys), the time shares add up to 100 and the
   * request shares to 100 times the matched fraction of the lines.
   */
  lemma StatisticTotals(os: seq<LineOutcome>, reportSize: int, maxErrorsPercent: real)
    requires StatisticOf(os, reportSize, maxErrorsPercent).Success?
    ensures var urls := Scan(os).value.urls;
      var report := StatisticOf(os, reportSize, maxErrorsPercent).value.report;
      && Distinct(urls)
      && (forall u :: u in report <==> u in urls)
      && (urls != [] ==> SumOver(urls, TimePercOf(report)) == 100.0)
      && (urls != [] ==> SumOver(urls, CountPercOf(report)) == (|os| - Mismatches(os)) as real / |os| as real * 100.0)
  {
    ScanFromLog(os);
    ScanWellFormed(os);
    var t := Scan(os).value;
    FinaliseReport(t, reportSize, maxErrorsPercent);
    ReportOfKeys(t.urls, t.times, t.requests, t.totalTime);
    if t.urls != [] {
      PercentTotals(t);
      MatchedShareOnLog(SumOver(t.urls, CountPercOf(Report(t))), t, os);
    }
  }

  /** The matched share of a tally restated over the counts of the lines it came from. */
  lemma MatchedShareOnLog(x: real, t: Tally, os: seq<LineOutcome>)
    requires t.requests == |os| && t.mismatches == Mismatches(os) && t.requests >= 1
    requires x == (t.requests - t.mismatches) as real / t.requests as real * 100.0
    ensures x == (|os| - Mismatches(os)) as real / |os| as real * 100.0
  {
  }

  /**
   * The top list of a successful pass holds distinct reported URLs, as
   * many as the slice rule allows, in non-increasing order of total time,
   * and no reported URL left out has a larger total than one kept.
   */
  lemma StatisticTopUrls(os: seq<LineOutcome>, reportSize: int, maxErrorsPercent: real)
    requires StatisticOf(os, reportSize, maxErrorsPercent).Success?
    ensures var stat := StatisticOf(os, reportSize, maxErrorsPercent).value;
      var top := stat.topUrls;
      var key := TimeSums(stat.report);
      && |top| == PrefixLength(|Scan(os).value.urls|, reportSize)
      && Distinct(top)
      && (forall i :: 0 <= i < |top| ==> top[i] in stat.report)
      && Keyed(top, key) && Ranked(top, key)
      && (forall u, i :: u in stat.report && u !in top && 0 <= i < |top| ==> key[u] <= key[top[i]])
  {
    ScanFromLog(os);
    ScanWellFormed(os);
    var t := Scan(os).value;
    ReportOfKeys(t.urls, t.times, t.requests, t.totalTime);
    TopUrlsSpec(t.urls, TimeSums(Report(t)), reportSize);
  }

  // ---------------------------------------------------------------------
  // The method

  /**
   * `calculate_statistic`: the loop over the lines, the error gate, the
   * report filled URL by URL, and the top-N list.
   */
  method CalculateStatistic(lines: seq<Option<string>>, reportSize: int, maxErrorsPercent: real)
    returns (r: Result<Statistic, Failure>)
    ensures r == Analyse(lines, reportSize, maxErrorsPercent)
  {
    var scanned := ScanLines(lines);
    match scanned {
      case Failure(e) =>
        return Failure(e);
      case Success(t) =>
        ScanWellFormed(Outcomes(lines));
        r := FinaliseTally(t, reportSize, maxErrorsPercent);
    }
  }

  /** The line loop of `calculate_statistic`: counts each line, its mismatches and each URL's times. */
  method ScanLines(lines: seq<Option<string>>) returns (r: Result<Tally, Failure>)
    ensures r == Scan(Outcomes(lines))
  {
    // all_requests_count, all_requests_time, mismatch_count and
    // urls_vs_processing_time, with the order its keys were first seen
    var t := Tally(0, 0.0, 0, map[], []);
    ghost var os := Outcomes(lines);
    var i := 0;
    while i < |lines|
      invariant 0 <= i <= |lines|
      invariant Scan(os[..i]) == Success(t)
    {
      ScanStep(os, i, t);
      var outcome := ClassifyAt(lines, i);
      match outcome {
        case Unreadable =>
          ScanStops(os, i + 1);
          return Failure(ReadFailure);
        case Unparsable(token) =>
          ScanStops(os, i + 1);
          return Failure(BadTime(token));
        case Mismatch =>
          t := t.(requests := t.requests + 1, mismatches := t.mismatches + 1);
        case Hit(url, x) =>
          ghost var before := t;
          var times, urls := AppendTime(t.times, t.urls, url, x);
          t := t.(requests := t.requests + 1, totalTime := t.totalTime + x, times := times, urls := urls);
          assert t == AddHit(before, url, x);
      }
      i := i + 1;
    }
    assert os[..|lines|] == os;
    return Success(t);
  }

  /**
   * `urls_vs_processing_time[url].append(time)` on the `defaultdict(list)`:
   * a URL seen for the first time gets a fresh list and joins the listing.
   */
  method AppendTime(times: map<string, seq<real>>, urls: seq<string>, url: string, x: real)
    returns (times': map<string, seq<real>>, urls': seq<string>)
    ensures times' == times[url := TimesOf(times, url) + [x]]
    ensures urls' == if url in times then urls else urls + [url]
  {
    var prev := TimesOf(times, url);
    urls' := urls;
    if url !in times {
      urls' := urls + [url];
    }
    times' := times[url := prev + [x]];
  }

  /** Matches line `i` against the line pattern and parses its time token with `float()`. */
  method ClassifyAt(lines: seq<Option<string>>, i: nat) returns (o: LineOutcome)
    requires i < |lines|
    ensures o == Outcomes(lines)[i]
  {
    MapAt(Classify, lines, i);
    o := Classify(lines[i]);
  }

  /** The error gate, the report filled URL by URL and the top-N list. */
  method FinaliseTally(t: Tally, reportSize: int, maxErrorsPercent: real) returns (r: Result<Statistic, Failure>)
    requires WellFormed(t)
    ensures r == Finalise(t, reportSize, maxErrorsPercent)
  {
    if t.requests == 0 {
      return Failure(EmptyLog);
    }
    var errors := 100.0 * t.mismatches as real / t.requests as real;
    if errors >= maxErrorsPercent {
      return Failure(TooManyErrors);
    }
    var filled := FillReport(t.urls, t.times, t.requests, t.totalTime);
    match filled {
      case Failure(e) =>
        return Failure(e);
      case Success(report) =>
        ReportOfSpec(t.urls, t.times, t.requests, t.totalTime);
        var timeSums := map u | u in report :: report[u].timeSum;
        var top := TopUrls(t.urls, timeSums, reportSize);
        return Success(Statistic(top, report));
    }
  }

  /**
   * The report filled URL by URL, as the report loop of `calculate_statistic` does; the first entry
   * divides by the total time, so a zero total with some URL fails.
   */
  method FillReport(urls: seq<string>, times: map<string, seq<real>>, requests: nat, totalTime: real)
    returns (r: Result<map<string, UrlStat>, Failure>)
    requires Listed(urls, times) && requests >= 1
    ensures r.Failure? <==> urls != [] && totalTime == 0.0
    ensures r.Failure? ==> r.error == ZeroTotalTime
    ensures r.Success? ==> r.value == ReportOf(urls, times, requests, totalTime)
  {
    var report: map<string, UrlStat> := map[];
    var k := 0;
    while k < |urls|
      invariant 0 <= k <= |urls|
      invariant k > 0 ==> totalTime != 0.0
      invariant Listed(urls[..k], times)
      invariant report == ReportOf(urls[..k], times, requests, totalTime)
    {
      if totalTime == 0.0 {
        return Failure(ZeroTotalTime);
      }
      var url := urls[k];
      ReportOfStep(urls, times, requests, totalTime, k);
      report := report[url := Summarise(times[url], requests, totalTime)];
      k := k + 1;
    }
    assert urls[..|urls|] == urls;
    return Success(report);
  }

  /** Filling one more URL adds its entry to the report of the URLs before it. */
  lemma ReportOfStep(urls: seq<string>, times: map<string, seq<real>>, requests: nat, totalTime: real, k: nat)
    requires Listed(urls, times) && requests >= 1 && totalTime != 0.0 && k < |urls|
    ensures Listed(urls[..k], times) && Listed(urls[..k + 1], times)
    ensures ReportOf(urls[..k + 1], times, requests, totalTime) ==
      ReportOf(urls[..k], times, requests, totalTime)[urls[k] := Summarise(times[urls[k]], requests, totalTime)]
  {
    assert forall i :: 0 <= i <= k ==> urls[..k + 1][i] == urls[i];
    assert urls[..k + 1][..k] == urls[..k];
  }
}
