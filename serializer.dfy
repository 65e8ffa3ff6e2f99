/**
 * The report serialiser: the top URLs, in order, as a JSON-like list of
 * records with a fixed field order. Every record ends with `},`, so a
 * non-empty list ends with `},]`. The text of the numbers is a parameter.
 */
module Serializer {
  import opened Wrappers
  import opened Digits
  import opened Aggregator

  /**
   * How floats are written: `{x}` with no format spec, `{x:.4f}` and
   * `{x:.2f}`. The rounding of those formats is not part of this model.
   */
  datatype Numerals = Numerals(plain: real -> string, fixed4: real -> string, fixed2: real -> string)

  /** The `KeyError` of `report_dict[url]`. */
  datatype SerializeError = MissingUrl(url: string)

  /** The pieces of `json_pattern` before the URL: fixed text and the values it formats, in order. */
  function HeadParts(st: UrlStat, fmt: Numerals): seq<string>
  {
    ["{\"count\": ", Decimal(st.count),
     ", \"time_avg\": ", fmt.fixed4(st.timeAvg),
     ", \"time_max\": ", fmt.plain(st.timeMax),
     ", \"time_sum\": ", fmt.plain(st.timeSum),
     ", \"url\": \""]
  }

  /** The pieces of `json_pattern` after the URL. */
  function TailParts(st: UrlStat, fmt: Numerals): seq<string>
  {
    ["\", \"time_med\": ", fmt.plain(st.timeMed),
     ", \"time_perc\": ", fmt.fixed4(st.timePerc),
     ", \"count_perc\": ", fmt.fixed2(st.countPerc),
     "},"]
  }

  /** `json_pattern.format(url=url, **statistic)`. */
  function Record(url: string, st: UrlStat, fmt: Numerals): string
  {
    Joined(HeadParts(st, fmt) + [url] + TailParts(st, fmt))
  }

  /** Every URL of the list has an entry in the report. */
  predicate AllReported(top: seq<string>, report: map<string, UrlStat>)
  {
    forall i :: 0 <= i < |top| ==> top[i] in report
  }

  /** The strings one after the other. */
  function Joined(parts: seq<string>): string
  {
    if parts == [] then "" else Joined(parts[..|parts| - 1]) + parts[|parts| - 1]
  }

  /** The record of every URL, in list order. */
  function RecordList(top: seq<string>, report: map<string, UrlStat>, fmt: Numerals): (rs: seq<string>)
    requires AllReported(top, report)
  {
    seq(|top|, i requires 0 <= i < |top| => Record(top[i], report[top[i]], fmt))
  }

  /** The records of the URLs, one after the other in list order. */
  function Records(top: seq<string>, report: map<string, UrlStat>, fmt: Numerals): string
    requires AllReported(top, report)
  {
    Joined(RecordList(top, report, fmt))
  }

  /** The position of the first URL without an entry, if any. */
  function MissingIndex(top: seq<string>, report: map<string, UrlStat>): (k: Option<nat>)
  {
    if top == [] then None
    else if top[0] !in report then Some(0)
    else match MissingIndex(top[1..], report)
      case None => None
      case Some(j) => Some(j + 1)
  }

  /** `serialize_report_dict`: the first missing URL raises, otherwise `[`, the records, `]`. */
  function Serialized(top: seq<string>, report: map<string, UrlStat>, fmt: Numerals): Result<string, SerializeError>
  {
    match MissingIndex(top, report)
    case Some(k) =>
      MissingIndexSpec(top, report);
      Failure(MissingUrl(top[k]))
    case None =>
      MissingIndexSpec(top, report);
      Success("[" + Records(top, report, fmt) + "]")
  }

  /** No index exactly when every URL is reported; otherwise the index of the first one that is not. */
  lemma {:induction false} MissingIndexSpec(top: seq<string>, report: map<string, UrlStat>)
    ensures MissingIndex(top, report).None? <==> AllReported(top, report)
    ensures MissingIndex(top, report).Some? ==>
      var k := MissingIndex(top, report).value;
      k < |top| && top[k] !in report && AllReported(top[..k], report)
  {
    if top != [] && top[0] in report {
      MissingIndexSpec(top[1..], report);
      assert forall i :: 1 <= i < |top| ==> top[i] == top[1..][i - 1];
      match MissingIndex(top[1..], report)
      case None =>
      case Some(j) =>
        assert top[..j + 1] == [top[0]] + top[1..][..j];
    }
  }

  /** A URL without an entry preceded only by reported ones is the first missing one. */
  lemma {:induction false} MissingIndexAt(top: seq<string>, report: map<string, UrlStat>, k: nat)
    requires k < |top| && top[k] !in report && AllReported(top[..k], report)
    ensures MissingIndex(top, report) == Some(k)
  {
    if k > 0 {
      assert top[0] == top[..k][0];
      assert top[1..][..k - 1] == top[1..k];
      assert forall i :: 0 <= i < k - 1 ==> top[1..k][i] == top[..k][i + 1];
      MissingIndexAt(top[1..], report, k - 1);
    }
  }

  // ---------------------------------------------------------------------
  // The shape of the output

  /** Joining two lists of strings joins the first, then the second. */
  lemma {:induction false} JoinedConcat(a: seq<string>, b: seq<string>)
    ensures Joined(a + b) == Joined(a) + Joined(b)
    decreases |b|
  {
    if b == [] {
      assert a + b == a;
    } else {
      var init := b[..|b| - 1];
      JoinedConcat(a, init);
      assert (a + b)[..|a + b| - 1] == a + init;
    }
  }

  /** The records of a prefix of the list are a prefix of its records. */
  lemma RecordListSlices(top: seq<string>, report: map<string, UrlStat>, fmt: Numerals, i: nat)
    requires AllReported(top, report) && i <= |top|
    ensures AllReported(top[..i], report) && AllReported(top[i..], report)
    ensures RecordList(top, report, fmt)[..i] == RecordList(top[..i], report, fmt)
    ensures RecordList(top, report, fmt)[i..] == RecordList(top[i..], report, fmt)
  {
    assert forall j :: 0 <= j < i ==> top[..i][j] == top[j];
    assert forall j :: 0 <= j < |top| - i ==> top[i..][j] == top[i + j];
  }

  /** One more URL adds its record at the end. */
  lemma RecordsStep(top: seq<string>, report: map<string, UrlStat>, fmt: Numerals, i: nat)
    requires i < |top| && AllReported(top[..i], report) && top[i] in report
    ensures AllReported(top[..i + 1], report)
    ensures Records(top[..i + 1], report, fmt) == Records(top[..i], report, fmt) + Record(top[i], report[top[i]], fmt)
  {
    assert forall j :: 0 <= j < i ==> top[..i + 1][j] == top[..i][j];
    var rs := RecordList(top[..i + 1], report, fmt);
    assert rs[..i] == RecordList(top[..i], report, fmt);
  }

  /** The record of URL `i` comes right after those of the URLs before it and before those after it. */
  lemma RecordAt(top: seq<string>, report: map<string, UrlStat>, fmt: Numerals, i: nat)
    requires AllReported(top, report) && i < |top|
    ensures AllReported(top[..i], report) && AllReported(top[i + 1..], report)
    ensures Records(top, report, fmt) ==
      Records(top[..i], report, fmt) + Record(top[i], report[top[i]], fmt) + Records(top[i + 1..], report, fmt)
  {
    var rs := RecordList(top, report, fmt);
    RecordListSlices(top, report, fmt, i);
    RecordListSlices(top, report, fmt, i + 1);
    JoinedAt(rs, i);
  }

  /** Part `i` of a joined list comes right after the parts before it and before the parts after it. */
  lemma JoinedAt(parts: seq<string>, i: nat)
    requires i < |parts|
    ensures Joined(parts) == Joined(parts[..i]) + parts[i] + Joined(parts[i + 1..])
  {
    JoinedPrefix(parts, i);
    JoinedSplit(parts, i + 1);
  }

  lemma JoinedSplit(parts: seq<string>, k: nat)
    requires k <= |parts|
    ensures Joined(parts) == Joined(parts[..k]) + Joined(parts[k..])
  {
    assert parts == parts[..k] + parts[k..];
    JoinedConcat(parts[..k], parts[k..]);
  }

  lemma JoinedPrefix(parts: seq<string>, i: nat)
    requires i < |parts|
    ensures Joined(parts[..i + 1]) == Joined(parts[..i]) + parts[i]
  {
    assert parts[..i + 1][..i] == parts[..i];
  }

  /**
   * Each record is a head, the URL verbatim and a tail, where head and tail
   * do not depend on the URL; the head opens with the count field and
   * closes with the URL key, and the tail ends with `},`.
   */
  lemma RecordShape(url: string, st: UrlStat, fmt: Numerals)
    ensures var head := Joined(HeadParts(st, fmt));
      var tail := Joined(TailParts(st, fmt));
      && Record(url, st, fmt) == head + url + tail
      && |head| >= 20 && head[..10] == "{\"count\": " && head[|head| - 10..] == ", \"url\": \""
      && |tail| >= 2 && tail[|tail| - 2..] == "},"
  {
    var hs, ts := HeadParts(st, fmt), TailParts(st, fmt);
    var parts := hs + [url] + ts;
    JoinedAt(parts, 9);
    assert parts[..9] == hs && parts[10..] == ts;
    JoinedAt(hs, 0);
    assert hs[..0] == [];
    JoinedAt(hs, 8);
    assert hs[9..] == [];
    JoinedAt(ts, 6);
    assert ts[7..] == [];
  }

  /** Two records of the same statistics differ exactly when their URLs differ. */
  lemma RecordInjective(u: string, v: string, st: UrlStat, fmt: Numerals)
    ensures Record(u, st, fmt) == Record(v, st, fmt) <==> u == v
  {
    RecordShape(u, st, fmt);
    RecordShape(v, st, fmt);
    var head, tail := Joined(HeadParts(st, fmt)), Joined(TailParts(st, fmt));
    if Record(u, st, fmt) == Record(v, st, fmt) {
      assert |u| == |v|;
      assert (head + u + tail)[|head|..|head| + |u|] == u;
      assert (head + v + tail)[|head|..|head| + |v|] == v;
    }
  }

  /**
   * A list whose URLs are all reported serialises to `[`, then each URL's
   * record in list order, then `]`; with no URLs that is `[]`, and
   * otherwise the text ends with the trailing comma `},]`.
   */
  lemma SerializedShape(top: seq<string>, report: map<string, UrlStat>, fmt: Numerals)
    requires AllReported(top, report)
    ensures Serialized(top, report, fmt).Success?
    ensures var out := Serialized(top, report, fmt).value;
      && out == "[" + Records(top, report, fmt) + "]"
      && (top == [] ==> out == "[]")
      && (top != [] ==> |out| >= 3 && out[|out| - 3..] == "},]")
      && (forall i :: 0 <= i < |top| ==>
            var at := 1 + |Records(top[..i], report, fmt)|;
            var rec := Record(top[i], report[top[i]], fmt);
            at + |rec| <= |out| && out[at..at + |rec|] == rec)
  {
    MissingIndexSpec(top, report);
    var out := Serialized(top, report, fmt).value;
    if top == [] {
      assert RecordList(top, report, fmt) == [];
    } else {
      SerializedEnds(top, report, fmt);
    }
    forall i | 0 <= i < |top|
      ensures var at := 1 + |Records(top[..i], report, fmt)|;
        var rec := Record(top[i], report[top[i]], fmt);
        at + |rec| <= |out| && out[at..at + |rec|] == rec
    {
      SerializedRecordAt(top, report, fmt, i);
    }
  }

  lemma SerializedEnds(top: seq<string>, report: map<string, UrlStat>, fmt: Numerals)
    requires AllReported(top, report) && top != []
    ensures var out := "[" + Records(top, report, fmt) + "]";
      |out| >= 3 && out[|out| - 3..] == "},]"
  {
    var n := |top| - 1;
    assert AllReported(top[..n], report);
    RecordsStep(top, report, fmt, n);
    assert top[..n + 1] == top;
    var rec := Record(top[n], report[top[n]], fmt);
    RecordShape(top[n], report[top[n]], fmt);
    var out := "[" + Records(top, report, fmt) + "]";
    assert out == ("[" + Records(top[..n], report, fmt)) + rec + "]";
    assert out[|out| - 3..] == rec[|rec| - 2..] + "]";
  }

  lemma SerializedRecordAt(top: seq<string>, report: map<string, UrlStat>, fmt: Numerals, i: nat)
    requires AllReported(top, report) && i < |top|
    ensures AllReported(top[..i], report)
    ensures var out := "[" + Records(top, report, fmt) + "]";
      var at := 1 + |Records(top[..i], report, fmt)|;
      var rec := Record(top[i], report[top[i]], fmt);
      at + |rec| <= |out| && out[at..at + |rec|] == rec
  {
    RecordAt(top, report, fmt, i);
    var rec := Record(top[i], report[top[i]], fmt);
    var pre := "[" + Records(top[..i], report, fmt);
    assert "[" + Records(top, report, fmt) + "]" == pre + rec + (Records(top[i + 1..], report, fmt) + "]");
  }

  /** Serialising fails exactly when some URL has no entry, and then names the first such URL. */
  lemma SerializedFails(top: seq<string>, report: map<string, UrlStat>, fmt: Numerals)
    ensures Serialized(top, report, fmt).Failure? <==> exists i :: 0 <= i < |top| && top[i] !in report
    ensures Serialized(top, report, fmt).Failure? ==>
      exists k :: 0 <= k < |top| && Serialized(top, report, fmt).error == MissingUrl(top[k]) &&
        top[k] !in report && forall i :: 0 <= i < k ==> top[i] in report
  {
    MissingIndexSpec(top, report);
    if MissingIndex(top, report).Some? {
      var k := MissingIndex(top, report).value;
      assert forall i :: 0 <= i < k ==> top[i] == top[..k][i];
    }
  }

  /** The test's expected shape for its two URLs, with its numbers written by `fmt`. */
  lemma SerializedTwoRecords(a: string, b: string, report: map<string, UrlStat>, fmt: Numerals)
    requires a in report && b in report
    ensures Serialized([a, b], report, fmt) ==
      Success("[" + Record(a, report[a], fmt) + Record(b, report[b], fmt) + "]")
  {
    MissingIndexSpec([a, b], report);
    var ra, rb := Record(a, report[a], fmt), Record(b, report[b], fmt);
    assert RecordList([a, b], report, fmt) == [ra, rb];
    assert [ra, rb][..1] == [ra] && [ra][..0] == [];
    assert Joined([ra, rb]) == Joined([ra]) + rb;
    assert Joined([ra]) == ra;
    assert "[" + (ra + rb) + "]" == "[" + ra + rb + "]";
  }

  /** The top list of a successful pass always serialises: every top URL has a report entry. */
  lemma StatisticSerializes(os: seq<LineOutcome>, reportSize: int, maxErrorsPercent: real, fmt: Numerals)
    requires StatisticOf(os, reportSize, maxErrorsPercent).Success?
    ensures var stat := StatisticOf(os, reportSize, maxErrorsPercent).value;
      Serialized(stat.topUrls, stat.report, fmt).Success?
  {
    StatisticTopUrls(os, reportSize, maxErrorsPercent);
    var stat := StatisticOf(os, reportSize, maxErrorsPercent).value;
    MissingIndexSpec(stat.topUrls, stat.report);
  }

  // ---------------------------------------------------------------------
  // The method

  /** `serialize_report_dict`: the text grown record by record with `+=`. */
  method SerializeReportDict(top: seq<string>, report: map<string, UrlStat>, fmt: Numerals)
    returns (r: Result<string, SerializeError>)
    ensures r == Serialized(top, report, fmt)
  {
    var out := "[";
    var i := 0;
    while i < |top|
      invariant 0 <= i <= |top|
      invariant AllReported(top[..i], report)
      invariant out == "[" + Records(top[..i], report, fmt)
    {
      var url := top[i];
      if url !in report {
        MissingIndexAt(top, report, i);
        return Failure(MissingUrl(url));
      }
      RecordsStep(top, report, fmt, i);
      out := out + Record(url, report[url], fmt);
      i := i + 1;
    }
    assert top[..|top|] == top;
    MissingIndexSpec(top, report);
    out := out + "]";
    return Success(out);
  }
}
