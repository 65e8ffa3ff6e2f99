/**
 * The log locator: recognising access-log file names, reading the calendar
 * date they carry, choosing the most recent log in a directory listing, the
 * storage kind its extension selects and the name of the report it yields.
 * The directory listing is a parameter; nothing here touches a file system.
 */
module LogLocator {
  import opened Wrappers
  import opened Digits

  /** The fixed literal every log name starts with. */
  const Prefix: string := "nginx-access-ui.log-"

  /** Length of the prefix followed by the eight-digit date token. */
  const StemLength: nat := 28

  /** Python 2's `\w` on a byte string: ASCII letters, digits and underscore. */
  predicate IsWordChar(c: char)
  {
    'a' <= c <= 'z' || 'A' <= c <= 'Z' || IsDigit(c) || c == '_'
  }

  predicate AllWordChars(s: string) { forall i :: 0 <= i < |s| ==> IsWordChar(s[i]) }

  /** What a successful search of the log-name pattern yields. */
  datatype NameMatch = NameMatch(whole: string, token: string, ext: Option<string>)

  function ExtText(ext: Option<string>): string
  {
    match ext
    case None => ""
    case Some(e) => e
  }

  /** The longest prefix of `s` made of word characters (the greedy `\w*`). */
  function WordRun(s: string): (w: string)
    ensures |w| <= |s| && w == s[..|w|] && AllWordChars(w)
    ensures |w| == |s| || !IsWordChar(s[|w|])
  {
    if s != [] && IsWordChar(s[0]) then [s[0]] + WordRun(s[1..]) else []
  }

  /**
   * The anchored pattern: the prefix, a group of eight digits, then at most one
   * group made of a dot and any run of word characters. `whole` is the matched
   * text (a prefix of the name), `ext` the optional second group.
   */
  function MatchLogName(name: string): (r: Option<NameMatch>)
  {
    if |name| >= StemLength && name[..20] == Prefix && AllDigits(name[20..StemLength]) then
      var ext := if |name| > StemLength && name[StemLength] == '.' then Some("." + WordRun(name[StemLength + 1..])) else None;
      Some(NameMatch(name[..StemLength] + ExtText(ext), name[20..StemLength], ext))
    else
      None
  }

  /**
   * What the search yields: the prefix and the eight digits are required; the
   * extension group is present exactly when a dot follows the digits, and then
   * takes every word character after it; the matched text is a prefix of the
   * name made of the prefix, the token and the extension.
   */
  lemma MatchLogNameSpec(name: string)
    ensures MatchLogName(name).Some? <==>
      |name| >= StemLength && name[..20] == Prefix && AllDigits(name[20..StemLength])
    ensures MatchLogName(name).Some? ==>
      var m := MatchLogName(name).value;
      && m.token == name[20..StemLength]
      && m.whole == Prefix + m.token + ExtText(m.ext)
      && |m.whole| <= |name| && m.whole == name[..|m.whole|]
      && (m.ext.None? <==> |name| == StemLength || name[StemLength] != '.')
    ensures MatchLogName(name).Some? && MatchLogName(name).value.ext.Some? ==>
      var m := MatchLogName(name).value;
      && m.ext.value[0] == '.' && AllWordChars(m.ext.value[1..])
      && (|m.whole| == |name| || !IsWordChar(name[|m.whole|]))
  {
    if MatchLogName(name).Some? {
      var m := MatchLogName(name).value;
      var stem := name[..StemLength];
      assert stem == name[..20] + name[20..StemLength];
      if |name| > StemLength && name[StemLength] == '.' {
        ExtensionSpan(name);
      }
    }
  }

  lemma ExtensionSpan(name: string)
    requires |name| > StemLength && name[StemLength] == '.'
    ensures var ext := "." + WordRun(name[StemLength + 1..]);
      && StemLength + |ext| <= |name|
      && name[..StemLength + |ext|] == name[..StemLength] + ext
      && (StemLength + |ext| == |name| || !IsWordChar(name[StemLength + |ext|]))
  {
    var s := name[StemLength + 1..];
    var run := WordRun(s);
    var end := StemLength + 1 + |run|;
    assert run == s[..|run|];
    assert name[..end] == name[..StemLength] + [name[StemLength]] + s[..|run|];
    if end < |name| {
      assert name[end] == s[|run|];
    }
  }

  /** A calendar date as `datetime.strptime` builds it. */
  datatype Date = Date(year: nat, month: nat, day: nat)

  predicate IsLeapYear(y: nat)
  {
    y % 4 == 0 && (y % 100 != 0 || y % 400 == 0)
  }

  function DaysInMonth(y: nat, m: nat): nat
    requires 1 <= m <= 12
  {
    if m == 2 then (if IsLeapYear(y) then 29 else 28)
    else if m == 4 || m == 6 || m == 9 || m == 11 then 30
    else 31
  }

  /** A date the proleptic Gregorian calendar of `datetime` admits. */
  predicate ValidDate(d: Date)
  {
    1 <= d.year <= 9999 && 1 <= d.month <= 12 && 1 <= d.day <= DaysInMonth(d.year, d.month)
  }

  /** The eight-digit token written back by `%Y%m%d`. */
  function DateToken(d: Date): string
  {
    Pad(d.year, 4) + Pad(d.month, 2) + Pad(d.day, 2)
  }

  /**
   * `strptime(token, '%Y%m%d')` on an eight-digit token: the first four digits
   * are the year, the next two the month, the last two the day; a token that
   * does not form an existing date is a ValueError, here None.
   */
  function ParseDate(token: string): (r: Option<Date>)
    requires |token| == 8 && AllDigits(token)
  {
    var d := Date(DigitsValue(token[..4]), DigitsValue(token[4..6]), DigitsValue(token[6..]));
    if ValidDate(d) then Some(d) else None
  }

  /** A token that parses is exactly the `%Y%m%d` rendering of its date. */
  lemma ParseDateRoundTrip(token: string)
    requires |token| == 8 && AllDigits(token)
    ensures ParseDate(token).Some? ==> ValidDate(ParseDate(token).value) && DateToken(ParseDate(token).value) == token
  {
    var d := Date(DigitsValue(token[..4]), DigitsValue(token[4..6]), DigitsValue(token[6..]));
    if ValidDate(d) {
      TokenFields(token);
    }
  }

  /** The three fields of an eight-digit token, read and written back zero-padded, give the token. */
  lemma TokenFields(token: string)
    requires |token| == 8 && AllDigits(token)
    ensures Pad(DigitsValue(token[..4]), 4) + Pad(DigitsValue(token[4..6]), 2) + Pad(DigitsValue(token[6..]), 2) == token
  {
    DigitsRoundTrip(token[..4]);
    DigitsRoundTrip(token[4..6]);
    DigitsRoundTrip(token[6..]);
    assert token[..4] + token[4..6] + token[6..] == token;
  }

  /** Every valid date is read back from the token it prints as. */
  lemma ParseDateToken(d: Date)
    requires ValidDate(d)
    ensures |DateToken(d)| == 8 && AllDigits(DateToken(d))
    ensures ParseDate(DateToken(d)) == Some(d)
  {
    var t := DateToken(d);
    assert t[..4] == Pad(d.year, 4) && t[4..6] == Pad(d.month, 2) && t[6..] == Pad(d.day, 2);
    PadRoundTrip(d.year, 4);
    PadRoundTrip(d.month, 2);
    PadRoundTrip(d.day, 2);
  }

  /** The strict chronological order `datetime` compares by. */
  predicate Before(a: Date, b: Date)
  {
    a.year < b.year || (a.year == b.year && (a.month < b.month || (a.month == b.month && a.day < b.day)))
  }

  /** Chronological order of parsed dates is the numeric order of their tokens. */
  lemma {:induction false} BeforeIsTokenOrder(t1: string, t2: string)
    requires |t1| == 8 && AllDigits(t1) && ParseDate(t1).Some?
    requires |t2| == 8 && AllDigits(t2) && ParseDate(t2).Some?
    ensures Before(ParseDate(t1).value, ParseDate(t2).value) <==> DigitsValue(t1) < DigitsValue(t2)
  {
    TokenValue(t1);
    TokenValue(t2);
  }

  lemma TokenValue(t: string)
    requires |t| == 8 && AllDigits(t)
    ensures DigitsValue(t) == DigitsValue(t[..4]) * 10000 + DigitsValue(t[4..6]) * 100 + DigitsValue(t[6..])
  {
    var y, m, d := DigitsValue(t[..4]), DigitsValue(t[4..6]), DigitsValue(t[6..]);
    assert t == (t[..4] + t[4..6]) + t[6..];
    assert Pow10(2) == 100;
    DigitsValueConcat(t[..4], t[4..6]);
    assert DigitsValue(t[..4] + t[4..6]) == y * 100 + m;
    DigitsValueConcat(t[..4] + t[4..6], t[6..]);
    assert DigitsValue(t) == (y * 100 + m) * 100 + d;
  }

  /** The located log: the matched name, its date and its optional extension. */
  datatype LogFile = LogFile(name: string, date: Date, ext: Option<string>)

  /**
   * What one directory entry is to the search: not a log name, a log name whose
   * date token is no date (this aborts the whole search), or a dated log.
   */
  datatype Entry = NotALog | CorruptDate | Dated(file: LogFile)

  function Classify(name: string): Entry
  {
    match MatchLogName(name)
    case None => NotALog
    case Some(m) =>
      match ParseDate(m.token)
      case None => CorruptDate
      case Some(d) => Dated(LogFile(m.whole, d, m.ext))
  }

  /** The classification of every entry of a listing, in listing order. */
  function Entries(files: seq<string>): seq<Entry>
  {
    Map(Classify, files)
  }

  /**
   * `es[k]` holds the latest date among the dated entries of `es[..n]`, and
   * every dated entry before it holds a strictly earlier date.
   */
  ghost predicate LatestAmong(es: seq<Entry>, n: nat, k: nat)
    requires n <= |es|
  {
    && k < n && es[k].Dated?
    && (forall j :: 0 <= j < n && es[j].Dated? ==> !Before(es[k].file.date, es[j].file.date))
    && (forall j :: 0 <= j < k && es[j].Dated? ==> Before(es[j].file.date, es[k].file.date))
  }

  /**
   * `get_recent_log` over the directory listing `files`, in listing order.
   * No log name at all, or a corrupt date anywhere, gives None; otherwise the
   * result is the first listed log with the latest date.
   */
  method GetRecentLog(files: seq<string>) returns (r: Option<LogFile>)
    ensures var es := Entries(files);
      r.None? <==>
        (forall i :: 0 <= i < |files| ==> es[i].NotALog?) ||
        (exists i :: 0 <= i < |files| && es[i].CorruptDate?)
    ensures var es := Entries(files);
      r.Some? ==> exists k: nat :: LatestAmong(es, |files|, k) && r == Some(es[k].file)
  {
    ghost var es := Entries(files);
    if |files| == 0 {
      return None;
    }
    var recent: Option<LogFile> := None;
    ghost var at: nat := 0;
    var i := 0;
    while i < |files|
      invariant 0 <= i <= |files|
      invariant forall j :: 0 <= j < i ==> !es[j].CorruptDate?
      invariant recent.None? <==> forall j :: 0 <= j < i ==> es[j].NotALog?
      invariant recent.Some? ==> LatestAmong(es, i, at) && recent == Some(es[at].file)
    {
      var entry := ClassifyAt(files, i);
      match entry {
        case NotALog =>
        case CorruptDate =>
          return None;
        case Dated(file) =>
          if recent.None? || Before(recent.value.date, file.date) {
            recent := Some(file);
            at := i;
          }
      }
      i := i + 1;
    }
    assert i == |files|;
    assert !exists j :: 0 <= j < |files| && es[j].CorruptDate?;
    if recent.Some? {
      assert LatestAmong(es, |files|, at) && !es[at].NotALog?;
    } else {
      assert forall j :: 0 <= j < |files| ==> es[j].NotALog?;
    }
    assert es == Entries(files);
    assert recent.None? <==> (forall j :: 0 <= j < |files| ==> es[j].NotALog?) || (exists j :: 0 <= j < |files| && es[j].CorruptDate?);
    return recent;
  }

  /** Recognises the `i`-th name of the listing and parses its date. */
  method ClassifyAt(files: seq<string>, i: nat) returns (e: Entry)
    requires i < |files|
    ensures e == Entries(files)[i]
  {
    MapAt(Classify, files, i);
    e := Classify(files[i]);
  }

  /** The directory listing of the repository's test fixture. */
  method LocateTestFixture() returns (r: Option<LogFile>)
    ensures r == Some(LogFile("nginx-access-ui.log-20170720", Date(2017, 7, 20), None))
  {
    var files := ["nginx-access-ui.log-20170630", "nginx-access-ui.log-20170720"];
    FixtureEntries(files);
    r := GetRecentLog(files);
    ghost var es := Entries(files);
    assert !es[1].NotALog? && !es[0].CorruptDate? && !es[1].CorruptDate?;
    assert Before(es[0].file.date, es[1].file.date);
    assert forall k: nat :: LatestAmong(es, 2, k) ==> k == 1;
  }

  lemma FixtureEntries(files: seq<string>)
    requires files == ["nginx-access-ui.log-20170630", "nginx-access-ui.log-20170720"]
    ensures Entries(files) == [Dated(LogFile(files[0], Date(2017, 6, 30), None)), Dated(LogFile(files[1], Date(2017, 7, 20), None))]
  {
    MapAt(Classify, files, 0);
    MapAt(Classify, files, 1);
    JuneFixture();
    JulyFixture();
  }

  lemma JuneFixture()
    ensures Classify("nginx-access-ui.log-20170630") == Dated(LogFile("nginx-access-ui.log-20170630", Date(2017, 6, 30), None))
  {
    FixtureToken(2017, 6, 30, "20170630");
    assert "nginx-access-ui.log-20170630" == Prefix + "20170630";
    DatedFixture("nginx-access-ui.log-20170630", Date(2017, 6, 30));
  }

  lemma JulyFixture()
    ensures Classify("nginx-access-ui.log-20170720") == Dated(LogFile("nginx-access-ui.log-20170720", Date(2017, 7, 20), None))
  {
    FixtureToken(2017, 7, 20, "20170720");
    assert "nginx-access-ui.log-20170720" == Prefix + "20170720";
    DatedFixture("nginx-access-ui.log-20170720", Date(2017, 7, 20));
  }

  lemma FixtureToken(y: nat, m: nat, d: nat, token: string)
    requires y == 2017 && 1 <= m <= 9 && 10 <= d <= 31
    requires token == ['2', '0', '1', '7', '0', DigitChar(m), DigitChar(d / 10), DigitChar(d % 10)]
    ensures DateToken(Date(y, m, d)) == token
  {
    assert Pad(y, 4) == "2017";
    assert Pad(m, 2) == ['0', DigitChar(m)];
    assert Pad(d, 2) == [DigitChar(d / 10), DigitChar(d % 10)];
  }

  lemma DatedFixture(name: string, d: Date)
    requires ValidDate(d) && name == Prefix + DateToken(d)
    ensures Classify(name) == Dated(LogFile(name, d, None))
  {
    ParseDateToken(d);
    assert name[..20] == Prefix && name[20..StemLength] == DateToken(d);
    assert name[..StemLength] == name;
  }

  /** How `read_log` opens a file: gzip only for exactly the extension `.gz`. */
  datatype Storage = Gzip | PlainText

  function StorageFor(ext: Option<string>): Storage
  {
    if ext == Some(".gz") then Gzip else PlainText
  }

  /**
   * A log name selects gzip storage exactly when `.gz` follows the date token
   * and is not continued by a word character (`.gz.1` still does, `.gzip` does not).
   */
  lemma GzipOnlyForGzName(name: string)
    requires MatchLogName(name).Some?
    ensures StorageFor(MatchLogName(name).value.ext) == Gzip <==> IsGzName(name)
  {
    if IsGzName(name) {
      GzNameSelectsGzip(name);
    }
    if StorageFor(MatchLogName(name).value.ext) == Gzip {
      GzipComesFromGzName(name);
    }
  }

  /** `.gz` right after the date token, not continued by a word character. */
  predicate IsGzName(name: string)
  {
    |name| >= StemLength + 3 && name[StemLength..StemLength + 3] == ".gz" &&
    (|name| == StemLength + 3 || !IsWordChar(name[StemLength + 3]))
  }

  lemma GzNameSelectsGzip(name: string)
    requires MatchLogName(name).Some? && IsGzName(name)
    ensures MatchLogName(name).value.ext == Some(".gz")
  {
    var g := name[StemLength..StemLength + 3];
    assert g[0] == '.' && g[1] == 'g' && g[2] == 'z';
    var s := name[StemLength + 1..];
    assert s[0] == g[1] && s[1] == g[2];
    assert |s| == 2 || s[2] == name[StemLength + 3];
    GzRun(s);
    assert "." + WordRun(s) == ".gz";
  }

  /** The word run of a text that starts with `gz` and no further word character. */
  lemma GzRun(s: string)
    requires |s| >= 2 && s[0] == 'g' && s[1] == 'z' && (|s| == 2 || !IsWordChar(s[2]))
    ensures WordRun(s) == "gz"
  {
    var run := WordRun(s);
    assert |run| >= 2;
    assert |run| == 2;
  }

  lemma GzipComesFromGzName(name: string)
    requires MatchLogName(name).Some? && MatchLogName(name).value.ext == Some(".gz")
    ensures IsGzName(name)
  {
    assert |name| > StemLength && name[StemLength] == '.';
    var s := name[StemLength + 1..];
    var run := WordRun(s);
    assert "." + run == ".gz";
    assert run == ".gz"[1..] == "gz";
    assert s[..2] == "gz";
    assert name[StemLength..StemLength + 3] == [name[StemLength]] + s[..2];
  }

  /**
   * `"report-{}.html".format(date.strftime("%Y.%m.%d"))`. Python 2.7's strftime
   * refuses years before 1900 with a ValueError, here None.
   */
  function ReportName(d: Date): (r: Option<string>)
    requires ValidDate(d)
    ensures r.Some? <==> d.year >= 1900
    ensures r.Some? ==> |r.value| == 22
  {
    if d.year < 1900 then None
    else Some("report-" + Pad(d.year, 4) + "." + Pad(d.month, 2) + "." + Pad(d.day, 2) + ".html")
  }

  /** The report name spells the log's own date token, dotted. */
  lemma ReportNameSpellsToken(name: string)
    requires Classify(name).Dated? && Classify(name).file.date.year >= 1900
    ensures var t := name[20..StemLength];
      ReportName(Classify(name).file.date) == Some("report-" + t[..4] + "." + t[4..6] + "." + t[6..] + ".html")
  {
    var d := Classify(name).file.date;
    var t := name[20..StemLength];
    ParseDateRoundTrip(t);
    assert t == Pad(d.year, 4) + Pad(d.month, 2) + Pad(d.day, 2);
    assert t[..4] == Pad(d.year, 4) && t[4..6] == Pad(d.month, 2) && t[6..] == Pad(d.day, 2);
  }

  /** Distinct log dates never share a report name. */
  lemma ReportNameInjective(a: Date, b: Date)
    requires ValidDate(a) && ValidDate(b)
    requires ReportName(a).Some? && ReportName(a) == ReportName(b)
    ensures a == b
  {
    ReportNameFields(a);
    ReportNameFields(b);
  }

  /** The date read back from the report name's digit fields. */
  lemma ReportNameFields(d: Date)
    requires ValidDate(d) && ReportName(d).Some?
    ensures var s := ReportName(d).value;
      DigitsValue(s[7..11]) == d.year && DigitsValue(s[12..14]) == d.month && DigitsValue(s[15..17]) == d.day
  {
    var s := ReportName(d).value;
    assert s[7..11] == Pad(d.year, 4) && s[12..14] == Pad(d.month, 2) && s[15..17] == Pad(d.day, 2);
    PadRoundTrip(d.year, 4);
    PadRoundTrip(d.month, 2);
    PadRoundTrip(d.day, 2);
  }
}
