/**
 * The top-N selection of the report: URLs sorted by total request time,
 * largest first (a stable sort), then cut with Python's `[:report_size]`.
 */
module Ranking {

  /** Every URL of `s` has a total time in `key`. */
  predicate Keyed(s: seq<string>, key: map<string, real>)
  {
    forall i :: 0 <= i < |s| ==> s[i] in key
  }

  /** Non-increasing by total time. */
  predicate Ranked(s: seq<string>, key: map<string, real>)
    requires Keyed(s, key)
  {
    forall i, j :: 0 <= i <= j < |s| ==> key[s[i]] >= key[s[j]]
  }

  predicate Distinct(s: seq<string>)
  {
    forall i, j :: 0 <= i < j < |s| ==> s[i] != s[j]
  }

  /** Puts `u` in front of the first URL whose total is not larger, so it stays ahead of later ties. */
  function InsertRanked(u: string, s: seq<string>, key: map<string, real>): (r: seq<string>)
    requires u in key && Keyed(s, key)
    ensures Keyed(r, key) && |r| == |s| + 1
  {
    if s == [] || key[u] >= key[s[0]] then
      [u] + s
    else
      var r := [s[0]] + InsertRanked(u, s[1..], key);
      assert r[1..] == InsertRanked(u, s[1..], key);
      r
  }

  /** Inserting into a ranked list keeps it ranked and adds `u` once. */
  lemma InsertRankedSpec(u: string, s: seq<string>, key: map<string, real>)
    requires u in key && Keyed(s, key) && Ranked(s, key)
    ensures Ranked(InsertRanked(u, s, key), key)
    ensures multiset(InsertRanked(u, s, key)) == multiset(s) + multiset{u}
  {
    InsertRankedOrder(u, s, key);
    InsertRankedElements(u, s, key);
  }

  /** The head of the result is `u` or the old head, so every key after it is at most the larger of the two. */
  lemma {:induction false} InsertRankedOrder(u: string, s: seq<string>, key: map<string, real>)
    requires u in key && Keyed(s, key) && Ranked(s, key)
    ensures Ranked(InsertRanked(u, s, key), key)
    ensures InsertRanked(u, s, key)[0] == if s == [] || key[u] >= key[s[0]] then u else s[0]
    ensures forall i :: 0 <= i < |InsertRanked(u, s, key)| ==> InsertRanked(u, s, key)[i] == u || InsertRanked(u, s, key)[i] in s
  {
    if s != [] && key[u] < key[s[0]] {
      var rest := InsertRanked(u, s[1..], key);
      InsertRankedOrder(u, s[1..], key);
      var r := [s[0]] + rest;
      assert r[1..] == rest;
      assert forall i :: 1 <= i < |r| ==> r[i] == rest[i - 1];
      assert forall i :: 0 <= i < |rest| ==> key[s[0]] >= key[rest[i]];
    }
  }

  lemma {:induction false} InsertRankedElements(u: string, s: seq<string>, key: map<string, real>)
    requires u in key && Keyed(s, key)
    ensures multiset(InsertRanked(u, s, key)) == multiset(s) + multiset{u}
  {
    if s != [] && key[u] < key[s[0]] {
      InsertRankedElements(u, s[1..], key);
      var r := [s[0]] + InsertRanked(u, s[1..], key);
      assert r[1..] == InsertRanked(u, s[1..], key);
      assert s == [s[0]] + s[1..];
    }
  }

  /** `sorted(urls, key=time_sum, reverse=True)`, ties kept in the order of `urls`. */
  function Rank(urls: seq<string>, key: map<string, real>): (r: seq<string>)
    requires Keyed(urls, key)
    ensures Keyed(r, key) && |r| == |urls|
  {
    if urls == [] then [] else InsertRanked(urls[0], Rank(urls[1..], key), key)
  }

  /** The ranking is non-increasing by total and holds exactly the given URLs. */
  lemma {:induction false} RankSpec(urls: seq<string>, key: map<string, real>)
    requires Keyed(urls, key)
    ensures Ranked(Rank(urls, key), key)
    ensures multiset(Rank(urls, key)) == multiset(urls)
  {
    if urls != [] {
      RankSpec(urls[1..], key);
      InsertRankedSpec(urls[0], Rank(urls[1..], key), key);
      assert urls == [urls[0]] + urls[1..];
    }
  }

  /** Python's `s[:n]`: a negative `n` counts from the end. */
  function PyPrefix<T>(s: seq<T>, n: int): (r: seq<T>)
  {
    if n >= 0 then
      (if n <= |s| then s[..n] else s)
    else
      (if |s| + n >= 0 then s[..|s| + n] else [])
  }

  /** The length `s[:n]` has in Python. */
  function PrefixLength(len: nat, n: int): nat
  {
    if n >= 0 then (if n <= len then n else len)
    else (if len + n >= 0 then len + n else 0)
  }

  /** `sorted(report, key=lambda u: report[u]["time_sum"], reverse=True)[:report_size]`. */
  function TopUrls(urls: seq<string>, key: map<string, real>, reportSize: int): (top: seq<string>)
    requires Keyed(urls, key)
  {
    PyPrefix(Rank(urls, key), reportSize)
  }

  lemma PyPrefixLength<T>(s: seq<T>, n: int)
    ensures |PyPrefix(s, n)| == PrefixLength(|s|, n)
    ensures PyPrefix(s, n) == s[..|PyPrefix(s, n)|]
  {
  }

  lemma DistinctOfMultiset(a: seq<string>, b: seq<string>)
    requires multiset(a) == multiset(b) && Distinct(b)
    ensures Distinct(a)
  {
    forall i, j | 0 <= i < j < |a|
      ensures a[i] != a[j]
    {
      if a[i] == a[j] {
        var x := a[i];
        assert a == a[..i] + [x] + a[i + 1..j] + [x] + a[j + 1..];
        assert multiset(a)[x] >= 2;
        CountAtMostOne(b, x);
      }
    }
  }

  lemma {:induction false} CountAtMostOne(b: seq<string>, x: string)
    requires Distinct(b)
    ensures multiset(b)[x] <= 1
  {
    if b != [] {
      assert b == [b[0]] + b[1..];
      CountAtMostOne(b[1..], x);
      if b[0] == x {
        assert x !in b[1..];
      }
    }
  }

  /**
   * `top_urls` holds distinct URLs of the report, as many as the slice
   * rule allows, largest total first, and no URL left out has a larger
   * total than one kept.
   */
  lemma TopUrlsSpec(urls: seq<string>, key: map<string, real>, reportSize: int)
    requires Keyed(urls, key) && Distinct(urls)
    ensures var top := TopUrls(urls, key, reportSize);
      && |top| == PrefixLength(|urls|, reportSize)
      && Distinct(top)
      && (forall i :: 0 <= i < |top| ==> top[i] in urls)
      && Keyed(top, key) && Ranked(top, key)
      && (forall u, i :: u in urls && u !in top && 0 <= i < |top| ==> key[u] <= key[top[i]])
  {
    var ranked := Rank(urls, key);
    var top := TopUrls(urls, key, reportSize);
    RankSpec(urls, key);
    PyPrefixLength(ranked, reportSize);
    DistinctOfMultiset(ranked, urls);
    forall i | 0 <= i < |top|
      ensures top[i] in urls
    {
      assert top[i] == ranked[i];
      assert ranked[i] in multiset(ranked);
    }
    forall u, i | u in urls && u !in top && 0 <= i < |top|
      ensures key[u] <= key[top[i]]
    {
      assert u in multiset(ranked);
      var k :| 0 <= k < |ranked| && ranked[k] == u;
      assert k >= |top|;
    }
  }

  /** With enough room every URL is reported: the top list is the whole ranking. */
  lemma TopUrlsKeepsAll(urls: seq<string>, key: map<string, real>, reportSize: int)
    requires Keyed(urls, key) && reportSize >= |urls|
    ensures multiset(TopUrls(urls, key, reportSize)) == multiset(urls)
  {
    var ranked := Rank(urls, key);
    RankSpec(urls, key);
    assert ranked[..|ranked|] == ranked;
    assert TopUrls(urls, key, reportSize) == ranked;
  }

  /** The test's pair: the 0.39-second URL is listed before the 0.133-second one. */
  lemma TopUrlsExample()
    ensures var banner := "/api/v2/banner/25019354";
      var photo := "/api/1/photogenic_banners/list/?server_name=WIN7RB4";
      TopUrls([photo, banner], map[banner := 0.39, photo := 0.133], 2) == [banner, photo]
  {
    var banner := "/api/v2/banner/25019354";
    var photo := "/api/1/photogenic_banners/list/?server_name=WIN7RB4";
    var key := map[banner := 0.39, photo := 0.133];
    assert Rank([photo], key) == [photo];
    assert [photo, banner][1..] == [banner];
  }
}
