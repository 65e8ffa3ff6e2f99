/**
 * The access-log line format: a hand-written recogniser for the pattern
 * `"[A-Z]+\s(?P<url>\S+)\s.+"\s(?P<time>\S+)$` under Python 2 `re.search`
 * semantics, and `float()` on the extracted time token.
 */
module LineFormat {
  import opened Wrappers
  import opened Digits

  /** Python 2's `\s` without the UNICODE flag: space, tab, LF, VT, FF, CR. */
  predicate IsSpace(c: char) { c == ' ' || 9 <= c as int <= 13 }

  predicate IsUpper(c: char) { 'A' <= c <= 'Z' }

  predicate NoSpace(s: string) { forall i :: 0 <= i < |s| ==> !IsSpace(s[i]) }

  predicate NoNewline(s: string) { forall i :: 0 <= i < |s| ==> s[i] != '\n' }

  predicate NoQuote(s: string) { forall i :: 0 <= i < |s| ==> s[i] != '"' }

  predicate AllUpper(s: string) { forall i :: 0 <= i < |s| ==> IsUpper(s[i]) }

  /** End of the longest run of upper-case letters from `i` (the greedy `[A-Z]+`). */
  function UpperEnd(s: string, i: nat): (j: nat)
    requires i <= |s|
    ensures i <= j <= |s|
    ensures forall k :: i <= k < j ==> IsUpper(s[k])
    ensures j == |s| || !IsUpper(s[j])
    decreases |s| - i
  {
    if i < |s| && IsUpper(s[i]) then UpperEnd(s, i + 1) else i
  }

  /** End of the longest run of non-space characters from `i` (the greedy `\S+`). */
  function TokenEnd(s: string, i: nat): (j: nat)
    requires i <= |s|
    ensures i <= j <= |s|
    ensures forall k :: i <= k < j ==> !IsSpace(s[k])
    ensures j == |s| || IsSpace(s[j])
    decreases |s| - i
  {
    if i < |s| && !IsSpace(s[i]) then TokenEnd(s, i + 1) else i
  }

  /** Where `$` lets the match end: before a final newline, otherwise at the very end. */
  function LineEnd(s: string): (e: nat)
    ensures e <= |s|
  {
    if |s| > 0 && s[|s| - 1] == '\n' then |s| - 1 else |s|
  }

  /** The last whitespace position before `e`. */
  function LastSpaceBefore(s: string, e: nat): (r: Option<nat>)
    requires e <= |s|
    ensures r.Some? ==> r.value < e && IsSpace(s[r.value]) && forall k :: r.value < k < e ==> !IsSpace(s[k])
    ensures r.None? ==> forall k :: 0 <= k < e ==> !IsSpace(s[k])
  {
    if e == 0 then None
    else if IsSpace(s[e - 1]) then Some(e - 1)
    else LastSpaceBefore(s, e - 1)
  }

  /**
   * Where `(?P<time>\S+)$` starts: right after the last whitespace of the
   * line, which must be preceded by a quote. The line alone fixes it.
   */
  function TimeStart(s: string): (r: Option<nat>)
    ensures r.Some? ==> 2 <= r.value < LineEnd(s) && s[r.value - 2] == '"' && IsSpace(s[r.value - 1])
    ensures r.Some? ==> forall k :: r.value <= k < LineEnd(s) ==> !IsSpace(s[k])
  {
    var e := LineEnd(s);
    match LastSpaceBefore(s, e)
    case None => None
    case Some(w) => if 1 <= w && w + 1 < e && s[w - 1] == '"' then Some(w + 1) else None
  }

  /**
   * The time part `"\s(?P<time>\S+)$` read as the regular expression reads
   * it: the group starts at `t`, after a quote and one whitespace character,
   * and runs without whitespace to where `$` may end the match.
   */
  predicate TimeGroup(s: string, t: nat)
  {
    2 <= t < LineEnd(s) && s[t - 2] == '"' && IsSpace(s[t - 1]) && NoSpace(s[t..LineEnd(s)])
  }

  /** `TimeStart` finds `t` exactly when the time part of the pattern can start its group there. */
  lemma TimeStartMatch(s: string, t: nat)
    ensures TimeStart(s) == Some(t) <==> TimeGroup(s, t)
  {
    var e := LineEnd(s);
    if TimeStart(s) == Some(t) {
      var g := s[t..e];
      forall i | 0 <= i < |g| ensures !IsSpace(g[i]) {
        assert g[i] == s[t + i];
      }
    }
    if TimeGroup(s, t) {
      forall k | t <= k < e ensures !IsSpace(s[k]) {
        assert s[k] == s[t..e][k - t];
      }
      LastSpaceAt(s, e, t - 1);
    }
  }

  /** A whitespace character followed by none up to `e` is the last one before `e`. */
  lemma {:induction false} LastSpaceAt(s: string, e: nat, w: nat)
    requires w < e <= |s| && IsSpace(s[w])
    requires forall k :: w < k < e ==> !IsSpace(s[k])
    ensures LastSpaceBefore(s, e) == Some(w)
    decreases e
  {
    if w < e - 1 {
      LastSpaceAt(s, e - 1, w);
    }
  }

  /**
   * The request part `"[A-Z]+\s(?P<url>\S+)\s.+` tried at position `p`, with
   * the closing quote at `c`: the url when it matches there.
   */
  function RequestAt(s: string, p: nat, c: nat): (r: Option<string>)
    requires c <= |s|
    ensures r.Some? ==> |r.value| > 0 && NoSpace(r.value)
  {
    if p < |s| && s[p] == '"' then
      var q := UpperEnd(s, p + 1);
      if p + 1 < q < |s| && IsSpace(s[q]) then
        var u := TokenEnd(s, q + 1);
        if q + 1 < u && u + 2 <= c && IsSpace(s[u]) && NoNewline(s[u + 1..c]) then Some(s[q + 1..u]) else None
      else
        None
    else
      None
  }

  /**
   * The request part read as the regular expression reads it, backtracking
   * included: a quote at `p`, upper-case letters up to the whitespace at `q`,
   * the url, one whitespace character, then at least one character other
   * than a newline up to the closing quote at `c`.
   */
  predicate RequestMatch(s: string, p: nat, q: nat, url: string, c: nat)
  {
    && p + 1 < q && q + 1 + |url| + 2 <= c <= |s|
    && s[p] == '"' && AllUpper(s[p + 1..q]) && IsSpace(s[q])
    && |url| > 0 && NoSpace(url) && s[q + 1..q + 1 + |url|] == url
    && IsSpace(s[q + 1 + |url|]) && NoNewline(s[q + 2 + |url|..c])
  }

  /** `re.search`: the leftmost start position at which the request part matches. */
  function FirstRequest(s: string, p: nat, c: nat): (r: Option<string>)
    requires c <= |s|
    ensures r.Some? ==> |r.value| > 0 && NoSpace(r.value)
    decreases if p < c then c - p else 0
  {
    if p >= c then None
    else
      match RequestAt(s, p, c)
      case Some(url) => Some(url)
      case None => FirstRequest(s, p + 1, c)
  }

  /** The `(url, time)` groups of the line pattern, or None when the line does not match. */
  function Extract(s: string): Option<(string, string)>
  {
    match TimeStart(s)
    case None => None
    case Some(ts) =>
      match FirstRequest(s, 0, ts - 2)
      case None => None
      case Some(url) => Some((url, s[ts..LineEnd(s)]))
  }

  /**
   * A match yields a non-empty url and a non-empty time token, neither with
   * whitespace, and the time token is the end of the line (before a final
   * newline), preceded by a quote and one whitespace character.
   */
  lemma ExtractSpec(s: string)
    ensures var r := Extract(s);
      && (r.Some? ==> |r.value.0| > 0 && NoSpace(r.value.0))
      && (r.Some? ==> |r.value.1| > 0 && NoSpace(r.value.1))
      && (r.Some? ==> var e := LineEnd(s);
            |r.value.1| + 2 <= e && s[e - |r.value.1|..e] == r.value.1 &&
            IsSpace(s[e - |r.value.1| - 1]) && s[e - |r.value.1| - 2] == '"')
      && (r.Some? ==> var c := LineEnd(s) - |r.value.1| - 2;
            exists p, q :: RequestMatch(s, p, q, r.value.0, c) && NoMatchBefore(s, p, c))
  {
    if Extract(s).Some? {
      var ts := TimeStart(s).value;
      var c := ts - 2;
      var url := Extract(s).value.0;
      var p := FirstRequestWitness(s, 0, c);
      var q := RequestAtVerb(s, p, c);
      forall k, q', url' | k < p
        ensures !RequestMatch(s, k, q', url', c)
      {
        RequestAtMatch(s, k, c, url');
      }
    }
  }

  /** The position at which `FirstRequest` found its match, and no match before it. */
  lemma {:induction false} FirstRequestWitness(s: string, start: nat, c: nat) returns (p: nat)
    requires c <= |s| && FirstRequest(s, start, c).Some?
    ensures start <= p < c && RequestAt(s, p, c) == FirstRequest(s, start, c)
    ensures forall k :: start <= k < p ==> RequestAt(s, k, c).None?
    decreases c - start
  {
    if RequestAt(s, start, c).Some? {
      p := start;
    } else {
      p := FirstRequestWitness(s, start + 1, c);
    }
  }

  /**
   * The whole line pattern matches: the request part at `p`, with its verb
   * ending at `q` and its url `url`, closed by the quote before the time group
   * at `t`.
   */
  predicate LineMatch(s: string, p: nat, q: nat, url: string, t: nat)
  {
    TimeGroup(s, t) && RequestMatch(s, p, q, url, t - 2)
  }

  /** No request part closed by the quote at `c` starts before `p`. */
  ghost predicate NoMatchBefore(s: string, p: nat, c: nat)
  {
    forall k: nat, q: nat, url :: k < p ==> !RequestMatch(s, k, q, url, c)
  }

  /**
   * A line the pattern matches is recognised: its time group is the one the
   * match uses, and when no request part starts further left, its url too.
   */
  lemma ExtractComplete(s: string, p: nat, q: nat, url: string, t: nat)
    requires LineMatch(s, p, q, url, t)
    ensures Extract(s).Some? && Extract(s).value.1 == s[t..LineEnd(s)]
    ensures NoMatchBefore(s, p, t - 2) ==> Extract(s).value.0 == url
  {
    TimeStartMatch(s, t);
    RequestComplete(s, p, q, url, t - 2);
  }

  /** `re.search` finds a request part once one matches, and the leftmost one is what it finds. */
  lemma RequestComplete(s: string, p: nat, q: nat, url: string, c: nat)
    requires RequestMatch(s, p, q, url, c)
    ensures FirstRequest(s, 0, c).Some?
    ensures NoMatchBefore(s, p, c) ==> FirstRequest(s, 0, c) == Some(url)
  {
    MatchRequestAt(s, p, q, url, c);
    FirstRequestFinds(s, 0, c, p);
    if NoMatchBefore(s, p, c) {
      NoRequestBefore(s, p, c);
    }
  }

  /** Where no request part of the pattern starts, `RequestAt` finds none. */
  lemma NoRequestBefore(s: string, p: nat, c: nat)
    requires c <= |s| && NoMatchBefore(s, p, c)
    ensures forall k :: 0 <= k < p ==> RequestAt(s, k, c).None?
  {
    forall k | 0 <= k < p ensures RequestAt(s, k, c).None? {
      if RequestAt(s, k, c).Some? {
        var q := RequestAtVerb(s, k, c);
        assert false;
      }
    }
  }

  /** `Extract` recognises a line exactly when the line pattern matches it. */
  lemma ExtractMatches(s: string)
    ensures Extract(s).Some? <==> exists p, q, url, t :: LineMatch(s, p, q, url, t)
  {
    if Extract(s).Some? {
      var t := TimeStart(s).value;
      TimeStartMatch(s, t);
      var p := FirstRequestWitness(s, 0, t - 2);
      var q := RequestAtVerb(s, p, t - 2);
      assert LineMatch(s, p, q, Extract(s).value.0, t);
    }
    if exists p, q, url, t :: LineMatch(s, p, q, url, t) {
      var p, q, url, t :| LineMatch(s, p, q, url, t);
      ExtractComplete(s, p, q, url, t);
    }
  }

  /** `FirstRequest` finds a url once the request part matches at or after `start`: the one at `p` when none matches earlier. */
  lemma {:induction false} FirstRequestFinds(s: string, start: nat, c: nat, p: nat)
    requires c <= |s| && start <= p && RequestAt(s, p, c).Some?
    ensures FirstRequest(s, start, c).Some?
    ensures (forall k :: start <= k < p ==> RequestAt(s, k, c).None?) ==> FirstRequest(s, start, c) == RequestAt(s, p, c)
    decreases p - start
  {
    if start < p && RequestAt(s, start, c).None? {
      FirstRequestFinds(s, start + 1, c, p);
    }
  }

  /** `RequestAt` finds a url at `p` exactly when the regular expression matches there with that url. */
  lemma RequestAtMatch(s: string, p: nat, c: nat, url: string)
    requires c <= |s|
    ensures RequestAt(s, p, c) == Some(url) <==> exists q :: RequestMatch(s, p, q, url, c)
  {
    if RequestAt(s, p, c) == Some(url) {
      var q := RequestAtVerb(s, p, c);
    }
    if q: nat :| RequestMatch(s, p, q, url, c) {
      MatchRequestAt(s, p, q, url, c);
    }
  }

  /** A url found by `RequestAt` comes from a match whose verb ends at `q`. */
  lemma RequestAtVerb(s: string, p: nat, c: nat) returns (q: nat)
    requires c <= |s| && RequestAt(s, p, c).Some?
    ensures RequestMatch(s, p, q, RequestAt(s, p, c).value, c)
  {
    q := UpperEnd(s, p + 1);
    var u := TokenEnd(s, q + 1);
    var verb := s[p + 1..q];
    forall i | 0 <= i < |verb| ensures IsUpper(verb[i]) {
      assert verb[i] == s[p + 1 + i];
    }
    assert RequestAt(s, p, c).value == s[q + 1..u];
  }

  /** Every match of the regular expression at `p` is the one `RequestAt` finds. */
  lemma MatchRequestAt(s: string, p: nat, q: nat, url: string, c: nat)
    requires RequestMatch(s, p, q, url, c)
    ensures RequestAt(s, p, c) == Some(url)
  {
    var u := q + 1 + |url|;
    forall k | p + 1 <= k < q ensures IsUpper(s[k]) {
      assert s[k] == s[p + 1..q][k - (p + 1)];
    }
    forall k | q + 1 <= k < u ensures !IsSpace(s[k]) {
      assert s[k] == url[k - (q + 1)];
    }
    RequestAtSpan(s, p, q, u, c);
  }

  /** A line as the access-log format lays it out, up to the request time. */
  function LogLine(head: string, verb: string, url: string, rest: string, time: string): string
  {
    head + "\"" + verb + " " + url + " " + rest + "\" " + time
  }

  lemma {:induction false} FirstRequestSkips(s: string, p: nat, c: nat, start: nat)
    requires c <= |s| && p <= start < c
    requires forall k :: p <= k < start ==> RequestAt(s, k, c).None?
    ensures FirstRequest(s, p, c) == FirstRequest(s, start, c)
    decreases start - p
  {
    if p < start {
      FirstRequestSkips(s, p + 1, c, start);
    }
  }

  /**
   * Recognising a laid-out line gives back its url and its time, whatever
   * precedes the request (as long as it holds no quote) and whatever sits
   * between the url and the time, with or without the final newline.
   */
  lemma ExtractLogLine(head: string, verb: string, url: string, rest: string, time: string, eol: string)
    requires NoQuote(head)
    requires |verb| > 0 && AllUpper(verb)
    requires |url| > 0 && NoSpace(url)
    requires |rest| > 0 && NoNewline(rest)
    requires |time| > 0 && NoSpace(time)
    requires eol == "" || eol == "\n"
    ensures Extract(LogLine(head, verb, url, rest, time) + eol) == Some((url, time))
  {
    var s := LogLine(head, verb, url, rest, time) + eol;
    LogLineTimeStart(head, verb, url, rest, time, eol);
    LogLineRequest(head, verb, url, rest, time, eol);
    ExtractOf(s, |head| + |verb| + |url| + |rest| + 5, url);
  }

  lemma ExtractOf(s: string, ts: nat, url: string)
    requires TimeStart(s) == Some(ts) && FirstRequest(s, 0, ts - 2) == Some(url)
    ensures Extract(s) == Some((url, s[ts..LineEnd(s)]))
  {
  }

  lemma LogLineTimeStart(head: string, verb: string, url: string, rest: string, time: string, eol: string)
    requires |time| > 0 && NoSpace(time)
    requires eol == "" || eol == "\n"
    ensures var s := LogLine(head, verb, url, rest, time) + eol;
      var ts := |head| + |verb| + |url| + |rest| + 5;
      TimeStart(s) == Some(ts) && ts <= LineEnd(s) && s[ts..LineEnd(s)] == time
  {
    var s := LogLine(head, verb, url, rest, time) + eol;
    var C := |head| + |verb| + |url| + |rest| + 3;
    var E := C + 2 + |time|;
    LogLineLayout(head, verb, url, rest, time, eol);
    forall k | C + 1 < k < E
      ensures !IsSpace(s[k])
    {
      assert s[k] == s[C + 2..E][k - (C + 2)];
    }
    assert LastSpaceBefore(s, E) == Some(C + 1);
  }

  lemma LogLineRequest(head: string, verb: string, url: string, rest: string, time: string, eol: string)
    requires NoQuote(head)
    requires |verb| > 0 && AllUpper(verb)
    requires |url| > 0 && NoSpace(url)
    requires |rest| > 0 && NoNewline(rest)
    requires |time| > 0 && NoSpace(time)
    requires eol == "" || eol == "\n"
    ensures FirstRequest(LogLine(head, verb, url, rest, time) + eol, 0, |head| + |verb| + |url| + |rest| + 3) == Some(url)
  {
    var s := LogLine(head, verb, url, rest, time) + eol;
    var P := |head|;
    var Q := P + 1 + |verb|;
    var U := Q + 1 + |url|;
    var C := U + 1 + |rest|;
    LogLineLayout(head, verb, url, rest, time, eol);
    LogLineChars(head, verb, url, rest, time, eol);
    FirstRequestSpan(s, P, Q, U, C);
  }

  /** The characters before the url: no quote in the head, then the quote, an upper-case verb and a space. */
  lemma LogLineChars(head: string, verb: string, url: string, rest: string, time: string, eol: string)
    requires NoQuote(head) && AllUpper(verb) && NoSpace(url)
    requires |time| > 0 && NoSpace(time)
    requires eol == "" || eol == "\n"
    ensures var s := LogLine(head, verb, url, rest, time) + eol;
      var P := |head|;
      var Q := P + 1 + |verb|;
      var U := Q + 1 + |url|;
      && (forall k :: 0 <= k < P ==> s[k] != '"')
      && (forall k :: P + 1 <= k < Q ==> IsUpper(s[k]))
      && (forall k :: Q + 1 <= k < U ==> !IsSpace(s[k]))
  {
    var s := LogLine(head, verb, url, rest, time) + eol;
    var P := |head|;
    var Q := P + 1 + |verb|;
    var U := Q + 1 + |url|;
    LogLineLayout(head, verb, url, rest, time, eol);
    forall k | 0 <= k < P
      ensures s[k] != '"'
    {
      assert s[k] == head[k];
    }
    forall k | P + 1 <= k < Q
      ensures IsUpper(s[k])
    {
      assert s[k] == verb[k - (P + 1)];
    }
    forall k | Q + 1 <= k < U
      ensures !IsSpace(s[k])
    {
      assert s[k] == url[k - (Q + 1)];
    }
  }

  /** The leftmost request part starts at the first quote of the line. */
  lemma FirstRequestSpan(s: string, p: nat, q: nat, u: nat, c: nat)
    requires p + 1 < q && q + 1 < u && u + 2 <= c <= |s|
    requires s[p] == '"' && IsSpace(s[q]) && IsSpace(s[u])
    requires forall k :: 0 <= k < p ==> s[k] != '"'
    requires forall k :: p + 1 <= k < q ==> IsUpper(s[k])
    requires forall k :: q + 1 <= k < u ==> !IsSpace(s[k])
    requires NoNewline(s[u + 1..c])
    ensures FirstRequest(s, 0, c) == Some(s[q + 1..u])
  {
    forall k | 0 <= k < p
      ensures RequestAt(s, k, c).None?
    {
    }
    FirstRequestSkips(s, 0, c, p);
    RequestAtSpan(s, p, q, u, c);
  }

  /** The request part matches at `p` once its verb ends at `q` and its url at `u`. */
  lemma RequestAtSpan(s: string, p: nat, q: nat, u: nat, c: nat)
    requires p + 1 < q && q + 1 < u && u + 2 <= c <= |s|
    requires s[p] == '"' && IsSpace(s[q]) && IsSpace(s[u])
    requires forall k :: p + 1 <= k < q ==> IsUpper(s[k])
    requires forall k :: q + 1 <= k < u ==> !IsSpace(s[k])
    requires NoNewline(s[u + 1..c])
    ensures RequestAt(s, p, c) == Some(s[q + 1..u])
  {
    assert UpperEnd(s, p + 1) == q;
    assert TokenEnd(s, q + 1) == u;
  }

  /** Where each field of a laid-out line sits. */
  lemma LogLineLayout(head: string, verb: string, url: string, rest: string, time: string, eol: string)
    requires eol == "" || eol == "\n"
    requires |time| > 0 && NoSpace(time)
    ensures var s := LogLine(head, verb, url, rest, time) + eol;
      var P := |head|;
      var Q := P + 1 + |verb|;
      var U := Q + 1 + |url|;
      var C := U + 1 + |rest|;
      var E := C + 2 + |time|;
      && |s| == E + |eol|
      && (forall k :: 0 <= k < P ==> s[k] == head[k])
      && s[P] == '"' && s[P + 1..Q] == verb && s[Q] == ' '
      && (forall k :: P + 1 <= k < Q ==> s[k] == verb[k - (P + 1)])
      && s[Q + 1..U] == url && s[U] == ' '
      && (forall k :: Q + 1 <= k < U ==> s[k] == url[k - (Q + 1)])
      && s[U + 1..C] == rest && s[C] == '"' && s[C + 1] == ' '
      && s[C + 2..E] == time
      && LineEnd(s) == E
  {
    var s := LogLine(head, verb, url, rest, time) + eol;
    var E := |head| + |verb| + |url| + |rest| + 5 + |time|;
    assert s[E - 1] == time[|time| - 1];
  }

  /** First position in `s` holding `a` or `b`, or `|s|` when neither occurs. */
  function IndexOf(s: string, a: char, b: char): (k: nat)
    ensures k <= |s|
    ensures k < |s| ==> s[k] == a || s[k] == b
    ensures forall i :: 0 <= i < k ==> s[i] != a && s[i] != b
  {
    if |s| == 0 then 0
    else if s[0] == a || s[0] == b then 0
    else 1 + IndexOf(s[1..], a, b)
  }

  /** `x` times ten to the power `e`, one decimal shift at a time. */
  function Scale(x: real, e: int): (r: real)
    ensures x >= 0.0 ==> r >= 0.0
    decreases if e >= 0 then e else -e
  {
    if e == 0 then x
    else if e > 0 then 10.0 * Scale(x, e - 1)
    else Scale(x, e + 1) / 10.0
  }

  /** Shifting right by `k` places divides by `10^k`. */
  lemma {:induction false} ScaleDown(x: real, k: nat)
    ensures Scale(x, -(k as int)) == x / Pow10(k) as real
  {
    if k > 0 {
      ScaleDown(x, k - 1);
      assert Pow10(k) as real == 10.0 * Pow10(k - 1) as real;
    }
  }

  /** The value of the decimal numeral `whole.frac`. */
  function PointValue(whole: string, frac: string): (x: real)
    requires AllDigits(whole) && AllDigits(frac)
    ensures x >= 0.0
  {
    DigitsValue(whole) as real + Scale(DigitsValue(frac) as real, -|frac|)
  }

  /** A mantissa: digits with an optional fraction, at least one digit in all. */
  function ParseMantissa(m: string): (r: Option<real>)
    ensures r.Some? ==> r.value >= 0.0
  {
    var d := IndexOf(m, '.', '.');
    var whole := m[..d];
    var frac := if d < |m| then m[d + 1..] else [];
    if AllDigits(whole) && AllDigits(frac) && |whole| + |frac| > 0 then
      Some(PointValue(whole, frac))
    else
      None
  }

  /** An exponent: optional sign followed by at least one digit. */
  function ParseExponent(e: string): Option<int>
  {
    if |e| > 0 && (e[0] == '+' || e[0] == '-') then
      if |e| > 1 && AllDigits(e[1..]) then
        var v: int := DigitsValue(e[1..]);
        Some(if e[0] == '-' then -v else v)
      else
        None
    else if |e| > 0 && AllDigits(e) then
      Some(DigitsValue(e))
    else
      None
  }

  function ParseUnsigned(t: string): (r: Option<real>)
    ensures r.Some? ==> r.value >= 0.0
  {
    var k := IndexOf(t, 'e', 'E');
    match ParseMantissa(t[..k])
    case None => None
    case Some(m) =>
      if k == |t| then Some(m)
      else
        match ParseExponent(t[k + 1..])
        case None => None
        case Some(e) => Some(Scale(m, e))
  }

  /**
   * `float()` on a request-time token: an optional sign, then a decimal
   * mantissa with an optional exponent. None stands for the ValueError.
   */
  function ParseTime(t: string): (r: Option<real>)
  {
    if |t| > 0 && (t[0] == '+' || t[0] == '-') then
      match ParseUnsigned(t[1..])
      case None => None
      case Some(x) => Some(if t[0] == '-' then -x else x)
    else
      ParseUnsigned(t)
  }

  /**
   * `whole.fraction` with the fraction zero-padded to `places` digits, the
   * way nginx prints `$request_time` (three places).
   */
  function FixedPoint(whole: nat, fraction: nat, places: nat): (s: string)
    requires fraction < Pow10(places)
  {
    Decimal(whole) + "." + Pad(fraction, places)
  }

  /** Reading a fixed-point time back gives its exact value. */
  lemma ParseFixedPoint(whole: nat, fraction: nat, places: nat)
    requires fraction < Pow10(places)
    ensures ParseTime(FixedPoint(whole, fraction, places)) ==
      Some(whole as real + fraction as real / Pow10(places) as real)
  {
    FixedPointParses(whole, fraction, places);
    var w := Decimal(whole);
    var f := Pad(fraction, places);
    DecimalRoundTrip(whole);
    PadRoundTrip(fraction, places);
    assert |f| == places;
    PointValueOf(w, f, whole, fraction);
    assert PointValue(w, f) == whole as real + fraction as real / Pow10(places) as real;
  }

  lemma FixedPointParses(whole: nat, fraction: nat, places: nat)
    requires fraction < Pow10(places)
    ensures ParseTime(FixedPoint(whole, fraction, places)) ==
      Some(PointValue(Decimal(whole), Pad(fraction, places)))
  {
    DecimalRoundTrip(whole);
    ParsePlainDecimal(Decimal(whole), Pad(fraction, places));
  }

  /** `float()` on `whole.frac` with decimal digits on both sides. */
  lemma ParsePlainDecimal(whole: string, frac: string)
    requires |whole| > 0 && AllDigits(whole) && AllDigits(frac)
    ensures ParseTime(whole + "." + frac) == Some(PointValue(whole, frac))
  {
    var t := whole + "." + frac;
    assert t[0] == whole[0];
    NoExponentMark(whole, frac);
    assert t[..|t|] == t;
    ParseMantissaSplit(whole, frac);
  }

  lemma NoExponentMark(whole: string, frac: string)
    requires AllDigits(whole) && AllDigits(frac)
    ensures IndexOf(whole + "." + frac, 'e', 'E') == |whole + "." + frac|
  {
    var t := whole + "." + frac;
    forall i | 0 <= i < |t|
      ensures t[i] != 'e' && t[i] != 'E'
    {
      if i < |whole| {
        assert t[i] == whole[i];
      } else if i > |whole| {
        assert t[i] == frac[i - |whole| - 1];
      }
    }
    IndexOfAbsent(t, 'e', 'E');
  }

  lemma {:induction false} IndexOfAbsent(s: string, a: char, b: char)
    requires forall i :: 0 <= i < |s| ==> s[i] != a && s[i] != b
    ensures IndexOf(s, a, b) == |s|
  {
    if |s| > 0 {
      IndexOfAbsent(s[1..], a, b);
    }
  }

  lemma ParseMantissaSplit(whole: string, frac: string)
    requires AllDigits(whole) && AllDigits(frac)
    ensures IndexOf(whole + "." + frac, '.', '.') == |whole|
    ensures ParseMantissa(whole + "." + frac) == if |whole| + |frac| > 0 then Some(PointValue(whole, frac)) else None
  {
    var m := whole + "." + frac;
    forall i | 0 <= i < |whole|
      ensures m[i] != '.'
    {
      assert m[i] == whole[i];
    }
    IndexOfFirst(m, '.', '.', |whole|);
    assert m[..|whole|] == whole;
    assert m[|whole| + 1..] == frac;
  }

  lemma {:induction false} IndexOfFirst(s: string, a: char, b: char, k: nat)
    requires k < |s| && s[k] == a
    requires forall i :: 0 <= i < k ==> s[i] != a && s[i] != b
    ensures IndexOf(s, a, b) == k
  {
    if k > 0 {
      IndexOfFirst(s[1..], a, b, k - 1);
    }
  }

  lemma PointValueOf(whole: string, frac: string, q: nat, r: nat)
    requires AllDigits(whole) && AllDigits(frac)
    requires DigitsValue(whole) == q && DigitsValue(frac) == r
    ensures PointValue(whole, frac) == q as real + r as real / Pow10(|frac|) as real
  {
    ScaleDown(r as real, |frac|);
    assert Scale(DigitsValue(frac) as real, -|frac|) == r as real / Pow10(|frac|) as real;
  }

}
