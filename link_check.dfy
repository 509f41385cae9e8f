/** The link check `test_urls_from_response_okay`: find the URLs in an
    answer with the pattern `https?://\S+`, strip trailing dots, and reject
    the first URL that names the blocked source or whose HEAD request comes
    back 401, 403 or 404. The HEAD request is an oracle from URL to status. */
module LinkCheck {
  import opened Outcomes
  import opened Text

  const HttpScheme: string := "http://"
  const HttpsScheme: string := "https://"
  const PolicyMarker: string := "academy"

  /** Python's `str.isspace`, which is what `\s` means in a `str` pattern. */
  predicate IsSpace(c: char)
  {
    ('\t' <= c <= '\r') || ('\U{1C}' <= c <= ' ') || c == '\U{85}' || c == '\U{A0}' ||
    c == '\U{1680}' || ('\U{2000}' <= c <= '\U{200A}') || c == '\U{2028}' || c == '\U{2029}' ||
    c == '\U{202F}' || c == '\U{205F}' || c == '\U{3000}'
  }

  predicate NoSpace(u: string)
  {
    forall k :: 0 <= k < |u| ==> !IsSpace(u[k])
  }

  /** A string the pattern `https?://\S+` matches as a whole. */
  predicate UrlShaped(u: string)
  {
    ((StartsWith(u, HttpScheme) && |u| > |HttpScheme|) ||
     (StartsWith(u, HttpsScheme) && |u| > |HttpsScheme|)) &&
    NoSpace(u)
  }

  /** The pattern, tried at position `i`, matches up to `e`: the match is
      URL-shaped and stops only at whitespace or at the end (greedy `\S+`). */
  predicate RegexMatchAt(text: string, i: nat, e: nat)
  {
    i < e <= |text| && UrlShaped(text[i..e]) && (e == |text| || IsSpace(text[e]))
  }

  /** The length of the scheme at `i`: 8 for `https://`, 7 for `http://`,
      0 for neither. */
  function SchemeLength(text: string, i: nat): nat
  {
    if OccursAt(text, HttpsScheme, i) then |HttpsScheme|
    else if OccursAt(text, HttpScheme, i) then |HttpScheme|
    else 0
  }

  /** The first whitespace position at or after `j`, or the end. */
  function SpaceFrom(text: string, j: nat): (r: nat)
    requires j <= |text|
    ensures j <= r <= |text| && (r == |text| || IsSpace(text[r]))
    ensures forall k :: j <= k < r ==> !IsSpace(text[k])
    decreases |text| - j
  {
    if j == |text| || IsSpace(text[j]) then j else SpaceFrom(text, j + 1)
  }

  /** Where the pattern's match starting at `i` ends, if it matches there. */
  function MatchEnd(text: string, i: nat): (r: Option<nat>)
    requires i <= |text|
    ensures r.Some? ==> i < r.value <= |text|
  {
    var n := SchemeLength(text, i);
    if n > 0 && i + n < |text| && !IsSpace(text[i + n]) then Some(SpaceFrom(text, i + n)) else None
  }

  /** No string starts with both schemes: they differ at index 4. */
  lemma SchemesExclusive(u: string)
    ensures !(StartsWith(u, HttpScheme) && StartsWith(u, HttpsScheme))
  {
    if StartsWith(u, HttpScheme) {
      assert u[4] == u[..|HttpScheme|][4] == ':';
    }
    if StartsWith(u, HttpsScheme) {
      assert u[4] == u[..|HttpsScheme|][4] == 's';
    }
  }

  /** What `MatchEnd` finds is a match of the pattern. */
  lemma MatchEndSound(text: string, i: nat)
    requires i <= |text| && MatchEnd(text, i).Some?
    ensures RegexMatchAt(text, i, MatchEnd(text, i).value)
  {
    var n := SchemeLength(text, i);
    var e := MatchEnd(text, i).value;
    var u := text[i..e];
    assert u[..n] == text[i..i + n];
    forall k | 0 <= k < |u| ensures !IsSpace(u[k]) {
      assert u[k] == text[i + k];
    }
  }

  /** The match at `i` is unique, and `MatchEnd` finds it whenever the
      pattern matches at `i`. */
  lemma MatchEndComplete(text: string, i: nat, e: nat)
    requires RegexMatchAt(text, i, e)
    ensures MatchEnd(text, i) == Some(e)
  {
    var u := text[i..e];
    SchemesExclusive(u);
    var n := if StartsWith(u, HttpsScheme) then |HttpsScheme| else |HttpScheme|;
    assert |u| > n;
    assert u[..n] == text[i..i + n];
    if !StartsWith(u, HttpsScheme) {
      assert !OccursAt(text, HttpsScheme, i) by {
        assert text[i + 4] == u[4];
      }
    }
    assert SchemeLength(text, i) == n;
    assert text[i + n] == u[n];
    forall k | i + n <= k < e
      ensures !IsSpace(text[k])
    {
      assert text[k] == u[k - i];
    }
    assert SpaceFrom(text, i + n) == e;
  }

  datatype Span = Span(start: nat, stop: nat)

  /** For each position, where a pattern's match starting there ends. */
  type Matcher = nat -> Option<nat>

  /** Every match of `m` below `n` is non-empty and ends by `n`. */
  ghost predicate Advances(m: Matcher, n: nat)
  {
    forall p: nat :: p <= n && m(p).Some? ==> p < m(p).value <= n
  }

  /** `re.findall` over positions `i..n` for any pattern, as spans: try the
      pattern at each position from left to right; after a match resume
      where it ended. */
  function ScanWith(m: Matcher, n: nat, i: nat): seq<Span>
    requires Advances(m, n) && i <= n
    decreases n - i
  {
    if i == n then []
    else
      match m(i)
      case Some(e) => [Span(i, e)] + ScanWith(m, n, e)
      case None => ScanWith(m, n, i + 1)
  }

  /** Spans from `i` to `n`, each a match of `m` at its start, in order
      and without overlap. */
  ghost predicate Matches(m: Matcher, n: nat, i: nat, spans: seq<Span>)
  {
    (forall k :: 0 <= k < |spans| ==> i <= spans[k].start < spans[k].stop <= n) &&
    (forall k :: 0 <= k < |spans| ==> m(spans[k].start) == Some(spans[k].stop)) &&
    (forall k, k' :: 0 <= k < k' < |spans| ==> spans[k].stop <= spans[k'].start)
  }

  /** A match followed by matches from where it ends are matches. */
  lemma MatchesPrepend(m: Matcher, n: nat, i: nat, e: nat, rest: seq<Span>)
    requires i < e <= n && m(i) == Some(e)
    requires Matches(m, n, e, rest)
    ensures Matches(m, n, i, [Span(i, e)] + rest)
  {
    var r := [Span(i, e)] + rest;
    forall k | 0 < k < |r|
      ensures r[k] == rest[k - 1] && e <= r[k].start
    {
    }
  }

  /** What the scan finds are matches of the pattern, in order and without
      overlap. */
  lemma {:induction false} ScanWithFacts(m: Matcher, n: nat, i: nat)
    requires Advances(m, n) && i <= n
    ensures Matches(m, n, i, ScanWith(m, n, i))
    decreases n - i
  {
    if i < n {
      if m(i).Some? {
        var e := m(i).value;
        ScanWithFacts(m, n, e);
        MatchesPrepend(m, n, i, e, ScanWith(m, n, e));
        assert ScanWith(m, n, i) == [Span(i, e)] + ScanWith(m, n, e);
      } else {
        ScanWithFacts(m, n, i + 1);
        assert ScanWith(m, n, i) == ScanWith(m, n, i + 1);
      }
    }
  }

  ghost predicate Covered(spans: seq<Span>, p: nat)
  {
    exists k :: 0 <= k < |spans| && spans[k].start <= p < spans[k].stop
  }

  /** Spans that describe `re.findall`'s result from `i` on: each is the
      match at its start, they come in order without overlap, and every
      position from `i` on at which the pattern matches lies inside one. */
  ghost predicate FindAllShape(m: Matcher, n: nat, i: nat, spans: seq<Span>)
  {
    (forall k :: 0 <= k < |spans| ==> i <= spans[k].start <= n && m(spans[k].start) == Some(spans[k].stop)) &&
    (forall k, k' :: 0 <= k < k' < |spans| ==> spans[k].stop <= spans[k'].start) &&
    (forall p {:trigger Covered(spans, p)} :: i <= p <= n && m(p).Some? ==> Covered(spans, p))
  }

  /** A match at `i` ending at `e`, followed by spans covering every match
      from `e` on, covers every match from `i` on. */
  lemma CoverAfterMatch(m: Matcher, n: nat, i: nat, e: nat, rest: seq<Span>)
    requires i < e
    requires forall p :: e <= p <= n && m(p).Some? ==> Covered(rest, p)
    ensures forall p :: i <= p <= n && m(p).Some? ==> Covered([Span(i, e)] + rest, p)
  {
    var r := [Span(i, e)] + rest;
    forall p | i <= p <= n && m(p).Some?
      ensures Covered(r, p)
    {
      if p < e {
        assert r[0].start <= p < r[0].stop;
      } else {
        var k :| 0 <= k < |rest| && rest[k].start <= p < rest[k].stop;
        assert r[k + 1] == rest[k];
      }
    }
  }

  /** The scan misses no match: a position where the pattern matches is
      covered by a found span. */
  lemma {:induction false} ScanComplete(m: Matcher, n: nat, i: nat)
    requires Advances(m, n) && i <= n
    ensures forall p :: i <= p <= n && m(p).Some? ==> Covered(ScanWith(m, n, i), p)
    decreases n - i
  {
    if i < n {
      if m(i).Some? {
        var e := m(i).value;
        var rest := ScanWith(m, n, e);
        ScanComplete(m, n, e);
        CoverAfterMatch(m, n, i, e, rest);
        assert ScanWith(m, n, i) == [Span(i, e)] + rest;
      } else {
        var rest := ScanWith(m, n, i + 1);
        ScanComplete(m, n, i + 1);
        CoverAfterSkip(m, n, i, rest);
        assert ScanWith(m, n, i) == rest;
      }
    }
  }

  /** The scan has the shape of `re.findall`'s result. */
  lemma ScanHasShape(m: Matcher, n: nat, i: nat)
    requires Advances(m, n) && i <= n
    ensures FindAllShape(m, n, i, ScanWith(m, n, i))
  {
    ScanWithFacts(m, n, i);
    ScanComplete(m, n, i);
  }

  lemma CoverAfterSkip(m: Matcher, n: nat, i: nat, rest: seq<Span>)
    requires m(i).None?
    requires forall p :: i + 1 <= p <= n && m(p).Some? ==> Covered(rest, p)
    ensures forall p :: i <= p <= n && m(p).Some? ==> Covered(rest, p)
  {
  }

  /** When the pattern matches at `i`, that match is the first span. */
  lemma FirstSpanAt(m: Matcher, n: nat, i: nat, spans: seq<Span>)
    requires Advances(m, n) && i <= n && m(i).Some?
    requires FindAllShape(m, n, i, spans)
    ensures spans != [] && spans[0] == Span(i, m(i).value)
  {
    assert Covered(spans, i);
    var k :| 0 <= k < |spans| && spans[k].start <= i < spans[k].stop;
    assert m(spans[0].start).Some?;
    assert spans[0].start < spans[0].stop;
    assert spans[0].start == i;
  }

  /** After the first span, the remaining spans describe the scan from
      where it ended. */
  lemma ShapeAfterFirst(m: Matcher, n: nat, i: nat, spans: seq<Span>)
    requires Advances(m, n) && i <= n && spans != []
    requires FindAllShape(m, n, i, spans)
    ensures spans[0].stop <= n
    ensures FindAllShape(m, n, spans[0].stop, spans[1..])
  {
    var e := spans[0].stop;
    var rest := spans[1..];
    assert m(spans[0].start).Some?;
    forall p | e <= p <= n && m(p).Some?
      ensures Covered(rest, p)
    {
      assert Covered(spans, p);
      var k :| 0 <= k < |spans| && spans[k].start <= p < spans[k].stop;
      assert rest[k - 1] == spans[k];
    }
    forall k | 0 <= k < |rest|
      ensures e <= rest[k].start
    {
      assert spans[0].stop <= spans[k + 1].start;
    }
  }

  /** Where the pattern matches at `i`, the spans are that match followed by
      spans that describe the scan from where it ended. */
  lemma ShapeAtMatch(m: Matcher, n: nat, i: nat, spans: seq<Span>)
    requires Advances(m, n) && i <= n && m(i).Some?
    requires FindAllShape(m, n, i, spans)
    ensures spans != [] && spans[0] == Span(i, m(i).value) && m(i).value <= n
    ensures FindAllShape(m, n, m(i).value, spans[1..])
  {
    FirstSpanAt(m, n, i, spans);
    ShapeAfterFirst(m, n, i, spans);
  }

  /** A position where the pattern does not match starts no span. */
  lemma ShapeSkip(m: Matcher, n: nat, i: nat, spans: seq<Span>)
    requires Advances(m, n) && i < n && m(i).None?
    requires FindAllShape(m, n, i, spans)
    ensures FindAllShape(m, n, i + 1, spans)
  {
    forall k | 0 <= k < |spans|
      ensures i + 1 <= spans[k].start
    {
      assert m(spans[k].start).Some?;
    }
  }

  /** The first span, if any, is a non-empty match inside the scanned
      range. */
  lemma FirstSpanInRange(m: Matcher, n: nat, i: nat, spans: seq<Span>)
    requires Advances(m, n)
    requires FindAllShape(m, n, i, spans)
    ensures |spans| > 0 ==> i <= spans[0].start < spans[0].stop <= n
  {
  }

  /** The described spans are unique: `ScanWith` is the only list with that
      shape, so the shape is a reference definition of `re.findall`. */
  lemma {:induction false} ScanUnique(m: Matcher, n: nat, i: nat, spans: seq<Span>)
    requires Advances(m, n) && i <= n
    requires FindAllShape(m, n, i, spans)
    ensures spans == ScanWith(m, n, i)
    decreases n - i, 1
  {
    if i == n {
      FirstSpanInRange(m, n, i, spans);
    } else if m(i).Some? {
      ShapeAtMatch(m, n, i, spans);
      UniqueAtMatch(m, n, i, spans);
    } else {
      ShapeSkip(m, n, i, spans);
      ScanUnique(m, n, i + 1, spans);
      assert ScanWith(m, n, i) == ScanWith(m, n, i + 1);
    }
  }

  /** The case of `ScanUnique` where the pattern matches at `i`. */
  lemma {:induction false} UniqueAtMatch(m: Matcher, n: nat, i: nat, spans: seq<Span>)
    requires Advances(m, n) && i < n && m(i).Some? && m(i).value <= n
    requires spans != [] && spans[0] == Span(i, m(i).value)
    requires FindAllShape(m, n, m(i).value, spans[1..])
    ensures spans == ScanWith(m, n, i)
    decreases n - i, 0
  {
    var e := m(i).value;
    ScanUnique(m, n, e, spans[1..]);
    HeadTail(spans);
    assert ScanWith(m, n, i) == [Span(i, e)] + ScanWith(m, n, e);
  }

  lemma HeadTail<T>(s: seq<T>)
    requires s != []
    ensures s == [s[0]] + s[1..]
  {
  }


  /** The URL pattern as a matcher over `text`. */
  function UrlMatcher(text: string): (m: Matcher)
    ensures Advances(m, |text|)
  {
    (p: nat) => if p <= |text| then MatchEnd(text, p) else None
  }

  /** `re.findall(r"https?://\S+", text)` as spans. */
  function Scan(text: string): (r: seq<Span>)
    ensures forall k :: 0 <= k < |r| ==> r[k].start < r[k].stop <= |text|
    ensures forall k, k' :: 0 <= k < k' < |r| ==> r[k].stop <= r[k'].start
  {
    ScanWithFacts(UrlMatcher(text), |text|, 0);
    ScanWith(UrlMatcher(text), |text|, 0)
  }

  /** Every found span is a match of the pattern, stated in the pattern's
      own terms. */
  lemma ScanSound(text: string, k: nat)
    requires k < |Scan(text)|
    ensures RegexMatchAt(text, Scan(text)[k].start, Scan(text)[k].stop)
  {
    var sp := Scan(text)[k];
    ScanWithFacts(UrlMatcher(text), |text|, 0);
    assert UrlMatcher(text)(sp.start) == Some(sp.stop);
    MatchEndSound(text, sp.start);
  }

  /** Every match of the pattern in the text starts inside a found span. */
  lemma ScanCovers(text: string, p: nat, e: nat)
    requires RegexMatchAt(text, p, e)
    ensures Covered(Scan(text), p)
  {
    MatchEndComplete(text, p, e);
    ScanComplete(UrlMatcher(text), |text|, 0);
    assert UrlMatcher(text)(p).Some?;
  }

  predicate SpansWithin(text: string, spans: seq<Span>)
  {
    forall k :: 0 <= k < |spans| ==> spans[k].start <= spans[k].stop <= |text|
  }

  /** The matched substrings of the spans. */
  function UrlTexts(text: string, spans: seq<Span>): (r: seq<string>)
    requires SpansWithin(text, spans)
    ensures |r| == |spans| && forall k :: 0 <= k < |r| ==> r[k] == text[spans[k].start..spans[k].stop]
  {
    seq(|spans|, k requires 0 <= k < |spans| => text[spans[k].start..spans[k].stop])
  }

  /** `re.findall(r"https?://\S+", text)`. */
  function FindUrls(text: string): seq<string>
  {
    UrlTexts(text, Scan(text))
  }

  /** Text with no URL-shaped substring yields no URL, and the other way
      round. */
  lemma NoMatchNoUrls(text: string)
    ensures FindUrls(text) == [] <==> forall p, e :: !RegexMatchAt(text, p, e)
  {
    if FindUrls(text) == [] {
      forall p, e | RegexMatchAt(text, p, e) ensures false {
        ScanCovers(text, p, e);
      }
    } else {
      ScanSound(text, 0);
    }
  }

  /** One more span adds its matched text at the end. */
  lemma UrlTextsSnoc(text: string, spans: seq<Span>, s: Span)
    requires SpansWithin(text, spans) && s.start <= s.stop <= |text|
    ensures SpansWithin(text, spans + [s])
    ensures UrlTexts(text, spans + [s]) == UrlTexts(text, spans) + [text[s.start..s.stop]]
  {
    assert SpansWithin(text, spans + [s]) by {
      forall k | 0 <= k < |spans| + 1
        ensures (spans + [s])[k].start <= (spans + [s])[k].stop <= |text|
      {
        if k < |spans| {
          assert (spans + [s])[k] == spans[k];
        }
      }
    }
    var l := UrlTexts(text, spans + [s]);
    var r := UrlTexts(text, spans) + [text[s.start..s.stop]];
    forall k | 0 <= k < |l| ensures l[k] == r[k] {
      if k < |spans| {
        assert (spans + [s])[k] == spans[k];
      }
    }
  }

  /** What is left of the scan from position `i` on. */
  function ScanFrom(text: string, i: nat): seq<Span>
    requires i <= |text|
  {
    ScanWith(UrlMatcher(text), |text|, i)
  }

  /** A match at `i` is the next span; the scan resumes where it ends. */
  lemma ScanFromMatch(text: string, i: nat, e: nat)
    requires i < |text| && MatchEnd(text, i) == Some(e)
    ensures e <= |text| && ScanFrom(text, i) == [Span(i, e)] + ScanFrom(text, e)
  {
    assert UrlMatcher(text)(i) == Some(e);
  }

  /** Without a match at `i` the scan moves on by one position. */
  lemma ScanFromSkip(text: string, i: nat)
    requires i < |text| && MatchEnd(text, i).None?
    ensures ScanFrom(text, i) == ScanFrom(text, i + 1)
  {
    assert UrlMatcher(text)(i).None?;
  }

  /** A match at `i` moves one span from the rest of the scan to the part
      already done. */
  lemma ScanAdvance(text: string, done: seq<Span>, i: nat, e: nat)
    requires i < |text| && MatchEnd(text, i) == Some(e)
    requires Scan(text) == done + ScanFrom(text, i)
    ensures e <= |text| && Scan(text) == (done + [Span(i, e)]) + ScanFrom(text, e)
  {
    ScanFromMatch(text, i, e);
    assert done + ([Span(i, e)] + ScanFrom(text, e)) == (done + [Span(i, e)]) + ScanFrom(text, e);
  }

  /** Without a match at `i` the part already done stays as it is. */
  lemma ScanSkipStep(text: string, done: seq<Span>, i: nat)
    requires i < |text| && MatchEnd(text, i).None?
    requires Scan(text) == done + ScanFrom(text, i)
    ensures Scan(text) == done + ScanFrom(text, i + 1)
  {
    ScanFromSkip(text, i);
  }

  /** At the end of the text the part already done is the whole scan. */
  lemma ScanDone(text: string, done: seq<Span>)
    requires Scan(text) == done + ScanFrom(text, |text|)
    ensures done == Scan(text)
  {
    assert ScanFrom(text, |text|) == [];
  }

  /** The pattern tried at `i`: the scheme, then a run over the
      non-whitespace that follows it. */
  method MatchAt(text: string, i: nat) returns (r: Option<nat>)
    requires i <= |text|
    ensures r == MatchEnd(text, i)
  {
    var n := SchemeLength(text, i);
    if n > 0 && i + n < |text| && !IsSpace(text[i + n]) {
      var e := i + n;
      while e < |text| && !IsSpace(text[e])
        invariant i + n <= e <= |text|
        invariant SpaceFrom(text, i + n) == SpaceFrom(text, e)
        decreases |text| - e
      {
        e := e + 1;
      }
      r := Some(e);
    } else {
      r := None;
    }
  }

  /** `re.findall` as the index-advancing scan it is: try the pattern at
      each position; after a match resume where it ended. */
  method FindAll(text: string) returns (urls: seq<string>)
    ensures urls == FindUrls(text)
  {
    urls := [];
    ghost var done: seq<Span> := [];
    var i := 0;
    while i < |text|
      invariant i <= |text|
      invariant Scan(text) == done + ScanFrom(text, i)
      invariant SpansWithin(text, done)
      invariant urls == UrlTexts(text, done)
      decreases |text| - i
    {
      var m := MatchAt(text, i);
      if m.Some? {
        var e := m.value;
        ScanAdvance(text, done, i, e);
        UrlTextsSnoc(text, done, Span(i, e));
        done := done + [Span(i, e)];
        urls := urls + [text[i..e]];
        i := e;
      } else {
        ScanSkipStep(text, done, i);
        i := i + 1;
      }
    }
    ScanDone(text, done);
  }

  /** `s.rstrip(c)`: the longest prefix of `s` not ending in `c`. */
  function RStrip(s: string, c: char): (r: string)
    ensures |r| <= |s| && r == s[..|r|]
    ensures |r| == 0 || r[|r| - 1] != c
    ensures forall k :: |r| <= k < |s| ==> s[k] == c
  {
    if |s| > 0 && s[|s| - 1] == c then RStrip(s[..|s| - 1], c) else s
  }

  /** `[url.rstrip(".") for url in urls]`. */
  function Formatted(urls: seq<string>): seq<string>
  {
    seq(|urls|, k requires 0 <= k < |urls| => RStrip(urls[k], '.'))
  }

  /** Stripping trailing dots from a URL-shaped match keeps its scheme,
      adds no whitespace, and leaves it not ending in `.`. */
  lemma StrippedUrlShape(raw: string)
    requires UrlShaped(raw)
    ensures var u := RStrip(raw, '.');
      (StartsWith(u, HttpScheme) || StartsWith(u, HttpsScheme)) && NoSpace(u) &&
      |u| > 0 && u[|u| - 1] != '.' && u == raw[..|u|]
  {
    var u := RStrip(raw, '.');
    var n := if StartsWith(raw, HttpsScheme) then |HttpsScheme| else |HttpScheme|;
    assert raw[n - 1] == raw[..n][n - 1];
    assert |u| >= n;
    assert u[..n] == raw[..n];
    forall j | 0 <= j < |u| ensures !IsSpace(u[j]) {
      assert u[j] == raw[j];
    }
  }

  /** Every checked URL starts with a scheme, has no whitespace, does not end
      in `.`, and is the text at the start of its match; the URLs follow the
      order of the answer, without overlap. */
  lemma FormattedUrlShape(text: string, k: nat)
    requires k < |FindUrls(text)|
    ensures var u := Formatted(FindUrls(text))[k];
      var sp := Scan(text)[k];
      (StartsWith(u, HttpScheme) || StartsWith(u, HttpsScheme)) && NoSpace(u) &&
      |u| > 0 && u[|u| - 1] != '.' &&
      sp.start + |u| <= sp.stop && text[sp.start..sp.start + |u|] == u
    ensures forall k' :: k < k' < |FindUrls(text)| ==> Scan(text)[k].stop <= Scan(text)[k'].start
  {
    var sp := Scan(text)[k];
    var raw := text[sp.start..sp.stop];
    assert FindUrls(text)[k] == raw;
    ScanSound(text, k);
    StrippedUrlShape(raw);
    var u := RStrip(raw, '.');
    assert text[sp.start..sp.start + |u|] == raw[..|u|];
  }

  predicate Blocked(u: string)
  {
    Contains(u, PolicyMarker)
  }

  predicate RejectedStatus(status: int)
  {
    status == 401 || status == 403 || status == 404
  }

  /** A URL passes both checks: not blocked by policy, and its HEAD
      request returns a status other than 401, 403 and 404. */
  predicate Clears(u: string, head: string -> Outcome<int>)
  {
    !Blocked(u) && head(u).Ok? && !RejectedStatus(head(u).value)
  }

  /** The exception a failing URL raises: the HEAD request's own exception if
      it raised, otherwise `ValueError(url)`. */
  function Failure(u: string, head: string -> Outcome<int>): Exception
  {
    if !Blocked(u) && head(u).Raise? then head(u).error else ValueError(u)
  }

  datatype Verdict = Passed | Failed(error: Exception)

  /** How a check ends, and the URLs it sent HEAD requests for, in order. */
  datatype Run = Run(verdict: Verdict, probed: seq<string>)

  /** The loop over the formatted URLs, as a function. */
  function Probe(urls: seq<string>, head: string -> Outcome<int>): Run
    decreases |urls|
  {
    if urls == [] then Run(Passed, [])
    else
      var u := urls[0];
      if Blocked(u) then Run(Failed(ValueError(u)), [])
      else
        match head(u)
        case Raise(e) => Run(Failed(e), [u])
        case Ok(status) =>
          if RejectedStatus(status) then Run(Failed(ValueError(u)), [u])
          else
            var rest := Probe(urls[1..], head);
            Run(rest.verdict, [u] + rest.probed)
  }

  /** The check of a whole answer. */
  function CheckText(text: string, head: string -> Outcome<int>): Run
  {
    Probe(Formatted(FindUrls(text)), head)
  }

  /** If every URL clears both checks, the check passes having probed each. */
  lemma {:induction false} ProbeAllClear(urls: seq<string>, head: string -> Outcome<int>)
    requires forall k :: 0 <= k < |urls| ==> Clears(urls[k], head)
    ensures Probe(urls, head) == Run(Passed, urls)
    decreases |urls|
  {
    if urls != [] {
      ProbeAllClear(urls[1..], head);
      assert urls == [urls[0]] + urls[1..];
    }
  }

  /** The first URL that fails a check decides the outcome: it raises, and
      HEAD was sent for exactly the URLs before it, and for it unless the
      policy blocked it first. */
  lemma {:induction false} ProbeFirstFailure(urls: seq<string>, head: string -> Outcome<int>, k: nat)
    requires k < |urls|
    requires forall j :: 0 <= j < k ==> Clears(urls[j], head)
    requires !Clears(urls[k], head)
    ensures Probe(urls, head) ==
      Run(Failed(Failure(urls[k], head)), urls[..k] + if Blocked(urls[k]) then [] else [urls[k]])
    decreases k
  {
    if k > 0 {
      ProbeFirstFailure(urls[1..], head, k - 1);
      assert urls[..k] == [urls[0]] + urls[1..][..k - 1];
    }
  }

  /** The check passes exactly when every URL clears both checks. */
  lemma {:induction false} ProbePassedIff(urls: seq<string>, head: string -> Outcome<int>)
    ensures Probe(urls, head).verdict == Passed <==> forall k :: 0 <= k < |urls| ==> Clears(urls[k], head)
    decreases |urls|
  {
    if urls != [] {
      ProbePassedIff(urls[1..], head);
      if Clears(urls[0], head) {
        forall k | 0 < k < |urls| ensures urls[k] == urls[1..][k - 1] { }
      }
    }
  }

  /** No HEAD request is ever sent for a URL the policy blocks. */
  lemma {:induction false} BlockedNeverProbed(urls: seq<string>, head: string -> Outcome<int>)
    ensures forall u :: u in Probe(urls, head).probed ==> !Blocked(u)
    decreases |urls|
  {
    if urls != [] && !Blocked(urls[0]) {
      BlockedNeverProbed(urls[1..], head);
    }
  }

  /** A blocked URL is rejected whatever the HEAD oracle says about it:
      two oracles that agree on the URLs before it give the same run. */
  lemma BlockedDecidedWithoutHead(urls: seq<string>, h1: string -> Outcome<int>,
                                  h2: string -> Outcome<int>, k: nat)
    requires k < |urls| && Blocked(urls[k])
    requires forall j :: 0 <= j < k ==> Clears(urls[j], h1) && h1(urls[j]) == h2(urls[j])
    ensures Probe(urls, h1) == Probe(urls, h2) == Run(Failed(ValueError(urls[k])), urls[..k])
  {
    ProbeFirstFailure(urls, h1, k);
    ProbeFirstFailure(urls, h2, k);
  }

  /** An answer without a URL-shaped substring passes, and sends nothing. */
  lemma NoUrlPasses(text: string, head: string -> Outcome<int>)
    requires forall p, e :: !RegexMatchAt(text, p, e)
    ensures CheckText(text, head) == Run(Passed, [])
  {
    NoMatchNoUrls(text);
  }

  /** The `for` loop of `test_urls_from_response_okay` over the formatted
      URLs: it raises at the first URL that names the blocked source, whose
      HEAD request raises, or whose HEAD status is 401, 403 or 404.
      `probed` lists the HEAD requests sent, in order. */
  method CheckUrls(urls: seq<string>, head: string -> Outcome<int>)
    returns (verdict: Verdict, probed: seq<string>)
    ensures Run(verdict, probed) == Probe(urls, head)
  {
    probed := [];
    var k := 0;
    while k < |urls|
      invariant k <= |urls|
      invariant forall j :: 0 <= j < k ==> Clears(urls[j], head)
      invariant probed == urls[..k]
    {
      var url := urls[k];
      if Contains(url, PolicyMarker) {
        ProbeFirstFailure(urls, head, k);
        return Failed(ValueError(url)), probed;
      }
      probed := probed + [url];
      var res := head(url);
      if res.Raise? {
        ProbeFirstFailure(urls, head, k);
        return Failed(res.error), probed;
      }
      if res.value == 401 || res.value == 403 || res.value == 404 {
        ProbeFirstFailure(urls, head, k);
        return Failed(ValueError(url)), probed;
      }
      k := k + 1;
    }
    ProbeAllClear(urls, head);
    assert urls[..k] == urls;
    verdict := Passed;
  }

  /** `test_urls_from_response_okay(text)`: find the URLs, strip their
      trailing dots, and check them in order. */
  method TestUrlsFromResponseOkay(text: string, head: string -> Outcome<int>)
    returns (verdict: Verdict, probed: seq<string>)
    ensures Run(verdict, probed) == CheckText(text, head)
  {
    var urls := FindAll(text);
    var formatted := Formatted(urls);
    verdict, probed := CheckUrls(formatted, head);
  }
}
